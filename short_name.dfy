/**
  The short name of a registry key: the last segment of `key.split("\\.")`.

  Java's `String.split(regex)` (limit 0) returns the whole string when the
  separator does not occur; otherwise it cuts at every separator and then
  drops the trailing empty segments. So `"a."` splits to `["a"]`, and a key
  made only of dots splits to the empty array, on which
  `keyParts[keyParts.length - 1]` throws.
 */
module ShortNames {
  import opened Wrappers

  /** `key.contains(".")`; `DottedIffCut` relates it to `Segments`. */
  predicate Dotted(key: string) {
    '.' in key
  }

  /** A key contains a dot exactly when cutting it at every dot gives more than one part. */
  lemma DottedIffCut(key: string)
    ensures Dotted(key) <==> |Segments(key)| > 1
  {
  }

  /** The segments between separators, empty ones included (no dropping). */
  function Segments(s: string): (parts: seq<string>)
    ensures |parts| >= 1
    ensures forall i | 0 <= i < |parts| :: '.' !in parts[i]
    ensures Join(parts) == s
  {
    if s == [] then [[]]
    else
      var rest := Segments(s[1..]);
      if s[0] == '.' then [[]] + rest
      else
        var first := [s[0]] + rest[0];
        assert Join(rest) == rest[0] + if |rest| == 1 then [] else "." + Join(rest[1..]);
        [first] + rest[1..]
  }

  /** The inverse of Segments: the parts glued back together with '.'. */
  function Join(parts: seq<string>): string
    requires |parts| >= 1
  {
    if |parts| == 1 then parts[0] else parts[0] + "." + Join(parts[1..])
  }

  /** The trailing empty segments removed, as `split` does with limit 0. */
  function DropTrailingEmpty(parts: seq<string>): (kept: seq<string>)
    ensures |kept| <= |parts| && kept == parts[..|kept|]
    ensures kept == [] || kept[|kept| - 1] != []
    ensures forall i | |kept| <= i < |parts| :: parts[i] == []
  {
    if parts == [] then []
    else if parts[|parts| - 1] == [] then DropTrailingEmpty(parts[..|parts| - 1])
    else parts
  }

  /** `s.split("\\.")` */
  function SplitOnDots(s: string): (parts: seq<string>)
    ensures forall i | 0 <= i < |parts| :: '.' !in parts[i]
    ensures !Dotted(s) ==> parts == [s]
    ensures Dotted(s) ==>
      var all := Segments(s);
      && |parts| <= |all| && parts == all[..|parts|]
      && (parts == [] || parts[|parts| - 1] != [])
      && forall i | |parts| <= i < |all| :: all[i] == []
  {
    if !Dotted(s) then [s] else DropTrailingEmpty(Segments(s))
  }

  /**
    `getShortName(key)`: the last element of the split, or None where the
    split is empty and the array access throws.
   */
  function ShortName(key: string): (r: Option<string>)
    ensures r.Some? ==> '.' !in r.value
    ensures r.Some? && Dotted(key) ==> r.value != []
    ensures !Dotted(key) ==> r == Some(key)
  {
    var parts := SplitOnDots(key);
    if |parts| == 0 then None else Some(parts[|parts| - 1])
  }

  /** Splitting distributes over a separator: the segments of `a.b` are those of `a` then those of `b`. */
  lemma {:induction false} SegmentsOfJoined(a: string, b: string)
    ensures Segments(a + "." + b) == Segments(a) + Segments(b)
  {
    if a == [] {
      assert a + "." + b == ['.'] + b;
      assert (a + "." + b)[1..] == b;
    } else {
      assert (a + "." + b)[1..] == a[1..] + "." + b;
      assert (a + "." + b)[0] == a[0];
      SegmentsOfJoined(a[1..], b);
    }
  }

  /** A segment without separators is its own single segment. */
  lemma {:induction false} SegmentsOfPlain(s: string)
    requires '.' !in s
    ensures Segments(s) == [s]
  {
    if s != [] {
      assert s[0] in s;
      assert forall c | c in s[1..] :: c in s;
      SegmentsOfPlain(s[1..]);
    }
  }

  /**
    A qualified name `prefix.name` whose last segment is a non-empty plain
    name has that name as its short name, whatever the prefix.
   */
  lemma ShortNameOfQualified(prefix: string, name: string)
    requires '.' !in name && name != []
    ensures ShortName(prefix + "." + name) == Some(name)
  {
    var key := prefix + "." + name;
    assert key[|prefix|] == '.';
    assert Dotted(key);
    SegmentsOfJoined(prefix, name);
    SegmentsOfPlain(name);
    var parts := Segments(key);
    assert parts[|parts| - 1] == name;
    assert DropTrailingEmpty(parts) == parts;
  }

  /** Every segment is empty exactly when the string is made only of separators. */
  lemma {:induction false} SegmentsAllEmpty(s: string)
    ensures (forall i | 0 <= i < |Segments(s)| :: Segments(s)[i] == [])
        <==> (forall j | 0 <= j < |s| :: s[j] == '.')
  {
    if s != [] {
      SegmentsAllEmpty(s[1..]);
      var rest := Segments(s[1..]);
      if s[0] == '.' {
        assert Segments(s) == [[]] + rest;
        assert forall j | 1 <= j < |s| :: s[j] == s[1..][j - 1];
      } else {
        assert Segments(s)[0] != [];
      }
    }
  }

  /**
    `getShortName` fails exactly on the non-empty keys made only of dots:
    there the split is empty and the last-element access is out of bounds.
   */
  lemma ShortNameFailsOnlyOnDots(key: string)
    ensures ShortName(key).None? <==> key != [] && forall j | 0 <= j < |key| :: key[j] == '.'
  {
    var parts := Segments(key);
    SegmentsAllEmpty(key);
    if key != [] && forall j | 0 <= j < |key| :: key[j] == '.' {
      assert key[0] in key;
      assert DropTrailingEmpty(parts) == [];
    } else if Dotted(key) {
      var i :| 0 <= i < |parts| && parts[i] != [];
      assert DropTrailingEmpty(parts) != [];
    }
  }

  /**
    The short name is not simply the text after the last dot: `split`
    discards trailing empty segments, so `"key1."` has short name `"key1"`.
   */
  lemma TrailingDotIgnored(name: string)
    requires '.' !in name && name != []
    ensures ShortName(name + ".") == Some(name)
  {
    var key := name + ".";
    assert Dotted(key) by { assert key[|name|] == '.'; }
    assert key == name + "." + "";
    SegmentsOfJoined(name, "");
    SegmentsOfPlain(name);
    assert Segments(key) == [name, ""];
    assert DropTrailingEmpty([name, ""]) == DropTrailingEmpty([name]);
  }
}
