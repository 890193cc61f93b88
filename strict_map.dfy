/**
  The strict, namespace-aware registry `StrictMap2`: a string-keyed map with
  an append-only `put` and a checked `get`. A dotted full name is also
  reachable under its short name (its last segment) as long as no other
  entry claims that short name; once two do, the short-name slot holds an
  ambiguity marker for good.
 */
module StrictMap {
  import opened Wrappers
  import opened ShortNames

  /** A slot of the map: a stored value, or the `Ambiguity` marker naming its short key. */
  datatype Slot<V> = Value(v: V) | Ambiguous(subject: string)

  /** The exceptions `put` and `get` throw. */
  datatype Error =
    | AlreadyContains(key: string, detail: string)  // put of a present key (IllegalArgumentException)
    | SavedValueNotAValue(key: string)               // the producer handed an ambiguity marker (ClassCastException)
    | ShortNameOutOfBounds(key: string)              // getShortName on an all-dots key (ArrayIndexOutOfBoundsException)
    | NotFound(key: string)                          // get of an absent key
    | IsAmbiguous(subject: string)                   // get of an ambiguity slot

  /** Why the pure form of `put` refuses a key. */
  datatype Rejection = Duplicate | NoShortName

  /**
    The effect of `put(key, value)` on the slots `m`. A rejected put changes
    nothing. An accepted one stores the value under the full key and, for a
    dotted key, fills the short-name slot with the value when it was empty
    and with the ambiguity marker when it was occupied.
   */
  function Insert<V>(m: map<string, Slot<V>>, key: string, value: V): (r: Result<map<string, Slot<V>>, Rejection>)
    ensures r == Failure(Duplicate) <==> key in m
    ensures r == Failure(NoShortName) <==> key !in m && ShortName(key).None?
    ensures r.Success? ==> key in r.value && r.value[key] == Value(value)
    ensures r.Success? && Dotted(key) ==>
      var s := ShortName(key).value;
      s in r.value && r.value[s] == (if s in m then Ambiguous(s) else Value(value))
  {
    if key in m then Failure(Duplicate)
    else if Dotted(key) then
      match ShortName(key)
      case None => Failure(NoShortName)
      case Some(s) =>
        assert s != key by { assert '.' !in s; }
        var withShort := if s in m then m[s := Ambiguous(s)] else m[s := Value(value)];
        Success(withShort[key := Value(value)])
    else
      assert ShortName(key) == Some(key);
      Success(m[key := Value(value)])
  }

  /** A dotted key whose short name is already taken marks that short name ambiguous. */
  lemma InsertContested<V>(m: map<string, Slot<V>>, key: string, value: V, s: string)
    requires key !in m && Dotted(key) && ShortName(key) == Some(s) && s in m
    ensures Insert(m, key, value) == Success(m[s := Ambiguous(s)][key := Value(value)])
  {
  }

  /** An accepted put adds the full key and, for a dotted key, its short name, and leaves every other slot as it was. */
  lemma InsertFrame<V>(m: map<string, Slot<V>>, key: string, value: V)
    requires Insert(m, key, value).Success?
    ensures var m' := Insert(m, key, value).value;
      && m'.Keys == m.Keys + {key} + (if Dotted(key) then {ShortName(key).value} else {})
      && forall k | k in m && k != key && Some(k) != ShortName(key) :: m'[k] == m[k]
  {
  }

  /** An accepted put grows the map by 1, or by 2 when it also fills an empty short-name slot. */
  lemma InsertSize<V>(m: map<string, Slot<V>>, key: string, value: V)
    requires Insert(m, key, value).Success?
    ensures |Insert(m, key, value).value|
         == |m| + (if Dotted(key) && ShortName(key).value !in m then 2 else 1)
  {
    var m' := Insert(m, key, value).value;
    if Dotted(key) {
      var s := ShortName(key).value;
      assert s != key by { assert '.' !in s; }
      var withShort := if s in m then m[s := Ambiguous(s)] else m[s := Value(value)];
      assert |withShort| == |m| + (if s in m then 0 else 1);
      assert key !in withShort;
      assert m' == withShort[key := Value(value)];
    } else {
      assert m' == m[key := Value(value)];
    }
  }

  /** A put never turns an ambiguity slot back into a value. */
  lemma InsertKeepsAmbiguity<V>(m: map<string, Slot<V>>, key: string, value: V, k: string)
    requires k in m && m[k].Ambiguous?
    ensures Insert(m, key, value).Success? ==>
      k in Insert(m, key, value).value && Insert(m, key, value).value[k].Ambiguous?
  {
    if Insert(m, key, value).Success? {
      InsertFrame(m, key, value);
    }
  }

  /** A sequence of puts whose rejections the caller catches: a rejected put leaves the map as it was. */
  function Replay<V>(m: map<string, Slot<V>>, puts: seq<(string, V)>): map<string, Slot<V>>
    decreases |puts|
  {
    if puts == [] then m
    else
      var next := match Insert(m, puts[0].0, puts[0].1)
        case Success(m') => m'
        case Failure(_) => m;
      Replay(next, puts[1..])
  }

  /** An ambiguity slot is never turned back into a value, whatever puts follow. */
  lemma {:induction false} AmbiguityIsPermanent<V>(m: map<string, Slot<V>>, puts: seq<(string, V)>, k: string)
    requires k in m && m[k].Ambiguous?
    ensures k in Replay(m, puts) && Replay(m, puts)[k].Ambiguous?
    decreases |puts|
  {
    if puts != [] {
      var next := match Insert(m, puts[0].0, puts[0].1)
        case Success(m') => m'
        case Failure(_) => m;
      InsertKeepsAmbiguity(m, puts[0].0, puts[0].1, k);
      AmbiguityIsPermanent(next, puts[1..], k);
    }
  }

  // ---------------------------------------------------------------------
  // The registry as a function of the accepted full names

  /** A full name claims its own slot and, when dotted, the slot of its short name. */
  ghost predicate Claims(name: string, k: string) {
    name == k || (Dotted(name) && ShortName(name) == Some(k))
  }

  ghost predicate Claimed<V>(entries: map<string, V>, k: string) {
    exists n :: n in entries && Claims(n, k)
  }

  ghost predicate Contested<V>(entries: map<string, V>, k: string) {
    exists a, b :: a in entries && b in entries && a != b && Claims(a, k) && Claims(b, k)
  }

  /** Every key some accepted name claims. */
  ghost function Aliases(names: set<string>): set<string> {
    names + set n | n in names && Dotted(n) && ShortName(n).Some? :: ShortName(n).value
  }

  /** The slot of a claimed key: the ambiguity marker if two names claim it, else the one claimant's value. */
  ghost function SlotFor<V>(entries: map<string, V>, k: string): Slot<V>
    requires Claimed(entries, k)
  {
    if Contested(entries, k) then Ambiguous(k)
    else
      var n :| n in entries && Claims(n, k);
      Value(entries[n])
  }

  /** The slots a registry holds once exactly `entries` (full name to value) have been accepted. */
  ghost function View<V>(entries: map<string, V>): map<string, Slot<V>> {
    map k | k in Aliases(entries.Keys) :: SlotFor(entries, k)
  }

  lemma ViewDomain<V>(entries: map<string, V>, k: string)
    ensures k in View(entries) <==> Claimed(entries, k)
  {
    if Claimed(entries, k) {
      var n :| n in entries && Claims(n, k);
      if n != k {
        assert ShortName(n).value == k;
      }
    }
  }

  /** A key with one claimant holds that claimant's value. */
  lemma SlotForSole<V>(entries: map<string, V>, k: string, n: string)
    requires n in entries && Claims(n, k) && !Contested(entries, k)
    ensures SlotFor(entries, k) == Value(entries[n])
  {
  }

  /** After accepting `key`, its own slot holds its value. */
  lemma ViewAtNewKey<V>(entries: map<string, V>, key: string, value: V)
    requires !Claimed(entries, key)
    ensures key in View(entries[key := value]) && View(entries[key := value])[key] == Value(value)
  {
    var e' := entries[key := value];
    assert Claims(key, key);
    ViewDomain(e', key);
    assert !Contested(e', key);
    SlotForSole(e', key, key);
  }

  /** After accepting a dotted `key`, its short-name slot is ambiguous exactly when someone claimed it before. */
  lemma ViewAtShortName<V>(entries: map<string, V>, key: string, value: V, s: string)
    requires !Claimed(entries, key) && Dotted(key) && ShortName(key) == Some(s)
    ensures s in View(entries[key := value])
    ensures View(entries[key := value])[s] == if Claimed(entries, s) then Ambiguous(s) else Value(value)
  {
    var e' := entries[key := value];
    assert Claims(key, s);
    ViewDomain(e', s);
    if Claimed(entries, s) {
      var n :| n in entries && Claims(n, s);
      assert n != key && n in e';
      assert Contested(e', s);
    } else {
      assert !Contested(e', s);
      SlotForSole(e', s, key);
    }
  }

  /** Accepting `key` leaves every slot it does not claim as it was. */
  lemma ViewElsewhere<V>(entries: map<string, V>, key: string, value: V, k: string)
    requires !Claimed(entries, key) && !Claims(key, k)
    ensures k in View(entries[key := value]) <==> k in View(entries)
    ensures k in View(entries) ==> View(entries[key := value])[k] == View(entries)[k]
  {
    var e' := entries[key := value];
    ViewDomain(entries, k);
    ViewDomain(e', k);
    assert Claimed(e', k) <==> Claimed(entries, k);
    assert Contested(e', k) <==> Contested(entries, k);
    if Claimed(entries, k) && !Contested(entries, k) {
      var n :| n in entries && Claims(n, k);
      SlotForSole(entries, k, n);
      SlotForSole(e', k, n);
    }
  }

  /**
    `put` keeps the registry equal to the view of its accepted names: when
    `key` is not claimed yet and its short name exists, inserting it into
    the view of `entries` gives the view of `entries` plus `key`.
   */
  lemma InsertView<V>(entries: map<string, V>, key: string, value: V)
    requires key !in View(entries)
    requires ShortName(key).Some?
    ensures Insert(View(entries), key, value) == Success(View(entries[key := value]))
  {
    var m := View(entries);
    var e' := entries[key := value];
    var m' := Insert(m, key, value).value;
    var s := ShortName(key).value;
    ViewDomain(entries, key);
    InsertFrame(m, key, value);
    forall k
      ensures k in m' <==> k in View(e')
      ensures k in m' ==> m'[k] == View(e')[k]
    {
      if k == key {
        ViewAtNewKey(entries, key, value);
      } else if Dotted(key) && k == s {
        ViewDomain(entries, s);
        ViewAtShortName(entries, key, value, s);
      } else {
        assert !Claims(key, k);
        ViewElsewhere(entries, key, value, k);
      }
    }
    assert m' == View(e');
  }

  /** The names a sequence of puts accepts, added to those of `entries`: a put is accepted when its key is unclaimed and has a short name. */
  ghost function Accepted<V>(entries: map<string, V>, puts: seq<(string, V)>): map<string, V>
    decreases |puts|
  {
    if puts == [] then entries
    else
      var key := puts[0].0;
      var next := if key !in View(entries) && ShortName(key).Some? then entries[key := puts[0].1] else entries;
      Accepted(next, puts[1..])
  }

  /**
    Whatever sequence of puts the registry sees, its slots are the view of
    the names it accepted: the map is determined by the accepted names and
    their values alone.
   */
  lemma {:induction false} ReplayIsView<V>(entries: map<string, V>, puts: seq<(string, V)>)
    ensures Replay(View(entries), puts) == View(Accepted(entries, puts))
    decreases |puts|
  {
    if puts != [] {
      var key := puts[0].0;
      if key !in View(entries) && ShortName(key).Some? {
        InsertView(entries, key, puts[0].1);
        ReplayIsView(entries[key := puts[0].1], puts[1..]);
      } else {
        ReplayIsView(entries, puts[1..]);
      }
    }
  }

  /** Starting from the empty registry, as the constructor does. */
  lemma RegistryIsViewOfAccepted<V>(puts: seq<(string, V)>)
    ensures Replay(map[], puts) == View(Accepted(map[], puts))
  {
    assert View<V>(map[]) == map[];
    ReplayIsView(map[], puts);
  }

  /** A dotted full name is claimed by nobody else, so its own slot always returns its value. */
  lemma DottedNameKeepsItsValue<V>(entries: map<string, V>, name: string)
    requires name in entries && Dotted(name)
    ensures name in View(entries) && View(entries)[name] == Value(entries[name])
  {
    assert Claims(name, name);
    ViewDomain(entries, name);
    forall a | a in entries && Claims(a, name) ensures a == name {
      assert ShortName(a).Some? ==> '.' !in ShortName(a).value;
    }
    assert !Contested(entries, name);
    SlotForSole(entries, name, name);
  }

  /** Two accepted puts in a row give the view of both names. */
  lemma InsertTwice<V>(entries: map<string, V>, a: string, va: V, b: string, vb: V)
    requires ShortName(a).Some? && ShortName(b).Some?
    requires a !in View(entries) && b !in View(entries[a := va])
    ensures Insert(View(entries), a, va).Success?
    ensures Insert(Insert(View(entries), a, va).value, b, vb) == Success(View(entries[a := va][b := vb]))
  {
    InsertView(entries, a, va);
    InsertView(entries[a := va], b, vb);
  }

  /** Updates at two different keys commute. */
  lemma UpdatesCommute<K, V>(m: map<K, V>, a: K, va: V, b: K, vb: V)
    requires a != b
    ensures m[a := va][b := vb] == m[b := vb][a := va]
  {
  }

  /**
    The slots depend only on which names were accepted, not on their order:
    two puts accepted in either order leave the same map.
   */
  lemma InsertOrderIrrelevant<V>(entries: map<string, V>, a: string, va: V, b: string, vb: V)
    requires a != b
    requires ShortName(a).Some? && ShortName(b).Some?
    requires a !in View(entries) && b !in View(entries[a := va])
    requires b !in View(entries) && a !in View(entries[b := vb])
    ensures Insert(View(entries), a, va).Success? && Insert(View(entries), b, vb).Success?
    ensures Insert(Insert(View(entries), a, va).value, b, vb)
         == Insert(Insert(View(entries), b, vb).value, a, va)
  {
    UpdatesCommute(entries, a, va, b, vb);
    InsertTwice(entries, a, va, b, vb);
    InsertTwice(entries, b, vb, a, va);
  }






  /**
    Two distinct full names sharing a short name: after putting both, each
    full name holds its own value and the short name is ambiguous.
   */
  lemma SharedShortNameIsAmbiguous<V>(a: string, va: V, b: string, vb: V, short: string)
    requires a != b && Dotted(a) && Dotted(b)
    requires ShortName(a) == Some(short) && ShortName(b) == Some(short)
    ensures Insert(map[], a, va).Success?
    ensures Insert(Insert(map[], a, va).value, b, vb).Success?
    ensures var m := Insert(Insert(map[], a, va).value, b, vb).value;
      && m.Keys == {a, b, short}
      && m[a] == Value(va) && m[b] == Value(vb) && m[short] == Ambiguous(short)
  {
    var m1 := Insert(map[], a, va).value;
    assert b != short by { assert '.' !in short; }
  }

  // A full name is not protected from a later short name.
  /** An undotted key that is new is stored under itself and nowhere else. */
  lemma PlainKeyStoredAlone<V>(m: map<string, Slot<V>>, key: string, value: V)
    requires key !in m && !Dotted(key)
    ensures Insert(m, key, value) == Success(m[key := Value(value)])
  {
  }

  /**
    A dotted key whose short name is an existing full name turns that full
    name's own slot into an ambiguity marker, so `get` of the full name
    fails from then on.
   */
  lemma ShortNameShadowsFullName<V>(m: map<string, Slot<V>>, name: string, key: string, value: V)
    requires name in m && key !in m && Dotted(key) && ShortName(key) == Some(name)
    ensures Insert(m, key, value).Success?
    ensures name in Insert(m, key, value).value && Insert(m, key, value).value[name] == Ambiguous(name)
  {
  }

  /** Once a dotted key is accepted, its short name can no longer be put as a full name. */
  lemma FullNameAfterShortNameRejected<V>(m: map<string, Slot<V>>, key: string, value: V, other: V)
    requires Insert(m, key, value).Success? && Dotted(key)
    ensures Insert(Insert(m, key, value).value, ShortName(key).value, other) == Failure(Duplicate)
  {
  }

  // The same three facts on the test's names.
  const PlainKey0: map<string, Slot<string>> := map["key0" := Value("plain")]

  /** Example: putting the undotted `key0` into an empty map. */
  lemma PlainKey0Put()
    ensures Insert(map[], "key0", "plain") == Success(PlainKey0)
  {
    assert !Dotted("key0");
  }

  /** Example: putting `key1.key0` after the full name `key0` marks `key0` ambiguous. */
  lemma Key0ShadowedByKey1Key0()
    ensures Insert(PlainKey0, "key1.key0", "qualified")
         == Success(PlainKey0["key0" := Ambiguous("key0")]["key1.key0" := Value("qualified")])
  {
    assert "key1.key0" != "key0" by { assert |"key1.key0"| != |"key0"|; }
    assert Dotted("key1.key0") by { assert "key1.key0"[4] == '.'; }
    ScenarioShortName1();
    InsertContested(PlainKey0, "key1.key0", "qualified", "key0");
  }

  /** Example: `key0` can no longer be put once `key1.key0` has claimed that short name. */
  lemma Key0RejectedAfterKey1Key0()
    ensures Insert(map[], "key1.key0", "qualified").Success?
    ensures Insert(Insert(map[], "key1.key0", "qualified").value, "key0", "plain") == Failure(Duplicate)
  {
    assert Dotted("key1.key0") by { assert "key1.key0"[4] == '.'; }
    ScenarioShortName1();
  }

  /**
    The exception a `put` of the present `key` throws. Without a producer
    the message has no detail. A producer takes two values of type `V`, so
    when the saved slot is an ambiguity marker the call to it fails its
    argument cast before any message is built.
   */
  function ConflictError<V>(producer: Option<(V, V) -> string>, key: string, saved: Slot<V>, target: V): (e: Error)
    ensures e.AlreadyContains? || e.SavedValueNotAValue?
    ensures e.key == key
    ensures e.SavedValueNotAValue? <==> producer.Some? && saved.Ambiguous?
    ensures producer.None? ==> e.detail == ""
    ensures producer.Some? && saved.Value? ==> e.detail == producer.value(saved.v, target)
  {
    match producer
    case None => AlreadyContains(key, "")
    case Some(f) =>
      match saved
      case Value(v) => AlreadyContains(key, f(v, target))
      case Ambiguous(_) => SavedValueNotAValue(key)
  }

  /** `StrictMap2<V>`: the registry object, its slots updated in place by `put`. */
  class StrictMap2<V> {
    const name: string
    var producer: Option<(V, V) -> string>
    var slots: map<string, Slot<V>>

    /** `StrictMap2(String name)`: an empty registry without a conflict message producer. */
    constructor (name: string)
      ensures this.name == name && producer == None && slots == map[]
    {
      this.name := name;
      producer := None;
      slots := map[];
    }

    /** `conflictMessageProducer(f)`: sets the producer, or clears it when `f` is null, and returns this map. */
    method ConflictMessageProducer(f: Option<(V, V) -> string>) returns (self: StrictMap2<V>)
      modifies this
      ensures self == this && producer == f && slots == old(slots)
    {
      producer := f;
      self := this;
    }

    /** `size()` */
    function Size(): (n: nat)
      reads this
      ensures n == |slots.Keys|
    {
      |slots|
    }

    /** `put(key, value)` */
    method Put(key: string, value: V) returns (r: Result<(), Error>)
      modifies this
      ensures producer == old(producer)
      ensures match Insert(old(slots), key, value)
        case Success(m) => r == Success(()) && slots == m
        case Failure(Duplicate) =>
          && key in old(slots)
          && r == Failure(ConflictError(producer, key, old(slots)[key], value))
          && slots == old(slots)
        case Failure(NoShortName) => r == Failure(ShortNameOutOfBounds(key)) && slots == old(slots)
    {
      if key in slots {
        r := Failure(ConflictError(producer, key, slots[key], value));
        return;
      }
      if Dotted(key) {
        var short := ShortName(key);
        if short.None? {
          r := Failure(ShortNameOutOfBounds(key));
          return;
        }
        var shortKey := short.value;
        if shortKey !in slots {
          slots := slots[shortKey := Value(value)];
        } else {
          slots := slots[shortKey := Ambiguous(shortKey)];
        }
      }
      slots := slots[key := Value(value)];
      r := Success(());
    }

    /** `get(key)` */
    method Get(key: string) returns (r: Result<V, Error>)
      ensures key !in slots ==> r == Failure(NotFound(key))
      ensures key in slots && slots[key].Ambiguous? ==> r == Failure(IsAmbiguous(slots[key].subject))
      ensures key in slots && slots[key].Value? ==> r == Success(slots[key].v)
    {
      if key !in slots {
        return Failure(NotFound(key));
      }
      match slots[key]
      case Ambiguous(subject) => r := Failure(IsAmbiguous(subject));
      case Value(v) => r := Success(v);
    }
  }

  // The unit test's maps after each of its three puts.
  const AfterKey1: map<string, Slot<string>> := map["key1" := Value("key1")]
  const AfterKey10: map<string, Slot<string>> :=
    AfterKey1["key0" := Value("key1.key0")]["key1.key0" := Value("key1.key0")]
  const AfterKey20: map<string, Slot<string>> :=
    AfterKey10["key0" := Ambiguous("key0")]["key2.key0" := Value("key2.key0")]

  lemma ScenarioShortName1()
    ensures ShortName("key1.key0") == Some("key0")
  {
    ShortNameOfQualified("key1", "key0");
    assert "key1" + "." + "key0" == "key1.key0";
  }

  lemma ScenarioShortName2()
    ensures ShortName("key2.key0") == Some("key0")
  {
    ShortNameOfQualified("key2", "key0");
    assert "key2" + "." + "key0" == "key2.key0";
  }

  lemma ScenarioPut1()
    ensures Insert(map[], "key1", "key1") == Success(AfterKey1)
  {
    assert !Dotted("key1");
  }

  lemma ScenarioPut2()
    ensures Insert(AfterKey1, "key1.key0", "key1.key0") == Success(AfterKey10)
  {
    assert Dotted("key1.key0") by { assert "key1.key0"[4] == '.'; }
    ScenarioShortName1();
  }

  lemma ScenarioPut3()
    ensures Insert(AfterKey10, "key2.key0", "key2.key0") == Success(AfterKey20)
  {
    assert Dotted("key2.key0") by { assert "key2.key0"[4] == '.'; }
    ScenarioShortName2();
    ScenarioKeysAfterKey10();
    InsertContested(AfterKey10, "key2.key0", "key2.key0", "key0");
  }

  lemma ScenarioKeysAfterKey10()
    ensures "key2.key0" !in AfterKey10 && "key0" in AfterKey10
  {
    assert AfterKey10.Keys == {"key1", "key0", "key1.key0"};
    assert "key2.key0" != "key1.key0" by { assert "key2.key0"[3] != "key1.key0"[3]; }
    assert |"key2.key0"| != |"key0"| && |"key2.key0"| != |"key1"|;
  }

  lemma ScenarioSlots()
    ensures AfterKey20.Keys == {"key1", "key0", "key1.key0", "key2.key0"}
    ensures |AfterKey20| == 4
    ensures "key3" !in AfterKey20
    ensures AfterKey20["key1"] == Value("key1")
    ensures AfterKey20["key1.key0"] == Value("key1.key0")
    ensures AfterKey20["key2.key0"] == Value("key2.key0")
    ensures AfterKey20["key0"] == Ambiguous("key0")
  {
    assert "key1" != "key0" by { assert "key1"[3] != "key0"[3]; }
    assert "key3" != "key0" by { assert "key3"[3] != "key0"[3]; }
    assert "key3" != "key1" by { assert "key3"[3] != "key1"[3]; }
    assert "key1.key0" != "key2.key0" by { assert "key1.key0"[3] != "key2.key0"[3]; }
  }

  /** The test's conflict message producer, a `BiFunction<String, String, String>`. */
  function TestConflictMessage(saved: string, target: string): (message: string)
    ensures |message| == |saved| + |target| + 35
    ensures message[..|saved| + 1] == "," + saved
    ensures message[|message| - |target|..] == target
  {
    "," + saved + " is already in use" + "\U{FF0C}targetValue is " + target
  }

  /**
    After the test's puts, putting `key0` again would be a duplicate whose
    saved slot is the ambiguity marker: the test's producer cannot take it,
    so the put fails with the cast error rather than with a message.
   */
  lemma ScenarioDuplicateShortName()
    ensures Insert(AfterKey20, "key0", "key0") == Failure(Duplicate)
    ensures ConflictError(Some(TestConflictMessage), "key0", AfterKey20["key0"], "key0")
         == SavedValueNotAValue("key0")
  {
    ScenarioSlots();
  }

  /**
    The unit test: put `key1`, `key1.key0`, `key2.key0`, then observe the
    size, the three full names, the ambiguous `key0`, a repeated `key1` and
    an absent `key3`.
   */
  method Scenario() returns (size: nat, key1: Result<string, Error>, key10: Result<string, Error>,
                            key20: Result<string, Error>, key0: Result<string, Error>,
                            again: Result<(), Error>, key3: Result<string, Error>)
    ensures size == 4
    ensures key1 == Success("key1") && key10 == Success("key1.key0") && key20 == Success("key2.key0")
    ensures key0 == Failure(IsAmbiguous("key0"))
    ensures again == Failure(AlreadyContains("key1", "," + "key1" + " is already in use" + "\U{FF0C}targetValue is " + "key1"))
    ensures key3 == Failure(NotFound("key3"))
  {
    var strictMap := new StrictMap2<string>("test");
    strictMap := strictMap.ConflictMessageProducer(Some(TestConflictMessage));
    ScenarioPut1();
    ScenarioPut2();
    ScenarioPut3();
    ScenarioSlots();
    var ok := strictMap.Put("key1", "key1");
    ok := strictMap.Put("key1.key0", "key1.key0");
    ok := strictMap.Put("key2.key0", "key2.key0");
    size := strictMap.Size();
    key1 := strictMap.Get("key1");
    key10 := strictMap.Get("key1.key0");
    key20 := strictMap.Get("key2.key0");
    key0 := strictMap.Get("key0");
    again := strictMap.Put("key1", "key1");
    key3 := strictMap.Get("key3");
  }
}
