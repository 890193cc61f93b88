/**
  `TypeReference<T>`: an abstract base whose constructor finds the type
  argument a concrete subclass binds, by walking up the superclass chain of
  the object's runtime class. Reflection is replaced by an explicit
  description of the hierarchy: for every class, what
  `getGenericSuperclass()` returns.
 */
module TypeReferences {
  import opened Wrappers

  const TypeReferenceName: string := "org.apache.ibatis.type.TypeReference"

  /** What `Class.toString()` distinguishes: it prefixes "class " or "interface ", and nothing for a primitive. */
  datatype ClassKind = OrdinaryClass | Interface | Primitive

  datatype ClassRef = ClassRef(name: string, kind: ClassKind)

  /** A `java.lang.reflect.Type` that can stand as a type argument. */
  datatype Type =
    | ClassType(cls: ClassRef)                           // a `Class`
    | ParameterizedType(raw: ClassRef, args: seq<Type>)  // a `ParameterizedType`, e.g. List<String>
    | TypeVariable(name: string)                         // a `TypeVariable`, e.g. T

  /** `getGenericSuperclass()`: the superclass as written, raw or with its type arguments. */
  datatype GenericSuperclass =
    | RawSuperclass(name: string)
    | ParameterizedSuperclass(raw: string, args: seq<Type>)

  /** One class of the hierarchy: its generic superclass and its distance from `TypeReference`. */
  datatype ClassInfo = ClassInfo(genericSuperclass: GenericSuperclass, depth: nat)

  /** The subclasses of `TypeReference`, by name. */
  type Hierarchy = map<string, ClassInfo>

  datatype TypeException = MissingTypeParameter(runtimeClass: string)

  /**
    `getSuperclass()`: the erasure of `getGenericSuperclass()`, that is the
    class it names, written bare or with its type arguments.
   */
  function Superclass(g: GenericSuperclass): (s: string)
    ensures g == RawSuperclass(s) || (g.ParameterizedSuperclass? && g == ParameterizedSuperclass(s, g.args))
  {
    match g
    case RawSuperclass(name) => name
    case ParameterizedSuperclass(raw, _) => raw
  }

  /**
    Every class of the hierarchy extends `TypeReference` or another class of
    the hierarchy that is strictly closer to it, and a parameterized
    superclass has at least one type argument, as Java guarantees.
   */
  ghost predicate WellFormed(h: Hierarchy) {
    && TypeReferenceName !in h
    && forall c | c in h ::
         && (var sup := Superclass(h[c].genericSuperclass);
             sup == TypeReferenceName || (sup in h && h[sup].depth < h[c].depth))
         && (h[c].genericSuperclass.ParameterizedSuperclass? ==> |h[c].genericSuperclass.args| > 0)
  }

  /** A parameterized type reduced to its raw class; any other type unchanged. */
  function RawTypeOf(t: Type): (r: Type)
    ensures !r.ParameterizedType?
    ensures t.ParameterizedType? ==> r == ClassType(t.raw)
    ensures !t.ParameterizedType? ==> r == t
  {
    match t
    case ParameterizedType(raw, _) => ClassType(raw)
    case _ => t
  }

  /**
    `getSuperclassTypeParameter(clazz)`, called by the constructor of an
    object whose runtime class is `runtimeClass`: the exception names that
    class, not the one the walk stopped at.
   */
  function SuperclassTypeParameter(h: Hierarchy, runtimeClass: string, clazz: string): (r: Result<Type, TypeException>)
    requires WellFormed(h) && clazz in h
    ensures r.Success? ==> !r.value.ParameterizedType?
    ensures r.Failure? ==> r.error == MissingTypeParameter(runtimeClass)
    decreases h[clazz].depth
  {
    match h[clazz].genericSuperclass
    case RawSuperclass(sup) =>
      if sup != TypeReferenceName then SuperclassTypeParameter(h, runtimeClass, sup)
      else Failure(MissingTypeParameter(runtimeClass))
    case ParameterizedSuperclass(_, args) =>
      Success(RawTypeOf(args[0]))
  }

  /** Where the walk stops: at a parameterized superclass, or at the raw `TypeReference`. */
  predicate StopsWalk(g: GenericSuperclass) {
    g.ParameterizedSuperclass? || g == RawSuperclass(TypeReferenceName)
  }

  /**
    The classes the walk visits, in order: `clazz`, then each raw superclass,
    up to the first class whose generic superclass stops the walk. The chain
    is at most one longer than the depth, which is why the walk ends.
   */
  function Ancestors(h: Hierarchy, clazz: string): (chain: seq<string>)
    requires WellFormed(h) && clazz in h
    ensures 1 <= |chain| <= h[clazz].depth + 1
    ensures chain[0] == clazz
    ensures forall i | 0 <= i < |chain| :: chain[i] in h
    ensures forall i | 0 <= i < |chain| - 1 :: h[chain[i]].genericSuperclass == RawSuperclass(chain[i + 1])
    ensures forall i | 0 <= i < |chain| - 1 :: !StopsWalk(h[chain[i]].genericSuperclass)
    ensures StopsWalk(h[chain[|chain| - 1]].genericSuperclass)
    decreases h[clazz].depth
  {
    match h[clazz].genericSuperclass
    case RawSuperclass(sup) =>
      if sup != TypeReferenceName then [clazz] + Ancestors(h, sup) else [clazz]
    case ParameterizedSuperclass(_, _) => [clazz]
  }

  /**
    The resolver's answer is decided by the last class of the chain: the
    raw form of the first type argument of its parameterized superclass,
    or the exception when it extends the raw `TypeReference`. The raw class
    of that parameterized superclass is never looked at.
   */
  lemma {:induction false} ResolvesAtTopOfChain(h: Hierarchy, runtimeClass: string, clazz: string)
    requires WellFormed(h) && clazz in h
    ensures var chain := Ancestors(h, clazz);
      var top := h[chain[|chain| - 1]].genericSuperclass;
      SuperclassTypeParameter(h, runtimeClass, clazz)
        == if top.ParameterizedSuperclass? then Success(RawTypeOf(top.args[0]))
           else Failure(MissingTypeParameter(runtimeClass))
    decreases h[clazz].depth
  {
    match h[clazz].genericSuperclass
    case RawSuperclass(sup) =>
      if sup != TypeReferenceName {
        ResolvesAtTopOfChain(h, runtimeClass, sup);
        assert Ancestors(h, clazz) == [clazz] + Ancestors(h, sup);
      }
    case ParameterizedSuperclass(_, _) =>
  }

  /** Resolution fails exactly when the chain ends at a raw `TypeReference`: there is no default type. */
  lemma FailsOnlyOnRawTypeReference(h: Hierarchy, runtimeClass: string, clazz: string)
    requires WellFormed(h) && clazz in h
    ensures var chain := Ancestors(h, clazz);
      (SuperclassTypeParameter(h, runtimeClass, clazz).Failure?
       <==> h[chain[|chain| - 1]].genericSuperclass == RawSuperclass(TypeReferenceName))
  {
    ResolvesAtTopOfChain(h, runtimeClass, clazz);
  }

  /** Climbing is transparent: every class on the walk resolves to the same answer. */
  lemma {:induction false} SameAnswerAlongChain(h: Hierarchy, runtimeClass: string, clazz: string, i: nat)
    requires WellFormed(h) && clazz in h && i < |Ancestors(h, clazz)|
    ensures SuperclassTypeParameter(h, runtimeClass, Ancestors(h, clazz)[i])
         == SuperclassTypeParameter(h, runtimeClass, clazz)
    decreases h[clazz].depth
  {
    if i > 0 {
      var sup := Superclass(h[clazz].genericSuperclass);
      assert Ancestors(h, clazz) == [clazz] + Ancestors(h, sup);
      SameAnswerAlongChain(h, runtimeClass, sup, i - 1);
    }
  }

  // Concrete hierarchies: a handler two levels below its parameterized base,
  // and a subclass of a parameterized intermediate class.
  const StringName := ClassRef("java.lang.String", OrdinaryClass)
  const IntegerName := ClassRef("java.lang.Integer", OrdinaryClass)
  const ListName := ClassRef("java.util.List", Interface)

  /** `Child extends Handler`, `Handler extends TypeReference<List<String>>`. */
  const Climbing: Hierarchy := map[
    "Child" := ClassInfo(RawSuperclass("Handler"), 2),
    "Handler" := ClassInfo(ParameterizedSuperclass(TypeReferenceName, [ParameterizedType(ListName, [ClassType(StringName)])]), 1)
  ]

  /** The walk climbs from `Child` to `Handler` and reduces `List<String>` to `List`. */
  lemma ClimbsAndErases()
    ensures WellFormed(Climbing)
    ensures SuperclassTypeParameter(Climbing, "Child", "Child") == Success(ClassType(ListName))
  {
    assert "Child" != "Handler" by { assert "Child"[0] != "Handler"[0]; }
    assert TypeReferenceName !in Climbing by {
      assert TypeReferenceName != "Child" && TypeReferenceName != "Handler";
    }
  }

  /** `Leaf extends Base<Integer>`, `Base<X> extends TypeReference<String>`. */
  const Shadowed: Hierarchy := map[
    "Leaf" := ClassInfo(ParameterizedSuperclass("Base", [ClassType(IntegerName)]), 2),
    "Base" := ClassInfo(ParameterizedSuperclass(TypeReferenceName, [ClassType(StringName)]), 1)
  ]

  /**
    The walk stops at the first parameterized superclass whatever its raw
    class: `Leaf` resolves to `Integer`, its argument to `Base`, although
    `Base` binds `TypeReference`'s parameter to `String`.
   */
  lemma StopsAtFirstParameterizedAncestor()
    ensures WellFormed(Shadowed)
    ensures SuperclassTypeParameter(Shadowed, "Leaf", "Leaf") == Success(ClassType(IntegerName))
    ensures SuperclassTypeParameter(Shadowed, "Base", "Base") == Success(ClassType(StringName))
  {
    assert "Leaf" != "Base" by { assert "Leaf"[0] != "Base"[0]; }
    assert TypeReferenceName !in Shadowed by {
      assert TypeReferenceName != "Leaf" && TypeReferenceName != "Base";
    }
  }

  /** `toString()` of a non-parameterized `Type`: `Class.toString()` or the variable's name. */
  function TypeString(t: Type): (s: string)
    requires !t.ParameterizedType?
    ensures t.TypeVariable? ==> s == t.name
    ensures t.ClassType? ==> |t.cls.name| <= |s| && s[|s| - |t.cls.name|..] == t.cls.name
  {
    match t
    case ClassType(c) =>
      (match c.kind
       case OrdinaryClass => "class "
       case Interface => "interface "
       case Primitive => "") + c.name
    case TypeVariable(name) => name
  }

  /** The shape of a class's string form: its kind's prefix, ending in a space, then its name. */
  lemma ClassStringShape(c: ClassRef)
    requires ' ' !in c.name
    ensures var s := TypeString(ClassType(c));
      && (c.kind == Primitive <==> ' ' !in s)
      && (c.kind == OrdinaryClass ==> |s| >= 6 && s[..6] == "class " && s[6..] == c.name)
      && (c.kind == Interface ==> |s| >= 10 && s[..10] == "interface " && s[10..] == c.name)
      && (c.kind == Primitive ==> s == c.name)
  {
    var s := TypeString(ClassType(c));
    match c.kind
    case OrdinaryClass =>
      assert s[5] == ' ';
    case Interface =>
      assert s[9] == ' ';
    case Primitive =>
  }

  /** Class names contain no space, so the string form of a class tells the class apart. */
  lemma ClassStringIdentifies(a: ClassRef, b: ClassRef)
    requires ' ' !in a.name && ' ' !in b.name
    requires TypeString(ClassType(a)) == TypeString(ClassType(b))
    ensures a == b
  {
    ClassStringShape(a);
    ClassStringShape(b);
  }

  /**
    A `TypeReference` subclass instance. `rawType` is final: resolved once,
    at construction, from the object's runtime class.
   */
  class TypeReference {
    const hierarchy: Hierarchy
    const runtimeClass: string
    const rawType: Type

    ghost predicate Valid() {
      && WellFormed(hierarchy) && runtimeClass in hierarchy
      && SuperclassTypeParameter(hierarchy, runtimeClass, runtimeClass) == Success(rawType)
    }

    /**
      `TypeReference()` for an object of class `clazz`, in the case where
      resolution succeeds; `New` covers the case where it throws.
     */
    constructor (h: Hierarchy, clazz: string)
      requires WellFormed(h) && clazz in h
      requires SuperclassTypeParameter(h, clazz, clazz).Success?
      ensures Valid() && hierarchy == h && runtimeClass == clazz
    {
      hierarchy := h;
      runtimeClass := clazz;
      rawType := SuperclassTypeParameter(h, clazz, clazz).value;
    }

    /** Constructing an instance of `clazz`: the object, or the exception its constructor throws. */
    static method New(h: Hierarchy, clazz: string) returns (r: Result<TypeReference, TypeException>)
      requires WellFormed(h) && clazz in h
      ensures r.Failure? <==> SuperclassTypeParameter(h, clazz, clazz).Failure?
      ensures r.Failure? ==> r.error == MissingTypeParameter(clazz)
      ensures r.Success? ==> fresh(r.value) && r.value.Valid()
      ensures r.Success? ==> r.value.hierarchy == h && r.value.runtimeClass == clazz
    {
      var resolved := SuperclassTypeParameter(h, clazz, clazz);
      if resolved.Failure? {
        return Failure(resolved.error);
      }
      var instance := new TypeReference(h, clazz);
      return Success(instance);
    }

    /** `getRawType()`: the type resolved at construction, never a parameterized type. */
    function GetRawType(): (t: Type)
      requires Valid()
      ensures SuperclassTypeParameter(hierarchy, runtimeClass, runtimeClass) == Success(t)
      ensures !t.ParameterizedType?
    {
      rawType
    }

    /** `toString()`: the string form of the raw type. */
    function ToString(): (s: string)
      requires Valid()
      ensures s == TypeString(GetRawType())
    {
      TypeString(rawType)
    }
  }
}
