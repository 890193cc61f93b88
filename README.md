# Strict registry and generic type-argument resolver

This project models two pieces of a SQL-mapping framework's metadata layer.

**The strict, namespace-aware registry `StrictMap2`** is a string-keyed map. Its `put` is append-only and its `get` is checked.

- `put` rejects a key that is already present, whether the key is there as a full name, as a derived short name or as an ambiguity slot.
- For a dotted key, `put` also stores the value under the key's short name: the last element of `key.split("\\.")`.
- When that short-name slot is already occupied, `put` overwrites it with an `Ambiguity(shortKey)` marker.
- `get` fails on an absent key, fails naming the subject on an ambiguity slot, and otherwise returns the value.

The registry is a class, `StrictMap.StrictMap2`, with a `map<string, Slot<V>>` field. Its `Put` method is proved against the pure function `StrictMap.Insert`. `Get` is specified directly on the slots: not found, ambiguous or the stored value. The unit test that drives the registry is the method `StrictMap.Scenario`.

On top of `Insert` the model proves:

- the registry's slots are always a function of the accepted full names and their values (`View`);
- the order of accepted puts therefore does not matter;
- an ambiguity slot never becomes a value again.

`getShortName` is modelled on Java's `String.split` semantics, in `ShortNames`. Trailing empty segments are dropped. A key made only of dots splits to an empty array, on which `getShortName` throws.

**`TypeReference<T>`** resolves, at construction, the type argument that a concrete subclass binds.

- Reflection is replaced by a `Hierarchy`: for every subclass of `TypeReference`, what `getGenericSuperclass()` returns, and its depth below `TypeReference`.
- `TypeReferences.SuperclassTypeParameter` is `getSuperclassTypeParameter`:
  - a raw superclass other than `TypeReference` makes the walk climb one level;
  - a raw `TypeReference` superclass throws `TypeException`;
  - a parameterized superclass yields its first type argument, reduced to its raw type when that argument is itself parameterized.
- The depth decreases at every step, so the walk ends.
- The class `TypeReferences.TypeReference` caches the result in a `const rawType`. The static method `New` returns the exception in the case where the constructor throws.

The model follows the code in several places where a reader might expect other behaviour:

- **Where the walk stops.** The walk stops at the first parameterized superclass, whatever its raw class. It does not go on to look for the declaration of `TypeReference` itself. So `Leaf extends Base<Integer>` resolves to `Integer`, even when `Base` extends `TypeReference<String>` (`StopsAtFirstParameterizedAncestor`).
- **A raw `TypeReference` superclass.** Resolution throws there at once and tries no other ancestor (`FailsOnlyOnRawTypeReference`).
- **Full names and short names.** Full names are not protected from short names.
  - A later dotted key whose short name equals an earlier undotted full name turns that full name's slot into an ambiguity marker (`ShortNameShadowsFullName`).
  - In the other order, the undotted name is rejected as a duplicate (`FullNameAfterShortNameRejected`).
- **The short name.** The short name is the last element of `split`, not the text after the last dot: trailing dots are ignored (`TrailingDotIgnored`).
- **Slot count.** `size()` counts slots, not full names: two dotted names that share a short name occupy three slots (`SharedShortNameIsAmbiguous`).
- **A repeated short name with a producer set.** A producer takes two values of type `V`. Repeating a key whose slot holds an ambiguity marker, with a producer set, therefore fails the producer's argument cast: Java throws `ClassCastException` instead of the duplicate-key `IllegalArgumentException` (`ConflictError`, `ScenarioDuplicateShortName`).

## Model

| member | source | states |
|---|---|---|
| ShortNames.Segments | src/test/java/org/apache/ibatis/session/StrictMapTest.java:127 | cutting at every `.` gives at least one part, no part contains a `.`, and joining the parts with `.` gives back the string |
| ShortNames.DropTrailingEmpty | src/test/java/org/apache/ibatis/session/StrictMapTest.java:127 | `split` with limit 0 keeps a prefix of the parts whose last part is non-empty, and drops only empty parts |
| ShortNames.DottedIffCut | src/test/java/org/apache/ibatis/session/StrictMapTest.java:90 | `key.contains(".")` (`Dotted`) holds exactly when cutting the key at every `.` gives more than one part |
| ShortNames.SplitOnDots | src/test/java/org/apache/ibatis/session/StrictMapTest.java:127 | `key.split("\\.")`: an undotted key gives itself alone; a dotted key gives the parts between dots with the trailing empty ones dropped, and no part contains a dot |
| ShortNames.ShortName | src/test/java/org/apache/ibatis/session/StrictMapTest.java:126-129 | the short name contains no `.`; it is non-empty for a dotted key; an undotted key is its own short name |
| ShortNames.SegmentsOfJoined | src/test/java/org/apache/ibatis/session/StrictMapTest.java:127 | splitting `a.b` gives the parts of `a` followed by the parts of `b` |
| ShortNames.SegmentsOfPlain | src/test/java/org/apache/ibatis/session/StrictMapTest.java:127 | a string without dots splits to itself alone |
| ShortNames.ShortNameOfQualified | src/test/java/org/apache/ibatis/session/StrictMapTest.java:126-129 | `prefix.name` has short name `name` for any prefix, when `name` is a non-empty plain name |
| ShortNames.SegmentsAllEmpty | src/test/java/org/apache/ibatis/session/StrictMapTest.java:127 | every part is empty exactly when the string is made only of dots |
| ShortNames.ShortNameFailsOnlyOnDots | src/test/java/org/apache/ibatis/session/StrictMapTest.java:126-129 | `keyParts[keyParts.length - 1]` throws exactly on the non-empty keys made only of dots |
| ShortNames.TrailingDotIgnored | src/test/java/org/apache/ibatis/session/StrictMapTest.java:127-128 | `name.` has short name `name`, not the empty text after the last dot |
| StrictMap.Insert | src/test/java/org/apache/ibatis/session/StrictMapTest.java:83-99 | put is rejected as a duplicate iff the key is present; it fails on the short name iff the key is new and has no short name; on success, the key holds the value, and a dotted key's short slot holds the value if it was free or the ambiguity marker if it was taken |
| StrictMap.InsertContested | src/test/java/org/apache/ibatis/session/StrictMapTest.java:90-98 | a new dotted key whose short name is taken gives exactly the old map with the short slot marked ambiguous and the key added |
| StrictMap.InsertFrame | src/test/java/org/apache/ibatis/session/StrictMapTest.java:83-99 | an accepted put adds exactly the key and, for a dotted key, its short name; every other slot is unchanged |
| StrictMap.InsertSize | src/test/java/org/apache/ibatis/session/StrictMapTest.java:90-98 | an accepted put grows the map by 2 when a dotted key fills a free short slot, and by 1 otherwise |
| StrictMap.InsertKeepsAmbiguity | src/test/java/org/apache/ibatis/session/StrictMapTest.java:86-97 | a put never turns an ambiguity slot back into a value |
| StrictMap.AmbiguityIsPermanent | src/test/java/org/apache/ibatis/session/StrictMapTest.java:86-97 | after any sequence of puts, accepted or rejected, an ambiguity slot is still an ambiguity slot |
| StrictMap.ViewAtShortName | src/test/java/org/apache/ibatis/session/StrictMapTest.java:92-96 | after a new dotted key is accepted, its short slot is ambiguous exactly when some earlier name claimed it, and holds the new value otherwise |
| StrictMap.InsertView | src/test/java/org/apache/ibatis/session/StrictMapTest.java:83-99 | put maps the view of the accepted names to the view of those names plus the new key, so the registry's invariant is preserved |
| StrictMap.ReplayIsView | src/test/java/org/apache/ibatis/session/StrictMapTest.java:83-99 | whatever puts arrive, the slots are the view of the accepted names and their values |
| StrictMap.RegistryIsViewOfAccepted | src/test/java/org/apache/ibatis/session/StrictMapTest.java:59-62 | the same, starting from the empty map the constructor creates |
| StrictMap.DottedNameKeepsItsValue | src/test/java/org/apache/ibatis/session/StrictMapTest.java:90-98 | no other name can claim a dotted full name, so its slot always holds its own value |
| StrictMap.InsertTwice | src/test/java/org/apache/ibatis/session/StrictMapTest.java:83-99 | two accepted puts in a row give the view of both names |
| StrictMap.InsertOrderIrrelevant | src/test/java/org/apache/ibatis/session/StrictMapTest.java:83-99 | two puts accepted in either order leave the same map |
| StrictMap.SharedShortNameIsAmbiguous | src/test/java/org/apache/ibatis/session/StrictMapTest.java:90-98 | two distinct dotted names with the same short name keep their own values, and the short name becomes ambiguous; nothing else is stored |
| StrictMap.PlainKeyStoredAlone | src/test/java/org/apache/ibatis/session/StrictMapTest.java:90-98 | a new undotted key is stored under itself and nowhere else |
| StrictMap.ShortNameShadowsFullName | src/test/java/org/apache/ibatis/session/StrictMapTest.java:92-95 | a new dotted key whose short name is an existing full name is accepted and turns that full name's slot into an ambiguity marker |
| StrictMap.FullNameAfterShortNameRejected | src/test/java/org/apache/ibatis/session/StrictMapTest.java:86-89 | once a dotted key is accepted, putting its short name as a full name is rejected as a duplicate |
| StrictMap.PlainKey0Put | src/test/java/org/apache/ibatis/session/StrictMapTest.java:90-98 | example: `key0` put into an empty map is stored under itself alone |
| StrictMap.Key0ShadowedByKey1Key0 | src/test/java/org/apache/ibatis/session/StrictMapTest.java:92-98 | example: `key1.key0` put after the full name `key0` marks `key0` ambiguous and adds itself |
| StrictMap.Key0RejectedAfterKey1Key0 | src/test/java/org/apache/ibatis/session/StrictMapTest.java:86-89 | example: `key0` put after `key1.key0` is rejected as a duplicate |
| StrictMap.StrictMap2.constructor | src/test/java/org/apache/ibatis/session/StrictMapTest.java:59-62 | a new registry has its name, no producer and no slots |
| StrictMap.StrictMap2.ConflictMessageProducer | src/test/java/org/apache/ibatis/session/StrictMapTest.java:78-81 | sets the producer, or clears it when given none (Java's null), leaves the slots alone and returns the same object |
| StrictMap.ConflictError | src/test/java/org/apache/ibatis/session/StrictMapTest.java:86-88 | a duplicate put names its key; with no producer the message has no detail; otherwise the detail is the producer applied to the saved and the target values; the call fails its cast exactly when a producer is set and the saved slot is an ambiguity marker |
| StrictMap.StrictMap2.Put | src/test/java/org/apache/ibatis/session/StrictMapTest.java:83-99 | the new slots are `Insert`'s result; a duplicate fails with `ConflictError` for the saved slot and the target value, and changes nothing; an all-dots key fails before any change |
| StrictMap.StrictMap2.Size | src/test/java/org/apache/ibatis/session/StrictMapTest.java:26 | `size()` counts every slot: full names, short names and ambiguity markers alike |
| StrictMap.StrictMap2.Get | src/test/java/org/apache/ibatis/session/StrictMapTest.java:101-112 | an absent key fails as not found; an ambiguity slot fails naming its subject; otherwise it returns the stored value; nothing changes |
| StrictMap.ScenarioShortName1 | src/test/java/org/apache/ibatis/session/StrictMapTest.java:23 | `key1.key0` has short name `key0` |
| StrictMap.ScenarioShortName2 | src/test/java/org/apache/ibatis/session/StrictMapTest.java:24 | `key2.key0` has short name `key0` |
| StrictMap.ScenarioPut1 | src/test/java/org/apache/ibatis/session/StrictMapTest.java:22 | the first put stores `key1` alone |
| StrictMap.ScenarioPut2 | src/test/java/org/apache/ibatis/session/StrictMapTest.java:23 | the second put stores `key1.key0` and its short name `key0` |
| StrictMap.ScenarioPut3 | src/test/java/org/apache/ibatis/session/StrictMapTest.java:24 | the third put stores `key2.key0` and marks `key0` ambiguous |
| StrictMap.ScenarioKeysAfterKey10 | src/test/java/org/apache/ibatis/session/StrictMapTest.java:23-24 | after two puts, `key2.key0` is new and `key0` is taken |
| StrictMap.TestConflictMessage | src/test/java/org/apache/ibatis/session/StrictMapTest.java:21 | the test's producer: the message starts with `,` and the saved value, ends with the target value, and is 35 characters longer than the two |
| StrictMap.ScenarioDuplicateShortName | src/test/java/org/apache/ibatis/session/StrictMapTest.java:21-24 | after the test's puts, putting `key0` again is a duplicate whose saved slot is the ambiguity marker, so the test's producer fails its cast |
| StrictMap.ScenarioSlots | src/test/java/org/apache/ibatis/session/StrictMapTest.java:26-37 | the final map has the four keys the test counts, the three full names hold their values, `key0` is ambiguous and `key3` is absent |
| StrictMap.Scenario | src/test/java/org/apache/ibatis/session/StrictMapTest.java:18-40 | size 4; the three full names return their values; `key0` fails as ambiguous; a second `key1` fails with the producer's message; `key3` fails as not found |
| TypeReferences.RawTypeOf | src/main/java/org/apache/ibatis/type/TypeReference.java:93-96 | a parameterized argument becomes its raw class and any other type is unchanged, so the result is never parameterized |
| TypeReferences.Superclass | src/main/java/org/apache/ibatis/type/TypeReference.java:85 | `getSuperclass()` is the erasure of `getGenericSuperclass()`: the generic superclass is that class, written bare or with its type arguments |
| TypeReferences.SuperclassTypeParameter | src/main/java/org/apache/ibatis/type/TypeReference.java:80-99 | a resolved type is never a parameterized type; the exception names the runtime class |
| TypeReferences.Ancestors | src/main/java/org/apache/ibatis/type/TypeReference.java:81-86 | the classes the walk visits: each one's raw superclass is the next, only the last one stops the walk, and there are at most depth + 1 of them |
| TypeReferences.ResolvesAtTopOfChain | src/main/java/org/apache/ibatis/type/TypeReference.java:80-99 | the answer is the raw first argument of the parameterized superclass of the last class visited, or the exception when that class extends the raw `TypeReference` |
| TypeReferences.FailsOnlyOnRawTypeReference | src/main/java/org/apache/ibatis/type/TypeReference.java:84-89 | resolution fails exactly when the walk ends at a raw `TypeReference`; there is no default type |
| TypeReferences.SameAnswerAlongChain | src/main/java/org/apache/ibatis/type/TypeReference.java:82-86 | climbing one level does not change the answer: every class on the walk resolves alike |
| TypeReferences.ClimbsAndErases | src/main/java/org/apache/ibatis/type/TypeReference.java:80-99 | a raw subclass of `Handler extends TypeReference<List<String>>` resolves to `List` |
| TypeReferences.StopsAtFirstParameterizedAncestor | src/main/java/org/apache/ibatis/type/TypeReference.java:82-98 | `Leaf extends Base<Integer>` resolves to `Integer`, although `Base` binds `TypeReference` to `String` |
| TypeReferences.TypeString | src/main/java/org/apache/ibatis/type/TypeReference.java:107-110 | `Type.toString()`: a type variable prints its name, and a class's string form ends with its name |
| TypeReferences.ClassStringShape | src/main/java/org/apache/ibatis/type/TypeReference.java:107-110 | a class's string form is `class ` or `interface ` followed by its name, or just the name for a primitive; only a primitive's form has no space |
| TypeReferences.ClassStringIdentifies | src/main/java/org/apache/ibatis/type/TypeReference.java:107-110 | two classes with the same string form are the same class |
| TypeReferences.TypeReference.constructor | src/main/java/org/apache/ibatis/type/TypeReference.java:30-34 | `rawType` is what the resolver returns for the object's runtime class |
| TypeReferences.TypeReference.New | src/main/java/org/apache/ibatis/type/TypeReference.java:32-34 | construction yields a fresh object exactly when resolution succeeds, and otherwise the exception naming the class |
| TypeReferences.TypeReference.GetRawType | src/main/java/org/apache/ibatis/type/TypeReference.java:103-105 | returns the type resolved for the runtime class, which is never parameterized |
| TypeReferences.TypeReference.ToString | src/main/java/org/apache/ibatis/type/TypeReference.java:107-110 | the string form of the raw type |

## Left out

- Java reflection (`getGenericSuperclass`, `getActualTypeArguments`, class loading) is replaced by the `Hierarchy` description. The walk past `Object`, where the code would reach a null superclass, is excluded by `WellFormed`, which closes the hierarchy under superclasses.
- Wildcard and generic-array type arguments are not modelled. A type argument is a class, a parameterized type or a type variable.
- `Type.toString()` is modelled for classes and type variables only, the two kinds of type the resolver can return.
- TypeReferences.TypeReference.constructor: requires that resolution succeeds, because a Dafny constructor cannot throw. `New` models the throwing case.
- The `StrictMap2` constructors with capacity and load factor (StrictMapTest.java:49-57) are left out: they differ from the plain constructor only in `HashMap` sizing.
- The copy constructor (StrictMapTest.java:64-67) is left out. It fills the map without going through the strict `put`.
- Inherited `HashMap` operations that `StrictMap2` does not override (`remove`, `putAll`, iteration, `containsKey`) are left out. `size()` is `StrictMap2.Size`.
- Null values are not modelled. A key stored with null counts as present for the duplicate check (StrictMapTest.java:86) and for `size()`, but as absent for the short-slot test (StrictMapTest.java:92) and for `get` (StrictMapTest.java:104).
- Null keys are not modelled. `put(null, v)` throws `NullPointerException` at `key.contains`, and `get(null)` fails as not found.
- Exception messages are modelled as structured errors that carry the key, the subject or the producer's text. The fixed English wording and the registry name are not part of them.
- StrictMap.StrictMap2.Put: the `ClassCastException` of a producer handed an ambiguity marker is the error `SavedValueNotAValue`, without the exception's message. A producer declared over `Object` would not cast; the model covers only producers over `V`.
- The remaining files of the repository (`TypeHandler`, `ReflectorFactory`, `LocalCacheScope`) are interfaces or constants with no behaviour, and are not part of this model.
