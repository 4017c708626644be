/** Java reflection as explicit tables: what `Class.isAssignableFrom`,
    `isEnum`, `getConstructor()`, `getAnnotation`, `getMethods()` and
    `Method.invoke` would report for each class. */
module Reflection {
  import opened Wrappers
  import opened Types
  import opened Values

  /** What invoking a method does: return the property held in a state slot
      (`null` when the slot is empty), store its argument into a slot (a
      `void` method, so `invoke` returns `null`), or throw. */
  datatype MethodBody = Yields(slot: string) | Stores(slot: string) | Fails

  /** One entry of `getMethods()`, with its `@Serialize` flag as located on the
      method and its `@DescribedAs` text (on the method or on the field of the
      same name). */
  datatype Method = Method(
    name: string,
    params: seq<TypeDesc>,
    isStatic: bool,
    resultType: TypeDesc,
    serialize: Option<bool>,
    description: Option<string>,
    body: MethodBody)

  /** A `@SerializedBy` target class: its adapter id, and whether
      `newInstance()` succeeds on it. */
  datatype AdapterClass = AdapterClass(id: nat, instantiable: bool)

  datatype ClassInfo = ClassInfo(
    supertypes: set<ClassName>,           // every proper superclass and superinterface
    variants: Option<seq<string>>,        // Some(constant names) iff the class is an enum
    publicNoArgCtor: bool,
    isAbstract: bool,
    serialize: Option<bool>,              // class-level @Serialize
    serializedBy: Option<AdapterClass>,   // @SerializedBy
    methods: seq<Method>,                 // getMethods(), in table order
    initial: seq<(string, Value)>)        // the state a fresh instance starts with

  type World = map<ClassName, ClassInfo>

  /** A class the table does not list: no supertypes, no constructor, no methods. */
  const Unlisted := ClassInfo({}, None, false, false, None, None, [], [])

  function Info(w: World, c: ClassName): ClassInfo {
    if c in w then w[c] else Unlisted
  }

  /** `sup.isAssignableFrom(sub)`. */
  predicate IsAssignableFrom(w: World, sup: ClassName, sub: ClassName) {
    sup == sub || sup in Info(w, sub).supertypes
  }

  predicate IsEnum(w: World, c: ClassName) {
    Info(w, c).variants.Some?
  }

  /** The declared constants of an enum (empty for any other class). */
  function Variants(w: World, c: ClassName): seq<string> {
    Info(w, c).variants.GetOr([])
  }
}
