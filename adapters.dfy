/** The type adapters the engine can hand out. Each built-in adapter class
    of the library is one constructor, carrying what its factory captured
    (the element type of a collection, the key and value types of a map,
    the class of a bean or enum); `UserAdapter` stands for an instance of a
    user-written `TypeAdapter`, whose code is not part of the model. */
module Adapters {
  import opened Types
  import opened Values

  datatype Adapter =
    | StringAdapter | IntAdapter | LongAdapter | FloatAdapter | DoubleAdapter | BooleanAdapter
    | EnumAdapter(cls: ClassName)
    | CollectionAdapter(impl: CollImpl, elem: TypeDesc)
    | MapAdapter(key: TypeDesc, value: TypeDesc)
    | BeanAdapter(cls: ClassName)
    | JsonPrimitiveAdapter | JsonArrayAdapter | JsonObjectAdapter
    | UserAdapter(id: nat)

  /** The six shared adapters of `PrimitiveTypeAdapterFactory`. */
  predicate IsPrimitiveAdapter(a: Adapter) {
    a.StringAdapter? || a.IntAdapter? || a.LongAdapter? || a.FloatAdapter? || a.DoubleAdapter? || a.BooleanAdapter?
  }
}
