/** `MapTypeAdapterFactory`: `Map<K, V>`, read into a `LinkedHashMap`. */
module MapTypeAdapterFactory {
  import opened Wrappers
  import opened Types
  import opened Adapters

  /** Only a parameterized type whose raw class is exactly `Map`; the key
      type is argument 0 and the value type argument 1. The key type's
      adapter is not checked for a key form here. */
  function CreateTypeAdapter(t: TypeDesc): (r: Option<Adapter>)
    ensures r.Some? <==> t.Param? && t.raw == MapIface && |t.args| >= 2
    ensures r.Some? ==> r.value == MapAdapter(t.args[0], t.args[1])
  {
    if t.Param? && t.raw == MapIface && |t.args| >= 2 then Some(MapAdapter(t.args[0], t.args[1]))
    else None
  }

  /** A raw `Map`, and a parameterized `LinkedHashMap`, are declined. */
  lemma OnlyParameterizedMap(c: ClassName, args: seq<TypeDesc>)
    ensures CreateTypeAdapter(ClassT(c)).None?
    ensures c != MapIface ==> CreateTypeAdapter(Param(c, args)).None?
  {
  }
}
