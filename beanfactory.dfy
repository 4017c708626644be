/** `BeanTypeAdapterFactory`: any class with a public no-argument constructor,
    other than `Object`, is handled as a bean. */
module BeanTypeAdapterFactory {
  import opened Wrappers
  import opened Types
  import opened Adapters
  import opened Reflection

  function CreateTypeAdapter(w: World, t: TypeDesc): (r: Option<Adapter>)
    ensures r.Some? <==> RawType(t).ClassT? && RawType(t).cls != ObjectClass && Info(w, RawType(t).cls).publicNoArgCtor
    ensures r.Some? ==> r.value == BeanAdapter(RawType(t).cls)
  {
    var rt := RawType(t);
    if rt.ClassT? && rt.cls != ObjectClass && Info(w, rt.cls).publicNoArgCtor then Some(BeanAdapter(rt.cls))
    else None
  }

  /** Type arguments are ignored: `Foo<A>` is treated as `Foo`. `Object` and
      types that are neither classes nor parameterized never get a bean adapter. */
  lemma RawClassDecides(w: World, c: ClassName, args: seq<TypeDesc>, id: nat)
    ensures CreateTypeAdapter(w, Param(c, args)) == CreateTypeAdapter(w, ClassT(c))
    ensures CreateTypeAdapter(w, ClassT(ObjectClass)).None?
    ensures CreateTypeAdapter(w, Other(id)).None?
  {
  }
}
