/** `AnnotatedTypeAdapterFactory`: a class annotated `@SerializedBy(A)` is
    handled by a new instance of `A`. */
module AnnotatedTypeAdapterFactory {
  import opened Wrappers
  import opened Types
  import opened Adapters
  import opened Reflection

  /** An adapter class that cannot be instantiated is logged and the factory
      declines, so resolution goes on to the next factory. */
  function CreateTypeAdapter(w: World, t: TypeDesc): (r: Option<Adapter>)
    ensures r.Some? <==> RawType(t).ClassT? && Info(w, RawType(t).cls).serializedBy.Some?
                         && Info(w, RawType(t).cls).serializedBy.value.instantiable
    ensures r.Some? ==> r.value == UserAdapter(Info(w, RawType(t).cls).serializedBy.value.id)
  {
    var rt := RawType(t);
    if rt.ClassT? then
      match Info(w, rt.cls).serializedBy
      case Some(a) => if a.instantiable then Some(UserAdapter(a.id)) else None
      case None => None
    else None
  }

  lemma RawClassDecides(w: World, c: ClassName, args: seq<TypeDesc>, id: nat)
    ensures CreateTypeAdapter(w, Param(c, args)) == CreateTypeAdapter(w, ClassT(c))
    ensures CreateTypeAdapter(w, Other(id)).None?
  {
  }
}
