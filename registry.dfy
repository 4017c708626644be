/** `TypeAdapterRegistryImpl`: an ordered list of factories and a cache.
    A lookup returns the cached adapter, or else the answer of the first
    factory that does not decline, which it then caches. */
module TypeAdapterRegistryImpl {
  import opened Wrappers
  import opened Types
  import opened Errors
  import opened Adapters
  import opened Reflection
  import GsonWrapperTypeAdapterFactory
  import CollectionTypeAdapterFactory
  import MapTypeAdapterFactory
  import PrimitiveTypeAdapterFactory
  import EnumTypeAdapterFactory
  import BeanTypeAdapterFactory
  import AnnotatedTypeAdapterFactory

  /** The factories a registry can hold: the seven built-ins, the factory
      `registerAdapter(Class, TypeAdapter)` creates, and a user-written
      factory given as the table of its answers (absent = `null`). */
  datatype Factory =
    | GsonWrapper(available: bool)
    | Collections
    | Maps
    | Primitives
    | Enums
    | Beans
    | Annotated
    | ClassAdapter(cls: ClassName, adapter: Adapter)
    | Custom(answers: map<TypeDesc, Adapter>)

  /** The factory `registerAdapter(type, adapter)` registers: the requested
      type is reduced to its raw class, and `adapter` is returned iff `type`
      is assignable from that class. */
  function RegisteredAdapter(w: World, cls: ClassName, a: Adapter, t: TypeDesc): (r: Option<Adapter>)
    ensures r.Some? <==> RawType(t).ClassT? && IsAssignableFrom(w, cls, RawType(t).cls)
    ensures r.Some? ==> r.value == a
  {
    var sub := RawType(t);
    if sub.ClassT? && IsAssignableFrom(w, cls, sub.cls) then Some(a) else None
  }

  /** `factory.createTypeAdapter(t)`; `None` is `null`. Every factory but a
      user-written one looks only at classes and parameterized types, so a
      type variable, wildcard or generic array type is declined. */
  function Create(w: World, f: Factory, t: TypeDesc): (r: Option<Adapter>)
    ensures t.Other? && !f.Custom? ==> r.None?
  {
    match f
    case GsonWrapper(available) => GsonWrapperTypeAdapterFactory.CreateTypeAdapter(w, available, t)
    case Collections => CollectionTypeAdapterFactory.CreateTypeAdapter(t)
    case Maps => MapTypeAdapterFactory.CreateTypeAdapter(t)
    case Primitives => PrimitiveTypeAdapterFactory.CreateTypeAdapter(t)
    case Enums => EnumTypeAdapterFactory.CreateTypeAdapter(w, t)
    case Beans => BeanTypeAdapterFactory.CreateTypeAdapter(w, t)
    case Annotated => AnnotatedTypeAdapterFactory.CreateTypeAdapter(w, t)
    case ClassAdapter(c, a) => RegisteredAdapter(w, c, a, t)
    case Custom(answers) => if t in answers then Some(answers[t]) else None
  }

  /** The factory list of a new registry; the Gson wrapper is first
      because other factories would also accept its classes. */
  function DefaultFactories(gsonAvailable: bool): (fs: seq<Factory>)
    ensures |fs| == 7 && fs[0] == GsonWrapper(gsonAvailable) && fs[5] == Beans
  {
    [GsonWrapper(gsonAvailable), Collections, Maps, Primitives, Enums, Beans, Annotated]
  }

  /** The answer of the first factory, in list order, that does not decline.
      Without a user-written factory, a type that is neither a class nor a
      parameterized type finds none. */
  function FirstMatch(w: World, fs: seq<Factory>, t: TypeDesc): (r: Option<Adapter>)
    ensures t.Other? && (forall f | f in fs :: !f.Custom?) ==> r.None?
    decreases |fs|
  {
    if fs == [] then None
    else match Create(w, fs[0], t)
      case Some(a) => Some(a)
      case None => FirstMatch(w, fs[1..], t)
  }

  /** What a registry with this world and factory list resolves. */
  datatype Resolver = Resolver(world: World, factories: seq<Factory>)

  /** `getTypeAdapter(t)` as a function of the factory list. */
  function Resolve(r: Resolver, t: TypeDesc): (a: Res<Adapter>)
    ensures a.Err? ==> a.error == UnsupportedType(t)
  {
    match FirstMatch(r.world, r.factories, t)
    case Some(a) => Ok(a)
    case None => Err(UnsupportedType(t))
  }

  /** The first factory that answers decides; the factories after it are not
      consulted. */
  lemma {:induction false} FirstMatchIsFirst(w: World, fs: seq<Factory>, t: TypeDesc, i: nat)
    requires i < |fs| && Create(w, fs[i], t).Some?
    requires forall j :: 0 <= j < i ==> Create(w, fs[j], t).None?
    ensures FirstMatch(w, fs, t) == Create(w, fs[i], t)
    decreases i
  {
    if i > 0 {
      assert Create(w, fs[0], t).None?;
      forall j | 0 <= j < i - 1 ensures Create(w, fs[1..][j], t).None? {
        assert fs[1..][j] == fs[j + 1];
      }
      FirstMatchIsFirst(w, fs[1..], t, i - 1);
    }
  }

  /** Resolution fails exactly when every factory declines. */
  lemma {:induction false} FirstMatchNone(w: World, fs: seq<Factory>, t: TypeDesc)
    ensures FirstMatch(w, fs, t).None? <==> forall i :: 0 <= i < |fs| ==> Create(w, fs[i], t).None?
    decreases |fs|
  {
    if fs != [] {
      FirstMatchNone(w, fs[1..], t);
      if Create(w, fs[0], t).None? {
        forall i | 0 <= i < |fs| && Create(w, fs[i], t).Some? ensures i > 0 && Create(w, fs[1..][i - 1], t).Some? {
          assert fs[1..][i - 1] == fs[i];
        }
        forall i | 0 < i < |fs| ensures Create(w, fs[i], t) == Create(w, fs[1..][i - 1], t) {
        }
      }
    }
  }

  /** Appending factories only matters for types the earlier list declines. */
  lemma {:induction false} FirstMatchAppend(w: World, fs: seq<Factory>, more: seq<Factory>, t: TypeDesc)
    ensures FirstMatch(w, fs + more, t)
         == if FirstMatch(w, fs, t).Some? then FirstMatch(w, fs, t) else FirstMatch(w, more, t)
    decreases |fs|
  {
    if fs == [] {
      assert fs + more == more;
    } else {
      assert (fs + more)[0] == fs[0];
      assert (fs + more)[1..] == fs[1..] + more;
      FirstMatchAppend(w, fs[1..], more, t);
    }
  }

  /** A type that resolves keeps resolving to the same adapter however many
      factories are registered afterwards. */
  lemma ResolutionStable(w: World, fs: seq<Factory>, more: seq<Factory>, t: TypeDesc)
    requires Resolve(Resolver(w, fs), t).Ok?
    ensures Resolve(Resolver(w, fs + more), t) == Resolve(Resolver(w, fs), t)
  {
    FirstMatchAppend(w, fs, more, t);
  }

  /** A custom adapter registered after the defaults is shadowed by the bean
      factory for any class with a public no-argument constructor that no
      earlier factory takes; after `clear()` it is found. */
  lemma BeanShadowsRegisteredAdapter(w: World, gson: bool, c: ClassName, a: Adapter)
    requires c != ObjectClass && Info(w, c).publicNoArgCtor && !IsEnum(w, c)
    requires PrimitiveTypeAdapterFactory.CreateTypeAdapter(ClassT(c)).None?
    requires GsonWrapperTypeAdapterFactory.CreateTypeAdapter(w, gson, ClassT(c)).None?
    ensures Resolve(Resolver(w, DefaultFactories(gson) + [ClassAdapter(c, a)]), ClassT(c)) == Ok(BeanAdapter(c))
    ensures Resolve(Resolver(w, [] + [ClassAdapter(c, a)]), ClassT(c)) == Ok(a)
  {
    var fs := DefaultFactories(gson) + [ClassAdapter(c, a)];
    FirstMatchIsFirst(w, fs, ClassT(c), 5);
    assert [] + [ClassAdapter(c, a)] == [ClassAdapter(c, a)];
  }

  /** The registry object. `Valid()` says the cache is transparent: each
      cached adapter is what the current factory list resolves. It holds
      because factories are only ever appended, and `clear()` empties both. */
  /** Every cached adapter is what resolution through the factories gives. */
  ghost predicate CacheSound(w: World, fs: seq<Factory>, cache: map<TypeDesc, Adapter>) {
    forall t :: t in cache ==> FirstMatch(w, fs, t) == Some(cache[t])
  }

  class TypeAdapterRegistry {
    const world: World
    var factories: seq<Factory>
    var cache: map<TypeDesc, Adapter>

    ghost predicate Valid()
      reads this
    {
      CacheSound(world, factories, cache)
    }

    function Spec(): Resolver
      reads this
    {
      Resolver(world, factories)
    }

    constructor (w: World, gsonAvailable: bool)
      ensures Valid() && world == w
      ensures factories == DefaultFactories(gsonAvailable) && cache == map[]
    {
      world := w;
      factories := DefaultFactories(gsonAvailable);
      cache := map[];
    }

    /** `clear()`: no factories, nothing cached. */
    method Clear()
      modifies this
      ensures Valid()
      ensures factories == [] && cache == map[]
    {
      factories := [];
      cache := map[];
    }

    /** `registerAdapterFactory(f)`: appends exactly one factory; `null`
      (`None`) is rejected and changes nothing. The cache is kept. */
    method RegisterAdapterFactory(f: Option<Factory>) returns (r: Res<()>)
      requires Valid()
      modifies this
      ensures Valid() && cache == old(cache)
      ensures f.None? ==> r == Err(NullPointer) && factories == old(factories)
      ensures f.Some? ==> r == Ok(()) && factories == old(factories) + [f.value]
    {
      if f.None? {
        return Err(NullPointer);
      }
      forall t | t in cache ensures FirstMatch(world, factories + [f.value], t) == Some(cache[t]) {
        FirstMatchAppend(world, factories, [f.value], t);
      }
      factories := factories + [f.value];
      r := Ok(());
    }

    /** `registerAdapter(type, adapter)`. */
    method RegisterAdapter(cls: ClassName, a: Adapter)
      requires Valid()
      modifies this
      ensures Valid() && cache == old(cache)
      ensures factories == old(factories) + [ClassAdapter(cls, a)]
    {
      var r := RegisterAdapterFactory(Some(ClassAdapter(cls, a)));
    }

    /** `getTypeAdapter(t)`: a cached adapter is returned as is; otherwise
      the factories are tried in order and the first answer is cached. When
      all decline the lookup fails and nothing is cached. */
    method GetTypeAdapter(t: TypeDesc) returns (r: Res<Adapter>)
      requires Valid()
      modifies this
      ensures Valid() && factories == old(factories)
      ensures r == Resolve(Spec(), t)
      ensures t in old(cache) ==> r == Ok(old(cache)[t]) && cache == old(cache)
      ensures t !in old(cache) && r.Ok? ==> cache == old(cache)[t := r.value]
      ensures r.Err? ==> cache == old(cache) && t !in cache
    {
      if t in cache {
        return Ok(cache[t]);
      }
      var i := 0;
      while i < |factories|
        invariant 0 <= i <= |factories|
        invariant FirstMatch(world, factories, t) == FirstMatch(world, factories[i..], t)
      {
        var a := Create(world, factories[i], t);
        if a.Some? {
          cache := cache[t := a.value];
          return Ok(a.value);
        }
        assert factories[i..][1..] == factories[i + 1..];
        i := i + 1;
      }
      r := Err(UnsupportedType(t));
    }
  }
}
