/** A worked document: with a new registry, the map `{"a" -> [1, 2, 3]}`
    declared as `Map<String, List<Integer>>` is written as one object with
    one key and a list of three ints, and read back as an equal map. */
module MapOfListScenario {
  import opened Wrappers
  import opened Types
  import opened Tokens
  import opened Values
  import opened Adapters
  import opened Reflection
  import opened TypeAdapterRegistryImpl
  import opened Encoding
  import opened RoundTrip
  import Primitive = PrimitiveTypeAdapterFactory

  const IntT := ClassT(BoxedInt)
  const StrT := ClassT(StringClass)
  const ListT := Param(ListIface, [IntT])
  const MapT := Param(MapIface, [StrT, ListT])

  const Numbers := VColl(ArrayListImpl, [VInt(1), VInt(2), VInt(3)])
  const Doc := VMap([(VStr("a"), Numbers)])

  const DocTokens := [EnterObject, Key("a"), EnterList,
                      Scalar(SInt(1)), Scalar(SInt(2)), Scalar(SInt(3)),
                      ExitList, ExitObject]

  /** `String` and `Integer` are not Gson tree classes. */
  predicate PlainJdk(w: World) {
    && JsonPrimitiveClass !in Info(w, StringClass).supertypes
    && JsonArrayClass !in Info(w, StringClass).supertypes
    && JsonObjectClass !in Info(w, StringClass).supertypes
    && JsonPrimitiveClass !in Info(w, BoxedInt).supertypes
    && JsonArrayClass !in Info(w, BoxedInt).supertypes
    && JsonObjectClass !in Info(w, BoxedInt).supertypes
  }

  /** The map type goes to the map factory, the third in the list. */
  lemma ResolveMap(w: World, g: bool)
    ensures Resolve(Resolver(w, DefaultFactories(g)), MapT) == Ok(MapAdapter(StrT, ListT))
  {
    var fs := DefaultFactories(g);
    assert Create(w, fs[0], MapT).None? && Create(w, fs[1], MapT).None?;
    FirstMatchIsFirst(w, fs, MapT, 2);
  }

  /** The list type goes to the collection factory, the second. */
  lemma ResolveList(w: World, g: bool)
    ensures Resolve(Resolver(w, DefaultFactories(g)), ListT) == Ok(CollectionAdapter(ArrayListImpl, IntT))
  {
    var fs := DefaultFactories(g);
    assert Create(w, fs[0], ListT).None?;
    FirstMatchIsFirst(w, fs, ListT, 1);
  }

  /** `String` and `Integer` go to the primitive factory, the fourth. */
  lemma ResolveString(w: World, g: bool)
    requires PlainJdk(w)
    ensures Resolve(Resolver(w, DefaultFactories(g)), StrT) == Ok(StringAdapter)
  {
    var fs := DefaultFactories(g);
    assert !IsAssignableFrom(w, JsonPrimitiveClass, StringClass);
    assert !IsAssignableFrom(w, JsonArrayClass, StringClass);
    assert !IsAssignableFrom(w, JsonObjectClass, StringClass);
    FirstMatchIsFirst(w, fs, StrT, 3);
  }

  lemma ResolveInt(w: World, g: bool)
    requires PlainJdk(w)
    ensures Resolve(Resolver(w, DefaultFactories(g)), IntT) == Ok(IntAdapter)
  {
    var fs := DefaultFactories(g);
    assert !IsAssignableFrom(w, JsonPrimitiveClass, BoxedInt);
    assert !IsAssignableFrom(w, JsonArrayClass, BoxedInt);
    assert !IsAssignableFrom(w, JsonObjectClass, BoxedInt);
    FirstMatchIsFirst(w, fs, IntT, 3);
  }

  lemma IntTokens(r: Resolver, i: Int32)
    requires Resolve(r, IntT) == Ok(IntAdapter)
    ensures Write(r, IntT, VInt(i)) == Ok([Scalar(SInt(i))])
  {
  }

  /** `[1, 2, 3]` as an `ArrayList<Integer>`: the list brackets around three ints. */
  lemma ListTokens(r: Resolver)
    requires Resolve(r, ListT) == Ok(CollectionAdapter(ArrayListImpl, IntT))
    requires Resolve(r, IntT) == Ok(IntAdapter)
    ensures Write(r, ListT, Numbers) == Ok([EnterList, Scalar(SInt(1)), Scalar(SInt(2)), Scalar(SInt(3)), ExitList])
  {
    var tail := ElemsTokens(r);
    CollectionWrite(r, ListT, CollectionAdapter(ArrayListImpl, IntT), Numbers, tail);
    assert [EnterList] + tail == [EnterList, Scalar(SInt(1)), Scalar(SInt(2)), Scalar(SInt(3)), ExitList];
  }

  lemma ElemsTokens(r: Resolver) returns (tail: seq<Token>)
    requires Resolve(r, IntT) == Ok(IntAdapter)
    ensures tail == [Scalar(SInt(1)), Scalar(SInt(2)), Scalar(SInt(3)), ExitList]
    ensures WriteElems(r, IntT, Numbers, 0) == Ok(tail)
  {
    var t3 := ElemToken(r, 2, [ExitList]);
    var t2 := ElemToken(r, 1, t3);
    tail := ElemToken(r, 0, t2);
  }

  /** The write loop at element `i` emits that int's scalar first. */
  lemma ElemToken(r: Resolver, i: nat, later: seq<Token>) returns (tail: seq<Token>)
    requires Resolve(r, IntT) == Ok(IntAdapter) && i < 3
    requires WriteElems(r, IntT, Numbers, i + 1) == Ok(later)
    ensures tail == [Scalar(SInt(i + 1))] + later
    ensures WriteElems(r, IntT, Numbers, i) == Ok(tail)
  {
    assert Numbers.elems[i] == VInt(i + 1);
    IntTokens(r, i + 1);
    WriteElemsCons(r, IntT, Numbers, i, [Scalar(SInt(i + 1))], later);
    tail := [Scalar(SInt(i + 1))] + later;
  }

  /** The whole map: the object brackets around the key and the list. */
  lemma MapTokens(r: Resolver, lt: seq<Token>)
    requires Resolve(r, MapT) == Ok(MapAdapter(StrT, ListT))
    requires Resolve(r, StrT) == Ok(StringAdapter)
    requires Write(r, ListT, Numbers) == Ok(lt)
    ensures Write(r, MapT, Doc) == Ok([EnterObject, Key("a")] + lt + [ExitObject])
  {
    EntryTokens(r, lt);
    MapWrite(r, MapT, MapAdapter(StrT, ListT), Doc, [Key("a")] + lt + [ExitObject]);
    assert [EnterObject] + ([Key("a")] + lt + [ExitObject]) == [EnterObject, Key("a")] + lt + [ExitObject];
  }

  /** The entry loop: the one key, its list, then the closing bracket. */
  lemma EntryTokens(r: Resolver, lt: seq<Token>)
    requires Resolve(r, StrT) == Ok(StringAdapter)
    requires Write(r, ListT, Numbers) == Ok(lt)
    ensures WriteEntries(r, StrT, ListT, Doc, 0) == Ok([Key("a")] + lt + [ExitObject])
  {
    KeyToken(r);
    assert Doc.entries[0] == (VStr("a"), Numbers) && |Doc.entries| == 1;
    EntriesEnd(r, StrT, ListT, Doc, [], []);
    WriteEntriesCons(r, StrT, ListT, Doc, 0, [Key("a")], lt, [ExitObject]);
  }

  lemma KeyToken(r: Resolver)
    requires Resolve(r, StrT) == Ok(StringAdapter)
    ensures WriteKey(r, StrT, VStr("a")) == Ok([Key("a")])
  {
    assert Primitive.WriteKey(StringAdapter, VStr("a")) == Ok(Key("a"));
  }

  /** Every part of the document round-trips with its declared type. */
  lemma PartsRoundTrip(r: Resolver)
    requires Resolve(r, MapT) == Ok(MapAdapter(StrT, ListT))
    requires Resolve(r, ListT) == Ok(CollectionAdapter(ArrayListImpl, IntT))
    requires Resolve(r, StrT) == Ok(StringAdapter) && Resolve(r, IntT) == Ok(IntAdapter)
    ensures RoundTrips(r, ListT, Numbers)
    ensures KeyRoundTrips(r, StrT, VStr("a"))
  {
    PrimitiveRoundTrips(r, IntT, VInt(1));
    PrimitiveRoundTrips(r, IntT, VInt(2));
    PrimitiveRoundTrips(r, IntT, VInt(3));
    assert forall j :: 0 <= j < |Numbers.elems| ==> RoundTrips(r, IntT, Numbers.elems[j]);
    CollectionContents(r, ListT, Numbers);
    assert Primitive.WriteKey(StringAdapter, VStr("a")).Ok?;
    PrimitiveKeyRoundTrips(r, StrT, VStr("a"));
  }

  lemma DocRoundTrips(r: Resolver)
    requires Resolve(r, MapT) == Ok(MapAdapter(StrT, ListT))
    requires Resolve(r, ListT) == Ok(CollectionAdapter(ArrayListImpl, IntT))
    requires Resolve(r, StrT) == Ok(StringAdapter) && Resolve(r, IntT) == Ok(IntAdapter)
    ensures RoundTrips(r, MapT, Doc)
  {
    PartsRoundTrip(r);
    assert DistinctKeys(Doc.entries);
    MapContents(r, MapT, Doc);
  }

  /** The document's exact tokens, and the map they read back as. */
  lemma Scenario(w: World, g: bool)
    requires PlainJdk(w)
    ensures Write(Resolver(w, DefaultFactories(g)), MapT, Doc) == Ok(DocTokens)
    ensures Read(Resolver(w, DefaultFactories(g)), MapT, DocTokens) == Ok((Doc, []))
  {
    var r := Resolver(w, DefaultFactories(g));
    ResolveMap(w, g);
    ResolveList(w, g);
    ResolveString(w, g);
    ResolveInt(w, g);
    ScenarioTokens(r);
  }

  lemma ScenarioTokens(r: Resolver)
    requires Resolve(r, MapT) == Ok(MapAdapter(StrT, ListT))
    requires Resolve(r, ListT) == Ok(CollectionAdapter(ArrayListImpl, IntT))
    requires Resolve(r, StrT) == Ok(StringAdapter) && Resolve(r, IntT) == Ok(IntAdapter)
    ensures Write(r, MapT, Doc) == Ok(DocTokens)
    ensures Read(r, MapT, DocTokens) == Ok((Doc, []))
  {
    ListTokens(r);
    var lt := [EnterList, Scalar(SInt(1)), Scalar(SInt(2)), Scalar(SInt(3)), ExitList];
    MapTokens(r, lt);
    assert [EnterObject, Key("a")] + lt + [ExitObject] == DocTokens;
    DocRoundTrips(r);
    var ts := WrittenTokens(r, MapT, Doc, []);
    assert ts + [] == DocTokens;
  }
}
