/** Reading back what the engine writes: for each built-in container, a
    value whose parts round-trip through their own types round-trips as a
    whole, and the concrete scenarios the adapters are built for. */
module RoundTrip {
  import opened Wrappers
  import opened Types
  import opened Tokens
  import opened Values
  import opened Errors
  import opened Adapters
  import opened Reflection
  import opened TokenStream
  import opened TypeAdapterRegistryImpl
  import opened Encoding
  import Coll = CollectionTypeAdapterFactory
  import Primitive = PrimitiveTypeAdapterFactory
  import Gson = GsonWrapperTypeAdapterFactory

  /** The first token of a written value: a scalar or an opening bracket. */
  predicate StartsValue(t: Token) {
    t == EnterObject || t == EnterList || t.Scalar?
  }

  /** Writing `x` as `t` succeeds, and reading `t` back from those tokens
      gives `x` and leaves whatever followed them. */
  ghost predicate RoundTrips(r: Resolver, t: TypeDesc, x: Value) {
    && Write(r, t, x).Ok?
    && Write(r, t, x).value != []
    && StartsValue(Write(r, t, x).value[0])
    && forall rest :: Read(r, t, Write(r, t, x).value + rest) == Ok((x, rest))
  }

  /** The same for the key form of `t`. */
  ghost predicate KeyRoundTrips(r: Resolver, t: TypeDesc, k: Value) {
    && WriteKey(r, t, k).Ok?
    && forall rest :: Encoding.ReadKey(r, t, WriteKey(r, t, k).value + rest) == Ok((k, rest))
  }

  /** Strings, ints, longs, floats, doubles and booleans round-trip
      through their adapter. */
  lemma PrimitiveRoundTrips(r: Resolver, t: TypeDesc, x: Value)
    requires Resolve(r, t).Ok? && IsPrimitiveAdapter(Resolve(r, t).value)
    requires Primitive.Write(Resolve(r, t).value, x).Ok?
    ensures RoundTrips(r, t, x)
  {
    var a := Resolve(r, t).value;
    var tok := Primitive.Write(a, x).value;
    assert Write(r, t, x) == Ok([tok]);
    forall rest
      ensures Read(r, t, Write(r, t, x).value + rest) == Ok((x, rest))
    {
      Primitive.WriteReadRoundTrip(a, x, rest);
    }
  }

  /** The key forms of strings, ints, longs and booleans round-trip. */
  lemma PrimitiveKeyRoundTrips(r: Resolver, t: TypeDesc, k: Value)
    requires Resolve(r, t).Ok?
    requires var a := Resolve(r, t).value; a.StringAdapter? || a.IntAdapter? || a.LongAdapter? || a.BooleanAdapter?
    requires Primitive.WriteKey(Resolve(r, t).value, k).Ok?
    ensures KeyRoundTrips(r, t, k)
  {
    var a := Resolve(r, t).value;
    var tok := Primitive.WriteKey(a, k).value;
    assert WriteKey(r, t, k) == Ok([tok]);
    forall rest
      ensures Encoding.ReadKey(r, t, WriteKey(r, t, k).value + rest) == Ok((k, rest))
    {
      Primitive.KeyRoundTrip(a, k, rest);
    }
  }

  /** The tokens of a value that round-trips, and the read over them
      followed by `rest`. */
  lemma WrittenTokens(r: Resolver, t: TypeDesc, x: Value, rest: seq<Token>) returns (ts: seq<Token>)
    requires RoundTrips(r, t, x)
    ensures Write(r, t, x) == Ok(ts) && ts != [] && StartsValue(ts[0])
    ensures Read(r, t, ts + rest) == Ok((x, rest))
  {
    ts := Write(r, t, x).value;
  }

  /** The collection read loop over what the write loop emitted from
      element `i` on adds exactly those elements, in order. */
  lemma {:induction false} ElemsRoundTrip(r: Resolver, impl: CollImpl, et: TypeDesc, v: Value, i: nat,
                                          acc: seq<Value>, rest: seq<Token>) returns (tail: seq<Token>)
    requires v.VColl? && i <= |v.elems|
    requires forall j :: i <= j < |v.elems| ==> RoundTrips(r, et, v.elems[j])
    ensures WriteElems(r, et, v, i) == Ok(tail)
    ensures ReadElems(r, impl, et, tail + rest, acc) == Ok((VColl(impl, Coll.AddAll(impl, acc, v.elems[i..])), rest))
    decreases |v.elems| - i
  {
    if i == |v.elems| {
      tail := [ExitList];
      ElemsEnd(r, impl, et, v, acc, rest);
    } else {
      var x := v.elems[i];
      var later := ElemsRoundTrip(r, impl, et, v, i + 1, Coll.Add(impl, acc, x), rest);
      var ts := WrittenTokens(r, et, x, later + rest);
      tail := ts + later;
      WriteElemsCons(r, et, v, i, ts, later);
      ReadElemsCons(r, impl, et, v, i, acc, rest, ts, later);
    }
  }

  lemma ElemsEnd(r: Resolver, impl: CollImpl, et: TypeDesc, v: Value, acc: seq<Value>, rest: seq<Token>)
    requires v.VColl?
    ensures WriteElems(r, et, v, |v.elems|) == Ok([ExitList])
    ensures ReadElems(r, impl, et, [ExitList] + rest, acc) == Ok((VColl(impl, Coll.AddAll(impl, acc, v.elems[|v.elems|..])), rest))
  {
    assert v.elems[|v.elems|..] == [];
    PollCons(ExitList, rest);
  }

  /** The write loop emits element `i`'s tokens before the later elements'. */
  lemma WriteElemsCons(r: Resolver, et: TypeDesc, v: Value, i: nat, ts: seq<Token>, later: seq<Token>)
    requires v.VColl? && i < |v.elems|
    requires Write(r, et, v.elems[i]) == Ok(ts) && WriteElems(r, et, v, i + 1) == Ok(later)
    ensures WriteElems(r, et, v, i) == Ok(ts + later)
  {
  }

  /** The read loop adds element `i` and reads on from the later elements. */
  lemma ReadElemsCons(r: Resolver, impl: CollImpl, et: TypeDesc, v: Value, i: nat, acc: seq<Value>,
                      rest: seq<Token>, ts: seq<Token>, later: seq<Token>)
    requires v.VColl? && i < |v.elems|
    requires ts != [] && StartsValue(ts[0]) && Read(r, et, ts + (later + rest)) == Ok((v.elems[i], later + rest))
    requires ReadElems(r, impl, et, later + rest, Coll.Add(impl, acc, v.elems[i]))
          == Ok((VColl(impl, Coll.AddAll(impl, Coll.Add(impl, acc, v.elems[i]), v.elems[i + 1..])), rest))
    ensures ReadElems(r, impl, et, ts + later + rest, acc) == Ok((VColl(impl, Coll.AddAll(impl, acc, v.elems[i..])), rest))
  {
    assert ts + later + rest == ts + (later + rest);
    ElemStep(r, impl, et, ts, v.elems[i], later + rest, acc);
    AddAllCons(impl, acc, v.elems, i);
  }

  lemma AddAllCons(impl: CollImpl, acc: seq<Value>, xs: seq<Value>, i: nat)
    requires i < |xs|
    ensures Coll.AddAll(impl, acc, xs[i..]) == Coll.AddAll(impl, Coll.Add(impl, acc, xs[i]), xs[i + 1..])
  {
    assert xs[i..][1..] == xs[i + 1..];
  }

  /** One pass of the collection read loop over a written element. */
  lemma ElemStep(r: Resolver, impl: CollImpl, et: TypeDesc, ts: seq<Token>, x: Value, rest: seq<Token>, acc: seq<Value>)
    requires ts != [] && StartsValue(ts[0]) && Read(r, et, ts + rest) == Ok((x, rest))
    ensures ReadElems(r, impl, et, ts + rest, acc) == ReadElems(r, impl, et, rest, Coll.Add(impl, acc, x))
  {
    PeekFirst(ts, rest);
    ReadElemsStep(r, impl, et, ts + rest, acc, x, rest);
  }

  lemma ReadElemsStep(r: Resolver, impl: CollImpl, et: TypeDesc, toks: seq<Token>, acc: seq<Value>, x: Value, rest: seq<Token>)
    requires PeekKind(toks).Ok? && PeekKind(toks).value != EXIT_LIST
    requires Read(r, et, toks) == Ok((x, rest))
    ensures ReadElems(r, impl, et, toks, acc) == ReadElems(r, impl, et, rest, Coll.Add(impl, acc, x))
  {
  }

  /** A collection whose elements round-trip is read back as its elements
      added in order to the adapter's fresh container: a list or queue is
      the same sequence, a set keeps the first occurrence of each element. */
  lemma CollectionRoundTrip(r: Resolver, t: TypeDesc, v: Value, rest: seq<Token>) returns (ts: seq<Token>)
    requires Resolve(r, t).Ok? && Resolve(r, t).value.CollectionAdapter?
    requires v.VColl? && forall j :: 0 <= j < |v.elems| ==> RoundTrips(r, Resolve(r, t).value.elem, v.elems[j])
    ensures Write(r, t, v) == Ok(ts)
    ensures var a := Resolve(r, t).value;
      Read(r, t, ts + rest) == Ok((VColl(a.impl, Coll.AddAll(a.impl, [], v.elems)), rest))
  {
    var a := Resolve(r, t).value;
    var tail := ElemsRoundTrip(r, a.impl, a.elem, v, 0, [], rest);
    assert v.elems[0..] == v.elems;
    ts := [EnterList] + tail;
    CollectionWrite(r, t, a, v, tail);
    CollectionRead(r, t, a, tail, rest);
  }

  lemma CollectionWrite(r: Resolver, t: TypeDesc, a: Adapter, v: Value, tail: seq<Token>)
    requires Resolve(r, t) == Ok(a) && a.CollectionAdapter? && v.VColl?
    requires WriteElems(r, a.elem, v, 0) == Ok(tail)
    ensures Write(r, t, v) == Ok([EnterList] + tail)
  {
  }

  lemma CollectionRead(r: Resolver, t: TypeDesc, a: Adapter, tail: seq<Token>, rest: seq<Token>)
    requires Resolve(r, t) == Ok(a) && a.CollectionAdapter?
    ensures Read(r, t, [EnterList] + tail + rest) == ReadElems(r, a.impl, a.elem, tail + rest, [])
  {
    assert [EnterList] + tail + rest == [EnterList] + (tail + rest);
    ReadByAdapter(r, t, a, [EnterList] + (tail + rest));
    ExpectFirst(EnterList, tail + rest);
    ReadCollectionWith(r, a, tail + rest);
  }

  lemma ReadCollectionWith(r: Resolver, a: Adapter, rest: seq<Token>)
    requires a.CollectionAdapter? && ExpectToken([EnterList] + rest, EnterList) == Ok(rest)
    ensures ReadWith(r, a, [EnterList] + rest) == ReadElems(r, a.impl, a.elem, rest, [])
  {
  }

  /** Reading by a type that resolves goes through that type's adapter. */
  lemma ReadByAdapter(r: Resolver, t: TypeDesc, a: Adapter, toks: seq<Token>)
    requires Resolve(r, t) == Ok(a)
    ensures Read(r, t, toks) == ReadWith(r, a, toks)
  {
  }

  lemma ExpectFirst(t: Token, rest: seq<Token>)
    requires !t.Comment?
    ensures ExpectToken([t] + rest, t) == Ok(rest)
  {
    PollCons(t, rest);
  }

  /** The next token of a nonempty stream that starts with a readable token. */
  lemma PeekFirst(ts: seq<Token>, rest: seq<Token>)
    requires ts != [] && !ts[0].Comment?
    ensures PeekKind(ts + rest) == Ok(KindOf(ts[0]))
  {
    PollCons(ts[0], ts[1..] + rest);
    assert [ts[0]] + (ts[1..] + rest) == ts + rest;
  }

  /** A `List`, `Collection` or `Queue` read of a written collection of the
      same class is that collection; a `Set` read holds each element once,
      exactly the written elements, and all of them in order when they
      were distinct. */
  lemma CollectionContents(r: Resolver, t: TypeDesc, v: Value)
    requires Resolve(r, t).Ok? && Resolve(r, t).value.CollectionAdapter?
    requires v.VColl? && forall j :: 0 <= j < |v.elems| ==> RoundTrips(r, Resolve(r, t).value.elem, v.elems[j])
    ensures var a := Resolve(r, t).value;
      a.impl != LinkedHashSetImpl && v.impl == a.impl ==> RoundTrips(r, t, v)
    ensures var a := Resolve(r, t).value;
      a.impl == LinkedHashSetImpl ==>
        var read := Coll.AddAll(a.impl, [], v.elems);
        && Coll.Distinct(read)
        && (forall y :: y in read <==> y in v.elems)
        && (Coll.Distinct(v.elems) ==> read == v.elems)
  {
    var a := Resolve(r, t).value;
    var ts := CollectionRoundTrip(r, t, v, []);
    if a.impl == LinkedHashSetImpl {
      Coll.AddAllSet([], v.elems);
      assert [] + v.elems == v.elems;
    } else {
      Coll.AddAllAppends(a.impl, [], v.elems);
      assert [] + v.elems == v.elems;
      if v.impl == a.impl {
        forall rest
          ensures Read(r, t, Write(r, t, v).value + rest) == Ok((v, rest))
        {
          var ts' := CollectionRoundTrip(r, t, v, rest);
        }
      }
    }
  }

  /** The key tokens of a key that round-trips, and the key read over them. */
  lemma WrittenKey(r: Resolver, t: TypeDesc, k: Value, rest: seq<Token>) returns (ks: seq<Token>)
    requires KeyRoundTrips(r, t, k)
    ensures WriteKey(r, t, k) == Ok(ks) && |ks| == 1 && ks[0].Key?
    ensures Encoding.ReadKey(r, t, ks + rest) == Ok((k, rest))
  {
    ks := WriteKey(r, t, k).value;
  }

  /** The map read loop over what the write loop emitted from entry `i` on
      puts exactly those entries, in order. */
  lemma {:induction false} EntriesRoundTrip(r: Resolver, kt: TypeDesc, vt: TypeDesc, v: Value, i: nat,
                                            acc: seq<(Value, Value)>, rest: seq<Token>) returns (tail: seq<Token>)
    requires v.VMap? && i <= |v.entries|
    requires forall j :: i <= j < |v.entries| ==> KeyRoundTrips(r, kt, v.entries[j].0) && RoundTrips(r, vt, v.entries[j].1)
    ensures WriteEntries(r, kt, vt, v, i) == Ok(tail)
    ensures ReadEntries(r, kt, vt, tail + rest, acc) == Ok((VMap(PutAll(acc, v.entries[i..])), rest))
    decreases |v.entries| - i
  {
    if i == |v.entries| {
      tail := [ExitObject];
      EntriesEnd(r, kt, vt, v, acc, rest);
    } else {
      var e := v.entries[i];
      var later := EntriesRoundTrip(r, kt, vt, v, i + 1, Put(acc, e.0, e.1), rest);
      var vs := WrittenTokens(r, vt, e.1, later + rest);
      var ks := WrittenKey(r, kt, e.0, vs + (later + rest));
      tail := ks + vs + later;
      WriteEntriesCons(r, kt, vt, v, i, ks, vs, later);
      ReadEntriesCons(r, kt, vt, v, i, acc, rest, ks, vs, later);
    }
  }

  lemma EntriesEnd(r: Resolver, kt: TypeDesc, vt: TypeDesc, v: Value, acc: seq<(Value, Value)>, rest: seq<Token>)
    requires v.VMap?
    ensures WriteEntries(r, kt, vt, v, |v.entries|) == Ok([ExitObject])
    ensures ReadEntries(r, kt, vt, [ExitObject] + rest, acc) == Ok((VMap(PutAll(acc, v.entries[|v.entries|..])), rest))
  {
    assert v.entries[|v.entries|..] == [];
    PollCons(ExitObject, rest);
  }

  /** The map write loop emits entry `i`'s key and value before the later entries. */
  lemma WriteEntriesCons(r: Resolver, kt: TypeDesc, vt: TypeDesc, v: Value, i: nat,
                         ks: seq<Token>, vs: seq<Token>, later: seq<Token>)
    requires v.VMap? && i < |v.entries|
    requires WriteKey(r, kt, v.entries[i].0) == Ok(ks) && Write(r, vt, v.entries[i].1) == Ok(vs)
    requires WriteEntries(r, kt, vt, v, i + 1) == Ok(later)
    ensures WriteEntries(r, kt, vt, v, i) == Ok(ks + vs + later)
  {
  }

  /** The map read loop puts entry `i` and reads on from the later entries. */
  lemma ReadEntriesCons(r: Resolver, kt: TypeDesc, vt: TypeDesc, v: Value, i: nat, acc: seq<(Value, Value)>,
                        rest: seq<Token>, ks: seq<Token>, vs: seq<Token>, later: seq<Token>)
    requires v.VMap? && i < |v.entries|
    requires |ks| == 1 && ks[0].Key?
    requires Encoding.ReadKey(r, kt, ks + (vs + (later + rest))) == Ok((v.entries[i].0, vs + (later + rest)))
    requires Read(r, vt, vs + (later + rest)) == Ok((v.entries[i].1, later + rest))
    requires ReadEntries(r, kt, vt, later + rest, Put(acc, v.entries[i].0, v.entries[i].1))
          == Ok((VMap(PutAll(Put(acc, v.entries[i].0, v.entries[i].1), v.entries[i + 1..])), rest))
    ensures ReadEntries(r, kt, vt, ks + vs + later + rest, acc) == Ok((VMap(PutAll(acc, v.entries[i..])), rest))
  {
    Regroup(ks, vs, later, rest);
    EntryStep(r, kt, vt, ks, vs + (later + rest), acc, v.entries[i].0, v.entries[i].1, later + rest);
    PutAllCons(acc, v.entries, i);
  }

  /** One pass of the map read loop over a written key: it is not the end
      of the object, so the key and then the value are read and put. */
  lemma EntryStep(r: Resolver, kt: TypeDesc, vt: TypeDesc, ks: seq<Token>, rest: seq<Token>, acc: seq<(Value, Value)>,
                  k: Value, val: Value, after: seq<Token>)
    requires |ks| == 1 && ks[0].Key?
    requires Encoding.ReadKey(r, kt, ks + rest) == Ok((k, rest))
    requires Read(r, vt, rest) == Ok((val, after))
    ensures ReadEntries(r, kt, vt, ks + rest, acc) == ReadEntries(r, kt, vt, after, Put(acc, k, val))
  {
    PeekFirst(ks, rest);
    ReadEntriesStep(r, kt, vt, ks + rest, acc, k, rest, val, after);
  }

  lemma ReadEntriesStep(r: Resolver, kt: TypeDesc, vt: TypeDesc, toks: seq<Token>, acc: seq<(Value, Value)>,
                        k: Value, vtoks: seq<Token>, val: Value, after: seq<Token>)
    requires PeekKind(toks).Ok? && PeekKind(toks).value != EXIT_OBJECT
    requires Encoding.ReadKey(r, kt, toks) == Ok((k, vtoks))
    requires Read(r, vt, vtoks) == Ok((val, after))
    ensures ReadEntries(r, kt, vt, toks, acc) == ReadEntries(r, kt, vt, after, Put(acc, k, val))
  {
  }

  /** A map whose keys and values round-trip is read back as its entries
      put in order into a fresh `LinkedHashMap`; with distinct keys, which
      a map always has, that is the same map. */
  lemma MapRoundTrip(r: Resolver, t: TypeDesc, v: Value, rest: seq<Token>) returns (ts: seq<Token>)
    requires Resolve(r, t).Ok? && Resolve(r, t).value.MapAdapter? && v.VMap?
    requires forall j :: 0 <= j < |v.entries| ==>
      KeyRoundTrips(r, Resolve(r, t).value.key, v.entries[j].0) && RoundTrips(r, Resolve(r, t).value.value, v.entries[j].1)
    ensures Write(r, t, v) == Ok(ts)
    ensures Read(r, t, ts + rest) == Ok((VMap(PutAll([], v.entries)), rest))
  {
    var a := Resolve(r, t).value;
    var tail := EntriesRoundTrip(r, a.key, a.value, v, 0, [], rest);
    assert v.entries[0..] == v.entries;
    ts := [EnterObject] + tail;
    MapWrite(r, t, a, v, tail);
    MapRead(r, t, a, tail, rest);
  }

  lemma MapWrite(r: Resolver, t: TypeDesc, a: Adapter, v: Value, tail: seq<Token>)
    requires Resolve(r, t) == Ok(a) && a.MapAdapter? && v.VMap?
    requires WriteEntries(r, a.key, a.value, v, 0) == Ok(tail)
    ensures Write(r, t, v) == Ok([EnterObject] + tail)
  {
  }

  lemma MapRead(r: Resolver, t: TypeDesc, a: Adapter, tail: seq<Token>, rest: seq<Token>)
    requires Resolve(r, t) == Ok(a) && a.MapAdapter?
    ensures Read(r, t, [EnterObject] + tail + rest) == ReadEntries(r, a.key, a.value, tail + rest, [])
  {
    assert [EnterObject] + tail + rest == [EnterObject] + (tail + rest);
    ReadByAdapter(r, t, a, [EnterObject] + (tail + rest));
    ExpectFirst(EnterObject, tail + rest);
    ReadMapWith(r, a, tail + rest);
  }

  lemma ReadMapWith(r: Resolver, a: Adapter, rest: seq<Token>)
    requires a.MapAdapter? && ExpectToken([EnterObject] + rest, EnterObject) == Ok(rest)
    ensures ReadWith(r, a, [EnterObject] + rest) == ReadEntries(r, a.key, a.value, rest, [])
  {
  }

  /** With distinct keys the map round-trips exactly. */
  lemma MapContents(r: Resolver, t: TypeDesc, v: Value)
    requires Resolve(r, t).Ok? && Resolve(r, t).value.MapAdapter? && v.VMap? && DistinctKeys(v.entries)
    requires forall j :: 0 <= j < |v.entries| ==>
      KeyRoundTrips(r, Resolve(r, t).value.key, v.entries[j].0) && RoundTrips(r, Resolve(r, t).value.value, v.entries[j].1)
    ensures RoundTrips(r, t, v)
  {
    PutAllFresh([], v.entries);
    assert [] + v.entries == v.entries;
    var ts := MapRoundTrip(r, t, v, []);
    forall rest
      ensures Read(r, t, Write(r, t, v).value + rest) == Ok((v, rest))
    {
      var ts' := MapRoundTrip(r, t, v, rest);
    }
  }
}
