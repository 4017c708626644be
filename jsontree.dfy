/** Gson trees through the registry: a `JsonPrimitive`, `JsonArray` or
    `JsonObject` written by its runtime class (each child again by its own
    runtime class) is read back by `readAny` as the same tree. */
module JsonTreeRoundTrip {
  import opened Wrappers
  import opened Types
  import opened Tokens
  import opened Values
  import opened Adapters
  import opened Reflection
  import opened TokenStream
  import opened TypeAdapterRegistryImpl
  import opened Encoding
  import Gson = GsonWrapperTypeAdapterFactory

  /** The three tree classes resolve to their own adapters. */
  predicate GsonResolves(r: Resolver) {
    && Resolve(r, ClassT(JsonPrimitiveClass)) == Ok(JsonPrimitiveAdapter)
    && Resolve(r, ClassT(JsonArrayClass)) == Ok(JsonArrayAdapter)
    && Resolve(r, ClassT(JsonObjectClass)) == Ok(JsonObjectAdapter)
  }

  /** A new registry with Gson available resolves the tree classes with the
      wrapper factory, which comes first. */
  lemma DefaultGsonResolves(w: World)
    requires Gson.GsonHierarchy(w)
    ensures GsonResolves(Resolver(w, DefaultFactories(true)))
  {
    var fs := DefaultFactories(true);
    Gson.OwnClassDispatch(w);
    FirstMatchIsFirst(w, fs, ClassT(JsonPrimitiveClass), 0);
    FirstMatchIsFirst(w, fs, ClassT(JsonArrayClass), 0);
    FirstMatchIsFirst(w, fs, ClassT(JsonObjectClass), 0);
  }

  /** A tree of the three modelled classes, with each object's member names
      distinct, as a `JsonObject` keeps them. Gson stores a JSON null as the
      `JsonNull` element, which has no `Value` here: see `JsonNullIsBean`. */
  predicate JsonTree(v: Value)
    decreases v
  {
    match v
    case VJsonPrim(_) => true
    case VJsonArr(items) => forall j :: 0 <= j < |items| ==> JsonTree(items[j])
    case VJsonObj(ms) => DistinctKeys(ms) && forall j :: 0 <= j < |ms| ==> JsonTree(ms[j].1)
    case _ => false
  }

  /** Gson's `JsonNull` class, which the wrapper factory does not handle. */
  const JsonNullClass: ClassName := UserClass("com.google.gson.JsonNull")

  /** `JsonNull` as Gson declares it: a `JsonElement` that is none of the
      three handled classes, not an enum, with a public (deprecated)
      no-argument constructor. */
  predicate JsonNullDeclared(w: World) {
    && Info(w, JsonNullClass).publicNoArgCtor
    && !IsEnum(w, JsonNullClass)
    && !IsAssignableFrom(w, JsonPrimitiveClass, JsonNullClass)
    && !IsAssignableFrom(w, JsonArrayClass, JsonNullClass)
    && !IsAssignableFrom(w, JsonObjectClass, JsonNullClass)
  }

  /** A `JsonNull` child is written by its runtime class, and a new registry
      resolves that class to a bean adapter, not to a Gson adapter. */
  lemma JsonNullIsBean(w: World)
    requires JsonNullDeclared(w)
    ensures Resolve(Resolver(w, DefaultFactories(true)), ClassT(JsonNullClass)) == Ok(BeanAdapter(JsonNullClass))
  {
    FirstMatchIsFirst(w, DefaultFactories(true), ClassT(JsonNullClass), 5);
  }

  predicate StartsTree(t: Token) { t == EnterList || t == EnterObject || t.Scalar? }

  /** Every tree written by its runtime class is read back by `readAny`. */
  lemma {:induction false} TreeRoundTrip(r: Resolver, v: Value, rest: seq<Token>) returns (ts: seq<Token>)
    requires GsonResolves(r) && JsonTree(v)
    ensures Write(r, ClassT(RuntimeClass(v)), v) == Ok(ts)
    ensures |ts| > 0 && StartsTree(ts[0])
    ensures Gson.ReadAny(ts + rest) == Ok((v, rest))
    decreases v, 1
  {
    match v
    case VJsonPrim(_) =>
      ts := PrimitiveTree(r, v, rest);
    case VJsonArr(items) =>
      var tail := ItemsRoundTrip(r, v, 0, [], rest);
      ts := [EnterList] + tail;
      ArrayBrackets(r, v, tail, rest);
    case VJsonObj(ms) =>
      var tail := MembersRoundTrip(r, v, 0, [], rest);
      ts := [EnterObject] + tail;
      ObjectBrackets(r, v, tail, rest);
  }

  /** A primitive leaf is one scalar, read back by `readAny`. */
  lemma PrimitiveTree(r: Resolver, v: Value, rest: seq<Token>) returns (ts: seq<Token>)
    requires GsonResolves(r) && v.VJsonPrim?
    ensures Write(r, ClassT(RuntimeClass(v)), v) == Ok(ts)
    ensures |ts| > 0 && StartsTree(ts[0])
    ensures Gson.ReadAny(ts + rest) == Ok((v, rest))
  {
    assert RuntimeClass(v) == JsonPrimitiveClass;
    WriteByAdapter(r, JsonPrimitiveClass, JsonPrimitiveAdapter, v);
    ts := [Gson.WritePrimitive(v).value];
    PrimitiveWriteWith(r, v);
    Gson.PrimitiveRoundTrip(v, rest);
  }

  lemma PrimitiveWriteWith(r: Resolver, v: Value)
    requires v.VJsonPrim?
    ensures WriteWith(r, JsonPrimitiveAdapter, v) == Ok([Gson.WritePrimitive(v).value])
  {
  }

  lemma ArrayBrackets(r: Resolver, v: Value, tail: seq<Token>, rest: seq<Token>)
    requires GsonResolves(r) && v.VJsonArr?
    requires WriteItems(r, v, 0) == Ok(tail)
    requires Gson.ReadItems(tail + rest, []) == Ok((VJsonArr([] + v.items[0..]), rest))
    ensures Write(r, ClassT(RuntimeClass(v)), v) == Ok([EnterList] + tail)
    ensures Gson.ReadAny([EnterList] + tail + rest) == Ok((v, rest))
  {
    assert [] + v.items[0..] == v.items;
    ArrayWrite(r, v, tail);
    ArrayRead(tail, rest);
  }

  lemma ArrayWrite(r: Resolver, v: Value, tail: seq<Token>)
    requires GsonResolves(r) && v.VJsonArr?
    requires WriteItems(r, v, 0) == Ok(tail)
    ensures Write(r, ClassT(RuntimeClass(v)), v) == Ok([EnterList] + tail)
  {
    assert RuntimeClass(v) == JsonArrayClass;
    WriteByAdapter(r, JsonArrayClass, JsonArrayAdapter, v);
    ArrayWriteWith(r, v, tail);
  }

  lemma ArrayWriteWith(r: Resolver, v: Value, tail: seq<Token>)
    requires v.VJsonArr? && WriteItems(r, v, 0) == Ok(tail)
    ensures WriteWith(r, JsonArrayAdapter, v) == Ok([EnterList] + tail)
  {
  }

  /** Writing by a class that resolves goes through that class's adapter. */
  lemma WriteByAdapter(r: Resolver, c: ClassName, a: Adapter, v: Value)
    requires Resolve(r, ClassT(c)) == Ok(a)
    ensures Write(r, ClassT(c), v) == WriteWith(r, a, v)
  {
  }

  lemma ArrayRead(tail: seq<Token>, rest: seq<Token>)
    ensures Gson.ReadAny([EnterList] + tail + rest) == Gson.ReadItems(tail + rest, [])
  {
    assert [EnterList] + tail + rest == [EnterList] + (tail + rest);
    PollCons(EnterList, tail + rest);
  }

  lemma ObjectBrackets(r: Resolver, v: Value, tail: seq<Token>, rest: seq<Token>)
    requires GsonResolves(r) && v.VJsonObj? && DistinctKeys(v.members)
    requires WriteMembers(r, v, 0) == Ok(tail)
    requires Gson.ReadMembers(tail + rest, []) == Ok((VJsonObj(PutAll([], v.members[0..])), rest))
    ensures Write(r, ClassT(RuntimeClass(v)), v) == Ok([EnterObject] + tail)
    ensures Gson.ReadAny([EnterObject] + tail + rest) == Ok((v, rest))
  {
    assert v.members[0..] == v.members;
    PutAllFresh([], v.members);
    assert [] + v.members == v.members;
    ObjectWrite(r, v, tail);
    ObjectRead(tail, rest);
  }

  lemma ObjectWrite(r: Resolver, v: Value, tail: seq<Token>)
    requires GsonResolves(r) && v.VJsonObj?
    requires WriteMembers(r, v, 0) == Ok(tail)
    ensures Write(r, ClassT(RuntimeClass(v)), v) == Ok([EnterObject] + tail)
  {
    assert RuntimeClass(v) == JsonObjectClass;
    WriteByAdapter(r, JsonObjectClass, JsonObjectAdapter, v);
    ObjectWriteWith(r, v, tail);
  }

  lemma ObjectWriteWith(r: Resolver, v: Value, tail: seq<Token>)
    requires v.VJsonObj? && WriteMembers(r, v, 0) == Ok(tail)
    ensures WriteWith(r, JsonObjectAdapter, v) == Ok([EnterObject] + tail)
  {
  }

  lemma ObjectRead(tail: seq<Token>, rest: seq<Token>)
    ensures Gson.ReadAny([EnterObject] + tail + rest) == Gson.ReadMembers(tail + rest, [])
  {
    assert [EnterObject] + tail + rest == [EnterObject] + (tail + rest);
    PollCons(EnterObject, tail + rest);
  }

  /** The `JsonArray` read loop over what its write loop emitted from item
      `i` on adds exactly those items. */
  lemma {:induction false} ItemsRoundTrip(r: Resolver, v: Value, i: nat, acc: seq<Value>, rest: seq<Token>)
    returns (tail: seq<Token>)
    requires GsonResolves(r) && v.VJsonArr? && i <= |v.items|
    requires forall j :: i <= j < |v.items| ==> JsonTree(v.items[j])
    ensures WriteItems(r, v, i) == Ok(tail)
    ensures Gson.ReadItems(tail + rest, acc) == Ok((VJsonArr(acc + v.items[i..]), rest))
    decreases v, 0, |v.items| - i
  {
    if i == |v.items| {
      tail := [ExitList];
      ItemsEnd(r, v, acc, rest);
    } else {
      var x := v.items[i];
      var later := ItemsRoundTrip(r, v, i + 1, acc + [x], rest);
      var ts := TreeRoundTrip(r, x, later + rest);
      tail := ts + later;
      WriteItemsCons(r, v, i, ts, later);
      ReadItemsCons(v, i, acc, rest, ts, later);
    }
  }

  lemma ItemsEnd(r: Resolver, v: Value, acc: seq<Value>, rest: seq<Token>)
    requires v.VJsonArr?
    ensures WriteItems(r, v, |v.items|) == Ok([ExitList])
    ensures Gson.ReadItems([ExitList] + rest, acc) == Ok((VJsonArr(acc + v.items[|v.items|..]), rest))
  {
    assert acc + v.items[|v.items|..] == acc;
    PollCons(ExitList, rest);
  }

  lemma WriteItemsCons(r: Resolver, v: Value, i: nat, ts: seq<Token>, later: seq<Token>)
    requires v.VJsonArr? && i < |v.items| && !v.items[i].VNull?
    requires Write(r, ClassT(RuntimeClass(v.items[i])), v.items[i]) == Ok(ts)
    requires WriteItems(r, v, i + 1) == Ok(later)
    ensures WriteItems(r, v, i) == Ok(ts + later)
  {
  }

  lemma ReadItemsCons(v: Value, i: nat, acc: seq<Value>, rest: seq<Token>, ts: seq<Token>, later: seq<Token>)
    requires v.VJsonArr? && i < |v.items|
    requires |ts| > 0 && StartsTree(ts[0])
    requires Gson.ReadAny(ts + (later + rest)) == Ok((v.items[i], later + rest))
    requires Gson.ReadItems(later + rest, acc + [v.items[i]]) == Ok((VJsonArr(acc + [v.items[i]] + v.items[i + 1..]), rest))
    ensures Gson.ReadItems(ts + later + rest, acc) == Ok((VJsonArr(acc + v.items[i..]), rest))
  {
    assert ts + later + rest == ts + (later + rest);
    ItemStep(ts, later + rest, acc);
    AppendFirst(acc, v.items[i..]);
    assert v.items[i..][1..] == v.items[i + 1..];
  }

  /** A written tree does not start with `ExitList`, so the loop reads it. */
  lemma ItemStep(ts: seq<Token>, rest: seq<Token>, acc: seq<Value>)
    requires |ts| > 0 && StartsTree(ts[0]) && Gson.ReadAny(ts + rest).Ok?
    ensures Gson.ReadItems(ts + rest, acc)
         == Gson.ReadItems(Gson.ReadAny(ts + rest).value.1, acc + [Gson.ReadAny(ts + rest).value.0])
  {
    assert (ts + rest)[0] == ts[0];
    assert PeekKind(ts + rest) != Ok(EXIT_LIST);
  }

  /** The `JsonObject` read loop over what its write loop emitted from
      member `i` on adds exactly those members. */
  lemma {:induction false} MembersRoundTrip(r: Resolver, v: Value, i: nat, acc: seq<(string, Value)>,
                                            rest: seq<Token>) returns (tail: seq<Token>)
    requires GsonResolves(r) && v.VJsonObj? && i <= |v.members|
    requires forall j :: i <= j < |v.members| ==> JsonTree(v.members[j].1)
    ensures WriteMembers(r, v, i) == Ok(tail)
    ensures Gson.ReadMembers(tail + rest, acc) == Ok((VJsonObj(PutAll(acc, v.members[i..])), rest))
    decreases v, 0, |v.members| - i
  {
    if i == |v.members| {
      tail := [ExitObject];
      MembersEnd(r, v, acc, rest);
    } else {
      var m := v.members[i];
      var later := MembersRoundTrip(r, v, i + 1, Put(acc, m.0, m.1), rest);
      var ts := TreeRoundTrip(r, m.1, later + rest);
      tail := [Key(m.0)] + ts + later;
      WriteMembersCons(r, v, i, ts, later);
      ReadMembersCons(v, i, acc, rest, ts, later);
    }
  }

  lemma MembersEnd(r: Resolver, v: Value, acc: seq<(string, Value)>, rest: seq<Token>)
    requires v.VJsonObj?
    ensures WriteMembers(r, v, |v.members|) == Ok([ExitObject])
    ensures Gson.ReadMembers([ExitObject] + rest, acc) == Ok((VJsonObj(PutAll(acc, v.members[|v.members|..])), rest))
  {
    assert v.members[|v.members|..] == [];
    PollCons(ExitObject, rest);
  }

  lemma WriteMembersCons(r: Resolver, v: Value, i: nat, ts: seq<Token>, later: seq<Token>)
    requires v.VJsonObj? && i < |v.members| && !v.members[i].1.VNull?
    requires Write(r, ClassT(RuntimeClass(v.members[i].1)), v.members[i].1) == Ok(ts)
    requires WriteMembers(r, v, i + 1) == Ok(later)
    ensures WriteMembers(r, v, i) == Ok([Key(v.members[i].0)] + ts + later)
  {
  }

  lemma ReadMembersCons(v: Value, i: nat, acc: seq<(string, Value)>, rest: seq<Token>, ts: seq<Token>, later: seq<Token>)
    requires v.VJsonObj? && i < |v.members|
    requires Gson.ReadAny(ts + (later + rest)) == Ok((v.members[i].1, later + rest))
    requires Gson.ReadMembers(later + rest, Put(acc, v.members[i].0, v.members[i].1))
          == Ok((VJsonObj(PutAll(Put(acc, v.members[i].0, v.members[i].1), v.members[i + 1..])), rest))
    ensures Gson.ReadMembers([Key(v.members[i].0)] + ts + later + rest, acc)
         == Ok((VJsonObj(PutAll(acc, v.members[i..])), rest))
  {
    Regroup([Key(v.members[i].0)], ts, later, rest);
    MemberStep(v.members[i].0, ts + (later + rest), acc);
    assert v.members[i..][1..] == v.members[i + 1..];
  }

  /** A key is not `ExitObject`, so the loop reads the key and the member. */
  lemma MemberStep(k: string, rest: seq<Token>, acc: seq<(string, Value)>)
    requires Gson.ReadAny(rest).Ok?
    ensures Gson.ReadMembers([Key(k)] + rest, acc)
         == Gson.ReadMembers(Gson.ReadAny(rest).value.1, Put(acc, k, Gson.ReadAny(rest).value.0))
  {
    PollCons(Key(k), rest);
  }

  /** The whole-document form: a tree written as a document root is read
      back by the tree's own class. */
  lemma DocumentRoundTrip(r: Resolver, v: Value, rest: seq<Token>)
    requires GsonResolves(r) && JsonTree(v)
    ensures WriteDocument(r, v).Ok?
    ensures ReadDocument(r, RuntimeClass(v), WriteDocument(r, v).value + rest) == Ok((v, rest))
  {
    var ts := TreeRoundTrip(r, v, rest);
    assert WriteDocument(r, v) == Ok(ts);
    ReadByOwnClass(r, v, ts + rest);
  }

  /** Reading by a tree's own class is `readAny` once the first token
      announces that kind of tree. */
  lemma ReadByOwnClass(r: Resolver, v: Value, toks: seq<Token>)
    requires GsonResolves(r) && JsonTree(v) && |toks| > 0
    requires v.VJsonArr? ==> toks[0] == EnterList
    requires v.VJsonObj? ==> toks[0] == EnterObject
    requires v.VJsonPrim? ==> toks[0].Scalar?
    ensures ReadDocument(r, RuntimeClass(v), toks) == Gson.ReadAny(toks)
  {
    var k := ReadKind(toks);
    match v
    case VJsonPrim(_) => ReadAsPrimitive(r, toks, k);
    case VJsonArr(_) => ReadAsArray(r, toks, k);
    case VJsonObj(_) => ReadAsObject(r, toks, k);
  }

  lemma ReadKind(toks: seq<Token>) returns (k: TokenType)
    requires |toks| > 0 && !toks[0].Comment?
    ensures PeekKind(toks) == Ok(k) && k == KindOf(toks[0])
  {
    k := KindOf(toks[0]);
    PollCons(toks[0], toks[1..]);
    assert [toks[0]] + toks[1..] == toks;
  }

  lemma ReadAsPrimitive(r: Resolver, toks: seq<Token>, k: TokenType)
    requires GsonResolves(r) && |toks| > 0 && toks[0].Scalar?
    requires PeekKind(toks) == Ok(k) && k == KindOf(toks[0])
    ensures ReadDocument(r, JsonPrimitiveClass, toks) == Gson.ReadAny(toks)
  {
    ReadWithAdapter(r, JsonPrimitiveClass, JsonPrimitiveAdapter, toks);
    assert k != ENTER_LIST && k != ENTER_OBJECT;
  }

  lemma ReadAsArray(r: Resolver, toks: seq<Token>, k: TokenType)
    requires GsonResolves(r) && |toks| > 0 && toks[0] == EnterList
    requires PeekKind(toks) == Ok(k) && k == KindOf(toks[0])
    ensures ReadDocument(r, JsonArrayClass, toks) == Gson.ReadAny(toks)
  {
    ReadWithAdapter(r, JsonArrayClass, JsonArrayAdapter, toks);
  }

  lemma ReadAsObject(r: Resolver, toks: seq<Token>, k: TokenType)
    requires GsonResolves(r) && |toks| > 0 && toks[0] == EnterObject
    requires PeekKind(toks) == Ok(k) && k == KindOf(toks[0])
    ensures ReadDocument(r, JsonObjectClass, toks) == Gson.ReadAny(toks)
  {
    ReadWithAdapter(r, JsonObjectClass, JsonObjectAdapter, toks);
  }

  /** Reading by a class that resolves goes through that class's adapter. */
  lemma ReadWithAdapter(r: Resolver, c: ClassName, a: Adapter, toks: seq<Token>)
    requires Resolve(r, ClassT(c)) == Ok(a)
    requires a in {JsonPrimitiveAdapter, JsonArrayAdapter, JsonObjectAdapter}
    ensures a == JsonPrimitiveAdapter ==> ReadDocument(r, c, toks) == Gson.ReadPrimitive(toks)
    ensures a == JsonArrayAdapter ==> ReadDocument(r, c, toks) == Gson.ReadArray(toks)
    ensures a == JsonObjectAdapter ==> ReadDocument(r, c, toks) == Gson.ReadObject(toks)
  {
    assert ReadDocument(r, c, toks) == ReadWith(r, a, toks);
  }
}
