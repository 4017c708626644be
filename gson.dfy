/** `GsonWrapperTypeAdapterFactory`: Gson's `JsonPrimitive`, `JsonArray` and
    `JsonObject` trees. Reading is a recursive descent of its own
    (`readAny`, `readArray`, `readObject`, `readPrimitive`) that does not go
    through the registry; writing an array or object writes each child by
    its runtime class, through the registry, and is in `Encoding`. */
module GsonWrapperTypeAdapterFactory {
  import opened Wrappers
  import opened Types
  import opened Tokens
  import opened Values
  import opened Errors
  import opened Adapters
  import opened Reflection
  import opened TokenStream

  /** Dispatch by `Class` only, tested in the order JsonPrimitive, JsonArray,
      JsonObject. Without Gson on the class path the factory is one that
      always declines. */
  function CreateTypeAdapter(w: World, available: bool, t: TypeDesc): (r: Option<Adapter>)
    ensures r.Some? ==> available && t.ClassT?
    ensures r == Some(JsonPrimitiveAdapter) <==> available && t.ClassT? && IsAssignableFrom(w, JsonPrimitiveClass, t.cls)
    ensures r == Some(JsonArrayAdapter) <==>
      (available && t.ClassT? && !IsAssignableFrom(w, JsonPrimitiveClass, t.cls) && IsAssignableFrom(w, JsonArrayClass, t.cls))
    ensures r == Some(JsonObjectAdapter) <==>
      (available && t.ClassT? && !IsAssignableFrom(w, JsonPrimitiveClass, t.cls) && !IsAssignableFrom(w, JsonArrayClass, t.cls)
       && IsAssignableFrom(w, JsonObjectClass, t.cls))
    ensures r.Some? ==> r.value in {JsonPrimitiveAdapter, JsonArrayAdapter, JsonObjectAdapter}
  {
    if !available || !t.ClassT? then None
    else if IsAssignableFrom(w, JsonPrimitiveClass, t.cls) then Some(JsonPrimitiveAdapter)
    else if IsAssignableFrom(w, JsonArrayClass, t.cls) then Some(JsonArrayAdapter)
    else if IsAssignableFrom(w, JsonObjectClass, t.cls) then Some(JsonObjectAdapter)
    else None
  }

  /** The three Gson classes are unrelated, as in Gson itself. */
  predicate GsonHierarchy(w: World) {
    && !IsAssignableFrom(w, JsonPrimitiveClass, JsonArrayClass)
    && !IsAssignableFrom(w, JsonPrimitiveClass, JsonObjectClass)
    && !IsAssignableFrom(w, JsonArrayClass, JsonObjectClass)
  }

  /** Each tree node's own class selects its own adapter. */
  lemma OwnClassDispatch(w: World)
    requires GsonHierarchy(w)
    ensures CreateTypeAdapter(w, true, ClassT(JsonPrimitiveClass)) == Some(JsonPrimitiveAdapter)
    ensures CreateTypeAdapter(w, true, ClassT(JsonArrayClass)) == Some(JsonArrayAdapter)
    ensures CreateTypeAdapter(w, true, ClassT(JsonObjectClass)) == Some(JsonObjectAdapter)
  {
  }

  /** The `JsonPrimitive` write: a number whose value is a whole `long` is
      written as a long, any other number as a double. */
  function WritePrimitive(v: Value): (r: Res<Token>)
    ensures r.Ok? <==> v.VJsonPrim?
    ensures r.Ok? ==> r.value.Scalar?
  {
    if !v.VJsonPrim? then Err(Mismatch)
    else match v.p
      case JStr(s) => Ok(Scalar(SStr(s)))
      case JBool(b) => Ok(Scalar(SBool(b)))
      case JNum(Whole(i)) => Ok(Scalar(SLong(i)))
      case JNum(NonWhole(id)) => Ok(Scalar(SDouble(NonWhole(id))))
  }

  /** `readPrimitive`: STRING and BOOLEAN by kind; every other kind is
      read as a number with `doubleValue()`. */
  function ReadPrimitive(toks: seq<Token>): (r: Res<(Value, seq<Token>)>)
    ensures r.Ok? ==> r.value.0.VJsonPrim?
    ensures r.Ok? ==> |r.value.1| < |toks|
    ensures r.Ok? ==> ReadScalar(toks).Ok? && r.value.1 == ReadScalar(toks).value.1
    ensures r.Ok? ==> (r.value.0.p.JStr? <==> PeekKind(toks) == Ok(STRING))
    ensures r.Ok? ==> (r.value.0.p.JBool? <==> PeekKind(toks) == Ok(BOOLEAN))
    ensures r.Ok? && r.value.0.p.JNum? ==> AsDouble(ReadScalar(toks).value.0) == Ok(r.value.0.p.n)
  {
    var k :- PeekKind(toks);
    var p :- ReadScalar(toks);
    if k == STRING then
      var s :- AsString(p.0); Ok((VJsonPrim(JStr(s)), p.1))
    else if k == BOOLEAN then
      var b :- AsBoolean(p.0); Ok((VJsonPrim(JBool(b)), p.1))
    else
      var d :- AsDouble(p.0); Ok((VJsonPrim(JNum(d)), p.1))
  }

  /** `readAny`: a list, an object, or else a primitive, by `peek()`. */
  function ReadAny(toks: seq<Token>): (r: Res<(Value, seq<Token>)>)
    ensures r.Ok? ==> |r.value.1| < |toks|
    decreases |toks|, 1
  {
    var k :- PeekKind(toks);
    if k == ENTER_LIST then ReadArray(toks)
    else if k == ENTER_OBJECT then ReadObject(toks)
    else ReadPrimitive(toks)
  }

  /** `readArray`. */
  function ReadArray(toks: seq<Token>): (r: Res<(Value, seq<Token>)>)
    ensures r.Ok? ==> r.value.0.VJsonArr?
    ensures r.Ok? ==> |r.value.1| < |toks|
    decreases |toks|, 0
  {
    var rest :- ExpectToken(toks, EnterList);
    ReadItems(rest, [])
  }

  /** The loop of `readArray`: elements in stream order until `ExitList`. */
  function ReadItems(toks: seq<Token>, items: seq<Value>): (r: Res<(Value, seq<Token>)>)
    ensures r.Ok? ==> r.value.0.VJsonArr?
    ensures r.Ok? ==> |r.value.1| < |toks|
    decreases |toks|, 2
  {
    var k :- PeekKind(toks);
    if k == EXIT_LIST then
      match ExpectToken(toks, ExitList)
      case Ok(rest) => Ok((VJsonArr(items), rest))
      case Err(e) => Err(e)
    else
      var p :- ReadAny(toks);
      ReadItems(p.1, items + [p.0])
  }

  /** `readObject`. */
  function ReadObject(toks: seq<Token>): (r: Res<(Value, seq<Token>)>)
    ensures r.Ok? ==> r.value.0.VJsonObj?
    ensures r.Ok? ==> |r.value.1| < |toks|
    decreases |toks|, 0
  {
    var rest :- ExpectToken(toks, EnterObject);
    ReadMembers(rest, [])
  }

  /** The loop of `readObject`: a key and a value per member until
      `ExitObject`; `JsonObject.add` of a repeated key replaces its value. */
  function ReadMembers(toks: seq<Token>, members: seq<(string, Value)>): (r: Res<(Value, seq<Token>)>)
    ensures r.Ok? ==> r.value.0.VJsonObj?
    ensures r.Ok? ==> |r.value.1| < |toks|
    decreases |toks|, 2
  {
    var k :- PeekKind(toks);
    if k == EXIT_OBJECT then
      match ExpectToken(toks, ExitObject)
      case Ok(rest) => Ok((VJsonObj(members), rest))
      case Err(e) => Err(e)
    else
      var key :- TokenStream.ReadKey(toks);
      var p :- ReadAny(key.1);
      ReadMembers(p.1, Put(members, key.0, p.0))
  }

  /** Every `JsonPrimitive` reads back from the scalar its write emits. */
  lemma PrimitiveRoundTrip(v: Value, rest: seq<Token>)
    requires v.VJsonPrim?
    ensures ReadPrimitive([WritePrimitive(v).value] + rest) == Ok((v, rest))
    ensures ReadAny([WritePrimitive(v).value] + rest) == Ok((v, rest))
  {
    PollCons(WritePrimitive(v).value, rest);
  }

  /** The same reads performed on a live reader. */
  method ReadPrimitiveFrom(rd: TokenReader) returns (r: Res<Value>)
    requires rd.Valid()
    modifies rd
    ensures rd.Valid()
    ensures ReadOutcome(ReadPrimitive(old(rd.Rest())), r, rd.Rest())
  {
    var k := rd.Peek();
    if k.Err? { return Err(k.error); }
    var s := rd.Scalar();
    if s.Err? { return Err(s.error); }
    if k.value == STRING {
      var x := AsString(s.value);
      if x.Err? { return Err(x.error); }
      r := Ok(VJsonPrim(JStr(x.value)));
    } else if k.value == BOOLEAN {
      var x := AsBoolean(s.value);
      if x.Err? { return Err(x.error); }
      r := Ok(VJsonPrim(JBool(x.value)));
    } else {
      var x := AsDouble(s.value);
      if x.Err? { return Err(x.error); }
      r := Ok(VJsonPrim(JNum(x.value)));
    }
  }

  method ReadAnyFrom(rd: TokenReader) returns (r: Res<Value>)
    requires rd.Valid()
    modifies rd
    ensures rd.Valid()
    ensures ReadOutcome(ReadAny(old(rd.Rest())), r, rd.Rest())
    decreases |rd.Rest()|, 1
  {
    var k := rd.Peek();
    if k.Err? { return Err(k.error); }
    if k.value == ENTER_LIST {
      r := ReadArrayFrom(rd);
    } else if k.value == ENTER_OBJECT {
      r := ReadObjectFrom(rd);
    } else {
      r := ReadPrimitiveFrom(rd);
    }
  }

  method ReadArrayFrom(rd: TokenReader) returns (r: Res<Value>)
    requires rd.Valid()
    modifies rd
    ensures rd.Valid()
    ensures ReadOutcome(ReadArray(old(rd.Rest())), r, rd.Rest())
    decreases |rd.Rest()|, 0
  {
    var e := rd.Expect(EnterList);
    if e.Err? { return Err(e.error); }
    var items: seq<Value> := [];
    while true
      invariant rd.Valid()
      invariant |rd.Rest()| < |old(rd.Rest())|
      invariant ReadArray(old(rd.Rest())) == ReadItems(rd.Rest(), items)
      decreases |rd.Rest()|
    {
      var k := rd.Peek();
      if k.Err? { return Err(k.error); }
      if k.value == EXIT_LIST {
        var x := rd.Expect(ExitList);
        assert x.Ok?;
        return Ok(VJsonArr(items));
      }
      var v := ReadAnyFrom(rd);
      if v.Err? { return Err(v.error); }
      items := items + [v.value];
    }
  }

  method ReadObjectFrom(rd: TokenReader) returns (r: Res<Value>)
    requires rd.Valid()
    modifies rd
    ensures rd.Valid()
    ensures ReadOutcome(ReadObject(old(rd.Rest())), r, rd.Rest())
    decreases |rd.Rest()|, 0
  {
    var e := rd.Expect(EnterObject);
    if e.Err? { return Err(e.error); }
    var members: seq<(string, Value)> := [];
    while true
      invariant rd.Valid()
      invariant |rd.Rest()| < |old(rd.Rest())|
      invariant ReadObject(old(rd.Rest())) == ReadMembers(rd.Rest(), members)
      decreases |rd.Rest()|
    {
      var k := rd.Peek();
      if k.Err? { return Err(k.error); }
      if k.value == EXIT_OBJECT {
        var x := rd.Expect(ExitObject);
        assert x.Ok?;
        return Ok(VJsonObj(members));
      }
      var key := rd.Key();
      if key.Err? { return Err(key.error); }
      var v := ReadAnyFrom(rd);
      if v.Err? { return Err(v.error); }
      members := Put(members, key.value, v.value);
    }
  }
}
