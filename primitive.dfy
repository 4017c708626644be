/** `PrimitiveTypeAdapterFactory`: the shared adapters for strings, the
    boxed and primitive numeric classes and booleans. Each writes one scalar
    and reads one scalar; each has a key form. */
module PrimitiveTypeAdapterFactory {
  import opened Wrappers
  import opened Types
  import opened Tokens
  import opened Values
  import opened Errors
  import opened Adapters
  import opened Text
  import opened TokenStream

  /** The classes the factory recognises, each by identity. */
  const StringClasses: set<ClassName> := {StringClass, CharSequenceClass}
  const IntClasses: set<ClassName> := {BoxedInt, PrimInt}
  const LongClasses: set<ClassName> := {BoxedLong, PrimLong}
  const FloatClasses: set<ClassName> := {BoxedFloat, PrimFloat}
  const DoubleClasses: set<ClassName> := {BoxedDouble, PrimDouble}
  const BooleanClasses: set<ClassName> := {BoxedBoolean, PrimBoolean}

  /** `createTypeAdapter`: an if-chain of identity tests on the requested type. */
  function CreateTypeAdapter(t: TypeDesc): (r: Option<Adapter>)
    ensures r.Some? ==> IsPrimitiveAdapter(r.value) && t.ClassT?
    ensures r == Some(StringAdapter) <==> t.ClassT? && t.cls in StringClasses
    ensures r == Some(IntAdapter) <==> t.ClassT? && t.cls in IntClasses
    ensures r == Some(LongAdapter) <==> t.ClassT? && t.cls in LongClasses
    ensures r == Some(FloatAdapter) <==> t.ClassT? && t.cls in FloatClasses
    ensures r == Some(DoubleAdapter) <==> t.ClassT? && t.cls in DoubleClasses
    ensures r == Some(BooleanAdapter) <==> t.ClassT? && t.cls in BooleanClasses
  {
    if t == ClassT(StringClass) || t == ClassT(CharSequenceClass) then Some(StringAdapter)
    else if t == ClassT(BoxedInt) || t == ClassT(PrimInt) then Some(IntAdapter)
    else if t == ClassT(BoxedLong) || t == ClassT(PrimLong) then Some(LongAdapter)
    else if t == ClassT(BoxedFloat) || t == ClassT(PrimFloat) then Some(FloatAdapter)
    else if t == ClassT(BoxedDouble) || t == ClassT(PrimDouble) then Some(DoubleAdapter)
    else if t == ClassT(BoxedBoolean) || t == ClassT(PrimBoolean) then Some(BooleanAdapter)
    else None
  }

  /** `write`: one `item(...)` call; a value of another class is a
      `ClassCastException`. A null string is `Mismatch` too, where the
      source passes it on to `item((String) null)`. */
  function Write(a: Adapter, v: Value): (r: Res<Token>)
    requires IsPrimitiveAdapter(a)
    ensures r.Ok? ==> r.value.Scalar?
  {
    match a
    case StringAdapter => if v.VStr? then Ok(Scalar(SStr(v.s))) else Err(Mismatch)
    case IntAdapter => if v.VInt? then Ok(Scalar(SInt(v.i))) else Err(Mismatch)
    case LongAdapter => if v.VLong? then Ok(Scalar(SLong(v.l))) else Err(Mismatch)
    case FloatAdapter => if v.VFloat? then Ok(Scalar(SFloat(v.f))) else Err(Mismatch)
    case DoubleAdapter => if v.VDouble? then Ok(Scalar(SDouble(v.d))) else Err(Mismatch)
    case BooleanAdapter => if v.VBool? then Ok(Scalar(SBool(v.b))) else Err(Mismatch)
  }

  /** `read`: `stringValue()`, `intValue()`, `longValue()`, `floatValue()`,
      `doubleValue()` or `booleanValue()`, each consuming one scalar. */
  function Read(a: Adapter, toks: seq<Token>): (r: Res<(Value, seq<Token>)>)
    requires IsPrimitiveAdapter(a)
    ensures r.Ok? ==> ReadScalar(toks).Ok? && r.value.1 == ReadScalar(toks).value.1
    ensures r.Ok? ==> |r.value.1| < |toks|
  {
    var p :- ReadScalar(toks);
    var v :- Coerce(a, p.0);
    Ok((v, p.1))
  }

  /** The typed consumer each adapter reads with, applied to the scalar. */
  function Coerce(a: Adapter, s: ScalarVal): (r: Res<Value>)
    requires IsPrimitiveAdapter(a)
    ensures r.Ok? ==> Write(a, r.value).Ok?
  {
    match a
    case StringAdapter => var x :- AsString(s); Ok(VStr(x))
    case IntAdapter => var i :- AsInt(s); Ok(VInt(i))
    case LongAdapter => var l :- AsLong(s); Ok(VLong(l))
    case FloatAdapter => var f :- AsFloat(s); Ok(VFloat(f))
    case DoubleAdapter => var d :- AsDouble(s); Ok(VDouble(d))
    case BooleanAdapter => var b :- AsBoolean(s); Ok(VBool(b))
  }

  /** `writeKey`: the key text is the string itself, `String.valueOf` of an
      int, long or boolean; float and double key text is not modelled. A
      null string key is `Mismatch`, where the source calls `key(null)`. */
  function WriteKey(a: Adapter, v: Value): (r: Res<Token>)
    requires IsPrimitiveAdapter(a)
    ensures r.Ok? ==> r.value.Key?
  {
    match a
    case StringAdapter => if v.VStr? then Ok(Key(v.s)) else Err(Mismatch)
    case IntAdapter => if v.VInt? then Ok(Key(ShowInt(v.i))) else Err(Mismatch)
    case LongAdapter => if v.VLong? then Ok(Key(ShowInt(v.l))) else Err(Mismatch)
    case FloatAdapter => if v.VFloat? then Err(FloatText) else Err(Mismatch)
    case DoubleAdapter => if v.VDouble? then Err(FloatText) else Err(Mismatch)
    case BooleanAdapter => if v.VBool? then Ok(Key(ShowBool(v.b))) else Err(Mismatch)
  }

  /** `readKey`: `key()` and then the identity, `Integer.valueOf`,
      `Long.valueOf` or `Boolean.valueOf` on the key text. */
  function ReadKey(a: Adapter, toks: seq<Token>): (r: Res<(Value, seq<Token>)>)
    requires IsPrimitiveAdapter(a)
    ensures r.Ok? ==> TokenStream.ReadKey(toks).Ok? && r.value.1 == TokenStream.ReadKey(toks).value.1
    ensures r.Ok? ==> |r.value.1| < |toks|
  {
    var p :- TokenStream.ReadKey(toks);
    var v :- KeyValue(a, p.0);
    Ok((v, p.1))
  }

  /** The value a key string stands for: the string itself, `Integer.valueOf`,
      `Long.valueOf` or `Boolean.valueOf`. */
  function KeyValue(a: Adapter, name: string): (r: Res<Value>)
    requires IsPrimitiveAdapter(a)
    ensures r.Ok? ==> Write(a, r.value).Ok?
    ensures (a.IntAdapter? || a.LongAdapter?) && r.Err? ==> r == Err(NumberFormat(name))
  {
    match a
    case StringAdapter => Ok(VStr(name))
    case IntAdapter =>
      (match ParseInt(name, MinInt, MaxInt)
       case None => Err(NumberFormat(name))
       case Some(i) => Ok(VInt(i)))
    case LongAdapter =>
      (match ParseInt(name, MinLong, MaxLong)
       case None => Err(NumberFormat(name))
       case Some(l) => Ok(VLong(l)))
    case FloatAdapter => Err(FloatText)
    case DoubleAdapter => Err(FloatText)
    case BooleanAdapter => Ok(VBool(ParseBoolean(name)))
  }

  /** Every string, number and boolean has an adapter for its own class
      (boxed or primitive), and that adapter writes it without a cast failure. */
  lemma OwnClassIsWritable(v: Value, c: ClassName)
    requires v.VStr? || v.VInt? || v.VLong? || v.VFloat? || v.VDouble? || v.VBool?
    requires c == RuntimeClass(v) || (c == PrimInt && v.VInt?) || (c == PrimLong && v.VLong?)
          || (c == PrimFloat && v.VFloat?) || (c == PrimDouble && v.VDouble?) || (c == PrimBoolean && v.VBool?)
    ensures CreateTypeAdapter(ClassT(c)).Some?
    ensures Write(CreateTypeAdapter(ClassT(c)).value, v).Ok?
  {
  }

  /** Reading back the one scalar `write` emitted gives the same value, and
      consumes exactly that token. */
  lemma WriteReadRoundTrip(a: Adapter, v: Value, rest: seq<Token>)
    requires IsPrimitiveAdapter(a) && Write(a, v).Ok?
    ensures Read(a, [Write(a, v).value] + rest) == Ok((v, rest))
  {
    PollCons(Write(a, v).value, rest);
  }

  /** The key form of strings, ints, longs and booleans round-trips. */
  lemma KeyRoundTrip(a: Adapter, v: Value, rest: seq<Token>)
    requires a.StringAdapter? || a.IntAdapter? || a.LongAdapter? || a.BooleanAdapter?
    requires WriteKey(a, v).Ok?
    ensures ReadKey(a, [WriteKey(a, v).value] + rest) == Ok((v, rest))
  {
    var t := WriteKey(a, v).value;
    PollCons(t, rest);
    assert TokenStream.ReadKey([t] + rest) == Ok((t.name, rest));
    KeyValueOfWriteKey(a, v);
  }

  /** The text `writeKey` emits converts back to the value. */
  lemma KeyValueOfWriteKey(a: Adapter, v: Value)
    requires a.StringAdapter? || a.IntAdapter? || a.LongAdapter? || a.BooleanAdapter?
    requires WriteKey(a, v).Ok?
    ensures KeyValue(a, WriteKey(a, v).value.name) == Ok(v)
  {
    match a
    case IntAdapter => ParseShowInt(v.i, MinInt, MaxInt);
    case LongAdapter => ParseShowInt(v.l, MinLong, MaxLong);
    case BooleanAdapter => ParseShowBool(v.b);
    case StringAdapter =>
  }

  /** A numeric key is read only from decimal text: anything else (for
      example "abc" or "") is a `NumberFormatException`, never 0. */
  lemma NumericKeyNeedsDigits(a: Adapter, name: string, rest: seq<Token>)
    requires a.IntAdapter? || a.LongAdapter?
    ensures ReadKey(a, [Key(name)] + rest).Ok? ==>
      |name| > 0 && (AllDigits(name) || ((name[0] == '-' || name[0] == '+') && |name| > 1 && AllDigits(name[1..])))
    ensures ReadKey(a, [Key(name)] + rest).Err? ==> ReadKey(a, [Key(name)] + rest) == Err(NumberFormat(name))
  {
    PollCons(Key(name), rest);
    if a.IntAdapter? {
      if ParseInt(name, MinInt, MaxInt).Some? { ParsedTextIsNumeric(name, MinInt, MaxInt); }
    } else {
      if ParseInt(name, MinLong, MaxLong).Some? { ParsedTextIsNumeric(name, MinLong, MaxLong); }
    }
  }

  /** A boolean key never fails to read: it is true exactly for a
      case-insensitive "true". */
  lemma BooleanKeyTotal(name: string, rest: seq<Token>)
    ensures ReadKey(BooleanAdapter, [Key(name)] + rest) == Ok((VBool(EqualsIgnoreCase(name, "true")), rest))
  {
    PollCons(Key(name), rest);
  }

  /** `read` against a live source: one `item()`, then the typed consumer. */
  method ReadFrom(a: Adapter, rd: TokenReader) returns (r: Res<Value>)
    requires IsPrimitiveAdapter(a) && rd.Valid()
    modifies rd
    ensures rd.Valid()
    ensures ReadOutcome(Read(a, old(rd.Rest())), r, rd.Rest())
  {
    var s := rd.Scalar();
    if s.Err? {
      return Err(s.error);
    }
    r := Coerce(a, s.value);
  }

  /** `readKey` against a live source: `key()`, then the key conversion. */
  method ReadKeyFrom(a: Adapter, rd: TokenReader) returns (r: Res<Value>)
    requires IsPrimitiveAdapter(a) && rd.Valid()
    modifies rd
    ensures rd.Valid()
    ensures ReadOutcome(ReadKey(a, old(rd.Rest())), r, rd.Rest())
  {
    var k := rd.Key();
    if k.Err? {
      return Err(k.error);
    }
    r := KeyValue(a, k.value);
  }
}
