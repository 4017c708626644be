/** `EnumTypeAdapterFactory`: enums are written and read by constant name. */
module EnumTypeAdapterFactory {
  import opened Wrappers
  import opened Types
  import opened Tokens
  import opened Values
  import opened Errors
  import opened Adapters
  import opened Reflection
  import opened TokenStream

  /** Only a plain `Class` that is an enum gets the adapter; a parameterized
      or any other type is declined. */
  function CreateTypeAdapter(w: World, t: TypeDesc): (r: Option<Adapter>)
    ensures r.Some? <==> t.ClassT? && IsEnum(w, t.cls)
    ensures r.Some? ==> r.value == EnumAdapter(t.cls)
  {
    if t.ClassT? && IsEnum(w, t.cls) then Some(EnumAdapter(t.cls)) else None
  }

  /** `obj.name()`; anything but an enum constant is a cast failure. */
  function Name(v: Value): (r: Res<string>)
    ensures r.Ok? <==> v.VEnum?
    ensures r.Ok? ==> r.value == v.name
    ensures r.Err? ==> r.error == Mismatch
  {
    if v.VEnum? then Ok(v.name) else Err(Mismatch)
  }

  /** `Enum.valueOf(cls, name)`: exact, case-sensitive match on the declared names. */
  function ValueOf(w: World, cls: ClassName, name: string): (r: Res<Value>)
    ensures r.Ok? <==> name in Variants(w, cls)
    ensures r.Ok? ==> r.value == VEnum(cls, name)
    ensures r.Err? ==> r.error == UnknownVariant(cls, name)
  {
    if name in Variants(w, cls) then Ok(VEnum(cls, name)) else Err(UnknownVariant(cls, name))
  }

  /** `write`: the name as a string item. */
  function Write(v: Value): (r: Res<Token>)
    ensures r.Ok? <==> v.VEnum?
    ensures r.Ok? ==> r.value == Scalar(SStr(v.name))
  {
    var n :- Name(v);
    Ok(Scalar(SStr(n)))
  }

  /** `writeKey`: the name as a key. */
  function WriteKey(v: Value): (r: Res<Token>)
    ensures r.Ok? <==> v.VEnum?
    ensures r.Ok? ==> r.value == Key(v.name)
  {
    var n :- Name(v);
    Ok(Key(n))
  }

  /** `read`: `stringValue()`, then `Enum.valueOf`. The result is always a
      declared constant of `cls`. */
  function Read(w: World, cls: ClassName, toks: seq<Token>): (r: Res<(Value, seq<Token>)>)
    ensures r.Ok? ==> r.value.0.VEnum? && r.value.0.cls == cls && r.value.0.name in Variants(w, cls)
    ensures r.Ok? ==> |r.value.1| < |toks|
  {
    var p :- ReadScalar(toks);
    var s :- AsString(p.0);
    var e :- ValueOf(w, cls, s);
    Ok((e, p.1))
  }

  /** `readKey`: `key()`, then `Enum.valueOf`. */
  function ReadKey(w: World, cls: ClassName, toks: seq<Token>): (r: Res<(Value, seq<Token>)>)
    ensures r.Ok? ==> r.value.0.VEnum? && r.value.0.cls == cls && r.value.0.name in Variants(w, cls)
    ensures r.Ok? ==> |r.value.1| < |toks|
  {
    var p :- TokenStream.ReadKey(toks);
    var e :- ValueOf(w, cls, p.0);
    Ok((e, p.1))
  }

  /** Every constant reads back from what `write` and `writeKey` emit. */
  lemma RoundTrip(w: World, cls: ClassName, name: string, rest: seq<Token>)
    requires name in Variants(w, cls)
    ensures Read(w, cls, [Write(VEnum(cls, name)).value] + rest) == Ok((VEnum(cls, name), rest))
    ensures ReadKey(w, cls, [WriteKey(VEnum(cls, name)).value] + rest) == Ok((VEnum(cls, name), rest))
  {
    PollCons(Scalar(SStr(name)), rest);
    PollCons(Key(name), rest);
  }

  /** A name that is not declared is an error, as a value and as a key. */
  lemma UnknownNameFails(w: World, cls: ClassName, name: string, rest: seq<Token>)
    requires name !in Variants(w, cls)
    ensures Read(w, cls, [Scalar(SStr(name))] + rest) == Err(UnknownVariant(cls, name))
    ensures ReadKey(w, cls, [Key(name)] + rest) == Err(UnknownVariant(cls, name))
  {
    PollCons(Scalar(SStr(name)), rest);
    PollCons(Key(name), rest);
  }

  /** `read` against a live source. */
  method ReadFrom(w: World, cls: ClassName, rd: TokenReader) returns (r: Res<Value>)
    requires rd.Valid()
    modifies rd
    ensures rd.Valid()
    ensures ReadOutcome(Read(w, cls, old(rd.Rest())), r, rd.Rest())
  {
    var s := rd.Scalar();
    if s.Err? {
      return Err(s.error);
    }
    var name := AsString(s.value);
    if name.Err? {
      return Err(name.error);
    }
    r := ValueOf(w, cls, name.value);
  }

  /** `readKey` against a live source. */
  method ReadKeyFrom(w: World, cls: ClassName, rd: TokenReader) returns (r: Res<Value>)
    requires rd.Valid()
    modifies rd
    ensures rd.Valid()
    ensures ReadOutcome(ReadKey(w, cls, old(rd.Rest())), r, rd.Rest())
  {
    var k := rd.Key();
    if k.Err? {
      return Err(k.error);
    }
    r := ValueOf(w, cls, k.value);
  }
}
