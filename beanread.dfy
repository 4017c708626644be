/** What the bean read loop does with each key: a key with a setter has its
    value read with the setter's parameter type and handed to the setter; a
    key without one has its whole value skipped; an empty key is an error. */
module BeanPropertyRead {
  import opened Wrappers
  import opened Types
  import opened Tokens
  import opened Values
  import opened Errors
  import opened Reflection
  import opened TokenStream
  import opened TypeAdapterRegistryImpl
  import opened Encoding
  import Bean = BeanTypeAdapter

  /** A key naming no one-argument setter: its value, however deeply
      nested, is skipped and the instance is left as it was. */
  lemma UnknownPropertySkipped(r: Resolver, c: ClassName, k: string, s: Shape, rest: seq<Token>,
                               state: seq<(string, Value)>)
    requires Bean.SetterName(k).Some?
    requires Bean.FindSetter(Info(r.world, c).methods, Bean.SetterName(k).value).None?
    ensures ReadProperty(r, c, [Key(k)] + ShapeTokens(s) + rest, state) == Ok((state, rest))
  {
    assert [Key(k)] + ShapeTokens(s) + rest == [Key(k)] + (ShapeTokens(s) + rest);
    PollCons(Key(k), ShapeTokens(s) + rest);
    SkipDeepSkipsOneValue(s, rest);
  }

  /** A key naming a setter: the value is read with the setter's parameter
      type and handed to the setter. */
  lemma KnownPropertySet(r: Resolver, c: ClassName, k: string, j: nat, rest: seq<Token>,
                         state: seq<(string, Value)>, x: Value, after: seq<Token>)
    requires Bean.SetterName(k).Some?
    requires Bean.FindSetter(Info(r.world, c).methods, Bean.SetterName(k).value) == Some(j)
    requires Read(r, Info(r.world, c).methods[j].params[0], rest) == Ok((x, after))
    ensures ReadProperty(r, c, [Key(k)] + rest, state) == Ok((Bean.Invoke(Info(r.world, c).methods[j], state, x), after))
  {
    PollCons(Key(k), rest);
  }

  /** An empty key has no setter name (its first character is missing). */
  lemma EmptyKeyFails(r: Resolver, c: ClassName, rest: seq<Token>, state: seq<(string, Value)>)
    ensures ReadProperty(r, c, [Key("")] + rest, state) == Err(EmptyKey)
  {
    PollCons(Key(""), rest);
  }

  /** Inside a bean object, an unknown property leaves the result of the
      rest of the read unchanged: unknown keys are ignored, not errors. */
  lemma UnknownPropertyIgnored(r: Resolver, c: ClassName, k: string, s: Shape, rest: seq<Token>,
                               state: seq<(string, Value)>)
    requires Bean.SetterName(k).Some?
    requires Bean.FindSetter(Info(r.world, c).methods, Bean.SetterName(k).value).None?
    ensures ReadFields(r, c, [Key(k)] + ShapeTokens(s) + rest, state) == ReadFields(r, c, rest, state)
  {
    UnknownPropertySkipped(r, c, k, s, rest, state);
    PeekKey(k, ShapeTokens(s), rest);
    FieldStep(r, c, [Key(k)] + ShapeTokens(s) + rest, state, state, rest);
  }

  lemma PeekKey(k: string, ts: seq<Token>, rest: seq<Token>)
    ensures PeekKind([Key(k)] + ts + rest) == Ok(KEY)
  {
    assert [Key(k)] + ts + rest == [Key(k)] + (ts + rest);
    PollCons(Key(k), ts + rest);
  }

  /** The bean read loop at a key goes on from where its property read stops. */
  lemma FieldStep(r: Resolver, c: ClassName, toks: seq<Token>, state: seq<(string, Value)>,
                  state': seq<(string, Value)>, rest: seq<Token>)
    requires PeekKind(toks) == Ok(KEY)
    requires ReadProperty(r, c, toks, state) == Ok((state', rest))
    ensures ReadFields(r, c, toks, state) == ReadFields(r, c, rest, state')
  {
  }
}
