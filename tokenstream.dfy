/** An in-memory document backend: the `ObjectWriter` is a growing token
    sequence, the `ObjectReader` a token sequence with a cursor. The pure
    functions say what each reader operation does to the remaining input;
    the classes perform the same operations in place. */
module TokenStream {
  import opened Wrappers
  import opened Types
  import opened Tokens
  import opened Errors

  /** `r` is what is left of `toks` after a prefix has been consumed. */
  ghost predicate IsSuffix(r: seq<Token>, toks: seq<Token>) {
    |r| <= |toks| && r == toks[|toks| - |r|..]
  }

  lemma SuffixTrans(a: seq<Token>, b: seq<Token>, c: seq<Token>)
    requires IsSuffix(a, b) && IsSuffix(b, c)
    ensures IsSuffix(a, c)
  {
    assert c[|c| - |b|..][|b| - |a|..] == c[|c| - |a|..];
  }

  /** The input with its leading comments removed: readers never see comments. */
  function DropComments(toks: seq<Token>): (r: seq<Token>)
    ensures IsSuffix(r, toks)
    ensures r == [] || !r[0].Comment?
    ensures toks != [] && !toks[0].Comment? ==> r == toks
  {
    if toks != [] && toks[0].Comment? then DropComments(toks[1..]) else toks
  }

  /** `peek()`: the kind of the next readable token; consumes nothing. */
  function PeekKind(toks: seq<Token>): Res<TokenType> {
    var d := DropComments(toks);
    if d == [] then Err(EndOfInput) else Ok(KindOf(d[0]))
  }

  /** Takes the next readable token. */
  function Poll(toks: seq<Token>): (r: Res<(Token, seq<Token>)>)
    ensures r.Ok? ==> IsSuffix(r.value.1, toks) && |r.value.1| < |toks| && !r.value.0.Comment?
    ensures r.Ok? <==> PeekKind(toks).Ok?
    ensures r.Ok? ==> PeekKind(toks) == Ok(KindOf(r.value.0))
    ensures r.Err? ==> r.error == EndOfInput
  {
    var d := DropComments(toks);
    if d == [] then Err(EndOfInput)
    else
      SuffixTrans(d[1..], d, toks);
      Ok((d[0], d[1..]))
  }

  /** `enterObject()`, `exitObject()`, `enterList()`, `exitList()`: consume
      one token, failing unless it is the expected one. */
  function ExpectToken(toks: seq<Token>, want: Token): (r: Res<seq<Token>>)
    ensures r.Ok? ==> IsSuffix(r.value, toks) && |r.value| < |toks|
    ensures r.Ok? <==> Poll(toks).Ok? && Poll(toks).value.0 == want
    ensures r.Ok? ==> r.value == Poll(toks).value.1
  {
    var p :- Poll(toks);
    if p.0 == want then Ok(p.1) else Err(Unexpected(p.0))
  }

  /** `key()`. */
  function ReadKey(toks: seq<Token>): (r: Res<(string, seq<Token>)>)
    ensures r.Ok? ==> IsSuffix(r.value.1, toks) && |r.value.1| < |toks|
    ensures r.Ok? <==> Poll(toks).Ok? && Poll(toks).value.0.Key?
    ensures r.Ok? ==> Poll(toks).value == (Key(r.value.0), r.value.1)
  {
    var p :- Poll(toks);
    if p.0.Key? then Ok((p.0.name, p.1)) else Err(Unexpected(p.0))
  }

  /** Consumes the next scalar. */
  function ReadScalar(toks: seq<Token>): (r: Res<(ScalarVal, seq<Token>)>)
    ensures r.Ok? ==> IsSuffix(r.value.1, toks) && |r.value.1| < |toks|
    ensures r.Ok? <==> Poll(toks).Ok? && Poll(toks).value.0.Scalar?
    ensures r.Ok? ==> Poll(toks).value == (Scalar(r.value.0), r.value.1)
  {
    var p :- Poll(toks);
    if p.0.Scalar? then Ok((p.0.v, p.1)) else Err(Unexpected(p.0))
  }

  /** The tokens `done`, already emitted, in front of the outcome of the rest
      of a write; a failure anywhere is the failure of the whole write. */
  function Prepend(done: seq<Token>, r: Res<seq<Token>>): (q: Res<seq<Token>>)
    ensures q.Ok? <==> r.Ok?
    ensures q.Ok? ==> q.value == done + r.value
    ensures q.Err? ==> q == Err(r.error)
  {
    match r
    case Ok(ts) => Ok(done + ts)
    case Err(e) => Err(e)
  }

  lemma PrependTwice(a: seq<Token>, b: seq<Token>, r: Res<seq<Token>>)
    ensures Prepend(a, Prepend(b, r)) == Prepend(a + b, r)
  {
    if r.Ok? {
      assert a + (b + r.value) == a + b + r.value;
    }
  }

  /** The typed scalar consumers. This backend accepts an int as a long or a
      double, and a long within the int range as an int. A long read as a
      double keeps its exact value here; Java's `doubleValue()` rounds one
      beyond 2^53 to the nearest double. */
  function AsString(v: ScalarVal): Res<string> {
    if v.SStr? then Ok(v.s) else Err(Unexpected(Scalar(v)))
  }

  function AsInt(v: ScalarVal): (r: Res<Int32>)
    ensures r.Ok? <==> v.SInt? || (v.SLong? && MinInt <= v.l <= MaxInt)
    ensures r.Ok? ==> r.value == (if v.SInt? then v.i else v.l)
  {
    match v
    case SInt(i) => Ok(i)
    case SLong(l) => if MinInt <= l <= MaxInt then Ok(l) else Err(Unexpected(Scalar(v)))
    case _ => Err(Unexpected(Scalar(v)))
  }

  function AsLong(v: ScalarVal): (r: Res<Int64>)
    ensures r.Ok? <==> v.SInt? || v.SLong?
    ensures r.Ok? ==> r.value == (if v.SInt? then v.i else v.l)
  {
    match v
    case SInt(i) => Ok(i)
    case SLong(l) => Ok(l)
    case _ => Err(Unexpected(Scalar(v)))
  }

  function AsFloat(v: ScalarVal): Res<Num> {
    if v.SFloat? then Ok(v.f) else Err(Unexpected(Scalar(v)))
  }

  function AsDouble(v: ScalarVal): (r: Res<Num>)
    ensures r.Ok? <==> v.SDouble? || v.SInt? || v.SLong?
    ensures r.Ok? && v.SDouble? ==> r.value == v.d
    ensures r.Ok? && !v.SDouble? ==> r.value == Whole(if v.SInt? then v.i else v.l)
  {
    match v
    case SDouble(d) => Ok(d)
    case SInt(i) => Ok(Whole(i))
    case SLong(l) => Ok(Whole(l))
    case _ => Err(Unexpected(Scalar(v)))
  }

  function AsBoolean(v: ScalarVal): Res<bool> {
    if v.SBool? then Ok(v.b) else Err(Unexpected(Scalar(v)))
  }

  /** How a token moves the nesting depth. */
  function Delta(t: Token): int {
    if t == EnterObject || t == EnterList then 1
    else if t == ExitObject || t == ExitList then -1
    else 0
  }

  /** The loop of `skipDeep()`: poll tokens, tracking the depth, until the
      depth is back at or below zero. */
  function SkipLoop(toks: seq<Token>, depth: int): (r: Res<seq<Token>>)
    ensures r.Ok? ==> |r.value| < |toks|
    decreases |toks|
  {
    var p :- Poll(toks);
    var d := depth + Delta(p.0);
    if d > 0 then SkipLoop(p.1, d) else Ok(p.1)
  }

  /** `skipDeep()`: discard one whole value. */
  function SkipValue(toks: seq<Token>): (r: Res<seq<Token>>)
    ensures r.Ok? ==> |r.value| < |toks|
  {
    SkipLoop(toks, 0)
  }

  /** The token shape of one complete value, for stating what `skipDeep` skips. */
  datatype Shape = Leaf(v: ScalarVal) | ListShape(items: seq<Shape>) | ObjectShape(members: seq<(string, Shape)>)

  function ShapeTokens(s: Shape): seq<Token>
    decreases s, 1
  {
    match s
    case Leaf(v) => [Scalar(v)]
    case ListShape(_) => [EnterList] + ItemsTokens(s, 0) + [ExitList]
    case ObjectShape(_) => [EnterObject] + MembersTokens(s, 0) + [ExitObject]
  }

  function ItemsTokens(s: Shape, i: nat): seq<Token>
    requires s.ListShape? && i <= |s.items|
    decreases s, 0, |s.items| - i
  {
    if i == |s.items| then [] else ShapeTokens(s.items[i]) + ItemsTokens(s, i + 1)
  }

  function MembersTokens(s: Shape, i: nat): seq<Token>
    requires s.ObjectShape? && i <= |s.members|
    decreases s, 0, |s.members| - i
  {
    if i == |s.members| then []
    else [Key(s.members[i].0)] + ShapeTokens(s.members[i].1) + MembersTokens(s, i + 1)
  }

  lemma PollCons(t: Token, rest: seq<Token>)
    requires !t.Comment?
    ensures Poll([t] + rest) == Ok((t, rest))
  {
    assert DropComments([t] + rest) == [t] + rest;
    assert ([t] + rest)[1..] == rest;
  }

  /** One step of the skip loop on a readable token. */
  lemma SkipStep(t: Token, rest: seq<Token>, depth: int)
    requires !t.Comment?
    ensures SkipLoop([t] + rest, depth)
         == if depth + Delta(t) > 0 then SkipLoop(rest, depth + Delta(t)) else Ok(rest)
  {
    PollCons(t, rest);
  }

  /** What the skip loop does after one complete value at depth `depth`:
      stop right after it at depth zero, carry on at the same depth otherwise. */
  ghost function AfterValue(rest: seq<Token>, depth: int): Res<seq<Token>> {
    if depth > 0 then SkipLoop(rest, depth) else Ok(rest)
  }

  /** Skipping over a bracketed group: the opening token raises the depth,
      the contents (`body` up to the closing token) leave it raised, and the
      closing token brings it back. */
  lemma SkipGroup(open: Token, body: seq<Token>, close: Token, rest: seq<Token>, depth: int)
    requires !open.Comment? && !close.Comment? && Delta(open) == 1 && Delta(close) == -1
    requires depth >= 0
    requires SkipLoop(body, depth + 1) == SkipLoop([close] + rest, depth + 1)
    ensures SkipLoop([open] + body, depth) == AfterValue(rest, depth)
  {
    SkipStep(open, body, depth);
    SkipStep(close, rest, depth + 1);
  }

  lemma {:induction false} SkipShape(s: Shape, rest: seq<Token>, depth: int)
    requires depth >= 0
    ensures SkipLoop(ShapeTokens(s) + rest, depth) == AfterValue(rest, depth)
    decreases s, 2
  {
    if s.Leaf? {
      SkipLeaf(s, rest, depth);
    } else if s.ListShape? {
      SkipList(s, rest, depth);
    } else {
      SkipObject(s, rest, depth);
    }
  }

  lemma SkipLeaf(s: Shape, rest: seq<Token>, depth: int)
    requires s.Leaf? && depth >= 0
    ensures SkipLoop(ShapeTokens(s) + rest, depth) == AfterValue(rest, depth)
  {
    assert ShapeTokens(s) + rest == [Scalar(s.v)] + rest;
    SkipStep(Scalar(s.v), rest, depth);
  }

  lemma {:induction false} SkipList(s: Shape, rest: seq<Token>, depth: int)
    requires s.ListShape? && depth >= 0
    ensures SkipLoop(ShapeTokens(s) + rest, depth) == AfterValue(rest, depth)
    decreases s, 1
  {
    var body := ItemsTokens(s, 0) + ([ExitList] + rest);
    assert ShapeTokens(s) + rest == [EnterList] + body;
    SkipThroughItems(s, 0, [ExitList] + rest, depth + 1);
    SkipGroup(EnterList, body, ExitList, rest, depth);
  }

  lemma {:induction false} SkipObject(s: Shape, rest: seq<Token>, depth: int)
    requires s.ObjectShape? && depth >= 0
    ensures SkipLoop(ShapeTokens(s) + rest, depth) == AfterValue(rest, depth)
    decreases s, 1
  {
    var body := MembersTokens(s, 0) + ([ExitObject] + rest);
    assert ShapeTokens(s) + rest == [EnterObject] + body;
    SkipThroughMembers(s, 0, [ExitObject] + rest, depth + 1);
    SkipGroup(EnterObject, body, ExitObject, rest, depth);
  }

  lemma {:induction false} SkipThroughItems(s: Shape, i: nat, rest: seq<Token>, depth: int)
    requires s.ListShape? && i <= |s.items| && depth > 0
    ensures SkipLoop(ItemsTokens(s, i) + rest, depth) == SkipLoop(rest, depth)
    decreases s, 0, |s.items| - i
  {
    if i < |s.items| {
      assert ItemsTokens(s, i) + rest == ShapeTokens(s.items[i]) + (ItemsTokens(s, i + 1) + rest);
      SkipShape(s.items[i], ItemsTokens(s, i + 1) + rest, depth);
      SkipThroughItems(s, i + 1, rest, depth);
    } else {
      assert ItemsTokens(s, i) + rest == rest;
    }
  }

  lemma {:induction false} SkipThroughMembers(s: Shape, i: nat, rest: seq<Token>, depth: int)
    requires s.ObjectShape? && i <= |s.members| && depth > 0
    ensures SkipLoop(MembersTokens(s, i) + rest, depth) == SkipLoop(rest, depth)
    decreases s, 0, |s.members| - i
  {
    if i < |s.members| {
      var k := s.members[i].0;
      var tail := MembersTokens(s, i + 1) + rest;
      assert MembersTokens(s, i) + rest == [Key(k)] + (ShapeTokens(s.members[i].1) + tail);
      SkipStep(Key(k), ShapeTokens(s.members[i].1) + tail, depth);
      SkipShape(s.members[i].1, tail, depth);
      SkipThroughMembers(s, i + 1, rest, depth);
    } else {
      assert MembersTokens(s, i) + rest == rest;
    }
  }

  /** `skipDeep()` discards exactly one complete value, scalar or nested,
      and leaves everything after it. */
  lemma SkipDeepSkipsOneValue(s: Shape, rest: seq<Token>)
    ensures SkipValue(ShapeTokens(s) + rest) == Ok(rest)
  {
    SkipShape(s, rest, 0);
  }

  /** A method's outcome agrees with a read spec: on success the same value,
      with the cursor at the spec's remaining input; on failure the same error. */
  ghost predicate ReadOutcome<T>(spec: Res<(T, seq<Token>)>, r: Res<T>, rest: seq<Token>) {
    match spec
    case Ok(p) => r == Ok(p.0) && rest == p.1
    case Err(e) => r == Err(e)
  }

  /** The `ObjectWriter` sink: every operation (`key`, `enterObject`,
      `exitObject`, `enterList`, `exitList`, `comment`, `item`) appends its token. */
  class TokenWriter {
    var tokens: seq<Token>

    constructor ()
      ensures tokens == []
    {
      tokens := [];
    }

    method Emit(t: Token)
      modifies this
      ensures tokens == old(tokens) + [t]
    {
      tokens := tokens + [t];
    }
  }

  /** The `ObjectReader` source: a fixed token sequence and a cursor. On a
      failure the cursor stays where it was. */
  class TokenReader {
    const tokens: seq<Token>
    var pos: nat

    ghost predicate Valid()
      reads this
    {
      pos <= |tokens|
    }

    /** The input not yet consumed. */
    ghost function Rest(): seq<Token>
      reads this
      requires Valid()
    {
      tokens[pos..]
    }

    constructor (toks: seq<Token>)
      ensures Valid() && tokens == toks && pos == 0
    {
      tokens := toks;
      pos := 0;
    }

    /** Moves the cursor to the start of `rest`, a suffix of the unread input. */
    method Advance(ghost before: seq<Token>, rest: seq<Token>)
      requires Valid() && before == Rest() && IsSuffix(rest, before)
      modifies this
      ensures Valid() && Rest() == rest
    {
      assert tokens[pos..][|tokens[pos..]| - |rest|..] == tokens[|tokens| - |rest|..];
      pos := |tokens| - |rest|;
    }

    method Peek() returns (r: Res<TokenType>)
      requires Valid()
      ensures r == PeekKind(Rest())
    {
      r := PeekKind(tokens[pos..]);
    }

    /** `enterObject()` and its three siblings. */
    method Expect(want: Token) returns (r: Res<()>)
      requires Valid()
      modifies this
      ensures Valid()
      ensures match ExpectToken(old(Rest()), want)
              case Ok(rest) => r == Ok(()) && Rest() == rest
              case Err(e) => r == Err(e) && pos == old(pos)
    {
      var e := ExpectToken(tokens[pos..], want);
      match e {
        case Ok(rest) =>
          Advance(tokens[pos..], rest);
          r := Ok(());
        case Err(err) =>
          r := Err(err);
      }
    }

    method Key() returns (r: Res<string>)
      requires Valid()
      modifies this
      ensures Valid()
      ensures match ReadKey(old(Rest()))
              case Ok(p) => r == Ok(p.0) && Rest() == p.1
              case Err(e) => r == Err(e) && pos == old(pos)
    {
      var k := ReadKey(tokens[pos..]);
      match k {
        case Ok(p) =>
          Advance(tokens[pos..], p.1);
          r := Ok(p.0);
        case Err(err) =>
          r := Err(err);
      }
    }

    /** Consumes the next scalar; the typed consumers (`stringValue()`,
        `intValue()`, ...) convert it with `AsString`, `AsInt`, .... */
    method Scalar() returns (r: Res<ScalarVal>)
      requires Valid()
      modifies this
      ensures Valid()
      ensures match ReadScalar(old(Rest()))
              case Ok(p) => r == Ok(p.0) && Rest() == p.1
              case Err(e) => r == Err(e) && pos == old(pos)
    {
      var s := ReadScalar(tokens[pos..]);
      match s {
        case Ok(p) =>
          Advance(tokens[pos..], p.1);
          r := Ok(p.0);
        case Err(err) =>
          r := Err(err);
      }
    }

    /** `skipDeep()`: poll tokens, counting the depth, until it is back at zero. */
    method SkipDeep() returns (r: Res<()>)
      requires Valid()
      modifies this
      ensures Valid()
      ensures match SkipValue(old(Rest()))
              case Ok(rest) => r == Ok(()) && Rest() == rest
              case Err(e) => r == Err(e)
    {
      var depth := 0;
      while true
        invariant Valid()
        invariant SkipValue(old(Rest())) == SkipLoop(Rest(), depth)
        decreases |tokens| - pos
      {
        ghost var before := Rest();
        var p := Poll(tokens[pos..]);
        if p.Err? {
          assert SkipLoop(before, depth) == Err(p.error);
          return Err(p.error);
        }
        Advance(tokens[pos..], p.value.1);
        var d := depth + Delta(p.value.0);
        assert SkipLoop(before, depth) == if d > 0 then SkipLoop(p.value.1, d) else Ok(p.value.1);
        depth := d;
        if depth <= 0 {
          return Ok(());
        }
      }
    }
  }
}
