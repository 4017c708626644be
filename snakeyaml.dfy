/** The SnakeYAML backend: the `ObjectReader` that `SnakeYamlConfigurationFormat`
    builds over a parser's event stream and the `ObjectWriter` it builds over
    an emitter. Events are values; the parser is the list of events it would
    produce and the emitter the list of events it has received. */
module SnakeYamlConfigurationFormat {
  import opened Wrappers
  import opened Types
  import opened Tokens
  import opened Text

  /** The parser events the backend distinguishes. `AliasEvent` stands for
      every other node event (`SnakeYAML`'s `AliasEvent`). */
  datatype Event =
    | StreamStart | StreamEnd | DocumentStart | DocumentEnd
    | MappingStart | MappingEnd | SequenceStart | SequenceEnd
    | ScalarEvent(value: string)
    | AliasEvent(anchor: string)

  /** The stream and document boundaries, which `poll` discards. */
  predicate IsFraming(e: Event) {
    e.StreamStart? || e.StreamEnd? || e.DocumentStart? || e.DocumentEnd?
  }

  /** `CollectionStartEvent` and `CollectionEndEvent`. */
  predicate IsCollectionStart(e: Event) { e.MappingStart? || e.SequenceStart? }
  predicate IsCollectionEnd(e: Event) { e.MappingEnd? || e.SequenceEnd? }

  /** How an event moves the nesting depth in `skipDeep` and in the writer. */
  function EventDelta(e: Event): int {
    if IsCollectionStart(e) then 1 else if IsCollectionEnd(e) then -1 else 0
  }

  /** The exceptions of this backend. A `null` event (the parser is
      exhausted) is `None`. */
  datatype YamlError =
    | UnexpectedEvent(found: Option<Event>)   // `enter*`/`exit*` polled another event
    | UnsupportedEvent(found: Option<Event>)  // `peek` met an event it cannot classify
    | NotScalar(found: Option<Event>)         // `stringValue`'s cast (or a null) failed
    | NumberFormat(text: string)              // `Integer.parseInt`/`Long.parseLong` rejected the text
    | EndOfEvents                             // the events ran out inside a collection during `skipDeep`

  type YRes<T> = Result<T, YamlError>

  /** What an operation returns and the events it leaves unread. An
      operation that polls consumes the event even when it then fails. */
  datatype Step<T> = Step(res: YRes<T>, rest: seq<Event>)

  // ----- reader: the operations as functions of the unread events -----

  /** `poll()`: the first event that is not a stream or document boundary,
      and what follows it; `None` once the events are exhausted. */
  function NextEvent(evs: seq<Event>): (r: (Option<Event>, seq<Event>))
    ensures |r.1| <= |evs|
    ensures r.0.Some? ==> !IsFraming(r.0.value) && |r.1| < |evs|
    ensures r.0.None? ==> r.1 == [] && forall i :: 0 <= i < |evs| ==> IsFraming(evs[i])
    decreases |evs|
  {
    if evs == [] then (None, [])
    else if IsFraming(evs[0]) then
      var r := NextEvent(evs[1..]);
      assert r.0.None? ==> forall i :: 1 <= i < |evs| ==> IsFraming(evs[i]);
      r
    else (Some(evs[0]), evs[1..])
  }

  /** `poll` skips every leading boundary event and only those: the first
      other event is returned and everything after it is left. */
  lemma {:induction false} NextEventAfterFraming(pre: seq<Event>, e: Event, rest: seq<Event>)
    requires forall i :: 0 <= i < |pre| ==> IsFraming(pre[i])
    requires !IsFraming(e)
    ensures NextEvent(pre + [e] + rest) == (Some(e), rest)
    decreases |pre|
  {
    if pre == [] {
      assert pre + [e] + rest == [e] + rest;
      assert ([e] + rest)[1..] == rest;
    } else {
      assert (pre + [e] + rest)[1..] == pre[1..] + [e] + rest;
      NextEventAfterFraming(pre[1..], e, rest);
    }
  }

  /** `peek()` on a scalar, in the source's order: a long, else a double,
      else exactly "true" or "false", else a string. `parsesAsDouble` is
      whether `Double.parseDouble` accepts the text. */
  function ScalarType(v: string, parsesAsDouble: string -> bool): (k: TokenType)
    ensures k == LONG <==> ParseInt(v, MinLong, MaxLong).Some?
    ensures k == DOUBLE <==> ParseInt(v, MinLong, MaxLong).None? && parsesAsDouble(v)
    ensures k == BOOLEAN <==> ParseInt(v, MinLong, MaxLong).None? && !parsesAsDouble(v) && (v == "true" || v == "false")
    ensures k == STRING || k == LONG || k == DOUBLE || k == BOOLEAN
  {
    if ParseInt(v, MinLong, MaxLong).Some? then LONG
    else if parsesAsDouble(v) then DOUBLE
    else if v == "true" || v == "false" then BOOLEAN
    else STRING
  }

  /** `peek()`: the kind of the very next parser event, which is not
      consumed and not skipped over even when it is a boundary event. */
  function Classify(evs: seq<Event>, parsesAsDouble: string -> bool): (r: YRes<TokenType>)
    ensures r.Ok? ==> r.value != KEY && r.value != INT && r.value != FLOAT
    ensures r.Err? ==> r.error.UnsupportedEvent?
  {
    if evs == [] then Err(UnsupportedEvent(None))
    else match evs[0]
      case SequenceStart => Ok(ENTER_LIST)
      case SequenceEnd => Ok(EXIT_LIST)
      case MappingStart => Ok(ENTER_OBJECT)
      case MappingEnd => Ok(EXIT_OBJECT)
      case ScalarEvent(v) => Ok(ScalarType(v, parsesAsDouble))
      case _ => Err(UnsupportedEvent(Some(evs[0])))
  }

  /** The four structural events are told apart; the peeked kind of a
      collection event is exactly the event. */
  lemma ClassifyStructure(e: Event, rest: seq<Event>, parsesAsDouble: string -> bool)
    ensures Classify([e] + rest, parsesAsDouble) == Ok(ENTER_LIST) <==> e == SequenceStart
    ensures Classify([e] + rest, parsesAsDouble) == Ok(EXIT_LIST) <==> e == SequenceEnd
    ensures Classify([e] + rest, parsesAsDouble) == Ok(ENTER_OBJECT) <==> e == MappingStart
    ensures Classify([e] + rest, parsesAsDouble) == Ok(EXIT_OBJECT) <==> e == MappingEnd
    ensures Classify([e] + rest, parsesAsDouble).Err? <==> !e.ScalarEvent? && !IsCollectionStart(e) && !IsCollectionEnd(e)
  {
    assert ([e] + rest)[0] == e;
  }

  /** `peek()` does not skip boundary events the way `poll()` does: right
      after a document start it throws rather than classify what follows. */
  lemma ClassifyDoesNotSkipFraming(e: Event, rest: seq<Event>, parsesAsDouble: string -> bool)
    requires IsFraming(e)
    ensures Classify([e] + rest, parsesAsDouble) == Err(UnsupportedEvent(Some(e)))
    ensures NextEvent([e] + rest) == NextEvent(rest)
  {
    assert ([e] + rest)[0] == e && ([e] + rest)[1..] == rest;
  }

  /** The text of every long peeks as `LONG`, so an int or a long (and a
      key that looks like one) is seen as a number. */
  lemma LongPeeksAsLong(l: int, parsesAsDouble: string -> bool)
    requires MinLong <= l <= MaxLong
    ensures ScalarType(ShowInt(l), parsesAsDouble) == LONG
  {
    ParseShowInt(l, MinLong, MaxLong);
  }

  /** "true" and "false" peek as `BOOLEAN` when `Double.parseDouble`
      rejects them, as it does. */
  lemma BoolPeeksAsBoolean(b: bool, parsesAsDouble: string -> bool)
    requires !parsesAsDouble(ShowBool(b))
    ensures ScalarType(ShowBool(b), parsesAsDouble) == BOOLEAN
  {
    var s := ShowBool(b);
    assert s[0] == if b then 't' else 'f';
    assert !IsDigit(s[0]) && s[0] != '-' && s[0] != '+';
  }

  /** `enterObject()`, `exitObject()`, `enterList()`, `exitList()`: poll one
      event and throw unless it is the expected one. */
  function ExpectEvent(evs: seq<Event>, want: Event): (s: Step<()>)
    ensures s.rest == NextEvent(evs).1
    ensures s.res.Ok? <==> NextEvent(evs).0 == Some(want)
    ensures s.res.Err? ==> s.res.error == UnexpectedEvent(NextEvent(evs).0)
  {
    var (e, rest) := NextEvent(evs);
    if e == Some(want) then Step(Ok(()), rest) else Step(Err(UnexpectedEvent(e)), rest)
  }

  /** `stringValue()`, and `key()`, which is the same call: poll one event
      and return its text; a non-scalar fails the cast. */
  function ReadString(evs: seq<Event>): (s: Step<string>)
    ensures s.rest == NextEvent(evs).1
    ensures s.res.Ok? <==> NextEvent(evs).0.Some? && NextEvent(evs).0.value.ScalarEvent?
    ensures s.res.Ok? ==> NextEvent(evs).0 == Some(ScalarEvent(s.res.value))
  {
    var (e, rest) := NextEvent(evs);
    if e.Some? && e.value.ScalarEvent? then Step(Ok(e.value.value), rest)
    else Step(Err(NotScalar(e)), rest)
  }

  /** `intValue()` / `longValue()`: `stringValue()`, then `Integer.parseInt`
      / `Long.parseLong` over the range `lo..hi`. */
  function ReadInteger(evs: seq<Event>, lo: int, hi: int): (s: Step<int>)
    ensures s.rest == ReadString(evs).rest
    ensures s.res.Ok? ==> lo <= s.res.value <= hi
    ensures s.res.Ok? ==> ReadString(evs).res.Ok? && ParseInt(ReadString(evs).res.value, lo, hi) == Some(s.res.value)
  {
    var t := ReadString(evs);
    match t.res
    case Err(x) => Step(Err(x), t.rest)
    case Ok(text) =>
      match ParseInt(text, lo, hi)
      case Some(i) => Step(Ok(i), t.rest)
      case None => Step(Err(NumberFormat(text)), t.rest)
  }

  /** `booleanValue()`: `Boolean.parseBoolean(stringValue())`, which never
      fails on a scalar. */
  function ReadBoolean(evs: seq<Event>): (s: Step<bool>)
    ensures s.rest == ReadString(evs).rest
    ensures s.res.Ok? <==> ReadString(evs).res.Ok?
    ensures s.res.Ok? ==> s.res.value == ParseBoolean(ReadString(evs).res.value)
  {
    var t := ReadString(evs);
    match t.res
    case Err(x) => Step(Err(x), t.rest)
    case Ok(text) => Step(Ok(ParseBoolean(text)), t.rest)
  }

  /** The loop of `skipDeep()`: poll, count collection starts up and ends
      down, and stop once the depth is at or below zero. A `null` event
      leaves the depth unchanged; inside a collection the source would then
      poll forever, which is reported here as `EndOfEvents`. */
  function SkipFrom(evs: seq<Event>, depth: int): (s: Step<()>)
    ensures |s.rest| <= |evs|
    decreases |evs|
  {
    var (e, rest) := NextEvent(evs);
    var d := if e.Some? then depth + EventDelta(e.value) else depth;
    if d <= 0 then Step(Ok(()), rest)
    else if e.None? then Step(Err(EndOfEvents), rest)
    else SkipFrom(rest, d)
  }

  /** A YAML node as the event stream presents it. */
  datatype Node =
    | ScalarNode(value: string)
    | SequenceNode(items: seq<Node>)
    | MappingNode(entries: seq<(string, Node)>)

  function NodeEvents(n: Node): seq<Event>
    decreases n, 1
  {
    match n
    case ScalarNode(v) => [ScalarEvent(v)]
    case SequenceNode(_) => [SequenceStart] + ItemEvents(n, 0) + [SequenceEnd]
    case MappingNode(_) => [MappingStart] + EntryEvents(n, 0) + [MappingEnd]
  }

  function ItemEvents(n: Node, i: nat): seq<Event>
    requires n.SequenceNode? && i <= |n.items|
    decreases n, 0, |n.items| - i
  {
    if i == |n.items| then [] else NodeEvents(n.items[i]) + ItemEvents(n, i + 1)
  }

  function EntryEvents(n: Node, i: nat): seq<Event>
    requires n.MappingNode? && i <= |n.entries|
    decreases n, 0, |n.entries| - i
  {
    if i == |n.entries| then []
    else [ScalarEvent(n.entries[i].0)] + NodeEvents(n.entries[i].1) + EntryEvents(n, i + 1)
  }

  /** What the skip loop does after one whole node at depth `depth`. */
  function AfterNode(rest: seq<Event>, depth: int): Step<()> {
    if depth > 0 then SkipFrom(rest, depth) else Step(Ok(()), rest)
  }

  lemma SkipOne(e: Event, rest: seq<Event>, depth: int)
    requires !IsFraming(e)
    ensures SkipFrom([e] + rest, depth)
         == if depth + EventDelta(e) > 0 then SkipFrom(rest, depth + EventDelta(e)) else Step(Ok(()), rest)
  {
    NextEventAfterFraming([], e, rest);
    assert [] + [e] + rest == [e] + rest;
  }

  lemma {:induction false} SkipNode(n: Node, rest: seq<Event>, depth: int)
    requires depth >= 0
    ensures SkipFrom(NodeEvents(n) + rest, depth) == AfterNode(rest, depth)
    decreases n, 2
  {
    match n
    case ScalarNode(v) =>
      assert NodeEvents(n) + rest == [ScalarEvent(v)] + rest;
      SkipOne(ScalarEvent(v), rest, depth);
    case SequenceNode(_) =>
      SkipItems(n, 0, [SequenceEnd] + rest, depth + 1);
      SkipWrapped(SequenceStart, ItemEvents(n, 0), SequenceEnd, rest, depth);
    case MappingNode(_) =>
      SkipEntries(n, 0, [MappingEnd] + rest, depth + 1);
      SkipWrapped(MappingStart, EntryEvents(n, 0), MappingEnd, rest, depth);
  }

  /** A start event, a body the loop passes over at the inner depth, and
      the matching end event bring the loop back to where it started. */
  lemma SkipWrapped(open: Event, body: seq<Event>, close: Event, rest: seq<Event>, depth: int)
    requires open.SequenceStart? || open.MappingStart?
    requires close.SequenceEnd? || close.MappingEnd?
    requires depth >= 0
    requires SkipFrom(body + ([close] + rest), depth + 1) == SkipFrom([close] + rest, depth + 1)
    ensures SkipFrom([open] + body + [close] + rest, depth) == AfterNode(rest, depth)
  {
    assert [open] + body + [close] + rest == [open] + (body + ([close] + rest));
    SkipOne(open, body + ([close] + rest), depth);
    SkipOne(close, rest, depth + 1);
  }

  lemma {:induction false} SkipItems(n: Node, i: nat, rest: seq<Event>, depth: int)
    requires n.SequenceNode? && i <= |n.items| && depth > 0
    ensures SkipFrom(ItemEvents(n, i) + rest, depth) == SkipFrom(rest, depth)
    decreases n, 0, |n.items| - i
  {
    if i < |n.items| {
      assert ItemEvents(n, i) + rest == NodeEvents(n.items[i]) + (ItemEvents(n, i + 1) + rest);
      SkipNode(n.items[i], ItemEvents(n, i + 1) + rest, depth);
      SkipItems(n, i + 1, rest, depth);
    } else {
      assert ItemEvents(n, i) + rest == rest;
    }
  }

  lemma {:induction false} SkipEntries(n: Node, i: nat, rest: seq<Event>, depth: int)
    requires n.MappingNode? && i <= |n.entries| && depth > 0
    ensures SkipFrom(EntryEvents(n, i) + rest, depth) == SkipFrom(rest, depth)
    decreases n, 0, |n.entries| - i
  {
    if i < |n.entries| {
      var k := n.entries[i].0;
      var tail := EntryEvents(n, i + 1) + rest;
      assert EntryEvents(n, i) + rest == [ScalarEvent(k)] + (NodeEvents(n.entries[i].1) + tail);
      SkipOne(ScalarEvent(k), NodeEvents(n.entries[i].1) + tail, depth);
      SkipNode(n.entries[i].1, tail, depth);
      SkipEntries(n, i + 1, rest, depth);
    } else {
      assert EntryEvents(n, i) + rest == rest;
    }
  }

  /** `skipDeep()` consumes exactly one node: one event for a scalar, and a
      collection start through its matching end. */
  lemma SkipDeepSkipsOneNode(n: Node, rest: seq<Event>)
    ensures SkipFrom(NodeEvents(n) + rest, 0) == Step(Ok(()), rest)
  {
    SkipNode(n, rest, 0);
  }

  // ----- reader: the object over the parser -----

  /** The anonymous `ObjectReader` of `createReader`: the parser's events
      and how many have been taken. */
  class YamlReader {
    const events: seq<Event>
    var pos: nat
    /** Whether `Double.parseDouble` accepts a text (floating point is not modelled). */
    const parsesAsDouble: string -> bool

    ghost predicate Valid()
      reads this
    {
      pos <= |events|
    }

    /** The events the parser has not handed out yet. */
    ghost function Rest(): seq<Event>
      reads this
      requires Valid()
    {
      events[pos..]
    }

    constructor (evs: seq<Event>, parsesAsDouble: string -> bool)
      ensures Valid() && events == evs && pos == 0 && this.parsesAsDouble == parsesAsDouble
    {
      events := evs;
      pos := 0;
      this.parsesAsDouble := parsesAsDouble;
    }

    /** `poll()`: `getEvent()` until an event is not a boundary event. */
    method Poll() returns (e: Option<Event>)
      requires Valid()
      modifies this
      ensures Valid() && (e, Rest()) == NextEvent(old(Rest()))
    {
      while true
        invariant Valid() && NextEvent(old(Rest())) == NextEvent(Rest())
        decreases |events| - pos
      {
        if pos == |events| {
          return None;
        }
        var evt := events[pos];
        assert events[pos..][0] == evt && events[pos..][1..] == events[pos + 1..];
        pos := pos + 1;
        if !IsFraming(evt) {
          return Some(evt);
        }
      }
    }

    /** `peek()`: looks at `peekEvent()` and changes nothing. */
    method Peek() returns (r: YRes<TokenType>)
      requires Valid()
      ensures r == Classify(Rest(), parsesAsDouble)
    {
      if pos == |events| {
        return Err(UnsupportedEvent(None));
      }
      var e := events[pos];
      match e {
        case SequenceStart => r := Ok(ENTER_LIST);
        case SequenceEnd => r := Ok(EXIT_LIST);
        case MappingStart => r := Ok(ENTER_OBJECT);
        case MappingEnd => r := Ok(EXIT_OBJECT);
        case ScalarEvent(v) =>
          var asLong := ParseInt(v, MinLong, MaxLong);
          if asLong.Some? {
            r := Ok(LONG);
          } else if parsesAsDouble(v) {
            r := Ok(DOUBLE);
          } else if v == "true" || v == "false" {
            r := Ok(BOOLEAN);
          } else {
            r := Ok(STRING);
          }
        case _ => r := Err(UnsupportedEvent(Some(e)));
      }
    }

    /** `skipDeep()`: poll, tracking the depth, while it stays above zero. */
    method SkipDeep() returns (r: YRes<()>)
      requires Valid()
      modifies this
      ensures Valid() && Step(r, Rest()) == SkipFrom(old(Rest()), 0)
    {
      var depth := 0;
      while true
        invariant Valid() && SkipFrom(old(Rest()), 0) == SkipFrom(Rest(), depth)
        decreases |events| - pos
      {
        ghost var before := Rest();
        var e := Poll();
        if e.Some? {
          depth := depth + EventDelta(e.value);
        }
        if depth <= 0 {
          return Ok(());
        }
        if e.None? {
          return Err(EndOfEvents);
        }
        assert |Rest()| < |before|;
      }
    }

    /** `enterObject()`, `exitObject()`, `enterList()`, `exitList()` with
        `want` the event each insists on. */
    method Expect(want: Event) returns (r: YRes<()>)
      requires Valid()
      modifies this
      ensures Valid() && Step(r, Rest()) == ExpectEvent(old(Rest()), want)
    {
      var e := Poll();
      if e != Some(want) {
        return Err(UnexpectedEvent(e));
      }
      r := Ok(());
    }

    /** `stringValue()`; `key()` is this same call. */
    method StringValue() returns (r: YRes<string>)
      requires Valid()
      modifies this
      ensures Valid() && Step(r, Rest()) == ReadString(old(Rest()))
    {
      var e := Poll();
      if e.Some? && e.value.ScalarEvent? {
        r := Ok(e.value.value);
      } else {
        r := Err(NotScalar(e));
      }
    }

    /** `intValue()` (`lo`, `hi` the int range) and `longValue()` (the long range). */
    method IntegerValue(lo: int, hi: int) returns (r: YRes<int>)
      requires Valid()
      modifies this
      ensures Valid() && Step(r, Rest()) == ReadInteger(old(Rest()), lo, hi)
    {
      var s := StringValue();
      if s.Err? {
        return Err(s.error);
      }
      var i := ParseInt(s.value, lo, hi);
      if i.None? {
        return Err(NumberFormat(s.value));
      }
      r := Ok(i.value);
    }

    /** `booleanValue()`. */
    method BooleanValue() returns (r: YRes<bool>)
      requires Valid()
      modifies this
      ensures Valid() && Step(r, Rest()) == ReadBoolean(old(Rest()))
    {
      var s := StringValue();
      if s.Err? {
        return Err(s.error);
      }
      r := Ok(ParseBoolean(s.value));
    }
  }

  // ----- writer -----

  /** The depth a sequence of emitted events reaches. */
  function Depth(evs: seq<Event>): int
    decreases |evs|
  {
    if evs == [] then 0 else Depth(evs[..|evs| - 1]) + EventDelta(evs[|evs| - 1])
  }

  lemma {:induction false} DepthAppend(a: seq<Event>, b: seq<Event>)
    ensures Depth(a + b) == Depth(a) + Depth(b)
    decreases |b|
  {
    if b == [] {
      assert a + b == a;
    } else {
      var b' := b[..|b| - 1];
      assert (a + b)[..|a + b| - 1] == a + b';
      DepthAppend(a, b');
    }
  }

  /** Every node's events are balanced: after writing a whole value the
      writer is back at the depth it started from. */
  lemma {:induction false} NodeBalanced(n: Node)
    ensures Depth(NodeEvents(n)) == 0
    decreases n, 1
  {
    match n
    case ScalarNode(v) =>
      assert NodeEvents(n) == [] + [ScalarEvent(v)];
    case SequenceNode(_) =>
      ItemsBalanced(n, 0);
      DepthWrapped(SequenceStart, ItemEvents(n, 0), SequenceEnd);
    case MappingNode(_) =>
      EntriesBalanced(n, 0);
      DepthWrapped(MappingStart, EntryEvents(n, 0), MappingEnd);
  }

  lemma DepthWrapped(open: Event, body: seq<Event>, close: Event)
    requires IsCollectionStart(open) && IsCollectionEnd(close)
    ensures Depth([open] + body + [close]) == Depth(body)
  {
    DepthAppend([open], body);
    DepthAppend([open] + body, [close]);
    assert [open] == [] + [open];
    assert [close] == [] + [close];
  }

  lemma {:induction false} ItemsBalanced(n: Node, i: nat)
    requires n.SequenceNode? && i <= |n.items|
    ensures Depth(ItemEvents(n, i)) == 0
    decreases n, 0, |n.items| - i
  {
    if i < |n.items| {
      NodeBalanced(n.items[i]);
      ItemsBalanced(n, i + 1);
      DepthAppend(NodeEvents(n.items[i]), ItemEvents(n, i + 1));
    }
  }

  lemma {:induction false} EntriesBalanced(n: Node, i: nat)
    requires n.MappingNode? && i <= |n.entries|
    ensures Depth(EntryEvents(n, i)) == 0
    decreases n, 0, |n.entries| - i
  {
    if i < |n.entries| {
      var k := ScalarEvent(n.entries[i].0);
      NodeBalanced(n.entries[i].1);
      EntriesBalanced(n, i + 1);
      assert [k] == [] + [k];
      DepthAppend([k], NodeEvents(n.entries[i].1));
      DepthAppend([k] + NodeEvents(n.entries[i].1), EntryEvents(n, i + 1));
    }
  }

  /** The anonymous `ObjectWriter` of `createWriter`: `start` and `depth`
      as in the source, and the events handed to the emitter so far. */
  class YamlWriter {
    var start: bool
    var depth: int
    var emitted: seq<Event>

    /** Before the first event nothing is emitted; after it the stream and
        document start come first, exactly once, and `depth` is the depth
        of everything emitted. */
    ghost predicate Valid()
      reads this
    {
      && (start <==> emitted == [])
      && depth == Depth(emitted)
      && (!start ==> |emitted| >= 2 && emitted[0] == StreamStart && emitted[1] == DocumentStart)
      && (forall i :: 2 <= i < |emitted| ==> !IsFraming(emitted[i]))
    }

    constructor ()
      ensures Valid() && start && depth == 0 && emitted == []
    {
      start := true;
      depth := 0;
      emitted := [];
    }

    /** `emitter.emit(event)` and the depth update that follows it. */
    method Send(e: Event)
      modifies this
      ensures start == old(start)
      ensures emitted == old(emitted) + [e] && depth == old(depth) + EventDelta(e)
    {
      emitted := emitted + [e];
      if IsCollectionStart(e) {
        depth := depth + 1;
      }
      if IsCollectionEnd(e) {
        depth := depth - 1;
      }
    }

    /** `emit(event)`: the first call sends the stream and document start
        before the event. */
    method Emit(e: Event)
      requires Valid() && !IsFraming(e)
      modifies this
      ensures Valid() && !start
      ensures emitted == old(emitted) + (if old(start) then [StreamStart, DocumentStart] else []) + [e]
      ensures depth == old(depth) + EventDelta(e)
    {
      ghost var before := emitted;
      if start {
        start := false;
        Send(StreamStart);
        Send(DocumentStart);
        assert emitted == [] + [StreamStart] + [DocumentStart];
        DepthAppend([StreamStart], [DocumentStart]);
        assert [StreamStart] == [] + [StreamStart];
      }
      ghost var mid := emitted;
      Send(e);
      DepthAppend(mid, [e]);
      assert [e] == [] + [e];
      assert emitted[|emitted| - 1] == e;
    }

    /** `item(String)`, and `key(k)`, which is `item(k)`. */
    method ItemString(s: string)
      requires Valid()
      modifies this
      ensures Valid() && !start && depth == old(depth)
      ensures emitted == old(emitted) + (if old(start) then [StreamStart, DocumentStart] else []) + [ScalarEvent(s)]
    {
      Emit(ScalarEvent(s));
    }

    /** `item(int)` / `item(long)`: the `String.valueOf` text. */
    method ItemInteger(i: int)
      requires MinLong <= i <= MaxLong && Valid()
      modifies this
      ensures Valid() && !start && depth == old(depth)
      ensures emitted == old(emitted) + (if old(start) then [StreamStart, DocumentStart] else []) + [ScalarEvent(ShowInt(i))]
    {
      ItemString(ShowInt(i));
    }

    /** `item(boolean)`: "true" or "false". */
    method ItemBoolean(b: bool)
      requires Valid()
      modifies this
      ensures Valid() && !start && depth == old(depth)
      ensures emitted == old(emitted) + (if old(start) then [StreamStart, DocumentStart] else []) + [ScalarEvent(ShowBool(b))]
    {
      ItemString(ShowBool(b));
    }

    /** `enterObject()`, `enterList()`, `exitObject()`, `exitList()`: the
        collection event, which moves the depth by one. */
    method Structure(e: Event)
      requires Valid() && (IsCollectionStart(e) || IsCollectionEnd(e))
      modifies this
      ensures Valid() && !start
      ensures depth == old(depth) + (if IsCollectionStart(e) then 1 else -1)
      ensures emitted == old(emitted) + (if old(start) then [StreamStart, DocumentStart] else []) + [e]
    {
      Emit(e);
    }

    /** The `ObjectWriter` call a token stands for, made on this writer:
        `comment` emits no event, every other call exactly its token's event. */
    method Write(t: Token, numText: Num -> string)
      requires Valid()
      modifies this
      ensures Valid()
      ensures TokenEvent(t, numText).None? ==> emitted == old(emitted) && start == old(start) && depth == old(depth)
      ensures TokenEvent(t, numText).Some? ==>
        && !start
        && emitted == old(emitted) + (if old(start) then [StreamStart, DocumentStart] else []) + [TokenEvent(t, numText).value]
        && depth == old(depth) + EventDelta(TokenEvent(t, numText).value)
    {
      var e := TokenEvent(t, numText);
      if e.Some? {
        Emit(e.value);
      }
    }
  }

  /** The text `item(...)` gives a scalar: `String.valueOf`, with the text
      of a float or double left to `numText`. */
  function ScalarText(v: ScalarVal, numText: Num -> string): string {
    match v
    case SStr(s) => s
    case SInt(i) => ShowInt(i)
    case SLong(l) => ShowInt(l)
    case SFloat(f) => numText(f)
    case SDouble(d) => numText(d)
    case SBool(b) => ShowBool(b)
  }

  /** The event an `ObjectWriter` call emits: keys become plain scalars,
      and comments go straight to the output as text, not as events. */
  function TokenEvent(t: Token, numText: Num -> string): (r: Option<Event>)
    ensures r.Some? ==> !IsFraming(r.value)
    ensures r.None? <==> t.Comment?
  {
    match t
    case EnterObject => Some(MappingStart)
    case ExitObject => Some(MappingEnd)
    case EnterList => Some(SequenceStart)
    case ExitList => Some(SequenceEnd)
    case Key(k) => Some(ScalarEvent(k))
    case Scalar(v) => Some(ScalarEvent(ScalarText(v, numText)))
    case Comment(_) => None
  }

  /** What `peek()` reports for a written token: the structural tokens as
      themselves, but never `KEY` or `INT`: a key is classified by its text,
      and an int, like a long, peeks as `LONG`. */
  lemma PeekOfWritten(t: Token, rest: seq<Event>, numText: Num -> string, parsesAsDouble: string -> bool)
    requires !t.Comment?
    ensures var k := Classify([TokenEvent(t, numText).value] + rest, parsesAsDouble);
      && (KindOf(t) == ENTER_OBJECT || KindOf(t) == EXIT_OBJECT || KindOf(t) == ENTER_LIST || KindOf(t) == EXIT_LIST ==> k == Ok(KindOf(t)))
      && (t.Key? ==> k == Ok(ScalarType(t.name, parsesAsDouble)))
      && (t.Scalar? && (t.v.SInt? || t.v.SLong?) ==> k == Ok(LONG))
      && (t.Scalar? && t.v.SBool? && !parsesAsDouble(ShowBool(t.v.b)) ==> k == Ok(BOOLEAN))
      && k != Ok(KEY) && k != Ok(INT)
  {
    var e := TokenEvent(t, numText).value;
    assert ([e] + rest)[0] == e;
    if t.Scalar? && t.v.SInt? {
      LongPeeksAsLong(t.v.i, parsesAsDouble);
    } else if t.Scalar? && t.v.SLong? {
      LongPeeksAsLong(t.v.l, parsesAsDouble);
    } else if t.Scalar? && t.v.SBool? && !parsesAsDouble(ShowBool(t.v.b)) {
      BoolPeeksAsBoolean(t.v.b, parsesAsDouble);
    }
  }

  // ----- writer and reader together -----

  /** What the writer emits for a scalar reads back: a key or string as the
      same text, an int or long as the same number, a boolean as itself,
      whatever boundary events precede it. */
  lemma ScalarRoundTrip(pre: seq<Event>, i: int, lo: int, hi: int, b: bool, s: string, rest: seq<Event>)
    requires forall j :: 0 <= j < |pre| ==> IsFraming(pre[j])
    requires lo <= i <= hi
    ensures ReadString(pre + [ScalarEvent(s)] + rest) == Step(Ok(s), rest)
    ensures ReadInteger(pre + [ScalarEvent(ShowInt(i))] + rest, lo, hi) == Step(Ok(i), rest)
    ensures ReadBoolean(pre + [ScalarEvent(ShowBool(b))] + rest) == Step(Ok(b), rest)
  {
    NextEventAfterFraming(pre, ScalarEvent(s), rest);
    NextEventAfterFraming(pre, ScalarEvent(ShowInt(i)), rest);
    NextEventAfterFraming(pre, ScalarEvent(ShowBool(b)), rest);
    ParseShowInt(i, lo, hi);
    ParseShowBool(b);
  }

  /** The structural events the writer emits are the ones the checked
      `enter*`/`exit*` expect, and any other event is refused. */
  lemma StructureRoundTrip(pre: seq<Event>, e: Event, want: Event, rest: seq<Event>)
    requires forall j :: 0 <= j < |pre| ==> IsFraming(pre[j])
    requires !IsFraming(e)
    ensures ExpectEvent(pre + [e] + rest, want)
         == if e == want then Step(Ok(()), rest) else Step(Err(UnexpectedEvent(Some(e))), rest)
  {
    NextEventAfterFraming(pre, e, rest);
  }
}
