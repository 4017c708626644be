/** The document handler and its two contexts. `writeObject`/`readObject`
    resolve a type through the shared registry (which may cache the answer)
    and run the adapter on a live token sink or source. The adapters'
    container loops call back into the context, so they are methods of the
    context here; each method is proved to do exactly what the `Encoding`
    function of the same operation computes. */
module DocumentHandlerBuilder {
  import opened Wrappers
  import opened Types
  import opened Tokens
  import opened Values
  import opened Errors
  import opened Adapters
  import opened Reflection
  import opened TokenStream
  import opened TypeAdapterRegistryImpl
  import Encoding
  import Primitive = PrimitiveTypeAdapterFactory
  import Enum = EnumTypeAdapterFactory
  import Coll = CollectionTypeAdapterFactory
  import Bean = BeanTypeAdapter
  import Gson = GsonWrapperTypeAdapterFactory

  /** A write that the spec lets succeed emitted exactly the spec's tokens
      after what the sink held before; a write the spec fails failed with
      the same error. */
  ghost predicate WriteOutcome(spec: Res<seq<Token>>, r: Res<()>, before: seq<Token>, after: seq<Token>) {
    match spec
    case Ok(ts) => r == Ok(()) && after == before + ts
    case Err(e) => r == Err(e)
  }

  /** Appending in two steps is appending the concatenation. */
  lemma AppendAssoc(a: seq<Token>, b: seq<Token>, c: seq<Token>)
    ensures a + b + c == a + (b + c)
  {
  }

  /** `WriterContextImpl`: the sink and the registry it resolves through. */
  class WriterContext {
    const registry: TypeAdapterRegistry
    const writer: TokenWriter
    ghost const spec: Resolver

    constructor (registry: TypeAdapterRegistry, writer: TokenWriter)
      ensures this.registry == registry && this.writer == writer && spec == registry.Spec()
    {
      this.registry := registry;
      this.writer := writer;
      this.spec := registry.Spec();
    }

    /** `writeObject(type, object)`. */
    method WriteObject(t: TypeDesc, v: Value) returns (r: Res<()>)
      requires registry.Valid() && registry.Spec() == spec
      modifies registry, writer
      ensures registry.Valid() && registry.Spec() == spec
      ensures WriteOutcome(Encoding.Write(spec, t, v), r, old(writer.tokens), writer.tokens)
      decreases v, 3
    {
      var a := registry.GetTypeAdapter(t);
      if a.Err? {
        return Err(a.error);
      }
      r := WriteWith(a.value, v);
    }

    /** `writeObjectKey(type, object)`. */
    method WriteObjectKey(t: TypeDesc, k: Value) returns (r: Res<()>)
      requires registry.Valid() && registry.Spec() == spec
      modifies registry, writer
      ensures registry.Valid() && registry.Spec() == spec
      ensures WriteOutcome(Encoding.WriteKey(spec, t, k), r, old(writer.tokens), writer.tokens)
    {
      var a := registry.GetTypeAdapter(t);
      if a.Err? {
        return Err(a.error);
      }
      r := WriteKeyWith(a.value, k);
    }

    /** `adapter.writeKey(this, object)`. */
    method WriteKeyWith(a: Adapter, k: Value) returns (r: Res<()>)
      modifies writer
      ensures WriteOutcome(Encoding.WriteKeyWith(a, k), r, old(writer.tokens), writer.tokens)
    {
      var tok: Res<Token>;
      if IsPrimitiveAdapter(a) {
        tok := Primitive.WriteKey(a, k);
      } else if a.EnumAdapter? {
        tok := Enum.WriteKey(k);
      } else if a.UserAdapter? {
        tok := Err(UserCode(a.id));
      } else {
        tok := Err(KeyOperationUnsupported);
      }
      assert Encoding.WriteKeyWith(a, k) == (var t :- tok; Ok([t]));
      if tok.Err? {
        return Err(tok.error);
      }
      writer.Emit(tok.value);
      r := Ok(());
    }

    /** `adapter.write(this, object)`. */
    method WriteWith(a: Adapter, v: Value) returns (r: Res<()>)
      requires registry.Valid() && registry.Spec() == spec
      modifies registry, writer
      ensures registry.Valid() && registry.Spec() == spec
      ensures WriteOutcome(Encoding.WriteWith(spec, a, v), r, old(writer.tokens), writer.tokens)
      decreases v, 2
    {
      var tok: Res<Token>;
      match a {
        case StringAdapter | IntAdapter | LongAdapter | FloatAdapter | DoubleAdapter | BooleanAdapter =>
          tok := Primitive.Write(a, v);
        case EnumAdapter(_) =>
          tok := Enum.Write(v);
        case JsonPrimitiveAdapter =>
          tok := Gson.WritePrimitive(v);
        case CollectionAdapter(_, _) =>
          r := WriteCollection(a, v);
          return;
        case MapAdapter(_, _) =>
          r := WriteMap(a, v);
          return;
        case BeanAdapter(_) =>
          r := WriteBean(a, v);
          return;
        case JsonArrayAdapter =>
          r := WriteJsonArray(v);
          return;
        case JsonObjectAdapter =>
          r := WriteJsonObject(v);
          return;
        case UserAdapter(id) =>
          return Err(UserCode(id));
      }
      if tok.Err? {
        return Err(tok.error);
      }
      writer.Emit(tok.value);
      r := Ok(());
    }

    /** The collection adapter's `write`: `enterList()`, each element with
        the element type, `exitList()`. */
    method WriteCollection(a: Adapter, v: Value) returns (r: Res<()>)
      requires a.CollectionAdapter? && registry.Valid() && registry.Spec() == spec
      modifies registry, writer
      ensures registry.Valid() && registry.Spec() == spec
      ensures WriteOutcome(Encoding.WriteWith(spec, a, v), r, old(writer.tokens), writer.tokens)
      decreases v, 1
    {
      if !v.VColl? {
        return Err(Mismatch);
      }
      ghost var all := Encoding.WriteWith(spec, a, v);
      writer.Emit(EnterList);
      ElemsBegin(a, v, old(writer.tokens), all);
      ghost var emitted: seq<Token> := [EnterList];
      var i := 0;
      while i < |v.elems|
        invariant ElemsLoop(a, v, i, old(writer.tokens), emitted, all)
      {
        var x;
        x, emitted := WriteElem(a, v, i, old(writer.tokens), emitted, all);
        if x.Err? {
          return x;
        }
        i := i + 1;
      }
      ElemsDone(a, v, old(writer.tokens), emitted, all);
      writer.Emit(ExitList);
      AppendAssoc(old(writer.tokens), emitted, [ExitList]);
      r := Ok(());
    }

    /** The state of the collection write loop after `i` elements: the sink
        holds `base` and then `emitted`, and the whole write `all` is
        `emitted` followed by what the remaining elements give. */
    ghost predicate ElemsLoop(a: Adapter, v: Value, i: nat, base: seq<Token>, emitted: seq<Token>, all: Res<seq<Token>>)
      reads this, registry, writer
    {
      && a.CollectionAdapter? && v.VColl? && i <= |v.elems|
      && registry.Valid() && registry.Spec() == spec
      && writer.tokens == base + emitted
      && all == Prepend(emitted, Encoding.WriteElems(spec, a.elem, v, i))
    }

    lemma ElemsBegin(a: Adapter, v: Value, base: seq<Token>, all: Res<seq<Token>>)
      requires a.CollectionAdapter? && v.VColl? && registry.Valid() && registry.Spec() == spec
      requires writer.tokens == base + [EnterList] && all == Encoding.WriteWith(spec, a, v)
      ensures ElemsLoop(a, v, 0, base, [EnterList], all)
    {
    }

    lemma ElemsDone(a: Adapter, v: Value, base: seq<Token>, emitted: seq<Token>, all: Res<seq<Token>>)
      requires v.VColl? && ElemsLoop(a, v, |v.elems|, base, emitted, all)
      ensures all == Ok(emitted + [ExitList]) && writer.tokens == base + emitted
    {
    }

    /** One turn of the collection write loop: element `i`. */
    method WriteElem(a: Adapter, v: Value, i: nat, ghost base: seq<Token>, ghost emitted: seq<Token>,
                     ghost all: Res<seq<Token>>)
      returns (r: Res<()>, ghost emitted': seq<Token>)
      requires v.VColl? && i < |v.elems| && ElemsLoop(a, v, i, base, emitted, all)
      modifies registry, writer
      ensures registry.Valid() && registry.Spec() == spec
      ensures r.Err? ==> all == Err(r.error)
      ensures r.Ok? ==> ElemsLoop(a, v, i + 1, base, emitted', all)
      decreases v, 0
    {
      emitted' := emitted;
      r := WriteObject(a.elem, v.elems[i]);
      if r.Ok? {
        ghost var ts := Encoding.Write(spec, a.elem, v.elems[i]).value;
        AppendAssoc(base, emitted, ts);
        PrependTwice(emitted, ts, Encoding.WriteElems(spec, a.elem, v, i + 1));
        emitted' := emitted + ts;
      }
    }

    /** The map adapter's `write`: `enterObject()`, per entry `writeObjectKey`
        with the key type and `writeObject` with the value type, `exitObject()`. */
    method WriteMap(a: Adapter, v: Value) returns (r: Res<()>)
      requires a.MapAdapter? && registry.Valid() && registry.Spec() == spec
      modifies registry, writer
      ensures registry.Valid() && registry.Spec() == spec
      ensures WriteOutcome(Encoding.WriteWith(spec, a, v), r, old(writer.tokens), writer.tokens)
      decreases v, 1
    {
      if !v.VMap? {
        return Err(Mismatch);
      }
      ghost var all := Encoding.WriteWith(spec, a, v);
      writer.Emit(EnterObject);
      EntriesBegin(a, v, old(writer.tokens), all);
      ghost var emitted: seq<Token> := [EnterObject];
      var i := 0;
      while i < |v.entries|
        invariant EntriesLoop(a, v, i, old(writer.tokens), emitted, all)
      {
        var x;
        x, emitted := WriteEntry(a, v, i, old(writer.tokens), emitted, all);
        if x.Err? {
          return x;
        }
        i := i + 1;
      }
      EntriesDone(a, v, old(writer.tokens), emitted, all);
      writer.Emit(ExitObject);
      AppendAssoc(old(writer.tokens), emitted, [ExitObject]);
      r := Ok(());
    }

    /** The state of the map write loop after `i` entries. */
    ghost predicate EntriesLoop(a: Adapter, v: Value, i: nat, base: seq<Token>, emitted: seq<Token>, all: Res<seq<Token>>)
      reads this, registry, writer
    {
      && a.MapAdapter? && v.VMap? && i <= |v.entries|
      && registry.Valid() && registry.Spec() == spec
      && writer.tokens == base + emitted
      && all == Prepend(emitted, Encoding.WriteEntries(spec, a.key, a.value, v, i))
    }

    lemma EntriesBegin(a: Adapter, v: Value, base: seq<Token>, all: Res<seq<Token>>)
      requires a.MapAdapter? && v.VMap? && registry.Valid() && registry.Spec() == spec
      requires writer.tokens == base + [EnterObject] && all == Encoding.WriteWith(spec, a, v)
      ensures EntriesLoop(a, v, 0, base, [EnterObject], all)
    {
    }

    lemma EntriesDone(a: Adapter, v: Value, base: seq<Token>, emitted: seq<Token>, all: Res<seq<Token>>)
      requires v.VMap? && EntriesLoop(a, v, |v.entries|, base, emitted, all)
      ensures all == Ok(emitted + [ExitObject]) && writer.tokens == base + emitted
    {
    }

    /** One turn of the map write loop: the key, then the value, of entry `i`. */
    method WriteEntry(a: Adapter, v: Value, i: nat, ghost base: seq<Token>, ghost emitted: seq<Token>,
                      ghost all: Res<seq<Token>>)
      returns (r: Res<()>, ghost emitted': seq<Token>)
      requires v.VMap? && i < |v.entries| && EntriesLoop(a, v, i, base, emitted, all)
      modifies registry, writer
      ensures registry.Valid() && registry.Spec() == spec
      ensures r.Err? ==> all == Err(r.error)
      ensures r.Ok? ==> EntriesLoop(a, v, i + 1, base, emitted', all)
      decreases v, 0
    {
      emitted' := emitted;
      r := WriteObjectKey(a.key, v.entries[i].0);
      if r.Err? {
        return;
      }
      ghost var ks := Encoding.WriteKey(spec, a.key, v.entries[i].0).value;
      r := WriteObject(a.value, v.entries[i].1);
      if r.Ok? {
        ghost var vs := Encoding.Write(spec, a.value, v.entries[i].1).value;
        AppendAssoc(base, emitted, ks + vs);
        PrependTwice(emitted, ks + vs, Encoding.WriteEntries(spec, a.key, a.value, v, i + 1));
        emitted' := emitted + (ks + vs);
      }
    }

    /** The bean adapter's `write`: `enterObject()`; for every serialized
        property getter that returns a value, its comment, its key and the
        value written with the getter's return type; `exitObject()`. */
    method WriteBean(a: Adapter, v: Value) returns (r: Res<()>)
      requires a.BeanAdapter? && registry.Valid() && registry.Spec() == spec
      modifies registry, writer
      ensures registry.Valid() && registry.Spec() == spec
      ensures WriteOutcome(Encoding.WriteWith(spec, a, v), r, old(writer.tokens), writer.tokens)
      decreases v, 1
    {
      var ms := Info(registry.world, a.cls).methods;
      ghost var all := Encoding.WriteWith(spec, a, v);
      writer.Emit(EnterObject);
      FieldsBegin(a, ms, v, old(writer.tokens), all);
      ghost var emitted: seq<Token> := [EnterObject];
      var i := 0;
      while i < |ms|
        invariant FieldsLoop(a.cls, ms, v, i, old(writer.tokens), emitted, all)
      {
        var x;
        x, emitted := WriteMethod(a.cls, ms, v, i, old(writer.tokens), emitted, all);
        if x.Err? {
          return x;
        }
        i := i + 1;
      }
      FieldsDone(a.cls, ms, v, old(writer.tokens), emitted, all);
      writer.Emit(ExitObject);
      AppendAssoc(old(writer.tokens), emitted, [ExitObject]);
      r := Ok(());
    }

    /** The state of the bean write loop after the first `i` methods of `ms`. */
    ghost predicate FieldsLoop(c: ClassName, ms: seq<Method>, v: Value, i: nat, base: seq<Token>,
                               emitted: seq<Token>, all: Res<seq<Token>>)
      reads this, registry, writer
    {
      && i <= |ms|
      && registry.Valid() && registry.Spec() == spec
      && writer.tokens == base + emitted
      && all == Prepend(emitted, Encoding.WriteFields(spec, c, ms, v, i))
    }

    lemma FieldsBegin(a: Adapter, ms: seq<Method>, v: Value, base: seq<Token>, all: Res<seq<Token>>)
      requires a.BeanAdapter? && registry.Valid() && registry.Spec() == spec
      requires ms == Info(registry.world, a.cls).methods
      requires writer.tokens == base + [EnterObject] && all == Encoding.WriteWith(spec, a, v)
      ensures FieldsLoop(a.cls, ms, v, 0, base, [EnterObject], all)
    {
      assert ms == Info(spec.world, a.cls).methods;
    }

    lemma FieldsDone(c: ClassName, ms: seq<Method>, v: Value, base: seq<Token>, emitted: seq<Token>, all: Res<seq<Token>>)
      requires FieldsLoop(c, ms, v, |ms|, base, emitted, all)
      ensures all == Ok(emitted + [ExitObject]) && writer.tokens == base + emitted
    {
      Encoding.WriteFieldsEnd(spec, c, ms, v);
    }

    /** One turn of the bean write loop: method `i` of `ms`. */
    method WriteMethod(c: ClassName, ms: seq<Method>, v: Value, i: nat, ghost base: seq<Token>,
                       ghost emitted: seq<Token>, ghost all: Res<seq<Token>>)
      returns (r: Res<()>, ghost emitted': seq<Token>)
      requires i < |ms| && FieldsLoop(c, ms, v, i, base, emitted, all)
      modifies registry, writer
      ensures registry.Valid() && registry.Spec() == spec
      ensures r.Err? ==> all == Err(r.error)
      ensures r.Ok? ==> FieldsLoop(c, ms, v, i + 1, base, emitted', all)
      decreases v, 0, 2
    {
      emitted' := emitted;
      r := WriteProperty(c, v, ms[i]);
      if r.Ok? {
        ghost var ts := Encoding.Property(spec, c, v, ms[i]).value;
        AppendAssoc(base, emitted, ts);
        Encoding.WriteFieldsStep(spec, c, ms, v, i);
        PrependTwice(emitted, ts, Encoding.WriteFields(spec, c, ms, v, i + 1));
        emitted' := emitted + ts;
      }
    }

    /** What the bean adapter's `write` does with one method of the class. */
    method WriteProperty(c: ClassName, v: Value, m: Method) returns (r: Res<()>)
      requires registry.Valid() && registry.Spec() == spec
      modifies registry, writer
      ensures registry.Valid() && registry.Spec() == spec
      ensures WriteOutcome(Encoding.Property(spec, c, v, m), r, old(writer.tokens), writer.tokens)
      decreases v, 0, 1
    {
      var o := Encoding.PropertyValue(registry.world, c, v, m);
      if o.Err? {
        return Err(o.error);
      }
      if o.value.None? {
        assert old(writer.tokens) + [] == writer.tokens;
        return Ok(());
      }
      r := WriteNamed(m, o.value.value);
    }

    /** A property that is written: its `@DescribedAs` comment if any, its
        key, and its value with the getter's return type. */
    method WriteNamed(m: Method, x: Value) returns (r: Res<()>)
      requires registry.Valid() && registry.Spec() == spec && Bean.ItemName(m.name).Some?
      modifies registry, writer
      ensures registry.Valid() && registry.Spec() == spec
      ensures WriteOutcome(Prepend(Bean.CommentTokens(m) + [Key(Bean.ItemName(m.name).value)],
        Encoding.Write(spec, m.resultType, x)), r, old(writer.tokens), writer.tokens)
      decreases x, 4
    {
      ghost var head := Bean.CommentTokens(m) + [Key(Bean.ItemName(m.name).value)];
      if m.description.Some? {
        writer.Emit(Comment(m.description.value));
      }
      writer.Emit(Key(Bean.ItemName(m.name).value));
      assert writer.tokens == old(writer.tokens) + head;
      r := WriteObject(m.resultType, x);
      if r.Ok? {
        AppendAssoc(old(writer.tokens), head, Encoding.Write(spec, m.resultType, x).value);
      }
    }

    /** The `JsonArray` adapter's `write`: each element with its own runtime class. */
    method WriteJsonArray(v: Value) returns (r: Res<()>)
      requires registry.Valid() && registry.Spec() == spec
      modifies registry, writer
      ensures registry.Valid() && registry.Spec() == spec
      ensures WriteOutcome(Encoding.WriteWith(spec, JsonArrayAdapter, v), r, old(writer.tokens), writer.tokens)
      decreases v, 1
    {
      if !v.VJsonArr? {
        return Err(Mismatch);
      }
      ghost var all := Encoding.WriteWith(spec, JsonArrayAdapter, v);
      writer.Emit(EnterList);
      ItemsBegin(v, old(writer.tokens), all);
      ghost var emitted: seq<Token> := [EnterList];
      var i := 0;
      while i < |v.items|
        invariant ItemsLoop(v, i, old(writer.tokens), emitted, all)
      {
        var x;
        x, emitted := WriteItem(v, i, old(writer.tokens), emitted, all);
        if x.Err? {
          return x;
        }
        i := i + 1;
      }
      ItemsDone(v, old(writer.tokens), emitted, all);
      writer.Emit(ExitList);
      AppendAssoc(old(writer.tokens), emitted, [ExitList]);
      r := Ok(());
    }

    /** The state of the `JsonArray` write loop after `i` elements. */
    ghost predicate ItemsLoop(v: Value, i: nat, base: seq<Token>, emitted: seq<Token>, all: Res<seq<Token>>)
      reads this, registry, writer
    {
      && v.VJsonArr? && i <= |v.items|
      && registry.Valid() && registry.Spec() == spec
      && writer.tokens == base + emitted
      && all == Prepend(emitted, Encoding.WriteItems(spec, v, i))
    }

    lemma ItemsBegin(v: Value, base: seq<Token>, all: Res<seq<Token>>)
      requires v.VJsonArr? && registry.Valid() && registry.Spec() == spec
      requires writer.tokens == base + [EnterList] && all == Encoding.WriteWith(spec, JsonArrayAdapter, v)
      ensures ItemsLoop(v, 0, base, [EnterList], all)
    {
    }

    lemma ItemsDone(v: Value, base: seq<Token>, emitted: seq<Token>, all: Res<seq<Token>>)
      requires v.VJsonArr? && ItemsLoop(v, |v.items|, base, emitted, all)
      ensures all == Ok(emitted + [ExitList]) && writer.tokens == base + emitted
    {
    }

    /** One turn of the `JsonArray` write loop: a null element throws. */
    method WriteItem(v: Value, i: nat, ghost base: seq<Token>, ghost emitted: seq<Token>, ghost all: Res<seq<Token>>)
      returns (r: Res<()>, ghost emitted': seq<Token>)
      requires v.VJsonArr? && i < |v.items| && ItemsLoop(v, i, base, emitted, all)
      modifies registry, writer
      ensures registry.Valid() && registry.Spec() == spec
      ensures r.Err? ==> all == Err(r.error)
      ensures r.Ok? ==> ItemsLoop(v, i + 1, base, emitted', all)
      decreases v, 0
    {
      emitted' := emitted;
      var e := v.items[i];
      if e.VNull? {
        return Err(NullPointer), emitted;
      }
      r := WriteObject(ClassT(RuntimeClass(e)), e);
      if r.Ok? {
        ghost var ts := Encoding.Write(spec, ClassT(RuntimeClass(e)), e).value;
        AppendAssoc(base, emitted, ts);
        PrependTwice(emitted, ts, Encoding.WriteItems(spec, v, i + 1));
        emitted' := emitted + ts;
      }
    }

    /** The `JsonObject` adapter's `write`: each member's name as a key, then
        the member with its own runtime class. */
    method WriteJsonObject(v: Value) returns (r: Res<()>)
      requires registry.Valid() && registry.Spec() == spec
      modifies registry, writer
      ensures registry.Valid() && registry.Spec() == spec
      ensures WriteOutcome(Encoding.WriteWith(spec, JsonObjectAdapter, v), r, old(writer.tokens), writer.tokens)
      decreases v, 1
    {
      if !v.VJsonObj? {
        return Err(Mismatch);
      }
      ghost var all := Encoding.WriteWith(spec, JsonObjectAdapter, v);
      writer.Emit(EnterObject);
      MembersBegin(v, old(writer.tokens), all);
      ghost var emitted: seq<Token> := [EnterObject];
      var i := 0;
      while i < |v.members|
        invariant MembersLoop(v, i, old(writer.tokens), emitted, all)
      {
        var x;
        x, emitted := WriteMember(v, i, old(writer.tokens), emitted, all);
        if x.Err? {
          return x;
        }
        i := i + 1;
      }
      MembersDone(v, old(writer.tokens), emitted, all);
      writer.Emit(ExitObject);
      AppendAssoc(old(writer.tokens), emitted, [ExitObject]);
      r := Ok(());
    }

    /** The state of the `JsonObject` write loop after `i` members. */
    ghost predicate MembersLoop(v: Value, i: nat, base: seq<Token>, emitted: seq<Token>, all: Res<seq<Token>>)
      reads this, registry, writer
    {
      && v.VJsonObj? && i <= |v.members|
      && registry.Valid() && registry.Spec() == spec
      && writer.tokens == base + emitted
      && all == Prepend(emitted, Encoding.WriteMembers(spec, v, i))
    }

    lemma MembersBegin(v: Value, base: seq<Token>, all: Res<seq<Token>>)
      requires v.VJsonObj? && registry.Valid() && registry.Spec() == spec
      requires writer.tokens == base + [EnterObject] && all == Encoding.WriteWith(spec, JsonObjectAdapter, v)
      ensures MembersLoop(v, 0, base, [EnterObject], all)
    {
    }

    lemma MembersDone(v: Value, base: seq<Token>, emitted: seq<Token>, all: Res<seq<Token>>)
      requires v.VJsonObj? && MembersLoop(v, |v.members|, base, emitted, all)
      ensures all == Ok(emitted + [ExitObject]) && writer.tokens == base + emitted
    {
    }

    /** One turn of the `JsonObject` write loop: a null member throws. */
    method WriteMember(v: Value, i: nat, ghost base: seq<Token>, ghost emitted: seq<Token>, ghost all: Res<seq<Token>>)
      returns (r: Res<()>, ghost emitted': seq<Token>)
      requires v.VJsonObj? && i < |v.members| && MembersLoop(v, i, base, emitted, all)
      modifies registry, writer
      ensures registry.Valid() && registry.Spec() == spec
      ensures r.Err? ==> all == Err(r.error)
      ensures r.Ok? ==> MembersLoop(v, i + 1, base, emitted', all)
      decreases v, 0
    {
      emitted' := emitted;
      var e := v.members[i];
      if e.1.VNull? {
        return Err(NullPointer), emitted;
      }
      writer.Emit(Key(e.0));
      r := WriteObject(ClassT(RuntimeClass(e.1)), e.1);
      if r.Ok? {
        ghost var ts := [Key(e.0)] + Encoding.Write(spec, ClassT(RuntimeClass(e.1)), e.1).value;
        AppendAssoc(base, emitted, ts);
        PrependTwice(emitted, ts, Encoding.WriteMembers(spec, v, i + 1));
        emitted' := emitted + ts;
      }
    }
  }

  /** `ReaderContextImpl`: the source and the registry it resolves through. */
  class ReaderContext {
    const registry: TypeAdapterRegistry
    const reader: TokenReader
    ghost const spec: Resolver

    constructor (registry: TypeAdapterRegistry, reader: TokenReader)
      ensures this.registry == registry && this.reader == reader && spec == registry.Spec()
    {
      this.registry := registry;
      this.reader := reader;
      this.spec := registry.Spec();
    }

    /** `readObject(type)`. */
    method ReadObject(t: TypeDesc) returns (r: Res<Value>)
      requires registry.Valid() && registry.Spec() == spec && reader.Valid()
      modifies registry, reader
      ensures registry.Valid() && registry.Spec() == spec && reader.Valid()
      ensures ReadOutcome(Encoding.Read(spec, t, old(reader.Rest())), r, reader.Rest())
      decreases |reader.Rest()|, 3
    {
      var a := registry.GetTypeAdapter(t);
      if a.Err? {
        return Err(a.error);
      }
      r := ReadWith(a.value);
    }

    /** `readObjectKey(type)`. */
    method ReadObjectKey(t: TypeDesc) returns (r: Res<Value>)
      requires registry.Valid() && registry.Spec() == spec && reader.Valid()
      modifies registry, reader
      ensures registry.Valid() && registry.Spec() == spec && reader.Valid()
      ensures ReadOutcome(Encoding.ReadKey(spec, t, old(reader.Rest())), r, reader.Rest())
    {
      var a := registry.GetTypeAdapter(t);
      if a.Err? {
        return Err(a.error);
      }
      r := ReadKeyWith(a.value);
    }

    /** `adapter.readKey(this)`. */
    method ReadKeyWith(a: Adapter) returns (r: Res<Value>)
      requires registry.Spec() == spec && reader.Valid()
      modifies reader
      ensures reader.Valid()
      ensures ReadOutcome(Encoding.ReadKeyWith(spec, a, old(reader.Rest())), r, reader.Rest())
    {
      match a {
        case StringAdapter | IntAdapter | LongAdapter | FloatAdapter | DoubleAdapter | BooleanAdapter =>
          r := Primitive.ReadKeyFrom(a, reader);
        case EnumAdapter(c) =>
          r := Enum.ReadKeyFrom(registry.world, c, reader);
        case UserAdapter(id) =>
          r := Err(UserCode(id));
        case _ =>
          r := Err(KeyOperationUnsupported);
      }
    }

    /** `adapter.read(this)`. */
    method ReadWith(a: Adapter) returns (r: Res<Value>)
      requires registry.Valid() && registry.Spec() == spec && reader.Valid()
      modifies registry, reader
      ensures registry.Valid() && registry.Spec() == spec && reader.Valid()
      ensures ReadOutcome(Encoding.ReadWith(spec, a, old(reader.Rest())), r, reader.Rest())
      decreases |reader.Rest()|, 2
    {
      ghost var toks := reader.Rest();
      match a {
        case StringAdapter | IntAdapter | LongAdapter | FloatAdapter | DoubleAdapter | BooleanAdapter =>
          assert Encoding.ReadWith(spec, a, toks) == Primitive.Read(a, toks);
          r := Primitive.ReadFrom(a, reader);
        case EnumAdapter(c) =>
          assert Encoding.ReadWith(spec, a, toks) == Enum.Read(spec.world, c, toks);
          r := Enum.ReadFrom(registry.world, c, reader);
        case CollectionAdapter(_, _) =>
          r := ReadCollection(a);
        case MapAdapter(_, _) =>
          r := ReadMap(a);
        case BeanAdapter(_) =>
          r := ReadBean(a);
        case JsonPrimitiveAdapter =>
          r := Gson.ReadPrimitiveFrom(reader);
        case JsonArrayAdapter =>
          r := Gson.ReadArrayFrom(reader);
        case JsonObjectAdapter =>
          r := Gson.ReadObjectFrom(reader);
        case UserAdapter(id) =>
          r := Err(UserCode(id));
      }
    }

    /** The collection adapter's `read`: a fresh collection of the table's
        class, `enterList()`, elements until `EXIT_LIST`, `exitList()`. */
    method ReadCollection(a: Adapter) returns (r: Res<Value>)
      requires a.CollectionAdapter? && registry.Valid() && registry.Spec() == spec && reader.Valid()
      modifies registry, reader
      ensures registry.Valid() && registry.Spec() == spec && reader.Valid()
      ensures ReadOutcome(Encoding.ReadWith(spec, a, old(reader.Rest())), r, reader.Rest())
      decreases |reader.Rest()|, 1
    {
      var e := reader.Expect(EnterList);
      if e.Err? {
        return Err(e.error);
      }
      var acc: seq<Value> := [];
      while true
        invariant registry.Valid() && registry.Spec() == spec && reader.Valid()
        invariant |reader.Rest()| < |old(reader.Rest())|
        invariant Encoding.ReadWith(spec, a, old(reader.Rest())) == Encoding.ReadElems(spec, a.impl, a.elem, reader.Rest(), acc)
        decreases |reader.Rest()|
      {
        ghost var before := reader.Rest();
        var k := reader.Peek();
        if k.Err? {
          return Err(k.error);
        }
        if k.value == EXIT_LIST {
          var x := reader.Expect(ExitList);
          assert x.Ok?;
          return Ok(VColl(a.impl, acc));
        }
        var x := ReadObject(a.elem);
        if x.Err? {
          return Err(x.error);
        }
        acc := Coll.Add(a.impl, acc, x.value);
      }
    }

    /** The map adapter's `read`: `enterObject()`, then `readObjectKey` and
        `readObject` until `EXIT_OBJECT`, each pair `put` into a fresh
        `LinkedHashMap`; `exitObject()`. */
    method ReadMap(a: Adapter) returns (r: Res<Value>)
      requires a.MapAdapter? && registry.Valid() && registry.Spec() == spec && reader.Valid()
      modifies registry, reader
      ensures registry.Valid() && registry.Spec() == spec && reader.Valid()
      ensures ReadOutcome(Encoding.ReadWith(spec, a, old(reader.Rest())), r, reader.Rest())
      decreases |reader.Rest()|, 1
    {
      var e := reader.Expect(EnterObject);
      if e.Err? {
        return Err(e.error);
      }
      var acc: seq<(Value, Value)> := [];
      while true
        invariant registry.Valid() && registry.Spec() == spec && reader.Valid()
        invariant |reader.Rest()| < |old(reader.Rest())|
        invariant Encoding.ReadWith(spec, a, old(reader.Rest())) == Encoding.ReadEntries(spec, a.key, a.value, reader.Rest(), acc)
        decreases |reader.Rest()|
      {
        var k := reader.Peek();
        if k.Err? {
          return Err(k.error);
        }
        if k.value == EXIT_OBJECT {
          var x := reader.Expect(ExitObject);
          assert x.Ok?;
          return Ok(VMap(acc));
        }
        var key := ReadObjectKey(a.key);
        if key.Err? {
          return Err(key.error);
        }
        var x := ReadObject(a.value);
        if x.Err? {
          return Err(x.error);
        }
        acc := Put(acc, key.value, x.value);
      }
    }

    /** The bean adapter's `read`: `newInstance()`, `enterObject()`,
        properties until `EXIT_OBJECT`, `exitObject()`. */
    method ReadBean(a: Adapter) returns (r: Res<Value>)
      requires a.BeanAdapter? && registry.Valid() && registry.Spec() == spec && reader.Valid()
      modifies registry, reader
      ensures registry.Valid() && registry.Spec() == spec && reader.Valid()
      ensures ReadOutcome(Encoding.ReadWith(spec, a, old(reader.Rest())), r, reader.Rest())
      decreases |reader.Rest()|, 1
    {
      var info := Info(registry.world, a.cls);
      if !info.publicNoArgCtor || info.isAbstract {
        return Err(InstantiationFailed(a.cls));
      }
      var e := reader.Expect(EnterObject);
      if e.Err? {
        return Err(e.error);
      }
      var state := info.initial;
      while true
        invariant registry.Valid() && registry.Spec() == spec && reader.Valid()
        invariant |reader.Rest()| < |old(reader.Rest())|
        invariant Encoding.ReadWith(spec, a, old(reader.Rest())) == Encoding.ReadFields(spec, a.cls, reader.Rest(), state)
        decreases |reader.Rest()|
      {
        var k := reader.Peek();
        if k.Err? {
          return Err(k.error);
        }
        if k.value == EXIT_OBJECT {
          var x := reader.Expect(ExitObject);
          assert x.Ok?;
          return Ok(VBean(a.cls, state));
        }
        var p := ReadProperty(a.cls, state);
        if p.Err? {
          return Err(p.error);
        }
        state := p.value;
      }
    }

    /** One pass of the bean adapter's read loop: `key()`, the setter search,
        then `skipDeep()` or `readObject` and `invoke`. */
    method ReadProperty(c: ClassName, state: seq<(string, Value)>) returns (r: Res<seq<(string, Value)>>)
      requires registry.Valid() && registry.Spec() == spec && reader.Valid()
      modifies registry, reader
      ensures registry.Valid() && registry.Spec() == spec && reader.Valid()
      ensures ReadOutcome(Encoding.ReadProperty(spec, c, old(reader.Rest()), state), r, reader.Rest())
      decreases |reader.Rest()|, 0
    {
      var key := reader.Key();
      if key.Err? {
        return Err(key.error);
      }
      var setter := Bean.SetterName(key.value);
      if setter.None? {
        return Err(EmptyKey);
      }
      var ms := Info(registry.world, c).methods;
      var j := Bean.LocateSetter(ms, setter.value);
      if j.None? {
        var s := reader.SkipDeep();
        if s.Err? {
          return Err(s.error);
        }
        return Ok(state);
      }
      var x := ReadObject(ms[j.value].params[0]);
      if x.Err? {
        return Err(x.error);
      }
      r := Ok(Bean.Invoke(ms[j.value], state, x.value));
    }
  }

  /** The handler `build()` returns: each call opens a fresh context over
      the shared registry. */
  class DocumentHandler {
    const registry: TypeAdapterRegistry

    constructor (registry: TypeAdapterRegistry)
      ensures this.registry == registry
    {
      this.registry := registry;
    }

    /** `write(target, o)`: `writeObject(o.getClass(), o)` in a new writer context. */
    method Write(target: TokenWriter, v: Value) returns (r: Res<()>)
      requires registry.Valid()
      modifies registry, target
      ensures registry.Valid() && registry.Spec() == old(registry.Spec())
      ensures WriteOutcome(Encoding.WriteDocument(old(registry.Spec()), v), r, old(target.tokens), target.tokens)
    {
      if v.VNull? {
        return Err(NullPointer);
      }
      var context := new WriterContext(registry, target);
      r := context.WriteObject(ClassT(RuntimeClass(v)), v);
    }

    /** `read(source, type)`: `readObject(type)` in a new reader context. */
    method Read(source: TokenReader, c: ClassName) returns (r: Res<Value>)
      requires registry.Valid() && source.Valid()
      modifies registry, source
      ensures registry.Valid() && registry.Spec() == old(registry.Spec()) && source.Valid()
      ensures ReadOutcome(Encoding.ReadDocument(old(registry.Spec()), c, old(source.Rest())), r, source.Rest())
    {
      var context := new ReaderContext(registry, source);
      r := context.ReadObject(ClassT(c));
    }
  }

  /** `DocumentHandlerBuilder`: owns a registry with the default factories. */
  class Builder {
    const registry: TypeAdapterRegistry

    /** `new DocumentHandlerBuilder()`, over the class table `w`; `gsonAvailable`
        says whether Gson is on the class path. */
    constructor (w: World, gsonAvailable: bool)
      ensures fresh(registry) && registry.Valid() && registry.world == w
      ensures registry.factories == DefaultFactories(gsonAvailable) && registry.cache == map[]
    {
      registry := new TypeAdapterRegistry(w, gsonAvailable);
    }

    /** `build()`: every handler shares this builder's registry. */
    method Build() returns (h: DocumentHandler)
      ensures fresh(h) && h.registry == registry
    {
      h := new DocumentHandler(registry);
    }
  }
}
