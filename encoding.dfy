/** What `writeObject`, `writeObjectKey`, `readObject` and `readObjectKey`
    of the document contexts compute, as functions of the registry's world
    and factory list: the tokens a write emits, and the value a read returns
    together with the input it leaves. Every nested value and element goes
    back through resolution, so the adapters' writes and reads form one
    recursive family. */
module Encoding {
  import opened Wrappers
  import opened Types
  import opened Tokens
  import opened Values
  import opened Errors
  import opened Adapters
  import opened Reflection
  import opened TokenStream
  import opened TypeAdapterRegistryImpl
  import Primitive = PrimitiveTypeAdapterFactory
  import Enum = EnumTypeAdapterFactory
  import Coll = CollectionTypeAdapterFactory
  import Bean = BeanTypeAdapter
  import Gson = GsonWrapperTypeAdapterFactory

  // ----- writing -----

  /** `writeObject(t, v)`: resolve `t`, then the adapter's `write`. */
  function Write(r: Resolver, t: TypeDesc, v: Value): (res: Res<seq<Token>>)
    ensures Resolve(r, t).Err? ==> res == Err(UnsupportedType(t))
    ensures res.Ok? ==> |res.value| > 0
    decreases v, 3
  {
    var a :- Resolve(r, t);
    WriteWith(r, a, v)
  }

  /** An adapter's `write`. Containers bracket their contents; a value of
      the wrong kind for a collection, map or tree adapter is a cast failure
      before anything is emitted. */
  function WriteWith(r: Resolver, a: Adapter, v: Value): (res: Res<seq<Token>>)
    ensures res.Ok? && IsPrimitiveAdapter(a) ==> |res.value| == 1 && res.value[0].Scalar?
    ensures res.Ok? && (a.CollectionAdapter? || a.JsonArrayAdapter?) ==>
      |res.value| >= 2 && res.value[0] == EnterList && res.value[|res.value| - 1] == ExitList
    ensures res.Ok? && (a.MapAdapter? || a.BeanAdapter? || a.JsonObjectAdapter?) ==>
      |res.value| >= 2 && res.value[0] == EnterObject && res.value[|res.value| - 1] == ExitObject
    decreases v, 2
  {
    match a
    case StringAdapter | IntAdapter | LongAdapter | FloatAdapter | DoubleAdapter | BooleanAdapter =>
      var tok :- Primitive.Write(a, v); Ok([tok])
    case EnumAdapter(_) => var tok :- Enum.Write(v); Ok([tok])
    case CollectionAdapter(_, et) =>
      if v.VColl? then Prepend([EnterList], WriteElems(r, et, v, 0)) else Err(Mismatch)
    case MapAdapter(kt, vt) =>
      if v.VMap? then Prepend([EnterObject], WriteEntries(r, kt, vt, v, 0)) else Err(Mismatch)
    case BeanAdapter(c) => Prepend([EnterObject], WriteFields(r, c, Info(r.world, c).methods, v, 0))
    case JsonPrimitiveAdapter => var tok :- Gson.WritePrimitive(v); Ok([tok])
    case JsonArrayAdapter =>
      if v.VJsonArr? then Prepend([EnterList], WriteItems(r, v, 0)) else Err(Mismatch)
    case JsonObjectAdapter =>
      if v.VJsonObj? then Prepend([EnterObject], WriteMembers(r, v, 0)) else Err(Mismatch)
    case UserAdapter(id) => Err(UserCode(id))
  }

  /** The collection write loop from element `i` on, and the closing `ExitList`. */
  function WriteElems(r: Resolver, et: TypeDesc, v: Value, i: nat): (res: Res<seq<Token>>)
    requires v.VColl? && i <= |v.elems|
    ensures res.Ok? ==> |res.value| > 0 && res.value[|res.value| - 1] == ExitList
    decreases v, 0, |v.elems| - i
  {
    if i == |v.elems| then Ok([ExitList])
    else
      var ts :- Write(r, et, v.elems[i]);
      Prepend(ts, WriteElems(r, et, v, i + 1))
  }

  /** The map write loop from entry `i` on: a key write, then a value write,
      per entry; then `ExitObject`. */
  function WriteEntries(r: Resolver, kt: TypeDesc, vt: TypeDesc, v: Value, i: nat): (res: Res<seq<Token>>)
    requires v.VMap? && i <= |v.entries|
    ensures res.Ok? ==> |res.value| > 0 && res.value[|res.value| - 1] == ExitObject
    decreases v, 0, |v.entries| - i
  {
    if i == |v.entries| then Ok([ExitObject])
    else
      var ks :- WriteKey(r, kt, v.entries[i].0);
      var vs :- Write(r, vt, v.entries[i].1);
      Prepend(ks + vs, WriteEntries(r, kt, vt, v, i + 1))
  }

  /** The bean write loop from method `i` of `ms` (the class's methods in
      table order) on, and the closing `ExitObject`. */
  function WriteFields(r: Resolver, c: ClassName, ms: seq<Method>, v: Value, i: nat): (res: Res<seq<Token>>)
    requires i <= |ms|
    ensures res.Ok? ==> |res.value| > 0 && res.value[|res.value| - 1] == ExitObject
    decreases v, 1, |ms| - i
  {
    if i == |ms| then Ok([ExitObject])
    else
      var ts :- Property(r, c, v, ms[i]);
      Prepend(ts, WriteFields(r, c, ms, v, i + 1))
  }

  lemma WriteFieldsStep(r: Resolver, c: ClassName, ms: seq<Method>, v: Value, i: nat)
    requires i < |ms| && Property(r, c, v, ms[i]).Ok?
    ensures WriteFields(r, c, ms, v, i) == Prepend(Property(r, c, v, ms[i]).value, WriteFields(r, c, ms, v, i + 1))
  {
  }

  /** The bean write loop ends with `exitObject()` once every method is done. */
  lemma WriteFieldsEnd(r: Resolver, c: ClassName, ms: seq<Method>, v: Value)
    ensures WriteFields(r, c, ms, v, |ms|) == Ok([ExitObject])
  {
  }

  /** What the bean write loop emits for one method of the class. A method
      is skipped when it is not a property getter or not serialized, when it
      throws, and when it returns `null`; invoking it on an object that is
      not an instance of the bean class is an error. A written property is
      its optional comment, its key, and its value written with the getter's
      return type. */
  function Property(r: Resolver, c: ClassName, v: Value, m: Method): (res: Res<seq<Token>>)
    ensures res.Ok? && res.value != [] ==> Bean.IsProperty(m) && Bean.Serialized(Info(r.world, c).serialize, m)
    ensures res.Ok? && res.value != [] ==>
      |res.value| > |Bean.CommentTokens(m)| && res.value[|Bean.CommentTokens(m)|] == Key(Bean.ItemName(m.name).value)
    decreases v, 0
  {
    var o :- PropertyValue(r.world, c, v, m);
    if o.None? then Ok([])
    else
      Prepend(Bean.CommentTokens(m) + [Key(Bean.ItemName(m.name).value)], Write(r, m.resultType, o.value))
  }

  /** The value the bean write loop writes for one method, if any: `None`
      when the method is not a serialized property getter, when it throws or
      when it returns `null`. The getter runs by virtual dispatch on the
      object's own class, so an override there decides the value. */
  function PropertyValue(w: World, c: ClassName, v: Value, m: Method): (res: Res<Option<Value>>)
    ensures res.Ok? && res.value.Some? ==>
      Bean.IsProperty(m) && Bean.Serialized(Info(w, c).serialize, m) && !res.value.value.VNull?
    ensures res.Ok? && res.value.Some? ==> v.VBean? && Bean.InvokedBody(c, v.cls, Info(w, v.cls).methods, m).Yields?
    ensures res.Err? ==> res.error == Mismatch
    ensures !Bean.IsProperty(m) || !Bean.Serialized(Info(w, c).serialize, m) ==> res == Ok(None)
  {
    if !Bean.IsProperty(m) || !Bean.Serialized(Info(w, c).serialize, m) then Ok(None)
    else if !(v.VBean? && IsAssignableFrom(w, c, v.cls)) then Err(Mismatch)
    else match Bean.InvokedBody(c, v.cls, Info(w, v.cls).methods, m)
      case Yields(slot) =>
        (match IndexOf(v.state, slot)
         case Some(j) => if v.state[j].1.VNull? then Ok(None) else Ok(Some(v.state[j].1))
         case None => Ok(None))
      case _ => Ok(None)
  }

  /** A subclass override that throws hides the property even when the
      declared class's getter would return it: the exception is logged and
      the loop goes on. */
  lemma OverrideThrowsSkipsProperty(r: Resolver, c: ClassName, v: Value, m: Method, i: nat)
    requires v.VBean? && v.cls != c && IsAssignableFrom(r.world, c, v.cls)
    requires Bean.FindGetter(Info(r.world, v.cls).methods, m.name) == Some(i)
    requires Info(r.world, v.cls).methods[i].body.Fails?
    ensures PropertyValue(r.world, c, v, m) == Ok(None)
    ensures Property(r, c, v, m) == Ok([])
  {
  }

  /** The `JsonArray` write loop: each element by its runtime class. */
  function WriteItems(r: Resolver, v: Value, i: nat): (res: Res<seq<Token>>)
    requires v.VJsonArr? && i <= |v.items|
    ensures res.Ok? ==> |res.value| > 0 && res.value[|res.value| - 1] == ExitList
    decreases v, 0, |v.items| - i
  {
    if i == |v.items| then Ok([ExitList])
    else if v.items[i].VNull? then Err(NullPointer)
    else
      var ts :- Write(r, ClassT(RuntimeClass(v.items[i])), v.items[i]);
      Prepend(ts, WriteItems(r, v, i + 1))
  }

  /** The `JsonObject` write loop: `Key(k)`, then the member by its runtime class. */
  function WriteMembers(r: Resolver, v: Value, i: nat): (res: Res<seq<Token>>)
    requires v.VJsonObj? && i <= |v.members|
    ensures res.Ok? ==> |res.value| > 0 && res.value[|res.value| - 1] == ExitObject
    decreases v, 0, |v.members| - i
  {
    if i == |v.members| then Ok([ExitObject])
    else if v.members[i].1.VNull? then Err(NullPointer)
    else
      var ts :- Write(r, ClassT(RuntimeClass(v.members[i].1)), v.members[i].1);
      Prepend([Key(v.members[i].0)] + ts, WriteMembers(r, v, i + 1))
  }

  /** `writeObjectKey(t, k)`: resolve `t`, then the adapter's `writeKey`. */
  function WriteKey(r: Resolver, t: TypeDesc, k: Value): (res: Res<seq<Token>>)
    ensures res.Ok? ==> |res.value| == 1 && res.value[0].Key?
  {
    var a :- Resolve(r, t);
    WriteKeyWith(a, k)
  }

  /** `writeKey`: strings, ints, longs, booleans and enums have a key form;
      the other built-in adapters keep the default, which throws. */
  function WriteKeyWith(a: Adapter, k: Value): (res: Res<seq<Token>>)
    ensures res.Ok? ==> |res.value| == 1 && res.value[0].Key?
    ensures !(IsPrimitiveAdapter(a) || a.EnumAdapter? || a.UserAdapter?) ==> res == Err(KeyOperationUnsupported)
  {
    match a
    case StringAdapter | IntAdapter | LongAdapter | FloatAdapter | DoubleAdapter | BooleanAdapter =>
      var tok :- Primitive.WriteKey(a, k); Ok([tok])
    case EnumAdapter(_) => var tok :- Enum.WriteKey(k); Ok([tok])
    case UserAdapter(id) => Err(UserCode(id))
    case _ => Err(KeyOperationUnsupported)
  }

  // ----- reading -----

  /** `readObject(t)`: resolve `t`, then the adapter's `read`. */
  function Read(r: Resolver, t: TypeDesc, toks: seq<Token>): (res: Res<(Value, seq<Token>)>)
    ensures res.Ok? ==> |res.value.1| < |toks|
    decreases |toks|, 2
  {
    var a :- Resolve(r, t);
    ReadWith(r, a, toks)
  }

  /** An adapter's `read`. Collections, maps and beans are read into a fresh
      container of the adapter's class. */
  function ReadWith(r: Resolver, a: Adapter, toks: seq<Token>): (res: Res<(Value, seq<Token>)>)
    ensures res.Ok? ==> |res.value.1| < |toks|
    ensures res.Ok? && a.CollectionAdapter? ==> res.value.0.VColl? && res.value.0.impl == a.impl
    ensures res.Ok? && a.MapAdapter? ==> res.value.0.VMap?
    ensures res.Ok? && a.BeanAdapter? ==> res.value.0.VBean? && res.value.0.cls == a.cls
    decreases |toks|, 1
  {
    match a
    case StringAdapter | IntAdapter | LongAdapter | FloatAdapter | DoubleAdapter | BooleanAdapter =>
      Primitive.Read(a, toks)
    case EnumAdapter(c) => Enum.Read(r.world, c, toks)
    case CollectionAdapter(impl, et) =>
      var rest :- ExpectToken(toks, EnterList);
      ReadElems(r, impl, et, rest, [])
    case MapAdapter(kt, vt) =>
      var rest :- ExpectToken(toks, EnterObject);
      ReadEntries(r, kt, vt, rest, [])
    case BeanAdapter(c) =>
      var info := Info(r.world, c);
      if !info.publicNoArgCtor || info.isAbstract then Err(InstantiationFailed(c))
      else
        var rest :- ExpectToken(toks, EnterObject);
        ReadFields(r, c, rest, info.initial)
    case JsonPrimitiveAdapter => Gson.ReadPrimitive(toks)
    case JsonArrayAdapter => Gson.ReadArray(toks)
    case JsonObjectAdapter => Gson.ReadObject(toks)
    case UserAdapter(id) => Err(UserCode(id))
  }

  /** The collection read loop: elements until `ExitList`, each added to
      the container. */
  function ReadElems(r: Resolver, impl: CollImpl, et: TypeDesc, toks: seq<Token>, acc: seq<Value>)
    : (res: Res<(Value, seq<Token>)>)
    ensures res.Ok? ==> |res.value.1| < |toks|
    ensures res.Ok? ==> res.value.0.VColl? && res.value.0.impl == impl
    decreases |toks|, 3
  {
    var k :- PeekKind(toks);
    if k == EXIT_LIST then
      match ExpectToken(toks, ExitList)
      case Ok(rest) => Ok((VColl(impl, acc), rest))
      case Err(e) => Err(e)
    else
      var p :- Read(r, et, toks);
      ReadElems(r, impl, et, p.1, Coll.Add(impl, acc, p.0))
  }

  /** The map read loop: a key, then a value, until `ExitObject`; a repeated
      key overwrites the earlier value. */
  function ReadEntries(r: Resolver, kt: TypeDesc, vt: TypeDesc, toks: seq<Token>, acc: seq<(Value, Value)>)
    : (res: Res<(Value, seq<Token>)>)
    ensures res.Ok? ==> |res.value.1| < |toks|
    ensures res.Ok? ==> res.value.0.VMap?
    decreases |toks|, 3
  {
    var k :- PeekKind(toks);
    if k == EXIT_OBJECT then
      match ExpectToken(toks, ExitObject)
      case Ok(rest) => Ok((VMap(acc), rest))
      case Err(e) => Err(e)
    else
      var key :- ReadKey(r, kt, toks);
      var p :- Read(r, vt, key.1);
      ReadEntries(r, kt, vt, p.1, Put(acc, key.0, p.0))
  }

  /** The bean read loop: properties until `ExitObject`. */
  function ReadFields(r: Resolver, c: ClassName, toks: seq<Token>, state: seq<(string, Value)>)
    : (res: Res<(Value, seq<Token>)>)
    ensures res.Ok? ==> |res.value.1| < |toks|
    ensures res.Ok? ==> res.value.0.VBean? && res.value.0.cls == c
    decreases |toks|, 3
  {
    var k :- PeekKind(toks);
    if k == EXIT_OBJECT then
      match ExpectToken(toks, ExitObject)
      case Ok(rest) => Ok((VBean(c, state), rest))
      case Err(e) => Err(e)
    else
      var p :- ReadProperty(r, c, toks, state);
      ReadFields(r, c, p.1, p.0)
  }

  /** One pass of the bean read loop: a key; a key without a one-argument
      setter has its whole value skipped; otherwise the value is read with
      the setter's parameter type and handed to the setter. */
  function ReadProperty(r: Resolver, c: ClassName, toks: seq<Token>, state: seq<(string, Value)>)
    : (res: Res<(seq<(string, Value)>, seq<Token>)>)
    ensures res.Ok? ==> |res.value.1| < |toks|
    decreases |toks|, 0
  {
    var key :- TokenStream.ReadKey(toks);
    match Bean.SetterName(key.0)
    case None => Err(EmptyKey)
    case Some(setter) =>
      var ms := Info(r.world, c).methods;
      match Bean.FindSetter(ms, setter)
      case None =>
        var rest :- SkipValue(key.1);
        Ok((state, rest))
      case Some(j) =>
        var p :- Read(r, ms[j].params[0], key.1);
        Ok((Bean.Invoke(ms[j], state, p.0), p.1))
  }

  /** `readObjectKey(t)`: resolve `t`, then the adapter's `readKey`. */
  function ReadKey(r: Resolver, t: TypeDesc, toks: seq<Token>): (res: Res<(Value, seq<Token>)>)
    ensures res.Ok? ==> |res.value.1| < |toks|
  {
    var a :- Resolve(r, t);
    ReadKeyWith(r, a, toks)
  }

  /** `readKey`, with the same key forms as `writeKey`. */
  function ReadKeyWith(r: Resolver, a: Adapter, toks: seq<Token>): (res: Res<(Value, seq<Token>)>)
    ensures res.Ok? ==> |res.value.1| < |toks|
    ensures !(IsPrimitiveAdapter(a) || a.EnumAdapter? || a.UserAdapter?) ==> res == Err(KeyOperationUnsupported)
  {
    match a
    case StringAdapter | IntAdapter | LongAdapter | FloatAdapter | DoubleAdapter | BooleanAdapter =>
      Primitive.ReadKey(a, toks)
    case EnumAdapter(c) => Enum.ReadKey(r.world, c, toks)
    case UserAdapter(id) => Err(UserCode(id))
    case _ => Err(KeyOperationUnsupported)
  }

  // ----- the document handler -----

  /** `DocumentHandler.write(target, o)`: the root is resolved by its runtime
      class; a `null` root fails on `o.getClass()`. */
  function WriteDocument(r: Resolver, v: Value): (res: Res<seq<Token>>)
    ensures v.VNull? ==> res == Err(NullPointer)
  {
    if v.VNull? then Err(NullPointer) else Write(r, ClassT(RuntimeClass(v)), v)
  }

  /** `DocumentHandler.read(source, type)`: the root is resolved by the class passed in. */
  function ReadDocument(r: Resolver, c: ClassName, toks: seq<Token>): (res: Res<(Value, seq<Token>)>)
    ensures res.Ok? ==> |res.value.1| < |toks|
  {
    Read(r, ClassT(c), toks)
  }
}
