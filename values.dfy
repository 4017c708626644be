/** The Java objects the engine reads and writes, as a finite value universe. */
module Values {
  import opened Types
  import opened Tokens
  import opened Wrappers

  /** The concrete collection a read builds (`ArrayList`, `LinkedHashSet`, `ArrayDeque`). */
  datatype CollImpl = ArrayListImpl | LinkedHashSetImpl | ArrayDequeImpl

  /** The payload of a Gson `JsonPrimitive`. */
  datatype JsonPrim = JStr(s: string) | JBool(b: bool) | JNum(n: Num)

  datatype Value =
    | VNull
    | VStr(s: string)
    | VInt(i: Int32)
    | VLong(l: Int64)
    | VFloat(f: Num)
    | VDouble(d: Num)
    | VBool(b: bool)
    | VEnum(cls: ClassName, name: string)
      /** A collection in iteration order. */
    | VColl(impl: CollImpl, elems: seq<Value>)
      /** A `LinkedHashMap` in insertion order. */
    | VMap(entries: seq<(Value, Value)>)
      /** A bean instance of class `cls`; `state` holds its properties by slot name. */
    | VBean(cls: ClassName, state: seq<(string, Value)>)
      /** Gson trees: `JsonPrimitive`, `JsonArray`, `JsonObject` (members in insertion order). */
    | VJsonPrim(p: JsonPrim)
    | VJsonArr(items: seq<Value>)
    | VJsonObj(members: seq<(string, Value)>)

  /** `o.getClass()` of a non-null object. An enum constant is taken to
      have no class body of its own, so its class is the declared enum. */
  function RuntimeClass(v: Value): (c: ClassName)
    requires !v.VNull?
    ensures v.VEnum? || v.VBean? ==> c == v.cls
    ensures !v.VEnum? && !v.VBean? ==>
      !c.UserClass? && c !in {ObjectClass, CharSequenceClass, ListIface, SetIface, CollectionIface, QueueIface, MapIface}
  {
    match v
    case VStr(_) => StringClass
    case VInt(_) => BoxedInt
    case VLong(_) => BoxedLong
    case VFloat(_) => BoxedFloat
    case VDouble(_) => BoxedDouble
    case VBool(_) => BoxedBoolean
    case VEnum(c, _) => c
    case VColl(impl, _) =>
      (match impl
       case ArrayListImpl => ArrayListClass
       case LinkedHashSetImpl => LinkedHashSetClass
       case ArrayDequeImpl => ArrayDequeClass)
    case VMap(_) => LinkedHashMapClass
    case VBean(c, _) => c
    case VJsonPrim(_) => JsonPrimitiveClass
    case VJsonArr(_) => JsonArrayClass
    case VJsonObj(_) => JsonObjectClass
  }

  /** Keys of an association list, in order. */
  function Keys<K, V>(entries: seq<(K, V)>): (ks: seq<K>)
    ensures |ks| == |entries|
    ensures forall i :: 0 <= i < |entries| ==> ks[i] == entries[i].0
  {
    if entries == [] then [] else [entries[0].0] + Keys(entries[1..])
  }

  /** `LinkedHashMap.put` / `LinkedTreeMap.put`: an existing key keeps its
      position and takes the new value; a new key is appended. */
  function Put<K(==), V>(entries: seq<(K, V)>, k: K, v: V): (r: seq<(K, V)>)
    ensures (k, v) in r
    ensures |r| == if k in Keys(entries) then |entries| else |entries| + 1
    ensures forall i :: 0 <= i < |r| && r[i].0 != k ==> i < |entries| && r[i] == entries[i]
  {
    match IndexOf(entries, k)
    case None => entries + [(k, v)]
    case Some(i) => assert entries[i := (k, v)][i] == (k, v); entries[i := (k, v)]
  }

  /** The position of the first entry with key `k`. */
  function IndexOf<K(==), V>(entries: seq<(K, V)>, k: K): (r: Option<nat>)
    ensures r.None? <==> k !in Keys(entries)
    ensures r.Some? ==> r.value < |entries| && entries[r.value].0 == k
    ensures r.Some? ==> forall j :: 0 <= j < r.value ==> entries[j].0 != k
  {
    if entries == [] then None
    else if entries[0].0 == k then Some(0)
    else match IndexOf(entries[1..], k)
         case None => None
         case Some(i) => Some(i + 1)
  }

  /** Looking a key up in an association list: the value of its first entry. */
  function Lookup<K(==), V>(entries: seq<(K, V)>, k: K): (r: Option<V>)
  {
    match IndexOf(entries, k)
    case None => None
    case Some(i) => Some(entries[i].1)
  }

  /** Two association lists with the same keys in the same order find
      every key at the same position. */
  lemma {:induction false} IndexOfSameKeys<K, V>(a: seq<(K, V)>, b: seq<(K, V)>, k: K)
    requires |a| == |b| && forall i :: 0 <= i < |a| ==> a[i].0 == b[i].0
    ensures IndexOf(a, k) == IndexOf(b, k)
    decreases |a|
  {
    if a != [] && a[0].0 != k {
      IndexOfSameKeys(a[1..], b[1..], k);
    }
  }

  /** `Put` keeps every existing key in place and appends only a new one. */
  lemma PutKeys<K, V>(entries: seq<(K, V)>, k: K, v: V)
    ensures Keys(Put(entries, k, v)) == if k in Keys(entries) then Keys(entries) else Keys(entries) + [k]
  {
    var r := Put(entries, k, v);
    if k in Keys(entries) {
      assert Keys(r) == Keys(entries) by {
        assert forall i :: 0 <= i < |r| ==> Keys(r)[i] == Keys(entries)[i];
      }
    } else {
      assert Keys(r) == Keys(entries) + [k] by {
        assert forall i :: 0 <= i < |r| ==> Keys(r)[i] == (Keys(entries) + [k])[i];
      }
    }
  }

  /** After `Put`, looking the key up gives the new value, and every other
      key's value is unchanged. */
  lemma LookupPut<K, V>(entries: seq<(K, V)>, k: K, v: V, k': K)
    ensures Lookup(Put(entries, k, v), k') == if k' == k then Some(v) else Lookup(entries, k')
  {
    var r := Put(entries, k, v);
    match IndexOf(entries, k)
    case Some(i) =>
      IndexOfSameKeys(r, entries, k');
    case None =>
      var j := IndexOf(r, k');
      if k' == k {
        assert j == Some(|entries|) by {
          assert r[|entries|].0 == k;
          assert Keys(r) == Keys(entries) + [k] by { PutKeys(entries, k, v); }
        }
      } else {
        IndexOfPrefix(entries, [(k, v)], k');
      }
  }

  /** Appending entries with other keys does not move any key. */
  lemma {:induction false} IndexOfPrefix<K, V>(a: seq<(K, V)>, b: seq<(K, V)>, k: K)
    requires forall i :: 0 <= i < |b| ==> b[i].0 != k
    ensures IndexOf(a + b, k) == IndexOf(a, k)
    decreases |a|
  {
    if a == [] {
      assert a + b == b;
      assert forall i :: 0 <= i < |b| ==> Keys(b)[i] != k;
    } else {
      assert (a + b)[1..] == a[1..] + b;
      IndexOfPrefix(a[1..], b, k);
    }
  }

  /** `put` of each entry in turn. */
  function PutAll<K(==), V>(acc: seq<(K, V)>, xs: seq<(K, V)>): seq<(K, V)>
    decreases |xs|
  {
    if xs == [] then acc else PutAll(Put(acc, xs[0].0, xs[0].1), xs[1..])
  }

  lemma PutAllCons<K, V>(acc: seq<(K, V)>, xs: seq<(K, V)>, i: nat)
    requires i < |xs|
    ensures PutAll(acc, xs[i..]) == PutAll(Put(acc, xs[i].0, xs[i].1), xs[i + 1..])
  {
    assert xs[i..][1..] == xs[i + 1..];
  }

  predicate DistinctKeys<K(==), V>(entries: seq<(K, V)>) {
    forall i, j :: 0 <= i < j < |entries| ==> entries[i].0 != entries[j].0
  }

  /** Putting a new key appends its entry. */
  lemma PutFresh<K, V>(acc: seq<(K, V)>, k: K, v: V)
    requires k !in Keys(acc)
    ensures Put(acc, k, v) == acc + [(k, v)]
    ensures Keys(acc + [(k, v)]) == Keys(acc) + [k]
  {
    PutKeys(acc, k, v);
  }

  /** Putting entries whose keys are new and distinct appends them in order. */
  lemma {:induction false} PutAllFresh<K, V>(acc: seq<(K, V)>, xs: seq<(K, V)>)
    requires DistinctKeys(xs)
    requires forall j :: 0 <= j < |xs| ==> xs[j].0 !in Keys(acc)
    ensures PutAll(acc, xs) == acc + xs
    decreases |xs|
  {
    if xs != [] {
      var acc' := PutAllStep(acc, xs);
      PutAllFresh(acc', xs[1..]);
      AppendFirst(acc, xs);
    }
  }

  /** The first put of fresh distinct entries appends, and the rest stay fresh. */
  lemma PutAllStep<K, V>(acc: seq<(K, V)>, xs: seq<(K, V)>) returns (acc': seq<(K, V)>)
    requires xs != [] && DistinctKeys(xs)
    requires forall j :: 0 <= j < |xs| ==> xs[j].0 !in Keys(acc)
    ensures acc' == acc + [xs[0]]
    ensures PutAll(acc, xs) == PutAll(acc', xs[1..])
    ensures DistinctKeys(xs[1..])
    ensures forall j :: 0 <= j < |xs[1..]| ==> xs[1..][j].0 !in Keys(acc')
  {
    var k := xs[0].0;
    acc' := acc + [xs[0]];
    var tl := xs[1..];
    PutFresh(acc, k, xs[0].1);
    assert Put(acc, k, xs[0].1) == acc';
    forall j | 0 <= j < |tl|
      ensures tl[j].0 !in Keys(acc')
    {
      assert tl[j] == xs[j + 1];
      assert xs[0].0 != xs[j + 1].0;
      assert xs[j + 1].0 !in Keys(acc);
    }
    assert DistinctKeys(tl) by {
      forall i, j | 0 <= i < j < |tl|
        ensures tl[i].0 != tl[j].0
      {
        assert tl[i] == xs[i + 1] && tl[j] == xs[j + 1];
      }
    }
  }

  lemma AppendFirst<T>(a: seq<T>, xs: seq<T>)
    requires xs != []
    ensures a + [xs[0]] + xs[1..] == a + xs
  {
    assert [xs[0]] + xs[1..] == xs;
  }

  lemma Regroup<T>(a: seq<T>, b: seq<T>, c: seq<T>, d: seq<T>)
    ensures a + b + c + d == a + (b + (c + d))
  {
  }
}
