/** `CollectionTypeAdapterFactory`: `List`, `Set`, `Collection` and `Queue`
    of some element type, each read into a fresh container of a fixed class. */
module CollectionTypeAdapterFactory {
  import opened Wrappers
  import opened Types
  import opened Values
  import opened Adapters

  /** The `implementations` table: the raw interface and the container a read builds. */
  const Implementations: map<ClassName, CollImpl> := map[
    ListIface := ArrayListImpl,
    SetIface := LinkedHashSetImpl,
    CollectionIface := ArrayListImpl,
    QueueIface := ArrayDequeImpl]

  /** Only a parameterized type whose raw class is exactly one of the table's
      keys is accepted; the element type is its first argument. (A Java
      `ParameterizedType` always has an argument; a descriptor without one
      is declined.) */
  function CreateTypeAdapter(t: TypeDesc): (r: Option<Adapter>)
    ensures r.Some? <==> t.Param? && t.raw in Implementations && |t.args| > 0
    ensures r.Some? ==> r.value == CollectionAdapter(Implementations[t.raw], t.args[0])
  {
    if t.Param? && t.raw in Implementations && |t.args| > 0 then
      Some(CollectionAdapter(Implementations[t.raw], t.args[0]))
    else None
  }

  /** A raw `List` and a parameterized concrete class such as `ArrayList<E>`
      are both declined. */
  lemma OnlyParameterizedInterfaces(c: ClassName, args: seq<TypeDesc>)
    ensures CreateTypeAdapter(ClassT(c)).None?
    ensures c !in {ListIface, SetIface, CollectionIface, QueueIface} ==> CreateTypeAdapter(Param(c, args)).None?
  {
  }

  /** `objects.add(x)` on the fresh container: lists and deques append, the
      `LinkedHashSet` ignores an element it already holds. */
  function Add(impl: CollImpl, acc: seq<Value>, x: Value): (r: seq<Value>)
    ensures x in r && acc <= r
    ensures impl != LinkedHashSetImpl ==> |r| == |acc| + 1
    ensures impl == LinkedHashSetImpl ==> (r == acc <==> x in acc) && |r| <= |acc| + 1
  {
    if impl == LinkedHashSetImpl && x in acc then acc else acc + [x]
  }

  /** The contents after adding `xs` in order: what the container held
      stays in front, and at most one element is added per element read. */
  function AddAll(impl: CollImpl, acc: seq<Value>, xs: seq<Value>): (r: seq<Value>)
    ensures acc <= r && |r| <= |acc| + |xs|
    ensures impl != LinkedHashSetImpl ==> |r| == |acc| + |xs|
    decreases |xs|
  {
    if xs == [] then acc else AddAll(impl, Add(impl, acc, xs[0]), xs[1..])
  }

  /** The first-occurrence de-duplication of `xs[..n]`, stated on the input:
      an element is kept iff it does not occur earlier in the input. */
  function FirstOccurrences(xs: seq<Value>, n: nat): seq<Value>
    requires n <= |xs|
  {
    if n == 0 then []
    else FirstOccurrences(xs, n - 1) + (if xs[n - 1] in xs[..n - 1] then [] else [xs[n - 1]])
  }

  lemma {:induction false} FirstOccurrencesMembers(xs: seq<Value>, n: nat)
    requires n <= |xs|
    ensures forall x :: x in FirstOccurrences(xs, n) <==> x in xs[..n]
  {
    if n > 0 {
      FirstOccurrencesMembers(xs, n - 1);
      assert xs[..n] == xs[..n - 1] + [xs[n - 1]];
    }
  }

  /** A `LinkedHashSet` read from a fresh container holds the elements read
      in the order of their first occurrence. */
  lemma AddAllFirstOccurrences(xs: seq<Value>)
    ensures AddAll(LinkedHashSetImpl, [], xs) == FirstOccurrences(xs, |xs|)
  {
    AddAllFrom(xs, 0);
    assert xs[0..] == xs;
  }

  lemma {:induction false} AddAllFrom(xs: seq<Value>, k: nat)
    requires k <= |xs|
    ensures AddAll(LinkedHashSetImpl, FirstOccurrences(xs, k), xs[k..]) == FirstOccurrences(xs, |xs|)
    decreases |xs| - k
  {
    if k < |xs| {
      FirstOccurrencesMembers(xs, k);
      assert xs[k..][0] == xs[k] && xs[k..][1..] == xs[k + 1..];
      assert xs[..k + 1][..k] == xs[..k];
      assert Add(LinkedHashSetImpl, FirstOccurrences(xs, k), xs[k]) == FirstOccurrences(xs, k + 1);
      AddAllFrom(xs, k + 1);
    }
  }

  predicate Distinct(xs: seq<Value>) {
    forall i, j :: 0 <= i < j < |xs| ==> xs[i] != xs[j]
  }

  /** A list or queue read keeps every element in stream order. */
  lemma {:induction false} AddAllAppends(impl: CollImpl, acc: seq<Value>, xs: seq<Value>)
    requires impl != LinkedHashSetImpl
    ensures AddAll(impl, acc, xs) == acc + xs
    decreases |xs|
  {
    if xs != [] {
      AddAllAppends(impl, acc + [xs[0]], xs[1..]);
      assert acc + [xs[0]] + xs[1..] == acc + xs;
    }
  }

  /** A set read never holds an element twice, holds exactly the elements
      seen, and keeps the order of first occurrence: when the input has no
      repeats nothing is dropped. */
  lemma {:induction false} AddAllSet(acc: seq<Value>, xs: seq<Value>)
    requires Distinct(acc)
    ensures Distinct(AddAll(LinkedHashSetImpl, acc, xs))
    ensures forall x :: x in AddAll(LinkedHashSetImpl, acc, xs) <==> x in acc || x in xs
    ensures Distinct(acc + xs) ==> AddAll(LinkedHashSetImpl, acc, xs) == acc + xs
    decreases |xs|
  {
    if xs != [] {
      var acc' := AddSetStep(acc, xs[0]);
      AddAllSet(acc', xs[1..]);
      assert forall x :: x in xs <==> x == xs[0] || x in xs[1..] by {
        assert xs == [xs[0]] + xs[1..];
      }
      if Distinct(acc + xs) {
        DistinctHead(acc, xs);
      }
    }
  }

  /** One set `add` keeps the contents distinct and adds exactly `x`. */
  lemma AddSetStep(acc: seq<Value>, x: Value) returns (acc': seq<Value>)
    requires Distinct(acc)
    ensures acc' == Add(LinkedHashSetImpl, acc, x)
    ensures Distinct(acc')
    ensures forall y :: y in acc' <==> y in acc || y == x
  {
    acc' := Add(LinkedHashSetImpl, acc, x);
    if x !in acc {
      assert acc' == acc + [x];
      forall i, j | 0 <= i < j < |acc'| ensures acc'[i] != acc'[j] {
        if j == |acc| { assert acc'[i] == acc[i]; }
      }
    }
  }

  /** When `acc + xs` has no repeats, the head of `xs` is new to `acc`. */
  lemma DistinctHead(acc: seq<Value>, xs: seq<Value>)
    requires xs != [] && Distinct(acc + xs)
    ensures Add(LinkedHashSetImpl, acc, xs[0]) + xs[1..] == acc + xs
    ensures Distinct(Add(LinkedHashSetImpl, acc, xs[0]) + xs[1..])
  {
    assert xs[0] == (acc + xs)[|acc|];
    assert xs[0] !in acc by {
      forall i | 0 <= i < |acc| ensures acc[i] != xs[0] {
        assert acc[i] == (acc + xs)[i];
      }
    }
    assert acc + [xs[0]] + xs[1..] == acc + xs;
  }
}
