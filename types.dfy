/** Type descriptors: the model of `java.lang.reflect.Type` as the engine sees it. */
module Types {

  /** Java's 32-bit and 64-bit two's-complement ranges. */
  const MinInt: int := -0x8000_0000
  const MaxInt: int := 0x7FFF_FFFF
  const MinLong: int := -0x8000_0000_0000_0000
  const MaxLong: int := 0x7FFF_FFFF_FFFF_FFFF

  type Int32 = x: int | MinInt <= x <= MaxInt
  type Int64 = x: int | MinLong <= x <= MaxLong

  /** The classes the engine tests by identity, and every other class by name.
      `Boxed*` is the wrapper class (`Integer.class`), `Prim*` the primitive
      class (`int.class`). */
  datatype ClassName =
    | StringClass | CharSequenceClass
    | BoxedInt | PrimInt | BoxedLong | PrimLong
    | BoxedFloat | PrimFloat | BoxedDouble | PrimDouble
    | BoxedBoolean | PrimBoolean
    | ObjectClass
    | ListIface | SetIface | CollectionIface | QueueIface | MapIface
    | ArrayListClass | LinkedHashSetClass | ArrayDequeClass | LinkedHashMapClass
    | JsonPrimitiveClass | JsonArrayClass | JsonObjectClass
    | UserClass(name: string)

  /** A requested type: a plain class, a parameterized type (raw class plus
      ordered type arguments), or any other kind of `Type` (type variable,
      wildcard, generic array), which no built-in factory accepts. */
  datatype TypeDesc =
    | ClassT(cls: ClassName)
    | Param(raw: ClassName, args: seq<TypeDesc>)
    | Other(id: nat)

  /** `getRawType()` for a parameterized type; other types are unchanged. */
  function RawType(t: TypeDesc): (r: TypeDesc)
    ensures !r.Param?
    ensures t.Param? ==> r == ClassT(t.raw)
    ensures !t.Param? ==> r == t
  {
    if t.Param? then ClassT(t.raw) else t
  }
}
