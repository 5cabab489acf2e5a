/** The tree the parser builds and the formatter can print: Java `null`,
    `Boolean`, `Integer`, `Long`, `BigDecimal`, `String`, `List` and `Map`. */
module JsonValue {
  import opened CodeUnits

  const INT_MIN: int := -0x8000_0000
  const INT_MAX: int := 0x7FFF_FFFF
  const LONG_MIN: int := -0x8000_0000_0000_0000
  const LONG_MAX: int := 0x7FFF_FFFF_FFFF_FFFF

  predicate IsInt32(n: int)
  {
    INT_MIN <= n <= INT_MAX
  }

  predicate IsInt64(n: int)
  {
    LONG_MIN <= n <= LONG_MAX
  }

  type Int32 = n: int | IsInt32(n)

  type Int64 = n: int | IsInt64(n)

  /** A `BigDecimal` is kept as the exact literal text it was built from. */
  datatype Value =
    | Null
    | Boolean(b: bool)
    | Integer(i: Int32)
    | Long(l: Int64)
    | BigDecimal(literal: Text)
    | Str(s: Text)
    | List(items: seq<Value>)
    | Map(members: seq<Member>)

  /** An entry of a `Map`, in the order the parser met it. */
  datatype Member = Member(key: Text, value: Value)

  function Keys(members: seq<Member>): (keys: seq<Text>)
    ensures |keys| == |members|
    ensures forall k :: 0 <= k < |members| ==> keys[k] == members[k].key
  {
    seq(|members|, k requires 0 <= k < |members| => members[k].key)
  }

  predicate DistinctKeys(members: seq<Member>)
  {
    forall j, k :: 0 <= j < k < |members| ==> members[j].key != members[k].key
  }
}
