/** The `WrappingU32` value type of the Copy exercise and its `+`. */
module CopyTrait {
  import opened Ints

  /**
   * `u32::wrapping_add`: the sum, less 2^32 when it does not fit. The result
   * is the sum modulo 2^32, and the addition never fails.
   */
  function WrappingAdd(x: U32, y: U32): (r: U32)
    ensures r == (x + y) % U32Limit
  {
    if x + y < U32Limit then x + y else x + y - U32Limit
  }

  /** A `Copy` value: `+` consumes copies, so its operands keep their values. */
  datatype WrappingU32 = WrappingU32(value: U32) {

    /** `impl Add for WrappingU32`: wraps the sum of the two values into `u32`. */
    function Add(other: WrappingU32): (r: WrappingU32)
      ensures r.value == (value + other.value) % U32Limit
      ensures r.value < value <==> r.value < other.value
      ensures r.value < value <==> U32Limit <= value + other.value
    {
      New(WrappingAdd(value, other.value))
    }
  }

  /** `WrappingU32::new`: wraps `value` unchanged. */
  function New(value: U32): (w: WrappingU32)
    ensures w.value == value
  {
    WrappingU32(value)
  }

  /** Derived `PartialEq`: two wrappers are equal exactly when their values are. */
  lemma EqualIffSameValue(a: WrappingU32, b: WrappingU32)
    ensures a == b <==> a.value == b.value
  {
  }

  lemma AddCommutative(a: WrappingU32, b: WrappingU32)
    ensures a.Add(b) == b.Add(a)
  {
  }

  lemma AddAssociative(a: WrappingU32, b: WrappingU32, c: WrappingU32)
    ensures a.Add(b).Add(c) == a.Add(b.Add(c))
  {
  }

  /** `new(0)` is a two-sided identity for `+`. */
  lemma ZeroIsIdentity(a: WrappingU32)
    ensures New(0).Add(a) == a && a.Add(New(0)) == a
  {
  }

  /** No information is lost by `+`: each operand is determined by the other and the sum. */
  lemma AddCancels(a: WrappingU32, b: WrappingU32, c: WrappingU32)
    ensures a.Add(b) == a.Add(c) <==> b == c
  {
  }
}
