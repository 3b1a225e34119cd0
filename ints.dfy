/** Machine integers shared by the exercises: Rust's `u32`. */
module Ints {

  /** 2^32, the number of values of a `u32`. */
  const U32Limit: int := 0x1_0000_0000

  /** The values a Rust `u32` can hold. */
  type U32 = x: int | 0 <= x < U32Limit
}
