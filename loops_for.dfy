/** The factorial of the "for loops" exercise, computed in a `u32` accumulator. */
module LoopsFor {
  import opened Ints

  /** n!, the product 1 * 2 * ... * n; 0! is 1. */
  function Fact(n: nat): (r: nat)
    ensures 1 <= r
  {
    if n == 0 then 1 else n * Fact(n - 1)
  }

  /** The product lo * (lo + 1) * ... * hi, taken in the order the loop `for i in lo..=hi` visits; 1 when the range is empty. */
  function RangeProduct(lo: nat, hi: nat): nat
    decreases hi + 1 - lo
  {
    if lo > hi then 1 else lo * RangeProduct(lo + 1, hi)
  }

  /** Multiplying a range product by the next number extends the range. */
  lemma {:induction false} RangeProductExtend(lo: nat, hi: nat)
    requires lo <= hi + 1
    ensures RangeProduct(lo, hi + 1) == RangeProduct(lo, hi) * (hi + 1)
    decreases hi + 1 - lo
  {
    if lo <= hi {
      var p := RangeProduct(lo + 1, hi);
      calc {
        RangeProduct(lo, hi + 1);
        lo * RangeProduct(lo + 1, hi + 1);
        { RangeProductExtend(lo + 1, hi); }
        lo * (p * (hi + 1));
        { MulAssociative(lo, p, hi + 1); }
        (lo * p) * (hi + 1);
        RangeProduct(lo, hi) * (hi + 1);
      }
    } else {
      assert RangeProduct(lo + 1, hi + 1) == 1;
    }
  }

  /** Associativity of multiplication, the nonlinear step RangeProductExtend needs spelled out. */
  lemma MulAssociative(a: nat, b: nat, c: nat)
    ensures a * (b * c) == (a * b) * c
  {
  }

  /** What the loop over `2..=n` multiplies together is n!. */
  lemma {:induction false} FactIsRangeProduct(n: nat)
    ensures Fact(n) == RangeProduct(2, n)
  {
    if n >= 2 {
      FactIsRangeProduct(n - 1);
      RangeProductExtend(2, n - 1);
    }
  }

  lemma {:induction false} FactMonotone(m: nat, n: nat)
    requires m <= n
    ensures Fact(m) <= Fact(n)
  {
    if m < n {
      FactMonotone(m, n - 1);
    }
  }

  /** n! fits in a `u32` exactly when n is at most 12: 12! = 479001600, 13! = 6227020800. */
  lemma FactFitsU32Iff(n: nat)
    ensures Fact(n) < U32Limit <==> n <= 12
  {
    assert Fact(12) == 479001600;
    assert Fact(13) == 6227020800;
    if n <= 12 {
      FactMonotone(n, 12);
    } else {
      FactMonotone(13, n);
    }
  }

  /** How `factorial` ends: it returns a value, or `result *= i` overflows and panics at `i`. */
  datatype Outcome = Returned(value: U32) | OverflowPanic(at: U32)

  /**
   * `factorial(n)`, with the overflow check of a debug build: it returns n!
   * when n! fits in a `u32`, that is when n <= 12, and otherwise panics when
   * the loop reaches i = 13.
   */
  method Factorial(n: U32) returns (r: Outcome)
    ensures n <= 12 ==> r.Returned? && r.value == Fact(n)
    ensures 12 < n ==> r == OverflowPanic(13)
  {
    var result: U32 := 1;
    if 2 <= n {
      for i := 2 to n + 1
        invariant result == Fact(i - 1)
      {
        if result * i >= U32Limit {
          FactFitsU32Iff(i - 1);
          FactFitsU32Iff(i);
          return OverflowPanic(i);
        }
        result := result * i;
      }
    }
    FactFitsU32Iff(n);
    return Returned(result);
  }
}
