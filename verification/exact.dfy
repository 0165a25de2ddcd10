/** Exact arithmetic. Money is counted in cents, so rounding to two decimals
    is rounding to a whole number of cents, ties going to the even one. */
module Exact {
  function RoundHalfEven(x: real): int {
    var whole := x.Floor;
    var rest := x - whole as real;
    if rest < 0.5 then whole
    else if rest > 0.5 then whole + 1
    else if whole % 2 == 0 then whole
    else whole + 1
  }

  /** A nearest whole number, the even one of two. */
  predicate IsNearest(n: int, x: real) {
    && -0.5 <= x - n as real <= 0.5
    && (x - n as real == 0.5 || x - n as real == -0.5 ==> n % 2 == 0)
  }

  /** Rounding gives the nearest whole number, the even one of two, and there is no other such. */
  lemma RoundIsNearest(x: real, n: int)
    ensures IsNearest(n, x) <==> n == RoundHalfEven(x)
  {
    var whole := x.Floor;
    assert whole as real <= x < (whole + 1) as real;
    if IsNearest(n, x) {
      assert n == whole || n == whole + 1;
    }
  }

  lemma RoundWhole(n: int)
    ensures RoundHalfEven(n as real) == n
  {
  }

  lemma RoundMonotone(x: real, y: real)
    requires x <= y
    ensures RoundHalfEven(x) <= RoundHalfEven(y)
  {
    assert x.Floor <= y.Floor;
  }

  lemma MulAtLeast(k: int, f: int)
    requires 1 <= f
    ensures 1 <= k ==> f <= k * f
    ensures k <= -1 ==> k * f <= -f
  {
    if 1 <= k {
      assert k * f == (k - 1) * f + f;
    } else if k <= -1 {
      assert k * f == (k + 1) * f - f;
    }
  }
}
