/** Facts about multiplication and Euclidean division by a positive
    divisor, which the solver does not find by itself. */
module Arith {
  lemma MulGap(a: int, b: int, n: int)
    requires a < b && n > 0
    ensures a * n + n <= b * n
  {
    var d := b - a;
    assert b * n == a * n + d * n;
    MulAtLeast(d, n);
  }

  lemma {:induction false} MulAtLeast(d: int, n: int)
    requires d >= 1 && n > 0
    ensures d * n >= n
    decreases d
  {
    if d > 1 {
      MulAtLeast(d - 1, n);
      assert d * n == (d - 1) * n + n;
    }
  }

  /** Euclidean division is determined by quotient and remainder. */
  lemma DivByParts(x: int, n: int, q: int, rem: int)
    requires n > 0 && 0 <= rem < n && x == q * n + rem
    ensures x / n == q && x % n == rem
  {
    var q' := x / n;
    var rem' := x % n;
    assert x == q' * n + rem';
    if q' > q {
      MulGap(q, q', n);
      assert false;
    } else if q' < q {
      MulGap(q', q, n);
      assert false;
    }
  }
}
