/** Division with remainder, and the mixed-radix indices built from it. */
module Arith {

  /** a = q * b + r with 0 <= r < b determines quotient and remainder. */
  lemma DivModIs(a: int, b: int, q: int, r: int)
    requires 0 <= r < b && a == q * b + r
    ensures a / b == q && a % b == r
  {
    var q', r' := a / b, a % b;
    assert a == b * q' + r' && 0 <= r' < b;
    assert (q - q') * b == r' - r;
    if q > q' {
      MulMono(1, q - q', b);
    } else if q < q' {
      MulMono(q - q', -1, b);
    }
  }

  lemma DivModOf(a: int, b: int)
    requires b > 0
    ensures a == (a / b) * b + a % b && 0 <= a % b < b
  {
  }

  lemma DivisionOfNat(a: nat, b: nat)
    requires b > 0
    ensures a / b >= 0 && a % b >= 0
  {
  }

  lemma MulMono(x: int, y: int, b: int)
    requires x <= y && 0 <= b
    ensures x * b <= y * b
  {
    assert (y - x) * b >= 0;
  }

  lemma MulAssociates(a: int, b: int, c: int)
    ensures (a * b) * c == a * (b * c)
  {
  }

  /** Row q of n rows of width b ends inside n * b. */
  lemma RowFits(q: int, n: int, b: int)
    requires 0 <= q < n && 0 <= b
    ensures 0 <= q * b && q * b + b <= n * b
  {
    MulMono(0, q, b);
    MulMono(q + 1, n, b);
    assert (q + 1) * b == q * b + b;
  }

  /** An index below n * b decodes to a row below n. */
  lemma DivBelow(a: int, n: int, b: int)
    requires 0 <= a < n * b && 0 < b
    ensures 0 <= a / b < n
  {
    DivModOf(a, b);
    if a / b >= n {
      MulMono(n, a / b, b);
    }
    if a / b < 0 {
      MulMono(a / b, -1, b);
    }
  }

  /** The ceiling division of the launch and block-count computations. */
  lemma CeilDivIs(a: int, b: int)
    requires 0 <= a && 0 < b
    ensures ((a + b - 1) / b) * b >= a
    ensures ((a + b - 1) / b) * b < a + b
    ensures (a + b - 1) / b >= 0
  {
    DivModOf(a + b - 1, b);
    if (a + b - 1) / b < 0 {
      MulMono((a + b - 1) / b, -1, b);
    }
  }
}
