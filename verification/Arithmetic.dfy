/** Integer arithmetic behind the fixed-point library: truncating division and
    the product facts the solver does not find on its own. */
module Arithmetic {

  /** `BigNumber.div`: division that truncates toward zero. */
  function TruncDiv(n: int, d: int): int
    requires d != 0
  {
    if n >= 0 then n / d else -((-n) / d)
  }

  lemma MulLe(a: int, b: int, c: int)
    requires a <= b && 0 <= c
    ensures a * c <= b * c
  {
    assert 0 <= (b - a) * c;
  }

  lemma MulLe2(a: int, b: int, c: int, d: int)
    requires 0 <= a <= b && 0 <= c <= d
    ensures 0 <= a * c <= b * d
  {
    MulLe(a, b, c);
    MulLe(c, d, b);
    MulLe(0, a, c);
  }

  /** A factor can be cancelled from an inequality. */
  lemma MulCancelLt(a: int, b: int, c: int)
    requires a * c < b * c && 0 <= c
    ensures a < b
  {
    if b <= a {
      MulLe(b, a, c);
    }
  }

  lemma MulCancelLe(a: int, b: int, c: int)
    requires a * c <= b * c && 0 < c
    ensures a <= b
  {
    assert (b + 1) * c == b * c + c;
    if b < a {
      MulLe(b + 1, a, c);
    }
  }

  /** Division by a positive divisor, in the only form the proofs use. */
  lemma DivBounds(n: int, d: int)
    requires 0 < d
    ensures (n / d) * d <= n < (n / d) * d + d
  {
  }

  lemma DivMonotone(n: int, m: int, d: int)
    requires n <= m && 0 < d
    ensures n / d <= m / d
  {
    DivBounds(n, d);
    DivBounds(m, d);
    var p, q := n / d, m / d;
    assert (q + 1) * d == q * d + d;
    if q < p {
      MulLe(q + 1, p, d);
    }
  }

  lemma RealMulLe(a: real, b: real, c: real)
    requires a <= b && 0.0 <= c
    ensures a * c <= b * c
  {
    assert 0.0 <= (b - a) * c;
  }
}
