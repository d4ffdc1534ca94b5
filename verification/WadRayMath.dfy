/** Half-up fixed-point arithmetic: rays (27 decimals), wads (18 decimals) and
    percentages in basis points. */
module WadRayMath {
  import opened Arithmetic

  const RAY := 1_000_000_000_000_000_000_000_000_000
  const HALF_RAY := 500_000_000_000_000_000_000_000_000
  const WAD := 1_000_000_000_000_000_000
  const WAD_RAY_RATIO := 1_000_000_000
  const PERCENTAGE_FACTOR := 10_000
  const HALF_PERCENTAGE := 5_000

  function RayMul(a: int, b: int): int {
    TruncDiv(HALF_RAY + a * b, RAY)
  }

  function RayDiv(a: int, b: int): int
    requires b != 0
  {
    TruncDiv(TruncDiv(b, 2) + a * RAY, b)
  }

  function PercentMul(a: int, bps: int): int {
    TruncDiv(HALF_PERCENTAGE + a * bps, PERCENTAGE_FACTOR)
  }

  function PercentDiv(a: int, bps: int): int
    requires bps != 0
  {
    TruncDiv(TruncDiv(bps, 2) + a * PERCENTAGE_FACTOR, bps)
  }

  function WadToRay(a: int): int {
    a * WAD_RAY_RATIO
  }

  function RayToWad(a: int): int {
    TruncDiv(TruncDiv(WAD_RAY_RATIO, 2) + a, WAD_RAY_RATIO)
  }

  /** `q` is `n / d` rounded to the nearest integer, a half rounding up. */
  ghost predicate Rounds(q: int, n: int, d: int) {
    (2 * q - 1) * d <= 2 * n < (2 * q + 1) * d
  }

  lemma HalfUp(n: int, d: int)
    requires 0 < d && 0 <= n
    ensures Rounds(TruncDiv(TruncDiv(d, 2) + n, d), n, d)
    ensures 0 <= TruncDiv(TruncDiv(d, 2) + n, d)
  {
    hide Rounds;
    var h := d / 2;
    var q := (h + n) / d;
    assert 0 <= q && TruncDiv(TruncDiv(d, 2) + n, d) == q;
    DivBounds(h + n, d);
    RoundsFromProduct(q, n, d);
  }

  lemma RoundsFromProduct(q: int, n: int, d: int)
    ensures Rounds(q, n, d) <==> 2 * (q * d) - d <= 2 * n < 2 * (q * d) + d
  {
    assert (2 * q - 1) * d == 2 * (q * d) - d;
    assert (2 * q + 1) * d == 2 * (q * d) + d;
  }

  lemma RoundsUnique(q: int, p: int, n: int, d: int)
    requires 0 < d && Rounds(q, n, d) && Rounds(p, n, d)
    ensures q == p
  {
    MulCancelLt(2 * q - 1, 2 * p + 1, d);
    MulCancelLt(2 * p - 1, 2 * q + 1, d);
  }

  lemma RoundsMonotone(q: int, n: int, p: int, m: int, d: int)
    requires 0 < d && n <= m && Rounds(q, n, d) && Rounds(p, m, d)
    ensures q <= p
  {
    MulCancelLt(2 * q - 1, 2 * p + 1, d);
  }

  lemma RoundsAntitone(q: int, p: int, n: int, d: int, e: int)
    requires 0 < d <= e && 0 <= q && Rounds(q, n, d) && Rounds(p, n, e)
    ensures p <= q
  {
    if q < p {
      MulLe(2 * q + 1, 2 * p - 1, d);
      MulLe(d, e, 2 * p - 1);
    }
  }

  /** A quotient rounds to at most (at least) any integer that bounds it. */
  lemma RoundsAtMost(q: int, n: int, d: int, k: int)
    requires 0 < d && Rounds(q, n, d) && n <= k * d
    ensures q <= k
  {
    RoundsFromProduct(k, n, d);
    MulCancelLt(2 * q - 1, 2 * k + 1, d);
  }

  lemma RoundsAtLeast(q: int, n: int, d: int, k: int)
    requires 0 < d && Rounds(q, n, d) && k * d <= n
    ensures k <= q
  {
    RoundsFromProduct(k, n, d);
    MulCancelLt(2 * k - 1, 2 * q + 1, d);
  }

  /** The four operations are all half-up quotients. */
  lemma RayMulRounds(a: int, b: int)
    requires 0 <= a && 0 <= b
    ensures Rounds(RayMul(a, b), a * b, RAY) && 0 <= RayMul(a, b)
  {
    HalfUp(a * b, RAY);
  }

  lemma RayDivRounds(a: int, b: int)
    requires 0 <= a && 0 < b
    ensures Rounds(RayDiv(a, b), a * RAY, b) && 0 <= RayDiv(a, b)
  {
    HalfUp(a * RAY, b);
  }

  lemma PercentMulRounds(a: int, bps: int)
    requires 0 <= a && 0 <= bps
    ensures Rounds(PercentMul(a, bps), a * bps, PERCENTAGE_FACTOR) && 0 <= PercentMul(a, bps)
  {
    HalfUp(a * bps, PERCENTAGE_FACTOR);
  }

  lemma PercentDivRounds(a: int, bps: int)
    requires 0 <= a && 0 < bps
    ensures Rounds(PercentDiv(a, bps), a * PERCENTAGE_FACTOR, bps) && 0 <= PercentDiv(a, bps)
  {
    HalfUp(a * PERCENTAGE_FACTOR, bps);
  }

  lemma RayMulMonotone(a: int, b: int, c: int, d: int)
    requires 0 <= a <= c && 0 <= b <= d
    ensures 0 <= RayMul(a, b) <= RayMul(c, d)
  {
    MulLe2(a, c, b, d);
    RayMulRounds(a, b);
    RayMulRounds(c, d);
    RoundsMonotone(RayMul(a, b), a * b, RayMul(c, d), c * d, RAY);
  }

  lemma RayMulIdentity(a: int)
    requires 0 <= a
    ensures RayMul(RAY, a) == a && RayMul(a, RAY) == a
    ensures RayMul(0, a) == 0 && RayMul(a, 0) == 0
  {
  }

  /** Multiplying by at least a ray never shrinks a value. */
  lemma RayMulGrows(a: int, b: int)
    requires RAY <= a && 0 <= b
    ensures b <= RayMul(a, b)
  {
    RayMulIdentity(b);
    RayMulMonotone(RAY, b, a, b);
  }

  lemma RayDivMonotone(a: int, c: int, b: int)
    requires 0 <= a <= c && 0 < b
    ensures 0 <= RayDiv(a, b) <= RayDiv(c, b)
  {
    RayDivRounds(a, b);
    RayDivRounds(c, b);
    RoundsMonotone(RayDiv(a, b), a * RAY, RayDiv(c, b), c * RAY, b);
  }

  lemma RayDivAntitone(a: int, b: int, c: int)
    requires 0 <= a && 0 < b <= c
    ensures 0 <= RayDiv(a, c) <= RayDiv(a, b)
  {
    RayDivRounds(a, b);
    RayDivRounds(a, c);
    RoundsAntitone(RayDiv(a, b), RayDiv(a, c), a * RAY, b, c);
  }

  lemma RayDivZero(b: int)
    requires b != 0
    ensures RayDiv(0, b) == 0
  {
    if b > 0 {
      RayDivRounds(0, b);
      RoundsAtMost(RayDiv(0, b), 0, b, 0);
    } else {
      assert TruncDiv(b, 2) == -((-b) / 2);
      assert 0 <= (-b) / 2 < -b;
    }
  }

  /** A part of at most 100% never exceeds the whole; one of at least 100% covers it. */
  lemma PercentMulAgainstWhole(a: int, bps: int)
    requires 0 <= a && 0 <= bps
    ensures bps <= PERCENTAGE_FACTOR ==> PercentMul(a, bps) <= a
    ensures bps >= PERCENTAGE_FACTOR ==> PercentMul(a, bps) >= a
  {
    PercentMulRounds(a, bps);
    if bps <= PERCENTAGE_FACTOR {
      MulLe(bps, PERCENTAGE_FACTOR, a);
      RoundsAtMost(PercentMul(a, bps), a * bps, PERCENTAGE_FACTOR, a);
    }
    if bps >= PERCENTAGE_FACTOR {
      MulLe(PERCENTAGE_FACTOR, bps, a);
      RoundsAtLeast(PercentMul(a, bps), a * bps, PERCENTAGE_FACTOR, a);
    }
  }

  /** Scaling a stored balance up by an index and back down loses nothing. */
  lemma FullExit(s: int, i: int)
    requires 0 <= s && RAY <= i
    ensures RayDiv(RayMul(s, i), i) == s
  {
    var q := RayMul(s, i);
    RayMulRounds(s, i);
    RayDivRounds(q, i);
    assert (2 * q - 1) * RAY == 2 * (q * RAY) - RAY;
    assert (2 * s - 1) * i == 2 * (s * i) - i;
    assert (2 * s + 1) * i == 2 * (s * i) + i;
    assert Rounds(s, q * RAY, i);
    RoundsUnique(s, RayDiv(q, i), q * RAY, i);
  }

  /** Dividing by an index and multiplying back misses by at most half a unit and
      half the index over a ray. */
  lemma DivideThenMultiply(a: int, i: int)
    requires 0 <= a && 0 < i
    ensures -(RAY + i) <= 2 * RAY * (RayMul(RayDiv(a, i), i) - a) <= RAY + i
  {
    var d := RayDiv(a, i);
    RayDivRounds(a, i);
    RayMulRounds(d, i);
    RoundsFromProduct(d, a * RAY, i);
    RoundsFromProduct(RayMul(d, i), d * i, RAY);
  }

  /** One scaled movement of `amount` changes the balance by `amount`, to within 1 + index / (2 RAY). */
  lemma MovedShares(scaled: int, amount: int, index: int)
    requires 0 <= scaled && 0 <= amount && 0 < index
    ensures -(2 * RAY + index)
         <= 2 * RAY * (RayMul(scaled + RayDiv(amount, index), index) - RayMul(scaled, index) - amount)
         <= 2 * RAY + index
    ensures RayDiv(amount, index) <= scaled ==>
              -(2 * RAY + index)
              <= 2 * RAY * (RayMul(scaled - RayDiv(amount, index), index) - RayMul(scaled, index) + amount)
              <= 2 * RAY + index
  {
    var d := RayDiv(amount, index);
    RayDivRounds(amount, index);
    RoundsFromProduct(d, amount * RAY, index);
    MulRounds(scaled, index);
    MulRounds(scaled + d, index);
    assert (scaled + d) * index == scaled * index + d * index;
    if d <= scaled {
      MulRounds(scaled - d, index);
      assert (scaled - d) * index == scaled * index - d * index;
    }
  }

  lemma MulRounds(a: int, b: int)
    requires 0 <= a && 0 <= b
    ensures 2 * (RayMul(a, b) * RAY) - RAY <= 2 * (a * b) < 2 * (RayMul(a, b) * RAY) + RAY
  {
    RayMulRounds(a, b);
    RoundsFromProduct(RayMul(a, b), a * b, RAY);
  }

  /** Wads survive the trip through rays; rays come back to within half a ratio. */
  lemma WadRayRoundTrip(wad: int, ray: int)
    requires 0 <= wad && 0 <= ray
    ensures RayToWad(WadToRay(wad)) == wad && WadToRay(WAD) == RAY
    ensures -WAD_RAY_RATIO <= 2 * (WadToRay(RayToWad(ray)) - ray) <= WAD_RAY_RATIO
  {
    HalfUp(ray, WAD_RAY_RATIO);
    RoundsFromProduct(RayToWad(ray), ray, WAD_RAY_RATIO);
  }
}
