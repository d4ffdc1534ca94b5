/** Interest accumulators: linear interest for suppliers, a cubic binomial
    approximation of per-second compounding for borrowers. */
module Interest {
  import opened Arithmetic
  import opened WadRayMath

  const ONE_YEAR := 31_536_000

  function LinearInterest(rate: int, current: int, last: int): int {
    TruncDiv(rate * (current - last), ONE_YEAR) + RAY
  }

  function BasePowerTwo(rate: int): int {
    TruncDiv(RayMul(rate, rate), ONE_YEAR * ONE_YEAR)
  }

  function BasePowerThree(rate: int): int {
    TruncDiv(RayMul(BasePowerTwo(rate), rate), ONE_YEAR)
  }

  function CompoundedInterest(rate: int, current: int, last: int): int {
    var dt := current - last;
    if dt == 0 then RAY
    else
      var expMinusOne := dt - 1;
      var expMinusTwo := if dt > 2 then dt - 2 else 0;
      var secondTerm := TruncDiv(dt * expMinusOne * BasePowerTwo(rate), 2);
      var thirdTerm := TruncDiv(dt * expMinusOne * expMinusTwo * BasePowerThree(rate), 6);
      RAY + TruncDiv(rate * dt, ONE_YEAR) + secondTerm + thirdTerm
  }

  // ----- the same accumulator through binomial coefficients -----

  /** "n choose 2" */
  function Pairs(n: nat): nat {
    if n == 0 then 0 else Pairs(n - 1) + (n - 1)
  }

  /** "n choose 3" */
  function Triples(n: nat): nat {
    if n == 0 then 0 else Triples(n - 1) + Pairs(n - 1)
  }

  lemma {:induction false} PairsClosed(n: nat)
    ensures 2 * Pairs(n) == n * (n - 1)
  {
    if n > 0 {
      PairsClosed(n - 1);
    }
  }

  lemma {:induction false} TriplesClosed(n: nat)
    ensures 6 * Triples(n) == n * (n - 1) * (n - 2)
  {
    if n > 0 {
      TriplesClosed(n - 1);
      PairsClosed(n - 1);
      TriplesStep(n);
    }
  }

  lemma TriplesStep(n: int)
    ensures (n - 1) * (n - 2) * (n - 3) + 3 * ((n - 1) * (n - 2)) == n * (n - 1) * (n - 2)
  {
    var m := (n - 1) * (n - 2);
    assert m * (n - 3) + 3 * m == m * n;
    assert m * n == n * (n - 1) * (n - 2);
  }

  lemma {:induction false} BinomialsMonotone(n: nat, m: nat)
    requires n <= m
    ensures Pairs(n) <= Pairs(m) && Triples(n) <= Triples(m)
    decreases m
  {
    if n < m {
      BinomialsMonotone(n, m - 1);
    }
  }

  /** Vandermonde's identity for the second and third coefficient. */
  lemma {:induction false} Vandermonde(n: nat, m: nat)
    ensures Pairs(n + m) == Pairs(n) + Pairs(m) + n * m
    ensures Triples(n + m) == Triples(n) + Triples(m) + n * Pairs(m) + m * Pairs(n)
    decreases m
  {
    if m > 0 {
      Vandermonde(n, m - 1);
      assert n + m - 1 == n + (m - 1);
      VandermondeStep(n, m, Pairs(n), Pairs(m - 1));
    }
  }

  lemma VandermondeStep(n: int, m: int, pn: int, pk: int)
    ensures n * m == n * (m - 1) + n
    ensures m * pn == (m - 1) * pn + pn
    ensures n * (pk + (m - 1)) == n * pk + n * (m - 1)
  {
  }

  function LinearTerm(rate: nat, n: nat): nat {
    rate * n / ONE_YEAR
  }

  /** Upper bounds that the roundings leave on the two base powers. */
  lemma BasePowerBounds(rate: int)
    requires 0 <= rate
    ensures 0 <= BasePowerTwo(rate) && 0 <= BasePowerThree(rate)
    ensures 2 * (BasePowerTwo(rate) * (ONE_YEAR * ONE_YEAR)) * RAY <= 2 * (rate * rate) + RAY
    ensures 2 * (BasePowerThree(rate) * ONE_YEAR) * RAY <= 2 * (BasePowerTwo(rate) * rate) + RAY
  {
    var q := RayMul(rate, rate);
    assert 0 <= rate * rate;
    RayMulRounds(rate, rate);
    var p2 := BasePowerTwo(rate);
    assert p2 == q / (ONE_YEAR * ONE_YEAR);
    var s := RayMul(p2, rate);
    assert 0 <= p2 * rate;
    RayMulRounds(p2, rate);
    assert BasePowerThree(rate) == s / ONE_YEAR;
  }

  lemma CompoundedIsBinomial(rate: int, current: int, last: int)
    requires 0 <= rate && last <= current
    ensures CompoundedInterest(rate, current, last)
         == RAY + LinearTerm(rate, current - last) + Pairs(current - last) * BasePowerTwo(rate)
            + Triples(current - last) * BasePowerThree(rate)
  {
    var n := current - last;
    var p2, p3 := BasePowerTwo(rate), BasePowerThree(rate);
    BasePowerBounds(rate);
    PairsClosed(n);
    TriplesClosed(n);
    if n == 0 {
    } else {
      var e2 := if n > 2 then n - 2 else 0;
      assert n * (n - 1) * e2 == 6 * Triples(n);
      HalvesExactly(Pairs(n), Triples(n), p2, p3);
      assert 0 <= rate * n;
    }
  }

  lemma HalvesExactly(pairs: nat, triples: nat, p2: nat, p3: nat)
    ensures TruncDiv(2 * pairs * p2, 2) == pairs * p2
    ensures TruncDiv(6 * triples * p3, 6) == triples * p3
  {
    assert 2 * pairs * p2 == 2 * (pairs * p2);
    assert 6 * triples * p3 == 6 * (triples * p3);
  }
}
