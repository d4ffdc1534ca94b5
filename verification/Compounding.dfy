/** What the binomial accumulator promises: it never charges less than linear
    interest, never charges more than true per-second compounding, never
    decreases with time, and never loses by being applied in two steps. */
module Compounding {
  import opened Arithmetic
  import opened WadRayMath
  import opened Interest

  const R := RAY as real
  const Y := ONE_YEAR as real

  lemma {:induction false} CompoundedMonotone(rate: int, early: int, late: int, last: int)
    requires 0 <= rate && last <= early <= late
    ensures RAY <= CompoundedInterest(rate, early, last) <= CompoundedInterest(rate, late, last)
  {
    var n, m := early - last, late - last;
    CompoundedIsBinomial(rate, early, last);
    CompoundedIsBinomial(rate, late, last);
    BinomialsMonotone(n, m);
    BasePowerBounds(rate);
    MulLe(Pairs(n), Pairs(m), BasePowerTwo(rate));
    MulLe(Triples(n), Triples(m), BasePowerThree(rate));
    MulLe(0, Pairs(n), BasePowerTwo(rate));
    MulLe(0, Triples(n), BasePowerThree(rate));
    MulLe(n, m, rate);
    DivMonotone(rate * n, rate * m, ONE_YEAR);
  }

  lemma CompoundedAtLeastLinear(rate: int, current: int, last: int)
    requires 0 <= rate && last <= current
    ensures LinearInterest(rate, current, last) <= CompoundedInterest(rate, current, last)
  {
    var n := current - last;
    CompoundedIsBinomial(rate, current, last);
    BasePowerBounds(rate);
    MulLe(0, Pairs(n), BasePowerTwo(rate));
    MulLe(0, Triples(n), BasePowerThree(rate));
    assert 0 <= rate * n;
  }

  // ----- the upper bracket: true per-second compounding -----

  ghost function Power(x: real, n: nat): real {
    if n == 0 then 1.0 else x * Power(x, n - 1)
  }

  /** The per-second rate as a fraction. */
  ghost function PerSecond(rate: int): real {
    rate as real / (R * Y)
  }

  ghost function Polynomial(x: real, ones: real, twos: real, threes: real): real {
    1.0 + ones * x + twos * (x * x) + threes * (x * x * x)
  }

  /** The first four terms of the binomial expansion of `(1 + x)^n`. */
  ghost function Cubic(x: real, n: nat): real {
    Polynomial(x, n as real, Pairs(n) as real, Triples(n) as real)
  }

  lemma {:induction false} BinomialLowerBound(x: real, n: nat)
    requires 0.0 <= x
    ensures Cubic(x, n) <= Power(1.0 + x, n)
  {
    hide Cubic;
    if n == 0 {
      CubicAtZero(x);
    } else {
      BinomialLowerBound(x, n - 1);
      CubicGrows(x, n);
      hide Power;
      PowerStep(x, n, Cubic(x, n - 1));
    }
  }

  lemma CubicAtZero(x: real)
    ensures Cubic(x, 0) == 1.0
  {
  }

  lemma CubicGrows(x: real, n: nat)
    requires 0.0 <= x && 0 < n
    ensures Cubic(x, n) <= Cubic(x, n - 1) * (1.0 + x)
  {
    hide Polynomial;
    var m, p, t := (n - 1) as real, Pairs(n - 1) as real, Triples(n - 1) as real;
    CubicStep(x, m, p, t);
    assert n as real == m + 1.0 && Pairs(n) as real == p + m && Triples(n) as real == t + p;
    assert Cubic(x, n) == Polynomial(x, m + 1.0, p + m, t + p);
    assert Cubic(x, n - 1) == Polynomial(x, m, p, t);
  }

  lemma PowerStep(x: real, n: nat, c: real)
    requires 0.0 <= x && 0 < n && c <= Power(1.0 + x, n - 1)
    ensures c * (1.0 + x) <= Power(1.0 + x, n)
  {
    RealMulLe(c, Power(1.0 + x, n - 1), 1.0 + x);
  }

  lemma CubicStep(x: real, n: real, pairs: real, triples: real)
    requires 0.0 <= x && 0.0 <= triples
    ensures Polynomial(x, n + 1.0, pairs + n, triples + pairs)
         <= Polynomial(x, n, pairs, triples) * (1.0 + x)
  {
    var c := Polynomial(x, n, pairs, triples);
    assert c * (1.0 + x) == c + x + n * x * x + pairs * (x * x) * x + triples * (x * x * x) * x;
    assert 0.0 <= x * x;
    assert 0.0 <= x * x * x;
    assert 0.0 <= (x * x * x) * x;
    assert 0.0 <= triples * ((x * x * x) * x);
    assert triples * (x * x * x) * x == triples * ((x * x * x) * x);
    assert n * x * x == n * (x * x);
    assert pairs * (x * x) * x == pairs * (x * x * x);
  }

  /** What the two half-up roundings of the base powers can add, in units of a ray. */
  ghost function BracketSlack(rate: int, n: nat): real {
    RoundingSlack(PerSecond(rate), Pairs(n) as real, Triples(n) as real)
  }

  ghost function RoundingSlack(x: real, pairs: real, triples: real): real {
    pairs * (1.0 / (2.0 * Y * Y)) + triples * (x * (1.0 / (2.0 * Y * Y)) + 1.0 / (2.0 * Y))
  }

  lemma BasePowersBelowIdeal(rate: int)
    requires 0 <= rate
    ensures 0.0 <= PerSecond(rate)
    ensures BasePowerTwo(rate) as real
         <= R * (PerSecond(rate) * PerSecond(rate)) + 1.0 / (2.0 * Y * Y)
    ensures BasePowerThree(rate) as real
         <= R * (PerSecond(rate) * PerSecond(rate) * PerSecond(rate))
            + PerSecond(rate) * (1.0 / (2.0 * Y * Y)) + 1.0 / (2.0 * Y)
  {
    BasePowerBounds(rate);
    var p2, p3, x := BasePowerTwo(rate), BasePowerThree(rate), PerSecond(rate);
    ProductAsReal(rate, rate);
    ProductAsReal(p2, rate);
    assert rate as real == x * (R * Y);
    hide BasePowerTwo, BasePowerThree, PerSecond;
    SecondBelowIdeal(p2 as real, x, rate as real);
    ThirdBelowIdeal(p2 as real, p3 as real, x, rate as real);
  }

  lemma SecondBelowIdeal(p2: real, x: real, rate: real)
    requires rate == x * (R * Y) && 2.0 * (p2 * (Y * Y)) * R <= 2.0 * (rate * rate) + R
    ensures p2 <= R * (x * x) + 1.0 / (2.0 * Y * Y)
  {
    SquareOfScaled(x);
  }

  lemma ThirdBelowIdeal(p2: real, p3: real, x: real, rate: real)
    requires 0.0 <= x && rate == x * (R * Y) && p2 <= R * (x * x) + 1.0 / (2.0 * Y * Y)
    requires 2.0 * (p3 * Y) * R <= 2.0 * (p2 * rate) + R
    ensures p3 <= R * (x * x * x) + x * (1.0 / (2.0 * Y * Y)) + 1.0 / (2.0 * Y)
  {
    RealMulLe(p2, R * (x * x) + 1.0 / (2.0 * Y * Y), x);
    CubeOfScaled(x, p2);
  }

  lemma SquareOfScaled(x: real)
    ensures (x * (R * Y)) * (x * (R * Y)) == (x * x) * (R * Y * R * Y)
  {
  }

  lemma CubeOfScaled(x: real, k: real)
    ensures k * (x * (R * Y)) == (k * x) * (R * Y)
    ensures (R * (x * x) + 1.0 / (2.0 * Y * Y)) * x == R * (x * x * x) + x * (1.0 / (2.0 * Y * Y))
  {
  }

  lemma CompoundedAtMostTrue(rate: int, current: int, last: int)
    requires 0 <= rate && last <= current
    ensures CompoundedInterest(rate, current, last) as real
         <= R * Power(1.0 + PerSecond(rate), current - last) + BracketSlack(rate, current - last)
  {
    hide PerSecond, Polynomial, CompoundedInterest, BasePowerTwo, BasePowerThree, Pairs, Triples, LinearTerm,
         RoundingSlack, Power;
    var n := current - last;
    var x, p2, p3 := PerSecond(rate), BasePowerTwo(rate), BasePowerThree(rate);
    BasePowersBelowIdeal(rate);
    BinomialLowerBound(x, n);
    LinearTermBelowIdeal(rate, n);
    BracketSum(x, n as real, Pairs(n) as real, Triples(n) as real, p2 as real, p3 as real);
    CompoundedAsReal(rate, current, last);
  }

  lemma CompoundedAsReal(rate: int, current: int, last: int)
    requires 0 <= rate && last <= current
    ensures CompoundedInterest(rate, current, last) as real
         == R + LinearTerm(rate, current - last) as real
            + Pairs(current - last) as real * BasePowerTwo(rate) as real
            + Triples(current - last) as real * BasePowerThree(rate) as real
  {
    hide CompoundedInterest, BasePowerTwo, BasePowerThree, Pairs, Triples, LinearTerm;
    CompoundedIsBinomial(rate, current, last);
    var n := current - last;
    SumAsReal(CompoundedInterest(rate, current, last), LinearTerm(rate, n),
              Pairs(n), Triples(n), BasePowerTwo(rate), BasePowerThree(rate));
  }

  lemma SumAsReal(sum: int, linear: int, a: int, b: int, p: int, q: int)
    requires sum == RAY + linear + a * p + b * q
    ensures sum as real == R + linear as real + a as real * p as real + b as real * q as real
  {
    ProductAsReal(a, p);
    ProductAsReal(b, q);
  }

  lemma ProductAsReal(a: int, b: int)
    ensures (a * b) as real == a as real * b as real
  {
  }

  lemma LinearTermBelowIdeal(rate: int, n: nat)
    requires 0 <= rate
    ensures LinearTerm(rate, n) as real <= R * (n as real * PerSecond(rate))
  {
    var t := LinearTerm(rate, n);
    assert t * ONE_YEAR <= rate * n;
    assert (rate * n) as real == rate as real * n as real;
    assert n as real * (rate as real / (R * Y)) == (rate as real * n as real) / (R * Y);
  }

  lemma BracketSum(x: real, n: real, pairs: real, triples: real, p2: real, p3: real)
    requires 0.0 <= pairs && 0.0 <= triples
    requires p2 <= R * (x * x) + 1.0 / (2.0 * Y * Y)
    requires p3 <= R * (x * x * x) + x * (1.0 / (2.0 * Y * Y)) + 1.0 / (2.0 * Y)
    ensures R + R * (n * x) + pairs * p2 + triples * p3
         <= R * Polynomial(x, n, pairs, triples) + RoundingSlack(x, pairs, triples)
  {
    var a, b := 1.0 / (2.0 * Y * Y), x * (1.0 / (2.0 * Y * Y)) + 1.0 / (2.0 * Y);
    RealMulLe(p2, R * (x * x) + a, pairs);
    RealMulLe(p3, R * (x * x * x) + b, triples);
    assert (R * (x * x) + a) * pairs == R * (pairs * (x * x)) + pairs * a;
    assert (R * (x * x * x) + b) * triples == R * (triples * (x * x * x)) + triples * b;
  }

  // ----- applying the accumulator in two steps -----

  /** What splitting an interval of `n + m` seconds can lose, in units of a ray:
      one and a half for the linear floor and the final half-up product, a unit
      per accrued ray for the floors multiplied together, and the half-up
      roundings of the two base powers. */
  ghost function SplitSlack(rate: nat, n: nat, m: nat): real {
    1.5
    + ((LinearTerm(rate, n) + LinearTerm(rate, m) + 1
        + (Pairs(n) + Pairs(m)) * BasePowerTwo(rate)) as real) / R
    + ((n * m) as real) / (2.0 * Y * Y)
    + ((n * Pairs(m) + m * Pairs(n)) as real) / (2.0 * Y)
  }

  lemma SplitNeverUndercharges(rate: int, start: int, middle: int, end: int)
    requires 0 <= rate && start <= middle <= end
    ensures CompoundedInterest(rate, end, start) as real
         <= RayMul(CompoundedInterest(rate, middle, start), CompoundedInterest(rate, end, middle)) as real
            + SplitSlack(rate, middle - start, end - middle)
  {
    hide CompoundedInterest, BasePowerTwo, BasePowerThree, RayMul, Pairs, Triples, LinearTerm;
    var n, m := middle - start, end - middle;
    CompoundedIsBinomial(rate, middle, start);
    CompoundedIsBinomial(rate, end, middle);
    CompoundedIsBinomial(rate, end, start);
    CompoundedMonotone(rate, start, middle, start);
    CompoundedMonotone(rate, middle, end, middle);
    BasePowerBounds(rate);
    Vandermonde(n, m);
    LinearTermsSplit(rate, n, m);
    var first, second := CompoundedInterest(rate, middle, start), CompoundedInterest(rate, end, middle);
    var whole, product := CompoundedInterest(rate, end, start), RayMul(first, second);
    var linear1, linear2, p2, p3 :=
      LinearTerm(rate, n), LinearTerm(rate, m), BasePowerTwo(rate), BasePowerThree(rate);
    var pairs1, pairs2, triples1, triples2 := Pairs(n), Pairs(m), Triples(n), Triples(m);
    RayMulRounds(first, second);
    hide Rounds;
    assert end - start == n + m;
    ProductLower(linear1, linear2, pairs1, pairs2, triples1, triples2, p2, p3);
    WholeFromParts(n, m, LinearTerm(rate, n + m), linear1, linear2, pairs1, pairs2, triples1, triples2, p2, p3);
    CrossSecond(rate, n, m, linear1, linear2, p2);
    CrossThird(rate, n, pairs2, linear1, p2, p3);
    CrossThird(rate, m, pairs1, linear2, p2, p3);
    Distribute(pairs1, pairs2, p2);
    SplitSum(whole, first, second, product, n * m * p2, n * pairs2 * p3, m * pairs1 * p3,
             linear1 * linear2, pairs2 * p2 * linear1, pairs1 * p2 * linear2, linear1 + linear2 + 1,
             pairs1 * p2, pairs2 * p2, n * m, n * pairs2, m * pairs1);
  }

  lemma Distribute(a: int, b: int, c: int)
    ensures (a + b) * c == a * c + b * c
  {
  }

  lemma LinearTermsSplit(rate: nat, n: nat, m: nat)
    ensures LinearTerm(rate, n + m) <= LinearTerm(rate, n) + LinearTerm(rate, m) + 1
    ensures rate * n <= ONE_YEAR * (LinearTerm(rate, n) + 1)
    ensures rate * m <= ONE_YEAR * (LinearTerm(rate, m) + 1)
  {
    assert rate * (n + m) == rate * n + rate * m;
  }

  lemma ProductLower(linear1: nat, linear2: nat, pairs1: nat, pairs2: nat, triples1: nat, triples2: nat,
                     p2: nat, p3: nat)
    ensures (RAY + linear1 + pairs1 * p2 + triples1 * p3) * (RAY + linear2 + pairs2 * p2 + triples2 * p3)
         >= RAY * (RAY + linear1 + pairs1 * p2 + triples1 * p3 + linear2 + pairs2 * p2 + triples2 * p3)
            + linear1 * linear2 + pairs2 * p2 * linear1 + pairs1 * p2 * linear2
  {
    assert 0 <= pairs1 * p2 && 0 <= triples1 * p3 && 0 <= pairs2 * p2 && 0 <= triples2 * p3;
    ProductOfSums(linear1, pairs1 * p2, triples1 * p3, linear2, pairs2 * p2, triples2 * p3);
  }

  lemma ProductOfSums(e: nat, x: nat, v: nat, f: nat, y: nat, w: nat)
    ensures (RAY + e + x + v) * (RAY + f + y + w) >= RAY * (RAY + e + x + v + f + y + w) + e * f + y * e + x * f
  {
    var a, b := e + x + v, f + y + w;
    assert (RAY + a) * (RAY + b) == RAY * (RAY + a + b) + a * b;
    assert a * b == e * f + y * e + x * f + (e * w + x * (y + w) + v * b);
    assert 0 <= e * w && 0 <= x * (y + w) && 0 <= v * b;
  }

  lemma WholeFromParts(n: nat, m: nat, linear: nat, linear1: nat, linear2: nat, pairs1: nat, pairs2: nat,
                       triples1: nat, triples2: nat, p2: nat, p3: nat)
    requires linear <= linear1 + linear2 + 1
    ensures RAY + linear + (pairs1 + pairs2 + n * m) * p2 + (triples1 + triples2 + n * pairs2 + m * pairs1) * p3
         <= RAY + linear1 + pairs1 * p2 + triples1 * p3 + linear2 + pairs2 * p2 + triples2 * p3 + 1
            + n * m * p2 + n * pairs2 * p3 + m * pairs1 * p3
  {
    assert (pairs1 + pairs2 + n * m) * p2 == pairs1 * p2 + pairs2 * p2 + n * m * p2;
    assert (triples1 + triples2 + n * pairs2 + m * pairs1) * p3
        == triples1 * p3 + triples2 * p3 + n * pairs2 * p3 + m * pairs1 * p3;
  }

  lemma CrossSecond(rate: nat, n: nat, m: nat, e: nat, f: nat, p2: nat)
    requires 2 * (p2 * (ONE_YEAR * ONE_YEAR)) * RAY <= 2 * (rate * rate) + RAY
    requires rate * n <= ONE_YEAR * (e + 1) && rate * m <= ONE_YEAR * (f + 1)
    ensures 2 * (ONE_YEAR * ONE_YEAR) * RAY * (n * m * p2)
         <= 2 * (ONE_YEAR * ONE_YEAR) * (e * f + e + f + 1) + RAY * (n * m)
  {
    var k := n * m;
    MulLe(2 * (p2 * (ONE_YEAR * ONE_YEAR)) * RAY, 2 * (rate * rate) + RAY, k);
    assert 2 * (p2 * (ONE_YEAR * ONE_YEAR)) * RAY * k == 2 * (ONE_YEAR * ONE_YEAR) * RAY * (k * p2);
    assert (2 * (rate * rate) + RAY) * k == 2 * ((rate * n) * (rate * m)) + RAY * k by {
      assert (rate * rate) * (n * m) == (rate * n) * (rate * m);
    }
    MulLe2(rate * n, ONE_YEAR * (e + 1), rate * m, ONE_YEAR * (f + 1));
    assert (ONE_YEAR * (e + 1)) * (ONE_YEAR * (f + 1)) == (ONE_YEAR * ONE_YEAR) * (e * f + e + f + 1);
  }

  lemma CrossThird(rate: nat, n: nat, d: nat, e: nat, p2: nat, p3: nat)
    requires 2 * (p3 * ONE_YEAR) * RAY <= 2 * (p2 * rate) + RAY
    requires rate * n <= ONE_YEAR * (e + 1)
    ensures 2 * ONE_YEAR * RAY * (n * d * p3) <= 2 * ONE_YEAR * (d * p2 * e + d * p2) + RAY * (n * d)
  {
    var k := n * d;
    MulLe(2 * (p3 * ONE_YEAR) * RAY, 2 * (p2 * rate) + RAY, k);
    assert 2 * (p3 * ONE_YEAR) * RAY * k == 2 * ONE_YEAR * RAY * (k * p3);
    assert (p2 * rate) * (n * d) == (d * p2) * (rate * n);
    MulLe(rate * n, ONE_YEAR * (e + 1), d * p2);
    assert (ONE_YEAR * (e + 1)) * (d * p2) == ONE_YEAR * (d * p2 * e + d * p2);
  }

  lemma SplitSum(whole: int, first: int, second: int, product: int, seconds: int, thirds1: int, thirds2: int,
                 linears: int, mixed1: int, mixed2: int, ones: int, second1: int, second2: int,
                 seconds0: int, triples1: int, triples2: int)
    requires Rounds(product, first * second, RAY)
    requires first * second >= RAY * (first + second - RAY) + linears + mixed1 + mixed2
    requires whole <= first + second - RAY + 1 + seconds + thirds1 + thirds2
    requires 2 * (ONE_YEAR * ONE_YEAR) * RAY * seconds
          <= 2 * (ONE_YEAR * ONE_YEAR) * (linears + ones) + RAY * seconds0
    requires 2 * ONE_YEAR * RAY * thirds1 <= 2 * ONE_YEAR * (mixed1 + second2) + RAY * triples1
    requires 2 * ONE_YEAR * RAY * thirds2 <= 2 * ONE_YEAR * (mixed2 + second1) + RAY * triples2
    ensures whole as real <= product as real + 1.5 + ((ones + (second1 + second2)) as real) / R
                             + (seconds0 as real) / (2.0 * Y * Y) + ((triples1 + triples2) as real) / (2.0 * Y)
  {
    RoundsFromProduct(product, first * second, RAY);
  }

  // ----- interest that runs on without being added to the principal -----

  /** Seconds' worth of floors that interest running on can lose, in units of a ray. */
  function PaceFloors(n: nat, m: nat): nat {
    1 + n * m + m * Pairs(n)
  }

  /** Lower bounds that the floors leave on the two base powers. */
  lemma BasePowerFloors(rate: int)
    requires 0 <= rate
    ensures rate * rate <= (BasePowerTwo(rate) + 1) * (ONE_YEAR * ONE_YEAR) * RAY
    ensures BasePowerTwo(rate) * rate <= (BasePowerThree(rate) + 1) * ONE_YEAR * RAY
  {
    assert 0 <= rate * rate;
    RayMulRounds(rate, rate);
    var q, p2 := RayMul(rate, rate), BasePowerTwo(rate);
    assert p2 == q / (ONE_YEAR * ONE_YEAR) && q + 1 <= (p2 + 1) * (ONE_YEAR * ONE_YEAR);
    assert rate * rate <= (q + 1) * RAY;
    BasePowerBounds(rate);
    assert 0 <= p2 * rate;
    RayMulRounds(p2, rate);
    var s := RayMul(p2, rate);
    assert BasePowerThree(rate) == s / ONE_YEAR && s + 1 <= (BasePowerThree(rate) + 1) * ONE_YEAR;
    assert p2 * rate <= (s + 1) * RAY;
  }

  /** Interest accrued up to `last` earns interest at the yearly rate until `time`,
      less the floors and less the fourth-order term that the accumulator leaves out. */
  lemma InterestKeepsPace(rate: int, stamp: int, last: int, time: int)
    requires 0 <= rate && stamp <= last <= time
    ensures var n, m := last - stamp, time - last;
            CompoundedInterest(rate, last, stamp) * (rate * m)
            <= RAY * ONE_YEAR * (CompoundedInterest(rate, time, stamp) - CompoundedInterest(rate, last, stamp)
                                 + PaceFloors(n, m))
               + Triples(n) * BasePowerThree(rate) * (rate * m)
  {
    hide CompoundedInterest, BasePowerTwo, BasePowerThree, Pairs, Triples, LinearTerm;
    var n, m := last - stamp, time - last;
    CompoundedIsBinomial(rate, last, stamp);
    CompoundedIsBinomial(rate, time, stamp);
    Vandermonde(n, m);
    BasePowerBounds(rate);
    BasePowerFloors(rate);
    LinearTermBounds(rate, n, m);
    assert time - stamp == n + m;
    PaceParts(rate, n, m, LinearTerm(rate, n), LinearTerm(rate, n + m), Pairs(n), Triples(n), Pairs(m), Triples(m),
              BasePowerTwo(rate), BasePowerThree(rate));
  }

  lemma LinearTermBounds(rate: nat, n: nat, m: nat)
    ensures LinearTerm(rate, n) * ONE_YEAR <= rate * n
    ensures rate * m <= ONE_YEAR * (LinearTerm(rate, n + m) - LinearTerm(rate, n) + 1)
  {
    assert rate * (n + m) == rate * n + rate * m;
  }

  lemma PaceParts(rate: nat, n: nat, m: nat, linear: nat, linearAfter: nat, pairs: nat, triples: nat,
                  morePairs: nat, moreTriples: nat, p2: nat, p3: nat)
    requires linear * ONE_YEAR <= rate * n && rate * m <= ONE_YEAR * (linearAfter - linear + 1)
    requires rate * rate <= (p2 + 1) * (ONE_YEAR * ONE_YEAR) * RAY
    requires p2 * rate <= (p3 + 1) * ONE_YEAR * RAY
    ensures var before := RAY + linear + pairs * p2 + triples * p3;
            var after := RAY + linearAfter + (pairs + morePairs + n * m) * p2
                         + (triples + moreTriples + n * morePairs + m * pairs) * p3;
            before * (rate * m) <= RAY * ONE_YEAR * (after - before + 1 + n * m + m * pairs) + triples * p3 * (rate * m)
  {
    var interest := rate * m;
    PaceOfLinear(rate, n, m, linear, p2);
    PaceOfPairs(rate, m, pairs, p2, p3);
    PaceSum(n * m, m * pairs, linear, linearAfter, pairs * p2, triples * p3, morePairs * p2,
            (moreTriples + n * morePairs) * p3, interest, p2, p3);
    assert (pairs + morePairs + n * m) * p2 == pairs * p2 + morePairs * p2 + n * m * p2;
    assert (triples + moreTriples + n * morePairs + m * pairs) * p3
        == triples * p3 + (moreTriples + n * morePairs) * p3 + m * pairs * p3;
  }

  lemma PaceOfLinear(rate: nat, n: nat, m: nat, linear: nat, p2: nat)
    requires linear * ONE_YEAR <= rate * n
    requires rate * rate <= (p2 + 1) * (ONE_YEAR * ONE_YEAR) * RAY
    ensures linear * (rate * m) <= RAY * ONE_YEAR * (n * m * (p2 + 1))
  {
    MulLe(linear * ONE_YEAR, rate * n, rate * m);
    MulLe(rate * rate, (p2 + 1) * (ONE_YEAR * ONE_YEAR) * RAY, n * m);
    assert (rate * n) * (rate * m) == (rate * rate) * (n * m);
    assert (p2 + 1) * (ONE_YEAR * ONE_YEAR) * RAY * (n * m) == (RAY * ONE_YEAR * (n * m * (p2 + 1))) * ONE_YEAR;
    assert (linear * ONE_YEAR) * (rate * m) == (linear * (rate * m)) * ONE_YEAR;
    MulCancelLe(linear * (rate * m), RAY * ONE_YEAR * (n * m * (p2 + 1)), ONE_YEAR);
  }

  lemma PaceOfPairs(rate: nat, m: nat, pairs: nat, p2: nat, p3: nat)
    requires p2 * rate <= (p3 + 1) * ONE_YEAR * RAY
    ensures pairs * p2 * (rate * m) <= RAY * ONE_YEAR * (m * pairs * (p3 + 1))
  {
    MulLe(p2 * rate, (p3 + 1) * ONE_YEAR * RAY, m * pairs);
    assert (p2 * rate) * (m * pairs) == pairs * p2 * (rate * m);
    assert (p3 + 1) * ONE_YEAR * RAY * (m * pairs) == RAY * ONE_YEAR * (m * pairs * (p3 + 1));
  }

  lemma PaceSum(crossed: nat, paired: nat, linear: nat, linearAfter: nat, second: nat, third: nat, moreSecond: nat,
                moreThird: nat, interest: nat, p2: nat, p3: nat)
    requires interest <= ONE_YEAR * (linearAfter - linear + 1)
    requires linear * interest <= RAY * ONE_YEAR * (crossed * (p2 + 1))
    requires second * interest <= RAY * ONE_YEAR * (paired * (p3 + 1))
    ensures (RAY + linear + second + third) * interest
         <= RAY * ONE_YEAR * (linearAfter - linear + moreSecond + crossed * p2 + moreThird + paired * p3
                              + 1 + crossed + paired)
            + third * interest
  {
    assert (RAY + linear + second + third) * interest
        == RAY * interest + linear * interest + second * interest + third * interest;
    assert crossed * (p2 + 1) == crossed * p2 + crossed && paired * (p3 + 1) == paired * p3 + paired;
  }

  /** What compounding over the later interval adds to the yearly rate: its own second
      and third order, and the third-order cross term. */
  function LateOrders(rate: int, n: nat, m: nat): int {
    Pairs(m) * BasePowerTwo(rate) + (Triples(m) + n * Pairs(m)) * BasePowerThree(rate)
  }

  /** Interest accrued up to `last` earns no more than the yearly rate until `time`, plus
      those orders and the roundings. */
  lemma InterestStaysInPace(rate: int, stamp: int, last: int, time: int)
    requires 0 <= rate && stamp <= last <= time
    ensures var n, m := last - stamp, time - last;
            2 * RAY * (ONE_YEAR * ONE_YEAR)
              * (CompoundedInterest(rate, time, stamp) - CompoundedInterest(rate, last, stamp))
            <= 2 * ONE_YEAR * (CompoundedInterest(rate, last, stamp) * (rate * m))
               + 2 * RAY * (ONE_YEAR * ONE_YEAR) * (1 + LateOrders(rate, n, m))
               + 2 * ONE_YEAR * (rate * m) + RAY * (n * m) + RAY * ONE_YEAR * (m * Pairs(n))
  {
    hide CompoundedInterest, BasePowerTwo, BasePowerThree, Pairs, Triples, LinearTerm;
    var n, m := last - stamp, time - last;
    CompoundedIsBinomial(rate, last, stamp);
    CompoundedIsBinomial(rate, time, stamp);
    Vandermonde(n, m);
    BasePowerBounds(rate);
    LinearTermAbove(rate, n, m);
    assert time - stamp == n + m;
    InPaceParts(rate, n, m, LinearTerm(rate, n), LinearTerm(rate, n + m), Pairs(n), Triples(n), Pairs(m), Triples(m),
                BasePowerTwo(rate), BasePowerThree(rate));
  }

  lemma LinearTermAbove(rate: nat, n: nat, m: nat)
    ensures rate * n <= (LinearTerm(rate, n) + 1) * ONE_YEAR
    ensures ONE_YEAR * (LinearTerm(rate, n + m) - LinearTerm(rate, n)) <= rate * m + ONE_YEAR
  {
    assert rate * (n + m) == rate * n + rate * m;
  }

  lemma InPaceParts(rate: nat, n: nat, m: nat, linear: nat, linearAfter: nat, pairs: nat, triples: nat,
                    morePairs: nat, moreTriples: nat, p2: nat, p3: nat)
    requires rate * n <= (linear + 1) * ONE_YEAR && ONE_YEAR * (linearAfter - linear) <= rate * m + ONE_YEAR
    requires 2 * (p2 * (ONE_YEAR * ONE_YEAR)) * RAY <= 2 * (rate * rate) + RAY
    requires 2 * (p3 * ONE_YEAR) * RAY <= 2 * (p2 * rate) + RAY
    ensures var before := RAY + linear + pairs * p2 + triples * p3;
            var after := RAY + linearAfter + (pairs + morePairs + n * m) * p2
                         + (triples + moreTriples + n * morePairs + m * pairs) * p3;
            2 * RAY * (ONE_YEAR * ONE_YEAR) * (after - before)
            <= 2 * ONE_YEAR * (before * (rate * m))
               + 2 * RAY * (ONE_YEAR * ONE_YEAR) * (1 + (morePairs * p2 + (moreTriples + n * morePairs) * p3))
               + 2 * ONE_YEAR * (rate * m) + RAY * (n * m) + RAY * ONE_YEAR * (m * pairs)
  {
    var before := RAY + linear + pairs * p2 + triples * p3;
    var growth := linearAfter - linear + morePairs * p2 + n * m * p2
                  + (moreTriples + n * morePairs) * p3 + m * pairs * p3;
    InPaceOfCross(rate, n, m, linear, p2);
    InPaceOfPairs(rate, m, pairs, p2, p3);
    NonNegativeTerms(pairs, triples, p2, p3, morePairs, moreTriples + n * morePairs);
    InPaceSum(n * m * p2, m * pairs * p3, linear, linearAfter, pairs * p2, triples * p3, morePairs * p2,
              (moreTriples + n * morePairs) * p3, rate * m, n * m, m * pairs, before, growth);
    GrowthOfTerms(n, m, linear, linearAfter, pairs, triples, morePairs, moreTriples, p2, p3);
  }

  lemma NonNegativeTerms(pairs: nat, triples: nat, p2: nat, p3: nat, morePairs: nat, others: nat)
    ensures 0 <= pairs * p2 && 0 <= triples * p3 && 0 <= morePairs * p2 && 0 <= others * p3
  {
  }

  lemma GrowthOfTerms(n: nat, m: nat, linear: nat, linearAfter: nat, pairs: nat, triples: nat, morePairs: nat,
                      moreTriples: nat, p2: nat, p3: nat)
    ensures (RAY + linearAfter + (pairs + morePairs + n * m) * p2
             + (triples + moreTriples + n * morePairs + m * pairs) * p3)
            - (RAY + linear + pairs * p2 + triples * p3)
         == linearAfter - linear + morePairs * p2 + n * m * p2
            + (moreTriples + n * morePairs) * p3 + m * pairs * p3
  {
    assert (pairs + morePairs + n * m) * p2 == pairs * p2 + morePairs * p2 + n * m * p2;
    assert (triples + (moreTriples + n * morePairs) + m * pairs) * p3
        == triples * p3 + (moreTriples + n * morePairs) * p3 + m * pairs * p3;
  }

  lemma InPaceOfCross(rate: nat, n: nat, m: nat, linear: nat, p2: nat)
    requires rate * n <= (linear + 1) * ONE_YEAR
    requires 2 * (p2 * (ONE_YEAR * ONE_YEAR)) * RAY <= 2 * (rate * rate) + RAY
    ensures 2 * RAY * (ONE_YEAR * ONE_YEAR) * (n * m * p2)
         <= 2 * ONE_YEAR * (linear * (rate * m)) + 2 * ONE_YEAR * (rate * m) + RAY * (n * m)
  {
    var k := n * m;
    MulLe(2 * (p2 * (ONE_YEAR * ONE_YEAR)) * RAY, 2 * (rate * rate) + RAY, k);
    assert 2 * (p2 * (ONE_YEAR * ONE_YEAR)) * RAY * k == 2 * RAY * (ONE_YEAR * ONE_YEAR) * (k * p2);
    assert (2 * (rate * rate) + RAY) * k == 2 * ((rate * n) * (rate * m)) + RAY * k by {
      assert (rate * rate) * (n * m) == (rate * n) * (rate * m);
    }
    MulLe(rate * n, (linear + 1) * ONE_YEAR, rate * m);
    assert (linear + 1) * ONE_YEAR * (rate * m) == ONE_YEAR * (linear * (rate * m)) + ONE_YEAR * (rate * m);
  }

  lemma InPaceOfPairs(rate: nat, m: nat, pairs: nat, p2: nat, p3: nat)
    requires 2 * (p3 * ONE_YEAR) * RAY <= 2 * (p2 * rate) + RAY
    ensures 2 * RAY * (ONE_YEAR * ONE_YEAR) * (m * pairs * p3)
         <= 2 * ONE_YEAR * (pairs * p2 * (rate * m)) + RAY * ONE_YEAR * (m * pairs)
  {
    var k := m * pairs;
    MulLe(2 * (p3 * ONE_YEAR) * RAY, 2 * (p2 * rate) + RAY, k);
    assert 2 * (p3 * ONE_YEAR) * RAY * k == 2 * RAY * ONE_YEAR * (k * p3);
    assert (2 * (p2 * rate) + RAY) * k == 2 * (pairs * p2 * (rate * m)) + RAY * k by {
      assert (p2 * rate) * (m * pairs) == pairs * p2 * (rate * m);
    }
  }

  lemma InPaceSum(crossed: int, paired: int, linear: nat, linearAfter: nat, second: nat, third: nat, moreSecond: nat,
                  moreThird: nat, interest: nat, seconds: int, pairSeconds: int, before: int, growth: int)
    requires ONE_YEAR * (linearAfter - linear) <= interest + ONE_YEAR
    requires before == RAY + linear + second + third
    requires growth == linearAfter - linear + moreSecond + crossed + moreThird + paired
    requires 2 * RAY * (ONE_YEAR * ONE_YEAR) * crossed
          <= 2 * ONE_YEAR * (linear * interest) + 2 * ONE_YEAR * interest + RAY * seconds
    requires 2 * RAY * (ONE_YEAR * ONE_YEAR) * paired
          <= 2 * ONE_YEAR * (second * interest) + RAY * ONE_YEAR * pairSeconds
    ensures 2 * RAY * (ONE_YEAR * ONE_YEAR) * growth
         <= 2 * ONE_YEAR * (before * interest)
            + 2 * RAY * (ONE_YEAR * ONE_YEAR) * (1 + (moreSecond + moreThird))
            + 2 * ONE_YEAR * interest + RAY * seconds + RAY * ONE_YEAR * pairSeconds
  {
    MulLe(0, third, interest);
    assert before * interest == RAY * interest + linear * interest + second * interest + third * interest;
  }
}
