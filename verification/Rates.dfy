/** Usage ratios, the two-slope borrow rate curve and the supply rate. */
module Rates {
  import opened Arithmetic
  import opened WadRayMath
  import opened Failures

  /** Rate parameters of one reserve (`reservesParams` and the market stable rate). */
  datatype Strategy = Strategy(
    marketStableRate: int,
    baseVariableBorrowRate: int,
    optimalUsageRatio: int,
    optimalStableToTotalDebtRatio: int,
    variableRateSlope1: int,
    variableRateSlope2: int,
    stableRateSlope1: int,
    stableRateSlope2: int,
    stableRateExcessOffset: int,
    reserveFactor: int)
  {
    predicate Valid() {
      && 0 < optimalUsageRatio <= RAY
      && 0 <= optimalStableToTotalDebtRatio <= RAY
      && 0 <= marketStableRate && 0 <= baseVariableBorrowRate
      && 0 <= variableRateSlope1 && 0 <= variableRateSlope2
      && 0 <= stableRateSlope1 && 0 <= stableRateSlope2 && 0 <= stableRateExcessOffset
      && 0 <= reserveFactor <= PERCENTAGE_FACTOR
    }
  }

  datatype Ratios = Ratios(borrowUsage: int, supplyUsage: int)

  datatype RateSet = RateSet(liquidityRate: int, stableBorrowRate: int, variableBorrowRate: int)

  /** Share of `liquidity + debt` that is lent out. */
  function Usage(debt: int, liquidity: int): Result<int> {
    if debt == 0 then Success(0)
    else if liquidity + debt == 0 then Failure(DivisionByZero)
    else Success(RayDiv(debt, liquidity + debt))
  }

  function UsageRatios(stableDebt: int, variableDebt: int, available: int, total: int): Result<Ratios> {
    var borrowUsage :- Usage(stableDebt + variableDebt, available);
    var supplyUsage :- Usage(stableDebt + variableDebt, total);
    if supplyUsage <= borrowUsage then Success(Ratios(borrowUsage, supplyUsage)) else Failure(UsageCheck)
  }

  /** `RayDiv` with the exception that a zero divisor raises. */
  function CheckedRayDiv(a: int, b: int): Result<int> {
    if b == 0 then Failure(DivisionByZero) else Success(RayDiv(a, b))
  }

  /** A rate that climbs by `slope1` up to the optimal usage and by `slope2` beyond it. */
  function Curve(base: int, slope1: int, slope2: int, optimal: int, usage: int): Result<int> {
    if usage > optimal then
      var excess :- CheckedRayDiv(usage - optimal, RAY - optimal);
      Success(base + slope1 + RayMul(slope2, excess))
    else
      var share :- CheckedRayDiv(RayMul(slope1, usage), optimal);
      Success(base + share)
  }

  function VariableRate(st: Strategy, usage: int): Result<int> {
    Curve(st.baseVariableBorrowRate, st.variableRateSlope1, st.variableRateSlope2, st.optimalUsageRatio, usage)
  }

  function StableToTotalRatio(stableDebt: int, totalDebt: int): Result<int> {
    if stableDebt > 0 then CheckedRayDiv(stableDebt, totalDebt) else Success(0)
  }

  function StableRate(st: Strategy, usage: int, stableToTotal: int): Result<int> {
    var rate :- Curve(st.marketStableRate, st.stableRateSlope1, st.stableRateSlope2, st.optimalUsageRatio, usage);
    if stableToTotal > st.optimalStableToTotalDebtRatio then
      var excess :- CheckedRayDiv(stableToTotal - st.optimalStableToTotalDebtRatio,
                                  RAY - st.optimalStableToTotalDebtRatio);
      Success(rate + RayMul(st.stableRateExcessOffset, excess))
    else
      Success(rate)
  }

  function OverallBorrowRate(stableDebt: int, variableDebt: int, variableRate: int, averageStableRate: int): int {
    var totalDebt := stableDebt + variableDebt;
    if totalDebt == 0 then 0
    else
      RayDiv(RayMul(WadToRay(variableDebt), variableRate) + RayMul(WadToRay(stableDebt), averageStableRate),
             WadToRay(totalDebt))
  }

  function LiquidityRate(overallRate: int, supplyUsage: int, reserveFactor: int): int {
    PercentMul(RayMul(overallRate, supplyUsage), PERCENTAGE_FACTOR - reserveFactor)
  }

  function InterestRates(st: Strategy, stableDebt: int, variableDebt: int, averageStableRate: int,
                         available: int, total: int): Result<RateSet>
  {
    var ratios :- UsageRatios(stableDebt, variableDebt, available, total);
    var stableToTotal :- StableToTotalRatio(stableDebt, stableDebt + variableDebt);
    var variableRate :- VariableRate(st, ratios.borrowUsage);
    var stableRate :- StableRate(st, ratios.borrowUsage, stableToTotal);
    var overall := OverallBorrowRate(stableDebt, variableDebt, variableRate, averageStableRate);
    Success(RateSet(LiquidityRate(overall, ratios.supplyUsage, st.reserveFactor), stableRate, variableRate))
  }

  // ----- usage ratios -----

  lemma UsageInRange(debt: int, liquidity: int)
    requires 0 <= debt && 0 <= liquidity
    ensures Usage(debt, liquidity).Success? && 0 <= Usage(debt, liquidity).value <= RAY
  {
    if debt != 0 {
      RayDivRounds(debt, liquidity + debt);
      MulLe(debt, liquidity + debt, RAY);
      RoundsAtMost(RayDiv(debt, liquidity + debt), debt * RAY, liquidity + debt, RAY);
    }
  }

  /** The run-time check `supply usage <= borrow usage` passes whenever nothing
      negative is unbacked and debt is not outweighed by missing liquidity; with
      the available liquidity covered, both ratios also lie between 0 and a ray. */
  lemma UsageCheckPasses(stableDebt: int, variableDebt: int, available: int, total: int)
    requires 0 <= stableDebt && 0 <= variableDebt && available <= total
    requires stableDebt + variableDebt == 0 || 0 < available + stableDebt + variableDebt
    ensures var r := UsageRatios(stableDebt, variableDebt, available, total);
            && r.Success? && 0 <= r.value.supplyUsage <= r.value.borrowUsage
            && (0 <= available ==> r.value.borrowUsage <= RAY)
  {
    var debt := stableDebt + variableDebt;
    if debt != 0 {
      RayDivAntitone(debt, available + debt, total + debt);
    }
    if 0 <= available {
      UsageInRange(debt, available);
    }
  }

  /** No debt; or what is left and what is lent together positive; or negative even with
      what is unbacked; or negative only without it, and so large that both ratios round
      to nothing. */
  ghost predicate UsageCovered(debt: int, available: int, total: int) {
    var least, most := available + debt, total + debt;
    || debt == 0
    || 0 < least
    || most < 0
    || (least < 0 < most && 2 * debt * RAY < most && debt * RAY < -least + (-least) / 2)
  }

  /** The check passes, without dividing by zero, exactly under that condition. */
  lemma UsageCheckIff(stableDebt: int, variableDebt: int, available: int, total: int)
    requires 0 <= stableDebt + variableDebt && available <= total
    ensures UsageRatios(stableDebt, variableDebt, available, total).Success?
        <==> UsageCovered(stableDebt + variableDebt, available, total)
  {
    var debt := stableDebt + variableDebt;
    var least, most := available + debt, total + debt;
    if debt != 0 && least != 0 && most != 0 {
      hide RayDiv;
      if 0 < least {
        RayDivAntitone(debt, least, most);
      } else if most < 0 {
        RayDivBelowZero(debt, least);
        RayDivBelowZero(debt, most);
        QuotientShrinks(debt * RAY, -most, -least);
      } else {
        RayDivBelowZero(debt, least);
        RoundsToNothing(debt, most);
      }
    }
  }

  /** A quotient by a negative divisor is the negated quotient by its size, rounded toward zero. */
  ghost function Downward(n: int, size: int): int
    requires 0 < size
  {
    if n < size / 2 then 0 else (n - size / 2) / size
  }

  lemma RayDivBelowZero(a: int, b: int)
    requires 0 <= a && b < 0
    ensures RayDiv(a, b) == -Downward(a * RAY, -b)
    ensures 0 <= Downward(a * RAY, -b)
    ensures RayDiv(a, b) == 0 <==> a * RAY < -b + (-b) / 2
  {
    var n, size := a * RAY, -b;
    assert TruncDiv(b, 2) == -(size / 2);
    if n < size / 2 {
      NegatedQuotient(size / 2 - n, size);
      assert (size / 2 - n) / size == 0;
    } else {
      NegatedQuotient(n - size / 2, size);
      DivMonotone(0, n - size / 2, size);
      DivBounds(n - size / 2, size);
      QuotientIsZero(n - size / 2, size);
    }
  }

  lemma NegatedQuotient(n: int, size: int)
    requires 0 <= n && 0 < size
    ensures TruncDiv(n, -size) == -(n / size) && TruncDiv(-n, -size) == n / size
  {
  }

  lemma QuotientIsZero(n: int, size: int)
    requires 0 <= n && 0 < size
    ensures n / size == 0 <==> n < size
  {
    DivBounds(n, size);
    if size <= n {
      DivMonotone(size, n, size);
    }
  }

  lemma QuotientShrinks(n: int, size: int, larger: int)
    requires 0 <= n && 0 < size <= larger
    ensures Downward(n, larger) <= Downward(n, size)
  {
    Halves(size, larger);
    if larger / 2 <= n {
      Shrinks(n - larger / 2, n - size / 2, size, larger);
    } else {
      DownwardNonNegative(n, size);
      hide Downward;
    }
  }

  lemma Halves(size: int, larger: int)
    requires size <= larger
    ensures size / 2 <= larger / 2
  {
  }

  lemma DownwardNonNegative(n: int, size: int)
    requires 0 < size
    ensures 0 <= Downward(n, size)
  {
    if size / 2 <= n {
      DivMonotone(0, n - size / 2, size);
    }
  }

  lemma Shrinks(less: int, more: int, size: int, larger: int)
    requires 0 <= less <= more && 0 < size <= larger
    ensures less / larger <= more / size
  {
    DivMonotone(less, more, larger);
    LargerDivisor(more, size, larger);
  }

  lemma LargerDivisor(n: int, size: int, larger: int)
    requires 0 <= n && 0 < size <= larger
    ensures n / larger <= n / size
  {
    var q, p := n / size, n / larger;
    DivMonotone(0, n, larger);
    DivBounds(n, size);
    DivBounds(n, larger);
    MulLe(size, larger, p);
    SmallerQuotient(p, q, size, larger, n);
  }

  lemma SmallerQuotient(p: int, q: int, size: int, larger: int, n: int)
    requires 0 <= p && 0 < size && size * p <= larger * p && p * larger <= n < q * size + size
    ensures p <= q
  {
    assert (q + 1) * size == q * size + size;
    MulCancelLt(p, q + 1, size);
  }

  lemma RoundsToNothing(a: int, b: int)
    requires 0 <= a && 0 < b
    ensures 0 <= RayDiv(a, b)
    ensures RayDiv(a, b) == 0 <==> 2 * a * RAY < b
  {
    RayDivRounds(a, b);
    var q := RayDiv(a, b);
    if 2 * a * RAY < b {
      assert Rounds(0, a * RAY, b);
      RoundsUnique(q, 0, a * RAY, b);
    }
  }

  /** Usage is zero later only if it was already zero with less debt. */
  lemma ZeroUsageDownward(less: int, more: int, liquidity: int)
    requires 0 <= less <= more && 0 <= liquidity
    requires Usage(more, liquidity) == Success(0)
    ensures Usage(less, liquidity) == Success(0)
  {
    if less != 0 {
      RayDivRounds(more, liquidity + more);
      RayDivRounds(less, liquidity + less);
      RoundsAtMost0(RayDiv(less, liquidity + less), less, liquidity, more);
    }
  }

  lemma RoundsAtMost0(q: int, less: int, liquidity: int, more: int)
    requires 0 < less <= more && 0 <= liquidity && 0 <= q
    requires Rounds(0, more * RAY, liquidity + more)
    requires Rounds(q, less * RAY, liquidity + less)
    ensures q == 0
  {
    assert 2 * (less * RAY) < liquidity + less;
    assert Rounds(0, less * RAY, liquidity + less);
    RoundsUnique(q, 0, less * RAY, liquidity + less);
  }

  // ----- the borrow rate curve -----

  ghost predicate ValidCurve(slope1: int, slope2: int, optimal: int) {
    0 <= slope1 && 0 <= slope2 && 0 < optimal <= RAY
  }

  /** No branch of the curve divides by zero for a usage between 0 and a ray. */
  lemma CurveDefined(base: int, slope1: int, slope2: int, optimal: int, usage: int)
    requires ValidCurve(slope1, slope2, optimal) && 0 <= usage <= RAY
    ensures var r := Curve(base, slope1, slope2, optimal, usage);
            r.Success? && base <= r.value && (usage > optimal ==> base + slope1 <= r.value)
  {
    if usage > optimal {
      RayDivRounds(usage - optimal, RAY - optimal);
      RayMulRounds(slope2, RayDiv(usage - optimal, RAY - optimal));
    } else {
      RayMulRounds(slope1, usage);
      RayDivRounds(RayMul(slope1, usage), optimal);
    }
  }

  lemma RatesDefined(st: Strategy, stableDebt: int, variableDebt: int, averageStableRate: int,
                     available: int, total: int)
    requires st.Valid() && 0 <= stableDebt && 0 <= variableDebt && 0 <= averageStableRate
    requires 0 <= available <= total
    ensures var r := InterestRates(st, stableDebt, variableDebt, averageStableRate, available, total);
            && r.Success?
            && 0 <= r.value.liquidityRate
            && st.marketStableRate <= r.value.stableBorrowRate
            && st.baseVariableBorrowRate <= r.value.variableBorrowRate
  {
    UsageCheckPasses(stableDebt, variableDebt, available, total);
    var ratios := UsageRatios(stableDebt, variableDebt, available, total).value;
    hide UsageRatios;
    var debt := stableDebt + variableDebt;
    CurveDefined(st.baseVariableBorrowRate, st.variableRateSlope1, st.variableRateSlope2,
                 st.optimalUsageRatio, ratios.borrowUsage);
    StableRateDefined(st, ratios.borrowUsage, stableDebt, debt);
    var variableRate := VariableRate(st, ratios.borrowUsage).value;
    OverallRateNonNegative(stableDebt, variableDebt, variableRate, averageStableRate);
    var overall := OverallBorrowRate(stableDebt, variableDebt, variableRate, averageStableRate);
    RayMulRounds(overall, ratios.supplyUsage);
    PercentMulRounds(RayMul(overall, ratios.supplyUsage), PERCENTAGE_FACTOR - st.reserveFactor);
    hide RayMul, PercentMul, Curve, OverallBorrowRate, StableRate, StableToTotalRatio;
  }

  lemma StableRateDefined(st: Strategy, usage: int, stableDebt: int, totalDebt: int)
    requires st.Valid() && 0 <= usage <= RAY && 0 <= stableDebt <= totalDebt
    ensures var ratio := StableToTotalRatio(stableDebt, totalDebt);
            && ratio.Success? && 0 <= ratio.value <= RAY
            && StableRate(st, usage, ratio.value).Success?
            && st.marketStableRate <= StableRate(st, usage, ratio.value).value
  {
    if stableDebt > 0 {
      RayDivRounds(stableDebt, totalDebt);
      MulLe(stableDebt, totalDebt, RAY);
      RoundsAtMost(RayDiv(stableDebt, totalDebt), stableDebt * RAY, totalDebt, RAY);
    }
    var ratio := StableToTotalRatio(stableDebt, totalDebt).value;
    CurveDefined(st.marketStableRate, st.stableRateSlope1, st.stableRateSlope2, st.optimalUsageRatio, usage);
    hide Curve, StableToTotalRatio;
    var optimal := st.optimalStableToTotalDebtRatio;
    if ratio > optimal {
      RayDivRounds(ratio - optimal, RAY - optimal);
      RayMulRounds(st.stableRateExcessOffset, RayDiv(ratio - optimal, RAY - optimal));
    }
  }

  lemma OverallRateNonNegative(stableDebt: int, variableDebt: int, variableRate: int, averageStableRate: int)
    requires 0 <= stableDebt && 0 <= variableDebt && 0 <= variableRate && 0 <= averageStableRate
    ensures 0 <= OverallBorrowRate(stableDebt, variableDebt, variableRate, averageStableRate)
  {
    RayMulRounds(WadToRay(variableDebt), variableRate);
    RayMulRounds(WadToRay(stableDebt), averageStableRate);
    if stableDebt + variableDebt != 0 {
      RayDivRounds(RayMul(WadToRay(variableDebt), variableRate) + RayMul(WadToRay(stableDebt), averageStableRate),
                   WadToRay(stableDebt + variableDebt));
    }
  }

  ghost function CurveAt(base: int, slope1: int, slope2: int, optimal: int, usage: int): int
    requires ValidCurve(slope1, slope2, optimal) && 0 <= usage <= RAY
  {
    CurveDefined(base, slope1, slope2, optimal, usage);
    Curve(base, slope1, slope2, optimal, usage).value
  }

  lemma CurveMonotoneOneSide(base: int, slope1: int, slope2: int, optimal: int, low: int, high: int)
    requires ValidCurve(slope1, slope2, optimal) && 0 <= low <= high <= RAY
    requires high <= optimal || optimal < low
    ensures CurveAt(base, slope1, slope2, optimal, low) <= CurveAt(base, slope1, slope2, optimal, high)
  {
    if high <= optimal {
      RayMulMonotone(slope1, low, slope1, high);
      RayDivMonotone(RayMul(slope1, low), RayMul(slope1, high), optimal);
    } else {
      RayDivMonotone(low - optimal, high - optimal, RAY - optimal);
      RayMulMonotone(slope2, RayDiv(low - optimal, RAY - optimal), slope2, RayDiv(high - optimal, RAY - optimal));
    }
  }

  ghost predicate NonDecreasing(base: int, slope1: int, slope2: int, optimal: int)
    requires ValidCurve(slope1, slope2, optimal)
  {
    forall low, high | 0 <= low <= high <= RAY ::
      CurveAt(base, slope1, slope2, optimal, low) <= CurveAt(base, slope1, slope2, optimal, high)
  }

  lemma NonDecreasingIffNoDropAtKink(base: int, slope1: int, slope2: int, optimal: int)
    requires ValidCurve(slope1, slope2, optimal)
    ensures NonDecreasing(base, slope1, slope2, optimal)
        <==> (optimal == RAY || CurveAt(base, slope1, slope2, optimal, optimal)
                                <= CurveAt(base, slope1, slope2, optimal, optimal + 1))
  {
    hide CurveAt;
    if optimal == RAY || CurveAt(base, slope1, slope2, optimal, optimal)
                         <= CurveAt(base, slope1, slope2, optimal, optimal + 1)
    {
      forall low, high | 0 <= low <= high <= RAY
        ensures CurveAt(base, slope1, slope2, optimal, low) <= CurveAt(base, slope1, slope2, optimal, high)
      {
        if low <= optimal < high {
          CurveMonotoneOneSide(base, slope1, slope2, optimal, low, optimal);
          CurveMonotoneOneSide(base, slope1, slope2, optimal, optimal + 1, high);
        } else {
          CurveMonotoneOneSide(base, slope1, slope2, optimal, low, high);
        }
      }
    }
  }

  /** By how much the half-up product at the kink exceeds the true one. */
  function Overshoot(slope1: int, optimal: int): int {
    RayMul(slope1, optimal) * RAY - slope1 * optimal
  }

  /** What the first unit of usage beyond the kink adds through the second slope. */
  function FirstStep(slope2: int, optimal: int): int {
    if optimal == RAY then 0 else RayMul(slope2, RayDiv(1, RAY - optimal))
  }

  /** The rate never falls as usage grows exactly when the product at the kink does
      not round up by more than half the optimal usage, or by more than the second
      slope's first step makes up for. */
  lemma NonDecreasingIffSmallOvershoot(base: int, slope1: int, slope2: int, optimal: int)
    requires ValidCurve(slope1, slope2, optimal)
    ensures NonDecreasing(base, slope1, slope2, optimal)
        <==> (optimal == RAY || 2 * Overshoot(slope1, optimal) < (2 * FirstStep(slope2, optimal) + 1) * optimal)
  {
    hide NonDecreasing, RayMul, RayDiv;
    NonDecreasingIffNoDropAtKink(base, slope1, slope2, optimal);
    if optimal != RAY {
      var q, step := RayMul(slope1, optimal), FirstStep(slope2, optimal);
      RayMulRounds(slope1, optimal);
      RayDivRounds(q, optimal);
      RateWithin(q, optimal, RayDiv(q, optimal), slope1, step);
    }
  }

  lemma RateWithin(q: int, optimal: int, rate: int, slope1: int, step: int)
    requires 0 < optimal && Rounds(rate, q * RAY, optimal)
    ensures rate <= slope1 + step <==> 2 * (q * RAY - slope1 * optimal) < (2 * step + 1) * optimal
  {
    var k := slope1 + step;
    assert (2 * step + 1) * optimal == (2 * k + 1) * optimal - 2 * (slope1 * optimal);
    if rate <= k {
      MulLe(2 * rate + 1, 2 * k + 1, optimal);
    } else {
      MulLe(2 * k + 1, 2 * rate - 1, optimal);
    }
  }

  /** An exact product at the kink leaves no drop. */
  lemma ExactKinkNonDecreasing(base: int, slope1: int, slope2: int, optimal: int)
    requires ValidCurve(slope1, slope2, optimal)
    requires slope1 * optimal % RAY == 0
    ensures NonDecreasing(base, slope1, slope2, optimal)
  {
    var q := slope1 * optimal / RAY;
    RayMulRounds(slope1, optimal);
    assert Rounds(q, slope1 * optimal, RAY);
    RoundsUnique(RayMul(slope1, optimal), q, slope1 * optimal, RAY);
    RayDivRounds(q, optimal);
    RoundsAtMost(RayDiv(q, optimal), q * RAY, optimal, slope1);
    assert CurveAt(base, slope1, slope2, optimal, optimal) <= base + slope1;
    if optimal < RAY {
      CurveDefined(base, slope1, slope2, optimal, optimal + 1);
    }
    NonDecreasingIffNoDropAtKink(base, slope1, slope2, optimal);
  }

  /** With the kink in the upper half, the rate never drops by more than one unit. */
  lemma KinkDropsAtMostOne(base: int, slope1: int, slope2: int, optimal: int, low: int, high: int)
    requires ValidCurve(slope1, slope2, optimal) && HALF_RAY <= optimal
    requires 0 <= low <= high <= RAY
    ensures CurveAt(base, slope1, slope2, optimal, low) <= CurveAt(base, slope1, slope2, optimal, high) + 1
  {
    if low <= optimal < high {
      RateAtKink(slope1, optimal);
      CurveMonotoneOneSide(base, slope1, slope2, optimal, low, optimal);
      CurveDefined(base, slope1, slope2, optimal, high);
    } else {
      CurveMonotoneOneSide(base, slope1, slope2, optimal, low, high);
    }
  }

  lemma RateAtKink(slope1: int, optimal: int)
    requires 0 <= slope1 && HALF_RAY <= optimal
    ensures RayDiv(RayMul(slope1, optimal), optimal) <= slope1 + 1
  {
    var q := RayMul(slope1, optimal);
    RayMulRounds(slope1, optimal);
    RayDivRounds(q, optimal);
    RoundsFromProduct(q, slope1 * optimal, RAY);
    assert (slope1 + 1) * optimal == slope1 * optimal + optimal;
    RoundsAtMost(RayDiv(q, optimal), q * RAY, optimal, slope1 + 1);
  }

  /** A drop does happen: slope 2 with the kink at 80%. */
  lemma KinkCanDrop()
    ensures Curve(0, 2, 0, 800_000_000_000_000_000_000_000_000, 800_000_000_000_000_000_000_000_000) == Success(3)
    ensures Curve(0, 2, 0, 800_000_000_000_000_000_000_000_000, 800_000_000_000_000_000_000_000_001) == Success(2)
  {
  }

  // ----- the supply rate -----

  /** The overall rate is the debt-weighted mean of the two borrow rates, to
      within half a unit and one wad over the debt. */
  lemma OverallRateIsMean(stableDebt: int, variableDebt: int, variableRate: int, averageStableRate: int)
    requires 0 <= stableDebt && 0 <= variableDebt && 0 <= variableRate && 0 <= averageStableRate
    requires 0 < stableDebt + variableDebt
    ensures var overall := OverallBorrowRate(stableDebt, variableDebt, variableRate, averageStableRate);
            var income := variableDebt * variableRate + stableDebt * averageStableRate;
            var debt := stableDebt + variableDebt;
            -debt - 2 * WAD <= 2 * (overall * debt) - 2 * income <= debt + 2 * WAD
  {
    var debt := stableDebt + variableDebt;
    var v := RayMul(WadToRay(variableDebt), variableRate);
    var w := RayMul(WadToRay(stableDebt), averageStableRate);
    var overall := OverallBorrowRate(stableDebt, variableDebt, variableRate, averageStableRate);
    RayMulRounds(WadToRay(variableDebt), variableRate);
    RayMulRounds(WadToRay(stableDebt), averageStableRate);
    RayDivRounds(v + w, WadToRay(debt));
    hide RayMul, OverallBorrowRate;
    RoundsFromProduct(v, WadToRay(variableDebt) * variableRate, RAY);
    RoundsFromProduct(w, WadToRay(stableDebt) * averageStableRate, RAY);
    RoundsFromProduct(overall, (v + w) * RAY, WadToRay(debt));
    RayProduct(variableDebt, variableRate);
    RayProduct(stableDebt, averageStableRate);
    assert overall * WadToRay(debt) == WAD_RAY_RATIO * (overall * debt);
  }

  lemma RayProduct(amount: int, rate: int)
    ensures WadToRay(amount) * rate == WAD_RAY_RATIO * (amount * rate)
  {
  }

  /** Hence it lies between the two rates, to within 1 and 10^18 / debt. */
  lemma OverallRateBetween(stableDebt: int, variableDebt: int, variableRate: int, averageStableRate: int,
                           low: int, high: int)
    requires 0 <= stableDebt && 0 <= variableDebt && 0 < stableDebt + variableDebt
    requires 0 <= low <= variableRate <= high && low <= averageStableRate <= high
    ensures var overall := OverallBorrowRate(stableDebt, variableDebt, variableRate, averageStableRate);
            var debt := stableDebt + variableDebt;
            low * debt - debt - WAD <= overall * debt <= high * debt + debt + WAD
  {
    OverallRateIsMean(stableDebt, variableDebt, variableRate, averageStableRate);
    hide OverallBorrowRate;
    MulLe(variableRate, high, variableDebt);
    MulLe(averageStableRate, high, stableDebt);
    MulLe(low, variableRate, variableDebt);
    MulLe(low, averageStableRate, stableDebt);
    assert high * (stableDebt + variableDebt) == high * variableDebt + high * stableDebt;
    assert low * (stableDebt + variableDebt) == low * variableDebt + low * stableDebt;
  }

  /** What suppliers are paid per year, in real terms: at most the share of the
      borrowers' payments the reserve factor leaves them, plus rounding. */
  ghost function SupplierShare(reserveFactor: int): real {
    (PERCENTAGE_FACTOR - reserveFactor) as real / PERCENTAGE_FACTOR as real
  }

  lemma SupplyIncomeCovered(debt: int, liquidity: int, overallRate: int, reserveFactor: int, share: int)
    requires 0 <= debt && 0 <= liquidity && 0 <= overallRate && 0 <= reserveFactor <= PERCENTAGE_FACTOR
    requires Usage(debt, liquidity) == Success(share)
    ensures var rate := LiquidityRate(overallRate, share, reserveFactor);
            var pool := (liquidity + debt) as real;
            0 <= rate
            && rate as real * pool
               <= SupplierShare(reserveFactor)
                    * (overallRate as real * debt as real + (overallRate as real / RAY as real + 1.0) * pool / 2.0)
                  + pool / 2.0
  {
    hide RayMul, PercentMul, RayDiv, Usage, SupplierShare;
    UsageInRange(debt, liquidity);
    var earned := RayMul(overallRate, share);
    var rate := PercentMul(earned, PERCENTAGE_FACTOR - reserveFactor);
    RayMulRounds(overallRate, share);
    PercentMulRounds(earned, PERCENTAGE_FACTOR - reserveFactor);
    UsageTimesPool(debt, liquidity);
    RoundsAsReal(earned, overallRate, share, RAY);
    PercentAsShare(rate, earned, reserveFactor);
    IncomeSum(SupplierShare(reserveFactor), (liquidity + debt) as real, overallRate as real, debt as real,
              share as real, earned as real, rate as real);
  }

  /** And at least that share, less the same rounding. */
  lemma SupplyIncomeReached(debt: int, liquidity: int, overallRate: int, reserveFactor: int, share: int)
    requires 0 <= debt && 0 <= liquidity && 0 <= overallRate && 0 <= reserveFactor <= PERCENTAGE_FACTOR
    requires Usage(debt, liquidity) == Success(share)
    ensures var rate := LiquidityRate(overallRate, share, reserveFactor);
            var pool := (liquidity + debt) as real;
            rate as real * pool
            >= SupplierShare(reserveFactor)
                 * (overallRate as real * debt as real - (overallRate as real / RAY as real + 1.0) * pool / 2.0)
               - pool / 2.0
  {
    hide RayMul, PercentMul, RayDiv, Usage, SupplierShare;
    UsageInRange(debt, liquidity);
    var earned := RayMul(overallRate, share);
    var rate := PercentMul(earned, PERCENTAGE_FACTOR - reserveFactor);
    RayMulRounds(overallRate, share);
    PercentMulRounds(earned, PERCENTAGE_FACTOR - reserveFactor);
    UsageTimesPool(debt, liquidity);
    RoundsAsReal(earned, overallRate, share, RAY);
    PercentAsShare(rate, earned, reserveFactor);
    IncomeFloor(SupplierShare(reserveFactor), (liquidity + debt) as real, overallRate as real, debt as real,
                share as real, earned as real, rate as real);
  }

  lemma PercentAsShare(rate: int, earned: int, reserveFactor: int)
    requires 0 <= reserveFactor <= PERCENTAGE_FACTOR
    requires Rounds(rate, earned * (PERCENTAGE_FACTOR - reserveFactor), PERCENTAGE_FACTOR)
    ensures 0.0 <= SupplierShare(reserveFactor) <= 1.0
    ensures rate as real <= SupplierShare(reserveFactor) * earned as real + 0.5
    ensures rate as real >= SupplierShare(reserveFactor) * earned as real - 0.5
  {
    RoundsAsReal(rate, earned, PERCENTAGE_FACTOR - reserveFactor, PERCENTAGE_FACTOR);
  }

  lemma UsageTimesPool(debt: int, liquidity: int)
    requires 0 <= debt && 0 <= liquidity
    ensures Usage(debt, liquidity).Success?
    ensures Usage(debt, liquidity).value as real * (liquidity + debt) as real
         <= RAY as real * debt as real + (liquidity + debt) as real / 2.0
    ensures Usage(debt, liquidity).value as real * (liquidity + debt) as real
         >= RAY as real * debt as real - (liquidity + debt) as real / 2.0
  {
    if debt != 0 {
      var q, pool := RayDiv(debt, liquidity + debt), liquidity + debt;
      RayDivRounds(debt, pool);
      RoundsFromProduct(q, debt * RAY, pool);
      assert (q * pool) as real == q as real * pool as real;
    }
  }

  lemma RoundsAsReal(q: int, a: int, b: int, d: int)
    requires 0 < d && Rounds(q, a * b, d)
    ensures q as real * d as real <= a as real * b as real + d as real / 2.0
    ensures q as real * d as real >= a as real * b as real - d as real / 2.0
  {
    RoundsFromProduct(q, a * b, d);
    assert (q * d) as real == q as real * d as real;
    assert (a * b) as real == a as real * b as real;
  }

  lemma IncomeFloor(f: real, pool: real, ov: real, debt: real, share: real, earned: real, rate: real)
    requires 0.0 <= f <= 1.0 && 0.0 <= pool && 0.0 <= ov
    requires share * pool >= RAY as real * debt - pool / 2.0
    requires earned * RAY as real >= ov * share - RAY as real / 2.0
    requires rate >= f * earned - 0.5
    ensures rate * pool >= f * (ov * debt - (ov / RAY as real + 1.0) * pool / 2.0) - pool / 2.0
  {
    var r := RAY as real;
    RealMulLe(ov * share - r / 2.0, earned * r, pool);
    RealMulLe(r * debt - pool / 2.0, share * pool, ov);
    assert ov * (r * debt - pool / 2.0) == r * (ov * debt - (ov / r) * pool / 2.0);
    assert earned * pool >= ov * debt - (ov / r) * pool / 2.0 - pool / 2.0;
    RealMulLe(ov * debt - (ov / r + 1.0) * pool / 2.0, earned * pool, f);
    RealMulLe(f * earned - 0.5, rate, pool);
  }

  lemma IncomeSum(f: real, pool: real, ov: real, debt: real, share: real, earned: real, rate: real)
    requires 0.0 <= f <= 1.0 && 0.0 <= pool && 0.0 <= ov
    requires share * pool <= RAY as real * debt + pool / 2.0
    requires earned * RAY as real <= ov * share + RAY as real / 2.0
    requires rate <= f * earned + 0.5
    ensures rate * pool <= f * (ov * debt + (ov / RAY as real + 1.0) * pool / 2.0) + pool / 2.0
  {
    var r := RAY as real;
    RealMulLe(earned * r, ov * share + r / 2.0, pool);
    RealMulLe(share * pool, r * debt + pool / 2.0, ov);
    assert earned * pool * r <= ov * (r * debt + pool / 2.0) + r * pool / 2.0;
    assert ov * (r * debt + pool / 2.0) == r * (ov * debt + (ov / r) * pool / 2.0);
    assert earned * pool <= ov * debt + (ov / r) * pool / 2.0 + pool / 2.0;
    RealMulLe(earned * pool, ov * debt + (ov / r + 1.0) * pool / 2.0, f);
    RealMulLe(rate, f * earned + 0.5, pool);
  }
}
