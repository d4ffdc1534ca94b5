/** Where the rates lie: on two straight lines between three corners, and the
    premium of a reserve with too much stable debt. */
module RateCurve {
  import opened Arithmetic
  import opened WadRayMath
  import opened Failures
  import opened Rates
  import opened Reserves
  import opened Invariant

  // ----- usage ratios -----

  /** `share` is the part of `whole` that `part` is, in rays, to the nearest unit. */
  ghost predicate IsShare(share: int, part: int, whole: int) {
    -whole <= 2 * (share * whole) - 2 * (part * RAY) <= whole
  }

  /** Both ratios are the debt's share of what is there: of the liquidity at hand, and
      of that with the unbacked part. */
  lemma RatiosAreShares(stableDebt: int, variableDebt: int, available: int, total: int)
    requires 0 <= stableDebt && 0 <= variableDebt && 0 <= available <= total
    ensures UsageRatios(stableDebt, variableDebt, available, total).Success?
    ensures var r, debt := UsageRatios(stableDebt, variableDebt, available, total).value, stableDebt + variableDebt;
            IsShare(r.borrowUsage, debt, available + debt) && IsShare(r.supplyUsage, debt, total + debt)
  {
    UsageCheckPasses(stableDebt, variableDebt, available, total);
    UsageIsShare(stableDebt + variableDebt, available);
    UsageIsShare(stableDebt + variableDebt, total);
    hide Usage;
  }

  lemma UsageIsShare(debt: int, liquidity: int)
    requires 0 <= debt && 0 <= liquidity
    ensures Usage(debt, liquidity).Success? && IsShare(Usage(debt, liquidity).value, debt, liquidity + debt)
  {
    if debt != 0 {
      RayDivRounds(debt, liquidity + debt);
      RoundsFromProduct(RayDiv(debt, liquidity + debt), debt * RAY, liquidity + debt);
    }
  }

  // ----- one curve -----

  /** On the line of the first slope up to the optimal usage, on that of the second
      beyond it, to within the roundings of the two half-up operations. */
  ghost predicate OnSlopes(rate: int, base: int, slope1: int, slope2: int, optimal: int, usage: int) {
    if usage <= optimal then
      -(optimal + RAY) <= 2 * (optimal * (rate - base)) - 2 * (slope1 * usage) <= optimal + RAY
    else
      var rest := RAY - optimal;
      -(RAY + slope2) * rest
      <= 2 * RAY * (rest * (rate - base - slope1)) - 2 * RAY * (slope2 * (usage - optimal))
      <= (RAY + slope2) * rest
  }

  lemma CurveOnSlopes(base: int, slope1: int, slope2: int, optimal: int, usage: int)
    requires ValidCurve(slope1, slope2, optimal) && 0 <= usage <= RAY
    ensures Curve(base, slope1, slope2, optimal, usage).Success?
    ensures OnSlopes(Curve(base, slope1, slope2, optimal, usage).value, base, slope1, slope2, optimal, usage)
  {
    if usage <= optimal {
      hide RayMul, RayDiv, Rounds;
      var q := RayMul(slope1, usage);
      RayMulRounds(slope1, usage);
      RayDivRounds(q, optimal);
      var p := RayDiv(q, optimal);
      RoundsFromProduct(q, slope1 * usage, RAY);
      RoundsFromProduct(p, q * RAY, optimal);
      assert optimal * p == p * optimal;
    } else {
      PartOfSlope(slope2, usage - optimal, RAY - optimal);
    }
  }

  /** A slope taken in proportion to `part` of `whole`. */
  lemma PartOfSlope(slope: int, part: int, whole: int)
    requires 0 <= slope && 0 <= part && 0 < whole
    ensures var x := RayMul(slope, RayDiv(part, whole));
            -(RAY + slope) * whole <= 2 * RAY * (whole * x) - 2 * RAY * (slope * part) <= (RAY + slope) * whole
  {
    hide RayMul, RayDiv, Rounds;
    var excess := RayDiv(part, whole);
    RayDivRounds(part, whole);
    RayMulRounds(slope, excess);
    var x := RayMul(slope, excess);
    RoundsFromProduct(excess, part * RAY, whole);
    RoundsFromProduct(x, slope * excess, RAY);
    PartOfSlopeOf(slope, part, whole, excess, x);
  }

  lemma PartOfSlopeOf(slope: int, part: int, whole: int, excess: int, x: int)
    requires 0 <= slope && 0 < whole
    requires 2 * (excess * whole) - whole <= 2 * (part * RAY) <= 2 * (excess * whole) + whole
    requires 2 * (x * RAY) - RAY <= 2 * (slope * excess) <= 2 * (x * RAY) + RAY
    ensures -(RAY + slope) * whole <= 2 * RAY * (whole * x) - 2 * RAY * (slope * part) <= (RAY + slope) * whole
  {
    MulLe(2 * (x * RAY) - RAY, 2 * (slope * excess), whole);
    MulLe(2 * (slope * excess), 2 * (x * RAY) + RAY, whole);
    MulLe(2 * (excess * whole) - whole, 2 * (part * RAY), slope);
    MulLe(2 * (part * RAY), 2 * (excess * whole) + whole, slope);
    assert (2 * (x * RAY) - RAY) * whole == 2 * RAY * (whole * x) - RAY * whole;
    assert (2 * (x * RAY) + RAY) * whole == 2 * RAY * (whole * x) + RAY * whole;
    assert 2 * (slope * excess) * whole == 2 * (excess * whole) * slope;
    assert 2 * (part * RAY) * slope == 2 * RAY * (slope * part);
    assert (2 * (excess * whole) - whole) * slope == 2 * (excess * whole) * slope - whole * slope;
    assert (2 * (excess * whole) + whole) * slope == 2 * (excess * whole) * slope + whole * slope;
    assert (RAY + slope) * whole == RAY * whole + whole * slope;
  }

  /** The corners: the base at no usage, and both slopes on top at full usage. */
  lemma CurveCorners(base: int, slope1: int, slope2: int, optimal: int)
    requires ValidCurve(slope1, slope2, optimal)
    ensures Curve(base, slope1, slope2, optimal, 0) == Success(base)
    ensures Curve(base, slope1, slope2, optimal, RAY)
         == Success(if optimal == RAY then base + slope1 else base + slope1 + slope2)
  {
    RayMulIdentity(slope1);
    RayMulIdentity(slope2);
    RayDivZero(optimal);
    WholeShare(RAY);
    FullExit(slope1, RAY);
    if optimal != RAY {
      WholeShare(RAY - optimal);
    }
    hide RayMul, RayDiv;
  }

  lemma WholeShare(whole: int)
    requires 0 < whole
    ensures RayDiv(whole, whole) == RAY
  {
    RayDivRounds(whole, whole);
    assert Rounds(RAY, whole * RAY, whole);
    RoundsUnique(RAY, RayDiv(whole, whole), whole * RAY, whole);
  }

  // ----- the rates of a strategy -----

  lemma VariableRateOnSlopes(st: Strategy, usage: int)
    requires st.Valid() && 0 <= usage <= RAY
    ensures VariableRate(st, usage).Success?
    ensures OnSlopes(VariableRate(st, usage).value, st.baseVariableBorrowRate, st.variableRateSlope1,
                     st.variableRateSlope2, st.optimalUsageRatio, usage)
    ensures VariableRate(st, 0) == Success(st.baseVariableBorrowRate)
    ensures var full := VariableRate(st, RAY);
            && full.Success?
            && full.value == st.baseVariableBorrowRate + st.variableRateSlope1
                             + (if st.optimalUsageRatio == RAY then 0 else st.variableRateSlope2)
  {
    hide Curve, OnSlopes;
    CurveOnSlopes(st.baseVariableBorrowRate, st.variableRateSlope1, st.variableRateSlope2, st.optimalUsageRatio, usage);
    CurveCorners(st.baseVariableBorrowRate, st.variableRateSlope1, st.variableRateSlope2, st.optimalUsageRatio);
  }

  /** At the optimal usage the first slope counts in full, to within the known overshoot. */
  lemma VariableRateAtOptimal(st: Strategy)
    requires st.Valid()
    ensures VariableRate(st, st.optimalUsageRatio).Success?
    ensures var above := VariableRate(st, st.optimalUsageRatio).value - st.baseVariableBorrowRate
                         - st.variableRateSlope1;
            -(st.optimalUsageRatio + RAY) <= 2 * (st.optimalUsageRatio * above) <= st.optimalUsageRatio + RAY
  {
    hide VariableRate;
    var base, optimal := st.baseVariableBorrowRate, st.optimalUsageRatio;
    VariableRateOnSlopes(st, optimal);
    var rate := VariableRate(st, optimal).value;
    assert optimal * (rate - base) - st.variableRateSlope1 * optimal == optimal * (rate - base - st.variableRateSlope1);
  }

  /** The stable rate without its premium lies on the stable slopes above the market rate. */
  lemma StableRateOnSlopes(st: Strategy, usage: int)
    requires st.Valid() && 0 <= usage <= RAY
    ensures StableRate(st, usage, 0).Success?
    ensures OnSlopes(StableRate(st, usage, 0).value, st.marketStableRate, st.stableRateSlope1, st.stableRateSlope2,
                     st.optimalUsageRatio, usage)
    ensures StableRate(st, 0, 0) == Success(st.marketStableRate)
    ensures var full := StableRate(st, RAY, 0);
            && full.Success?
            && full.value == st.marketStableRate + st.stableRateSlope1
                             + (if st.optimalUsageRatio == RAY then 0 else st.stableRateSlope2)
  {
    hide Curve, OnSlopes;
    CurveOnSlopes(st.marketStableRate, st.stableRateSlope1, st.stableRateSlope2, st.optimalUsageRatio, usage);
    CurveCorners(st.marketStableRate, st.stableRateSlope1, st.stableRateSlope2, st.optimalUsageRatio);
  }

  /** What a stable share beyond the optimal one adds: the offset in proportion to the
      excess, all of it when all debt is stable, and nothing up to the optimal share. */
  ghost predicate OnPremium(premium: int, offset: int, optimal: int, share: int) {
    if share <= optimal then premium == 0
    else
      var rest := RAY - optimal;
      && -(RAY + offset) * rest
         <= 2 * RAY * (rest * premium) - 2 * RAY * (offset * (share - optimal))
         <= (RAY + offset) * rest
      && (share == RAY ==> premium == offset)
  }

  lemma StablePremium(st: Strategy, usage: int, share: int)
    requires st.Valid() && 0 <= usage <= RAY && 0 <= share <= RAY
    ensures StableRate(st, usage, share).Success? && StableRate(st, usage, 0).Success?
    ensures OnPremium(StableRate(st, usage, share).value - StableRate(st, usage, 0).value,
                      st.stableRateExcessOffset, st.optimalStableToTotalDebtRatio, share)
  {
    var offset, optimal := st.stableRateExcessOffset, st.optimalStableToTotalDebtRatio;
    CurveDefined(st.marketStableRate, st.stableRateSlope1, st.stableRateSlope2, st.optimalUsageRatio, usage);
    hide Curve;
    if optimal < share {
      PartOfSlope(offset, share - optimal, RAY - optimal);
      WholeShare(RAY - optimal);
      RayMulIdentity(offset);
    }
    hide RayMul, RayDiv;
  }

  // ----- a closed record -----

  /** The three rates of a closed record, against its own debts and liquidity. */
  ghost predicate RatesFit(st: Strategy, c: Reserve) {
    var debt := c.totalStableDebt + c.totalVariableDebt;
    && IsShare(c.borrowUsageRatio, debt, c.availableLiquidity + debt)
    && IsShare(c.supplyUsageRatio, debt, c.availableLiquidity + c.unbacked + debt)
    && OnSlopes(c.variableBorrowRate, st.baseVariableBorrowRate, st.variableRateSlope1, st.variableRateSlope2,
                st.optimalUsageRatio, c.borrowUsageRatio)
    && exists share, plain :: StableParts(st, c, share, plain)
  }

  /** The stable rate is `plain` and the premium of a stable share of the debt. */
  ghost predicate StableParts(st: Strategy, c: Reserve, share: int, plain: int) {
    && IsShare(share, c.totalStableDebt, c.totalStableDebt + c.totalVariableDebt)
    && OnSlopes(plain, st.marketStableRate, st.stableRateSlope1, st.stableRateSlope2, st.optimalUsageRatio,
                c.borrowUsageRatio)
    && OnPremium(c.stableBorrowRate - plain, st.stableRateExcessOffset, st.optimalStableToTotalDebtRatio, share)
  }

  lemma StableShare(stableDebt: int, totalDebt: int)
    requires 0 <= stableDebt <= totalDebt
    ensures StableToTotalRatio(stableDebt, totalDebt).Success?
    ensures var share := StableToTotalRatio(stableDebt, totalDebt).value;
            0 <= share <= RAY && IsShare(share, stableDebt, totalDebt)
  {
    if stableDebt > 0 {
      RayDivRounds(stableDebt, totalDebt);
      RoundsFromProduct(RayDiv(stableDebt, totalDebt), stableDebt * RAY, totalDebt);
      MulLe(stableDebt, totalDebt, RAY);
      RoundsAtMost(RayDiv(stableDebt, totalDebt), stableDebt * RAY, totalDebt, RAY);
    }
  }

  /** Every record that a transaction closes has rates that fit it. */
  lemma ClosedRatesFit(st: Strategy, r: Reserve)
    requires Ready(st, r)
    ensures Close(st, r).Success? && RatesFit(st, Close(st, r).value)
  {
    hide TotalStableDebt, RayMul, VariableRate, StableRate, StableToTotalRatio, Usage, OverallBorrowRate, LiquidityRate,
         OnSlopes, OnPremium, IsShare, NormalizedDebt;
    var stable, variable, total := r.totalStableDebt, r.totalVariableDebt, r.availableLiquidity + r.unbacked;
    TotalStableGrows(r.principalStableDebt, r.averageStableBorrowRate, r.totalStableDebtLastUpdated,
                     r.lastUpdateTimestamp, r.lastUpdateTimestamp);
    RayMulMonotone(0, 0, r.scaledVariableDebt, r.variableBorrowIndex);
    RatesDefined(st, stable, variable, r.averageStableBorrowRate, r.availableLiquidity, total);
    RatiosAreShares(stable, variable, r.availableLiquidity, total);
    UsageCheckPasses(stable, variable, r.availableLiquidity, total);
    StableShare(stable, stable + variable);
    var c := Close(st, r).value;
    var share := StableToTotalRatio(stable, stable + variable).value;
    VariableRateOnSlopes(st, c.borrowUsageRatio);
    StableRateOnSlopes(st, c.borrowUsageRatio);
    StablePremium(st, c.borrowUsageRatio, share);
    assert StableParts(st, c, share, StableRate(st, c.borrowUsageRatio, 0).value);
  }
}
