/** How large the slack of a whole run can get: a closed bound for every run, and
    its size for reserves of ordinary magnitude. */
module SlackBounds {
  import opened Arithmetic
  import opened WadRayMath
  import opened Interest
  import opened Compounding
  import opened Rates
  import opened Reserves
  import opened Invariant
  import opened Transactions
  import opened Bridge
  import opened Runs
  import opened Solvency
  import opened SolventRuns

  /** Growth that the roundings of one line's index can hide. */
  const INDEX_ROUNDING: real := 1.0 + 2.0 / R

  /** Every line of the story adds at most `bound` by itself. */
  ghost predicate SlackWithin(st: Strategy, m: Market, story: seq<Entry>, bound: real)
    decreases |story|
  {
    hide Step, StepSlack, Observe;
    story == []
    || ((Observe(m.reserve, story[0].now).Success? ==> StepSlack(m, story[0], 0.0) <= bound)
        && forall next: Market | Leads(st, m, story[0], next) :: SlackWithin(st, next, story[1..], bound))
  }

  /** The deficit of a whole story is at most what its lines add, grown with the
      liquidity index and with the roundings of the index. */
  lemma {:induction false} DeficitBounded(st: Strategy, m: Market, story: seq<Entry>, deficit: real, bound: real)
    requires Sane(st, m) && AllowedStory(st, m, story) && SlackWithin(st, m, story, bound)
    requires 0.0 <= deficit && 0.0 <= bound && SolventWithin(m, deficit)
    ensures Run(st, m, story).Success?
    ensures DeficitAfter(st, m, story, deficit) * m.reserve.liquidityIndex as real
         <= (deficit + bound * |story| as real) * Run(st, m, story).value.reserve.liquidityIndex as real
              * Power(INDEX_ROUNDING, |story|)
    decreases |story|
  {
    hide Step, Sane, Allowed, SolventWithin, StepSlack, Observe;
    if story != [] {
      var e, tail := story[0], story[1..];
      StepSlackGrows(st, m, e, deficit);
      var next, carried := Step(st, m, e).value, deficit + StepSlack(m, e, deficit);
      DeficitBounded(st, next, tail, carried, bound);
      IndexesPositive(st, m, []);
      IndexesPositive(st, next, tail);
      PowerNonNegative(INDEX_ROUNDING, |tail|);
      var before, after := m.reserve.liquidityIndex as real, next.reserve.liquidityIndex as real;
      RealMulLe(deficit + StepSlack(m, e, 0.0), deficit + bound, after * INDEX_ROUNDING);
      ChainStep(DeficitAfter(st, next, tail, carried), carried, deficit, bound, |tail| as real, before, after,
                Run(st, next, tail).value.reserve.liquidityIndex as real, Power(INDEX_ROUNDING, |tail|));
    }
  }

  lemma IndexesPositive(st: Strategy, m: Market, story: seq<Entry>)
    requires Sane(st, m) && AllowedStory(st, m, story)
    ensures Run(st, m, story).Success?
    ensures RAY <= m.reserve.liquidityIndex <= Run(st, m, story).value.reserve.liquidityIndex
  {
    RunKeepsBooks(st, m, story);
    IndexPositive(st, m);
  }

  lemma IndexPositive(st: Strategy, m: Market)
    requires Sane(st, m)
    ensures RAY <= m.reserve.liquidityIndex
  {
    hide SupplyRateImplied;
  }

  lemma {:induction false} PowerNonNegative(x: real, n: nat)
    requires 0.0 <= x
    ensures 0.0 <= Power(x, n)
  {
    if n > 0 {
      PowerNonNegative(x, n - 1);
    }
  }

  lemma ChainStep(total: real, carried: real, deficit: real, bound: real, lines: real, before: real, after: real,
                  last: real, power: real)
    requires 0.0 <= deficit && 0.0 <= bound && 0.0 <= lines && 0.0 <= power
    requires 0.0 < before <= after && 0.0 <= last
    requires carried * before <= (deficit + bound) * after * INDEX_ROUNDING
    requires total * after <= (carried + bound * lines) * last * power
    ensures total * before <= (deficit + bound * (lines + 1.0)) * last * (INDEX_ROUNDING * power)
  {
    var grown := after * INDEX_ROUNDING;
    RealMulLe(before, grown, bound * lines);
    assert (carried + bound * lines) * before <= (deficit + bound * (lines + 1.0)) * grown;
    RealMulLe((carried + bound * lines) * before, (deficit + bound * (lines + 1.0)) * grown, last * power);
    RealMulLe(total * after, (carried + bound * lines) * last * power, before);
    ChainProducts(total, carried + bound * lines, deficit + bound * (lines + 1.0), before, after, last, power);
    RealCancel(total * before, (deficit + bound * (lines + 1.0)) * last * (INDEX_ROUNDING * power), after);
  }

  lemma ChainProducts(total: real, inner: real, outer: real, before: real, after: real, last: real, power: real)
    ensures total * after * before == (total * before) * after
    ensures inner * last * power * before == (inner * before) * (last * power)
    ensures outer * (after * INDEX_ROUNDING) * (last * power) == (outer * last * (INDEX_ROUNDING * power)) * after
  {
  }

  lemma RealCancel(a: real, b: real, c: real)
    requires a * c <= b * c && 0.0 < c
    ensures a <= b
  {
    assert a == a * c / c && b == b * c / c;
  }

  /** One line turns a deficit into that deficit grown with the index, plus its own slack. */
  lemma StepSlackGrows(st: Strategy, m: Market, e: Entry, deficit: real)
    requires Sane(st, m) && Allowed(st, m, e) && 0.0 <= deficit && SolventWithin(m, deficit)
    ensures Observe(m.reserve, e.now).Success? && 0.0 <= StepSlack(m, e, deficit)
    ensures Step(st, m, e).Success? && Sane(st, Step(st, m, e).value)
    ensures SolventWithin(Step(st, m, e).value, deficit + StepSlack(m, e, deficit))
    ensures (deficit + StepSlack(m, e, deficit)) * m.reserve.liquidityIndex as real
         <= (deficit + StepSlack(m, e, 0.0)) * Step(st, m, e).value.reserve.liquidityIndex as real * INDEX_ROUNDING
    ensures m.reserve.liquidityIndex <= Step(st, m, e).value.reserve.liquidityIndex
    ensures 0.0 <= StepSlack(m, e, 0.0)
  {
    hide Observe, Reads, Permitted, ReserveAfter, UserAfter, SupplyRateImplied, UserStableDebt, VariableIndexAt,
         LiquidityIndexAt, AccrualSlack, Accrue, Balanced, Faithful, RayMul, ActionSlack;
    StepStaysSolvent(st, m, e, deficit);
    StepKeeps(st, m, e);
    SupplyNonNegative(m.users);
    ReadPermits(st, m, e);
    ObserveCarries(m.reserve, e.now);
    var r, supply := Observe(m.reserve, e.now).value, TotalScaledSupply(m.users);
    SameFigures(m.reserve, r, supply);
    var after := ReserveAfter(st, r, e).value;
    hide Claims, Assets;
    LineStaysSolvent(st, r, e, after, UserAfter(r, after, e).value, supply, deficit);
    hide Allowed, SeenAt;
    LineSlackGrows(st, r, e, after, supply, deficit);
  }

  lemma LineSlackGrows(st: Strategy, r: Reserve, e: Entry, after: Reserve, supply: int, deficit: real)
    requires ValidAt(st, r, e.now) && r.lastUpdateTimestamp <= e.time && 0 <= supply && 0.0 <= deficit
    requires LiquidityIndexAt(r, e.time) <= after.liquidityIndex && 0.0 <= ActionSlack(r, e)
    ensures (deficit + (AccrualSlack(r, supply, deficit, e.time) + ActionSlack(r, e))) * r.liquidityIndex as real
         <= (deficit + (AccrualSlack(r, supply, 0.0, e.time) + ActionSlack(r, e))) * after.liquidityIndex as real
              * INDEX_ROUNDING
    ensures r.liquidityIndex <= after.liquidityIndex
    ensures 0.0 <= AccrualSlack(r, supply, 0.0, e.time) + ActionSlack(r, e)
  {
    hide ValidAt, LiquidityIndexAt, AccrualSlack, ActionSlack, SupplyGrowth;
    AccrualSlackNonNegative(st, r, e.now, supply, 0.0, e.time);
    IndexOutgrows(st, r, e.now, e.time);
    CarriedTerm(r, supply, deficit, e.time);
    StepSum(deficit, AccrualSlack(r, supply, deficit, e.time) + ActionSlack(r, e),
            AccrualSlack(r, supply, 0.0, e.time) + ActionSlack(r, e), SupplyGrowth(r, e.time), r.liquidityIndex as real,
            LiquidityIndexAt(r, e.time) as real, after.liquidityIndex as real);
  }

  lemma CarriedTerm(r: Reserve, supply: int, deficit: real, time: int)
    ensures AccrualSlack(r, supply, deficit, time)
         == AccrualSlack(r, supply, 0.0, time) + SupplyGrowth(r, time) * deficit / R
  {
    hide DebtSlack, StableSlack, DebtAtUpdate, RateSlack, LiquidityIndexAt, Years, Assets, OverallRate, SupplyGrowth;
    NothingCarried(SupplyGrowth(r, time));
  }

  lemma StepSum(deficit: real, slack: real, own: real, growth: real, before: real, accrued: real, after: real)
    requires 0.0 <= deficit && 0.0 <= own && 0.0 <= growth && 0.0 < before <= accrued <= after
    requires slack == own + growth * deficit / R
    requires before * (R + growth) <= accrued * (R + 2.0)
    ensures (deficit + slack) * before <= (deficit + own) * after * INDEX_ROUNDING
  {
    RealMulLe(accrued * (R + 2.0), after * (R + 2.0), 1.0);
    RealMulLe(before * (R + growth), after * (R + 2.0), deficit / R);
    assert before * (R + growth) * (deficit / R) == (deficit + growth * deficit / R) * before;
    assert after * (R + 2.0) * (deficit / R) == deficit * (after * INDEX_ROUNDING);
    RealMulLe(before, after * INDEX_ROUNDING, own);
    assert (deficit + slack) * before == (deficit + growth * deficit / R) * before + own * before;
  }

  /** The liquidity index grows at least as the linear interest does, less its roundings. */
  lemma IndexOutgrows(st: Strategy, r: Reserve, seen: int, time: int)
    requires ValidAt(st, r, seen) && r.lastUpdateTimestamp <= time
    ensures 0.0 <= SupplyGrowth(r, time) && RAY <= r.liquidityIndex <= LiquidityIndexAt(r, time)
    ensures r.liquidityIndex as real * (R + SupplyGrowth(r, time)) <= LiquidityIndexAt(r, time) as real * (R + 2.0)
  {
    hide SupplyRateImplied, Observe, RayMul, LinearInterest, Rounds, LiquidityIndexAt;
    IncomeGuardsAgree(st, r, seen, time);
    GrowthIsLinear(r, time);
    var index, next := r.liquidityIndex, LiquidityIndexAt(r, time);
    if r.liquidityRate != 0 {
      var linear := LinearInterest(r.liquidityRate, time, r.lastUpdateTimestamp);
      LinearAtLeastRay(r.liquidityRate, time, r.lastUpdateTimestamp);
      LinearAboveIdeal(r.liquidityRate, time, r.lastUpdateTimestamp);
      RayMulRounds(linear, index);
      RoundsAsReal(next, linear, index, RAY);
      IndexSum(index as real, next as real, linear as real, R + SupplyGrowth(r, time));
    }
  }

  lemma IndexSum(index: real, next: real, linear: real, whole: real)
    requires R <= index <= next && next * R >= linear * index - R / 2.0
    requires whole <= linear + 1.0
    ensures whole * index <= next * (R + 2.0)
  {
    RealMulLe(whole, linear + 1.0, index);
    assert (linear + 1.0) * index == linear * index + index;
    assert next * (R + 2.0) == next * R + 2.0 * next;
  }

  // ----- ordinary magnitudes -----

  /** A line of ordinary size: debts of at most 10^27 units, twice that in all, no stable debt, rates
      of at most 100%, indexes of at most two rays, at most a year since the last
      update, and no fee above what is supplied. */
  ghost predicate Modest(r: Reserve, supply: int, e: Entry) {
    && r.principalStableDebt == 0
    && VariableAtUpdate(r) <= RAY && r.scaledVariableDebt <= RAY && Assets(r) <= 2 * RAY
    && supply + r.accruedToTreasuryScaled <= 2 * RAY
    && OverallRate(r) <= RAY && e.time - r.lastUpdateTimestamp <= ONE_YEAR
    && CompoundedInterest(r.variableBorrowRate, e.time, r.lastUpdateTimestamp) <= 3 * RAY
    && LiquidityIndexAt(r, e.time) <= 2 * RAY && VariableIndexAt(r, e.time) <= 2 * RAY
    && (e.action.BackUnbacked? && Accrue(r, e.time).Success? ==>
          var a := Accrue(r, e.time).value;
          && supply + a.accruedToTreasuryScaled <= 2 * RAY
          && e.action.fee <= Supplied(supply, a.accruedToTreasuryScaled, a.liquidityIndex))
  }

  /** One accrual on a solvent reserve can then promise at most ten units too many. */
  lemma SlackIsDust(st: Strategy, r: Reserve, supply: int, e: Entry)
    requires ValidAt(st, r, e.now) && r.lastUpdateTimestamp <= e.time && 0 <= supply && Modest(r, supply, e)
    ensures AccrualSlack(r, supply, 0.0, e.time) <= 10.0 * R
  {
    hide CompoundedInterest, LiquidityIndexAt, VariableIndexAt, VariableAtUpdate, Assets, OverallRate, RateSlack,
         AccrualSlack, SupplyGrowth, SupplyRateImplied, Observe, DebtAtUpdate;
    var time := e.time;
    FiguresNonNegative(st, r, e.now);
    var rates := RateSlack(DebtAtUpdate(r) as real, Assets(r) as real, OverallRate(r) as real);
    RateSlackIsSmall(DebtAtUpdate(r) as real, Assets(r) as real, OverallRate(r) as real);
    var years := Years(r, time);
    assert 0.0 <= years <= 1.0;
    SlackUnfolds(r, supply, 0.0, time, rates);
    PartOf(years, rates);
    hide Years;
    NothingCarried(SupplyGrowth(r, time));
    assert StableSlack(r, time) == 0.0;
    assert DebtSlack(r, time) <= 3.5 * R;
    assert years * rates <= 3.6 * R;
    assert (supply + r.accruedToTreasuryScaled) as real / 2.0 <= R;
    assert LiquidityIndexAt(r, time) as real / 2.0 <= R;
  }

  lemma FiguresNonNegative(st: Strategy, r: Reserve, seen: int)
    requires ValidAt(st, r, seen) && r.principalStableDebt == 0
    ensures 0 <= DebtAtUpdate(r) == VariableAtUpdate(r) <= Assets(r) && 0 <= OverallRate(r)
  {
    hide SupplyRateImplied, Observe, RayMul, TotalStableDebt, OverallBorrowRate;
    RayMulMonotone(0, 0, r.scaledVariableDebt, r.variableBorrowIndex);
    TotalStableGrows(0, r.averageStableBorrowRate, r.totalStableDebtLastUpdated, r.lastUpdateTimestamp,
                     r.lastUpdateTimestamp);
    OverallRateNonNegative(StableAtUpdate(r), VariableAtUpdate(r), r.variableBorrowRate, r.averageStableBorrowRate);
  }

  /** And the transaction itself at most six. */
  lemma ActionSlackIsDust(st: Strategy, r: Reserve, supply: int, e: Entry)
    requires ValidAt(st, r, e.now) && r.lastUpdateTimestamp <= e.time && 0 <= supply && Modest(r, supply, e)
    requires Permitted(st, r, e) && (e.action.BackUnbacked? ==> e.action.scaledSupply == supply)
    ensures ActionSlack(r, e) <= 6.0 * R
  {
    hide CompoundedInterest, LiquidityIndexAt, VariableIndexAt, VariableAtUpdate, Assets, OverallRate,
         SupplyRateImplied, Observe, UserStableDebt, VariableDebtBalance, HTokenBalance, RepaidAmount, BackingSlack,
         Accrue, CanBack, TotalStableDebt, RayMul, Supplied;
    match e.action
    case Repay(amount, Stable, _) => NothingErased(st, r, e);
    case BackUnbacked(scaledSupply, amount, fee, protocolFee) =>
      FeeNonNegative(r, scaledSupply, amount, fee, protocolFee, e.time);
      BackingSlackIsDust(st, r, e.now, scaledSupply, amount, fee, protocolFee, e.time);
    case _ =>
  }

  /** Without stable debt there is nothing to write off. */
  lemma NothingErased(st: Strategy, r: Reserve, e: Entry)
    requires r.principalStableDebt == 0 && e.action.Repay? && e.action.mode == Stable
    requires ValidAt(st, r, e.now) && r.lastUpdateTimestamp <= e.time && Permitted(st, r, e)
    ensures Erased(r, e) == 0
  {
    hide SupplyRateImplied, Observe, RepaidAmount, TotalStableDebt;
    TotalStableGrows(0, r.averageStableBorrowRate, r.totalStableDebtLastUpdated, e.time, e.time);
    RepayClampHolds(r.averageStableBorrowRate, 0, RepaidAmount(r, e.seen, e.action.amount, Stable, e.time),
                    e.seen.stableBorrowRate);
  }

  lemma BackingSlackIsDust(st: Strategy, r: Reserve, seen: int, scaledSupply: int, amount: int, fee: int,
                           protocolFee: int, time: int)
    requires ValidAt(st, r, seen) && r.lastUpdateTimestamp <= time
    requires CanBack(r, scaledSupply, amount, fee, protocolFee, time) && LiquidityIndexAt(r, time) <= 2 * RAY
    requires var a := Accrue(r, time).value;
             && scaledSupply + a.accruedToTreasuryScaled <= 2 * RAY
             && fee <= Supplied(scaledSupply, a.accruedToTreasuryScaled, a.liquidityIndex)
    ensures BackingSlack(r, scaledSupply, fee, protocolFee, time) <= 12 * RAY
  {
    hide SupplyRateImplied, Observe, RayMul, RayDiv, PercentMul, Accrue, TotalStableDebt, LiquidityIndexAt, DebtAccrued,
         Rounds;
    AccrueGrows(st, r, seen, time);
    AccrueCarries(r, time);
    PremiumsSplitFee(fee, protocolFee);
    var a := Accrue(r, time).value;
    var index, treasury := a.liquidityIndex, a.accruedToTreasuryScaled;
    var supplied, premium := Supplied(scaledSupply, treasury, index), fee - PercentMul(fee, protocolFee);
    SuppliedIsDust(scaledSupply, treasury, index);
    var ratio := RayDiv(WadToRay(premium), WadToRay(supplied));
    RatioAtMostRay(premium, supplied);
    RayMulMonotone(ratio + RAY, index, 2 * RAY, 2 * RAY);
    assert RayMul(2 * RAY, 2 * RAY) == 4 * RAY by { FourRays(); }
  }

  lemma FourRays()
    ensures RayMul(2 * RAY, 2 * RAY) == 4 * RAY
  {
  }

  lemma SuppliedIsDust(scaledSupply: int, treasury: int, index: int)
    requires 0 <= scaledSupply && 0 <= treasury && scaledSupply + treasury <= 2 * RAY && 0 <= index <= 2 * RAY
    ensures 0 <= Supplied(scaledSupply, treasury, index) <= 4 * RAY
  {
    hide RayMul;
    RayMulMonotone(scaledSupply, index, scaledSupply, 2 * RAY);
    RayMulMonotone(treasury, index, treasury, 2 * RAY);
    RayMulByTwo(scaledSupply);
    RayMulByTwo(treasury);
  }

  lemma RayMulByTwo(a: int)
    requires 0 <= a
    ensures RayMul(a, 2 * RAY) == 2 * a
  {
  }

  lemma RatioAtMostRay(premium: int, supplied: int)
    requires 0 <= premium <= supplied && 0 < supplied
    ensures 0 <= RayDiv(WadToRay(premium), WadToRay(supplied)) <= RAY
  {
    RayDivRounds(WadToRay(premium), WadToRay(supplied));
    RoundsAtMost(RayDiv(WadToRay(premium), WadToRay(supplied)), WadToRay(premium) * RAY, WadToRay(supplied), RAY);
  }

  ghost predicate ModestStory(st: Strategy, m: Market, story: seq<Entry>)
    decreases |story|
  {
    hide Step, Modest, Observe;
    story == []
    || ((forall r: Reserve | Reads(m.reserve, story[0].now, r) :: Modest(r, TotalScaledSupply(m.users), story[0]))
        && forall next: Market | Leads(st, m, story[0], next) :: ModestStory(st, next, story[1..]))
  }

  lemma ModestLine(st: Strategy, m: Market, e: Entry)
    requires Sane(st, m) && Allowed(st, m, e)
    requires forall r: Reserve | Reads(m.reserve, e.now, r) :: Modest(r, TotalScaledSupply(m.users), e)
    ensures Observe(m.reserve, e.now).Success? && StepSlack(m, e, 0.0) <= 16.0 * R
  {
    hide Observe, Reads, Permitted, SupplyRateImplied, UserStableDebt, Modest, AccrualSlack, ActionSlack;
    ReadPermits(st, m, e);
    SupplyNonNegative(m.users);
    SlackIsDust(st, Observe(m.reserve, e.now).value, TotalScaledSupply(m.users), e);
    ActionSlackIsDust(st, Observe(m.reserve, e.now).value, TotalScaledSupply(m.users), e);
  }

  lemma {:induction false} ModestSlack(st: Strategy, m: Market, story: seq<Entry>)
    requires Sane(st, m) && AllowedStory(st, m, story) && ModestStory(st, m, story)
    ensures SlackWithin(st, m, story, 16.0 * R)
    decreases |story|
  {
    hide Step, Sane, StepSlack, Observe, Modest, Balanced, Faithful, Permitted;
    if story != [] {
      StepKeeps(st, m, story[0]);
      ModestLine(st, m, story[0]);
      ModestSlack(st, Step(st, m, story[0]).value, story[1..]);
    }
  }

  /** Compounded over a quarter of a ray of lines, the roundings of the index at most double. */
  lemma {:induction false} RoundingsAtMostDouble(n: nat)
    requires 4 * n <= RAY
    ensures 0.0 <= Power(INDEX_ROUNDING, n) <= 2.0
  {
    PowerNonNegative(INDEX_ROUNDING, n);
    PowerBelowInverse(2.0 / R, n);
    hide Power;
    var p := Power(INDEX_ROUNDING, n);
    assert n as real * (2.0 / R) <= 0.5;
    assert p * (1.0 - n as real * (2.0 / R)) >= p * 0.5;
  }

  lemma {:induction false} PowerBelowInverse(x: real, n: nat)
    requires 0.0 <= x
    ensures Power(1.0 + x, n) * (1.0 - n as real * x) <= 1.0
  {
    if n > 0 {
      PowerBelowInverse(x, n - 1);
      PowerNonNegative(1.0 + x, n - 1);
      var p, k := Power(1.0 + x, n - 1), (n - 1) as real;
      assert Power(1.0 + x, n) == (1.0 + x) * p && n as real == k + 1.0;
      hide Power;
      InverseStep(p, x, k);
    }
  }

  lemma InverseStep(p: real, x: real, k: real)
    requires 0.0 <= p && 0.0 <= x && 0.0 <= k && p * (1.0 - k * x) <= 1.0
    ensures (1.0 + x) * p * (1.0 - (k + 1.0) * x) <= 1.0
  {
    assert (1.0 + x) * (1.0 - (k + 1.0) * x) == (1.0 - k * x) - (k + 1.0) * (x * x);
    NonNegativeProduct(k + 1.0, x * x);
    RealMulLe((1.0 + x) * (1.0 - (k + 1.0) * x), 1.0 - k * x, p);
    assert (1.0 + x) * p * (1.0 - (k + 1.0) * x) == (1.0 + x) * (1.0 - (k + 1.0) * x) * p;
  }

  /** Over any run of ordinary size from a solvent start, suppliers and treasury are
      promised at most sixty-four of the smallest units too many for each line of the run. */
  lemma ModestRunStaysSolvent(st: Strategy, m: Market, story: seq<Entry>)
    requires Sane(st, m) && AllowedStory(st, m, story) && ModestStory(st, m, story)
    requires SolventWithin(m, 0.0) && 4 * |story| <= RAY
    ensures Run(st, m, story).Success?
    ensures var n := Run(st, m, story).value;
            n.reserve.liquidityIndex <= 2 * RAY ==> SolventWithin(n, 64.0 * R * |story| as real)
  {
    hide Run, AllowedStory, Sane, ModestStory, SlackWithin, DeficitAfter;
    ModestSlack(st, m, story);
    RunStaysSolvent(st, m, story, 0.0);
    DeficitBounded(st, m, story, 0.0, 16.0 * R);
    RoundingsAtMostDouble(|story|);
    IndexesPositive(st, m, story);
    var n := Run(st, m, story).value;
    if n.reserve.liquidityIndex <= 2 * RAY {
      hide Claims, Assets, Power;
      PerLine(DeficitAfter(st, m, story, 0.0), |story| as real, m.reserve.liquidityIndex as real,
                   n.reserve.liquidityIndex as real, Power(INDEX_ROUNDING, |story|));
    }
  }

  lemma PerLine(deficit: real, lines: real, before: real, after: real, power: real)
    requires 0.0 <= lines && R <= before && 0.0 <= after <= 2.0 * R && 0.0 <= power <= 2.0
    requires deficit * before <= (0.0 + 16.0 * R * lines) * after * power
    ensures deficit <= 64.0 * R * lines
  {
    var slack := 16.0 * R * lines;
    NonNegativeProduct(slack, after);
    RealMulLe(after, 2.0 * R, slack);
    RealMulLe(power, 2.0, slack * after);
    assert deficit * before <= 64.0 * R * lines * R;
    NonNegativeProduct(64.0 * R * lines, before - R);
    assert deficit * before <= 64.0 * R * lines * before;
    RealCancel(deficit, 64.0 * R * lines, before);
  }

  lemma NothingCarried(growth: real)
    ensures growth * 0.0 / R == 0.0
  {
  }

  lemma PartOf(part: real, whole: real)
    requires 0.0 <= part <= 1.0 && 0.0 <= whole
    ensures part * whole <= whole
  {
    assert 0.0 <= (1.0 - part) * whole;
  }

  lemma RateSlackIsSmall(debt: real, pool: real, overall: real)
    requires 0.0 <= debt <= R && 0.0 <= pool <= 2.0 * R && 0.0 <= overall <= R
    ensures 0.0 <= RateSlack(debt, pool, overall) <= 3.6 * R
  {
    PartOf(overall / R, pool);
    NonNegativeProduct(overall / R, pool);
    var product := overall / R * pool;
    assert (overall / R + 1.0) * pool == product + pool;
  }
}
