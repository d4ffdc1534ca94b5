/** No run lets the reserve keep what it earns: what it holds and is owed stays within
    what suppliers and treasury may claim, up to a shortfall that is spelled out. */
module PayoutRuns {
  import opened WadRayMath
  import opened Compounding
  import opened Failures
  import opened Rates
  import opened Reserves
  import opened Invariant
  import opened Transactions
  import opened Bridge
  import opened Runs
  import opened Solvency
  import opened SolventRuns
  import opened Payout

  // ----- what one transaction moves -----

  /** Stable debt that a repayment pays beyond what the reserve counts as owed. */
  ghost function Overpaid(r: Reserve, e: Entry): int {
    var extra := LiquidityAdded(r, e) + StableAdded(r, e);
    if e.action.Repay? && e.action.mode == Stable && 0 < extra then extra else 0
  }

  /** Rounding of the amount a transaction moves, and what it overpays, in rays. */
  ghost function KeptSlack(r: Reserve, e: Entry): real {
    match e.action
    case Repay(_, Stable, _) => R * Overpaid(r, e) as real
    case _ => ActionSlack(r, e)
  }

  lemma KeptCovers(st: Strategy, r: Reserve, e: Entry)
    requires ValidAt(st, r, e.now) && r.lastUpdateTimestamp <= e.time && !e.action.BackUnbacked?
    requires 0 <= e.seen.scaledVariableDebt <= r.scaledVariableDebt
    requires 0 <= UserStableDebt(e.seen, e.time) && Permitted(st, r, e)
    requires RAY <= LiquidityIndexAt(r, e.time) && RAY <= VariableIndexAt(r, e.time)
    ensures 0.0 <= KeptSlack(r, e)
    ensures (SupplyAdded(r, e) * LiquidityIndexAt(r, e.time)) as real
         >= R * (LiquidityAdded(r, e) + UnbackedAdded(r, e) + StableAdded(r, e) + VariableMoved(r, e)) as real
            - KeptSlack(r, e)
  {
    hide RayMul, RayDiv, LiquidityIndexAt, VariableIndexAt, SupplyRateImplied, Observe, UserStableDebt,
         VariableDebtBalance, HTokenBalance, WithdrawnAmount, RepaidAmount, StableAfterRepay, StableAccrued, SeenAt;
    var index, debtIndex, scaled := LiquidityIndexAt(r, e.time), VariableIndexAt(r, e.time), r.scaledVariableDebt;
    SeenDebtNonNegative(st, r, e);
    match e.action
    case Deposit(amount) => MintedShares(amount, index);
    case MintUnbacked(amount) => MintedShares(amount, index);
    case Withdraw(amount) => MintedShares(WithdrawnAmount(r, e.seen, amount, e.time), index);
    case Borrow(amount, mode) =>
      if mode == Variable { MovedShares(scaled, amount, debtIndex); }
    case Repay(amount, mode, _) =>
      if mode == Variable {
        var repaid := RepaidAmount(r, e.seen, amount, Variable, e.time);
        BurnedWithinDebt(st, r, e.now, e.seen, repaid, e.time);
        MovedShares(scaled, repaid, debtIndex);
      }
    case SwapRateMode(mode) =>
      if mode == Stable {
        MovedShares(scaled, UserStableDebt(e.seen, e.time), debtIndex);
      } else {
        var debt := VariableDebtBalance(r, e.seen, e.time);
        BurnedWithinDebt(st, r, e.now, e.seen, debt, e.time);
        MovedShares(scaled, debt, debtIndex);
      }
  }

  lemma BackingPaysOut(st: Strategy, r: Reserve, e: Entry, after: Reserve, u: User, supply: int)
    requires ValidAt(st, r, e.now) && r.lastUpdateTimestamp <= e.time
    requires e.action.BackUnbacked? && e.action.scaledSupply == supply && Permitted(st, r, e)
    requires ReserveAfter(st, r, e) == Success(after) && UserAfter(r, after, e) == Success(u)
    requires Accrue(r, e.time).Success? && VariableIndexAt(r, e.time) != 0
    ensures var a := Accrue(r, e.time).value;
            (Claims(after, supply - e.seen.scaledHTokenBalance + u.scaledHTokenBalance) - Claims(a, supply)) as real
            >= R * (LiquidityAdded(r, e) + UnbackedAdded(r, e) + StableAdded(r, e) + VariableMoved(r, e)) as real
               - KeptSlack(r, e)
    ensures 0.0 <= KeptSlack(r, e)
  {
    hide RayMul, RayDiv, LiquidityIndexAt, VariableIndexAt, Accrue, ValidAt, CanBack, BackingSlack, AfterBackUnbacked;
    match e.action
    case BackUnbacked(scaledSupply, amount, fee, protocolFee) =>
      AccrueCarries(r, e.time);
      FeeNonNegative(r, scaledSupply, amount, fee, protocolFee, e.time);
      BackingConservesFee(st, r, e.now, scaledSupply, amount, fee, protocolFee, e.time);
  }

  /** No transaction adds less to what is promised than to what is held and owed. */
  lemma ActionPaysOut(st: Strategy, r: Reserve, e: Entry, after: Reserve, u: User, supply: int)
    requires ValidAt(st, r, e.now) && r.lastUpdateTimestamp <= e.time && 0 < e.time
    requires 0 <= e.seen.scaledVariableDebt <= r.scaledVariableDebt
    requires 0 <= UserStableDebt(e.seen, e.time) && Permitted(st, r, e)
    requires e.action.BackUnbacked? ==> e.action.scaledSupply == supply
    requires ReserveAfter(st, r, e) == Success(after) && UserAfter(r, after, e) == Success(u)
    requires Accrue(r, e.time).Success?
    ensures var a := Accrue(r, e.time).value;
            (Claims(after, supply - e.seen.scaledHTokenBalance + u.scaledHTokenBalance) - Claims(a, supply)) as real
            >= R * (Assets(after) - Assets(a)) as real - KeptSlack(r, e)
    ensures 0.0 <= KeptSlack(r, e)
  {
    hide RayMul, RayDiv, LiquidityIndexAt, VariableIndexAt, Accrue, SupplyRateImplied, Observe, UserStableDebt,
         Permitted, ReserveAfter, UserAfter, Claims, Assets, Keeps, KeptSlack, VariableMoved, SupplyAdded,
         LiquidityAdded, UnbackedAdded, StableAdded, SeenAt;
    IndexGuardsAgree(st, r, e.now, e.time, 0);
    IncomeGuardsAgree(st, r, e.now, e.time);
    ReserveStepKeeps(st, r, e);
    ReserveAfterCarries(st, r, e);
    AssetsMove(st, r, e, after);
    if e.action.BackUnbacked? {
      BackingPaysOut(st, r, e, after, u, supply);
    } else {
      ClaimsMove(st, r, e, after, u, supply);
      KeptCovers(st, r, e);
    }
  }

  // ----- whole runs -----

  ghost predicate PaidOutWithin(m: Market, surplus: real) {
    Claims(m.reserve, TotalScaledSupply(m.users)) as real >= R * Assets(m.reserve) as real - surplus
  }

  /** What one line of a story adds to the shortfall already carried. */
  ghost function StepKept(m: Market, e: Entry, surplus: real): real
    requires Observe(m.reserve, e.now).Success?
  {
    var r := Observe(m.reserve, e.now).value;
    PayoutSlack(r, TotalScaledSupply(m.users), surplus, e.time) + KeptSlack(r, e)
  }

  ghost function SurplusAfter(st: Strategy, m: Market, story: seq<Entry>, surplus: real): real
    decreases |story|
  {
    hide Step, StepKept, Observe;
    if story == [] || Observe(m.reserve, story[0].now).Failure? || Step(st, m, story[0]).Failure? then surplus
    else
      SurplusAfter(st, Step(st, m, story[0]).value, story[1..], surplus + StepKept(m, story[0], surplus))
  }

  lemma PayoutSlackNonNegative(st: Strategy, r: Reserve, seen: int, supply: int, surplus: real, time: int)
    requires ValidAt(st, r, seen) && r.lastUpdateTimestamp <= time && 0 <= supply && 0.0 <= surplus
    ensures 0.0 <= PayoutSlack(r, supply, surplus, time)
  {
    hide SupplyRateImplied, SeenAt, RayMul, RateSlack, Excess, DebtAtUpdate, OverallRate, LiquidityIndexAt, Assets;
    ValidNow(st, r, seen);
    IncomeGuardsAgree(st, r, seen, time);
    PaidAtLeast(st, r);
    GrowthIsProduct(st, r, time);
    hide Years;
    NonNegativeProduct(r.liquidityRate as real, Years(r, time));
    NonNegativeProduct(SupplyGrowth(r, time), surplus);
    ClaimsNonNegative(r, supply);
    hide SupplyGrowth, Claims;
    NonNegativeProduct(Years(r, time), RateSlack(DebtAtUpdate(r) as real, Assets(r) as real, OverallRate(r) as real));
  }

  lemma ClaimsNonNegative(r: Reserve, supply: int)
    requires 0 <= supply && 0 <= r.accruedToTreasuryScaled && 0 <= r.liquidityIndex
    ensures 0 <= Claims(r, supply)
  {
  }

  /** One line, seen from the reserve as read back: accrual first, then the amount moved. */
  lemma LinePaysOut(st: Strategy, r: Reserve, e: Entry, after: Reserve, u: User, supply: int, surplus: real)
    requires ValidAt(st, r, e.now) && r.lastUpdateTimestamp <= e.time && 0 < e.time
    requires 0 <= e.seen.scaledVariableDebt <= r.scaledVariableDebt
    requires e.action.BackUnbacked? ==> e.action.scaledSupply == supply
    requires 0 <= UserStableDebt(e.seen, e.time) && Permitted(st, r, e)
    requires ReserveAfter(st, r, e) == Success(after) && UserAfter(r, after, e) == Success(u)
    requires 0 <= supply && 0.0 <= surplus && Claims(r, supply) as real >= R * Assets(r) as real - surplus
    ensures Claims(after, supply - e.seen.scaledHTokenBalance + u.scaledHTokenBalance) as real
         >= R * Assets(after) as real - surplus - PayoutSlack(r, supply, surplus, e.time) - KeptSlack(r, e)
    ensures 0.0 <= PayoutSlack(r, supply, surplus, e.time) && 0.0 <= KeptSlack(r, e)
  {
    hide Observe, Permitted, ReserveAfter, UserAfter, SupplyRateImplied, UserStableDebt, PayoutSlack, Accrue, RayMul,
         Claims, Assets, KeptSlack, SeenAt;
    AccrualPaysOut(st, r, e.now, e.time, supply, surplus);
    PayoutSlackNonNegative(st, r, e.now, supply, surplus, e.time);
    ActionPaysOut(st, r, e, after, u, supply);
  }

  lemma StepPaysOut(st: Strategy, m: Market, e: Entry, surplus: real)
    requires Sane(st, m) && Allowed(st, m, e)
    requires 0.0 <= surplus && PaidOutWithin(m, surplus)
    ensures Step(st, m, e).Success?
    ensures Observe(m.reserve, e.now).Success? && 0.0 <= StepKept(m, e, surplus)
    ensures PaidOutWithin(Step(st, m, e).value, surplus + StepKept(m, e, surplus))
  {
    hide Observe, Reads, Permitted, ReserveAfter, UserAfter, SupplyRateImplied, UserStableDebt, VariableIndexAt,
         LiquidityIndexAt, PayoutSlack, Accrue, Balanced, Faithful, RayMul, KeptSlack, SeenAt;
    StepKeeps(st, m, e);
    SupplyNonNegative(m.users);
    ReadPermits(st, m, e);
    ObserveCarries(m.reserve, e.now);
    var r, supply := Observe(m.reserve, e.now).value, TotalScaledSupply(m.users);
    var after := ReserveAfter(st, r, e).value;
    var u := UserAfter(r, after, e).value;
    TotalsAfterUpdate(m.users, e.user, u);
    SameFigures(m.reserve, r, supply);
    hide Claims, Assets;
    LinePaysOut(st, r, e, after, u, supply, surplus);
  }

  /** Over every permitted story, what the reserve holds and is owed stays within what
      suppliers and treasury may claim, up to the accumulated shortfall. */
  lemma {:induction false} RunPaysOut(st: Strategy, m: Market, story: seq<Entry>, surplus: real)
    requires Sane(st, m) && AllowedStory(st, m, story)
    requires 0.0 <= surplus && PaidOutWithin(m, surplus)
    ensures Run(st, m, story).Success?
    ensures PaidOutWithin(Run(st, m, story).value, SurplusAfter(st, m, story, surplus))
    decreases |story|
  {
    hide Step, Sane, Allowed, PaidOutWithin, StepKept, Observe, Balanced, Faithful;
    if story != [] {
      StepPaysOut(st, m, story[0], surplus);
      StepKeeps(st, m, story[0]);
      RunPaysOut(st, Step(st, m, story[0]).value, story[1..], surplus + StepKept(m, story[0], surplus));
    }
  }

  /** From an unused market on, claims and assets never part by more than the slack on
      either side. */
  lemma FreshRunBalances(st: Strategy, count: nat, start: int, story: seq<Entry>)
    requires st.Valid() && 0 <= start
    requires AllowedStory(st, FreshMarket(st, count, start), story)
    ensures var m := FreshMarket(st, count, start);
            && Run(st, m, story).Success?
            && var n := Run(st, m, story).value;
               && SolventWithin(n, DeficitAfter(st, m, story, 0.0))
               && PaidOutWithin(n, SurplusAfter(st, m, story, 0.0))
  {
    hide Run, AllowedStory, DeficitAfter, SurplusAfter, ValidAt, SupplyRateImplied, Observe;
    var m := FreshMarket(st, count, start);
    FreshReserveIsValid(st, start);
    ValidNow(st, m.reserve, start);
    NothingOwedOrSupplied(m.users);
    FreshHoldsNothing(st, start);
    assert Claims(m.reserve, 0) == 0 && Assets(m.reserve) == 0;
    assert PaidOutWithin(m, 0.0);
    hide PaidOutWithin, SolventWithin;
    FreshRunStaysSolvent(st, count, start, story);
    RunPaysOut(st, m, story, 0.0);
  }
}
