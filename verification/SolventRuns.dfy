/** No run of transactions promises suppliers and treasury more than the reserve
    holds and is owed, up to a slack that is spelled out and bounded. */
module SolventRuns {
  import opened WadRayMath
  import opened Compounding
  import opened Failures
  import opened Rates
  import opened Reserves
  import opened Invariant
  import opened Transactions
  import opened Bridge
  import opened Runs
  import opened Solvency

  // ----- what one transaction moves -----

  /** Stable debt that the repayment clamp writes off. */
  ghost function Erased(r: Reserve, e: Entry): int {
    var left := -(LiquidityAdded(r, e) + StableAdded(r, e));
    if e.action.Repay? && e.action.mode == Stable && 0 < left then left else 0
  }

  /** Rounding of the amount a transaction moves, and what it writes off, in rays. */
  ghost function ActionSlack(r: Reserve, e: Entry): real {
    match e.action
    case Deposit(_) => LiquidityIndexAt(r, e.time) as real / 2.0
    case Withdraw(_) => LiquidityIndexAt(r, e.time) as real / 2.0
    case MintUnbacked(_) => LiquidityIndexAt(r, e.time) as real / 2.0
    case Borrow(_, Stable) => 0.0
    case Repay(_, Stable, _) => R * Erased(r, e) as real
    case BackUnbacked(scaledSupply, _, fee, protocolFee) =>
      BackingSlack(r, scaledSupply, fee, protocolFee, e.time) as real / 2.0
    case _ => VariableIndexAt(r, e.time) as real / 2.0 + R
  }

  /** Scaled supply a transaction credits to its user. */
  ghost function SupplyAdded(r: Reserve, e: Entry): int
    requires LiquidityIndexAt(r, e.time) != 0
  {
    var index := LiquidityIndexAt(r, e.time);
    match e.action
    case Deposit(amount) => RayDiv(amount, index)
    case MintUnbacked(amount) => RayDiv(amount, index)
    case Withdraw(amount) => -RayDiv(WithdrawnAmount(r, e.seen, amount, e.time), index)
    case _ => 0
  }

  lemma MintedShares(amount: int, index: int)
    requires 0 <= amount && 0 < index
    ensures RayDiv(amount, index) * index <= RAY * amount + index / 2
    ensures RayDiv(amount, index) * index >= RAY * amount - index / 2
  {
    RayDivRounds(amount, index);
    RoundsFromProduct(RayDiv(amount, index), amount * RAY, index);
  }

  /** Debt added to or taken from the scaled total shows up in the debt, less rounding. */
  lemma DebtMoves(scaled: int, change: int, index: int)
    requires 0 <= scaled && 0 <= scaled + change && 0 <= index
    ensures RAY * (RayMul(scaled + change, index) - RayMul(scaled, index)) >= change * index - RAY
  {
    RayMulRounds(scaled, index);
    RayMulRounds(scaled + change, index);
    RoundsFromProduct(RayMul(scaled, index), scaled * index, RAY);
    RoundsFromProduct(RayMul(scaled + change, index), (scaled + change) * index, RAY);
    assert (scaled + change) * index == scaled * index + change * index;
  }

  /** An amount of variable debt taken on adds that amount to the debt, less rounding. */
  lemma DebtTakenOn(scaled: int, amount: int, index: int)
    requires 0 <= scaled && 0 <= amount && 0 < index
    ensures 2 * RAY * (RayMul(scaled + RayDiv(amount, index), index) - RayMul(scaled, index))
         >= 2 * RAY * amount - index - 2 * RAY
  {
    hide RayMul, RayDiv;
    RayDivRounds(amount, index);
    MintedShares(amount, index);
    DebtMoves(scaled, RayDiv(amount, index), index);
  }

  /** Likewise an amount of debt given up takes no more than that off. */
  lemma DebtGivenUp(scaled: int, amount: int, index: int)
    requires 0 <= amount && 0 < index && RayDiv(amount, index) <= scaled
    ensures 2 * RAY * (RayMul(scaled - RayDiv(amount, index), index) - RayMul(scaled, index))
         >= -2 * RAY * amount - index - 2 * RAY
  {
    hide RayMul, RayDiv;
    RayDivRounds(amount, index);
    MintedShares(amount, index);
    DebtMoves(scaled, -RayDiv(amount, index), index);
    assert -RayDiv(amount, index) * index == -(RayDiv(amount, index) * index);
  }

  /** Growth of the variable debt that the transaction itself causes. */
  ghost function VariableMoved(r: Reserve, e: Entry): int
    requires VariableIndexAt(r, e.time) != 0
  {
    RayMul(r.scaledVariableDebt + ScaledDebtAdded(r, e), VariableIndexAt(r, e.time))
    - RayMul(r.scaledVariableDebt, VariableIndexAt(r, e.time))
  }

  lemma SettledStable(st: Strategy, r: Reserve, time: int)
    requires ValidAt(st, r, time) && r.lastUpdateTimestamp == time
    ensures StableAtUpdate(r) == r.totalStableDebt
  {
    hide SupplyRateImplied, TotalStableDebt, NormalizedDebt, RayMul, UsageRatios;
    SeenIff(r, time);
  }

  /** What is held and owed moves by the transaction's own amounts. */
  lemma AssetsMove(st: Strategy, r: Reserve, e: Entry, after: Reserve)
    requires ValidAt(st, r, e.now) && r.lastUpdateTimestamp <= e.time
    requires Keeps(st, r, Success(after), e.time) && ReserveAfter(st, r, e) == Success(after)
    requires Accrue(r, e.time).Success? && VariableIndexAt(r, e.time) != 0
    ensures Assets(after) - Assets(Accrue(r, e.time).value)
         == LiquidityAdded(r, e) + UnbackedAdded(r, e) + StableAdded(r, e) + VariableMoved(r, e)
  {
    hide RayMul, VariableIndexAt, LiquidityIndexAt, SupplyRateImplied, Observe, Accrue, ReserveAfter, ScaledDebtAdded,
         StableAdded, AverageLeft, LiquidityAdded, UnbackedAdded, StableAtUpdate, StableAccrued, ValidAt, DebtAccrued,
         Indexed;
    ReserveAfterCarries(st, r, e);
    StableSideAfter(st, r, e);
    SettledStable(st, after, e.time);
    DebtAfterAccrual(r, e.time);
    AccrueCarries(r, e.time);
  }

  /** A transaction that does not back leaves the accrued index, so claims move by the
      scaled supply alone. */
  lemma ClaimsMove(st: Strategy, r: Reserve, e: Entry, after: Reserve, u: User, supply: int)
    requires ReserveAfter(st, r, e) == Success(after) && UserAfter(r, after, e) == Success(u)
    requires Accrue(r, e.time).Success? && !e.action.BackUnbacked?
    requires LiquidityIndexAt(r, e.time) != 0 && VariableIndexAt(r, e.time) != 0
    ensures Claims(after, supply - e.seen.scaledHTokenBalance + u.scaledHTokenBalance)
            - Claims(Accrue(r, e.time).value, supply)
         == SupplyAdded(r, e) * LiquidityIndexAt(r, e.time)
  {
    hide RayMul, RayDiv, VariableIndexAt, LiquidityIndexAt, Accrue, ReserveAfter, UserStableDebt, VariableDebtBalance,
         HTokenBalance, WithdrawnAmount, RepaidAmount;
    ReserveAfterCarries(st, r, e);
    AccrueCarries(r, e.time);
    var index := LiquidityIndexAt(r, e.time);
    RayDivZero(index);
    var a, added := Accrue(r, e.time).value, SupplyAdded(r, e);
    assert u.scaledHTokenBalance == e.seen.scaledHTokenBalance + added;
    assert (supply + a.accruedToTreasuryScaled + added) * index
        == (supply + a.accruedToTreasuryScaled) * index + added * index;
  }

  /** No transaction adds more to what is promised than to what is held and owed. */
  lemma ActionStaysSolvent(st: Strategy, r: Reserve, e: Entry, after: Reserve, u: User, supply: int)
    requires ValidAt(st, r, e.now) && r.lastUpdateTimestamp <= e.time && 0 < e.time
    requires 0 <= e.seen.scaledVariableDebt <= r.scaledVariableDebt
    requires 0 <= UserStableDebt(e.seen, e.time) && Permitted(st, r, e)
    requires e.action.BackUnbacked? ==> e.action.scaledSupply == supply
    requires ReserveAfter(st, r, e) == Success(after) && UserAfter(r, after, e) == Success(u)
    requires Accrue(r, e.time).Success?
    ensures var a := Accrue(r, e.time).value;
            (Claims(after, supply - e.seen.scaledHTokenBalance + u.scaledHTokenBalance) - Claims(a, supply)) as real
            <= R * (Assets(after) - Assets(a)) as real + ActionSlack(r, e)
    ensures 0.0 <= ActionSlack(r, e) && LiquidityIndexAt(r, e.time) <= after.liquidityIndex
  {
    hide RayMul, RayDiv, LiquidityIndexAt, VariableIndexAt, Accrue, SupplyRateImplied, Observe, UserStableDebt,
         Permitted, ReserveAfter, UserAfter, Claims, Assets, Keeps, ActionSlack, VariableMoved, SupplyAdded,
         LiquidityAdded, UnbackedAdded, StableAdded;
    IndexGuardsAgree(st, r, e.now, e.time, 0);
    IncomeGuardsAgree(st, r, e.now, e.time);
    ReserveStepKeeps(st, r, e);
    ReserveAfterCarries(st, r, e);
    AssetsMove(st, r, e, after);
    if e.action.BackUnbacked? {
      BackingStaysSolvent(st, r, e, after, u, supply);
    } else {
      ClaimsMove(st, r, e, after, u, supply);
      SlackCovers(st, r, e);
    }
  }

  /** The rounding of each kind of amount is what its slack allows. */
  lemma SlackCovers(st: Strategy, r: Reserve, e: Entry)
    requires ValidAt(st, r, e.now) && r.lastUpdateTimestamp <= e.time && !e.action.BackUnbacked?
    requires 0 <= e.seen.scaledVariableDebt <= r.scaledVariableDebt
    requires 0 <= UserStableDebt(e.seen, e.time) && Permitted(st, r, e)
    requires RAY <= LiquidityIndexAt(r, e.time) && RAY <= VariableIndexAt(r, e.time)
    ensures 0.0 <= ActionSlack(r, e)
    ensures (SupplyAdded(r, e) * LiquidityIndexAt(r, e.time)) as real
         <= R * (LiquidityAdded(r, e) + UnbackedAdded(r, e) + StableAdded(r, e) + VariableMoved(r, e)) as real
            + ActionSlack(r, e)
  {
    hide RayMul, RayDiv, LiquidityIndexAt, VariableIndexAt, SupplyRateImplied, Observe, UserStableDebt,
         VariableDebtBalance, HTokenBalance, WithdrawnAmount, RepaidAmount, StableAfterRepay, StableAccrued;
    var index, debtIndex, scaled := LiquidityIndexAt(r, e.time), VariableIndexAt(r, e.time), r.scaledVariableDebt;
    SeenDebtNonNegative(st, r, e);
    match e.action
    case Deposit(amount) => MintedShares(amount, index);
    case MintUnbacked(amount) => MintedShares(amount, index);
    case Withdraw(amount) => MintedShares(WithdrawnAmount(r, e.seen, amount, e.time), index);
    case Borrow(amount, mode) =>
      if mode == Variable { DebtTakenOn(scaled, amount, debtIndex); }
    case Repay(amount, mode, _) =>
      if mode == Variable {
        var repaid := RepaidAmount(r, e.seen, amount, Variable, e.time);
        BurnedWithinDebt(st, r, e.now, e.seen, repaid, e.time);
        DebtGivenUp(scaled, repaid, debtIndex);
      }
    case SwapRateMode(mode) =>
      if mode == Stable {
        DebtTakenOn(scaled, UserStableDebt(e.seen, e.time), debtIndex);
      } else {
        var debt := VariableDebtBalance(r, e.seen, e.time);
        BurnedWithinDebt(st, r, e.now, e.seen, debt, e.time);
        DebtGivenUp(scaled, debt, debtIndex);
      }
  }

  lemma SeenDebtNonNegative(st: Strategy, r: Reserve, e: Entry)
    requires ValidAt(st, r, e.now) && r.lastUpdateTimestamp <= e.time
    requires 0 <= e.seen.scaledVariableDebt
    ensures 0 <= r.scaledVariableDebt && 0 <= VariableDebtBalance(r, e.seen, e.time)
  {
    hide SupplyRateImplied, Observe, RayMul, NormalizedDebt;
    NormalizedDebtGrows(r.variableBorrowRate, r.variableBorrowIndex, r.lastUpdateTimestamp, e.time, e.time);
    RayMulMonotone(0, 0, e.seen.scaledVariableDebt,
                   NormalizedDebt(r.variableBorrowRate, r.variableBorrowIndex, r.lastUpdateTimestamp, e.time));
  }

  lemma BackingStaysSolvent(st: Strategy, r: Reserve, e: Entry, after: Reserve, u: User, supply: int)
    requires ValidAt(st, r, e.now) && r.lastUpdateTimestamp <= e.time
    requires e.action.BackUnbacked? && e.action.scaledSupply == supply && Permitted(st, r, e)
    requires ReserveAfter(st, r, e) == Success(after) && UserAfter(r, after, e) == Success(u)
    requires Accrue(r, e.time).Success? && VariableIndexAt(r, e.time) != 0
    ensures var a := Accrue(r, e.time).value;
            (Claims(after, supply - e.seen.scaledHTokenBalance + u.scaledHTokenBalance) - Claims(a, supply)) as real
            <= R * (LiquidityAdded(r, e) + UnbackedAdded(r, e) + StableAdded(r, e) + VariableMoved(r, e)) as real
               + ActionSlack(r, e)
    ensures 0.0 <= ActionSlack(r, e) && LiquidityIndexAt(r, e.time) <= after.liquidityIndex
  {
    hide RayMul, RayDiv, LiquidityIndexAt, VariableIndexAt, Accrue, ValidAt, CanBack, BackingSlack, AfterBackUnbacked;
    match e.action
    case BackUnbacked(scaledSupply, amount, fee, protocolFee) =>
      AccrueCarries(r, e.time);
      FeeNonNegative(r, scaledSupply, amount, fee, protocolFee, e.time);
      BackingConservesFee(st, r, e.now, scaledSupply, amount, fee, protocolFee, e.time);
  }

  lemma FeeNonNegative(r: Reserve, scaledSupply: int, amount: int, fee: int, protocolFee: int, time: int)
    requires CanBack(r, scaledSupply, amount, fee, protocolFee, time)
    ensures 0 <= fee && Accrue(r, time).Success?
  {
    hide Accrue, RayMul;
  }

  // ----- whole runs -----

  ghost predicate SolventWithin(m: Market, deficit: real) {
    Claims(m.reserve, TotalScaledSupply(m.users)) as real <= R * Assets(m.reserve) as real + deficit
  }

  /** What one line of a story adds to the rounding already carried. */
  ghost function StepSlack(m: Market, e: Entry, deficit: real): real
    requires Observe(m.reserve, e.now).Success?
  {
    var r := Observe(m.reserve, e.now).value;
    AccrualSlack(r, TotalScaledSupply(m.users), deficit, e.time) + ActionSlack(r, e)
  }

  ghost function DeficitAfter(st: Strategy, m: Market, story: seq<Entry>, deficit: real): real
    decreases |story|
  {
    hide Step, StepSlack, Observe;
    if story == [] || Observe(m.reserve, story[0].now).Failure? || Step(st, m, story[0]).Failure? then deficit
    else
      DeficitAfter(st, Step(st, m, story[0]).value, story[1..], deficit + StepSlack(m, story[0], deficit))
  }

  lemma AccrualSlackNonNegative(st: Strategy, r: Reserve, seen: int, supply: int, deficit: real, time: int)
    requires ValidAt(st, r, seen) && r.lastUpdateTimestamp <= time && 0 <= supply && 0.0 <= deficit
    ensures 0.0 <= AccrualSlack(r, supply, deficit, time)
  {
    hide SupplyRateImplied, Observe, RayMul, RateSlack, DebtSlack, StableSlack, DebtAtUpdate, OverallRate,
         LiquidityIndexAt;
    IncomeGuardsAgree(st, r, seen, time);
    SlackNonNegative(st, r, time);
    SupplyPaid(st, r);
    YearsNonNegative(r, time);
    hide Years;
    NonNegativeProduct(r.liquidityRate as real, Years(r, time));
    NonNegativeProduct(SupplyGrowth(r, time), deficit);
    hide SupplyGrowth, Assets;
    NonNegativeProduct(Years(r, time), RateSlack(DebtAtUpdate(r) as real, Assets(r) as real, OverallRate(r) as real));
  }

  lemma StepStaysSolvent(st: Strategy, m: Market, e: Entry, deficit: real)
    requires Sane(st, m) && Allowed(st, m, e)
    requires 0.0 <= deficit && SolventWithin(m, deficit)
    ensures Step(st, m, e).Success?
    ensures Observe(m.reserve, e.now).Success? && 0.0 <= StepSlack(m, e, deficit)
    ensures SolventWithin(Step(st, m, e).value, deficit + StepSlack(m, e, deficit))
  {
    hide Observe, Permitted, ReserveAfter, UserAfter, SupplyRateImplied, UserStableDebt, VariableIndexAt,
         LiquidityIndexAt, AccrualSlack, Accrue, Balanced, Faithful, RayMul, ActionSlack;
    StepKeeps(st, m, e);
    SupplyNonNegative(m.users);
    ObserveKeepsValid(st, m.reserve, e.now);
    ObserveCarries(m.reserve, e.now);
    var r, supply := Observe(m.reserve, e.now).value, TotalScaledSupply(m.users);
    var after := ReserveAfter(st, r, e).value;
    var u := UserAfter(r, after, e).value;
    TotalsAfterUpdate(m.users, e.user, u);
    SameFigures(m.reserve, r, supply);
    SupplyIsPart(m.users, e.user);
    hide Claims, Assets;
    LineStaysSolvent(st, r, e, after, u, supply, deficit);
  }

  lemma SameFigures(r: Reserve, o: Reserve, supply: int)
    requires o.liquidityIndex == r.liquidityIndex && o.accruedToTreasuryScaled == r.accruedToTreasuryScaled
    requires o.availableLiquidity == r.availableLiquidity && o.unbacked == r.unbacked
    requires o.scaledVariableDebt == r.scaledVariableDebt && o.variableBorrowIndex == r.variableBorrowIndex
    requires o.principalStableDebt == r.principalStableDebt && o.averageStableBorrowRate == r.averageStableBorrowRate
    requires o.totalStableDebtLastUpdated == r.totalStableDebtLastUpdated
             && o.lastUpdateTimestamp == r.lastUpdateTimestamp
    ensures Claims(o, supply) == Claims(r, supply) && Assets(o) == Assets(r)
  {
    hide RayMul, TotalStableDebt;
  }

  lemma SupplyIsPart(users: seq<User>, i: nat)
    requires i < |users| && SuppliesNonNegative(users)
    ensures 0 <= users[i].scaledHTokenBalance
  {
  }

  /** One line, seen from the reserve as read back: accrual first, then the amount moved. */
  lemma LineStaysSolvent(st: Strategy, r: Reserve, e: Entry, after: Reserve, u: User, supply: int, deficit: real)
    requires ValidAt(st, r, e.now) && r.lastUpdateTimestamp <= e.time && 0 < e.time
    requires 0 <= e.seen.scaledVariableDebt <= r.scaledVariableDebt
    requires e.action.BackUnbacked? ==> e.action.scaledSupply == supply
    requires 0 <= UserStableDebt(e.seen, e.time) && Permitted(st, r, e)
    requires ReserveAfter(st, r, e) == Success(after) && UserAfter(r, after, e) == Success(u)
    requires 0 <= supply && 0.0 <= deficit && Claims(r, supply) as real <= R * Assets(r) as real + deficit
    ensures Claims(after, supply - e.seen.scaledHTokenBalance + u.scaledHTokenBalance) as real
         <= R * Assets(after) as real + deficit + AccrualSlack(r, supply, deficit, e.time) + ActionSlack(r, e)
    ensures 0.0 <= AccrualSlack(r, supply, deficit, e.time) && 0.0 <= ActionSlack(r, e)
    ensures LiquidityIndexAt(r, e.time) <= after.liquidityIndex
  {
    hide Observe, Permitted, ReserveAfter, UserAfter, SupplyRateImplied, UserStableDebt, VariableIndexAt,
         LiquidityIndexAt, AccrualSlack, Accrue, RayMul, Claims, Assets, ActionSlack;
    AccrualStaysSolvent(st, r, e.now, e.time, supply, deficit);
    AccrualSlackNonNegative(st, r, e.now, supply, deficit, e.time);
    IndexGuardsAgree(st, r, e.now, e.time, 0);
    IncomeGuardsAgree(st, r, e.now, e.time);
    ActionStaysSolvent(st, r, e, after, u, supply);
  }

  /** Over every permitted story, what suppliers and treasury may claim stays within what
      the reserve holds and is owed, up to the accumulated rounding. */
  lemma {:induction false} RunStaysSolvent(st: Strategy, m: Market, story: seq<Entry>, deficit: real)
    requires Sane(st, m) && AllowedStory(st, m, story)
    requires 0.0 <= deficit && SolventWithin(m, deficit)
    ensures Run(st, m, story).Success?
    ensures SolventWithin(Run(st, m, story).value, DeficitAfter(st, m, story, deficit))
    decreases |story|
  {
    hide Step, Sane, Allowed, SolventWithin, StepSlack, Observe, Balanced, Faithful;
    if story != [] {
      StepStaysSolvent(st, m, story[0], deficit);
      StepKeeps(st, m, story[0]);
      RunStaysSolvent(st, Step(st, m, story[0]).value, story[1..], deficit + StepSlack(m, story[0], deficit));
    }
  }

  /** From an unused market on, no run promises more than the
      reserve holds and is owed, up to the rounding accumulated since the start. */
  lemma FreshRunStaysSolvent(st: Strategy, count: nat, start: int, story: seq<Entry>)
    requires st.Valid() && 0 <= start
    requires AllowedStory(st, FreshMarket(st, count, start), story)
    ensures var m := FreshMarket(st, count, start);
            && Run(st, m, story).Success?
            && SolventWithin(Run(st, m, story).value, DeficitAfter(st, m, story, 0.0))
  {
    hide Run, AllowedStory, DeficitAfter, ValidAt, SupplyRateImplied, Observe;
    var m := FreshMarket(st, count, start);
    FreshReserveIsValid(st, start);
    ValidNow(st, m.reserve, start);
    NothingOwedOrSupplied(m.users);
    FreshHoldsNothing(st, start);
    assert Claims(m.reserve, 0) == 0 && Assets(m.reserve) == 0;
    assert SolventWithin(m, 0.0);
    hide SolventWithin;
    RunStaysSolvent(st, m, story, 0.0);
  }

  lemma FreshHoldsNothing(st: Strategy, time: int)
    requires 0 <= time
    ensures Assets(FreshReserve(st, time)) == 0
  {
    RayMulIdentity(RAY);
    TotalStableGrows(0, 0, 0, time, time);
    hide RayMul, TotalStableDebt;
  }
}
