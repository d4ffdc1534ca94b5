/** The record a step predicts for the user agrees with the reserve the step leaves:
    its debts and balances are what its scaled amounts read as, and they move by the
    amount of the transaction. */
module Coherence {
  import opened Arithmetic
  import opened WadRayMath
  import opened Interest
  import opened Failures
  import opened Rates
  import opened Reserves
  import opened Invariant
  import opened Transactions
  import opened Runs

  /** A permitted transaction on a valid reading, with both records it leaves. */
  ghost predicate Happens(st: Strategy, r: Reserve, e: Entry, after: Reserve, u: User) {
    && ValidAt(st, r, e.now) && r.lastUpdateTimestamp <= e.time && 0 < e.time
    && 0 <= e.seen.scaledVariableDebt <= r.scaledVariableDebt && 0 <= e.seen.scaledHTokenBalance
    && 0 <= UserStableDebt(e.seen, e.time)
    && Permitted(st, r, e)
    && ReserveAfter(st, r, e) == Success(after) && UserAfter(r, after, e) == Success(u)
  }

  /** What the two indexes of the record left are, and what they read as at once. */
  lemma IndexesLeft(st: Strategy, r: Reserve, e: Entry, after: Reserve, u: User)
    requires Happens(st, r, e, after, u) && !e.action.BackUnbacked?
    ensures after.variableBorrowIndex == VariableIndexAt(r, e.time) && RAY <= after.variableBorrowIndex
    ensures after.liquidityIndex == LiquidityIndexAt(r, e.time) == NormalizedIncome(r, e.time)
    ensures RAY <= after.liquidityIndex && after.lastUpdateTimestamp == e.time
    ensures NormalizedDebt(after.variableBorrowRate, after.variableBorrowIndex, e.time, e.time)
         == after.variableBorrowIndex
    ensures NormalizedIncome(after, e.time) == after.liquidityIndex
    ensures VariableDebtBalance(r, e.seen, e.time) == RayMul(e.seen.scaledVariableDebt, after.variableBorrowIndex)
    ensures 0 <= VariableDebtBalance(r, e.seen, e.time) && 0 <= r.scaledVariableDebt
  {
    hide SupplyRateImplied, Observe, RayMul, RayDiv, Permitted, ReserveAfter, UserAfter, VariableIndexAt,
         LiquidityIndexAt, CompoundedInterest, LinearInterest, SeenAt, UserStableDebt;
    IndexGuardsAgree(st, r, e.now, e.time, e.seen.scaledVariableDebt);
    IncomeGuardsAgree(st, r, e.now, e.time);
    ReserveAfterCarries(st, r, e);
    StableSideAfter(st, r, e);
    CompoundedAtOnce(after.variableBorrowRate, e.time);
    LinearAtOnce(after.liquidityRate, e.time);
    RayMulIdentity(after.variableBorrowIndex);
    RayMulIdentity(after.liquidityIndex);
    RayMulMonotone(0, 0, e.seen.scaledVariableDebt, after.variableBorrowIndex);
  }

  lemma LinearAtOnce(rate: int, time: int)
    ensures LinearInterest(rate, time, time) == RAY
  {
  }

  /** The predicted variable debt is what the predicted scaled debt reads as. */
  lemma VariableDebtIsCoherent(st: Strategy, r: Reserve, e: Entry, after: Reserve, u: User)
    requires Happens(st, r, e, after, u) && !e.action.MintUnbacked? && !e.action.BackUnbacked?
    ensures u.currentVariableDebt == RayMul(u.scaledVariableDebt, after.variableBorrowIndex)
         == VariableDebtBalance(after, u, e.time)
  {
    IndexesLeft(st, r, e, after, u);
    hide SupplyRateImplied, Observe, RayMul, RayDiv, Permitted, ReserveAfter, VariableIndexAt, LiquidityIndexAt,
         UserStableDebt, StableDebtBalance, HTokenBalance, NormalizedDebt, NormalizedIncome, ValidAt, CheckedRayDiv,
         UserStableRate, ScaledAfter, RepaidAmount, WithdrawnAmount;
    RayMulIdentity(after.variableBorrowIndex);
  }

  /** A borrow, a repayment and a swap leave the supply balance at what its shares read as. */
  lemma SupplyBalanceIsCoherent(st: Strategy, r: Reserve, e: Entry, after: Reserve, u: User)
    requires Happens(st, r, e, after, u) && (e.action.Borrow? || e.action.Repay? || e.action.SwapRateMode?)
    ensures u.scaledHTokenBalance == e.seen.scaledHTokenBalance
    ensures u.currentHTokenBalance == RayMul(u.scaledHTokenBalance, after.liquidityIndex)
         == HTokenBalance(after, u, e.time)
  {
    IndexesLeft(st, r, e, after, u);
    hide SupplyRateImplied, Observe, RayMul, RayDiv, Permitted, ReserveAfter, VariableIndexAt, LiquidityIndexAt,
         UserStableDebt, StableDebtBalance, VariableDebtBalance, NormalizedDebt, NormalizedIncome, ValidAt,
         CheckedRayDiv, UserStableRate, RepaidAmount;
  }

  /** Except where the step overwrites or exchanges them, the stable fields read as the
      stable debt. */
  lemma StableDebtIsCoherent(st: Strategy, r: Reserve, e: Entry, after: Reserve, u: User)
    requires Happens(st, r, e, after, u)
    requires e.action.Withdraw? || e.action.Borrow? || e.action.SwapRateMode?
             || (e.action.Repay? && e.action.mode == Stable)
    ensures u.currentStableDebt == UserStableDebt(u, e.time)
  {
    hide SupplyRateImplied, Observe, RayMul, RayDiv, Permitted, ReserveAfter, CompoundedInterest, HTokenBalance,
         VariableDebtBalance, ValidAt, CheckedRayDiv, UserStableRate, ScaledAfter, RepaidAmount, WithdrawnAmount;
  }

  /** Stable debt moves by exactly the amount borrowed or repaid in its mode. */
  lemma StableDebtMovesByAmount(st: Strategy, r: Reserve, e: Entry, after: Reserve, u: User)
    requires Happens(st, r, e, after, u) && (e.action.Borrow? || e.action.Repay?) && e.action.mode == Stable
    ensures u.currentStableDebt
         == UserStableDebt(e.seen, e.time)
            + (if e.action.Borrow? then e.action.amount
               else -RepaidAmount(r, e.seen, e.action.amount, Stable, e.time))
  {
    hide SupplyRateImplied, Observe, RayMul, RayDiv, Permitted, ReserveAfter, CompoundedInterest, HTokenBalance,
         VariableDebtBalance, ValidAt, CheckedRayDiv, UserStableRate, RepaidAmount;
  }

  /** A swap moves the debt of one mode into the other: nothing is left behind, and what
      arrives is what there was, to within 1 + index / (2 RAY) on the variable side. */
  lemma SwapMovesWholeDebt(st: Strategy, r: Reserve, e: Entry, after: Reserve, u: User)
    requires Happens(st, r, e, after, u) && e.action.SwapRateMode?
    requires e.seen.currentStableDebt == UserStableDebt(e.seen, e.time)
    ensures var stable, variable := UserStableDebt(e.seen, e.time), VariableDebtBalance(r, e.seen, e.time);
            if e.action.mode == Stable then
              && u.currentStableDebt == 0
              && -(2 * RAY + after.variableBorrowIndex) <= 2 * RAY * (u.currentVariableDebt - variable - stable)
                 <= 2 * RAY + after.variableBorrowIndex
            else
              u.currentVariableDebt == 0 && u.currentStableDebt == stable + variable
  {
    hide Happens, RayMul, RayDiv, VariableDebtBalance, UserStableDebt, UserAfter, VariableIndexAt, LiquidityIndexAt,
         NormalizedDebt, NormalizedIncome;
    IndexesLeft(st, r, e, after, u);
    SeenStable(st, r, e, after, u);
    SwappedDebt(r, e, after, u);
    if e.action.mode == Stable {
      MovedShares(e.seen.scaledVariableDebt, UserStableDebt(e.seen, e.time), after.variableBorrowIndex);
    }
  }

  lemma SeenStable(st: Strategy, r: Reserve, e: Entry, after: Reserve, u: User)
    requires Happens(st, r, e, after, u)
    ensures 0 <= UserStableDebt(e.seen, e.time) && 0 <= e.seen.scaledVariableDebt
    ensures UserAfter(r, after, e) == Success(u)
  {
    hide UserStableDebt, ValidAt, Permitted, ReserveAfter, UserAfter;
  }

  /** The debt fields a swap leaves. */
  lemma SwappedDebt(r: Reserve, e: Entry, after: Reserve, u: User)
    requires UserAfter(r, after, e) == Success(u) && e.action.SwapRateMode? && after.variableBorrowIndex != 0
    ensures if e.action.mode == Stable then
              && u.currentStableDebt == 0
              && u.currentVariableDebt
                 == RayMul(e.seen.scaledVariableDebt
                             + RayDiv(UserStableDebt(e.seen, e.time), after.variableBorrowIndex),
                           after.variableBorrowIndex)
            else
              && u.currentVariableDebt == 0
              && u.currentStableDebt == e.seen.currentStableDebt + VariableDebtBalance(r, e.seen, e.time)
  {
    hide RayMul, RayDiv, VariableDebtBalance, UserStableDebt, HTokenBalance, UserStableRate;
  }

  /** A variable repayment takes its amount off the debt, to within 1 + index / (2 RAY). */
  lemma VariableRepaymentMovesDebt(st: Strategy, r: Reserve, e: Entry, after: Reserve, u: User)
    requires Happens(st, r, e, after, u) && e.action.Repay? && e.action.mode == Variable
    ensures var repaid := RepaidAmount(r, e.seen, e.action.amount, Variable, e.time);
            var moved := u.currentVariableDebt - VariableDebtBalance(r, e.seen, e.time) + repaid;
            -(2 * RAY + after.variableBorrowIndex) <= 2 * RAY * moved <= 2 * RAY + after.variableBorrowIndex
  {
    hide Happens, RayMul, RayDiv, VariableDebtBalance, RepaidAmount, VariableIndexAt, LiquidityIndexAt, UserAfter,
         ValidAt, NormalizedDebt, NormalizedIncome;
    var repaid := RepaidAmount(r, e.seen, e.action.amount, Variable, e.time);
    IndexesLeft(st, r, e, after, u);
    RepaidInRange(st, r, e, after, u);
    BurnedWithinDebt(st, r, e.now, e.seen, repaid, e.time);
    RepaidDebt(r, e, after, u);
    MovedShares(e.seen.scaledVariableDebt, repaid, after.variableBorrowIndex);
  }

  lemma RepaidInRange(st: Strategy, r: Reserve, e: Entry, after: Reserve, u: User)
    requires Happens(st, r, e, after, u) && e.action.Repay? && e.action.mode == Variable
    ensures ValidAt(st, r, e.now) && r.lastUpdateTimestamp <= e.time && UserAfter(r, after, e) == Success(u)
    ensures 0 <= e.seen.scaledVariableDebt <= r.scaledVariableDebt
    ensures 0 <= RepaidAmount(r, e.seen, e.action.amount, Variable, e.time) <= VariableDebtBalance(r, e.seen, e.time)
  {
    hide ValidAt, UserStableDebt, ReserveAfter, UserAfter, RepaidAmount, VariableDebtBalance;
  }

  lemma RepaidDebt(r: Reserve, e: Entry, after: Reserve, u: User)
    requires UserAfter(r, after, e) == Success(u) && e.action.Repay? && e.action.mode == Variable
    requires after.variableBorrowIndex != 0
    ensures var burned := RayDiv(RepaidAmount(r, e.seen, e.action.amount, Variable, e.time), after.variableBorrowIndex);
            u.currentVariableDebt == RayMul(e.seen.scaledVariableDebt - burned, after.variableBorrowIndex)
  {
    hide RayMul, RayDiv, VariableDebtBalance, UserStableDebt, HTokenBalance, RepaidAmount;
  }

  // ----- rates and fields that follow the debt -----

  /** The user is shown the supply rate the reserve is left with. */
  lemma SupplyRateIsShown(r: Reserve, e: Entry, after: Reserve, u: User)
    requires UserAfter(r, after, e) == Success(u) && !e.action.MintUnbacked? && !e.action.BackUnbacked?
    ensures u.liquidityRate == after.liquidityRate
  {
    hide RayMul, RayDiv, VariableDebtBalance, UserStableDebt, HTokenBalance, RepaidAmount, UserStableRate,
         StableDebtBalance, CheckedRayDiv, ScaledAfter, WithdrawnAmount;
  }

  /** A stable rate lasts as long as the debt it is charged on: paid off or swapped away,
      rate and stamp are cleared; reduced, the rate stays and is stamped anew; on the
      other side of the books, both stay. */
  lemma StableRateFollowsDebt(r: Reserve, e: Entry, after: Reserve, u: User)
    requires UserAfter(r, after, e) == Success(u)
    ensures e.action.SwapRateMode? && e.action.mode == Stable ==>
              u.stableBorrowRate == 0 && u.stableRateLastUpdated == 0
    ensures e.action.Repay? && e.action.mode == Stable ==>
              if u.currentStableDebt == 0 then u.stableBorrowRate == 0 && u.stableRateLastUpdated == 0
              else u.stableBorrowRate == e.seen.stableBorrowRate && u.stableRateLastUpdated == e.time
    ensures e.action.Deposit? || e.action.Withdraw?
            || ((e.action.Borrow? || e.action.Repay?) && e.action.mode == Variable) ==>
              u.stableBorrowRate == e.seen.stableBorrowRate && u.stableRateLastUpdated == e.seen.stableRateLastUpdated
  {
    hide RayMul, RayDiv, VariableDebtBalance, UserStableDebt, HTokenBalance, RepaidAmount, UserStableRate,
         StableDebtBalance, CheckedRayDiv, ScaledAfter, WithdrawnAmount;
  }

  /** The two steps whose stable fields do not read as the stable debt: a deposit leaves the
      variable debt as stable principal, and a variable repayment leaves principal and
      accrued debt exchanged. They agree only when the fields happen to be equal. */
  lemma StableFieldsMisplaced(r: Reserve, e: Entry, after: Reserve, u: User)
    requires UserAfter(r, after, e) == Success(u)
    ensures e.action.Deposit? ==>
              && u.principalStableDebt == u.currentVariableDebt && u.currentStableDebt == UserStableDebt(e.seen, e.time)
              && (u.principalStableDebt == e.seen.principalStableDebt
                  <==> VariableDebtBalance(r, e.seen, e.time) == e.seen.principalStableDebt)
    ensures e.action.Repay? && e.action.mode == Variable ==>
              && u.currentStableDebt == e.seen.principalStableDebt
              && u.principalStableDebt == UserStableDebt(e.seen, e.time)
              && (u.currentStableDebt == UserStableDebt(e.seen, e.time)
                  <==> UserStableDebt(e.seen, e.time) == e.seen.principalStableDebt)
  {
    hide RayMul, RayDiv, VariableDebtBalance, UserStableDebt, HTokenBalance, RepaidAmount, CheckedRayDiv, ScaledAfter;
  }

  /** A mean of two rates keeps the yearly payments, short of less than one unit of rate
      on the whole debt. */
  ghost predicate KeepsPayments(before: int, rateBefore: int, added: int, rateAdded: int, rate: int) {
    0 <= before * rateBefore + added * rateAdded - (before + added) * rate < before + added
  }

  lemma UserRateKeepsPayments(balance: int, rate: int, amount: int, newRate: int)
    requires 0 <= balance && 0 <= rate && 0 <= amount && 0 <= newRate && 0 < balance + amount
    ensures UserStableRate(balance, rate, amount, newRate).Success?
    ensures KeepsPayments(balance, rate, amount, newRate, UserStableRate(balance, rate, amount, newRate).value)
  {
    MulLe(0, balance, rate);
    MulLe(0, amount, newRate);
    DivBounds(balance * rate + amount * newRate, balance + amount);
  }

  lemma AverageKeepsPayments(average: int, total: int, change: int, rate: int)
    requires 0 < total + change && 0 <= average * total + rate * change
    ensures KeepsPayments(total, average, change, rate, AverageStableRate(average, total, change, rate))
  {
    DivBounds(average * total + rate * change, total + change);
    assert total * average == average * total && change * rate == rate * change;
  }

  /** A stable borrow and a swap to stable leave the user's rate at the mean of the old
      debt at the old rate and the new debt at the reserve's rate. */
  lemma UserPaysMeanRate(st: Strategy, r: Reserve, e: Entry, after: Reserve, u: User)
    requires Happens(st, r, e, after, u) && 0 <= e.seen.stableBorrowRate
    requires (e.action.Borrow? && e.action.mode == Stable) || (e.action.SwapRateMode? && e.action.mode == Variable)
    ensures KeepsPayments(UserStableDebt(e.seen, e.time), e.seen.stableBorrowRate,
                          if e.action.Borrow? then e.action.amount else VariableDebtBalance(r, e.seen, e.time),
                          r.stableBorrowRate, u.stableBorrowRate)
  {
    IndexesLeft(st, r, e, after, u);
    RatesSeen(st, r, e.now);
    hide SupplyRateImplied, Observe, RayMul, RayDiv, ReserveAfter, CompoundedInterest, HTokenBalance,
         VariableDebtBalance, UserStableDebt, ValidAt, UserStableRate, VariableIndexAt, LiquidityIndexAt,
         NormalizedDebt, NormalizedIncome, KeepsPayments, StableDebtBalance;
    var balance, rate := UserStableDebt(e.seen, e.time), e.seen.stableBorrowRate;
    UserRateKeepsPayments(balance, rate,
                          if e.action.Borrow? then e.action.amount else VariableDebtBalance(r, e.seen, e.time),
                          r.stableBorrowRate);
    assert UserStableDebt(e.seen, e.time)
        == StableDebtBalance(e.seen.principalStableDebt, e.seen.stableBorrowRate, e.seen.stableRateLastUpdated, e.time)
      by { UserStableDebtUnfolds(e.seen, e.time); }
  }

  lemma UserStableDebtUnfolds(u: User, time: int)
    ensures UserStableDebt(u, time)
         == StableDebtBalance(u.principalStableDebt, u.stableBorrowRate, u.stableRateLastUpdated, time)
  {
    hide StableDebtBalance;
  }

  lemma RatesSeen(st: Strategy, r: Reserve, seen: int)
    requires ValidAt(st, r, seen)
    ensures 0 <= r.stableBorrowRate && 0 <= r.averageStableBorrowRate && 0 <= r.principalStableDebt
  {
    hide SupplyRateImplied, SeenAt;
  }

  /** A stable borrow leaves the reserve's average at the mean over all stable debt. */
  lemma ReserveKeepsMeanRate(st: Strategy, r: Reserve, e: Entry, after: Reserve, u: User)
    requires Happens(st, r, e, after, u) && e.action.Borrow? && e.action.mode == Stable
    ensures after.totalStableDebt == StableAccrued(r, e.time) + e.action.amount
    ensures KeepsPayments(StableAccrued(r, e.time), r.averageStableBorrowRate, e.action.amount, r.stableBorrowRate,
                          after.averageStableBorrowRate)
  {
    StableSideAfter(st, r, e);
    AccruedNonNegative(st, r, e.now, e.time);
    hide SupplyRateImplied, Observe, ReserveAfter, UserAfter, ValidAt, UserStableDebt, TotalStableDebt, KeepsPayments,
         AverageStableRate;
    MulLe(0, r.averageStableBorrowRate, StableAccrued(r, e.time));
    MulLe(0, r.stableBorrowRate, e.action.amount);
    AverageKeepsPayments(r.averageStableBorrowRate, StableAccrued(r, e.time), e.action.amount, r.stableBorrowRate);
  }

  lemma AccruedNonNegative(st: Strategy, r: Reserve, seen: int, time: int)
    requires ValidAt(st, r, seen) && r.lastUpdateTimestamp <= time
    ensures 0 <= StableAccrued(r, time) && 0 <= r.averageStableBorrowRate && 0 <= r.stableBorrowRate
  {
    hide SupplyRateImplied, SeenAt, TotalStableDebt;
    TotalStableGrows(r.principalStableDebt, r.averageStableBorrowRate, r.totalStableDebtLastUpdated, time, time);
  }

  /** Supplying for the first time makes the supply collateral, and withdrawing all of it
      ends that; every other transaction leaves the choice alone. */
  lemma CollateralFollowsBalance(st: Strategy, r: Reserve, e: Entry, after: Reserve, u: User)
    requires Happens(st, r, e, after, u)
    ensures (e.action.Deposit? || e.action.Withdraw?) && e.seen.currentHTokenBalance == 0
        ==> u.usageAsCollateralEnabled
    ensures e.action.Withdraw? && e.seen.currentHTokenBalance != 0 && u.currentHTokenBalance == 0
        ==> !u.usageAsCollateralEnabled
    ensures !(e.action.Deposit? || e.action.Withdraw?)
            || (e.seen.currentHTokenBalance != 0 && (e.action.Deposit? || u.currentHTokenBalance != 0))
        ==> u.usageAsCollateralEnabled == e.seen.usageAsCollateralEnabled
  {
    hide SupplyRateImplied, Observe, RayMul, RayDiv, Permitted, ReserveAfter, CompoundedInterest, HTokenBalance,
         VariableDebtBalance, StableDebtBalance, UserStableDebt, ValidAt, UserStableRate, CheckedRayDiv, ScaledAfter,
         RepaidAmount;
  }
}
