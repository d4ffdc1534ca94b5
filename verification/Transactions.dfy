/** Every transaction, under the guard its pool applies, succeeds, leaves a valid
    reserve and never moves an index or the treasury backwards. */
module Transactions {
  import opened Arithmetic
  import opened WadRayMath
  import opened Failures
  import opened Rates
  import opened Reserves
  import opened Invariant

  ghost predicate Advances(r: Reserve, next: Reserve, time: int) {
    && next.lastUpdateTimestamp == time
    && r.liquidityIndex <= next.liquidityIndex
    && r.variableBorrowIndex <= next.variableBorrowIndex
    && r.accruedToTreasuryScaled <= next.accruedToTreasuryScaled
  }

  ghost predicate Keeps(st: Strategy, r: Reserve, result: Result<Reserve>, time: int) {
    && result.Success?
    && ValidAt(st, result.value, time)
    && Advances(r, result.value, time)
  }

  lemma AccrueReady(st: Strategy, r: Reserve, seen: int, time: int)
    requires ValidAt(st, r, seen) && r.lastUpdateTimestamp <= time
    ensures Accrue(r, time).Success? && Ready(st, Accrue(r, time).value)
    ensures Advances(r, Accrue(r, time).value, time)
  {
    hide SupplyRateImplied, Observe, RayMul, TotalStableDebt, LiquidityIndexAt, VariableIndexAt, AccruedToTreasury,
         DebtAccrued, PercentMul;
    AccrueGrows(st, r, seen, time);
  }

  lemma CloseKeeps(st: Strategy, r: Reserve, ready: Reserve, time: int)
    requires Ready(st, ready) && Advances(r, ready, time)
    ensures Keeps(st, r, Close(st, ready), time)
  {
    CloseKeepsValid(st, ready);
    hide ValidAt, UsageRatios, InterestRates;
  }

  lemma DepositKeeps(st: Strategy, r: Reserve, seen: int, amount: int, time: int)
    requires ValidAt(st, r, seen) && r.lastUpdateTimestamp <= time
    requires 0 <= r.availableLiquidity + amount
    ensures Keeps(st, r, AfterDeposit(st, r, amount, time), time)
  {
    hide ValidAt, TotalStableDebt, RayMul, Accrue, Close;
    AccrueReady(st, r, seen, time);
    var a := Accrue(r, time).value;
    CloseKeeps(st, r, a.(availableLiquidity := r.availableLiquidity + amount), time);
  }

  lemma WithdrawKeeps(st: Strategy, r: Reserve, seen: int, u: User, amount: int, time: int)
    requires ValidAt(st, r, seen) && r.lastUpdateTimestamp <= time
    requires WithdrawnAmount(r, u, amount, time) <= r.availableLiquidity
    ensures Keeps(st, r, AfterWithdraw(st, r, u, amount, time), time)
  {
    hide ValidAt, WithdrawnAmount, Accrue, Close, Keeps;
    DepositKeeps(st, r, seen, -WithdrawnAmount(r, u, amount, time), time);
  }

  /** The average over an unchanged total is the old average, unless there was no total. */
  lemma AverageUnchanged(average: int, total: int, rate: int)
    requires 0 <= total && 0 <= average
    ensures AverageStableRate(average, total, 0, rate) == if total == 0 then 0 else average
  {
    if total != 0 {
      assert average * total + rate * 0 == average * total;
      DivBounds(average * total, total);
      var q := average * total / total;
      assert TruncDiv(average * total, total) == q;
      assert (q + 1) * total == q * total + total;
      MulCancelLt(average, q + 1, total);
      MulCancelLe(q, average, total);
    }
  }

  /** Rates of unbacked minting and backing: the stable side does not move. */
  lemma StableSideUnchanged(r: Reserve, seen: int, time: int)
    requires SeenAt(r, seen) && r.totalStableDebtLastUpdated <= r.lastUpdateTimestamp <= time
    requires 0 <= r.principalStableDebt && 0 <= r.averageStableBorrowRate
    ensures var average := AverageStableRate(r.averageStableBorrowRate, r.totalStableDebt, 0, r.stableBorrowRate);
            && 0 <= average
            && TotalStableDebt(r.principalStableDebt, average, r.totalStableDebtLastUpdated, time)
               == TotalStableDebt(r.principalStableDebt, r.averageStableBorrowRate, r.totalStableDebtLastUpdated, time)
  {
    hide TotalStableDebt, RayMul, UsageRatios, NormalizedDebt, AverageStableRate;
    SeenIff(r, seen);
    var last := r.totalStableDebtLastUpdated;
    TotalStableGrows(r.principalStableDebt, r.averageStableBorrowRate, last, seen, seen);
    AverageUnchanged(r.averageStableBorrowRate, r.totalStableDebt, r.stableBorrowRate);
    TotalStableGrows(0, r.averageStableBorrowRate, last, time, time);
    TotalStableGrows(0, 0, last, time, time);
  }

  lemma MintUnbackedKeeps(st: Strategy, r: Reserve, seen: int, amount: int, time: int)
    requires ValidAt(st, r, seen) && r.lastUpdateTimestamp <= time && 0 <= amount
    ensures Keeps(st, r, AfterMintUnbacked(st, r, amount, time), time)
  {
    hide SupplyRateImplied, TotalStableDebt, RayMul, Accrue, Close, Observe, AverageStableRate;
    AccrueReady(st, r, seen, time);
    StableSideUnchanged(r, seen, time);
    var a := Accrue(r, time).value;
    AccrueCarries(r, time);
    CloseKeeps(st, r,
               a.(unbacked := r.unbacked + amount,
                  averageStableBorrowRate :=
                    AverageStableRate(r.averageStableBorrowRate, r.totalStableDebt, 0, r.stableBorrowRate)), time);
  }

  /** Accrual leaves the scaled debts, the stable side and the liquidity alone. */
  lemma AccrueCarries(r: Reserve, time: int)
    requires Accrue(r, time).Success?
    ensures var a := Accrue(r, time).value;
            && a.principalStableDebt == r.principalStableDebt && a.scaledVariableDebt == r.scaledVariableDebt
            && a.averageStableBorrowRate == r.averageStableBorrowRate
            && a.totalStableDebtLastUpdated == r.totalStableDebtLastUpdated
            && a.availableLiquidity == r.availableLiquidity && a.unbacked == r.unbacked
            && a.reserveFactor == r.reserveFactor && a.lastUpdateTimestamp == time
            && a.liquidityIndex == LiquidityIndexAt(r, time) && a.variableBorrowIndex == VariableIndexAt(r, time)
            && a.totalVariableDebt == RayMul(r.scaledVariableDebt, VariableIndexAt(r, time))
            && a.totalStableDebt == TotalStableDebt(r.principalStableDebt, r.averageStableBorrowRate,
                                                    r.totalStableDebtLastUpdated, time)
  {
    hide LiquidityIndexAt, VariableIndexAt, RayMul, TotalStableDebt, AccruedToTreasury;
  }

  // ----- backing -----

  ghost predicate CanBack(r: Reserve, scaledSupply: int, amount: int, fee: int, protocolFee: int, time: int) {
    && 0 <= amount && 0 <= fee && 0 <= protocolFee <= PERCENTAGE_FACTOR && 0 <= scaledSupply
    && Accrue(r, time).Success?
    && var a := Accrue(r, time).value;
       0 < RayMul(scaledSupply, a.liquidityIndex) + RayMul(a.accruedToTreasuryScaled, a.liquidityIndex)
  }

  lemma CumulatedIndexGrows(index: int, supplied: int, premium: int)
    requires RAY <= index && 0 < supplied && 0 <= premium
    ensures CumulatedIndex(index, supplied, premium).Success?
    ensures index <= CumulatedIndex(index, supplied, premium).value
  {
    RayDivRounds(WadToRay(premium), WadToRay(supplied));
    RayMulGrows(RayDiv(WadToRay(premium), WadToRay(supplied)) + RAY, index);
  }

  lemma BackUnbackedKeeps(st: Strategy, r: Reserve, seen: int, scaledSupply: int, amount: int, fee: int,
                          protocolFee: int, time: int)
    requires ValidAt(st, r, seen) && r.lastUpdateTimestamp <= time
    requires CanBack(r, scaledSupply, amount, fee, protocolFee, time)
    ensures Keeps(st, r, AfterBackUnbacked(st, r, scaledSupply, amount, fee, protocolFee, time), time)
  {
    hide SupplyRateImplied, TotalStableDebt, RayMul, RayDiv, PercentMul, Accrue, Close, Observe, AverageStableRate,
         CumulatedIndex;
    AccrueReady(st, r, seen, time);
    StableSideUnchanged(r, seen, time);
    AccrueCarries(r, time);
    var a := Accrue(r, time).value;
    var toProtocol := PercentMul(fee, protocolFee);
    PercentMulAgainstWhole(fee, protocolFee);
    PercentMulRounds(fee, protocolFee);
    var supplied := RayMul(scaledSupply, a.liquidityIndex) + RayMul(a.accruedToTreasuryScaled, a.liquidityIndex);
    CumulatedIndexGrows(a.liquidityIndex, supplied, fee - toProtocol);
    var index := CumulatedIndex(a.liquidityIndex, supplied, fee - toProtocol).value;
    RayDivRounds(toProtocol, index);
    var backed := BackingAmount(r, amount);
    CloseKeeps(st, r,
               a.(liquidityIndex := index,
                  accruedToTreasuryScaled := a.accruedToTreasuryScaled + RayDiv(toProtocol, index),
                  unbacked := r.unbacked - backed,
                  availableLiquidity := r.availableLiquidity + backed + fee,
                  averageStableBorrowRate :=
                    AverageStableRate(r.averageStableBorrowRate, r.totalStableDebt, 0, r.stableBorrowRate)), time);
  }

  // ----- borrowing, repaying, swapping -----

  lemma AverageNonNegative(average: int, total: int, change: int, rate: int)
    requires 0 <= average && 0 <= total && 0 <= change && 0 <= rate
    ensures 0 <= AverageStableRate(average, total, change, rate)
  {
    if total + change != 0 {
      assert 0 <= average * total && 0 <= rate * change;
      DivMonotone(0, average * total + rate * change, total + change);
    }
  }

  /** A record whose stable debt was just rewritten is ready to be closed. */
  lemma StableRewritten(st: Strategy, a: Reserve, principal: int, average: int)
    requires Ready(st, a) && 0 < a.lastUpdateTimestamp && 0 <= principal && 0 <= average
    ensures Ready(st, a.(principalStableDebt := principal, totalStableDebt := principal,
                         averageStableBorrowRate := average, totalStableDebtLastUpdated := a.lastUpdateTimestamp))
  {
    hide RayMul, TotalStableDebt;
    TotalStableGrows(principal, average, a.lastUpdateTimestamp, a.lastUpdateTimestamp, a.lastUpdateTimestamp);
  }

  lemma BorrowKeeps(st: Strategy, r: Reserve, seen: int, amount: int, mode: RateMode, time: int)
    requires ValidAt(st, r, seen) && r.lastUpdateTimestamp <= time && 0 < time
    requires 0 <= amount <= r.availableLiquidity
    ensures Keeps(st, r, AfterBorrow(st, r, amount, mode, time), time)
  {
    hide SupplyRateImplied, TotalStableDebt, RayMul, RayDiv, Accrue, Close, Observe, AverageStableRate;
    AccrueReady(st, r, seen, time);
    AccrueCarries(r, time);
    var a := Accrue(r, time).value;
    var b := a.(availableLiquidity := r.availableLiquidity - amount);
    match mode
    case Stable =>
      TotalStableGrows(r.principalStableDebt, r.averageStableBorrowRate, r.totalStableDebtLastUpdated, time, time);
      var average := AverageStableRate(r.averageStableBorrowRate, a.totalStableDebt, amount, r.stableBorrowRate);
      AverageNonNegative(r.averageStableBorrowRate, a.totalStableDebt, amount, r.stableBorrowRate);
      StableRewritten(st, b, a.totalStableDebt + amount, average);
      CloseKeeps(st, r, b.(principalStableDebt := a.totalStableDebt + amount,
                           totalStableDebt := a.totalStableDebt + amount,
                           averageStableBorrowRate := average, totalStableDebtLastUpdated := time), time);
    case Variable =>
      RayDivRounds(amount, a.variableBorrowIndex);
      var scaled := r.scaledVariableDebt + RayDiv(amount, a.variableBorrowIndex);
      CloseKeeps(st, r, b.(scaledVariableDebt := scaled,
                           totalVariableDebt := RayMul(scaled, a.variableBorrowIndex)), time);
  }

  /** Burning no more than a user's debt burns no more than the user's scaled debt,
      and burning exactly the debt burns exactly the scaled debt. */
  lemma BurnedWithinDebt(st: Strategy, r: Reserve, seen: int, u: User, repaid: int, time: int)
    requires ValidAt(st, r, seen) && r.lastUpdateTimestamp <= time
    requires 0 <= u.scaledVariableDebt <= r.scaledVariableDebt
    requires 0 <= repaid <= VariableDebtBalance(r, u, time)
    ensures RAY <= VariableIndexAt(r, time)
    ensures 0 <= RayDiv(repaid, VariableIndexAt(r, time)) <= u.scaledVariableDebt
    ensures repaid == VariableDebtBalance(r, u, time)
        ==> RayDiv(repaid, VariableIndexAt(r, time)) == u.scaledVariableDebt
  {
    IndexGuardsAgree(st, r, seen, time, u.scaledVariableDebt);
    hide SupplyRateImplied, RayMul, RayDiv, VariableIndexAt, NormalizedDebt, Observe;
    var index := VariableIndexAt(r, time);
    FullExit(u.scaledVariableDebt, index);
    RayDivMonotone(repaid, VariableDebtBalance(r, u, time), index);
  }

  /** The repayment clamp leaves a non-negative total and average, whatever is repaid. */
  lemma RepayClampHolds(average: int, debt: int, amount: int, rate: int)
    ensures var (stable, next) := StableAfterRepay(average, debt, amount, rate); 0 <= stable && 0 <= next
  {
  }

  lemma RepayKeeps(st: Strategy, r: Reserve, seen: int, u: User, amount: int, mode: RateMode, time: int)
    requires ValidAt(st, r, seen) && r.lastUpdateTimestamp <= time && 0 < time
    requires 0 <= u.scaledVariableDebt <= r.scaledVariableDebt
    requires 0 <= RepaidAmount(r, u, amount, mode, time)
    requires mode == Variable ==> RepaidAmount(r, u, amount, mode, time) <= VariableDebtBalance(r, u, time)
    ensures Keeps(st, r, AfterRepay(st, r, u, amount, mode, time), time)
  {
    hide SupplyRateImplied, TotalStableDebt, RayMul, RayDiv, Accrue, Close, Observe, RepaidAmount, VariableDebtBalance,
         StableAfterRepay, VariableIndexAt;
    AccrueReady(st, r, seen, time);
    AccrueCarries(r, time);
    var a := Accrue(r, time).value;
    var repaid := RepaidAmount(r, u, amount, mode, time);
    var b := a.(availableLiquidity := r.availableLiquidity + repaid);
    match mode
    case Stable =>
      RepayClampHolds(r.averageStableBorrowRate, a.totalStableDebt, repaid, u.stableBorrowRate);
      var (stable, average) :=
        StableAfterRepay(r.averageStableBorrowRate, a.totalStableDebt, repaid, u.stableBorrowRate);
      StableRewritten(st, b, stable, average);
      CloseKeeps(st, r, b.(principalStableDebt := stable, totalStableDebt := stable,
                           averageStableBorrowRate := average, totalStableDebtLastUpdated := time), time);
    case Variable =>
      BurnedWithinDebt(st, r, seen, u, repaid, time);
      var scaled := r.scaledVariableDebt - RayDiv(repaid, a.variableBorrowIndex);
      CloseKeeps(st, r, b.(scaledVariableDebt := scaled,
                           totalVariableDebt := RayMul(scaled, a.variableBorrowIndex)), time);
  }

  lemma SwapToStableKeeps(st: Strategy, r: Reserve, seen: int, u: User, time: int)
    requires ValidAt(st, r, seen) && r.lastUpdateTimestamp <= time && 0 < time
    requires 0 <= u.scaledVariableDebt <= r.scaledVariableDebt
    ensures Keeps(st, r, AfterSwap(st, r, u, Variable, time), time)
  {
    hide SupplyRateImplied, TotalStableDebt, RayMul, RayDiv, Accrue, Close, Observe, VariableIndexAt, AverageStableRate,
         NormalizedDebt, UserStableDebt;
    AccrueReady(st, r, seen, time);
    AccrueCarries(r, time);
    var a := Accrue(r, time).value;
    SeenStableNonNegative(st, r, seen);
    TotalStableGrows(r.principalStableDebt, r.averageStableBorrowRate, r.totalStableDebtLastUpdated, time, time);
    NormalizedDebtGrows(r.variableBorrowRate, r.variableBorrowIndex, r.lastUpdateTimestamp, time, time);
    var debt := VariableDebtBalance(r, u, time);
    RayMulMonotone(0, 0, u.scaledVariableDebt,
                   NormalizedDebt(r.variableBorrowRate, r.variableBorrowIndex, r.lastUpdateTimestamp, time));
    BurnedWithinDebt(st, r, seen, u, debt, time);
    hide VariableDebtBalance;
    AverageNonNegative(r.averageStableBorrowRate, r.totalStableDebt, debt, r.stableBorrowRate);
    var average := AverageStableRate(r.averageStableBorrowRate, r.totalStableDebt, debt, r.stableBorrowRate);
    var scaled := r.scaledVariableDebt - RayDiv(debt, a.variableBorrowIndex);
    var b := a.(scaledVariableDebt := scaled, totalVariableDebt := RayMul(scaled, a.variableBorrowIndex));
    StableRewritten(st, b, a.totalStableDebt + debt, average);
    CloseKeeps(st, r, b.(principalStableDebt := a.totalStableDebt + debt, totalStableDebt := a.totalStableDebt + debt,
                         averageStableBorrowRate := average, totalStableDebtLastUpdated := time), time);
  }

  lemma SeenStableNonNegative(st: Strategy, r: Reserve, seen: int)
    requires ValidAt(st, r, seen)
    ensures 0 <= r.totalStableDebt
  {
    hide SupplyRateImplied, TotalStableDebt, RayMul, NormalizedDebt, UsageRatios;
    SeenIff(r, seen);
    TotalStableGrows(r.principalStableDebt, r.averageStableBorrowRate, r.totalStableDebtLastUpdated, seen, seen);
  }

  // ----- swapping stable debt away: exactly when it keeps the invariant -----

  /** What must hold of the totals before a user's stable debt is taken out of them. */
  ghost predicate StableTotalsCover(average: int, total: int, debt: int, rate: int) {
    debt <= total && (debt == total || rate * debt < average * total + (total - debt))
  }

  lemma AverageAfterRemoval(average: int, total: int, debt: int, rate: int)
    requires debt <= total
    ensures 0 <= AverageStableRate(average, total, -debt, rate) <==> StableTotalsCover(average, total, debt, rate)
  {
    if debt < total {
      var n, d := average * total + rate * -debt, total - debt;
      assert rate * -debt == -(rate * debt);
      if n < 0 {
        DivBounds(-n, d);
        var q := (-n) / d;
        if q >= 1 {
          MulLe(1, q, d);
        }
        if q <= 0 {
          MulLe(q, 0, d);
        }
      } else {
        DivMonotone(0, n, d);
      }
    }
  }

  /** Swapping a user's stable debt to variable has no clamp: it succeeds and keeps
      the reserve valid exactly when the stable totals cover that debt. */
  lemma SwapToVariableKeepsIff(st: Strategy, r: Reserve, seen: int, u: User, time: int)
    requires ValidAt(st, r, seen) && r.lastUpdateTimestamp <= time && 0 < time
    requires 0 <= UserStableDebt(u, time)
    ensures Keeps(st, r, AfterSwap(st, r, u, Stable, time), time)
        <==> StableTotalsCover(r.averageStableBorrowRate,
                               TotalStableDebt(r.principalStableDebt, r.averageStableBorrowRate,
                                               r.totalStableDebtLastUpdated, time),
                               UserStableDebt(u, time), u.stableBorrowRate)
  {
    hide SupplyRateImplied, TotalStableDebt, RayMul, RayDiv, Accrue, Close, Observe, VariableIndexAt, AverageStableRate,
         VariableDebtBalance, UserStableDebt, StableTotalsCover;
    AccrueReady(st, r, seen, time);
    AccrueCarries(r, time);
    var a := Accrue(r, time).value;
    var debt := UserStableDebt(u, time);
    RayDivRounds(debt, a.variableBorrowIndex);
    var average := AverageStableRate(r.averageStableBorrowRate, a.totalStableDebt, -debt, u.stableBorrowRate);
    var scaled := r.scaledVariableDebt + RayDiv(debt, a.variableBorrowIndex);
    var b := a.(scaledVariableDebt := scaled, totalVariableDebt := RayMul(scaled, a.variableBorrowIndex));
    var c := b.(principalStableDebt := a.totalStableDebt - debt, totalStableDebt := a.totalStableDebt - debt,
                averageStableBorrowRate := average, totalStableDebtLastUpdated := time);
    assert AfterSwap(st, r, u, Stable, time) == Close(st, c);
    if debt <= a.totalStableDebt {
      AverageAfterRemoval(r.averageStableBorrowRate, a.totalStableDebt, debt, u.stableBorrowRate);
    }
    if StableTotalsCover(r.averageStableBorrowRate, a.totalStableDebt, debt, u.stableBorrowRate) {
      CoverBounds(r.averageStableBorrowRate, a.totalStableDebt, debt, u.stableBorrowRate);
      StableRewritten(st, b, a.totalStableDebt - debt, average);
      CloseKeeps(st, r, c, time);
    }
    if Close(st, c).Success? {
      CloseOnlyDerives(st, c);
    }
  }

  lemma CoverBounds(average: int, total: int, debt: int, rate: int)
    requires StableTotalsCover(average, total, debt, rate)
    ensures debt <= total
  {
  }

  /** Closing a record changes its derived fields only. */
  lemma CloseOnlyDerives(st: Strategy, t: Reserve)
    requires Close(st, t).Success?
    ensures var c := Close(st, t).value;
            c == t.(totalLiquidity := c.totalLiquidity, borrowUsageRatio := c.borrowUsageRatio,
                    supplyUsageRatio := c.supplyUsageRatio, liquidityRate := c.liquidityRate,
                    stableBorrowRate := c.stableBorrowRate, variableBorrowRate := c.variableBorrowRate)
  {
    hide UsageRatios, InterestRates;
  }
}
