/** Accrual happens once per timestamp, so transactions mined together compose. */
module Timing {
  import opened Arithmetic
  import opened WadRayMath
  import opened Interest
  import opened Failures
  import opened Rates
  import opened Reserves
  import opened Invariant
  import opened Transactions

  /** Accruing again at the time of the last update changes nothing. */
  lemma AccrueAtOnce(st: Strategy, r: Reserve)
    requires Ready(st, r)
    ensures Accrue(r, r.lastUpdateTimestamp) == Success(r)
  {
    hide RayMul, TotalStableDebt, CompoundedInterest, PercentMul, RayDiv;
    var now := r.lastUpdateTimestamp;
    CompoundedAtOnce(r.variableBorrowRate, now);
    assert LinearInterest(r.liquidityRate, now, now) == RAY;
    RayMulIdentity(r.liquidityIndex);
    RayMulIdentity(r.variableBorrowIndex);
    assert Indexed(r, now) == r;
    StableTwoWays(r);
    assert DebtAccrued(r, r) == 0;
    PercentMulAgainstWhole(0, r.reserveFactor);
    PercentMulRounds(0, r.reserveFactor);
  }

  /** `updateState` is idempotent within a timestamp. */
  lemma AccrueIdempotent(st: Strategy, r: Reserve, seen: int, time: int)
    requires ValidAt(st, r, seen) && r.lastUpdateTimestamp <= time
    ensures Accrue(r, time).Success? && Accrue(Accrue(r, time).value, time) == Accrue(r, time)
  {
    hide ValidAt, Accrue, Ready;
    AccrueReady(st, r, seen, time);
    AccrueAtOnce(st, Accrue(r, time).value);
  }

  /** Two deposits mined at one time leave the reserve that one deposit of the sum leaves. */
  lemma DepositsCompose(st: Strategy, r: Reserve, seen: int, first: int, second: int, time: int)
    requires ValidAt(st, r, seen) && r.lastUpdateTimestamp <= time && 0 <= first && 0 <= second
    ensures AfterDeposit(st, r, first, time).Success?
    ensures AfterDeposit(st, AfterDeposit(st, r, first, time).value, second, time)
         == AfterDeposit(st, r, first + second, time)
  {
    hide ValidAt, Accrue, UsageRatios, InterestRates, TotalStableDebt, RayMul, SupplyRateImplied, Valid, Keeps;
    AccrueReady(st, r, seen, time);
    var a := Accrue(r, time).value;
    var ready := a.(availableLiquidity := r.availableLiquidity + first);
    AccrueLiquidity(r, time);
    assert Ready(st, ready);
    CloseKeepsValid(st, ready);
    var n := Close(st, ready).value;
    ClosedIsReady(st, ready);
    AccrueAtOnce(st, n);
  }

  lemma AccrueLiquidity(r: Reserve, time: int)
    requires Accrue(r, time).Success?
    ensures Accrue(r, time).value.availableLiquidity == r.availableLiquidity
    ensures Accrue(r, time).value.lastUpdateTimestamp == time
  {
    AccrueCarries(r, time);
    hide Accrue;
  }

  lemma ClosedIsReady(st: Strategy, r: Reserve)
    requires Ready(st, r) && Close(st, r).Success?
    ensures Ready(st, Close(st, r).value)
  {
    hide UsageRatios, InterestRates, RayMul, TotalStableDebt;
  }

  /** The depositor's scaled balance differs by at most one unit. */
  lemma DepositSharesCompose(first: int, second: int, index: int)
    requires 0 <= first && 0 <= second && 0 < index
    ensures -1 <= RayDiv(first + second, index) - (RayDiv(first, index) + RayDiv(second, index)) <= 1
  {
    RayDivRounds(first, index);
    RayDivRounds(second, index);
    RayDivRounds(first + second, index);
    hide RayDiv;
    ThreeRoundings(RayDiv(first, index), RayDiv(second, index), RayDiv(first + second, index),
                   first * RAY, second * RAY, index);
  }

  lemma ThreeRoundings(p: int, q: int, s: int, m: int, n: int, d: int)
    requires 0 < d && Rounds(p, m, d) && Rounds(q, n, d) && Rounds(s, m + n, d)
    ensures -1 <= s - (p + q) <= 1
  {
    RoundsFromProduct(p, m, d);
    RoundsFromProduct(q, n, d);
    RoundsFromProduct(s, m + n, d);
    hide Rounds;
    var e := s - p - q;
    assert e * d == s * d - p * d - q * d;
    assert -2 * d < e * d < 2 * d;
    MulCancelLt(e, 2, d);
    MulCancelLt(-2, e, d);
  }

  /** The two deposits leave the depositor with what the one leaves: the same wallet, a
      scaled balance within one unit and a balance within 1 + index / (2 RAY). */
  lemma DepositorsCompose(st: Strategy, r: Reserve, seen: int, u: User, first: int, second: int, time: int)
    requires ValidAt(st, r, seen) && r.lastUpdateTimestamp <= time
    requires 0 <= first && 0 <= second && 0 <= u.scaledHTokenBalance
    ensures AfterDeposit(st, r, first, time).Success? && AfterDeposit(st, r, first + second, time).Success?
    ensures var halfway := AfterDeposit(st, r, first, time).value;
            var after := AfterDeposit(st, r, first + second, time).value;
            var once := UserAfterDeposit(r, after, u, first + second, time);
            var half := UserAfterDeposit(r, halfway, u, first, time);
            && AfterDeposit(st, halfway, second, time) == Success(after)
            && once.Success? && half.Success? && UserAfterDeposit(halfway, after, half.value, second, time).Success?
            && var twice := UserAfterDeposit(halfway, after, half.value, second, time).value;
               var index := after.liquidityIndex;
               && twice.walletBalance == once.value.walletBalance
               && -1 <= once.value.scaledHTokenBalance - twice.scaledHTokenBalance <= 1
               && -(2 * RAY + index) <= 2 * RAY * (twice.currentHTokenBalance - once.value.currentHTokenBalance)
                  <= 2 * RAY + index
  {
    hide ValidAt, AfterDeposit, RayMul, RayDiv, NormalizedIncome, LiquidityIndexAt, VariableDebtBalance, UserStableDebt,
         Keeps;
    DepositsCompose(st, r, seen, first, second, time);
    DepositKeepsIndex(st, r, seen, first, time);
    DepositKeepsIndex(st, r, seen, first + second, time);
    IncomeGuardsAgree(st, r, seen, time);
    var index, scaled := LiquidityIndexAt(r, time), u.scaledHTokenBalance;
    RayDivZero(index);
    RayDivRounds(first, index);
    DepositSharesCompose(first, second, index);
    MovedShares(scaled, first, index);
  }

  lemma DepositKeepsIndex(st: Strategy, r: Reserve, seen: int, amount: int, time: int)
    requires ValidAt(st, r, seen) && r.lastUpdateTimestamp <= time && 0 <= amount
    ensures AfterDeposit(st, r, amount, time).Success? && RAY <= LiquidityIndexAt(r, time)
    ensures var after := AfterDeposit(st, r, amount, time).value;
            after.liquidityIndex == LiquidityIndexAt(r, time) == NormalizedIncome(after, time)
  {
    hide SupplyRateImplied, Observe, RayMul, LiquidityIndexAt, Accrue, Close, TotalStableDebt, LinearInterest;
    DepositKeeps(st, r, seen, amount, time);
    IncomeGuardsAgree(st, r, seen, time);
    AccrueCarries(r, time);
    var a := Accrue(r, time).value;
    CloseOnlyDerives(st, a.(availableLiquidity := r.availableLiquidity + amount));
    var after := AfterDeposit(st, r, amount, time).value;
    LinearAtLeastRay(after.liquidityRate, time, time);
    RayMulIdentity(after.liquidityIndex);
  }
}
