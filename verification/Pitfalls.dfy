/** Runs from an unused market on which the calculations, as written, go wrong. */
module Pitfalls {
  import opened WadRayMath
  import opened Interest
  import opened Compounding
  import opened Failures
  import opened Rates
  import opened Reserves
  import opened Invariant
  import opened Transactions
  import opened Runs

  // ----- what a line leaves -----

  /** One permitted line, seen field by field. */
  lemma LineFields(st: Strategy, m: Market, e: Entry)
    requires Sane(st, m) && Allowed(st, m, e)
    ensures Step(st, m, e).Success? && Observe(m.reserve, e.now).Success?
    ensures var next, r := Step(st, m, e).value, Observe(m.reserve, e.now).value;
            && Sane(st, next)
            && ValidAt(st, r, e.now) && r.lastUpdateTimestamp == m.reserve.lastUpdateTimestamp
            && ReserveAfter(st, r, e) == Success(next.reserve) && UserAfter(r, next.reserve, e).Success?
            && next.users == m.users[e.user := UserAfter(r, next.reserve, e).value]
            && next.reserve.lastUpdateTimestamp == e.time
            && VariableIndexAt(r, e.time) != 0 && next.reserve.variableBorrowIndex == VariableIndexAt(r, e.time)
            && next.reserve.availableLiquidity == r.availableLiquidity + LiquidityAdded(r, e)
            && next.reserve.scaledVariableDebt == r.scaledVariableDebt + ScaledDebtAdded(r, e)
            && next.reserve.unbacked == r.unbacked + UnbackedAdded(r, e)
            && (!e.action.BackUnbacked? ==> next.reserve.liquidityIndex == LiquidityIndexAt(r, e.time))
            && st.baseVariableBorrowRate <= next.reserve.variableBorrowRate
  {
    hide Observe, Permitted, ReserveAfter, UserAfter, SupplyRateImplied, ScaledDebtAdded, UserStableDebt,
         VariableIndexAt, LiquidityIndexAt, Balanced, Faithful;
    StepKeeps(st, m, e);
    ObserveKeepsValid(st, m.reserve, e.now);
    ObserveCarries(m.reserve, e.now);
    var r := Observe(m.reserve, e.now).value;
    IndexGuardsAgree(st, r, e.now, e.time, 0);
    ReserveStepKeeps(st, r, e);
    ReserveAfterCarries(st, r, e);
    StableSideAfter(st, r, e);
    var n := ReserveAfter(st, r, e).value;
    RateFollowsUsage(st, r, e);
    UsageStaysBounded(st, n, e.time);
    RateFloor(st, n);
  }

  /** The variable rate a transaction leaves is the curve's at the usage it leaves. */
  lemma RateFollowsUsage(st: Strategy, r: Reserve, e: Entry)
    requires ReserveAfter(st, r, e).Success?
    ensures var n := ReserveAfter(st, r, e).value; VariableRate(st, n.borrowUsageRatio) == Success(n.variableBorrowRate)
  {
    hide Accrue, Close, RayMul, RayDiv, VariableIndexAt, LiquidityIndexAt, TotalStableDebt, AverageStableRate,
         PercentMul, CumulatedIndex, UserStableDebt, VariableDebtBalance, RepaidAmount, WithdrawnAmount,
         StableAfterRepay, VariableRate;
    forall c: Reserve | Close(st, c).Success?
      ensures VariableRate(st, Close(st, c).value.borrowUsageRatio) == Success(Close(st, c).value.variableBorrowRate)
    {
      CloseUsesCurve(st, c);
    }
  }

  lemma CloseUsesCurve(st: Strategy, c: Reserve)
    requires Close(st, c).Success?
    ensures VariableRate(st, Close(st, c).value.borrowUsageRatio) == Success(Close(st, c).value.variableBorrowRate)
  {
    hide VariableRate, UsageRatios, StableRate, StableToTotalRatio, OverallBorrowRate, LiquidityRate;
  }

  lemma RateFloor(st: Strategy, r: Reserve)
    requires Valid(st, r) && UsageBounded(r) && VariableRate(st, r.borrowUsageRatio) == Success(r.variableBorrowRate)
    ensures st.baseVariableBorrowRate <= r.variableBorrowRate
  {
    hide SupplyRateImplied;
    CurveDefined(st.baseVariableBorrowRate, st.variableRateSlope1, st.variableRateSlope2, st.optimalUsageRatio,
                 r.borrowUsageRatio);
  }

  // ----- stories that all happen at one time -----

  /** A reserve last touched at `time`, with no interest accrued and no stable debt. */
  ghost predicate StandsAt(r: Reserve, time: int, available: int, scaled: int, unbacked: int) {
    && r.lastUpdateTimestamp == time && r.liquidityIndex == RAY && r.variableBorrowIndex == RAY
    && r.principalStableDebt == 0
    && r.availableLiquidity == available && r.scaledVariableDebt == scaled && r.unbacked == unbacked
  }

  /** Reading such a reserve back at once, all debts are the scaled ones. */
  lemma ReadAtOnce(st: Strategy, r: Reserve, time: int, available: int, scaled: int, unbacked: int)
    requires Valid(st, r) && StandsAt(r, time, available, scaled, unbacked)
    ensures Observe(r, time).Success?
    ensures var o := Observe(r, time).value;
            && StandsAt(o, time, available, scaled, unbacked) && ValidAt(st, o, time)
            && VariableIndexAt(o, time) == RAY && LiquidityIndexAt(o, time) == RAY
            && NormalizedDebt(o.variableBorrowRate, o.variableBorrowIndex, time, time) == RAY
            && o.variableBorrowRate == r.variableBorrowRate
            && TotalStableDebt(0, o.averageStableBorrowRate, o.totalStableDebtLastUpdated, time) == 0
  {
    hide SupplyRateImplied, Observe, TotalStableDebt, RayMul, CompoundedInterest, LinearInterest;
    ObserveKeepsValid(st, r, time);
    ObserveCarries(r, time);
    var o := Observe(r, time).value;
    CompoundedAtOnce(o.variableBorrowRate, time);
    LinearAtLeastRay(o.liquidityRate, time, time);
    RayMulIdentity(RAY);
    TotalStableGrows(0, o.averageStableBorrowRate, o.totalStableDebtLastUpdated, time, time);
  }

  lemma ScaledAtRay(amount: int)
    requires 0 <= amount
    ensures RayDiv(amount, RAY) == amount
  {
    RayMulIdentity(amount);
    FullExit(amount, RAY);
  }

  ghost predicate IsPlain(action: Action) {
    action.Deposit? || action.MintUnbacked? || (action.Borrow? && action.mode == Variable)
  }

  /** Scaled variable debt of the user after a line at index one ray. */
  ghost function DebtAfterLine(e: Entry, reserveDebt: int): int {
    if e.action.Borrow? then reserveDebt + e.action.amount else e.seen.scaledVariableDebt
  }

  lemma LineAtOnce(st: Strategy, m: Market, e: Entry, available: int, scaled: int, unbacked: int)
    requires Sane(st, m) && Allowed(st, m, e) && e.now == e.time && IsPlain(e.action)
    requires StandsAt(m.reserve, e.time, available, scaled, unbacked)
    ensures Step(st, m, e).Success?
    ensures var next, action := Step(st, m, e).value, e.action;
            && Sane(st, next) && |next.users| == |m.users|
            && st.baseVariableBorrowRate <= next.reserve.variableBorrowRate
            && StandsAt(next.reserve, e.time,
                        if action.Deposit? then available + action.amount
                        else if action.Borrow? then available - action.amount else available,
                        if action.Borrow? then scaled + action.amount else scaled,
                        if action.MintUnbacked? then unbacked + action.amount else unbacked)
            && next.users[e.user].scaledVariableDebt == DebtAfterLine(e, scaled)
            && next.users[e.user].scaledHTokenBalance
               == e.seen.scaledHTokenBalance + (if action.Borrow? then 0 else action.amount)
            && forall k | 0 <= k < |m.users| && k != e.user :: next.users[k] == m.users[k]
  {
    hide Observe, ReserveAfter, SupplyRateImplied, RayMul, RayDiv, VariableIndexAt, LiquidityIndexAt, ValidAt,
         UserStableDebt, VariableDebtBalance, HTokenBalance, NormalizedDebt, Step, TotalStableDebt;
    SaneReserve(st, m);
    ReadAtOnce(st, m.reserve, e.time, available, scaled, unbacked);
    LineFields(st, m, e);
    ReadPermits(st, m, e);
    StableSideAfter(st, Observe(m.reserve, e.now).value, e);
    ScaledAtRay(e.action.amount);
    ScaledAtRay(0);
  }

  lemma SaneReserve(st: Strategy, m: Market)
    requires Sane(st, m)
    ensures Valid(st, m.reserve) && 0 <= m.reserve.lastUpdateTimestamp
  {
    hide SupplyRateImplied;
  }

  lemma FreshStandsAt(st: Strategy, count: nat, time: int)
    requires st.Valid() && 0 <= time
    ensures Sane(st, FreshMarket(st, count, time)) && StandsAt(FreshMarket(st, count, time).reserve, time, 0, 0, 0)
  {
    hide ValidAt, SupplyRateImplied, Observe;
    FreshReserveIsValid(st, time);
    ValidNow(st, FreshReserve(st, time), time);
  }

  /** Lines of a user without stable debt are allowed as far as liquidity goes. */
  lemma PlainAllowed(st: Strategy, m: Market, e: Entry, available: int, scaled: int, unbacked: int)
    requires Sane(st, m) && StandsAt(m.reserve, e.time, available, scaled, unbacked)
    requires e.now == e.time && 0 < e.time && IsPlain(e.action) && 0 <= e.action.amount
    requires e.action.Borrow? ==> 0 < e.action.amount <= available
    requires e.user < |m.users| && e.seen == m.users[e.user]
    requires 0 <= e.seen.scaledVariableDebt <= scaled && e.seen.principalStableDebt == 0 && e.seen.stableBorrowRate == 0
    ensures Allowed(st, m, e)
  {
    hide Observe, SupplyRateImplied, ValidAt;
    SaneReserve(st, m);
    ReadAtOnce(st, m.reserve, e.time, available, scaled, unbacked);
  }

  /** A supplier's deposit and, from it, a first borrow. */
  ghost function Supplied(time: int, amount: int): Entry {
    Entry(time, time, 0, FreshUser(), Deposit(amount))
  }

  ghost function Borrowed(user: nat, time: int, amount: int): Entry {
    Entry(time, time, user, FreshUser(), Borrow(amount, Variable))
  }

  /** The first two lines of the stories below. */
  ghost function Lending(time: int, supplied: int, borrowed: int): seq<Entry> {
    [] + [Supplied(time, supplied)] + [Borrowed(1, time, borrowed)]
  }

  lemma LendingPlays(st: Strategy, time: int, supplied: int, borrowed: int) returns (m: Market)
    requires st.Valid() && 0 < time && 0 < borrowed <= supplied
    ensures Plays(st, FreshMarket(st, 3, time), Lending(time, supplied, borrowed), m)
    ensures Sane(st, m) && StandsAt(m.reserve, time, supplied - borrowed, borrowed, 0) && |m.users| == 3
    ensures m.users[1].scaledVariableDebt == borrowed && m.users[2] == FreshUser()
    ensures m.users[0].scaledVariableDebt == 0 && st.baseVariableBorrowRate <= m.reserve.variableBorrowRate
  {
    hide Step, Allowed, Sane, StandsAt;
    var start, first, second := FreshMarket(st, 3, time), Supplied(time, supplied), Borrowed(1, time, borrowed);
    FreshStandsAt(st, 3, time);
    PlainAllowed(st, start, first, 0, 0, 0);
    LineAtOnce(st, start, first, 0, 0, 0);
    var halfway := Step(st, start, first).value;
    PlainAllowed(st, halfway, second, supplied, 0, 0);
    LineAtOnce(st, halfway, second, supplied, 0, 0);
    m := Step(st, halfway, second).value;
    PlaysOn(st, start, [], start, first, halfway);
    PlaysOn(st, start, [] + [first], halfway, second, m);
  }

  // ----- a second variable borrower -----

  /** As soon as a second user borrows at the variable rate, the users' debts no longer
      add up to the reserve's: the second borrower is charged the first one's debt too. */
  lemma SecondBorrowUnbalances(st: Strategy, time: int, supplied: int, first: int, second: int)
    returns (before: Market, after: Market)
    requires st.Valid() && 0 < time && 0 < first && 0 < second && first + second <= supplied
    ensures Plays(st, FreshMarket(st, 3, time), Lending(time, supplied, first), before) && Balanced(before)
    ensures AllowedStep(st, before, Borrowed(2, time, second), after) && !Balanced(after)
    ensures after.reserve.scaledVariableDebt == first + second
    ensures TotalScaledDebt(after.users) == first + (first + second)
  {
    hide Step, Allowed, Sane, Plays;
    before := LendingPlays(st, time, supplied, first);
    PlainAllowed(st, before, Borrowed(2, time, second), supplied - first, first, 0);
    LineAtOnce(st, before, Borrowed(2, time, second), supplied - first, first, 0);
    after := Step(st, before, Borrowed(2, time, second)).value;
    ThreeDebts(before.users);
    ThreeDebts(after.users);
  }

  lemma ThreeDebts(users: seq<User>)
    requires |users| == 3
    ensures TotalScaledDebt(users)
         == users[0].scaledVariableDebt + users[1].scaledVariableDebt + users[2].scaledVariableDebt
  {
    var tail := users[1..];
    assert tail[0] == users[1] && tail[1..][0] == users[2] && tail[1..][1..] == [];
    assert TotalScaledDebt(tail[1..]) == users[2].scaledVariableDebt + TotalScaledDebt(tail[1..][1..]);
    assert TotalScaledDebt(tail) == users[1].scaledVariableDebt + TotalScaledDebt(tail[1..]);
  }

  // ----- a full repayment read back late -----

  /** A borrower of the whole variable debt who repays MAX at once, with the record read
      back a year later at a rate of 100% or more, is left with a negative debt. */
  lemma LateMaxRepayOverburns(st: Strategy, r: Reserve, time: int, available: int, borrowed: int, u: User)
    requires 0 < time && 0 < borrowed && Valid(st, r) && StandsAt(r, time, available, borrowed, 0)
    requires RAY <= r.variableBorrowRate && u.scaledVariableDebt == borrowed
    ensures Observe(r, time).Success?
    ensures var o := Observe(r, time).value;
            var after := AfterRepay(st, o, u, MAX_UINT_AMOUNT, Variable, time);
            && after.Success?
            && var left := UserAfterRepay(o, after.value, u, MAX_UINT_AMOUNT, Variable, true, time, time + ONE_YEAR);
               left.Success? && left.value.scaledVariableDebt < 0
  {
    hide Observe, SupplyRateImplied, AfterRepay, UserAfterRepay, RayMul, VariableIndexAt, LiquidityIndexAt, ValidAt,
         CompoundedInterest, TotalStableDebt;
    ReadAtOnce(st, r, time, available, borrowed, 0);
    var o := Observe(r, time).value;
    var e := Entry(time, time, 0, u, Repay(MAX_UINT_AMOUNT, Variable, true));
    DebtGrowsLater(st, o, e, time);
    RayMulMonotone(0, 0, borrowed, RAY);
    RepayKeeps(st, o, time, u, MAX_UINT_AMOUNT, Variable, time);
    LateMaxRepayIsExactIff(st, o, e, true, time + ONE_YEAR);
    var c := CompoundedInterest(o.variableBorrowRate, time + ONE_YEAR, time);
    CompoundedAtLeastLinear(o.variableBorrowRate, time + ONE_YEAR, time);
    LinearDoubles(o.variableBorrowRate, time);
    hide LinearInterest;
    RayMulIdentity(c);
    RayMulMonotone(borrowed, 2 * RAY, borrowed, c);
    RayMulTwice(borrowed);
  }

  lemma LinearDoubles(rate: int, time: int)
    requires RAY <= rate
    ensures 2 * RAY <= LinearInterest(rate, time + ONE_YEAR, time)
  {
  }

  lemma RayMulTwice(debt: int)
    requires 0 <= debt
    ensures RayMul(debt, 2 * RAY) == 2 * debt
  {
  }

  /** Such a borrower is two lines away from an unused market. */
  lemma LateMaxRepayHappens(st: Strategy, time: int, supplied: int, borrowed: int)
    returns (n: Market, o: Reserve, after: Reserve, left: User)
    requires st.Valid() && RAY <= st.baseVariableBorrowRate && 0 < time && 0 < borrowed <= supplied
    ensures Plays(st, FreshMarket(st, 3, time), Lending(time, supplied, borrowed), n) && |n.users| == 3
    ensures Reads(n.reserve, time, o)
    ensures AfterRepay(st, o, n.users[1], MAX_UINT_AMOUNT, Variable, time) == Success(after)
    ensures UserAfterRepay(o, after, n.users[1], MAX_UINT_AMOUNT, Variable, true, time, time + ONE_YEAR)
         == Success(left)
    ensures left.scaledVariableDebt < 0
  {
    hide Step, Allowed, Sane, Plays, AfterRepay, UserAfterRepay, Observe;
    n := LendingPlays(st, time, supplied, borrowed);
    SaneReserve(st, n);
    LateMaxRepayOverburns(st, n.reserve, time, supplied - borrowed, borrowed, n.users[1]);
    o := Observe(n.reserve, time).value;
    after := AfterRepay(st, o, n.users[1], MAX_UINT_AMOUNT, Variable, time).value;
    left := UserAfterRepay(o, after, n.users[1], MAX_UINT_AMOUNT, Variable, true, time, time + ONE_YEAR).value;
  }

  // ----- a withdrawal beyond the available liquidity -----

  ghost function Minted(user: nat, time: int, amount: int): Entry {
    Entry(time, time, user, FreshUser(), MintUnbacked(amount))
  }

  /** Once everything supplied is lent out, a holder of unbacked tokens who withdraws what
      was supplied divides by zero, and one who withdraws one more fails the usage check;
      both amounts are within the holder's balance. */
  lemma UncoveredWithdrawalFails(st: Strategy, time: int, supplied: int) returns (n: Market, o: Reserve)
    requires st.Valid() && 0 < time && 0 < supplied && supplied + 1 < MAX_UINT_AMOUNT
    ensures Plays(st, FreshMarket(st, 3, time), Lending(time, supplied, supplied) + [Minted(2, time, supplied + 1)], n)
    ensures |n.users| == 3 && Reads(n.reserve, time, o) && ValidAt(st, o, time)
    ensures HTokenBalance(o, n.users[2], time) == supplied + 1
    ensures AfterWithdraw(st, o, n.users[2], supplied, time) == Failure(DivisionByZero)
    ensures AfterWithdraw(st, o, n.users[2], supplied + 1, time) == Failure(UsageCheck)
  {
    hide Step, Allowed, Sane, Plays, AfterWithdraw, Observe, ValidAt, RayMul, HTokenBalance;
    var e := Minted(2, time, supplied + 1);
    var m := LendingPlays(st, time, supplied, supplied);
    PlainAllowed(st, m, e, 0, supplied, 0);
    LineAtOnce(st, m, e, 0, supplied, 0);
    n := Step(st, m, e).value;
    PlaysOn(st, FreshMarket(st, 3, time), Lending(time, supplied, supplied), m, e, n);
    SaneReserve(st, n);
    ReadAtOnce(st, n.reserve, time, 0, supplied, supplied + 1);
    o := Observe(n.reserve, time).value;
    BalanceAtOnce(st, o, n.users[2], time);
    WithdrawalFails(st, o, n.users[2], supplied, time);
  }

  lemma BalanceAtOnce(st: Strategy, r: Reserve, u: User, time: int)
    requires ValidAt(st, r, time) && r.lastUpdateTimestamp == time && r.liquidityIndex == RAY
    requires 0 <= u.scaledHTokenBalance && LiquidityIndexAt(r, time) == RAY
    ensures HTokenBalance(r, u, time) == u.scaledHTokenBalance
  {
    hide Observe, SupplyRateImplied, RayMul, LiquidityIndexAt, NormalizedIncome;
    IncomeGuardsAgree(st, r, time, time);
    RayMulIdentity(u.scaledHTokenBalance);
  }

  lemma WithdrawalFails(st: Strategy, r: Reserve, u: User, debt: int, time: int)
    requires ValidAt(st, r, time) && StandsAt(r, time, 0, debt, debt + 1) && 0 < debt && debt + 1 < MAX_UINT_AMOUNT
    requires VariableIndexAt(r, time) == RAY
    requires TotalStableDebt(0, r.averageStableBorrowRate, r.totalStableDebtLastUpdated, time) == 0
    ensures AfterWithdraw(st, r, u, debt, time) == Failure(DivisionByZero)
    ensures AfterWithdraw(st, r, u, debt + 1, time) == Failure(UsageCheck)
  {
    hide Observe, SupplyRateImplied, RayMul, RayDiv, Accrue, TotalStableDebt, VariableIndexAt, InterestRates;
    AccrueReady(st, r, time, time);
    AccrueCarries(r, time);
    RayMulIdentity(debt);
    UsageCheckIff(0, debt, -debt - 1, 0);
    assert UsageRatios(0, debt, -debt, 1) == Failure(DivisionByZero);
    assert UsageRatios(0, debt, -debt - 1, 0) == Failure(UsageCheck);
  }
}
