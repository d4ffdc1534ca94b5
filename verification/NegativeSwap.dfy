/** A run from an unused market after which a swap leaves the reserve a negative debt:
    a part of a unit was rounded away when a second loan was added to the first. */
module NegativeSwap {
  import opened WadRayMath
  import opened Interest
  import opened Failures
  import opened Rates
  import opened Reserves
  import opened Invariant
  import opened Transactions
  import opened Runs
  import opened Pitfalls

  /** A flat stable rate of 20%. */
  const FLAT_RATE: int := 200_000_000_000_000_000_000_000_000
  const FLAT: Strategy := Strategy(FLAT_RATE, 0, RAY, RAY, 0, 0, 0, 0, 0, 0)

  /** A reserve under the flat rate, last touched at `time`, with stable debt only. */
  ghost predicate LentAt(r: Reserve, time: int, available: int, stable: int) {
    && r.lastUpdateTimestamp == time && r.availableLiquidity == available && r.unbacked == 0
    && r.principalStableDebt == stable && r.scaledVariableDebt == 0 && r.variableBorrowIndex == RAY
    && r.stableBorrowRate == FLAT_RATE
    && (0 < stable ==> r.averageStableBorrowRate == FLAT_RATE && r.totalStableDebtLastUpdated == time)
  }

  /** A user whose stable debt of one unit runs since `time`. */
  ghost predicate OwesOneSince(u: User, time: int) {
    u.principalStableDebt == 1 && u.stableBorrowRate == FLAT_RATE && u.stableRateLastUpdated == time
    && u.scaledVariableDebt == 0
  }

  /** What is left of a reserve under the flat rate when it is read back. */
  lemma LentReadBack(r: Reserve, last: int, available: int, stable: int, time: int)
    requires Valid(FLAT, r) && LentAt(r, last, available, stable) && last <= time
    ensures Observe(r, time).Success?
    ensures var o := Observe(r, time).value;
            && LentAt(o, last, available, stable) && ValidAt(FLAT, o, time)
            && VariableIndexAt(o, time) == RAY && o.totalVariableDebt == 0
            && StableAccrued(o, time) == o.totalStableDebt
            && (0 < stable ==> o.totalStableDebt == TotalStableDebt(stable, FLAT_RATE, last, time))
            && (stable == 0 ==> o.totalStableDebt == 0)
  {
    hide SupplyRateImplied, TotalStableDebt, RayMul, NormalizedDebt, UsageRatios, ValidAt;
    ObserveKeepsValid(FLAT, r, time);
    ObserveCarries(r, time);
    TotalStableGrows(r.principalStableDebt, r.averageStableBorrowRate, r.totalStableDebtLastUpdated, last, time);
    NormalizedDebtGrows(r.variableBorrowRate, r.variableBorrowIndex, last, time, time);
    TotalStableGrows(0, r.averageStableBorrowRate, r.totalStableDebtLastUpdated, time, time);
    RayMulIdentity(NormalizedDebt(r.variableBorrowRate, r.variableBorrowIndex, last, time));
  }

  lemma CloseIsFlat(c: Reserve)
    requires Close(FLAT, c).Success?
    ensures Close(FLAT, c).value.stableBorrowRate == FLAT_RATE
  {
    hide UsageRatios, StableToTotalRatio, OverallBorrowRate, LiquidityRate, VariableRate;
    forall usage, ratio | StableRate(FLAT, usage, ratio).Success?
      ensures StableRate(FLAT, usage, ratio).value == FLAT_RATE
    {
      RayDivZero(RAY);
    }
    hide StableRate;
  }

  lemma StaysFlat(r: Reserve, e: Entry)
    requires ReserveAfter(FLAT, r, e).Success?
    ensures ReserveAfter(FLAT, r, e).value.stableBorrowRate == FLAT_RATE
  {
    hide Accrue, Close, RayMul, RayDiv, VariableIndexAt, LiquidityIndexAt, TotalStableDebt, AverageStableRate,
         PercentMul, CumulatedIndex, UserStableDebt, VariableDebtBalance, RepaidAmount, WithdrawnAmount,
         StableAfterRepay;
    forall c: Reserve | Close(FLAT, c).Success?
      ensures Close(FLAT, c).value.stableBorrowRate == FLAT_RATE
    {
      CloseIsFlat(c);
    }
  }

  const SECOND_LOAN: int := 1 + 2 * ONE_YEAR
  const SWAP_TIME: int := 1 + 3 * ONE_YEAR

  lemma FlatPowers()
    ensures BasePowerTwo(FLAT_RATE) == 40_220_436_306 && BasePowerThree(FLAT_RATE) == 255
  {
    assert RayMul(FLAT_RATE, FLAT_RATE) == 40_000_000_000_000_000_000_000_000;
    assert RayMul(40_220_436_306, FLAT_RATE) == 8_044_087_261;
  }

  /** The flat rate over one, two and three years. */
  lemma FlatInterest(start: int)
    ensures CompoundedInterest(FLAT_RATE, start + ONE_YEAR, start) == 1_221_332_933_560_973_813_055_552_000
    ensures CompoundedInterest(FLAT_RATE, start + 2 * ONE_YEAR, start) == 1_490_663_472_800_458_446_207_104_000
    ensures CompoundedInterest(FLAT_RATE, start + 3 * ONE_YEAR, start) == 1_815_989_223_650_711_179_454_656_000
  {
    FlatPowers();
    hide BasePowerTwo, BasePowerThree;
  }

  /** One unit grows to 1.49 in two years, two units to 2.44 in a third; alone, one unit
      grows to 1.22 in that year and to 1.82 in all three. */
  lemma RoundedGrowth()
    ensures TotalStableDebt(1, FLAT_RATE, 1, SECOND_LOAN) == 1
    ensures TotalStableDebt(2, FLAT_RATE, SECOND_LOAN, SWAP_TIME) == 2
    ensures StableDebtBalance(1, FLAT_RATE, SECOND_LOAN, SWAP_TIME) == 1
    ensures StableDebtBalance(1, FLAT_RATE, 1, SWAP_TIME) == 2
  {
    FlatInterest(1);
    FlatInterest(SECOND_LOAN);
    hide CompoundedInterest;
  }

  /** Stable debt of a reserve under the flat rate, grown to `time`. */
  ghost function GrownStable(stable: int, last: int, time: int): int {
    if stable == 0 then 0 else TotalStableDebt(stable, FLAT_RATE, last, time)
  }

  ghost function LoanOfOne(m: Market, user: nat, time: int): Entry
    requires user < |m.users|
  {
    Entry(time, time, user, m.users[user], Borrow(1, Stable))
  }

  /** One permitted line under the flat rate. */
  lemma FlatLine(m: Market, e: Entry, last: int, available: int, stable: int)
    requires Sane(FLAT, m) && Allowed(FLAT, m, e) && e.now == e.time && last <= e.time
    requires LentAt(m.reserve, last, available, stable)
    requires !e.action.MintUnbacked? && !e.action.BackUnbacked? && !e.action.SwapRateMode?
    requires (e.action.Borrow? || e.action.Repay?) ==> e.action.mode == Stable
    ensures Step(FLAT, m, e).Success? && Observe(m.reserve, e.time).Success?
    ensures var next, r := Step(FLAT, m, e).value, Observe(m.reserve, e.time).value;
            && Sane(FLAT, next) && UserAfter(r, next.reserve, e).Success?
            && next.users == m.users[e.user := UserAfter(r, next.reserve, e).value]
            && StableAccrued(r, e.time) == GrownStable(stable, last, e.time) && LentAt(r, last, available, stable)
            && next.reserve.lastUpdateTimestamp == e.time && next.reserve.stableBorrowRate == FLAT_RATE
            && next.reserve.availableLiquidity == available + LiquidityAdded(r, e)
            && next.reserve.scaledVariableDebt == 0 && next.reserve.unbacked == 0
            && next.reserve.variableBorrowIndex == RAY
            && (TouchesStable(e.action) ==>
                  && next.reserve.totalStableDebtLastUpdated == e.time
                  && next.reserve.averageStableBorrowRate == AverageLeft(r, e)
                  && next.reserve.principalStableDebt == GrownStable(stable, last, e.time) + StableAdded(r, e))
  {
    hide Observe, ReserveAfter, UserAfter, SupplyRateImplied, VariableIndexAt, LiquidityIndexAt, ValidAt,
         UserStableDebt, Step, TotalStableDebt, StableAdded, AverageLeft, LiquidityAdded, StableAccrued;
    SaneReserve(FLAT, m);
    LentReadBack(m.reserve, last, available, stable, e.time);
    LineFields(FLAT, m, e);
    StableSideAfter(FLAT, Observe(m.reserve, e.time).value, e);
    StaysFlat(Observe(m.reserve, e.time).value, e);
  }

  lemma LentAllows(m: Market, e: Entry, last: int, available: int, stable: int)
    requires Sane(FLAT, m) && LentAt(m.reserve, last, available, stable) && e.now == e.time && last <= e.time
             && 0 < e.time
    requires e.user < |m.users| && e.seen == m.users[e.user] && e.seen.scaledVariableDebt == 0
    requires e.action == Borrow(1, Stable) || e.action == Repay(MAX_UINT_AMOUNT, Stable, true)
    requires 0 <= UserStableDebt(e.seen, e.time) && 1 <= available
    ensures Allowed(FLAT, m, e)
  {
    hide Observe, SupplyRateImplied, ValidAt, UserStableDebt;
    SaneReserve(FLAT, m);
    LentReadBack(m.reserve, last, available, stable, e.time);
  }

  lemma BorrowOne(m: Market, user: nat, time: int, last: int, available: int, stable: int)
    requires Sane(FLAT, m) && LentAt(m.reserve, last, available, stable) && last <= time && 0 < time && 1 <= available
    requires 0 <= GrownStable(stable, last, time) && user < |m.users| && m.users[user] == FreshUser()
    ensures var e := LoanOfOne(m, user, time);
            && Allowed(FLAT, m, e) && Step(FLAT, m, e).Success?
            && var next := Step(FLAT, m, e).value;
               && Sane(FLAT, next) && |next.users| == |m.users| && OwesOneSince(next.users[user], time)
               && LentAt(next.reserve, time, available - 1, GrownStable(stable, last, time) + 1)
               && forall k | 0 <= k < |m.users| && k != user :: next.users[k] == m.users[k]
  {
    hide Observe, SupplyRateImplied, ValidAt, Step, TotalStableDebt, GrownStable, HTokenBalance, VariableDebtBalance,
         Allowed, Sane, StableAccrued, AverageStableRate;
    var e := LoanOfOne(m, user, time);
    LentAllows(m, e, last, available, stable);
    FlatLine(m, e, last, available, stable);
    SaneReserve(FLAT, m);
    var r, next := Observe(m.reserve, time).value, Step(FLAT, m, e).value;
    BorrowerOwesOne(r, next.reserve, time);
    if stable == 0 {
      NothingGrown(last, time);
      FirstAverage(r.averageStableBorrowRate);
    } else {
      NeverNegative(m.reserve, last, available, stable);
      SteadyAverage(GrownStable(stable, last, time), 1);
    }
  }

  lemma NeverNegative(r: Reserve, last: int, available: int, stable: int)
    requires Valid(FLAT, r) && LentAt(r, last, available, stable)
    ensures 0 <= stable
  {
    hide SupplyRateImplied;
  }

  lemma BorrowerOwesOne(r: Reserve, after: Reserve, time: int)
    requires r.stableBorrowRate == FLAT_RATE
    ensures var u := UserAfterBorrow(r, after, FreshUser(), 1, Stable, time, time);
            u.Success? && OwesOneSince(u.value, time)
  {
    hide HTokenBalance, VariableDebtBalance;
  }

  lemma NothingGrown(last: int, time: int)
    ensures GrownStable(0, last, time) == 0
  {
  }

  lemma FirstAverage(average: int)
    ensures AverageStableRate(average, 0, 1, FLAT_RATE) == FLAT_RATE
  {
  }

  /** A mean of equal rates is that rate. */
  lemma SteadyAverage(total: int, change: int)
    requires 0 < total + change
    ensures AverageStableRate(FLAT_RATE, total, change, FLAT_RATE) == FLAT_RATE
  {
    assert FLAT_RATE * total + FLAT_RATE * change == FLAT_RATE * (total + change);
  }

  lemma RepayOne(m: Market, user: nat, available: int)
    requires Sane(FLAT, m) && LentAt(m.reserve, SECOND_LOAN, available, 2) && 1 <= available
    requires user < |m.users| && OwesOneSince(m.users[user], SECOND_LOAN)
    ensures var e := Entry(SWAP_TIME, SWAP_TIME, user, m.users[user], Repay(MAX_UINT_AMOUNT, Stable, true));
            && Allowed(FLAT, m, e) && Step(FLAT, m, e).Success?
            && var next := Step(FLAT, m, e).value;
               && Sane(FLAT, next) && |next.users| == |m.users| && LentAt(next.reserve, SWAP_TIME, available + 1, 1)
               && forall k | 0 <= k < |m.users| && k != user :: next.users[k] == m.users[k]
  {
    hide Observe, SupplyRateImplied, ValidAt, Step, TotalStableDebt, HTokenBalance, VariableDebtBalance, UserAfterRepay,
         Allowed, Sane, StableAccrued, AverageStableRate, StableDebtBalance;
    RoundedGrowth();
    var e := Entry(SWAP_TIME, SWAP_TIME, user, m.users[user], Repay(MAX_UINT_AMOUNT, Stable, true));
    LentAllows(m, e, SECOND_LOAN, available, 2);
    FlatLine(m, e, SECOND_LOAN, available, 2);
    SteadyAverage(2, -1);
  }

  lemma SwapLeavesMinusOne(r: Reserve, u: User)
    requires ValidAt(FLAT, r, SWAP_TIME) && LentAt(r, SWAP_TIME, 9, 1) && OwesOneSince(u, 1)
    requires VariableIndexAt(r, SWAP_TIME) == RAY && StableAccrued(r, SWAP_TIME) == 1
    ensures UserStableDebt(u, SWAP_TIME) == 2
    ensures AfterSwap(FLAT, r, u, Stable, SWAP_TIME).Success?
    ensures AfterSwap(FLAT, r, u, Stable, SWAP_TIME).value.principalStableDebt == -1
  {
    hide Observe, SupplyRateImplied, Accrue, Close, TotalStableDebt, VariableIndexAt, StableDebtBalance,
         AverageStableRate, RayMul, RayDiv;
    RoundedGrowth();
    AccrueReady(FLAT, r, SWAP_TIME, SWAP_TIME);
    AccrueCarries(r, SWAP_TIME);
    ScaledAtRay(2);
    var a := Accrue(r, SWAP_TIME).value;
    var average := AverageStableRate(r.averageStableBorrowRate, 1, -2, u.stableBorrowRate);
    var target := a.(scaledVariableDebt := 2, totalVariableDebt := RayMul(2, RAY), principalStableDebt := -1,
                     totalStableDebt := -1, averageStableBorrowRate := average,
                     totalStableDebtLastUpdated := SWAP_TIME);
    RayMulIdentity(2);
    assert AfterSwap(FLAT, r, u, Stable, SWAP_TIME) == Close(FLAT, target);
    MinusOneCloses(target);
    CloseOnlyDerives(FLAT, target);
  }

  lemma MinusOneCloses(r: Reserve)
    requires r.totalStableDebt == -1 && r.totalVariableDebt == 2 && r.availableLiquidity == 9 && r.unbacked == 0
    ensures Close(FLAT, r).Success?
  {
    hide OverallBorrowRate, LiquidityRate, RayMul, RayDiv;
    RayDivRounds(1, 10);
    RoundsAtMost(RayDiv(1, 10), RAY, 10, RAY);
    RayDivAntitone(1, 10, 10);
    CurveDefined(0, 0, 0, RAY, RayDiv(1, 10));
    CurveDefined(FLAT_RATE, 0, 0, RAY, RayDiv(1, 10));
  }

  /** Two users borrow one unit each at the flat stable rate, two years apart; a year
      later the second has repaid. The reserve then counts one unit of stable debt, the
      first user owes two, and swapping them away leaves the reserve minus one. */
  lemma SwapGoesNegative() returns (story: seq<Entry>, n: Market, r: Reserve, after: Reserve)
    ensures Plays(FLAT, FreshMarket(FLAT, 3, 1), story, n) && |story| == 4 && |n.users| == 3
    ensures Reads(n.reserve, SWAP_TIME, r) && ValidAt(FLAT, r, SWAP_TIME)
    ensures r.totalStableDebt == 1 && UserStableDebt(n.users[0], SWAP_TIME) == 2
    ensures AfterSwap(FLAT, r, n.users[0], Stable, SWAP_TIME) == Success(after)
    ensures after.principalStableDebt == -1
  {
    hide Step, Allowed, Sane, Plays, Observe, ValidAt, AfterSwap, StableDebtBalance, TotalStableDebt;
    var start := FreshMarket(FLAT, 3, 1);
    var supply := Entry(1, 1, 2, FreshUser(), Deposit(10));
    var m1 := FirstSupply(start, supply);
    var loan := LoanOfOne(m1, 0, 1);
    BorrowOne(m1, 0, 1, 1, 10, 0);
    var m2 := Step(FLAT, m1, loan).value;
    RoundedGrowth();
    var second := LoanOfOne(m2, 1, SECOND_LOAN);
    BorrowOne(m2, 1, SECOND_LOAN, 1, 9, 1);
    var m3 := Step(FLAT, m2, second).value;
    var repay := Entry(SWAP_TIME, SWAP_TIME, 1, m3.users[1], Repay(MAX_UINT_AMOUNT, Stable, true));
    RepayOne(m3, 1, 8);
    n := Step(FLAT, m3, repay).value;
    story := FourLines(FLAT, start, supply, m1, loan, m2, second, m3, repay, n);
    SaneReserve(FLAT, n);
    LentReadBack(n.reserve, SWAP_TIME, 9, 1, SWAP_TIME);
    TotalStableGrows(1, FLAT_RATE, SWAP_TIME, SWAP_TIME, SWAP_TIME);
    r := Observe(n.reserve, SWAP_TIME).value;
    SwapLeavesMinusOne(r, n.users[0]);
    after := AfterSwap(FLAT, r, n.users[0], Stable, SWAP_TIME).value;
  }

  lemma FourLines(st: Strategy, m: Market, a: Entry, m1: Market, b: Entry, m2: Market, c: Entry, m3: Market,
                  d: Entry, m4: Market)
    returns (story: seq<Entry>)
    requires AllowedStep(st, m, a, m1) && AllowedStep(st, m1, b, m2) && AllowedStep(st, m2, c, m3)
    requires AllowedStep(st, m3, d, m4)
    ensures Plays(st, m, story, m4) && |story| == 4
  {
    hide AllowedStep;
    PlaysOn(st, m, [], m, a, m1);
    PlaysOn(st, m, [] + [a], m1, b, m2);
    PlaysOn(st, m, [] + [a] + [b], m2, c, m3);
    PlaysOn(st, m, [] + [a] + [b] + [c], m3, d, m4);
    story := [] + [a] + [b] + [c] + [d];
  }

  lemma FirstSupply(m: Market, e: Entry) returns (next: Market)
    requires m == FreshMarket(FLAT, 3, 1) && e == Entry(1, 1, 2, FreshUser(), Deposit(10))
    ensures AllowedStep(FLAT, m, e, next)
    ensures Sane(FLAT, next) && LentAt(next.reserve, 1, 10, 0) && |next.users| == 3
    ensures next.users[0] == FreshUser() && next.users[1] == FreshUser()
  {
    hide Observe, ReserveAfter, SupplyRateImplied, ValidAt, Step, TotalStableDebt, HTokenBalance, VariableDebtBalance,
         VariableIndexAt, LiquidityIndexAt, NormalizedDebt, RayMul, Allowed;
    FreshStandsAt(FLAT, 3, 1);
    PlainAllowed(FLAT, m, e, 0, 0, 0);
    LineAtOnce(FLAT, m, e, 0, 0, 0);
    ReadAtOnce(FLAT, m.reserve, 1, 0, 0, 0);
    LineFields(FLAT, m, e);
    StaysFlat(Observe(m.reserve, 1).value, e);
    next := Step(FLAT, m, e).value;
  }
}
