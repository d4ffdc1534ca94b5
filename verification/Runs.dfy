/** Whole runs: a story of transactions by many users against one reserve. */
module Runs {
  import opened WadRayMath
  import opened Failures
  import opened Rates
  import opened Reserves
  import opened Invariant
  import opened Transactions

  datatype Market = Market(reserve: Reserve, users: seq<User>)

  datatype Action =
    | Deposit(amount: int)
    | Withdraw(amount: int)
    | Borrow(amount: int, mode: RateMode)
    | Repay(amount: int, mode: RateMode, ownDebt: bool)
    | SwapRateMode(mode: RateMode)
    | MintUnbacked(amount: int)
    | BackUnbacked(scaledSupply: int, amount: int, fee: int, protocolFee: int)

  /** One line of a story: the reserve is read back at `now`, the user's record as
      `seen`, and the transaction is mined at `time`. */
  datatype Entry = Entry(now: int, time: int, user: nat, seen: User, action: Action)

  function ReserveAfter(st: Strategy, r: Reserve, e: Entry): Result<Reserve> {
    match e.action
    case Deposit(amount) => AfterDeposit(st, r, amount, e.time)
    case Withdraw(amount) => AfterWithdraw(st, r, e.seen, amount, e.time)
    case Borrow(amount, mode) => AfterBorrow(st, r, amount, mode, e.time)
    case Repay(amount, mode, ownDebt) => AfterRepay(st, r, e.seen, amount, mode, e.time)
    case SwapRateMode(mode) => AfterSwap(st, r, e.seen, mode, e.time)
    case MintUnbacked(amount) => AfterMintUnbacked(st, r, amount, e.time)
    case BackUnbacked(scaledSupply, amount, fee, protocolFee) =>
      AfterBackUnbacked(st, r, scaledSupply, amount, fee, protocolFee, e.time)
  }

  function UserAfter(r: Reserve, after: Reserve, e: Entry): Result<User> {
    match e.action
    case Deposit(amount) => UserAfterDeposit(r, after, e.seen, amount, e.time)
    case Withdraw(amount) => UserAfterWithdraw(r, after, e.seen, amount, e.time)
    case Borrow(amount, mode) => UserAfterBorrow(r, after, e.seen, amount, mode, e.time, e.time)
    case Repay(amount, mode, ownDebt) => UserAfterRepay(r, after, e.seen, amount, mode, ownDebt, e.time, e.time)
    case SwapRateMode(mode) => UserAfterSwap(r, after, e.seen, mode, e.time)
    case MintUnbacked(amount) => UserAfterMintUnbacked(r, after, e.seen, amount, e.time)
    case BackUnbacked(_, _, _, _) => Success(e.seen)
  }

  function Step(st: Strategy, m: Market, e: Entry): Result<Market> {
    if e.user >= |m.users| then Failure(UnknownUser) else
    var r :- Observe(m.reserve, e.now);
    var after :- ReserveAfter(st, r, e);
    var user :- UserAfter(r, after, e);
    Success(Market(after, m.users[e.user := user]))
  }

  function Run(st: Strategy, m: Market, story: seq<Entry>): Result<Market>
    decreases |story|
  {
    hide Step;
    if story == [] then Success(m)
    else
      var next :- Step(st, m, story[0]);
      Run(st, next, story[1..])
  }

  // ----- what the pool lets through -----

  ghost predicate Permitted(st: Strategy, r: Reserve, e: Entry) {
    match e.action
    case Deposit(amount) => 0 <= amount
    case Withdraw(amount) =>
      0 <= WithdrawnAmount(r, e.seen, amount, e.time) <= r.availableLiquidity
      && WithdrawnAmount(r, e.seen, amount, e.time) <= HTokenBalance(r, e.seen, e.time)
    case Borrow(amount, _) =>
      0 < amount <= r.availableLiquidity
    case Repay(amount, mode, _) =>
      0 <= RepaidAmount(r, e.seen, amount, mode, e.time)
      && (mode == Variable ==>
            RepaidAmount(r, e.seen, amount, mode, e.time) <= VariableDebtBalance(r, e.seen, e.time))
    case SwapRateMode(mode) =>
      if mode == Stable then
        StableTotalsCover(r.averageStableBorrowRate,
                          TotalStableDebt(r.principalStableDebt, r.averageStableBorrowRate,
                                          r.totalStableDebtLastUpdated, e.time),
                          UserStableDebt(e.seen, e.time), e.seen.stableBorrowRate)
      else
        0 < UserStableDebt(e.seen, e.time) + VariableDebtBalance(r, e.seen, e.time)
    case MintUnbacked(amount) => 0 <= amount
    case BackUnbacked(scaledSupply, amount, fee, protocolFee) =>
      CanBack(r, scaledSupply, amount, fee, protocolFee, e.time)
  }

  /** A line the pool lets through. The user's record is whatever the chain reports,
      with the stored supply balance and a debt that is part of the reserve's; a
      backing is computed over everything supplied. */
  ghost predicate Allowed(st: Strategy, m: Market, e: Entry) {
    && e.user < |m.users|
    && 0 < e.time && m.reserve.lastUpdateTimestamp <= e.now && m.reserve.lastUpdateTimestamp <= e.time
    && e.seen.scaledHTokenBalance == m.users[e.user].scaledHTokenBalance
    && 0 <= e.seen.scaledVariableDebt <= m.reserve.scaledVariableDebt
    && 0 <= UserStableDebt(e.seen, e.time)
    && (e.action.BackUnbacked? ==> e.action.scaledSupply == TotalScaledSupply(m.users))
    && forall r: Reserve | Reads(m.reserve, e.now, r) :: Permitted(st, r, e)
  }

  /** The line takes `m` to `next`. */
  ghost predicate Leads(st: Strategy, m: Market, e: Entry, next: Market) {
    Step(st, m, e) == Success(next)
  }

  ghost predicate AllowedStory(st: Strategy, m: Market, story: seq<Entry>)
    decreases |story|
  {
    story == []
    || (Allowed(st, m, story[0])
        && forall next: Market | Leads(st, m, story[0], next) :: AllowedStory(st, next, story[1..]))
  }

  /** A variable borrow's user owes all the variable debt there is. */
  ghost predicate SoleIfBorrowing(debt: int, e: Entry) {
    e.action.Borrow? && e.action.mode == Variable ==> e.seen.scaledVariableDebt == debt
  }

  /** A line whose user record also has the stored variable debt. */
  ghost predicate Faithful(m: Market, e: Entry) {
    && e.user < |m.users|
    && e.seen.scaledVariableDebt == m.users[e.user].scaledVariableDebt
    && SoleIfBorrowing(m.reserve.scaledVariableDebt, e)
  }

  ghost predicate FaithfulStory(st: Strategy, m: Market, story: seq<Entry>)
    decreases |story|
  {
    story == []
    || (Faithful(m, story[0])
        && forall next: Market | Leads(st, m, story[0], next) :: FaithfulStory(st, next, story[1..]))
  }

  // ----- sums over users -----

  function TotalScaledDebt(users: seq<User>): int {
    if users == [] then 0 else users[0].scaledVariableDebt + TotalScaledDebt(users[1..])
  }

  function TotalScaledSupply(users: seq<User>): int {
    if users == [] then 0 else users[0].scaledHTokenBalance + TotalScaledSupply(users[1..])
  }

  ghost predicate DebtsNonNegative(users: seq<User>) {
    forall k | 0 <= k < |users| :: 0 <= users[k].scaledVariableDebt
  }

  ghost predicate SuppliesNonNegative(users: seq<User>) {
    forall k | 0 <= k < |users| :: 0 <= users[k].scaledHTokenBalance
  }

  lemma {:induction false} TotalsAfterUpdate(users: seq<User>, i: nat, u: User)
    requires i < |users|
    ensures TotalScaledDebt(users[i := u])
         == TotalScaledDebt(users) - users[i].scaledVariableDebt + u.scaledVariableDebt
    ensures TotalScaledSupply(users[i := u])
         == TotalScaledSupply(users) - users[i].scaledHTokenBalance + u.scaledHTokenBalance
  {
    if i == 0 {
      assert users[i := u][1..] == users[1..];
    } else {
      TotalsAfterUpdate(users[1..], i - 1, u);
      assert users[i := u][1..] == users[1..][i - 1 := u];
    }
  }

  lemma {:induction false} SupplyNonNegative(users: seq<User>)
    requires SuppliesNonNegative(users)
    ensures 0 <= TotalScaledSupply(users)
  {
    if users != [] {
      assert forall k | 0 <= k < |users[1..]| :: users[1..][k] == users[k + 1];
      SupplyNonNegative(users[1..]);
    }
  }

  /** The reserve is valid, its usage ratios are shares, and nobody's supply is negative. */
  ghost predicate Sane(st: Strategy, m: Market) {
    Valid(st, m.reserve) && UsageBounded(m.reserve) && SuppliesNonNegative(m.users)
  }

  /** The reserve's scaled variable debt is the sum of its users'. */
  ghost predicate Balanced(m: Market) {
    DebtsNonNegative(m.users) && m.reserve.scaledVariableDebt == TotalScaledDebt(m.users)
  }

  // ----- one step -----

  lemma ReserveStepKeeps(st: Strategy, r: Reserve, e: Entry)
    requires ValidAt(st, r, e.now) && r.lastUpdateTimestamp <= e.time && 0 < e.time
    requires 0 <= e.seen.scaledVariableDebt <= r.scaledVariableDebt
    requires 0 <= UserStableDebt(e.seen, e.time)
    requires Permitted(st, r, e)
    ensures Keeps(st, r, ReserveAfter(st, r, e), e.time)
  {
    hide Keeps, AfterDeposit, AfterWithdraw, AfterBorrow, AfterRepay, AfterSwap, AfterMintUnbacked, AfterBackUnbacked,
         StableTotalsCover, CanBack, RepaidAmount, WithdrawnAmount, VariableDebtBalance, UserStableDebt, HTokenBalance,
         Observe, SupplyRateImplied, TotalStableDebt;
    match e.action
    case Deposit(amount) => DepositKeeps(st, r, e.now, amount, e.time);
    case Withdraw(amount) => WithdrawKeeps(st, r, e.now, e.seen, amount, e.time);
    case Borrow(amount, mode) => BorrowKeeps(st, r, e.now, amount, mode, e.time);
    case Repay(amount, mode, _) => RepayKeeps(st, r, e.now, e.seen, amount, mode, e.time);
    case SwapRateMode(mode) =>
      if mode == Stable {
        SwapToVariableKeepsIff(st, r, e.now, e.seen, e.time);
      } else {
        SwapToStableKeeps(st, r, e.now, e.seen, e.time);
      }
    case MintUnbacked(amount) => MintUnbackedKeeps(st, r, e.now, amount, e.time);
    case BackUnbacked(scaledSupply, amount, fee, protocolFee) =>
      BackUnbackedKeeps(st, r, e.now, scaledSupply, amount, fee, protocolFee, e.time);
  }

  /** Scaled variable debt and unbacked amount a transaction adds to the reserve. */
  ghost function ScaledDebtAdded(r: Reserve, e: Entry): int
    requires VariableIndexAt(r, e.time) != 0
  {
    var index := VariableIndexAt(r, e.time);
    match e.action
    case Borrow(amount, Variable) => RayDiv(amount, index)
    case Repay(amount, Variable, _) => -RayDiv(RepaidAmount(r, e.seen, amount, Variable, e.time), index)
    case SwapRateMode(Stable) => RayDiv(UserStableDebt(e.seen, e.time), index)
    case SwapRateMode(Variable) => -RayDiv(VariableDebtBalance(r, e.seen, e.time), index)
    case _ => 0
  }

  ghost function UnbackedAdded(r: Reserve, e: Entry): int {
    match e.action
    case MintUnbacked(amount) => amount
    case BackUnbacked(_, amount, _, _) => -BackingAmount(r, amount)
    case _ => 0
  }

  ghost function LiquidityAdded(r: Reserve, e: Entry): int {
    match e.action
    case Deposit(amount) => amount
    case Withdraw(amount) => -WithdrawnAmount(r, e.seen, amount, e.time)
    case Borrow(amount, _) => -amount
    case Repay(amount, mode, _) => RepaidAmount(r, e.seen, amount, mode, e.time)
    case BackUnbacked(_, amount, fee, _) => BackingAmount(r, amount) + fee
    case _ => 0
  }

  /** Transactions that rewrite the stable debt stamp it with their time. */
  predicate TouchesStable(action: Action) {
    || action.SwapRateMode?
    || (action.Borrow? && action.mode == Stable)
    || (action.Repay? && action.mode == Stable)
  }

  /** Stable debt as accrued by the time of the transaction. */
  ghost function StableAccrued(r: Reserve, time: int): int {
    TotalStableDebt(r.principalStableDebt, r.averageStableBorrowRate, r.totalStableDebtLastUpdated, time)
  }

  ghost function StableAdded(r: Reserve, e: Entry): int {
    match e.action
    case Borrow(amount, Stable) => amount
    case Repay(amount, Stable, _) =>
      StableAfterRepay(r.averageStableBorrowRate, StableAccrued(r, e.time),
                       RepaidAmount(r, e.seen, amount, Stable, e.time),
                       e.seen.stableBorrowRate).0 - StableAccrued(r, e.time)
    case SwapRateMode(Stable) => -UserStableDebt(e.seen, e.time)
    case SwapRateMode(Variable) => VariableDebtBalance(r, e.seen, e.time)
    case _ => 0
  }

  /** Average stable rate that a rewritten stable debt is left with. */
  ghost function AverageLeft(r: Reserve, e: Entry): int {
    match e.action
    case Borrow(amount, Stable) =>
      AverageStableRate(r.averageStableBorrowRate, StableAccrued(r, e.time), amount, r.stableBorrowRate)
    case Repay(amount, Stable, _) =>
      StableAfterRepay(r.averageStableBorrowRate, StableAccrued(r, e.time),
                       RepaidAmount(r, e.seen, amount, Stable, e.time),
                       e.seen.stableBorrowRate).1
    case SwapRateMode(Stable) =>
      AverageStableRate(r.averageStableBorrowRate, StableAccrued(r, e.time), -UserStableDebt(e.seen, e.time),
                        e.seen.stableBorrowRate)
    case SwapRateMode(Variable) =>
      AverageStableRate(r.averageStableBorrowRate, r.totalStableDebt, VariableDebtBalance(r, e.seen, e.time),
                        r.stableBorrowRate)
    case MintUnbacked(_) => AverageStableRate(r.averageStableBorrowRate, r.totalStableDebt, 0, r.stableBorrowRate)
    case BackUnbacked(_, _, _, _) =>
      AverageStableRate(r.averageStableBorrowRate, r.totalStableDebt, 0, r.stableBorrowRate)
    case _ => r.averageStableBorrowRate
  }

  /** Every reserve field a transaction touches moves by the transaction's own amount. */
  lemma ReserveAfterCarries(st: Strategy, r: Reserve, e: Entry)
    requires ReserveAfter(st, r, e).Success? && VariableIndexAt(r, e.time) != 0
    ensures var n := ReserveAfter(st, r, e).value;
            && n.variableBorrowIndex == VariableIndexAt(r, e.time)
            && (!e.action.BackUnbacked? ==>
                  n.liquidityIndex == LiquidityIndexAt(r, e.time)
                  && Accrue(r, e.time).Success?
                  && n.accruedToTreasuryScaled == Accrue(r, e.time).value.accruedToTreasuryScaled)
            && n.availableLiquidity == r.availableLiquidity + LiquidityAdded(r, e)
            && n.scaledVariableDebt == r.scaledVariableDebt + ScaledDebtAdded(r, e)
            && n.unbacked == r.unbacked + UnbackedAdded(r, e)
  {
    hide Accrue, Close, RayMul, RayDiv, VariableIndexAt, LiquidityIndexAt, TotalStableDebt, AverageStableRate,
         PercentMul, CumulatedIndex, UserStableDebt, VariableDebtBalance, RepaidAmount, WithdrawnAmount,
         StableAfterRepay;
    AccrueCarries(r, e.time);
    forall c: Reserve | Close(st, c).Success?
      ensures Close(st, c).value.scaledVariableDebt == c.scaledVariableDebt
      ensures Close(st, c).value.variableBorrowIndex == c.variableBorrowIndex
      ensures Close(st, c).value.liquidityIndex == c.liquidityIndex
      ensures Close(st, c).value.unbacked == c.unbacked
      ensures Close(st, c).value.availableLiquidity == c.availableLiquidity
      ensures Close(st, c).value.accruedToTreasuryScaled == c.accruedToTreasuryScaled
    {
      CloseOnlyDerives(st, c);
    }
  }

  /** Likewise its stable side and the two timestamps. */
  lemma StableSideAfter(st: Strategy, r: Reserve, e: Entry)
    requires ReserveAfter(st, r, e).Success?
    ensures var n := ReserveAfter(st, r, e).value;
            && n.lastUpdateTimestamp == e.time
            && n.totalStableDebt == StableAccrued(r, e.time) + StableAdded(r, e)
            && n.averageStableBorrowRate == AverageLeft(r, e)
            && (if TouchesStable(e.action) then
                  n.totalStableDebtLastUpdated == e.time && n.principalStableDebt == n.totalStableDebt
                else
                  && n.totalStableDebtLastUpdated == r.totalStableDebtLastUpdated
                  && n.principalStableDebt == r.principalStableDebt)
  {
    hide Accrue, Close, RayMul, RayDiv, VariableIndexAt, LiquidityIndexAt, TotalStableDebt, AverageStableRate,
         PercentMul, CumulatedIndex, UserStableDebt, VariableDebtBalance, RepaidAmount, WithdrawnAmount,
         StableAfterRepay;
    AccrueCarries(r, e.time);
    forall c: Reserve | Close(st, c).Success?
      ensures Close(st, c).value.lastUpdateTimestamp == c.lastUpdateTimestamp
      ensures Close(st, c).value.totalStableDebt == c.totalStableDebt
      ensures Close(st, c).value.averageStableBorrowRate == c.averageStableBorrowRate
      ensures Close(st, c).value.totalStableDebtLastUpdated == c.totalStableDebtLastUpdated
      ensures Close(st, c).value.principalStableDebt == c.principalStableDebt
    {
      CloseOnlyDerives(st, c);
    }
  }

  /** The user's debt moves by exactly what the reserve's did, and no balance turns negative. */
  lemma UserStepMatches(st: Strategy, r: Reserve, after: Reserve, e: Entry)
    requires ValidAt(st, r, e.now) && r.lastUpdateTimestamp <= e.time
    requires 0 <= e.seen.scaledVariableDebt <= r.scaledVariableDebt && 0 <= e.seen.scaledHTokenBalance
    requires 0 <= UserStableDebt(e.seen, e.time)
    requires Permitted(st, r, e)
    requires VariableIndexAt(r, e.time) != 0
    requires after.variableBorrowIndex == VariableIndexAt(r, e.time)
    requires !e.action.BackUnbacked? ==> after.liquidityIndex == LiquidityIndexAt(r, e.time)
    ensures UserAfter(r, after, e).Success?
    ensures var u := UserAfter(r, after, e).value;
            && 0 <= u.scaledHTokenBalance
            && (SoleIfBorrowing(r.scaledVariableDebt, e) ==>
                  0 <= u.scaledVariableDebt == e.seen.scaledVariableDebt + ScaledDebtAdded(r, e))
  {
    IndexGuardsAgree(st, r, e.now, e.time, e.seen.scaledVariableDebt);
    IncomeGuardsAgree(st, r, e.now, e.time);
    hide RayMul, RayDiv, VariableIndexAt, LiquidityIndexAt, TotalStableDebt, NormalizedDebt, NormalizedIncome, Observe,
         StableDebtBalance, SupplyRateImplied;
    var index := after.variableBorrowIndex;
    match e.action
    case Deposit(amount) =>
      RayDivZero(after.liquidityIndex);
      RayDivRounds(amount, after.liquidityIndex);
    case MintUnbacked(amount) =>
      RayDivZero(after.liquidityIndex);
      RayDivRounds(amount, after.liquidityIndex);
    case Withdraw(amount) =>
      RayDivZero(after.liquidityIndex);
      var withdrawn := WithdrawnAmount(r, e.seen, amount, e.time);
      FullExit(e.seen.scaledHTokenBalance, after.liquidityIndex);
      RayDivMonotone(withdrawn, HTokenBalance(r, e.seen, e.time), after.liquidityIndex);
    case Borrow(amount, mode) =>
      RayDivRounds(amount, index);
    case Repay(amount, mode, _) =>
      if mode == Variable {
        BurnedWithinDebt(st, r, e.now, e.seen, RepaidAmount(r, e.seen, amount, mode, e.time), e.time);
      }
    case SwapRateMode(mode) =>
      if mode == Stable {
        RayDivRounds(UserStableDebt(e.seen, e.time), index);
      } else {
        RayMulMonotone(0, 0, e.seen.scaledVariableDebt, index);
        BurnedWithinDebt(st, r, e.now, e.seen, VariableDebtBalance(r, e.seen, e.time), e.time);
      }
    case _ =>
  }

  /** The record a permitted line starts from. */
  lemma ReadPermits(st: Strategy, m: Market, e: Entry)
    requires Sane(st, m) && Allowed(st, m, e)
    ensures Observe(m.reserve, e.now).Success?
    ensures var r := Observe(m.reserve, e.now).value;
            && Reads(m.reserve, e.now, r) && ValidAt(st, r, e.now) && Permitted(st, r, e)
            && r.lastUpdateTimestamp == m.reserve.lastUpdateTimestamp
  {
    hide Observe, Permitted, SupplyRateImplied, SeenAt, UserStableDebt;
    ObserveKeepsValid(st, m.reserve, e.now);
    ObserveCarries(m.reserve, e.now);
    assert Reads(m.reserve, e.now, Observe(m.reserve, e.now).value);
  }

  lemma StepKeeps(st: Strategy, m: Market, e: Entry)
    requires Sane(st, m) && Allowed(st, m, e)
    ensures Step(st, m, e).Success? && Leads(st, m, e, Step(st, m, e).value) && Sane(st, Step(st, m, e).value)
    ensures |Step(st, m, e).value.users| == |m.users|
    ensures Advances(m.reserve, Step(st, m, e).value.reserve, e.time)
    ensures Step(st, m, e).value.reserve.unbacked == m.reserve.unbacked + UnbackedAdded(m.reserve, e)
    ensures Balanced(m) && Faithful(m, e) ==> Balanced(Step(st, m, e).value)
  {
    ReadPermits(st, m, e);
    ObserveCarries(m.reserve, e.now);
    hide Observe, Reads, Permitted, ReserveAfter, UserAfter, SupplyRateImplied, ScaledDebtAdded, UserStableDebt,
         VariableIndexAt, LiquidityIndexAt, SoleIfBorrowing;
    var r := Observe(m.reserve, e.now).value;
    IndexGuardsAgree(st, r, e.now, e.time, 0);
    ReserveStepKeeps(st, r, e);
    ReserveAfterCarries(st, r, e);
    UserStepMatches(st, r, ReserveAfter(st, r, e).value, e);
    UsageStaysBounded(st, ReserveAfter(st, r, e).value, e.time);
    TotalsAfterUpdate(m.users, e.user, UserAfter(r, ReserveAfter(st, r, e).value, e).value);
  }

  lemma ObserveCarries(r: Reserve, time: int)
    requires Observe(r, time).Success?
    ensures var o := Observe(r, time).value;
            && o.scaledVariableDebt == r.scaledVariableDebt && o.unbacked == r.unbacked
            && o.liquidityIndex == r.liquidityIndex && o.variableBorrowIndex == r.variableBorrowIndex
            && o.accruedToTreasuryScaled == r.accruedToTreasuryScaled
            && o.lastUpdateTimestamp == r.lastUpdateTimestamp
            && o.availableLiquidity == r.availableLiquidity
            && o.principalStableDebt == r.principalStableDebt
            && o.totalStableDebtLastUpdated == r.totalStableDebtLastUpdated
            && o.averageStableBorrowRate == r.averageStableBorrowRate
            && o.liquidityRate == r.liquidityRate && o.variableBorrowRate == r.variableBorrowRate
            && o.reserveFactor == r.reserveFactor
  {
    hide UsageRatios, RayMul, TotalStableDebt, NormalizedDebt;
  }

  // ----- whole runs -----

  ghost function TotalMinted(story: seq<Entry>): int {
    if story == [] then 0
    else (if story[0].action.MintUnbacked? then story[0].action.amount else 0) + TotalMinted(story[1..])
  }

  ghost function TotalBacked(st: Strategy, m: Market, story: seq<Entry>): int
    decreases |story|
  {
    hide Step;
    if story == [] || Step(st, m, story[0]).Failure? then 0
    else
      (if story[0].action.BackUnbacked? then BackingAmount(m.reserve, story[0].action.amount) else 0)
      + TotalBacked(st, Step(st, m, story[0]).value, story[1..])
  }

  ghost predicate AllowedStep(st: Strategy, m: Market, e: Entry, next: Market) {
    Allowed(st, m, e) && Leads(st, m, e, next)
  }

  /** The story is allowed line by line and takes `m` to `n`. */
  ghost predicate Plays(st: Strategy, m: Market, story: seq<Entry>, n: Market)
    decreases |story|
  {
    if story == [] then m == n
    else exists next: Market :: AllowedStep(st, m, story[0], next) && Plays(st, next, story[1..], n)
  }

  /** A story that plays is a permitted story, and the run has its outcome. */
  lemma {:induction false} PlaysAsRun(st: Strategy, m: Market, story: seq<Entry>, n: Market)
    requires Plays(st, m, story, n)
    ensures AllowedStory(st, m, story) && Run(st, m, story) == Success(n)
    decreases |story|
  {
    hide Step, Allowed;
    if story != [] {
      var next: Market :| AllowedStep(st, m, story[0], next) && Plays(st, next, story[1..], n);
      PlaysAsRun(st, next, story[1..], n);
    }
  }

  lemma {:induction false} PlaysOn(st: Strategy, m: Market, story: seq<Entry>, n: Market, e: Entry, next: Market)
    requires Plays(st, m, story, n) && AllowedStep(st, n, e, next)
    ensures Plays(st, m, story + [e], next)
    decreases |story|
  {
    hide AllowedStep;
    if story == [] {
      assert (story + [e])[0] == e && (story + [e])[1..] == [];
      assert Plays(st, next, [], next);
    } else {
      var second: Market :| AllowedStep(st, m, story[0], second) && Plays(st, second, story[1..], n);
      PlaysOn(st, second, story[1..], n, e, next);
      assert (story + [e])[1..] == story[1..] + [e];
    }
  }

  /** Over every permitted story: nothing throws; the reserve stays valid; its usage
      ratios stay between 0 and a ray; no index and no treasury balance ever falls;
      and what is unbacked is what was unbacked and minted less what was backed,
      never negative. */
  lemma {:induction false} RunKeepsBooks(st: Strategy, m: Market, story: seq<Entry>)
    requires Sane(st, m) && AllowedStory(st, m, story)
    ensures Run(st, m, story).Success?
    ensures var n := Run(st, m, story).value;
            && Sane(st, n) && |n.users| == |m.users|
            && 0 <= n.reserve.supplyUsageRatio <= n.reserve.borrowUsageRatio <= RAY
            && m.reserve.liquidityIndex <= n.reserve.liquidityIndex
            && m.reserve.variableBorrowIndex <= n.reserve.variableBorrowIndex
            && m.reserve.accruedToTreasuryScaled <= n.reserve.accruedToTreasuryScaled
            && 0 <= n.reserve.unbacked
            && n.reserve.unbacked == m.reserve.unbacked + TotalMinted(story) - TotalBacked(st, m, story)
    decreases |story|
  {
    hide Step, Allowed, Balanced, Faithful;
    if story != [] {
      hide Sane;
      StepKeeps(st, m, story[0]);
      RunKeepsBooks(st, Step(st, m, story[0]).value, story[1..]);
    } else {
      hide SupplyRateImplied;
    }
  }

  /** Over every permitted story whose records are faithful, the reserve's scaled
      variable debt stays the sum of its users'. */
  lemma {:induction false} RunConservesDebt(st: Strategy, m: Market, story: seq<Entry>)
    requires Sane(st, m) && Balanced(m)
    requires AllowedStory(st, m, story) && FaithfulStory(st, m, story)
    ensures Run(st, m, story).Success? && Balanced(Run(st, m, story).value)
    decreases |story|
  {
    hide Step, Allowed, Balanced, Faithful, Sane;
    if story != [] {
      StepKeeps(st, m, story[0]);
      RunConservesDebt(st, Step(st, m, story[0]).value, story[1..]);
    }
  }

  // ----- where runs start -----

  function FreshUser(): User {
    User(0, 0, 0, 0, 0, 0, 0, 0, 0, true, 0)
  }

  /** A market nobody has used yet. */
  function FreshMarket(st: Strategy, count: nat, time: int): Market {
    Market(FreshReserve(st, time), seq(count, _ => FreshUser()))
  }

  lemma {:induction false} NothingOwedOrSupplied(users: seq<User>)
    requires forall k | 0 <= k < |users| :: users[k].scaledVariableDebt == users[k].scaledHTokenBalance == 0
    ensures TotalScaledDebt(users) == TotalScaledSupply(users) == 0
  {
    if users != [] {
      assert forall k | 0 <= k < |users[1..]| :: users[1..][k] == users[k + 1];
      NothingOwedOrSupplied(users[1..]);
    }
  }

  /** An unused market meets everything the results about runs ask of a start, and
      any of its users may deposit any amount at any later time. */
  lemma FreshMarketStarts(st: Strategy, count: nat, start: int, user: nat, amount: int, now: int, time: int)
    requires st.Valid() && 0 <= start <= now && start <= time && 0 < time && user < count && 0 <= amount
    ensures var m := FreshMarket(st, count, start);
            var e := Entry(now, time, user, m.users[user], Deposit(amount));
            && Sane(st, m) && Balanced(m) && TotalScaledSupply(m.users) == 0
            && AllowedStory(st, m, [e]) && FaithfulStory(st, m, [e])
  {
    var m := FreshMarket(st, count, start);
    FreshReserveIsValid(st, start);
    NothingOwedOrSupplied(m.users);
    hide ValidAt, SupplyRateImplied, Observe, Step;
    ValidNow(st, m.reserve, start);
    ObserveKeepsValid(st, m.reserve, now);
    var e := Entry(now, time, user, m.users[user], Deposit(amount));
    assert UserStableDebt(e.seen, time) == 0;
    assert Allowed(st, m, e);
    assert [e][1..] == [];
  }

  lemma ValidNow(st: Strategy, r: Reserve, time: int)
    requires ValidAt(st, r, time)
    ensures Valid(st, r)
  {
    hide SupplyRateImplied, Observe;
  }

  // ----- the borrow branch that starts from the reserve's total -----

  /** A variable borrow keeps the books balanced exactly when its user already owed
      all the variable debt there was. */
  lemma BorrowBalancedIffSole(st: Strategy, r: Reserve, users: seq<User>, i: nat, after: Reserve, u: User,
                              amount: int, time: int)
    requires i < |users| && r.scaledVariableDebt == TotalScaledDebt(users)
    requires AfterBorrow(st, r, amount, Variable, time) == Success(after)
    requires VariableIndexAt(r, time) != 0
    requires UserAfterBorrow(r, after, users[i], amount, Variable, time, time) == Success(u)
    ensures after.scaledVariableDebt == TotalScaledDebt(users[i := u])
        <==> users[i].scaledVariableDebt == r.scaledVariableDebt
  {
    var e := Entry(time, time, i, users[i], Borrow(amount, Variable));
    hide Accrue, Close, RayMul, RayDiv, VariableIndexAt, LiquidityIndexAt, UserStableDebt, VariableDebtBalance,
         HTokenBalance;
    ReserveAfterCarries(st, r, e);
    TotalsAfterUpdate(users, i, u);
  }

  // ----- full exits -----

  /** Withdrawing everything leaves exactly nothing. */
  lemma MaxWithdrawIsExact(st: Strategy, r: Reserve, e: Entry)
    requires ValidAt(st, r, e.now) && r.lastUpdateTimestamp <= e.time && 0 <= e.seen.scaledHTokenBalance
    requires e.action == Withdraw(MAX_UINT_AMOUNT)
    requires AfterWithdraw(st, r, e.seen, MAX_UINT_AMOUNT, e.time).Success?
    ensures var after := AfterWithdraw(st, r, e.seen, MAX_UINT_AMOUNT, e.time).value;
            var left := UserAfterWithdraw(r, after, e.seen, MAX_UINT_AMOUNT, e.time);
            left.Success? && left.value.scaledHTokenBalance == 0 && left.value.currentHTokenBalance == 0
  {
    IncomeGuardsAgree(st, r, e.now, e.time);
    IndexGuardsAgree(st, r, e.now, e.time, 0);
    ReserveAfterCarries(st, r, e);
    hide AfterWithdraw, RayMul, RayDiv, LiquidityIndexAt, VariableIndexAt, NormalizedIncome, Observe, SupplyRateImplied,
         UserStableDebt, VariableDebtBalance;
    var index := LiquidityIndexAt(r, e.time);
    RayDivZero(index);
    FullExit(e.seen.scaledHTokenBalance, index);
  }

  /** Repaying everything leaves exactly nothing. */
  lemma MaxRepayIsExact(st: Strategy, r: Reserve, e: Entry, ownDebt: bool)
    requires ValidAt(st, r, e.now) && r.lastUpdateTimestamp <= e.time
    requires 0 <= e.seen.scaledVariableDebt <= r.scaledVariableDebt
    requires e.action == Repay(MAX_UINT_AMOUNT, Variable, ownDebt)
    requires AfterRepay(st, r, e.seen, MAX_UINT_AMOUNT, Variable, e.time).Success?
    ensures var after := AfterRepay(st, r, e.seen, MAX_UINT_AMOUNT, Variable, e.time).value;
            var left := UserAfterRepay(r, after, e.seen, MAX_UINT_AMOUNT, Variable, ownDebt, e.time, e.time);
            && left.Success? && left.value.scaledVariableDebt == 0 && left.value.currentVariableDebt == 0
            && after.scaledVariableDebt == r.scaledVariableDebt - e.seen.scaledVariableDebt
  {
    IndexGuardsAgree(st, r, e.now, e.time, e.seen.scaledVariableDebt);
    ReserveAfterCarries(st, r, e);
    hide AfterRepay, RayMul, RayDiv, LiquidityIndexAt, VariableIndexAt, NormalizedDebt, Observe, SupplyRateImplied,
         UserStableDebt, HTokenBalance;
    RayMulIdentity(VariableIndexAt(r, e.time));
    RayMulMonotone(0, 0, e.seen.scaledVariableDebt, VariableIndexAt(r, e.time));
    BurnedWithinDebt(st, r, e.now, e.seen, VariableDebtBalance(r, e.seen, e.time), e.time);
  }

  /** Read back later, a full repayment is resolved to the later debt but burned at the
      transaction's index. It leaves exactly nothing when the interest since then still
      rounds away at that index, and a negative scaled debt otherwise. */
  lemma LateMaxRepayIsExactIff(st: Strategy, r: Reserve, e: Entry, ownDebt: bool, current: int)
    requires ValidAt(st, r, e.now) && r.lastUpdateTimestamp <= e.time <= current
    requires 0 <= e.seen.scaledVariableDebt <= r.scaledVariableDebt
    requires e.action == Repay(MAX_UINT_AMOUNT, Variable, ownDebt)
    requires AfterRepay(st, r, e.seen, MAX_UINT_AMOUNT, Variable, e.time).Success?
    ensures var after := AfterRepay(st, r, e.seen, MAX_UINT_AMOUNT, Variable, e.time).value;
            var left := UserAfterRepay(r, after, e.seen, MAX_UINT_AMOUNT, Variable, ownDebt, e.time, current);
            && left.Success? && left.value.scaledVariableDebt <= 0
            && (left.value.scaledVariableDebt == 0 <==>
                  2 * RAY * VariableDebtBalance(r, e.seen, current)
                  < (2 * e.seen.scaledVariableDebt + 1) * VariableIndexAt(r, e.time))
  {
    IndexGuardsAgree(st, r, e.now, e.time, e.seen.scaledVariableDebt);
    ReserveAfterCarries(st, r, e);
    DebtGrowsLater(st, r, e, current);
    hide AfterRepay, RayMul, RayDiv, LiquidityIndexAt, VariableIndexAt, NormalizedDebt, Observe, SupplyRateImplied,
         UserStableDebt, HTokenBalance, VariableDebtBalance, Rounds;
    BurnedLater(e.seen.scaledVariableDebt, VariableIndexAt(r, e.time), VariableDebtBalance(r, e.seen, e.time),
                VariableDebtBalance(r, e.seen, current));
  }

  lemma DebtGrowsLater(st: Strategy, r: Reserve, e: Entry, current: int)
    requires ValidAt(st, r, e.now) && r.lastUpdateTimestamp <= e.time <= current
    requires 0 <= e.seen.scaledVariableDebt <= r.scaledVariableDebt
    ensures VariableDebtBalance(r, e.seen, e.time) == RayMul(e.seen.scaledVariableDebt, VariableIndexAt(r, e.time))
    ensures VariableDebtBalance(r, e.seen, e.time) <= VariableDebtBalance(r, e.seen, current)
    ensures RAY <= VariableIndexAt(r, e.time)
  {
    hide SupplyRateImplied, Observe, RayMul, NormalizedDebt, VariableIndexAt;
    IndexGuardsAgree(st, r, e.now, e.time, e.seen.scaledVariableDebt);
    var rate, index, last := r.variableBorrowRate, r.variableBorrowIndex, r.lastUpdateTimestamp;
    NormalizedDebtGrows(rate, index, last, e.time, current);
    RayMulMonotone(e.seen.scaledVariableDebt, NormalizedDebt(rate, index, last, e.time),
                   e.seen.scaledVariableDebt, NormalizedDebt(rate, index, last, current));
  }

  lemma BurnedLater(scaled: int, index: int, debt: int, later: int)
    requires 0 <= scaled && RAY <= index && debt == RayMul(scaled, index) && debt <= later
    ensures scaled <= RayDiv(later, index)
    ensures RayDiv(later, index) == scaled <==> 2 * RAY * later < (2 * scaled + 1) * index
  {
    hide RayMul, RayDiv;
    RayMulMonotone(0, 0, scaled, index);
    FullExit(scaled, index);
    RayDivMonotone(debt, later, index);
    RayDivRounds(debt, index);
    RayDivRounds(later, index);
    var burned := RayDiv(later, index);
    if 2 * RAY * later < (2 * scaled + 1) * index {
      assert Rounds(scaled, later * RAY, index);
      RoundsUnique(burned, scaled, later * RAY, index);
    }
  }

  // ----- the two balances a user record carries -----

  /** After a deposit or withdrawal the current balance the record predicts is what its
      scaled balance is worth at the new index, to within 1 + index / (2 RAY). */
  lemma CurrentBalanceTracksScaled(st: Strategy, r: Reserve, after: Reserve, e: Entry)
    requires ValidAt(st, r, e.now) && r.lastUpdateTimestamp <= e.time && 0 <= e.seen.scaledHTokenBalance
    requires (e.action.Deposit? || e.action.Withdraw?) && Permitted(st, r, e)
    requires after.liquidityIndex == LiquidityIndexAt(r, e.time)
    ensures UserAfter(r, after, e).Success?
    ensures var u, index := UserAfter(r, after, e).value, after.liquidityIndex;
            -(2 * RAY + index) <= 2 * RAY * (u.currentHTokenBalance - RayMul(u.scaledHTokenBalance, index))
                               <= 2 * RAY + index
  {
    IncomeGuardsAgree(st, r, e.now, e.time);
    hide RayMul, RayDiv, LiquidityIndexAt, NormalizedIncome, Observe, SupplyRateImplied, UserStableDebt,
         VariableDebtBalance;
    var scaled, index := e.seen.scaledHTokenBalance, after.liquidityIndex;
    RayDivZero(index);
    match e.action
    case Deposit(amount) => MovedShares(scaled, amount, index);
    case Withdraw(amount) =>
      var withdrawn := WithdrawnAmount(r, e.seen, amount, e.time);
      FullExit(scaled, index);
      RayDivMonotone(withdrawn, HTokenBalance(r, e.seen, e.time), index);
      MovedShares(scaled, withdrawn, index);
    case _ =>
  }
}
