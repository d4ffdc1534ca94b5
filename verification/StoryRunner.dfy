/** The story runner: actions dispatched one after another onto a mutable market. */
module StoryRunner {
  import opened Failures
  import opened Rates
  import opened Reserves
  import opened Invariant
  import opened Transactions
  import opened Runs
  import opened ReserveRecords
  import opened UserRecords

  /** `actual` with the timestamps the chain gives it. */
  function Stamped(actual: Reserve, before: Reserve, e: Entry): Reserve {
    actual.(lastUpdateTimestamp := e.time,
            totalStableDebtLastUpdated := if TouchesStable(e.action) then e.time else before.totalStableDebtLastUpdated)
  }

  class Scenario {
    var reserve: Reserve
    var users: seq<User>

    function Value(): Market
      reads this
    {
      Market(reserve, users)
    }

    constructor (market: Market)
      ensures Value() == market
    {
      reserve, users := market.reserve, market.users;
    }

    /** The reserve's expected record for one action, from the record read back before it. */
    method ExpectedReserve(st: Strategy, r: Reserve, e: Entry) returns (after: Reserve)
      requires ValidAt(st, r, e.now) && r.lastUpdateTimestamp <= e.time && 0 < e.time
      requires Keeps(st, r, ReserveAfter(st, r, e), e.time)
      requires Permitted(st, r, e)
      ensures ReserveAfter(st, r, e) == Success(after)
    {
      hide ValidAt, AfterDeposit, AfterWithdraw, AfterBorrow, AfterRepay, AfterSwap, AfterMintUnbacked,
           AfterBackUnbacked, RepaidAmount, WithdrawnAmount, HTokenBalance, VariableDebtBalance, UserStableDebt,
           CanBack, StableTotalsCover, Observe;
      ValidLiquidity(st, r, e.now);
      StableSideAfter(st, r, e);
      ReadBackAtOnce(st, ReserveAfter(st, r, e).value, e.time);
      var result: Result<ReserveData>;
      match e.action {
        case Deposit(amount) => result := CalcAfterDeposit(st, r, amount, e.time);
        case Withdraw(amount) => result := CalcAfterWithdraw(st, r, e.seen, amount, e.time);
        case Borrow(amount, mode) => result := CalcAfterBorrow(st, r, amount, mode, e.time, e.time, e.now);
        case Repay(amount, mode, _) => result := CalcAfterRepay(st, r, e.seen, amount, mode, e.time, e.now);
        case SwapRateMode(mode) => result := CalcAfterSwapRateMode(st, r, e.seen, mode, e.time, e.now);
        case MintUnbacked(amount) => result := CalcAfterMintUnbacked(st, r, amount, e.time);
        case BackUnbacked(scaledSupply, amount, fee, protocolFee) =>
          result := CalcAfterBackUnbacked(st, r, scaledSupply, amount, fee, protocolFee, e.time);
      }
      assert result.Success? && Matches(result.value.Value(), ReserveAfter(st, r, e));
      after := Stamped(result.value.Value(), r, e);
    }

    /** The user's expected record for one action. */
    method ExpectedUser(r: Reserve, after: Reserve, e: Entry) returns (u: User)
      requires UserAfter(r, after, e).Success?
      ensures UserAfter(r, after, e) == Success(u)
    {
      hide HTokenBalance, ScaledAfter, UserAfterDeposit, UserAfterWithdraw, UserAfterBorrow, UserAfterRepay,
           UserAfterSwap;
      var record := new UserReserveData.From(e.seen);
      var result: Result<UserReserveData> := Success(record);
      match e.action {
        case Deposit(amount) => result := CalcUserAfterDeposit(r, after, e.seen, amount, e.time);
        case Withdraw(amount) => result := CalcUserAfterWithdraw(r, after, e.seen, amount, e.time);
        case Borrow(amount, mode) => result := CalcUserAfterBorrow(r, after, e.seen, amount, mode, e.time, e.time);
        case Repay(amount, mode, ownDebt) =>
          result := CalcUserAfterRepay(r, after, e.seen, amount, mode, ownDebt, e.time, e.time);
        case SwapRateMode(mode) => result := CalcUserAfterSwapRateMode(r, after, e.seen, mode, e.time);
        case MintUnbacked(amount) =>
          var scaled := ScaledAfter(e.seen, after.liquidityIndex, amount, 0);
          record.scaledHTokenBalance := scaled.value;
          record.currentHTokenBalance := HTokenBalance(r, e.seen, e.time) + amount;
        case _ =>
      }
      u := result.value.Value();
    }

    method ExecuteAction(st: Strategy, e: Entry)
      requires Sane(st, Value()) && Allowed(st, Value(), e)
      modifies this
      ensures Step(st, old(Value()), e) == Success(Value())
    {
      hide ReserveAfter, UserAfter, Permitted, Observe, SupplyRateImplied, UserStableDebt, ValidAt, Keeps;
      ReadyToExecute(st, Value(), e);
      var r := Observe(reserve, e.now).value;
      var after := ExpectedReserve(st, r, e);
      var user := ExpectedUser(r, after, e);
      reserve := after;
      users := users[e.user := user];
    }

    method ExecuteStory(st: Strategy, story: seq<Entry>)
      requires Sane(st, Value()) && AllowedStory(st, Value(), story)
      modifies this
      ensures Run(st, old(Value()), story) == Success(Value())
    {
      hide Step, Sane, Allowed, Balanced, Faithful;
      for i := 0 to |story|
        invariant Sane(st, Value()) && AllowedStory(st, Value(), story[i..])
        invariant Run(st, old(Value()), story) == Run(st, Value(), story[i..])
      {
        assert story[i..][0] == story[i] && story[i..][1..] == story[i + 1..];
        StepKeeps(st, Value(), story[i]);
        ExecuteAction(st, story[i]);
      }
    }
  }

  lemma ValidLiquidity(st: Strategy, r: Reserve, seen: int)
    requires ValidAt(st, r, seen)
    ensures 0 <= r.availableLiquidity
  {
    hide SupplyRateImplied, Observe;
  }

  lemma ReadBackAtOnce(st: Strategy, r: Reserve, time: int)
    requires ValidAt(st, r, time)
    ensures Observe(r, time) == Success(r)
  {
    hide SupplyRateImplied, Observe;
    SeenIff(r, time);
  }

  /** Everything the two expected records need, for a line the pool lets through. */
  lemma ReadyToExecute(st: Strategy, m: Market, e: Entry)
    requires Sane(st, m) && Allowed(st, m, e)
    ensures Observe(m.reserve, e.now).Success?
    ensures var r := Observe(m.reserve, e.now).value;
            && Permitted(st, r, e) && ValidAt(st, r, e.now) && r.lastUpdateTimestamp <= e.time
            && Keeps(st, r, ReserveAfter(st, r, e), e.time)
            && UserAfter(r, ReserveAfter(st, r, e).value, e).Success?
  {
    hide ReserveAfter, UserAfter, Permitted, Observe, Reads, SupplyRateImplied, UserStableDebt, VariableIndexAt,
         LiquidityIndexAt, ScaledDebtAdded, SoleIfBorrowing;
    ReadPermits(st, m, e);
    ObserveCarries(m.reserve, e.now);
    var r := Observe(m.reserve, e.now).value;
    IndexGuardsAgree(st, r, e.now, e.time, 0);
    ReserveStepKeeps(st, r, e);
    ReserveAfterCarries(st, r, e);
    UserStepMatches(st, r, ReserveAfter(st, r, e).value, e);
  }
}
