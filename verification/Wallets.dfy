/** The underlying token: what leaves a wallet reaches the reserve, and back. */
module Wallets {
  import opened WadRayMath
  import opened Failures
  import opened Rates
  import opened Reserves
  import opened Invariant
  import opened Runs

  /** What reaches the reserve from outside the users' wallets: a repayment of somebody
      else's debt, and what a bridge pays in. */
  ghost function BroughtIn(r: Reserve, e: Entry): int {
    match e.action
    case Repay(amount, mode, false) => RepaidAmount(r, e.seen, amount, mode, e.time)
    case BackUnbacked(_, amount, fee, _) => BackingAmount(r, amount) + fee
    case _ => 0
  }

  /** In every transaction the user's wallet pays what the reserve receives. */
  lemma WalletPaysReserve(st: Strategy, r: Reserve, e: Entry, after: Reserve, u: User)
    requires ReserveAfter(st, r, e) == Success(after) && UserAfter(r, after, e) == Success(u)
    requires VariableIndexAt(r, e.time) != 0
    ensures (after.availableLiquidity - r.availableLiquidity) + (u.walletBalance - e.seen.walletBalance)
         == BroughtIn(r, e)
  {
    hide Accrue, Close, RayMul, RayDiv, VariableIndexAt, LiquidityIndexAt, UserStableDebt, VariableDebtBalance,
         HTokenBalance, ReserveAfter, CheckedRayDiv, UserStableRate, StableDebtBalance, ScaledAfter, RepaidAmount,
         WithdrawnAmount;
    ReserveAfterCarries(st, r, e);
  }

  predicate IsMax(amount: int) {
    amount == MAX_UINT_AMOUNT || amount == -MAX_UINT_AMOUNT
  }

  /** Plain amounts move the wallet as they stand; a maximum stands for the whole balance
      or the whole debt of the mode; a debt repaid by another, a swap, and bridging leave
      the wallet alone. */
  lemma WalletMoves(st: Strategy, r: Reserve, e: Entry, after: Reserve, u: User)
    requires UserAfter(r, after, e) == Success(u)
    ensures var moved := u.walletBalance - e.seen.walletBalance;
            match e.action
            case Deposit(amount) => moved == -amount
            case Borrow(amount, _) => moved == amount
            case Withdraw(amount) =>
              moved == (if amount == MAX_UINT_AMOUNT then HTokenBalance(r, e.seen, e.time) else amount)
            case Repay(amount, mode, true) =>
              && (!IsMax(amount) ==> moved == -amount)
              && (IsMax(amount) && mode == Stable ==> moved == -UserStableDebt(e.seen, e.time))
              && (IsMax(amount) && mode == Variable ==> moved == -VariableDebtBalance(r, e.seen, e.time))
            case _ => moved == 0
  {
    hide RayMul, RayDiv, UserStableDebt, VariableDebtBalance, HTokenBalance, CheckedRayDiv, UserStableRate,
         StableDebtBalance, ScaledAfter;
  }

  // ----- whole runs -----

  function TotalWallets(users: seq<User>): int {
    if users == [] then 0 else users[0].walletBalance + TotalWallets(users[1..])
  }

  lemma {:induction false} WalletsAfterUpdate(users: seq<User>, i: nat, u: User)
    requires i < |users|
    ensures TotalWallets(users[i := u]) == TotalWallets(users) - users[i].walletBalance + u.walletBalance
  {
    if i == 0 {
      assert users[i := u][1..] == users[1..];
    } else {
      WalletsAfterUpdate(users[1..], i - 1, u);
      assert users[i := u][1..] == users[1..][i - 1 := u];
    }
  }

  /** The record of every line reports the wallet the user has. */
  ghost predicate WalletsReported(st: Strategy, m: Market, story: seq<Entry>)
    decreases |story|
  {
    story == []
    || (story[0].user < |m.users| && story[0].seen.walletBalance == m.users[story[0].user].walletBalance
        && forall next: Market | Leads(st, m, story[0], next) :: WalletsReported(st, next, story[1..]))
  }

  /** Everything in the users' wallets and at hand in the reserve. */
  function Tokens(m: Market): int {
    m.reserve.availableLiquidity + TotalWallets(m.users)
  }

  ghost function TotalBroughtIn(st: Strategy, m: Market, story: seq<Entry>): int
    decreases |story|
  {
    hide Step, BroughtIn;
    if story == [] || Step(st, m, story[0]).Failure? then 0
    else BroughtIn(m.reserve, story[0]) + TotalBroughtIn(st, Step(st, m, story[0]).value, story[1..])
  }

  /** The amount brought in is the same for the stored record and for its reading. */
  lemma BroughtInAsRead(r: Reserve, e: Entry)
    requires Observe(r, e.now).Success?
    ensures BroughtIn(Observe(r, e.now).value, e) == BroughtIn(r, e)
  {
    hide Observe, RayMul, NormalizedDebt, UserStableDebt;
    ObserveCarries(r, e.now);
  }

  lemma StepConservesTokens(st: Strategy, m: Market, e: Entry)
    requires Sane(st, m) && Allowed(st, m, e) && e.seen.walletBalance == m.users[e.user].walletBalance
    ensures Step(st, m, e).Success? && Tokens(Step(st, m, e).value) == Tokens(m) + BroughtIn(m.reserve, e)
  {
    hide Observe, Reads, Permitted, ReserveAfter, UserAfter, SupplyRateImplied, ScaledDebtAdded, UserStableDebt,
         VariableIndexAt, LiquidityIndexAt, SoleIfBorrowing, BroughtIn;
    ReadPermits(st, m, e);
    ObserveCarries(m.reserve, e.now);
    StepKeeps(st, m, e);
    var r := Observe(m.reserve, e.now).value;
    IndexGuardsAgree(st, r, e.now, e.time, 0);
    ReserveStepKeeps(st, r, e);
    var after := ReserveAfter(st, r, e).value;
    WalletPaysReserve(st, r, e, after, UserAfter(r, after, e).value);
    WalletsAfterUpdate(m.users, e.user, UserAfter(r, after, e).value);
    BroughtInAsRead(m.reserve, e);
  }

  /** Over every permitted story whose records report the wallets, no token appears or
      disappears: what wallets and reserve hold together grows by exactly what others
      repaid and bridges paid in. */
  lemma {:induction false} RunConservesTokens(st: Strategy, m: Market, story: seq<Entry>)
    requires Sane(st, m) && AllowedStory(st, m, story) && WalletsReported(st, m, story)
    ensures Run(st, m, story).Success?
    ensures Tokens(Run(st, m, story).value) == Tokens(m) + TotalBroughtIn(st, m, story)
    decreases |story|
  {
    hide Step, Allowed, Sane, Tokens, BroughtIn;
    if story != [] {
      var next := AllowedNext(st, m, story);
      StepConservesTokens(st, m, story[0]);
      RunConservesTokens(st, next, story[1..]);
    }
  }

  lemma AllowedNext(st: Strategy, m: Market, story: seq<Entry>) returns (next: Market)
    requires Sane(st, m) && AllowedStory(st, m, story) && story != []
    ensures Leads(st, m, story[0], next) && Step(st, m, story[0]) == Success(next) && Allowed(st, m, story[0])
    ensures Sane(st, next) && AllowedStory(st, next, story[1..]) && story[0].user < |m.users|
  {
    hide Step, Sane, Balanced, Faithful;
    StepKeeps(st, m, story[0]);
    next := Step(st, m, story[0]).value;
  }
}
