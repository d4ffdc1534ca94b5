/** The supply token's events, and the ledger that replays them. */
module HTokenEvents {
  import opened WadRayMath

  type Address = nat

  const ZERO_ADDRESS: Address := 0

  datatype TransferEvent = TransferEvent(from: Address, to: Address, value: int)

  datatype MintEvent = MintEvent(caller: Address, onBehalfOf: Address, value: int, balanceIncrease: int, index: int)

  datatype BurnEvent = BurnEvent(from: Address, target: Address, value: int, balanceIncrease: int, index: int)

  datatype Receipt = Receipt(transfers: seq<TransferEvent>, mints: seq<MintEvent>, burns: seq<BurnEvent>)

  /** A holder's scaled balance and the index at which it last moved. */
  datatype Account = Account(scaled: int, previousIndex: int)

  type Accounts = map<Address, Account>

  function AccountOf(accounts: Accounts, holder: Address): Account {
    if holder in accounts then accounts[holder] else Account(0, 0)
  }

  datatype Operation =
    | Supply(caller: Address, amount: int, onBehalfOf: Address)
    | Withdraw(user: Address, amount: int, target: Address)
    | Transfer(caller: Address, from: Address, to: Address, amount: int)

  function BalanceIncrease(scaled: int, indexBefore: int, indexAfter: int): int {
    RayMul(scaled, indexAfter) - RayMul(scaled, indexBefore)
  }

  /** Scaled balance that leaves a transfer's sender: none if it returns to the sender. */
  function TransferredShares(from: Address, to: Address, amount: int, index: int): int
    requires index != 0
  {
    if from == to then 0 else RayDiv(amount, index)
  }

  function AccountsAfter(accounts: Accounts, op: Operation, index: int): Accounts
    requires index != 0
  {
    match op
    case Supply(_, amount, holder) =>
      accounts[holder := Account(AccountOf(accounts, holder).scaled + RayDiv(amount, index), index)]
    case Withdraw(holder, amount, _) =>
      accounts[holder := Account(AccountOf(accounts, holder).scaled - RayDiv(amount, index), index)]
    case Transfer(_, from, to, amount) =>
      var shares := TransferredShares(from, to, amount, index);
      accounts[from := Account(AccountOf(accounts, from).scaled - shares, index)]
              [to := Account(AccountOf(accounts, to).scaled + shares, index)]
  }

  function InterestMint(caller: Address, holder: Address, increase: int, index: int): Receipt {
    if increase > 0 then
      Receipt([TransferEvent(ZERO_ADDRESS, holder, increase)],
              [MintEvent(caller, holder, increase, increase, index)], [])
    else Receipt([], [], [])
  }

  function Join(a: Receipt, b: Receipt): Receipt {
    Receipt(a.transfers + b.transfers, a.mints + b.mints, a.burns + b.burns)
  }

  /** The events one operation emits, from the balances before it. */
  function ReceiptOf(accounts: Accounts, op: Operation, index: int): Receipt {
    match op
    case Supply(caller, amount, holder) =>
      var a := AccountOf(accounts, holder);
      var increase := BalanceIncrease(a.scaled, a.previousIndex, index);
      Receipt([TransferEvent(ZERO_ADDRESS, holder, amount + increase)],
              [MintEvent(caller, holder, amount + increase, increase, index)], [])
    case Withdraw(holder, amount, target) =>
      var a := AccountOf(accounts, holder);
      var increase := BalanceIncrease(a.scaled, a.previousIndex, index);
      if increase > amount then
        Receipt([TransferEvent(ZERO_ADDRESS, holder, increase - amount)],
                [MintEvent(holder, holder, increase - amount, increase, index)], [])
      else
        Receipt([TransferEvent(holder, ZERO_ADDRESS, amount - increase)], [],
                [BurnEvent(holder, target, amount - increase, increase, index)])
    case Transfer(caller, from, to, amount) =>
      var f, t := AccountOf(accounts, from), AccountOf(accounts, to);
      var moved := Receipt([TransferEvent(from, to, amount)], [], []);
      var withSender :=
        Join(moved, InterestMint(caller, from, BalanceIncrease(f.scaled, f.previousIndex, index), index));
      if from == to then withSender
      else Join(withSender, InterestMint(caller, to, BalanceIncrease(t.scaled, t.previousIndex, index), index))
  }

  // ----- replaying a receipt into plain balances -----

  type Balances = map<Address, int>

  /** A balance that is not tracked stays untracked. */
  function Adjust(balances: Balances, holder: Address, change: int): Balances {
    if holder in balances then balances[holder := balances[holder] + change] else balances
  }

  function ReplayTransfers(balances: Balances, events: seq<TransferEvent>): Balances {
    if events == [] then balances
    else
      var b, e := ReplayTransfers(balances, events[..|events| - 1]), events[|events| - 1];
      if e.from == ZERO_ADDRESS || e.to == ZERO_ADDRESS then b
      else Adjust(Adjust(b, e.from, -e.value), e.to, e.value)
  }

  function ReplayMints(balances: Balances, events: seq<MintEvent>): Balances {
    if events == [] then balances
    else
      var e := events[|events| - 1];
      Adjust(ReplayMints(balances, events[..|events| - 1]), e.onBehalfOf, e.value)
  }

  function ReplayBurns(balances: Balances, events: seq<BurnEvent>): Balances {
    if events == [] then balances
    else
      var e := events[|events| - 1];
      Adjust(Adjust(ReplayBurns(balances, events[..|events| - 1]), e.from, -(e.value + e.balanceIncrease)),
             e.from, e.balanceIncrease)
  }

  function Replay(balances: Balances, receipt: Receipt): Balances {
    ReplayBurns(ReplayMints(ReplayTransfers(balances, receipt.transfers), receipt.mints), receipt.burns)
  }

  /** What a receipt changes for one holder. */
  function TransferNet(events: seq<TransferEvent>, holder: Address): int {
    if events == [] then 0
    else
      var e := events[|events| - 1];
      TransferNet(events[..|events| - 1], holder)
      + (if e.from == ZERO_ADDRESS || e.to == ZERO_ADDRESS then 0
         else (if e.from == holder then -e.value else 0) + (if e.to == holder then e.value else 0))
  }

  function MintNet(events: seq<MintEvent>, holder: Address): int {
    if events == [] then 0
    else
      var e := events[|events| - 1];
      MintNet(events[..|events| - 1], holder) + (if e.onBehalfOf == holder then e.value else 0)
  }

  function BurnNet(events: seq<BurnEvent>, holder: Address): int {
    if events == [] then 0
    else
      var e := events[|events| - 1];
      BurnNet(events[..|events| - 1], holder) + (if e.from == holder then -e.value else 0)
  }

  lemma {:induction false} TransfersReplayAsNet(balances: Balances, events: seq<TransferEvent>)
    ensures ReplayTransfers(balances, events)
         == map h | h in balances :: balances[h] + TransferNet(events, h)
  {
    if events != [] {
      TransfersReplayAsNet(balances, events[..|events| - 1]);
    }
  }

  lemma {:induction false} MintsReplayAsNet(balances: Balances, events: seq<MintEvent>)
    ensures ReplayMints(balances, events) == map h | h in balances :: balances[h] + MintNet(events, h)
  {
    if events != [] {
      MintsReplayAsNet(balances, events[..|events| - 1]);
    }
  }

  lemma {:induction false} BurnsReplayAsNet(balances: Balances, events: seq<BurnEvent>)
    ensures ReplayBurns(balances, events) == map h | h in balances :: balances[h] + BurnNet(events, h)
  {
    if events != [] {
      BurnsReplayAsNet(balances, events[..|events| - 1]);
    }
  }

  function Net(receipt: Receipt, holder: Address): int {
    TransferNet(receipt.transfers, holder) + MintNet(receipt.mints, holder) + BurnNet(receipt.burns, holder)
  }

  /** Replaying a receipt moves each tracked balance by the receipt's net for its holder. */
  lemma ReplayIsNet(balances: Balances, receipt: Receipt)
    ensures Replay(balances, receipt) == map h | h in balances :: balances[h] + Net(receipt, h)
  {
    hide ReplayTransfers, ReplayMints, ReplayBurns, TransferNet, MintNet, BurnNet;
    TransfersReplayAsNet(balances, receipt.transfers);
    var b := ReplayTransfers(balances, receipt.transfers);
    MintsReplayAsNet(b, receipt.mints);
    BurnsReplayAsNet(ReplayMints(b, receipt.mints), receipt.burns);
  }

  // ----- the replayed ledger tracks the scaled balances -----

  ghost predicate AccountsSane(accounts: Accounts, index: int) {
    forall h | h in accounts :: 0 <= accounts[h].scaled && 0 <= accounts[h].previousIndex <= index
  }

  /** Amounts are not negative, nobody sends more than is held, and transfers are
      between real addresses. */
  ghost predicate Permitted(accounts: Accounts, op: Operation, index: int)
    requires index != 0
  {
    match op
    case Supply(_, amount, _) => 0 <= amount
    case Withdraw(holder, amount, _) =>
      0 <= amount && RayDiv(amount, index) <= AccountOf(accounts, holder).scaled
    case Transfer(_, from, to, amount) =>
      0 <= amount && from != ZERO_ADDRESS && to != ZERO_ADDRESS
      && TransferredShares(from, to, amount, index) <= AccountOf(accounts, from).scaled
  }

  /** The holder's balance is moved by the operation; a self-transfer moves none. */
  predicate Moves(op: Operation, holder: Address) {
    match op
    case Supply(_, _, h) => h == holder
    case Withdraw(h, _, _) => h == holder
    case Transfer(_, from, to, _) => from != to && (from == holder || to == holder)
  }

  /** What the token owes the holder, as of the holder's last operation. */
  function Owed(accounts: Accounts, holder: Address): int {
    RayMul(AccountOf(accounts, holder).scaled, AccountOf(accounts, holder).previousIndex)
  }

  lemma IncreaseNonNegative(a: Account, index: int)
    requires 0 <= a.scaled && 0 <= a.previousIndex <= index
    ensures 0 <= BalanceIncrease(a.scaled, a.previousIndex, index)
  {
    RayMulMonotone(a.scaled, a.previousIndex, a.scaled, index);
  }

  lemma AccountSane(accounts: Accounts, index: int, holder: Address)
    requires AccountsSane(accounts, index) && 0 <= index
    ensures 0 <= AccountOf(accounts, holder).scaled && 0 <= AccountOf(accounts, holder).previousIndex <= index
  {
  }

  /** The net of an operation's events: both withdraw branches give the same one. */
  lemma NetOf(accounts: Accounts, op: Operation, index: int, holder: Address)
    requires 0 < index && AccountsSane(accounts, index) && Permitted(accounts, op, index)
    ensures var a := AccountOf(accounts, holder);
            var increase := BalanceIncrease(a.scaled, a.previousIndex, index);
            Net(ReceiptOf(accounts, op, index), holder)
            == match op
               case Supply(_, amount, h) => if h == holder then amount + increase else 0
               case Withdraw(h, amount, _) => if h == holder then increase - amount else 0
               case Transfer(_, from, to, amount) =>
                 (if from == holder || to == holder then increase else 0)
                 + (if from == holder then -amount else 0) + (if to == holder then amount else 0)
  {
    hide RayMul, RayDiv, TransferNet, MintNet, BurnNet, InterestMint;
    match op
    case Supply(caller, amount, h) =>
      var a := AccountOf(accounts, h);
      var increase := BalanceIncrease(a.scaled, a.previousIndex, index);
      OneTransfer(TransferEvent(ZERO_ADDRESS, h, amount + increase), holder);
      OneMint(MintEvent(caller, h, amount + increase, increase, index), holder);
      NoEvents(holder);
    case Withdraw(h, amount, target) =>
      var a := AccountOf(accounts, h);
      var increase := BalanceIncrease(a.scaled, a.previousIndex, index);
      OneTransfer(TransferEvent(ZERO_ADDRESS, h, increase - amount), holder);
      OneTransfer(TransferEvent(h, ZERO_ADDRESS, amount - increase), holder);
      OneMint(MintEvent(h, h, increase - amount, increase, index), holder);
      OneBurn(BurnEvent(h, target, amount - increase, increase, index), holder);
      NoEvents(holder);
    case Transfer(_, from, to, _) =>
      AccountSane(accounts, index, from);
      AccountSane(accounts, index, to);
      IncreaseNonNegative(AccountOf(accounts, from), index);
      IncreaseNonNegative(AccountOf(accounts, to), index);
      TransferNetOf(accounts, op, index, holder);
  }

  lemma NoEvents(holder: Address)
    ensures TransferNet([], holder) == 0 && MintNet([], holder) == 0 && BurnNet([], holder) == 0
  {
  }

  lemma OneTransfer(e: TransferEvent, holder: Address)
    ensures TransferNet([e], holder)
         == if e.from == ZERO_ADDRESS || e.to == ZERO_ADDRESS then 0
            else (if e.from == holder then -e.value else 0) + (if e.to == holder then e.value else 0)
  {
    assert [e][..0] == [];
  }

  lemma OneMint(e: MintEvent, holder: Address)
    ensures MintNet([e], holder) == if e.onBehalfOf == holder then e.value else 0
  {
    assert [e][..0] == [];
  }

  lemma OneBurn(e: BurnEvent, holder: Address)
    ensures BurnNet([e], holder) == if e.from == holder then -e.value else 0
  {
    assert [e][..0] == [];
  }

  lemma InterestMintNet(caller: Address, h: Address, increase: int, index: int, holder: Address)
    requires 0 <= increase
    ensures Net(InterestMint(caller, h, increase, index), holder) == if h == holder then increase else 0
  {
    OneTransfer(TransferEvent(ZERO_ADDRESS, h, increase), holder);
    OneMint(MintEvent(caller, h, increase, increase, index), holder);
    NoEvents(holder);
    hide TransferNet, MintNet, BurnNet;
  }

  lemma TransferNetOf(accounts: Accounts, op: Operation, index: int, holder: Address)
    requires op.Transfer? && op.from != ZERO_ADDRESS && op.to != ZERO_ADDRESS
    requires 0 <= BalanceIncrease(AccountOf(accounts, op.from).scaled, AccountOf(accounts, op.from).previousIndex,
                                  index)
    requires 0 <= BalanceIncrease(AccountOf(accounts, op.to).scaled, AccountOf(accounts, op.to).previousIndex, index)
    ensures var a := AccountOf(accounts, holder);
            Net(ReceiptOf(accounts, op, index), holder)
            == (if op.from == holder || op.to == holder then BalanceIncrease(a.scaled, a.previousIndex, index) else 0)
               + (if op.from == holder then -op.amount else 0) + (if op.to == holder then op.amount else 0)
  {
    hide BalanceIncrease, InterestMint, Join, Net;
    var f, t := AccountOf(accounts, op.from), AccountOf(accounts, op.to);
    var moved := Receipt([TransferEvent(op.from, op.to, op.amount)], [], []);
    var first := InterestMint(op.caller, op.from, BalanceIncrease(f.scaled, f.previousIndex, index), index);
    var second := InterestMint(op.caller, op.to, BalanceIncrease(t.scaled, t.previousIndex, index), index);
    InterestMintNet(op.caller, op.from, BalanceIncrease(f.scaled, f.previousIndex, index), index, holder);
    InterestMintNet(op.caller, op.to, BalanceIncrease(t.scaled, t.previousIndex, index), index, holder);
    MovedNet(TransferEvent(op.from, op.to, op.amount), holder);
    NetOfJoin(moved, first, holder);
    NetOfJoin(Join(moved, first), second, holder);
  }

  lemma MovedNet(e: TransferEvent, holder: Address)
    requires e.from != ZERO_ADDRESS && e.to != ZERO_ADDRESS
    ensures Net(Receipt([e], [], []), holder)
         == (if e.from == holder then -e.value else 0) + (if e.to == holder then e.value else 0)
  {
    OneTransfer(e, holder);
    NoEvents(holder);
    hide TransferNet, MintNet, BurnNet;
  }

  lemma NetOfJoin(a: Receipt, b: Receipt, holder: Address)
    ensures Net(Join(a, b), holder) == Net(a, holder) + Net(b, holder)
  {
    TransferNetConcat(a.transfers, b.transfers, holder);
    MintNetConcat(a.mints, b.mints, holder);
    BurnNetConcat(a.burns, b.burns, holder);
  }

  lemma {:induction false} TransferNetConcat(a: seq<TransferEvent>, b: seq<TransferEvent>, holder: Address)
    ensures TransferNet(a + b, holder) == TransferNet(a, holder) + TransferNet(b, holder)
    decreases |b|
  {
    if b == [] {
      assert a + b == a;
    } else {
      assert (a + b)[..|a + b| - 1] == a + b[..|b| - 1];
      TransferNetConcat(a, b[..|b| - 1], holder);
    }
  }

  lemma {:induction false} MintNetConcat(a: seq<MintEvent>, b: seq<MintEvent>, holder: Address)
    ensures MintNet(a + b, holder) == MintNet(a, holder) + MintNet(b, holder)
    decreases |b|
  {
    if b == [] {
      assert a + b == a;
    } else {
      assert (a + b)[..|a + b| - 1] == a + b[..|b| - 1];
      MintNetConcat(a, b[..|b| - 1], holder);
    }
  }

  lemma {:induction false} BurnNetConcat(a: seq<BurnEvent>, b: seq<BurnEvent>, holder: Address)
    ensures BurnNet(a + b, holder) == BurnNet(a, holder) + BurnNet(b, holder)
    decreases |b|
  {
    if b == [] {
      assert a + b == a;
    } else {
      assert (a + b)[..|a + b| - 1] == a + b[..|b| - 1];
      BurnNetConcat(a, b[..|b| - 1], holder);
    }
  }

  lemma AccountsStaySane(accounts: Accounts, op: Operation, index: int)
    requires 0 < index && AccountsSane(accounts, index) && Permitted(accounts, op, index)
    ensures AccountsSane(AccountsAfter(accounts, op, index), index)
  {
    match op
    case Supply(_, amount, _) => RayDivRounds(amount, index);
    case Withdraw(_, amount, _) => RayDivRounds(amount, index);
    case Transfer(_, _, _, amount) => RayDivRounds(amount, index);
    hide RayDiv;
  }

  /** One operation changes what the token owes a holder by what its events say, to
      within 1 + index / (2 RAY); exactly, if it does not move the holder's balance. */
  lemma OperationMatchesNet(accounts: Accounts, op: Operation, index: int, holder: Address)
    requires 0 < index && AccountsSane(accounts, index) && Permitted(accounts, op, index)
    ensures var gap := Owed(AccountsAfter(accounts, op, index), holder) - Owed(accounts, holder)
                       - Net(ReceiptOf(accounts, op, index), holder);
            var tolerance := if Moves(op, holder) then 2 * RAY + index else 0;
            -tolerance <= 2 * RAY * gap <= tolerance
  {
    hide RayMul, RayDiv, Net, ReceiptOf;
    NetOf(accounts, op, index, holder);
    AccountSane(accounts, index, holder);
    var scaled, amount := AccountOf(accounts, holder).scaled, op.amount;
    MovedShares(scaled, amount, index);
    var owed, next := Owed(accounts, holder), Owed(AccountsAfter(accounts, op, index), holder);
    var shares := RayDiv(amount, index);
    match op
    case Supply(_, _, h) =>
      assert next == if h == holder then RayMul(scaled + shares, index) else owed;
    case Withdraw(h, _, _) =>
      assert next == if h == holder then RayMul(scaled - shares, index) else owed;
    case Transfer(_, from, to, _) =>
      if from == to {
        assert next == if from == holder then RayMul(scaled, index) else owed;
      } else {
        assert next == if from == holder then RayMul(scaled - shares, index)
                       else if to == holder then RayMul(scaled + shares, index) else owed;
      }
  }

  // ----- what a receipt says besides -----

  /** What the transfer events alone say about a holder, those from and to nowhere included. */
  function AllTransferNet(events: seq<TransferEvent>, holder: Address): int {
    if events == [] then 0
    else
      var e := events[|events| - 1];
      AllTransferNet(events[..|events| - 1], holder)
      + (if e.from == holder then -e.value else 0) + (if e.to == holder then e.value else 0)
  }

  function MintInterest(events: seq<MintEvent>, holder: Address): int {
    if events == [] then 0
    else
      var e := events[|events| - 1];
      MintInterest(events[..|events| - 1], holder) + (if e.onBehalfOf == holder then e.balanceIncrease else 0)
  }

  function BurnInterest(events: seq<BurnEvent>, holder: Address): int {
    if events == [] then 0
    else
      var e := events[|events| - 1];
      BurnInterest(events[..|events| - 1], holder) + (if e.from == holder then e.balanceIncrease else 0)
  }

  /** Interest that a receipt announces for a holder. */
  function Announced(receipt: Receipt, holder: Address): int {
    MintInterest(receipt.mints, holder) + BurnInterest(receipt.burns, holder)
  }

  lemma {:induction false} AllTransferNetConcat(a: seq<TransferEvent>, b: seq<TransferEvent>, holder: Address)
    ensures AllTransferNet(a + b, holder) == AllTransferNet(a, holder) + AllTransferNet(b, holder)
    decreases |b|
  {
    if b == [] {
      assert a + b == a;
    } else {
      assert (a + b)[..|a + b| - 1] == a + b[..|b| - 1];
      AllTransferNetConcat(a, b[..|b| - 1], holder);
    }
  }

  lemma {:induction false} MintInterestConcat(a: seq<MintEvent>, b: seq<MintEvent>, holder: Address)
    ensures MintInterest(a + b, holder) == MintInterest(a, holder) + MintInterest(b, holder)
    decreases |b|
  {
    if b == [] {
      assert a + b == a;
    } else {
      assert (a + b)[..|a + b| - 1] == a + b[..|b| - 1];
      MintInterestConcat(a, b[..|b| - 1], holder);
    }
  }

  lemma OneOfEach(t: TransferEvent, m: MintEvent, b: BurnEvent, holder: Address)
    ensures AllTransferNet([t], holder)
         == (if t.from == holder then -t.value else 0) + (if t.to == holder then t.value else 0)
    ensures MintInterest([m], holder) == if m.onBehalfOf == holder then m.balanceIncrease else 0
    ensures BurnInterest([b], holder) == if b.from == holder then b.balanceIncrease else 0
    ensures AllTransferNet([], holder) == 0 && MintInterest([], holder) == 0 && BurnInterest([], holder) == 0
  {
    assert [t][..0] == [] && [m][..0] == [] && [b][..0] == [];
  }

  /** A holder whose balance the operation settles, a self-transfer included. */
  predicate Settles(op: Operation, holder: Address) {
    match op
    case Supply(_, _, h) => h == holder
    case Withdraw(h, _, _) => h == holder
    case Transfer(_, from, to, _) => from == holder || to == holder
  }

  /** The transfer events alone account for every holder exactly as mints, burns and
      transfers between holders do together. */
  lemma TransfersAlonePrescribe(accounts: Accounts, op: Operation, index: int, holder: Address)
    requires 0 < index && AccountsSane(accounts, index) && Permitted(accounts, op, index) && holder != ZERO_ADDRESS
    ensures AllTransferNet(ReceiptOf(accounts, op, index).transfers, holder)
         == Net(ReceiptOf(accounts, op, index), holder)
  {
    NetOf(accounts, op, index, holder);
    hide RayMul, RayDiv, AllTransferNet, Net, MintInterest, BurnInterest, TransferNet, MintNet, BurnNet;
    match op
    case Supply(caller, amount, h) =>
      var increase := BalanceIncrease(AccountOf(accounts, h).scaled, AccountOf(accounts, h).previousIndex, index);
      OneTransferAlone(TransferEvent(ZERO_ADDRESS, h, amount + increase), holder);
    case Withdraw(h, amount, target) =>
      var increase := BalanceIncrease(AccountOf(accounts, h).scaled, AccountOf(accounts, h).previousIndex, index);
      OneTransferAlone(TransferEvent(ZERO_ADDRESS, h, increase - amount), holder);
      OneTransferAlone(TransferEvent(h, ZERO_ADDRESS, amount - increase), holder);
    case Transfer(_, from, to, _) =>
      AccountSane(accounts, index, from);
      AccountSane(accounts, index, to);
      IncreaseNonNegative(AccountOf(accounts, from), index);
      IncreaseNonNegative(AccountOf(accounts, to), index);
      TransferAlone(accounts, op, index, holder);
  }

  lemma TransferAlone(accounts: Accounts, op: Operation, index: int, holder: Address)
    requires op.Transfer? && holder != ZERO_ADDRESS && index != 0
    requires 0 <= BalanceIncrease(AccountOf(accounts, op.from).scaled, AccountOf(accounts, op.from).previousIndex,
                                  index)
    requires 0 <= BalanceIncrease(AccountOf(accounts, op.to).scaled, AccountOf(accounts, op.to).previousIndex, index)
    ensures var a := AccountOf(accounts, holder);
            AllTransferNet(ReceiptOf(accounts, op, index).transfers, holder)
            == (if op.from == holder || op.to == holder then BalanceIncrease(a.scaled, a.previousIndex, index) else 0)
               + (if op.from == holder then -op.amount else 0) + (if op.to == holder then op.amount else 0)
  {
    hide BalanceIncrease, AllTransferNet;
    var f, t := AccountOf(accounts, op.from), AccountOf(accounts, op.to);
    var moved := [TransferEvent(op.from, op.to, op.amount)];
    var first := BalanceIncrease(f.scaled, f.previousIndex, index);
    var second := BalanceIncrease(t.scaled, t.previousIndex, index);
    OneTransferAlone(TransferEvent(op.from, op.to, op.amount), holder);
    InterestTransfer(op.caller, op.from, first, index, holder);
    InterestTransfer(op.caller, op.to, second, index, holder);
    AllTransferNetConcat(moved, InterestMint(op.caller, op.from, first, index).transfers, holder);
    AllTransferNetConcat(moved + InterestMint(op.caller, op.from, first, index).transfers,
                         InterestMint(op.caller, op.to, second, index).transfers, holder);
  }

  lemma OneTransferAlone(e: TransferEvent, holder: Address)
    ensures AllTransferNet([e], holder)
         == (if e.from == holder then -e.value else 0) + (if e.to == holder then e.value else 0)
  {
    assert [e][..0] == [];
  }

  lemma InterestTransfer(caller: Address, h: Address, increase: int, index: int, holder: Address)
    requires 0 <= increase && holder != ZERO_ADDRESS
    ensures AllTransferNet(InterestMint(caller, h, increase, index).transfers, holder)
         == if h == holder then increase else 0
  {
    OneTransferAlone(TransferEvent(ZERO_ADDRESS, h, increase), holder);
    assert AllTransferNet([], holder) == 0;
    hide AllTransferNet;
  }

  /** A receipt announces, for each holder it settles and for nobody else, exactly the
      interest since the holder's last operation, and every event carries the new index. */
  lemma InterestIsAnnounced(accounts: Accounts, op: Operation, index: int, holder: Address)
    requires 0 < index && AccountsSane(accounts, index) && Permitted(accounts, op, index)
    ensures Announced(ReceiptOf(accounts, op, index), holder)
         == if Settles(op, holder) then RayMul(AccountOf(accounts, holder).scaled, index) - Owed(accounts, holder)
            else 0
    ensures forall k | 0 <= k < |ReceiptOf(accounts, op, index).mints| ::
              ReceiptOf(accounts, op, index).mints[k].index == index
    ensures forall k | 0 <= k < |ReceiptOf(accounts, op, index).burns| ::
              ReceiptOf(accounts, op, index).burns[k].index == index
  {
    hide RayMul, RayDiv, AllTransferNet, MintInterest, BurnInterest;
    match op
    case Supply(caller, amount, h) =>
      var increase := BalanceIncrease(AccountOf(accounts, h).scaled, AccountOf(accounts, h).previousIndex, index);
      OneOfEach(TransferEvent(0, 0, 0), MintEvent(caller, h, amount + increase, increase, index),
                BurnEvent(h, h, 0, 0, index), holder);
    case Withdraw(h, amount, target) =>
      var increase := BalanceIncrease(AccountOf(accounts, h).scaled, AccountOf(accounts, h).previousIndex, index);
      OneOfEach(TransferEvent(0, 0, 0), MintEvent(h, h, increase - amount, increase, index),
                BurnEvent(h, target, amount - increase, increase, index), holder);
    case Transfer(caller, from, to, amount) =>
      AccountSane(accounts, index, from);
      AccountSane(accounts, index, to);
      IncreaseNonNegative(AccountOf(accounts, from), index);
      IncreaseNonNegative(AccountOf(accounts, to), index);
      var f, t := AccountOf(accounts, from), AccountOf(accounts, to);
      var first := BalanceIncrease(f.scaled, f.previousIndex, index);
      var second := BalanceIncrease(t.scaled, t.previousIndex, index);
      AnnouncedMint(caller, from, first, index, holder);
      AnnouncedMint(caller, to, second, index, holder);
      MintInterestConcat([], InterestMint(caller, from, first, index).mints, holder);
      MintInterestConcat([] + InterestMint(caller, from, first, index).mints,
                         InterestMint(caller, to, second, index).mints, holder);
  }

  lemma AnnouncedMint(caller: Address, h: Address, increase: int, index: int, holder: Address)
    requires 0 <= increase
    ensures MintInterest(InterestMint(caller, h, increase, index).mints, holder) == if h == holder then increase else 0
    ensures MintInterest([], holder) == 0 && BurnInterest([], holder) == 0
  {
    OneOfEach(TransferEvent(0, 0, 0), MintEvent(caller, h, increase, increase, index), BurnEvent(h, h, 0, 0, index),
              holder);
    hide MintInterest, BurnInterest;
  }

  // ----- runs -----

  datatype Line = Line(op: Operation, index: int)

  ghost predicate PermittedRun(accounts: Accounts, floor: int, run: seq<Line>)
    decreases |run|
  {
    run == []
    || (0 < run[0].index && floor <= run[0].index && Permitted(accounts, run[0].op, run[0].index)
        && PermittedRun(AccountsAfter(accounts, run[0].op, run[0].index), run[0].index, run[1..]))
  }

  function AccountsAfterRun(accounts: Accounts, run: seq<Line>): Accounts
    decreases |run|
  {
    if run == [] || run[0].index == 0 then accounts
    else AccountsAfterRun(AccountsAfter(accounts, run[0].op, run[0].index), run[1..])
  }

  function ReplayRun(accounts: Accounts, balances: Balances, run: seq<Line>): Balances
    decreases |run|
  {
    if run == [] || run[0].index == 0 then balances
    else
      ReplayRun(AccountsAfter(accounts, run[0].op, run[0].index),
                Replay(balances, ReceiptOf(accounts, run[0].op, run[0].index)), run[1..])
  }

  /** Twice a ray times 1 + index / (2 RAY), for each operation that moves the holder's balance. */
  function Tolerance(run: seq<Line>, holder: Address): int {
    if run == [] then 0
    else (if Moves(run[0].op, holder) then 2 * RAY + run[0].index else 0) + Tolerance(run[1..], holder)
  }

  /** Over every run with non-decreasing indexes, the replayed balance of a tracked
      holder moves with what the token owes, to within 1 + index / (2 RAY) for each
      operation that moves the holder's balance. */
  lemma {:induction false} ReplayTracksScaledBalances(accounts: Accounts, balances: Balances, floor: int,
                                                      run: seq<Line>,
                                                      holder: Address)
    requires 0 <= floor && AccountsSane(accounts, floor) && PermittedRun(accounts, floor, run) && holder in balances
    ensures holder in ReplayRun(accounts, balances, run)
    ensures var gap := (Owed(AccountsAfterRun(accounts, run), holder) - Owed(accounts, holder))
                       - (ReplayRun(accounts, balances, run)[holder] - balances[holder]);
            -Tolerance(run, holder) <= 2 * RAY * gap <= Tolerance(run, holder)
    decreases |run|
  {
    hide RayMul, RayDiv, AccountOf, Adjust;
    hide Replay, ReceiptOf, Permitted, AccountsAfter, Owed, AccountsSane, Moves;
    if run != [] {
      var op, index := run[0].op, run[0].index;
      var next, replayed := AccountsAfter(accounts, op, index), Replay(balances, ReceiptOf(accounts, op, index));
      SaneUpTo(accounts, floor, index);
      AccountsStaySane(accounts, op, index);
      OperationTracked(accounts, balances, op, index, holder);
      ReplayTracksScaledBalances(next, replayed, index, run[1..], holder);
    }
  }

  /** The same for one operation. */
  lemma OperationTracked(accounts: Accounts, balances: Balances, op: Operation, index: int, holder: Address)
    requires 0 < index && AccountsSane(accounts, index) && Permitted(accounts, op, index) && holder in balances
    ensures holder in Replay(balances, ReceiptOf(accounts, op, index))
    ensures var gap := (Owed(AccountsAfter(accounts, op, index), holder) - Owed(accounts, holder))
                       - (Replay(balances, ReceiptOf(accounts, op, index))[holder] - balances[holder]);
            var tolerance := if Moves(op, holder) then 2 * RAY + index else 0;
            -tolerance <= 2 * RAY * gap <= tolerance
  {
    hide Replay, ReceiptOf, Permitted, AccountsAfter, Net, Owed, AccountsSane, Moves;
    OperationMatchesNet(accounts, op, index, holder);
    ReplayIsNet(balances, ReceiptOf(accounts, op, index));
  }

  lemma SaneUpTo(accounts: Accounts, low: int, high: int)
    requires AccountsSane(accounts, low) && low <= high
    ensures AccountsSane(accounts, high)
  {
  }
}
