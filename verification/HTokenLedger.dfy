/** The supply token and the test ledger as mutable objects. */
module HTokenLedger {
  import opened WadRayMath
  import opened HTokenEvents

  class HToken {
    var accounts: Accounts

    constructor ()
      ensures accounts == map[]
    {
      accounts := map[];
    }

    /** Moves `holder`'s scaled balance by `change` and stamps it with the index. */
    method Stamp(holder: Address, change: int, index: int)
      modifies this
      ensures accounts == old(accounts)[holder := Account(AccountOf(old(accounts), holder).scaled + change, index)]
    {
      accounts := accounts[holder := Account(AccountOf(accounts, holder).scaled + change, index)];
    }

    /** The events are worked out from the balances after the transaction. */
    method SupplyTo(caller: Address, amount: int, onBehalfOf: Address, index: int) returns (receipt: Receipt)
      requires index != 0
      modifies this
      ensures accounts == AccountsAfter(old(accounts), Supply(caller, amount, onBehalfOf), index)
      ensures receipt == ReceiptOf(old(accounts), Supply(caller, amount, onBehalfOf), index)
    {
      hide RayDiv, RayMul;
      var previousIndex := AccountOf(accounts, onBehalfOf).previousIndex;
      Stamp(onBehalfOf, RayDiv(amount, index), index);
      var addedScaledBalance := RayDiv(amount, index);
      var scaledBalance := AccountOf(accounts, onBehalfOf).scaled - addedScaledBalance;
      var balanceIncrease := BalanceIncrease(scaledBalance, previousIndex, index);
      receipt := Receipt([TransferEvent(ZERO_ADDRESS, onBehalfOf, amount + balanceIncrease)],
                         [MintEvent(caller, onBehalfOf, amount + balanceIncrease, balanceIncrease, index)], []);
    }

    method WithdrawFrom(user: Address, amount: int, target: Address, index: int) returns (receipt: Receipt)
      requires index != 0
      modifies this
      ensures accounts == AccountsAfter(old(accounts), Withdraw(user, amount, target), index)
      ensures receipt == ReceiptOf(old(accounts), Withdraw(user, amount, target), index)
    {
      hide RayDiv, RayMul;
      var previousIndex := AccountOf(accounts, user).previousIndex;
      Stamp(user, -RayDiv(amount, index), index);
      var addedScaledBalance := RayDiv(amount, index);
      var scaledBalance := AccountOf(accounts, user).scaled + addedScaledBalance;
      var balanceIncrease := BalanceIncrease(scaledBalance, previousIndex, index);
      if balanceIncrease > amount {
        receipt := Receipt([TransferEvent(ZERO_ADDRESS, user, balanceIncrease - amount)],
                           [MintEvent(user, user, balanceIncrease - amount, balanceIncrease, index)], []);
      } else {
        receipt := Receipt([TransferEvent(user, ZERO_ADDRESS, amount - balanceIncrease)], [],
                           [BurnEvent(user, target, amount - balanceIncrease, balanceIncrease, index)]);
      }
    }

    method TransferFrom(caller: Address, from: Address, to: Address, amount: int, index: int) returns (receipt: Receipt)
      requires index != 0
      modifies this
      ensures accounts == AccountsAfter(old(accounts), Transfer(caller, from, to, amount), index)
      ensures receipt == ReceiptOf(old(accounts), Transfer(caller, from, to, amount), index)
    {
      hide RayDiv, RayMul;
      var fromPreviousIndex, toPreviousIndex := AccountOf(accounts, from).previousIndex,
        AccountOf(accounts, to).previousIndex;
      var delta := if from == to then 0 else RayDiv(amount, index);
      Stamp(from, -delta, index);
      Stamp(to, delta, index);
      var fromScaledBalance := AccountOf(accounts, from).scaled + delta;
      var toScaledBalance := AccountOf(accounts, to).scaled - delta;
      var fromIncrease := BalanceIncrease(fromScaledBalance, fromPreviousIndex, index);
      var toIncrease := BalanceIncrease(toScaledBalance, toPreviousIndex, index);
      var transfers, mints := [TransferEvent(from, to, amount)], [];
      if fromIncrease > 0 {
        transfers := transfers + [TransferEvent(ZERO_ADDRESS, from, fromIncrease)];
        mints := mints + [MintEvent(caller, from, fromIncrease, fromIncrease, index)];
      }
      if from != to && toIncrease > 0 {
        transfers := transfers + [TransferEvent(ZERO_ADDRESS, to, toIncrease)];
        mints := mints + [MintEvent(caller, to, toIncrease, toIncrease, index)];
      }
      receipt := Receipt(transfers, mints, []);
    }
  }

  class BalanceBook {
    var balance: Balances

    constructor (holders: set<Address>)
      ensures balance == map h | h in holders :: 0
    {
      balance := map h | h in holders :: 0;
    }

    /** Replays one receipt: transfers between holders, then mints, then burns. */
    method UpdateBalances(receipt: Receipt)
      modifies this
      ensures balance == Replay(old(balance), receipt)
    {
      ghost var start := balance;
      for i := 0 to |receipt.transfers|
        invariant balance == ReplayTransfers(start, receipt.transfers[..i])
      {
        var e := receipt.transfers[i];
        assert receipt.transfers[..i + 1] == receipt.transfers[..i] + [e];
        if !(e.from == ZERO_ADDRESS || e.to == ZERO_ADDRESS) {
          balance := Adjust(balance, e.from, -e.value);
          balance := Adjust(balance, e.to, e.value);
        }
      }
      assert receipt.transfers[..|receipt.transfers|] == receipt.transfers;
      ghost var moved := balance;
      for i := 0 to |receipt.mints|
        invariant balance == ReplayMints(moved, receipt.mints[..i])
      {
        var e := receipt.mints[i];
        assert receipt.mints[..i + 1] == receipt.mints[..i] + [e];
        balance := Adjust(balance, e.onBehalfOf, e.value);
      }
      assert receipt.mints[..|receipt.mints|] == receipt.mints;
      ghost var minted := balance;
      for i := 0 to |receipt.burns|
        invariant balance == ReplayBurns(minted, receipt.burns[..i])
      {
        var e := receipt.burns[i];
        assert receipt.burns[..i + 1] == receipt.burns[..i] + [e];
        balance := Adjust(balance, e.from, -(e.value + e.balanceIncrease));
        balance := Adjust(balance, e.from, e.balanceIncrease);
      }
      assert receipt.burns[..|receipt.burns|] == receipt.burns;
    }
  }
}
