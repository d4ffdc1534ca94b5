/** The mutable user record and the step functions that fill it field by field. */
module UserRecords {
  import opened WadRayMath
  import opened Failures
  import opened Rates
  import opened Reserves

  class UserReserveData {
    var scaledHTokenBalance: int
    var currentHTokenBalance: int
    var currentStableDebt: int
    var currentVariableDebt: int
    var principalStableDebt: int
    var scaledVariableDebt: int
    var liquidityRate: int
    var stableBorrowRate: int
    var stableRateLastUpdated: int
    var usageAsCollateralEnabled: bool
    var walletBalance: int

    function Value(): User
      reads this
    {
      User(scaledHTokenBalance, currentHTokenBalance, currentStableDebt, currentVariableDebt, principalStableDebt,
           scaledVariableDebt, liquidityRate, stableBorrowRate, stableRateLastUpdated, usageAsCollateralEnabled,
           walletBalance)
    }

    /** A record none of whose fields has been set. */
    constructor Empty() {
    }

    constructor From(u: User)
      ensures Value() == u
    {
      scaledHTokenBalance, currentHTokenBalance := u.scaledHTokenBalance, u.currentHTokenBalance;
      currentStableDebt, currentVariableDebt := u.currentStableDebt, u.currentVariableDebt;
      principalStableDebt, scaledVariableDebt := u.principalStableDebt, u.scaledVariableDebt;
      liquidityRate, stableBorrowRate := u.liquidityRate, u.stableBorrowRate;
      stableRateLastUpdated, usageAsCollateralEnabled := u.stableRateLastUpdated, u.usageAsCollateralEnabled;
      walletBalance := u.walletBalance;
    }
  }

  method CalcUserAfterDeposit(reserveBefore: Reserve, reserveAfter: Reserve, before: User, amount: int,
                              txTimestamp: int)
    returns (r: Result<UserReserveData>)
    ensures var u := UserAfterDeposit(reserveBefore, reserveAfter, before, amount, txTimestamp);
            && (r.Success? <==> u.Success?)
            && (r.Success? ==> fresh(r.value) && r.value.Value() == u.value)
  {
    hide HTokenBalance, VariableDebtBalance, StableDebtBalance, ScaledAfter;
    var expected := new UserReserveData.Empty();
    expected.currentStableDebt :=
      StableDebtBalance(before.principalStableDebt, before.stableBorrowRate, before.stableRateLastUpdated, txTimestamp);
    expected.currentVariableDebt := VariableDebtBalance(reserveBefore, before, txTimestamp);
    expected.principalStableDebt := before.principalStableDebt;
    expected.scaledVariableDebt := before.scaledVariableDebt;
    expected.stableBorrowRate := before.stableBorrowRate;
    expected.stableRateLastUpdated := before.stableRateLastUpdated;
    expected.liquidityRate := reserveAfter.liquidityRate;
    var scaled :- ScaledAfter(before, reserveAfter.liquidityIndex, amount, 0);
    expected.scaledHTokenBalance := scaled;
    expected.currentHTokenBalance := HTokenBalance(reserveBefore, before, txTimestamp) + amount;
    if before.currentHTokenBalance == 0 {
      expected.usageAsCollateralEnabled := true;
    } else {
      expected.usageAsCollateralEnabled := before.usageAsCollateralEnabled;
    }
    expected.walletBalance := before.walletBalance - amount;
    expected.principalStableDebt :=
      StableDebtBalance(before.principalStableDebt, before.stableBorrowRate, before.stableRateLastUpdated, txTimestamp);
    expected.currentStableDebt := expected.principalStableDebt;
    expected.principalStableDebt := VariableDebtBalance(reserveBefore, before, txTimestamp);
    expected.currentVariableDebt := expected.principalStableDebt;
    r := Success(expected);
  }

  method CalcUserAfterWithdraw(reserveBefore: Reserve, reserveAfter: Reserve, before: User, amount: int,
                               txTimestamp: int)
    returns (r: Result<UserReserveData>)
    ensures var u := UserAfterWithdraw(reserveBefore, reserveAfter, before, amount, txTimestamp);
            && (r.Success? <==> u.Success?)
            && (r.Success? ==> fresh(r.value) && r.value.Value() == u.value)
  {
    hide HTokenBalance, VariableDebtBalance, StableDebtBalance, ScaledAfter;
    var expected := new UserReserveData.Empty();
    var hTokenBalance := HTokenBalance(reserveBefore, before, txTimestamp);
    var withdrawn := amount;
    if withdrawn == MAX_UINT_AMOUNT {
      withdrawn := hTokenBalance;
    }
    var scaled :- ScaledAfter(before, reserveAfter.liquidityIndex, 0, withdrawn);
    expected.scaledHTokenBalance := scaled;
    expected.currentHTokenBalance := hTokenBalance - withdrawn;
    expected.principalStableDebt := before.principalStableDebt;
    expected.scaledVariableDebt := before.scaledVariableDebt;
    expected.currentStableDebt :=
      StableDebtBalance(before.principalStableDebt, before.stableBorrowRate, before.stableRateLastUpdated, txTimestamp);
    expected.currentVariableDebt := VariableDebtBalance(reserveBefore, before, txTimestamp);
    expected.stableBorrowRate := before.stableBorrowRate;
    expected.stableRateLastUpdated := before.stableRateLastUpdated;
    expected.liquidityRate := reserveAfter.liquidityRate;
    if before.currentHTokenBalance == 0 {
      expected.usageAsCollateralEnabled := true;
    } else if expected.currentHTokenBalance == 0 {
      expected.usageAsCollateralEnabled := false;
    } else {
      expected.usageAsCollateralEnabled := before.usageAsCollateralEnabled;
    }
    expected.walletBalance := before.walletBalance + withdrawn;
    r := Success(expected);
  }

  method CalcUserAfterBorrow(reserveBefore: Reserve, reserveAfter: Reserve, before: User, amount: int,
                             mode: RateMode, txTimestamp: int, currentTimestamp: int)
    returns (r: Result<UserReserveData>)
    ensures var u := UserAfterBorrow(reserveBefore, reserveAfter, before, amount, mode, txTimestamp, currentTimestamp);
            && (r.Success? <==> u.Success?)
            && (r.Success? ==> fresh(r.value) && r.value.Value() == u.value)
  {
    hide RayMul, RayDiv, NormalizedDebt, NormalizedIncome, StableDebtBalance, CheckedRayDiv, UserStableRate;
    var expected := new UserReserveData.Empty();
    if mode == Stable {
      var stableDebtUntilTx :=
        StableDebtBalance(before.principalStableDebt, before.stableBorrowRate, before.stableRateLastUpdated,
                          txTimestamp);
      expected.principalStableDebt := stableDebtUntilTx + amount;
      expected.stableRateLastUpdated := txTimestamp;
      var rate :- UserStableRate(stableDebtUntilTx, before.stableBorrowRate, amount, reserveBefore.stableBorrowRate);
      expected.stableBorrowRate := rate;
      expected.currentStableDebt :=
        StableDebtBalance(expected.principalStableDebt, expected.stableBorrowRate, txTimestamp, currentTimestamp);
      expected.scaledVariableDebt := before.scaledVariableDebt;
    } else {
      var minted :- CheckedRayDiv(amount, reserveAfter.variableBorrowIndex);
      expected.scaledVariableDebt := reserveBefore.scaledVariableDebt + minted;
      expected.principalStableDebt := before.principalStableDebt;
      expected.stableBorrowRate := before.stableBorrowRate;
      expected.stableRateLastUpdated := before.stableRateLastUpdated;
      expected.currentStableDebt :=
        StableDebtBalance(before.principalStableDebt, before.stableBorrowRate, before.stableRateLastUpdated,
                          currentTimestamp);
    }
    expected.currentVariableDebt := VariableDebtBalance(reserveAfter, expected.Value(), currentTimestamp);
    expected.liquidityRate := reserveAfter.liquidityRate;
    expected.usageAsCollateralEnabled := before.usageAsCollateralEnabled;
    expected.currentHTokenBalance := HTokenBalance(reserveAfter, before, currentTimestamp);
    expected.scaledHTokenBalance := before.scaledHTokenBalance;
    expected.walletBalance := before.walletBalance + amount;
    r := Success(expected);
  }

  method ResolveRepaid(totalRepaid: int, mode: RateMode, stableDebt: int, variableDebt: int) returns (repaid: int)
    ensures repaid == if totalRepaid != MAX_UINT_AMOUNT && totalRepaid != -MAX_UINT_AMOUNT then totalRepaid
                      else if mode == Stable then stableDebt else variableDebt
  {
    repaid := totalRepaid;
    if repaid == MAX_UINT_AMOUNT || repaid == -MAX_UINT_AMOUNT {
      repaid := if mode == Stable then stableDebt else variableDebt;
    }
  }

  /** The stable debt left by a repayment; nothing left clears its rate as well. */
  method LeaveStableDebt(expected: UserReserveData, before: User, left: int, txTimestamp: int)
    modifies expected
    ensures expected.Value()
         == old(expected.Value()).(currentStableDebt := left, principalStableDebt := left,
                                   stableBorrowRate := if left == 0 then 0 else before.stableBorrowRate,
                                   stableRateLastUpdated := if left == 0 then 0 else txTimestamp)
  {
    expected.currentStableDebt := left;
    expected.principalStableDebt := expected.currentStableDebt;
    if expected.currentStableDebt == 0 {
      expected.stableRateLastUpdated := 0;
      expected.stableBorrowRate := expected.stableRateLastUpdated;
    } else {
      expected.stableBorrowRate := before.stableBorrowRate;
      expected.stableRateLastUpdated := txTimestamp;
    }
  }

  method RepayUserDebt(reserveBefore: Reserve, reserveAfter: Reserve, before: User, expected: UserReserveData,
                       repaid: int, mode: RateMode, txTimestamp: int, currentTimestamp: int)
    returns (r: Result<()>)
    modifies expected
    ensures var u := UserRepaid(reserveBefore, reserveAfter, before, repaid, mode, txTimestamp, currentTimestamp);
            && (r.Success? <==> u.Success?)
            && (r.Success? ==>
                  expected.Value()
                  == old(expected.Value()).(currentStableDebt := u.value.currentStableDebt,
                                            currentVariableDebt := u.value.currentVariableDebt,
                                            principalStableDebt := u.value.principalStableDebt,
                                            scaledVariableDebt := u.value.scaledVariableDebt,
                                            stableBorrowRate := u.value.stableBorrowRate,
                                            stableRateLastUpdated := u.value.stableRateLastUpdated))
  {
    hide RayMul, RayDiv, VariableDebtBalance, StableDebtBalance, CheckedRayDiv;
    var variableDebt := VariableDebtBalance(reserveBefore, before, currentTimestamp);
    var stableDebt :=
      StableDebtBalance(before.principalStableDebt, before.stableBorrowRate, before.stableRateLastUpdated,
                        currentTimestamp);
    if mode == Stable {
      expected.scaledVariableDebt := before.scaledVariableDebt;
      expected.currentVariableDebt := variableDebt;
      LeaveStableDebt(expected, before, stableDebt - repaid, txTimestamp);
    } else {
      expected.currentStableDebt := before.principalStableDebt;
      expected.principalStableDebt := stableDebt;
      expected.stableBorrowRate := before.stableBorrowRate;
      expected.stableRateLastUpdated := before.stableRateLastUpdated;
      var burned :- CheckedRayDiv(repaid, reserveAfter.variableBorrowIndex);
      expected.scaledVariableDebt := before.scaledVariableDebt - burned;
      expected.currentVariableDebt := RayMul(expected.scaledVariableDebt, reserveAfter.variableBorrowIndex);
    }
    r := Success(());
  }

  lemma RepaidKeepsSupply(r: Reserve, after: Reserve, u: User, repaid: int, mode: RateMode, time: int, current: int)
    requires UserRepaid(r, after, u, repaid, mode, time, current).Success?
    ensures var v := UserRepaid(r, after, u, repaid, mode, time, current).value;
            && v.scaledHTokenBalance == u.scaledHTokenBalance
            && v.usageAsCollateralEnabled == u.usageAsCollateralEnabled
  {
    hide RayMul, CheckedRayDiv, VariableDebtBalance, StableDebtBalance;
  }

  method CalcUserAfterRepay(reserveBefore: Reserve, reserveAfter: Reserve, before: User, totalRepaid: int,
                            mode: RateMode, ownDebt: bool, txTimestamp: int, currentTimestamp: int)
    returns (r: Result<UserReserveData>)
    ensures var u := UserAfterRepay(reserveBefore, reserveAfter, before, totalRepaid, mode, ownDebt,
                                    txTimestamp, currentTimestamp);
            && (r.Success? <==> u.Success?)
            && (r.Success? ==> fresh(r.value) && r.value.Value() == u.value)
  {
    hide HTokenBalance, VariableDebtBalance, StableDebtBalance, UserRepaid;
    var expected := new UserReserveData.Empty();
    var variableDebt := VariableDebtBalance(reserveBefore, before, currentTimestamp);
    var stableDebt :=
      StableDebtBalance(before.principalStableDebt, before.stableBorrowRate, before.stableRateLastUpdated,
                        currentTimestamp);
    var repaid := ResolveRepaid(totalRepaid, mode, stableDebt, variableDebt);
    var _ :- RepayUserDebt(reserveBefore, reserveAfter, before, expected, repaid, mode, txTimestamp, currentTimestamp);
    RepaidKeepsSupply(reserveBefore, reserveAfter, before, repaid, mode, txTimestamp, currentTimestamp);
    expected.liquidityRate := reserveAfter.liquidityRate;
    expected.usageAsCollateralEnabled := before.usageAsCollateralEnabled;
    expected.currentHTokenBalance := HTokenBalance(reserveBefore, before, txTimestamp);
    expected.scaledHTokenBalance := before.scaledHTokenBalance;
    if ownDebt {
      expected.walletBalance := before.walletBalance - repaid;
    } else {
      expected.walletBalance := before.walletBalance;
    }
    r := Success(expected);
  }

  method CalcUserAfterSwapRateMode(reserveBefore: Reserve, reserveAfter: Reserve, before: User, mode: RateMode,
                                   txTimestamp: int)
    returns (r: Result<UserReserveData>)
    ensures var u := UserAfterSwap(reserveBefore, reserveAfter, before, mode, txTimestamp);
            && (r.Success? <==> u.Success?)
            && (r.Success? ==> fresh(r.value) && r.value.Value() == u.value)
  {
    hide RayMul, RayDiv, HTokenBalance, VariableDebtBalance, StableDebtBalance, CheckedRayDiv, UserStableRate;
    var expected := new UserReserveData.From(before);
    var stableDebtBalance :=
      StableDebtBalance(before.principalStableDebt, before.stableBorrowRate, before.stableRateLastUpdated, txTimestamp);
    var variableDebtBalance := VariableDebtBalance(reserveBefore, before, txTimestamp);
    expected.currentHTokenBalance := HTokenBalance(reserveBefore, before, txTimestamp);
    if mode == Stable {
      expected.principalStableDebt := 0;
      expected.currentStableDebt := expected.principalStableDebt;
      expected.stableBorrowRate := 0;
      var minted :- CheckedRayDiv(stableDebtBalance, reserveAfter.variableBorrowIndex);
      expected.scaledVariableDebt := before.scaledVariableDebt + minted;
      expected.currentVariableDebt := RayMul(expected.scaledVariableDebt, reserveAfter.variableBorrowIndex);
      expected.stableRateLastUpdated := 0;
    } else {
      expected.currentStableDebt := before.currentStableDebt + variableDebtBalance;
      expected.principalStableDebt := expected.currentStableDebt;
      var rate :- UserStableRate(stableDebtBalance, before.stableBorrowRate, variableDebtBalance,
                                 reserveBefore.stableBorrowRate);
      expected.stableBorrowRate := rate;
      expected.stableRateLastUpdated := txTimestamp;
      expected.scaledVariableDebt := 0;
      expected.currentVariableDebt := expected.scaledVariableDebt;
    }
    expected.liquidityRate := reserveAfter.liquidityRate;
    r := Success(expected);
  }
}
