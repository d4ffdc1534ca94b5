/** The mutable reserve record and the step functions that fill a fresh one field
    by field, each proved against the transaction it computes. */
module ReserveRecords {
  import opened WadRayMath
  import opened Interest
  import opened Failures
  import opened Rates
  import opened Reserves
  import opened Invariant
  import opened Transactions

  class ReserveData {
    var reserveFactor: int
    var unbacked: int
    var availableLiquidity: int
    var totalLiquidity: int
    var totalStableDebt: int
    var totalVariableDebt: int
    var principalStableDebt: int
    var scaledVariableDebt: int
    var averageStableBorrowRate: int
    var liquidityRate: int
    var stableBorrowRate: int
    var variableBorrowRate: int
    var borrowUsageRatio: int
    var supplyUsageRatio: int
    var liquidityIndex: int
    var variableBorrowIndex: int
    var accruedToTreasuryScaled: int
    var lastUpdateTimestamp: int
    var totalStableDebtLastUpdated: int

    function Value(): Reserve
      reads this
    {
      Reserve(reserveFactor, unbacked, availableLiquidity, totalLiquidity, totalStableDebt, totalVariableDebt,
              principalStableDebt, scaledVariableDebt, averageStableBorrowRate, liquidityRate, stableBorrowRate,
              variableBorrowRate, borrowUsageRatio, supplyUsageRatio, liquidityIndex, variableBorrowIndex,
              accruedToTreasuryScaled, lastUpdateTimestamp, totalStableDebtLastUpdated)
    }

    /** A record none of whose fields has been set. */
    constructor Empty() {
    }
  }

  /** The comparison the story runner makes: timestamps are skipped. */
  ghost predicate Matches(actual: Reserve, expected: Result<Reserve>) {
    && expected.Success?
    && actual == expected.value.(lastUpdateTimestamp := actual.lastUpdateTimestamp,
                                 totalStableDebtLastUpdated := actual.totalStableDebtLastUpdated)
  }

  /** `e` with everything that accrual writes taken from `a`. */
  function WithAccrual(e: Reserve, a: Reserve): Reserve {
    e.(liquidityIndex := a.liquidityIndex, variableBorrowIndex := a.variableBorrowIndex,
       totalStableDebt := a.totalStableDebt, totalVariableDebt := a.totalVariableDebt,
       scaledVariableDebt := a.scaledVariableDebt, principalStableDebt := a.principalStableDebt,
       accruedToTreasuryScaled := a.accruedToTreasuryScaled)
  }

  method UpdateState(before: Reserve, expected: ReserveData, txTimestamp: int) returns (r: Result<()>)
    modifies expected
    ensures r.Success? <==> Accrue(before, txTimestamp).Success?
    ensures r.Success? ==>
              expected.Value() == WithAccrual(old(expected.Value()), Accrue(before, txTimestamp).value)
  {
    hide RayMul, RayDiv, PercentMul, CompoundedInterest, LinearInterest, LiquidityIndexAt, VariableIndexAt,
         TotalStableDebt;
    expected.liquidityIndex := LiquidityIndexAt(before, txTimestamp);
    expected.variableBorrowIndex := VariableIndexAt(before, txTimestamp);
    expected.totalStableDebt :=
      TotalStableDebt(before.principalStableDebt, before.averageStableBorrowRate, before.totalStableDebtLastUpdated,
                      txTimestamp);
    expected.totalVariableDebt := RayMul(before.scaledVariableDebt, expected.variableBorrowIndex);
    expected.scaledVariableDebt := before.scaledVariableDebt;
    expected.principalStableDebt := before.principalStableDebt;
    assert DebtAccrued(before, expected.Value()) == DebtAccrued(before, Indexed(before, txTimestamp));
    var treasury :- AccruedToTreasury(before, expected.Value());
    expected.accruedToTreasuryScaled := treasury;
    r := Success(());
  }

  /** `e` with its liquidity totals and usage ratios recomputed. */
  function WithRatios(e: Reserve, available: int): Result<Reserve> {
    var total := available + e.unbacked;
    var ratios :- UsageRatios(e.totalStableDebt, e.totalVariableDebt, available, total);
    Success(e.(availableLiquidity := available, totalLiquidity := total,
               borrowUsageRatio := ratios.borrowUsage, supplyUsageRatio := ratios.supplyUsage))
  }

  method UpdateLiquidityAndUsageRatios(before: Reserve, expected: ReserveData, liquidityAdded: int, liquidityTaken: int)
    returns (r: Result<()>)
    modifies expected
    ensures var e := WithRatios(old(expected.Value()), before.availableLiquidity + liquidityAdded - liquidityTaken);
            && (r.Success? <==> e.Success?)
            && (r.Success? ==> expected.Value() == e.value)
  {
    hide Usage;
    expected.availableLiquidity := before.availableLiquidity + liquidityAdded - liquidityTaken;
    expected.totalLiquidity := expected.availableLiquidity + expected.unbacked;
    var ratios :- UsageRatios(expected.totalStableDebt, expected.totalVariableDebt,
                              expected.availableLiquidity, expected.totalLiquidity);
    expected.borrowUsageRatio, expected.supplyUsageRatio := ratios.borrowUsage, ratios.supplyUsage;
    r := Success(());
  }

  method UpdateTotalLiquidityAndUsageRatio(expected: ReserveData) returns (r: Result<()>)
    modifies expected
    ensures var e := WithRatios(old(expected.Value()), old(expected.availableLiquidity));
            && (r.Success? <==> e.Success?)
            && (r.Success? ==> expected.Value() == e.value)
  {
    hide Usage;
    expected.totalLiquidity := expected.availableLiquidity + expected.unbacked;
    var ratios :- UsageRatios(expected.totalStableDebt, expected.totalVariableDebt,
                              expected.availableLiquidity, expected.totalLiquidity);
    expected.borrowUsageRatio, expected.supplyUsageRatio := ratios.borrowUsage, ratios.supplyUsage;
    r := Success(());
  }

  /** `e` with its three rates computed from the given debts and its own liquidity. */
  function WithRates(st: Strategy, e: Reserve, stableDebt: int, variableDebt: int): Result<Reserve> {
    var rates :- InterestRates(st, stableDebt, variableDebt, e.averageStableBorrowRate, e.availableLiquidity,
                               e.totalLiquidity);
    Success(e.(liquidityRate := rates.liquidityRate, stableBorrowRate := rates.stableBorrowRate,
               variableBorrowRate := rates.variableBorrowRate))
  }

  method AssignRates(st: Strategy, expected: ReserveData, stableDebt: int, variableDebt: int) returns (r: Result<()>)
    modifies expected
    ensures var e := WithRates(st, old(expected.Value()), stableDebt, variableDebt);
            && (r.Success? <==> e.Success?)
            && (r.Success? ==> expected.Value() == e.value)
  {
    hide InterestRates;
    var rates :- InterestRates(st, stableDebt, variableDebt, expected.averageStableBorrowRate,
                               expected.availableLiquidity, expected.totalLiquidity);
    expected.liquidityRate := rates.liquidityRate;
    expected.stableBorrowRate := rates.stableBorrowRate;
    expected.variableBorrowRate := rates.variableBorrowRate;
    r := Success(());
  }

  /** The fields that closing a record reads or keeps, timestamps apart. */
  ghost predicate Agree(a: Reserve, b: Reserve) {
    && a.reserveFactor == b.reserveFactor && a.unbacked == b.unbacked
    && a.totalStableDebt == b.totalStableDebt && a.totalVariableDebt == b.totalVariableDebt
    && a.principalStableDebt == b.principalStableDebt && a.scaledVariableDebt == b.scaledVariableDebt
    && a.averageStableBorrowRate == b.averageStableBorrowRate
    && a.liquidityIndex == b.liquidityIndex && a.variableBorrowIndex == b.variableBorrowIndex
    && a.accruedToTreasuryScaled == b.accruedToTreasuryScaled
  }

  /** Ratios, rates and ratios again, over final debts, are one closing of the record. */
  lemma ClosingSteps(st: Strategy, e: Reserve, average: int, target: Reserve)
    requires Agree(e.(averageStableBorrowRate := average), target)
    ensures var c := Close(st, target);
            var e1 := WithRatios(e, target.availableLiquidity);
            && (c.Success? ==> e1.Success?)
            && (e1.Success? ==>
                  var e2 := WithRates(st, e1.value.(averageStableBorrowRate := average),
                                      target.totalStableDebt, target.totalVariableDebt);
                  && (e2.Success? <==> c.Success?)
                  && (e2.Success? ==>
                        var e3 := WithRatios(e2.value, e2.value.availableLiquidity);
                        e3.Success? && Matches(e3.value, c)))
  {
    hide UsageRatios, InterestRates;
  }

  method CalcAfterDeposit(st: Strategy, before: Reserve, amount: int, txTimestamp: int)
    returns (r: Result<ReserveData>)
    ensures r.Success? <==> AfterDeposit(st, before, amount, txTimestamp).Success?
    ensures r.Success? ==>
              fresh(r.value) && Matches(r.value.Value(), AfterDeposit(st, before, amount, txTimestamp))
  {
    hide Accrue, UsageRatios, WithRates, Close, Matches;
    var expected := new ReserveData.Empty();
    expected.unbacked := before.unbacked;
    expected.reserveFactor := before.reserveFactor;
    var _ :- UpdateState(before, expected, txTimestamp);
    ghost var a := Accrue(before, txTimestamp).value;
    AccrueCarries(before, txTimestamp);
    ClosingSteps(st, expected.Value(), before.averageStableBorrowRate,
                 a.(availableLiquidity := before.availableLiquidity + amount));
    var _ :- UpdateLiquidityAndUsageRatios(before, expected, amount, 0);
    expected.averageStableBorrowRate := before.averageStableBorrowRate;
    var _ :- AssignRates(st, expected, expected.totalStableDebt, expected.totalVariableDebt);
    var checked := UpdateTotalLiquidityAndUsageRatio(expected);
    match checked
    case Failure(error) => r := Failure(error);
    case Success(_) => r := Success(expected);
  }

  method CalcAfterWithdraw(st: Strategy, before: Reserve, u: User, amount: int, txTimestamp: int)
    returns (r: Result<ReserveData>)
    ensures r.Success? <==> AfterWithdraw(st, before, u, amount, txTimestamp).Success?
    ensures r.Success? ==>
              fresh(r.value) && Matches(r.value.Value(), AfterWithdraw(st, before, u, amount, txTimestamp))
  {
    hide Accrue, UsageRatios, WithRates, Close, Matches, HTokenBalance;
    var expected := new ReserveData.Empty();
    expected.unbacked := before.unbacked;
    expected.reserveFactor := before.reserveFactor;
    var withdrawn := amount;
    if withdrawn == MAX_UINT_AMOUNT {
      withdrawn := HTokenBalance(before, u, txTimestamp);
    }
    var _ :- UpdateState(before, expected, txTimestamp);
    ghost var a := Accrue(before, txTimestamp).value;
    AccrueCarries(before, txTimestamp);
    ClosingSteps(st, expected.Value(), before.averageStableBorrowRate,
                 a.(availableLiquidity := before.availableLiquidity - withdrawn));
    var _ :- UpdateLiquidityAndUsageRatios(before, expected, 0, withdrawn);
    expected.averageStableBorrowRate := before.averageStableBorrowRate;
    var _ :- AssignRates(st, expected, expected.totalStableDebt, expected.totalVariableDebt);
    var checked := UpdateTotalLiquidityAndUsageRatio(expected);
    match checked
    case Failure(error) => r := Failure(error);
    case Success(_) => r := Success(expected);
  }

  method CalcAfterMintUnbacked(st: Strategy, before: Reserve, amount: int, txTimestamp: int)
    returns (r: Result<ReserveData>)
    ensures r.Success? <==> AfterMintUnbacked(st, before, amount, txTimestamp).Success?
    ensures r.Success? ==>
              fresh(r.value) && Matches(r.value.Value(), AfterMintUnbacked(st, before, amount, txTimestamp))
  {
    hide Accrue, UsageRatios, WithRates, Close, Matches, AverageStableRate;
    var expected := new ReserveData.Empty();
    expected.reserveFactor := before.reserveFactor;
    var _ :- UpdateState(before, expected, txTimestamp);
    expected.unbacked := before.unbacked + amount;
    ghost var a := Accrue(before, txTimestamp).value;
    AccrueCarries(before, txTimestamp);
    ghost var average :=
      AverageStableRate(before.averageStableBorrowRate, before.totalStableDebt, 0, before.stableBorrowRate);
    ClosingSteps(st, expected.Value(), average,
                 a.(unbacked := before.unbacked + amount, averageStableBorrowRate := average));
    var _ :- UpdateLiquidityAndUsageRatios(before, expected, 0, 0);
    expected.averageStableBorrowRate :=
      AverageStableRate(before.averageStableBorrowRate, before.totalStableDebt, 0, before.stableBorrowRate);
    var _ :- AssignRates(st, expected, expected.totalStableDebt, expected.totalVariableDebt);
    var checked := UpdateTotalLiquidityAndUsageRatio(expected);
    match checked
    case Failure(error) => r := Failure(error);
    case Success(_) => r := Success(expected);
  }

  /** `e` with the fee shared out and the backing taken off. */
  function WithBacking(e: Reserve, before: Reserve, scaledSupply: int, amount: int, fee: int,
                       protocolFee: int): Result<Reserve> {
    var premiumToProtocol := PercentMul(fee, protocolFee);
    var supplied := RayMul(scaledSupply, e.liquidityIndex) + RayMul(e.accruedToTreasuryScaled, e.liquidityIndex);
    var index :- CumulatedIndex(e.liquidityIndex, supplied, fee - premiumToProtocol);
    var minted :- CheckedRayDiv(premiumToProtocol, index);
    Success(e.(liquidityIndex := index, accruedToTreasuryScaled := e.accruedToTreasuryScaled + minted,
               unbacked := before.unbacked - BackingAmount(before, amount)))
  }

  method ShareOutFee(before: Reserve, expected: ReserveData, scaledHTokenSupply: int, amount: int, fee: int,
                     bridgeProtocolFee: int)
    returns (r: Result<int>)
    modifies expected
    ensures var e := WithBacking(old(expected.Value()), before, scaledHTokenSupply, amount, fee, bridgeProtocolFee);
            && (r.Success? <==> e.Success?)
            && (r.Success? ==> expected.Value() == e.value && r.value == BackingAmount(before, amount))
  {
    hide RayMul, RayDiv, PercentMul, CumulatedIndex;
    var backingAmount := if amount < before.unbacked then amount else before.unbacked;
    var premiumToProtocol := PercentMul(fee, bridgeProtocolFee);
    var premiumToLP := fee - premiumToProtocol;
    var totalSupply := RayMul(scaledHTokenSupply, expected.liquidityIndex);
    var index :- CumulatedIndex(expected.liquidityIndex,
                                totalSupply + RayMul(expected.accruedToTreasuryScaled, expected.liquidityIndex),
                                premiumToLP);
    expected.liquidityIndex := index;
    var minted :- CheckedRayDiv(premiumToProtocol, expected.liquidityIndex);
    expected.accruedToTreasuryScaled := expected.accruedToTreasuryScaled + minted;
    expected.unbacked := before.unbacked - backingAmount;
    r := Success(backingAmount);
  }

  method CalcAfterBackUnbacked(st: Strategy, before: Reserve, scaledHTokenSupply: int, amount: int, fee: int,
                               bridgeProtocolFee: int, txTimestamp: int)
    returns (r: Result<ReserveData>)
    ensures r.Success? <==>
      AfterBackUnbacked(st, before, scaledHTokenSupply, amount, fee, bridgeProtocolFee, txTimestamp).Success?
    ensures r.Success? ==>
              fresh(r.value)
              && Matches(r.value.Value(), AfterBackUnbacked(st, before, scaledHTokenSupply, amount, fee,
                                                            bridgeProtocolFee, txTimestamp))
  {
    hide Accrue, UsageRatios, WithRates, Close, Matches, AverageStableRate, RayMul, CheckedRayDiv, PercentMul,
         CumulatedIndex;
    var expected := new ReserveData.Empty();
    expected.reserveFactor := before.reserveFactor;
    var _ :- UpdateState(before, expected, txTimestamp);
    ghost var a := Accrue(before, txTimestamp).value;
    AccrueCarries(before, txTimestamp);
    var backingAmount :- ShareOutFee(before, expected, scaledHTokenSupply, amount, fee, bridgeProtocolFee);
    ghost var average :=
      AverageStableRate(before.averageStableBorrowRate, before.totalStableDebt, 0, before.stableBorrowRate);
    ClosingSteps(st, expected.Value(), average,
                 a.(liquidityIndex := expected.liquidityIndex,
                    accruedToTreasuryScaled := expected.accruedToTreasuryScaled,
                    unbacked := before.unbacked - backingAmount,
                    availableLiquidity := before.availableLiquidity + backingAmount + fee,
                    averageStableBorrowRate := average));
    var _ :- UpdateLiquidityAndUsageRatios(before, expected, backingAmount + fee, 0);
    expected.averageStableBorrowRate :=
      AverageStableRate(before.averageStableBorrowRate, before.totalStableDebt, 0, before.stableBorrowRate);
    var _ :- AssignRates(st, expected, expected.totalStableDebt, expected.totalVariableDebt);
    var checked := UpdateTotalLiquidityAndUsageRatio(expected);
    match checked
    case Failure(error) => r := Failure(error);
    case Success(_) => r := Success(expected);
  }

  // ----- borrowing: the record as it stands at a later time -----

  /** Rates computed over the target's debts are the rates its closing computes. */
  lemma RatesAreClosing(st: Strategy, e: Reserve, target: Reserve)
    requires e.averageStableBorrowRate == target.averageStableBorrowRate
    requires e.availableLiquidity == target.availableLiquidity
    requires e.totalLiquidity == target.availableLiquidity + target.unbacked
    ensures var w := WithRates(st, e, target.totalStableDebt, target.totalVariableDebt);
            var c := Close(st, target);
            && (w.Success? <==> c.Success?)
            && (c.Success? ==>
                  && w.value.liquidityRate == c.value.liquidityRate
                  && w.value.stableBorrowRate == c.value.stableBorrowRate
                  && w.value.variableBorrowRate == c.value.variableBorrowRate)
  {
    hide VariableRate, StableRate, StableToTotalRatio, OverallBorrowRate, LiquidityRate;
  }

  /** `expected` holds the accrued record `a` with `amount` taken from its liquidity. */
  ghost predicate Lent(expected: Reserve, a: Reserve, amount: int) {
    && Agree(expected.(averageStableBorrowRate := a.averageStableBorrowRate), a)
    && expected.availableLiquidity == a.availableLiquidity - amount
    && expected.totalLiquidity == expected.availableLiquidity + a.unbacked
    && expected.lastUpdateTimestamp == a.lastUpdateTimestamp
  }

  /** `e` with the given debts and the ratios they imply. */
  function WithDebts(e: Reserve, stableDebt: int, variableDebt: int): Result<Reserve> {
    var ratios :- UsageRatios(stableDebt, variableDebt, e.availableLiquidity, e.totalLiquidity);
    Success(e.(totalStableDebt := stableDebt, totalVariableDebt := variableDebt,
               borrowUsageRatio := ratios.borrowUsage, supplyUsageRatio := ratios.supplyUsage))
  }

  method AssignDebts(expected: ReserveData, stableDebt: int, variableDebt: int) returns (r: Result<()>)
    modifies expected
    ensures var e := WithDebts(old(expected.Value()), stableDebt, variableDebt);
            && (r.Success? <==> e.Success?)
            && (r.Success? ==> expected.Value() == e.value)
  {
    hide UsageRatios;
    expected.totalStableDebt := stableDebt;
    expected.totalVariableDebt := variableDebt;
    var ratios :- UsageRatios(expected.totalStableDebt, expected.totalVariableDebt,
                              expected.availableLiquidity, expected.totalLiquidity);
    expected.borrowUsageRatio, expected.supplyUsageRatio := ratios.borrowUsage, ratios.supplyUsage;
    r := Success(());
  }

  /** Rates over the target's debts, then the debts of a later time: together they
      are the closed target read back at that time. */
  lemma RatesThenDebts(st: Strategy, e: Reserve, target: Reserve, current: int)
    requires Agree(e.(totalStableDebt := target.totalStableDebt, totalVariableDebt := target.totalVariableDebt), target)
    requires e.availableLiquidity == target.availableLiquidity
    requires e.totalLiquidity == target.availableLiquidity + target.unbacked
    requires e.lastUpdateTimestamp == target.lastUpdateTimestamp
    ensures var w := WithRates(st, e, target.totalStableDebt, target.totalVariableDebt);
            && (w.Success? <==> Close(st, target).Success?)
            && (w.Success? ==>
                  && Agree(w.value, e) && w.value.lastUpdateTimestamp == e.lastUpdateTimestamp
                  && var o := Observe(Close(st, target).value, current);
                     var d := WithDebts(w.value,
                                        TotalStableDebt(target.principalStableDebt, target.averageStableBorrowRate,
                                                        target.totalStableDebtLastUpdated, current),
                                        RayMul(target.scaledVariableDebt,
                                               NormalizedDebt(w.value.variableBorrowRate, target.variableBorrowIndex,
                                                              target.lastUpdateTimestamp, current)));
                     && (d.Success? <==> o.Success?)
                     && (d.Success? ==> Matches(d.value, o)))
  {
    hide UsageRatios, RayMul, NormalizedDebt, TotalStableDebt;
    RatesAreClosing(st, e, target);
    hide WithRates, Close;
    if Close(st, target).Success? {
      CloseOnlyDerives(st, target);
      RatesOnly(st, e, target.totalStableDebt, target.totalVariableDebt);
    }
  }

  method BorrowStable(st: Strategy, before: Reserve, expected: ReserveData, amount: int, txTimestamp: int,
                      currentTimestamp: int, ghost a: Reserve)
    returns (r: Result<()>)
    requires Accrue(before, txTimestamp) == Success(a)
    requires Lent(expected.Value(), a, amount)
    modifies expected
    ensures var after := AfterBorrow(st, before, amount, Stable, txTimestamp);
            && (r.Success? <==> after.Success? && Observe(after.value, currentTimestamp).Success?)
            && (r.Success? ==> Matches(expected.Value(), Observe(after.value, currentTimestamp)))
  {
    hide Accrue, UsageRatios, WithRates, WithDebts, Close, AverageStableRate, RayMul, NormalizedDebt, TotalStableDebt,
         Matches, Observe;
    AccrueCarries(before, txTimestamp);
    var stableDebtUntilTx := TotalStableDebt(before.principalStableDebt, before.averageStableBorrowRate,
                                             before.totalStableDebtLastUpdated, txTimestamp);
    expected.averageStableBorrowRate :=
      AverageStableRate(before.averageStableBorrowRate, stableDebtUntilTx, amount, before.stableBorrowRate);
    expected.principalStableDebt := stableDebtUntilTx + amount;
    ghost var target := a.(availableLiquidity := before.availableLiquidity - amount,
                           principalStableDebt := a.totalStableDebt + amount,
                           totalStableDebt := a.totalStableDebt + amount,
                           averageStableBorrowRate := expected.averageStableBorrowRate,
                           totalStableDebtLastUpdated := txTimestamp);
    assert AfterBorrow(st, before, amount, Stable, txTimestamp) == Close(st, target);
    RatesThenDebts(st, expected.Value(), target, currentTimestamp);
    var _ :- AssignRates(st, expected, expected.principalStableDebt, expected.totalVariableDebt);
    r := AssignDebts(expected,
                     TotalStableDebt(expected.principalStableDebt, expected.averageStableBorrowRate,
                                     txTimestamp, currentTimestamp),
                     RayMul(before.scaledVariableDebt,
                            NormalizedDebt(expected.variableBorrowRate, expected.variableBorrowIndex,
                                           txTimestamp, currentTimestamp)));
  }

  lemma RatesOnly(st: Strategy, e: Reserve, stableDebt: int, variableDebt: int)
    requires WithRates(st, e, stableDebt, variableDebt).Success?
    ensures var w := WithRates(st, e, stableDebt, variableDebt).value;
            w == e.(liquidityRate := w.liquidityRate, stableBorrowRate := w.stableBorrowRate,
                    variableBorrowRate := w.variableBorrowRate)
  {
    hide InterestRates;
  }

  method BorrowVariable(st: Strategy, before: Reserve, expected: ReserveData, amount: int, txTimestamp: int,
                        currentTimestamp: int, ghost a: Reserve)
    returns (r: Result<()>)
    requires Accrue(before, txTimestamp) == Success(a)
    requires Lent(expected.Value(), a, amount)
    requires StableDebtBalance(before.principalStableDebt, before.averageStableBorrowRate,
                               before.totalStableDebtLastUpdated, txTimestamp) == a.totalStableDebt
    modifies expected
    ensures var after := AfterBorrow(st, before, amount, Variable, txTimestamp);
            var stable := TotalStableDebt(before.principalStableDebt, before.averageStableBorrowRate,
                                          before.totalStableDebtLastUpdated, currentTimestamp);
            && (r.Success? <==> after.Success? && Observe(after.value, currentTimestamp).Success?
                                && UsageRatios(stable, a.totalVariableDebt, old(expected.availableLiquidity),
                                               old(expected.totalLiquidity)).Success?)
            && (r.Success? ==> Matches(expected.Value(), Observe(after.value, currentTimestamp)))
  {
    hide Accrue, UsageRatios, WithRates, WithDebts, Close, RayMul, RayDiv, NormalizedDebt, TotalStableDebt, Matches,
         Observe, StableDebtBalance;
    AccrueCarries(before, txTimestamp);
    expected.principalStableDebt := before.principalStableDebt;
    var totalStableDebtAfterTx := StableDebtBalance(before.principalStableDebt, before.averageStableBorrowRate,
                                                    before.totalStableDebtLastUpdated, txTimestamp);
    var stableDebt := TotalStableDebt(before.principalStableDebt, before.averageStableBorrowRate,
                                      before.totalStableDebtLastUpdated, currentTimestamp);
    expected.averageStableBorrowRate := before.averageStableBorrowRate;
    var minted :- CheckedRayDiv(amount, expected.variableBorrowIndex);
    expected.scaledVariableDebt := before.scaledVariableDebt + minted;
    var totalVariableDebtAfterTx := RayMul(expected.scaledVariableDebt, expected.variableBorrowIndex);
    ghost var target := a.(availableLiquidity := before.availableLiquidity - amount,
                           scaledVariableDebt := before.scaledVariableDebt + minted,
                           totalVariableDebt := totalVariableDebtAfterTx);
    assert AfterBorrow(st, before, amount, Variable, txTimestamp) == Close(st, target);
    ghost var e := expected.Value();
    DebtsOnly(e, stableDebt, e.totalVariableDebt);
    var _ :- AssignDebts(expected, stableDebt, expected.totalVariableDebt);
    RatesThenDebts(st, expected.Value(), target, currentTimestamp);
    var _ :- AssignRates(st, expected, totalStableDebtAfterTx, totalVariableDebtAfterTx);
    r := AssignDebts(expected, stableDebt,
                     RayMul(expected.scaledVariableDebt,
                            NormalizedDebt(expected.variableBorrowRate, expected.variableBorrowIndex,
                                           txTimestamp, currentTimestamp)));
  }

  lemma DebtsOnly(e: Reserve, stableDebt: int, variableDebt: int)
    ensures var d := WithDebts(e, stableDebt, variableDebt);
            d.Success? <==> UsageRatios(stableDebt, variableDebt, e.availableLiquidity, e.totalLiquidity).Success?
    ensures WithDebts(e, stableDebt, variableDebt).Success? ==>
            var w := WithDebts(e, stableDebt, variableDebt).value;
            w == e.(totalStableDebt := stableDebt, totalVariableDebt := variableDebt,
                    borrowUsageRatio := w.borrowUsageRatio, supplyUsageRatio := w.supplyUsageRatio)
  {
    hide UsageRatios;
  }

  /** A covered borrow throws nowhere: not in the transaction, not when read back
      later, not in the checks on the way. */
  lemma BorrowNeverThrows(st: Strategy, r: Reserve, seen: int, amount: int, mode: RateMode, time: int, current: int)
    requires ValidAt(st, r, seen) && r.lastUpdateTimestamp <= time <= current && 0 < time
    requires 0 <= amount <= r.availableLiquidity
    ensures AfterBorrow(st, r, amount, mode, time).Success?
    ensures Observe(AfterBorrow(st, r, amount, mode, time).value, current).Success?
    ensures Accrue(r, time).Success?
    ensures var a, left := Accrue(r, time).value, r.availableLiquidity - amount;
            var stable := TotalStableDebt(r.principalStableDebt, r.averageStableBorrowRate,
                                          r.totalStableDebtLastUpdated, current);
            && UsageRatios(a.totalStableDebt, a.totalVariableDebt, left, left + r.unbacked).Success?
            && UsageRatios(stable, a.totalVariableDebt, left, left + r.unbacked).Success?
  {
    hide Accrue, UsageRatios, SupplyRateImplied, Observe, RayMul, TotalStableDebt, AfterBorrow;
    BorrowKeeps(st, r, seen, amount, mode, time);
    ObserveKeepsValid(st, AfterBorrow(st, r, amount, mode, time).value, current);
    AccrueGrows(st, r, seen, time);
    var a, left := Accrue(r, time).value, r.availableLiquidity - amount;
    TotalStableGrows(r.principalStableDebt, r.averageStableBorrowRate, r.totalStableDebtLastUpdated,
                     r.lastUpdateTimestamp, current);
    RayMulMonotone(0, 0, r.scaledVariableDebt, r.variableBorrowIndex);
    UsageCheckPasses(a.totalStableDebt, a.totalVariableDebt, left, left + r.unbacked);
    UsageCheckPasses(TotalStableDebt(r.principalStableDebt, r.averageStableBorrowRate, r.totalStableDebtLastUpdated,
                                     current),
                     a.totalVariableDebt, left, left + r.unbacked);
  }

  /** The record of a borrow mined at `txTimestamp`, as read back at `currentTimestamp`,
      is the transaction's outcome observed at that time. */
  method CalcAfterBorrow(st: Strategy, before: Reserve, amount: int, mode: RateMode, txTimestamp: int,
                         currentTimestamp: int, ghost seen: int)
    returns (r: Result<ReserveData>)
    requires ValidAt(st, before, seen) && before.lastUpdateTimestamp <= txTimestamp <= currentTimestamp
    requires 0 < txTimestamp
    ensures r.Success? ==>
              var after := AfterBorrow(st, before, amount, mode, txTimestamp);
              fresh(r.value) && after.Success? && Matches(r.value.Value(), Observe(after.value, currentTimestamp))
    ensures 0 <= amount <= before.availableLiquidity ==> r.Success?
  {
    hide Accrue, UsageRatios, AfterBorrow, RayMul, TotalStableDebt, StableDebtBalance, SupplyRateImplied, Observe,
         Matches;
    if 0 <= amount <= before.availableLiquidity {
      BorrowNeverThrows(st, before, seen, amount, mode, txTimestamp, currentTimestamp);
    }
    StableFormulasAgree(before.principalStableDebt, before.averageStableBorrowRate, before.totalStableDebtLastUpdated,
                        txTimestamp);
    var expected := new ReserveData.Empty();
    expected.unbacked := before.unbacked;
    expected.reserveFactor := before.reserveFactor;
    expected.lastUpdateTimestamp := txTimestamp;
    var _ :- UpdateState(before, expected, txTimestamp);
    ghost var a := Accrue(before, txTimestamp).value;
    AccrueCarries(before, txTimestamp);
    var _ :- UpdateLiquidityAndUsageRatios(before, expected, 0, amount);
    var done: Result<()>;
    if mode == Stable {
      done := BorrowStable(st, before, expected, amount, txTimestamp, currentTimestamp, a);
    } else {
      done := BorrowVariable(st, before, expected, amount, txTimestamp, currentTimestamp, a);
    }
    var _ :- done;
    r := Success(expected);
  }

  // ----- repaying and swapping -----

  lemma RatiosTwoWays(e: Reserve)
    requires e.totalLiquidity == e.availableLiquidity + e.unbacked
    ensures WithDebts(e, e.totalStableDebt, e.totalVariableDebt) == WithRatios(e, e.availableLiquidity)
  {
    hide UsageRatios;
  }

  /** Ratios, rates and ratios once more over a record whose debts are final. */
  method CloseRecord(st: Strategy, expected: ReserveData, ghost target: Reserve) returns (r: Result<()>)
    requires Agree(expected.Value(), target) && expected.availableLiquidity == target.availableLiquidity
    requires expected.totalLiquidity == target.availableLiquidity + target.unbacked
    modifies expected
    ensures r.Success? <==> Close(st, target).Success?
    ensures r.Success? ==> Matches(expected.Value(), Close(st, target))
  {
    hide UsageRatios, WithRates, WithRatios, Close, Matches;
    ghost var e := expected.Value();
    RatiosTwoWays(e);
    ClosingSteps(st, e, e.averageStableBorrowRate, target);
    DebtsOnly(e, e.totalStableDebt, e.totalVariableDebt);
    var _ :- AssignDebts(expected, expected.totalStableDebt, expected.totalVariableDebt);
    var _ :- AssignRates(st, expected, expected.totalStableDebt, expected.totalVariableDebt);
    r := UpdateTotalLiquidityAndUsageRatio(expected);
  }

  /** What a stable repayment leaves, the clamp written out as assignments. */
  method RepayStable(before: Reserve, expected: ReserveData, debt: int, amount: int, userRate: int)
    modifies expected
    ensures var (stable, average) := StableAfterRepay(before.averageStableBorrowRate, debt, amount, userRate);
            expected.Value() == old(expected.Value()).(principalStableDebt := stable, totalStableDebt := stable,
                                                       averageStableBorrowRate := average)
  {
    hide AverageStableRate;
    expected.totalStableDebt := debt - amount;
    expected.principalStableDebt := expected.totalStableDebt;
    if expected.totalStableDebt < 0 {
      expected.averageStableBorrowRate := 0;
      expected.totalStableDebt := expected.averageStableBorrowRate;
      expected.principalStableDebt := expected.totalStableDebt;
    } else {
      expected.averageStableBorrowRate := AverageStableRate(before.averageStableBorrowRate, debt, -amount, userRate);
      if expected.averageStableBorrowRate < 0 {
        expected.averageStableBorrowRate := 0;
        expected.totalStableDebt := expected.averageStableBorrowRate;
        expected.principalStableDebt := expected.totalStableDebt;
      }
    }
  }

  /** The checks on the way pass as well whenever liquidity is covered. */
  lemma AccruedCheckPasses(st: Strategy, r: Reserve, seen: int, time: int, available: int)
    requires ValidAt(st, r, seen) && r.lastUpdateTimestamp <= time && 0 <= available
    ensures Accrue(r, time).Success?
    ensures var a := Accrue(r, time).value;
            UsageRatios(a.totalStableDebt, a.totalVariableDebt, available, available + r.unbacked).Success?
  {
    hide Accrue, UsageRatios, SupplyRateImplied, Observe, RayMul, TotalStableDebt;
    AccrueGrows(st, r, seen, time);
    var a := Accrue(r, time).value;
    TotalStableGrows(r.principalStableDebt, r.averageStableBorrowRate, r.totalStableDebtLastUpdated,
                     r.lastUpdateTimestamp, r.lastUpdateTimestamp);
    RayMulMonotone(0, 0, r.scaledVariableDebt, r.variableBorrowIndex);
    UsageCheckPasses(a.totalStableDebt, a.totalVariableDebt, available, available + r.unbacked);
  }

  /** A fresh record: accrued, with the liquidity moved and its first check made. */
  method StartRecord(before: Reserve, liquidityAdded: int, txTimestamp: int) returns (r: Result<ReserveData>)
    ensures r.Success? ==> Accrue(before, txTimestamp).Success?
    ensures r.Success? ==>
              var a := Accrue(before, txTimestamp).value;
              var e := r.value.Value();
              && fresh(r.value)
              && Agree(e.(averageStableBorrowRate := a.averageStableBorrowRate), a)
              && e.availableLiquidity == before.availableLiquidity + liquidityAdded
              && e.totalLiquidity == e.availableLiquidity + before.unbacked
    ensures r.Success? <==>
      var a := Accrue(before, txTimestamp);
      var left := before.availableLiquidity + liquidityAdded;
      a.Success? && UsageRatios(a.value.totalStableDebt, a.value.totalVariableDebt, left,
                                left + before.unbacked).Success?
  {
    hide Accrue, UsageRatios, RayMul, TotalStableDebt;
    var expected := new ReserveData.Empty();
    expected.unbacked := before.unbacked;
    expected.reserveFactor := before.reserveFactor;
    var _ :- UpdateState(before, expected, txTimestamp);
    AccrueCarries(before, txTimestamp);
    var _ :- UpdateLiquidityAndUsageRatios(before, expected, liquidityAdded, 0);
    r := Success(expected);
  }

  /** `e` with the scaled variable debt replaced and the debt recomputed from it. */
  function WithScaledDebt(e: Reserve, scaled: int): Reserve {
    e.(scaledVariableDebt := scaled, totalVariableDebt := RayMul(scaled, e.variableBorrowIndex))
  }

  /** Adds to the scaled variable debt what `minted` is worth and takes what `burned` is worth. */
  method MoveScaledDebt(before: Reserve, expected: ReserveData, amount: int, adds: bool) returns (r: Result<()>)
    modifies expected
    ensures var shares := CheckedRayDiv(amount, old(expected.variableBorrowIndex));
            && (r.Success? <==> shares.Success?)
            && (r.Success? ==>
                  expected.Value() == WithScaledDebt(old(expected.Value()),
                                                     if adds then before.scaledVariableDebt + shares.value
                                                     else before.scaledVariableDebt - shares.value))
  {
    hide RayDiv, RayMul;
    var shares :- CheckedRayDiv(amount, expected.variableBorrowIndex);
    expected.scaledVariableDebt :=
      if adds then before.scaledVariableDebt + shares else before.scaledVariableDebt - shares;
    expected.totalVariableDebt := RayMul(expected.scaledVariableDebt, expected.variableBorrowIndex);
    r := Success(());
  }

  /** `e` with its stable total replaced and the average recomputed. */
  function WithStable(e: Reserve, total: int, average: int): Reserve {
    e.(principalStableDebt := total, totalStableDebt := total, averageStableBorrowRate := average)
  }

  function WithRepayment(e: Reserve, before: Reserve, repaid: int, mode: RateMode, userRate: int): Result<Reserve> {
    match mode
    case Stable =>
      var (stable, average) := StableAfterRepay(before.averageStableBorrowRate, e.totalStableDebt, repaid, userRate);
      Success(WithStable(e, stable, average))
    case Variable =>
      var burned :- CheckedRayDiv(repaid, e.variableBorrowIndex);
      var left := WithScaledDebt(e, before.scaledVariableDebt - burned);
      Success(left.(averageStableBorrowRate := before.averageStableBorrowRate))
  }

  method RepayDebt(before: Reserve, expected: ReserveData, repaid: int, mode: RateMode, userRate: int)
    returns (r: Result<()>)
    modifies expected
    ensures var e := WithRepayment(old(expected.Value()), before, repaid, mode, userRate);
            && (r.Success? <==> e.Success?)
            && (r.Success? ==> expected.Value() == e.value)
  {
    hide StableAfterRepay, CheckedRayDiv, RayMul;
    if mode == Stable {
      RepayStable(before, expected, expected.totalStableDebt, repaid, userRate);
    } else {
      var _ :- MoveScaledDebt(before, expected, repaid, false);
      expected.averageStableBorrowRate := before.averageStableBorrowRate;
    }
    r := Success(());
  }

  /** The transaction closes the accrued record with the repayment applied. */
  lemma RepayCloses(st: Strategy, r: Reserve, u: User, amount: int, mode: RateMode, time: int, e: Reserve)
    requires Accrue(r, time).Success?
    requires Agree(e.(averageStableBorrowRate := r.averageStableBorrowRate), Accrue(r, time).value)
    ensures var repaid := RepaidAmount(r, u, amount, mode, time);
            var w := WithRepayment(e, r, repaid, mode, u.stableBorrowRate);
            var t := AfterRepay(st, r, u, amount, mode, time);
            && (w.Failure? ==> t.Failure?)
            && (w.Success? ==>
                  exists target: Reserve ::
                    t == Close(st, target) && Agree(w.value, target)
                    && target.availableLiquidity == r.availableLiquidity + repaid)
  {
    hide Accrue, Close, RayMul, CheckedRayDiv, RepaidAmount, StableAfterRepay;
    AccrueCarries(r, time);
    var a, repaid := Accrue(r, time).value, RepaidAmount(r, u, amount, mode, time);
    var w := WithRepayment(e, r, repaid, mode, u.stableBorrowRate);
    if w.Success? {
      var target := a.(availableLiquidity := r.availableLiquidity + repaid,
                       principalStableDebt := w.value.principalStableDebt, totalStableDebt := w.value.totalStableDebt,
                       scaledVariableDebt := w.value.scaledVariableDebt, totalVariableDebt := w.value.totalVariableDebt,
                       averageStableBorrowRate := w.value.averageStableBorrowRate,
                       totalStableDebtLastUpdated := if mode == Stable then time else r.totalStableDebtLastUpdated);
      assert AfterRepay(st, r, u, amount, mode, time) == Close(st, target);
    }
  }

  method CalcAfterRepay(st: Strategy, before: Reserve, u: User, amount: int, mode: RateMode, txTimestamp: int,
                        ghost seen: int)
    returns (r: Result<ReserveData>)
    ensures r.Success? ==>
              fresh(r.value) && Matches(r.value.Value(), AfterRepay(st, before, u, amount, mode, txTimestamp))
    ensures ValidAt(st, before, seen) && before.lastUpdateTimestamp <= txTimestamp
            && AfterRepay(st, before, u, amount, mode, txTimestamp).Success?
            && 0 <= before.availableLiquidity + RepaidAmount(before, u, amount, mode, txTimestamp)
            ==> r.Success?
  {
    hide Accrue, UsageRatios, Close, Matches, VariableDebtBalance, UserStableDebt, ValidAt, AfterRepay, WithRepayment;
    var userStableDebt := UserStableDebt(u, txTimestamp);
    var userVariableDebt := VariableDebtBalance(before, u, txTimestamp);
    var repaid := amount;
    if repaid == MAX_UINT_AMOUNT || repaid == -MAX_UINT_AMOUNT {
      repaid := if mode == Stable then userStableDebt else userVariableDebt;
    }
    if ValidAt(st, before, seen) && before.lastUpdateTimestamp <= txTimestamp
       && 0 <= before.availableLiquidity + repaid {
      AccruedCheckPasses(st, before, seen, txTimestamp, before.availableLiquidity + repaid);
    }
    var expected :- StartRecord(before, repaid, txTimestamp);
    ghost var e := expected.Value();
    AccrueCarries(before, txTimestamp);
    RepayCloses(st, before, u, amount, mode, txTimestamp, e);
    RepaymentKeepsLiquidity(e, before, repaid, mode, u.stableBorrowRate);
    var _ :- RepayDebt(before, expected, repaid, mode, u.stableBorrowRate);
    ghost var target :| AfterRepay(st, before, u, amount, mode, txTimestamp) == Close(st, target)
                        && Agree(expected.Value(), target)
                        && target.availableLiquidity == before.availableLiquidity + repaid;
    var _ :- CloseRecord(st, expected, target);
    r := Success(expected);
  }

  lemma RepaymentKeepsLiquidity(e: Reserve, before: Reserve, repaid: int, mode: RateMode, userRate: int)
    ensures var w := WithRepayment(e, before, repaid, mode, userRate);
            w.Success? ==> w.value.availableLiquidity == e.availableLiquidity
                           && w.value.totalLiquidity == e.totalLiquidity
                           && w.value.unbacked == e.unbacked
  {
    hide StableAfterRepay, CheckedRayDiv, RayMul;
  }

  function WithSwap(e: Reserve, before: Reserve, variableDebt: int, stableDebt: int, mode: RateMode,
                    userRate: int): Result<Reserve> {
    match mode
    case Stable =>
      var minted :- CheckedRayDiv(stableDebt, e.variableBorrowIndex);
      Success(WithStable(WithScaledDebt(e, before.scaledVariableDebt + minted), e.totalStableDebt - stableDebt,
                         AverageStableRate(before.averageStableBorrowRate, e.totalStableDebt, -stableDebt, userRate)))
    case Variable =>
      var burned :- CheckedRayDiv(variableDebt, e.variableBorrowIndex);
      Success(WithStable(WithScaledDebt(e, before.scaledVariableDebt - burned), e.totalStableDebt + variableDebt,
                         AverageStableRate(before.averageStableBorrowRate, before.totalStableDebt, variableDebt,
                                           before.stableBorrowRate)))
  }

  method SwapDebt(before: Reserve, expected: ReserveData, variableDebt: int, stableDebt: int, mode: RateMode,
                  userRate: int)
    returns (r: Result<()>)
    modifies expected
    ensures var e := WithSwap(old(expected.Value()), before, variableDebt, stableDebt, mode, userRate);
            && (r.Success? <==> e.Success?)
            && (r.Success? ==> expected.Value() == e.value)
  {
    hide AverageStableRate, CheckedRayDiv, RayMul;
    var totalStableDebtUntilTx := expected.totalStableDebt;
    if mode == Stable {
      var _ :- MoveScaledDebt(before, expected, stableDebt, true);
      expected.totalStableDebt := totalStableDebtUntilTx - stableDebt;
      expected.principalStableDebt := expected.totalStableDebt;
      expected.averageStableBorrowRate :=
        AverageStableRate(before.averageStableBorrowRate, expected.principalStableDebt + stableDebt, -stableDebt,
                          userRate);
    } else {
      expected.totalStableDebt := totalStableDebtUntilTx + variableDebt;
      expected.principalStableDebt := expected.totalStableDebt;
      var _ :- MoveScaledDebt(before, expected, variableDebt, false);
      expected.averageStableBorrowRate :=
        AverageStableRate(before.averageStableBorrowRate, before.totalStableDebt, variableDebt,
                          before.stableBorrowRate);
    }
    r := Success(());
  }

  /** The transaction closes the accrued record with the swap applied. */
  lemma SwapCloses(st: Strategy, r: Reserve, u: User, mode: RateMode, time: int, e: Reserve)
    requires Accrue(r, time).Success?
    requires Agree(e.(averageStableBorrowRate := r.averageStableBorrowRate), Accrue(r, time).value)
    ensures var w := WithSwap(e, r, VariableDebtBalance(r, u, time), UserStableDebt(u, time), mode, u.stableBorrowRate);
            var t := AfterSwap(st, r, u, mode, time);
            && (w.Failure? ==> t.Failure?)
            && (w.Success? ==>
                  && w.value.availableLiquidity == e.availableLiquidity && w.value.totalLiquidity == e.totalLiquidity
                  && w.value.unbacked == e.unbacked
                  && exists target: Reserve ::
                       && t == Close(st, target) && Agree(w.value, target)
                       && target.availableLiquidity == r.availableLiquidity)
  {
    hide Accrue, Close, RayMul, CheckedRayDiv, AverageStableRate, VariableDebtBalance, UserStableDebt;
    AccrueCarries(r, time);
    var a := Accrue(r, time).value;
    var w := WithSwap(e, r, VariableDebtBalance(r, u, time), UserStableDebt(u, time), mode, u.stableBorrowRate);
    if w.Success? {
      var target := a.(principalStableDebt := w.value.principalStableDebt, totalStableDebt := w.value.totalStableDebt,
                       scaledVariableDebt := w.value.scaledVariableDebt, totalVariableDebt := w.value.totalVariableDebt,
                       averageStableBorrowRate := w.value.averageStableBorrowRate, totalStableDebtLastUpdated := time);
      assert AfterSwap(st, r, u, mode, time) == Close(st, target);
    }
  }

  method CalcAfterSwapRateMode(st: Strategy, before: Reserve, u: User, mode: RateMode, txTimestamp: int,
                               ghost seen: int)
    returns (r: Result<ReserveData>)
    ensures ValidAt(st, before, seen) && before.lastUpdateTimestamp <= txTimestamp
            && AfterSwap(st, before, u, mode, txTimestamp).Success?
            ==> r.Success?
    ensures r.Success? ==>
              fresh(r.value) && Matches(r.value.Value(), AfterSwap(st, before, u, mode, txTimestamp))
  {
    hide Accrue, UsageRatios, Close, Matches, VariableDebtBalance, UserStableDebt, AfterSwap, WithSwap,
         SupplyRateImplied, Observe;
    if ValidAt(st, before, seen) && before.lastUpdateTimestamp <= txTimestamp {
      AccruedCheckPasses(st, before, seen, txTimestamp, before.availableLiquidity);
    }
    var expected :- StartRecord(before, 0, txTimestamp);
    var variableDebt := VariableDebtBalance(before, u, txTimestamp);
    var stableDebt := UserStableDebt(u, txTimestamp);
    AccrueCarries(before, txTimestamp);
    SwapCloses(st, before, u, mode, txTimestamp, expected.Value());
    var _ :- SwapDebt(before, expected, variableDebt, stableDebt, mode, u.stableBorrowRate);
    ghost var target :| AfterSwap(st, before, u, mode, txTimestamp) == Close(st, target)
                        && Agree(expected.Value(), target) && target.availableLiquidity == before.availableLiquidity;
    var _ :- CloseRecord(st, expected, target);
    r := Success(expected);
  }
}
