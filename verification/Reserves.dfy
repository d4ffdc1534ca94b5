/** One lending reserve as a value: its record, the balances derived from it,
    and what every transaction leaves behind. */
module Reserves {
  import opened Arithmetic
  import opened WadRayMath
  import opened Interest
  import opened Failures
  import opened Rates

  const MAX_UINT_AMOUNT := 0xFFFF_FFFF_FFFF_FFFF_FFFF_FFFF_FFFF_FFFF_FFFF_FFFF_FFFF_FFFF_FFFF_FFFF_FFFF_FFFF

  /** Debt mode of a borrow or repayment, or the mode a swap leaves. */
  datatype RateMode = Stable | Variable

  datatype Reserve = Reserve(
    reserveFactor: int,
    unbacked: int,
    availableLiquidity: int,
    totalLiquidity: int,
    totalStableDebt: int,
    totalVariableDebt: int,
    principalStableDebt: int,
    scaledVariableDebt: int,
    averageStableBorrowRate: int,
    liquidityRate: int,
    stableBorrowRate: int,
    variableBorrowRate: int,
    borrowUsageRatio: int,
    supplyUsageRatio: int,
    liquidityIndex: int,
    variableBorrowIndex: int,
    accruedToTreasuryScaled: int,
    lastUpdateTimestamp: int,
    totalStableDebtLastUpdated: int)

  datatype User = User(
    scaledHTokenBalance: int,
    currentHTokenBalance: int,
    currentStableDebt: int,
    currentVariableDebt: int,
    principalStableDebt: int,
    scaledVariableDebt: int,
    liquidityRate: int,
    stableBorrowRate: int,
    stableRateLastUpdated: int,
    usageAsCollateralEnabled: bool,
    walletBalance: int)

  // ----- indexes and balances at a later time -----

  function LiquidityIndexAt(r: Reserve, time: int): int {
    if r.supplyUsageRatio == 0 then r.liquidityIndex
    else RayMul(LinearInterest(r.liquidityRate, time, r.lastUpdateTimestamp), r.liquidityIndex)
  }

  function VariableIndexAt(r: Reserve, time: int): int {
    if r.totalVariableDebt == 0 then r.variableBorrowIndex
    else RayMul(CompoundedInterest(r.variableBorrowRate, time, r.lastUpdateTimestamp), r.variableBorrowIndex)
  }

  function NormalizedIncome(r: Reserve, time: int): int {
    if r.liquidityRate == 0 then r.liquidityIndex
    else RayMul(LinearInterest(r.liquidityRate, time, r.lastUpdateTimestamp), r.liquidityIndex)
  }

  function NormalizedDebt(rate: int, index: int, last: int, time: int): int {
    if rate == 0 then index else RayMul(CompoundedInterest(rate, time, last), index)
  }

  function TotalStableDebt(principal: int, averageRate: int, last: int, time: int): int {
    RayMul(CompoundedInterest(averageRate, time, last), principal)
  }

  function StableDebtBalance(principal: int, rate: int, last: int, time: int): int {
    if rate == 0 || time == last || last == 0 then principal
    else RayMul(principal, CompoundedInterest(rate, time, last))
  }

  function HTokenBalance(r: Reserve, u: User, time: int): int {
    RayMul(u.scaledHTokenBalance, NormalizedIncome(r, time))
  }

  function VariableDebtBalance(r: Reserve, u: User, time: int): int {
    RayMul(u.scaledVariableDebt,
           NormalizedDebt(r.variableBorrowRate, r.variableBorrowIndex, r.lastUpdateTimestamp, time))
  }

  function UserStableDebt(u: User, time: int): int {
    StableDebtBalance(u.principalStableDebt, u.stableBorrowRate, u.stableRateLastUpdated, time)
  }

  function AverageStableRate(average: int, total: int, change: int, rate: int): int {
    if total + change == 0 then 0 else TruncDiv(average * total + rate * change, total + change)
  }

  // ----- accrual -----

  /** Interest that all debt earned between the last update and `next`. */
  function DebtAccrued(r: Reserve, next: Reserve): int {
    RayMul(next.scaledVariableDebt, next.variableBorrowIndex) + next.totalStableDebt
    - RayMul(r.scaledVariableDebt, r.variableBorrowIndex)
    - RayMul(r.principalStableDebt,
             CompoundedInterest(r.averageStableBorrowRate, r.lastUpdateTimestamp, r.totalStableDebtLastUpdated))
  }

  function AccruedToTreasury(r: Reserve, next: Reserve): Result<int> {
    var amountToMint := PercentMul(DebtAccrued(r, next), r.reserveFactor);
    if r.reserveFactor == 0 || amountToMint <= 0 then Success(r.accruedToTreasuryScaled)
    else
      var minted :- CheckedRayDiv(amountToMint, next.liquidityIndex);
      Success(r.accruedToTreasuryScaled + minted)
  }

  /** Indexes and debts moved to `time`, before the treasury takes its share. */
  function Indexed(r: Reserve, time: int): Reserve {
    var index := VariableIndexAt(r, time);
    r.(liquidityIndex := LiquidityIndexAt(r, time),
       variableBorrowIndex := index,
       totalStableDebt := TotalStableDebt(r.principalStableDebt, r.averageStableBorrowRate,
                                          r.totalStableDebtLastUpdated, time),
       totalVariableDebt := RayMul(r.scaledVariableDebt, index))
  }

  function Accrue(r: Reserve, time: int): Result<Reserve> {
    var next := Indexed(r, time);
    var treasury :- AccruedToTreasury(r, next);
    Success(next.(accruedToTreasuryScaled := treasury, lastUpdateTimestamp := time))
  }

  /** Liquidity total, usage ratios and rates recomputed from the rest of the record. */
  function Close(st: Strategy, r: Reserve): Result<Reserve> {
    var total := r.availableLiquidity + r.unbacked;
    var ratios :- UsageRatios(r.totalStableDebt, r.totalVariableDebt, r.availableLiquidity, total);
    var rates :- InterestRates(st, r.totalStableDebt, r.totalVariableDebt, r.averageStableBorrowRate,
                               r.availableLiquidity, total);
    Success(r.(totalLiquidity := total,
               borrowUsageRatio := ratios.borrowUsage, supplyUsageRatio := ratios.supplyUsage,
               liquidityRate := rates.liquidityRate, stableBorrowRate := rates.stableBorrowRate,
               variableBorrowRate := rates.variableBorrowRate))
  }

  /** The record as read back at a later time: debts have grown, nothing is written. */
  function Observe(r: Reserve, time: int): Result<Reserve> {
    var stable := TotalStableDebt(r.principalStableDebt, r.averageStableBorrowRate, r.totalStableDebtLastUpdated, time);
    var variable := RayMul(r.scaledVariableDebt,
                           NormalizedDebt(r.variableBorrowRate, r.variableBorrowIndex, r.lastUpdateTimestamp, time));
    var ratios :- UsageRatios(stable, variable, r.availableLiquidity, r.availableLiquidity + r.unbacked);
    Success(r.(totalStableDebt := stable, totalVariableDebt := variable,
               totalLiquidity := r.availableLiquidity + r.unbacked,
               borrowUsageRatio := ratios.borrowUsage, supplyUsageRatio := ratios.supplyUsage))
  }

  // ----- transactions, as seen by the reserve -----

  function AfterDeposit(st: Strategy, r: Reserve, amount: int, time: int): Result<Reserve> {
    var a :- Accrue(r, time);
    Close(st, a.(availableLiquidity := r.availableLiquidity + amount))
  }

  function WithdrawnAmount(r: Reserve, u: User, amount: int, time: int): int {
    if amount == MAX_UINT_AMOUNT then HTokenBalance(r, u, time) else amount
  }

  function AfterWithdraw(st: Strategy, r: Reserve, u: User, amount: int, time: int): Result<Reserve> {
    var a :- Accrue(r, time);
    Close(st, a.(availableLiquidity := r.availableLiquidity - WithdrawnAmount(r, u, amount, time)))
  }

  function AfterMintUnbacked(st: Strategy, r: Reserve, amount: int, time: int): Result<Reserve> {
    var a :- Accrue(r, time);
    Close(st, a.(unbacked := r.unbacked + amount,
                 averageStableBorrowRate :=
                   AverageStableRate(r.averageStableBorrowRate, r.totalStableDebt, 0, r.stableBorrowRate)))
  }

  function BackingAmount(r: Reserve, amount: int): int {
    if amount < r.unbacked then amount else r.unbacked
  }

  /** Liquidity index after a premium is shared out over everything supplied. */
  function CumulatedIndex(index: int, totalSupplied: int, premium: int): Result<int> {
    var ratio :- CheckedRayDiv(WadToRay(premium), WadToRay(totalSupplied));
    Success(RayMul(ratio + RAY, index))
  }

  function AfterBackUnbacked(st: Strategy, r: Reserve, scaledSupply: int, amount: int, fee: int,
                             protocolFee: int, time: int): Result<Reserve>
  {
    var a :- Accrue(r, time);
    var premiumToProtocol := PercentMul(fee, protocolFee);
    var supplied := RayMul(scaledSupply, a.liquidityIndex) + RayMul(a.accruedToTreasuryScaled, a.liquidityIndex);
    var index :- CumulatedIndex(a.liquidityIndex, supplied, fee - premiumToProtocol);
    var minted :- CheckedRayDiv(premiumToProtocol, index);
    var backed := BackingAmount(r, amount);
    Close(st, a.(liquidityIndex := index,
                 accruedToTreasuryScaled := a.accruedToTreasuryScaled + minted,
                 unbacked := r.unbacked - backed,
                 availableLiquidity := r.availableLiquidity + backed + fee,
                 averageStableBorrowRate :=
                   AverageStableRate(r.averageStableBorrowRate, r.totalStableDebt, 0, r.stableBorrowRate)))
  }

  function AfterBorrow(st: Strategy, r: Reserve, amount: int, mode: RateMode, time: int): Result<Reserve> {
    var a :- Accrue(r, time);
    var b := a.(availableLiquidity := r.availableLiquidity - amount);
    match mode
    case Stable =>
      Close(st, b.(principalStableDebt := a.totalStableDebt + amount,
                   totalStableDebt := a.totalStableDebt + amount,
                   averageStableBorrowRate :=
                     AverageStableRate(r.averageStableBorrowRate, a.totalStableDebt, amount, r.stableBorrowRate),
                   totalStableDebtLastUpdated := time))
    case Variable =>
      var minted :- CheckedRayDiv(amount, a.variableBorrowIndex);
      Close(st, b.(scaledVariableDebt := r.scaledVariableDebt + minted,
                   totalVariableDebt := RayMul(r.scaledVariableDebt + minted, a.variableBorrowIndex)))
  }

  function RepaidAmount(r: Reserve, u: User, amount: int, mode: RateMode, time: int): int {
    if amount != MAX_UINT_AMOUNT && amount != -MAX_UINT_AMOUNT then amount
    else if mode == Stable then UserStableDebt(u, time)
    else VariableDebtBalance(r, u, time)
  }

  /** Stable total and average rate after `amount` at `rate` is repaid; a negative
      total or average is erased. */
  function StableAfterRepay(average: int, debt: int, amount: int, rate: int): (int, int) {
    var next := AverageStableRate(average, debt, -amount, rate);
    if debt - amount < 0 || next < 0 then (0, 0) else (debt - amount, next)
  }

  function AfterRepay(st: Strategy, r: Reserve, u: User, amount: int, mode: RateMode, time: int): Result<Reserve> {
    var a :- Accrue(r, time);
    var repaid := RepaidAmount(r, u, amount, mode, time);
    var b := a.(availableLiquidity := r.availableLiquidity + repaid);
    match mode
    case Stable =>
      var (stable, average) :=
        StableAfterRepay(r.averageStableBorrowRate, a.totalStableDebt, repaid, u.stableBorrowRate);
      Close(st, b.(principalStableDebt := stable, totalStableDebt := stable, averageStableBorrowRate := average,
                   totalStableDebtLastUpdated := time))
    case Variable =>
      var burned :- CheckedRayDiv(repaid, a.variableBorrowIndex);
      Close(st, b.(scaledVariableDebt := r.scaledVariableDebt - burned,
                   totalVariableDebt := RayMul(r.scaledVariableDebt - burned, a.variableBorrowIndex)))
  }

  function AfterSwap(st: Strategy, r: Reserve, u: User, mode: RateMode, time: int): Result<Reserve> {
    var a :- Accrue(r, time);
    var variableDebt := VariableDebtBalance(r, u, time);
    var stableDebt := UserStableDebt(u, time);
    match mode
    case Stable =>
      var minted :- CheckedRayDiv(stableDebt, a.variableBorrowIndex);
      Close(st, a.(scaledVariableDebt := r.scaledVariableDebt + minted,
                   totalVariableDebt := RayMul(r.scaledVariableDebt + minted, a.variableBorrowIndex),
                   principalStableDebt := a.totalStableDebt - stableDebt,
                   totalStableDebt := a.totalStableDebt - stableDebt,
                   averageStableBorrowRate :=
                     AverageStableRate(r.averageStableBorrowRate, a.totalStableDebt, -stableDebt, u.stableBorrowRate),
                   totalStableDebtLastUpdated := time))
    case Variable =>
      var burned :- CheckedRayDiv(variableDebt, a.variableBorrowIndex);
      Close(st, a.(scaledVariableDebt := r.scaledVariableDebt - burned,
                   totalVariableDebt := RayMul(r.scaledVariableDebt - burned, a.variableBorrowIndex),
                   principalStableDebt := a.totalStableDebt + variableDebt,
                   totalStableDebt := a.totalStableDebt + variableDebt,
                   averageStableBorrowRate :=
                     AverageStableRate(r.averageStableBorrowRate, r.totalStableDebt, variableDebt, r.stableBorrowRate),
                   totalStableDebtLastUpdated := time))
  }

  // ----- transactions, as seen by the user -----

  function ScaledAfter(u: User, index: int, added: int, taken: int): Result<int> {
    var plus :- CheckedRayDiv(added, index);
    var minus :- CheckedRayDiv(taken, index);
    Success(u.scaledHTokenBalance + plus - minus)
  }

  function UserStableRate(balance: int, rate: int, amount: int, newRate: int): Result<int> {
    if balance + amount == 0 then Failure(DivisionByZero)
    else Success(TruncDiv(balance * rate + amount * newRate, balance + amount))
  }

  function UserAfterDeposit(r: Reserve, after: Reserve, u: User, amount: int, time: int): Result<User> {
    var scaled :- ScaledAfter(u, after.liquidityIndex, amount, 0);
    var variableDebt := VariableDebtBalance(r, u, time);
    Success(u.(scaledHTokenBalance := scaled,
               currentHTokenBalance := HTokenBalance(r, u, time) + amount,
               currentStableDebt := UserStableDebt(u, time),
               currentVariableDebt := variableDebt,
               principalStableDebt := variableDebt,
               liquidityRate := after.liquidityRate,
               usageAsCollateralEnabled := u.currentHTokenBalance == 0 || u.usageAsCollateralEnabled,
               walletBalance := u.walletBalance - amount))
  }

  /** Unbacked tokens are credited to their holder as a deposit's are; nothing is paid for them. */
  function UserAfterMintUnbacked(r: Reserve, after: Reserve, u: User, amount: int, time: int): Result<User> {
    var scaled :- ScaledAfter(u, after.liquidityIndex, amount, 0);
    Success(u.(scaledHTokenBalance := scaled,
               currentHTokenBalance := HTokenBalance(r, u, time) + amount))
  }

  function UserAfterWithdraw(r: Reserve, after: Reserve, u: User, amount: int, time: int): Result<User> {
    var withdrawn := WithdrawnAmount(r, u, amount, time);
    var scaled :- ScaledAfter(u, after.liquidityIndex, 0, withdrawn);
    var balance := HTokenBalance(r, u, time) - withdrawn;
    Success(u.(scaledHTokenBalance := scaled,
               currentHTokenBalance := balance,
               currentStableDebt := UserStableDebt(u, time),
               currentVariableDebt := VariableDebtBalance(r, u, time),
               liquidityRate := after.liquidityRate,
               usageAsCollateralEnabled := u.currentHTokenBalance == 0 || (balance != 0 && u.usageAsCollateralEnabled),
               walletBalance := u.walletBalance + withdrawn))
  }

  /** A variable borrower's scaled debt starts from the reserve's total, not from the user's own. */
  function UserAfterBorrow(r: Reserve, after: Reserve, u: User, amount: int, mode: RateMode,
                           time: int, current: int): Result<User>
  {
    var u1 :- match mode
              case Stable =>
                var debt := UserStableDebt(u, time);
                var rate :- UserStableRate(debt, u.stableBorrowRate, amount, r.stableBorrowRate);
                Success(u.(principalStableDebt := debt + amount,
                           stableRateLastUpdated := time,
                           stableBorrowRate := rate,
                           currentStableDebt := StableDebtBalance(debt + amount, rate, time, current)))
              case Variable =>
                var minted :- CheckedRayDiv(amount, after.variableBorrowIndex);
                Success(u.(scaledVariableDebt := r.scaledVariableDebt + minted,
                           currentStableDebt := UserStableDebt(u, current)));
    Success(u1.(currentVariableDebt := VariableDebtBalance(after, u1, current),
                liquidityRate := after.liquidityRate,
                currentHTokenBalance := HTokenBalance(after, u, current),
                walletBalance := u.walletBalance + amount))
  }

  /** The debt fields after a repayment. Those of a variable repayment's stable side
      come out exchanged: the current debt is the old principal and the principal is
      the accrued debt. */
  function UserRepaid(r: Reserve, after: Reserve, u: User, repaid: int, mode: RateMode, time: int,
                      current: int): Result<User> {
    var stableDebt := UserStableDebt(u, current);
    match mode
    case Stable =>
      var left := stableDebt - repaid;
      Success(u.(currentVariableDebt := VariableDebtBalance(r, u, current),
                 principalStableDebt := left, currentStableDebt := left,
                 stableBorrowRate := if left == 0 then 0 else u.stableBorrowRate,
                 stableRateLastUpdated := if left == 0 then 0 else time))
    case Variable =>
      var burned :- CheckedRayDiv(repaid, after.variableBorrowIndex);
      Success(u.(currentStableDebt := u.principalStableDebt,
                 principalStableDebt := stableDebt,
                 scaledVariableDebt := u.scaledVariableDebt - burned,
                 currentVariableDebt := RayMul(u.scaledVariableDebt - burned, after.variableBorrowIndex)))
  }

  function UserAfterRepay(r: Reserve, after: Reserve, u: User, amount: int, mode: RateMode, ownDebt: bool,
                          time: int, current: int): Result<User>
  {
    var repaid := RepaidAmount(r, u, amount, mode, current);
    var u1 :- UserRepaid(r, after, u, repaid, mode, time, current);
    Success(u1.(liquidityRate := after.liquidityRate,
                currentHTokenBalance := HTokenBalance(r, u, time),
                walletBalance := if ownDebt then u.walletBalance - repaid else u.walletBalance))
  }

  function UserAfterSwap(r: Reserve, after: Reserve, u: User, mode: RateMode, time: int): Result<User> {
    var stableDebt := UserStableDebt(u, time);
    var variableDebt := VariableDebtBalance(r, u, time);
    var u1 := u.(currentHTokenBalance := HTokenBalance(r, u, time), liquidityRate := after.liquidityRate);
    match mode
    case Stable =>
      var minted :- CheckedRayDiv(stableDebt, after.variableBorrowIndex);
      Success(u1.(currentStableDebt := 0, principalStableDebt := 0, stableBorrowRate := 0, stableRateLastUpdated := 0,
                  scaledVariableDebt := u.scaledVariableDebt + minted,
                  currentVariableDebt := RayMul(u.scaledVariableDebt + minted, after.variableBorrowIndex)))
    case Variable =>
      var rate :- UserStableRate(stableDebt, u.stableBorrowRate, variableDebt, r.stableBorrowRate);
      Success(u1.(principalStableDebt := u.currentStableDebt + variableDebt,
                  currentStableDebt := u.currentStableDebt + variableDebt,
                  stableBorrowRate := rate, stableRateLastUpdated := time,
                  currentVariableDebt := 0, scaledVariableDebt := 0))
  }
}
