/** What every transaction keeps: the state invariant of a reserve, the growth
    of its indexes and of the treasury, and that no run-time check fails. */
module Invariant {
  import opened Arithmetic
  import opened WadRayMath
  import opened Interest
  import opened Compounding
  import opened Failures
  import opened Rates
  import opened Reserves

  /** Stable and variable debt as of the last update. */
  function StableAtUpdate(r: Reserve): int {
    TotalStableDebt(r.principalStableDebt, r.averageStableBorrowRate, r.totalStableDebtLastUpdated,
                    r.lastUpdateTimestamp)
  }

  function VariableAtUpdate(r: Reserve): int {
    RayMul(r.scaledVariableDebt, r.variableBorrowIndex)
  }

  /** The fields that every other field is computed from. */
  ghost predicate Sound(st: Strategy, r: Reserve) {
    && st.Valid() && r.reserveFactor == st.reserveFactor
    && RAY <= r.liquidityIndex && RAY <= r.variableBorrowIndex
    && 0 <= r.availableLiquidity && 0 <= r.unbacked && 0 <= r.accruedToTreasuryScaled
    && 0 <= r.scaledVariableDebt && 0 <= r.principalStableDebt && 0 <= r.averageStableBorrowRate
    && 0 <= r.totalStableDebtLastUpdated <= r.lastUpdateTimestamp
    && (r.totalStableDebtLastUpdated == 0 ==> r.principalStableDebt == 0)
  }

  /** The debts the record stood at when it was last updated. */
  ghost predicate OwedAtUpdate(r: Reserve, stable: int, variable: int) {
    stable == StableAtUpdate(r) && variable == VariableAtUpdate(r)
  }

  /** The supply rate is what borrowers pay on these debts, shared out. */
  ghost predicate PaysOut(st: Strategy, r: Reserve, stable: int, variable: int) {
    var usage := Usage(stable + variable, r.availableLiquidity + r.unbacked);
    && usage.Success?
    && r.liquidityRate
       == LiquidityRate(OverallBorrowRate(stable, variable, r.variableBorrowRate, r.averageStableBorrowRate),
                        usage.value, st.reserveFactor)
  }

  /** The supply rate is the one that the debts of the last update imply. */
  ghost predicate SupplyRateImplied(st: Strategy, r: Reserve) {
    forall stable, variable | OwedAtUpdate(r, stable, variable) :: PaysOut(st, r, stable, variable)
  }

  lemma SupplyRateIff(st: Strategy, r: Reserve)
    ensures SupplyRateImplied(st, r) <==> PaysOut(st, r, StableAtUpdate(r), VariableAtUpdate(r))
  {
    hide PaysOut, StableAtUpdate, VariableAtUpdate;
    assert OwedAtUpdate(r, StableAtUpdate(r), VariableAtUpdate(r));
  }

  ghost predicate Valid(st: Strategy, r: Reserve) {
    && Sound(st, r)
    && 0 <= r.liquidityRate && 0 <= r.stableBorrowRate && 0 <= r.variableBorrowRate
    && SupplyRateImplied(st, r)
  }

  /** `seen` is what the record reads as at `time`. */
  ghost predicate Reads(r: Reserve, time: int, seen: Reserve) {
    Observe(r, time) == Success(seen)
  }

  /** The two records differ at most in what a reading derives. */
  ghost predicate SameStored(a: Reserve, b: Reserve) {
    a.(totalStableDebt := b.totalStableDebt, totalVariableDebt := b.totalVariableDebt,
       totalLiquidity := b.totalLiquidity,
       borrowUsageRatio := b.borrowUsageRatio, supplyUsageRatio := b.supplyUsageRatio)
    == b
  }

  /** The debts, totals and ratios are those of `time`: whatever is stored like `r` reads as `r`. */
  ghost predicate SeenAt(r: Reserve, time: int) {
    && r.lastUpdateTimestamp <= time
    && forall stored: Reserve | SameStored(stored, r) :: Reads(stored, time, r)
  }

  lemma SeenIff(r: Reserve, time: int)
    ensures SeenAt(r, time) <==> r.lastUpdateTimestamp <= time && Observe(r, time) == Success(r)
  {
    hide UsageRatios, RayMul, TotalStableDebt, NormalizedDebt;
    assert SameStored(r, r);
    if Observe(r, time) == Success(r) {
      forall stored: Reserve | SameStored(stored, r)
        ensures Reads(stored, time, r)
      {
      }
    }
  }

  ghost predicate ValidAt(st: Strategy, r: Reserve, time: int) {
    Valid(st, r) && SeenAt(r, time)
  }

  // ----- balances never shrink -----

  lemma LinearAtLeastRay(rate: int, time: int, last: int)
    requires 0 <= rate && last <= time
    ensures RAY <= LinearInterest(rate, time, last)
    ensures time == last ==> LinearInterest(rate, time, last) == RAY
  {
    MulLe(0, rate, time - last);
  }

  lemma NormalizedDebtGrows(rate: int, index: int, last: int, early: int, late: int)
    requires 0 <= rate && RAY <= index && last <= early <= late
    ensures index <= NormalizedDebt(rate, index, last, early) <= NormalizedDebt(rate, index, last, late)
    ensures NormalizedDebt(rate, index, last, last) == index
  {
    if rate != 0 {
      CompoundedMonotone(rate, early, late, last);
      hide CompoundedInterest;
      var c, d := CompoundedInterest(rate, early, last), CompoundedInterest(rate, late, last);
      RayMulGrows(c, index);
      RayMulMonotone(c, index, d, index);
      RayMulIdentity(index);
      assert CompoundedInterest(rate, last, last) == RAY by { CompoundedAtOnce(rate, last); }
    }
  }

  lemma CompoundedAtOnce(rate: int, time: int)
    ensures CompoundedInterest(rate, time, time) == RAY
  {
  }

  lemma TotalStableGrows(principal: int, rate: int, last: int, early: int, late: int)
    requires 0 <= principal && 0 <= rate && last <= early <= late
    ensures principal <= TotalStableDebt(principal, rate, last, early) <= TotalStableDebt(principal, rate, last, late)
    ensures TotalStableDebt(principal, rate, last, last) == principal
    ensures TotalStableDebt(0, rate, last, early) == 0
  {
    CompoundedMonotone(rate, early, late, last);
    CompoundedAtOnce(rate, last);
    hide CompoundedInterest;
    var c, d := CompoundedInterest(rate, early, last), CompoundedInterest(rate, late, last);
    RayMulGrows(c, principal);
    RayMulMonotone(c, principal, d, principal);
    RayMulIdentity(principal);
    RayMulIdentity(c);
  }

  /** Reading the record back later keeps it valid and never fails. */
  lemma ObserveKeepsValid(st: Strategy, r: Reserve, time: int)
    requires Valid(st, r) && r.lastUpdateTimestamp <= time
    ensures Observe(r, time).Success? && ValidAt(st, Observe(r, time).value, time)
  {
    hide TotalStableDebt, NormalizedDebt, UsageRatios, RayMul, Usage, OverallBorrowRate, LiquidityRate;
    TotalStableGrows(r.principalStableDebt, r.averageStableBorrowRate, r.totalStableDebtLastUpdated,
                     r.lastUpdateTimestamp, time);
    NormalizedDebtGrows(r.variableBorrowRate, r.variableBorrowIndex, r.lastUpdateTimestamp, time, time);
    var stable := TotalStableDebt(r.principalStableDebt, r.averageStableBorrowRate, r.totalStableDebtLastUpdated, time);
    var index := NormalizedDebt(r.variableBorrowRate, r.variableBorrowIndex, r.lastUpdateTimestamp, time);
    RayMulMonotone(0, 0, r.scaledVariableDebt, index);
    RayMulMonotone(r.scaledVariableDebt, index, r.scaledVariableDebt, index);
    UsageCheckPasses(stable, RayMul(r.scaledVariableDebt, index), r.availableLiquidity,
                     r.availableLiquidity + r.unbacked);
    var seen := Observe(r, time).value;
    SupplyRateIff(st, r);
    SupplyRateIff(st, seen);
    SeenIff(seen, time);
  }

  /** Both usage ratios lie between 0 and a ray, the supply ratio below the borrow ratio. */
  ghost predicate UsageBounded(r: Reserve) {
    0 <= r.supplyUsageRatio <= r.borrowUsageRatio <= RAY
  }

  lemma UsageStaysBounded(st: Strategy, r: Reserve, time: int)
    requires ValidAt(st, r, time)
    ensures UsageBounded(r)
  {
    hide TotalStableDebt, NormalizedDebt, RayMul, Usage, SupplyRateImplied;
    SeenIff(r, time);
    TotalStableGrows(r.principalStableDebt, r.averageStableBorrowRate, r.totalStableDebtLastUpdated,
                     r.lastUpdateTimestamp, time);
    NormalizedDebtGrows(r.variableBorrowRate, r.variableBorrowIndex, r.lastUpdateTimestamp, time, time);
    var stable := TotalStableDebt(r.principalStableDebt, r.averageStableBorrowRate, r.totalStableDebtLastUpdated, time);
    var index := NormalizedDebt(r.variableBorrowRate, r.variableBorrowIndex, r.lastUpdateTimestamp, time);
    RayMulMonotone(0, 0, r.scaledVariableDebt, index);
    UsageCheckPasses(stable, RayMul(r.scaledVariableDebt, index), r.availableLiquidity,
                     r.availableLiquidity + r.unbacked);
  }

  // ----- accrual -----

  /** With no variable debt on the books no user owes any, so both guards on the
      borrow index give the same debt; otherwise they are the same guard. */
  lemma IndexGuardsAgree(st: Strategy, r: Reserve, seen: int, time: int, scaled: int)
    requires ValidAt(st, r, seen) && r.lastUpdateTimestamp <= time && 0 <= scaled <= r.scaledVariableDebt
    ensures r.variableBorrowIndex <= VariableIndexAt(r, time)
    ensures RayMul(scaled, VariableIndexAt(r, time))
         == RayMul(scaled, NormalizedDebt(r.variableBorrowRate, r.variableBorrowIndex, r.lastUpdateTimestamp, time))
  {
    hide RayMul, CompoundedInterest, SupplyRateImplied, UsageRatios, TotalStableDebt;
    SeenIff(r, seen);
    var index, last := r.variableBorrowIndex, r.lastUpdateTimestamp;
    NormalizedDebtGrows(r.variableBorrowRate, index, last, seen, seen);
    NormalizedDebtGrows(r.variableBorrowRate, index, last, time, time);
    if r.totalVariableDebt == 0 {
      NothingOwed(r.scaledVariableDebt, NormalizedDebt(r.variableBorrowRate, index, last, seen));
      RayMulIdentity(index);
      RayMulIdentity(NormalizedDebt(r.variableBorrowRate, index, last, time));
    } else if r.variableBorrowRate == 0 {
      ZeroRateCompounds(time, last);
      RayMulIdentity(index);
    }
  }

  lemma NothingOwed(scaled: int, index: int)
    requires 0 <= scaled && RAY <= index && RayMul(scaled, index) == 0
    ensures scaled == 0
  {
    RayMulGrows(index, scaled);
    RayMulSymmetric(scaled, index);
  }

  lemma RayMulSymmetric(a: int, b: int)
    ensures RayMul(a, b) == RayMul(b, a)
  {
    assert a * b == b * a;
  }

  lemma ZeroRateCompounds(time: int, last: int)
    requires last <= time
    ensures CompoundedInterest(0, time, last) == RAY
  {
    CompoundedIsBinomial(0, time, last);
    assert BasePowerTwo(0) == 0;
    assert BasePowerThree(0) == 0;
  }

  /** Likewise for the supply index: a zero usage ratio means a zero supply rate. */
  lemma IncomeGuardsAgree(st: Strategy, r: Reserve, seen: int, time: int)
    requires ValidAt(st, r, seen) && r.lastUpdateTimestamp <= time
    ensures LiquidityIndexAt(r, time) == NormalizedIncome(r, time)
    ensures r.liquidityIndex <= LiquidityIndexAt(r, time)
  {
    hide SupplyRateImplied, RayMul, LinearInterest, UsageRatios, TotalStableDebt, NormalizedDebt;
    LinearAtLeastRay(r.liquidityRate, time, r.lastUpdateTimestamp);
    RayMulGrows(LinearInterest(r.liquidityRate, time, r.lastUpdateTimestamp), r.liquidityIndex);
    if r.supplyUsageRatio == 0 {
      ZeroUsageZeroRate(st, r, seen);
    } else if r.liquidityRate == 0 {
      ZeroRateLinear(time, r.lastUpdateTimestamp);
      RayMulIdentity(r.liquidityIndex);
    }
  }

  lemma ZeroRateLinear(time: int, last: int)
    ensures LinearInterest(0, time, last) == RAY
  {
  }

  lemma ZeroUsageZeroRate(st: Strategy, r: Reserve, seen: int)
    requires ValidAt(st, r, seen) && r.supplyUsageRatio == 0
    ensures r.liquidityRate == 0
  {
    hide TotalStableDebt, NormalizedDebt, RayMul, PercentMul, OverallBorrowRate, RayDiv, LiquidityRate, Usage;
    SeenIff(r, seen);
    SupplyRateIff(st, r);
    TotalStableGrows(r.principalStableDebt, r.averageStableBorrowRate, r.totalStableDebtLastUpdated,
                     r.lastUpdateTimestamp, seen);
    NormalizedDebtGrows(r.variableBorrowRate, r.variableBorrowIndex, r.lastUpdateTimestamp, seen, seen);
    var index := NormalizedDebt(r.variableBorrowRate, r.variableBorrowIndex, r.lastUpdateTimestamp, seen);
    RayMulMonotone(0, 0, r.scaledVariableDebt, r.variableBorrowIndex);
    RayMulMonotone(r.scaledVariableDebt, r.variableBorrowIndex, r.scaledVariableDebt, index);
    ZeroUsageDownward(StableAtUpdate(r) + VariableAtUpdate(r), r.totalStableDebt + r.totalVariableDebt,
                      r.availableLiquidity + r.unbacked);
    OverallRateNonNegative(StableAtUpdate(r), VariableAtUpdate(r), r.variableBorrowRate, r.averageStableBorrowRate);
    ZeroShareZeroRate(OverallBorrowRate(StableAtUpdate(r), VariableAtUpdate(r),
                                        r.variableBorrowRate, r.averageStableBorrowRate), st.reserveFactor);
  }

  lemma ZeroShareZeroRate(overall: int, reserveFactor: int)
    requires 0 <= overall
    ensures LiquidityRate(overall, 0, reserveFactor) == 0
  {
    RayMulIdentity(overall);
    assert PercentMul(0, PERCENTAGE_FACTOR - reserveFactor) == 0;
  }

  lemma StableTwoWays(r: Reserve)
    ensures RayMul(r.principalStableDebt,
                   CompoundedInterest(r.averageStableBorrowRate, r.lastUpdateTimestamp, r.totalStableDebtLastUpdated))
         == StableAtUpdate(r)
  {
    RayMulSymmetric(r.principalStableDebt,
                    CompoundedInterest(r.averageStableBorrowRate, r.lastUpdateTimestamp, r.totalStableDebtLastUpdated));
    hide RayMul, CompoundedInterest;
  }

  /** Accrual succeeds, no index and no debt shrinks, and the treasury takes a
      non-negative share that never exceeds what the debts earned. */
  lemma AccrueGrows(st: Strategy, r: Reserve, seen: int, time: int)
    requires ValidAt(st, r, seen) && r.lastUpdateTimestamp <= time
    ensures Accrue(r, time).Success?
    ensures var a := Accrue(r, time).value;
            && r.liquidityIndex <= a.liquidityIndex && r.variableBorrowIndex <= a.variableBorrowIndex
            && r.accruedToTreasuryScaled <= a.accruedToTreasuryScaled
            && StableAtUpdate(r) <= a.totalStableDebt && VariableAtUpdate(r) <= a.totalVariableDebt
            && 0 <= PercentMul(DebtAccrued(r, a), r.reserveFactor) <= DebtAccrued(r, a)
  {
    IndexGuardsAgree(st, r, seen, time, r.scaledVariableDebt);
    IncomeGuardsAgree(st, r, seen, time);
    TotalStableGrows(r.principalStableDebt, r.averageStableBorrowRate, r.totalStableDebtLastUpdated,
                     r.lastUpdateTimestamp, time);
    hide LiquidityIndexAt, VariableIndexAt, RayMul, CompoundedInterest, PercentMul, RayDiv;
    var next := Indexed(r, time);
    RayMulMonotone(r.scaledVariableDebt, r.variableBorrowIndex, r.scaledVariableDebt, next.variableBorrowIndex);
    RayMulSymmetric(r.principalStableDebt,
                    CompoundedInterest(r.averageStableBorrowRate, r.lastUpdateTimestamp, r.totalStableDebtLastUpdated));
    var amount := PercentMul(DebtAccrued(r, next), r.reserveFactor);
    PercentMulAgainstWhole(DebtAccrued(r, next), r.reserveFactor);
    PercentMulRounds(DebtAccrued(r, next), r.reserveFactor);
    RayDivRounds(amount, next.liquidityIndex);
    assert Accrue(r, time).Success?;
    assert DebtAccrued(r, Accrue(r, time).value) == DebtAccrued(r, next);
  }

  // ----- closing a record -----

  /** What a transaction must leave for the closing recomputation to be sound. */
  ghost predicate Ready(st: Strategy, r: Reserve) {
    && Sound(st, r)
    && r.totalStableDebt == StableAtUpdate(r)
    && r.totalVariableDebt == VariableAtUpdate(r)
  }

  lemma CloseKeepsValid(st: Strategy, r: Reserve)
    requires Ready(st, r)
    ensures Close(st, r).Success? && ValidAt(st, Close(st, r).value, r.lastUpdateTimestamp)
  {
    hide NormalizedDebt, TotalStableDebt, RayMul, Usage, VariableRate, StableRate, OverallBorrowRate, LiquidityRate,
         StableToTotalRatio;
    var total := r.availableLiquidity + r.unbacked;
    TotalStableGrows(r.principalStableDebt, r.averageStableBorrowRate, r.totalStableDebtLastUpdated,
                     r.lastUpdateTimestamp, r.lastUpdateTimestamp);
    RayMulMonotone(0, 0, r.scaledVariableDebt, r.variableBorrowIndex);
    RatesDefined(st, r.totalStableDebt, r.totalVariableDebt, r.averageStableBorrowRate, r.availableLiquidity, total);
    UsageCheckPasses(r.totalStableDebt, r.totalVariableDebt, r.availableLiquidity, total);
    var c := Close(st, r).value;
    NormalizedDebtGrows(c.variableBorrowRate, c.variableBorrowIndex, c.lastUpdateTimestamp,
                        c.lastUpdateTimestamp, c.lastUpdateTimestamp);
    SupplyRateIff(st, c);
    SeenIff(c, c.lastUpdateTimestamp);
  }

  // ----- where runs start -----

  /** A reserve nobody has used yet. */
  function FreshReserve(st: Strategy, time: int): Reserve {
    Reserve(st.reserveFactor, 0, 0, 0, 0, 0, 0, 0, 0, 0, 0, 0, 0, 0, RAY, RAY, 0, time, 0)
  }

  lemma FreshReserveIsValid(st: Strategy, time: int)
    requires st.Valid() && 0 <= time
    ensures ValidAt(st, FreshReserve(st, time), time)
  {
    var r := FreshReserve(st, time);
    TotalStableGrows(0, 0, 0, time, time);
    RayMulIdentity(RAY);
    ZeroShareZeroRate(0, st.reserveFactor);
    hide TotalStableDebt, RayMul, LiquidityRate;
    assert StableAtUpdate(r) == 0 && VariableAtUpdate(r) == 0;
    SupplyRateIff(st, r);
    SeenIff(r, time);
  }

  // ----- the two stable-debt formulas -----

  /** They agree when a debt without a timestamp is no debt. */
  lemma StableFormulasAgree(principal: int, rate: int, last: int, time: int)
    requires 0 <= principal && 0 <= rate && last <= time && (last == 0 ==> principal == 0)
    ensures StableDebtBalance(principal, rate, last, time) == TotalStableDebt(principal, rate, last, time)
  {
    TotalStableGrows(principal, rate, last, time, time);
    if rate == 0 {
      ZeroRateCompounds(time, last);
      RayMulIdentity(principal);
    }
    RayMulSymmetric(principal, CompoundedInterest(rate, time, last));
    hide CompoundedInterest, RayMul;
  }

  /** They agree at every rate and every later time exactly when a debt without a
      timestamp is no debt: one formula never starts such a debt's interest. */
  lemma StableFormulasAgreeIff(principal: int, last: int)
    requires 0 <= principal
    ensures (forall rate, time | 0 <= rate && last <= time ::
               StableDebtBalance(principal, rate, last, time) == TotalStableDebt(principal, rate, last, time))
        <==> (last == 0 ==> principal == 0)
  {
    hide StableDebtBalance, TotalStableDebt;
    if last == 0 ==> principal == 0 {
      forall rate, time | 0 <= rate && last <= time
        ensures StableDebtBalance(principal, rate, last, time) == TotalStableDebt(principal, rate, last, time)
      {
        StableFormulasAgree(principal, rate, last, time);
      }
    } else {
      UnstampedDebtGrows(principal);
    }
  }

  /** A debt stamped 0, a year later at a rate of one ray: doubled or untouched. */
  lemma UnstampedDebtGrows(principal: int)
    requires 0 < principal
    ensures StableDebtBalance(principal, RAY, 0, ONE_YEAR) == principal
    ensures TotalStableDebt(principal, RAY, 0, ONE_YEAR) >= 2 * principal
  {
    var c := CompoundedInterest(RAY, ONE_YEAR, 0);
    CompoundedAtLeastLinear(RAY, ONE_YEAR, 0);
    assert LinearInterest(RAY, ONE_YEAR, 0) == 2 * RAY;
    hide CompoundedInterest;
    MulLe(2 * RAY, c, principal);
    RayMulRounds(c, principal);
    RoundsAtLeast(RayMul(c, principal), c * principal, RAY, 2 * principal);
  }
}
