/** Suppliers and the treasury are never promised more than the reserve holds and
    is owed: linear interest paid on one side, compound interest earned on the
    other, joined by the rate curve, up to the roundings spelled out here. */
module Solvency {
  import opened Arithmetic
  import opened WadRayMath
  import opened Interest
  import opened Compounding
  import opened Failures
  import opened Rates
  import opened Reserves
  import opened Invariant
  import opened Transactions
  import opened Runs

  /** Everything promised, in rays: the suppliers' and the treasury's scaled balances. */
  ghost function Claims(r: Reserve, supply: int): int {
    (supply + r.accruedToTreasuryScaled) * r.liquidityIndex
  }

  /** All debt as of the last update. */
  ghost function DebtAtUpdate(r: Reserve): int {
    StableAtUpdate(r) + VariableAtUpdate(r)
  }

  /** Everything held or owed as of the last update. */
  ghost function Assets(r: Reserve): int {
    r.availableLiquidity + r.unbacked + DebtAtUpdate(r)
  }

  /** Elapsed time in years. */
  ghost function Years(r: Reserve, time: int): real {
    (time - r.lastUpdateTimestamp) as real / Y
  }

  /** The linear interest, in rays per ray supplied, since the last update. */
  ghost function SupplyGrowth(r: Reserve, time: int): real {
    r.liquidityRate as real * Years(r, time)
  }

  ghost function OverallRate(r: Reserve): int {
    OverallBorrowRate(StableAtUpdate(r), VariableAtUpdate(r), r.variableBorrowRate, r.averageStableBorrowRate)
  }

  /** What borrowers pay per year, in rays. */
  ghost function Payments(r: Reserve): real {
    StableAtUpdate(r) as real * r.averageStableBorrowRate as real
    + VariableAtUpdate(r) as real * r.variableBorrowRate as real
  }

  /** Rounding in the yearly supply rate, weighted by all the liquidity it is paid on. */
  ghost function RateSlack(debt: real, pool: real, overall: real): real {
    debt / 2.0 + WAD as real + (overall / R + 1.0) * pool / 2.0 + pool / 2.0
  }

  /** Rounding in the variable debt's growth. */
  ghost function DebtSlack(r: Reserve, time: int): real {
    VariableAtUpdate(r) as real
    + CompoundedInterest(r.variableBorrowRate, time, r.lastUpdateTimestamp) as real / 2.0
    + r.scaledVariableDebt as real / 2.0 + R / 2.0
  }

  /** What the stable debt's growth falls short of its average rate: roundings, and the
      fourth-order term of compounding since the debt's own time stamp. */
  ghost function StableSlack(r: Reserve, time: int): real {
    var early, late := r.lastUpdateTimestamp - r.totalStableDebtLastUpdated, time - r.lastUpdateTimestamp;
    if r.principalStableDebt == 0 || early < 0 || late < 0 then 0.0
    else
      PaceSlack(r.principalStableDebt, PaceFloors(early, late),
                Triples(early) * BasePowerThree(r.averageStableBorrowRate),
                r.averageStableBorrowRate * late)
  }

  ghost function PaceSlack(principal: int, floors: int, fourth: int, interest: int): real {
    R + interest as real / (2.0 * Y) + (principal * floors) as real
      + (principal * (fourth * interest)) as real / (R * Y)
  }

  /** Everything one accrual can promise beyond what it earns, in rays. */
  ghost function AccrualSlack(r: Reserve, supply: int, deficit: real, time: int): real {
    DebtSlack(r, time) + StableSlack(r, time)
    + (supply + r.accruedToTreasuryScaled) as real / 2.0 + LiquidityIndexAt(r, time) as real / 2.0 + R / 2.0
    + Years(r, time) * RateSlack(DebtAtUpdate(r) as real, Assets(r) as real, OverallRate(r) as real)
    + SupplyGrowth(r, time) * deficit / R
  }

  // ----- the four parts of the argument -----

  /** Linear interest on everything promised. */
  lemma IncomeGrowth(st: Strategy, r: Reserve, seen: int, time: int, supply: int)
    requires ValidAt(st, r, seen) && r.lastUpdateTimestamp <= time && 0 <= supply
    ensures (supply + r.accruedToTreasuryScaled) as real * (LiquidityIndexAt(r, time) - r.liquidityIndex) as real
         <= SupplyGrowth(r, time) * (Claims(r, supply) as real / R)
            + (supply + r.accruedToTreasuryScaled) as real / 2.0
  {
    hide SupplyRateImplied, Observe, RayMul, NormalizedIncome, LinearInterest, SupplyGrowth, Claims, Rounds;
    IncomeGuardsAgree(st, r, seen, time);
    var linear := LinearInterest(r.liquidityRate, time, r.lastUpdateTimestamp);
    LinearAtLeastRay(r.liquidityRate, time, r.lastUpdateTimestamp);
    GrowthIsLinear(r, time);
    ClaimsAsReal(r, supply);
    var scaled, index, next := supply + r.accruedToTreasuryScaled, r.liquidityIndex, LiquidityIndexAt(r, time);
    if r.supplyUsageRatio != 0 {
      RayMulRounds(linear, index);
      RoundsAsReal(next, linear, index, RAY);
    }
    IndexStep(scaled as real, index as real, next as real, linear as real, SupplyGrowth(r, time),
              Claims(r, supply) as real);
  }

  lemma ClaimsAsReal(r: Reserve, supply: int)
    ensures Claims(r, supply) as real == (supply + r.accruedToTreasuryScaled) as real * r.liquidityIndex as real
  {
    ProductAsReal(supply + r.accruedToTreasuryScaled, r.liquidityIndex);
  }

  lemma GrowthIsLinear(r: Reserve, time: int)
    requires 0 <= r.liquidityRate && r.lastUpdateTimestamp <= time
    ensures 0.0 <= SupplyGrowth(r, time)
    ensures LinearInterest(r.liquidityRate, time, r.lastUpdateTimestamp) as real <= R + SupplyGrowth(r, time)
  {
    hide LinearInterest;
    LinearBelowIdeal(r.liquidityRate, time, r.lastUpdateTimestamp);
    NonNegativeProduct(r.liquidityRate as real, Years(r, time));
  }

  lemma NonNegativeProduct(a: real, b: real)
    requires 0.0 <= a && 0.0 <= b
    ensures 0.0 <= a * b
  {
  }

  lemma LinearBelowIdeal(rate: int, time: int, last: int)
    requires 0 <= rate && last <= time
    ensures LinearInterest(rate, time, last) as real <= R + rate as real * ((time - last) as real / Y)
  {
    MulLe(0, rate, time - last);
    var n := rate * (time - last);
    var q := n / ONE_YEAR;
    assert q * ONE_YEAR <= n;
    ProductAsReal(rate, time - last);
    assert rate as real * ((time - last) as real / Y) == (rate as real * (time - last) as real) / Y;
  }

  lemma IndexStep(scaled: real, index: real, next: real, linear: real, paid: real, claims: real)
    requires claims == scaled * index
    requires 0.0 <= scaled && 0.0 <= index && 0.0 <= paid && linear <= R + paid
    requires next == index || next * R <= linear * index + R / 2.0
    ensures scaled * (next - index) <= paid * (claims / R) + scaled / 2.0
  {
    assert 0.0 <= scaled * index;
    NonNegativeProduct(paid, claims / R);
    if next != index {
      RealMulLe(linear, R + paid, index);
      assert (next - index) * R <= paid * index + R / 2.0;
      RealMulLe((next - index) * R, paid * index + R / 2.0, scaled);
      assert (paid * index + R / 2.0) * scaled == R * (paid * (claims / R) + scaled / 2.0);
      assert (next - index) * R * scaled == R * (scaled * (next - index));
    }
  }

  /** Compound interest on the scaled debt. */
  lemma DebtGrowth(st: Strategy, r: Reserve, seen: int, time: int)
    requires ValidAt(st, r, seen) && r.lastUpdateTimestamp <= time
    requires Accrue(r, time).Success?
    ensures VariableAtUpdate(r) as real * r.variableBorrowRate as real * Years(r, time)
         <= R * (Accrue(r, time).value.totalVariableDebt - VariableAtUpdate(r)) as real + DebtSlack(r, time)
  {
    hide SupplyRateImplied, UsageRatios, RayMul, CompoundedInterest, LinearInterest, TotalStableDebt, Accrue,
         NormalizedDebt;
    SeenIff(r, seen);
    AccrueCarries(r, time);
    var rate, last, scaled := r.variableBorrowRate, r.lastUpdateTimestamp, r.scaledVariableDebt;
    CompoundedAtLeastLinear(rate, time, last);
    CompoundedMonotone(rate, last, time, last);
    LinearAboveIdeal(rate, time, last);
    NormalizedDebtGrows(rate, r.variableBorrowIndex, last, seen, seen);
    if r.totalVariableDebt == 0 {
      NothingOwed(scaled, NormalizedDebt(rate, r.variableBorrowIndex, last, seen));
      RayMulIdentity(r.variableBorrowIndex);
    } else {
      hide Valid, SeenAt;
      DebtGrowthOf(scaled, r.variableBorrowIndex, CompoundedInterest(rate, time, last), rate, Years(r, time));
    }
  }

  lemma DebtGrowthOf(scaled: int, index: int, comp: int, rate: int, years: real)
    requires 0 <= scaled && 0 <= index && RAY <= comp && comp as real >= R + rate as real * years - 1.0
    ensures var before, after := RayMul(scaled, index), RayMul(scaled, RayMul(comp, index));
            before as real * rate as real * years
            <= R * (after - before) as real + (before as real + comp as real / 2.0 + scaled as real / 2.0 + R / 2.0)
  {
    hide RayMul, Rounds;
    RayMulRounds(comp, index);
    RayMulRounds(scaled, index);
    var next := RayMul(comp, index);
    RayMulRounds(scaled, next);
    RoundsAsReal(next, comp, index, RAY);
    RoundsAsReal(RayMul(scaled, index), scaled, index, RAY);
    RoundsAsReal(RayMul(scaled, next), scaled, next, RAY);
    DebtStep(scaled as real, index as real, next as real, comp as real, RayMul(scaled, index) as real,
             RayMul(scaled, next) as real, rate as real, years);
  }

  lemma LinearAboveIdeal(rate: int, time: int, last: int)
    requires 0 <= rate && last <= time
    ensures LinearInterest(rate, time, last) as real >= R + rate as real * ((time - last) as real / Y) - 1.0
  {
    MulLe(0, rate, time - last);
    var n := rate * (time - last);
    var q := n / ONE_YEAR;
    assert n < q * ONE_YEAR + ONE_YEAR;
    ProductAsReal(rate, time - last);
    assert rate as real * ((time - last) as real / Y) == (rate as real * (time - last) as real) / Y;
  }

  lemma DebtStep(scaled: real, index: real, next: real, comp: real, before: real, after: real,
                 rate: real, years: real)
    requires 0.0 <= scaled && 0.0 <= before && R <= comp && R + rate * years - 1.0 <= comp
    requires next * R >= comp * index - R / 2.0
    requires before * R <= scaled * index + R / 2.0
    requires after * R >= scaled * next - R / 2.0
    ensures before * rate * years <= R * (after - before) + before + comp / 2.0 + scaled / 2.0 + R / 2.0
  {
    var earned := rate * years;
    RealMulLe(comp * index - R / 2.0, next * R, scaled);
    assert scaled * (next * R) == R * (scaled * next);
    assert (comp * index - R / 2.0) * scaled == comp * (scaled * index) - R * scaled / 2.0;
    RealMulLe(before * R - R / 2.0, scaled * index, comp);
    assert (before * R - R / 2.0) * comp == R * (comp * before - comp / 2.0);
    assert R * after >= comp * before - comp / 2.0 - scaled / 2.0 - R / 2.0;
    RealMulLe(R + earned - 1.0, comp, before);
    assert before * rate * years == earned * before;
  }

  /** Compound interest on the stable principal, running since the debt's own time stamp. */
  lemma StableGrowth(st: Strategy, r: Reserve, time: int)
    requires Valid(st, r) && r.lastUpdateTimestamp <= time
    ensures StableAtUpdate(r) as real * r.averageStableBorrowRate as real * Years(r, time)
         <= R * (StableAccrued(r, time) - StableAtUpdate(r)) as real + StableSlack(r, time)
  {
    hide SupplyRateImplied, RayMul, CompoundedInterest, VariableAtUpdate, PaceSlack, Rounds, PaceFloors, Triples,
         BasePowerThree;
    var principal, rate, stamp, last :=
      r.principalStableDebt, r.averageStableBorrowRate, r.totalStableDebtLastUpdated, r.lastUpdateTimestamp;
    CompoundedMonotone(rate, last, time, stamp);
    var before, after := CompoundedInterest(rate, last, stamp), CompoundedInterest(rate, time, stamp);
    if principal == 0 {
      RayMulIdentity(before);
      RayMulIdentity(after);
    } else {
      InterestKeepsPace(rate, stamp, last, time);
      RayMulRounds(before, principal);
      RayMulRounds(after, principal);
      MulLe(0, rate, time - last);
      StableGrowthOf(principal, before, after, StableAtUpdate(r), StableAccrued(r, time), rate * (time - last),
                     PaceFloors(last - stamp, time - last), Triples(last - stamp) * BasePowerThree(rate));
      InterestOverYears(StableAtUpdate(r), rate, time - last);
    }
  }

  lemma InterestOverYears(debt: int, rate: int, seconds: int)
    ensures debt as real * rate as real * (seconds as real / Y) == debt as real * (rate * seconds) as real / Y
  {
    ProductAsReal(rate, seconds);
  }

  lemma StableGrowthOf(principal: int, early: int, late: int, before: int, after: int, interest: int, floors: int,
                       fourth: int)
    requires 0 <= principal && 0 <= interest
    requires Rounds(before, early * principal, RAY) && Rounds(after, late * principal, RAY)
    requires early * interest <= RAY * ONE_YEAR * (late - early + floors) + fourth * interest
    ensures before as real * interest as real / Y
         <= R * (after - before) as real + PaceSlack(principal, floors, fourth, interest)
  {
    RoundsFromProduct(before, early * principal, RAY);
    RoundsFromProduct(after, late * principal, RAY);
    StableGrowthScaled(principal, early, late, before, after, interest, floors, fourth);
    hide Rounds;
    ProductAsReal(before, interest);
    ScaledDown(before * interest, after - before, principal * floors, principal * (fourth * interest), interest);
  }

  lemma StableGrowthScaled(principal: int, early: int, late: int, before: int, after: int, interest: int,
                           floors: int, fourth: int)
    requires 0 <= principal && 0 <= interest
    requires 2 * (before * RAY) - RAY <= 2 * (early * principal)
    requires 2 * (early * principal) < 2 * (before * RAY) + RAY
    requires 2 * (late * principal) < 2 * (after * RAY) + RAY
    requires early * interest <= RAY * ONE_YEAR * (late - early + floors) + fourth * interest
    ensures 2 * RAY * (before * interest)
         <= 2 * RAY * ONE_YEAR * (RAY * (after - before) + RAY + principal * floors)
            + 2 * (principal * (fourth * interest)) + RAY * interest
  {
    MulLe(2 * (before * RAY) - RAY, 2 * (early * principal), interest);
    assert (2 * (before * RAY) - RAY) * interest == 2 * RAY * (before * interest) - RAY * interest;
    assert 2 * (early * principal) * interest == 2 * ((early * interest) * principal);
    MulLe(early * interest, RAY * ONE_YEAR * (late - early + floors) + fourth * interest, principal);
    assert (RAY * ONE_YEAR * (late - early + floors) + fourth * interest) * principal
        == RAY * ONE_YEAR * (late * principal - early * principal + principal * floors)
           + principal * (fourth * interest);
  }

  lemma ScaledDown(paid: int, growth: int, floors: int, fourth: int, interest: int)
    requires 2 * RAY * paid
          <= 2 * RAY * ONE_YEAR * (RAY * growth + RAY + floors) + 2 * fourth + RAY * interest
    ensures paid as real / Y
         <= R * growth as real + R + interest as real / (2.0 * Y) + floors as real + fourth as real / (R * Y)
  {
  }

  /** The figures that the supply rate is made of. */
  lemma SupplyFigures(st: Strategy, r: Reserve)
    requires Valid(st, r)
    ensures 0 <= StableAtUpdate(r) && 0 <= VariableAtUpdate(r) && 0 <= r.availableLiquidity + r.unbacked
    ensures 0 <= r.variableBorrowRate && 0 <= r.averageStableBorrowRate && 0 <= OverallRate(r)
    ensures 0 <= st.reserveFactor <= PERCENTAGE_FACTOR
    ensures Usage(DebtAtUpdate(r), r.availableLiquidity + r.unbacked).Success?
    ensures r.liquidityRate
         == LiquidityRate(OverallRate(r), Usage(DebtAtUpdate(r), r.availableLiquidity + r.unbacked).value,
                          st.reserveFactor)
  {
    hide RayMul, TotalStableDebt, OverallBorrowRate, LiquidityRate, Usage;
    SupplyRateIff(st, r);
    hide SupplyRateImplied;
    RayMulMonotone(0, 0, r.scaledVariableDebt, r.variableBorrowIndex);
    TotalStableGrows(r.principalStableDebt, r.averageStableBorrowRate, r.totalStableDebtLastUpdated,
                     r.lastUpdateTimestamp, r.lastUpdateTimestamp);
    OverallRateNonNegative(StableAtUpdate(r), VariableAtUpdate(r), r.variableBorrowRate, r.averageStableBorrowRate);
    UsageInRange(DebtAtUpdate(r), r.availableLiquidity + r.unbacked);
  }

  /** The yearly supply payments against the yearly borrower payments. */
  lemma SupplyPaid(st: Strategy, r: Reserve)
    requires Valid(st, r)
    ensures 0.0 <= SupplierShare(st.reserveFactor) <= 1.0
    ensures 0.0 <= RateSlack(DebtAtUpdate(r) as real, Assets(r) as real, OverallRate(r) as real)
    ensures r.liquidityRate as real * Assets(r) as real
         <= SupplierShare(st.reserveFactor) * Payments(r)
            + RateSlack(DebtAtUpdate(r) as real, Assets(r) as real, OverallRate(r) as real)
  {
    hide StableAtUpdate, VariableAtUpdate, OverallBorrowRate, LiquidityRate, Usage, SupplierShare, Valid, RateSlack;
    SupplyFigures(st, r);
    var stable, variable, liquidity := StableAtUpdate(r), VariableAtUpdate(r), r.availableLiquidity + r.unbacked;
    SupplyIncomeCovered(stable + variable, liquidity, OverallRate(r), st.reserveFactor,
                        Usage(stable + variable, liquidity).value);
    ShareInRange(st.reserveFactor);
    BorrowersPay(stable, variable, r.variableBorrowRate, r.averageStableBorrowRate);
    PaidSum(SupplierShare(st.reserveFactor), (stable + variable) as real, Assets(r) as real, OverallRate(r) as real,
            Payments(r), r.liquidityRate as real);
  }

  lemma ShareInRange(reserveFactor: int)
    requires 0 <= reserveFactor <= PERCENTAGE_FACTOR
    ensures 0.0 <= SupplierShare(reserveFactor) <= 1.0
  {
  }

  lemma BorrowersPay(stable: int, variable: int, rate: int, averageStableRate: int)
    requires 0 <= stable && 0 <= variable && 0 <= rate && 0 <= averageStableRate
    ensures OverallBorrowRate(stable, variable, rate, averageStableRate) as real * (stable + variable) as real
         <= stable as real * averageStableRate as real + variable as real * rate as real
            + (stable + variable) as real / 2.0 + WAD as real
  {
    hide RayMul, RayDiv;
    var overall, debt := OverallBorrowRate(stable, variable, rate, averageStableRate), stable + variable;
    if debt == 0 {
      NoDebtNoRate(stable, variable, rate, averageStableRate);
    } else {
      OverallRateIsMean(stable, variable, rate, averageStableRate);
    }
    hide OverallBorrowRate;
    PaymentsAsReal(overall, stable, variable, rate, averageStableRate);
  }

  lemma NoDebtNoRate(stable: int, variable: int, rate: int, averageStableRate: int)
    requires stable + variable == 0
    ensures OverallBorrowRate(stable, variable, rate, averageStableRate) == 0
  {
  }

  lemma PaymentsAsReal(overall: int, stable: int, variable: int, rate: int, averageStableRate: int)
    requires 2 * (overall * (stable + variable)) - 2 * (variable * rate + stable * averageStableRate)
          <= stable + variable + 2 * WAD
    ensures overall as real * (stable + variable) as real
         <= stable as real * averageStableRate as real + variable as real * rate as real
            + (stable + variable) as real / 2.0 + WAD as real
  {
    ProductAsReal(overall, stable + variable);
    ProductAsReal(variable, rate);
    ProductAsReal(stable, averageStableRate);
  }

  lemma PaidSum(share: real, debt: real, pool: real, overall: real, payments: real, paid: real)
    requires 0.0 <= share <= 1.0 && 0.0 <= debt <= pool && 0.0 <= overall
    requires overall * debt <= payments + debt / 2.0 + WAD as real
    requires paid * pool <= share * (overall * debt + (overall / R + 1.0) * pool / 2.0) + pool / 2.0
    ensures 0.0 <= RateSlack(debt, pool, overall)
    ensures paid * pool <= share * payments + RateSlack(debt, pool, overall)
  {
    NonNegativeProduct(overall / R + 1.0, pool);
    var tail := (overall / R + 1.0) * pool / 2.0;
    PaidChain(share, paid * pool, overall * debt, tail, payments, debt / 2.0 + WAD as real, pool / 2.0);
  }

  lemma PaidChain(share: real, paid: real, income: real, tail: real, borrowers: real, extra: real, half: real)
    requires 0.0 <= share <= 1.0 && 0.0 <= tail && 0.0 <= extra && income <= borrowers + extra
    requires paid <= share * (income + tail) + half
    ensures paid <= share * borrowers + (extra + tail + half)
  {
    ShareOfSum(share, income + tail, borrowers, extra + tail);
  }

  lemma ShareOfSum(share: real, income: real, paid: real, extra: real)
    requires 0.0 <= share <= 1.0 && 0.0 <= extra && income <= paid + extra
    ensures share * income <= share * paid + extra
  {
    assert 0.0 <= (1.0 - share) * extra;
    assert 0.0 <= (paid + extra - income) * share;
    assert 0.0 <= (1.0 - share) * extra + (paid + extra - income) * share;
  }

  /** The treasury's new scaled balance is worth its share of the new debt: no more, and
      no less, than that and half a unit for each of the two roundings. */
  lemma TreasuryTakesItsShare(st: Strategy, r: Reserve, seen: int, time: int)
    requires ValidAt(st, r, seen) && r.lastUpdateTimestamp <= time
    requires Accrue(r, time).Success?
    ensures var a := Accrue(r, time).value;
            (a.accruedToTreasuryScaled - r.accruedToTreasuryScaled) as real * a.liquidityIndex as real
            <= (1.0 - SupplierShare(st.reserveFactor)) * (R * (DebtAtUpdate(a) - DebtAtUpdate(r)) as real)
               + R / 2.0 + a.liquidityIndex as real / 2.0
    ensures var a := Accrue(r, time).value;
            (a.accruedToTreasuryScaled - r.accruedToTreasuryScaled) as real * a.liquidityIndex as real
            >= (1.0 - SupplierShare(st.reserveFactor)) * (R * (DebtAtUpdate(a) - DebtAtUpdate(r)) as real)
               - R / 2.0 - a.liquidityIndex as real / 2.0
  {
    hide SupplyRateImplied, Observe, RayMul, CompoundedInterest, PercentMul, RayDiv, LiquidityIndexAt, VariableIndexAt,
         Rounds, SupplierShare, DebtAccrued, StableAtUpdate, VariableAtUpdate;
    IncomeGuardsAgree(st, r, seen, time);
    AccrueGrows(st, r, seen, time);
    AccrueCarries(r, time);
    DebtAfterAccrual(r, time);
    var a := Accrue(r, time).value;
    var growth, rf := DebtAtUpdate(a) - DebtAtUpdate(r), r.reserveFactor;
    hide ValidAt;
    PercentMulRounds(growth, rf);
    MintedExactly(r, time, PercentMul(growth, rf));
    MintedValue(growth, rf, a.liquidityIndex);
  }

  /** A share of `growth`, minted at `index`, is worth that share to within the roundings. */
  lemma MintedValue(growth: int, reserveFactor: int, index: int)
    requires 0 <= growth && 0 <= reserveFactor <= PERCENTAGE_FACTOR && 0 < index
    ensures var bound := (1.0 - SupplierShare(reserveFactor)) * (R * growth as real) + R / 2.0 + index as real / 2.0;
            && 0.0 <= bound
            && RayDiv(PercentMul(growth, reserveFactor), index) as real * index as real <= bound
            && RayDiv(PercentMul(growth, reserveFactor), index) as real * index as real
               >= bound - R - index as real
  {
    hide PercentMul, RayDiv, Rounds;
    var amount := PercentMul(growth, reserveFactor);
    PercentMulRounds(growth, reserveFactor);
    RoundsAsReal(amount, growth, reserveFactor, PERCENTAGE_FACTOR);
    RayDivRounds(amount, index);
    RoundsAsReal(RayDiv(amount, index), amount, RAY, index);
    TreasurySum(reserveFactor, growth as real, amount as real);
    hide SupplierShare;
    NonNegativeProduct(1.0 - SupplierShare(reserveFactor), R * growth as real);
  }

  /** Right after accrual the debts are those of the update, and their growth is what accrual shares out. */
  lemma DebtAfterAccrual(r: Reserve, time: int)
    requires Accrue(r, time).Success?
    ensures var a := Accrue(r, time).value;
            && StableAtUpdate(a) == a.totalStableDebt == StableAccrued(r, time)
            && VariableAtUpdate(a) == a.totalVariableDebt
            && DebtAccrued(r, a) == DebtAccrued(r, Indexed(r, time)) == DebtAtUpdate(a) - DebtAtUpdate(r)
  {
    AccrueCarries(r, time);
    StableTwoWays(r);
    hide RayMul, CompoundedInterest, TotalStableDebt, LiquidityIndexAt, VariableIndexAt, AccruedToTreasury;
  }

  /** The treasury is minted exactly the shares its amount is worth. */
  lemma MintedExactly(r: Reserve, time: int, amount: int)
    requires Accrue(r, time).Success? && 0 < LiquidityIndexAt(r, time) && 0 <= amount
    requires amount == PercentMul(DebtAccrued(r, Indexed(r, time)), r.reserveFactor)
    ensures Accrue(r, time).value.accruedToTreasuryScaled
         == r.accruedToTreasuryScaled + RayDiv(amount, LiquidityIndexAt(r, time))
  {
    NoFactorNoAmount(DebtAccrued(r, Indexed(r, time)));
    RayDivZero(LiquidityIndexAt(r, time));
    hide PercentMul, RayDiv, DebtAccrued, LiquidityIndexAt, VariableIndexAt, RayMul, TotalStableDebt;
  }

  lemma NoFactorNoAmount(growth: int)
    ensures PercentMul(growth, 0) == 0
  {
  }

  lemma TreasurySum(reserveFactor: int, growth: real, amount: real)
    requires 0 <= reserveFactor <= PERCENTAGE_FACTOR && 0.0 <= growth
    requires amount * PERCENTAGE_FACTOR as real <= growth * reserveFactor as real + PERCENTAGE_FACTOR as real / 2.0
    requires amount * PERCENTAGE_FACTOR as real >= growth * reserveFactor as real - PERCENTAGE_FACTOR as real / 2.0
    ensures 0.0 <= SupplierShare(reserveFactor) <= 1.0
    ensures amount * R <= (1.0 - SupplierShare(reserveFactor)) * (R * growth) + R / 2.0
    ensures amount * R >= (1.0 - SupplierShare(reserveFactor)) * (R * growth) - R / 2.0
  {
  }

  // ----- one accrual -----

  /** Accrual grows what is promised by no more than what is owed, plus the slack. */
  lemma AccrualStaysSolvent(st: Strategy, r: Reserve, seen: int, time: int, supply: int, deficit: real)
    requires ValidAt(st, r, seen) && r.lastUpdateTimestamp <= time && 0 <= supply
    requires 0.0 <= deficit && Claims(r, supply) as real <= R * Assets(r) as real + deficit
    ensures Accrue(r, time).Success?
    ensures var a := Accrue(r, time).value;
            (Claims(a, supply) - Claims(r, supply)) as real
            <= R * (Assets(a) - Assets(r)) as real + AccrualSlack(r, supply, deficit, time)
  {
    hide ValidAt, Accrue, Claims, Assets, DebtAtUpdate, AccrualSlack, Ready, LiquidityIndexAt, RateSlack, DebtSlack,
         SupplyGrowth, Years, SupplierShare, OverallRate;
    AccrueReady(st, r, seen, time);
    AccrueCarries(r, time);
    AccrualSum(st, r, seen, time, supply, deficit);
    ClaimsDifference(r, Accrue(r, time).value, supply);
    AssetsDifference(r, Accrue(r, time).value);
  }

  /** The quantities one accrual compares. */
  datatype Figures = Figures(share: real, paid: real, years: real, growthRate: real, claims: real, pool: real,
                             deficit: real,
                             borrowers: real, rates: real, growth: real, rest: real, income: real, treasury: real,
                             half: real, halfIndex: real, slack: real)
  {
    ghost predicate InRange() {
      0.0 <= share <= 1.0 && 0.0 <= paid && 0.0 <= years && 0.0 <= rest && claims <= R * pool + deficit
    }

    ghost predicate SlackAddsUp() {
      growthRate == paid * years
      && slack == rest + half + halfIndex + R / 2.0 + years * rates + growthRate * deficit / R
    }

    ghost predicate IncomeBounded() {
      income <= growthRate * (claims / R) + half
    }

    ghost predicate DebtGrows() {
      borrowers * years <= growth + rest
    }

    ghost predicate BorrowersPay() {
      paid * pool <= share * borrowers + rates
    }

    ghost predicate TreasuryBounded() {
      treasury <= (1.0 - share) * growth + R / 2.0 + halfIndex
    }
  }

  ghost function FiguresOf(st: Strategy, r: Reserve, time: int, supply: int, deficit: real): Figures
    requires Accrue(r, time).Success?
  {
    var a := Accrue(r, time).value;
    Figures(SupplierShare(st.reserveFactor), r.liquidityRate as real, Years(r, time), SupplyGrowth(r, time),
            Claims(r, supply) as real, Assets(r) as real, deficit, Payments(r),
            RateSlack(DebtAtUpdate(r) as real, Assets(r) as real, OverallRate(r) as real),
            R * (DebtAtUpdate(a) - DebtAtUpdate(r)) as real, DebtSlack(r, time) + StableSlack(r, time),
            (supply + r.accruedToTreasuryScaled) as real * (a.liquidityIndex - r.liquidityIndex) as real,
            (a.accruedToTreasuryScaled - r.accruedToTreasuryScaled) as real * a.liquidityIndex as real,
            (supply + r.accruedToTreasuryScaled) as real / 2.0, a.liquidityIndex as real / 2.0,
            AccrualSlack(r, supply, deficit, time))
  }

  /** The four parts put together: index growth on what is promised, and the
      treasury's new share at the new index. */
  lemma AccrualSum(st: Strategy, r: Reserve, seen: int, time: int, supply: int, deficit: real)
    requires ValidAt(st, r, seen) && r.lastUpdateTimestamp <= time && 0 <= supply
    requires 0.0 <= deficit && Claims(r, supply) as real <= R * Assets(r) as real + deficit
    requires Accrue(r, time).Success?
    ensures var f := FiguresOf(st, r, time, supply, deficit); f.income + f.treasury <= f.growth + f.slack
  {
    hide FiguresOf, Figures.InRange, Figures.SlackAddsUp, Figures.IncomeBounded, Figures.DebtGrows,
         Figures.BorrowersPay, Figures.TreasuryBounded, Claims, Assets, Accrue, SupplyRateImplied, Observe;
    FiguresInRange(st, r, time, supply, deficit);
    IncomeIsBounded(st, r, seen, time, supply, deficit);
    DebtGrowsEnough(st, r, seen, time, supply, deficit);
    BorrowersPayEnough(st, r, time, supply, deficit);
    TreasuryIsBounded(st, r, seen, time, supply, deficit);
    SolvencySum(FiguresOf(st, r, time, supply, deficit));
  }

  lemma IncomeIsBounded(st: Strategy, r: Reserve, seen: int, time: int, supply: int, deficit: real)
    requires ValidAt(st, r, seen) && r.lastUpdateTimestamp <= time && 0 <= supply && Accrue(r, time).Success?
    ensures FiguresOf(st, r, time, supply, deficit).IncomeBounded()
  {
    hide Accrue, Claims, Assets, DebtAtUpdate, AccrualSlack, LiquidityIndexAt, RateSlack, DebtSlack, StableSlack, Years,
         SupplierShare, OverallRate, Payments, SupplyGrowth, ValidAt;
    AccrueCarries(r, time);
    IncomeGrowth(st, r, seen, time, supply);
  }

  lemma DebtGrowsEnough(st: Strategy, r: Reserve, seen: int, time: int, supply: int, deficit: real)
    requires ValidAt(st, r, seen) && r.lastUpdateTimestamp <= time && Accrue(r, time).Success?
    ensures FiguresOf(st, r, time, supply, deficit).DebtGrows()
  {
    hide Accrue, Claims, Assets, AccrualSlack, LiquidityIndexAt, RateSlack, DebtSlack, StableSlack, Years,
         SupplierShare, OverallRate, SupplyGrowth, ValidAt, Valid, Payments, DebtAtUpdate, StableAtUpdate,
         VariableAtUpdate, StableAccrued;
    DebtGrowth(st, r, seen, time);
    ValidNow(st, r, seen);
    StableGrowth(st, r, time);
    PaymentsGrow(r, Accrue(r, time).value, time);
  }

  lemma PaymentsAdd(stable: real, variable: real, years: real, stableGrowth: int, variableGrowth: int,
                    stableSlack: real, variableSlack: real)
    requires stable * years <= R * stableGrowth as real + stableSlack
    requires variable * years <= R * variableGrowth as real + variableSlack
    ensures (stable + variable) * years <= R * (stableGrowth + variableGrowth) as real + (variableSlack + stableSlack)
  {
    assert (stable + variable) * years == stable * years + variable * years;
  }

  /** The two debts' growth taken together. */
  lemma PaymentsGrow(r: Reserve, a: Reserve, time: int)
    requires Accrue(r, time) == Success(a)
    requires StableAtUpdate(r) as real * r.averageStableBorrowRate as real * Years(r, time)
          <= R * (StableAccrued(r, time) - StableAtUpdate(r)) as real + StableSlack(r, time)
    requires VariableAtUpdate(r) as real * r.variableBorrowRate as real * Years(r, time)
          <= R * (a.totalVariableDebt - VariableAtUpdate(r)) as real + DebtSlack(r, time)
    ensures Payments(r) * Years(r, time)
         <= R * (DebtAtUpdate(a) - DebtAtUpdate(r)) as real + (DebtSlack(r, time) + StableSlack(r, time))
  {
    hide StableAtUpdate, VariableAtUpdate, StableAccrued, StableSlack, DebtSlack, Accrue, Years, DebtAccrued, Indexed;
    DebtAfterAccrual(r, time);
    var stable := StableAtUpdate(r) as real * r.averageStableBorrowRate as real;
    var variable := VariableAtUpdate(r) as real * r.variableBorrowRate as real;
    var stableGrowth, variableGrowth := StableAccrued(r, time) - StableAtUpdate(r),
      a.totalVariableDebt - VariableAtUpdate(r);
    assert DebtAtUpdate(a) - DebtAtUpdate(r) == stableGrowth + variableGrowth;
    PaymentsAdd(stable, variable, Years(r, time), stableGrowth, variableGrowth, StableSlack(r, time),
                DebtSlack(r, time));
  }

  lemma BorrowersPayEnough(st: Strategy, r: Reserve, time: int, supply: int, deficit: real)
    requires Valid(st, r) && Accrue(r, time).Success?
    ensures FiguresOf(st, r, time, supply, deficit).BorrowersPay()
  {
    hide Accrue, Claims, Assets, DebtAtUpdate, AccrualSlack, LiquidityIndexAt, RateSlack, DebtSlack, StableSlack, Years,
         SupplierShare, OverallRate, Payments, SupplyGrowth, Valid;
    SupplyPaid(st, r);
  }

  lemma TreasuryIsBounded(st: Strategy, r: Reserve, seen: int, time: int, supply: int, deficit: real)
    requires ValidAt(st, r, seen) && r.lastUpdateTimestamp <= time && Accrue(r, time).Success?
    ensures FiguresOf(st, r, time, supply, deficit).TreasuryBounded()
  {
    hide Accrue, Claims, Assets, DebtAtUpdate, AccrualSlack, LiquidityIndexAt, RateSlack, DebtSlack, StableSlack, Years,
         SupplierShare, OverallRate, Payments, SupplyGrowth, ValidAt;
    TreasuryTakesItsShare(st, r, seen, time);
  }

  lemma FiguresInRange(st: Strategy, r: Reserve, time: int, supply: int, deficit: real)
    requires Valid(st, r) && r.lastUpdateTimestamp <= time && Accrue(r, time).Success?
    requires Claims(r, supply) as real <= R * Assets(r) as real + deficit
    ensures var f := FiguresOf(st, r, time, supply, deficit); f.InRange() && f.SlackAddsUp()
  {
    hide Accrue, Claims, Assets, DebtAtUpdate, AccrualSlack, LiquidityIndexAt, RateSlack, DebtSlack, StableSlack, Years,
         SupplierShare, OverallRate, Payments, Valid;
    AccrueCarries(r, time);
    SupplyPaid(st, r);
    YearsNonNegative(r, time);
    SlackNonNegative(st, r, time);
    SlackUnfolds(r, supply, deficit, time,
                 RateSlack(DebtAtUpdate(r) as real, Assets(r) as real, OverallRate(r) as real));
  }

  lemma ClaimsDifference(r: Reserve, a: Reserve, supply: int)
    ensures var scaled := supply + r.accruedToTreasuryScaled;
            var minted := a.accruedToTreasuryScaled - r.accruedToTreasuryScaled;
            && Claims(r, supply) == scaled * r.liquidityIndex
            && (Claims(a, supply) - Claims(r, supply)) as real
               == scaled as real * (a.liquidityIndex - r.liquidityIndex) as real
                  + minted as real * a.liquidityIndex as real
  {
    var scaled, minted := supply + r.accruedToTreasuryScaled, a.accruedToTreasuryScaled - r.accruedToTreasuryScaled;
    ProductAsReal(scaled, a.liquidityIndex - r.liquidityIndex);
    ProductAsReal(minted, a.liquidityIndex);
    assert (scaled + minted) * a.liquidityIndex - scaled * r.liquidityIndex
        == scaled * (a.liquidityIndex - r.liquidityIndex) + minted * a.liquidityIndex;
  }

  lemma AssetsDifference(r: Reserve, a: Reserve)
    requires a.availableLiquidity == r.availableLiquidity && a.unbacked == r.unbacked
    ensures Assets(a) - Assets(r) == DebtAtUpdate(a) - DebtAtUpdate(r)
  {
    hide DebtAtUpdate;
  }

  lemma YearsNonNegative(r: Reserve, time: int)
    requires r.lastUpdateTimestamp <= time
    ensures 0.0 <= Years(r, time)
  {
  }

  lemma SlackNonNegative(st: Strategy, r: Reserve, time: int)
    requires Valid(st, r) && r.lastUpdateTimestamp <= time
    ensures 0.0 <= DebtSlack(r, time) && 0.0 <= StableSlack(r, time) && 0 <= r.liquidityRate
  {
    hide RayMul, CompoundedInterest, SupplyRateImplied, StableSlack;
    StableSlackNonNegative(r, time);
    RayMulMonotone(0, 0, r.scaledVariableDebt, r.variableBorrowIndex);
    CompoundedMonotone(r.variableBorrowRate, time, time, r.lastUpdateTimestamp);
  }

  lemma StableSlackNonNegative(r: Reserve, time: int)
    requires 0 <= r.principalStableDebt && 0 <= r.averageStableBorrowRate
    ensures 0.0 <= StableSlack(r, time)
  {
    hide Triples, BasePowerThree, PaceFloors, PaceSlack;
    var early, late := r.lastUpdateTimestamp - r.totalStableDebtLastUpdated, time - r.lastUpdateTimestamp;
    if 0 <= early && 0 <= late {
      BasePowerBounds(r.averageStableBorrowRate);
      PaceSlackNonNegative(r.principalStableDebt, PaceFloors(early, late),
                           Triples(early) * BasePowerThree(r.averageStableBorrowRate),
                           r.averageStableBorrowRate * late);
    }
  }

  lemma PaceSlackNonNegative(principal: int, floors: int, fourth: int, interest: int)
    requires 0 <= principal && 0 <= floors && 0 <= fourth && 0 <= interest
    ensures 0.0 <= PaceSlack(principal, floors, fourth, interest)
  {
    MulLe(0, principal, floors);
    MulLe(0, fourth, interest);
    MulLe(0, principal, fourth * interest);
  }

  lemma SlackUnfolds(r: Reserve, supply: int, deficit: real, time: int, rates: real)
    requires rates == RateSlack(DebtAtUpdate(r) as real, Assets(r) as real, OverallRate(r) as real)
    ensures AccrualSlack(r, supply, deficit, time)
         == DebtSlack(r, time) + StableSlack(r, time) + (supply + r.accruedToTreasuryScaled) as real / 2.0
            + LiquidityIndexAt(r, time) as real / 2.0 + R / 2.0
            + Years(r, time) * rates + SupplyGrowth(r, time) * deficit / R
  {
    hide DebtSlack, StableSlack, DebtAtUpdate, RateSlack, LiquidityIndexAt, Years, Assets, OverallRate, SupplyGrowth;
  }

  ghost function OnPool(f: Figures): real {
    f.pool * f.growthRate
  }

  ghost function OnDeficit(f: Figures): real {
    f.growthRate * f.deficit / R
  }

  ghost function Yearly(f: Figures): real {
    f.years * f.rates
  }

  ghost function Shared(f: Figures, amount: real): real {
    f.share * amount
  }

  lemma SolvencySum(f: Figures)
    requires f.InRange() && f.SlackAddsUp()
    requires f.IncomeBounded() && f.DebtGrows() && f.BorrowersPay() && f.TreasuryBounded()
    ensures f.income + f.treasury <= f.growth + f.slack
  {
    hide OnPool, OnDeficit, Yearly, Shared, Figures.InRange, Figures.SlackAddsUp, Figures.IncomeBounded,
         Figures.DebtGrows, Figures.BorrowersPay, Figures.TreasuryBounded;
    IncomeOnClaims(f);
    YearlyPayments(f);
    SuppliersShare(f);
    TreasuryRemainder(f);
    SlackParts(f);
  }

  lemma IncomeOnClaims(f: Figures)
    requires f.InRange() && f.SlackAddsUp() && f.IncomeBounded()
    ensures f.income <= OnPool(f) + OnDeficit(f) + f.half
  {
    NonNegativeProduct(f.paid, f.years);
    assert 0.0 <= (f.pool + f.deficit / R - f.claims / R) * f.growthRate;
  }

  lemma YearlyPayments(f: Figures)
    requires f.InRange() && f.SlackAddsUp() && f.DebtGrows() && f.BorrowersPay()
    ensures OnPool(f) <= Shared(f, f.growth + f.rest) + Yearly(f)
  {
    YearlyPaymentsOf(f.share, f.paid, f.years, f.pool, f.borrowers, f.rates, f.growth + f.rest);
  }

  lemma SuppliersShare(f: Figures)
    requires f.InRange()
    ensures Shared(f, f.growth + f.rest) <= Shared(f, f.growth) + f.rest
  {
    ShareOfSum(f.share, f.growth + f.rest, f.growth, f.rest);
  }

  lemma TreasuryRemainder(f: Figures)
    requires f.TreasuryBounded()
    ensures f.treasury <= f.growth - Shared(f, f.growth) + R / 2.0 + f.halfIndex
  {
  }

  lemma SlackParts(f: Figures)
    requires f.SlackAddsUp()
    ensures f.slack == f.rest + f.half + f.halfIndex + R / 2.0 + Yearly(f) + OnDeficit(f)
  {
  }

  lemma YearlyPaymentsOf(share: real, paid: real, years: real, pool: real, borrowers: real, rateSlack: real, owed: real)
    requires 0.0 <= share && 0.0 <= years
    requires borrowers * years <= owed
    requires paid * pool <= share * borrowers + rateSlack
    ensures pool * (paid * years) <= share * owed + years * rateSlack
  {
    RealMulLe(paid * pool, share * borrowers + rateSlack, years);
    RealMulLe(borrowers * years, owed, share);
    assert (paid * pool) * years == pool * (paid * years);
    assert (share * borrowers + rateSlack) * years == (borrowers * years) * share + years * rateSlack;
  }
}
