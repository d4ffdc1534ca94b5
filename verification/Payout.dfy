/** What borrowers pay reaches suppliers and treasury: over an accrual their claims grow
    by as much as debt does, up to a shortfall that is spelled out. With the solvency
    results this brackets the claims from both sides. */
module Payout {
  import opened Arithmetic
  import opened WadRayMath
  import opened Interest
  import opened Compounding
  import opened Failures
  import opened Rates
  import opened Reserves
  import opened Invariant
  import opened Transactions
  import opened Runs
  import opened Solvency

  /** What compounding adds to the yearly rate, and roundings, in units of a ray. */
  ghost function LateSlack(rate: int, n: nat, m: nat): real {
    LateSum(LateOrders(rate, n, m), rate * m, n * m, m * Pairs(n))
  }

  ghost function LateSum(orders: int, interest: int, seconds: int, pairSeconds: int): real {
    1.0 + orders as real + interest as real / (R * Y) + seconds as real / (2.0 * Y * Y)
      + pairSeconds as real / (2.0 * Y)
  }

  lemma LateSlackNonNegative(rate: int, n: nat, m: nat)
    requires 0 <= rate
    ensures 0.0 <= LateSlack(rate, n, m)
  {
    hide Pairs, Triples, BasePowerTwo, BasePowerThree;
    BasePowerBounds(rate);
    MulLe(0, Pairs(m), BasePowerTwo(rate));
    MulLe(0, n, Pairs(m));
    MulLe(0, Triples(m) + n * Pairs(m), BasePowerThree(rate));
    MulLe(0, rate, m);
    MulLe(0, n, m);
    MulLe(0, m, Pairs(n));
  }

  lemma InterestInPace(rate: int, stamp: int, last: int, time: int)
    requires 0 <= rate && stamp <= last <= time
    ensures (CompoundedInterest(rate, time, stamp) - CompoundedInterest(rate, last, stamp)) as real
         <= CompoundedInterest(rate, last, stamp) as real * (rate * (time - last)) as real / (R * Y)
            + LateSlack(rate, last - stamp, time - last)
  {
    hide CompoundedInterest, LateOrders, Pairs;
    InterestStaysInPace(rate, stamp, last, time);
    var n, m, early := last - stamp, time - last, CompoundedInterest(rate, last, stamp);
    ProductAsReal(early, rate * m);
    DivideOut(CompoundedInterest(rate, time, stamp) - early, early * (rate * m), LateOrders(rate, n, m), rate * m,
              n * m, m * Pairs(n));
  }

  lemma DivideOut(growth: int, paid: int, orders: int, interest: int, seconds: int, pairSeconds: int)
    requires 2 * RAY * (ONE_YEAR * ONE_YEAR) * growth
          <= 2 * ONE_YEAR * paid + 2 * RAY * (ONE_YEAR * ONE_YEAR) * (1 + orders)
             + 2 * ONE_YEAR * interest + RAY * seconds + RAY * ONE_YEAR * pairSeconds
    ensures growth as real <= paid as real / (R * Y) + LateSum(orders, interest, seconds, pairSeconds)
  {
  }

  // ----- what debt grows by at most -----

  /** Compounding of the variable debt beyond its yearly rate. */
  ghost function VariableExcess(r: Reserve, time: int): real {
    var late := time - r.lastUpdateTimestamp;
    VariableAtUpdate(r) as real * (if late < 0 then 0.0 else LateSlack(r.variableBorrowRate, 0, late))
    + CompoundedInterest(r.variableBorrowRate, time, r.lastUpdateTimestamp) as real / 2.0
    + r.scaledVariableDebt as real / 2.0 + R / 2.0
  }

  /** Likewise of the stable debt, running since its own time stamp. */
  ghost function StableExcess(r: Reserve, time: int): real {
    var early, late := r.lastUpdateTimestamp - r.totalStableDebtLastUpdated, time - r.lastUpdateTimestamp;
    if early < 0 || late < 0 then 0.0
    else
      r.principalStableDebt as real * LateSlack(r.averageStableBorrowRate, early, late)
      + (r.averageStableBorrowRate * late) as real / (2.0 * Y) + R
  }

  lemma VariableGrowthBelow(st: Strategy, r: Reserve, seen: int, time: int)
    requires ValidAt(st, r, seen) && r.lastUpdateTimestamp <= time
    requires Accrue(r, time).Success?
    ensures R * (Accrue(r, time).value.totalVariableDebt - VariableAtUpdate(r)) as real
         <= VariableAtUpdate(r) as real * r.variableBorrowRate as real * Years(r, time) + VariableExcess(r, time)
  {
    hide SupplyRateImplied, UsageRatios, RayMul, CompoundedInterest, LinearInterest, TotalStableDebt, Accrue,
         NormalizedDebt, LateSlack, SeenAt;
    AccrueCarries(r, time);
    var rate, last, scaled, index :=
      r.variableBorrowRate, r.lastUpdateTimestamp, r.scaledVariableDebt, r.variableBorrowIndex;
    CompoundedMonotone(rate, last, time, last);
    CompoundedAtOnce(rate, last);
    InterestInPace(rate, last, last, time);
    LateSlackNonNegative(rate, 0, time - last);
    RayMulMonotone(0, 0, scaled, index);
    MulLe(0, rate, time - last);
    InterestOverYears(VariableAtUpdate(r), rate, time - last);
    var comp := CompoundedInterest(rate, time, last);
    if VariableIndexAt(r, time) == RayMul(comp, index) {
      VariableGrowthOf(scaled, index, comp, (rate * (time - last)) as real / Y, LateSlack(rate, 0, time - last));
    } else {
      NothingToGrow(VariableAtUpdate(r) as real, (rate * (time - last)) as real / Y, LateSlack(rate, 0, time - last));
    }
  }

  lemma NothingToGrow(debt: real, interest: real, late: real)
    requires 0.0 <= debt && 0.0 <= interest && 0.0 <= late
    ensures 0.0 <= debt * interest && 0.0 <= debt * late
  {
  }

  lemma RayMulAsReal(a: int, b: int)
    requires 0 <= a && 0 <= b
    ensures 0 <= RayMul(a, b)
    ensures RayMul(a, b) as real * R <= a as real * b as real + R / 2.0
    ensures RayMul(a, b) as real * R >= a as real * b as real - R / 2.0
  {
    hide RayMul, Rounds;
    RayMulRounds(a, b);
    RoundsAsReal(RayMul(a, b), a, b, RAY);
  }

  lemma VariableGrowthOf(scaled: int, index: int, comp: int, interest: real, late: real)
    requires 0 <= scaled && 0 <= index && RAY <= comp && comp as real <= R + interest + late
    ensures var before, after := RayMul(scaled, index), RayMul(scaled, RayMul(comp, index));
            R * (after - before) as real
            <= before as real * interest
               + (before as real * late + comp as real / 2.0 + scaled as real / 2.0 + R / 2.0)
  {
    hide RayMul;
    RayMulAsReal(comp, index);
    RayMulAsReal(scaled, index);
    var next := RayMul(comp, index);
    RayMulAsReal(scaled, next);
    GrowthStep(scaled as real, index as real, next as real, comp as real, RayMul(scaled, index) as real,
               RayMul(scaled, next) as real, interest, late);
  }

  lemma GrowthStep(scaled: real, index: real, next: real, comp: real, before: real, after: real,
                   interest: real, late: real)
    requires 0.0 <= scaled && 0.0 <= before && R <= comp <= R + interest + late
    requires next * R <= comp * index + R / 2.0
    requires scaled * index <= before * R + R / 2.0
    requires after * R <= scaled * next + R / 2.0
    ensures R * (after - before) <= before * interest + (before * late + comp / 2.0 + scaled / 2.0 + R / 2.0)
  {
    RealMulLe(next * R, comp * index + R / 2.0, scaled);
    assert scaled * (next * R) == R * (scaled * next);
    assert (comp * index + R / 2.0) * scaled == comp * (scaled * index) + R * scaled / 2.0;
    RealMulLe(scaled * index, before * R + R / 2.0, comp);
    assert (before * R + R / 2.0) * comp == R * (comp * before + comp / 2.0);
    assert R * after <= comp * before + comp / 2.0 + scaled / 2.0 + R / 2.0;
    RealMulLe(comp, R + interest + late, before);
    assert (R + interest + late) * before == R * before + before * interest + before * late;
  }

  lemma StableGrowthBelow(st: Strategy, r: Reserve, time: int)
    requires Valid(st, r) && r.lastUpdateTimestamp <= time
    ensures R * (StableAccrued(r, time) - StableAtUpdate(r)) as real
         <= StableAtUpdate(r) as real * r.averageStableBorrowRate as real * Years(r, time) + StableExcess(r, time)
  {
    hide SupplyRateImplied, RayMul, CompoundedInterest, VariableAtUpdate, LateSlack;
    var principal, rate, stamp, last :=
      r.principalStableDebt, r.averageStableBorrowRate, r.totalStableDebtLastUpdated, r.lastUpdateTimestamp;
    CompoundedMonotone(rate, last, time, stamp);
    var before, after := CompoundedInterest(rate, last, stamp), CompoundedInterest(rate, time, stamp);
    InterestInPace(rate, stamp, last, time);
    PerYear(StableAtUpdate(r) as real, before as real, (rate * (time - last)) as real);
    RayMulAsReal(before, principal);
    RayMulAsReal(after, principal);
    MulLe(0, rate, time - last);
    InterestOverYears(StableAtUpdate(r), rate, time - last);
    StableGrowthSum(principal as real, before as real, after as real, StableAtUpdate(r) as real,
                    StableAccrued(r, time) as real, (rate * (time - last)) as real / Y,
                    LateSlack(rate, last - stamp, time - last));
  }

  lemma PerYear(debt: real, early: real, interest: real)
    ensures debt * interest / Y == debt * (interest / Y)
    ensures early * interest / (R * Y) == early * (interest / Y) / R
    ensures interest / (2.0 * Y) == interest / Y / 2.0
  {
  }

  lemma StableGrowthSum(principal: real, early: real, late: real, before: real, after: real, interest: real,
                        slack: real)
    requires 0.0 <= principal && 0.0 <= interest
    requires late - early <= early * interest / R + slack
    requires early * principal <= before * R + R / 2.0 && before * R <= early * principal + R / 2.0
    requires after * R <= late * principal + R / 2.0
    ensures R * (after - before) <= before * interest + (principal * slack + interest / 2.0 + R)
  {
    RealMulLe(late - early, early * interest / R + slack, principal);
    assert (late - early) * principal == late * principal - early * principal;
    assert (early * interest / R + slack) * principal == early * principal * interest / R + principal * slack;
    RealMulLe(early * principal, before * R + R / 2.0, interest);
    assert (before * R + R / 2.0) * interest == R * (before * interest + interest / 2.0);
  }

  // ----- one accrual -----

  ghost function Excess(r: Reserve, time: int): real {
    VariableExcess(r, time) + StableExcess(r, time)
  }

  /** Everything an accrual can keep from suppliers and treasury, in rays: compounding
      that linear supply interest does not pass on, and roundings. */
  ghost function PayoutSlack(r: Reserve, supply: int, surplus: real, time: int): real {
    Excess(r, time)
    + Years(r, time) * RateSlack(DebtAtUpdate(r) as real, Assets(r) as real, OverallRate(r) as real)
    + SupplyGrowth(r, time) * surplus / R
    + Claims(r, supply) as real / R + (supply + r.accruedToTreasuryScaled) as real / 2.0
    + R / 2.0 + LiquidityIndexAt(r, time) as real / 2.0
  }

  /** Accrual grows what is promised by no less than what is owed, less the slack. */
  lemma AccrualPaysOut(st: Strategy, r: Reserve, seen: int, time: int, supply: int, surplus: real)
    requires ValidAt(st, r, seen) && r.lastUpdateTimestamp <= time && 0 <= supply
    requires 0.0 <= surplus && Claims(r, supply) as real >= R * Assets(r) as real - surplus
    ensures Accrue(r, time).Success?
    ensures var a := Accrue(r, time).value;
            (Claims(a, supply) - Claims(r, supply)) as real
            >= R * (Assets(a) - Assets(r)) as real - PayoutSlack(r, supply, surplus, time)
  {
    hide ValidAt, Accrue, Claims, Assets, DebtAtUpdate, Ready, LiquidityIndexAt, PayoutSlack;
    AccrueReady(st, r, seen, time);
    AccrueCarries(r, time);
    ClaimsDifference(r, Accrue(r, time).value, supply);
    AssetsDifference(r, Accrue(r, time).value);
    AccrualParts(st, r, seen, time, supply, surplus);
  }

  /** Index growth on what is promised and the treasury's new share, against the debt's growth. */
  lemma AccrualParts(st: Strategy, r: Reserve, seen: int, time: int, supply: int, surplus: real)
    requires ValidAt(st, r, seen) && r.lastUpdateTimestamp <= time && 0 <= supply && Accrue(r, time).Success?
    requires 0.0 <= surplus && Claims(r, supply) as real >= R * Assets(r) as real - surplus
    ensures var a := Accrue(r, time).value;
            (supply + r.accruedToTreasuryScaled) as real * (a.liquidityIndex - r.liquidityIndex) as real
            + (a.accruedToTreasuryScaled - r.accruedToTreasuryScaled) as real * a.liquidityIndex as real
            >= R * (DebtAtUpdate(a) - DebtAtUpdate(r)) as real - PayoutSlack(r, supply, surplus, time)
  {
    hide ValidAt, Accrue, Claims, Assets, DebtAtUpdate, LiquidityIndexAt, VariableIndexAt, RateSlack, Excess,
         SupplyGrowth, Years, SupplierShare, OverallRate, Payments, Valid, RayMul, TotalStableDebt;
    AccrueCarries(r, time);
    var a := Accrue(r, time).value;
    ValidNow(st, r, seen);
    ReserveFactorIs(st, r);
    IncomeAtLeast(st, r, seen, time, supply);
    PaidAtLeast(st, r);
    DebtGrowsAtMost(st, r, seen, time);
    TreasuryTakesItsShare(st, r, seen, time);
    GrowthIsProduct(st, r, time);
    PayoutSum(SupplierShare(st.reserveFactor), r.liquidityRate as real, Years(r, time), SupplyGrowth(r, time),
              Assets(r) as real, Payments(r),
              RateSlack(DebtAtUpdate(r) as real, Assets(r) as real, OverallRate(r) as real),
              R * (DebtAtUpdate(a) - DebtAtUpdate(r)) as real, Excess(r, time), Claims(r, supply) as real, surplus,
              (supply + r.accruedToTreasuryScaled) as real * (a.liquidityIndex - r.liquidityIndex) as real,
              (a.accruedToTreasuryScaled - r.accruedToTreasuryScaled) as real * a.liquidityIndex as real,
              (supply + r.accruedToTreasuryScaled) as real / 2.0, a.liquidityIndex as real / 2.0);
  }

  lemma ReserveFactorIs(st: Strategy, r: Reserve)
    requires Valid(st, r)
    ensures 0.0 <= SupplierShare(st.reserveFactor) <= 1.0
  {
    hide SupplyRateImplied;
    ShareInRange(st.reserveFactor);
  }

  lemma GrowthIsProduct(st: Strategy, r: Reserve, time: int)
    requires Valid(st, r) && r.lastUpdateTimestamp <= time
    ensures SupplyGrowth(r, time) == r.liquidityRate as real * Years(r, time)
    ensures 0.0 <= Years(r, time) && 0 <= r.liquidityRate && 0.0 <= Excess(r, time)
  {
    hide SupplyRateImplied, LateSlack, CompoundedInterest, RayMul;
    RayMulMonotone(0, 0, r.scaledVariableDebt, r.variableBorrowIndex);
    CompoundedMonotone(r.variableBorrowRate, time, time, r.lastUpdateTimestamp);
    var early, late := r.lastUpdateTimestamp - r.totalStableDebtLastUpdated, time - r.lastUpdateTimestamp;
    LateSlackNonNegative(r.variableBorrowRate, 0, late);
    LateSlackNonNegative(r.averageStableBorrowRate, early, late);
    NonNegativeProduct(VariableAtUpdate(r) as real, LateSlack(r.variableBorrowRate, 0, late));
    NonNegativeProduct(r.principalStableDebt as real, LateSlack(r.averageStableBorrowRate, early, late));
    MulLe(0, r.averageStableBorrowRate, late);
  }

  /** Linear interest on everything promised, from below. */
  lemma IncomeAtLeast(st: Strategy, r: Reserve, seen: int, time: int, supply: int)
    requires ValidAt(st, r, seen) && r.lastUpdateTimestamp <= time && 0 <= supply
    ensures (supply + r.accruedToTreasuryScaled) as real * (LiquidityIndexAt(r, time) - r.liquidityIndex) as real
         >= SupplyGrowth(r, time) * (Claims(r, supply) as real / R)
            - Claims(r, supply) as real / R - (supply + r.accruedToTreasuryScaled) as real / 2.0
  {
    hide SupplyRateImplied, Observe, RayMul, LinearInterest, LiquidityIndexAt, Claims, Rounds, SeenAt;
    IncomeGuardsAgree(st, r, seen, time);
    ClaimsAsReal(r, supply);
    var scaled, index, next := supply + r.accruedToTreasuryScaled, r.liquidityIndex, LiquidityIndexAt(r, time);
    var linear := LinearInterest(r.liquidityRate, time, r.lastUpdateTimestamp);
    if r.liquidityRate != 0 {
      LinearAtLeastRay(r.liquidityRate, time, r.lastUpdateTimestamp);
      LinearAboveIdeal(r.liquidityRate, time, r.lastUpdateTimestamp);
      RayMulRounds(linear, index);
      RoundsAsReal(next, linear, index, RAY);
    } else {
      assert SupplyGrowth(r, time) == 0.0;
    }
    IndexFloor(scaled as real, index as real, next as real, linear as real, SupplyGrowth(r, time),
               Claims(r, supply) as real);
  }

  lemma IndexFloor(scaled: real, index: real, next: real, linear: real, paid: real, claims: real)
    requires claims == scaled * index && 0.0 <= scaled && 0.0 <= index
    requires (next == index && paid == 0.0) || (next * R >= linear * index - R / 2.0 && linear >= R + paid - 1.0)
    ensures scaled * (next - index) >= paid * (claims / R) - claims / R - scaled / 2.0
  {
    assert 0.0 <= scaled * index;
    if next != index || paid != 0.0 {
      RealMulLe(R + paid - 1.0, linear, index);
      assert (R + paid - 1.0) * index == R * index + (paid - 1.0) * index;
      assert (next - index) * R >= (paid - 1.0) * index - R / 2.0;
      RealMulLe((paid - 1.0) * index - R / 2.0, (next - index) * R, scaled);
      assert ((paid - 1.0) * index - R / 2.0) * scaled == R * (paid * (claims / R) - claims / R - scaled / 2.0);
      assert (next - index) * R * scaled == R * (scaled * (next - index));
    }
  }

  /** The yearly supply payments reach the suppliers' share of the borrowers'. */
  lemma PaidAtLeast(st: Strategy, r: Reserve)
    requires Valid(st, r)
    ensures r.liquidityRate as real * Assets(r) as real
         >= SupplierShare(st.reserveFactor) * Payments(r)
            - RateSlack(DebtAtUpdate(r) as real, Assets(r) as real, OverallRate(r) as real)
    ensures 0.0 <= RateSlack(DebtAtUpdate(r) as real, Assets(r) as real, OverallRate(r) as real)
  {
    hide StableAtUpdate, VariableAtUpdate, OverallBorrowRate, LiquidityRate, Usage, SupplierShare, Valid, RateSlack;
    SupplyFigures(st, r);
    var stable, variable, liquidity := StableAtUpdate(r), VariableAtUpdate(r), r.availableLiquidity + r.unbacked;
    SupplyIncomeReached(stable + variable, liquidity, OverallRate(r), st.reserveFactor,
                        Usage(stable + variable, liquidity).value);
    ShareInRange(st.reserveFactor);
    BorrowersPayAtLeast(stable, variable, r.variableBorrowRate, r.averageStableBorrowRate);
    PaidFloor(SupplierShare(st.reserveFactor), (stable + variable) as real, Assets(r) as real, OverallRate(r) as real,
              Payments(r), r.liquidityRate as real);
  }

  lemma BorrowersPayAtLeast(stable: int, variable: int, rate: int, averageStableRate: int)
    requires 0 <= stable && 0 <= variable && 0 <= rate && 0 <= averageStableRate
    ensures OverallBorrowRate(stable, variable, rate, averageStableRate) as real * (stable + variable) as real
         >= stable as real * averageStableRate as real + variable as real * rate as real
            - (stable + variable) as real / 2.0 - WAD as real
  {
    hide RayMul, RayDiv;
    var overall, debt := OverallBorrowRate(stable, variable, rate, averageStableRate), stable + variable;
    if debt == 0 {
      NoDebtNoRate(stable, variable, rate, averageStableRate);
    } else {
      OverallRateIsMean(stable, variable, rate, averageStableRate);
    }
    hide OverallBorrowRate;
    PaymentsFloor(overall, stable, variable, rate, averageStableRate);
  }

  lemma PaymentsFloor(overall: int, stable: int, variable: int, rate: int, averageStableRate: int)
    requires 2 * (overall * (stable + variable)) - 2 * (variable * rate + stable * averageStableRate)
          >= -(stable + variable) - 2 * WAD
    ensures overall as real * (stable + variable) as real
         >= stable as real * averageStableRate as real + variable as real * rate as real
            - (stable + variable) as real / 2.0 - WAD as real
  {
    ProductAsReal(overall, stable + variable);
    ProductAsReal(variable, rate);
    ProductAsReal(stable, averageStableRate);
  }

  lemma PaidFloor(share: real, debt: real, pool: real, overall: real, payments: real, paid: real)
    requires 0.0 <= share <= 1.0 && 0.0 <= debt <= pool && 0.0 <= overall
    requires overall * debt >= payments - debt / 2.0 - WAD as real
    requires paid * pool >= share * (overall * debt - (overall / R + 1.0) * pool / 2.0) - pool / 2.0
    ensures paid * pool >= share * payments - RateSlack(debt, pool, overall)
    ensures 0.0 <= RateSlack(debt, pool, overall)
  {
    NonNegativeProduct(overall / R + 1.0, pool);
    var tail := (overall / R + 1.0) * pool / 2.0;
    ShareOfSum(share, payments, overall * debt - tail, debt / 2.0 + WAD as real + tail);
  }

  lemma DebtGrowsAtMost(st: Strategy, r: Reserve, seen: int, time: int)
    requires ValidAt(st, r, seen) && r.lastUpdateTimestamp <= time && Accrue(r, time).Success?
    ensures R * (DebtAtUpdate(Accrue(r, time).value) - DebtAtUpdate(r)) as real
         <= Payments(r) * Years(r, time) + Excess(r, time)
  {
    hide Accrue, StableAtUpdate, VariableAtUpdate, StableAccrued, StableExcess, VariableExcess, Years, DebtAccrued,
         Indexed, ValidAt, Valid;
    ValidNow(st, r, seen);
    VariableGrowthBelow(st, r, seen, time);
    StableGrowthBelow(st, r, time);
    DebtAfterAccrual(r, time);
    var a := Accrue(r, time).value;
    var stable := StableAtUpdate(r) as real * r.averageStableBorrowRate as real;
    var variable := VariableAtUpdate(r) as real * r.variableBorrowRate as real;
    GrowthsAdd(stable, variable, Years(r, time), StableAccrued(r, time) - StableAtUpdate(r),
               a.totalVariableDebt - VariableAtUpdate(r), StableExcess(r, time), VariableExcess(r, time));
  }

  lemma GrowthsAdd(stable: real, variable: real, years: real, stableGrowth: int, variableGrowth: int,
                   stableSlack: real, variableSlack: real)
    requires R * stableGrowth as real <= stable * years + stableSlack
    requires R * variableGrowth as real <= variable * years + variableSlack
    ensures R * (stableGrowth + variableGrowth) as real <= (stable + variable) * years + (variableSlack + stableSlack)
  {
    assert (stable + variable) * years == stable * years + variable * years;
  }

  lemma PayoutSum(share: real, paid: real, years: real, rate: real, pool: real, payments: real, rates: real,
                  growth: real, excess: real, claims: real, surplus: real, income: real, treasury: real, half: real,
                  halfIndex: real)
    requires 0.0 <= share <= 1.0 && 0.0 <= paid && 0.0 <= years && 0.0 <= excess && rate == paid * years
    requires income >= rate * (claims / R) - claims / R - half && claims >= R * pool - surplus
    requires paid * pool >= share * payments - rates && growth <= payments * years + excess
    requires treasury >= (1.0 - share) * growth - R / 2.0 - halfIndex
    ensures income + treasury
         >= growth - (excess + years * rates + rate * surplus / R + claims / R + half + R / 2.0 + halfIndex)
  {
    NonNegativeProduct(paid, years);
    OnClaims(rate, pool, claims, surplus);
    OnPayments(share, paid, years, pool, payments, rates);
    ShareOfSum(share, growth, payments * years, excess);
    TreasuryPart(share, growth);
    PayoutTotal(growth, share * growth, excess, years * rates, rate * surplus / R, rate * (claims / R), pool * rate,
                share * (payments * years), claims / R, half, halfIndex, income, treasury);
  }

  lemma TreasuryPart(share: real, growth: real)
    ensures (1.0 - share) * growth == growth - share * growth
  {
  }

  lemma PayoutTotal(growth: real, shared: real, excess: real, rates: real, lost: real, onClaims: real, onPool: real,
                    paid: real, claims: real, half: real, halfIndex: real, income: real, treasury: real)
    requires income >= onClaims - claims - half && onClaims >= onPool - lost && onPool >= paid - rates
    requires shared <= paid + excess && treasury >= growth - shared - R / 2.0 - halfIndex
    ensures income + treasury >= growth - (excess + rates + lost + claims + half + R / 2.0 + halfIndex)
  {
  }

  lemma OnClaims(rate: real, pool: real, claims: real, surplus: real)
    requires 0.0 <= rate && claims >= R * pool - surplus
    ensures rate * (claims / R) >= pool * rate - rate * surplus / R
  {
    RealMulLe(pool - surplus / R, claims / R, rate);
    assert (pool - surplus / R) * rate == pool * rate - rate * surplus / R;
  }

  lemma OnPayments(share: real, paid: real, years: real, pool: real, payments: real, rates: real)
    requires 0.0 <= years && paid * pool >= share * payments - rates
    ensures pool * (paid * years) >= share * (payments * years) - years * rates
  {
    RealMulLe(share * payments - rates, paid * pool, years);
    assert (paid * pool) * years == pool * (paid * years);
    assert (share * payments - rates) * years == share * (payments * years) - years * rates;
  }
}
