/** Collateral, bonus and protocol fee of a liquidation. */
module Liquidation {
  import opened Arithmetic
  import opened WadRayMath

  function Pow10(n: nat): (p: int)
    ensures 0 < p
  {
    if n == 0 then 1 else 10 * Pow10(n - 1)
  }

  /** The amount of one asset worth `amount` of another, rounded down. */
  function Convert(amount: int, fromPrice: int, fromDecimals: nat, toPrice: int, toDecimals: nat): int
    requires toPrice != 0
  {
    TruncDiv(fromPrice * amount * Pow10(toDecimals), toPrice * Pow10(fromDecimals))
  }

  datatype Split = Split(total: int, reward: int, fee: int)

  /** The debt to cover is given: collateral is seized with a bonus on top. */
  function SplitFromDebt(baseCollateral: int, bonus: int, protocolFee: int): Split {
    var bonusCollateral := PercentMul(baseCollateral, bonus) - baseCollateral;
    var total := baseCollateral + bonusCollateral;
    var fee := PercentMul(bonusCollateral, protocolFee);
    Split(total, total - fee, fee)
  }

  /** All of the borrower's collateral is seized: the bonus is worked out backwards. */
  function SplitFromBalance(balance: int, bonus: int, protocolFee: int): Split
    requires bonus != 0
  {
    var bonusCollateral := balance - PercentDiv(balance, bonus);
    var fee := PercentMul(bonusCollateral, protocolFee);
    Split(balance, balance - fee, fee)
  }

  /** Debt repaid for all of the collateral: its worth in the debt's asset, less the bonus. */
  function CappedPrincipal(collateral: int, price: int, decimals: nat, debtPrice: int, debtDecimals: nat,
                           bonus: int): int
    requires debtPrice != 0 && bonus != 0
  {
    PercentDiv(Convert(collateral, price, decimals, debtPrice, debtDecimals), bonus)
  }

  /** With a bonus of at least 100% and a fee of at most 100%, reward and fee are
      non-negative, add up to what was seized, the fee is the protocol's share of the
      bonus to the nearest unit, and the liquidator never gets less than the collateral
      worth the debt. */
  lemma DebtSplitIsFair(baseCollateral: int, bonus: int, protocolFee: int)
    requires 0 <= baseCollateral && PERCENTAGE_FACTOR <= bonus && 0 <= protocolFee <= PERCENTAGE_FACTOR
    ensures var s := SplitFromDebt(baseCollateral, bonus, protocolFee);
            && s.reward + s.fee == s.total == PercentMul(baseCollateral, bonus)
            && baseCollateral <= s.reward <= s.total && 0 <= s.fee
            && Rounds(s.fee, (s.total - baseCollateral) * protocolFee, PERCENTAGE_FACTOR)
  {
    PercentMulAgainstWhole(baseCollateral, bonus);
    var bonusCollateral := PercentMul(baseCollateral, bonus) - baseCollateral;
    PercentMulAgainstWhole(bonusCollateral, protocolFee);
    PercentMulRounds(bonusCollateral, protocolFee);
  }

  /** A quotient by at least 100% never exceeds the whole. */
  lemma PercentDivShrinks(a: int, bonus: int)
    requires 0 <= a && PERCENTAGE_FACTOR <= bonus
    ensures 0 <= PercentDiv(a, bonus) <= a
  {
    PercentDivRounds(a, bonus);
    MulLe(PERCENTAGE_FACTOR, bonus, a);
    RoundsAtMost(PercentDiv(a, bonus), a * PERCENTAGE_FACTOR, bonus, a);
  }

  lemma BalanceSplitIsFair(balance: int, bonus: int, protocolFee: int)
    requires 0 <= balance && PERCENTAGE_FACTOR <= bonus && 0 <= protocolFee <= PERCENTAGE_FACTOR
    ensures var s := SplitFromBalance(balance, bonus, protocolFee);
            && s.reward + s.fee == s.total == balance
            && PercentDiv(balance, bonus) <= s.reward <= balance && 0 <= s.fee
            && Rounds(s.fee, (balance - PercentDiv(balance, bonus)) * protocolFee, PERCENTAGE_FACTOR)
  {
    PercentDivShrinks(balance, bonus);
    var bonusCollateral := balance - PercentDiv(balance, bonus);
    PercentMulAgainstWhole(bonusCollateral, protocolFee);
    PercentMulRounds(bonusCollateral, protocolFee);
  }

  /** Re-applying the bonus to the quotient returns the input to within bonus / 20000 + 1/2. */
  lemma BonusRoundTrip(a: int, bonus: int)
    requires 0 <= a && 0 < bonus
    ensures -(bonus + PERCENTAGE_FACTOR)
         <= 2 * PERCENTAGE_FACTOR * (PercentMul(PercentDiv(a, bonus), bonus) - a)
         <= bonus + PERCENTAGE_FACTOR
  {
    var q := PercentDiv(a, bonus);
    PercentDivRounds(a, bonus);
    PercentMulRounds(q, bonus);
    RoundsFromProduct(q, a * PERCENTAGE_FACTOR, bonus);
    RoundsFromProduct(PercentMul(q, bonus), q * bonus, PERCENTAGE_FACTOR);
  }

  /** Both settlements agree: seizing exactly what a debt's split seizes splits it
      back into the same collateral, to within 1/2 + 5000 / bonus. */
  lemma SplitsAgree(baseCollateral: int, bonus: int)
    requires 0 <= baseCollateral && 0 < bonus
    ensures -(bonus + PERCENTAGE_FACTOR)
         <= 2 * bonus * (PercentDiv(PercentMul(baseCollateral, bonus), bonus) - baseCollateral)
         <= bonus + PERCENTAGE_FACTOR
  {
    var t := PercentMul(baseCollateral, bonus);
    var q := PercentDiv(t, bonus);
    PercentMulRounds(baseCollateral, bonus);
    PercentDivRounds(t, bonus);
    RoundsFromProduct(t, baseCollateral * bonus, PERCENTAGE_FACTOR);
    RoundsFromProduct(q, t * PERCENTAGE_FACTOR, bonus);
    assert 2 * bonus * (q - baseCollateral) == 2 * (q * bonus) - 2 * (baseCollateral * bonus);
  }

  /** What an amount counted in smallest units is worth, in the price's own unit. */
  ghost function Value(amount: real, price: int, decimals: nat): real {
    amount * price as real / Pow10(decimals) as real
  }

  /** A conversion keeps the value, short of one smallest unit of the target. */
  lemma ConvertKeepsValue(amount: int, price: int, decimals: nat, otherPrice: int, otherDecimals: nat)
    requires 0 <= amount && 0 < price && 0 < otherPrice
    ensures var got := Convert(amount, price, decimals, otherPrice, otherDecimals);
            && 0 <= got
            && Value(got as real, otherPrice, otherDecimals) <= Value(amount as real, price, decimals)
            && Value(amount as real, price, decimals) < Value((got + 1) as real, otherPrice, otherDecimals)
  {
    hide Pow10, Value;
    var unit, otherUnit := Pow10(decimals), Pow10(otherDecimals);
    var up, down := price * otherUnit, otherPrice * unit;
    ProductPositive(price, otherUnit);
    ProductPositive(otherPrice, unit);
    Regroup(price, amount, otherUnit);
    FloorRatio(amount, up, down);
    var got := up * amount / down;
    DivBounds(up * amount, down);
    assert (got + 1) * down == got * down + down;
    ValueOfProduct(got, amount, otherPrice, price, unit, otherUnit);
    ValueOfProductStrict(amount, got + 1, price, otherPrice, otherUnit, unit);
    ValueUnfolds(got as real, otherPrice, otherDecimals);
    ValueUnfolds((got + 1) as real, otherPrice, otherDecimals);
    ValueUnfolds(amount as real, price, decimals);
  }

  lemma ValueUnfolds(amount: real, price: int, decimals: nat)
    ensures Value(amount, price, decimals) == amount * price as real / Pow10(decimals) as real
  {
  }

  lemma ValueOfProduct(a: int, b: int, priceA: int, priceB: int, unitB: int, unitA: int)
    requires 0 < unitA && 0 < unitB && a * (priceA * unitB) <= (priceB * unitA) * b
    ensures a as real * priceA as real / unitA as real <= b as real * priceB as real / unitB as real
  {
    ThreeAsReal(a, priceA, unitB);
    ThreeAsReal(b, priceB, unitA);
    assert (priceB * unitA) * b == b * (priceB * unitA);
    CrossDivide(a as real * priceA as real, b as real * priceB as real, unitA as real, unitB as real);
  }

  lemma ValueOfProductStrict(a: int, b: int, priceA: int, priceB: int, unitB: int, unitA: int)
    requires 0 < unitA && 0 < unitB && (priceA * unitB) * a < b * (priceB * unitA)
    ensures a as real * priceA as real / unitA as real < b as real * priceB as real / unitB as real
  {
    ThreeAsReal(a, priceA, unitB);
    ThreeAsReal(b, priceB, unitA);
    assert (priceA * unitB) * a == a * (priceA * unitB);
    CrossDivideStrict(a as real * priceA as real, b as real * priceB as real, unitA as real, unitB as real);
  }

  lemma ThreeAsReal(a: int, b: int, c: int)
    ensures (a * (b * c)) as real == a as real * b as real * c as real
  {
    assert (b * c) as real == b as real * c as real;
    assert (a * (b * c)) as real == a as real * (b * c) as real;
  }

  lemma CrossDivide(a: real, b: real, c: real, d: real)
    requires 0.0 < c && 0.0 < d && a * d <= b * c
    ensures a / c <= b / d
  {
    assert a == a / c * c && b == b / d * d;
    assert (a / c * c) * d == (a / c) * (c * d) && (b / d * d) * c == (b / d) * (c * d);
    Cancel(a / c, b / d, c * d);
  }

  lemma CrossDivideStrict(a: real, b: real, c: real, d: real)
    requires 0.0 < c && 0.0 < d && a * d < b * c
    ensures a / c < b / d
  {
    assert a == a / c * c && b == b / d * d;
    assert (a / c * c) * d == (a / c) * (c * d) && (b / d * d) * c == (b / d) * (c * d);
    CancelStrict(a / c, b / d, c * d);
  }

  lemma CancelStrict(a: real, b: real, c: real)
    requires a * c < b * c && 0.0 < c
    ensures a < b
  {
    if b <= a {
      RealMulLe(b, a, c);
    }
  }

  lemma Cancel(a: real, b: real, c: real)
    requires a * c <= b * c && 0.0 < c
    ensures a <= b
  {
    assert a == a * c / c && b == b * c / c;
  }

  /** One more decimal of the target multiplies the amount by ten, to within nine; one
      more decimal of the origin divides it by ten. */
  lemma DecimalsScale(amount: int, price: int, decimals: nat, otherPrice: int, otherDecimals: nat)
    requires 0 <= amount && 0 < price && 0 < otherPrice
    ensures var got := Convert(amount, price, decimals, otherPrice, otherDecimals);
            && 10 * got <= Convert(amount, price, decimals, otherPrice, otherDecimals + 1) <= 10 * got + 9
            && Convert(amount, price, decimals + 1, otherPrice, otherDecimals) == got / 10
  {
    var unit, otherUnit := Pow10(decimals), Pow10(otherDecimals);
    assert Pow10(decimals + 1) == 10 * unit && Pow10(otherDecimals + 1) == 10 * otherUnit;
    hide Pow10;
    var up, down := price * otherUnit, otherPrice * unit;
    ProductPositive(price, otherUnit);
    ProductPositive(otherPrice, unit);
    Regroup(price, amount, otherUnit);
    Regroup(price, amount, 10 * otherUnit);
    FloorRatio(amount, up, down);
    var n := up * amount;
    assert price * (10 * otherUnit) * amount == 10 * n by { TenTimes(price, otherUnit, amount); }
    assert otherPrice * (10 * unit) == 10 * down;
    TenfoldQuotient(n, down);
  }

  lemma TenTimes(a: int, b: int, c: int)
    ensures a * (10 * b) * c == 10 * ((a * b) * c)
  {
  }

  lemma TenfoldQuotient(n: int, d: int)
    requires 0 <= n && 0 < d
    ensures 10 * (n / d) <= 10 * n / d <= 10 * (n / d) + 9
    ensures n / (10 * d) == n / d / 10
  {
    DivBounds(n, d);
    DivBounds(10 * n, d);
    DivBounds(n, 10 * d);
    TenfoldNumerator(n / d, 10 * n / d, n, d);
    TenfoldDivisor(n / d, n / (10 * d), n, d);
  }

  lemma TenfoldNumerator(q: int, p: int, n: int, d: int)
    requires 0 < d && q * d <= n < q * d + d && p * d <= 10 * n < p * d + d
    ensures 10 * q <= p <= 10 * q + 9
  {
    assert (p + 1) * d == p * d + d && (10 * q) * d == 10 * (q * d) && (10 * q + 10) * d == 10 * (q * d) + 10 * d;
    MulCancelLt(10 * q, p + 1, d);
    MulCancelLt(p, 10 * q + 10, d);
  }

  lemma TenfoldDivisor(q: int, u: int, n: int, d: int)
    requires 0 < d && q * d <= n < q * d + d && u * (10 * d) <= n < u * (10 * d) + 10 * d
    ensures u == q / 10
  {
    assert u * (10 * d) == (10 * u) * d;
    assert (q + 1) * d == q * d + d && (10 * u + 10) * d == (10 * u) * d + 10 * d;
    MulCancelLt(10 * u, q + 1, d);
    MulCancelLt(q, 10 * u + 10, d);
  }

  /** Converting a debt to collateral and back never gains. */
  lemma ConversionNeverGains(amount: int, price: int, decimals: nat, otherPrice: int, otherDecimals: nat)
    requires 0 <= amount && 0 < price && 0 < otherPrice
    ensures 0 <= Convert(Convert(amount, price, decimals, otherPrice, otherDecimals),
                         otherPrice, otherDecimals, price, decimals) <= amount
  {
    hide Pow10;
    var up, down := price * Pow10(otherDecimals), otherPrice * Pow10(decimals);
    ProductPositive(price, Pow10(otherDecimals));
    ProductPositive(otherPrice, Pow10(decimals));
    var there := Convert(amount, price, decimals, otherPrice, otherDecimals);
    Regroup(price, amount, Pow10(otherDecimals));
    FloorRatio(amount, up, down);
    assert there == up * amount / down;
    Regroup(otherPrice, there, Pow10(decimals));
    FloorBack(amount, there, up, down);
  }

  lemma ConvertMonotone(less: int, more: int, price: int, decimals: nat, otherPrice: int, otherDecimals: nat)
    requires 0 <= less <= more && 0 < price && 0 < otherPrice
    ensures 0 <= Convert(less, price, decimals, otherPrice, otherDecimals)
              <= Convert(more, price, decimals, otherPrice, otherDecimals)
  {
    hide Pow10;
    var up, down := price * Pow10(otherDecimals), otherPrice * Pow10(decimals);
    ProductPositive(price, Pow10(otherDecimals));
    ProductPositive(otherPrice, Pow10(decimals));
    Regroup(price, less, Pow10(otherDecimals));
    Regroup(price, more, Pow10(otherDecimals));
    MulLe(0, less, up);
    MulLe(less, more, up);
    assert up * less == less * up && up * more == more * up;
    FloorRatio(less, up, down);
    FloorRatio(more, up, down);
    DivMonotone(up * less, up * more, down);
  }

  /** The debt repaid for all of the collateral is never worth more than that collateral. */
  lemma CappedPrincipalWithinCollateral(collateral: int, price: int, decimals: nat, debtPrice: int, debtDecimals: nat,
                                        bonus: int)
    requires 0 <= collateral && 0 < price && 0 < debtPrice && PERCENTAGE_FACTOR <= bonus
    ensures 0 <= Convert(CappedPrincipal(collateral, price, decimals, debtPrice, debtDecimals, bonus),
                         debtPrice, debtDecimals, price, decimals)
              <= collateral
  {
    hide Convert, PercentDiv;
    var worth := Convert(collateral, price, decimals, debtPrice, debtDecimals);
    ConvertMonotone(0, collateral, price, decimals, debtPrice, debtDecimals);
    PercentDivShrinks(worth, bonus);
    ConvertMonotone(PercentDiv(worth, bonus), worth, debtPrice, debtDecimals, price, decimals);
    ConversionNeverGains(collateral, price, decimals, debtPrice, debtDecimals);
  }

  /** Re-applying the bonus to that debt and converting it back returns the collateral's
      value: at most the bonus's rounding above it, and at most one unit of each asset
      and that rounding below it. */
  lemma CappedPrincipalCoversCollateral(collateral: int, price: int, decimals: nat, debtPrice: int, debtDecimals: nat,
                                        bonus: int)
    requires 0 <= collateral && 0 < price && 0 < debtPrice && 0 < bonus
    ensures var principal := CappedPrincipal(collateral, price, decimals, debtPrice, debtDecimals, bonus);
            var returned := Convert(PercentMul(principal, bonus), debtPrice, debtDecimals, price, decimals);
            var rounding := bonus as real / (2.0 * PERCENTAGE_FACTOR as real) + 0.5;
            var whole := Value(collateral as real, price, decimals);
            && 0 <= principal
            && Value(returned as real, price, decimals) <= whole + Value(rounding, debtPrice, debtDecimals)
            && Value(returned as real, price, decimals)
               >= whole - Value(rounding + 1.0, debtPrice, debtDecimals) - Value(1.0, price, decimals)
  {
    hide Convert, PercentDiv, PercentMul, Value;
    var worth := Convert(collateral, price, decimals, debtPrice, debtDecimals);
    ConvertKeepsValue(collateral, price, decimals, debtPrice, debtDecimals);
    BonusRoundTrip(worth, bonus);
    PercentDivRounds(worth, bonus);
    var principal := PercentDiv(worth, bonus);
    PercentMulRounds(principal, bonus);
    var whole := PercentMul(principal, bonus);
    ConvertKeepsValue(whole, debtPrice, debtDecimals, price, decimals);
    var returned := Convert(whole, debtPrice, debtDecimals, price, decimals);
    var rounding := bonus as real / (2.0 * PERCENTAGE_FACTOR as real) + 0.5;
    ValueAdds(worth as real, 1.0, debtPrice, debtDecimals);
    ValueAdds(worth as real, rounding, debtPrice, debtDecimals);
    ValueAdds(whole as real, rounding, debtPrice, debtDecimals);
    ValueAdds(rounding, 1.0, debtPrice, debtDecimals);
    ValueAdds(returned as real, 1.0, price, decimals);
    ValueMonotone(whole as real, worth as real + rounding, debtPrice, debtDecimals);
    ValueMonotone(worth as real, whole as real + rounding, debtPrice, debtDecimals);
  }

  lemma ValueAdds(a: real, b: real, price: int, decimals: nat)
    ensures Value(a + b, price, decimals) == Value(a, price, decimals) + Value(b, price, decimals)
  {
    hide Pow10;
    var p, unit := price as real, Pow10(decimals) as real;
    assert (a + b) * p == a * p + b * p;
    assert (a * p + b * p) / unit == a * p / unit + b * p / unit;
  }

  lemma ValueMonotone(a: real, b: real, price: int, decimals: nat)
    requires a <= b && 0 <= price
    ensures Value(a, price, decimals) <= Value(b, price, decimals)
  {
    hide Pow10;
    RealMulLe(a, b, price as real);
    var unit := Pow10(decimals) as real;
    RealMulLe(a * price as real, b * price as real, 1.0 / unit);
    assert a * price as real / unit == a * price as real * (1.0 / unit);
    assert b * price as real / unit == b * price as real * (1.0 / unit);
  }

  lemma Regroup(a: int, b: int, c: int)
    ensures a * b * c == (a * c) * b
  {
  }

  lemma ProductPositive(a: int, b: int)
    requires 0 < a && 0 < b
    ensures 0 < a * b
  {
  }

  lemma FloorRatio(amount: int, up: int, down: int)
    requires 0 <= amount && 0 < up && 0 < down
    ensures 0 <= up * amount && 0 <= up * amount / down
    ensures down * (up * amount / down) <= up * amount
  {
    MulLe(0, up, amount);
    DivBounds(up * amount, down);
    DivMonotone(0, up * amount, down);
  }

  lemma FloorBack(amount: int, there: int, up: int, down: int)
    requires 0 <= there && 0 < up && 0 < down && down * there <= up * amount
    ensures 0 <= down * there && 0 <= down * there / up <= amount
  {
    MulLe(0, down, there);
    DivBounds(down * there, up);
    DivMonotone(0, down * there, up);
    MulCancelLe(down * there / up, amount, up);
  }
}
