/** Backing bridged tokens: the fee reaches suppliers and treasury in full. */
module Bridge {
  import opened Arithmetic
  import opened WadRayMath
  import opened Failures
  import opened Rates
  import opened Reserves
  import opened Invariant
  import opened Transactions

  /** The supplier and protocol premiums are non-negative parts of the fee. */
  lemma PremiumsSplitFee(fee: int, protocolFee: int)
    requires 0 <= fee && 0 <= protocolFee <= PERCENTAGE_FACTOR
    ensures 0 <= PercentMul(fee, protocolFee) <= fee
  {
    PercentMulRounds(fee, protocolFee);
    PercentMulAgainstWhole(fee, protocolFee);
  }

  /** Twice the rounding, in rays: of the total supplied, of the premium ratio, of
      the new index per scaled unit, and of the protocol's minted share. */
  ghost function FeeSlack(scaled: int, supplied: int, ratio: int, index: int): int {
    supplied + 2 * ratio + scaled + index
  }

  /** Everything supplied, as backing counts it: rounded for suppliers and treasury apart. */
  ghost function Supplied(scaledSupply: int, treasury: int, index: int): int {
    RayMul(scaledSupply, index) + RayMul(treasury, index)
  }

  /** `FeeSlack` of one backing. */
  ghost function BackingSlack(r: Reserve, scaledSupply: int, fee: int, protocolFee: int, time: int): int {
    if Accrue(r, time).Failure? then 0
    else
      var a := Accrue(r, time).value;
      var supplied := Supplied(scaledSupply, a.accruedToTreasuryScaled, a.liquidityIndex);
      var premium := fee - PercentMul(fee, protocolFee);
      var index := CumulatedIndex(a.liquidityIndex, supplied, premium);
      if supplied == 0 || index.Failure? then 0
      else
        FeeSlack(scaledSupply + a.accruedToTreasuryScaled, supplied, RayDiv(WadToRay(premium), WadToRay(supplied)),
                 index.value)
  }

  /** Sharing a premium out through the index raises the value of `scaled` units by the premium. */
  lemma IndexCarriesPremium(scaled: int, index: int, next: int, supplied: int, ratio: int, premium: int)
    requires 0 <= scaled && RAY <= index && 0 < supplied && 0 <= premium && 0 <= ratio
    requires Rounds(ratio, WadToRay(premium) * RAY, WadToRay(supplied))
    requires Rounds(next, (ratio + RAY) * index, RAY)
    requires -RAY <= scaled * index - supplied * RAY <= RAY
    ensures -(supplied + 2 * ratio + scaled) <= 2 * (scaled * (next - index)) - 2 * (premium * RAY)
         <= supplied + 2 * ratio + scaled
  {
    RoundsFromProduct(ratio, WadToRay(premium) * RAY, WadToRay(supplied));
    RoundsFromProduct(next, (ratio + RAY) * index, RAY);
    assert ratio * WadToRay(supplied) == WAD_RAY_RATIO * (ratio * supplied);
    assert -supplied <= 2 * (premium * RAY) - 2 * (ratio * supplied) <= supplied;
    assert (ratio + RAY) * index == ratio * index + RAY * index;
    var step := next - index;
    assert -RAY <= 2 * (ratio * index) - 2 * (step * RAY) <= RAY;
    MulLe(-RAY, 2 * (ratio * index) - 2 * (step * RAY), scaled);
    MulLe(2 * (ratio * index) - 2 * (step * RAY), RAY, scaled);
    MulLe(-RAY, scaled * index - supplied * RAY, ratio);
    MulLe(scaled * index - supplied * RAY, RAY, ratio);
    PremiumProducts(scaled, index, step, supplied, ratio);
  }

  lemma PremiumProducts(scaled: int, index: int, step: int, supplied: int, ratio: int)
    ensures (2 * (ratio * index) - 2 * (step * RAY)) * scaled
         == 2 * (ratio * (scaled * index)) - 2 * RAY * (scaled * step)
    ensures (scaled * index - supplied * RAY) * ratio == ratio * (scaled * index) - RAY * (ratio * supplied)
  {
  }

  /** Backing raises what suppliers and treasury may claim by the whole fee, to
      within the slack, and takes exactly the backed amount off what is unbacked. */
  lemma BackingConservesFee(st: Strategy, r: Reserve, seen: int, scaledSupply: int, amount: int, fee: int,
                            protocolFee: int, time: int)
    requires ValidAt(st, r, seen) && r.lastUpdateTimestamp <= time
    requires CanBack(r, scaledSupply, amount, fee, protocolFee, time)
    ensures AfterBackUnbacked(st, r, scaledSupply, amount, fee, protocolFee, time).Success?
    ensures var a := Accrue(r, time).value;
            var n := AfterBackUnbacked(st, r, scaledSupply, amount, fee, protocolFee, time).value;
            var gained := (scaledSupply + n.accruedToTreasuryScaled) * n.liquidityIndex
                          - (scaledSupply + a.accruedToTreasuryScaled) * a.liquidityIndex;
            var slack := BackingSlack(r, scaledSupply, fee, protocolFee, time);
            && -slack <= 2 * gained - 2 * (fee * RAY) <= slack
            && n.unbacked == r.unbacked - BackingAmount(r, amount)
            && n.availableLiquidity + n.unbacked == r.availableLiquidity + r.unbacked + fee
            && a.liquidityIndex <= n.liquidityIndex
  {
    hide RayMul, RayDiv, PercentMul, Accrue, Close, ValidAt, AverageStableRate, Advances;
    AccrueReady(st, r, seen, time);
    AccrueCarries(r, time);
    BackedFields(st, r, seen, scaledSupply, amount, fee, protocolFee, time);
    var a := Accrue(r, time).value;
    var n := AfterBackUnbacked(st, r, scaledSupply, amount, fee, protocolFee, time).value;
    hide AfterBackUnbacked;
    ReadyIndex(st, a);
    var premium, toProtocol := fee - PercentMul(fee, protocolFee), PercentMul(fee, protocolFee);
    PremiumsSplitFee(fee, protocolFee);
    var scaled, index, treasury := scaledSupply + a.accruedToTreasuryScaled, a.liquidityIndex,
      a.accruedToTreasuryScaled;
    var supplied := RayMul(scaledSupply, index) + RayMul(treasury, index);
    SuppliedRounds(scaledSupply, treasury, index);
    RayDivRounds(WadToRay(premium), WadToRay(supplied));
    var ratio := RayDiv(WadToRay(premium), WadToRay(supplied));
    RayMulRounds(ratio + RAY, index);
    CumulatedIndexGrows(index, supplied, premium);
    IndexCarriesPremium(scaled, index, n.liquidityIndex, supplied, ratio, premium);
    RayDivRounds(toProtocol, n.liquidityIndex);
    FeeSum(scaled, index, n.liquidityIndex, RayDiv(toProtocol, n.liquidityIndex), toProtocol, premium,
           supplied + 2 * ratio + scaled);
  }

  lemma FeeSum(scaled: int, index: int, next: int, minted: int, toProtocol: int, premium: int, slack: int)
    requires Rounds(minted, toProtocol * RAY, next)
    requires -slack <= 2 * (scaled * (next - index)) - 2 * (premium * RAY) <= slack
    ensures -(slack + next)
         <= 2 * ((scaled + minted) * next - scaled * index) - 2 * ((premium + toProtocol) * RAY)
         <= slack + next
  {
    RoundsFromProduct(minted, toProtocol * RAY, next);
    assert (scaled + minted) * next - scaled * index == scaled * (next - index) + minted * next;
  }

  lemma KeepsSucceeds(st: Strategy, r: Reserve, result: Result<Reserve>, time: int)
    requires Keeps(st, r, result, time)
    ensures result.Success?
  {
    hide ValidAt, Advances;
  }

  lemma ReadyIndex(st: Strategy, r: Reserve)
    requires Ready(st, r)
    ensures RAY <= r.liquidityIndex && 0 <= r.accruedToTreasuryScaled
  {
    hide StableAtUpdate, VariableAtUpdate;
  }

  lemma SuppliedRounds(scaledSupply: int, treasury: int, index: int)
    requires 0 <= scaledSupply && 0 <= treasury && 0 <= index
    ensures var supplied := RayMul(scaledSupply, index) + RayMul(treasury, index);
            -RAY <= (scaledSupply + treasury) * index - supplied * RAY <= RAY
  {
    RayMulRounds(scaledSupply, index);
    RayMulRounds(treasury, index);
    RoundsFromProduct(RayMul(scaledSupply, index), scaledSupply * index, RAY);
    RoundsFromProduct(RayMul(treasury, index), treasury * index, RAY);
    assert (scaledSupply + treasury) * index == scaledSupply * index + treasury * index;
  }

  lemma BackedFields(st: Strategy, r: Reserve, seen: int, scaledSupply: int, amount: int, fee: int, protocolFee: int,
                     time: int)
    requires ValidAt(st, r, seen) && r.lastUpdateTimestamp <= time
    requires CanBack(r, scaledSupply, amount, fee, protocolFee, time)
    ensures AfterBackUnbacked(st, r, scaledSupply, amount, fee, protocolFee, time).Success?
    ensures var a := Accrue(r, time).value;
            var n := AfterBackUnbacked(st, r, scaledSupply, amount, fee, protocolFee, time).value;
            var supplied := Supplied(scaledSupply, a.accruedToTreasuryScaled, a.liquidityIndex);
            && CumulatedIndex(a.liquidityIndex, supplied, fee - PercentMul(fee, protocolFee))
               == Success(n.liquidityIndex)
            && n.liquidityIndex != 0
            && n.accruedToTreasuryScaled
               == a.accruedToTreasuryScaled + RayDiv(PercentMul(fee, protocolFee), n.liquidityIndex)
            && n.unbacked == r.unbacked - BackingAmount(r, amount)
            && n.availableLiquidity == r.availableLiquidity + BackingAmount(r, amount) + fee
  {
    hide RayMul, RayDiv, PercentMul, Accrue, Close, AverageStableRate, CumulatedIndex, ValidAt, Keeps;
    BackUnbackedKeeps(st, r, seen, scaledSupply, amount, fee, protocolFee, time);
    KeepsSucceeds(st, r, AfterBackUnbacked(st, r, scaledSupply, amount, fee, protocolFee, time), time);
    forall c: Reserve | Close(st, c).Success?
      ensures Close(st, c).value.liquidityIndex == c.liquidityIndex
      ensures Close(st, c).value.unbacked == c.unbacked
      ensures Close(st, c).value.availableLiquidity == c.availableLiquidity
      ensures Close(st, c).value.accruedToTreasuryScaled == c.accruedToTreasuryScaled
    {
      CloseOnlyDerives(st, c);
    }
  }

  /** Backing clears the unbacked amount or takes the backed amount off it, and never
      takes it below zero. */
  lemma BackingClearsOrSpends(st: Strategy, r: Reserve, seen: int, scaledSupply: int, amount: int, fee: int,
                              protocolFee: int, time: int)
    requires ValidAt(st, r, seen) && r.lastUpdateTimestamp <= time
    requires CanBack(r, scaledSupply, amount, fee, protocolFee, time)
    ensures AfterBackUnbacked(st, r, scaledSupply, amount, fee, protocolFee, time).Success?
    ensures var n := AfterBackUnbacked(st, r, scaledSupply, amount, fee, protocolFee, time).value;
            && 0 <= n.unbacked && r.unbacked - amount <= n.unbacked <= r.unbacked
            && (n.unbacked == 0 || n.unbacked == r.unbacked - amount)
            && n.availableLiquidity == r.availableLiquidity + (r.unbacked - n.unbacked) + fee
  {
    UnbackedSeen(st, r, seen);
    BackedFields(st, r, seen, scaledSupply, amount, fee, protocolFee, time);
    hide RayMul, RayDiv, PercentMul, Accrue, AfterBackUnbacked, CumulatedIndex, ValidAt;
  }

  lemma UnbackedSeen(st: Strategy, r: Reserve, seen: int)
    requires ValidAt(st, r, seen)
    ensures 0 <= r.unbacked
  {
    hide SupplyRateImplied, SeenAt;
  }

  /** The treasury's part of the fee is the protocol's percentage of it, to within half a
      unit for each of the two roundings. */
  lemma ProtocolGetsItsShare(st: Strategy, r: Reserve, seen: int, scaledSupply: int, amount: int, fee: int,
                             protocolFee: int, time: int)
    requires ValidAt(st, r, seen) && r.lastUpdateTimestamp <= time
    requires CanBack(r, scaledSupply, amount, fee, protocolFee, time)
    ensures AfterBackUnbacked(st, r, scaledSupply, amount, fee, protocolFee, time).Success?
    ensures var n := AfterBackUnbacked(st, r, scaledSupply, amount, fee, protocolFee, time).value;
            var worth := (n.accruedToTreasuryScaled - Accrue(r, time).value.accruedToTreasuryScaled) * n.liquidityIndex;
            -PERCENTAGE_FACTOR * (RAY + n.liquidityIndex)
            <= 2 * (PERCENTAGE_FACTOR * worth) - 2 * RAY * (fee * protocolFee)
            <= PERCENTAGE_FACTOR * (RAY + n.liquidityIndex)
  {
    hide RayMul, RayDiv, PercentMul, Accrue, AfterBackUnbacked, CumulatedIndex, ValidAt, BackingAmount, Close;
    BackedFields(st, r, seen, scaledSupply, amount, fee, protocolFee, time);
    BackingConservesFee(st, r, seen, scaledSupply, amount, fee, protocolFee, time);
    AccrueReady(st, r, seen, time);
    ReadyIndex(st, Accrue(r, time).value);
    var n := AfterBackUnbacked(st, r, scaledSupply, amount, fee, protocolFee, time).value;
    var premium := PercentMul(fee, protocolFee);
    PercentMulRounds(fee, protocolFee);
    RayDivRounds(premium, n.liquidityIndex);
    ShareWorth(fee * protocolFee, premium, RayDiv(premium, n.liquidityIndex), n.liquidityIndex);
  }

  lemma ShareWorth(product: int, premium: int, minted: int, index: int)
    requires Rounds(premium, product, PERCENTAGE_FACTOR) && Rounds(minted, premium * RAY, index)
    ensures -PERCENTAGE_FACTOR * (RAY + index)
         <= 2 * (PERCENTAGE_FACTOR * (minted * index)) - 2 * RAY * product
         <= PERCENTAGE_FACTOR * (RAY + index)
  {
    RoundsFromProduct(premium, product, PERCENTAGE_FACTOR);
    RoundsFromProduct(minted, premium * RAY, index);
  }
}
