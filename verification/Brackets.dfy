/** What borrowers can come to owe: never more than true per-second compounding, up to
    the roundings spelled out, at one reading and over whole runs. */
module Brackets {
  import opened Arithmetic
  import opened WadRayMath
  import opened Interest
  import opened Compounding
  import opened Failures
  import opened Rates
  import opened Reserves
  import opened Invariant
  import opened Runs

  /** True per-second compounding over `seconds`, with the accumulator's own slack. */
  ghost function TrueGrowth(rate: int, seconds: nat): real {
    Power(1.0 + PerSecond(rate), seconds) + BracketSlack(rate, seconds) / R
  }

  lemma {:induction false} PowerAtLeastOne(x: real, n: nat)
    requires 1.0 <= x
    ensures 1.0 <= Power(x, n)
  {
    if n > 0 {
      PowerAtLeastOne(x, n - 1);
      RealMulLe(1.0, x, Power(x, n - 1));
    }
  }

  lemma TrueGrowthAtLeastOne(rate: int, seconds: nat)
    requires 0 <= rate
    ensures 1.0 <= TrueGrowth(rate, seconds)
  {
    hide Pairs, Triples, Power;
    PowerAtLeastOne(1.0 + PerSecond(rate), seconds);
    SlackNonNegative(PerSecond(rate), Pairs(seconds) as real, Triples(seconds) as real);
  }

  lemma SlackNonNegative(x: real, pairs: real, triples: real)
    requires 0.0 <= x && 0.0 <= pairs && 0.0 <= triples
    ensures 0.0 <= RoundingSlack(x, pairs, triples)
  {
    var a, b := 1.0 / (2.0 * Y * Y), 1.0 / (2.0 * Y);
    assert 0.0 <= pairs * a;
    assert 0.0 <= x * a;
    assert 0.0 <= triples * (x * a + b);
  }

  /** A quantity compounded once grows by at most that, and half a unit. */
  lemma CompoundedOnce(rate: int, time: int, last: int, amount: int)
    requires 0 <= rate && last <= time && 0 <= amount
    ensures RayMul(CompoundedInterest(rate, time, last), amount) as real
         <= amount as real * TrueGrowth(rate, time - last) + 0.5
  {
    hide CompoundedInterest, RayMul, Power, PerSecond, BracketSlack, Rounds;
    CompoundedAtMostTrue(rate, time, last);
    CompoundedMonotone(rate, last, time, last);
    var c := CompoundedInterest(rate, time, last);
    RayMulRounds(c, amount);
    RoundsAsReal(RayMul(c, amount), c, amount, RAY);
    OnceSum(RayMul(c, amount) as real, c as real, amount as real, Power(1.0 + PerSecond(rate), time - last),
            BracketSlack(rate, time - last));
  }

  lemma OnceSum(product: real, factor: real, amount: real, power: real, slack: real)
    requires 0.0 <= amount && factor <= R * power + slack && product * R <= factor * amount + R / 2.0
    ensures product <= amount * (power + slack / R) + 0.5
  {
    RealMulLe(factor, R * power + slack, amount);
    assert (R * power + slack) * amount == R * (amount * (power + slack / R));
  }

  /** The borrow index that a user's debt is read at. */
  lemma NormalizedDebtAtMostTrue(rate: int, index: int, last: int, time: int)
    requires 0 <= rate && 0 <= index && last <= time
    ensures NormalizedDebt(rate, index, last, time) as real <= index as real * TrueGrowth(rate, time - last) + 0.5
  {
    hide CompoundedInterest, RayMul, TrueGrowth;
    CompoundedOnce(rate, time, last, index);
    TrueGrowthAtLeastOne(rate, time - last);
    RealMulLe(1.0, TrueGrowth(rate, time - last), index as real);
  }

  /** The index that accrual stores. */
  lemma VariableIndexAtMostTrue(r: Reserve, time: int)
    requires 0 <= r.variableBorrowRate && 0 <= r.variableBorrowIndex && r.lastUpdateTimestamp <= time
    ensures VariableIndexAt(r, time) as real
         <= r.variableBorrowIndex as real * TrueGrowth(r.variableBorrowRate, time - r.lastUpdateTimestamp) + 0.5
  {
    hide CompoundedInterest, RayMul, TrueGrowth;
    CompoundedOnce(r.variableBorrowRate, time, r.lastUpdateTimestamp, r.variableBorrowIndex);
    TrueGrowthAtLeastOne(r.variableBorrowRate, time - r.lastUpdateTimestamp);
    RealMulLe(1.0, TrueGrowth(r.variableBorrowRate, time - r.lastUpdateTimestamp), r.variableBorrowIndex as real);
  }

  /** A borrower never owes more than that on the scaled debt. */
  lemma VariableDebtAtMostTrue(r: Reserve, u: User, time: int)
    requires 0 <= r.variableBorrowRate && 0 <= r.variableBorrowIndex && r.lastUpdateTimestamp <= time
    requires 0 <= u.scaledVariableDebt
    ensures var growth := TrueGrowth(r.variableBorrowRate, time - r.lastUpdateTimestamp);
            VariableDebtBalance(r, u, time) as real
            <= u.scaledVariableDebt as real * (r.variableBorrowIndex as real * growth + 0.5) / R + 0.5
  {
    hide RayMul, TrueGrowth, NormalizedDebt, Rounds;
    var rate, index, last := r.variableBorrowRate, r.variableBorrowIndex, r.lastUpdateTimestamp;
    NormalizedDebtAtMostTrue(rate, index, last, time);
    NormalizedDebtNonNegative(rate, index, last, time);
    var normalized := NormalizedDebt(rate, index, last, time);
    RayMulRounds(u.scaledVariableDebt, normalized);
    RoundsAsReal(RayMul(u.scaledVariableDebt, normalized), u.scaledVariableDebt, normalized, RAY);
    ReadSum(RayMul(u.scaledVariableDebt, normalized) as real, u.scaledVariableDebt as real, normalized as real,
            index as real * TrueGrowth(rate, time - last) + 0.5);
  }

  lemma NormalizedDebtNonNegative(rate: int, index: int, last: int, time: int)
    requires 0 <= rate && 0 <= index && last <= time
    ensures 0 <= NormalizedDebt(rate, index, last, time)
  {
    hide CompoundedInterest, RayMul;
    CompoundedMonotone(rate, last, time, last);
    RayMulRounds(CompoundedInterest(rate, time, last), index);
  }

  lemma ReadSum(product: real, scaled: real, index: real, bound: real)
    requires 0.0 <= scaled && index <= bound && product * R <= scaled * index + R / 2.0
    ensures product <= scaled * bound / R + 0.5
  {
    RealMulLe(index, bound, scaled);
  }

  /** Stable debt, the reserve's and a user's, grows by no more either. */
  lemma StableDebtAtMostTrue(principal: int, rate: int, last: int, time: int)
    requires 0 <= rate && 0 <= principal && last <= time
    ensures TotalStableDebt(principal, rate, last, time) as real
         <= principal as real * TrueGrowth(rate, time - last) + 0.5
    ensures StableDebtBalance(principal, rate, last, time) as real
         <= principal as real * TrueGrowth(rate, time - last) + 0.5
  {
    hide CompoundedInterest, RayMul, TrueGrowth;
    CompoundedOnce(rate, time, last, principal);
    RayMulSymmetric(principal, CompoundedInterest(rate, time, last));
    TrueGrowthAtLeastOne(rate, time - last);
    RealMulLe(1.0, TrueGrowth(rate, time - last), principal as real);
  }

  // ----- whole runs -----

  /** Compounding over every interval of a story, with half a unit's rounding at each line. */
  ghost function BorrowGrowth(st: Strategy, m: Market, story: seq<Entry>): real
    decreases |story|
  {
    hide Step, TrueGrowth;
    if story == [] || Step(st, m, story[0]).Failure? then 1.0
    else
      LineGrowth(m.reserve, story[0].time) * BorrowGrowth(st, Step(st, m, story[0]).value, story[1..])
  }

  ghost function LineGrowth(r: Reserve, time: int): real {
    if time < r.lastUpdateTimestamp then 1.0
    else TrueGrowth(r.variableBorrowRate, time - r.lastUpdateTimestamp) + 1.0 / (2.0 * R)
  }

  lemma LineGrowthPositive(r: Reserve, time: int)
    requires 0 <= r.variableBorrowRate
    ensures 1.0 <= LineGrowth(r, time)
  {
    hide TrueGrowth;
    if r.lastUpdateTimestamp <= time {
      TrueGrowthAtLeastOne(r.variableBorrowRate, time - r.lastUpdateTimestamp);
    }
  }

  lemma StepIndexAtMostTrue(st: Strategy, m: Market, e: Entry)
    requires Sane(st, m) && Allowed(st, m, e)
    ensures Step(st, m, e).Success? && Sane(st, Step(st, m, e).value) && Leads(st, m, e, Step(st, m, e).value)
    ensures Step(st, m, e).value.reserve.variableBorrowIndex as real
         <= m.reserve.variableBorrowIndex as real * LineGrowth(m.reserve, e.time)
    ensures 1.0 <= LineGrowth(m.reserve, e.time)
  {
    hide Step, Observe, Reads, Permitted, SupplyRateImplied, VariableIndexAt, LineGrowth, Balanced, Faithful, SeenAt;
    ReadPermits(st, m, e);
    ObserveCarries(m.reserve, e.now);
    StepKeeps(st, m, e);
    StepStoresIndex(st, m, e);
    IndexAsRead(m.reserve, Observe(m.reserve, e.now).value, e.time);
  }

  lemma StepStoresIndex(st: Strategy, m: Market, e: Entry)
    requires Sane(st, m) && Allowed(st, m, e) && Step(st, m, e).Success? && Observe(m.reserve, e.now).Success?
    ensures Step(st, m, e).value.reserve.variableBorrowIndex
         == VariableIndexAt(Observe(m.reserve, e.now).value, e.time)
  {
    hide Observe, Reads, Permitted, ReserveAfter, UserAfter, SupplyRateImplied, UserStableDebt, VariableIndexAt,
         LiquidityIndexAt, ScaledDebtAdded, LiquidityAdded, UnbackedAdded, SeenAt, Accrue, Allowed;
    ReadPermits(st, m, e);
    var r := Observe(m.reserve, e.now).value;
    ObserveCarries(m.reserve, e.now);
    AllowedTime(st, m, e);
    IndexGuardsAgree(st, r, e.now, e.time, 0);
    ReserveAfterCarries(st, r, e);
  }

  lemma AllowedTime(st: Strategy, m: Market, e: Entry)
    requires Sane(st, m) && Allowed(st, m, e)
    ensures m.reserve.lastUpdateTimestamp <= e.time && 0 <= m.reserve.scaledVariableDebt
  {
    hide Permitted, Reads, SupplyRateImplied, UserStableDebt;
  }

  lemma IndexAsRead(r: Reserve, o: Reserve, time: int)
    requires RAY <= r.variableBorrowIndex && 0 <= r.variableBorrowRate && r.lastUpdateTimestamp <= time
    requires o.variableBorrowIndex == r.variableBorrowIndex && o.variableBorrowRate == r.variableBorrowRate
    requires o.lastUpdateTimestamp == r.lastUpdateTimestamp
    ensures VariableIndexAt(o, time) as real <= r.variableBorrowIndex as real * LineGrowth(r, time)
    ensures 1.0 <= LineGrowth(r, time)
  {
    hide VariableIndexAt, TrueGrowth;
    VariableIndexAtMostTrue(o, time);
    LineGrowthPositive(r, time);
    HalfOfIndex(r.variableBorrowIndex as real, TrueGrowth(r.variableBorrowRate, time - r.lastUpdateTimestamp));
  }

  lemma HalfOfIndex(index: real, growth: real)
    requires R <= index
    ensures index * growth + 0.5 <= index * (growth + 1.0 / (2.0 * R))
  {
    assert index * (growth + 1.0 / (2.0 * R)) == index * growth + index / (2.0 * R);
  }

  /** Over every permitted story the borrow index outgrows true compounding at the rates
      of the story by no more than the roundings of its lines. */
  lemma {:induction false} RunIndexAtMostTrue(st: Strategy, m: Market, story: seq<Entry>)
    requires Sane(st, m) && AllowedStory(st, m, story)
    ensures Run(st, m, story).Success?
    ensures Run(st, m, story).value.reserve.variableBorrowIndex as real
         <= m.reserve.variableBorrowIndex as real * BorrowGrowth(st, m, story)
    ensures 1.0 <= BorrowGrowth(st, m, story)
    decreases |story|
  {
    hide Step, Allowed, Sane, LineGrowth;
    if story != [] {
      StepIndexAtMostTrue(st, m, story[0]);
      var next := Step(st, m, story[0]).value;
      RunIndexAtMostTrue(st, next, story[1..]);
      ChainGrowth(m.reserve.variableBorrowIndex as real, next.reserve.variableBorrowIndex as real,
                  LineGrowth(m.reserve, story[0].time), BorrowGrowth(st, next, story[1..]));
    }
  }

  lemma ChainGrowth(before: real, after: real, growth: real, rest: real)
    requires after <= before * growth && 1.0 <= growth && 1.0 <= rest
    ensures after * rest <= before * (growth * rest) && 1.0 <= growth * rest
  {
    RealMulLe(after, before * growth, rest);
    RealMulLe(1.0, growth, rest);
    assert before * growth * rest == before * (growth * rest);
  }
}
