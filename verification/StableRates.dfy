/** The average stable rate as a weighted mean. */
module StableRates {
  import opened Arithmetic
  import opened Reserves
  import opened Transactions

  /** Adding debt keeps the average between the old average and the new rate. */
  lemma AverageBetween(average: int, total: int, added: int, rate: int, low: int, high: int)
    requires 0 <= total && 0 <= added && 0 < total + added
    requires 0 <= low <= average <= high && low <= rate <= high
    ensures low <= AverageStableRate(average, total, added, rate) <= high
  {
    var n, d := average * total + rate * added, total + added;
    MulLe(low, average, total);
    MulLe(average, high, total);
    MulLe(low, rate, added);
    MulLe(rate, high, added);
    MulLe(0, low, total);
    MulLe(0, low, added);
    assert low * d == low * total + low * added;
    assert high * d == high * total + high * added;
    DivBounds(n, d);
    var q := n / d;
    assert (q + 1) * d == q * d + d;
    MulCancelLt(low, q + 1, d);
    MulCancelLe(q, high, d);
  }

  /** Adding debt and taking it out again at the same rate never raises the average,
      and lowers it by less than 2 + added / total. */
  lemma AddThenRemove(average: int, total: int, added: int, rate: int)
    requires 0 <= average && 0 < total && 0 <= added && 0 <= rate
    ensures var mixed := AverageStableRate(average, total, added, rate);
            var back := AverageStableRate(mixed, total + added, -added, rate);
            back <= average && (average - back) * total < 2 * total + added
  {
    var mixed := AverageStableRate(average, total, added, rate);
    var both := total + added;
    assert 0 <= average * total && 0 <= rate * added;
    DivBounds(average * total + rate * added, both);
    assert mixed == (average * total + rate * added) / both;
    var n := mixed * both - rate * added;
    assert average * total - both < n <= average * total;
    assert rate * -added == -(rate * added);
    var back := AverageStableRate(mixed, both, -added, rate);
    assert back == TruncDiv(n, total);
    RemovalBounds(average, total, n, back);
    assert (average - back) * total == average * total - back * total;
  }

  lemma RemovalBounds(average: int, total: int, n: int, back: int)
    requires 0 <= average && 0 < total && n <= average * total && back == TruncDiv(n, total)
    ensures back <= average && n - total < back * total
  {
    if n >= 0 {
      DivBounds(n, total);
      MulCancelLe(back, average, total);
    } else {
      var q := (-n) / total;
      DivBounds(-n, total);
      if q < 0 {
        MulLe(q, -1, total);
      }
      assert back * total == -(q * total);
    }
  }

  /** The repayment clamp acts exactly when the stable totals do not cover the
      repayment; otherwise it leaves the plain difference and its average. */
  lemma ClampActsIffNotCovered(average: int, debt: int, amount: int, rate: int)
    ensures StableAfterRepay(average, debt, amount, rate)
         == if StableTotalsCover(average, debt, amount, rate)
            then (debt - amount, AverageStableRate(average, debt, -amount, rate))
            else (0, 0)
  {
    if amount <= debt {
      AverageAfterRemoval(average, debt, amount, rate);
    }
  }
}
