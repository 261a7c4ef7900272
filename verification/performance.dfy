/** The metrics stage (`calculate_performance_metrics`, main.py): the daily
    return, running peak and drawdown columns it adds to the backtest
    table, and the three headline figures it reports. Fractional powers and
    square roots are floating-point library calls; they enter as function
    parameters, and every property that depends on them states what it
    assumes of them. */
module Performance {
  import opened Wrappers
  import opened Series
  import opened RealAlgebra

  /** Trading days per year, used to annualise the Sharpe ratio. */
  const TradingDaysPerYear: real := 252.0

  /** Calendar days per year, used to turn elapsed days into years. */
  const DaysPerYear: real := 365.25

  /** Every value of the column is positive. */
  predicate AllPositive(xs: seq<real>)
  {
    forall t :: 0 <= t < |xs| ==> xs[t] > 0.0
  }

  /** `cummax()` at row `t`: the highest value among rows `0 .. t`. */
  function PeakAt(xs: seq<real>, t: nat): (peak: real)
    requires t < |xs|
    ensures xs[t] <= peak
  {
    if t == 0 then xs[0]
    else if PeakAt(xs, t - 1) >= xs[t] then PeakAt(xs, t - 1)
    else xs[t]
  }

  /** The `Cummax` column. */
  function Cummax(xs: seq<real>): (r: seq<real>)
    ensures |r| == |xs|
    ensures forall t :: 0 <= t < |xs| ==> xs[t] <= r[t]
  {
    seq(|xs|, t requires 0 <= t < |xs| => PeakAt(xs, t))
  }

  /** The peak at row `t` bounds every value up to `t`, is one of them, and
      never falls from one row to the next. */
  lemma {:induction false} PeakIsRunningMaximum(xs: seq<real>, t: nat)
    requires t < |xs|
    ensures forall k :: 0 <= k <= t ==> xs[k] <= PeakAt(xs, t)
    ensures exists k :: 0 <= k <= t && PeakAt(xs, t) == xs[k]
    ensures t > 0 ==> PeakAt(xs, t - 1) <= PeakAt(xs, t)
  {
    if t == 0 {
      assert PeakAt(xs, 0) == xs[0];
    } else {
      PeakIsRunningMaximum(xs, t - 1);
      if PeakAt(xs, t - 1) >= xs[t] {
        var k :| 0 <= k <= t - 1 && PeakAt(xs, t - 1) == xs[k];
        assert PeakAt(xs, t) == xs[k];
      } else {
        assert PeakAt(xs, t) == xs[t];
      }
    }
  }

  /** On a column that never falls, the peak is the current value. */
  lemma {:induction false} PeakOfRisingColumn(xs: seq<real>, t: nat)
    requires t < |xs|
    requires forall k :: 1 <= k < |xs| ==> xs[k - 1] <= xs[k]
    ensures PeakAt(xs, t) == xs[t]
  {
    if t > 0 {
      PeakOfRisingColumn(xs, t - 1);
    }
  }

  /** The `Drawdown` column: each value relative to the peak so far,
      minus one. */
  function Drawdowns(portfolio: seq<real>): (r: seq<real>)
    requires AllPositive(portfolio)
    ensures |r| == |portfolio|
  {
    seq(|portfolio|, t requires 0 <= t < |portfolio| => portfolio[t] / PeakAt(portfolio, t) - 1.0)
  }

  /** Each drawdown lies in `(-1, 0]`, and is zero exactly at a new peak. */
  lemma DrawdownAt(portfolio: seq<real>, t: nat)
    requires AllPositive(portfolio) && t < |portfolio|
    ensures -1.0 < Drawdowns(portfolio)[t] <= 0.0
    ensures Drawdowns(portfolio)[t] == 0.0 <==> portfolio[t] == PeakAt(portfolio, t)
  {
    Shortfall(portfolio[t], PeakAt(portfolio, t));
  }

  /** `Series.min()` of a non-empty column. */
  function MinOf(xs: seq<real>): (m: real)
    requires |xs| > 0
    ensures forall k :: 0 <= k < |xs| ==> m <= xs[k]
    ensures exists k :: 0 <= k < |xs| && m == xs[k]
  {
    if |xs| == 1 then xs[0]
    else
      var rest := MinOf(xs[..|xs| - 1]);
      assert forall k :: 0 <= k < |xs| - 1 ==> xs[..|xs| - 1][k] == xs[k];
      if rest <= xs[|xs| - 1] then rest else xs[|xs| - 1]
  }

  /** `Drawdown.min()`: the deepest drawdown. */
  function MaxDrawdown(portfolio: seq<real>): (m: real)
    requires |portfolio| > 0 && AllPositive(portfolio)
    ensures forall t :: 0 <= t < |portfolio| ==> m <= Drawdowns(portfolio)[t]
    ensures exists t :: 0 <= t < |portfolio| && m == Drawdowns(portfolio)[t]
  {
    MinOf(Drawdowns(portfolio))
  }

  /** The deepest drawdown lies in `(-1, 0]`: row 0 is its own peak, and no
      positive value falls all the way to zero. */
  lemma MaxDrawdownRange(portfolio: seq<real>)
    requires |portfolio| > 0 && AllPositive(portfolio)
    ensures -1.0 < MaxDrawdown(portfolio) <= 0.0
  {
    var drawdowns := Drawdowns(portfolio);
    DrawdownAt(portfolio, 0);
    var k :| 0 <= k < |drawdowns| && MaxDrawdown(portfolio) == drawdowns[k];
    DrawdownAt(portfolio, k);
  }

  /** The deepest drawdown is zero exactly when the portfolio never falls
      from one row to the next. */
  lemma NoDrawdownIffNeverFalls(portfolio: seq<real>)
    requires |portfolio| > 0 && AllPositive(portfolio)
    ensures MaxDrawdown(portfolio) == 0.0 <==> forall t :: 1 <= t < |portfolio| ==> portfolio[t - 1] <= portfolio[t]
  {
    var drawdowns := Drawdowns(portfolio);
    if forall t :: 1 <= t < |portfolio| ==> portfolio[t - 1] <= portfolio[t] {
      var k :| 0 <= k < |drawdowns| && MaxDrawdown(portfolio) == drawdowns[k];
      PeakOfRisingColumn(portfolio, k);
      DrawdownAt(portfolio, k);
    } else {
      var t :| 1 <= t < |portfolio| && portfolio[t - 1] > portfolio[t];
      PeakIsRunningMaximum(portfolio, t);
      DrawdownAt(portfolio, t);
      assert drawdowns[t] < 0.0;
    }
  }

  /** The annualised return: with a positive number of elapsed days, the
      growth from the first to the last portfolio value raised to the power
      one over the elapsed years, minus one; otherwise 0. `power(b, e)` is
      `b ** e`. */
  function AnnualizedReturn(portfolio: seq<real>, totalDays: int, power: (real, real) -> real): real
    requires |portfolio| > 0 && portfolio[0] != 0.0
  {
    if totalDays > 0 then
      var years := totalDays as real / DaysPerYear;
      var totalReturn := portfolio[|portfolio| - 1] / portfolio[0] - 1.0;
      power(1.0 + totalReturn, 1.0 / years) - 1.0
    else
      0.0
  }

  /** `power` behaves like real exponentiation on the sign of `b - 1`: a
      positive power of a positive base is above, at or below 1 as the base
      is. */
  ghost predicate KeepsSideOfOne(power: (real, real) -> real)
  {
    forall b: real, e: real {:trigger power(b, e)} :: b > 0.0 && e > 0.0 ==>
      (power(b, e) > 1.0 <==> b > 1.0) && (power(b, e) == 1.0 <==> b == 1.0)
  }

  /** Over a positive period the annualised return has the sign of the
      total return: positive for a gain, zero for no change, negative for
      a loss. Over an empty or negative period it is 0. */
  lemma AnnualizedReturnSign(portfolio: seq<real>, totalDays: int, power: (real, real) -> real)
    requires |portfolio| > 0 && AllPositive(portfolio)
    requires KeepsSideOfOne(power)
    ensures totalDays <= 0 ==> AnnualizedReturn(portfolio, totalDays, power) == 0.0
    ensures totalDays > 0 ==>
      (AnnualizedReturn(portfolio, totalDays, power) > 0.0 <==> portfolio[|portfolio| - 1] > portfolio[0])
    ensures totalDays > 0 ==>
      (AnnualizedReturn(portfolio, totalDays, power) == 0.0 <==> portfolio[|portfolio| - 1] == portfolio[0])
  {
    if totalDays > 0 {
      var first := portfolio[0];
      var last := portfolio[|portfolio| - 1];
      var growth := 1.0 + (last / first - 1.0);
      var exponent := 1.0 / (totalDays as real / DaysPerYear);
      assert growth == last / first;
      assert exponent > 0.0;
      GrowthAgainstOne(last, first);
      assert power(growth, exponent) > 1.0 <==> growth > 1.0;
    }
  }

  /** A ratio of positive values is above, at or below 1 as the numerator is
      above, at or below the denominator. */
  lemma GrowthAgainstOne(last: real, first: real)
    requires last > 0.0 && first > 0.0
    ensures last / first > 0.0
    ensures last / first > 1.0 <==> last > first
    ensures last / first == 1.0 <==> last == first
  {
    if last <= first {
      Shortfall(last, first);
    } else {
      Shortfall(first, last);
      QuotientsAdd(last - first, first, first);
      assert (last - first) / first > 0.0;
    }
  }

  /** `power` is real exponentiation as far as compounding needs: raising
      to `e` and then to `f` raises to `e * f`, and the first power of a
      positive base is the base. */
  ghost predicate Compounds(power: (real, real) -> real)
  {
    (forall b: real, e: real, f: real {:trigger power(power(b, e), f)} :: b > 0.0 ==> power(power(b, e), f) == power(b, e * f))
    && (forall b: real, e: real {:trigger power(b, e)} :: b > 0.0 && e == 1.0 ==> power(b, e) == b)
  }

  /** Raising the `years`-th root of a positive base back to the power
      `years` gives the base. */
  lemma RootThenPower(power: (real, real) -> real, growth: real, years: real, annual: real)
    requires Compounds(power) && growth > 0.0 && years > 0.0
    requires annual == power(growth, 1.0 / years)
    ensures power(annual, years) == growth
  {
    var exponent := 1.0 / years;
    var product := exponent * years;
    ReciprocalTimes(years, exponent, product);
    PowerOfPower(power, growth, exponent, years, product);
  }

  /** With `product == e * f` and `product == 1`, raising to `e` and then
      to `f` gives back the base. */
  lemma PowerOfPower(power: (real, real) -> real, growth: real, e: real, f: real, product: real)
    requires Compounds(power) && growth > 0.0 && product == e * f && product == 1.0
    ensures power(power(growth, e), f) == growth
  {
    assert power(power(growth, e), f) == power(growth, product);
  }

  /** A positive number times its reciprocal is 1. */
  lemma ReciprocalTimes(y: real, e: real, p: real)
    requires y > 0.0 && e == 1.0 / y && p == e * y
    ensures p == 1.0
  {
  }

  /** Compounding the annualised rate over the elapsed years gives back the
      total growth of the portfolio. */
  lemma AnnualizedReturnCompounds(portfolio: seq<real>, totalDays: int, power: (real, real) -> real)
    requires |portfolio| > 0 && AllPositive(portfolio) && totalDays > 0
    requires Compounds(power)
    ensures power(1.0 + AnnualizedReturn(portfolio, totalDays, power), totalDays as real / DaysPerYear)
         == portfolio[|portfolio| - 1] / portfolio[0]
  {
    var years := totalDays as real / DaysPerYear;
    var first := portfolio[0];
    var last := portfolio[|portfolio| - 1];
    GrowthAgainstOne(last, first);
    var growth := last / first;
    assert 1.0 + (growth - 1.0) == growth;
    RootThenPower(power, growth, years, 1.0 + AnnualizedReturn(portfolio, totalDays, power));
  }

  /** `Series.mean()` of a non-empty column of present values. */
  function Mean(xs: seq<real>): real
    requires |xs| > 0
  {
    Sum(xs) / |xs| as real
  }

  /** The square of a deviation. */
  function Sq(d: real): real
  {
    d * d
  }

  /** A square is never negative, and positive away from zero. */
  lemma SqSign(d: real)
    ensures Sq(d) >= 0.0
    ensures d != 0.0 ==> Sq(d) > 0.0
  {
    if d > 0.0 {
      PositiveProductOf(d, d, Sq(d));
    } else if d < 0.0 {
      PositiveProductOf(-d, -d, Sq(d));
    }
  }

  /** The sum of squared deviations from `m`. */
  function SquaredDeviations(xs: seq<real>, m: real): real
  {
    if |xs| == 0 then 0.0 else SquaredDeviations(xs[..|xs| - 1], m) + Sq(xs[|xs| - 1] - m)
  }

  /** `Series.var()` with pandas' default of one delta degree of freedom:
      missing for fewer than two values. */
  function SampleVariance(xs: seq<real>): Option<real>
  {
    if |xs| < 2 then None else Some(SquaredDeviations(xs, Mean(xs)) / (|xs| - 1) as real)
  }

  /** The annualised Sharpe ratio at a zero risk-free rate: 0 for a table of
      at most one row; otherwise `sqrt(252)` times the mean daily return
      over its sample standard deviation, where `None` stands for the NaN
      or infinity pandas produces when that deviation is missing (a single
      daily return) or zero. `sqrt` is the square root. */
  function SharpeRatio(portfolio: seq<real>, sqrt: real -> real): Option<real>
    requires AllPositive(portfolio)
  {
    if |portfolio| <= 1 then Some(0.0)
    else
      var daily := Present(PctChange(portfolio));
      var variance := SampleVariance(daily);
      if variance.None? then None
      else
        var deviation := sqrt(variance.value);
        if deviation == 0.0 then None
        else Some(sqrt(TradingDaysPerYear) * Mean(daily) / deviation)
  }

  /** The squared deviations never sum below zero. */
  lemma {:induction false} SquaredDeviationsNonNegative(xs: seq<real>, m: real)
    ensures SquaredDeviations(xs, m) >= 0.0
  {
    if |xs| > 0 {
      SquaredDeviationsNonNegative(xs[..|xs| - 1], m);
      SqSign(xs[|xs| - 1] - m);
    }
  }

  /** The squared deviations from `m` vanish when every value is `m`. */
  lemma {:induction false} SquaredDeviationsOfConstant(xs: seq<real>, m: real)
    requires forall k :: 0 <= k < |xs| ==> xs[k] == m
    ensures SquaredDeviations(xs, m) == 0.0
  {
    if |xs| > 0 {
      SquaredDeviationsOfConstant(xs[..|xs| - 1], m);
      assert Sq(xs[|xs| - 1] - m) == 0.0 * 0.0;
    }
  }

  /** One value away from `m` makes the squared deviations positive. */
  lemma {:induction false} SquaredDeviationsOfOutlier(xs: seq<real>, m: real, k: nat)
    requires k < |xs| && xs[k] != m
    ensures SquaredDeviations(xs, m) > 0.0
  {
    var last := |xs| - 1;
    SqSign(xs[last] - m);
    if k == last {
      SquaredDeviationsNonNegative(xs[..last], m);
    } else {
      assert xs[..last][k] == xs[k];
      SquaredDeviationsOfOutlier(xs[..last], m, k);
    }
  }

  /** The sample variance of two or more values is never negative, and it is
      zero exactly when all the values are equal. */
  lemma VarianceZeroIffConstant(xs: seq<real>)
    requires |xs| >= 2
    ensures SampleVariance(xs).Some? && SampleVariance(xs).value >= 0.0
    ensures SampleVariance(xs).value == 0.0 <==> forall k :: 0 <= k < |xs| ==> xs[k] == xs[0]
  {
    var m := Mean(xs);
    var n := (|xs| - 1) as real;
    var squares := SquaredDeviations(xs, m);
    SquaredDeviationsNonNegative(xs, m);
    if forall k :: 0 <= k < |xs| ==> xs[k] == xs[0] {
      SumConstant(xs, xs[0]);
      MeanOfCopies(|xs| as real, xs[0]);
      SquaredDeviationsOfConstant(xs, m);
      assert squares / n == 0.0 / n;
    } else {
      var k :| 0 <= k < |xs| && xs[k] != xs[0];
      if xs[k] != m {
        SquaredDeviationsOfOutlier(xs, m, k);
      } else {
        SquaredDeviationsOfOutlier(xs, m, 0);
      }
      assert squares / n > 0.0;
    }
  }

  /** With one row there is no Sharpe ratio to speak of and the figure is 0;
      with exactly two rows there is a single daily return, whose sample
      standard deviation is missing, so the ratio is not a number. */
  lemma SharpeOfShortTables(portfolio: seq<real>, sqrt: real -> real)
    requires AllPositive(portfolio) && |portfolio| <= 2
    ensures |portfolio| <= 1 ==> SharpeRatio(portfolio, sqrt) == Some(0.0)
    ensures |portfolio| == 2 ==> SharpeRatio(portfolio, sqrt).None?
  {
    if |portfolio| == 2 {
      PresentPctChange(portfolio);
    }
  }

  /** `sqrt` has the signs of the square root: zero at zero, positive on
      positive arguments. */
  ghost predicate RootSigns(sqrt: real -> real)
  {
    sqrt(0.0) == 0.0 && forall v: real {:trigger sqrt(v)} :: v > 0.0 ==> sqrt(v) > 0.0
  }

  /** From three rows on, the Sharpe ratio is undefined exactly when every
      daily return is the same: then their standard deviation is zero. */
  lemma SharpeUndefinedIffFlatReturns(portfolio: seq<real>, sqrt: real -> real)
    requires AllPositive(portfolio) && |portfolio| >= 3
    requires RootSigns(sqrt)
    ensures SharpeRatio(portfolio, sqrt).None?
        <==> forall t :: 1 <= t < |portfolio| ==> PctChange(portfolio)[t] == PctChange(portfolio)[1]
  {
    var changes := PctChange(portfolio);
    var daily := Present(changes);
    PresentPctChange(portfolio);
    VarianceZeroIffConstant(daily);
    var variance := SampleVariance(daily).value;
    assert sqrt(variance) == 0.0 <==> variance == 0.0;
    if forall t :: 1 <= t < |portfolio| ==> changes[t] == changes[1] {
      forall k | 0 <= k < |daily|
        ensures daily[k] == daily[0]
      {
        assert changes[k + 1] == changes[1];
      }
    } else {
      var t :| 1 <= t < |portfolio| && changes[t] != changes[1];
      assert daily[t - 1] != daily[0];
    }
  }

  /** The mean of a non-empty column has the sign of its total. */
  lemma MeanSign(xs: seq<real>)
    requires |xs| > 0
    ensures Sum(xs) > 0.0 ==> Mean(xs) > 0.0
    ensures Sum(xs) == 0.0 ==> Mean(xs) == 0.0
    ensures Sum(xs) < 0.0 ==> Mean(xs) < 0.0
  {
    var total := Sum(xs);
    var count := |xs| as real;
    if total < 0.0 {
      assert -total / count > 0.0;
      assert total / count == -(-total / count);
    }
  }

  /** A defined Sharpe ratio has the sign of the total of the daily
      returns: positive for a net gain, zero for none, negative for a net
      loss. */
  lemma SharpeSign(portfolio: seq<real>, sqrt: real -> real)
    requires AllPositive(portfolio) && |portfolio| >= 2
    requires RootSigns(sqrt)
    requires SharpeRatio(portfolio, sqrt).Some?
    ensures Sum(Present(PctChange(portfolio))) > 0.0 ==> SharpeRatio(portfolio, sqrt).value > 0.0
    ensures Sum(Present(PctChange(portfolio))) == 0.0 ==> SharpeRatio(portfolio, sqrt).value == 0.0
    ensures Sum(Present(PctChange(portfolio))) < 0.0 ==> SharpeRatio(portfolio, sqrt).value < 0.0
  {
    var daily := Present(PctChange(portfolio));
    var deviation := SharpeDeviation(portfolio, sqrt);
    MeanSign(daily);
    QuotientSign(sqrt(TradingDaysPerYear), Mean(daily), deviation);
  }

  /** The standard deviation a defined Sharpe ratio divides by is positive,
      and the ratio is `sqrt(252)` times the mean daily return over it. */
  lemma SharpeDeviation(portfolio: seq<real>, sqrt: real -> real) returns (deviation: real)
    requires AllPositive(portfolio) && |portfolio| >= 2
    requires RootSigns(sqrt)
    requires SharpeRatio(portfolio, sqrt).Some?
    ensures |Present(PctChange(portfolio))| >= 2
    ensures SampleVariance(Present(PctChange(portfolio))).Some?
    ensures deviation == sqrt(SampleVariance(Present(PctChange(portfolio))).value)
    ensures deviation > 0.0 && sqrt(TradingDaysPerYear) > 0.0
    ensures SharpeRatio(portfolio, sqrt).value
         == sqrt(TradingDaysPerYear) * Mean(Present(PctChange(portfolio))) / deviation
  {
    var daily := Present(PctChange(portfolio));
    PresentPctChange(portfolio);
    VarianceZeroIffConstant(daily);
    var variance := SampleVariance(daily).value;
    deviation := sqrt(variance);
    assert variance != 0.0;
  }

  /** A portfolio that never moves has a zero annualised return and no
      drawdown, and from two rows on no Sharpe ratio: its daily returns are
      all zero, so their deviation is missing or zero. */
  lemma FlatPortfolioMetrics(portfolio: seq<real>, totalDays: int, power: (real, real) -> real, sqrt: real -> real)
    requires |portfolio| > 0 && AllPositive(portfolio)
    requires forall t :: 0 <= t < |portfolio| ==> portfolio[t] == portfolio[0]
    requires KeepsSideOfOne(power) && RootSigns(sqrt)
    ensures AnnualizedReturn(portfolio, totalDays, power) == 0.0
    ensures MaxDrawdown(portfolio) == 0.0
    ensures |portfolio| >= 2 ==> SharpeRatio(portfolio, sqrt).None?
  {
    if totalDays > 0 {
      AnnualizedReturnSign(portfolio, totalDays, power);
    }
    NoDrawdownIffNeverFalls(portfolio);
    if |portfolio| == 2 {
      SharpeOfShortTables(portfolio, sqrt);
    } else if |portfolio| >= 3 {
      FlatDailyReturns(portfolio);
      SharpeUndefinedIffFlatReturns(portfolio, sqrt);
    }
  }

  /** Every daily return of a portfolio that never moves is the same. */
  lemma FlatDailyReturns(portfolio: seq<real>)
    requires |portfolio| >= 2 && AllPositive(portfolio)
    requires forall t :: 0 <= t < |portfolio| ==> portfolio[t] == portfolio[0]
    ensures forall t :: 1 <= t < |portfolio| ==> PctChange(portfolio)[t] == PctChange(portfolio)[1]
  {
    var changes := PctChange(portfolio);
    forall t | 1 <= t < |portfolio|
      ensures changes[t] == changes[1]
    {
      assert portfolio[t] == portfolio[1] && portfolio[t - 1] == portfolio[0];
    }
  }

  /** The figures `calculate_performance_metrics` reports: the annualised
      return and maximum drawdown in percent, and the Sharpe ratio as is. */
  datatype Metrics = Metrics(annualizedReturn: real, maxDrawdown: real, sharpeRatio: Option<real>)

  /** The columns the metrics stage adds to the backtest table, with the
      figures. */
  datatype PerformanceReport = PerformanceReport(
    dailyReturn: seq<Option<real>>,
    cummax: seq<real>,
    drawdown: seq<real>,
    metrics: Metrics)

  /** `calculate_performance_metrics` on the portfolio column, given the
      number of calendar days between the first and last rows. */
  function CalculatePerformanceMetrics(portfolio: seq<real>, totalDays: int,
                                       power: (real, real) -> real, sqrt: real -> real): (r: PerformanceReport)
    requires |portfolio| > 0 && AllPositive(portfolio)
    ensures r.dailyReturn == PctChange(portfolio)
    ensures r.cummax == Cummax(portfolio)
    ensures r.drawdown == Drawdowns(portfolio)
    ensures r.metrics.annualizedReturn == 100.0 * AnnualizedReturn(portfolio, totalDays, power)
    ensures r.metrics.maxDrawdown == 100.0 * MaxDrawdown(portfolio)
    ensures -100.0 < r.metrics.maxDrawdown <= 0.0
    ensures r.metrics.sharpeRatio == SharpeRatio(portfolio, sqrt)
  {
    MaxDrawdownRange(portfolio);
    var metrics := Metrics(
      AnnualizedReturn(portfolio, totalDays, power) * 100.0,
      MaxDrawdown(portfolio) * 100.0,
      SharpeRatio(portfolio, sqrt));
    PerformanceReport(PctChange(portfolio), Cummax(portfolio), Drawdowns(portfolio), metrics)
  }
}
