/** The indicator stage (`MACD.calculate_macd`, macd.py): exponential moving
    averages with pandas' `adjust=False` recursion, the MACD line, the signal
    line and the histogram. */
module Indicator {
  import opened Wrappers
  import opened RealAlgebra

  /** The periods held by a `MACD` object. */
  datatype MacdConfig = MacdConfig(fastPeriod: int, slowPeriod: int, signalPeriod: int)

  /** The three index-aligned columns `calculate_macd` returns. */
  datatype MacdTable = MacdTable(macd: seq<real>, signal: seq<real>, histogram: seq<real>)

  /** pandas refuses an exponential window whose span is below 1. */
  datatype IndicatorError = InvalidSpan(span: int)

  /** Every column of `table` has `n` rows. */
  predicate AlignedTo(table: MacdTable, n: nat)
  {
    |table.macd| == n && |table.signal| == n && |table.histogram| == n
  }

  /** The first `k` rows of every column. */
  function Prefix(table: MacdTable, k: nat): (r: MacdTable)
    requires AlignedTo(table, |table.macd|) && k <= |table.macd|
    ensures AlignedTo(r, k)
  {
    MacdTable(table.macd[..k], table.signal[..k], table.histogram[..k])
  }

  /** The smoothing factor of a window given by its span. */
  function Smoothing(span: int): (alpha: real)
    requires span >= 1
    ensures 0.0 < alpha <= 1.0
    ensures alpha * (span as real + 1.0) == 2.0
  {
    2.0 / (span as real + 1.0)
  }

  /** The share of the previous average kept at each step. */
  function Retained(alpha: real): real
  {
    1.0 - alpha
  }

  /** The exponential moving average at row `t`: seeded with the first
      observation, then blending each new observation into the previous
      average. */
  function EmaAt(xs: seq<real>, alpha: real, t: nat): real
    requires t < |xs|
    decreases t
  {
    if t == 0 then xs[0] else alpha * xs[t] + Retained(alpha) * EmaAt(xs, alpha, t - 1)
  }

  /** `xs.ewm(alpha=alpha, adjust=False).mean()` as a column. */
  function Ema(xs: seq<real>, alpha: real): (r: seq<real>)
    ensures |r| == |xs|
    ensures |xs| > 0 ==> r[0] == xs[0]
  {
    seq(|xs|, t requires 0 <= t < |xs| => EmaAt(xs, alpha, t))
  }

  /** The column follows pandas' `adjust=False` recursion: each row blends
      the new observation into the previous average with weight `alpha`. */
  lemma EmaRecurrence(xs: seq<real>, alpha: real, t: nat)
    requires 1 <= t < |xs|
    ensures Ema(xs, alpha)[t] == alpha * xs[t] + Retained(alpha) * Ema(xs, alpha)[t - 1]
  {
  }

  /** `b` raised to the natural power `n`. */
  function Pow(b: real, n: nat): real
  {
    if n == 0 then 1.0 else b * Pow(b, n - 1)
  }

  /** The weight of observation `k` in the average at row `t`, as pandas
      documents the `adjust=False` form: the seed keeps `(1-alpha)^t`, and
      each later observation `k` keeps `alpha * (1-alpha)^(t-k)`. */
  function Weight(alpha: real, k: nat, t: nat): real
    requires k <= t
  {
    if k == 0 then Pow(Retained(alpha), t) else alpha * Pow(Retained(alpha), t - k)
  }

  /** One row later, each documented weight is discounted by `1-alpha`. */
  lemma WeightDiscount(alpha: real, k: nat, t: nat)
    requires k < t
    ensures Weight(alpha, k, t) == Retained(alpha) * Weight(alpha, k, t - 1)
  {
    var b := Retained(alpha);
    var p := Pow(b, t - 1 - k);
    assert Pow(b, t - k) == b * p;
    if k > 0 {
      assert alpha * (b * p) == b * (alpha * p);
    }
  }

  /** Every weight of `ws` discounted by `1-alpha`. */
  function Discounted(alpha: real, ws: seq<real>): (r: seq<real>)
    ensures |r| == |ws|
    ensures forall k :: 0 <= k < |ws| ==> r[k] == Retained(alpha) * ws[k]
  {
    seq(|ws|, k requires 0 <= k < |ws| => Retained(alpha) * ws[k])
  }

  /** The weights of observations `0..t` in the average at row `t`, built the
      way the recursion builds them: one row later, every older weight is
      discounted and the new observation enters with weight `alpha`. */
  function Weights(alpha: real, t: nat): (ws: seq<real>)
    ensures |ws| == t + 1
  {
    if t == 0 then [1.0] else Discounted(alpha, Weights(alpha, t - 1)) + [alpha]
  }

  /** One row later, the older weights are discounted and the newest is `alpha`. */
  lemma WeightsStep(alpha: real, t: nat)
    requires t >= 1
    ensures forall k :: 0 <= k < t ==> Weights(alpha, t)[k] == Retained(alpha) * Weights(alpha, t - 1)[k]
    ensures Weights(alpha, t)[t] == alpha
  {
    var older := Weights(alpha, t - 1);
    assert Weights(alpha, t) == Discounted(alpha, older) + [alpha];
  }

  /** The recursively built weights are the ones pandas documents. */
  lemma {:induction false} WeightsExplicit(alpha: real, t: nat, k: nat)
    requires k <= t
    ensures Weights(alpha, t)[k] == Weight(alpha, k, t)
  {
    if k < t {
      WeightsExplicit(alpha, t - 1, k);
      WeightDiscount(alpha, k, t);
      EqualFactors(Weights(alpha, t - 1)[k], Weight(alpha, k, t - 1), Retained(alpha));
    } else if k > 0 {
      assert Weight(alpha, k, t) == alpha * 1.0;
    }
  }

  /** The first `m` observations of `xs` weighted by `ws`. */
  function WeightedSum(ws: seq<real>, xs: seq<real>, m: nat): real
    requires m <= |ws| && m <= |xs|
  {
    if m == 0 then 0.0 else WeightedSum(ws, xs, m - 1) + ws[m - 1] * xs[m - 1]
  }

  /** Scaling every weight by `b` scales the weighted sum by `b`. */
  lemma {:induction false} WeightedSumScales(us: seq<real>, ws: seq<real>, xs: seq<real>, b: real, m: nat)
    requires m <= |us| && m <= |ws| && m <= |xs|
    requires forall k :: 0 <= k < m ==> us[k] == b * ws[k]
    ensures WeightedSum(us, xs, m) == b * WeightedSum(ws, xs, m)
  {
    if m > 0 {
      WeightedSumScales(us, ws, xs, b, m - 1);
      ScaleSum(b, WeightedSum(ws, xs, m - 1), ws[m - 1], us[m - 1], xs[m - 1], WeightedSum(ws, xs, m),
               WeightedSum(us, xs, m - 1), WeightedSum(us, xs, m));
    }
  }

  /** Appending a newest weight `alpha` to discounted older weights adds
      `alpha` times the newest observation to the discounted older sum. */
  lemma AppendStep(us: seq<real>, ws: seq<real>, xs: seq<real>, alpha: real, t: nat)
    requires |ws| == t && |us| == t + 1 && t < |xs|
    requires forall k :: 0 <= k < t ==> us[k] == Retained(alpha) * ws[k]
    requires us[t] == alpha
    ensures WeightedSum(us, xs, t + 1) == alpha * xs[t] + Retained(alpha) * WeightedSum(ws, xs, t)
  {
    WeightedSumScales(us, ws, xs, Retained(alpha), t);
    EqualFactors(us[t], alpha, xs[t]);
  }

  /** The weighted sum follows the same recursion as the average. */
  lemma WeightedStep(xs: seq<real>, alpha: real, t: nat)
    requires 1 <= t < |xs|
    ensures WeightedSum(Weights(alpha, t), xs, t + 1)
         == alpha * xs[t] + Retained(alpha) * WeightedSum(Weights(alpha, t - 1), xs, t)
  {
    WeightsStep(alpha, t);
    AppendStep(Weights(alpha, t), Weights(alpha, t - 1), xs, alpha, t);
  }

  /** The average at row `t` is the observations `0..t` weighted by
      `Weights(alpha, t)`: the recursion agrees with the closed weighted-sum
      form of the `adjust=False` average. */
  lemma {:induction false} EmaAtClosedForm(xs: seq<real>, alpha: real, t: nat)
    requires t < |xs|
    ensures EmaAt(xs, alpha, t) == WeightedSum(Weights(alpha, t), xs, t + 1)
  {
    if t > 0 {
      EmaAtClosedForm(xs, alpha, t - 1);
      WeightedStep(xs, alpha, t);
      EqualFactors(EmaAt(xs, alpha, t - 1), WeightedSum(Weights(alpha, t - 1), xs, t), Retained(alpha));
    }
  }

  /** The closed form for the whole column, with pandas' documented weights. */
  lemma EmaClosedForm(xs: seq<real>, alpha: real, t: nat)
    requires t < |xs|
    ensures Ema(xs, alpha)[t] == WeightedSum(Weights(alpha, t), xs, t + 1)
    ensures forall k :: 0 <= k <= t ==> Weights(alpha, t)[k] == Weight(alpha, k, t)
  {
    EmaAtClosedForm(xs, alpha, t);
    forall k | 0 <= k <= t
      ensures Weights(alpha, t)[k] == Weight(alpha, k, t)
    {
      WeightsExplicit(alpha, t, k);
    }
  }

  /** A blend `alpha*x + (1-alpha)*e` of two values in `[lo, hi]` stays there. */
  lemma BlendWithin(alpha: real, x: real, e: real, blend: real, lo: real, hi: real)
    requires 0.0 <= alpha <= 1.0
    requires lo <= x <= hi && lo <= e <= hi
    requires blend == alpha * x + Retained(alpha) * e
    ensures lo <= blend <= hi
  {
    var beta := Retained(alpha);
    NonNegativeProduct(alpha, x - lo);
    NonNegativeProduct(beta, e - lo);
    assert blend - lo == alpha * (x - lo) + beta * (e - lo);
    NonNegativeProduct(alpha, hi - x);
    NonNegativeProduct(beta, hi - e);
    assert hi - blend == alpha * (hi - x) + beta * (hi - e);
  }

  /** Each average lies within any bounds of the observations so far. */
  lemma {:induction false} EmaAtWithinBounds(xs: seq<real>, alpha: real, t: nat, lo: real, hi: real)
    requires 0.0 <= alpha <= 1.0
    requires t < |xs|
    requires forall k :: 0 <= k <= t ==> lo <= xs[k] <= hi
    ensures lo <= EmaAt(xs, alpha, t) <= hi
  {
    if t > 0 {
      EmaAtWithinBounds(xs, alpha, t - 1, lo, hi);
      BlendWithin(alpha, xs[t], EmaAt(xs, alpha, t - 1), EmaAt(xs, alpha, t), lo, hi);
    }
  }

  /** With a smoothing factor in `[0, 1]` (every span >= 1 gives one), each
      average lies between any lower and upper bound of the observations so
      far, in particular between their minimum and maximum. */
  lemma EmaWithinBounds(xs: seq<real>, alpha: real, t: nat, lo: real, hi: real)
    requires 0.0 <= alpha <= 1.0
    requires t < |xs|
    requires forall k :: 0 <= k <= t ==> lo <= xs[k] <= hi
    ensures lo <= Ema(xs, alpha)[t] <= hi
  {
    EmaAtWithinBounds(xs, alpha, t, lo, hi);
  }

  /** The average at row `t` reads no row after `t`. */
  lemma {:induction false} EmaAtPrefix(xs: seq<real>, alpha: real, k: nat, t: nat)
    requires t < k <= |xs|
    ensures EmaAt(xs[..k], alpha, t) == EmaAt(xs, alpha, t)
  {
    if t > 0 {
      EmaAtPrefix(xs, alpha, k, t - 1);
    }
  }

  /** Averaging a prefix of the prices gives the prefix of the averages. */
  lemma EmaPrefix(xs: seq<real>, alpha: real, k: nat)
    requires k <= |xs|
    ensures Ema(xs[..k], alpha) == Ema(xs, alpha)[..k]
  {
    forall t | 0 <= t < k
      ensures Ema(xs[..k], alpha)[t] == Ema(xs, alpha)[t]
    {
      EmaAtPrefix(xs, alpha, k, t);
    }
  }

  /** MACD, signal and histogram for already validated smoothing factors. */
  function MacdColumns(prices: seq<real>, fast: real, slow: real, signal: real): MacdTable
  {
    var fastEma := Ema(prices, fast);
    var slowEma := Ema(prices, slow);
    var macd := seq(|prices|, t requires 0 <= t < |prices| => fastEma[t] - slowEma[t]);
    var signalLine := Ema(macd, signal);
    MacdTable(macd, signalLine, seq(|prices|, t requires 0 <= t < |prices| => macd[t] - signalLine[t]))
  }

  /** `MACD.calculate_macd`: fails exactly when a period is not a valid
      span; otherwise the MACD line is the fast minus the slow average of
      the prices, the signal line is the average of the MACD line, and the
      histogram is their difference, all aligned with the prices. */
  function CalculateMacd(config: MacdConfig, prices: seq<real>): (r: Result<MacdTable, IndicatorError>)
    ensures r.Failure? <==> config.fastPeriod < 1 || config.slowPeriod < 1 || config.signalPeriod < 1
    ensures r.Success? ==> AlignedTo(r.value, |prices|)
    ensures r.Success? ==>
      forall t :: 0 <= t < |prices| ==>
        r.value.macd[t] == Ema(prices, Smoothing(config.fastPeriod))[t] - Ema(prices, Smoothing(config.slowPeriod))[t]
    ensures r.Success? ==> r.value.signal == Ema(r.value.macd, Smoothing(config.signalPeriod))
    ensures r.Success? ==>
      forall t :: 0 <= t < |prices| ==> r.value.histogram[t] == r.value.macd[t] - r.value.signal[t]
  {
    if config.fastPeriod < 1 then Failure(InvalidSpan(config.fastPeriod))
    else if config.slowPeriod < 1 then Failure(InvalidSpan(config.slowPeriod))
    else if config.signalPeriod < 1 then Failure(InvalidSpan(config.signalPeriod))
    else Success(MacdColumns(prices, Smoothing(config.fastPeriod), Smoothing(config.slowPeriod),
                             Smoothing(config.signalPeriod)))
  }

  /** Both averages start at the first price, so the first row of every
      column is zero; a single-price series therefore yields all zeros. */
  lemma MacdFirstRowIsZero(config: MacdConfig, prices: seq<real>)
    requires |prices| > 0
    requires CalculateMacd(config, prices).Success?
    ensures CalculateMacd(config, prices).value.macd[0] == 0.0
    ensures CalculateMacd(config, prices).value.signal[0] == 0.0
    ensures CalculateMacd(config, prices).value.histogram[0] == 0.0
    ensures |prices| == 1 ==> CalculateMacd(config, prices).value == MacdTable([0.0], [0.0], [0.0])
  {
  }

  /** The indicator columns of a prefix of the prices are the prefixes of
      the indicator columns: no value reads a later price. */
  lemma MacdPrefix(config: MacdConfig, prices: seq<real>, k: nat)
    requires k <= |prices|
    requires CalculateMacd(config, prices).Success?
    ensures CalculateMacd(config, prices[..k]).Success?
    ensures CalculateMacd(config, prices[..k]).value == Prefix(CalculateMacd(config, prices).value, k)
  {
    MacdColumnsPrefix(prices, Smoothing(config.fastPeriod), Smoothing(config.slowPeriod),
                      Smoothing(config.signalPeriod), k);
  }

  /** `MacdColumns` of a prefix is the prefix of `MacdColumns`. */
  lemma MacdColumnsPrefix(prices: seq<real>, fast: real, slow: real, signal: real, k: nat)
    requires k <= |prices|
    ensures AlignedTo(MacdColumns(prices, fast, slow, signal), |prices|)
    ensures MacdColumns(prices[..k], fast, slow, signal) == Prefix(MacdColumns(prices, fast, slow, signal), k)
  {
    var whole := MacdColumns(prices, fast, slow, signal);
    var part := MacdColumns(prices[..k], fast, slow, signal);
    EmaPrefix(prices, fast, k);
    EmaPrefix(prices, slow, k);
    assert part.macd == whole.macd[..k];
    EmaPrefix(whole.macd, signal, k);
    assert part.signal == whole.signal[..k];
    assert part.histogram == whole.histogram[..k];
  }
}
