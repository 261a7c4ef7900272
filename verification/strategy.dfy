/** The numeric pipeline of `run_macd_strategy` (main.py): the indicator
    with the fixed 12/26/9 periods, the signal stage with a histogram
    threshold, and the backtest from an initial capital. */
module Strategy {
  import opened Indicator
  import opened Signals
  import opened Wrappers
  import opened Series
  import opened Backtest
  import opened Performance

  /** Span of the fast exponential average. */
  const FastPeriod: int := 12

  /** Span of the slow exponential average. */
  const SlowPeriod: int := 26

  /** Span of the signal line. */
  const SignalPeriod: int := 9

  /** The periods the strategy runs with. */
  const StrategyConfig: MacdConfig := MacdConfig(FastPeriod, SlowPeriod, SignalPeriod)

  /** The default initial investment. */
  const InitialCapital: real := 10000.0

  /** The default histogram threshold. */
  const DefaultThreshold: real := 0.0

  /** `run_macd_strategy` without the plot and the printed metrics: the
      backtest table of the strategy's signals. The indicator cannot fail,
      since every period is at least 1. */
  function RunStrategy(prices: seq<real>, threshold: real, capital: real): (r: BacktestTable)
    requires |prices| > 0
    requires forall t :: 0 <= t < |prices| - 1 ==> prices[t] != 0.0
    requires capital != 0.0
    ensures CalculateMacd(StrategyConfig, prices).Success?
    ensures r.signals == GenerateSignals(prices, CalculateMacd(StrategyConfig, prices).value, threshold)
    ensures r.position == Positions(r.signals.action)
    ensures r.strategyReturn == StrategyReturns(r.position, prices)
    ensures r.portfolio == Portfolio(r.strategyReturn, capital)
    ensures |r.portfolio| == |prices| && r.portfolio[0] == capital
  {
    var indicators := CalculateMacd(StrategyConfig, prices).value;
    BacktestStrategy(GenerateSignals(prices, indicators, threshold), capital)
  }

  /** While the trend filter is still filling, the strategy stays out of
      the market: every row before row 19 is flat, and the portfolio holds
      the capital through row 19 (the first row that could buy only earns
      from row 20 on). */
  lemma WarmUpKeepsCapital(prices: seq<real>, threshold: real, capital: real, t: nat)
    requires |prices| > 0
    requires forall t :: 0 <= t < |prices| - 1 ==> prices[t] != 0.0
    requires capital != 0.0
    requires t < |prices| && t <= 19
    ensures t < 19 ==> RunStrategy(prices, threshold, capital).position[t] == 0
    ensures RunStrategy(prices, threshold, capital).portfolio[t] == capital
    ensures RunStrategy(prices, threshold, capital).cumulativeReturn[t] == 1.0
  {
    var r := RunStrategy(prices, threshold, capital);
    var actions := r.signals.action;
    if t < 19 {
      NoActionStaysFlat(actions, t);
    }
    forall k | 0 <= k < t
      ensures r.position[k] == 0
    {
      NoActionStaysFlat(actions, k);
    }
    FlatRunKeepsValue(r.position, prices, capital, 0, t);
    CumulativeReturnScales(r.portfolio, capital, t);
  }

  /** A price history shorter than the trend window never trades: every
      action and position is 0 and the portfolio never leaves the capital. */
  lemma ShortHistoryNeverTrades(prices: seq<real>, threshold: real, capital: real)
    requires 0 < |prices| < TrendWindow
    requires forall t :: 0 <= t < |prices| - 1 ==> prices[t] != 0.0
    requires capital != 0.0
    ensures forall t :: 0 <= t < |prices| ==> RunStrategy(prices, threshold, capital).signals.action[t] == 0
    ensures forall t :: 0 <= t < |prices| ==> RunStrategy(prices, threshold, capital).position[t] == 0
    ensures forall t :: 0 <= t < |prices| ==> RunStrategy(prices, threshold, capital).portfolio[t] == capital
  {
    forall t | 0 <= t < |prices|
      ensures RunStrategy(prices, threshold, capital).position[t] == 0
      ensures RunStrategy(prices, threshold, capital).portfolio[t] == capital
    {
      WarmUpKeepsCapital(prices, threshold, capital, t);
    }
  }

  /** The strategy never looks ahead: run on the first `k` prices, it
      produces the first `k` rows of the run on the whole history. */
  lemma RunStrategyPrefix(prices: seq<real>, threshold: real, capital: real, k: nat)
    requires |prices| > 0
    requires forall t :: 0 <= t < |prices| - 1 ==> prices[t] != 0.0
    requires capital != 0.0
    requires 0 < k <= |prices|
    ensures RunStrategy(prices[..k], threshold, capital).signals.action
         == RunStrategy(prices, threshold, capital).signals.action[..k]
    ensures RunStrategy(prices[..k], threshold, capital).position
         == RunStrategy(prices, threshold, capital).position[..k]
    ensures RunStrategy(prices[..k], threshold, capital).portfolio
         == RunStrategy(prices, threshold, capital).portfolio[..k]
  {
    var whole := RunStrategy(prices, threshold, capital);
    var indicators := CalculateMacd(StrategyConfig, prices).value;
    MacdPrefix(StrategyConfig, prices, k);
    SignalsPrefix(prices, indicators, threshold, k);
    PositionsPrefix(whole.signals.action, k);
    StrategyReturnsPrefix(whole.position, prices, k);
    PortfolioPrefix(whole.strategyReturn, capital, k);
  }

  /** With positive prices and a positive capital the strategy's portfolio
      stays positive. */
  lemma StrategyPortfolioPositive(prices: seq<real>, threshold: real, capital: real)
    requires |prices| > 0 && AllPositive(prices) && capital > 0.0
    ensures AllPositive(RunStrategy(prices, threshold, capital).portfolio)
  {
    var r := RunStrategy(prices, threshold, capital);
    forall t | 0 <= t < |prices|
      ensures r.portfolio[t] > 0.0
    {
      PortfolioStaysPositive(r.position, prices, capital, t);
    }
  }

  /** `run_macd_strategy` followed by `calculate_performance_metrics` on the
      portfolio it produces. */
  function StrategyReport(prices: seq<real>, threshold: real, capital: real, totalDays: int,
                          power: (real, real) -> real, sqrt: real -> real): (r: PerformanceReport)
    requires |prices| > 0 && AllPositive(prices) && capital > 0.0
    ensures AllPositive(RunStrategy(prices, threshold, capital).portfolio)
    ensures r == CalculatePerformanceMetrics(RunStrategy(prices, threshold, capital).portfolio, totalDays, power, sqrt)
    ensures -100.0 < r.metrics.maxDrawdown <= 0.0
  {
    StrategyPortfolioPositive(prices, threshold, capital);
    CalculatePerformanceMetrics(RunStrategy(prices, threshold, capital).portfolio, totalDays, power, sqrt)
  }

  /** A history shorter than the trend window reports no return and no
      drawdown, and from two rows on no Sharpe ratio. */
  lemma ShortHistoryReport(prices: seq<real>, threshold: real, capital: real, totalDays: int,
                           power: (real, real) -> real, sqrt: real -> real)
    requires 0 < |prices| < TrendWindow && AllPositive(prices) && capital > 0.0
    requires KeepsSideOfOne(power) && RootSigns(sqrt)
    ensures StrategyReport(prices, threshold, capital, totalDays, power, sqrt).metrics.annualizedReturn == 0.0
    ensures StrategyReport(prices, threshold, capital, totalDays, power, sqrt).metrics.maxDrawdown == 0.0
    ensures |prices| >= 2 ==> StrategyReport(prices, threshold, capital, totalDays, power, sqrt).metrics.sharpeRatio.None?
  {
    var portfolio := RunStrategy(prices, threshold, capital).portfolio;
    ShortHistoryNeverTrades(prices, threshold, capital);
    StrategyPortfolioPositive(prices, threshold, capital);
    FlatPortfolioMetrics(portfolio, totalDays, power, sqrt);
  }
}
