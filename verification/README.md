# MACD crossover backtest — a Dafny model

This project models the numeric core of a small Python/pandas trading
backtest. The core has four stages:

- **Indicator** (`MACD.calculate_macd`). A fast and a slow exponential moving average of the prices (spans 12 and 26). Their difference is the MACD line. The signal line is a 9-span average of that line, and the histogram is MACD minus signal.
- **Signals** (`MACD.generate_signals`). A 20-row trailing mean of the price serves as a trend filter. A row buys (+1) when MACD crosses above the signal line, the histogram clears the threshold and the price is above the trend. It sells (-1) on the mirror image, and otherwise holds (0).
- **Backtest** (`backtest_strategy`).
  - The position column is 0 (flat) or 1 (long), carried forward from the last buy or sell.
  - The strategy return is the previous row's position times the price's relative change, with 0 in row 0.
  - The portfolio compounds those returns from the initial capital.
  - The cumulative return is the portfolio over the capital.
- **Metrics** (`calculate_performance_metrics`). The daily portfolio return, the running peak (`Cummax`), the drawdown and three figures: the annualised return and maximum drawdown, both in percent, and the annualised Sharpe ratio at a zero risk-free rate.

`run_macd_strategy` chains the stages with the fixed 12/26/9 periods.

Modelling choices:

- **Numbers.** Every number is a mathematical `real`.
- **Missing values.** A missing pandas value (NaN) is `Option.None`. A comparison with a missing value is false, as in pandas.
- **Columns.** A column is a `seq`. Row `t` is index `t`.
- **Library calls.** Fractional powers (`**`) and `np.sqrt` are floating-point library calls. They enter as function parameters `power` and `sqrt`. Each property that depends on them names what it assumes:
  - `KeepsSideOfOne`: a positive power of a positive base lies on the same side of 1 as the base.
  - `Compounds`: `(b^e)^f = b^(e*f)` and `b^1 = b`.
  - `RootSigns`: `sqrt(0) = 0`, and the square root of a positive number is positive.
- **Proof shape.** Each pandas column expression is stated once in the form pandas computes it, then proved equal to a recursive definition that the rest of the model reasons about:
  - `PandasStrategyReturns` is proved equal to `StrategyReturns`.
  - `Compounded` with row 0 overwritten is proved equal to `Portfolio`.

Modules: `Wrappers` (Option/Result), `Series` (pandas column operations), `RealAlgebra` (small arithmetic steps), `Indicator`, `Signals`, `Backtest`, `Performance` and `Strategy`.

Behaviour of the code that the model keeps as written:

- **Sharpe ratio for flat returns.** The code has no zero-variance guard (main.py:79-80), and pandas' sample standard deviation of a single value is NaN. So the Sharpe ratio is missing (`None`, standing for NaN or infinity) when every daily return is equal, and also with exactly two rows.
- **Errors.** The code performs no validation of its own: nothing checks `slow <= fast` or a non-positive capital, and an empty table fails with `IndexError` at back_test.py:46.
  - The only failure modelled is the one pandas itself raises: an exponential window whose span is below 1 (`InvalidSpan`).
  - `iloc[0]` on an empty table fails, so `BacktestStrategy` requires a non-empty table.
  - The capital is a divisor, so `BacktestStrategy` requires it to be non-zero.

## Model

| member | source | states |
|---|---|---|
| Series.Shift | macd.py:84 | `shift(1)`: row 0 is missing, and row `t` holds row `t-1` |
| Series.PctChange | back_test.py:36 | `pct_change()`: same length, row 0 missing, every later row present |
| Series.PctChangeGrows | back_test.py:36 | applying a row's relative change to the previous value gives back the value (the inverse of `pct_change`) |
| Series.PresentPctChange | main.py:80 | skipping missing cells of a `pct_change` column drops exactly row 0 and keeps rows 1, 2, ... in order |
| Indicator.Smoothing | macd.py:29-30 | the smoothing factor of a span `s >= 1` is `2/(s+1)`, and it lies in `(0, 1]` |
| Indicator.Ema | macd.py:29 | the average column has one row per observation and starts at the first observation |
| Indicator.EmaRecurrence | macd.py:29-30 | `adjust=False`: each row is `alpha*x[t] + (1-alpha)*ema[t-1]` |
| Indicator.WeightsExplicit | macd.py:29-30 | the recursively built weights equal pandas' documented ones: `(1-alpha)^t` for the seed and `alpha(1-alpha)^(t-k)` for later rows |
| Indicator.EmaClosedForm | macd.py:29-30 | each average equals the observations so far weighted by those documented weights |
| Indicator.EmaWithinBounds | macd.py:29-30 | each average lies between any lower and upper bound of the observations so far |
| Indicator.EmaPrefix | macd.py:29-30 | averaging a prefix of the input gives the prefix of the averages (no look-ahead) |
| Indicator.CalculateMacd | macd.py:28-48 | fails exactly when a period is below 1; otherwise the three columns are aligned with the prices, MACD is fast EMA minus slow EMA, signal is the EMA of MACD, and histogram is MACD minus signal |
| Indicator.MacdFirstRowIsZero | macd.py:29-39 | row 0 of every column is 0, so a single price gives `(0, 0, 0)` |
| Indicator.MacdPrefix | macd.py:28-48 | the indicator of a price prefix is the prefix of the indicator |
| Signals.Trend | macd.py:72 | the 20-row trailing mean is present exactly from row 19 on, and 20 times it is the sum of rows `t-19 .. t` |
| Signals.TrendSlides | macd.py:72 | sliding the window one row adds `(newest - dropped)/20` |
| Signals.TrendPrefix | macd.py:72 | the trend of a price prefix is the prefix of the trend |
| Signals.BuyAt | macd.py:82-87 | the buy mask on possibly-missing cells; it can hold only once the trend is present, from row 19 on |
| Signals.SellAt | macd.py:93-98 | the sell mask with the threshold's sign flipped; like the buy mask, it can hold only from row 19 on |
| Signals.ActionAt | macd.py:101-102 | the action is in `{-1, 0, 1}`, 0 exactly when neither mask holds, and 0 before row 19 |
| Signals.GenerateSignals | macd.py:50-104 | copies the price and indicator columns and adds the trend; each action is in `{-1, 0, 1}`; it is 1 iff there is a confirmed upward cross and -1 iff there is a confirmed downward cross (both stated on plain values); no row before 19 acts |
| Signals.BuySellExclusive | macd.py:82-102 | the buy and sell masks never overlap, so the order of the two writes does not matter |
| Signals.SignalsPrefix | macd.py:82-102 | the actions and trend of a prefix are the prefixes of the actions and trend |
| Backtest.Positions | back_test.py:21-29 | positions are 0 or 1; row 0 steps from flat; each row steps from the previous position by its action |
| Backtest.SimulatePositions | back_test.py:21-29 | the row loop with its carried `position` variable computes exactly `Positions` |
| Backtest.LongIffLastDecisiveIsBuy | back_test.py:23-29 | a row is long iff the last non-zero action up to it is a buy |
| Backtest.HoldRunKeepsPosition | back_test.py:23-29 | a run of zero actions keeps the position constant |
| Backtest.NoActionStaysFlat | back_test.py:21-29 | with no action so far, the position is flat |
| Backtest.PositionsPrefix | back_test.py:23-29 | the positions of a prefix of the actions are the prefix of the positions |
| Backtest.PandasStrategyReturns | back_test.py:39-40 | `(position.shift(1) * pct_change).fillna(0)` cell by cell; aligned with the prices and 0 at row 0; equal to `StrategyReturns` by `StrategyReturnsMatchPandas` |
| Backtest.StrategyReturns | back_test.py:39-40 | the row-wise strategy return, aligned with the prices; its values are characterised by `StrategyReturnsMatchPandas` and `RowGrowth` |
| Backtest.StrategyReturnsMatchPandas | back_test.py:39-40 | `(position.shift(1) * pct_change).fillna(0)` is 0 at row 0 and `position[t-1] * (p[t]/p[t-1] - 1)` afterwards |
| Backtest.StrategyReturnNoLookAhead | back_test.py:39 | a row's strategy return depends on earlier positions only |
| Backtest.StrategyReturnsPrefix | back_test.py:39-40 | the strategy returns of a prefix are the prefix of the strategy returns |
| Backtest.Compounded | back_test.py:43 | `capital * cumprod(1 + r)`, aligned with the returns; with row 0 overwritten it equals `Portfolio` by `PortfolioMatchesPandas` |
| Backtest.Portfolio | back_test.py:43-46 | the portfolio column, aligned with the returns; its rows are characterised by `PortfolioSteps` and `PortfolioAtCompounds` |
| Backtest.PortfolioMatchesPandas | back_test.py:43-46 | `capital * cumprod(1 + r)` with row 0 overwritten by the capital equals the row-by-row compounding, and the overwrite changes nothing |
| Backtest.PortfolioAtCompounds | back_test.py:43 | each portfolio value is the capital times the product of the growth factors so far |
| Backtest.PortfolioPrefix | back_test.py:43-46 | the portfolio of a prefix of the returns is the prefix of the portfolio |
| Backtest.CumulativeReturns | back_test.py:49 | the portfolio divided by the capital, aligned with it; characterised by `CumulativeReturnScales` |
| Backtest.CumulativeReturnScales | back_test.py:49 | cumulative return times capital is the portfolio value, and it is 1 where the portfolio equals the capital |
| Backtest.PortfolioSteps | back_test.py:43-46 | the portfolio starts at the capital, and each later row is the previous row grown by that row's strategy return |
| Backtest.BacktestStrategy | back_test.py:1-51 | the table keeps the signals and adds positions, price returns, strategy returns, the portfolio and cumulative returns, each as characterised above; row 0 holds the capital and a cumulative return of 1 |
| Backtest.RowGrowth | back_test.py:39-43 | a row grows the portfolio by the price ratio when entered long and by 1 when entered flat |
| Backtest.PortfolioStaysPositive | back_test.py:39-43 | with positive prices and capital, every portfolio value is positive |
| Backtest.FlatRunKeepsValue | back_test.py:39-43 | over a stretch entered flat, the portfolio keeps its value |
| Backtest.LongRunTracksPrice | back_test.py:39-43 | over a stretch held long, the portfolio changes in the same ratio as the price |
| Performance.PeakAt | main.py:74 | `cummax()` at one row; never below that row's value |
| Performance.Cummax | main.py:74 | the `cummax()` column, aligned with its input and never below it row by row |
| Performance.PeakIsRunningMaximum | main.py:74 | the running peak bounds every earlier value, is one of them, and never falls |
| Performance.Drawdowns | main.py:75 | the drawdown column `portfolio / cummax - 1`, aligned with the portfolio; each row is bounded by `DrawdownAt` |
| Performance.DrawdownAt | main.py:75 | each drawdown lies in `(-1, 0]` and is 0 exactly at a new peak |
| Performance.MaxDrawdown | main.py:76 | `Drawdown.min()`: no row's drawdown is below it, and some row's drawdown equals it |
| Performance.MaxDrawdownRange | main.py:76 | the deepest drawdown lies in `(-1, 0]` |
| Performance.NoDrawdownIffNeverFalls | main.py:74-76 | the deepest drawdown is 0 iff the portfolio never falls from one row to the next |
| Performance.AnnualizedReturn | main.py:65-71 | the annualised return from the first and last portfolio values and the elapsed days; characterised by `AnnualizedReturnSign` and `AnnualizedReturnCompounds` |
| Performance.AnnualizedReturnSign | main.py:65-71 | over a positive period, the annualised return is positive iff the last value is above the first, and 0 iff the two are equal; over an empty or negative period it is 0 |
| Performance.AnnualizedReturnCompounds | main.py:66-69 | compounding `1 + annualised return` over the elapsed years gives back the total growth |
| Performance.SharpeRatio | main.py:79-82 | 0 for at most one row, otherwise `sqrt(252) * mean / std` of the daily returns, missing when the std is missing or zero; characterised by `SharpeOfShortTables`, `SharpeUndefinedIffFlatReturns`, `SharpeSign` and `SharpeDeviation` |
| Performance.VarianceZeroIffConstant | main.py:80 | the sample variance of two or more values is non-negative, and 0 iff all values are equal |
| Performance.SharpeOfShortTables | main.py:79-82 | one row gives 0; two rows give a missing ratio (sample std of a single return) |
| Performance.SharpeUndefinedIffFlatReturns | main.py:79-80 | from three rows on, the ratio is missing iff all daily returns are equal |
| Performance.SharpeSign | main.py:80 | a defined ratio has the sign of the total daily return |
| Performance.SharpeDeviation | main.py:80 | a defined ratio is `sqrt(252) * mean / deviation`, where the deviation is the square root of the present sample variance of the daily returns and is positive |
| Performance.FlatPortfolioMetrics | main.py:62-82 | a portfolio that never moves has zero annualised return, zero drawdown, and from two rows on no Sharpe ratio |
| Performance.CalculatePerformanceMetrics | main.py:62-88 | adds daily returns, running peak and drawdown; reports annualised return and max drawdown times 100, with the drawdown in `(-100, 0]`, and the Sharpe ratio as is |
| Strategy.RunStrategy | main.py:18-49 | with periods 12/26/9 the indicator always succeeds; the result is the backtest of the generated signals |
| Strategy.WarmUpKeepsCapital | main.py:30-40 | rows before 19 are flat, and the portfolio holds the capital (cumulative return 1) through row 19 |
| Strategy.ShortHistoryNeverTrades | main.py:30-40 | fewer than 20 prices never trade: every action and position is 0, and the portfolio is the capital throughout |
| Strategy.RunStrategyPrefix | main.py:30-40 | run on the first `k` prices, the strategy gives the first `k` actions, positions and portfolio values of the full run |
| Strategy.StrategyPortfolioPositive | main.py:39-43 | with positive prices and capital, the strategy's portfolio is positive |
| Strategy.StrategyReport | main.py:39-46 | the metrics of the strategy's portfolio are defined, with max drawdown in `(-100, 0]` |
| Strategy.ShortHistoryReport | main.py:39-46 | a history shorter than the trend window reports no return, no drawdown, and from two rows on no Sharpe ratio |

## Left out

- **Output and I/O.** Plotting (`plot_results`), the printed metrics and the `__main__` demo with random data are left out: they are output and I/O.
- **Dates.** Elapsed calendar days come from the table's date index. `totalDays` is an integer parameter instead.
- **Index alignment.** pandas aligns columns by label. The model assumes the columns share one index, as they do in this pipeline.
- **Floating point.** IEEE rounding, infinities and NaN propagation beyond the missing cells above are not modelled: numbers are exact reals.
- **Fractional power and square root.** These are library calls. They enter as parameters, and only the properties named above are assumed of them.
- **Chained assignments.** Two statements assign through a column selection: `fillna(0, inplace=True)` on `Strategy_Return` and `iloc[0] = initial_capital` on `Portfolio`. Whether they write back to the frame depends on the pandas version (copy-on-write). The model takes the evident intent: row 0 of the strategy return is 0, and row 0 of the portfolio is the capital. `PortfolioMatchesPandas` shows that the overwrite is then a no-op.
- **Signs of prices and portfolio.** `Performance` requires a positive portfolio (`AllPositive`), because drawdown and returns divide by portfolio values. `PortfolioStaysPositive` and `StrategyPortfolioPositive` show that positive prices and capital give one. Zero and negative values are not modelled. A zero divisor makes pandas produce infinities or NaN. A negative portfolio gives finite values outside the `(-1, 0]` drawdown range: for `[-100, -200]` the drawdown at row 1 is `1.0`.
- **Overwritten `Daily_Return` column.** `calculate_performance_metrics` overwrites the backtest's price-based `Daily_Return` column with portfolio returns. The model keeps both: `priceReturn` in `BacktestTable` and `dailyReturn` in `PerformanceReport`.
- **Mutation.** `calculate_performance_metrics` adds its columns to the caller's frame in place. The model returns them in `PerformanceReport` instead.
- Performance.SharpeSign: states the sign only. The value, through `sqrt` of the sample variance, is given by `SharpeDeviation`.
