/** The signal stage (`MACD.generate_signals`, macd.py): a 20-row trailing
    simple moving average as trend filter, and the crossover rule that turns
    the indicator columns into buy (+1), sell (-1) and hold (0) actions. */
module Signals {
  import opened Wrappers
  import opened Series
  import opened Indicator

  /** Rows in the trailing window of the trend filter. */
  const TrendWindow: nat := 20

  /** The trailing mean of the `TrendWindow` prices ending at row `t`;
      missing while fewer rows exist (pandas' default `min_periods`). */
  function TrendAt(prices: seq<real>, t: nat): Option<real>
    requires t < |prices|
  {
    if t + 1 < TrendWindow then None
    else Some(Sum(prices[t + 1 - TrendWindow..t + 1]) / TrendWindow as real)
  }

  /** `price.rolling(window=20).mean()`: present exactly from row 19 on,
      where it is the mean of rows `t-19 .. t`. */
  function Trend(prices: seq<real>): (r: seq<Option<real>>)
    ensures |r| == |prices|
    ensures forall t :: 0 <= t < |prices| ==> (r[t].Some? <==> t >= 19)
    ensures forall t :: 19 <= t < |prices| ==> r[t].value * 20.0 == Sum(prices[t - 19..t + 1])
  {
    seq(|prices|, t requires 0 <= t < |prices| => TrendAt(prices, t))
  }

  /** Sliding the window one row drops the oldest price and adds the newest. */
  lemma TrendSlides(prices: seq<real>, t: nat)
    requires 20 <= t < |prices|
    ensures Trend(prices)[t].value == Trend(prices)[t - 1].value + (prices[t] - prices[t - 20]) / 20.0
  {
    SumExtend(prices, t - 19, t);
    SumFront(prices[t - 20..t]);
    assert prices[t - 20..t][1..] == prices[t - 19..t];
    var shared := Sum(prices[t - 19..t]);
    assert Trend(prices)[t].value == (shared + prices[t]) / 20.0;
    assert Trend(prices)[t - 1].value == (prices[t - 20] + shared) / 20.0;
  }

  /** The trend of a prefix of the prices is the prefix of the trend. */
  lemma TrendPrefix(prices: seq<real>, k: nat)
    requires k <= |prices|
    ensures Trend(prices[..k]) == Trend(prices)[..k]
  {
    forall t | 0 <= t < k
      ensures Trend(prices[..k])[t] == Trend(prices)[t]
    {
      if t >= 19 {
        assert prices[..k][t - 19..t + 1] == prices[t - 19..t + 1];
      }
    }
  }

  /** The table `generate_signals` returns: the price, the indicator
      columns, the trend and the action of every row. */
  datatype SignalTable = SignalTable(
    price: seq<real>,
    macd: seq<real>,
    signal: seq<real>,
    histogram: seq<real>,
    trend: seq<Option<real>>,
    action: seq<int>)

  /** Every column has one row per price. */
  predicate Aligned(table: SignalTable)
  {
    var n := |table.price|;
    |table.macd| == n && |table.signal| == n && |table.histogram| == n
    && |table.trend| == n && |table.action| == n
  }

  /** The buy mask at row `t`, evaluated on pandas columns: the shifted
      values and the trend may be missing, and then the mask is false. */
  predicate BuyAt(prices: seq<real>, indicators: MacdTable, threshold: real, t: nat)
    requires AlignedTo(indicators, |prices|) && t < |prices|
    ensures BuyAt(prices, indicators, threshold, t) ==> TrendWindow - 1 <= t
  {
    var previousMacd, previousSignal := Shift(indicators.macd), Shift(indicators.signal);
    && indicators.macd[t] > indicators.signal[t]
    && AtMost(previousMacd[t], previousSignal[t])
    && indicators.histogram[t] > threshold
    && Less(Trend(prices)[t], Some(prices[t]))
  }

  /** The sell mask at row `t`, with the threshold's sign flipped. */
  predicate SellAt(prices: seq<real>, indicators: MacdTable, threshold: real, t: nat)
    requires AlignedTo(indicators, |prices|) && t < |prices|
    ensures SellAt(prices, indicators, threshold, t) ==> TrendWindow - 1 <= t
  {
    var previousMacd, previousSignal := Shift(indicators.macd), Shift(indicators.signal);
    && indicators.macd[t] < indicators.signal[t]
    && AtMost(previousSignal[t], previousMacd[t])
    && indicators.histogram[t] < -threshold
    && Less(Some(prices[t]), Trend(prices)[t])
  }

  /** The action column starts at 0; the buy mask writes 1, then the sell
      mask writes -1 over it. */
  function ActionAt(prices: seq<real>, indicators: MacdTable, threshold: real, t: nat): (a: int)
    requires AlignedTo(indicators, |prices|) && t < |prices|
    ensures -1 <= a <= 1
    ensures a == 0 <==> !BuyAt(prices, indicators, threshold, t) && !SellAt(prices, indicators, threshold, t)
    ensures t < TrendWindow - 1 ==> a == 0
  {
    if SellAt(prices, indicators, threshold, t) then -1
    else if BuyAt(prices, indicators, threshold, t) then 1
    else 0
  }

  /** A confirmed upward crossover, stated on plain values: MACD rises
      strictly above the signal line at `t` after being at or below it at
      `t-1`, the histogram clears the threshold, and the price is above
      the mean of its last 20 rows. */
  predicate ConfirmedUpCross(prices: seq<real>, indicators: MacdTable, threshold: real, t: nat)
    requires AlignedTo(indicators, |prices|) && t < |prices|
  {
    && t >= 19
    && indicators.macd[t] > indicators.signal[t]
    && indicators.macd[t - 1] <= indicators.signal[t - 1]
    && indicators.histogram[t] > threshold
    && prices[t] * 20.0 > Sum(prices[t - 19..t + 1])
  }

  /** The mirror image: a confirmed downward crossover. */
  predicate ConfirmedDownCross(prices: seq<real>, indicators: MacdTable, threshold: real, t: nat)
    requires AlignedTo(indicators, |prices|) && t < |prices|
  {
    && t >= 19
    && indicators.macd[t] < indicators.signal[t]
    && indicators.macd[t - 1] >= indicators.signal[t - 1]
    && indicators.histogram[t] < -threshold
    && prices[t] * 20.0 < Sum(prices[t - 19..t + 1])
  }

  /** `MACD.generate_signals`: copies the price and indicator columns,
      adds the trend, and sets each action to 1 exactly on a confirmed
      upward crossover, to -1 exactly on a confirmed downward crossover,
      and to 0 otherwise; in particular no row before the trend window is
      full (and so not row 0) ever acts. */
  function GenerateSignals(prices: seq<real>, indicators: MacdTable, threshold: real): (r: SignalTable)
    requires AlignedTo(indicators, |prices|)
    ensures Aligned(r) && |r.price| == |prices|
    ensures r.price == prices && r.macd == indicators.macd && r.signal == indicators.signal
    ensures r.histogram == indicators.histogram && r.trend == Trend(prices)
    ensures forall t :: 0 <= t < |prices| ==> -1 <= r.action[t] <= 1
    ensures forall t :: 0 <= t < |prices| ==>
      (r.action[t] == 1 <==> ConfirmedUpCross(prices, indicators, threshold, t))
    ensures forall t :: 0 <= t < |prices| ==>
      (r.action[t] == -1 <==> ConfirmedDownCross(prices, indicators, threshold, t))
    ensures forall t :: 0 <= t < |prices| && t < 19 ==> r.action[t] == 0
  {
    var action := seq(|prices|, t requires 0 <= t < |prices| => ActionAt(prices, indicators, threshold, t));
    SignalTable(prices, indicators.macd, indicators.signal, indicators.histogram, Trend(prices), action)
  }

  /** The buy and sell masks never hold together (MACD cannot be both above
      and below the signal line), so writing the sell mask before the buy
      mask would give the same action column. */
  lemma BuySellExclusive(prices: seq<real>, indicators: MacdTable, threshold: real, t: nat)
    requires AlignedTo(indicators, |prices|) && t < |prices|
    ensures !(BuyAt(prices, indicators, threshold, t) && SellAt(prices, indicators, threshold, t))
    ensures GenerateSignals(prices, indicators, threshold).action[t]
         == (if BuyAt(prices, indicators, threshold, t) then 1
             else if SellAt(prices, indicators, threshold, t) then -1
             else 0)
  {
  }

  /** The signal table of a prefix of the rows is the prefix of the signal
      table: no action reads a later row. */
  lemma SignalsPrefix(prices: seq<real>, indicators: MacdTable, threshold: real, k: nat)
    requires AlignedTo(indicators, |prices|) && k <= |prices|
    ensures GenerateSignals(prices[..k], Prefix(indicators, k), threshold).action
         == GenerateSignals(prices, indicators, threshold).action[..k]
    ensures GenerateSignals(prices[..k], Prefix(indicators, k), threshold).trend
         == GenerateSignals(prices, indicators, threshold).trend[..k]
  {
    var part := Prefix(indicators, k);
    TrendPrefix(prices, k);
    forall t | 0 <= t < k
      ensures ActionAt(prices[..k], part, threshold, t) == ActionAt(prices, indicators, threshold, t)
    {
      assert Trend(prices[..k])[t] == Trend(prices)[t];
      if t > 0 {
        assert Shift(part.macd)[t] == Shift(indicators.macd)[t];
        assert Shift(part.signal)[t] == Shift(indicators.signal)[t];
      }
    }
  }
}
