/** The backtest stage (`backtest_strategy`, back_test.py): the flat/long
    position machine, the strategy return earned by the position held
    entering each row, the compounded portfolio and the cumulative return. */
module Backtest {
  import opened Wrappers
  import opened Series
  import opened Signals
  import opened RealAlgebra

  /** One transition of the position machine: a buy (1) goes long, a sell
      (-1) goes flat, anything else keeps the current state. Flat is 0 and
      long is 1, the number of units held. */
  function Step(position: int, action: int): int
  {
    if action == 1 then 1 else if action == -1 then 0 else position
  }

  /** The position recorded at row `t`: the state after folding `Step`
      over the actions of rows `0 .. t`, starting flat. */
  function PositionAt(actions: seq<int>, t: nat): (p: int)
    requires t < |actions|
    ensures p == 0 || p == 1
    decreases t
  {
    Step(if t == 0 then 0 else PositionAt(actions, t - 1), actions[t])
  }

  /** The position column: aligned with the actions, always flat or long,
      starting from flat and moved only by the row's own action. */
  function Positions(actions: seq<int>): (r: seq<int>)
    ensures |r| == |actions|
    ensures forall t :: 0 <= t < |actions| ==> r[t] == 0 || r[t] == 1
    ensures |actions| > 0 ==> r[0] == Step(0, actions[0])
    ensures forall t {:trigger actions[t]} :: 1 <= t < |actions| ==> r[t] == Step(r[t - 1], actions[t])
  {
    seq(|actions|, t requires 0 <= t < |actions| => PositionAt(actions, t))
  }

  /** The loop of back_test.py lines 21-29, carrying `position` across rows. */
  method SimulatePositions(actions: seq<int>) returns (positions: seq<int>)
    ensures positions == Positions(actions)
  {
    var position := 0;
    positions := [];
    for i := 0 to |actions|
      invariant |positions| == i
      invariant forall k :: 0 <= k < i ==> positions[k] == PositionAt(actions, k)
      invariant position == if i == 0 then 0 else PositionAt(actions, i - 1)
    {
      if actions[i] == 1 {
        position := 1;
      } else if actions[i] == -1 {
        position := 0;
      }
      assert position == PositionAt(actions, i);
      positions := positions + [position];
    }
    PositionsByCell(actions, positions);
  }

  /** A column whose every row is the folded position is `Positions`. */
  lemma PositionsByCell(actions: seq<int>, positions: seq<int>)
    requires |positions| == |actions|
    requires forall k :: 0 <= k < |actions| ==> positions[k] == PositionAt(actions, k)
    ensures positions == Positions(actions)
  {
  }

  /** Row `j` is the last buy or sell among rows `0 .. t`, and it is a buy. */
  predicate LongSince(actions: seq<int>, j: nat, t: nat)
    requires j <= t < |actions|
  {
    actions[j] == 1 && forall k :: j < k <= t ==> actions[k] != 1 && actions[k] != -1
  }

  /** The position is long exactly when the most recent buy-or-sell action
      up to and including row `t` is a buy. */
  lemma {:induction false} LongIffLastDecisiveIsBuy(actions: seq<int>, t: nat)
    requires t < |actions|
    ensures Positions(actions)[t] == 1 <==> exists j :: 0 <= j <= t && LongSince(actions, j, t)
  {
    var a := actions;
    if a[t] == 1 {
      assert LongSince(a, t, t);
    } else if a[t] == -1 {
      forall j | 0 <= j <= t
        ensures !LongSince(a, j, t)
      {
      }
    } else if t == 0 {
      assert !LongSince(a, 0, 0);
    } else {
      LongIffLastDecisiveIsBuy(a, t - 1);
      assert !LongSince(a, t, t);
      forall j | 0 <= j <= t - 1
        ensures LongSince(a, j, t) <==> LongSince(a, j, t - 1)
      {
      }
      if Positions(a)[t] == 1 {
        var j :| 0 <= j <= t - 1 && LongSince(a, j, t - 1);
        assert LongSince(a, j, t);
      }
    }
  }

  /** Over a run of hold actions the position does not change. */
  lemma {:induction false} HoldRunKeepsPosition(actions: seq<int>, i: nat, j: nat)
    requires i <= j < |actions|
    requires forall k :: i < k <= j ==> actions[k] == 0
    ensures Positions(actions)[j] == Positions(actions)[i]
  {
    if j > i {
      HoldRunKeepsPosition(actions, i, j - 1);
    }
  }

  /** Without any action the position stays flat. */
  lemma NoActionStaysFlat(actions: seq<int>, t: nat)
    requires t < |actions|
    requires forall k :: 0 <= k <= t ==> actions[k] == 0
    ensures Positions(actions)[t] == 0
  {
    HoldRunKeepsPosition(actions, 0, t);
  }

  /** The positions of a prefix of the actions are the prefix of the positions. */
  lemma PositionsPrefix(actions: seq<int>, k: nat)
    requires k <= |actions|
    ensures Positions(actions[..k]) == Positions(actions)[..k]
  {
    forall t | 0 <= t < k
      ensures PositionAt(actions[..k], t) == PositionAt(actions, t)
    {
      PositionAtPrefix(actions, k, t);
    }
  }

  lemma {:induction false} PositionAtPrefix(actions: seq<int>, k: nat, t: nat)
    requires t < k <= |actions|
    ensures PositionAt(actions[..k], t) == PositionAt(actions, t)
  {
    if t > 0 {
      PositionAtPrefix(actions, k, t - 1);
    }
  }

  /** A possibly-missing position as a real multiplier. */
  function AsReal(position: Option<int>): Option<real>
  {
    if position.Some? then Some(position.value as real) else None
  }

  /** `(position.shift(1) * price.pct_change()).fillna(0)`, cell by cell as
      pandas evaluates it: a missing operand makes the product missing, and
      a missing product becomes 0. */
  function PandasStrategyReturns(positions: seq<int>, prices: seq<real>): (r: seq<real>)
    requires |positions| == |prices|
    requires forall t :: 0 <= t < |prices| - 1 ==> prices[t] != 0.0
    ensures |r| == |prices|
    ensures |r| > 0 ==> r[0] == 0.0
  {
    var held := Shift(positions);
    var priceReturn := PctChange(prices);
    seq(|prices|, t requires 0 <= t < |prices| => Times(AsReal(held[t]), priceReturn[t]).GetOr(0.0))
  }

  /** The strategy return column: row 0 earns nothing, and every later row
      earns the position held entering it (the previous row's position)
      times the price's relative change. */
  function StrategyReturns(positions: seq<int>, prices: seq<real>): (r: seq<real>)
    requires |positions| == |prices|
    requires forall t :: 0 <= t < |prices| - 1 ==> prices[t] != 0.0
    ensures |r| == |prices|
  {
    seq(|prices|, t requires 0 <= t < |prices| =>
      if t == 0 then 0.0 else positions[t - 1] as real * (prices[t] / prices[t - 1] - 1.0))
  }

  /** The pandas column expression and the row-wise definition agree: row 0
      is filled with 0 because both the shifted position and the price
      change are missing there, and no later cell is missing. */
  lemma StrategyReturnsMatchPandas(positions: seq<int>, prices: seq<real>)
    requires |positions| == |prices|
    requires forall t :: 0 <= t < |prices| - 1 ==> prices[t] != 0.0
    ensures PandasStrategyReturns(positions, prices) == StrategyReturns(positions, prices)
  {
    var held := Shift(positions);
    var priceReturn := PctChange(prices);
    forall t | 0 <= t < |prices|
      ensures PandasStrategyReturns(positions, prices)[t] == StrategyReturns(positions, prices)[t]
    {
      if t > 0 {
        assert held[t] == Some(positions[t - 1]);
        assert priceReturn[t] == Some(prices[t] / prices[t - 1] - 1.0);
      }
    }
  }

  /** No look-ahead: two position columns that agree before row `t` give
      the same strategy return at `t`, whatever they hold at `t` itself. */
  lemma StrategyReturnNoLookAhead(positions: seq<int>, other: seq<int>, prices: seq<real>, t: nat)
    requires |positions| == |prices| && |other| == |prices| && t < |prices|
    requires forall t :: 0 <= t < |prices| - 1 ==> prices[t] != 0.0
    requires positions[..t] == other[..t]
    ensures StrategyReturns(positions, prices)[t] == StrategyReturns(other, prices)[t]
  {
    if t > 0 {
      assert positions[t - 1] == positions[..t][t - 1];
    }
  }

  /** `(1 + rowReturns).cumprod()` at row `t`. */
  function GrowthAt(rowReturns: seq<real>, t: nat): real
    requires t < |rowReturns|
  {
    if t == 0 then 1.0 + rowReturns[0] else GrowthAt(rowReturns, t - 1) * (1.0 + rowReturns[t])
  }

  /** `initial_capital * (1 + rowReturns).cumprod()`, before row 0 is overwritten. */
  function Compounded(rowReturns: seq<real>, capital: real): (r: seq<real>)
    ensures |r| == |rowReturns|
  {
    seq(|rowReturns|, t requires 0 <= t < |rowReturns| => capital * GrowthAt(rowReturns, t))
  }

  /** The portfolio value at row `t`: the initial capital at row 0, and the
      previous value grown by the row's return after it. */
  function PortfolioAt(rowReturns: seq<real>, capital: real, t: nat): real
    requires t < |rowReturns|
  {
    if t == 0 then capital else PortfolioAt(rowReturns, capital, t - 1) * (1.0 + rowReturns[t])
  }

  /** The portfolio column, one `PortfolioAt` per row. */
  function Portfolio(rowReturns: seq<real>, capital: real): (r: seq<real>)
    ensures |r| == |rowReturns|
  {
    seq(|rowReturns|, t requires 0 <= t < |rowReturns| => PortfolioAt(rowReturns, capital, t))
  }

  /** The portfolio column starts at the capital and each later row grows
      the row before it by that row's return. */
  lemma PortfolioSteps(rowReturns: seq<real>, capital: real)
    requires |rowReturns| > 0
    ensures Portfolio(rowReturns, capital)[0] == capital
    ensures forall t :: 1 <= t < |rowReturns| ==>
      Portfolio(rowReturns, capital)[t] == Portfolio(rowReturns, capital)[t - 1] * (1.0 + rowReturns[t])
  {
  }

  /** Past row 0 the step-by-step portfolio is the capital times the
      running product of growth factors. */
  lemma {:induction false} PortfolioAtCompounds(rowReturns: seq<real>, capital: real, t: nat)
    requires 1 <= t < |rowReturns| && rowReturns[0] == 0.0
    ensures PortfolioAt(rowReturns, capital, t) == capital * GrowthAt(rowReturns, t)
  {
    var factor := 1.0 + rowReturns[t];
    if t == 1 {
      assert GrowthAt(rowReturns, 0) == 1.0;
    } else {
      PortfolioAtCompounds(rowReturns, capital, t - 1);
      EqualFactors(PortfolioAt(rowReturns, capital, t - 1), capital * GrowthAt(rowReturns, t - 1), factor);
    }
    Reassociate(capital, GrowthAt(rowReturns, t - 1), factor);
  }

  /** The pandas computation of the portfolio, `initial_capital * (1 +
      returns).cumprod()` with row 0 then overwritten by the capital, is the
      step-by-step portfolio whenever row 0 earns nothing; and then the
      overwrite changes nothing. */
  lemma PortfolioMatchesPandas(rowReturns: seq<real>, capital: real)
    requires |rowReturns| > 0 && rowReturns[0] == 0.0
    ensures Compounded(rowReturns, capital)[0 := capital] == Portfolio(rowReturns, capital)
    ensures Compounded(rowReturns, capital) == Portfolio(rowReturns, capital)
  {
    var compounded := Compounded(rowReturns, capital);
    assert GrowthAt(rowReturns, 0) == 1.0;
    assert compounded[0] == capital * 1.0;
    forall t | 1 <= t < |rowReturns|
      ensures compounded[t] == Portfolio(rowReturns, capital)[t]
    {
      PortfolioAtCompounds(rowReturns, capital, t);
    }
  }

  /** The portfolio at row `t` reads no row return after `t`. */
  lemma {:induction false} PortfolioAtPrefix(rowReturns: seq<real>, capital: real, k: nat, t: nat)
    requires t < k <= |rowReturns|
    ensures PortfolioAt(rowReturns[..k], capital, t) == PortfolioAt(rowReturns, capital, t)
  {
    if t > 0 {
      PortfolioAtPrefix(rowReturns, capital, k, t - 1);
    }
  }

  /** The portfolio column of a prefix of the row returns is the prefix of
      the portfolio column. */
  lemma PortfolioPrefix(rowReturns: seq<real>, capital: real, k: nat)
    requires k <= |rowReturns|
    ensures Portfolio(rowReturns[..k], capital) == Portfolio(rowReturns, capital)[..k]
  {
    forall t | 0 <= t < k
      ensures PortfolioAt(rowReturns[..k], capital, t) == PortfolioAt(rowReturns, capital, t)
    {
      PortfolioAtPrefix(rowReturns, capital, k, t);
    }
  }

  /** The strategy returns of prefixes of the positions and prices are the
      prefix of the strategy returns. */
  lemma StrategyReturnsPrefix(positions: seq<int>, prices: seq<real>, k: nat)
    requires |positions| == |prices| && k <= |prices|
    requires forall t :: 0 <= t < |prices| - 1 ==> prices[t] != 0.0
    ensures StrategyReturns(positions[..k], prices[..k]) == StrategyReturns(positions, prices)[..k]
  {
    forall t | 1 <= t < k
      ensures StrategyReturns(positions[..k], prices[..k])[t] == StrategyReturns(positions, prices)[t]
    {
      assert positions[..k][t - 1] == positions[t - 1];
      assert prices[..k][t - 1] == prices[t - 1] && prices[..k][t] == prices[t];
    }
  }

  /** `portfolio / initial_capital`: each value as a multiple of the capital. */
  function CumulativeReturns(portfolio: seq<real>, capital: real): (r: seq<real>)
    requires capital != 0.0
    ensures |r| == |portfolio|
  {
    seq(|portfolio|, t requires 0 <= t < |portfolio| => portfolio[t] / capital)
  }

  /** Scaling a cumulative return back by the capital recovers the
      portfolio value, and the row holding the capital is exactly 1. */
  lemma CumulativeReturnScales(portfolio: seq<real>, capital: real, t: nat)
    requires capital != 0.0 && t < |portfolio|
    ensures CumulativeReturns(portfolio, capital)[t] * capital == portfolio[t]
    ensures portfolio[t] == capital ==> CumulativeReturns(portfolio, capital)[t] == 1.0
  {
  }

  /** The table `backtest_strategy` returns: the signal table it copied,
      and the columns it adds. */
  datatype BacktestTable = BacktestTable(
    signals: SignalTable,
    position: seq<int>,
    priceReturn: seq<Option<real>>,
    strategyReturn: seq<real>,
    portfolio: seq<real>,
    cumulativeReturn: seq<real>)

  /** `backtest_strategy`, computed with the pandas column expressions: it
      leaves the signal columns as they were, and adds aligned columns in
      which the position follows the action fold, every row earns the
      previous row's position times the price change (row 0 nothing), the
      portfolio starts at the initial capital and compounds those returns,
      and the cumulative return is the portfolio over the initial capital. */
  function BacktestStrategy(signals: SignalTable, capital: real): (r: BacktestTable)
    requires Aligned(signals) && |signals.price| > 0
    requires forall t :: 0 <= t < |signals.price| - 1 ==> signals.price[t] != 0.0
    requires capital != 0.0
    ensures r.signals == signals
    ensures |r.position| == |signals.price| && |r.priceReturn| == |signals.price|
    ensures |r.strategyReturn| == |signals.price| && |r.portfolio| == |signals.price|
    ensures |r.cumulativeReturn| == |signals.price|
    ensures r.position == Positions(signals.action)
    ensures r.priceReturn == PctChange(signals.price)
    ensures r.strategyReturn == StrategyReturns(r.position, signals.price)
    ensures r.portfolio == Portfolio(r.strategyReturn, capital)
    ensures r.cumulativeReturn == CumulativeReturns(r.portfolio, capital)
    ensures r.portfolio[0] == capital && r.cumulativeReturn[0] == 1.0
  {
    var position := Positions(signals.action);
    var strategyReturn := PandasStrategyReturns(position, signals.price);
    StrategyReturnsMatchPandas(position, signals.price);
    var portfolio := Compounded(strategyReturn, capital)[0 := capital];
    PortfolioMatchesPandas(strategyReturn, capital);
    CumulativeReturnScales(portfolio, capital, 0);
    BacktestTable(signals, position, PctChange(signals.price), strategyReturn, portfolio,
                  CumulativeReturns(portfolio, capital))
  }

  /** The factor a row grows the portfolio by: the price ratio when the row
      is entered long, and 1 when it is entered flat. */
  lemma RowGrowth(positions: seq<int>, prices: seq<real>, t: nat)
    requires |positions| == |prices|
    requires forall t :: 0 <= t < |prices| - 1 ==> prices[t] != 0.0
    requires 1 <= t < |prices|
    requires positions[t - 1] == 0 || positions[t - 1] == 1
    ensures 1.0 + StrategyReturns(positions, prices)[t]
         == if positions[t - 1] == 1 then prices[t] / prices[t - 1] else 1.0
  {
  }

  /** Positive prices and positive capital keep every portfolio value
      positive: a row entered flat keeps the value, a row entered long
      scales it by the positive price ratio. */
  lemma {:induction false} PortfolioStaysPositive(positions: seq<int>, prices: seq<real>, capital: real, t: nat)
    requires |positions| == |prices| && t < |prices|
    requires forall k :: 0 <= k < |positions| ==> positions[k] == 0 || positions[k] == 1
    requires forall k :: 0 <= k < |prices| ==> prices[k] > 0.0
    requires capital > 0.0
    ensures PortfolioAt(StrategyReturns(positions, prices), capital, t) > 0.0
  {
    if t > 0 {
      PortfolioStaysPositive(positions, prices, capital, t - 1);
      RowGrowth(positions, prices, t);
      PositiveProduct(PortfolioAt(StrategyReturns(positions, prices), capital, t - 1), 1.0 + StrategyReturns(positions, prices)[t]);
    }
  }

  /** A row entered flat keeps the previous portfolio value. */
  lemma FlatRowKeepsValue(positions: seq<int>, prices: seq<real>, capital: real, t: nat)
    requires |positions| == |prices| && 1 <= t < |prices|
    requires forall k :: 0 <= k < |prices| - 1 ==> prices[k] != 0.0
    requires positions[t - 1] == 0
    ensures PortfolioAt(StrategyReturns(positions, prices), capital, t) == PortfolioAt(StrategyReturns(positions, prices), capital, t - 1)
  {
    RowGrowth(positions, prices, t);
  }

  /** Across a stretch of rows entered flat the portfolio keeps its value. */
  lemma {:induction false} FlatRunKeepsValue(positions: seq<int>, prices: seq<real>, capital: real, i: nat, j: nat)
    requires |positions| == |prices| && i <= j < |prices|
    requires forall k :: 0 <= k < |prices| - 1 ==> prices[k] != 0.0
    requires forall k :: i <= k < j ==> positions[k] == 0
    ensures PortfolioAt(StrategyReturns(positions, prices), capital, j)
         == PortfolioAt(StrategyReturns(positions, prices), capital, i)
    decreases j - i
  {
    if j > i {
      FlatRunKeepsValue(positions, prices, capital, i, j - 1);
      FlatRowKeepsValue(positions, prices, capital, j);
    }
  }

  /** A row entered long grows by its price ratio, stated without the
      division: `(1 + return) * previous price == price`. */
  lemma LongRowGrowth(positions: seq<int>, prices: seq<real>, t: nat)
    requires |positions| == |prices| && 1 <= t < |prices|
    requires forall k :: 0 <= k < |prices| - 1 ==> prices[k] != 0.0
    requires positions[t - 1] == 1
    ensures (1.0 + StrategyReturns(positions, prices)[t]) * prices[t - 1] == prices[t]
  {
    RowGrowth(positions, prices, t);
  }

  /** Rows `i+1 .. j` each grow by their price ratio:
      `(1 + rowReturns[k]) * prices[k-1] == prices[k]`. */
  predicate GrowsWithPrice(rowReturns: seq<real>, prices: seq<real>, i: nat, j: nat)
    requires |rowReturns| == |prices| && i <= j < |prices|
    decreases j - i
  {
    j == i || ((1.0 + rowReturns[j]) * prices[j - 1] == prices[j] && GrowsWithPrice(rowReturns, prices, i, j - 1))
  }

  /** A portfolio whose rows `i+1 .. j` each grow by the price ratio of
      their row ends up scaled by the price ratio between rows `i` and `j`. */
  lemma {:induction false} PortfolioTracksRatios(rowReturns: seq<real>, prices: seq<real>, capital: real, i: nat, j: nat)
    requires |rowReturns| == |prices| && i <= j < |prices|
    requires forall k :: 0 <= k < |prices| - 1 ==> prices[k] != 0.0
    requires GrowsWithPrice(rowReturns, prices, i, j)
    ensures PortfolioAt(rowReturns, capital, j) * prices[i] == PortfolioAt(rowReturns, capital, i) * prices[j]
    decreases j - i
  {
    if j > i {
      PortfolioTracksRatios(rowReturns, prices, capital, i, j - 1);
      TracksOneMoreRow(rowReturns, prices, capital, i, j);
    }
  }

  /** One row of `PortfolioTracksRatios`: growing row `j` by its price ratio
      extends the tracked ratio from `j - 1` to `j`. */
  lemma TracksOneMoreRow(rowReturns: seq<real>, prices: seq<real>, capital: real, i: nat, j: nat)
    requires |rowReturns| == |prices| && i < j < |prices| && prices[j - 1] != 0.0
    requires (1.0 + rowReturns[j]) * prices[j - 1] == prices[j]
    requires PortfolioAt(rowReturns, capital, j - 1) * prices[i] == PortfolioAt(rowReturns, capital, i) * prices[j - 1]
    ensures PortfolioAt(rowReturns, capital, j) * prices[i] == PortfolioAt(rowReturns, capital, i) * prices[j]
  {
    TrackOneMore(PortfolioAt(rowReturns, capital, i), PortfolioAt(rowReturns, capital, j - 1),
                 PortfolioAt(rowReturns, capital, j), 1.0 + rowReturns[j], prices[i], prices[j - 1], prices[j]);
  }

  /** Every row of a long run grows by its price ratio. */
  lemma {:induction false} LongRunGrowth(positions: seq<int>, prices: seq<real>, i: nat, j: nat)
    requires |positions| == |prices| && i <= j < |prices|
    requires forall k :: 0 <= k < |prices| - 1 ==> prices[k] != 0.0
    requires forall k :: i <= k < j ==> positions[k] == 1
    ensures GrowsWithPrice(StrategyReturns(positions, prices), prices, i, j)
    decreases j - i
  {
    if j > i {
      LongRunGrowth(positions, prices, i, j - 1);
      LongRowGrowth(positions, prices, j);
    }
  }

  /** While long from row `i` up to row `j-1`, the portfolio moves exactly
      with the price: `portfolio[j] / portfolio[i] == price[j] / price[i]`. */
  lemma {:induction false} LongRunTracksPrice(positions: seq<int>, prices: seq<real>, capital: real, i: nat, j: nat)
    requires |positions| == |prices| && i <= j < |prices|
    requires forall k :: 0 <= k < |prices| - 1 ==> prices[k] != 0.0
    requires forall k :: i <= k < j ==> positions[k] == 1
    ensures PortfolioAt(StrategyReturns(positions, prices), capital, j) * prices[i]
         == PortfolioAt(StrategyReturns(positions, prices), capital, i) * prices[j]
  {
    var rowReturns := StrategyReturns(positions, prices);
    assert GrowsWithPrice(rowReturns, prices, i, j) by {
      LongRunGrowth(positions, prices, i, j);
    }
    PortfolioTracksRatios(rowReturns, prices, capital, i, j);
  }
}
