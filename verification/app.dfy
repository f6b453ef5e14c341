/** The interactive backtest: spread, rolling z-score with a chosen window,
    positions with a chosen entry threshold, PnL net of costs, and the
    three reported figures (net profit, Sharpe ratio with a zero-volatility
    guard, total trades). */
module App {
  import opened Options
  import opened Stats
  import opened Signal
  import opened Backtest

  /** Everything a run computes and reports. */
  datatype Report = Report(
    spread: seq<real>,
    zscore: seq<Option<real>>,
    positions: seq<int>,
    trades: seq<nat>,
    netPnl: seq<Option<real>>,
    cumulative: seq<Option<real>>,
    netProfit: Option<real>,
    sharpe: Sharpe,
    totalTrades: nat)

  /** The price history was empty: the run stops with an error message. */
  datatype RunError = NoData

  /** Sharpe ratio with the guard: zero when the standard deviation of the
      defined daily PnL is zero. With fewer than two defined values the
      standard deviation is NaN, which passes the guard, so the ratio is NaN. */
  function GuardedSharpe(net: seq<Option<real>>, std: StdDev): (r: Sharpe)
    ensures r == NonFinite <==> |Defined(net)| < 2
    ensures r == Zero <==> |Defined(net)| >= 2 && Constant(Defined(net))
    ensures r.Ratio? ==> (r.q > 0.0 <==> Mean(Defined(net)) > 0.0)
    ensures r.Ratio? ==> (r.q < 0.0 <==> Mean(Defined(net)) < 0.0)
  {
    var d := Defined(net);
    if |d| < 2 then NonFinite
    else if std(d) == 0.0 then Zero
    else
      DivisionSign(Mean(d), std(d));
      Ratio(Mean(d) / std(d))
  }

  /** Every cumulative value from the third step on is the previous one
      plus that step's net PnL (the first step's PnL is NaN, so the second
      step's cumulative value is its own net PnL). */
  lemma CumulativeIsRunningSum(ps: seq<int>, s: seq<real>)
    requires |ps| == |s|
    ensures forall t :: 2 <= t < |ps| ==>
      CumSum(NetPnl(ps, s))[t].value == CumSum(NetPnl(ps, s))[t - 1].value + NetPnl(ps, s)[t].value
    ensures |ps| >= 2 ==> CumSum(NetPnl(ps, s))[1] == NetPnl(ps, s)[1]
  {
    var net := NetPnl(ps, s);
    forall t | 1 <= t < |ps|
      ensures t >= 2 ==> CumSum(net)[t].value == CumSum(net)[t - 1].value + net[t].value
      ensures t == 1 ==> CumSum(net)[t] == net[t]
    {
      CostAccounting(ps, s, t);
      CostAccounting(ps, s, t - 1);
      CostAccounting(ps, s, 0);
      RunningSum(net, t);
      if t == 1 {
        assert net[..1] == [net[0]];
        assert Defined(net[..1]) == Defined([]) + [];
      }
    }
  }

  /** The backtest of one spread series. */
  function Simulate(spread: seq<real>, threshold: real, window: nat, std: StdDev): (r: Report)
    requires |spread| > 0
  {
    var z := ZScores(spread, window, std);
    var ps := Positions(z, threshold);
    var net := NetPnl(ps, spread);
    var cum := CumSum(net);
    Report(spread, z, ps, Trades(ps), net, cum, FinalValue(cum), GuardedSharpe(net, std), TradeCount(ps))
  }

  /** The run stops with an error exactly on an empty price history;
      otherwise positions are in {-1, 0, +1}, one per step, flat through the
      warm-up; the trade total is zero exactly when the position never
      changes; and net profit, the last cumulative value, is NaN only for a
      single-step history. */
  function Run(priceY: seq<real>, priceX: seq<real>, alpha: seq<real>, beta: seq<real>,
               threshold: real, window: nat, std: StdDev): (r: Result<Report, RunError>)
    requires |priceY| == |priceX| == |alpha| == |beta|
    ensures r.Failure? <==> |priceY| == 0
    ensures r.Success? ==>
      && |r.value.positions| == |priceY|
      && (forall t :: 0 <= t < |priceY| ==> IsPosition(r.value.positions[t]))
      && (forall t :: 0 <= t < |priceY| && t + 1 < window ==> r.value.positions[t] == Flat)
      && (r.value.totalTrades == 0 <==> forall t :: 0 <= t < |priceY| ==> r.value.positions[t] == r.value.positions[0])
      && (r.value.netProfit.None? <==> |priceY| == 1)
  {
    if |priceY| == 0 then Failure(NoData)
    else
      var spread := Spread(priceY, priceX, alpha, beta);
      ReportFacts(spread, threshold, window, std);
      Success(Simulate(spread, threshold, window, std))
  }

  lemma ReportFacts(spread: seq<real>, threshold: real, window: nat, std: StdDev)
    requires |spread| > 0
    ensures var rep := Simulate(spread, threshold, window, std);
      && |rep.positions| == |spread|
      && (forall t :: 0 <= t < |spread| ==> IsPosition(rep.positions[t]))
      && (forall t :: 0 <= t < |spread| && t + 1 < window ==> rep.positions[t] == Flat)
      && (rep.totalTrades == 0 <==> forall t :: 0 <= t < |spread| ==> rep.positions[t] == rep.positions[0])
      && (rep.netProfit.None? <==> |spread| == 1)
  {
    var ps := Positions(ZScores(spread, window, std), threshold);
    WindowWarmUpFlat(spread, window, std, threshold);
    TradeCountZeroIffNeverChanges(ps);
    CostAccounting(ps, spread, |ps| - 1);
  }

  /** A constant spread (an exact hedge) never opens a position: nothing
      is traded, every net PnL and cumulative value after the first step is
      0, and the Sharpe ratio is exactly 0 once there are two defined daily
      PnL values (NaN before). */
  lemma ConstantSpreadStaysFlat(spread: seq<real>, threshold: real, window: nat, std: StdDev)
    requires Constant(spread)
    ensures var ps := Positions(ZScores(spread, window, std), threshold);
      && (forall t :: 0 <= t < |spread| ==> ps[t] == Flat)
      && TradeCount(ps) == 0
      && (forall t :: 1 <= t < |spread| ==> CumSum(NetPnl(ps, spread))[t] == Some(0.0))
      && GuardedSharpe(NetPnl(ps, spread), std) == (if |spread| >= 3 then Zero else NonFinite)
  {
    var n := |spread|;
    var z := ZScores(spread, window, std);
    ConstantSpreadNoSignal(spread, window, std);
    var ps := Positions(z, threshold);
    WarmUpFlat(z, threshold, n);
    AllFlat(ps, spread);
    if n > 0 {
      SharpeOfFlat(ps, spread, std);
    }
  }

  lemma SharpeOfFlat(ps: seq<int>, spread: seq<real>, std: StdDev)
    requires |ps| == |spread| > 0
    requires forall t :: 0 <= t < |ps| ==> ps[t] == Flat
    ensures GuardedSharpe(NetPnl(ps, spread), std) == (if |ps| >= 3 then Zero else NonFinite)
  {
    var net := NetPnl(ps, spread);
    AllFlat(ps, spread);
    forall t | 0 <= t < |ps|
      ensures net[t].None? <==> t == 0
    {
      CostAccounting(ps, spread, t);
    }
    DefinedAfterLeadingNaN(net);
    var d := Defined(net);
    assert forall t :: 0 <= t < |d| ==> d[t] == net[t + 1].value == 0.0;
    assert Constant(d);
  }

  /** When target and reference prices coincide and the estimates given
      to the run are the exact hedge (alpha 0, beta 1), the spread is zero
      throughout and the run reports a flat position at every step, no
      trades, a net profit of 0 once there are two steps (NaN for a single
      step) and a Sharpe ratio of exactly 0 once there are two defined
      daily PnL values (three steps), NaN before. The Kalman filter does not produce
      these estimates from identical prices, so this is an instance of a
      constant spread, not the filter's behaviour on identical tickers. */
  lemma IdenticalPricesStayFlat(prices: seq<real>, alpha: seq<real>, beta: seq<real>,
                                threshold: real, window: nat, std: StdDev)
    requires |alpha| == |beta| == |prices| > 0
    requires forall t :: 0 <= t < |prices| ==> alpha[t] == 0.0 && beta[t] == 1.0
    ensures Run(prices, prices, alpha, beta, threshold, window, std).Success?
    ensures var rep := Run(prices, prices, alpha, beta, threshold, window, std).value;
      && (forall t :: 0 <= t < |prices| ==> rep.spread[t] == 0.0 && rep.positions[t] == Flat)
      && rep.totalTrades == 0
      && (|prices| >= 2 ==> rep.netProfit == Some(0.0))
      && rep.sharpe == (if |prices| >= 3 then Zero else NonFinite)
  {
    var spread := Spread(prices, prices, alpha, beta);
    ExactHedgeZeroSpread(prices, alpha, beta);
    assert Run(prices, prices, alpha, beta, threshold, window, std) == Success(Simulate(spread, threshold, window, std));
    FlatReport(spread, threshold, window, std);
  }

  lemma ExactHedgeZeroSpread(prices: seq<real>, alpha: seq<real>, beta: seq<real>)
    requires |alpha| == |beta| == |prices|
    requires forall t :: 0 <= t < |prices| ==> alpha[t] == 0.0 && beta[t] == 1.0
    ensures forall t :: 0 <= t < |prices| ==> Spread(prices, prices, alpha, beta)[t] == 0.0
  {
  }

  lemma FlatReport(spread: seq<real>, threshold: real, window: nat, std: StdDev)
    requires |spread| > 0
    requires forall t :: 0 <= t < |spread| ==> spread[t] == 0.0
    ensures var rep := Simulate(spread, threshold, window, std);
      && (forall t :: 0 <= t < |spread| ==> rep.spread[t] == 0.0 && rep.positions[t] == Flat)
      && rep.totalTrades == 0
      && (|spread| >= 2 ==> rep.netProfit == Some(0.0))
      && rep.sharpe == (if |spread| >= 3 then Zero else NonFinite)
  {
    assert Constant(spread);
    ConstantSpreadStaysFlat(spread, threshold, window, std);
  }
}
