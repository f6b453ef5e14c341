/** The batch backtest: the same pipeline with the entry threshold fixed at
    2.0 and the rolling window at 30 steps, reporting both the raw (cost
    free) and the net cumulative PnL, and a Sharpe ratio computed with no
    guard against zero volatility. */
module Strategy {
  import opened Options
  import opened Stats
  import opened Signal
  import opened Backtest
  import App

  const Threshold: real := 2.0
  const WindowSize: nat := 30

  datatype Report = Report(
    spread: seq<real>,
    zscore: seq<Option<real>>,
    positions: seq<int>,
    trades: seq<nat>,
    grossPnl: seq<Option<real>>,
    netPnl: seq<Option<real>>,
    rawCumulative: seq<Option<real>>,
    cumulative: seq<Option<real>>,
    finalPnl: Option<real>,
    sharpe: Sharpe)

  /** The history was empty: looking up the final cumulative value fails. */
  datatype RunError = EmptyHistory

  /** Sharpe ratio as the batch script computes it: mean over standard
      deviation with no guard, so a zero standard deviation divides by zero
      and the result is not a finite number (as it is when the standard
      deviation is NaN). Where the standard deviation is positive it agrees
      with the guarded ratio. */
  function UnguardedSharpe(net: seq<Option<real>>, std: StdDev): (r: Sharpe)
    ensures r != Zero
    ensures r == NonFinite <==> |Defined(net)| < 2 || Constant(Defined(net))
    ensures r != NonFinite ==> r == App.GuardedSharpe(net, std)
  {
    var d := Defined(net);
    if |d| < 2 || std(d) == 0.0 then NonFinite
    else Ratio(Mean(d) / std(d))
  }

  /** The two Sharpe computations differ exactly when the daily PnL is
      constant: the guarded one reports 0, the unguarded one no number. */
  lemma SharpeGuardDifference(net: seq<Option<real>>, std: StdDev)
    ensures UnguardedSharpe(net, std) != App.GuardedSharpe(net, std)
        <==> |Defined(net)| >= 2 && Constant(Defined(net))
  {
  }

  function Simulate(spread: seq<real>, std: StdDev): (r: Report)
    requires |spread| > 0
  {
    var z := ZScores(spread, WindowSize, std);
    var ps := Positions(z, Threshold);
    var gross := Gross(ps, spread);
    var net := NetPnl(ps, spread);
    var cum := CumSum(net);
    Report(spread, z, ps, Trades(ps), gross, net, CumSum(gross), cum, FinalValue(cum),
           UnguardedSharpe(net, std))
  }

  /** The run: positions are in {-1, 0, +1}, one per step, and the first 29
      are flat; it fails only on an empty history. */
  function Run(priceY: seq<real>, priceX: seq<real>, alpha: seq<real>, beta: seq<real>,
               std: StdDev): (r: Result<Report, RunError>)
    requires |priceY| == |priceX| == |alpha| == |beta|
    ensures r.Failure? <==> |priceY| == 0
    ensures r.Success? ==>
      && |r.value.positions| == |priceY|
      && (forall t :: 0 <= t < |priceY| ==> IsPosition(r.value.positions[t]))
      && (forall t :: 0 <= t < |priceY| && t < 29 ==> r.value.positions[t] == Flat)
  {
    if |priceY| == 0 then Failure(EmptyHistory)
    else
      var spread := Spread(priceY, priceX, alpha, beta);
      WindowWarmUpFlat(spread, WindowSize, std, Threshold);
      Success(Simulate(spread, std))
  }

  /* ---------------------------------------------------------------- */
  /* Raw versus net cumulative PnL                                     */
  /* ---------------------------------------------------------------- */

  /** Net PnL is gross PnL less the cost of each step's trades, NaN where
      gross is NaN, and no trade happens at a NaN step. */
  ghost predicate ChargedFrom(gross: seq<Option<real>>, net: seq<Option<real>>, trades: seq<nat>) {
    && |gross| == |net| == |trades|
    && forall t :: 0 <= t < |gross| ==>
         && (net[t].None? <==> gross[t].None?)
         && (gross[t].None? ==> trades[t] == 0)
         && (gross[t].Some? ==> net[t].value == gross[t].value - CostPerTrade * (trades[t] as real))
  }

  lemma ChargedFromNetPnl(ps: seq<int>, s: seq<real>)
    requires |ps| == |s|
    ensures ChargedFrom(Gross(ps, s), NetPnl(ps, s), Trades(ps))
  {
  }

  /** Over any prefix, the defined gross PnL exceeds the defined net PnL by
      the cost of the trades made in that prefix. */
  lemma {:induction false} CostGapPrefix(gross: seq<Option<real>>, net: seq<Option<real>>, trades: seq<nat>, k: nat)
    requires ChargedFrom(gross, net, trades) && k <= |gross|
    ensures SumDefined(gross[..k]) - SumDefined(net[..k]) == CostPerTrade * (NatSum(trades[..k]) as real)
    decreases k
  {
    if k > 0 {
      CostGapPrefix(gross, net, trades, k - 1);
      assert gross[..k] == gross[..k - 1] + [gross[k - 1]];
      assert net[..k] == net[..k - 1] + [net[k - 1]];
      assert trades[..k] == trades[..k - 1] + [trades[k - 1]];
      SumDefinedSnoc(gross[..k - 1], gross[k - 1]);
      SumDefinedSnoc(net[..k - 1], net[k - 1]);
      NatSumSnoc(trades[..k - 1], trades[k - 1]);
    }
  }

  lemma CumulativeGap(gross: seq<Option<real>>, net: seq<Option<real>>, trades: seq<nat>, t: nat)
    requires ChargedFrom(gross, net, trades) && t < |gross| && gross[t].Some?
    ensures CumSum(gross)[t].Some? && CumSum(net)[t].Some?
    ensures CumSum(gross)[t].value - CumSum(net)[t].value == CostPerTrade * (NatSum(trades[..t + 1]) as real)
  {
    ScanTotal(gross, 0.0, t);
    ScanTotal(net, 0.0, t);
    CostGapPrefix(gross, net, trades, t + 1);
  }

  /** At every step after the first, raw cumulative PnL less net cumulative
      PnL is 0.005 times the trades made so far. */
  lemma CostGap(ps: seq<int>, s: seq<real>, t: nat)
    requires |ps| == |s| && 1 <= t < |ps|
    ensures CumSum(Gross(ps, s))[t].Some? && CumSum(NetPnl(ps, s))[t].Some?
    ensures CumSum(Gross(ps, s))[t].value - CumSum(NetPnl(ps, s))[t].value
         == CostPerTrade * (NatSum(Trades(ps)[..t + 1]) as real)
  {
    CostAccounting(ps, s, t);
    ChargedFromNetPnl(ps, s);
    CumulativeGap(Gross(ps, s), NetPnl(ps, s), Trades(ps), t);
  }

  /** The gap between raw and net cumulative PnL never shrinks. */
  lemma CostGapNonDecreasing(ps: seq<int>, s: seq<real>, t: nat)
    requires |ps| == |s| && 1 <= t && t + 1 < |ps|
    ensures CumSum(Gross(ps, s))[t].value - CumSum(NetPnl(ps, s))[t].value
         <= CumSum(Gross(ps, s))[t + 1].value - CumSum(NetPnl(ps, s))[t + 1].value
  {
    CostAccounting(ps, s, t);
    CostAccounting(ps, s, t + 1);
    ChargedFromNetPnl(ps, s);
    GapGrows(Gross(ps, s), NetPnl(ps, s), Trades(ps), t);
  }

  lemma GapGrows(gross: seq<Option<real>>, net: seq<Option<real>>, trades: seq<nat>, t: nat)
    requires ChargedFrom(gross, net, trades) && t + 1 < |gross|
    requires gross[t].Some? && gross[t + 1].Some?
    ensures CumSum(gross)[t].Some? && CumSum(net)[t].Some?
    ensures CumSum(gross)[t + 1].Some? && CumSum(net)[t + 1].Some?
    ensures CumSum(gross)[t].value - CumSum(net)[t].value
         <= CumSum(gross)[t + 1].value - CumSum(net)[t + 1].value
  {
    CumulativeGap(gross, net, trades, t);
    CumulativeGap(gross, net, trades, t + 1);
    assert trades[..t + 2] == trades[..t + 1] + [trades[t + 1]];
    NatSumSnoc(trades[..t + 1], trades[t + 1]);
  }

  /** The batch run's report carries that gap between its two cumulative
      series. */
  lemma ReportCostGap(spread: seq<real>, std: StdDev, t: nat)
    requires 1 <= t < |spread|
    ensures var rep := Simulate(spread, std);
      rep.rawCumulative[t].value - rep.cumulative[t].value
        == CostPerTrade * (NatSum(rep.trades[..t + 1]) as real)
  {
    CostGap(Positions(ZScores(spread, WindowSize, std), Threshold), spread, t);
  }
}
