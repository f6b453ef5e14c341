/** The backtester: trade indicators, daily gross and net profit-and-loss,
    cumulative PnL and the Sharpe ratio outcome, following pandas'
    treatment of the first step (a shifted or differenced series starts
    with NaN) and of NaN in running sums. */
module Backtest {
  import opened Options
  import opened Stats
  import opened Signal

  /** Cost charged per unit of position change. */
  const CostPerTrade: real := 0.005

  function AbsInt(x: int): nat {
    if x < 0 then -x else x
  }

  /** Sum of a series of counts, accumulated from the left. */
  function NatSum(xs: seq<nat>): nat
    decreases |xs|
  {
    if |xs| == 0 then 0 else NatSum(xs[..|xs| - 1]) + xs[|xs| - 1]
  }

  /* ---------------------------------------------------------------- */
  /* Trades                                                            */
  /* ---------------------------------------------------------------- */

  /** Trade indicator: the size of the position change at each step,
      zero at the first step (the NaN of `diff` is filled with 0). */
  function Trades(ps: seq<int>): (r: seq<nat>)
    ensures |r| == |ps|
  {
    seq(|ps|, t requires 0 <= t < |ps| => if t == 0 then 0 else AbsInt(ps[t] - ps[t - 1]))
  }

  /** Total trades: the sum of the indicator. */
  function TradeCount(ps: seq<int>): nat {
    NatSum(Trades(ps))
  }

  /** Each indicator is 0, 1 or 2 for positions in {-1, 0, +1}; it is 0 at
      the first step and otherwise exactly when the position is unchanged. */
  lemma TradeIndicator(ps: seq<int>, t: nat)
    requires t < |ps|
    requires forall i :: 0 <= i < |ps| ==> IsPosition(ps[i])
    ensures Trades(ps)[t] <= 2
    ensures t == 0 ==> Trades(ps)[t] == 0
    ensures t > 0 ==> (Trades(ps)[t] == 0 <==> ps[t] == ps[t - 1])
  {
  }

  lemma NatSumSnoc(xs: seq<nat>, v: nat)
    ensures NatSum(xs + [v]) == NatSum(xs) + v
  {
  }

  /** A sum of counts is zero exactly when every count is. */
  lemma {:induction false} NatSumZero(xs: seq<nat>)
    ensures NatSum(xs) == 0 <==> forall i :: 0 <= i < |xs| ==> xs[i] == 0
    decreases |xs|
  {
    if |xs| > 0 {
      var init := xs[..|xs| - 1];
      NatSumZero(init);
      assert forall i :: 0 <= i < |init| ==> init[i] == xs[i];
    }
  }

  /** Counts of at most two each, the first being zero, sum to at most
      twice the number of the others. */
  lemma {:induction false} NatSumAtMostTwo(xs: seq<nat>)
    requires |xs| > 0 && xs[0] == 0
    requires forall i :: 0 <= i < |xs| ==> xs[i] <= 2
    ensures NatSum(xs) <= 2 * (|xs| - 1)
    decreases |xs|
  {
    if |xs| > 1 {
      var init := xs[..|xs| - 1];
      NatSumAtMostTwo(init);
    } else {
      assert xs[..0] == [];
    }
  }

  /** A series whose every entry equals its predecessor equals its first
      entry throughout, and conversely. */
  lemma {:induction false} StepwiseConstant(ps: seq<int>)
    ensures (forall t :: 1 <= t < |ps| ==> ps[t] == ps[t - 1]) <==> (forall t :: 0 <= t < |ps| ==> ps[t] == ps[0])
    decreases |ps|
  {
    if |ps| > 1 {
      var init := ps[..|ps| - 1];
      StepwiseConstant(init);
      assert forall t :: 0 <= t < |init| ==> init[t] == ps[t];
      if forall t :: 1 <= t < |ps| ==> ps[t] == ps[t - 1] {
        assert forall t :: 1 <= t < |init| ==> init[t] == init[t - 1];
        assert ps[|ps| - 1] == ps[|ps| - 2];
      }
    }
  }

  /** No trades at all exactly when the position never changes; and at
      most two per step after the first. */
  lemma TradeCountZeroIffNeverChanges(ps: seq<int>)
    requires forall i :: 0 <= i < |ps| ==> IsPosition(ps[i])
    ensures TradeCount(ps) == 0 <==> forall t :: 0 <= t < |ps| ==> ps[t] == ps[0]
    ensures |ps| > 0 ==> TradeCount(ps) <= 2 * (|ps| - 1)
  {
    var tr := Trades(ps);
    AllTradeIndicators(ps);
    NatSumZero(tr);
    StepwiseConstant(ps);
    if |ps| > 0 {
      NatSumAtMostTwo(tr);
    }
  }

  lemma AllTradeIndicators(ps: seq<int>)
    requires forall i :: 0 <= i < |ps| ==> IsPosition(ps[i])
    ensures forall t :: 0 <= t < |ps| ==> Trades(ps)[t] <= 2
    ensures |ps| > 0 ==> Trades(ps)[0] == 0
    ensures (forall t :: 0 <= t < |ps| ==> Trades(ps)[t] == 0) <==> (forall t :: 1 <= t < |ps| ==> ps[t] == ps[t - 1])
  {
    forall t | 0 <= t < |ps|
      ensures Trades(ps)[t] <= 2
      ensures t > 0 ==> (Trades(ps)[t] == 0 <==> ps[t] == ps[t - 1])
    {
      TradeIndicator(ps, t);
    }
  }

  /* ---------------------------------------------------------------- */
  /* Daily PnL                                                         */
  /* ---------------------------------------------------------------- */

  /** Profit of holding position p while the spread moves by d. */
  function Carry(p: int, d: real): real {
    (p as real) * d
  }

  /** Gross daily PnL: the position held since the previous step times
      the spread's change over this step; NaN at the first step, where both
      the shifted position and the change are NaN. */
  function Gross(ps: seq<int>, s: seq<real>): (r: seq<Option<real>>)
    requires |ps| == |s|
    ensures |r| == |ps|
  {
    seq(|ps|, t requires 0 <= t < |ps| =>
      if t == 0 then None else Some(Carry(ps[t - 1], s[t] - s[t - 1])))
  }

  /** Net daily PnL: gross less the cost of the trades made that step
      (NaN stays NaN). */
  function Net(gross: seq<Option<real>>, trades: seq<nat>): (r: seq<Option<real>>)
    requires |gross| == |trades|
    ensures |r| == |gross|
  {
    seq(|gross|, t requires 0 <= t < |gross| =>
      match gross[t]
      case None => None
      case Some(g) => Some(g - CostPerTrade * (trades[t] as real)))
  }

  /** Net daily PnL of a position series over a spread series. */
  function NetPnl(ps: seq<int>, s: seq<real>): (r: seq<Option<real>>)
    requires |ps| == |s|
    ensures |r| == |ps|
  {
    Net(Gross(ps, s), Trades(ps))
  }

  /** No look-ahead: gross PnL up to step t is fixed by the positions before
      step t and the spreads up to step t, so the position taken at step t
      (or later) cannot change it. */
  lemma NoLookAhead(ps1: seq<int>, ps2: seq<int>, s1: seq<real>, s2: seq<real>, t: nat)
    requires |ps1| == |s1| && |ps2| == |s2|
    requires t < |ps1| && t < |ps2|
    requires ps1[..t] == ps2[..t] && s1[..t + 1] == s2[..t + 1]
    ensures Gross(ps1, s1)[..t + 1] == Gross(ps2, s2)[..t + 1]
  {
  }

  /** Cost accounting: net and gross PnL are NaN at the same steps; where
      defined, net PnL is gross PnL less 0.005 per unit traded, so it never
      exceeds gross, and a single one-unit change of position (such as flat
      to long) costs exactly 0.005. */
  lemma CostAccounting(ps: seq<int>, s: seq<real>, t: nat)
    requires |ps| == |s| && t < |ps|
    ensures NetPnl(ps, s)[t].None? <==> t == 0
    ensures t > 0 ==> NetPnl(ps, s)[t].value == Gross(ps, s)[t].value - CostPerTrade * (Trades(ps)[t] as real)
    ensures t > 0 ==> NetPnl(ps, s)[t].value <= Gross(ps, s)[t].value
    ensures t > 0 && AbsInt(ps[t] - ps[t - 1]) == 1 ==> NetPnl(ps, s)[t].value == Gross(ps, s)[t].value - 0.005
  {
  }

  /* ---------------------------------------------------------------- */
  /* Cumulative PnL                                                    */
  /* ---------------------------------------------------------------- */

  /** One pass of sequential accumulation starting from `acc`: NaN entries
      stay NaN and are skipped, every other entry becomes the running total. */
  function Scan(xs: seq<Option<real>>, acc: real): (r: seq<Option<real>>)
    ensures |r| == |xs|
    ensures forall t :: 0 <= t < |xs| ==> (r[t].None? <==> xs[t].None?)
    decreases |xs|
  {
    if |xs| == 0 then []
    else
      match xs[0]
      case None => [None] + Scan(xs[1..], acc)
      case Some(v) => [Some(acc + v)] + Scan(xs[1..], acc + v)
  }

  /** Cumulative sum as pandas' `cumsum()` computes it. */
  function CumSum(xs: seq<Option<real>>): (r: seq<Option<real>>)
    ensures |r| == |xs|
  {
    Scan(xs, 0.0)
  }

  /** Each defined entry of the scan is the start value plus the sum of the
      defined entries so far. */
  lemma {:induction false} ScanTotal(xs: seq<Option<real>>, acc: real, t: nat)
    requires t < |xs| && xs[t].Some?
    ensures Scan(xs, acc)[t].value == acc + SumDefined(xs[..t + 1])
    decreases t
  {
    SumDefinedPrefix(xs, t);
    if t > 0 {
      ScanTotal(xs[1..], acc + xs[0].GetOr(0.0), t - 1);
      ScanShift(xs, acc, t);
    } else {
      ScanHead(xs, acc);
      assert xs[1..][..0] == [];
    }
  }

  lemma ScanHead(xs: seq<Option<real>>, acc: real)
    requires 0 < |xs| && xs[0].Some?
    ensures Scan(xs, acc)[0] == Some(acc + xs[0].value)
  {
  }

  lemma SumDefinedPrefix(xs: seq<Option<real>>, t: nat)
    requires t < |xs|
    ensures SumDefined(xs[..t + 1]) == xs[0].GetOr(0.0) + SumDefined(xs[1..][..t])
  {
    assert xs[..t + 1] == [xs[0]] + xs[1..][..t];
    SumDefinedCons(xs[0], xs[1..][..t]);
  }

  /** Past the first entry, a scan continues as the scan of the rest from
      the first running total. */
  lemma ScanShift(xs: seq<Option<real>>, acc: real, t: nat)
    requires 0 < t < |xs|
    ensures Scan(xs, acc)[t] == Scan(xs[1..], acc + xs[0].GetOr(0.0))[t - 1]
  {
    assert Scan(xs, acc)[1..] == Scan(xs[1..], acc + xs[0].GetOr(0.0));
  }

  lemma SumDefinedCons(x: Option<real>, xs: seq<Option<real>>)
    ensures SumDefined([x] + xs) == x.GetOr(0.0) + SumDefined(xs)
  {
    DefinedCons(x, xs);
    if x.Some? {
      SumCons(x.value, Defined(xs));
    } else {
      assert Defined([x] + xs) == Defined(xs);
    }
  }

  /** Cumulative PnL is the running sum of the defined daily PnL: at each
      defined step it is the previous total plus today's value, and when
      the previous step was defined too, the previous cumulative value plus
      today's. */
  lemma RunningSum(xs: seq<Option<real>>, t: nat)
    requires t < |xs| && xs[t].Some?
    ensures CumSum(xs)[t].value == SumDefined(xs[..t]) + xs[t].value
    ensures t > 0 && xs[t - 1].Some? ==> CumSum(xs)[t].value == CumSum(xs)[t - 1].value + xs[t].value
  {
    ScanTotal(xs, 0.0, t);
    assert xs[..t + 1] == xs[..t] + [xs[t]];
    SumDefinedSnoc(xs[..t], xs[t]);
    if t > 0 && xs[t - 1].Some? {
      ScanTotal(xs, 0.0, t - 1);
    }
  }

  /** The last cumulative value: what the run reports as net profit. */
  function FinalValue(cum: seq<Option<real>>): (r: Option<real>)
    requires |cum| > 0
  {
    cum[|cum| - 1]
  }

  /* ---------------------------------------------------------------- */
  /* Sharpe ratio outcome                                              */
  /* ---------------------------------------------------------------- */

  /** Outcome of the annualized Sharpe ratio. `Ratio(q)` stands for
      q * sqrt(252), q being mean / standard deviation of the defined daily
      PnL; `NonFinite` is a NaN or infinite result. */
  datatype Sharpe = NonFinite | Zero | Ratio(q: real)

  /* ---------------------------------------------------------------- */
  /* A strategy that never takes a position                            */
  /* ---------------------------------------------------------------- */

  /** If every position is flat there are no trades, and every defined
      daily PnL, net or gross, and every defined cumulative value is 0. */
  lemma {:induction false} AllFlat(ps: seq<int>, s: seq<real>)
    requires |ps| == |s|
    requires forall t :: 0 <= t < |ps| ==> ps[t] == Flat
    ensures TradeCount(ps) == 0
    ensures forall t :: 0 <= t < |ps| ==> Trades(ps)[t] == 0
    ensures forall t :: 1 <= t < |ps| ==> Gross(ps, s)[t] == Some(0.0)
    ensures forall t :: 1 <= t < |ps| ==> NetPnl(ps, s)[t] == Some(0.0)
    ensures forall t :: 1 <= t < |ps| ==> CumSum(NetPnl(ps, s))[t] == Some(0.0)
  {
    assert forall t :: 0 <= t < |ps| ==> IsPosition(ps[t]);
    TradeCountZeroIffNeverChanges(ps);
    FlatNetZero(ps, s);
    ZeroCumSum(NetPnl(ps, s));
  }

  /** Accumulating only zeros and NaNs gives 0 at every defined step. */
  lemma ZeroCumSum(xs: seq<Option<real>>)
    requires forall t :: 0 <= t < |xs| ==> xs[t].None? || xs[t] == Some(0.0)
    ensures forall t :: 0 <= t < |xs| && xs[t].Some? ==> CumSum(xs)[t] == Some(0.0)
  {
    forall t | 0 <= t < |xs| && xs[t].Some?
      ensures CumSum(xs)[t] == Some(0.0)
    {
      ZeroSumDefined(xs, t + 1);
      ScanTotal(xs, 0.0, t);
    }
  }

  lemma FlatNetZero(ps: seq<int>, s: seq<real>)
    requires |ps| == |s|
    requires forall t :: 0 <= t < |ps| ==> ps[t] == Flat
    ensures forall t :: 1 <= t < |ps| ==> Gross(ps, s)[t] == Some(0.0)
    ensures forall t :: 0 <= t < |ps| ==> NetPnl(ps, s)[t].None? || NetPnl(ps, s)[t] == Some(0.0)
    ensures forall t :: 1 <= t < |ps| ==> NetPnl(ps, s)[t] == Some(0.0)
  {
    var g := Gross(ps, s);
    var tr := Trades(ps);
    forall t | 1 <= t < |ps|
      ensures g[t] == Some(0.0) && tr[t] == 0
    {
      assert ps[t - 1] == Flat;
    }
  }

  lemma {:induction false} ZeroSumDefined(xs: seq<Option<real>>, k: nat)
    requires k <= |xs|
    requires forall t :: 0 <= t < k ==> xs[t].None? || xs[t] == Some(0.0)
    ensures SumDefined(xs[..k]) == 0.0
    decreases k
  {
    if k > 0 {
      ZeroSumDefined(xs, k - 1);
      assert xs[..k] == xs[..k - 1] + [xs[k - 1]];
      SumDefinedSnoc(xs[..k - 1], xs[k - 1]);
    }
  }
}
