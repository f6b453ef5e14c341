/** The signal generator: the spread of the target price over the fair
    value implied by the filter's (alpha, beta), its rolling z-score, and
    the position state machine that turns z-scores into short, flat or
    long. */
module Signal {
  import opened Options
  import opened Stats

  const Short: int := -1
  const Flat: int := 0
  const Long: int := 1

  /** An open position is closed once the absolute z-score falls below this. */
  const ExitBand: real := 0.5

  predicate IsPosition(p: int) {
    Short <= p <= Long
  }

  function Abs(x: real): real {
    if x < 0.0 then -x else x
  }

  /* ---------------------------------------------------------------- */
  /* Spread                                                            */
  /* ---------------------------------------------------------------- */

  /** Fair value of the target at each step: alpha + beta * reference price. */
  function FairValue(alpha: seq<real>, beta: seq<real>, priceX: seq<real>): (r: seq<real>)
    requires |alpha| == |beta| == |priceX|
    ensures |r| == |priceX|
  {
    seq(|priceX|, t requires 0 <= t < |priceX| => alpha[t] + beta[t] * priceX[t])
  }

  /** Target price less its fair value. */
  function Spread(priceY: seq<real>, priceX: seq<real>, alpha: seq<real>, beta: seq<real>): (r: seq<real>)
    requires |priceY| == |priceX| == |alpha| == |beta|
    ensures |r| == |priceY|
  {
    var fv := FairValue(alpha, beta, priceX);
    seq(|priceY|, t requires 0 <= t < |priceY| => priceY[t] - fv[t])
  }

  /* ---------------------------------------------------------------- */
  /* Rolling z-score                                                   */
  /* ---------------------------------------------------------------- */

  /** The trailing window of `w` spreads ending at step t. */
  function Window(s: seq<real>, t: nat, w: nat): (r: seq<real>)
    requires w <= t + 1 <= |s|
    ensures |r| == w
    ensures forall k :: 0 <= k < w ==> r[k] == s[t + 1 - w + k]
  {
    s[t + 1 - w .. t + 1]
  }

  /** Z-score at step t: NaN until the window has `w` observations, NaN when
      the window's standard deviation is zero (the division is 0 / 0 then,
      since a constant window's mean is the current spread), otherwise the
      spread's distance from the window mean in standard deviations. */
  function ZScoreAt(s: seq<real>, t: nat, w: nat, std: StdDev): (r: Option<real>)
    requires t < |s|
  {
    if w < 2 || t + 1 < w then None
    else
      var win := Window(s, t, w);
      if Constant(win) then None
      else Some((s[t] - Mean(win)) / std(win))
  }

  /** Z-score series over a rolling window of `w` steps. */
  function ZScores(s: seq<real>, w: nat, std: StdDev): (r: seq<Option<real>>)
    ensures |r| == |s|
    ensures forall t :: 0 <= t < |s| ==> r[t] == ZScoreAt(s, t, w, std)
  {
    seq(|s|, t requires 0 <= t < |s| => ZScoreAt(s, t, w, std))
  }

  /** Warm-up: the first `w - 1` z-scores are undefined; from step `w - 1`
      on a z-score is defined exactly when its window is not constant (a
      window of fewer than two steps always is, so such a window never
      yields a z-score). The z-score is positive exactly when the spread is
      above its window mean. */
  lemma ZScoreDefinedness(s: seq<real>, w: nat, std: StdDev, t: nat)
    requires t < |s|
    ensures t + 1 < w ==> ZScores(s, w, std)[t].None?
    ensures t + 1 >= w ==> (ZScores(s, w, std)[t].Some? <==> !Constant(Window(s, t, w)))
    ensures t + 1 >= w && ZScores(s, w, std)[t].Some? ==>
      (ZScores(s, w, std)[t].value > 0.0 <==> s[t] > Mean(Window(s, t, w)))
  {
  }

  lemma DivisionSign(x: real, d: real)
    requires d > 0.0
    ensures x / d > 0.0 <==> x > 0.0
    ensures x / d < 0.0 <==> x < 0.0
  {
  }

  /** A constant spread never yields a defined z-score. */
  lemma ConstantSpreadNoSignal(s: seq<real>, w: nat, std: StdDev)
    requires Constant(s)
    ensures forall t :: 0 <= t < |s| ==> ZScores(s, w, std)[t].None?
  {
  }

  /* ---------------------------------------------------------------- */
  /* Position state machine                                            */
  /* ---------------------------------------------------------------- */

  /** One step of the state machine, rules tried in order: short above the
      threshold, long below its negation, flat inside the exit band,
      otherwise (and on NaN, which fails every comparison) hold. */
  function Step(prev: int, z: Option<real>, threshold: real): int {
    match z
    case None => prev
    case Some(v) =>
      if v > threshold then Short
      else if v < -threshold then Long
      else if Abs(v) < ExitBand then Flat
      else prev
  }

  /** The position held going into step t: the one emitted at t - 1, or
      flat before the first step. */
  function Before(ps: seq<int>, t: nat): int
    requires t <= |ps|
  {
    if t == 0 then Flat else ps[t - 1]
  }

  /** The position series: the state machine folded over the z-scores,
      starting flat. */
  function Positions(zs: seq<Option<real>>, threshold: real): (r: seq<int>)
    ensures |r| == |zs|
    ensures forall t :: 0 <= t < |r| ==> IsPosition(r[t])
    decreases |zs|
  {
    if |zs| == 0 then []
    else
      var init := Positions(zs[..|zs| - 1], threshold);
      init + [Step(Before(init, |init|), zs[|zs| - 1], threshold)]
  }

  /** A z-score that leaves the position unchanged: NaN, or a value in the
      hysteresis band between the exit band and the threshold. */
  predicate Holds(z: Option<real>, threshold: real) {
    z.None? || (-threshold <= z.value <= threshold && Abs(z.value) >= ExitBand)
  }

  /** The rules a position series must obey at step t, stated one by one
      and in order. */
  ghost predicate RuleAt(zs: seq<Option<real>>, threshold: real, ps: seq<int>, t: nat)
    requires t < |zs| == |ps|
  {
    && (zs[t].Some? && zs[t].value > threshold ==> ps[t] == Short)
    && (zs[t].Some? && zs[t].value <= threshold && zs[t].value < -threshold ==> ps[t] == Long)
    && (zs[t].Some? && -threshold <= zs[t].value <= threshold && Abs(zs[t].value) < ExitBand ==> ps[t] == Flat)
    && (Holds(zs[t], threshold) ==> ps[t] == Before(ps, t))
  }

  ghost predicate ObeysRules(zs: seq<Option<real>>, threshold: real, ps: seq<int>) {
    |ps| == |zs| && forall t :: 0 <= t < |zs| ==> RuleAt(zs, threshold, ps, t)
  }

  /** The fold emits one position per z-score, each obeying the rules. */
  lemma {:induction false} PositionsObeyRules(zs: seq<Option<real>>, threshold: real)
    ensures ObeysRules(zs, threshold, Positions(zs, threshold))
    decreases |zs|
  {
    if |zs| > 0 {
      var init := zs[..|zs| - 1];
      PositionsObeyRules(init, threshold);
      var p := Positions(init, threshold);
      var r := Positions(zs, threshold);
      assert r == p + [Step(Before(p, |p|), zs[|zs| - 1], threshold)];
      forall t | 0 <= t < |zs|
        ensures RuleAt(zs, threshold, r, t)
      {
        if t < |init| {
          assert RuleAt(init, threshold, p, t);
          assert Before(r, t) == Before(p, t);
        }
      }
    }
  }

  /** The rules determine the series: any series obeying them is the fold. */
  lemma {:induction false} RulesDetermine(zs: seq<Option<real>>, threshold: real, ps: seq<int>)
    requires ObeysRules(zs, threshold, ps)
    ensures ps == Positions(zs, threshold)
    decreases |zs|
  {
    if |zs| > 0 {
      var n := |zs| - 1;
      var init := zs[..n];
      var pinit := ps[..n];
      forall t | 0 <= t < n
        ensures RuleAt(init, threshold, pinit, t)
      {
        assert RuleAt(zs, threshold, ps, t);
        assert Before(pinit, t) == Before(ps, t);
      }
      RulesDetermine(init, threshold, pinit);
      assert RuleAt(zs, threshold, ps, n);
      assert Before(ps, n) == Before(pinit, n);
      assert ps == pinit + [ps[n]];
    }
  }

  /** Hysteresis: a defined z-score inside the band between the exit band
      and the threshold keeps whatever position was held, long or short. */
  lemma HysteresisHolds(zs: seq<Option<real>>, threshold: real, t: nat)
    requires t < |zs| && zs[t].Some?
    requires ExitBand <= Abs(zs[t].value) <= threshold
    ensures Positions(zs, threshold)[t] == Before(Positions(zs, threshold), t)
  {
  }

  /** Over a run of steps that all hold, the position stays what it was
      going into the run. */
  lemma {:induction false} HoldRun(zs: seq<Option<real>>, threshold: real, a: nat, b: nat)
    requires a <= b <= |zs|
    requires forall t :: a <= t < b ==> Holds(zs[t], threshold)
    ensures forall t :: a <= t < b ==> Positions(zs, threshold)[t] == Before(Positions(zs, threshold), a)
    decreases b - a
  {
    if a < b {
      var ps := Positions(zs, threshold);
      PositionsObeyRules(zs, threshold);
      assert RuleAt(zs, threshold, ps, a);
      HoldRun(zs, threshold, a + 1, b);
      assert Before(ps, a + 1) == ps[a];
    }
  }

  /** Warm-up: while the z-scores are still undefined the position is flat. */
  lemma WarmUpFlat(zs: seq<Option<real>>, threshold: real, k: nat)
    requires k <= |zs|
    requires forall t :: 0 <= t < k ==> zs[t].None?
    ensures forall t :: 0 <= t < k ==> Positions(zs, threshold)[t] == Flat
  {
    HoldRun(zs, threshold, 0, k);
  }

  /** With a rolling window of `w` steps the first `w - 1` positions are flat. */
  lemma WindowWarmUpFlat(s: seq<real>, w: nat, std: StdDev, threshold: real)
    ensures forall t :: 0 <= t < |s| && t + 1 < w ==> Positions(ZScores(s, w, std), threshold)[t] == Flat
  {
    var zs := ZScores(s, w, std);
    var k := if w == 0 then 0 else if w - 1 < |s| then w - 1 else |s|;
    forall t | 0 <= t < k
      ensures zs[t].None?
    {
      ZScoreDefinedness(s, w, std, t);
    }
    WarmUpFlat(zs, threshold, k);
  }

  /** A rolling window of fewer than two steps has no standard deviation,
      so no z-score is ever defined and the position stays flat throughout. */
  lemma ShortWindowFlat(s: seq<real>, w: nat, std: StdDev, threshold: real)
    requires w < 2
    ensures forall t :: 0 <= t < |s| ==> Positions(ZScores(s, w, std), threshold)[t] == Flat
  {
    WarmUpFlat(ZScores(s, w, std), threshold, |s|);
  }

  /** No look-ahead in the signal: the positions up to step k depend only on
      the z-scores up to step k. */
  lemma {:induction false} PositionsCausal(zs: seq<Option<real>>, threshold: real, k: nat)
    requires k <= |zs|
    ensures Positions(zs[..k], threshold) == Positions(zs, threshold)[..k]
    decreases |zs|
  {
    if k < |zs| {
      var init := zs[..|zs| - 1];
      PositionsCausal(init, threshold, k);
      assert init[..k] == zs[..k];
    } else {
      assert zs[..k] == zs;
    }
  }

  /** The position loop of app.py:86-93 and strategy.py:39-46: walk the
      z-scores carrying the current position, appending it after each step. */
  method SimulatePositions(zs: seq<Option<real>>, threshold: real) returns (ps: seq<int>)
    ensures ps == Positions(zs, threshold)
    ensures ObeysRules(zs, threshold, ps)
    ensures forall t :: 0 <= t < |ps| ==> IsPosition(ps[t])
  {
    ps := [];
    var current := Flat;
    var i := 0;
    while i < |zs|
      invariant 0 <= i <= |zs|
      invariant ps == Positions(zs[..i], threshold)
      invariant current == Before(ps, i)
    {
      var z := zs[i];
      if z.Some? && z.value > threshold {
        current := Short;
      } else if z.Some? && z.value < -threshold {
        current := Long;
      } else if z.Some? && Abs(z.value) < ExitBand {
        current := Flat;
      }
      assert zs[..i + 1][..i] == zs[..i];
      ps := ps + [current];
      i := i + 1;
    }
    assert zs[..i] == zs;
    PositionsObeyRules(zs, threshold);
  }
}
