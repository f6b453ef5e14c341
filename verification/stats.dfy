/** Exact arithmetic over series of reals: sums and means, the "skip NaN"
    view of a series that pandas reductions use, and the sample standard
    deviation, which is left abstract beyond the one fact the backtest
    relies on (it is zero exactly on a constant series). */
module Stats {
  import opened Options

  /** Sum of a series, accumulated from the left. */
  function Sum(xs: seq<real>): real
    decreases |xs|
  {
    if |xs| == 0 then 0.0 else Sum(xs[..|xs| - 1]) + xs[|xs| - 1]
  }

  function Mean(xs: seq<real>): real
    requires |xs| > 0
  {
    Sum(xs) / (|xs| as real)
  }

  /** Every entry of the series is the same. */
  predicate Constant(xs: seq<real>) {
    forall i, j :: 0 <= i < |xs| && 0 <= j < |xs| ==> xs[i] == xs[j]
  }

  /** A sample standard deviation (one degree of freedom removed, as
      pandas' `std()` computes it) over series of two or more entries: never
      negative, and zero exactly when the series is constant. The square
      root it involves is not modelled; a caller supplies the function. */
  type StdDev = f: seq<real> -> real
    | forall w :: |w| >= 2 ==> f(w) >= 0.0 && (f(w) == 0.0 <==> Constant(w))
    witness (w: seq<real>) => if Constant(w) then 0.0 else 1.0

  /** The entries that are not NaN, in order: what pandas' `mean()`,
      `std()` and `cumsum()` accumulate. */
  function Defined(xs: seq<Option<real>>): (r: seq<real>)
    ensures |r| <= |xs|
    decreases |xs|
  {
    if |xs| == 0 then []
    else
      var init := Defined(xs[..|xs| - 1]);
      match xs[|xs| - 1]
      case None => init
      case Some(v) => init + [v]
  }

  /** Sum of the entries that are not NaN. */
  function SumDefined(xs: seq<Option<real>>): real {
    Sum(Defined(xs))
  }

  lemma {:induction false} SumCons(v: real, xs: seq<real>)
    ensures Sum([v] + xs) == v + Sum(xs)
    decreases |xs|
  {
    if |xs| > 0 {
      var init := xs[..|xs| - 1];
      assert ([v] + xs)[..|xs|] == [v] + init;
      SumCons(v, init);
    }
  }

  /** Appending an entry appends its value, if any, to the defined entries. */
  lemma DefinedSnoc(xs: seq<Option<real>>, x: Option<real>)
    ensures Defined(xs + [x]) == if x.Some? then Defined(xs) + [x.value] else Defined(xs)
  {
  }

  lemma {:induction false} DefinedCons(x: Option<real>, xs: seq<Option<real>>)
    ensures Defined([x] + xs) == (if x.Some? then [x.value] else []) + Defined(xs)
    decreases |xs|
  {
    if |xs| > 0 {
      var init := xs[..|xs| - 1];
      assert ([x] + xs)[..|xs|] == [x] + init;
      DefinedCons(x, init);
    }
  }

  /** The sum of the defined entries grows by the value of each new entry. */
  lemma SumDefinedSnoc(xs: seq<Option<real>>, x: Option<real>)
    ensures SumDefined(xs + [x]) == SumDefined(xs) + x.GetOr(0.0)
  {
  }

  /** The defined entries of a series whose first entry is NaN and whose
      other entries are all defined are exactly the other entries. */
  lemma {:induction false} DefinedAfterLeadingNaN(xs: seq<Option<real>>)
    requires |xs| > 0 && xs[0].None?
    requires forall t :: 1 <= t < |xs| ==> xs[t].Some?
    ensures |Defined(xs)| == |xs| - 1
    ensures forall t :: 1 <= t < |xs| ==> Defined(xs)[t - 1] == xs[t].value
    decreases |xs|
  {
    if |xs| > 1 {
      var init := xs[..|xs| - 1];
      DefinedAfterLeadingNaN(init);
      DefinedSnoc(init, xs[|xs| - 1]);
      assert init + [xs[|xs| - 1]] == xs;
    } else {
      assert xs == [] + [xs[0]];
      DefinedSnoc([], xs[0]);
    }
  }
}
