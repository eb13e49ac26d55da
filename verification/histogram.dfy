/**
  Counting sensor landing heights into pixel bins, with the semantics of a
  histogram over explicit bin edges e_0 <= e_1 <= ... <= e_k: bin i holds the
  values in [e_i, e_(i+1)), except the last bin, which is closed, [e_(k-1), e_k].
  Values below e_0 or above e_k are not counted anywhere.

  The counts are computed the way the array library does it: for every edge
  the number of values strictly below it (the last edge: at or below it),
  then the differences of consecutive such cumulative counts.
 */
module Binning {
  import opened Results

  /** Bin edges never decrease. */
  predicate Monotone(edges: seq<real>) {
    forall i :: 0 <= i < |edges| - 1 ==> edges[i] <= edges[i + 1]
  }

  /** Value x belongs to bin i. */
  predicate InBin(edges: seq<real>, i: int, x: real)
    requires 0 <= i < |edges| - 1
  {
    edges[i] <= x && (x < edges[i + 1] || (i == |edges| - 2 && x == edges[i + 1]))
  }

  // ----- counting -----

  /** How many values lie strictly below e. */
  function CountBelow(xs: seq<real>, e: real): (c: nat)
    ensures c <= |xs|
  {
    if xs == [] then 0 else (if xs[0] < e then 1 else 0) + CountBelow(xs[1..], e)
  }

  /** How many values lie at or below e. */
  function CountAtMost(xs: seq<real>, e: real): (c: nat)
    ensures c <= |xs|
  {
    if xs == [] then 0 else (if xs[0] <= e then 1 else 0) + CountAtMost(xs[1..], e)
  }

  /** How many values lie in [lo, hi), or in [lo, hi] when `closed`. */
  function CountIn(xs: seq<real>, lo: real, hi: real, closed: bool): (c: nat)
    ensures c <= |xs|
  {
    if xs == [] then 0
    else (if lo <= xs[0] && (xs[0] < hi || (closed && xs[0] == hi)) then 1 else 0)
         + CountIn(xs[1..], lo, hi, closed)
  }

  /** How many values lie outside [lo, hi]. */
  function CountOutside(xs: seq<real>, lo: real, hi: real): (c: nat)
    ensures c <= |xs|
  {
    if xs == [] then 0
    else (if xs[0] < lo || hi < xs[0] then 1 else 0) + CountOutside(xs[1..], lo, hi)
  }

  /** How many values belong to bin i. */
  function CountInBin(xs: seq<real>, edges: seq<real>, i: int): nat
    requires 0 <= i < |edges| - 1
  {
    CountIn(xs, edges[i], edges[i + 1], i == |edges| - 2)
  }

  function Sum(s: seq<nat>): nat {
    if s == [] then 0 else Sum(s[..|s| - 1]) + s[|s| - 1]
  }

  // ----- the histogram -----

  /** Values below edge j, or at or below it for the last edge. */
  function Cumulative(xs: seq<real>, edges: seq<real>, j: int): nat
    requires 0 <= j < |edges|
  {
    if j == |edges| - 1 then CountAtMost(xs, edges[j]) else CountBelow(xs, edges[j])
  }

  /**
    Bin counts of xs over the given edges. Decreasing edges are refused; fewer
    than two edges give no bins.
   */
  function Histogram(xs: seq<real>, edges: seq<real>): (r: Result<seq<nat>>)
    ensures r.Err? <==> !Monotone(edges)
    ensures r.Ok? ==> |r.value| == if |edges| < 2 then 0 else |edges| - 1
    ensures r.Ok? ==> forall i :: 0 <= i < |r.value| ==> r.value[i] == CountInBin(xs, edges, i)
    ensures r.Ok? && xs == [] ==> forall i :: 0 <= i < |r.value| ==> r.value[i] == 0
  {
    if !Monotone(edges) then Err(BinsNotMonotonic)
    else if |edges| < 2 then Ok([])
    else
      CumulativeSteps(xs, edges);
      Ok(seq(|edges| - 1, i requires 0 <= i < |edges| - 1 =>
                            Cumulative(xs, edges, i + 1) - Cumulative(xs, edges, i)))
  }

  // ----- lemmas -----

  /** Monotone edges are ordered pairwise, not only neighbour by neighbour. */
  lemma {:induction false} MonotoneOrdered(edges: seq<real>, i: int, j: int)
    requires Monotone(edges)
    requires 0 <= i <= j < |edges|
    ensures edges[i] <= edges[j]
    decreases j - i
  {
    if i < j {
      MonotoneOrdered(edges, i + 1, j);
    }
  }

  /** Values below hi are those below lo plus those in [lo, hi). */
  lemma {:induction false} BelowSplits(xs: seq<real>, lo: real, hi: real)
    requires lo <= hi
    ensures CountBelow(xs, hi) == CountBelow(xs, lo) + CountIn(xs, lo, hi, false)
  {
    if xs != [] {
      BelowSplits(xs[1..], lo, hi);
    }
  }

  /** Values at or below hi are those below lo plus those in [lo, hi]. */
  lemma {:induction false} AtMostSplits(xs: seq<real>, lo: real, hi: real)
    requires lo <= hi
    ensures CountAtMost(xs, hi) == CountBelow(xs, lo) + CountIn(xs, lo, hi, true)
  {
    if xs != [] {
      AtMostSplits(xs[1..], lo, hi);
    }
  }

  /** Every value is either in [lo, hi] or outside it. */
  lemma {:induction false} InsideOutside(xs: seq<real>, lo: real, hi: real)
    ensures CountIn(xs, lo, hi, true) + CountOutside(xs, lo, hi) == |xs|
  {
    if xs != [] {
      InsideOutside(xs[1..], lo, hi);
    }
  }

  /** Consecutive cumulative counts differ by the count of the bin between the edges. */
  lemma CumulativeSteps(xs: seq<real>, edges: seq<real>)
    requires Monotone(edges)
    ensures forall i :: 0 <= i < |edges| - 1 ==>
      Cumulative(xs, edges, i + 1) == Cumulative(xs, edges, i) + CountInBin(xs, edges, i)
  {
    forall i | 0 <= i < |edges| - 1
      ensures Cumulative(xs, edges, i + 1) == Cumulative(xs, edges, i) + CountInBin(xs, edges, i)
    {
      if i + 1 == |edges| - 1 {
        AtMostSplits(xs, edges[i], edges[i + 1]);
      } else {
        BelowSplits(xs, edges[i], edges[i + 1]);
      }
    }
  }

  /** The first m bin counts add up to the cumulative count at edge m less that at edge 0. */
  lemma {:induction false} SumTelescopes(xs: seq<real>, edges: seq<real>, counts: seq<nat>, m: int)
    requires Monotone(edges) && |edges| >= 2
    requires Histogram(xs, edges) == Ok(counts)
    requires 0 <= m <= |counts|
    ensures Sum(counts[..m]) + Cumulative(xs, edges, 0) == Cumulative(xs, edges, m)
  {
    if m > 0 {
      SumTelescopes(xs, edges, counts, m - 1);
      assert counts[..m][..m - 1] == counts[..m - 1];
      CumulativeSteps(xs, edges);
    }
  }

  /**
    Count conservation: the binned values plus the values outside [e_0, e_k]
    are all the values, so at most |xs| values are binned.
   */
  lemma {:induction false} HistogramConservation(xs: seq<real>, edges: seq<real>)
    requires Monotone(edges) && |edges| >= 2
    ensures Histogram(xs, edges).Ok?
    ensures Sum(Histogram(xs, edges).value) + CountOutside(xs, edges[0], edges[|edges| - 1]) == |xs|
    ensures Sum(Histogram(xs, edges).value) <= |xs|
  {
    var counts := Histogram(xs, edges).value;
    var last := |edges| - 1;
    SumTelescopes(xs, edges, counts, |counts|);
    assert counts[..|counts|] == counts;
    MonotoneOrdered(edges, 0, last);
    AtMostSplits(xs, edges[0], edges[last]);
    InsideOutside(xs, edges[0], edges[last]);
  }

  /** When every value lies in [lo, hi], none is outside it. */
  lemma {:induction false} NoneOutside(xs: seq<real>, lo: real, hi: real)
    requires forall i :: 0 <= i < |xs| ==> lo <= xs[i] <= hi
    ensures CountOutside(xs, lo, hi) == 0
  {
    if xs != [] {
      NoneOutside(xs[1..], lo, hi);
    }
  }

  /** A value falls in at most one bin. */
  lemma BinsDisjoint(edges: seq<real>, i: int, j: int, x: real)
    requires Monotone(edges)
    requires 0 <= i < |edges| - 1 && 0 <= j < |edges| - 1
    requires InBin(edges, i, x) && InBin(edges, j, x)
    ensures i == j
  {
    if i < j {
      MonotoneOrdered(edges, i + 1, j);
    } else if j < i {
      MonotoneOrdered(edges, j + 1, i);
    }
  }

  /**
    The bin of x, found by scanning the edges: `found` exactly when x lies in
    [e_0, e_k], and then x belongs to bin i (its only bin, by BinsDisjoint).
   */
  method BinIndex(edges: seq<real>, x: real) returns (found: bool, i: int)
    requires Monotone(edges) && |edges| >= 2
    ensures found <==> edges[0] <= x <= edges[|edges| - 1]
    ensures found ==> 0 <= i < |edges| - 1 && InBin(edges, i, x)
  {
    if x < edges[0] || edges[|edges| - 1] < x {
      return false, -1;
    }
    i := 0;
    while !(x < edges[i + 1]) && i < |edges| - 2
      invariant 0 <= i <= |edges| - 2
      invariant edges[i] <= x
    {
      i := i + 1;
    }
    found := true;
  }
}
