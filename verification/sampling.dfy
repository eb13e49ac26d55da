/**
  Evenly spaced sample points, as the array library's `linspace` (a closed
  interval cut into a given number of samples) and `arange` (a half-open range
  walked with a given step) produce them, over exact reals.
 */
module Sampling {
  import opened Results

  // ----- linspace -----

  /** Sample i of `num` samples from start to stop, both ends included. */
  function Sample(start: real, stop: real, num: nat, i: nat): real
    requires i < num
  {
    if num == 1 then start
    else if i == num - 1 then stop   // the endpoint is written exactly
    else start + i as real * ((stop - start) / (num - 1) as real)
  }

  /**
    `num` evenly spaced samples of [start, stop]; a negative count is refused,
    zero samples give the empty sequence and one sample is `start` alone.
   */
  function Linspace(start: real, stop: real, num: int): (r: Result<seq<real>>)
    ensures r.Err? <==> num < 0
    ensures r.Ok? ==> |r.value| == num
    ensures r.Ok? && num >= 1 ==> r.value[0] == start
    ensures r.Ok? && num >= 2 ==> r.value[num - 1] == stop
    ensures r.Ok? && num >= 2 ==> forall i :: 0 <= i < num ==>
              r.value[i] == start + i as real * ((stop - start) / (num - 1) as real)
  {
    if num < 0 then Err(NegativeSampleCount)
    else
      LastSampleIsStop(start, stop, num);
      Ok(seq(num, i requires 0 <= i < num => Sample(start, stop, num, i)))
  }

  /** The written endpoint is where the even spacing would have put it anyway. */
  lemma LastSampleIsStop(start: real, stop: real, num: int)
    ensures num >= 2 ==> start + (num - 1) as real * ((stop - start) / (num - 1) as real) == stop
  {
    if num >= 2 {
      var n := (num - 1) as real;
      assert n * ((stop - start) / n) == stop - start;
    }
  }

  /** Samples of an interval centred on zero come in mirrored pairs. */
  lemma {:induction false} LinspaceSymmetric(theta: real, num: int)
    requires num >= 2
    ensures Linspace(-theta, theta, num).Ok?
    ensures var a := Linspace(-theta, theta, num).value;
            forall i :: 0 <= i < num ==> a[i] == -a[num - 1 - i]
  {
    var a := Linspace(-theta, theta, num).value;
    var n := (num - 1) as real;
    var step := (theta - -theta) / n;
    assert n * step == 2.0 * theta;
    forall i | 0 <= i < num
      ensures a[i] == -a[num - 1 - i]
    {
      var j := num - 1 - i;
      assert a[i] == -theta + i as real * step;
      assert a[j] == -theta + j as real * step;
      assert j as real * step == n * step - i as real * step;
    }
  }

  /** With a positive half-angle and at least two samples, the samples strictly increase. */
  lemma LinspaceIncreasing(theta: real, num: int, i: int, j: int)
    requires theta > 0.0 && num >= 2
    requires 0 <= i < j < num
    ensures Linspace(-theta, theta, num).Ok?
    ensures Linspace(-theta, theta, num).value[i] < Linspace(-theta, theta, num).value[j]
  {
    var a := Linspace(-theta, theta, num).value;
    var n := (num - 1) as real;
    var step := (theta - -theta) / n;
    assert step > 0.0;
    assert a[j] - a[i] == (j - i) as real * step;
  }

  // ----- arange -----

  /** The k-th point of the grid start, start + step, start + 2 step, ... */
  function GridPoint(start: real, step: real, k: int): real {
    start + k as real * step
  }

  /** The least integer not below x. */
  function Ceil(x: real): int {
    -((-x).Floor)
  }

  /** Number of grid points the range holds: ceil((stop - start) / step), or 0 if that is negative. */
  function ArangeLength(start: real, stop: real, step: real): nat
    requires step != 0.0
  {
    var c := Ceil((stop - start) / step);
    if c <= 0 then 0 else c
  }

  /**
    The grid points from start towards stop, stop excluded: exactly those
    GridPoint(start, step, k), k >= 0, that lie before stop in the direction of
    the step. A zero step is refused.
   */
  function Arange(start: real, stop: real, step: real): (r: Result<seq<real>>)
    ensures r.Err? <==> step == 0.0
    ensures r.Ok? ==> forall k :: 0 <= k < |r.value| ==> r.value[k] == GridPoint(start, step, k)
    ensures r.Ok? && step > 0.0 ==>
              forall k: nat :: k < |r.value| <==> GridPoint(start, step, k) < stop
    ensures r.Ok? && step < 0.0 ==>
              forall k: nat :: k < |r.value| <==> GridPoint(start, step, k) > stop
  {
    if step == 0.0 then Err(ZeroStep)
    else
      ArangeMembership(start, stop, step);
      Ok(seq(ArangeLength(start, stop, step), k requires 0 <= k => GridPoint(start, step, k)))
  }

  /** With a positive step the grid points strictly increase. */
  lemma ArangeIncreasing(start: real, stop: real, step: real)
    requires step > 0.0
    ensures Arange(start, stop, step).Ok?
    ensures var e := Arange(start, stop, step).value;
            forall k :: 0 <= k < |e| - 1 ==> e[k] < e[k + 1]
  {
    var e := Arange(start, stop, step).value;
    forall k | 0 <= k < |e| - 1
      ensures e[k] < e[k + 1]
    {
      assert GridPoint(start, step, k + 1) == GridPoint(start, step, k) + step;
    }
  }

  /** An integer is below the ceiling of x exactly when it is below x. */
  lemma BelowCeil(x: real, k: int)
    ensures k < Ceil(x) <==> (k as real) < x
  {
    var f := (-x).Floor;
    assert f as real <= -x < f as real + 1.0;
  }

  lemma ArangeMembership(start: real, stop: real, step: real)
    requires step != 0.0
    ensures step > 0.0 ==> forall k: nat ::
              k < ArangeLength(start, stop, step) <==> GridPoint(start, step, k) < stop
    ensures step < 0.0 ==> forall k: nat ::
              k < ArangeLength(start, stop, step) <==> GridPoint(start, step, k) > stop
  {
    var q := (stop - start) / step;
    assert step * q == stop - start;
    forall k: nat
      ensures step > 0.0 ==> (k < ArangeLength(start, stop, step) <==> GridPoint(start, step, k) < stop)
      ensures step < 0.0 ==> (k < ArangeLength(start, stop, step) <==> GridPoint(start, step, k) > stop)
    {
      BelowCeil(q, k);
      ScaleCompare(k as real, q, step);
    }
  }

  /** Multiplying by a positive step keeps an order; by a negative one reverses it. */
  lemma ScaleCompare(x: real, q: real, step: real)
    ensures step > 0.0 ==> (x < q <==> x * step < q * step)
    ensures step < 0.0 ==> (x < q <==> x * step > q * step)
  {
    if step > 0.0 {
      assert x < q ==> x * step < q * step;
      assert x * step < q * step ==> x < q;
    } else if step < 0.0 {
      assert x < q ==> x * step > q * step;
      assert x * step > q * step ==> x < q;
    }
  }
}
