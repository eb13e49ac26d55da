/**
  The bundle of rays launched from one point source across the objective's
  acceptance cone, traced to the sensor and binned into pixels.

  Launch angles are `Linspace(-theta, theta, rayDensity)`, theta being the
  objective's half-angle arcsin(NA / n), taken here as a given real. Bin edges
  are `Arange(-sensorSize / 25, sensorSize / 25, pixel)`: a central zoom on
  the sensor, not its full width.
 */
module RayBundle {
  import opened Results
  import opened InfiniteConjugate
  import opened Sampling
  import opened Binning

  /** What is kept of one traced ray: its launch angle and its height at each stage boundary. */
  datatype RayPath = RayPath(angle: real, objective: real, tube: real, sensor: real)

  /** The bin edges across the central 2/25 of the sensor, one pixel apart. */
  function PixelBins(pixel: real, numPixels: nat): Result<seq<real>> {
    Arange(-SensorSize(pixel, numPixels) / 25.0, SensorSize(pixel, numPixels) / 25.0, pixel)
  }

  /** The sensor height of every ray of the bundle. */
  function SensorLocations(sys: Relay, initH: real, angles: seq<real>, initZ: real): (loc: seq<real>)
    requires sys.Valid()
    ensures |loc| == |angles|
    ensures forall i :: 0 <= i < |angles| ==>
              loc[i] == -(sys.fT / sys.fOb) * (initH + initZ * angles[i])
  {
    seq(|angles|, i requires 0 <= i < |angles| => PropagateToSensor(sys, initH, angles[i], initZ).height)
  }

  /**
    Traces every ray of the bundle in a single carry-forward pass. The result
    agrees with the stage-by-stage functions, each of which restarts from the source.
   */
  method TraceBundle(sys: Relay, initH: real, angles: seq<real>, initZ: real) returns (paths: seq<RayPath>)
    requires sys.Valid()
    ensures |paths| == |angles|
    ensures forall i :: 0 <= i < |angles| ==>
              && paths[i].angle == angles[i]
              && paths[i].objective == Origin(sys, initH, angles[i], initZ).height
              && paths[i].tube == PropagateToTube(sys, initH, angles[i], initZ).height
              && paths[i].sensor == PropagateToSensor(sys, initH, angles[i], initZ).height
    ensures forall i :: 0 <= i < |angles| ==> paths[i].sensor == SensorLocations(sys, initH, angles, initZ)[i]
  {
    paths := [];
    for i := 0 to |angles|
      invariant |paths| == i
      invariant forall j :: 0 <= j < i ==>
                  && paths[j].angle == angles[j]
                  && paths[j].objective == Origin(sys, initH, angles[j], initZ).height
                  && paths[j].tube == PropagateToTube(sys, initH, angles[j], initZ).height
                  && paths[j].sensor == PropagateToSensor(sys, initH, angles[j], initZ).height
    {
      var t := Trace(sys, initH, angles[i], initZ);
      paths := paths + [RayPath(angles[i], t.objective.height, t.tube.height, t.sensor.height)];
    }
  }

  /** With a source in the front focal plane every ray lands at the image point -(fT / fOb) initH. */
  lemma InFocusSpotIsAPoint(sys: Relay, initH: real, angles: seq<real>)
    requires sys.Valid()
    ensures forall i :: 0 <= i < |angles| ==>
              SensorLocations(sys, initH, angles, 0.0)[i] == -(sys.fT / sys.fOb) * initH
  {
  }

  /**
    An on-axis source launched over mirrored angles lands in a spot that is
    mirrored about the axis, whatever its defocus initZ.
   */
  lemma OnAxisSpotSymmetric(sys: Relay, angles: seq<real>, initZ: real)
    requires sys.Valid()
    requires forall i :: 0 <= i < |angles| ==> angles[i] == -angles[|angles| - 1 - i]
    ensures var loc := SensorLocations(sys, 0.0, angles, initZ);
            forall i :: 0 <= i < |loc| ==> loc[i] == -loc[|loc| - 1 - i]
  {
    var loc := SensorLocations(sys, 0.0, angles, initZ);
    var m := -(sys.fT / sys.fOb);
    forall i | 0 <= i < |loc|
      ensures loc[i] == -loc[|loc| - 1 - i]
    {
      var j := |loc| - 1 - i;
      assert angles[j] == -angles[i] by {
        assert angles[j] == -angles[|angles| - 1 - j];
      }
      assert loc[j] == m * (0.0 + initZ * angles[j]);
      assert m * (0.0 + initZ * -angles[i]) == -(m * (0.0 + initZ * angles[i]));
    }
  }

  /** The source's own bundle: an on-axis source gives a mirrored spot for every ray density of at least 2. */
  lemma SampledBundleSpotSymmetric(sys: Relay, theta: real, rayDensity: int, initZ: real)
    requires sys.Valid() && rayDensity >= 2
    ensures Linspace(-theta, theta, rayDensity).Ok?
    ensures var loc := SensorLocations(sys, 0.0, Linspace(-theta, theta, rayDensity).value, initZ);
            forall i :: 0 <= i < |loc| ==> loc[i] == -loc[|loc| - 1 - i]
  {
    LinspaceSymmetric(theta, rayDensity);
    OnAxisSpotSymmetric(sys, Linspace(-theta, theta, rayDensity).value, initZ);
  }

  /** The central zoom holds ceil(2 numPixels / 25) edges, whatever the pixel pitch. */
  lemma PixelBinCount(pixel: real, numPixels: nat)
    requires pixel > 0.0
    ensures PixelBins(pixel, numPixels).Ok?
    ensures |PixelBins(pixel, numPixels).value| == if numPixels == 0 then 0 else Ceil(2.0 * numPixels as real / 25.0)
  {
    var s := SensorSize(pixel, numPixels);
    var w := 2.0 * numPixels as real / 25.0;
    assert (s / 25.0 - -s / 25.0) / pixel == w by {
      assert s / 25.0 - -s / 25.0 == pixel * w;
    }
  }

  /** For at least 25 pixels the bin edges increase, number at least two, and straddle the axis. */
  lemma {:induction false} PixelBinsStraddleAxis(pixel: real, numPixels: nat)
    requires pixel > 0.0 && numPixels >= 25
    ensures PixelBins(pixel, numPixels).Ok?
    ensures var e := PixelBins(pixel, numPixels).value;
            && |e| >= 2 && Monotone(e) && e[0] <= 0.0 <= e[|e| - 1]
  {
    var s := SensorSize(pixel, numPixels);
    var lo, hi := -s / 25.0, s / 25.0;
    var e := PixelBins(pixel, numPixels).value;
    ArangeIncreasing(lo, hi, pixel);
    assert hi >= pixel by {
      assert s == pixel * numPixels as real;
      assert pixel * numPixels as real >= pixel * 25.0;
    }
    assert GridPoint(lo, pixel, 1) < hi;
    var n := |e|;
    assert GridPoint(lo, pixel, n) >= hi;
    assert e[n - 1] == GridPoint(lo, pixel, n) - pixel;
  }

  /**
    A bundle whose spot lies between the outer edges is counted in full: the
    bin counts add up to the number of rays.
   */
  lemma {:induction false} SpotInsideBinsFullyCounted(loc: seq<real>, edges: seq<real>)
    requires |edges| >= 2 && Monotone(edges)
    requires forall i :: 0 <= i < |loc| ==> edges[0] <= loc[i] <= edges[|edges| - 1]
    ensures Histogram(loc, edges).Ok? && Sum(Histogram(loc, edges).value) == |loc|
  {
    NoneOutside(loc, edges[0], edges[|edges| - 1]);
    HistogramConservation(loc, edges);
  }

  /**
    Every ray of an on-axis, in-focus source is counted: with at least 25
    pixels the whole bundle lands on the axis, inside the binned zoom, so the
    bin counts add up to the number of rays.
   */
  lemma {:induction false} OnAxisInFocusBundleFullyBinned(sys: Relay, theta: real, rayDensity: nat, pixel: real, numPixels: nat)
    requires sys.Valid() && pixel > 0.0 && numPixels >= 25
    ensures Linspace(-theta, theta, rayDensity).Ok? && PixelBins(pixel, numPixels).Ok?
    ensures var loc := SensorLocations(sys, 0.0, Linspace(-theta, theta, rayDensity).value, 0.0);
            var h := Histogram(loc, PixelBins(pixel, numPixels).value);
            h.Ok? && Sum(h.value) == rayDensity
  {
    var loc := SensorLocations(sys, 0.0, Linspace(-theta, theta, rayDensity).value, 0.0);
    PixelBinsStraddleAxis(pixel, numPixels);
    SpotInsideBinsFullyCounted(loc, PixelBins(pixel, numPixels).value);
  }

  /**
    The reference run (fOb = 7.2 mm, fT = 180 mm, 2048 pixels of 6.5 um, 1000
    rays, source on axis and in focus) bins all 1000 rays into 163 pixel bins.
   */
  lemma ReferenceRunBinsEveryRay(theta: real)
    ensures Linspace(-theta, theta, ReferenceRayDensity).Ok?
    ensures PixelBins(ReferencePixel, ReferenceNumPixels).Ok?
    ensures var loc := SensorLocations(ReferenceRelay, 0.0, Linspace(-theta, theta, ReferenceRayDensity).value, 0.0);
            var h := Histogram(loc, PixelBins(ReferencePixel, ReferenceNumPixels).value);
            h.Ok? && |h.value| == 163 && Sum(h.value) == ReferenceRayDensity
  {
    PixelBinCount(ReferencePixel, ReferenceNumPixels);
    assert Ceil(2.0 * 2048.0 / 25.0) == 164;
    OnAxisInFocusBundleFullyBinned(ReferenceRelay, theta, ReferenceRayDensity, ReferencePixel, ReferenceNumPixels);
  }
}
