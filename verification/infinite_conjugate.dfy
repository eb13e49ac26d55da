/**
  The infinite-conjugate relay: an objective of focal length fOb and a tube lens
  of focal length fT, with a point source near the objective's front focal plane.

  A ray leaves the source at height initH and angle initTheta, the source being
  initZ beyond the front focal plane. It crosses fOb + initZ of free space to the
  objective, is refracted there, crosses fT + fOb to the tube lens, is refracted
  again, and crosses fT to the sensor. Distances are in metres; the axial plane
  positions used for drawing are in millimetres.
 */
module InfiniteConjugate {
  import opened RayOptics
  import opened Results

  /** Focal lengths of the objective and of the tube lens. */
  datatype Relay = Relay(fOb: real, fT: real) {
    /** Both lenses have finite power matrices. */
    predicate Valid() {
      fOb != 0.0 && fT != 0.0
    }
  }

  /** The ray state at each stage boundary of one traced ray. */
  datatype StageRays = StageRays(objective: Ray, tube: Ray, sensor: Ray)

  /**
    The relay for the given focal lengths, numerical aperture and medium index,
    provided every derived quantity is defined: both lenses have a finite
    matrix, and both arcsin arguments (NA / n for the objective's half-angle,
    fOb / fT for the tube's) lie in [-1, 1].
   */
  function Validate(fOb: real, fT: real, na: real, n: real): (r: Result<Relay>)
    ensures r.Ok? ==> r.value == Relay(fOb, fT) && r.value.Valid()
    ensures r.Ok? ==> n != 0.0 && -1.0 <= na / n <= 1.0 && -1.0 <= fOb / fT <= 1.0
    ensures r.Err? ==> ((fOb == 0.0 || fT == 0.0) <==> r.error == ZeroFocalLength)
    ensures r.Err? <==> fOb == 0.0 || fT == 0.0 || n == 0.0
                        || !(-1.0 <= na / n <= 1.0) || !(-1.0 <= fOb / fT <= 1.0)
  {
    if fOb == 0.0 || fT == 0.0 then Err(ZeroFocalLength)
    else if n == 0.0 then Err(ZeroIndex)
    else if !(-1.0 <= na / n <= 1.0) || !(-1.0 <= fOb / fT <= 1.0) then Err(ApertureOutOfDomain)
    else Ok(Relay(fOb, fT))
  }

  // ----- the reference configuration -----

  const ReferenceRelay := Relay(0.0072, 0.18)
  const ReferenceNA := 1.0
  const ReferenceIndex := 1.333
  const ReferencePixel := 0.0000065
  const ReferenceNumPixels: nat := 2048
  const ReferenceRayDensity: nat := 1000

  /** The reference relay passes validation; an aperture of 1.2 in air does not. */
  lemma ReferenceValidation()
    ensures Validate(ReferenceRelay.fOb, ReferenceRelay.fT, ReferenceNA, ReferenceIndex) == Ok(ReferenceRelay)
    ensures Validate(ReferenceRelay.fOb, ReferenceRelay.fT, 1.2, 1.0) == Err(ApertureOutOfDomain)
  {
  }

  // ----- derived constants -----

  /** Physical width of the sensor. */
  function SensorSize(pixel: real, numPixels: nat): real {
    pixel * numPixels as real
  }

  /** Axial position of the tube lens, in millimetres from the nominal source plane. */
  function DistTube(sys: Relay): real {
    (sys.fOb + (sys.fOb + sys.fT)) * 1000.0
  }

  /** Axial position of the sensor, in millimetres from the nominal source plane. */
  function DistSensor(sys: Relay): real {
    (sys.fOb + (sys.fOb + sys.fT) + sys.fT) * 1000.0
  }

  // ----- the three propagation stages -----

  /** Source plane to objective: free space of length fOb + initZ. */
  function ObjectiveOptics(sys: Relay, initZ: real): Mat2 {
    FreeSpace(sys.fOb + initZ)
  }

  /** Objective to tube lens: refraction by the objective, then free space fT + fOb. */
  function TubeOptics(sys: Relay): Mat2
    requires sys.Valid()
  {
    Compose(FreeSpace(sys.fT + sys.fOb), ThinLens(sys.fOb))
  }

  /** Tube lens to sensor: refraction by the tube lens, then free space fT. */
  function SensorOptics(sys: Relay): Mat2
    requires sys.Valid()
  {
    Compose(FreeSpace(sys.fT), ThinLens(sys.fT))
  }

  /** The ray arriving at the objective. */
  function Origin(sys: Relay, initH: real, initTheta: real, initZ: real): (r: Ray)
    ensures r.angle == initTheta
    ensures r.height == initH + (sys.fOb + initZ) * initTheta
  {
    FreeSpaceApply(sys.fOb + initZ, Ray(initH, initTheta));
    Apply(ObjectiveOptics(sys, initZ), Ray(initH, initTheta))
  }

  /**
    The ray arriving at the tube lens. Its angle depends on the source only
    through initH + initZ * initTheta: a source in the front focal plane sends a
    collimated beam through the infinity space.
   */
  function PropagateToTube(sys: Relay, initH: real, initTheta: real, initZ: real): (r: Ray)
    requires sys.Valid()
    ensures r.angle == -(initH + initZ * initTheta) / sys.fOb
    ensures r.height == sys.fOb * initTheta - (sys.fT / sys.fOb) * (initH + initZ * initTheta)
  {
    TubeClosedForm(sys, initH, initTheta, initZ);
    Apply(TubeOptics(sys), Origin(sys, initH, initTheta, initZ))
  }

  /**
    The ray arriving at the sensor. The relay images the source with lateral
    magnification -fT / fOb and angular magnification -fOb / fT; a source off the
    focal plane by initZ lands as if displaced by initZ * initTheta.
   */
  function PropagateToSensor(sys: Relay, initH: real, initTheta: real, initZ: real): (r: Ray)
    requires sys.Valid()
    ensures r.height == -(sys.fT / sys.fOb) * (initH + initZ * initTheta)
    ensures r.angle == -(sys.fOb / sys.fT) * initTheta
  {
    SensorClosedForm(sys, initH, initTheta, initZ);
    Apply(SensorOptics(sys), PropagateToTube(sys, initH, initTheta, initZ))
  }

  // ----- closed forms of the stages -----

  /** Objective refraction followed by the infinity space, on an arbitrary ray. */
  lemma TubeStep(sys: Relay, h: real, a: real)
    requires sys.Valid()
    ensures Apply(TubeOptics(sys), Ray(h, a))
         == Ray(h + (sys.fT + sys.fOb) * (a - h / sys.fOb), a - h / sys.fOb)
  {
    calc {
      Apply(TubeOptics(sys), Ray(h, a));
      { ComposeApply(FreeSpace(sys.fT + sys.fOb), ThinLens(sys.fOb), Ray(h, a)); }
      Apply(FreeSpace(sys.fT + sys.fOb), Apply(ThinLens(sys.fOb), Ray(h, a)));
      { ThinLensApply(sys.fOb, Ray(h, a)); }
      Apply(FreeSpace(sys.fT + sys.fOb), Ray(h, a - h / sys.fOb));
      { FreeSpaceApply(sys.fT + sys.fOb, Ray(h, a - h / sys.fOb)); }
      Ray(h + (sys.fT + sys.fOb) * (a - h / sys.fOb), a - h / sys.fOb);
    }
  }

  /** Tube refraction followed by the last fT of free space, on an arbitrary ray. */
  lemma SensorStep(sys: Relay, h: real, a: real)
    requires sys.Valid()
    ensures Apply(SensorOptics(sys), Ray(h, a)) == Ray(h + sys.fT * (a - h / sys.fT), a - h / sys.fT)
  {
    calc {
      Apply(SensorOptics(sys), Ray(h, a));
      { ComposeApply(FreeSpace(sys.fT), ThinLens(sys.fT), Ray(h, a)); }
      Apply(FreeSpace(sys.fT), Apply(ThinLens(sys.fT), Ray(h, a)));
      { ThinLensApply(sys.fT, Ray(h, a)); }
      Apply(FreeSpace(sys.fT), Ray(h, a - h / sys.fT));
      { FreeSpaceApply(sys.fT, Ray(h, a - h / sys.fT)); }
      Ray(h + sys.fT * (a - h / sys.fT), a - h / sys.fT);
    }
  }

  /** The objective stage in scalars, for the ray (h1, a1) that reaches the objective. */
  lemma TubeAlgebra(h1: real, a1: real, h: real, z: real, th: real, k: real, f: real)
    requires k != 0.0
    requires h1 == h + (k + z) * th && a1 == th
    ensures a1 - h1 / k == -(h + z * th) / k
    ensures h1 + (f + k) * (a1 - h1 / k) == k * th - (f / k) * (h + z * th)
  {
    var u := h + z * th;
    var q := u / k;
    assert k * q == u;
    assert h1 == k * (q + th);
    assert h1 / k == q + th;
    assert (f / k) * u == f * q;
  }

  /** The tube stage in scalars, for the ray (h3, a3) that reaches the tube lens. */
  lemma SensorAlgebra(h3: real, a3: real, u: real, th: real, k: real, f: real)
    requires k != 0.0 && f != 0.0
    requires a3 == -u / k && h3 == k * th - (f / k) * u
    ensures a3 - h3 / f == -(k / f) * th
    ensures h3 + f * (a3 - h3 / f) == -(f / k) * u
  {
    var q := u / k;
    assert a3 == -q;
    assert h3 == k * th - f * q;
    assert h3 / f == (k / f) * th - q;
    assert f * (h3 / f) == h3;
  }

  lemma TubeClosedForm(sys: Relay, initH: real, initTheta: real, initZ: real)
    requires sys.Valid()
    ensures var r := Apply(TubeOptics(sys), Origin(sys, initH, initTheta, initZ));
      && r.angle == -(initH + initZ * initTheta) / sys.fOb
      && r.height == sys.fOb * initTheta - (sys.fT / sys.fOb) * (initH + initZ * initTheta)
  {
    var o := Origin(sys, initH, initTheta, initZ);
    TubeStep(sys, o.height, o.angle);
    TubeAlgebra(o.height, o.angle, initH, initZ, initTheta, sys.fOb, sys.fT);
  }

  lemma SensorClosedForm(sys: Relay, initH: real, initTheta: real, initZ: real)
    requires sys.Valid()
    ensures var r := Apply(SensorOptics(sys), PropagateToTube(sys, initH, initTheta, initZ));
      && r.height == -(sys.fT / sys.fOb) * (initH + initZ * initTheta)
      && r.angle == -(sys.fOb / sys.fT) * initTheta
  {
    var t := PropagateToTube(sys, initH, initTheta, initZ);
    SensorStep(sys, t.height, t.angle);
    SensorAlgebra(t.height, t.angle, initH + initZ * initTheta, initTheta, sys.fOb, sys.fT);
  }

  // ----- single pass -----

  /**
    One pass through the relay that carries each stage's ray into the next,
    one element at a time, instead of recomputing the earlier stages.
   */
  function Trace(sys: Relay, initH: real, initTheta: real, initZ: real): (t: StageRays)
    requires sys.Valid()
    ensures t.objective == Origin(sys, initH, initTheta, initZ)
    ensures t.tube == PropagateToTube(sys, initH, initTheta, initZ)
    ensures t.sensor == PropagateToSensor(sys, initH, initTheta, initZ)
  {
    var atObjective := Apply(FreeSpace(sys.fOb + initZ), Ray(initH, initTheta));
    var atTube := Apply(FreeSpace(sys.fT + sys.fOb), Apply(ThinLens(sys.fOb), atObjective));
    var atSensor := Apply(FreeSpace(sys.fT), Apply(ThinLens(sys.fT), atTube));
    ComposeApply(FreeSpace(sys.fT + sys.fOb), ThinLens(sys.fOb), atObjective);
    ComposeApply(FreeSpace(sys.fT), ThinLens(sys.fT), atTube);
    StageRays(atObjective, atTube, atSensor)
  }

  // ----- properties of the relay -----

  /** A ray on the axis and along it stays so at every stage. */
  lemma OnAxisStaysOnAxis(sys: Relay, initZ: real)
    requires sys.Valid()
    ensures Origin(sys, 0.0, 0.0, initZ) == Ray(0.0, 0.0)
    ensures PropagateToTube(sys, 0.0, 0.0, initZ) == Ray(0.0, 0.0)
    ensures PropagateToSensor(sys, 0.0, 0.0, initZ) == Ray(0.0, 0.0)
  {
  }

  /**
    For a fixed source plane every stage is linear in the launch state
    (initH, initTheta): the stage of k * (h1, t1) + (h2, t2) is k times the
    stage of (h1, t1) plus the stage of (h2, t2).
   */
  lemma StagesLinear(sys: Relay, initZ: real, k: real, h1: real, t1: real, h2: real, t2: real)
    requires sys.Valid()
    ensures Origin(sys, k * h1 + h2, k * t1 + t2, initZ)
         == Add(Scale(k, Origin(sys, h1, t1, initZ)), Origin(sys, h2, t2, initZ))
    ensures PropagateToTube(sys, k * h1 + h2, k * t1 + t2, initZ)
         == Add(Scale(k, PropagateToTube(sys, h1, t1, initZ)), PropagateToTube(sys, h2, t2, initZ))
    ensures PropagateToSensor(sys, k * h1 + h2, k * t1 + t2, initZ)
         == Add(Scale(k, PropagateToSensor(sys, h1, t1, initZ)), PropagateToSensor(sys, h2, t2, initZ))
  {
    var launch := Ray(k * h1 + h2, k * t1 + t2);
    assert launch == Add(Scale(k, Ray(h1, t1)), Ray(h2, t2));
    var o1, o2 := Origin(sys, h1, t1, initZ), Origin(sys, h2, t2, initZ);
    ApplyLinear(ObjectiveOptics(sys, initZ), k, Ray(h1, t1), Ray(h2, t2));
    var t1', t2' := PropagateToTube(sys, h1, t1, initZ), PropagateToTube(sys, h2, t2, initZ);
    ApplyLinear(TubeOptics(sys), k, o1, o2);
    ApplyLinear(SensorOptics(sys), k, t1', t2');
  }

  /** Mirroring the launch state through the axis mirrors every stage's ray. */
  lemma StagesOdd(sys: Relay, initH: real, initTheta: real, initZ: real)
    requires sys.Valid()
    ensures Origin(sys, -initH, -initTheta, initZ) == Scale(-1.0, Origin(sys, initH, initTheta, initZ))
    ensures PropagateToTube(sys, -initH, -initTheta, initZ)
         == Scale(-1.0, PropagateToTube(sys, initH, initTheta, initZ))
    ensures PropagateToSensor(sys, -initH, -initTheta, initZ)
         == Scale(-1.0, PropagateToSensor(sys, initH, initTheta, initZ))
  {
    StagesLinear(sys, initZ, -1.0, initH, initTheta, 0.0, 0.0);
    OnAxisStaysOnAxis(sys, initZ);
  }

  /** The whole relay, source plane to sensor, as one transfer matrix. */
  function RelayMatrix(sys: Relay, initZ: real): Mat2
    requires sys.Valid()
  {
    Compose(SensorOptics(sys), Compose(TubeOptics(sys), ObjectiveOptics(sys, initZ)))
  }

  /** The relay matrix sends every launch state to the sensor ray of the staged propagation. */
  lemma RelayMatrixApply(sys: Relay, initH: real, initTheta: real, initZ: real)
    requires sys.Valid()
    ensures Apply(RelayMatrix(sys, initZ), Ray(initH, initTheta))
         == PropagateToSensor(sys, initH, initTheta, initZ)
  {
    var launch := Ray(initH, initTheta);
    ComposeApply(SensorOptics(sys), Compose(TubeOptics(sys), ObjectiveOptics(sys, initZ)), launch);
    ComposeApply(TubeOptics(sys), ObjectiveOptics(sys, initZ), launch);
  }

  /**
    The relay matrix is [[-fT/fOb, -(fT/fOb) initZ], [0, -fOb/fT]]: an imaging
    system whose B entry vanishes exactly when the source sits in the front focal plane.
   */
  lemma RelayMatrixClosedForm(sys: Relay, initZ: real)
    requires sys.Valid()
    ensures RelayMatrix(sys, initZ)
         == Mat2(-(sys.fT / sys.fOb), -(sys.fT / sys.fOb) * initZ, 0.0, -(sys.fOb / sys.fT))
    ensures RelayMatrix(sys, initZ).b == 0.0 <==> initZ == 0.0
    ensures Det(RelayMatrix(sys, initZ)) == 1.0
  {
    var m := Mat2(-(sys.fT / sys.fOb), -(sys.fT / sys.fOb) * initZ, 0.0, -(sys.fOb / sys.fT));
    RelayMatrixApply(sys, 1.0, 0.0, initZ);
    RelayMatrixApply(sys, 0.0, 1.0, initZ);
    ActionDeterminesMatrix(RelayMatrix(sys, initZ), m);
    assert (sys.fT / sys.fOb) * (sys.fOb / sys.fT) == 1.0;
  }

  /** The source-to-objective gap splits into the focal length and the defocus. */
  lemma ObjectiveGapSplits(sys: Relay, initZ: real)
    ensures ObjectiveOptics(sys, initZ) == Compose(FreeSpace(sys.fOb), FreeSpace(initZ))
  {
    FreeSpaceAdditive(sys.fOb, initZ);
  }

  /**
    The drawn axial positions agree with the propagation stages: with the lenses
    taken out, the free-space lengths of an in-focus trace add up to the tube and
    sensor positions (converted back from millimetres).
   */
  lemma AxialPositionsMatchStages(sys: Relay)
    ensures Compose(FreeSpace(sys.fT + sys.fOb), FreeSpace(sys.fOb)) == FreeSpace(DistTube(sys) / 1000.0)
    ensures Compose(FreeSpace(sys.fT), Compose(FreeSpace(sys.fT + sys.fOb), FreeSpace(sys.fOb)))
         == FreeSpace(DistSensor(sys) / 1000.0)
    ensures DistSensor(sys) == DistTube(sys) + sys.fT * 1000.0
  {
    FreeSpaceAdditive(sys.fT + sys.fOb, sys.fOb);
    FreeSpaceAdditive(sys.fT, sys.fT + sys.fOb + sys.fOb);
  }
}
