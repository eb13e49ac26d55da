# Infinite-conjugate relay: paraxial ray transfer model

This project models the ray-tracing core of `infiniteConjugate.py`, an
infinite-conjugate imaging relay. A point source sits near the front focal
plane of an objective of focal length fOb. The objective collimates its light
into "infinity space", and a tube lens of focal length fT focuses it onto a
pixelated sensor. Rays are paraxial (height, angle) vectors. Optical elements
are 2×2 ray-transfer (ABCD) matrices: free space of length d is [[1, d], [0, 1]],
and a thin lens of focal length f is [[1, 0], [−1/f, 1]].

The model proves these properties:

- **Matrix algebra** (`RayOptics`): how each operator acts on a ray, the
  composition law, associativity, linearity, additivity of free space, and unit
  determinants.
- **The three stages** (`InfiniteConjugate`): `origin`, `propagate_to_tube` and
  `propagate_to_sensor`, each with its closed form. For any defocus z the sensor height is
  −(fT/fOb)(h + zθ) and the sensor angle is −(fOb/fT)θ; in focus (z = 0) the
  height is −(fT/fOb)h, a magnification of −fT/fOb. Other results:
  - a single carry-forward pass agrees with the stages that restart from the source;
  - an on-axis ray stays on the axis;
  - the stages are linear and odd;
  - the whole relay is one matrix, and it images (B = 0) exactly when z = 0;
  - the derived constants are consistent.
- **Sampling** (`Sampling`): the array library's `linspace` and `arange` over
  exact reals. Proved: endpoints, even spacing, mirror symmetry, and exact
  membership of the `arange` grid.
- **Binning** (`Binning`): `histogram` with explicit edges, computed the way the
  library computes it (cumulative counts, then differences). It is proved equal
  to per-bin membership: bins are half-open and the last one is closed. Also
  proved: conservation, meaning the counts plus the values outside the edges
  equal the number of values.
- **The ray bundle** (`RayBundle`): the launch angles, the pixel bins of the
  central 2/25 of the sensor, and the sensor locations of the whole bundle.
  Proved: the spot is symmetric for an on-axis source. With at least 25 pixels (and a
  positive pitch), an on-axis, in-focus source has every ray counted. In the reference configuration, all 1000 rays land in
  the 163 bins.

## Model

| member | source | states |
|---|---|---|
| RayOptics.FreeSpace | infiniteConjugate.py:66 | propagation through free space has unit determinant (it preserves étendue) |
| RayOptics.ThinLens | infiniteConjugate.py:71 | a thin lens of nonzero focal length has unit determinant |
| RayOptics.Apply | infiniteConjugate.py:67 | definition of the matrix-ray product; its meaning is given by `RayOptics.ApplyLinear` and `RayOptics.ActionDeterminesMatrix` |
| RayOptics.Compose | infiniteConjugate.py:71-74 | definition of the matrix product; its meaning is given by `RayOptics.ComposeApply` and `RayOptics.ComposeAssociative` |
| RayOptics.FreeSpaceApply | infiniteConjugate.py:66-67 | free space keeps the angle and moves the height by d times the angle |
| RayOptics.ThinLensApply | infiniteConjugate.py:71 | a thin lens keeps the height and bends the angle by −height/f |
| RayOptics.ComposeApply | infiniteConjugate.py:71 | a product of matrices applied to a ray equals applying the right factor first, then the left |
| RayOptics.ComposeAssociative | infiniteConjugate.py:71-74 | grouping does not matter when the stages' matrices are chained |
| RayOptics.FreeSpaceZeroIsIdentity | infiniteConjugate.py:66 | a zero-length gap is the identity |
| RayOptics.FreeSpaceAdditive | infiniteConjugate.py:66 | two consecutive gaps are one gap of the summed length |
| RayOptics.ActionDeterminesMatrix | infiniteConjugate.py:67 | two matrices that act alike on the two basis rays are equal |
| RayOptics.ApplyLinear | infiniteConjugate.py:67 | applying a matrix to a ray is linear in the ray |
| InfiniteConjugate.Validate | infiniteConjugate.py:38-47 | a relay is accepted exactly when both focal lengths are nonzero, n is nonzero, and both arcsin arguments NA/n and fOb/fT lie in [−1, 1]; a zero focal length is reported as such |
| InfiniteConjugate.ReferenceValidation | infiniteConjugate.py:38-41 | the reference relay (fOb = 7.2 mm, fT = 180 mm, NA = 1, n = 1.333) is accepted; NA = 1.2 in air is refused as out of domain |
| InfiniteConjugate.SensorSize | infiniteConjugate.py:52 | definition of the sensor width; its meaning is given by `RayBundle.PixelBinCount` |
| InfiniteConjugate.DistTube | infiniteConjugate.py:61 | definition of the tube lens position; its meaning is given by `InfiniteConjugate.AxialPositionsMatchStages` |
| InfiniteConjugate.DistSensor | infiniteConjugate.py:62 | definition of the sensor position; its meaning is given by `InfiniteConjugate.AxialPositionsMatchStages` |
| InfiniteConjugate.ObjectiveOptics | infiniteConjugate.py:66 | definition of the first stage's matrix; its meaning is given by `InfiniteConjugate.Origin` and `InfiniteConjugate.ObjectiveGapSplits` |
| InfiniteConjugate.TubeOptics | infiniteConjugate.py:71 | definition of the second stage's matrix; its meaning is given by `InfiniteConjugate.TubeStep` |
| InfiniteConjugate.SensorOptics | infiniteConjugate.py:74 | definition of the third stage's matrix; its meaning is given by `InfiniteConjugate.SensorStep` |
| InfiniteConjugate.Origin | infiniteConjugate.py:64-68 | the ray reaching the objective keeps its launch angle and has height h + (fOb + z)θ |
| InfiniteConjugate.PropagateToTube | infiniteConjugate.py:70-71 | at the tube lens the ray's angle is −(h + zθ)/fOb, so an in-focus source gives a collimated bundle, and its height is fOb·θ − (fT/fOb)(h + zθ) |
| InfiniteConjugate.PropagateToSensor | infiniteConjugate.py:73-74 | at the sensor the height is −(fT/fOb)(h + zθ), a magnification of −fT/fOb, and the angle is −(fOb/fT)θ |
| InfiniteConjugate.TubeStep | infiniteConjugate.py:71 | the second stage's matrix product bends any ray (h, a) by −h/fOb at the objective, then carries it fT + fOb |
| InfiniteConjugate.SensorStep | infiniteConjugate.py:74 | the third stage's matrix product bends any ray (h, a) by −h/fT at the tube lens, then carries it fT to the sensor |
| InfiniteConjugate.TubeClosedForm | infiniteConjugate.py:70-71 | the matrix product of the second stage, applied to the origin ray, gives the closed form at the tube lens |
| InfiniteConjugate.SensorClosedForm | infiniteConjugate.py:73-74 | the matrix product of the third stage, applied to the tube ray, gives the closed form at the sensor |
| InfiniteConjugate.Trace | infiniteConjugate.py:64-74 | one pass that carries each ray forward agrees with all three stage functions, which each restart from the source |
| InfiniteConjugate.OnAxisStaysOnAxis | infiniteConjugate.py:64-74 | a ray launched on the axis along the axis stays there at every stage, for any defocus |
| InfiniteConjugate.StagesLinear | infiniteConjugate.py:64-74 | every stage is linear in the launch state (height, angle) |
| InfiniteConjugate.StagesOdd | infiniteConjugate.py:64-74 | mirroring the launch state through the axis mirrors the ray at every stage |
| InfiniteConjugate.RelayMatrix | infiniteConjugate.py:64-74 | definition of the whole relay as one matrix; its meaning is given by `InfiniteConjugate.RelayMatrixApply` and `InfiniteConjugate.RelayMatrixClosedForm` |
| InfiniteConjugate.RelayMatrixApply | infiniteConjugate.py:73-74 | the product of the three stage matrices maps every launch state to the sensor ray of the staged propagation |
| InfiniteConjugate.RelayMatrixClosedForm | infiniteConjugate.py:64-74 | the whole relay is [[−fT/fOb, −(fT/fOb)z], [0, −fOb/fT]]; it images (B = 0) exactly when z = 0; its determinant is 1 |
| InfiniteConjugate.ObjectiveGapSplits | infiniteConjugate.py:66 | the first gap is the focal length followed by the defocus |
| InfiniteConjugate.AxialPositionsMatchStages | infiniteConjugate.py:61-62 | the drawn tube and sensor positions, in millimetres, are the summed free-space lengths of the stages, and the sensor lies fT beyond the tube lens |
| Sampling.Linspace | infiniteConjugate.py:55 | a negative count is refused; otherwise there are exactly num samples, the first is start, the last is stop when num ≥ 2, and consecutive samples are (stop − start)/(num − 1) apart |
| Sampling.LastSampleIsStop | infiniteConjugate.py:55 | writing stop exactly as the last sample agrees with the even spacing |
| Sampling.LinspaceSymmetric | infiniteConjugate.py:55 | the launch angles over [−θ, θ] come in mirrored pairs when there are at least two |
| Sampling.LinspaceIncreasing | infiniteConjugate.py:55 | for θ > 0 the launch angles strictly increase |
| Sampling.Arange | infiniteConjugate.py:58 | a zero step is refused; the k-th edge is start + k·step, and k is an index exactly when start + k·step lies before stop in the step's direction |
| Sampling.ArangeIncreasing | infiniteConjugate.py:58 | with a positive pixel pitch the bin edges strictly increase |
| Sampling.ArangeMembership | infiniteConjugate.py:58 | the edge count ceil((stop − start)/step) admits exactly the grid points before stop |
| Binning.Cumulative | infiniteConjugate.py:215 | definition of the cumulative counts (values below each edge, at most the last edge) from which the counts are differenced; its meaning is given by `Binning.Histogram` |
| Binning.Histogram | infiniteConjugate.py:215 | decreasing edges are refused; otherwise there is one count per adjacent pair of edges, none when there are fewer than two edges, and each count is the number of values in that bin (half-open, last bin closed) |
| Binning.HistogramConservation | infiniteConjugate.py:215 | the bin counts plus the values outside [first edge, last edge] add up to the number of values; the counts never exceed it |
| Binning.NoneOutside | infiniteConjugate.py:215 | values that all lie between the outer edges leave none outside |
| Binning.BinsDisjoint | infiniteConjugate.py:215 | no value belongs to two bins |
| Binning.BinIndex | infiniteConjugate.py:215 | a value lies between the outer edges exactly when it has a bin, and then it is in that bin |
| RayBundle.PixelBins | infiniteConjugate.py:58 | definition of the pixel bin edges; its meaning is given by `RayBundle.PixelBinCount` and `RayBundle.PixelBinsStraddleAxis` |
| RayBundle.SensorLocations | infiniteConjugate.py:213 | one sensor height per launch angle, each −(fT/fOb)(h + z·angle) for the given defocus z |
| RayBundle.TraceBundle | infiniteConjugate.py:187-190 | tracing the bundle in one pass records, for every ray, its angle and its heights at the objective, tube lens and sensor as the stage functions give them |
| RayBundle.InFocusSpotIsAPoint | infiniteConjugate.py:213 | with z = 0 every ray of the bundle lands on the same point, −(fT/fOb)h |
| RayBundle.OnAxisSpotSymmetric | infiniteConjugate.py:213 | mirrored launch angles from an on-axis source give a spot mirrored about the axis, for any defocus |
| RayBundle.SampledBundleSpotSymmetric | infiniteConjugate.py:55 | the sampled bundle from an on-axis source gives a mirrored spot whenever there are at least two rays |
| RayBundle.PixelBinCount | infiniteConjugate.py:52-58 | the central zoom holds ceil(2·numPixels/25) edges for any positive pixel pitch |
| RayBundle.PixelBinsStraddleAxis | infiniteConjugate.py:58 | with at least 25 pixels the edges increase, number at least two, and enclose the axis |
| RayBundle.SpotInsideBinsFullyCounted | infiniteConjugate.py:213-215 | when every sensor location lies between the outer edges, the bin counts add up to the number of rays |
| RayBundle.OnAxisInFocusBundleFullyBinned | infiniteConjugate.py:213-215 | for an on-axis, in-focus source and at least 25 pixels, the bin counts add up to the number of rays |
| RayBundle.ReferenceRunBinsEveryRay | infiniteConjugate.py:50-58 | the reference run (2048 pixels of 6.5 µm, 1000 rays) has 163 bins, and together they count all 1000 rays |

## Left out

- Floating point. All quantities are exact reals. NumPy's and SymPy's rounding is not modelled. The `arange` edge count can differ from the exact ceiling when (stop − start)/step is within rounding of an integer.
- The trigonometric constants. `theta = arcsin(NA/n)`, `objRad`, `thetaTube` and `tubeRad` are not computed. The half-angle θ is a parameter of the bundle lemmas. `Validate` checks only that the arguments of arcsin are in range.
- Validation. The source does not validate its parameters, and what happens on bad input depends on the parameter. n = 0 raises ZeroDivisionError at line 42 (`NA/n`), and fT = 0 raises it at line 45 (`fOb/fT`), both before any matrix is built. fOb = 0 reaches SymPy's `ThinLens(0)`, whose C entry is complex infinity (`zoo`). An NA/n or fOb/fT outside [−1, 1] makes `np.arcsin` return NaN with a warning. `Validate`'s `ZeroIndex` error and its `ZeroFocalLength` error for fT stand for exceptions the script already raises. Its other two errors change behaviour. With fOb = 0 the infinite entry turns every tube and sensor height into NaN, even for the on-axis source of lines 34–35. The run still finishes, and `np.histogram` counts none of those rays; `ZeroFocalLength` refuses the relay instead. `ApertureOutOfDomain` likewise replaces the NaN from `np.arcsin`. The stage functions require a valid relay instead of propagating infinities or NaN.
- `color_idx` (line 56). It only colours the plots.
- Plotting, figure layout, the save prompt and directory handling (lines 77–212 and 217–236). These are I/O. This includes the plot calls at lines 187–190; the per-stage heights they draw are modelled by `RayBundle.TraceBundle`. It also includes the histogram plotted at line 220. The histogram at line 215 is modelled by `Binning.Histogram` over the sensor locations of line 213; the script discards its value.
- Symbolic evaluation. SymPy builds symbolic matrices. Here matrices hold reals, so there is no simplification step to model.
- Weighted, density and range options of `histogram`. The source does not use them.

## Findings

None.
