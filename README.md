# fractal-printer core, in Dafny

This project models the computational core of fractal-printer. The program turns a signed distance function into a solid voxel grid and then a printable mesh. The model covers three pieces of it.

- **The adaptive voxelizer `iterate_voxels`** (`voxel_blocks.dfy`, `voxelizer.dfy`).
  - A cubic `int8` grid of side `3^levels` starts at zero.
  - Levels `n = levels-1 … 0` are visited from coarse to fine. At level `n` the block centres `range(span, steps - span, stride)` are visited, where `stride = 3^n` and `span = (stride - 1) // 2`.
  - A centre whose voxel is still zero is evaluated once. When `r = int(floor(|d| / sqrt(3) / resolution) - 0.5)` reaches `span`, the whole `(2·span+1)^3` block is stamped with `sign(d)`.
  - The result is `mask <= cutoff`.
  - The grid is an `array3<int>`. The slice write is a `forall` statement. The level loop `for n in range(levels-1,-1,-1)` is a `for n := levels downto 0` loop in `IterateVoxels`. The i, j and k loops over `points` are `while` loops, one method each (`SweepLevel`, `SweepPlane`, `SweepRow`), and the body of the k loop is `SweepStep`.
  - `IterateVoxels`, every sweep method and `VisitCentre` are proved against the ghost function `Voxelizer.Cell`. `StampBlock`, the slice write, is specified by the old and new contents of the grid. `Cell(s, n, x, y, z)` is the value of voxel `(x, y, z)` once levels `levels-1 … n` have run. The lemmas about `Cell` state what the algorithm promises:
    - a non-zero voxel is never rewritten;
    - a resolved voxel is never evaluated again;
    - coarse stamps are non-zero;
    - for a positive size and at least one level, the finished grid is `±1` except where the distance is exactly zero.
  - `VoxelBlocks` proves the block arithmetic: the blocks of a level lie inside the grid, are disjoint, cover every voxel, and nest across levels.
  - `VoxelSoundness` (`voxel_soundness.dfy`) proves why skipping voxels is safe. Take a distance function that is 1-Lipschitz, so it changes by no more than the distance between two points. Then every voxel of a stamped block has the sign of its own distance. For a positive size and at least one level, the finished grid is then `sign(d)` at every voxel, the same grid that evaluating every voxel would give.
- **The escape-time loop of `quaternion_julia_sdf`** (`fractal_sdfs.dfy`).
  - The batched arrays `z`, `z2`, `zp2`, `mask` and `new_mask` are updated in place under `~mask` for a fixed number of rounds.
  - The method `Distance` is proved to compute, for every point, the per-point orbit `After`. The lemmas state the masking discipline:
    - the mask is monotone and escaped points are frozen;
    - the mask is set exactly when some round crossed the bailout;
    - `z2` tracks the squared norm of `z`;
    - `zp2` stays non-negative;
    - `zp2` is updated from the previous round's `z2`.
- **The quaternion algebra of `sphere` and `torus`** (`quaternions.dfy`, `distance_functions.dfy`).
  - The projection `-(r*axis + axis*r)*axis/2` is exact Hamilton-product algebra.
  - For pure quaternions it is `(r·a)·a`.
  - For a unit axis it is idempotent, orthogonal to its remainder, and satisfies Pythagoras.
  - For a non-negative radius, `sphere(z)` is negative exactly when the squared norm of `z - center` is below `radius^2`.
  - For a non-negative minor radius, `torus(z)` is negative exactly when `d_parallel^2 + (d_perpendicular - major)^2 < minor^2`. For a pure point and centre and a pure unit axis, this sum is the squared distance from the point to the core circle. The circle has radius `major`, lies in the plane through `center` normal to the axis, and is centred on `center`. With a negative radius neither equivalence holds, because the code accepts any radius: `sphere(center)` with radius -1 is 1, not negative.

The functions the code calls but does not define are parameters. These are the distance function, the quaternion power, `np.abs` and `np.sqrt` of a quaternion or a real, and the closing `sqrt(z2/zp2)*0.25*log(z2)` estimate. Lemmas that need `np.abs` or `np.sqrt` assume only that they return the non-negative square root (`IsNorm`, `IsSqrt`). Floats are modelled as mathematical reals. `np.sqrt(3)` is the constant `1.7320508075688772`. This is the shortest decimal that rounds to the float64 result. As an exact real it is slightly below √3.

Three details of the code that the model keeps as written:

- The radius at line 20 of `fractal_printer/__init__.py` is `int(np.floor(x) - 0.5)`, with `x = |d|/√3/resolution`. The subtraction comes after the floor, and Python's `int` truncates toward zero. So for `x >= 0` the radius is `max(floor(x) - 1, 0)`, not `floor(x - 0.5)`. At `x = 1.7` it is 0, where `floor(x - 0.5)` would be 1. See `Voxelizer.Radius` and `Voxelizer.RadiusClosedForm`.
- The closing estimate at line 49 of `fractal_printer/mesh/fractal_sdfs.py` is `np.sqrt(z2/zp2)*0.25*np.log(z2)`. The model keeps it inside the `estimate` parameter.
- `quaternion_julia_sdf` never checks `power`. The model takes any whole power of at least 1; see `Distance` under Left out.

## Model

| member | source | states |
|---|---|---|
| VoxelBlocks.Pow3 | fractal_printer/__init__.py:6 | `3**levels` (and `3**n`) is a positive odd number, so `span` is a whole number |
| VoxelBlocks.Span | fractal_printer/__init__.py:12 | `span = (stride-1)//2` satisfies `2·span + 1 = stride`: a block of side `stride` reaches `span` voxels each side of its centre |
| VoxelBlocks.Centre | fractal_printer/__init__.py:13 | the centre of the level-n block of voxel x is within `span` of x |
| VoxelBlocks.BlockOfIsQuotient | fractal_printer/__init__.py:11-13 | the block index of x at level n is `x // 3^n` |
| VoxelBlocks.ScaleIsProduct | fractal_printer/__init__.py:13 | the k-th element of `range(span, …, stride)` is `k·3^n + span` |
| VoxelBlocks.ScaleStep | fractal_printer/__init__.py:13 | consecutive centres of `points` are one stride apart |
| VoxelBlocks.BlockBounds | fractal_printer/__init__.py:11-13 | voxel x lies in the stride-wide block that starts at `(x // stride)·stride` |
| VoxelBlocks.InBlockIffBlockOf | fractal_printer/__init__.py:13-22 | x lies in the slice `i-span : i+span+1` of the centre i of block a exactly when x's block index is a |
| VoxelBlocks.CentreNests | fractal_printer/__init__.py:10-13 | the centre of a voxel's level-n block lies in the same level-(n+1) block as the voxel: blocks nest across levels |
| VoxelBlocks.CentreUnique | fractal_printer/__init__.py:13-22 | a voxel within `span` of a visited centre belongs to that centre's block |
| VoxelBlocks.BlockBound | fractal_printer/__init__.py:6-11 | the voxels of the grid fall into blocks `0 … 3^(levels-n) - 1` at level n |
| VoxelBlocks.Pow3Split | fractal_printer/__init__.py:6-11 | `steps = stride · 3^(levels-n)`: the stride of every level divides the grid side |
| VoxelBlocks.CentreBound | fractal_printer/__init__.py:13 | the centre of block a is below `steps - span`, i.e. still in `points`, exactly when `a < 3^(levels-n)` |
| VoxelBlocks.CentreOfBlock | fractal_printer/__init__.py:13-22 | each block `0 … 3^(levels-n)-1` has its centre in `points`, and its slice lies inside `[0, steps)` |
| VoxelBlocks.CentreIsVisited | fractal_printer/__init__.py:13-22 | tiling: every voxel of the grid is in the block of exactly one visited centre at every level |
| VoxelBlocks.BlocksDisjoint | fractal_printer/__init__.py:13-22 | the stamped blocks of one level are pairwise disjoint |
| VoxelBlocks.IsCentreIsRangeMember | fractal_printer/__init__.py:13 | the centres used by the model are exactly the members of `range(span, steps-span, stride)` |
| Voxelizer.Resolution | fractal_printer/__init__.py:7 | `resolution · steps = size`; it is non-zero and has the sign of `size` |
| Voxelizer.Sign | fractal_printer/__init__.py:22 | `np.sign(d)` is in {-1, 0, 1}: zero exactly when d is zero, positive exactly when d is positive |
| Voxelizer.Trunc | fractal_printer/__init__.py:20 | Python's `int()` truncates toward zero on both signs |
| Voxelizer.Reach | fractal_printer/__init__.py:20 | `abs(d)/np.sqrt(3)/resolution` is never negative for a positive resolution; what the stamp test makes of it is stated by StampIsConservative and VoxelSoundness.StampInVoxels |
| Voxelizer.Radius | fractal_printer/__init__.py:20 | for a non-negative x, `int(np.floor(x) - 0.5)` is a whole number between 0 and x; RadiusClosedForm gives its exact value and RadiusAtLeastOne when it reaches 1 |
| Voxelizer.RadiusClosedForm | fractal_printer/__init__.py:20 | for a non-negative x, `int(floor(x) - 0.5)` is `max(floor(x) - 1, 0)`: never negative |
| Voxelizer.RadiusAtLeastOne | fractal_printer/__init__.py:20-21 | `r >= 1` needs `x >= 2` |
| Voxelizer.StampIsConservative | fractal_printer/__init__.py:20-22 | at a level with `span >= 1` a block is stamped only when `abs(d) >= (span+1)·√3·resolution`, more than the block's half-diagonal |
| Voxelizer.Cell | fractal_printer/__init__.py:8-22 | every voxel value after any number of levels is one of -1, 0, 1 (it fits the int8 grid) |
| Voxelizer.Evaluates | fractal_printer/__init__.py:17-19 | the distance is evaluated at a visited centre exactly when its voxel is still 0 before the level; EvaluatedBlockIsBlank, ResolvedIsNotEvaluated and VisitCentre state what follows from that |
| Voxelizer.Stamps | fractal_printer/__init__.py:17-22 | a block is stamped exactly when its centre is evaluated and `r >= span`; StampIsConservative, CoarseStampIsNonZero and VoxelSoundness.StampedBlockKeepsSign state what a stamp guarantees |
| Voxelizer.CellConstantOnBlock | fractal_printer/__init__.py:10-22 | after level n the grid is constant on every level-n block |
| Voxelizer.EvaluatedBlockIsBlank | fractal_printer/__init__.py:17-22 | whenever the centre check `mask[i,j,k] == 0` passes, the whole block is still all zero |
| Voxelizer.NeverOverwritten | fractal_printer/__init__.py:17-22 | a voxel that is non-zero before level n keeps its value through level n |
| Voxelizer.ResolvedStaysResolved | fractal_printer/__init__.py:10-22 | a voxel resolved at some level keeps its value through every finer level |
| Voxelizer.ResolvedIsNotEvaluated | fractal_printer/__init__.py:17-19 | the distance is never evaluated again at a centre whose block holds a voxel resolved at a coarser level |
| Voxelizer.CoarseStampIsNonZero | fractal_printer/__init__.py:20-22 | at levels n >= 1 a stamp needs `r >= span >= 1`, which forces `d != 0`, so the stamped value is non-zero |
| Voxelizer.CoarseChangeResolves | fractal_printer/__init__.py:21-22 | a voxel that a coarse level changes becomes non-zero |
| Voxelizer.LevelZeroDecides | fractal_printer/__init__.py:17-22 | with `size > 0` and `levels >= 1`, a finished voxel is 0 exactly when it was 0 before level 0 and its own evaluation returned exactly 0 |
| Voxelizer.FinishedGridIsDecided | fractal_printer/__init__.py:10-22 | with `size > 0` and `levels >= 1`, a finished voxel whose distance is non-zero is -1 or +1 |
| Voxelizer.NegativeResolutionRadius | fractal_printer/__init__.py:20-21 | with a negative resolution, `r >= 0` (so `r >= span`) holds only where `d` is 0 |
| Voxelizer.NegativeSizeStaysBlank | fractal_printer/__init__.py:7-22 | with a negative size no level ever writes a non-zero value: every voxel stays 0 |
| Voxelizer.StampBlock | fractal_printer/__init__.py:22 | the slice write sets every voxel of the box to v and leaves every other voxel unchanged |
| Voxelizer.CellInBlock | fractal_printer/__init__.py:17-22 | inside a visited block, the level-n value is the centre's stamp, or the earlier value when the centre is not stamped |
| Voxelizer.VisitCentre | fractal_printer/__init__.py:17-22 | the body of the k loop evaluates the distance exactly when the centre voxel is 0, brings the centre's block to its level-n values and changes nothing else |
| Voxelizer.SweepStep | fractal_printer/__init__.py:16-22 | one pass of the k loop adds the current block to those holding level-n values |
| Voxelizer.SweepStarts | fractal_printer/__init__.py:10-13 | before the i loop of a level no block has been visited |
| Voxelizer.SweepEnds | fractal_printer/__init__.py:13-16 | once all `3^(levels-n)` blocks per axis are visited, the whole grid holds its level-n values |
| Voxelizer.SweepNextRow | fractal_printer/__init__.py:15-16 | the end of a k loop is the start of the next j iteration |
| Voxelizer.SweepNextPlane | fractal_printer/__init__.py:14-15 | the end of a j loop is the start of the next i iteration |
| Voxelizer.SweepRow | fractal_printer/__init__.py:16-22 | the k loop visits every block of the row (i, j) in order |
| Voxelizer.SweepPlane | fractal_printer/__init__.py:15-22 | the j loop visits every row of the plane i in order |
| Voxelizer.SweepLevel | fractal_printer/__init__.py:11-22 | one level takes the grid from its level-(n+1) values to its level-n values |
| Voxelizer.IterateVoxels | fractal_printer/__init__.py:4-23 | the result has side `3^levels`, and a voxel is true exactly when its final value is `<= cutoff` |
| VoxelSoundness.Lipschitz | fractal_printer/distance_functions.py:1-4 | the assumption that the distance function is a true distance: between two voxels its value, in voxel units, changes by no more than their distance |
| VoxelSoundness.SignInVoxels | fractal_printer/__init__.py:7 | with a positive size, `d/resolution` has the sign of `d` |
| VoxelSoundness.SmallChangeKeepsSign | fractal_printer/__init__.py:22 | a change e with `e^2 < a^2` leaves the sign of a unchanged |
| VoxelSoundness.ThresholdClearsDiagonal | fractal_printer/__init__.py:20-21 | for spans up to 10^6 the stamp threshold `(span+1)·√3` (with the constant Sqrt3) exceeds the block's half-diagonal `√3·span`, compared on squares |
| VoxelSoundness.StampInVoxels | fractal_printer/__init__.py:20-21 | `r >= span >= 1` means `abs(d)/resolution >= (span+1)·√3` |
| VoxelSoundness.BlockDiameter | fractal_printer/__init__.py:22 | every voxel of the slice `i-span : i+span+1` (on all three axes) lies within squared distance `3·span^2` of the centre |
| VoxelSoundness.ChangeBelowDistance | fractal_printer/__init__.py:20-22 | a change bounded by the squared block diameter is below the squared centre distance of a stamped block |
| VoxelSoundness.StampedBlockKeepsSign | fractal_printer/__init__.py:17-22 | for a 1-Lipschitz distance, every voxel of a block stamped at a level `n >= 1` has the sign of its own distance |
| VoxelSoundness.SpanBelowSide | fractal_printer/__init__.py:6-12 | the span of every level is below the grid side `3^levels` |
| VoxelSoundness.CoarseCellIsExact | fractal_printer/__init__.py:10-22 | for a 1-Lipschitz distance, after the levels `levels-1 … n >= 1` every voxel is 0 or the sign of its own distance |
| VoxelSoundness.BlankVoxelTakesSign | fractal_printer/__init__.py:17-22 | a voxel still 0 when level 0 starts is evaluated on its own and takes the sign of its distance |
| VoxelSoundness.AdaptiveGridIsExact | fractal_printer/__init__.py:8-22 | for a 1-Lipschitz distance, a positive size and `levels >= 1`, every voxel of the finished grid is the sign of the distance at that voxel, as if every voxel had been evaluated |
| Quaternions.Sub | fractal_printer/distance_functions.py:13 | `z - center` is the quaternion that added to `center` gives `z` |
| Quaternions.Mul | fractal_printer/distance_functions.py:14 | the Hamilton product used at line 14 and in `z * z.conj()`; MulPure, MulConj and DistanceFunctions.AnticommutatorOfPure state its properties |
| Quaternions.Div | fractal_printer/distance_functions.py:14 | dividing by a non-zero real is undone by multiplying by it |
| Quaternions.Conj | fractal_printer/mesh/fractal_sdfs.py:17 | `z.conj()` added to `z` leaves only twice the real part |
| Quaternions.Norm2 | fractal_printer/mesh/fractal_sdfs.py:17 | the squared norm is never negative |
| Quaternions.FromFloatArray | fractal_printer/mesh/fractal_sdfs.py:23-26 | `from_float_array` read back with `as_float_array` gives the same four numbers |
| Quaternions.AsFloatArray | fractal_printer/mesh/fractal_sdfs.py:17 | `as_float_array` has four components |
| Quaternions.FloatArrayRoundTrip | fractal_printer/mesh/fractal_sdfs.py:17-23 | `from_float_array(as_float_array(q)) == q` |
| Quaternions.MulConj | fractal_printer/mesh/fractal_sdfs.py:17 | `z * z.conj()` is real, with the squared norm as its real part |
| Quaternions.MulPure | fractal_printer/distance_functions.py:14 | the product of pure quaternions has real part `-(r·a)` and the cross product as its vector part |
| DistanceFunctions.AnticommutatorOfPure | fractal_printer/distance_functions.py:14 | for pure r and a, `r*a + a*r` is the real number `-2(r·a)` |
| DistanceFunctions.Parallel | fractal_printer/distance_functions.py:14 | the projection of line 14; ParallelIsProjection, ProjectionIdempotent, PerpendicularIsOrthogonal and Pythagoras state that it is the orthogonal projection onto a unit axis |
| DistanceFunctions.ParallelIsProjection | fractal_printer/distance_functions.py:14 | for pure r and axis, `r_parallel = (r·a)·a`: pure and a multiple of the axis |
| DistanceFunctions.PerpendicularIsOrthogonal | fractal_printer/distance_functions.py:14-16 | for a unit axis, `r - r_parallel` has zero dot product with the axis |
| DistanceFunctions.ProjectionIdempotent | fractal_printer/distance_functions.py:14 | for a unit axis, projecting `r_parallel` again returns `r_parallel` |
| DistanceFunctions.Pythagoras | fractal_printer/distance_functions.py:14-16 | for a unit axis, `norm2(r_parallel) + norm2(r - r_parallel) = norm2(r)`, with `norm2` the squared norm |
| DistanceFunctions.Sphere | fractal_printer/distance_functions.py:9-10 | `sphere(z)` is never below `-radius` when `np.abs` is the norm; SphereInside and SphereSurface give its sign |
| DistanceFunctions.SphereInside | fractal_printer/distance_functions.py:9-10 | with `radius >= 0`, `sphere(z) < 0` exactly when the squared norm of `z - center` is below `radius^2` |
| DistanceFunctions.SphereSurface | fractal_printer/distance_functions.py:9-10 | with `radius >= 0`, `sphere(z) == 0` exactly when the squared norm of `z - center` equals `radius^2` |
| DistanceFunctions.TorusDecomposition | fractal_printer/distance_functions.py:13-16 | for pure points and a unit axis, `d_parallel^2 = (r·a)^2` and `d_parallel^2 + d_perpendicular^2` is the squared norm of r |
| DistanceFunctions.Tube | fractal_printer/distance_functions.py:18 | line 18 is never below `-minor_radius` when `np.sqrt` is the square root; TubeInside gives its sign |
| DistanceFunctions.TubeInside | fractal_printer/distance_functions.py:18 | with `minor >= 0`, line 18 is negative exactly when `d_parallel^2 + (d_perpendicular - major)^2 < minor^2` |
| DistanceFunctions.Torus | fractal_printer/distance_functions.py:12-18 | `torus(z)` is never below `-minor_radius` when `np.sqrt` is the square root; TorusInside and TorusInsideCircle give its sign |
| DistanceFunctions.TorusInside | fractal_printer/distance_functions.py:12-18 | with `minor_radius >= 0`, `torus(z) < 0` exactly when `d_parallel^2 + (d_perpendicular - major_radius)^2 < minor_radius^2`, for any points and axis |
| DistanceFunctions.TorusInsideCircle | fractal_printer/distance_functions.py:12-18 | for a pure point and centre and a pure unit axis, with h the height `r·axis` and ρ the distance from the axis (`ρ^2 + h^2 = norm2(r)`), `torus(z) < 0` exactly when `h^2 + (ρ - major_radius)^2`, the squared distance to the core circle, is below `minor_radius^2` |
| DistanceFunctions.DefaultAxisIsUnit | fractal_printer/distance_functions.py:12 | the default axis `quaternion(0,1,0,0)` is pure and of unit length, so the projection lemmas apply to it |
| FractalSdfs.Mag2 | fractal_printer/mesh/fractal_sdfs.py:16-17 | `mag2(z)` is the squared norm of z, so never negative |
| FractalSdfs.JuliaConstant | fractal_printer/mesh/fractal_sdfs.py:23 | c takes `(cx, cy, cz, cw)` in that order, so cx is its real part |
| FractalSdfs.Embed | fractal_printer/mesh/fractal_sdfs.py:26-31 | the starting z takes p's three coordinates as components 0-2 and `slice` as component 3 |
| FractalSdfs.RealPow | fractal_printer/mesh/fractal_sdfs.py:41 | `np.power(z2, power-1)` of a non-negative base is non-negative |
| FractalSdfs.DerivativeStep | fractal_printer/mesh/fractal_sdfs.py:41 | the zp2 update of non-negative `z2` and `zp2` is non-negative |
| FractalSdfs.Rounds | fractal_printer/mesh/fractal_sdfs.py:39 | `range(iterations)` runs `iterations` times, and not at all for a negative count |
| FractalSdfs.Start | fractal_printer/mesh/fractal_sdfs.py:34-36 | at the start z2 is the squared norm of z, zp2 is 1 and no point is masked |
| FractalSdfs.Advance | fractal_printer/mesh/fractal_sdfs.py:41-47 | a masked point is left unchanged by a round, and the mask after a round is set exactly when it was set before or the new z2 exceeds bailout |
| FractalSdfs.After | fractal_printer/mesh/fractal_sdfs.py:39-47 | the orbit of one point after k rounds; EscapeIsFinal, EscapedIffCrossed, MagnitudeTracksZ, DerivativeNonNegative and ActiveRound state its properties |
| FractalSdfs.EscapeIsFinal | fractal_printer/mesh/fractal_sdfs.py:41-47 | once a point's mask is true, it stays true and the point's z, z2 and zp2 stay frozen in every later round |
| FractalSdfs.EscapedIffCrossed | fractal_printer/mesh/fractal_sdfs.py:34-47 | after k rounds the mask is set exactly when some round 1..k left `z2 > bailout`; the initial z2 is never tested |
| FractalSdfs.MagnitudeTracksZ | fractal_printer/mesh/fractal_sdfs.py:34-43 | z2 is always the squared norm of the current z |
| FractalSdfs.DerivativeNonNegative | fractal_printer/mesh/fractal_sdfs.py:17-41 | zp2 starts at 1 and never becomes negative |
| FractalSdfs.ActiveRound | fractal_printer/mesh/fractal_sdfs.py:41-43 | for an active point zp2 is updated from the z2 of the previous round, then z moves, then z2 becomes the squared norm of the new z |
| FractalSdfs.Round | fractal_printer/mesh/fractal_sdfs.py:40-47 | one pass of the loop body advances every point of the batch by exactly one round |
| FractalSdfs.PointDistance | fractal_printer/mesh/fractal_sdfs.py:49-50 | the value for one point, `(estimate - offset)·fudge_factor` of its orbit after `max(iterations, 0)` rounds; Distance returns it for every point of the batch |
| FractalSdfs.DefaultsRunFiftyRounds | fractal_printer/mesh/fractal_sdfs.py:21-36 | with the defaults the power is 2 (so Distance applies), 50 rounds run, c is 0 and every orbit starts at the point itself on slice 0, not escaped |
| FractalSdfs.Distance | fractal_printer/mesh/fractal_sdfs.py:24-50 | the returned array holds, for every point, `(estimate - offset)·fudge_factor` of its orbit after exactly `max(iterations, 0)` rounds, with no early exit |

## Left out

- World-space positions are not modelled: the origin, the voxel-centre position built from `center`, `size` and `resolution` (lines 5 and 18 of `fractal_printer/__init__.py`), and `kwargs`. The distance function is a function of voxel indices, `Setup.dist`.
- Floating point is not modelled: values are exact reals, so float rounding, infinities and NaN are absent. In particular, `int(nan)` raising at line 20 is not modelled.
- IterateVoxels: requires `size != 0` unless `levels == 0`. With no levels the loop does not run, so a zero size is harmless there, and the model covers that case. With `size == 0` and `levels >= 1`, line 20 divides by a zero resolution, and `int()` of the resulting infinity or NaN raises. That error path is not modelled.
- The whole-grid results (`LevelZeroDecides`, `FinishedGridIsDecided`, `AdaptiveGridIsExact`) need a positive size and at least one level, and the code gives nothing more without them. With `levels == 0` the level loop `range(-1,-1,-1)` is empty, so the single voxel is never evaluated and stays 0. With a negative size the resolution is negative, so `r` at line 20 is negative unless `d` is 0. Only a zero distance is ever stamped, with `sign(0) = 0`, and the grid stays all 0 (`Voxelizer.NegativeSizeStaysBlank`).
- IterateVoxels: `levels` is a natural number. For a negative `levels`, `3**levels` is a float and `np.zeros` refuses it.
- VoxelSoundness.StampedBlockKeepsSign: requires `span <= 10^6`. Likewise CoarseCellIsExact and AdaptiveGridIsExact require `3^levels <= 10^6`, which means `levels <= 12`. The constant Sqrt3 is slightly below √3, so the stamp margin is only proved for spans up to this bound; it fails only for spans near 10^16.
- VoxelSoundness.Lipschitz is an assumption about the distance function that the code never checks. It is stated between voxel indices in voxel units, since positions are not modelled. The Julia estimator of `fractal_printer/mesh/fractal_sdfs.py` is only approximately a distance bound, which is why it carries `fudge_factor`. For it the soundness lemmas apply only as far as the assumption holds.
- The `int8` storage of the mask is not modelled separately. `Voxelizer.Cell` proves every stored value is -1, 0 or 1, so it fits.
- Distance: requires `power >= 1`, and `power` is a whole number. With `power == 0` the exponent `power - 1` is negative, and `np.power` of a zero `z2` gives an infinity. Non-integer powers are not modelled either.
- The quaternion power `z**power` (line 42 of `fractal_printer/mesh/fractal_sdfs.py`) is the parameter `qpow`. The final `np.sqrt(z2/zp2)*0.25*np.log(z2)` (line 49) is the parameter `estimate`. `np.abs` of a quaternion and `np.sqrt` are parameters of `sphere` and `torus`.
- The projection and torus lemmas are stated for pure quaternions, the points of space. For a non-pure `r` the formula at line 14 is not a projection.
- The `@d3.sdf3` decorator, which wraps the factory for the `sdf` library, is not modelled. The batch `p` is a sequence of points. Rebinding `mask = mask | new_mask` is modelled as an update in place, which gives the same values.
- `iterate_voxels_simple` and `export_stl`, which `scripts/main.py` calls, are not part of this model: they are not defined in `fractal_printer/__init__.py`.
- The following are outside the modelled core:
  - the preview UI under `fractal_printer/preview/`;
  - `scripts/main.py` and `scripts/test_julia.py`;
  - the mesh wrappers in `fractal_printer/mesh/mesh_generation.py`;
  - the superseded `fractal_printer/fractal_sdfs.py`.
