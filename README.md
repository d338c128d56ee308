# obj2pcd Sampler — a Dafny model

obj2pcd turns a triangle-soup mesh into a point cloud. Each point lies on
the surface and carries an interpolated normal that can be sign-flipped.
Points are spread over the surface in proportion to area. This project
models the discrete logic of the `Sampler` class in `sampler.h` and proves
properties of that model:

- **Weight table** (`SamplerModel.Sampler.constructor`). The constructor takes
  the loaded soup (one normal per vertex). Its first loop fills the `weights`
  array in place with per-triangle Heron areas and adds them up into `tarea`.
  Its second loop divides every entry by `tarea`. Triangle *i* is made of
  slots 3i, 3i+1 and 3i+2, and there are `|tris| / 3` triangles
  (`WeightTable`).
- **Triangle selection** (`SamplerModel.Sampler.SelectTriangle`, `Selection`).
  This is the linear inverse-CDF scan. It subtracts weights from the draw `x`
  until the remainder is at most the current weight. If no index below the
  loop bound qualifies, the result is 0. The loop bound is a parameter. The
  precondition `ScanInBounds` says exactly when the reads of `weights` stay in
  range.
- **Point on a triangle** (`TriangleSampling`). This is the parallelogram draw
  `a + r0 e0 + r1 e1`, the 2×2 dot-product solve for (u, v), the inclusion
  test with its `0.00001` slack, and the reflected retry `(1 − r0, 1 − r1)`.
- **Normal** (`TriangleSampling`). The weights w0, w1, w2 are sub-area ratios
  exactly as the source computes them (including the repeated sub-triangle).
  The normal is the weighted sum of the corner normals, negated iff
  `flip_flag`, and then normalised.
- **Output** (`SamplerModel.Sampler.GetPointCloud`). It produces exactly
  `int(sample_density * tarea)` points (truncation toward zero), with width
  equal to that count and height 1. Point *i* is built from the *i*-th random
  draw.

Floating-point numbers are idealised as reals. The square root is the only
abstract primitive. It is a parameter `sqrt: real -> real`, and glm's
`distance` and `normalize` are defined over it the way glm defines them. As a
result, the symmetry of `distance` and the fact that `normalize` commutes with
negation are proved here, not assumed. The random numbers `x`, `r0` and `r1`
are passed in: `GetPointCloud` takes a function `draws` from the sample number
to its three draws.

Two quirks of the source are proved as they stand:

- The second and third normal weights are always equal
  (`TriangleSampling.SecondAndThirdWeightsEqual`). This is because
  `getTriArea(c, a, pt)` and `getTriArea(a, c, pt)` measure the same triangle.
- The spin after a second rejection cannot be reached for draws in [0, 1] on a
  non-degenerate triangle (`TriangleSampling.RandomPtOnTriOutcome`).

The sample count is `int(sample_density * tarea)`: a truncation toward zero,
not a rounding, and `SamplerModel.Truncate` models it as such.

## Model

| member | source | states |
|---|---|---|
| `Geometry.DistanceSymmetric` | sampler.h:50-52 | the edge length between two corners does not depend on their order |
| `Geometry.NormalizeOdd` | sampler.h:137-139 | normalising a negated vector gives the negated normalised vector |
| `Geometry.HeronRadicandSymmetric` | sampler.h:53-54 | Heron's radicand s(s−e0)(s−e1)(s−e2) is unchanged by every permutation of the three edge lengths |
| `Geometry.HeronRightTriangle` | sampler.h:53-54 | a right triangle with unit legs has radicand 1/4, so area 1/2 |
| `Geometry.HeronCollinear` | sampler.h:53-54 | a collinear triangle has radicand 0, so area sqrt(0) |
| `Geometry.TriArea` | sampler.h:48-55 | getTriArea: Heron's formula over the three corner distances; it carries no contract of its own, and its properties are those of `TriAreaPermutationInvariant`, `TriAreaRightTriangle` and `TriAreaCollinearCorners` |
| `Geometry.TriAreaRightTriangle` | sampler.h:48-55 | on the corners (0,0,0), (1,0,0), (0,1,0) getTriArea is 1/2, for a square root exact on 1 and 1/4 whose value at 2 squares to 2 |
| `Geometry.TriAreaCollinearCorners` | sampler.h:48-55 | on the collinear corners (0,0,0), (1,0,0), (2,0,0) getTriArea is 0, for a square root exact on 0, 1 and 4 |
| `Geometry.TriAreaPermutationInvariant` | sampler.h:48-55 | getTriArea gives the same value for all six orderings of its corners |
| `WeightTable.AreasAt` | sampler.h:30-35 | there are \|tris\| / 3 areas, and area i is getTriArea of slots 3i, 3i+1, 3i+2 |
| `WeightTable.DividedBySum` | sampler.h:39-42 | dividing every entry by t divides the sum by t |
| `WeightTable.WeightsSumToOne` | sampler.h:39-42 | when the total area is non-zero, the normalised weights sum to exactly 1 |
| `WeightTable.WeightIsShare` | sampler.h:36-41 | each weight times the total area is that triangle's area |
| `WeightTable.WeightsInUnitInterval` | sampler.h:32-42 | with non-negative areas and a positive total, every weight lies in [0, 1] |
| `Selection.Hit` | sampler.h:72-79 | the index found below the bound is the first j whose running weight sum w[0]+…+w[j] reaches x; when none is found, every running sum below the bound is below x |
| `Selection.Selected` | sampler.h:70-80 | the index left in tri_index is the first index below the bound whose running weight sum reaches x, or else 0, in which case every running sum below the bound is below x |
| `Selection.LargerBoundSameSelection` | sampler.h:72 | any loop bound of at least num_tris under which the scan stays in the table selects the same triangle as the bound num_tris |
| `Selection.SelectedIndexInRange` | sampler.h:72-86 | with the bound num_tris the scan stays in range and selects an existing triangle; when x does not exceed the total weight, it never falls back to the default 0 |
| `Selection.AsWrittenScanInBounds` | sampler.h:72-79 | in exact arithmetic, when x does not exceed the total weight, the scan's reads stay inside the table for any loop bound (num_samples included) |
| `Selection.AsWrittenBoundMisselects` | sampler.h:72 | with two weights of 1/2, x = 3/4 and the bound 1 (one sample), the scan picks triangle 0; with the bound 2 it picks triangle 1 |
| `TriangleSampling.ParallelogramPoint` | sampler.h:104-106 | the drawn point's offset from a is r0 e0 + r1 e1, so the draws (0, 0), (1, 0), (0, 1) give the corners a, b, c (the reflected draw at line 146 uses the same function) |
| `TriangleSampling.Cramer` | sampler.h:113-120 | the invDenom solve yields nothing exactly when dot00 dot11 − dot01² is 0; otherwise its (u, v) satisfies dot00 u + dot01 v = dot02 and dot01 u + dot11 v = dot12 (the second solve at lines 148-155 is the same) |
| `TriangleSampling.CramerSolves` | sampler.h:118-120 | the two invDenom quotients satisfy both normal equations when the denominator is non-zero |
| `TriangleSampling.Solve` | sampler.h:112-120 | no (u, v) exactly for a degenerate triangle (zero denominator); otherwise u e0 + v e1 has the same dot products with e0 and e1 as pt − a |
| `TriangleSampling.CramerInverts` | sampler.h:113-120 | the invDenom solve gives back (r0, r1) when dot02 and dot12 come from pt − a = r0 e0 + r1 e1 and the denominator is non-zero |
| `TriangleSampling.SolveRecoversDraw` | sampler.h:104-120 | for the parallelogram point of (r0, r1), the solved (u, v) is (r0, r1) if the denominator is non-zero; otherwise no (u, v) exists (NaN) |
| `TriangleSampling.ReflectionAccepts` | sampler.h:144-156 | for r0, r1 in [0, 1] on a non-degenerate triangle, a draw that fails the inclusion test passes it once reflected |
| `TriangleSampling.RandomPtOnTriOutcome` | sampler.h:102-183 | for r0, r1 in [0, 1], getRandomPtOnTri succeeds iff the triangle is non-degenerate; the point is that of (r0, r1) when r0 + r1 ≤ 1 and that of (1 − r0, 1 − r1) otherwise, with the normal interpolated at that point |
| `TriangleSampling.SampleInsideTriangle` | sampler.h:104-121 | every emitted point is a + u e0 + v e1 with u, v ≥ 0 and u + v ≤ 1, i.e. inside the closed triangle |
| `TriangleSampling.NormalWeights` | sampler.h:123-129 | w0, w1, w2 as the sub-areas of (b, c, pt), (c, a, pt), (a, c, pt) over the area of (a, b, c); it carries no contract of its own, and its property is `SecondAndThirdWeightsEqual` |
| `TriangleSampling.SampleNormal` | sampler.h:136-139 | the weighted corner normal, negated iff flip_flag, then normalised; it carries no contract of its own, and its properties are those of `FlipNegatesNormal` and `Geometry.NormalizeOdd` |
| `TriangleSampling.RandomPtOnTri` | sampler.h:98-184 | an emitted point passes the inclusion test and is the parallelogram point of the draw or of the reflected draw, with the normal interpolated at that point; the result is an error exactly when both points fail the test |
| `TriangleSampling.SecondAndThirdWeightsEqual` | sampler.h:123-129 | w1 == w2 for every triangle and point |
| `TriangleSampling.FlipNegatesNormal` | sampler.h:136-139 | setting flip_flag leaves success and position unchanged and negates the emitted normal, in both branches |
| `SamplerModel.NumSamples` | sampler.h:60 | num_samples = int(sample_density * tarea); it carries no contract of its own, and its properties are those of `Truncate` and `ZeroAreaNoSamples` |
| `SamplerModel.Truncate` | sampler.h:60 | int(r) truncates toward zero: between 0 and r, within 1 of r |
| `SamplerModel.ZeroAreaNoSamples` | sampler.h:60 | a mesh of total area 0 yields 0 samples at any density |
| `SamplerModel.Sampler.constructor` | sampler.h:25-46 | num_tris = \|tris\| / 3, weights has num_tris entries, tarea is the sum of the areas, entry i is area i / tarea, flip_flag is the given flag |
| `SamplerModel.Sampler.SelectTriangle` | sampler.h:70-80 | the decrementing scan returns the first index below the bound whose running weight sum reaches x, or 0 if there is none; its reads stay in range exactly under `ScanInBounds` |
| `SamplerModel.Sampler.SamplingNeedsTriangles` | sampler.h:60-86 | a positive sample count implies at least one triangle, so the reads at line 86 have an index to use |
| `SamplerModel.Sampler.SampleFor` | sampler.h:69-86 | the sample of one draw: getRandomPtOnTri on the triangle the scan over all triangles selects; it carries no contract of its own: `DrawSample` computes it and `SampleForSucceeds` states when it succeeds |
| `SamplerModel.Sampler.DrawSample` | sampler.h:69-86 | one iteration: the triangle chosen by the scan over all triangles, then getRandomPtOnTri on its corners and normals |
| `SamplerModel.Sampler.GetPointCloud` | sampler.h:58-96 | succeeds iff the count is non-negative and every draw yields a sample; the cloud then has exactly int(sample_density * tarea) points, width equal to that count, height 1, is_dense false, and point i built from draw i |
| `SamplerModel.Sampler.SampleForSucceeds` | sampler.h:70-86 | on a mesh with no degenerate triangle, draws with r0, r1 in [0, 1] always yield a sample, on an existing triangle |

## Left out

- Mesh loading (`loadOBJ`) and all console output: the loader is external code and the output is I/O. The constructor takes the loaded position and normal sequences directly, and requires one normal per vertex as the loader provides.
- PCL containers and the pcd/ply headers: a foreign library. The cloud is a datatype with width, height, is_dense and a sequence of 6-component points. The point vector that the source resizes and fills slot by slot is a `seq` updated slot by slot.
- `std::rand` / `RAND_MAX`: the draws are parameters. The `float` rounding of r0 and r1, and `float` versus `double` mixing in general, are not modelled.
- Floating-point rounding: all arithmetic is exact over the reals.
- `Geometry.Div`: IEEE division by zero produces infinities or NaN, which reals cannot represent. The model yields 0 instead. This affects the normal weights of a zero-area triangle, the weight table of a zero-area mesh, and `Geometry.Normalize` of a zero vector, where glm's `normalize` gives NaN components and the model gives the zero vector. For the weight table the substitution cannot be observed, because such a mesh yields no samples (`SamplerModel.ZeroAreaNoSamples`).
- `TriangleSampling.Solve`: with a zero denominator the source's u and v are NaN and fail every comparison. The model returns no (u, v), and the inclusion test fails too.
- The `sqrt` of `getTriArea`, glm's `normalize` and `distance`: `sqrt` is abstract. The model does not prove that normals have unit length, does not model NaN from a negative Heron radicand, and does not clamp that radicand to zero.
- `SamplerModel.Sampler.GetPointCloud`: after a second rejection the source logs and spins forever. The model returns `Err(DoubleRejected)` instead, and the first such draw ends the request. A negative count makes `resize` throw in the source, which the model reports as `Err(NegativeSize)`. The `int(...)` conversion of an out-of-range value (undefined behaviour in C++) is not modelled, because integers are unbounded.
- `SamplerModel.Sampler.DrawSample`: it scans with the bound num_tris rather than the source's num_samples (see Findings), and so does `GetPointCloud`, which calls it. The scan as written is modelled by `SelectTriangle` with an arbitrary bound.
- Freeing the `weights` buffer: the source never deletes it, and memory management is outside the model.

## Findings

| source | as written | input that shows it | evidently intended | confidence | as-written member | corrected member |
|---|---|---|---|---|---|---|
| sampler.h:72 | the selection scan's loop is bounded by num_samples, the sample count, instead of num_tris | two triangles of area 1/2 each (tarea 1, weights 1/2 and 1/2), sample_density 1 so num_samples is 1, and x = 0.75: the scan stops after index 0 and returns the default 0 | the scan is bounded by num_tris and returns triangle 1, the first index whose running weight sum reaches x; with num_samples < num_tris the later triangles are under-sampled, and with num_samples > num_tris and x above the rounded sum the reads go past the table | high (not executed) | `Selection.AsWrittenBoundMisselects` | `Selection.SelectedIndexInRange` |
