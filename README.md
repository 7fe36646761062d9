# MT3 segment–plane demo: geometric core in Dafny

This project models the geometry behind a small C++ graphics demo. The demo
draws a grid, a plane and a segment, and colours the segment by whether it
crosses the plane. The model covers only the mathematics under the drawing
code:

- **Vectors** (`vectors.dfy`): the `Vector3` record, `Dot`, and the
  epsilon-guarded `Normalize`. Normalize leaves vectors of length at most
  `0.0001` alone.
- **Matrices** (`matrices.dfy`): `Matrix4x4` as a 4×4 sequence of reals in the
  row-vector convention. The point is a row on the left, and the translation
  sits in row 3. `Multiply` is an imperative triple loop that accumulates
  into a zero matrix. It is proved equal to the pure `Product`. Identity,
  affinity and associativity laws (for a row vector pushed through a
  product, and for three matrices) are proved about `Product`.
- **Transforms** (`transforms.dfy`): `Transform` multiplies `(x, y, z, 1)` by
  the matrix. It divides by `w` only when `w` is not zero. It is a method
  proved equal to the pure `Transformed`.
- **Camera** (`camera.dfy`): the three elementary rotations, the translation
  by minus the camera position, the fixed perspective projection, and
  `MakeViewProjectionMatrix = (trans · (rotZ · rotX · rotY)) · proj`.
- **Viewport** (`viewport.dfy`): `MakeViewportForMatrix` and where it sends
  the corners of device space.
- **Collision** (`collision.dfy`): the `Segment` and `Plane` records and
  `IsSegmentPlaneCollision`. The collision test has these steps:
  1. Normalise the plane's normal.
  2. Reject the segment when `|Dot(n, dir)| < 1e-6`, because it is parallel.
  3. Compute `t = dist / denom`.
  4. Accept `t` in `[0, 1]`, both ends included.
  5. On a hit, write `start + dir * t` into the caller's optional out-slot.

The C++ `float` is modelled as exact `real`. `sqrtf`, `sinf`, `cosf` and
`tanf` are foreign routines. They are fields of a `MathLib` value passed to
every member that uses them. A lemma that needs to know what `sqrtf`
computes says so in its `requires` through `IsSquareRoot`.

Two consequences of the code as written are proved rather than assumed:

- With row vectors, `v · (rotZ · rotX · rotY)` applies Z first, then X,
  then Y (`Camera.ViewProjectionStages`).
- The 1280×720 viewport with depth `[0, 1]` sends `(-1, -1, -1)` to depth
  -1, because nothing clamps `z` (`Viewport.ScreenViewportCorners`).

## Model

| member | source | states |
|---|---|---|
| Vectors.Dot | main.cpp:33-36 | the inner product of a vector with itself is never negative |
| Vectors.DotSymmetric | main.cpp:33-36 | `Dot(a, b) == Dot(b, a)` |
| Vectors.DotAdd | main.cpp:33-36 | `Dot(n, ·)` is additive over vector sums and differences |
| Vectors.DotScale | main.cpp:33-36 | scaling the second argument by `s` scales the dot by `s` |
| Vectors.DotScaleLeft | main.cpp:33-36 | scaling the first argument by `s` scales the dot by `s` |
| Vectors.Normalize | main.cpp:39-46 | length at most 0.0001 returns the input unchanged; otherwise the result scaled back by the length is the input, so every component was divided by the length |
| Vectors.NormalizeZero | main.cpp:42-45 | the zero vector normalises to itself, whatever `sqrtf` returns |
| Vectors.NormalizeUnitLength | main.cpp:41-43 | above the epsilon, the result has unit length when `sqrtf` is the square root |
| Vectors.NormalizeIdempotent | main.cpp:39-46 | normalising an already normalised vector changes nothing |
| Matrices.Multiply | main.cpp:48-59 | entry `(i, j)` of the result is `Σ_k a[i][k] * b[k][j]`, and the whole result is `Product(a, b)` |
| Matrices.AccumulatedStep | main.cpp:53-55 | one pass of the innermost loop adds exactly the next term `a[i][k] * b[k][j]` to the accumulated entry |
| Matrices.AccumulatedComplete | main.cpp:50-57 | after all four passes the accumulated entry equals the entry of the matrix product |
| Matrices.ProductIdentityLeft | main.cpp:48-59 | the identity is a left unit of the product |
| Matrices.ProductIdentityRight | main.cpp:48-59 | the identity is a right unit of the product |
| Matrices.ProductAffine | main.cpp:48-59 | the product of two matrices with last column `(0, 0, 0, 1)` has that last column too |
| Matrices.RowTimesIsCombination | main.cpp:142-145 | the row product is the combination of the matrix rows weighted by the vector's components |
| Matrices.RowTimesProduct | main.cpp:48-59 | pushing a row through `a * b` is pushing it through `a`, then `b` (row-vector associativity) |
| Matrices.ProductAssociative | main.cpp:48-59 | `(a * b) * c == a * (b * c)`, so the order in which `Multiply` calls are nested does not matter |
| Transforms.Divide | main.cpp:146-150 | the divided vector scaled back by `w` gives the undivided one |
| Transforms.Transform | main.cpp:140-152 | with `w` the computed fourth component: `w != 0` gives a result that, times `w`, is the row product's `(x, y, z)`; `w == 0` gives that `(x, y, z)` undivided; the result equals `Transformed` |
| Transforms.TransformedAffine | main.cpp:140-152 | an affine matrix yields `w == 1`, so the result is the plain row product |
| Transforms.TransformedProduct | main.cpp:140-152 | transforming by `a * b` with `a` affine is transforming by `a`, then by `b` |
| Camera.RotationY | main.cpp:71-77 | the rotation about Y is affine and leaves the Y axis `(0, 1, 0, 0)` where it is |
| Camera.RotationX | main.cpp:79-85 | the rotation about X is affine and leaves the X axis `(1, 0, 0, 0)` where it is |
| Camera.RotationZ | main.cpp:87-93 | the rotation about Z is affine and leaves the Z axis `(0, 0, 1, 0)` where it is |
| Camera.Rotation | main.cpp:95 | `rotZ * rotX * rotY` turns about the origin: it sends `(0, 0, 0, 1)` to itself |
| Camera.Translation | main.cpp:97-104 | the translation is affine and sends the camera position to the origin |
| Camera.Projection | main.cpp:108-120 | requires `tanf(fovY / 2) != 0`; the last column is `(0, 0, k, 0)` with `k < 0` (the source's `(-nearZ * farZ) / (farZ - nearZ)`), so the computed `w` is `k` times the depth |
| Camera.ProjectionDepthToW | main.cpp:108-122 | for any matrix `a`, each row of `a * proj` has as `w` the depth entry of that row of `a` times `k` |
| Camera.MakeViewProjectionMatrix | main.cpp:62-123 | requires `tanf(fovY / 2) != 0`; each row's `w` entry is `k` times the depth entry of the same row of `view = trans * rot`; what it does to a point is in `ViewProjectionStages` and `CameraPositionSkipsDivide` |
| Camera.TranslationSubtracts | main.cpp:97-104 | the translation moves every point by minus the camera position and takes the camera position to the origin |
| Camera.ElementaryAffine | main.cpp:71-104 | the translation and the three rotations all have last column `(0, 0, 0, 1)` |
| Camera.RotationAffine | main.cpp:95 | `rotZ * rotX * rotY` is affine |
| Camera.RotationXKeepsLength | main.cpp:79-85 | for `c² + s² == 1`, rotation about X keeps every vector's length |
| Camera.RotationYKeepsLength | main.cpp:71-77 | for `c² + s² == 1`, rotation about Y keeps every vector's length |
| Camera.RotationZKeepsLength | main.cpp:87-93 | for `c² + s² == 1`, rotation about Z keeps every vector's length |
| Camera.ViewProjectionStages | main.cpp:62-123 | the view-projection matrix acts as: translate by minus the camera position, rotate about Z, then X, then Y, then project |
| Camera.CameraPositionSkipsDivide | main.cpp:62-123 | the camera position gets `w == 0` under the view-projection matrix and comes out undivided as `(0, 0, 1)` |
| Camera.ViewProjectionWithoutRotation | main.cpp:64-106 | with all angles zero (`cosf(0) == 1`, `sinf(0) == 0`) the matrix is `trans * proj` |
| Viewport.MakeViewportForMatrix | main.cpp:126-137 | the viewport matrix is affine and sends the device centre `(0, 0, 0, 1)` to `(left + width / 2, top + height / 2, minDepth, 1)`; `ViewportMapsToPixels` gives the image of every point |
| Viewport.ViewportMapsToPixels | main.cpp:126-137 | computed `w` is 1; x goes from `[-1, 1]` to `[left, left + width]`, y from `[1, -1]` to `[top, top + height]`, z from `[0, 1]` to `[minDepth, maxDepth]` |
| Viewport.ViewportCorners | main.cpp:126-137 | `(-1, 1, 0)` lands on `(left, top, minDepth)` and `(1, -1, 1)` on `(left + width, top + height, maxDepth)` |
| Viewport.ScreenViewportCorners | main.cpp:126-137 | with the demo's 1280×720 viewport and depth `[0, 1]`, `(-1, -1, -1)` lands on `(0, 720, -1)` and `(1, 1, 1)` on `(1280, 0, 1)` |
| Collision.IsSegmentPlaneCollision | main.cpp:227-256 | returns true exactly when `SegmentPlaneHit` finds a hit; on a hit with a slot it writes that hit point; otherwise the slot keeps its value, and only the slot may change |
| Collision.ParallelMisses | main.cpp:229-240 | `Abs(denom) < 1e-6` means no hit, and a segment with `start == end` is one such case |
| Collision.HitIffParameterInRange | main.cpp:242-255 | a hit exactly when not parallel and `0 <= dist / denom <= 1`, both ends included; the hit point is then `start + dir * t` |
| Collision.ParameterPointOnPlane | main.cpp:242-250 | at `t = dist / denom` the segment's line meets the plane through `point` orthogonal to `n` |
| Collision.HitOrthogonal | main.cpp:242-251 | a hit point's offset from the plane's point is orthogonal to the normal used |
| Collision.HitLiesOnPlane | main.cpp:229-251 | a hit point's offset from the plane's point is orthogonal to the normalised normal and to the plane's own normal |
| Collision.StartOnPlaneHits | main.cpp:244-252 | a non-parallel segment starting on the plane hits at its start (`t == 0` is accepted) |
| Collision.EndOnPlaneHits | main.cpp:244-252 | a non-parallel segment ending on the plane hits at its end (`t == 1` is accepted) |
| Collision.ReversedSegmentSameHit | main.cpp:231-255 | swapping start and end changes neither the decision nor the hit point |
| Collision.UnitYNormal | main.cpp:229 | the demo's unit normal `(0, 1, 0)` is left unchanged by the normalisation |
| Collision.UnitYPlaneHit | main.cpp:229 | against the plane `y == 0` the test runs with `(0, 1, 0)` itself |
| Collision.UnitYRates | main.cpp:237-242 | along the unit normal `(0, 1, 0)`, `denom` is the segment's change in `y` and `dist` the plane point's height above the start |
| Collision.InPlaneExample | main.cpp:237-240 | for every `h`, the segment from `(-h, 0, 0)` to `(h, 0, 0)` lies in the plane `y == 0`, is parallel and misses |
| Collision.HitAtHalfway | main.cpp:244-252 | when `dist` is half of a non-parallel `denom`, `t == 0.5` and the hit is the segment's midpoint |
| Collision.CrossingExample | main.cpp:242-252 | for every `h >= 1e-6`, the segment from `y = h` to `y = -h` hits at `t = 0.5`, the origin |
| Collision.StartOnPlaneExample | main.cpp:242-252 | for every `h >= 1e-6`, the segment from `(h, 0, 0)` down to `(h, -h, 0)` hits at its start |
| Collision.MissAtTwice | main.cpp:244-255 | when `dist` is twice a non-parallel `denom`, `t == 2` and there is no hit |
| Collision.AboveExample | main.cpp:244-255 | for every `h >= 1e-6`, the segment from `y = 2h` down to `y = h`, wholly above the plane, misses (`t = 2`) |
| Collision.UnitYPlaneExamples | main.cpp:227-256 | for every `h >= 1e-6`, the four example segments get the same answers from the full test against the plane `y == 0` |

## Left out

- The `WinMain` frame loop, window, input, ImGui panel and key handling (main.cpp:259-352) are not modelled. They are I/O and UI glue over external libraries.
- `DrawGrid`, `DrawPlane` and `DrawSegment` (main.cpp:155-224) are not modelled. They only pass `Transform`ed points to the drawing library and truncate them with `(int)` casts.
- Float rounding, NaN and infinity are left out. Every value is an exact real, and the thresholds `0.0001` and `1e-6` are exact real constants in the guards.
- The values of `sqrtf`, `sinf`, `cosf` and `tanf` are left out, because they are foreign math-library routines. Lemmas that depend on them say so in their `requires`: `sqrtf` is the non-negative square root, or `cosf(0) == 1` and `sinf(0) == 0`.
- The builder functions `Camera.Projection` and `Camera.MakeViewProjectionMatrix` require `tanf(fovY / 2) != 0`, and so do the lemmas about them. The source divides by `tanf` without a guard (main.cpp:113). The case where that divide gives an infinite matrix is out of scope, because exact reals have no infinity.
- `M_PI` is the float literal `3.14159265358979323846f`. It is modelled as that exact decimal, not rounded to a float.
- The projection matrix inside `MakeViewProjectionMatrix` is modelled entry for entry as written, including `m[2][3]` and `m[3][2]`. Nothing is claimed about it against any graphics convention.
- The source takes the segment and the plane as `const` references (main.cpp:227), and the model takes them as values. Aliasing the out-slot with a field of the segment or the plane cannot change the hit point. `dir` and `n` are locals computed before any write, and each of main.cpp:248-250 reads only its own component of `start` before writing that component. The `Vector3*` out-parameter is a nullable reference to a one-field class. The model writes the whole vector at once, where the C++ writes `x`, `y` and `z` in turn.
