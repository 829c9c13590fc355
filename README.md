# JPL_Math geometry core, modelled in Dafny

This project models the computational core of JPL_Math, a small C# geometry and utility library for Unity. It covers:

- **`JPLMath` helpers**: `minmax`, `middle`, `fromTo`, `perp`, `cross`, `areClockwise`, the 90-degree rotations, `indexOfMin`/`findMin`, `indexOfMax`/`findMax`, every `sum` and `average` overload, and the `equal` chains.
- **`Intersections`**: 2D line/line and segment/segment, ray against the plane y = 0, and ray against a general plane, both overloads.
- **`Arc.IsClockwise`**.
- **`PointIn`**: triangle, quad, rectangle (both overloads) and circle containment.
- **`DistanceBetween.PointAndLine`**.
- **`RunningAverage`**: a fixed-capacity circular buffer that averages the most recent values.

`float`, `float2` and `float3` are exact reals: `real`, `V2` and `V3` in `vectors.dfy`. `int2` and `int3` are `I2` and `I3`. The degeneracy bands keep their literal values: `LineTolerance` is 0.001 and `PlaneTolerance` is 0.00001.

Every routine that returns a flag and fills `out` parameters returns a datatype holding the flag and those values. Examples are `LineHit`, `SegmentHit`, `RayHit`, `PositionHit` and `PlaneHit`.

Two routines can produce a non-finite float:
- `Line2DToLine2D` returns +infinity as its "no solution" distance.
- `RayToPlane` divides before it tests the denominator.

For these the model uses `ExtReal` (finite value, +infinity, -infinity or NaN), and `Divide` gives IEEE's result for division by an exact zero.

`indexOfMin`, `indexOfMax`, `sum` and `average` only read their slice (`NativeSlice<T>`), so a slice is modelled as a `seq`; a whole `NativeArray` is a Dafny `array`. The loops are modelled as methods proved against recursive specification functions:
- `indexOfMin`/`indexOfMax` scan a slice.
- Each `sum` overload is a loop; `SeqSum` and its variants specify it.
- `RunningAverage.Get` sums its buffer in a loop.

`RunningAverage` is a class with an array buffer and the fields `count` and `next`. A ghost `History` records every value added. Its invariant `Valid` says that the first `count` slots hold, circularly from the oldest slot, exactly the last min(|History|, capacity) values added. That window is `Window(History, capacity)`.

Module layout: `vectors.dfy` (Vectors), `jpl_math.dfy` (JPLMath), `intersections.dfy` (Intersections), `arc.dfy` (Arc), `point_in.dfy` (PointIn), `distance.dfy` (DistanceBetween) and `running_average.dfy` (RunningAverages).

## Model

| member | source | states |
|---|---|---|
| JPLMath.MinMax | JPLMath.cs:15-27 | the two outputs are the two inputs (as a multiset) and come out in non-decreasing order |
| JPLMath.Middle | JPLMath.cs:50-51 | the midpoint is equally far from both inputs: m - a == b - m |
| JPLMath.MiddleV2 | JPLMath.cs:53-54 | the float2 midpoint is equally far from both inputs |
| JPLMath.MiddleV3 | JPLMath.cs:56-57 | the float3 midpoint is equally far from both inputs |
| JPLMath.MiddleSymmetric | JPLMath.cs:50-57 | all three `middle` overloads are symmetric in their arguments |
| JPLMath.FromTo | JPLMath.cs:60-61 | the result is the offset that carries `from` onto `to`: from + r == to |
| JPLMath.FromToV2 | JPLMath.cs:63-64 | no contract of its own, to keep the many proofs that use it small; `FromToCarries` proves from + fromTo(from, to) == to for it |
| JPLMath.FromToV3 | JPLMath.cs:66-67 | the result is the offset that carries `from` onto `to`: from + r == to |
| JPLMath.FromToCarries | JPLMath.cs:60-67 | for all three overloads, `from + fromTo(from, to) == to` |
| JPLMath.Perp | JPLMath.cs:70-71 | no contract of its own, to keep the nonlinear proofs that use it small; `PerpAntisymmetric` (antisymmetry, zero on equal arguments) and `PerpIsDotWithRotated` carry its properties |
| JPLMath.Cross | JPLMath.cs:73-74 | `cross(a, b) == -perp(b, a)` |
| JPLMath.PerpAntisymmetric | JPLMath.cs:70-74 | perp is antisymmetric and zero on equal arguments; `cross` equals `perp` |
| JPLMath.PerpIsDotWithRotated | JPLMath.cs:70-71 | `perp(a, b)` is the dot product of `rotate90cw(a)` with b |
| JPLMath.AreClockwise | JPLMath.cs:78-79 | a clockwise pair is two distinct non-zero vectors; `AreClockwiseAsymmetric` states that (a, b) and (b, a) are never both clockwise |
| JPLMath.AreClockwiseAsymmetric | JPLMath.cs:78-79 | (a, b) and (b, a) are never both clockwise; neither is, exactly when perp(a, b) == 0 |
| JPLMath.Rotate90Cw | JPLMath.cs:89-90 | the result is perpendicular to v, has v's squared length, and perp(v, r) == \|v\|^2 |
| JPLMath.Rotate90Ccw | JPLMath.cs:91-92 | the result is perpendicular to v, has v's squared length, and perp(v, r) == -\|v\|^2 |
| JPLMath.Rotate90Inverse | JPLMath.cs:89-92 | the two rotations undo each other |
| JPLMath.IndexOfMin | JPLMath.cs:112-124 | for a non-empty slice: an in-range index whose element is <= every element, and no earlier index holds an equally small one |
| JPLMath.FindMin | JPLMath.cs:125-126 | an element of the slice that is <= every element |
| JPLMath.FindMinArray | JPLMath.cs:127-128 | an element of the array that is <= every element |
| JPLMath.IndexOfMax | JPLMath.cs:130-142 | for a non-empty slice: an in-range index whose element is >= every element, and no earlier index holds an equally large one |
| JPLMath.FindMax | JPLMath.cs:143-144 | an element of the slice that is >= every element |
| JPLMath.FindMaxArray | JPLMath.cs:145-146 | an element of the array that is >= every element |
| JPLMath.Sum | JPLMath.cs:165-173 | the loop's result is the total of the whole slice (0 for an empty slice) |
| JPLMath.SumV2 | JPLMath.cs:174-182 | the loop's result is the float2 total of the slice |
| JPLMath.SumV3 | JPLMath.cs:183-191 | the loop's result is the float3 total of the slice |
| JPLMath.SumInt | JPLMath.cs:192-200 | the loop's result is the int total of the slice |
| JPLMath.SumI2 | JPLMath.cs:201-209 | the loop's result is the int2 total of the slice |
| JPLMath.SumI3 | JPLMath.cs:210-218 | the loop's result is the int3 total of the slice |
| JPLMath.SeqSumAppend | JPLMath.cs:165-173 | the total of a concatenation is the sum of the two totals |
| JPLMath.SeqSumRotate | JPLMath.cs:165-173 | swapping the two halves of a slice keeps its total |
| JPLMath.SeqSumBounds | JPLMath.cs:165-173 | n elements within [lo, hi] total within [n lo, n hi] |
| JPLMath.SeqSumV2Components | JPLMath.cs:174-182 | the float2 total is the pair of the x total and the y total |
| JPLMath.SeqSumV3Components | JPLMath.cs:183-191 | the float3 total is the triple of the per-component totals |
| JPLMath.SeqSumI2Components | JPLMath.cs:201-209 | the int2 total is the pair of the per-component totals |
| JPLMath.SeqSumI3Components | JPLMath.cs:210-218 | the int3 total is the triple of the per-component totals |
| JPLMath.Average | JPLMath.cs:149-153 | for a non-empty slice, the average times the length is the total |
| JPLMath.AverageV2 | JPLMath.cs:154-158 | for a non-empty slice, the float2 average scaled by the length is the total |
| JPLMath.AverageV3 | JPLMath.cs:159-163 | for a non-empty slice, the float3 average scaled by the length is the total |
| JPLMath.AverageWithinBounds | JPLMath.cs:149-153 | the average of values within [lo, hi] lies within [lo, hi] |
| JPLMath.Equal2 | JPLMath.cs:221-222 | true iff both arguments are equal |
| JPLMath.Equal3 | JPLMath.cs:224-225 | true iff all three arguments are equal |
| JPLMath.Equal4 | JPLMath.cs:227-228 | true iff all four arguments are equal |
| JPLMath.Equal5 | JPLMath.cs:230-231 | true iff all five arguments are equal |
| Intersections.Divide | Intersection.cs:87 | float division: a finite quotient times the divisor gives the dividend; division by zero is non-finite, and is >= 0 exactly when the dividend is positive |
| Intersections.Line2DToLine2D | Intersection.cs:9-25 | success iff \|perp(dir2, dir1)\| >= 0.001; on failure the distance is +infinity; on success it is finite and puts origin1 + t dir1 on line 2 |
| Intersections.LineParameterSolves | Intersection.cs:22-23 | the closed-form parameter puts the point of line 1 on line 2 |
| Intersections.Line2DToLine2DUnique | Intersection.cs:16-24 | on success, the returned parameter is the only one that puts line 1's point on line 2 |
| Intersections.SegmentToSegment | Intersection.cs:27-50 | (false, 0, 0) exactly when \|perp(dir1, dir2)\| < 0.001; otherwise the two parameters give the same point, and the result is true iff both lie in [0, 1] |
| Intersections.SegmentParametersMeet | Intersection.cs:45-48 | the two closed-form parameters name the same point on both lines |
| Intersections.SegmentToSegmentUnique | Intersection.cs:45-48 | a non-degenerate pair has exactly one pair of meeting parameters |
| Intersections.SegmentToSegmentSwap | Intersection.cs:37-49 | swapping the segments swaps the parameters and keeps the verdict |
| Intersections.SegmentsCrossingAtMidpoints | Intersection.cs:27-50 | two segments crossing at their midpoints give (true, 0.5, 0.5) |
| Intersections.RayToXZPlane | Intersection.cs:52-65 | \|dir.y\| <= 1e-5 gives (false, 0); otherwise origin.y + distance dir.y == 0 and the hit is distance >= 0 |
| Intersections.RayToXZPlaneHitCondition | Intersection.cs:52-65 | a hit iff the ray is not grazing and its origin is on the plane or on the side the ray points away from |
| Intersections.RayToXZPlaneStraightDown | Intersection.cs:52-65 | from (0,5,0), straight down hits at distance 5 and a horizontal ray misses |
| Intersections.RayToXZPlanePosition | Intersection.cs:67-79 | succeeds iff `RayToXZPlane` does; a hit point has y == 0 and lies on the ray at a parameter >= 0; otherwise the point is the zero vector |
| Intersections.HitPointOnPlane | Intersection.cs:86-87 | a parameter solving t dot(n, dir) == dot(k n - origin, n) puts the ray point on the plane dot(p, n) == k \|n\|^2 |
| Intersections.RayToPlane | Intersection.cs:84-89 | hit iff \|dot(n, dir)\| > 1e-5 and the distance is finite and >= 0; the distance is finite iff dot(n, dir) != 0; a finite distance puts the point on the plane dot(p, n) == k \|n\|^2 |
| Intersections.RayToPlaneThroughPoint | Intersection.cs:81-82 | the same hit condition; with a unit normal the hit point lies in the plane through pointOnPlane |
| Intersections.RayToPlaneThroughPointNonUnitNormal | Intersection.cs:81-82 | with the non-unit normal (0,2,0), the point (0,1,0) and a ray from the origin along +y, the distance is 4 and the hit point is off the plane through pointOnPlane |
| Arc.IsClockwise | Arc.cs:28-29 | false whenever v1 == v2, v1 == center or v2 == center |
| Arc.IsClockwiseIsNegativePerp | Arc.cs:28-29 | true iff perp(v1 - center, v2 - center) < 0 |
| Arc.IsClockwiseSwap | Arc.cs:28-29 | for non-collinear points, swapping v1 and v2 flips the answer; for collinear points both orders are false |
| Arc.IsClockwiseCyclic | Arc.cs:28-29 | relabelling (center, v1, v2) cyclically keeps the answer |
| Arc.IsClockwiseTranslation | Arc.cs:28-29 | translating all three points keeps the answer |
| PointIn.Sign | PointIn.cs:15-20 | `sign` gives -1, 0 or 1, positive and negative exactly with its argument |
| PointIn.Triangle | PointIn.cs:9-12 | a vertex is never inside |
| PointIn.TriangleNeverInside | PointIn.cs:9-12 | as written, the test is false for every point and every triangle |
| PointIn.TriangleExample | PointIn.cs:9-12 | (1,1) is outside the triangle (0,0), (2,0), (1,2) as written, and inside once corrected |
| PointIn.TriangleCorrected | PointIn.cs:9-12 | with the third edge v3->v1, a vertex is still never inside |
| PointIn.TriangleCorrectedCentroidInside | PointIn.cs:9-12 | with the corrected edge, the centroid of a triangle with perp(v2 - v1, v3 - v1) > 0 is inside |
| PointIn.TriangleExampleOutside | PointIn.cs:9-12 | (5,5) is outside the triangle (0,0), (2,0), (1,2) with the corrected edge |
| PointIn.TriangleCorrectedRotation | PointIn.cs:9-12 | the corrected test does not depend on which vertex is listed first |
| PointIn.TriangleTranslation | PointIn.cs:9-12 | translating the point and the triangle keeps both the as-written and the corrected verdict |
| PointIn.Quad | PointIn.cs:15-20 | true iff the four edge signs are all equal |
| PointIn.QuadRotation | PointIn.cs:15-20 | starting the vertex cycle at q2 keeps the answer |
| PointIn.QuadCollapsed | PointIn.cs:15-20 | a quad collapsed to one vertex accepts every point |
| PointIn.QuadConvexCentroidInside | PointIn.cs:14-20 | for a strictly convex quad in counter-clockwise order (each edge has both other vertices strictly on its left), the vertex centroid is inside |
| PointIn.QuadRejectsOppositeSides | PointIn.cs:15-20 | a point strictly right of edge q1->q2 and strictly left of edge q2->q3 is outside |
| PointIn.QuadExampleOutside | PointIn.cs:15-20 | (2, 0.5) is outside the unit square (0,0), (1,0), (1,1), (0,1) |
| PointIn.QuadTranslation | PointIn.cs:15-20 | translating the point and the quad keeps the answer |
| PointIn.RectMinMax | PointIn.cs:23-24 | true iff the point lies strictly inside the open box from rectMin to rectMax |
| PointIn.Rect | PointIn.cs:26-28 | a point on any edge line is outside, and nothing is inside unless left < right and bottom < top |
| PointIn.RectTranslation | PointIn.cs:26-28 | translating the point and the edges keeps the answer |
| PointIn.Circle | PointIn.cs:30-31 | a point exactly at distance \|radius\| is outside; a radius of 0 accepts nothing |
| PointIn.CircleAlongUnit | PointIn.cs:30-31 | along any unit direction from the centre, the point at parameter s is inside exactly when s^2 < radius^2, so every point strictly closer than \|radius\| is inside |
| PointIn.CircleRadiusSign | PointIn.cs:30-31 | radius and -radius give the same answer |
| PointIn.CircleTranslation | PointIn.cs:30-31 | translating the point and the centre keeps the answer |
| DistanceBetween.PointAndLine | Distance.cs:9-10 | non-negative, and equal to \|perp(lineDir, point - lineOrigin)\| |
| DistanceBetween.PointAndLineZeroOnLine | Distance.cs:9-10 | every point lineOrigin + k lineDir is at distance 0 |
| DistanceBetween.PointAndLineZeroOnlyOnLine | Distance.cs:9-10 | for a non-zero direction, distance 0 only for points of the line |
| DistanceBetween.PointAndLineSlideOrigin | Distance.cs:9-10 | sliding lineOrigin along lineDir keeps the result |
| DistanceBetween.PointAndLineScaleDirection | Distance.cs:9-10 | scaling lineDir by k scales the result by \|k\| |
| DistanceBetween.PointAndLineTranslation | Distance.cs:9-10 | translating the point and the line together keeps the result |
| DistanceBetween.PointAndLineIsDistance | Distance.cs:9-10 | for a unit direction, the squared result is the squared distance to the foot of the perpendicular |
| DistanceBetween.PointAndLineIsNearest | Distance.cs:9-10 | for a unit direction, no point of the line is nearer than the result |
| RunningAverages.Window | RunningAverage.cs:19-35 | the averaged window holds min(added, capacity) values, and before the buffer fills it is everything added, in order |
| RunningAverages.WindowSlides | RunningAverage.cs:19-24 | adding a value appends it to the window, dropping the oldest value once the window is full |
| RunningAverages.MeanWithinBounds | RunningAverage.cs:26-35 | the mean of a window of values within [lo, hi] lies within [lo, hi] |
| RunningAverages.AdvanceIsModulo | RunningAverage.cs:23 | advancing the write index modulo the capacity wraps from the last slot to 0 and otherwise adds 1 |
| RunningAverages.AddKeepsLayout | RunningAverage.cs:19-24 | a write at the write index, the saturating count and the wrapped index keep the layout invariant |
| RunningAverages.RotatedBufferSum | RunningAverage.cs:26-35 | a full buffer holding the window circularly has the window's total |
| RunningAverages.RunningAverage.constructor | RunningAverage.cs:12-17 | `frames` zeroed slots, count 0, write index 0, nothing added, invariant established |
| RunningAverages.RunningAverage.Add | RunningAverage.cs:19-24 | writes val at the old write index, changes no other slot, count becomes min(count + 1, capacity), index becomes (index + 1) % capacity, and the invariant holds |
| RunningAverages.RunningAverage.Get | RunningAverage.cs:26-35 | 0 before anything is added, otherwise the mean of the last min(added, capacity) values added |

## Left out

- Floating point: IEEE rounding, overflow, signed zero, and NaN or infinity inputs are not modelled. All arithmetic is exact over the reals. The literals 0.001f and 1e-5f are taken as the exact decimals 0.001 and 0.00001.
- `Divide` treats a zero divisor as unsigned: with a -0.0 divisor IEEE gives the opposite infinity, and the model does not.
- JPLMath `rotate`, `rotateX`, `rotateY` and `rotateZ` (sine and cosine), `ceilint` and `floorint` (float-to-int casts), and `sqr` are not part of this model.
- Code that needs `normalize`, `length`, `acos` or `sqrt` is not part of this model: `Arc.TryFindCenter`, `Arc.Length`, `Intersections.RayToRectangle3D` and `Rotation2D.HeadingToQuaternion`.
- `indexOfMin`, `indexOfMax`, `findMin` and `findMax` are generic over `IComparable<T>`; the model takes T = float and its numeric order.
- The Unity `Assert` that a slice is non-empty (`indexOfMin`, `indexOfMax`, `average`) becomes a precondition.
- `NativeSlice`/`NativeArray` allocation, `Allocator` and `RunningAverage.Dispose` are not modelled.
- JPLMath.SumInt: does not model 32-bit wrap-around; the total is an unbounded integer.
- JPLMath.SumI2: does not model 32-bit wrap-around of either component.
- JPLMath.SumI3: does not model 32-bit wrap-around of any component.
- RunningAverages.RunningAverage.constructor: requires frames > 0. With 0 frames the source's first `Add` fails on the buffer index and on `% 0`, and a negative size fails in the allocation.
- `RunningAverage` is a C# struct. A copy shares the native buffer but not `_count` and `_next`; the class model has one owner and does not capture that aliasing.

## Findings

`PointIn.Triangle` (PointIn.cs:9-12) carries no comment about winding. The code as written accepts no point at all, whatever the winding. The model follows the code, and `TriangleCorrected` is the evidently intended test.

| source | as written | input that shows it | evidently intended | confidence | as-written member | corrected member |
|---|---|---|---|---|---|---|
| PointIn.cs:12 | the third test uses the edge v3->v2, the reverse of the second test's v2->v3, so the second and third tests never both hold and `Triangle` is false for every input | triangle (0,0), (2,0), (1,2) with point (1,1): false, though the point is inside | the third edge v3->v1, closing the triangle | high; not executed | PointIn.TriangleNeverInside | PointIn.TriangleCorrectedCentroidInside |
