# Pysics collision core in Dafny

This project models the analytic core of the Pysics 2-D physics library's
narrow-phase collision detection, the Python package `core/math`, and proves
properties of the model:

- the two vector types: the rounding `Vector2d` of `core/math/vector2d.py` and the
  exact legacy one of `core/vector2d.py`;
- the geometry objects of `geometry_objects.py`: particles, rays, lines and
  segments, circles, ellipses, and the polygon family `ConvexPolygon`,
  `ConcavePolygon`, `Rectangle` and `Triangle` with their derived data;
- the `CollisionData` accumulator;
- the quadratic solver;
- the pair algorithms for line against line, line against circle or ellipse,
  line against polygon and circle against circle, and the ellipse heuristic;
- the polygon helpers: the convex hull, the Minkowski difference and the closest
  support point;
- the lookup of the `CollisionDetection` dispatcher, which would pick a routine
  by the classes of both operands if its module could be imported (see
  "## Left out": as written the import fails, so no call reaches the lookup).

Python floats are reals. `math.sqrt` is a parameter `sqrt: real -> real`. A lemma
that needs its meaning requires `IsSqrt(sqrt)`: `sqrt(x)` is the non-negative
root of every `x >= 0`. The vector constructor's `round(x, 4)` is written out
exactly, as round-half-to-even on the four-decimal grid. Every Python exception
the code can raise is an `Err` value of a `Result`, so each routine's error cases
are part of its contract.

Many routines are quirky or broken as written. Each is modelled as written, with
its error result, and the model states what it does. Some examples:

- the chained comparison `0 >= u <= 1`;
- the hull sort key that builds a `Line` from the pivot to itself;
- `max(None, x)` in the line-polygon accumulator;
- the deletion loop that shifts indices under itself.

Where a routine is evidently wrong, the model keeps the as-written version with
a counterexample beside it. It adds a corrected version under its own name
(`...Corrected`, `...Intended`, or the plain name where the as-written one is
`...AsWritten`), with the intended property proved about it. Every routine that
calls one of these routines calls the as-written version, as the source does:
the polygon constructor uses the extremes as written, `get_area_triangles` the
halved triangle area, the ellipse heuristic the as-written point builder, and
`Dispatch.IntersectionData` the as-written line routines. The corrected
versions stand beside them, and `Dispatch.IntersectionDataCorrected` is the
dispatcher built from them. These pairs are listed under "Findings".

`CollisionData` and the in-place `+=` and `-=` of both vector types are classes
whose methods update their fields. The loops of the source (polygon data, side
filters, accumulation, hull scan, searches, set building) are methods with loop
invariants. Each is proved to compute a specification function, and the
properties are proved about that function.

Modules, one file each: `Wrappers`, `RealMath`, `Vectors`, `LegacyVectors`,
`Primitives`, `Shapes`, `Polygons`, `Collisions`, `Quadratic`, `Lines`,
`LineEllipse`, `LinePolygon`, `Ellipses`, `ConvexHull`, `Minkowski`,
`SupportPoint`, `Dispatch`.

## Model

| member | source | states |
|---|---|---|
| RealMath.Max | core/math/geometry/collision_detection/line_ellipse/line_ellipse_penetration.py:34 | Python's `max` of two reals: an upper bound of both that is one of them |
| RealMath.Min | core/math/geometry/collision_detection/lines/lines_collision_detection.py:44 | Python's `min` of two reals: a lower bound of both that is one of them |
| RealMath.IsCloseSymmetric | core/math/vector2d.py:116-117 | `math.isclose` does not depend on the order of its operands |
| RealMath.IsCloseWithinTolerance | core/math/vector2d.py:116-117 | two values no further apart than the absolute tolerance are close |
| RealMath.IsCloseModerate | core/math/vector2d.py:116-117 | for values up to 10^7 and a tolerance of at least 0.01, closeness is exactly a distance within the absolute tolerance |
| RealMath.RoundHalfEven | core/math/vector2d.py:11-12 | rounding to an integer is at most half a unit off, and an exact tie goes to the even integer |
| RealMath.Round4 | core/math/vector2d.py:11-12 | `round(x, 4)` gives a four-decimal value within 0.00005 of x and leaves four-decimal values unchanged |
| RealMath.Round4Idempotent | core/math/vector2d.py:11-12 | rounding twice is rounding once |
| RealMath.OnGridClosed | core/math/vector2d.py:20-21 | four-decimal values are closed under sum, difference and negation, so adding rounded vectors needs no rounding |
| Vectors.Make | core/math/vector2d.py:10-12 | the constructor stores four-decimal coordinates, each within 0.00005 of the argument, and keeps four-decimal arguments exactly |
| Vectors.Scale | core/math/vector2d.py:14-15 | `scale` gives a rounded vector within 0.00005 per coordinate of the exact product |
| Vectors.Copy | core/math/vector2d.py:17-18 | `copy` gives a rounded vector equal to the original under `__eq__`, identical when the original is rounded |
| Vectors.Add | core/math/vector2d.py:20-24 | `add_vector` and `+` are the exact coordinate sum on rounded operands |
| Vectors.Sub | core/math/vector2d.py:57-61 | `subtract_vector` and `-` are the exact coordinate difference on rounded operands |
| Vectors.Inverse | core/math/vector2d.py:92-96 | `inverse` and unary `-` negate both coordinates of a rounded vector |
| Vectors.Perpendicular | core/math/vector2d.py:51-52 | `get_perpendicular_vector` is (y, -x) and orthogonal to the vector |
| Vectors.AddScaled | core/math/vector2d.py:54-55 | `add_scaled_vector` is within 0.00005 per coordinate of v + w * s |
| Vectors.SquaredMagnitudeNonNegative | core/math/vector2d.py:89-90 | the squared magnitude is never negative |
| Vectors.SquaredMagnitudePositive | core/math/vector2d.py:89-90 | the squared magnitude of a non-zero vector is positive |
| Vectors.ProjectOn | core/math/vector2d.py:32-37 | `project_on` raises ZeroDivisionError exactly for a zero target and otherwise scales the target by dot / squared length |
| Vectors.CosOfAngle | core/math/vector2d.py:39-43 | `get_cos_of_angle` raises ZeroDivisionError exactly when a magnitude is zero and otherwise divides the dot product by the product of the magnitudes |
| Vectors.Angle | core/math/vector2d.py:45-49 | `get_angle` passes the cosine's error on and otherwise returns the arc cosine in degrees |
| Vectors.Normalize | core/math/vector2d.py:98-109 | `normalize` gives (0, 0) for a zero magnitude and otherwise the rounded quotient by the magnitude |
| Vectors.ZeroIsNeutral | core/math/vector2d.py:14-24 | scaling the zero vector gives zero, and adding zero changes nothing |
| Vectors.CrossAntisymmetric | core/math/vector2d.py:69-76 | `cross` changes sign with the operand order and is zero for a vector with itself |
| Vectors.MagnitudeProperties | core/math/vector2d.py:81-84 | `get_magnitude` is the non-negative root of the squared magnitude, zero exactly for the zero vector |
| Vectors.MagnitudeZero | core/math/vector2d.py:81-84 | the magnitude is zero if and only if the vector is zero |
| Vectors.ProjectionResidualOrthogonal | core/math/vector2d.py:32-37 | the vector minus its exact projection is orthogonal to the target |
| Vectors.NormalizedIsUnit | core/math/vector2d.py:98-109 | the exact quotient `normalize` rounds has length one |
| Vectors.CosOfAngleBounded | core/math/vector2d.py:39-49 | every cosine `get_cos_of_angle` returns lies in [-1, 1], so `get_angle` never fails in `math.acos` |
| Vectors.MagnitudeProductBound | core/math/vector2d.py:78-84 | Cauchy-Schwarz: the dot product lies between minus and plus the product of the magnitudes |
| Vectors.LagrangeIdentity | core/math/vector2d.py:69-90 | the product of the squared magnitudes is the squared dot product plus the squared cross product |
| Vectors.CosOfAngleWithSelf | core/math/vector2d.py:39-43 | the cosine of a non-zero vector with itself is 1 |
| Vectors.ApproxEqReflexiveSymmetric | core/math/vector2d.py:111-120 | `__eq__` is reflexive and symmetric |
| Vectors.ApproxEqNotTransitive | core/math/vector2d.py:111-120 | `__eq__` is not transitive: (0, 0) == (0.01, 0) == (0.02, 0) but (0, 0) != (0.02, 0) |
| Vectors.ApproxEqModerate | core/math/vector2d.py:111-120 | for coordinates up to 10^7, `__eq__` holds exactly when both coordinates differ by at most 0.01 |
| Vectors.MutableVector2d.constructor | core/math/vector2d.py:10-12 | a new object holds the rounded coordinates |
| Vectors.MutableVector2d.AddInPlace | core/math/vector2d.py:26-30 | `+=` adds the coordinates in place without rounding and returns the same object; on rounded values it agrees with `+` |
| Vectors.MutableVector2d.SubtractInPlace | core/math/vector2d.py:63-67 | `-=` subtracts in place without rounding and returns the same object; on rounded values it agrees with `-` |
| Vectors.Dot | core/math/vector2d.py:78-79 | `dot_product`, x·x' + y·y'; its properties are proved in `ProjectionResidualOrthogonal` (the residual of a projection has dot 0 with the target), `LagrangeIdentity` and `MagnitudeProductBound` (Cauchy–Schwarz) |
| Vectors.Cross | core/math/vector2d.py:69-76 | `cross`, x·y' − y·x'; `CrossAntisymmetric` proves it antisymmetric and zero on a vector with itself, and `LagrangeIdentity` relates it to the dot product and the magnitudes |
| Vectors.Magnitude | core/math/vector2d.py:81-87 | `get_magnitude` and `__len__`: the square root parameter of the squared magnitude; `MagnitudeProperties`, `MagnitudeRoot` and `MagnitudeZero` prove it non-negative, the root of x² + y², and zero exactly for (0, 0) |
| Vectors.MagnitudeRoot | core/math/vector2d.py:81-84 | with a true square root the magnitude is non-negative and squares to x² + y² |
| Vectors.ApproxEq | core/math/vector2d.py:111-120 | `__eq__`: both coordinates `isclose` with absolute tolerance 0.01; `ApproxEqReflexiveSymmetric`, `ApproxEqNotTransitive` and `ApproxEqModerate` state reflexivity, symmetry, a non-transitive triple and the plain 0.01 test for moderate values |
| LegacyVectors.AddScaledVector | core/vector2d.py:29-30 | `add_scaled_vector` is the vector plus the other scaled by the factor |
| LegacyVectors.SubtractVector | core/vector2d.py:32-36 | `substract_vector` and `-` are undone by adding the subtrahend back |
| LegacyVectors.Inverse | core/vector2d.py:58-62 | `inverse` and unary `-` give the additive inverse, the vector scaled by -1 |
| LegacyVectors.Normalize | core/vector2d.py:64-75 | `normalize` gives (0, 0) for a zero magnitude and otherwise a vector that scaled by the magnitude is the original |
| LegacyVectors.EqIsEquality | core/vector2d.py:77-85 | `__eq__` compares both coordinates exactly, so it is value equality |
| LegacyVectors.SubtractUndoesAdd | core/vector2d.py:17-36 | subtracting what was added gives back the original |
| LegacyVectors.ScaleDistributes | core/vector2d.py:14-21 | `scale_vector` distributes over `add_vector` |
| LegacyVectors.ScaleByOne | core/vector2d.py:14-15 | scaling by 1 keeps the vector and scaling by 0 gives (0, 0) |
| LegacyVectors.NormalizeZero | core/vector2d.py:64-75 | normalizing (0, 0) gives (0, 0) |
| LegacyVectors.NormalizedIsUnit | core/vector2d.py:64-75 | a non-zero vector normalizes to a vector of length one |
| LegacyVectors.MutableVector2d.constructor | core/vector2d.py:10-12 | a new object keeps its coordinates as given |
| LegacyVectors.MutableVector2d.AddInPlace | core/vector2d.py:23-27 | `+=` updates the object to the sum and returns the same object |
| LegacyVectors.MutableVector2d.SubtractInPlace | core/vector2d.py:38-42 | `-=` updates the object to the difference and returns the same object |
| LegacyVectors.ScaleVector | core/vector2d.py:14-15 | `scale_vector` without rounding; `ScaleDistributes` and `ScaleByOne` prove it distributes over addition and is the identity at 1 and zero at 0, `DotBilinear` that the dot product is linear in it |
| LegacyVectors.AddVector | core/vector2d.py:17-21 | `add_vector` and `__add__` without rounding; `SubtractUndoesAdd` proves subtraction undoes it, `DotBilinear` that the dot product is additive over it |
| LegacyVectors.Dot | core/vector2d.py:44-45 | `dot_product`; `DotBilinear` proves it symmetric and linear, `MagnitudeOfDot` that a vector dotted with itself is its squared magnitude |
| LegacyVectors.Magnitude | core/vector2d.py:47-53 | `get_magnitude` and `__len__`; `MagnitudeOfDot` proves it non-negative, the root of the self dot product, and zero exactly for (0, 0) |
| LegacyVectors.Eq | core/vector2d.py:77-85 | `__eq__` compares coordinates exactly; `EqIsEquality` proves it is equality of vectors |
| LegacyVectors.DotBilinear | core/vector2d.py:44-45 | the dot product is symmetric, additive over `add_vector` and scales with `scale_vector` |
| LegacyVectors.MagnitudeOfDot | core/vector2d.py:44-53 | the self dot product is the squared magnitude; with a true square root the magnitude is non-negative, squares to it and is zero exactly for (0, 0) |
| LegacyVectors.MagnitudeRoot | core/vector2d.py:47-50 | with a true square root the magnitude is non-negative and squares to x² + y² |
| LegacyVectors.MagnitudeZeroIff | core/vector2d.py:47-50 | with a true square root the magnitude is zero exactly for (0, 0) |
| Primitives.MakePrimitive | core/math/geometry/geometry_objects.py:33-39 | constructing a ray, line or segment fails with AttributeError exactly when the two points are equal under `__eq__`, and otherwise keeps both points |
| Primitives.Slope | core/math/geometry/geometry_objects.py:53-60 | `get_slope` is the sentinel 100000 for a vertical primitive and otherwise the rise over the run |
| Primitives.YIntercept | core/math/geometry/geometry_objects.py:62-63 | `get_y_intercept` puts the first point on the line with that slope |
| Primitives.ValidDifferenceNonZero | core/math/geometry/geometry_objects.py:33-39 | the two points of a constructed primitive have a non-zero difference, so `project_on` never divides by zero |
| Primitives.Projection | core/math/geometry/geometry_objects.py:85-91 | the projection candidate of `get_closest_point`: the first point plus the projection of point - first on first - second, whose target is never zero |
| Primitives.MiddlePoint | core/math/geometry/geometry_objects.py:179-183 | `get_middle_point` is a rounded point within 0.00005 per coordinate of the exact midpoint |
| Primitives.Perpendicular | core/math/geometry/geometry_objects.py:98-100 | `get_perpendicular` keeps the kind and turns both points a quarter, failing exactly when the turned points are equal under `__eq__` (likewise at lines 134-136 and 185-187) |
| Primitives.PerpendicularOfRounded | core/math/geometry/geometry_objects.py:98-100 | on rounded points the perpendicular always exists and its vector is orthogonal to the original one |
| Primitives.PerpendicularDifference | core/math/geometry/geometry_objects.py:98-100 | the difference of two quarter-turned points is the quarter-turned difference, orthogonal to the original difference |
| Primitives.SlopeInterceptThroughPoints | core/math/geometry/geometry_objects.py:53-63 | the line from slope and intercept runs through the first point, and through the second unless the primitive is vertical |
| Primitives.SegmentContainsEndPoints | core/math/geometry/geometry_objects.py:148-160 | a non-vertical segment contains both of its points |
| Primitives.VerticalSegmentMissesSecondPoint | core/math/geometry/geometry_objects.py:148-160 | with the sentinel slope, a vertical segment of moderate coordinates longer than 0.01 does not contain its own second point |
| Primitives.LineClosestPointIsFoot | core/math/geometry/geometry_objects.py:127-132 | a line's closest point is within 0.00005 per coordinate of the exact foot of the perpendicular from the point, and the point minus that foot is orthogonal to the line |
| Primitives.FootResidualOrthogonal | core/math/vector2d.py:32-37 | the point minus the unrounded foot `first + onto * k`, with k the `project_on` ratio, is orthogonal to `onto` |
| Primitives.RoundedFoot | core/math/geometry/geometry_objects.py:127-132 | the rounded first-plus-projection that `get_closest_point` computes is within 0.00005 per coordinate of the unrounded foot |
| Primitives.SegmentClosestPointNearest | core/math/geometry/geometry_objects.py:162-177 | a segment's closest point is the projection when that belongs to the segment; otherwise it is an end point no farther from the point than either end, the first on a tie; for a non-vertical segment it always belongs to the segment |
| Primitives.RayClosestPointOnLine | core/math/geometry/geometry_objects.py:85-96 | the exact foot of the perpendicular from the point leaves a residual orthogonal to the ray; when the projection belongs to the ray and the points are on the four-place grid the closest point is within 0.00005 of that foot in each coordinate, otherwise it is the first point; either way it satisfies the ray's line equation |
| Primitives.FirstOnLineEquation | core/math/geometry/geometry_objects.py:65-77 | the first point of every primitive passes the line-equation test of `is_point_belongs` |
| Primitives.DistanceToPointNonNegative | core/math/geometry/geometry_objects.py:79-83 | `get_distance_to_point` is never negative |
| Primitives.AngleUsesReversedVector | core/math/geometry/geometry_objects.py:102-112 | `get_angle` uses first - second, the negation of the vector `get_cos_of_angle` uses, so its cosine has the opposite sign |
| Primitives.IsPointBelongs | core/math/geometry/geometry_objects.py:65-160 | `is_point_belongs` of the three classes: on the line equation within 0.01 for a line, also in the end points' bounding box for a segment, also with the ray's direction `__eq__` the normalized direction to the point for a ray; `SegmentContainsEndPoints`, `VerticalSegmentMissesSecondPoint` and `FirstOnLineEquation` state what it accepts and rejects |
| Primitives.ClosestPoint | core/math/geometry/geometry_objects.py:85-177 | `get_closest_point` of the three classes: the projection for a line; for a ray the projection if it belongs and the first point otherwise; for a segment the projection if it belongs and otherwise the end point nearer to the point; `LineClosestPointIsFoot` proves the line's result is within rounding of the foot of the perpendicular, `RayClosestPointOnLine` that the ray's result satisfies the line equation and is near that foot when the projection belongs, and `SegmentClosestPointNearest` that the segment's fallback is an end point no farther from the point than either end point, the first on a tie, and that the result belongs to a segment that is not vertical |
| Primitives.DistanceToPoint | core/math/geometry/geometry_objects.py:79-83 | `get_distance_to_point`, the magnitude from the point to its closest point; `DistanceToPointNonNegative` proves it non-negative, the circle tests `LineEllipse.IsIntersectLineCircle` compare it with the radius |
| Primitives.ProjectionNearFoot | core/math/geometry/geometry_objects.py:88-91 | the projection's residual is orthogonal to the primitive; on rounded points the projection is within rounding of the exact foot of the perpendicular |
| Shapes.MakeEllipse | core/math/geometry/geometry_objects.py:245-276 | instantiating `Ellipse` raises TypeError, since it leaves the abstract `get_support_point` undefined |
| Shapes.MaxRadius | core/math/geometry/geometry_objects.py:252-253 | `get_max_radius` is one of the radii and at least both |
| Shapes.MinRadius | core/math/geometry/geometry_objects.py:255-256 | `get_min_radius` is one of the radii and at most both |
| Shapes.EllipseEquation | core/math/geometry/geometry_objects.py:269-271 | the left-hand side x^2/a^2 + y^2/b^2 at the point itself, with ZeroDivisionError exactly for a zero radius |
| Shapes.EllipseContains | core/math/geometry/geometry_objects.py:267-276 | `Ellipse.is_point_belongs` fails exactly when the equation does and otherwise holds when the value is below 1 or close to 1 within 0.01 |
| Shapes.CircleContainsNearPoints | core/math/geometry/geometry_objects.py:228-235 | a circle contains its centre and every point no further from it than the radius |
| Shapes.CircleContainsModerate | core/math/geometry/geometry_objects.py:228-235 | for moderate sizes the circle test is exactly "distance at most radius + 0.01" |
| Shapes.CircleSupportPoint | core/math/geometry/geometry_objects.py:237-242 | `Circle.get_support_point` gives a point rounded to four places, as every `Vector2d` is (weaker than the source: see Left out) |
| Shapes.CircleSupportPointOfZero | core/math/geometry/geometry_objects.py:237-242 | the support point of a circle for the zero direction is its centre |
| Shapes.EllipseIgnoresCenter | core/math/geometry/geometry_objects.py:267-276 | the ellipse test does not depend on the centre |
| Shapes.EllipseContainsOrigin | core/math/geometry/geometry_objects.py:267-276 | an ellipse with non-zero radii contains the origin and rejects points whose equation value exceeds 1.01 |
| Shapes.EllipseWithEqualRadii | core/math/geometry/geometry_objects.py:267-276 | with equal radii r the equation value is x^2 + y^2 over r^2 |
| Quadratic.Root | core/math/quadratic_equation.py:23-24 | a component (-b ± d) / (2a) solves 2a x = -b ± d (likewise at lines 30) |
| Quadratic.TwoComponents | core/math/quadratic_equation.py:22-26 | `get_two_components` fails with ZeroDivisionError exactly for a = 0 and otherwise lists the -d root, then the +d root |
| Quadratic.OneComponent | core/math/quadratic_equation.py:29-31 | `get_one_component` fails with ZeroDivisionError exactly for a = 0 and otherwise lists the -d root |
| Quadratic.Solve | core/math/quadratic_equation.py:5-19 | None for a negative discriminant, ZeroDivisionError for a = 0 with a non-negative one, and otherwise two roots or one as the discriminant is positive or zero |
| Quadratic.CompletedSquare | core/math/quadratic_equation.py:18-19 | 4a times the polynomial is (2ax + b)^2 minus the discriminant |
| Quadratic.RootFromSquare | core/math/quadratic_equation.py:5-15 | a value making 2ax + b a square root of the discriminant is a root |
| Quadratic.SolveFindsRoots | core/math/quadratic_equation.py:5-31 | every value returned is a root of the polynomial |
| Quadratic.SolveFindsEveryRoot | core/math/quadratic_equation.py:5-31 | for a non-zero a, every real root is among the values returned |
| Quadratic.SolveAscending | core/math/quadratic_equation.py:22-26 | for a positive a and discriminant the two roots are in ascending order |
| Collisions.WithList | core/math/geometry/collision_detection/collision_data.py:13-16 | a result built from a list of points keeps exactly those points and that depth |
| Collisions.WithMaxDepth | core/math/geometry/collision_detection/collision_data.py:18-19 | `max(depth, penetration)` raises TypeError exactly when either is None and otherwise is the larger of the two, with the points untouched |
| Collisions.WithPoints | core/math/geometry/collision_detection/collision_data.py:21-22 | `list.extend` fails with AttributeError on a missing list and TypeError on a missing argument, and otherwise appends the new points after the old ones |
| Collisions.WithMaxDepthIdempotent | core/math/geometry/collision_detection/collision_data.py:18-19 | raising the depth twice to the same value changes nothing the second time |
| Collisions.WithMaxDepthCommutes | core/math/geometry/collision_detection/collision_data.py:18-19 | the order in which two depths arrive does not matter |
| Collisions.WithPointsAssociative | core/math/geometry/collision_detection/collision_data.py:21-22 | extending twice is extending once with the concatenation |
| Collisions.CollisionData.constructor | core/math/geometry/collision_detection/collision_data.py:13-16 | a new object holds the given points and depth |
| Collisions.CollisionData.SetMaxPenetrationDepth | core/math/geometry/collision_detection/collision_data.py:18-19 | the object's depth becomes the maximum, and nothing changes when `max` raises |
| Collisions.CollisionData.AddPointsOfIntersection | core/math/geometry/collision_detection/collision_data.py:21-22 | the new points go after the existing ones, and nothing changes when `extend` raises |
| Shapes.CircleContains | core/math/geometry/geometry_objects.py:228-235 | `Circle.is_point_belongs`: the distance to the centre is `isclose` to the radius or at most it; `CircleContainsNearPoints` proves the centre and every point within the radius belong, `CircleContainsModerate` that for moderate values it is the test distance ≤ radius + 0.01 |
| Shapes.CircleArea | core/math/geometry/geometry_objects.py:216-217 | `Circle.get_area`, π r²; `CircleIsRoundEllipse` proves it non-negative and equal to the area of the ellipse with both radii r |
| Shapes.EllipseArea | core/math/geometry/geometry_objects.py:258-265 | `Ellipse.get_area`, π a b; `EllipseAreaBetweenRadii` proves it lies between the areas of the circles on the smaller and the larger radius |
| Shapes.CircleIsRoundEllipse | core/math/geometry/geometry_objects.py:216-265 | a circle's area, height and width are those of the ellipse with both radii equal to its radius, and its area is non-negative |
| Shapes.EllipseAreaBetweenRadii | core/math/geometry/geometry_objects.py:258-259 | for non-negative radii, π min² ≤ the area ≤ π max² |
| Quadratic.Discriminant | core/math/quadratic_equation.py:18-19 | `get_discriminant`, b² − 4ac; `CompletedSquare` proves 4a times the polynomial is (2ax + b)² minus it, so `Solve` and `SolveFindsEveryRoot` show its sign decides the number of roots |
| Lines.PenetrCoeff | core/math/geometry/collision_detection/lines/lines_penetr_coeff.py:78-101 | `get_penetr_coeff` is None exactly for a zero determinant and otherwise t = t_numerator / den and u = -(u_numerator / den) |
| Lines.CrossingUnique | core/math/geometry/collision_detection/lines/lines_penetr_coeff.py:90-99 | Cramer's rule: any common point of the two parametric lines has t times the determinant equal to the t numerator and u times it equal to minus the u numerator, so the coefficients returned are the only ones |
| Lines.CrossingIdentity | core/math/geometry/collision_detection/lines/lines_penetr_coeff.py:90-96 | scaled by the determinant, the two parametric points agree coordinate by coordinate |
| Lines.CoefficientsMeet | core/math/geometry/collision_detection/lines/lines_penetr_coeff.py:78-101 | the parameters returned name the same point on both primitives |
| Lines.CoefficientsUnique | core/math/geometry/collision_detection/lines/lines_penetr_coeff.py:78-101 | for non-parallel primitives every common point is the one the solver names |
| Lines.SegmentRayCoeff | core/math/geometry/collision_detection/lines/lines_penetr_coeff.py:4-14 | the segment-ray filter accepts exactly t in [0, 1] and u at least 0 |
| Lines.LineRayCoeff | core/math/geometry/collision_detection/lines/lines_penetr_coeff.py:17-27 | the line-ray filter checks only u at least 0 |
| Lines.RayRayCoeff | core/math/geometry/collision_detection/lines/lines_penetr_coeff.py:30-40 | the ray-ray filter accepts exactly t and u at least 0 |
| Lines.SegmentSegmentCoeff | core/math/geometry/collision_detection/lines/lines_penetr_coeff.py:43-53 | the segment-segment filter accepts exactly t and u in [0, 1] |
| Lines.SegmentLineCoeff | core/math/geometry/collision_detection/lines/lines_penetr_coeff.py:56-66 | the segment-line filter checks only t in [0, 1] |
| Lines.LineLineCoeff | core/math/geometry/collision_detection/lines/lines_penetr_coeff.py:69-75 | the line-line filter returns the solver's answer unfiltered |
| Lines.SegmentsCrossWithinBoth | core/math/geometry/collision_detection/lines/lines_penetr_coeff.py:43-53 | two segments accepted by their filter meet at a point inside both |
| Lines.IntersectionPoints | core/math/geometry/collision_detection/lines/lines_inter_points.py:6-17 | a one-element list holding the rounded point first + t (second - first); u plays no part |
| Lines.IntersectionPointsAtEnds | core/math/geometry/collision_detection/lines/lines_inter_points.py:9-15 | t = 0 gives the first point and t = 1 the second |
| Lines.PenetrationLength | core/math/geometry/collision_detection/lines/lines_collision_detection.py:42-44 | the depth min(L - L t, L - (L - L t)) lies in [0, L/2] for t in [0, 1] |
| Lines.HalvesBound | core/math/geometry/collision_detection/lines/lines_collision_detection.py:42-44 | the smaller part of a length split at t is between 0 and half the length |
| Lines.PointData | core/math/geometry/collision_detection/lines/lines_collision_detection.py:11-18 | a no-depth routine's data is None exactly when its filter rejects and otherwise the crossing point with depth None |
| Lines.SegmentData | core/math/geometry/collision_detection/lines/lines_collision_detection.py:35-46 | a segment-first routine's data is None exactly when its filter rejects and otherwise the crossing point with the penetration length |
| Lines.LineLineData | core/math/geometry/collision_detection/lines/lines_collision_detection.py:11-18 | `get_inter_data_line_line` is the unfiltered crossing with depth None |
| Lines.LineRayData | core/math/geometry/collision_detection/lines/lines_collision_detection.py:21-28 | `get_inter_data_line_ray` is the crossing with u at least 0, depth None |
| Lines.RayRayData | core/math/geometry/collision_detection/lines/lines_collision_detection.py:61-68 | `get_inter_data_ray_ray` is the crossing with t and u at least 0, depth None |
| Lines.SegmentLineData | core/math/geometry/collision_detection/lines/lines_collision_detection.py:35-46 | `get_inter_data_segment_line` is the crossing with t in [0, 1] and the segment's penetration length |
| Lines.SegmentRayData | core/math/geometry/collision_detection/lines/lines_collision_detection.py:86-97 | `get_inter_data_segment_ray` is the crossing with t in [0, 1] and u at least 0, and the penetration length |
| Lines.SegmentSegmentData | core/math/geometry/collision_detection/lines/lines_collision_detection.py:71-83 | `get_inter_data_segment_segment` is the crossing within both segments and the first segment's penetration length |
| Lines.SegmentDepthBounded | core/math/geometry/collision_detection/lines/lines_collision_detection.py:42-46 | every segment-first depth lies between 0 and half the segment's length |
| Lines.CrossingSegmentsMeetAtTwoFour | tests/test_core/test_collision_detection/test_lines_collision.py:26-39 | the same two segments in either order report the single point (2, 4) |
| Lines.IsIntersectFiltered | core/math/geometry/collision_detection/lines/is_lines_intersect.py:9-24 | the line-line, line-ray and ray-ray tests hold exactly when their filter accepts (likewise at lines 49-55) |
| Lines.IsIntersectWithSegment | core/math/geometry/collision_detection/lines/is_lines_intersect.py:31-42 | as written, the line-segment test keeps the [0, 1]-filtered crossings with u at most 0, and the ray-segment test only u = 0 (likewise at lines 58-69) |
| Lines.IsIntersectSegmentSegmentOnlyAtStarts | core/math/geometry/collision_detection/lines/is_lines_intersect.py:76-87 | as written, the segment-segment test holds exactly when t = u = 0 |
| Lines.CrossingSegmentsTestFalse | core/math/geometry/collision_detection/lines/is_lines_intersect.py:76-87 | two segments crossing at (1, 1): the data reports the point but the test says they do not intersect |
| Lines.LineSegmentGap | core/math/geometry/collision_detection/lines/lines_distance.py:33-40 | the line-segment gap is the smaller of the two end-point distances |
| Lines.RaySegmentGap | core/math/geometry/collision_detection/lines/lines_distance.py:61-70 | the ray-segment gap is the least of three point distances |
| Lines.SegmentSegmentGap | core/math/geometry/collision_detection/lines/lines_distance.py:82-93 | the segment-segment gap is the least of the four end-point-to-other-segment distances |
| Lines.PointGapNonNegative | core/math/geometry/collision_detection/lines/lines_distance.py:10-11 | a point's distance to a primitive is never negative |
| Lines.DistancesSigned | core/math/geometry/collision_detection/lines/lines_distance.py:9-98 | every distance is built from a non-negative gap (a point-to-primitive distance, or the least of them): the gap itself when the matching `is_intersect_*` test fails and the negated gap when it holds |
| Lines.IsIntersectLineLine | core/math/geometry/collision_detection/lines/is_lines_intersect.py:9-15 | `is_intersect_line_line`: the line-line parameters exist; `IsIntersectFiltered` proves this holds exactly for a non-zero determinant |
| Lines.IsIntersectLineRay | core/math/geometry/collision_detection/lines/is_lines_intersect.py:18-24 | `is_intersect_line_ray`: the line-ray parameters exist; `IsIntersectFiltered` proves this holds exactly when the crossing has the ray parameter u ≥ 0 |
| Lines.IsIntersectRayLine | core/math/geometry/collision_detection/lines/is_lines_intersect.py:27-28 | `is_intersect_ray_line` swaps its operands onto the line-ray test; `ReversedFormsAgree` proves it holds exactly for the line-ray filter on the swapped pair |
| Lines.IsIntersectRayRay | core/math/geometry/collision_detection/lines/is_lines_intersect.py:49-55 | `is_intersect_ray_ray`: `IsIntersectFiltered` proves it holds exactly when both ray parameters are ≥ 0 |
| Lines.IsIntersectLineSegment | core/math/geometry/collision_detection/lines/is_lines_intersect.py:31-42 | `is_intersect_line_segment` as written, with the line handed to the segment-line filter and then the test `0 >= u <= 1`; `IsIntersectWithSegment` proves it holds exactly when the crossing has 0 ≤ t ≤ 1 and u ≤ 0 |
| Lines.IsIntersectSegmentLine | core/math/geometry/collision_detection/lines/is_lines_intersect.py:45-46 | `is_intersect_segment_line` swaps its operands onto the line-segment test; `ReversedFormsAgree` proves the same filter on the swapped pair |
| Lines.IsIntersectRaySegment | core/math/geometry/collision_detection/lines/is_lines_intersect.py:58-69 | `is_intersect_ray_segment` as written, the segment-ray filter and then `0 >= u <= 1`; `IsIntersectWithSegment` proves it holds exactly when the segment parameter is in [0, 1] and the ray parameter is exactly 0 |
| Lines.IsIntersectSegmentRay | core/math/geometry/collision_detection/lines/is_lines_intersect.py:72-73 | `is_intersect_segment_ray` swaps its operands onto the ray-segment test; `ReversedFormsAgree` proves the same filter on the swapped pair |
| Lines.IsIntersectSegmentSegment | core/math/geometry/collision_detection/lines/is_lines_intersect.py:76-87 | `is_intersect_segment_segment` as written, the segment-segment filter and then `0 >= t <= 1` and `0 >= u <= 1`; `IsIntersectSegmentSegmentOnlyAtStarts` proves it holds only when both parameters are 0, and `CrossingSegmentsTestFalse` gives two crossing segments where it is false |
| Lines.LineLineDistance | core/math/geometry/collision_detection/lines/lines_distance.py:9-16 | `get_distance_line_line`: the distance from the second line's first point to the first line, negated when `is_intersect_line_line` holds; `DistancesSigned` proves that sign rule with a non-negative gap |
| Lines.LineRayDistance | core/math/geometry/collision_detection/lines/lines_distance.py:19-26 | `get_distance_line_ray`: the distance from the ray's first point to the line, negated when the line-ray test holds; `DistancesSigned` proves the sign rule |
| Lines.RayLineDistance | core/math/geometry/collision_detection/lines/lines_distance.py:29-30 | `get_distance_ray_line` swaps its operands; `ReversedFormsAgree` proves the line-ray sign rule on the swapped pair |
| Lines.LineSegmentDistance | core/math/geometry/collision_detection/lines/lines_distance.py:33-46 | `get_distance_line_segment`: the nearer of the segment's end points to the line, negated when the line-segment test holds; `DistancesSigned` proves the sign rule |
| Lines.SegmentLineDistance | core/math/geometry/collision_detection/lines/lines_distance.py:48-49 | `get_distance_segment_line` swaps its operands; `ReversedFormsAgree` proves the line-segment sign rule on the swapped pair |
| Lines.RayRayDistance | core/math/geometry/collision_detection/lines/lines_distance.py:52-59 | `get_distance_ray_ray`: the distance between the two first points, negated when the ray-ray test holds; `DistancesSigned` proves the sign rule |
| Lines.RaySegmentDistance | core/math/geometry/collision_detection/lines/lines_distance.py:61-76 | `get_distance_ray_segment`: the least of the end-point distances to the ray and the ray's first point to the segment, negated when the ray-segment test holds; `DistancesSigned` proves the sign rule |
| Lines.SegmentRayDistance | core/math/geometry/collision_detection/lines/lines_distance.py:78-79 | `get_distance_segment_ray` swaps its operands; `ReversedFormsAgree` proves the ray-segment sign rule on the swapped pair |
| Lines.SegmentSegmentDistance | core/math/geometry/collision_detection/lines/lines_distance.py:82-98 | `get_distance_segment_segment`: the least of the four end-point distances, negated when the segment-segment test holds; `DistancesSigned` proves the sign rule |
| Lines.RayLineData | core/math/geometry/collision_detection/lines/lines_collision_detection.py:31-32 | `get_inter_data_ray_line` hands its operands unchanged to the line-ray routine; `ReversedDataAccepted` proves its data is the crossing the line-ray filter accepts, `Dispatch.RayLineAsWrittenCounterexample` shows the ray taken for the line |
| Lines.LineSegmentData | core/math/geometry/collision_detection/lines/lines_collision_detection.py:49-52 | `get_inter_data_line_segment` swaps its operands onto the segment-line routine; `ReversedDataAccepted` proves its data is the segment crossing with t in [0, 1] |
| Lines.RaySegmentData | core/math/geometry/collision_detection/lines/lines_collision_detection.py:55-58 | `get_inter_data_ray_segment` swaps its operands onto the segment-ray routine; `ReversedDataAccepted` proves its data is the segment crossing with t in [0, 1] and u ≥ 0 |
| Lines.ReversedFormsAgree | core/math/geometry/collision_detection/lines/is_lines_intersect.py:27-73 | the reversed tests and distances agree with the filter and the sign rule of the routine they forward to |
| Lines.ReversedDataAccepted | core/math/geometry/collision_detection/lines/lines_collision_detection.py:31-58 | the reversed data routines give the data of the crossing the forwarded filter accepts |
| LineEllipse.CircleCoefficients | core/math/geometry/collision_detection/line_ellipse/line_ellipse_inter_points.py:40-52 | the corrected circle coefficients have a positive leading term, so the quadratic solver is never handed a = 0 |
| LineEllipse.CirclePolynomial | core/math/geometry/collision_detection/line_ellipse/line_ellipse_inter_points.py:40-52 | the corrected coefficients give the polynomial (x - xc)^2 + (kx + m - yc)^2 - r^2, the circle equation along the line |
| LineEllipse.CircleCoefficientsMeaning | core/math/geometry/collision_detection/line_ellipse/line_ellipse_inter_points.py:40-52 | the corrected circle quadratic at x equals (x - xc)^2 + (kx + m - yc)^2 - r^2, so it vanishes exactly where the line meets the circle |
| LineEllipse.CircleCoefficientsAsWrittenCounterexample | core/math/geometry/collision_detection/line_ellipse/line_ellipse_inter_points.py:48-50 | with B and C as written, the x axis and the unit circle round (1, 0) give the root x = 1, and (1, 0) is the centre, not a point of the circle |
| LineEllipse.EllipseCoefficientsMeaning | core/math/geometry/collision_detection/line_ellipse/line_ellipse_inter_points.py:66-77 | the ellipse quadratic at x equals b^2 x^2 + a^2 (kx + m)^2 - a^2 b^2, the equation of the ellipse round the origin on the line; the centre plays no part |
| LineEllipse.EllipsePolynomial | core/math/geometry/collision_detection/line_ellipse/line_ellipse_inter_points.py:66-77 | the coefficients as written give the polynomial b^2 x^2 + a^2 (kx + m)^2 - a^2 b^2, the ellipse equation round the origin along the line, times a^2 b^2 |
| LineEllipse.GetYCoordinates | core/math/geometry/collision_detection/line_ellipse/line_ellipse_inter_points.py:55-63 | `get_y_coordinates_line` gives one y per x, in order: the line's y at that x |
| LineEllipse.LineYsOnLine | core/math/geometry/collision_detection/line_ellipse/line_ellipse_inter_points.py:55-63 | each (x, y) pair lies on the line through the first point with the line's slope, and through the second point unless the line is vertical |
| LineEllipse.LineYThroughPoints | core/math/geometry/collision_detection/line_ellipse/line_ellipse_inter_points.py:60 | the line's y at x, seen from either of the line's points |
| LineEllipse.Zip | core/math/geometry/collision_detection/line_ellipse/line_ellipse_inter_points.py:30 | `zip` gives as many pairs as the shorter list |
| LineEllipse.BuildPoints | core/math/geometry/collision_detection/line_ellipse/line_ellipse_inter_points.py:29-31 | the append loop builds one `Vector2d(x, y)` per zipped pair, in order |
| LineEllipse.DeletePointsOutsideAsWritten | core/math/geometry/collision_detection/line_ellipse/line_ellipse_inter_points.py:33-35 | the deletion loop as written: indices of the original length walk a list that `del` shortens |
| LineEllipse.KeepOnLine | core/math/geometry/collision_detection/line_ellipse/line_ellipse_inter_points.py:33-35 | the intended filter keeps only points of the list that belong to the primitive, and no more points than it had |
| LineEllipse.KeepOnLineKeepsBelonging | core/math/geometry/collision_detection/line_ellipse/line_ellipse_inter_points.py:33-35 | the intended filter keeps every point of the list that belongs to the primitive |
| LineEllipse.DeleteOutsideAsWrittenOnTwoPoints | core/math/geometry/collision_detection/line_ellipse/line_ellipse_inter_points.py:33-35 | on at most two points the loop as written agrees with the intended filter, except that two points with the first off the primitive raise IndexError |
| LineEllipse.DeleteOutsideAsWrittenCounterexample | core/math/geometry/collision_detection/line_ellipse/line_ellipse_inter_points.py:33-35 | the segment (1, 0)-(3, 0) with the crossings (0, 0) and (2, 0): as written IndexError, intended [(2, 0)] |
| LineEllipse.InterPointsIntended | core/math/geometry/collision_detection/line_ellipse/line_ellipse_inter_points.py:20-37 | the builder with the intended filter passes the solver's error on, gives None when the solver finds no real root, and otherwise returns only points that belong to the primitive |
| LineEllipse.InterPointsMember | core/math/geometry/collision_detection/line_ellipse/line_ellipse_inter_points.py:27-31 | every point the intended builder returns is `Vector2d(x, kx + m)` for the x at some index of the solver's list |
| LineEllipse.InterPointsIntendedFromRoots | core/math/geometry/collision_detection/line_ellipse/line_ellipse_inter_points.py:20-37 | with a true square root every point the intended builder returns is the rounding of (x, kx + m) for a root x of the quadratic |
| LineEllipse.InterPoints | core/math/geometry/collision_detection/line_ellipse/line_ellipse_inter_points.py:20-37 | the point builder as written passes the solver's error on and otherwise gives what the intended builder gives, except that it raises IndexError exactly when the quadratic has two roots and the point of the first is off the primitive |
| LineEllipse.InterPointsFromRoots | core/math/geometry/collision_detection/line_ellipse/line_ellipse_inter_points.py:20-37 | with a true square root every point the builder as written returns is the rounding of (x, kx + m) for a root x of the quadratic, and belongs to the primitive |
| LineEllipse.CircleLineInterPointsErrors | core/math/geometry/collision_detection/line_ellipse/line_ellipse_inter_points.py:10-12 | the circle builder as written fails exactly when the first of two crossings of its quadratic is off the primitive, and then with IndexError: its leading coefficient k^2 + 1 is never zero |
| LineEllipse.CircleLineInterPointsIntendedOnCircle | core/math/geometry/collision_detection/line_ellipse/line_ellipse_inter_points.py:10-12 | every point the intended circle builder (corrected coefficients, intended filter) returns rounds a point of the line that lies exactly on the circle |
| LineEllipse.UnitCircleRoots | core/math/geometry/collision_detection/line_ellipse/line_ellipse_inter_points.py:40-52 | for a primitive along the x axis and the unit circle round (1, 0) the as-written quadratic has the roots 0 and 1, the corrected one 0 and 2 |
| LineEllipse.CircleLineInterPointsCounterexample | core/math/geometry/collision_detection/line_ellipse/line_ellipse_inter_points.py:10-12 | the unit circle round (1, 0): as written, the x axis through (0, 0) and (2, 0) gives [(0, 0), (1, 0)], the centre among them, and the segment (1, 0)-(3, 0) raises IndexError; the intended builder gives [(2, 0)] on that segment |
| LineEllipse.CircleOnAxisSegment | core/math/geometry/collision_detection/line_ellipse/line_ellipse_inter_points.py:33-35 | on the segment (1, 0)-(3, 0) the as-written crossing (0, 0) is off the segment, so the builder raises IndexError, and of the corrected crossings only (2, 0) is kept |
| LineEllipse.CircleOnAxisSegmentIntended | core/math/geometry/collision_detection/line_ellipse/line_ellipse_inter_points.py:20-37 | with the corrected deletion the crossings (0, 0) and (2, 0) of the segment (1, 0)-(3, 0) leave just (2, 0) |
| LineEllipse.CircleOnAxisLine | core/math/geometry/collision_detection/line_ellipse/line_ellipse_inter_points.py:20-37 | on the unbounded x axis the as-written crossings (0, 0) and (1, 0) are both kept, as a line holds every point of itself |
| LineEllipse.CircleRootOnCircle | core/math/geometry/collision_detection/line_ellipse/line_ellipse_inter_points.py:40-52 | a root of the corrected circle quadratic gives a point of the circle |
| LineEllipse.EllipseLineInterPointsOnEllipse | core/math/geometry/collision_detection/line_ellipse/line_ellipse_inter_points.py:15-17 | every point the ellipse builder returns rounds a point of the line on the ellipse placed at the origin |
| LineEllipse.EllipseLineInterPointsCounterexample | core/math/geometry/collision_detection/line_ellipse/line_ellipse_inter_points.py:15-17 | the ellipse of radii 0.4 and the segment (0, 0)-(3, 0): the crossing x = -0.4 comes first and is off the segment, so the ellipse builder as written raises IndexError where the intended one gives [(0.4, 0)] |
| LineEllipse.SmallCircleOnSegment | core/math/geometry/collision_detection/line_ellipse/line_ellipse_inter_points.py:20-37 | on the segment (0, 0)-(3, 0) the roots -0.4 and 0.4 make the deletion loop raise IndexError, while the corrected deletion keeps (0.4, 0) |
| LineEllipse.EllipseRootOnEllipse | core/math/geometry/collision_detection/line_ellipse/line_ellipse_inter_points.py:66-77 | a root of the ellipse quadratic gives a point of the ellipse round the origin |
| LineEllipse.OnePointDepthFromNearerEnd | core/math/geometry/collision_detection/line_ellipse/line_ellipse_penetration.py:8-18 | the one-point depth is the distance from the point to an end of the line no farther from the centre than the other end |
| LineEllipse.OnePointDepthNonNegative | core/math/geometry/collision_detection/line_ellipse/line_ellipse_penetration.py:8-18 | with a true square root the one-point depth is never negative |
| LineEllipse.TwoPointDepth | core/math/geometry/collision_detection/line_ellipse/line_ellipse_penetration.py:21-45 | the two-point depth raises AttributeError when the two points coincide under `__eq__`, since the chord segment cannot be built |
| LineEllipse.TwoPointDepthThroughCenter | core/math/geometry/collision_detection/line_ellipse/line_ellipse_penetration.py:31-33 | a chord whose midpoint is the centre makes the segment to the centre raise AttributeError |
| LineEllipse.TwoPointDepthNonNegative | core/math/geometry/collision_detection/line_ellipse/line_ellipse_penetration.py:38-45 | a two-point depth that is returned is never negative |
| LineEllipse.LineShapeCircleData | core/math/geometry/collision_detection/line_ellipse/line_ellipse_collision_detection.py:14-25 | None exactly when the primitive is farther from the centre than the radius; otherwise the builder's points and the depth radius minus distance, or the builder's IndexError, which is the only error |
| LineEllipse.LineShapeCircleDepthBounded | core/math/geometry/collision_detection/line_ellipse/line_ellipse_collision_detection.py:18-21 | with a true square root a circle hit's depth lies between 0 and the radius |
| LineEllipse.SegmentCircleData | core/math/geometry/collision_detection/line_ellipse/line_ellipse_collision_detection.py:28-29 | `get_inter_data_segment_circle(circle, segment)` called with (segment, circle) hands the circle over as the line and raises AttributeError |
| LineEllipse.CircleSegmentData | core/math/geometry/collision_detection/line_ellipse/line_ellipse_collision_detection.py:32-33 | `get_inter_data_circle_segment` swaps its operands onto the routine above and raises the same AttributeError |
| LineEllipse.LineShapeEllipseData | core/math/geometry/collision_detection/line_ellipse/line_ellipse_collision_detection.py:56-67 | the ellipse builder's error passes on; no points give None; a single point takes the one-point depth; any data returned holds the builder's points and a depth |
| LineEllipse.IsIntersectLineCircleMatchesData | core/math/geometry/collision_detection/line_ellipse/is_line_ellipse_intersect.py:4-10 | the circle test holds exactly when the circle collision data is not None |
| LineEllipse.IsIntersectLineEllipse | core/math/geometry/collision_detection/line_ellipse/is_line_ellipse_intersect.py:17-26 | true exactly when the closest point is nearer to the centre than the smaller radius; otherwise AttributeError, since the vector to the centre is passed as a line; never false |
| LineEllipse.CircleCoefficientsAsWritten | core/math/geometry/collision_detection/line_ellipse/line_ellipse_inter_points.py:40-52 | `get_x_coord_line_circle` as written, B without the factor 2 and C with the centre's y counted twice; `CircleCoefficientsAsWrittenCounterexample` gives a root that is not on the circle, and `UnitCircleRoots` gives the roots 0 and 1 against the intended 0 and 2 |
| LineEllipse.DeleteOutsideAsWritten | core/math/geometry/collision_detection/line_ellipse/line_ellipse_inter_points.py:33-35 | the deletion loop as written; `DeletePointsOutsideAsWritten` computes it, `DeleteOutsideAsWrittenOnTwoPoints` proves it raises IndexError exactly when the first of two points is off the primitive and otherwise keeps the points on it, and `DeleteOutsideAsWrittenCounterexample` gives such an input |
| LineEllipse.EllipseCoefficients | core/math/geometry/collision_detection/line_ellipse/line_ellipse_inter_points.py:66-77 | `get_x_coord_line_ellipse`; `EllipseCoefficientsMeaning` proves the quadratic is the ellipse equation round the origin along the line, `EllipseRootOnEllipse` that its roots lie on that ellipse |
| LineEllipse.CircleLineInterPoints | core/math/geometry/collision_detection/line_ellipse/line_ellipse_inter_points.py:10-12 | `get_circle_line_intersection_points` as written; `CircleLineInterPointsErrors` proves it raises only IndexError, exactly when the deletion runs off the list, and `CircleLineInterPointsCounterexample` gives a wrong point on a line and an IndexError on a segment |
| LineEllipse.EllipseLineInterPoints | core/math/geometry/collision_detection/line_ellipse/line_ellipse_inter_points.py:15-17 | `get_ellipse_line_intersection_points`; `EllipseLineInterPointsOnEllipse` proves every point it returns lies on the line and on the ellipse round the origin, `EllipseLineInterPointsCounterexample` gives a segment where it raises IndexError |
| LineEllipse.CircleLineInterPointsIntended | core/math/geometry/collision_detection/line_ellipse/line_ellipse_inter_points.py:10-52 | the corrected circle builder; `CircleLineInterPointsIntendedOnCircle` proves every point it returns lies on the line and on the circle, `CircleOnAxisSegmentIntended` gives the one crossing a segment keeps |
| LineEllipse.OnePointDepth | core/math/geometry/collision_detection/line_ellipse/line_ellipse_penetration.py:8-18 | `get_penttr_depth_one_point_line_ellipse`; `OnePointDepthFromNearerEnd` proves it is the distance from the point to the end nearer the centre, `OnePointDepthNonNegative` that it is non-negative |
| LineEllipse.LineCircleData | core/math/geometry/collision_detection/line_ellipse/line_ellipse_collision_detection.py:36-45 | `get_inter_data_line_circle` and `get_inter_data_ray_circle` forward to `LineShapeCircleData`, whose contract gives no data beyond the radius, the points and radius minus distance otherwise, and IndexError only from the point builder |
| LineEllipse.CircleLineData | core/math/geometry/collision_detection/line_ellipse/line_ellipse_collision_detection.py:40-49 | the reversed circle routines swap their operands onto `LineCircleData` and so keep the contract of `LineShapeCircleData` |
| LineEllipse.LineEllipseData | core/math/geometry/collision_detection/line_ellipse/line_ellipse_collision_detection.py:70-91 | the segment, line and ray ellipse routines forward to `LineShapeEllipseData`, whose contract passes the builder's error on, gives no data without points and the one-point depth for one point |
| LineEllipse.EllipseLineData | core/math/geometry/collision_detection/line_ellipse/line_ellipse_collision_detection.py:74-91 | the reversed ellipse routines swap their operands onto `LineEllipseData` and so keep the contract of `LineShapeEllipseData` |
| LineEllipse.IsIntersectLineCircle | core/math/geometry/collision_detection/line_ellipse/is_line_ellipse_intersect.py:4-68 | `is_intersect_line_circle`, `is_intersect_ray_circle` and `is_intersect_segment_circle`: the primitive is no farther from the centre than the radius; `IsIntersectLineCircleMatchesData` proves this holds exactly when the data routine finds something |
| Ellipses.OneInterPoint | core/math/geometry/collision_detection/ellipses/ellipses_intersection_points.py:7-12 | `get_one_inter_point_circle_circle` returns a single rounded point; where it lies is stated by `Ellipses.OneInterPointNearTarget` |
| Ellipses.OneInterPointDirection | core/math/geometry/collision_detection/ellipses/ellipses_intersection_points.py:9-10 | with a true square root and distinct centres the exact direction to the second centre, the difference divided by its length, is a unit vector |
| Ellipses.OneInterPointTargetDistance | core/math/geometry/collision_detection/ellipses/ellipses_intersection_points.py:7-12 | the exact target, the first centre plus the first radius times that unit direction, lies at the first radius from the first centre |
| Ellipses.OneInterPointTargetOnSegment | core/math/geometry/collision_detection/ellipses/ellipses_intersection_points.py:7-12 | for a first radius between 0 and the distance of the centres the exact target is the fraction r / d of the way from the first centre to the second |
| Ellipses.OneInterPointNearTarget | core/math/geometry/collision_detection/ellipses/ellipses_intersection_points.py:7-12 | the returned point is within 0.00005 (1 + the absolute first radius) of the exact target in each coordinate: the normalised direction and the sum are each rounded to four decimals |
| Ellipses.ChordOffsetIsFirstRadius | core/math/geometry/collision_detection/ellipses/ellipses_intersection_points.py:20-25 | because d is the sum of the radii, the chord offset a is the first radius itself |
| Ellipses.ChordPoints | core/math/geometry/collision_detection/ellipses/ellipses_intersection_points.py:29-35 | the construction returns exactly two rounded points |
| Ellipses.ChordPointsAtZero | core/math/geometry/collision_detection/ellipses/ellipses_intersection_points.py:29-33 | with a zero half chord both points are (m.x, m.x): the y coordinates start from the middle point's x |
| Ellipses.TwoInterPoints | core/math/geometry/collision_detection/ellipses/ellipses_intersection_points.py:15-35 | `get_two_inter_points_circle_circle` returns two rounded points, and raises ZeroDivisionError when the radii sum to zero |
| Ellipses.TwoInterPointsCoincide | core/math/geometry/collision_detection/ellipses/ellipses_intersection_points.py:15-35 | with a true square root and a non-zero sum of radii the two points are one and the same, (m.x, m.x) for the middle point m |
| Ellipses.CircleCircleData | core/math/geometry/collision_detection/ellipses/ellipses_collision_detection.py:10-22 | None for a negative depth; one point and depth 0 for a zero depth; otherwise the two-point construction, its error passed on, with the depth |
| Ellipses.CircleCircleDataOutcome | core/math/geometry/collision_detection/ellipses/ellipses_collision_detection.py:10-22 | with a true square root it never raises, reports data exactly when the centres are no farther apart than the sum of the radii, with a non-negative depth, one point at that distance and two when nearer |
| Ellipses.FirstInterPoint | core/math/geometry/collision_detection/ellipses/ellipses_collision_detection.py:54-55 | `intersection_points[0]` succeeds exactly on data with a non-empty point list, gives its first point, and raises AttributeError on None |
| Ellipses.Crossings | core/math/geometry/collision_detection/ellipses/ellipses_collision_detection.py:49-55 | the crossing points of the segment with the first and the second shape, in the order of evaluation: an error of either routine passes on, None from the first raises AttributeError on indexing, and each point returned is one found by the ellipse point builder |
| Ellipses.EllipseMeeting | core/math/geometry/collision_detection/ellipses/ellipses_collision_detection.py:46-67 | as written: coinciding centres raise when the segment is built; an error of a crossing passes on; otherwise None exactly when the second shape's crossing point is farther from its centre than the first's, and else the two points and the distance between them |
| Ellipses.EllipseMeetingDepthNonNegative | core/math/geometry/collision_detection/ellipses/ellipses_collision_detection.py:65 | with a true square root the heuristic's depth is never negative |
| Ellipses.EllipseMeetingCounterexample | core/math/geometry/collision_detection/ellipses/ellipses_collision_detection.py:46-55 | the ellipses of radii 0.4 round the origin and 2.8 round (3, 0): the first crossing of the centre segment with the small one is off the segment, so the heuristic and `get_inter_data_ellipse_ellipse` raise IndexError |
| Ellipses.EllipseEllipseData | core/math/geometry/collision_detection/ellipses/ellipses_collision_detection.py:38-43 | as written: an error of the heuristic passes on; its None raises TypeError when indexed; otherwise data holding the first shape's point and the depth |
| Ellipses.CircleEllipseData | core/math/geometry/collision_detection/ellipses/ellipses_collision_detection.py:25-28 | always AttributeError: on the segment's construction for coinciding centres, otherwise from the circle passed as the line |
| Ellipses.EllipseCircleData | core/math/geometry/collision_detection/ellipses/ellipses_collision_detection.py:31-35 | the reversed routine calls the heuristic with the same operands and so has the same outcome |
| Ellipses.NearTargetX | core/math/geometry/collision_detection/ellipses/ellipses_intersection_points.py:7-12 | the abscissa of the one touching point is within 0.00005 times one plus the radius of the first centre plus the radius along the exact unit direction to the second centre |
| Ellipses.NearTargetY | core/math/geometry/collision_detection/ellipses/ellipses_intersection_points.py:7-12 | the ordinate of the one touching point is within the same bound of its exact target |
| ConvexHull.Lowest | core/math/geometry/convex_hull.py:53-64 | the point the loop settles on is in the list, and every point of the list is higher, or as high and no further left |
| ConvexHull.LowerPoint | core/math/geometry/convex_hull.py:53-64 | `get_lower_point` raises IndexError exactly on an empty list, and otherwise returns a lowest, then leftmost, point of the list |
| ConvexHull.GetLowerPoint | core/math/geometry/convex_hull.py:53-64 | the loop from `points[0]` computes exactly that result |
| ConvexHull.LowestIsExtreme | core/math/geometry/convex_hull.py:56-62 | no point of the list replaces the pivot: none is strictly lower, or as low and strictly further left |
| ConvexHull.SortKeys | core/math/geometry/convex_hull.py:48 | the sort keys raise AttributeError exactly when some point equals the pivot under `__eq__`; otherwise one key per point, the slope of the line from the pivot to it |
| ConvexHull.PivotKeyRaises | core/math/geometry/convex_hull.py:46-48 | since the pivot is found in the list, its own key raises |
| ConvexHull.SortClockwise | core/math/geometry/convex_hull.py:44-50 | a given pivot raises TypeError in `not lower_point`, since `Vector2d.__len__` returns a float; without one, an empty list raises IndexError and any other raises AttributeError at the pivot's own key |
| ConvexHull.LastMatch | core/math/geometry/convex_hull.py:18-22 | the rotation index is the last position holding a point equal to the pivot, 0 when there is none, and no later point equals the pivot |
| ConvexHull.FindPivotIndex | core/math/geometry/convex_hull.py:18-22 | the index loop computes exactly that index |
| ConvexHull.RotateDropsIndex | core/math/geometry/convex_hull.py:24 | the rotation has one point fewer and, as a multiset, is the list without the pivot's slot |
| ConvexHull.ScanStep | core/math/geometry/convex_hull.py:27-39 | a step pushes the next point and pops the previous top first exactly when the cross product of the last two edges is non-negative; the rest of the stack is unchanged |
| ConvexHull.ScanLoop | core/math/geometry/convex_hull.py:26-39 | the scan loop over a stack list with `del` and `append` computes exactly the step-by-step scan, IndexErrors included |
| ConvexHull.ScanFromPivotRaises | core/math/geometry/convex_hull.py:14 | the first step on the one-point stack `[lower_point]` reads `[-2]` and raises IndexError (likewise at lines 27) |
| ConvexHull.ScanKeepsBottom | core/math/geometry/convex_hull.py:26-39 | from a stack of at least two points with enough points left, the scan succeeds, keeps the bottom point, stays at two points or more, grows by at most one per step, and holds only points it was given |
| ConvexHull.HullFromSorted | core/math/geometry/convex_hull.py:14-41 | whatever non-empty sorted list it is given, the scan raises IndexError |
| ConvexHull.HullFromEmptySorted | core/math/geometry/convex_hull.py:14-41 | an empty sorted list leaves the one-point stack, which `ConvexPolygon` refuses |
| ConvexHull.CreateConvexHull | core/math/geometry/convex_hull.py:7-41 | `create_convex_hull` raises IndexError on an empty collection and TypeError on every other |
| Minkowski.DifferenceAsWritten | core/math/geometry/collision_detection/polygons/minkowski_difference_of_polygons.py:6-14 | as written the result is an error exactly when both lists are non-empty, the TypeError of an unhashable `Vector2d`; otherwise the empty set |
| Minkowski.PolygonsDifferenceAsWritten | core/math/geometry/collision_detection/polygons/minkowski_difference_of_polygons.py:6-14 | the nested loops as written compute exactly that result |
| Minkowski.DifferenceAsWrittenCounterexample | core/math/geometry/collision_detection/polygons/minkowski_difference_of_polygons.py:12 | two one-point lists already raise, where the difference is the set {(1, 1)} |
| Minkowski.PolygonsDifference | core/math/geometry/collision_detection/polygons/minkowski_difference_of_polygons.py:6-14 | with hashable points the loops build exactly the set of all differences a - b, and hold at most \|first\| * \|second\| points |
| Minkowski.DifferencesSnoc | core/math/geometry/collision_detection/polygons/minkowski_difference_of_polygons.py:9-12 | appending a point to the first list adds its row of differences |
| Minkowski.DifferencesBound | core/math/geometry/collision_detection/polygons/minkowski_difference_of_polygons.py:9-12 | there are at most \|first\| * \|second\| differences |
| SupportPoint.FirstMin | core/math/geometry/collision_detection/polygons/get_closest_polygons_point.py:11-19 | the position a search settles on: None exactly when no distance is below the start bound; otherwise below the bound, a minimum, and strictly smaller than every earlier distance |
| SupportPoint.FirstMinSnoc | core/math/geometry/collision_detection/polygons/get_closest_polygons_point.py:17-19 | one more distance moves the choice exactly when it is strictly smaller than the current best |
| SupportPoint.NearestLoop | core/math/geometry/collision_detection/polygons/get_closest_polygons_point.py:11-19 | a search loop from 100000 and None computes exactly the first nearest candidate (likewise at lines 23-32) |
| SupportPoint.Distances | core/math/geometry/collision_detection/polygons/get_closest_polygons_point.py:14-15 | one distance per polygon point, each the magnitude of the point minus the given point |
| SupportPoint.SidePoints | core/math/geometry/collision_detection/polygons/get_closest_polygons_point.py:26-28 | one closest point per side, each that side's `get_closest_point` |
| SupportPoint.GetClosestSupportPoint | core/math/geometry/collision_detection/polygons/get_closest_polygons_point.py:4-34 | `get_closest_support_point` computes exactly the two searches with the sides from `get_side_with_point` between them |
| SupportPoint.NearestIsFirstMinimum | core/math/geometry/collision_detection/polygons/get_closest_polygons_point.py:14-19 | the search gives None exactly when every candidate is at least 100000 away, and otherwise a first nearest candidate |
| SupportPoint.ClosestSupportPointOnNearSide | core/math/geometry/collision_detection/polygons/get_closest_polygons_point.py:4-34 | no nearest vertex means no result; a result is the closest point of a side ending at the nearest vertex, and no such side has a nearer one |
| SupportPoint.SidesNear | core/math/geometry/collision_detection/polygons/get_closest_polygons_point.py:21 | None as the vertex matches no side; otherwise the sides `get_side_with_point` finds |
| SupportPoint.Nearest | core/math/geometry/collision_detection/polygons/get_closest_polygons_point.py:11-19 | the search loop's vertex; `NearestLoop` computes it, `NearestIsFirstMinimum` proves it is None exactly when no vertex is nearer than 100000 and otherwise the first vertex of least distance |
| SupportPoint.ClosestSupportPoint | core/math/geometry/collision_detection/polygons/get_closest_polygons_point.py:4-34 | the whole search; `GetClosestSupportPoint` computes it, `ClosestSupportPointOnNearSide` proves it is None without a near vertex and otherwise the closest point on a side through that vertex, no farther than the closest point on any such side |
| Minkowski.Differences | core/math/geometry/collision_detection/polygons/minkowski_difference_of_polygons.py:6-14 | the intended difference set; `PolygonsDifference` proves its loop builds exactly every first minus second, `DifferencesSnoc` how one more point extends it, `DifferencesBound` that it has at most the product of the sizes, `DifferenceAsWrittenCounterexample` that the code as written raises where this set is non-empty |
| ConvexHull.Rotate | core/math/geometry/convex_hull.py:24 | `points[index + 1:] + points[:index]`; `RotateDropsIndex` proves it is one shorter and, with the pivot added back, the same multiset of points |
| ConvexHull.Scan | core/math/geometry/convex_hull.py:26-39 | the scan loop from step i; `ScanLoop` computes it, `ScanFromPivotRaises` proves that from the one-point stack it raises IndexError, `ScanKeepsBottom` that from two or more points it succeeds, keeps the bottom point, grows by at most one point a step and holds only stack or input points |
| Polygons.DecimalString | core/math/geometry/geometry_objects.py:290 | `str(n)` of a count is a non-empty string |
| Polygons.Next | core/math/geometry/geometry_objects.py:368-372 | the index after i wraps round to 0 and stays within the points |
| Polygons.ScanMaxXSound | core/math/geometry/geometry_objects.py:322-325 | the max-x bound is set by the first point and no point lies beyond it |
| Polygons.ScanMinXSound | core/math/geometry/geometry_objects.py:327-329 | with every point tried, the min-x bound is set by the first point and no point lies below it |
| Polygons.ScanMaxYSound | core/math/geometry/geometry_objects.py:331-333 | the max-y bound is set by the first point and no point lies above it |
| Polygons.ScanMinYSound | core/math/geometry/geometry_objects.py:335-337 | with every point tried, the min-y bound is set by the first point and no point lies below it |
| Polygons.MostDistantPointsAreExtreme | core/math/geometry/geometry_objects.py:306-339 | the corrected extremes of a non-empty list are points of the list with the largest and smallest x and y |
| Polygons.MostDistantPointsAsWrittenMissesMinimum | core/math/geometry/geometry_objects.py:323-329 | as written, on (-3, 0), (-2, 1), (-1, 0) every point raises max x, so min x stays the initial (0, 0) and the width is -1, while the corrected scan gives 2 |
| Polygons.ScanAsWrittenMaxima | core/math/geometry/geometry_objects.py:322-337 | the `elif` leaves the maxima alone: the scan as written sets max x and max y to the same points as the intended scan |
| Polygons.RaisesAtLast | core/math/geometry/geometry_objects.py:322-333 | the last point raises the running maximum of x (of y) exactly when it lies strictly beyond every earlier point |
| Polygons.ScanAsWrittenMinX | core/math/geometry/geometry_objects.py:322-329 | min x as written stays unset (the initial (0, 0)) exactly when every point raises max x; otherwise it is a point of the list no farther right than any point that did not raise max x |
| Polygons.ScanAsWrittenMinY | core/math/geometry/geometry_objects.py:331-337 | the same for min y against the points that raise max y |
| Polygons.MostDistantPointsAsWrittenBounds | core/math/geometry/geometry_objects.py:306-339 | the extremes as written of a non-empty list: the maxima are points with the largest coordinates; each minimum is (0, 0) exactly when every point raised the maximum, and otherwise a point of the list |
| Polygons.GetTheMostDistantPoints | core/math/geometry/geometry_objects.py:306-339 | the loop as written, with each minimum tried only when the point does not raise the maximum, computes exactly the extremes as written |
| Polygons.SidesUpTo | core/math/geometry/geometry_objects.py:365-376 | the sides join each point to the next, the last to the first; the list fails exactly when two consecutive points coincide under `__eq__`, with the segment's AttributeError |
| Polygons.GetSides | core/math/geometry/geometry_objects.py:365-376 | the loop of `get_sides` computes exactly those sides |
| Polygons.CentroidOf | core/math/geometry/geometry_objects.py:378-407 | the centroid raises ZeroDivisionError exactly when the signed area is zero |
| Polygons.CentroidBalancesMoments | core/math/geometry/geometry_objects.py:403-405 | the centroid times six times the signed area gives back the first moments |
| Polygons.GetCentroid | core/math/geometry/geometry_objects.py:378-407 | the loop over consecutive pairs and the closing pair, with unrounded field updates, computes exactly that centroid |
| Polygons.DiagonalsUpTo | core/math/geometry/geometry_objects.py:409-415 | one segment from the centroid to each point, failing exactly when the centroid equals a point |
| Polygons.GetDiagonals | core/math/geometry/geometry_objects.py:409-415 | the loop of `get_diagonals` computes exactly those segments |
| Polygons.CrossProducts | core/math/geometry/geometry_objects.py:485-491 | one cross product per pair of consecutive sides, the last side not paired with the first |
| Polygons.IsConcave | core/math/geometry/geometry_objects.py:479-499 | `is_concave` is true exactly when some consecutive cross product has the sign opposite to the first |
| Polygons.HasOppositeSign | core/math/geometry/geometry_objects.py:493-499 | the second loop returns true exactly when some product's sign is opposite to the first's |
| Polygons.SupportUpToSound | core/math/geometry/geometry_objects.py:509-520 | the scan state after k points is the first point of largest dot product above -1 among them |
| Polygons.SupportPointIsFirstMaximum | core/math/geometry/geometry_objects.py:509-520 | `get_support_point` gives None exactly when no dot product exceeds -1, and otherwise the first point with the largest product |
| Polygons.SupportProductAboveStart | core/math/geometry/geometry_objects.py:516-518 | once a point is found its product is above the starting -1 |
| Polygons.GetSupportPoint | core/math/geometry/geometry_objects.py:509-520 | the loop computes exactly that support point |
| Polygons.SidesWithPoint | core/math/geometry/geometry_objects.py:501-507 | the sides with an end point equal to the point under `__eq__`: only those, and all of them |
| Polygons.GetSideWithPoint | core/math/geometry/geometry_objects.py:501-507 | the loop of `get_side_with_point` computes exactly those sides, in order |
| Polygons.MakeTriangle | core/math/geometry/geometry_objects.py:591-597 | `Triangle` raises AttributeError with the count unless given exactly three points, and a triangle it builds holds them |
| Polygons.TrianglesUpTo | core/math/geometry/geometry_objects.py:341-363 | the fan `triangulate(points[0])` builds: [p0, p_i, p_(i+1)] for i from 2, skipping the vertex and its neighbours, so [p0, p1, p2] is never built |
| Polygons.FanStep | core/math/geometry/geometry_objects.py:360-361 | one more index adds its triangle, or the triangle's error |
| Polygons.TrianglesErrorPersists | core/math/geometry/geometry_objects.py:345-361 | once a triangle fails, the fan's result stays that error |
| Polygons.Assemble | core/math/geometry/geometry_objects.py:292-304 | with three points or more the constructor's data is computed in order; a polygon built keeps the kind, the points, the extremes as written and a fan; a concave polygon always fails |
| Polygons.MakePolygon | core/math/geometry/geometry_objects.py:281-304 | fewer than three points raise the count Exception; a concave polygon never builds; a polygon built holds its points, kind, the extremes as written and a fan |
| Polygons.PolygonParts | core/math/geometry/geometry_objects.py:281-304 | a built polygon is not concave, and its sides, centroid, diagonals and fan are those of its points |
| Polygons.MakeConcavePolygon | core/math/geometry/geometry_objects.py:534-551 | `ConcavePolygon` never succeeds: non-concave points raise and concave ones reach the self-intersection check, which calls a method segments lack |
| Polygons.Triangulate | core/math/geometry/geometry_objects.py:341-363 | the loop of `triangulate` computes exactly the fan up to the last index |
| Polygons.Construct | core/math/geometry/geometry_objects.py:281-304 | the constructor step by step computes exactly `MakePolygon` |
| Polygons.PolygonContains | core/math/geometry/geometry_objects.py:463-477 | `is_point_belongs` always raises AttributeError: rays have no `get_intersection_data` |
| Polygons.MakeRectangle | core/math/geometry/geometry_objects.py:559-565 | a rectangle built has its width and height in its kind and the corners of `get_corners` for points; `Polygons.RectangleCornersExact` says what those corners are |
| Polygons.RectangleCornersExact | core/math/geometry/geometry_objects.py:567-577 | for a rounded corner (x, y) the corners are (x, y), (x + w, y), (round(x + w, 4), y - h), (x, y - h): the right lower corner is a copy of the right upper one, and the copy rounds; when x + w is on the four-decimal grid they are the rectangle's vertices |
| Polygons.RectangleOffGridCorner | core/math/geometry/geometry_objects.py:567-577 | `Rectangle(Vector2d(0, 0), 0.123456, 1.0)` has the right upper corner (0.123456, 0) but the right lower one (0.1235, -1), so the shoelace area of its corners is not width times height |
| Polygons.GetAreaAsWritten | core/math/geometry/geometry_objects.py:425-439 | the two loops over the reversed sides compute exactly half the sum of both products |
| Polygons.ShoelaceArea | core/math/geometry/geometry_objects.py:426-428 | the shoelace area is non-negative and is the signed area up to sign |
| Polygons.QuadrilateralSignedArea | core/math/geometry/geometry_objects.py:426-428 | the signed area of four points, edge by edge |
| Polygons.RectangleEdgeCrosses | core/math/geometry/geometry_objects.py:567-577 | twice the signed area of the corners (x, y), (x + w, y), (rx, y - h), (x, y - h), in the source's order, is -h (w + rx - x) |
| Polygons.RectangleShoelaceArea | core/math/geometry/geometry_objects.py:567-580 | the shoelace area of the corners (x, y), (x + w, y), (rx, y - h), (x, y - h) is half the absolute value of h (w + rx - x), and w h when rx = x + w and the sides are non-negative |
| Polygons.RectangleExtremes | core/math/geometry/geometry_objects.py:567-586 | for positive sides the extremes as written span the height, and in x from the smaller to the larger of x and the rounded right lower x, on the one side, and x + w, on the other: the width when x + w is on the grid |
| Polygons.RectangleOverridesAgree | core/math/geometry/geometry_objects.py:582-586 | for positive sides the `get_height` override equals the height span of the extremes, and the `get_width` override the width span when x + w is on the grid |
| Polygons.RectangleAreaOverrideAgrees | core/math/geometry/geometry_objects.py:579-580 | for non-negative sides with x + w on the grid the `get_area` override, w h, is the shoelace area of the constructed rectangle's corners, the corrected area |
| Polygons.ConstructedRectangleArea | core/math/geometry/geometry_objects.py:579-580 | a rectangle whose points are its four exact vertices has `get_area` equal to their shoelace area |
| Polygons.RectangleSides | core/math/geometry/geometry_objects.py:559-577 | a constructed rectangle's four sides run from (x, y) to (x + w, y), (round(x + w, 4), y - h), (x, y - h) and back |
| Polygons.RectangleInheritedArea | core/math/geometry/geometry_objects.py:425-439 | on the four sides with right lower x rx the inherited `BasePolygon.get_area` gives (6xy + 2wy + 2 rx y - 3xh - wh - rx h) / 2, which is 4xy + 2wy - 2xh - wh, not w h, when rx = x + w |
| Polygons.TriangleSignedArea | core/math/geometry/geometry_objects.py:426-428 | the signed area of three points, edge by edge |
| Polygons.TriangleSides | core/math/geometry/geometry_objects.py:365-376 | the three sides of a triangle when they can be built |
| Polygons.TriangleNeverConcave | core/math/geometry/geometry_objects.py:525-529 | both cross products of a triangle's sides are the same number, so `Triangle` never raises the convexity error |
| Polygons.ConcaveTestPointsConcave | core/math/geometry/geometry_objects.py:479-499 | the concave test polygon's sides turn both ways |
| Polygons.ConvexPolygonRejectsConcaveTestPoints | core/math/geometry/geometry_objects.py:525-529 | `ConvexPolygon` rejects the concave test polygon |
| Polygons.FourSideSums | core/math/geometry/geometry_objects.py:433-437 | the sums of `get_area` over four sides, term by term |
| Polygons.SquareSides | core/math/geometry/geometry_objects.py:365-376 | the sides of the unit square from (1, 1) |
| Polygons.AreaAsWrittenCounterexample | core/math/geometry/geometry_objects.py:430-439 | on the unit square from (1, 1) `get_area` as written gives 9, the shoelace area 1 |
| Polygons.SquareShoelace | core/math/geometry/geometry_objects.py:426-428 | the shoelace area of the unit square from (1, 1) is 1 |
| Polygons.RightTriangleSides | core/math/geometry/geometry_objects.py:608-615 | the side lengths of the 3-4-5 triangle at the origin |
| Polygons.TriangleAreaAsWrittenCounterexample | core/math/geometry/geometry_objects.py:599-606 | on the 3-4-5 triangle `Triangle.get_area` as written gives 3, while Heron's formula and the shoelace area give 6 |
| Polygons.RightTriangleShoelace | core/math/geometry/geometry_objects.py:426-428 | the shoelace area of the 3-4-5 triangle is 6 |
| Polygons.HeronExpansion | core/math/geometry/geometry_objects.py:602-604 | sixteen times Heron's product in terms of the squared sides |
| Polygons.HeronOfSides | core/math/geometry/geometry_objects.py:602-604 | Heron's product of the side lengths is the square of half the cross product |
| Polygons.SideLengths | core/math/geometry/geometry_objects.py:608-615 | with a true square root the side lengths are roots of the squared lengths of the side vectors |
| Polygons.TriangleAreaIsHalfCross | core/math/geometry/geometry_objects.py:599-606 | the corrected triangle area is half the absolute cross product of two sides |
| Polygons.TriangleShoelaceIsHalfCross | core/math/geometry/geometry_objects.py:426-428 | the shoelace area of a triangle is half the absolute cross product of two sides |
| Polygons.HeronMatchesShoelace | core/math/geometry/geometry_objects.py:599-606 | Heron's formula, as corrected, gives the shoelace area of any triangle of rounded points |
| Polygons.TriangleAreaAsWritten | core/math/geometry/geometry_objects.py:599-606 | `Triangle.get_area` as written is exactly half of Heron's area |
| Polygons.Area | core/math/geometry/geometry_objects.py:425-439 | `get_area` as written, by kind: a rectangle's override equals the corrected area and a triangle's is half the corrected area |
| Polygons.GetAreaTriangles | core/math/geometry/geometry_objects.py:417-423 | the loop sums `get_area` as written over the fan, in order (for triangles the halved Heron area), and raises TypeError on the absent fan of a concave polygon |
| Polygons.TrianglesAreaHalved | core/math/geometry/geometry_objects.py:417-421 | over triangles of three points the sum as written is exactly half the sum of their corrected areas |
| Polygons.ConstructedFanAreaHalved | core/math/geometry/geometry_objects.py:417-423 | for a built polygon the fan is present, every triangle has an area, and the sum as written is half the corrected sum |
| Polygons.ConstructedFan | core/math/geometry/geometry_objects.py:341-363 | a built polygon of n points has n - 3 triangles of three points, [p0, p_i, p_(i+1)] for i from 2 to n - 2 |
| Polygons.ConstructedExtents | core/math/geometry/geometry_objects.py:441-449 | outside a rectangle, `get_height` and `get_width` are the spans of the extremes as written: every point is at or below the maxima; a span is non-negative when its minimum was set, and equals the maximum itself, of either sign, when every point raised the maximum |
| Polygons.MostDistantPoints | core/math/geometry/geometry_objects.py:306-339 | the four extreme points as intended; `MostDistantPointsAreExtreme` proves each is one of the points and that every point lies between the extremes in x and in y |
| Polygons.MostDistantPointsAsWritten | core/math/geometry/geometry_objects.py:306-339 | `get_the_most_distant_points` as written, with the minimum tests on the else branches of the maximum tests; `GetTheMostDistantPoints` computes it, `MostDistantPointsAsWrittenBounds` proves the maxima right and a minimum left at the origin exactly when every point raises the maximum, `MostDistantPointsAsWrittenMissesMinimum` gives such an input |
| Polygons.Height | core/math/geometry/geometry_objects.py:441-444 | `get_height`; `ConstructedExtents` proves it is the y span of the constructed polygon's extremes, at least 0 unless the minimum was never set, and `RectangleOverridesAgree` that a rectangle's stored height is that span too |
| Polygons.Width | core/math/geometry/geometry_objects.py:446-449 | `get_width`; `ConstructedExtents` proves it is the x span of the extremes, and `RectangleOverridesAgree` that a rectangle's stored width is that span when the right corner is on the grid |
| Polygons.TriangleArea | core/math/geometry/geometry_objects.py:599-606 | Heron's formula on the side lengths; `TriangleAreaIsHalfCross` proves it is half the absolute cross product of two sides, `HeronMatchesShoelace` that it equals the shoelace area, `TriangleAreaAsWrittenCounterexample` that the code's extra halving gives half of it |
| Polygons.AreaAsWritten | core/math/geometry/geometry_objects.py:425-439 | `get_area` as written, with the two products added; `GetAreaAsWritten` computes it, `RectangleInheritedArea` gives its value on a rectangle's sides, `AreaAsWrittenCounterexample` a unit square where it is 9 |
| Polygons.RectangleCorners | core/math/geometry/geometry_objects.py:567-577 | the four corners the rectangle builds; `RectangleCornersExact` proves they are the exact corners except that the right lower x is rounded to four places, `RectangleOffGridCorner` gives a width where that rounding changes the area |
| Polygons.MakeConvexPolygon | core/math/geometry/geometry_objects.py:523-529 | `ConvexPolygon(points)`; `ConvexPolygonRejectsConcaveTestPoints` proves it fails on the library's concave test polygon, `ConvexTestPointsConvex` that the library's convex test polygon passes the convexity check |
| Polygons.ConvexTestPointsConvex | tests/test_core/test_geometry_object.py:135-163 | the convex polygon of the library's tests has sides and all its side cross products share one sign, so it is not concave |
| LinePolygon.Kept | core/math/geometry/collision_detection/line_polygon/probable_inter_sides.py:4-26 | the sides a filter keeps are a subsequence of the polygon's sides, each passing the filter's band test, and every side that passes is kept |
| LinePolygon.SubsequenceShorter | core/math/geometry/collision_detection/line_polygon/probable_inter_sides.py:11-14 | the filter keeps no more sides than the polygon has |
| LinePolygon.LineFilterOblique | core/math/geometry/collision_detection/line_polygon/probable_inter_sides.py:7-26 | a line neither horizontal nor vertical gets no probable sides at all |
| LinePolygon.LineFilterHorizontal | core/math/geometry/collision_detection/line_polygon/probable_inter_sides.py:7-14 | a horizontal line keeps exactly the sides with an end point at its own height |
| LinePolygon.SegmentFilterDropsCrossingSide | core/math/geometry/collision_detection/line_polygon/probable_inter_sides.py:51-66 | the segment filter drops the side (-1, 3)-(3, -1) although the segment (0, 0)-(2, 2) crosses it at (1, 1) |
| LinePolygon.ProbableSidesRay | core/math/geometry/collision_detection/line_polygon/probable_inter_sides.py:29-33 | `get_probable_intersect_sides_ray` raises the TypeError of `scale()` without its factor before looking at any side |
| LinePolygon.GetProbableSidesLine | core/math/geometry/collision_detection/line_polygon/probable_inter_sides.py:4-26 | the loop of `get_probable_intersect_sides_line` computes exactly the kept sides |
| LinePolygon.GetProbableSidesSegment | core/math/geometry/collision_detection/line_polygon/probable_inter_sides.py:51-66 | the loop of `get_probable_intersect_sides_segment` computes exactly the kept sides |
| LinePolygon.SideData | core/math/geometry/collision_detection/line_polygon/line_polygon_collision_detection.py:18 | the data of a segment-first routine on one side, when there is any, has exactly one point and a depth |
| LinePolygon.SideDatas | core/math/geometry/collision_detection/line_polygon/line_polygon_collision_detection.py:17-18 | one datum per side, in side order, each that side's routine result |
| LinePolygon.GatherAsWritten | core/math/geometry/collision_detection/line_polygon/line_polygon_collision_detection.py:17-22 | the loop from an accumulator with a point list keeps a point list |
| LinePolygon.GetInterDataPoly | core/math/geometry/collision_detection/line_polygon/line_polygon_collision_detection.py:12-27 | `get_inter_data_poly`, with the `CollisionData` it updates, computes exactly the as-written result |
| LinePolygon.GatherFromNoDepth | core/math/geometry/collision_detection/line_polygon/line_polygon_collision_detection.py:15-22 | from a None depth the loop leaves the accumulator as it was when no side has data, and raises the `max` TypeError at the first side that has |
| LinePolygon.InterDataPolyAsWrittenOutcome | core/math/geometry/collision_detection/line_polygon/line_polygon_collision_detection.py:12-27 | as written the routine never returns data: the ray family raises in its filter; the others return None exactly when no probable side has data and raise otherwise |
| LinePolygon.MaxDepth | core/math/geometry/collision_detection/line_polygon/line_polygon_collision_detection.py:22 | the larger of two depths, a missing depth counting as none yet |
| LinePolygon.Merged | core/math/geometry/collision_detection/line_polygon/line_polygon_collision_detection.py:17-27 | the intended accumulation has an empty point list and no depth exactly when no side has data, and its depth is at least every side's depth |
| LinePolygon.GatherWithDepthIsMerged | core/math/geometry/collision_detection/line_polygon/line_polygon_collision_detection.py:17-22 | from an accumulator that already has a depth, the loop as written computes exactly the intended accumulation after the accumulator's own |
| LinePolygon.InterDataPoly | core/math/geometry/collision_detection/line_polygon/line_polygon_collision_detection.py:12-27 | corrected: an error exactly for the ray family; None exactly when no probable side has data; otherwise every point found and the deepest depth |
| LinePolygon.InterDataPolyAsWrittenCounterexample | core/math/geometry/collision_detection/line_polygon/line_polygon_collision_detection.py:15-22 | the side (0, 0)-(2, 2) crossed by the segment (0, 2)-(2, 0): as written TypeError, corrected the point (1, 1) |
| LinePolygon.DiagonalHits | core/math/geometry/collision_detection/line_polygon/line_polygon_collision_detection.py:17-18 | the one side (0, 0)-(2, 2) of that counterexample has data, the crossing point (1, 1) |
| LinePolygon.AnySideHit | core/math/geometry/collision_detection/line_polygon/is_line_polygon_intersect.py:112-118 | the loop returns false exactly when no probable side has data |
| LinePolygon.IsInterLinePoly | core/math/geometry/collision_detection/line_polygon/is_line_polygon_intersect.py:108-118 | `is_inter_line_poly` raises for the ray family and otherwise is false exactly when no probable side has data |
| LinePolygon.IsInterMatchesData | core/math/geometry/collision_detection/line_polygon/is_line_polygon_intersect.py:108-118 | the test is true exactly when the corrected data routine has data |
| LinePolygon.DistanceFamily | core/math/geometry/collision_detection/line_polygon/line_polygon_distance.py:13-106 | the convex polygon distance routines use the line family's routine whatever the probe; the others use the probe's own |
| LinePolygon.DistanceLinePoly | core/math/geometry/collision_detection/line_polygon/line_polygon_distance.py:109-125 | `get_distance_line_poly` always raises AttributeError: the vector to the centroid goes where a primitive is expected |
| LinePolygon.NearestDistanceAsWritten | core/math/geometry/collision_detection/line_polygon/line_polygon_distance.py:116-125 | the tail after the raise would give 0.0 without data, TypeError without a point list, and otherwise a running minimum from 0, which is 0 with a true square root |
| LinePolygon.ProbableSides | core/math/geometry/collision_detection/line_polygon/probable_inter_sides.py:4-66 | the side filter of each routine family; `ProbableSidesRay` proves the ray filter raises TypeError, `GetProbableSidesLine` and `GetProbableSidesSegment` compute the line and segment filters, `LineFilterOblique` proves an oblique line keeps no side, `LineFilterHorizontal` which sides a horizontal line keeps, `SegmentFilterDropsCrossingSide` that a crossed side can be dropped and `SubsequenceShorter` that the filter never adds sides |
| LinePolygon.InterDataPolyAsWritten | core/math/geometry/collision_detection/line_polygon/line_polygon_collision_detection.py:12-27 | `get_inter_data_poly` as written; `GetInterDataPoly` computes it, `InterDataPolyAsWrittenOutcome` proves it never returns data, raising TypeError for a ray and, for a line or segment, TypeError exactly when some kept side is hit, `InterDataPolyAsWrittenCounterexample` gives a crossing where the corrected routine finds the point |
| Dispatch.IntersectionData | core/math/geometry/collision_detection/objects_collision_detection.py:39-57 | the lookup as written, assuming the module's imports succeeded (they do not; see Left out): a pair without a routine raises the TypeError naming both lower-cased class names; the found polygon pairs without a line-like operand are the routines outside this model |
| Dispatch.IntersectionDataCorrected | core/math/geometry/collision_detection/objects_collision_detection.py:39-57 | the dispatcher with the two corrected routines differs from the one as written only on line-like pairs and line-like operands with polygons, and is the same on every pair without a routine |
| Dispatch.RayLineDataAsWritten | core/math/geometry/collision_detection/lines/lines_collision_detection.py:31-32 | `get_inter_data_ray_line` as written is the (line, ray) routine with the ray as the line and the line as the ray |
| Dispatch.LineLikeData | core/math/geometry/collision_detection/objects_collision_detection.py:51-57 | the routines of the line-like pairs: the (ray, line) pair gets the operands swapped into the wrong roles, every other pair the same as the corrected routines |
| Dispatch.DistanceLength | core/math/geometry/collision_detection/objects_collision_detection.py:60-67 | `get_distance_length` raises AttributeError for every pair: `getattr` on the class finds no module function |
| Dispatch.ClassNameWord | core/math/geometry/collision_detection/objects_collision_detection.py:47-48 | no lower-cased class name holds an underscore |
| Dispatch.ClassNameInjective | core/math/geometry/collision_detection/objects_collision_detection.py:47-48 | different classes have different lower-cased names |
| Dispatch.SplitAtSeparator | core/math/geometry/collision_detection/objects_collision_detection.py:50 | two underscore-free words joined by one underscore can be split back |
| Dispatch.PairNameInjective | core/math/geometry/collision_detection/objects_collision_detection.py:50 | the joined names determine both classes |
| Dispatch.RoutineNameDeterminesClasses | core/math/geometry/collision_detection/objects_collision_detection.py:46-52 | the looked-up name determines both operand classes, so lookup by name is lookup by pair |
| Dispatch.RoutineFoundIffSupported | core/math/geometry/collision_detection/objects_collision_detection.py:51-55 | a routine is found exactly for the pairs the families allow: no particle, no ray or segment before a rectangle, round shapes only with rectangles and triangles among polygons |
| Dispatch.ProbeBeforeRectangleNotFound | core/math/geometry/collision_detection/line_polygon/line_polygon_collision_detection.py:78-79 | a ray or segment before a rectangle raises the not-found TypeError, as the routines are spelt `_rect`, while the reversed pair is found |
| Dispatch.ParticlesNotFound | core/math/geometry/collision_detection/objects_collision_detection.py:51-55 | any pair with a particle raises the not-found TypeError, in either order |
| Dispatch.PolygonOperandOrder | core/math/geometry/collision_detection/line_polygon/line_polygon_collision_detection.py:30-35 | the polygon-first wrappers forward to the probe-first routine, so a found pair gives the same answer in either order |
| Dispatch.LinePolygonNeverData | core/math/geometry/collision_detection/line_polygon/line_polygon_collision_detection.py:12-35 | as written a line-like operand and a polygon never give data through the dispatcher: a ray raises the TypeError of `scale()`, the others give None or a TypeError |
| Dispatch.RayLineOperandOrder | core/math/geometry/collision_detection/lines/lines_collision_detection.py:21-32 | with the (ray, line) routine corrected, the ray-line crossing does not depend on the order of the operands |
| Dispatch.RayLineAsWrittenCounterexample | core/math/geometry/collision_detection/lines/lines_collision_detection.py:31-32 | as written, the (ray, line) routine reports a crossing of the ray from (0, 0) along x with the line x = -1, which the (line, ray) routine rightly does not |
| Dispatch.CounterCoeffs | core/math/geometry/collision_detection/lines/lines_collision_detection.py:22 | the crossing parameters of that ray and line in both orders |
| Dispatch.RayLineCorrected | core/math/geometry/collision_detection/objects_collision_detection.py:57 | the dispatcher with the corrected routine reports no crossing for that ray and line |
| Dispatch.LineShapeData | core/math/geometry/collision_detection/line_ellipse/line_ellipse_collision_detection.py:28-91 | the routine the dispatch finds for a line-like operand and a circle or ellipse; it hands a segment and a circle to `SegmentCircleData`, another primitive and a circle to `LineCircleData`, and any primitive and an ellipse to `LineEllipseData`, so the contracts of `LineShapeCircleData` and `LineShapeEllipseData` give its results |
| Dispatch.ShapeLineData | core/math/geometry/collision_detection/line_ellipse/line_ellipse_collision_detection.py:32-91 | the same routines with the circle or ellipse first; they swap their operands onto the routines of `LineShapeData`, so the same line-ellipse data contracts give its results |
| Dispatch.LineLikeDataCorrected | core/math/geometry/collision_detection/objects_collision_detection.py:51-57 | the line-like routines with the ray-line pair in its intended roles; `LineLikeData` proves it agrees with the code on every other pair, `RayLineOperandOrder` that the ray-line answer then matches the line-ray one, `RayLineCorrected` that it finds no crossing where the code as written reports one |
| Dispatch.RoutineModule | core/math/geometry/collision_detection/objects_collision_detection.py:46-55 | the module in which a routine name exists; `RoutineFoundIffSupported` proves a routine is found exactly for the supported pairs, `RoutineNameDeterminesClasses` that the name determines both classes, `ParticlesNotFound` and `ProbeBeforeRectangleNotFound` the pairs missing from it |

## Left out

- Floating point: floats are reals. There is no IEEE rounding, overflow or NaN. The infinities that start the extreme search of `get_the_most_distant_points` are an unset bound.
- `math.sqrt`, and `math.acos` with `math.degrees` in `get_angle`, are parameters of the functions that use them. Only the square root has stated properties (`IsSqrt`). The angle routines are modelled up to that parameter.
- `__str__`, `__repr__` and the `str()` of a point list in exception messages are not rendered. Exception messages built from them keep only their fixed text.
- `Ellipse` cannot be instantiated, since it leaves the abstract `get_support_point` undefined (`Shapes.MakeEllipse`). The ellipse routines are still modelled on ellipse values, as any object with the same attributes would run them.
- The modules that `objects_collision_detection.py` star-imports besides the ones modelled here are not part of this model. These are the distance and intersection tests of the ellipse, ellipse-polygon and polygon modules, and the polygon-polygon collision modules. It finds their routines by name and returns `NotModelled` with that name.
- The import of `objects_collision_detection.py` fails as written, for two reasons. Its line 26 star-imports `polygons/is_concave_convex_intersect.py`, which imports `separated_axis.py`, and `separated_axis.py:57` declares `def get_shadow_circle(circle: "")` with no colon and no body: a SyntaxError. Its line 17 star-imports `ellipse_polygon/ellipse_polygon_collision_detection.py`, whose line 3 imports `core.math.average`, a module the repository does not have. So in the program no `CollisionDetection` call reaches the kind-pair lookup. `Dispatch` models the lookup the module would do if its imports succeeded; "as written" in its rows refers to that lookup and the routines it calls, not to a program that runs.
- The particle routines are not modelled: `objects_collision_detection.py` does not import their module, so the dispatcher never finds them (`Dispatch.ParticlesNotFound`).
- The ellipse-polygon and polygon-polygon routines are not modelled. The dispatcher states which of their names it finds (`Dispatch.RoutineFoundIffSupported`) and returns `NotModelled` for them.
- `is_intersect_circle_line`, `is_intersect_ellipse_line` and the other reversed boolean wrappers of the line-ellipse and line-polygon modules are not separate members. Each calls its probe-first test with the operands swapped, and that test is modelled.
- LinePolygon.AnySideHit: the early return at the first side with data is not observable in the result, so the contract states only the result.
- ConvexHull.SortClockwise: the slope order that `points.sort` would produce is never reached, because every call raises first. The model states the errors and leaves out the sort order.
- LineEllipse.TwoPointDepth: the contract states only the error for coinciding points. `LineEllipse.TwoPointDepthNonNegative` adds that a returned depth is not negative. It is weaker than the source: that the depth is the distance from the chord's midpoint to the single border point is stated only by the body.
- Shapes.CircleSupportPoint: the contract states only that the result is rounded. `Shapes.CircleSupportPointOfZero` covers the zero direction. That a non-zero direction gives a point one radius from the centre is not stated.
- `LineEllipse.SegmentCircleData` and `LineEllipse.CircleSegmentData` are kept as written: the routine's parameters are named the other way round from its name, so it always raises. This is not listed as a finding, because the evidently intended operand order is not certain.
- Lines.IsIntersectWithSegment: the chained comparisons `0 >= u <= 1` and `0 >= t <= 1` of the segment tests in `is_lines_intersect.py` mean u <= 0 and t <= 0. They are kept as written, and the model states what they accept. They are not listed as findings, because the intended bounds cannot be read off with certainty.
- Ellipses.TwoInterPoints: the construction uses the sum of the radii for the distance between the centres, and the middle point's x for both y coordinates. It is kept as written, with the points it gives stated (`Ellipses.TwoInterPointsCoincide`).
- Polygons.RectangleOverridesAgree: stated for positive width and height only. For other sides the corners come in another order, the scan as written picks other extremes, and how the overrides then compare with the spans is not stated. The `get_width` half is stated only when x + width lies on the four-decimal grid: otherwise the right lower corner's x is rounded and the width span differs from the width (`Polygons.RectangleOffGridCorner`). What the overridden inherited `get_area` gives is stated separately, for any sides, by `Polygons.RectangleInheritedArea`.
- Polygons.RectangleAreaOverrideAgrees: stated only when x + width lies on the four-decimal grid. Off the grid the corners are not a rectangle and the override's w h is not their shoelace area (`Polygons.RectangleOffGridCorner`); for such corners `Polygons.RectangleShoelaceArea` gives the area they do have.
- Polygons.RectangleExtremes: the width span is stated as the width only when x + width lies on the four-decimal grid; in general it is stated in terms of the rounded right lower x.
- Polygons.TrianglesUpTo: the fan of `triangulate` skips the triangle [p0, p1, p2], as the source does. It is stated, not corrected.
- `core/math/geometry/geometry_objects.py:450-460`: `get_vertex_index` compares by identity, and the constructor passes `points[0]`, so it always gives 0. `Polygons.Triangulate` uses 0 directly.

## Findings

| source | as written | input that shows it | evidently intended | confidence | as-written member | corrected member |
|---|---|---|---|---|---|---|
| core/math/geometry/collision_detection/line_ellipse/line_ellipse_inter_points.py:48-50 | B = km - k yc - xc and C = yc^2 - r^2 + xc^2 - 2 m yc + yc^2 | the line through (0, 0) and (2, 0) with the unit circle round (1, 0): x = 1, the centre, is a root | B = 2 (km - k yc - xc) and C = xc^2 + m^2 - 2 m yc + yc^2 - r^2, the circle equation on the line | high, not executed | LineEllipse.CircleCoefficientsAsWrittenCounterexample | LineEllipse.CircleCoefficients |
| core/math/geometry/collision_detection/line_ellipse/line_ellipse_inter_points.py:33-35 | `del points[i]` inside `for i in range(len(points))` | the segment (1, 0)-(3, 0) with the points (0, 0) and (2, 0): IndexError | keep the points that belong to the primitive | high, not executed | LineEllipse.DeleteOutsideAsWrittenCounterexample | LineEllipse.KeepOnLine |
| core/math/geometry/collision_detection/line_polygon/line_polygon_collision_detection.py:15-22 | the accumulator starts with depth None and `max(None, depth)` raises at the first hit | the side (0, 0)-(2, 2) and the segment (0, 2)-(2, 0): TypeError | the points of all sides with data and the largest depth | high, not executed | LinePolygon.InterDataPolyAsWrittenCounterexample | LinePolygon.InterDataPoly |
| core/math/geometry/collision_detection/polygons/minkowski_difference_of_polygons.py:8-12 | `Vector2d` objects added to a `set`, but `Vector2d` defines `__eq__` without `__hash__` | [(1, 1)] and [(0, 0)]: TypeError | the set of all differences a - b | high, not executed | Minkowski.DifferenceAsWrittenCounterexample | Minkowski.PolygonsDifference |
| core/math/geometry/geometry_objects.py:323-337 | the minimum of each coordinate is tried only when the maximum is not raised (`elif`) | (-3, 0), (-2, 1), (-1, 0): every point raises max x, so min x stays at the initial (0, 0) and the width is -1, not 2 | every point tried against all four bounds | high, not executed | Polygons.MostDistantPointsAsWrittenMissesMinimum | Polygons.MostDistantPoints |
| core/math/geometry/geometry_objects.py:430-439 | half the sum of x_end y_start and y_end x_start over all sides | the unit square from (1, 1): 9 | the shoelace area, half the absolute sum of x_i y_(i+1) - x_(i+1) y_i, as the comment describes | high, not executed | Polygons.AreaAsWrittenCounterexample | Polygons.ShoelaceArea |
| core/math/geometry/geometry_objects.py:603-604 | Heron's formula multiplied by an extra 0.5 | the 3-4-5 triangle at the origin: 3 | Heron's formula, 6, which agrees with the shoelace area | high, not executed | Polygons.TriangleAreaAsWrittenCounterexample | Polygons.TriangleArea |
| core/math/geometry/collision_detection/lines/lines_collision_detection.py:31-32 | `get_inter_data_ray_line(line, ray)` names its parameters the other way round, so the dispatcher's ray is treated as the unbounded line | the ray from (0, 0) through (1, 0) and the line x = -1: a crossing is reported | the (line, ray) routine with the operands in their intended roles | medium, not executed | Dispatch.RayLineAsWrittenCounterexample | Dispatch.IntersectionDataCorrected |
