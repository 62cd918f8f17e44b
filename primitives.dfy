/** The point-like and line-like geometry objects of core/math/geometry/geometry_objects.py:
    `Particle`, and `Ray`, `Line` and `Segment`, which share two defining points and
    differ in how far they extend. */
module Primitives {
  import opened Wrappers
  import opened RealMath
  import opened Vectors

  /** The slope `get_slope` reports for a vertical primitive. */
  const VerticalSlope: real := 100000.0

  const SamePointsMessage := "First and second point can't have the same coordinates"

  /** Which of the three line-like classes an object is; `Line` derives from `Ray`
      and `Segment` from `Line`. */
  datatype PrimKind = RayKind | LineKind | SegmentKind

  datatype Primitive = Primitive(kind: PrimKind, first: Vector2d, second: Vector2d)

  /** What the constructor guarantees: the two points are not equal under `__eq__`. */
  predicate Valid(p: Primitive) {
    !ApproxEq(p.first, p.second)
  }

  /** A primitive as the constructor leaves it. */
  type Prim = p: Primitive | Valid(p) witness Primitive(RayKind, Vector2d(0.0, 0.0), Vector2d(1.0, 0.0))

  function KindName(k: PrimKind): string {
    match k
    case RayKind => "Ray"
    case LineKind => "Line"
    case SegmentKind => "Segment"
  }

  /** `Ray(first, second)`, `Line(first, second)`, `Segment(first, second)`: refused
      with AttributeError when the points are equal under `__eq__`. */
  function MakePrimitive(kind: PrimKind, first: Vector2d, second: Vector2d): (r: Result<Prim>)
    ensures r.Ok? <==> !ApproxEq(first, second)
    ensures r.Ok? ==> r.value == Primitive(kind, first, second)
    ensures r.Err? ==> r.error == AttributeError(SamePointsMessage)
  {
    if ApproxEq(first, second) then Err(AttributeError(SamePointsMessage))
    else Ok(Primitive(kind, first, second))
  }

  // ----- direction and slope -----

  /** `get_vector`: from the first point to the second. */
  function GetVector(p: Primitive): Vector2d {
    Sub(p.second, p.first)
  }

  /** `get_direction`: the normalized vector. */
  function Direction(p: Primitive, sqrt: SqrtFn): Vector2d {
    Normalize(GetVector(p), sqrt)
  }

  predicate IsVertical(p: Primitive) {
    p.second.x - p.first.x == 0.0
  }

  predicate IsHorizontal(p: Primitive) {
    p.second.y - p.first.y == 0.0
  }

  /** `get_slope`: rise over run, or the sentinel 100000 for a vertical primitive. */
  function Slope(p: Primitive): (r: real)
    ensures IsVertical(p) ==> r == VerticalSlope
    ensures !IsVertical(p) ==> r * (p.second.x - p.first.x) == p.second.y - p.first.y
  {
    var numerator := p.second.y - p.first.y;
    var denominator := p.second.x - p.first.x;
    if denominator == 0.0 then VerticalSlope else numerator / denominator
  }

  /** `get_y_intercept`: where the line through the first point with the given slope
      meets the y axis. */
  function YIntercept(p: Primitive, slope: real): (b: real)
    ensures p.first.y == p.first.x * slope + b
  {
    p.first.y - p.first.x * slope
  }

  /** The equation test every `is_point_belongs` of the three classes starts with:
      y is within 0.01 of slope * x + intercept. */
  predicate OnLineEquation(p: Primitive, point: Vector2d) {
    var slope := Slope(p);
    IsClose(point.y, point.x * slope + YIntercept(p, slope), 0.01)
  }

  predicate InBoundingBox(p: Primitive, point: Vector2d) {
    Min(p.first.x, p.second.x) <= point.x <= Max(p.first.x, p.second.x) &&
    Min(p.first.y, p.second.y) <= point.y <= Max(p.first.y, p.second.y)
  }

  /** `is_point_belongs` of `Ray`, `Line` and `Segment`. A ray also asks that the
      direction from its first point to the point equal its own direction; a segment
      asks that the point lie in the box its two points span. */
  predicate IsPointBelongs(p: Primitive, point: Vector2d, sqrt: SqrtFn) {
    match p.kind
    case RayKind =>
      OnLineEquation(p, point) && ApproxEq(Direction(p, sqrt), Normalize(Sub(point, p.first), sqrt))
    case LineKind => OnLineEquation(p, point)
    case SegmentKind => OnLineEquation(p, point) && InBoundingBox(p, point)
  }

  // ----- closest point, distance, length -----

  /** Two points that `__eq__` tells apart have a non-zero rounded difference. */
  lemma ValidDifferenceNonZero(p: Prim)
    ensures Sub(p.first, p.second) != Zero
  {
    var d := Sub(p.first, p.second);
    if d == Zero {
      IsCloseWithinTolerance(p.first.x, p.second.x, 0.01);
      IsCloseWithinTolerance(p.first.y, p.second.y, 0.01);
      assert false;
    }
  }

  /** The point of the infinite line nearest to `point`: the first point plus the
      projection of `point - first` on `first - second`. */
  function Projection(p: Prim, point: Vector2d): (r: Vector2d)
    ensures var onto := Sub(p.first, p.second);
      onto != Zero && r == Add(p.first, Scale(onto, ProjectionScalar(Sub(point, p.first), onto)))
  {
    ValidDifferenceNonZero(p);
    Add(p.first, ProjectOn(Sub(point, p.first), Sub(p.first, p.second)).value)
  }

  /** `get_closest_point`. A line returns the projection; a ray the projection when it
      belongs to the ray and the first point otherwise; a segment the projection when
      it belongs to the segment and otherwise the nearer end point, the first on a tie. */
  function ClosestPoint(p: Prim, point: Vector2d, sqrt: SqrtFn): Vector2d {
    var candidate := Projection(p, point);
    match p.kind
    case LineKind => candidate
    case RayKind => if IsPointBelongs(p, candidate, sqrt) then candidate else p.first
    case SegmentKind =>
      if IsPointBelongs(p, candidate, sqrt) then candidate
      else if Magnitude(Sub(point, p.first), sqrt) > Magnitude(Sub(point, p.second), sqrt) then p.second
      else p.first
  }

  /** `get_distance_to_point`: the length from the point to the closest point. */
  function DistanceToPoint(p: Prim, point: Vector2d, sqrt: SqrtFn): real {
    Magnitude(Sub(point, ClosestPoint(p, point, sqrt)), sqrt)
  }

  /** `Segment.get_length` and `Segment.__len__`. */
  function Length(p: Primitive, sqrt: SqrtFn): real {
    Magnitude(Sub(p.second, p.first), sqrt)
  }

  /** `Segment.get_middle_point`: half of each point, added, then rounded. */
  function MiddlePoint(p: Primitive): (r: Vector2d)
    ensures Rounded(r)
    ensures Abs(r.x - (p.first.x + p.second.x) / 2.0) <= 0.00005
    ensures Abs(r.y - (p.first.y + p.second.y) / 2.0) <= 0.00005
  {
    Make(p.first.x / 2.0 + p.second.x / 2.0, p.first.y / 2.0 + p.second.y / 2.0)
  }

  /** `get_perpendicular`: the same kind of primitive through the two points turned a
      quarter; the constructor's check applies again. */
  function Perpendicular(p: Prim): (r: Result<Prim>)
    ensures r.Ok? ==> (r.value.kind == p.kind &&
      r.value.first == Vectors.Perpendicular(p.first) && r.value.second == Vectors.Perpendicular(p.second))
    ensures r.Err? <==> ApproxEq(Vectors.Perpendicular(p.first), Vectors.Perpendicular(p.second))
  {
    MakePrimitive(p.kind, Vectors.Perpendicular(p.first), Vectors.Perpendicular(p.second))
  }

  /** On rounded points the perpendicular always exists, and its vector is orthogonal
      to the original one. */
  lemma PerpendicularOfRounded(p: Prim)
    requires Rounded(p.first) && Rounded(p.second)
    ensures Perpendicular(p).Ok?
    ensures Dot(GetVector(Perpendicular(p).value), GetVector(p)) == 0.0
  {
    var a, b := p.first, p.second;
    var pa, pb := Vectors.Perpendicular(a), Vectors.Perpendicular(b);
    assert pa == Vector2d(a.y, -a.x) && pb == Vector2d(b.y, -b.x);
    IsCloseNegated(a.x, b.x, 0.01);
    assert !ApproxEq(pa, pb);
    OnGridClosed(b.x, a.x);
    OnGridClosed(b.y, a.y);
    var u := Sub(b, a);
    assert u == Vector2d(b.x - a.x, b.y - a.y);
    PerpendicularDifference(a.x, a.y, b.x, b.y);
    assert Sub(pb, pa) == Vector2d(u.y, -u.x);
  }

  lemma IsCloseNegated(x: real, y: real, t: real)
    ensures IsClose(-x, -y, t) == IsClose(x, y, t)
  {
    assert Abs(-x - -y) == Abs(x - y);
  }

  /** The difference of two quarter-turned points is the quarter-turned difference. */
  lemma PerpendicularDifference(x1: real, y1: real, x2: real, y2: real)
    requires OnGrid(x1) && OnGrid(y1) && OnGrid(x2) && OnGrid(y2)
    ensures Sub(Vector2d(y2, -x2), Vector2d(y1, -x1)) == Vector2d(y2 - y1, -(x2 - x1))
    ensures Dot(Vector2d(y2 - y1, -(x2 - x1)), Vector2d(x2 - x1, y2 - y1)) == 0.0
  {
    OnGridClosed(x2, 0.0);
    OnGridClosed(x1, 0.0);
    OnGridClosed(-x2, -x1);
    assert -x2 - -x1 == -(x2 - x1);
  }

  /** `Ray.get_cos_of_angle`: the cosine between the two primitives' vectors. */
  function CosOfAngleWith(p: Primitive, other: Primitive, sqrt: SqrtFn): Result<real> {
    CosOfAngle(GetVector(p), GetVector(other), sqrt)
  }

  /** `Ray.get_angle`: as written it measures from `first - second` of this primitive,
      the reverse of the vector `get_cos_of_angle` uses. */
  function AngleWith(p: Primitive, other: Primitive, sqrt: SqrtFn, acosDegrees: real -> real): Result<real> {
    Angle(Sub(p.first, p.second), GetVector(other), sqrt, acosDegrees)
  }

  /** `Particle.is_point_belongs`: the point equals the position under `__eq__`. */
  predicate ParticleContains(position: Vector2d, point: Vector2d) {
    ApproxEq(point, position)
  }

  // ----- properties -----

  /** The line y = slope * x + intercept runs through the first point, and through the
      second one too unless the primitive is vertical. */
  lemma SlopeInterceptThroughPoints(p: Primitive)
    ensures var slope := Slope(p); var b := YIntercept(p, slope);
      p.first.y == p.first.x * slope + b &&
      (!IsVertical(p) ==> p.second.y == p.second.x * slope + b)
  {
    var slope := Slope(p);
    var b := YIntercept(p, slope);
    if !IsVertical(p) {
      assert p.second.x * slope + b == p.first.y + slope * (p.second.x - p.first.x);
    }
  }

  /** A segment that is not vertical contains both of its points. */
  lemma SegmentContainsEndPoints(p: Primitive, sqrt: SqrtFn)
    requires p.kind == SegmentKind && !IsVertical(p)
    ensures IsPointBelongs(p, p.first, sqrt) && IsPointBelongs(p, p.second, sqrt)
  {
    SlopeInterceptThroughPoints(p);
    IsCloseWithinTolerance(p.first.y, p.first.x * Slope(p) + YIntercept(p, Slope(p)), 0.01);
    IsCloseWithinTolerance(p.second.y, p.second.x * Slope(p) + YIntercept(p, Slope(p)), 0.01);
  }

  /** A vertical primitive's equation test is computed with the sentinel slope: on its
      own x it accepts only points within 0.01 of the first point's y, so for moderate
      coordinates a vertical segment does not contain its own second point. */
  lemma VerticalSegmentMissesSecondPoint(p: Primitive, sqrt: SqrtFn)
    requires p.kind == SegmentKind && IsVertical(p)
    requires Abs(p.first.y) <= 1000.0 && Abs(p.second.y) <= 1000.0
    requires Abs(p.second.y - p.first.y) > 0.01
    ensures !IsPointBelongs(p, p.second, sqrt)
  {
    var b := YIntercept(p, VerticalSlope);
    assert p.second.x * VerticalSlope + b == p.first.y;
    IsCloseModerate(p.second.y, p.first.y, 0.01);
  }

  /** The foot of the perpendicular from `point` to the line through `first` along
      `onto`, computed without rounding. */
  function FootOn(point: Vector2d, first: Vector2d, onto: Vector2d): Vector2d
    requires onto != Zero
  {
    var k := ProjectionScalar(Vector2d(point.x - first.x, point.y - first.y), onto);
    Vector2d(first.x + k * onto.x, first.y + k * onto.y)
  }

  /** The foot of the perpendicular from the point to the primitive's line. */
  function ExactFoot(p: Prim, point: Vector2d): Vector2d {
    ValidDifferenceNonZero(p);
    FootOn(point, p.first, Sub(p.first, p.second))
  }

  /** A line's closest point is, up to the rounding of `project_on`, the foot of the
      perpendicular from the point: the point minus the exact foot is orthogonal to
      the line. */
  lemma LineClosestPointIsFoot(p: Prim, point: Vector2d, sqrt: SqrtFn)
    requires p.kind == LineKind
    requires Rounded(point) && Rounded(p.first)
    ensures var foot, c := ExactFoot(p, point), ClosestPoint(p, point, sqrt);
      Dot(Vector2d(point.x - foot.x, point.y - foot.y), Sub(p.first, p.second)) == 0.0 &&
      Abs(c.x - foot.x) <= 0.00005 && Abs(c.y - foot.y) <= 0.00005
  {
    ProjectionNearFoot(p, point);
  }

  /** The point minus the exact foot is orthogonal to the line's direction. */
  lemma FootResidualOrthogonal(point: Vector2d, first: Vector2d, onto: Vector2d)
    requires onto != Zero
    ensures var foot := FootOn(point, first, onto);
      Dot(Vector2d(point.x - foot.x, point.y - foot.y), onto) == 0.0
  {
    var v := Vector2d(point.x - first.x, point.y - first.y);
    var k := ProjectionScalar(v, onto);
    ProjectionResidualOrthogonal(v, onto);
    var foot := FootOn(point, first, onto);
    var w := Vector2d(point.x - foot.x, point.y - foot.y);
    assert w.x == v.x - k * onto.x;
    assert w.y == v.y - k * onto.y;
    assert w == Vector2d(v.x - k * onto.x, v.y - k * onto.y);
  }

  /** The rounded foot that `get_closest_point` computes is within the rounding of
      the exact one. */
  lemma RoundedFoot(point: Vector2d, first: Vector2d, onto: Vector2d)
    requires onto != Zero && Rounded(point) && Rounded(first)
    ensures var c := Add(first, Scale(onto, ProjectionScalar(Sub(point, first), onto)));
      var foot := FootOn(point, first, onto);
      Abs(c.x - foot.x) <= 0.00005 && Abs(c.y - foot.y) <= 0.00005
  {
    var v := Vector2d(point.x - first.x, point.y - first.y);
    assert Sub(point, first) == v;
    var k := ProjectionScalar(v, onto);
    assert FootOn(point, first, onto) == Vector2d(first.x + k * onto.x, first.y + k * onto.y);
    ScaledFoot(first, onto, k);
  }

  lemma ScaledFoot(first: Vector2d, onto: Vector2d, k: real)
    requires Rounded(first)
    ensures var c := Add(first, Scale(onto, k));
      Abs(c.x - (first.x + k * onto.x)) <= 0.00005 && Abs(c.y - (first.y + k * onto.y)) <= 0.00005
  {
  }

  /** A segment's closest point is the projection when that lies on the segment;
      otherwise it is an end point no farther from the point than either end, the
      first one on a tie. For a segment that is not vertical the closest point
      always belongs to the segment. */
  lemma SegmentClosestPointNearest(p: Prim, point: Vector2d, sqrt: SqrtFn)
    requires p.kind == SegmentKind
    ensures var c := ClosestPoint(p, point, sqrt); var candidate := Projection(p, point);
      var d1, d2 := Magnitude(Sub(point, p.first), sqrt), Magnitude(Sub(point, p.second), sqrt);
      (IsPointBelongs(p, candidate, sqrt) ==> c == candidate) &&
      (!IsPointBelongs(p, candidate, sqrt) ==>
        (c == p.first || c == p.second) &&
        Magnitude(Sub(point, c), sqrt) <= d1 && Magnitude(Sub(point, c), sqrt) <= d2 &&
        (d1 == d2 ==> c == p.first))
    ensures !IsVertical(p) ==> IsPointBelongs(p, ClosestPoint(p, point, sqrt), sqrt)
  {
    if !IsVertical(p) {
      SegmentContainsEndPoints(p, sqrt);
    }
  }

  /** A ray's closest point: when the projection lies on the ray it is, up to the
      rounding of `project_on`, the foot of the perpendicular from the point (the point
      minus the foot is orthogonal to the ray); otherwise it is the first point. Either
      way it satisfies the ray's line equation. */
  lemma RayClosestPointOnLine(p: Prim, point: Vector2d, sqrt: SqrtFn)
    requires p.kind == RayKind
    ensures var foot := ExactFoot(p, point);
      Dot(Vector2d(point.x - foot.x, point.y - foot.y), Sub(p.first, p.second)) == 0.0
    ensures var c, foot := ClosestPoint(p, point, sqrt), ExactFoot(p, point);
      IsPointBelongs(p, Projection(p, point), sqrt) && Rounded(point) && Rounded(p.first) ==>
        Abs(c.x - foot.x) <= 0.00005 && Abs(c.y - foot.y) <= 0.00005
    ensures !IsPointBelongs(p, Projection(p, point), sqrt) ==> ClosestPoint(p, point, sqrt) == p.first
    ensures OnLineEquation(p, ClosestPoint(p, point, sqrt))
  {
    ProjectionNearFoot(p, point);
    if !IsPointBelongs(p, Projection(p, point), sqrt) {
      FirstOnLineEquation(p);
    }
  }

  /** The projection of any primitive is, up to rounding, the exact foot, and the
      point minus the foot is orthogonal to the primitive's direction. */
  lemma ProjectionNearFoot(p: Prim, point: Vector2d)
    ensures var foot := ExactFoot(p, point);
      Dot(Vector2d(point.x - foot.x, point.y - foot.y), Sub(p.first, p.second)) == 0.0
    ensures var c, foot := Projection(p, point), ExactFoot(p, point);
      Rounded(point) && Rounded(p.first) ==> Abs(c.x - foot.x) <= 0.00005 && Abs(c.y - foot.y) <= 0.00005
  {
    ValidDifferenceNonZero(p);
    var onto := Sub(p.first, p.second);
    FootResidualOrthogonal(point, p.first, onto);
    if Rounded(point) && Rounded(p.first) {
      RoundedFoot(point, p.first, onto);
    }
  }


  /** The first point satisfies the line equation of its primitive. */
  lemma FirstOnLineEquation(p: Primitive)
    ensures OnLineEquation(p, p.first)
  {
    SlopeInterceptThroughPoints(p);
    IsCloseWithinTolerance(p.first.y, p.first.x * Slope(p) + YIntercept(p, Slope(p)), 0.01);
  }

  /** Every distance to a point is non-negative. */
  lemma DistanceToPointNonNegative(p: Prim, point: Vector2d, sqrt: SqrtFn)
    requires IsSqrt(sqrt)
    ensures 0.0 <= DistanceToPoint(p, point, sqrt)
  {
    MagnitudeRoot(Sub(point, ClosestPoint(p, point, sqrt)), sqrt);
  }

  /** On rounded points `get_angle` works with the negated vector of
      `get_cos_of_angle`, so the cosine it takes the arc cosine of has the opposite
      sign. */
  lemma AngleUsesReversedVector(p: Primitive, other: Primitive, sqrt: SqrtFn)
    requires Rounded(p.first) && Rounded(p.second)
    ensures Sub(p.first, p.second) == Inverse(GetVector(p))
    ensures CosOfAngle(Sub(p.first, p.second), GetVector(other), sqrt).Ok? ==
      CosOfAngleWith(p, other, sqrt).Ok?
    ensures CosOfAngleWith(p, other, sqrt).Ok? ==>
      CosOfAngle(Sub(p.first, p.second), GetVector(other), sqrt).value ==
      -CosOfAngleWith(p, other, sqrt).value
  {
    var u := GetVector(p);
    var w := GetVector(other);
    OnGridClosed(p.second.x, p.first.x);
    OnGridClosed(p.second.y, p.first.y);
    OnGridClosed(p.first.x, p.second.x);
    OnGridClosed(p.first.y, p.second.y);
    OnGridClosed(u.x, u.y);
    OnGridClosed(u.y, u.x);
    var n := Sub(p.first, p.second);
    assert n == Vector2d(-u.x, -u.y);
    assert n == Inverse(u);
    NegatedCosine(u, w, sqrt);
  }

  lemma NegatedCosine(u: Vector2d, w: Vector2d, sqrt: SqrtFn)
    ensures var n := Vector2d(-u.x, -u.y);
      CosOfAngle(n, w, sqrt).Ok? == CosOfAngle(u, w, sqrt).Ok? &&
      (CosOfAngle(u, w, sqrt).Ok? ==> CosOfAngle(n, w, sqrt).value == -CosOfAngle(u, w, sqrt).value)
  {
    var n := Vector2d(-u.x, -u.y);
    assert SquaredMagnitude(n) == SquaredMagnitude(u);
    assert Magnitude(n, sqrt) == Magnitude(u, sqrt);
    assert Dot(n, w) == -Dot(u, w);
    var p := Magnitude(u, sqrt) * Magnitude(w, sqrt);
    if p != 0.0 {
      NegatedQuotient(Dot(u, w), p);
    }
  }

  lemma NegatedQuotient(d: real, p: real)
    requires p != 0.0
    ensures (-d) / p == -(d / p)
  {
  }
}
