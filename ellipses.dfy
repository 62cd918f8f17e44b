/** Circle and ellipse pairs, from core/math/geometry/collision_detection/ellipses/:
    the circle-circle routine of ellipses_collision_detection.py with the point
    constructions of ellipses_intersection_points.py, and the heuristic that meets
    two shapes along the segment through their centres. */
module Ellipses {
  import opened Wrappers
  import opened RealMath
  import opened Vectors
  import opened Primitives
  import opened Shapes
  import opened Collisions
  import opened LineEllipse

  // ----- ellipses_intersection_points -----

  /** `get_one_inter_point_circle_circle`: the first centre moved by its radius
      towards the second centre. */
  function OneInterPoint(first: Circle, second: Circle, sqrt: SqrtFn): (r: seq<Vector2d>)
    ensures |r| == 1 && Rounded(r[0])
  {
    var pointDirection := Normalize(Sub(second.center, first.center), sqrt);
    [AddScaled(first.center, pointDirection, first.radius)]
  }

  /** When the circles touch at a point with the first circle's centre not on the
      second's, the direction to the point is a unit vector (before its rounding), so
      the point lies at the first radius from the first centre. */
  lemma OneInterPointDirection(first: Circle, second: Circle, sqrt: SqrtFn)
    requires IsSqrt(sqrt) && Sub(second.center, first.center) != Zero
    ensures var v := Sub(second.center, first.center); var m := Magnitude(v, sqrt);
      m != 0.0 && Square(v.x / m) + Square(v.y / m) == 1.0
  {
    NormalizedIsUnit(Sub(second.center, first.center), sqrt);
  }

  /** The exact target of the construction, the first centre plus the first radius
      times the unit direction to the second centre, lies at the first radius from the
      first centre. */
  lemma OneInterPointTargetDistance(first: Circle, second: Circle, sqrt: SqrtFn)
    requires IsSqrt(sqrt) && Sub(second.center, first.center) != Zero
    ensures var c, v := first.center, Sub(second.center, first.center);
      var m := Magnitude(v, sqrt);
      0.0 < m &&
      var target := Vector2d(c.x + first.radius * (v.x / m), c.y + first.radius * (v.y / m));
      Square(target.x - c.x) + Square(target.y - c.y) == Square(first.radius)
  {
    var c, v := first.center, Sub(second.center, first.center);
    var m := Magnitude(v, sqrt);
    MagnitudeProperties(v, sqrt);
    NormalizedIsUnit(v, sqrt);
    var target := Vector2d(c.x + first.radius * (v.x / m), c.y + first.radius * (v.y / m));
    assert target.x - c.x == first.radius * (v.x / m);
    assert target.y - c.y == first.radius * (v.y / m);
    UnitScaledSquares(v.x / m, v.y / m, first.radius);
  }

  /** The target lies on the segment between the centres when the first radius is at
      most their distance. */
  lemma OneInterPointTargetOnSegment(first: Circle, second: Circle, sqrt: SqrtFn)
    requires IsSqrt(sqrt) && Sub(second.center, first.center) != Zero
    requires 0.0 <= first.radius <= Magnitude(Sub(second.center, first.center), sqrt)
    ensures var c, v := first.center, Sub(second.center, first.center);
      var m := Magnitude(v, sqrt);
      0.0 < m && 0.0 <= first.radius / m <= 1.0 &&
      Vector2d(c.x + first.radius * (v.x / m), c.y + first.radius * (v.y / m)) ==
        Vector2d(c.x + first.radius / m * v.x, c.y + first.radius / m * v.y)
  {
    var v := Sub(second.center, first.center);
    var m := Magnitude(v, sqrt);
    DirectionLengthPositive(v, sqrt);
    QuotientAtMostOne(first.radius, m);
    FractionOfDifference(first.radius, v.x, m);
    FractionOfDifference(first.radius, v.y, m);
  }

  /** The returned point is that target up to the two roundings, of the direction and
      of the sum. */
  lemma OneInterPointNearTarget(first: Circle, second: Circle, sqrt: SqrtFn)
    requires IsSqrt(sqrt) && Sub(second.center, first.center) != Zero
    ensures var c, v := first.center, Sub(second.center, first.center);
      var m := Magnitude(v, sqrt);
      0.0 < m &&
      var p := OneInterPoint(first, second, sqrt)[0];
      Abs(p.x - (c.x + first.radius * (v.x / m))) <= 0.00005 * (1.0 + Abs(first.radius)) &&
      Abs(p.y - (c.y + first.radius * (v.y / m))) <= 0.00005 * (1.0 + Abs(first.radius))
  {
    DirectionLengthPositive(Sub(second.center, first.center), sqrt);
    NearTargetX(first, second, sqrt);
    NearTargetY(first, second, sqrt);
  }

  /** The abscissa of `OneInterPointNearTarget`. */
  lemma NearTargetX(first: Circle, second: Circle, sqrt: SqrtFn)
    requires IsSqrt(sqrt) && 0.0 < Magnitude(Sub(second.center, first.center), sqrt)
    ensures Abs(OneInterPoint(first, second, sqrt)[0].x - (first.center.x + first.radius *
      (Sub(second.center, first.center).x / Magnitude(Sub(second.center, first.center), sqrt))))
      <= 0.00005 * (1.0 + Abs(first.radius))
  {
    RoundedTargetX(first.center, Normalize(Sub(second.center, first.center), sqrt),
      Sub(second.center, first.center).x / Magnitude(Sub(second.center, first.center), sqrt),
      first.radius,
      first.center.x + first.radius * (Sub(second.center, first.center).x / Magnitude(Sub(second.center, first.center), sqrt)));
  }

  /** The ordinate of `OneInterPointNearTarget`. */
  lemma NearTargetY(first: Circle, second: Circle, sqrt: SqrtFn)
    requires IsSqrt(sqrt) && 0.0 < Magnitude(Sub(second.center, first.center), sqrt)
    ensures Abs(OneInterPoint(first, second, sqrt)[0].y - (first.center.y + first.radius *
      (Sub(second.center, first.center).y / Magnitude(Sub(second.center, first.center), sqrt))))
      <= 0.00005 * (1.0 + Abs(first.radius))
  {
    RoundedTargetY(first.center, Normalize(Sub(second.center, first.center), sqrt),
      Sub(second.center, first.center).y / Magnitude(Sub(second.center, first.center), sqrt),
      first.radius,
      first.center.y + first.radius * (Sub(second.center, first.center).y / Magnitude(Sub(second.center, first.center), sqrt)));
  }


  /** The point one s along a rounded direction n from c, rounded, is within the two
      roundings of t, the point one s along the exact direction u: the abscissa. */
  lemma RoundedTargetX(c: Vector2d, n: Vector2d, ux: real, s: real, t: real)
    requires Abs(n.x - ux) <= 0.00005 && t == c.x + s * ux
    ensures Abs(AddScaled(c, n, s).x - t) <= 0.00005 * (1.0 + Abs(s))
  {
    var px := AddScaled(c, n, s).x;
    assert Abs(px - (c.x + n.x * s)) <= 0.00005;
    TargetWithinRounding(c.x, n.x, ux, s, px, t);
  }

  /** The ordinate, as `RoundedTargetX`. */
  lemma RoundedTargetY(c: Vector2d, n: Vector2d, uy: real, s: real, t: real)
    requires Abs(n.y - uy) <= 0.00005 && t == c.y + s * uy
    ensures Abs(AddScaled(c, n, s).y - t) <= 0.00005 * (1.0 + Abs(s))
  {
    var py := AddScaled(c, n, s).y;
    assert Abs(py - (c.y + n.y * s)) <= 0.00005;
    TargetWithinRounding(c.y, n.y, uy, s, py, t);
  }

  /** A non-zero difference has a positive length. */
  lemma DirectionLengthPositive(v: Vector2d, sqrt: SqrtFn)
    requires IsSqrt(sqrt) && v != Zero
    ensures 0.0 < Magnitude(v, sqrt)
  {
    MagnitudeProperties(v, sqrt);
  }

  /** One coordinate of the point: rounding the unit direction by at most one step,
      then rounding the sum, leaves it within one step plus the radius's share of t. */
  lemma TargetWithinRounding(c: real, n: real, u: real, s: real, p: real, t: real)
    requires Abs(n - u) <= 0.00005 && Abs(p - (c + n * s)) <= 0.00005 && t == c + s * u
    ensures Abs(p - t) <= 0.00005 * (1.0 + Abs(s))
  {
    ScaledErrorBound(n, u, s);
    assert p - t == (p - (c + n * s)) + (n * s - u * s);
  }

  /** Scaling a unit direction is the fraction s / m of the difference it came from. */
  lemma FractionOfDifference(s: real, d: real, m: real)
    requires 0.0 < m
    ensures s * (d / m) == s / m * d
  {
  }

  /** A unit vector scaled by s has squared length s squared. */
  lemma UnitScaledSquares(ux: real, uy: real, s: real)
    requires Square(ux) + Square(uy) == 1.0
    ensures Square(s * ux) + Square(s * uy) == Square(s)
  {
    assert Square(s * ux) + Square(s * uy) == Square(s) * (Square(ux) + Square(uy));
  }

  /** An error of at most one rounding step in a factor grows by the other factor. */
  lemma ScaledErrorBound(n: real, u: real, s: real)
    requires Abs(n - u) <= 0.00005
    ensures Abs(n * s - u * s) <= 0.00005 * Abs(s)
  {
    var a, b := Abs(n - u), Abs(s);
    assert n * s - u * s == (n - u) * s;
    AbsProduct(n - u, s);
    assert 0.00005 * b - a * b == (0.00005 - a) * b;
    if 0.0 < b && a < 0.00005 {
      MulPositive(0.00005 - a, b);
    } else if b == 0.0 {
      assert a * b == 0.0;
    } else {
      assert 0.00005 - a == 0.0;
    }
    assert Abs(n * s - u * s) == a * b;
  }

  /** The absolute value of a product. */
  lemma AbsProduct(a: real, b: real)
    ensures Abs(a * b) == Abs(a) * Abs(b)
  {
    if a < 0.0 && b < 0.0 {
      assert a * b == (-a) * (-b);
    } else if a < 0.0 {
      assert -(a * b) == (-a) * b;
    } else if b < 0.0 {
      assert -(a * b) == a * (-b);
    }
  }

  /** A quotient of a non-negative number by a larger positive one is a fraction. */
  lemma QuotientAtMostOne(s: real, m: real)
    requires 0.0 <= s <= m && 0.0 < m
    ensures 0.0 <= s / m <= 1.0
  {
    assert s / m * m == s;
  }

  /** The message of the ValueError `math.sqrt` raises for a negative argument. */
  const MathDomainError := "math domain error"

  /** The distance from the first centre to the chord of the construction, with the
      sum of the radii standing for the distance between the centres. */
  function ChordOffset(r1: real, r2: real): (a: real)
    requires r1 + r2 != 0.0
  {
    (Square(r1) - Square(r2) + Square(r1 + r2)) / (2.0 * (r1 + r2))
  }

  /** With d = r1 + r2 the chord offset is the first radius itself. */
  lemma ChordOffsetIsFirstRadius(r1: real, r2: real)
    requires r1 + r2 != 0.0
    ensures ChordOffset(r1, r2) == r1
  {
    assert Square(r1) - Square(r2) + Square(r1 + r2) == 2.0 * (r1 + r2) * r1;
  }

  /** The chord's half length over the distance, times a coordinate difference. */
  function Offset(h: real, d: real, difference: real): real
    requires d != 0.0
  {
    h / d * difference
  }

  /** The two points of the construction around the middle point; both y
      coordinates start from the middle point's x. */
  function ChordPoints(middle: Vector2d, h: real, d: real, c1: Vector2d, c2: Vector2d): (r: seq<Vector2d>)
    requires d != 0.0
    ensures |r| == 2 && Rounded(r[0]) && Rounded(r[1])
  {
    var p1x := middle.x + Offset(h, d, c2.y - c1.y);
    var p1y := middle.x - Offset(h, d, c2.x - c1.x);
    var p2x := middle.x - Offset(h, d, c2.y - c1.y);
    var p2y := middle.x + Offset(h, d, c2.x - c1.x);
    [Make(p1x, p1y), Make(p2x, p2y)]
  }

  /** With a zero half chord both points are (m.x, m.x). */
  lemma ChordPointsAtZero(middle: Vector2d, d: real, c1: Vector2d, c2: Vector2d)
    requires d != 0.0
    ensures ChordPoints(middle, 0.0, d, c1, c2) == [Make(middle.x, middle.x), Make(middle.x, middle.x)]
  {
    assert Offset(0.0, d, c2.y - c1.y) == 0.0 && Offset(0.0, d, c2.x - c1.x) == 0.0;
  }

  /** The middle point of the construction: the first centre plus the vector from the
      second centre to the first, scaled by a / d. */
  function MiddlePointOf(first: Circle, second: Circle, a: real, d: real): Vector2d
    requires d != 0.0
  {
    Add(first.center, Scale(Sub(first.center, second.center), a / d))
  }

  /** `get_two_inter_points_circle_circle` as written: d is the sum of the radii,
      `math.sqrt` raises for a negative argument, and both y coordinates are computed
      from the middle point's x. */
  function TwoInterPoints(first: Circle, second: Circle, sqrt: SqrtFn): (r: Result<seq<Vector2d>>)
    ensures r.Ok? ==> |r.value| == 2 && Rounded(r.value[0]) && Rounded(r.value[1])
    ensures first.radius + second.radius == 0.0 ==> r == Err(ZeroDivisionError(DivisionByZero))
  {
    var r1 := first.radius;
    var r2 := second.radius;
    var d := r1 + r2;
    if 2.0 * d == 0.0 then Err(ZeroDivisionError(DivisionByZero))
    else
      var a := ChordOffset(r1, r2);
      var radicand := Square(r1) - Square(a);
      if radicand < 0.0 then Err(ValueError(MathDomainError))
      else
        var h := sqrt(radicand);
        var middle := MiddlePointOf(first, second, a, d);
        Ok(ChordPoints(middle, h, d, first.center, second.center))
  }

  /** Because d is the sum of the radii, h is zero: the "two" points are one and the
      same, (m.x, m.x) for the middle point m, which lies on the far side of the first
      centre from the second. */
  lemma TwoInterPointsCoincide(first: Circle, second: Circle, sqrt: SqrtFn)
    requires IsSqrt(sqrt) && first.radius + second.radius != 0.0
    ensures var r := TwoInterPoints(first, second, sqrt);
      var middle := MiddlePointOf(first, second, first.radius, first.radius + second.radius);
      r.Ok? && r.value[0] == r.value[1] && r.value[0] == Make(middle.x, middle.x)
  {
    var r1, r2 := first.radius, second.radius;
    var d := r1 + r2;
    ChordOffsetIsFirstRadius(r1, r2);
    var a := ChordOffset(r1, r2);
    assert Square(r1) - Square(a) == 0.0;
    SqrtZero(sqrt);
    var middle := MiddlePointOf(first, second, a, d);
    ChordPointsAtZero(middle, d, first.center, second.center);
    assert TwoInterPoints(first, second, sqrt) == Ok(ChordPoints(middle, sqrt(0.0), d, first.center, second.center));
  }

  // ----- get_inter_data_circle_circle -----

  /** The depth of two circles: the sum of the radii less the distance between the
      centres. */
  function CircleCircleDepth(first: Circle, second: Circle, sqrt: SqrtFn): real {
    first.radius + second.radius - Magnitude(Sub(first.center, second.center), sqrt)
  }

  /** `get_inter_data_circle_circle`: None for a negative depth, one point for a zero
      depth and the two-point construction otherwise, with the depth itself. */
  function CircleCircleData(first: Circle, second: Circle, sqrt: SqrtFn): (r: Result<Option<Data>>)
    ensures var depth := CircleCircleDepth(first, second, sqrt);
      (depth < 0.0 ==> r == Ok(None)) &&
      (depth == 0.0 ==> r == Ok(Some(WithList(OneInterPoint(first, second, sqrt), Some(0.0))))) &&
      (0.0 < depth ==> (r.Err? <==> TwoInterPoints(first, second, sqrt).Err?)) &&
      (0.0 < depth && r.Ok? ==> r == Ok(Some(WithList(TwoInterPoints(first, second, sqrt).value, Some(depth)))))
  {
    var distanceBetweenCentres := Magnitude(Sub(first.center, second.center), sqrt);
    var radius := first.radius + second.radius;
    var penetrationDepth := radius - distanceBetweenCentres;
    if penetrationDepth < 0.0 then Ok(None)
    else if penetrationDepth == 0.0 then
      Ok(Some(WithList(OneInterPoint(first, second, sqrt), Some(penetrationDepth))))
    else
      var points :- TwoInterPoints(first, second, sqrt);
      Ok(Some(WithList(points, Some(penetrationDepth))))
  }

  /** With a true square root the routine never raises: a positive depth needs a
      positive sum of radii. It reports data exactly when the centres are no farther
      apart than the sum of the radii, one point when they are exactly that far and
      two (coinciding) points when they are nearer. */
  lemma CircleCircleDataOutcome(first: Circle, second: Circle, sqrt: SqrtFn)
    requires IsSqrt(sqrt)
    ensures var r := CircleCircleData(first, second, sqrt);
      var distance := Magnitude(Sub(first.center, second.center), sqrt);
      r.Ok? &&
      (r.value.Some? <==> distance <= first.radius + second.radius) &&
      (r.value.Some? ==> (r.value.value.points.Some? && r.value.value.depth.Some? &&
        0.0 <= r.value.value.depth.value &&
        |r.value.value.points.value| == (if distance == first.radius + second.radius then 1 else 2)))
  {
    var v := Sub(first.center, second.center);
    MagnitudeRoot(v, sqrt);
    if CircleCircleDepth(first, second, sqrt) > 0.0 {
      TwoInterPointsCoincide(first, second, sqrt);
    }
  }

  // ----- get_inter_ellipse_ellipse -----

  /** What the heuristic returns: the point on the first shape, the point on the
      second and the distance between them. */
  datatype Meeting = Meeting(firstPoint: Vector2d, secondPoint: Vector2d, depth: real)

  const NoneIntersectionPoints := "'NoneType' object has no attribute 'intersection_points'"
  const NoneNotSubscriptable := "'NoneType' object is not subscriptable"

  /** `inter_data.intersection_points[0]`: each of the three ways it can fail. */
  function FirstInterPoint(interData: Option<Data>): (r: Result<Vector2d>)
    ensures interData.None? ==> r == Err(AttributeError(NoneIntersectionPoints))
    ensures r.Ok? <==> interData.Some? && interData.value.points.Some? && |interData.value.points.value| > 0
    ensures r.Ok? ==> r.value == interData.value.points.value[0]
  {
    if interData.None? then Err(AttributeError(NoneIntersectionPoints))
    else if interData.value.points.None? then Err(TypeError(NoneNotSubscriptable))
    else if |interData.value.points.value| == 0 then Err(IndexError(ListIndexOutOfRange))
    else Ok(interData.value.points.value[0])
  }

  /** The two crossing points of `get_inter_ellipse_ellipse`, in the source's order
      of evaluation: the data of the segment with the first shape, then with the
      second, then the first point of each. */
  function Crossings(segment: Prim, first: Ellipse, second: Ellipse, sqrt: SqrtFn): (r: Result<(Vector2d, Vector2d)>)
    ensures LineEllipseData(segment, first, sqrt).Err? ==> r == Err(LineEllipseData(segment, first, sqrt).error)
    ensures LineEllipseData(segment, first, sqrt).Ok? && LineEllipseData(segment, second, sqrt).Err? ==>
      r == Err(LineEllipseData(segment, second, sqrt).error)
    ensures LineEllipseData(segment, first, sqrt) == Ok(None) && LineEllipseData(segment, second, sqrt).Ok? ==>
      r == Err(AttributeError(NoneIntersectionPoints))
    ensures r.Ok? ==> var firstPoints, secondPoints := EllipseLineInterPoints(segment, first, sqrt), EllipseLineInterPoints(segment, second, sqrt);
      firstPoints.Ok? && firstPoints.value.Some? && r.value.0 in firstPoints.value.value &&
      secondPoints.Ok? && secondPoints.value.Some? && r.value.1 in secondPoints.value.value
  {
    var circleInterData :- LineEllipseData(segment, first, sqrt);
    var ellipseInterData :- LineEllipseData(segment, second, sqrt);
    var circleInterPoint :- FirstInterPoint(circleInterData);
    var ellipseInterPoint :- FirstInterPoint(ellipseInterData);
    Ok((circleInterPoint, ellipseInterPoint))
  }

  /** `get_inter_ellipse_ellipse` for two ellipses: the segment from the first centre
      to the second, the first crossing of that segment with each shape, None when the
      second shape's point lies farther from its centre than the first shape's does,
      and otherwise the two points and the distance between them. */
  function EllipseMeeting(first: Ellipse, second: Ellipse, sqrt: SqrtFn): (r: Result<Option<Meeting>>)
    ensures ApproxEq(first.center, second.center) ==> r == Err(AttributeError(SamePointsMessage))
    ensures !ApproxEq(first.center, second.center) ==>
      var crossings := Crossings(Primitive(SegmentKind, first.center, second.center), first, second, sqrt);
      (crossings.Err? ==> r == Err(crossings.error)) &&
      (crossings.Ok? ==> var (circlePoint, ellipsePoint) := crossings.value;
        (r.Ok? && (r.value.None? <==>
          (Magnitude(Sub(ellipsePoint, second.center), sqrt) > Magnitude(Sub(circlePoint, first.center), sqrt)))) &&
        (r.value.Some? ==> r.value.value == Meeting(circlePoint, ellipsePoint, Magnitude(Sub(ellipsePoint, circlePoint), sqrt))))
  {
    var segmentThroughCenters :- MakePrimitive(SegmentKind, first.center, second.center);
    var (circleInterPoint, ellipseInterPoint) :- Crossings(segmentThroughCenters, first, second, sqrt);
    var distanceToCircleInterPoint := Magnitude(Sub(circleInterPoint, first.center), sqrt);
    var distanceToEllipseInterPoint := Magnitude(Sub(ellipseInterPoint, second.center), sqrt);
    if distanceToEllipseInterPoint > distanceToCircleInterPoint then Ok(None)
    else Ok(Some(Meeting(circleInterPoint, ellipseInterPoint, Magnitude(Sub(ellipseInterPoint, circleInterPoint), sqrt))))
  }

  /** With a true square root the heuristic's depth is a distance, never negative. */
  lemma EllipseMeetingDepthNonNegative(first: Ellipse, second: Ellipse, sqrt: SqrtFn)
    requires IsSqrt(sqrt)
    ensures var r := EllipseMeeting(first, second, sqrt);
      r.Ok? && r.value.Some? ==> 0.0 <= r.value.value.depth
  {
    var r := EllipseMeeting(first, second, sqrt);
    if r.Ok? && r.value.Some? {
      MagnitudeRoot(Sub(r.value.value.secondPoint, r.value.value.firstPoint), sqrt);
    }
  }

  /** The ellipse of radii 0.4 round the origin and the one of radii 2.8 round
      (3, 0): the segment through the centres first crosses the small ellipse's
      equation at (-0.4, 0), off the segment, and the point builder raises
      IndexError. */
  lemma EllipseMeetingCounterexample(first: Ellipse, second: Ellipse, sqrt: SqrtFn)
    requires IsSqrt(sqrt)
    requires first == Ellipse(Vector2d(0.0, 0.0), 0.4, 0.4) && second == Ellipse(Vector2d(3.0, 0.0), 2.8, 2.8)
    ensures EllipseMeeting(first, second, sqrt) == Err(IndexError(ListIndexOutOfRange))
    ensures EllipseEllipseData(first, second, sqrt) == Err(IndexError(ListIndexOutOfRange))
  {
    var segment := Primitive(SegmentKind, first.center, second.center);
    assert !IsClose(0.0, 3.0, 0.01);
    assert !ApproxEq(first.center, second.center);
    EllipseLineInterPointsCounterexample(segment, first, sqrt);
    assert LineEllipseData(segment, first, sqrt) == Err(IndexError(ListIndexOutOfRange));
  }

  /** `get_inter_data_ellipse_ellipse`: the first shape's point and the depth; a None
      from the heuristic is indexed all the same. */
  function EllipseEllipseData(first: Ellipse, second: Ellipse, sqrt: SqrtFn): (r: Result<Option<Data>>)
    ensures r.Ok? ==> r.value.Some?
    ensures EllipseMeeting(first, second, sqrt).Err? ==> r == Err(EllipseMeeting(first, second, sqrt).error)
    ensures EllipseMeeting(first, second, sqrt) == Ok(None) ==> r == Err(TypeError(NoneNotSubscriptable))
    ensures r.Ok? ==> var m := EllipseMeeting(first, second, sqrt).value.value;
      r.value.value == WithList([m.firstPoint], Some(m.depth))
  {
    var data :- EllipseMeeting(first, second, sqrt);
    if data.None? then Err(TypeError(NoneNotSubscriptable))
    else Ok(Some(WithList([data.value.firstPoint], Some(data.value.depth))))
  }

  /** `get_inter_data_circle_ellipse`: the heuristic hands the circle to
      `get_inter_data_segment_circle`, whose swapped parameters make the circle the
      line, so it raises once the segment through the centres exists. */
  function CircleEllipseData(circle: Circle, e: Ellipse): (r: Result<Option<Data>>)
    ensures r.Err? && r.error.AttributeError?
    ensures ApproxEq(circle.center, e.center) ==> r == Err(AttributeError(SamePointsMessage))
    ensures !ApproxEq(circle.center, e.center) ==> r == Err(AttributeError(CircleDistanceMessage))
  {
    var segmentThroughCenters :- MakePrimitive(SegmentKind, circle.center, e.center);
    SegmentCircleData(segmentThroughCenters, circle)
  }

  /** `get_inter_data_ellipse_circle`: the same heuristic, with the circle first. */
  function EllipseCircleData(e: Ellipse, circle: Circle): (r: Result<Option<Data>>)
    ensures r == CircleEllipseData(circle, e)
  {
    CircleEllipseData(circle, e)
  }
}
