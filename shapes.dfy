/** `Circle` and `Ellipse` of core/math/geometry/geometry_objects.py. */
module Shapes {
  import opened Wrappers
  import opened RealMath
  import opened Vectors

  /** The module constant `PI`. */
  const Pi: real := 3.1416

  datatype Circle = Circle(center: Vector2d, radius: real)

  /** An ellipse with axis-parallel radii. The class leaves the abstract
      `get_support_point` unimplemented, so `Ellipse(...)` itself raises; the routines
      that take an ellipse are modelled on this value all the same. */
  datatype Ellipse = Ellipse(center: Vector2d, horizontalRadius: real, verticalRadius: real)

  const AbstractEllipseMessage :=
    "Can't instantiate abstract class Ellipse with abstract method get_support_point"

  /** `Ellipse(center, horizontal_radius, vertical_radius)`. */
  function MakeEllipse(center: Vector2d, horizontalRadius: real, verticalRadius: real): (r: Result<Ellipse>)
    ensures r == Err(TypeError(AbstractEllipseMessage))
  {
    Err(TypeError(AbstractEllipseMessage))
  }

  // ----- Circle -----

  /** `get_diameter`, which `get_height` and `get_width` of a circle return. */
  function CircleDiameter(c: Circle): real {
    c.radius * 2.0
  }

  /** `Circle.get_area`. */
  function CircleArea(c: Circle): real {
    Pi * c.radius * c.radius
  }

  function CircleDistanceToCenter(c: Circle, point: Vector2d, sqrt: SqrtFn): real {
    Magnitude(Sub(c.center, point), sqrt)
  }

  /** `Circle.is_point_belongs`: the distance to the centre is at most the radius or
      close to it within 0.01. */
  predicate CircleContains(c: Circle, point: Vector2d, sqrt: SqrtFn) {
    var d := CircleDistanceToCenter(c, point, sqrt);
    IsClose(d, c.radius, 0.01) || d <= c.radius
  }

  /** `Circle.get_support_point`: the centre moved by the radius along the
      normalized direction. */
  function CircleSupportPoint(c: Circle, direction: Vector2d, sqrt: SqrtFn): (r: Vector2d)
    ensures Rounded(r)
  {
    Add(c.center, Scale(Normalize(direction, sqrt), c.radius))
  }

  // ----- Ellipse -----

  function MaxRadius(e: Ellipse): (r: real)
    ensures r == e.horizontalRadius || r == e.verticalRadius
    ensures e.horizontalRadius <= r && e.verticalRadius <= r
  {
    Max(e.horizontalRadius, e.verticalRadius)
  }

  function MinRadius(e: Ellipse): (r: real)
    ensures r == e.horizontalRadius || r == e.verticalRadius
    ensures r <= e.horizontalRadius && r <= e.verticalRadius
  {
    Min(e.horizontalRadius, e.verticalRadius)
  }

  /** `Ellipse.get_area`, `get_height` and `get_width`. */
  function EllipseArea(e: Ellipse): real {
    Pi * e.horizontalRadius * e.verticalRadius
  }

  function EllipseHeight(e: Ellipse): real {
    e.verticalRadius * 2.0
  }

  function EllipseWidth(e: Ellipse): real {
    e.horizontalRadius * 2.0
  }

  /** A circle measures as the ellipse with both radii equal to its radius, and its
      area is not negative. */
  lemma CircleIsRoundEllipse(c: Circle)
    ensures var e := Ellipse(c.center, c.radius, c.radius);
      CircleArea(c) == EllipseArea(e) && CircleDiameter(c) == EllipseHeight(e) &&
      CircleDiameter(c) == EllipseWidth(e)
    ensures 0.0 <= CircleArea(c)
  {
    SquareNonNegative(c.radius);
    assert Pi * c.radius * c.radius == Pi * Square(c.radius);
  }

  /** For non-negative radii the area of an ellipse lies between those of the
      circles on its smaller and its larger radius. */
  lemma EllipseAreaBetweenRadii(e: Ellipse)
    requires 0.0 <= e.horizontalRadius && 0.0 <= e.verticalRadius
    ensures Pi * Square(MinRadius(e)) <= EllipseArea(e) <= Pi * Square(MaxRadius(e))
  {
    var lo, hi := MinRadius(e), MaxRadius(e);
    var a, b := e.horizontalRadius, e.verticalRadius;
    MulMonotone(lo, lo, a, b);
    MulMonotone(a, b, hi, hi);
    assert EllipseArea(e) == Pi * (a * b);
  }

  /** Products of non-negative factors grow with the factors. */
  lemma MulMonotone(x: real, y: real, x2: real, y2: real)
    requires 0.0 <= x <= x2 && 0.0 <= y <= y2
    ensures x * y <= x2 * y2
  {
    if 0.0 < x2 - x && 0.0 < y {
      MulPositive(x2 - x, y);
    }
    if 0.0 < y2 - y && 0.0 < x2 {
      MulPositive(x2, y2 - y);
    }
    assert x2 * y - x * y == (x2 - x) * y;
    assert x2 * y2 - x2 * y == x2 * (y2 - y);
  }

  /** The left-hand side x^2/a^2 + y^2/b^2 of the ellipse equation, evaluated at the
      point itself (the centre plays no part), or ZeroDivisionError for a zero radius. */
  function EllipseEquation(e: Ellipse, point: Vector2d): (r: Result<real>)
    ensures r.Err? <==> e.horizontalRadius == 0.0 || e.verticalRadius == 0.0
    ensures r.Err? ==> r.error == ZeroDivisionError(DivisionByZero)
    ensures r.Ok? ==> (r.value * Square(e.horizontalRadius) * Square(e.verticalRadius) ==
      Square(point.x) * Square(e.verticalRadius) + Square(point.y) * Square(e.horizontalRadius))
  {
    if e.horizontalRadius == 0.0 || e.verticalRadius == 0.0 then Err(ZeroDivisionError(DivisionByZero))
    else
      var a2, b2 := Square(e.horizontalRadius), Square(e.verticalRadius);
      SquarePositive(e.horizontalRadius);
      SquarePositive(e.verticalRadius);
      var left, right := Square(point.x) / a2, Square(point.y) / b2;
      assert left * a2 == Square(point.x);
      assert right * b2 == Square(point.y);
      assert (left + right) * a2 * b2 == left * a2 * b2 + right * b2 * a2;
      Ok(left + right)
  }

  /** `Ellipse.is_point_belongs`: the equation's value is below 1 or close to 1
      within 0.01. */
  function EllipseContains(e: Ellipse, point: Vector2d): (r: Result<bool>)
    ensures r.Err? <==> EllipseEquation(e, point).Err?
    ensures r.Ok? ==> r.value == (IsClose(EllipseEquation(e, point).value, 1.0, 0.01) ||
                                  EllipseEquation(e, point).value < 1.0)
  {
    var res :- EllipseEquation(e, point);
    Ok(IsClose(res, 1.0, 0.01) || res < 1.0)
  }

  // ----- properties -----

  /** With a true square root a circle of non-negative radius contains its centre,
      and a point at distance at most the radius. */
  lemma CircleContainsNearPoints(c: Circle, point: Vector2d, sqrt: SqrtFn)
    requires IsSqrt(sqrt) && 0.0 <= c.radius
    requires Rounded(c.center)
    ensures CircleContains(c, c.center, sqrt)
    ensures CircleDistanceToCenter(c, point, sqrt) <= c.radius ==> CircleContains(c, point, sqrt)
  {
    OnGridClosed(c.center.x, c.center.x);
    OnGridClosed(c.center.y, c.center.y);
    assert Sub(c.center, c.center) == Zero;
    MagnitudeZero(Zero, sqrt);
  }

  /** For moderate sizes the circle test is exactly: distance at most radius + 0.01. */
  lemma CircleContainsModerate(c: Circle, point: Vector2d, sqrt: SqrtFn)
    requires 0.0 <= c.radius <= 1000000.0
    requires 0.0 <= CircleDistanceToCenter(c, point, sqrt) <= 1000000.0
    ensures CircleContains(c, point, sqrt) <==> CircleDistanceToCenter(c, point, sqrt) <= c.radius + 0.01
  {
    IsCloseModerate(CircleDistanceToCenter(c, point, sqrt), c.radius, 0.01);
  }

  /** The support point for the zero direction is the centre itself. */
  lemma CircleSupportPointOfZero(c: Circle, sqrt: SqrtFn)
    requires IsSqrt(sqrt) && Rounded(c.center)
    ensures CircleSupportPoint(c, Zero, sqrt) == c.center
  {
    MagnitudeZero(Zero, sqrt);
    assert Normalize(Zero, sqrt) == Zero;
    ZeroIsNeutral(c.center, c.radius);
  }

  /** The ellipse test ignores the centre: moving the ellipse does not change it. */
  lemma EllipseIgnoresCenter(e: Ellipse, center: Vector2d, point: Vector2d)
    ensures EllipseContains(e, point) == EllipseContains(e.(center := center), point)
  {
  }

  /** An ellipse with non-zero radii contains the origin; a point is outside once it
      lies beyond 1.01 on the equation's left-hand side. */
  lemma EllipseContainsOrigin(e: Ellipse, point: Vector2d)
    requires e.horizontalRadius != 0.0 && e.verticalRadius != 0.0
    ensures EllipseContains(e, Zero) == Ok(true)
    ensures EllipseEquation(e, point).value > 1.01 ==> EllipseContains(e, point) == Ok(false)
  {
    assert EllipseEquation(e, Zero).value == 0.0;
    var v := EllipseEquation(e, point).value;
    if v > 1.01 {
      assert Abs(v - 1.0) > Max(RelTol * Max(Abs(v), Abs(1.0)), 0.01);
    }
  }

  /** With equal radii r the ellipse equation is x^2 + y^2 over r^2: a circle round
      the origin. */
  lemma EllipseWithEqualRadii(e: Ellipse, point: Vector2d)
    requires e.horizontalRadius == e.verticalRadius != 0.0
    ensures EllipseEquation(e, point).value * Square(e.horizontalRadius) == SquaredMagnitude(point)
  {
    var r2 := Square(e.horizontalRadius);
    SquarePositive(e.horizontalRadius);
    var v := EllipseEquation(e, point).value;
    assert v * r2 * r2 == SquaredMagnitude(point) * r2;
    assert (v * r2 - SquaredMagnitude(point)) * r2 == 0.0;
  }
}
