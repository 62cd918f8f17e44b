/** Line-like against circle and ellipse, after the modules of
    core/math/geometry/collision_detection/line_ellipse: the quadratic in x whose
    roots are the crossings of the line y = kx + m with the shape, the intersection
    point builder, the penetration depths, the collision data and the boolean tests. */
module LineEllipse {
  import opened Wrappers
  import opened RealMath
  import opened Vectors
  import opened Primitives
  import opened Shapes
  import opened Collisions
  import opened Quadratic

  /** The coefficients A, B, C of A*x^2 + B*x + C = 0. */
  datatype Coefficients = Coefficients(a: real, b: real, c: real)

  // ----- the quadratic for a circle -----

  /** `get_x_coord_line_circle` as written: B lacks the factor 2 and C counts the
      centre's y squared twice instead of the intercept squared. */
  function CircleCoefficientsAsWritten(line: Primitive, circle: Circle): Coefficients {
    var k := Slope(line);
    var m := YIntercept(line, k);
    var xc, yc, r := circle.center.x, circle.center.y, circle.radius;
    Coefficients(Square(k) + 1.0, k * m - k * yc - xc,
      Square(yc) - Square(r) + Square(xc) - 2.0 * m * yc + Square(yc))
  }

  /** The coefficients of (x - xc)^2 + (kx + m - yc)^2 = r^2, the crossing of the
      line with the circle. */
  function CircleCoefficients(line: Primitive, circle: Circle): (q: Coefficients)
    ensures 0.0 < q.a
  {
    var k := Slope(line);
    var m := YIntercept(line, k);
    var xc, yc, r := circle.center.x, circle.center.y, circle.radius;
    SquareNonNegative(k);
    Coefficients(Square(k) + 1.0, 2.0 * (k * m - k * yc - xc),
      Square(xc) + Square(m) - 2.0 * m * yc + Square(yc) - Square(r))
  }

  /** The circle polynomial over plain reals. */
  lemma CirclePolynomial(k: real, m: real, xc: real, yc: real, r: real, x: real)
    ensures Polynomial(Square(k) + 1.0, 2.0 * (k * m - k * yc - xc), Square(xc) + Square(m) - 2.0 * m * yc + Square(yc) - Square(r), x) ==
      Square(x - xc) + Square(k * x + m - yc) - Square(r)
  {
    assert Square(k * x + m - yc) == k * k * (x * x) + 2.0 * k * x * (m - yc) + (m - yc) * (m - yc);
    assert Square(x - xc) == x * x - 2.0 * x * xc + xc * xc;
  }

  /** The corrected quadratic vanishes exactly where the line's point at x lies on the
      circle. */
  lemma CircleCoefficientsMeaning(line: Primitive, circle: Circle, x: real)
    ensures var q := CircleCoefficients(line, circle);
      Polynomial(q.a, q.b, q.c, x) ==
        Square(x - circle.center.x) + Square(LineY(line, x) - circle.center.y) - Square(circle.radius)
  {
    var k := Slope(line);
    CirclePolynomial(k, YIntercept(line, k), circle.center.x, circle.center.y, circle.radius, x);
  }

  /** The circle of radius 1 round (1, 0) and the x axis through (0, 0) and (2, 0):
      the as-written quadratic has the root x = 1, yet (1, 0) is the centre, not a
      point of the circle. */
  lemma CircleCoefficientsAsWrittenCounterexample(line: Primitive, circle: Circle)
    requires line == Primitive(LineKind, Vector2d(0.0, 0.0), Vector2d(2.0, 0.0))
    requires circle == Circle(Vector2d(1.0, 0.0), 1.0)
    ensures var q := CircleCoefficientsAsWritten(line, circle);
      Polynomial(q.a, q.b, q.c, 1.0) == 0.0
    ensures Square(1.0 - circle.center.x) + Square(0.0 - circle.center.y) != Square(circle.radius)
    ensures Slope(line) == 0.0 && YIntercept(line, Slope(line)) == 0.0
  {
    assert Slope(line) == 0.0;
    assert CircleCoefficientsAsWritten(line, circle) == Coefficients(1.0, -1.0, 0.0);
  }

  // ----- the quadratic for an ellipse -----

  /** `get_x_coord_line_ellipse`: the ellipse round the origin, a^2 k^2 + b^2,
      2 a^2 k m and a^2 (m^2 - b^2); the centre plays no part. */
  function EllipseCoefficients(line: Primitive, e: Ellipse): Coefficients {
    var k := Slope(line);
    var m := YIntercept(line, k);
    var a2, b2 := Square(e.horizontalRadius), Square(e.verticalRadius);
    Coefficients(a2 * Square(k) + b2, 2.0 * a2 * k * m, a2 * (Square(m) - b2))
  }

  /** The ellipse polynomial over plain reals. */
  lemma EllipsePolynomial(k: real, m: real, a2: real, b2: real, x: real)
    ensures Polynomial(a2 * Square(k) + b2, 2.0 * a2 * k * m, a2 * (Square(m) - b2), x) ==
      b2 * Square(x) + a2 * Square(k * x + m) - a2 * b2
  {
    assert Square(k * x + m) == k * k * (x * x) + 2.0 * k * m * x + m * m;
    assert a2 * Square(k * x + m) == a2 * (k * k) * (x * x) + 2.0 * a2 * k * m * x + a2 * (m * m);
  }

  /** The ellipse quadratic is the equation x^2/a^2 + y^2/b^2 = 1 on the line,
      multiplied by a^2 b^2. */
  lemma EllipseCoefficientsMeaning(line: Primitive, e: Ellipse, x: real)
    ensures var q := EllipseCoefficients(line, e);
      var a2, b2 := Square(e.horizontalRadius), Square(e.verticalRadius);
      Polynomial(q.a, q.b, q.c, x) == b2 * Square(x) + a2 * Square(LineY(line, x)) - a2 * b2
  {
    var k := Slope(line);
    EllipsePolynomial(k, YIntercept(line, k), Square(e.horizontalRadius), Square(e.verticalRadius), x);
  }

  // ----- get_y_coordinates_line -----

  /** The y of the line y = kx + m at x. */
  function LineY(line: Primitive, x: real): real {
    Slope(line) * x + YIntercept(line, Slope(line))
  }

  /** The y on the line for each x. */
  function LineYs(line: Primitive, xs: seq<real>): (ys: seq<real>)
    ensures |ys| == |xs|
  {
    seq(|xs|, i requires 0 <= i < |xs| => LineY(line, xs[i]))
  }

  /** `get_y_coordinates_line`: one y per x, in order. */
  method GetYCoordinates(line: Primitive, xs: seq<real>) returns (ys: seq<real>)
    ensures ys == LineYs(line, xs)
  {
    ys := [];
    for i := 0 to |xs|
      invariant |ys| == i
      invariant forall j :: 0 <= j < i ==> ys[j] == LineYs(line, xs)[j]
    {
      ys := ys + [LineY(line, xs[i])];
    }
  }

  /** Each (x, y) pair lies on the line through the first point with the line's
      slope, and through its second point unless the line is vertical. */
  lemma LineYsOnLine(line: Primitive, xs: seq<real>, i: int)
    requires 0 <= i < |xs|
    ensures LineYs(line, xs)[i] - line.first.y == Slope(line) * (xs[i] - line.first.x)
    ensures !IsVertical(line) ==> LineYs(line, xs)[i] - line.second.y == Slope(line) * (xs[i] - line.second.x)
  {
    LineYThroughPoints(line, xs[i]);
  }

  /** The point of the line at x, seen from either of its points. */
  lemma LineYThroughPoints(line: Primitive, x: real)
    ensures LineY(line, x) - line.first.y == Slope(line) * (x - line.first.x)
    ensures !IsVertical(line) ==> LineY(line, x) - line.second.y == Slope(line) * (x - line.second.x)
  {
    SlopeInterceptThroughPoints(line);
  }

  // ----- building the points -----

  /** `Vector2d(x, y)` for each pair of `zip(xs, ys)`. */
  function Zip(xs: seq<real>, ys: seq<real>): (points: seq<Vector2d>)
    ensures |points| == if |xs| <= |ys| then |xs| else |ys|
  {
    var n := if |xs| <= |ys| then |xs| else |ys|;
    seq(n, i requires 0 <= i < n => Make(xs[i], ys[i]))
  }

  /** The loop that appends one vector per pair. */
  method BuildPoints(xs: seq<real>, ys: seq<real>) returns (points: seq<Vector2d>)
    ensures points == Zip(xs, ys)
  {
    var n := if |xs| <= |ys| then |xs| else |ys|;
    points := [];
    for i := 0 to n
      invariant |points| == i
      invariant forall j :: 0 <= j < i ==> points[j] == Make(xs[j], ys[j])
    {
      points := points + [Make(xs[i], ys[i])];
    }
  }

  /** The deletion loop as written: it walks the indices of the original length
      while `del` shortens the list, so after a deletion the next point is skipped and
      the last index can fall off the end. */
  function DeleteOutsideAsWritten(line: Prim, points: seq<Vector2d>, i: nat, n: nat, sqrt: SqrtFn): Result<seq<Vector2d>>
    decreases n - i
  {
    if n <= i then Ok(points)
    else if |points| <= i then Err(IndexError(ListIndexOutOfRange))
    else if !IsPointBelongs(line, points[i], sqrt) then
      DeleteOutsideAsWritten(line, points[..i] + points[i + 1..], i + 1, n, sqrt)
    else DeleteOutsideAsWritten(line, points, i + 1, n, sqrt)
  }

  /** The deletion loop of `get_ellipse_shape_line_intersection_points`, on a local
      list that each deletion shortens. */
  method DeletePointsOutsideAsWritten(line: Prim, points: seq<Vector2d>, sqrt: SqrtFn) returns (r: Result<seq<Vector2d>>)
    ensures r == DeleteOutsideAsWritten(line, points, 0, |points|, sqrt)
  {
    var current := points;
    var n := |points|;
    var i := 0;
    while i < n
      invariant 0 <= i <= n
      invariant DeleteOutsideAsWritten(line, current, i, n, sqrt) == DeleteOutsideAsWritten(line, points, 0, n, sqrt)
    {
      if |current| <= i {
        return Err(IndexError(ListIndexOutOfRange));
      }
      if !IsPointBelongs(line, current[i], sqrt) {
        current := current[..i] + current[i + 1..];
      }
      i := i + 1;
    }
    r := Ok(current);
  }

  /** The evidently intended loop: keep the points that belong to the primitive. */
  function KeepOnLine(line: Prim, points: seq<Vector2d>, sqrt: SqrtFn): (r: seq<Vector2d>)
    ensures |r| <= |points|
    ensures forall p :: p in r ==> p in points && IsPointBelongs(line, p, sqrt)
  {
    if |points| == 0 then []
    else
      var rest := KeepOnLine(line, points[1..], sqrt);
      if IsPointBelongs(line, points[0], sqrt) then [points[0]] + rest else rest
  }

  /** Conversely, every point of the list that belongs to the primitive is kept. */
  lemma {:induction false} KeepOnLineKeepsBelonging(line: Prim, points: seq<Vector2d>, sqrt: SqrtFn, p: Vector2d)
    requires p in points && IsPointBelongs(line, p, sqrt)
    ensures p in KeepOnLine(line, points, sqrt)
  {
    if points[0] != p {
      assert p in points[1..];
      KeepOnLineKeepsBelonging(line, points[1..], sqrt, p);
    }
  }

  /** On at most two points, which is all the quadratic yields, the loop as written
      agrees with the intended filter except in one case: two points of which the
      first is off the primitive. Then the second index is past the end. */
  lemma DeleteOutsideAsWrittenOnTwoPoints(line: Prim, points: seq<Vector2d>, sqrt: SqrtFn)
    requires |points| <= 2
    ensures var r := DeleteOutsideAsWritten(line, points, 0, |points|, sqrt);
      (|points| == 2 && !IsPointBelongs(line, points[0], sqrt) ==> r == Err(IndexError(ListIndexOutOfRange))) &&
      (!(|points| == 2 && !IsPointBelongs(line, points[0], sqrt)) ==> r == Ok(KeepOnLine(line, points, sqrt)))
  {
    if |points| == 2 {
      var p0, p1 := points[0], points[1];
      assert points[1..] == [p1] && points[1..][1..] == [];
      assert KeepOnLine(line, [p1], sqrt) == if IsPointBelongs(line, p1, sqrt) then [p1] else [];
      if IsPointBelongs(line, p0, sqrt) {
        assert KeepOnLine(line, points, sqrt) == [p0] + KeepOnLine(line, [p1], sqrt);
        if !IsPointBelongs(line, p1, sqrt) {
          assert points[..1] + points[2..] == [p0];
          assert DeleteOutsideAsWritten(line, points, 1, 2, sqrt) == DeleteOutsideAsWritten(line, [p0], 2, 2, sqrt);
        } else {
          assert DeleteOutsideAsWritten(line, points, 1, 2, sqrt) == DeleteOutsideAsWritten(line, points, 2, 2, sqrt);
          assert KeepOnLine(line, [p1], sqrt) == [p1];
          assert [p0] + [p1] == points;
        }
      }
    } else if |points| == 1 {
      assert points[1..] == [];
      assert points[..0] + points[1..] == [];
      assert KeepOnLine(line, points[1..], sqrt) == [];
      if IsPointBelongs(line, points[0], sqrt) {
        assert KeepOnLine(line, points, sqrt) == points;
      } else {
        assert KeepOnLine(line, points, sqrt) == [];
      }
    }
  }

  /** A segment from (1, 0) to (3, 0) and the two crossings (0, 0) and (2, 0) of its
      line with the unit circle round (1, 0): the first lies left of the segment, is
      deleted, and the loop then reads past the end of the shortened list. */
  lemma DeleteOutsideAsWrittenCounterexample(line: Prim, points: seq<Vector2d>, sqrt: SqrtFn)
    requires line == Primitive(SegmentKind, Vector2d(1.0, 0.0), Vector2d(3.0, 0.0))
    requires points == [Vector2d(0.0, 0.0), Vector2d(2.0, 0.0)]
    ensures DeleteOutsideAsWritten(line, points, 0, |points|, sqrt) == Err(IndexError(ListIndexOutOfRange))
    ensures KeepOnLine(line, points, sqrt) == [Vector2d(2.0, 0.0)]
  {
    assert !InBoundingBox(line, points[0]);
    assert Slope(line) == 0.0;
    assert OnLineEquation(line, points[1]);
    assert InBoundingBox(line, points[1]);
    DeleteOutsideAsWrittenOnTwoPoints(line, points, sqrt);
    assert points[1..][1..] == [];
  }

  // ----- get_ellipse_shape_line_intersection_points -----

  /** The builder with the intended filter: None without real roots, otherwise the
      points (x, kx + m) of the roots that belong to the primitive. */
  function InterPointsIntended(line: Prim, q: Coefficients, sqrt: SqrtFn): (r: Result<Option<seq<Vector2d>>>)
    ensures Solve(q.a, q.b, q.c, sqrt).Err? ==> r == Err(Solve(q.a, q.b, q.c, sqrt).error)
    ensures Solve(q.a, q.b, q.c, sqrt) == Ok(None) ==> r == Ok(None)
    ensures r.Ok? && r.value.Some? ==> forall p :: p in r.value.value ==> IsPointBelongs(line, p, sqrt)
  {
    var xs :- Solve(q.a, q.b, q.c, sqrt);
    if xs.None? then Ok(None)
    else Ok(Some(KeepOnLine(line, Zip(xs.value, LineYs(line, xs.value)), sqrt)))
  }

  /** The one case in which the deletion loop as written reads past the end: the
      quadratic has two roots and the point of the first one is off the primitive. */
  predicate FirstCrossingOff(line: Prim, q: Coefficients, sqrt: SqrtFn) {
    var s := Solve(q.a, q.b, q.c, sqrt);
    s.Ok? && s.value.Some? && |s.value.value| == 2 &&
    !IsPointBelongs(line, Make(s.value.value[0], LineY(line, s.value.value[0])), sqrt)
  }

  /** `get_ellipse_shape_line_intersection_points` as written: None without real
      roots, otherwise the points (x, kx + m) of the roots through the deletion loop
      as written. It gives what the intended builder gives, except that it raises
      IndexError when the first of two crossings is off the primitive. */
  function InterPoints(line: Prim, q: Coefficients, sqrt: SqrtFn): (r: Result<Option<seq<Vector2d>>>)
    ensures Solve(q.a, q.b, q.c, sqrt).Err? ==> r == Err(Solve(q.a, q.b, q.c, sqrt).error)
    ensures Solve(q.a, q.b, q.c, sqrt).Ok? && !FirstCrossingOff(line, q, sqrt) ==>
      r == InterPointsIntended(line, q, sqrt)
    ensures FirstCrossingOff(line, q, sqrt) ==> r == Err(IndexError(ListIndexOutOfRange))
  {
    var xs :- Solve(q.a, q.b, q.c, sqrt);
    if xs.None? then Ok(None)
    else
      var points := Zip(xs.value, LineYs(line, xs.value));
      assert |points| == 2 ==> points[0] == Make(xs.value[0], LineY(line, xs.value[0]));
      DeleteOutsideAsWrittenOnTwoPoints(line, points, sqrt);
      var kept :- DeleteOutsideAsWritten(line, points, 0, |points|, sqrt);
      Ok(Some(kept))
  }

  /** A vector of the zipped list is built from a pair at one index. */
  lemma ZipMember(xs: seq<real>, ys: seq<real>, p: Vector2d)
    requires |xs| == |ys| && p in Zip(xs, ys)
    ensures exists i :: 0 <= i < |xs| && p == Make(xs[i], ys[i])
  {
    var points := Zip(xs, ys);
    var i :| 0 <= i < |points| && points[i] == p;
  }

  /** A point the intended builder returns comes from one root, at some index of the
      solver's list. */
  lemma InterPointsMember(line: Prim, q: Coefficients, sqrt: SqrtFn, p: Vector2d) returns (i: int)
    requires InterPointsIntended(line, q, sqrt).Ok? && InterPointsIntended(line, q, sqrt).value.Some?
    requires p in InterPointsIntended(line, q, sqrt).value.value
    ensures Solve(q.a, q.b, q.c, sqrt).Ok? && Solve(q.a, q.b, q.c, sqrt).value.Some?
    ensures var xs := Solve(q.a, q.b, q.c, sqrt).value.value;
      0 <= i < |xs| && p == Make(xs[i], LineY(line, xs[i]))
  {
    var xs := Solve(q.a, q.b, q.c, sqrt).value.value;
    var ys := LineYs(line, xs);
    assert p in Zip(xs, ys);
    ZipMember(xs, ys, p);
    i :| 0 <= i < |xs| && p == Make(xs[i], ys[i]);
  }

  /** One of the solver's values is a root. */
  lemma SolvedRoot(q: Coefficients, sqrt: SqrtFn, i: int)
    requires IsSqrt(sqrt) && Solve(q.a, q.b, q.c, sqrt).Ok? && Solve(q.a, q.b, q.c, sqrt).value.Some?
    requires 0 <= i < |Solve(q.a, q.b, q.c, sqrt).value.value|
    ensures Polynomial(q.a, q.b, q.c, Solve(q.a, q.b, q.c, sqrt).value.value[i]) == 0.0
  {
    SolveFindsRoots(q.a, q.b, q.c, sqrt);
  }

  /** Every point the intended builder returns is the rounding of (x, kx + m) for a
      root x of the quadratic. */
  lemma InterPointsIntendedFromRoots(line: Prim, q: Coefficients, sqrt: SqrtFn, p: Vector2d) returns (x: real)
    requires IsSqrt(sqrt)
    requires InterPointsIntended(line, q, sqrt).Ok? && InterPointsIntended(line, q, sqrt).value.Some?
    requires p in InterPointsIntended(line, q, sqrt).value.value
    ensures Polynomial(q.a, q.b, q.c, x) == 0.0
    ensures p == Make(x, LineY(line, x))
  {
    var i := InterPointsMember(line, q, sqrt, p);
    SolvedRoot(q, sqrt, i);
    x := Solve(q.a, q.b, q.c, sqrt).value.value[i];
  }

  /** Every point the builder as written returns is the rounding of (x, kx + m) for
      a root x of the quadratic, and belongs to the primitive. */
  lemma InterPointsFromRoots(line: Prim, q: Coefficients, sqrt: SqrtFn, p: Vector2d) returns (x: real)
    requires IsSqrt(sqrt)
    requires InterPoints(line, q, sqrt).Ok? && InterPoints(line, q, sqrt).value.Some?
    requires p in InterPoints(line, q, sqrt).value.value
    ensures Polynomial(q.a, q.b, q.c, x) == 0.0
    ensures p == Make(x, LineY(line, x))
    ensures IsPointBelongs(line, p, sqrt)
  {
    assert InterPoints(line, q, sqrt) == InterPointsIntended(line, q, sqrt);
    x := InterPointsIntendedFromRoots(line, q, sqrt, p);
  }

  /** `get_circle_line_intersection_points`: the builder as written on the
      coefficients as written. */
  function CircleLineInterPoints(line: Prim, circle: Circle, sqrt: SqrtFn): Result<Option<seq<Vector2d>>> {
    InterPoints(line, CircleCoefficientsAsWritten(line, circle), sqrt)
  }

  /** The evidently intended circle builder: the corrected coefficients and the
      intended filter. */
  function CircleLineInterPointsIntended(line: Prim, circle: Circle, sqrt: SqrtFn): Result<Option<seq<Vector2d>>> {
    InterPointsIntended(line, CircleCoefficients(line, circle), sqrt)
  }

  /** `get_ellipse_line_intersection_points`. */
  function EllipseLineInterPoints(line: Prim, e: Ellipse, sqrt: SqrtFn): Result<Option<seq<Vector2d>>> {
    InterPoints(line, EllipseCoefficients(line, e), sqrt)
  }

  /** The as-written circle quadratic has a positive leading coefficient, so the
      circle builder never divides by zero: its one error is the IndexError of the
      deletion loop, when the first of two crossings is off the primitive. */
  lemma CircleLineInterPointsErrors(line: Prim, circle: Circle, sqrt: SqrtFn)
    ensures var q := CircleCoefficientsAsWritten(line, circle);
      CircleLineInterPoints(line, circle, sqrt).Err? <==> FirstCrossingOff(line, q, sqrt)
    ensures CircleLineInterPoints(line, circle, sqrt).Err? ==>
      CircleLineInterPoints(line, circle, sqrt).error == IndexError(ListIndexOutOfRange)
  {
    var q := CircleCoefficientsAsWritten(line, circle);
    SquareNonNegative(Slope(line));
    assert q.a != 0.0;
    assert Solve(q.a, q.b, q.c, sqrt).Ok?;
  }

  /** Each point the intended circle builder returns rounds a point (x, y) of the
      line y = kx + m that lies exactly on the circle. */
  lemma CircleLineInterPointsIntendedOnCircle(line: Prim, circle: Circle, sqrt: SqrtFn, p: Vector2d) returns (x: real)
    requires IsSqrt(sqrt)
    requires CircleLineInterPointsIntended(line, circle, sqrt).Ok? && CircleLineInterPointsIntended(line, circle, sqrt).value.Some?
    requires p in CircleLineInterPointsIntended(line, circle, sqrt).value.value
    ensures p == Make(x, LineY(line, x))
    ensures Square(x - circle.center.x) + Square(LineY(line, x) - circle.center.y) == Square(circle.radius)
  {
    var q := CircleCoefficients(line, circle);
    x := InterPointsIntendedFromRoots(line, q, sqrt, p);
    CircleRootOnCircle(line, circle, x);
  }

  /** The roots 0 and 1, in that order, of the as-written quadratic for the unit
      circle round (1, 0) and a primitive along the x axis; the corrected quadratic
      has the roots 0 and 2. */
  lemma UnitCircleRoots(line: Prim, circle: Circle, sqrt: SqrtFn)
    requires IsSqrt(sqrt) && Slope(line) == 0.0 && YIntercept(line, 0.0) == 0.0
    requires circle == Circle(Vector2d(1.0, 0.0), 1.0)
    ensures var q := CircleCoefficientsAsWritten(line, circle); Solve(q.a, q.b, q.c, sqrt) == Ok(Some([0.0, 1.0]))
    ensures var q := CircleCoefficients(line, circle); Solve(q.a, q.b, q.c, sqrt) == Ok(Some([0.0, 2.0]))
  {
    assert CircleCoefficientsAsWritten(line, circle) == Coefficients(1.0, -1.0, 0.0);
    assert CircleCoefficients(line, circle) == Coefficients(1.0, -2.0, 0.0);
    SqrtUnique(sqrt, 1.0, 1.0);
    SqrtUnique(sqrt, 4.0, 2.0);
    assert Discriminant(1.0, -1.0, 0.0) == 1.0 && Discriminant(1.0, -2.0, 0.0) == 4.0;
  }

  /** The unit circle round (1, 0). On the x axis through (0, 0) and (2, 0) the
      builder as written returns the centre (1, 0) as a crossing; on the segment from
      (1, 0) to (3, 0) it raises IndexError. The intended builder finds (2, 0) on
      the segment. */
  lemma CircleLineInterPointsCounterexample(line: Prim, segment: Prim, circle: Circle, sqrt: SqrtFn)
    requires IsSqrt(sqrt)
    requires line == Primitive(LineKind, Vector2d(0.0, 0.0), Vector2d(2.0, 0.0))
    requires segment == Primitive(SegmentKind, Vector2d(1.0, 0.0), Vector2d(3.0, 0.0))
    requires circle == Circle(Vector2d(1.0, 0.0), 1.0)
    ensures CircleLineInterPoints(line, circle, sqrt) == Ok(Some([Vector2d(0.0, 0.0), Vector2d(1.0, 0.0)]))
    ensures CircleLineInterPoints(segment, circle, sqrt) == Err(IndexError(ListIndexOutOfRange))
    ensures CircleLineInterPointsIntended(segment, circle, sqrt) == Ok(Some([Vector2d(2.0, 0.0)]))
  {
    assert Slope(line) == 0.0 && YIntercept(line, 0.0) == 0.0;
    assert Slope(segment) == 0.0 && YIntercept(segment, 0.0) == 0.0;
    UnitCircleRoots(line, circle, sqrt);
    UnitCircleRoots(segment, circle, sqrt);
    CircleOnAxisLine(line, circle, sqrt);
    CircleOnAxisSegment(segment, circle, sqrt);
  }

  /** The x axis of the counterexample above keeps both as-written crossings. */
  lemma CircleOnAxisLine(line: Prim, circle: Circle, sqrt: SqrtFn)
    requires line == Primitive(LineKind, Vector2d(0.0, 0.0), Vector2d(2.0, 0.0))
    requires var q := CircleCoefficientsAsWritten(line, circle); Solve(q.a, q.b, q.c, sqrt) == Ok(Some([0.0, 1.0]))
    ensures CircleLineInterPoints(line, circle, sqrt) == Ok(Some([Vector2d(0.0, 0.0), Vector2d(1.0, 0.0)]))
  {
    var q := CircleCoefficientsAsWritten(line, circle);
    var o, c := Vector2d(0.0, 0.0), Vector2d(1.0, 0.0);
    assert Slope(line) == 0.0 && LineY(line, 0.0) == 0.0 && LineY(line, 1.0) == 0.0;
    assert Make(0.0, 0.0) == o && Make(1.0, 0.0) == c;
    var points := Zip([0.0, 1.0], LineYs(line, [0.0, 1.0]));
    assert points[0] == o && points[1] == c;
    assert points == [o, c];
    assert IsPointBelongs(line, o, sqrt) && IsPointBelongs(line, c, sqrt);
    assert !FirstCrossingOff(line, q, sqrt);
    assert [o, c][1..] == [c] && [c][1..] == [];
    assert KeepOnLine(line, [c], sqrt) == [c];
    assert KeepOnLine(line, [o, c], sqrt) == [o, c];
  }

  /** The segment of the counterexample above: the first as-written crossing (0, 0)
      is off it, and of the corrected crossings (0, 0) and (2, 0) it keeps the
      second. */
  lemma CircleOnAxisSegment(segment: Prim, circle: Circle, sqrt: SqrtFn)
    requires segment == Primitive(SegmentKind, Vector2d(1.0, 0.0), Vector2d(3.0, 0.0))
    requires var q := CircleCoefficientsAsWritten(segment, circle); Solve(q.a, q.b, q.c, sqrt) == Ok(Some([0.0, 1.0]))
    requires var q := CircleCoefficients(segment, circle); Solve(q.a, q.b, q.c, sqrt) == Ok(Some([0.0, 2.0]))
    ensures CircleLineInterPoints(segment, circle, sqrt) == Err(IndexError(ListIndexOutOfRange))
    ensures CircleLineInterPointsIntended(segment, circle, sqrt) == Ok(Some([Vector2d(2.0, 0.0)]))
  {
    var o := Vector2d(0.0, 0.0);
    assert Slope(segment) == 0.0 && LineY(segment, 0.0) == 0.0;
    assert Make(0.0, 0.0) == o;
    assert !IsPointBelongs(segment, o, sqrt);
    assert FirstCrossingOff(segment, CircleCoefficientsAsWritten(segment, circle), sqrt);
    CircleOnAxisSegmentIntended(segment, CircleCoefficients(segment, circle), sqrt);
  }

  /** The corrected crossings (0, 0) and (2, 0) of the segment from (1, 0) to (3, 0):
      only the second is kept. */
  lemma CircleOnAxisSegmentIntended(segment: Prim, q: Coefficients, sqrt: SqrtFn)
    requires segment == Primitive(SegmentKind, Vector2d(1.0, 0.0), Vector2d(3.0, 0.0))
    requires Solve(q.a, q.b, q.c, sqrt) == Ok(Some([0.0, 2.0]))
    ensures InterPointsIntended(segment, q, sqrt) == Ok(Some([Vector2d(2.0, 0.0)]))
  {
    var points := Zip([0.0, 2.0], LineYs(segment, [0.0, 2.0]));
    OnAxisPoints(segment);
    DeleteOutsideAsWrittenCounterexample(segment, points, sqrt);
    assert InterPointsIntended(segment, q, sqrt) == Ok(Some(KeepOnLine(segment, points, sqrt)));
  }

  /** The points of x = 0 and x = 2 on the x axis through (1, 0) and (3, 0). */
  lemma OnAxisPoints(segment: Prim)
    requires segment == Primitive(SegmentKind, Vector2d(1.0, 0.0), Vector2d(3.0, 0.0))
    ensures Zip([0.0, 2.0], LineYs(segment, [0.0, 2.0])) == [Vector2d(0.0, 0.0), Vector2d(2.0, 0.0)]
  {
    assert Slope(segment) == 0.0 && LineY(segment, 0.0) == 0.0 && LineY(segment, 2.0) == 0.0;
    var ys := LineYs(segment, [0.0, 2.0]);
    assert ys[0] == 0.0 && ys[1] == 0.0;
    assert ys == [0.0, 0.0];
    AxisZip();
  }

  lemma AxisZip()
    ensures Zip([0.0, 2.0], [0.0, 0.0]) == [Vector2d(0.0, 0.0), Vector2d(2.0, 0.0)]
  {
    var o, e := Vector2d(0.0, 0.0), Vector2d(2.0, 0.0);
    assert Make(0.0, 0.0) == o && Make(2.0, 0.0) == e;
    var points := Zip([0.0, 2.0], [0.0, 0.0]);
    assert points[0] == o && points[1] == e;
    PairFromElements(points, o, e);
  }

  lemma PairFromElements(s: seq<Vector2d>, a: Vector2d, b: Vector2d)
    requires |s| == 2 && s[0] == a && s[1] == b
    ensures s == [a, b]
  {
  }

  /** The ellipse of radii 0.4 and the segment from (0, 0) to (3, 0): the crossings
      are x = -0.4, then x = 0.4, and the first is off the segment, so the builder
      as written raises IndexError where the intended one finds (0.4, 0). */
  lemma EllipseLineInterPointsCounterexample(segment: Prim, e: Ellipse, sqrt: SqrtFn)
    requires IsSqrt(sqrt)
    requires segment == Primitive(SegmentKind, Vector2d(0.0, 0.0), Vector2d(3.0, 0.0))
    requires e.horizontalRadius == 0.4 && e.verticalRadius == 0.4
    ensures EllipseLineInterPoints(segment, e, sqrt) == Err(IndexError(ListIndexOutOfRange))
    ensures InterPointsIntended(segment, EllipseCoefficients(segment, e), sqrt) == Ok(Some([Vector2d(0.4, 0.0)]))
  {
    var q := EllipseCoefficients(segment, e);
    assert Slope(segment) == 0.0 && YIntercept(segment, 0.0) == 0.0;
    assert q == Coefficients(0.16, 0.0, -0.0256);
    assert Discriminant(0.16, 0.0, -0.0256) == 0.016384;
    SqrtUnique(sqrt, 0.016384, 0.128);
    assert Solve(q.a, q.b, q.c, sqrt) == Ok(Some([-0.4, 0.4]));
    SmallCircleOnSegment(segment, q, sqrt);
  }

  /** The points of the counterexample above. */
  lemma SmallCircleOnSegment(segment: Prim, q: Coefficients, sqrt: SqrtFn)
    requires segment == Primitive(SegmentKind, Vector2d(0.0, 0.0), Vector2d(3.0, 0.0))
    requires Solve(q.a, q.b, q.c, sqrt) == Ok(Some([-0.4, 0.4]))
    ensures InterPoints(segment, q, sqrt) == Err(IndexError(ListIndexOutOfRange))
    ensures InterPointsIntended(segment, q, sqrt) == Ok(Some([Vector2d(0.4, 0.0)]))
  {
    var l, r := Vector2d(-0.4, 0.0), Vector2d(0.4, 0.0);
    assert Slope(segment) == 0.0 && LineY(segment, -0.4) == 0.0 && LineY(segment, 0.4) == 0.0;
    assert OnGrid(-0.4) && OnGrid(0.4) && OnGrid(0.0);
    assert Make(-0.4, 0.0) == l && Make(0.4, 0.0) == r;
    assert !IsPointBelongs(segment, l, sqrt);
    assert FirstCrossingOff(segment, q, sqrt);
    var points := Zip([-0.4, 0.4], LineYs(segment, [-0.4, 0.4]));
    assert points[0] == l && points[1] == r;
    assert points == [l, r];
    assert IsPointBelongs(segment, r, sqrt);
    assert [l, r][1..] == [r] && [r][1..] == [];
    assert KeepOnLine(segment, [r], sqrt) == [r];
    assert KeepOnLine(segment, [l, r], sqrt) == [r];
  }

  /** A root of the corrected circle quadratic gives a point of the circle. */
  lemma CircleRootOnCircle(line: Primitive, circle: Circle, x: real)
    requires var q := CircleCoefficients(line, circle); Polynomial(q.a, q.b, q.c, x) == 0.0
    ensures Square(x - circle.center.x) + Square(LineY(line, x) - circle.center.y) == Square(circle.radius)
  {
    CircleCoefficientsMeaning(line, circle, x);
  }

  /** Each point the ellipse builder returns rounds a point (x, y) of the line on the
      ellipse x^2/a^2 + y^2/b^2 = 1 placed at the origin. */
  lemma EllipseLineInterPointsOnEllipse(line: Prim, e: Ellipse, sqrt: SqrtFn, p: Vector2d) returns (x: real)
    requires IsSqrt(sqrt)
    requires EllipseLineInterPoints(line, e, sqrt).Ok? && EllipseLineInterPoints(line, e, sqrt).value.Some?
    requires p in EllipseLineInterPoints(line, e, sqrt).value.value
    ensures p == Make(x, LineY(line, x))
    ensures Square(e.verticalRadius) * Square(x) + Square(e.horizontalRadius) * Square(LineY(line, x)) ==
      Square(e.horizontalRadius) * Square(e.verticalRadius)
  {
    var q := EllipseCoefficients(line, e);
    x := InterPointsFromRoots(line, q, sqrt, p);
    EllipseRootOnEllipse(line, e, x);
  }

  /** A root of the ellipse quadratic gives a point of the ellipse round the origin. */
  lemma EllipseRootOnEllipse(line: Primitive, e: Ellipse, x: real)
    requires var q := EllipseCoefficients(line, e); Polynomial(q.a, q.b, q.c, x) == 0.0
    ensures Square(e.verticalRadius) * Square(x) + Square(e.horizontalRadius) * Square(LineY(line, x)) ==
      Square(e.horizontalRadius) * Square(e.verticalRadius)
  {
    EllipseCoefficientsMeaning(line, e, x);
  }

  // ----- line_ellipse_penetration -----

  /** `get_penttr_depth_one_point_line_ellipse`: the distance from the point to the
      end of the line nearer to the centre, the second end on a tie. */
  function OnePointDepth(point: Vector2d, line: Primitive, center: Vector2d, sqrt: SqrtFn): real {
    var firstToCenter := Magnitude(Sub(center, line.first), sqrt);
    var secondToCenter := Magnitude(Sub(center, line.second), sqrt);
    if secondToCenter > firstToCenter then Magnitude(Sub(point, line.first), sqrt)
    else Magnitude(Sub(point, line.second), sqrt)
  }

  /** The one-point depth is measured from an end point no farther from the centre
      than the other end point. */
  lemma OnePointDepthFromNearerEnd(point: Vector2d, line: Primitive, center: Vector2d, sqrt: SqrtFn)
    ensures var d := OnePointDepth(point, line, center, sqrt);
      var c1, c2 := Magnitude(Sub(center, line.first), sqrt), Magnitude(Sub(center, line.second), sqrt);
      (d == Magnitude(Sub(point, line.first), sqrt) && c1 <= c2) ||
      (d == Magnitude(Sub(point, line.second), sqrt) && c2 <= c1)
  {
  }

  /** With a true square root the one-point depth is a distance, never negative. */
  lemma OnePointDepthNonNegative(point: Vector2d, line: Primitive, center: Vector2d, sqrt: SqrtFn)
    requires IsSqrt(sqrt)
    ensures 0.0 <= OnePointDepth(point, line, center, sqrt)
  {
    MagnitudeRoot(Sub(point, line.first), sqrt);
    MagnitudeRoot(Sub(point, line.second), sqrt);
  }

  const BorderMessagePrefix := "Can't find line-ellipse penetration depth (when draw line through borderget "
  const BorderMessageSuffix := " expected one point)"

  /** `get_penttr_depth_two_points_line_ellipse`: from the midpoint of the chord a
      segment of length max radius is drawn toward the centre (the direction of the
      segment from the midpoint to the centre); the distance from
      the midpoint to the one point where it leaves the ellipse is the depth. The
      segments raise when their points coincide; a builder result other than one
      point raises. */
  function TwoPointDepth(points: seq<Vector2d>, e: Ellipse, sqrt: SqrtFn): (r: Result<real>)
    requires |points| == 2
    ensures ApproxEq(points[0], points[1]) ==> r == Err(AttributeError(SamePointsMessage))
  {
    var chord :- MakePrimitive(SegmentKind, points[0], points[1]);
    var middle := MiddlePoint(chord);
    var toCenter :- MakePrimitive(SegmentKind, middle, e.center);
    var direction := Direction(toCenter, sqrt);
    var scalar := MaxRadius(e);
    var throughBorder :- MakePrimitive(SegmentKind, middle, AddScaled(middle, direction, scalar));
    var border :- EllipseLineInterPoints(throughBorder, e, sqrt);
    if border.None? then Err(TypeError("object of type 'NoneType' has no len()"))
    else if |border.value| != 1 then Err(Exception(BorderMessagePrefix + BorderMessageSuffix))
    else Ok(Magnitude(Sub(border.value[0], middle), sqrt))
  }

  /** A chord whose midpoint is the centre, which every line through the centre
      gives, makes the second segment raise. */
  lemma TwoPointDepthThroughCenter(points: seq<Vector2d>, e: Ellipse, sqrt: SqrtFn)
    requires |points| == 2 && !ApproxEq(points[0], points[1])
    requires MiddlePoint(Primitive(SegmentKind, points[0], points[1])) == e.center
    ensures TwoPointDepth(points, e, sqrt) == Err(AttributeError(SamePointsMessage))
  {
    ApproxEqReflexiveSymmetric(e.center, e.center);
  }

  /** With a true square root the two-point depth, when there is one, is not
      negative. */
  lemma TwoPointDepthNonNegative(points: seq<Vector2d>, e: Ellipse, sqrt: SqrtFn)
    requires IsSqrt(sqrt) && |points| == 2
    ensures TwoPointDepth(points, e, sqrt).Ok? ==> 0.0 <= TwoPointDepth(points, e, sqrt).value
  {
    var r := TwoPointDepth(points, e, sqrt);
    if r.Ok? {
      var chord := Primitive(SegmentKind, points[0], points[1]);
      var middle := MiddlePoint(chord);
      var direction := Direction(Primitive(SegmentKind, middle, e.center), sqrt);
      var throughBorder := Primitive(SegmentKind, middle, AddScaled(middle, direction, MaxRadius(e)));
      var border := EllipseLineInterPoints(throughBorder, e, sqrt).value.value;
      MagnitudeRoot(Sub(border[0], middle), sqrt);
    }
  }

  // ----- line_ellipse_collision_detection: circle -----

  /** `get_inter_data_line_shape_circle`: None when the primitive is farther from the
      centre than the radius; otherwise the builder's points (None included) and
      the depth radius minus distance, or the builder's IndexError. */
  function LineShapeCircleData(line: Prim, circle: Circle, sqrt: SqrtFn): (r: Result<Option<Data>>)
    ensures DistanceToPoint(line, circle.center, sqrt) > circle.radius ==> r == Ok(None)
    ensures var points := CircleLineInterPoints(line, circle, sqrt);
      DistanceToPoint(line, circle.center, sqrt) <= circle.radius && points.Ok? ==>
        r == Ok(Some(Data(points.value, Some(circle.radius - DistanceToPoint(line, circle.center, sqrt)))))
    ensures r.Err? <==>
      DistanceToPoint(line, circle.center, sqrt) <= circle.radius && CircleLineInterPoints(line, circle, sqrt).Err?
    ensures r.Err? ==> r.error == IndexError(ListIndexOutOfRange)
  {
    var distanceToCenter := DistanceToPoint(line, circle.center, sqrt);
    if distanceToCenter > circle.radius then Ok(None)
    else
      var depth := circle.radius - distanceToCenter;
      CircleLineInterPointsErrors(line, circle, sqrt);
      var points :- CircleLineInterPoints(line, circle, sqrt);
      Ok(Some(Data(points, Some(depth))))
  }

  /** With a true square root the depth of a circle hit lies between zero and the
      radius. */
  lemma LineShapeCircleDepthBounded(line: Prim, circle: Circle, sqrt: SqrtFn)
    requires IsSqrt(sqrt)
    ensures var r := LineShapeCircleData(line, circle, sqrt);
      r.Ok? && r.value.Some? ==> 0.0 <= r.value.value.depth.value <= circle.radius
  {
    DistanceToPointNonNegative(line, circle.center, sqrt);
  }

  const CircleDistanceMessage := "'Circle' object has no attribute 'get_distance_to_point'"

  /** `get_inter_data_segment_circle(circle, segment)`: its parameter names are the
      other way round from its name, so called with (segment, circle) it hands the
      circle to `get_inter_data_line_shape_circle` as the line, which asks the circle
      for a method it does not have. */
  function SegmentCircleData(segment: Prim, circle: Circle): (r: Result<Option<Data>>)
    ensures r == Err(AttributeError(CircleDistanceMessage))
  {
    Err(AttributeError(CircleDistanceMessage))
  }

  /** `get_inter_data_circle_segment`: it swaps its operands and calls the routine
      above, which swaps them back into the wrong order. */
  function CircleSegmentData(circle: Circle, segment: Prim): (r: Result<Option<Data>>)
    ensures r == Err(AttributeError(CircleDistanceMessage))
  {
    Err(AttributeError(CircleDistanceMessage))
  }

  /** `get_inter_data_line_circle`, `get_inter_data_ray_circle` and their reversed
      forms. */
  function LineCircleData(line: Prim, circle: Circle, sqrt: SqrtFn): Result<Option<Data>> {
    LineShapeCircleData(line, circle, sqrt)
  }

  function CircleLineData(circle: Circle, line: Prim, sqrt: SqrtFn): Result<Option<Data>> {
    LineCircleData(line, circle, sqrt)
  }

  // ----- line_ellipse_collision_detection: ellipse -----

  /** `get_inter_data_line_shape_ellipse`: None without points; two points take the
      two-point depth, one point the one-point depth. */
  function LineShapeEllipseData(line: Prim, e: Ellipse, sqrt: SqrtFn): (r: Result<Option<Data>>)
    ensures EllipseLineInterPoints(line, e, sqrt).Err? ==> r == Err(EllipseLineInterPoints(line, e, sqrt).error)
    ensures var pts := EllipseLineInterPoints(line, e, sqrt);
      pts.Ok? && (pts.value.None? || |pts.value.value| == 0) ==> r == Ok(None)
    ensures r.Ok? && r.value.Some? ==>
      (EllipseLineInterPoints(line, e, sqrt).Ok? &&
       r.value.value.points == EllipseLineInterPoints(line, e, sqrt).value && r.value.value.depth.Some?)
    ensures var pts := EllipseLineInterPoints(line, e, sqrt);
      pts.Ok? && pts.value.Some? && |pts.value.value| == 1 ==>
        r == Ok(Some(Data(pts.value, Some(OnePointDepth(pts.value.value[0], line, e.center, sqrt)))))
  {
    var points :- EllipseLineInterPoints(line, e, sqrt);
    if points.None? || |points.value| == 0 then Ok(None)
    else if |points.value| == 2 then
      var depth :- TwoPointDepth(points.value, e, sqrt);
      Ok(Some(Data(points, Some(depth))))
    else
      Ok(Some(Data(points, Some(OnePointDepth(points.value[0], line, e.center, sqrt)))))
  }

  /** `get_inter_data_line_ellipse`, `get_inter_data_ray_ellipse`,
      `get_inter_data_segment_ellipse` and their reversed forms. */
  function LineEllipseData(line: Prim, e: Ellipse, sqrt: SqrtFn): Result<Option<Data>> {
    LineShapeEllipseData(line, e, sqrt)
  }

  function EllipseLineData(e: Ellipse, line: Prim, sqrt: SqrtFn): Result<Option<Data>> {
    LineEllipseData(line, e, sqrt)
  }

  // ----- is_line_ellipse_intersect -----

  /** `is_intersect_line_circle`, `is_intersect_ray_circle` and
      `is_intersect_segment_circle`: the primitive is no farther from the centre than
      the radius. */
  predicate IsIntersectLineCircle(line: Prim, circle: Circle, sqrt: SqrtFn) {
    DistanceToPoint(line, circle.center, sqrt) <= circle.radius
  }

  /** The circle test holds exactly when the collision data is found. */
  lemma IsIntersectLineCircleMatchesData(line: Prim, circle: Circle, sqrt: SqrtFn)
    ensures IsIntersectLineCircle(line, circle, sqrt) <==> LineShapeCircleData(line, circle, sqrt) != Ok(None)
  {
  }

  const VectorSlopeMessage := "'Vector2d' object has no attribute 'get_slope'"

  /** `is_intersect_line_ellipse`, `is_intersect_ray_ellipse` and
      `is_intersect_segment_ellipse`: true when the centre is nearer to the
      primitive's closest point than the smaller radius; otherwise the vector to
      the centre is handed to the point builder as if it were a line, which raises. */
  function IsIntersectLineEllipse(line: Prim, e: Ellipse, sqrt: SqrtFn): (r: Result<bool>)
    ensures r != Ok(false)
    ensures r == Ok(true) <==> Magnitude(Sub(e.center, ClosestPoint(line, e.center, sqrt)), sqrt) < MinRadius(e)
    ensures r.Err? ==> r.error == AttributeError(VectorSlopeMessage)
  {
    var lineToCenter := Sub(e.center, ClosestPoint(line, e.center, sqrt));
    if Magnitude(lineToCenter, sqrt) < MinRadius(e) then Ok(true)
    else Err(AttributeError(VectorSlopeMessage))
  }
}
