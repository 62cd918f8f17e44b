/** Line-like against line-like collision detection, after the modules of
    core/math/geometry/collision_detection/lines: the determinant solver for the
    parameters (t, u) of the crossing point, the range filters of each pair of kinds,
    the crossing point itself, the collision data, the boolean tests and the signed
    distances. */
module Lines {
  import opened Wrappers
  import opened RealMath
  import opened Vectors
  import opened Primitives
  import opened Collisions

  /** The parameters of the crossing point: t along the first primitive, u along the
      second. */
  datatype Coeff = Coeff(t: real, u: real)

  // ----- get_penetr_coeff -----

  /** The determinant of the two direction vectors (first minus second point). */
  function Denominator(a: Primitive, b: Primitive): real {
    (a.first.x - a.second.x) * (b.first.y - b.second.y) - (a.first.y - a.second.y) * (b.first.x - b.second.x)
  }

  function TNumerator(a: Primitive, b: Primitive): real {
    (a.first.x - b.first.x) * (b.first.y - b.second.y) - (a.first.y - b.first.y) * (b.first.x - b.second.x)
  }

  function UNumerator(a: Primitive, b: Primitive): real {
    (a.first.x - a.second.x) * (a.first.y - b.first.y) - (a.first.y - a.second.y) * (a.first.x - b.first.x)
  }

  /** The exact point at parameter s along a primitive: first + s * (second - first). */
  function PointAt(p: Primitive, s: real): Vector2d {
    Vector2d(p.first.x + s * (p.second.x - p.first.x), p.first.y + s * (p.second.y - p.first.y))
  }

  /** `get_penetr_coeff`: None for parallel directions, otherwise the two parameters. */
  function PenetrCoeff(a: Primitive, b: Primitive): (r: Option<Coeff>)
    ensures r.None? <==> Denominator(a, b) == 0.0
    ensures r.Some? ==>
      r.value.t * Denominator(a, b) == TNumerator(a, b) && r.value.u * Denominator(a, b) == -UNumerator(a, b)
  {
    var denominator := Denominator(a, b);
    if denominator == 0.0 then None
    else Some(Coeff(TNumerator(a, b) / denominator, -(UNumerator(a, b) / denominator)))
  }

  /** The identity behind the solver: scaled by the determinant, the two parametric
      points agree coordinate by coordinate. */
  lemma CrossingIdentity(ex: real, ey: real, dx1: real, dy1: real, dx2: real, dy2: real)
    ensures var den := dx1 * dy2 - dy1 * dx2;
      var tn := -ex * dy2 + ey * dx2;
      var un := -dx1 * ey + dy1 * ex;
      ex * den + tn * dx1 + un * dx2 == 0.0 && ey * den + tn * dy1 + un * dy2 == 0.0
  {
  }

  /** One coordinate of the crossing: from the scaled identity to the coordinates. */
  lemma CrossingCoordinate(e: real, d1: real, d2: real, den: real, tn: real, un: real, t: real, u: real)
    requires den != 0.0 && t * den == tn && u * den == -un
    requires e * den + tn * d1 + un * d2 == 0.0
    ensures e + t * d1 == u * d2
  {
    assert (e + t * d1 - u * d2) * den == e * den + tn * d1 + un * d2;
  }

  /** The parameters the solver returns name the same point on both primitives. */
  lemma CoefficientsMeet(a: Primitive, b: Primitive)
    requires PenetrCoeff(a, b).Some?
    ensures var c := PenetrCoeff(a, b).value; PointAt(a, c.t) == PointAt(b, c.u)
  {
    var c := PenetrCoeff(a, b).value;
    var ex, ey := a.first.x - b.first.x, a.first.y - b.first.y;
    var dx1, dy1 := a.second.x - a.first.x, a.second.y - a.first.y;
    var dx2, dy2 := b.second.x - b.first.x, b.second.y - b.first.y;
    var den, tn, un := Denominator(a, b), TNumerator(a, b), UNumerator(a, b);
    DeterminantsAgree(a, b, ex, ey, dx1, dy1, dx2, dy2);
    CrossingIdentity(ex, ey, dx1, dy1, dx2, dy2);
    CrossingCoordinate(ex, dx1, dx2, den, tn, un, c.t, c.u);
    CrossingCoordinate(ey, dy1, dy2, den, tn, un, c.t, c.u);
  }

  /** Cramer's rule: a common point fixes both unknowns of the crossing equations. */
  lemma CrossingUnique(ex: real, ey: real, dx1: real, dy1: real, dx2: real, dy2: real, t: real, u: real,
                       den: real, tn: real, un: real)
    requires ex + t * dx1 == u * dx2 && ey + t * dy1 == u * dy2
    requires den == dx1 * dy2 - dy1 * dx2 && tn == -ex * dy2 + ey * dx2 && un == -dx1 * ey + dy1 * ex
    ensures t * den == tn && u * den == -un
  {
    assert (ex + t * dx1) * dy2 - (ey + t * dy1) * dx2 == u * dx2 * dy2 - u * dy2 * dx2;
    assert (ex + t * dx1) * dy1 - (ey + t * dy1) * dx1 == u * dx2 * dy1 - u * dy2 * dx1;
  }

  /** Division by a non-zero factor has one answer. */
  lemma Cancel(x: real, y: real, den: real)
    requires den != 0.0 && x * den == y * den
    ensures x == y
  {
    assert (x - y) * den == 0.0;
  }

  /** Conversely, when the directions are not parallel every common point is the
      one the solver names: the solver's answer is the only crossing. */
  lemma CoefficientsUnique(a: Primitive, b: Primitive, t: real, u: real)
    requires Denominator(a, b) != 0.0 && PointAt(a, t) == PointAt(b, u)
    ensures PenetrCoeff(a, b) == Some(Coeff(t, u))
  {
    var ex, ey := a.first.x - b.first.x, a.first.y - b.first.y;
    var dx1, dy1 := a.second.x - a.first.x, a.second.y - a.first.y;
    var dx2, dy2 := b.second.x - b.first.x, b.second.y - b.first.y;
    var den, tn, un := Denominator(a, b), TNumerator(a, b), UNumerator(a, b);
    DeterminantsAgree(a, b, ex, ey, dx1, dy1, dx2, dy2);
    CrossingUnique(ex, ey, dx1, dy1, dx2, dy2, t, u, den, tn, un);
    var c := PenetrCoeff(a, b).value;
    Cancel(c.t, t, den);
    Cancel(c.u, u, den);
  }

  /** The solver's determinants written with the direction vectors. */
  lemma DeterminantsAgree(a: Primitive, b: Primitive, ex: real, ey: real, dx1: real, dy1: real, dx2: real, dy2: real)
    requires ex == a.first.x - b.first.x && ey == a.first.y - b.first.y
    requires dx1 == a.second.x - a.first.x && dy1 == a.second.y - a.first.y
    requires dx2 == b.second.x - b.first.x && dy2 == b.second.y - b.first.y
    ensures Denominator(a, b) == dx1 * dy2 - dy1 * dx2
    ensures TNumerator(a, b) == -ex * dy2 + ey * dx2
    ensures UNumerator(a, b) == -dx1 * ey + dy1 * ex
  {
  }

  // ----- the range filters -----

  /** The ranges a parameter is checked against: anything, at least zero, or the
      closed unit interval. */
  datatype Range = Anywhere | NonNegative | UnitInterval

  predicate Within(x: real, range: Range) {
    match range
    case Anywhere => true
    case NonNegative => 0.0 <= x
    case UnitInterval => 0.0 <= x <= 1.0
  }

  /** The solver's answer when both parameters are in their ranges, else None. */
  function Accepted(a: Primitive, b: Primitive, tRange: Range, uRange: Range): Option<Coeff> {
    var c := PenetrCoeff(a, b);
    if c.Some? && Within(c.value.t, tRange) && Within(c.value.u, uRange) then c else None
  }

  /** `get_penetr_segment_ray_coeff`: t in [0, 1] and u at least 0. */
  function SegmentRayCoeff(segment: Primitive, ray: Primitive): (r: Option<Coeff>)
    ensures r == Accepted(segment, ray, UnitInterval, NonNegative)
  {
    match PenetrCoeff(segment, ray)
    case None => None
    case Some(c) => if c.t > 1.0 || c.t < 0.0 || c.u < 0.0 then None else Some(c)
  }

  /** `get_penetr_line_ray_coeff`: only u at least 0. */
  function LineRayCoeff(line: Primitive, ray: Primitive): (r: Option<Coeff>)
    ensures r == Accepted(line, ray, Anywhere, NonNegative)
  {
    match PenetrCoeff(line, ray)
    case None => None
    case Some(c) => if c.u < 0.0 then None else Some(c)
  }

  /** `get_penetr_ray_ray_coeff`: both parameters at least 0. */
  function RayRayCoeff(a: Primitive, b: Primitive): (r: Option<Coeff>)
    ensures r == Accepted(a, b, NonNegative, NonNegative)
  {
    match PenetrCoeff(a, b)
    case None => None
    case Some(c) => if c.t < 0.0 || c.u < 0.0 then None else Some(c)
  }

  /** `get_penetr_segment_segment_coeff`: both parameters in [0, 1]. */
  function SegmentSegmentCoeff(a: Primitive, b: Primitive): (r: Option<Coeff>)
    ensures r == Accepted(a, b, UnitInterval, UnitInterval)
  {
    match PenetrCoeff(a, b)
    case None => None
    case Some(c) => if c.t > 1.0 || c.t < 0.0 || c.u > 1.0 || c.u < 0.0 then None else Some(c)
  }

  /** `get_penetr_segment_line_coeff`: only t in [0, 1]. */
  function SegmentLineCoeff(segment: Primitive, line: Primitive): (r: Option<Coeff>)
    ensures r == Accepted(segment, line, UnitInterval, Anywhere)
  {
    match PenetrCoeff(segment, line)
    case None => None
    case Some(c) => if c.t > 1.0 || c.t < 0.0 then None else Some(c)
  }

  /** `get_penetr_line_line_coeff`: the solver's answer unfiltered. */
  function LineLineCoeff(a: Primitive, b: Primitive): (r: Option<Coeff>)
    ensures r == Accepted(a, b, Anywhere, Anywhere)
  {
    PenetrCoeff(a, b)
  }

  /** Two segments accepted by their filter cross at a point that lies within both:
      the same exact point, at parameters in [0, 1] of each. */
  lemma SegmentsCrossWithinBoth(a: Primitive, b: Primitive)
    requires SegmentSegmentCoeff(a, b).Some?
    ensures var c := SegmentSegmentCoeff(a, b).value;
      0.0 <= c.t <= 1.0 && 0.0 <= c.u <= 1.0 && PointAt(a, c.t) == PointAt(b, c.u)
  {
    CoefficientsMeet(a, b);
  }

  // ----- get_segments_intersection_points -----

  /** `get_segments_intersection_points`: a one-element list holding the rounded point
      at parameter t along the primitive; u plays no part. */
  function IntersectionPoints(p: Primitive, c: Coeff): (r: seq<Vector2d>)
    ensures |r| == 1 && Rounded(r[0])
    ensures Abs(r[0].x - PointAt(p, c.t).x) <= 0.00005 && Abs(r[0].y - PointAt(p, c.t).y) <= 0.00005
  {
    var q := PointAt(p, c.t);
    [Make(q.x, q.y)]
  }

  /** Parameter 0 gives the first point and parameter 1 the second one. */
  lemma IntersectionPointsAtEnds(p: Primitive, u: real)
    requires Rounded(p.first) && Rounded(p.second)
    ensures IntersectionPoints(p, Coeff(0.0, u)) == [p.first]
    ensures IntersectionPoints(p, Coeff(1.0, u)) == [p.second]
  {
    assert PointAt(p, 1.0) == p.second;
  }

  // ----- get_inter_data_* -----

  /** The depth of a segment-first pair: with L the segment's length,
      `min(L - L * t, L - (L - L * t))`. */
  function PenetrationLength(length: real, t: real): (r: real)
    ensures r == Min(length * (1.0 - t), length * t)
    ensures 0.0 <= length && 0.0 <= t <= 1.0 ==> 0.0 <= r <= length / 2.0
  {
    var penetration := length - length * t;
    assert length - penetration == length * t;
    HalvesBound(length, t);
    Min(penetration, length - penetration)
  }

  /** The smaller of the two parts of a length split at t is at most half of it. */
  lemma HalvesBound(length: real, t: real)
    ensures 0.0 <= length && 0.0 <= t <= 1.0 ==>
      0.0 <= Min(length * (1.0 - t), length * t) <= length / 2.0
  {
    if 0.0 <= length && 0.0 <= t <= 1.0 {
      assert 0.0 <= length * t;
      assert 0.0 <= length * (1.0 - t);
      assert length * (1.0 - t) + length * t == length;
    }
  }

  /** The data of a routine with no depth: the crossing point on the first operand. */
  function PointData(p: Primitive, c: Option<Coeff>): (r: Option<Data>)
    ensures r.None? <==> c.None?
    ensures r.Some? ==> r.value == WithList(IntersectionPoints(p, c.value), None)
  {
    if c.None? then None else Some(WithList(IntersectionPoints(p, c.value), None))
  }

  /** The data of a segment-first routine: the crossing point on the segment and the
      depth from its length. */
  function SegmentData(segment: Primitive, c: Option<Coeff>, sqrt: SqrtFn): (r: Option<Data>)
    ensures r.None? <==> c.None?
    ensures r.Some? ==> r.value == WithList(IntersectionPoints(segment, c.value),
      Some(PenetrationLength(Length(segment, sqrt), c.value.t)))
  {
    if c.None? then None
    else
      var length := Length(segment, sqrt);
      Some(WithList(IntersectionPoints(segment, c.value), Some(PenetrationLength(length, c.value.t))))
  }

  /** `get_inter_data_line_line`. */
  function LineLineData(a: Prim, b: Prim): (r: Option<Data>)
    ensures r == PointData(a, Accepted(a, b, Anywhere, Anywhere))
  {
    PointData(a, LineLineCoeff(a, b))
  }

  /** `get_inter_data_line_ray`; `get_inter_data_ray_line(line, ray)` forwards its
      operands unchanged, so called on (ray, line) the ray is put first here. */
  function LineRayData(line: Prim, ray: Prim): (r: Option<Data>)
    ensures r == PointData(line, Accepted(line, ray, Anywhere, NonNegative))
  {
    PointData(line, LineRayCoeff(line, ray))
  }

  function RayLineData(line: Prim, ray: Prim): Option<Data> {
    LineRayData(line, ray)
  }

  /** `get_inter_data_ray_ray`. */
  function RayRayData(a: Prim, b: Prim): (r: Option<Data>)
    ensures r == PointData(a, Accepted(a, b, NonNegative, NonNegative))
  {
    PointData(a, RayRayCoeff(a, b))
  }

  /** `get_inter_data_segment_line`; `get_inter_data_line_segment` swaps its
      operands onto it. */
  function SegmentLineData(segment: Prim, line: Prim, sqrt: SqrtFn): (r: Option<Data>)
    ensures r == SegmentData(segment, Accepted(segment, line, UnitInterval, Anywhere), sqrt)
  {
    SegmentData(segment, SegmentLineCoeff(segment, line), sqrt)
  }

  function LineSegmentData(line: Prim, segment: Prim, sqrt: SqrtFn): Option<Data> {
    SegmentLineData(segment, line, sqrt)
  }

  /** `get_inter_data_segment_ray`; `get_inter_data_ray_segment` swaps its operands
      onto it. */
  function SegmentRayData(segment: Prim, ray: Prim, sqrt: SqrtFn): (r: Option<Data>)
    ensures r == SegmentData(segment, Accepted(segment, ray, UnitInterval, NonNegative), sqrt)
  {
    SegmentData(segment, SegmentRayCoeff(segment, ray), sqrt)
  }

  function RaySegmentData(ray: Prim, segment: Prim, sqrt: SqrtFn): Option<Data> {
    SegmentRayData(segment, ray, sqrt)
  }

  /** `get_inter_data_segment_segment`. */
  function SegmentSegmentData(a: Prim, b: Prim, sqrt: SqrtFn): (r: Option<Data>)
    ensures r == SegmentData(a, Accepted(a, b, UnitInterval, UnitInterval), sqrt)
  {
    SegmentData(a, SegmentSegmentCoeff(a, b), sqrt)
  }

  /** With a true square root every segment-first depth lies between zero and half
      the segment's length. */
  lemma SegmentDepthBounded(segment: Prim, c: Option<Coeff>, sqrt: SqrtFn)
    requires IsSqrt(sqrt) && c.Some? && 0.0 <= c.value.t <= 1.0
    ensures var d := SegmentData(segment, c, sqrt).value.depth.value;
      0.0 <= d <= Length(segment, sqrt) / 2.0
  {
    MagnitudeRoot(Sub(segment.second, segment.first), sqrt);
  }

  const SegmentFromThirdQuadrant := Primitive(SegmentKind, Vector2d(-6.0, 0.0), Vector2d(6.0, 6.0))
  const SegmentThroughTwoFour := Primitive(SegmentKind, Vector2d(-2.0, 0.0), Vector2d(4.0, 6.0))

  /** The crossing of y = 0.5x + 3 and y = x + 2 taken in either order: both orders
      report the single point (2, 4). */
  lemma CrossingSegmentsMeetAtTwoFour(a: Prim, b: Prim, sqrt: SqrtFn)
    requires a == SegmentFromThirdQuadrant && b == SegmentThroughTwoFour
    ensures SegmentSegmentData(a, b, sqrt).Some?
    ensures SegmentSegmentData(a, b, sqrt).value.points == Some([Vector2d(2.0, 4.0)])
    ensures SegmentSegmentData(b, a, sqrt).Some?
    ensures SegmentSegmentData(b, a, sqrt).value.points == Some([Vector2d(2.0, 4.0)])
  {
    assert Denominator(a, b) == 36.0 && TNumerator(a, b) == 24.0 && UNumerator(a, b) == -24.0;
    assert PenetrCoeff(a, b) == Some(Coeff(2.0 / 3.0, 2.0 / 3.0));
    assert PointAt(a, 2.0 / 3.0) == Vector2d(2.0, 4.0);
    OnGridInt(2);
    OnGridInt(4);
    assert Denominator(b, a) == -36.0 && TNumerator(b, a) == -24.0 && UNumerator(b, a) == 24.0;
    assert PenetrCoeff(b, a) == Some(Coeff(2.0 / 3.0, 2.0 / 3.0));
    assert PointAt(b, 2.0 / 3.0) == Vector2d(2.0, 4.0);
  }

  // ----- is_intersect_* -----

  /** `is_intersect_line_line`: the coefficients exist. */
  predicate IsIntersectLineLine(a: Prim, b: Prim) {
    LineLineCoeff(a, b).Some?
  }

  /** `is_intersect_line_ray`; `is_intersect_ray_line` swaps its operands onto it. */
  predicate IsIntersectLineRay(line: Prim, ray: Prim) {
    LineRayCoeff(line, ray).Some?
  }

  predicate IsIntersectRayLine(ray: Prim, line: Prim) {
    IsIntersectLineRay(line, ray)
  }

  /** `is_intersect_ray_ray`. */
  predicate IsIntersectRayRay(a: Prim, b: Prim) {
    RayRayCoeff(a, b).Some?
  }

  /** `is_intersect_line_segment`: as written it hands the line to the segment-line
      filter in the segment's place and then tests `0 >= u <= 1`. */
  predicate IsIntersectLineSegment(line: Prim, segment: Prim) {
    var c := SegmentLineCoeff(line, segment);
    c.Some? && 0.0 >= c.value.u && c.value.u <= 1.0
  }

  predicate IsIntersectSegmentLine(segment: Prim, line: Prim) {
    IsIntersectLineSegment(line, segment)
  }

  /** `is_intersect_ray_segment`: the segment-ray filter and then `0 >= u <= 1`. */
  predicate IsIntersectRaySegment(ray: Prim, segment: Prim) {
    var c := SegmentRayCoeff(segment, ray);
    c.Some? && 0.0 >= c.value.u && c.value.u <= 1.0
  }

  predicate IsIntersectSegmentRay(segment: Prim, ray: Prim) {
    IsIntersectRaySegment(ray, segment)
  }

  /** `is_intersect_segment_segment`: the segment-segment filter and then
      `0 >= t <= 1 and 0 >= u <= 1`. */
  predicate IsIntersectSegmentSegment(a: Prim, b: Prim) {
    var c := SegmentSegmentCoeff(a, b);
    c.Some? && 0.0 >= c.value.t && c.value.t <= 1.0 && 0.0 >= c.value.u && c.value.u <= 1.0
  }

  /** The tests without a segment: exactly when their filter accepts. */
  lemma IsIntersectFiltered(a: Prim, b: Prim)
    ensures IsIntersectLineLine(a, b) <==> Denominator(a, b) != 0.0
    ensures IsIntersectLineRay(a, b) <==> Accepted(a, b, Anywhere, NonNegative).Some?
    ensures IsIntersectRayRay(a, b) <==> Accepted(a, b, NonNegative, NonNegative).Some?
  {
  }

  /** The tests with one segment. The line-segment test hands the line to the
      [0, 1] filter and then keeps the crossings with u at most 0: the segment's own
      range is never checked. The ray-segment test keeps only u = 0, the ray's start. */
  lemma IsIntersectWithSegment(a: Prim, b: Prim)
    ensures IsIntersectLineSegment(a, b) <==>
      (PenetrCoeff(a, b).Some? && 0.0 <= PenetrCoeff(a, b).value.t <= 1.0 && PenetrCoeff(a, b).value.u <= 0.0)
    ensures IsIntersectRaySegment(a, b) <==>
      (PenetrCoeff(b, a).Some? && 0.0 <= PenetrCoeff(b, a).value.t <= 1.0 && PenetrCoeff(b, a).value.u == 0.0)
  {
    var c, d := PenetrCoeff(a, b), PenetrCoeff(b, a);
    assert SegmentLineCoeff(a, b) == Accepted(a, b, UnitInterval, Anywhere);
    assert SegmentRayCoeff(b, a) == Accepted(b, a, UnitInterval, NonNegative);
  }

  /** The segment-segment test holds only when both parameters are exactly 0: the
      crossing is the first points of both segments. */
  lemma IsIntersectSegmentSegmentOnlyAtStarts(a: Prim, b: Prim)
    ensures IsIntersectSegmentSegment(a, b) <==> PenetrCoeff(a, b) == Some(Coeff(0.0, 0.0))
  {
    assert SegmentSegmentCoeff(a, b) == Accepted(a, b, UnitInterval, UnitInterval);
  }

  const DiagonalUp := Primitive(SegmentKind, Vector2d(0.0, 0.0), Vector2d(2.0, 2.0))
  const DiagonalDown := Primitive(SegmentKind, Vector2d(0.0, 2.0), Vector2d(2.0, 0.0))

  /** Two segments crossing in their middles: the collision data finds the point
      (1, 1), yet the boolean test says they do not intersect. */
  lemma CrossingSegmentsTestFalse(a: Prim, b: Prim, sqrt: SqrtFn)
    requires a == DiagonalUp && b == DiagonalDown
    ensures SegmentSegmentData(a, b, sqrt).Some?
    ensures SegmentSegmentData(a, b, sqrt).value.points == Some([Vector2d(1.0, 1.0)])
    ensures !IsIntersectSegmentSegment(a, b)
  {
    assert Denominator(a, b) == -8.0 && TNumerator(a, b) == -4.0 && UNumerator(a, b) == 4.0;
    assert PenetrCoeff(a, b) == Some(Coeff(0.5, 0.5));
    assert PointAt(a, 0.5) == Vector2d(1.0, 1.0);
    OnGridInt(1);
  }

  // ----- get_distance_* -----

  /** `(closest_point - point).get_magnitude()` with the primitive's closest point. */
  function PointGap(p: Prim, point: Vector2d, sqrt: SqrtFn): real {
    Magnitude(Sub(ClosestPoint(p, point, sqrt), point), sqrt)
  }

  /** The sign convention of every distance: negated once the objects intersect. */
  function Signed(gap: real, intersect: bool): real {
    if intersect then -gap else gap
  }

  /** `get_distance_line_line`: from the second line's first point to the first line. */
  function LineLineDistance(a: Prim, b: Prim, sqrt: SqrtFn): real {
    Signed(PointGap(a, b.first, sqrt), IsIntersectLineLine(a, b))
  }

  /** `get_distance_line_ray`: from the ray's first point to the line;
      `get_distance_ray_line` swaps its operands onto it. */
  function LineRayDistance(line: Prim, ray: Prim, sqrt: SqrtFn): real {
    Signed(PointGap(line, ray.first, sqrt), IsIntersectLineRay(line, ray))
  }

  function RayLineDistance(ray: Prim, line: Prim, sqrt: SqrtFn): real {
    LineRayDistance(line, ray, sqrt)
  }

  /** The nearer of the segment's two end points to the line. */
  function LineSegmentGap(line: Prim, segment: Prim, sqrt: SqrtFn): (r: real)
    ensures r <= PointGap(line, segment.first, sqrt) && r <= PointGap(line, segment.second, sqrt)
    ensures r == PointGap(line, segment.first, sqrt) || r == PointGap(line, segment.second, sqrt)
  {
    Min(PointGap(line, segment.first, sqrt), PointGap(line, segment.second, sqrt))
  }

  /** `get_distance_line_segment`; `get_distance_segment_line` swaps its operands
      onto it. */
  function LineSegmentDistance(line: Prim, segment: Prim, sqrt: SqrtFn): real {
    Signed(LineSegmentGap(line, segment, sqrt), IsIntersectLineSegment(line, segment))
  }

  function SegmentLineDistance(segment: Prim, line: Prim, sqrt: SqrtFn): real {
    LineSegmentDistance(line, segment, sqrt)
  }

  /** `get_distance_ray_ray`: the distance between the two start points. */
  function RayRayDistance(a: Prim, b: Prim, sqrt: SqrtFn): real {
    Signed(Magnitude(Sub(b.first, a.first), sqrt), IsIntersectRayRay(a, b))
  }

  /** The least of: the segment's end points to the ray, and the ray's first point
      to the segment. */
  function RaySegmentGap(ray: Prim, segment: Prim, sqrt: SqrtFn): (r: real)
    ensures var d1, d2, d3 := PointGap(ray, segment.first, sqrt), PointGap(ray, segment.second, sqrt),
      PointGap(segment, ray.first, sqrt);
      r <= d1 && r <= d2 && r <= d3 && (r == d1 || r == d2 || r == d3)
  {
    Min(Min(PointGap(ray, segment.first, sqrt), PointGap(ray, segment.second, sqrt)),
      PointGap(segment, ray.first, sqrt))
  }

  /** `get_distance_ray_segment`; `get_distance_segment_ray` swaps its operands onto
      it. */
  function RaySegmentDistance(ray: Prim, segment: Prim, sqrt: SqrtFn): real {
    Signed(RaySegmentGap(ray, segment, sqrt), IsIntersectRaySegment(ray, segment))
  }

  function SegmentRayDistance(segment: Prim, ray: Prim, sqrt: SqrtFn): real {
    RaySegmentDistance(ray, segment, sqrt)
  }

  /** The least of the four end-point-to-other-segment distances. */
  function SegmentSegmentGap(a: Prim, b: Prim, sqrt: SqrtFn): (r: real)
    ensures var d1, d2, d3, d4 := PointGap(a, b.first, sqrt), PointGap(a, b.second, sqrt),
      PointGap(b, a.first, sqrt), PointGap(b, a.second, sqrt);
      r <= d1 && r <= d2 && r <= d3 && r <= d4 && (r == d1 || r == d2 || r == d3 || r == d4)
  {
    Min(Min(Min(PointGap(a, b.first, sqrt), PointGap(a, b.second, sqrt)), PointGap(b, a.first, sqrt)),
      PointGap(b, a.second, sqrt))
  }

  /** `get_distance_segment_segment`. */
  function SegmentSegmentDistance(a: Prim, b: Prim, sqrt: SqrtFn): real {
    Signed(SegmentSegmentGap(a, b, sqrt), IsIntersectSegmentSegment(a, b))
  }

  /** A distance built from a non-negative `gap`: the gap negated when the objects
      intersect and the gap itself when they do not, so that a positive gap gives a
      negative distance exactly for an intersection. */
  predicate SignedBy(d: real, gap: real, intersect: bool) {
    0.0 <= gap && (intersect ==> d == -gap) && (!intersect ==> d == gap)
  }

  /** With a true square root every gap is non-negative. */
  lemma PointGapNonNegative(p: Prim, point: Vector2d, sqrt: SqrtFn)
    requires IsSqrt(sqrt)
    ensures 0.0 <= PointGap(p, point, sqrt)
  {
    MagnitudeRoot(Sub(ClosestPoint(p, point, sqrt), point), sqrt);
  }

  /** Each distance is its non-negative gap, negated exactly when the matching
      boolean test holds. */
  lemma DistancesSigned(a: Prim, b: Prim, sqrt: SqrtFn)
    requires IsSqrt(sqrt)
    ensures SignedBy(LineLineDistance(a, b, sqrt), PointGap(a, b.first, sqrt), IsIntersectLineLine(a, b))
    ensures SignedBy(LineRayDistance(a, b, sqrt), PointGap(a, b.first, sqrt), IsIntersectLineRay(a, b))
    ensures SignedBy(LineSegmentDistance(a, b, sqrt), LineSegmentGap(a, b, sqrt), IsIntersectLineSegment(a, b))
    ensures SignedBy(RayRayDistance(a, b, sqrt), Magnitude(Sub(b.first, a.first), sqrt), IsIntersectRayRay(a, b))
    ensures SignedBy(RaySegmentDistance(a, b, sqrt), RaySegmentGap(a, b, sqrt), IsIntersectRaySegment(a, b))
    ensures SignedBy(SegmentSegmentDistance(a, b, sqrt), SegmentSegmentGap(a, b, sqrt), IsIntersectSegmentSegment(a, b))
  {
    PointGapNonNegative(a, b.first, sqrt);
    PointGapNonNegative(a, b.second, sqrt);
    PointGapNonNegative(b, a.first, sqrt);
    PointGapNonNegative(b, a.second, sqrt);
    MagnitudeRoot(Sub(b.first, a.first), sqrt);
  }

  /** The reversed tests and distances put their operands back in the order of the
      routine they call, so each agrees with that routine's filter and sign
      convention. */
  lemma ReversedFormsAgree(a: Prim, b: Prim, sqrt: SqrtFn)
    requires IsSqrt(sqrt)
    ensures IsIntersectRayLine(b, a) <==> Accepted(a, b, Anywhere, NonNegative).Some?
    ensures IsIntersectSegmentLine(b, a) <==>
      (PenetrCoeff(a, b).Some? && 0.0 <= PenetrCoeff(a, b).value.t <= 1.0 && PenetrCoeff(a, b).value.u <= 0.0)
    ensures IsIntersectSegmentRay(b, a) <==>
      (PenetrCoeff(b, a).Some? && 0.0 <= PenetrCoeff(b, a).value.t <= 1.0 && PenetrCoeff(b, a).value.u == 0.0)
    ensures SignedBy(RayLineDistance(b, a, sqrt), PointGap(a, b.first, sqrt), IsIntersectRayLine(b, a))
    ensures SignedBy(SegmentLineDistance(b, a, sqrt), LineSegmentGap(a, b, sqrt), IsIntersectSegmentLine(b, a))
    ensures SignedBy(SegmentRayDistance(b, a, sqrt), RaySegmentGap(a, b, sqrt), IsIntersectSegmentRay(b, a))
  {
    IsIntersectFiltered(a, b);
    IsIntersectWithSegment(a, b);
    DistancesSigned(a, b, sqrt);
  }

  /** The reversed data routines: `get_inter_data_ray_line(line, ray)` is the
      (line, ray) routine on its operands as named, and the two with a segment second
      hand the segment to the segment-first filter. */
  lemma ReversedDataAccepted(a: Prim, b: Prim, sqrt: SqrtFn)
    ensures RayLineData(a, b) == PointData(a, Accepted(a, b, Anywhere, NonNegative))
    ensures LineSegmentData(a, b, sqrt) == SegmentData(b, Accepted(b, a, UnitInterval, Anywhere), sqrt)
    ensures RaySegmentData(a, b, sqrt) == SegmentData(b, Accepted(b, a, UnitInterval, NonNegative), sqrt)
  {
  }
}
