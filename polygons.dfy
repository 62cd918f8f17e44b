/** `BasePolygon` and its subclasses `ConvexPolygon`, `ConcavePolygon`, `Rectangle`
    and `Triangle` of core/math/geometry/geometry_objects.py. A polygon is a value:
    the constructor computes its derived data once (extremes, triangles, sides,
    centroid, diagonals) and nothing changes it afterwards. Each derived datum has a
    specification function, used by the rest of the model, and a method with the
    source's loop, proved to compute it. */
module Polygons {
  import opened Wrappers
  import opened RealMath
  import opened Vectors
  import opened Primitives

  datatype PolyKind = ConvexKind | ConcaveKind | RectangleKind(width: real, height: real) | TriangleKind

  /** The four points of `get_the_most_distant_points`, in the source's order. */
  datatype Extremes = Extremes(maxX: Vector2d, maxY: Vector2d, minX: Vector2d, minY: Vector2d)

  /** A constructed polygon. `triangles` is `None` for `ConcavePolygon`, whose
      `triangulate` returns nothing. */
  datatype Polygon = Polygon(
    kind: PolyKind,
    points: seq<Vector2d>,
    extremes: Extremes,
    triangles: Option<seq<Polygon>>,
    sides: seq<Prim>,
    centroid: Vector2d,
    diagonals: seq<Prim>)

  function KindName(k: PolyKind): string {
    match k
    case ConvexKind => "ConvexPolygon"
    case ConcaveKind => "ConcavePolygon"
    case RectangleKind(_, _) => "Rectangle"
    case TriangleKind => "Triangle"
  }

  /** `str(n)` for a count. */
  function DecimalString(n: nat): (s: string)
    ensures |s| > 0
  {
    var digit := "0123456789"[n % 10];
    if n < 10 then [digit] else DecimalString(n / 10) + [digit]
  }

  const TooFewPointsMessage := "ConvexPolygon should have at least 3 points, you specified: "
  const ConvexMessage := "Convex polygon can't have interior angles > 180 degrees"
  const NotConcaveMessage := "Concave polygon should have at least one interior angle > 180 degrees"
  const NoIntersectionDataMessage := "'Segment' object has no attribute 'get_intersection_data'"
  const TriangleCountMessage := "Triangle should have exactly 3 points, you specified: "

  /** The index after i, wrapping round to 0 after the last point. */
  function Next(n: nat, i: nat): (j: nat)
    requires i < n
    ensures j < n
  {
    if i == n - 1 then 0 else i + 1
  }

  // ----- get_the_most_distant_points -----

  /** The state of the scan: for each extreme the point that set it, or `None`
      while its bound is still the initial infinity. */
  datatype Scan = Scan(maxX: Option<Vector2d>, maxY: Option<Vector2d>, minX: Option<Vector2d>, minY: Option<Vector2d>)

  const NoScan := Scan(None, None, None, None)

  /** `max_x < point.x`, `min_x > point.x` and the same for y. */
  predicate AboveX(bound: Option<Vector2d>, p: Vector2d) { bound.None? || bound.value.x < p.x }
  predicate BelowX(bound: Option<Vector2d>, p: Vector2d) { bound.None? || bound.value.x > p.x }
  predicate AboveY(bound: Option<Vector2d>, p: Vector2d) { bound.None? || bound.value.y < p.y }
  predicate BelowY(bound: Option<Vector2d>, p: Vector2d) { bound.None? || bound.value.y > p.y }

  /** One step of the loop as written: a point that raises the maximum is never
      tried against the minimum (`elif`). */
  function ScanStepAsWritten(s: Scan, p: Vector2d): Scan {
    var s1 := if AboveX(s.maxX, p) then s.(maxX := Some(p)) else if BelowX(s.minX, p) then s.(minX := Some(p)) else s;
    if AboveY(s1.maxY, p) then s1.(maxY := Some(p)) else if BelowY(s1.minY, p) then s1.(minY := Some(p)) else s1
  }

  /** One step as intended: every point is tried against all four bounds. */
  function ScanStep(s: Scan, p: Vector2d): Scan {
    Scan(if AboveX(s.maxX, p) then Some(p) else s.maxX,
         if AboveY(s.maxY, p) then Some(p) else s.maxY,
         if BelowX(s.minX, p) then Some(p) else s.minX,
         if BelowY(s.minY, p) then Some(p) else s.minY)
  }

  function ScanAsWritten(points: seq<Vector2d>): Scan {
    if |points| == 0 then NoScan else ScanStepAsWritten(ScanAsWritten(points[..|points| - 1]), points[|points| - 1])
  }

  function ScanPoints(points: seq<Vector2d>): Scan {
    if |points| == 0 then NoScan else ScanStep(ScanPoints(points[..|points| - 1]), points[|points| - 1])
  }

  /** An extreme still unset is the initial `Vector2d(0, 0)`. */
  function PointOr(bound: Option<Vector2d>): Vector2d {
    if bound.Some? then bound.value else Zero
  }

  function Finish(s: Scan): Extremes {
    Extremes(PointOr(s.maxX), PointOr(s.maxY), PointOr(s.minX), PointOr(s.minY))
  }

  function MostDistantPointsAsWritten(points: seq<Vector2d>): Extremes {
    Finish(ScanAsWritten(points))
  }

  function MostDistantPoints(points: seq<Vector2d>): Extremes {
    Finish(ScanPoints(points))
  }

  /** What the scan keeps: each bound is set after one point, and is a point of the
      list beyond which no point lies. */
  lemma {:induction false} ScanMaxXSound(points: seq<Vector2d>)
    ensures var b := ScanPoints(points).maxX;
      (|points| > 0 ==> b.Some?) && (b.Some? ==> b.value in points && forall q :: q in points ==> q.x <= b.value.x)
  {
    if |points| > 0 {
      var init, p := points[..|points| - 1], points[|points| - 1];
      ScanMaxXSound(init);
      assert points == init + [p];
    }
  }

  lemma {:induction false} ScanMinXSound(points: seq<Vector2d>)
    ensures var b := ScanPoints(points).minX;
      (|points| > 0 ==> b.Some?) && (b.Some? ==> b.value in points && forall q :: q in points ==> b.value.x <= q.x)
  {
    if |points| > 0 {
      var init, p := points[..|points| - 1], points[|points| - 1];
      ScanMinXSound(init);
      assert points == init + [p];
    }
  }

  lemma {:induction false} ScanMaxYSound(points: seq<Vector2d>)
    ensures var b := ScanPoints(points).maxY;
      (|points| > 0 ==> b.Some?) && (b.Some? ==> b.value in points && forall q :: q in points ==> q.y <= b.value.y)
  {
    if |points| > 0 {
      var init, p := points[..|points| - 1], points[|points| - 1];
      ScanMaxYSound(init);
      assert points == init + [p];
    }
  }

  lemma {:induction false} ScanMinYSound(points: seq<Vector2d>)
    ensures var b := ScanPoints(points).minY;
      (|points| > 0 ==> b.Some?) && (b.Some? ==> b.value in points && forall q :: q in points ==> b.value.y <= q.y)
  {
    if |points| > 0 {
      var init, p := points[..|points| - 1], points[|points| - 1];
      ScanMinYSound(init);
      assert points == init + [p];
    }
  }

  /** The corrected extremes of a non-empty list are points of the list with the
      largest and smallest coordinates, so width and height are the true spans. */
  lemma MostDistantPointsAreExtreme(points: seq<Vector2d>)
    requires |points| > 0
    ensures var e := MostDistantPoints(points);
      e.maxX in points && e.minX in points && e.maxY in points && e.minY in points &&
      (forall q :: q in points ==> e.minX.x <= q.x <= e.maxX.x) &&
      (forall q :: q in points ==> e.minY.y <= q.y <= e.maxY.y)
  {
    ScanMaxXSound(points);
    ScanMinXSound(points);
    ScanMaxYSound(points);
    ScanMinYSound(points);
  }

  /** The scan as written misses the minimum x of (-3, 0), (-2, 1), (-1, 0): every
      point raises the maximum, so the minimum stays at the initial (0, 0) and the
      width, max x minus min x, is -1 instead of 2. */
  lemma MostDistantPointsAsWrittenMissesMinimum()
    ensures var points := [Vector2d(-3.0, 0.0), Vector2d(-2.0, 1.0), Vector2d(-1.0, 0.0)];
      var e := MostDistantPointsAsWritten(points);
      e.minX == Zero && e.maxX.x - e.minX.x == -1.0 &&
      MostDistantPoints(points).maxX.x - MostDistantPoints(points).minX.x == 2.0
  {
    var p0, p1, p2 := Vector2d(-3.0, 0.0), Vector2d(-2.0, 1.0), Vector2d(-1.0, 0.0);
    var points := [p0, p1, p2];
    assert points[..2] == [p0, p1] && points[..2][..1] == [p0] && [p0][..0] == [];
    assert ScanAsWritten([p0]) == Scan(Some(p0), Some(p0), None, None);
    assert ScanAsWritten([p0, p1]) == Scan(Some(p1), Some(p1), None, None);
    assert ScanAsWritten(points) == Scan(Some(p2), Some(p1), None, Some(p2));
    assert ScanPoints([p0]) == Scan(Some(p0), Some(p0), Some(p0), Some(p0));
    assert ScanPoints([p0, p1]) == Scan(Some(p1), Some(p1), Some(p0), Some(p0));
    assert ScanPoints(points) == Scan(Some(p2), Some(p1), Some(p0), Some(p0));
  }

  /** Point i raises the running maximum of x: it lies to the right of every
      earlier point. The first point always does. */
  predicate RaisesMaxX(points: seq<Vector2d>, i: int)
    requires 0 <= i < |points|
  {
    forall j :: 0 <= j < i ==> points[j].x < points[i].x
  }

  predicate RaisesMaxY(points: seq<Vector2d>, i: int)
    requires 0 <= i < |points|
  {
    forall j :: 0 <= j < i ==> points[j].y < points[i].y
  }

  /** The `elif` does not touch the maxima: the scan as written finds the same
      maximum points as the intended one. */
  lemma {:induction false} ScanAsWrittenMaxima(points: seq<Vector2d>)
    ensures ScanAsWritten(points).maxX == ScanPoints(points).maxX
    ensures ScanAsWritten(points).maxY == ScanPoints(points).maxY
  {
    if |points| > 0 {
      ScanAsWrittenMaxima(points[..|points| - 1]);
    }
  }

  /** A point raises the running maximum of the scan exactly when it lies to the
      right of (above) every earlier point. */
  lemma RaisesAtLast(points: seq<Vector2d>)
    requires |points| > 0
    ensures var init := points[..|points| - 1]; var p := points[|points| - 1];
      (AboveX(ScanAsWritten(init).maxX, p) <==> RaisesMaxX(points, |points| - 1)) &&
      (AboveY(ScanAsWritten(init).maxY, p) <==> RaisesMaxY(points, |points| - 1))
  {
    var init := points[..|points| - 1];
    ScanAsWrittenMaxima(init);
    ScanMaxXSound(init);
    ScanMaxYSound(init);
    if |init| > 0 {
      var mx, my := ScanPoints(init).maxX.value, ScanPoints(init).maxY.value;
      assert forall j :: 0 <= j < |init| ==> points[j] == init[j] && init[j] in init;
      assert mx in init && my in init;
    }
  }

  /** What the minimum of x as written is: unset (so `Vector2d(0, 0)`) exactly when
      every point raises the maximum, as for x strictly increasing along the list;
      otherwise a point of the list no farther right than any point that did not
      raise the maximum. */
  lemma {:induction false} ScanAsWrittenMinX(points: seq<Vector2d>)
    ensures var b := ScanAsWritten(points).minX;
      (b.None? <==> forall i :: 0 <= i < |points| ==> RaisesMaxX(points, i)) &&
      (b.Some? ==> (b.value in points &&
        forall i :: 0 <= i < |points| && !RaisesMaxX(points, i) ==> b.value.x <= points[i].x))
  {
    if |points| > 0 {
      var init, p := points[..|points| - 1], points[|points| - 1];
      var s := ScanAsWritten(init);
      ScanAsWrittenMinX(init);
      RaisesAtLast(points);
      assert points == init + [p];
      RaisesMaxXOfPrefix(points);
      var b := ScanAsWritten(points).minX;
      assert b == if AboveX(s.maxX, p) then s.minX else if BelowX(s.minX, p) then Some(p) else s.minX;
    }
  }

  /** Whether an earlier point raises the maximum does not depend on later points. */
  lemma RaisesMaxXOfPrefix(points: seq<Vector2d>)
    requires |points| > 0
    ensures var init := points[..|points| - 1];
      forall i :: 0 <= i < |init| ==> (RaisesMaxX(points, i) <==> RaisesMaxX(init, i))
  {
  }

  lemma RaisesMaxYOfPrefix(points: seq<Vector2d>)
    requires |points| > 0
    ensures var init := points[..|points| - 1];
      forall i :: 0 <= i < |init| ==> (RaisesMaxY(points, i) <==> RaisesMaxY(init, i))
  {
  }

  /** The same for the minimum of y. */
  lemma {:induction false} ScanAsWrittenMinY(points: seq<Vector2d>)
    ensures var b := ScanAsWritten(points).minY;
      (b.None? <==> forall i :: 0 <= i < |points| ==> RaisesMaxY(points, i)) &&
      (b.Some? ==> (b.value in points &&
        forall i :: 0 <= i < |points| && !RaisesMaxY(points, i) ==> b.value.y <= points[i].y))
  {
    if |points| > 0 {
      var init, p := points[..|points| - 1], points[|points| - 1];
      var s := ScanAsWritten(init);
      ScanAsWrittenMinY(init);
      RaisesAtLast(points);
      assert points == init + [p];
      RaisesMaxYOfPrefix(points);
      var b := ScanAsWritten(points).minY;
      assert b == if AboveY(s.maxY, p) then s.minY else if BelowY(s.minY, p) then Some(p) else s.minY;
    }
  }

  /** `get_the_most_distant_points`: bounds starting at infinity, points starting at
      `Vector2d(0, 0)`, and the minimum tried only when the maximum is not raised. */
  method GetTheMostDistantPoints(points: seq<Vector2d>) returns (r: Extremes)
    ensures r == MostDistantPointsAsWritten(points)
  {
    var maxX, maxY, minX, minY := None, None, None, None;
    var i := 0;
    while i < |points|
      invariant 0 <= i <= |points|
      invariant Scan(maxX, maxY, minX, minY) == ScanAsWritten(points[..i])
    {
      var point := points[i];
      if AboveX(maxX, point) {
        maxX := Some(point);
      } else if BelowX(minX, point) {
        minX := Some(point);
      }
      if AboveY(maxY, point) {
        maxY := Some(point);
      } else if BelowY(minY, point) {
        minY := Some(point);
      }
      assert points[..i + 1][..i] == points[..i];
      i := i + 1;
    }
    assert points[..i] == points;
    r := Finish(Scan(maxX, maxY, minX, minY));
  }

  // ----- get_sides -----

  /** Side i joins point i to the next one. */
  function Side(points: seq<Vector2d>, i: nat): Result<Prim>
    requires i < |points|
  {
    MakePrimitive(SegmentKind, points[i], points[Next(|points|, i)])
  }

  /** Point i and its successor are equal under `__eq__`, so side i cannot be built. */
  predicate DegenerateSide(points: seq<Vector2d>, i: nat)
    requires i < |points|
  {
    ApproxEq(points[i], points[Next(|points|, i)])
  }

  /** The first k sides, or the error of the first that cannot be built. */
  function SidesUpTo(points: seq<Vector2d>, k: nat): (r: Result<seq<Prim>>)
    requires k <= |points|
    ensures r.Ok? ==> (|r.value| == k &&
      forall i :: 0 <= i < k ==> r.value[i] == Primitive(SegmentKind, points[i], points[Next(|points|, i)]))
    ensures r.Err? <==> exists i :: 0 <= i < k && DegenerateSide(points, i)
    ensures r.Err? ==> r.error == AttributeError(SamePointsMessage)
  {
    if k == 0 then Ok([])
    else
      var previous := SidesUpTo(points, k - 1);
      if previous.Err? then Err(previous.error)
      else
        var side := Side(points, k - 1);
        if side.Err? then
          assert DegenerateSide(points, k - 1);
          Err(side.error)
        else
          Ok(previous.value + [side.value])
  }

  function SidesOf(points: seq<Vector2d>): Result<seq<Prim>> {
    SidesUpTo(points, |points|)
  }

  /** `get_sides`. */
  method GetSides(points: seq<Vector2d>) returns (r: Result<seq<Prim>>)
    ensures r == SidesOf(points)
  {
    var sides: seq<Prim> := [];
    var i := 0;
    while i < |points|
      invariant 0 <= i <= |points|
      invariant SidesUpTo(points, i) == Ok(sides)
    {
      var next := if i == |points| - 1 then points[0] else points[i + 1];
      assert next == points[Next(|points|, i)];
      var side := MakePrimitive(SegmentKind, points[i], next);
      if side.Err? {
        assert DegenerateSide(points, i);
        return Err(side.error);
      }
      sides := sides + [side.value];
      i := i + 1;
    }
    r := Ok(sides);
  }

  // ----- get_centroid -----

  /** The running sums of `get_centroid`: twice the signed area and the two first
      moments multiplied by six. */
  datatype Sums = Sums(area: real, momentX: real, momentY: real)

  /** The edge's term of twice the signed area. */
  function EdgeCross(x0: real, y0: real, x1: real, y1: real): real {
    x0 * y1 - x1 * y0
  }

  /** The edge's term of a first moment. */
  function EdgeMoment(a0: real, a1: real, cross: real): real {
    (a0 + a1) * cross
  }

  /** The contribution of the edge from p to q. */
  function AddEdge(s: Sums, p: Vector2d, q: Vector2d): Sums {
    var t := EdgeCross(p.x, p.y, q.x, q.y);
    Sums(s.area + t, s.momentX + EdgeMoment(p.x, q.x, t), s.momentY + EdgeMoment(p.y, q.y, t))
  }

  /** The sums over the edges leaving the first k points. */
  function SumsUpTo(points: seq<Vector2d>, k: nat): Sums
    requires k <= |points|
  {
    if k == 0 then Sums(0.0, 0.0, 0.0)
    else AddEdge(SumsUpTo(points, k - 1), points[k - 1], points[Next(|points|, k - 1)])
  }

  /** The signed area of the closed polygon, positive for counter-clockwise order. */
  function SignedArea(points: seq<Vector2d>): real {
    0.5 * SumsUpTo(points, |points|).area
  }

  /** The centroid of the polygon's area: the first moments over six times the
      signed area, or ZeroDivisionError when that area is zero. */
  function CentroidOf(points: seq<Vector2d>): (r: Result<Vector2d>)
    ensures r.Err? <==> SignedArea(points) == 0.0
    ensures r.Err? ==> r.error == ZeroDivisionError(DivisionByZero)
  {
    var a := SignedArea(points);
    if 6.0 * a == 0.0 then Err(ZeroDivisionError(DivisionByZero))
    else
      var sums := SumsUpTo(points, |points|);
      Ok(Vector2d(sums.momentX / (6.0 * a), sums.momentY / (6.0 * a)))
  }

  /** The centroid balances the first moments: times six times the signed area it
      gives back the moment sums. */
  lemma CentroidBalancesMoments(points: seq<Vector2d>)
    requires CentroidOf(points).Ok?
    ensures var c, a, sums := CentroidOf(points).value, SignedArea(points), SumsUpTo(points, |points|);
      c.x * (6.0 * a) == sums.momentX && c.y * (6.0 * a) == sums.momentY
  {
    var a, sums := SignedArea(points), SumsUpTo(points, |points|);
    DivideThenMultiply(sums.momentX, 6.0 * a);
    DivideThenMultiply(sums.momentY, 6.0 * a);
  }

  lemma DivideThenMultiply(m: real, d: real)
    requires d != 0.0
    ensures m / d * d == m
  {
  }

  /** `get_centroid`: the loop over consecutive pairs, then the closing pair, with the
      sums kept in the fields of a `Vector2d` that the updates do not round. */
  method GetCentroid(points: seq<Vector2d>) returns (r: Result<Vector2d>)
    requires |points| > 0
    ensures r == CentroidOf(points)
  {
    var n := |points|;
    var cx, cy := 0.0, 0.0;
    var signedArea := 0.0;
    var i := 0;
    while i < n - 1
      invariant 0 <= i <= n - 1
      invariant Sums(signedArea, cx, cy) == SumsUpTo(points, i)
    {
      var x0, y0 := points[i].x, points[i].y;
      var x1, y1 := points[i + 1].x, points[i + 1].y;
      var tempArea := EdgeCross(x0, y0, x1, y1);
      assert Next(n, i) == i + 1;
      signedArea := signedArea + tempArea;
      cx := cx + EdgeMoment(x0, x1, tempArea);
      cy := cy + EdgeMoment(y0, y1, tempArea);
      i := i + 1;
    }
    var x0, y0 := points[n - 1].x, points[n - 1].y;
    var x1, y1 := points[0].x, points[0].y;
    var tempArea := EdgeCross(x0, y0, x1, y1);
    assert Next(n, n - 1) == 0;
    signedArea := signedArea + tempArea;
    cx := cx + EdgeMoment(x0, x1, tempArea);
    cy := cy + EdgeMoment(y0, y1, tempArea);
    assert Sums(signedArea, cx, cy) == SumsUpTo(points, n);
    signedArea := signedArea * 0.5;
    if 6.0 * signedArea == 0.0 {
      return Err(ZeroDivisionError(DivisionByZero));
    }
    r := Ok(Vector2d(cx / (6.0 * signedArea), cy / (6.0 * signedArea)));
  }

  // ----- get_diagonals -----

  /** The segments from the centroid to the first k points. */
  function DiagonalsUpTo(centroid: Vector2d, points: seq<Vector2d>, k: nat): (r: Result<seq<Prim>>)
    requires k <= |points|
    ensures r.Ok? ==> (|r.value| == k &&
      forall i :: 0 <= i < k ==> r.value[i] == Primitive(SegmentKind, centroid, points[i]))
    ensures r.Err? <==> exists i :: 0 <= i < k && ApproxEq(centroid, points[i])
    ensures r.Err? ==> r.error == AttributeError(SamePointsMessage)
  {
    if k == 0 then Ok([])
    else
      var previous :- DiagonalsUpTo(centroid, points, k - 1);
      var diagonal :- MakePrimitive(SegmentKind, centroid, points[k - 1]);
      Ok(previous + [diagonal])
  }

  function DiagonalsOf(centroid: Vector2d, points: seq<Vector2d>): Result<seq<Prim>> {
    DiagonalsUpTo(centroid, points, |points|)
  }

  /** `get_diagonals`. */
  method GetDiagonals(centroid: Vector2d, points: seq<Vector2d>) returns (r: Result<seq<Prim>>)
    ensures r == DiagonalsOf(centroid, points)
  {
    var diagonals: seq<Prim> := [];
    var i := 0;
    while i < |points|
      invariant 0 <= i <= |points|
      invariant DiagonalsUpTo(centroid, points, i) == Ok(diagonals)
    {
      var diagonal := MakePrimitive(SegmentKind, centroid, points[i]);
      if diagonal.Err? {
        return Err(diagonal.error);
      }
      diagonals := diagonals + [diagonal.value];
      i := i + 1;
    }
    r := Ok(diagonals);
  }

  // ----- is_concave -----

  /** The cross product of the vectors of side i and side i + 1. */
  function SideCross(sides: seq<Prim>, i: nat): real
    requires i + 1 < |sides|
  {
    Cross(GetVector(sides[i]), GetVector(sides[i + 1]))
  }

  /** The cross products of consecutive sides; the last side is not paired with
      the first. */
  function CrossProducts(sides: seq<Prim>): (r: seq<real>)
    requires |sides| >= 1
    ensures |r| == |sides| - 1
  {
    seq(|sides| - 1, i requires 0 <= i < |sides| - 1 => SideCross(sides, i))
  }

  /** Some product has the sign opposite to the first one. */
  predicate SignChanges(products: seq<real>)
    requires |products| >= 1
  {
    exists i :: 0 <= i < |products| && OppositeSign(products[i], products[0])
  }

  /** `cp * sign < 0`. */
  predicate OppositeSign(cp: real, sign: real) {
    cp * sign < 0.0
  }

  /** `is_concave`: some consecutive cross product has the sign opposite to the
      first one. */
  predicate Concave(sides: seq<Prim>)
    requires |sides| >= 2
  {
    SignChanges(CrossProducts(sides))
  }

  /** `is_concave`: collects the cross products, then compares each with the first. */
  method IsConcave(sides: seq<Prim>) returns (r: bool)
    requires |sides| >= 2
    ensures r == Concave(sides)
  {
    var crossProducts: seq<real> := [];
    var i := 0;
    while i < |sides| - 1
      invariant 0 <= i <= |sides| - 1
      invariant crossProducts == CrossProducts(sides)[..i]
    {
      var firstVector := GetVector(sides[i]);
      var secondVector := GetVector(sides[i + 1]);
      crossProducts := crossProducts + [Cross(firstVector, secondVector)];
      i := i + 1;
    }
    assert crossProducts == CrossProducts(sides);
    r := HasOppositeSign(crossProducts);
  }

  /** The second loop of `is_concave`: returns at the first product whose sign is
      opposite to the first one. */
  method HasOppositeSign(crossProducts: seq<real>) returns (r: bool)
    requires |crossProducts| >= 1
    ensures r == SignChanges(crossProducts)
  {
    var sign := crossProducts[0];
    var k := 0;
    while k < |crossProducts|
      invariant 0 <= k <= |crossProducts|
      invariant forall j :: 0 <= j < k ==> !OppositeSign(crossProducts[j], sign)
    {
      if OppositeSign(crossProducts[k], sign) {
        return true;
      }
      k := k + 1;
    }
    r := false;
  }

  // ----- get_support_point -----

  /** The state of the support-point scan: the point found so far and its product. */
  datatype Support = Support(point: Option<Vector2d>, product: real)

  /** The scan over the first k points: a point replaces the current one only when
      its dot product with the direction is strictly larger, starting from -1. */
  function SupportUpTo(points: seq<Vector2d>, direction: Vector2d, k: nat): Support
    requires k <= |points|
  {
    if k == 0 then Support(None, -1.0)
    else
      var s := SupportUpTo(points, direction, k - 1);
      var product := Dot(direction, points[k - 1]);
      if product > s.product then Support(Some(points[k - 1]), product) else s
  }

  function SupportPointOf(points: seq<Vector2d>, direction: Vector2d): Option<Vector2d> {
    SupportUpTo(points, direction, |points|).point
  }

  ghost predicate SupportSound(points: seq<Vector2d>, direction: Vector2d, k: nat, s: Support)
    requires k <= |points|
  {
    -1.0 <= s.product &&
    (forall j :: 0 <= j < k ==> Dot(direction, points[j]) <= s.product) &&
    (s.point.None? ==> s.product == -1.0) &&
    (s.point.Some? ==> exists i :: (0 <= i < k && s.point.value == points[i] &&
       Dot(direction, points[i]) == s.product &&
       forall j :: 0 <= j < i ==> Dot(direction, points[j]) < s.product))
  }

  lemma {:induction false} SupportUpToSound(points: seq<Vector2d>, direction: Vector2d, k: nat)
    requires k <= |points|
    ensures SupportSound(points, direction, k, SupportUpTo(points, direction, k))
  {
    if k > 0 {
      SupportUpToSound(points, direction, k - 1);
      var s := SupportUpTo(points, direction, k - 1);
      var product := Dot(direction, points[k - 1]);
      if product > s.product {
        assert forall j :: 0 <= j < k - 1 ==> Dot(direction, points[j]) < product;
      }
    }
  }

  /** The support point is the first point with the largest dot product with the
      direction, provided that product exceeds -1; with none above -1 the answer
      is `None`. */
  lemma SupportPointIsFirstMaximum(points: seq<Vector2d>, direction: Vector2d)
    ensures var r := SupportPointOf(points, direction);
      (r.None? <==> forall j :: 0 <= j < |points| ==> Dot(direction, points[j]) <= -1.0) &&
      (r.Some? ==> exists i :: (0 <= i < |points| && r.value == points[i] && -1.0 < Dot(direction, points[i]) &&
         (forall j :: 0 <= j < |points| ==> Dot(direction, points[j]) <= Dot(direction, points[i])) &&
         (forall j :: 0 <= j < i ==> Dot(direction, points[j]) < Dot(direction, points[i]))))
  {
    SupportUpToSound(points, direction, |points|);
    var s := SupportUpTo(points, direction, |points|);
    if s.point.Some? {
      var i :| 0 <= i < |points| && s.point.value == points[i] && Dot(direction, points[i]) == s.product &&
        forall j :: 0 <= j < i ==> Dot(direction, points[j]) < s.product;
      if s.product == -1.0 {
        SupportProductAboveStart(points, direction, |points|);
      }
    }
  }

  /** Once a point is found its product is above the starting -1. */
  lemma {:induction false} SupportProductAboveStart(points: seq<Vector2d>, direction: Vector2d, k: nat)
    requires k <= |points|
    ensures SupportUpTo(points, direction, k).point.Some? ==> -1.0 < SupportUpTo(points, direction, k).product
  {
    if k > 0 {
      SupportProductAboveStart(points, direction, k - 1);
      SupportUpToSound(points, direction, k - 1);
    }
  }

  /** `get_support_point`. */
  method GetSupportPoint(points: seq<Vector2d>, direction: Vector2d) returns (r: Option<Vector2d>)
    ensures r == SupportPointOf(points, direction)
  {
    var supportPoint: Option<Vector2d> := None;
    var maxProduct := -1.0;
    var i := 0;
    while i < |points|
      invariant 0 <= i <= |points|
      invariant SupportUpTo(points, direction, i) == Support(supportPoint, maxProduct)
    {
      var product := Dot(direction, points[i]);
      if product > maxProduct {
        maxProduct := product;
        supportPoint := Some(points[i]);
      }
      i := i + 1;
    }
    r := supportPoint;
  }

  // ----- get_side_with_point -----

  predicate SideTouches(side: Prim, point: Vector2d) {
    ApproxEq(side.first, point) || ApproxEq(side.second, point)
  }

  /** The sides with an end point equal to the point under `__eq__`, in order. */
  function SidesWithPoint(sides: seq<Prim>, point: Vector2d): (r: seq<Prim>)
    ensures |r| <= |sides|
    ensures forall s :: s in r ==> s in sides && SideTouches(s, point)
    ensures forall s :: s in sides && SideTouches(s, point) ==> s in r
  {
    if |sides| == 0 then []
    else
      var rest := SidesWithPoint(sides[..|sides| - 1], point);
      var last := sides[|sides| - 1];
      assert sides == sides[..|sides| - 1] + [last];
      if SideTouches(last, point) then rest + [last] else rest
  }

  /** `get_side_with_point`. */
  method GetSideWithPoint(sides: seq<Prim>, point: Vector2d) returns (r: seq<Prim>)
    ensures r == SidesWithPoint(sides, point)
  {
    r := [];
    var i := 0;
    while i < |sides|
      invariant 0 <= i <= |sides|
      invariant r == SidesWithPoint(sides[..i], point)
    {
      if ApproxEq(sides[i].first, point) || ApproxEq(sides[i].second, point) {
        r := r + [sides[i]];
      }
      assert sides[..i + 1][..i] == sides[..i];
      i := i + 1;
    }
    assert sides[..i] == sides;
  }

  // ----- triangulate and construction -----

  /** `Triangle(points)`: exactly three points, then the polygon constructor. */
  function MakeTriangle(points: seq<Vector2d>): (r: Result<Polygon>)
    decreases |points|, 3, 0
    ensures |points| != 3 ==> r == Err(AttributeError(TriangleCountMessage + DecimalString(|points|)))
    ensures r.Ok? ==> r.value.kind == TriangleKind && r.value.points == points
  {
    if |points| != 3 then Err(AttributeError(TriangleCountMessage + DecimalString(|points|)))
    else MakePolygon(TriangleKind, points)
  }

  /** The triangles `triangulate(points[0])` builds before reaching index k: the fan
      [p0, p_i, p_(i+1)] for i from 2 to k - 1. The source skips the index of p0, of
      its predecessor and of its successor, so the triangle [p0, p1, p2] is never
      built. */
  function TrianglesUpTo(points: seq<Vector2d>, k: nat): (r: Result<seq<Polygon>>)
    requires 2 <= k < |points|
    decreases |points|, 0, k
    ensures r.Ok? ==> (|r.value| == k - 2 &&
      forall i :: 0 <= i < k - 2 ==>
        r.value[i].kind == TriangleKind && r.value[i].points == [points[0], points[i + 2], points[i + 3]])
  {
    if k == 2 then Ok([])
    else
      var previous :- TrianglesUpTo(points, k - 1);
      var triangle :- MakeTriangle([points[0], points[k - 1], points[k]]);
      Ok(previous + [triangle])
  }

  /** One more triangle of the fan. */
  lemma FanStep(points: seq<Vector2d>, k: nat, previous: seq<Polygon>)
    requires 3 <= k < |points| && TrianglesUpTo(points, k - 1) == Ok(previous)
    ensures var triangle := MakeTriangle([points[0], points[k - 1], points[k]]);
      TrianglesUpTo(points, k) == if triangle.Err? then Err(triangle.error) else Ok(previous + [triangle.value])
  {
  }

  /** An error met by the fan stays the result as the fan grows. */
  lemma {:induction false} TrianglesErrorPersists(points: seq<Vector2d>, k: nat, m: nat)
    requires 2 <= k <= m < |points|
    requires TrianglesUpTo(points, k).Err?
    ensures TrianglesUpTo(points, m) == TrianglesUpTo(points, k)
    decreases m - k
  {
    if k < m {
      TrianglesErrorPersists(points, k, m - 1);
    }
  }

  /** `BasePolygon.__init__` once the point count is checked, then the check the
      subclass adds: a convex polygon, rectangle or triangle must not be concave; a
      concave polygon must be, and then fails in its self-intersection check, which
      calls a method segments do not have. A concave polygon's `triangulate` returns
      nothing. */
  function Assemble(kind: PolyKind, points: seq<Vector2d>): (r: Result<Polygon>)
    requires |points| >= 3
    decreases |points|, 1, 0
    ensures r.Ok? ==> (r.value.kind == kind && r.value.points == points &&
      r.value.extremes == MostDistantPointsAsWritten(points) && r.value.triangles.Some?)
    ensures kind.ConcaveKind? ==> r.Err?
  {
    var extremes := MostDistantPointsAsWritten(points);
    var triangles :- if kind.ConcaveKind? then Ok(None) else
      var fan :- TrianglesUpTo(points, |points| - 1);
      Ok(Some(fan));
    var sides :- SidesOf(points);
    var centroid :- CentroidOf(points);
    var diagonals :- DiagonalsOf(centroid, points);
    if kind.ConcaveKind? then
      if !Concave(sides) then Err(AttributeError(NotConcaveMessage))
      else Err(AttributeError(NoIntersectionDataMessage))
    else if Concave(sides) then Err(AttributeError(ConvexMessage))
    else Ok(Polygon(kind, points, extremes, triangles, sides, centroid, diagonals))
  }

  /** `ConvexPolygon(points)`, `ConcavePolygon(points)`, and the polygon part of
      `Rectangle` and `Triangle`: at least three points, then the derived data in the
      constructor's order, the first failure being the result. */
  function MakePolygon(kind: PolyKind, points: seq<Vector2d>): (r: Result<Polygon>)
    decreases |points|, 2, 0
    ensures |points| < 3 ==> r == Err(Exception(TooFewPointsMessage + DecimalString(|points|)))
    ensures kind.ConcaveKind? ==> r.Err?
    ensures r.Ok? ==> (|points| >= 3 && r.value.kind == kind && r.value.points == points &&
      r.value.extremes == MostDistantPointsAsWritten(points) && r.value.triangles.Some?)
  {
    if |points| < 3 then Err(Exception(TooFewPointsMessage + DecimalString(|points|)))
    else Assemble(kind, points)
  }

  /** What a successfully constructed polygon holds: its sides, centroid, diagonals
      and fan of triangles are those of its points, and it is not concave. */
  lemma PolygonParts(kind: PolyKind, points: seq<Vector2d>)
    requires MakePolygon(kind, points).Ok?
    ensures var p := MakePolygon(kind, points).value;
      |points| >= 3 && !kind.ConcaveKind? &&
      SidesOf(points) == Ok(p.sides) && !Concave(p.sides) &&
      CentroidOf(points) == Ok(p.centroid) &&
      DiagonalsOf(p.centroid, points) == Ok(p.diagonals) &&
      TrianglesUpTo(points, |points| - 1) == Ok(p.triangles.value)
  {
  }

  /** `ConvexPolygon(points)`. */
  function MakeConvexPolygon(points: seq<Vector2d>): Result<Polygon> {
    MakePolygon(ConvexKind, points)
  }

  /** `ConcavePolygon(points)`, which never succeeds. */
  function MakeConcavePolygon(points: seq<Vector2d>): (r: Result<Polygon>)
    ensures r.Err?
  {
    MakePolygon(ConcaveKind, points)
  }

  /** The last index the fan has reached once the loop of `triangulate` is at i. */
  function FanReach(i: nat, n: nat): (k: nat)
    requires 3 <= n && i <= n
    ensures 2 <= k < n
  {
    if i < 2 then 2 else if i < n then i else n - 1
  }

  /** `triangulate(points[0])`. The source finds the index of points[0] by identity,
      which is 0. */
  method Triangulate(points: seq<Vector2d>) returns (r: Result<seq<Polygon>>)
    requires |points| >= 3
    ensures r == TrianglesUpTo(points, |points| - 1)
  {
    var n := |points|;
    var point := points[0];
    var vertexIndex := 0;
    var triangles: seq<Polygon> := [];
    var i := 0;
    while i < n
      invariant 0 <= i <= n
      invariant TrianglesUpTo(points, FanReach(i, n)) == Ok(triangles)
    {
      var previousIndex := vertexIndex - 1;
      if previousIndex < 0 {
        previousIndex := n - 1;
      }
      var nextIndex := vertexIndex + 1;
      if previousIndex > n - 1 {
        nextIndex := 0;
      }
      if !(i == vertexIndex || i == previousIndex || i == nextIndex) {
        assert 2 <= i < n - 1 && FanReach(i, n) == i && FanReach(i + 1, n) == i + 1;
        var triangle := MakeTriangle([point, points[i], points[i + 1]]);
        FanStep(points, i + 1, triangles);
        if triangle.Err? {
          TrianglesErrorPersists(points, i + 1, n - 1);
          return Err(triangle.error);
        }
        triangles := triangles + [triangle.value];
      } else {
        assert FanReach(i + 1, n) == FanReach(i, n);
      }
      i := i + 1;
    }
    assert FanReach(i, n) == n - 1;
    r := Ok(triangles);
  }

  /** `BasePolygon.__init__` with the subclass check, step by step. */
  method Construct(kind: PolyKind, points: seq<Vector2d>) returns (r: Result<Polygon>)
    ensures r == MakePolygon(kind, points)
  {
    if |points| < 3 {
      return Err(Exception(TooFewPointsMessage + DecimalString(|points|)));
    }
    var extremes := GetTheMostDistantPoints(points);
    var triangles: Option<seq<Polygon>> := None;
    if !kind.ConcaveKind? {
      var fan := Triangulate(points);
      if fan.Err? {
        return Err(fan.error);
      }
      triangles := Some(fan.value);
    }
    var sides := GetSides(points);
    if sides.Err? {
      return Err(sides.error);
    }
    var centroid := GetCentroid(points);
    if centroid.Err? {
      return Err(centroid.error);
    }
    var diagonals := GetDiagonals(centroid.value, points);
    if diagonals.Err? {
      return Err(diagonals.error);
    }
    var concave := IsConcave(sides.value);
    if kind.ConcaveKind? {
      if !concave {
        return Err(AttributeError(NotConcaveMessage));
      }
      return Err(AttributeError(NoIntersectionDataMessage));
    }
    if concave {
      return Err(AttributeError(ConvexMessage));
    }
    r := Ok(Polygon(kind, points, extremes, triangles, sides.value, centroid.value, diagonals.value));
  }

  /** `BasePolygon.is_point_belongs` builds `Ray(point, point.x + 1)`, whose
      constructor accepts the number, and then calls a method rays do not have. */
  function PolygonContains(polygon: Polygon, point: Vector2d): (r: Result<bool>)
    ensures r == Err(AttributeError("'Ray' object has no attribute 'get_intersection_data'"))
  {
    Err(AttributeError("'Ray' object has no attribute 'get_intersection_data'"))
  }

  // ----- Rectangle -----

  /** `Rectangle.get_corners`: the given corner itself, then copies moved by the
      width and the height, in the order left upper, right upper, right lower, left
      lower. The moves change a coordinate in place, so they are not rounded; but the
      right lower corner is a copy of the right upper one, and that copy rounds the
      moved x. */
  function RectangleCorners(leftUpper: Vector2d, width: real, height: real): seq<Vector2d> {
    var leftLower := Copy(leftUpper).(y := Copy(leftUpper).y - height);
    var rightUpper := Copy(leftUpper).(x := Copy(leftUpper).x + width);
    var rightLower := Copy(rightUpper).(y := Copy(rightUpper).y - height);
    [leftUpper, rightUpper, rightLower, leftLower]
  }

  /** `Rectangle(left_upper_corner, width, height)`. */
  function MakeRectangle(leftUpper: Vector2d, width: real, height: real): (r: Result<Polygon>)
    ensures r.Ok? ==> (r.value.kind == RectangleKind(width, height) &&
      r.value.points == RectangleCorners(leftUpper, width, height))
  {
    MakePolygon(RectangleKind(width, height), RectangleCorners(leftUpper, width, height))
  }

  /** For a rounded corner (x, y) the corners are (x, y), (x + width, y),
      (Round4(x + width), y - height) and (x, y - height): exactly the rectangle's
      vertices when x + width lies on the four-decimal grid. */
  lemma RectangleCornersExact(leftUpper: Vector2d, width: real, height: real)
    requires Rounded(leftUpper)
    ensures var x, y := leftUpper.x, leftUpper.y;
      RectangleCorners(leftUpper, width, height) ==
        [leftUpper, Vector2d(x + width, y), Vector2d(Round4(x + width), y - height), Vector2d(x, y - height)]
    ensures var x, y := leftUpper.x, leftUpper.y; OnGrid(x + width) ==>
      RectangleCorners(leftUpper, width, height) ==
        [leftUpper, Vector2d(x + width, y), Vector2d(x + width, y - height), Vector2d(x, y - height)]
  {
    var rightUpper := Vector2d(leftUpper.x + width, leftUpper.y);
    assert Copy(rightUpper) == Make(rightUpper.x, rightUpper.y);
    Round4OnGrid(leftUpper.y);
  }

  /** `Rectangle(Vector2d(0, 0), 0.123456, 1.0)`: the right upper corner keeps the
      width 0.123456 but the right lower one has x 0.1235, so the corners are not a
      rectangle and their shoelace area is not width times height. */
  lemma RectangleOffGridCorner()
    ensures var corners := RectangleCorners(Zero, 0.123456, 1.0);
      corners[1] == Vector2d(0.123456, 0.0) && corners[2] == Vector2d(0.1235, -1.0) &&
      ShoelaceArea(corners) != 0.123456 * 1.0
  {
    OnGridOfInt(0.0, 0);
    var n := RoundHalfEven(0.123456 * 10000.0);
    assert n == 1235;
    assert Round4(0.0 + 0.123456) == 0.1235;
    RectangleCornersExact(Zero, 0.123456, 1.0);
    RectangleShoelaceArea(RectangleCorners(Zero, 0.123456, 1.0), 0.0, 0.0, 0.123456, 1.0, 0.1235);
  }

  // ----- areas, height and width -----

  /** The products `get_area` adds for one side: the end's x times the start's y,
      and the end's y times the start's x. */
  function ForwardProduct(side: Primitive): real {
    side.second.x * side.first.y
  }

  function BackwardProduct(side: Primitive): real {
    side.second.y * side.first.x
  }

  function ForwardSum(sides: seq<Prim>): real {
    if |sides| == 0 then 0.0 else ForwardProduct(sides[0]) + ForwardSum(sides[1..])
  }

  function BackwardSum(sides: seq<Prim>): real {
    if |sides| == 0 then 0.0 else BackwardProduct(sides[0]) + BackwardSum(sides[1..])
  }

  /** `BasePolygon.get_area` as written: half the sum of both products over all
      sides. The two products are added, where the shoelace formula subtracts them
      and pairs each coordinate of a point with the other coordinate of the next. */
  function AreaAsWritten(sides: seq<Prim>): real {
    0.5 * (ForwardSum(sides) + BackwardSum(sides))
  }

  /** `BasePolygon.get_area` as written, with its two loops over the reversed sides. */
  method GetAreaAsWritten(sides: seq<Prim>) returns (r: real)
    ensures r == AreaAsWritten(sides)
  {
    var n := |sides|;
    var reversedSides := seq(n, i requires 0 <= i < n => sides[n - 1 - i]);
    var res := 0.0;
    var j := 0;
    while j < n
      invariant 0 <= j <= n
      invariant res == ForwardSum(sides[n - j..])
    {
      assert sides[n - j - 1..][1..] == sides[n - j..];
      res := res + ForwardProduct(reversedSides[j]);
      j := j + 1;
    }
    ghost var forward := res;
    j := 0;
    while j < n
      invariant 0 <= j <= n
      invariant res == forward + BackwardSum(sides[n - j..])
    {
      assert sides[n - j - 1..][1..] == sides[n - j..];
      res := res + BackwardProduct(reversedSides[j]);
      j := j + 1;
    }
    assert sides[0..] == sides;
    r := 0.5 * res;
  }

  /** The area the comment on `get_area` describes, the shoelace formula: half the
      absolute value of the sum of x_i * y_(i+1) - x_(i+1) * y_i around the polygon. */
  function ShoelaceArea(points: seq<Vector2d>): (r: real)
    ensures 0.0 <= r && (r == SignedArea(points) || r == -SignedArea(points))
  {
    Abs(SignedArea(points))
  }

  /** `Triangle.get_sides_magnitude`: the lengths of p1 - p0, p2 - p1 and p0 - p2. */
  function SidesMagnitude(points: seq<Vector2d>, sqrt: SqrtFn): (real, real, real)
    requires |points| >= 3
  {
    (Magnitude(Sub(points[1], points[0]), sqrt),
     Magnitude(Sub(points[2], points[1]), sqrt),
     Magnitude(Sub(points[0], points[2]), sqrt))
  }

  /** s(s - a)(s - b)(s - c) for the semi-perimeter s of Heron's formula. */
  function HeronProduct(a: real, b: real, c: real): real {
    var s := 0.5 * (a + b + c);
    s * (s - a) * (s - b) * (s - c)
  }

  /** Heron's formula, without the extra halving. */
  function TriangleArea(points: seq<Vector2d>, sqrt: SqrtFn): real
    requires |points| >= 3
  {
    var (a, b, c) := SidesMagnitude(points, sqrt);
    sqrt(HeronProduct(a, b, c))
  }

  /** `Triangle.get_area` as written: half of Heron's area. */
  function TriangleAreaAsWritten(points: seq<Vector2d>, sqrt: SqrtFn): (r: real)
    requires |points| >= 3
    ensures r == 0.5 * TriangleArea(points, sqrt)
  {
    var (a, b, c) := SidesMagnitude(points, sqrt);
    0.5 * sqrt(HeronProduct(a, b, c))
  }

  /** `get_area` of a polygon as written: the override of `Rectangle`, the halved
      Heron area of `Triangle`, and the inherited `BasePolygon.get_area` over the
      sides for the other polygons. A triangle's area is half the corrected one. */
  function Area(p: Polygon, sqrt: SqrtFn): (r: real)
    requires p.kind.TriangleKind? ==> |p.points| >= 3
    ensures p.kind.RectangleKind? ==> r == AreaCorrected(p, sqrt)
    ensures p.kind.TriangleKind? ==> r == 0.5 * AreaCorrected(p, sqrt)
  {
    match p.kind
    case RectangleKind(width, height) => height * width
    case TriangleKind => TriangleAreaAsWritten(p.points, sqrt)
    case _ => AreaAsWritten(p.sides)
  }

  /** The evidently intended `get_area`: the rectangle's override, Heron's formula
      for a triangle and the shoelace area for the other polygons. */
  function AreaCorrected(p: Polygon, sqrt: SqrtFn): real
    requires p.kind.TriangleKind? ==> |p.points| >= 3
  {
    match p.kind
    case RectangleKind(width, height) => height * width
    case TriangleKind => TriangleArea(p.points, sqrt)
    case _ => ShoelaceArea(p.points)
  }

  /** `get_height`: the span between the extremes in y; a rectangle returns its
      height. */
  function Height(p: Polygon): real {
    match p.kind
    case RectangleKind(_, height) => height
    case _ => p.extremes.maxY.y - p.extremes.minY.y
  }

  /** `get_width`: the span between the extremes in x; a rectangle returns its width. */
  function Width(p: Polygon): real {
    match p.kind
    case RectangleKind(width, _) => width
    case _ => p.extremes.maxX.x - p.extremes.minX.x
  }

  // ----- properties of areas and extents -----

  /** The signed area of four points, edge by edge. */
  lemma QuadrilateralSignedArea(points: seq<Vector2d>)
    requires |points| == 4
    ensures var a, b, c, d := points[0], points[1], points[2], points[3];
      SignedArea(points) == 0.5 * (EdgeCross(a.x, a.y, b.x, b.y) + EdgeCross(b.x, b.y, c.x, c.y) +
        EdgeCross(c.x, c.y, d.x, d.y) + EdgeCross(d.x, d.y, a.x, a.y))
  {
    assert SumsUpTo(points, 1).area == EdgeCross(points[0].x, points[0].y, points[1].x, points[1].y);
    assert SumsUpTo(points, 2).area == SumsUpTo(points, 1).area + EdgeCross(points[1].x, points[1].y, points[2].x, points[2].y);
    assert SumsUpTo(points, 3).area == SumsUpTo(points, 2).area + EdgeCross(points[2].x, points[2].y, points[3].x, points[3].y);
  }

  /** Twice the signed area of the corners in the source's order, with rx the x of
      the right lower corner. */
  lemma RectangleEdgeCrosses(x: real, y: real, width: real, height: real, rx: real)
    ensures EdgeCross(x, y, x + width, y) + EdgeCross(x + width, y, rx, y - height) +
      EdgeCross(rx, y - height, x, y - height) + EdgeCross(x, y - height, x, y) == -(height * (width + rx - x))
  {
    assert EdgeCross(x, y, x + width, y) == -(width * y);
    assert EdgeCross(x + width, y, rx, y - height) == (x + width) * y - (x + width) * height - rx * y;
    assert EdgeCross(rx, y - height, x, y - height) == rx * y - rx * height - x * y + x * height;
    assert EdgeCross(x, y - height, x, y) == x * height;
  }

  /** The shoelace area of corners (x, y), (x + w, y), (rx, y - h), (x, y - h), the
      shape `RectangleCornersExact` gives a rectangle's corners with rx the rounded
      x + w: that of a trapezoid with parallel sides w and rx - x and height h. With
      rx = x + w and non-negative sides it is w h, so the `Rectangle.get_area`
      override agrees with the general formula. */
  lemma RectangleShoelaceArea(corners: seq<Vector2d>, x: real, y: real, w: real, h: real, rx: real)
    requires corners == [Vector2d(x, y), Vector2d(x + w, y), Vector2d(rx, y - h), Vector2d(x, y - h)]
    ensures ShoelaceArea(corners) == 0.5 * Abs(h * (w + rx - x))
    ensures rx == x + w && 0.0 <= w && 0.0 <= h ==> ShoelaceArea(corners) == w * h
  {
    QuadrilateralSignedArea(corners);
    RectangleEdgeCrosses(x, y, w, h, rx);
    HalfAbs(-(h * (w + rx - x)));
    if rx == x + w && 0.0 <= w && 0.0 <= h {
      assert h * (w + rx - x) == 2.0 * (w * h);
      MulNonNegative(w, h);
    }
  }

  /** Half the absolute value, taken inside or out. */
  lemma HalfAbs(t: real)
    ensures Abs(0.5 * t) == 0.5 * Abs(-t)
  {
  }

  lemma MulNonNegative(a: real, b: real)
    requires 0.0 <= a && 0.0 <= b
    ensures 0.0 <= a * b
  {
    if a > 0.0 && b > 0.0 {
      MulPositive(a, b);
    }
  }

  /** The scan as written over a rectangle's corners: the left upper corner sets
      the maximum of y and the right lower one the minimum, so the extremes span the
      height; the x extremes span from the smaller to the larger of x and the
      rounded right lower x on one side, and of x + width on the other, which is the
      width when x + width lies on the grid. */
  lemma RectangleExtremes(leftUpper: Vector2d, width: real, height: real)
    requires Rounded(leftUpper) && 0.0 < width && 0.0 < height
    ensures var e := MostDistantPointsAsWritten(RectangleCorners(leftUpper, width, height));
      var x, rx := leftUpper.x, Round4(leftUpper.x + width);
      e.maxY.y - e.minY.y == height && e.maxX.x - e.minX.x == Max(x + width, rx) - Min(x, rx)
    ensures OnGrid(leftUpper.x + width) ==>
      var e := MostDistantPointsAsWritten(RectangleCorners(leftUpper, width, height));
      e.maxX.x - e.minX.x == width
  {
    var points := RectangleCorners(leftUpper, width, height);
    RectangleCornersExact(leftUpper, width, height);
    var x, y := leftUpper.x, leftUpper.y;
    var rx := Round4(x + width);
    var a, b, c, d := leftUpper, Vector2d(x + width, y), Vector2d(rx, y - height), Vector2d(x, y - height);
    ScanOfTrapezoid(points, a, b, c, d, x, y, width, height, rx);
  }

  /** The scan as written over (x, y), (x + w, y), (rx, y - h), (x, y - h). */
  lemma ScanOfTrapezoid(points: seq<Vector2d>, a: Vector2d, b: Vector2d, c: Vector2d, d: Vector2d,
                        x: real, y: real, w: real, h: real, rx: real)
    requires 0.0 < w && 0.0 < h
    requires a == Vector2d(x, y) && b == Vector2d(x + w, y) && c == Vector2d(rx, y - h) && d == Vector2d(x, y - h)
    requires points == [a, b, c, d]
    ensures var e := MostDistantPointsAsWritten(points);
      e.maxY.y - e.minY.y == h && e.maxX.x - e.minX.x == Max(x + w, rx) - Min(x, rx)
    ensures rx == x + w ==> var e := MostDistantPointsAsWritten(points); e.maxX.x - e.minX.x == w
  {
    assert points[..3] == [a, b, c] && [a, b, c][..2] == [a, b] && [a, b][..1] == [a] && [a][..0] == [];
    assert ScanAsWritten([a]) == Scan(Some(a), Some(a), None, None);
    assert ScanAsWritten([a, b]) == Scan(Some(b), Some(a), None, Some(b));
    if rx > x + w {
      assert ScanAsWritten([a, b, c]) == Scan(Some(c), Some(a), None, Some(c));
      assert ScanAsWritten(points) == Scan(Some(c), Some(a), Some(d), Some(c));
    } else if rx > x {
      assert ScanAsWritten([a, b, c]) == Scan(Some(b), Some(a), Some(c), Some(c));
      assert ScanAsWritten(points) == Scan(Some(b), Some(a), Some(d), Some(c));
    } else {
      assert ScanAsWritten([a, b, c]) == Scan(Some(b), Some(a), Some(c), Some(c));
      assert ScanAsWritten(points) == Scan(Some(b), Some(a), Some(c), Some(c));
    }
  }

  /** The inherited `get_area` over four sides running round the points a, b, c, d,
      product by product. */
  lemma FourSideAreaAsWritten(sides: seq<Prim>, a: Vector2d, b: Vector2d, c: Vector2d, d: Vector2d)
    requires |sides| == 4
    requires sides[0].first == a && sides[0].second == b && sides[1].first == b && sides[1].second == c
    requires sides[2].first == c && sides[2].second == d && sides[3].first == d && sides[3].second == a
    ensures AreaAsWritten(sides) == 0.5 * ((b.x * a.y + c.x * b.y + d.x * c.y + a.x * d.y) +
      (b.y * a.x + c.y * b.x + d.y * c.x + a.y * d.x))
  {
    FourSideSums(sides);
    SideProducts(sides[0], a, b);
    SideProducts(sides[1], b, c);
    SideProducts(sides[2], c, d);
    SideProducts(sides[3], d, a);
  }

  lemma SideProducts(side: Primitive, a: Vector2d, b: Vector2d)
    requires side.first == a && side.second == b
    ensures ForwardProduct(side) == b.x * a.y && BackwardProduct(side) == b.y * a.x
  {
  }

  /** The inherited `get_area` of the corners (x, y), (x + w, y), (rx, y - h),
      (x, y - h). */
  lemma RectangleSums(x: real, y: real, w: real, h: real, rx: real, a: Vector2d, b: Vector2d, c: Vector2d, d: Vector2d)
    requires a == Vector2d(x, y) && b == Vector2d(x + w, y) && c == Vector2d(rx, y - h) && d == Vector2d(x, y - h)
    ensures 0.5 * ((b.x * a.y + c.x * b.y + d.x * c.y + a.x * d.y) + (b.y * a.x + c.y * b.x + d.y * c.x + a.y * d.x)) ==
      0.5 * (6.0 * x * y + 2.0 * w * y + 2.0 * rx * y - 3.0 * x * h - w * h - rx * h)
  {
    assert (y - h) * (x + w) == y * x + y * w - h * x - h * w;
    assert (y - h) * rx == rx * y - rx * h;
    assert (x + w) * y == x * y + w * y;
    assert x * (y - h) == x * y - x * h;
  }

  /** The sides of a constructed rectangle run round its corners, the right lower
      one with the rounded x + width. */
  lemma RectangleSides(leftUpper: Vector2d, width: real, height: real, p: Polygon)
    requires Rounded(leftUpper)
    requires MakeRectangle(leftUpper, width, height) == Ok(p)
    ensures var x, y := leftUpper.x, leftUpper.y; var rx := Round4(x + width); var sides := p.sides;
      |sides| == 4 &&
      sides[0].first == Vector2d(x, y) && sides[0].second == Vector2d(x + width, y) &&
      sides[1].first == Vector2d(x + width, y) && sides[1].second == Vector2d(rx, y - height) &&
      sides[2].first == Vector2d(rx, y - height) && sides[2].second == Vector2d(x, y - height) &&
      sides[3].first == Vector2d(x, y - height) && sides[3].second == Vector2d(x, y)
  {
    var corners := RectangleCorners(leftUpper, width, height);
    RectangleCornersExact(leftUpper, width, height);
    PolygonParts(RectangleKind(width, height), corners);
    assert SidesUpTo(corners, 4) == Ok(p.sides);
    assert Next(4, 0) == 1 && Next(4, 1) == 2 && Next(4, 2) == 3 && Next(4, 3) == 0;
  }

  /** What the inherited `get_area` gives for the four sides of the rectangle with
      left upper corner (x, y) and right lower x rx (the sides `RectangleSides` shows
      a constructed rectangle has): (6xy + 2wy + 2 rx y - 3xh - wh - rx h) / 2, and
      4xy + 2wy - 2xh - wh when rx = x + w, which in general is not the area w h that
      the override of `Rectangle` returns. */
  lemma RectangleInheritedArea(x: real, y: real, width: real, height: real, rx: real, sides: seq<Prim>)
    requires |sides| == 4
    requires sides[0].first == Vector2d(x, y) && sides[0].second == Vector2d(x + width, y)
    requires sides[1].first == Vector2d(x + width, y) && sides[1].second == Vector2d(rx, y - height)
    requires sides[2].first == Vector2d(rx, y - height) && sides[2].second == Vector2d(x, y - height)
    requires sides[3].first == Vector2d(x, y - height) && sides[3].second == Vector2d(x, y)
    ensures AreaAsWritten(sides) ==
      0.5 * (6.0 * x * y + 2.0 * width * y + 2.0 * rx * y - 3.0 * x * height - width * height - rx * height)
    ensures rx == x + width ==>
      AreaAsWritten(sides) == 4.0 * x * y + 2.0 * width * y - 2.0 * x * height - width * height
  {
    var a, b, c, d := Vector2d(x, y), Vector2d(x + width, y), Vector2d(rx, y - height), Vector2d(x, y - height);
    FourSideAreaAsWritten(sides, a, b, c, d);
    RectangleSums(x, y, width, height, rx, a, b, c, d);
    UnroundedInheritedArea(x, y, width, height, rx);
  }

  /** The inherited area of the corners with rx = x + w. */
  lemma UnroundedInheritedArea(x: real, y: real, w: real, h: real, rx: real)
    ensures rx == x + w ==>
      0.5 * (6.0 * x * y + 2.0 * w * y + 2.0 * rx * y - 3.0 * x * h - w * h - rx * h) ==
        4.0 * x * y + 2.0 * w * y - 2.0 * x * h - w * h
  {
    if rx == x + w {
      assert 2.0 * rx * y == 2.0 * x * y + 2.0 * w * y;
      assert rx * h == x * h + w * h;
    }
  }

  /** For a rectangle with positive sides, the override of `get_height` gives the
      span of its extremes, and when x + width lies on the grid so does that of
      `get_width`. */
  lemma RectangleOverridesAgree(leftUpper: Vector2d, width: real, height: real, p: Polygon)
    requires Rounded(leftUpper) && 0.0 < width && 0.0 < height
    requires MakeRectangle(leftUpper, width, height) == Ok(p)
    ensures Height(p) == p.extremes.maxY.y - p.extremes.minY.y
    ensures OnGrid(leftUpper.x + width) ==> Width(p) == p.extremes.maxX.x - p.extremes.minX.x
  {
    var corners := RectangleCorners(leftUpper, width, height);
    assert MakePolygon(RectangleKind(width, height), corners) == Ok(p);
    assert p.kind == RectangleKind(width, height) && p.points == corners;
    assert p.extremes == MostDistantPointsAsWritten(corners);
    RectangleExtremes(leftUpper, width, height);
  }

  /** When x + width lies on the grid, the `get_area` override of a constructed
      rectangle is the shoelace area of its corners. */
  lemma RectangleAreaOverrideAgrees(leftUpper: Vector2d, width: real, height: real, p: Polygon, sqrt: SqrtFn)
    requires Rounded(leftUpper) && 0.0 <= width && 0.0 <= height && OnGrid(leftUpper.x + width)
    requires MakeRectangle(leftUpper, width, height) == Ok(p)
    ensures Area(p, sqrt) == ShoelaceArea(p.points) && Area(p, sqrt) == AreaCorrected(p, sqrt)
  {
    RectangleCornersExact(leftUpper, width, height);
    ConstructedRectangleArea(p, leftUpper, width, height, sqrt);
  }

  /** A rectangle whose points are the four vertices: `get_area` is their shoelace area. */
  lemma ConstructedRectangleArea(p: Polygon, a: Vector2d, w: real, h: real, sqrt: SqrtFn)
    requires p.kind == RectangleKind(w, h) && 0.0 <= w && 0.0 <= h
    requires p.points == [a, Vector2d(a.x + w, a.y), Vector2d(a.x + w, a.y - h), Vector2d(a.x, a.y - h)]
    ensures Area(p, sqrt) == ShoelaceArea(p.points) && Area(p, sqrt) == AreaCorrected(p, sqrt)
  {
    RectangleShoelaceArea(p.points, a.x, a.y, w, h, a.x + w);
    assert h * w == w * h;
  }

  /** An edge cross of the triangle's vertices in terms of two of its side vectors. */
  lemma ClosingSideCross(x0: real, y0: real, x1: real, y1: real, x2: real, y2: real)
    ensures EdgeCross(x0, y0, x1, y1) + EdgeCross(x1, y1, x2, y2) + EdgeCross(x2, y2, x0, y0) ==
      (x1 - x0) * (y2 - y1) - (y1 - y0) * (x2 - x1)
  {
  }

  /** The signed area of three points, edge by edge. */
  lemma TriangleSignedArea(points: seq<Vector2d>)
    requires |points| == 3
    ensures var a, b, c := points[0], points[1], points[2];
      SignedArea(points) == 0.5 * (EdgeCross(a.x, a.y, b.x, b.y) + EdgeCross(b.x, b.y, c.x, c.y) +
        EdgeCross(c.x, c.y, a.x, a.y))
  {
    assert SumsUpTo(points, 1).area == EdgeCross(points[0].x, points[0].y, points[1].x, points[1].y);
    assert SumsUpTo(points, 2).area == SumsUpTo(points, 1).area + EdgeCross(points[1].x, points[1].y, points[2].x, points[2].y);
  }

  /** The sides of three points, when they can be built. */
  lemma TriangleSides(points: seq<Vector2d>)
    requires |points| == 3 && SidesOf(points).Ok?
    ensures SidesOf(points).value ==
      [Primitive(SegmentKind, points[0], points[1]), Primitive(SegmentKind, points[1], points[2]),
       Primitive(SegmentKind, points[2], points[0])]
  {
    assert Next(3, 0) == 1 && Next(3, 1) == 2 && Next(3, 2) == 0;
  }

  /** Going on along the third side turns as much as the first turn. */
  lemma ClosingTurn(u: Vector2d, v: Vector2d)
    ensures Cross(v, Vector2d(-(u.x + v.x), -(u.y + v.y))) == Cross(u, v)
  {
  }

  /** Both cross products of a triangle's sides are the same number, so no triangle
      of rounded points is concave: `Triangle` never raises the convexity error. */
  lemma TriangleNeverConcave(points: seq<Vector2d>)
    requires |points| == 3 && Rounded(points[0]) && Rounded(points[1]) && Rounded(points[2])
    requires SidesOf(points).Ok?
    ensures !Concave(SidesOf(points).value)
  {
    var sides := SidesOf(points).value;
    TriangleSides(points);
    var p0, p1, p2 := points[0], points[1], points[2];
    var u, v, w := GetVector(sides[0]), GetVector(sides[1]), GetVector(sides[2]);
    assert u == Vector2d(p1.x - p0.x, p1.y - p0.y);
    assert v == Vector2d(p2.x - p1.x, p2.y - p1.y);
    assert w == Vector2d(-(u.x + v.x), -(u.y + v.y));
    ClosingTurn(u, v);
    var c := SideCross(sides, 0);
    assert SideCross(sides, 1) == c;
    assert CrossProducts(sides) == [c, c];
    SquareNonNegative(c);
    assert !OppositeSign(c, c);
  }

  /** The concave polygon of the library's own tests. */
  const ConcaveTestPoints: seq<Vector2d> := [Vector2d(-9.0, -2.0), Vector2d(-7.84, -2.54),
    Vector2d(-6.41, -1.14), Vector2d(-5.47, -2.89), Vector2d(-5.91, -4.48), Vector2d(-8.43, -5.05)]

  /** Its first two cross products are 2.3962 and -3.8185: the sides turn both ways. */
  lemma ConcaveTestPointsConcave()
    requires SidesOf(ConcaveTestPoints).Ok?
    ensures Concave(SidesOf(ConcaveTestPoints).value)
  {
    var points := ConcaveTestPoints;
    var sides := SidesOf(points).value;
    OnGridOfInt(-9.0, -90000);
    OnGridOfInt(-2.0, -20000);
    OnGridOfInt(-7.84, -78400);
    OnGridOfInt(-2.54, -25400);
    OnGridOfInt(-6.41, -64100);
    OnGridOfInt(-1.14, -11400);
    OnGridOfInt(-5.47, -54700);
    OnGridOfInt(-2.89, -28900);
    assert Next(6, 0) == 1 && Next(6, 1) == 2 && Next(6, 2) == 3;
    assert GetVector(sides[0]) == Vector2d(1.16, -0.54);
    assert GetVector(sides[1]) == Vector2d(1.43, 1.4);
    assert GetVector(sides[2]) == Vector2d(0.94, -1.75);
    var products := CrossProducts(sides);
    assert products[0] == 2.3962;
    assert products[1] == -3.8185;
    assert OppositeSign(products[1], products[0]);
  }

  /** `ConvexPolygon` rejects the test's concave polygon, as the tests expect. */
  lemma ConvexPolygonRejectsConcaveTestPoints()
    ensures MakeConvexPolygon(ConcaveTestPoints).Err?
  {
    if MakeConvexPolygon(ConcaveTestPoints).Ok? {
      PolygonParts(ConvexKind, ConcaveTestPoints);
      ConcaveTestPointsConcave();
    }
  }

  /** The convex polygon of the library's own tests. */
  const ConvexTestPoints: seq<Vector2d> := [Vector2d(-7.29, 2.0), Vector2d(-5.72, 0.74),
    Vector2d(-3.44, 1.98), Vector2d(-3.96, 3.62), Vector2d(-6.33, 3.86), Vector2d(-7.29, 3.41)]

  lemma ConvexTestPointsRounded()
    ensures forall i :: 0 <= i < 6 ==> Rounded(ConvexTestPoints[i])
  {
    OnGridOfInt(-7.29, -72900);
    OnGridOfInt(2.0, 20000);
    OnGridOfInt(-5.72, -57200);
    OnGridOfInt(0.74, 7400);
    OnGridOfInt(-3.44, -34400);
    OnGridOfInt(1.98, 19800);
    OnGridOfInt(-3.96, -39600);
    OnGridOfInt(3.62, 36200);
    OnGridOfInt(-6.33, -63300);
    OnGridOfInt(3.86, 38600);
    OnGridOfInt(3.41, 34100);
  }

  /** The six sides are built, each from a point to the next. */
  lemma ConvexTestSides()
    ensures SidesOf(ConvexTestPoints).Ok?
  {
    var points := ConvexTestPoints;
    assert Next(6, 0) == 1 && Next(6, 1) == 2 && Next(6, 2) == 3;
    assert Next(6, 3) == 4 && Next(6, 4) == 5 && Next(6, 5) == 0;
    assert !DegenerateSide(points, 0) && !DegenerateSide(points, 1) && !DegenerateSide(points, 2);
    assert !DegenerateSide(points, 3) && !DegenerateSide(points, 4) && !DegenerateSide(points, 5);
  }

  /** The vectors of the six sides. */
  lemma ConvexTestSideVectors()
    ensures SidesOf(ConvexTestPoints).Ok?
    ensures var sides := SidesOf(ConvexTestPoints).value;
      GetVector(sides[0]) == Vector2d(1.57, -1.26) && GetVector(sides[1]) == Vector2d(2.28, 1.24) &&
      GetVector(sides[2]) == Vector2d(-0.52, 1.64) && GetVector(sides[3]) == Vector2d(-2.37, 0.24) &&
      GetVector(sides[4]) == Vector2d(-0.96, -0.45) && GetVector(sides[5]) == Vector2d(0.0, -1.41)
  {
    var points := ConvexTestPoints;
    ConvexTestSides();
    ConvexTestPointsRounded();
    assert Next(6, 0) == 1 && Next(6, 1) == 2 && Next(6, 2) == 3;
    assert Next(6, 3) == 4 && Next(6, 4) == 5 && Next(6, 5) == 0;
    assert Rounded(points[0]) && Rounded(points[1]) && Rounded(points[2]);
    assert Rounded(points[3]) && Rounded(points[4]) && Rounded(points[5]);
  }

  /** Its sides are built and its cross products 4.8196, 4.384, 3.762, 1.2969 and
      1.3536 all have the sign of the first: it passes the convexity check. */
  lemma ConvexTestPointsConvex()
    ensures SidesOf(ConvexTestPoints).Ok? && !Concave(SidesOf(ConvexTestPoints).value)
  {
    ConvexTestSideVectors();
    ConvexTestTurns(SidesOf(ConvexTestPoints).value);
  }

  /** Six sides with the vectors of the test's convex polygon turn the same way. */
  lemma ConvexTestTurns(sides: seq<Prim>)
    requires |sides| == 6
    requires GetVector(sides[0]) == Vector2d(1.57, -1.26) && GetVector(sides[1]) == Vector2d(2.28, 1.24) &&
      GetVector(sides[2]) == Vector2d(-0.52, 1.64) && GetVector(sides[3]) == Vector2d(-2.37, 0.24) &&
      GetVector(sides[4]) == Vector2d(-0.96, -0.45) && GetVector(sides[5]) == Vector2d(0.0, -1.41)
    ensures !Concave(sides)
  {
    assert SideCross(sides, 0) == 4.8196;
    assert SideCross(sides, 1) == 4.384;
    assert SideCross(sides, 2) == 3.762;
    assert SideCross(sides, 3) == 1.2969;
    assert SideCross(sides, 4) == 1.3536;
    PositiveTurnsNotConcave(sides);
  }

  /** Six sides whose consecutive cross products are all positive never change
      their turn. */
  lemma PositiveTurnsNotConcave(sides: seq<Prim>)
    requires |sides| == 6
    requires 0.0 < SideCross(sides, 0) && 0.0 < SideCross(sides, 1) && 0.0 < SideCross(sides, 2)
    requires 0.0 < SideCross(sides, 3) && 0.0 < SideCross(sides, 4)
    ensures !Concave(sides)
  {
    var c0, c1, c2, c3, c4 := SideCross(sides, 0), SideCross(sides, 1), SideCross(sides, 2),
      SideCross(sides, 3), SideCross(sides, 4);
    var products := CrossProducts(sides);
    assert products[0] == c0 && products[1] == c1 && products[2] == c2;
    assert products[3] == c3 && products[4] == c4;
    PositiveNoSignChange(products);
  }

  /** Five positive products never change sign. */
  lemma PositiveNoSignChange(products: seq<real>)
    requires |products| == 5
    requires 0.0 < products[0] && 0.0 < products[1] && 0.0 < products[2]
    requires 0.0 < products[3] && 0.0 < products[4]
    ensures !SignChanges(products)
  {
    forall i | 0 <= i < |products|
      ensures !OppositeSign(products[i], products[0])
    {
      MulPositive(products[i], products[0]);
    }
  }

  // ----- the two area formulas as written -----

  /** The sums of `get_area` over four sides, term by term. */
  lemma FourSideSums(sides: seq<Prim>)
    requires |sides| == 4
    ensures ForwardSum(sides) == ForwardProduct(sides[0]) + ForwardProduct(sides[1]) +
      ForwardProduct(sides[2]) + ForwardProduct(sides[3])
    ensures BackwardSum(sides) == BackwardProduct(sides[0]) + BackwardProduct(sides[1]) +
      BackwardProduct(sides[2]) + BackwardProduct(sides[3])
  {
    var t1 := sides[1..];
    var t2 := t1[1..];
    var t3 := t2[1..];
    assert t3[1..] == [];
    assert ForwardSum(t3) == ForwardProduct(sides[3]) && BackwardSum(t3) == BackwardProduct(sides[3]);
    assert ForwardSum(t2) == ForwardProduct(sides[2]) + ForwardSum(t3);
    assert BackwardSum(t2) == BackwardProduct(sides[2]) + BackwardSum(t3);
  }

  /** The sides of the unit square from (1, 1). */
  lemma SquareSides()
    ensures var a, b, c, d := Vector2d(1.0, 1.0), Vector2d(2.0, 1.0), Vector2d(2.0, 2.0), Vector2d(1.0, 2.0);
      SidesOf([a, b, c, d]).Ok? &&
      SidesOf([a, b, c, d]).value == [Primitive(SegmentKind, a, b), Primitive(SegmentKind, b, c),
        Primitive(SegmentKind, c, d), Primitive(SegmentKind, d, a)]
  {
    var a, b, c, d := Vector2d(1.0, 1.0), Vector2d(2.0, 1.0), Vector2d(2.0, 2.0), Vector2d(1.0, 2.0);
    var square := [a, b, c, d];
    assert Next(4, 0) == 1 && Next(4, 1) == 2 && Next(4, 2) == 3 && Next(4, 3) == 0;
    assert !DegenerateSide(square, 0) && !DegenerateSide(square, 1);
    assert !DegenerateSide(square, 2) && !DegenerateSide(square, 3);
  }

  /** The unit square from (1, 1): `get_area` as written gives 9, the shoelace area
      is 1. */
  lemma AreaAsWrittenCounterexample(square: seq<Vector2d>)
    requires square == [Vector2d(1.0, 1.0), Vector2d(2.0, 1.0), Vector2d(2.0, 2.0), Vector2d(1.0, 2.0)]
    ensures SidesOf(square).Ok? && AreaAsWritten(SidesOf(square).value) == 9.0 && ShoelaceArea(square) == 1.0
  {
    SquareSides();
    FourSideSums(SidesOf(square).value);
    SquareShoelace(square);
  }

  lemma SquareShoelace(square: seq<Vector2d>)
    requires square == [Vector2d(1.0, 1.0), Vector2d(2.0, 1.0), Vector2d(2.0, 2.0), Vector2d(1.0, 2.0)]
    ensures ShoelaceArea(square) == 1.0
  {
    QuadrilateralSignedArea(square);
  }

  /** The side lengths of the 3-4-5 right triangle at the origin. */
  lemma RightTriangleSides(sqrt: SqrtFn)
    requires IsSqrt(sqrt)
    ensures SidesMagnitude([Vector2d(0.0, 0.0), Vector2d(3.0, 0.0), Vector2d(0.0, 4.0)], sqrt) == (3.0, 5.0, 4.0)
  {
    var triangle := [Vector2d(0.0, 0.0), Vector2d(3.0, 0.0), Vector2d(0.0, 4.0)];
    OnGridInt(0);
    OnGridInt(3);
    OnGridInt(4);
    assert Sub(triangle[1], triangle[0]) == Vector2d(3.0, 0.0);
    assert Sub(triangle[2], triangle[1]) == Vector2d(-3.0, 4.0);
    assert Sub(triangle[0], triangle[2]) == Vector2d(0.0, -4.0);
    assert SquaredMagnitude(Vector2d(3.0, 0.0)) == 9.0;
    assert SquaredMagnitude(Vector2d(-3.0, 4.0)) == 25.0;
    assert SquaredMagnitude(Vector2d(0.0, -4.0)) == 16.0;
    SqrtUnique(sqrt, 9.0, 3.0);
    SqrtUnique(sqrt, 25.0, 5.0);
    SqrtUnique(sqrt, 16.0, 4.0);
  }

  /** The 3-4-5 right triangle at the origin: `Triangle.get_area` as written gives 3;
      Heron's formula and the shoelace area give 6. */
  lemma TriangleAreaAsWrittenCounterexample(triangle: seq<Vector2d>, sqrt: SqrtFn)
    requires IsSqrt(sqrt) && triangle == [Vector2d(0.0, 0.0), Vector2d(3.0, 0.0), Vector2d(0.0, 4.0)]
    ensures TriangleAreaAsWritten(triangle, sqrt) == 3.0 && TriangleArea(triangle, sqrt) == 6.0
    ensures ShoelaceArea(triangle) == 6.0
  {
    RightTriangleSides(sqrt);
    assert HeronProduct(3.0, 5.0, 4.0) == 36.0;
    SqrtUnique(sqrt, 36.0, 6.0);
    RightTriangleShoelace(triangle);
  }

  lemma RightTriangleShoelace(triangle: seq<Vector2d>)
    requires triangle == [Vector2d(0.0, 0.0), Vector2d(3.0, 0.0), Vector2d(0.0, 4.0)]
    ensures ShoelaceArea(triangle) == 6.0
  {
    TriangleSignedArea(triangle);
  }

  // ----- Heron's formula and the shoelace formula -----

  /** Sixteen times Heron's product in terms of the squared sides. */
  lemma HeronExpansion(a: real, b: real, c: real)
    ensures 16.0 * HeronProduct(a, b, c) ==
      4.0 * (Square(a) * Square(b)) - Square(Square(c) - Square(a) - Square(b))
  {
    var s := 0.5 * (a + b + c);
    assert 16.0 * HeronProduct(a, b, c) == (a + b + c) * (b + c - a) * (a + c - b) * (a + b - c);
    assert (a + b + c) * (a + b - c) == Square(a + b) - Square(c);
    assert (b + c - a) * (a + c - b) == Square(c) - Square(a - b);
    assert (Square(a + b) - Square(c)) * (Square(c) - Square(a - b)) ==
      4.0 * (Square(a) * Square(b)) - Square(Square(c) - Square(a) - Square(b));
  }

  /** The squared length of the closing side -(u + v). */
  lemma ClosingSideSquare(u: Vector2d, v: Vector2d)
    ensures SquaredMagnitude(Vector2d(-(u.x + v.x), -(u.y + v.y))) ==
      SquaredMagnitude(u) + SquaredMagnitude(v) + 2.0 * Dot(u, v)
  {
  }

  /** Heron's product from the squared sides A, B and A + B + 2d, where
      A * B == d^2 + k^2. */
  lemma HeronOfSquares(a: real, b: real, c: real, sa: real, sb: real, d: real, k: real)
    requires Square(a) == sa && Square(b) == sb && Square(c) == sa + sb + 2.0 * d
    requires sa * sb == Square(d) + Square(k)
    ensures HeronProduct(a, b, c) == Square(k / 2.0)
  {
    HeronExpansion(a, b, c);
    assert Square(2.0 * d) == 4.0 * Square(d);
    assert 16.0 * HeronProduct(a, b, c) == 4.0 * Square(k);
    assert Square(k / 2.0) * 4.0 == Square(k);
  }

  /** Heron's product of the side lengths is the square of half the cross product. */
  lemma HeronOfSides(u: Vector2d, v: Vector2d, a: real, b: real, c: real)
    requires Square(a) == SquaredMagnitude(u) && Square(b) == SquaredMagnitude(v)
    requires Square(c) == SquaredMagnitude(Vector2d(-(u.x + v.x), -(u.y + v.y)))
    ensures HeronProduct(a, b, c) == Square(Cross(u, v) / 2.0)
  {
    ClosingSideSquare(u, v);
    LagrangeIdentity(u, v);
    HeronOfSquares(a, b, c, SquaredMagnitude(u), SquaredMagnitude(v), Dot(u, v), Cross(u, v));
  }

  /** The root of the square of k / 2 is half the absolute value of k. */
  lemma SqrtOfHalfSquare(sqrt: SqrtFn, k: real)
    requires IsSqrt(sqrt)
    ensures sqrt(Square(k / 2.0)) == Abs(k) / 2.0
  {
    var half := Abs(k) / 2.0;
    assert Square(half) == Square(k / 2.0);
    SqrtUnique(sqrt, Square(k / 2.0), half);
  }

  /** The side lengths are roots of the squared lengths of u, v and -(u + v). */
  lemma SideLengths(points: seq<Vector2d>, sqrt: SqrtFn)
    requires IsSqrt(sqrt) && |points| == 3
    requires Rounded(points[0]) && Rounded(points[1]) && Rounded(points[2])
    ensures var u, v := Sub(points[1], points[0]), Sub(points[2], points[1]);
      var (a, b, c) := SidesMagnitude(points, sqrt);
      Square(a) == SquaredMagnitude(u) && Square(b) == SquaredMagnitude(v) &&
      Square(c) == SquaredMagnitude(Vector2d(-(u.x + v.x), -(u.y + v.y)))
  {
    var p0, p1, p2 := points[0], points[1], points[2];
    var u, v, w := Sub(p1, p0), Sub(p2, p1), Sub(p0, p2);
    assert w == Vector2d(-(u.x + v.x), -(u.y + v.y));
    SquaredMagnitudeNonNegative(u);
    SquaredMagnitudeNonNegative(v);
    SquaredMagnitudeNonNegative(w);
    SqrtOf(sqrt, SquaredMagnitude(u));
    SqrtOf(sqrt, SquaredMagnitude(v));
    SqrtOf(sqrt, SquaredMagnitude(w));
  }

  /** The corrected triangle area is half the absolute cross product of two sides. */
  lemma TriangleAreaIsHalfCross(points: seq<Vector2d>, sqrt: SqrtFn)
    requires IsSqrt(sqrt) && |points| == 3
    requires Rounded(points[0]) && Rounded(points[1]) && Rounded(points[2])
    ensures TriangleArea(points, sqrt) == Abs(Cross(Sub(points[1], points[0]), Sub(points[2], points[1]))) / 2.0
  {
    var u, v := Sub(points[1], points[0]), Sub(points[2], points[1]);
    var (a, b, c) := SidesMagnitude(points, sqrt);
    SideLengths(points, sqrt);
    HeronOfSides(u, v, a, b, c);
    SqrtOfHalfSquare(sqrt, Cross(u, v));
  }

  /** The shoelace area of a triangle is half the absolute cross product of two sides. */
  lemma TriangleShoelaceIsHalfCross(points: seq<Vector2d>)
    requires |points| == 3 && Rounded(points[0]) && Rounded(points[1]) && Rounded(points[2])
    ensures ShoelaceArea(points) == Abs(Cross(Sub(points[1], points[0]), Sub(points[2], points[1]))) / 2.0
  {
    var p0, p1, p2 := points[0], points[1], points[2];
    TriangleSignedArea(points);
    ClosingSideCross(p0.x, p0.y, p1.x, p1.y, p2.x, p2.y);
    assert SignedArea(points) == 0.5 * Cross(Sub(p1, p0), Sub(p2, p1));
  }

  /** Heron's formula, as corrected, gives the shoelace area of any triangle of
      rounded points. */
  lemma HeronMatchesShoelace(points: seq<Vector2d>, sqrt: SqrtFn)
    requires IsSqrt(sqrt) && |points| == 3
    requires Rounded(points[0]) && Rounded(points[1]) && Rounded(points[2])
    ensures TriangleArea(points, sqrt) == ShoelaceArea(points)
  {
    TriangleAreaIsHalfCross(points, sqrt);
    TriangleShoelaceIsHalfCross(points);
  }

  // ----- get_area_triangles and the extents of a constructed polygon -----

  /** The polygons whose `Area` is defined: a triangle has its three points. */
  predicate AreaDefined(p: Polygon) {
    p.kind.TriangleKind? ==> |p.points| >= 3
  }

  /** The sum of the areas of a list of polygons, first to last. */
  function TrianglesArea(triangles: seq<Polygon>, sqrt: SqrtFn): real
    requires forall t :: t in triangles ==> AreaDefined(t)
  {
    if |triangles| == 0 then 0.0
    else
      var last := triangles[|triangles| - 1];
      assert last in triangles && AreaDefined(last);
      TrianglesArea(triangles[..|triangles| - 1], sqrt) + Area(last, sqrt)
  }

  /** `get_area_triangles`: the areas of the fan's triangles summed in order.
      Iterating over the absent triangles of a concave polygon is a TypeError. */
  method GetAreaTriangles(p: Polygon, sqrt: SqrtFn) returns (r: Result<real>)
    requires p.triangles.Some? ==> forall t :: t in p.triangles.value ==> AreaDefined(t)
    ensures p.triangles.None? ==> r == Err(TypeError("'NoneType' object is not iterable"))
    ensures p.triangles.Some? ==> r == Ok(TrianglesArea(p.triangles.value, sqrt))
  {
    if p.triangles.None? {
      return Err(TypeError("'NoneType' object is not iterable"));
    }
    var triangles := p.triangles.value;
    var area := 0.0;
    var i := 0;
    while i < |triangles|
      invariant 0 <= i <= |triangles|
      invariant area == TrianglesArea(triangles[..i], sqrt)
    {
      assert triangles[..i + 1][..i] == triangles[..i];
      assert triangles[i] in triangles;
      area := area + Area(triangles[i], sqrt);
      i := i + 1;
    }
    assert triangles[..i] == triangles;
    r := Ok(area);
  }

  /** The sum `get_area_triangles` was meant to give: the true areas of the triangles. */
  function TrianglesAreaCorrected(triangles: seq<Polygon>, sqrt: SqrtFn): real
    requires forall t :: t in triangles ==> AreaDefined(t)
  {
    if |triangles| == 0 then 0.0
    else
      var last := triangles[|triangles| - 1];
      assert last in triangles && AreaDefined(last);
      TrianglesAreaCorrected(triangles[..|triangles| - 1], sqrt) + AreaCorrected(last, sqrt)
  }

  /** Because the triangle override of `get_area` halves Heron's area, the sum over
      a fan of triangles is half the sum of their true areas. */
  lemma {:induction false} TrianglesAreaHalved(triangles: seq<Polygon>, sqrt: SqrtFn)
    requires forall t :: t in triangles ==> t.kind.TriangleKind? && |t.points| >= 3
    ensures TrianglesArea(triangles, sqrt) == 0.5 * TrianglesAreaCorrected(triangles, sqrt)
    decreases |triangles|
  {
    if |triangles| > 0 {
      var front := triangles[..|triangles| - 1];
      var last := triangles[|triangles| - 1];
      assert forall t :: t in front ==> t in triangles;
      assert last in triangles;
      TrianglesAreaHalved(front, sqrt);
    }
  }

  /** The triangles of a constructed polygon are triangles of three points each, the
      fan [p0, p_i, p_(i+1)] for i from 2 to n - 2: n - 3 of them, without [p0, p1, p2]. */
  lemma ConstructedFan(kind: PolyKind, points: seq<Vector2d>)
    requires MakePolygon(kind, points).Ok?
    ensures var p := MakePolygon(kind, points).value;
      p.triangles.Some? && |p.triangles.value| == |points| - 3 &&
      (forall i :: 0 <= i < |points| - 3 ==>
        p.triangles.value[i].kind == TriangleKind &&
        p.triangles.value[i].points == [points[0], points[i + 2], points[i + 3]]) &&
      forall t :: t in p.triangles.value ==> AreaDefined(t)
  {
    PolygonParts(kind, points);
  }

  /** `get_area_triangles` of a constructed polygon gives half the true area of its
      fan of triangles. */
  lemma ConstructedFanAreaHalved(kind: PolyKind, points: seq<Vector2d>, sqrt: SqrtFn)
    requires MakePolygon(kind, points).Ok?
    ensures var p := MakePolygon(kind, points).value;
      p.triangles.Some? && (forall t :: t in p.triangles.value ==> AreaDefined(t)) &&
      TrianglesArea(p.triangles.value, sqrt) == 0.5 * TrianglesAreaCorrected(p.triangles.value, sqrt)
  {
    ConstructedFan(kind, points);
    var fan := MakePolygon(kind, points).value.triangles.value;
    forall t | t in fan
      ensures t.kind.TriangleKind? && |t.points| >= 3
    {
      var i :| 0 <= i < |fan| && fan[i] == t;
    }
    TrianglesAreaHalved(fan, sqrt);
  }

  /** The extremes as written of a non-empty list: the maxima are points of the list
      with the largest coordinates; a minimum is the initial (0, 0) exactly when every
      point raises the maximum, and otherwise a point of the list. */
  lemma MostDistantPointsAsWrittenBounds(points: seq<Vector2d>)
    requires |points| > 0
    ensures var e := MostDistantPointsAsWritten(points);
      e.maxX in points && e.maxY in points &&
      (forall q :: q in points ==> q.x <= e.maxX.x && q.y <= e.maxY.y) &&
      ((forall i :: 0 <= i < |points| ==> RaisesMaxX(points, i)) ==> e.minX == Zero) &&
      (!(forall i :: 0 <= i < |points| ==> RaisesMaxX(points, i)) ==> e.minX in points) &&
      ((forall i :: 0 <= i < |points| ==> RaisesMaxY(points, i)) ==> e.minY == Zero) &&
      (!(forall i :: 0 <= i < |points| ==> RaisesMaxY(points, i)) ==> e.minY in points)
  {
    ScanAsWrittenMaxima(points);
    ScanMaxXSound(points);
    ScanMaxYSound(points);
    ScanAsWrittenMinX(points);
    ScanAsWrittenMinY(points);
  }

  /** Outside a rectangle, height and width of a constructed polygon are the spans of
      the extremes as written. Every point lies at or below the maximum; the span is
      not negative when the minimum was set, and is the maximum itself, of either
      sign, when every point raised the maximum and the minimum stayed (0, 0). */
  lemma ConstructedExtents(kind: PolyKind, points: seq<Vector2d>)
    requires MakePolygon(kind, points).Ok? && !kind.RectangleKind?
    ensures var p := MakePolygon(kind, points).value; var e := p.extremes;
      Height(p) == e.maxY.y - e.minY.y && Width(p) == e.maxX.x - e.minX.x &&
      (forall q :: q in points ==> q.x <= e.maxX.x && q.y <= e.maxY.y) &&
      ((forall i :: 0 <= i < |points| ==> RaisesMaxX(points, i)) ==> Width(p) == e.maxX.x) &&
      (!(forall i :: 0 <= i < |points| ==> RaisesMaxX(points, i)) ==> 0.0 <= Width(p)) &&
      ((forall i :: 0 <= i < |points| ==> RaisesMaxY(points, i)) ==> Height(p) == e.maxY.y) &&
      (!(forall i :: 0 <= i < |points| ==> RaisesMaxY(points, i)) ==> 0.0 <= Height(p))
  {
    var p := MakePolygon(kind, points).value;
    assert p.extremes == MostDistantPointsAsWritten(points);
    MostDistantPointsAsWrittenBounds(points);
  }
}
