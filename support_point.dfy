/** `get_closest_support_point` of
    core/math/geometry/collision_detection/polygons/get_closest_polygons_point.py:
    the polygon vertex nearest to a point, then, among the sides that end at that
    vertex, the side point nearest to the point. Both searches start from the
    distance 100000 and the point None and replace them only on a strictly smaller
    distance. */
module SupportPoint {
  import opened Wrappers
  import opened RealMath
  import opened Vectors
  import opened Primitives
  import Polygons

  /** The starting `min_distance` of both loops. */
  const StartDistance: real := 100000.0

  /** The position a search loop settles on: the first index of a strictly
      smaller distance than everything before it and than the starting bound. */
  function FirstMin(ds: seq<real>, bound: real): (r: Option<nat>)
    ensures r.None? <==> forall i :: 0 <= i < |ds| ==> bound <= ds[i]
    ensures r.Some? ==> (r.value < |ds| && ds[r.value] < bound &&
      (forall i :: 0 <= i < |ds| ==> ds[r.value] <= ds[i]) &&
      (forall i :: 0 <= i < r.value ==> ds[r.value] < ds[i]))
  {
    if |ds| == 0 then None
    else
      var prefix := ds[..|ds| - 1];
      assert forall i :: 0 <= i < |ds| - 1 ==> ds[i] == prefix[i];
      var previous := FirstMin(prefix, bound);
      var best := if previous.None? then bound else ds[previous.value];
      if ds[|ds| - 1] < best then Some(|ds| - 1) else previous
  }

  /** One more distance: the loop either moves to it or keeps its choice. */
  lemma FirstMinSnoc(ds: seq<real>, d: real, bound: real)
    ensures var previous := FirstMin(ds, bound);
      var best := if previous.None? then bound else ds[previous.value];
      FirstMin(ds + [d], bound) == if d < best then Some(|ds|) else previous
  {
    assert (ds + [d])[..|ds|] == ds;
  }

  /** `(candidate - point).get_magnitude()` for each candidate. */
  function Distances(candidates: seq<Vector2d>, point: Vector2d, sqrt: SqrtFn): (r: seq<real>)
    ensures |r| == |candidates|
    ensures forall i :: 0 <= i < |candidates| ==> r[i] == Magnitude(Sub(candidates[i], point), sqrt)
  {
    seq(|candidates|, i requires 0 <= i < |candidates| => Magnitude(Sub(candidates[i], point), sqrt))
  }

  /** The candidate a search loop returns, or None when none is nearer than 100000. */
  function Nearest(candidates: seq<Vector2d>, point: Vector2d, sqrt: SqrtFn): Option<Vector2d> {
    match FirstMin(Distances(candidates, point, sqrt), StartDistance)
    case None => None
    case Some(k) => Some(candidates[k])
  }

  /** `polygon.get_side_with_point(min_distance_point)`: None equals no end point,
      since `Vector2d.__eq__` declines the comparison and None's falls back to identity. */
  function SidesNear(sides: seq<Prim>, vertex: Option<Vector2d>): (r: seq<Prim>)
    ensures vertex.None? ==> r == []
    ensures vertex.Some? ==> r == Polygons.SidesWithPoint(sides, vertex.value)
  {
    match vertex
    case None => []
    case Some(v) => Polygons.SidesWithPoint(sides, v)
  }

  /** `line.get_closest_point(point)` for each side. */
  function SidePoints(sides: seq<Prim>, point: Vector2d, sqrt: SqrtFn): (r: seq<Vector2d>)
    ensures |r| == |sides|
    ensures forall i :: 0 <= i < |sides| ==> r[i] == ClosestPoint(sides[i], point, sqrt)
  {
    seq(|sides|, i requires 0 <= i < |sides| => ClosestPoint(sides[i], point, sqrt))
  }

  /** The whole search. */
  function ClosestSupportPoint(polygon: Polygons.Polygon, point: Vector2d, sqrt: SqrtFn): Option<Vector2d> {
    var vertex := Nearest(polygon.points, point, sqrt);
    var sides := SidesNear(polygon.sides, vertex);
    Nearest(SidePoints(sides, point, sqrt), point, sqrt)
  }

  /** One search loop of lines 14-19 and 26-32, over precomputed candidates. */
  method NearestLoop(candidates: seq<Vector2d>, point: Vector2d, sqrt: SqrtFn) returns (r: Option<Vector2d>)
    ensures r == Nearest(candidates, point, sqrt)
  {
    ghost var ds := Distances(candidates, point, sqrt);
    var minDistance := StartDistance;
    r := None;
    for i := 0 to |candidates|
      invariant var k := FirstMin(ds[..i], StartDistance);
        (k.None? ==> minDistance == StartDistance && r == None) &&
        (k.Some? ==> k.value < i && minDistance == ds[k.value] && r == Some(candidates[k.value]))
    {
      var distance := Magnitude(Sub(candidates[i], point), sqrt);
      assert ds[..i + 1] == ds[..i] + [distance];
      FirstMinSnoc(ds[..i], distance, StartDistance);
      if distance < minDistance {
        minDistance := distance;
        r := Some(candidates[i]);
      }
    }
    assert ds[..|candidates|] == ds;
  }

  /** `get_closest_support_point`: the two loops, with the sides between them
      taken from `get_side_with_point`. */
  method GetClosestSupportPoint(polygon: Polygons.Polygon, point: Vector2d, sqrt: SqrtFn) returns (r: Option<Vector2d>)
    ensures r == ClosestSupportPoint(polygon, point, sqrt)
  {
    var vertex := NearestLoop(polygon.points, point, sqrt);
    var sides: seq<Prim> := [];
    if vertex.Some? {
      sides := Polygons.GetSideWithPoint(polygon.sides, vertex.value);
    }
    var candidates: seq<Vector2d> := [];
    for i := 0 to |sides|
      invariant candidates == SidePoints(sides[..i], point, sqrt)
    {
      candidates := candidates + [ClosestPoint(sides[i], point, sqrt)];
    }
    assert sides[..|sides|] == sides;
    r := NearestLoop(candidates, point, sqrt);
  }

  // ----- properties -----

  /** Candidate `k` is nearer than 100000, no candidate is nearer and every
      earlier one is strictly further away. */
  predicate IsFirstNearest(candidates: seq<Vector2d>, point: Vector2d, sqrt: SqrtFn, k: int)
    requires 0 <= k < |candidates|
  {
    var d := Magnitude(Sub(candidates[k], point), sqrt);
    d < StartDistance &&
    (forall i :: 0 <= i < |candidates| ==> d <= Magnitude(Sub(candidates[i], point), sqrt)) &&
    (forall i :: 0 <= i < k ==> d < Magnitude(Sub(candidates[i], point), sqrt))
  }

  /** The search returns a first nearest candidate: nearer than 100000, no
      candidate nearer, every earlier candidate strictly further away; None
      exactly when every candidate is at least 100000 away. */
  lemma NearestIsFirstMinimum(candidates: seq<Vector2d>, point: Vector2d, sqrt: SqrtFn)
    ensures var r := Nearest(candidates, point, sqrt);
      (r.None? <==> forall i :: 0 <= i < |candidates| ==> StartDistance <= Magnitude(Sub(candidates[i], point), sqrt)) &&
      (r.Some? ==> exists k :: 0 <= k < |candidates| && r.value == candidates[k] && IsFirstNearest(candidates, point, sqrt, k))
  {
    var ds := Distances(candidates, point, sqrt);
    var m := FirstMin(ds, StartDistance);
    if m.Some? {
      var k := m.value;
      assert Nearest(candidates, point, sqrt) == Some(candidates[k]);
      assert forall i :: 0 <= i < |candidates| ==> ds[k] <= ds[i];
    }
  }

  /** A returned point is the closest point of a side that ends at the nearest
      vertex, and no such side has a strictly nearer closest point. */
  lemma ClosestSupportPointOnNearSide(polygon: Polygons.Polygon, point: Vector2d, sqrt: SqrtFn)
    ensures var vertex := Nearest(polygon.points, point, sqrt);
      var r := ClosestSupportPoint(polygon, point, sqrt);
      (vertex.None? ==> r.None?) &&
      (r.Some? ==>
        vertex.Some? &&
        (exists s :: s in polygon.sides && Polygons.SideTouches(s, vertex.value) && r.value == ClosestPoint(s, point, sqrt)) &&
        (forall t :: t in polygon.sides && Polygons.SideTouches(t, vertex.value) ==>
          Magnitude(Sub(r.value, point), sqrt) <= Magnitude(Sub(ClosestPoint(t, point, sqrt), point), sqrt)))
  {
    var vertex := Nearest(polygon.points, point, sqrt);
    var sides := SidesNear(polygon.sides, vertex);
    var candidates := SidePoints(sides, point, sqrt);
    NearestIsFirstMinimum(candidates, point, sqrt);
    var r := ClosestSupportPoint(polygon, point, sqrt);
    assert r == Nearest(candidates, point, sqrt);
    if r.Some? {
      var k :| 0 <= k < |candidates| && r.value == candidates[k] &&
        forall i :: 0 <= i < |candidates| ==>
          Magnitude(Sub(candidates[k], point), sqrt) <= Magnitude(Sub(candidates[i], point), sqrt);
      assert sides[k] in sides;
      forall t | t in polygon.sides && Polygons.SideTouches(t, vertex.value)
        ensures Magnitude(Sub(r.value, point), sqrt) <= Magnitude(Sub(ClosestPoint(t, point, sqrt), point), sqrt)
      {
        var j :| 0 <= j < |sides| && sides[j] == t;
        assert candidates[j] == ClosestPoint(t, point, sqrt);
      }
    }
  }
}
