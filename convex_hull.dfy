/** The Graham-scan hull builder of core/math/geometry/convex_hull.py: the pivot
    search, the slope sort around the pivot, the rotation that moves the pivot to
    the front and the stack scan. As written, every call of `create_convex_hull`
    raises before the scan: the pivot is passed to `sort_clockwise`, whose
    truth test on a `Vector2d` calls `__len__`, which returns a float. */
module ConvexHull {
  import opened Wrappers
  import opened Vectors
  import opened Primitives
  import Polygons

  /** CPython's complaint when `__len__` returns something that is not an int. */
  const FloatLenMessage := "'float' object cannot be interpreted as an integer"

  // ----- get_lower_point -----

  /** `point` replaces `best`: strictly lower, or as low and strictly further left. */
  predicate Below(point: Vector2d, best: Vector2d) {
    point.y < best.y || (point.y == best.y && point.x < best.x)
  }

  /** The point the loop of `get_lower_point` settles on. */
  function Lowest(points: seq<Vector2d>): (r: Vector2d)
    requires |points| > 0
    ensures r in points
    ensures forall q :: q in points ==> r.y < q.y || (r.y == q.y && r.x <= q.x)
  {
    if |points| == 1 then points[0]
    else
      var best := Lowest(points[..|points| - 1]);
      var point := points[|points| - 1];
      assert points == points[..|points| - 1] + [point];
      if Below(point, best) then point else best
  }

  /** `get_lower_point`: `points[0]` raises on an empty list. */
  function LowerPoint(points: seq<Vector2d>): (r: Result<Vector2d>)
    ensures r.Err? <==> |points| == 0
    ensures r.Err? ==> r.error == IndexError(ListIndexOutOfRange)
    ensures r.Ok? ==> (r.value in points &&
      forall q :: q in points ==> r.value.y < q.y || (r.value.y == q.y && r.value.x <= q.x))
  {
    if |points| == 0 then Err(IndexError(ListIndexOutOfRange)) else Ok(Lowest(points))
  }

  /** The loop of `get_lower_point`, starting from `points[0]`. */
  method GetLowerPoint(points: seq<Vector2d>) returns (r: Result<Vector2d>)
    ensures r == LowerPoint(points)
  {
    if |points| == 0 {
      return Err(IndexError(ListIndexOutOfRange));
    }
    var lower := points[0];
    assert lower == Lowest(points[..1]);
    for i := 0 to |points|
      invariant 0 < i ==> lower == Lowest(points[..i])
      invariant i == 0 ==> lower == points[0]
    {
      var point := points[i];
      if point.y < lower.y {
        lower := point;
      } else if point.y == lower.y && point.x < lower.x {
        lower := point;
      }
      if 0 < i {
        assert points[..i + 1][..i] == points[..i];
      } else {
        assert !Below(point, lower);
      }
    }
    assert points[..|points|] == points;
    r := Ok(lower);
  }

  /** No member of the list is strictly lower, or as low and further left, than
      the pivot: the order the sort is meant to start from. */
  lemma LowestIsExtreme(points: seq<Vector2d>, i: int)
    requires 0 <= i < |points|
    ensures !Below(points[i], Lowest(points))
  {
    assert points[i] in points;
  }

  // ----- sort_clockwise -----

  /** The sort keys `Line(pivot, point).get_slope()`, computed in list order; the
      first point equal to the pivot under `__eq__` makes `Line` raise. */
  function SortKeys(pivot: Vector2d, points: seq<Vector2d>): (r: Result<seq<real>>)
    ensures r.Err? <==> exists i :: 0 <= i < |points| && ApproxEq(pivot, points[i])
    ensures r.Err? ==> r.error == AttributeError(SamePointsMessage)
    ensures r.Ok? ==> (|r.value| == |points| &&
      forall i :: 0 <= i < |points| ==> r.value[i] == Slope(Primitive(LineKind, pivot, points[i])))
  {
    if |points| == 0 then Ok([])
    else
      var line :- MakePrimitive(LineKind, pivot, points[0]);
      var rest :- SortKeys(pivot, points[1..]);
      assert forall i :: 1 <= i < |points| ==> points[i] == points[1..][i - 1];
      Ok([Slope(line)] + rest)
  }

  /** The pivot's own key raises, so no key list exists for a list that contains
      its pivot. */
  lemma PivotKeyRaises(pivot: Vector2d, points: seq<Vector2d>)
    requires pivot in points
    ensures SortKeys(pivot, points) == Err(AttributeError(SamePointsMessage))
  {
    var i :| 0 <= i < |points| && points[i] == pivot;
    ApproxEqReflexiveSymmetric(pivot, pivot);
    assert ApproxEq(pivot, points[i]);
  }

  /** `sort_clockwise(points, lower_point)`. A given pivot fails the truth test
      `not lower_point`, because `Vector2d.__len__` returns a float; without one the
      pivot is searched for and then its own sort key raises. Either way the list
      is left as it was. */
  function SortClockwise(points: seq<Vector2d>, lower: Option<Vector2d>): (r: Result<seq<Vector2d>>)
    ensures lower.Some? ==> r == Err(TypeError(FloatLenMessage))
    ensures lower.None? && |points| == 0 ==> r == Err(IndexError(ListIndexOutOfRange))
    ensures lower.None? && |points| > 0 ==> r == Err(AttributeError(SamePointsMessage))
  {
    match lower
    case Some(_) => Err(TypeError(FloatLenMessage))
    case None =>
      var pivot :- LowerPoint(points);
      PivotKeyRaises(pivot, points);
      match SortKeys(pivot, points)
      case Err(e) => Err(e)
      // not reached: the pivot is a member of the list
      case Ok(_) => Ok(points)
  }

  // ----- the rotation and the scan -----

  /** The index the rotation loop leaves behind: the last position holding a
      point equal to the pivot under `__eq__`, or 0 (`int()`) when there is none. */
  function LastMatch(points: seq<Vector2d>, pivot: Vector2d): (r: nat)
    ensures |points| == 0 ==> r == 0
    ensures 0 < |points| ==> r < |points|
    ensures (exists i :: 0 <= i < |points| && ApproxEq(points[i], pivot)) ==> ApproxEq(points[r], pivot)
    ensures forall j :: r < j < |points| ==> !ApproxEq(points[j], pivot)
  {
    if |points| == 0 then 0
    else if ApproxEq(points[|points| - 1], pivot) then |points| - 1
    else
      var r := LastMatch(points[..|points| - 1], pivot);
      assert forall i :: 0 <= i < |points| - 1 ==> points[i] == points[..|points| - 1][i];
      r
  }

  /** The loop of lines 20-22. */
  method FindPivotIndex(points: seq<Vector2d>, pivot: Vector2d) returns (index: nat)
    ensures index == LastMatch(points, pivot)
  {
    index := 0;
    for i := 0 to |points|
      invariant index == LastMatch(points[..i], pivot)
    {
      assert points[..i + 1][..i] == points[..i];
      if ApproxEq(points[i], pivot) {
        index := i;
      }
    }
    assert points[..|points|] == points;
  }

  /** `points[index + 1:] + points[:index]`: the list from just after the pivot,
      wrapping round, with the pivot's own slot left out. */
  function Rotate(points: seq<Vector2d>, index: nat): (r: seq<Vector2d>)
    requires index < |points| || index == 0
  {
    if |points| == 0 then [] else points[index + 1..] + points[..index]
  }

  /** The rotation drops exactly the element at the index and keeps the rest. */
  lemma RotateDropsIndex(points: seq<Vector2d>, index: nat)
    requires index < |points|
    ensures |Rotate(points, index)| == |points| - 1
    ensures multiset(Rotate(points, index)) + multiset{points[index]} == multiset(points)
  {
    assert points == points[..index] + [points[index]] + points[index + 1..];
  }

  /** One scan step: pop the top when last-lastlast and next-last do not turn
      clockwise (cross product `>= 0`), then push the next point. */
  function ScanStep(hull: seq<Vector2d>, next: Vector2d): (r: seq<Vector2d>)
    requires |hull| >= 2
    ensures |r| == |hull| || |r| == |hull| + 1
    ensures r[..|r| - 1] == hull[..|r| - 1] && r[|r| - 1] == next
    ensures (|r| == |hull|) <==>
      Cross(Sub(hull[|hull| - 1], hull[|hull| - 2]), Sub(next, hull[|hull| - 1])) >= 0.0
  {
    var last := hull[|hull| - 1];
    var popped := if Cross(Sub(last, hull[|hull| - 2]), Sub(next, last)) >= 0.0 then hull[..|hull| - 1] else hull;
    popped + [next]
  }

  /** The loop of lines 26-39 from step `i` of `count`: `hull[-2]` raises on a
      stack of fewer than two points, and `points[i]` on an index past the end. */
  function Scan(hull: seq<Vector2d>, points: seq<Vector2d>, i: nat, count: nat): Result<seq<Vector2d>>
    decreases count - i
  {
    if count <= i then Ok(hull)
    else if |hull| < 2 then Err(IndexError(ListIndexOutOfRange))
    else if |points| <= i then Err(IndexError(ListIndexOutOfRange))
    else Scan(ScanStep(hull, points[i]), points, i + 1, count)
  }

  /** The scan loop over a stack list, with `del hull[-1]` and `append`. */
  method ScanLoop(start: seq<Vector2d>, points: seq<Vector2d>, count: nat) returns (r: Result<seq<Vector2d>>)
    ensures r == Scan(start, points, 0, count)
  {
    var hull := start;
    for i := 0 to count
      invariant Scan(hull, points, i, count) == Scan(start, points, 0, count)
    {
      if |hull| < 2 || |points| <= i {
        return Err(IndexError(ListIndexOutOfRange));
      }
      var lastLast := hull[|hull| - 2];
      var last := hull[|hull| - 1];
      var next := points[i];
      if Cross(Sub(last, lastLast), Sub(next, last)) >= 0.0 {
        hull := hull[..|hull| - 1];
      }
      hull := hull + [next];
    }
    r := Ok(hull);
  }

  /** The first step on the one-point stack `[lower_point]` reads `[-2]` and raises. */
  lemma ScanFromPivotRaises(pivot: Vector2d, points: seq<Vector2d>, count: nat)
    requires 0 < count
    ensures Scan([pivot], points, 0, count) == Err(IndexError(ListIndexOutOfRange))
  {
  }

  /** From a stack of at least two points with enough points left, the scan
      succeeds, keeps the stack's bottom point, never shrinks below two points and
      grows by at most one point per step; every point on it came from the start
      stack or the scanned points. */
  lemma {:induction false} ScanKeepsBottom(hull: seq<Vector2d>, points: seq<Vector2d>, i: nat, count: nat)
    requires |hull| >= 2 && count <= |points|
    ensures var r := Scan(hull, points, i, count);
      r.Ok? && |r.value| >= 2 && r.value[0] == hull[0] &&
      |r.value| <= |hull| + (if i <= count then count - i else 0) &&
      forall p :: p in r.value ==> p in hull || p in points
    decreases count - i
  {
    if i < count {
      var next := ScanStep(hull, points[i]);
      assert forall p :: p in next ==> p in hull || p == points[i] by {
        forall p | p in next ensures p in hull || p == points[i] {
          var k :| 0 <= k < |next| && next[k] == p;
          if k < |next| - 1 {
            assert next[k] == hull[k];
          }
        }
      }
      ScanKeepsBottom(next, points, i + 1, count);
    }
  }

  /** Lines 14-41 applied to whatever sorted list they are given: rotate the
      pivot to the front, scan from the stack `[pivot]` for `len(points)` steps,
      then build a `ConvexPolygon`. */
  function HullFromSorted(sorted: seq<Vector2d>, pivot: Vector2d): (r: Result<Polygons.Polygon>)
    ensures |sorted| > 0 ==> r == Err(IndexError(ListIndexOutOfRange))
  {
    var index := LastMatch(sorted, pivot);
    var hull :- Scan([pivot], Rotate(sorted, index), 0, |sorted|);
    Polygons.MakeConvexPolygon(hull)
  }

  /** An empty sorted list leaves the one-point stack, which `ConvexPolygon` refuses
      for having fewer than three points. */
  lemma HullFromEmptySorted(pivot: Vector2d)
    ensures HullFromSorted([], pivot) == Polygons.MakeConvexPolygon([pivot])
    ensures HullFromSorted([], pivot).Err?
  {
    assert Scan([pivot], Rotate([], 0), 0, 0) == Ok([pivot]);
  }

  /** `create_convex_hull`: the pivot search raises on an empty collection and the
      sort raises on every other. */
  function CreateConvexHull(points: seq<Vector2d>): (r: Result<Polygons.Polygon>)
    ensures |points| == 0 ==> r == Err(IndexError(ListIndexOutOfRange))
    ensures |points| > 0 ==> r == Err(TypeError(FloatLenMessage))
  {
    var pivot :- LowerPoint(points);
    match SortClockwise(points, Some(pivot))
    case Err(e) => Err(e)
    // not reached: the sort refuses a given pivot
    case Ok(sorted) => HullFromSorted(sorted, pivot)
  }
}
