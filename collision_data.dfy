/** `CollisionData` of core/math/geometry/collision_detection/collision_data.py: the
    intersection points found between two objects and the penetration depth, which
    is None when it cannot be had (a ray has no length). */
module Collisions {
  import opened Wrappers
  import opened RealMath
  import opened Vectors

  /** The value a `CollisionData` holds. The point list is itself optional: the
      line-circle routine stores whatever the intersection-point builder returned,
      None included. */
  datatype Data = Data(points: Option<seq<Vector2d>>, depth: Option<real>)

  /** `CollisionData(points, depth)` for a routine that found a list of points. */
  function WithList(points: seq<Vector2d>, depth: Option<real>): (d: Data)
    ensures d.points == Some(points) && d.depth == depth
  {
    Data(Some(points), depth)
  }

  /** The name CPython prints for a value of this type. */
  function TypeName(x: Option<real>): string {
    if x.None? then "NoneType" else "float"
  }

  /** The TypeError `max(current, new)` raises when one of them is None: CPython
      compares the new value with the current one. */
  function MaxTypeError(current: Option<real>, incoming: Option<real>): Error {
    TypeError("'>' not supported between instances of '" + TypeName(incoming) + "' and '" +
      TypeName(current) + "'")
  }

  /** `set_max_penetration_depth` on a value: the larger of the two depths, an error
      when either is None, and the points as they were. */
  function WithMaxDepth(d: Data, penetration: Option<real>): (r: Result<Data>)
    ensures r.Err? <==> d.depth.None? || penetration.None?
    ensures r.Err? ==> r.error == MaxTypeError(d.depth, penetration)
    ensures r.Ok? ==> (r.value.points == d.points && r.value.depth.Some? &&
      d.depth.value <= r.value.depth.value && penetration.value <= r.value.depth.value &&
      (r.value.depth.value == d.depth.value || r.value.depth.value == penetration.value))
  {
    if d.depth.None? || penetration.None? then Err(MaxTypeError(d.depth, penetration))
    else Ok(Data(d.points, Some(Max(d.depth.value, penetration.value))))
  }

  /** `add_points_of_intersection` on a value: `list.extend`, which needs a list to
      extend and an iterable to extend it with. */
  function WithPoints(d: Data, points: Option<seq<Vector2d>>): (r: Result<Data>)
    ensures r.Err? <==> d.points.None? || points.None?
    ensures d.points.None? ==> r == Err(AttributeError("'NoneType' object has no attribute 'extend'"))
    ensures d.points.Some? && points.None? ==> r == Err(TypeError("'NoneType' object is not iterable"))
    ensures r.Ok? ==> (r.value.depth == d.depth && r.value.points.Some? &&
      |r.value.points.value| == |d.points.value| + |points.value| &&
      r.value.points.value[..|d.points.value|] == d.points.value &&
      r.value.points.value[|d.points.value|..] == points.value)
  {
    if d.points.None? then Err(AttributeError("'NoneType' object has no attribute 'extend'"))
    else if points.None? then Err(TypeError("'NoneType' object is not iterable"))
    else Ok(Data(Some(d.points.value + points.value), d.depth))
  }

  // ----- properties -----

  /** Raising the depth to the same value twice changes nothing the second time. */
  lemma WithMaxDepthIdempotent(d: Data, penetration: Option<real>)
    requires WithMaxDepth(d, penetration).Ok?
    ensures WithMaxDepth(WithMaxDepth(d, penetration).value, penetration) == WithMaxDepth(d, penetration)
  {
  }

  /** The order in which depths arrive does not matter. */
  lemma WithMaxDepthCommutes(d: Data, p: real, q: real)
    requires d.depth.Some?
    ensures WithMaxDepth(WithMaxDepth(d, Some(p)).value, Some(q)) ==
      WithMaxDepth(WithMaxDepth(d, Some(q)).value, Some(p))
  {
  }

  /** Extending twice is extending once with the concatenation. */
  lemma WithPointsAssociative(d: Data, a: seq<Vector2d>, b: seq<Vector2d>)
    requires d.points.Some?
    ensures WithPoints(WithPoints(d, Some(a)).value, Some(b)) == WithPoints(d, Some(a + b))
  {
    assert d.points.value + a + b == d.points.value + (a + b);
  }

  // ----- the mutable object -----

  /** The object the accumulating routines update in place. */
  class CollisionData {
    var intersectionPoints: Option<seq<Vector2d>>
    var penetrationDepth: Option<real>

    /** `CollisionData(intersection_points, penetration_depth)`. */
    constructor (points: Option<seq<Vector2d>>, depth: Option<real>)
      ensures Value() == Data(points, depth)
    {
      intersectionPoints := points;
      penetrationDepth := depth;
    }

    function Value(): Data
      reads this
    {
      Data(intersectionPoints, penetrationDepth)
    }

    /** `set_max_penetration_depth`: on success the depth becomes the larger one; when
        `max` raises, nothing changes. */
    method SetMaxPenetrationDepth(penetration: Option<real>) returns (r: Result<bool>)
      modifies this
      ensures r.Err? <==> WithMaxDepth(old(Value()), penetration).Err?
      ensures r.Err? ==> r.error == WithMaxDepth(old(Value()), penetration).error && Value() == old(Value())
      ensures r.Ok? ==> Value() == WithMaxDepth(old(Value()), penetration).value
    {
      var next := WithMaxDepth(Value(), penetration);
      if next.Err? {
        return Err(next.error);
      }
      penetrationDepth := Some(Max(penetrationDepth.value, penetration.value));
      r := Ok(true);
    }

    /** `add_points_of_intersection`: the new points go after the existing ones. */
    method AddPointsOfIntersection(points: Option<seq<Vector2d>>) returns (r: Result<bool>)
      modifies this
      ensures r.Err? <==> WithPoints(old(Value()), points).Err?
      ensures r.Err? ==> r.error == WithPoints(old(Value()), points).error && Value() == old(Value())
      ensures r.Ok? ==> Value() == WithPoints(old(Value()), points).value
    {
      var next := WithPoints(Value(), points);
      if next.Err? {
        return Err(next.error);
      }
      intersectionPoints := Some(intersectionPoints.value + points.value);
      r := Ok(true);
    }
  }
}
