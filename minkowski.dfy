/** `polygons_difference` of
    core/math/geometry/collision_detection/polygons/minkowski_difference_of_polygons.py:
    the Minkowski difference of two point lists, every a - b collected in a set.
    As written it cannot succeed on two non-empty lists: `Vector2d` defines
    `__eq__` but no `__hash__`, so its instances are unhashable and the first
    `set.add` raises. */
module Minkowski {
  import opened Wrappers
  import opened Vectors

  const UnhashableMessage := "unhashable type: 'Vector2d'"

  // ----- as written -----

  /** What the code returns: an empty set when a loop body never runs, and the
      TypeError of the first `add` otherwise. */
  function DifferenceAsWritten(first: seq<Vector2d>, second: seq<Vector2d>): (r: Result<set<Vector2d>>)
    ensures r.Err? <==> |first| > 0 && |second| > 0
    ensures r.Err? ==> r.error == TypeError(UnhashableMessage)
    ensures r.Ok? ==> r.value == {}
  {
    if |first| > 0 && |second| > 0 then Err(TypeError(UnhashableMessage)) else Ok({})
  }

  /** The nested loops as written; adding a `Vector2d` to a set raises. */
  method PolygonsDifferenceAsWritten(first: seq<Vector2d>, second: seq<Vector2d>) returns (r: Result<set<Vector2d>>)
    ensures r == DifferenceAsWritten(first, second)
  {
    var newPoints: set<Vector2d> := {};
    for i := 0 to |first|
      invariant newPoints == {}
      invariant 0 < i ==> |second| == 0
    {
      for j := 0 to |second|
        invariant j == 0
      {
        // hash(first[i] - second[j]) raises before the element is added
        return Err(TypeError(UnhashableMessage));
      }
    }
    r := Ok(newPoints);
  }

  /** Two one-point lists already raise. */
  lemma DifferenceAsWrittenCounterexample()
    ensures DifferenceAsWritten([Vector2d(1.0, 1.0)], [Vector2d(0.0, 0.0)]).Err?
    ensures Differences([Vector2d(1.0, 1.0)], [Vector2d(0.0, 0.0)]) == {Vector2d(1.0, 1.0)}
  {
    var a, b := Vector2d(1.0, 1.0), Vector2d(0.0, 0.0);
    RealMath.OnGridInt(1);
    RealMath.OnGridInt(0);
    assert Sub(a, b) == Vector2d(1.0, 1.0);
    assert Sub(a, b) in Differences([a], [b]);
  }

  // ----- as intended: the set of differences -----

  /** Every first - second, as a set. */
  function Differences(first: seq<Vector2d>, second: seq<Vector2d>): set<Vector2d> {
    set a, b | a in first && b in second :: Sub(a, b)
  }

  /** The differences of one point of the first list with the second list. */
  function Row(a: Vector2d, second: seq<Vector2d>): set<Vector2d> {
    set b | b in second :: Sub(a, b)
  }

  /** The nested loops with a set of points that can be hashed. */
  method PolygonsDifference(first: seq<Vector2d>, second: seq<Vector2d>) returns (r: set<Vector2d>)
    ensures r == Differences(first, second)
    ensures forall a, b :: a in first && b in second ==> Sub(a, b) in r
    ensures forall d :: d in r ==> exists a, b :: a in first && b in second && d == Sub(a, b)
    ensures |r| <= |first| * |second|
  {
    r := {};
    for i := 0 to |first|
      invariant r == Differences(first[..i], second)
    {
      for j := 0 to |second|
        invariant r == Differences(first[..i], second) + Row(first[i], second[..j])
      {
        assert second[..j + 1] == second[..j] + [second[j]];
        r := r + {Sub(first[i], second[j])};
      }
      assert second[..|second|] == second;
      assert first[..i + 1] == first[..i] + [first[i]];
      DifferencesSnoc(first[..i], first[i], second);
    }
    assert first[..|first|] == first;
    DifferencesBound(first, second);
  }

  /** Appending a point to the first list adds its row. */
  lemma DifferencesSnoc(first: seq<Vector2d>, a: Vector2d, second: seq<Vector2d>)
    ensures Differences(first + [a], second) == Differences(first, second) + Row(a, second)
  {
    forall d | d in Differences(first + [a], second)
      ensures d in Differences(first, second) + Row(a, second)
    {
      var x, y :| x in first + [a] && y in second && d == Sub(x, y);
      if x != a {
        assert x in first;
      }
    }
  }

  /** A row holds at most one point per member of the second list. */
  lemma {:induction false} RowBound(a: Vector2d, second: seq<Vector2d>)
    ensures |Row(a, second)| <= |second|
  {
    if |second| > 0 {
      var rest := second[..|second| - 1];
      var b := second[|second| - 1];
      assert second == rest + [b];
      assert Row(a, second) == Row(a, rest) + {Sub(a, b)};
      RowBound(a, rest);
    }
  }

  /** At most |first| * |second| differences. */
  lemma {:induction false} DifferencesBound(first: seq<Vector2d>, second: seq<Vector2d>)
    ensures |Differences(first, second)| <= |first| * |second|
  {
    if |first| == 0 {
      assert Differences(first, second) == {};
    } else {
      var rest := first[..|first| - 1];
      var a := first[|first| - 1];
      assert first == rest + [a];
      var previous, row := Differences(rest, second), Row(a, second);
      DifferencesSnoc(rest, a, second);
      assert Differences(first, second) == previous + row;
      DifferencesBound(rest, second);
      RowBound(a, second);
      assert |previous + row| <= |previous| + |row|;
      ProductStep(|rest|, |second|);
    }
  }

  lemma ProductStep(n: nat, m: nat)
    ensures (n + 1) * m == n * m + m
  {
  }
}
