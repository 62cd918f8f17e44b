/** Line-family primitives against polygons, from
    core/math/geometry/collision_detection/line_polygon/: a bounding-box filter picks the
    sides that may be crossed (probable_inter_sides.py), a segment-first routine of the
    line-line module is run on each of them, and the results are accumulated
    (line_polygon_collision_detection.py), decided (is_line_polygon_intersect.py) or
    measured (line_polygon_distance.py).

    Each routine family is named by the `PrimKind` of the probe: a line uses the line
    filter and `get_inter_data_segment_line`, a ray the ray filter and
    `get_inter_data_segment_ray`, a segment the segment filter and
    `get_inter_data_segment_segment`. */
module LinePolygon {
  import opened Wrappers
  import opened RealMath
  import opened Vectors
  import opened Primitives
  import opened Collisions
  import opened Lines
  import Polygons

  // ----- probable_inter_sides -----

  predicate InBand(v: real, lower: real, upper: real) {
    lower <= v <= upper
  }

  /** Some end point of the side has its x coordinate in [left, right]. */
  predicate XInBand(side: Prim, left: real, right: real) {
    InBand(side.first.x, left, right) || InBand(side.second.x, left, right)
  }

  /** Some end point of the side has its y coordinate in [lower, upper]. */
  predicate YInBand(side: Prim, lower: real, upper: real) {
    InBand(side.first.y, lower, upper) || InBand(side.second.y, lower, upper)
  }

  /** The test of `get_probable_intersect_sides_line`: a horizontal line keeps the
      sides with an end point between its two y values, a vertical one the sides with
      an end point between its two x values, and any other line keeps nothing. */
  predicate LineKeeps(line: Prim, side: Prim) {
    if IsHorizontal(line) then
      YInBand(side, Min(line.first.y, line.second.y), Max(line.first.y, line.second.y))
    else if IsVertical(line) then
      XInBand(side, Min(line.first.x, line.second.x), Max(line.first.x, line.second.x))
    else false
  }

  /** The test of `get_probable_intersect_sides_segment`: some end x of the side in
      the segment's x range and some end y in its y range (not necessarily of the same
      end point). */
  predicate SegmentKeeps(segment: Prim, side: Prim) {
    XInBand(side, Min(segment.first.x, segment.second.x), Max(segment.first.x, segment.second.x)) &&
    YInBand(side, Min(segment.first.y, segment.second.y), Max(segment.first.y, segment.second.y))
  }

  /** The side test of the line and the segment filter. */
  predicate Keeps(kind: PrimKind, probe: Prim, side: Prim)
    requires kind != RayKind
  {
    if kind == LineKind then LineKeeps(probe, side) else SegmentKeeps(probe, side)
  }

  /** `r` is `s` with some elements left out and the rest in their order. */
  predicate Subsequence(r: seq<Prim>, s: seq<Prim>)
    decreases |s|
  {
    if |r| == 0 then true
    else if |s| == 0 then false
    else
      (r[|r| - 1] == s[|s| - 1] && Subsequence(r[..|r| - 1], s[..|s| - 1])) ||
      Subsequence(r, s[..|s| - 1])
  }

  /** The sides a filter keeps, in the order of the polygon's sides. */
  function Kept(kind: PrimKind, probe: Prim, sides: seq<Prim>): (r: seq<Prim>)
    requires kind != RayKind
    ensures Subsequence(r, sides)
    ensures forall side :: side in r ==> side in sides && Keeps(kind, probe, side)
    ensures forall side :: side in sides && Keeps(kind, probe, side) ==> side in r
  {
    if |sides| == 0 then []
    else
      var rest := Kept(kind, probe, sides[..|sides| - 1]);
      var last := sides[|sides| - 1];
      assert sides == sides[..|sides| - 1] + [last];
      if Keeps(kind, probe, last) then
        assert (rest + [last])[..|rest + [last]| - 1] == rest;
        rest + [last]
      else rest
  }

  /** A subsequence is no longer than the sequence it is taken from. */
  lemma {:induction false} SubsequenceShorter(r: seq<Prim>, s: seq<Prim>)
    requires Subsequence(r, s)
    ensures |r| <= |s|
    decreases |s|
  {
    if |r| > 0 {
      if r[|r| - 1] == s[|s| - 1] && Subsequence(r[..|r| - 1], s[..|s| - 1]) {
        SubsequenceShorter(r[..|r| - 1], s[..|s| - 1]);
      } else {
        SubsequenceShorter(r, s[..|s| - 1]);
      }
    }
  }

  /** A line that is neither horizontal nor vertical gets no probable sides at all. */
  lemma LineFilterOblique(line: Prim, sides: seq<Prim>)
    requires !IsHorizontal(line) && !IsVertical(line)
    ensures Kept(LineKind, line, sides) == []
  {
  }

  /** The band of a horizontal line is the single value of its y: only sides with an
      end point exactly at that height are kept. */
  lemma LineFilterHorizontal(line: Prim, side: Prim)
    requires IsHorizontal(line)
    ensures LineKeeps(line, side) <==> side.first.y == line.first.y || side.second.y == line.first.y
  {
  }

  const CrossingSide := Primitive(SegmentKind, Vector2d(-1.0, 3.0), Vector2d(3.0, -1.0))

  /** The segment filter can drop a side the segment crosses: the side from (-1, 3)
      to (3, -1) meets the segment from (0, 0) to (2, 2) at (1, 1), but neither of its
      end points has x within [0, 2]. */
  lemma SegmentFilterDropsCrossingSide(side: Prim, segment: Prim, sqrt: SqrtFn)
    requires side == CrossingSide && segment == DiagonalUp
    ensures SegmentSegmentData(side, segment, sqrt).Some?
    ensures SegmentSegmentData(side, segment, sqrt).value.points == Some([Vector2d(1.0, 1.0)])
    ensures Kept(SegmentKind, segment, [side]) == []
  {
    assert Denominator(side, segment) == 16.0 && TNumerator(side, segment) == 8.0;
    assert UNumerator(side, segment) == -8.0;
    assert PenetrCoeff(side, segment) == Some(Coeff(0.5, 0.5));
    assert PointAt(side, 0.5) == Vector2d(1.0, 1.0);
    OnGridInt(1);
    assert !SegmentKeeps(segment, side);
  }

  /** The TypeError `ray_direction.scale()` raises: the scalar is missing. */
  const ScaleMessage := "scale() missing 1 required positional argument: 'scalar'"

  /** `get_probable_intersect_sides_ray` raises before it looks at any side. */
  function ProbableSidesRay(sides: seq<Prim>, ray: Prim): (r: Result<seq<Prim>>)
    ensures r.Err? && r.error == TypeError(ScaleMessage)
  {
    Err(TypeError(ScaleMessage))
  }

  /** The filter of a routine family. */
  function ProbableSides(kind: PrimKind, sides: seq<Prim>, probe: Prim): Result<seq<Prim>> {
    if kind == RayKind then ProbableSidesRay(sides, probe) else Ok(Kept(kind, probe, sides))
  }

  /** `get_probable_intersect_sides_line`. */
  method GetProbableSidesLine(sides: seq<Prim>, line: Prim) returns (r: seq<Prim>)
    ensures r == Kept(LineKind, line, sides)
  {
    r := [];
    if IsHorizontal(line) {
      var upper := Max(line.first.y, line.second.y);
      var lower := Min(line.first.y, line.second.y);
      for i := 0 to |sides|
        invariant r == Kept(LineKind, line, sides[..i])
      {
        if lower <= sides[i].first.y <= upper || lower <= sides[i].second.y <= upper {
          r := r + [sides[i]];
        }
        assert sides[..i + 1][..i] == sides[..i];
      }
      assert sides[..|sides|] == sides;
    } else if IsVertical(line) {
      var left := Min(line.first.x, line.second.x);
      var right := Max(line.first.x, line.second.x);
      for i := 0 to |sides|
        invariant r == Kept(LineKind, line, sides[..i])
      {
        if left <= sides[i].first.x <= right || left <= sides[i].second.x <= right {
          r := r + [sides[i]];
        }
        assert sides[..i + 1][..i] == sides[..i];
      }
      assert sides[..|sides|] == sides;
    } else {
      LineFilterOblique(line, sides);
    }
  }

  /** `get_probable_intersect_sides_segment`. */
  method GetProbableSidesSegment(sides: seq<Prim>, segment: Prim) returns (r: seq<Prim>)
    ensures r == Kept(SegmentKind, segment, sides)
  {
    r := [];
    var left := Min(segment.first.x, segment.second.x);
    var right := Max(segment.first.x, segment.second.x);
    var upper := Max(segment.first.y, segment.second.y);
    var lower := Min(segment.first.y, segment.second.y);
    for i := 0 to |sides|
      invariant r == Kept(SegmentKind, segment, sides[..i])
    {
      if left <= sides[i].first.x <= right || left <= sides[i].second.x <= right {
        if lower <= sides[i].first.y <= upper || lower <= sides[i].second.y <= upper {
          r := r + [sides[i]];
        }
      }
      assert sides[..i + 1][..i] == sides[..i];
    }
    assert sides[..|sides|] == sides;
  }

  // ----- get_inter_data_poly -----

  /** The segment-first routine of a family, run on one side. */
  function SideData(kind: PrimKind, side: Prim, probe: Prim, sqrt: SqrtFn): (r: Option<Data>)
    ensures r.Some? ==> r.value.points.Some? && |r.value.points.value| == 1 && r.value.depth.Some?
  {
    match kind
    case LineKind => SegmentLineData(side, probe, sqrt)
    case RayKind => SegmentRayData(side, probe, sqrt)
    case SegmentKind => SegmentSegmentData(side, probe, sqrt)
  }

  /** Every datum a segment-first routine returns has a list of points and a depth. */
  predicate WellFormed(hits: seq<Option<Data>>) {
    forall i :: 0 <= i < |hits| && hits[i].Some? ==>
      hits[i].value.points.Some? && 0 < |hits[i].value.points.value| && hits[i].value.depth.Some?
  }

  /** Dropping the first side keeps the data well formed. */
  lemma WellFormedTail(hits: seq<Option<Data>>)
    requires |hits| > 0 && WellFormed(hits)
    ensures WellFormed(hits[1..])
    ensures NoHit(hits) <==> hits[0].None? && NoHit(hits[1..])
  {
    assert forall i :: 1 <= i < |hits| ==> hits[i] == hits[1..][i - 1];
  }

  /** No side has data. */
  predicate NoHit(hits: seq<Option<Data>>) {
    forall i :: 0 <= i < |hits| ==> hits[i].None?
  }

  /** The data of each side, in side order. */
  function SideDatas(kind: PrimKind, sides: seq<Prim>, probe: Prim, sqrt: SqrtFn): (r: seq<Option<Data>>)
    ensures |r| == |sides|
    ensures forall i :: 0 <= i < |sides| ==> r[i] == SideData(kind, sides[i], probe, sqrt)
    ensures WellFormed(r)
  {
    seq(|sides|, i requires 0 <= i < |sides| => SideData(kind, sides[i], probe, sqrt))
  }

  /** The loop of `get_inter_data_poly` from a given accumulator: for every side with
      data, extend the points, then raise the depth. */
  function GatherAsWritten(acc: Data, hits: seq<Option<Data>>): (r: Result<Data>)
    ensures acc.points.Some? && r.Ok? ==> r.value.points.Some?
    decreases |hits|
  {
    if |hits| == 0 then Ok(acc)
    else
      match hits[0]
      case None => GatherAsWritten(acc, hits[1..])
      case Some(d) =>
        var extended :- WithPoints(acc, d.points);
        var deeper :- WithMaxDepth(extended, d.depth);
        GatherAsWritten(deeper, hits[1..])
  }

  /** The accumulator `get_inter_data_poly` starts with: `CollisionData([], None)`. */
  const EmptyData := Data(Some([]), None)

  /** `get_inter_data_poly` as written: the filter, the loop from an empty list and a
      None depth, then None when no point was collected. */
  function InterDataPolyAsWritten(kind: PrimKind, sides: seq<Prim>, probe: Prim, sqrt: SqrtFn): Result<Option<Data>> {
    var candidates :- ProbableSides(kind, sides, probe);
    var gathered :- GatherAsWritten(EmptyData, SideDatas(kind, candidates, probe, sqrt));
    if |gathered.points.value| > 0 then Ok(Some(gathered)) else Ok(None)
  }

  /** `get_inter_data_poly`, with the `CollisionData` object the source updates. */
  method GetInterDataPoly(kind: PrimKind, sides: seq<Prim>, probe: Prim, sqrt: SqrtFn) returns (r: Result<Option<Data>>)
    ensures r == InterDataPolyAsWritten(kind, sides, probe, sqrt)
  {
    var candidates: seq<Prim>;
    if kind == LineKind {
      candidates := GetProbableSidesLine(sides, probe);
    } else if kind == SegmentKind {
      candidates := GetProbableSidesSegment(sides, probe);
    } else {
      return ProbableSidesRay(sides, probe).PropagateFailure();
    }
    ghost var hits := SideDatas(kind, candidates, probe, sqrt);
    var result := new CollisionData(Some([]), None);
    var i := 0;
    while i < |candidates|
      invariant 0 <= i <= |candidates|
      invariant result.intersectionPoints.Some?
      invariant GatherAsWritten(result.Value(), hits[i..]) == GatherAsWritten(EmptyData, hits)
    {
      var interData := SideData(kind, candidates[i], probe, sqrt);
      assert hits[i..][0] == interData;
      assert hits[i..][1..] == hits[i + 1..];
      if interData.Some? {
        var added := result.AddPointsOfIntersection(interData.value.points);
        var raised := result.SetMaxPenetrationDepth(interData.value.depth);
        if raised.Err? {
          return Err(raised.error);
        }
      }
      i := i + 1;
    }
    if |result.intersectionPoints.value| > 0 {
      r := Ok(Some(result.Value()));
    } else {
      r := Ok(None);
    }
  }

  /** The message of the TypeError the first hit raises: `max` compares the side's
      float depth with the None start. */
  const FloatNoneMessage := "'>' not supported between instances of '" + "float" + "' and '" + "NoneType" + "'"

  /** From an accumulator without a depth, the loop either meets no data and leaves
      the accumulator as it was, or raises at the first side with data. */
  lemma {:induction false} GatherFromNoDepth(acc: Data, hits: seq<Option<Data>>)
    requires acc.points.Some? && acc.depth.None? && WellFormed(hits)
    ensures NoHit(hits) ==> GatherAsWritten(acc, hits) == Ok(acc)
    ensures !NoHit(hits) ==> GatherAsWritten(acc, hits) == Err(TypeError(FloatNoneMessage))
    decreases |hits|
  {
    if |hits| > 0 {
      WellFormedTail(hits);
      match hits[0]
      case None =>
        GatherFromNoDepth(acc, hits[1..]);
      case Some(d) =>
        assert d.points.Some? && d.depth.Some?;
        var extended := Data(Some(acc.points.value + d.points.value), None);
        assert WithPoints(acc, d.points) == Ok(extended);
        FloatNoneError(d.depth.value);
        assert WithMaxDepth(extended, d.depth) == Err(TypeError(FloatNoneMessage));
        assert !NoHit(hits);
    }
  }

  /** `max(None, depth)` with a float depth raises the TypeError above. */
  lemma FloatNoneError(depth: real)
    ensures MaxTypeError(None, Some(depth)) == TypeError(FloatNoneMessage)
  {
    assert TypeName(Some(depth)) == "float" && TypeName(None) == "NoneType";
  }

  /** As written, `get_inter_data_poly` never returns data: the ray family raises in
      its filter, and the others return None when no probable side has data and raise
      the `max` TypeError at the first one that does. */
  lemma InterDataPolyAsWrittenOutcome(kind: PrimKind, sides: seq<Prim>, probe: Prim, sqrt: SqrtFn)
    ensures var r := InterDataPolyAsWritten(kind, sides, probe, sqrt);
      r != Ok(None) ==> r.Err?
    ensures kind == RayKind ==> InterDataPolyAsWritten(kind, sides, probe, sqrt) == Err(TypeError(ScaleMessage))
    ensures kind != RayKind ==> var hits := SideDatas(kind, Kept(kind, probe, sides), probe, sqrt);
      (InterDataPolyAsWritten(kind, sides, probe, sqrt) == Ok(None) <==> NoHit(hits)) &&
      (!NoHit(hits) ==> InterDataPolyAsWritten(kind, sides, probe, sqrt) == Err(TypeError(FloatNoneMessage)))
  {
    if kind != RayKind {
      GatherFromNoDepth(EmptyData, SideDatas(kind, Kept(kind, probe, sides), probe, sqrt));
    }
  }

  /** An empty depth is no depth yet; otherwise the larger one. */
  function MaxDepth(a: Option<real>, b: Option<real>): (r: Option<real>)
    ensures r.None? <==> a.None? && b.None?
    ensures a.Some? ==> a.value <= r.value
    ensures b.Some? ==> b.value <= r.value
    ensures r.Some? ==> r == a || r == b
  {
    if a.None? then b else if b.None? then a else Some(Max(a.value, b.value))
  }

  /** The evidently intended accumulation: the points of every side with data, in side
      order, and the largest of their depths, None when no side has data. */
  function Merged(hits: seq<Option<Data>>): (r: Data)
    requires WellFormed(hits)
    ensures r.points.Some?
    ensures |r.points.value| == 0 <==> NoHit(hits)
    ensures r.depth.None? <==> NoHit(hits)
    ensures forall i :: 0 <= i < |hits| && hits[i].Some? ==> hits[i].value.depth.value <= r.depth.value
    decreases |hits|
  {
    if |hits| == 0 then EmptyData
    else
      WellFormedTail(hits);
      var rest := Merged(hits[1..]);
      assert forall i :: 1 <= i < |hits| ==> hits[i] == hits[1..][i - 1];
      match hits[0]
      case None => rest
      case Some(d) => Data(Some(d.points.value + rest.points.value), MaxDepth(d.depth, rest.depth))
  }

  /** The source's loop is right but for its start: from an accumulator that already
      has a depth it computes exactly the intended accumulation after the accumulator's
      own points and depth. */
  lemma {:induction false} GatherWithDepthIsMerged(acc: Data, hits: seq<Option<Data>>)
    requires acc.points.Some? && acc.depth.Some? && WellFormed(hits)
    ensures var m := Merged(hits);
      GatherAsWritten(acc, hits) == Ok(Data(Some(acc.points.value + m.points.value), MaxDepth(acc.depth, m.depth)))
    decreases |hits|
  {
    if |hits| > 0 {
      WellFormedTail(hits);
      var rest := Merged(hits[1..]);
      match hits[0]
      case None =>
        assert GatherAsWritten(acc, hits) == GatherAsWritten(acc, hits[1..]);
        assert Merged(hits) == rest;
        GatherWithDepthIsMerged(acc, hits[1..]);
      case Some(d) =>
        assert d.points.Some? && d.depth.Some?;
        var next := Data(Some(acc.points.value + d.points.value), Some(Max(acc.depth.value, d.depth.value)));
        assert WithPoints(acc, d.points) == Ok(Data(Some(acc.points.value + d.points.value), acc.depth));
        assert GatherAsWritten(acc, hits) == GatherAsWritten(next, hits[1..]);
        GatherWithDepthIsMerged(next, hits[1..]);
        assert Merged(hits) == Data(Some(d.points.value + rest.points.value), MaxDepth(d.depth, rest.depth));
        assert acc.points.value + d.points.value + rest.points.value ==
          acc.points.value + (d.points.value + rest.points.value);
        assert MaxDepth(next.depth, rest.depth) == MaxDepth(acc.depth, MaxDepth(d.depth, rest.depth));
    } else {
      assert acc.points.value + [] == acc.points.value;
    }
  }

  /** `get_inter_data_poly` with the accumulation corrected: None exactly when no
      probable side has data, otherwise every point found and the deepest depth. */
  function InterDataPoly(kind: PrimKind, sides: seq<Prim>, probe: Prim, sqrt: SqrtFn): (r: Result<Option<Data>>)
    ensures r.Err? <==> kind == RayKind
    ensures r.Err? ==> r.error == TypeError(ScaleMessage)
    ensures r.Ok? ==> var hits := SideDatas(kind, Kept(kind, probe, sides), probe, sqrt);
      (r.value.None? <==> NoHit(hits)) && (r.value.Some? ==> r.value.value == Merged(hits))
  {
    var candidates :- ProbableSides(kind, sides, probe);
    var merged := Merged(SideDatas(kind, candidates, probe, sqrt));
    if |merged.points.value| > 0 then Ok(Some(merged)) else Ok(None)
  }

  /** The polygon and segment of the finding: the side from (0, 0) to (2, 2) is
      crossed in its middle by the segment from (0, 2) to (2, 0). As written the routine
      raises; the corrected one reports the crossing point. */
  lemma InterDataPolyAsWrittenCounterexample(sides: seq<Prim>, probe: Prim, sqrt: SqrtFn)
    requires sides == [DiagonalUp] && probe == DiagonalDown
    ensures InterDataPolyAsWritten(SegmentKind, sides, probe, sqrt) == Err(TypeError(FloatNoneMessage))
    ensures InterDataPoly(SegmentKind, sides, probe, sqrt).Ok?
    ensures InterDataPoly(SegmentKind, sides, probe, sqrt).value.Some?
    ensures InterDataPoly(SegmentKind, sides, probe, sqrt).value.value.points == Some([Vector2d(1.0, 1.0)])
  {
    assert SegmentKeeps(probe, sides[0]);
    assert Kept(SegmentKind, probe, sides) == sides;
    DiagonalHits(sides, probe, sqrt);
    InterDataPolyAsWrittenOutcome(SegmentKind, sides, probe, sqrt);
  }

  /** The one side of the finding has data: the crossing point (1, 1). */
  lemma DiagonalHits(sides: seq<Prim>, probe: Prim, sqrt: SqrtFn)
    requires sides == [DiagonalUp] && probe == DiagonalDown
    ensures var hits := SideDatas(SegmentKind, sides, probe, sqrt);
      !NoHit(hits) && Merged(hits).points == Some([Vector2d(1.0, 1.0)])
  {
    CrossingSegmentsTestFalse(sides[0], probe, sqrt);
    var hits := SideDatas(SegmentKind, sides, probe, sqrt);
    var d := hits[0].value;
    assert d.points == Some([Vector2d(1.0, 1.0)]);
    assert hits[1..] == [];
    assert Merged(hits[1..]) == EmptyData;
    assert Merged(hits).points == Some(d.points.value + []);
    assert d.points.value + [] == [Vector2d(1.0, 1.0)];
  }

  // ----- is_inter_line_poly -----

  /** The loop of `is_inter_line_poly`: true at the first side with intersection
      data, false when none has any. */
  method AnySideHit(kind: PrimKind, candidates: seq<Prim>, probe: Prim, sqrt: SqrtFn) returns (found: bool)
    ensures !found <==> NoHit(SideDatas(kind, candidates, probe, sqrt))
  {
    ghost var hits := SideDatas(kind, candidates, probe, sqrt);
    for i := 0 to |candidates|
      invariant forall j :: 0 <= j < i ==> hits[j].None?
    {
      var interData := SideData(kind, candidates[i], probe, sqrt);
      if interData.Some? {
        assert hits[i].Some?;
        return true;
      }
    }
    found := false;
  }

  /** `is_inter_line_poly`: the filter, then the search for a side with data. */
  method IsInterLinePoly(kind: PrimKind, sides: seq<Prim>, probe: Prim, sqrt: SqrtFn) returns (r: Result<bool>)
    ensures kind == RayKind ==> r == Err(TypeError(ScaleMessage))
    ensures kind != RayKind ==> r.Ok? && (!r.value <==> NoHit(SideDatas(kind, Kept(kind, probe, sides), probe, sqrt)))
  {
    var candidates: seq<Prim>;
    if kind == LineKind {
      candidates := GetProbableSidesLine(sides, probe);
    } else if kind == SegmentKind {
      candidates := GetProbableSidesSegment(sides, probe);
    } else {
      return ProbableSidesRay(sides, probe).PropagateFailure();
    }
    var found := AnySideHit(kind, candidates, probe, sqrt);
    r := Ok(found);
  }

  /** The test agrees with the corrected data routine: true exactly when it has data. */
  lemma IsInterMatchesData(kind: PrimKind, sides: seq<Prim>, probe: Prim, sqrt: SqrtFn)
    requires kind != RayKind
    ensures InterDataPoly(kind, sides, probe, sqrt).value.Some? <==>
      !NoHit(SideDatas(kind, Kept(kind, probe, sides), probe, sqrt))
  {
  }

  // ----- get_distance_line_poly -----

  /** The family of the inter-data routine a distance routine passes: the convex
      polygon variants use the line routine whatever the probe, the others the
      probe's own. */
  function DistanceFamily(probe: PrimKind, poly: Polygons.PolyKind): (k: PrimKind)
    ensures poly.ConvexKind? ==> k == LineKind
    ensures !poly.ConvexKind? ==> k == probe
  {
    if poly.ConvexKind? then LineKind else probe
  }

  /** What a filter raises when it is handed a `Vector2d` for its probe: the line
      filter asks it for `is_horizontal`, the others for `first_point`. */
  function VectorProbeError(kind: PrimKind): Error {
    if kind == LineKind then AttributeError("'Vector2d' object has no attribute 'is_horizontal'")
    else AttributeError("'Vector2d' object has no attribute 'first_point'")
  }

  /** `get_distance_line_poly`: the vector from the probe's closest point to the
      centroid goes where the inter-data routine expects a primitive, so its filter
      always raises. */
  function DistanceLinePoly(probe: Prim, poly: Polygons.Polygon, sqrt: SqrtFn): (r: Result<real>)
    ensures r.Err?
    ensures r.error == VectorProbeError(DistanceFamily(probe.kind, poly.kind))
    ensures r.error.AttributeError?
  {
    var closest := ClosestPoint(probe, poly.centroid, sqrt);
    var lineToCenter := Sub(poly.centroid, closest);
    Err(VectorProbeError(DistanceFamily(probe.kind, poly.kind)))
  }

  /** The tail of `get_distance_line_poly` the raise keeps from running: 0.0 without
      data, otherwise the running minimum of the distances to the points, started at
      0. Distances are never negative, so it is 0 whenever it returns. */
  method NearestDistanceAsWritten(interData: Option<Data>, closest: Vector2d, sqrt: SqrtFn) returns (r: Result<real>)
    ensures interData.None? ==> r == Ok(0.0)
    ensures interData.Some? && interData.value.points.None? ==> r == Err(TypeError("'NoneType' object is not iterable"))
    ensures interData.Some? && interData.value.points.Some? ==> r.Ok? && r.value <= 0.0
    ensures IsSqrt(sqrt) && r.Ok? ==> r.value == 0.0
  {
    if interData.None? {
      return Ok(0.0);
    }
    if interData.value.points.None? {
      return Err(TypeError("'NoneType' object is not iterable"));
    }
    var points := interData.value.points.value;
    var resultDistance := 0.0;
    for i := 0 to |points|
      invariant resultDistance <= 0.0
      invariant IsSqrt(sqrt) ==> resultDistance == 0.0
    {
      var distance := Magnitude(Sub(points[i], closest), sqrt);
      if IsSqrt(sqrt) {
        MagnitudeRoot(Sub(points[i], closest), sqrt);
      }
      resultDistance := Min(distance, resultDistance);
    }
    r := Ok(resultDistance);
  }
}
