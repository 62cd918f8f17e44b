/** `CollisionDetection` of
    core/math/geometry/collision_detection/objects_collision_detection.py: the
    routine is looked up by name, `get_inter_data_` followed by the lowercased class
    names of both operands, among the functions the module imports; the lookup is
    a match on the pair of kinds here. As written the module cannot be imported
    (a star-import reaches the bodyless `def get_shadow_circle(circle: "")` of
    separated_axis.py, and another imports a `core.math.average` the repository does
    not have), so this is the lookup the module would do if its imports succeeded. */
module Dispatch {
  import opened Wrappers
  import opened RealMath
  import opened Vectors
  import opened Primitives
  import opened Shapes
  import opened Collisions
  import Lines
  import LineEllipse
  import LinePolygon
  import Ellipses
  import Polygons

  /** The geometry objects, one variant per family of classes. */
  datatype Geom =
    | Particle(position: Vector2d)
    | LineLike(prim: Prim)
    | CircleShape(circle: Circle)
    | EllipseShape(ellipse: Ellipse)
    | PolygonShape(polygon: Polygons.Polygon)

  /** The classes an operand can belong to, in their own names. */
  datatype ClassId =
    | ParticleClass | RayClass | LineClass | SegmentClass | CircleClass | EllipseClass
    | ConvexPolygonClass | ConcavePolygonClass | RectangleClass | TriangleClass

  function ClassOf(g: Geom): ClassId {
    match g
    case Particle(_) => ParticleClass
    case LineLike(p) => (match p.kind
      case RayKind => RayClass
      case LineKind => LineClass
      case SegmentKind => SegmentClass)
    case CircleShape(_) => CircleClass
    case EllipseShape(_) => EllipseClass
    case PolygonShape(poly) => (match poly.kind
      case ConvexKind => ConvexPolygonClass
      case ConcaveKind => ConcavePolygonClass
      case RectangleKind(_, _) => RectangleClass
      case TriangleKind => TriangleClass)
  }

  /** `type(obj).__name__.lower()`. */
  function ClassName(c: ClassId): string {
    match c
    case ParticleClass => "particle"
    case RayClass => "ray"
    case LineClass => "line"
    case SegmentClass => "segment"
    case CircleClass => "circle"
    case EllipseClass => "ellipse"
    case ConvexPolygonClass => "convexpolygon"
    case ConcavePolygonClass => "concavepolygon"
    case RectangleClass => "rectangle"
    case TriangleClass => "triangle"
  }

  const InterDataPrefix := "get_inter_data_"

  /** The name looked up for a pair of operands. */
  function RoutineName(a: Geom, b: Geom): string {
    InterDataPrefix + PairName(ClassOf(a), ClassOf(b))
  }

  /** The two class names joined by an underscore. */
  function PairName(c: ClassId, d: ClassId): string {
    ClassName(c) + "_" + ClassName(d)
  }

  /** The modules whose functions the star imports bring in; the particles module
      is not imported. */
  datatype SourceModule =
    | LinesModule | LineEllipseModule | LinePolygonModule | EllipsesModule
    | EllipsePolygonModule | PolygonsModule

  /** The module whose `get_inter_data_<first>_<second>` the star imports bring in
      for a pair of classes, or None when no imported function has that name. The
      line-polygon module spells two of its routines `get_inter_data_ray_rect` and
      `get_inter_data_segment_rect`, names no pair produces; its `get_inter_data_poly`,
      the ellipse-polygon module's `get_inter_data_polygon`,
      `get_inter_data_circle_polygon`, `get_inter_data_polygon_circle`,
      `get_inter_data_ellipse_polygon` and `get_inter_data_polygon_ellipse`, and the
      line-ellipse module's `get_inter_data_line_shape_circle` and
      `get_inter_data_line_shape_ellipse` match no pair of class names either. */
  function RoutineModule(c: ClassId, d: ClassId): Option<SourceModule> {
    match (c, d)
    // lines
    case (LineClass, LineClass) => Some(LinesModule)
    case (LineClass, RayClass) => Some(LinesModule)
    case (RayClass, LineClass) => Some(LinesModule)
    case (SegmentClass, LineClass) => Some(LinesModule)
    case (LineClass, SegmentClass) => Some(LinesModule)
    case (RayClass, SegmentClass) => Some(LinesModule)
    case (RayClass, RayClass) => Some(LinesModule)
    case (SegmentClass, SegmentClass) => Some(LinesModule)
    case (SegmentClass, RayClass) => Some(LinesModule)
    // line_ellipse
    case (SegmentClass, CircleClass) => Some(LineEllipseModule)
    case (CircleClass, SegmentClass) => Some(LineEllipseModule)
    case (LineClass, CircleClass) => Some(LineEllipseModule)
    case (CircleClass, LineClass) => Some(LineEllipseModule)
    case (RayClass, CircleClass) => Some(LineEllipseModule)
    case (CircleClass, RayClass) => Some(LineEllipseModule)
    case (SegmentClass, EllipseClass) => Some(LineEllipseModule)
    case (EllipseClass, SegmentClass) => Some(LineEllipseModule)
    case (LineClass, EllipseClass) => Some(LineEllipseModule)
    case (EllipseClass, LineClass) => Some(LineEllipseModule)
    case (RayClass, EllipseClass) => Some(LineEllipseModule)
    case (EllipseClass, RayClass) => Some(LineEllipseModule)
    // line_polygon
    case (LineClass, ConvexPolygonClass) => Some(LinePolygonModule)
    case (ConvexPolygonClass, LineClass) => Some(LinePolygonModule)
    case (LineClass, ConcavePolygonClass) => Some(LinePolygonModule)
    case (ConcavePolygonClass, LineClass) => Some(LinePolygonModule)
    case (LineClass, RectangleClass) => Some(LinePolygonModule)
    case (RectangleClass, LineClass) => Some(LinePolygonModule)
    case (LineClass, TriangleClass) => Some(LinePolygonModule)
    case (TriangleClass, LineClass) => Some(LinePolygonModule)
    case (RayClass, ConvexPolygonClass) => Some(LinePolygonModule)
    case (ConvexPolygonClass, RayClass) => Some(LinePolygonModule)
    case (RayClass, ConcavePolygonClass) => Some(LinePolygonModule)
    case (ConcavePolygonClass, RayClass) => Some(LinePolygonModule)
    case (RectangleClass, RayClass) => Some(LinePolygonModule)
    case (RayClass, TriangleClass) => Some(LinePolygonModule)
    case (TriangleClass, RayClass) => Some(LinePolygonModule)
    case (SegmentClass, ConvexPolygonClass) => Some(LinePolygonModule)
    case (ConvexPolygonClass, SegmentClass) => Some(LinePolygonModule)
    case (SegmentClass, ConcavePolygonClass) => Some(LinePolygonModule)
    case (ConcavePolygonClass, SegmentClass) => Some(LinePolygonModule)
    case (RectangleClass, SegmentClass) => Some(LinePolygonModule)
    case (SegmentClass, TriangleClass) => Some(LinePolygonModule)
    case (TriangleClass, SegmentClass) => Some(LinePolygonModule)
    // ellipses
    case (CircleClass, CircleClass) => Some(EllipsesModule)
    case (CircleClass, EllipseClass) => Some(EllipsesModule)
    case (EllipseClass, CircleClass) => Some(EllipsesModule)
    case (EllipseClass, EllipseClass) => Some(EllipsesModule)
    // ellipse_polygon
    case (CircleClass, RectangleClass) => Some(EllipsePolygonModule)
    case (RectangleClass, CircleClass) => Some(EllipsePolygonModule)
    case (CircleClass, TriangleClass) => Some(EllipsePolygonModule)
    case (TriangleClass, CircleClass) => Some(EllipsePolygonModule)
    case (EllipseClass, RectangleClass) => Some(EllipsePolygonModule)
    case (RectangleClass, EllipseClass) => Some(EllipsePolygonModule)
    case (EllipseClass, TriangleClass) => Some(EllipsePolygonModule)
    case (TriangleClass, EllipseClass) => Some(EllipsePolygonModule)
    // polygons
    case (ConvexPolygonClass, ConvexPolygonClass) => Some(PolygonsModule)
    case (ConvexPolygonClass, RectangleClass) => Some(PolygonsModule)
    case (RectangleClass, ConvexPolygonClass) => Some(PolygonsModule)
    case (ConvexPolygonClass, TriangleClass) => Some(PolygonsModule)
    case (TriangleClass, ConvexPolygonClass) => Some(PolygonsModule)
    case (RectangleClass, RectangleClass) => Some(PolygonsModule)
    case (RectangleClass, TriangleClass) => Some(PolygonsModule)
    case (TriangleClass, RectangleClass) => Some(PolygonsModule)
    case (TriangleClass, TriangleClass) => Some(PolygonsModule)
    case (ConcavePolygonClass, ConcavePolygonClass) => Some(PolygonsModule)
    case (ConcavePolygonClass, ConvexPolygonClass) => Some(PolygonsModule)
    case (ConvexPolygonClass, ConcavePolygonClass) => Some(PolygonsModule)
    case (ConcavePolygonClass, RectangleClass) => Some(PolygonsModule)
    case (RectangleClass, ConcavePolygonClass) => Some(PolygonsModule)
    case (ConcavePolygonClass, TriangleClass) => Some(PolygonsModule)
    case (TriangleClass, ConcavePolygonClass) => Some(PolygonsModule)
    case _ => None
  }

  /** A routine exists for the operands' classes. */
  predicate Found(a: Geom, b: Geom) {
    RoutineModule(ClassOf(a), ClassOf(b)).Some?
  }

  function NotFoundMessage(first: string, second: string): string {
    "Function that gets intersection data of " + first + " and " + second + " could not be found"
  }

  // ----- which pairs have a routine -----

  predicate IsRound(g: Geom) {
    g.CircleShape? || g.EllipseShape?
  }

  predicate IsCornered(g: Geom) {
    g.PolygonShape? && (g.polygon.kind.RectangleKind? || g.polygon.kind.TriangleKind?)
  }

  /** The pairs with a routine, stated by family: everything but particles, except
      that a ray or segment probe before a rectangle is missing and a round shape
      meets only rectangles and triangles among the polygons. */
  predicate Supported(a: Geom, b: Geom) {
    match (a, b)
    case (Particle(_), _) => false
    case (_, Particle(_)) => false
    case (LineLike(p), PolygonShape(poly)) => p.kind == LineKind || !poly.kind.RectangleKind?
    case (CircleShape(_), PolygonShape(_)) => IsCornered(b)
    case (EllipseShape(_), PolygonShape(_)) => IsCornered(b)
    case (PolygonShape(_), CircleShape(_)) => IsCornered(a)
    case (PolygonShape(_), EllipseShape(_)) => IsCornered(a)
    case _ => true
  }

  // ----- get_intersection_data -----

  /** `get_inter_data_ray_line` as written: the ray is handed on as the line and the
      line as the ray. */
  function RayLineDataAsWritten(ray: Prim, line: Prim): (r: Option<Data>)
    ensures r == Lines.LineRayData(ray, line)
  {
    Lines.RayLineData(ray, line)
  }

  /** The line-like pairs of the lines module, with the routine each pair finds. */
  function LineLikeData(a: Prim, b: Prim, sqrt: SqrtFn): (r: Option<Data>)
    ensures a.kind == RayKind && b.kind == LineKind ==> r == Lines.LineRayData(a, b)
    ensures !(a.kind == RayKind && b.kind == LineKind) ==> r == LineLikeDataCorrected(a, b, sqrt)
  {
    match (a.kind, b.kind)
    case (LineKind, LineKind) => Lines.LineLineData(a, b)
    case (LineKind, RayKind) => Lines.LineRayData(a, b)
    case (RayKind, LineKind) => RayLineDataAsWritten(a, b)
    case (SegmentKind, LineKind) => Lines.SegmentLineData(a, b, sqrt)
    case (LineKind, SegmentKind) => Lines.LineSegmentData(a, b, sqrt)
    case (RayKind, SegmentKind) => Lines.RaySegmentData(a, b, sqrt)
    case (RayKind, RayKind) => Lines.RayRayData(a, b)
    case (SegmentKind, SegmentKind) => Lines.SegmentSegmentData(a, b, sqrt)
    case (SegmentKind, RayKind) => Lines.SegmentRayData(a, b, sqrt)
  }

  /** The evidently intended line-like routines: the (ray, line) pair is handed to
      the (line, ray) routine with its operands in their intended roles. */
  function LineLikeDataCorrected(a: Prim, b: Prim, sqrt: SqrtFn): Option<Data> {
    match (a.kind, b.kind)
    case (LineKind, LineKind) => Lines.LineLineData(a, b)
    case (LineKind, RayKind) => Lines.LineRayData(a, b)
    case (RayKind, LineKind) => Lines.LineRayData(b, a)
    case (SegmentKind, LineKind) => Lines.SegmentLineData(a, b, sqrt)
    case (LineKind, SegmentKind) => Lines.LineSegmentData(a, b, sqrt)
    case (RayKind, SegmentKind) => Lines.RaySegmentData(a, b, sqrt)
    case (RayKind, RayKind) => Lines.RayRayData(a, b)
    case (SegmentKind, SegmentKind) => Lines.SegmentSegmentData(a, b, sqrt)
    case (SegmentKind, RayKind) => Lines.SegmentRayData(a, b, sqrt)
  }

  /** `get_intersection_data`: a pair without a routine raises TypeError naming both
      classes; a found routine receives the operands in their order. Routines of the
      ellipse-polygon and polygon modules are found but not part of this model. */
  function IntersectionData(a: Geom, b: Geom, sqrt: SqrtFn): (r: Result<Option<Data>>)
    ensures !Found(a, b) ==> r == Err(TypeError(NotFoundMessage(ClassName(ClassOf(a)), ClassName(ClassOf(b)))))
    ensures Found(a, b) && a.PolygonShape? && !b.LineLike? ==> r == Err(NotModelled(RoutineName(a, b)))
    ensures Found(a, b) && b.PolygonShape? && !a.LineLike? ==> r == Err(NotModelled(RoutineName(a, b)))
  {
    if !Found(a, b) then Err(TypeError(NotFoundMessage(ClassName(ClassOf(a)), ClassName(ClassOf(b)))))
    else
      match (a, b)
      case (LineLike(p), LineLike(q)) => Ok(LineLikeData(p, q, sqrt))
      case (LineLike(p), PolygonShape(poly)) => LinePolygon.InterDataPolyAsWritten(p.kind, poly.sides, p, sqrt)
      case (PolygonShape(poly), LineLike(p)) => LinePolygon.InterDataPolyAsWritten(p.kind, poly.sides, p, sqrt)
      case (LineLike(p), _) => LineShapeData(p, b, sqrt)
      case (_, LineLike(p)) => ShapeLineData(a, p, sqrt)
      case (CircleShape(c), CircleShape(d)) => Ellipses.CircleCircleData(c, d, sqrt)
      case (CircleShape(c), EllipseShape(e)) => Ellipses.CircleEllipseData(c, e)
      case (EllipseShape(e), CircleShape(c)) => Ellipses.EllipseCircleData(e, c)
      case (EllipseShape(e), EllipseShape(f)) => Ellipses.EllipseEllipseData(e, f, sqrt)
      case _ => Err(NotModelled(RoutineName(a, b)))
  }

  /** The dispatcher with the two corrected routines of the line-like operands: the
      (ray, line) pair in its intended roles and the corrected polygon accumulator.
      Every other pair gets what `get_intersection_data` gives. */
  function IntersectionDataCorrected(a: Geom, b: Geom, sqrt: SqrtFn): (r: Result<Option<Data>>)
    ensures !(a.LineLike? && (b.LineLike? || b.PolygonShape?)) && !(a.PolygonShape? && b.LineLike?) ==>
      r == IntersectionData(a, b, sqrt)
    ensures !Found(a, b) ==> r == IntersectionData(a, b, sqrt)
  {
    if !Found(a, b) then IntersectionData(a, b, sqrt)
    else
      match (a, b)
      case (LineLike(p), LineLike(q)) => Ok(LineLikeDataCorrected(p, q, sqrt))
      case (LineLike(p), PolygonShape(poly)) => LinePolygon.InterDataPoly(p.kind, poly.sides, p, sqrt)
      case (PolygonShape(poly), LineLike(p)) => LinePolygon.InterDataPoly(p.kind, poly.sides, p, sqrt)
      case _ => IntersectionData(a, b, sqrt)
  }

  /** The line-ellipse routines with the line-like operand first. */
  function LineShapeData(p: Prim, shape: Geom, sqrt: SqrtFn): Result<Option<Data>> {
    match shape
    case CircleShape(c) =>
      if p.kind == SegmentKind then LineEllipse.SegmentCircleData(p, c) else LineEllipse.LineCircleData(p, c, sqrt)
    case EllipseShape(e) => LineEllipse.LineEllipseData(p, e, sqrt)
    case _ => Err(NotModelled(InterDataPrefix + ClassName(ClassOf(LineLike(p))) + "_" + ClassName(ClassOf(shape))))
  }

  /** The line-ellipse routines with the shape first. */
  function ShapeLineData(shape: Geom, p: Prim, sqrt: SqrtFn): Result<Option<Data>> {
    match shape
    case CircleShape(c) =>
      if p.kind == SegmentKind then LineEllipse.CircleSegmentData(c, p) else LineEllipse.CircleLineData(c, p, sqrt)
    case EllipseShape(e) => LineEllipse.EllipseLineData(e, p, sqrt)
    case _ => Err(NotModelled(InterDataPrefix + ClassName(ClassOf(shape)) + "_" + ClassName(ClassOf(LineLike(p)))))
  }

  // ----- get_distance_length -----

  function DistanceName(a: Geom, b: Geom): string {
    "get_distance_" + ClassName(ClassOf(a)) + "_" + ClassName(ClassOf(b))
  }

  function MissingAttributeMessage(name: string): string {
    "type object 'CollisionDetection' has no attribute '" + name + "'"
  }

  /** `getattr(cls, name)`: the distance routines are module functions, not
      attributes of the class, so the lookup fails for every pair. */
  function DistanceLength(a: Geom, b: Geom): (r: Result<real>)
    ensures r.Err? && r.error == AttributeError(MissingAttributeMessage(DistanceName(a, b)))
  {
    Err(AttributeError(MissingAttributeMessage(DistanceName(a, b))))
  }

  // ----- properties -----

  /** The class names hold no underscore. */
  lemma ClassNameWord(c: ClassId)
    ensures '_' !in ClassName(c)
  {
  }

  /** Different classes have different names. */
  lemma ClassNameInjective(c: ClassId, d: ClassId)
    requires ClassName(c) == ClassName(d)
    ensures c == d
  {
    assert |ClassName(c)| == |ClassName(d)|;
    assert ClassName(c)[0] == ClassName(d)[0];
  }

  /** Every position before the separator holds a word character, and the
      separator sits right after the word. */
  lemma SeparatorAfterWord(u: string, v: string)
    requires '_' !in u
    ensures (u + "_" + v)[|u|] == '_'
    ensures forall i :: 0 <= i < |u| ==> (u + "_" + v)[i] != '_'
  {
    forall i | 0 <= i < |u|
      ensures (u + "_" + v)[i] != '_'
    {
      assert (u + "_" + v)[i] == u[i];
    }
  }

  /** Joining two underscore-free words with one underscore can be undone. */
  lemma SplitAtSeparator(u: string, v: string, w: string, z: string)
    requires '_' !in u && '_' !in w
    requires u + "_" + v == w + "_" + z
    ensures u == w && v == z
  {
    SeparatorAfterWord(u, v);
    SeparatorAfterWord(w, z);
    var s := u + "_" + v;
    assert |u| == |w|;
    assert u == s[..|u|] == w;
    assert v == s[|u| + 1..] == z;
  }

  /** A common prefix can be dropped. */
  lemma PrefixCancel(p: string, x: string, y: string)
    requires p + x == p + y
    ensures x == y
  {
    assert x == (p + x)[|p|..];
    assert y == (p + y)[|p|..];
  }

  /** The joined names determine both classes. */
  lemma PairNameInjective(c: ClassId, d: ClassId, e: ClassId, f: ClassId)
    requires PairName(c, d) == PairName(e, f)
    ensures c == e && d == f
  {
    ClassNameWord(c);
    ClassNameWord(e);
    SplitAtSeparator(ClassName(c), ClassName(d), ClassName(e), ClassName(f));
    ClassNameInjective(c, e);
    ClassNameInjective(d, f);
  }

  /** The routine name determines the pair of classes: looking a routine up by
      name is looking it up by the pair. */
  lemma RoutineNameDeterminesClasses(a: Geom, b: Geom, c: Geom, d: Geom)
    requires RoutineName(a, b) == RoutineName(c, d)
    ensures ClassOf(a) == ClassOf(c) && ClassOf(b) == ClassOf(d)
  {
    PrefixCancel(InterDataPrefix, PairName(ClassOf(a), ClassOf(b)), PairName(ClassOf(c), ClassOf(d)));
    PairNameInjective(ClassOf(a), ClassOf(b), ClassOf(c), ClassOf(d));
  }

  /** A routine is found exactly for the pairs the families allow. */
  lemma RoutineFoundIffSupported(a: Geom, b: Geom)
    ensures Found(a, b) <==> Supported(a, b)
  {
  }

  /** A ray or segment before a rectangle finds no routine (the routines are spelt
      `get_inter_data_ray_rect` and `get_inter_data_segment_rect`), while the reversed
      pair does. */
  lemma ProbeBeforeRectangleNotFound(p: Prim, poly: Polygons.Polygon, sqrt: SqrtFn)
    requires p.kind != LineKind && poly.kind.RectangleKind?
    ensures IntersectionData(LineLike(p), PolygonShape(poly), sqrt) ==
      Err(TypeError(NotFoundMessage(ClassName(ClassOf(LineLike(p))), "rectangle")))
    ensures Found(PolygonShape(poly), LineLike(p))
  {
    assert ClassOf(PolygonShape(poly)) == RectangleClass;
    assert !Found(LineLike(p), PolygonShape(poly));
  }

  /** No pair with a particle finds a routine. */
  lemma ParticlesNotFound(position: Vector2d, other: Geom, sqrt: SqrtFn)
    ensures IntersectionData(Particle(position), other, sqrt) ==
      Err(TypeError(NotFoundMessage("particle", ClassName(ClassOf(other)))))
    ensures IntersectionData(other, Particle(position), sqrt) ==
      Err(TypeError(NotFoundMessage(ClassName(ClassOf(other)), "particle")))
  {
  }

  /** The polygon wrappers forward to the probe-first routine, so a found pair
      gives the same answer in either order. */
  lemma PolygonOperandOrder(p: Prim, poly: Polygons.Polygon, sqrt: SqrtFn)
    requires Found(LineLike(p), PolygonShape(poly))
    ensures IntersectionData(PolygonShape(poly), LineLike(p), sqrt) ==
      IntersectionData(LineLike(p), PolygonShape(poly), sqrt)
  {
    var d := LinePolygon.InterDataPolyAsWritten(p.kind, poly.sides, p, sqrt);
    assert IntersectionData(LineLike(p), PolygonShape(poly), sqrt) == d;
    assert Found(PolygonShape(poly), LineLike(p));
    assert IntersectionData(PolygonShape(poly), LineLike(p), sqrt) == d;
  }

  /** As written, no line-like operand with a polygon ever yields data through the
      dispatcher: a ray raises the TypeError of `scale()`, the others get None or a
      TypeError. */
  lemma LinePolygonNeverData(p: Prim, poly: Polygons.Polygon, sqrt: SqrtFn)
    requires Found(LineLike(p), PolygonShape(poly))
    ensures var r := IntersectionData(LineLike(p), PolygonShape(poly), sqrt);
      r == Ok(None) || (r.Err? && r.error.TypeError?)
    ensures p.kind == RayKind ==>
      IntersectionData(LineLike(p), PolygonShape(poly), sqrt) == Err(TypeError(LinePolygon.ScaleMessage))
  {
    var d := LinePolygon.InterDataPolyAsWritten(p.kind, poly.sides, p, sqrt);
    assert IntersectionData(LineLike(p), PolygonShape(poly), sqrt) == d;
    LinePolygon.InterDataPolyAsWrittenOutcome(p.kind, poly.sides, p, sqrt);
  }

  /** With the (ray, line) routine set right, the ray-line crossing does not
      depend on the order of the operands. */
  lemma RayLineOperandOrder(ray: Prim, line: Prim, sqrt: SqrtFn)
    requires ray.kind == RayKind && line.kind == LineKind
    ensures IntersectionDataCorrected(LineLike(ray), LineLike(line), sqrt) ==
      IntersectionDataCorrected(LineLike(line), LineLike(ray), sqrt)
  {
  }

  /** The ray (0, 0)-(1, 0) and the vertical line through (-1, -1) and (-1, 1). */
  const CounterRay: Prim := Primitive(RayKind, Vector2d(0.0, 0.0), Vector2d(1.0, 0.0))
  const CounterLine: Prim := Primitive(LineKind, Vector2d(-1.0, -1.0), Vector2d(-1.0, 1.0))

  /** As written, the (ray, line) routine treats the ray as the unbounded line and
      the line as a ray: the line x = -1 misses the ray along the positive x axis,
      yet the dispatcher reports a crossing for (ray, line); the (line, ray) routine
      reports none, so the answer depends on the order of the operands. */
  lemma RayLineAsWrittenCounterexample(sqrt: SqrtFn)
    ensures RayLineDataAsWritten(CounterRay, CounterLine).Some?
    ensures Lines.LineRayData(CounterLine, CounterRay).None?
    ensures IntersectionData(LineLike(CounterRay), LineLike(CounterLine), sqrt).Ok?
    ensures IntersectionData(LineLike(CounterRay), LineLike(CounterLine), sqrt).value.Some?
    ensures IntersectionData(LineLike(CounterLine), LineLike(CounterRay), sqrt) == Ok(None)
  {
    CounterCoeffs();
  }

  /** The crossing parameters of the counterexample in both orders. */
  lemma CounterCoeffs()
    ensures Lines.PenetrCoeff(CounterRay, CounterLine) == Some(Lines.Coeff(-1.0, 0.5))
    ensures Lines.PenetrCoeff(CounterLine, CounterRay) == Some(Lines.Coeff(0.5, -1.0))
  {
    assert Lines.Denominator(CounterRay, CounterLine) == 2.0;
    assert Lines.TNumerator(CounterRay, CounterLine) == -2.0;
    assert Lines.UNumerator(CounterRay, CounterLine) == -1.0;
    assert Lines.Denominator(CounterLine, CounterRay) == -2.0;
    assert Lines.TNumerator(CounterLine, CounterRay) == -1.0;
    assert Lines.UNumerator(CounterLine, CounterRay) == -2.0;
  }

  /** The corrected dispatcher reports no crossing for the pair in either order. */
  lemma RayLineCorrected(sqrt: SqrtFn)
    ensures IntersectionDataCorrected(LineLike(CounterRay), LineLike(CounterLine), sqrt) == Ok(None)
    ensures IntersectionDataCorrected(LineLike(CounterLine), LineLike(CounterRay), sqrt) == Ok(None)
  {
    RayLineAsWrittenCounterexample(sqrt);
    assert LineLikeDataCorrected(CounterRay, CounterLine, sqrt) == Lines.LineRayData(CounterLine, CounterRay);
  }
}
