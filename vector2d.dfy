/** The 2-D vector of the geometry core (core/math/vector2d.py). Every vector the
    constructor builds has both coordinates rounded to four decimals; equality
    is approximate, with an absolute tolerance of 0.01 on each coordinate. */
module Vectors {
  import opened Wrappers
  import opened RealMath

  /** A vector value. Values built by `Make` are `Rounded`; the core also
      produces unrounded ones by assigning to the fields directly. */
  datatype Vector2d = Vector2d(x: real, y: real)

  predicate Rounded(v: Vector2d) {
    OnGrid(v.x) && OnGrid(v.y)
  }

  const Zero := Vector2d(0.0, 0.0)

  /** The constructor `Vector2d(x, y)`: both coordinates rounded to four decimals. */
  function Make(x: real, y: real): (v: Vector2d)
    ensures Rounded(v)
    ensures Abs(v.x - x) <= 0.00005 && Abs(v.y - y) <= 0.00005
    ensures OnGrid(x) && OnGrid(y) ==> v == Vector2d(x, y)
  {
    Vector2d(Round4(x), Round4(y))
  }

  /** `__eq__`: both coordinates close within an absolute tolerance of 0.01. */
  predicate ApproxEq(a: Vector2d, b: Vector2d) {
    IsClose(a.x, b.x, 0.01) && IsClose(a.y, b.y, 0.01)
  }

  function Scale(v: Vector2d, s: real): (r: Vector2d)
    ensures Rounded(r)
    ensures Abs(r.x - v.x * s) <= 0.00005 && Abs(r.y - v.y * s) <= 0.00005
  {
    Make(v.x * s, v.y * s)
  }

  /** `copy`: a fresh, rounded vector equal to the original under `__eq__`. */
  function Copy(v: Vector2d): (r: Vector2d)
    ensures Rounded(r) && ApproxEq(r, v)
    ensures Rounded(v) ==> r == v
  {
    Make(v.x, v.y)
  }

  /** `add_vector` and `+`: exact on rounded operands, since sums of
      four-decimal values need no rounding. */
  function Add(a: Vector2d, b: Vector2d): (r: Vector2d)
    ensures Rounded(r)
    ensures Rounded(a) && Rounded(b) ==> r == Vector2d(a.x + b.x, a.y + b.y)
  {
    if Rounded(a) && Rounded(b) then
      OnGridClosed(a.x, b.x);
      OnGridClosed(a.y, b.y);
      Make(a.x + b.x, a.y + b.y)
    else
      Make(a.x + b.x, a.y + b.y)
  }

  /** `subtract_vector` and `-`. */
  function Sub(a: Vector2d, b: Vector2d): (r: Vector2d)
    ensures Rounded(r)
    ensures Rounded(a) && Rounded(b) ==> r == Vector2d(a.x - b.x, a.y - b.y)
  {
    if Rounded(a) && Rounded(b) then
      OnGridClosed(a.x, b.x);
      OnGridClosed(a.y, b.y);
      Make(a.x - b.x, a.y - b.y)
    else
      Make(a.x - b.x, a.y - b.y)
  }

  /** `inverse` and unary `-`. */
  function Inverse(v: Vector2d): (r: Vector2d)
    ensures Rounded(r)
    ensures Rounded(v) ==> r == Vector2d(-v.x, -v.y)
  {
    if Rounded(v) then
      OnGridClosed(v.x, v.y);
      OnGridClosed(v.y, v.x);
      Make(-v.x, -v.y)
    else
      Make(-v.x, -v.y)
  }

  /** `get_perpendicular_vector`: the vector turned a quarter clockwise. */
  function Perpendicular(v: Vector2d): (r: Vector2d)
    ensures Rounded(r)
    ensures Rounded(v) ==> r == Vector2d(v.y, -v.x) && Dot(r, v) == 0.0
  {
    if Rounded(v) then
      OnGridClosed(v.x, v.y);
      Make(v.y, -v.x)
    else
      Make(v.y, -v.x)
  }

  /** `add_scaled_vector`: `v + w * s`, rounded once. */
  function AddScaled(v: Vector2d, w: Vector2d, s: real): (r: Vector2d)
    ensures Rounded(r)
    ensures Abs(r.x - (v.x + w.x * s)) <= 0.00005 && Abs(r.y - (v.y + w.y * s)) <= 0.00005
  {
    Make(v.x + w.x * s, v.y + w.y * s)
  }

  /** `cross`: the z component of the cross product. */
  function Cross(a: Vector2d, b: Vector2d): real {
    a.x * b.y - a.y * b.x
  }

  function Dot(a: Vector2d, b: Vector2d): real {
    a.x * b.x + a.y * b.y
  }

  function SquaredMagnitude(v: Vector2d): real {
    Square(v.x) + Square(v.y)
  }

  /** The squared length is non-negative ... */
  lemma SquaredMagnitudeNonNegative(v: Vector2d)
    ensures 0.0 <= SquaredMagnitude(v)
  {
    SumOfSquares(v.x, v.y);
  }

  /** ... and positive for every non-zero vector. */
  lemma SquaredMagnitudePositive(v: Vector2d)
    requires v != Zero
    ensures 0.0 < SquaredMagnitude(v)
  {
    SumOfSquares(v.x, v.y);
  }

  /** `get_magnitude`, and `__len__`, which returns the same float. */
  function Magnitude(v: Vector2d, sqrt: SqrtFn): real {
    sqrt(SquaredMagnitude(v))
  }

  /** The factor by which `project_on` scales the target. */
  function ProjectionScalar(v: Vector2d, onto: Vector2d): real
    requires onto != Zero
  {
    SquaredMagnitudePositive(onto);
    Dot(v, onto) / SquaredMagnitude(onto)
  }

  /** `project_on`: the target scaled by the ratio of the dot product to the
      target's squared length; a zero-length target raises ZeroDivisionError. */
  function ProjectOn(v: Vector2d, onto: Vector2d): (r: Result<Vector2d>)
    ensures r.Err? <==> onto == Zero
    ensures r.Err? ==> r.error.ZeroDivisionError?
    ensures r.Ok? ==> r.value == Scale(onto, ProjectionScalar(v, onto))
  {
    if onto == Zero then Err(ZeroDivisionError(DivisionByZero))
    else
      var k := ProjectionScalar(v, onto);
      Ok(Scale(onto, k))
  }

  /** `get_cos_of_angle`: the dot product over the product of the magnitudes;
      ZeroDivisionError when that product is zero. */
  function CosOfAngle(v: Vector2d, other: Vector2d, sqrt: SqrtFn): (r: Result<real>)
    ensures r.Err? <==> Magnitude(v, sqrt) * Magnitude(other, sqrt) == 0.0
    ensures r.Err? ==> r.error.ZeroDivisionError?
    ensures r.Ok? ==> r.value == Dot(v, other) / (Magnitude(v, sqrt) * Magnitude(other, sqrt))
  {
    var denominator := Magnitude(v, sqrt) * Magnitude(other, sqrt);
    if denominator == 0.0 then Err(ZeroDivisionError(DivisionByZero))
    else Ok(Dot(v, other) / denominator)
  }

  /** `get_angle`: `math.degrees(math.acos(cos))`. The arc cosine in degrees is a
      parameter; it raises ValueError outside [-1, 1]. */
  function Angle(v: Vector2d, other: Vector2d, sqrt: SqrtFn, acosDegrees: real -> real): (r: Result<real>)
    ensures CosOfAngle(v, other, sqrt).Err? ==> r == Err(CosOfAngle(v, other, sqrt).error)
    ensures CosOfAngle(v, other, sqrt).Ok? && -1.0 <= CosOfAngle(v, other, sqrt).value <= 1.0 ==>
      r == Ok(acosDegrees(CosOfAngle(v, other, sqrt).value))
  {
    var cos :- CosOfAngle(v, other, sqrt);
    if -1.0 <= cos <= 1.0 then Ok(acosDegrees(cos))
    else Err(ValueError("math domain error"))
  }

  /** `normalize`: the vector divided by its magnitude, or (0, 0) when the
      magnitude is zero. */
  function Normalize(v: Vector2d, sqrt: SqrtFn): (r: Vector2d)
    ensures Rounded(r)
    ensures Magnitude(v, sqrt) == 0.0 ==> r == Zero
    ensures var m := Magnitude(v, sqrt); m != 0.0 ==>
      Abs(r.x - v.x / m) <= 0.00005 && Abs(r.y - v.y / m) <= 0.00005
  {
    var magnitude := Magnitude(v, sqrt);
    if magnitude != 0.0 then Make(v.x / magnitude, v.y / magnitude)
    else
      OnGridInt(0);
      Make(0.0, 0.0)
  }

  // ----- properties -----

  /** Scaling the zero vector gives the zero vector, and adding it changes nothing. */
  lemma ZeroIsNeutral(v: Vector2d, s: real)
    requires Rounded(v)
    ensures Scale(Zero, s) == Zero
    ensures Add(v, Zero) == v
  {
    OnGridInt(0);
    assert 0.0 * s == 0.0;
    assert Make(0.0, 0.0) == Zero;
    OnGridClosed(v.x, 0.0);
    OnGridClosed(v.y, 0.0);
  }

  lemma CrossAntisymmetric(a: Vector2d, b: Vector2d)
    ensures Cross(a, b) == -Cross(b, a) && Cross(a, a) == 0.0
  {
  }

  /** With a true square root the magnitude is the non-negative root of the squared
      magnitude; it is zero for the zero vector and positive for every other. */
  lemma MagnitudeProperties(v: Vector2d, sqrt: SqrtFn)
    requires IsSqrt(sqrt)
    ensures 0.0 <= Magnitude(v, sqrt)
    ensures Square(Magnitude(v, sqrt)) == SquaredMagnitude(v)
    ensures v == Zero ==> Magnitude(v, sqrt) == 0.0
    ensures v != Zero ==> 0.0 < Magnitude(v, sqrt)
  {
    var s := SquaredMagnitude(v);
    MagnitudeRoot(v, sqrt);
    if v == Zero {
      SqrtZero(sqrt);
    } else {
      SquaredMagnitudePositive(v);
      SqrtPositive(sqrt, s);
    }
  }

  /** The magnitude is the non-negative root of the squared magnitude. */
  lemma MagnitudeRoot(v: Vector2d, sqrt: SqrtFn)
    requires IsSqrt(sqrt)
    ensures 0.0 <= Magnitude(v, sqrt) && Square(Magnitude(v, sqrt)) == SquaredMagnitude(v)
  {
    SquaredMagnitudeNonNegative(v);
    SqrtOf(sqrt, SquaredMagnitude(v));
  }

  /** Zero division in `project_on` and `normalize` happens exactly for the zero vector. */
  lemma MagnitudeZero(v: Vector2d, sqrt: SqrtFn)
    requires IsSqrt(sqrt)
    ensures Magnitude(v, sqrt) == 0.0 <==> v == Zero
  {
    MagnitudeProperties(v, sqrt);
  }

  /** What remains of `v` after removing its (unrounded) projection is orthogonal
      to the target. */
  lemma ProjectionResidualOrthogonal(v: Vector2d, onto: Vector2d)
    requires onto != Zero
    ensures var k := ProjectionScalar(v, onto);
      Dot(Vector2d(v.x - k * onto.x, v.y - k * onto.y), onto) == 0.0
  {
    var s := SquaredMagnitude(onto);
    SquaredMagnitudePositive(onto);
    var k := ProjectionScalar(v, onto);
    assert k * s == Dot(v, onto);
    calc {
      Dot(Vector2d(v.x - k * onto.x, v.y - k * onto.y), onto);
      (v.x - k * onto.x) * onto.x + (v.y - k * onto.y) * onto.y;
      Dot(v, onto) - k * s;
    }
  }

  /** The exact quotient that `normalize` rounds has length one. */
  lemma NormalizedIsUnit(v: Vector2d, sqrt: SqrtFn)
    requires IsSqrt(sqrt) && v != Zero
    ensures var m := Magnitude(v, sqrt);
      m != 0.0 && Square(v.x / m) + Square(v.y / m) == 1.0
  {
    MagnitudeProperties(v, sqrt);
    var m := Magnitude(v, sqrt);
    QuotientSquares(v.x, v.y, m);
  }

  /** Cauchy-Schwarz: a cosine that `get_cos_of_angle` returns lies in [-1, 1], so
      `get_angle` never fails in `math.acos`. */
  lemma CosOfAngleBounded(v: Vector2d, other: Vector2d, sqrt: SqrtFn)
    requires IsSqrt(sqrt)
    ensures CosOfAngle(v, other, sqrt).Ok? ==> -1.0 <= CosOfAngle(v, other, sqrt).value <= 1.0
  {
    MagnitudeProductBound(v, other, sqrt);
    CosOfAngleBoundedBy(v, other, sqrt);
  }

  lemma CosOfAngleBoundedBy(v: Vector2d, other: Vector2d, sqrt: SqrtFn)
    requires -(Magnitude(v, sqrt) * Magnitude(other, sqrt)) <= Dot(v, other)
    requires Dot(v, other) <= Magnitude(v, sqrt) * Magnitude(other, sqrt)
    ensures CosOfAngle(v, other, sqrt).Ok? ==> -1.0 <= CosOfAngle(v, other, sqrt).value <= 1.0
  {
    CosineFromBound(CosOfAngle(v, other, sqrt), Dot(v, other), Magnitude(v, sqrt) * Magnitude(other, sqrt));
  }

  /** A quotient d / p returned only for p != 0, where |d| <= p, lies in [-1, 1]. */
  lemma CosineFromBound(c: Result<real>, d: real, p: real)
    requires c.Ok? ==> p != 0.0 && c.value == d / p
    requires -p <= d <= p
    ensures c.Ok? ==> -1.0 <= c.value <= 1.0
  {
  }

  /** |v . w| <= |v| |w|. */
  lemma MagnitudeProductBound(v: Vector2d, w: Vector2d, sqrt: SqrtFn)
    requires IsSqrt(sqrt)
    ensures -(Magnitude(v, sqrt) * Magnitude(w, sqrt)) <= Dot(v, w)
    ensures Dot(v, w) <= Magnitude(v, sqrt) * Magnitude(w, sqrt)
  {
    MagnitudeRoot(v, sqrt);
    MagnitudeRoot(w, sqrt);
    LagrangeIdentity(v, w);
    BoundFromSquares(Dot(v, w), Cross(v, w), Magnitude(v, sqrt), Magnitude(w, sqrt),
      SquaredMagnitude(v), SquaredMagnitude(w));
  }

  /** |v|^2 |w|^2 = (v . w)^2 + (v x w)^2. */
  lemma LagrangeIdentity(v: Vector2d, w: Vector2d)
    ensures SquaredMagnitude(v) * SquaredMagnitude(w) == Square(Dot(v, w)) + Square(Cross(v, w))
  {
    var a, b, c, d := v.x, v.y, w.x, w.y;
    assert SquaredMagnitude(v) * SquaredMagnitude(w) == (a * a + b * b) * (c * c + d * d);
    assert (a * a + b * b) * (c * c + d * d)
      == (a * c + b * d) * (a * c + b * d) + (a * d - b * c) * (a * d - b * c);
  }

  /** From p^2 = d^2 + c^2 with p = m1 m2 non-negative: -p <= d <= p. */
  lemma BoundFromSquares(d: real, c: real, m1: real, m2: real, s1: real, s2: real)
    requires 0.0 <= m1 && 0.0 <= m2
    requires Square(m1) == s1 && Square(m2) == s2
    requires s1 * s2 == Square(d) + Square(c)
    ensures -(m1 * m2) <= d && d <= m1 * m2
  {
    var p := m1 * m2;
    assert Square(p) == s1 * s2;
    SquareNonNegative(c);
    assert Square(Abs(d)) == Square(d);
    assert 0.0 <= p by {
      if m1 > 0.0 && m2 > 0.0 {
        MulPositive(m1, m2);
      }
    }
    SquareMonotone(Abs(d), p);
  }

  lemma DivideBySelf(a: real, b: real)
    requires a == b && 0.0 < b
    ensures a / b == 1.0
  {
  }

  /** The cosine of a non-zero vector's angle with itself is one. */
  lemma CosOfAngleWithSelf(v: Vector2d, sqrt: SqrtFn)
    requires IsSqrt(sqrt) && v != Zero
    ensures CosOfAngle(v, v, sqrt) == Ok(1.0)
  {
    MagnitudeProperties(v, sqrt);
    var m := Magnitude(v, sqrt);
    SquarePositive(m);
    assert Dot(v, v) == SquaredMagnitude(v);
    assert SquaredMagnitude(v) == Square(m);
    assert Square(m) == m * m;
    assert 0.0 < m * m;
    var c := CosOfAngle(v, v, sqrt);
    assert c.Ok? && c.value == Dot(v, v) / (m * m);
    DivideBySelf(Dot(v, v), m * m);
  }

  /** `__eq__` is reflexive and symmetric ... */
  lemma ApproxEqReflexiveSymmetric(a: Vector2d, b: Vector2d)
    ensures ApproxEq(a, a)
    ensures ApproxEq(a, b) == ApproxEq(b, a)
  {
    IsCloseSymmetric(a.x, b.x, 0.01);
    IsCloseSymmetric(a.y, b.y, 0.01);
  }

  /** ... but not transitive: (0, 0) == (0.01, 0) == (0.02, 0), yet (0, 0) != (0.02, 0). */
  lemma ApproxEqNotTransitive()
    ensures var a, b, c := Make(0.0, 0.0), Make(0.01, 0.0), Make(0.02, 0.0);
      ApproxEq(a, b) && ApproxEq(b, c) && !ApproxEq(a, c)
  {
    OnGridInt(0);
    assert OnGrid(0.01) by { assert 0.01 * 10000.0 == 100 as real; }
    assert OnGrid(0.02) by { assert 0.02 * 10000.0 == 200 as real; }
  }

  /** For coordinates of moderate size, `__eq__` means both coordinates differ by at
      most 0.01. */
  lemma ApproxEqModerate(a: Vector2d, b: Vector2d)
    requires Abs(a.x) <= 10000000.0 && Abs(b.x) <= 10000000.0
    requires Abs(a.y) <= 10000000.0 && Abs(b.y) <= 10000000.0
    ensures ApproxEq(a, b) <==> Abs(a.x - b.x) <= 0.01 && Abs(a.y - b.y) <= 0.01
  {
    IsCloseModerate(a.x, b.x, 0.01);
    IsCloseModerate(a.y, b.y, 0.01);
  }

  /** A vector object whose fields the in-place operators `+=` and `-=` update.
      Unlike the constructor, these updates do not round. */
  class MutableVector2d {
    var x: real
    var y: real

    /** `Vector2d(x, y)`. */
    constructor (x0: real, y0: real)
      ensures x == Round4(x0) && y == Round4(y0)
    {
      x := Round4(x0);
      y := Round4(y0);
    }

    function Value(): Vector2d
      reads this
    {
      Vector2d(x, y)
    }

    /** `__iadd__`: adds in place and returns the same object. */
    method AddInPlace(other: Vector2d) returns (self: MutableVector2d)
      modifies this
      ensures self == this
      ensures x == old(x) + other.x && y == old(y) + other.y
      ensures Rounded(old(Value())) && Rounded(other) ==> Value() == Add(old(Value()), other)
    {
      x := x + other.x;
      y := y + other.y;
      self := this;
    }

    /** `__isub__`: subtracts in place and returns the same object. */
    method SubtractInPlace(other: Vector2d) returns (self: MutableVector2d)
      modifies this
      ensures self == this
      ensures x == old(x) - other.x && y == old(y) - other.y
      ensures Rounded(old(Value())) && Rounded(other) ==> Value() == Sub(old(Value()), other)
    {
      x := x - other.x;
      y := y - other.y;
      self := this;
    }
  }
}
