/** The older 2-D vector (core/vector2d.py): the same algebra as `Vectors`, but the
    constructor keeps its coordinates as given and equality is exact. */
module LegacyVectors {
  import opened RealMath

  datatype Vector2d = Vector2d(x: real, y: real)

  const Zero := Vector2d(0.0, 0.0)

  /** `scale_vector`. */
  function ScaleVector(v: Vector2d, s: real): Vector2d {
    Vector2d(v.x * s, v.y * s)
  }

  /** `add_vector` and `+`. */
  function AddVector(a: Vector2d, b: Vector2d): Vector2d {
    Vector2d(a.x + b.x, a.y + b.y)
  }

  /** `add_scaled_vector`: `v + w * s`. */
  function AddScaledVector(v: Vector2d, w: Vector2d, s: real): (r: Vector2d)
    ensures r == AddVector(v, ScaleVector(w, s))
  {
    var scaled := ScaleVector(w, s);
    Vector2d(v.x + scaled.x, v.y + scaled.y)
  }

  /** `substract_vector` and `-`. */
  function SubtractVector(a: Vector2d, b: Vector2d): (r: Vector2d)
    ensures AddVector(r, b) == a
  {
    Vector2d(a.x - b.x, a.y - b.y)
  }

  /** `inverse` and unary `-`. */
  function Inverse(v: Vector2d): (r: Vector2d)
    ensures AddVector(v, r) == Zero
    ensures r == ScaleVector(v, -1.0)
  {
    Vector2d(-v.x, -v.y)
  }

  /** `dot_product`. */
  function Dot(a: Vector2d, b: Vector2d): real {
    a.x * b.x + a.y * b.y
  }

  /** `get_squared_magnitude`. */
  function SquaredMagnitude(v: Vector2d): real {
    Square(v.x) + Square(v.y)
  }

  /** `get_magnitude` and `__len__`. */
  function Magnitude(v: Vector2d, sqrt: SqrtFn): real {
    sqrt(SquaredMagnitude(v))
  }

  /** `normalize`: each coordinate divided by the magnitude, or (0, 0) when the
      magnitude is zero. */
  function Normalize(v: Vector2d, sqrt: SqrtFn): (r: Vector2d)
    ensures Magnitude(v, sqrt) == 0.0 ==> r == Zero
    ensures Magnitude(v, sqrt) != 0.0 ==>
      ScaleVector(r, Magnitude(v, sqrt)) == v
  {
    var m := Magnitude(v, sqrt);
    if m != 0.0 then Vector2d(v.x / m, v.y / m) else Vector2d(0.0, 0.0)
  }

  /** `__eq__`: both coordinates equal. */
  predicate Eq(a: Vector2d, b: Vector2d) {
    a.x == b.x && a.y == b.y
  }

  // ----- properties -----

  /** Exact equality is value equality, hence an equivalence. */
  lemma EqIsEquality(a: Vector2d, b: Vector2d)
    ensures Eq(a, b) <==> a == b
  {
  }

  /** Subtracting what was added gives back the original. */
  lemma SubtractUndoesAdd(a: Vector2d, b: Vector2d)
    ensures SubtractVector(AddVector(a, b), b) == a
  {
  }

  /** Scaling distributes over addition. */
  lemma ScaleDistributes(a: Vector2d, b: Vector2d, s: real)
    ensures ScaleVector(AddVector(a, b), s) == AddVector(ScaleVector(a, s), ScaleVector(b, s))
  {
  }

  lemma ScaleByOne(v: Vector2d)
    ensures ScaleVector(v, 1.0) == v && ScaleVector(v, 0.0) == Zero
  {
  }

  /** Normalizing (0, 0) gives (0, 0). */
  lemma NormalizeZero(sqrt: SqrtFn)
    requires IsSqrt(sqrt)
    ensures Normalize(Zero, sqrt) == Zero
  {
    SqrtZero(sqrt);
  }

  /** With a true square root, a non-zero vector normalizes to one of length one. */
  lemma NormalizedIsUnit(v: Vector2d, sqrt: SqrtFn)
    requires IsSqrt(sqrt) && v != Zero
    ensures SquaredMagnitude(Normalize(v, sqrt)) == 1.0
  {
    var s := SquaredMagnitude(v);
    SumOfSquares(v.x, v.y);
    SqrtOf(sqrt, s);
    SqrtPositive(sqrt, s);
    var m := Magnitude(v, sqrt);
    QuotientSquares(v.x, v.y, m);
  }

  /** The dot product is symmetric and linear in its first operand. */
  lemma DotBilinear(a: Vector2d, b: Vector2d, c: Vector2d, s: real)
    ensures Dot(a, b) == Dot(b, a)
    ensures Dot(AddVector(a, b), c) == Dot(a, c) + Dot(b, c)
    ensures Dot(ScaleVector(a, s), b) == s * Dot(a, b)
  {
  }

  /** A vector dotted with itself is its squared magnitude; with a true square root
      the magnitude is non-negative, squares to that, and is zero exactly for (0, 0). */
  lemma MagnitudeOfDot(v: Vector2d, sqrt: SqrtFn)
    requires IsSqrt(sqrt)
    ensures Dot(v, v) == SquaredMagnitude(v)
    ensures 0.0 <= Magnitude(v, sqrt) && Square(Magnitude(v, sqrt)) == Dot(v, v)
    ensures Magnitude(v, sqrt) == 0.0 <==> v == Zero
  {
    assert Dot(v, v) == SquaredMagnitude(v);
    MagnitudeRoot(v, sqrt);
    MagnitudeZeroIff(v, sqrt);
  }

  lemma MagnitudeRoot(v: Vector2d, sqrt: SqrtFn)
    requires IsSqrt(sqrt)
    ensures 0.0 <= Magnitude(v, sqrt) && Square(Magnitude(v, sqrt)) == SquaredMagnitude(v)
  {
    SumOfSquares(v.x, v.y);
    SqrtOf(sqrt, SquaredMagnitude(v));
  }

  lemma MagnitudeZeroIff(v: Vector2d, sqrt: SqrtFn)
    requires IsSqrt(sqrt)
    ensures Magnitude(v, sqrt) == 0.0 <==> v == Zero
  {
    SumOfSquares(v.x, v.y);
    if v == Zero {
      SqrtZero(sqrt);
    } else {
      SqrtPositive(sqrt, SquaredMagnitude(v));
    }
  }

  /** A vector object whose fields the in-place operators `+=` and `-=` update. */
  class MutableVector2d {
    var x: real
    var y: real

    /** `Vector2d(x, y)`. */
    constructor (x0: real, y0: real)
      ensures x == x0 && y == y0
    {
      x := x0;
      y := y0;
    }

    function Value(): Vector2d
      reads this
    {
      Vector2d(x, y)
    }

    /** `__iadd__`: adds in place and returns the same object. */
    method AddInPlace(other: Vector2d) returns (self: MutableVector2d)
      modifies this
      ensures self == this
      ensures Value() == AddVector(old(Value()), other)
    {
      x := x + other.x;
      y := y + other.y;
      self := this;
    }

    /** `__isub__`: subtracts in place and returns the same object. */
    method SubtractInPlace(other: Vector2d) returns (self: MutableVector2d)
      modifies this
      ensures self == this
      ensures Value() == SubtractVector(old(Value()), other)
    {
      x := x - other.x;
      y := y - other.y;
      self := this;
    }
  }
}
