/** Numeric helpers of the Python standard library that the geometry core relies on:
    `abs`, `max`, `min`, `math.isclose`, `round(x, 4)` and `math.sqrt`. Python floats
    are modelled as reals. */
module RealMath {

  /** `math.sqrt`, which Dafny cannot define on reals, is passed around as a
      function value; lemmas that need it to be a square root require `IsSqrt`. */
  type SqrtFn = real -> real

  ghost predicate IsSqrt(sqrt: SqrtFn) {
    forall x :: 0.0 <= x ==> 0.0 <= sqrt(x) && Square(sqrt(x)) == x
  }

  /** The identity. `Square` multiplies a value by `Id` of itself so that the
      solver reasons about the product like any other product of two terms. */
  function Id(x: real): real {
    x
  }

  function Square(x: real): real {
    x * Id(x)
  }

  lemma MulPositive(a: real, b: real)
    requires 0.0 < a && 0.0 < b
    ensures 0.0 < a * b
  {
  }

  lemma SquareNonNegative(x: real)
    ensures 0.0 <= Square(x)
  {
    if x != 0.0 {
      SquarePositive(x);
    }
  }

  lemma SquarePositive(x: real)
    requires x != 0.0
    ensures 0.0 < Square(x)
  {
    if x > 0.0 {
      MulPositive(x, x);
    } else {
      MulPositive(-x, -x);
    }
  }

  /** A sum of two squares is non-negative, and positive unless both terms are zero. */
  lemma SumOfSquares(a: real, b: real)
    ensures 0.0 <= Square(a) + Square(b)
    ensures a != 0.0 || b != 0.0 ==> 0.0 < Square(a) + Square(b)
  {
    SquareNonNegative(a);
    SquareNonNegative(b);
    if a != 0.0 {
      SquarePositive(a);
    } else if b != 0.0 {
      SquarePositive(b);
    }
  }

  /** The facts a true square root gives about one argument. */
  lemma SqrtOf(sqrt: SqrtFn, x: real)
    requires IsSqrt(sqrt) && 0.0 <= x
    ensures 0.0 <= sqrt(x) && Square(sqrt(x)) == x
  {
  }

  /** Squaring is monotone on non-negative reals. */
  lemma SquareMonotone(x: real, y: real)
    requires 0.0 <= x && 0.0 <= y && Square(x) <= Square(y)
    ensures x <= y
  {
    assert (x - y) * (x + y) == Square(x) - Square(y);
    if y < x {
      MulPositive(x - y, x + y);
    }
  }

  /** A square root is the only non-negative number with that square. */
  lemma SqrtUnique(sqrt: SqrtFn, x: real, r: real)
    requires IsSqrt(sqrt) && 0.0 <= r && Square(r) == x
    ensures sqrt(x) == r
  {
    SquareNonNegative(r);
    SqrtOf(sqrt, x);
    SquareMonotone(sqrt(x), r);
    SquareMonotone(r, sqrt(x));
  }

  lemma SqrtZero(sqrt: SqrtFn)
    requires IsSqrt(sqrt)
    ensures sqrt(0.0) == 0.0
  {
    SqrtUnique(sqrt, 0.0, 0.0);
  }

  /** The root of a positive number is positive. */
  lemma SqrtPositive(sqrt: SqrtFn, x: real)
    requires IsSqrt(sqrt) && 0.0 < x
    ensures 0.0 < sqrt(x)
  {
    SqrtOf(sqrt, x);
  }

  lemma SqrtMonotone(sqrt: SqrtFn, a: real, b: real)
    requires IsSqrt(sqrt) && 0.0 <= a <= b
    ensures sqrt(a) <= sqrt(b)
  {
    SqrtOf(sqrt, a);
    SqrtOf(sqrt, b);
    SquareMonotone(sqrt(a), sqrt(b));
  }

  /** Dividing both coordinates by the length m of (x, y) gives a unit vector. */
  lemma QuotientSquares(x: real, y: real, m: real)
    requires 0.0 < m && Square(m) == Square(x) + Square(y)
    ensures Square(x / m) + Square(y / m) == 1.0
  {
    SquarePositive(m);
    var M := Square(m);
    assert Square(x / m) == Square(x) / M;
    assert Square(y / m) == Square(y) / M;
    assert (Square(x) + Square(y)) / M == 1.0;
  }

  function Abs(x: real): (r: real)
    ensures 0.0 <= r && (r == x || r == -x)
  {
    if x < 0.0 then -x else x
  }

  /** Python's two-argument `max`: the first argument unless the second is larger. */
  function Max(a: real, b: real): (r: real)
    ensures a <= r && b <= r && (r == a || r == b)
  {
    if b > a then b else a
  }

  /** Python's two-argument `min`: the first argument unless the second is smaller. */
  function Min(a: real, b: real): (r: real)
    ensures r <= a && r <= b && (r == a || r == b)
  {
    if b < a then b else a
  }

  /** The default relative tolerance of `math.isclose`. */
  const RelTol: real := 0.000000001

  /** `math.isclose(a, b, abs_tol=absTol)` with the default relative tolerance. */
  predicate IsClose(a: real, b: real, absTol: real) {
    Abs(a - b) <= Max(RelTol * Max(Abs(a), Abs(b)), absTol)
  }

  lemma IsCloseSymmetric(a: real, b: real, t: real)
    ensures IsClose(a, b, t) == IsClose(b, a, t)
  {
  }

  /** Two values whose distance is within the absolute tolerance are close. */
  lemma IsCloseWithinTolerance(a: real, b: real, t: real)
    requires Abs(a - b) <= t
    ensures IsClose(a, b, t)
  {
  }

  /** For values of moderate size the relative tolerance never matters: closeness is
      exactly a distance of at most the absolute tolerance. */
  lemma IsCloseModerate(a: real, b: real, t: real)
    requires 0.01 <= t && Abs(a) <= 10000000.0 && Abs(b) <= 10000000.0
    ensures IsClose(a, b, t) <==> Abs(a - b) <= t
  {
  }

  // ----- round(x, 4) -----

  /** A real with at most four decimals. */
  predicate OnGrid(x: real) {
    (x * 10000.0).Floor as real == x * 10000.0
  }

  /** Python's rounding of a real to the nearest integer, ties to the even one. */
  function RoundHalfEven(k: real): (n: int)
    ensures Abs(n as real - k) <= 0.5
    ensures Abs(n as real - k) == 0.5 ==> n % 2 == 0
  {
    var f := k.Floor;
    var frac := k - f as real;
    if frac < 0.5 then f
    else if frac > 0.5 then f + 1
    else if f % 2 == 0 then f
    else f + 1
  }

  /** `round(x, 4)`: the nearest value with four decimals, ties to even. */
  function Round4(x: real): (r: real)
    ensures OnGrid(r)
    ensures Abs(r - x) <= 0.00005
    ensures OnGrid(x) ==> r == x
  {
    var n := RoundHalfEven(x * 10000.0);
    assert n as real / 10000.0 * 10000.0 == n as real;
    n as real / 10000.0
  }

  /** Rounding leaves four-decimal values unchanged, so rounding twice is rounding once. */
  lemma Round4OnGrid(x: real)
    requires OnGrid(x)
    ensures Round4(x) == x
  {
  }

  lemma Round4Idempotent(x: real)
    ensures Round4(Round4(x)) == Round4(x)
  {
    Round4OnGrid(Round4(x));
  }

  /** Four-decimal values are closed under the operations the core applies to
      already rounded coordinates. */
  lemma OnGridClosed(a: real, b: real)
    requires OnGrid(a) && OnGrid(b)
    ensures OnGrid(a + b) && OnGrid(a - b) && OnGrid(-a) && OnGrid(0.0)
  {
    var na, nb := (a * 10000.0).Floor, (b * 10000.0).Floor;
    OnGridOfInt(a + b, na + nb);
    OnGridOfInt(a - b, na - nb);
    OnGridOfInt(-a, -na);
    OnGridOfInt(0.0, 0);
  }

  /** A value whose ten-thousandfold is an integer has four decimals. */
  lemma OnGridOfInt(x: real, n: int)
    requires x * 10000.0 == n as real
    ensures OnGrid(x)
  {
  }

  lemma OnGridInt(n: int)
    ensures OnGrid(n as real)
  {
  }
}
