/** `solve_quadratic_equation` of core/math/quadratic_equation.py: the real roots
    of a*x^2 + b*x + c = 0 from the discriminant. */
module Quadratic {
  import opened Wrappers
  import opened RealMath

  /** `get_discriminant`: b^2 - 4ac. */
  function Discriminant(a: real, b: real, c: real): real {
    Square(b) - 4.0 * a * c
  }

  /** The polynomial whose roots are sought. */
  function Polynomial(a: real, b: real, c: real, x: real): real {
    a * Square(x) + b * x + c
  }

  /** `(-b + sign * d) / (2 * a)` for a non-zero leading coefficient. */
  function Root(a: real, b: real, d: real, sign: real): (r: real)
    requires a != 0.0
    ensures 2.0 * a * r == -b + sign * d
  {
    (-b + sign * d) / (2.0 * a)
  }

  /** `get_two_components`: the root with -d first, then the one with +d; the
      division raises for a zero leading coefficient. */
  function TwoComponents(a: real, b: real, d: real): (r: Result<seq<real>>)
    ensures r.Err? <==> a == 0.0
    ensures r.Err? ==> r.error == ZeroDivisionError(DivisionByZero)
    ensures r.Ok? ==> r.value == [Root(a, b, d, -1.0), Root(a, b, d, 1.0)]
  {
    if 2.0 * a == 0.0 then Err(ZeroDivisionError(DivisionByZero))
    else Ok([Root(a, b, d, -1.0), Root(a, b, d, 1.0)])
  }

  /** `get_one_component`. */
  function OneComponent(a: real, b: real, d: real): (r: Result<seq<real>>)
    ensures r.Err? <==> a == 0.0
    ensures r.Err? ==> r.error == ZeroDivisionError(DivisionByZero)
    ensures r.Ok? ==> r.value == [Root(a, b, d, -1.0)]
  {
    if 2.0 * a == 0.0 then Err(ZeroDivisionError(DivisionByZero)) else Ok([Root(a, b, d, -1.0)])
  }

  /** `solve_quadratic_equation`: two roots for a positive discriminant, one for a
      zero one, None for a negative one; a zero `a` with a non-negative
      discriminant divides by zero. */
  function Solve(a: real, b: real, c: real, sqrt: SqrtFn): (r: Result<Option<seq<real>>>)
    ensures Discriminant(a, b, c) < 0.0 ==> r == Ok(None)
    ensures 0.0 <= Discriminant(a, b, c) && a == 0.0 ==> r == Err(ZeroDivisionError(DivisionByZero))
    ensures 0.0 <= Discriminant(a, b, c) && a != 0.0 ==> r.Ok? && r.value.Some?
    ensures r.Ok? && r.value.Some? ==> |r.value.value| == if Discriminant(a, b, c) > 0.0 then 2 else 1
  {
    var discriminant := Discriminant(a, b, c);
    if discriminant > 0.0 then
      var roots :- TwoComponents(a, b, sqrt(discriminant));
      Ok(Some(roots))
    else if discriminant == 0.0 then
      var roots :- OneComponent(a, b, sqrt(discriminant));
      Ok(Some(roots))
    else
      Ok(None)
  }

  // ----- properties -----

  /** Completing the square: 4a times the polynomial is (2ax + b)^2 minus the
      discriminant. */
  lemma CompletedSquare(a: real, b: real, c: real, x: real)
    ensures 4.0 * a * Polynomial(a, b, c, x) == Square(2.0 * a * x + b) - Discriminant(a, b, c)
  {
    assert Square(2.0 * a * x + b) == 4.0 * (a * a) * (x * x) + 4.0 * a * x * b + b * b;
  }

  /** A value that makes 2ax + b a square root of the discriminant is a root. */
  lemma RootFromSquare(a: real, b: real, c: real, x: real)
    requires a != 0.0 && Square(2.0 * a * x + b) == Discriminant(a, b, c)
    ensures Polynomial(a, b, c, x) == 0.0
  {
    CompletedSquare(a, b, c, x);
  }

  /** Two numbers with the same square are equal or opposite. */
  lemma SameSquare(y: real, s: real)
    requires Square(y) == Square(s)
    ensures y == s || y == -s
  {
    assert (y - s) * (y + s) == Square(y) - Square(s);
  }

  /** Every value `Solve` returns is a root of the polynomial. */
  lemma SolveFindsRoots(a: real, b: real, c: real, sqrt: SqrtFn)
    requires IsSqrt(sqrt)
    ensures var r := Solve(a, b, c, sqrt);
      r.Ok? && r.value.Some? ==> forall i :: 0 <= i < |r.value.value| ==> Polynomial(a, b, c, r.value.value[i]) == 0.0
  {
    var d := Discriminant(a, b, c);
    var r := Solve(a, b, c, sqrt);
    if r.Ok? && r.value.Some? {
      var s := sqrt(d);
      SqrtOf(sqrt, d);
      var x1 := Root(a, b, s, -1.0);
      assert 2.0 * a * x1 + b == -s;
      assert Square(-s) == Square(s);
      RootFromSquare(a, b, c, x1);
      if d > 0.0 {
        var x2 := Root(a, b, s, 1.0);
        assert 2.0 * a * x2 + b == s;
        RootFromSquare(a, b, c, x2);
      }
    }
  }

  /** Conversely, `Solve` misses no root: when a is not zero, every real root of the
      polynomial is among the values it returns. */
  lemma SolveFindsEveryRoot(a: real, b: real, c: real, sqrt: SqrtFn, x: real)
    requires IsSqrt(sqrt) && a != 0.0 && Polynomial(a, b, c, x) == 0.0
    ensures var r := Solve(a, b, c, sqrt); r.Ok? && r.value.Some? && x in r.value.value
  {
    var d := Discriminant(a, b, c);
    var y := 2.0 * a * x + b;
    CompletedSquare(a, b, c, x);
    assert Square(y) == d;
    SquareNonNegative(y);
    var s := sqrt(d);
    SqrtOf(sqrt, d);
    SameSquare(y, s);
    var roots := Solve(a, b, c, sqrt).value.value;
    if y == -s {
      CancelFactor(roots[0], x, 2.0 * a);
    } else {
      SqrtZero(sqrt);
      assert y == s && d != 0.0;
      CancelFactor(roots[1], x, 2.0 * a);
    }
  }

  lemma CancelFactor(x: real, y: real, k: real)
    requires k != 0.0 && k * x == k * y
    ensures x == y
  {
    assert k * (x - y) == 0.0;
  }

  /** For a positive leading coefficient the two roots come in ascending order. */
  lemma SolveAscending(a: real, b: real, c: real, sqrt: SqrtFn)
    requires IsSqrt(sqrt) && 0.0 < a && 0.0 < Discriminant(a, b, c)
    ensures var roots := Solve(a, b, c, sqrt).value.value; roots[0] < roots[1]
  {
    var d := Discriminant(a, b, c);
    SqrtPositive(sqrt, d);
    var roots := Solve(a, b, c, sqrt).value.value;
    assert 2.0 * a * roots[0] < 2.0 * a * roots[1];
  }
}
