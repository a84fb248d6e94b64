/** Facts about real arithmetic and the library square root. */
module Reals {

  function Abs(x: real): real { if x < 0.0 then -x else x }
  function Min(a: real, b: real): real { if a <= b then a else b }
  function Max(a: real, b: real): real { if a >= b then a else b }

  /** `math.sqrt`, taken as given by its defining equation. */
  ghost predicate IsSqrt(sqrt: real -> real) {
    forall x :: x >= 0.0 ==> IsRootAt(sqrt, x)
  }

  // Mentioned to use the equation at one point.
  ghost predicate IsRootAt(sqrt: real -> real, x: real) {
    sqrt(x) >= 0.0 && sqrt(x) * sqrt(x) == x
  }

  lemma MulMonotone(a: real, b: real, c: real)
    requires a <= b && c >= 0.0
    ensures a * c <= b * c && c * a <= c * b
  {
  }

  lemma MulStrict(a: real, b: real, c: real)
    requires a < b && c > 0.0
    ensures a * c < b * c && c * a < c * b
  {
  }

  // Products sharing a factor are compared by name: written out, the solver factors the
  // comparison and loses what it knew about either side.
  lemma Order(s: real, t: real, v: real, p: real, q: real)
    requires v > 0.0 && p == s * v && q == t * v
    ensures p < q <==> s < t
    ensures p <= q <==> s <= t
  {
  }

  lemma SquareNonNegative(a: real)
    ensures a * a >= 0.0
  {
  }

  // Named, because the solver rewrites a literal `a * a > 0.0` to `a != 0.0` and then no
  // longer knows the product is positive.
  function Times(a: real, b: real): real { a * b }
  function Square(a: real): real { Times(a, a) }

  lemma TimesPositive(a: real, b: real)
    requires a > 0.0 && b > 0.0
    ensures Times(a, b) > 0.0
  {
  }

  lemma SquarePositive(a: real)
    requires a != 0.0
    ensures Square(a) > 0.0
  {
    if a > 0.0 {
      TimesPositive(a, a);
    } else {
      TimesPositive(-a, -a);
      assert Times(-a, -a) == Times(a, a);
    }
  }

  lemma SumOfSquares(a: real, b: real) returns (s: real)
    ensures s == a * a + b * b && s >= 0.0
    ensures a != 0.0 || b != 0.0 ==> s > 0.0
  {
    SquareNonNegative(a);
    SquareNonNegative(b);
    s := Square(a) + Square(b);
    if a != 0.0 { SquarePositive(a); }
    if b != 0.0 { SquarePositive(b); }
  }

  /** Comparing magnitudes through their squares. */
  lemma SquareRoots(a: real, b: real)
    requires b >= 0.0 && a * a <= b * b
    ensures -b <= a <= b
  {
    if a > b { MulMonotone(b, a, b); MulStrict(b, a, a); }
    var c := -a;
    assert c * c == a * a;
    if c > b { MulMonotone(b, c, b); MulStrict(b, c, c); }
  }

  lemma DivCancel(a: real, b: real)
    requires b != 0.0
    ensures a / b * b == a
  {
  }

  lemma DivMonotone(a: real, b: real, c: real)
    requires a <= b && c > 0.0
    ensures a / c <= b / c
  {
  }

  lemma DivAtMost(a: real, b: real, c: real)
    requires c > 0.0
    ensures a <= b * c <==> a / c <= b
  {
    DivCancel(a, c);
    if a / c <= b { MulMonotone(a / c, b, c); } else { MulStrict(b, a / c, c); }
  }
}
