/** Vectors and orientation in the pixel plane. */
module Plane {

  datatype Pt = Pt(x: real, y: real)

  function Minus(a: Pt, b: Pt): Pt {
    Pt(a.x - b.x, a.y - b.y)
  }

  function Neg(v: Pt): Pt {
    Pt(-v.x, -v.y)
  }

  /** The z-component of u x v. */
  function Wedge(u: Pt, v: Pt): real {
    u.x * v.y - u.y * v.x
  }

  /** `_cross(origin, a, b)`: positive when `b` lies left of the ray from `origin` to `a`. */
  function Cross(origin: Pt, a: Pt, b: Pt): real {
    (a.x - origin.x) * (b.y - origin.y) - (a.y - origin.y) * (b.x - origin.x)
  }

  /** The order `np.lexsort((y, x))` sorts by: x first, ties broken by y. */
  predicate Lex(a: Pt, b: Pt) {
    a.x < b.x || (a.x == b.x && a.y < b.y)
  }

  /** The sweep order: left to right for the lower half, right to left for the upper. */
  predicate Before(rightward: bool, a: Pt, b: Pt) {
    if rightward then Lex(a, b) else Lex(b, a)
  }

  predicate LexPositive(v: Pt) {
    v.x > 0.0 || (v.x == 0.0 && v.y > 0.0)
  }

  // ---- products of signed reals ------------------------------------------------------

  lemma ProductNonNegative(a: real, b: real)
    requires a >= 0.0 && b >= 0.0
    ensures a * b >= 0.0
  {
  }

  lemma ProductPositive(a: real, b: real)
    requires a > 0.0 && b > 0.0
    ensures a * b > 0.0
  {
  }

  lemma FactorNonNegative(a: real, b: real)
    requires a > 0.0 && a * b >= 0.0
    ensures b >= 0.0
  {
  }

  lemma FactorPositive(a: real, b: real)
    requires a > 0.0 && a * b > 0.0
    ensures b > 0.0
  {
  }

  // ---- orientation is transitive inside an open half-plane ------------------------------

  /** The identity behind every orientation fact: (u^w) v = (u^v) w + (v^w) u. */
  lemma WedgeIdentity(u: Pt, v: Pt, w: Pt)
    ensures Wedge(u, w) * v.x == Wedge(u, v) * w.x + Wedge(v, w) * u.x
    ensures Wedge(u, w) * v.y == Wedge(u, v) * w.y + Wedge(v, w) * u.y
  {
  }

  lemma UprightIsLeft(u: Pt, v: Pt)
    requires LexPositive(u) && v.x > 0.0
    ensures u.x > 0.0 || Wedge(u, v) < 0.0 < Wedge(v, u)
  {
    if u.x == 0.0 { ProductPositive(u.y, v.x); }
  }

  lemma WedgeTransitive(u: Pt, v: Pt, w: Pt)
    requires LexPositive(u) && LexPositive(v) && LexPositive(w)
    requires Wedge(u, v) >= 0.0 && Wedge(v, w) >= 0.0
    ensures Wedge(u, w) >= 0.0
    ensures Wedge(u, v) > 0.0 || Wedge(v, w) > 0.0 ==> Wedge(u, w) > 0.0
  {
    var p, q, r := Wedge(u, v), Wedge(v, w), Wedge(u, w);
    WedgeIdentity(u, v, w);
    ProductNonNegative(p, w.x);
    ProductNonNegative(q, u.x);
    if v.x > 0.0 {
      assert v.x * r == p * w.x + q * u.x;
      FactorNonNegative(v.x, r);
      // v leans right, so u cannot be vertical and w is vertical only when it turns.
      assert u.x > 0.0 by { UprightIsLeft(u, v); }
      if q > 0.0 {
        ProductPositive(q, u.x);
        FactorPositive(v.x, r);
      } else if p > 0.0 {
        assert w.x > 0.0 by { UprightIsLeft(w, v); }
        ProductPositive(p, w.x);
        FactorPositive(v.x, r);
      }
    } else {
      // v is straight up: nothing turns left of it except what leans further left.
      assert p == u.x * v.y && q == -(v.y * w.x);
      ProductNonNegative(v.y, w.x);
      assert w.x == 0.0 by { if w.x > 0.0 { ProductPositive(v.y, w.x); } }
      assert r == u.x * w.y;
      ProductNonNegative(u.x, w.y);
      if p > 0.0 {
        assert u.x > 0.0;
        ProductPositive(u.x, w.y);
      }
    }
  }

  lemma WedgeNeg(u: Pt, v: Pt)
    ensures Wedge(Neg(u), Neg(v)) == Wedge(u, v)
  {
  }

  /** The same for whichever way the sweep runs. */
  lemma SweepTransitive(rightward: bool, u: Pt, v: Pt, w: Pt)
    requires var z := Pt(0.0, 0.0); Before(rightward, z, u) && Before(rightward, z, v) && Before(rightward, z, w)
    requires Wedge(u, v) >= 0.0 && Wedge(v, w) >= 0.0
    ensures Wedge(u, w) >= 0.0
    ensures Wedge(u, v) > 0.0 || Wedge(v, w) > 0.0 ==> Wedge(u, w) > 0.0
  {
    if rightward {
      WedgeTransitive(u, v, w);
    } else {
      WedgeNeg(u, v); WedgeNeg(v, w); WedgeNeg(u, w);
      WedgeTransitive(Neg(u), Neg(v), Neg(w));
    }
  }

  // ---- what the sweep needs about four points met in order --------------------------------

  lemma CrossSplit(a: Pt, b: Pt, c: Pt, d: Pt)
    ensures Cross(a, b, d) == Cross(a, b, c) + Wedge(Minus(b, a), Minus(d, c))
  {
  }

  /** Turning left at b and at c, d lies left of a-b and of a-c. */
  lemma TurnsCompose(rightward: bool, a: Pt, b: Pt, c: Pt, d: Pt)
    requires Before(rightward, a, b) && Before(rightward, b, c) && Before(rightward, c, d)
    requires Cross(a, b, c) > 0.0 && Cross(b, c, d) > 0.0
    ensures Cross(a, b, d) > 0.0 && Cross(a, c, d) > 0.0
  {
    var u, v, w := Minus(b, a), Minus(c, b), Minus(d, c);
    assert Cross(a, b, c) == Wedge(u, v);
    assert Cross(b, c, d) == Wedge(v, w);
    SweepTransitive(rightward, u, v, w);
    CrossSplit(a, b, c, d);
    assert Cross(a, c, d) == Wedge(u, w) + Wedge(v, w);
  }

  /** q between s and t, above s-t; t above s-p: then q is above s-p. */
  lemma PoppedLeftPart(rightward: bool, s: Pt, q: Pt, t: Pt, p: Pt)
    requires Before(rightward, s, q) && Before(rightward, q, t) && Before(rightward, t, p)
    requires Cross(s, t, q) >= 0.0 && Cross(s, t, p) <= 0.0
    ensures Cross(s, p, q) >= 0.0
  {
    var u, w, v := Minus(t, s), Minus(p, t), Minus(q, s);
    assert Cross(s, t, q) == Wedge(u, v);
    assert Cross(s, t, p) == Wedge(u, w) == -Wedge(w, u);
    SweepTransitive(rightward, w, u, v);
    assert Cross(s, p, q) == Wedge(u, v) + Wedge(w, v);
  }

  /** q between t and p, above t-p; t above s-p: then q is above s-p. */
  lemma PoppedRightPart(rightward: bool, s: Pt, t: Pt, q: Pt, p: Pt)
    requires Before(rightward, s, t) && Before(rightward, t, q) && Before(rightward, q, p)
    requires Cross(t, p, q) >= 0.0 && Cross(s, t, p) <= 0.0
    ensures Cross(s, p, q) >= 0.0
  {
    var u, w, z := Minus(t, s), Minus(p, t), Minus(p, q);
    assert Cross(t, p, q) == Wedge(z, w);
    assert Cross(s, t, p) == Wedge(u, w) == -Wedge(w, u);
    SweepTransitive(rightward, z, w, u);
    assert Cross(s, p, q) == Wedge(z, u) + Wedge(z, w);
  }

  /** q before t, above s-t; p turns left at t: then q is above t-p. */
  lemma KeptPart(rightward: bool, s: Pt, q: Pt, t: Pt, p: Pt)
    requires Before(rightward, s, t) && Before(rightward, q, t) && Before(rightward, t, p)
    requires Cross(s, t, q) >= 0.0 && Cross(s, t, p) >= 0.0
    ensures Cross(t, p, q) >= 0.0
  {
    var u, w, r := Minus(t, s), Minus(p, t), Minus(t, q);
    assert Cross(s, t, q) == Wedge(r, u);
    assert Cross(s, t, p) == Wedge(u, w);
    SweepTransitive(rightward, r, u, w);
    assert Cross(t, p, q) == Wedge(r, w);
  }
}
