/** Where a pixel calibration may be believed: the hull margin and the refusal around it. */
module PixelMap {
  import opened Reals
  import opened Plane
  import opened ConvexHull
  import opened HullProperties

  const SHORTEST_EDGE := 0.000000001

  // ---- hull_margin_px ----------------------------------------------------------------------

  datatype Margin =
    | Px(value: real)
    | Degenerate  // fewer than three vertices: PixelMapError
    | NoEdge      // every edge was skipped: min() of an empty list raises

  function NormSq(v: Pt): real {
    v.x * v.x + v.y * v.y
  }

  /** `np.linalg.norm`. */
  function Norm(sqrt: real -> real, v: Pt): real {
    sqrt(NormSq(v))
  }

  lemma NormSquared(sqrt: real -> real, v: Pt)
    requires IsSqrt(sqrt)
    ensures Norm(sqrt, v) >= 0.0 && Norm(sqrt, v) * Norm(sqrt, v) == v.x * v.x + v.y * v.y
  {
    var s := SumOfSquares(v.x, v.y);
    assert IsRootAt(sqrt, NormSq(v));
  }

  function EdgeLength(sqrt: real -> real, hull: seq<Pt>, i: nat): real
    requires i < |hull|
  {
    Norm(sqrt, Minus(Next(hull, i), hull[i]))
  }

  predicate Skipped(sqrt: real -> real, hull: seq<Pt>, i: nat)
    requires i < |hull|
  {
    EdgeLength(sqrt, hull, i) < SHORTEST_EDGE
  }

  /** Signed distance from the line of edge i, positive to its left. */
  function EdgeMargin(sqrt: real -> real, hull: seq<Pt>, i: nat, point: Pt): real
    requires i < |hull| && !Skipped(sqrt, hull, i)
  {
    Wedge(Minus(Next(hull, i), hull[i]), Minus(point, hull[i])) / EdgeLength(sqrt, hull, i)
  }

  /** The answer is the least margin over the edges long enough to count. */
  ghost predicate IsMargin(sqrt: real -> real, hull: seq<Pt>, point: Pt, upTo: nat, m: Margin)
    requires upTo <= |hull|
  {
    match m
    case Degenerate => false
    case NoEdge => forall i :: 0 <= i < upTo ==> Skipped(sqrt, hull, i)
    case Px(v) =>
      && (exists i :: 0 <= i < upTo && !Skipped(sqrt, hull, i) && EdgeMargin(sqrt, hull, i, point) == v)
      && (forall i :: 0 <= i < upTo && !Skipped(sqrt, hull, i) ==> v <= EdgeMargin(sqrt, hull, i, point))
  }

  function LeastMargin(sqrt: real -> real, hull: seq<Pt>, point: Pt, upTo: nat): Margin
    requires upTo <= |hull|
  {
    if upTo == 0 then NoEdge else
      var rest := LeastMargin(sqrt, hull, point, upTo - 1);
      if Skipped(sqrt, hull, upTo - 1) then rest else
        var v := EdgeMargin(sqrt, hull, upTo - 1, point);
        if rest.Px? && rest.value <= v then rest else Px(v)
  }

  lemma {:induction false} LeastMarginIsLeast(sqrt: real -> real, hull: seq<Pt>, point: Pt, upTo: nat)
    requires upTo <= |hull|
    ensures IsMargin(sqrt, hull, point, upTo, LeastMargin(sqrt, hull, point, upTo))
  {
    if upTo > 0 {
      LeastMarginIsLeast(sqrt, hull, point, upTo - 1);
    }
  }

  function MarginOf(sqrt: real -> real, hull: seq<Pt>, point: Pt): Margin {
    if |hull| < 3 then Degenerate else LeastMargin(sqrt, hull, point, |hull|)
  }

  method HullMarginPx(sqrt: real -> real, point: Pt, hull: seq<Pt>) returns (m: Margin)
    ensures m == MarginOf(sqrt, hull, point)
  {
    if |hull| < 3 {
      return Degenerate;
    }
    m := NoEdge;
    for index := 0 to |hull|
      invariant m == LeastMargin(sqrt, hull, point, index)
    {
      var start, end := hull[index], Next(hull, index);
      var edge := Minus(end, start);
      var length := Norm(sqrt, edge);
      if length >= SHORTEST_EDGE {
        var offset := Minus(point, start);
        var margin := Wedge(edge, offset) / length;
        m := if m.Px? && m.value <= margin then m else Px(margin);
      }
    }
  }

  // ---- PixelJointMap.predict ---------------------------------------------------------------

  datatype Prediction<J> =
    | Predicted(joints: J, marginPx: real)
    | OutsideCalibratedRegion
    | Unusable  // PixelMapError or a raised min()

  function Predict<J>(sqrt: real -> real, hull: seq<Pt>, requiredPx: real, model: Pt -> J, pixel: Pt): Prediction<J> {
    match MarginOf(sqrt, hull, pixel)
    case Px(v) => if v < requiredPx then OutsideCalibratedRegion else Predicted(model(pixel), v)
    case Degenerate => Unusable
    case NoEdge => Unusable
  }

  ghost predicate Believed(sqrt: real -> real, hull: seq<Pt>, pixel: Pt) {
    var m := MarginOf(sqrt, hull, pixel);
    m.Px? && m.value >= 0.0
  }

  // ---- convex combinations of the taught pixels ----------------------------------------------

  datatype Share = Share(pixel: Pt, weight: real) {
    function AddedTo(rest: Pt): Pt {
      Pt(weight * pixel.x + rest.x, weight * pixel.y + rest.y)
    }
  }

  function Total(mix: seq<Share>): real {
    if mix == [] then 0.0 else mix[0].weight + Total(mix[1..])
  }

  function Blend(mix: seq<Share>): Pt {
    if mix == [] then Pt(0.0, 0.0) else mix[0].AddedTo(Blend(mix[1..]))
  }

  ghost predicate SharesOf(mix: seq<Share>, pixels: seq<Pt>) {
    forall i :: 0 <= i < |mix| ==> mix[i].pixel in pixels && mix[i].weight >= 0.0
  }

  /** The pixel lies among the taught ones: it is a weighted mean of some of them. */
  ghost predicate Taught(pixels: seq<Pt>, p: Pt) {
    exists mix :: SharesOf(mix, pixels) && Total(mix) == 1.0 && Blend(mix) == p
  }

  /** How far left of the direction `u` out of `a` the blend `p` of total weight `s` leans. */
  ghost function Lean(u: Pt, a: Pt, p: Pt, s: real): real {
    u.x * (p.y - s * a.y) - u.y * (p.x - s * a.x)
  }

  lemma {:induction false} BlendStaysLeft(a: Pt, b: Pt, mix: seq<Share>, pixels: seq<Pt>)
    requires SharesOf(mix, pixels)
    requires forall q :: q in pixels ==> Cross(a, b, q) >= 0.0
    ensures Lean(Minus(b, a), a, Blend(mix), Total(mix)) >= 0.0
  {
    if mix != [] {
      hide Lean, Cross, Minus, Share.AddedTo;
      BlendStaysLeft(a, b, mix[1..], pixels);
      LeanSplits(a, b, mix[0], Blend(mix[1..]), Total(mix[1..]));
    }
  }

  lemma LeanSplits(a: Pt, b: Pt, share: Share, rest: Pt, s: real)
    requires share.weight >= 0.0 && Cross(a, b, share.pixel) >= 0.0
    ensures Lean(Minus(b, a), a, share.AddedTo(rest), share.weight + s) >= Lean(Minus(b, a), a, rest, s)
  {
    var more := share.weight * Cross(a, b, share.pixel);
    ProductNonNegative(share.weight, Cross(a, b, share.pixel));
    assert Lean(Minus(b, a), a, share.AddedTo(rest), share.weight + s) == more + Lean(Minus(b, a), a, rest, s);
  }

  lemma TaughtIsLeft(pixels: seq<Pt>, p: Pt, a: Pt, b: Pt)
    requires Taught(pixels, p) && forall q :: q in pixels ==> Cross(a, b, q) >= 0.0
    ensures Cross(a, b, p) >= 0.0
  {
    hide Blend, Total, SharesOf;
    var mix :| SharesOf(mix, pixels) && Total(mix) == 1.0 && Blend(mix) == p;
    BlendStaysLeft(a, b, mix, pixels);
  }

  // ---- a point inside the polygon is such a combination ----------------------------------------

  lemma TriangleIsTaught(pixels: seq<Pt>, a: Pt, b: Pt, c: Pt, p: Pt)
    requires a in pixels && b in pixels && c in pixels && Cross(a, b, c) > 0.0
    requires Cross(a, b, p) >= 0.0 && Cross(b, c, p) >= 0.0 && Cross(c, a, p) >= 0.0
    ensures Taught(pixels, p)
  {
    var la, lb, lc := Barycentric(a, b, c, p);
    WeightedTriangle(pixels, a, b, c, p, la, lb, lc);
  }

  lemma WeightedTriangle(pixels: seq<Pt>, a: Pt, b: Pt, c: Pt, p: Pt, la: real, lb: real, lc: real)
    requires a in pixels && b in pixels && c in pixels
    requires la >= 0.0 && lb >= 0.0 && lc >= 0.0 && la + lb + lc == 1.0
    requires la * a.x + lb * b.x + lc * c.x == p.x && la * a.y + lb * b.y + lc * c.y == p.y
    ensures Taught(pixels, p)
  {
    var mix := [Share(a, la), Share(b, lb), Share(c, lc)];
    BlendOfThree(a, b, c, la, lb, lc);
    assert SharesOf(mix, pixels) && Total(mix) == 1.0 && Blend(mix) == p;
  }

  lemma BlendOfThree(a: Pt, b: Pt, c: Pt, la: real, lb: real, lc: real)
    ensures var mix := [Share(a, la), Share(b, lb), Share(c, lc)];
      && Total(mix) == la + lb + lc
      && Blend(mix).x == la * a.x + lb * b.x + lc * c.x
      && Blend(mix).y == la * a.y + lb * b.y + lc * c.y
  {
    var m1, m2 := [Share(c, lc)], [Share(b, lb), Share(c, lc)];
    assert m1[1..] == [] && m2[1..] == m1 && [Share(a, la), Share(b, lb), Share(c, lc)][1..] == m2;
    assert Blend([]) == Pt(0.0, 0.0) && Total([]) == 0.0;
    assert Blend(m1) == Pt(lc * c.x, lc * c.y) && Total(m1) == lc + Total([]);
    assert Blend(m2) == Pt(lb * b.x + lc * c.x, lb * b.y + lc * c.y);
  }

  lemma Barycentric(a: Pt, b: Pt, c: Pt, p: Pt) returns (la: real, lb: real, lc: real)
    requires Cross(a, b, c) > 0.0
    requires Cross(a, b, p) >= 0.0 && Cross(b, c, p) >= 0.0 && Cross(c, a, p) >= 0.0
    ensures la >= 0.0 && lb >= 0.0 && lc >= 0.0 && la + lb + lc == 1.0
    ensures la * a.x + lb * b.x + lc * c.x == p.x
    ensures la * a.y + lb * b.y + lc * c.y == p.y
  {
    var d, ka, kb, kc := Cross(a, b, c), Cross(b, c, p), Cross(c, a, p), Cross(a, b, p);
    la, lb, lc := ka / d, kb / d, kc / d;
    BarycentricIdentity(a, b, c, p);
    Fraction(ka, kb, kc, d, 1.0, 1.0, 1.0, 1.0);
    Fraction(ka, kb, kc, d, a.x, b.x, c.x, p.x);
    Fraction(ka, kb, kc, d, a.y, b.y, c.y, p.y);
    DivMonotone(0.0, ka, d);
    DivMonotone(0.0, kb, d);
    DivMonotone(0.0, kc, d);
  }

  lemma BarycentricIdentity(a: Pt, b: Pt, c: Pt, p: Pt)
    ensures var d := Cross(a, b, c); var ka, kb, kc := Cross(b, c, p), Cross(c, a, p), Cross(a, b, p);
      && ka + kb + kc == d
      && ka * a.x + kb * b.x + kc * c.x == d * p.x
      && ka * a.y + kb * b.y + kc * c.y == d * p.y
  {
  }

  lemma Fraction(ka: real, kb: real, kc: real, d: real, x: real, y: real, z: real, t: real)
    requires d > 0.0 && ka * x + kb * y + kc * z == d * t
    ensures ka / d * x + kb / d * y + kc / d * z == t
  {
    var la, lb, lc := ka / d, kb / d, kc / d;
    DivCancel(ka, d);
    DivCancel(kb, d);
    DivCancel(kc, d);
    assert (la * x + lb * y + lc * z) * d == la * d * x + lb * d * y + lc * d * z == d * t;
    assert (la * x + lb * y + lc * z - t) * d == 0.0;
  }

  /** Walking round from h[1], the point goes from left to right of the ray out of h[0]. */
  lemma {:induction false} FanSector(h: seq<Pt>, p: Pt, from: nat) returns (i: nat)
    requires 1 <= from < |h| - 1 && Cross(h[0], h[from], p) >= 0.0 && Cross(h[0], h[|h| - 1], p) <= 0.0
    ensures 1 <= i < |h| - 1 && Cross(h[0], h[i], p) >= 0.0 && Cross(h[0], h[i + 1], p) <= 0.0
    decreases |h| - from
  {
    if Cross(h[0], h[from + 1], p) <= 0.0 || from == |h| - 2 {
      i := from;
    } else {
      i := FanSector(h, p, from + 1);
    }
  }

  lemma FanTriangle(h: seq<Pt>, p: Pt) returns (i: nat)
    requires |h| >= 3 && LeftOfAll(h, p)
    ensures 1 <= i < |h| - 1
    ensures Cross(h[0], h[i], p) >= 0.0 && Cross(h[i], h[i + 1], p) >= 0.0 && Cross(h[i + 1], h[0], p) >= 0.0
  {
    var n := |h|;
    LeftOfNext(h, p, 0);
    LeftOfNext(h, p, n - 1);
    CrossFlips(h[0], h[n - 1], p);
    i := FanSector(h, p, 1);
    LeftOfNext(h, p, i);
    CrossFlips(h[0], h[i + 1], p);
  }

  lemma LeftOfNext(h: seq<Pt>, p: Pt, i: nat)
    requires LeftOfAll(h, p) && i < |h|
    ensures Cross(h[i], if i + 1 < |h| then h[i + 1] else h[0], p) >= 0.0
  {
    NextIs(h, i);
    assert LeftOfEdge(h, i, p);
  }

  lemma CrossFlips(a: Pt, b: Pt, p: Pt)
    ensures Cross(a, b, p) == -Cross(b, a, p)
  {
  }

  lemma InsideIsTaught(pixels: seq<Pt>, h: seq<Pt>, lower: seq<Pt>, upper: seq<Pt>, p: Pt)
    requires Closes(h, lower, upper) && |h| >= 3 && (forall i :: 0 <= i < |h| ==> h[i] in pixels)
    requires LeftOfAll(h, p)
    ensures Taught(pixels, p)
  {
    var i := FanTriangle(h, p);
    FanIsStrict(h, lower, upper, i);
    TriangleIsTaught(pixels, h[0], h[i], h[i + 1], p);
  }

  /** The hull polygon is exactly the set of weighted means of the taught pixels. */
  lemma HullIsTaughtRegion(pixels: seq<Pt>, p: Pt)
    requires |HullOf(pixels)| >= 3
    ensures LeftOfAll(HullOf(pixels), p) <==> Taught(pixels, p)
  {
    var h := HullOf(pixels);
    var lower, upper := GetChains(pixels);
    HullCoversInputs(pixels);
    if LeftOfAll(h, p) {
      InsideIsTaught(pixels, h, lower, upper, p);
    } else if Taught(pixels, p) {
      forall i | 0 <= i < |h| ensures LeftOfEdge(h, i, p) {
        forall q | q in pixels ensures Cross(h[i], Next(h, i), q) >= 0.0 {
          assert LeftOfAll(h, q) && LeftOfEdge(h, i, q);
        }
        TaughtIsLeft(pixels, p, h[i], Next(h, i));
      }
      assert false;
    }
  }

  // ---- the refusal ---------------------------------------------------------------------------

  ghost predicate NoSkippedEdge(sqrt: real -> real, hull: seq<Pt>) {
    forall i :: 0 <= i < |hull| ==> !Skipped(sqrt, hull, i)
  }

  /** The same, without the root: no side is shorter than a billionth of a pixel. */
  ghost predicate SidesAreLong(hull: seq<Pt>) {
    forall i :: 0 <= i < |hull| ==> NormSq(Minus(Next(hull, i), hull[i])) >= 0.000000001 * 0.000000001
  }

  lemma LongSidesAreMeasured(sqrt: real -> real, hull: seq<Pt>)
    requires IsSqrt(sqrt)
    ensures NoSkippedEdge(sqrt, hull) <==> SidesAreLong(hull)
  {
    forall i | 0 <= i < |hull|
      ensures Skipped(sqrt, hull, i) <==> NormSq(Minus(Next(hull, i), hull[i])) < 0.000000001 * 0.000000001
    {
      ShorterInSquares(sqrt, Minus(Next(hull, i), hull[i]));
    }
  }

  lemma ShorterInSquares(sqrt: real -> real, v: Pt)
    requires IsSqrt(sqrt)
    ensures Norm(sqrt, v) < 0.000000001 <==> NormSq(v) < 0.000000001 * 0.000000001
  {
    NormSquared(sqrt, v);
    ComparesInSquares(Norm(sqrt, v), 0.000000001);
  }

  lemma ComparesInSquares(a: real, b: real)
    requires a >= 0.0 && b > 0.0
    ensures a < b <==> a * a < b * b
  {
    var aa, ab, bb := a * a, a * b, b * b;
    Order(a, b, b, ab, bb);
    if a > 0.0 {
      Order(a, b, a, aa, ab);
    }
  }

  lemma EdgeMarginSign(sqrt: real -> real, hull: seq<Pt>, i: nat, p: Pt)
    requires i < |hull| && !Skipped(sqrt, hull, i)
    ensures EdgeMargin(sqrt, hull, i, p) >= 0.0 <==> LeftOfEdge(hull, i, p)
  {
    var c, length := Cross(hull[i], Next(hull, i), p), EdgeLength(sqrt, hull, i);
    assert c == Wedge(Minus(Next(hull, i), hull[i]), Minus(p, hull[i]));
    DivCancel(c, length);
    if c >= 0.0 { DivMonotone(0.0, c, length); } else { MulMonotone(c / length, c / length, length); }
  }

  /** Without its shortcut the margin is non-negative just inside the polygon; with it, just
      left of the edges that were measured. */
  lemma BelievedMeans(sqrt: real -> real, hull: seq<Pt>, p: Pt)
    requires |hull| >= 3
    ensures Believed(sqrt, hull, p) <==>
      (exists i :: 0 <= i < |hull| && !Skipped(sqrt, hull, i)) &&
      (forall i :: 0 <= i < |hull| && !Skipped(sqrt, hull, i) ==> LeftOfEdge(hull, i, p))
  {
    LeastMarginIsLeast(sqrt, hull, p, |hull|);
    forall i | 0 <= i < |hull| && !Skipped(sqrt, hull, i)
      ensures EdgeMargin(sqrt, hull, i, p) >= 0.0 <==> LeftOfEdge(hull, i, p)
    {
      EdgeMarginSign(sqrt, hull, i, p);
    }
  }

  /** `predict` never refuses a taught pixel at required margin 0 as outside the region; it
      answers it exactly when some hull edge is long enough to be measured. */
  lemma TaughtPixelsAreAnswered<J>(sqrt: real -> real, pixels: seq<Pt>, model: Pt -> J, p: Pt)
    requires p in pixels
    ensures var r := Predict(sqrt, HullOf(pixels), 0.0, model, p);
      && r != OutsideCalibratedRegion
      && (r.Predicted? <==> |HullOf(pixels)| >= 3 && exists i :: 0 <= i < |HullOf(pixels)| && !Skipped(sqrt, HullOf(pixels), i))
      && (r.Predicted? ==> r.joints == model(p))
  {
    var h := HullOf(pixels);
    HullCoversInputs(pixels);
    assert LeftOfAll(h, p);
    if |h| >= 3 {
      BelievedMeans(sqrt, h, p);
      LeastMarginIsLeast(sqrt, h, p, |h|);
    }
  }

  /** The margin falls no faster than the pixel moves: within d of p it is at least m - d. */
  lemma MarginIsLipschitz(sqrt: real -> real, hull: seq<Pt>, p: Pt, q: Pt, d: real)
    requires IsSqrt(sqrt) && MarginOf(sqrt, hull, p).Px?
    requires d >= 0.0 && (q.x - p.x) * (q.x - p.x) + (q.y - p.y) * (q.y - p.y) <= d * d
    ensures var m := MarginOf(sqrt, hull, q); m.Px? && m.value >= MarginOf(sqrt, hull, p).value - d
  {
    LeastMarginIsLeast(sqrt, hull, p, |hull|);
    LeastMarginIsLeast(sqrt, hull, q, |hull|);
    forall i | 0 <= i < |hull| && !Skipped(sqrt, hull, i)
      ensures EdgeMargin(sqrt, hull, i, q) >= EdgeMargin(sqrt, hull, i, p) - d
    {
      EdgeMarginIsLipschitz(sqrt, hull, i, p, q, d);
    }
  }

  lemma EdgeMarginIsLipschitz(sqrt: real -> real, hull: seq<Pt>, i: nat, p: Pt, q: Pt, d: real)
    requires IsSqrt(sqrt) && i < |hull| && !Skipped(sqrt, hull, i)
    requires d >= 0.0 && (q.x - p.x) * (q.x - p.x) + (q.y - p.y) * (q.y - p.y) <= d * d
    ensures EdgeMargin(sqrt, hull, i, q) >= EdgeMargin(sqrt, hull, i, p) - d
  {
    hide Norm, Next, Wedge, Minus;
    var e, r, length := Minus(Next(hull, i), hull[i]), Minus(p, q), EdgeLength(sqrt, hull, i);
    var mp, mq := Wedge(e, Minus(p, hull[i])), Wedge(e, Minus(q, hull[i]));
    NormSquared(sqrt, e);
    WedgeDifference(e, p, q, hull[i]);
    CauchySchwarz(e, r, length, d);
    DivAtMost(mp - mq, d, length);
    DivMinus(mp, mq, length);
  }

  lemma WedgeDifference(e: Pt, p: Pt, q: Pt, o: Pt)
    ensures Wedge(e, Minus(p, o)) - Wedge(e, Minus(q, o)) == Wedge(e, Minus(p, q))
    ensures var r := Minus(p, q);
      r.x * r.x + r.y * r.y == (q.x - p.x) * (q.x - p.x) + (q.y - p.y) * (q.y - p.y)
  {
  }

  lemma DivMinus(a: real, b: real, c: real)
    requires c > 0.0
    ensures (a - b) / c == a / c - b / c
  {
  }

  lemma CauchySchwarz(u: Pt, v: Pt, a: real, d: real)
    requires a >= 0.0 && d >= 0.0
    requires a * a == u.x * u.x + u.y * u.y && v.x * v.x + v.y * v.y <= d * d
    ensures Wedge(u, v) <= d * a
  {
    var wedge, dot, v2 := Wedge(u, v), u.x * v.x + u.y * v.y, v.x * v.x + v.y * v.y;
    assert wedge * wedge + dot * dot == (u.x * u.x + u.y * u.y) * v2;
    SquareNonNegative(dot);
    MulMonotone(v2, d * d, a * a);
    assert (d * a) * (d * a) == (d * d) * (a * a);
    ProductNonNegative(d, a);
    SquareRoots(wedge, d * a);
  }

  // ---- never extrapolate, and what the short-edge shortcut costs --------------------------------

  /** A margin of m reaches that far: every pixel within distance m is a mean of taught ones. */
  lemma MarginReachesInside(sqrt: real -> real, pixels: seq<Pt>, p: Pt, q: Pt)
    requires IsSqrt(sqrt) && NoSkippedEdge(sqrt, HullOf(pixels)) && Believed(sqrt, HullOf(pixels), p)
    requires var m := MarginOf(sqrt, HullOf(pixels), p).value;
      (q.x - p.x) * (q.x - p.x) + (q.y - p.y) * (q.y - p.y) <= m * m
    ensures Taught(pixels, q)
  {
    var h := HullOf(pixels);
    MarginIsLipschitz(sqrt, h, p, q, MarginOf(sqrt, h, p).value);
    BelievedMeans(sqrt, h, q);
    HullIsTaughtRegion(pixels, q);
  }

  lemma BelievedIsTaught(sqrt: real -> real, pixels: seq<Pt>, p: Pt)
    requires |HullOf(pixels)| >= 3 && NoSkippedEdge(sqrt, HullOf(pixels))
    ensures Believed(sqrt, HullOf(pixels), p) <==> Taught(pixels, p)
  {
    assert !Skipped(sqrt, HullOf(pixels), 0);
    BelievedMeans(sqrt, HullOf(pixels), p);
    HullIsTaughtRegion(pixels, p);
  }

  lemma AnsweredIsTaught<J>(sqrt: real -> real, pixels: seq<Pt>, requiredPx: real, model: Pt -> J, p: Pt)
    requires requiredPx >= 0.0 && NoSkippedEdge(sqrt, HullOf(pixels)) && Predict(sqrt, HullOf(pixels), requiredPx, model, p).Predicted?
    ensures Taught(pixels, p)
  {
    hide HullOf, Taught, LeastMargin, Skipped;
    assert Believed(sqrt, HullOf(pixels), p);
    BelievedIsTaught(sqrt, pixels, p);
  }

  /** "Never extrapolate" holds of a calibration exactly when no hull edge is so short that
      the margin skips it: shorter than 1e-9 px. */
  lemma NeverExtrapolatesExactly(sqrt: real -> real, pixels: seq<Pt>)
    requires IsSqrt(sqrt) && |HullOf(pixels)| >= 3
    ensures (forall p :: Believed(sqrt, HullOf(pixels), p) <==> Taught(pixels, p))
      <==> SidesAreLong(HullOf(pixels))
  {
    var h := HullOf(pixels);
    LongSidesAreMeasured(sqrt, h);
    if NoSkippedEdge(sqrt, h) {
      forall p ensures Believed(sqrt, h, p) <==> Taught(pixels, p) {
        BelievedIsTaught(sqrt, pixels, p);
      }
    } else {
      var e :| 0 <= e < |h| && Skipped(sqrt, h, e);
      var p := SkippedEdgeMisjudges(sqrt, pixels, e);
    }
  }

  lemma SkippedEdgeMisjudges(sqrt: real -> real, pixels: seq<Pt>, e: nat) returns (p: Pt)
    requires IsSqrt(sqrt) && |HullOf(pixels)| >= 3 && e < |HullOf(pixels)| && Skipped(sqrt, HullOf(pixels), e)
    ensures Believed(sqrt, HullOf(pixels), p) != Taught(pixels, p)
  {
    var h := HullOf(pixels);
    if exists i :: 0 <= i < |h| && !Skipped(sqrt, h, i) {
      p := JustOutside(pixels, e);
    } else {
      p := h[0];
      HullCoversInputs(pixels);
      assert h[0] in h;
    }
    BelievedMeans(sqrt, h, p);
    HullIsTaughtRegion(pixels, p);
  }

  function Along(mid: Pt, out: Pt, k: real): Pt {
    Pt(mid.x + k * out.x, mid.y + k * out.y)
  }

  function Midpoint(a: Pt, b: Pt): Pt {
    Pt((a.x + b.x) / 2.0, (a.y + b.y) / 2.0)
  }

  /** A pixel beyond edge e alone: left of every other edge, right of that one. */
  lemma JustOutside(pixels: seq<Pt>, e: nat) returns (p: Pt)
    requires |HullOf(pixels)| >= 3 && e < |HullOf(pixels)|
    ensures var h := HullOf(pixels);
      && !LeftOfEdge(h, e, p)
      && forall i :: 0 <= i < |h| && i != e ==> LeftOfEdge(h, i, p)
  {
    var h := HullOf(pixels);
    var lower, upper := GetChains(pixels);
    HullCoversInputs(pixels);
    assert forall i :: 0 <= i < |h| ==> h[i] in h;
    var a, b := h[e], Next(h, e);
    EdgeDirection(h, lower, upper, e);
    var mid, out := Midpoint(a, b), Pt(b.y - a.y, a.x - b.x);
    forall i | 0 <= i < |h| && i != e ensures Cross(h[i], Next(h, i), mid) > 0.0 {
      MidpointIsInside(h, lower, upper, i, e);
    }
    var k := SmallEnough(h, e, mid, out, |h|);
    p := Along(mid, out, k);
    PushedOut(a, b, k);
  }

  lemma MidpointIsInside(h: seq<Pt>, lower: seq<Pt>, upper: seq<Pt>, i: nat, e: nat)
    requires Closes(h, lower, upper) && |h| >= 3 && i < |h| && e < |h| && i != e
    requires forall j :: 0 <= j < |h| ==> LeftOfAll(h, h[j])
    ensures Cross(h[i], Next(h, i), Midpoint(h[e], Next(h, e))) > 0.0
  {
    EdgesAreIndependent(h, lower, upper, i, e);
    assert LeftOfAll(h, h[e]) && LeftOfAll(h, h[(e + 1) % |h|]);
    assert LeftOfEdge(h, i, h[e]) && LeftOfEdge(h, i, Next(h, e));
    CrossAtMidpoint(h[i], Next(h, i), h[e], Next(h, e));
  }

  lemma CrossAtMidpoint(a: Pt, b: Pt, s: Pt, t: Pt)
    ensures Cross(a, b, Midpoint(s, t)) == (Cross(a, b, s) + Cross(a, b, t)) / 2.0
  {
  }

  lemma PushedOut(a: Pt, b: Pt, k: real)
    requires a != b && k > 0.0
    ensures Cross(a, b, Along(Midpoint(a, b), Pt(b.y - a.y, a.x - b.x), k)) < 0.0
  {
    var out := Pt(b.y - a.y, a.x - b.x);
    CrossAlong(a, b, Midpoint(a, b), out, k);
    CrossAtMidpoint(a, b, a, b);
    assert a.x != b.x || a.y != b.y;
    var length2 := OutwardIsRight(Minus(b, a), out);
    MulStrict(0.0, length2, k);
  }

  lemma OutwardIsRight(u: Pt, out: Pt) returns (length2: real)
    requires out.x == u.y && out.y == -u.x && (u.x != 0.0 || u.y != 0.0)
    ensures length2 > 0.0 && Wedge(u, out) == -length2
  {
    length2 := SumOfSquares(u.x, u.y);
  }

  /** A step short enough to stay left of each of the first n edges other than e. */
  lemma {:induction false} SmallEnough(h: seq<Pt>, e: nat, mid: Pt, out: Pt, n: nat) returns (k: real)
    requires n <= |h| && forall i :: 0 <= i < |h| && i != e ==> Cross(h[i], Next(h, i), mid) > 0.0
    ensures k > 0.0
    ensures forall i :: 0 <= i < n && i != e ==> LeftOfEdge(h, i, Along(mid, out, k))
  {
    if n == 0 {
      k := 1.0;
    } else {
      var k0 := SmallEnough(h, e, mid, out, n - 1);
      if n - 1 == e {
        k := k0;
      } else {
        k := ShortStep(h, n - 1, mid, out, k0);
      }
      forall i | 0 <= i < n - 1 && i != e ensures LeftOfEdge(h, i, Along(mid, out, k)) {
        ShorterStaysLeft(h, i, mid, out, k, k0);
      }
    }
  }

  lemma ShortStep(h: seq<Pt>, i: nat, mid: Pt, out: Pt, k0: real) returns (k: real)
    requires i < |h| && Cross(h[i], Next(h, i), mid) > 0.0 && k0 > 0.0
    ensures 0.0 < k <= k0 && LeftOfEdge(h, i, Along(mid, out, k))
  {
    var f, g := Cross(h[i], Next(h, i), mid), Wedge(Minus(Next(h, i), h[i]), out);
    if g >= 0.0 {
      k := k0;
      ProductNonNegative(k, g);
    } else {
      var most := f / -g;
      DivCancel(f, -g);
      k := Min(k0, most);
      if most <= 0.0 { MulMonotone(most, 0.0, -g); }
      MulMonotone(k, most, -g);
      assert k * -g == -(k * g);
    }
    CrossAlong(h[i], Next(h, i), mid, out, k);
  }

  lemma CrossAlong(a: Pt, b: Pt, mid: Pt, out: Pt, k: real)
    ensures Cross(a, b, Along(mid, out, k)) == Cross(a, b, mid) + k * Wedge(Minus(b, a), out)
  {
  }

  lemma ShorterStaysLeft(h: seq<Pt>, i: nat, mid: Pt, out: Pt, k: real, k0: real)
    requires i < |h| && 0.0 < k <= k0 && Cross(h[i], Next(h, i), mid) > 0.0 && LeftOfEdge(h, i, Along(mid, out, k0))
    ensures LeftOfEdge(h, i, Along(mid, out, k))
  {
    var g := Wedge(Minus(Next(h, i), h[i]), out);
    CrossAlong(h[i], Next(h, i), mid, out, k);
    CrossAlong(h[i], Next(h, i), mid, out, k0);
    if g >= 0.0 {
      ProductNonNegative(k, g);
    } else {
      MulMonotone(k, k0, -g);
      assert k * -g == -(k * g) && k0 * -g == -(k0 * g);
    }
  }

  // ---- the margin is a distance ----------------------------------------------------------------------

  ghost predicate Near(p: Pt, q: Pt, d: real) {
    (q.x - p.x) * (q.x - p.x) + (q.y - p.y) * (q.y - p.y) <= d * d
  }

  lemma NearIsNearer(p: Pt, q: Pt, d: real, more: real)
    requires Near(p, q, d) && 0.0 <= d <= more
    ensures Near(p, q, more)
  {
    MulMonotone(d, more, d);
    MulMonotone(d, more, more);
    assert d * d <= more * d && d * more <= more * more;
  }

  /** Every pixel within `r` is among the taught ones. */
  ghost predicate Surrounded(pixels: seq<Pt>, p: Pt, r: real) {
    forall q :: Near(p, q, r) ==> Taught(pixels, q)
  }

  /** The margin is the distance to the nearest edge: a disc round a believed pixel holds taught pixels
      only, if and only if its radius is at most the margin. */
  lemma MarginIsTheDistance(sqrt: real -> real, pixels: seq<Pt>, p: Pt, r: real)
    requires IsSqrt(sqrt) && NoSkippedEdge(sqrt, HullOf(pixels)) && Believed(sqrt, HullOf(pixels), p) && r >= 0.0
    ensures Surrounded(pixels, p, r) <==> r <= MarginOf(sqrt, HullOf(pixels), p).value
  {
    var h := HullOf(pixels);
    var m := MarginOf(sqrt, h, p).value;
    if r <= m {
      forall q | Near(p, q, r) ensures Taught(pixels, q) {
        NearIsNearer(p, q, r, m);
        MarginReachesInside(sqrt, pixels, p, q);
      }
    } else {
      LeastMarginIsLeast(sqrt, h, p, |h|);
      var i :| 0 <= i < |h| && !Skipped(sqrt, h, i) && EdgeMargin(sqrt, h, i, p) == m;
      var q := PushedThrough(sqrt, h, i, p, r);
      EdgeMarginSign(sqrt, h, i, q);
      assert !LeftOfEdge(h, i, q);
      HullIsTaughtRegion(pixels, q);
    }
  }

  /** Straight across an edge, the margin to it falls by the whole way gone. */
  lemma PushedThrough(sqrt: real -> real, hull: seq<Pt>, i: nat, p: Pt, r: real) returns (q: Pt)
    requires IsSqrt(sqrt) && i < |hull| && !Skipped(sqrt, hull, i)
    ensures Near(p, q, r) && EdgeMargin(sqrt, hull, i, q) == EdgeMargin(sqrt, hull, i, p) - r
  {
    hide Norm, Next;
    var e, length := Minus(Next(hull, i), hull[i]), EdgeLength(sqrt, hull, i);
    NormSquared(sqrt, e);
    var k := r / length;
    q := Along(p, Pt(e.y, -e.x), k);
    DivCancel(r, length);
    StepAcross(e, p, k, length, r);
    var mp, mq := Wedge(e, Minus(p, hull[i])), Wedge(e, Minus(q, hull[i]));
    WedgeDifference(e, p, q, hull[i]);
    DivMinus(mp, r * length, length);
    assert r * length / length == r;
  }

  lemma StepAcross(e: Pt, p: Pt, k: real, length: real, r: real)
    requires length * length == e.x * e.x + e.y * e.y && k * length == r
    ensures var q := Along(p, Pt(e.y, -e.x), k); Near(p, q, r) && Wedge(e, Minus(p, q)) == r * length
  {
    assert (k * e.y) * (k * e.y) + (k * e.x) * (k * e.x) == (k * k) * (length * length) == r * r;
    assert e.x * (k * e.x) + e.y * (k * e.y) == k * (length * length) == r * length;
  }

  /** Outside, the margin falls short of no taught pixel: none is nearer than it says. */
  lemma NoTaughtPixelIsNearer(sqrt: real -> real, pixels: seq<Pt>, p: Pt, q: Pt, d: real)
    requires IsSqrt(sqrt) && |HullOf(pixels)| >= 3 && NoSkippedEdge(sqrt, HullOf(pixels))
    requires Taught(pixels, q) && d >= 0.0 && Near(p, q, d)
    ensures d >= -MarginOf(sqrt, HullOf(pixels), p).value
  {
    var h := HullOf(pixels);
    BelievedIsTaught(sqrt, pixels, q);
    MarginIsLipschitz(sqrt, h, q, p, d);
  }

  /** What a required margin asks for: with no skipped edge, `predict` answers exactly the pixels that
      have every pixel within the required distance among the taught ones, and says how much is left. */
  lemma AnswersKeepTheirDistance<J>(sqrt: real -> real, pixels: seq<Pt>, requiredPx: real, model: Pt -> J, p: Pt)
    requires IsSqrt(sqrt) && |HullOf(pixels)| >= 3 && NoSkippedEdge(sqrt, HullOf(pixels)) && requiredPx >= 0.0
    ensures var answer := Predict(sqrt, HullOf(pixels), requiredPx, model, p);
      && (answer.Predicted? <==> Surrounded(pixels, p, requiredPx))
      && (answer.Predicted? ==> answer.joints == model(p))
      && (answer.Predicted? ==> forall r :: r >= 0.0 ==> (r <= answer.marginPx <==> Surrounded(pixels, p, r)))
      && (!answer.Predicted? ==> answer == OutsideCalibratedRegion)
  {
    hide HullOf, Taught, Surrounded;
    var h := HullOf(pixels);
    LeastMarginIsLeast(sqrt, h, p, |h|);
    assert !Skipped(sqrt, h, 0);
    BelievedIsTaught(sqrt, pixels, p);
    if Believed(sqrt, h, p) {
      forall r | r >= 0.0 ensures r <= MarginOf(sqrt, h, p).value <==> Surrounded(pixels, p, r) {
        MarginIsTheDistance(sqrt, pixels, p, r);
      }
    } else {
      NotSurrounded(pixels, p, requiredPx);
    }
  }

  lemma NotSurrounded(pixels: seq<Pt>, p: Pt, r: real)
    requires !Taught(pixels, p)
    ensures !Surrounded(pixels, p, r)
  {
    SquareNonNegative(r);
    assert Near(p, p, r);
  }

  // ---- a sliver the shortcut gets wrong -----------------------------------------------------------

  lemma HalfStep(points: seq<Pt>, p: Pt)
    ensures HalfOf(points + [p]) == Push(HalfOf(points), p)
  {
    assert (points + [p])[..|points|] == points;
  }

  lemma HalfOfThree(p: Pt, q: Pt, r: Pt)
    ensures HalfOf([p, q, r]) == if Cross(p, q, r) <= 0.0 then [p, r] else [p, q, r]
  {
    hide Cross;
    HalfStep([], p);
    HalfStep([p], q);
    HalfStep([p, q], r);
    assert [] + [p] == [p] && [p] + [q] == [p, q] && [p, q] + [r] == [p, q, r];
    PushOntoTwo(p, q, r);
  }

  lemma PushOntoTwo(p: Pt, q: Pt, r: Pt)
    ensures Push([], p) == [p] && Push([p], q) == [p, q]
    ensures Push([p, q], r) == if Cross(p, q, r) <= 0.0 then [p, r] else [p, q, r]
  {
    hide Cross;
    assert [p, q][..1] == [p];
  }

  lemma DistinctTriangle(a: Pt, b: Pt, c: Pt)
    requires Lex(a, b) && Lex(b, c)
    ensures Distinct([a, b, c]) == [a, b, c]
  {
    assert [a, b, c][1..] == [b, c] && [b, c][1..] == [c] && [c][1..] == [];
    assert Distinct([c]) == [c];
    assert Distinct([b, c]) == [b, c];
  }

  lemma TriangleIsItsHull(a: Pt, b: Pt, c: Pt)
    requires Lex(a, b) && Lex(b, c) && Cross(a, b, c) > 0.0
    ensures HullOf([a, b, c]) == [a, b, c]
  {
    var points := [a, b, c];
    DistinctTriangle(a, b, c);
    assert Reversed(points) == [c, b, a] by {
      assert Reversed(points)[0] == points[2] && Reversed(points)[1] == points[1] && Reversed(points)[2] == points[0];
    }
    HalfOfThree(a, b, c);
    HalfOfThree(c, b, a);
    CrossFlips(c, b, a);
    CrossRotates(a, b, c);
  }

  lemma MiddleEdgeSkipped(sqrt: real -> real, a: Pt, b: Pt, c: Pt, p: Pt)
    requires Norm(sqrt, Minus(b, a)) >= SHORTEST_EDGE > Norm(sqrt, Minus(c, b))
    requires Norm(sqrt, Minus(a, c)) >= SHORTEST_EDGE
    requires Cross(a, b, p) >= 0.0 && Cross(b, c, p) < 0.0 && Cross(c, a, p) >= 0.0
    ensures Believed(sqrt, [a, b, c], p) && !LeftOfAll([a, b, c], p)
  {
    var h := [a, b, c];
    NextIs(h, 0);
    NextIs(h, 1);
    NextIs(h, 2);
    assert !Skipped(sqrt, h, 0) && Skipped(sqrt, h, 1) && !Skipped(sqrt, h, 2);
    assert LeftOfEdge(h, 0, p) && !LeftOfEdge(h, 1, p) && LeftOfEdge(h, 2, p);
    BelievedMeans(sqrt, h, p);
  }

  lemma NormBounds(sqrt: real -> real, v: Pt, b: real)
    requires IsSqrt(sqrt) && b >= 0.0
    ensures v.x * v.x + v.y * v.y >= b * b ==> Norm(sqrt, v) >= b
    ensures v.x * v.x + v.y * v.y <= b * b ==> Norm(sqrt, v) <= b
  {
    var n := Norm(sqrt, v);
    NormSquared(sqrt, v);
    if n * n >= b * b { SquareRoots(b, n); }
    if n * n <= b * b { SquareRoots(n, b); }
  }

  /** Three taught pixels whose calibration answers, at margin 0, for a pixel twice as far
      out as any of them. */
  lemma SliverExtrapolates(sqrt: real -> real)
    requires IsSqrt(sqrt)
    ensures var pixels := [Pt(0.0, 0.0), Pt(1.0, 0.0), Pt(1.0, 0.0000000001)];
      Believed(sqrt, HullOf(pixels), Pt(2.0, 0.0)) && !Taught(pixels, Pt(2.0, 0.0))
  {
    var a, b, c, p := Pt(0.0, 0.0), Pt(1.0, 0.0), Pt(1.0, 0.0000000001), Pt(2.0, 0.0);
    SliverNorms(sqrt, a, b, c);
    SliverSides(a, b, c, p);
    SliverCase(sqrt, a, b, c, p);
  }

  lemma SliverSides(a: Pt, b: Pt, c: Pt, p: Pt)
    requires a == Pt(0.0, 0.0) && b == Pt(1.0, 0.0) && c == Pt(1.0, 0.0000000001) && p == Pt(2.0, 0.0)
    ensures Lex(a, b) && Lex(b, c) && Cross(a, b, c) > 0.0
    ensures Cross(a, b, p) >= 0.0 && Cross(b, c, p) < 0.0 && Cross(c, a, p) >= 0.0
  {
  }

  lemma SliverCase(sqrt: real -> real, a: Pt, b: Pt, c: Pt, p: Pt)
    requires Lex(a, b) && Lex(b, c) && Cross(a, b, c) > 0.0
    requires Norm(sqrt, Minus(b, a)) >= SHORTEST_EDGE > Norm(sqrt, Minus(c, b))
    requires Norm(sqrt, Minus(a, c)) >= SHORTEST_EDGE
    requires Cross(a, b, p) >= 0.0 && Cross(b, c, p) < 0.0 && Cross(c, a, p) >= 0.0
    ensures Believed(sqrt, HullOf([a, b, c]), p) && !Taught([a, b, c], p)
  {
    TriangleIsItsHull(a, b, c);
    MiddleEdgeSkipped(sqrt, a, b, c, p);
    HullIsTaughtRegion([a, b, c], p);
  }

  lemma SliverNorms(sqrt: real -> real, a: Pt, b: Pt, c: Pt)
    requires IsSqrt(sqrt) && a == Pt(0.0, 0.0) && b == Pt(1.0, 0.0) && c == Pt(1.0, 0.0000000001)
    ensures Norm(sqrt, Minus(b, a)) >= SHORTEST_EDGE > Norm(sqrt, Minus(c, b))
    ensures Norm(sqrt, Minus(a, c)) >= SHORTEST_EDGE
  {
    UnitOrMore(sqrt, Minus(b, a));
    UnitOrMore(sqrt, Minus(a, c));
    Tiny(sqrt, Minus(c, b));
  }

  lemma UnitOrMore(sqrt: real -> real, v: Pt)
    requires IsSqrt(sqrt) && (v.x == 1.0 || v.x == -1.0)
    ensures Norm(sqrt, v) >= SHORTEST_EDGE
  {
    SquareNonNegative(v.y);
    NormBounds(sqrt, v, 1.0);
  }

  lemma Tiny(sqrt: real -> real, v: Pt)
    requires IsSqrt(sqrt) && v.x == 0.0 && v.y == 0.0000000001
    ensures Norm(sqrt, v) < SHORTEST_EDGE
  {
    NormBounds(sqrt, v, v.y);
  }
}
