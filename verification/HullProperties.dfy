/** What the closed hull polygon guarantees about the pixels it was built from. */
module HullProperties {
  import opened Plane
  import opened ConvexHull

  function Next(hull: seq<Pt>, i: nat): Pt
    requires i < |hull|
  {
    hull[(i + 1) % |hull|]
  }

  lemma NextIs(hull: seq<Pt>, i: nat)
    requires i < |hull|
    ensures Next(hull, i) == if i + 1 < |hull| then hull[i + 1] else hull[0]
  {
    if i + 1 == |hull| { assert (i + 1) % |hull| == 0; } else { assert (i + 1) % |hull| == i + 1; }
  }

  predicate LeftOfEdge(hull: seq<Pt>, i: nat, q: Pt)
    requires i < |hull|
  {
    Cross(hull[i], Next(hull, i), q) >= 0.0
  }

  predicate LeftOfAll(hull: seq<Pt>, q: Pt) {
    forall i :: 0 <= i < |hull| ==> LeftOfEdge(hull, i, q)
  }

  /** A closed polygon made of a lower and an upper chain that meet at both ends. */
  ghost predicate Closes(hull: seq<Pt>, lower: seq<Pt>, upper: seq<Pt>) {
    && |lower| >= 2 && |upper| >= 2
    && hull == lower[..|lower| - 1] + upper[..|upper| - 1]
    && lower[|lower| - 1] == upper[0] && upper[|upper| - 1] == lower[0]
    && InOrder(true, lower) && InOrder(false, upper)
    && TurnsLeft(lower) && TurnsLeft(upper)
  }

  ghost predicate Encloses(pixels: seq<Pt>, lower: seq<Pt>, upper: seq<Pt>) {
    && Covers(lower, pixels) && Covers(upper, pixels)
    && (forall q :: q in lower ==> q in pixels)
    && (forall q :: q in upper ==> q in pixels)
  }

  lemma ReversedIsInOrder(points: seq<Pt>)
    requires InOrder(true, points)
    ensures InOrder(false, Reversed(points))
  {
    var back, n := Reversed(points), |points|;
    forall i, j | 0 <= i < j < n ensures Before(false, back[i], back[j]) {
      assert back[i] == points[n - 1 - i] && back[j] == points[n - 1 - j];
      assert Before(true, points[n - 1 - j], points[n - 1 - i]);
    }
  }

  lemma SameMembersCovered(rightward: bool, chain: seq<Pt>, points: seq<Pt>, pixels: seq<Pt>)
    requires HalfChain(rightward, chain, points)
    requires forall q :: q in points <==> q in pixels
    ensures InOrder(rightward, chain) && TurnsLeft(chain) && Covers(chain, pixels)
    ensures forall q :: q in chain ==> q in pixels
  {
  }

  lemma GetChains(pixels: seq<Pt>) returns (lower: seq<Pt>, upper: seq<Pt>)
    requires |Distinct(pixels)| >= 3
    ensures Closes(HullOf(pixels), lower, upper) && Encloses(pixels, lower, upper)
  {
    var points := Distinct(pixels);
    var back := Reversed(points);
    ReversedIsInOrder(points);
    HalfIsCorrect(true, points);
    HalfIsCorrect(false, back);
    lower, upper := HalfOf(points), HalfOf(back);
    SameMembersCovered(true, lower, points, pixels);
    SameMembersCovered(false, upper, back, pixels);
  }

  /** Every cyclic hull edge is an edge of the lower or of the upper chain. */
  lemma EdgeOfChain(hull: seq<Pt>, lower: seq<Pt>, upper: seq<Pt>, i: nat)
    requires Closes(hull, lower, upper) && i < |hull|
    ensures var k := |lower| - 1;
      && |hull| == k + |upper| - 1
      && hull[0] == lower[0]
      && if i < k then hull[i] == lower[i] && Next(hull, i) == lower[i + 1]
         else hull[i] == upper[i - k] && Next(hull, i) == upper[i - k + 1]
  {
    hide Cross, Before, InOrder, TurnsLeft;
    var n, k := |hull|, |lower| - 1;
    if i + 1 < n {
      assert (i + 1) % n == i + 1;
    } else {
      assert (i + 1) % n == 0;
    }
  }

  // ---- monotone-chain correctness -----------------------------------------------------------

  lemma FewDistinct(points: seq<Pt>, q: Pt)
    requires |points| < 3 && q in points
    ensures LeftOfAll(points, q)
  {
    hide Cross;
    forall i | 0 <= i < |points| ensures LeftOfEdge(points, i, q) {
      if |points| == 2 {
        assert Next(points, 0) == points[1] && Next(points, 1) == points[0];
        assert q == points[0] || q == points[1];
        assert i == 0 || i == 1;
      } else {
        assert Next(points, i) == points[0];
      }
      OnOwnLine(points[i], Next(points, i));
    }
  }

  lemma OnOwnLine(a: Pt, b: Pt)
    ensures Cross(a, b, a) == 0.0 && Cross(a, b, b) == 0.0
  {
  }

  /** Every hull vertex is an input, and every input lies on or left of every cyclic edge. */
  lemma HullCoversInputs(pixels: seq<Pt>)
    ensures forall q :: q in HullOf(pixels) ==> q in pixels
    ensures forall q :: q in pixels ==> LeftOfAll(HullOf(pixels), q)
  {
    var hull := HullOf(pixels);
    if |Distinct(pixels)| < 3 {
      assert hull == Distinct(pixels);
      forall q | q in pixels ensures LeftOfAll(hull, q) {
        FewDistinct(hull, q);
      }
    } else {
      var lower, upper := GetChains(pixels);
      forall q | q in hull ensures q in pixels {
        assert q in lower || q in upper;
      }
      forall q | q in pixels ensures LeftOfAll(hull, q) {
        ChainsCover(pixels, hull, lower, upper, q);
      }
    }
  }

  /** The convex hull of the pixels: its vertices are among them, none is beyond any of its edges, and
      it has an area unless they are all on one line. */
  method Hull(pixels: seq<Pt>) returns (hull: seq<Pt>)
    ensures hull == HullOf(pixels)
    ensures forall q :: q in hull ==> q in pixels
    ensures forall q :: q in pixels ==> LeftOfAll(hull, q)
    ensures |hull| >= 3 <==> exists a, b, c :: a in pixels && b in pixels && c in pixels && Cross(a, b, c) != 0.0
  {
    hide Cross, LeftOfAll;
    HullCoversInputs(pixels);
    HullSpansArea(pixels);
    var points := Distinct(pixels);
    if |points| < 3 {
      return points;
    }
    var lower := Half(points);
    var upper := Half(Reversed(points));
    hull := DropLast(lower) + DropLast(upper);
  }

  lemma ChainsCover(pixels: seq<Pt>, hull: seq<Pt>, lower: seq<Pt>, upper: seq<Pt>, q: Pt)
    requires Closes(hull, lower, upper) && Encloses(pixels, lower, upper) && q in pixels
    ensures LeftOfAll(hull, q)
  {
    forall i | 0 <= i < |hull| ensures LeftOfEdge(hull, i, q) {
      EdgeOfChain(hull, lower, upper, i);
    }
  }

  // ---- strict convexity ------------------------------------------------------------------------

  lemma {:induction false} FanFromFirst(rightward: bool, chain: seq<Pt>, i: nat)
    requires InOrder(rightward, chain) && TurnsLeft(chain) && 1 <= i < |chain| - 1
    ensures Cross(chain[0], chain[i], chain[i + 1]) > 0.0
  {
    if i > 1 {
      FanFromFirst(rightward, chain, i - 1);
      TurnsCompose(rightward, chain[0], chain[i - 1], chain[i], chain[i + 1]);
    }
  }

  lemma FanToLater(rightward: bool, chain: seq<Pt>, i: nat, k: nat)
    requires InOrder(rightward, chain) && TurnsLeft(chain) && i + 1 < k < |chain|
    ensures Cross(chain[i], chain[i + 1], chain[k]) > 0.0
  {
    var prefix := chain[..k];
    assert forall j :: 0 <= j < k ==> prefix[j] == chain[j];
    assert Cross(chain[k - 2], chain[k - 1], chain[k - 2 + 2]) > 0.0;
    LastTurnDecides(rightward, prefix, chain[k], i);
  }

  lemma CrossRotates(a: Pt, b: Pt, c: Pt)
    ensures Cross(a, b, c) == Cross(b, c, a) == Cross(c, a, b)
  {
  }

  /** Every triangle of the fan at the first vertex has positive area. */
  lemma FanIsStrict(h: seq<Pt>, lower: seq<Pt>, upper: seq<Pt>, i: nat)
    requires Closes(h, lower, upper) && 1 <= i < |h| - 1
    ensures Cross(h[0], h[i], h[i + 1]) > 0.0
  {
    EdgeOfChain(h, lower, upper, i);
    assert Next(h, i) == h[i + 1];
    if i < |lower| - 1 {
      FanFromFirst(true, lower, i);
    } else {
      FanToLater(false, upper, i - (|lower| - 1), |upper| - 1);
      CrossRotates(h[0], h[i], h[i + 1]);
    }
  }

  /** The hull spans an area exactly when the pixels are not all on one line. */
  lemma HullSpansArea(pixels: seq<Pt>)
    ensures |HullOf(pixels)| >= 3 <==>
      exists a, b, c :: a in pixels && b in pixels && c in pixels && Cross(a, b, c) != 0.0
  {
    if |HullOf(pixels)| >= 3 {
      SpanningTriangle(pixels);
    } else {
      forall a, b, c | a in pixels && b in pixels && c in pixels ensures Cross(a, b, c) == 0.0 {
        FlatHullIsCollinear(pixels, a, b, c);
      }
    }
  }

  lemma SpanningTriangle(pixels: seq<Pt>)
    requires |HullOf(pixels)| >= 3
    ensures var h := HullOf(pixels); h[0] in pixels && h[1] in pixels && h[2] in pixels && Cross(h[0], h[1], h[2]) != 0.0
  {
    var h := HullOf(pixels);
    var lower, upper := GetChains(pixels);
    FanIsStrict(h, lower, upper, 1);
    HullCoversInputs(pixels);
    assert h[0] in h && h[1] in h && h[2] in h;
  }

  lemma FlatHullIsCollinear(pixels: seq<Pt>, a: Pt, b: Pt, c: Pt)
    requires |HullOf(pixels)| < 3 && a in pixels && b in pixels && c in pixels
    ensures Cross(a, b, c) == 0.0
  {
    if |Distinct(pixels)| < 3 {
      TwoOfThree(Distinct(pixels), a, b, c);
    } else {
      var lower, upper := GetChains(pixels);
      var hull := HullOf(pixels);
      TwoVertexHull(pixels, hull, lower, upper, a);
      TwoVertexHull(pixels, hull, lower, upper, b);
      TwoVertexHull(pixels, hull, lower, upper, c);
      CollinearOnLine(lower[0], lower[1], a, b, c);
    }
  }

  lemma TwoOfThree(points: seq<Pt>, a: Pt, b: Pt, c: Pt)
    requires |points| < 3 && a in points && b in points && c in points
    ensures Cross(a, b, c) == 0.0
  {
    assert a == b || b == c || a == c;
  }

  lemma TwoVertexHull(pixels: seq<Pt>, hull: seq<Pt>, lower: seq<Pt>, upper: seq<Pt>, q: Pt)
    requires Closes(hull, lower, upper) && Encloses(pixels, lower, upper) && |hull| < 3 && q in pixels
    ensures lower[0] != lower[1] && Cross(lower[0], lower[1], q) == 0.0
  {
    EdgeOfChain(hull, lower, upper, 0);
    assert |lower| == 2 && |upper| == 2;
    assert Before(true, lower[0], lower[1]);
    assert Cross(lower[0], lower[1], q) >= 0.0 && Cross(upper[0], upper[1], q) >= 0.0;
    assert Cross(upper[0], upper[1], q) == -Cross(lower[0], lower[1], q);
  }

  lemma CollinearOnLine(f: Pt, l: Pt, a: Pt, b: Pt, c: Pt)
    requires f != l && Cross(f, l, a) == 0.0 && Cross(f, l, b) == 0.0 && Cross(f, l, c) == 0.0
    ensures Cross(a, b, c) == 0.0
  {
    var u, v, w := Minus(l, f), Minus(b, a), Minus(c, a);
    assert Wedge(v, u) == Cross(f, l, a) - Cross(f, l, b);
    assert Wedge(u, w) == Cross(f, l, c) - Cross(f, l, a);
    WedgeIdentity(v, u, w);
    assert Wedge(v, w) * u.x == 0.0 && Wedge(v, w) * u.y == 0.0;
    assert u.x != 0.0 || u.y != 0.0;
    assert Cross(a, b, c) == Wedge(v, w);
  }

  /** No edge's line contains both ends of another: each edge of the hull is needed. */
  lemma EdgesAreIndependent(h: seq<Pt>, lower: seq<Pt>, upper: seq<Pt>, j: nat, e: nat)
    requires Closes(h, lower, upper) && |h| >= 3 && j < |h| && e < |h| && j != e
    requires forall i :: 0 <= i < |h| ==> LeftOfAll(h, h[i])
    ensures Cross(h[j], Next(h, j), h[e]) > 0.0 || Cross(h[j], Next(h, j), Next(h, e)) > 0.0
  {
    hide Cross, Before, InOrder, TurnsLeft, LeftOfAll;
    var k := |lower| - 1;
    if (j < k) == (e < k) {
      EdgeOfChain(h, lower, upper, j);
      EdgeOfChain(h, lower, upper, e);
      if j < k { SameChain(true, lower, j, e); } else { SameChain(false, upper, j - k, e - k); }
    } else {
      EdgeDirection(h, lower, upper, j);
      EdgeDirection(h, lower, upper, e);
      FanIsStrict(h, lower, upper, 1);
      OppositeChains(h, j < k, j, e);
    }
  }

  lemma EdgeDirection(hull: seq<Pt>, lower: seq<Pt>, upper: seq<Pt>, i: nat)
    requires Closes(hull, lower, upper) && i < |hull|
    ensures Before(i < |lower| - 1, hull[i], Next(hull, i))
  {
    EdgeOfChain(hull, lower, upper, i);
    var k := |lower| - 1;
    if i < k {
      assert Before(true, lower[i], lower[i + 1]);
    } else {
      assert Before(false, upper[i - k], upper[i - k + 1]);
    }
  }

  lemma OppositeChains(h: seq<Pt>, rightward: bool, j: nat, e: nat)
    requires |h| >= 3 && j < |h| && e < |h| && Cross(h[0], h[1], h[2]) > 0.0
    requires Before(rightward, h[j], Next(h, j)) && Before(!rightward, h[e], Next(h, e))
    requires forall i :: 0 <= i < |h| ==> LeftOfAll(h, h[i])
    ensures Cross(h[j], Next(h, j), h[e]) > 0.0 || Cross(h[j], Next(h, j), Next(h, e)) > 0.0
  {
    var a, b, c, d := h[j], Next(h, j), h[e], Next(h, e);
    assert LeftOfAll(h, h[(e + 1) % |h|]) && LeftOfAll(h, h[e]);
    assert LeftOfEdge(h, j, c) && LeftOfEdge(h, j, d);
    if Cross(a, b, c) == 0.0 && Cross(a, b, d) == 0.0 {
      forall i | 0 <= i < 3 ensures Cross(a, b, h[i]) == 0.0 {
        assert LeftOfAll(h, h[i]);
        assert LeftOfEdge(h, j, h[i]) && LeftOfEdge(h, e, h[i]);
        OppositeEdges(rightward, a, b, c, d, h[i]);
      }
      CollinearOnLine(a, b, h[0], h[1], h[2]);
      assert false;
    }
  }

  /** Two edges on one line running opposite ways leave no room off that line. */
  lemma OppositeEdges(rightward: bool, a: Pt, b: Pt, c: Pt, d: Pt, q: Pt)
    requires Before(rightward, a, b) && Before(rightward, d, c)
    requires Cross(a, b, c) == 0.0 && Cross(a, b, d) == 0.0
    requires Cross(a, b, q) >= 0.0 && Cross(c, d, q) >= 0.0
    ensures Cross(a, b, q) == 0.0
  {
    var u, w, s := Minus(b, a), Minus(d, c), Minus(q, c);
    assert Wedge(u, w) == Cross(a, b, d) - Cross(a, b, c) == 0.0;
    assert Wedge(u, s) == Cross(a, b, q) - Cross(a, b, c);
    assert Wedge(w, s) == Cross(c, d, q);
    WedgeIdentity(w, u, s);
    if rightward {
      OppositeVectors(u, w, Wedge(u, s), Wedge(w, s));
    } else {
      OppositeVectors(Neg(u), Neg(w), Wedge(u, s), Wedge(w, s));
    }
  }

  lemma OppositeVectors(u: Pt, w: Pt, f: real, g: real)
    requires LexPositive(u) && LexPositive(Neg(w)) && Wedge(u, w) == 0.0
    requires f >= 0.0 && g >= 0.0 && g * u.x == f * w.x && g * u.y == f * w.y
    ensures f == 0.0
  {
    if u.x > 0.0 {
      ProductNonNegative(g, u.x);
      assert w.x < 0.0 by {
        UprightIsLeft(Neg(w), u);
        assert Wedge(Neg(w), u) == Wedge(u, w);
      }
    } else {
      assert w.x == 0.0 by { if w.x < 0.0 { ProductPositive(u.y, -w.x); } }
      ProductNonNegative(g, u.y);
    }
    if f > 0.0 {
      if w.x < 0.0 { ProductPositive(f, -w.x); } else { ProductPositive(f, -w.y); }
    }
  }

  lemma SameChain(rightward: bool, chain: seq<Pt>, j: nat, e: nat)
    requires InOrder(rightward, chain) && TurnsLeft(chain) && j < |chain| - 1 && e < |chain| - 1 && j != e
    ensures Cross(chain[j], chain[j + 1], chain[e]) > 0.0 || Cross(chain[j], chain[j + 1], chain[e + 1]) > 0.0
  {
    if j < e {
      FanToLater(rightward, chain, j, e + 1);
    } else {
      assert TurnsLeft(chain[e..]) && InOrder(rightward, chain[e..]);
      FanFromFirst(rightward, chain[e..], j - e);
      CrossRotates(chain[e], chain[j], chain[j + 1]);
    }
  }
}
