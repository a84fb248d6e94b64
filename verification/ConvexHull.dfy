/** `convex_hull`: Andrew's monotone chain over the calibration pixels. */
module ConvexHull {
  import opened Plane

  // ---- np.unique and np.lexsort ----------------------------------------------------------

  ghost predicate InOrder(rightward: bool, ps: seq<Pt>) {
    forall i, j :: 0 <= i < j < |ps| ==> Before(rightward, ps[i], ps[j])
  }

  /** One pixel placed into a sorted duplicate-free list, dropped if it is already there. */
  function Place(p: Pt, ps: seq<Pt>): (r: seq<Pt>)
    requires InOrder(true, ps)
    ensures InOrder(true, r)
    ensures forall q :: q in r <==> q == p || q in ps
  {
    if ps == [] then [p]
    else if p == ps[0] then ps
    else if Lex(p, ps[0]) then [p] + ps
    else
      var rest := Place(p, ps[1..]);
      assert forall i :: 1 <= i < |ps| ==> ps[i] in ps[1..];
      assert forall q :: q in rest ==> Lex(ps[0], q);
      [ps[0]] + rest
  }

  /** The distinct pixels in sweep order. */
  function Distinct(pixels: seq<Pt>): (r: seq<Pt>)
    ensures InOrder(true, r)
    ensures forall q :: q in r <==> q in pixels
  {
    if pixels == [] then [] else Place(pixels[0], Distinct(pixels[1..]))
  }

  function Reversed(ps: seq<Pt>): (r: seq<Pt>)
    ensures |r| == |ps|
    ensures forall i :: 0 <= i < |ps| ==> r[i] == ps[|ps| - 1 - i]
    ensures forall q :: q in r <==> q in ps
  {
    if ps == [] then [] else
      var r := Reversed(ps[1..]) + [ps[0]];
      assert forall q :: q in ps <==> q == ps[0] || q in ps[1..];
      r
  }

  // ---- one half of the hull --------------------------------------------------------------

  /** The inner loop and the append: drop the tail that does not turn left, then add `p`. */
  function Push(chain: seq<Pt>, p: Pt): seq<Pt> {
    if |chain| >= 2 && Cross(chain[|chain| - 2], chain[|chain| - 1], p) <= 0.0
    then Push(chain[..|chain| - 1], p)
    else chain + [p]
  }

  function HalfOf(points: seq<Pt>): seq<Pt> {
    if points == [] then [] else Push(HalfOf(points[..|points| - 1]), points[|points| - 1])
  }

  method Half(points: seq<Pt>) returns (chain: seq<Pt>)
    ensures chain == HalfOf(points)
  {
    chain := [];
    for i := 0 to |points|
      invariant chain == HalfOf(points[..i])
    {
      var point := points[i];
      ghost var pushed := Push(chain, point);
      while |chain| >= 2 && Cross(chain[|chain| - 2], chain[|chain| - 1], point) <= 0.0
        invariant Push(chain, point) == pushed
        decreases |chain|
      {
        chain := chain[..|chain| - 1];
      }
      chain := chain + [point];
      assert points[..i + 1][..i] == points[..i];
    }
    assert points[..|points|] == points;
  }

  function HullOf(pixels: seq<Pt>): seq<Pt> {
    var points := Distinct(pixels);
    if |points| < 3 then points else
      var lower, upper := HalfOf(points), HalfOf(Reversed(points));
      DropLast(lower) + DropLast(upper)
  }

  function DropLast(ps: seq<Pt>): seq<Pt> {
    if ps == [] then [] else ps[..|ps| - 1]
  }

  // ---- the half chain is convex and nothing lies right of it --------------------------------

  ghost predicate TurnsLeft(chain: seq<Pt>) {
    forall i :: 0 <= i < |chain| - 2 ==> Cross(chain[i], chain[i + 1], chain[i + 2]) > 0.0
  }

  ghost predicate Covers(chain: seq<Pt>, points: seq<Pt>) {
    forall i, q :: 0 <= i < |chain| - 1 && q in points ==> Cross(chain[i], chain[i + 1], q) >= 0.0
  }

  /** Everything already swept from `t` on lies on or left of the segment t-p. */
  ghost predicate LeftFrom(rightward: bool, t: Pt, p: Pt, swept: seq<Pt>) {
    forall q :: q in swept && (q == t || Before(rightward, t, q)) ==> Cross(t, p, q) >= 0.0
  }

  ghost predicate HalfChain(rightward: bool, chain: seq<Pt>, points: seq<Pt>) {
    && InOrder(rightward, chain)
    && TurnsLeft(chain)
    && Covers(chain, points)
    && (forall q :: q in chain ==> q in points)
    && (points != [] ==> |chain| >= 1 && chain[0] == points[0])
    && (forall q :: q in points ==> q == points[0] || Before(rightward, points[0], q))
  }

  lemma EndsAreExtreme(rightward: bool, points: seq<Pt>, q: Pt)
    requires InOrder(rightward, points) && q in points
    ensures q == points[0] || Before(rightward, points[0], q)
    ensures q == points[|points| - 1] || Before(rightward, q, points[|points| - 1])
  {
    var i :| 0 <= i < |points| && points[i] == q;
  }

  lemma {:induction false} LastTurnDecides(rightward: bool, chain: seq<Pt>, p: Pt, i: nat)
    requires InOrder(rightward, chain) && TurnsLeft(chain) && i < |chain| - 1
    requires forall q :: q in chain ==> Before(rightward, q, p)
    requires Cross(chain[|chain| - 2], chain[|chain| - 1], p) > 0.0
    ensures Cross(chain[i], chain[i + 1], p) > 0.0
    decreases |chain| - i
  {
    if i < |chain| - 2 {
      LastTurnDecides(rightward, chain, p, i + 1);
      TurnsCompose(rightward, chain[i], chain[i + 1], chain[i + 2], p);
    }
  }

  lemma {:induction false} PushKeepsHalfChain(rightward: bool, chain: seq<Pt>, p: Pt, swept: seq<Pt>)
    requires swept != [] && HalfChain(rightward, chain, swept)
    requires forall q :: q in swept ==> Before(rightward, q, p)
    requires LeftFrom(rightward, chain[|chain| - 1], p, swept)
    ensures HalfChain(rightward, Push(chain, p), swept + [p])
    ensures var r := Push(chain, p); |r| >= 2 && r[|r| - 1] == p
    decreases |chain|
  {
    hide Cross, Before, Covers, TurnsLeft, InOrder;
    var n := |chain|;
    if n >= 2 && Cross(chain[n - 2], chain[n - 1], p) <= 0.0 {
      PrefixIsHalfChain(rightward, chain, swept);
      PopKeepsLeft(rightward, chain, p, swept);
      PushKeepsHalfChain(rightward, chain[..n - 1], p, swept);
    } else {
      AppendKeepsHalfChain(rightward, chain, p, swept);
    }
  }

  lemma PrefixIsHalfChain(rightward: bool, chain: seq<Pt>, points: seq<Pt>)
    requires |chain| >= 2 && HalfChain(rightward, chain, points)
    ensures HalfChain(rightward, chain[..|chain| - 1], points)
  {
    hide Cross, Before;
    var shorter := chain[..|chain| - 1];
    assert forall i :: 0 <= i < |shorter| ==> shorter[i] == chain[i];
  }

  lemma PopKeepsLeft(rightward: bool, chain: seq<Pt>, p: Pt, swept: seq<Pt>)
    requires |chain| >= 2 && HalfChain(rightward, chain, swept)
    requires forall q :: q in swept ==> Before(rightward, q, p)
    requires var n := |chain|; LeftFrom(rightward, chain[n - 1], p, swept) && Cross(chain[n - 2], chain[n - 1], p) <= 0.0
    ensures LeftFrom(rightward, chain[|chain| - 2], p, swept)
  {
    var s, t := chain[|chain| - 2], chain[|chain| - 1];
    forall q | q in swept && (q == s || Before(rightward, s, q)) ensures Cross(s, p, q) >= 0.0 {
      if q == s {
      } else if q == t {
        assert Cross(s, p, t) == -Cross(s, t, p);
      } else if Before(rightward, q, t) {
        PoppedLeftPart(rightward, s, q, t, p);
      } else {
        PoppedRightPart(rightward, s, t, q, p);
      }
    }
  }

  lemma AppendKeepsHalfChain(rightward: bool, chain: seq<Pt>, p: Pt, swept: seq<Pt>)
    requires swept != [] && HalfChain(rightward, chain, swept)
    requires forall q :: q in swept ==> Before(rightward, q, p)
    requires LeftFrom(rightward, chain[|chain| - 1], p, swept)
    requires |chain| >= 2 ==> Cross(chain[|chain| - 2], chain[|chain| - 1], p) > 0.0
    ensures HalfChain(rightward, chain + [p], swept + [p])
  {
    var n, r := |chain|, chain + [p];
    forall i, q | 0 <= i < n && q in swept + [p] ensures Cross(r[i], r[i + 1], q) >= 0.0 {
      if i < n - 1 {
        if q == p { LastTurnDecides(rightward, chain, p, i); }
      } else {
        LastEdgeCovers(rightward, chain, p, swept, q);
      }
    }
    forall i | 0 <= i < n - 1 ensures Cross(r[i], r[i + 1], r[i + 2]) > 0.0 {
      assert i < n - 2 ==> r[i + 2] == chain[i + 2];
    }
  }

  lemma LastEdgeCovers(rightward: bool, chain: seq<Pt>, p: Pt, swept: seq<Pt>, q: Pt)
    requires swept != [] && HalfChain(rightward, chain, swept)
    requires forall q :: q in swept ==> Before(rightward, q, p)
    requires LeftFrom(rightward, chain[|chain| - 1], p, swept)
    requires |chain| >= 2 ==> Cross(chain[|chain| - 2], chain[|chain| - 1], p) > 0.0
    requires q in swept + [p]
    ensures Cross(chain[|chain| - 1], p, q) >= 0.0
  {
    var t := chain[|chain| - 1];
    if q != p && Before(rightward, q, t) {
      if |chain| == 1 {
        assert false;
      } else {
        KeptPart(rightward, chain[|chain| - 2], q, t, p);
      }
    }
  }

  lemma SplitOrder(rightward: bool, swept: seq<Pt>, p: Pt)
    requires InOrder(rightward, swept + [p])
    ensures InOrder(rightward, swept)
    ensures forall q :: q in swept ==> Before(rightward, q, p)
  {
    var all := swept + [p];
    assert forall i :: 0 <= i < |swept| ==> all[i] == swept[i];
    assert forall i :: 0 <= i < |swept| ==> Before(rightward, all[i], all[|swept|]);
  }

  lemma SweptIsLeft(rightward: bool, swept: seq<Pt>, t: Pt, p: Pt)
    requires InOrder(rightward, swept) && swept != [] && t == swept[|swept| - 1]
    ensures LeftFrom(rightward, t, p, swept)
  {
    forall q | q in swept && (q == t || Before(rightward, t, q)) ensures Cross(t, p, q) >= 0.0 {
      EndsAreExtreme(rightward, swept, q);
    }
  }

  /** Monotone-chain correctness, one half: a left-turning chain of inputs from the first to
      the last point of the sweep, with every input on or left of every edge. */
  lemma {:induction false} HalfIsCorrect(rightward: bool, points: seq<Pt>)
    requires InOrder(rightward, points) && points != []
    ensures var c := HalfOf(points);
      HalfChain(rightward, c, points) && c[|c| - 1] == points[|points| - 1] && (|points| >= 2 ==> |c| >= 2)
  {
    hide Cross, Before, LeftFrom;
    var n := |points|;
    var swept, p := points[..n - 1], points[n - 1];
    assert points == swept + [p];
    if n == 1 {
      assert HalfOf(swept) == [];
      assert HalfOf(points) == Push([], p) == [p];
    } else {
      SplitOrder(rightward, swept, p);
      HalfIsCorrect(rightward, swept);
      var c := HalfOf(swept);
      SweptIsLeft(rightward, swept, c[|c| - 1], p);
      PushKeepsHalfChain(rightward, c, p, swept);
    }
  }
}
