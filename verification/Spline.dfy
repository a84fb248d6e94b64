/** The thin-plate-spline fit: fidelity at the samples, and what it does between them. */
module Spline {
  import opened Reals
  import opened Contracts
  import opened Plane
  import opened PixelMap
  import opened Vectors

  /** What the fit is made of: the library root, and the radial kernel, of which only its
      dependence on distance is used. */
  datatype Maths = Maths(sqrt: real -> real, kernel: real -> real) {
    function Basis(p: Pt, q: Pt): real {
      kernel(Norm(sqrt, Minus(p, q)))
    }
  }

  datatype Normalizer = Normalizer(center: Pt, scale: real) {
    function Apply(pixel: Pt): Pt
      requires scale != 0.0
    {
      Pt((pixel.x - center.x) / scale, (pixel.y - center.y) / scale)
    }
  }

  function ApplyAll(norm: Normalizer, pixels: seq<Pt>): (r: seq<Pt>)
    requires norm.scale != 0.0
    ensures |r| == |pixels|
  {
    seq(|pixels|, i requires 0 <= i < |pixels| => norm.Apply(pixels[i]))
  }

  function Linear(p: Pt): (r: Vec)
    ensures |r| == 3
  {
    [1.0, p.x, p.y]
  }

  function BasisRow(m: Maths, p: Pt, nodes: seq<Pt>): (r: Vec)
    ensures |r| == |nodes|
  {
    seq(|nodes|, j requires 0 <= j < |nodes| => m.Basis(p, nodes[j]))
  }

  function SmoothedRow(m: Maths, nodes: seq<Pt>, smoothing: real, i: nat): (r: Vec)
    requires i < |nodes|
    ensures |r| == |nodes|
  {
    seq(|nodes|, j requires 0 <= j < |nodes| => m.Basis(nodes[i], nodes[j]) + if i == j then smoothing else 0.0)
  }

  function Coordinate(nodes: seq<Pt>, c: nat): (r: Vec)
    requires c < 3
    ensures |r| == |nodes|
  {
    seq(|nodes|, j requires 0 <= j < |nodes| => Linear(nodes[j])[c])
  }

  /** The assembled system, row by row: one row per sample, then the three side conditions. */
  function SystemRow(m: Maths, nodes: seq<Pt>, smoothing: real, r: nat): (row: Vec)
    requires r < |nodes| + 3
    ensures |row| == |nodes| + 3
  {
    if r < |nodes| then SmoothedRow(m, nodes, smoothing, r) + Linear(nodes[r])
    else Coordinate(nodes, r - |nodes|) + Zeros(3)
  }

  function System(m: Maths, nodes: seq<Pt>, smoothing: real): (rows: seq<Vec>)
    ensures |rows| == |nodes| + 3 && forall r :: 0 <= r < |rows| ==> |rows[r]| == |nodes| + 3
  {
    seq(|nodes| + 3, r requires 0 <= r < |nodes| + 3 => SystemRow(m, nodes, smoothing, r))
  }

  ghost predicate IsSquare(rows: seq<Vec>) {
    forall r :: 0 <= r < |rows| ==> |rows[r]| == |rows|
  }

  ghost predicate SolvesSystem(rows: seq<Vec>, x: Vec, right: Vec) {
    IsSquare(rows) && |x| == |rows| == |right| && forall r :: 0 <= r < |rows| ==> Dot(rows[r], x) == right[r]
  }

  ghost predicate Nonsingular(rows: seq<Vec>) {
    forall x: Vec :: SolvesSystem(rows, x, Zeros(|rows|)) ==> x == Zeros(|rows|)
  }

  type LinearSolver = (seq<Vec>, Vec) -> Option<Vec>

  /** `np.linalg.solve`: the solution of a non-singular system, an error for a singular one. */
  ghost predicate IsLinearSolver(solver: LinearSolver) {
    forall rows: seq<Vec>, right: Vec :: AnswersFor(solver, rows, right)
  }

  // Mentioned to use that at one system.
  ghost predicate AnswersFor(solver: LinearSolver, rows: seq<Vec>, right: Vec) {
    IsSquare(rows) && |right| == |rows| ==>
      && (solver(rows, right).Some? <==> Nonsingular(rows))
      && (solver(rows, right).Some? ==> SolvesSystem(rows, solver(rows, right).value, right))
  }

  datatype JointModel = JointModel(norm: Normalizer, nodes: seq<Pt>, weights: Vec, tail: Vec)

  datatype Fit = Fitted(model: JointModel) | FitError  // PixelMapError

  /** The fit of one joint's taught values. */
  function FitSpline(m: Maths, solver: LinearSolver, norm: Normalizer, pixels: seq<Pt>, values: Vec, smoothing: real): Fit
    requires |pixels| == |values| && norm.scale > 0.0
  {
    if |pixels| < 3 then FitError
    else
      var nodes := ApplyAll(norm, pixels);
      var solution := solver(System(m, nodes, smoothing), values + Zeros(3));
      if solution.None? || |solution.value| != |nodes| + 3 then FitError
      else Fitted(JointModel(norm, nodes, solution.value[..|nodes|], solution.value[|nodes|..]))
  }

  function PredictJoint(m: Maths, model: JointModel, pixel: Pt): real
    requires model.norm.scale != 0.0 && |model.weights| == |model.nodes| && |model.tail| == 3
  {
    var p := model.norm.Apply(pixel);
    Dot(BasisRow(m, p, model.nodes), model.weights) + Dot(Linear(p), model.tail)
  }

  // ---- at the samples -----------------------------------------------------------------------------------

  lemma SampleRow(m: Maths, nodes: seq<Pt>, smoothing: real, x: Vec, i: nat)
    requires |x| == |nodes| + 3 && i < |nodes|
    ensures Dot(SystemRow(m, nodes, smoothing, i), x)
      == Dot(BasisRow(m, nodes[i], nodes), x[..|nodes|]) + smoothing * x[i] + Dot(Linear(nodes[i]), x[|nodes|..])
  {
    hide Dot;
    assert x == x[..|nodes|] + x[|nodes|..];
    DotConcat(SmoothedRow(m, nodes, smoothing, i), Linear(nodes[i]), x[..|nodes|], x[|nodes|..]);
    DampedRow(BasisRow(m, nodes[i], nodes), SmoothedRow(m, nodes, smoothing, i), smoothing, x[..|nodes|], i);
  }

  lemma SolverSolves(solver: LinearSolver, rows: seq<Vec>, right: Vec)
    requires IsLinearSolver(solver) && IsSquare(rows) && |right| == |rows|
    ensures solver(rows, right).Some? <==> Nonsingular(rows)
    ensures solver(rows, right).Some? ==> SolvesSystem(rows, solver(rows, right).value, right)
  {
    hide Nonsingular, SolvesSystem, IsSquare;
    assert AnswersFor(solver, rows, right);
  }

  /** A successful fit holds a solution of its system, row by row, and the system is non-singular. */
  lemma FitSolves(m: Maths, solver: LinearSolver, norm: Normalizer, pixels: seq<Pt>, values: Vec, smoothing: real) returns (x: Vec)
    requires IsLinearSolver(solver) && |pixels| == |values| && norm.scale > 0.0
    requires FitSpline(m, solver, norm, pixels, values, smoothing).Fitted?
    ensures var nodes, model := ApplyAll(norm, pixels), FitSpline(m, solver, norm, pixels, values, smoothing).model;
      && |x| == |pixels| + 3 && model == JointModel(norm, nodes, x[..|pixels|], x[|pixels|..])
      && Nonsingular(System(m, nodes, smoothing)) && SolvesSystem(System(m, nodes, smoothing), x, values + Zeros(3))
  {
    hide IsLinearSolver, Dot, SystemRow, Nonsingular, SolvesSystem, Normalizer.Apply;
    var rows, right := System(m, ApplyAll(norm, pixels), smoothing), values + Zeros(3);
    SolverSolves(solver, rows, right);
    x := solver(rows, right).value;
  }

  /** There is a fit exactly when there are three samples and the system is non-singular. */
  lemma FitsExactly(m: Maths, solver: LinearSolver, norm: Normalizer, pixels: seq<Pt>, values: Vec, smoothing: real)
    requires IsLinearSolver(solver) && |pixels| == |values| && norm.scale > 0.0
    ensures FitSpline(m, solver, norm, pixels, values, smoothing).Fitted?
      <==> |pixels| >= 3 && Nonsingular(System(m, ApplyAll(norm, pixels), smoothing))
  {
    hide IsLinearSolver, Dot, SystemRow, Nonsingular, Normalizer.Apply;
    SolverSolves(solver, System(m, ApplyAll(norm, pixels), smoothing), values + Zeros(3));
  }

  /** A system with a solution of zero that is not zero has no fit. */
  lemma SingularIsRefused(m: Maths, solver: LinearSolver, norm: Normalizer, pixels: seq<Pt>, values: Vec, smoothing: real, x: Vec)
    requires IsLinearSolver(solver) && |pixels| == |values| && norm.scale > 0.0 && x != Zeros(|pixels| + 3)
    requires SolvesSystem(System(m, ApplyAll(norm, pixels), smoothing), x, Zeros(|pixels| + 3))
    ensures FitSpline(m, solver, norm, pixels, values, smoothing) == FitError
  {
    hide IsLinearSolver, Dot, SystemRow, SolvesSystem, Normalizer.Apply;
    var rows, right := System(m, ApplyAll(norm, pixels), smoothing), values + Zeros(3);
    assert IsSquare(rows);
    SolverSolves(solver, rows, right);
  }

  /** At every sample the fit answers with the taught value less smoothing times that sample's
      weight: exact interpolation without smoothing. */
  lemma PredictsTheSamples(m: Maths, solver: LinearSolver, norm: Normalizer, pixels: seq<Pt>, values: Vec, smoothing: real, i: nat)
    requires IsLinearSolver(solver) && |pixels| == |values| && norm.scale > 0.0 && i < |pixels|
    requires FitSpline(m, solver, norm, pixels, values, smoothing).Fitted?
    ensures var model := FitSpline(m, solver, norm, pixels, values, smoothing).model;
      && |model.weights| == |pixels| == |model.nodes| && |model.tail| == 3 && model.norm == norm
      && PredictJoint(m, model, pixels[i]) == values[i] - smoothing * model.weights[i]
      && (smoothing == 0.0 ==> PredictJoint(m, model, pixels[i]) == values[i])
  {
    hide Dot, SystemRow, BasisRow, Linear, Normalizer.Apply, Nonsingular, FitSpline, IsLinearSolver;
    var nodes := ApplyAll(norm, pixels);
    var x := FitSolves(m, solver, norm, pixels, values, smoothing);
    var rows, right := System(m, nodes, smoothing), values + Zeros(3);
    assert rows[i] == SystemRow(m, nodes, smoothing, i);
    SampleRow(m, nodes, smoothing, x, i);
    assert right[i] == values[i];
  }

  // ---- affine maps are reproduced -------------------------------------------------------------------------

  lemma {:induction false} DotMinus(row: Vec, x: Vec, y: Vec)
    requires |row| == |x| == |y|
    ensures Dot(row, Plus(x, Scale(-1.0, y))) == Dot(row, x) - Dot(row, y)
  {
    DotPlus(row, x, Scale(-1.0, y));
    DotScale(row, -1.0, y);
  }

  lemma SolutionIsUnique(rows: seq<Vec>, x: Vec, y: Vec, right: Vec)
    requires Nonsingular(rows) && SolvesSystem(rows, x, right) && SolvesSystem(rows, y, right)
    ensures x == y
  {
    hide Dot;
    var d := Plus(x, Scale(-1.0, y));
    forall r | 0 <= r < |rows| ensures Dot(rows[r], d) == 0.0 {
      DotMinus(rows[r], x, y);
    }
    assert SolvesSystem(rows, d, Zeros(|rows|));
    forall i | 0 <= i < |x| ensures x[i] == y[i] {
      assert d[i] == 0.0;
    }
  }

  /** An affine map of the raw pixel, as one of the normalized pixel. */
  datatype Affine = Affine(a: real, b: real, c: real) {
    function At(p: Pt): real {
      a + b * p.x + c * p.y
    }

    function Renormalized(norm: Normalizer): Affine {
      Affine(a + b * norm.center.x + c * norm.center.y, b * norm.scale, c * norm.scale)
    }

    function AsTail(): Vec {
      [a, b, c]
    }
  }

  lemma RenormalizedAt(f: Affine, norm: Normalizer, pixel: Pt)
    requires norm.scale > 0.0
    ensures f.Renormalized(norm).At(norm.Apply(pixel)) == f.At(pixel)
  {
    var u, v := pixel.x - norm.center.x, pixel.y - norm.center.y;
    DivCancel(u, norm.scale);
    DivCancel(v, norm.scale);
    assert f.b * norm.scale * (u / norm.scale) == f.b * u by { Regroup(f.b, norm.scale, u / norm.scale, u); }
    assert f.c * norm.scale * (v / norm.scale) == f.c * v by { Regroup(f.c, norm.scale, v / norm.scale, v); }
    assert f.b * u == f.b * pixel.x - f.b * norm.center.x;
    assert f.c * v == f.c * pixel.y - f.c * norm.center.y;
  }

  lemma Regroup(b: real, s: real, q: real, u: real)
    requires q * s == u
    ensures b * s * q == b * u
  {
    assert b * s * q == b * (q * s);
  }

  lemma TailAt(p: Pt, f: Affine)
    ensures Dot(Linear(p), f.AsTail()) == f.At(p)
  {
    var l, t := Linear(p), f.AsTail();
    var l2, t2, l1, t1 := [1.0, p.x], [f.a, f.b], [1.0], [f.a];
    assert l[..2] == l2 && t[..2] == t2 && l2[..1] == l1 && t2[..1] == t1 && l1[..0] == t1[..0] == [];
    assert Dot(l1, t1) == Dot([], []) + 1.0 * f.a;
    assert Dot(l2, t2) == Dot(l1, t1) + p.x * f.b;
    assert Dot(l, t) == Dot(l2, t2) + p.y * f.c;
  }

  /** No weights and an affine tail: what it makes of every row of the system. */
  lemma FlatRow(m: Maths, nodes: seq<Pt>, smoothing: real, f: Affine, r: nat)
    requires r < |nodes| + 3
    ensures Dot(SystemRow(m, nodes, smoothing, r), Zeros(|nodes|) + f.AsTail()) == if r < |nodes| then f.At(nodes[r]) else 0.0
  {
    hide Dot, Linear;
    var n := |nodes|;
    if r < n {
      DotConcat(SmoothedRow(m, nodes, smoothing, r), Linear(nodes[r]), Zeros(n), f.AsTail());
      DotZeros(SmoothedRow(m, nodes, smoothing, r));
      TailAt(nodes[r], f);
    } else {
      DotConcat(Coordinate(nodes, r - n), Zeros(3), Zeros(n), f.AsTail());
      DotZeros(Coordinate(nodes, r - n));
      DotCommutes(Zeros(3), f.AsTail());
      DotZeros(f.AsTail());
    }
  }

  /** Whenever the fit succeeds on samples of an affine map, it is that affine map at every pixel,
      whatever the smoothing. */
  lemma AffineMapsAreReproduced(m: Maths, solver: LinearSolver, norm: Normalizer, pixels: seq<Pt>, values: Vec, smoothing: real,
      f: Affine, pixel: Pt)
    requires IsLinearSolver(solver) && |pixels| == |values| && norm.scale > 0.0
    requires forall i :: 0 <= i < |pixels| ==> values[i] == f.At(pixels[i])
    requires FitSpline(m, solver, norm, pixels, values, smoothing).Fitted?
    ensures var model := FitSpline(m, solver, norm, pixels, values, smoothing).model;
      && model.norm == norm && |model.weights| == |model.nodes| && |model.tail| == 3
      && PredictJoint(m, model, pixel) == f.At(pixel)
  {
    hide Dot, SystemRow, BasisRow, Linear, Normalizer.Apply, Nonsingular, Affine.At, Affine.AsTail, Affine.Renormalized;
    hide FitSpline, IsLinearSolver;
    var nodes, n := ApplyAll(norm, pixels), |pixels|;
    var rows, right := System(m, nodes, smoothing), values + Zeros(3);
    var x := FitSolves(m, solver, norm, pixels, values, smoothing);
    var g := f.Renormalized(norm);
    var flat := Zeros(n) + g.AsTail();
    TailSize(g);
    forall r | 0 <= r < n + 3 ensures Dot(rows[r], flat) == right[r] {
      FlatRow(m, nodes, smoothing, g, r);
      if r < n {
        RenormalizedAt(f, norm, pixels[r]);
      }
    }
    assert SolvesSystem(rows, flat, right);
    SolutionIsUnique(rows, x, flat, right);
    assert x[..n] == Zeros(n) && x[n..] == g.AsTail();
    var p := norm.Apply(pixel);
    DotZeros(BasisRow(m, p, nodes));
    TailAt(p, g);
    RenormalizedAt(f, norm, pixel);
  }

  lemma TailSize(f: Affine)
    ensures |f.AsTail()| == 3
  {
  }

  // ---- what the fit is, at every pixel ----------------------------------------------------------------------

  /** The pixel in the normalizer's units. */
  predicate Normalized(norm: Normalizer, pixel: Pt, p: Pt) {
    p.x * norm.scale == pixel.x - norm.center.x && p.y * norm.scale == pixel.y - norm.center.y
  }

  /** What the weighted kernels around the nodes add up to at a point. */
  ghost function Pull(m: Maths, nodes: seq<Pt>, weights: Vec, p: Pt): real
    requires |nodes| == |weights|
  {
    if nodes == [] then 0.0 else
      var n := |nodes| - 1;
      Pull(m, nodes[..n], weights[..n], p) + Times(m.kernel(Norm(m.sqrt, Minus(p, nodes[n]))), weights[n])
  }

  /** How the weights balance: their sum, and their moments in both directions. */
  ghost function Moment(nodes: seq<Pt>, weights: Vec, c: nat): real
    requires |nodes| == |weights|
  {
    if nodes == [] then 0.0 else
      var n := |nodes| - 1;
      Moment(nodes[..n], weights[..n], c) + Times(if c == 0 then 1.0 else if c == 1 then nodes[n].x else nodes[n].y, weights[n])
  }

  /** A thin-plate spline: kernels whose weights sum to zero and balance in both directions, over an affine
      map, meeting each value but for the smoothing times that node's weight. */
  ghost predicate IsSpline(m: Maths, nodes: seq<Pt>, values: Vec, smoothing: real, weights: Vec, flat: Affine) {
    && |nodes| == |weights| == |values|
    && Moment(nodes, weights, 0) == Moment(nodes, weights, 1) == Moment(nodes, weights, 2) == 0.0
    && forall i :: 0 <= i < |nodes| ==> Pull(m, nodes, weights, nodes[i]) + smoothing * weights[i] + flat.At(nodes[i]) == values[i]
  }

  lemma {:induction false} PullIsBasis(m: Maths, nodes: seq<Pt>, weights: Vec, p: Pt)
    requires |nodes| == |weights|
    ensures Dot(BasisRow(m, p, nodes), weights) == Pull(m, nodes, weights, p)
  {
    if nodes != [] {
      var n := |nodes| - 1;
      hide Dot;
      PullIsBasis(m, nodes[..n], weights[..n], p);
      DotLast(BasisRow(m, p, nodes), weights, n);
      assert BasisRow(m, p, nodes)[..n] == BasisRow(m, p, nodes[..n]);
    } else {
      assert Dot(BasisRow(m, p, nodes), weights) == 0.0;
    }
  }

  lemma {:induction false} MomentIsDot(nodes: seq<Pt>, weights: Vec, c: nat)
    requires |nodes| == |weights| && c < 3
    ensures Dot(Coordinate(nodes, c), weights) == Moment(nodes, weights, c)
  {
    if nodes != [] {
      var n := |nodes| - 1;
      hide Dot;
      MomentIsDot(nodes[..n], weights[..n], c);
      DotLast(Coordinate(nodes, c), weights, n);
      assert Coordinate(nodes, c)[..n] == Coordinate(nodes[..n], c);
    } else {
      assert Dot(Coordinate(nodes, c), weights) == 0.0;
    }
  }

  /** A spline solves the system, and what solves the system is one. */
  lemma SplinesSolve(m: Maths, nodes: seq<Pt>, values: Vec, smoothing: real, weights: Vec, flat: Affine)
    requires |nodes| == |weights| == |values|
    ensures SolvesSystem(System(m, nodes, smoothing), weights + flat.AsTail(), values + Zeros(3))
      <==> IsSpline(m, nodes, values, smoothing, weights, flat)
  {
    hide Dot, Linear, Pull, Moment, Maths.Basis, Affine.At, Affine.AsTail;
    var n, x, rows, right := |nodes|, weights + flat.AsTail(), System(m, nodes, smoothing), values + Zeros(3);
    TailSize(flat);
    forall r | 0 <= r < n
      ensures Dot(rows[r], x) == Pull(m, nodes, weights, nodes[r]) + smoothing * weights[r] + flat.At(nodes[r])
    {
      SampleRow(m, nodes, smoothing, x, r);
      PullIsBasis(m, nodes, weights, nodes[r]);
      TailAt(nodes[r], flat);
      assert x[..n] == weights && x[n..] == flat.AsTail();
    }
    SideRow(m, nodes, smoothing, weights, flat, 0);
    SideRow(m, nodes, smoothing, weights, flat, 1);
    SideRow(m, nodes, smoothing, weights, flat, 2);
    SolvesByRows(rows, x, right, n);
  }

  lemma SolvesByRows(rows: seq<Vec>, x: Vec, right: Vec, n: nat)
    requires |rows| == |x| == |right| == n + 3 && IsSquare(rows)
    ensures SolvesSystem(rows, x, right) <==>
      && (forall r :: 0 <= r < n ==> Dot(rows[r], x) == right[r])
      && Dot(rows[n], x) == right[n] && Dot(rows[n + 1], x) == right[n + 1] && Dot(rows[n + 2], x) == right[n + 2]
  {
    hide Dot;
  }

  lemma SideRow(m: Maths, nodes: seq<Pt>, smoothing: real, weights: Vec, flat: Affine, c: nat)
    requires |nodes| == |weights| && c < 3
    ensures |flat.AsTail()| == 3
    ensures Dot(SystemRow(m, nodes, smoothing, |nodes| + c), weights + flat.AsTail()) == Moment(nodes, weights, c)
  {
    hide Dot, Linear, Moment, SmoothedRow, Affine.AsTail;
    TailSize(flat);
    DotConcat(Coordinate(nodes, c), Zeros(3), weights, flat.AsTail());
    DotCommutes(Zeros(3), flat.AsTail());
    DotZeros(flat.AsTail());
    MomentIsDot(nodes, weights, c);
  }

  lemma ApplyNormalizes(norm: Normalizer, pixel: Pt, p: Pt)
    requires norm.scale > 0.0
    ensures Normalized(norm, pixel, p) <==> p == norm.Apply(pixel)
  {
    DivCancel(pixel.x - norm.center.x, norm.scale);
    DivCancel(pixel.y - norm.center.y, norm.scale);
    SameQuotient(p.x, norm.Apply(pixel).x, norm.scale);
    SameQuotient(p.y, norm.Apply(pixel).y, norm.scale);
  }

  lemma SameQuotient(a: real, b: real, c: real)
    requires c > 0.0
    ensures a * c == b * c <==> a == b
  {
    Order(a, b, c, a * c, b * c);
    Order(b, a, c, b * c, a * c);
  }

  /** The fit answers, at every pixel, as the one spline through the samples does. */
  lemma TheFitIsTheSpline(m: Maths, solver: LinearSolver, norm: Normalizer, pixels: seq<Pt>, values: Vec, smoothing: real,
      nodes: seq<Pt>, weights: Vec, flat: Affine, pixel: Pt, p: Pt)
    requires IsLinearSolver(solver) && |pixels| == |values| == |nodes| && norm.scale > 0.0
    requires FitSpline(m, solver, norm, pixels, values, smoothing).Fitted?
    requires (forall i :: 0 <= i < |pixels| ==> Normalized(norm, pixels[i], nodes[i])) && Normalized(norm, pixel, p)
    requires IsSpline(m, nodes, values, smoothing, weights, flat)
    ensures var model := FitSpline(m, solver, norm, pixels, values, smoothing).model;
      && model.norm == norm && |model.weights| == |model.nodes| && |model.tail| == 3
      && PredictJoint(m, model, pixel) == Pull(m, nodes, weights, p) + flat.At(p)
  {
    hide Dot, SystemRow, BasisRow, Linear, Normalizer.Apply, Normalized, Nonsingular, Affine.At, Affine.AsTail, IsSpline, FitSpline,
      IsLinearSolver, SolvesSystem, Pull;
    var n := |pixels|;
    forall i | 0 <= i < n ensures nodes[i] == norm.Apply(pixels[i]) {
      ApplyNormalizes(norm, pixels[i], nodes[i]);
    }
    ApplyNormalizes(norm, pixel, p);
    assert nodes == ApplyAll(norm, pixels);
    var x := FitSolves(m, solver, norm, pixels, values, smoothing);
    var y := weights + flat.AsTail();
    TailSize(flat);
    SplineSize(m, nodes, values, smoothing, weights, flat);
    SplinesSolve(m, nodes, values, smoothing, weights, flat);
    SolutionIsUnique(System(m, nodes, smoothing), x, y, values + Zeros(3));
    assert y[..n] == weights && y[n..] == flat.AsTail();
    PullIsBasis(m, nodes, weights, p);
    TailAt(p, flat);
  }

  lemma SplineSize(m: Maths, nodes: seq<Pt>, values: Vec, smoothing: real, weights: Vec, flat: Affine)
    requires IsSpline(m, nodes, values, smoothing, weights, flat)
    ensures |nodes| == |weights| == |values|
  {
  }

  /** And there is one, as soon as there is a fit. */
  lemma AFitHasASpline(m: Maths, solver: LinearSolver, norm: Normalizer, pixels: seq<Pt>, values: Vec, smoothing: real)
    returns (weights: Vec, flat: Affine)
    requires IsLinearSolver(solver) && |pixels| == |values| && norm.scale > 0.0
    requires FitSpline(m, solver, norm, pixels, values, smoothing).Fitted?
    ensures IsSpline(m, ApplyAll(norm, pixels), values, smoothing, weights, flat)
    ensures FitSpline(m, solver, norm, pixels, values, smoothing).model.weights == weights
  {
    hide Dot, SystemRow, BasisRow, Linear, Normalizer.Apply, Nonsingular, Affine.At, IsSpline, FitSpline, IsLinearSolver, SolvesSystem;
    var x := FitSolves(m, solver, norm, pixels, values, smoothing);
    var n := |pixels|;
    weights, flat := x[..n], Affine(x[n], x[n + 1], x[n + 2]);
    assert x == weights + flat.AsTail();
    SplinesSolve(m, ApplyAll(norm, pixels), values, smoothing, weights, flat);
  }

  // ---- when there is no fit -----------------------------------------------------------------------------------

  /** Collinear samples never fit, with or without smoothing. */
  lemma CollinearSamplesAreRefused(m: Maths, solver: LinearSolver, norm: Normalizer, pixels: seq<Pt>, values: Vec, smoothing: real, line: Affine)
    requires IsLinearSolver(solver) && |pixels| == |values| && norm.scale > 0.0
    requires (line.b != 0.0 || line.c != 0.0) && forall i :: 0 <= i < |pixels| ==> line.At(pixels[i]) == 0.0
    ensures FitSpline(m, solver, norm, pixels, values, smoothing) == FitError
  {
    hide Dot, SystemRow, BasisRow, Linear, Normalizer.Apply, Affine.At, Affine.AsTail, Affine.Renormalized, FitSpline, IsLinearSolver;
    var nodes, n := ApplyAll(norm, pixels), |pixels|;
    var rows := System(m, nodes, smoothing);
    assert IsSquare(rows);
    var g := line.Renormalized(norm);
    var flat := Zeros(n) + g.AsTail();
    TailSize(g);
    forall r | 0 <= r < n + 3 ensures Dot(rows[r], flat) == 0.0 {
      FlatRow(m, nodes, smoothing, g, r);
      if r < n {
        RenormalizedAt(line, norm, pixels[r]);
      }
    }
    assert SolvesSystem(rows, flat, Zeros(n + 3));
    SlopeSurvives(line, norm);
    assert flat[n + 1] == g.AsTail()[1] && flat[n + 2] == g.AsTail()[2];
    SingularIsRefused(m, solver, norm, pixels, values, smoothing, flat);
  }

  lemma SlopeSurvives(line: Affine, norm: Normalizer)
    requires (line.b != 0.0 || line.c != 0.0) && norm.scale > 0.0
    ensures var t := line.Renormalized(norm).AsTail(); |t| == 3 && (t[1] != 0.0 || t[2] != 0.0)
  {
  }

  /** Nor do duplicated samples, unless there is smoothing. */
  lemma DuplicatedSamplesAreRefused(m: Maths, solver: LinearSolver, norm: Normalizer, pixels: seq<Pt>, values: Vec, a: nat, b: nat)
    requires IsLinearSolver(solver) && |pixels| == |values| && norm.scale > 0.0
    requires a < b < |pixels| && pixels[a] == pixels[b]
    ensures FitSpline(m, solver, norm, pixels, values, 0.0) == FitError
  {
    hide Dot, SystemRow, Normalizer.Apply, FitSpline, IsLinearSolver;
    var nodes, n := ApplyAll(norm, pixels), |pixels|;
    var rows := System(m, nodes, 0.0);
    assert IsSquare(rows);
    var x := Swap(n + 3, a, b);
    forall r | 0 <= r < n + 3 ensures Dot(rows[r], x) == 0.0 {
      SwapRow(m, nodes, r, a, b);
      SwapDot(rows[r], a, b);
    }
    assert SolvesSystem(rows, x, Zeros(n + 3));
    assert x[a] == 1.0;
    SingularIsRefused(m, solver, norm, pixels, values, 0.0, x);
  }

  function Swap(n: nat, a: nat, b: nat): (r: Vec)
    ensures |r| == n
  {
    seq(n, i => if i == a then 1.0 else if i == b then -1.0 else 0.0)
  }

  lemma SwapRow(m: Maths, nodes: seq<Pt>, r: nat, a: nat, b: nat)
    requires r < |nodes| + 3 && a < b < |nodes| && nodes[a] == nodes[b]
    ensures SystemRow(m, nodes, 0.0, r)[a] == SystemRow(m, nodes, 0.0, r)[b]
  {
  }

  lemma {:induction false} SwapDot(row: Vec, a: nat, b: nat)
    requires a < b
    ensures Dot(row, Swap(|row|, a, b)) == (if a < |row| then row[a] else 0.0) - if b < |row| then row[b] else 0.0
  {
    if row != [] {
      var n := |row| - 1;
      SwapDot(row[..n], a, b);
      assert Swap(|row|, a, b)[..n] == Swap(n, a, b);
    }
  }
}
