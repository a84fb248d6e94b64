/** The wrist camera's image servo: features, the fitted Jacobian and the damped solve. */
module WristServo {
  import opened Reals
  import opened Contracts
  import opened Vectors

  // ---- features --------------------------------------------------------------------------------------

  function Mod(v: real, m: real): real
    requires m > 0.0
  {
    v - m * (v / m).Floor as real
  }

  /** `wrap_deg`: an undirected angle difference. */
  function WrapDeg(value: real): real {
    Mod(value + 90.0, 180.0) - 90.0
  }

  /** The one angle in [-90, 90) that differs from `value` by whole half turns. */
  lemma WrapMeans(value: real, k: int)
    ensures -90.0 <= WrapDeg(value) < 90.0
    ensures -90.0 <= value - 180.0 * k as real < 90.0 <==> WrapDeg(value) == value - 180.0 * k as real
    ensures Abs(WrapDeg(value)) <= Abs(value - 180.0 * k as real)
  {
    var turns := ((value + 90.0) / 180.0).Floor;
    assert WrapDeg(value) == value - 180.0 * turns as real;
    if k > turns {
      assert k as real >= turns as real + 1.0;
    } else if k < turns {
      assert k as real <= turns as real - 1.0;
    }
  }

  /** Swapping the images negates the error, except at exactly a quarter turn. */
  lemma WrapIsOdd(value: real)
    ensures WrapDeg(-value) == -WrapDeg(value) <==> WrapDeg(value) != -90.0
  {
    var turns := ((value + 90.0) / 180.0).Floor;
    WrapMeans(value, turns);
    assert -value - 180.0 * (-turns) as real == -WrapDeg(value);
    WrapMeans(-value, -turns);
  }

  function FeatureError(current: Vec, goal: Vec, angular: seq<bool>): (r: Vec)
    requires |current| == |goal| == |angular|
    ensures |r| == |angular|
  {
    seq(|angular|, i requires 0 <= i < |angular| => if angular[i] then WrapDeg(current[i] - goal[i]) else current[i] - goal[i])
  }

  // ---- the Jacobian ------------------------------------------------------------------------------------

  datatype BumpTrial = BumpTrial(joint: string, delta: real, before: Vec, after: Vec)

  datatype Fit = Fitted(columns: seq<Vec>) | Unusable  // WristServoError

  /** One joint's own bumps, in order. */
  function RowsOf(trials: seq<BumpTrial>, joint: string): seq<BumpTrial> {
    if trials == [] then []
    else RowsOf(trials[..|trials| - 1], joint) + if trials[|trials| - 1].joint == joint then [trials[|trials| - 1]] else []
  }

  function StepsOf(rows: seq<BumpTrial>): (r: Vec)
    ensures |r| == |rows|
  {
    seq(|rows|, i requires 0 <= i < |rows| => rows[i].delta)
  }

  ghost predicate Measured(trials: seq<BumpTrial>, features: nat) {
    forall i :: 0 <= i < |trials| ==> |trials[i].before| == |trials[i].after| == features
  }

  /** How feature `f` moved in each bump. */
  function DeltasOf(rows: seq<BumpTrial>, angular: seq<bool>, f: nat): (r: Vec)
    requires f < |angular| && forall i :: 0 <= i < |rows| ==> |rows[i].before| == |rows[i].after| == |angular|
    ensures |r| == |rows|
  {
    seq(|rows|, i requires 0 <= i < |rows| => FeatureError(rows[i].after, rows[i].before, angular)[f])
  }

  function Slope(steps: Vec, deltas: Vec): real
    requires |steps| == |deltas| && Dot(steps, steps) != 0.0
  {
    Dot(steps, deltas) / Dot(steps, steps)
  }

  function ColumnOf(rows: seq<BumpTrial>, angular: seq<bool>): (r: Vec)
    requires Dot(StepsOf(rows), StepsOf(rows)) != 0.0
    requires forall i :: 0 <= i < |rows| ==> |rows[i].before| == |rows[i].after| == |angular|
    ensures |r| == |angular|
  {
    seq(|angular|, f requires 0 <= f < |angular| => Slope(StepsOf(rows), DeltasOf(rows, angular, f)))
  }

  /** The squared residual of a line through the origin. */
  function Misfit(steps: Vec, deltas: Vec, slope: real): real
    requires |steps| == |deltas|
  {
    Dot(Plus(deltas, Scale(-slope, steps)), Plus(deltas, Scale(-slope, steps)))
  }

  /** A squared norm of a sum, expanded. */
  lemma SquareOfSum(u: Vec, v: Vec)
    requires |u| == |v|
    ensures Dot(Plus(u, v), Plus(u, v)) == Dot(u, u) + 2.0 * Dot(u, v) + Dot(v, v)
  {
    DotPlus(Plus(u, v), u, v);
    DotCommutes(Plus(u, v), u);
    DotCommutes(Plus(u, v), v);
    DotPlus(u, u, v);
    DotPlus(v, u, v);
    DotCommutes(u, v);
  }

  /** The residual as a parabola in the slope. */
  function Squared(c: real, s: real, p: real, d: real): real {
    d - 2.0 * (c * p) + c * c * s
  }

  lemma MisfitExpands(steps: Vec, deltas: Vec, c: real)
    requires |steps| == |deltas|
    ensures Misfit(steps, deltas, c) == Squared(c, Dot(steps, steps), Dot(deltas, steps), Dot(deltas, deltas))
  {
    hide Dot, Scale;
    SquareOfSum(deltas, Scale(-c, steps));
    DotScale(deltas, -c, steps);
    DotScale(Scale(-c, steps), -c, steps);
    DotCommutes(Scale(-c, steps), steps);
    DotScale(steps, -c, steps);
    Regroup(c, Dot(deltas, steps), Dot(steps, steps));
  }

  lemma Regroup(c: real, p: real, s: real)
    ensures 2.0 * (-c * p) == -2.0 * (c * p) && -c * (-c * s) == c * c * s
  {
  }

  /** Each entry of the Jacobian is the best line through the origin for its own joint's bumps:
      any other slope is worse by exactly the square of the difference times the bumps' energy. */
  lemma ColumnIsLeastSquares(steps: Vec, deltas: Vec, c: real)
    requires |steps| == |deltas| && Dot(steps, steps) > 0.0
    ensures var best := Slope(steps, deltas);
      && Misfit(steps, deltas, c) == Misfit(steps, deltas, best) + Times(Square(c - best), Dot(steps, steps))
      && Misfit(steps, deltas, best) <= Misfit(steps, deltas, c)
      && (Misfit(steps, deltas, c) == Misfit(steps, deltas, best) <==> c == best)
  {
    hide Dot, Misfit, Squared, Slope, Times, Square;
    var best := Slope(steps, deltas);
    SlopeSolves(steps, deltas);
    MisfitExpands(steps, deltas, c);
    MisfitExpands(steps, deltas, best);
    Parabola(c, best, Dot(steps, steps), Dot(deltas, steps), Dot(deltas, deltas));
  }

  lemma SlopeSolves(steps: Vec, deltas: Vec)
    requires |steps| == |deltas| && Dot(steps, steps) > 0.0
    ensures Times(Slope(steps, deltas), Dot(steps, steps)) == Dot(deltas, steps)
  {
    hide Dot;
    DotCommutes(steps, deltas);
    DivCancel(Dot(deltas, steps), Dot(steps, steps));
  }

  lemma Parabola(c: real, best: real, s: real, p: real, d: real)
    requires Times(best, s) == p && s > 0.0
    ensures Squared(c, s, p, d) == Squared(best, s, p, d) + Times(Square(c - best), s)
    ensures Squared(best, s, p, d) <= Squared(c, s, p, d) && (Squared(c, s, p, d) == Squared(best, s, p, d) <==> c == best)
  {
    var x, y, z := c * c * s, c * best * s, best * best * s;
    assert z == best * p by { assert z == best * (best * s); }
    assert y == c * p by { assert y == c * (best * s); }
    var gap := Gap(c - best, s);
    assert gap == x - 2.0 * y + z;
  }

  lemma Gap(x: real, s: real) returns (gap: real)
    requires s > 0.0
    ensures gap == x * x * s == Times(Square(x), s) && gap >= 0.0 && (gap == 0.0 <==> x == 0.0)
  {
    gap := Times(Square(x), s);
    if x != 0.0 {
      SquarePositive(x);
      TimesPositive(Square(x), s);
    }
  }

  /** Bumps that agree perfectly are recovered perfectly. */
  lemma ConsistentBumpsAreRecovered(steps: Vec, slope: real)
    requires Dot(steps, steps) > 0.0
    ensures Slope(steps, Scale(slope, steps)) == slope && Misfit(steps, Scale(slope, steps), slope) == 0.0
  {
    hide Dot;
    DotScale(steps, slope, steps);
    DivAway(slope, Dot(steps, steps));
    assert forall i :: 0 <= i < |steps| ==> Times(slope, steps[i]) + Times(-slope, steps[i]) == 0.0;
    assert Plus(Scale(slope, steps), Scale(-slope, steps)) == Zeros(|steps|);
    NormIsPositive(Zeros(|steps|));
  }

  lemma DivAway(a: real, b: real)
    requires b != 0.0
    ensures a * b / b == a
  {
  }

  lemma {:induction false} RowsSplit(a: seq<BumpTrial>, b: seq<BumpTrial>, joint: string)
    ensures RowsOf(a + b, joint) == RowsOf(a, joint) + RowsOf(b, joint)
  {
    if b == [] {
      assert a + b == a;
    } else {
      var n := |b| - 1;
      RowsSplit(a, b[..n], joint);
      var last := if b[n].joint == joint then [b[n]] else [];
      assert (a + b)[..|a| + n] == a + b[..n] && (a + b)[|a| + n] == b[n];
      assert RowsOf(a + b, joint) == RowsOf(a + b[..n], joint) + last;
      assert RowsOf(b, joint) == RowsOf(b[..n], joint) + last;
    }
  }

  /** A bad joint cannot contaminate its neighbours: another joint's trial, wherever it was taken,
      leaves this joint's evidence, and so its column, untouched. */
  lemma NeighboursDoNotContaminate(a: seq<BumpTrial>, t: BumpTrial, b: seq<BumpTrial>, joint: string)
    requires t.joint != joint
    ensures RowsOf(a + [t] + b, joint) == RowsOf(a + b, joint)
  {
    RowsSplit(a + [t], b, joint);
    RowsSplit(a, [t], joint);
    RowsSplit(a, b, joint);
    assert [t][..0] == [];
    assert RowsOf([t], joint) == [];
  }

  lemma {:induction false} RowsAreMeasured(trials: seq<BumpTrial>, joint: string, features: nat)
    requires Measured(trials, features)
    ensures Measured(RowsOf(trials, joint), features)
  {
    if trials != [] {
      RowsAreMeasured(trials[..|trials| - 1], joint, features);
    }
  }

  /** Every servo joint was bumped, by more than nothing in all. */
  ghost predicate Fittable(trials: seq<BumpTrial>, joints: seq<string>) {
    forall j :: 0 <= j < |joints| ==> Dot(StepsOf(RowsOf(trials, joints[j])), StepsOf(RowsOf(trials, joints[j]))) > 0.0
  }

  /** Column by column; refused exactly when some servo joint has no usable evidence. */
  method FitJacobian(trials: seq<BumpTrial>, joints: seq<string>, angular: seq<bool>) returns (fit: Fit)
    requires Measured(trials, |angular|) && joints != []
    ensures fit.Fitted? <==> Fittable(trials, joints)
    ensures fit.Fitted? ==> IsMatrix(fit.columns, |angular|) && |fit.columns| == |joints|
    ensures fit.Fitted? ==> forall j, f :: 0 <= j < |joints| && 0 <= f < |angular| ==>
      Measured(RowsOf(trials, joints[j]), |angular|)
      && fit.columns[j][f] == Slope(StepsOf(RowsOf(trials, joints[j])), DeltasOf(RowsOf(trials, joints[j]), angular, f))
  {
    hide Dot;
    if trials == [] {
      assert Dot([], []) == 0.0 by { DotZeros([]); assert Zeros(0) == []; }
      assert StepsOf(RowsOf(trials, joints[0])) == [];
      return Unusable;
    }
    var columns: seq<Vec> := [];
    for j := 0 to |joints|
      invariant |columns| == j && IsMatrix(columns, |angular|)
      invariant forall i :: 0 <= i < j ==> Dot(StepsOf(RowsOf(trials, joints[i])), StepsOf(RowsOf(trials, joints[i]))) > 0.0
      invariant forall i :: 0 <= i < j ==> Measured(RowsOf(trials, joints[i]), |angular|)
      invariant forall i :: 0 <= i < j ==> columns[i] == ColumnOf(RowsOf(trials, joints[i]), angular)
    {
      var rows := RowsOf(trials, joints[j]);
      RowsAreMeasured(trials, joints[j], |angular|);
      var steps := StepsOf(rows);
      var denominator := Dot(steps, steps);
      if rows == [] || denominator <= 0.0 {
        if rows == [] {
          assert steps == Zeros(0);
          NormIsPositive(steps);
        }
        return Unusable;
      }
      columns := columns + [ColumnOf(rows, angular)];
    }
    fit := Fitted(columns);
  }

  // ---- the solve -------------------------------------------------------------------------------------------

  datatype Calibration = Calibration(
    goal: Vec, columns: seq<Vec>, angular: seq<bool>, tolerance: Vec, gain: real, damping: real, maxDelta: real)
  {
    ghost predicate Valid() {
      && |goal| == |angular| == |tolerance| && IsMatrix(columns, |angular|) && columns != []
      && (forall i :: 0 <= i < |tolerance| ==> tolerance[i] > 0.0)
      && 0.0 < gain <= 1.0 && damping >= 0.0 && maxDelta > 0.0
    }
  }

  function InTolerances(v: Vec, tolerance: Vec): (r: Vec)
    requires |v| == |tolerance| && forall i :: 0 <= i < |tolerance| ==> tolerance[i] > 0.0
    ensures |r| == |v|
  {
    seq(|v|, i requires 0 <= i < |v| => v[i] / tolerance[i])
  }

  function Normalized(columns: seq<Vec>, tolerance: Vec): (r: seq<Vec>)
    requires IsMatrix(columns, |tolerance|) && forall i :: 0 <= i < |tolerance| ==> tolerance[i] > 0.0
    ensures |r| == |columns| && IsMatrix(r, |tolerance|)
  {
    seq(|columns|, j requires 0 <= j < |columns| => InTolerances(columns[j], tolerance))
  }

  /** The trace of the normal matrix: the sum of the columns' squared norms. */
  function Trace(columns: seq<Vec>): real {
    if columns == [] then 0.0
    else Trace(columns[..|columns| - 1]) + Dot(columns[|columns| - 1], columns[|columns| - 1])
  }

  function Damping(c: Calibration, matrix: seq<Vec>): real
    requires |matrix| > 0
  {
    c.damping * Trace(matrix) / |matrix| as real
  }

  /** The damped normal matrix, row by row. */
  function NormalRow(columns: seq<Vec>, lam: real, i: nat, rows: nat): (r: Vec)
    requires i < |columns| && IsMatrix(columns, rows)
    ensures |r| == |columns|
  {
    seq(|columns|, j requires 0 <= j < |columns| => Dot(columns[j], columns[i]) + if i == j then lam else 0.0)
  }

  /** The system `np.linalg.solve` is given: what its answer, when it has one, satisfies. */
  ghost predicate Solves(columns: seq<Vec>, lam: real, rows: nat, x: Vec, b: Vec) {
    && |x| == |b| == |columns| && IsMatrix(columns, rows)
    && forall i :: 0 <= i < |columns| ==> Dot(NormalRow(columns, lam, i, rows), x) == b[i]
  }

  datatype Answer =
    | Step(delta: Vec, error: Vec, settled: bool)
    | UnsupportedSolve
    | Singular  // LinAlgError

  type Solver = (seq<Vec>, real, nat, Vec) -> Option<Vec>

  ghost predicate IsSolver(solver: Solver) {
    forall columns: seq<Vec>, lam: real, rows: nat, b: Vec :: AnswersFor(solver, columns, lam, rows, b)
  }

  // Mentioned to use that at one system.
  ghost predicate AnswersFor(solver: Solver, columns: seq<Vec>, lam: real, rows: nat, b: Vec) {
    solver(columns, lam, rows, b).Some? ==> Solves(columns, lam, rows, solver(columns, lam, rows, b).value, b)
  }

  predicate AllWithin(v: Vec, bound: real) {
    forall i :: 0 <= i < |v| ==> Abs(v[i]) <= bound
  }

  function Solve(solver: Solver, c: Calibration, features: Vec): Answer
    requires c.Valid() && |features| == |c.goal|
  {
    var error := FeatureError(features, c.goal, c.angular);
    var normalized := InTolerances(error, c.tolerance);
    var matrix := Normalized(c.columns, c.tolerance);
    var solution := solver(matrix, Damping(c, matrix), |c.tolerance|, Scale(-1.0, Against(matrix, normalized)));
    if solution.None? then Singular
    else
      var step := Scale(c.gain, solution.value);
      if AllWithin(step, c.maxDelta) then Step(step, error, AllWithin(normalized, 1.0)) else UnsupportedSolve
  }

  /** `settled` elsewhere agrees: the unit cube is every feature inside its own tolerance. */
  lemma SettledIsTheUnitCube(error: Vec, tolerance: Vec)
    requires |error| == |tolerance| && forall i :: 0 <= i < |tolerance| ==> tolerance[i] > 0.0
    ensures AllWithin(InTolerances(error, tolerance), 1.0) <==> forall i :: 0 <= i < |error| ==> Abs(error[i]) <= tolerance[i]
  {
    forall i | 0 <= i < |error| ensures Abs(InTolerances(error, tolerance)[i]) <= 1.0 <==> Abs(error[i]) <= tolerance[i] {
      DivAtMost(error[i], 1.0, tolerance[i]);
      DivAtMost(-error[i], 1.0, tolerance[i]);
      assert (-error[i]) / tolerance[i] == -(error[i] / tolerance[i]);
    }
  }

  // ---- why a step helps ------------------------------------------------------------------------------------

  lemma {:induction false} TraceNonNegative(columns: seq<Vec>, rows: nat)
    requires IsMatrix(columns, rows)
    ensures Trace(columns) >= 0.0
    ensures Trace(columns) == 0.0 <==> forall j :: 0 <= j < |columns| ==> columns[j] == Zeros(rows)
  {
    hide Dot, Zeros;
    if columns != [] {
      var n := |columns| - 1;
      TraceNonNegative(columns[..n], rows);
      NormIsPositive(columns[n]);
      assert columns == columns[..n] + [columns[n]];
      if Trace(columns) == 0.0 {
        forall j | 0 <= j < |columns| ensures columns[j] == Zeros(rows) {
          if j < n { assert columns[..n][j] == columns[j]; }
        }
      } else if forall j :: 0 <= j < |columns| ==> columns[j] == Zeros(rows) {
        forall j | 0 <= j < n ensures columns[..n][j] == Zeros(rows) {
          assert columns[..n][j] == columns[j];
        }
      }
    }
  }

  /** The normal row is the column against the image displacement, plus its own damping. */
  lemma NormalRowMeans(columns: seq<Vec>, lam: real, rows: nat, x: Vec, i: nat)
    requires |x| == |columns| && IsMatrix(columns, rows) && i < |columns|
    ensures Dot(NormalRow(columns, lam, i, rows), x) == Dot(columns[i], Combine(columns, x, rows)) + lam * x[i]
  {
    hide Dot, Combine;
    Adjoint(columns, x, columns[i]);
    DampedRow(Against(columns, columns[i]), NormalRow(columns, lam, i, rows), lam, x, i);
    DotCommutes(x, Against(columns, columns[i]));
  }

  lemma {:induction false} DotBySides(x: Vec, left: Vec, right: Vec, lam: real)
    requires |x| == |left| == |right|
    requires forall i :: 0 <= i < |x| ==> left[i] + lam * x[i] == right[i]
    ensures Dot(x, left) + lam * Dot(x, x) == Dot(x, right)
  {
    if x != [] {
      var n := |x| - 1;
      DotBySides(x[..n], left[..n], right[..n], lam);
      OneSide(x[n], left[n], right[n], lam);
      Distribute(lam, Dot(x[..n], x[..n]), x[n] * x[n]);
    }
  }

  lemma OneSide(x: real, l: real, r: real, lam: real)
    requires l + lam * x == r
    ensures x * l + lam * (x * x) == x * r
  {
    assert x * r == x * l + x * (lam * x);
    assert x * (lam * x) == lam * (x * x);
  }

  /** The solved step's image displacement points against the error, by its own damped energy. */
  lemma SolutionOpposesError(columns: seq<Vec>, lam: real, e: Vec, x: Vec)
    requires IsMatrix(columns, |e|) && Solves(columns, lam, |e|, x, Scale(-1.0, Against(columns, e)))
    ensures var image := Combine(columns, x, |e|);
      Dot(e, image) == -(Dot(image, image) + Times(lam, Dot(x, x)))
  {
    hide Dot, Combine, NormalRow;
    var image := Combine(columns, x, |e|);
    var b := Scale(-1.0, Against(columns, e));
    forall i | 0 <= i < |x| ensures Against(columns, image)[i] + lam * x[i] == b[i] {
      NormalRowMeans(columns, lam, |e|, x, i);
    }
    DotBySides(x, Against(columns, image), b, lam);
    Adjoint(columns, x, image);
    Adjoint(columns, x, e);
    DotScale(x, -1.0, Against(columns, e));
  }

  /** The error, in tolerance units, that the servo's own linear model predicts after a step. */
  function PredictedError(columns: seq<Vec>, e: Vec, delta: Vec): (r: Vec)
    requires |columns| == |delta| && forall j :: 0 <= j < |columns| ==> |columns[j]| == |e|
    ensures |r| == |e|
  {
    Plus(e, Combine(columns, delta, |e|))
  }

  /** The image energy a step of gain `g` buys, and twice its damping energy. */
  function Saving(g: real, energy: real, damped: real): real {
    g * (2.0 - g) * energy + 2.0 * g * damped
  }

  /** What a step of gain `g` takes off the squared error, exactly. */
  lemma DescentIsExact(columns: seq<Vec>, lam: real, e: Vec, x: Vec, g: real)
    requires IsMatrix(columns, |e|) && |x| == |columns| && Solves(columns, lam, |e|, x, Scale(-1.0, Against(columns, e)))
    ensures var image, after := Combine(columns, x, |e|), PredictedError(columns, e, Scale(g, x));
      Dot(after, after) == Dot(e, e) - Saving(g, Dot(image, image), Times(lam, Dot(x, x)))
  {
    hide Dot, Times, Saving, Combine, Scale, Plus, Against, Solves;
    var image := Combine(columns, x, |e|);
    CombineScales(columns, g, x, |e|);
    SquareOfSum(e, Scale(g, image));
    DotScale(e, g, image);
    DotScale(Scale(g, image), g, image);
    DotCommutes(Scale(g, image), image);
    DotScale(image, g, image);
    SolutionOpposesError(columns, lam, e, x);
    var s := Scale(g, image);
    Expand(g, Dot(Plus(e, s), Plus(e, s)), Dot(e, e), Dot(e, s), Dot(s, s), Dot(s, image),
           Dot(e, image), Dot(image, image), Times(lam, Dot(x, x)));
  }

  lemma Expand(g: real, total: real, before: real, es: real, ss: real, si: real, cross: real, energy: real, damped: real)
    requires total == before + 2.0 * es + ss && es == Times(g, cross) && ss == Times(g, si) && si == Times(g, energy)
    requires cross == -(energy + damped)
    ensures total == before - Saving(g, energy, damped)
  {
    assert g * cross == -(g * energy) - g * damped;
  }

  lemma NoEnergyLeft(a: real, lam: real, s: real)
    requires a >= 0.0 && s >= 0.0 && lam > 0.0 && a + lam * s == 0.0
    ensures s == 0.0
  {
    if s > 0.0 { MulStrict(0.0, s, lam); }
  }

  /** A damped step moves unless the gradient is already zero: nothing it could do would help. */
  lemma StepVanishesAtTheOptimum(columns: seq<Vec>, lam: real, e: Vec, x: Vec)
    requires IsMatrix(columns, |e|) && Solves(columns, lam, |e|, x, Scale(-1.0, Against(columns, e))) && lam > 0.0
    ensures x == Zeros(|x|) <==> Against(columns, e) == Zeros(|columns|)
  {
    hide Dot, Combine;
    var image := Combine(columns, x, |e|);
    if Against(columns, e) == Zeros(|columns|) {
      SolutionOpposesError(columns, lam, e, x);
      Adjoint(columns, x, e);
      DotZeros(x);
      NormIsPositive(image);
      NormIsPositive(x);
      NoEnergyLeft(Dot(image, image), lam, Dot(x, x));
    }
    if x == Zeros(|x|) {
      forall i | 0 <= i < |columns| ensures Against(columns, e)[i] == 0.0 {
        DotCommutes(NormalRow(columns, lam, i, |e|), x);
        assert Dot(NormalRow(columns, lam, i, |e|), x) == 0.0 by { DotZeros(NormalRow(columns, lam, i, |e|)); }
        assert Scale(-1.0, Against(columns, e))[i] == -Against(columns, e)[i];
      }
    }
  }

  /** Whenever the solve answers, its own model predicts an error no larger than the present one,
      strictly smaller if the damping is positive and there is any step at all. */
  lemma SolveIsADescentStep(solver: Solver, c: Calibration, features: Vec)
    requires IsSolver(solver) && c.Valid() && |features| == |c.goal| && Solve(solver, c, features).Step?
    ensures var answer := Solve(solver, c, features);
      var matrix, e := Normalized(c.columns, c.tolerance), InTolerances(answer.error, c.tolerance);
      && |answer.delta| == |matrix| && AllWithin(answer.delta, c.maxDelta)
      && (answer.settled <==> forall i :: 0 <= i < |answer.error| ==> Abs(answer.error[i]) <= c.tolerance[i])
      && var after := PredictedError(matrix, e, answer.delta);
         && Dot(after, after) <= Dot(e, e)
         && (Damping(c, matrix) > 0.0 && answer.delta != Zeros(|answer.delta|) ==> Dot(after, after) < Dot(e, e))
         && (Damping(c, matrix) > 0.0 ==> (answer.delta == Zeros(|answer.delta|) <==> Against(matrix, e) == Zeros(|matrix|)))
  {
    hide Dot, Combine, Against, Scale, Trace, Damping, PredictedError, Saving, Times;
    var answer := Solve(solver, c, features);
    var matrix, e := Normalized(c.columns, c.tolerance), InTolerances(answer.error, c.tolerance);
    var lam := Damping(c, matrix);
    var b := Scale(-1.0, Against(matrix, e));
    var x := solver(matrix, lam, |c.tolerance|, b).value;
    assert AnswersFor(solver, matrix, lam, |c.tolerance|, b);
    assert Solves(matrix, lam, |c.tolerance|, x, b);
    DampingNonNegative(c, matrix);
    SettledIsTheUnitCube(answer.error, c.tolerance);
    DescentIsExact(matrix, lam, e, x, c.gain);
    DescentIsDown(c.gain, lam, Combine(matrix, x, |e|), x);
    ScaleIsZero(c.gain, x);
    if lam > 0.0 {
      StepVanishesAtTheOptimum(matrix, lam, e, x);
    }
  }

  lemma DampingNonNegative(c: Calibration, matrix: seq<Vec>)
    requires c.Valid() && |matrix| > 0 && IsMatrix(matrix, |c.tolerance|)
    ensures Damping(c, matrix) >= 0.0
  {
    TraceNonNegative(matrix, |c.tolerance|);
    MulMonotone(0.0, Trace(matrix), c.damping);
    DivMonotone(0.0, c.damping * Trace(matrix), |matrix| as real);
  }

  lemma DescentIsDown(g: real, lam: real, image: Vec, x: Vec)
    requires 0.0 < g <= 1.0 && lam >= 0.0
    ensures var gain := Saving(g, Dot(image, image), Times(lam, Dot(x, x)));
      gain >= 0.0 && (lam > 0.0 && x != Zeros(|x|) ==> gain > 0.0)
  {
    hide Dot;
    NormIsPositive(image);
    NormIsPositive(x);
    TimesPositive(g, 2.0 - g);
    var k, s, t := Times(g, 2.0 - g), Dot(image, image), Dot(x, x);
    MulMonotone(0.0, s, k);
    MulMonotone(0.0, t, lam);
    MulMonotone(0.0, lam * t, g);
    if lam > 0.0 && x != Zeros(|x|) {
      MulStrict(0.0, t, lam);
      MulStrict(0.0, lam * t, g);
    }
  }

  lemma ScaleIsZero(g: real, x: Vec)
    requires g > 0.0
    ensures Scale(g, x) == Zeros(|x|) <==> x == Zeros(|x|)
  {
    if x == Zeros(|x|) {
      assert forall i :: 0 <= i < |x| ==> Times(g, x[i]) == 0.0;
    }
    if Scale(g, x) == Zeros(|x|) {
      forall i | 0 <= i < |x| ensures x[i] == 0.0 {
        assert Scale(g, x)[i] == 0.0;
        ScaledToZero(g, x[i]);
      }
    }
  }

  lemma ScaledToZero(g: real, v: real)
    requires g > 0.0 && Times(g, v) == 0.0
    ensures v == 0.0
  {
  }

  // ---- what the step is best at ---------------------------------------------------------------------------

  /** What damped least squares trades off: the predicted error against the size of the step. */
  function Cost(columns: seq<Vec>, lam: real, e: Vec, y: Vec): real
    requires |columns| == |y| && forall j :: 0 <= j < |columns| ==> |columns[j]| == |e|
  {
    Dot(PredictedError(columns, e, y), PredictedError(columns, e, y)) + Times(lam, Dot(y, y))
  }

  lemma {:induction false} CombineAdds(columns: seq<Vec>, x: Vec, d: Vec, rows: nat)
    requires |columns| == |x| == |d| && IsMatrix(columns, rows)
    ensures Combine(columns, Plus(x, d), rows) == Plus(Combine(columns, x, rows), Combine(columns, d, rows))
  {
    if columns != [] {
      var n := |columns| - 1;
      CombineAdds(columns[..n], x[..n], d[..n], rows);
      assert Plus(x, d)[..n] == Plus(x[..n], d[..n]);
      forall i | 0 <= i < rows ensures Times(x[n] + d[n], columns[n][i]) == Times(x[n], columns[n][i]) + Times(d[n], columns[n][i]) {
        Distribute(columns[n][i], x[n], d[n]);
      }
    }
  }

  /** At the solution the predicted error is balanced, column by column, by the damping. */
  lemma SolutionBalances(columns: seq<Vec>, lam: real, e: Vec, x: Vec)
    requires IsMatrix(columns, |e|) && Solves(columns, lam, |e|, x, Scale(-1.0, Against(columns, e)))
    ensures Against(columns, PredictedError(columns, e, x)) == Scale(-lam, x)
  {
    hide Dot, Combine;
    var after := PredictedError(columns, e, x);
    forall i | 0 <= i < |columns| ensures Dot(columns[i], after) == Times(-lam, x[i]) {
      NormalRowMeans(columns, lam, |e|, x, i);
      DotPlus(columns[i], e, Combine(columns, x, |e|));
      assert Scale(-1.0, Against(columns, e))[i] == -Dot(columns[i], e);
      assert Times(-lam, x[i]) == -(lam * x[i]);
    }
  }

  /** Whatever is added to the solution costs exactly its own image energy and damping more. */
  lemma DetoursCost(columns: seq<Vec>, lam: real, e: Vec, x: Vec, d: Vec)
    requires IsMatrix(columns, |e|) && Solves(columns, lam, |e|, x, Scale(-1.0, Against(columns, e))) && |d| == |x| == |columns|
    ensures var image := Combine(columns, d, |e|);
      Cost(columns, lam, e, Plus(x, d)) == Cost(columns, lam, e, x) + Dot(image, image) + Times(lam, Dot(d, d))
  {
    hide Dot, Times, Combine, Scale, Against, Solves, PredictedError, Plus, Cost, NormalRow, Zeros;
    var after, image, y := PredictedError(columns, e, x), Combine(columns, d, |e|), Plus(x, d);
    PredictionAdds(columns, e, x, d);
    CostIs(columns, lam, e, x, after);
    CostIs(columns, lam, e, y, Plus(after, image));
    SquareOfSum(after, image);
    SquareOfSum(x, d);
    DetourIsNeutral(columns, lam, e, x, d);
    Balance(lam, Dot(x, x), Dot(x, d), Dot(d, d), Dot(y, y), Dot(after, image));
  }

  lemma CostIs(columns: seq<Vec>, lam: real, e: Vec, y: Vec, after: Vec)
    requires |columns| == |y| && IsMatrix(columns, |e|) && after == PredictedError(columns, e, y)
    ensures Cost(columns, lam, e, y) == Dot(after, after) + Times(lam, Dot(y, y))
  {
    hide Dot, Times, PredictedError;
  }

  lemma PredictionAdds(columns: seq<Vec>, e: Vec, x: Vec, d: Vec)
    requires IsMatrix(columns, |e|) && |d| == |x| == |columns|
    ensures PredictedError(columns, e, Plus(x, d)) == Plus(PredictedError(columns, e, x), Combine(columns, d, |e|))
  {
    hide Combine;
    CombineAdds(columns, x, d, |e|);
  }

  /** To first order a detour trades predicted error for damping, one for one. */
  lemma DetourIsNeutral(columns: seq<Vec>, lam: real, e: Vec, x: Vec, d: Vec)
    requires IsMatrix(columns, |e|) && Solves(columns, lam, |e|, x, Scale(-1.0, Against(columns, e))) && |d| == |x| == |columns|
    ensures Dot(PredictedError(columns, e, x), Combine(columns, d, |e|)) == Times(-lam, Dot(x, d))
  {
    hide Dot, Times, Combine, Scale, Against, Solves;
    var after := PredictedError(columns, e, x);
    SolutionBalances(columns, lam, e, x);
    Adjoint(columns, d, after);
    DotScale(d, -lam, x);
    DotCommutes(d, x);
  }

  lemma Balance(lam: real, xx: real, xd: real, dd: real, total: real, cross: real)
    requires total == xx + 2.0 * xd + dd && cross == Times(-lam, xd)
    ensures Times(lam, total) + 2.0 * cross == Times(lam, xx) + Times(lam, dd)
  {
    assert lam * total == lam * xx + 2.0 * (lam * xd) + lam * dd;
  }

  /** The solution is the damped optimum: no other step costs less, and under damping every other
      step costs more. */
  lemma SolutionIsOptimal(columns: seq<Vec>, lam: real, e: Vec, x: Vec, y: Vec)
    requires IsMatrix(columns, |e|) && Solves(columns, lam, |e|, x, Scale(-1.0, Against(columns, e)))
    requires |y| == |x| == |columns| && lam >= 0.0
    ensures Cost(columns, lam, e, x) <= Cost(columns, lam, e, y)
    ensures lam > 0.0 && y != x ==> Cost(columns, lam, e, x) < Cost(columns, lam, e, y)
  {
    hide Dot, Combine, Solves, Scale, Against, Cost;
    var d := Plus(y, Scale(-1.0, x));
    Difference(x, y, d);
    DetoursCost(columns, lam, e, x, d);
    NormIsPositive(Combine(columns, d, |e|));
    NormIsPositive(d);
    MulMonotone(0.0, Dot(d, d), lam);
    if lam > 0.0 && y != x {
      TimesPositive(lam, Dot(d, d));
    }
  }

  lemma Difference(x: Vec, y: Vec, d: Vec)
    requires |x| == |y| && d == Plus(y, Scale(-1.0, x))
    ensures Plus(x, d) == y && (d == Zeros(|d|) ==> x == y)
  {
    assert forall i :: 0 <= i < |x| ==> d[i] == y[i] - x[i];
    assert Plus(x, d) == y;
    if d == Zeros(|d|) {
      assert forall i :: 0 <= i < |x| ==> d[i] == 0.0;
    }
  }

  /** Only a step that moves no feature and is not damped solves the system with nothing on its right:
      so any damping makes the system non-singular, and without it the system is singular exactly when
      the columns depend on each other. */
  lemma SingularExactly(columns: seq<Vec>, lam: real, rows: nat, x: Vec)
    requires IsMatrix(columns, rows) && |x| == |columns| && lam >= 0.0
    ensures Solves(columns, lam, rows, x, Zeros(|columns|))
      <==> Combine(columns, x, rows) == Zeros(rows) && (lam == 0.0 || x == Zeros(|x|))
    ensures lam > 0.0 && Solves(columns, lam, rows, x, Zeros(|columns|)) ==> x == Zeros(|x|)
  {
    hide Dot, Combine, Solves, Zeros;
    if Solves(columns, lam, rows, x, Zeros(|columns|)) {
      KernelIsStill(columns, lam, rows, x);
    }
    if Combine(columns, x, rows) == Zeros(rows) && (lam == 0.0 || x == Zeros(|x|)) {
      StillIsKernel(columns, lam, rows, x);
    }
  }

  lemma KernelIsStill(columns: seq<Vec>, lam: real, rows: nat, x: Vec)
    requires IsMatrix(columns, rows) && |x| == |columns| && lam >= 0.0 && Solves(columns, lam, rows, x, Zeros(|columns|))
    ensures Combine(columns, x, rows) == Zeros(rows) && (lam == 0.0 || x == Zeros(|x|))
  {
    hide Dot, Combine, Solves, Scale, Against;
    var image, nothing := Combine(columns, x, rows), Zeros(rows);
    NothingAgainst(columns, rows);
    SolutionOpposesError(columns, lam, nothing, x);
    DotCommutes(nothing, image);
    DotZeros(image);
    NormIsPositive(image);
    NormIsPositive(x);
    MulMonotone(0.0, Dot(x, x), lam);
    if lam > 0.0 { NoEnergyLeft(Dot(image, image), lam, Dot(x, x)); }
  }

  lemma StillIsKernel(columns: seq<Vec>, lam: real, rows: nat, x: Vec)
    requires IsMatrix(columns, rows) && |x| == |columns|
    requires Combine(columns, x, rows) == Zeros(rows) && (lam == 0.0 || x == Zeros(|x|))
    ensures Solves(columns, lam, rows, x, Zeros(|columns|))
  {
    hide Dot, Combine, NormalRow;
    forall i | 0 <= i < |columns| ensures Dot(NormalRow(columns, lam, i, rows), x) == 0.0 {
      NormalRowMeans(columns, lam, rows, x, i);
      DotZeros(columns[i]);
      assert lam == 0.0 || x[i] == 0.0;
    }
  }

  lemma NothingAgainst(columns: seq<Vec>, rows: nat)
    requires IsMatrix(columns, rows)
    ensures Scale(-1.0, Against(columns, Zeros(rows))) == Zeros(|columns|)
  {
    forall i | 0 <= i < |columns| ensures Dot(columns[i], Zeros(rows)) == 0.0 {
      DotZeros(columns[i]);
    }
  }

  /** Whenever the solve answers, its step is the configured fraction of the damped optimum. */
  lemma SolveAimsAtTheOptimum(solver: Solver, c: Calibration, features: Vec) returns (best: Vec)
    requires IsSolver(solver) && c.Valid() && |features| == |c.goal| && Solve(solver, c, features).Step?
    ensures var answer := Solve(solver, c, features);
      var matrix, e := Normalized(c.columns, c.tolerance), InTolerances(answer.error, c.tolerance);
      && |best| == |matrix| && answer.delta == Scale(c.gain, best)
      && forall y: Vec :: |y| == |matrix| ==>
           && Cost(matrix, Damping(c, matrix), e, best) <= Cost(matrix, Damping(c, matrix), e, y)
           && (Damping(c, matrix) > 0.0 && y != best ==>
                 Cost(matrix, Damping(c, matrix), e, best) < Cost(matrix, Damping(c, matrix), e, y))
  {
    hide Dot, Combine, Against, Scale, Trace, Damping, PredictedError, Cost;
    var answer := Solve(solver, c, features);
    var matrix, e := Normalized(c.columns, c.tolerance), InTolerances(answer.error, c.tolerance);
    var lam, b := Damping(c, matrix), Scale(-1.0, Against(matrix, e));
    best := solver(matrix, lam, |c.tolerance|, b).value;
    assert AnswersFor(solver, matrix, lam, |c.tolerance|, b);
    DampingNonNegative(c, matrix);
    forall y: Vec | |y| == |matrix|
      ensures Cost(matrix, lam, e, best) <= Cost(matrix, lam, e, y)
      ensures lam > 0.0 && y != best ==> Cost(matrix, lam, e, best) < Cost(matrix, lam, e, y)
    {
      SolutionIsOptimal(matrix, lam, e, best, y);
    }
  }

  // ---- the same, in the features' own units -------------------------------------------------------------

  ghost function SumSquares(v: Vec): real {
    if v == [] then 0.0 else SumSquares(v[..|v| - 1]) + Square(v[|v| - 1])
  }

  /** How far the taught columns say a step moves a feature. */
  ghost function Moves(columns: seq<Vec>, y: Vec, f: nat): real
    requires |columns| == |y| && forall j :: 0 <= j < |columns| ==> f < |columns[j]|
  {
    if columns == [] then 0.0 else
      var n := |columns| - 1;
      Moves(columns[..n], y[..n], f) + Times(y[n], columns[n][f])
  }

  /** The error of a feature, as predicted after a step, in tolerances. */
  ghost function Off(c: Calibration, error: Vec, y: Vec, f: nat): real
    requires c.Valid() && |error| == |c.goal| && |y| == |c.columns| && f < |error|
  {
    (error[f] + Moves(c.columns, y, f)) / c.tolerance[f]
  }

  ghost function Residuals(c: Calibration, error: Vec, y: Vec): (r: Vec)
    requires c.Valid() && |error| == |c.goal| && |y| == |c.columns|
    ensures |r| == |error|
  {
    seq(|error|, f requires 0 <= f < |error| => Off(c, error, y, f))
  }

  /** The squared sensitivities of all features to all joints, in tolerances. */
  ghost function Curvature(columns: seq<Vec>, tolerance: Vec): real
    requires IsMatrix(columns, |tolerance|) && forall f :: 0 <= f < |tolerance| ==> tolerance[f] > 0.0
  {
    if columns == [] then 0.0 else
      var n := |columns| - 1;
      Curvature(columns[..n], tolerance) + SumSquares(seq(|tolerance|, f requires 0 <= f < |tolerance| => columns[n][f] / tolerance[f]))
  }

  /** What a step is judged by: the squared error it is predicted to leave, and its own size, weighed by the
      configured fraction of the mean curvature. */
  ghost function Objective(c: Calibration, error: Vec, y: Vec): real
    requires c.Valid() && |error| == |c.goal| && |y| == |c.columns|
  {
    SumSquares(Residuals(c, error, y))
    + Times(Weight(c), SumSquares(y))
  }

  /** The damping is a fraction of the mean curvature. */
  ghost function Weight(c: Calibration): real
    requires c.Valid()
  {
    c.damping * (Curvature(c.columns, c.tolerance) / |c.columns| as real)
  }

  /** Each feature less its goal, an angle by whole half turns into [-90, 90). */
  ghost predicate Differs(c: Calibration, features: Vec, error: Vec) {
    && |features| == |c.goal| == |error| == |c.angular|
    && forall f :: 0 <= f < |error| ==> Apart(features[f] - c.goal[f], c.angular[f], error[f])
  }

  ghost predicate Apart(difference: real, angular: bool, error: real) {
    if angular then -90.0 <= error < 90.0 && exists k: int :: HalfTurns(difference, error, k) else error == difference
  }

  predicate HalfTurns(difference: real, error: real, k: int) {
    error == difference - 180.0 * k as real
  }

  ghost predicate IsBest(c: Calibration, error: Vec, best: Vec)
    requires c.Valid() && |error| == |c.goal|
  {
    && |best| == |c.columns|
    && forall y: Vec :: |y| == |best| ==> Beats(c, error, best, y)
  }

  ghost predicate Beats(c: Calibration, error: Vec, best: Vec, y: Vec)
    requires c.Valid() && |error| == |c.goal| && |y| == |best| == |c.columns|
  {
    && Objective(c, error, best) <= Objective(c, error, y)
    && (c.damping > 0.0 && Curvature(c.columns, c.tolerance) > 0.0 && y != best ==> Objective(c, error, best) < Objective(c, error, y))
  }

  lemma {:induction false} DotIsSquares(v: Vec)
    ensures Dot(v, v) == SumSquares(v)
  {
    if v != [] {
      hide Dot;
      DotIsSquares(v[..|v| - 1]);
      DotLast(v, v, |v| - 1);
    } else {
      assert Dot(v, v) == 0.0;
    }
  }

  lemma {:induction false} CombineMoves(columns: seq<Vec>, tolerance: Vec, y: Vec, f: nat)
    requires IsMatrix(columns, |tolerance|) && (forall i :: 0 <= i < |tolerance| ==> tolerance[i] > 0.0)
    requires |columns| == |y| && f < |tolerance|
    ensures Combine(Normalized(columns, tolerance), y, |tolerance|)[f] == Moves(columns, y, f) / tolerance[f]
  {
    if columns != [] {
      var n := |columns| - 1;
      CombineMoves(columns[..n], tolerance, y[..n], f);
      assert Normalized(columns, tolerance)[..n] == Normalized(columns[..n], tolerance);
      DivOut(y[n], columns[n][f], tolerance[f]);
      DivAdd(Moves(columns[..n], y[..n], f), Times(y[n], columns[n][f]), tolerance[f]);
    }
  }

  lemma DivOut(a: real, b: real, c: real)
    requires c > 0.0
    ensures Times(a, b / c) == Times(a, b) / c
  {
    var q := b / c;
    DivCancel(b, c);
    assert a * q * c == a * b;
  }

  lemma DivAdd(a: real, b: real, c: real)
    requires c > 0.0
    ensures (a + b) / c == a / c + b / c
  {
  }

  lemma {:induction false} TraceIsCurvature(columns: seq<Vec>, tolerance: Vec)
    requires IsMatrix(columns, |tolerance|) && forall i :: 0 <= i < |tolerance| ==> tolerance[i] > 0.0
    ensures Trace(Normalized(columns, tolerance)) == Curvature(columns, tolerance)
  {
    if columns != [] {
      hide Dot;
      var n := |columns| - 1;
      TraceIsCurvature(columns[..n], tolerance);
      assert Normalized(columns, tolerance)[..n] == Normalized(columns[..n], tolerance);
      DotIsSquares(InTolerances(columns[n], tolerance));
      assert InTolerances(columns[n], tolerance)
        == seq(|tolerance|, f requires 0 <= f < |tolerance| => columns[n][f] / tolerance[f]);
    }
  }

  lemma ObjectiveIsCost(c: Calibration, error: Vec, y: Vec)
    requires c.Valid() && |error| == |c.goal| && |y| == |c.columns|
    ensures var matrix, e := Normalized(c.columns, c.tolerance), InTolerances(error, c.tolerance);
      Objective(c, error, y) == Cost(matrix, Damping(c, matrix), e, y)
  {
    hide Dot, Times, Combine, Moves, Curvature, Trace, Damping, Weight;
    var matrix, e := Normalized(c.columns, c.tolerance), InTolerances(error, c.tolerance);
    var after := PredictedError(matrix, e, y);
    forall f | 0 <= f < |error| ensures after[f] == Off(c, error, y, f) {
      CombineMoves(c.columns, c.tolerance, y, f);
      DivAdd(error[f], Moves(c.columns, y, f), c.tolerance[f]);
    }
    assert after == Residuals(c, error, y);
    DotIsSquares(after);
    DotIsSquares(y);
    TraceIsCurvature(c.columns, c.tolerance);
    DampingIs(c, matrix);
  }

  lemma DampingIs(c: Calibration, matrix: seq<Vec>)
    requires c.Valid() && |matrix| == |c.columns| && Trace(matrix) == Curvature(c.columns, c.tolerance)
    ensures Damping(c, matrix) == Weight(c)
  {
    hide Trace, Curvature;
    FractionOf(c.damping, Trace(matrix), |matrix| as real);
  }

  lemma FractionOf(a: real, b: real, n: real)
    requires n > 0.0
    ensures a * b / n == a * (b / n)
  {
    DivOut(a, b, n);
  }

  lemma ErrorIsApart(c: Calibration, features: Vec, error: Vec)
    requires c.Valid() && Differs(c, features, error)
    ensures FeatureError(features, c.goal, c.angular) == error
  {
    forall f | 0 <= f < |error| ensures FeatureError(features, c.goal, c.angular)[f] == error[f] {
      assert Apart(features[f] - c.goal[f], c.angular[f], error[f]);
      if c.angular[f] {
        var k: int :| HalfTurns(features[f] - c.goal[f], error[f], k);
        WrapMeans(features[f] - c.goal[f], k);
      }
    }
  }

  /** The solve in its own words: unless the system is singular, it aims at the step with the least objective,
      takes the configured fraction of it, and answers exactly if no joint is asked for more than the Jacobian
      is trusted for; it has settled exactly if every feature is within its own tolerance. */
  lemma SolveTakesTheBestStep(solver: Solver, c: Calibration, features: Vec, error: Vec) returns (best: Vec)
    requires IsSolver(solver) && c.Valid() && Differs(c, features, error) && !Solve(solver, c, features).Singular?
    ensures IsBest(c, error, best)
    ensures var answer := Solve(solver, c, features);
      if forall j :: 0 <= j < |best| ==> Abs(Times(c.gain, best[j])) <= c.maxDelta then
        && answer.Step? && answer.error == error
        && |answer.delta| == |best| && (forall j :: 0 <= j < |best| ==> answer.delta[j] == Times(c.gain, best[j]))
        && (answer.settled <==> forall f :: 0 <= f < |error| ==> Abs(error[f]) <= c.tolerance[f])
      else answer.UnsupportedSolve?
  {
    hide Dot, Combine, Against, Trace, Damping, PredictedError, Cost, Objective, Differs, Curvature;
    ErrorIsApart(c, features, error);
    var matrix, e := Normalized(c.columns, c.tolerance), InTolerances(error, c.tolerance);
    var lam, b := Damping(c, matrix), Scale(-1.0, Against(matrix, e));
    best := solver(matrix, lam, |c.tolerance|, b).value;
    assert AnswersFor(solver, matrix, lam, |c.tolerance|, b);
    SettledIsTheUnitCube(error, c.tolerance);
    forall y: Vec | |y| == |best| ensures Beats(c, error, best, y) {
      BestBeats(c, error, best, y);
    }
    var step := Scale(c.gain, best);
    assert AllWithin(step, c.maxDelta) <==> forall j :: 0 <= j < |best| ==> Abs(Times(c.gain, best[j])) <= c.maxDelta by {
      forall j | 0 <= j < |best| ensures step[j] == Times(c.gain, best[j]) {
      }
    }
  }

  lemma BestBeats(c: Calibration, error: Vec, best: Vec, y: Vec)
    requires c.Valid() && |error| == |c.goal| && |y| == |best| == |c.columns|
    requires var matrix, e := Normalized(c.columns, c.tolerance), InTolerances(error, c.tolerance);
      Solves(matrix, Damping(c, matrix), |c.tolerance|, best, Scale(-1.0, Against(matrix, e)))
    ensures Beats(c, error, best, y)
  {
    hide Dot, Combine, Against, Scale, Trace, PredictedError, Cost, Objective, Solves, Curvature;
    var matrix, e := Normalized(c.columns, c.tolerance), InTolerances(error, c.tolerance);
    DampingNonNegative(c, matrix);
    SolutionIsOptimal(matrix, Damping(c, matrix), e, best, y);
    ObjectiveIsCost(c, error, best);
    ObjectiveIsCost(c, error, y);
    TraceIsCurvature(c.columns, c.tolerance);
    FractionOf(c.damping, Trace(matrix), |matrix| as real);
    if c.damping > 0.0 && Curvature(c.columns, c.tolerance) > 0.0 {
      TimesPositive(c.damping, Trace(matrix));
      Shares(c.damping * Trace(matrix), |matrix| as real);
    }
  }

  lemma Shares(a: real, n: real)
    requires a > 0.0 && n > 0.0
    ensures a / n > 0.0
  {
    DivCancel(a, n);
    if a / n <= 0.0 { MulMonotone(a / n, 0.0, n); }
  }

  // ---- carrying the step out ----------------------------------------------------------------------------------

  /** `joint_target`: the step over the measured pose. `servo[j]` is the arm joint the j-th step moves. */
  function JointTarget(measured: Vec, servo: seq<nat>, delta: Vec): (r: Vec)
    requires |servo| == |delta|
    ensures |r| == |measured|
  {
    seq(|measured|, i requires 0 <= i < |measured| => measured[i] + DeltaFor(servo, delta, i))
  }

  function DeltaFor(servo: seq<nat>, delta: Vec, i: nat): real
    requires |servo| == |delta|
  {
    if servo == [] then 0.0
    else if servo[|servo| - 1] == i then delta[|delta| - 1]
    else DeltaFor(servo[..|servo| - 1], delta[..|delta| - 1], i)
  }

  /** Exactly the taught joints move, each by its own step; the others hold where they were measured. */
  lemma {:induction false} OnlyServoJointsMove(measured: Vec, servo: seq<nat>, delta: Vec, i: nat)
    requires |servo| == |delta| && i < |measured|
    requires forall a, b :: 0 <= a < b < |servo| ==> servo[a] != servo[b]
    ensures i !in servo ==> JointTarget(measured, servo, delta)[i] == measured[i]
    ensures forall j :: 0 <= j < |servo| && servo[j] == i ==> JointTarget(measured, servo, delta)[i] == measured[i] + delta[j]
  {
    if servo != [] {
      OnlyServoJointsMove(measured, servo[..|servo| - 1], delta[..|delta| - 1], i);
    }
  }
}
