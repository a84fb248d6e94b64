/** Replay preflight: what is decided about an episode before anything is claimed. */
module ReplayPreflight {
  import opened Reals
  import opened Contracts

  datatype LimitPolicy = Reject | ClampWithinTolerance | Clamp

  datatype Request = Request(startFrame: int, endFrame: Option<int>, speed: real, policy: LimitPolicy, tolerance: real)

  /** The operator's approval. */
  datatype Approval = Approval(policy: LimitPolicy, tolerance: real)

  datatype Settings = Settings(
    maxFps: real, maxSpeedScale: real, maxStep: Option<real>, trackingLimit: real, heartbeatInterval: real, maxMissed: nat)

  /** A recorded episode as the reader returns it: equal columns, frames numbered from zero. */
  datatype Episode = Episode(compatible: bool, fps: real, actions: seq<seq<real>>, states: seq<seq<real>>, frameIndices: seq<nat>) {
    ghost predicate Valid(joints: nat) {
      && |actions| == |states| == |frameIndices| > 0 && Shaped(actions, joints) && Shaped(states, joints)
      && (forall i :: 0 <= i < |frameIndices| ==> frameIndices[i] == i)
    }
  }

  ghost predicate Shaped(rows: seq<seq<real>>, joints: nat) {
    forall i :: 0 <= i < |rows| ==> |rows[i]| == joints
  }

  datatype Refusal = CompatibilityError | LimitError

  datatype Result<+T> = Ok(value: T) | Refused(error: Refusal)

  datatype Plan = Plan(
    fps: real, firstFrame: nat, lastFrame: nat, frameIndices: seq<nat>, actions: seq<seq<real>>, requested: seq<seq<real>>,
    initial: seq<real>, clippedFrames: nat, maxClipping: real, initialClipping: real, maxStep: real)

  // ---- the joint frame -------------------------------------------------------------------------------

  /** Radians to the recording's degrees: a common scale and a measured offset per joint. */
  datatype JointFrame = JointFrame(degPerRad: real, offsets: seq<real>) {
    function ToDegrees(radians: seq<real>): (r: seq<real>)
      requires |radians| == |offsets|
      ensures |r| == |radians|
    {
      seq(|radians|, i requires 0 <= i < |radians| => radians[i] * degPerRad + offsets[i])
    }

    function ToRadians(degrees: seq<real>): (r: seq<real>)
      requires |degrees| == |offsets| && degPerRad != 0.0
      ensures |r| == |degrees|
    {
      seq(|degrees|, i requires 0 <= i < |degrees| => (degrees[i] - offsets[i]) / degPerRad)
    }
  }

  lemma FrameRoundTrip(f: JointFrame, degrees: seq<real>)
    requires |degrees| == |f.offsets| && f.degPerRad > 0.0
    ensures f.ToDegrees(f.ToRadians(degrees)) == degrees
  {
    forall i | 0 <= i < |degrees| ensures f.ToDegrees(f.ToRadians(degrees))[i] == degrees[i] {
      DivCancel(degrees[i] - f.offsets[i], f.degPerRad);
    }
  }

  function Bounds(limits: seq<JointLimit>, upper: bool): (r: seq<real>)
    ensures |r| == |limits|
  {
    seq(|limits|, i requires 0 <= i < |limits| => if upper then limits[i].upper else limits[i].lower)
  }

  /** `limits_in_degrees`: refused when the conversion does not keep every range in order. */
  function LimitsInDegrees(limits: seq<JointLimit>, f: JointFrame): (r: Result<(seq<real>, seq<real>)>)
    requires |limits| == |f.offsets|
    ensures r.Ok? ==> |r.value.0| == |r.value.1| == |limits|
  {
    var lower, upper := f.ToDegrees(Bounds(limits, false)), f.ToDegrees(Bounds(limits, true));
    if exists i :: 0 <= i < |limits| && lower[i] >= upper[i] then Refused(CompatibilityError) else Ok((lower, upper))
  }

  predicate InRange(row: seq<real>, lower: seq<real>, upper: seq<real>)
    requires |row| == |lower| == |upper|
  {
    forall j :: 0 <= j < |row| ==> lower[j] <= row[j] <= upper[j]
  }

  /** A pose is in the degree limits exactly when its radians are in the driver's soft limits. */
  lemma DegreeLimitsAreTheSoftLimits(limits: seq<JointLimit>, f: JointFrame, row: seq<real>)
    requires |limits| == |f.offsets| == |row| && f.degPerRad > 0.0 && LimitsInDegrees(limits, f).Ok?
    ensures InRange(row, LimitsInDegrees(limits, f).value.0, LimitsInDegrees(limits, f).value.1)
      <==> InLimits(f.ToRadians(row), limits, 0.0)
  {
    var (lower, upper) := LimitsInDegrees(limits, f).value;
    forall j | 0 <= j < |row| ensures lower[j] <= row[j] <= upper[j] <==> limits[j].Contains(f.ToRadians(row)[j], 0.0) {
      assert lower[j] == limits[j].lower * f.degPerRad + f.offsets[j];
      assert upper[j] == limits[j].upper * f.degPerRad + f.offsets[j];
      assert f.ToRadians(row)[j] == (row[j] - f.offsets[j]) / f.degPerRad;
      JointInDegrees(limits[j], f.offsets[j], f.degPerRad, row[j]);
    }
  }

  lemma JointInDegrees(limit: JointLimit, offset: real, k: real, value: real)
    requires k > 0.0
    ensures limit.lower * k + offset <= value <= limit.upper * k + offset <==> limit.Contains((value - offset) / k, 0.0)
  {
    ScaledInterval(limit.lower, limit.upper, value - offset, k);
  }

  lemma ScaledInterval(lower: real, upper: real, x: real, k: real)
    requires k > 0.0
    ensures lower * k <= x <= upper * k <==> lower <= x / k <= upper
  {
    DivAtMost(x, upper, k);
    DivCancel(x, k);
    Order(lower, x / k, k, lower * k, x);
  }

  // ---- applying the limits ------------------------------------------------------------------------------

  function Clip(v: real, lower: real, upper: real): real {
    Min(Max(v, lower), upper)
  }

  function ClipRow(row: seq<real>, lower: seq<real>, upper: seq<real>): (r: seq<real>)
    requires |row| == |lower| == |upper|
    ensures |r| == |row|
  {
    seq(|row|, j requires 0 <= j < |row| => Clip(row[j], lower[j], upper[j]))
  }

  function ClipAll(rows: seq<seq<real>>, lower: seq<real>, upper: seq<real>): (r: seq<seq<real>>)
    requires |lower| == |upper| && forall i :: 0 <= i < |rows| ==> |rows[i]| == |lower|
    ensures |r| == |rows| && forall i :: 0 <= i < |rows| ==> |r[i]| == |lower| && r[i] == ClipRow(rows[i], lower, upper)
  {
    seq(|rows|, i requires 0 <= i < |rows| => ClipRow(rows[i], lower, upper))
  }

  /** The largest deviation of any value, and how many rows have one. */
  function Worst(rows: seq<seq<real>>, clamped: seq<seq<real>>): real
    requires |rows| == |clamped| && forall i :: 0 <= i < |rows| ==> |rows[i]| == |clamped[i]|
  {
    if rows == [] then 0.0 else
      var n := |rows| - 1;
      Max(Worst(rows[..n], clamped[..n]), MaxDistance(rows[n], clamped[n]))
  }

  function Offending(rows: seq<seq<real>>, clamped: seq<seq<real>>): nat
    requires |rows| == |clamped| && forall i :: 0 <= i < |rows| ==> |rows[i]| == |clamped[i]|
  {
    if rows == [] then 0 else
      var n := |rows| - 1;
      Offending(rows[..n], clamped[..n]) + if MaxDistance(rows[n], clamped[n]) > 0.0 then 1 else 0
  }

  datatype Applied = Applied(clamped: seq<seq<real>>, frames: nat, worst: real)

  function ApplyLimits(rows: seq<seq<real>>, lower: seq<real>, upper: seq<real>, policy: LimitPolicy, tolerance: real): Result<Applied>
    requires |lower| == |upper| && forall i :: 0 <= i < |rows| ==> |rows[i]| == |lower|
  {
    var clamped := ClipAll(rows, lower, upper);
    var worst := Worst(rows, clamped);
    if worst == 0.0 then Ok(Applied(clamped, 0, 0.0))
    else if policy == Reject then Refused(LimitError)
    else if policy == ClampWithinTolerance && worst > tolerance then Refused(LimitError)
    else Ok(Applied(clamped, Offending(rows, clamped), worst))
  }

  lemma ClipMeans(v: real, lower: real, upper: real)
    requires lower <= upper
    ensures lower <= Clip(v, lower, upper) <= upper
    ensures Clip(v, lower, upper) == v <==> lower <= v <= upper
  {
  }

  lemma {:induction false} WorstBounds(rows: seq<seq<real>>, clamped: seq<seq<real>>)
    requires |rows| == |clamped| && forall i :: 0 <= i < |rows| ==> |rows[i]| == |clamped[i]|
    ensures Worst(rows, clamped) >= 0.0
    ensures forall i :: 0 <= i < |rows| ==> MaxDistance(rows[i], clamped[i]) <= Worst(rows, clamped)
    ensures Worst(rows, clamped) == 0.0 || exists i :: 0 <= i < |rows| && MaxDistance(rows[i], clamped[i]) == Worst(rows, clamped)
    ensures Worst(rows, clamped) == 0.0 <==> Offending(rows, clamped) == 0
  {
    hide MaxDistance;
    if rows != [] {
      var n := |rows| - 1;
      WorstBounds(rows[..n], clamped[..n]);
      MaxDistanceBounds(rows[n], clamped[n], 0.0);
      forall i | 0 <= i < |rows| ensures MaxDistance(rows[i], clamped[i]) <= Worst(rows, clamped) {
        if i < n {
          assert rows[..n][i] == rows[i] && clamped[..n][i] == clamped[i];
        }
      }
      if Worst(rows, clamped) > MaxDistance(rows[n], clamped[n]) {
        var i :| 0 <= i < n && MaxDistance(rows[..n][i], clamped[..n][i]) == Worst(rows[..n], clamped[..n]);
        assert MaxDistance(rows[i], clamped[i]) == Worst(rows, clamped);
      }
    }
  }

  lemma RowUnmoved(row: seq<real>, lower: seq<real>, upper: seq<real>)
    requires |row| == |lower| == |upper| && forall j :: 0 <= j < |row| ==> lower[j] < upper[j]
    ensures InRange(ClipRow(row, lower, upper), lower, upper)
    ensures MaxDistance(row, ClipRow(row, lower, upper)) == 0.0 <==> InRange(row, lower, upper)
  {
    hide MaxDistance;
    var r := ClipRow(row, lower, upper);
    MaxDistanceBounds(row, r, 0.0);
    forall j | 0 <= j < |row| ensures lower[j] <= r[j] <= upper[j] && (Abs(row[j] - r[j]) <= 0.0 <==> lower[j] <= row[j] <= upper[j]) {
      ClipMeans(row[j], lower[j], upper[j]);
    }
  }

  /** How far a row lies outside the limits: the least uniform slack that would admit it. */
  predicate NearRange(row: seq<real>, lower: seq<real>, upper: seq<real>, slack: real)
    requires |row| == |lower| == |upper|
  {
    forall j :: 0 <= j < |row| ==> lower[j] - slack <= row[j] <= upper[j] + slack
  }

  lemma RowDeviation(row: seq<real>, lower: seq<real>, upper: seq<real>, slack: real)
    requires |row| == |lower| == |upper| && forall j :: 0 <= j < |row| ==> lower[j] < upper[j]
    requires slack >= 0.0
    ensures MaxDistance(row, ClipRow(row, lower, upper)) <= slack <==> NearRange(row, lower, upper, slack)
  {
    hide MaxDistance;
    MaxDistanceBounds(row, ClipRow(row, lower, upper), slack);
    forall j | 0 <= j < |row| ensures Abs(row[j] - ClipRow(row, lower, upper)[j]) <= slack <==> lower[j] - slack <= row[j] <= upper[j] + slack {
    }
  }

  ghost predicate Ordered(lower: seq<real>, upper: seq<real>) {
    |lower| == |upper| && forall j :: 0 <= j < |lower| ==> lower[j] < upper[j]
  }

  predicate Admits(policy: LimitPolicy, tolerance: real, row: seq<real>, lower: seq<real>, upper: seq<real>)
    requires |row| == |lower| == |upper|
  {
    match policy
    case Reject => InRange(row, lower, upper)
    case ClampWithinTolerance => NearRange(row, lower, upper, tolerance)
    case Clamp => true
  }

  /** What each policy admits, exactly: `reject` only rows in the limits, the tolerant policy only
      rows within its tolerance of them, and `clamp` anything. */
  lemma PolicyAdmitsExactly(rows: seq<seq<real>>, lower: seq<real>, upper: seq<real>, policy: LimitPolicy, tolerance: real)
    requires Ordered(lower, upper) && Shaped(rows, |lower|) && tolerance >= 0.0
    ensures ApplyLimits(rows, lower, upper, policy, tolerance).Ok? <==>
      forall i :: 0 <= i < |rows| ==> Admits(policy, tolerance, rows[i], lower, upper)
  {
    hide MaxDistance, Clip, InRange, NearRange, Worst, Offending;
    var clamped := ClipAll(rows, lower, upper);
    WorstBounds(rows, clamped);
    forall i | 0 <= i < |rows|
      ensures MaxDistance(rows[i], clamped[i]) == 0.0 <==> InRange(rows[i], lower, upper)
      ensures MaxDistance(rows[i], clamped[i]) <= tolerance <==> NearRange(rows[i], lower, upper, tolerance)
      ensures MaxDistance(rows[i], clamped[i]) >= 0.0
    {
      RowUnmoved(rows[i], lower, upper);
      RowDeviation(rows[i], lower, upper, tolerance);
      MaxDistanceBounds(rows[i], clamped[i], 0.0);
    }
  }

  // ---- clamping and steps --------------------------------------------------------------------------------

  lemma ClipIsNonExpansive(a: real, b: real, lower: real, upper: real)
    requires lower <= upper
    ensures Abs(Clip(a, lower, upper) - Clip(b, lower, upper)) <= Abs(a - b)
  {
  }

  /** Clamping two frames never moves them further apart. */
  lemma ClampNeverWidens(a: seq<real>, b: seq<real>, lower: seq<real>, upper: seq<real>)
    requires |a| == |b| == |lower| && Ordered(lower, upper)
    ensures MaxDistance(ClipRow(a, lower, upper), ClipRow(b, lower, upper)) <= MaxDistance(a, b)
  {
    hide MaxDistance, Clip;
    MaxDistanceBounds(a, b, 0.0);
    var wide := MaxDistance(a, b);
    MaxDistanceBounds(ClipRow(a, lower, upper), ClipRow(b, lower, upper), wide);
    forall j | 0 <= j < |a| ensures Abs(ClipRow(a, lower, upper)[j] - ClipRow(b, lower, upper)[j]) <= wide {
      ClipIsNonExpansive(a[j], b[j], lower[j], upper[j]);
      assert Abs(a[j] - b[j]) <= wide;
    }
  }

  /** The largest frame-to-frame step of the recording. */
  function MaxStep(rows: seq<seq<real>>): real
    requires forall i :: 0 <= i < |rows| ==> |rows[i]| == |rows[0]|
  {
    if |rows| <= 1 then 0.0 else
      var n := |rows| - 1;
      Max(MaxStep(rows[..n]), MaxDistance(rows[n], rows[n - 1]))
  }

  lemma {:induction false} MaxStepBounds(rows: seq<seq<real>>)
    requires forall i :: 0 <= i < |rows| ==> |rows[i]| == |rows[0]|
    ensures forall i :: 1 <= i < |rows| ==> MaxDistance(rows[i], rows[i - 1]) <= MaxStep(rows)
    ensures MaxStep(rows) == 0.0 || exists i :: 1 <= i < |rows| && MaxDistance(rows[i], rows[i - 1]) == MaxStep(rows)
    ensures MaxStep(rows) >= 0.0
  {
    hide MaxDistance;
    if |rows| > 1 {
      var n := |rows| - 1;
      MaxStepBounds(rows[..n]);
      if i :| 1 <= i < n && MaxDistance(rows[..n][i], rows[..n][i - 1]) == MaxStep(rows[..n]) {
        assert rows[..n][i] == rows[i] && rows[..n][i - 1] == rows[i - 1];
      }
      forall i | 1 <= i < |rows| ensures MaxDistance(rows[i], rows[i - 1]) <= MaxStep(rows) {
        if i < n {
          assert rows[..n][i] == rows[i] && rows[..n][i - 1] == rows[i - 1];
        }
      }
    }
  }

  // ---- the whole check ----------------------------------------------------------------------------------

  function ResolveRange(length: nat, request: Request, settings: Settings): (r: Result<(nat, nat)>)
    ensures r.Ok? <==>
      && 0.0 < request.speed <= settings.maxSpeedScale && 0 <= request.startFrame < length
      && (request.endFrame.Some? ==> request.startFrame <= request.endFrame.value < length)
    ensures r.Ok? ==> 0 <= r.value.0 <= r.value.1 < length && r.value.0 == request.startFrame
    ensures r.Ok? ==> r.value.1 == if request.endFrame.Some? then request.endFrame.value else length - 1
    ensures r.Refused? ==> r.error == CompatibilityError
  {
    var first := request.startFrame;
    var last := if request.endFrame.None? then length - 1 else request.endFrame.value;
    if first < 0 || first >= length then Refused(CompatibilityError)
    else if last < first || last >= length then Refused(CompatibilityError)
    else if !(0.0 < request.speed <= settings.maxSpeedScale) then Refused(CompatibilityError)
    else Ok((first, last))
  }

  /** Passes the request on unless it asks for more than was approved. */
  function ResolvePolicy(request: Request, approval: Option<Approval>): Result<(LimitPolicy, real)> {
    if approval.None? then Ok((request.policy, request.tolerance))
    else if request.tolerance > approval.value.tolerance then Refused(LimitError)
    else if request.policy == Clamp && approval.value.policy != Clamp then Refused(LimitError)
    else Ok((request.policy, request.tolerance))
  }

  function Check(episode: Episode, request: Request, approval: Option<Approval>, settings: Settings,
      limits: seq<JointLimit>, frame: JointFrame): Result<Plan>
    requires episode.Valid(|limits|) && |frame.offsets| == |limits|
  {
    if !episode.compatible || !(0.0 < episode.fps <= settings.maxFps) then Refused(CompatibilityError) else
      var range := ResolveRange(|episode.actions|, request, settings);
      if range.Refused? then Refused(range.error) else
        var policy := ResolvePolicy(request, approval);
        if policy.Refused? then Refused(policy.error) else
          var (first, last) := range.value;
          var actions := episode.actions[first..last + 1];
          var degrees := LimitsInDegrees(limits, frame);
          if degrees.Refused? then Refused(degrees.error) else
            var (lower, upper) := degrees.value;
            var applied := ApplyLimits(actions, lower, upper, policy.value.0, policy.value.1);
            if applied.Refused? then Refused(applied.error) else
              var initial := ApplyLimits([episode.states[first]], lower, upper, policy.value.0, policy.value.1);
              if initial.Refused? then Refused(initial.error) else
                var maxStep := MaxStep(actions);
                if settings.maxStep.Some? && maxStep > settings.maxStep.value then Refused(LimitError) else
                  Ok(Plan(episode.fps, first, last, episode.frameIndices[first..last + 1], applied.value.clamped, actions,
                          initial.value.clamped[0], applied.value.frames, applied.value.worst, initial.value.worst, maxStep))
  }

  /** The request stays inside the episode and what the operator allows. */
  ghost predicate Permitted(length: nat, request: Request, approval: Option<Approval>, settings: Settings) {
    var last := if request.endFrame.None? then length - 1 else request.endFrame.value;
    && 0 <= request.startFrame <= last < length && 0.0 < request.speed <= settings.maxSpeedScale
    && (approval.Some? ==>
          request.tolerance <= approval.value.tolerance && (request.policy == Clamp ==> approval.value.policy == Clamp))
  }

  /** Preflight accepts exactly the permitted requests for frames this arm can reach under the policy,
      none of whose recorded steps is wider than the configured bound. */
  lemma PreflightAcceptsExactly(episode: Episode, request: Request, approval: Option<Approval>, settings: Settings,
      limits: seq<JointLimit>, frame: JointFrame)
    requires episode.Valid(|limits|) && |frame.offsets| == |limits| && frame.degPerRad > 0.0 && request.tolerance >= 0.0
    ensures Check(episode, request, approval, settings, limits, frame).Ok? <==>
      && episode.compatible && 0.0 < episode.fps <= settings.maxFps
      && Permitted(|episode.actions|, request, approval, settings)
      && (forall i :: 0 <= i < |limits| ==> limits[i].lower < limits[i].upper)
      && Reachable(episode, request, limits, frame) && NoJump(episode, request, settings)
  {
    hide Worst, Offending, MaxStep, InRange, InLimits, ClipAll, ApplyLimits, Admits, MaxDistance, Within;
    LimitsKeepOrder(limits, frame);
    if settings.maxStep.Some? {
      NoJumpIsMaxStep(Selected(episode.actions, request), settings.maxStep.value);
    }
    if Permitted(|episode.actions|, request, approval, settings) && LimitsInDegrees(limits, frame).Ok? {
      var (lower, upper) := LimitsInDegrees(limits, frame).value;
      PolicyAdmitsExactly(Selected(episode.actions, request), lower, upper, request.policy, request.tolerance);
      var start := [episode.states[request.startFrame]];
      PolicyAdmitsExactly(start, lower, upper, request.policy, request.tolerance);
      assert start[0] == episode.states[request.startFrame];
    }
  }

  lemma LimitsKeepOrder(limits: seq<JointLimit>, frame: JointFrame)
    requires |frame.offsets| == |limits| && frame.degPerRad > 0.0
    ensures LimitsInDegrees(limits, frame).Ok? <==> forall i :: 0 <= i < |limits| ==> limits[i].lower < limits[i].upper
  {
    var lower, upper := frame.ToDegrees(Bounds(limits, false)), frame.ToDegrees(Bounds(limits, true));
    forall i | 0 <= i < |limits| ensures lower[i] < upper[i] <==> limits[i].lower < limits[i].upper {
      assert lower[i] == limits[i].lower * frame.degPerRad + frame.offsets[i];
      assert upper[i] == limits[i].upper * frame.degPerRad + frame.offsets[i];
      Order(limits[i].lower, limits[i].upper, frame.degPerRad, limits[i].lower * frame.degPerRad, limits[i].upper * frame.degPerRad);
    }
  }

  /** The frames a permitted request selects. */
  function Selected(rows: seq<seq<real>>, request: Request): seq<seq<real>> {
    var last := if request.endFrame.None? then |rows| - 1 else request.endFrame.value;
    if 0 <= request.startFrame <= last < |rows| then rows[request.startFrame..last + 1] else []
  }

  ghost predicate Reachable(episode: Episode, request: Request, limits: seq<JointLimit>, frame: JointFrame)
    requires episode.Valid(|limits|) && |frame.offsets| == |limits|
  {
    && LimitsInDegrees(limits, frame).Ok? && 0 <= request.startFrame < |episode.states|
    && var (lower, upper) := LimitsInDegrees(limits, frame).value;
       && Admits(request.policy, request.tolerance, episode.states[request.startFrame], lower, upper)
       && forall i :: 0 <= i < |Selected(episode.actions, request)| ==>
            Admits(request.policy, request.tolerance, Selected(episode.actions, request)[i], lower, upper)
  }

  /** No two selected frames in a row are further apart at any joint than the bound, when there is one. */
  ghost predicate NoJump(episode: Episode, request: Request, settings: Settings)
    requires forall i :: 0 <= i < |episode.actions| ==> |episode.actions[i]| == |episode.actions[0]|
  {
    var rows := Selected(episode.actions, request);
    settings.maxStep.Some? ==>
      settings.maxStep.value >= 0.0 && forall i :: 1 <= i < |rows| ==> Within(rows[i], rows[i - 1], settings.maxStep.value)
  }

  lemma NoJumpIsMaxStep(rows: seq<seq<real>>, most: real)
    requires forall i :: 0 <= i < |rows| ==> |rows[i]| == |rows[0]|
    ensures MaxStep(rows) <= most <==> most >= 0.0 && forall i :: 1 <= i < |rows| ==> Within(rows[i], rows[i - 1], most)
  {
    hide MaxDistance, MaxStep, Within;
    MaxStepBounds(rows);
    forall i | 1 <= i < |rows| && most >= 0.0
      ensures Within(rows[i], rows[i - 1], most) <==> MaxDistance(rows[i], rows[i - 1]) <= most {
      MaxDistanceBounds(rows[i], rows[i - 1], most);
    }
  }

  // ---- what an accepted plan promises -----------------------------------------------------------------

  /** The plan's own books: which frames, and how far from the recording. */
  ghost predicate Consistent(plan: Plan, joints: nat) {
    && |plan.actions| == |plan.requested| == |plan.frameIndices| == plan.lastFrame - plan.firstFrame + 1 > 0
    && Shaped(plan.actions, joints) && Shaped(plan.requested, joints) && |plan.initial| == joints
    && (forall i :: 0 <= i < |plan.frameIndices| ==> plan.frameIndices[i] == plan.firstFrame + i)
    && plan.clippedFrames == Offending(plan.requested, plan.actions)
    && plan.maxClipping == Worst(plan.requested, plan.actions)
  }

  /** Every pose the plan will command, as radians, is inside the driver's soft limits. */
  ghost predicate Commandable(plan: Plan, limits: seq<JointLimit>, f: JointFrame)
    requires |f.offsets| == |limits| && f.degPerRad > 0.0 && Consistent(plan, |limits|)
  {
    && InLimits(f.ToRadians(plan.initial), limits, 0.0)
    && forall i :: 0 <= i < |plan.actions| ==> InLimits(f.ToRadians(plan.actions[i]), limits, 0.0)
  }

  lemma AppliedIsConsistent(rows: seq<seq<real>>, lower: seq<real>, upper: seq<real>, policy: LimitPolicy, tolerance: real)
    requires Ordered(lower, upper) && Shaped(rows, |lower|) && ApplyLimits(rows, lower, upper, policy, tolerance).Ok?
    ensures var a := ApplyLimits(rows, lower, upper, policy, tolerance).value;
      && a.clamped == ClipAll(rows, lower, upper) && a.frames == Offending(rows, a.clamped) && a.worst == Worst(rows, a.clamped)
      && (policy == Reject ==> a.worst == 0.0) && (policy == ClampWithinTolerance ==> a.worst == 0.0 || a.worst <= tolerance)
    ensures forall i :: 0 <= i < |rows| ==> InRange(ClipRow(rows[i], lower, upper), lower, upper)
  {
    hide Worst, Offending, MaxDistance, Clip, InRange;
    WorstBounds(rows, ClipAll(rows, lower, upper));
    forall i | 0 <= i < |rows| ensures InRange(ClipRow(rows[i], lower, upper), lower, upper) {
      RowUnmoved(rows[i], lower, upper);
    }
  }

  /** An accepted plan covers the requested frames in order, commands nothing outside the soft
      limits, and reports exactly how many frames it moved and by how much at most. */
  lemma PlanIsCommandable(episode: Episode, request: Request, approval: Option<Approval>, settings: Settings,
      limits: seq<JointLimit>, frame: JointFrame)
    requires episode.Valid(|limits|) && |frame.offsets| == |limits| && frame.degPerRad > 0.0
    requires Check(episode, request, approval, settings, limits, frame).Ok?
    ensures var plan := Check(episode, request, approval, settings, limits, frame).value;
      Consistent(plan, |limits|) && Commandable(plan, limits, frame)
  {
    hide Worst, Offending, MaxStep, ApplyLimits, InRange, InLimits, ClipAll;
    var plan := Check(episode, request, approval, settings, limits, frame).value;
    var (lower, upper) := LimitsInDegrees(limits, frame).value;
    var actions := episode.actions[plan.firstFrame..plan.lastFrame + 1];
    AppliedIsConsistent(actions, lower, upper, request.policy, request.tolerance);
    AppliedIsConsistent([episode.states[plan.firstFrame]], lower, upper, request.policy, request.tolerance);
    var start := [episode.states[plan.firstFrame]];
    assert plan.initial == ClipRow(start[0], lower, upper);
    DegreeLimitsAreTheSoftLimits(limits, frame, plan.initial);
    forall i | 0 <= i < |plan.actions| ensures InLimits(frame.ToRadians(plan.actions[i]), limits, 0.0) {
      assert plan.actions[i] == ClipRow(actions[i], lower, upper);
      DegreeLimitsAreTheSoftLimits(limits, frame, plan.actions[i]);
    }
  }

  /** No accepted plan, nor its start pose, strays further from the recording than the operator
      approved, unless the approval itself is unbounded clamping. */
  lemma PlanStaysWithinApproval(episode: Episode, request: Request, approval: Approval, settings: Settings,
      limits: seq<JointLimit>, frame: JointFrame)
    requires episode.Valid(|limits|) && |frame.offsets| == |limits| && frame.degPerRad > 0.0
    requires Check(episode, request, Some(approval), settings, limits, frame).Ok?
    requires approval.tolerance >= 0.0 && approval.policy != Clamp
    ensures var plan := Check(episode, request, Some(approval), settings, limits, frame).value;
      && Consistent(plan, |limits|) && plan.initialClipping <= approval.tolerance
      && forall i :: 0 <= i < |plan.actions| ==> MaxDistance(plan.requested[i], plan.actions[i]) <= approval.tolerance
  {
    hide Worst, Offending, MaxStep, ApplyLimits, InRange, InLimits, ClipAll, MaxDistance, Commandable;
    var plan := Check(episode, request, Some(approval), settings, limits, frame).value;
    PlanIsCommandable(episode, request, Some(approval), settings, limits, frame);
    var (lower, upper) := LimitsInDegrees(limits, frame).value;
    AppliedIsConsistent(episode.actions[plan.firstFrame..plan.lastFrame + 1], lower, upper, request.policy, request.tolerance);
    AppliedIsConsistent([episode.states[plan.firstFrame]], lower, upper, request.policy, request.tolerance);
    WorstBounds(plan.requested, plan.actions);
  }

  /** The commanded steps are no wider than the recorded ones, and those are within the
      configured bound. */
  lemma PlanNeverJumps(episode: Episode, request: Request, approval: Option<Approval>, settings: Settings,
      limits: seq<JointLimit>, frame: JointFrame, i: nat)
    requires episode.Valid(|limits|) && |frame.offsets| == |limits| && frame.degPerRad > 0.0
    requires Check(episode, request, approval, settings, limits, frame).Ok?
    ensures var plan := Check(episode, request, approval, settings, limits, frame).value;
      Consistent(plan, |limits|) && (1 <= i < |plan.actions| ==>
        && MaxDistance(plan.actions[i], plan.actions[i - 1]) <= MaxDistance(plan.requested[i], plan.requested[i - 1]) <= plan.maxStep
        && (settings.maxStep.Some? ==> plan.maxStep <= settings.maxStep.value))
  {
    hide Worst, Offending, MaxStep, ApplyLimits, InRange, InLimits, ClipAll, MaxDistance, Commandable;
    var plan := Check(episode, request, approval, settings, limits, frame).value;
    PlanIsCommandable(episode, request, approval, settings, limits, frame);
    var (lower, upper) := LimitsInDegrees(limits, frame).value;
    AppliedIsConsistent(plan.requested, lower, upper, request.policy, request.tolerance);
    MaxStepBounds(plan.requested);
    if 1 <= i < |plan.actions| {
      ClampNeverWidens(plan.requested[i], plan.requested[i - 1], lower, upper);
    }
  }
}
