/** `JointMotionController`: bounded motion to a pose, watched every tick. */
module Motion {
  import opened Reals
  import opened Contracts
  import opened Trapezoid

  datatype FailureReason =
    | Cancelled | Timeout | TrackingError | MotorFault | StaleFeedback | LimitViolation | NotEnabled

  datatype LegOutcome =
    | Leg(state: JointState, commands: nat, maxError: real, planned: real, alreadyAtTarget: bool, failure: Option<FailureReason>)
    | Raised  // an exception from the heartbeat or the driver is on its way out

  // ---- what one tick concludes -------------------------------------------------------------------

  datatype Watchdog = Watchdog(
    tolerance: real, settleTime: real, trackingLimit: real, trackingGrace: real, staleFeedback: real)

  /** One pass of the loop: when it began, what it commanded, what came back. */
  datatype Tick = Tick(now: real, fraction: real, command: seq<real>, state: JointState)

  datatype Watch = Watch(
    deviatingSince: Option<real>, lastSequence: seq<nat>, lastChange: real, settledSince: Option<real>, maxError: real)

  datatype Verdict = GoOn | Fail(reason: FailureReason) | Settled

  function ErrorTo(state: JointState, pose: seq<real>): real
    requires |state.positions| == |pose|
  {
    MaxDistance(state.positions, pose)
  }

  predicate Fits(t: Tick, targets: seq<real>) {
    |t.state.positions| == |t.command| == |targets|
  }

  predicate Over(dog: Watchdog, targets: seq<real>, t: Tick) {
    Fits(t, targets) && ErrorTo(t.state, t.command) > dog.trackingLimit
  }

  predicate Arrived(dog: Watchdog, targets: seq<real>, t: Tick) {
    Fits(t, targets) && ErrorTo(t.state, targets) <= dog.tolerance && t.fraction >= 1.0
  }

  function Held(since: Option<real>, holds: bool, now: real): Option<real> {
    if !holds then None else if since.Some? then since else Some(now)
  }

  /** The tick's checks in order: fault, freshness, tracking, settling. */
  function Observe(dog: Watchdog, targets: seq<real>, w: Watch, t: Tick): (Watch, Verdict)
    requires Fits(t, targets)
  {
    if t.state.HasFault() then (w, Fail(MotorFault))
    else
      var isNew := t.state.sequence != w.lastSequence;
      if !isNew && t.state.stamp - w.lastChange > dog.staleFeedback then (w, Fail(StaleFeedback))
      else
        var error := ErrorTo(t.state, t.command);
        var deviating := Held(w.deviatingSince, Over(dog, targets, t), t.now);
        var settled := Held(w.settledSince, Arrived(dog, targets, t), t.now);
        var next := Watch(deviating, t.state.sequence, if isNew then t.state.stamp else w.lastChange, settled, Max(w.maxError, error));
        if deviating.Some? && t.now - deviating.value >= dog.trackingGrace then (next, Fail(TrackingError))
        else if settled.Some? && t.now - settled.value >= dog.settleTime then (next, Settled)
        else (next, GoOn)
  }

  lemma FaultsEndIt(dog: Watchdog, targets: seq<real>, w: Watch, t: Tick)
    requires Fits(t, targets) && t.state.HasFault()
    ensures Observe(dog, targets, w, t).1 == Fail(MotorFault)
  {
  }

  ghost predicate AllFit(log: seq<Tick>, targets: seq<real>) {
    forall i :: 0 <= i < |log| ==> Fits(log[i], targets)
  }

  /** The watch after a whole run of ticks, and the verdict on the last. */
  ghost function Trail(dog: Watchdog, targets: seq<real>, w0: Watch, log: seq<Tick>): (Watch, Verdict)
    requires AllFit(log, targets)
  {
    if log == [] then (w0, GoOn)
    else Observe(dog, targets, Trail(dog, targets, w0, log[..|log| - 1]).0, log[|log| - 1])
  }

  /** Every tick before the last one let the loop go on. */
  ghost predicate Unfinished(dog: Watchdog, targets: seq<real>, w0: Watch, log: seq<Tick>)
    requires AllFit(log, targets)
  {
    forall n :: 0 <= n < |log| ==> Trail(dog, targets, w0, log[..n]).1 == GoOn
  }

  // ---- what the verdicts mean ------------------------------------------------------------------

  ghost predicate RunFrom(log: seq<Tick>, i: nat, holds: Tick -> bool) {
    i < |log| && forall j :: i <= j < |log| ==> holds(log[j])
  }

  /** The current unbroken run began with tick `i`: from there on all held, and the one before did not. */
  ghost predicate RunStarts(log: seq<Tick>, i: nat, holds: Tick -> bool) {
    RunFrom(log, i, holds) && (i == 0 || !holds(log[i - 1]))
  }

  /** The since-timer names the start of the current unbroken run, or that there is none. */
  ghost predicate TimesRun(since: Option<real>, log: seq<Tick>, holds: Tick -> bool) {
    match since
    case None => log == [] || !holds(log[|log| - 1])
    case Some(t) => exists i :: 0 <= i < |log| && log[i].now == t && RunStarts(log, i, holds)
  }

  lemma HeldTimesRun(since: Option<real>, log: seq<Tick>, t: Tick, holds: Tick -> bool)
    requires TimesRun(since, log, holds)
    ensures TimesRun(Held(since, holds(t), t.now), log + [t], holds)
  {
    var more := log + [t];
    if holds(t) {
      if since.Some? {
        var i :| 0 <= i < |log| && log[i].now == since.value && RunStarts(log, i, holds);
        assert more[i] == log[i] && (i > 0 ==> more[i - 1] == log[i - 1]);
        assert RunStarts(more, i, holds);
      } else {
        assert more[|log|] == t && (|log| > 0 ==> more[|log| - 1] == log[|log| - 1]);
        assert RunStarts(more, |log|, holds);
      }
    }
  }

  /** The counters of the last sample, or those the watch began with. */
  function Counters(w0: Watch, log: seq<Tick>): seq<nat> {
    if log == [] then w0.lastSequence else log[|log| - 1].state.sequence
  }

  function CountersBefore(w0: Watch, log: seq<Tick>, i: nat): seq<nat>
    requires i <= |log|
  {
    if i == 0 then w0.lastSequence else log[i - 1].state.sequence
  }

  /** The sample of tick `i` was the last to bring new counters. */
  ghost predicate ChangedWith(w0: Watch, log: seq<Tick>, i: nat) {
    && i < |log| && log[i].state.sequence != CountersBefore(w0, log, i)
    && forall j :: i <= j < |log| ==> log[j].state.sequence == log[i].state.sequence
  }

  /** The counters last changed at `since`: with the sample taken then, or before the first one. */
  ghost predicate ChangedAt(w0: Watch, log: seq<Tick>, since: real) {
    || (since == w0.lastChange && forall j :: 0 <= j < |log| ==> log[j].state.sequence == w0.lastSequence)
    || exists i :: 0 <= i < |log| && log[i].state.stamp == since && ChangedWith(w0, log, i)
  }

  /** There is one such moment. */
  lemma ChangedOnce(w0: Watch, log: seq<Tick>, since: real, other: real)
    requires ChangedAt(w0, log, since) && ChangedAt(w0, log, other)
    ensures since == other
  {
    if i :| 0 <= i < |log| && ChangedWith(w0, log, i) {
      if forall j :: 0 <= j < |log| ==> log[j].state.sequence == w0.lastSequence {
        assert i > 0 ==> log[i - 1].state.sequence == w0.lastSequence;
      }
    }
  }

  /** The feedback timer names the last change of the counters. */
  ghost predicate TimesChange(w: Watch, w0: Watch, log: seq<Tick>) {
    w.lastSequence == Counters(w0, log) && ChangedAt(w0, log, w.lastChange)
  }

  lemma TimesChangeStep(w: Watch, w0: Watch, log: seq<Tick>, t: Tick)
    requires TimesChange(w, w0, log)
    ensures ChangedAt(w0, log + [t], if t.state.sequence != w.lastSequence then t.state.stamp else w.lastChange)
  {
    var more := log + [t];
    if t.state.sequence != w.lastSequence {
      assert more[|log|] == t && (log != [] ==> more[|log| - 1] == log[|log| - 1]);
      assert ChangedWith(w0, more, |log|);
    } else if i :| 0 <= i < |log| && log[i].state.stamp == w.lastChange && ChangedWith(w0, log, i) {
      assert more[i] == log[i] && (i > 0 ==> more[i - 1] == log[i - 1]);
      assert log[|log| - 1].state.sequence == log[i].state.sequence;
      assert ChangedWith(w0, more, i);
    }
  }

  lemma {:induction false} WatchTimesRuns(dog: Watchdog, targets: seq<real>, w0: Watch, log: seq<Tick>)
    requires AllFit(log, targets) && w0.deviatingSince == None && w0.settledSince == None
    requires Unfinished(dog, targets, w0, log) && Trail(dog, targets, w0, log).1 == GoOn
    ensures var w := Trail(dog, targets, w0, log).0;
      && TimesRun(w.deviatingSince, log, t => Over(dog, targets, t))
      && TimesRun(w.settledSince, log, t => Arrived(dog, targets, t))
      && TimesChange(w, w0, log)
  {
    hide Over, Arrived, ChangedAt;
    if log == [] {
      NothingChanged(w0);
    } else {
      var n := |log| - 1;
      var before, t := log[..n], log[n];
      assert log == before + [t];
      forall k | 0 <= k < n ensures Trail(dog, targets, w0, before[..k]).1 == GoOn {
        assert before[..k] == log[..k];
      }
      WatchTimesRuns(dog, targets, w0, before);
      var w := Trail(dog, targets, w0, before).0;
      HeldTimesRun(w.deviatingSince, before, t, x => Over(dog, targets, x));
      HeldTimesRun(w.settledSince, before, t, x => Arrived(dog, targets, x));
      TimesChangeStep(w, w0, before, t);
    }
  }

  lemma NothingChanged(w0: Watch)
    ensures ChangedAt(w0, [], w0.lastChange)
  {
  }

  /** The current unbroken run, up to the last tick and from its very start, spans at least `span`. */
  ghost predicate SpansRun(log: seq<Tick>, span: real, holds: Tick -> bool) {
    exists i :: 0 <= i < |log| && log[|log| - 1].now - log[i].now >= span && RunStarts(log, i, holds)
  }

  /** The last sample brought no new counters, and they had not moved for longer than allowed. */
  ghost predicate StaleRun(allowed: real, w0: Watch, log: seq<Tick>) {
    && log != [] && log[|log| - 1].state.sequence == CountersBefore(w0, log, |log| - 1)
    && exists since :: ChangedAt(w0, log, since) && log[|log| - 1].state.stamp - since > allowed
  }

  /** What the last of the ticks concludes, told from the ticks alone: the first of these that holds. */
  ghost function Conclusion(dog: Watchdog, targets: seq<real>, w0: Watch, log: seq<Tick>): Verdict
    requires log != []
  {
    if log[|log| - 1].state.HasFault() then Fail(MotorFault)
    else if StaleRun(dog.staleFeedback, w0, log) then Fail(StaleFeedback)
    else if SpansRun(log, dog.trackingGrace, t => Over(dog, targets, t)) then Fail(TrackingError)
    else if SpansRun(log, dog.settleTime, t => Arrived(dog, targets, t)) then Settled
    else GoOn
  }

  /** A move ends on a tick exactly for what the ticks were: a fault; counters that stood still too
      long; an unbroken excess spanning the grace; an unbroken arrival spanning the settle time; the
      first of these that holds. Otherwise it goes on. */
  lemma ExitsMeanWhatTheySay(dog: Watchdog, targets: seq<real>, w0: Watch, log: seq<Tick>)
    requires AllFit(log, targets) && w0.deviatingSince == None && w0.settledSince == None
    requires Unfinished(dog, targets, w0, log) && log != []
    ensures Trail(dog, targets, w0, log).1 == Conclusion(dog, targets, w0, log)
  {
    hide Over, Arrived, TimesChange, TimesRun, Conclusion, Observe;
    var n := |log| - 1;
    var before, t := log[..n], log[n];
    assert log == before + [t];
    forall k | 0 <= k < n ensures Trail(dog, targets, w0, before[..k]).1 == GoOn {
      assert before[..k] == log[..k];
    }
    WatchTimesRuns(dog, targets, w0, before);
    VerdictMeans(dog, targets, Trail(dog, targets, w0, before).0, w0, before, t);
  }

  lemma VerdictMeans(dog: Watchdog, targets: seq<real>, w: Watch, w0: Watch, before: seq<Tick>, t: Tick)
    requires Fits(t, targets) && TimesChange(w, w0, before)
    requires TimesRun(w.deviatingSince, before, t => Over(dog, targets, t))
    requires TimesRun(w.settledSince, before, t => Arrived(dog, targets, t))
    ensures Observe(dog, targets, w, t).1 == Conclusion(dog, targets, w0, before + [t])
  {
    hide Over, Arrived, TimesChange, TimesRun, StaleRun, SpansRun;
    StaleMeans(dog, w, w0, before, t);
    HeldSpans(w.deviatingSince, before, t, x => Over(dog, targets, x), dog.trackingGrace);
    HeldSpans(w.settledSince, before, t, x => Arrived(dog, targets, x), dog.settleTime);
    assert (before + [t])[|before|] == t;
  }

  lemma HeldSpans(since: Option<real>, log: seq<Tick>, t: Tick, holds: Tick -> bool, span: real)
    requires TimesRun(since, log, holds)
    ensures var start := Held(since, holds(t), t.now);
      start.Some? && t.now - start.value >= span <==> SpansRun(log + [t], span, holds)
  {
    HeldTimesRun(since, log, t, holds);
    var start, more := Held(since, holds(t), t.now), log + [t];
    assert more[|more| - 1] == t;
    if start.Some? {
      var i :| 0 <= i < |more| && more[i].now == start.value && RunStarts(more, i, holds);
      if SpansRun(more, span, holds) {
        var j :| 0 <= j < |more| && t.now - more[j].now >= span && RunStarts(more, j, holds);
        RunStartsOnce(more, i, j, holds);
      }
    }
  }

  lemma RunStartsOnce(log: seq<Tick>, i: nat, j: nat, holds: Tick -> bool)
    requires RunStarts(log, i, holds) && RunStarts(log, j, holds)
    ensures i == j
  {
  }

  lemma StaleMeans(dog: Watchdog, w: Watch, w0: Watch, before: seq<Tick>, t: Tick)
    requires TimesChange(w, w0, before)
    ensures t.state.sequence == w.lastSequence && t.state.stamp - w.lastChange > dog.staleFeedback
      <==> StaleRun(dog.staleFeedback, w0, before + [t])
  {
    hide ChangedAt;
    var log := before + [t];
    TimesChangeStep(w, w0, before, t);
    assert log[|log| - 1] == t && CountersBefore(w0, log, |log| - 1) == Counters(w0, before) by {
      assert before != [] ==> log[|before| - 1] == before[|before| - 1];
    }
    if StaleRun(dog.staleFeedback, w0, log) {
      var since :| ChangedAt(w0, log, since) && t.state.stamp - since > dog.staleFeedback;
      ChangedOnce(w0, log, since, w.lastChange);
    }
  }

  // ---- the same, without the watch -------------------------------------------------------------

  /** Up to the last tick, and for at least `span`, it held on every one. */
  ghost predicate Lasted(log: seq<Tick>, span: real, holds: Tick -> bool) {
    exists i :: 0 <= i < |log| && log[|log| - 1].now - log[i].now >= span && RunFrom(log, i, holds)
  }

  ghost predicate InTimeOrder(log: seq<Tick>) {
    forall i, j :: 0 <= i <= j < |log| ==> log[i].now <= log[j].now
  }

  lemma SpansLasted(log: seq<Tick>, span: real, holds: Tick -> bool, same: Tick -> bool)
    requires InTimeOrder(log) && forall i :: 0 <= i < |log| ==> (holds(log[i]) <==> same(log[i]))
    ensures SpansRun(log, span, holds) <==> Lasted(log, span, same)
  {
    if SpansRun(log, span, holds) {
      var i :| 0 <= i < |log| && log[|log| - 1].now - log[i].now >= span && RunStarts(log, i, holds);
      assert RunFrom(log, i, same);
    } else if Lasted(log, span, same) {
      var i :| 0 <= i < |log| && log[|log| - 1].now - log[i].now >= span && RunFrom(log, i, same);
      var start := RunStart(log, i, holds);
    }
  }

  lemma {:induction false} RunStart(log: seq<Tick>, i: nat, holds: Tick -> bool) returns (start: nat)
    requires RunFrom(log, i, holds)
    ensures start <= i && RunStarts(log, start, holds)
  {
    if i > 0 && holds(log[i - 1]) {
      start := RunStart(log, i - 1, holds);
    } else {
      start := i;
    }
  }

  /** The largest distance of any joint from its command on any of the ticks; zero without ticks. */
  ghost predicate WorstError(log: seq<Tick>, worst: real) {
    && (forall i, k :: 0 <= i < |log| && 0 <= k < JointsOf(log[i]) ==> ErrorAt(log[i], k) <= worst)
    && (worst == 0.0 || exists i, k :: 0 <= i < |log| && 0 <= k < JointsOf(log[i]) && ErrorAt(log[i], k) == worst)
  }

  function JointsOf(t: Tick): nat {
    if |t.state.positions| == |t.command| then |t.command| else 0
  }

  function ErrorAt(t: Tick, k: nat): real
    requires k < JointsOf(t)
  {
    Abs(t.state.positions[k] - t.command[k])
  }

  /** The ticks whose errors count: all but a last one that found a fault or stale feedback. */
  ghost function Measured(log: seq<Tick>, v: Verdict): seq<Tick> {
    if log != [] && v in {Fail(MotorFault), Fail(StaleFeedback)} then log[..|log| - 1] else log
  }

  /** The worst error the watch reports is the worst there was. */
  lemma {:induction false} WatchKnowsTheWorst(dog: Watchdog, targets: seq<real>, w0: Watch, log: seq<Tick>)
    requires AllFit(log, targets) && w0.maxError == 0.0
    requires Unfinished(dog, targets, w0, log)
    ensures var (w, v) := Trail(dog, targets, w0, log); WorstError(Measured(log, v), w.maxError)
  {
    hide WorstError, Observe;
    if log == [] {
      NoError(w0);
    } else {
      var n := |log| - 1;
      var before, t := log[..n], log[n];
      forall k | 0 <= k < n ensures Trail(dog, targets, w0, before[..k]).1 == GoOn {
        assert before[..k] == log[..k];
      }
      WatchKnowsTheWorst(dog, targets, w0, before);
      assert log == before + [t];
      WorstObserved(dog, targets, Trail(dog, targets, w0, before).0, before, t);
    }
  }

  lemma NoError(w0: Watch)
    requires w0.maxError == 0.0
    ensures WorstError([], w0.maxError)
  {
  }

  lemma WorstObserved(dog: Watchdog, targets: seq<real>, w: Watch, before: seq<Tick>, t: Tick)
    requires Fits(t, targets) && WorstError(before, w.maxError)
    ensures var (next, v) := Observe(dog, targets, w, t); WorstError(Measured(before + [t], v), next.maxError)
  {
    hide WorstError, MaxDistance;
    assert (before + [t])[..|before|] == before;
    WorstGrows(before, w.maxError, t);
  }

  lemma WorstGrows(log: seq<Tick>, worst: real, t: Tick)
    requires WorstError(log, worst) && JointsOf(t) == |t.state.positions| == |t.command|
    ensures WorstError(log + [t], Max(worst, ErrorTo(t.state, t.command)))
  {
    hide JointsOf;
    var more, error := log + [t], ErrorTo(t.state, t.command);
    assert forall i :: 0 <= i < |log| ==> more[i] == log[i];
    assert more[|log|] == t;
    MaxDistanceBounds(t.state.positions, t.command, error);
    forall k | 0 <= k < JointsOf(t) ensures ErrorAt(t, k) <= error {
    }
    if error > worst {
      var k := Farthest(t.state.positions, t.command);
      assert ErrorAt(more[|log|], k) == error;
    }
  }

  // ---- the commanded line ---------------------------------------------------------------------

  function Blend(origin: real, target: real, fraction: real): real {
    origin + (target - origin) * fraction
  }

  function Interpolate(start: seq<real>, targets: seq<real>, fraction: real): (r: seq<real>)
    requires |start| == |targets|
    ensures |r| == |start|
  {
    seq(|start|, i requires 0 <= i < |start| => Blend(start[i], targets[i], fraction))
  }

  lemma BlendBetween(origin: real, target: real, f: real, lower: real, upper: real)
    requires 0.0 <= f <= 1.0 && lower <= origin <= upper && lower <= target <= upper
    ensures lower <= Blend(origin, target, f) <= upper
  {
    if target >= origin {
      var part := PartOf(target - origin, f);
    } else {
      var part := PartOf(origin - target, f);
      assert (target - origin) * f == -part;
    }
  }

  lemma PartOf(d: real, f: real) returns (part: real)
    requires d >= 0.0 && 0.0 <= f <= 1.0
    ensures part == d * f && 0.0 <= part <= d
  {
    part := d * f;
    assert d - part == d * (1.0 - f);
    assert d * (1.0 - f) >= 0.0;
  }

  /** A whole command stays inside limits that hold at both ends. */
  lemma InterpolateStaysInLimits(start: seq<real>, targets: seq<real>, f: real, limits: seq<JointLimit>)
    requires |start| == |targets| == |limits| && 0.0 <= f <= 1.0
    requires InLimits(start, limits, 0.0) && InLimits(targets, limits, 0.0)
    ensures InLimits(Interpolate(start, targets, f), limits, 0.0)
  {
    forall i | 0 <= i < |start| ensures limits[i].Contains(Interpolate(start, targets, f)[i], 0.0) {
      assert limits[i].Contains(start[i], 0.0) && limits[i].Contains(targets[i], 0.0);
      BlendBetween(start[i], targets[i], f, limits[i].lower, limits[i].upper);
    }
  }

  /** What planning promises of the curve a leg follows. */
  ghost predicate Plans(path: Path, start: seq<real>, targets: seq<real>, maxVelocity: real, maxAcceleration: real)
    requires |start| == |targets|
  {
    exists peak :: PlansFor(path, start, targets, maxVelocity, maxAcceleration, peak)
  }

  ghost predicate PlansFor(path: Path, start: seq<real>, targets: seq<real>, v: real, a: real, peak: real)
    requires |start| == |targets|
  {
    Balanced(path) && peak >= 0.0 && Within(targets, start, peak) && path.cruise * peak <= v && path.accel * peak == a
  }

  lemma PlanPlans(sqrt: real -> real, start: seq<real>, targets: seq<real>, profile: MotionProfile, peak: real, path: Path)
    requires IsSqrt(sqrt) && profile.Valid() && |start| == |targets|
    requires peak == MaxDistance(targets, start) && peak > 0.0 && path == Path.Plan(sqrt, peak, profile)
    ensures Plans(path, start, targets, profile.maxVelocity, profile.maxAcceleration)
  {
    hide Path.At, Path.Plan, Balanced, MaxDistance;
    MaxDistanceBounds(targets, start, peak);
    PlanIsBalanced(sqrt, peak, profile);
    assert PlansFor(path, start, targets, profile.maxVelocity, profile.maxAcceleration, peak);
  }

  /** No joint's command moves faster than the profile velocity between any two times. */
  lemma CommandsAreSpeedBounded(path: Path, start: seq<real>, targets: seq<real>, v: real, a: real, t: real, u: real, most: real)
    requires |start| == |targets| && Plans(path, start, targets, v, a) && t <= u && most == v * (u - t)
    ensures Within(Interpolate(start, targets, path.At(u)), Interpolate(start, targets, path.At(t)), most)
  {
    hide Path.At, Path.Plan;
    var peak :| PlansFor(path, start, targets, v, a, peak);
    var f, g := path.At(t), path.At(u);
    var df := Advance(path, t, u, peak, v, most);
    forall i | 0 <= i < |start|
      ensures Abs(Interpolate(start, targets, g)[i] - Interpolate(start, targets, f)[i]) <= most
    {
      StepBounded(start[i], targets[i], f, g, peak, most);
    }
  }

  lemma Advance(path: Path, t: real, u: real, peak: real, v: real, most: real) returns (df: real)
    requires Balanced(path) && peak >= 0.0 && path.cruise * peak <= v && t <= u && most == v * (u - t)
    ensures df == path.At(u) - path.At(t) && df >= 0.0 && peak * df <= most
  {
    hide Path.At, Path.Plan;
    PathIsMonotoneAndSpeedBounded(path, t, u);
    df := path.At(u) - path.At(t);
    AdvanceWithin(df, path.cruise, u - t, peak, v, most);
  }

  lemma AdvanceWithin(df: real, c: real, dt: real, peak: real, v: real, most: real)
    requires peak >= 0.0 && c * peak <= v && dt >= 0.0 && df <= c * dt && most == v * dt
    ensures peak * df <= most
  {
    var cp, x := c * peak, c * dt;
    var p, q := peak * df, peak * x;
    assert p <= q by { assert q - p == peak * (x - df); }
    assert q == cp * dt;
    assert q <= most by { assert most - q == (v - cp) * dt; }
  }

  lemma StepBounded(origin: real, target: real, f: real, g: real, peak: real, most: real)
    requires Abs(target - origin) <= peak && f <= g && peak * (g - f) <= most
    ensures Abs(Blend(origin, target, g) - Blend(origin, target, f)) <= most
  {
    var delta, df := target - origin, g - f;
    Scaled(delta, peak, df, peak * df);
    assert Blend(origin, target, g) - Blend(origin, target, f) == delta * df;
  }

  function JointAt(path: Path, origin: real, target: real, t: real): real {
    Blend(origin, target, path.At(t))
  }

  /** Nor does any joint's rate change faster than the profile acceleration. */
  lemma CommandsAreAccelerationBounded(path: Path, start: seq<real>, targets: seq<real>, v: real, a: real, t: real, h: real, i: nat)
    requires |start| == |targets| && Plans(path, start, targets, v, a) && h >= 0.0 && i < |start|
    ensures Abs(JointAt(path, start[i], targets[i], t + h) - 2.0 * JointAt(path, start[i], targets[i], t)
      + JointAt(path, start[i], targets[i], t - h)) <= Gain(a, h)
  {
    hide Path.At, Path.Plan;
    var peak :| PlansFor(path, start, targets, v, a, peak);
    PathAccelerationBounded(path, t, h);
    GainScales(path.accel, peak, h, a);
    BendBounded(start[i], targets[i], path.At(t - h), path.At(t), path.At(t + h), peak, Gain(path.accel, h), Gain(a, h));
  }

  lemma GainScales(accel: real, peak: real, h: real, a: real)
    requires accel * peak == a
    ensures peak * Gain(accel, h) == Gain(a, h)
  {
  }

  lemma BendBounded(origin: real, target: real, e: real, f: real, g: real, peak: real, gain: real, most: real)
    requires Abs(target - origin) <= peak && peak * gain == most && -gain <= g - 2.0 * f + e <= gain
    ensures Abs(Blend(origin, target, g) - 2.0 * Blend(origin, target, f) + Blend(origin, target, e)) <= most
  {
    var delta, dd := target - origin, g - 2.0 * f + e;
    ProductWithin(delta, peak, dd, gain, most);
    assert Blend(origin, target, g) - 2.0 * Blend(origin, target, f) + Blend(origin, target, e) == delta * dd;
  }

  lemma ProductWithin(x: real, b: real, y: real, c: real, bc: real)
    requires -b <= x <= b && -c <= y <= c && bc == b * c
    ensures -bc <= x * y <= bc
  {
    Scaled(x, b, Abs(y), b * Abs(y));
    Scaled(Abs(y), c, b, bc);
  }
}
