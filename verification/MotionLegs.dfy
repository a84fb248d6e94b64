/** What a leg's ticks add up to: how it may end, what it keeps to, and how an undisturbed one arrives. */
module MotionLegs {
  import opened Reals
  import opened Contracts
  import opened FakeArmPort
  import opened Trapezoid
  import opened Motion
  import opened Strides

  datatype MotionTarget = MotionTarget(name: string, joints: seq<real>, profile: MotionProfile)

  /** The ticks of one leg: `log[i]` went out at least a period after `log[i-1]`, within the
      timeout, and commanded exactly the planned point for its moment. */
  ghost predicate Timely(log: seq<Tick>, began: real, timeout: real, dt: real) {
    && (forall i :: 0 <= i < |log| ==> began <= log[i].now <= began + timeout)
    && (forall i :: 1 <= i < |log| ==> log[i].now >= log[i - 1].now + dt)
  }

  /** A leg sends at most one command more than its timeout holds whole ticks. */
  lemma {:induction false} CommandsAreCounted(log: seq<Tick>, began: real, timeout: real, dt: real, n: nat)
    requires Timely(log, began, timeout, dt) && dt > 0.0 && n < |log|
    ensures log[n].now >= began + Steps(n, dt)
    ensures n <= (timeout / dt).Floor
  {
    if n > 0 {
      CommandsAreCounted(log, began, timeout, dt, n - 1);
      OneMore(n, dt);
    } else {
      assert Steps(0, dt) == 0.0;
    }
    Order(n as real, timeout / dt, dt, Steps(n, dt), timeout);
    DivCancel(timeout, dt);
  }

  ghost predicate OnLine(log: seq<Tick>, start: seq<real>, targets: seq<real>, path: Path, began: real)
    requires |start| == |targets|
  {
    forall i :: 0 <= i < |log| ==>
      && log[i].fraction == path.At(log[i].now - began)
      && log[i].command == Interpolate(start, targets, log[i].fraction)
  }

  function Commands(log: seq<Tick>): (r: seq<seq<real>>)
    ensures |r| == |log|
  {
    seq(|log|, i requires 0 <= i < |log| => log[i].command)
  }

  /** How a leg may end, given the ticks it saw. */
  ghost predicate Ends(dog: Watchdog, targets: seq<real>, w0: Watch, log: seq<Tick>, r: LegOutcome) {
    && AllFit(log, targets) && Unfinished(dog, targets, w0, log)
    && match r
       case Raised => Trail(dog, targets, w0, log).1 == GoOn
       case Leg(_, commands, maxError, _, already, failure) =>
         && commands == |log| && !already && maxError == Trail(dog, targets, w0, log).0.maxError
         && match failure
            case None => log != [] && Trail(dog, targets, w0, log).1 == Settled
            case Some(reason) =>
              if reason in {MotorFault, StaleFeedback, TrackingError} then log != [] && Trail(dog, targets, w0, log).1 == Fail(reason)
              else Trail(dog, targets, w0, log).1 == GoOn && reason in {Cancelled, Timeout, NotEnabled}
  }

  /** The last feedback there was. */
  function LastSeen(startState: JointState, log: seq<Tick>): JointState {
    if log == [] then startState else log[|log| - 1].state
  }

  /** A leg as it was driven: where the arm stood, the plan, and the ticks; and when it ended, what its
      cancellation polls answered and whether the port took targets when it began. */
  datatype Driven = Driven(
    start: JointState, path: Path, began: real, log: seq<Tick>, ended: real, asked: seq<bool>, accepting: bool)

  /** What a leg's ending says of the clock, the cancellation polls and the port. */
  ghost predicate Caused(d: Driven, timeout: real, r: LegOutcome) {
    && (forall i :: 0 <= i < |d.asked| - 1 ==> !d.asked[i])
    && (d.asked != [] && d.asked[|d.asked| - 1] <==> r.Leg? && r.failure == Some(Cancelled))
    && (r.Leg? && r.failure == Some(Timeout) ==> d.ended - d.began > timeout)
    && (r.Leg? && r.failure == Some(NotEnabled) ==> d.log == [] && !d.accepting)
    && (r.Leg? ==> r.state == LastSeen(d.start, d.log))
  }

  /** A leg as it went: how it ended and, if the arm was commanded at all, how it was driven. */
  datatype LegRun = LegRun(outcome: LegOutcome, driven: Option<Driven>)

  ghost function Ticks(driven: Option<Driven>): seq<Tick> {
    if driven.Some? then driven.value.log else []
  }

  lemma NothingCommanded()
    ensures Commands([]) == [] && Tracked([])
  {
  }

  /** What the legs of a walk sent, in order. */
  ghost function Sent(runs: seq<LegRun>): seq<seq<real>> {
    if runs == [] then [] else Sent(runs[..|runs| - 1]) + Commands(Ticks(runs[|runs| - 1].driven))
  }

  lemma SentGrows(runs: seq<LegRun>, run: LegRun) returns (more: seq<LegRun>)
    ensures more == runs + [run] && Sent(more) == Sent(runs) + Commands(Ticks(run.driven))
  {
    more := runs + [run];
    assert more[..|runs|] == runs;
  }

  /** The first `n` legs ended without failure, and their targets are in limits. */
  ghost predicate Cleared(legs: seq<MotionTarget>, runs: seq<LegRun>, n: nat, limits: seq<JointLimit>, margin: real) {
    && n <= |legs| && n <= |runs|
    && (forall i :: 0 <= i < n ==> runs[i].outcome.Leg? && runs[i].outcome.failure.None?)
    && (forall i :: 0 <= i < n ==> |legs[i].joints| == |limits| && InLimits(legs[i].joints, limits, margin))
  }

  lemma ClearsOneMore(legs: seq<MotionTarget>, runs: seq<LegRun>, run: LegRun, limits: seq<JointLimit>, margin: real)
    requires |runs| < |legs| && |legs[|runs|].joints| == |limits| && Cleared(legs, runs, |runs|, limits, margin)
    ensures Cleared(legs, runs + [run], |runs|, limits, margin)
    ensures run.outcome.Leg? && run.outcome.failure.None? && InLimits(legs[|runs|].joints, limits, margin) ==>
      Cleared(legs, runs + [run], |runs| + 1, limits, margin)
  {
  }

  lemma ClearedMeans(legs: seq<MotionTarget>, runs: seq<LegRun>, limits: seq<JointLimit>, margin: real)
    requires Cleared(legs, runs, |legs|, limits, margin)
    ensures forall i :: 0 <= i < |legs| ==> |legs[i].joints| == |limits| && InLimits(legs[i].joints, limits, margin)
  {
  }

  // ---- what a driven leg keeps to ------------------------------------------------------------------

  /** No joint's command moves faster than the profile velocity, between any two ticks and from the
      pose the leg began at; a leg that began in limits stays in them; and no more commands go out than
      the timeout holds whole ticks, plus one. */
  ghost predicate Bounded(d: Driven, limits: seq<JointLimit>, profile: MotionProfile) {
    && |d.start.positions| == |limits| && (forall i :: 0 <= i < |d.log| ==> |d.log[i].command| == |limits|)
    && (forall i, j :: 0 <= i <= j < |d.log| ==> SpeedKept(d.log, i, j, profile.maxVelocity))
    && (forall i :: 0 <= i < |d.log| ==>
          d.log[i].now >= d.began && Within(d.log[i].command, d.start.positions, Reach(profile.maxVelocity, d.log[i].now - d.began)))
    && (InLimits(d.start.positions, limits, 0.0) ==> forall i :: 0 <= i < |d.log| ==> InLimits(d.log[i].command, limits, 0.0))
    && |d.log| <= (profile.timeout * profile.controlRate).Floor + 1
  }

  ghost predicate SpeedKept(log: seq<Tick>, i: nat, j: nat, v: real)
    requires i <= j < |log| && |log[i].command| == |log[j].command|
  {
    log[i].now <= log[j].now && Within(log[j].command, log[i].command, Reach(v, log[j].now - log[i].now))
  }

  lemma LegIsBounded(dog: Watchdog, targets: seq<real>, profile: MotionProfile, d: Driven, r: LegOutcome, limits: seq<JointLimit>)
    requires profile.Valid() && |d.start.positions| == |targets| == |limits| && InLimits(targets, limits, 0.0)
    requires Report(dog, d.start, targets, d.path, profile, d.began, d.log, r)
    requires Plans(d.path, d.start.positions, targets, profile.maxVelocity, profile.maxAcceleration)
    ensures Bounded(d, limits, profile)
  {
    hide Path.At, Interpolate, Ends, Within, Plans, InLimits;
    var start, log, dt := d.start.positions, d.log, profile.Period();
    assert dt > 0.0 by { DivCancel(1.0, profile.controlRate); }
    forall i | 0 <= i < |log| ensures |log[i].command| == |limits| {
      assert log[i].command == Interpolate(start, targets, log[i].fraction);
    }
    forall i, j | 0 <= i <= j < |log| ensures SpeedKept(log, i, j, profile.maxVelocity) {
      LaterIsLater(log, d.began, profile.timeout, dt, i, j);
      CommandsAreSpeedBounded(d.path, start, targets, profile.maxVelocity, profile.maxAcceleration,
        log[i].now - d.began, log[j].now - d.began, Reach(profile.maxVelocity, log[j].now - log[i].now));
    }
    forall i | 0 <= i < |log| ensures Within(log[i].command, start, Reach(profile.maxVelocity, log[i].now - d.began)) {
      FromTheStart(d.path, start, targets, profile, log[i].now - d.began);
    }
    if InLimits(start, limits, 0.0) {
      forall i | 0 <= i < |log| ensures InLimits(log[i].command, limits, 0.0) {
        OnTheWay(d.path, start, targets, profile, log[i].now - d.began, limits);
      }
    }
    if log != [] {
      CommandsAreCounted(log, d.began, profile.timeout, dt, |log| - 1);
      PeriodsInTimeout(profile);
    }
  }

  lemma PeriodsInTimeout(profile: MotionProfile)
    requires profile.Valid()
    ensures profile.timeout / profile.Period() == profile.timeout * profile.controlRate
  {
    var rate, dt := profile.controlRate, profile.Period();
    DivCancel(1.0, rate);
    var whole := profile.timeout * rate;
    assert whole * dt == profile.timeout * (rate * dt);
    assert dt > 0.0;
  }

  lemma {:induction false} LaterIsLater(log: seq<Tick>, began: real, timeout: real, dt: real, i: nat, j: nat)
    requires Timely(log, began, timeout, dt) && dt > 0.0 && i <= j < |log|
    ensures log[i].now <= log[j].now
  {
    if i < j {
      LaterIsLater(log, began, timeout, dt, i, j - 1);
    }
  }

  lemma FromTheStart(path: Path, start: seq<real>, targets: seq<real>, profile: MotionProfile, elapsed: real)
    requires |start| == |targets| && elapsed >= 0.0
    requires Plans(path, start, targets, profile.maxVelocity, profile.maxAcceleration)
    ensures Within(Interpolate(start, targets, path.At(elapsed)), start, Reach(profile.maxVelocity, elapsed))
  {
    hide Path.At, Interpolate, Within;
    var peak :| PlansFor(path, start, targets, profile.maxVelocity, profile.maxAcceleration, peak);
    AtRest(path, 0.0);
    InterpolateEnds(start, targets);
    CommandsAreSpeedBounded(path, start, targets, profile.maxVelocity, profile.maxAcceleration, 0.0, elapsed,
      Reach(profile.maxVelocity, elapsed));
  }

  lemma OnTheWay(path: Path, start: seq<real>, targets: seq<real>, profile: MotionProfile, elapsed: real, limits: seq<JointLimit>)
    requires |start| == |targets| == |limits| && InLimits(start, limits, 0.0) && InLimits(targets, limits, 0.0)
    requires Plans(path, start, targets, profile.maxVelocity, profile.maxAcceleration)
    ensures InLimits(Interpolate(start, targets, path.At(elapsed)), limits, 0.0)
  {
    hide Path.At, Interpolate, InLimits;
    var peak :| PlansFor(path, start, targets, profile.maxVelocity, profile.maxAcceleration, peak);
    PathIsMonotoneAndSpeedBounded(path, elapsed, elapsed);
    InterpolateStaysInLimits(start, targets, path.At(elapsed), limits);
  }

  /** What the ticks of a driven leg conclude; to go on, if there were none. */
  ghost function Concludes(dog: Watchdog, targets: seq<real>, d: Driven): Verdict {
    if d.log == [] then GoOn else Conclusion(dog, targets, FirstWatch(d.start, d.began), d.log)
  }

  /** Every ending of a driven leg has its cause: success, a tracking error, stale feedback and a fault
      are exactly what the ticks conclude, and the rest is what the clock, a poll or the port said. */
  ghost predicate Explained(dog: Watchdog, timeout: real, targets: seq<real>, d: Driven, r: LegOutcome) {
    && Caused(d, timeout, r)
    && (r.Leg? && r.failure.None? <==> Concludes(dog, targets, d) == Settled)
    && (r.Leg? && r.failure == Some(TrackingError) <==> Concludes(dog, targets, d) == Fail(TrackingError))
    && (r.Leg? && r.failure == Some(MotorFault) <==> Concludes(dog, targets, d) == Fail(MotorFault))
    && (r.Leg? && r.failure == Some(StaleFeedback) <==> Concludes(dog, targets, d) == Fail(StaleFeedback))
  }

  lemma LegIsExplained(dog: Watchdog, targets: seq<real>, profile: MotionProfile, d: Driven, r: LegOutcome)
    requires profile.Valid() && |d.start.positions| == |targets| && Caused(d, profile.timeout, r)
    requires Report(dog, d.start, targets, d.path, profile, d.began, d.log, r)
    ensures Explained(dog, profile.timeout, targets, d, r)
  {
    hide Path.At, Interpolate, Observe, Unfinished, Timely, OnLine, Conclusion, AllFit, Caused;
    if d.log == [] {
      assert Trail(dog, targets, FirstWatch(d.start, d.began), []).1 == GoOn;
    } else {
      ExitsMeanWhatTheySay(dog, targets, FirstWatch(d.start, d.began), d.log);
    }
  }

  // ---- what the endings mean on the arm -------------------------------------------------------------

  /** Some joint was further from its command than allowed: a configured limit other than zero, or both
      eight tolerances and a tenth of a radian. */
  ghost predicate Strays(limit: Option<real>, tolerance: real, t: Tick) {
    exists k :: 0 <= k < JointsOf(t) && TooFar(limit, tolerance, ErrorAt(t, k))
  }

  predicate TooFar(limit: Option<real>, tolerance: real, distance: real) {
    if limit.None? || limit.value == 0.0 then distance > 8.0 * tolerance && distance > 0.1 else distance > limit.value
  }

  /** The plan had run its course, and every joint was measured within tolerance of its target. */
  ghost predicate Rests(tolerance: real, targets: seq<real>, t: Tick) {
    t.fraction >= 1.0 && |t.state.positions| == |targets| && Within(t.state.positions, targets, tolerance)
  }

  /** Why a driven leg ended, told from its ticks and what the controller and the profile were set to: the
      first of a fault, feedback that stood still too long, a deviation that lasted the grace, and an
      arrival that lasted the settle time. The worst error reported is the worst there was. */
  ghost predicate EndsFor(limit: Option<real>, grace: real, stale: real, profile: MotionProfile, targets: seq<real>, d: Driven, r: LegOutcome) {
    var log := d.log;
    var faulted := log != [] && (log[|log| - 1].state.faultBits || log[|log| - 1].state.lifecycle == Fault);
    var stood := !faulted && StaleRun(stale, FirstWatch(d.start, d.began), log);
    var strayed := !faulted && !stood && Lasted(log, grace, t => Strays(limit, profile.tolerance, t));
    var rested := !faulted && !stood && !strayed && Lasted(log, profile.settleTime, t => Rests(profile.tolerance, targets, t));
    && (r.Leg? && r.failure == Some(MotorFault) <==> faulted)
    && (r.Leg? && r.failure == Some(StaleFeedback) <==> stood)
    && (r.Leg? && r.failure == Some(TrackingError) <==> strayed)
    && (r.Leg? && r.failure.None? <==> rested)
    && (r.Leg? ==> r.planned == d.path.duration && WorstError(if faulted || stood then log[..|log| - 1] else log, r.maxError))
  }

  /** Watched by the dog of these settings, a leg ends so. */
  ghost predicate Watches(dog: Watchdog, limit: Option<real>, grace: real, stale: real, profile: MotionProfile) {
    && dog.tolerance == profile.tolerance && dog.settleTime == profile.settleTime
    && dog.trackingGrace == grace && dog.staleFeedback == stale
    && forall distance :: distance >= 0.0 ==> (Beyond(dog, distance) <==> TooFar(limit, profile.tolerance, distance))
  }

  predicate Beyond(dog: Watchdog, distance: real) {
    distance > dog.trackingLimit
  }

  lemma LegEndsFor(dog: Watchdog, limit: Option<real>, grace: real, stale: real, profile: MotionProfile, targets: seq<real>,
      d: Driven, r: LegOutcome)
    requires profile.Valid() && |d.start.positions| == |targets| > 0 && Watches(dog, limit, grace, stale, profile)
    requires Explained(dog, profile.timeout, targets, d, r)
    requires Report(dog, d.start, targets, d.path, profile, d.began, d.log, r)
    ensures EndsFor(limit, grace, stale, profile, targets, d, r)
  {
    hide Path.At, Interpolate, Observe, SpansRun, Lasted, Over, Arrived, Strays, Rests, WorstError, StaleRun, Caused, Beyond, TooFar, Trail;
    var log := d.log;
    WatchKnowsTheWorst(dog, targets, FirstWatch(d.start, d.began), log);
    assert r.Leg? ==> r.maxError == Trail(dog, targets, FirstWatch(d.start, d.began), log).0.maxError;
    if log == [] {
      NothingLasted(log, grace, t => Strays(limit, profile.tolerance, t));
      NothingLasted(log, profile.settleTime, t => Rests(profile.tolerance, targets, t));
      NothingStale(stale, FirstWatch(d.start, d.began));
    } else {
      TicksAreInOrder(log, d.began, profile);
      forall i | 0 <= i < |log|
        ensures Over(dog, targets, log[i]) <==> Strays(limit, profile.tolerance, log[i])
        ensures Arrived(dog, targets, log[i]) <==> Rests(profile.tolerance, targets, log[i])
      {
        OverStrays(dog, limit, grace, stale, profile, targets, log[i]);
      }
      SpansLasted(log, grace, t => Over(dog, targets, t), t => Strays(limit, profile.tolerance, t));
      SpansLasted(log, profile.settleTime, t => Arrived(dog, targets, t), t => Rests(profile.tolerance, targets, t));
      ExitsMeanWhatTheySay(dog, targets, FirstWatch(d.start, d.began), log);
    }
  }

  lemma OverStrays(dog: Watchdog, limit: Option<real>, grace: real, stale: real, profile: MotionProfile, targets: seq<real>, t: Tick)
    requires profile.Valid() && Watches(dog, limit, grace, stale, profile) && Fits(t, targets) && targets != []
    ensures Over(dog, targets, t) <==> Strays(limit, profile.tolerance, t)
    ensures Arrived(dog, targets, t) <==> Rests(profile.tolerance, targets, t)
  {
    hide MaxDistance, TooFar;
    var a, b := t.state.positions, t.command;
    MaxDistanceBounds(a, targets, profile.tolerance);
    MaxDistanceBounds(a, b, MaxDistance(a, b));
    var far := Farthest(a, b);
    assert ErrorAt(t, far) == MaxDistance(a, b) && Beyond(dog, ErrorAt(t, far)) <==> Over(dog, targets, t);
    forall k | 0 <= k < JointsOf(t) ensures Beyond(dog, ErrorAt(t, k)) <==> TooFar(limit, profile.tolerance, ErrorAt(t, k)) {
    }
    if k :| 0 <= k < JointsOf(t) && Beyond(dog, ErrorAt(t, k)) {
      assert ErrorAt(t, k) <= MaxDistance(a, b);
    }
  }

  lemma NothingLasted(log: seq<Tick>, span: real, holds: Tick -> bool)
    requires log == []
    ensures !Lasted(log, span, holds)
  {
  }

  lemma NothingStale(allowed: real, w0: Watch)
    ensures !StaleRun(allowed, w0, [])
  {
  }

  lemma TicksAreInOrder(log: seq<Tick>, began: real, profile: MotionProfile)
    requires profile.Valid() && Timely(log, began, profile.timeout, profile.Period())
    ensures InTimeOrder(log)
  {
    assert profile.Period() > 0.0 by { DivCancel(1.0, profile.controlRate); }
    forall i, j | 0 <= i <= j < |log| ensures log[i].now <= log[j].now {
      LaterIsLater(log, began, profile.timeout, profile.Period(), i, j);
    }
  }

  /** A leg that ended well ends within tolerance of its target, which was its last command. */
  ghost predicate EndsNear(targets: seq<real>, tolerance: real, run: LegRun) {
    run.outcome.Leg? && run.outcome.failure.None? ==>
      && |run.outcome.state.positions| == |targets| && Within(run.outcome.state.positions, targets, tolerance)
      && (run.driven.Some? ==>
            var log := run.driven.value.log; log != [] && log[|log| - 1].command == targets)
  }

  lemma SettledIsNear(dog: Watchdog, targets: seq<real>, profile: MotionProfile, d: Driven, r: LegOutcome)
    requires profile.Valid() && |d.start.positions| == |targets| && Caused(d, profile.timeout, r)
    requires dog.tolerance == profile.tolerance && Balanced(d.path)
    requires Report(dog, d.start, targets, d.path, profile, d.began, d.log, r)
    ensures EndsNear(targets, profile.tolerance, LegRun(r, Some(d)))
  {
    hide Path.At, Interpolate, Observe, Unfinished, Timely, MaxDistance, Trail, StaleRun, Within;
    if r.Leg? && r.failure.None? {
      LegIsExplained(dog, targets, profile, d, r);
      var last := d.log[|d.log| - 1];
      assert Arrived(dog, targets, last);
      MaxDistanceBounds(last.state.positions, targets, profile.tolerance);
      PathIsMonotoneAndSpeedBounded(d.path, last.now - d.began, last.now - d.began);
      InterpolateEnds(d.start.positions, targets);
    }
  }

  /** Some leg commanded the arm. */
  ghost predicate HasMoved(runs: seq<LegRun>): (moved: bool)
    ensures moved ==> runs != []
  {
    exists i :: 0 <= i < |runs| && runs[i].driven.Some?
  }

  /** Once a leg has commanded the arm, each further one begins exactly where the one before ended. */
  ghost predicate Joined(runs: seq<LegRun>) {
    forall j :: 0 < j < |runs| ==> JoinedAt(runs, j)
  }

  ghost predicate JoinedAt(runs: seq<LegRun>, j: nat)
    requires 0 < j < |runs|
  {
    HasMoved(runs[..j]) && runs[j].driven.Some? ==>
      runs[j - 1].outcome.Leg? && runs[j].driven.value.start.positions == runs[j - 1].outcome.state.positions
  }

  lemma JoinedGrows(runs: seq<LegRun>, run: LegRun)
    requires Joined(runs)
    requires HasMoved(runs) && run.driven.Some? ==>
      runs[|runs| - 1].outcome.Leg? && run.driven.value.start.positions == runs[|runs| - 1].outcome.state.positions
    ensures Joined(runs + [run]) && (HasMoved(runs + [run]) <==> HasMoved(runs) || run.driven.Some?)
  {
    var more := runs + [run];
    forall j | 0 < j < |more| ensures JoinedAt(more, j) {
      assert more[..j] == if j < |runs| then runs[..j] else runs;
      assert j < |runs| ==> JoinedAt(runs, j);
    }
    if HasMoved(runs) {
      var i :| 0 <= i < |runs| && runs[i].driven.Some?;
      assert more[i] == runs[i];
    }
    assert more[|runs|] == run;
  }

  /** Across the seam between two legs the commands keep their bounds too: no command of a leg is further
      from the last target before it than that leg's tolerance and what the velocity allows since. */
  lemma SeamIsBounded(runs: seq<LegRun>, j: nat, i: nat, limits: seq<JointLimit>, before: MotionTarget, profile: MotionProfile)
    requires 0 < j < |runs| && Joined(runs) && HasMoved(runs[..j]) && runs[j].driven.Some?
    requires Bounded(runs[j].driven.value, limits, profile) && i < |runs[j].driven.value.log|
    requires EndsNear(before.joints, before.profile.tolerance, runs[j - 1])
    requires runs[j - 1].outcome.Leg? && runs[j - 1].outcome.failure.None?
    ensures var d := runs[j].driven.value;
      && |d.log[i].command| == |before.joints|
      && Within(d.log[i].command, before.joints,
                before.profile.tolerance + Reach(profile.maxVelocity, d.log[i].now - d.began))
  {
    hide Reach, InLimits;
    var d := runs[j].driven.value;
    assert JoinedAt(runs, j);
    WithinAdds(before.joints, d.start.positions, d.log[i].command, before.profile.tolerance,
      Reach(profile.maxVelocity, d.log[i].now - d.began),
      before.profile.tolerance + Reach(profile.maxVelocity, d.log[i].now - d.began));
  }

  lemma ScaledIsValid(profile: MotionProfile, speedScale: real)
    requires profile.Valid() && 0.0 < speedScale <= 1.0
    ensures profile.Scaled(speedScale).Valid()
  {
  }

  lemma PlanIfPossible(sqrt: real -> real, start: seq<real>, targets: seq<real>, profile: MotionProfile, displacement: real, path: Path)
    requires profile.Valid() && |start| == |targets|
    requires displacement == MaxDistance(targets, start) && displacement > 0.0 && path == Path.Plan(sqrt, displacement, profile)
    ensures IsSqrt(sqrt) ==> Plans(path, start, targets, profile.maxVelocity, profile.maxAcceleration)
  {
    if IsSqrt(sqrt) {
      PlanPlans(sqrt, start, targets, profile, displacement, path);
    }
  }

  lemma ReportCounts(dog: Watchdog, startState: JointState, targets: seq<real>, path: Path, profile: MotionProfile,
      began: real, log: seq<Tick>, r: LegOutcome)
    requires profile.Valid() && |startState.positions| == |targets|
    requires Report(dog, startState, targets, path, profile, began, log, r)
    ensures r.Leg? ==> r.commands == |log| && !r.alreadyAtTarget
    ensures r.Leg? && r.failure.Some? ==> r.failure != Some(LimitViolation)
  {
    hide Path.At, Interpolate, Trail, Observe;
  }

  // ---- liveness: what an undisturbed loop keeps ---------------------------------------------------

  /** Every sample was exactly the command just sent. */
  ghost predicate Tracked(log: seq<Tick>) {
    forall i :: 0 <= i < |log| ==> log[i].state.positions == log[i].command
  }

  /** `elapsed` into the move: the pose is the last command, nothing is deviating, and the
      settle window opened within a tick of the planned end and has not yet run its course. */
  ghost predicate Nearing(start: seq<real>, targets: seq<real>, path: Path, profile: MotionProfile, w: Watch, began: real,
      pose: seq<real>, elapsed: real)
    requires profile.Valid() && |start| == |targets|
  {
    var dt := profile.Period();
    && elapsed >= 0.0 && w.deviatingSince == None
    && pose == Interpolate(start, targets, path.At(elapsed - dt))
    && match w.settledSince
       case None => elapsed < path.duration + dt
       case Some(since) => since - began < path.duration + dt && elapsed - dt - (since - began) < profile.settleTime
  }

  lemma InterpolateEnds(start: seq<real>, targets: seq<real>)
    requires |start| == |targets|
    ensures Interpolate(start, targets, 0.0) == start && Interpolate(start, targets, 1.0) == targets
  {
  }

  lemma BeforeFirstTick(start: seq<real>, targets: seq<real>, path: Path, profile: MotionProfile, w: Watch, began: real)
    requires profile.Valid() && |start| == |targets| && w.deviatingSince == None && w.settledSince == None
    requires Plans(path, start, targets, profile.maxVelocity, profile.maxAcceleration)
    ensures Nearing(start, targets, path, profile, w, began, start, 0.0) && Tracked([])
  {
    InterpolateEnds(start, targets);
    assert profile.Period() > 0.0 by { DivCancel(1.0, profile.controlRate); }
    AtRest(path, 0.0 - profile.Period());
  }

  lemma AtRest(path: Path, t: real)
    requires path.duration > 0.0 && t <= 0.0
    ensures path.At(t) == 0.0
  {
  }

  /** The next command is due in time, within limits and within the arm's reach. */
  lemma StepIsFeasible(start: seq<real>, targets: seq<real>, path: Path, profile: MotionProfile, limits: seq<JointLimit>,
      reach: real, w: Watch, began: real, pose: seq<real>, elapsed: real)
    requires profile.Valid() && |start| == |targets| == |limits|
    requires Nearing(start, targets, path, profile, w, began, pose, elapsed)
    requires InLimits(start, limits, 0.0) && InLimits(targets, limits, 0.0)
    requires Plans(path, start, targets, profile.maxVelocity, profile.maxAcceleration)
    requires reach >= profile.maxVelocity && profile.timeout >= path.duration + profile.settleTime + 2.0 * profile.Period()
    ensures elapsed <= profile.timeout
    ensures var command := Interpolate(start, targets, path.At(elapsed));
      InLimits(command, limits, 0.0) && Within(command, pose, Reach(reach, profile.Period()))
  {
    hide Path.At, Interpolate;
    var dt, v := profile.Period(), profile.maxVelocity;
    assert dt > 0.0 by { DivCancel(1.0, profile.controlRate); }
    var peak :| PlansFor(path, start, targets, v, profile.maxAcceleration, peak);
    PathIsMonotoneAndSpeedBounded(path, elapsed, elapsed);
    InterpolateStaysInLimits(start, targets, path.At(elapsed), limits);
    CommandsAreSpeedBounded(path, start, targets, v, profile.maxAcceleration, elapsed - dt, elapsed, v * dt);
    MulMonotone(v, reach, dt);
  }

  lemma TrackedTick(dog: Watchdog, start: seq<real>, targets: seq<real>, path: Path, profile: MotionProfile, w: Watch,
      began: real, pose: seq<real>, log: seq<Tick>, t: Tick)
    requires profile.Valid() && |start| == |targets| && Fits(t, targets) && Tracked(log)
    requires dog.settleTime == profile.settleTime && dog.tolerance == profile.tolerance && dog.trackingLimit >= 0.0
    requires Plans(path, start, targets, profile.maxVelocity, profile.maxAcceleration)
    requires Nearing(start, targets, path, profile, w, began, pose, t.now - began)
    requires t.fraction == path.At(t.now - began) && t.command == Interpolate(start, targets, t.fraction)
    requires t.state.positions == t.command && !t.state.HasFault() && t.state.sequence != w.lastSequence
    ensures Tracked(log + [t])
    ensures var (next, v) := Observe(dog, targets, w, t);
      && next.lastSequence == t.state.sequence
      && (v == GoOn || v == Settled)
      && (v == Settled ==> t.command == targets)
      && (v == GoOn ==> Nearing(start, targets, path, profile, next, began, t.command, t.now - began + profile.Period()))
  {
    hide Path.At, Interpolate;
    var elapsed, dt := t.now - began, profile.Period();
    assert elapsed + dt - dt == elapsed;
    MaxDistanceBounds(t.command, t.command, 0.0);
    InterpolateEnds(start, targets);
    var peak :| PlansFor(path, start, targets, profile.maxVelocity, profile.maxAcceleration, peak);
    PathIsMonotoneAndSpeedBounded(path, elapsed, elapsed);
    if elapsed >= path.duration {
      PathIsMonotoneAndSpeedBounded(path, path.duration, elapsed);
      assert t.fraction == 1.0;
    }
  }

  function Remaining(timeout: real, elapsed: real, rate: real): real {
    (timeout - elapsed) * rate
  }

  /** The loop's watch is the trail of the ticks so far, none of which ended it. */
  ghost predicate Trusted(dog: Watchdog, targets: seq<real>, w0: Watch, log: seq<Tick>, w: Watch) {
    AllFit(log, targets) && Unfinished(dog, targets, w0, log) && Trail(dog, targets, w0, log) == (w, GoOn)
  }

  lemma LogGrows(dog: Watchdog, targets: seq<real>, w0: Watch, log: seq<Tick>, w: Watch, tick: Tick)
    requires Trusted(dog, targets, w0, log, w) && Fits(tick, targets)
    ensures var more := log + [tick];
      AllFit(more, targets) && Unfinished(dog, targets, w0, more)
      && Trail(dog, targets, w0, more) == Observe(dog, targets, w, tick)
      && Commands(more) == Commands(log) + [tick.command]
  {
    var more := log + [tick];
    assert more[..|log|] == log;
    forall n | 0 <= n < |more| ensures Trail(dog, targets, w0, more[..n]).1 == GoOn {
      assert more[..n] == if n == |log| then log else log[..n];
    }
  }

  lemma RemainingDrops(timeout: real, before: real, after: real, profile: MotionProfile)
    requires profile.Valid() && after >= before + profile.Period()
    ensures Remaining(timeout, after, profile.controlRate) <= Remaining(timeout, before, profile.controlRate) - 1.0
    ensures before <= timeout ==> Remaining(timeout, before, profile.controlRate) >= 0.0
  {
    var rate, dt, gap := profile.controlRate, profile.Period(), after - before;
    DivCancel(1.0, rate);
    Order(dt, gap, rate, 1.0, gap * rate);
    assert Remaining(timeout, before, rate) - Remaining(timeout, after, rate) == gap * rate;
  }

  /** The loop's record between ticks: a trail that has not ended, timely and on the line. */
  ghost predicate Recorded(dog: Watchdog, startState: JointState, targets: seq<real>, path: Path, profile: MotionProfile,
      began: real, log: seq<Tick>, w: Watch, now: real)
    requires profile.Valid() && |startState.positions| == |targets|
  {
    && Trusted(dog, targets, FirstWatch(startState, began), log, w)
    && Timely(log, began, profile.timeout, profile.Period())
    && OnLine(log, startState.positions, targets, path, began)
    && began <= now && (log != [] ==> now >= log[|log| - 1].now + profile.Period())
  }

  function FirstWatch(startState: JointState, began: real): Watch {
    Watch(None, startState.sequence, began, None, 0.0)
  }

  /** What a finished leg reports: how it ended, and that every tick before was in order. */
  ghost predicate Report(dog: Watchdog, startState: JointState, targets: seq<real>, path: Path, profile: MotionProfile,
      began: real, log: seq<Tick>, r: LegOutcome)
    requires profile.Valid() && |startState.positions| == |targets|
  {
    && Ends(dog, targets, FirstWatch(startState, began), log, r) && (r.Leg? ==> r.planned == path.duration)
    && Timely(log, began, profile.timeout, profile.Period())
    && OnLine(log, startState.positions, targets, path, began)
  }

  lemma NoTicks(dog: Watchdog, startState: JointState, targets: seq<real>, path: Path, profile: MotionProfile, began: real)
    requires profile.Valid() && |startState.positions| == |targets|
    ensures Recorded(dog, startState, targets, path, profile, began, [], FirstWatch(startState, began), began)
    ensures Commands([]) == []
  {
    hide Path.At, Interpolate;
  }

  lemma RecordTick(dog: Watchdog, startState: JointState, targets: seq<real>, path: Path, profile: MotionProfile,
      began: real, log: seq<Tick>, w: Watch, head: real, tick: Tick, later: real)
    requires profile.Valid() && |startState.positions| == |targets| && Fits(tick, targets)
    requires Recorded(dog, startState, targets, path, profile, began, log, w, head)
    requires head <= tick.now <= began + profile.timeout && later >= tick.now + profile.Period()
    requires tick.fraction == path.At(tick.now - began)
    requires tick.command == Interpolate(startState.positions, targets, tick.fraction)
    ensures var more, (next, v) := log + [tick], Observe(dog, targets, w, tick);
      && Commands(more) == Commands(log) + [tick.command]
      && (v == GoOn ==> Recorded(dog, startState, targets, path, profile, began, more, next, later))
      && AllFit(more, targets) && Trail(dog, targets, FirstWatch(startState, began), more).0 == next
      && Concluded(dog, startState, targets, path, profile, began, more, v)
      && (v.Fail? ==> v.reason in {MotorFault, StaleFeedback, TrackingError})
  {
    LogGrows(dog, targets, FirstWatch(startState, began), log, w, tick);
    LogGrowsInTime(log, tick, began, profile.timeout, profile.Period(), startState.positions, targets, path);
    FailuresOnTick(dog, targets, w, tick);
    hide Path.At, Interpolate, Observe, Trail;
  }

  ghost predicate Concluded(dog: Watchdog, startState: JointState, targets: seq<real>, path: Path, profile: MotionProfile,
      began: real, log: seq<Tick>, v: Verdict)
    requires profile.Valid() && |startState.positions| == |targets|
  {
    && log != [] && AllFit(log, targets) && Unfinished(dog, targets, FirstWatch(startState, began), log)
    && Trail(dog, targets, FirstWatch(startState, began), log).1 == v
    && Timely(log, began, profile.timeout, profile.Period())
    && OnLine(log, startState.positions, targets, path, began)
  }

  lemma LogGrowsInTime(log: seq<Tick>, tick: Tick, began: real, timeout: real, dt: real, start: seq<real>, targets: seq<real>, path: Path)
    requires |start| == |targets| && Timely(log, began, timeout, dt) && OnLine(log, start, targets, path, began)
    requires began <= tick.now <= began + timeout && (log != [] ==> tick.now >= log[|log| - 1].now + dt)
    requires tick.fraction == path.At(tick.now - began) && tick.command == Interpolate(start, targets, tick.fraction)
    ensures Timely(log + [tick], began, timeout, dt) && OnLine(log + [tick], start, targets, path, began)
  {
    hide Path.At, Interpolate;
  }

  lemma ReportBetweenTicks(dog: Watchdog, startState: JointState, targets: seq<real>, path: Path, profile: MotionProfile,
      began: real, log: seq<Tick>, w: Watch, now: real, r: LegOutcome)
    requires profile.Valid() && |startState.positions| == |targets|
    requires Recorded(dog, startState, targets, path, profile, began, log, w, now)
    requires r.Leg? ==> r.commands == |log| && !r.alreadyAtTarget && r.failure.Some? && r.failure.value in {Cancelled, Timeout, NotEnabled}
    requires r.Leg? ==> r.maxError == w.maxError && r.planned == path.duration
    ensures Report(dog, startState, targets, path, profile, began, log, r)
  {
    hide Path.At, Interpolate, Trail, Observe;
  }

  lemma ReportOnTick(dog: Watchdog, startState: JointState, targets: seq<real>, path: Path, profile: MotionProfile,
      began: real, log: seq<Tick>, r: LegOutcome)
    requires profile.Valid() && |startState.positions| == |targets|
    requires r.Leg? && r.commands == |log| && !r.alreadyAtTarget && r.planned == path.duration
    requires AllFit(log, targets) && r.maxError == Trail(dog, targets, FirstWatch(startState, began), log).0.maxError
    requires r.failure.Some? ==> r.failure.value in {MotorFault, StaleFeedback, TrackingError}
    requires Concluded(dog, startState, targets, path, profile, began, log, if r.failure.Some? then Fail(r.failure.value) else Settled)
    ensures Report(dog, startState, targets, path, profile, began, log, r)
  {
    hide Path.At, Interpolate, Trail, Observe;
  }

  lemma FailuresOnTick(dog: Watchdog, targets: seq<real>, w: Watch, t: Tick)
    requires Fits(t, targets)
    ensures var v := Observe(dog, targets, w, t).1; v.Fail? ==> v.reason in {MotorFault, StaleFeedback, TrackingError}
  {
  }
}
