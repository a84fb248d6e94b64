/** The controller itself: one leg executed against the arm, and a walk over legs. */
module MotionControl {
  import opened Reals
  import opened Contracts
  import opened Time
  import opened FakeArmPort
  import opened Trapezoid
  import opened Motion
  import opened MotionLegs

  class JointMotionController {
    const port: FakeArm
    const clock: Clock
    const cancel: nat -> bool          // the answer to the nth cancellation poll
    const heartbeat: Option<nat -> bool>  // whether the nth beat returns
    const limitMargin: real
    const trackingGrace: real
    const maxTrackingError: Option<real>
    const staleFeedback: real
    const heartbeatInterval: real
    const estopOnFailure: bool

    var lastHeartbeat: Option<real>
    var beats: nat
    var polls: nat

    ghost predicate Valid()
      reads port, port.clock
    {
      port.Valid() && port.clock == clock
    }

    constructor (port: FakeArm, cancel: nat -> bool, heartbeat: Option<nat -> bool>, limitMargin: real, trackingGrace: real,
        maxTrackingError: Option<real>, staleFeedback: real, heartbeatInterval: real, estopOnFailure: bool)
      requires port.Valid()
      ensures Valid() && this.port == port && this.cancel == cancel && this.heartbeat == heartbeat
      ensures this.limitMargin == limitMargin && this.trackingGrace == trackingGrace && this.maxTrackingError == maxTrackingError
      ensures this.staleFeedback == staleFeedback && this.heartbeatInterval == heartbeatInterval && this.estopOnFailure == estopOnFailure
      ensures lastHeartbeat.None? && beats == polls == 0
    {
      this.port, this.clock := port, port.clock;
      this.cancel, this.heartbeat, this.limitMargin := cancel, heartbeat, limitMargin;
      this.trackingGrace, this.maxTrackingError, this.staleFeedback := trackingGrace, maxTrackingError, staleFeedback;
      this.heartbeatInterval, this.estopOnFailure := heartbeatInterval, estopOnFailure;
      lastHeartbeat, beats, polls := None, 0, 0;
    }

    function TrackingLimit(tolerance: real): real {
      if maxTrackingError.Some? && maxTrackingError.value != 0.0 then maxTrackingError.value else Max(8.0 * tolerance, 0.1)
    }

    function Dog(profile: MotionProfile): Watchdog {
      Watchdog(profile.tolerance, profile.settleTime, TrackingLimit(profile.tolerance), trackingGrace, staleFeedback)
    }

    /** How every leg that fails leaves the arm: `onError` chooses between the two stops. */
    method SafeStop()
      requires Valid()
      modifies port
      ensures Valid() && port.Still() && port.sent == old(port.sent)
      ensures port.lifecycle == if old(port.lifecycle) == Enabled && estopOnFailure then Connected else old(port.lifecycle)
      ensures old(port.lifecycle) != Enabled ==> port.targets == old(port.targets) && port.positions == old(port.positions)
    {
      if port.lifecycle == Enabled {
        if estopOnFailure {
          port.Estop();
        } else {
          var _ := port.HoldCurrentPosition();
        }
      }
    }

    method LegFailure(reason: FailureReason, state: JointState, commands: nat, maxError: real, planned: real)
      returns (r: LegOutcome)
      requires Valid()
      modifies port
      ensures Valid() && port.Still() && port.sent == old(port.sent)
      ensures port.lifecycle == if old(port.lifecycle) == Enabled && estopOnFailure then Connected else old(port.lifecycle)
      ensures old(port.lifecycle) != Enabled ==> port.targets == old(port.targets) && port.positions == old(port.positions)
      ensures r == Leg(state, commands, maxError, planned, false, Some(reason))
    {
      SafeStop();
      r := Leg(state, commands, maxError, planned, false, Some(reason));
    }

    /** The last tick's verdict, carried out: stop safely, or hold where the arm settled. */
    method Conclude(verdict: Verdict, state: JointState, commands: nat, maxError: real, planned: real) returns (r: LegOutcome)
      requires Valid() && verdict != GoOn
      modifies port
      ensures Valid() && port.Still() && port.sent == old(port.sent)
      ensures verdict.Fail? ==>
        && port.lifecycle == (if old(port.lifecycle) == Enabled && estopOnFailure then Connected else old(port.lifecycle))
        && (old(port.lifecycle) != Enabled ==> port.targets == old(port.targets) && port.positions == old(port.positions))
      ensures r == Leg(state, commands, maxError, planned, false, if verdict.Fail? then Some(verdict.reason) else None)
      ensures verdict == Settled ==> port.lifecycle == old(port.lifecycle)
      ensures verdict == Settled && old(port.lastIntegration) == clock.now ==> port.positions == old(port.positions)
    {
      if verdict.Fail? {
        r := LegFailure(verdict.reason, state, commands, maxError, planned);
      } else {
        var _ := port.HoldCurrentPosition();
        r := Leg(state, commands, maxError, planned, false, None);
      }
    }

    /** A beat is due when there is a heartbeat and the last one is an interval ago, or there was none; it is
        then called once, and `ok` is whether it returned. */
    ghost predicate Beats(last: Option<real>, before: nat, now: real, ok: bool)
      reads `lastHeartbeat, `beats
    {
      var due := heartbeat.Some? && (last.Some? ==> now - last.value >= heartbeatInterval);
      && lastHeartbeat == (if due then Some(now) else last) && beats == before + (if due then 1 else 0)
      && (ok <==> due ==> heartbeat.value(before))
    }

    /** Of the beats since `first` all returned, but for the one that raised. */
    ghost predicate BeatsReturned(first: nat, raised: bool)
      reads `beats
    {
      && first <= beats && (raised ==> heartbeat.Some? && first < beats)
      && (heartbeat.Some? ==> forall k :: first <= k < beats ==> (heartbeat.value(k) <==> !raised || k < beats - 1))
    }

    /** False when the heartbeat raises. */
    method Beat(now: real) returns (ok: bool)
      modifies this`lastHeartbeat, this`beats
      ensures Beats(old(lastHeartbeat), old(beats), now, ok)
    {
      if heartbeat.None? {
        return true;
      }
      if lastHeartbeat.None? || now - lastHeartbeat.value >= heartbeatInterval {
        lastHeartbeat := Some(now);
        ok := heartbeat.value(beats);
        beats := beats + 1;
      } else {
        ok := true;
      }
    }

    ghost predicate WithinReach(command: seq<real>, dt: real)
      reads port
    {
      && |command| == |port.limits| == |port.positions| && InLimits(command, port.limits, 0.0)
      && Within(command, port.positions, Reach(port.maxVelocity, dt))
    }

    /** The port takes targets. */
    predicate Accepting()
      reads this, port
    {
      !port.refuseTargets && port.lifecycle == Enabled
    }

    /** Send one command, wait out the tick, read back. False when the driver refuses. */
    method Drive(command: seq<real>, dt: real) returns (accepted: bool, state: JointState)
      requires Valid() && dt > 0.0
      modifies port, clock
      ensures Valid() && clock.now >= old(clock.now)
      ensures !accepted ==> port.sent == old(port.sent) && clock.now == old(clock.now)
      ensures |command| == |port.limits| ==> accepted == old(Accepting())
      ensures accepted && !state.HasFault() ==> Accepting()
      ensures accepted ==> clock.now >= old(clock.now) + dt
      ensures accepted ==> state.positions == port.Measured() && port.lastIntegration == clock.now
      ensures accepted ==> port.sent == old(port.sent) + [command] && |state.positions| == |port.limits|
      ensures old(port.Ideal() && WithinReach(command, dt)) ==> accepted && port.Ideal()
      ensures old(port.Ideal() && WithinReach(command, dt)) ==> clock.now == old(clock.now) + dt
      ensures old(port.Ideal() && WithinReach(command, dt)) ==> port.positions == state.positions == command
      ensures old(port.Ideal() && WithinReach(command, dt)) ==> !state.HasFault() && state.sequence == port.sequence != old(port.sequence)
    {
      hide Approach, Integrated, Clamped, Within, Reach, InLimits, Bumped, FakeArm.Stands;
      ghost var ideal := port.Ideal() && WithinReach(command, dt);
      accepted := port.SendTargets(command);
      if !accepted {
        state := JointState([], false, [], 0.0, Disconnected, false);
        return;
      }
      if ideal {
        InLimitsIsUnclamped(command, port.limits);
        WithinReachArrives(port.positions, command, Reach(port.maxVelocity, dt));
      }
      clock.Sleep(dt);
      state := port.ReadState();
      if ideal {
        assert state.positions == port.positions;
      }
    }

    /** The arm, the clock and the callbacks leave the move alone. */
    ghost predicate Undisturbed(startState: JointState)
      requires Valid()
      reads this, port, clock
    {
      && port.Ideal() && port.positions == startState.positions && port.sequence == startState.sequence
      && (forall k :: !cancel(k)) && (heartbeat.Some? ==> forall k :: heartbeat.value(k))
    }

    ghost predicate Feasible(start: seq<real>, targets: seq<real>, path: Path, profile: MotionProfile)
      requires profile.Valid() && |start| == |targets| == |port.limits|
    {
      && InLimits(start, port.limits, 0.0) && InLimits(targets, port.limits, 0.0)
      && Plans(path, start, targets, profile.maxVelocity, profile.maxAcceleration)
      && port.maxVelocity >= profile.maxVelocity && TrackingLimit(profile.tolerance) >= 0.0
      && profile.timeout >= path.duration + profile.settleTime + 2.0 * profile.Period()
    }

    /** An undisturbed feasible move under way: the arm is on the last command and on its way to settle. */
    ghost predicate UnderWay(startState: JointState, targets: seq<real>, path: Path, profile: MotionProfile, began: real,
        log: seq<Tick>, watch: Watch)
      requires Valid() && profile.Valid() && |startState.positions| == |targets| == |port.limits|
      reads this, port, clock
    {
      && Feasible(startState.positions, targets, path, profile)
      && port.Ideal() && port.sequence == watch.lastSequence && Tracked(log)
      && (forall k :: !cancel(k)) && (heartbeat.Some? ==> forall k :: heartbeat.value(k))
      && Nearing(startState.positions, targets, path, profile, watch, began, port.positions, clock.now - began)
    }

    /** Why a leg ended, as far as the clock, the callbacks and the port can tell; and how it leaves the
        arm. `firstPoll` and `firstBeat` are how many cancellation polls and beats there were before it,
        `accepting` whether the port took targets then. */
    ghost predicate Because(r: LegOutcome, began: real, timeout: real, firstPoll: nat, firstBeat: nat, accepting: bool)
      requires Valid()
      reads this, port, clock
    {
      && BeatsReturned(firstBeat, r.Raised?)
      && (forall k :: firstPoll <= k < polls - 1 ==> !cancel(k))
      && (firstPoll < polls && cancel(polls - 1) <==> r.Leg? && r.failure == Some(Cancelled))
      && (r.Leg? && r.failure == Some(Timeout) ==> clock.now - began > timeout)
      && (r.Leg? && r.failure == Some(NotEnabled) ==> !accepting)
      && (r.Leg? ==> port.Still() && (r.failure.Some? && estopOnFailure ==> port.lifecycle != Enabled))
      && (r.Leg? && accepting && r.failure != Some(MotorFault) && !(r.failure.Some? && estopOnFailure) ==> port.lifecycle == Enabled)
      && (r.Leg? && r.failure.None? ==> port.Measured() == r.state.positions)
    }

    /** The poll at the head of a pass: a beat that raises, a cancellation or the timeout ends the leg. */
    method Poll(profile: MotionProfile, path: Path, began: real, now: real, state: JointState, commands: nat, maxError: real)
      returns (r: Option<LegOutcome>)
      requires Valid() && now == clock.now
      modifies this`lastHeartbeat, this`beats, this`polls, port
      ensures Valid() && port.sent == old(port.sent)
      ensures r.Some? ==> Because(r.value, began, profile.timeout, old(polls), old(beats), old(Accepting()))
      ensures r.Some? && r.value.Leg? ==>
        r.value == Leg(state, commands, maxError, path.duration, false, r.value.failure) && r.value.failure in {Some(Cancelled), Some(Timeout)}
      ensures Beats(old(lastHeartbeat), old(beats), now, !(r.Some? && r.value.Raised?))
      ensures r.None? ==> polls == old(polls) + 1 && !cancel(old(polls)) && now - began <= profile.timeout
      ensures r.None? ==> unchanged(port)
      ensures polls >= old(polls)
      ensures (forall k :: !cancel(k)) && (heartbeat.Some? ==> forall k :: heartbeat.value(k)) && now - began <= profile.timeout ==> r.None?
    {
      var beat := Beat(now);
      if !beat {
        return Some(Raised);
      }
      var cancelled := cancel(polls);
      polls := polls + 1;
      if cancelled || now - began > profile.timeout {
        var failed := LegFailure(if cancelled then Cancelled else Timeout, state, commands, maxError, path.duration);
        return Some(failed);
      }
      r := None;
    }

    /** The rest of a pass: command, wait out the tick, look, and conclude. */
    method Act(targets: seq<real>, startState: JointState, path: Path, profile: MotionProfile, began: real, now: real,
        state: JointState, watch: Watch, commands: nat, ghost log: seq<Tick>, ghost head: real, ghost already: seq<seq<real>>)
      returns (r: Option<LegOutcome>, next: JointState, seen: Watch, ghost more: seq<Tick>)
      requires Valid() && profile.Valid() && |startState.positions| == |targets| == |port.limits| && commands == |log|
      requires Recorded(Dog(profile), startState, targets, path, profile, began, log, watch, head)
      requires port.sent == already + Commands(log) && state == LastSeen(startState, log)
      requires head <= now == clock.now && now - began <= profile.timeout
      modifies port, clock
      ensures Valid() && port.sent == already + Commands(more)
      ensures r.None? ==>
        && Recorded(Dog(profile), startState, targets, path, profile, began, more, seen, clock.now)
        && |more| == |log| + 1 && more[|log|].now == now && next == LastSeen(startState, more)
        && clock.now >= old(clock.now) + profile.Period()
      ensures r.Some? ==>
        && Report(Dog(profile), startState, targets, path, profile, began, more, r.value)
        && r.value.Leg? && r.value.state == LastSeen(startState, more) && Concludes(r.value)
      ensures old(Accepting()) <==> r.None? || r.value.failure != Some(NotEnabled)
      ensures (r.None? ==> Accepting()) && (|more| > |log| ==> old(Accepting()))
      ensures old(UnderWay(startState, targets, path, profile, began, log, watch)) ==>
        if r.None? then UnderWay(startState, targets, path, profile, began, more, seen)
        else r.value.failure.None? && port.positions == targets == r.value.state.positions && Tracked(more) && port.lifecycle == Enabled
    {
      hide Path.At, Interpolate, Observe, Trail, Unfinished, AllFit, OnLine, Commands, Timely, Ends, Tracked, Recorded, Report,
        Concluded, Trusted, Reach, Plans, InLimits, Within, Nearing, FakeArm.Stands, FakeArm.Valid;
      var start, dog := startState.positions, Dog(profile);
      ghost var underWay := UnderWay(startState, targets, path, profile, began, log, watch);
      next, seen, more, r := state, watch, log, None;
      if underWay {
        NextIsFeasible(startState, targets, path, profile, began, log, watch);
      }
      ghost var pose := port.positions;
      var fraction := path.At(now - began);
      var command := Interpolate(start, targets, fraction);
      var accepted, reading := Drive(command, profile.Period());
      if !accepted {
        var failed := LegFailure(NotEnabled, state, commands, watch.maxError, path.duration);
        ReportBetweenTicks(dog, startState, targets, path, profile, began, log, watch, head, failed);
        r := Some(failed);
        return;
      }
      var tick := Tick(now, fraction, command, reading);
      RecordTick(dog, startState, targets, path, profile, began, log, watch, head, tick, clock.now);
      var (observed, verdict) := Observe(dog, targets, watch, tick);
      if reading.HasFault() {
        FaultsEndIt(dog, targets, watch, tick);
      }
      if underWay {
        TrackedTick(dog, start, targets, path, profile, watch, began, pose, log, tick);
      }
      next, seen, more := reading, observed, log + [tick];
      if verdict != GoOn {
        var ended := Conclude(verdict, reading, commands + 1, observed.maxError, path.duration);
        ReportOnTick(dog, startState, targets, path, profile, began, more, ended);
        r := Some(ended);
      }
    }

    /** How a leg that was commanding leaves the arm when it ends. */
    ghost predicate Concludes(r: LegOutcome)
      requires Valid() && r.Leg?
      reads this, port, clock
    {
      && r.failure !in {Some(Cancelled), Some(Timeout)}
      && port.Still() && (r.failure.Some? && estopOnFailure ==> port.lifecycle != Enabled)
      && (r.failure !in {Some(MotorFault), Some(NotEnabled)} && !(r.failure.Some? && estopOnFailure) ==> port.lifecycle == Enabled)
      && (r.failure.None? ==> port.Measured() == r.state.positions)
    }

    lemma NextIsFeasible(startState: JointState, targets: seq<real>, path: Path, profile: MotionProfile, began: real,
        log: seq<Tick>, watch: Watch)
      requires Valid() && profile.Valid() && |startState.positions| == |targets| == |port.limits|
      requires UnderWay(startState, targets, path, profile, began, log, watch)
      ensures clock.now - began <= profile.timeout
      ensures WithinReach(Interpolate(startState.positions, targets, path.At(clock.now - began)), profile.Period())
    {
      hide Path.At, Plans, InLimits, Within, Nearing, Reach;
      StepIsFeasible(startState.positions, targets, path, profile, port.limits, port.maxVelocity, watch, began, port.positions,
        clock.now - began);
    }

    /** One pass of the loop. None while the move goes on. */
    method Pass(targets: seq<real>, startState: JointState, path: Path, profile: MotionProfile, began: real,
        state: JointState, watch: Watch, commands: nat, ghost log: seq<Tick>, ghost already: seq<seq<real>>)
      returns (r: Option<LegOutcome>, next: JointState, seen: Watch, ghost more: seq<Tick>)
      requires Valid() && profile.Valid() && |startState.positions| == |targets| == |port.limits| && commands == |log|
      requires Recorded(Dog(profile), startState, targets, path, profile, began, log, watch, clock.now)
      requires port.sent == already + Commands(log) && state == LastSeen(startState, log)
      modifies this, port, clock
      ensures Valid() && port.sent == already + Commands(more) && polls >= old(polls)
      ensures r.None? ==>
        && Recorded(Dog(profile), startState, targets, path, profile, began, more, seen, clock.now)
        && |more| == |log| + 1 && next == LastSeen(startState, more) && polls == old(polls) + 1 && !cancel(old(polls))
        && old(clock.now) - began <= profile.timeout && clock.now >= old(clock.now) + profile.Period()
        && Beats(old(lastHeartbeat), old(beats), more[|log|].now, true)
      ensures (r.None? ==> Accepting()) && (|more| > |log| ==> old(Accepting()))
      ensures r.Some? ==>
        && Report(Dog(profile), startState, targets, path, profile, began, more, r.value)
        && Because(r.value, began, profile.timeout, old(polls), old(beats), old(Accepting())) && (r.value.Leg? ==> r.value.state == LastSeen(startState, more))
      ensures old(UnderWay(startState, targets, path, profile, began, log, watch)) ==>
        if r.None? then UnderWay(startState, targets, path, profile, began, more, seen)
        else
          && r.value.Leg? && r.value.failure.None? && port.positions == targets == r.value.state.positions
          && Tracked(more) && port.lifecycle == Enabled
    {
      hide Commands, Tracked, Recorded, Report, Nearing, FakeArm.Stands, JointMotionController.Feasible;
      ghost var head, underWay := clock.now, UnderWay(startState, targets, path, profile, began, log, watch);
      next, seen, more := state, watch, log;
      var now := Now();
      if underWay {
        NextIsFeasible(startState, targets, path, profile, began, log, watch);
      }
      r := Poll(profile, path, began, now, state, commands, watch.maxError);
      if r.Some? {
        ReportBetweenTicks(Dog(profile), startState, targets, path, profile, began, log, watch, head, r.value);
        return;
      }
      r, next, seen, more := Act(targets, startState, path, profile, began, now, state, watch, commands, log, head, already);
    }

    method Now() returns (now: real)
      requires Valid()
      modifies clock
      ensures Valid() && now == clock.now >= old(clock.now)
      ensures clock.manual ==> clock.now == old(clock.now)
    {
      now := clock.Monotonic();
    }

    /** The loop. It always ends; its ticks are timely and on the planned line; it ends for what they
        were, or for what the clock, the callbacks or the port said. */
    method Execute(targets: seq<real>, startState: JointState, path: Path, profile: MotionProfile)
      returns (r: LegOutcome, ghost began: real, ghost log: seq<Tick>)
      requires Valid() && profile.Valid()
      requires |startState.positions| == |targets| == |port.limits|
      modifies this, port, clock
      ensures Valid()
      ensures Report(Dog(profile), startState, targets, path, profile, began, log, r)
      ensures port.sent == old(port.sent) + Commands(log)
      ensures Because(r, began, profile.timeout, old(polls), old(beats), old(Accepting())) && polls >= old(polls)
      ensures log != [] ==> old(Accepting())
      ensures r.Leg? ==> r.state == LastSeen(startState, log)
      // Liveness: an undisturbed feasible move arrives, tracked exactly all the way.
      ensures old(Undisturbed(startState)) && Feasible(startState.positions, targets, path, profile) ==>
        r.Leg? && r.failure.None? && port.positions == targets == r.state.positions && Tracked(log) && port.lifecycle == Enabled
    {
      hide Path.At, Interpolate, Trail, Unfinished, AllFit, Remaining, OnLine, Commands, Timely, Ends, Tracked, Recorded, Report,
        Reach, Plans, InLimits, Within, Nearing, FakeArm.Stands, JointMotionController.Feasible, JointMotionController.Because;
      ghost var undisturbed := Undisturbed(startState) && Feasible(startState.positions, targets, path, profile);
      var beganAt := clock.Monotonic();
      began, log := beganAt, [];
      var watch := Watch(None, startState.sequence, beganAt, None, 0.0);
      NoTicks(Dog(profile), startState, targets, path, profile, began);
      if undisturbed {
        SetsOut(startState, targets, path, profile, watch, began);
      }
      var commands, state := 0, startState;

      while true
        invariant Valid() && commands == |log| && state == LastSeen(startState, log)
        invariant Recorded(Dog(profile), startState, targets, path, profile, began, log, watch, clock.now)
        invariant port.sent == old(port.sent) + Commands(log)
        invariant BeatsReturned(old(beats), false)
        invariant polls >= old(polls) && forall k :: old(polls) <= k < polls ==> !cancel(k)
        invariant undisturbed ==> UnderWay(startState, targets, path, profile, began, log, watch)
        invariant if log == [] then Accepting() == old(Accepting()) else Accepting() && old(Accepting())
        decreases Remaining(profile.timeout, clock.now - began, profile.controlRate)
      {
        ghost var head, asked, beaten := clock.now, polls, beats;
        var done;
        done, state, watch, log := Pass(targets, startState, path, profile, beganAt, state, watch, commands, log, old(port.sent));
        if done.Some? {
          r := done.value;
          StillBecause(r, began, profile.timeout, old(polls), asked, old(beats), beaten, old(Accepting()));
          return;
        }
        RemainingDrops(profile.timeout, head - began, clock.now - began, profile);
        commands := commands + 1;
      }
    }

    lemma SetsOut(startState: JointState, targets: seq<real>, path: Path, profile: MotionProfile, watch: Watch, began: real)
      requires Valid() && profile.Valid() && |startState.positions| == |targets| == |port.limits|
      requires Undisturbed(startState) && Feasible(startState.positions, targets, path, profile)
      requires watch == Watch(None, startState.sequence, began, None, 0.0) && began == clock.now
      ensures UnderWay(startState, targets, path, profile, began, [], watch)
    {
      hide Nearing, Tracked, Plans, InLimits;
      BeforeFirstTick(startState.positions, targets, path, profile, watch, began);
    }

    lemma StillBecause(r: LegOutcome, began: real, timeout: real, firstPoll: nat, laterPoll: nat, firstBeat: nat, laterBeat: nat, accepting: bool)
      requires Valid() && firstPoll <= laterPoll && firstBeat <= laterBeat && Because(r, began, timeout, laterPoll, laterBeat, accepting)
      requires forall k :: firstPoll <= k < laterPoll ==> !cancel(k)
      requires heartbeat.Some? ==> forall k :: firstBeat <= k < laterBeat ==> heartbeat.value(k)
      ensures Because(r, began, timeout, firstPoll, firstBeat, accepting)
    {
    }

    /** A fault-free arm on a manual clock, callbacks that let it be. */
    ghost predicate Calm()
      requires Valid()
      reads this, port, clock
    {
      && clock.manual && (port.lifecycle == Enabled || port.lifecycle == Connected)
      && port.trackingOffset == 0.0 && !port.refuseTargets && port.faultAfter.None? && port.staleAfter.None?
      && (forall k :: !cancel(k)) && (heartbeat.Some? ==> forall k :: heartbeat.value(k))
    }

    /** What a move from `pose` to `targets` needs: both in limits and, unless the arm is already
        there, an arm as fast as the profile and time for the plan to run and settle. */
    ghost predicate Reachable(sqrt: real -> real, pose: seq<real>, targets: seq<real>, profile: MotionProfile)
      requires profile.Valid()
    {
      && IsSqrt(sqrt) && |pose| == |targets| == |port.limits| > 0
      && InLimits(pose, port.limits, 0.0) && InLimits(targets, port.limits, 0.0) && InLimits(targets, port.limits, limitMargin)
      && (MaxDistance(targets, pose) > profile.tolerance ==> Fits(sqrt, pose, targets, profile))
    }

    ghost predicate Fits(sqrt: real -> real, pose: seq<real>, targets: seq<real>, profile: MotionProfile)
      requires profile.Valid() && |pose| == |targets|
    {
      && port.maxVelocity >= profile.maxVelocity && TrackingLimit(profile.tolerance) >= 0.0
      && profile.timeout >= Path.Plan(sqrt, MaxDistance(targets, pose), profile).duration + profile.settleTime + 2.0 * profile.Period()
    }

    /** A direct move to `targets` from wherever the arm stands, at rest or not. */
    ghost predicate Ready(sqrt: real -> real, targets: seq<real>, profile: MotionProfile)
      requires Valid() && profile.Valid()
      reads this, port, clock
    {
      Calm() && Reachable(sqrt, port.Stands(), targets, profile)
    }

    /** Where a leg leaves an arm that stood at `pose`: on its target, or where it was if near enough. */
    ghost function Arrival(pose: seq<real>, targets: seq<real>, tolerance: real): seq<real> {
      if |pose| == |targets| && MaxDistance(targets, pose) <= tolerance then pose else targets
    }

    /** What the cancellation polls answered, from one up to another. */
    ghost function Answers(from: nat, until: nat): (r: seq<bool>)
      requires from <= until
      ensures |r| == until - from
    {
      seq(until - from, i requires 0 <= i < until - from => cancel(from + i))
    }

    /** Energize the arm if need be, and execute the plan. */
    method Carry(targets: seq<real>, state: JointState, path: Path, profile: MotionProfile)
      returns (r: LegOutcome, ghost driven: Option<Driven>)
      requires Valid() && profile.Valid() && |state.positions| == |targets| == |port.limits| > 0
      modifies this, port, clock
      ensures Valid() && port.sent == old(port.sent) + Commands(Ticks(driven))
      ensures Reports(targets, profile, LegRun(r, driven))
      ensures driven.Some? ==> driven.value.start == state && driven.value.path == path
      ensures driven.None? <==> old(port.lifecycle == Connected && !InLimits(port.positions, port.limits, 0.0))
      ensures r.Leg? ==> driven.Some? && r.commands == |driven.value.log| && !r.alreadyAtTarget && r.failure != Some(LimitViolation)
      ensures r.Leg? && r.failure.Some? ==> port.Still() && (estopOnFailure ==> port.lifecycle != Enabled)
      ensures r.Leg? && r.failure.None? ==> port.Still() && port.Measured() == r.state.positions
      ensures old(Energizable() && port.positions == state.positions && port.sequence == state.sequence) ==>
        Feasible(state.positions, targets, path, profile) ==>
        && r.Leg? && r.failure.None? && Calm() && port.lifecycle == Enabled && port.positions == targets == r.state.positions && Tracked(Ticks(driven))
    {
      hide Path.At, Interpolate, Path.Plan, MaxDistance, Report, Integrated, Commands, Tracked, FakeArm.Stands, Within, Plans,
        JointMotionController.Feasible, EndsFor;
      driven := None;
      if port.lifecycle == Connected {
        var enabled := port.Enable();
        if !enabled {
          assert Commands([]) == [] by { NothingCommanded(); }
          return Raised, None;
        }
      }
      ghost var began, log, firstPoll, accepting := 0.0, [], polls, Accepting();
      r, began, log := Execute(targets, state, path, profile);
      driven := Some(Driven(state, path, began, log, clock.now, Answers(firstPoll, polls), accepting));
      ReportCounts(Dog(profile), state, targets, path, profile, began, log, r);
      EndsForItsCause(targets, profile, driven.value, r);
    }

    /** The watchdog is set as the controller and the profile are. */
    lemma EndsForItsCause(targets: seq<real>, profile: MotionProfile, d: Driven, r: LegOutcome)
      requires profile.Valid() && |d.start.positions| == |targets| > 0 && Caused(d, profile.timeout, r)
      requires Report(Dog(profile), d.start, targets, d.path, profile, d.began, d.log, r)
      ensures EndsFor(maxTrackingError, trackingGrace, staleFeedback, profile, targets, d, r)
    {
      hide Report, EndsFor, Explained, Caused;
      LegIsExplained(Dog(profile), targets, profile, d, r);
      LegEndsFor(Dog(profile), maxTrackingError, trackingGrace, staleFeedback, profile, targets, d, r);
    }

    /** Calm, read at this very moment, and in limits if it has yet to be energized. */
    ghost predicate Energizable()
      requires Valid()
      reads this, port, clock
    {
      Calm() && port.lastIntegration == clock.now && |port.limits| > 0 && InLimits(port.positions, port.limits, 0.0)
    }

    /** One leg: refuse, report that the arm is already there, or execute. `assumedStart` is the
        pose the leg is planned from, which differs from the arm's only in a dry run. */
    method MoveTo(sqrt: real -> real, targets: seq<real>, profile: MotionProfile, dryRun: bool, assumedStart: Option<seq<real>>)
      returns (r: LegOutcome, ghost driven: Option<Driven>)
      requires Valid() && profile.Valid() && |targets| == |port.limits| > 0
      requires assumedStart.Some? ==> |assumedStart.value| == |targets|
      modifies this, port, clock
      ensures Valid()
      ensures port.sent == old(port.sent) + Commands(Ticks(driven))
      ensures r.Leg? ==> r.commands == |Ticks(driven)|
      ensures dryRun ==> driven.None? && r.Leg?
      ensures r.Leg? && r.failure.Some? ==> port.Still()
      ensures r.Leg? && r.failure.Some? && estopOnFailure ==> port.lifecycle != Enabled
      ensures r.Leg? && r.alreadyAtTarget && assumedStart.None? ==>
        driven.None? && |r.state.positions| == |targets| && Within(targets, r.state.positions, profile.tolerance)
      ensures r.Leg? && r.failure.None? && !dryRun ==> r.alreadyAtTarget || driven.Some?
      ensures !InLimits(targets, port.limits, limitMargin) <==> r.Leg? && r.failure == Some(LimitViolation)
      ensures !InLimits(targets, port.limits, limitMargin) ==> driven.None?
      ensures InLimits(targets, port.limits, limitMargin) && old(port.lifecycle) in {Fault, Disconnected} ==>
        driven.None? && r.Leg? && r.failure == Some(if old(port.lifecycle) == Fault then MotorFault else NotEnabled)
      ensures r.Leg? ==> Measures(sqrt, targets, profile, dryRun, assumedStart, LegRun(r, driven))
      // An executed leg is planned from where the arm stands, and reports what it did.
      ensures Reports(targets, profile, LegRun(r, driven))
      ensures driven.Some? && assumedStart.None? ==>
        |driven.value.start.positions| == |targets|
        && driven.value.path == Path.Plan(sqrt, MaxDistance(targets, driven.value.start.positions), profile)
      ensures driven.Some? && assumedStart.None? && IsSqrt(sqrt) ==>
        Plans(driven.value.path, driven.value.start.positions, targets, profile.maxVelocity, profile.maxAcceleration)
      // An arm left still stays where it is: the next leg begins exactly there.
      ensures driven.Some? && old(port.Still() || port.lastIntegration == clock.now) ==>
        driven.value.start.positions == old(port.Measured())
      ensures r.Leg? && r.failure.None? && (driven.Some? || old(port.Still())) ==> port.Still() && port.Measured() == r.state.positions
      // Liveness: a ready leg arrives, tracked exactly all the way, or is already there.
      ensures old(Ready(sqrt, targets, profile)) && !dryRun && assumedStart.None? ==>
        && r.Leg? && r.failure.None? && Calm() && port.Stands() == port.positions == r.state.positions
        && port.positions == old(Arrival(port.Stands(), targets, profile.tolerance)) && Tracked(Ticks(driven))
        && (r.alreadyAtTarget <==> MaxDistance(targets, old(port.Stands())) <= profile.tolerance)
    {
      hide Interpolate, Path.Plan, MaxDistance, Report, Integrated, Commands, FakeArm.Stands, Plans, InLimits, Tracked,
        JointMotionController.Fits, EndsFor;
      NothingCommanded();
      if !InLimits(targets, port.limits, limitMargin) {
        SafeStop();
        StandsStill();
        var here := port.ReadState();
        return Leg(here, 0, 0.0, 0.0, false, Some(LimitViolation)), None;
      }
      StandsStill();
      if port.lastIntegration == clock.now { port.StandsWhereRead(); }
      var state := port.ReadState();
      if state.lifecycle == Fault || state.lifecycle == Disconnected || !state.finite {
        r := LegFailure(if state.lifecycle == Fault then MotorFault else if state.lifecycle == Disconnected then NotEnabled
          else StaleFeedback, state, 0, 0.0, 0.0);
        return r, None;
      }
      r, driven := GoFrom(sqrt, state, targets, profile, dryRun, assumedStart);
    }

    /** Plan from where the arm was just read to stand, and go, unless there is nowhere to go or it is a
        dry run. */
    method GoFrom(sqrt: real -> real, state: JointState, targets: seq<real>, profile: MotionProfile, dryRun: bool,
        assumedStart: Option<seq<real>>)
      returns (r: LegOutcome, ghost driven: Option<Driven>)
      requires Valid() && profile.Valid() && |targets| == |port.limits| > 0
      requires assumedStart.Some? ==> |assumedStart.value| == |targets|
      requires port.lastIntegration == clock.now && state.positions == port.Measured() && state.sequence == port.sequence
      modifies this, port, clock
      ensures Valid() && port.sent == old(port.sent) + Commands(Ticks(driven))
      ensures r.Leg? ==> r.commands == |Ticks(driven)| && r.failure != Some(LimitViolation)
      ensures r.Raised? && driven.None? ==> old(port.lifecycle == Connected && !InLimits(port.positions, port.limits, 0.0))
      ensures dryRun ==> driven.None? && r.Leg? && r.failure.None?
      ensures r.Leg? && r.failure.Some? ==> port.Still() && (estopOnFailure ==> port.lifecycle != Enabled)
      ensures r.Leg? && r.alreadyAtTarget && assumedStart.None? ==>
        driven.None? && r.state == state && Within(targets, state.positions, profile.tolerance)
      ensures r.Leg? && r.failure.None? && !dryRun ==> r.alreadyAtTarget || driven.Some?
      ensures Reports(targets, profile, LegRun(r, driven))
      ensures driven.Some? ==> driven.value.start == state
      ensures r.Leg? ==> Measures(sqrt, targets, profile, dryRun, assumedStart, LegRun(r, driven))
      ensures driven.Some? && assumedStart.None? ==>
        |state.positions| == |targets| && driven.value.path == Path.Plan(sqrt, MaxDistance(targets, state.positions), profile)
      ensures driven.Some? && assumedStart.None? && IsSqrt(sqrt) ==>
        Plans(driven.value.path, state.positions, targets, profile.maxVelocity, profile.maxAcceleration)
      ensures r.Leg? && r.failure.None? && (driven.Some? || old(port.Still())) ==> port.Still() && port.Measured() == r.state.positions
      ensures old(Calm() && Reachable(sqrt, port.positions, targets, profile)) && !dryRun && assumedStart.None? ==>
        && r.Leg? && r.failure.None? && Calm() && port.Stands() == port.positions == r.state.positions
        && port.positions == old(Arrival(port.positions, targets, profile.tolerance)) && Tracked(Ticks(driven))
        && (r.alreadyAtTarget <==> MaxDistance(targets, old(port.positions)) <= profile.tolerance)
    {
      hide Interpolate, Path.Plan, MaxDistance, Report, Integrated, Commands, FakeArm.Stands, Plans, InLimits, Tracked, Within, EndsFor;
      ghost var ready := Calm() && Reachable(sqrt, port.positions, targets, profile) && !dryRun && assumedStart.None?;
      if ready { assert state.positions == port.positions; }
      NothingCommanded();
      if port.lastIntegration == clock.now { port.StandsWhereRead(); }
      var origin := if assumedStart.Some? then assumedStart.value else state.positions;
      var displacement := MaxDistance(targets, origin);
      var path := Path.Plan(sqrt, displacement, profile);
      if dryRun {
        return Leg(state, 0, 0.0, path.duration, false, None), None;
      }
      MaxDistanceBounds(targets, origin, profile.tolerance);
      if displacement <= profile.tolerance {
        return Leg(state, 0, 0.0, 0.0, true, None), None;
      }
      PlanIfPossible(sqrt, origin, targets, profile, displacement, path);
      r, driven := Carry(targets, state, path, profile);
      if ready { port.StandsWhereRead(); }
    }

    /** An arm with nowhere to go stands where it is. */
    lemma StandsStill()
      requires Valid()
      ensures port.Still() ==> port.Stands() == port.positions
    {
      if port.lifecycle == Enabled && port.Still() {
        port.StandsWhereRead();
      }
    }

    /** What decides a leg that is not refused: how far the farthest joint has to go, from the pose assumed
        in a dry run and the measured one otherwise. A dry run answers with the planned duration. */
    ghost predicate Measures(sqrt: real -> real, targets: seq<real>, profile: MotionProfile, dryRun: bool,
        assumedStart: Option<seq<real>>, run: LegRun)
      requires profile.Valid() && run.outcome.Leg?
    {
      var r := run.outcome;
      var origin := if assumedStart.Some? then assumedStart.value else if run.driven.Some? then run.driven.value.start.positions else r.state.positions;
      && (r.failure.None? || run.driven.Some? ==>
            && |origin| == |targets|
            && (dryRun ==> !r.alreadyAtTarget && r.planned == Path.Plan(sqrt, MaxDistance(targets, origin), profile).duration)
            && (!dryRun ==> (r.alreadyAtTarget <==> MaxDistance(targets, origin) <= profile.tolerance))
            && (!dryRun ==> (run.driven.Some? <==> MaxDistance(targets, origin) > profile.tolerance)))
      && (run.driven.None? ==> r.commands == 0 && r.maxError == 0.0 && (!dryRun || r.failure.Some? ==> r.planned == 0.0))
      && (r.failure.Some? ==> !r.alreadyAtTarget)
    }

    ghost predicate Reports(targets: seq<real>, profile: MotionProfile, run: LegRun)
      requires profile.Valid()
    {
      run.driven.Some? ==>
        var d := run.driven.value;
        && |d.start.positions| == |targets| && Caused(d, profile.timeout, run.outcome)
        && Report(Dog(profile), d.start, targets, d.path, profile, d.began, d.log, run.outcome)
        && EndsFor(maxTrackingError, trackingGrace, staleFeedback, profile, targets, d, run.outcome)
    }

    /** What a leg of a walk kept to, and what its ending says. */
    ghost predicate Kept(sqrt: real -> real, target: MotionTarget, speedScale: real, dryRun: bool, assumed: Option<seq<real>>, run: LegRun)
      requires target.profile.Valid() && 0.0 < speedScale <= 1.0
    {
      ScaledIsValid(target.profile, speedScale);
      var profile := target.profile.Scaled(speedScale);
      && (run.outcome.Leg? ==> Measures(sqrt, target.joints, profile, dryRun, assumed, run))
      && (run.driven.Some? ==>
        && (IsSqrt(sqrt) && limitMargin >= 0.0 ==> Bounded(run.driven.value, port.limits, profile))
        && Caused(run.driven.value, profile.timeout, run.outcome)
        && EndsFor(maxTrackingError, trackingGrace, staleFeedback, profile, target.joints, run.driven.value, run.outcome))
    }

    /** Where an arm that stood at `pose` is after the first `n` legs. */
    ghost function PoseAfter(legs: seq<MotionTarget>, pose: seq<real>, n: nat): seq<real>
      requires n <= |legs|
    {
      if n == 0 then pose else Arrival(PoseAfter(legs, pose, n - 1), legs[n - 1].joints, legs[n - 1].profile.tolerance)
    }

    /** Every leg can be driven from where the one before it leaves the arm. */
    ghost predicate Walkable(sqrt: real -> real, legs: seq<MotionTarget>, speedScale: real, pose: seq<real>)
      requires 0.0 < speedScale <= 1.0 && forall i :: 0 <= i < |legs| ==> legs[i].profile.Valid()
    {
      forall n :: 0 <= n < |legs| ==>
        && legs[n].profile.Scaled(speedScale).Valid()
        && Reachable(sqrt, PoseAfter(legs, pose, n), legs[n].joints, legs[n].profile.Scaled(speedScale))
    }

    /** A walk that stands within the last leg's tolerance of its target; on it exactly, if it was
        further away before. */
    lemma WalkEndsThere(legs: seq<MotionTarget>, pose: seq<real>)
      requires legs != [] && |pose| == |legs[|legs| - 1].joints|
      requires forall i :: 0 <= i < |legs| ==> legs[i].profile.Valid() && |legs[i].joints| == |pose|
      ensures var last, end := legs[|legs| - 1], PoseAfter(legs, pose, |legs|);
        && |end| == |last.joints| && Within(last.joints, end, last.profile.tolerance)
        && (MaxDistance(last.joints, PoseAfter(legs, pose, |legs| - 1)) > last.profile.tolerance ==> end == last.joints)
    {
      PosesFit(legs, pose, |legs| - 1);
      var last := legs[|legs| - 1];
      MaxDistanceBounds(last.joints, PoseAfter(legs, pose, |legs| - 1), last.profile.tolerance);
    }

    lemma {:induction false} PosesFit(legs: seq<MotionTarget>, pose: seq<real>, n: nat)
      requires n <= |legs| && forall i :: 0 <= i < |legs| ==> |legs[i].joints| == |pose|
      ensures |PoseAfter(legs, pose, n)| == |pose|
    {
      hide MaxDistance;
      if n > 0 {
        PosesFit(legs, pose, n - 1);
      }
    }

    ghost predicate CanGo(sqrt: real -> real, leg: MotionTarget, speedScale: real)
      requires Valid()
      reads this, port, clock
    {
      && leg.profile.Scaled(speedScale).Valid() && Calm()
      && Reachable(sqrt, port.Stands(), leg.joints, leg.profile.Scaled(speedScale))
    }

    lemma WalksOn(sqrt: real -> real, legs: seq<MotionTarget>, speedScale: real, pose: seq<real>, n: nat)
      requires 0.0 < speedScale <= 1.0 && (forall i :: 0 <= i < |legs| ==> legs[i].profile.Valid())
      requires Valid() && n < |legs| && Walkable(sqrt, legs, speedScale, pose) && Calm() && port.Stands() == PoseAfter(legs, pose, n)
      ensures CanGo(sqrt, legs[n], speedScale)
      ensures PoseAfter(legs, pose, n + 1) == Arrival(port.Stands(), legs[n].joints, legs[n].profile.tolerance)
    {
      hide Reachable, Arrival, FakeArm.Stands;
    }

    /** One leg of a walk, with what it kept to. */
    method WalkLeg(sqrt: real -> real, leg: MotionTarget, speedScale: real, dryRun: bool, assumed: Option<seq<real>>)
      returns (r: LegOutcome, ghost run: LegRun)
      requires Valid() && 0.0 < speedScale <= 1.0 && leg.profile.Valid() && |leg.joints| == |port.limits| > 0
      requires assumed.Some? ==> dryRun && |assumed.value| == |port.limits|
      modifies this, port, clock
      ensures Valid() && run.outcome == r && Kept(sqrt, leg, speedScale, dryRun, assumed, run)
      ensures IsSqrt(sqrt) && !dryRun ==> EndsNear(leg.joints, leg.profile.tolerance, run)
      ensures run.driven.Some? && old(port.Still()) ==> run.driven.value.start.positions == old(port.Measured())
      ensures r.Leg? && r.failure.None? && (run.driven.Some? || old(port.Still())) ==> port.Still() && port.Measured() == r.state.positions
      ensures port.sent == old(port.sent) + Commands(Ticks(run.driven))
      ensures r.Leg? ==> r.commands == |Ticks(run.driven)|
      ensures dryRun ==> run.driven.None? && r.Leg?
      ensures r.Leg? && r.failure.Some? ==> port.Still() && (estopOnFailure ==> port.lifecycle != Enabled)
      ensures !InLimits(leg.joints, port.limits, limitMargin) ==> r.Leg? && r.failure.Some?
      ensures !dryRun && old(CanGo(sqrt, leg, speedScale)) ==>
        && r.Leg? && r.failure.None? && Calm()
        && port.Stands() == old(Arrival(port.Stands(), leg.joints, leg.profile.tolerance))
    {
      hide Kept, Reachable, FakeArm.Stands, InLimits, Commands, Integrated, MaxDistance, Reports, Arrival, Plans, Tracked,
        EndsNear;
      ScaledIsValid(leg.profile, speedScale);
      ghost var driven;
      r, driven := MoveTo(sqrt, leg.joints, leg.profile.Scaled(speedScale), dryRun, assumed);
      run := LegRun(r, driven);
      LegIsKept(sqrt, leg, speedScale, dryRun, assumed, run);
      if IsSqrt(sqrt) && !dryRun {
        LegEndsNear(leg, speedScale, run);
      }
    }

    /** The next leg of a walk, added to those behind it. */
    method NextLeg(sqrt: real -> real, legs: seq<MotionTarget>, speedScale: real, dryRun: bool, assumed: Option<seq<real>>,
        n: nat, ghost runs: seq<LegRun>, ghost already: seq<seq<real>>)
      returns (r: LegOutcome, ghost more: seq<LegRun>)
      requires Valid() && 0.0 < speedScale <= 1.0 && |port.limits| > 0 && n == |runs| < |legs|
      requires forall i :: 0 <= i < |legs| ==> legs[i].profile.Valid() && |legs[i].joints| == |port.limits|
      requires port.sent == already + Sent(runs) && assumed == Assumed(legs, dryRun, |runs|)
      requires Went(sqrt, legs, speedScale, dryRun, runs) && Cleared(legs, runs, |runs|, port.limits, limitMargin)
      requires HasMoved(runs) ==> runs[|runs| - 1].outcome.Leg? && port.Still() && port.Measured() == runs[|runs| - 1].outcome.state.positions
      modifies this, port, clock
      ensures Valid() && |more| == n + 1 && more[n].outcome == r && more[..n] == runs
      ensures port.sent == already + Sent(more) && (r.Leg? ==> |Sent(more)| == |Sent(runs)| + r.commands)
      ensures Went(sqrt, legs, speedScale, dryRun, more)
      ensures Cleared(legs, more, if r.Leg? && r.failure.None? then n + 1 else n, port.limits, limitMargin)
      ensures r.Leg? && r.failure.None? && HasMoved(more) ==> port.Still() && port.Measured() == r.state.positions
      ensures dryRun ==> r.Leg? && port.sent == old(port.sent)
      ensures r.Leg? && r.failure.Some? ==> port.Still() && (estopOnFailure ==> port.lifecycle != Enabled)
      ensures !dryRun && old(CanGo(sqrt, legs[n], speedScale)) ==>
        && r.Leg? && r.failure.None? && Calm()
        && port.Stands() == old(Arrival(port.Stands(), legs[n].joints, legs[n].profile.tolerance))
    {
      hide Kept, PoseAfter, Walkable, FakeArm.Stands, InLimits, Sent, Commands, Arrival, CanGo, Calm, FakeArm.Valid, EndsNear,
        HasMoved, Went, FakeArm.Still, FakeArm.Measured, IsSqrt, Reachable, Cleared;
      ghost var run;
      r, run := WalkLeg(sqrt, legs[n], speedScale, dryRun, assumed);
      WentGrows(sqrt, legs, speedScale, dryRun, runs, run);
      ClearsOneMore(legs, runs, run, port.limits, limitMargin);
      more := SentGrows(runs, run);
      if dryRun {
        NothingCommanded();
      }
    }

    /** The legs in order, stopping at the first that fails; a dry run plans each leg from
        where the one before would have ended and moves nothing. */
    method Walk(sqrt: real -> real, legs: seq<MotionTarget>, speedScale: real, dryRun: bool)
      returns (reached: bool, commands: nat, failure: Option<FailureReason>, raised: bool, walked: nat, ghost runs: seq<LegRun>)
      requires Valid() && 0.0 < speedScale <= 1.0 && |port.limits| > 0
      requires forall i :: 0 <= i < |legs| ==> legs[i].profile.Valid() && |legs[i].joints| == |port.limits|
      modifies this, port, clock
      ensures Valid() && walked <= |legs|
      ensures !raised ==> |port.sent| == |old(port.sent)| + commands
      ensures |runs| == (if raised || failure.Some? then walked + 1 else walked) <= |legs|
      ensures port.sent == old(port.sent) + Sent(runs)
      ensures Went(sqrt, legs, speedScale, dryRun, runs)
      ensures Cleared(legs, runs, walked, port.limits, limitMargin)
      ensures failure.Some? ==> runs[walked].outcome.Leg? && runs[walked].outcome.failure == failure
      ensures dryRun ==> port.sent == old(port.sent) && !reached && !raised
      ensures reached ==> failure.None? && walked == |legs| && !raised
      ensures !raised && failure.None? ==> walked == |legs|
      ensures failure.Some? ==> walked < |legs| && port.Still() && (estopOnFailure ==> port.lifecycle != Enabled)
      ensures raised ==> port.Still() && !reached
      ensures reached ==> forall i :: 0 <= i < |legs| ==> InLimits(legs[i].joints, port.limits, limitMargin)
      // Liveness: a calm arm that can be walked along the legs ends up where they lead.
      ensures old(Calm() && Walkable(sqrt, legs, speedScale, port.Stands())) && !dryRun ==>
        reached && port.Stands() == old(PoseAfter(legs, port.Stands(), |legs|))
    {
      hide Kept, PoseAfter, Walkable, FakeArm.Stands, InLimits, Sent, Commands, Arrival, CanGo, Calm, FakeArm.Valid, EndsNear,
        HasMoved, Went, FakeArm.Still, FakeArm.Measured, IsSqrt, Reachable, Cleared, Measures, Bounded;
      commands, failure, raised, walked, runs := 0, None, false, 0, [];
      var assumed: Option<seq<real>> := None;
      ghost var from := port.Stands();
      ghost var ready := Calm() && Walkable(sqrt, legs, speedScale, from) && !dryRun;
      NothingWalked(sqrt, legs, speedScale, dryRun, from);
      while walked < |legs|
        invariant Valid() && walked == |runs| <= |legs| && !raised && failure.None?
        invariant |Sent(runs)| == commands && port.sent == old(port.sent) + Sent(runs)
        invariant Went(sqrt, legs, speedScale, dryRun, runs)
        invariant HasMoved(runs) ==> runs[walked - 1].outcome.Leg? && port.Still() && port.Measured() == runs[walked - 1].outcome.state.positions
        invariant Cleared(legs, runs, walked, port.limits, limitMargin)
        invariant dryRun ==> port.sent == old(port.sent)
        invariant assumed == Assumed(legs, dryRun, walked)
        invariant ready ==> Calm() && port.Stands() == PoseAfter(legs, from, walked)
      {
        var leg := legs[walked];
        var r;
        if ready { WalksOn(sqrt, legs, speedScale, from, walked); }
        r, runs := NextLeg(sqrt, legs, speedScale, dryRun, assumed, walked, runs, old(port.sent));
        if r.Raised? {
          SafeStop();
          reached, raised := false, true;
          return;
        }
        assumed := if dryRun then Some(leg.joints) else None;
        commands := commands + r.commands;
        if r.failure.Some? {
          reached, failure := false, r.failure;
          return;
        }
        walked := walked + 1;
      }
      reached := !dryRun;
      ClearedMeans(legs, runs, port.limits, limitMargin);
    }

    /** A dry run plans each leg from where the one before would have ended. */
    function Assumed(legs: seq<MotionTarget>, dryRun: bool, i: nat): Option<seq<real>>
      requires i <= |legs|
    {
      if dryRun && i > 0 then Some(legs[i - 1].joints) else None
    }

    /** Every leg so far kept its bounds, ended for its cause and near its target, and began where the one
        before left the arm. */
    ghost predicate Went(sqrt: real -> real, legs: seq<MotionTarget>, speedScale: real, dryRun: bool, runs: seq<LegRun>)
      requires 0.0 < speedScale <= 1.0 && forall i :: 0 <= i < |legs| ==> legs[i].profile.Valid()
    {
      && |runs| <= |legs| && Joined(runs)
      && (forall i :: 0 <= i < |runs| ==> Kept(sqrt, legs[i], speedScale, dryRun, Assumed(legs, dryRun, i), runs[i]))
      && (IsSqrt(sqrt) && !dryRun ==> forall i :: 0 <= i < |runs| ==> EndsNear(legs[i].joints, legs[i].profile.tolerance, runs[i]))
    }

    lemma WentGrows(sqrt: real -> real, legs: seq<MotionTarget>, speedScale: real, dryRun: bool, runs: seq<LegRun>, run: LegRun)
      requires 0.0 < speedScale <= 1.0 && forall i :: 0 <= i < |legs| ==> legs[i].profile.Valid()
      requires Went(sqrt, legs, speedScale, dryRun, runs) && |runs| < |legs| && Kept(sqrt, legs[|runs|], speedScale, dryRun, Assumed(legs, dryRun, |runs|), run)
      requires IsSqrt(sqrt) && !dryRun ==> EndsNear(legs[|runs|].joints, legs[|runs|].profile.tolerance, run)
      requires HasMoved(runs) && run.driven.Some? ==>
        runs[|runs| - 1].outcome.Leg? && run.driven.value.start.positions == runs[|runs| - 1].outcome.state.positions
      ensures Went(sqrt, legs, speedScale, dryRun, runs + [run]) && (HasMoved(runs + [run]) <==> HasMoved(runs) || run.driven.Some?)
    {
      hide Joined, Kept, EndsNear, HasMoved, IsSqrt;
      JoinedGrows(runs, run);
    }

    lemma NothingWalked(sqrt: real -> real, legs: seq<MotionTarget>, speedScale: real, dryRun: bool, pose: seq<real>)
      requires 0.0 < speedScale <= 1.0 && forall i :: 0 <= i < |legs| ==> legs[i].profile.Valid()
      ensures PoseAfter(legs, pose, 0) == pose && Sent([]) == [] && Went(sqrt, legs, speedScale, dryRun, []) && !HasMoved([]) && Cleared(legs, [], 0, port.limits, limitMargin)
    {
    }

    lemma LegEndsNear(leg: MotionTarget, speedScale: real, run: LegRun)
      requires leg.profile.Valid() && leg.profile.Scaled(speedScale).Valid() && Reports(leg.joints, leg.profile.Scaled(speedScale), run)
      requires run.driven.Some? ==> exists v, a :: Plans(run.driven.value.path, run.driven.value.start.positions, leg.joints, v, a)
      requires run.outcome.Leg? && run.outcome.failure.None? && run.driven.None? ==>
        |run.outcome.state.positions| == |leg.joints| && Within(leg.joints, run.outcome.state.positions, leg.profile.tolerance)
      ensures EndsNear(leg.joints, leg.profile.tolerance, run)
    {
      hide Report, Caused, EndsFor;
      if run.driven.Some? {
        SettledIsNear(Dog(leg.profile.Scaled(speedScale)), leg.joints, leg.profile.Scaled(speedScale), run.driven.value, run.outcome);
      }
    }

    lemma LegIsKept(sqrt: real -> real, leg: MotionTarget, speedScale: real, dryRun: bool, assumed: Option<seq<real>>, run: LegRun)
      requires leg.profile.Valid() && 0.0 < speedScale <= 1.0 && leg.profile.Scaled(speedScale).Valid()
      requires |leg.joints| == |port.limits|
      requires run.driven.Some? ==> assumed.None? && InLimits(leg.joints, port.limits, limitMargin)
      requires Reports(leg.joints, leg.profile.Scaled(speedScale), run)
      requires run.outcome.Leg? ==> Measures(sqrt, leg.joints, leg.profile.Scaled(speedScale), dryRun, assumed, run)
      requires run.driven.Some? && IsSqrt(sqrt) ==>
        var profile := leg.profile.Scaled(speedScale);
        Plans(run.driven.value.path, run.driven.value.start.positions, leg.joints, profile.maxVelocity, profile.maxAcceleration)
      ensures Kept(sqrt, leg, speedScale, dryRun, assumed, run)
    {
      hide Report, Plans, Bounded, EndsFor, Caused, JointMotionController.Measures;
      if run.driven.Some? {
        var profile := leg.profile.Scaled(speedScale);
        if IsSqrt(sqrt) && limitMargin >= 0.0 {
          LegIsBounded(Dog(profile), leg.joints, profile, run.driven.value, run.outcome, port.limits);
        }
      }
    }
  }
}
