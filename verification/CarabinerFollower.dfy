/** `CarabinerFollower`: camera, calibrated map and tracker, stepped one tick at a time. */
module Following {
  import opened Reals
  import opened Contracts
  import opened Time
  import opened FakeArmPort
  import opened VisualTracking
  import opened Strides
  import opened Plane
  import opened Runs
  import ConvexHull
  import PixelMap

  datatype FollowTick = FollowTick(
    index: nat, targetVisible: bool, followed: bool, reason: Reason, moved: bool, pixel: Option<Pt>,
    approachError: Option<real>, marginPx: Option<real>, misses: nat, settledTicks: nat)

  datatype FollowAnswer =
    | Followed(tick: FollowTick)
    | FollowStopped  // TrackerStopped
    | FollowBroken   // the map or the tracker refused the request itself

  type JointsAt = nat -> Option<real>

  /** The fitted map: where it is valid, and the joints it names for a pixel. */
  datatype Calibration = Calibration(sqrt: real -> real, hull: seq<Pt>, requiredPx: real, model: Pt -> JointsAt) {
    function Predict(pixel: Pt): PixelMap.Prediction<JointsAt> {
      PixelMap.Predict(sqrt, hull, requiredPx, model, pixel)
    }

    /** Unfitted joints hold where they are. */
    function FullTarget(joints: JointsAt, measured: seq<real>): (r: seq<real>)
      ensures |r| == |measured|
    {
      seq(|measured|, i requires 0 <= i < |measured| => if joints(i).Some? then joints(i).value else measured[i])
    }
  }

  /** What stays fixed while following. `look` answers with the detection in the n-th frame. */
  datatype Setup = Setup(
    calibration: Calibration, look: nat -> Option<Pt>, maxJumpPx: real, lostAfterMisses: nat,
    settleTolerance: real, settleTicks: nat)
  {
    predicate Jumped(a: Pt, b: Pt) {
      PixelMap.Norm(calibration.sqrt, Minus(b, a)) > maxJumpPx
    }
  }

  /** One finished step: which frame it looked at, when it began, what the tracker did. */
  datatype Seen = Seen(frame: nat, at: real, tick: TrackTick)

  predicate Missed(setup: Setup, e: Seen) {
    setup.look(e.frame).None?
  }

  predicate Close(setup: Setup, e: Seen) {
    Gap(e.tick).Some? && Gap(e.tick).value <= setup.settleTolerance
  }

  /** How far from its target the tick found the arm, at the joint furthest off. */
  function Gap(tick: TrackTick): Option<real> {
    if tick.target.Some? && tick.measured != [] && |tick.measured| == |tick.target.value|
    then Some(MaxDistance(tick.measured, tick.target.value)) else None
  }

  /** The arm stands as the map teaches for the pixel of this frame: every joint the map names was measured
      within the settle tolerance of the named value. */
  ghost predicate StandsAsTaught(setup: Setup, e: Seen) {
    && setup.look(e.frame).Some?
    && forall m :: 0 <= m < |e.tick.measured| ==> NearTaught(setup, setup.look(e.frame).value, e.tick.measured, m)
  }

  ghost predicate NearTaught(setup: Setup, pixel: Pt, measured: seq<real>, m: nat)
    requires m < |measured|
  {
    var taught := setup.calibration.model(pixel)(m);
    taught.Some? ==> Abs(measured[m] - taught.value) <= setup.settleTolerance
  }

  ghost predicate Nearer(a: seq<real>, b: seq<real>, goal: seq<real>) {
    |a| == |b| == |goal| && forall m :: 0 <= m < |a| ==> Abs(b[m] - goal[m]) <= Abs(a[m] - goal[m])
  }

  /** A command leaves the joints the map does not name alone: none is commanded further from where it was
      just measured than the command before had it. */
  ghost predicate Spares(setup: Setup, frame: nat, was: seq<real>, tick: TrackTick) {
    tick.command.Some? ==>
      && |tick.command.value| == |was| == |tick.measured| && setup.look(frame).Some?
      && forall m :: 0 <= m < |was| && setup.calibration.model(setup.look(frame).value)(m).None? ==>
           Abs(tick.command.value[m] - tick.measured[m]) <= Abs(was[m] - tick.measured[m])
  }

  lemma AimedIsTaught(setup: Setup, first: nat, frame: nat, target: seq<real>, measured: seq<real>)
    requires Aimed(setup, first, frame, target, measured)
    ensures setup.look(frame).Some? && |target| == |measured|
    ensures forall m :: 0 <= m < |measured| ==>
      var taught := setup.calibration.model(setup.look(frame).value)(m);
      target[m] == if taught.Some? then taught.value else measured[m]
  {
    hide PixelMap.MarginOf, Setup.Jumped;
  }

  lemma CloseStandsAsTaught(setup: Setup, first: nat, e: Seen)
    requires Earned(setup, first, e) && Close(setup, e) && setup.settleTolerance >= 0.0
    ensures StandsAsTaught(setup, e)
  {
    hide Aimed, MaxDistance;
    AimedIsTaught(setup, first, e.frame, e.tick.target.value, e.tick.measured);
    MaxDistanceBounds(e.tick.measured, e.tick.target.value, setup.settleTolerance);
  }

  lemma AllStandAsTaught(setup: Setup, first: nat, log: seq<Seen>, n: nat)
    requires AllEarned(setup, first, log) && setup.settleTolerance >= 0.0
    ensures LastAll(log, e => Close(setup, e), n) ==> LastAll(log, e => StandsAsTaught(setup, e), n)
  {
    hide Close, Earned, StandsAsTaught;
    if LastAll(log, e => Close(setup, e), n) {
      forall k | |log| - n <= k < |log| ensures StandsAsTaught(setup, log[k]) {
        CloseStandsAsTaught(setup, first, log[k]);
      }
    }
  }

  lemma SparesUnfitted(setup: Setup, first: nat, frame: nat, was: seq<real>, tick: TrackTick)
    requires tick.command.Some? ==> tick.target.Some? && Nearer(was, tick.command.value, tick.target.value)
    requires tick.target.Some? ==> Aimed(setup, first, frame, tick.target.value, tick.measured)
    ensures Spares(setup, frame, was, tick)
  {
    hide Aimed;
    if tick.command.Some? {
      AimedIsTaught(setup, first, frame, tick.target.value, tick.measured);
    }
  }

  // ---- what whole runs promise ------------------------------------------------------------------

  ghost predicate StepsPaced(log: seq<Seen>, period: real) {
    forall k :: 1 <= k < |log| ==> log[k].at >= log[k - 1].at + period
  }

  ghost predicate StepClamped(a: TrackTick, b: TrackTick, step: real) {
    a.command.Some? && b.command.Some? ==> |a.command.value| == |b.command.value| && Within(b.command.value, a.command.value, step)
  }

  ghost predicate StepsClamped(log: seq<Seen>, step: real) {
    forall k :: 1 <= k < |log| ==> StepClamped(log[k - 1].tick, log[k].tick, step)
  }

  /** A target is answered for by this frame alone: the carabiner was seen in it, had not
      jumped from where the frame before showed it, lay where the map may be believed, and
      the target is the map's own pose for it over the pose just measured. */
  ghost predicate Earned(setup: Setup, first: nat, e: Seen) {
    e.tick.target.Some? ==> Aimed(setup, first, e.frame, e.tick.target.value, e.tick.measured)
  }

  ghost predicate Aimed(setup: Setup, first: nat, frame: nat, target: seq<real>, measured: seq<real>) {
    && setup.look(frame).Some?
    && setup.calibration.Predict(setup.look(frame).value).Predicted?
    && target == setup.calibration.FullTarget(setup.calibration.Predict(setup.look(frame).value).joints, measured)
    && (frame > first + 1 && setup.look(frame - 1).Some? ==>
          !setup.Jumped(setup.look(frame - 1).value, setup.look(frame).value))
  }

  ghost predicate AllEarned(setup: Setup, first: nat, log: seq<Seen>) {
    forall k :: 0 <= k < |log| ==> Earned(setup, first, log[k])
  }

  lemma RunsExtend(setup: Setup, first: nat, log: seq<Seen>, e: Seen, period: real, step: real)
    requires StepsPaced(log, period) && StepsClamped(log, step) && AllEarned(setup, first, log)
    requires log != [] ==> e.at >= log[|log| - 1].at + period && StepClamped(log[|log| - 1].tick, e.tick, step)
    requires Earned(setup, first, e)
    ensures StepsPaced(log + [e], period) && StepsClamped(log + [e], step) && AllEarned(setup, first, log + [e])
  {
    hide StepClamped, Earned;
    var more := log + [e];
    assert forall k :: 0 <= k < |log| ==> more[k] == log[k];
  }

  /** What an answered tick says about the servo that gave it. */
  lemma TickSays(rules: Rules, s: Servo, e: Event, tick: TrackTick)
    requires rules.Valid() && e.Tick? && Reply(rules, s, e) == Ticked(tick)
    ensures tick.target.Some? ==> tick.target == e.target && tick.measured == e.state.positions
    ensures tick.command.Some? ==> tick.target.Some? && tick.command.value == Next(rules, s, e).command
    ensures tick.command.Some? ==> |tick.command.value| == |s.command| && Within(tick.command.value, s.command, rules.step)
    ensures tick.command.Some? ==> Nearer(s.command, tick.command.value, e.target.value)
    ensures tick.moved ==> tick.command.Some?
    ensures Live(s) && Next(rules, s, e).started
  {
    hide InLimits, MaxDistance, Stride;
    if tick.command.Some? {
      forall i | 0 <= i < |s.command| {
        StrideBounds(s.command[i], e.target.value[i], rules.step);
      }
    }
  }

  lemma RaisingKeepsCommand(rules: Rules, s: Servo, e: Event)
    requires e.Tick? && !Reply(rules, s, e).Ticked?
    ensures Next(rules, s, e).command == s.command && Next(rules, s, e).started == s.started
    ensures Reply(rules, s, e).TrackerStopped? ==> !Live(s)
  {
  }

  lemma {:induction false} StepsAddUp(log: seq<Seen>, step: real, period: real, i: nat, j: nat)
    requires StepsClamped(log, step) && StepsPaced(log, period) && i <= j < |log| && step > 0.0 && period > 0.0
    requires forall k :: i <= k <= j ==> log[k].tick.command.Some?
    ensures |log[j].tick.command.value| == |log[i].tick.command.value|
    ensures Within(log[j].tick.command.value, log[i].tick.command.value, Steps(j - i, step))
    ensures log[j].at - log[i].at >= Steps(j - i, period)
  {
    assert Steps(0, step) == 0.0;
    if i < j {
      StepsAddUp(log, step, period, i, j - 1);
      OneMore(j - i, step);
      OneMore(j - i, period);
      assert StepClamped(log[j - 1].tick, log[j].tick, step);
      var a, b, c := log[i].tick.command.value, log[j - 1].tick.command.value, log[j].tick.command.value;
      forall m | 0 <= m < |a| ensures Abs(c[m] - a[m]) <= Steps(j - i, step) {
        assert Abs(b[m] - a[m]) <= Steps(j - 1 - i, step);
      }
    }
  }

  /** The speed lock in real time: over any stretch of commanding steps, no joint's command
      moves faster than the maximum velocity, measured between the moments the steps began. */
  lemma FollowingIsSpeedLocked(log: seq<Seen>, velocity: real, period: real, step: real, i: nat, j: nat)
    requires velocity > 0.0 && period > 0.0 && step == velocity * period && step > 0.0
    requires StepsClamped(log, step) && StepsPaced(log, period) && i <= j < |log|
    requires forall k :: i <= k <= j ==> log[k].tick.command.Some?
    ensures |log[j].tick.command.value| == |log[i].tick.command.value|
    ensures Within(log[j].tick.command.value, log[i].tick.command.value, velocity * (log[j].at - log[i].at))
  {
    StepsAddUp(log, step, period, i, j);
    StepsInTime(j - i, period, velocity, step, log[j].at - log[i].at);
  }

  /** The arm is only ever servoed over taught ground: the pixel behind every target is a
      convex combination of the pixels the map was taught on. */
  lemma CommandsStayOnTaughtGround(setup: Setup, first: nat, e: Seen, pixels: seq<Pt>)
    requires Earned(setup, first, e) && e.tick.target.Some? && IsSqrt(setup.calibration.sqrt)
    requires setup.calibration.hull == ConvexHull.HullOf(pixels) && setup.calibration.requiredPx >= 0.0
    requires PixelMap.NoSkippedEdge(setup.calibration.sqrt, setup.calibration.hull)
    ensures setup.look(e.frame).Some? && PixelMap.Taught(pixels, setup.look(e.frame).value)
  {
    hide PixelMap.Taught, PixelMap.NoSkippedEdge, PixelMap.Predict, ConvexHull.HullOf, Setup.Jumped, Calibration.FullTarget;
    PixelMap.AnsweredIsTaught(setup.calibration.sqrt, pixels, setup.calibration.requiredPx, setup.calibration.model,
      setup.look(e.frame).value);
  }

  // ---- following a carabiner that stays where it is ------------------------------------------------

  /** `ticks` into following a carabiner at `pixel`, from a fresh lock at the pose `from`, when at most
      `steps` whole steps and the settle tolerance were to go. */
  datatype Home = Home(pixel: Pt, from: seq<real>, steps: nat, ticks: nat)

  lemma GoalIsSteady(c: Calibration, joints: JointsAt, from: seq<real>, step: real)
    requires step >= 0.0
    ensures var goal := c.FullTarget(joints, from);
      c.FullTarget(joints, StrideAll(from, goal, step)) == goal
  {
    var goal := c.FullTarget(joints, from);
    forall i | 0 <= i < |from| && joints(i).None? ensures StrideAll(from, goal, step)[i] == from[i] {
      assert goal[i] == from[i];
    }
  }

  lemma StrideStaysInLimits(limits: seq<JointLimit>, from: seq<real>, goal: seq<real>, step: real)
    requires |from| == |goal| == |limits| && step >= 0.0 && InLimits(from, limits, 0.0) && InLimits(goal, limits, 0.0)
    ensures InLimits(StrideAll(from, goal, step), limits, 0.0)
  {
    forall i | 0 <= i < |limits| ensures limits[i].Contains(StrideAll(from, goal, step)[i], 0.0) {
      StrideBounds(from[i], goal[i], step);
      assert limits[i].Contains(from[i], 0.0) && limits[i].Contains(goal[i], 0.0);
    }
  }

  lemma SameDistance(a: seq<real>, b: seq<real>, tolerance: real)
    requires |a| == |b| && tolerance >= 0.0
    ensures MaxDistance(a, b) <= tolerance <==> Within(a, b, tolerance)
  {
    MaxDistanceBounds(a, b, tolerance);
  }

  // ---- the follower itself ----------------------------------------------------------------------

  class CarabinerFollower {
    const setup: Setup
    const tracker: VisualTracker
    const clock: Clock

    var index: nat
    var misses: nat
    var settled: nat
    var previous: Option<Pt>
    var startedAt: Option<real>
    ghost var first: nat       // the frame count when last started
    ghost var log: seq<Seen>   // the finished steps since then

    ghost predicate Valid()
      reads this, tracker, tracker.port, tracker.port.clock
    {
      && tracker.Valid() && tracker.rateHz > 0.0 && tracker.TheRules().Valid() && clock == tracker.port.clock
      && setup.lostAfterMisses >= 1 && setup.settleTicks >= 1 && setup.settleTolerance > 0.0
      && Trailing(log, e => Missed(setup, e), misses)
      && Trailing(log, e => Close(setup, e), settled)
      && Behind()
      && StepsPaced(log, tracker.Period()) && StepsClamped(log, tracker.TheRules().step)
      && AllEarned(setup, first, log)
    }

    /** How the fields trail the log: the last frame looked at, when, and the live command. */
    ghost predicate Behind()
      reads this, tracker, clock
    {
      && first <= index && previous == (if index > first then setup.look(index) else None)
      && (startedAt.Some? ==> startedAt.value <= clock.now)
      && (log != [] ==> startedAt.Some? && startedAt.value >= log[|log| - 1].at)
      && (log != [] && log[|log| - 1].tick.command.Some? ==> tracker.started && log[|log| - 1].tick.command.value == tracker.command)
    }

    /** Between looking and noting: the log as it stood, when the live command was `command`. */
    ghost predicate Between(command: seq<real>)
      requires tracker.rateHz > 0.0
      reads this, tracker, tracker.port, tracker.port.clock
    {
      && tracker.Valid() && tracker.TheRules().Valid() && clock == tracker.port.clock
      && setup.lostAfterMisses >= 1 && setup.settleTicks >= 1 && setup.settleTolerance > 0.0
      && Trailing(log, e => Missed(setup, e), misses) && Trailing(log, e => Close(setup, e), settled)
      && StepsPaced(log, tracker.Period()) && StepsClamped(log, tracker.TheRules().step) && AllEarned(setup, first, log)
      && first < index && previous == setup.look(index) && startedAt.Some? && startedAt.value <= clock.now
      && (log != [] ==> startedAt.value >= log[|log| - 1].at + tracker.Period())
      && (log != [] && log[|log| - 1].tick.command.Some? ==> tracker.started && log[|log| - 1].tick.command.value == command)
    }

    lemma ValidSays()
      requires Valid()
      ensures tracker.Valid() && tracker.rateHz > 0.0 && tracker.TheRules().Valid() && clock == tracker.port.clock
      ensures setup.lostAfterMisses >= 1 && setup.settleTicks >= 1 && setup.settleTolerance > 0.0
    {
    }

    lemma NothingNoted()
      requires tracker.rateHz > 0.0 && Between(tracker.command)
      ensures Valid()
    {
    }

    constructor (setup: Setup, tracker: VisualTracker)
      requires tracker.Valid()
      requires setup.lostAfterMisses >= 1 && setup.settleTicks >= 1 && setup.settleTolerance > 0.0
      ensures Valid() && log == [] && this.setup == setup && this.tracker == tracker
    {
      this.setup, this.tracker, this.clock := setup, tracker, tracker.port.clock;
      index, misses, settled, previous, startedAt := 0, 0, 0, None, None;
      first, log := 0, [];
    }

    /** False where the tracker raises. The tracker's lock count and stop reason survive. */
    method Start() returns (ok: bool)
      requires Valid()
      modifies this, tracker, tracker.port
      ensures Valid() && log == [] && index == old(index) && previous.None? && startedAt.None? && misses == settled == 0
      ensures tracker.locked == old(tracker.locked) && tracker.stoppedReason == old(tracker.stoppedReason)
      ensures ok ==> tracker.started
      ensures ok <==> old(Startable(tracker.port, tracker.dryRun))
      ensures tracker.port.sent == old(tracker.port.sent)
      ensures ok && tracker.stoppedReason.None? && old(tracker.Nominal()) ==>
        tracker.Eager() && tracker.command == tracker.port.positions == tracker.port.targets
      ensures old(tracker.Nominal()) ==>
        && tracker.port.positions == old(tracker.port.positions)
        && (InLimits(old(tracker.port.positions), tracker.port.limits, 0.0) ==> ok)
    {
      misses, settled, previous, startedAt := 0, 0, None, None;
      first, log := index, [];
      ok := tracker.Start();
    }

    method Stop(hold: bool)
      requires Valid()
      modifies tracker, tracker.port
      ensures Valid() && tracker.locked == 0 && tracker.port.sent == old(tracker.port.sent)
      ensures hold ==> tracker.port.Still()
    {
      tracker.Halt(hold);
    }

    /** Sleeps until a period has gone by since the last step started; late steps go on at once. */
    method Pace()
      requires clock == tracker.port.clock && tracker.Valid()
      modifies this`startedAt, clock
      ensures tracker.Valid()
      ensures startedAt == Some(clock.now) && clock.now >= old(clock.now)
      ensures old(startedAt).Some? ==> clock.now >= old(startedAt).value + tracker.Period()
    {
      if startedAt.Some? {
        var now := clock.Monotonic();
        clock.Sleep(tracker.Period() - (now - startedAt.value));
      }
      var t := clock.Monotonic();
      startedAt := Some(t);
    }

    /** From here on every frame shows the carabiner at this pixel, where the map may be believed. */
    ghost predicate Sights(pixel: Pt)
      reads this`index, this`first, this`previous
    {
      && (forall frame :: index < frame ==> setup.look(frame) == Some(pixel))
      && (previous.Some? ==> !setup.Jumped(previous.value, pixel)) && !setup.Jumped(pixel, pixel)
      && setup.calibration.Predict(pixel).Predicted?
    }

    /** The pose the map names for the pixel; the joints it does not know stay where they began. */
    ghost function Goal(pixel: Pt, from: seq<real>): (r: seq<real>)
      requires setup.calibration.Predict(pixel).Predicted?
      ensures |r| == |from|
    {
      setup.calibration.FullTarget(setup.calibration.Predict(pixel).joints, from)
    }

    /** How many ticks it takes to be within the settle tolerance, when `steps` whole steps cover the rest. */
    function TicksToArrive(steps: nat): nat {
      if tracker.lockFrames == 0 then steps else tracker.lockFrames - 1 + steps
    }

    /** The arm is fast enough, and stands still or is on its way to the command since the last step. */
    ghost predicate KeepsUp()
      requires tracker.Valid()
      reads this, tracker, tracker.port, tracker.port.clock
    {
      var port := tracker.port;
      && |tracker.command| == |port.limits| && port.targets == tracker.command && port.maxVelocity >= tracker.maxVelocity
      && (port.positions == tracker.command
          || (startedAt.Some? && port.lastIntegration <= startedAt.value
              && Within(tracker.command, port.positions, tracker.TheRules().step)))
    }

    ghost predicate Homing(home: Home)
      requires tracker.Valid()
      reads this, tracker, tracker.port, tracker.port.clock
    {
      && tracker.Eager() && Sights(home.pixel) && KeepsUp() && tracker.locked == home.ticks
      && Bound(home) && tracker.command == OnTheWay(home)
      && (home.ticks >= TicksToArrive(home.steps) ==> settled >= home.ticks - TicksToArrive(home.steps))
    }

    /** Where it is going is in limits and as far away as `home` says. */
    ghost predicate Bound(home: Home)
      requires tracker.rateHz > 0.0 && setup.calibration.Predict(home.pixel).Predicted?
    {
      var limits, goal := tracker.port.limits, Goal(home.pixel, home.from);
      && |home.from| == |limits| > 0 && InLimits(home.from, limits, 0.0) && InLimits(goal, limits, 0.0)
      && Within(goal, home.from, Steps(home.steps, tracker.TheRules().step) + setup.settleTolerance)
    }

    /** The command after the ticks so far. */
    ghost function OnTheWay(home: Home): (r: seq<real>)
      requires tracker.rateHz > 0.0 && setup.calibration.Predict(home.pixel).Predicted?
      ensures |r| == |home.from|
    {
      var rules := tracker.TheRules();
      StrideAll(home.from, Goal(home.pixel, home.from), Steps(Moving(rules, 0, home.ticks), rules.step))
    }

    /** A follower that was started on such an arm, standing still and not yet locked on, is homing. */
    lemma BeginsHoming(pixel: Pt, steps: nat)
      requires Valid() && tracker.Eager() && tracker.locked == 0 && Sights(pixel)
      requires var port := tracker.port;
        tracker.command == port.positions == port.targets && port.maxVelocity >= tracker.maxVelocity
        && Bound(Home(pixel, port.positions, steps, 0))
      ensures Homing(Home(pixel, tracker.port.positions, steps, 0))
    {
      hide InLimits, Within, Trailing, StepsPaced, StepsClamped, AllEarned, CarabinerFollower.Behind, Setup.Jumped,
        StrideAll, Steps, PixelMap.Predict, Calibration.FullTarget, VisualTracker.Model;
      var from, rules := tracker.port.positions, tracker.TheRules();
      assert Moving(rules, 0, 0) == 0;
      NoSteps(0, rules.step);
      StandsStill(from, Goal(pixel, from), Steps(0, rules.step));
      assert OnTheWay(Home(pixel, from, steps, 0)) == from;
      assert KeepsUp();
    }

    lemma Further(a: seq<real>, b: seq<real>, least: real, most: real)
      requires |a| == |b| && Within(a, b, least) && least <= most
      ensures Within(a, b, most)
    {
    }

    /** Read at `now`, the arm stands on its command. */
    ghost predicate CaughtUpBy(now: real)
      reads tracker, tracker.port
    {
      var port := tracker.port;
      && |port.positions| == |port.targets|
      && Integrated(port.positions, port.targets, Reach(port.maxVelocity, now - port.lastIntegration)) == tracker.command
    }

    /** The next step may begin at `now`. */
    ghost predicate Due(now: real)
      requires tracker.rateHz > 0.0
      reads this`startedAt, tracker.port`lastIntegration
    {
      now >= tracker.port.lastIntegration && (startedAt.Some? ==> now >= startedAt.value + tracker.Period())
    }

    /** By the next step, whenever that is, the arm has caught up with its command. */
    lemma CatchesUp()
      requires tracker.Valid() && KeepsUp()
      ensures forall now :: Due(now) ==> CaughtUpBy(now)
      ensures tracker.port.lastIntegration <= tracker.port.clock.now
    {
      hide CarabinerFollower.KeepsUp, CarabinerFollower.CaughtUpBy;
      forall now | Due(now) ensures CaughtUpBy(now) {
        CatchesUpBy(now);
      }
    }

    lemma CatchesUpBy(now: real)
      requires tracker.Valid() && KeepsUp() && Due(now)
      ensures CaughtUpBy(now)
    {
      hide InLimits, VisualTracker.Model;
      var port := tracker.port;
      var elapsed, period := now - port.lastIntegration, tracker.Period();
      if port.positions == tracker.command {
        NoMotion(port.positions, port.targets, Reach(port.maxVelocity, elapsed));
      } else {
        MulMonotone(tracker.maxVelocity, port.maxVelocity, period);
        MulMonotone(period, elapsed, port.maxVelocity);
        Further(port.targets, port.positions, tracker.TheRules().step, Reach(port.maxVelocity, elapsed));
        WithinReachArrives(port.positions, port.targets, Reach(port.maxVelocity, elapsed));
      }
    }

    /** The map names the same goal from anywhere on the way: the joints it does not know have not moved. */
    lemma GoalHolds(home: Home)
      requires tracker.Valid() && tracker.TheRules().Valid() && Sights(home.pixel) && Bound(home)
      requires tracker.port.positions == OnTheWay(home) && tracker.port.trackingOffset == 0.0
      ensures setup.calibration.FullTarget(setup.calibration.Predict(home.pixel).joints, tracker.port.Measured())
        == Goal(home.pixel, home.from)
    {
      hide InLimits, Within, StrideAll, Steps, PixelMap.Predict, Calibration.FullTarget, VisualTracker.Model, Setup.Jumped;
      var rules := tracker.TheRules();
      MoreSteps(0, Moving(rules, 0, home.ticks), rules.step);
      NoSteps(0, rules.step);
      GoalIsSteady(setup.calibration, setup.calibration.Predict(home.pixel).joints, home.from,
        Steps(Moving(rules, 0, home.ticks), rules.step));
      assert tracker.port.Measured() == tracker.port.positions;
    }

    lemma Arrived(home: Home)
      requires tracker.Valid() && Homing(home)
      ensures home.ticks >= TicksToArrive(home.steps) + setup.settleTicks ==> settled >= setup.settleTicks
    {
    }

    /** What the way home looks like to a tick: the servo before it and the settle count so far. */
    ghost predicate Poised(home: Home, was: Servo, counted: nat)
      requires tracker.rateHz > 0.0
      reads this`index, this`first, this`previous
    {
      && Sights(home.pixel) && Bound(home) && was.locked == home.ticks && was.command == OnTheWay(home)
      && (home.ticks >= TicksToArrive(home.steps) ==> counted >= home.ticks - TicksToArrive(home.steps))
    }

    /** The arm was just read to stand on its command, with nowhere further to go. */
    ghost predicate OnCommand()
      reads this, tracker, tracker.port
    {
      var port := tracker.port;
      && port.positions == port.targets == tracker.command && port.maxVelocity >= tracker.maxVelocity
      && startedAt == Some(port.lastIntegration)
    }

    /** One more tick on the way home, from what the tracker and the counters did with it. */
    lemma HomesOn(home: Home, was: Servo, before: nat, e: Seen)
      requires tracker.Valid() && setup.settleTolerance > 0.0 && tracker.TheRules().Valid()
      requires Poised(home, was, before) && tracker.Took(Goal(home.pixel, home.from), was, was.command, was.command, Ticked(e.tick))
      requires tracker.port.maxVelocity >= tracker.maxVelocity && startedAt == Some(tracker.port.lastIntegration)
      requires settled == if Close(setup, e) then before + 1 else 0
      ensures Homing(home.(ticks := home.ticks + 1))
    {
      hide InLimits, Within, MaxDistance, Clamped, StrideAll, Stride, Steps, PixelMap.Predict, Calibration.FullTarget, VisualTracker.Model,
        Setup.Jumped;
      var rules, goal := tracker.TheRules(), Goal(home.pixel, home.from);
      var moved, next := Moving(rules, 0, home.ticks), home.(ticks := home.ticks + 1);
      MoreSteps(0, moved, rules.step);
      NoSteps(0, rules.step);
      OneMore(moved + 1, rules.step);
      if tracker.locked >= tracker.lockFrames {
        AllStridesAdd(home.from, goal, Steps(moved, rules.step), rules.step, Steps(moved + 1, rules.step));
      }
      StrideStaysInLimits(tracker.port.limits, home.from, goal, Steps(Moving(rules, 0, home.ticks + 1), rules.step));
      InLimitsIsUnclamped(tracker.command, tracker.port.limits);
      StrideNear(was.command, goal, rules.step);
      Stays(was.command, was.command, rules.step);
      if home.ticks >= TicksToArrive(home.steps) {
        MoreSteps(home.steps, moved, rules.step);
        MoreSteps(0, home.steps, rules.step);
        ComesWithin(home.from, goal, Steps(moved, rules.step), Steps(home.steps, rules.step), setup.settleTolerance);
        SameDistance(was.command, goal, setup.settleTolerance);
      }
    }

    /** The target this frame earns, or which gate turned it away. */
    method TargetFromFrame() returns (target: Option<seq<real>>, margin: Option<real>, reason: Reason, broken: bool)
      requires tracker.Valid()
      modifies this`previous, tracker.port`positions, tracker.port`sequence, tracker.port`lastIntegration
      ensures tracker.Valid() && previous == setup.look(index)
      ensures broken <==> Breaks(old(previous), index)
      ensures target.Some? ==> !broken && previous.Some? && |target.value| == |tracker.port.limits|
      ensures target.Some? ==> setup.calibration.Predict(previous.value).Predicted?
      ensures target.Some? ==> tracker.port.lastIntegration == tracker.port.clock.now
      ensures target.Some? ==> tracker.port.positions == old(tracker.port.Stands())
      ensures target.Some? ==>
        target.value == setup.calibration.FullTarget(setup.calibration.Predict(previous.value).joints, tracker.port.Measured())
      // Turned away for a jump exactly if the carabiner went further than that since the frame before.
      ensures reason == Jumped <==>
        previous.Some? && old(previous).Some?
        && PixelMap.Norm(setup.calibration.sqrt, Minus(previous.value, old(previous).value)) > setup.maxJumpPx
      ensures reason == Jumped ==> target.None? && !broken
      ensures target.Some? && old(previous).Some? ==> !setup.Jumped(old(previous).value, previous.value)
      ensures target.Some? ==> margin == Some(setup.calibration.Predict(previous.value).marginPx) && reason == Tracking
      ensures previous.None? ==> target.None? && reason == NoDetection && !broken
      ensures previous.Some? && !(old(previous).Some? && setup.Jumped(old(previous).value, previous.value)) ==>
        (target.Some? <==> setup.calibration.Predict(previous.value).Predicted?)
        && (broken <==> setup.calibration.Predict(previous.value).Unusable?)
      ensures previous.Some? && target.None? && !broken ==>
        || reason == Jumped
        || (reason == OutsideRegion && setup.calibration.Predict(previous.value).OutsideCalibratedRegion?)
    {
      target, margin, broken := None, None, false;
      var detection := setup.look(index);
      var before := previous;
      previous := detection;
      if detection.None? {
        reason := NoDetection;
        return;
      }
      if before.Some? && setup.Jumped(before.value, detection.value) {
        reason := Jumped;
        return;
      }
      match setup.calibration.Predict(detection.value)
      case Unusable => broken, reason := true, OutsideRegion;
      case OutsideCalibratedRegion => reason := OutsideRegion;
      case Predicted(joints, marginPx) =>
        margin := Some(marginPx);
        var state := tracker.port.ReadState();
        if state.finite {
          target, reason := Some(setup.calibration.FullTarget(joints, state.positions)), Tracking;
        } else {
          reason := NoFeedback;
        }
    }

    /** Wait for the tick; on the way home the arm has then caught up with its command. */
    method Await(ghost home: Option<Home>)
      requires tracker.Valid() && clock == tracker.port.clock && (startedAt.Some? ==> startedAt.value <= clock.now)
      modifies this`startedAt, clock
      ensures tracker.Valid() && startedAt == Some(clock.now) && clock.now >= old(clock.now)
      ensures old(startedAt).Some? ==> clock.now >= old(startedAt).value + tracker.Period()
      ensures home.Some? && old(Homing(home.value)) ==> tracker.port.Stands() == tracker.command
    {
      hide StrideAll, Steps, CarabinerFollower.OnTheWay, CarabinerFollower.Bound, CarabinerFollower.Sights, CarabinerFollower.CaughtUpBy,
        VisualTracker.Valid, Integrated;
      ghost var homing := home.Some? && Homing(home.value);
      if homing {
        CatchesUp();
      }
      label Before:
      Pace();
      if homing {
        ghost var now := clock.now;
        assert old@Before(Due(now)) && CaughtUpBy(now);
        StandsOnCommand();
      }
    }

    lemma StandsOnCommand()
      requires tracker.Valid() && tracker.Eager() && CaughtUpBy(tracker.port.clock.now)
      ensures tracker.port.Stands() == tracker.command
    {
    }

    /** Wait for the tick, then look: a target that this frame has earned over the pose measured now. */
    method Aim(ghost home: Option<Home>)
      returns (target: Option<seq<real>>, margin: Option<real>, reason: Reason, broken: bool)
      requires Valid()
      modifies this`startedAt, this`index, this`previous, clock,
        tracker.port`positions, tracker.port`sequence, tracker.port`lastIntegration
      ensures Valid() && tracker.Valid() && Between(tracker.command) && index == old(index) + 1 && clock.now >= old(clock.now)
      ensures startedAt.Some? && previous == setup.look(index)
      ensures log != [] ==> startedAt.value >= log[|log| - 1].at + tracker.Period()
      ensures broken <==> Breaks(old(previous), index)
      ensures target.Some? ==> !broken && previous.Some? && tracker.port.lastIntegration == clock.now
      ensures target.Some? ==> |target.value| == |tracker.port.limits| == |tracker.port.positions|
      ensures target.Some? ==> Aimed(setup, first, index, target.value, tracker.port.Measured())
      ensures home.Some? && old(Homing(home.value)) ==>
        && !broken && Poised(home.value, tracker.Model(), settled) && target == Some(Goal(home.value.pixel, home.value.from))
        && OnCommand() && tracker.Eager() && tracker.Usable(target) && |tracker.command| == |tracker.port.limits| > 0
    {
      hide MaxDistance, After, Next, Reply, InLimits, StepsPaced, StepsClamped, AllEarned, Trailing, Within;
      hide PixelMap.Predict, Calibration.FullTarget, VisualTracker.Valid, FakeArm.Measured, Setup.Jumped;
      hide StrideAll, Steps, Integrated, FakeArm.Stands, CarabinerFollower.OnTheWay;
      ghost var homing := home.Some? && Homing(home.value);
      Await(home);
      index := index + 1;
      target, margin, reason, broken := TargetFromFrame();
      if homing {
        GoalHolds(home.value);
      }
    }

    /** What a finished step reports of itself and of the steps before it. Visible until the last
        `lostAfterMisses` frames all missed; followed once on each of the last `settleTicks` the measured pose
        was within tolerance of that tick's own target, and so stood as the map teaches. */
    ghost predicate Reports(tick: FollowTick)
      reads this
    {
      && log != [] && tick.index == index && tick.pixel == setup.look(index)
      && tick.moved == log[|log| - 1].tick.moved && tick.reason == log[|log| - 1].tick.reason
      && tick.misses == misses && tick.settledTicks == settled && (tick.misses > 0 <==> setup.look(index).None?)
      && (settled > 0 <==> tick.approachError.Some? && tick.approachError.value <= setup.settleTolerance)
      && tick.approachError == Gap(log[|log| - 1].tick)
      && tick.targetVisible == !LastAll(log, e => Missed(setup, e), setup.lostAfterMisses)
      && tick.followed == LastAll(log, e => Close(setup, e), setup.settleTicks)
      && (tick.followed ==> tick.targetVisible && tick.pixel.Some? && LastAll(log, e => StandsAsTaught(setup, e), setup.settleTicks))
    }

    /** The frame shows a carabiner no further than it may be from where the last one had it, and the map
        has no answer at all for that pixel. */
    ghost predicate Breaks(before: Option<Pt>, frame: nat)
    {
      && setup.look(frame).Some? && setup.calibration.Predict(setup.look(frame).value).Unusable?
      && (before.Some? ==> PixelMap.Norm(setup.calibration.sqrt, Minus(setup.look(frame).value, before.value)) <= setup.maxJumpPx)
    }

    /** Paces itself, looks at one image and lets the tracker react to what it saw. */
    method Step(ghost home: Option<Home>) returns (answer: FollowAnswer)
      requires Valid()
      modifies this, tracker, tracker.port, clock
      ensures Valid() && index == old(index) + 1 && clock.now >= old(clock.now)
      ensures answer.Followed? <==> log != old(log)
      ensures answer.Followed? ==> |log| == |old(log)| + 1 && log[..|old(log)|] == old(log) && log[|old(log)|].frame == index
      ensures answer.Followed? ==> Reports(answer.tick)
      // The step recorded is the tracker's own tick, and what went out is what it sent.
      ensures answer.Followed? ==>
        && |tracker.history| == |old(tracker.history)| + 1 && tracker.history[|old(tracker.history)|].Tick?
        && Reply(tracker.TheRules(), old(tracker.Model()), tracker.history[|old(tracker.history)|]) == Ticked(log[|old(log)|].tick)
      ensures tracker.port.sent == if answer.Followed? && answer.tick.moved
        then old(tracker.port.sent) + [log[|old(log)|].tick.command.value] else old(tracker.port.sent)
      // No command touches the joints the map does not name.
      ensures answer.Followed? ==> Spares(setup, index, old(tracker.command), log[|old(log)|].tick)
      // It raises exactly if the map cannot answer for a carabiner that did not jump, or else if the tracker
      // is not running.
      ensures answer.FollowBroken? <==> Breaks(old(previous), index)
      ensures answer.FollowStopped? <==> !answer.FollowBroken? && !Live(old(tracker.Model()))
      // Liveness: on the way home every step is one more, and it arrives once it has settled there.
      ensures home.Some? && old(Homing(home.value)) ==>
        && answer.Followed? && Homing(home.value.(ticks := home.value.ticks + 1))
        && (home.value.ticks + 1 >= TicksToArrive(home.value.steps) + setup.settleTicks ==> answer.tick.followed)
    {
      hide MaxDistance, After, Next, Reply, InLimits, Trailing, LastAll, Within, FakeArm.Measured, FakeArm.Still, Good, Healthy,
        Stride, Aimed, StrideAll, Close, Missed, VisualTracker.Valid, VisualTracker.Took, VisualTracker.Usable, VisualTracker.Eager,
        CarabinerFollower.Homing, CarabinerFollower.Poised, CarabinerFollower.TicksToArrive, CarabinerFollower.Valid,
        CarabinerFollower.Between, CarabinerFollower.Sights, CarabinerFollower.Reports, StandsAsTaught, Spares, Nearer;
      ValidSays();
      ghost var was, rules := tracker.Model(), tracker.TheRules();
      ghost var homing, counted := home.Some? && Homing(home.value), settled;
      var target, margin, reason, broken := Aim(home);
      if broken {
        return FollowBroken;
      }
      var reply := Serve(target, reason);
      if homing {
        tracker.TookNow(target.value, was, was.command, was.command, reply);
      }
      if !reply.Ticked? {
        return if reply.TrackerStopped? then FollowStopped else FollowBroken;
      }
      answer := Note(reply.tick, margin, was.command);
      if homing {
        HomesOn(home.value, was, counted, log[|log| - 1]);
        Arrived(home.value.(ticks := home.value.ticks + 1));
      }
    }

    /** The tracker's tick, between looking and noting. */
    method Serve(target: Option<seq<real>>, reason: Reason) returns (reply: Answer)
      requires tracker.rateHz > 0.0 && tracker.Valid() && tracker.TheRules().Valid() && Between(tracker.command)
      modifies tracker, tracker.port
      ensures tracker.Valid() && Between(old(tracker.command))
      ensures |tracker.history| == |old(tracker.history)| + 1 && tracker.history[|old(tracker.history)|].Tick?
      ensures reply == Reply(tracker.TheRules(), old(tracker.Model()), tracker.history[|old(tracker.history)|])
      ensures tracker.port.sent == if reply.Ticked? && reply.tick.moved
        then old(tracker.port.sent) + [reply.tick.command.value] else old(tracker.port.sent)
      ensures reply.TrackerStopped? <==> !Live(old(tracker.Model()))
      ensures target.Some? ==> |target.value| == |tracker.port.limits| ==> !reply.WrongLength?
      ensures target.None? ==> !reply.WrongLength?
      ensures !reply.Ticked? ==> Valid()
      ensures reply.Ticked? ==>
        && tracker.started && (reply.tick.moved ==> reply.tick.command.Some?)
        && (reply.tick.target.Some? ==> reply.tick.target == target)
        && (reply.tick.target.Some? && old(tracker.port.lastIntegration) == tracker.port.clock.now ==>
              reply.tick.measured == old(tracker.port.Measured()))
        && (reply.tick.command.Some? ==>
              && reply.tick.target.Some? && Nearer(old(tracker.command), reply.tick.command.value, reply.tick.target.value)
              && |reply.tick.command.value| == |old(tracker.command)| && reply.tick.command.value == tracker.command
              && Within(reply.tick.command.value, old(tracker.command), tracker.TheRules().step))
      ensures old(tracker.Eager() && tracker.port.lastIntegration == tracker.port.clock.now) && tracker.Usable(target) ==>
        |old(tracker.command)| == |tracker.port.limits| ==>
        tracker.Took(target.value, old(tracker.Model()), old(tracker.port.targets), old(tracker.port.positions), reply)
    {
      hide MaxDistance, After, Next, Reply, InLimits, Within, FakeArm.Measured, FakeArm.Still, Good, Healthy, Stride, StrideAll,
        VisualTracker.Valid, VisualTracker.Took, VisualTracker.Usable, VisualTracker.Eager, CarabinerFollower.Between, CarabinerFollower.Valid,
        Nearer;
      ghost var was, rules := tracker.Model(), tracker.TheRules();
      label Looked:
      reply := tracker.Tick(target, reason);
      ghost var event := tracker.history[|tracker.history| - 1];
      StillBetween@Looked(was.command);
      RaisesExactly(rules, was, event);
      if reply.Ticked? {
        TickSays(rules, was, event, reply.tick);
      } else {
        RaisingKeepsCommand(rules, was, event);
        NothingNoted();
      }
    }

    /** The tracker's tick leaves the follower's own books alone. */
    twostate lemma StillBetween(command: seq<real>)
      requires tracker.rateHz > 0.0 && old(Between(command)) && tracker.Valid() && (old(tracker.started) ==> tracker.started)
      requires unchanged(this) && tracker.port.clock.now == old(tracker.port.clock.now)
      ensures Between(command)
    {
    }

    /** Count what the tick showed, log it, and report it. */
    method Note(tick: TrackTick, margin: Option<real>, ghost was: seq<real>) returns (answer: FollowAnswer)
      requires tracker.rateHz > 0.0 && Between(was) && tracker.started
      requires tick.target.Some? ==> |tick.measured| == |tick.target.value| && previous.Some?
      requires tick.target.Some? ==> Aimed(setup, first, index, tick.target.value, tick.measured)
      requires tick.command.Some? ==> |tick.command.value| == |was| && Within(tick.command.value, was, tracker.TheRules().step)
      requires tick.command.Some? ==> tick.command.value == tracker.command
      requires tick.command.Some? ==> tick.target.Some? && Nearer(was, tick.command.value, tick.target.value)
      modifies this`misses, this`settled, this`log
      ensures Valid() && log == old(log) + [Seen(index, startedAt.value, tick)]
      ensures answer.Followed? && Reports(answer.tick) && answer.tick.followed == (settled >= setup.settleTicks) && answer.tick.moved == tick.moved
      ensures Spares(setup, index, was, tick)
      ensures settled == if Close(setup, log[|old(log)|]) then old(settled) + 1 else 0
    {
      hide MaxDistance, Trailing, LastAll, StepsPaced, StepsClamped, AllEarned, Within, Aimed, VisualTracker.Valid, StandsAsTaught, Spares,
        Nearer;
      SparesUnfitted(setup, first, index, was, tick);
      var error := if tick.target.Some? && tick.measured != [] then Some(MaxDistance(tick.measured, tick.target.value)) else None;
      var missed := previous.None?;
      var close := error.Some? && error.value <= setup.settleTolerance;
      ghost var before, e := log, Seen(index, startedAt.value, tick);
      Count(missed, close, e);
      answer := Followed(FollowTick(index, misses < setup.lostAfterMisses, settled >= setup.settleTicks, tick.reason, tick.moved,
                                    previous, error, margin, misses, settled));
      RunsExtend(setup, first, before, e, tracker.Period(), tracker.TheRules().step);
      AllStandAsTaught(setup, first, log, setup.settleTicks);
    }

    /** The consecutive-miss and consecutive-arrival counters. */
    method Count(missed: bool, close: bool, ghost e: Seen)
      requires Trailing(log, e => Missed(setup, e), misses) && Trailing(log, e => Close(setup, e), settled)
      requires missed == Missed(setup, e) && close == Close(setup, e)
      modifies this`misses, this`settled, this`log
      ensures log == old(log) + [e]
      ensures Trailing(log, e => Missed(setup, e), misses) && Trailing(log, e => Close(setup, e), settled)
      ensures misses < setup.lostAfterMisses <==> !LastAll(log, e => Missed(setup, e), setup.lostAfterMisses)
      ensures settled >= setup.settleTicks <==> LastAll(log, e => Close(setup, e), setup.settleTicks)
      ensures misses == (if missed then old(misses) + 1 else 0) && settled == (if close then old(settled) + 1 else 0)
    {
      hide Trailing, LastAll, Missed, Close;
      TrailingStep(log, e => Missed(setup, e), misses, e);
      TrailingStep(log, e => Close(setup, e), settled, e);
      misses := if missed then misses + 1 else 0;
      settled := if close then settled + 1 else 0;
      log := log + [e];
      TrailingMeansLastAll(log, e => Missed(setup, e), misses, setup.lostAfterMisses);
      TrailingMeansLastAll(log, e => Close(setup, e), settled, setup.settleTicks);
    }

    /** At rest on a fresh lock, on an arm fast enough, with the carabiner in steady view at a pixel whose
        pose is in limits and at most `steps` whole steps and the settle tolerance away. */
    ghost predicate InReach(pixel: Pt, steps: nat)
      requires tracker.rateHz > 0.0
      reads this, tracker, tracker.port
    {
      && setup.calibration.Predict(pixel).Predicted? && Bound(Home(pixel, tracker.port.positions, steps, 0))
      && tracker.Nominal() && tracker.stoppedReason.None? && tracker.locked == 0 && tracker.port.maxVelocity >= tracker.maxVelocity
      && (forall frame :: index < frame ==> setup.look(frame) == Some(pixel)) && !setup.Jumped(pixel, pixel)
    }

    /** Start, and step until followed or until the frame count reaches `maxTicks`; false also when the
        tracker stops or a call raises. */
    method RunUntilFollowed(maxTicks: nat, ghost pixel: Pt, ghost steps: nat) returns (done: bool)
      requires Valid() && maxTicks > 0
      modifies this, tracker, tracker.port, clock
      ensures Valid() && (index <= old(index) + 1 || index <= maxTicks)
      ensures done ==> LastAll(log, e => Close(setup, e), setup.settleTicks) && LastAll(log, e => StandsAsTaught(setup, e), setup.settleTicks)
      // Where the tracker cannot start, not one step is taken.
      ensures !old(Startable(tracker.port, tracker.dryRun)) ==> !done && log == [] && index == old(index)
      // Liveness: within the lock, the steps and the settle count, a carabiner in reach is followed.
      ensures old(InReach(pixel, steps)) && maxTicks >= old(index) + TicksToArrive(steps) + setup.settleTicks ==>
        done && index <= old(index) + TicksToArrive(steps) + setup.settleTicks
    {
      hide LastAll, Close, StandsAsTaught, Spares, InLimits, Within, StrideAll, Steps, PixelMap.Predict, Setup.Jumped, CarabinerFollower.Homing,
        CarabinerFollower.TicksToArrive, CarabinerFollower.Valid, VisualTracker.Valid;
      ValidSays();
      ghost var homing, was, enough := InReach(pixel, steps), index, TicksToArrive(steps) + setup.settleTicks;
      ghost var from := tracker.port.positions;
      var ok := Start();
      if !ok {
        return false;
      }
      ValidSays();
      if homing {
        BeginsHoming(pixel, steps);
      }
      while true
        invariant Valid() && was <= index && (index == was || index < maxTicks)
        invariant homing ==> tracker.Valid() && Homing(Home(pixel, from, steps, index - was)) && index - was < enough
        decreases maxTicks - index
      {
        var answer := Step(if homing then Some(Home(pixel, from, steps, index - was)) else None);
        if !answer.Followed? || answer.tick.followed || answer.tick.index >= maxTicks {
          return answer.Followed? && answer.tick.followed;
        }
        ValidSays();
      }
    }
  }
}
