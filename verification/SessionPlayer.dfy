/** `SessionPlayer.play`: the timed loop that sends a validated plan, and never catches up. */
module SessionPlayback {
  import opened Reals
  import opened Contracts
  import opened Time
  import opened FakeArmPort
  import opened ReplayPreflight
  import opened Runs
  import opened Pacing

  datatype Stop =
    | EnableRefused | Cancelled | MotorFault | TrackingLost | DriverRefused | HeartbeatRaised | TimingMissed

  /** What was done so far; the caller owns it, so an interrupted replay still reports it. */
  class PlayOutcome {
    var framesSent: nat
    var lastFrameSent: Option<nat>
    var elapsed: real
    var clippedFrames: nat
    var maxClipping: real
    var missedDeadlines: nat
    var maxTrackingError: real

    constructor ()
      ensures framesSent == 0 && lastFrameSent == None && elapsed == 0.0
      ensures clippedFrames == 0 && maxClipping == 0.0 && missedDeadlines == 0 && maxTrackingError == 0.0
    {
      framesSent, lastFrameSent, elapsed, clippedFrames, maxClipping := 0, None, 0.0, 0, 0.0;
      missedDeadlines, maxTrackingError := 0, 0.0;
    }

    /** The first `n` frames of the plan went out, and the books say exactly that. */
    ghost predicate Tallies(plan: Plan, joints: nat, n: nat)
      requires Consistent(plan, joints) && n <= |plan.actions|
      reads `framesSent, `lastFrameSent, `clippedFrames, `maxClipping
    {
      && framesSent == n && lastFrameSent == (if n == 0 then None else Some(plan.firstFrame + n - 1))
      && clippedFrames == Offending(plan.requested[..n], plan.actions[..n])
      && maxClipping == Worst(plan.requested[..n], plan.actions[..n])
    }
  }

  /** The first `n` planned frames, as the driver takes them. */
  ghost function Wire(plan: Plan, f: JointFrame, n: nat): seq<seq<real>>
    requires Consistent(plan, |f.offsets|) && n <= |plan.actions| && f.degPerRad > 0.0
  {
    seq(n, i requires 0 <= i < n => f.ToRadians(plan.actions[i]))
  }

  lemma WireStep(plan: Plan, f: JointFrame, n: nat)
    requires Consistent(plan, |f.offsets|) && n < |plan.actions| && f.degPerRad > 0.0
    ensures Wire(plan, f, n + 1) == Wire(plan, f, n) + [f.ToRadians(plan.actions[n])]
  {
  }

  lemma TallyStep(plan: Plan, joints: nat, n: nat)
    requires Consistent(plan, joints) && n < |plan.actions|
    ensures var d := MaxDistance(plan.requested[n], plan.actions[n]);
      && d >= 0.0
      && Offending(plan.requested[..n + 1], plan.actions[..n + 1])
         == Offending(plan.requested[..n], plan.actions[..n]) + (if d > 0.0 then 1 else 0)
      && Worst(plan.requested[..n + 1], plan.actions[..n + 1]) == Max(Worst(plan.requested[..n], plan.actions[..n]), d)
      && Worst(plan.requested[..n], plan.actions[..n]) >= 0.0
  {
    hide MaxDistance;
    var r, a := plan.requested[..n + 1], plan.actions[..n + 1];
    assert r[..n] == plan.requested[..n] && a[..n] == plan.actions[..n];
    MaxDistanceBounds(plan.requested[n], plan.actions[n], 0.0);
    WorstBounds(plan.requested[..n], plan.actions[..n]);
  }

  /** What the loop carries from tick to tick. */
  datatype Watchers = Watchers(lastBeat: real, missedInARow: nat, overInARow: nat, previous: Option<seq<real>>)

  /** What happened, in order: which deadlines were missed, which samples were over the tracking bound and
      how far off they were, when each frame was done, and whether a beat was due then. */
  datatype Notes = Notes(late: seq<bool>, over: seq<bool>, errors: seq<real>, done: seq<real>, beaten: seq<bool>, began: Marks)

  /** When the run began, and how many polls and beats there had been. */
  datatype Marks = Marks(started: real, polls: nat, beats: nat)

  function Blank(started: real, polls: nat, beats: nat): Notes {
    Notes([], [], [], [], [], Marks(started, polls, beats))
  }

  ghost function Trues(log: seq<bool>): nat {
    if log == [] then 0 else Trues(log[..|log| - 1]) + if log[|log| - 1] then 1 else 0
  }

  /** The last beat before now: the start, when there was none. */
  ghost function LastBeat(started: real, done: seq<real>, beaten: seq<bool>): real
    requires |done| == |beaten|
  {
    var n := |done| - 1;
    if n < 0 then started else if beaten[n] then done[n] else LastBeat(started, done[..n], beaten[..n])
  }

  /** A beat comes after a frame exactly if the last one is at least an interval ago. */
  ghost predicate BeatsAreDue(started: real, done: seq<real>, beaten: seq<bool>, interval: real) {
    |done| == |beaten| && forall k :: 0 <= k < |beaten| ==> (beaten[k] <==> BeatIsDue(started, done, beaten, interval, k))
  }

  ghost predicate BeatIsDue(started: real, done: seq<real>, beaten: seq<bool>, interval: real, k: nat)
    requires k < |done| == |beaten|
  {
    done[k] - LastBeat(started, done[..k], beaten[..k]) >= interval
  }

  ghost predicate WorstIs(errors: seq<real>, worst: real) {
    worst >= 0.0 && (forall k :: 0 <= k < |errors| ==> errors[k] <= worst) && (worst == 0.0 || worst in errors)
  }

  lemma WorstStep(errors: seq<real>, worst: real, e: real)
    requires WorstIs(errors, worst)
    ensures WorstIs(errors + [e], Max(worst, e))
  {
    assert (errors + [e])[|errors|] == e;
    if worst in errors {
      var k :| 0 <= k < |errors| && errors[k] == worst;
      assert (errors + [e])[k] == worst;
    }
  }

  lemma BeatStep(started: real, done: seq<real>, beaten: seq<bool>, interval: real, at: real, due: bool)
    requires BeatsAreDue(started, done, beaten, interval)
    requires due <==> at - LastBeat(started, done, beaten) >= interval
    ensures BeatsAreDue(started, done + [at], beaten + [due], interval)
    ensures LastBeat(started, done + [at], beaten + [due]) == if due then at else LastBeat(started, done, beaten)
    ensures Trues(beaten + [due]) == Trues(beaten) + if due then 1 else 0
  {
    var n, more, also := |done|, done + [at], beaten + [due];
    assert more[..n] == done && also[..n] == beaten;
    forall k | 0 <= k < n ensures BeatIsDue(started, more, also, interval, k) <==> BeatIsDue(started, done, beaten, interval, k) {
      assert more[..k] == done[..k] && also[..k] == beaten[..k];
    }
  }

  predicate Yes(b: bool) { b }

  /** No run of more than `most` ended before the last entry. */
  ghost predicate Tolerated(log: seq<bool>, most: nat) {
    forall k :: 0 <= k < |log| ==> !LastAll(log[..k], b => Yes(b), most + 1)
  }

  class SessionPlayer {
    const port: FakeArm
    const clock: Clock
    const frame: JointFrame
    const settings: Settings
    const cancelled: nat -> bool           // the answer to the n-th cancellation poll
    const heartbeat: Option<nat -> bool>   // whether the n-th beat returns
    var polls: nat
    var beats: nat

    ghost predicate Valid()
      reads port, port.clock
    {
      port.Valid() && port.clock == clock && |frame.offsets| == |port.limits| && frame.degPerRad > 0.0
    }

    constructor (port: FakeArm, frame: JointFrame, settings: Settings, cancelled: nat -> bool, heartbeat: Option<nat -> bool>)
      requires port.Valid() && |frame.offsets| == |port.limits| && frame.degPerRad > 0.0
      ensures Valid() && this.port == port && this.frame == frame && this.settings == settings
      ensures this.cancelled == cancelled && this.heartbeat == heartbeat && polls == beats == 0
    {
      this.port, this.clock, this.frame, this.settings := port, port.clock, frame, settings;
      this.cancelled, this.heartbeat := cancelled, heartbeat;
      polls, beats := 0, 0;
    }

    ghost predicate Plays(plan: Plan) {
      |frame.offsets| == |port.limits| && frame.degPerRad > 0.0 && Consistent(plan, |port.limits|) && Commandable(plan, port.limits, frame)
    }

    /** Nothing will interrupt: a healthy energized arm on a manual clock, no cancellation, no failing beat. */
    ghost predicate Undisturbed()
      reads port
    {
      && clock.manual && port.lifecycle == Enabled && !port.refuseTargets && port.faultAfter.None? && port.trackingOffset == 0.0
      && (forall k :: !cancelled(k)) && (heartbeat.Some? ==> forall k :: heartbeat.value(k)) && settings.trackingLimit >= 0.0
    }

    /** Where the arm stands when it is read at this moment. */
    ghost predicate StandsAt(pose: seq<real>, now: real)
      reads port
    {
      && |pose| == |port.positions| == |port.targets|
      && var elapsed := now - port.lastIntegration;
         pose == if elapsed == 0.0 then port.positions else Integrated(port.positions, port.targets, Reach(port.maxVelocity, elapsed))
    }

    /** Where the arm is when it is sent frame n: at the frame before, or where it began. */
    ghost function PoseBefore(plan: Plan, n: nat, pose: seq<real>): (r: seq<real>)
      requires Plays(plan) && n <= |plan.actions| && |pose| == |port.limits|
      ensures |r| == |port.limits|
    {
      if n == 0 then pose else frame.ToRadians(plan.actions[n - 1])
    }

    /** The arm is fast enough for the plan: from `pose` to the first frame, and from each frame to the
        next, within a period. */
    ghost predicate KeepsPace(plan: Plan, pose: seq<real>, period: real) {
      && Plays(plan) && |pose| == |port.limits|
      && forall n :: 0 <= n < |plan.actions| ==>
           Within(frame.ToRadians(plan.actions[n]), PoseBefore(plan, n, pose), Reach(port.maxVelocity, period))
    }

    /** Undisturbed before frame n: standing where last sent, within a period's reach of the frame. */
    ghost predicate Poised(plan: Plan, n: nat, period: real, w: Watchers, pose: seq<real>)
      requires Plays(plan) && n < |plan.actions|
      reads port, clock
    {
      && |pose| == |port.limits| && Undisturbed() && StandsAt(pose, clock.now) && (w.previous.Some? ==> w.previous.value == frame.ToDegrees(pose))
      && Within(frame.ToRadians(plan.actions[n]), pose, Reach(port.maxVelocity, period))
    }

    /** `bridge.send_action`: clip, send, and report what was actually commanded, in degrees. */
    method SendAction(action: seq<real>) returns (sent: seq<real>, ok: bool)
      requires Valid() && |action| == |port.limits|
      modifies port
      ensures Valid()
      ensures !ok ==> port.sent == old(port.sent) && (port.refuseTargets || port.lifecycle != Enabled)
      ensures !ok <==> old(port.refuseTargets || port.lifecycle != Enabled)
      ensures ok && InLimits(frame.ToRadians(action), port.limits, 0.0) ==>
        sent == action && port.sent == old(port.sent) + [frame.ToRadians(action)]
      ensures |sent| == |action|
      ensures old(Undisturbed() && port.lastIntegration == clock.now) && InLimits(frame.ToRadians(action), port.limits, 0.0) ==>
        && ok && Undisturbed() && port.lastIntegration == clock.now && port.positions == old(port.positions)
        && port.targets == frame.ToRadians(action)
    {
      hide Clamped, InLimits, JointFrame.ToDegrees, JointFrame.ToRadians;
      var command := Clamped(frame.ToRadians(action), port.limits);
      ok := port.SendTargets(command);
      sent := frame.ToDegrees(command);
      if InLimits(frame.ToRadians(action), port.limits, 0.0) {
        InLimitsIsUnclamped(frame.ToRadians(action), port.limits);
        FrameRoundTrip(frame, action);
      }
    }

    /** The per-frame send and its books. False where the driver refuses. */
    method SendFrame(plan: Plan, n: nat, outcome: PlayOutcome) returns (sent: seq<real>, ok: bool)
      requires Valid() && Plays(plan) && n < |plan.actions| && outcome.Tallies(plan, |port.limits|, n)
      modifies port, outcome`framesSent, outcome`lastFrameSent, outcome`clippedFrames, outcome`maxClipping
      ensures Valid()
      ensures ok ==> |sent| == |port.limits| && outcome.Tallies(plan, |port.limits|, n + 1)
      ensures ok ==> port.sent == old(port.sent) + [frame.ToRadians(plan.actions[n])]
      ensures !ok ==> outcome.Tallies(plan, |port.limits|, n) && port.sent == old(port.sent)
      ensures !ok <==> old(port.refuseTargets || port.lifecycle != Enabled)
      ensures !ok ==> port.refuseTargets || port.lifecycle != Enabled
      ensures ok ==> InLimits(frame.ToRadians(plan.actions[n]), port.limits, 0.0) && sent == plan.actions[n]
      ensures old(Undisturbed() && port.lastIntegration == clock.now) ==>
        && ok && Undisturbed() && port.lastIntegration == clock.now && port.positions == old(port.positions)
        && port.targets == frame.ToRadians(plan.actions[n])
    {
      hide MaxDistance, Offending, Worst, InLimits, JointFrame.ToRadians;
      sent, ok := SendAction(plan.actions[n]);
      if !ok {
        return;
      }
      TallyStep(plan, |port.limits|, n);
      var deviation := MaxDistance(plan.requested[n], sent);
      if deviation > 0.0 {
        outcome.clippedFrames := outcome.clippedFrames + 1;
        outcome.maxClipping := Max(outcome.maxClipping, deviation);
      }
      outcome.framesSent := outcome.framesSent + 1;
      outcome.lastFrameSent := Some(plan.frameIndices[n]);
    }

    /** One read: health check and tracking watch. */
    method Inspect(previous: Option<seq<real>>, overInARow: nat, outcome: PlayOutcome, ghost notes: Notes, ghost pose: seq<real>)
      returns (stop: Option<Stop>, overNow: nat, ghost noted: Notes)
      requires Valid() && (previous.Some? ==> |previous.value| == |port.limits|)
      requires Trailing(notes.over, b => Yes(b), overInARow) && overInARow <= settings.maxMissed && Tolerated(notes.over, settings.maxMissed)
      requires |pose| == |port.limits| && Sampled(notes, outcome)
      modifies port`positions, port`sequence, port`lastIntegration, outcome`maxTrackingError
      ensures Valid() && Sampled(noted, outcome)
      ensures port.lastIntegration == clock.now && old(Undisturbed()) == Undisturbed()
      ensures old(Undisturbed() && StandsAt(pose, clock.now)) ==> port.positions == pose
      ensures old(Undisturbed() && StandsAt(pose, clock.now)) && previous == Some(frame.ToDegrees(pose)) ==> stop.None?
      ensures old(Undisturbed()) && previous.None? ==> stop.None?
      ensures Trailing(noted.over, b => Yes(b), overNow) && Tolerated(noted.over, settings.maxMissed)
      ensures stop == Some(TrackingLost) <==> overNow > settings.maxMissed
      ensures stop == Some(TrackingLost) <==> LastAll(noted.over, b => Yes(b), settings.maxMissed + 1)
      ensures stop.None? || stop.value in {MotorFault, TrackingLost}
      ensures stop == Some(TrackingLost) ==> noted.over != []
      ensures stop == Some(MotorFault) <==> port.lifecycle == Fault
      ensures noted == notes.(over := noted.over, errors := noted.errors)
      ensures stop == Some(MotorFault) || previous.None? ==> noted == notes
      ensures stop != Some(MotorFault) && previous.Some? ==>
        && noted.errors == notes.errors + [MaxDistance(frame.ToDegrees(port.Measured()), previous.value)]
        && noted.over == notes.over + [overNow > 0]
    {
      hide MaxDistance, Trailing, LastAll, Yes, JointFrame.ToDegrees, WorstIs;
      overNow, noted, stop := overInARow, notes, None;
      TrailingMeansLastAll(notes.over, b => Yes(b), overInARow, settings.maxMissed + 1);
      var state := port.ReadState();
      if state.HasFault() || !state.finite {
        return Some(MotorFault), overNow, noted;
      }
      var measured := frame.ToDegrees(state.positions);
      if Undisturbed() && old(StandsAt(pose, clock.now)) {
        assert port.positions == pose;
        assert port.Measured() == pose;
        if previous == Some(frame.ToDegrees(pose)) {
          NoDistance(previous.value, measured);
        }
      }
      if previous.Some? {
        var error := MaxDistance(measured, previous.value);
        WorstStep(notes.errors, outcome.maxTrackingError, error);
        outcome.maxTrackingError := Max(outcome.maxTrackingError, error);
        var isOver := error > settings.trackingLimit;
        overNow := if isOver then overInARow + 1 else 0;
        NotesStep(notes.over, overInARow, isOver, settings.maxMissed);
        noted := notes.(over := notes.over + [isOver], errors := notes.errors + [error]);
        if overNow > settings.maxMissed {
          stop := Some(TrackingLost);
        }
      }
    }

    /** Sleep out the rest of the tick, or note the deadline as missed. Lost time stays lost. */
    method Pace(period: real, tickStarted: real, now: real, missedInARow: nat, outcome: PlayOutcome, ghost late: seq<bool>)
      returns (stop: Option<Stop>, missedNow: nat, ghost lateLog: seq<bool>)
      requires Valid() && now == clock.now
      requires Trailing(late, b => Yes(b), missedInARow) && missedInARow <= settings.maxMissed && Tolerated(late, settings.maxMissed)
      modifies clock, outcome`missedDeadlines
      ensures Valid() && clock.now >= old(clock.now) && clock.now >= tickStarted + period
      ensures lateLog == late + [now - tickStarted >= period]
      ensures Trailing(lateLog, b => Yes(b), missedNow) && Tolerated(lateLog, settings.maxMissed)
      ensures stop == (if missedNow > settings.maxMissed then Some(TimingMissed) else None)
      ensures stop.Some? <==> LastAll(lateLog, b => Yes(b), settings.maxMissed + 1)
      ensures old(outcome.missedDeadlines) == Trues(late) ==> outcome.missedDeadlines == Trues(lateLog)
      ensures outcome.missedDeadlines == old(outcome.missedDeadlines) + if now - tickStarted >= period then 1 else 0
      ensures clock.now >= now && (clock.manual ==> clock.now == Max(now, tickStarted + period))
      ensures now == tickStarted && period > 0.0 ==> stop.None?
    {
      hide Trailing, LastAll, Yes;
      var remaining := period - (now - tickStarted);
      NotesStep(late, missedInARow, remaining <= 0.0, settings.maxMissed);
      lateLog, stop := late + [remaining <= 0.0], None;
      if remaining > 0.0 {
        clock.Sleep(remaining);
        missedNow := 0;
      } else {
        outcome.missedDeadlines := outcome.missedDeadlines + 1;
        missedNow := missedInARow + 1;
        if missedNow > settings.maxMissed {
          stop := Some(TimingMissed);
        }
      }
    }

    method Now() returns (t: real)
      requires Valid()
      modifies clock
      ensures Valid() && t == clock.now >= old(clock.now)
      ensures clock.manual ==> clock.now == old(clock.now)
    {
      t := clock.Monotonic();
    }

    /** False where the heartbeat raises. */
    method Beat() returns (ok: bool)
      modifies this`beats
      ensures heartbeat.None? ==> ok && beats == old(beats)
      ensures heartbeat.Some? ==> beats == old(beats) + 1 && ok == heartbeat.value(old(beats))
    {
      if heartbeat.None? {
        return true;
      }
      ok := heartbeat.value(beats);
      beats := beats + 1;
    }

    /** An interruption has its cause: a cancellation poll that said so, a fault, a beat that raised. */
    ghost predicate Because(stop: Option<Stop>)
      reads this, port
    {
      && (stop == Some(Cancelled) ==> cancelled(polls))
      && (stop == Some(MotorFault) ==> port.lifecycle == Fault)
      && (stop == Some(HeartbeatRaised) ==> heartbeat.Some? && beats > 0 && !heartbeat.value(beats - 1))
      && (stop == Some(DriverRefused) ==> port.refuseTargets || port.lifecycle != Enabled)
    }

    /** The counters say what the notes say, and nothing has gone on too long. */
    ghost predicate Kept(w: Watchers, notes: Notes) {
      && (w.previous.Some? ==> |w.previous.value| == |port.limits|)
      && Trailing(notes.late, b => Yes(b), w.missedInARow) && w.missedInARow <= settings.maxMissed
      && Trailing(notes.over, b => Yes(b), w.overInARow) && w.overInARow <= settings.maxMissed
      && Tolerated(notes.late, settings.maxMissed) && Tolerated(notes.over, settings.maxMissed)
      && |notes.done| == |notes.beaten| && w.lastBeat == LastBeat(notes.began.started, notes.done, notes.beaten)
    }

    /** The noted errors are those over the bound where noted so, and the worst of them is reported. */
    ghost predicate Sampled(notes: Notes, outcome: PlayOutcome)
      reads outcome`maxTrackingError
    {
      && WorstIs(notes.errors, outcome.maxTrackingError) && |notes.errors| == |notes.over|
      && forall k :: 0 <= k < |notes.over| ==> (notes.over[k] <==> notes.errors[k] > settings.trackingLimit)
    }

    /** Every poll since the run began said to go on, but for the one it was cancelled at. */
    ghost predicate Polled(notes: Notes, stop: Option<Stop>)
      reads `polls
    {
      && polls >= notes.began.polls && (stop == Some(Cancelled) ==> polls > notes.began.polls)
      && forall k :: notes.began.polls < k <= polls ==> (cancelled(k) <==> k == polls && stop == Some(Cancelled))
    }

    /** Beats came when they were due, and every one returned, but for the one that stopped the run. */
    ghost predicate Beaten(notes: Notes, stop: Option<Stop>)
      reads `beats
    {
      && BeatsAreDue(notes.began.started, notes.done, notes.beaten, settings.heartbeatInterval) && beats >= notes.began.beats
      && (heartbeat.Some? ==> beats == notes.began.beats + Trues(notes.beaten))
      && (stop == Some(HeartbeatRaised) ==> heartbeat.Some? && beats > notes.began.beats)
      && (heartbeat.Some? ==>
            forall k :: notes.began.beats <= k < beats ==> (heartbeat.value(k) <==> k < beats - 1 || stop != Some(HeartbeatRaised)))
    }

    /** The report and the notes say the same, and polls and beats are accounted for. */
    ghost predicate Watched(notes: Notes, stop: Option<Stop>, outcome: PlayOutcome)
      reads `polls, `beats, outcome`missedDeadlines, outcome`maxTrackingError
    {
      Sampled(notes, outcome) && outcome.missedDeadlines == Trues(notes.late) && Polled(notes, stop) && Beaten(notes, stop)
    }

    /** What the notes of a whole run say about how it ended. */
    ghost predicate Explains(notes: Notes, stop: Option<Stop>) {
      && Tolerated(notes.late, settings.maxMissed) && Tolerated(notes.over, settings.maxMissed)
      && (stop == Some(TimingMissed) <==> LastAll(notes.late, b => Yes(b), settings.maxMissed + 1))
      && (stop == Some(TrackingLost) <==> LastAll(notes.over, b => Yes(b), settings.maxMissed + 1))
    }

    /** Before a frame goes out the cancellation is polled, then the arm's health and its tracking are looked
        at, then the driver is asked; the first that fails names the stop. */
    ghost predicate Passes(stop: Option<Stop>, noted: Notes, lifecycle: Lifecycle, refuses: bool)
      reads `polls
    {
      var lost := LastAll(noted.over, b => Yes(b), settings.maxMissed + 1);
      stop == if cancelled(polls) then Some(Cancelled) else if lifecycle == Fault then Some(MotorFault)
              else if lost then Some(TrackingLost) else if refuses || lifecycle != Enabled then Some(DriverRefused) else None
    }

    /** The first half of a pass: stop, for the cause named, or send the frame. */
    method Begin(plan: Plan, n: nat, was: Watchers, outcome: PlayOutcome, ghost notes: Notes, ghost pose: seq<real>)
      returns (stop: Option<Stop>, now: Watchers, ghost noted: Notes)
      requires Valid() && Plays(plan) && n < |plan.actions| && outcome.Tallies(plan, |port.limits|, n) && Kept(was, notes)
      requires |pose| == |port.limits| && Watched(notes, None, outcome)
      modifies this`polls, port, outcome`framesSent, outcome`lastFrameSent, outcome`clippedFrames, outcome`maxClipping, outcome`maxTrackingError
      ensures Valid() && polls == old(polls) + 1 && Watched(noted, stop, outcome)
      ensures Passes(stop, noted, old(port.lifecycle), port.refuseTargets)
      ensures noted == notes.(over := noted.over, errors := noted.errors) && (was.previous.None? ==> noted.over == notes.over)
      ensures stop == Some(TrackingLost) ==> noted.over != []
      ensures stop.Some? ==>
        && Because(stop) && Explains(noted, stop) && stop.value in {Cancelled, MotorFault, TrackingLost, DriverRefused}
        && outcome.Tallies(plan, |port.limits|, n) && port.sent == old(port.sent)
      ensures stop.None? ==>
        && Kept(now, noted) && outcome.Tallies(plan, |port.limits|, n + 1) && now == was.(overInARow := now.overInARow, previous := now.previous)
        && port.sent == old(port.sent) + [frame.ToRadians(plan.actions[n])] && now.previous == Some(plan.actions[n])
      ensures old(Undisturbed() && StandsAt(pose, clock.now)) && (was.previous.Some? ==> was.previous.value == frame.ToDegrees(pose)) ==>
        && stop.None? && Undisturbed() && port.lastIntegration == clock.now && port.positions == pose
        && port.targets == frame.ToRadians(plan.actions[n])
    {
      hide MaxDistance, JointFrame.ToDegrees, JointFrame.ToRadians, FakeArm.Measured, FakeArm.Valid, SessionPlayer.Valid;
      hide Trailing, LastAll, Yes, Tolerated, PlayOutcome.Tallies, Commandable, Consistent, SessionPlayer.StandsAt;
      hide BeatsAreDue, Trues, LastBeat, WorstIs;
      now, noted, stop := was, notes, None;
      CountsSay(notes.late, was.missedInARow, settings.maxMissed);
      CountsSay(notes.over, was.overInARow, settings.maxMissed);
      polls := polls + 1;
      if cancelled(polls) {
        stop := Some(Cancelled);
        return;
      }
      var over;
      stop, over, noted := Inspect(was.previous, was.overInARow, outcome, notes, pose);
      now := now.(overInARow := over);
      if stop.Some? {
        return;
      }
      var sent, ok := SendFrame(plan, n, outcome);
      if !ok {
        CountsSay(noted.over, over, settings.maxMissed);
        stop := Some(DriverRefused);
        return;
      }
      now := now.(previous := Some(sent));
    }

    /** The second half: the heartbeat if it is due, then the rest of the period. */
    method Finish(period: real, tickStarted: real, was: Watchers, outcome: PlayOutcome, ghost notes: Notes)
      returns (stop: Option<Stop>, now: Watchers, ghost noted: Notes, ghost took: real)
      requires Valid() && Kept(was, notes) && tickStarted <= clock.now && Watched(notes, None, outcome)
      modifies this`beats, clock, outcome`missedDeadlines
      ensures Valid() && Because(stop) && Explains(noted, stop) && clock.now >= old(clock.now) && Watched(noted, stop, outcome)
      ensures stop.None? || stop.value in {HeartbeatRaised, TimingMissed}
      ensures took >= old(clock.now) - tickStarted && (clock.manual ==> took == old(clock.now) - tickStarted)
      ensures noted.done == notes.done + [tickStarted + took] && noted.over == notes.over && noted.began == notes.began
      ensures noted.late == notes.late + if stop == Some(HeartbeatRaised) then [] else [took >= period]
      ensures stop != Some(HeartbeatRaised) ==> clock.now >= tickStarted + Max(took, period)
      ensures stop != Some(HeartbeatRaised) && clock.manual ==> clock.now == tickStarted + Max(took, period)
      ensures stop.None? ==> Kept(now, noted) && now.previous == was.previous
      ensures old(Undisturbed()) && tickStarted == old(clock.now) && period > 0.0 ==>
        stop.None? && clock.now == old(clock.now) + period
    {
      hide LastAll, Yes, Tolerated, Trailing, FakeArm.Valid, SessionPlayer.Valid, BeatsAreDue, Trues, LastBeat, WorstIs;
      now, noted, stop := was, notes, None;
      CountsSay(notes.late, was.missedInARow, settings.maxMissed);
      CountsSay(notes.over, was.overInARow, settings.maxMissed);
      var sentAt := Now();
      took := sentAt - tickStarted;
      var due := sentAt - was.lastBeat >= settings.heartbeatInterval;
      BeatStep(notes.began.started, notes.done, notes.beaten, settings.heartbeatInterval, sentAt, due);
      noted := notes.(done := notes.done + [sentAt], beaten := notes.beaten + [due]);
      if due {
        now := now.(lastBeat := sentAt);
        var beaten := Beat();
        if !beaten {
          stop := Some(HeartbeatRaised);
          return;
        }
      }
      var missed;
      ghost var lateLog;
      stop, missed, lateLog := Pace(period, tickStarted, sentAt, was.missedInARow, outcome, notes.late);
      now, noted := now.(missedInARow := missed), noted.(late := lateLog);
    }

    /** One pass of the loop. It sends its frame or stops before that; and once sent, a period passes
        unless the heartbeat raises. */
    method Tick(plan: Plan, n: nat, period: real, was: Watchers, outcome: PlayOutcome, ghost notes: Notes, ghost pose: seq<real>)
      returns (stop: Option<Stop>, now: Watchers, ghost noted: Notes, ghost start: real, ghost took: real)
      requires Valid() && Plays(plan) && n < |plan.actions| && outcome.Tallies(plan, |port.limits|, n) && Kept(was, notes)
      requires period > 0.0 && |pose| == |port.limits| && Watched(notes, None, outcome)
      modifies this, port, clock, outcome
      ensures Valid() && Because(stop) && Explains(noted, stop) && stop != Some(EnableRefused)
      ensures outcome.framesSent == n || outcome.framesSent == n + 1
      ensures outcome.Tallies(plan, |port.limits|, outcome.framesSent) && clock.now >= old(clock.now)
      ensures port.sent == old(port.sent) + if outcome.framesSent == n then [] else [frame.ToRadians(plan.actions[n])]
      ensures stop.None? || stop == Some(HeartbeatRaised) ==> outcome.framesSent == n + 1
      ensures start >= old(clock.now) && took >= 0.0 && (clock.manual ==> start == old(clock.now))
      ensures outcome.framesSent == n + 1 && stop != Some(HeartbeatRaised) ==>
        clock.now >= start + Max(took, period) && (clock.manual ==> clock.now == start + Max(took, period))
      ensures stop.None? ==> Kept(now, noted)
      ensures Watched(noted, stop, outcome) && noted.began == notes.began && polls == old(polls) + 1
      ensures Passes(if outcome.framesSent == n then stop else None, noted, old(port.lifecycle), port.refuseTargets)
      ensures outcome.framesSent == n <==> BeforeFrame(stop)
      ensures was.previous.None? ==> noted.over == notes.over
      ensures old(port.lifecycle) == Enabled && !port.refuseTargets && was.previous.None? && notes.over == [] && BeforeFrame(stop) ==>
        stop == Some(Cancelled)
      ensures if outcome.framesSent == n then noted.done == notes.done && noted.late == notes.late && stop != Some(HeartbeatRaised)
        else noted.done == notes.done + [start + took]
             && noted.late == notes.late + if stop == Some(HeartbeatRaised) then [] else [took >= period]
      // Undisturbed, standing within a period's reach of the frame and where it was last sent, the arm
      // takes the frame and stands there a period later.
      ensures old(Poised(plan, n, period, was, pose)) ==>
        stop.None? && Undisturbed() && StandsAt(frame.ToRadians(plan.actions[n]), clock.now) && now.previous == Some(plan.actions[n])
    {
      hide JointFrame.ToDegrees, JointFrame.ToRadians, FakeArm.Valid, SessionPlayer.Valid, SessionPlayer.Kept, SessionPlayer.Explains;
      hide PlayOutcome.Tallies, Commandable, SessionPlayer.Undisturbed, SessionPlayer.StandsAt, SessionPlayer.Poised, Within,
        SessionPlayer.Because, SessionPlayer.Watched, LastAll;
      ghost var poised := Poised(plan, n, period, was, pose);
      if poised {
        PoisedMeans(plan, n, period, was, pose);
      }
      var tickStarted := Now();
      start, took := tickStarted, 0.0;
      stop, now, noted := Begin(plan, n, was, outcome, notes, pose);
      SentSays(plan, |port.limits|, if stop.None? then n + 1 else n, outcome);
      if stop.Some? {
        return;
      }
      stop, now, noted, took := Finish(period, tickStarted, now, outcome, noted);
      if poised {
        Lands(frame.ToRadians(plan.actions[n]), pose, period);
      }
    }

    /** The loop over the plan's frames. The notes say, tick by tick, which deadlines were missed and
        which samples were over the tracking bound. */
    method SendAll(plan: Plan, period: real, started: real, outcome: PlayOutcome, ghost pose: seq<real>)
      returns (stop: Option<Stop>, ghost notes: Notes, ghost log: Timing)
      requires Valid() && Plays(plan) && period > 0.0 && started == clock.now && |pose| == |port.limits|
      requires outcome.Tallies(plan, |port.limits|, 0) && outcome.missedDeadlines == 0 && outcome.maxTrackingError == 0.0
      modifies this, port, clock, outcome
      ensures Valid() && outcome.framesSent <= |plan.actions| && outcome.Tallies(plan, |port.limits|, outcome.framesSent)
      ensures port.sent == old(port.sent) + Wire(plan, frame, outcome.framesSent)
      ensures stop.None? ==> outcome.framesSent == |plan.actions|
      ensures clock.now - started >= Strides.Steps(if stop == Some(HeartbeatRaised) then outcome.framesSent - 1 else outcome.framesSent, period)
      ensures stop == Some(HeartbeatRaised) ==> outcome.framesSent >= 1
      ensures Because(stop) && Explains(notes, stop) && stop != Some(EnableRefused)
      ensures Spaced(log, period, outcome.framesSent)
      ensures Watched(notes, stop, outcome) && Timed(notes, log, period) && notes.began == Marks(started, old(polls), old(beats))
      ensures polls == old(polls) + outcome.framesSent + if BeforeFrame(stop) then 1 else 0
      ensures old(port.lifecycle) == Enabled && !port.refuseTargets && |plan.actions| > 0 && outcome.framesSent == 0 ==> stop == Some(Cancelled)
      ensures old(Undisturbed() && StandsAt(pose, clock.now)) && KeepsPace(plan, pose, period) ==> stop.None?
    {
      hide SessionPlayer.Undisturbed, SessionPlayer.StandsAt, SessionPlayer.KeepsPace, SessionPlayer.Poised, Within, JointFrame.ToDegrees;
      hide SessionPlayer.Valid, SessionPlayer.Because, SessionPlayer.Explains, SessionPlayer.Kept, PlayOutcome.Tallies, Commandable,
        SessionPlayer.Watched, SessionPlayer.Timed, SessionPlayer.Passes, Consistent, Wire, JointFrame.ToRadians, Strides.Steps, Paces, Follows, Punctual, SessionPlayer.Spaced;
      ghost var ideal := Undisturbed() && StandsAt(pose, clock.now) && KeepsPace(plan, pose, period);
      var watchers := Watchers(started, 0, 0, None);
      notes, stop, log := Blank(started, polls, beats), None, Timing([], []);
      Strides.NoSteps(0, period);
      NothingSent(plan, frame);
      Unremarkable(watchers, notes, outcome);
      NothingStarted(ByPeriod, period, clock.now, clock.manual);
      NothingTimed(notes, log, period);
      for n := 0 to |plan.actions|
        invariant Valid() && outcome.Tallies(plan, |port.limits|, n) && Kept(watchers, notes)
        invariant port.sent == old(port.sent) + Wire(plan, frame, n)
        invariant clock.now - started >= Strides.Steps(n, period)
        invariant Watched(notes, None, outcome) && Timed(notes, log, period) && notes.began == Marks(started, old(polls), old(beats))
        invariant polls == old(polls) + n
        invariant n == 0 ==> port.lifecycle == old(port.lifecycle) && watchers.previous.None? && notes.over == []
        invariant |log.starts| == n && Paces(ByPeriod, period, log, clock.now, clock.manual)
        invariant ideal ==> Undisturbed() && StandsAt(PoseBefore(plan, n, pose), clock.now)
        invariant ideal ==> watchers.previous == if n == 0 then None else Some(plan.actions[n - 1])
      {
        if ideal {
          BecomesPoised(plan, n, period, watchers, pose);
        }
        WireStep(plan, frame, n);
        Strides.OneMore(n + 1, period);
        ghost var start, took, head, before, was := 0.0, 0.0, clock.now, notes, log;
        stop, watchers, notes, start, took := Tick(plan, n, period, watchers, outcome, notes, PoseBefore(plan, n, pose));
        PacedCounts(log, period, head);
        log := FrameLogged(log, period, n, outcome.framesSent, head, start, took, clock.now, stop != Some(HeartbeatRaised));
        TimedStep(before, notes, was, log, period, outcome.framesSent == n + 1, stop != Some(HeartbeatRaised), start, took);
        if stop.Some? {
          return;
        }
      }
      Quiet(watchers, notes);
      SentSays(plan, |port.limits|, |plan.actions|, outcome);
      PacedIsSpaced(log, period, clock.now);
      stop := None;
    }

    /** Frame by frame: when it was done, and whether its period was over by then. */
    ghost predicate Timed(notes: Notes, log: Timing, period: real) {
      && |notes.done| == |log.starts| && |notes.late| == |log.took| <= |log.starts|
      && forall k :: 0 <= k < |log.took| ==>
           notes.done[k] == log.starts[k] + log.took[k] && (notes.late[k] <==> log.took[k] >= period)
    }

    lemma NothingTimed(notes: Notes, log: Timing, period: real)
      requires notes.done == [] && notes.late == [] && log == Timing([], [])
      ensures Timed(notes, log, period)
    {
    }

    lemma TimedStep(before: Notes, notes: Notes, was: Timing, log: Timing, period: real, sent: bool, paced: bool, start: real, took: real)
      requires Timed(before, was, period) && |was.starts| == |was.took|
      requires log.starts == was.starts + (if sent then [start] else []) && log.took == was.took + (if sent && paced then [took] else [])
      requires notes.done == before.done + (if sent then [start + took] else [])
      requires notes.late == before.late + (if sent && paced then [took >= period] else [])
      ensures Timed(notes, log, period)
    {
    }

    predicate BeforeFrame(stop: Option<Stop>) {
      stop.Some? && stop.value in {Cancelled, MotorFault, TrackingLost, DriverRefused}
    }

    /** Every frame sent is logged, and none went out before a period after the one before. */
    ghost predicate Spaced(log: Timing, period: real, frames: nat) {
      |log.starts| == frames && Follows(ByPeriod, period, log) && (clock.manual ==> Punctual(ByPeriod, period, log))
    }

    lemma PacedIsSpaced(log: Timing, period: real, now: real)
      requires Paces(ByPeriod, period, log, now, clock.manual)
      ensures Spaced(log, period, |log.starts|)
    {
    }

    /** A frame that went out is logged; unless its heartbeat raised, with its period over. */
    lemma FrameLogged(log: Timing, period: real, n: nat, sent: nat, head: real, start: real, took: real, now: real, paced: bool)
      returns (next: Timing)
      requires Paces(ByPeriod, period, log, head, clock.manual) && |log.starts| == n && (sent == n || sent == n + 1)
      requires start >= head && took >= 0.0 && (clock.manual ==> start == head)
      requires sent == n + 1 && paced ==> now >= start + Max(took, period) && (clock.manual ==> now == start + Max(took, period))
      ensures Spaced(next, period, sent) && |next.starts| == sent
      ensures next.starts == log.starts + (if sent == n + 1 then [start] else [])
      ensures next.took == log.took + (if sent == n + 1 && paced then [took] else [])
      ensures sent == n + 1 && paced ==> Paces(ByPeriod, period, next, now, clock.manual)
    {
      hide Follows, Punctual, Paces;
      PacedIsSpaced(log, period, head);
      next := log;
      if sent == n + 1 {
        PacedCounts(log, period, head);
        StepStarts(ByPeriod, period, log, head, clock.manual, start);
        next := Started(log, start);
        if paced {
          StepIsPaced(ByPeriod, period, next, clock.manual, took, now);
          next := Over(next, took);
          PacedIsSpaced(next, period, now);
        }
      }
    }

    lemma PacedCounts(log: Timing, period: real, now: real)
      requires Paces(ByPeriod, period, log, now, clock.manual)
      ensures |log.starts| == |log.took|
    {
    }

    lemma PoisedMeans(plan: Plan, n: nat, period: real, w: Watchers, pose: seq<real>)
      requires Plays(plan) && n < |plan.actions| && Poised(plan, n, period, w, pose)
      ensures clock.manual && (forall k :: !cancelled(k)) && (heartbeat.Some? ==> forall k :: heartbeat.value(k))
      ensures Undisturbed() && StandsAt(pose, clock.now) && (w.previous.Some? ==> w.previous.value == frame.ToDegrees(pose))
      ensures Within(frame.ToRadians(plan.actions[n]), pose, Reach(port.maxVelocity, period))
    {
    }

    lemma Lands(target: seq<real>, pose: seq<real>, period: real)
      requires |target| == |pose| && port.positions == pose && port.targets == target
      requires clock.now == port.lastIntegration + period && period > 0.0 && Within(target, pose, Reach(port.maxVelocity, period))
      ensures StandsAt(target, clock.now)
    {
      hide Within, Integrated, Reach;
      assert clock.now - port.lastIntegration == period;
      WithinReachArrives(pose, target, Reach(port.maxVelocity, period));
    }

    lemma BecomesPoised(plan: Plan, n: nat, period: real, w: Watchers, pose: seq<real>)
      requires Valid() && Plays(plan) && n < |plan.actions| && KeepsPace(plan, pose, period)
      requires Undisturbed() && StandsAt(PoseBefore(plan, n, pose), clock.now)
      requires w.previous == if n == 0 then None else Some(plan.actions[n - 1])
      ensures Poised(plan, n, period, w, PoseBefore(plan, n, pose))
    {
      hide SessionPlayer.Undisturbed, SessionPlayer.StandsAt, Within;
      if n > 0 {
        FrameRoundTrip(frame, plan.actions[n - 1]);
      }
    }

    lemma Unremarkable(w: Watchers, notes: Notes, outcome: PlayOutcome)
      requires w.missedInARow == 0 && w.overInARow == 0 && w.previous == None && notes == Blank(w.lastBeat, polls, beats)
      requires outcome.missedDeadlines == 0 && outcome.maxTrackingError == 0.0
      ensures Kept(w, notes) && Watched(notes, None, outcome) && Watched(notes, Some(EnableRefused), outcome)
    {
    }

    lemma NeverBegan(notes: Notes, log: Timing, period: real, outcome: PlayOutcome)
      requires notes == Blank(notes.began.started, polls, beats) && log == Timing([], [])
      requires outcome.missedDeadlines == 0 && outcome.maxTrackingError == 0.0
      ensures Watched(notes, Some(EnableRefused), outcome) && Timed(notes, log, period) && Spaced(log, period, 0)
      ensures Explains(notes, Some(EnableRefused)) && Because(Some(EnableRefused)) && Strides.Steps(0, period) == 0.0
    {
      Unremarkable(Watchers(notes.began.started, 0, 0, None), notes, outcome);
      NothingTimed(notes, log, period);
      NothingStarted(ByPeriod, period, 0.0, clock.manual);
      PacedIsSpaced(log, period, 0.0);
      Strides.NoSteps(0, period);
    }

    lemma Quiet(w: Watchers, notes: Notes)
      requires Kept(w, notes)
      ensures Explains(notes, None) && Because(None)
    {
      CountsSay(notes.late, w.missedInARow, settings.maxMissed);
      CountsSay(notes.over, w.overInARow, settings.maxMissed);
    }

    /** Send the plan. However it ends, what went out is a prefix of the plan in order, the books
        say exactly which, and every frame took at least a period, but for a last one whose
        heartbeat raised. A replay that completes sent the whole plan and agrees with preflight; and it
        does complete on an undisturbed arm that is fast enough for the plan. */
    method Play(plan: Plan, speed: real, outcome: PlayOutcome, ghost pose: seq<real>)
      returns (stop: Option<Stop>, ghost notes: Notes, ghost log: Timing)
      requires Valid() && Plays(plan) && plan.fps > 0.0 && speed > 0.0 && plan.fps * speed > 0.0
      requires outcome.Tallies(plan, |port.limits|, 0) && outcome.missedDeadlines == 0 && outcome.maxTrackingError == 0.0
      requires outcome.elapsed == 0.0
      modifies this, port, clock, outcome
      ensures Valid() && outcome.framesSent <= |plan.actions| && outcome.Tallies(plan, |port.limits|, outcome.framesSent)
      ensures port.sent == old(port.sent) + Wire(plan, frame, outcome.framesSent)
      ensures stop.None? ==>
        && outcome.framesSent == |plan.actions| && outcome.lastFrameSent == Some(plan.lastFrame)
        && outcome.clippedFrames == plan.clippedFrames && outcome.maxClipping == plan.maxClipping
      ensures stop != Some(HeartbeatRaised) ==> Strides.Steps(outcome.framesSent, 1.0 / (plan.fps * speed)) <= outcome.elapsed
      ensures stop == Some(HeartbeatRaised) ==>
        outcome.framesSent >= 1 && Strides.Steps(outcome.framesSent - 1, 1.0 / (plan.fps * speed)) <= outcome.elapsed
      ensures Because(stop) && Explains(notes, stop)
      ensures Watched(notes, stop, outcome) && Timed(notes, log, 1.0 / (plan.fps * speed))
      ensures notes.began.polls == old(polls) && notes.began.beats == old(beats) && notes.began.started >= old(clock.now)
      ensures polls == old(polls) + outcome.framesSent + if BeforeFrame(stop) then 1 else 0
      // A connected arm is energized first, and that is refused exactly if it rests outside its limits.
      ensures stop == Some(EnableRefused) <==> old(port.lifecycle == Connected && !InLimits(port.positions, port.limits, 0.0))
      ensures old(port.lifecycle == Connected && !port.refuseTargets && InLimits(port.positions, port.limits, 0.0)) ==>
        |plan.actions| > 0 && outcome.framesSent == 0 ==> stop == Some(Cancelled)
      ensures stop != Some(EnableRefused) ==>
        && notes.began.started + outcome.elapsed <= clock.now
        && (clock.manual ==> notes.began.started == old(clock.now) && outcome.elapsed == clock.now - old(clock.now))
      ensures Spaced(log, 1.0 / (plan.fps * speed), outcome.framesSent)
      ensures |pose| == |port.limits| && old(Undisturbed() && StandsAt(pose, clock.now)) && KeepsPace(plan, pose, 1.0 / (plan.fps * speed)) ==> stop.None?
    {
      hide SessionPlayer.KeepsPace, SessionPlayer.StandsAt;
      hide Strides.Steps, Trues, LastBeat, MaxDistance, Commandable, Wire, SessionPlayer.Watched, SessionPlayer.Timed, SessionPlayer.Explains, SessionPlayer.Because, SessionPlayer.Spaced, Paces;
      log := Timing([], []);
      var period := 1.0 / (plan.fps * speed);
      var started := Now();
      notes := Blank(started, polls, beats);
      if port.lifecycle == Connected {
        var ok := port.Enable();
        if !ok {
          NothingSent(plan, frame);
          NeverBegan(notes, log, period, outcome);
          return Some(EnableRefused), notes, log;
        }
      }
      ghost var here := if |pose| == |port.limits| then pose else port.positions;
      stop, notes, log := SendAll(plan, period, started, outcome, here);
      var end := Now();
      outcome.elapsed := end - started;
      if stop.None? {
        assert plan.requested[..|plan.actions|] == plan.requested && plan.actions[..|plan.actions|] == plan.actions;
      }
    }
  }

  /** `frames_sent / elapsed_s`, as the durable result reports it. */
  function EffectiveFps(framesSent: nat, elapsed: real): real {
    if elapsed > 0.0 then framesSent as real / elapsed else 0.0
  }

  /** A replay that took a period for every frame ran no faster than it was asked to. */
  lemma EffectiveRateIsBounded(framesSent: nat, elapsed: real, fps: real, speed: real, rate: real)
    requires fps > 0.0 && speed > 0.0 && rate == fps * speed && rate > 0.0
    requires Strides.Steps(framesSent, 1.0 / rate) <= elapsed
    ensures EffectiveFps(framesSent, elapsed) <= rate
    ensures if elapsed > 0.0 then Times(EffectiveFps(framesSent, elapsed), elapsed) == framesSent as real else EffectiveFps(framesSent, elapsed) == 0.0
  {
    if elapsed > 0.0 {
      var n, period := framesSent as real, 1.0 / rate;
      var due := Strides.Steps(framesSent, period);
      assert due * rate == n by { DivCancel(n, rate); Regroup(n, rate); }
      MulMonotone(due, elapsed, rate);
      assert n <= rate * elapsed;
      DivAtMost(n, rate, elapsed);
      DivCancel(n, elapsed);
    }
  }

  lemma Regroup(n: real, rate: real)
    requires rate > 0.0
    ensures n * (1.0 / rate) * rate == n
  {
    DivCancel(1.0, rate);
    var p := 1.0 / rate;
    assert p * rate == 1.0;
    assert n * p * rate == n * (p * rate);
  }

  lemma NoDistance(a: seq<real>, b: seq<real>)
    requires a == b
    ensures MaxDistance(b, a) == 0.0
  {
    hide MaxDistance, Within;
    Strides.Stays(a, b, 0.0);
    MaxDistanceBounds(b, a, 0.0);
  }

  lemma NotesStep(log: seq<bool>, count: nat, entry: bool, most: nat)
    requires Trailing(log, b => Yes(b), count) && count <= most && Tolerated(log, most)
    ensures var next := if entry then count + 1 else 0;
      && Trailing(log + [entry], b => Yes(b), next) && Tolerated(log + [entry], most)
      && (next > most <==> LastAll(log + [entry], b => Yes(b), most + 1))
  {
    TrailingStep(log, b => Yes(b), count, entry);
    TrailingMeansLastAll(log, b => Yes(b), count, most + 1);
    TrailingMeansLastAll(log + [entry], b => Yes(b), if entry then count + 1 else 0, most + 1);
    var more := log + [entry];
    forall k | 0 <= k < |more| ensures !LastAll(more[..k], b => Yes(b), most + 1) {
      if k < |log| {
        assert more[..k] == log[..k];
      } else {
        assert more[..k] == log;
      }
    }
  }

  lemma CountsSay(log: seq<bool>, count: nat, most: nat)
    requires Trailing(log, b => Yes(b), count) && count <= most
    ensures !LastAll(log, b => Yes(b), most + 1)
  {
    TrailingMeansLastAll(log, b => Yes(b), count, most + 1);
  }

  lemma SentSays(plan: Plan, joints: nat, n: nat, outcome: PlayOutcome)
    requires Consistent(plan, joints) && n <= |plan.actions| && outcome.Tallies(plan, joints, n)
    ensures outcome.framesSent == n
  {
  }

  lemma NothingSent(plan: Plan, f: JointFrame)
    requires Consistent(plan, |f.offsets|) && f.degPerRad > 0.0
    ensures Wire(plan, f, 0) == []
  {
  }
}
