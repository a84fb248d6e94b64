/** `PolicyRunner._rollout` and `PolicySession`: the same actions, paced in opposite ways. */
module Policy {
  import opened Reals
  import opened Contracts
  import opened Time
  import opened FakeArmPort
  import opened Pacing
  import opened Strides

  /** What the policy handle answers to the n-th request, and how long it thinks. */
  datatype Choice = Act(command: seq<real>) | Finished | Breaks

  datatype Handle = Handle(choose: nat -> Choice, think: nat -> real)

  datatype Termination =
    | Cancelled | Completed | MaxDuration | MaxSteps | PolicyError | NotEnabled | MotorFault
    | EnableRefused  // an exception on its way out

  /** Starts never run ahead of the schedule `began + n * period`. */
  ghost predicate OnSchedule(starts: seq<real>, began: real, period: real) {
    forall n :: 0 <= n < |starts| ==> starts[n] >= began + Steps(n, period)
  }

  /** Starts after the first are on the schedule exactly. */
  ghost predicate NoDrift(starts: seq<real>, began: real, period: real) {
    forall n :: 1 <= n < |starts| ==> starts[n] == began + Steps(n, period)
  }

  /** Every action started within the duration. */
  ghost predicate StartsBefore(starts: seq<real>, began: real, limit: real) {
    forall n :: 0 <= n < |starts| ==> starts[n] - began < limit
  }

  /** What a rollout's log shows, however it ended. */
  ghost predicate Ran(log: Timing, began: real, period: real, limit: real, manual: bool, missed: nat) {
    && Follows(ByDeadline(began), period, log) && (manual ==> Punctual(ByDeadline(began), period, log))
    && OnSchedule(log.starts, began, period) && StartsBefore(log.starts, began, limit)
    && (manual && missed == 0 ==> NoDrift(log.starts, began, period))
  }

  /** And, between its steps, that the last one was paced. */
  ghost predicate InHand(log: Timing, began: real, period: real, limit: real, manual: bool, missed: nat, now: real) {
    && Ran(log, began, period, limit, manual, missed) && Paces(ByDeadline(began), period, log, now, manual)
    && now >= began + Steps(|log.starts|, period)
    && (manual && missed == 0 && log.starts != [] ==> now == began + Steps(|log.starts|, period))
  }

  lemma NothingRan(began: real, period: real, limit: real, manual: bool, now: real)
    requires now >= began
    ensures InHand(Timing([], []), began, period, limit, manual, 0, now)
    ensures Ran(Timing([], []), began, period, limit, manual, 0)
  {
    NoSteps(0, period);
  }

  lemma InHandRan(log: Timing, began: real, period: real, limit: real, manual: bool, missed: nat, now: real)
    requires InHand(log, began, period, limit, manual, missed, now)
    ensures Ran(log, began, period, limit, manual, missed) && |log.starts| == |log.took|
    ensures now >= began + Steps(|log.starts|, period)
  {
    hide Ran;
  }

  lemma NextStarts(log: Timing, began: real, period: real, limit: real, manual: bool, missed: nat, now: real, start: real)
    requires InHand(log, began, period, limit, manual, missed, now)
    requires start >= now && (manual ==> start == now) && start - began < limit
    ensures Ran(Started(log, start), began, period, limit, manual, missed)
  {
    hide Follows, Punctual, Paces, Steps;
    StepStarts(ByDeadline(began), period, log, now, manual, start);
  }

  lemma NextIsPaced(log: Timing, began: real, period: real, limit: real, manual: bool, missed: nat, more: nat, took: real, now: real)
    requires Ran(log, began, period, limit, manual, missed) && |log.starts| == |log.took| + 1 && took >= 0.0 && more >= missed
    requires var n := |log.took|;
      var next := Earliest(ByDeadline(began), period, n, log.starts[n], took);
      now >= next && (manual ==> now == next)
    requires now >= began + Steps(|log.starts|, period)
    requires manual && more == missed ==> now == began + Steps(|log.starts|, period)
    ensures InHand(Over(log, took), began, period, limit, manual, more, now)
  {
    hide OnSchedule, StartsBefore, NoDrift, Steps, Follows, Punctual, Paces;
    StepIsPaced(ByDeadline(began), period, log, manual, took, now);
    StillPunctual(log, began, period, manual, took);
  }

  lemma StillPunctual(log: Timing, began: real, period: real, manual: bool, took: real)
    requires Follows(ByDeadline(began), period, log) && |log.starts| == |log.took| + 1 && took >= 0.0
    requires manual ==> Punctual(ByDeadline(began), period, log)
    ensures Follows(ByDeadline(began), period, Over(log, took)) && (manual ==> Punctual(ByDeadline(began), period, Over(log, took)))
  {
  }

  /** How asking for one action can end: a policy that raises or names other joints than the arm has; one
      that is done; a port that takes no targets; a fault found once the command is out; or not at all. */
  ghost predicate AskEnds(why: Option<Termination>, choice: Choice, joints: nat, accepting: bool, faulted: bool) {
    var fits := choice.Act? && |choice.command| == joints;
    && (why == Some(PolicyError) <==> choice.Breaks? || (choice.Act? && |choice.command| != joints))
    && (why == Some(Completed) <==> choice.Finished?)
    && (why == Some(NotEnabled) <==> fits && !accepting)
    && (why == Some(MotorFault) <==> fits && accepting && faulted)
    && (why.Some? ==> why.value in {PolicyError, Completed, NotEnabled, MotorFault})
  }

  predicate Accepting(port: FakeArm)
    reads port
  {
    !port.refuseTargets && port.lifecycle == Enabled
  }

  /** What the bridge makes of an action: the command nearest it inside the soft limits. */
  ghost predicate Sends(choice: Choice, limits: seq<JointLimit>, command: seq<real>) {
    && choice.Act? && |choice.command| == |limits| && command == Clamped(choice.command, limits)
    && (WellFormed(limits) ==> InLimits(command, limits, 0.0))
  }

  /** Observe, ask the policy, clip the action to the soft limits, send it, and look for a fault. `went`
      is the command, if one went out, and when; a motor fault is found only after it has. */
  method AskAndSend(port: FakeArm, clock: Clock, choice: Choice, think: real)
    returns (why: Option<Termination>, went: Option<seq<real>>, ghost at: real)
    requires port.Valid() && port.clock == clock
    modifies port, clock
    ensures port.Valid() && clock.now >= at >= old(clock.now)
    ensures port.sent == if went.Some? then old(port.sent) + [went.value] else old(port.sent)
    ensures went.Some? <==> why.None? || why == Some(MotorFault)
    ensures AskEnds(why, choice, |port.limits|, old(Accepting(port)), port.lifecycle == Fault)
    ensures why.None? ==> Accepting(port)
    ensures why != Some(MotorFault) ==> port.lifecycle == old(port.lifecycle)
    ensures went.Some? ==> Sends(choice, port.limits, went.value)
  {
    hide Clamped, Integrated, Bumped;
    var _ := port.ReadState();
    clock.Sleep(think);
    at, went := clock.now, None;
    if choice.Breaks? {
      return Some(PolicyError), went, at;
    }
    if choice.Finished? {
      return Some(Completed), went, at;
    }
    if |choice.command| != |port.limits| {
      return Some(PolicyError), went, at;
    }
    var command := Clamped(choice.command, port.limits);
    var sent := port.SendTargets(command);
    if !sent {
      return Some(NotEnabled), went, at;
    }
    if WellFormed(port.limits) { ClampedIsInLimits(choice.command, port.limits); }
    went := Some(command);
    var state := port.ReadState();
    why := if state.HasFault() then Some(MotorFault) else None;
  }

  class PolicyRunner {
    const port: FakeArm
    const clock: Clock
    const handle: Handle
    const cancelled: nat -> bool
    var steps: nat
    var missedDeadlines: nat
    var maxLatency: real

    ghost predicate Valid()
      reads port, port.clock
    {
      port.Valid() && port.clock == clock
    }

    constructor (port: FakeArm, handle: Handle, cancelled: nat -> bool)
      requires port.Valid()
      ensures Valid() && this.port == port && this.handle == handle && this.cancelled == cancelled
      ensures steps == 0 && missedDeadlines == 0 && maxLatency == 0.0
    {
      this.port, this.clock, this.handle, this.cancelled := port, port.clock, handle, cancelled;
      steps, missedDeadlines, maxLatency := 0, 0, 0.0;
    }

    /** What went out since is one command for each step, in order, each the policy's action clipped. */
    ghost predicate SentSince(already: seq<seq<real>>)
      reads this, port
    {
      && |port.sent| == |already| + steps && already <= port.sent
      && forall k :: 0 <= k < steps ==> Sends(handle.choose(k), port.limits, port.sent[|already| + k])
    }

    method Now() returns (t: real)
      requires Valid()
      modifies clock
      ensures Valid() && t == clock.now >= old(clock.now)
      ensures clock.manual ==> clock.now == old(clock.now)
    {
      t := clock.Monotonic();
    }

    method Rest(seconds: real)
      requires Valid()
      modifies clock
      ensures Valid() && clock.now >= old(clock.now) && clock.now >= old(clock.now) + seconds
      ensures clock.manual ==> clock.now == if seconds > 0.0 then old(clock.now) + seconds else old(clock.now)
    {
      clock.Sleep(seconds);
    }

    method Advance(choice: Choice, think: real) returns (why: Option<Termination>, went: Option<seq<real>>, ghost at: real)
      requires Valid()
      modifies port, clock
      ensures Valid() && clock.now >= at >= old(clock.now)
      ensures port.sent == if went.Some? then old(port.sent) + [went.value] else old(port.sent)
      ensures went.Some? <==> why.None? || why == Some(MotorFault)
      ensures AskEnds(why, choice, |port.limits|, old(Accepting(port)), port.lifecycle == Fault)
      ensures why.None? ==> Accepting(port)
      ensures why != Some(MotorFault) ==> port.lifecycle == old(port.lifecycle)
      ensures went.Some? ==> Sends(choice, port.limits, went.value)
    {
      why, went, at := AskAndSend(port, clock, choice, think);
    }

    /** The loop, on a schedule that began when the run did. It always ends; every action starts within
        the duration and never ahead of its absolute deadline; on a clock that does not oversleep every
        action starts the moment the discipline allows, so as long as no deadline is missed there is no
        drift at all. */
    method Rollout(period: real, durationLimit: real, maxSteps: Option<nat>, started: real)
      returns (why: Termination, ghost log: Timing)
      requires Valid() && period > 0.0 && steps == 0 && missedDeadlines == 0 && maxLatency == 0.0 && started <= clock.now
      modifies this, port, clock
      ensures Valid() && clock.now >= old(clock.now)
      ensures |log.starts| == steps && (log.starts != [] ==> log.starts[0] >= old(clock.now))
      ensures Ran(log, started, period, durationLimit, clock.manual, missedDeadlines)
      ensures maxSteps.Some? ==> steps <= maxSteps.value
      ensures SentSince(old(port.sent))
      ensures EndsFor(why, started, durationLimit, maxSteps, old(Accepting(port))) && why != EnableRefused
      ensures if why == MotorFault then port.lifecycle == Fault else port.lifecycle == old(port.lifecycle)
      ensures Counted(log, started, period, missedDeadlines, maxLatency)
    {
      hide Steps, Clamped, Integrated, InLimits, PolicyRunner.Valid, Ran, InHand, Sends, Counted, PolicyRunner.SentSince, PolicyRunner.EndsFor;
      log := Timing([], []);
      NothingRan(started, period, durationLimit, clock.manual, clock.now);
      NothingCounted(started, period);
      NothingSentYet();
      while true
        invariant Valid() && |log.starts| == steps && clock.now >= old(clock.now)
        invariant InHand(log, started, period, durationLimit, clock.manual, missedDeadlines, clock.now)
        invariant log.starts != [] ==> log.starts[0] >= old(clock.now)
        invariant maxSteps.Some? ==> steps <= maxSteps.value
        invariant SentSince(old(port.sent)) && forall k :: 0 <= k < steps ==> !cancelled(k)
        invariant if steps == 0 then Accepting(port) == old(Accepting(port)) else Accepting(port) && old(Accepting(port))
        invariant Counted(log, started, period, missedDeadlines, maxLatency) && port.lifecycle == old(port.lifecycle)
        decreases (durationLimit / period).Floor + 1 - steps
      {
        InHandRan(log, started, period, durationLimit, clock.manual, missedDeadlines, clock.now);
        ghost var head := clock.now;
        var stepStarted := Now();
        var elapsed := stepStarted - started;
        EndsUnasked(started, durationLimit, maxSteps, old(Accepting(port)));
        if cancelled(steps) {
          return Cancelled, log;
        }
        if elapsed >= durationLimit {
          return MaxDuration, log;
        }
        if maxSteps.Some? && steps >= maxSteps.value {
          return MaxSteps, log;
        }
        StepsWithin(steps, period, durationLimit);
        var failed;
        failed, log := Perform(period, durationLimit, maxSteps, started, stepStarted, log, head, old(port.sent), old(Accepting(port)));
        if failed.Some? {
          return failed.value, log;
        }
      }
    }

    lemma EndsUnasked(started: real, durationLimit: real, maxSteps: Option<nat>, accepting: bool)
      requires forall k :: 0 <= k < steps ==> !cancelled(k)
      ensures cancelled(steps) ==> EndsFor(Cancelled, started, durationLimit, maxSteps, accepting)
      ensures !cancelled(steps) && clock.now - started >= durationLimit ==> EndsFor(MaxDuration, started, durationLimit, maxSteps, accepting)
      ensures !cancelled(steps) && maxSteps == Some(steps) ==> EndsFor(MaxSteps, started, durationLimit, maxSteps, accepting)
    {
    }

    lemma NothingSentYet()
      requires steps == 0
      ensures SentSince(port.sent)
    {
    }

    /** One step of the loop: ask, send and, if that went well, book it and pace. */
    method Perform(period: real, ghost limit: real, ghost maxSteps: Option<nat>, started: real, stepStarted: real, ghost log: Timing,
        ghost head: real, ghost already: seq<seq<real>>, ghost accepting: bool)
      returns (failed: Option<Termination>, ghost more: Timing)
      requires Valid() && |log.starts| == steps && head <= stepStarted == clock.now && (clock.manual ==> head == stepStarted)
      requires stepStarted - started < limit && SentSince(already)
      requires InHand(log, started, period, limit, clock.manual, missedDeadlines, head)
      requires Counted(log, started, period, missedDeadlines, maxLatency)
      requires forall k :: 0 <= k <= steps ==> !cancelled(k)
      requires if steps == 0 then Accepting(port) == accepting else Accepting(port) && accepting
      modifies this, port, clock
      ensures Valid() && clock.now >= old(clock.now) && |more.starts| == steps && SentSince(already)
      ensures steps == old(steps) + if failed.None? || failed == Some(MotorFault) then 1 else 0
      ensures more.starts == if steps > old(steps) then log.starts + [stepStarted] else log.starts
      ensures failed.Some? ==> EndsFor(failed.value, started, limit, maxSteps, accepting) && failed.value != EnableRefused
      ensures if failed == Some(MotorFault) then port.lifecycle == Fault else port.lifecycle == old(port.lifecycle)
      ensures Counted(more, started, period, missedDeadlines, maxLatency)
      ensures Ran(more, started, period, limit, clock.manual, missedDeadlines)
      ensures failed.None? ==> Accepting(port) && accepting && InHand(more, started, period, limit, clock.manual, missedDeadlines, clock.now)
    {
      hide Steps, Clamped, Integrated, InLimits, Ran, InHand, Sends, Counted, FakeArm.Valid;
      InHandRan(log, started, period, limit, clock.manual, missedDeadlines, head);
      ghost var at;
      var went;
      more := log;
      failed, went, at := Advance(handle.choose(steps), handle.think(steps));
      if went.Some? {
        NextStarts(log, started, period, limit, clock.manual, missedDeadlines, head, stepStarted);
        StartIsNotCounted(log, started, period, missedDeadlines, maxLatency, stepStarted);
        more := Started(log, stepStarted);
        steps := steps + 1;
      }
      if failed.None? {
        more := PaceStep(period, limit, started, stepStarted, more);
        InHandRan(more, started, period, limit, clock.manual, missedDeadlines, clock.now);
      }
    }

    /** Why a rollout ended: the first of a cancellation, the duration, the step budget, and what asking for
        the next action came to; a fault comes with the last step that went out. */
    ghost predicate EndsFor(why: Termination, started: real, durationLimit: real, maxSteps: Option<nat>, accepting: bool)
      reads this, clock
    {
      var asked := if why == MotorFault then steps - 1 else steps;
      && (forall k :: 0 <= k < asked ==> !cancelled(k)) && asked >= 0
      && (cancelled(asked) <==> why == Cancelled)
      && match why
         case Cancelled => true
         case MaxDuration => clock.now - started >= durationLimit
         case MaxSteps => maxSteps == Some(asked)
         case PolicyError => handle.choose(asked).Breaks? || (handle.choose(asked).Act? && |handle.choose(asked).command| != |port.limits|)
         case Completed => handle.choose(asked).Finished?
         case NotEnabled => asked == 0 && !accepting && handle.choose(asked).Act?
         case MotorFault => handle.choose(asked).Act?
         case EnableRefused => false
    }

    /** Book the step's latency, then wait for its absolute deadline or count it as missed. */
    method PaceStep(period: real, ghost limit: real, started: real, stepStarted: real, ghost log: Timing) returns (ghost paced: Timing)
      requires Valid() && stepStarted <= clock.now && |log.starts| == steps > 0 && log.starts[steps - 1] == stepStarted
      requires Ran(log, started, period, limit, clock.manual, missedDeadlines) && |log.starts| == |log.took| + 1
      modifies this`maxLatency, this`missedDeadlines, clock
      ensures Valid() && clock.now >= old(clock.now) && paced.starts == log.starts
      ensures InHand(paced, started, period, limit, clock.manual, missedDeadlines, clock.now)
      ensures old(Counted(log, started, period, missedDeadlines, maxLatency)) ==> Counted(paced, started, period, missedDeadlines, maxLatency)
    {
      hide Steps, Ran, InHand;
      var now := Now();
      ghost var missedBefore, worst := missedDeadlines, maxLatency;
      maxLatency := Max(maxLatency, now - stepStarted);
      var deadline := started + Steps(steps, period);
      ghost var missed := missedDeadlines;
      if now > deadline {
        missedDeadlines := missedDeadlines + 1;
      } else {
        Rest(deadline - now);
      }
      NextIsPaced(log, started, period, limit, clock.manual, missed, missedDeadlines, now - stepStarted, clock.now);
      paced := Over(log, now - stepStarted);
      if Counted(log, started, period, missedBefore, worst) {
        StepIsCounted(log, started, period, missedBefore, worst, now - stepStarted);
      }
    }

    /** The whole run: refuse a faulted or disconnected arm, energize it, set the policy up for however
        long that takes, roll out on the schedule that began before all this, and leave the arm held or
        e-stopped. */
    method Run(period: real, durationLimit: real, maxSteps: Option<nat>, setUp: real, estopOnFailure: bool)
      returns (why: Termination, ghost began: real, ghost log: Timing)
      requires Valid() && period > 0.0 && steps == 0 && missedDeadlines == 0 && maxLatency == 0.0
      modifies this, port, clock
      ensures Valid() && began >= old(clock.now) && |log.starts| == steps
      ensures why == EnableRefused || port.Still()
      ensures why in {PolicyError, NotEnabled, MotorFault} && log.starts != [] && estopOnFailure ==> port.lifecycle != Enabled
      // Once energized, it ends for the rollout's reason, and is held unless it failed and is to be e-stopped.
      ensures old(port.lifecycle) in {Connected, Enabled} && why != EnableRefused ==>
        && EndsFor(why, began, durationLimit, maxSteps, !port.refuseTargets)
        && (if why == MotorFault then port.lifecycle == Fault else
              port.lifecycle == if why in {PolicyError, NotEnabled} && estopOnFailure then Connected else Enabled)
      ensures old(port.lifecycle) == Fault ==> why == MotorFault && log.starts == []
      ensures old(port.lifecycle) == Disconnected ==> why == NotEnabled && log.starts == []
      ensures why == EnableRefused <==> old(port.lifecycle) == Connected && !InLimits(old(port.positions), port.limits, 0.0)
      ensures Counted(log, began, period, missedDeadlines, maxLatency)
      ensures SentSince(old(port.sent))
      ensures Ran(log, began, period, durationLimit, clock.manual, missedDeadlines)
      ensures log.starts != [] ==> log.starts[0] >= began + setUp
      ensures maxSteps.Some? ==> steps <= maxSteps.value
    {
      hide Clamped, Integrated, InLimits, Ran, InHand, Sends, FakeArm.Stands, FakeArm.Measured, Counted, FakeArm.Valid, PolicyRunner.EndsFor;
      var started := Now();
      began, log := started, Timing([], []);
      NothingRan(started, period, durationLimit, clock.manual, started);
      NothingCounted(started, period);
      NothingSentYet();
      var state := port.ReadState();
      if state.lifecycle in {Fault, Disconnected} {
        return if state.lifecycle == Fault then MotorFault else NotEnabled, began, log;
      }
      if state.lifecycle == Connected {
        var enabled := port.Enable();
        if !enabled {
          return EnableRefused, began, log;
        }
      }
      Rest(setUp);
      why, log := Rollout(period, durationLimit, maxSteps, started);
      SafeStop(why in {PolicyError, NotEnabled, MotorFault}, estopOnFailure);
    }

    method SafeStop(failed: bool, estopOnFailure: bool)
      requires Valid()
      modifies port
      ensures Valid() && port.Still() && port.sent == old(port.sent)
      ensures port.lifecycle == if old(port.lifecycle) == Enabled && failed && estopOnFailure then Connected else old(port.lifecycle)
    {
      if port.lifecycle == Enabled {
        if failed && estopOnFailure {
          port.Estop();
        } else {
          var _ := port.HoldCurrentPosition();
        }
      }
    }
  }

  /** How many of the finished steps were not done by the deadline of the next one. */
  ghost function LateSteps(log: Timing, began: real, period: real, n: nat): nat
    requires n <= |log.took| && n <= |log.starts|
  {
    if n == 0 then 0 else
      LateSteps(log, began, period, n - 1)
      + if log.starts[n - 1] + log.took[n - 1] > began + Steps(n, period) then 1 else 0
  }

  /** The runner's figures: the deadlines missed, and the longest a finished step took. */
  ghost predicate Counted(log: Timing, began: real, period: real, missed: nat, worst: real) {
    && |log.took| <= |log.starts| && missed == LateSteps(log, began, period, |log.took|)
    && (forall n :: 0 <= n < |log.took| ==> log.took[n] <= worst)
    && (worst == 0.0 || worst in log.took) && worst >= 0.0
  }

  lemma NothingCounted(began: real, period: real)
    ensures Counted(Timing([], []), began, period, 0, 0.0)
  {
  }

  lemma {:induction false} LateStepsSame(log: Timing, more: Timing, began: real, period: real, n: nat)
    requires n <= |log.took| && n <= |log.starts| && n <= |more.took| && n <= |more.starts|
    requires more.took[..n] == log.took[..n] && more.starts[..n] == log.starts[..n]
    ensures LateSteps(more, began, period, n) == LateSteps(log, began, period, n)
  {
    if n > 0 {
      assert forall k :: 0 <= k < n ==> more.took[..n][k] == more.took[k] && log.took[..n][k] == log.took[k];
      assert forall k :: 0 <= k < n ==> more.starts[..n][k] == more.starts[k] && log.starts[..n][k] == log.starts[k];
      assert more.took[..n - 1] == log.took[..n - 1] && more.starts[..n - 1] == log.starts[..n - 1];
      LateStepsSame(log, more, began, period, n - 1);
    }
  }

  lemma StartIsNotCounted(log: Timing, began: real, period: real, missed: nat, worst: real, start: real)
    requires Counted(log, began, period, missed, worst)
    ensures Counted(Started(log, start), began, period, missed, worst)
  {
    var more := Started(log, start);
    assert more.starts[..|log.took|] == log.starts[..|log.took|];
    LateStepsSame(log, more, began, period, |log.took|);
  }

  lemma StepIsCounted(log: Timing, began: real, period: real, missed: nat, worst: real, took: real)
    requires Counted(log, began, period, missed, worst) && |log.starts| == |log.took| + 1
    ensures var n := |log.took|;
      var late := log.starts[n] + took > began + Steps(n + 1, period);
      Counted(Over(log, took), began, period, missed + (if late then 1 else 0), Max(worst, took))
  {
    var more, n := Over(log, took), |log.took|;
    assert more.took[..n] == log.took[..n] && more.starts[..n] == log.starts[..n];
    LateStepsSame(log, more, began, period, n);
    assert worst in log.took ==> worst in more.took;
  }

  lemma StepsWithin(n: nat, period: real, limit: real)
    requires period > 0.0 && Steps(n, period) < limit
    ensures n < (limit / period).Floor + 1
  {
    DivAtMost(limit, n as real, period);
  }

  // ---- the session ------------------------------------------------------------------------------------

  datatype PolicyStep = PolicyStep(index: nat, sent: Option<seq<real>>, missedDeadline: bool, termination: Option<Termination>)

  datatype StepAnswer = Stepped(step: PolicyStep) | NotSeeded  // PolicySessionError

  /** The commands of a seeding went out a period apart, its steps waited a period from the end of the
      one before, and the deadline carried is when the next may start. */
  ghost predicate Booked(sends: seq<real>, log: Timing, period: real, seeded: bool, deadline: Option<real>) {
    && Paced(sends, period) && Follows(AfterAction, period, log) && |log.starts| == |sends|
    && (seeded ==> |log.took| == |log.starts| && (log.starts == [] <==> deadline.None?))
    && (seeded && log.starts != [] ==> deadline == Some(Due(log, period)) && deadline.value >= sends[|sends| - 1] + period)
  }

  /** When the next step of a session may start. */
  ghost function Due(log: Timing, period: real): real
    requires |log.took| == |log.starts| > 0
  {
    var n := |log.starts| - 1;
    Earliest(AfterAction, period, n, log.starts[n], log.took[n])
  }

  class PolicySession {
    const port: FakeArm
    const clock: Clock
    const handle: Handle
    const cancelled: nat -> bool
    const fps: real

    var steps: nat
    var missedDeadlines: nat
    var asked: nat
    var polls: nat
    var seeded: bool
    var finished: bool
    var nextDeadline: Option<real>
    ghost var sends: seq<real>  // when each command of this seeding went out
    ghost var log: Timing

    ghost predicate Valid()
      reads this, port, port.clock
    {
      && port.Valid() && port.clock == clock && fps > 0.0
      && (finished ==> !seeded) && Booked(sends, log, 1.0 / fps, seeded, nextDeadline)
    }

    constructor (port: FakeArm, handle: Handle, cancelled: nat -> bool, fps: real)
      requires port.Valid() && fps > 0.0
      ensures Valid() && this.port == port && this.handle == handle && this.cancelled == cancelled && this.fps == fps
      ensures !seeded && !finished && nextDeadline.None? && steps == 0 && missedDeadlines == 0 && asked == 0 && polls == 0 && sends == []
    {
      this.port, this.clock, this.handle, this.cancelled, this.fps := port, port.clock, handle, cancelled, fps;
      steps, missedDeadlines, asked, polls, seeded, finished, nextDeadline, sends := 0, 0, 0, 0, false, false, None, [];
      log := Timing([], []);
    }

    /** False where seeding raises. A fresh rollout owes nothing to the last one's schedule. */
    method Seed() returns (ok: bool)
      requires Valid()
      modifies this, port
      ensures Valid() && port.sent == old(port.sent)
      ensures ok ==> seeded && !finished && nextDeadline == None && sends == [] && log == Timing([], []) && port.lifecycle == Enabled
      // Refused exactly on an arm in fault or disconnected, and on one to be energized that rests outside its limits.
      ensures ok <==> old(port.lifecycle == Enabled || (port.lifecycle == Connected && InLimits(port.positions, port.limits, 0.0)))
      ensures steps == old(steps) && asked == old(asked) && polls == old(polls) && missedDeadlines == old(missedDeadlines)
      ensures !ok ==> port.lifecycle == old(port.lifecycle)
      ensures !ok ==> seeded == old(seeded) && sends == old(sends) && log == old(log)
    {
      var state := port.ReadState();
      if state.lifecycle in {Fault, Disconnected} {
        return false;
      }
      if state.lifecycle == Connected {
        var enabled := port.Enable();
        if !enabled {
          return false;
        }
      }
      seeded, finished, nextDeadline, sends, log, ok := true, false, None, [], Timing([], []), true;
    }

    method Terminal(termination: Termination, missed: bool) returns (answer: StepAnswer)
      modifies this`finished, this`seeded
      ensures finished && !seeded
      ensures answer == Stepped(PolicyStep(steps, None, missed, Some(termination)))
    {
      finished, seeded := true, false;
      answer := Stepped(PolicyStep(steps, None, missed, Some(termination)));
    }

    /** Wait for the period since the last action to be over, or note that it already was. */
    method Pace() returns (missed: bool)
      requires Valid()
      modifies this`missedDeadlines, clock
      ensures Valid() && clock.now >= old(clock.now)
      ensures nextDeadline.Some? ==> clock.now >= nextDeadline.value
      ensures clock.manual && nextDeadline.Some? && !missed ==> clock.now == nextDeadline.value
      ensures clock.manual ==> (missed <==> nextDeadline.Some? && old(clock.now) >= nextDeadline.value)
      ensures missedDeadlines == old(missedDeadlines) + if missed then 1 else 0
    {
      missed := false;
      var now := clock.Monotonic();
      if nextDeadline.Some? {
        if now < nextDeadline.value {
          clock.Sleep(nextDeadline.value - now);
        } else {
          missed := true;
          missedDeadlines := missedDeadlines + 1;
        }
      }
    }

    /** Ask, send and book one action; a terminal one ends the seeding. */
    method Act(missed: bool) returns (answer: StepAnswer)
      requires Valid() && seeded && (nextDeadline.Some? ==> clock.now >= nextDeadline.value)
      modifies this`steps, this`asked, this`seeded, this`finished, this`nextDeadline, this`sends, this`log, port, clock
      ensures Valid() && answer.Stepped? && answer.step.missedDeadline == missed
      ensures answer.step.termination.Some? <==> answer.step.sent.None?
      ensures answer.step.termination.Some? <==> finished && !seeded
      ensures answer.step.termination.None? || answer.step.termination == Some(MotorFault) ==>
        |port.sent| == |old(port.sent)| + 1 && |sends| == |old(sends)| + 1 && old(sends) < sends
      ensures answer.step.termination.Some? && answer.step.termination != Some(MotorFault) ==>
        port.sent == old(port.sent) && sends == old(sends)
      ensures answer.step.sent.Some? ==>
        && port.sent == old(port.sent) + [answer.step.sent.value]
        && answer.step.index == old(steps) && Sends(handle.choose(old(asked)), port.limits, answer.step.sent.value)
      ensures AskEnds(answer.step.termination, handle.choose(old(asked)), |port.limits|, old(Accepting(port)), port.lifecycle == Fault)
      ensures steps == old(steps) + (|sends| - |old(sends)|) && asked == old(asked) + 1
      ensures log.starts == old(log.starts) + (if |sends| > |old(sends)| then [old(clock.now)] else []) && old(log.took) <= log.took
    {
      hide Booked, Clamped, Integrated, Sends, FakeArm.Stands;
      Unseeded(sends, log, 1.0 / fps, true, nextDeadline);
      ghost var start := clock.now;
      ghost var at;
      var failed, went;
      failed, went, at := AskAndSend(port, clock, handle.choose(asked), handle.think(asked));
      asked := asked + 1;
      var index := steps;
      if went.Some? {
        CommandGoesOut(sends, log, 1.0 / fps, nextDeadline, start, at);
        sends, log := sends + [at], Started(log, start);
        steps := steps + 1;
      }
      if failed.Some? {
        answer := Terminal(failed.value, missed);
        return;
      }
      var completed := clock.Monotonic();
      StepIsOver(old(sends), old(log), 1.0 / fps, nextDeadline, start, at, completed);
      nextDeadline := Some(completed + 1.0 / fps);
      log := Over(log, completed - start);
      answer := Stepped(PolicyStep(index, went, missed, None));
    }

    /** One action. However late the caller is, a step waits a whole period from the end of the last
        one, and exactly that when it is in time; so two actions of one seeding go out at least a period
        apart. A terminal step ends the seeding. Exactly one command went out when the step is not
        terminal, or when it terminates on a motor fault, which it then does not report. */
    method Step() returns (answer: StepAnswer)
      requires Valid()
      modifies this, port, clock
      ensures Valid() && answer.NotSeeded? == !old(seeded)
      ensures answer.NotSeeded? ==> port.sent == old(port.sent) && sends == old(sends) && log == old(log)
      ensures answer.Stepped? ==>
        && (answer.step.termination.Some? <==> answer.step.sent.None?)
        && (answer.step.termination.Some? <==> finished && !seeded)
        && (answer.step.termination.None? || answer.step.termination == Some(MotorFault) ==>
              |port.sent| == |old(port.sent)| + 1 && |sends| == |old(sends)| + 1 && old(sends) < sends)
        && (answer.step.termination.Some? && answer.step.termination != Some(MotorFault) ==> port.sent == old(port.sent) && sends == old(sends))
        && (answer.step.sent.Some? ==> port.sent == old(port.sent) + [answer.step.sent.value])
        && (answer.step.sent.Some? ==> answer.step.index == old(steps) && Sends(handle.choose(old(asked)), port.limits, answer.step.sent.value))
        && polls == old(polls) + 1 && (answer.step.termination == Some(Cancelled) <==> cancelled(polls))
        && (answer.step.termination != Some(Cancelled) ==>
              AskEnds(answer.step.termination, handle.choose(old(asked)), |port.limits|, old(Accepting(port)), port.lifecycle == Fault))
        && steps == old(steps) + (|sends| - |old(sends)|)
        && missedDeadlines == old(missedDeadlines) + (if answer.step.missedDeadline then 1 else 0)
        && (clock.manual && answer.step.termination != Some(Cancelled) ==>
              (answer.step.missedDeadline <==> old(nextDeadline.Some? && clock.now >= nextDeadline.value)))
      ensures old(log.starts) <= log.starts && old(log.took) <= log.took
      ensures clock.manual && |log.starts| > |old(log.starts)| > 0 && !answer.step.missedDeadline ==>
        log.starts[|old(log.starts)|] == old(Due(log, 1.0 / fps))
    {
      hide Paced, Follows, FakeArm.Valid, FakeArm.Stands, Due, Sends;
      if !seeded {
        return NotSeeded;
      }
      polls := polls + 1;
      if cancelled(polls) {
        answer := Terminal(Cancelled, false);
        return;
      }
      var missed := Pace();
      answer := Act(missed);
    }

    method Close(failed: bool, estopOnFailure: bool)
      requires Valid()
      modifies this`seeded, this`nextDeadline, port
      ensures Valid() && !seeded && nextDeadline.None? && port.Still() && port.sent == old(port.sent)
      ensures port.lifecycle == if old(port.lifecycle) == Enabled && failed && estopOnFailure then Connected else old(port.lifecycle)
    {
      seeded, nextDeadline := false, None;
      if port.lifecycle == Enabled {
        if failed && estopOnFailure {
          port.Estop();
        } else {
          var _ := port.HoldCurrentPosition();
        }
      }
    }
  }

  lemma Unseeded(sends: seq<real>, log: Timing, period: real, seeded: bool, deadline: Option<real>)
    requires Booked(sends, log, period, seeded, deadline)
    ensures forall d: Option<real> :: Booked(sends, log, period, false, d)
  {
  }

  /** A command that goes out after the deadline is booked, but its step is not over. */
  lemma CommandGoesOut(sends: seq<real>, log: Timing, period: real, deadline: Option<real>, start: real, at: real)
    requires Booked(sends, log, period, true, deadline) && at >= start && (deadline.Some? ==> start >= deadline.value)
    ensures forall d: Option<real> :: Booked(sends + [at], Started(log, start), period, false, d)
    ensures |log.starts| == |sends|
  {
  }

  /** Once it is, the next may start a period later. */
  lemma StepIsOver(sends: seq<real>, log: Timing, period: real, deadline: Option<real>, start: real, at: real, completed: real)
    requires Booked(sends, log, period, true, deadline) && (deadline.Some? ==> start >= deadline.value) && completed >= at >= start
    ensures Booked(sends + [at], Over(Started(log, start), completed - start), period, true, Some(completed + period))
  {
  }
}
