/** One attachment attempt: the state machine run over the robot's own handlers. */
module AttachmentRun {
  import opened Contracts
  import opened Time
  import opened FakeArmPort
  import opened AttachmentMachine
  import opened Following
  import opened Runs

  datatype Failure =
    | AbortRaised  // AttachmentAbort
    | Crashed      // any other exception

  datatype Said = Reports(report: Report) | Raises(failure: Failure)

  /** What the learned policies and the perception do and answer, call by call. */
  datatype Script = Script(
    answer: (State, nat) -> Said, action: nat -> Option<seq<real>>, pause: nat -> real, entry: nat -> Option<Failure>)
  {
    ghost predicate Valid() {
      forall s, n :: answer(s, n).Reports? ==> Answers(s, answer(s, n).report)
    }
  }

  /** `EverestAttachmentFSMHandlers`: scripted learned states around the real visual follower. */
  class Handlers {
    const port: FakeArm
    const clock: Clock
    const script: Script
    const calibration: Option<Setup>
    const rateHz: real
    const maxVelocity: real
    const lockFrames: nat

    var calls: nat
    var holds: nat
    var follower: CarabinerFollower?
    ghost var Repr: set<object>

    ghost predicate Valid()
      reads this, Repr
    {
      && {this, port, clock} <= Repr && port.clock == clock && port.Valid() && script.Valid()
      && rateHz > 0.0 && maxVelocity > 0.0 && lockFrames >= 1
      && (calibration.Some? ==>
            calibration.value.lostAfterMisses >= 1 && calibration.value.settleTicks >= 1 && calibration.value.settleTolerance > 0.0)
      && (follower != null ==>
            && {follower, follower.tracker} <= Repr && follower.tracker.port == port
            && follower.Valid() && calibration == Some(follower.setup))
    }

    constructor (port: FakeArm, script: Script, calibration: Option<Setup>, rateHz: real, maxVelocity: real, lockFrames: nat)
      requires port.Valid() && script.Valid() && rateHz > 0.0 && maxVelocity > 0.0 && lockFrames >= 1
      requires calibration.Some? ==>
        calibration.value.lostAfterMisses >= 1 && calibration.value.settleTicks >= 1 && calibration.value.settleTolerance > 0.0
      ensures Valid() && follower == null && calls == holds == 0 && fresh(Repr - {port, port.clock})
    {
      this.port, this.clock, this.script, this.calibration := port, port.clock, script, calibration;
      this.rateHz, this.maxVelocity, this.lockFrames := rateHz, maxVelocity, lockFrames;
      calls, holds, follower := 0, 0, null;
      Repr := {this, port, port.clock};
    }

    /** The follower's finished steps since this visit to SEARCH_CV began. */
    ghost function FollowLog(): seq<Seen>
      reads this, follower
    {
      if follower == null then [] else follower.log
    }

    /** A fresh tracker and follower, started. False where starting raises. */
    method Build() returns (ok: bool)
      requires Valid() && follower == null && calibration.Some?
      modifies this`follower, this`Repr, port
      ensures Valid() && fresh(Repr - old(Repr)) && port.sent == old(port.sent) && clock.now == old(clock.now)
      ensures follower != null && fresh(follower) && fresh(follower.tracker) && FollowLog() == []
      ensures follower.setup == calibration.value && !follower.tracker.dryRun && follower.tracker.lockFrames == lockFrames
      ensures follower.tracker.rateHz == rateHz && follower.tracker.maxVelocity == maxVelocity
      ensures ok <==> old(VisualTracking.Startable(port, false))
    {
      hide FakeArm.Valid;
      var tracker := new VisualTracking.VisualTracker(port, rateHz, maxVelocity, lockFrames, false);
      var built := new CarabinerFollower(calibration.value, tracker);
      ok := built.Start();
      follower := built;
      Repr := Repr + {built, tracker};
    }

    /** Leaving SEARCH_CV releases the follower and holds; entering it builds a fresh one. */
    method EnterState(state: State, previous: Option<State>) returns (failure: Option<Failure>)
      requires Valid()
      modifies Repr
      ensures Valid() && fresh(Repr - old(Repr)) && holds == old(holds) && port.sent == old(port.sent)
      ensures clock.now == old(clock.now)
      // Building crashes exactly where the tracker cannot start; otherwise the perception and the policies say.
      ensures state == SearchCV && old(follower == null && calibration.Some? && !VisualTracking.Startable(port, false)) <==> calls == old(calls)
      ensures calls == old(calls) || calls == old(calls) + 1
      ensures failure == if calls == old(calls) then Some(Crashed) else script.entry(old(calls))
      ensures state != SearchCV ==> follower == null
      ensures state == SearchCV && old(follower) != null ==> follower == old(follower)
      ensures state == SearchCV && old(follower) == null && calibration.Some? ==> follower != null
      ensures state != SearchCV && old(follower) != null ==> port.Still()
      ensures state == SearchCV && failure.None? && old(follower) == null ==> FollowLog() == []
      ensures state == SearchCV && failure.None? && old(follower) == null && follower != null ==> fresh(follower) && fresh(follower.tracker)
    {
      if state != SearchCV {
        if follower != null {
          follower.Stop(true);
          follower := null;
        }
      } else if follower == null && calibration.Some? {
        var ok := Build();
        if !ok {
          return Some(Crashed);
        }
      }
      failure := script.entry(calls);
      calls := calls + 1;
    }

    /** The policy acts on this call, and the arm takes it. */
    ghost predicate Acted()
      reads this, port
    {
      var action := script.action(calls);
      action.Some? && |action.value| == |port.limits| && port.lifecycle == Enabled && !port.refuseTargets
    }

    /** One learned action (or, for INITIAL, none) and a fresh look. */
    method Learned(state: State) returns (said: Said)
      requires Valid() && Active(state) && follower == null
      modifies this`calls, port, clock
      ensures Valid() && clock.now >= old(clock.now)
      ensures said == script.answer(state, old(calls))
      ensures said.Reports? ==> Answers(state, said.report)
      ensures calls == old(calls) + 1 && clock.now >= old(clock.now) + script.pause(old(calls))
      ensures state == Initial ==> port.sent == old(port.sent)
      ensures state != Initial ==>
        port.sent == old(port.sent) + (if old(Acted()) then [script.action(old(calls)).value] else [])
    {
      said := script.answer(state, calls);
      if state != Initial && script.action(calls).Some? {
        var _ := port.SendTargets(script.action(calls).value);
      }
      clock.Sleep(script.pause(calls));
      calls := calls + 1;
    }

    /** One visual tick. A stopped tracker is an abort; without a follower the call itself fails. */
    method Visual() returns (said: Said)
      requires Valid()
      modifies Repr
      ensures Valid() && Repr == old(Repr) && holds == old(holds) && follower == old(follower)
      ensures clock.now >= old(clock.now)
      ensures follower == null ==> said == Raises(Crashed)
      // With a follower it crashes exactly where the map has no answer, and else aborts exactly where the
      // tracker has stopped.
      ensures follower != null ==>
        && (said == Raises(Crashed) <==> follower.Breaks(old(follower.previous), follower.index))
        && (said == Raises(AbortRaised) <==> said != Raises(Crashed) && !old(VisualTracking.Live(follower.tracker.Model())))
      ensures said.Reports? ==>
        && said.report.SearchCVStep? && follower != null && calibration.Some?
        && |FollowLog()| == |old(FollowLog())| + 1
        && said.report.followed == LastAll(FollowLog(), e => Close(calibration.value, e), calibration.value.settleTicks)
        && said.report.targetVisible == !LastAll(FollowLog(), e => Missed(calibration.value, e), calibration.value.lostAfterMisses)
        && (said.report.followed ==>
              said.report.targetVisible && LastAll(FollowLog(), e => StandsAsTaught(calibration.value, e), calibration.value.settleTicks))
    {
      if follower == null {
        return Raises(Crashed);
      }
      var answer := follower.Step(None);
      match answer
      case FollowStopped => said := Raises(AbortRaised);
      case FollowBroken => said := Raises(Crashed);
      case Followed(tick) => said := Reports(SearchCVStep(tick.targetVisible, tick.followed));
    }

    method Now() returns (t: real)
      requires Valid()
      modifies clock
      ensures Valid() && t == clock.now >= old(clock.now)
    {
      t := clock.Monotonic();
    }

    method Hold()
      requires Valid()
      modifies this`holds, port
      ensures Valid() && holds == old(holds) + 1 && port.Still() && port.sent == old(port.sent)
    {
      holds := holds + 1;
      if port.lifecycle == Enabled {
        var _ := port.HoldCurrentPosition();
      }
    }
  }

  // ---- the attempt ------------------------------------------------------------------------------

  datatype Result = Result(
    finalState: State, why: Why, actions: nat, elapsed: real, resets: nat, counts: Tally, transitions: seq<Transition>)

  datatype Outcome =
    | Finished(result: Result)
    | Unhandled  // held, then the exception is re-raised

  /** No action is asked for at or past the wall-clock budget. */
  ghost predicate InTime(c: Config, log: seq<Report>, asked: seq<real>, began: real) {
    |asked| == |log| && forall k :: 0 <= k < |log| && !log[k].Observation? ==> asked[k] - began < c.maxDuration
  }

  ghost predicate Witness(setup: Setup, r: Report, seen: seq<Seen>) {
    && r.SearchCVStep?
    && r.followed == LastAll(seen, e => Close(setup, e), setup.settleTicks)
    && r.targetVisible == !LastAll(seen, e => Missed(setup, e), setup.lostAfterMisses)
    && (r.followed ==> r.targetVisible && LastAll(seen, e => StandsAsTaught(setup, e), setup.settleTicks))
  }

  /** Every visual report rests on the follower's own steps, all of them made since this visit
      to SEARCH_CV began: as many as the visit has had. */
  ghost predicate Witnessed(calibration: Option<Setup>, log: seq<Report>, evidence: seq<seq<Seen>>) {
    && |evidence| == |log|
    && forall k :: 0 <= k < |log| && log[k].SearchCVStep? ==>
         calibration.Some? && Witness(calibration.value, log[k], evidence[k]) && |evidence[k]| == CVRun(log[..k + 1])
  }

  lemma WitnessedStep(calibration: Option<Setup>, log: seq<Report>, evidence: seq<seq<Seen>>, r: Report, seen: seq<Seen>)
    requires Witnessed(calibration, log, evidence)
    requires r.SearchCVStep? ==> calibration.Some? && Witness(calibration.value, r, seen) && |seen| == CVRun(log) + 1
    ensures Witnessed(calibration, log + [r], evidence + [seen])
  {
    hide Witness;
    var more := log + [r];
    forall k | 0 <= k < |more| && more[k].SearchCVStep?
      ensures calibration.Some? && Witness(calibration.value, more[k], (evidence + [seen])[k]) && |(evidence + [seen])[k]| == CVRun(more[..k + 1])
    {
      if k < |log| {
        assert more[..k + 1] == log[..k + 1];
      } else {
        assert more[..k + 1] == more && more[..|log|] == log;
      }
    }
  }

  /** Hence the follower is patient: arrival is never reported before `settle_ticks` steps of the
      very visit that reports it. */
  lemma WitnessedIsPatient(setup: Setup, log: seq<Report>, evidence: seq<seq<Seen>>)
    requires Witnessed(Some(setup), log, evidence)
    ensures FollowsPatiently(log, setup.settleTicks)
  {
    forall k | 0 <= k < |log| && log[k].SearchCVStep? && log[k].followed ensures CVRun(log[..k + 1]) >= setup.settleTicks {
      assert Witness(setup, log[k], evidence[k]);
    }
  }

  /** The budget a failure names is exactly used up, and the ones checked before it are not. */
  ghost predicate Spent(c: Config, log: seq<Report>, state: State, why: Why, elapsed: real) {
    match why
    case TotalBudget => ActionsOf(log) == c.maxTotal
    case WallClock => ActionsOf(log) < c.maxTotal && elapsed >= c.maxDuration
    case StateBudget => ActionsOf(log) < c.maxTotal && UsedUp(c, log[CycleStart(log)..], state)
    case _ => false
  }

  /** The state was stepped exactly as often as one cycle allows. */
  ghost predicate UsedUp(c: Config, cycle: seq<Report>, state: State) {
    match state
    case SearchRL => StepsOf(cycle, SearchRL) == c.maxSearchRL
    case SearchCV => StepsOf(cycle, SearchCV) == c.maxSearchCV
    case ClipRL => StepsOf(cycle, ClipRL) == c.maxClipRL
    case _ => false
  }

  ghost predicate Fails(c: Config, log: seq<Report>, m: Machine, final: State, ts: seq<Transition>, elapsed: real) {
    && final == Failed && Acting(m.state) && ts != [] && Spent(c, log, m.state, ts[|ts| - 1].why, elapsed)
    && ts == m.transitions + [Transition(m.state, Failed, ts[|ts| - 1].why, m.actions)]
  }

  /** How an attempt may end, given the reports it got. */
  ghost predicate EndsAs(c: Config, log: seq<Report>, unentered: bool, r: Result)
    requires Legal(c, log)
  {
    var m := After(c, log);
    && Keeps(m, r) && r.transitions != [] && r.why == r.transitions[|r.transitions| - 1].why
    && match r.finalState
       case Success => m.state == Success && r.transitions == m.transitions
       case Failed => Fails(c, log, m, Failed, r.transitions, r.elapsed)
       case Aborted => exists source :: AbortLeaves(c, log, unentered, source) && r.transitions == AbortFrom(source, m).transitions
       case _ => false
  }

  /** The state an abort is logged from: the running one or, if the state that the last report led to could
      not be entered, the one it was to leave. */
  ghost predicate AbortLeaves(c: Config, log: seq<Report>, unentered: bool, source: State)
    requires Legal(c, log)
  {
    && Active(After(c, log).state) && Active(source)
    && if unentered then
         log != [] && (LastStep(c, log); source == After(c, log[..|log| - 1]).state) && source != After(c, log).state
       else source == After(c, log).state
  }

  predicate Keeps(m: Machine, r: Result) {
    r.actions == m.actions && r.resets == m.resets && r.counts == m.counts
  }

  class AttachmentFSM {
    const handlers: Handlers
    const config: Config
    ghost var log: seq<Report>
    ghost var asked: seq<real>
    ghost var evidence: seq<seq<Seen>>
    ghost var began: real
    ghost var unentered: bool  // the state that the last report led to could not be entered
    ghost var failed: Option<Failure>  // what the handlers raised last

    constructor (handlers: Handlers, config: Config)
      requires config.Valid()
      ensures this.handlers == handlers && this.config == config && log == [] && asked == [] && evidence == []
    {
      this.handlers, this.config := handlers, config;
      log, asked, evidence, began, unentered, failed := [], [], [], 0.0, false, None;
    }

    ghost predicate Ready()
      reads this, handlers, handlers.Repr
    {
      && handlers.Valid() && {handlers, handlers.port, handlers.clock} <= handlers.Repr && this !in handlers.Repr
      && config.Valid()
    }

    /** The visit's own evidence: while SEARCH_CV runs, the follower has taken exactly its steps. */
    ghost predicate Visiting(state: State)
      reads this, handlers, handlers.follower
    {
      && (state != SearchCV ==> handlers.follower == null)
      && (state == SearchCV && handlers.follower != null ==> |handlers.FollowLog()| == CVRun(log))
    }

    /** Ask the handlers of `state` for one report, and keep what it rests on. */
    method Ask(state: State, ghost now: real) returns (said: Said)
      requires Ready() && Active(state) && Visiting(state)
      requires Witnessed(handlers.calibration, log, evidence) && |asked| == |log|
      modifies this, handlers.Repr
      ensures Ready() && fresh(handlers.Repr - old(handlers.Repr)) && handlers.holds == old(handlers.holds)
      ensures handlers.clock.now >= old(handlers.clock.now)
      ensures said.Raises? ==> log == old(log) && asked == old(asked) && evidence == old(evidence)
      ensures said.Reports? ==>
        Answers(state, said.report) && log == old(log) + [said.report] && asked == old(asked) + [now] && |evidence| == |old(evidence)| + 1
      ensures said.Reports? ==> Visiting(state)
      ensures began == old(began)
      ensures state != SearchCV ==>
        said == handlers.script.answer(state, old(handlers.calls)) && handlers.calls == old(handlers.calls) + 1
      ensures state == SearchCV && handlers.follower == null ==> said == Raises(Crashed)
      ensures Witnessed(handlers.calibration, log, evidence)
    {
      hide Legal, Witness, LastAll, Witnessed, VisualTracking.Live, Handlers.Acted, CarabinerFollower.Breaks, Handlers.Valid, Close, Missed,
        StandsAsTaught;
      if state == SearchCV {
        said := handlers.Visual();
      } else {
        said := handlers.Learned(state);
      }
      if said.Reports? {
        ghost var seen := handlers.FollowLog();
        if said.report.SearchCVStep? {
          WitnessHolds(handlers.calibration, said.report, seen);
        }
        WitnessedStep(handlers.calibration, log, evidence, said.report, seen);
        ghost var past := log;
        log, asked, evidence := log + [said.report], asked + [now], evidence + [seen];
        assert log[..|log| - 1] == past;
      }
    }

    /** Enter a state from another; what that raises is kept. */
    method Enter(next: State, from: State) returns (raised: Option<Failure>)
      requires Ready() && Active(next) && !unentered && failed.None?
      requires next == SearchCV ==> handlers.follower == null && CVRun(log) == 0
      modifies this`unentered, this`failed, handlers.Repr
      ensures Ready() && fresh(handlers.Repr - old(handlers.Repr)) && handlers.holds == old(handlers.holds)
      ensures handlers.clock.now == old(handlers.clock.now)
      ensures raised.None? ==> Visiting(next)
      ensures failed == raised && unentered == raised.Some?
      ensures raised.Some? ==> raised == Some(Crashed) || (handlers.calls > 0 && raised == handlers.script.entry(handlers.calls - 1))
    {
      hide Handlers.Valid, VisualTracking.Startable, CVRun;
      raised := handlers.EnterState(next, Some(from));
      unentered, failed := raised.Some?, raised;
    }

    /** One turn of the loop, its budget checked: ask, count, and move. Where entering a state raises,
        the machine returned is still in the state being left. */
    method Turn(m: Machine, now: real, ghost started: real) returns (n: Machine, raised: Option<Failure>)
      requires Ready() && Legal(config, log) && m == After(config, log) && Active(m.state) && Visiting(m.state)
      requires HasBudget(config, m) && (m.state != Initial ==> now - started < config.maxDuration)
      requires Witnessed(handlers.calibration, log, evidence) && InTime(config, log, asked, started)
      modifies this, handlers.Repr
      ensures Ready() && fresh(handlers.Repr - old(handlers.Repr)) && handlers.holds == old(handlers.holds) && began == old(began)
      ensures handlers.clock.now >= old(handlers.clock.now)
      ensures Legal(config, log) && Witnessed(handlers.calibration, log, evidence) && InTime(config, log, asked, started)
      ensures n == After(config, log).(state := n.state)
      ensures raised.None? ==> n == After(config, log) && Visiting(n.state) && (Active(n.state) || n.state == Success)
      ensures raised.None? ==> if m.state == Initial then n.state != Initial && n.actions == m.actions else n.actions == m.actions + 1
      ensures log == old(log) || (|log| == |old(log)| + 1 && log[..|old(log)|] == old(log))
      ensures failed == raised
      ensures raised.Some? ==> n.state == m.state && AbortLeaves(config, log, unentered, n.state)
      ensures raised.Some? ==> (unentered <==> log != old(log))
      // What is raised is what the handlers raised.
      ensures raised.Some? && !unentered && m.state != SearchCV ==>
        handlers.script.answer(m.state, old(handlers.calls)) == Raises(raised.value)
      ensures raised.Some? && unentered ==> raised == Some(Crashed) || (handlers.calls > 0 && raised == handlers.script.entry(handlers.calls - 1))
    {
      hide Legal, After, Witness, Handlers.Valid, Handlers.FollowLog, Witnessed, VisualTracking.Startable, Handlers.Acted, HasBudget;
      ghost var before, times := log, asked;
      n, raised := m, None;
      var said := Ask(m.state, now);
      unentered, failed := false, None;
      if said.Raises? {
        raised, failed := Some(said.failure), Some(said.failure);
        return;
      }
      LegalStep(config, before, said.report);
      var next := Decide(config, m.state, said.report);
      if m.state != Initial {
        n := n.(actions := n.actions + 1, counts := n.counts.Plus(m.state), cycle := n.cycle.Plus(m.state));
      }
      if next != m.state {
        if next == Initial {
          n := n.(cycle := ZERO, resets := n.resets + 1);
        }
        n := n.(transitions := n.transitions + [Transition(m.state, next, Reported(said.report), n.actions)]);
        if Active(next) {
          raised := Enter(next, m.state);
          if raised.Some? {
            return;
          }
        }
        n := n.(state := next);
      }
    }

    /** The loop: until a terminal state, an exhausted budget or a raised handler. */
    method Loop(started: real) returns (m: Machine, raised: Option<Failure>)
      requires Ready() && log == [] && asked == [] && evidence == []
      modifies this, handlers.Repr
      ensures Ready() && fresh(handlers.Repr - old(handlers.Repr)) && handlers.holds == old(handlers.holds) && began == old(began)
      ensures handlers.clock.now >= old(handlers.clock.now)
      ensures Legal(config, log) && Witnessed(handlers.calibration, log, evidence) && InTime(config, log, asked, started)
      ensures failed == raised
      ensures var a := After(config, log);
        && m.actions == a.actions && m.counts == a.counts && m.resets == a.resets
        && if raised.Some? then m.transitions == a.transitions && AbortLeaves(config, log, unentered, m.state)
           else if m.state == Success then m == a
           else Fails(config, log, a, m.state, m.transitions, handlers.clock.now - started)
    {
      hide Legal, After, Witness, Handlers.Valid, Handlers.FollowLog, Witnessed, Spent;
      Beginning(config);
      m, unentered := START, false;
      NothingToWitness(handlers.calibration);
      raised := handlers.EnterState(Initial, None);
      failed := raised;
      while raised.None? && Active(m.state)
        invariant Ready() && fresh(handlers.Repr - old(handlers.Repr)) && handlers.holds == old(handlers.holds) && began == old(began)
        invariant handlers.clock.now >= old(handlers.clock.now)
        invariant Legal(config, log) && Witnessed(handlers.calibration, log, evidence)
        invariant InTime(config, log, asked, started)
        invariant m == After(config, log).(state := m.state)
        invariant raised.None? ==> m == After(config, log) && Visiting(m.state) && (Active(m.state) || m.state == Success)
        invariant failed == raised
        invariant raised.Some? ==> AbortLeaves(config, log, unentered, m.state)
        decreases raised.None?, config.maxTotal - m.actions, m.state == Initial
      {
        var now := handlers.Now();
        if m.state != Initial {
          var spent := Exhausted(config, m, now - started);
          if spent.Some? {
            BudgetIsSpent(config, log, now - started);
            m := m.(state := Failed, transitions := m.transitions + [Transition(m.state, Failed, spent.value, m.actions)]);
            return;
          }
        }
        m, raised := Turn(m, now, started);
      }
    }

    method Run() returns (outcome: Outcome)
      requires Ready()
      modifies this, handlers.Repr
      ensures Ready()
      ensures Legal(config, log) && Witnessed(handlers.calibration, log, evidence)
      ensures InTime(config, log, asked, began) && began >= old(handlers.clock.now)
      ensures outcome.Finished? ==> EndsAs(config, log, unentered, outcome.result)
      // A crash is re-raised, an abort ends the attempt, and nothing else does either; all but success hold.
      ensures outcome.Unhandled? <==> failed == Some(Crashed)
      ensures outcome.Finished? ==> (outcome.result.finalState == Aborted <==> failed == Some(AbortRaised))
      ensures outcome.Unhandled? || outcome.result.finalState != Success ==> handlers.port.Still()
      ensures handlers.holds == old(handlers.holds) + if outcome.Finished? && outcome.result.finalState == Success then 0 else 1
    {
      hide Legal, After, Witnessed, Handlers.Valid;
      var started := handlers.Now();
      log, asked, evidence, began := [], [], [], started;
      var m, raised := Loop(started);
      if raised.Some? && raised.value.Crashed? {
        handlers.Hold();
        return Unhandled;
      }
      TraceIsAPath(config, log);
      if raised.Some? {
        m := m.(state := Aborted, transitions := m.transitions + [Transition(m.state, Aborted, Abort, m.actions)]);
      }
      if m.state != Success {
        handlers.Hold();
      }
      var end := handlers.Now();
      var ts := m.transitions;
      outcome := Finished(Result(m.state, ts[|ts| - 1].why, m.actions, end - started, m.resets, m.counts, ts));
    }
  }

  lemma NothingToWitness(calibration: Option<Setup>)
    ensures Witnessed(calibration, [], [])
  {
  }

  lemma BudgetIsSpent(c: Config, log: seq<Report>, elapsed: real)
    requires Legal(c, log) && Acting(After(c, log).state) && Exhausted(c, After(c, log), elapsed).Some?
    ensures Spent(c, log, After(c, log).state, Exhausted(c, After(c, log), elapsed).value, elapsed)
  {
    hide Legal, After, Allowed, StepsOf, ActionsOf;
    ActionsAreAccounted(c, log);
    BooksAreTheLog(c, log);
    assert WithinCycles(c, After(c, log), After(c, log).state);
  }

  lemma WitnessHolds(calibration: Option<Setup>, r: Report, seen: seq<Seen>)
    requires r.SearchCVStep? && calibration.Some?
    requires r.followed == LastAll(seen, e => Close(calibration.value, e), calibration.value.settleTicks)
    requires r.targetVisible == !LastAll(seen, e => Missed(calibration.value, e), calibration.value.lostAfterMisses)
    requires r.followed ==> r.targetVisible && LastAll(seen, e => StandsAsTaught(calibration.value, e), calibration.value.settleTicks)
    ensures Witness(calibration.value, r, seen)
  {
  }

  // ---- what every attempt keeps ---------------------------------------------------------------------

  /** The actions are the sum of the counts, within the total and every state's budget a cycle; and
      the trace leads from INITIAL to the final state through as many resets as are reported, in the
      order of the actions, unbroken but for the link an abort may add. */
  ghost predicate Balances(c: Config, r: Result) {
    && r.transitions != []
    && var last := |r.transitions| - 1;
    && r.actions == Sum(r.counts) <= c.maxTotal
    && (forall s :: Acting(s) ==> r.counts.Of(s) <= Allowed(r.resets + 1, c.Budget(s)))
    && r.transitions[0].source == Initial && r.transitions[last].destination == r.finalState
    && ResetsIn(r.transitions) == r.resets && InActionOrder(r.transitions)
    && Contiguous(r.transitions[..last]) && (r.finalState != Aborted ==> Contiguous(r.transitions))
  }

  /** The books of a finished attempt balance, however it ended, and are what the reports add up to. */
  lemma AttemptIsAccounted(c: Config, log: seq<Report>, unentered: bool, r: Result)
    requires Legal(c, log) && EndsAs(c, log, unentered, r)
    ensures Balances(c, r)
    ensures r.actions == ActionsOf(log) && r.resets == ResetsOf(log)
    ensures forall s :: Acting(s) ==> r.counts.Of(s) == StepsOf(log, s)
  {
    hide After, Legal, Allowed, Spent, Contiguous, InActionOrder, Traced, EndsAs, Accounted, StepsOf, ActionsOf, ResetsOf;
    var m := After(c, log);
    ActionsAreAccounted(c, log);
    BooksAreTheLog(c, log);
    TraceIsAPath(c, log);
    BooksOf(c, m);
    EndingAppends(c, log, unentered, r);
  }

  lemma BooksOf(c: Config, m: Machine)
    requires Accounted(c, m)
    ensures m.actions == Sum(m.counts) <= c.maxTotal
  {
  }

  lemma EndingAppends(c: Config, log: seq<Report>, unentered: bool, r: Result)
    requires Legal(c, log) && EndsAs(c, log, unentered, r) && Traced(After(c, log))
    ensures r.transitions != []
    ensures r.actions == After(c, log).actions && r.counts == After(c, log).counts && r.resets == After(c, log).resets
    ensures r.transitions[0].source == Initial && ResetsIn(r.transitions) == ResetsIn(After(c, log).transitions)
    ensures r.finalState != Aborted ==> Contiguous(r.transitions)
    ensures Contiguous(r.transitions[..|r.transitions| - 1]) && InActionOrder(r.transitions)
    ensures r.transitions[|r.transitions| - 1].destination == r.finalState
  {
    hide After, Legal, Spent, Contiguous, InActionOrder, ResetsIn;
    var m := After(c, log);
    if unentered && r.finalState == Aborted {
      TraceGrows(c, log);
    }
    if r.finalState != Success {
      OneMoreLink(m.transitions, r.transitions[|r.transitions| - 1]);
    } else {
      WithoutTheLast(m.transitions);
    }
  }

  lemma WithoutTheLast(ts: seq<Transition>)
    requires ts != [] && Contiguous(ts)
    ensures Contiguous(ts[..|ts| - 1])
  {
  }

  /** The handover across follower and state machine: whenever CLIP_RL is entered with visual
      following on, the follower had just seen the carabiner, and on each of the last `settle_ticks` ticks
      of this visit every joint the map names for that frame was measured within tolerance of it. */
  lemma ClipIsHandedAnArrivedArm(setup: Setup, c: Config, log: seq<Report>, evidence: seq<seq<Seen>>, k: nat)
    requires Legal(c, log) && c.useSearchCV && Witnessed(Some(setup), log, evidence) && k < |log|
    requires (LegalPrefix(c, log, k); After(c, log[..k]).state != ClipRL)
    requires (LegalPrefix(c, log, k + 1); After(c, log[..k + 1]).state == ClipRL)
    ensures log[k] == SearchCVStep(true, true)
    ensures LastAll(evidence[k], e => Close(setup, e), setup.settleTicks)
    ensures LastAll(evidence[k], e => StandsAsTaught(setup, e), setup.settleTicks)
    ensures !LastAll(evidence[k], e => Missed(setup, e), setup.lostAfterMisses)
    ensures |evidence[k]| == CVRun(log[..k + 1]) >= setup.settleTicks
  {
    hide After, Legal, HasBudget, LastAll;
    LegalPrefix(c, log, k + 1);
    LastStep(c, log[..k + 1]);
    assert log[..k + 1][..k] == log[..k];
    assert Witness(setup, log[k], evidence[k]);
    assert |evidence[k]| >= setup.settleTicks by { LastAllNeeds(evidence[k], e => Close(setup, e), setup.settleTicks); }
  }

  lemma LastAllNeeds(seen: seq<Seen>, holds: Seen -> bool, n: nat)
    requires LastAll(seen, holds, n)
    ensures |seen| >= n
  {
  }

  /** And so every reset of an attempt cost a clip action and `settle_ticks` visual ones. */
  lemma AttemptResetsAreCostly(setup: Setup, c: Config, log: seq<Report>, evidence: seq<seq<Seen>>, unentered: bool, r: Result)
    requires Legal(c, log) && EndsAs(c, log, unentered, r) && c.useSearchCV && Witnessed(Some(setup), log, evidence)
    ensures Allowed(r.resets, setup.settleTicks + 1) <= r.actions
  {
    hide After, Legal, Witnessed, Allowed;
    WitnessedIsPatient(setup, log, evidence);
    ResetsAreCostly(c, log, setup.settleTicks);
  }
}
