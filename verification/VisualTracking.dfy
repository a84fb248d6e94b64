/** `VisualTracker`: speed-locked servoing toward a target that changes every frame. */
module VisualTracking {
  import opened Reals
  import opened Contracts
  import opened FakeArmPort
  import opened Strides

  datatype Reason =
    | NoDetection | Jumped | OutsideRegion | NoFeedback | LockingOn | ArmFault | OutOfLimits | Refused | Tracking | DryRun

  datatype TrackTick = TrackTick(
    index: nat, moved: bool, reason: Reason, target: Option<seq<real>>, command: Option<seq<real>>,
    measured: seq<real>, remaining: real, lockedFrames: nat)

  datatype Answer =
    | Ticked(tick: TrackTick)
    | TrackerStopped  // raised before `start`, and ever after a stop reason
    | WrongLength     // ValueError

  datatype Rules = Rules(limits: seq<JointLimit>, lockFrames: nat, step: real, dryRun: bool) {
    ghost predicate Valid() {
      lockFrames >= 1 && step > 0.0
    }
  }

  // ---- the servo as a state machine ------------------------------------------------------------

  /** What happens to a tracker, with what the arm answered. */
  datatype Event =
    | Started(state: JointState, energized: bool)
    | Tick(target: Option<seq<real>>, reason: Reason, state: JointState, accepted: bool)
    | Halted

  datatype Servo = Servo(command: seq<real>, locked: nat, index: nat, started: bool, stopped: Option<Reason>)

  const FRESH := Servo([], 0, 0, false, None)

  predicate Live(s: Servo) {
    s.started && s.stopped.None?
  }

  predicate Healthy(state: JointState) {
    state.finite && !state.HasFault()
  }

  /** A tick that brings a usable target: feedback is good and every joint is in limits. */
  predicate Good(rules: Rules, e: Event) {
    && e.Tick? && Healthy(e.state) && e.target.Some? && |e.target.value| == |rules.limits|
    && InLimits(e.target.value, rules.limits, 0.0)
  }

  /** A tick with a target of the wrong length raises and changes nothing but the index. */
  predicate Malformed(rules: Rules, e: Event) {
    e.Tick? && Healthy(e.state) && e.target.Some? && |e.target.value| != |rules.limits|
  }

  function HoldReason(rules: Rules, e: Event): Reason
    requires e.Tick? && !Good(rules, e) && !Malformed(rules, e)
  {
    if e.state.HasFault() then ArmFault
    else if !e.state.finite then NoFeedback
    else if e.target.None? then e.reason
    else OutOfLimits
  }

  /** The command a tick would send from state `s`, if it sends one. */
  function Sends(rules: Rules, s: Servo, e: Event): Option<seq<real>> {
    if Live(s) && Good(rules, e) && s.locked + 1 >= rules.lockFrames && |s.command| == |rules.limits|
    then Some(StrideAll(s.command, e.target.value, rules.step))
    else None
  }

  function Next(rules: Rules, s: Servo, e: Event): Servo {
    match e
    case Halted => s.(locked := 0)
    case Started(state, energized) =>
      if !Healthy(state) then s else s.(command := state.positions, started := s.started || energized)
    case Tick(target, reason, state, accepted) =>
      if !Live(s) then s
      else
        var at := s.(index := s.index + 1);
        if Malformed(rules, e) then at
        else if !Good(rules, e) then
          at.(locked := 0, command := state.positions, stopped := if Healthy(state) then None else Some(HoldReason(rules, e)))
        else if Sends(rules, s, e).None? then at.(locked := s.locked + 1)
        else if rules.dryRun || accepted then at.(locked := s.locked + 1, command := Sends(rules, s, e).value)
        else at.(locked := 0, command := state.positions, stopped := Some(Refused))
  }

  function Reply(rules: Rules, s: Servo, e: Event): Answer
    requires e.Tick?
  {
    if !Live(s) then TrackerStopped
    else if Malformed(rules, e) then WrongLength
    else
      var index, measured := s.index + 1, e.state.positions;
      if !Good(rules, e) then Ticked(TrackTick(index, false, HoldReason(rules, e), None, None, measured, 0.0, 0))
      else
        var sends := Sends(rules, s, e);
        if sends.None? then Ticked(TrackTick(index, false, LockingOn, e.target, None, measured, 0.0, s.locked + 1))
        else if rules.dryRun || e.accepted then
          var reason := if rules.dryRun then DryRun else Tracking;
          Ticked(TrackTick(index, !rules.dryRun, reason, e.target, sends, measured,
                           MaxDistance(sends.value, e.target.value), s.locked + 1))
        else Ticked(TrackTick(index, false, Refused, None, None, measured, 0.0, 0))
  }

  ghost function After(rules: Rules, h: seq<Event>): Servo {
    if h == [] then FRESH else Next(rules, After(rules, h[..|h| - 1]), h[|h| - 1])
  }

  /** Event k of the history put a command on the wire (or would have, dry). */
  ghost predicate Commands(rules: Rules, h: seq<Event>, k: nat)
    requires k < |h|
  {
    && Sends(rules, After(rules, h[..k]), h[k]).Some?
    && (rules.dryRun || h[k].accepted)
  }

  ghost function CommandAt(rules: Rules, h: seq<Event>, k: nat): seq<real>
    requires k < |h| && Commands(rules, h, k)
  {
    Sends(rules, After(rules, h[..k]), h[k]).value
  }

  // Every event's joint count is the arm's.
  ghost predicate Sized(rules: Rules, h: seq<Event>) {
    forall k :: 0 <= k < |h| && !h[k].Halted? ==> |h[k].state.positions| == |rules.limits|
  }

  lemma AfterStep(rules: Rules, h: seq<Event>, k: nat)
    requires k < |h|
    ensures After(rules, h[..k + 1]) == Next(rules, After(rules, h[..k]), h[k])
  {
    assert h[..k + 1][..k] == h[..k];
  }

  lemma {:induction false} CommandIsSized(rules: Rules, h: seq<Event>, k: nat)
    requires k <= |h| && Sized(rules, h)
    ensures var s := After(rules, h[..k]);
      (s.started ==> |s.command| == |rules.limits|)
      && (!s.started ==> s.locked == 0) && (s.stopped.Some? ==> s.locked == 0)
  {
    hide InLimits;
    if k > 0 {
      CommandIsSized(rules, h, k - 1);
      AfterStep(rules, h, k - 1);
    } else {
      assert h[..0] == [];
    }
  }

  // ---- the lock ---------------------------------------------------------------------------------

  /** A miss, a refusal of the target, bad feedback or `stop`: a fresh lock is needed. */
  predicate Interrupts(rules: Rules, e: Event) {
    e.Halted? || (e.Tick? && !Good(rules, e) && !Malformed(rules, e))
  }

  ghost function GoodTicks(rules: Rules, h: seq<Event>): nat {
    if h == [] then 0 else GoodTicks(rules, h[..|h| - 1]) + if Good(rules, h[|h| - 1]) then 1 else 0
  }

  /** From event `i` on nothing interrupted, and at least `n` usable targets came. */
  ghost predicate LockedSince(rules: Rules, h: seq<Event>, i: nat, n: nat) {
    i <= |h| && (forall k :: i <= k < |h| ==> !Interrupts(rules, h[k])) && GoodTicks(rules, h[i..]) >= n
  }

  lemma {:induction false} LockCountsTargets(rules: Rules, h: seq<Event>) returns (i: nat)
    requires Sized(rules, h)
    ensures LockedSince(rules, h, i, After(rules, h).locked)
  {
    hide InLimits, Stride, StrideAll, Healthy;
    if h == [] {
      i := 0;
    } else {
      var before, e := h[..|h| - 1], h[|h| - 1];
      i := LockCountsTargets(rules, before);
      CommandIsSized(rules, h, |before|);
      assert h[i..] == before[i..] + [e] && h[i..][..|h| - 1 - i] == before[i..];
      if Interrupts(rules, e) {
        i := |h|;
        assert h[i..] == [];
      }
    }
  }

  /** No command without a lock: whenever one goes out, the last `lock_frames` targets, the
      present one included, were all usable and nothing interrupted them. */
  lemma MovesOnlyWhenLocked(rules: Rules, h: seq<Event>, k: nat) returns (i: nat)
    requires k < |h| && Sized(rules, h) && Commands(rules, h, k)
    ensures LockedSince(rules, h[..k + 1], i, rules.lockFrames)
  {
    var before, e := h[..k], h[k];
    i := LockCountsTargets(rules, before);
    var now := h[..k + 1];
    assert now[i..] == before[i..] + [e] && now[i..][..k - i] == before[i..];
  }

  /** Re-lock after every miss: between an interruption and the next command lie at least
      `lock_frames` usable targets, and nothing else interrupted. */
  lemma RelocksAfterEveryMiss(rules: Rules, h: seq<Event>, k: nat, m: nat)
    requires k < m < |h| && Sized(rules, h) && Interrupts(rules, h[k]) && Commands(rules, h, m)
    ensures GoodTicks(rules, h[k + 1..m + 1]) >= rules.lockFrames
  {
    hide Good, Interrupts, Malformed, Sends;
    var i := MovesOnlyWhenLocked(rules, h, m);
    var now := h[..m + 1];
    assert now[k] == h[k];
    assert h[k + 1..m + 1] == h[k + 1..i] + now[i..];
    GoodTicksAdd(rules, h[k + 1..i], now[i..]);
  }

  lemma {:induction false} GoodTicksAdd(rules: Rules, a: seq<Event>, b: seq<Event>)
    ensures GoodTicks(rules, a + b) == GoodTicks(rules, a) + GoodTicks(rules, b)
  {
    hide Good;
    if b == [] {
      assert a + b == a;
    } else {
      GoodTicksAdd(rules, a, b[..|b| - 1]);
      assert (a + b)[..|a + b| - 1] == a + b[..|b| - 1];
    }
  }

  /** No target, no motion: a tick without a usable target never commands; it re-seeds the command
      from the pose just measured and drops the lock. */
  lemma NoTargetNoMotion(rules: Rules, h: seq<Event>, k: nat)
    requires k < |h| && h[k].Tick? && !Good(rules, h[k])
    ensures !Commands(rules, h, k)
    ensures Live(After(rules, h[..k])) && !Malformed(rules, h[k]) ==>
      After(rules, h[..k + 1]).locked == 0 && After(rules, h[..k + 1]).command == h[k].state.positions
  {
    hide InLimits;
    AfterStep(rules, h, k);
  }

  /** `start` re-seeds the command but forgets neither a finished lock nor a stop: the very next
      usable target moves the arm if and only if the old lock count already allows it. */
  lemma RestartKeepsTheLock(rules: Rules, h: seq<Event>, start: Event, tick: Event)
    requires Sized(rules, h + [start, tick]) && rules.Valid()
    requires start.Started? && Healthy(start.state) && start.energized
    requires Good(rules, tick) && tick.accepted
    ensures Commands(rules, h + [start, tick], |h| + 1)
      <==> After(rules, h).stopped.None? && After(rules, h).locked + 1 >= rules.lockFrames
  {
    var all := h + [start, tick];
    assert all[..|h|] == h;
    AfterStep(rules, all, |h|);
    CommandIsSized(rules, all, |h| + 1);
  }

  // ---- once stopped ------------------------------------------------------------------------------

  /** A stopped tracker never commands again, whatever follows, another `start` included. */
  lemma {:induction false} StoppedForGood(rules: Rules, h: seq<Event>, i: nat, k: nat)
    requires i <= k <= |h| && After(rules, h[..i]).stopped.Some?
    ensures After(rules, h[..k]).stopped == After(rules, h[..i]).stopped
    ensures k < |h| ==> !Commands(rules, h, k) && (h[k].Tick? ==> Reply(rules, After(rules, h[..k]), h[k]) == TrackerStopped)
  {
    hide InLimits;
    if i < k {
      StoppedForGood(rules, h, i, k - 1);
      AfterStep(rules, h, k - 1);
    }
  }

  /** Some `start` found healthy feedback and got the arm energized. */
  ghost predicate WasStarted(h: seq<Event>) {
    exists j :: 0 <= j < |h| && IsStart(h[j])
  }

  predicate IsStart(e: Event) {
    e.Started? && !e.state.HasFault() && e.state.finite && e.energized
  }

  /** How many usable targets came to a started tracker since something last interrupted it. */
  ghost function UsableRun(rules: Rules, h: seq<Event>): nat {
    if h == [] then 0 else
      var before := h[..|h| - 1];
      RunAfter(rules, UsableRun(rules, before), WasStarted(before), h[|h| - 1])
  }

  function RunAfter(rules: Rules, run: nat, on: bool, e: Event): nat {
    if Interrupts(rules, e) then 0 else if on && Good(rules, e) then run + 1 else run
  }

  /** What stops a tracker: once started, a fault, missing feedback, or the refusal of a command that
      was due. */
  predicate Stops(rules: Rules, run: nat, on: bool, e: Event) {
    on && e.Tick? &&
    (e.state.HasFault() || !e.state.finite
     || (Good(rules, e) && run + 1 >= rules.lockFrames && !rules.dryRun && !e.accepted))
  }

  ghost predicate StopsAt(rules: Rules, h: seq<Event>, k: nat)
    requires k < |h|
  {
    Stops(rules, UsableRun(rules, h[..k]), WasStarted(h[..k]), h[k])
  }

  function StopReason(state: JointState): Reason {
    if state.HasFault() then ArmFault else if !state.finite then NoFeedback else Refused
  }

  /** Of the first `n` events none stopped it. */
  ghost predicate NeverStopped(rules: Rules, h: seq<Event>, n: nat)
    requires n <= |h|
  {
    forall j :: 0 <= j < n ==> !StopsAt(rules, h, j)
  }

  /** The tracker has stopped exactly if some tick since a `start` brought a fault, missing feedback or a
      refusal of a command that was due. Until then its lock counts the usable targets since the last
      interruption. */
  lemma {:induction false} StoppedExactly(rules: Rules, h: seq<Event>, n: nat)
    requires Sized(rules, h) && n <= |h|
    ensures var s := After(rules, h[..n]);
      && (s.started <==> WasStarted(h[..n])) && (s.stopped.None? <==> NeverStopped(rules, h, n))
      && (s.stopped.None? ==> s.locked == UsableRun(rules, h[..n]))
  {
    hide Good, Interrupts, After, Stops, RunAfter, WasStarted, IsStart;
    if n == 0 {
      assert h[..0] == [];
      NothingHappened(rules);
    } else {
      StoppedExactly(rules, h, n - 1);
      CommandIsSized(rules, h, n - 1);
      AfterStep(rules, h, n - 1);
      assert h[..n][..n - 1] == h[..n - 1];
      StartedStep(h[..n]);
      StopStep(rules, After(rules, h[..n - 1]), h[n - 1]);
      assert NeverStopped(rules, h, n) <==> NeverStopped(rules, h, n - 1) && !StopsAt(rules, h, n - 1);
    }
  }

  lemma NothingHappened(rules: Rules)
    ensures After(rules, []) == FRESH && UsableRun(rules, []) == 0 && !WasStarted([])
  {
  }

  lemma StartedStep(h: seq<Event>)
    requires h != []
    ensures WasStarted(h) <==> WasStarted(h[..|h| - 1]) || IsStart(h[|h| - 1])
  {
  }

  lemma StopStep(rules: Rules, s: Servo, e: Event)
    requires (s.started ==> |s.command| == |rules.limits|) && (!s.started || s.stopped.Some? ==> s.locked == 0)
    ensures var next := Next(rules, s, e);
      && (next.started <==> s.started || IsStart(e))
      && (s.stopped.Some? ==> next.stopped == s.stopped)
      && (s.stopped.None? ==> next.stopped == if Stops(rules, s.locked, s.started, e) then Some(StopReason(e.state)) else None)
      && (next.stopped.None? ==> next.locked == RunAfter(rules, s.locked, s.started, e))
      && (next.stopped.Some? && s.stopped.None? ==> next.command == e.state.positions && next.locked == 0)
  {
    hide InLimits, StrideAll;
  }

  /** The first tick that stopped it gave the reason. */
  lemma TheFirstStopGivesTheReason(rules: Rules, h: seq<Event>, k: nat)
    requires Sized(rules, h) && k < |h| && StopsAt(rules, h, k) && NeverStopped(rules, h, k)
    ensures After(rules, h).stopped == Some(StopReason(h[k].state))
  {
    hide After, Next;
    StoppedExactly(rules, h, k);
    CommandIsSized(rules, h, k);
    StopStep(rules, After(rules, h[..k]), h[k]);
    AfterStep(rules, h, k);
    StoppedForGood(rules, h, k + 1, |h|);
    assert h[..|h|] == h;
  }

  /** When a command goes out, exactly: a usable target comes to a tracker that was started and has not
      stopped, it completes the lock, and the arm takes the command or is not asked to. */
  lemma CommandsExactly(rules: Rules, h: seq<Event>, k: nat)
    requires Sized(rules, h) && k < |h|
    ensures Commands(rules, h, k) <==>
      && WasStarted(h[..k]) && NeverStopped(rules, h, k) && Good(rules, h[k])
      && UsableRun(rules, h[..k]) + 1 >= rules.lockFrames && (rules.dryRun || h[k].accepted)
  {
    hide Good, After, WasStarted, StopsAt;
    StoppedExactly(rules, h, k);
    CommandIsSized(rules, h, k);
  }

  /** How many ticks came while it was running: the index the last of them was given. */
  ghost function RunningTicks(rules: Rules, h: seq<Event>): nat {
    if h == [] then 0 else
      var before := h[..|h| - 1];
      RunningTicks(rules, before) + if h[|h| - 1].Tick? && WasStarted(before) && NeverStopped(rules, h, |before|) then 1 else 0
  }

  lemma {:induction false} TicksAreNumbered(rules: Rules, h: seq<Event>, n: nat)
    requires Sized(rules, h) && n <= |h|
    ensures After(rules, h[..n]).index == RunningTicks(rules, h[..n])
  {
    hide After, Next, NeverStopped, WasStarted;
    if n == 0 {
      assert h[..0] == [];
      NothingHappened(rules);
    } else {
      TicksAreNumbered(rules, h, n - 1);
      AfterStep(rules, h, n - 1);
      NextIsNumbered(rules, After(rules, h[..n - 1]), h[n - 1]);
      StoppedExactly(rules, h, n - 1);
      assert h[..n][..n - 1] == h[..n - 1];
      NeverStoppedBefore(rules, h, n);
    }
  }

  lemma NextIsNumbered(rules: Rules, s: Servo, e: Event)
    ensures Next(rules, s, e).index == s.index + if e.Tick? && Live(s) then 1 else 0
  {
    hide Good, Malformed, Sends;
  }

  lemma NeverStoppedBefore(rules: Rules, h: seq<Event>, n: nat)
    requires 0 < n <= |h|
    ensures NeverStopped(rules, h[..n], n - 1) == NeverStopped(rules, h, n - 1)
  {
    hide StopsAt;
    forall j | 0 <= j < n - 1 ensures StopsAt(rules, h[..n], j) == StopsAt(rules, h, j) {
      SameBefore(rules, h, n, j);
    }
  }

  lemma SameBefore(rules: Rules, h: seq<Event>, n: nat, j: nat)
    requires j < n <= |h|
    ensures StopsAt(rules, h[..n], j) == StopsAt(rules, h, j)
  {
    assert h[..n][..j] == h[..j];
  }

  /** Why a tick did not follow its target, in the order the causes are looked for; none while it locks on. */
  ghost predicate Blames(rules: Rules, run: nat, e: Event, reason: Reason)
    requires e.Tick?
  {
    if e.state.HasFault() then reason == ArmFault
    else if !e.state.finite then reason == NoFeedback
    else if e.target.None? then reason == e.reason
    else if exists m :: 0 <= m < |e.target.value| && m < |rules.limits| && !rules.limits[m].Contains(e.target.value[m], 0.0) then reason == OutOfLimits
    else if run + 1 < rules.lockFrames then reason == LockingOn
    else reason == if rules.dryRun then DryRun else if e.accepted then Tracking else Refused
  }

  /** What a tick answers: it raises exactly if the tracker is not running or the target has the wrong
      length, and otherwise reports what it measured, what it sent, why, and how far the lock has come. */
  lemma AnswersExactly(rules: Rules, h: seq<Event>, k: nat)
    requires Sized(rules, h) && k < |h| && h[k].Tick?
    ensures var e, answer := h[k], Reply(rules, After(rules, h[..k]), h[k]);
      && (answer.TrackerStopped? <==> !WasStarted(h[..k]) || !NeverStopped(rules, h, k))
      && (!answer.TrackerStopped? ==> (answer.WrongLength? <==> Malformed(rules, e)))
      && (answer.Ticked? ==>
            && Blames(rules, UsableRun(rules, h[..k]), e, answer.tick.reason)
            && answer.tick.measured == e.state.positions && answer.tick.index == RunningTicks(rules, h[..k + 1])
            && (answer.tick.moved <==> Commands(rules, h, k) && !rules.dryRun)
            && (answer.tick.command.Some? <==> Commands(rules, h, k))
            && (Commands(rules, h, k) ==> answer.tick.command.value == CommandAt(rules, h, k))
            && answer.tick.target == (if Good(rules, e) && !StopsAt(rules, h, k) then e.target else None)
            && answer.tick.lockedFrames == (if StopsAt(rules, h, k) then 0 else UsableRun(rules, h[..k + 1]))
            && answer.tick.remaining ==
                 if Commands(rules, h, k) then MaxDistance(CommandAt(rules, h, k), e.target.value) else 0.0)
  {
    hide After, WasStarted, NeverStopped, StrideAll, MaxDistance;
    StoppedExactly(rules, h, k);
    CommandIsSized(rules, h, k);
    assert h[..k + 1][..k] == h[..k];
    TicksAreNumbered(rules, h, k + 1);
    AfterStep(rules, h, k);
  }

  // ---- the speed lock ------------------------------------------------------------------------------

  /** Takes the command from feedback instead of stepping it: `start`, and every hold. */
  predicate Reseeds(rules: Rules, e: Event) {
    e.Started? || (e.Tick? && !Malformed(rules, e) && (!Good(rules, e) || !(rules.dryRun || e.accepted)))
  }

  ghost predicate NoReseed(rules: Rules, h: seq<Event>, i: nat, j: nat)
    requires i <= j <= |h|
  {
    forall k :: i <= k < j ==> !Reseeds(rules, h[k])
  }

  lemma NextStaysNear(rules: Rules, s: Servo, e: Event)
    requires rules.Valid() && !Reseeds(rules, e) && s.started && |s.command| == |rules.limits|
    ensures Next(rules, s, e).started && |Next(rules, s, e).command| == |s.command|
    ensures Within(Next(rules, s, e).command, s.command, rules.step)
  {
    hide InLimits, Stride, Healthy;
    if Next(rules, s, e).command == s.command {
      Stays(s.command, Next(rules, s, e).command, rules.step);
    } else {
      StrideNear(s.command, e.target.value, rules.step);
    }
  }

  /** Over any stretch that does not re-seed, the command moves at most one step per event. */
  lemma {:induction false} SpeedLock(rules: Rules, h: seq<Event>, i: nat, j: nat)
    requires rules.Valid() && Sized(rules, h) && i <= j <= |h| && NoReseed(rules, h, i, j)
    requires After(rules, h[..i]).started
    ensures After(rules, h[..j]).started
    ensures |After(rules, h[..j]).command| == |After(rules, h[..i]).command|
    ensures Within(After(rules, h[..j]).command, After(rules, h[..i]).command, Steps(j - i, rules.step))
  {
    hide After, Next, Reseeds, Steps;
    if i < j {
      SpeedLock(rules, h, i, j - 1);
      AfterStep(rules, h, j - 1);
      CommandIsSized(rules, h, j - 1);
      NextStaysNear(rules, After(rules, h[..j - 1]), h[j - 1]);
      OneMore(j - i, rules.step);
      WithinAdds(After(rules, h[..i]).command, After(rules, h[..j - 1]).command, After(rules, h[..j]).command,
                 Steps(j - 1 - i, rules.step), rules.step, Steps(j - i, rules.step));
    } else {
      assert Steps(j - i, rules.step) == 0.0 by { OneMore(1, rules.step); NoSteps(j - i, rules.step); }
      Stays(After(rules, h[..i]).command, After(rules, h[..j]).command, Steps(j - i, rules.step));
    }
  }

  /** In real time: two commands of such a stretch differ, joint by joint, by at most the
      maximum velocity times the time between the ticks that sent them. */
  lemma SpeedLockInTime(rules: Rules, h: seq<Event>, times: seq<real>, period: real, velocity: real, i: nat, j: nat)
    requires rules.Valid() && Sized(rules, h) && i < j < |h| == |times| && NoReseed(rules, h, i + 1, j)
    requires Commands(rules, h, i) && Commands(rules, h, j)
    requires period > 0.0 && velocity > 0.0 && rules.step == velocity * period && Paced(times, period)
    ensures Within(CommandAt(rules, h, j), CommandAt(rules, h, i), velocity * (times[j] - times[i]))
  {
    hide InLimits, StrideAll;
    SpeedLockBySteps(rules, h, i, j);
    PacedApart(times, period, i, j);
    StepsInTime(j - i, period, velocity, rules.step, times[j] - times[i]);
  }

  lemma SpeedLockBySteps(rules: Rules, h: seq<Event>, i: nat, j: nat)
    requires rules.Valid() && Sized(rules, h) && i < j < |h| && NoReseed(rules, h, i + 1, j)
    requires Commands(rules, h, i) && Commands(rules, h, j)
    ensures |CommandAt(rules, h, j)| == |CommandAt(rules, h, i)|
    ensures Within(CommandAt(rules, h, j), CommandAt(rules, h, i), Steps(j - i, rules.step))
  {
    hide InLimits, Stride, After;
    AfterStep(rules, h, i);
    CommandIsSized(rules, h, j);
    SpeedLock(rules, h, i + 1, j);
    OneMore(j - i, rules.step);
    OneStride(CommandAt(rules, h, i), After(rules, h[..j]).command, h[j].target.value, rules.step,
              Steps(j - (i + 1), rules.step), Steps(j - i, rules.step));
  }

  // ---- limits --------------------------------------------------------------------------------------

  ghost predicate InBox(pose: seq<real>, lower: seq<real>, upper: seq<real>) {
    |pose| == |lower| == |upper| && forall m :: 0 <= m < |pose| ==> lower[m] <= pose[m] <= upper[m]
  }

  /** Any box that holds the soft limits and the present command holds every later command
      until feedback re-seeds it: once in limits, in limits; from outside, never further out. */
  lemma {:induction false} CommandsStayInBox(rules: Rules, h: seq<Event>, i: nat, j: nat, lower: seq<real>, upper: seq<real>)
    requires rules.Valid() && Sized(rules, h) && i <= j <= |h| && NoReseed(rules, h, i, j)
    requires |lower| == |upper| == |rules.limits|
    requires forall m :: 0 <= m < |lower| ==> lower[m] <= rules.limits[m].lower && rules.limits[m].upper <= upper[m]
    requires After(rules, h[..i]).started && InBox(After(rules, h[..i]).command, lower, upper)
    ensures After(rules, h[..j]).started && InBox(After(rules, h[..j]).command, lower, upper)
  {
    hide Stride;
    if i < j {
      CommandsStayInBox(rules, h, i, j - 1, lower, upper);
      AfterStep(rules, h, j - 1);
      var s, c, e := After(rules, h[..j - 1]), After(rules, h[..j]).command, h[j - 1];
      if c != s.command {
        forall m | 0 <= m < |c| ensures lower[m] <= c[m] <= upper[m] {
          StrideBounds(s.command[m], e.target.value[m], rules.step);
          assert rules.limits[m].Contains(e.target.value[m], 0.0);
        }
      }
    }
  }

  // ---- convergence ---------------------------------------------------------------------------------

  /** The arm accepts every one of these ticks toward one fixed in-limits target. */
  ghost predicate Steady(rules: Rules, h: seq<Event>, from: nat, target: seq<real>) {
    forall k :: from <= k < |h| ==> Good(rules, h[k]) && h[k].target == Some(target) && h[k].accepted
  }

  /** How many of `ticks` steady ticks move, after `locked` targets already counted. */
  function Moving(rules: Rules, locked: nat, ticks: nat): nat {
    var waiting := if locked + 1 >= rules.lockFrames then 0 else rules.lockFrames - 1 - locked;
    if ticks <= waiting then 0 else ticks - waiting
  }

  /** The command after any number of steady ticks is exactly one long stride. */
  lemma {:induction false} SteadyCommand(rules: Rules, h: seq<Event>, from: nat, n: nat, target: seq<real>)
    requires rules.Valid() && Sized(rules, h) && from + n <= |h| && Steady(rules, h, from, target)
    requires |target| == |rules.limits| && Live(After(rules, h[..from]))
    ensures var s0, s := After(rules, h[..from]), After(rules, h[..from + n]);
      && Live(s) && s.locked == s0.locked + n && |s0.command| == |s.command| == |target|
      && s.command == StrideAll(s0.command, target, Steps(Moving(rules, s0.locked, n), rules.step))
  {
    hide InLimits, Stride, StrideAll, After, Steps, Sized;
    CommandIsSized(rules, h, from);
    var s0 := After(rules, h[..from]);
    if n == 0 {
      NoSteps(0, rules.step);
      StandsStill(s0.command, target, Steps(0, rules.step));
    } else {
      SteadyCommand(rules, h, from, n - 1, target);
      var s := After(rules, h[..from + n - 1]);
      assert from + n - 1 + 1 == from + n;
      AfterStep(rules, h, from + n - 1);
      var moved := Moving(rules, s0.locked, n - 1);
      if s.locked + 1 >= rules.lockFrames {
        OneMore(moved + 1, rules.step);
        AllStridesAdd(s0.command, target, Steps(moved, rules.step), rules.step, Steps(moved + 1, rules.step));
      }
    }
  }

  /** The distance still to go never grows from one steady tick to the next. */
  lemma SteadyNeverRetreats(rules: Rules, h: seq<Event>, from: nat, n: nat, target: seq<real>, i: nat)
    requires rules.Valid() && Sized(rules, h) && from + n < |h| && Steady(rules, h, from, target)
    requires |target| == |rules.limits| && Live(After(rules, h[..from])) && i < |target|
    ensures |After(rules, h[..from + n]).command| == |After(rules, h[..from + n + 1]).command| == |target|
    ensures Abs(After(rules, h[..from + n + 1]).command[i] - target[i]) <= Abs(After(rules, h[..from + n]).command[i] - target[i])
  {
    hide InLimits, Stride, After, Steps;
    SteadyCommand(rules, h, from, n, target);
    SteadyCommand(rules, h, from, n + 1, target);
    assert from + (n + 1) == from + n + 1;
    var s0 := After(rules, h[..from]);
    var few, more := Moving(rules, s0.locked, n), Moving(rules, s0.locked, n + 1);
    MoreSteps(few, more, rules.step);
    LongerIsCloser(s0.command[i], target[i], Steps(few, rules.step), Steps(more, rules.step));
  }

  /** Convergence: a fixed target `distance` away is the command itself after the lock and
      just enough whole steps to cover the distance. */
  lemma SteadyTargetIsReached(rules: Rules, h: seq<Event>, from: nat, n: nat, target: seq<real>)
    requires rules.Valid() && Sized(rules, h) && Steady(rules, h, from, target)
    requires from + rules.lockFrames - 1 + n <= |h| && |target| == |rules.limits|
    requires Live(After(rules, h[..from])) && After(rules, h[..from]).locked == 0
    requires |After(rules, h[..from]).command| == |target|
    requires Within(target, After(rules, h[..from]).command, Steps(n, rules.step))
    ensures After(rules, h[..from + rules.lockFrames - 1 + n]).command == target
  {
    hide InLimits, Stride;
    var ticks := rules.lockFrames - 1 + n;
    SteadyCommand(rules, h, from, ticks, target);
    assert from + ticks == from + rules.lockFrames - 1 + n;
    assert Moving(rules, 0, ticks) == n;
    Arrives(After(rules, h[..from]).command, target, Steps(n, rules.step));
  }

  /** An arm that keeps up: at every tick from here on it is measured where it was last commanded. */
  ghost predicate KeepsUp(rules: Rules, h: seq<Event>, from: nat) {
    forall k :: from <= k < |h| && h[k].Tick? ==> h[k].state.positions == After(rules, h[..k]).command
  }

  /** A stationary target on an arm that keeps up is arrived at: after the lock and enough whole steps
      to come within the tolerance, every tick measures the arm within tolerance of its target, so
      any number of consecutive arrivals asked for is reached in as many ticks. */
  lemma SteadyTargetIsArrivedAt(rules: Rules, h: seq<Event>, from: nat, n: nat, target: seq<real>, tolerance: real, k: nat)
    requires rules.Valid() && Sized(rules, h) && Steady(rules, h, from, target) && KeepsUp(rules, h, from)
    requires from + rules.lockFrames - 1 + n <= k < |h| && |target| == |rules.limits| && tolerance >= 0.0
    requires Live(After(rules, h[..from])) && After(rules, h[..from]).locked == 0
    requires |After(rules, h[..from]).command| == |target|
    requires Within(target, After(rules, h[..from]).command, Steps(n, rules.step) + tolerance)
    ensures var reply := Reply(rules, After(rules, h[..k]), h[k]);
      && reply.Ticked? && reply.tick.target == Some(target) && |reply.tick.measured| == |target|
      && Within(reply.tick.measured, target, tolerance)
  {
    hide InLimits, Stride, MaxDistance, StrideAll;
    var ticks := k - from;
    assert from + ticks == k;
    SteadyCommand(rules, h, from, ticks, target);
    var moved := Moving(rules, 0, ticks);
    assert moved >= n;
    MoreSteps(n, moved, rules.step);
    ComesWithin(After(rules, h[..from]).command, target, Steps(moved, rules.step), Steps(n, rules.step), tolerance);
    assert h[k].state.positions == After(rules, h[..k]).command;
  }

  // ---- the tracker itself --------------------------------------------------------------------------

  ghost predicate Startable(port: FakeArm, dryRun: bool)
    requires port.Valid()
    reads port, port.clock
  {
    port.lifecycle != Fault && (port.lifecycle == Connected && !dryRun ==> InLimits(port.positions, port.limits, 0.0))
  }

  class VisualTracker {
    const port: FakeArm
    const rateHz: real
    const maxVelocity: real
    const lockFrames: nat
    const dryRun: bool

    var command: seq<real>
    var locked: nat
    var index: nat
    var started: bool
    var stoppedReason: Option<Reason>
    ghost var history: seq<Event>

    ghost predicate Valid()
      reads this, port, port.clock
    {
      && port.Valid() && rateHz > 0.0 && maxVelocity > 0.0 && lockFrames >= 1
      && Sized(TheRules(), history)
      && Model() == After(TheRules(), history)
    }

    function Period(): (p: real)
      requires rateHz != 0.0
    {
      1.0 / rateHz
    }

    function TheRules(): Rules
      requires rateHz != 0.0
    {
      Rules(port.limits, lockFrames, maxVelocity * Period(), dryRun)
    }

    /** The two settings that make the speed lock: a tick every `1 / rate` seconds, and a step in it that the
        maximum velocity covers in that time. */
    lemma RulesAreTheSettings()
      requires rateHz > 0.0
      ensures Times(Period(), rateHz) == 1.0 && Times(TheRules().step, rateHz) == maxVelocity
      ensures TheRules() == Rules(port.limits, lockFrames, TheRules().step, dryRun)
    {
      DivCancel(1.0, rateHz);
      var p := Period();
      assert maxVelocity * p * rateHz == maxVelocity * (p * rateHz);
    }

    /** Configurations the dataclass refuses raise instead of constructing. */
    constructor (port: FakeArm, rateHz: real, maxVelocity: real, lockFrames: nat, dryRun: bool)
      requires port.Valid() && rateHz > 0.0 && maxVelocity > 0.0 && lockFrames >= 1
      ensures Valid() && history == [] && this.port == port && this.dryRun == dryRun
      ensures this.rateHz == rateHz && this.maxVelocity == maxVelocity && this.lockFrames == lockFrames
    {
      this.port, this.rateHz, this.maxVelocity, this.lockFrames, this.dryRun := port, rateHz, maxVelocity, lockFrames, dryRun;
      command, locked, index, started, stoppedReason, history := [], 0, 0, false, None, [];
    }

    ghost method Record(e: Event)
      requires rateHz != 0.0
      modifies this`history
      ensures history == old(history) + [e] && history[..|old(history)|] == old(history)
      ensures After(TheRules(), history) == Next(TheRules(), After(TheRules(), old(history)), e)
      ensures Sized(TheRules(), old(history)) && (e.Halted? || |e.state.positions| == |port.limits|) ==> Sized(TheRules(), history)
    {
      history := history + [e];
      assert history[..|old(history)|] == old(history);
    }

    /** False where the tracker raises. */
    method Start() returns (ok: bool)
      requires Valid()
      modifies this`command, this`started, this`history, port
      ensures Valid() && port.sent == old(port.sent)
      ensures |history| == |old(history)| + 1 && history[..|old(history)|] == old(history)
      ensures history[|old(history)|].Started?
      ensures ok == (Healthy(history[|old(history)|].state) && history[|old(history)|].energized)
      ensures ok ==> started && command == history[|old(history)|].state.positions && Healthy(history[|old(history)|].state)
      // It raises exactly on an arm in fault, or one to be energized that rests outside its limits.
      ensures ok <==> old(Startable(port, dryRun))
      ensures port.lifecycle == if ok && !dryRun && old(port.lifecycle) == Connected then Enabled else old(port.lifecycle)
      ensures ok && stoppedReason.None? && old(Nominal()) ==> Eager() && command == port.positions == port.targets
      ensures old(Nominal()) ==> port.positions == old(port.positions) && (InLimits(old(port.positions), port.limits, 0.0) ==> ok)
    {
      hide After, InLimits, Next, FakeArm.Stands;
      if port.lifecycle == Enabled && port.targets == port.positions { port.StandsWhereRead(); }
      var state := port.ReadState();
      assert old(Nominal()) ==> port.positions == old(port.positions);
      ok := state.finite && !state.HasFault();
      var energized := true;
      if ok && !dryRun && port.lifecycle == Connected {
        energized := port.Enable();
      }
      Record(Started(state, energized));
      StartNext(TheRules(), old(Model()), state, energized);
      if ok {
        command := state.positions;
        ok := energized;
        started := started || energized;
      }
    }

    ghost function Model(): Servo
      reads this
    {
      Servo(command, locked, index, started, stoppedReason)
    }

    /** Live, on an arm that takes its commands. */
    ghost predicate Eager()
      reads this, port
    {
      && started && stoppedReason.None? && !dryRun && port.lifecycle == Enabled
      && !port.refuseTargets && port.faultAfter.None? && port.trackingOffset == 0.0
    }

    /** An arm at rest, energized or not, that will take commands. */
    ghost predicate Nominal()
      reads this, port
    {
      && !dryRun && (port.lifecycle == Connected || (port.lifecycle == Enabled && port.targets == port.positions))
      && !port.refuseTargets && port.faultAfter.None? && port.trackingOffset == 0.0
    }

    /** What a usable target does on such an arm, read this very moment: one more towards the lock, and
        one clamped step once there is one. */
    ghost predicate Follows(target: seq<real>, was: Servo, targets: seq<real>)
      requires rateHz != 0.0 && |was.command| == |target| == |port.limits|
      reads this, port
    {
      && Eager() && locked == was.locked + 1
      && if locked < lockFrames then command == was.command && port.targets == targets
         else command == StrideAll(was.command, target, TheRules().step) && port.targets == Clamped(command, port.limits)
    }

    /** A tick that did so, and answered with what it found. */
    ghost predicate Took(target: seq<real>, was: Servo, targets: seq<real>, positions: seq<real>, answer: Answer)
      requires rateHz != 0.0
      reads this, port, port.clock
    {
      && |was.command| == |target| == |port.limits| && Follows(target, was, targets) && port.lastIntegration == port.clock.now
      && answer.Ticked? && answer.tick.target == Some(target) && answer.tick.measured == port.positions == positions
    }

    lemma TookNow(target: seq<real>, was: Servo, targets: seq<real>, positions: seq<real>, answer: Answer)
      requires rateHz != 0.0 && Took(target, was, targets, positions, answer)
      ensures answer.Ticked? && port.lastIntegration == port.clock.now
    {
    }

    ghost predicate Usable(target: Option<seq<real>>) {
      target.Some? && |target.value| == |port.limits| && InLimits(target.value, port.limits, 0.0)
    }

    method Tick(target: Option<seq<real>>, reason: Reason) returns (answer: Answer)
      requires Valid()
      modifies this`command, this`locked, this`index, this`stoppedReason, this`history, port
      ensures Valid()
      ensures |history| == |old(history)| + 1 && history[..|old(history)|] == old(history)
      ensures var e := history[|old(history)|];
        && e.Tick? && e.target == target && e.reason == reason
        && answer == Reply(TheRules(), old(Model()), e) && Model() == Next(TheRules(), old(Model()), e)
        && (old(Live(Model())) && old(port.lastIntegration) == port.clock.now ==> e.state.positions == old(port.Measured()))
      ensures port.sent == if answer.Ticked? && answer.tick.moved then old(port.sent) + [answer.tick.command.value] else old(port.sent)
      ensures answer.Ticked? && answer.tick.target.None? && !dryRun ==> port.Still()
      // On the arm itself: a live tick stops for a fault it finds and for a due command the port refuses.
      ensures old(started && stoppedReason.None? && port.lifecycle == Fault) ==> stoppedReason == Some(ArmFault)
      ensures old(started && stoppedReason.None? && port.lifecycle != Fault && port.refuseTargets && locked + 1 >= lockFrames) ==>
        Usable(target) && !dryRun ==> stoppedReason == Some(Refused)
      ensures old(Eager()) && old(port.lastIntegration) == port.clock.now && Usable(target) && |old(command)| == |port.limits| ==>
        Took(target.value, old(Model()), old(port.targets), old(port.positions), answer)
    {
      hide After, InLimits, Next, Reply, StrideAll, Clamped, Integrated, FakeArm.Stands;
      ghost var was, past := Model(), history;
      assert history[..|history|] == history;
      CommandIsSized(TheRules(), history, |history|);
      if !started || stoppedReason.Some? {
        ghost var e := Event.Tick(target, reason, JointState(port.positions, false, port.sequence, 0.0, port.lifecycle, true), false);
        RaisesStopped(TheRules(), was, e);
        Record(e);
        return TrackerStopped;
      }
      index := index + 1;
      var state := port.ReadState();
      var accepted;
      answer, accepted := Act(target, reason, state, was);
      assert history == past;
      Record(Event.Tick(target, reason, state, accepted));
    }

    /** The rest of a tick, once its feedback is in: hold, lock on, or move. */
    method Act(target: Option<seq<real>>, reason: Reason, state: JointState, ghost was: Servo)
      returns (answer: Answer, accepted: bool)
      requires port.Valid() && rateHz > 0.0 && Live(was) && Model() == was.(index := was.index + 1)
      requires |command| == |port.limits| == |state.positions| && lockFrames >= 1
      modifies this`command, this`locked, this`stoppedReason, port
      ensures port.Valid()
      ensures var e := Event.Tick(target, reason, state, accepted);
        Model() == Next(TheRules(), was, e) && answer == Reply(TheRules(), was, e)
      ensures answer.Ticked? && answer.tick.target.None? && !dryRun ==> port.Still()
      ensures port.sent == if answer.Ticked? && answer.tick.moved then old(port.sent) + [answer.tick.command.value] else old(port.sent)
      ensures old(Eager()) && old(port.lastIntegration) == port.clock.now && state.positions == old(port.positions) ==>
        Healthy(state) && Usable(target) ==>
        Took(target.value, was, old(port.targets), old(port.positions), answer)
      ensures state.HasFault() ==> stoppedReason == Some(ArmFault)
      ensures old(port.refuseTargets && locked + 1 >= lockFrames) && Healthy(state) && Usable(target) && !dryRun ==> stoppedReason == Some(Refused)
    {
      hide InLimits, MaxDistance, StrideAll, Clamped, Integrated, FakeArm.Stands;
      accepted := false;
      if state.HasFault() {
        answer := Stop(ArmFault, state.positions);
        return;
      }
      if !state.finite {
        answer := Stop(NoFeedback, state.positions);
        return;
      }
      if target.None? {
        answer := Hold(reason, state.positions);
        return;
      }
      var values := target.value;
      if |values| != |port.limits| {
        return WrongLength, accepted;
      }
      if !InLimits(values, port.limits, 0.0) {
        answer := Hold(OutOfLimits, state.positions);
        return;
      }
      locked := locked + 1;
      if locked < lockFrames {
        answer := Ticked(TrackTick(index, false, LockingOn, target, None, state.positions, 0.0, locked));
        return;
      }
      var step := maxVelocity * Period();
      var wanted := StrideAll(command, values, step);
      var remaining := MaxDistance(wanted, values);
      if dryRun {
        command := wanted;
        answer := Ticked(TrackTick(index, false, DryRun, target, Some(wanted), state.positions, remaining, locked));
        return;
      }
      accepted := port.SendTargets(wanted);
      if !accepted {
        answer := Stop(Refused, state.positions);
        return;
      }
      command := wanted;
      answer := Ticked(TrackTick(index, true, Tracking, target, Some(wanted), state.positions, remaining, locked));
    }

    /** Idempotent, and allowed before the first start; the last command is kept. */
    method Halt(hold: bool)
      requires Valid()
      modifies this`locked, this`history, port
      ensures Valid() && locked == 0 && port.sent == old(port.sent)
      ensures history == old(history) + [Halted]
      ensures if hold then port.Still() else unchanged(port)
    {
      hide After, InLimits;
      locked := 0;
      if hold && port.lifecycle == Enabled {
        var _ := port.HoldCurrentPosition();
      }
      Record(Halted);
    }

    method Hold(reason: Reason, positions: seq<real>) returns (answer: Answer)
      requires port.Valid()
      modifies this`locked, this`command, port
      ensures port.Valid() && port.sent == old(port.sent)
      ensures locked == 0 && command == positions
      ensures answer == Ticked(TrackTick(index, false, reason, None, None, positions, 0.0, 0))
      ensures if dryRun then unchanged(port) else port.Still()
    {
      locked := 0;
      command := positions;
      if !dryRun && port.lifecycle == Enabled {
        var _ := port.HoldCurrentPosition();
      }
      answer := Ticked(TrackTick(index, false, reason, None, None, positions, 0.0, 0));
    }

    method Stop(reason: Reason, positions: seq<real>) returns (answer: Answer)
      requires port.Valid()
      modifies this`locked, this`command, this`stoppedReason, port
      ensures port.Valid() && port.sent == old(port.sent)
      ensures locked == 0 && command == positions && stoppedReason == Some(reason)
      ensures answer == Ticked(TrackTick(index, false, reason, None, None, positions, 0.0, 0))
      ensures if dryRun then unchanged(port) else port.Still()
    {
      answer := Hold(reason, positions);
      stoppedReason := Some(reason);
    }
  }

  lemma RaisesExactly(rules: Rules, s: Servo, e: Event)
    requires e.Tick?
    ensures Reply(rules, s, e).TrackerStopped? <==> !Live(s)
    ensures Reply(rules, s, e).WrongLength? ==> e.target.Some? && |e.target.value| != |rules.limits|
  {
    hide InLimits;
  }

  lemma RaisesStopped(rules: Rules, s: Servo, e: Event)
    requires e.Tick? && !Live(s)
    ensures Next(rules, s, e) == s && Reply(rules, s, e) == TrackerStopped
  {
  }

  lemma StartNext(rules: Rules, s: Servo, state: JointState, energized: bool)
    ensures Next(rules, s, Started(state, energized))
      == if !Healthy(state) then s else s.(command := state.positions, started := s.started || energized)
  {
  }
}
