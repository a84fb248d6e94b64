/** `TeleoperationController._run`: the follower chases the leader, clamped by measured tick time. */
module Teleoperation {
  import opened Reals
  import opened Contracts
  import opened Time
  import opened FakeArmPort
  import opened Strides

  datatype Settings = Settings(
    limits: seq<JointLimit>, clampJoints: set<nat>, maxVelocity: real, period: real, outOfRangeTimeout: real)
  {
    ghost predicate Valid() {
      maxVelocity > 0.0 && period > 0.0
    }
  }

  /** What happens to the loop: a pass that follows, a pass spent paused, and the two halves of
      `toggle_pause`. Pausing re-seeds the command when every joint reported a position. */
  datatype Event = Sample(started: real, values: seq<real>) | Idle(started: real)
    | Paused(pose: Option<seq<real>>) | Resumed

  /** `_command`, the local `last_step`, and the excursion timer with what it has reported. */
  datatype Follow = Follow(
    command: seq<real>, lastStep: real, since: Option<real>, sustained: set<nat>, paused: bool)

  /** The joints whose mapped target had to be clamped, the ones clamped by design aside. */
  function OutOfRange(c: Settings, values: seq<real>): set<nat>
    requires |values| == |c.limits|
  {
    set i: nat | i < |values| && !c.limits[i].Contains(values[i], 0.0) && i !in c.clampJoints
  }

  /** The velocity clamp over the measured tick time, capped at four periods. */
  function TickStep(c: Settings, started: real, lastStep: real): real {
    Reach(c.maxVelocity, Min(started - lastStep, 4.0 * c.period))
  }

  predicate Fits(c: Settings, x: Event) {
    && (x.Sample? ==> |x.values| == |c.limits|)
    && (x.Paused? && x.pose.Some? ==> |x.pose.value| == |c.limits|)
  }

  function Next(c: Settings, s: Follow, x: Event): Follow
    requires Fits(c, x) && |c.limits| == |s.command|
  {
    match x
    case Sample(_, _) => Followed(c, s, x)
    case Idle(started) => s.(lastStep := started)
    case Paused(pose) =>
      Follow(if pose.Some? then pose.value else s.command, s.lastStep, None, {}, true)
    case Resumed => s.(paused := false)
  }

  function Followed(c: Settings, s: Follow, x: Event): Follow
    requires x.Sample? && Fits(c, x) && |c.limits| == |s.command|
  {
    var out := OutOfRange(c, x.values);
    var since := if out == {} then None else if s.since.None? then Some(x.started) else s.since;
    var sustained := if out == {} then {}
      else if s.since.Some? && x.started - s.since.value > c.outOfRangeTimeout then out else s.sustained;
    var command := StrideAll(s.command, Clamped(x.values, c.limits), TickStep(c, x.started, s.lastStep));
    Follow(command, x.started, since, sustained, s.paused)
  }

  ghost predicate AllFit(c: Settings, log: seq<Event>) {
    forall k :: 0 <= k < |log| ==> Fits(c, log[k])
  }

  ghost predicate Sized(c: Settings, s0: Follow, log: seq<Event>) {
    |s0.command| == |c.limits| && AllFit(c, log)
  }

  ghost function After(c: Settings, s0: Follow, log: seq<Event>): (r: Follow)
    requires Sized(c, s0, log)
    ensures |r.command| == |c.limits|
  {
    if log == [] then s0 else Next(c, After(c, s0, log[..|log| - 1]), log[|log| - 1])
  }

  /** The loop follows while it is not paused, and time does not run backwards between passes. */
  predicate Allowed(s: Follow, x: Event) {
    match x
    case Sample(started, _) => !s.paused && started >= s.lastStep
    case Idle(started) => s.paused && started >= s.lastStep
    case Paused(_) => !s.paused
    case Resumed => s.paused
  }

  /** A run of the loop: every event comes when it can. */
  ghost predicate Runs(c: Settings, s0: Follow, log: seq<Event>) {
    Sized(c, s0, log) && forall k :: 0 <= k < |log| ==> AllowedAt(c, s0, log, k)
  }

  ghost predicate AllowedAt(c: Settings, s0: Follow, log: seq<Event>, k: nat)
    requires Sized(c, s0, log) && k < |log|
  {
    Allowed(After(c, s0, log[..k]), log[k])
  }

  lemma AfterStep(c: Settings, s0: Follow, log: seq<Event>, k: nat)
    requires Sized(c, s0, log) && k < |log|
    ensures After(c, s0, log[..k + 1]) == Next(c, After(c, s0, log[..k]), log[k])
  {
    assert log[..k + 1][..k] == log[..k];
  }

  lemma RunsBefore(c: Settings, s0: Follow, log: seq<Event>, n: nat)
    requires Runs(c, s0, log) && n <= |log|
    ensures Runs(c, s0, log[..n])
  {
    hide After, Allowed;
    forall k | 0 <= k < n ensures AllowedAt(c, s0, log[..n], k) {
      assert log[..n][..k] == log[..k] && AllowedAt(c, s0, log, k);
    }
  }

  /** Where the run stands after its first `n` events. */
  ghost function At(c: Settings, s0: Follow, log: seq<Event>, n: nat): (r: Follow)
    requires Sized(c, s0, log) && n <= |log|
    ensures |r.command| == |c.limits|
  {
    After(c, s0, log[..n])
  }

  lemma {:induction false} NeverBack(c: Settings, s0: Follow, log: seq<Event>, i: nat, j: nat)
    requires Runs(c, s0, log) && i <= j <= |log|
    ensures At(c, s0, log, i).lastStep <= At(c, s0, log, j).lastStep
  {
    hide Clamped, StrideAll, OutOfRange, TickStep, After;
    if i < j {
      NeverBack(c, s0, log, i, j - 1);
      AfterStep(c, s0, log, j - 1);
      assert AllowedAt(c, s0, log, j - 1);
    }
  }

  // ---- speed -----------------------------------------------------------------------------------------

  lemma TickStepBounds(c: Settings, started: real, lastStep: real)
    requires c.Valid() && started >= lastStep
    ensures 0.0 <= TickStep(c, started, lastStep) <= Reach(c.maxVelocity, started - lastStep)
    ensures TickStep(c, started, lastStep) <= Reach(c.maxVelocity, 4.0 * c.period)
  {
    var time := Min(started - lastStep, 4.0 * c.period);
    MulMonotone(0.0, time, c.maxVelocity);
    MulMonotone(time, started - lastStep, c.maxVelocity);
    MulMonotone(time, 4.0 * c.period, c.maxVelocity);
  }

  /** One tick moves the command at most the velocity times the tick, and never more than four
      nominal periods' worth. */
  lemma TickMoves(c: Settings, s: Follow, x: Event)
    requires c.Valid() && x.Sample? && Fits(c, x) && |c.limits| == |s.command| && x.started >= s.lastStep
    ensures Within(Next(c, s, x).command, s.command, Reach(c.maxVelocity, x.started - s.lastStep))
    ensures Within(Next(c, s, x).command, s.command, Reach(c.maxVelocity, 4.0 * c.period))
  {
    hide Clamped, OutOfRange, Stride, TickStep, Reach;
    TickStepBounds(c, x.started, s.lastStep);
    var wanted, step := Clamped(x.values, c.limits), TickStep(c, x.started, s.lastStep);
    forall i | 0 <= i < |s.command| ensures Abs(Next(c, s, x).command[i] - s.command[i]) <= step {
      StrideBounds(s.command[i], wanted[i], step);
    }
  }

  /** One tick moves every joint straight to where the leader asks, as near as its limits let it be, all the way if the velocity over the
      tick allows, over at most four nominal periods, and by the whole of that step otherwise. */
  lemma TickGoesAsFarAsItMay(c: Settings, s: Follow, x: Event, i: nat)
    requires c.Valid() && x.Sample? && Fits(c, x) && |c.limits| == |s.command| && x.started >= s.lastStep && i < |s.command|
    requires c.limits[i].lower <= c.limits[i].upper
    ensures var a, b, limit, value := s.command[i], Next(c, s, x).command[i], c.limits[i], x.values[i];
      var wanted := if value < limit.lower then limit.lower else if value > limit.upper then limit.upper else value;
      var most := c.maxVelocity * if x.started - s.lastStep <= 4.0 * c.period then x.started - s.lastStep else 4.0 * c.period;
      && Abs(b - a) + Abs(wanted - b) == Abs(wanted - a)
      && Abs(b - a) == if Abs(wanted - a) <= most then Abs(wanted - a) else most
  {
    hide OutOfRange, Stride;
    TickStepBounds(c, x.started, s.lastStep);
    StrideIsExact(s.command[i], c.limits[i].Clamp(x.values[i], 0.0), TickStep(c, x.started, s.lastStep));
  }

  /** When the loop last looked: the last pass, followed or paused; before the first, when it began. */
  ghost function LastPass(log: seq<Event>, began: real): real {
    if log == [] then began
    else match log[|log| - 1]
      case Sample(started, _) => started
      case Idle(started) => started
      case _ => LastPass(log[..|log| - 1], began)
  }

  /** A tick is measured from the pass before it: paused passes keep the clock going. */
  lemma {:induction false} TicksAreMeasuredFromTheLastPass(c: Settings, s0: Follow, log: seq<Event>)
    requires Sized(c, s0, log)
    ensures After(c, s0, log).lastStep == LastPass(log, s0.lastStep)
  {
    hide Clamped, StrideAll, OutOfRange, TickStep;
    if log != [] {
      TicksAreMeasuredFromTheLastPass(c, s0, log[..|log| - 1]);
    }
  }

  /** Whatever does not re-seed the command moves it no further than the time it takes allows. */
  lemma EventMoves(c: Settings, s: Follow, x: Event)
    requires c.Valid() && Fits(c, x) && |c.limits| == |s.command| && Allowed(s, x) && !Reseeds(x)
    ensures Within(Next(c, s, x).command, s.command, Reach(c.maxVelocity, Next(c, s, x).lastStep - s.lastStep))
  {
    hide Followed;
    if x.Sample? {
      TickMoves(c, s, x);
      assert Next(c, s, x).lastStep == x.started by { FollowedAt(c, s, x); }
    } else {
      MulMonotone(0.0, Next(c, s, x).lastStep - s.lastStep, c.maxVelocity);
      Stays(s.command, Next(c, s, x).command, Reach(c.maxVelocity, Next(c, s, x).lastStep - s.lastStep));
    }
  }

  lemma FollowedAt(c: Settings, s: Follow, x: Event)
    requires x.Sample? && Fits(c, x) && |c.limits| == |s.command|
    ensures Followed(c, s, x).lastStep == x.started && Followed(c, s, x).paused == s.paused
  {
  }

  lemma ReachAdds(v: real, t: real, u: real, total: real)
    requires total == t + u
    ensures Reach(v, total) == Reach(v, t) + Reach(v, u)
  {
  }

  lemma NoReach(v: real, t: real)
    requires t == 0.0
    ensures Reach(v, t) == 0.0
  {
    assert v * t == v * 0.0;
  }

  /** A pause that could read every joint: the command becomes the measured pose. */
  predicate Reseeds(x: Event) {
    x.Paused? && x.pose.Some?
  }

  /** Between two points of a run no joint's command has outrun the configured velocity. */
  ghost predicate Bounded(c: Settings, s0: Follow, log: seq<Event>, i: nat, j: nat)
    requires Sized(c, s0, log) && i <= j <= |log|
  {
    var s, t := At(c, s0, log, i), At(c, s0, log, j);
    Within(t.command, s.command, Reach(c.maxVelocity, t.lastStep - s.lastStep))
  }

  /** The pose a pause takes over is one the command could have moved to since point `i`. */
  ghost predicate ReseedsInReach(c: Settings, s0: Follow, log: seq<Event>, i: nat, k: nat)
    requires Sized(c, s0, log) && i <= k < |log|
  {
    var s, t := At(c, s0, log, i), At(c, s0, log, k);
    Reseeds(log[k]) ==> Within(log[k].pose.value, s.command, Reach(c.maxVelocity, t.lastStep - s.lastStep))
  }

  /** However ticks stall or overrun, the command stays speed bounded from any point of a run on if
      and only if every pause after it re-seeds the command within the velocity's reach. */
  lemma SpeedIsKeptExactly(c: Settings, s0: Follow, log: seq<Event>, i: nat)
    requires c.Valid() && Runs(c, s0, log) && i <= |log|
    ensures (forall j :: i <= j <= |log| ==> Bounded(c, s0, log, i, j))
      <==> (forall k :: i <= k < |log| ==> ReseedsInReach(c, s0, log, i, k))
  {
    hide After, Next, Reach, AllowedAt;
    if forall j :: i <= j <= |log| ==> Bounded(c, s0, log, i, j) {
      forall k | i <= k < |log| ensures ReseedsInReach(c, s0, log, i, k) {
        if Reseeds(log[k]) {
          assert Bounded(c, s0, log, i, k + 1);
          AfterStep(c, s0, log, k);
          PauseTakesOver(c, At(c, s0, log, k), log[k]);
        }
      }
    }
    if forall k :: i <= k < |log| ==> ReseedsInReach(c, s0, log, i, k) {
      forall j | i <= j <= |log| ensures Bounded(c, s0, log, i, j) {
        ReachableStaysBounded(c, s0, log, i, j);
      }
    }
  }

  lemma PauseTakesOver(c: Settings, s: Follow, x: Event)
    requires Reseeds(x) && Fits(c, x) && |c.limits| == |s.command|
    ensures Next(c, s, x).command == x.pose.value && Next(c, s, x).lastStep == s.lastStep
  {
  }

  lemma {:induction false} ReachableStaysBounded(c: Settings, s0: Follow, log: seq<Event>, i: nat, j: nat)
    requires c.Valid() && Runs(c, s0, log) && i <= j <= |log|
    requires forall k :: i <= k < j ==> ReseedsInReach(c, s0, log, i, k)
    ensures Bounded(c, s0, log, i, j)
  {
    hide After, Next, Reach, Allowed;
    var s, v := At(c, s0, log, i), c.maxVelocity;
    if i == j {
      NoReach(v, 0.0);
      Stays(s.command, s.command, Reach(v, s.lastStep - s.lastStep));
    } else {
      var t, u := At(c, s0, log, j - 1), At(c, s0, log, j);
      AfterStep(c, s0, log, j - 1);
      assert ReseedsInReach(c, s0, log, i, j - 1) && AllowedAt(c, s0, log, j - 1);
      if Reseeds(log[j - 1]) {
        PauseTakesOver(c, t, log[j - 1]);
      } else {
        ReachableStaysBounded(c, s0, log, i, j - 1);
        EventMoves(c, t, log[j - 1]);
        ReachAdds(v, t.lastStep - s.lastStep, u.lastStep - t.lastStep, u.lastStep - s.lastStep);
        WithinAdds(s.command, t.command, u.command, Reach(v, t.lastStep - s.lastStep),
                   Reach(v, u.lastStep - t.lastStep), Reach(v, u.lastStep - s.lastStep));
      }
    }
  }

  /** Over any stretch in which no pause re-seeds, no joint's command moves faster than the
      configured velocity in real time. */
  lemma FollowingIsSpeedBounded(c: Settings, s0: Follow, log: seq<Event>, i: nat, j: nat)
    requires c.Valid() && Runs(c, s0, log) && i <= j <= |log|
    requires forall k :: i <= k < j ==> !Reseeds(log[k])
    ensures At(c, s0, log, i).lastStep <= At(c, s0, log, j).lastStep && Bounded(c, s0, log, i, j)
  {
    hide After, Next, Reach, Within;
    NeverBack(c, s0, log, i, j);
    ReachableStaysBounded(c, s0, log, i, j);
  }

  /** What the leader asks when it stands at either end of every joint's range. */
  ghost function Ends(c: Settings, upper: bool): (r: seq<real>)
    ensures |r| == |c.limits|
  {
    seq(|c.limits|, i requires 0 <= i < |c.limits| => if upper then c.limits[i].upper else c.limits[i].lower)
  }

  ghost predicate Keeps(c: Settings, s: Follow, started: real, values: seq<real>, last: seq<real>, most: real)
    requires |s.command| == |last| == |values| == |c.limits|
  {
    Within(Next(c, s, Sample(started, values)).command, last, most)
  }

  /** The next command keeps to `most` of the last one sent, wherever the leader stands. */
  ghost predicate KeepsForEveryLeader(c: Settings, s: Follow, started: real, last: seq<real>, most: real)
    requires |s.command| == |last| == |c.limits|
  {
    forall values :: |values| == |c.limits| ==> Keeps(c, s, started, values, last, most)
  }

  /** After a pause took over another pose than the last command sent: the next command keeps to any
      bound on the step from that last command, whatever the leader does, exactly when it does so
      with the leader at both ends of the range. */
  lemma NextCommandKeepsExactly(c: Settings, s: Follow, started: real, last: seq<real>, most: real)
    requires c.Valid() && |s.command| == |last| == |c.limits| && started >= s.lastStep
    requires forall i :: 0 <= i < |c.limits| ==> c.limits[i].lower <= c.limits[i].upper
    ensures KeepsForEveryLeader(c, s, started, last, most)
      <==> forall upper: bool :: Keeps(c, s, started, Ends(c, upper), last, most)
  {
    hide Keeps, Ends;
    if forall upper: bool :: Keeps(c, s, started, Ends(c, upper), last, most) {
      forall values | |values| == |c.limits|
        ensures Keeps(c, s, started, values, last, most)
      {
        BetweenTheEnds(c, s, started, values, last, most);
      }
    }
  }

  lemma BetweenTheEnds(c: Settings, s: Follow, started: real, values: seq<real>, last: seq<real>, most: real)
    requires c.Valid() && |s.command| == |last| == |c.limits| == |values| && started >= s.lastStep
    requires forall i :: 0 <= i < |c.limits| ==> c.limits[i].lower <= c.limits[i].upper
    requires forall upper: bool :: Keeps(c, s, started, Ends(c, upper), last, most)
    ensures Keeps(c, s, started, values, last, most)
  {
    hide OutOfRange, TickStep, Reach, Stride;
    var low, high := Next(c, s, Sample(started, Ends(c, false))).command, Next(c, s, Sample(started, Ends(c, true))).command;
    var step, wanted := TickStep(c, started, s.lastStep), Clamped(values, c.limits);
    TickStepBounds(c, started, s.lastStep);
    assert Keeps(c, s, started, Ends(c, false), last, most) && Keeps(c, s, started, Ends(c, true), last, most);
    forall i | 0 <= i < |last| ensures Abs(Next(c, s, Sample(started, values)).command[i] - last[i]) <= most {
      StrideIsMonotone(s.command[i], c.limits[i].lower, wanted[i], step);
      StrideIsMonotone(s.command[i], wanted[i], c.limits[i].upper, step);
      assert Abs(low[i] - last[i]) <= most && Abs(high[i] - last[i]) <= most;
    }
  }

  lemma StrideIsMonotone(current: real, a: real, b: real, step: real)
    requires a <= b && step >= 0.0
    ensures Stride(current, a, step) <= Stride(current, b, step)
  {
  }

  /** One joint, its command ahead of a slow arm: pausing and resuming between two passes throws the
      command back by the whole lag, many times what the velocity allows in that time. */
  lemma APauseCanJump(limit: JointLimit) returns (c: Settings, s0: Follow, log: seq<Event>)
    requires limit.lower <= 0.0 && limit.upper >= 1.0
    ensures c.Valid() && c.limits == [limit] && Runs(c, s0, log) && |log| == 3 && log[2].Sample?
    ensures At(c, s0, log, 3).lastStep - At(c, s0, log, 0).lastStep == 0.04
    ensures !Bounded(c, s0, log, 0, 3) && At(c, s0, log, 0).command[0] - At(c, s0, log, 3).command[0] == 0.99
  {
    hide OutOfRange;
    c := Settings([limit], {}, 0.25, 0.02, 2.0);
    s0 := Follow([1.0], 0.0, None, {}, false);
    log := [Paused(Some([0.0])), Resumed, Sample(0.04, [1.0])];
    AfterStep(c, s0, log, 0);
    AfterStep(c, s0, log, 1);
    AfterStep(c, s0, log, 2);
    assert AllowedAt(c, s0, log, 0) && AllowedAt(c, s0, log, 1) && AllowedAt(c, s0, log, 2);
    assert TickStep(c, 0.04, 0.0) == 0.01;
    assert At(c, s0, log, 3).command == [0.01];
  }

  // ---- excursions ---------------------------------------------------------------------------------------

  /** From event `i` on, the loop followed on every pass with some joint out of range, and nobody paused it. */
  ghost predicate SomeOutSince(c: Settings, log: seq<Event>, i: nat)
    requires AllFit(c, log)
  {
    i < |log| && forall k :: i <= k < |log| ==> log[k].Sample? && OutOfRange(c, log[k].values) != {}
  }

  /** What the timer and the report mean after a whole run. */
  ghost predicate TimesExcursion(c: Settings, s: Follow, log: seq<Event>)
    requires AllFit(c, log)
  {
    && (s.since.None? ==> s.sustained == {})
    && (s.paused ==> s.since.None?)
    && (s.since.Some? ==> exists i :: 0 <= i < |log| && SomeOutSince(c, log, i) && log[i].started == s.since.value)
    && (s.sustained != {} ==> s.since.Some? && exists j :: Reports(c, s, log, j))
  }

  ghost predicate Reports(c: Settings, s: Follow, log: seq<Event>, j: int)
    requires AllFit(c, log)
  {
    && 0 <= j < |log| && log[j].Sample? && s.since.Some?
    && s.sustained == OutOfRange(c, log[j].values) && log[j].started - s.since.value > c.outOfRangeTimeout
  }

  /** A run begins with the timer clear and the loop following. */
  ghost predicate Begins(c: Settings, s0: Follow, log: seq<Event>) {
    Runs(c, s0, log) && s0.since.None? && s0.sustained == {} && !s0.paused
  }

  /** A sustained excursion is reported only after some joint was out of range on every pass, with no
      pause in between, for longer than the timeout; and it names the joints that were out on one
      pass past it. */
  lemma {:induction false} SustainedMeans(c: Settings, s0: Follow, log: seq<Event>)
    requires Begins(c, s0, log)
    ensures TimesExcursion(c, After(c, s0, log), log)
  {
    hide Clamped, StrideAll, OutOfRange, AllowedAt;
    if log != [] {
      var n := |log| - 1;
      var before, x := log[..n], log[n];
      RunsBefore(c, s0, log, n);
      SustainedMeans(c, s0, before);
      var s, t := After(c, s0, before), After(c, s0, log);
      assert log == before + [x];
      MayCome(c, s0, log, n);
      if t.since.Some? && s.since.Some? {
        var i :| 0 <= i < |before| && SomeOutSince(c, before, i) && before[i].started == s.since.value;
        assert log[i] == before[i] && SomeOutSince(c, log, i);
      } else if t.since.Some? {
        assert log[n].started == t.since.value && SomeOutSince(c, log, n);
      }
      if t.sustained != {} && t.sustained == s.sustained && s.since == t.since {
        var j :| Reports(c, s, before, j);
        assert log[j] == before[j] && Reports(c, t, log, j);
      } else if t.sustained != {} {
        assert Reports(c, t, log, n);
      }
    }
  }

  /** For longer than the timeout, up to now. */
  ghost predicate OutTooLong(c: Settings, log: seq<Event>)
    requires AllFit(c, log)
  {
    exists i :: 0 <= i < |log| && SomeOutSince(c, log, i) && Started(log[|log| - 1]) - Started(log[i]) > c.outOfRangeTimeout
  }

  function Started(x: Event): real {
    match x case Sample(started, _) => started case Idle(started) => started case _ => 0.0
  }

  /** The excursion timer and the report, exactly: the timer names the pass since which some joint has been
      out of range; the report names the joints that are out now, if that has lasted longer than the
      timeout, and nothing otherwise. */
  ghost predicate ReportsExactly(c: Settings, s: Follow, log: seq<Event>)
    requires AllFit(c, log)
  {
    && (s.paused ==> s.since.None?)
    && (s.since.None? ==> forall i :: 0 <= i < |log| ==> !SomeOutSince(c, log, i))
    && (s.since.Some? ==> exists i :: 0 <= i < |log| && SomeOutSince(c, log, i) && s.since == Some(Started(log[i]))
                                      && (i > 0 ==> !SomeOutSince(c, log, i - 1)))
    && s.sustained == (if OutTooLong(c, log) then OutNow(c, log) else {})
  }

  ghost function OutNow(c: Settings, log: seq<Event>): set<nat>
    requires AllFit(c, log)
  {
    if log == [] || !log[|log| - 1].Sample? then {} else OutOfRange(c, log[|log| - 1].values)
  }

  lemma {:induction false} ExcursionsAreReportedExactly(c: Settings, s0: Follow, log: seq<Event>)
    requires Begins(c, s0, log) && c.outOfRangeTimeout >= 0.0
    ensures ReportsExactly(c, After(c, s0, log), log)
  {
    hide Clamped, StrideAll, OutOfRange, AllowedAt, ReportsExactly, After, Next;
    if log == [] {
      NothingReported(c, s0);
    } else {
      var n := |log| - 1;
      RunsBefore(c, s0, log, n);
      ExcursionsAreReportedExactly(c, s0, log[..n]);
      MayCome(c, s0, log, n);
      AfterStep(c, s0, log, n);
      assert log[..n + 1] == log;
      SamplesInOrder(c, s0, log);
      ReportsStep(c, After(c, s0, log[..n]), log);
    }
  }

  lemma NothingReported(c: Settings, s0: Follow)
    requires s0.since.None? && s0.sustained == {} && !s0.paused && Sized(c, s0, [])
    ensures ReportsExactly(c, After(c, s0, []), [])
  {
  }

  ghost predicate InOrder(log: seq<Event>) {
    forall i, j :: 0 <= i <= j < |log| && log[i].Sample? && log[j].Sample? ==> log[i].started <= log[j].started
  }

  lemma SamplesInOrder(c: Settings, s0: Follow, log: seq<Event>)
    requires Runs(c, s0, log)
    ensures InOrder(log)
  {
    hide After, AllowedAt, Followed;
    forall i, j | 0 <= i <= j < |log| && log[i].Sample? && log[j].Sample? ensures log[i].started <= log[j].started {
      AfterStep(c, s0, log, i);
      AfterStep(c, s0, log, j);
      FollowedAt(c, At(c, s0, log, i), log[i]);
      FollowedAt(c, At(c, s0, log, j), log[j]);
      NeverBack(c, s0, log, i + 1, j + 1);
    }
  }

  lemma ReportsStep(c: Settings, s: Follow, log: seq<Event>)
    requires log != [] && AllFit(c, log) && |s.command| == |c.limits| && InOrder(log) && c.outOfRangeTimeout >= 0.0
    requires ReportsExactly(c, s, log[..|log| - 1]) && Allowed(s, log[|log| - 1])
    ensures ReportsExactly(c, Next(c, s, log[|log| - 1]), log)
  {
    hide Clamped, StrideAll, OutOfRange, TickStep;
    var n := |log| - 1;
    var x := log[n];
    if !x.Sample? || OutOfRange(c, x.values) == {} {
      forall i | 0 <= i < |log| ensures !SomeOutSince(c, log, i) {
      }
    } else if s.since.Some? {
      StillOut(c, s, log);
    } else {
      NewlyOut(c, s, log);
    }
  }

  lemma NewlyOut(c: Settings, s: Follow, log: seq<Event>)
    requires log != [] && AllFit(c, log) && |s.command| == |c.limits| && InOrder(log) && c.outOfRangeTimeout >= 0.0
    requires log[|log| - 1].Sample? && OutOfRange(c, log[|log| - 1].values) != {} && !s.paused && s.since.None?
    requires ReportsExactly(c, s, log[..|log| - 1])
    ensures ReportsExactly(c, Next(c, s, log[|log| - 1]), log)
  {
    hide Clamped, StrideAll, OutOfRange, TickStep, SomeOutSince;
    var n := |log| - 1;
    OutAtLast(c, log);
    if n > 0 { OutGrows(c, log, n - 1); }
    EarliestIsLongest(c, log, n);
  }

  lemma OutAtLast(c: Settings, log: seq<Event>)
    requires log != [] && AllFit(c, log) && log[|log| - 1].Sample? && OutOfRange(c, log[|log| - 1].values) != {}
    ensures SomeOutSince(c, log, |log| - 1)
  {
  }

  lemma StillOut(c: Settings, s: Follow, log: seq<Event>)
    requires log != [] && AllFit(c, log) && |s.command| == |c.limits| && InOrder(log) && c.outOfRangeTimeout >= 0.0
    requires log[|log| - 1].Sample? && OutOfRange(c, log[|log| - 1].values) != {} && !s.paused && s.since.Some?
    requires ReportsExactly(c, s, log[..|log| - 1])
    ensures ReportsExactly(c, Next(c, s, log[|log| - 1]), log)
  {
    hide Clamped, StrideAll, OutOfRange, TickStep, SomeOutSince;
    var before := log[..|log| - 1];
    var i :| 0 <= i < |before| && SomeOutSince(c, before, i) && s.since == Some(Started(before[i])) && (i > 0 ==> !SomeOutSince(c, before, i - 1));
    OutGrows(c, log, i);
    if i > 0 { OutGrows(c, log, i - 1); }
    EarliestIsLongest(c, log, i);
    EarliestIsLongest(c, before, i);
    LastIsLater(c, log, i);
  }

  lemma LastIsLater(c: Settings, log: seq<Event>, i: nat)
    requires AllFit(c, log) && InOrder(log) && i < |log| - 1 && SomeOutSince(c, log, i)
    ensures Started(log[|log| - 2]) <= Started(log[|log| - 1])
  {
    hide OutOfRange;
  }

  lemma OutGrows(c: Settings, log: seq<Event>, i: nat)
    requires AllFit(c, log) && i < |log| - 1 && log[|log| - 1].Sample? && OutOfRange(c, log[|log| - 1].values) != {}
    ensures SomeOutSince(c, log, i) <==> SomeOutSince(c, log[..|log| - 1], i)
  {
    hide OutOfRange;
    var before := log[..|log| - 1];
    if SomeOutSince(c, log, i) {
      forall k | i <= k < |before| ensures before[k].Sample? && OutOfRange(c, before[k].values) != {} {
        assert before[k] == log[k];
      }
    }
    if SomeOutSince(c, before, i) {
      forall k | i <= k < |log| ensures log[k].Sample? && OutOfRange(c, log[k].values) != {} {
        if k < |before| { assert before[k] == log[k]; }
      }
    }
  }

  /** The excursion that began first has lasted longest. */
  lemma EarliestIsLongest(c: Settings, log: seq<Event>, i: nat)
    requires AllFit(c, log) && InOrder(log) && i < |log| && SomeOutSince(c, log, i) && (i > 0 ==> !SomeOutSince(c, log, i - 1))
    ensures OutTooLong(c, log) <==> Started(log[|log| - 1]) - Started(log[i]) > c.outOfRangeTimeout
  {
    hide SomeOutSince;
    if j :| 0 <= j < |log| && SomeOutSince(c, log, j) && Started(log[|log| - 1]) - Started(log[j]) > c.outOfRangeTimeout {
      if j < i {
        StillOutLater(c, log, j, i - 1);
      } else {
        StillOutLater(c, log, j, j);
        StillOutLater(c, log, i, i);
      }
    }
  }

  lemma StillOutLater(c: Settings, log: seq<Event>, i: nat, k: nat)
    requires AllFit(c, log) && SomeOutSince(c, log, i) && i <= k < |log|
    ensures SomeOutSince(c, log, k) && log[k].Sample?
  {
    hide OutOfRange;
  }

  lemma MayCome(c: Settings, s0: Follow, log: seq<Event>, k: nat)
    requires Runs(c, s0, log) && k < |log|
    ensures Allowed(After(c, s0, log[..k]), log[k])
  {
    assert AllowedAt(c, s0, log, k);
  }

  /** The loop followed from pass i to pass j, for longer than the timeout, with joint `x` out of
      range on every one of them. */
  ghost predicate StayedOut(c: Settings, log: seq<Event>, x: nat, i: nat, j: nat)
    requires AllFit(c, log)
  {
    && i <= j < |log|
    && (forall k :: i <= k <= j ==> log[k].Sample? && x in OutOfRange(c, log[k].values))
    && log[j].started - log[i].started > c.outOfRangeTimeout
  }

  /** Every joint the report names has itself stayed out of range for the timeout. */
  ghost predicate Truthful(c: Settings, s: Follow, log: seq<Event>)
    requires AllFit(c, log)
  {
    forall x :: x in s.sustained ==> exists i, j :: StayedOut(c, log, x, i, j)
  }

  ghost predicate AlwaysTruthful(c: Settings) {
    forall s0: Follow, log: seq<Event> :: Begins(c, s0, log) ==> Truthful(c, After(c, s0, log), log)
  }

  predicate Reportable(c: Settings, i: nat) {
    i < |c.limits| && i !in c.clampJoints
  }

  /** One timer for all joints: "joints that have stayed clamped for the timeout" holds of every run
      if and only if at most one joint of the arm can be reported at all. */
  lemma OneTimerServesOneJoint(c: Settings)
    requires c.outOfRangeTimeout >= 0.0 && forall i :: 0 <= i < |c.limits| ==> c.limits[i].lower <= c.limits[i].upper
    ensures AlwaysTruthful(c) <==> forall i, j :: Reportable(c, i) && Reportable(c, j) ==> i == j
  {
    hide AllowedAt, After;
    if forall i, j :: Reportable(c, i) && Reportable(c, j) ==> i == j {
      forall s0: Follow, log: seq<Event> | Begins(c, s0, log) ensures Truthful(c, After(c, s0, log), log) {
        SoleJointIsTruthful(c, s0, log);
      }
    } else {
      var i, j :| Reportable(c, i) && Reportable(c, j) && i != j;
      var s0, a, b := NewcomerRun(c, i, j);
      assert |s0.command| == |c.limits|;
      ANewcomerIsReportedAtOnce(c, s0, a, b, i, j);
      assert Begins(c, s0, [a, b]);
    }
  }

  lemma SoleJointIsTruthful(c: Settings, s0: Follow, log: seq<Event>)
    requires c.outOfRangeTimeout >= 0.0 && Begins(c, s0, log)
    requires forall i, j :: Reportable(c, i) && Reportable(c, j) ==> i == j
    ensures Truthful(c, After(c, s0, log), log)
  {
    hide After, OutOfRange, AllowedAt;
    SustainedMeans(c, s0, log);
    var s := After(c, s0, log);
    forall x | x in s.sustained ensures exists i, j :: StayedOut(c, log, x, i, j) {
      var i :| 0 <= i < |log| && SomeOutSince(c, log, i) && log[i].started == s.since.value;
      var j :| Reports(c, s, log, j);
      NotBefore(c, s0, log, i, j);
      forall k | i <= k <= j ensures log[k].Sample? && x in OutOfRange(c, log[k].values) {
        SoleJoint(c, log[k].values, log[j].values, x);
      }
      assert StayedOut(c, log, x, i, j);
    }
  }

  lemma SoleJoint(c: Settings, values: seq<real>, other: seq<real>, x: nat)
    requires |values| == |other| == |c.limits| && OutOfRange(c, values) != {} && x in OutOfRange(c, other)
    requires forall i, j :: Reportable(c, i) && Reportable(c, j) ==> i == j
    ensures x in OutOfRange(c, values)
  {
    var y :| y in OutOfRange(c, values);
    assert Reportable(c, x) && Reportable(c, y);
  }

  lemma NotBefore(c: Settings, s0: Follow, log: seq<Event>, i: nat, j: nat)
    requires Runs(c, s0, log) && i < |log| && j < |log| && log[i].Sample? && log[j].Sample?
    requires log[j].started > log[i].started
    ensures i < j
  {
    hide After, AllowedAt, Followed;
    AfterStep(c, s0, log, i);
    AfterStep(c, s0, log, j);
    FollowedAt(c, At(c, s0, log, i), log[i]);
    FollowedAt(c, At(c, s0, log, j), log[j]);
    if j <= i {
      NeverBack(c, s0, log, j + 1, i + 1);
    }
  }

  /** A pose in limits but for one joint. */
  function AllButOne(c: Settings, out: nat): (r: seq<real>)
    ensures |r| == |c.limits|
  {
    seq(|c.limits|, i requires 0 <= i < |c.limits| => if i == out then c.limits[i].upper + 1.0 else c.limits[i].lower)
  }

  lemma OnlyThatJointIsOut(c: Settings, out: nat)
    requires Reportable(c, out) && forall i :: 0 <= i < |c.limits| ==> c.limits[i].lower <= c.limits[i].upper
    ensures OutOfRange(c, AllButOne(c, out)) == {out}
  {
    forall i: nat ensures i in OutOfRange(c, AllButOne(c, out)) <==> i == out {
    }
  }

  lemma NewcomerRun(c: Settings, i: nat, j: nat) returns (s0: Follow, a: Event, b: Event)
    requires c.outOfRangeTimeout >= 0.0 && Reportable(c, i) && Reportable(c, j)
    requires forall k :: 0 <= k < |c.limits| ==> c.limits[k].lower <= c.limits[k].upper
    ensures a.Sample? && b.Sample? && |a.values| == |b.values| == |c.limits| && Begins(c, s0, [a, b])
    ensures OutOfRange(c, a.values) == {i} && OutOfRange(c, b.values) == {j} && b.started - a.started > c.outOfRangeTimeout
  {
    hide OutOfRange;
    OnlyThatJointIsOut(c, i);
    OnlyThatJointIsOut(c, j);
    s0 := Follow(AllButOne(c, i), 0.0, None, {}, false);
    a, b := Sample(0.0, AllButOne(c, i)), Sample(c.outOfRangeTimeout + 1.0, AllButOne(c, j));
    assert [a, b][..0] == [] && [a, b][..1] == [a] && [a][..0] == [];
    assert After(c, s0, [a]) == Next(c, s0, a);
    assert AllowedAt(c, s0, [a, b], 0) && AllowedAt(c, s0, [a, b], 1);
  }

  /** A joint is reported as a sustained excursion on its first tick out of range, when another
      joint's excursion ran into its own. */
  lemma ANewcomerIsReportedAtOnce(c: Settings, s0: Follow, a: Event, b: Event, i: nat, j: nat)
    requires a.Sample? && b.Sample? && |a.values| == |b.values| == |c.limits| == |s0.command| && s0.since.None? && s0.sustained == {}
    requires OutOfRange(c, a.values) == {i} && OutOfRange(c, b.values) == {j} && i != j
    requires b.started - a.started > c.outOfRangeTimeout >= 0.0
    ensures Sized(c, s0, [a, b])
    ensures After(c, s0, [a, b]).sustained == {j} && j !in OutOfRange(c, a.values)
    ensures !Truthful(c, After(c, s0, [a, b]), [a, b])
  {
    hide Clamped, StrideAll, OutOfRange;
    var log := [a, b];
    assert log[..1] == [a] && [a][..0] == [];
    assert After(c, s0, [a]) == Next(c, s0, a);
    assert After(c, s0, log) == Next(c, Next(c, s0, a), b);
    assert j in After(c, s0, log).sustained;
    forall n: nat, m: nat ensures !StayedOut(c, log, j, n, m) {
      assert log[0] == a && log[1] == b;
    }
  }

  // ---- the loop -----------------------------------------------------------------------------------------

  /** What a pass of the loop meets: how often the pause was toggled since the pass before, and the
      leader's reading, if it can be had. */
  datatype Input = Input(toggles: nat, leader: Option<seq<real>>)

  class TeleoperationController {
    const follower: FakeArm
    const clock: Clock
    const settings: Settings
    const input: nat -> Input
    var command: seq<real>
    var clamped: set<nat>
    var sustained: set<nat>
    var outOfRangeSince: Option<real>
    var paused: bool
    ghost var log: seq<Event>

    ghost predicate Valid()
      reads follower, follower.clock
    {
      follower.Valid() && follower.clock == clock && settings.limits == follower.limits && settings.Valid()
    }

    constructor (follower: FakeArm, settings: Settings, input: nat -> Input, measured: seq<real>)
      requires follower.Valid() && settings.limits == follower.limits && settings.Valid()
      ensures Valid() && this.follower == follower && this.settings == settings && this.input == input
      ensures command == measured && !paused && outOfRangeSince.None? && clamped == sustained == {} && log == []
    {
      this.follower, this.clock, this.settings, this.input := follower, follower.clock, settings, input;
      command, clamped, sustained, outOfRangeSince, paused, log := measured, {}, {}, None, false, [];
    }

    ghost function Model(lastStep: real): Follow
      reads this
    {
      Follow(command, lastStep, outOfRangeSince, sustained, paused)
    }

    /** Pausing forgets the excursion, freezes the arm and takes over where it is measured to be;
        resuming only lets the loop go on. */
    method TogglePause(ghost lastStep: real) returns (ghost x: Event)
      requires Valid() && |command| == |settings.limits|
      modifies this`command, this`clamped, this`sustained, this`outOfRangeSince, this`paused, this`log, follower
      ensures Valid() && follower.sent == old(follower.sent) && paused == !old(paused)
      ensures Fits(settings, x) && Allowed(old(Model(lastStep)), x) && !x.Sample? && !x.Idle? && log == old(log) + [x]
      ensures Model(lastStep) == Next(settings, old(Model(lastStep)), x)
      ensures follower.lifecycle == old(follower.lifecycle)
      ensures paused ==> follower.Still() && command == follower.Measured() && clamped == {}
      ensures !paused ==> command == old(command)
    {
      hide Clamped, StrideAll, Integrated, OutOfRange, TickStep;
      if paused {
        paused, x := false, Resumed;
      } else {
        paused, clamped, sustained, outOfRangeSince := true, {}, {}, None;
        var _ := follower.HoldCurrentPosition();
        var state := follower.ReadState();
        if state.finite {
          command := state.positions;
        }
        x := Paused(Some(command));
      }
      log := log + [x];
    }

    /** Which joints are out of range, and whether that has lasted. */
    method Watch(started: real, values: seq<real>, ghost lastStep: real)
      requires |values| == |command| == |settings.limits|
      modifies this`clamped, this`sustained, this`outOfRangeSince
      ensures forall i: nat :: i in clamped <==>
        i < |values| && (values[i] < settings.limits[i].lower || values[i] > settings.limits[i].upper) && i !in settings.clampJoints
      ensures var next := Next(settings, old(Model(lastStep)), Sample(started, values));
        outOfRangeSince == next.since && sustained == next.sustained
    {
      hide Clamped, StrideAll, OutOfRange, TickStep;
      OutIsOutside(settings, values);
      var out := OutOfRange(settings, values);
      clamped := out;
      if out == {} {
        outOfRangeSince, sustained := None, {};
      } else if outOfRangeSince.None? {
        outOfRangeSince := Some(started);
      } else if started - outOfRangeSince.value > settings.outOfRangeTimeout {
        sustained := out;
      }
    }

    /** The loop body, once per unpaused pass. False where it raises. */
    method Tick(started: real, values: seq<real>, lastStep: real) returns (ok: bool)
      requires Valid() && |command| == |settings.limits| && started == clock.now
      modifies this`command, this`clamped, this`sustained, this`outOfRangeSince, this`log, follower, clock
      ensures Valid() && clock.now >= started
      ensures ok ==> |values| == |settings.limits| && log == old(log) + [Sample(started, values)]
      ensures ok ==> Model(started) == Next(settings, old(Model(lastStep)), Sample(started, values))
      ensures ok ==> follower.sent == old(follower.sent) + [command]
      ensures ok ==> clock.now >= started + settings.period && (clock.manual ==> clock.now == started + settings.period)
      ensures ok <==> |values| == |settings.limits| && old(follower.lifecycle == Enabled) && !follower.refuseTargets
      ensures !ok ==> follower.lifecycle == old(follower.lifecycle)
      ensures |values| == |settings.limits| ==> forall i: nat :: i in clamped <==>
        i < |values| && (values[i] < settings.limits[i].lower || values[i] > settings.limits[i].upper) && i !in settings.clampJoints
      ensures !ok ==> log == old(log) && follower.sent == old(follower.sent)
    {
      hide Clamped, StrideAll, Integrated, OutOfRange, TickStep, FakeArm.Stands, Bumped, FakeArm.Measured;
      if |values| != |settings.limits| {
        return false;
      }
      Watch(started, values, lastStep);
      var wanted := StrideAll(command, Clamped(values, settings.limits), TickStep(settings, started, lastStep));
      ok := follower.SendTargets(wanted);
      if !ok {
        return;
      }
      command := wanted;
      log := log + [Sample(started, values)];
      var now := clock.Monotonic();
      clock.Sleep(settings.period - (now - started));
    }

    method Now() returns (started: real)
      requires Valid()
      modifies clock
      ensures Valid() && started == clock.now >= old(clock.now)
    {
      started := clock.Monotonic();
    }

    method Rest(seconds: real)
      requires Valid()
      modifies clock
      ensures Valid() && clock.now >= old(clock.now) && clock.now >= old(clock.now) + seconds
    {
      clock.Sleep(seconds);
    }

    /** Everything since `begun` is a run of the model, and what went out is what the model sent. */
    ghost predicate Follows(begun: Follow, lastStep: real, already: seq<seq<real>>)
      reads this, follower, clock, follower.clock
    {
      && Valid() && Begins(settings, begun, log) && lastStep <= clock.now
      && Model(lastStep) == After(settings, begun, log) && |command| == |settings.limits|
      && follower.sent == already + Sent(settings, begun, log) && PacedUpTo(settings, log, clock.now)
    }

    /** How many toggles had come before pass `n`. */
    ghost function TogglesUpTo(n: nat): nat {
      if n == 0 then 0 else TogglesUpTo(n - 1) + input(n - 1).toggles
    }

    /** What each pass did comes from its own input: before it as many toggles as had come by then, and in it
        the leader's reading. */
    ghost predicate Heard(events: seq<Event>) {
      forall j :: 0 <= j < |events| ==> HeardAt(events, j)
    }

    ghost predicate HeardAt(events: seq<Event>, j: nat)
      requires j < |events|
    {
      var n := PassesIn(events[..j]);
      && (IsPass(events[j]) ==> j - n == TogglesUpTo(n + 1))
      && (events[j].Sample? ==> input(n).leader == Some(events[j].values))
    }

    lemma HeardGrows(events: seq<Event>, x: Event)
      requires Heard(events)
      requires IsPass(x) ==> |events| - PassesIn(events) == TogglesUpTo(PassesIn(events) + 1)
      requires x.Sample? ==> input(PassesIn(events)).leader == Some(x.values)
      ensures Heard(events + [x]) && PassesIn(events + [x]) == PassesIn(events) + if IsPass(x) then 1 else 0
    {
      hide HeardAt, TogglesUpTo, PassesIn;
      var more := events + [x];
      PassesGrow(events, x);
      JustHeard(events, x);
      forall j | 0 <= j < |more| ensures HeardAt(more, j) {
        if j < |events| {
          StillHeard(events, x, j);
        }
      }
    }

    lemma JustHeard(events: seq<Event>, x: Event)
      requires IsPass(x) ==> |events| - PassesIn(events) == TogglesUpTo(PassesIn(events) + 1)
      requires x.Sample? ==> input(PassesIn(events)).leader == Some(x.values)
      ensures HeardAt(events + [x], |events|)
    {
      hide TogglesUpTo, PassesIn;
      assert (events + [x])[..|events|] == events;
    }

    lemma StillHeard(events: seq<Event>, x: Event, j: nat)
      requires j < |events| && HeardAt(events, j)
      ensures HeardAt(events + [x], j)
    {
      hide TogglesUpTo, PassesIn;
      assert (events + [x])[..j] == events[..j];
    }

    lemma NothingHeard()
      ensures Heard([]) && PassesIn([]) == 0 && TogglesUpTo(0) == 0
    {
    }

    /** The toggles that arrived between two passes. */
    method Toggle(times: nat, ghost begun: Follow, ghost lastStep: real, ghost already: seq<seq<real>>)
      requires Follows(begun, lastStep, already)
      requires Heard(log)
      modifies this, follower
      ensures Follows(begun, lastStep, already) && Tells(begun, already)
      ensures |log| == |old(log)| + times && PassesIn(log) == PassesIn(old(log)) && Heard(log)
      ensures follower.lifecycle == old(follower.lifecycle)
    {
      hide TeleoperationController.Valid, Runs, Clamped, StrideAll, OutOfRange, After, Next, Sent, Allowed, PacedUpTo,
        TeleoperationController.Heard, PassesIn;
      for n := 0 to times
        invariant Follows(begun, lastStep, already)
        invariant |log| == |old(log)| + n && PassesIn(log) == PassesIn(old(log)) && Heard(log)
        invariant follower.lifecycle == old(follower.lifecycle)
      {
        ghost var past := log;
        ghost var x := TogglePause(lastStep);
        SentGrows(settings, begun, past, x);
        NextPassIsPaced(settings, past, x, clock.now, clock.now);
        HeardGrows(past, x);
      }
      PacedSays(settings, log, clock.now);
    }

    /** What stands whatever a pass comes to: the log is a paced run, and what went out is what it sends. */
    ghost predicate Tells(begun: Follow, already: seq<seq<real>>)
      reads this, follower, clock, follower.clock
    {
      && Valid() && Begins(settings, begun, log) && PassesPaced(settings, log)
      && follower.sent == already + Sent(settings, begun, log)
    }

    /** One pass: idle while paused, and otherwise one look at the leader. */
    method Pass(n: nat, lastStep: real, ghost begun: Follow, ghost already: seq<seq<real>>) returns (raised: bool, started: real)
      requires Follows(begun, lastStep, already) && follower.lifecycle == Enabled
      requires Heard(log) && PassesIn(log) == n && |log| - n == TogglesUpTo(n + 1)
      modifies this, follower, clock
      ensures Tells(begun, already) && Heard(log)
      ensures !raised ==> Follows(begun, started, already) && PassesIn(log) == n + 1 && |log| == |old(log)| + 1
      ensures raised ==> log == old(log) && follower.lifecycle == Enabled
      ensures raised ==> input(n).leader.None? || |input(n).leader.value| != |settings.limits| || follower.refuseTargets
    {
      hide TeleoperationController.Valid, AllowedAt, AllFit, Clamped, StrideAll, Integrated, OutOfRange, After, Followed, Sent, PacedUpTo, PassesIn,
        TeleoperationController.Heard, TeleoperationController.TogglesUpTo, FakeArm.Measured;
      ghost var head, past := clock.now, log;
      PacedSays(settings, log, head);
      started := Now();
      Later(log, head);
      raised := false;
      if paused {
        log := log + [Idle(started)];
        SentGrows(settings, begun, past, Idle(started));
        HeardGrows(past, Idle(started));
        Rest(Min(settings.period, 0.05));
        NextPassIsPaced(settings, past, Idle(started), started, clock.now);
        PacedSays(settings, log, clock.now);
        return;
      }
      if input(n).leader.None? {
        return true, started;
      }
      var ok := Tick(started, input(n).leader.value, lastStep);
      if !ok {
        return true, started;
      }
      SentGrows(settings, begun, past, Sample(started, input(n).leader.value));
      NextPassIsPaced(settings, past, Sample(started, input(n).leader.value), started, clock.now);
      PacedSays(settings, log, clock.now);
      HeardGrows(past, Sample(started, input(n).leader.value));
    }

    /** Follow until stopped, until the arm leaves ENABLED or until something raises. Every command
        that goes out is the model's, pauses included; and the arm ends held. */
    method Run(passes: nat) returns (raised: bool, ghost begun: Follow)
      requires Valid() && |command| == |settings.limits| && outOfRangeSince.None? && sustained == {} && !paused
      modifies this, follower, clock
      ensures Valid() && follower.Still() && clamped == {} && sustained == {}
      ensures begun == Follow(old(command), begun.lastStep, None, {}, false) && begun.lastStep >= old(clock.now)
      ensures Begins(settings, begun, log) && PassesPaced(settings, log)
      // Pass by pass it does what its input says, and ends when the passes are over, when the arm is not
      // enabled, or by raising: for readings that are lost or do not fit, or for a refusal.
      ensures var n := PassesIn(log);
        && Heard(log) && n <= passes && |log| - n == TogglesUpTo(if n < passes then n + 1 else n)
        && (raised <==> n < passes && follower.lifecycle == Enabled)
        && (raised ==> input(n).leader.None? || |input(n).leader.value| != |settings.limits| || follower.refuseTargets)
      ensures follower.sent == old(follower.sent) + Sent(settings, begun, log)
    {
      hide TeleoperationController.Valid, AllowedAt, AllFit, Clamped, StrideAll, Integrated, OutOfRange, After, Followed, Sent, PacedUpTo, PassesIn,
        TeleoperationController.Heard, PassesPaced, Next, Fits, Allowed, FakeArm.Still, FakeArm.Measured, FakeArm.Stands,
        TeleoperationController.Follows, Begins;
      log := [];
      var lastStep := Now();
      begun := Model(lastStep);
      raised := false;
      ghost var already := follower.sent;
      AtFirst(lastStep, begun);
      NothingHeard();
      for n := 0 to passes
        invariant Follows(begun, lastStep, already) && Tells(begun, already)
        invariant Heard(log) && PassesIn(log) == n && |log| - n == TogglesUpTo(n) && !raised
      {
        Toggle(input(n).toggles, begun, lastStep, already);
        if follower.lifecycle != Enabled {
          break;
        }
        raised, lastStep := Pass(n, lastStep, begun, already);
        if raised {
          break;
        }
      }
      clamped, sustained := {}, {};
      Release();
    }

    lemma AtFirst(lastStep: real, begun: Follow)
      requires Valid() && |command| == |settings.limits| && log == [] && begun == Model(lastStep) && lastStep <= clock.now
      requires outOfRangeSince.None? && sustained == {} && !paused
      ensures Follows(begun, lastStep, follower.sent) && Tells(begun, follower.sent)
    {
      hide TeleoperationController.Valid, Sent, PassesPaced, PacedUpTo, Runs;
      NothingSent(settings, begun);
      PacedSays(settings, log, clock.now);
    }

    lemma Later(log: seq<Event>, before: real)
      requires PacedUpTo(settings, log, before) && clock.now >= before
      ensures PacedUpTo(settings, log, clock.now)
    {
    }

    method Release()
      requires Valid()
      modifies follower
      ensures Valid() && follower.Still() && follower.sent == old(follower.sent) && follower.lifecycle == old(follower.lifecycle)
    {
      if follower.lifecycle == Enabled {
        var _ := follower.HoldCurrentPosition();
      }
    }
  }

  lemma OutIsOutside(c: Settings, values: seq<real>)
    requires |values| == |c.limits|
    ensures forall i: nat :: i in OutOfRange(c, values) <==>
      i < |values| && (values[i] < c.limits[i].lower || values[i] > c.limits[i].upper) && i !in c.clampJoints
  {
  }

  predicate IsPass(x: Event) {
    x.Sample? || x.Idle?
  }

  ghost function PassesIn(log: seq<Event>): nat {
    if log == [] then 0 else PassesIn(log[..|log| - 1]) + if IsPass(log[|log| - 1]) then 1 else 0
  }

  lemma PassesGrow(log: seq<Event>, x: Event)
    ensures PassesIn(log + [x]) == PassesIn(log) + if IsPass(x) then 1 else 0
  {
    assert (log + [x])[..|log|] == log;
  }

  /** How long a pass takes at the least: a period, or a paused one a twentieth of a second if that is less. */
  function Takes(c: Settings, x: Event): real {
    if x.Idle? && c.period > 0.05 then 0.05 else c.period
  }

  /** A pass is over before the next one looks. */
  ghost predicate PassesPaced(c: Settings, log: seq<Event>) {
    forall i, j :: 0 <= i < j < |log| && IsPass(log[i]) && IsPass(log[j]) ==> Started(log[j]) >= Started(log[i]) + Takes(c, log[i])
  }

  ghost predicate PacedUpTo(c: Settings, log: seq<Event>, now: real) {
    PassesPaced(c, log) && forall i :: 0 <= i < |log| && IsPass(log[i]) ==> now >= Started(log[i]) + Takes(c, log[i])
  }

  lemma PacedSays(c: Settings, log: seq<Event>, now: real)
    requires PacedUpTo(c, log, now)
    ensures PassesPaced(c, log)
  {
  }

  lemma NextPassIsPaced(c: Settings, log: seq<Event>, x: Event, now: real, later: real)
    requires PacedUpTo(c, log, now) && later >= now && (x.Sample? || x.Idle? ==> Started(x) >= now)
    requires IsPass(x) ==> later >= Started(x) + Takes(c, x)
    ensures PacedUpTo(c, log + [x], later)
  {
    var more := log + [x];
    assert forall i :: 0 <= i < |log| ==> more[i] == log[i];
  }

  /** The commands a run sends, in order: one for every pass that was not paused. */
  ghost function Sent(c: Settings, begun: Follow, log: seq<Event>): seq<seq<real>>
    requires Sized(c, begun, log)
  {
    if log == [] then []
    else Sent(c, begun, log[..|log| - 1]) + if log[|log| - 1].Sample? then [After(c, begun, log).command] else []
  }

  lemma NothingSent(c: Settings, begun: Follow)
    requires |begun.command| == |c.limits|
    ensures Runs(c, begun, []) && Sent(c, begun, []) == [] && After(c, begun, []) == begun
    ensures forall now :: PacedUpTo(c, [], now)
  {
  }

  lemma SentGrows(c: Settings, begun: Follow, log: seq<Event>, x: Event)
    requires Runs(c, begun, log) && Fits(c, x) && Allowed(After(c, begun, log), x)
    ensures Runs(c, begun, log + [x]) && After(c, begun, log + [x]) == Next(c, After(c, begun, log), x)
    ensures Sent(c, begun, log + [x])
      == Sent(c, begun, log) + if x.Sample? then [Next(c, After(c, begun, log), x).command] else []
  {
    hide Next, Allowed;
    assert (log + [x])[..|log|] == log;
    forall k | 0 <= k < |log| + 1 ensures AllowedAt(c, begun, log + [x], k) {
      if k < |log| {
        assert (log + [x])[..k] == log[..k] && AllowedAt(c, begun, log, k);
      }
    }
  }
}
