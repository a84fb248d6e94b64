/** `FakeArm`: the arm the motion, tracking and replay loops drive. */
module FakeArmPort {
  import opened Reals
  import opened Contracts
  import opened Time

  /** How far a joint gets toward its target when it may move at most `step`. */
  function Approach(position: real, target: real, step: real): real {
    var delta := target - position;
    if delta == 0.0 then position
    else if delta > 0.0 then position + Min(Abs(delta), step)
    else position - Min(Abs(delta), step)
  }

  function Reach(velocity: real, elapsed: real): real { velocity * elapsed }

  function Integrated(positions: seq<real>, targets: seq<real>, step: real): (r: seq<real>)
    requires |positions| == |targets|
    ensures |r| == |positions|
  {
    seq(|positions|, i requires 0 <= i < |positions| => Approach(positions[i], targets[i], step))
  }

  lemma WithinReachArrives(positions: seq<real>, targets: seq<real>, step: real)
    requires |positions| == |targets| && Within(targets, positions, step)
    ensures Integrated(positions, targets, step) == targets
  {
  }

  /** However far its target: a joint moves straight towards it, all the way if that is within reach and
      by the whole reach otherwise. */
  lemma JointsMoveAsFarAsTheyMay(positions: seq<real>, targets: seq<real>, step: real, i: nat)
    requires |positions| == |targets| && i < |positions| && step >= 0.0
    ensures var p, q, t := positions[i], Integrated(positions, targets, step)[i], targets[i];
      && Abs(q - p) + Abs(t - q) == Abs(t - p)
      && Abs(q - p) == if Abs(t - p) <= step then Abs(t - p) else step
  {
  }

  function Bumped(sequence: seq<nat>): (r: seq<nat>)
    ensures |r| == |sequence|
    ensures sequence != [] ==> r != sequence
  {
    var r := seq(|sequence|, i requires 0 <= i < |sequence| => sequence[i] + 1);
    assert sequence != [] ==> r[0] != sequence[0];
    r
  }

  lemma NoMotion(positions: seq<real>, targets: seq<real>, step: real)
    requires |positions| == |targets| && (step == 0.0 || targets == positions)
    ensures Integrated(positions, targets, step) == positions
  {
  }

  class FakeArm {
    const limits: seq<JointLimit>
    const clock: Clock
    const maxVelocity: real
    const trackingOffset: real
    const faultAfter: Option<nat>
    const staleAfter: Option<nat>
    const refuseTargets: bool

    var positions: seq<real>
    var targets: seq<real>
    var lifecycle: Lifecycle
    var sequence: seq<nat>
    var lastIntegration: real
    var commands: nat
    var sent: seq<seq<real>>

    ghost predicate Valid()
      reads this, clock
    {
      && |positions| == |targets| == |sequence| == |limits|
      && lastIntegration <= clock.now
      && maxVelocity >= 0.0
    }

    /** Held: torque on, nowhere to go. */
    ghost predicate Still()
      reads this
    {
      lifecycle == Enabled ==> targets == positions
    }

    /** Fault-free, energized, and read at this very moment of a manual clock. */
    ghost predicate Ideal()
      reads this, clock
    {
      && clock.manual && lastIntegration == clock.now && lifecycle == Enabled
      && !refuseTargets && faultAfter.None? && staleAfter.None? && trackingOffset == 0.0
      && |limits| > 0
    }

    constructor (limits: seq<JointLimit>, clock: Clock, positions: seq<real>, maxVelocity: real, trackingOffset: real,
        faultAfter: Option<nat>, staleAfter: Option<nat>, refuseTargets: bool)
      requires |positions| == |limits| && maxVelocity >= 0.0
      ensures Valid() && lifecycle == Disconnected && this.positions == positions && sent == []
      ensures this.clock == clock && this.limits == limits && targets == positions && commands == 0 && lastIntegration == clock.now
      ensures this.maxVelocity == maxVelocity && this.trackingOffset == trackingOffset && this.faultAfter == faultAfter
      ensures this.staleAfter == staleAfter && this.refuseTargets == refuseTargets && forall i :: 0 <= i < |sequence| ==> sequence[i] == 0
    {
      this.limits, this.clock, this.positions, this.targets := limits, clock, positions, positions;
      this.maxVelocity, this.trackingOffset := maxVelocity, trackingOffset;
      this.faultAfter, this.staleAfter, this.refuseTargets := faultAfter, staleAfter, refuseTargets;
      lifecycle, commands, sent, lastIntegration := Disconnected, 0, [], clock.now;
      sequence := seq(|positions|, _ => 0);
    }

    /** What feedback reports: the positions, off by the tracking offset. */
    function Measured(): (r: seq<real>)
      reads this
      ensures |r| == |positions|
    {
      seq(|positions|, i requires 0 <= i < |positions| reads this => positions[i] + trackingOffset)
    }

    /** Where the arm stands at this moment, travelling or not. */
    function Stands(): (r: seq<real>)
      requires Valid()
      reads this, clock
      ensures |r| == |limits|
    {
      if lifecycle == Enabled then Integrated(positions, targets, Reach(maxVelocity, clock.now - lastIntegration)) else positions
    }

    /** Just read, or with nowhere to go, it stands where it was last known to be. */
    lemma StandsWhereRead()
      requires Valid() && (lastIntegration == clock.now || targets == positions)
      ensures Stands() == positions
    {
      NoMotion(positions, targets, Reach(maxVelocity, clock.now - lastIntegration));
    }

    predicate FeedbackStale()
      reads this
    {
      staleAfter.Some? && commands >= staleAfter.value
    }

    method Integrate()
      requires Valid()
      modifies this`positions, this`sequence, this`lastIntegration
      ensures Valid() && lastIntegration == clock.now
      ensures var elapsed := clock.now - old(lastIntegration);
        if elapsed == 0.0 || lifecycle == Disconnected then positions == old(positions) && sequence == old(sequence)
        else
          && positions == (if lifecycle == Enabled then Integrated(old(positions), targets, Reach(maxVelocity, elapsed)) else old(positions))
          && sequence == if FeedbackStale() then old(sequence) else Bumped(old(sequence))
    {
      var now := clock.now;
      var elapsed := Max(0.0, now - lastIntegration);
      lastIntegration := now;
      if elapsed == 0.0 || lifecycle == Disconnected {
        return;
      }
      if lifecycle == Enabled {
        var step := Reach(maxVelocity, elapsed);
        for index := 0 to |positions|
          invariant |positions| == |targets| == |old(positions)|
          modifies this`positions
          invariant forall i :: 0 <= i < index ==> positions[i] == Approach(old(positions)[i], targets[i], step)
          invariant forall i :: index <= i < |positions| ==> positions[i] == old(positions)[i]
        {
          positions := positions[index := Approach(positions[index], targets[index], step)];
        }
        assert positions == Integrated(old(positions), targets, step);
      }
      if !FeedbackStale() {
        sequence := Bumped(sequence);
      }
    }

    method Connect() returns (ok: bool)
      requires Valid()
      modifies this`lifecycle, this`sequence
      ensures Valid() && ok == (old(lifecycle) == Disconnected)
      ensures lifecycle == if ok then Connected else old(lifecycle)
      ensures sequence == if ok && !FeedbackStale() then Bumped(old(sequence)) else old(sequence)
    {
      ok := lifecycle == Disconnected;
      if ok {
        lifecycle := Connected;
        if !FeedbackStale() {
          sequence := Bumped(sequence);
        }
      }
    }

    /** False where the driver raises: not connected, or resting outside the soft limits. */
    method Enable() returns (ok: bool)
      requires Valid()
      modifies this`lifecycle, this`targets
      ensures Valid() && ok == (old(lifecycle) == Connected && InLimits(positions, limits, 0.0))
      ensures if ok then lifecycle == Enabled && targets == positions
        else lifecycle == old(lifecycle) && targets == old(targets)
    {
      ok := lifecycle == Connected && InLimits(positions, limits, 0.0);
      if ok {
        targets := positions;
        lifecycle := Enabled;
      }
    }

    method Estop()
      requires Valid()
      modifies this`positions, this`sequence, this`lastIntegration, this`targets, this`lifecycle
      ensures Valid() && targets == positions == old(Stands()) && lastIntegration == clock.now
      ensures lifecycle == if old(lifecycle) == Enabled then Connected else old(lifecycle)
    {
      if lastIntegration == clock.now { StandsWhereRead(); }
      Integrate();
      targets := positions;
      if lifecycle == Enabled {
        lifecycle := Connected;
      }
    }

    method HoldCurrentPosition() returns (ok: bool)
      requires Valid()
      modifies this`positions, this`sequence, this`lastIntegration, this`targets
      ensures Valid() && ok == (lifecycle == Enabled)
      ensures ok ==> targets == positions == old(Stands()) && lastIntegration == clock.now
      ensures clock.now == old(lastIntegration) ==> positions == old(positions)
      ensures !ok ==> positions == old(positions) && targets == old(targets)
    {
      if lifecycle != Enabled {
        return false;
      }
      if lastIntegration == clock.now { StandsWhereRead(); }
      Integrate();
      targets := positions;
      return true;
    }

    method ReadState() returns (s: JointState)
      requires Valid()
      modifies this`positions, this`sequence, this`lastIntegration
      ensures Valid() && lastIntegration == clock.now
      ensures s.finite && |s.positions| == |limits| && s.sequence == sequence && s.stamp == clock.now
      ensures s.lifecycle == lifecycle && s.faultBits == (lifecycle == Fault)
      ensures s.positions == Measured() && positions == old(Stands()) == Stands()
      ensures var elapsed := clock.now - old(lastIntegration);
        if elapsed == 0.0 || lifecycle == Disconnected then positions == old(positions) && sequence == old(sequence)
        else
          && positions == (if lifecycle == Enabled then Integrated(old(positions), targets, Reach(maxVelocity, elapsed)) else old(positions))
          && sequence == if FeedbackStale() then old(sequence) else Bumped(old(sequence))
    {
      if lastIntegration == clock.now { StandsWhereRead(); }
      Integrate();
      StandsWhereRead();
      s := JointState(Measured(), lifecycle == Fault, sequence, clock.now, lifecycle, true);
    }

    method SendTargets(command: seq<real>) returns (ok: bool)
      requires Valid()
      modifies this`positions, this`sequence, this`lastIntegration, this`targets, this`lifecycle, this`commands, this`sent
      ensures Valid()
      ensures ok == (!refuseTargets && old(lifecycle) == Enabled && |command| == |limits|)
      ensures sent == if ok then old(sent) + [command] else old(sent)
      ensures !ok ==> lifecycle == old(lifecycle) && positions == old(positions) && targets == old(targets)
      ensures ok ==> lastIntegration == clock.now
      ensures ok && clock.now == old(lastIntegration) ==> positions == old(positions) && sequence == old(sequence)
      ensures ok && faultAfter.None? ==> lifecycle == Enabled && targets == Clamped(command, limits)
      ensures ok && lifecycle != Enabled ==> lifecycle == Fault
      // Wherever it stands by then it is sent on from, unless the armed fault comes with this command.
      ensures commands == old(commands) + if ok then 1 else 0
      ensures ok ==> positions == old(Stands())
      ensures ok ==> if faultAfter.Some? && commands >= faultAfter.value then lifecycle == Fault && targets == positions
        else lifecycle == Enabled && targets == Clamped(command, limits)
    {
      if refuseTargets || lifecycle != Enabled || |command| != |limits| {
        return false;
      }
      if lastIntegration == clock.now { StandsWhereRead(); }
      Integrate();
      commands := commands + 1;
      sent := sent + [command];
      targets := Clamped(command, limits);
      if faultAfter.Some? && commands >= faultAfter.value {
        InjectFault();
      }
      return true;
    }

    method InjectFault()
      requires Valid()
      modifies this`positions, this`sequence, this`lastIntegration, this`targets, this`lifecycle
      ensures Valid() && lifecycle == Fault && targets == positions == old(Stands()) && lastIntegration == clock.now
      ensures clock.now == old(lastIntegration) ==> positions == old(positions) && sequence == old(sequence)
    {
      if lastIntegration == clock.now { StandsWhereRead(); }
      Integrate();
      targets := positions;
      lifecycle := Fault;
    }
  }
}
