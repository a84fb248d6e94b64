/** Parking the arm before torque comes off: the pose, the profile and its time budget. */
module Park {
  import opened Reals
  import opened Contracts
  import opened FakeArmPort
  import opened Trapezoid
  import opened Motion
  import opened MotionControl
  import opened MotionLegs

  const PARK_SPEED_SCALE := 0.25
  const SLOWEST_SCALE := 0.001

  // ---- _parkable ------------------------------------------------------------------------------

  /** The start pose, or the nearest in-limit pose when that is no further than a droop. */
  function Parkable(start: seq<real>, limits: seq<JointLimit>, tolerance: real): (r: seq<real>)
    requires |start| == |limits|
    ensures |r| == |start|
  {
    var clipped := Clamped(start, limits);
    if clipped == start || MaxDistance(clipped, start) > tolerance then start else clipped
  }

  /** Clamping is the least any in-limit pose can differ, joint by joint. */
  lemma ClampedIsNearest(start: seq<real>, limits: seq<JointLimit>, other: seq<real>, i: nat)
    requires |start| == |limits| == |other| && i < |start| && WellFormed(limits) && InLimits(other, limits, 0.0)
    ensures Abs(Clamped(start, limits)[i] - start[i]) <= Abs(other[i] - start[i])
  {
    assert limits[i].Contains(other[i], 0.0);
  }

  /** What is parked at: the pose itself, or an in-limit pose within tolerance of it. It is
      in limits exactly when some in-limit pose lies within tolerance of the start. */
  lemma ParkableIsNear(start: seq<real>, limits: seq<JointLimit>, tolerance: real)
    requires |start| == |limits| && WellFormed(limits) && tolerance >= 0.0
    ensures var r := Parkable(start, limits, tolerance);
      && (r == start || (InLimits(r, limits, 0.0) && Within(r, start, tolerance)))
      && (InLimits(start, limits, 0.0) ==> r == start)
      && (InLimits(r, limits, 0.0) <==> exists p: seq<real> :: |p| == |start| && InLimits(p, limits, 0.0) && Within(p, start, tolerance))
  {
    var r, clipped := Parkable(start, limits, tolerance), Clamped(start, limits);
    ClampedIsInLimits(start, limits);
    MaxDistanceBounds(clipped, start, tolerance);
    if InLimits(r, limits, 0.0) {
      assert Within(r, start, tolerance);
    }
    if p: seq<real> :| |p| == |start| && InLimits(p, limits, 0.0) && Within(p, start, tolerance) {
      forall i | 0 <= i < |start| ensures Abs(clipped[i] - start[i]) <= tolerance {
        ClampedIsNearest(start, limits, p, i);
      }
    }
  }

  // ---- _park_profile --------------------------------------------------------------------------

  function ParkScale(defaults: MotionProfile, controllerVelocity: real): real
    requires defaults.Valid()
  {
    Min(1.0, Max(Min(PARK_SPEED_SCALE, controllerVelocity / defaults.maxVelocity), SLOWEST_SCALE))
  }

  lemma ScaleIsProper(defaults: MotionProfile, controllerVelocity: real)
    requires defaults.Valid()
    ensures 0.0 < ParkScale(defaults, controllerVelocity) <= 1.0
  {
  }

  function ParkProfile(defaults: MotionProfile, controllerVelocity: real, planned: real): MotionProfile
    requires defaults.Valid()
  {
    var profile := defaults.Scaled(ParkScale(defaults, controllerVelocity));
    profile.(timeout := Max(defaults.timeout, 1.5 * planned + profile.settleTime + 1.0))
  }

  /** The duration the park is planned to take, under the profile before its timeout is set. */
  function PlannedPark(sqrt: real -> real, defaults: MotionProfile, controllerVelocity: real, start: seq<real>, pose: seq<real>): real
    requires defaults.Valid() && |start| == |pose|
  {
    var scale := ParkScale(defaults, controllerVelocity);
    ScaledIsValid(defaults, scale);
    Path.Plan(sqrt, MaxDistance(start, pose), defaults.Scaled(scale)).duration
  }

  lemma ParkProfileIsValid(defaults: MotionProfile, controllerVelocity: real, planned: real)
    requires defaults.Valid()
    ensures ParkProfile(defaults, controllerVelocity, planned).Valid()
  {
    ScaledIsValid(defaults, ParkScale(defaults, controllerVelocity));
  }

  /** The park keeps under the speed the operator watched exactly while that speed is not
      below a thousandth of the default: below it the scale's floor takes over. */
  lemma ParkSpeedCeiling(defaults: MotionProfile, controllerVelocity: real, planned: real)
    requires defaults.Valid() && controllerVelocity > 0.0
    ensures ParkProfile(defaults, controllerVelocity, planned).maxVelocity <= controllerVelocity
      <==> controllerVelocity >= SLOWEST_SCALE * defaults.maxVelocity
    ensures ParkProfile(defaults, controllerVelocity, planned).maxVelocity <= PARK_SPEED_SCALE * defaults.maxVelocity
  {
    var v, ratio, scale := defaults.maxVelocity, controllerVelocity / defaults.maxVelocity, ParkScale(defaults, controllerVelocity);
    DivCancel(controllerVelocity, v);
    Order(scale, ratio, v, v * scale, controllerVelocity);
    Order(SLOWEST_SCALE, ratio, v, SLOWEST_SCALE * v, controllerVelocity);
    Order(scale, PARK_SPEED_SCALE, v, v * scale, PARK_SPEED_SCALE * v);
  }

  /** The lower of two ceilings: a quarter of the default speed, and the speed the operator watched, but
      never less than a thousandth of the default. The acceleration is slowed as much; the rest is kept. */
  lemma ParkRunsAtTheLowerCeiling(defaults: MotionProfile, controllerVelocity: real, planned: real)
    requires defaults.Valid()
    ensures var p, v := ParkProfile(defaults, controllerVelocity, planned), defaults.maxVelocity;
      && (controllerVelocity >= 0.25 * v ==> p.maxVelocity == 0.25 * v)
      && (0.001 * v <= controllerVelocity <= 0.25 * v ==> p.maxVelocity == controllerVelocity)
      && (controllerVelocity <= 0.001 * v ==> p.maxVelocity == 0.001 * v)
      && p.maxAcceleration * v == defaults.maxAcceleration * p.maxVelocity
      && p.tolerance == defaults.tolerance && p.settleTime == defaults.settleTime && p.controlRate == defaults.controlRate
  {
    var v, ratio, scale := defaults.maxVelocity, controllerVelocity / defaults.maxVelocity, ParkScale(defaults, controllerVelocity);
    DivCancel(controllerVelocity, v);
    Order(0.25, ratio, v, 0.25 * v, controllerVelocity);
    Order(0.001, ratio, v, 0.001 * v, controllerVelocity);
    Commutes(defaults.maxAcceleration, scale, v);
  }

  lemma Commutes(a: real, b: real, c: real)
    ensures a * b * c == a * (c * b)
  {
  }

  /** An operator speed the park exceeds. */
  lemma ParkOutrunsACrawl(planned: real)
    ensures var defaults := MotionProfile(1.0, 1.0, 0.1, 0.5, 10.0, 50.0);
      ParkProfile(defaults, 0.0001, planned).maxVelocity > 0.0001
  {
    ParkSpeedCeiling(MotionProfile(1.0, 1.0, 0.1, 0.5, 10.0, 50.0), 0.0001, planned);
  }

  /** At two control ticks a second or faster, the budget covers the plan, the settle window
      and two ticks, however far the park and however slow the controller. */
  lemma ParkFitsItsBudget(defaults: MotionProfile, controllerVelocity: real, planned: real)
    requires defaults.Valid() && defaults.controlRate >= 2.0 && planned >= 0.0
    ensures var p := ParkProfile(defaults, controllerVelocity, planned);
      && p.controlRate > 0.0
      && p.timeout >= planned + p.settleTime + 2.0 * p.Period()
      && p.timeout >= defaults.timeout && p.timeout >= 1.5 * planned + defaults.settleTime + 1.0
      && (p.timeout == defaults.timeout || p.timeout == 1.5 * planned + defaults.settleTime + 1.0)
  {
    var rate, dt := defaults.controlRate, 1.0 / defaults.controlRate;
    DivCancel(1.0, rate);
    Order(dt, 0.5, rate, 1.0, 0.5 * rate);
  }

  // ---- the park itself -------------------------------------------------------------------------

  /** A calm energized arm, at rest or still travelling, in limits and as fast as the park itself. */
  ghost predicate ReadyToPark(motion: JointMotionController, sqrt: real -> real, defaults: MotionProfile,
      controllerVelocity: real, targets: seq<real>)
    requires motion.Valid() && defaults.Valid()
    reads motion, motion.port, motion.clock
  {
    var port := motion.port;
    && IsSqrt(sqrt) && motion.Calm() && port.lifecycle == Enabled && |targets| == |port.limits|
    && InLimits(port.Stands(), port.limits, 0.0)
    && InLimits(targets, port.limits, 0.0) && InLimits(targets, port.limits, motion.limitMargin)
    && defaults.controlRate >= 2.0 && motion.TrackingLimit(defaults.tolerance) >= 0.0
    && port.maxVelocity >= ParkProfile(defaults, controllerVelocity, 0.0).maxVelocity
  }

  /** None when there is nothing to command: no start pose, or the arm is not energized. A ready park
      never fails: it ends exactly at its pose, or moves nothing when it starts within tolerance of it. */
  method ParkAtStartPose(motion: JointMotionController, sqrt: real -> real, defaults: MotionProfile,
      controllerVelocity: real, startPose: seq<real>, tolerance: real)
    returns (r: Option<LegOutcome>, ghost driven: Option<Driven>)
    requires motion.Valid() && defaults.Valid() && |motion.port.limits| > 0
    requires startPose != [] ==> |startPose| == |motion.port.limits|
    modifies motion, motion.port, motion.clock
    ensures motion.Valid()
    ensures r.None? <==> startPose == [] || old(motion.port.lifecycle) != Enabled
    ensures motion.port.sent == old(motion.port.sent) + Commands(Ticks(driven))
    ensures r.None? ==> driven.None?
    // A park that moves is bounded by its own slow profile, whatever becomes of it.
    ensures driven.Some? && IsSqrt(sqrt) && motion.limitMargin >= 0.0 ==>
      Bounded(driven.value, motion.port.limits, ParkProfile(defaults, controllerVelocity, driven.value.path.duration))
    ensures startPose != [] && old(ReadyToPark(motion, sqrt, defaults, controllerVelocity, Parkable(startPose, motion.port.limits, tolerance))) ==>
      var targets, stood := Parkable(startPose, motion.port.limits, tolerance), old(motion.port.Stands());
      && r.Some? && r.value.Leg? && r.value.failure.None?
      && (r.value.alreadyAtTarget <==> Within(targets, stood, defaults.tolerance))
      && motion.port.positions == (if r.value.alreadyAtTarget then stood else targets)
      && (r.value.alreadyAtTarget ==> driven.None?)
  {
    hide Path.Plan, MaxDistance, Integrated, Clamped, InLimits, Within, Tracked, Report, Plans, Bounded;
    driven := None;
    if startPose == [] || motion.port.lifecycle != Enabled {
      assert Commands([]) == [];
      return None, None;
    }
    var port := motion.port;
    var targets := Parkable(startPose, port.limits, tolerance);
    ghost var ready := ReadyToPark(motion, sqrt, defaults, controllerVelocity, targets);
    var state := port.ReadState();
    var planned := if state.finite then PlannedPark(sqrt, defaults, controllerVelocity, targets, state.positions) else 0.0;
    var profile := ParkProfile(defaults, controllerVelocity, planned);
    ParkProfileIsValid(defaults, controllerVelocity, planned);
    if ready {
      assert state.positions == port.positions;
      ParkIsReady(sqrt, defaults, controllerVelocity, targets, state.positions, planned);
      MaxDistanceBounds(targets, port.positions, defaults.tolerance);
      assert motion.Ready(sqrt, targets, profile);
    }
    var leg;
    leg, driven := motion.MoveTo(sqrt, targets, profile, false, None);
    r := Some(leg);
    PlansAlike(sqrt, defaults, controllerVelocity, targets, state.positions, planned);
    if driven.Some? && IsSqrt(sqrt) && motion.limitMargin >= 0.0 {
      NoMarginNeeded(targets, port.limits, motion.limitMargin);
      LegIsBounded(motion.Dog(profile), targets, profile, driven.value, leg, port.limits);
    }
  }

  /** The budget does not enter the plan: the park is planned to take what its budget was set for. */
  lemma PlansAlike(sqrt: real -> real, defaults: MotionProfile, controllerVelocity: real, targets: seq<real>, pose: seq<real>, planned: real)
    requires defaults.Valid() && |targets| == |pose| && planned == PlannedPark(sqrt, defaults, controllerVelocity, targets, pose)
    ensures ParkProfile(defaults, controllerVelocity, planned).Valid()
    ensures Path.Plan(sqrt, MaxDistance(targets, pose), ParkProfile(defaults, controllerVelocity, planned)).duration == planned
  {
    hide MaxDistance;
    ParkProfileIsValid(defaults, controllerVelocity, planned);
  }

  lemma NoMarginNeeded(targets: seq<real>, limits: seq<JointLimit>, margin: real)
    requires |targets| == |limits| && margin >= 0.0 && InLimits(targets, limits, margin)
    ensures InLimits(targets, limits, 0.0)
  {
    forall i | 0 <= i < |targets| ensures limits[i].Contains(targets[i], 0.0) {
      assert limits[i].Contains(targets[i], margin);
    }
  }

  lemma ParkIsReady(sqrt: real -> real, defaults: MotionProfile, controllerVelocity: real, targets: seq<real>, pose: seq<real>, planned: real)
    requires defaults.Valid() && defaults.controlRate >= 2.0 && IsSqrt(sqrt) && |targets| == |pose|
    requires planned == PlannedPark(sqrt, defaults, controllerVelocity, targets, pose)
    ensures var p := ParkProfile(defaults, controllerVelocity, planned);
      && p.Valid() && p.maxVelocity == ParkProfile(defaults, controllerVelocity, 0.0).maxVelocity && p.tolerance == defaults.tolerance
      && Path.Plan(sqrt, MaxDistance(targets, pose), p).duration == planned
      && p.timeout >= planned + p.settleTime + 2.0 * p.Period()
  {
    hide Path.Plan, ParkScale, MaxDistance;
    var scale, d := ParkScale(defaults, controllerVelocity), MaxDistance(targets, pose);
    ScaleIsProper(defaults, controllerVelocity);
    ScaledIsValid(defaults, scale);
    ParkProfileIsValid(defaults, controllerVelocity, planned);
    DurationNonNegative(sqrt, d, defaults.Scaled(scale));
    ParkFitsItsBudget(defaults, controllerVelocity, planned);
    PlanIgnoresTimeout(sqrt, d, defaults.Scaled(scale), ParkProfile(defaults, controllerVelocity, planned).timeout);
  }

  lemma DurationNonNegative(sqrt: real -> real, displacement: real, profile: MotionProfile)
    requires IsSqrt(sqrt) && profile.Valid()
    ensures Path.Plan(sqrt, displacement, profile).duration >= 0.0
  {
    hide Path.UnderBounds;
    if displacement != 0.0 { PlanIsBalanced(sqrt, displacement, profile); }
  }

  lemma PlanIgnoresTimeout(sqrt: real -> real, displacement: real, profile: MotionProfile, timeout: real)
    requires profile.Valid() && profile.(timeout := timeout).Valid()
    ensures Path.Plan(sqrt, displacement, profile.(timeout := timeout)) == Path.Plan(sqrt, displacement, profile)
  {
    hide Path.UnderBounds;
  }
}
