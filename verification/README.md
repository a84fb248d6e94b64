# Everest robot: a verified model of its motion, perception and workflow core

This project models the control core of an arm that finds, approaches and clips a carabiner, and
proves what that core promises. The modules follow the source files:

| part | modules | what is modelled |
|---|---|---|
| calibration | `Plane`, `ConvexHull`, `HullProperties`, `PixelMap`, `Spline` | the monotone-chain hull of the taught pixels, the margin test that refuses to extrapolate, and the thin-plate-spline fit |
| motion | `Clock`, `Contracts`, `FakeArm`, `Trapezoid`, `FastestPath`, `Motion`, `MotionLegs`, `MotionControl`, `Park` | the trapezoidal time law and its optimality, the watched control loop and its exits, the simulated arm it drives, and the park |
| following | `Strides`, `Runs`, `VisualTracking`, `CarabinerFollower`, `AttachmentFSM`, `AttachmentRun` | the speed-locked tracker, the follower that paces it, and the state machine that hands the arm between them and the learned policies |
| replay and policies | `ReplayPreflight`, `SessionPlayer`, `Pacing`, `Policy`, `Teleoperation` | what preflight admits, the timed loop that sends it, and the other pacing disciplines beside it |
| wrist servo | `Vectors`, `WristServo` | the per-column Jacobian fit and the damped least-squares step |
| files and workflow | `TextLines`, `Capture`, `CaptureFile`, `Workflow` | the in-place preset editor with its locator and its rollback, and the checkpointed recovery workflow |
| arithmetic | `Reals` | lemmas about real arithmetic |

Classes hold the state the source updates in place; their methods carry the source's loops and
branches and are proved against functions over values. The properties of whole runs are lemmas
about those functions, over arbitrary logs of events.

Floats are exact reals. `math.sqrt`, `np.linalg.solve`, the spline kernel, the radian-to-degree
factor and the camera are parameters constrained only by what is used of them: the root by its
defining equation, the solver by the system it solves, the kernel by depending on distance, the
factor by being positive, the camera by nothing. One clock is shared by the arm and whatever drives
it; it never goes back, and a manual one moves exactly by what is slept. Exceptions are result
values. Where an input comes from outside (detections, policies, perception, heartbeats,
cancellation, the leader arm, crashes), it is an arbitrary function of how often it was asked.

## Where the code and its own words differ

The model follows the code. Each of these is a lemma or a contract:

- `hull_margin_px` skips edges shorter than 1e-9 px, so "refuses rather than extrapolates" holds of a
  calibration exactly when its hull has no such edge (`NeverExtrapolatesExactly`, with the concrete
  `SliverExtrapolates`).
- The singular-system message suggests raising the smoothing; for collinear samples no smoothing
  helps (`CollinearSamplesAreRefused`).
- `CarabinerFollower.start` calls the tracker's lock count stale, but `VisualTracker.start` resets
  neither it nor the stop reason (`RestartKeepsTheLock`, `StoppedForGood`). The attachment handlers are
  unaffected, because they build a fresh tracker on every entry (`EnterState`).
- If `enter_state` aborts, the abort is logged from the state being left
  (`AbortBreaksTheTraceOnEntryOnly`).
- A replay tick whose heartbeat raises has sent its frame but not waited out its period, so the
  pacing bound then holds for all frames but the last (`Play`).
- A terminal `PolicyStep` is documented as having produced no motion; one that ends in a motor fault
  comes after its command went out (`PolicySession.Step`).
- The park's scale has a floor of 1e-3, so below a thousandth of the default velocity the park exceeds
  the speed the operator watched (`ParkSpeedCeiling`, `ParkOutrunsACrawl`).
- Pausing teleoperation re-seeds its command from the measured pose, so the velocity clamp holds of what
  is commanded across a pause exactly when that pose is within reach (`SpeedIsKeptExactly`, with the
  concrete `APauseCanJump`).
- Teleoperation has one excursion timer for all joints, so a joint can be named as sustained on its
  first tick out of range; the documented meaning holds exactly of arms with at most one reportable
  joint (`OneTimerServesOneJoint`, `SustainedMeans`).
- `_quote` is called safe for any operator-typed text, but it lets through every character that
  `splitlines` breaks at, and what follows one lands in column zero: the editor agrees with its own
  locator exactly when no field holds one (`QuotingKeepsBreaks`, `QuotedBreakEscapes`,
  `RenderedSplitsExactly`, `EditorAgreesWithLocator`).
- A preset name may end in a newline, because `$` matches before one; an unterminated last line is
  glued to the inserted preset; and an inline `{}` block is followed by deeper-indented lines that the
  preset then absorbs (`RenderedIsAnEntry`, `InsertionIsASplice`, `EditorAgreesWithLocator`).
- `save_preset` restores the file only for the two kinds of exception it catches; after any other the
  edit stays (`SavePreset`, `UncaughtEditStays`).
- The workflow's guard against missing attachment prerequisites can never fire (`AttachIsNeverUnprepared`).

## Model

| member | source | states |
|---|---|---|
| ConvexHull.Distinct | src/everest_robot/pixel_map.py:298-300 | The distinct pixels in lexicographic order, none lost and none invented. |
| ConvexHull.Half | src/everest_robot/pixel_map.py:304-310 | The stack loop computes the half chain that the recursive definition gives. |
| ConvexHull.HalfIsCorrect | src/everest_robot/pixel_map.py:304-310 | For any swept points, a half is a chain of inputs from the first to the last, turning strictly left at every vertex, with every input on or left of every edge. |
| HullProperties.Hull | src/everest_robot/pixel_map.py:295-320 | The method computes a hull whose vertices are inputs, with every input on or left of every cyclic edge, and with an area unless all inputs are on one line. |
| HullProperties.HullCoversInputs | src/everest_robot/pixel_map.py:295-314 | Every hull vertex is an input pixel, and every input pixel lies on or left of every cyclic hull edge, the closing ones included. |
| HullProperties.FanIsStrict | src/everest_robot/pixel_map.py:312-314 | Every triangle of the fan at the first vertex has positive area, so the closed polygon is strictly convex across the seam of the two halves. |
| HullProperties.HullSpansArea | src/everest_robot/pixel_map.py:300-302 | The hull has three or more vertices if and only if the pixels are not all collinear. |
| HullProperties.EdgesAreIndependent | src/everest_robot/pixel_map.py:295-314 | No hull edge lies on the line of another: each one cuts off something the others do not. |
| PixelMap.HullMarginPx | src/everest_robot/pixel_map.py:323-343 | The accumulating loop returns the least signed distance over the edges long enough to count, or that there is none; that it is the distance in pixels is `MarginIsTheDistance`. |
| PixelMap.LeastMarginIsLeast | src/everest_robot/pixel_map.py:332-343 | The margin is attained at a measured edge and is below every other measured edge; no answer means every edge was skipped. |
| PixelMap.BelievedMeans | src/everest_robot/pixel_map.py:337-343 | A margin is non-negative exactly when the pixel is on or left of every measured edge and some edge was measured. |
| PixelMap.HullIsTaughtRegion | src/everest_robot/pixel_map.py:295-343 | A pixel lies on or left of all hull edges if and only if it is a convex combination of taught pixels (fan triangle and barycentric weights one way, linearity the other). |
| PixelMap.NeverExtrapolatesExactly | src/everest_robot/pixel_map.py:323-343 | "Never extrapolate" both ways, with its exact condition: believing exactly the convex combinations of taught pixels holds if and only if no two consecutive hull vertices are closer than 1e-9 px. |
| PixelMap.SliverExtrapolates | src/everest_robot/pixel_map.py:339-340 | A concrete calibration with a skipped edge that answers for a pixel twice as far out as anything taught. |
| PixelMap.TaughtPixelsAreAnswered | src/everest_robot/pixel_map.py:546-552 | At required margin 0 `predict` never refuses a taught pixel as outside, and answers it with the model value exactly when some edge is measurable. |
| PixelMap.MarginIsLipschitz | src/everest_robot/pixel_map.py:337-343 | The margin falls no faster than the pixel moves (Cauchy-Schwarz on every edge). |
| PixelMap.MarginReachesInside | src/everest_robot/pixel_map.py:323-343 | A margin of m means every pixel within distance m is also a convex combination of taught pixels. |
| PixelMap.MarginIsTheDistance | src/everest_robot/pixel_map.py:323-343 | With no skipped edge, a disc round a believed pixel holds taught pixels only if and only if its radius is at most the margin: beyond it, the pixel pushed straight through the nearest edge is not taught. |
| PixelMap.NoTaughtPixelIsNearer | src/everest_robot/pixel_map.py:323-343 | Outside, the margin is negative by at most the distance to any taught pixel. |
| PixelMap.AnswersKeepTheirDistance | src/everest_robot/pixel_map.py:546-552 | For any required margin: `predict` answers a pixel exactly when every pixel within that distance is taught, with the model value and a margin that is the largest such distance; it refuses every other one as outside. |
| Spline.PredictsTheSamples | src/everest_robot/pixel_map.py:172-180 | At every sample the fit answers with the taught value minus smoothing times that sample's weight; exactly the taught value at smoothing 0. |
| Spline.AffineMapsAreReproduced | src/everest_robot/pixel_map.py:189-236 | When the fit succeeds, samples of an affine map are reproduced by that map at every pixel, whatever the smoothing. |
| Spline.TheFitIsTheSpline | src/everest_robot/pixel_map.py:172-236 | Between the samples: the fit answers at every pixel as the spline through the samples does, any set of weights and an affine part that meet the samples and the side conditions in normalized pixels; so there is at most one. |
| Spline.AFitHasASpline | src/everest_robot/pixel_map.py:202-236 | And there is such a spline as soon as there is a fit. |
| Spline.FitsExactly | src/everest_robot/pixel_map.py:202-227 | A fit exists exactly when there are three samples and the system is non-singular. |
| Spline.CollinearSamplesAreRefused | src/everest_robot/pixel_map.py:221-227 | Collinear samples are refused, and no smoothing helps (the error text suggests it might). |
| Spline.DuplicatedSamplesAreRefused | src/everest_robot/pixel_map.py:221-227 | Two samples at one pixel are refused when there is no smoothing. |
| Time.Clock.Monotonic | src/everest_robot/robot/clock.py:16-56 | Readings never go back; a manual clock does not move by being read. |
| Time.Clock.Sleep | src/everest_robot/robot/clock.py:50-52 | Sleep advances by at least what is asked, by exactly that on a manual clock, and not at all for a non-positive time. |
| FakeArmPort.FakeArm.constructor | src/everest_robot/robot/fake_arm.py:52-70 | A fresh arm is disconnected, at its given positions, and has been sent nothing. |
| FakeArmPort.FakeArm.Connect | src/everest_robot/robot/fake_arm.py:83-87 | Connects from disconnected with fresh counters and refuses otherwise. |
| FakeArmPort.FakeArm.Enable | src/everest_robot/robot/fake_arm.py:92-104 | Energizes a connected arm that rests in limits, seeding its targets from its positions, and refuses otherwise. |
| FakeArmPort.FakeArm.Estop | src/everest_robot/robot/fake_arm.py:110-114 | Cuts torque where the arm stands at that moment, with nowhere to go. |
| FakeArmPort.FakeArm.HoldCurrentPosition | src/everest_robot/robot/fake_arm.py:121-127 | Freezes an enabled arm at its present position and leaves any other untouched. |
| FakeArmPort.FakeArm.ReadState | src/everest_robot/robot/fake_arm.py:129-145 | Integrates to now and reports positions off by the tracking offset, with counters that move exactly when feedback is live. |
| FakeArmPort.FakeArm.SendTargets | src/everest_robot/robot/fake_arm.py:147-164 | Accepts exactly the well-sized commands of an enabled, unrefusing arm, counts them, moves on from where the arm stands, clamps them to the soft limits and trips an armed fault exactly when it is due. |
| FakeArmPort.FakeArm.InjectFault | src/everest_robot/robot/fake_arm.py:166-174 | Integrates, stops where it stands, and is in fault. |
| FakeArmPort.FakeArm.Integrate | src/everest_robot/robot/fake_arm.py:184-205 | The in-place loop moves every joint of an enabled arm toward its target by at most the speed bound times the elapsed time. |
| FakeArmPort.WithinReachArrives | src/everest_robot/robot/fake_arm.py:184-205 | Targets within reach of the elapsed time are arrived at exactly. |
| FakeArmPort.JointsMoveAsFarAsTheyMay | src/everest_robot/robot/fake_arm.py:184-205 | Whatever the target, a joint moves straight towards it: all the way if that is within reach, by the whole reach otherwise. |
| Contracts.MaxDistanceBounds | src/everest_robot/robot/contracts.py:177-179 | The largest joint distance is within a tolerance exactly when every joint is. |
| Contracts.InLimitsIsUnclamped | src/everest_robot/robot/ports.py:75-103 | A command inside the limits passes the clamp unchanged. |
| Trapezoid.PlanIsBalanced | src/everest_robot/robot/motion.py:69-82 | For all positive bounds and displacements, triangular or cruising, planning yields a ramp, cruise and ramp that cover exactly one unit within the velocity bound and at the acceleration bound. |
| Trapezoid.PeriodIsOneOverTheRate | src/everest_robot/robot/motion.py:365-404 | A control tick times the control rate is one second. |
| FastestPath.PlanIsAdmissible | src/everest_robot/robot/motion.py:69-94 | The planned curve goes from rest to rest under the profile's speed and acceleration bounds. |
| FastestPath.PlanIsFastest | src/everest_robot/robot/motion.py:69-94 | No curve from rest to rest under those bounds takes less time than the planned one. |
| FastestPath.NoFasterFromRest | src/everest_robot/robot/motion.py:84-94 | No curve under the acceleration bound gets further from rest in a given time than full acceleration takes it. |
| Trapezoid.PathIsSmooth | src/everest_robot/robot/motion.py:84-94 | Between any two times the path's rate changes by at most the acceleration and its position leads are bounded accordingly, across every joint of its pieces. |
| Trapezoid.PathIsMonotoneAndSpeedBounded | src/everest_robot/robot/motion.py:84-94 | s runs from 0 to 1, never back, and grows at most the cruise rate per unit of time between any two times. |
| Trapezoid.PathAccelerationBounded | src/everest_robot/robot/motion.py:84-94 | Second differences of s stay within a times h squared for every t and h. |
| Motion.PlanPlans | src/everest_robot/robot/motion.py:331-341 | The planned curve, in joint space, respects the profile velocity and acceleration for the farthest joint. |
| Motion.CommandsAreSpeedBounded | src/everest_robot/robot/motion.py:396-399 | No joint's command moves faster than the profile velocity between any two moments. |
| Motion.CommandsAreAccelerationBounded | src/everest_robot/robot/motion.py:396-399 | No joint's command has second differences above the profile acceleration. |
| Motion.InterpolateStaysInLimits | src/everest_robot/robot/motion.py:396-399 | Every command between two in-limit poses is in limits. |
| Motion.WatchTimesRuns | src/everest_robot/robot/motion.py:415-449 | After any run of ticks each since-timer names the tick at which the current unbroken run of its condition began (the tick before it did not hold), or that there is none, and the feedback timer the sample that last brought new counters. |
| Motion.ExitsMeanWhatTheySay | src/everest_robot/robot/motion.py:405-454 | The verdict on any tick equals what the ticks alone conclude, in the order of the checks: a faulted sample; counters that stood still longer than allowed; an unbroken excess spanning the grace from its first tick; an unbroken arrival at full fraction spanning the settle time; and otherwise to go on. So a move ends for one of these if and only if it happened. |
| Motion.WatchKnowsTheWorst | src/everest_robot/robot/motion.py:415-430 | The worst tracking error reported is attained by some joint on some measured tick and exceeded by none. |
| MotionLegs.CommandsAreCounted | src/everest_robot/robot/motion.py:366-400 | A leg sends at most floor(timeout times rate) + 1 commands. |
| MotionControl.JointMotionController.SafeStop | src/everest_robot/robot/motion.py:459-470 | An enabled arm ends held, or e-stopped when that is the policy; any other is not commanded further; nothing is sent. |
| MotionControl.JointMotionController.Beat | src/everest_robot/robot/motion.py:472-477 | The heartbeat is called exactly when there is one and the last beat is an interval ago, and its failure is seen. |
| MotionControl.JointMotionController.LegFailure | src/everest_robot/robot/motion.py:479-502 | Every failed leg leaves the arm held or e-stopped and reports what it was asked to. |
| MotionControl.JointMotionController.Conclude | src/everest_robot/robot/motion.py:405-456 | A verdict is carried out: failure stops safely, settling holds where the arm settled. |
| MotionControl.JointMotionController.Poll | src/everest_robot/robot/motion.py:374-391 | Between two ticks a leg stops exactly for a heartbeat that was due and raised, a cancellation that was asked for, or an elapsed time past the timeout, in that order; otherwise the port is untouched. |
| MotionControl.JointMotionController.Pass | src/everest_robot/robot/motion.py:374-456 | One pass of the loop: either one more tick recorded, no earlier than a period later, or an ending with its cause; an undisturbed move stays undisturbed. |
| MotionControl.JointMotionController.Drive | src/everest_robot/robot/motion.py:400-404 | One command, one tick of sleep and one sample; on an ideal arm within reach the sample is exactly the command. |
| MotionControl.JointMotionController.Execute | src/everest_robot/robot/motion.py:354-456 | Always ends; its ticks are timely and on the planned line. Told from the ticks and the controller's own fields: TRACKING_ERROR exactly when an unbroken run spans `trackingGrace` in which some joint was further from its command than `maxTrackingError` or, when that is unset or zero, than both 8 tolerances and 0.1 rad; a fault, stale feedback and success exactly likewise, in the order of the checks; TIMEOUT only past the timeout, cancellation exactly when polled so. Exactly its commands were sent, and an undisturbed feasible move arrives at the target with every sample equal to the command just sent. |
| MotionControl.JointMotionController.MoveTo | src/everest_robot/robot/motion.py:303-352 | Out-of-limit targets are refused before anything is sent, as are a faulted and a disconnected arm; a dry run sends nothing and answers with the duration of the plan from the assumed pose; an arm is left alone exactly when no joint is further than the tolerance; an executed leg follows a curve planned from where the arm stood, and why it ended is told from its ticks and the controller's fields; and a calm arm, at rest or travelling, that is as fast as the profile and has time for plan + settle time + 2 ticks ends exactly at the target, or is already within tolerance of it, without failing. |
| MotionControl.JointMotionController.GoFrom | src/everest_robot/robot/motion.py:325-352 | From a pose just read: a dry run sends nothing and answers with the planned duration, a pose is left alone exactly when it is within tolerance, anything else is planned from that pose and driven. |
| MotionLegs.LegIsBounded | src/everest_robot/robot/motion.py:354-400 | No joint's command in an executed leg outruns the profile velocity between any two ticks or from the start, a leg that began in limits stays in limits, and at most floor(timeout times rate) + 1 commands go out. |
| MotionLegs.LegIsExplained | src/everest_robot/robot/motion.py:405-456 | Every ending of an executed leg and its cause: success, tracking error, motor fault and stale feedback if and only if its ticks conclude so; timeout only past the timeout, cancellation only when polled so, not enabled only before the first command, when the port did not take targets as the leg began. |
| MotionLegs.LegEndsFor | src/everest_robot/robot/motion.py:366-456 | What the watch concludes, without the watch: a leg ends in MOTOR_FAULT, STALE_FEEDBACK, TRACKING_ERROR or success exactly when its ticks show a fault, counters that stood still longer than allowed, a deviation that lasted the grace, or an arrival that lasted the settle time, the first of these in that order. |
| MotionControl.JointMotionController.Walk | src/everest_robot/robot/motion.py:242-301 | Legs run in order up to the first failure, exactly their commands are sent, and every leg keeps its speed, limit and count bounds and ends for its cause, told from its own ticks and the controller's fields; a leg that ends well ends within tolerance of its target, and each later one begins exactly where the one before left the arm, or is planned from there in a dry run; any out-of-limit leg prevents reaching; a failed or raising walk leaves the arm held; a dry run moves nothing; and a calm arm that can drive every leg from where the one before leaves it reaches the end of the walk. |
| MotionLegs.SeamIsBounded | src/everest_robot/robot/motion.py:252-301 | Across the boundary of two legs: no command of a leg is further from the previous target than that leg's tolerance plus the velocity times the time since the new leg began. |
| MotionControl.JointMotionController.WalkEndsThere | src/everest_robot/robot/motion.py:252-301 | A completed walk leaves the arm within the last leg's tolerance of its target, and exactly on it if it was further away before that leg. |
| MotionLegs.StepIsFeasible | src/everest_robot/robot/motion.py:378-400 | At every moment of an undisturbed move the next command is within the arm's reach of one tick and inside the limits. |
| MotionLegs.TrackedTick | src/everest_robot/robot/motion.py:405-454 | A tick whose sample equals its command keeps the move on its way to settling within the timeout. |
| Park.ParkableIsNear | src/everest_robot/robot/teleoperation.py:506-539 | What is parked at is the start pose or an in-limit pose within tolerance of it, and it is in limits exactly when some in-limit pose is that near. |
| Park.ClampedIsNearest | src/everest_robot/robot/teleoperation.py:521-539 | Clamping moves each joint the least any in-limit pose could. |
| Park.ParkSpeedCeiling | src/everest_robot/robot/teleoperation.py:549-567 | The park keeps under the operator's speed if and only if that speed is at least a thousandth of the default; and always under the park fraction of the default. |
| Park.ParkRunsAtTheLowerCeiling | src/everest_robot/robot/teleoperation.py:549-575 | The park runs at exactly the lower of a quarter of the default speed and the operator's, but never below a thousandth of the default; its acceleration is slowed as much and the rest of the profile is kept. |
| Park.ParkOutrunsACrawl | src/everest_robot/robot/teleoperation.py:549-567 | A concrete operator speed that the park exceeds, because of the floor on its scale. |
| Park.ParkFitsItsBudget | src/everest_robot/robot/teleoperation.py:568-575 | At 2 Hz or faster the timeout covers the planned trapezoid, the settle time and two ticks, for any distance and any controller speed; it is the larger of the default timeout and one and a half plans plus the settle time and a second. |
| Park.ParkAtStartPose | src/everest_robot/robot/teleoperation.py:427-503 | Commands nothing without a start pose or torque; a park that moves is bounded by its own slow profile, budgeted for its own plan; and on a calm arm, at rest or travelling and as fast as the park itself, a park to an in-limit pose never fails: it ends exactly there, or sends nothing when it starts within tolerance of it. |
| VisualTracking.MovesOnlyWhenLocked | src/everest_robot/robot/visual_tracking.py:161-190 | Whenever a command goes out, the last `lock_frames` targets, this one included, were usable and nothing interrupted them. |
| VisualTracking.RelocksAfterEveryMiss | src/everest_robot/robot/visual_tracking.py:149-170 | Between any interruption and the next command lie at least `lock_frames` usable targets. |
| VisualTracking.NoTargetNoMotion | src/everest_robot/robot/visual_tracking.py:143-159 | A tick without a usable target commands nothing, drops the lock and re-seeds the command from the measured pose. |
| VisualTracking.RestartKeepsTheLock | src/everest_robot/robot/visual_tracking.py:109-128 | The first usable target after `start` moves the arm if and only if the tracker had not stopped and its old lock count already sufficed: `start` resets neither. |
| VisualTracking.StoppedForGood | src/everest_robot/robot/visual_tracking.py:139-140 | Once a stop reason is set, no later event commands, every later tick raises and the reason never changes, `start` included. |
| VisualTracking.StoppedExactly | src/everest_robot/robot/visual_tracking.py:139-235 | In every history, the tracker is stopped exactly when some earlier tick since a `start` brought a fault or missing feedback or had a command refused that was due; until then its lock is the number of usable targets since the last interruption. |
| VisualTracking.TheFirstStopGivesTheReason | src/everest_robot/robot/visual_tracking.py:232-235 | The first such tick gives the stop reason: the fault, else the missing feedback, else the refusal. |
| VisualTracking.CommandsExactly | src/everest_robot/robot/visual_tracking.py:161-202 | A command goes out exactly when a usable target comes to a started tracker that never stopped, completes the lock of usable targets in a row, and the port takes it. |
| VisualTracking.AnswersExactly | src/everest_robot/robot/visual_tracking.py:130-202 | What a tick answers, from the history alone: it raises exactly when the tracker is not running or the target has the wrong length; otherwise its index, reason, target, command, measured pose, remaining distance and lock are what the events since the last interruption make them. |
| VisualTracking.SpeedLock | src/everest_robot/robot/visual_tracking.py:172-176 | Over any stretch without re-seeding, the command moves at most one step per event. |
| VisualTracking.SpeedLockInTime | src/everest_robot/robot/visual_tracking.py:100-103 | With ticks paced a period apart, two commands of such a stretch differ per joint by at most the maximum velocity times the time between them. |
| VisualTracking.CommandsStayInBox | src/everest_robot/robot/visual_tracking.py:157-176 | Any box holding the soft limits and the present command holds every later one until re-seeded: once in limits, always; from outside, never further out. |
| VisualTracking.SteadyCommand | src/everest_robot/robot/visual_tracking.py:161-192 | Under a steady target the command after any number of ticks is exactly one long stride from where it began. |
| VisualTracking.SteadyNeverRetreats | src/everest_robot/robot/visual_tracking.py:172-177 | No joint's remaining distance ever grows under a steady target. |
| VisualTracking.SteadyTargetIsReached | src/everest_robot/robot/visual_tracking.py:161-202 | From a fresh lock the command equals a steady target after lock_frames - 1 ticks and enough whole steps to cover the distance. |
| VisualTracking.SteadyTargetIsArrivedAt | src/everest_robot/robot/carabiner_follower.py:296-305 | On an arm that keeps up, from then on every tick measures the arm within tolerance of its target, so any settle count is met; for the simulated arm `CarabinerFollower.Step` proves that it keeps up. |
| VisualTracking.VisualTracker.constructor | src/everest_robot/robot/visual_tracking.py:82-93 | A fresh tracker is unlocked, unstarted and unstopped. |
| VisualTracking.VisualTracker.RulesAreTheSettings | src/everest_robot/robot/visual_tracking.py:100-103 | The step is the maximum velocity over the rate, and the period one over the rate. |
| VisualTracking.VisualTracker.Start | src/everest_robot/robot/visual_tracking.py:109-128 | Seeds the command from healthy feedback, energizes a connected arm, sends nothing, and is the state machine's start event; it raises exactly on an arm in fault or one to be energized that rests outside its limits, and does not move an arm at rest. |
| VisualTracking.VisualTracker.Tick | src/everest_robot/robot/visual_tracking.py:130-202 | The method does what the state machine's tick says, answers with its reply, and sends exactly the moved command; from the port itself, a live tick on an arm in fault leaves the stop reason set to that fault, and one whose due command is refused leaves it set to the refusal; a held tick leaves the arm still; a live tracker on a sound arm takes one clamped step toward a usable target once locked. |
| VisualTracking.VisualTracker.Act | src/everest_robot/robot/visual_tracking.py:143-202 | The branches of a tick, in order, refine the state machine: a fault, missing feedback and a refused command set the stop reason. |
| VisualTracking.VisualTracker.Halt | src/everest_robot/robot/visual_tracking.py:204-215 | Drops the lock, keeps the command, holds when asked. |
| VisualTracking.VisualTracker.Hold | src/everest_robot/robot/visual_tracking.py:218-230 | Freezes the arm, re-seeds the command, drops the lock. |
| VisualTracking.VisualTracker.Stop | src/everest_robot/robot/visual_tracking.py:232-235 | A hold that also sets the stop reason. |
| Following.FollowingIsSpeedLocked | src/everest_robot/robot/carabiner_follower.py:322-331 | Over any stretch of commanding steps no joint moves faster than the maximum velocity in real time, because steps are paced. |
| Following.CommandsStayOnTaughtGround | src/everest_robot/robot/carabiner_follower.py:333-365 | Every target comes from a pixel that is a convex combination of the pixels the map was taught on. |
| Following.CloseStandsAsTaught | src/everest_robot/robot/carabiner_follower.py:296-365 | A tick that counts as settled measured every joint the map names for that frame's pixel within the settle tolerance of the named value. |
| Following.AllStandAsTaught | src/everest_robot/robot/carabiner_follower.py:296-310 | So did each of the last n ticks when all of them count as settled. |
| Following.SparesUnfitted | src/everest_robot/robot/carabiner_follower.py:360-365 | No command moves a joint the map does not name further from where it was just measured. |
| Following.CarabinerFollower.constructor | src/everest_robot/robot/carabiner_follower.py:236-256 | Starts with nothing missed, settled or looked at. |
| Following.CarabinerFollower.BeginsHoming | src/everest_robot/robot/carabiner_follower.py:236-305 | A follower that stands still and unlocked on a fast enough simulated arm, with a steady believed carabiner in view, is on its way home. |
| Following.CarabinerFollower.Start | src/everest_robot/robot/carabiner_follower.py:258-270 | Clears the counters and the last detection; the tracker's lock count and stop reason survive. |
| Following.CarabinerFollower.Stop | src/everest_robot/robot/carabiner_follower.py:272-275 | Drops the tracker's lock and holds. |
| Following.CarabinerFollower.Pace | src/everest_robot/robot/carabiner_follower.py:322-331 | A step begins at least a period after the previous one began. |
| Following.CarabinerFollower.TargetFromFrame | src/everest_robot/robot/carabiner_follower.py:333-365 | A target needs a detection that did not jump and lies where the map may be believed, and is the map's pose over the measured one; every refusal says which of these failed, and a jump exactly when the carabiner is further than the bound from where the last frame had it. |
| Following.CarabinerFollower.Aim | src/everest_robot/robot/carabiner_follower.py:285-288 | A paced look at one frame: any target it yields was earned by that frame over the pose measured now. |
| Following.CarabinerFollower.CatchesUp | src/everest_robot/robot/carabiner_follower.py:322-331 | By the time the next paced step may begin, an arm as fast as the tracker stands exactly on its last command. |
| Following.CarabinerFollower.HomesOn | src/everest_robot/robot/carabiner_follower.py:277-319 | One more tick on the way home: the command is one clamped step nearer, and once the steps are done every tick counts as settled. |
| Following.CarabinerFollower.Step | src/everest_robot/robot/carabiner_follower.py:277-319 | Visible until the last lost_after_misses frames all missed; followed exactly when the measured pose was within tolerance of that tick's own target on each of the last settle_ticks, which puts every joint the map names within tolerance of its named value; followed implies visible, and the counts and errors it reports are those of its log. It sends exactly what the tracker's tick sent, never moves an unfitted joint, and raises exactly when the map has no answer for the pixel or else the tracker is not running. It keeps the pacing, the speed clamp and the target rule over the whole log; and on the way home to a steady carabiner each step is one more tick, followed from the lock, the steps and the settle count on. |
| Following.CarabinerFollower.RunUntilFollowed | src/everest_robot/calibrate_wrist_servo.py:549-579 | Stepping until followed ends followed only after settle_ticks ticks in a row on which every joint the map names was measured within tolerance of the named value; from rest on the simulated arm, with a steady believed carabiner whose pose is in limits and at most n whole steps and the settle tolerance away, it is followed within lock_frames - 1 + n + settle_ticks ticks. |
| Following.CarabinerFollower.Count | src/everest_robot/robot/carabiner_follower.py:291-305 | The two counters are always the lengths of the current unbroken runs of misses and of arrivals. |
| Runs.TrailingMeansLastAll | src/everest_robot/robot/carabiner_follower.py:307-310 | A run counter has reached n exactly when the last n entries all held. |
| AttachmentMachine.EntersExactly | src/everest_robot/attachment_fsm.py:270-315 | What it takes to enter each state, destination by destination, for every report. |
| AttachmentMachine.ActionsAreAccounted | src/everest_robot/attachment_fsm.py:205-240 | In every run the per-state counts sum to the actions, actions never exceed the total budget, and each state's count is at most (resets + 1) times its budget. |
| AttachmentMachine.BooksAreTheLog | src/everest_robot/attachment_fsm.py:205-244 | After every legal run the counts are what the reports add up to: per state the reports in the whole log and, for the cycle, those since the last report that returned to neutral; the actions and the resets likewise. |
| AttachmentMachine.CycleStartIs | src/everest_robot/attachment_fsm.py:241-244 | The present cycle begins behind the last report that returned to neutral, or with the log. |
| AttachmentMachine.TraceGrows | src/everest_robot/attachment_fsm.py:317-334 | Each report that changes the state adds exactly one link, from the state it leaves to the one it leads to, with itself as the reason and the number of actions so far; any other report adds none. |
| AttachmentMachine.TraceIsAPath | src/everest_robot/attachment_fsm.py:317-334 | The trace is one contiguous path from INITIAL to the present state in action order, and its entries into INITIAL are exactly the resets. |
| AttachmentMachine.AbortBreaksTheTraceOnEntryOnly | src/everest_robot/attachment_fsm.py:249-252 | An abort keeps the path contiguous if and only if it is logged from the running state: one raised by `enter_state` breaks exactly the last link. |
| AttachmentMachine.ClipNeedsFollowing | src/everest_robot/attachment_fsm.py:279-287 | With visual following on, every entry to CLIP_RL comes off a SEARCH_CV step that was visible and followed. |
| AttachmentMachine.DisabledMeansNever | src/everest_robot/attachment_fsm.py:310-315 | With visual following off, SEARCH_CV is never entered nor stepped. |
| AttachmentMachine.ResetsAreCostly | src/everest_robot/attachment_fsm.py:241-244 | With visual following on, every reset costs at least one clip action and as many visual ones as the follower needs to settle. |
| AttachmentRun.Handlers.constructor | src/everest_robot/adapters.py:259-295 | Handlers begin without a follower and without a hold. |
| AttachmentRun.Handlers.Build | src/everest_robot/adapters.py:317-322 | The follower that SEARCH_CV gets and its tracker are both new, with an empty log, and building them commands nothing. |
| AttachmentRun.Handlers.EnterState | src/everest_robot/adapters.py:303-327 | Entering SEARCH_CV builds a fresh follower on a fresh tracker with the configured settings, and crashes exactly where that cannot start; leaving it releases the follower and leaves the arm held; nothing is commanded. |
| AttachmentRun.Handlers.Learned | src/everest_robot/adapters.py:330-416 | Exactly the policy's command where the arm takes it, none for the initial observation, and the scripted report of the right kind. |
| AttachmentRun.Handlers.Visual | src/everest_robot/adapters.py:358-391 | One follower step whose visible and followed verdicts are the follower's own; it aborts exactly when the tracker has stopped, and a missing follower or a map without an answer is a crash. |
| AttachmentRun.Handlers.Hold | src/everest_robot/adapters.py:418-421 | One hold, after which the arm is still. |
| AttachmentRun.AttachmentFSM.Ask | src/everest_robot/attachment_fsm.py:237-240 | A learned state answers as its policy and perception do; each report is logged with what it rests on: visual reports with the follower's steps of this very visit. |
| AttachmentRun.AttachmentFSM.Turn | src/everest_robot/attachment_fsm.py:189-247 | One pass of the loop: one report, decided on and entered, after which the variables are those of the state machine on the longer log; a failure on the way leaves the state it happened in, and is known to be one of entering exactly when the report was already in. |
| AttachmentRun.AttachmentFSM.Loop | src/everest_robot/attachment_fsm.py:188-247 | The loop always ends, its variables are at every point those of the state machine on the reports so far, and no action is asked for at or past the wall-clock budget. |
| AttachmentRun.AttachmentFSM.Run | src/everest_robot/attachment_fsm.py:175-268 | Every attempt whose handlers return terminates; a crash is re-raised, an abort ends it as ABORTED, and nothing else does either; success holds never, every other end exactly once and leaves the arm held; a failure on a state's budget names a state stepped exactly that often since the last reset, one on the total exactly that many actions; an abort is logged from the running state or, if the next could not be entered, from the one it was to leave. |
| AttachmentRun.AttemptIsAccounted | src/everest_robot/attachment_fsm.py:257-268 | However the attempt ended, its books balance: counts, actions and resets are those of its reports, counts sum to actions within the budgets, the trace begins at INITIAL, ends in the final state, holds exactly the reported resets, and is contiguous, except for the last link of an abort. |
| AttachmentRun.ClipIsHandedAnArrivedArm | src/everest_robot/attachment_fsm.py:279-287 | Handover across the three machines: on entry to CLIP_RL, on each of the last settle_ticks ticks, all of them in this visit to SEARCH_CV, the measured pose was within tolerance of that tick's target and every joint the map names for that frame's pixel within tolerance of the named value, and the carabiner was not lost. |
| AttachmentRun.WitnessedIsPatient | src/everest_robot/adapters.py:358-391 | The follower never reports arrival before settle_ticks steps of the visit that reports it. |
| AttachmentRun.AttemptResetsAreCostly | src/everest_robot/attachment_fsm.py:241-244 | So an attempt of a actions resets at most a / (settle_ticks + 1) times. |
| ReplayPreflight.FrameRoundTrip | src/everest_robot/robot/lerobot_bridge.py:68-78 | Converting a pose to radians and back returns it. |
| ReplayPreflight.DegreeLimitsAreTheSoftLimits | src/everest_robot/robot/replay.py:178-198 | A pose is inside the degree limits exactly when its radians are inside the driver's soft limits. |
| ReplayPreflight.LimitsKeepOrder | src/everest_robot/robot/replay.py:178-198 | The frame is refused exactly when some joint's range is not a range. |
| ReplayPreflight.PolicyAdmitsExactly | src/everest_robot/robot/replay.py:370-408 | `reject` admits only rows in the limits, the tolerant policy only rows within its tolerance of them, `clamp` any. |
| ReplayPreflight.WorstBounds | src/everest_robot/robot/replay.py:384-393 | The reported worst deviation bounds every row and is attained, and is zero exactly when no frame counts as clipped. |
| ReplayPreflight.ClampNeverWidens | src/everest_robot/robot/replay.py:381-383 | Clamping never widens a frame-to-frame step. |
| ReplayPreflight.ResolveRange | src/everest_robot/robot/replay.py:322-340 | A range is accepted exactly when it is not empty, lies inside the episode and the speed is permitted; it is then the requested one, with an open end at the last frame. |
| ReplayPreflight.PreflightAcceptsExactly | src/everest_robot/robot/replay.py:217-296 | Preflight accepts exactly the compatible, permitted requests whose frames and start pose the policy admits and whose recorded steps stay within the bound. |
| ReplayPreflight.PlanIsCommandable | src/everest_robot/robot/replay.py:217-295 | Every pose of an accepted plan is inside the driver's soft limits, frames are in order, and the report counts exactly the clipped frames and the maximum clipping. |
| ReplayPreflight.PlanStaysWithinApproval | src/everest_robot/robot/replay.py:342-361 | Every planned action and the start pose deviate from the recording by at most the approved tolerance, unless the approval itself is unbounded clamping. |
| ReplayPreflight.PlanNeverJumps | src/everest_robot/robot/replay.py:247-254 | Commanded steps are no wider than recorded ones, which are within the configured bound. |
| SessionPlayback.PlayOutcome.constructor | src/everest_robot/robot/replay.py:611-620 | A fresh outcome has nothing sent. |
| SessionPlayback.SessionPlayer.SendAction | src/everest_robot/robot/lerobot_bridge.py:151-191 | An in-limit action goes out unchanged and is reported exactly; a refused one sends nothing. |
| SessionPlayback.SessionPlayer.SendFrame | src/everest_robot/robot/replay.py:540-564 | Each frame sends exactly the planned pose and keeps the books of the prefix sent. |
| SessionPlayback.SessionPlayer.Inspect | src/everest_robot/robot/replay.py:514-538 | Tracking is lost exactly when one sample more than tolerated in a row is over the bound. |
| SessionPlayback.SessionPlayer.Pace | src/everest_robot/robot/replay.py:579-591 | A tick ends at least a period after it started; timing fails exactly when one deadline more than tolerated in a row was missed. |
| SessionPlayback.SessionPlayer.Beat | src/everest_robot/robot/replay.py:79-84 | The heartbeat is called, and its failure seen, exactly when there is one. |
| SessionPlayback.SessionPlayer.Begin | src/everest_robot/robot/replay.py:501-564 | A pass polls the cancellation once and then stops for the first of a cancellation, a fault, lost tracking and a refusal, or sends its frame; undisturbed it sends it. |
| SessionPlayback.SessionPlayer.Finish | src/everest_robot/robot/replay.py:566-591 | The heartbeat exactly when the last beat is an interval ago, then the rest of the period, with no catching up. |
| SessionPlayback.SessionPlayer.Tick | src/everest_robot/robot/replay.py:501-591 | A pass either stops before its frame goes out, for the cause it names, or sends it and lasts at least a period unless the heartbeat raises; undisturbed and within reach, the arm stands on the frame a period later. |
| SessionPlayback.SessionPlayer.SendAll | src/everest_robot/robot/replay.py:501-591 | What went out is a prefix of the plan in order, every frame took at least a period, and the logged starts follow the per-period discipline, punctually on a clock that does not oversleep. |
| SessionPlayback.SessionPlayer.Play | src/everest_robot/robot/replay.py:478-595 | However it ends, the frames sent are a prefix of the plan with last_frame_sent = first_frame + frames_sent - 1 and frames_sent times the period at most the elapsed time, unless a heartbeat raised (then all but the last); every pass polled once and only the last poll could cancel; beats came exactly when due; missed deadlines are the frames that took a period or longer, and the worst tracking error is attained; energizing is refused exactly on an arm resting outside its limits; a completed play sent the whole plan and counted exactly preflight's clipped frames and maximum clipping; and an undisturbed play on an arm fast enough for the plan completes. |
| SessionPlayback.EffectiveRateIsBounded | src/everest_robot/robot/replay.py:786-801 | The reported effective fps is frames over elapsed time and never exceeds fps times speed. |
| Pacing.FollowsItsRecurrence | src/everest_robot/robot/policy.py:627-637 | The starts a rollout, a replay or a session logs are never before what its discipline says of the logged latencies, and exactly that when it is punctual. |
| Pacing.RolloutsRunAhead | src/everest_robot/robot/policy.py:627-637 | With steps that take the same times from the same moment, no step of a punctual rollout starts after the same step of a replay or of a session. |
| Pacing.DeadlinesCatchUp | src/everest_robot/robot/policy.py:316-325 | A punctual rollout makes lost time up by whatever a step leaves of its period: two of its starts are closer than a period exactly when the first was late and its step did not use its period up. |
| Pacing.PeriodsNeverCatchUp | src/everest_robot/robot/replay.py:577-591 | A replay and a session never make time up: any two starts are as many periods apart as there are steps between them, and how far behind they are never shrinks. |
| Policy.AskAndSend | src/everest_robot/robot/policy.py:282-312 | A command goes out exactly when the step goes on or ends in a motor fault, and it is the policy's action clipped to the soft limits, so in limits; each ending has its cause, inference that raises or an action that does not name exactly the arm's joints being a policy error. |
| Policy.PolicyRunner.Rollout | src/everest_robot/robot/policy.py:258-325 | The rollout ends for the cause it names, cancellation, duration, steps, the policy or the port, and for none that was due before; it follows the absolute-deadline discipline from the moment the run began, punctually on a clock that does not oversleep, stays within its duration and step bounds, counts its missed deadlines and worst latency exactly, and without a missed deadline has no drift after its first action; what it sends are the policy's actions, in order, each clipped to the soft limits. |
| Policy.PolicyRunner.Perform | src/everest_robot/robot/policy.py:282-325 | One step of the loop: a step that goes on or ends in a motor fault sent one command and is booked with its start; any other ending booked and sent nothing. |
| Policy.PolicyRunner.PaceStep | src/everest_robot/robot/policy.py:313-325 | A step is followed by the wait for its absolute deadline, or counted as a miss. |
| Policy.PolicyRunner.Run | src/everest_robot/robot/policy.py:174-256 | Faulted and disconnected arms are refused, set-up of any length counts against the schedule, the run ends for the rollout's reason, and the arm ends held, or e-stopped exactly after a failure when asked. |
| Policy.PolicySession.Seed | src/everest_robot/robot/policy.py:697-737 | A seeded session owes nothing to an earlier schedule; seeding fails exactly on a faulted or disconnected arm and on one that rests outside its limits, and then changes nothing. |
| Policy.PolicySession.Pace | src/everest_robot/robot/policy.py:777-788 | No action before the deadline; lateness is counted, never made up. |
| Policy.PolicySession.Act | src/everest_robot/robot/policy.py:790-843 | One action, booked: the clipped command it sent, when its step began and when the next one may. |
| Policy.PolicySession.Step | src/everest_robot/robot/policy.py:759-843 | A step waits a whole period from the end of the last one, exactly that when in time, so commands of one seeding go out at least a period apart, each the policy's action clipped to the soft limits; it is cancelled exactly when polled so and ends otherwise for what the policy or the port did; a terminal step ends the seeding; one that ends in a motor fault did send a command that it does not report; lateness is reported exactly. |
| Policy.PolicySession.Terminal | src/everest_robot/robot/policy.py:846-862 | A terminal step finishes the session and unseeds it. |
| Policy.PolicySession.Close | src/everest_robot/robot/policy.py:739-749 | Leaves the arm held, or e-stopped exactly after a failure when asked. |
| Teleoperation.SpeedIsKeptExactly | src/everest_robot/robot/teleoperation.py:278-290 | From any point of a run on, no joint's command outruns the configured velocity in real time if and only if every pause after it takes over a pose within the velocity's reach of the command there. |
| Teleoperation.FollowingIsSpeedBounded | src/everest_robot/robot/teleoperation.py:348-360 | However ticks stall or overrun, over any stretch in which no pause re-seeds the command no joint's command moves faster than the configured velocity in real time. |
| Teleoperation.NextCommandKeepsExactly | src/everest_robot/robot/teleoperation.py:278-290 | After a pause the next command keeps to any bound on the step from the last command sent, whatever the leader does, exactly when it does so with the leader at both ends of its range. |
| Teleoperation.APauseCanJump | src/everest_robot/robot/teleoperation.py:278-290 | A command a radian ahead of the arm jumps back by 0.99 rad over a pause and resume 0.04 s apart, at a velocity that allows 0.01. |
| Teleoperation.TickMoves | src/everest_robot/robot/teleoperation.py:352-358 | One tick moves at most the velocity times the tick, and never more than four nominal periods' worth. |
| Teleoperation.TickGoesAsFarAsItMay | src/everest_robot/robot/teleoperation.py:348-360 | One tick moves every joint straight towards the leader's value, as near as the limits let it, all the way if the velocity over the tick allows and by the whole of that step otherwise. |
| Teleoperation.TicksAreMeasuredFromTheLastPass | src/everest_robot/robot/teleoperation.py:330-360 | The tick is the time since the last pass, followed or paused, or since the loop began. |
| Teleoperation.SustainedMeans | src/everest_robot/robot/teleoperation.py:336-347 | A sustained excursion is reported only after some joint was out of range on every pass, with no pause between them, for longer than the timeout, and names the joints out on one such pass; a pause clears it. |
| Teleoperation.ExcursionsAreReportedExactly | src/everest_robot/robot/teleoperation.py:336-347 | After every run the timer names the pass since which some joint has been out of range, and the report names exactly the joints out now, if that has lasted longer than the timeout, and nothing otherwise. |
| Teleoperation.OneTimerServesOneJoint | src/everest_robot/robot/teleoperation.py:192-206 | That every reported joint itself stayed out for the timeout holds of every run if and only if at most one joint can be reported: one timer serves all. |
| Teleoperation.ANewcomerIsReportedAtOnce | src/everest_robot/robot/teleoperation.py:338-347 | A joint is reported as sustained on its first tick out of range when another joint's excursion ran into its own. |
| Teleoperation.TeleoperationController.Tick | src/everest_robot/robot/teleoperation.py:330-368 | The loop body is the model's step, sends exactly its command, paces itself, and reports clamping exactly when a leader value lies outside its limits. |
| Teleoperation.TeleoperationController.TogglePause | src/everest_robot/robot/teleoperation.py:278-290 | Pausing forgets the excursion, freezes the arm and takes over the measured pose; resuming changes nothing else; neither sends anything. |
| Teleoperation.TeleoperationController.Run | src/everest_robot/robot/teleoperation.py:314-374 | A run, pauses included, is a run of the model on its input, pass by pass: as many toggles as came, and the leader's own readings; it raises exactly when it ends early on an enabled arm, for lost or ill-fitting readings or a refusal; its passes are paced, paused ones too; what it sends is the model's command for each pass that was not paused, and the arm ends held. |
| WristServo.WrapMeans | src/everest_robot/robot/wrist_servo.py:161-164 | The wrapped angle is the one in [-90, 90) that differs by whole half turns, and the least such in magnitude. |
| WristServo.WrapIsOdd | src/everest_robot/robot/wrist_servo.py:161-164 | Wrapping is odd except at exactly a quarter turn. |
| WristServo.FitJacobian | src/everest_robot/robot/wrist_servo.py:219-260 | Refuses exactly when some servo joint has no usable bumps; otherwise every entry is that joint's own slope for that feature. |
| WristServo.ColumnIsLeastSquares | src/everest_robot/robot/wrist_servo.py:251-254 | Each entry is the unique minimizer of its joint's squared residual: any other slope is worse by exactly the squared difference times the bumps' energy. |
| WristServo.ConsistentBumpsAreRecovered | src/everest_robot/robot/wrist_servo.py:251-254 | Bumps that agree are recovered exactly, with no residual. |
| WristServo.NeighboursDoNotContaminate | src/everest_robot/robot/wrist_servo.py:239-246 | Another joint's trial, wherever it was taken, leaves this joint's evidence and so its column untouched. |
| WristServo.SettledIsTheUnitCube | src/everest_robot/robot/wrist_servo.py:394-404 | The solve's settled flag and the stopping test agree: the unit cube is every feature inside its own tolerance. |
| WristServo.SolutionOpposesError | src/everest_robot/robot/wrist_servo.py:430-434 | The solved step's image displacement is opposed to the error by its own damped energy. |
| WristServo.DescentIsExact | src/everest_robot/robot/wrist_servo.py:424-435 | The predicted squared error falls by exactly g(2 - g) times the image energy plus 2g times the damping energy. |
| WristServo.StepVanishesAtTheOptimum | src/everest_robot/robot/wrist_servo.py:430-434 | A damped step is zero if and only if the gradient of the predicted error is. |
| WristServo.SolveIsADescentStep | src/everest_robot/robot/wrist_servo.py:406-449 | Whenever `solve` answers, its linear model predicts a normalized error no larger, strictly smaller for a nonzero step with positive damping, and no joint is asked for more than the trusted step. |
| WristServo.SolutionIsOptimal | src/everest_robot/robot/wrist_servo.py:430-434 | The solution costs least of all steps, predicted squared error plus damping times squared step; under damping every other step costs more. |
| WristServo.SingularExactly | src/everest_robot/robot/wrist_servo.py:424-434 | Any damping makes the system non-singular; without it the system is singular exactly when some nonzero step moves no feature. |
| WristServo.SolveAimsAtTheOptimum | src/everest_robot/robot/wrist_servo.py:406-449 | Whenever `solve` answers, its step is the configured gain times the unique damped optimum over all steps. |
| WristServo.SolveTakesTheBestStep | src/everest_robot/robot/wrist_servo.py:406-449 | The solve in its own terms, from the image error, the tolerances and the Jacobian as calibrated: unless singular, it answers exactly when the configured fraction of the step of least damped squared error, each feature in its own tolerance, asks no joint for more than is trusted, and then with that fraction; it has settled exactly when every feature is within its tolerance. |
| WristServo.OnlyServoJointsMove | src/everest_robot/robot/wrist_servo.py:451-469 | Exactly the servo joints move, each by its own step. |
| TextLines.BreaksAre | src/everest_robot/robot/capture.py:161 | A line ends at exactly the ten code points `splitlines` splits at. |
| TextLines.SplitYieldsLines | src/everest_robot/robot/capture.py:161 | Splitting at every break `splitlines` knows, a carriage return and newline being one, loses nothing: joining gives the text back. |
| TextLines.SpliceSplits | src/everest_robot/robot/capture.py:155-187 | A spliced block splits into its own lines if and only if the line it lands behind closes before it and it closes before the line that follows. |
| Capture.EntryBoundsAreTheEntry | src/everest_robot/robot/capture.py:136-152 | The locator returns exactly the range of the first entry of that name, without the blank lines that follow it. |
| Capture.EntryStartIs | src/everest_robot/robot/capture.py:136-152 | An entry line begins with exactly two spaces and then something that is not whitespace. |
| Capture.SpacesAre | src/everest_robot/robot/capture.py:106-152 | Whitespace is exactly the 29 code points that Python strips. |
| Capture.PlacesExactly | src/everest_robot/robot/capture.py:155-187 | Accepted exactly when there is a block, and the name is present if and only if `replace` was asked for. |
| Capture.PlaceOpens | src/everest_robot/robot/capture.py:155-187 | Whatever the branch, the preset lands inside its block, behind lines that hold no entry of its name, and, unless the block was `{}`, before the next entry or the block's end. |
| Capture.PlaceRemoves | src/everest_robot/robot/capture.py:171-187 | Outside a `{}` block every other line is kept in order, and what is taken out is nothing or the entry of that name. |
| Capture.SpliceIsLocated | src/everest_robot/robot/capture.py:106-187 | After the splice the locator finds exactly the rendered lines if and only if what follows them is blank up to another entry or the end of the block. |
| Capture.ReinsertIsRefused | src/everest_robot/robot/capture.py:171-177 | Inserting a present preset again without `replace` is refused. |
| Capture.InsertThenReplace | src/everest_robot/robot/capture.py:178-182 | Insert then replace equals inserting the replacement directly, exactly when the splice is bounded by its own locator. |
| Capture.OtherPresetsSurvive | src/everest_robot/robot/capture.py:155-187 | Every other preset is still found, line for line. |
| CaptureFile.NameKinds | src/everest_robot/robot/capture.py:39-75 | Among names the pattern accepts, the proper ones are those on one line: `$` lets a trailing newline through. |
| CaptureFile.QuotingKeepsBreaks | src/everest_robot/robot/capture.py:78-82 | For any text, what is quoted is one line if and only if the text is: quoting neither adds nor removes a line break. |
| CaptureFile.QuotesHold | src/everest_robot/robot/capture.py:78-82 | For any text, the quoted scalar ends at its own closing quote, whatever follows it. |
| CaptureFile.QuotedBreakEscapes | src/everest_robot/robot/capture.py:78-82 | Quoting lets every line break through, and what follows it lands in column zero, where the block ends. |
| CaptureFile.RenderedSplitsExactly | src/everest_robot/robot/capture.py:85-103 | The rendered text splits into the rendered lines if and only if neither the name nor any field holds a line break. |
| CaptureFile.RenderedIsAnEntry | src/everest_robot/robot/capture.py:85-103 | With unbroken fields the rendered text is an entry the locator recognises if and only if the name has no trailing newline. |
| CaptureFile.LocateBlock | src/everest_robot/robot/capture.py:106-133 | The scan computes the block bounds. |
| CaptureFile.LocateEntry | src/everest_robot/robot/capture.py:136-152 | The nested scans compute the entry bounds. |
| CaptureFile.InsertPreset | src/everest_robot/robot/capture.py:155-187 | The in-place list edits compute the splice of the text, or refuse where it is refused. |
| CaptureFile.InsertionIsASplice | src/everest_robot/robot/capture.py:155-187 | On text: the result splits into the kept lines and the rendered ones in order if and only if the line before closes before the preset and the preset before what follows, and only a `{}` header is rewritten. |
| CaptureFile.EditorAgreesWithLocator | src/everest_robot/robot/capture.py:106-187 | Behind a terminated line, the locator finds exactly the rendered lines if and only if the name is proper, no field holds a line break and, for a `{}` block, nothing deeper follows; then re-insertion is refused and insert-then-replace equals direct insertion. |
| CaptureFile.ParametersFile.SavePreset | src/everest_robot/robot/capture.py:198-252 | Saved if and only if the edit was written and reads back; refused means the file is unchanged; a written edit stays without being saved exactly when the check after it ends in an exception of another kind. |
| CaptureFile.SavingTakes | src/everest_robot/robot/capture.py:198-252 | What a save needs, spelled out: a letter followed by letters, digits, hyphens and underscores, perhaps a final newline; a file that loads under the same calibration with as many joints; and afterwards every joint within 1e-6 of what was captured or within 1e-9 of either value. |
| CaptureFile.NamesAreSpelled | src/everest_robot/robot/capture.py:39-75 | Names are told by their ASCII codes. |
| CaptureFile.UncaughtEditStays | src/everest_robot/robot/capture.py:232-250 | A file, a name ending in a newline and a loader that crashes on what it renders to: the save is accepted, written and not undone. |
| Workflow.NamesAreDistinct | src/everest_robot/workflow.py:63-96 | Step names are equal only for the same stage and cycle. |
| Workflow.AttachIsNeverUnprepared | src/everest_robot/workflow.py:85-86 | Whatever is committed, attach is never reached without a secured pickup and a reached position: the guard cannot fire, and completion means all succeeded. |
| Workflow.TheWalkIsWhatItMeans | src/everest_robot/workflow.py:50-112 | The next step, or the outcome, is p if and only if the committed values mean p: every step before it is committed and passed, with the target that the last verification named, the latest pickup and position, and no earlier stop; and only one p is meant. |
| Workflow.CommitsAreOrdered | src/everest_robot/workflow.py:62-112 | Over any number of crashing attempts, commits come in step order and number at most four per cycle. |
| Workflow.EachNameIsCommittedOnce | src/everest_robot/workflow.py:62-112 | No name is committed twice across attempts. |
| Workflow.AskedNamesAreDistinct | src/everest_robot/workflow.py:62-112 | All names asked for in one run are distinct. |
| Workflow.Checkpoints.Step | src/everest_robot/workflow.py:65-96 | A committed step is recalled and not carried out; an uncommitted one is carried out once and committed unless the attempt dies before. |
| Workflow.Checkpoints.Attempt | src/everest_robot/workflow.py:50-112 | Whatever earlier attempts left, an attempt carries out only uncommitted steps, beginning with the first missing one, and if it ends its outcome is the function of the committed values; in a calm world it ends, and in one that crashes only after commits it ends or commits. |
| Workflow.Checkpoints.DoPickUp | src/everest_robot/workflow.py:64-72 | The pickup stage, failing on an unsecured pickup. |
| Workflow.Checkpoints.DoPosition | src/everest_robot/workflow.py:74-83 | The position stage, failing on an unreached position. |
| Workflow.Checkpoints.DoAttach | src/everest_robot/workflow.py:87-90 | The attach stage. |
| Workflow.Checkpoints.DoVerify | src/everest_robot/workflow.py:91-97 | The verify stage: secure completes, insecure goes on to the next cycle as the verification says, or fails without a recovery target. |
| Workflow.Checkpoints.Work | src/everest_robot/workflow.py:43-47 | Attempt after attempt, the outcome is still the one the committed values determine, and 4 max_cycles + 1 attempts suffice, plus one for each that committed nothing; none does when crashes come only after commits. |

## Left out

- Predict: does not model the roll joint or the approach offset, which add one independent value each; pixels and joints are as in the source.
- HullMarginPx: the pixels reach it as exact reals; the removal of duplicates and the sort of `np.unique` and `np.lexsort` are modelled as ordered insertion.
- FitSpline: takes any normalizer with a positive scale and fits one joint at a time, since the columns of the right-hand side are independent; the quadratic fit, the roll fit, `holdout_report` and `pixel_error_px` are not modelled.
- FakeArm: reports only finite positions and no velocities; `disable`, `disconnect` and `clear_faults` are left out.
- FakeArm.Enable: the driver's wrap grace belongs to another driver and is not part of this model.
- JointMotionController.Walk: named positions and transitions are given as legs already looked up; identity checks, result records and messages are left out.
- VisualTracker.constructor: the refused configurations raise in the source and are preconditions here.
- CarabinerFollower.Step: the pixel error it also reports is a diagnostic and is left out.
- RunUntilFollowed: runs with a tick budget; without one the source's loop may not end, and its printing is left out.
- Handlers.Learned: the policies' and the perception's answers are arbitrary; readiness and neutral checks appear as aborts among them.
- AttachmentFSM.Run: a `hold` that itself raises is not modelled.
- ReplayPreflight.Check: robot type and joint names are one flag; non-finite recorded values, dataset download and parquet reading are left out, and an episode's frames are contiguous from zero as the reader checks.
- SessionPlayer.Play: alignment to the start pose, lease and session set-up are left out; the plan is one that preflight accepted.
- PolicyRunner.Run: identity and compatibility checks, heartbeats, recording and the translation of named degrees to radians are left out; clipping to the soft limits is modelled; set-up and inference take arbitrary time.
- TeleoperationController.Run: other threads act only between passes: pauses and resumes as an arbitrary script, stopping as the number of passes; loss of leader readings is one of its inputs; the monotonic and performance clocks are one; `excursion_joints`, the union of all reports, is left out.
- FitJacobian: the reported residuals are left out; the least-squares property is proved instead.
- Solve: `np.linalg.solve` is a partial function that solves the system it is given; non-finite answers do not arise in exact arithmetic.
- WristCarabinerFollower, whose counters are the fixed-camera follower's, and image segmentation are left out.
- SavePreset: writes succeed and are atomic, text is read and written without newline translation, what YAML makes of the text is the abstract loader's, and the formatting of numbers is an arbitrary function.
- Checkpoints.Step: what a crashed step did physically is not modelled, only that it was not committed; a verification naming an unknown recovery target is left out.
- Command-line tools, curses screens, leases, databases, containers, camera capture and foreign drivers are left out: they are presentation, plumbing or environment.
