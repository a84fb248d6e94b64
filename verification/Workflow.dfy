/** The durable attachment workflow: control flow over memoized checkpoints, crashing anywhere. */
module Workflow {
  import opened Contracts

  datatype RecoveryTarget = LocalizeAndPickUp | GoToKnownPosition | AttachAgain

  datatype Stage = PickUp | GoTo | Attach | Verify

  /** A stage's committed result: whether it succeeded, and for a verification what to redo. */
  datatype Value = Value(ok: bool, target: Option<RecoveryTarget>, payload: int)

  // ---- step names ----------------------------------------------------------------------------------

  function Decimal(n: nat): (s: string)
    ensures s != ""
  {
    if n < 10 then [('0' as int + n) as char] else Decimal(n / 10) + [('0' as int + n % 10) as char]
  }

  /** `{cycle:02d}` */
  function Padded(n: nat): string {
    if n < 10 then "0" + Decimal(n) else Decimal(n)
  }

  function Reading(s: string): int {
    if s == "" then 0 else Reading(s[..|s| - 1]) * 10 + (s[|s| - 1] as int - '0' as int)
  }

  lemma {:induction false} DecimalReads(n: nat)
    ensures Reading(Decimal(n)) == n
  {
    var s := Decimal(n);
    if n < 10 {
      assert s[..0] == "";
    } else {
      DecimalReads(n / 10);
      assert s[..|s| - 1] == Decimal(n / 10);
    }
  }

  lemma PaddedReads(n: nat)
    ensures Reading(Padded(n)) == n
  {
    DecimalReads(n);
    if n < 10 {
      var s := Padded(n);
      assert s == ['0', ('0' as int + n) as char];
      assert s[..1] == ['0'] && ['0'][..0] == "";
    }
  }

  function Digit(stage: Stage): char {
    match stage case PickUp => '1' case GoTo => '2' case Attach => '3' case Verify => '4'
  }

  function Label(stage: Stage): (s: string)
    ensures |s| >= 2 && s[1] == Digit(stage)
  {
    match stage
    case PickUp => "01-localize-and-pick-up-carabiner-cycle-"
    case GoTo => "02-go-to-known-position-cycle-"
    case Attach => "03-rl-vla-attach-clip-cycle-"
    case Verify => "04-verify-attachment-cycle-"
  }

  function Name(stage: Stage, cycle: nat): string {
    Label(stage) + Padded(cycle)
  }

  /** No two steps of a run share a checkpoint name. */
  lemma NamesAreDistinct(s: Stage, c: nat, t: Stage, d: nat)
    ensures Name(s, c) == Name(t, d) <==> s == t && c == d
  {
    hide Label, Padded, Reading;
    if Name(s, c) == Name(t, d) {
      assert Name(s, c)[1] == Label(s)[1] && Name(t, d)[1] == Label(t)[1];
      assert s == t;
      assert Name(s, c)[|Label(s)|..] == Padded(c) && Name(t, d)[|Label(t)|..] == Padded(d);
      PaddedReads(c);
      PaddedReads(d);
    }
  }

  // ---- the control flow as a function of the checkpoints ---------------------------------------------

  datatype Reason = PickupFailed | PositionFailed | NoPrerequisites | NoRecoveryTarget | NotSecure

  datatype Outcome =
    | Complete(cycles: nat, pickup: Value, position: Value, attachment: Value, verification: Value)
    | Failed(reason: Reason)

  datatype Progress = Needs(stage: Stage, cycle: nat) | Done(outcome: Outcome)

  type Store = map<string, Value>

  datatype Context = Context(target: RecoveryTarget, pickup: Option<Value>, position: Option<Value>)

  const BEGIN := Context(LocalizeAndPickUp, None, None)

  /** The first uncommitted step the workflow comes to, or its outcome. */
  function FromCycle(store: Store, maxCycles: int, cycle: nat, ctx: Context): Progress
    decreases maxCycles - cycle, 3
  {
    if cycle >= maxCycles then Done(Failed(NotSecure))
    else if ctx.target != LocalizeAndPickUp then FromPosition(store, maxCycles, cycle, ctx)
    else if Name(PickUp, cycle) !in store then Needs(PickUp, cycle)
    else
      var pickup := store[Name(PickUp, cycle)];
      if !pickup.ok then Done(Failed(PickupFailed))
      else FromPosition(store, maxCycles, cycle, ctx.(pickup := Some(pickup)))
  }

  function FromPosition(store: Store, maxCycles: int, cycle: nat, ctx: Context): Progress
    requires cycle < maxCycles
    decreases maxCycles - cycle, 2
  {
    if ctx.target == AttachAgain then FromAttach(store, maxCycles, cycle, ctx)
    else if Name(GoTo, cycle) !in store then Needs(GoTo, cycle)
    else
      var position := store[Name(GoTo, cycle)];
      if !position.ok then Done(Failed(PositionFailed))
      else FromAttach(store, maxCycles, cycle, ctx.(position := Some(position)))
  }

  function FromAttach(store: Store, maxCycles: int, cycle: nat, ctx: Context): Progress
    requires cycle < maxCycles
    decreases maxCycles - cycle, 1
  {
    if ctx.pickup.None? || ctx.position.None? then Done(Failed(NoPrerequisites))
    else if Name(Attach, cycle) !in store then Needs(Attach, cycle)
    else if Name(Verify, cycle) !in store then Needs(Verify, cycle)
    else FromVerdict(store, maxCycles, cycle, ctx, store[Name(Attach, cycle)], store[Name(Verify, cycle)])
  }

  function FromVerdict(store: Store, maxCycles: int, cycle: nat, ctx: Context, attachment: Value, verification: Value): Progress
    requires cycle < maxCycles && ctx.pickup.Some? && ctx.position.Some?
    decreases maxCycles - cycle, 0
  {
    if verification.ok then Done(Complete(cycle + 1, ctx.pickup.value, ctx.position.value, attachment, verification))
    else if verification.target.None? then Done(Failed(NoRecoveryTarget))
    else FromCycle(store, maxCycles, cycle + 1, ctx.(target := verification.target.value))
  }

  function Walk(store: Store, maxCycles: int): Progress {
    FromCycle(store, maxCycles, 0, BEGIN)
  }

  // ---- attach is never reached unprepared -----------------------------------------------------------

  /** The outcome, if there is one, is sound: nothing was missing, and completion means success. */
  ghost predicate Sound(p: Progress) {
    p.Done? ==>
      && p.outcome != Failed(NoPrerequisites)
      && (p.outcome.Complete? ==> p.outcome.pickup.ok && p.outcome.position.ok && p.outcome.verification.ok)
  }

  ghost predicate Secured(v: Option<Value>) {
    v.Some? && v.value.ok
  }

  lemma {:induction false} SoundCycle(store: Store, maxCycles: int, cycle: nat, ctx: Context)
    requires ctx.target == LocalizeAndPickUp || (Secured(ctx.pickup) && Secured(ctx.position))
    ensures Sound(FromCycle(store, maxCycles, cycle, ctx))
    decreases maxCycles - cycle, 3
  {
    hide Name;
    if cycle < maxCycles {
      if ctx.target != LocalizeAndPickUp {
        SoundPosition(store, maxCycles, cycle, ctx);
      } else if Name(PickUp, cycle) in store && store[Name(PickUp, cycle)].ok {
        SoundPosition(store, maxCycles, cycle, ctx.(pickup := Some(store[Name(PickUp, cycle)])));
      }
    }
  }

  lemma {:induction false} SoundPosition(store: Store, maxCycles: int, cycle: nat, ctx: Context)
    requires cycle < maxCycles && Secured(ctx.pickup) && (ctx.target == AttachAgain ==> Secured(ctx.position))
    ensures Sound(FromPosition(store, maxCycles, cycle, ctx))
    decreases maxCycles - cycle, 2
  {
    hide Name;
    if ctx.target == AttachAgain {
      SoundAttach(store, maxCycles, cycle, ctx);
    } else if Name(GoTo, cycle) in store && store[Name(GoTo, cycle)].ok {
      SoundAttach(store, maxCycles, cycle, ctx.(position := Some(store[Name(GoTo, cycle)])));
    }
  }

  lemma {:induction false} SoundAttach(store: Store, maxCycles: int, cycle: nat, ctx: Context)
    requires cycle < maxCycles && Secured(ctx.pickup) && Secured(ctx.position)
    ensures Sound(FromAttach(store, maxCycles, cycle, ctx))
    decreases maxCycles - cycle, 1
  {
    hide Name;
    if Name(Verify, cycle) in store && store[Name(Verify, cycle)].target.Some? {
      SoundCycle(store, maxCycles, cycle + 1, ctx.(target := store[Name(Verify, cycle)].target.value));
    }
  }

  /** Attach is only ever reached with a secured pickup and a reached position: the guard against
      missing prerequisites cannot fire, whatever is committed, and completion means all succeeded. */
  lemma AttachIsNeverUnprepared(store: Store, maxCycles: int)
    ensures Sound(Walk(store, maxCycles))
  {
    SoundCycle(store, maxCycles, 0, BEGIN);
  }

  // ---- the same, told cycle by cycle -------------------------------------------------------------------

  /** Whether a cycle takes a stage: the first takes every one, a later one those that the verification
      before it asked to be redone. */
  ghost predicate Due(store: Store, stage: Stage, cycle: nat) {
    cycle == 0 || stage == Attach || stage == Verify || AskedFor(store, stage, cycle - 1)
  }

  ghost predicate AskedFor(store: Store, stage: Stage, cycle: nat) {
    Name(Verify, cycle) in store &&
    var target := store[Name(Verify, cycle)].target;
    target == Some(LocalizeAndPickUp) || (target == Some(GoToKnownPosition) && stage == GoTo)
  }

  /** A step is passed if it is not due, or committed with a value that lets the workflow go on: success, and
      for a verification an insecure attachment with something to redo. */
  ghost predicate Passed(store: Store, stage: Stage, cycle: nat) {
    Due(store, stage, cycle) ==> Name(stage, cycle) in store && GoesOn(stage, store[Name(stage, cycle)])
  }

  predicate GoesOn(stage: Stage, value: Value) {
    match stage
    case PickUp => value.ok
    case GoTo => value.ok
    case Attach => true
    case Verify => !value.ok && value.target.Some?
  }

  ghost predicate PassedUpTo(store: Store, rank: nat) {
    forall stage, cycle: nat :: Rank(stage, cycle) < rank ==> Passed(store, stage, cycle)
  }

  /** A step that is due, after all before it were passed. */
  ghost predicate Reached(store: Store, maxCycles: int, stage: Stage, cycle: nat) {
    cycle < maxCycles && Due(store, stage, cycle) && PassedUpTo(store, Rank(stage, cycle))
  }

  ghost predicate ReachedCommitted(store: Store, maxCycles: int, stage: Stage, cycle: nat) {
    Reached(store, maxCycles, stage, cycle) && Name(stage, cycle) in store
  }

  /** The last cycle up to this one that took the stage. */
  ghost function Latest(store: Store, stage: Stage, cycle: nat): (k: nat)
    ensures k <= cycle
  {
    if cycle == 0 || Due(store, stage, cycle) then cycle else Latest(store, stage, cycle - 1)
  }

  ghost predicate LatestIs(store: Store, stage: Stage, cycle: nat, value: Value) {
    Name(stage, Latest(store, stage, cycle)) in store && store[Name(stage, Latest(store, stage, cycle))] == value
  }

  /** What each outcome says of the committed values. */
  ghost predicate Means(store: Store, maxCycles: int, p: Progress) {
    match p
    case Needs(stage, cycle) => Reached(store, maxCycles, stage, cycle) && Name(stage, cycle) !in store
    case Done(Failed(PickupFailed)) =>
      exists c: nat :: ReachedCommitted(store, maxCycles, PickUp, c) && !store[Name(PickUp, c)].ok
    case Done(Failed(PositionFailed)) =>
      exists c: nat :: ReachedCommitted(store, maxCycles, GoTo, c) && !store[Name(GoTo, c)].ok
    case Done(Failed(NoPrerequisites)) => false
    case Done(Failed(NoRecoveryTarget)) =>
      exists c: nat :: ReachedCommitted(store, maxCycles, Verify, c) && !store[Name(Verify, c)].ok && store[Name(Verify, c)].target.None?
    case Done(Failed(NotSecure)) => PassedUpTo(store, Rank(PickUp, if maxCycles < 0 then 0 else maxCycles))
    case Done(Complete(cycles, pickup, position, attachment, verification)) =>
      && cycles > 0 && ReachedCommitted(store, maxCycles, Verify, cycles - 1)
      && verification == store[Name(Verify, cycles - 1)] && verification.ok
      && Name(Attach, cycles - 1) in store && attachment == store[Name(Attach, cycles - 1)]
      && LatestIs(store, PickUp, cycles - 1, pickup) && LatestIs(store, GoTo, cycles - 1, position)
  }

  /** The workflow comes to exactly the step or the outcome that the committed values mean. */
  lemma TheWalkIsWhatItMeans(store: Store, maxCycles: int, p: Progress)
    ensures Walk(store, maxCycles) == p <==> Means(store, maxCycles, p)
  {
    hide Name, Means, FromCycle;
    Begins(store);
    CycleMeans(store, maxCycles, 0, BEGIN);
    if Means(store, maxCycles, p) {
      OneMeaning(store, maxCycles, p, Walk(store, maxCycles));
    }
  }

  /** At the start of a cycle: everything before is passed, and the context is what it left behind. */
  ghost predicate At(store: Store, cycle: nat, ctx: Context) {
    && PassedUpTo(store, Rank(PickUp, cycle))
    && if cycle == 0 then ctx == BEGIN
       else
         && Name(Verify, cycle - 1) in store && Some(ctx.target) == store[Name(Verify, cycle - 1)].target
         && ctx.pickup.Some? && LatestIs(store, PickUp, cycle - 1, ctx.pickup.value)
         && ctx.position.Some? && LatestIs(store, GoTo, cycle - 1, ctx.position.value)
  }

  lemma Begins(store: Store)
    ensures At(store, 0, BEGIN)
  {
  }

  lemma OnePasses(store: Store, stage: Stage, cycle: nat)
    requires PassedUpTo(store, Rank(stage, cycle)) && Passed(store, stage, cycle)
    ensures PassedUpTo(store, Rank(stage, cycle) + 1)
  {
    forall s: Stage, c: nat | Rank(s, c) < Rank(stage, cycle) + 1 ensures Passed(store, s, c) {
      if Rank(s, c) == Rank(stage, cycle) {
        RanksAreDistinct(s, c, stage, cycle);
      }
    }
  }

  lemma RanksAreDistinct(s: Stage, c: nat, t: Stage, d: nat)
    requires Rank(s, c) == Rank(t, d)
    ensures s == t && c == d
  {
  }

  lemma RanksFollow(cycle: nat)
    ensures Rank(PickUp, cycle) + 1 == Rank(GoTo, cycle) && Rank(GoTo, cycle) + 1 == Rank(Attach, cycle)
    ensures Rank(Attach, cycle) + 1 == Rank(Verify, cycle) && Rank(Verify, cycle) + 1 == Rank(PickUp, cycle + 1)
  {
  }

  lemma {:induction false} CycleMeans(store: Store, maxCycles: int, cycle: nat, ctx: Context)
    requires At(store, cycle, ctx) && (cycle <= maxCycles || cycle == 0)
    ensures Means(store, maxCycles, FromCycle(store, maxCycles, cycle, ctx))
    decreases maxCycles - cycle, 3
  {
    hide Name, PassedUpTo, Rank, Latest;
    RanksFollow(cycle);
    LatestStep(store, PickUp, cycle);
    LatestStep(store, GoTo, cycle);
    if cycle < maxCycles {
      if ctx.target != LocalizeAndPickUp {
        OnePasses(store, PickUp, cycle);
        PositionMeans(store, maxCycles, cycle, ctx);
      } else if Name(PickUp, cycle) in store {
        assert ReachedCommitted(store, maxCycles, PickUp, cycle);
        if store[Name(PickUp, cycle)].ok {
          OnePasses(store, PickUp, cycle);
          PositionMeans(store, maxCycles, cycle, ctx.(pickup := Some(store[Name(PickUp, cycle)])));
        }
      }
    }
  }

  /** With the pickup of a cycle behind it. */
  ghost predicate PickedUpAt(store: Store, cycle: nat, ctx: Context) {
    && PassedUpTo(store, Rank(GoTo, cycle))
    && ctx.pickup.Some? && LatestIs(store, PickUp, cycle, ctx.pickup.value)
    && (Due(store, GoTo, cycle) <==> ctx.target != AttachAgain)
    && (!Due(store, GoTo, cycle) ==> ctx.position.Some? && LatestIs(store, GoTo, cycle, ctx.position.value))
  }

  lemma {:induction false} PositionMeans(store: Store, maxCycles: int, cycle: nat, ctx: Context)
    requires PickedUpAt(store, cycle, ctx) && cycle < maxCycles
    ensures Means(store, maxCycles, FromPosition(store, maxCycles, cycle, ctx))
    decreases maxCycles - cycle, 2
  {
    hide Name, PassedUpTo, Rank, Latest;
    RanksFollow(cycle);
    LatestStep(store, GoTo, cycle);
    if ctx.target == AttachAgain {
      OnePasses(store, GoTo, cycle);
      AttachMeans(store, maxCycles, cycle, ctx);
    } else if Name(GoTo, cycle) in store {
      assert ReachedCommitted(store, maxCycles, GoTo, cycle);
      if store[Name(GoTo, cycle)].ok {
        OnePasses(store, GoTo, cycle);
        AttachMeans(store, maxCycles, cycle, ctx.(position := Some(store[Name(GoTo, cycle)])));
      }
    }
  }

  /** With the pickup and the position of a cycle behind it. */
  ghost predicate PreparedAt(store: Store, cycle: nat, ctx: Context) {
    && PassedUpTo(store, Rank(Attach, cycle))
    && ctx.pickup.Some? && LatestIs(store, PickUp, cycle, ctx.pickup.value)
    && ctx.position.Some? && LatestIs(store, GoTo, cycle, ctx.position.value)
  }

  lemma {:induction false} AttachMeans(store: Store, maxCycles: int, cycle: nat, ctx: Context)
    requires PreparedAt(store, cycle, ctx) && cycle < maxCycles
    ensures Means(store, maxCycles, FromAttach(store, maxCycles, cycle, ctx))
    decreases maxCycles - cycle, 1
  {
    hide Name, PassedUpTo, Rank, Latest;
    RanksFollow(cycle);
    if Name(Attach, cycle) in store {
      OnePasses(store, Attach, cycle);
      if Name(Verify, cycle) in store {
        assert ReachedCommitted(store, maxCycles, Verify, cycle);
        var verdict := store[Name(Verify, cycle)];
        if !verdict.ok && verdict.target.Some? {
          OnePasses(store, Verify, cycle);
          CycleMeans(store, maxCycles, cycle + 1, ctx.(target := verdict.target.value));
        }
      }
    }
  }

  lemma LatestStep(store: Store, stage: Stage, cycle: nat)
    ensures Latest(store, stage, cycle) == if cycle == 0 || Due(store, stage, cycle) then cycle else Latest(store, stage, cycle - 1)
  {
  }

  /** Of two reached steps neither is passed before the other. */
  lemma ReachedOnce(store: Store, maxCycles: int, s: Stage, c: nat, t: Stage, d: nat)
    requires Reached(store, maxCycles, s, c) && !Passed(store, s, c)
    requires Reached(store, maxCycles, t, d) && !Passed(store, t, d)
    ensures s == t && c == d
  {
    if Rank(s, c) == Rank(t, d) {
      RanksAreDistinct(s, c, t, d);
    }
  }

  /** The step at which the workflow stops, unless it runs out of cycles: reached, but not passed. */
  ghost predicate EndsAt(store: Store, maxCycles: int, p: Progress, stage: Stage, cycle: nat) {
    Reached(store, maxCycles, stage, cycle) && !Passed(store, stage, cycle) &&
    match p
    case Needs(s, c) => s == stage && c == cycle && Name(stage, cycle) !in store
    case Done(Failed(PickupFailed)) => stage == PickUp && Name(stage, cycle) in store
    case Done(Failed(PositionFailed)) => stage == GoTo && Name(stage, cycle) in store
    case Done(Failed(NoRecoveryTarget)) => stage == Verify && Name(stage, cycle) in store && !store[Name(stage, cycle)].ok
    case Done(Complete(cycles, pickup, position, attachment, verification)) =>
      stage == Verify && Name(stage, cycle) in store && store[Name(stage, cycle)].ok && cycles == cycle + 1
    case _ => false
  }

  lemma WhereItStops(store: Store, maxCycles: int, p: Progress) returns (stage: Stage, cycle: nat)
    requires Means(store, maxCycles, p) && p != Done(Failed(NotSecure))
    ensures EndsAt(store, maxCycles, p, stage, cycle)
  {
    hide Name, PassedUpTo, Rank, Latest;
    match p
    case Needs(s, c) => stage, cycle := s, c;
    case Done(Failed(PickupFailed)) =>
      stage, cycle := PickUp, 0;
      cycle :| ReachedCommitted(store, maxCycles, PickUp, cycle) && !store[Name(PickUp, cycle)].ok;
    case Done(Failed(PositionFailed)) =>
      stage, cycle := GoTo, 0;
      cycle :| ReachedCommitted(store, maxCycles, GoTo, cycle) && !store[Name(GoTo, cycle)].ok;
    case Done(Failed(NoRecoveryTarget)) =>
      stage, cycle := Verify, 0;
      cycle :| ReachedCommitted(store, maxCycles, Verify, cycle) && !store[Name(Verify, cycle)].ok && store[Name(Verify, cycle)].target.None?;
    case Done(Complete(cycles, _, _, _, _)) => stage, cycle := Verify, cycles - 1;
    case _ =>
  }

  lemma OneMeaning(store: Store, maxCycles: int, p: Progress, q: Progress)
    requires Means(store, maxCycles, p) && Means(store, maxCycles, q)
    ensures p == q
  {
    hide Name, PassedUpTo, Rank, Latest;
    if p == Done(Failed(NotSecure)) {
      NothingStops(store, maxCycles, q);
    } else if q == Done(Failed(NotSecure)) {
      NothingStops(store, maxCycles, p);
    } else {
      var s, c := WhereItStops(store, maxCycles, p);
      var t, d := WhereItStops(store, maxCycles, q);
      ReachedOnce(store, maxCycles, s, c, t, d);
    }
  }

  lemma NothingStops(store: Store, maxCycles: int, p: Progress)
    requires Means(store, maxCycles, Done(Failed(NotSecure))) && Means(store, maxCycles, p)
    ensures p == Done(Failed(NotSecure))
  {
    if p != Done(Failed(NotSecure)) {
      var stage, cycle := WhereItStops(store, maxCycles, p);
      assert false;
    }
  }

  // ---- committing in order ----------------------------------------------------------------------------

  function Rank(stage: Stage, cycle: nat): nat {
    4 * cycle + match stage case PickUp => 0 case GoTo => 1 case Attach => 2 case Verify => 3
  }

  /** If a step is still needed, it is one of this rank or later, of a cycle that exists. */
  ghost predicate From(p: Progress, rank: nat, maxCycles: int) {
    p.Needs? ==> Rank(p.stage, p.cycle) >= rank && p.cycle < maxCycles
  }

  /** Committing exactly the step that was needed leaves only later ones. */
  ghost predicate Advances(before: Progress, after: Progress, maxCycles: int) {
    before.Needs? ==> From(after, Rank(before.stage, before.cycle) + 1, maxCycles)
  }

  ghost function Committed(store: Store, p: Progress, v: Value): Store
    requires p.Needs?
  {
    store[Name(p.stage, p.cycle) := v]
  }

  lemma {:induction false} CycleAhead(store: Store, maxCycles: int, cycle: nat, ctx: Context)
    ensures From(FromCycle(store, maxCycles, cycle, ctx), Rank(PickUp, cycle), maxCycles)
    decreases maxCycles - cycle, 3
  {
    hide Name;
    if cycle < maxCycles {
      PositionAhead(store, maxCycles, cycle, ctx);
      if Name(PickUp, cycle) in store {
        PositionAhead(store, maxCycles, cycle, ctx.(pickup := Some(store[Name(PickUp, cycle)])));
      }
    }
  }

  lemma {:induction false} PositionAhead(store: Store, maxCycles: int, cycle: nat, ctx: Context)
    requires cycle < maxCycles
    ensures From(FromPosition(store, maxCycles, cycle, ctx), Rank(GoTo, cycle), maxCycles)
    decreases maxCycles - cycle, 2
  {
    hide Name;
    AttachAhead(store, maxCycles, cycle, ctx);
    if Name(GoTo, cycle) in store {
      AttachAhead(store, maxCycles, cycle, ctx.(position := Some(store[Name(GoTo, cycle)])));
    }
  }

  lemma {:induction false} AttachAhead(store: Store, maxCycles: int, cycle: nat, ctx: Context)
    requires cycle < maxCycles
    ensures From(FromAttach(store, maxCycles, cycle, ctx), Rank(Attach, cycle), maxCycles)
    decreases maxCycles - cycle, 1
  {
    hide Name;
    if Name(Verify, cycle) in store && store[Name(Verify, cycle)].target.Some? {
      CycleAhead(store, maxCycles, cycle + 1, ctx.(target := store[Name(Verify, cycle)].target.value));
    }
  }

  lemma {:induction false} CycleAdvances(store: Store, maxCycles: int, cycle: nat, ctx: Context, v: Value)
    requires FromCycle(store, maxCycles, cycle, ctx).Needs?
    ensures var p := FromCycle(store, maxCycles, cycle, ctx);
      p.cycle < maxCycles && Advances(p, FromCycle(Committed(store, p, v), maxCycles, cycle, ctx), maxCycles)
    decreases maxCycles - cycle, 3
  {
    hide Name;
    var p := FromCycle(store, maxCycles, cycle, ctx);
    CycleAhead(store, maxCycles, cycle, ctx);
    var more := Committed(store, p, v);
    if ctx.target != LocalizeAndPickUp {
      PositionAdvances(store, maxCycles, cycle, ctx, v);
    } else if Name(PickUp, cycle) !in store {
      PositionAhead(more, maxCycles, cycle, ctx.(pickup := Some(v)));
    } else {
      var next := ctx.(pickup := Some(store[Name(PickUp, cycle)]));
      PositionAdvances(store, maxCycles, cycle, next, v);
      Untouched(store, p, v, PickUp, cycle);
    }
  }

  lemma Untouched(store: Store, p: Progress, v: Value, stage: Stage, cycle: nat)
    requires p.Needs? && Name(p.stage, p.cycle) !in store && Name(stage, cycle) in store
    ensures Name(stage, cycle) in Committed(store, p, v) && Committed(store, p, v)[Name(stage, cycle)] == store[Name(stage, cycle)]
  {
  }

  lemma {:induction false} PositionAdvances(store: Store, maxCycles: int, cycle: nat, ctx: Context, v: Value)
    requires cycle < maxCycles && FromPosition(store, maxCycles, cycle, ctx).Needs?
    ensures var p := FromPosition(store, maxCycles, cycle, ctx);
      && Name(p.stage, p.cycle) !in store
      && Advances(p, FromPosition(Committed(store, p, v), maxCycles, cycle, ctx), maxCycles)
    decreases maxCycles - cycle, 2
  {
    hide Name;
    var p := FromPosition(store, maxCycles, cycle, ctx);
    var more := Committed(store, p, v);
    if ctx.target == AttachAgain {
      AttachAdvances(store, maxCycles, cycle, ctx, v);
    } else if Name(GoTo, cycle) !in store {
      AttachAhead(more, maxCycles, cycle, ctx.(position := Some(v)));
    } else {
      var next := ctx.(position := Some(store[Name(GoTo, cycle)]));
      AttachAdvances(store, maxCycles, cycle, next, v);
      Untouched(store, p, v, GoTo, cycle);
    }
  }

  lemma {:induction false} AttachAdvances(store: Store, maxCycles: int, cycle: nat, ctx: Context, v: Value)
    requires cycle < maxCycles && FromAttach(store, maxCycles, cycle, ctx).Needs?
    ensures var p := FromAttach(store, maxCycles, cycle, ctx);
      && Name(p.stage, p.cycle) !in store
      && Advances(p, FromAttach(Committed(store, p, v), maxCycles, cycle, ctx), maxCycles)
    decreases maxCycles - cycle, 1
  {
    hide Name;
    var p := FromAttach(store, maxCycles, cycle, ctx);
    var more := Committed(store, p, v);
    NamesAreDistinct(Attach, cycle, Verify, cycle);
    if Name(Attach, cycle) !in store {
      AfterAttach(more, maxCycles, cycle, ctx);
    } else if Name(Verify, cycle) !in store {
      Untouched(store, p, v, Attach, cycle);
      if v.target.Some? {
        CycleAhead(more, maxCycles, cycle + 1, ctx.(target := v.target.value));
      }
    } else {
      var next := ctx.(target := store[Name(Verify, cycle)].target.value);
      CycleAdvances(store, maxCycles, cycle + 1, next, v);
      NeededIsMissing(store, maxCycles, cycle + 1, next);
      Untouched(store, p, v, Attach, cycle);
      Untouched(store, p, v, Verify, cycle);
    }
  }

  lemma AfterAttach(store: Store, maxCycles: int, cycle: nat, ctx: Context)
    requires cycle < maxCycles && Name(Attach, cycle) in store
    ensures From(FromAttach(store, maxCycles, cycle, ctx), Rank(Verify, cycle), maxCycles)
  {
    hide Name;
    if Name(Verify, cycle) in store && store[Name(Verify, cycle)].target.Some? {
      CycleAhead(store, maxCycles, cycle + 1, ctx.(target := store[Name(Verify, cycle)].target.value));
    }
  }

  lemma {:induction false} NeededIsMissing(store: Store, maxCycles: int, cycle: nat, ctx: Context)
    requires FromCycle(store, maxCycles, cycle, ctx).Needs?
    ensures var p := FromCycle(store, maxCycles, cycle, ctx); Name(p.stage, p.cycle) !in store
    decreases maxCycles - cycle, 3
  {
    hide Name;
    if ctx.target != LocalizeAndPickUp {
      MissingAtPosition(store, maxCycles, cycle, ctx);
    } else if Name(PickUp, cycle) in store {
      MissingAtPosition(store, maxCycles, cycle, ctx.(pickup := Some(store[Name(PickUp, cycle)])));
    }
  }

  lemma {:induction false} MissingAtPosition(store: Store, maxCycles: int, cycle: nat, ctx: Context)
    requires cycle < maxCycles && FromPosition(store, maxCycles, cycle, ctx).Needs?
    ensures var p := FromPosition(store, maxCycles, cycle, ctx); Name(p.stage, p.cycle) !in store
    decreases maxCycles - cycle, 2
  {
    hide Name;
    if ctx.target == AttachAgain {
      MissingAtAttach(store, maxCycles, cycle, ctx);
    } else if Name(GoTo, cycle) in store {
      MissingAtAttach(store, maxCycles, cycle, ctx.(position := Some(store[Name(GoTo, cycle)])));
    }
  }

  lemma {:induction false} MissingAtAttach(store: Store, maxCycles: int, cycle: nat, ctx: Context)
    requires cycle < maxCycles && FromAttach(store, maxCycles, cycle, ctx).Needs?
    ensures var p := FromAttach(store, maxCycles, cycle, ctx); Name(p.stage, p.cycle) !in store
    decreases maxCycles - cycle, 1
  {
    hide Name;
    if Name(Attach, cycle) in store && Name(Verify, cycle) in store {
      NeededIsMissing(store, maxCycles, cycle + 1, ctx.(target := store[Name(Verify, cycle)].target.value));
    }
  }

  // ---- histories of commits ----------------------------------------------------------------------------

  datatype Commit = Commit(stage: Stage, cycle: nat, value: Value)

  ghost function Stored(history: seq<Commit>): Store {
    if history == [] then map[]
    else
      var last := history[|history| - 1];
      Stored(history[..|history| - 1])[Name(last.stage, last.cycle) := last.value]
  }

  /** Every commit, in whichever attempt it was made, was of the first step still missing then. */
  ghost predicate Trajectory(history: seq<Commit>, maxCycles: int) {
    history == [] ||
      (var before, last := history[..|history| - 1], history[|history| - 1];
       Trajectory(before, maxCycles) && Walk(Stored(before), maxCycles) == Needs(last.stage, last.cycle))
  }

  lemma CommitExtends(history: seq<Commit>, c: Commit, maxCycles: int)
    requires Trajectory(history, maxCycles) && Walk(Stored(history), maxCycles) == Needs(c.stage, c.cycle)
    ensures Trajectory(history + [c], maxCycles) && Stored(history + [c]) == Stored(history)[Name(c.stage, c.cycle) := c.value]
  {
    hide Name, Walk;
    assert (history + [c])[..|history|] == history;
  }

  /** Commits come in order of their rank, so no name is committed twice, over any number of attempts,
      and there are at most four for each cycle. */
  lemma {:induction false} CommitsAreOrdered(history: seq<Commit>, maxCycles: int)
    requires Trajectory(history, maxCycles)
    ensures forall i, j :: 0 <= i < j < |history| ==>
      Rank(history[i].stage, history[i].cycle) < Rank(history[j].stage, history[j].cycle)
    ensures history == [] || From(Walk(Stored(history), maxCycles),
                                  Rank(history[|history| - 1].stage, history[|history| - 1].cycle) + 1, maxCycles)
    ensures history != [] ==>
      |history| <= Rank(history[|history| - 1].stage, history[|history| - 1].cycle) + 1 <= 4 * maxCycles
  {
    hide Name, FromCycle, Rank;
    if history != [] {
      var n := |history| - 1;
      var before, last := history[..n], history[n];
      CommitsAreOrdered(before, maxCycles);
      CycleAdvances(Stored(before), maxCycles, 0, BEGIN, last.value);
      RankFits(last.stage, last.cycle, maxCycles);
      assert Stored(history) == Committed(Stored(before), Needs(last.stage, last.cycle), last.value);
    }
  }

  lemma RankFits(stage: Stage, cycle: nat, maxCycles: int)
    requires cycle < maxCycles
    ensures 0 <= Rank(stage, cycle) < 4 * maxCycles
  {
  }

  lemma RanksNameSteps(s: Stage, c: nat, t: Stage, d: nat)
    ensures Rank(s, c) == Rank(t, d) <==> Name(s, c) == Name(t, d)
  {
    NamesAreDistinct(s, c, t, d);
  }

  /** A commit history, however many crashed attempts it took, never holds one name twice. */
  lemma EachNameIsCommittedOnce(history: seq<Commit>, maxCycles: int, i: nat, j: nat)
    requires Trajectory(history, maxCycles) && i < j < |history|
    ensures Name(history[i].stage, history[i].cycle) != Name(history[j].stage, history[j].cycle)
  {
    hide Name, Rank;
    CommitsAreOrdered(history, maxCycles);
    RanksNameSteps(history[i].stage, history[i].cycle, history[j].stage, history[j].cycle);
  }

  // ---- what stays true as more is committed --------------------------------------------------------------

  ghost predicate Extends(more: Store, store: Store) {
    forall k :: k in store ==> k in more && more[k] == store[k]
  }

  /** Whatever else is committed later, the workflow comes through this point. */
  ghost predicate Leads(store: Store, maxCycles: int, cycle: nat, ctx: Context) {
    forall s: Store :: Extends(s, store) ==> Walk(s, maxCycles) == FromCycle(s, maxCycles, cycle, ctx)
  }

  ghost predicate LeadsToPosition(store: Store, maxCycles: int, cycle: nat, ctx: Context) {
    cycle < maxCycles && forall s: Store :: Extends(s, store) ==> Walk(s, maxCycles) == FromPosition(s, maxCycles, cycle, ctx)
  }

  ghost predicate LeadsToAttach(store: Store, maxCycles: int, cycle: nat, ctx: Context) {
    cycle < maxCycles && forall s: Store :: Extends(s, store) ==> Walk(s, maxCycles) == FromAttach(s, maxCycles, cycle, ctx)
  }

  lemma ThroughPickUp(store: Store, maxCycles: int, cycle: nat, ctx: Context)
    requires Leads(store, maxCycles, cycle, ctx) && cycle < maxCycles
    requires ctx.target == LocalizeAndPickUp ==> Name(PickUp, cycle) in store && store[Name(PickUp, cycle)].ok
    ensures LeadsToPosition(store, maxCycles, cycle,
      if ctx.target == LocalizeAndPickUp then ctx.(pickup := Some(store[Name(PickUp, cycle)])) else ctx)
  {
    hide Name, Walk, FromPosition;
  }

  lemma ThroughPosition(store: Store, maxCycles: int, cycle: nat, ctx: Context)
    requires LeadsToPosition(store, maxCycles, cycle, ctx)
    requires ctx.target != AttachAgain ==> Name(GoTo, cycle) in store && store[Name(GoTo, cycle)].ok
    ensures LeadsToAttach(store, maxCycles, cycle,
      if ctx.target != AttachAgain then ctx.(position := Some(store[Name(GoTo, cycle)])) else ctx)
  {
    hide Name, Walk, FromAttach;
  }

  lemma ThroughVerdict(store: Store, maxCycles: int, cycle: nat, ctx: Context)
    requires LeadsToAttach(store, maxCycles, cycle, ctx) && ctx.pickup.Some? && ctx.position.Some?
    requires Name(Attach, cycle) in store && Name(Verify, cycle) in store
    requires !store[Name(Verify, cycle)].ok && store[Name(Verify, cycle)].target.Some?
    ensures Leads(store, maxCycles, cycle + 1, ctx.(target := store[Name(Verify, cycle)].target.value))
  {
    hide Name, Walk, FromCycle;
    var verdict := store[Name(Verify, cycle)];
    forall s: Store | Extends(s, store)
      ensures Walk(s, maxCycles) == FromCycle(s, maxCycles, cycle + 1, ctx.(target := verdict.target.value))
    {
      assert s[Name(Verify, cycle)] == verdict && Name(Attach, cycle) in s;
      assert FromAttach(s, maxCycles, cycle, ctx) == FromVerdict(s, maxCycles, cycle, ctx, s[Name(Attach, cycle)], verdict);
    }
  }

  lemma StillLeads(store: Store, more: Store, maxCycles: int, cycle: nat, ctx: Context)
    requires Extends(more, store)
    ensures Leads(store, maxCycles, cycle, ctx) ==> Leads(more, maxCycles, cycle, ctx)
    ensures LeadsToPosition(store, maxCycles, cycle, ctx) ==> LeadsToPosition(more, maxCycles, cycle, ctx)
    ensures LeadsToAttach(store, maxCycles, cycle, ctx) ==> LeadsToAttach(more, maxCycles, cycle, ctx)
  {
    hide Name, Walk, FromCycle, FromPosition, FromAttach;
    forall s: Store | Extends(s, more) ensures Extends(s, store) {
    }
  }

  // ---- the engine -----------------------------------------------------------------------------------------

  /** What the world does when a step is asked for; it may crash before or after the commit. */
  datatype Effect = Yields(value: Value) | Breaks | CrashesAfter(value: Value)

  datatype Ask = Ask(stage: Stage, cycle: nat)

  ghost predicate Increasing(asks: seq<Ask>) {
    forall i, j :: 0 <= i < j < |asks| ==> Rank(asks[i].stage, asks[i].cycle) < Rank(asks[j].stage, asks[j].cycle)
  }

  ghost predicate Below(asks: seq<Ask>, rank: nat) {
    forall a :: a in asks ==> Rank(a.stage, a.cycle) < rank
  }

  /** All step names asked for in one run are distinct. */
  lemma AskedNamesAreDistinct(asks: seq<Ask>, i: nat, j: nat)
    requires Increasing(asks) && i < j < |asks|
    ensures Name(asks[i].stage, asks[i].cycle) != Name(asks[j].stage, asks[j].cycle)
  {
    hide Name, Rank;
    RanksNameSteps(asks[i].stage, asks[i].cycle, asks[j].stage, asks[j].cycle);
  }

  ghost predicate Among(some: seq<Ask>, all: seq<Ask>) {
    forall a :: a in some ==> a in all
  }

  lemma AmongExtends(some: seq<Ask>, all: seq<Ask>, a: Ask)
    requires Among(some, all)
    ensures Among(some, all + [a]) && Among(some + [a], all + [a])
    ensures forall rank :: Below(all, rank) ==> Below(some, rank)
  {
    hide Rank;
  }

  lemma AsksExtend(asks: seq<Ask>, a: Ask)
    requires Increasing(asks) && Below(asks, Rank(a.stage, a.cycle))
    ensures Increasing(asks + [a]) && Below(asks + [a], Rank(a.stage, a.cycle) + 1)
  {
    hide Rank;
    var more := asks + [a];
    assert forall i :: 0 <= i < |asks| ==> more[i] == asks[i] && asks[i] in asks;
  }

  class Checkpoints {
    const maxCycles: int
    const world: nat -> Effect
    var store: Store
    var events: nat
    ghost var history: seq<Commit>
    ghost var asked: seq<Ask>     // this attempt's steps, in order
    ghost var executed: seq<Ask>  // the ones among them that were carried out and not just recalled

    ghost predicate Valid()
      reads this
    {
      && store == Stored(history) && Trajectory(history, maxCycles)
      && Increasing(asked) && Increasing(executed) && Among(executed, asked)
    }

    constructor (maxCycles: int, world: nat -> Effect)
      ensures Valid() && this.maxCycles == maxCycles && store == map[] && history == [] && events == 0
    {
      this.maxCycles, this.world := maxCycles, world;
      store, events, history, asked, executed := map[], 0, [], [], [];
    }

    /** A world in which nothing breaks or crashes. */
    ghost predicate Calm() {
      forall n :: world(n).Yields?
    }

    /** A world that crashes, if it does, only once a step is committed. */
    ghost predicate Unbroken() {
      forall n :: !world(n).Breaks?
    }

    /** `ctx.step`: recall the committed value, or carry the step out and commit. None where the attempt dies. */
    method Step(stage: Stage, cycle: nat) returns (value: Option<Value>)
      requires Valid() && Below(asked, Rank(stage, cycle))
      requires Name(stage, cycle) in store || Walk(store, maxCycles) == Needs(stage, cycle)
      modifies this
      ensures Valid() && Below(asked, Rank(stage, cycle) + 1) && asked == old(asked) + [Ask(stage, cycle)]
      ensures Extends(store, old(store)) && old(history) <= history
      ensures Name(stage, cycle) in old(store) ==> store == old(store) && history == old(history) && executed == old(executed)
      ensures Name(stage, cycle) !in old(store) ==>
        && executed == old(executed) + [Ask(stage, cycle)]
        && (Name(stage, cycle) in store <==> !world(old(events)).Breaks?)
        && (Name(stage, cycle) in store ==> store[Name(stage, cycle)] == world(old(events)).value)
      ensures value.Some? ==> Name(stage, cycle) in store && store[Name(stage, cycle)] == value.value
      ensures events == old(events) + 1
      ensures value.None? <==> world(old(events)).Breaks? || (world(old(events)).CrashesAfter? && Name(stage, cycle) !in old(store))
      ensures value.None? ==> |history| > |old(history)| || world(old(events)).Breaks?
    {
      hide Name, Walk, Rank, Increasing, Below, Among, Trajectory, Stored;
      var effect := world(events);
      events := events + 1;
      AmongExtends(executed, asked, Ask(stage, cycle));
      AsksExtend(asked, Ask(stage, cycle));
      AsksExtend(executed, Ask(stage, cycle));
      asked := asked + [Ask(stage, cycle)];
      if Name(stage, cycle) in store {
        return if effect.Breaks? then None else Some(store[Name(stage, cycle)]);
      }
      executed := executed + [Ask(stage, cycle)];
      if effect.Breaks? {
        return None;
      }
      CommitExtends(history, Commit(stage, cycle, effect.value), maxCycles);
      history := history + [Commit(stage, cycle, effect.value)];
      store := store[Name(stage, cycle) := effect.value];
      return if effect.CrashesAfter? then None else Some(effect.value);
    }

    /** One attempt at the workflow, from the top. Whatever earlier attempts left behind, it asks for
        steps in order, carries out only uncommitted ones starting with the first, and if it ends
        at all, its outcome is the one the committed values determine. */
    method Attempt() returns (outcome: Option<Outcome>)
      requires Valid()
      modifies this
      ensures Valid() && old(history) <= history && Extends(store, old(store))
      ensures outcome.Some? ==> Walk(store, maxCycles) == Done(outcome.value)
      ensures Calm() ==> outcome.Some?
      ensures Unbroken() && outcome.None? ==> |history| > |old(history)|
      ensures Fresh(old(store), store, executed, maxCycles)
    {
      hide Name, Walk, Rank, FromCycle, Leads, LeadsToPosition, LeadsToAttach, Extends, Fresh, Below, Checkpoints.Valid, Checkpoints.Calm, Checkpoints.Unbroken;
      Restart();
      ghost var began := store;
      var target, pickup, position := LocalizeAndPickUp, None, None;
      Starts(store, maxCycles);
      for cycle := 0 to Max(maxCycles)
        invariant Going(began) && old(history) <= history
        invariant Leads(store, maxCycles, cycle, Context(target, pickup, position)) && Below(asked, Rank(PickUp, cycle))
        invariant if cycle == 0 then target == LocalizeAndPickUp else pickup.Some? && position.Some?
      {
        if target == LocalizeAndPickUp {
          pickup := DoPickUp(cycle, Context(target, pickup, position), began);
          if pickup.None? {
            return None;
          }
          if !pickup.value.ok {
            return Some(Failed(PickupFailed));
          }
        } else {
          SkipPickUp(store, maxCycles, cycle, Context(target, pickup, position), asked);
        }
        if target != AttachAgain {
          position := DoPosition(cycle, Context(target, pickup, position), began);
          if position.None? {
            return None;
          }
          if !position.value.ok {
            return Some(Failed(PositionFailed));
          }
        } else {
          SkipPosition(store, maxCycles, cycle, Context(target, pickup, position), asked);
        }
        if pickup.None? || position.None? {
          assert false;  // the guard against missing prerequisites, which cannot fire
        }
        var attachment := DoAttach(cycle, Context(target, pickup, position), began);
        if attachment.None? {
          return None;
        }
        var verification := DoVerify(cycle, Context(target, pickup, position), attachment.value, began);
        if verification.None? {
          return None;
        }
        if verification.value.ok {
          return Some(Complete(cycle + 1, pickup.value, position.value, attachment.value, verification.value));
        }
        if verification.value.target.None? {
          return Some(Failed(NoRecoveryTarget));
        }
        target := verification.value.target.value;
      }
      AtEnd(store, maxCycles, Max(maxCycles), Context(target, pickup, position));
      outcome := Some(Failed(NotSecure));
    }

    /** Mid-attempt: the history only grew, and what was carried out began where the last attempt left off. */
    ghost predicate Going(began: Store)
      reads this
    {
      Valid() && Extends(store, began) && Fresh(began, store, executed, maxCycles)
    }

    method Restart()
      requires Valid()
      modifies this`asked, this`executed
      ensures Going(store) && asked == [] && executed == []
    {
      asked, executed := [], [];
    }

    /** One step of the attempt, at a point every further commit leads through. */
    method Do(stage: Stage, cycle: nat, ghost began: Store) returns (value: Option<Value>)
      requires Going(began) && Below(asked, Rank(stage, cycle))
      requires Name(stage, cycle) in store || Walk(store, maxCycles) == Needs(stage, cycle)
      modifies this
      ensures Going(began) && Below(asked, Rank(stage, cycle) + 1)
      ensures Extends(store, old(store)) && old(history) <= history
      ensures value.Some? ==> Name(stage, cycle) in store && store[Name(stage, cycle)] == value.value
      ensures Calm() ==> value.Some?
      ensures Unbroken() && value.None? ==> |history| > |old(history)|
    {
      hide Name, Walk, Rank;
      value := Step(stage, cycle);
      assert (Calm() ==> world(old(events)).Yields?) && (Unbroken() ==> !world(old(events)).Breaks?);
      if old(executed) == [] && executed != [] {
        assert executed[0] == Ask(stage, cycle);
      }
    }

    method DoPickUp(cycle: nat, ghost ctx: Context, ghost began: Store) returns (value: Option<Value>)
      requires Going(began) && Below(asked, Rank(PickUp, cycle)) && cycle < maxCycles
      requires Leads(store, maxCycles, cycle, ctx) && ctx.target == LocalizeAndPickUp
      modifies this
      ensures Going(began) && Below(asked, Rank(GoTo, cycle)) && old(history) <= history
      ensures value.Some? && value.value.ok ==> LeadsToPosition(store, maxCycles, cycle, ctx.(pickup := value))
      ensures value.Some? && !value.value.ok ==> Walk(store, maxCycles) == Done(Failed(PickupFailed))
      ensures Calm() ==> value.Some?
      ensures Unbroken() && value.None? ==> |history| > |old(history)|
    {
      hide Name, Walk, Leads, LeadsToPosition, LeadsToAttach, FromCycle, Extends, Below, Checkpoints.Going, Checkpoints.Calm, Checkpoints.Unbroken;
      AtPickUp(store, maxCycles, cycle, ctx);
      value := Do(PickUp, cycle, began);
      StillLeads(old(store), store, maxCycles, cycle, ctx);
      AtPickUp(store, maxCycles, cycle, ctx);
      if value.Some? && value.value.ok {
        ThroughPickUp(store, maxCycles, cycle, ctx);
      }
    }

    method DoPosition(cycle: nat, ghost ctx: Context, ghost began: Store) returns (value: Option<Value>)
      requires Going(began) && Below(asked, Rank(GoTo, cycle)) && cycle < maxCycles
      requires LeadsToPosition(store, maxCycles, cycle, ctx) && ctx.target != AttachAgain
      modifies this
      ensures Going(began) && Below(asked, Rank(Attach, cycle)) && old(history) <= history
      ensures value.Some? && value.value.ok ==> LeadsToAttach(store, maxCycles, cycle, ctx.(position := value))
      ensures value.Some? && !value.value.ok ==> Walk(store, maxCycles) == Done(Failed(PositionFailed))
      ensures Calm() ==> value.Some?
      ensures Unbroken() && value.None? ==> |history| > |old(history)|
    {
      hide Name, Walk, Leads, LeadsToPosition, LeadsToAttach, FromCycle, Extends, Below, Checkpoints.Going, Checkpoints.Calm, Checkpoints.Unbroken;
      AtPosition(store, maxCycles, cycle, ctx);
      value := Do(GoTo, cycle, began);
      StillLeads(old(store), store, maxCycles, cycle, ctx);
      AtPosition(store, maxCycles, cycle, ctx);
      if value.Some? && value.value.ok {
        ThroughPosition(store, maxCycles, cycle, ctx);
      }
    }

    method DoAttach(cycle: nat, ghost ctx: Context, ghost began: Store) returns (value: Option<Value>)
      requires Going(began) && Below(asked, Rank(Attach, cycle)) && cycle < maxCycles
      requires LeadsToAttach(store, maxCycles, cycle, ctx) && ctx.pickup.Some? && ctx.position.Some?
      modifies this
      ensures Going(began) && Below(asked, Rank(Verify, cycle)) && old(history) <= history
      ensures LeadsToAttach(store, maxCycles, cycle, ctx)
      ensures value.Some? ==> Name(Attach, cycle) in store && store[Name(Attach, cycle)] == value.value
      ensures Calm() ==> value.Some?
      ensures Unbroken() && value.None? ==> |history| > |old(history)|
    {
      hide Name, Walk, Leads, LeadsToPosition, LeadsToAttach, FromCycle, Extends, Below, Checkpoints.Going, Checkpoints.Calm, Checkpoints.Unbroken;
      AtAttach(store, maxCycles, cycle, ctx);
      value := Do(Attach, cycle, began);
      StillLeads(old(store), store, maxCycles, cycle, ctx);
    }

    method DoVerify(cycle: nat, ghost ctx: Context, ghost attachment: Value, ghost began: Store) returns (value: Option<Value>)
      requires Going(began) && Below(asked, Rank(Verify, cycle)) && cycle < maxCycles
      requires LeadsToAttach(store, maxCycles, cycle, ctx) && ctx.pickup.Some? && ctx.position.Some?
      requires Name(Attach, cycle) in store && store[Name(Attach, cycle)] == attachment
      modifies this
      ensures Going(began) && Below(asked, Rank(PickUp, cycle + 1)) && old(history) <= history
      ensures Calm() ==> value.Some?
      ensures Unbroken() && value.None? ==> |history| > |old(history)|
      ensures value.Some? && value.value.ok ==>
        Walk(store, maxCycles) == Done(Complete(cycle + 1, ctx.pickup.value, ctx.position.value, attachment, value.value))
      ensures value.Some? && !value.value.ok && value.value.target.None? ==> Walk(store, maxCycles) == Done(Failed(NoRecoveryTarget))
      ensures value.Some? && !value.value.ok && value.value.target.Some? ==>
        Leads(store, maxCycles, cycle + 1, ctx.(target := value.value.target.value))
    {
      hide Name, Walk, Leads, LeadsToPosition, LeadsToAttach, FromCycle, Below, Checkpoints.Going, Checkpoints.Calm, Checkpoints.Unbroken;
      AtAttach(store, maxCycles, cycle, ctx);
      value := Do(Verify, cycle, began);
      StillLeads(old(store), store, maxCycles, cycle, ctx);
      if value.Some? {
        AtAttach(store, maxCycles, cycle, ctx);
        if !value.value.ok && value.value.target.Some? {
          ThroughVerdict(store, maxCycles, cycle, ctx);
        }
      }
    }

    /** A worker: attempt after attempt, until one ends. Every attempt that dies has committed a step,
        but for the `barren` ones, and no more than four steps a cycle can be committed: so one attempt
        more than those and the barren ones is enough. A world that crashes only after commits leaves
        no attempt barren. */
    method Work(attempts: nat) returns (outcome: Option<Outcome>, ghost barren: nat, ghost lengths: seq<nat>)
      requires Valid()
      modifies this
      ensures Valid() && old(history) <= history
      ensures outcome.Some? ==> Walk(store, maxCycles) == Done(outcome.value)
      ensures outcome.None? ==> attempts <= |history| - |old(history)| + barren
      ensures attempts > 4 * Max(maxCycles) + barren ==> outcome.Some?
      ensures Unbroken() ==> barren == 0
      // The attempts that did not finish, told by how much had been committed after each.
      ensures lengths != [] && lengths[0] == |old(history)| && lengths[|lengths| - 1] <= |history| && barren == Stalls(lengths)
      ensures |lengths| <= attempts + 1 && (outcome.None? ==> |lengths| == attempts + 1)
    {
      hide Walk, Checkpoints.Valid, Fresh, Extends, Checkpoints.Unbroken;
      outcome, barren, lengths := None, 0, [|history|];
      for n := 0 to attempts
        invariant Valid() && old(history) <= history && outcome == None
        invariant n <= |history| - |old(history)| + barren && (Unbroken() ==> barren == 0)
        invariant |lengths| == n + 1 && lengths[0] == |old(history)| && lengths[n] == |history| && barren == Stalls(lengths)
      {
        ghost var committed := |history|;
        outcome := Attempt();
        if outcome.Some? {
          return;
        }
        if |history| == committed {
          barren := barren + 1;
        }
        lengths := lengths + [|history|];
        assert lengths[..|lengths| - 1][n] == committed;
      }
      CommitsAreBounded();
    }

    /** How often an entry is the same as the one before. */
    ghost function Stalls(lengths: seq<nat>): nat {
      if |lengths| < 2 then 0
      else Stalls(lengths[..|lengths| - 1]) + if lengths[|lengths| - 1] == lengths[|lengths| - 2] then 1 else 0
    }

    lemma CommitsAreBounded()
      requires Valid()
      ensures |history| <= 4 * Max(maxCycles)
    {
      CommitsAreOrdered(history, maxCycles);
    }
  }

  function Max(maxCycles: int): nat {
    if maxCycles < 0 then 0 else maxCycles
  }

  lemma Starts(store: Store, maxCycles: int)
    ensures Leads(store, maxCycles, 0, BEGIN)
    ensures Below([], Rank(PickUp, 0))
  {
  }

  lemma AtPickUp(store: Store, maxCycles: int, cycle: nat, ctx: Context)
    requires Leads(store, maxCycles, cycle, ctx) && cycle < maxCycles && ctx.target == LocalizeAndPickUp
    ensures Name(PickUp, cycle) !in store ==> Walk(store, maxCycles) == Needs(PickUp, cycle)
    ensures Name(PickUp, cycle) in store && !store[Name(PickUp, cycle)].ok ==> Walk(store, maxCycles) == Done(Failed(PickupFailed))
    ensures Rank(PickUp, cycle) + 1 == Rank(GoTo, cycle)
  {
    hide Name, Walk;
    assert Extends(store, store);
  }

  lemma AtPosition(store: Store, maxCycles: int, cycle: nat, ctx: Context)
    requires LeadsToPosition(store, maxCycles, cycle, ctx) && ctx.target != AttachAgain
    ensures Name(GoTo, cycle) !in store ==> Walk(store, maxCycles) == Needs(GoTo, cycle)
    ensures Name(GoTo, cycle) in store && !store[Name(GoTo, cycle)].ok ==> Walk(store, maxCycles) == Done(Failed(PositionFailed))
    ensures Rank(GoTo, cycle) + 1 == Rank(Attach, cycle)
  {
    hide Name, Walk;
    assert Extends(store, store);
  }

  lemma AtAttach(store: Store, maxCycles: int, cycle: nat, ctx: Context)
    requires LeadsToAttach(store, maxCycles, cycle, ctx)
    ensures ctx.pickup.None? || ctx.position.None? ==> Walk(store, maxCycles) == Done(Failed(NoPrerequisites))
    ensures ctx.pickup.Some? && ctx.position.Some? ==>
      && (Name(Attach, cycle) !in store ==> Walk(store, maxCycles) == Needs(Attach, cycle))
      && (Name(Attach, cycle) in store && Name(Verify, cycle) !in store ==> Walk(store, maxCycles) == Needs(Verify, cycle))
      && (Name(Attach, cycle) in store && Name(Verify, cycle) in store ==>
            var attachment, verdict := store[Name(Attach, cycle)], store[Name(Verify, cycle)];
            && (verdict.ok ==> Walk(store, maxCycles) == Done(Complete(cycle + 1, ctx.pickup.value, ctx.position.value, attachment, verdict)))
            && (!verdict.ok && verdict.target.None? ==> Walk(store, maxCycles) == Done(Failed(NoRecoveryTarget))))
    ensures Rank(Attach, cycle) + 1 == Rank(Verify, cycle) && Rank(Verify, cycle) + 1 == Rank(PickUp, cycle + 1)
  {
    hide Name, Walk;
    assert Extends(store, store);
    if ctx.pickup.Some? && ctx.position.Some? && Name(Attach, cycle) in store && Name(Verify, cycle) in store {
      assert FromAttach(store, maxCycles, cycle, ctx)
        == FromVerdict(store, maxCycles, cycle, ctx, store[Name(Attach, cycle)], store[Name(Verify, cycle)]);
    }
  }

  lemma AtEnd(store: Store, maxCycles: int, cycle: nat, ctx: Context)
    requires Leads(store, maxCycles, cycle, ctx) && cycle >= maxCycles
    ensures Walk(store, maxCycles) == Done(Failed(NotSecure))
  {
    hide Walk;
    assert Extends(store, store);
  }

  lemma SkipPickUp(store: Store, maxCycles: int, cycle: nat, ctx: Context, asked: seq<Ask>)
    requires Leads(store, maxCycles, cycle, ctx) && cycle < maxCycles && ctx.target != LocalizeAndPickUp
    requires Below(asked, Rank(PickUp, cycle))
    ensures LeadsToPosition(store, maxCycles, cycle, ctx) && Below(asked, Rank(GoTo, cycle))
  {
    ThroughPickUp(store, maxCycles, cycle, ctx);
  }

  lemma SkipPosition(store: Store, maxCycles: int, cycle: nat, ctx: Context, asked: seq<Ask>)
    requires LeadsToPosition(store, maxCycles, cycle, ctx) && ctx.target == AttachAgain
    requires Below(asked, Rank(GoTo, cycle))
    ensures LeadsToAttach(store, maxCycles, cycle, ctx) && Below(asked, Rank(Attach, cycle))
  {
    ThroughPosition(store, maxCycles, cycle, ctx);
  }

  /** What an attempt has carried out so far began where the last one left off, and was not committed then. */
  ghost predicate Fresh(began: Store, store: Store, executed: seq<Ask>, maxCycles: int) {
    && (forall a :: a in executed ==> Name(a.stage, a.cycle) !in began)
    && (if executed == [] then store == began else Walk(began, maxCycles) == Needs(executed[0].stage, executed[0].cycle))
  }
}
