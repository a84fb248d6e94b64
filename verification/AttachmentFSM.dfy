/** `AttachmentFSM`: decisions and budgets of one bounded attachment attempt. */
module AttachmentMachine {
  import opened Contracts

  datatype State = Initial | SearchRL | SearchCV | ClipRL | Success | Failed | Aborted

  predicate Active(s: State) {
    s.Initial? || Acting(s)
  }

  predicate Acting(s: State) {
    s.SearchRL? || s.SearchCV? || s.ClipRL?
  }

  /** What a handler reported after its one action (none, for the initial observation). */
  datatype Report =
    | Observation(alreadyAttached: bool, detected: bool)
    | SearchRLStep(detected: bool)
    | SearchCVStep(targetVisible: bool, followed: bool)
    | ClipRLStep(verified: bool, neutral: bool, visible: bool, degraded: bool, grasped: bool)

  datatype Config = Config(maxTotal: nat, maxDuration: real, maxSearchRL: nat, maxSearchCV: nat, maxClipRL: nat, useSearchCV: bool) {
    predicate Valid() {
      maxTotal >= 1 && maxSearchRL >= 1 && maxSearchCV >= 1 && maxClipRL >= 1 && maxDuration > 0.0
    }

    function Budget(s: State): nat
      requires Acting(s)
    {
      match s
      case SearchRL => maxSearchRL
      case SearchCV => maxSearchCV
      case ClipRL => maxClipRL
    }

    function AfterDetection(): State {
      if useSearchCV then SearchCV else ClipRL
    }
  }

  predicate Answers(s: State, r: Report) {
    match s
    case Initial => r.Observation?
    case SearchRL => r.SearchRLStep?
    case SearchCV => r.SearchCVStep?
    case ClipRL => r.ClipRLStep?
    case _ => false
  }

  /** Where a report leads. */
  function Decide(c: Config, s: State, r: Report): State
    requires Answers(s, r)
  {
    match r
    case Observation(attached, detected) => if attached then Success else if detected then c.AfterDetection() else SearchRL
    case SearchRLStep(detected) => if detected then c.AfterDetection() else SearchRL
    case SearchCVStep(visible, followed) => if !visible then SearchRL else if followed then ClipRL else SearchCV
    case ClipRLStep(verified, neutral, visible, degraded, grasped) =>
      if neutral then Initial
      else if verified then Success
      else if visible && degraded then if c.useSearchCV then SearchCV else ClipRL
      else if !visible && !grasped then SearchRL
      else ClipRL
  }

  /** The same decisions read by destination: what it takes to succeed, to start over, to follow, to
      search and to clip. A step never fails or aborts by itself. */
  lemma EntersExactly(c: Config, s: State, r: Report)
    requires Answers(s, r) && (s == SearchCV ==> c.useSearchCV)
    ensures Decide(c, s, r) == Success <==> (r.Observation? && r.alreadyAttached) || (r.ClipRLStep? && r.verified && !r.neutral)
    ensures Decide(c, s, r) == Initial <==> r.ClipRLStep? && r.neutral
    ensures Decide(c, s, r) == SearchCV <==> Follows(c, r)
    ensures Decide(c, s, r) == SearchRL <==>
      || (r.Observation? && !r.alreadyAttached && !r.detected) || (r.SearchRLStep? && !r.detected)
      || (r.SearchCVStep? && !r.targetVisible)
      || (r.ClipRLStep? && !r.neutral && !r.verified && !r.visible && !r.grasped)
    ensures Active(Decide(c, s, r)) || Decide(c, s, r) == Success
  {
  }

  /** A fresh detection, an unfinished approach, or a degraded alignment: what calls for following. */
  predicate Follows(c: Config, r: Report) {
    c.useSearchCV && match r
      case Observation(attached, detected) => !attached && detected
      case SearchRLStep(detected) => detected
      case SearchCVStep(visible, followed) => visible && !followed
      case ClipRLStep(verified, neutral, visible, degraded, grasped) => !neutral && !verified && visible && degraded
  }

  datatype Why = Reported(report: Report) | TotalBudget | WallClock | StateBudget | Abort

  datatype Transition = Transition(source: State, destination: State, why: Why, actionIndex: nat)

  datatype Tally = Tally(searchRL: nat, searchCV: nat, clipRL: nat) {
    function Of(s: State): nat
      requires Acting(s)
    {
      match s case SearchRL => searchRL case SearchCV => searchCV case ClipRL => clipRL
    }

    function Plus(s: State): Tally
      requires Acting(s)
    {
      match s
      case SearchRL => this.(searchRL := searchRL + 1)
      case SearchCV => this.(searchCV := searchCV + 1)
      case ClipRL => this.(clipRL := clipRL + 1)
    }
  }

  const ZERO := Tally(0, 0, 0)

  datatype Machine = Machine(
    state: State, actions: nat, counts: Tally, cycle: Tally, resets: nat, transitions: seq<Transition>)

  const START := Machine(Initial, 0, ZERO, ZERO, 0, [])

  /** One pass of the loop whose handler reported `r` and whose next state, if new, was entered. */
  function Advance(c: Config, m: Machine, r: Report): Machine
    requires Answers(m.state, r)
  {
    var next := Decide(c, m.state, r);
    if m.state == Initial then
      m.(state := next, transitions := m.transitions + [Transition(Initial, next, Reported(r), m.actions)])
    else
      var counted := m.(actions := m.actions + 1, counts := m.counts.Plus(m.state), cycle := m.cycle.Plus(m.state));
      if next == m.state then counted
      else
        var entered := if next == Initial then counted.(cycle := ZERO, resets := counted.resets + 1) else counted;
        entered.(state := next, transitions := m.transitions + [Transition(m.state, next, Reported(r), counted.actions)])
  }

  /** The budget check that comes before every action, in its order. */
  function Exhausted(c: Config, m: Machine, elapsed: real): Option<Why>
    requires Acting(m.state)
  {
    if m.actions >= c.maxTotal then Some(TotalBudget)
    else if elapsed >= c.maxDuration then Some(WallClock)
    else if m.cycle.Of(m.state) >= c.Budget(m.state) then Some(StateBudget)
    else None
  }

  predicate HasBudget(c: Config, m: Machine) {
    Acting(m.state) ==> m.actions < c.maxTotal && m.cycle.Of(m.state) < c.Budget(m.state)
  }

  /** A run so far: every report answered an active state that still had budget. */
  ghost predicate Legal(c: Config, log: seq<Report>)
    decreases |log|, 0
  {
    log == [] ||
      (var before := log[..|log| - 1];
       Legal(c, before) && Answers(After(c, before).state, log[|log| - 1]) && HasBudget(c, After(c, before)))
  }

  ghost function After(c: Config, log: seq<Report>): Machine
    requires Legal(c, log)
    decreases |log|, 1
  {
    if log == [] then START else Advance(c, After(c, log[..|log| - 1]), log[|log| - 1])
  }

  lemma LegalStep(c: Config, log: seq<Report>, r: Report)
    requires Legal(c, log) && Answers(After(c, log).state, r) && HasBudget(c, After(c, log))
    ensures Legal(c, log + [r]) && After(c, log + [r]) == Advance(c, After(c, log), r)
  {
    assert (log + [r])[..|log|] == log;
  }

  lemma Beginning(c: Config)
    ensures Legal(c, []) && After(c, []) == START
  {
  }

  lemma LastStep(c: Config, log: seq<Report>)
    requires Legal(c, log) && log != []
    ensures Legal(c, log[..|log| - 1])
    ensures var m, r := After(c, log[..|log| - 1]), log[|log| - 1];
      Answers(m.state, r) && HasBudget(c, m) && After(c, log) == Advance(c, m, r)
  {
  }

  lemma {:induction false} LegalPrefix(c: Config, log: seq<Report>, k: nat)
    requires Legal(c, log) && k <= |log|
    ensures Legal(c, log[..k])
    decreases |log|
  {
    hide Legal;
    if k < |log| {
      LastStep(c, log);
      LegalPrefix(c, log[..|log| - 1], k);
      assert log[..|log| - 1][..k] == log[..k];
    } else {
      assert log[..k] == log;
    }
  }

  // ---- accounting over whole runs --------------------------------------------------------------------

  function Sum(t: Tally): nat {
    t.searchRL + t.searchCV + t.clipRL
  }

  // Named, to keep products of variables out of the proofs that only pass them along.
  function Allowed(cycles: nat, budget: nat): nat { cycles * budget }

  lemma AllowedStep(cycles: nat, budget: nat)
    ensures Allowed(0, budget) == 0 && Allowed(cycles + 1, budget) == Allowed(cycles, budget) + budget
  {
  }

  ghost predicate WithinCycles(c: Config, m: Machine, s: State)
    requires Acting(s)
  {
    m.cycle.Of(s) <= c.Budget(s) && m.counts.Of(s) <= Allowed(m.resets, c.Budget(s)) + m.cycle.Of(s)
  }

  ghost predicate Accounted(c: Config, m: Machine) {
    && m.actions == Sum(m.counts) <= c.maxTotal
    && WithinCycles(c, m, SearchRL) && WithinCycles(c, m, SearchCV) && WithinCycles(c, m, ClipRL)
  }

  /** Every run: the counts sum to the actions, the total budget is never exceeded, and no state
      is stepped more than its budget in each cycle between resets. */
  lemma {:induction false} ActionsAreAccounted(c: Config, log: seq<Report>)
    requires Legal(c, log)
    ensures Accounted(c, After(c, log))
    ensures forall s :: Acting(s) ==> After(c, log).counts.Of(s) <= Allowed(After(c, log).resets + 1, c.Budget(s))
  {
    hide After, Legal, Advance, HasBudget, Decide, Allowed, Accounted;
    var m := After(c, log);
    if log == [] {
      Beginning(c);
      StartsAccounted(c);
    } else {
      var before := log[..|log| - 1];
      LastStep(c, log);
      ActionsAreAccounted(c, before);
      AccountedStep(c, After(c, before), log[|log| - 1]);
    }
    CyclesAddUp(c, m);
  }

  lemma CyclesAddUp(c: Config, m: Machine)
    requires Accounted(c, m)
    ensures forall s :: Acting(s) ==> m.counts.Of(s) <= Allowed(m.resets + 1, c.Budget(s))
  {
    hide Allowed;
    forall s | Acting(s) ensures m.counts.Of(s) <= Allowed(m.resets + 1, c.Budget(s)) {
      AllowedStep(m.resets, c.Budget(s));
      assert WithinCycles(c, m, s);
    }
  }

  lemma StartsAccounted(c: Config)
    ensures Accounted(c, START)
  {
  }

  lemma AccountedStep(c: Config, m: Machine, r: Report)
    requires Answers(m.state, r) && HasBudget(c, m) && Accounted(c, m)
    ensures Accounted(c, Advance(c, m, r))
  {
    hide Allowed;
    AllowedStep(m.resets, c.maxSearchRL);
    AllowedStep(m.resets, c.maxSearchCV);
    AllowedStep(m.resets, c.maxClipRL);
  }

  // ---- the books, counted off the reports -----------------------------------------------------------

  /** The report of one action in a state. */
  predicate Reports(r: Report, s: State) {
    (s == SearchRL && r.SearchRLStep?) || (s == SearchCV && r.SearchCVStep?) || (s == ClipRL && r.ClipRLStep?)
  }

  predicate Resets(r: Report) {
    r.ClipRLStep? && r.neutral
  }

  ghost function StepsOf(log: seq<Report>, s: State): nat {
    if log == [] then 0 else StepsOf(log[..|log| - 1], s) + if Reports(log[|log| - 1], s) then 1 else 0
  }

  ghost function ActionsOf(log: seq<Report>): nat {
    if log == [] then 0 else ActionsOf(log[..|log| - 1]) + if log[|log| - 1].Observation? then 0 else 1
  }

  ghost function ResetsOf(log: seq<Report>): nat {
    if log == [] then 0 else ResetsOf(log[..|log| - 1]) + if Resets(log[|log| - 1]) then 1 else 0
  }

  /** Where the present cycle begins: after the last report of a return to neutral. */
  ghost function CycleStart(log: seq<Report>): (k: nat)
    ensures k <= |log|
  {
    if log == [] then 0 else if Resets(log[|log| - 1]) then |log| else CycleStart(log[..|log| - 1])
  }

  lemma {:induction false} CycleStartIs(log: seq<Report>)
    ensures CycleStart(log) > 0 ==> Resets(log[CycleStart(log) - 1])
    ensures forall k :: CycleStart(log) <= k < |log| ==> !Resets(log[k])
  {
    if log != [] && !Resets(log[|log| - 1]) {
      CycleStartIs(log[..|log| - 1]);
    }
  }

  /** Every counter is what it is called: the actions and the steps of each state are counted over all the
      reports, the resets are the returns to neutral, and the counts of a cycle are those of the
      reports since the last of these. */
  ghost predicate Booked(log: seq<Report>, m: Machine) {
    && m.actions == ActionsOf(log) && m.resets == ResetsOf(log)
    && forall s :: Acting(s) ==> m.counts.Of(s) == StepsOf(log, s) && m.cycle.Of(s) == StepsOf(log[CycleStart(log)..], s)
  }

  lemma {:induction false} BooksAreTheLog(c: Config, log: seq<Report>)
    requires Legal(c, log)
    ensures Booked(log, After(c, log))
  {
    hide After, Legal, Advance, HasBudget, Decide, Booked;
    Beginning(c);
    if log == [] {
      NothingBooked();
    } else {
      LastStep(c, log);
      BooksAreTheLog(c, log[..|log| - 1]);
      BookedStep(c, log, After(c, log[..|log| - 1]));
    }
  }

  lemma NothingBooked()
    ensures Booked([], START)
  {
  }

  lemma BookedStep(c: Config, log: seq<Report>, m: Machine)
    requires log != [] && Answers(m.state, log[|log| - 1]) && Booked(log[..|log| - 1], m)
    ensures Booked(log, Advance(c, m, log[|log| - 1]))
  {
    hide StepsOf;
    var before, r := log[..|log| - 1], log[|log| - 1];
    forall s | Acting(s)
      ensures StepsOf(log, s) == StepsOf(before, s) + if Reports(r, s) then 1 else 0
      ensures StepsOf(log[CycleStart(log)..], s)
        == if Resets(r) then 0 else StepsOf(before[CycleStart(before)..], s) + if Reports(r, s) then 1 else 0
    {
      OneMoreStep(log, s);
      if Resets(r) {
        assert log[CycleStart(log)..] == [];
        NoStepsYet(s);
      } else {
        assert log[CycleStart(before)..][..|log| - 1 - CycleStart(before)] == before[CycleStart(before)..];
        OneMoreStep(log[CycleStart(before)..], s);
      }
    }
  }

  lemma OneMoreStep(log: seq<Report>, s: State)
    requires log != []
    ensures StepsOf(log, s) == StepsOf(log[..|log| - 1], s) + if Reports(log[|log| - 1], s) then 1 else 0
  {
  }

  lemma NoStepsYet(s: State)
    ensures StepsOf([], s) == 0
  {
  }

  // ---- the transition trace ----------------------------------------------------------------------------

  ghost predicate Contiguous(ts: seq<Transition>) {
    forall j, k :: 0 <= j && k == j + 1 < |ts| ==> ts[k].source == ts[j].destination
  }

  ghost predicate InActionOrder(ts: seq<Transition>) {
    forall j, k :: 0 <= j < k < |ts| ==> ts[k].actionIndex >= ts[j].actionIndex
  }

  ghost function ResetsIn(ts: seq<Transition>): nat {
    if ts == [] then 0 else ResetsIn(ts[..|ts| - 1]) + if ts[|ts| - 1].destination == Initial then 1 else 0
  }

  ghost predicate Traced(m: Machine) {
    && Contiguous(m.transitions) && InActionOrder(m.transitions)
    && (m.transitions == [] ==> m.state == Initial)
    && (m.transitions != [] ==>
          && m.transitions[0].source == Initial && m.transitions[|m.transitions| - 1].destination == m.state
          && m.transitions[|m.transitions| - 1].actionIndex <= m.actions)
  }

  lemma OneMoreLink(ts: seq<Transition>, t: Transition)
    ensures (ts + [t])[..|ts|] == ts
    ensures ResetsIn(ts + [t]) == ResetsIn(ts) + if t.destination == Initial then 1 else 0
    ensures InActionOrder(ts) && (ts != [] ==> t.actionIndex >= ts[|ts| - 1].actionIndex) ==> InActionOrder(ts + [t])
    ensures Contiguous(ts) ==> (Contiguous(ts + [t]) <==> ts == [] || t.source == ts[|ts| - 1].destination)
  {
    hide ResetsIn, Contiguous, InActionOrder;
    OneMoreReset(ts + [t], |ts|);
    StaysInOrder(ts, t, ts + [t]);
    StaysContiguous(ts, t, ts + [t]);
  }

  lemma OneMoreReset(ts: seq<Transition>, n: nat)
    requires |ts| == n + 1
    ensures ResetsIn(ts) == ResetsIn(ts[..n]) + if ts[n].destination == Initial then 1 else 0
  {
  }

  lemma StaysInOrder(ts: seq<Transition>, t: Transition, more: seq<Transition>)
    requires more == ts + [t]
    ensures InActionOrder(ts) && (ts != [] ==> t.actionIndex >= ts[|ts| - 1].actionIndex) ==> InActionOrder(more)
  {
  }

  lemma StaysContiguous(ts: seq<Transition>, t: Transition, more: seq<Transition>)
    requires more == ts + [t]
    ensures Contiguous(ts) ==> (Contiguous(more) <==> ts == [] || t.source == ts[|ts| - 1].destination)
  {
    if ts != [] {
      assert more[|ts| - 1] == ts[|ts| - 1] && more[|ts|] == t;
    }
  }

  /** The trace is one unbroken path from INITIAL to the present state, and its entries into
      INITIAL are exactly the resets. */
  lemma {:induction false} TraceIsAPath(c: Config, log: seq<Report>)
    requires Legal(c, log)
    ensures Traced(After(c, log)) && ResetsIn(After(c, log).transitions) == After(c, log).resets
  {
    hide After, Legal, Advance;
    Beginning(c);
    if log != [] {
      var before := log[..|log| - 1];
      LastStep(c, log);
      TraceIsAPath(c, before);
      TracedStep(c, After(c, before), log[|log| - 1]);
    }
  }

  /** The trace is written by the reports alone: one that changes the state adds one link, from the state it
      leaves to the state it leads to, with itself as the reason and the actions so far; others add none. */
  lemma TraceGrows(c: Config, log: seq<Report>)
    requires Legal(c, log) && log != []
    ensures Legal(c, log[..|log| - 1])
    ensures var before, now := After(c, log[..|log| - 1]), After(c, log);
      now.transitions == before.transitions +
        if now.state == before.state then []
        else [Transition(before.state, now.state, Reported(log[|log| - 1]), ActionsOf(log))]
  {
    hide After, Legal, Advance, ActionsOf, StepsOf;
    LastStep(c, log);
    BooksAreTheLog(c, log);
    var m := After(c, log[..|log| - 1]);
    MovesAreLogged(c, m, log[|log| - 1]);
  }

  lemma TracedStep(c: Config, m: Machine, r: Report)
    requires Answers(m.state, r) && Traced(m) && ResetsIn(m.transitions) == m.resets
    ensures var n := Advance(c, m, r); Traced(n) && ResetsIn(n.transitions) == n.resets
  {
    hide Advance, Contiguous, InActionOrder, ResetsIn;
    MovesAreLogged(c, m, r);
    if Advance(c, m, r).transitions != m.transitions {
      OneMoreLink(m.transitions, Left(c, m, r));
    }
  }

  ghost function Left(c: Config, m: Machine, r: Report): Transition
    requires Answers(m.state, r)
  {
    var n := Advance(c, m, r);
    Transition(m.state, n.state, Reported(r), n.actions)
  }

  lemma MovesAreLogged(c: Config, m: Machine, r: Report)
    requires Answers(m.state, r)
    ensures var n := Advance(c, m, r);
      && n.actions >= m.actions
      && (n.transitions == m.transitions <==> n.state == m.state)
      && if n.transitions == m.transitions then n.state == m.state && n.resets == m.resets
         else n.transitions == m.transitions + [Left(c, m, r)] && n.resets == m.resets + if n.state == Initial then 1 else 0
  {
  }

  /** An abort while a state runs closes the path. One raised on entering a state is logged from
      the state being left, so the path breaks at its last link and nowhere else. */
  function AbortFrom(source: State, m: Machine): Machine {
    m.(state := Aborted, transitions := m.transitions + [Transition(source, Aborted, Abort, m.actions)])
  }

  lemma AbortBreaksTheTraceOnEntryOnly(c: Config, log: seq<Report>, source: State)
    requires Legal(c, log) && Active(After(c, log).state) && Active(source)
    requires After(c, log).transitions == [] ==> source == Initial
    ensures Contiguous(AbortFrom(source, After(c, log)).transitions) <==> source == After(c, log).state
    ensures Contiguous(AbortFrom(source, After(c, log)).transitions[..|After(c, log).transitions|])
  {
    hide After, Legal, Contiguous, InActionOrder, ResetsIn;
    TraceIsAPath(c, log);
    var m := After(c, log);
    OneMoreLink(m.transitions, Transition(source, Aborted, Abort, m.actions));
  }

  // ---- visual following ------------------------------------------------------------------------------

  /** Every entry to CLIP_RL comes off a SEARCH_CV step that saw the carabiner and had followed it. */
  ghost predicate ClipsOnlyAfterFollowing(ts: seq<Transition>) {
    forall k :: 0 <= k < |ts| && ts[k].destination == ClipRL ==> ts[k].source == SearchCV && ts[k].why == Reported(SearchCVStep(true, true))
  }

  lemma {:induction false} ClipNeedsFollowing(c: Config, log: seq<Report>)
    requires Legal(c, log) && c.useSearchCV
    ensures ClipsOnlyAfterFollowing(After(c, log).transitions)
  {
    if log != [] {
      LastStep(c, log);
      ClipNeedsFollowing(c, log[..|log| - 1]);
    }
  }

  /** With visual following off, SEARCH_CV is never entered, let alone stepped. */
  lemma {:induction false} DisabledMeansNever(c: Config, log: seq<Report>)
    requires Legal(c, log) && !c.useSearchCV
    ensures After(c, log).state != SearchCV && After(c, log).counts.searchCV == 0
    ensures forall k :: 0 <= k < |After(c, log).transitions| ==> After(c, log).transitions[k].destination != SearchCV
  {
    if log != [] {
      LastStep(c, log);
      DisabledMeansNever(c, log[..|log| - 1]);
    }
  }

  ghost function CVRun(log: seq<Report>): nat {
    if log != [] && log[|log| - 1].SearchCVStep? then CVRun(log[..|log| - 1]) + 1 else 0
  }

  /** The follower reports arrival only after `settle` of its own consecutive steps. */
  ghost predicate FollowsPatiently(log: seq<Report>, settle: nat) {
    forall k :: 0 <= k < |log| && log[k].SearchCVStep? && log[k].followed ==> CVRun(log[..k + 1]) >= settle
  }

  ghost predicate CyclesCost(m: Machine, log: seq<Report>, settle: nat) {
    && m.resets <= m.counts.clipRL
    && Allowed(m.resets, settle) + m.cycle.searchCV <= m.counts.searchCV
    && (m.state == ClipRL ==> m.cycle.searchCV >= settle)
    && (m.state == SearchCV ==> CVRun(log) <= m.cycle.searchCV)
  }

  /** With visual following on, every reset was paid for: at least one clip action and
      `settle_ticks` visual ones. A run of `a` actions resets at most `a / (settle_ticks + 1)` times. */
  lemma {:induction false} ResetsAreCostly(c: Config, log: seq<Report>, settle: nat)
    requires Legal(c, log) && c.useSearchCV && FollowsPatiently(log, settle)
    ensures CyclesCost(After(c, log), log, settle)
    ensures Allowed(After(c, log).resets, settle + 1) <= After(c, log).actions
  {
    hide After, Legal, Advance, HasBudget, Decide, Accounted, Allowed, CyclesCost;
    Beginning(c);
    if log == [] {
      StartsFree(settle);
    } else {
      var n := |log| - 1;
      var before := log[..n];
      LastStep(c, log);
      forall k | 0 <= k < n && before[k].SearchCVStep? && before[k].followed ensures CVRun(before[..k + 1]) >= settle {
        assert before[..k + 1] == log[..k + 1] && before[k] == log[k];
      }
      ResetsAreCostly(c, before, settle);
      assert log[..n + 1] == log;
      CyclesCostStep(c, After(c, before), before, log, settle);
    }
    ActionsAreAccounted(c, log);
    CostInActions(c, After(c, log), log, settle);
  }

  lemma StartsFree(settle: nat)
    ensures CyclesCost(START, [], settle)
  {
  }

  lemma CostInActions(c: Config, m: Machine, log: seq<Report>, settle: nat)
    requires Accounted(c, m) && CyclesCost(m, log, settle)
    ensures Allowed(m.resets, settle + 1) <= m.actions
  {
    assert Allowed(m.resets, settle + 1) == Allowed(m.resets, settle) + m.resets;
  }

  lemma CyclesCostStep(c: Config, m: Machine, before: seq<Report>, log: seq<Report>, settle: nat)
    requires log != [] && log[..|log| - 1] == before && c.useSearchCV && Answers(m.state, log[|log| - 1])
    requires CyclesCost(m, before, settle)
    requires log[|log| - 1].SearchCVStep? && log[|log| - 1].followed ==> CVRun(log) >= settle
    ensures CyclesCost(Advance(c, m, log[|log| - 1]), log, settle)
  {
    hide Allowed;
    var r := log[|log| - 1];
    AllowedStep(m.resets, settle);
    if m.state == SearchCV {
      assert CVRun(log) == CVRun(before) + 1;
    } else {
      assert CVRun(log) == 0;
    }
  }
}
