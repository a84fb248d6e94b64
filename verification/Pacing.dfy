/** The three pacing disciplines, as the loops that follow them log it: absolute deadlines, a period
    per frame, and a period after completion. */
module Pacing {
  import opened Reals
  import opened Strides

  /** The policy runner waits for an absolute deadline; replay waits out the rest of each period; a
      policy session waits a whole period after each action went out. */
  datatype Discipline = ByDeadline(began: real) | ByPeriod | AfterAction

  /** When each step of a run started, and how long it took before it was paced; the last may have
      ended the run unpaced. */
  datatype Timing = Timing(starts: seq<real>, took: seq<real>)

  /** The earliest the step after step `n` may start, once that started at `start` and took `took`. */
  function Earliest(d: Discipline, period: real, n: nat, start: real, took: real): real {
    match d
    case ByDeadline(began) => Max(start + took, began + Steps(n + 1, period))
    case ByPeriod => start + Max(took, period)
    case AfterAction => start + took + period
  }

  /** No step starts before its discipline lets it. */
  ghost predicate Follows(d: Discipline, period: real, log: Timing) {
    && |log.took| <= |log.starts| <= |log.took| + 1
    && (forall n :: 0 <= n < |log.took| ==> log.took[n] >= 0.0)
    && forall n :: 1 <= n < |log.starts| ==> log.starts[n] >= Earliest(d, period, n - 1, log.starts[n - 1], log.took[n - 1])
  }

  /** Every step starts the moment it may. */
  ghost predicate Punctual(d: Discipline, period: real, log: Timing)
    requires Follows(d, period, log)
  {
    forall n :: 1 <= n < |log.starts| ==> log.starts[n] == Earliest(d, period, n - 1, log.starts[n - 1], log.took[n - 1])
  }

  /** Between steps: every step so far is over and paced, at `now`. */
  ghost predicate Paces(d: Discipline, period: real, log: Timing, now: real, punctual: bool) {
    && Follows(d, period, log) && |log.starts| == |log.took| && (punctual ==> Punctual(d, period, log))
    && (log.starts != [] ==>
          var n := |log.starts| - 1;
          var next := Earliest(d, period, n, log.starts[n], log.took[n]);
          now >= next && (punctual ==> now == next))
  }

  function Started(log: Timing, start: real): Timing {
    log.(starts := log.starts + [start])
  }

  function Over(log: Timing, took: real): Timing {
    log.(took := log.took + [took])
  }

  lemma NothingStarted(d: Discipline, period: real, now: real, punctual: bool)
    ensures Paces(d, period, Timing([], []), now, punctual)
  {
  }

  lemma StepStarts(d: Discipline, period: real, log: Timing, now: real, punctual: bool, start: real)
    requires Paces(d, period, log, now, punctual) && start >= now && (punctual ==> start == now)
    ensures Follows(d, period, Started(log, start)) && (punctual ==> Punctual(d, period, Started(log, start)))
  {
  }

  lemma StepIsPaced(d: Discipline, period: real, log: Timing, punctual: bool, took: real, now: real)
    requires Follows(d, period, log) && |log.starts| == |log.took| + 1 && (punctual ==> Punctual(d, period, log)) && took >= 0.0
    requires var n := |log.took|;
      var next := Earliest(d, period, n, log.starts[n], took);
      now >= next && (punctual ==> now == next)
    ensures Paces(d, period, Over(log, took), now, punctual)
  {
  }

  // ---- the disciplines compared ---------------------------------------------------------------------

  /** When step `n` starts, if every step starts the moment it may. */
  function StartOf(d: Discipline, period: real, first: real, took: seq<real>, n: nat): real
    requires n <= |took|
  {
    if n == 0 then first else Earliest(d, period, n - 1, StartOf(d, period, first, took, n - 1), took[n - 1])
  }

  /** A run that follows a discipline never starts a step before its recurrence says; one that is
      punctual starts it exactly then. */
  lemma {:induction false} FollowsItsRecurrence(d: Discipline, period: real, log: Timing, n: nat)
    requires Follows(d, period, log) && n < |log.starts|
    ensures log.starts[n] >= StartOf(d, period, log.starts[0], log.took, n)
    ensures Punctual(d, period, log) ==> log.starts[n] == StartOf(d, period, log.starts[0], log.took, n)
  {
    if n > 0 {
      FollowsItsRecurrence(d, period, log, n - 1);
    }
  }

  /** With the same steps, deadlines are never behind a period per frame, nor that behind a period
      after completion; and none of them is ever early. */
  lemma {:induction false} DisciplinesAreOrdered(began: real, period: real, first: real, took: seq<real>, n: nat)
    requires n <= |took| && period > 0.0 && first >= began && forall i :: 0 <= i < |took| ==> took[i] >= 0.0
    ensures began + Steps(n, period) <= StartOf(ByDeadline(began), period, first, took, n)
      <= StartOf(ByPeriod, period, first, took, n) <= StartOf(AfterAction, period, first, took, n)
    ensures first + Steps(n, period) <= StartOf(ByPeriod, period, first, took, n)
  {
    if n == 0 {
      NoSteps(0, period);
    } else {
      DisciplinesAreOrdered(began, period, first, took, n - 1);
      OneMore(n, period);
    }
  }

  /** A punctual rollout, a replay and a session whose steps take the same times from the same moment:
      no step of the rollout comes after the same step of either of the others. */
  lemma RolloutsRunAhead(began: real, period: real, rollout: Timing, replay: Timing, session: Timing, n: nat)
    requires period > 0.0 && Follows(ByDeadline(began), period, rollout) && Punctual(ByDeadline(began), period, rollout)
    requires Follows(ByPeriod, period, replay) && Follows(AfterAction, period, session)
    requires rollout.took == replay.took == session.took
    requires n < |rollout.starts| && n < |replay.starts| && n < |session.starts|
    requires began <= rollout.starts[0] == replay.starts[0] == session.starts[0]
    ensures began + Steps(n, period) <= rollout.starts[n] <= replay.starts[n]
    ensures rollout.starts[n] <= session.starts[n]
  {
    FollowsItsRecurrence(ByDeadline(began), period, rollout, n);
    FollowsItsRecurrence(ByPeriod, period, replay, n);
    FollowsItsRecurrence(AfterAction, period, session, n);
    DisciplinesAreOrdered(began, period, rollout.starts[0], rollout.took, n);
  }

  /** How far behind its nominal rate a step starts. */
  function Behind(start: real, began: real, n: nat, period: real): real {
    start - (began + Steps(n, period))
  }

  lemma NeverEarly(began: real, period: real, log: Timing, n: nat)
    requires Follows(ByDeadline(began), period, log) && n < |log.starts| && log.starts[0] >= began
    ensures Behind(log.starts[n], began, n, period) >= 0.0
  {
    if n == 0 {
      NoSteps(0, period);
    } else {
      assert log.starts[n] >= Earliest(ByDeadline(began), period, n - 1, log.starts[n - 1], log.took[n - 1]);
    }
  }

  /** A punctual rollout makes lost time up by whatever a step leaves of its period; so two of its
      starts are closer than a period exactly when the earlier one was late and its step did not use
      its period up. */
  lemma DeadlinesCatchUp(began: real, period: real, log: Timing, n: nat)
    requires period > 0.0 && Follows(ByDeadline(began), period, log) && Punctual(ByDeadline(began), period, log)
    requires n + 1 < |log.starts| && log.starts[0] >= began
    ensures Behind(log.starts[n + 1], began, n + 1, period)
      == Max(0.0, Behind(log.starts[n], began, n, period) + log.took[n] - period)
    ensures log.starts[n + 1] - log.starts[n] < period
      <==> Behind(log.starts[n], began, n, period) > 0.0 && log.took[n] < period
  {
    NeverEarly(began, period, log, n);
    OneMore(n + 1, period);
  }

  /** A replay and a session never do: time lost stays lost, and a session loses all of what every
      step takes. */
  lemma {:induction false} PeriodsNeverCatchUp(d: Discipline, period: real, log: Timing, i: nat, j: nat)
    requires period > 0.0 && !d.ByDeadline? && Follows(d, period, log)
    requires i <= j < |log.starts|
    ensures log.starts[j] - log.starts[i] >= Steps(j - i, period)
    ensures Behind(log.starts[i], log.starts[0], i, period) <= Behind(log.starts[j], log.starts[0], j, period)
    ensures i < j && d == AfterAction ==> log.starts[j] - log.starts[j - 1] >= period + log.took[j - 1]
  {
    if i < j {
      PeriodsNeverCatchUp(d, period, log, i, j - 1);
      OneMore(j - i, period);
      OneMore(j, period);
    } else {
      NoSteps(0, period);
    }
  }
}
