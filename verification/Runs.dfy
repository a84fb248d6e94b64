/** Runs of consecutive entries at the end of a log, and the counters that track them. */
module Runs {

  /** The count is the length of the longest run of such entries ending now. */
  ghost predicate Trailing<T>(log: seq<T>, holds: T -> bool, n: nat) {
    && n <= |log| && (forall k :: |log| - n <= k < |log| ==> holds(log[k]))
    && (n < |log| ==> !holds(log[|log| - 1 - n]))
  }

  /** The last `n` entries all held. */
  ghost predicate LastAll<T>(log: seq<T>, holds: T -> bool, n: nat) {
    n <= |log| && forall k :: |log| - n <= k < |log| ==> holds(log[k])
  }

  lemma TrailingStep<T>(log: seq<T>, holds: T -> bool, n: nat, e: T)
    requires Trailing(log, holds, n)
    ensures Trailing(log + [e], holds, if holds(e) then n + 1 else 0)
  {
    var more := log + [e];
    if holds(e) {
      assert forall k :: |log| - n <= k < |log| ==> more[k] == log[k];
      assert n < |log| ==> more[|more| - 1 - (n + 1)] == log[|log| - 1 - n];
    }
  }

  lemma TrailingMeansLastAll<T>(log: seq<T>, holds: T -> bool, n: nat, wanted: nat)
    requires Trailing(log, holds, n)
    ensures n >= wanted <==> LastAll(log, holds, wanted)
  {
    if n < wanted <= |log| {
      assert !holds(log[|log| - 1 - n]);
    }
  }
}
