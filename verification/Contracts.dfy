/** Joint vectors, limits and motion profiles, and the distances between poses. */
module Contracts {
  import opened Reals

  datatype Option<+T> = None | Some(value: T)

  datatype Lifecycle = Disconnected | Connected | Enabled | Fault

  datatype JointLimit = JointLimit(name: string, lower: real, upper: real) {
    predicate Contains(value: real, margin: real) {
      lower + margin <= value <= upper - margin
    }

    function Clamp(value: real, margin: real): real {
      Min(Max(value, lower + margin), upper - margin)
    }
  }

  /** One feedback sample. `finite` is false when some joint reported no position. */
  datatype JointState = JointState(
    positions: seq<real>,
    faultBits: bool,
    sequence: seq<nat>,
    stamp: real,
    lifecycle: Lifecycle,
    finite: bool)
  {
    predicate HasFault() {
      lifecycle == Fault || faultBits
    }
  }

  /** The largest per-joint distance between two poses; 0 for no joints. */
  function MaxDistance(a: seq<real>, b: seq<real>): real
    requires |a| == |b|
  {
    if a == [] then 0.0 else Max(Abs(a[0] - b[0]), MaxDistance(a[1..], b[1..]))
  }

  predicate Within(a: seq<real>, b: seq<real>, tolerance: real)
    requires |a| == |b|
  {
    forall i :: 0 <= i < |a| ==> Abs(a[i] - b[i]) <= tolerance
  }

  lemma {:induction false} MaxDistanceBounds(a: seq<real>, b: seq<real>, tolerance: real)
    requires |a| == |b|
    ensures MaxDistance(a, b) >= 0.0
    ensures tolerance >= 0.0 ==> (MaxDistance(a, b) <= tolerance <==> Within(a, b, tolerance))
    ensures Within(a, b, MaxDistance(a, b))
  {
    if a != [] {
      MaxDistanceBounds(a[1..], b[1..], tolerance);
      MaxDistanceBounds(a[1..], b[1..], MaxDistance(a, b));
      assert forall i :: 1 <= i < |a| ==> a[1..][i - 1] == a[i] && b[1..][i - 1] == b[i];
      assert Within(a, b, tolerance) ==> Within(a[1..], b[1..], tolerance);
    }
  }

  /** Some joint is as far off as the largest distance says. */
  lemma {:induction false} Farthest(a: seq<real>, b: seq<real>) returns (k: nat)
    requires |a| == |b| > 0
    ensures k < |a| && Abs(a[k] - b[k]) == MaxDistance(a, b)
  {
    if |a| == 1 || MaxDistance(a, b) == Abs(a[0] - b[0]) {
      k := 0;
      assert |a| == 1 ==> MaxDistance(a[1..], b[1..]) == 0.0;
    } else {
      k := Farthest(a[1..], b[1..]);
      k := k + 1;
    }
  }

  /** `violations`: some target lies outside its joint's soft limits. */
  predicate InLimits(targets: seq<real>, limits: seq<JointLimit>, margin: real)
    requires |targets| == |limits|
  {
    forall i :: 0 <= i < |targets| ==> limits[i].Contains(targets[i], margin)
  }

  function Clamped(targets: seq<real>, limits: seq<JointLimit>): (r: seq<real>)
    requires |targets| == |limits|
    ensures |r| == |targets|
  {
    seq(|targets|, i requires 0 <= i < |targets| => limits[i].Clamp(targets[i], 0.0))
  }

  lemma InLimitsIsUnclamped(targets: seq<real>, limits: seq<JointLimit>)
    requires |targets| == |limits| && InLimits(targets, limits, 0.0)
    ensures Clamped(targets, limits) == targets
  {
  }

  ghost predicate WellFormed(limits: seq<JointLimit>) {
    forall i :: 0 <= i < |limits| ==> limits[i].lower <= limits[i].upper
  }

  lemma ClampedIsInLimits(start: seq<real>, limits: seq<JointLimit>)
    requires |start| == |limits| && WellFormed(limits)
    ensures InLimits(Clamped(start, limits), limits, 0.0)
    ensures Clamped(start, limits) == start <==> InLimits(start, limits, 0.0)
  {
    if Clamped(start, limits) == start {
      forall i | 0 <= i < |start| ensures limits[i].Contains(start[i], 0.0) {
        assert Clamped(start, limits)[i] == start[i];
      }
    }
  }
}
