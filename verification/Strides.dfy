/** Clamped steps toward a target, and counting periods. */
module Strides {
  import opened Reals
  import opened Contracts

  /** The clamped step of one joint toward where it is wanted. */
  function Stride(current: real, desired: real, step: real): real {
    current + Max(-step, Min(step, desired - current))
  }

  function StrideAll(current: seq<real>, desired: seq<real>, step: real): (r: seq<real>)
    requires |current| == |desired|
    ensures |r| == |current|
  {
    seq(|current|, i requires 0 <= i < |current| => Stride(current[i], desired[i], step))
  }

  lemma StrideBounds(current: real, desired: real, step: real)
    requires step >= 0.0
    ensures Abs(Stride(current, desired, step) - current) <= step
    ensures Min(current, desired) <= Stride(current, desired, step) <= Max(current, desired)
  {
  }

  /** A stride goes straight to where it is wanted: all the way if it may, the whole step otherwise. */
  lemma StrideIsExact(current: real, desired: real, step: real)
    requires step >= 0.0
    ensures var b := Stride(current, desired, step);
      && Abs(b - current) + Abs(desired - b) == Abs(desired - current)
      && Abs(b - current) == if Abs(desired - current) <= step then Abs(desired - current) else step
  {
  }

  lemma WithinAdds(a: seq<real>, b: seq<real>, d: seq<real>, x: real, y: real, total: real)
    requires |a| == |b| == |d| && Within(b, a, x) && Within(d, b, y) && total == x + y
    ensures Within(d, a, total)
  {
    forall i | 0 <= i < |a| ensures Abs(d[i] - a[i]) <= total {
      assert Abs(b[i] - a[i]) <= x && Abs(d[i] - b[i]) <= y;
    }
  }

  lemma Stays(a: seq<real>, b: seq<real>, most: real)
    requires a == b && most >= 0.0
    ensures Within(b, a, most)
  {
    forall i | 0 <= i < |a| ensures Abs(b[i] - a[i]) <= most {
    }
  }

  lemma StrideNear(current: seq<real>, desired: seq<real>, step: real)
    requires |current| == |desired| && step >= 0.0
    ensures Within(StrideAll(current, desired, step), current, step)
  {
    hide Stride;
    forall m | 0 <= m < |current| ensures Abs(StrideAll(current, desired, step)[m] - current[m]) <= step {
      StrideBounds(current[m], desired[m], step);
    }
  }

  lemma OneStride(a: seq<real>, b: seq<real>, desired: seq<real>, step: real, before: real, total: real)
    requires |a| == |b| == |desired| && Within(b, a, before) && total == before + step && step >= 0.0
    ensures Within(StrideAll(b, desired, step), a, total)
  {
    hide Stride;
    forall m | 0 <= m < |a| ensures Abs(StrideAll(b, desired, step)[m] - a[m]) <= total {
      StrideBounds(b[m], desired[m], step);
    }
  }

  lemma LongerIsCloser(current: real, desired: real, a: real, b: real)
    requires 0.0 <= a <= b
    ensures Abs(Stride(current, desired, b) - desired) <= Abs(Stride(current, desired, a) - desired)
  {
  }

  lemma StridesAdd(current: real, desired: real, a: real, b: real)
    requires a >= 0.0 && b >= 0.0
    ensures Stride(Stride(current, desired, a), desired, b) == Stride(current, desired, a + b)
  {
  }

  lemma StandsStill(current: seq<real>, desired: seq<real>, step: real)
    requires |current| == |desired| && step == 0.0
    ensures StrideAll(current, desired, step) == current
  {
  }

  lemma AllStridesAdd(current: seq<real>, desired: seq<real>, a: real, b: real, sum: real)
    requires |current| == |desired| && a >= 0.0 && b >= 0.0 && sum == a + b
    ensures StrideAll(StrideAll(current, desired, a), desired, b) == StrideAll(current, desired, sum)
  {
    forall i | 0 <= i < |current| {
      StridesAdd(current[i], desired[i], a, b);
    }
  }

  lemma Arrives(current: seq<real>, desired: seq<real>, step: real)
    requires |current| == |desired| && Within(desired, current, step)
    ensures StrideAll(current, desired, step) == desired
  {
  }

  lemma ComesWithin(current: seq<real>, desired: seq<real>, step: real, most: real, tolerance: real)
    requires |current| == |desired| && step >= most >= 0.0 && tolerance >= 0.0 && Within(desired, current, most + tolerance)
    ensures Within(StrideAll(current, desired, step), desired, tolerance)
  {
    forall i | 0 <= i < |current| ensures Abs(StrideAll(current, desired, step)[i] - desired[i]) <= tolerance {
      assert Abs(desired[i] - current[i]) <= most + tolerance;
    }
  }

  // ---- periods ------------------------------------------------------------------------------------

  function Steps(n: int, step: real): real { n as real * step }

  lemma NoSteps(n: int, step: real)
    requires n == 0
    ensures Steps(n, step) == 0.0
  {
    assert Steps(n, step) == 0.0 * step;
  }

  lemma OneMore(n: int, step: real)
    requires n >= 1 && step > 0.0
    ensures Steps(n, step) == Steps(n - 1, step) + step && Steps(n - 1, step) >= 0.0
  {
    var more, less := n as real, (n - 1) as real;
    assert more == less + 1.0;
    assert less >= 0.0;
  }

  /** Each moment is at least a period after the one before. */
  ghost predicate Paced(times: seq<real>, period: real) {
    forall k :: 1 <= k < |times| ==> times[k] >= times[k - 1] + period
  }

  lemma {:induction false} PacedApart(times: seq<real>, period: real, i: nat, j: nat)
    requires Paced(times, period) && i <= j < |times| && period > 0.0
    ensures times[j] - times[i] >= Steps(j - i, period)
  {
    if i < j {
      PacedApart(times, period, i, j - 1);
      OneMore(j - i, period);
    }
  }

  lemma StepsInTime(n: int, period: real, velocity: real, step: real, elapsed: real)
    requires velocity > 0.0 && step == velocity * period && elapsed >= Steps(n, period)
    ensures Steps(n, step) <= velocity * elapsed
  {
    var due := Steps(n, period);
    assert Steps(n, step) == velocity * due;
    MulMonotone(due, elapsed, velocity);
  }

  lemma MoreSteps(n: nat, m: nat, step: real)
    requires n <= m && step > 0.0
    ensures 0.0 <= Steps(n, step) <= Steps(m, step)
  {
    MulMonotone(n as real, m as real, step);
    MulMonotone(0.0, n as real, step);
  }
}
