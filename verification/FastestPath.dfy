/** No curve under the same bounds, from rest to rest, is shorter than the planned one. */
module FastestPath {
  import opened Reals
  import opened Trapezoid

  type Curve = real -> real

  /** How far the curve bends over a stretch: at constant rate, not at all. */
  function Bend(s: Curve, t: real, h: real): real {
    s(t + h) - 2.0 * s(t) + s(t - h)
  }

  /** From 0 to 1 in `duration`, at rest before and after, never faster than `v` and never bent further
      than the acceleration `a` bends it. */
  ghost predicate Admissible(s: Curve, duration: real, v: real, a: real) {
    && (forall t :: RestsAt(s, duration, t))
    && (forall t, u :: t <= u ==> KeepsSpeed(s, v, t, u))
    && (forall t, h :: h >= 0.0 ==> KeepsBend(s, a, t, h))
  }

  predicate RestsAt(s: Curve, duration: real, t: real) {
    (t <= 0.0 ==> s(t) == 0.0) && (t >= duration ==> s(t) == 1.0)
  }

  predicate KeepsSpeed(s: Curve, v: real, t: real, u: real) {
    s(u) - s(t) <= v * (u - t)
  }

  predicate KeepsBend(s: Curve, a: real, t: real, h: real) {
    -Gain(a, h) <= Bend(s, t, h) <= Gain(a, h)
  }

  /** The moment after `k` steps of `h`. */
  function Mark(k: nat, h: real): real { k as real * h }

  /** What `k` steps can climb when each may gain `q` on the one before. */
  function Climb(k: nat, q: real): real { 0.5 * (k as real * (k as real + 1.0)) * q }

  lemma NextMark(k: nat, h: real)
    ensures Mark(k + 1, h) == Mark(k, h) + h
  {
  }

  lemma NextClimb(k: nat, q: real)
    ensures Climb(k + 1, q) == Climb(k, q) + Mark(k + 1, q)
  {
    var x := k as real;
    assert (x + 1.0) * (x + 2.0) == x * (x + 1.0) + 2.0 * (x + 1.0);
    assert 0.5 * ((x + 1.0) * (x + 2.0)) == 0.5 * (x * (x + 1.0)) + (x + 1.0);
    assert (0.5 * (x * (x + 1.0)) + (x + 1.0)) * q == 0.5 * (x * (x + 1.0)) * q + (x + 1.0) * q;
  }

  /** In steps of `h` from rest, each step gains at most what the acceleration allows on the last. */
  lemma {:induction false} StepsClimb(s: Curve, duration: real, v: real, a: real, h: real, k: nat)
    requires Admissible(s, duration, v, a) && h >= 0.0
    ensures s(Mark(k + 1, h)) - s(Mark(k, h)) <= Mark(k + 1, Gain(a, h))
    ensures s(Mark(k, h)) <= Climb(k, Gain(a, h))
  {
    hide Gain, Climb, Mark;
    NextMark(k, h);
    NextMark(k, Gain(a, h));
    if k == 0 {
      AtZero(h, Gain(a, h));
      assert KeepsBend(s, a, 0.0, h) && RestsAt(s, duration, 0.0) && RestsAt(s, duration, -h);
    } else {
      StepsClimb(s, duration, v, a, h, k - 1);
      NextMark(k - 1, h);
      NextClimb(k - 1, Gain(a, h));
      assert KeepsBend(s, a, Mark(k, h), h);
    }
  }

  lemma AtZero(h: real, q: real)
    ensures Mark(0, h) == 0.0 && Mark(0, q) == 0.0 && Climb(0, q) == 0.0
  {
  }

  /** From rest, no admissible curve gets further in `t` than full acceleration takes it: any excess
      would show in small enough steps. */
  lemma NoFasterFromRest(s: Curve, duration: real, v: real, a: real, t: real)
    requires Admissible(s, duration, v, a) && a > 0.0 && t >= 0.0
    ensures s(t) <= 0.5 * Gain(a, t)
  {
    var reach := Gain(a, t);
    if s(t) > 0.5 * reach {
      assert reach >= 0.0 by { GainNonNegative(a, t); }
      var excess := s(t) - 0.5 * reach;
      var n := SmallEnough(reach, excess);
      var h := t / n as real;
      DivCancel(t, n as real);
      assert h >= 0.0;
      StepsClimb(s, duration, v, a, h, n);
      assert Mark(n, h) == t;
      ClimbInSteps(a, t, n, h);
      assert false;
    }
  }

  lemma GainNonNegative(a: real, t: real)
    requires a > 0.0
    ensures Gain(a, t) >= 0.0
  {
    SquareNonNegative(t);
    MulMonotone(0.0, t * t, a);
  }

  lemma SmallEnough(reach: real, excess: real) returns (n: nat)
    requires reach >= 0.0 && excess > 0.0
    ensures n > 0 && 0.5 * reach / n as real < excess
  {
    var ratio := 0.5 * reach / excess;
    DivCancel(0.5 * reach, excess);
    assert ratio >= 0.0;
    n := ratio.Floor + 1;
    var m := n as real;
    assert ratio < m;
    Order(ratio, m, excess, 0.5 * reach, m * excess);
    DivAtMost(m * excess, excess, m);
    DivCancel(0.5 * reach, m);
    Order(0.5 * reach / m, excess, m, 0.5 * reach, excess * m);
  }

  /** The climb in `n` steps exceeds half the reach by half the reach divided by `n`. */
  lemma ClimbInSteps(a: real, t: real, n: nat, h: real)
    requires n > 0 && h * n as real == t
    ensures Climb(n, Gain(a, h)) == 0.5 * Gain(a, t) + 0.5 * Gain(a, t) / n as real
  {
    var m, q := n as real, Gain(a, h);
    assert Gain(a, t) == (m * m) * q by { Regrouped(a, h, m); }
    assert 0.5 * (m * (m + 1.0)) * q == 0.5 * ((m * m) * q) + 0.5 * (m * q);
    OverSteps(m, q);
  }

  lemma Regrouped(a: real, h: real, m: real)
    ensures a * ((h * m) * (h * m)) == (m * m) * (a * (h * h))
  {
    assert (h * m) * (h * m) == (h * h) * (m * m);
    var x, y := h * h, m * m;
    assert a * (x * y) == y * (a * x);
  }

  lemma OverSteps(m: real, q: real)
    requires m > 0.0
    ensures 0.5 * ((m * m) * q) / m == 0.5 * (m * q)
  {
    var x := 0.5 * (m * q);
    assert 0.5 * ((m * m) * q) == x * m;
  }

  /** Run backwards and upside down, an admissible curve is one again. */
  lemma MirroredIsAdmissible(s: Curve, duration: real, v: real, a: real, mirrored: Curve)
    requires Admissible(s, duration, v, a) && forall t :: mirrored(t) == 1.0 - s(duration - t)
    ensures Admissible(mirrored, duration, v, a)
  {
    hide Gain;
    forall t ensures RestsAt(mirrored, duration, t) {
      assert RestsAt(s, duration, duration - t);
    }
    forall t, u | t <= u ensures KeepsSpeed(mirrored, v, t, u) {
      assert KeepsSpeed(s, v, duration - u, duration - t);
      assert (duration - t) - (duration - u) == u - t;
    }
    forall t, h | h >= 0.0 ensures KeepsBend(mirrored, a, t, h) {
      var back := duration - t;
      assert KeepsBend(s, a, back, h);
      assert duration - (t + h) == back - h && duration - (t - h) == back + h;
      assert mirrored(t + h) == 1.0 - s(back - h) && mirrored(t - h) == 1.0 - s(back + h);
    }
  }

  /** What the ends of an admissible curve leave for its middle, `w` in from each. */
  lemma MiddleMustCover(s: Curve, duration: real, v: real, a: real, w: real)
    requires Admissible(s, duration, v, a) && a > 0.0 && 0.0 <= w && 2.0 * w <= duration
    ensures 1.0 <= Gain(a, w) + v * (duration - 2.0 * w)
  {
    hide Gain, Bend, Admissible;
    var mirrored := t => 1.0 - s(duration - t);
    MirroredIsAdmissible(s, duration, v, a, mirrored);
    NoFasterFromRest(s, duration, v, a, w);
    NoFasterFromRest(mirrored, duration, v, a, w);
    assert mirrored(w) == 1.0 - s(duration - w);
    SpeedBetween(s, duration, v, a, w, duration - w, duration - 2.0 * w);
  }

  lemma SpeedBetween(s: Curve, duration: real, v: real, a: real, t: real, u: real, gap: real)
    requires Admissible(s, duration, v, a) && gap == u - t >= 0.0
    ensures s(u) - s(t) <= v * gap
  {
    assert KeepsSpeed(s, v, t, u);
  }

  lemma TakesTime(s: Curve, duration: real, v: real, a: real)
    requires Admissible(s, duration, v, a)
    ensures duration > 0.0
  {
    assert RestsAt(s, duration, 0.0);
  }

  /** The bounds in path space that a profile puts on a move. */
  function SpeedBound(displacement: real, profile: MotionProfile): real
    requires displacement != 0.0
  {
    profile.maxVelocity / Abs(displacement)
  }

  function AccelerationBound(displacement: real, profile: MotionProfile): real
    requires displacement != 0.0
  {
    profile.maxAcceleration / Abs(displacement)
  }

  /** The planned curve keeps the bounds. */
  lemma PlanIsAdmissible(sqrt: real -> real, displacement: real, profile: MotionProfile, curve: Curve)
    requires IsSqrt(sqrt) && profile.Valid() && displacement != 0.0
    requires forall t :: curve(t) == Path.Plan(sqrt, displacement, profile).At(t)
    ensures Admissible(curve, Path.Plan(sqrt, displacement, profile).duration,
                       SpeedBound(displacement, profile), AccelerationBound(displacement, profile))
  {
    hide Path.At, Path.Plan, Gain;
    var p, v, a := Path.Plan(sqrt, displacement, profile), SpeedBound(displacement, profile), AccelerationBound(displacement, profile);
    Planned(sqrt, displacement, profile);
    forall t ensures RestsAt(curve, p.duration, t) {
      Ends(p, t);
    }
    forall t, u | t <= u ensures KeepsSpeed(curve, v, t, u) {
      PathIsMonotoneAndSpeedBounded(p, t, u);
      NoFaster(p.At(u) - p.At(t), p.cruise, v, u - t);
    }
    forall t, h | h >= 0.0 ensures KeepsBend(curve, a, t, h) {
      PathAccelerationBounded(p, t, h);
    }
  }

  lemma NoFaster(df: real, c: real, v: real, gap: real)
    requires df <= c * gap && c <= v && gap >= 0.0
    ensures df <= v * gap
  {
    MulMonotone(c, v, gap);
  }

  lemma Ends(p: Path, t: real)
    requires Balanced(p)
    ensures t <= 0.0 ==> p.At(t) == 0.0
    ensures t >= p.duration ==> p.At(t) == 1.0
  {
  }

  lemma Planned(sqrt: real -> real, displacement: real, profile: MotionProfile)
    requires IsSqrt(sqrt) && profile.Valid() && displacement != 0.0
    ensures var p, v, a := Path.Plan(sqrt, displacement, profile), SpeedBound(displacement, profile), AccelerationBound(displacement, profile);
      Balanced(p) && p.accel == a > 0.0 && 0.0 < p.cruise <= v && (p.cruise == v || p.duration == 2.0 * p.accelTime)
  {
    DivPositive(profile.maxVelocity, Abs(displacement));
    DivPositive(profile.maxAcceleration, Abs(displacement));
    UnderBoundsIsBalanced(sqrt, SpeedBound(displacement, profile), AccelerationBound(displacement, profile));
  }

  /** And it is the shortest that does: every curve from rest to rest under the profile's bounds takes
      at least as long. */
  lemma PlanIsFastest(sqrt: real -> real, displacement: real, profile: MotionProfile, s: Curve, duration: real)
    requires IsSqrt(sqrt) && profile.Valid() && displacement != 0.0
    requires Admissible(s, duration, SpeedBound(displacement, profile), AccelerationBound(displacement, profile))
    ensures duration >= Path.Plan(sqrt, displacement, profile).duration
  {
    hide Admissible, Path.Plan, Gain;
    var p, v, a := Path.Plan(sqrt, displacement, profile), SpeedBound(displacement, profile), AccelerationBound(displacement, profile);
    Planned(sqrt, displacement, profile);
    TakesTime(s, duration, v, a);
    if duration < 2.0 * p.accelTime {
      MiddleMustCover(s, duration, v, a, 0.5 * duration);
      NoMiddle(v, duration);
      RampsAlone(p, 0.5 * duration);
    } else {
      MiddleMustCover(s, duration, v, a, p.accelTime);
      if p.cruise == v {
        LongEnough(p, duration);
      }
    }
  }

  lemma NoMiddle(v: real, duration: real)
    ensures v * (duration - 2.0 * (0.5 * duration)) == 0.0
  {
    assert duration - 2.0 * (0.5 * duration) == 0.0;
  }

  /** Two ramps shorter than the planned ones do not cover the way. */
  lemma RampsAlone(p: Path, w: real)
    requires Balanced(p) && 0.0 < w < p.accelTime
    ensures Gain(p.accel, w) < 1.0
  {
    var t, a := p.accelTime, p.accel;
    var ww, tt := w * w, t * t;
    assert ww < tt by { MulStrict(w, t, w); MulStrict(w, t, t); }
    MulStrict(ww, tt, a);
    assert a * tt == p.cruise * t by { assert p.cruise == a * t; }
    MulMonotone(t, p.duration - t, p.cruise);
  }

  lemma LongEnough(p: Path, duration: real)
    requires Balanced(p) && 1.0 <= Gain(p.accel, p.accelTime) + p.cruise * (duration - 2.0 * p.accelTime)
    ensures duration >= p.duration
  {
    var t, c := p.accelTime, p.cruise;
    assert Gain(p.accel, t) == c * t by { assert c == p.accel * t; }
    assert c * t + c * (duration - 2.0 * t) == c * (duration - t);
    if duration < p.duration {
      MulStrict(duration - t, p.duration - t, c);
    }
  }
}
