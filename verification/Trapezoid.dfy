/** `TrapezoidPath`: the scalar time law s(t) every commanded move follows. */
module Trapezoid {
  import opened Reals

  datatype MotionProfile = MotionProfile(
    maxVelocity: real,
    maxAcceleration: real,
    tolerance: real,
    settleTime: real,
    timeout: real,
    controlRate: real)
  {
    /** What the parameters loader admits. */
    predicate Valid() {
      maxVelocity > 0.0 && maxAcceleration > 0.0 && tolerance > 0.0 && settleTime >= 0.0 && timeout > 0.0 && controlRate > 0.0
    }

    /** Scales speed and acceleration bounds, not the timeout. */
    function Scaled(speedScale: real): MotionProfile {
      this.(maxVelocity := maxVelocity * speedScale, maxAcceleration := maxAcceleration * speedScale)
    }

    function Period(): real
      requires controlRate > 0.0
    {
      1.0 / controlRate
    }
  }

  /** A control tick is one over the rate. */
  lemma PeriodIsOneOverTheRate(profile: MotionProfile)
    requires profile.controlRate > 0.0
    ensures Times(profile.Period(), profile.controlRate) == 1.0
  {
    DivCancel(1.0, profile.controlRate);
  }

  datatype Path = Path(duration: real, accel: real, cruise: real, accelTime: real) {

    static function Plan(sqrt: real -> real, displacement: real, profile: MotionProfile): Path
      requires profile.Valid()
    {
      var peak := Abs(displacement);
      if peak == 0.0 then Path(0.0, 0.0, 0.0, 0.0)
      else UnderBounds(sqrt, profile.maxVelocity / peak, profile.maxAcceleration / peak)
    }

    /** The bounds in path space: a triangle when the move is too short to reach `velocity`. */
    static function UnderBounds(sqrt: real -> real, velocity: real, acceleration: real): Path
      requires velocity > 0.0 && acceleration > 0.0
    {
      var accelTime := velocity / acceleration;
      if acceleration * accelTime * accelTime >= 1.0 then
        var t := sqrt(1.0 / acceleration);
        Path(2.0 * t, acceleration, acceleration * t, t)
      else
        Path(1.0 / velocity + accelTime, acceleration, velocity, accelTime)
    }

    function At(elapsed: real): real {
      if duration <= 0.0 || elapsed >= duration then 1.0
      else if elapsed <= 0.0 then 0.0
      else if elapsed <= accelTime then 0.5 * accel * elapsed * elapsed
      else
        var remaining := duration - elapsed;
        if remaining <= accelTime then 1.0 - 0.5 * accel * remaining * remaining
        else cruise * (elapsed - accelTime / 2.0)
    }
  }

  // ---- what planning establishes --------------------------------------------------------------

  /** A ramp up, a cruise and a ramp down that together cover exactly one unit. */
  ghost predicate Balanced(p: Path) {
    && p.accel > 0.0 && p.accelTime > 0.0 && p.cruise > 0.0
    && p.cruise == p.accel * p.accelTime
    && p.cruise * (p.duration - p.accelTime) == 1.0
    && p.duration >= 2.0 * p.accelTime
  }

  lemma PlanIsBalanced(sqrt: real -> real, displacement: real, profile: MotionProfile)
    requires IsSqrt(sqrt) && profile.Valid() && displacement != 0.0
    ensures var p := Path.Plan(sqrt, displacement, profile);
      && Balanced(p)
      && p.accel * Abs(displacement) == profile.maxAcceleration
      && p.cruise * Abs(displacement) <= profile.maxVelocity
  {
    var peak := Abs(displacement);
    var v, a := profile.maxVelocity / peak, profile.maxAcceleration / peak;
    DivCancel(profile.maxVelocity, peak);
    DivCancel(profile.maxAcceleration, peak);
    UnderBoundsIsBalanced(sqrt, v, a);
    MulMonotone(Path.UnderBounds(sqrt, v, a).cruise, v, peak);
  }

  lemma UnderBoundsIsBalanced(sqrt: real -> real, v: real, a: real)
    requires IsSqrt(sqrt) && v > 0.0 && a > 0.0
    ensures var p := Path.UnderBounds(sqrt, v, a); Balanced(p) && p.accel == a && p.cruise <= v
  {
    var t0 := v / a;
    DivPositive(v, a);
    DivCancel(v, a);
    var q := Regroup(a, t0, v);
    if a * t0 * t0 >= 1.0 {
      TriangleCase(sqrt, v, a, t0, q);
    } else {
      TrapezoidCase(v, a, t0, q);
    }
  }

  lemma Regroup(a: real, t: real, v: real) returns (q: real)
    requires t * a == v
    ensures a * t == v && q == a * t * t && q == v * t
  {
    q := v * t;
  }

  lemma TriangleCase(sqrt: real -> real, v: real, a: real, t0: real, q: real)
    requires IsSqrt(sqrt) && v > 0.0 && a > 0.0 && t0 > 0.0 && a * t0 == v && q == v * t0 && q >= 1.0
    ensures var t := sqrt(1.0 / a); Balanced(Path(2.0 * t, a, a * t, t)) && a * t <= v
  {
    var r := 1.0 / a;
    DivPositive(1.0, a);
    DivCancel(1.0, a);
    assert IsRootAt(sqrt, r);
    TriangleBalance(a, v, t0, sqrt(r), r, q);
  }

  lemma TrapezoidCase(v: real, a: real, t0: real, q: real)
    requires v > 0.0 && a > 0.0 && t0 > 0.0 && a * t0 == v && q == v * t0 && q < 1.0
    ensures Balanced(Path(1.0 / v + t0, a, v, t0))
  {
    DivPositive(1.0, v);
    DivCancel(1.0, v);
    TrapezoidBalance(a, v, t0, 1.0 / v, q);
  }

  lemma DivPositive(a: real, b: real)
    requires a > 0.0 && b > 0.0
    ensures a / b > 0.0
  {
  }

  lemma TriangleBalance(a: real, v: real, t0: real, t: real, r: real, q: real)
    requires a > 0.0 && v > 0.0 && t0 > 0.0 && t >= 0.0 && r > 0.0
    requires a * t0 == v && r * a == 1.0 && t * t == r && q == v * t0 && q >= 1.0
    ensures Balanced(Path(2.0 * t, a, a * t, t)) && a * t <= v
  {
    assert t > 0.0;
    assert a * t > 0.0;
    assert a * t * (2.0 * t - t) == a * (t * t) == 1.0;
    Order(r, t0 * t0, a, 1.0, q);
    SquareRoots(t, t0);
    Order(t, t0, a, a * t, v);
  }

  lemma TrapezoidBalance(a: real, v: real, t0: real, w: real, q: real)
    requires a > 0.0 && v > 0.0 && t0 > 0.0 && w > 0.0
    requires a * t0 == v && w * v == 1.0 && q == v * t0 && q < 1.0
    ensures Balanced(Path(w + t0, a, v, t0))
  {
    Order(t0, w, v, q, 1.0);
  }

  // ---- the law over any interval ------------------------------------------------------------------

  /** ds/dt. */
  function Rate(p: Path, t: real): real {
    if t <= 0.0 || t >= p.duration then 0.0
    else if t <= p.accelTime then p.accel * t
    else if t <= p.duration - p.accelTime then p.cruise
    else p.accel * (p.duration - t)
  }

  /** An instant of the move: the time, how far along it is, and how fast it is going. */
  datatype Instant = Instant(t: real, s: real, r: real)

  // What acceleration `a` can add over time w, and how far travel d runs ahead of rate r.
  function Gain(a: real, w: real): real { a * (w * w) }
  function Lead(d: real, r: real, w: real): real { d - r * w }

  /** Between two instants: never back and never faster than cruise. */
  ghost predicate Paced(p: Path, from: Instant, to: Instant) {
    0.0 <= to.s - from.s && 0.0 <= -Lead(to.s - from.s, p.cruise, to.t - from.t)
  }

  /** Never beyond the acceleration bound, seen from either end. */
  ghost predicate Steered(p: Path, from: Instant, to: Instant) {
    var d, w := to.s - from.s, to.t - from.t;
    && -(p.accel * w) <= to.r - from.r <= p.accel * w
    && -Gain(p.accel, w) <= 2.0 * Lead(d, from.r, w) <= Gain(p.accel, w)
    && -Gain(p.accel, w) <= 2.0 * Lead(d, to.r, w) <= Gain(p.accel, w)
  }

  ghost predicate Smooth(p: Path, from: Instant, to: Instant) {
    Paced(p, from, to) && Steered(p, from, to)
  }

  // ---- the five pieces of the curve ---------------------------------------------------------------

  ghost predicate Before(p: Path, i: Instant) { i.t <= 0.0 && i.s == 0.0 && i.r == 0.0 }

  ghost predicate Ramping(p: Path, i: Instant) {
    0.0 <= i.t <= p.accelTime && i.s == 0.5 * Gain(p.accel, i.t) && i.r == p.accel * i.t
  }

  ghost predicate Cruising(p: Path, i: Instant) {
    p.accelTime <= i.t <= p.duration - p.accelTime && i.s == p.cruise * (i.t - p.accelTime / 2.0) && i.r == p.cruise
  }

  ghost predicate Braking(p: Path, i: Instant) {
    && p.duration - p.accelTime <= i.t <= p.duration
    && i.s == 1.0 - 0.5 * Gain(p.accel, p.duration - i.t) && i.r == p.accel * (p.duration - i.t)
  }

  ghost predicate After(p: Path, i: Instant) { i.t >= p.duration && i.s == 1.0 && i.r == 0.0 }

  ghost predicate OnPiece(p: Path, k: nat, i: Instant) {
    if k == 0 then Before(p, i) else if k == 1 then Ramping(p, i) else if k == 2 then Cruising(p, i)
    else if k == 3 then Braking(p, i) else After(p, i)
  }

  function PieceOf(p: Path, t: real): nat {
    if t <= 0.0 then 0 else if t <= p.accelTime then 1 else if t <= p.duration - p.accelTime then 2
    else if t < p.duration then 3 else 4
  }

  function At(p: Path, t: real): Instant {
    Instant(t, p.At(t), Rate(p, t))
  }

  lemma AtIsOnPiece(p: Path, t: real)
    requires Balanced(p)
    ensures OnPiece(p, PieceOf(p, t), At(p, t))
  {
    if p.accelTime < t && t == p.duration - p.accelTime {
      AtBrakePoint(p.accel, p.cruise, p.accelTime, p.duration);
    }
  }

  lemma AtBrakePoint(a: real, c: real, T: real, D: real)
    requires c == a * T && c * (D - T) == 1.0
    ensures c * (D - T - T / 2.0) == 1.0 - 0.5 * a * T * T
  {
    var cT := c * T;
    assert 0.5 * a * T * T == cT / 2.0;
    assert c * (D - T - T / 2.0) == c * (D - T) - cT / 2.0;
  }

  /** Where piece k ends and piece k + 1 begins. */
  function Joint(p: Path, k: nat): Instant {
    if k == 0 then Instant(0.0, 0.0, 0.0)
    else if k == 1 then Instant(p.accelTime, p.cruise * p.accelTime / 2.0, p.cruise)
    else if k == 2 then Instant(p.duration - p.accelTime, 1.0 - p.cruise * p.accelTime / 2.0, p.cruise)
    else Instant(p.duration, 1.0, 0.0)
  }

  lemma JointIsOnBoth(p: Path, k: nat)
    requires Balanced(p) && k < 4
    ensures OnPiece(p, k, Joint(p, k)) && OnPiece(p, k + 1, Joint(p, k))
  {
    var T, c := p.accelTime, p.cruise;
    assert Gain(p.accel, T) == c * T;
    assert c * (T - T / 2.0) == c * T / 2.0;
    assert c * (p.duration - T - T / 2.0) == 1.0 - c * T / 2.0 by {
      assert c * (p.duration - T - T / 2.0) == c * (p.duration - T) - c * T / 2.0;
    }
  }

  lemma SmoothOnPiece(p: Path, k: nat, from: Instant, to: Instant)
    requires Balanced(p) && k <= 4 && OnPiece(p, k, from) && OnPiece(p, k, to) && from.t <= to.t
    ensures Smooth(p, from, to)
  {
    if k == 1 {
      RampIsSmooth(p, from, to);
    } else if k == 2 {
      CruiseIsSmooth(p, from, to);
    } else if k == 3 {
      BrakeIsSmooth(p, from, to);
    } else {
      SteadyIsSmooth(p, from, to, 0.0);
    }
  }

  lemma CruiseIsSmooth(p: Path, from: Instant, to: Instant)
    requires Balanced(p) && Cruising(p, from) && Cruising(p, to) && from.t <= to.t
    ensures Smooth(p, from, to)
  {
    assert to.s - from.s == p.cruise * (to.t - from.t);
    SteadyIsSmooth(p, from, to, p.cruise);
  }

  lemma SteadyIsSmooth(p: Path, from: Instant, to: Instant, rate: real)
    requires Balanced(p) && from.t <= to.t && from.r == to.r == rate && 0.0 <= rate <= p.cruise
    requires to.s - from.s == rate * (to.t - from.t)
    ensures Smooth(p, from, to)
  {
    var w := to.t - from.t;
    assert Gain(p.accel, w) >= 0.0 && p.accel * w >= 0.0 && rate * w >= 0.0;
    assert (p.cruise - rate) * w >= 0.0;
  }

  lemma RampIsSmooth(p: Path, from: Instant, to: Instant)
    requires Balanced(p) && Ramping(p, from) && Ramping(p, to) && from.t <= to.t
    ensures Smooth(p, from, to)
  {
    hide Gain, Lead;
    var a, d, w := p.accel, to.s - from.s, to.t - from.t;
    RampIdentities(a, from.t, to.t, d, from.r, to.r, w);
    var spare := RampSpare(a, p.accelTime, to.t, w);
    CruiseLead(a, p.accelTime, from.t, to.t, d, p.cruise, from.r, w, spare);
  }

  lemma RampSpare(a: real, top: real, t: real, w: real) returns (spare: real)
    requires a > 0.0 && t <= top && w >= 0.0
    ensures spare == (a * (top - t)) * w && spare >= 0.0
  {
    var headroom := a * (top - t);
    assert headroom >= 0.0 by { MulMonotone(0.0, top - t, a); }
    MulMonotone(0.0, headroom, w);
    spare := headroom * w;
  }

  lemma CruiseLead(a: real, top: real, s: real, t: real, d: real, cruise: real, r0: real, w: real, spare: real)
    requires w == t - s && cruise == a * top && r0 == a * s && d == 0.5 * Gain(a, w) + r0 * w && spare == (a * (top - t)) * w
    ensures -Lead(d, cruise, w) == 0.5 * Gain(a, w) + spare
  {
    assert a * (top - t) == cruise - r0 - a * w;
    var aw := a * w;
    assert aw * w == Gain(a, w);
    assert (cruise - r0 - aw) * w == cruise * w - r0 * w - aw * w;
  }

  lemma RampIdentities(a: real, s: real, t: real, d: real, r0: real, r1: real, w: real)
    requires a > 0.0 && w == t - s && w >= 0.0 && s >= 0.0
    requires d == 0.5 * Gain(a, t) - 0.5 * Gain(a, s) && r0 == a * s && r1 == a * t
    ensures Gain(a, w) >= 0.0 && a * w >= 0.0 && r1 - r0 == a * w
    ensures Lead(d, r0, w) == 0.5 * Gain(a, w) && Lead(d, r1, w) == -0.5 * Gain(a, w)
    ensures d == 0.5 * Gain(a, w) + r0 * w && d >= 0.0
  {
    var aw, ss, tt := a * w, s * s, t * t;
    assert aw >= 0.0 by { MulMonotone(0.0, w, a); }
    assert Gain(a, w) == aw * w;
    assert aw * w >= 0.0 by { MulMonotone(0.0, aw, w); }
    assert r0 * w >= 0.0 by { MulMonotone(0.0, s, a); MulMonotone(0.0, r0, w); }
    assert tt - ss == w * w + 2.0 * (s * w) by { assert t == s + w; }
    assert a * tt - a * ss == aw * w + 2.0 * (r0 * w);
  }

  /** Braking is a ramp run backwards. */
  lemma BrakeIsSmooth(p: Path, from: Instant, to: Instant)
    requires Balanced(p) && Braking(p, from) && Braking(p, to) && from.t <= to.t
    ensures Smooth(p, from, to)
  {
    var i, j := Instant(p.duration - to.t, 1.0 - to.s, to.r), Instant(p.duration - from.t, 1.0 - from.s, from.r);
    RampIsSmooth(p, i, j);
    assert j.s - i.s == to.s - from.s && j.t - i.t == to.t - from.t;
  }

  // ---- composing across the joints ------------------------------------------------------------------

  lemma SmoothComposes(p: Path, i: Instant, j: Instant, k: Instant)
    requires p.accel > 0.0 && i.t <= j.t <= k.t && Smooth(p, i, j) && Smooth(p, j, k)
    ensures Smooth(p, i, k)
  {
    SpeedComposes(p.cruise, j.s - i.s, j.t - i.t, k.s - j.s, k.t - j.t, k.s - i.s, k.t - i.t);
    SteeringComposes(p, i, j, k);
  }

  lemma SteeringComposes(p: Path, i: Instant, j: Instant, k: Instant)
    requires p.accel > 0.0 && i.t <= j.t <= k.t && Steered(p, i, j) && Steered(p, j, k)
    ensures Steered(p, i, k)
  {
    LeadFromStart(p, i, j, k);
    LeadFromEnd(p, i, j, k);
    RateFromEnds(p, i, j, k);
  }

  lemma RateFromEnds(p: Path, i: Instant, j: Instant, k: Instant)
    requires -(p.accel * (j.t - i.t)) <= j.r - i.r <= p.accel * (j.t - i.t)
    requires -(p.accel * (k.t - j.t)) <= k.r - j.r <= p.accel * (k.t - j.t)
    ensures -(p.accel * (k.t - i.t)) <= k.r - i.r <= p.accel * (k.t - i.t)
  {
  }

  lemma LeadFromStart(p: Path, i: Instant, j: Instant, k: Instant)
    requires p.accel > 0.0 && i.t <= j.t <= k.t && Steered(p, i, j) && Steered(p, j, k)
    ensures -Gain(p.accel, k.t - i.t) <= 2.0 * Lead(k.s - i.s, i.r, k.t - i.t) <= Gain(p.accel, k.t - i.t)
  {
    LeadComposes(p.accel, j.s - i.s, j.t - i.t, k.s - j.s, k.t - j.t, i.r, j.r, k.s - i.s, k.t - i.t);
  }

  lemma LeadFromEnd(p: Path, i: Instant, j: Instant, k: Instant)
    requires p.accel > 0.0 && i.t <= j.t <= k.t && Steered(p, i, j) && Steered(p, j, k)
    ensures -Gain(p.accel, k.t - i.t) <= 2.0 * Lead(k.s - i.s, k.r, k.t - i.t) <= Gain(p.accel, k.t - i.t)
  {
    LeadComposes(p.accel, k.s - j.s, k.t - j.t, j.s - i.s, j.t - i.t, k.r, j.r, k.s - i.s, k.t - i.t);
  }

  lemma SpeedComposes(c: real, d1: real, w1: real, d2: real, w2: real, d: real, w: real)
    requires d == d1 + d2 && w == w1 + w2 && 0.0 <= -Lead(d1, c, w1) && 0.0 <= -Lead(d2, c, w2)
    ensures 0.0 <= -Lead(d, c, w)
  {
    assert Lead(d, c, w) == Lead(d1, c, w1) + Lead(d2, c, w2);
  }

  lemma LeadComposes(a: real, d1: real, w1: real, d2: real, w2: real, r: real, q: real, d: real, w: real)
    requires a > 0.0 && w1 >= 0.0 && w2 >= 0.0 && d == d1 + d2 && w == w1 + w2
    requires -Gain(a, w1) <= 2.0 * Lead(d1, r, w1) <= Gain(a, w1)
    requires -Gain(a, w2) <= 2.0 * Lead(d2, q, w2) <= Gain(a, w2)
    requires -(a * w1) <= q - r <= a * w1
    ensures -Gain(a, w) <= 2.0 * Lead(d, r, w) <= Gain(a, w)
  {
    var x := a * (w1 * w2);
    assert a * w1 * w2 == x;
    Scaled(q - r, a * w1, w2, x);
    assert Gain(a, w) == Gain(a, w1) + Gain(a, w2) + 2.0 * x;
    assert Lead(d, r, w) == Lead(d1, r, w1) + Lead(d2, q, w2) + (q - r) * w2;
    Balance(Gain(a, w1), Gain(a, w2), x, Lead(d1, r, w1), Lead(d2, q, w2), (q - r) * w2, Gain(a, w), Lead(d, r, w));
  }

  lemma Balance(g1: real, g2: real, x: real, l1: real, l2: real, y: real, g: real, l: real)
    requires -g1 <= 2.0 * l1 <= g1 && -g2 <= 2.0 * l2 <= g2 && -x <= y <= x
    requires g == g1 + g2 + 2.0 * x && l == l1 + l2 + y
    ensures -g <= 2.0 * l <= g
  {
  }

  lemma Scaled(x: real, b: real, w: real, bw: real)
    requires w >= 0.0 && -b <= x <= b && bw == b * w
    ensures -bw <= x * w <= bw
  {
  }

  lemma {:induction false} SmoothThrough(p: Path, k: nat, from: Instant, l: nat, to: Instant)
    requires Balanced(p) && k <= l <= 4 && OnPiece(p, k, from) && OnPiece(p, l, to) && from.t <= to.t
    ensures Smooth(p, from, to)
    decreases l - k
  {
    if k == l {
      SmoothOnPiece(p, k, from, to);
    } else {
      var m := Joint(p, k);
      JointIsOnBoth(p, k);
      JointsAreBetween(p, k, from, l, to);
      SmoothOnPiece(p, k, from, m);
      SmoothThrough(p, k + 1, m, l, to);
      SmoothComposes(p, from, m, to);
    }
  }

  lemma JointsAreBetween(p: Path, k: nat, from: Instant, l: nat, to: Instant)
    requires Balanced(p) && k < l <= 4 && OnPiece(p, k, from) && OnPiece(p, l, to)
    ensures from.t <= Joint(p, k).t <= to.t
  {
  }

  lemma PathIsSmooth(p: Path, t: real, u: real)
    requires Balanced(p) && t <= u
    ensures Smooth(p, At(p, t), At(p, u))
  {
    AtIsOnPiece(p, t);
    AtIsOnPiece(p, u);
    SmoothThrough(p, PieceOf(p, t), At(p, t), PieceOf(p, u), At(p, u));
  }

  // ---- the trapezoid law ----------------------------------------------------------------------------

  lemma Travel(p: Path, t: real, u: real)
    requires Balanced(p) && t <= u
    ensures p.At(t) <= p.At(u)
    ensures p.At(u) - p.At(t) <= p.cruise * (u - t)
  {
    AtIsOnPiece(p, t);
    AtIsOnPiece(p, u);
    TravelBetween(p, PieceOf(p, t), At(p, t), PieceOf(p, u), At(p, u), p.cruise * (u - t));
  }

  lemma TravelBetween(p: Path, k: nat, from: Instant, l: nat, to: Instant, most: real)
    requires Balanced(p) && k <= l <= 4 && OnPiece(p, k, from) && OnPiece(p, l, to) && from.t <= to.t
    requires most == p.cruise * (to.t - from.t)
    ensures from.s <= to.s && to.s - from.s <= most
  {
    SmoothThrough(p, k, from, l, to);
    SmoothTravel(p, from, to, most);
  }

  lemma SmoothTravel(p: Path, from: Instant, to: Instant, most: real)
    requires Smooth(p, from, to) && most == p.cruise * (to.t - from.t)
    ensures from.s <= to.s && to.s - from.s <= most
  {
    var lead := Lead(to.s - from.s, p.cruise, to.t - from.t);
    assert lead == (to.s - from.s) - most;
  }

  /** s runs from 0 to 1, never back, and never faster than the cruise rate. */
  lemma PathIsMonotoneAndSpeedBounded(p: Path, t: real, u: real)
    requires Balanced(p) && t <= u
    ensures p.At(0.0) == 0.0 && p.At(p.duration) == 1.0
    ensures 0.0 <= p.At(t) <= p.At(u) <= 1.0
    ensures p.At(u) - p.At(t) <= p.cruise * (u - t)
  {
    Travel(p, t, u);
    if t > 0.0 { Travel(p, 0.0, t); }
    if u < p.duration { Travel(p, u, p.duration); }
  }

  /** Second differences stay within the acceleration bound. */
  lemma PathAccelerationBounded(p: Path, t: real, h: real)
    requires Balanced(p) && h >= 0.0
    ensures -Gain(p.accel, h) <= p.At(t + h) - 2.0 * p.At(t) + p.At(t - h) <= Gain(p.accel, h)
  {
    PathIsSmooth(p, t - h, t);
    PathIsSmooth(p, t, t + h);
    SecondDifference(p, At(p, t - h), At(p, t), At(p, t + h), h);
  }

  lemma SecondDifference(p: Path, i: Instant, j: Instant, k: Instant, h: real)
    requires Smooth(p, i, j) && Smooth(p, j, k) && j.t - i.t == h && k.t - j.t == h
    ensures -Gain(p.accel, h) <= k.s - 2.0 * j.s + i.s <= Gain(p.accel, h)
  {
    assert Lead(k.s - j.s, j.r, h) - Lead(j.s - i.s, j.r, h) == k.s - 2.0 * j.s + i.s;
  }
}
