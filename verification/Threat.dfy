/** The four-level pressure threat classifier. */
module Threat {
  import opened Reals

  datatype Level = Normal | Elevated | Critical | Imminent {
    function Rank(): (r: nat) {
      match this
      case Normal => 0
      case Elevated => 1
      case Critical => 2
      case Imminent => 3
    }
  }

  /** The thresholds the classifier reads; the horizon is in nanoseconds. */
  datatype Limits = Limits(pressureLimit: real, warningRatio: real, horizon: int,
                           maxDerivative: real, surgeThreshold: real)

  const NANOS: real := 1000000000.0
  const MAX_INT64: int := 0x7FFF_FFFF_FFFF_FFFF

  function Seconds(nanos: int): (s: real) {
    nanos as real / NANOS
  }

  /** Conversion to an integer drops the fraction. */
  function Truncate(r: real): (n: int) {
    if r >= 0.0 then r.Floor else -((-r).Floor)
  }

  predicate IsSurge(l: Limits, dPdt: real, d2Pdt2: real) {
    && dPdt > 0.0
    && (dPdt > l.surgeThreshold
        || (d2Pdt2 > 0.0 && dPdt > l.surgeThreshold * 0.3 && d2Pdt2 / dPdt > 10.0))
  }

  /** Pressure gained over the horizon, to second order. */
  function Climb(t: real, dPdt: real, d2Pdt2: real): (c: real) {
    dPdt * t + 0.5 * d2Pdt2 * t * t
  }

  function Predict(l: Limits, pressure: real, dPdt: real, d2Pdt2: real): (p: real) {
    var predicted := pressure + Climb(Seconds(l.horizon), dPdt, d2Pdt2);
    if predicted < 0.0 then 0.0 else predicted
  }

  /** Nanoseconds of straight-line climb across the gap. */
  function BreachNanos(gap: real, dPdt: real): (n: real)
    requires dPdt > 0.0
  {
    gap / dPdt * NANOS
  }

  function TimeToBreach(l: Limits, pressure: real, dPdt: real, predicted: real): (n: int) {
    var gap := l.pressureLimit - pressure;
    if predicted >= l.pressureLimit then
      if dPdt > 0.0 then
        if gap / dPdt < 0.0 then 0 else Truncate(BreachNanos(gap, dPdt))
      else Truncate(Seconds(l.horizon) * NANOS)
    else if dPdt > 0.0 then Truncate(BreachNanos(gap, dPdt))
    else MAX_INT64
  }

  /** The ordered switch over what was computed from the derivatives. */
  function LevelOf(l: Limits, pressure: real, dPdt: real, surge: bool, predicted: real, timeToBreach: int)
    : (level: Level)
  {
    if pressure >= l.pressureLimit || (surge && predicted >= l.pressureLimit) then Imminent
    else if surge && timeToBreach <= l.horizon then Critical
    else if pressure >= l.pressureLimit * l.warningRatio || dPdt > l.maxDerivative then Elevated
    else Normal
  }

  function Classify(l: Limits, pressure: real, dPdt: real, d2Pdt2: real): (level: Level) {
    var predicted := Predict(l, pressure, dPdt, d2Pdt2);
    LevelOf(l, pressure, dPdt, IsSurge(l, dPdt, d2Pdt2), predicted, TimeToBreach(l, pressure, dPdt, predicted))
  }

  // ----- monotone pieces

  lemma {:induction false} ClimbInAcceleration(t: real, d: real, a: real, b: real)
    requires a <= b
    ensures Climb(t, d, a) <= Climb(t, d, b)
  {
    var w := t * t;
    MulLeq(a, b, w);
    assert 0.5 * a * t * t == 0.5 * (a * w);
    assert 0.5 * b * t * t == 0.5 * (b * w);
  }

  lemma {:induction false} ClimbInDerivative(t: real, a: real, b: real, d2: real)
    requires a <= b && t >= 0.0
    ensures Climb(t, a, d2) <= Climb(t, b, d2)
  {
    MulLeq(a, b, t);
  }

  lemma {:induction false} BreachInGap(g: real, h: real, d: real)
    requires d > 0.0 && g <= h
    ensures BreachNanos(g, d) <= BreachNanos(h, d)
  {
    var p, q := g / d, h / d;
    DivideTimes(g, d);
    DivideTimes(h, d);
    CancelLeq(p, q, d);
  }

  lemma {:induction false} BreachInDerivative(g: real, a: real, b: real)
    requires 0.0 < a <= b && g >= 0.0
    ensures BreachNanos(g, b) <= BreachNanos(g, a)
  {
    var p, q := g / b, g / a;
    DivideTimes(g, b);
    DivideTimes(g, a);
    QuotientNonNeg(g, a);
    MulLeq(a, b, q);
    CancelLeq(p, q, b);
  }

  lemma {:induction false} TruncateMonotone(a: real, b: real)
    requires a <= b
    ensures Truncate(a) <= Truncate(b)
  {}

  // ----- monotonicity

  /** For fixed derivatives the level never falls as the pressure rises. */
  lemma {:induction false} MonotoneInPressure(l: Limits, p: real, q: real, d: real, d2: real)
    requires p <= q
    ensures Classify(l, p, d, d2).Rank() <= Classify(l, q, d, d2).Rank()
  {
    if IsSurge(l, d, d2) {
      BreachInGap(l.pressureLimit - q, l.pressureLimit - p, d);
      TruncateMonotone(BreachNanos(l.pressureLimit - q, d), BreachNanos(l.pressureLimit - p, d));
    }
  }

  lemma {:induction false} SurgeInAcceleration(l: Limits, d: real, a: real, b: real)
    requires a <= b && IsSurge(l, d, a)
    ensures IsSurge(l, d, b)
  {
    if a > 0.0 {
      var p, q := a / d, b / d;
      DivideTimes(a, d);
      DivideTimes(b, d);
      CancelLeq(p, q, d);
    }
  }

  /** For fixed pressure and first derivative it never falls as the acceleration rises. */
  lemma {:induction false} MonotoneInAcceleration(l: Limits, p: real, d: real, a: real, b: real)
    requires a <= b
    ensures Classify(l, p, d, a).Rank() <= Classify(l, p, d, b).Rank()
  {
    ClimbInAcceleration(Seconds(l.horizon), d, a, b);
    if IsSurge(l, d, a) {
      SurgeInAcceleration(l, d, a, b);
    }
  }

  /** No faster rise ever lowers the level. */
  ghost predicate MonotoneInDerivative(l: Limits, d2: real) {
    forall p, a, b :: a <= b ==> Classify(l, p, a, d2).Rank() <= Classify(l, p, b, d2).Rank()
  }

  lemma {:induction false} RatioAtMost(d2: real, d: real, m: real)
    requires d > 0.0
    ensures d2 / d > m <==> d2 > m * d
  {
    var q := d2 / d;
    DivideTimes(d2, d);
    if q > m {
      MulLess(m, q, d);
    } else {
      MulLeq(q, m, d);
    }
  }

  /** Accelerations in (3 S, 10 S], S being the surge threshold: there a faster rise may stop being
      a surge, since the acceleration test divides by the rise. */
  predicate InBand(l: Limits, d2: real) {
    l.surgeThreshold > 0.0 && 3.0 * l.surgeThreshold < d2 <= 10.0 * l.surgeThreshold
  }

  /** Outside the band a surge survives a faster rise. */
  lemma {:induction false} SurgeInDerivative(l: Limits, a: real, b: real, d2: real)
    requires !InBand(l, d2) && a <= b && IsSurge(l, a, d2)
    ensures IsSurge(l, b, d2)
  {
    RatioAtMost(d2, a, 10.0);
    RatioAtMost(d2, b, 10.0);
  }

  lemma {:induction false} LevelInDerivative(l: Limits, p: real, a: real, b: real, d2: real)
    requires a <= b && Seconds(l.horizon) >= 0.0 && (IsSurge(l, a, d2) ==> IsSurge(l, b, d2))
    ensures Classify(l, p, a, d2).Rank() <= Classify(l, p, b, d2).Rank()
  {
    ClimbInDerivative(Seconds(l.horizon), a, b, d2);
    if IsSurge(l, a, d2) && p < l.pressureLimit {
      BreachInDerivative(l.pressureLimit - p, a, b);
      TruncateMonotone(BreachNanos(l.pressureLimit - p, b), BreachNanos(l.pressureLimit - p, a));
    }
  }

  /** A level that is at most Elevated never falls as the pressure rises faster. */
  lemma {:induction false} LowLevelStays(l: Limits, p: real, a: real, b: real, d2: real)
    requires a <= b && Classify(l, p, a, d2).Rank() <= 1
    ensures Classify(l, p, a, d2).Rank() <= Classify(l, p, b, d2).Rank()
  {}

  /** The least rise that every surge exceeds. */
  function LeastSurge(threshold: real, d2: real): (d: real) {
    if threshold <= 0.0 then 0.0 else if d2 > 3.0 * threshold then 0.3 * threshold else threshold
  }

  lemma {:induction false} SurgeExceeds(l: Limits, d: real, d2: real)
    requires IsSurge(l, d, d2)
    ensures d > LeastSurge(l.surgeThreshold, d2)
  {
    RatioAtMost(d2, d, 10.0);
  }

  /** The level never falls as the pressure rises faster: with a forecast that looks back in time and a
      positive limit this depends on whether the forecast can exceed the pressure at all, and otherwise
      only on the band. */
  predicate Steady(l: Limits, d2: real) {
    if l.horizon >= 0 || l.pressureLimit <= 0.0 then !InBand(l, d2)
    else d2 <= 0.0 || LeastSurge(l.surgeThreshold, d2) >= HalfTurn(l, d2)
  }

  /** The rise below which a forecast at a negative horizon exceeds the pressure. */
  function HalfTurn(l: Limits, d2: real): (d: real) {
    0.5 * d2 * (-Seconds(l.horizon))
  }

  lemma {:induction false} ClimbBack(u: real, d: real, d2: real)
    requires u > 0.0
    ensures Climb(-u, d, d2) > 0.0 <==> d < 0.5 * d2 * u
  {
    var g := 0.5 * d2 * u - d;
    assert Climb(-u, d, d2) == g * u by {
      assert 0.5 * d2 * (-u) * (-u) == (0.5 * d2 * u) * u;
    }
    if g > 0.0 {
      MulPos(g, u);
    } else {
      MulLeq(g, 0.0, u);
    }
  }

  lemma {:induction false} SecondsSign(n: int)
    ensures n > 0 ==> Seconds(n) > 0.0
    ensures n == 0 ==> Seconds(n) == 0.0
    ensures n < 0 ==> Seconds(n) < 0.0
  {
    DivideTimes(n as real, NANOS);
    if n > 0 {
      QuotientPos(n as real, NANOS);
    } else if n < 0 {
      CancelLeq(Seconds(n), 0.0, NANOS);
    }
  }

  /** Looking back, a forecast below the limit keeps the level below Critical. */
  lemma {:induction false} LooksBack(l: Limits, p: real, d: real, d2: real)
    requires l.horizon < 0 && 0.0 < l.pressureLimit && p < l.pressureLimit
    requires IsSurge(l, d, d2) ==> p + Climb(Seconds(l.horizon), d, d2) < l.pressureLimit
    ensures Classify(l, p, d, d2).Rank() <= 1
  {
    if IsSurge(l, d, d2) {
      QuotientNonNeg(l.pressureLimit - p, d);
    }
  }

  lemma {:induction false} SteadyBack(l: Limits, p: real, a: real, b: real, d2: real)
    requires l.horizon < 0 && l.pressureLimit > 0.0 && Steady(l, d2) && a <= b
    ensures Classify(l, p, a, d2).Rank() <= Classify(l, p, b, d2).Rank()
  {
    if p < l.pressureLimit {
      var u := -Seconds(l.horizon);
      SecondsSign(l.horizon);
      if IsSurge(l, a, d2) {
        SurgeExceeds(l, a, d2);
        ClimbBack(u, a, d2);
        if d2 <= 0.0 {
          MulLeq(d2, 0.0, u);
        }
      }
      LooksBack(l, p, a, d2);
      LowLevelStays(l, p, a, b, d2);
    }
  }

  lemma {:induction false} SteadyIsMonotone(l: Limits, p: real, a: real, b: real, d2: real)
    requires Steady(l, d2) && a <= b
    ensures Classify(l, p, a, d2).Rank() <= Classify(l, p, b, d2).Rank()
  {
    SecondsSign(l.horizon);
    if l.horizon < 0 && l.pressureLimit > 0.0 {
      SteadyBack(l, p, a, b, d2);
    } else if IsSurge(l, a, d2) {
      SurgeInDerivative(l, a, b, d2);
      if l.horizon >= 0 {
        LevelInDerivative(l, p, a, b, d2);
      }
    } else {
      LowOrAtLimit(l, p, a, b, d2);
    }
  }

  lemma {:induction false} LowOrAtLimit(l: Limits, p: real, a: real, b: real, d2: real)
    requires a <= b && !IsSurge(l, a, d2)
    ensures Classify(l, p, a, d2).Rank() <= Classify(l, p, b, d2).Rank()
  {
    if p < l.pressureLimit {
      LowLevelStays(l, p, a, b, d2);
    }
  }

  /** For every configuration and acceleration, the exact condition under which no faster rise lowers
      the level. */
  lemma {:induction false} DerivativeMonotoneIff(l: Limits, d2: real)
    ensures MonotoneInDerivative(l, d2) <==> Steady(l, d2)
  {
    if Steady(l, d2) {
      forall p, a, b | a <= b
        ensures Classify(l, p, a, d2).Rank() <= Classify(l, p, b, d2).Rank()
      {
        SteadyIsMonotone(l, p, a, b, d2);
      }
    } else if l.horizon >= 0 || l.pressureLimit <= 0.0 {
      var p, a, b := FallingLevel(l, d2);
      assert Classify(l, p, a, d2).Rank() > Classify(l, p, b, d2).Rank();
    } else {
      var p, a, b := FallingBack(l, d2);
      assert Classify(l, p, a, d2).Rank() > Classify(l, p, b, d2).Rank();
    }
  }

  /** In the band: a slower rise that counts as a surge and calls for an override, and a faster one
      that does not. */
  lemma {:induction false} FallingLevel(l: Limits, d2: real) returns (p: real, a: real, b: real)
    requires InBand(l, d2) && (l.horizon >= 0 || l.pressureLimit <= 0.0)
    ensures a <= b && Classify(l, p, a, d2).Rank() >= 2 && Classify(l, p, b, d2).Rank() <= 1
    ensures l.horizon > 0 ==> Classify(l, p, a, d2) == Imminent
  {
    b := d2 / 10.0;
    a := (l.surgeThreshold * 0.3 + b) / 2.0;
    RatioAtMost(d2, a, 10.0);
    RatioAtMost(d2, b, 10.0);
    if l.horizon > 0 {
      p := l.pressureLimit - a * Seconds(l.horizon);
      BreachesAhead(l, a, d2);
    } else if l.pressureLimit <= 0.0 {
      p := l.pressureLimit - 1.0;
    } else {
      p := l.pressureLimit - 0.5 * a / NANOS;
      BreachesWithin(l, a, d2);
    }
  }

  /** From where the straight line just reaches the limit, the quadratic forecast breaches it. */
  lemma {:induction false} BreachesAhead(l: Limits, a: real, d2: real)
    requires l.horizon > 0 && IsSurge(l, a, d2) && d2 > 0.0
    ensures a * Seconds(l.horizon) > 0.0
    ensures Classify(l, l.pressureLimit - a * Seconds(l.horizon), a, d2) == Imminent
  {
    var t := Seconds(l.horizon);
    SecondsSign(l.horizon);
    MulPos(a, t);
    MulPos(t, t);
    MulPos(d2, t * t);
    assert Climb(t, a, d2) == a * t + 0.5 * (d2 * (t * t));
  }

  /** Half a nanosecond of climb below the limit, the time to breach is truncated to nothing. */
  lemma {:induction false} BreachesWithin(l: Limits, a: real, d2: real)
    requires l.horizon == 0 && IsSurge(l, a, d2)
    ensures 0.5 * a / NANOS > 0.0
    ensures Classify(l, l.pressureLimit - 0.5 * a / NANOS, a, d2).Rank() >= 2
  {
    var gap := 0.5 * a / NANOS;
    QuotientPos(0.5 * a, NANOS);
    DivideTimes(0.5 * a, NANOS);
    DivideTimes(gap, a);
    var q := gap / a;
    assert (q * NANOS) * a == (q * a) * NANOS;
    QuotientPos(gap, a);
    CancelEq(q * NANOS, 0.5, a);
  }

  /** Looking back: a slow surge whose forecast exceeds the pressure, and a faster one farther below. */
  lemma {:induction false} FallingBack(l: Limits, d2: real) returns (p: real, a: real, b: real)
    requires l.horizon < 0 && l.pressureLimit > 0.0 && !Steady(l, d2)
    ensures a <= b && Classify(l, p, a, d2) == Imminent && Classify(l, p, b, d2).Rank() <= 1
  {
    var u, s, m := -Seconds(l.horizon), l.surgeThreshold, HalfTurn(l, d2);
    SecondsSign(l.horizon);
    a := SlowSurge(l, d2, m);
    ClimbBack(u, a, d2);
    p := l.pressureLimit - Climb(-u, a, d2);
    b := a + Max(s, 0.0) + 1.0;
    ClimbFalls(u, a, b, d2);
    ReachesLimit(l, p, a, d2);
    LooksBack(l, p, b, d2);
  }

  lemma {:induction false} ReachesLimit(l: Limits, p: real, d: real, d2: real)
    requires IsSurge(l, d, d2) && p + Climb(Seconds(l.horizon), d, d2) >= l.pressureLimit
    ensures Classify(l, p, d, d2) == Imminent
  {}

  function Max(a: real, b: real): (m: real) {
    if a < b then b else a
  }

  lemma {:induction false} ClimbFalls(u: real, a: real, b: real, d2: real)
    requires u > 0.0 && a < b
    ensures Climb(-u, b, d2) < Climb(-u, a, d2)
  {
    MulLess(a, b, u);
    assert a * (-u) == -(a * u) && b * (-u) == -(b * u);
  }

  /** Between the least surge and any greater rise there is a surge. */
  lemma {:induction false} SlowSurge(l: Limits, d2: real, m: real) returns (a: real)
    requires d2 > 0.0 && LeastSurge(l.surgeThreshold, d2) < m
    ensures IsSurge(l, a, d2) && a < m
  {
    var s := l.surgeThreshold;
    var least := LeastSurge(s, d2);
    var top := if s > 0.0 && d2 > 3.0 * s && d2 / 10.0 < m then d2 / 10.0 else m;
    a := (least + top) / 2.0;
    RatioAtMost(d2, a, 10.0);
  }

  // ----- when only the straight line breaches

  /** A Critical level is reached only when the straight-line forecast breaches the limit,
      up to one nanosecond, while the quadratic one does not. */
  lemma {:induction false} CriticalForces(l: Limits, p: real, d: real, d2: real)
    requires Classify(l, p, d, d2) == Critical
    ensures d > 0.0 && l.horizon >= 0
    ensures Predict(l, p, d, d2) < l.pressureLimit
    ensures (l.pressureLimit - p) * NANOS < (l.horizon as real + 1.0) * d
    ensures d2 * (l.horizon as real * l.horizon as real) < 2.0 * NANOS * d
  {
    var g, h := l.pressureLimit - p, l.horizon as real;
    QuotientNonNeg(g, d);
    GapBelow(g, d, h);
    ClimbNanos(h, d, d2);
  }

  lemma {:induction false} GapBelow(g: real, d: real, h: real)
    requires d > 0.0 && BreachNanos(g, d) < h + 1.0
    ensures g * NANOS < (h + 1.0) * d
  {
    var q := g / d;
    var qn := q * NANOS;
    DivideTimes(g, d);
    MulLess(qn, h + 1.0, d);
    assert qn * d == (q * d) * NANOS;
  }

  lemma {:induction false} TimesNanos(u: real, t: real, h: real)
    requires t == h / NANOS
    ensures (u * t) * NANOS == u * h
  {
    DivideTimes(h, NANOS);
    assert t * NANOS == h;
    assert u * (t * NANOS) == (u * t) * NANOS;
  }

  /** The climb in units of nanoseconds. */
  lemma {:induction false} ClimbNanos(h: real, d: real, d2: real)
    ensures Climb(h / NANOS, d, d2) * NANOS == d * h + 0.5 * (d2 * (h * h)) / NANOS
  {
    var t := h / NANOS;
    var u := d2 * t;
    TimesNanos(d, t, h);
    TimesNanos(u, t, h);
    TimesNanos(d2, t, h);
    assert d2 * (h * h) == (d2 * h) * h;
    assert (u * NANOS) * h == (u * h) * NANOS;
    assert Climb(t, d, d2) == d * t + 0.5 * (u * t);
  }

  /** The acceleration branch alone, without the plain threshold, raised the level. */
  predicate CriticalByAcceleration(l: Limits, p: real, d: real, d2: real) {
    Classify(l, p, d, d2) == Critical && d <= l.surgeThreshold
  }

  lemma {:induction false} AccelerationNeedsShortHorizon(l: Limits, p: real, d: real, d2: real)
    requires CriticalByAcceleration(l, p, d, d2)
    ensures 0 <= l.horizon <= 14142
  {
    var h := l.horizon as real;
    CriticalForces(l, p, d, d2);
    RatioAtMost(d2, d, 10.0);
    if l.horizon >= 14143 {
      MulLeq(14143.0, h, h);
      MulLeq(14143.0, h, 14143.0);
      var w := h * h;
      assert w >= 200024449.0;
      MulLeq(10.0 * d, d2, w);
      MulLeq(200024449.0, w, 10.0 * d);
    }
  }

  /** Under given limits the acceleration branch can raise a Critical level for some reading exactly
      when both thresholds are positive and the prediction horizon is between 0 and 14142 nanoseconds;
      at the default 100 ms it never does. */
  lemma {:induction false} CriticalByAccelerationIff(l: Limits)
    ensures (exists p: real, d: real, d2: real :: CriticalByAcceleration(l, p, d, d2))
       <==> l.surgeThreshold > 0.0 && l.pressureLimit > 0.0 && 0 <= l.horizon <= 14142
  {
    if p: real, d: real, d2: real :| CriticalByAcceleration(l, p, d, d2) {
      AccelerationNeedsShortHorizon(l, p, d, d2);
    }
    if l.surgeThreshold > 0.0 && l.pressureLimit > 0.0 && 0 <= l.horizon <= 14142 {
      var p, d, d2 := ShortHorizonExample(l);
    }
  }

  lemma {:induction false} SquareAtMost(h: real, m: real, mm: real)
    requires 0.0 <= h <= m && m * m == mm
    ensures h * h <= mm
  {
    MulLeq(h, m, h);
    MulLeq(h, m, m);
    assert m * h == h * m;
  }

  /** A rise of one per second accelerating just above ten gains less over the horizon than it would
      straight on in the horizon and 0.99999 ns. */
  lemma {:induction false} UnitClimb(horizon: int, gap: real)
    requires 0 <= horizon <= 14142 && gap * NANOS == horizon as real + 0.99999
    ensures Climb(Seconds(horizon), 1.0, 10.00001) < gap
  {
    var h, d2 := horizon as real, 10.00001;
    var climb, w := Climb(Seconds(horizon), 1.0, d2), h * h;
    SquareAtMost(h, 14142.0, 199996164.0);
    ClimbNanos(h, 1.0, d2);
    SmallRest(w);
    assert climb * NANOS == h + 0.5 * (d2 * w) / NANOS;
    CancelLess(climb, gap, NANOS);
  }

  lemma {:induction false} SmallRest(w: real)
    requires w <= 199996164.0
    ensures 0.5 * (10.00001 * w) / NANOS <= 0.99998999
  {
    var r := 0.5 * (10.00001 * w) / NANOS;
    DivideTimes(0.5 * (10.00001 * w), NANOS);
    CancelLeq(r, 0.99998999, NANOS);
  }

  lemma {:induction false} CancelLess(a: real, b: real, c: real)
    requires c > 0.0 && a * c < b * c
    ensures a < b
  {
    if b <= a {
      MulLeq(b, a, c);
    }
  }

  lemma {:induction false} ClimbScales(t: real, d: real, d2: real, s: real)
    ensures Climb(t, s * d, s * d2) == s * Climb(t, d, d2)
  {
    var u := d2 * (t * t);
    assert 0.5 * d2 * t * t == 0.5 * u;
    assert (s * d) * t == s * (d * t);
    assert 0.5 * (s * d2) * t * t == 0.5 * (s * u);
  }

  lemma {:induction false} ShortHorizonExample(l: Limits) returns (p: real, d: real, d2: real)
    requires l.surgeThreshold > 0.0 && l.pressureLimit > 0.0 && 0 <= l.horizon <= 14142
    ensures CriticalByAcceleration(l, p, d, d2)
  {
    var s, h := l.surgeThreshold, l.horizon as real;
    var unit := (h + 0.99999) / NANOS;
    DivideTimes(h + 0.99999, NANOS);
    var gap := s * unit;
    d, d2, p := s, s * 10.00001, l.pressureLimit - gap;
    UnitClimb(l.horizon, unit);
    var t := Seconds(l.horizon);
    ClimbScales(t, 1.0, 10.00001, s);
    MulLess(Climb(t, 1.0, 10.00001), unit, s);
    assert s * Climb(t, 1.0, 10.00001) == Climb(t, 1.0, 10.00001) * s;
    MulPos(s, unit);
    QuotientIs(gap, s, unit);
    QuotientIs(d2, s, 10.00001);
    assert BreachNanos(gap, d) == h + 0.99999;
    StraightLineBreaches(l, p, d, d2);
  }

  /** A surge that the plain threshold does not see, forecast below the limit, whose straight line reaches
      it just within the horizon. */
  lemma {:induction false} StraightLineBreaches(l: Limits, p: real, d: real, d2: real)
    requires IsSurge(l, d, d2) && d <= l.surgeThreshold && l.horizon >= 0
    requires 0.0 < l.pressureLimit && p < l.pressureLimit && p + Climb(Seconds(l.horizon), d, d2) < l.pressureLimit
    requires BreachNanos(l.pressureLimit - p, d) == l.horizon as real + 0.99999
    ensures CriticalByAcceleration(l, p, d, d2)
  {
    assert Truncate(l.horizon as real + 0.99999) == l.horizon;
  }

  // ----- the exact level, without divisions or roundings

  /** A rise above the threshold, or above three tenths of it and accelerating by more than ten times itself. */
  predicate Surges(l: Limits, d: real, d2: real) {
    d > 0.0 && (d > l.surgeThreshold || (d > 0.3 * l.surgeThreshold && d2 > 10.0 * d))
  }

  lemma {:induction false} SurgeIff(l: Limits, d: real, d2: real)
    ensures IsSurge(l, d, d2) <==> Surges(l, d, d2)
  {
    if d > 0.0 {
      RatioAtMost(d2, d, 10.0);
    }
  }

  /** The quadratic forecast over h nanoseconds reaches the limit; as a forecast is never negative, it
      always reaches a limit that is not positive. */
  predicate Reaches(limit: real, p: real, d: real, d2: real, h: real) {
    limit <= 0.0 || (limit - p) * 1000000000000000000.0 <= 1000000000.0 * (d * h) + 0.5 * (d2 * (h * h))
  }

  lemma {:induction false} ClimbReaches(climb: real, gap: real, dh: real, w: real)
    requires climb * NANOS == dh + 0.5 * w / NANOS
    ensures climb >= gap <==> gap * 1000000000000000000.0 <= 1000000000.0 * dh + 0.5 * w
  {
    DivideTimes(0.5 * w, NANOS);
  }

  lemma {:induction false} PredictReaches(l: Limits, p: real, d: real, d2: real)
    ensures Predict(l, p, d, d2) >= l.pressureLimit <==> Reaches(l.pressureLimit, p, d, d2, l.horizon as real)
  {
    var h := l.horizon as real;
    ClimbNanos(h, d, d2);
    ClimbReaches(Climb(Seconds(l.horizon), d, d2), l.pressureLimit - p, d * h, d2 * (h * h));
  }

  /** The straight line crosses the gap in less than n nanoseconds. */
  predicate CrossesWithin(gap: real, d: real, n: real) {
    gap * 1000000000.0 < n * d
  }

  lemma {:induction false} BreachIs(gap: real, d: real)
    requires d > 0.0
    ensures BreachNanos(gap, d) * d == gap * 1000000000.0
  {
    DivideTimes(gap, d);
    var q := gap / d;
    assert (q * NANOS) * d == (q * d) * NANOS;
  }

  lemma {:induction false} LessIff(b: real, n: real, d: real, y: real)
    requires d > 0.0 && b * d == y
    ensures b < n <==> y < n * d
    ensures b <= n <==> y <= n * d
  {
    if b < n {
      MulLess(b, n, d);
    } else if n < b {
      MulLess(n, b, d);
    }
  }

  lemma {:induction false} CrossesIff(gap: real, d: real, n: real)
    requires d > 0.0
    ensures BreachNanos(gap, d) < n <==> CrossesWithin(gap, d, n)
  {
    BreachIs(gap, d);
    LessIff(BreachNanos(gap, d), n, d, gap * 1000000000.0);
  }

  lemma {:induction false} TruncatedAtMost(b: real, n: int)
    requires b >= 0.0
    ensures Truncate(b) <= n <==> b < n as real + 1.0
  {}

  lemma {:induction false} BreachWithin(l: Limits, p: real, d: real, predicted: real)
    requires d > 0.0 && p < l.pressureLimit
    ensures TimeToBreach(l, p, d, predicted) <= l.horizon
       <==> CrossesWithin(l.pressureLimit - p, d, l.horizon as real + 1.0)
  {
    var gap := l.pressureLimit - p;
    QuotientNonNeg(gap, d);
    CrossesIff(gap, d, l.horizon as real + 1.0);
    TruncatedAtMost(BreachNanos(gap, d), l.horizon);
  }

  /** When each level is reported: Imminent at the limit, or in a surge whose quadratic forecast reaches it;
      Critical in any other surge whose straight line reaches it within the horizon, up to one nanosecond;
      Elevated otherwise from the warning share of the limit on, or above the largest allowed rise. */
  lemma {:induction false} LevelIff(l: Limits, p: real, d: real, d2: real)
    ensures var level := Classify(l, p, d, d2);
      var forecast := Reaches(l.pressureLimit, p, d, d2, l.horizon as real);
      && (level == Imminent <==> p >= l.pressureLimit || (Surges(l, d, d2) && forecast))
      && (level == Critical <==> p < l.pressureLimit && Surges(l, d, d2) && !forecast
                                 && CrossesWithin(l.pressureLimit - p, d, l.horizon as real + 1.0))
      && (level == Normal <==> level != Imminent && level != Critical
                               && p < l.pressureLimit * l.warningRatio && d <= l.maxDerivative)
  {
    SurgeIff(l, d, d2);
    PredictReaches(l, p, d, d2);
    if d > 0.0 && p < l.pressureLimit {
      BreachWithin(l, p, d, Predict(l, p, d, d2));
    }
  }

  /** Without a rise there is no surge. */
  lemma {:induction false} LevelWithoutRise(l: Limits, p: real, d: real, d2: real)
    requires d <= 0.0
    ensures Classify(l, p, d, d2)
         == if p >= l.pressureLimit then Imminent
            else if p >= l.pressureLimit * l.warningRatio || d > l.maxDerivative then Elevated
            else Normal
  {}

  /** n is the time, in nanoseconds and rounded towards zero, in which a rise d crosses the gap. */
  predicate RoundedTime(n: int, gap: real, d: real) {
    if gap >= 0.0 then n >= 0 && n as real * d <= gap * 1000000000.0 < (n as real + 1.0) * d
    else n <= 0 && (n as real - 1.0) * d < gap * 1000000000.0 <= n as real * d
  }

  lemma {:induction false} RoundedReal(b: real, gap: real, d: real)
    requires d > 0.0 && b * d == gap * 1000000000.0
    ensures RoundedTime(Truncate(b), gap, d)
  {
    var n := Truncate(b) as real;
    LessIff(b, 0.0, d, gap * 1000000000.0);
    LessIff(b, n, d, gap * 1000000000.0);
    LessIff(b, n + 1.0, d, gap * 1000000000.0);
    LessIff(b, n - 1.0, d, gap * 1000000000.0);
  }

  lemma {:induction false} RoundedBreach(gap: real, d: real)
    requires d > 0.0
    ensures RoundedTime(Truncate(BreachNanos(gap, d)), gap, d)
  {
    BreachIs(gap, d);
    RoundedReal(BreachNanos(gap, d), gap, d);
  }

  lemma {:induction false} HorizonSurvives(h: int)
    ensures Truncate(Seconds(h) * NANOS) == h
  {
    DivideTimes(h as real, NANOS);
  }

  /** The time to breach: the rounded time of the straight line, but zero if the limit is already passed and
      forecast to stay so; without a rise the horizon if the forecast reaches the limit, and else for ever. */
  lemma {:induction false} TimeToBreachIs(l: Limits, p: real, d: real, predicted: real)
    ensures var n, gap := TimeToBreach(l, p, d, predicted), l.pressureLimit - p;
      if d > 0.0 then
        if predicted >= l.pressureLimit && p > l.pressureLimit then n == 0 else RoundedTime(n, gap, d)
      else n == if predicted >= l.pressureLimit then l.horizon else 0x7FFF_FFFF_FFFF_FFFF
  {
    var gap := l.pressureLimit - p;
    if d > 0.0 {
      RoundedBreach(gap, d);
      DivideTimes(gap, d);
      if gap >= 0.0 {
        QuotientNonNeg(gap, d);
      } else {
        NegativeQuotient(gap, d);
      }
    } else {
      HorizonSurvives(l.horizon);
    }
  }

  lemma {:induction false} NegativeQuotient(a: real, b: real)
    requires a < 0.0 && b > 0.0
    ensures a / b < 0.0
  {
    DivideTimes(a, b);
    if a / b >= 0.0 {
      MulNonNeg(a / b, b);
    }
  }
}
