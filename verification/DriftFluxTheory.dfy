/** Convergence of the drift-flux iteration, and the laws its velocities obey. */
module DriftFluxTheory {
  import opened DriftFlux
  import opened Reals
  import opened Wrappers

  // ----- the collapsed update, over plain reals

  lemma {:induction false} DenomAboveRatio(c: real, r: real, k: real, x: real, d: real)
    requires c > 1.0 && k >= 0.0 && 0.0 <= r <= 1.0 && 0.0 <= x <= 1.0
    requires d == c * (x + r * (1.0 - x)) + k
    ensures d >= c * r
  {
    var t := x * (1.0 - r);
    MulNonNeg(x, 1.0 - r);
    MulNonNeg(c, t);
    var ct, cr := c * t, c * r;
    assert d == cr + ct + k;
  }

  lemma {:induction false} DenomAboveQuality(c: real, r: real, k: real, x: real, d: real)
    requires c > 1.0 && k >= 0.0 && 0.0 <= r <= 1.0 && 0.0 <= x <= 1.0
    requires d == c * (x + r * (1.0 - x)) + k
    ensures d >= c * x
  {
    var t := r * (1.0 - x);
    MulNonNeg(r, 1.0 - x);
    MulNonNeg(c, t);
    var ct, cx := c * t, c * x;
    assert d == cx + ct + k;
  }

  lemma {:induction false} CollapsedAboveRatio(c: real, r: real, k: real, x: real, e: real)
    requires c > 1.0 && k >= 0.0 && 0.0 <= r <= 1.0 && 0.0 <= x <= 1.0
    requires e == c * r + k + x * ((c - 1.0) * (1.0 - r))
    ensures e >= c * r
  {
    var t := (c - 1.0) * (1.0 - r);
    MulNonNeg(c - 1.0, 1.0 - r);
    MulNonNeg(x, t);
    var xt, cr := x * t, c * r;
    assert e == cr + k + xt;
  }

  lemma {:induction false} DenomCollapses(c: real, r: real, k: real, x: real)
    ensures c * (x + r * (1.0 - x)) + k == c * r + k + x * ((c - 1.0) * (1.0 - r)) + x - x * r
  {
    var t := c * x;
    assert c * (x + r * (1.0 - x)) == t + c * r - t * r;
    assert x * ((c - 1.0) * (1.0 - r)) == t - x - t * r + x * r;
  }

  /** With a = x/d, the quality relation's divisor times d is the collapsed divisor times rhoL. */
  lemma {:induction false} QualityDivisor(a: real, d: real, x: real, r: real, e: real, rhoL: real, rhoV: real)
    requires a * d == x && r * rhoL == rhoV && d == e + x - x * r
    ensures (a * rhoV + (1.0 - a) * rhoL) * d == e * rhoL
  {
    var m := a * rhoV + (1.0 - a) * rhoL;
    assert m == rhoL - a * (rhoL - rhoV);
    assert m * d == rhoL * d - (a * d) * (rhoL - rhoV);
    assert m * d == rhoL * d - x * rhoL + x * rhoV;
    assert x * rhoV == (x * r) * rhoL;
    assert e * rhoL == d * rhoL - x * rhoL + (x * r) * rhoL;
  }

  /** Solving q m = a rhoV for q, after multiplying by d and cancelling rhoL. */
  lemma {:induction false} QualitySolved(q: real, m: real, a: real, d: real, x: real, r: real, e: real,
                                         rhoL: real, rhoV: real)
    requires q * m == a * rhoV && a * d == x && r * rhoL == rhoV && m * d == e * rhoL
    requires rhoL > 0.0
    ensures q * e == x * r
  {
    assert (q * m) * d == q * (m * d);
    assert q * (e * rhoL) == (q * e) * rhoL;
    assert (a * rhoV) * d == (a * d) * rhoV;
    assert x * (r * rhoL) == (x * r) * rhoL;
    CancelEq(q * e, x * r, rhoL);
  }

  lemma {:induction false} QualityShrinks(q: real, e: real, x: real, r: real, c: real)
    requires q * e == x * r && e >= c * r && r > 0.0 && q >= 0.0
    ensures q * c <= x
  {
    MulLeq(c * r, e, q);
    assert (c * r) * q == (q * c) * r;
    CancelLeq(q * c, x, r);
  }

  // ----- one update

  /** Distribution parameter above one, no downward drift, vapour no denser than liquid,
      densities clear of the division guards. */
  predicate Physical(p: Problem) {
    && p.c0 > 1.0
    && p.drift >= 0.0
    && 0.0 < p.rhoV <= p.rhoL
    && p.ratio * p.rhoL == p.rhoV
    && TINY <= p.ratio <= 1.0
    && TINY <= p.rhoV
  }

  /** Divisor of the collapsed quality update. */
  function Collapsed(p: Problem, x: real): (d: real) {
    p.c0 * p.ratio + p.drift + x * ((p.c0 - 1.0) * (1.0 - p.ratio))
  }

  lemma {:induction false} DenomBounds(p: Problem, x: real)
    requires Physical(p) && 0.0 <= x <= 1.0
    ensures Denom(p, x) >= p.c0 * p.ratio
    ensures Denom(p, x) >= p.c0 * x
  {
    DenomAboveRatio(p.c0, p.ratio, p.drift, x, Denom(p, x));
    DenomAboveQuality(p.c0, p.ratio, p.drift, x, Denom(p, x));
  }

  /** A guarded quotient that neither the guard nor the clamp touches. */
  lemma {:induction false} QuotientInUnit(x: real, d: real) returns (a: real)
    requires d >= TINY && 0.0 <= x <= d
    ensures Guarded(x, d) == Some(a) && a * d == x && 0.0 <= a <= 1.0 && a == x / d
  {
    a := x / d;
    DivideTimes(x, d);
    CancelLeq(0.0, a, d);
    CancelLeq(a, 1.0, d);
  }

  lemma {:induction false} DivisorAbove(a: real, rhoL: real, rhoV: real)
    requires 0.0 <= a <= 1.0 && 0.0 < rhoV <= rhoL
    ensures a * rhoV + (1.0 - a) * rhoL >= rhoV
    ensures a * rhoV + (1.0 - a) * rhoL >= a * rhoV >= 0.0
  {
    var b := 1.0 - a;
    MulLeq(rhoV, rhoL, b);
    MulNonNeg(b, rhoL);
    MulNonNeg(a, rhoV);
    assert a * rhoV + b * rhoV == rhoV;
  }

  /** The void-fraction update over plain reals. */
  lemma {:induction false} AlphaArithmetic(b: real, x: real, d: real) returns (a: real)
    requires d >= b >= TINY && d >= x >= 0.0
    ensures Guarded(x, d) == Some(a) && a * d == x && 0.0 <= a <= 1.0
    ensures a * b <= x
  {
    a := QuotientInUnit(x, d);
    var y := b * a;
    MulLeq(b, d, a);
    assert y <= x;
  }

  /** The quality update over plain reals. */
  lemma {:induction false} QualityArithmetic(a: real, rhoL: real, rhoV: real, n: real, m: real) returns (q: real)
    requires 0.0 <= a <= 1.0 && TINY <= rhoV <= rhoL
    requires n == a * rhoV && m == a * rhoV + (1.0 - a) * rhoL
    ensures Guarded(n, m) == Some(q) && q * m == n && 0.0 <= q <= 1.0
  {
    DivisorAbove(a, rhoL, rhoV);
    q := QuotientInUnit(n, m);
  }

  lemma {:induction false} AlphaUpdate(p: Problem, x: real) returns (a: real)
    requires Physical(p) && 0.0 <= x <= 1.0
    ensures NextAlpha(p, x) == Some(a) && 0.0 <= a <= 1.0
    ensures a * Denom(p, x) == x && a * (p.c0 * p.ratio) <= x
  {
    var d, b, y := Denom(p, x), p.c0 * p.ratio, p.c0 * x;
    DenomBounds(p, x);
    MulLeq(1.0, p.c0, p.ratio);
    MulLeq(1.0, p.c0, x);
    assert d >= b >= p.ratio && d >= y >= x;
    a := AlphaArithmetic(b, x, d);
  }

  lemma {:induction false} QualityUpdate(p: Problem, a: real) returns (q: real)
    requires TINY <= p.rhoV <= p.rhoL && 0.0 <= a <= 1.0
    ensures NextQuality(p, a) == Some(q) && 0.0 <= q <= 1.0
    ensures q * DenomX(p, a) == NumerX(p, a)
  {
    q := QualityArithmetic(a, p.rhoL, p.rhoV, NumerX(p, a), DenomX(p, a));
  }

  lemma {:induction false} DivisorProduct(p: Problem, x: real, a: real)
    requires a * Denom(p, x) == x && p.ratio * p.rhoL == p.rhoV
    ensures DenomX(p, a) * Denom(p, x) == Collapsed(p, x) * p.rhoL
  {
    var d, e := Denom(p, x), Collapsed(p, x);
    DenomCollapses(p.c0, p.ratio, p.drift, x);
    QualityDivisor(a, d, x, p.ratio, e, p.rhoL, p.rhoV);
  }

  lemma {:induction false} QualityBound(p: Problem, x: real, a: real, q: real)
    requires Physical(p) && 0.0 <= x <= 1.0
    requires a * Denom(p, x) == x && q * DenomX(p, a) == NumerX(p, a) && q >= 0.0
    ensures q * Collapsed(p, x) == x * p.ratio
  {
    DivisorProduct(p, x, a);
    QualitySolved(q, DenomX(p, a), a, Denom(p, x), x, p.ratio, Collapsed(p, x), p.rhoL, p.rhoV);
  }

  lemma {:induction false} FixedOnlyAtZero(c: real, x: real, q: real)
    requires c > 1.0 && x >= 0.0 && q >= 0.0 && q * c <= x
    ensures q == x <==> x == 0.0
  {
    if x > 0.0 {
      MulLess(1.0, c, x);
    } else {
      MulLeq(1.0, c, q);
    }
  }

  lemma {:induction false} QualityContracts(p: Problem, x: real, q: real)
    requires Physical(p) && 0.0 <= x <= 1.0
    requires q * Collapsed(p, x) == x * p.ratio && q >= 0.0
    ensures q * p.c0 <= x
    ensures q == x <==> x == 0.0
  {
    var e := Collapsed(p, x);
    CollapsedAboveRatio(p.c0, p.ratio, p.drift, x, e);
    QualityShrinks(q, e, x, p.ratio, p.c0);
    FixedOnlyAtZero(p.c0, x, q);
  }

  lemma {:induction false} AdvanceIs(p: Problem, x: real, alpha: real, a: real, q: real)
    requires 0.0 <= x <= 1.0 && 0.0 <= alpha <= 1.0
    requires NextAlpha(p, x) == Some(a) && NextQuality(p, a) == Some(q)
    ensures Advance(p, x, alpha) == Settle(p, x, alpha, q, a)
  {}

  /** In the physical range neither guard nor clamp acts: the void fraction becomes
      a = x / Denom, the quality becomes q = x r / (C0 r + k + x (C0-1)(1-r)) <= x / C0,
      and zero is the only quality left alone. */
  lemma {:induction false} Updates(p: Problem, x: real) returns (a: real, q: real)
    requires Physical(p) && 0.0 <= x <= 1.0
    ensures 0.0 <= a <= 1.0 && 0.0 <= q <= 1.0
    ensures NextAlpha(p, x) == Some(a) && NextQuality(p, a) == Some(q)
    ensures a * Denom(p, x) == x && q * Collapsed(p, x) == x * p.ratio
    ensures a * (p.c0 * p.ratio) <= x
    ensures q * p.c0 <= x
    ensures q == x <==> x == 0.0
  {
    a := AlphaUpdate(p, x);
    q := QualityUpdate(p, a);
    QualityBound(p, x, a, q);
    QualityContracts(p, x, q);
  }

  /** The same updates, with only what the convergence argument needs. */
  lemma {:induction false} Contraction(p: Problem, x: real) returns (a: real, q: real)
    requires Physical(p) && 0.0 <= x <= 1.0
    ensures 0.0 <= a <= 1.0 && 0.0 <= q <= 1.0
    ensures NextAlpha(p, x) == Some(a) && NextQuality(p, a) == Some(q)
    ensures a * (p.c0 * p.ratio) <= x && q * p.c0 <= x
  {
    a, q := Updates(p, x);
  }

  /** The tolerance test on the distances the unrelaxed values moved. */
  predicate Settled(p: Problem, x: real, alpha: real, q: real, a: real) {
    Abs(q - x) < p.tolerance && Abs(a - alpha) < p.tolerance
  }

  lemma {:induction false} SettleIs(p: Problem, x: real, alpha: real, q: real, a: real)
    requires 0.0 <= x <= 1.0 && 0.0 <= alpha <= 1.0 && 0.0 <= q <= 1.0 && 0.0 <= a <= 1.0
    ensures 0.0 <= Relaxed(x, q) <= 1.0 && 0.0 <= Relaxed(alpha, a) <= 1.0
    ensures Settle(p, x, alpha, q, a)
         == if Settled(p, x, alpha, q, a)
            then Stop(Relaxed(x, q), Relaxed(alpha, a), WithinTolerance)
            else Continue(Relaxed(x, q), Relaxed(alpha, a))
  {}

  /** One pass of the loop from a physical state. */
  lemma {:induction false} PassIs(p: Problem, x: real, alpha: real, i: nat, a: real, q: real)
    requires 0.0 <= x <= 1.0 && 0.0 <= alpha <= 1.0 && 0.0 <= q <= 1.0 && 0.0 <= a <= 1.0
    requires i < p.maxIterations && NextAlpha(p, x) == Some(a) && NextQuality(p, a) == Some(q)
    ensures 0.0 <= Relaxed(x, q) <= 1.0 && 0.0 <= Relaxed(alpha, a) <= 1.0
    ensures Iterate(p, x, alpha, i)
         == if Settled(p, x, alpha, q, a)
            then Solution(Relaxed(x, q), Relaxed(alpha, a), i, WithinTolerance)
            else Iterate(p, Relaxed(x, q), Relaxed(alpha, a), i + 1)
  {
    AdvanceIs(p, x, alpha, a, q);
    SettleIs(p, x, alpha, q, a);
  }

  // ----- the limit

  /** A small last move certifies a small quality. */
  lemma {:induction false} SmallMove(c: real, x: real, q: real, tol: real)
    requires c > 1.0 && 0.0 <= q && q * c <= x && x - q < tol
    ensures Relaxed(x, q) * (c - 1.0) < tol * c
  {
    MulLeq(1.0, c, q);
    MulLess(x - q, tol, c);
    var xc, qc, y := x * c, q * c, Relaxed(x, q);
    assert (x - q) * c == xc - qc;
    MulLeq(y, x, c - 1.0);
    assert x * (c - 1.0) == xc - x;
  }

  /** y is within tolerance C0/(C0-1) of the fixed point 0. */
  predicate Certified(c0: real, tolerance: real, y: real) {
    y * (c0 - 1.0) < tolerance * c0
  }

  /** The ways a physical run can end: no verdict, or a certified quality not above x. */
  predicate CertifiedEnd(c0: real, tolerance: real, x: real, s: Solution) {
    s.exit == Exhausted || (s.exit == WithinTolerance && s.x <= x && Certified(c0, tolerance, s.x))
  }

  lemma {:induction false} StopCertified(p: Problem, x: real, alpha: real, q: real, a: real)
    requires p.c0 > 1.0 && 0.0 <= q && q * p.c0 <= x
    ensures Relaxed(x, q) <= x
    ensures Settled(p, x, alpha, q, a) ==> Certified(p.c0, p.tolerance, Relaxed(x, q))
  {
    MulLeq(1.0, p.c0, q);
    if Settled(p, x, alpha, q, a) {
      SmallMove(p.c0, x, q, p.tolerance);
    }
  }

  /** The loop, in the physical range: it ends by tolerance or by exhaustion, x never
      rises, and a tolerance exit leaves x within tolerance C0/(C0-1) of the fixed point. */
  lemma {:induction false} IterateCertificate(p: Problem, x: real, alpha: real, i: nat)
    requires Physical(p) && 0.0 <= x <= 1.0 && 0.0 <= alpha <= 1.0
    ensures CertifiedEnd(p.c0, p.tolerance, x, Iterate(p, x, alpha, i))
    decreases p.maxIterations - i
  {
    if i < p.maxIterations {
      var a, q := Contraction(p, x);
      PassIs(p, x, alpha, i, a, q);
      StopCertified(p, x, alpha, q, a);
      if !Settled(p, x, alpha, q, a) {
        IterateCertificate(p, Relaxed(x, q), Relaxed(alpha, a), i + 1);
      }
    }
  }

  // ----- the rate

  function Power(b: real, n: nat): (v: real) {
    if n == 0 then 1.0 else b * Power(b, n - 1)
  }

  /** Relaxing towards a value c times smaller shrinks a bound s by rho = 0.7 + 0.3/c. */
  lemma {:induction false} RelaxShrinks(c: real, rho: real, v: real, w: real, s: real)
    requires c > 0.0 && rho * c == 0.7 * c + 0.3 && v <= s && w * c <= s
    ensures Relaxed(v, w) <= rho * s
  {
    var y := Relaxed(v, w);
    MulLeq(v, s, c);
    var vc, wc, sc := v * c, w * c, s * c;
    assert y * c == 0.7 * vc + 0.3 * wc;
    assert (rho * s) * c == (rho * c) * s;
    assert (0.7 * c + 0.3) * s == 0.7 * sc + 0.3 * s;
    CancelLeq(y, rho * s, c);
  }

  /** From a (c r) <= x <= r S follows a c <= S. */
  lemma {:induction false} AlphaBelow(a: real, c: real, r: real, x: real, s: real)
    requires r > 0.0 && a * (c * r) <= x && x <= r * s
    ensures a * c <= s
  {
    assert a * (c * r) == (a * c) * r;
    assert r * s == s * r;
    CancelLeq(a * c, s, r);
  }

  /** The decaying bounds x <= r S and alpha <= S. */
  predicate Bounded(p: Problem, x: real, alpha: real, s: real) {
    x <= p.ratio * s && alpha <= s
  }

  /** rho = 0.7 + 0.3 / C0. */
  predicate IsRate(p: Problem, rho: real) {
    rho * p.c0 == 0.7 * p.c0 + 0.3
  }

  lemma {:induction false} BoundStep(p: Problem, rho: real, x: real, alpha: real, s: real, a: real, q: real)
    requires p.c0 > 1.0 && p.ratio > 0.0 && IsRate(p, rho) && Bounded(p, x, alpha, s)
    requires a * (p.c0 * p.ratio) <= x && q * p.c0 <= x
    ensures a * p.c0 <= s
    ensures Bounded(p, Relaxed(x, q), Relaxed(alpha, a), rho * s)
  {
    AlphaBelow(a, p.c0, p.ratio, x, s);
    RelaxShrinks(p.c0, rho, alpha, a, s);
    RelaxShrinks(p.c0, rho, x, q, p.ratio * s);
    assert rho * (p.ratio * s) == p.ratio * (rho * s);
  }

  /** Bounds below the tolerance force the tolerance exit. */
  lemma {:induction false} SmallEnough(p: Problem, x: real, alpha: real, s: real, a: real, q: real)
    requires p.c0 > 1.0 && 0.0 <= p.ratio <= 1.0 && Bounded(p, x, alpha, s) && s < p.tolerance
    requires 0.0 <= x && 0.0 <= alpha && 0.0 <= a && a * p.c0 <= s && 0.0 <= q && q * p.c0 <= x
    ensures Settled(p, x, alpha, q, a)
  {
    AtMostProduct(a, p.c0, s);
    AtMostProduct(q, p.c0, x);
    MulLeq(p.ratio, 1.0, s);
    assert x <= s;
  }

  lemma {:induction false} AtMostProduct(a: real, c: real, s: real)
    requires c > 1.0 && a >= 0.0 && a * c <= s
    ensures a <= s
  {
    MulLeq(1.0, c, a);
  }

  /** The bound s is below the tolerance n passes later. */
  predicate Reaches(p: Problem, rho: real, s: real, n: nat) {
    s * Power(rho, n) < p.tolerance
  }

  /** If the bound reaches the tolerance by pass m, the loop ends there or earlier. */
  lemma {:induction false} IterateConverges(p: Problem, rho: real, x: real, alpha: real, s: real, i: nat, m: nat)
    requires Physical(p) && IsRate(p, rho)
    requires 0.0 <= x <= 1.0 && 0.0 <= alpha <= 1.0 && Bounded(p, x, alpha, s)
    requires i <= m < p.maxIterations && Reaches(p, rho, s, m - i)
    ensures Iterate(p, x, alpha, i).exit == WithinTolerance && Iterate(p, x, alpha, i).iterations <= m
    decreases m - i
  {
    var a, q := Contraction(p, x);
    PassIs(p, x, alpha, i, a, q);
    BoundStep(p, rho, x, alpha, s, a, q);
    if i == m {
      assert Power(rho, 0) == 1.0;
      SmallEnough(p, x, alpha, s, a, q);
    } else if !Settled(p, x, alpha, q, a) {
      ReachesStep(p, rho, s, m - i);
      IterateConverges(p, rho, Relaxed(x, q), Relaxed(alpha, a), rho * s, i + 1, m);
    }
  }

  lemma {:induction false} ReachesStep(p: Problem, rho: real, s: real, n: nat)
    requires n > 0
    ensures Reaches(p, rho, s, n) <==> Reaches(p, rho, rho * s, n - 1)
  {
    var w := Power(rho, n - 1);
    assert s * (rho * w) == (rho * s) * w;
  }

  // ----- the solver, from its inputs

  /** What the caller can check: C0 above one, no downward drift, positive mass flux,
      vapour no denser than liquid, densities clear of the division guards. */
  predicate PhysicalInput(c: Config, e: Equation) {
    && c.c0 > 1.0 && c.vdj >= 0.0 && e.massFlux > 0.0
    && 0.0 < e.rhoV <= e.rhoL
    && 0.000000000000000000000000000001 <= e.rhoV && 0.000000000000000000000000000001 * e.rhoL <= e.rhoV
  }

  lemma {:induction false} SetupPhysical(c: Config, e: Equation)
    requires PhysicalInput(c, e)
    ensures Usable(e) && Physical(Setup(c, e))
  {
    var r := e.rhoV / e.rhoL;
    DivideTimes(e.rhoV, e.rhoL);
    CancelLeq(r, 1.0, e.rhoL);
    CancelLeq(TINY, r, e.rhoL);
    MulNonNeg(e.rhoV, c.vdj);
    QuotientNonNeg(e.rhoV * c.vdj, e.massFlux);
  }

  /** For every physical input the solver ends by tolerance or by exhaustion; a tolerance
      exit returns a quality no larger than the initial 0.1 and within
      tolerance C0/(C0-1) of the only fixed point, zero. */
  lemma {:induction false} SolveCertificate(c: Config, e: Equation)
    requires PhysicalInput(c, e)
    ensures CertifiedEnd(c.c0, c.tolerance, 0.1, Solve(c, e))
  {
    SetupPhysical(c, e);
    IterateCertificate(Setup(c, e), 0.1, 0.1, 0);
  }

  /** A bound that started at 0.1 rhoL / rhoV and fell by the factor w is below the tolerance. */
  predicate SmallBy(w: real, rhoL: real, rhoV: real, tol: real) {
    0.1 * w * rhoL < tol * rhoV
  }

  /** The tolerance test succeeds by pass m as soon as (0.1 rhoL / rhoV) rho^m falls below
      the tolerance, rho being 0.7 + 0.3 / C0. */
  lemma {:induction false} SolveConverges(c: Config, e: Equation, rho: real, m: nat)
    requires PhysicalInput(c, e) && rho * c.c0 == 0.7 * c.c0 + 0.3
    requires m < c.maxIterations && SmallBy(Power(rho, m), e.rhoL, e.rhoV, c.tolerance)
    ensures Solve(c, e).exit == WithinTolerance && Solve(c, e).iterations <= m
  {
    SetupPhysical(c, e);
    var p := Setup(c, e);
    var s := 0.1 / p.ratio;
    DivideTimes(0.1, p.ratio);
    StartBound(p.ratio, s);
    StartReaches(p.ratio, s, Power(rho, m), c.tolerance, e.rhoL, e.rhoV);
    IterateConverges(p, rho, 0.1, 0.1, s, 0, m);
  }

  lemma {:induction false} StartBound(r: real, s: real)
    requires 0.0 < r <= 1.0 && s * r == 0.1
    ensures 0.1 <= r * s && 0.1 <= s
  {
    var rs := s * r;
    assert 0.1 * r <= rs;
    CancelLeq(0.1, s, r);
  }

  lemma {:induction false} StartReaches(r: real, s: real, w: real, tol: real, rhoL: real, rhoV: real)
    requires r > 0.0 && rhoL > 0.0 && s * r == 0.1 && r * rhoL == rhoV
    requires SmallBy(w, rhoL, rhoV, tol)
    ensures s * w < tol
  {
    var sw := s * w;
    var k := r * rhoL;
    assert sw * k == (s * r) * (w * rhoL);
    assert 0.1 * w * rhoL == 0.1 * (w * rhoL);
    MulPos(r, rhoL);
    if tol <= sw {
      MulLeq(tol, sw, k);
    }
  }

  // ----- the default configuration

  lemma {:induction false} PowerAdd(b: real, m: nat, n: nat)
    ensures Power(b, m + n) == Power(b, m) * Power(b, n)
    decreases m
  {
    if m > 0 {
      PowerAdd(b, m - 1, n);
      var u, v := Power(b, m - 1), Power(b, n);
      assert b * (u * v) == (b * u) * v;
    }
  }

  lemma {:induction false} PowerNonNeg(b: real, n: nat)
    requires b >= 0.0
    ensures Power(b, n) >= 0.0
  {
    if n > 0 {
      PowerNonNeg(b, n - 1);
      MulNonNeg(b, Power(b, n - 1));
    }
  }

  /** Squaring a bound on b^n bounds b^(2n). */
  lemma {:induction false} Squared(b: real, n: nat, u: real, v: real)
    requires b >= 0.0 && Power(b, n) <= u && u * u <= v
    ensures Power(b, 2 * n) <= v
  {
    var w := Power(b, n);
    PowerNonNeg(b, n);
    PowerAdd(b, n, n);
    MulLeq(w, u, w);
    MulLeq(w, u, u);
    assert w * w <= u * w && u * w == w * u;
  }

  lemma {:induction false} SquaredPlus(b: real, n: nat, u: real, v: real)
    requires b >= 0.0 && Power(b, n) <= u && u * u * b <= v
    ensures Power(b, 2 * n + 1) <= v
  {
    Squared(b, n, u, u * u);
    MulLeq(Power(b, 2 * n), u * u, b);
  }

  /** 0.95^463 < 5e-11. */
  lemma {:induction false} RateSmall()
    ensures Power(0.95, 463) < 0.00000000005
  {
    assert Power(0.95, 3) == 0.857375;
    assert Power(0.95, 7) <= 0.69833730 by { assert Power(0.95, 5) == 0.95 * 0.95 * 0.857375; }
    Squared(0.95, 7, 0.69833730, 0.48767499);
    Squared(0.95, 14, 0.48767499, 0.23782690);
    SquaredPlus(0.95, 28, 0.23782690, 0.053733553);
    SquaredPlus(0.95, 57, 0.053733553, 0.0027429300);
    SquaredPlus(0.95, 115, 0.0027429300, 0.0000071474818);
    SquaredPlus(0.95, 231, 0.0000071474818, 0.000000000048532172);
  }

  /** The powers that the descent below uses. */
  lemma {:induction false} StageRates()
    ensures Power(0.715, 186) <= 0.000000000000000000000000001
    ensures Power(0.8, 11) <= 0.1 && Power(0.925, 30) <= 0.1 && Power(0.95, 270) < 0.000001
  {
    FirstStageRate();
    LaterStageRates();
    LastStageRate();
  }

  lemma {:induction false} FirstStageRate()
    ensures Power(0.715, 186) <= 0.000000000000000000000000001
  {
    assert Power(0.715, 5) <= 0.18687;
    SquaredPlus(0.715, 5, 0.18687, 0.024969);
    SquaredPlus(0.715, 11, 0.024969, 0.00044577);
    Squared(0.715, 23, 0.00044577, 0.00000019872);
    SquaredPlus(0.715, 46, 0.00000019872, 0.000000000000028237);
    Squared(0.715, 93, 0.000000000000028237, 0.000000000000000000000000001);
  }

  lemma {:induction false} LaterStageRates()
    ensures Power(0.8, 11) <= 0.1 && Power(0.925, 30) <= 0.1
  {
    assert Power(0.8, 5) == 0.32768;
    SquaredPlus(0.8, 5, 0.32768, 0.1);
    assert Power(0.925, 3) <= 0.7915;
    SquaredPlus(0.925, 3, 0.7915, 0.5796);
    SquaredPlus(0.925, 7, 0.5796, 0.3109);
    Squared(0.925, 15, 0.3109, 0.1);
  }

  lemma {:induction false} LastStageRate()
    ensures Power(0.95, 270) < 0.000001
  {
    assert Power(0.95, 4) == 0.81450625;
    Squared(0.95, 4, 0.81450625, 0.66342044);
    Squared(0.95, 8, 0.66342044, 0.44012669);
    SquaredPlus(0.95, 16, 0.44012669, 0.18402593);
    SquaredPlus(0.95, 33, 0.18402593, 0.032172266);
    SquaredPlus(0.95, 67, 0.032172266, 0.00098330203);
    Squared(0.95, 135, 0.00098330203, 0.00000096689);
  }

  // ----- the descent: a quality far above the density ratio falls faster

  /** While x is at least k times the density ratio, the collapsed divisor is at least d times it. */
  predicate Steep(p: Problem, k: real, d: real) {
    0.0 < d <= p.c0 + k * ((p.c0 - 1.0) * (1.0 - p.ratio))
  }

  /** q is what the quality update makes of x. */
  predicate IsUpdate(p: Problem, x: real, q: real) {
    q >= 0.0 && q * Collapsed(p, x) == x * p.ratio && q * p.c0 <= x
  }

  lemma {:induction false} SteepDivisor(c: real, r: real, drift: real, x: real, k: real, d: real, g: real, e: real)
    requires r > 0.0 && drift >= 0.0 && g >= 0.0 && r * k <= x && d <= c + k * g
    requires e == c * r + drift + x * g
    ensures e >= d * r
  {
    MulLeq(r * k, x, g);
    assert (r * k) * g == r * (k * g);
    MulLeq(d, c + k * g, r);
    assert (c + k * g) * r == c * r + r * (k * g);
  }

  predicate DivisorAtLeast(p: Problem, x: real, d: real) {
    Collapsed(p, x) >= d * p.ratio
  }

  lemma {:induction false} DivisorSteep(p: Problem, x: real, k: real, d: real)
    requires Physical(p) && Steep(p, k, d) && !Caught(p, x, k)
    ensures DivisorAtLeast(p, x, d)
  {
    MulNonNeg(p.c0 - 1.0, 1.0 - p.ratio);
    SteepDivisor(p.c0, p.ratio, p.drift, x, k, d, (p.c0 - 1.0) * (1.0 - p.ratio), Collapsed(p, x));
  }

  lemma {:induction false} UpdateAtMost(p: Problem, x: real, q: real, d: real)
    requires p.ratio > 0.0 && DivisorAtLeast(p, x, d)
    requires q >= 0.0 && q * Collapsed(p, x) == x * p.ratio
    ensures q * d <= x
  {
    QualityShrinks(q, Collapsed(p, x), x, p.ratio, d);
  }

  /** Above k times the density ratio the update is at most one d-th. */
  predicate Faster(p: Problem, x: real, q: real, k: real, d: real) {
    Caught(p, x, k) || q * d <= x
  }

  lemma {:induction false} FallsFaster(p: Problem, x: real, q: real, k: real, d: real)
    requires Physical(p) && Steep(p, k, d) && IsUpdate(p, x, q)
    ensures Faster(p, x, q, k, d)
  {
    if !Caught(p, x, k) {
      DivisorSteep(p, x, k, d);
      UpdateAtMost(p, x, q, d);
    }
  }

  /** x is at most k times the density ratio. */
  predicate Caught(p: Problem, x: real, k: real) {
    x <= p.ratio * k
  }

  predicate Below(p: Problem, x: real, k: real, b: real) {
    Caught(p, x, k) || x <= b
  }

  lemma {:induction false} StaysCaught(p: Problem, x: real, q: real, k: real)
    requires p.c0 > 1.0 && q >= 0.0 && q * p.c0 <= x && Caught(p, x, k)
    ensures Caught(p, Relaxed(x, q), k)
  {
    var y, t := Relaxed(x, q), p.ratio * k;
    MulLeq(1.0, p.c0, q);
    assert y <= x;
  }

  lemma {:induction false} FallsBelow(d: real, rho: real, x: real, q: real, b: real)
    requires d > 0.0 && RateOf(d, rho) && x <= b && q * d <= x
    ensures Relaxed(x, q) <= rho * b
  {
    RelaxShrinks(d, rho, x, q, b);
  }

  lemma {:induction false} BelowStep(p: Problem, k: real, d: real, rho: real, x: real, q: real, b: real)
    requires p.c0 > 1.0 && d > 0.0 && RateOf(d, rho) && Below(p, x, k, b)
    requires q >= 0.0 && q * p.c0 <= x && Faster(p, x, q, k, d)
    ensures Below(p, Relaxed(x, q), k, rho * b)
  {
    if Caught(p, x, k) {
      StaysCaught(p, x, q, k);
    } else {
      FallsBelow(d, rho, x, q, b);
    }
  }

  predicate EndsBy(s: Solution, m: nat) {
    s.exit == WithinTolerance && s.iterations <= m
  }

  predicate InUnit(v: real) {
    0.0 <= v <= 1.0
  }

  /** Falling to one d-th of a value unrelaxed is falling by rho relaxed. */
  predicate RateOf(d: real, rho: real) {
    rho * d == 0.7 * d + 0.3
  }

  function Decayed(rho: real, b: real, n: nat): (v: real) {
    Power(rho, n) * b
  }

  lemma {:induction false} DecayedLess(rho: real, b: real, n: nat)
    requires n > 0
    ensures Decayed(rho, rho * b, n - 1) == Decayed(rho, b, n)
  {
    var w := Power(rho, n - 1);
    assert w * (rho * b) == (rho * w) * b;
  }

  lemma {:induction false} FallingPass(p: Problem, k: real, d: real, rho: real, x: real, alpha: real, b: real, i: nat)
    returns (y: real, beta: real)
    requires Physical(p) && Steep(p, k, d) && RateOf(d, rho)
    requires InUnit(x) && InUnit(alpha) && Below(p, x, k, b) && i < p.maxIterations
    ensures InUnit(y) && InUnit(beta)
    ensures EndsBy(Iterate(p, x, alpha, i), i)
         || (Iterate(p, x, alpha, i) == Iterate(p, y, beta, i + 1) && Below(p, y, k, rho * b))
  {
    var a, q := Updates(p, x);
    PassIs(p, x, alpha, i, a, q);
    FallsFaster(p, x, q, k, d);
    BelowStep(p, k, d, rho, x, q, b);
    y, beta := Relaxed(x, q), Relaxed(alpha, a);
  }

  /** The loop, entered at pass i, has stopped by pass j or goes on from y and beta there. */
  ghost predicate Leads(p: Problem, x: real, alpha: real, i: nat, y: real, beta: real, j: nat) {
    && InUnit(x) && InUnit(alpha) && InUnit(y) && InUnit(beta)
    && (EndsBy(Iterate(p, x, alpha, i), j) || Iterate(p, x, alpha, i) == Iterate(p, y, beta, j))
  }

  /** After n passes the loop has stopped, or x is below k times the density ratio or below rho^n b. */
  lemma {:induction false} Descend(p: Problem, k: real, d: real, rho: real, x: real, alpha: real, b: real,
                                   i: nat, n: nat) returns (y: real, beta: real)
    requires Physical(p) && Steep(p, k, d) && RateOf(d, rho)
    requires InUnit(x) && InUnit(alpha) && Below(p, x, k, b) && i + n <= p.maxIterations
    ensures Leads(p, x, alpha, i, y, beta, i + n)
    ensures EndsBy(Iterate(p, x, alpha, i), i + n) || Below(p, y, k, Decayed(rho, b, n))
    decreases n
  {
    if n == 0 {
      y, beta := x, alpha;
    } else {
      y, beta := FallingPass(p, k, d, rho, x, alpha, b, i);
      if !EndsBy(Iterate(p, x, alpha, i), i) {
        DecayedLess(rho, b, n);
        y, beta := Descend(p, k, d, rho, y, beta, rho * b, i + 1, n - 1);
      }
    }
  }

  /** One stage: from below b to below k times the density ratio. */
  lemma {:induction false} Stage(p: Problem, k: real, d: real, rho: real, x: real, alpha: real, b: real,
                                 i: nat, n: nat) returns (y: real, beta: real)
    requires Physical(p) && Steep(p, k, d) && RateOf(d, rho)
    requires InUnit(x) && InUnit(alpha) && x <= b && i + n <= p.maxIterations
    requires Caught(p, Decayed(rho, b, n), k)
    ensures Leads(p, x, alpha, i, y, beta, i + n)
    ensures EndsBy(Iterate(p, x, alpha, i), i + n) || Caught(p, y, k)
  {
    y, beta := Descend(p, k, d, rho, x, alpha, b, i, n);
    BelowCaught(p, y, k, Decayed(rho, b, n));
  }

  lemma {:induction false} BelowCaught(p: Problem, y: real, k: real, v: real)
    requires Caught(p, v, k)
    ensures Below(p, y, k, v) ==> Caught(p, y, k)
  {
    var t := p.ratio * k;
  }

  /** The settings under which the source runs, the drift velocity aside. */
  predicate DefaultProblem(p: Problem) {
    Physical(p) && p.c0 == 1.2 && p.tolerance == 0.000001 && p.maxIterations == 500
  }

  lemma {:induction false} SteepStages(p: Problem)
    requires DefaultProblem(p) && p.ratio <= 0.01
    ensures Steep(p, 100.0, 20.0) && Steep(p, 10.0, 3.0) && Steep(p, 1.0, 4.0 / 3.0)
  {
    assert (p.c0 - 1.0) * (1.0 - p.ratio) >= 0.198;
  }

  lemma {:induction false} StageBounds(p: Problem)
    requires TINY <= p.ratio
    ensures Caught(p, Decayed(0.715, 0.1, 186), 100.0)
    ensures Caught(p, Decayed(0.8, p.ratio * 100.0, 11), 10.0)
    ensures Caught(p, Decayed(0.925, p.ratio * 10.0, 30), 1.0)
  {
    StageRates();
    MulLeq(Power(0.8, 11), 0.1, p.ratio * 100.0);
    MulLeq(Power(0.925, 30), 0.1, p.ratio * 10.0);
  }

  /* The stages of the descent. Each starts at the pass at which the stage before it ends, and the first at
     pass 0 with x = 0.1. These values are parameters fixed by a hypothesis because a call of Iterate on
     literals would be unrolled by the verifier. */

  /** From below the density ratio, 270 more passes settle the void fraction. */
  lemma {:induction false} SettlesFrom(p: Problem, x: real, alpha: real, i: nat)
    requires DefaultProblem(p) && InUnit(x) && InUnit(alpha) && Caught(p, x, 1.0) && i == 227
    ensures EndsBy(Iterate(p, x, alpha, i), 497)
  {
    LastStageRate();
    IterateConverges(p, 0.95, x, alpha, 1.0, i, 497);
  }

  lemma {:induction false} ThirdStage(p: Problem, x: real, alpha: real, i: nat)
    requires DefaultProblem(p) && p.ratio <= 0.01 && InUnit(x) && InUnit(alpha) && Caught(p, x, 10.0) && i == 197
    ensures EndsBy(Iterate(p, x, alpha, i), 497)
  {
    SteepStages(p);
    StageBounds(p);
    var y, beta := Stage(p, 1.0, 4.0 / 3.0, 0.925, x, alpha, p.ratio * 10.0, i, 30);
    if !EndsBy(Iterate(p, x, alpha, i), i + 30) {
      SettlesFrom(p, y, beta, i + 30);
    }
  }

  lemma {:induction false} SecondStage(p: Problem, x: real, alpha: real, i: nat)
    requires DefaultProblem(p) && p.ratio <= 0.01 && InUnit(x) && InUnit(alpha) && Caught(p, x, 100.0) && i == 186
    ensures EndsBy(Iterate(p, x, alpha, i), 497)
  {
    SteepStages(p);
    StageBounds(p);
    var y, beta := Stage(p, 10.0, 3.0, 0.8, x, alpha, p.ratio * 100.0, i, 11);
    if !EndsBy(Iterate(p, x, alpha, i), i + 11) {
      ThirdStage(p, y, beta, i + 11);
    }
  }

  /** The density ratio is caught up with in three stages. */
  lemma {:induction false} SmallRatioConverges(p: Problem, x: real, alpha: real, i: nat)
    requires DefaultProblem(p) && p.ratio <= 0.01 && x == 0.1 && InUnit(alpha) && i == 0
    ensures EndsBy(Iterate(p, x, alpha, i), 497)
  {
    SteepStages(p);
    StageBounds(p);
    var y, beta := Stage(p, 100.0, 20.0, 0.715, x, alpha, 0.1, i, 186);
    if !EndsBy(Iterate(p, x, alpha, i), i + 186) {
      SecondStage(p, y, beta, i + 186);
    }
  }

  /** With the default configuration (any non-negative drift velocity) the solver leaves by the
      tolerance test on every physical input, at the latest in pass 497 of 0 to 499, and in pass 463
      if rhoV/rhoL is at least 5e-6; the quality it returns is below 6e-6. */
  lemma {:induction false} DefaultConverges(vdj: real, e: Equation)
    requires PhysicalInput(DEFAULT.(vdj := vdj), e)
    ensures var s := Solve(DEFAULT.(vdj := vdj), e);
      && s.exit == WithinTolerance && s.iterations <= 497 && s.x < 0.000006
      && (e.rhoV >= 0.000005 * e.rhoL ==> s.iterations <= 463)
  {
    var c := DEFAULT.(vdj := vdj);
    if e.rhoV >= 0.000005 * e.rhoL {
      DenseVapour(c, e);
    } else {
      ThinVapour(c, e);
    }
    SolveCertificate(c, e);
  }

  lemma {:induction false} DenseVapour(c: Config, e: Equation)
    requires PhysicalInput(c, e) && c == DEFAULT.(vdj := c.vdj) && e.rhoV >= 0.000005 * e.rhoL
    ensures EndsBy(Solve(c, e), 463)
  {
    RateSmall();
    DenseMargin(Power(0.95, 463), e.rhoL, e.rhoV);
    SolveConverges(c, e, 0.95, 463);
  }

  lemma {:induction false} DenseMargin(w: real, rhoL: real, rhoV: real)
    requires w < 0.00000000005 && rhoL > 0.0 && rhoV >= 0.000005 * rhoL
    ensures SmallBy(w, rhoL, rhoV, 0.000001)
  {
    TimesTenth(w, rhoL);
    MulLess(w, 0.00000000005, rhoL);
    var wl := w * rhoL;
    assert wl < 0.00000000005 * rhoL;
    assert 0.1 * wl < 0.000001 * rhoV;
  }

  lemma {:induction false} TimesTenth(w: real, v: real)
    ensures 0.1 * w * v == 0.1 * (w * v)
  {}

  lemma {:induction false} RatioBelow(r: real, rhoV: real, rhoL: real)
    requires r * rhoL == rhoV && rhoL > 0.0 && rhoV < 0.000005 * rhoL
    ensures r <= 0.000005
  {
    CancelLeq(r, 0.000005, rhoL);
  }

  lemma {:induction false} ThinVapour(c: Config, e: Equation)
    requires PhysicalInput(c, e) && c == DEFAULT.(vdj := c.vdj) && e.rhoV < 0.000005 * e.rhoL
    ensures EndsBy(Solve(c, e), 497)
  {
    var p := Setup(c, e);
    SetupPhysical(c, e);
    RatioBelow(p.ratio, e.rhoV, e.rhoL);
    SmallRatioConverges(p, 0.1, 0.1, 0);
  }

  // ----- running out of passes

  /** A quality this large moves by at least the tolerance. */
  predicate Moves(x: real, c0: real, tolerance: real) {
    x * (c0 - 1.0) >= tolerance * c0
  }

  /** A quality still this large cannot pass the tolerance test. */
  predicate TooLarge(p: Problem, x: real) {
    Moves(x, p.c0, p.tolerance)
  }

  lemma {:induction false} LargeMove(c: real, x: real, q: real, tol: real)
    requires c > 1.0 && q * c <= x && x * (c - 1.0) >= tol * c
    ensures x - q >= tol
  {
    var xc, qc, m := x * c, q * c, x - q;
    assert m * c == xc - qc;
    assert x * (c - 1.0) == xc - x;
    CancelLeq(tol, m, c);
  }

  lemma {:induction false} TooLargeMoves(p: Problem, x: real, q: real, a: real, alpha: real)
    requires p.c0 > 1.0 && q * p.c0 <= x && q >= 0.0 && TooLarge(p, x)
    ensures !Settled(p, x, alpha, q, a)
  {
    LargeMove(p.c0, x, q, p.tolerance);
  }

  lemma {:induction false} StaysTooLarge(p: Problem, x: real, q: real, n: nat)
    requires p.c0 > 1.0 && q >= 0.0 && n > 0 && TooLarge(p, x * Power(0.7, n))
    ensures TooLarge(p, Relaxed(x, q) * Power(0.7, n - 1))
  {
    var w, y := Power(0.7, n - 1), Relaxed(x, q);
    PowerNonNeg(0.7, n - 1);
    assert 0.7 * x <= y;
    MulLeq(0.7 * x, y, w);
    assert (0.7 * x) * w == x * (0.7 * w);
    MulLeq(x * Power(0.7, n), y * w, p.c0 - 1.0);
  }

  lemma {:induction false} LargeBefore(p: Problem, x: real, n: nat)
    requires p.c0 > 1.0 && x >= 0.0 && TooLarge(p, x * Power(0.7, n))
    ensures TooLarge(p, x)
  {
    AtMostOne(n);
    MulLeq(Power(0.7, n), 1.0, x);
    MulLeq(x * Power(0.7, n), x, p.c0 - 1.0);
  }

  lemma {:induction false} AtMostOne(n: nat)
    ensures 0.0 <= Power(0.7, n) <= 1.0
  {
    if n > 0 {
      AtMostOne(n - 1);
    }
  }

  /** Too large even after n passes of the fastest fall. */
  predicate TooLargeFor(p: Problem, x: real, n: nat) {
    TooLarge(p, x * Power(0.7, n))
  }

  lemma {:induction false} LargePass(p: Problem, x: real, alpha: real, i: nat, n: nat) returns (y: real, beta: real)
    requires Physical(p) && InUnit(x) && InUnit(alpha) && i < p.maxIterations && TooLargeFor(p, x, n)
    ensures InUnit(y) && InUnit(beta) && Iterate(p, x, alpha, i) == Iterate(p, y, beta, i + 1)
    ensures n > 0 ==> TooLargeFor(p, y, n - 1)
  {
    var a, q := Contraction(p, x);
    PassIs(p, x, alpha, i, a, q);
    LargeBefore(p, x, n);
    TooLargeMoves(p, x, q, a, alpha);
    y, beta := Relaxed(x, q), Relaxed(alpha, a);
    if n > 0 {
      StaysTooLarge(p, x, q, n);
    }
  }

  /** The answer of a loop that runs out of passes. */
  predicate Fallback(s: Solution, passes: nat) {
    s.exit == Exhausted && s.x == 0.5 && s.iterations == passes
  }

  /** A quality that even the fastest fall leaves too large uses up all passes. */
  lemma {:induction false} IterateExhausts(p: Problem, x: real, alpha: real, i: nat)
    requires Physical(p) && InUnit(x) && InUnit(alpha) && i <= p.maxIterations
    requires i < p.maxIterations ==> TooLargeFor(p, x, p.maxIterations - 1 - i)
    ensures Fallback(Iterate(p, x, alpha, i), p.maxIterations)
    decreases p.maxIterations - i
  {
    if i < p.maxIterations {
      var y, beta := LargePass(p, x, alpha, i, p.maxIterations - 1 - i);
      IterateExhausts(p, y, beta, i + 1);
    }
  }

  /** The passes are too few for the tolerance. */
  predicate TooFewPasses(c: Config) {
    c.maxIterations >= 1 ==> Moves(0.1 * Power(0.7, c.maxIterations - 1), c.c0, c.tolerance)
  }

  /** With too few passes for the tolerance the solver answers with the 0.5 fallback on every physical
      input, and reports that as converged too. */
  lemma {:induction false} SolveExhausts(c: Config, e: Equation)
    requires PhysicalInput(c, e) && TooFewPasses(c)
    ensures Fallback(Solve(c, e), if c.maxIterations < 0 then 0 else c.maxIterations)
  {
    SetupPhysical(c, e);
    if c.maxIterations >= 0 {
      StartExhausts(Setup(c, e), c);
    }
  }

  lemma {:induction false} StartExhausts(p: Problem, c: Config)
    requires Physical(p) && TooFewPasses(c) && c.maxIterations >= 0
    requires p.maxIterations == c.maxIterations && p.c0 == c.c0 && p.tolerance == c.tolerance
    ensures Fallback(Iterate(p, 0.1, 0.1, 0), c.maxIterations)
  {
    if c.maxIterations >= 1 {
      assert TooLargeFor(p, 0.1, c.maxIterations - 1);
    }
    IterateExhausts(p, 0.1, 0.1, 0);
  }

  /** The default tolerance is out of reach of 27 passes, whatever the input. */
  lemma {:induction false} TwentySevenPasses(vdj: real, e: Equation)
    requires PhysicalInput(DEFAULT.(vdj := vdj), e)
    ensures Fallback(Solve(DEFAULT.(vdj := vdj, maxIterations := 27), e), 27)
  {
    TwentySevenAreTooFew(DEFAULT.(vdj := vdj, maxIterations := 27), 26);
    SolveExhausts(DEFAULT.(vdj := vdj, maxIterations := 27), e);
  }

  lemma {:induction false} TwentySevenAreTooFew(c: Config, n: nat)
    requires c.maxIterations == n + 1 && n == 26 && c.c0 == 1.2 && c.tolerance == 0.000001
    ensures TooFewPasses(c)
  {
    TwentySixFalls();
  }

  lemma {:induction false} TwentySixFalls()
    ensures Power(0.7, 26) >= 0.00009
  {
    PowerAdd(0.7, 13, 13);
    PowerAdd(0.7, 6, 7);
    assert Power(0.7, 6) == 0.117649 && Power(0.7, 7) == 0.0823543;
    var w := Power(0.7, 13);
    assert w >= 0.0096;
    MulLeq(0.0096, w, 0.0096);
    MulLeq(0.0096, w, w);
  }

  // ----- the answers of every run

  lemma {:induction false} IterateAnswers(p: Problem, x: real, alpha: real, i: nat)
    requires InUnit(x) && InUnit(alpha)
    ensures var s := Iterate(p, x, alpha, i);
      && s.exit != InvalidInput
      && (s.exit == DenomGuard || s.exit == Exhausted ==> s.x == 0.5 && s.alpha == 0.5)
      && (s.exit == DenomXGuard ==> s.x == 0.5)
    decreases p.maxIterations - i
  {
    if i < p.maxIterations {
      var a := Advance(p, x, alpha);
      if a.Continue? {
        IterateAnswers(p, a.x, a.alpha, i + 1);
      }
    }
  }

  /** On every input whatsoever: a density or a mass flux that is not positive is answered at once, and every
      exit but by tolerance or by the second guard answers with one half for both unknowns. */
  lemma {:induction false} EveryAnswer(c: Config, e: Equation)
    ensures var s := Solve(c, e);
      && (s.exit == InvalidInput <==> e.rhoV <= 0.0 || e.rhoL <= 0.0 || e.massFlux <= 0.0)
      && (s.exit == InvalidInput ==> s.iterations == 0)
      && (s.exit != WithinTolerance && s.exit != DenomXGuard ==> s.x == 0.5 && s.alpha == 0.5)
      && (s.exit == DenomXGuard ==> s.x == 0.5)
  {
    if Usable(e) {
      IterateAnswers(Setup(c, e), 0.1, 0.1, 0);
    }
  }

  lemma {:induction false} FirstPassOf(p: Problem) returns (a: real, q: real)
    requires Physical(p) && p.tolerance > 1.0 && p.maxIterations >= 1
    ensures a * Denom(p, 0.1) == 0.1 && q * Collapsed(p, 0.1) == 0.1 * p.ratio
    ensures Iterate(p, 0.1, 0.1, 0) == Solution(0.07 + 0.3 * q, 0.07 + 0.3 * a, 0, WithinTolerance)
  {
    a, q := Updates(p, 0.1);
    PassIs(p, 0.1, 0.1, 0, a, q);
    assert Settled(p, 0.1, 0.1, q, a);
  }

  /** With a tolerance that the first pass always meets, the answer is seven tenths of the start, 0.1 each,
      and three tenths of the first update. */
  lemma {:induction false} FirstPass(c: Config, e: Equation) returns (a: real, q: real)
    requires PhysicalInput(c, e) && c.tolerance > 1.0 && c.maxIterations >= 1
    ensures var p := Setup(c, e);
      a * Denom(p, 0.1) == 0.1 && q * Collapsed(p, 0.1) == 0.1 * p.ratio
    ensures Solve(c, e) == Solution(0.07 + 0.3 * q, 0.07 + 0.3 * a, 0, WithinTolerance)
  {
    SetupPhysical(c, e);
    a, q := FirstPassOf(Setup(c, e));
  }

  lemma {:induction false} RelaxedNear(v: real, w: real, tol: real)
    requires Abs(w - v) < tol
    ensures Abs(Relaxed(v, w) - v) < 0.3 * tol && Abs(Relaxed(v, w) - w) < 0.7 * tol
  {}

  /** Quality and void fraction of the solution are near z and a. */
  predicate Near(s: Solution, tol: real, z: real, a: real) {
    Abs(s.x - z) < 0.3 * tol && Abs(s.alpha - a) < 0.7 * tol
  }

  predicate OnRelation(p: Problem, z: real, a: real) {
    InUnit(z) && a * Denom(p, z) == z
  }

  lemma {:induction false} SettledNear(p: Problem, x: real, alpha: real, q: real, a: real, i: nat)
    requires Settled(p, x, alpha, q, a)
    ensures Near(Solution(Relaxed(x, q), Relaxed(alpha, a), i, WithinTolerance), p.tolerance, x, a)
  {
    RelaxedNear(x, q, p.tolerance);
    RelaxedNear(alpha, a, p.tolerance);
  }

  /** A tolerance exit is near the drift-flux relation at z. */
  predicate VoidCertified(p: Problem, s: Solution, z: real, a: real) {
    s.exit == WithinTolerance ==> OnRelation(p, z, a) && Near(s, p.tolerance, z, a)
  }

  lemma {:induction false} VoidPass(p: Problem, x: real, alpha: real, i: nat)
    returns (a: real, y: real, beta: real)
    requires Physical(p) && InUnit(x) && InUnit(alpha) && i < p.maxIterations
    ensures InUnit(y) && InUnit(beta)
    ensures VoidCertified(p, Iterate(p, x, alpha, i), x, a) || Iterate(p, x, alpha, i) == Iterate(p, y, beta, i + 1)
  {
    var q;
    a, q := Updates(p, x);
    assert OnRelation(p, x, a);
    y, beta := Relaxed(x, q), Relaxed(alpha, a);
    PassIs(p, x, alpha, i, a, q);
    if Settled(p, x, alpha, q, a) {
      SettledNear(p, x, alpha, q, a, i);
    }
  }

  /** The void fraction of a tolerance exit is within 0.7 tolerances of the drift-flux relation at a quality
      within 0.3 tolerances of the one returned. */
  lemma {:induction false} VoidCertificate(p: Problem, x: real, alpha: real, i: nat) returns (z: real, a: real)
    requires Physical(p) && InUnit(x) && InUnit(alpha)
    ensures VoidCertified(p, Iterate(p, x, alpha, i), z, a)
    decreases p.maxIterations - i
  {
    z, a := x, alpha;
    if i < p.maxIterations {
      var y, beta;
      a, y, beta := VoidPass(p, x, alpha, i);
      if !VoidCertified(p, Iterate(p, x, alpha, i), x, a) {
        z, a := VoidCertificate(p, y, beta, i + 1);
      }
    }
  }

  // ----- what the phase velocities satisfy

  /** For every void fraction, also outside (0,1), the phases carry the mixture's volume flux. */
  lemma {:induction false} VolumeAlwaysBalances(x: real, alpha: real, G: real, rhoL: real, rhoV: real)
    requires rhoL > 0.0 && rhoV > 0.0 && 0.0 <= x <= 1.0
    ensures var (vL, vV, vm) := Velocities(x, alpha, G, rhoL, rhoV);
      alpha * vV + (1.0 - alpha) * vL == vm
  {
    if 0.0 < alpha < 1.0 {
      VelocitiesConserve(x, alpha, G, rhoL, rhoV);
    }
  }

  /** The phases together carry the mass flux and the mixture's volume flux. */
  lemma {:induction false} VelocitiesConserve(x: real, alpha: real, G: real, rhoL: real, rhoV: real)
    requires rhoL > 0.0 && rhoV > 0.0 && 0.0 <= x <= 1.0 && 0.0 < alpha < 1.0
    ensures var (vL, vV, vm) := Velocities(x, alpha, G, rhoL, rhoV);
      && alpha * rhoV * vV + (1.0 - alpha) * rhoL * vL == G
      && alpha * vV + (1.0 - alpha) * vL == vm
  {
    var vL, vV := LiquidVelocity(x, alpha, G, rhoL), VaporVelocity(x, alpha, G, rhoV);
    MassBalance(x, alpha, G, rhoL, rhoV, vL, vV);
    VolumeBalance(x, alpha, G, rhoL, rhoV, vL, vV);
    MixtureVelocityIs(x, G, rhoL, rhoV);
  }

  lemma {:induction false} MassBalance(x: real, alpha: real, G: real, rhoL: real, rhoV: real, vL: real, vV: real)
    requires vV * (alpha * rhoV) == x * G && vL * ((1.0 - alpha) * rhoL) == (1.0 - x) * G
    ensures alpha * rhoV * vV + (1.0 - alpha) * rhoL * vL == G
  {
    assert alpha * rhoV * vV == vV * (alpha * rhoV);
    assert (1.0 - alpha) * rhoL * vL == vL * ((1.0 - alpha) * rhoL);
  }

  lemma {:induction false} VolumeBalance(x: real, alpha: real, G: real, rhoL: real, rhoV: real, vL: real, vV: real)
    requires rhoL > 0.0 && rhoV > 0.0
    requires vV * (alpha * rhoV) == x * G && vL * ((1.0 - alpha) * rhoL) == (1.0 - x) * G
    ensures alpha * vV + (1.0 - alpha) * vL == G * SpecificVolume(x, rhoL, rhoV)
  {
    PhaseVolume(alpha, vV, rhoV, x, G);
    PhaseVolume(1.0 - alpha, vL, rhoL, 1.0 - x, G);
  }

  lemma {:induction false} PhaseVolume(a: real, v: real, rho: real, y: real, G: real)
    requires rho > 0.0 && v * (a * rho) == y * G
    ensures a * v == G * (y / rho)
  {
    var z := y / rho;
    DivideTimes(y, rho);
    assert (a * v) * rho == v * (a * rho);
    assert (G * z) * rho == G * (z * rho);
    CancelEq(a * v, G * z, rho);
  }

  lemma {:induction false} MixtureVelocityIs(x: real, G: real, rhoL: real, rhoV: real)
    requires rhoL > 0.0 && rhoV > 0.0 && 0.0 <= x <= 1.0
    ensures MixtureVelocity(x, G, rhoL, rhoV) == G * SpecificVolume(x, rhoL, rhoV)
  {
    var vm, d, w := MixtureVelocity(x, G, rhoL, rhoV), MixtureDensity(x, rhoL, rhoV), SpecificVolume(x, rhoL, rhoV);
    assert (vm * d) * w == vm * (d * w);
  }

  /** The slip ratio under the square root is the ratio of the phase velocities. */
  lemma {:induction false} SlipIsVelocityRatio(x: real, alpha: real, G: real, rhoL: real, rhoV: real)
    requires rhoL > 0.0 && rhoV > 0.0 && 0.0 < x < 1.0 && 0.0 < alpha < 1.0
    ensures SlipRatio(x, alpha, rhoL, rhoV) * LiquidVelocity(x, alpha, G, rhoL) == VaporVelocity(x, alpha, G, rhoV)
  {
    var vL, vV := LiquidVelocity(x, alpha, G, rhoL), VaporVelocity(x, alpha, G, rhoV);
    var p, q, r := x / alpha, (1.0 - alpha) / (1.0 - x), rhoL / rhoV;
    DivideTimes(x, alpha);
    DivideTimes(1.0 - alpha, 1.0 - x);
    DivideTimes(rhoL, rhoV);
    SlipArithmetic(x, alpha, G, rhoL, rhoV, vL, vV, p, q, r);
  }

  lemma {:induction false} SlipRatioPositive(x: real, alpha: real, rhoL: real, rhoV: real)
    requires rhoL > 0.0 && rhoV > 0.0 && 0.0 < x < 1.0 && 0.0 < alpha < 1.0
    ensures SlipRatio(x, alpha, rhoL, rhoV) > 0.0
  {
    QuotientPos(x, alpha);
    QuotientPos(1.0 - alpha, 1.0 - x);
    QuotientPos(rhoL, rhoV);
    MulPos(x / alpha, (1.0 - alpha) / (1.0 - x));
    MulPos((x / alpha) * ((1.0 - alpha) / (1.0 - x)), rhoL / rhoV);
  }

  /** Between the pure phases, slip velocity and drift velocity are to each other as the roots of
      the phase velocities: slip^2 vL = vdj^2 vV. At a pure phase there is no slip. */
  lemma {:induction false} SlipVelocityLaw(sqrt: real -> real, vdj: real, x: real, alpha: real, G: real,
                                           rhoL: real, rhoV: real)
    requires rhoL > 0.0 && rhoV > 0.0
    requires forall y: real :: y >= 0.0 ==> sqrt(y) * sqrt(y) == y
    ensures var s := SlipVelocity(sqrt, vdj, x, alpha, rhoL, rhoV);
      if 0.0 < x < 1.0 && 0.0 < alpha < 1.0
      then s * s * LiquidVelocity(x, alpha, G, rhoL) == vdj * vdj * VaporVelocity(x, alpha, G, rhoV)
      else s == 0.0
  {
    if 0.0 < x < 1.0 && 0.0 < alpha < 1.0 {
      SlipIsVelocityRatio(x, alpha, G, rhoL, rhoV);
      SlipRatioPositive(x, alpha, rhoL, rhoV);
      var S := SlipRatio(x, alpha, rhoL, rhoV);
      SquareOut(sqrt(S), vdj, S, LiquidVelocity(x, alpha, G, rhoL), VaporVelocity(x, alpha, G, rhoV));
    }
  }

  lemma {:induction false} SquareOut(r: real, d: real, s: real, vL: real, vV: real)
    requires r * r == s && s * vL == vV
    ensures (r * d) * (r * d) * vL == d * d * vV
  {
    assert (r * d) * (r * d) == (r * r) * (d * d);
    assert (s * (d * d)) * vL == (d * d) * (s * vL);
  }

  lemma {:induction false} SlipArithmetic(x: real, alpha: real, G: real, rhoL: real, rhoV: real, vL: real, vV: real,
                                          p: real, q: real, r: real)
    requires rhoL > 0.0 && rhoV > 0.0 && 0.0 < x < 1.0 && 0.0 < alpha < 1.0
    requires vV * (alpha * rhoV) == x * G && vL * ((1.0 - alpha) * rhoL) == (1.0 - x) * G
    requires p * alpha == x && q * (1.0 - x) == 1.0 - alpha && r * rhoV == rhoL
    ensures p * q * r * vL == vV
  {
    var y, t, s := 1.0 - x, alpha * rhoV, p * q * r * vL;
    var left := (s * t) * y;
    assert left == x * (y * G) by {
      assert left == (p * alpha) * (q * y) * (r * rhoV) * vL;
      assert left == x * (1.0 - alpha) * rhoL * vL;
      assert left == x * (vL * ((1.0 - alpha) * rhoL));
    }
    assert (vV * t) * y == x * (y * G) by {
      assert (x * G) * y == x * (y * G);
    }
    MulPos(alpha, rhoV);
    CancelTwice(s, vV, t, y);
  }

  lemma {:induction false} CancelTwice(a: real, b: real, t: real, y: real)
    requires t > 0.0 && y > 0.0 && (a * t) * y == (b * t) * y
    ensures a == b
  {
    CancelEq(a * t, b * t, y);
    CancelEq(a, b, t);
  }

  lemma {:induction false} VaporVolume(x: real, rhoL: real, rhoV: real)
    requires rhoL > 0.0 && rhoV > 0.0
    ensures SpecificVolume(x, rhoL, rhoV) * rhoV == x + rhoV / rhoL * (1.0 - x)
  {
    var s, t, r := x / rhoV, (1.0 - x) / rhoL, rhoV / rhoL;
    DivideTimes(x, rhoV);
    DivideTimes(1.0 - x, rhoL);
    DivideTimes(rhoV, rhoL);
    assert t * (r * rhoL) == r * (t * rhoL);
    assert (s + t) * rhoV == s * rhoV + t * rhoV;
  }

  lemma {:induction false} DriftTimesFlux(c: Config, e: Equation)
    requires Usable(e)
    ensures Setup(c, e).drift * e.massFlux == e.rhoV * c.vdj
  {
    DivideTimes(e.rhoV * c.vdj, e.massFlux);
  }

  /** A quotient strictly inside the clamp is exact. */
  lemma {:induction false} InsideClamp(num: real, den: real, a: real)
    requires Guarded(num, den) == Some(a) && 0.0 < a < 1.0
    ensures a * den == num
  {
    DivideTimes(num, den);
  }

  /** The unrelaxed void fraction the loop computes, when neither guarded nor clamped, satisfies the
      drift-flux law: vV = C0 vm + Vdj. */
  lemma {:induction false} DriftFluxLaw(c: Config, e: Equation, x: real, a: real)
    requires Usable(e) && 0.0 <= x <= 1.0 && 0.0 < a < 1.0
    requires NextAlpha(Setup(c, e), x) == Some(a)
    ensures VaporVelocity(x, a, e.massFlux, e.rhoV)
         == c.c0 * MixtureVelocity(x, e.massFlux, e.rhoL, e.rhoV) + c.vdj
  {
    var p, w := Setup(c, e), SpecificVolume(x, e.rhoL, e.rhoV);
    InsideClamp(x, Denom(p, x), a);
    MixtureVelocityIs(x, e.massFlux, e.rhoL, e.rhoV);
    VaporVolume(x, e.rhoL, e.rhoV);
    DriftTimesFlux(c, e);
    LawArithmetic(c.c0, c.vdj, e.massFlux, e.rhoV, x, a, w, p.ratio, p.drift,
                  VaporVelocity(x, a, e.massFlux, e.rhoV));
  }

  lemma {:induction false} LawArithmetic(c: real, vdj: real, G: real, rhoV: real, x: real, a: real, w: real, r: real,
                                         k: real, vV: real)
    requires a > 0.0 && rhoV > 0.0
    requires w * rhoV == x + r * (1.0 - x) && k * G == rhoV * vdj
    requires a * (c * (x + r * (1.0 - x)) + k) == x && vV * (a * rhoV) == x * G
    ensures vV == c * (G * w) + vdj
  {
    var u, v := w * rhoV, c * (G * w) + vdj;
    var d := c * u + k;
    assert a * d == x;
    assert v * rhoV == c * (G * u) + rhoV * vdj;
    assert d * G == c * (u * G) + k * G;
    assert v * (a * rhoV) == a * (v * rhoV);
    assert a * (d * G) == (a * d) * G;
    MulPos(a, rhoV);
    CancelEq(vV, v, a * rhoV);
  }
}
