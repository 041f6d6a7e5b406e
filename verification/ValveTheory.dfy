/** What fixes the two flow formulas of the valve: they agree where the flow chokes. */
module ValveTheory {
  import opened Reals
  import opened Valve

  predicate PowersMultiply(m: MathLib, b: real, x: real, y: real) {
    m.pow(b, x) * m.pow(b, y) == m.pow(b, x + y)
  }

  predicate PowersCompose(m: MathLib, b: real, x: real, y: real) {
    m.pow(m.pow(b, x), y) == m.pow(b, x * y)
  }

  predicate FirstPower(m: MathLib, b: real) {
    m.pow(b, 1.0) == b
  }

  predicate UnitPower(m: MathLib, e: real) {
    m.pow(1.0, e) == 1.0
  }

  predicate PowerBelowOne(m: MathLib, b: real, e: real) {
    m.pow(b, e) < 1.0
  }

  predicate RootSquares(m: MathLib, y: real) {
    m.sqrt(y) * m.sqrt(y) == y
  }

  /** The laws of powers of positive numbers and of square roots. */
  ghost predicate Lawful(m: MathLib) {
    && Sound(m)
    && (forall b, x, y :: b > 0.0 ==> PowersMultiply(m, b, x, y))
    && (forall b, x, y :: b > 0.0 ==> PowersCompose(m, b, x, y))
    && (forall b :: b > 0.0 ==> FirstPower(m, b))
    && (forall e :: UnitPower(m, e))
    && (forall b, e :: 0.0 < b < 1.0 && e > 0.0 ==> PowerBelowOne(m, b, e))
    && (forall y :: y >= 0.0 ==> RootSquares(m, y))
  }

  /** Density from the ideal-gas law, as the controller computes it. */
  predicate IdealGas(s: Sides) {
    s.rho * (461.5 * s.t) == s.p
  }

  lemma {:induction false} Squares(a: real, b: real)
    requires a >= 0.0 && b >= 0.0 && a * a == b * b
    ensures a == b
  {
    assert (a - b) * (a + b) == a * a - b * b;
    if a + b > 0.0 {
      CancelEq(a - b, 0.0, a + b);
    }
  }

  // ----- the exponents

  function Base(gamma: real): (b: real)
    requires gamma > 1.0
  {
    2.0 / (gamma + 1.0)
  }

  lemma {:induction false} BaseBounds(gamma: real)
    requires gamma > 1.0
    ensures 0.0 < Base(gamma) < 1.0 && Base(gamma) * (gamma + 1.0) == 2.0
  {
    var b := Base(gamma);
    QuotientPos(2.0, gamma + 1.0);
    DivideTimes(2.0, gamma + 1.0);
    if b >= 1.0 {
      MulLeq(1.0, b, gamma + 1.0);
    }
  }

  /** g/(g-1) times (g-1)/g is 1. */
  lemma {:induction false} CriticalExponent(gamma: real)
    requires gamma > 1.0
    ensures (gamma / (gamma - 1.0)) * ((gamma - 1.0) / gamma) == 1.0
  {
    var u, v := gamma / (gamma - 1.0), (gamma - 1.0) / gamma;
    DivideTimes(gamma, gamma - 1.0);
    DivideTimes(gamma - 1.0, gamma);
    assert (u * v) * gamma == u * (v * gamma);
    CancelEq(u * v, 1.0, gamma);
  }

  /** g/(g-1) times 1/g is 1/(g-1). */
  lemma {:induction false} DensityExponent(gamma: real)
    requires gamma > 1.0
    ensures (gamma / (gamma - 1.0)) * (1.0 / gamma) == 1.0 / (gamma - 1.0)
  {
    var u, v, w := gamma / (gamma - 1.0), 1.0 / gamma, 1.0 / (gamma - 1.0);
    DivideTimes(gamma, gamma - 1.0);
    DivideTimes(1.0, gamma);
    DivideTimes(1.0, gamma - 1.0);
    assert (u * v) * (gamma - 1.0) == (u * (gamma - 1.0)) * v;
    assert gamma * v == v * gamma;
    CancelEq(u * v, w, gamma - 1.0);
  }

  /** (g+1)/(2(g-1)) is 1/(g-1) + 1/2. */
  lemma {:induction false} ChokedExponent(gamma: real)
    requires gamma > 1.0
    ensures (gamma + 1.0) / (2.0 * (gamma - 1.0)) == 1.0 / (gamma - 1.0) + 0.5
  {
    var w, d := 1.0 / (gamma - 1.0), 2.0 * (gamma - 1.0);
    DivideTimes(1.0, gamma - 1.0);
    assert (w + 0.5) * d == 2.0 * (w * (gamma - 1.0)) + (gamma - 1.0);
    QuotientIs(gamma + 1.0, d, w + 0.5);
  }

  // ----- the critical state

  lemma {:induction false} PowerOfPower(m: MathLib, b: real, e: real, y: real, z: real)
    requires PowersCompose(m, b, e, y) && e * y == z
    ensures m.pow(m.pow(b, e), y) == m.pow(b, z)
  {}

  /** At the critical ratio the temperature ratio is 2/(g+1). */
  lemma {:induction false} CriticalTemperature(m: MathLib, gamma: real)
    requires Lawful(m) && gamma > 1.0
    ensures m.pow(CriticalRatio(m, gamma), (gamma - 1.0) / gamma) == Base(gamma)
  {
    var b, e, y := Base(gamma), gamma / (gamma - 1.0), (gamma - 1.0) / gamma;
    BaseBounds(gamma);
    CriticalExponent(gamma);
    assert PowersCompose(m, b, e, y) && FirstPower(m, b);
    PowerOfPower(m, b, e, y, 1.0);
  }

  /** And the density ratio is its 1/(g-1)-th power. */
  lemma {:induction false} CriticalDensityRatio(m: MathLib, gamma: real)
    requires Lawful(m) && gamma > 1.0
    ensures m.pow(CriticalRatio(m, gamma), 1.0 / gamma) == m.pow(Base(gamma), 1.0 / (gamma - 1.0))
  {
    var b, e, y := Base(gamma), gamma / (gamma - 1.0), 1.0 / gamma;
    BaseBounds(gamma);
    DensityExponent(gamma);
    assert PowersCompose(m, b, e, y);
    PowerOfPower(m, b, e, y, 1.0 / (gamma - 1.0));
  }

  lemma {:induction false} CriticalBelowOne(m: MathLib, gamma: real)
    requires Lawful(m) && gamma > 1.0
    ensures 0.0 < CriticalRatio(m, gamma) < 1.0
  {
    BaseBounds(gamma);
    QuotientPos(gamma, gamma - 1.0);
    assert PowerBelowOne(m, Base(gamma), gamma / (gamma - 1.0));
  }

  /** The square of the subsonic velocity at the critical ratio: g R T 2/(g+1). */
  lemma {:induction false} CriticalSquare(gamma: real, t: real, b: real)
    requires gamma > 1.0 && b * (gamma + 1.0) == 2.0
    ensures VelocitySquare(gamma, t, b) == (gamma * (R_GAS * t)) * b
  {
    var q := 2.0 * gamma / (gamma - 1.0);
    DivideTimes(2.0 * gamma, gamma - 1.0);
    var z := R_GAS * t;
    assert q * R_GAS * t * (1.0 - b) == (q * (1.0 - b)) * z;
    assert (1.0 - b) * (gamma + 1.0) == gamma - 1.0;
    assert (q * (1.0 - b)) * (gamma + 1.0) == q * (gamma - 1.0);
    assert (gamma * b) * (gamma + 1.0) == 2.0 * gamma by {
      assert (gamma * b) * (gamma + 1.0) == gamma * (b * (gamma + 1.0));
    }
    CancelEq(q * (1.0 - b), gamma * b, gamma + 1.0);
    assert (gamma * z) * b == (gamma * b) * z;
  }

  /** The square of the choked velocity factor R T sqrt(g/(R T)) sqrt(b) is g R T b. */
  lemma {:induction false} ChokedSquare(z: real, gamma: real, b: real, v: real, h: real)
    requires z > 0.0 && v * v == gamma / z && h * h == b
    ensures (z * v * h) * (z * v * h) == (gamma * z) * b
  {
    DivideTimes(gamma, z);
    var q := gamma / z;
    assert (z * v * h) * (z * v * h) == (z * z) * ((v * v) * (h * h));
    assert (z * z) * (q * b) == ((q * z) * z) * b;
  }

  lemma {:induction false} RootOf(m: MathLib, y: real, x: real)
    requires Sound(m) && RootSquares(m, y) && y >= 0.0 && y == x
    ensures m.sqrt(y) >= 0.0 && m.sqrt(y) * m.sqrt(y) == x
  {}

  lemma {:induction false} SubsonicSquare(m: MathLib, gamma: real, t: real)
    requires Lawful(m) && gamma > 1.0 && t > 0.0
    ensures var u := SubsonicVelocity(m, gamma, t, CriticalRatio(m, gamma));
      u >= 0.0 && u * u == (gamma * (R_GAS * t)) * Base(gamma)
  {
    var b, z := Base(gamma), R_GAS * t;
    BaseBounds(gamma);
    CriticalTemperature(m, gamma);
    CriticalSquare(gamma, t, b);
    MulPos(gamma, z);
    MulPos(gamma * z, b);
    assert RootSquares(m, VelocitySquare(gamma, t, b));
    RootOf(m, VelocitySquare(gamma, t, b), (gamma * z) * b);
  }

  function ChokedVelocity(m: MathLib, gamma: real, t: real): (v: real)
    requires gamma > 1.0 && t > 0.0
  {
    (R_GAS * t) * m.sqrt(gamma / (R_GAS * t)) * m.pow(Base(gamma), 0.5)
  }

  lemma {:induction false} ChokedVelocitySquare(m: MathLib, gamma: real, t: real)
    requires Lawful(m) && gamma > 1.0 && t > 0.0
    ensures var w := ChokedVelocity(m, gamma, t); w >= 0.0 && w * w == (gamma * (R_GAS * t)) * Base(gamma)
  {
    var b, z := Base(gamma), R_GAS * t;
    var v, h := m.sqrt(gamma / z), m.pow(b, 0.5);
    BaseBounds(gamma);
    QuotientPos(gamma, z);
    assert RootSquares(m, gamma / z);
    assert PowersMultiply(m, b, 0.5, 0.5) && FirstPower(m, b);
    ChokedSquare(z, gamma, b, v, h);
    MulPos(z, v);
    MulPos(z * v, h);
  }

  /** The velocity of both formulas at the critical ratio. */
  lemma {:induction false} VelocitiesMeet(m: MathLib, gamma: real, t: real)
    requires Lawful(m) && gamma > 1.0 && t > 0.0
    ensures SubsonicVelocity(m, gamma, t, CriticalRatio(m, gamma)) == ChokedVelocity(m, gamma, t)
  {
    SubsonicSquare(m, gamma, t);
    ChokedVelocitySquare(m, gamma, t);
    Squares(SubsonicVelocity(m, gamma, t, CriticalRatio(m, gamma)), ChokedVelocity(m, gamma, t));
  }

  lemma {:induction false} FluxProduct(p: real, rho: real, z: real, v: real, d: real, h: real, k: real)
    requires rho * z == p && k == d * h
    ensures (rho * d) * (z * v * h) == p * v * k
  {
    assert (rho * d) * (z * v * h) == (rho * z) * v * (d * h);
  }

  lemma {:induction false} ChokedPower(m: MathLib, gamma: real)
    requires Lawful(m) && gamma > 1.0
    ensures m.pow(2.0 / (gamma + 1.0), (gamma + 1.0) / (2.0 * (gamma - 1.0)))
         == m.pow(Base(gamma), 1.0 / (gamma - 1.0)) * m.pow(Base(gamma), 0.5)
  {
    BaseBounds(gamma);
    ChokedExponent(gamma);
    assert PowersMultiply(m, Base(gamma), 1.0 / (gamma - 1.0), 0.5);
  }

  lemma {:induction false} CriticalDensity(m: MathLib, gamma: real, rho: real)
    requires Lawful(m) && gamma > 1.0 && rho > 0.0
    ensures ExitDensity(m, gamma, rho, CriticalRatio(m, gamma)) == rho * m.pow(Base(gamma), 1.0 / (gamma - 1.0))
  {
    BaseBounds(gamma);
    CriticalDensityRatio(m, gamma);
    MulPos(rho, m.pow(Base(gamma), 1.0 / (gamma - 1.0)));
  }

  lemma {:induction false} MeetArithmetic(m: MathLib, gamma: real, s: Sides, d: real, h: real, k: real)
    requires gamma > 1.0 && Flowing(s) && IdealGas(s)
    requires ExitDensity(m, gamma, s.rho, CriticalRatio(m, gamma)) == s.rho * d
    requires SubsonicVelocity(m, gamma, s.t, CriticalRatio(m, gamma)) == ChokedVelocity(m, gamma, s.t)
    requires m.pow(Base(gamma), 0.5) == h && k == d * h
    requires m.pow(2.0 / (gamma + 1.0), (gamma + 1.0) / (2.0 * (gamma - 1.0))) == k
    ensures SubsonicFlux(m, gamma, s, CriticalRatio(m, gamma)) == ChokedFlux(m, gamma, s)
  {
    var z := R_GAS * s.t;
    assert z == 461.5 * s.t;
    var v := m.sqrt(gamma / z);
    FluxProduct(s.p, s.rho, z, v, d, h, k);
    assert ChokedVelocity(m, gamma, s.t) == z * v * h;
    assert ChokedFlux(m, gamma, s) == s.p * v * k;
  }

  /** Where the flow chokes, the subsonic and the choked mass flux agree. */
  lemma {:induction false} FluxesMeet(m: MathLib, gamma: real, s: Sides)
    requires Lawful(m) && gamma > 1.0 && Flowing(s) && IdealGas(s)
    ensures SubsonicFlux(m, gamma, s, CriticalRatio(m, gamma)) == ChokedFlux(m, gamma, s)
  {
    VelocitiesMeet(m, gamma, s.t);
    CriticalDensity(m, gamma, s.rho);
    ChokedPower(m, gamma);
    MeetArithmetic(m, gamma, s, m.pow(Base(gamma), 1.0 / (gamma - 1.0)), m.pow(Base(gamma), 0.5),
                   m.pow(2.0 / (gamma + 1.0), (gamma + 1.0) / (2.0 * (gamma - 1.0))));
  }

  // ----- what the flow depends on

  /** Nothing flows against the pressure: without a pressure drop the mass flow and the velocity are zero. */
  lemma {:induction false} NoDropNoFlow(m: MathLib, c: Config, s: Sides, opening: real)
    requires Lawful(m) && Usable(c) && Flowing(s) && s.downstream >= s.p
    ensures var f := SolveChokeFlow(m, c, s, opening); f.massFlow == 0.0 && f.velocity == 0.0 && f.state.Subsonic?
  {
    DivideTimes(s.downstream, s.p);
    CancelLeq(1.0, s.downstream / s.p, s.p);
    CriticalBelowOne(m, c.gamma);
    StillVelocity(m, c.gamma, s.t);
  }

  lemma {:induction false} StillVelocity(m: MathLib, gamma: real, t: real)
    requires Lawful(m) && gamma > 1.0
    ensures SubsonicVelocity(m, gamma, t, 1.0) == 0.0
  {
    assert UnitPower(m, (gamma - 1.0) / gamma) && RootSquares(m, 0.0);
    var v := m.sqrt(0.0);
    Squares(v, 0.0);
  }

  lemma {:induction false} ClampAtMost(r: real, k: real)
    requires 0.0 < k < 1.0
    ensures Clamp(r, 0.0, 1.0) <= k <==> r <= k
  {}

  lemma {:induction false} TimesAtMost(r: real, p: real, k: real, downstream: real)
    requires p > 0.0 && r * p == downstream
    ensures r <= k <==> downstream <= k * p
  {
    if r <= k {
      MulLeq(r, k, p);
    } else {
      MulLess(k, r, p);
    }
  }

  lemma {:induction false} RatioAtMost(downstream: real, p: real, k: real)
    requires p > 0.0
    ensures downstream / p <= k <==> downstream <= k * p
  {
    DivideTimes(downstream, p);
    TimesAtMost(downstream / p, p, k, downstream);
  }

  lemma {:induction false} ChokedIs(m: MathLib, c: Config, s: Sides, opening: real)
    requires Sound(m) && Usable(c) && Flowing(s)
    ensures SolveChokeFlow(m, c, s, opening).state.Choked?
       <==> Clamp(s.downstream / s.p, 0.0, 1.0) <= CriticalRatio(m, c.gamma)
  {}

  /** The flow chokes exactly when there is gas to flow and the downstream pressure is at most the critical
      share of the upstream one. */
  lemma {:induction false} ChokesIff(m: MathLib, c: Config, s: Sides, opening: real)
    requires Lawful(m) && Usable(c)
    ensures SolveChokeFlow(m, c, s, opening).state.Choked?
       <==> s.p > 0.0 && s.t > 0.0 && s.rho > 0.0 && s.downstream <= CriticalRatio(m, c.gamma) * s.p
  {
    if Flowing(s) {
      CriticalBelowOne(m, c.gamma);
      ChokedIs(m, c, s, opening);
      ClampAtMost(s.downstream / s.p, CriticalRatio(m, c.gamma));
      RatioAtMost(s.downstream, s.p, CriticalRatio(m, c.gamma));
    }
  }

  /** The speed of sound squared is g R T. */
  predicate IsSoundSpeed(a: real, gamma: real, t: real) {
    a > 0.0 && a * a == gamma * 461.5 * t
  }

  predicate MachGives(f: Flow, velocity: real) {
    f.machNumber * f.sonicVelocity == velocity
  }

  lemma {:induction false} SonicSquare(m: MathLib, t: real, gamma: real)
    requires Lawful(m) && gamma > 1.0 && t > 0.0
    ensures IsSoundSpeed(SonicVelocity(m, t, gamma), gamma, t)
  {
    SonicPositive(m, t, gamma);
    MulPos(gamma, R_GAS);
    MulPos(gamma * R_GAS, t);
    assert RootSquares(m, gamma * R_GAS * t);
  }

  lemma {:induction false} MachTimesSonic(m: MathLib, c: Config, s: Sides, opening: real)
    requires Sound(m) && Usable(c) && Flowing(s)
    ensures var f := SolveChokeFlow(m, c, s, opening);
      MachGives(f, f.velocity) && f.sonicVelocity == SonicVelocity(m, s.t, c.gamma)
  {
    SonicPositive(m, s.t, c.gamma);
    var f := SolveChokeFlow(m, c, s, opening);
    if f.state.Subsonic? {
      DivideTimes(f.velocity, f.sonicVelocity);
    }
  }

  /** The Mach number is the velocity over the speed of sound. */
  lemma {:induction false} MachIsRatio(m: MathLib, c: Config, s: Sides, opening: real)
    requires Lawful(m) && Usable(c) && Flowing(s)
    ensures var f := SolveChokeFlow(m, c, s, opening);
      MachGives(f, f.velocity) && IsSoundSpeed(f.sonicVelocity, c.gamma, s.t)
  {
    SonicSquare(m, s.t, c.gamma);
    MachTimesSonic(m, c, s, opening);
  }

  lemma {:induction false} RatioCut(downstream: real, p: real)
    requires p > 0.0
    ensures Clamp(downstream / p, 0.0, 1.0) * p == Clamp(downstream, 0.0, p)
  {
    var r := downstream / p;
    DivideTimes(downstream, p);
    if r < 0.0 {
      MulLess(r, 0.0, p);
    } else if r > 1.0 {
      MulLess(1.0, r, p);
    } else {
      MulLeq(0.0, r, p);
      MulLeq(r, 1.0, p);
    }
  }

  /** What a solved flow reports beside the mass flow: the ratio of the downstream pressure, cut to lie
      between zero and the upstream one, the opening cut to at least a thousandth, the density it was
      given, and Mach number 1 in choked flow. Without gas there is no flow and no state. */
  lemma {:induction false} FlowReports(m: MathLib, c: Config, s: Sides, opening: real)
    requires Sound(m) && Usable(c)
    ensures var f := SolveChokeFlow(m, c, s, opening);
      && f.upstreamRho == s.rho
      && if Flowing(s)
         then f.pressureRatio * s.p == Clamp(s.downstream, 0.0, s.p)
              && f.valveOpening == Clamp(opening, 0.001, 1.0)
              && (f.state.Choked? ==> f.machNumber == 1.0)
              && (!f.state.Choked? ==> f.state.Subsonic?
                                       && f.velocity == SubsonicVelocity(m, c.gamma, s.t, f.pressureRatio))
         else f.state.Unknown? && f.massFlow == 0.0 && f.velocity == 0.0
  {
    if Flowing(s) {
      RatioCut(s.downstream, s.p);
    }
  }

  /** The opening solve asks for a fully open valve exactly when nothing positive is asked for, there is
      nothing to pass it, or the target is at least what the fully open valve passes. */
  lemma {:induction false} WideOpenIff(m: MathLib, c: Config, s: Sides, target: real)
    requires Sound(m) && Usable(c)
    ensures RequiredOpening(m, c, s, target) == 1.0
       <==> target <= 0.0 || !Flowing(s) || OpeningFlux(m, c, s) <= 0.0 || target >= FullFlow(m, c, s)
  {
    if target > 0.0 && Flowing(s) && OpeningFlux(m, c, s) > 0.0 {
      var flux := OpeningFlux(m, c, s);
      FlowIsFluxTimesArea(m, c, s, 1.0);
      OpensFully(c, flux, RawOpening(c, flux, target));
    }
  }

  lemma {:induction false} OpensFully(c: Config, flux: real, raw: real)
    requires Usable(c) && flux > 0.0
    ensures raw >= 1.0 <==> Through(c, flux, raw) >= Through(c, flux, 1.0)
  {
    var unit := flux * c.cd * c.maxArea;
    MulPos(flux, c.cd);
    MulPos(flux * c.cd, c.maxArea);
    ThroughIs(c, flux, 1.0, unit);
    ThroughIs(c, flux, raw, unit);
    if raw >= 1.0 {
      MulLeq(1.0, raw, unit);
    } else {
      MulLess(raw, 1.0, unit);
    }
  }

  /** The mass flow is the flux through the effective area. */
  predicate Carries(f: Flow, flux: real) {
    f.massFlow == flux * f.effectiveArea
  }

  lemma {:induction false} ThroughCarries(c: Config, f: Flow, flux: real, opening: real)
    requires f.massFlow == Through(c, flux, opening) && f.effectiveArea == c.maxArea * opening * c.cd
    ensures Carries(f, flux)
  {}

  lemma {:induction false} FlowAt(m: MathLib, c: Config, s: Sides, opening: real)
    requires Sound(m) && Usable(c) && Flowing(s)
    ensures var f, o := SolveChokeFlow(m, c, s, opening), Clamp(opening, 0.001, 1.0);
      && f.effectiveArea == c.maxArea * o * c.cd && f.criticalRatio == CriticalRatio(m, c.gamma)
      && (f.state.Choked? ==> f.massFlow == Through(c, ChokedFlux(m, c.gamma, s), o))
      && (!f.state.Choked? ==> f.massFlow == Through(c, SubsonicFlux(m, c.gamma, s, f.pressureRatio), o))
  {}

  /** Choked flow does not feel the downstream pressure. */
  lemma {:induction false} ChokedIgnoresDownstream(m: MathLib, c: Config, s: Sides, downstream: real, opening: real)
    requires Sound(m) && Usable(c)
    requires SolveChokeFlow(m, c, s, opening).state.Choked?
    requires SolveChokeFlow(m, c, s.(downstream := downstream), opening).state.Choked?
    ensures SolveChokeFlow(m, c, s.(downstream := downstream), opening).massFlow
         == SolveChokeFlow(m, c, s, opening).massFlow
  {
    FlowAt(m, c, s, opening);
    FlowAt(m, c, s.(downstream := downstream), opening);
  }

  /** In both regimes the mass flow is the subsonic flux times the effective area, the flux taken where the
      gas leaves: at the downstream pressure, or at the critical one if the flow chokes. */
  lemma {:induction false} FlowIsExitFlux(m: MathLib, c: Config, s: Sides, opening: real)
    requires Lawful(m) && Usable(c) && Flowing(s) && IdealGas(s)
    ensures var f := SolveChokeFlow(m, c, s, opening);
      && f.effectiveArea == c.maxArea * Clamp(opening, 0.001, 1.0) * c.cd
      && Carries(f, SubsonicFlux(m, c.gamma, s, if f.state.Choked? then f.criticalRatio else f.pressureRatio))
  {
    FlowAt(m, c, s, opening);
    var f, o := SolveChokeFlow(m, c, s, opening), Clamp(opening, 0.001, 1.0);
    if f.state.Choked? {
      FluxesMeet(m, c.gamma, s);
      ThroughCarries(c, f, ChokedFlux(m, c.gamma, s), o);
    } else {
      ThroughCarries(c, f, SubsonicFlux(m, c.gamma, s, f.pressureRatio), o);
    }
  }

  // ----- when anything flows

  lemma {:induction false} ExpandingVelocity(m: MathLib, gamma: real, t: real, ratio: real)
    requires Lawful(m) && gamma > 1.0 && t > 0.0 && 0.0 < ratio < 1.0
    ensures SubsonicVelocity(m, gamma, t, ratio) > 0.0
  {
    var e := (gamma - 1.0) / gamma;
    QuotientPos(gamma - 1.0, gamma);
    assert PowerBelowOne(m, ratio, e);
    SquarePositive(gamma, t, m.pow(ratio, e));
  }

  lemma {:induction false} SquarePositive(gamma: real, t: real, share: real)
    requires gamma > 1.0 && t > 0.0 && share < 1.0
    ensures VelocitySquare(gamma, t, share) > 0.0
  {
    var q := 2.0 * gamma / (gamma - 1.0);
    QuotientPos(2.0 * gamma, gamma - 1.0);
    MulPos(q * R_GAS, t);
    MulPos(q * R_GAS * t, 1.0 - share);
  }

  lemma {:induction false} ExpandingFlux(m: MathLib, gamma: real, s: Sides, ratio: real)
    requires Lawful(m) && gamma > 1.0 && Flowing(s) && 0.0 < ratio < 1.0
    ensures SubsonicFlux(m, gamma, s, ratio) > 0.0
  {
    ExpandingVelocity(m, gamma, s.t, ratio);
    MulPos(s.rho, m.pow(ratio, 1.0 / gamma));
    MulPos(ExitDensity(m, gamma, s.rho, ratio), SubsonicVelocity(m, gamma, s.t, ratio));
  }

  lemma {:induction false} ChokedFluxPositive(m: MathLib, gamma: real, s: Sides)
    requires Sound(m) && gamma > 1.0 && Flowing(s)
    ensures ChokedFlux(m, gamma, s) > 0.0
  {
    QuotientPos(gamma, R_GAS * s.t);
    QuotientPos(2.0, gamma + 1.0);
    var v, k := m.sqrt(gamma / (R_GAS * s.t)), m.pow(2.0 / (gamma + 1.0), (gamma + 1.0) / (2.0 * (gamma - 1.0)));
    MulPos(s.p, v);
    MulPos(s.p * v, k);
  }

  lemma {:induction false} RatioAtLeastOne(downstream: real, p: real)
    requires p > 0.0
    ensures downstream / p >= 1.0 <==> downstream >= p
  {
    DivideTimes(downstream, p);
    TimesAtLeastOne(downstream / p, p, downstream);
  }

  lemma {:induction false} TimesAtLeastOne(r: real, p: real, downstream: real)
    requires p > 0.0 && r * p == downstream
    ensures r >= 1.0 <==> downstream >= p
  {
    if r >= 1.0 {
      MulLeq(1.0, r, p);
    } else {
      MulLess(r, 1.0, p);
    }
  }

  /** The opening solve finds a positive flux exactly when the pressure falls across the valve. */
  lemma {:induction false} FluxPositiveIff(m: MathLib, c: Config, s: Sides)
    requires Lawful(m) && Usable(c) && Flowing(s)
    ensures OpeningFlux(m, c, s) > 0.0 <==> s.downstream < s.p
  {
    var ratio := s.downstream / s.p;
    RatioAtLeastOne(s.downstream, s.p);
    CriticalBelowOne(m, c.gamma);
    if ratio <= CriticalRatio(m, c.gamma) {
      ChokedFluxPositive(m, c.gamma, s);
    } else if ratio < 1.0 {
      ExpandingFlux(m, c.gamma, s, ratio);
    } else {
      StillVelocity(m, c.gamma, s.t);
    }
  }
}
