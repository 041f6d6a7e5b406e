/** Compressible flow through the choke valve, and the opening that yields a given flow. */
module Valve {
  import opened Reals

  const R_GAS: real := 461.5
  const MIN_OPENING: real := 0.001
  const MAX_OPENING: real := 1.0

  /** The library functions the valve equations use. */
  datatype MathLib = MathLib(pow: (real, real) -> real, sqrt: real -> real)

  /** The sign and order facts relied on. */
  ghost predicate Sound(m: MathLib) {
    && (forall b, e :: b > 0.0 ==> m.pow(b, e) > 0.0)
    && (forall b, e :: 0.0 < b <= 1.0 && e >= 0.0 ==> m.pow(b, e) <= 1.0)
    && (forall y :: y >= 0.0 ==> m.sqrt(y) >= 0.0)
    && (forall y :: y > 0.0 ==> m.sqrt(y) > 0.0)
  }

  datatype Config = Config(cd: real, maxArea: real, gamma: real)

  predicate Usable(c: Config) {
    c.gamma > 1.0 && c.cd > 0.0 && c.maxArea > 0.0
  }

  datatype FlowState = Subsonic | Choked | Unknown

  datatype Flow = Flow(massFlow: real, velocity: real, state: FlowState, pressureRatio: real,
                       criticalRatio: real, valveOpening: real, effectiveArea: real,
                       upstreamRho: real, sonicVelocity: real, machNumber: real)

  /** Conditions on the two sides of the valve. */
  datatype Sides = Sides(p: real, t: real, rho: real, downstream: real)

  predicate Flowing(s: Sides) {
    !(s.p <= 0.0 || s.t <= 0.0 || s.rho <= 0.0)
  }

  function CriticalRatio(m: MathLib, gamma: real): (r: real)
    requires gamma > 1.0
  {
    m.pow(2.0 / (gamma + 1.0), gamma / (gamma - 1.0))
  }

  function SonicVelocity(m: MathLib, t: real, gamma: real): (a: real) {
    m.sqrt(gamma * R_GAS * t)
  }

  /** Choked mass flux per unit effective area. */
  function ChokedFlux(m: MathLib, gamma: real, s: Sides): (g: real)
    requires gamma > 1.0 && s.t > 0.0
  {
    s.p * m.sqrt(gamma / (R_GAS * s.t)) * m.pow(2.0 / (gamma + 1.0), (gamma + 1.0) / (2.0 * (gamma - 1.0)))
  }

  /** Square of the velocity of gas that expanded until its temperature fell to the given share. */
  function VelocitySquare(gamma: real, t: real, share: real): (v: real)
    requires gamma > 1.0
  {
    2.0 * gamma / (gamma - 1.0) * R_GAS * t * (1.0 - share)
  }

  function SubsonicVelocity(m: MathLib, gamma: real, t: real, ratio: real): (v: real)
    requires gamma > 1.0
  {
    m.sqrt(VelocitySquare(gamma, t, m.pow(ratio, (gamma - 1.0) / gamma)))
  }

  /** Density at the exit, cut off at zero. */
  function ExitDensity(m: MathLib, gamma: real, rho: real, ratio: real): (d: real)
    requires gamma > 1.0
  {
    var d := rho * m.pow(ratio, 1.0 / gamma);
    if d < 0.0 then 0.0 else d
  }

  function SubsonicFlux(m: MathLib, gamma: real, s: Sides, ratio: real): (g: real)
    requires gamma > 1.0
  {
    ExitDensity(m, gamma, s.rho, ratio) * SubsonicVelocity(m, gamma, s.t, ratio)
  }

  function Clamp(v: real, low: real, high: real): (c: real) {
    if v < low then low else if v > high then high else v
  }

  /** Mass flow of the given flux through an opening. */
  function Through(c: Config, flux: real, opening: real): (f: real) {
    flux * (c.maxArea * opening * c.cd)
  }

  function SolveChokeFlow(m: MathLib, c: Config, s: Sides, valveOpening: real): (f: Flow)
    requires Sound(m) && Usable(c)
  {
    if !Flowing(s) then
      Flow(0.0, 0.0, Unknown, 0.0, 0.0, 0.0, 0.0, s.rho, 0.0, 0.0)
    else
      var opening := Clamp(valveOpening, MIN_OPENING, MAX_OPENING);
      var area := c.maxArea * opening * c.cd;
      var critical := CriticalRatio(m, c.gamma);
      var a := SonicVelocity(m, s.t, c.gamma);
      var ratio := Clamp(s.downstream / s.p, 0.0, 1.0);
      SonicPositive(m, s.t, c.gamma);
      if ratio <= critical then
        Flow(Through(c, ChokedFlux(m, c.gamma, s), opening), a, Choked, ratio, critical, opening, area, s.rho, a, 1.0)
      else
        var v := SubsonicVelocity(m, c.gamma, s.t, ratio);
        Flow(Through(c, SubsonicFlux(m, c.gamma, s, ratio), opening), v, Subsonic, ratio, critical, opening,
             area, s.rho, a, v / a)
  }

  lemma {:induction false} SonicPositive(m: MathLib, t: real, gamma: real)
    requires Sound(m) && t > 0.0 && gamma > 1.0
    ensures SonicVelocity(m, t, gamma) > 0.0
  {
    MulPos(gamma, R_GAS);
    MulPos(gamma * R_GAS, t);
  }

  /** The flux the opening solve divides by; it only cuts the pressure ratio from above. */
  function OpeningFlux(m: MathLib, c: Config, s: Sides): (g: real)
    requires Usable(c) && Flowing(s)
  {
    var ratio := if s.downstream / s.p > 1.0 then 1.0 else s.downstream / s.p;
    if ratio <= CriticalRatio(m, c.gamma) then ChokedFlux(m, c.gamma, s)
    else SubsonicFlux(m, c.gamma, s, ratio)
  }

  /** The opening that passes the target, before the range checks. */
  function RawOpening(c: Config, flux: real, target: real): (o: real)
    requires Usable(c) && flux > 0.0
    ensures Through(c, flux, o) == target
  {
    var k := flux * c.cd;
    MulPos(flux, c.cd);
    OpeningPasses(c, flux, target, k);
    target / k / c.maxArea
  }

  lemma {:induction false} OpeningPasses(c: Config, flux: real, target: real, k: real)
    requires k == flux * c.cd && k > 0.0 && c.maxArea > 0.0
    ensures Through(c, flux, target / k / c.maxArea) == target
  {
    var q := target / k;
    var o := q / c.maxArea;
    DivideTimes(target, k);
    DivideTimes(q, c.maxArea);
    assert flux * (c.maxArea * o * c.cd) == (o * c.maxArea) * k;
  }

  function RequiredOpening(m: MathLib, c: Config, s: Sides, target: real): (opening: real)
    requires Usable(c)
    ensures 0.001 <= opening <= 1.0
  {
    if target <= 0.0 || !Flowing(s) then MAX_OPENING
    else
      var flux := OpeningFlux(m, c, s);
      if flux <= 0.0 then MAX_OPENING
      else
        Clamp(RawOpening(c, flux, target), MIN_OPENING, MAX_OPENING)
  }

  // ----- the two solves are inverse

  lemma {:induction false} CriticalPositive(m: MathLib, gamma: real)
    requires Sound(m) && gamma > 1.0
    ensures CriticalRatio(m, gamma) > 0.0
  {
    QuotientPos(2.0, gamma + 1.0);
  }

  /** Both solves see the same flux: a negative pressure ratio is choked either way. */
  lemma {:induction false} FlowIsFluxTimesArea(m: MathLib, c: Config, s: Sides, opening: real)
    requires Sound(m) && Usable(c) && Flowing(s)
    ensures SolveChokeFlow(m, c, s, opening).massFlow
         == Through(c, OpeningFlux(m, c, s), Clamp(opening, MIN_OPENING, MAX_OPENING))
  {
    CriticalPositive(m, c.gamma);
  }

  /** Flow through the fully open valve. */
  function FullFlow(m: MathLib, c: Config, s: Sides): (f: real)
    requires Sound(m) && Usable(c)
  {
    SolveChokeFlow(m, c, s, MAX_OPENING).massFlow
  }

  /** Solving for the opening and then for the flow returns the target, cut to what the
      valve can pass between its least opening and fully open. */
  lemma {:induction false} OpeningInvertsFlow(m: MathLib, c: Config, s: Sides, target: real)
    requires Sound(m) && Usable(c) && Flowing(s) && target > 0.0 && OpeningFlux(m, c, s) > 0.0
    ensures SolveChokeFlow(m, c, s, RequiredOpening(m, c, s, target)).massFlow
         == Clamp(target, 0.001 * FullFlow(m, c, s), FullFlow(m, c, s))
  {
    var flux := OpeningFlux(m, c, s);
    var raw := RawOpening(c, flux, target);
    var opening := Clamp(raw, MIN_OPENING, MAX_OPENING);
    assert RequiredOpening(m, c, s, target) == opening;
    FlowIsFluxTimesArea(m, c, s, opening);
    FlowIsFluxTimesArea(m, c, s, MAX_OPENING);
    ThroughClamped(c, flux, raw);
  }

  lemma {:induction false} ThroughClamped(c: Config, flux: real, raw: real)
    requires Usable(c) && flux > 0.0
    ensures var full := Through(c, flux, MAX_OPENING);
      Through(c, flux, Clamp(raw, MIN_OPENING, MAX_OPENING)) == Clamp(Through(c, flux, raw), MIN_OPENING * full, full)
  {
    var unit := flux * c.cd * c.maxArea;
    MulPos(flux, c.cd);
    MulPos(flux * c.cd, c.maxArea);
    ThroughIs(c, flux, raw, unit);
    ThroughIs(c, flux, MAX_OPENING, unit);
    ThroughIs(c, flux, MIN_OPENING, unit);
    ClampScales(raw, unit);
    ThroughIs(c, flux, Clamp(raw, MIN_OPENING, MAX_OPENING), unit);
  }

  lemma {:induction false} ThroughIs(c: Config, flux: real, opening: real, unit: real)
    requires unit == flux * c.cd * c.maxArea
    ensures Through(c, flux, opening) == opening * unit
  {}

  lemma {:induction false} ClampScales(raw: real, unit: real)
    requires unit > 0.0
    ensures Clamp(raw, MIN_OPENING, MAX_OPENING) * unit == Clamp(raw * unit, MIN_OPENING * unit, MAX_OPENING * unit)
  {
    if raw < MIN_OPENING {
      MulLess(raw, MIN_OPENING, unit);
    } else {
      MulLeq(MIN_OPENING, raw, unit);
    }
    if raw > MAX_OPENING {
      MulLess(MAX_OPENING, raw, unit);
    } else {
      MulLeq(raw, MAX_OPENING, unit);
    }
  }

  /** A larger positive target never needs a smaller opening. */
  lemma {:induction false} OpeningMonotone(m: MathLib, c: Config, s: Sides, low: real, high: real)
    requires Usable(c) && 0.0 < low <= high
    ensures RequiredOpening(m, c, s, low) <= RequiredOpening(m, c, s, high)
  {
    if Flowing(s) && OpeningFlux(m, c, s) > 0.0 {
      RawMonotone(c, OpeningFlux(m, c, s), low, high);
    }
  }

  lemma {:induction false} RawMonotone(c: Config, flux: real, low: real, high: real)
    requires Usable(c) && flux > 0.0 && low <= high
    ensures RawOpening(c, flux, low) <= RawOpening(c, flux, high)
  {
    var k := flux * c.cd;
    MulPos(flux, c.cd);
    QuotientMonotone(low, high, k);
    QuotientMonotone(low / k, high / k, c.maxArea);
  }

  lemma {:induction false} QuotientMonotone(a: real, b: real, k: real)
    requires k > 0.0 && a <= b
    ensures a / k <= b / k
  {
    var p, q := a / k, b / k;
    DivideTimes(a, k);
    DivideTimes(b, k);
    CancelLeq(p, q, k);
  }

  /** Whatever the vapour flux, the opening asked for at 0.3 of it never exceeds the one
      asked for at 0.6 of it. */
  lemma {:induction false} CriticalOpensLess(m: MathLib, c: Config, s: Sides, vaporFlux: real)
    requires Usable(c)
    ensures RequiredOpening(m, c, s, vaporFlux * 0.3) <= RequiredOpening(m, c, s, vaporFlux * 0.6)
  {
    var low, high := vaporFlux * 0.3, vaporFlux * 0.6;
    if vaporFlux > 0.0 {
      OpeningMonotone(m, c, s, low, high);
    } else {
      assert low <= 0.0 && high <= 0.0;
    }
  }
}
