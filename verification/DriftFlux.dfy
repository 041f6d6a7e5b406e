/** The relaxed fixed-point iteration for steam quality x and void fraction alpha. */
module DriftFlux {
  import opened Reals
  import opened Wrappers

  datatype Config = Config(maxIterations: int, tolerance: real, c0: real, vdj: real)

  const DEFAULT: Config := Config(500, 0.000001, 1.2, 0.35)

  datatype Equation = Equation(massFlux: real, rhoL: real, rhoV: real)

  /** How the loop ended; the source reports every one of these as converged. */
  datatype Exit = InvalidInput | DenomGuard | DenomXGuard | WithinTolerance | Exhausted

  datatype Solution = Solution(x: real, alpha: real, iterations: int, exit: Exit)

  const TINY: real := 0.000000000000000000000000000001

  function Abs(v: real): (a: real) {
    if v < 0.0 then -v else v
  }

  /** The clamp applied to the unrelaxed values. */
  function Clamp(v: real): (c: real)
    ensures 0.0 <= c <= 1.0
  {
    if v < 0.0 then 0.0 else if v > 1.0 then 1.0 else v
  }

  /** The clamp applied to the relaxed values. */
  function Nudge(v: real): (c: real) {
    if v < 0.0 then 0.001 else if v > 1.0 then 0.999 else v
  }

  function Relaxed(prev: real, next: real): (v: real) {
    (1.0 - 0.3) * prev + 0.3 * next
  }

  predicate Usable(e: Equation) {
    !(e.rhoV <= 0.0 || e.rhoL <= 0.0 || e.massFlux <= 0.0)
  }

  /** A quotient clamped to [0,1]; None when the divisor is too small to divide by. */
  function Guarded(num: real, den: real): (q: Option<real>)
    ensures q.Some? ==> 0.0 <= q.value <= 1.0
  {
    if Abs(den) < TINY then None else Some(Clamp(num / den))
  }

  /** What the loop reads: ratio is rhoV/rhoL and drift is rhoV Vdj / G, which the source
      recomputes from unchanged inputs on every pass. */
  datatype Problem = Problem(maxIterations: int, tolerance: real, c0: real,
                             ratio: real, drift: real, rhoL: real, rhoV: real)

  function Setup(c: Config, e: Equation): (p: Problem)
    requires Usable(e)
  {
    Problem(c.maxIterations, c.tolerance, c.c0,
            e.rhoV / e.rhoL, e.rhoV * c.vdj / e.massFlux, e.rhoL, e.rhoV)
  }

  /** Divisor of the drift-flux relation alpha = x / (C0 (x + ratio (1-x)) + drift). */
  function Denom(p: Problem, x: real): (d: real) {
    p.c0 * (x + p.ratio * (1.0 - x)) + p.drift
  }

  /** Divisor of the quality relation x = alpha rhoV / (alpha rhoV + (1-alpha) rhoL). */
  function DenomX(p: Problem, alphaNew: real): (d: real) {
    alphaNew * p.rhoV + (1.0 - alphaNew) * p.rhoL
  }

  function NumerX(p: Problem, alphaNew: real): (n: real) {
    alphaNew * p.rhoV
  }

  /** The unrelaxed void fraction. */
  function NextAlpha(p: Problem, x: real): (a: Option<real>)
    ensures a.Some? ==> 0.0 <= a.value <= 1.0
  {
    Guarded(x, Denom(p, x))
  }

  /** The unrelaxed quality carried by that void fraction. */
  function NextQuality(p: Problem, alphaNew: real): (q: Option<real>)
    ensures q.Some? ==> 0.0 <= q.value <= 1.0
  {
    Guarded(NumerX(p, alphaNew), DenomX(p, alphaNew))
  }

  datatype Step =
    | Stop(x: real, alpha: real, exit: Exit)
    | Continue(x: real, alpha: real)

  /** Under-relaxation, the range nudges and the tolerance test. */
  function Settle(p: Problem, x: real, alpha: real, xNew: real, alphaNew: real): (s: Step)
    requires 0.0 <= x <= 1.0 && 0.0 <= alpha <= 1.0
    requires 0.0 <= xNew <= 1.0 && 0.0 <= alphaNew <= 1.0
    ensures 0.0 <= s.x <= 1.0 && 0.0 <= s.alpha <= 1.0
  {
    var x', alpha' := Nudge(Relaxed(x, xNew)), Nudge(Relaxed(alpha, alphaNew));
    if Abs(xNew - x) < p.tolerance && Abs(alphaNew - alpha) < p.tolerance
    then Stop(x', alpha', WithinTolerance)
    else Continue(x', alpha')
  }

  /** One pass through the loop body. */
  function Advance(p: Problem, x: real, alpha: real): (s: Step)
    requires 0.0 <= x <= 1.0 && 0.0 <= alpha <= 1.0
    ensures 0.0 <= s.x <= 1.0 && 0.0 <= s.alpha <= 1.0
  {
    match NextAlpha(p, x)
    case None => Stop(0.5, 0.5, DenomGuard)
    case Some(alphaNew) =>
      match NextQuality(p, alphaNew)
      case None => Stop(0.5, alphaNew, DenomXGuard)
      case Some(xNew) => Settle(p, x, alpha, xNew, alphaNew)
  }

  /** The loop from pass i on. */
  function Iterate(p: Problem, x: real, alpha: real, i: nat): (s: Solution)
    requires 0.0 <= x <= 1.0 && 0.0 <= alpha <= 1.0
    ensures 0.0 <= s.x <= 1.0 && 0.0 <= s.alpha <= 1.0
    ensures i <= s.iterations && (s.iterations <= p.maxIterations || s.iterations == i)
    decreases p.maxIterations - i
  {
    if i >= p.maxIterations then Solution(0.5, 0.5, i, Exhausted)
    else
      match Advance(p, x, alpha)
      case Stop(x', alpha', exit) => Solution(x', alpha', i, exit)
      case Continue(x', alpha') => Iterate(p, x', alpha', i + 1)
  }

  function Solve(c: Config, e: Equation): (s: Solution)
    ensures 0.0 <= s.x <= 1.0 && 0.0 <= s.alpha <= 1.0
  {
    if !Usable(e) then Solution(0.5, 0.5, 0, InvalidInput)
    else Iterate(Setup(c, e), 0.1, 0.1, 0)
  }

  method SolveDriftFlux(c: Config, e: Equation)
    returns (x: real, alpha: real, iterations: int, converged: bool)
    ensures x == Solve(c, e).x && alpha == Solve(c, e).alpha
    ensures iterations == Solve(c, e).iterations
    ensures converged
  {
    x, alpha, iterations := 0.1, 0.1, 0;
    if e.rhoV <= 0.0 || e.rhoL <= 0.0 || e.massFlux <= 0.0 {
      return 0.5, 0.5, 0, true;
    }
    var p := Setup(c, e);
    while iterations < p.maxIterations
      invariant 0 <= iterations
      invariant 0.0 <= x <= 1.0 && 0.0 <= alpha <= 1.0
      invariant Iterate(p, x, alpha, iterations) == Solve(c, e)
    {
      var step := Advance(p, x, alpha);
      x, alpha := step.x, step.alpha;
      if step.Stop? {
        return x, alpha, iterations, true;
      }
      iterations := iterations + 1;
    }
    return 0.5, 0.5, iterations, true;
  }

  // ----- phase velocities

  /** Volume per unit mass of the mixture. */
  function SpecificVolume(x: real, rhoL: real, rhoV: real): (w: real)
    requires rhoL > 0.0 && rhoV > 0.0
  {
    x / rhoV + (1.0 - x) / rhoL
  }

  lemma {:induction false} SpecificVolumePositive(x: real, rhoL: real, rhoV: real)
    requires rhoL > 0.0 && rhoV > 0.0 && 0.0 <= x <= 1.0
    ensures SpecificVolume(x, rhoL, rhoV) > 0.0
  {
    if x > 0.0 {
      QuotientPos(x, rhoV);
      QuotientNonNeg(1.0 - x, rhoL);
    } else {
      QuotientNonNeg(x, rhoV);
      QuotientPos(1.0 - x, rhoL);
    }
  }

  function MixtureDensity(x: real, rhoL: real, rhoV: real): (rho: real)
    requires rhoL > 0.0 && rhoV > 0.0 && 0.0 <= x <= 1.0
    ensures rho > 0.0 && rho * SpecificVolume(x, rhoL, rhoV) == 1.0
  {
    SpecificVolumePositive(x, rhoL, rhoV);
    Reciprocal(SpecificVolume(x, rhoL, rhoV));
    1.0 / SpecificVolume(x, rhoL, rhoV)
  }

  lemma {:induction false} Reciprocal(w: real)
    requires w > 0.0
    ensures 1.0 / w > 0.0 && 1.0 / w * w == 1.0
  {
    QuotientPos(1.0, w);
    DivideTimes(1.0, w);
  }

  function VaporVelocity(x: real, alpha: real, G: real, rhoV: real): (v: real)
    requires alpha > 0.0 && rhoV > 0.0
    ensures v * (alpha * rhoV) == x * G
  {
    MulPos(alpha, rhoV);
    DivideTimes(x * G, alpha * rhoV);
    x * G / (alpha * rhoV)
  }

  function LiquidVelocity(x: real, alpha: real, G: real, rhoL: real): (v: real)
    requires alpha < 1.0 && rhoL > 0.0
    ensures v * ((1.0 - alpha) * rhoL) == (1.0 - x) * G
  {
    MulPos(1.0 - alpha, rhoL);
    DivideTimes((1.0 - x) * G, (1.0 - alpha) * rhoL);
    (1.0 - x) * G / ((1.0 - alpha) * rhoL)
  }

  function MixtureVelocity(x: real, G: real, rhoL: real, rhoV: real): (v: real)
    requires rhoL > 0.0 && rhoV > 0.0 && 0.0 <= x <= 1.0
    ensures v * MixtureDensity(x, rhoL, rhoV) == G
  {
    DivideTimes(G, MixtureDensity(x, rhoL, rhoV));
    G / MixtureDensity(x, rhoL, rhoV)
  }

  /** (vL, vV, vm) for quality x and void fraction alpha. */
  function Velocities(x: real, alpha: real, G: real, rhoL: real, rhoV: real): (v: (real, real, real))
    requires rhoL > 0.0 && rhoV > 0.0 && 0.0 <= x <= 1.0
  {
    var vm := MixtureVelocity(x, G, rhoL, rhoV);
    if alpha > 0.0 && alpha < 1.0
    then (LiquidVelocity(x, alpha, G, rhoL), VaporVelocity(x, alpha, G, rhoV), vm)
    else (vm, vm, vm)
  }

  /** The slip ratio under the square root; the source returns sqrt(S) * Vdj, or 0 outside (0,1). */
  function SlipRatio(x: real, alpha: real, rhoL: real, rhoV: real): (s: real)
    requires 0.0 < x < 1.0 && 0.0 < alpha < 1.0 && rhoV > 0.0
  {
    (x / alpha) * ((1.0 - alpha) / (1.0 - x)) * (rhoL / rhoV)
  }

  /** The slip velocity; the square root is a parameter. */
  function SlipVelocity(sqrt: real -> real, vdj: real, x: real, alpha: real, rhoL: real, rhoV: real): (v: real)
    requires rhoL > 0.0 && rhoV > 0.0
  {
    if alpha <= 0.0 || alpha >= 1.0 || x <= 0.0 || x >= 1.0 then 0.0
    else sqrt(SlipRatio(x, alpha, rhoL, rhoV)) * vdj
  }
}
