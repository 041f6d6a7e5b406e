/** What an assessment asks of the valve, in terms of the gas that flows through it. */
module ControllerTheory {
  import opened Controller
  import opened Threat
  import opened Reals
  import opened Wrappers
  import Valve
  import ValveTheory

  lemma {:induction false} GasLaw(p: real, z: real)
    requires z > 0.0 && p >= 0.0
    ensures p / z >= 0.0 && p / z * z == p
  {
    QuotientNonNeg(p, z);
    DivideTimes(p, z);
  }

  /** The density the controller gives the valve is that of an ideal gas, zero for a temperature or a
      pressure that is not positive. */
  lemma {:induction false} DensityIsIdeal(r: Reading)
    ensures r.temperature > 0.0 && r.pressure >= 0.0 ==> ValveTheory.IdealGas(SidesOf(r))
    ensures SidesOf(r).rho > 0.0 <==> r.temperature > 0.0 && r.pressure > 0.0
  {
    if r.temperature > 0.0 {
      var z := Valve.R_GAS * r.temperature;
      DivideTimes(r.pressure, z);
      if r.pressure >= 0.0 {
        GasLaw(r.pressure, z);
      }
      if r.pressure > 0.0 {
        QuotientPos(r.pressure, z);
      } else {
        CancelLeq(r.pressure / z, 0.0, z);
      }
    }
  }

  lemma {:induction false} FlowingIff(r: Reading)
    ensures Valve.Flowing(SidesOf(r)) <==> r.temperature > 0.0 && r.pressure > 0.0
  {
    DensityIsIdeal(r);
  }

  /** Vapour arrives, and the pressure falls across the valve. */
  predicate Passable(r: Reading) {
    r.vaporFlux > 0.0 && r.temperature > 0.0 && r.pressure > 0.0 && r.downstream < r.pressure
  }

  /** The opening passes the target, cut to what the valve passes between its least opening and fully open. */
  predicate Passes(flow: real, target: real, full: real) {
    flow == if target < 0.001 * full then 0.001 * full else if target > full then full else target
  }

  lemma {:induction false} OpeningPasses(m: Valve.MathLib, c: Valve.Config, r: Reading, target: real)
    requires ValveTheory.Lawful(m) && Valve.Usable(c) && (target > 0.0 <==> r.vaporFlux > 0.0)
    ensures var o := Valve.RequiredOpening(m, c, SidesOf(r), target);
      if Passable(r)
      then Passes(Valve.SolveChokeFlow(m, c, SidesOf(r), o).massFlow, target,
                  Valve.SolveChokeFlow(m, c, SidesOf(r), 1.0).massFlow)
      else o == 1.0
  {
    FlowingIff(r);
    if Valve.Flowing(SidesOf(r)) {
      ValveTheory.FluxPositiveIff(m, c, SidesOf(r));
    }
    if Passable(r) {
      Valve.OpeningInvertsFlow(m, c, SidesOf(r), target);
    }
  }

  /** Whatever the derivatives, an assessment at Critical asks for the opening that passes 0.3 of the vapour
      flux at the conditions read, and one at Elevated for the opening that passes 0.6 of it; if there is no
      vapour or no pressure drop, both ask for a fully open valve. At Imminent it asks for the lockdown
      opening, and otherwise it leaves the opening alone. */
  lemma {:induction false} AssessmentThrottles(m: Valve.MathLib, c: Config, d: real, d2: real, r: Reading,
                                               current: real)
    requires ValveTheory.Lawful(m) && Valve.Usable(c.valve)
    ensures var a := Grade(m, c, d, d2, r, current);
      var flow := Valve.SolveChokeFlow(m, c.valve, SidesOf(r), a.opening).massFlow;
      var full := Valve.SolveChokeFlow(m, c.valve, SidesOf(r), 1.0).massFlow;
      match a.level
      case Imminent => a.opening == c.lockdownOpening
      case Critical => if Passable(r) then Passes(flow, 0.3 * r.vaporFlux, full) else a.opening == 1.0
      case Elevated => if Passable(r) then Passes(flow, 0.6 * r.vaporFlux, full) else a.opening == 1.0
      case Normal => a.opening == current
  {
    match Classify(c.limits, r.pressure, d, d2)
    case Critical => OpeningPasses(m, c.valve, r, r.vaporFlux * 0.3);
    case Elevated => OpeningPasses(m, c.valve, r, r.vaporFlux * 0.6);
    case _ =>
  }

  /** The share of the limit still free; it has no value exactly when the limit is zero. */
  predicate IsMargin(margin: Option<real>, limit: real, pressure: real) {
    if limit == 0.0 then margin.None? else margin.Some? && margin.value * limit == limit - pressure
  }

  lemma {:induction false} MarginIs(limit: real, pressure: real)
    ensures IsMargin(Margin(limit, pressure), limit, pressure)
  {
    if limit != 0.0 {
      DivideTimes(limit - pressure, limit);
    }
  }

  /** What an assessment reports: the reading and its derivatives, whether they are a surge, the forecast,
      the margin, and an override at the two upper levels, with a lockdown at the highest. */
  lemma {:induction false} AssessmentReports(m: Valve.MathLib, c: Config, d: real, d2: real, r: Reading, current: real)
    requires Valve.Sound(m) && Valve.Usable(c.valve)
    ensures var a, limit := Grade(m, c, d, d2, r, current), c.limits.pressureLimit;
      && a.pressure == r.pressure && a.dPdt == d && a.d2Pdt2 == d2
      && (a.surge <==> Surges(c.limits, d, d2))
      && (a.predicted >= limit <==> Threat.Reaches(limit, r.pressure, d, d2, c.limits.horizon as real))
      && IsMargin(a.margin, limit, r.pressure)
      && (a.requiresOverride <==> a.level == Critical || a.level == Imminent)
      && (a.lockdown <==> a.level == Imminent)
  {
    SurgeIff(c.limits, d, d2);
    PredictReaches(c.limits, r.pressure, d, d2);
    MarginIs(c.limits.pressureLimit, r.pressure);
  }
}
