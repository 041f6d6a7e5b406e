/** The safety controller: a sliding window of pressure samples and one assessment per reading. */
module Controller {
  import opened Words
  import opened Wrappers
  import opened Threat
  import opened Derivatives
  import Valve
  import LeastSquares
  import Reals

  datatype Config = Config(limits: Limits, lockdownOpening: real, minSamples: int, valve: Valve.Config,
                           overrideAddress: byte, overrideRegister: word)

  /** What one call to Assess sees, the clock reading included. */
  datatype Reading = Reading(now: int, pressure: real, temperature: real, vaporFlux: real, downstream: real)

  datatype Assessment = Assessment(level: Level, pressure: real, dPdt: real, d2Pdt2: real, predicted: real,
                                   timeToBreach: int, opening: real, surge: bool,
                                   requiresOverride: bool, lockdown: bool, flow: Valve.Flow,
                                   margin: Option<real>)

  function ToSample(r: Reading): (s: Sample) {
    Sample(r.now, r.pressure, r.temperature, r.vaporFlux)
  }

  /** Ideal-gas density, zero for a temperature or pressure that is not positive. */
  function UpstreamRho(r: Reading): (rho: real)
    ensures rho >= 0.0
  {
    if r.temperature > 0.0 then
      var rho := r.pressure / (Valve.R_GAS * r.temperature);
      if rho < 0.0 then 0.0 else rho
    else 0.0
  }

  function SidesOf(r: Reading): (s: Valve.Sides) {
    Valve.Sides(r.pressure, r.temperature, UpstreamRho(r), r.downstream)
  }

  /** The share of the limit still free; None where the source divides by zero. */
  function Margin(limit: real, pressure: real): (margin: Option<real>) {
    if limit == 0.0 then None else Some((limit - pressure) / limit)
  }

  /** The opening each level asks for. */
  function OpeningFor(m: Valve.MathLib, c: Config, r: Reading, level: Level, current: real): (o: real)
    requires Valve.Usable(c.valve)
  {
    match level
    case Imminent => c.lockdownOpening
    case Critical => Valve.RequiredOpening(m, c.valve, SidesOf(r), r.vaporFlux * 0.3)
    case Elevated => Valve.RequiredOpening(m, c.valve, SidesOf(r), r.vaporFlux * 0.6)
    case Normal => current
  }

  /** The assessment of a reading whose derivatives are d and d2. */
  function Grade(m: Valve.MathLib, c: Config, d: real, d2: real, r: Reading, current: real): (a: Assessment)
    requires Valve.Sound(m) && Valve.Usable(c.valve)
  {
    var predicted := Predict(c.limits, r.pressure, d, d2);
    var level := Classify(c.limits, r.pressure, d, d2);
    Assessment(level, r.pressure, d, d2, predicted,
               TimeToBreach(c.limits, r.pressure, d, predicted),
               OpeningFor(m, c, r, level, current), IsSurge(c.limits, d, d2),
               level.Rank() >= 2, level == Imminent,
               Valve.SolveChokeFlow(m, c.valve, SidesOf(r), current),
               Margin(c.limits.pressureLimit, r.pressure))
  }

  /** The assessment of a reading given the samples up to and including it. */
  function Evaluate(m: Valve.MathLib, c: Config, samples: seq<Sample>, r: Reading, current: real): (a: Assessment)
    requires Valve.Sound(m) && Valve.Usable(c.valve)
  {
    var d := Both(c.minSamples, samples);
    Grade(m, c, d.0, d.1, r, current)
  }

  const MAX_SAMPLES: nat := 64

  /** The last 64 entries. */
  function Keep(s: seq<Sample>): (k: seq<Sample>)
    ensures |k| <= MAX_SAMPLES
  {
    if |s| > MAX_SAMPLES then s[|s| - MAX_SAMPLES..] else s
  }

  datatype State = State(samples: seq<Sample>, overrideCount: nat, totalAssess: nat, last: Option<Assessment>)

  /** The samples after a reading; `trim` tells whether old ones are dropped. */
  function Grown(trim: bool, samples: seq<Sample>, r: Reading): (s: seq<Sample>) {
    if trim then Keep(samples + [ToSample(r)]) else samples + [ToSample(r)]
  }

  /** State once assessment a has been made of reading r. */
  function Recorded(trim: bool, s: State, r: Reading, a: Assessment): (t: State) {
    State(Grown(trim, s.samples, r), s.overrideCount + if a.requiresOverride then 1 else 0, s.totalAssess + 1, Some(a))
  }

  function AfterAssess(m: Valve.MathLib, c: Config, trim: bool, s: State, r: Reading, current: real): (t: State)
    requires Valve.Sound(m) && Valve.Usable(c.valve)
  {
    Recorded(trim, s, r, Evaluate(m, c, Grown(trim, s.samples, r), r, current))
  }

  lemma {:induction false} AssessedIs(m: Valve.MathLib, c: Config, s: State, r: Reading, current: real,
                                      a: Assessment, t: State)
    requires Valve.Sound(m) && Valve.Usable(c.valve)
    requires a == Evaluate(m, c, Grown(true, s.samples, r), r, current)
    requires t == State(Grown(true, s.samples, r), s.overrideCount + (if a.requiresOverride then 1 else 0),
                        s.totalAssess + 1, Some(a))
    ensures t == AfterAssess(m, c, true, s, r, current)
  {}

  function AfterReset(s: State): (t: State) {
    State([], 0, 0, s.last)
  }

  class SafetyController {
    const m: Valve.MathLib
    const config: Config
    var samples: seq<Sample>
    var overrideCount: nat
    var totalAssess: nat
    var lastAssessment: Option<Assessment>

    ghost predicate Valid() {
      Valve.Sound(m) && Valve.Usable(config.valve)
    }

    function View(): (s: State)
      reads this
    {
      State(samples, overrideCount, totalAssess, lastAssessment)
    }

    constructor (m: Valve.MathLib, config: Config)
      requires Valve.Sound(m) && Valve.Usable(config.valve)
      ensures Valid() && this.m == m && this.config == config
      ensures View() == State([], 0, 0, None)
    {
      this.m := m;
      this.config := config;
      samples, overrideCount, totalAssess, lastAssessment := [], 0, 0, None;
    }

    method ComputeDerivatives() returns (dPdt: real, d2Pdt2: real)
      ensures (dPdt, d2Pdt2) == Both(config.minSamples, samples)
    {
      if |samples| < config.minSamples {
        return 0.0, 0.0;
      }
      dPdt := ComputeFirstDerivative(samples);
      d2Pdt2 := ComputeSecondDerivative(samples);
    }

    /** Append the reading, and keep the last 64. */
    method AddSample(r: Reading)
      modifies this`samples
      ensures samples == Grown(true, old(samples), r)
    {
      samples := samples + [ToSample(r)];
      if |samples| > MAX_SAMPLES {
        samples := samples[|samples| - MAX_SAMPLES..];
      }
    }

    method Assess(r: Reading, current: real) returns (a: Assessment)
      requires Valid()
      modifies this
      ensures Valid() && a == Evaluate(m, config, Grown(true, old(samples), r), r, current)
      ensures View() == AfterAssess(m, config, true, old(View()), r, current)
      ensures samples == Grown(true, old(samples), r) && totalAssess == old(totalAssess) + 1
      ensures overrideCount == old(overrideCount) + (if a.requiresOverride then 1 else 0)
      ensures lastAssessment == Some(a)
    {
      ghost var before := View();
      totalAssess := totalAssess + 1;
      AddSample(r);
      a := AssessSamples(r, current);
      if a.requiresOverride {
        overrideCount := overrideCount + 1;
      }
      lastAssessment := Some(a);
      AssessedIs(m, config, before, r, current, a, View());
    }

    method AssessSamples(r: Reading, current: real) returns (a: Assessment)
      requires Valid()
      ensures a == Evaluate(m, config, samples, r, current)
    {
      var dPdt, d2Pdt2 := ComputeDerivatives();
      a := Judge(dPdt, d2Pdt2, r, current);
    }

    method Judge(dPdt: real, d2Pdt2: real, r: Reading, current: real) returns (a: Assessment)
      requires Valid()
      ensures a == Grade(m, config, dPdt, d2Pdt2, r, current)
    {
      var limits := config.limits;
      var margin := Margin(limits.pressureLimit, r.pressure);
      var surge := IsSurge(limits, dPdt, d2Pdt2);
      var predicted := Predict(limits, r.pressure, dPdt, d2Pdt2);
      var timeToBreach := TimeToBreach(limits, r.pressure, dPdt, predicted);
      var sides := SidesOf(r);
      var flow := Valve.SolveChokeFlow(m, config.valve, sides, current);
      var level, lockdown, requiresOverride, opening :=
        Respond(dPdt, surge, predicted, timeToBreach, r, current);
      a := Assessment(level, r.pressure, dPdt, d2Pdt2, predicted, timeToBreach, opening, surge,
                      requiresOverride, lockdown, flow, margin);
    }

    /** The ordered switch: the level, and what it asks for. */
    method Respond(dPdt: real, surge: bool, predicted: real, timeToBreach: int, r: Reading, current: real)
      returns (level: Level, lockdown: bool, requiresOverride: bool, opening: real)
      requires Valid()
      ensures level == LevelOf(config.limits, r.pressure, dPdt, surge, predicted, timeToBreach)
      ensures requiresOverride == (level.Rank() >= 2) && lockdown == (level == Imminent)
      ensures opening == OpeningFor(m, config, r, level, current)
    {
      var limits, sides := config.limits, SidesOf(r);
      level, lockdown, requiresOverride, opening := Normal, false, false, current;
      if r.pressure >= limits.pressureLimit || (surge && predicted >= limits.pressureLimit) {
        level, lockdown, requiresOverride := Imminent, true, true;
        opening := config.lockdownOpening;
      } else if surge && timeToBreach <= limits.horizon {
        level, requiresOverride := Critical, true;
        opening := Valve.RequiredOpening(m, config.valve, sides, r.vaporFlux * 0.3);
      } else if r.pressure >= limits.pressureLimit * limits.warningRatio || dPdt > limits.maxDerivative {
        level := Elevated;
        opening := Valve.RequiredOpening(m, config.valve, sides, r.vaporFlux * 0.6);
      }
    }

    method Reset()
      modifies this
      ensures View() == AfterReset(old(View()))
    {
      samples := [];
      overrideCount := 0;
      totalAssess := 0;
    }
  }

  // ----- trimming

  lemma {:induction false} KeepWindow(s: seq<Sample>)
    ensures Window(Keep(s)) == Window(s)
  {}

  lemma {:induction false} KeepGrows(s: seq<Sample>, x: Sample)
    ensures Keep(Keep(s) + [x]) == Keep(s + [x])
  {}

  lemma {:induction false} TrimInvisible(minSamples: int, s: seq<Sample>)
    requires minSamples <= MAX_SAMPLES
    ensures Both(minSamples, Keep(s)) == Both(minSamples, s)
  {
    KeepWindow(s);
  }

  /** Sixty-four kept samples suffice for every history exactly when no more than 64 are
      demanded before derivatives are computed; otherwise they stay zero for ever. */
  lemma {:induction false} TrimInvisibleIff(minSamples: int)
    ensures (forall s :: Both(minSamples, Keep(s)) == Both(minSamples, s)) <==> minSamples <= 64
  {
    if minSamples <= MAX_SAMPLES {
      forall s
        ensures Both(minSamples, Keep(s)) == Both(minSamples, s)
      {
        TrimInvisible(minSamples, s);
      }
    } else {
      var s := Ramp(minSamples);
      RampSlope(minSamples);
      assert Both(minSamples, Keep(s)) == (0.0, 0.0);
      assert Both(minSamples, s).0 == 1.0;
    }
  }

  /** One pascal per second, one sample per second. */
  function Ramp(n: nat): (s: seq<Sample>)
    ensures |s| == n
    ensures forall i :: 0 <= i < n ==> s[i] == Sample(i * 1_000_000_000, i as real, 0.0, 0.0)
  {
    seq(n, i => Sample(i * 1_000_000_000, i as real, 0.0, 0.0))
  }

  lemma {:induction false} WholeSeconds(k: int)
    ensures Seconds(k * 1_000_000_000) == k as real
  {
    assert (k * 1_000_000_000) as real == k as real * NANOS;
    Reals.QuotientIs((k * 1_000_000_000) as real, NANOS, k as real);
  }

  lemma {:induction false} RampSlope(n: nat)
    requires n > MAX_SAMPLES
    ensures FirstDerivative(Ramp(n)) == 1.0
  {
    var s := Ramp(n);
    var w := Window(s);
    var base := n - 10;
    forall i | 0 <= i < 10
      ensures LeastSquares.OnLine(Points(w)[i], base as real, 1.0)
    {
      assert w[i] == s[base + i] && w[0] == s[base];
      assert w[i].timestamp - w[0].timestamp == i * 1_000_000_000;
      WholeSeconds(i);
    }
    assert w[0].timestamp != w[1].timestamp;
    FirstDerivativeOfLine(s, base as real, 1.0);
  }

  // ----- runs

  datatype Op = Assess(r: Reading, current: real) | Reset

  function Start(): (s: State) {
    State([], 0, 0, None)
  }

  function After(m: Valve.MathLib, c: Config, trim: bool, s: State, op: Op): (t: State)
    requires Valve.Sound(m) && Valve.Usable(c.valve)
  {
    match op
    case Assess(r, current) => AfterAssess(m, c, trim, s, r, current)
    case Reset => AfterReset(s)
  }

  function Run(m: Valve.MathLib, c: Config, trim: bool, ops: seq<Op>): (s: State)
    requires Valve.Sound(m) && Valve.Usable(c.valve)
  {
    if ops == [] then Start()
    else After(m, c, trim, Run(m, c, trim, ops[..|ops| - 1]), ops[|ops| - 1])
  }

  /** The samples of every reading since the last reset. */
  function History(ops: seq<Op>): (s: seq<Sample>) {
    if ops == [] then []
    else match ops[|ops| - 1]
      case Assess(r, _) => History(ops[..|ops| - 1]) + [ToSample(r)]
      case Reset => []
  }

  /** After every run the samples are the last 64 entries of the history since the last reset, or all
      of it for a controller that never forgets, and each entry was assessed once. */
  lemma {:induction false} RunHistory(m: Valve.MathLib, c: Config, trim: bool, ops: seq<Op>)
    requires Valve.Sound(m) && Valve.Usable(c.valve)
    ensures var s := Run(m, c, trim, ops);
      && s.samples == (if trim then Keep(History(ops)) else History(ops))
      && s.totalAssess == |History(ops)|
      && s.overrideCount <= s.totalAssess
  {
    if ops != [] {
      var u := ops[..|ops| - 1];
      RunHistory(m, c, trim, u);
      if ops[|ops| - 1].Assess? {
        KeepGrows(History(u), ToSample(ops[|ops| - 1].r));
      }
    }
  }

  lemma {:induction false} EvaluateTrimmed(m: Valve.MathLib, c: Config, s: seq<Sample>, r: Reading, current: real)
    requires Valve.Sound(m) && Valve.Usable(c.valve) && c.minSamples <= MAX_SAMPLES
    ensures Evaluate(m, c, Grown(true, Keep(s), r), r, current) == Evaluate(m, c, Grown(false, s, r), r, current)
  {
    KeepGrows(s, ToSample(r));
    TrimInvisible(c.minSamples, s + [ToSample(r)]);
  }

  lemma {:induction false} RecordedTrimmed(s: State, r: Reading, a: Assessment)
    ensures var t := Recorded(false, s, r, a);
      Recorded(true, s.(samples := Keep(s.samples)), r, a) == t.(samples := Keep(t.samples))
  {
    KeepGrows(s.samples, ToSample(r));
  }

  lemma {:induction false} AssessTrimmed(m: Valve.MathLib, c: Config, s: State, r: Reading, current: real)
    requires Valve.Sound(m) && Valve.Usable(c.valve) && c.minSamples <= MAX_SAMPLES
    ensures var t := AfterAssess(m, c, false, s, r, current);
      AfterAssess(m, c, true, s.(samples := Keep(s.samples)), r, current) == t.(samples := Keep(t.samples))
  {
    EvaluateTrimmed(m, c, s.samples, r, current);
    RecordedTrimmed(s, r, Evaluate(m, c, Grown(false, s.samples, r), r, current));
  }

  /** Over every run the trimmed controller gives the assessments and counts of one that
      keeps every sample. */
  lemma {:induction false} TrimmingRefines(m: Valve.MathLib, c: Config, ops: seq<Op>)
    requires Valve.Sound(m) && Valve.Usable(c.valve) && c.minSamples <= MAX_SAMPLES
    ensures var t := Run(m, c, false, ops);
      Run(m, c, true, ops) == t.(samples := Keep(t.samples))
  {
    if ops != [] {
      var u := ops[..|ops| - 1];
      TrimmingRefines(m, c, u);
      match ops[|ops| - 1]
      case Assess(r, current) => AssessTrimmed(m, c, Run(m, c, false, u), r, current);
      case Reset =>
    }
  }
}
