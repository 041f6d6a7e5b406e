/** The choke interceptor: every frame is assessed, and dangerous ones drive the valve. */
module Interceptor {
  import opened Wrappers
  import Crc16
  import Threat
  import Valve
  import ValveTheory
  import Controller
  import ControllerTheory
  import Derivatives
  import DriftFlux
  import Override

  datatype Config = Config(controller: Controller.Config, downstream: real, initialOpening: real, enabled: bool)

  /** The parts of a hydrodynamics frame the interceptor reads. */
  datatype Frame = Frame(timestamp: int, pressure: real, temperature: real, vaporVelocity: real,
                         vaporDensity: real, voidFraction: real)

  datatype ChokeFrame = ChokeFrame(timestamp: int, assessment: Controller.Assessment, flow: Valve.Flow, opening: real,
                                   overrideSent: bool, packet: Option<Override.Packet>, level: Threat.Level,
                                   dPdt: real, predicted: real, timeToBreach: int)

  datatype State = State(safety: Controller.State, opening: real, downstream: real,
                         overrides: nat, lockdowns: nat, frames: nat, sequence: nat)

  function ReadingOf(f: Frame, now: int, downstream: real): (r: Controller.Reading) {
    Controller.Reading(now, f.pressure, f.temperature, f.vaporVelocity * f.vaporDensity * f.voidFraction, downstream)
  }

  predicate Ready(c: Config) {
    Valve.Usable(c.controller.valve)
  }

  /** The assessment of a frame arriving in state s. */
  function AssessmentOf(m: Valve.MathLib, c: Config, s: State, r: Controller.Reading): (a: Controller.Assessment)
    requires Valve.Sound(m) && Ready(c)
  {
    Controller.Evaluate(m, c.controller, Controller.Grown(true, s.safety.samples, r), r, s.opening)
  }

  /** An override is acted on only when the interceptor is enabled. */
  predicate Acts(c: Config, a: Controller.Assessment) {
    c.enabled && a.requiresOverride
  }

  /** Openings that are not lockdowns come from the valve solve, so they are fractions. */
  predicate Encodable(a: Controller.Assessment) {
    && (a.lockdown ==> a.requiresOverride)
    && (a.requiresOverride && !a.lockdown ==> Valve.MIN_OPENING <= a.opening <= Valve.MAX_OPENING)
  }

  function PacketOf(c: Config, a: Controller.Assessment, sequence: nat): (p: Option<Override.Packet>)
    requires Encodable(a)
  {
    if !Acts(c, a) then None
    else if a.lockdown then
      Some(Override.LockdownPacket(c.controller.overrideAddress, c.controller.overrideRegister, sequence))
    else
      Some(Override.EmergencyPacket(c.controller.overrideAddress, c.controller.overrideRegister,
                                    a.opening, a.lockdown, sequence))
  }

  function NextSequence(n: nat): (k: nat) {
    (n + 1) % 0x1_0000_0000
  }

  /** The sequence counter after a frame that is or is not acted on. */
  function Following(acts: bool, n: nat): (k: nat) {
    if acts then NextSequence(n) else n
  }

  /** State after assessment a of reading r. */
  function Applied(c: Config, s: State, r: Controller.Reading, a: Controller.Assessment): (t: State) {
    State(Controller.Recorded(true, s.safety, r, a),
          if Acts(c, a) then a.opening else s.opening,
          s.downstream,
          s.overrides + (if Acts(c, a) && !a.lockdown then 1 else 0),
          s.lockdowns + (if Acts(c, a) && a.lockdown then 1 else 0),
          s.frames + 1,
          Following(Acts(c, a), s.sequence))
  }

  /** Assessing and then acting is applying. */
  lemma {:induction false} AppliedIs(c: Config, before: State, between: State, after: State,
                                     r: Controller.Reading, a: Controller.Assessment)
    requires between == before.(safety := Controller.Recorded(true, before.safety, r, a), frames := before.frames + 1)
    requires after == between.(
      opening := if Acts(c, a) then a.opening else between.opening,
      overrides := between.overrides + (if Acts(c, a) && !a.lockdown then 1 else 0),
      lockdowns := between.lockdowns + (if Acts(c, a) && a.lockdown then 1 else 0),
      sequence := Following(Acts(c, a), between.sequence))
    ensures after == Applied(c, before, r, a)
  {}

  lemma {:induction false} AssessmentEncodable(m: Valve.MathLib, c: Config, s: State, r: Controller.Reading)
    requires Valve.Sound(m) && Ready(c)
    ensures Encodable(AssessmentOf(m, c, s, r))
  {}

  class ChokeInterceptor {
    const m: Valve.MathLib
    const config: Config
    const controller: Controller.SafetyController
    const builder: Override.Builder
    var currentOpening: real
    var downstreamPressure: real
    var overrideCount: nat
    var lockdownCount: nat
    var totalFrames: nat

    ghost predicate Valid()
      reads this, controller, builder
    {
      && Valve.Sound(m) && Ready(config)
      && controller.m == m && controller.config == config.controller
      && builder.Valid()
    }

    ghost function View(): (s: State)
      reads this, controller, builder
    {
      State(controller.View(), currentOpening, downstreamPressure,
            overrideCount, lockdownCount, totalFrames, builder.sequence)
    }

    constructor (m: Valve.MathLib, config: Config, builder: Override.Builder)
      requires Valve.Sound(m) && Ready(config) && builder.Valid()
      ensures Valid() && this.config == config && this.m == m && this.builder == builder
      ensures fresh(controller)
      ensures View() == Start(config, builder.sequence)
    {
      this.m := m;
      this.config := config;
      this.builder := builder;
      controller := new Controller.SafetyController(m, config.controller);
      currentOpening := config.initialOpening;
      downstreamPressure := config.downstream;
      overrideCount, lockdownCount, totalFrames := 0, 0, 0;
    }

    /** sendOk is the outcome of the network send, room whether the output channel has space. */
    method ProcessFrame(f: Frame, now: int, sendOk: bool, room: bool) returns (out: ChokeFrame, delivered: bool)
      requires Valid()
      modifies this`currentOpening, this`overrideCount, this`lockdownCount, this`totalFrames
      modifies controller, builder`sequence
      ensures Valid()
      ensures out.assessment == AssessmentOf(m, config, old(View()), ReadingOf(f, now, old(downstreamPressure)))
      ensures View() == Applied(config, old(View()), ReadingOf(f, now, old(downstreamPressure)), out.assessment)
      ensures Encodable(out.assessment) && out.packet == PacketOf(config, out.assessment, builder.sequence)
      ensures out.opening == old(currentOpening) && out.flow == out.assessment.flow
      ensures out.timestamp == f.timestamp && out.level == out.assessment.level
      ensures out.dPdt == out.assessment.dPdt && out.predicted == out.assessment.predicted
      ensures out.timeToBreach == out.assessment.timeToBreach
      ensures out.overrideSent == (Acts(config, out.assessment) && sendOk)
      ensures delivered == room
    {
      var opening := currentOpening;
      ghost var before := View();
      var r := ReadingOf(f, now, downstreamPressure);
      var a, flow := AssessFrame(r);
      ghost var between := View();
      var packet, sent := Act(a, sendOk);
      AppliedIs(config, before, between, View(), r, a);
      out := ChokeFrame(f.timestamp, a, flow, opening, sent, packet,
                        a.level, a.dPdt, a.predicted, a.timeToBreach);
      delivered := room;
    }

    /** Count the frame, assess it, and solve the flow it reports. */
    method AssessFrame(r: Controller.Reading) returns (a: Controller.Assessment, flow: Valve.Flow)
      requires Valid()
      modifies this`totalFrames, controller
      ensures Valid() && totalFrames == old(totalFrames) + 1
      ensures a == AssessmentOf(m, config, old(View()), r) && Encodable(a) && flow == a.flow
      ensures controller.View() == Controller.Recorded(true, old(controller.View()), r, a)
    {
      totalFrames := totalFrames + 1;
      ghost var before := View();
      AssessmentEncodable(m, config, before, r);
      a := controller.Assess(r, currentOpening);
      FlowTwice(m, r, a, before, config);
      flow := Valve.SolveChokeFlow(m, config.controller.valve,
                                   Valve.Sides(r.pressure, r.temperature, a.flow.upstreamRho, r.downstream),
                                   currentOpening);
    }

    method BuildPacket(a: Controller.Assessment) returns (p: Override.Packet)
      requires Valid() && Encodable(a) && Acts(config, a)
      modifies builder`sequence
      ensures Valid() && builder.sequence == NextSequence(old(builder.sequence))
      ensures PacketOf(config, a, builder.sequence) == Some(p)
    {
      if a.lockdown {
        p := builder.BuildLockdownOverride(config.controller.overrideAddress, config.controller.overrideRegister);
      } else {
        p := builder.BuildEmergencyOverride(config.controller.overrideAddress, config.controller.overrideRegister,
                                            a.opening, a.lockdown);
      }
    }

    /** Build and send the override, count it, and adopt the opening it asks for. */
    method Act(a: Controller.Assessment, sendOk: bool) returns (packet: Option<Override.Packet>, sent: bool)
      requires Valid() && Encodable(a)
      modifies this`currentOpening, this`overrideCount, this`lockdownCount, builder`sequence
      ensures Valid()
      ensures packet == PacketOf(config, a, builder.sequence) && sent == (Acts(config, a) && sendOk)
      ensures currentOpening == (if Acts(config, a) then a.opening else old(currentOpening))
      ensures overrideCount == old(overrideCount) + (if Acts(config, a) && !a.lockdown then 1 else 0)
      ensures lockdownCount == old(lockdownCount) + (if Acts(config, a) && a.lockdown then 1 else 0)
      ensures builder.sequence == Following(Acts(config, a), old(builder.sequence))
    {
      packet, sent := None, false;
      if a.requiresOverride && config.enabled {
        var p := BuildPacket(a);
        if a.lockdown {
          lockdownCount := lockdownCount + 1;
        } else {
          overrideCount := overrideCount + 1;
        }
        sent := sendOk;
        packet := Some(p);
        currentOpening := a.opening;
      }
    }

    method SetCurrentOpening(opening: real)
      modifies this`currentOpening
      ensures View() == old(View()).(opening := Valve.Clamp(opening, 0.0, 1.0))
    {
      var o := opening;
      if o < 0.0 {
        o := 0.0;
      }
      if o > 1.0 {
        o := 1.0;
      }
      currentOpening := o;
    }

    method SetDownstreamPressure(p: real)
      modifies this`downstreamPressure
      ensures View() == old(View()).(downstream := p)
    {
      downstreamPressure := p;
    }
  }

  /** The flow recomputed for the output frame is the one inside the assessment. */
  lemma {:induction false} FlowTwice(m: Valve.MathLib, r: Controller.Reading, a: Controller.Assessment,
                                     s: State, c: Config)
    requires Valve.Sound(m) && Ready(c) && a == AssessmentOf(m, c, s, r)
    ensures a.flow == Valve.SolveChokeFlow(m, c.controller.valve,
                        Valve.Sides(r.pressure, r.temperature, a.flow.upstreamRho, r.downstream), s.opening)
  {}

  // ----- runs

  datatype Event =
    | FrameIn(f: Frame, now: int)
    | SetOpening(opening: real)
    | SetDownstream(p: real)

  function Start(c: Config, sequence: nat): (s: State) {
    State(Controller.Start(), c.initialOpening, c.downstream, 0, 0, 0, sequence)
  }

  function After(m: Valve.MathLib, c: Config, s: State, e: Event): (t: State)
    requires Valve.Sound(m) && Ready(c)
  {
    match e
    case FrameIn(f, now) =>
      var r := ReadingOf(f, now, s.downstream);
      Applied(c, s, r, AssessmentOf(m, c, s, r))
    case SetOpening(opening) => s.(opening := Valve.Clamp(opening, 0.0, 1.0))
    case SetDownstream(p) => s.(downstream := p)
  }

  function Run(m: Valve.MathLib, c: Config, s: State, events: seq<Event>): (t: State)
    requires Valve.Sound(m) && Ready(c)
  {
    if events == [] then s else After(m, c, Run(m, c, s, events[..|events| - 1]), events[|events| - 1])
  }

  /** What every run keeps, for a sequence counter that started at zero. */
  predicate Consistent(c: Config, s: State) {
    && 0.0 <= s.opening <= 1.0
    && s.frames == s.safety.totalAssess
    && s.safety.overrideCount <= s.safety.totalAssess
    && s.overrides + s.lockdowns == (if c.enabled then s.safety.overrideCount else 0)
    && s.sequence == (s.overrides + s.lockdowns) % 0x1_0000_0000
  }

  lemma {:induction false} AppliedConsistent(c: Config, s: State, r: Controller.Reading, a: Controller.Assessment)
    requires Consistent(c, s) && Encodable(a) && (a.lockdown ==> a.opening == c.controller.lockdownOpening)
    requires 0.0 <= c.controller.lockdownOpening <= 1.0
    ensures Consistent(c, Applied(c, s, r, a))
  {
    SequenceStep(s.overrides + s.lockdowns);
  }

  lemma {:induction false} SequenceStep(n: nat)
    ensures NextSequence(n % 0x1_0000_0000) == (n + 1) % 0x1_0000_0000
  {}

  lemma {:induction false} LockdownOpens(m: Valve.MathLib, c: Config, s: State, r: Controller.Reading)
    requires Valve.Sound(m) && Ready(c)
    ensures var a := AssessmentOf(m, c, s, r);
      && (a.lockdown <==> a.level == Threat.Imminent)
      && (a.requiresOverride <==> a.level.Rank() >= 2)
      && (a.lockdown ==> a.opening == c.controller.lockdownOpening)
  {}

  /** Over every run of frames and settings: the opening is a fraction, every frame is
      assessed once, and overrides and lockdowns agree with the controller. */
  lemma {:induction false} RunConsistent(m: Valve.MathLib, c: Config, events: seq<Event>)
    requires Valve.Sound(m) && Ready(c)
    requires 0.0 <= c.initialOpening <= 1.0 && 0.0 <= c.controller.lockdownOpening <= 1.0
    ensures Consistent(c, Run(m, c, Start(c, 0), events))
  {
    if events != [] {
      var u, e := events[..|events| - 1], events[|events| - 1];
      var s := Run(m, c, Start(c, 0), u);
      RunConsistent(m, c, u);
      if e.FrameIn? {
        var r := ReadingOf(e.f, e.now, s.downstream);
        AssessmentEncodable(m, c, s, r);
        LockdownOpens(m, c, s, r);
        AppliedConsistent(c, s, r, AssessmentOf(m, c, s, r));
      }
    }
  }

  // ----- the packets built over a run

  /** The packet an event makes the interceptor build, if any. */
  function PacketsAt(m: Valve.MathLib, c: Config, s: State, e: Event): (p: seq<Override.Packet>)
    requires Valve.Sound(m) && Ready(c)
  {
    if !e.FrameIn? then []
    else
      var r := ReadingOf(e.f, e.now, s.downstream);
      AssessmentEncodable(m, c, s, r);
      match PacketOf(c, AssessmentOf(m, c, s, r), NextSequence(s.sequence))
      case None => []
      case Some(p) => [p]
  }

  function Packets(m: Valve.MathLib, c: Config, s: State, events: seq<Event>): (p: seq<Override.Packet>)
    requires Valve.Sound(m) && Ready(c)
  {
    if events == [] then []
    else
      var front := events[..|events| - 1];
      Packets(m, c, s, front) + PacketsAt(m, c, Run(m, c, s, front), events[|events| - 1])
  }

  function Emergencies(p: seq<Override.Packet>): (n: nat) {
    if p == [] then 0
    else
      Emergencies(p[..|p| - 1]) + if p[|p| - 1].command.priority == 0xFF then 1 else 0
  }

  /** What the log of packets says about the counters. */
  ghost predicate Logged(c: Config, s: State, log: seq<Override.Packet>) {
    && |log| == s.overrides + s.lockdowns && Emergencies(log) == s.lockdowns
    && s.sequence == |log| % 0x1_0000_0000
    && forall i :: 0 <= i < |log| ==> InOrder(c, log[i], i)
  }

  /** Packet i is addressed to the valve, validates and bears the number i + 1, up to wrap-around. */
  predicate InOrder(c: Config, p: Override.Packet, i: nat) {
    && p.command.sequence == (i + 1) % 0x1_0000_0000 && Crc16.IsValid(p.raw)
    && p.command.slave == c.controller.overrideAddress && p.command.register == c.controller.overrideRegister
    && (p.command.priority == 0xFF || p.command.priority == 0x80)
  }

  lemma {:induction false} PacketIs(c: Config, a: Controller.Assessment, sequence: nat)
    requires Encodable(a) && Acts(c, a)
    ensures PacketOf(c, a, sequence).Some?
    ensures var p := PacketOf(c, a, sequence).value;
      && p.command.sequence == sequence && Crc16.IsValid(p.raw)
      && p.command.slave == c.controller.overrideAddress && p.command.register == c.controller.overrideRegister
      && p.command.priority == (if a.lockdown then 0xFF else 0x80)
  {
    var p := PacketOf(c, a, sequence).value;
    Override.AppendIsValid(Override.SingleBody(p.command));
  }

  lemma {:induction false} LogPacket(c: Config, s: State, log: seq<Override.Packet>, a: Controller.Assessment,
                                     r: Controller.Reading)
    requires Logged(c, s, log) && Encodable(a) && Acts(c, a)
    ensures PacketOf(c, a, NextSequence(s.sequence)).Some?
    ensures Logged(c, Applied(c, s, r, a), log + [PacketOf(c, a, NextSequence(s.sequence)).value])
  {
    PacketIs(c, a, NextSequence(s.sequence));
    SequenceStep(|log|);
    var p := PacketOf(c, a, NextSequence(s.sequence)).value;
    assert (log + [p])[..|log|] == log;
  }

  /** Over every run, overrides plus lockdowns is the number of packets built, lockdowns the number of
      emergency ones, and the packets are numbered in the order they were built. */
  lemma {:induction false} RunLogsPackets(m: Valve.MathLib, c: Config, events: seq<Event>)
    requires Valve.Sound(m) && Ready(c)
    ensures Logged(c, Run(m, c, Start(c, 0), events), Packets(m, c, Start(c, 0), events))
  {
    if events != [] {
      var u, e := events[..|events| - 1], events[|events| - 1];
      var s, log := Run(m, c, Start(c, 0), u), Packets(m, c, Start(c, 0), u);
      RunLogsPackets(m, c, u);
      if e.FrameIn? {
        var r := ReadingOf(e.f, e.now, s.downstream);
        var a := AssessmentOf(m, c, s, r);
        AssessmentEncodable(m, c, s, r);
        if Acts(c, a) {
          LogPacket(c, s, log, a, r);
        } else {
          LockdownOpens(m, c, s, r);
          assert log + [] == log;
        }
      } else {
        assert log + [] == log;
      }
    }
  }

  // ----- the vapour flux read from a frame

  /** The frame carries the vapour velocity, density and void fraction of a solved flow. */
  predicate Solved(f: Frame, x: real, G: real, rhoL: real)
    requires rhoL > 0.0 && f.vaporDensity > 0.0 && 0.0 <= x <= 1.0
  {
    f.vaporVelocity == DriftFlux.Velocities(x, f.voidFraction, G, rhoL, f.vaporDensity).1
  }

  /** The vapour flux read from a solved frame is the share of the mass flux that is vapour. */
  lemma {:induction false} VaporFluxIsQuality(f: Frame, now: int, downstream: real, x: real, G: real, rhoL: real)
    requires rhoL > 0.0 && f.vaporDensity > 0.0 && 0.0 <= x <= 1.0 && Solved(f, x, G, rhoL)
    requires 0.0 < f.voidFraction < 1.0
    ensures ReadingOf(f, now, downstream) == Controller.Reading(now, f.pressure, f.temperature, x * G, downstream)
  {
    var v, a, rho := f.vaporVelocity, f.voidFraction, f.vaporDensity;
    assert v == DriftFlux.VaporVelocity(x, a, G, rho);
    Regroup(v, rho, a, x * G);
  }

  lemma {:induction false} Regroup(v: real, rho: real, a: real, y: real)
    requires v * (a * rho) == y
    ensures v * rho * a == y
  {}

  /** The mass flow through the valve at an opening, for the conditions read. */
  function FlowAt(m: Valve.MathLib, c: Config, r: Controller.Reading, opening: real): (f: real)
    requires Valve.Sound(m) && Ready(c)
  {
    Valve.SolveChokeFlow(m, c.controller.valve, Controller.SidesOf(r), opening).massFlow
  }

  /** An enabled interceptor answers a Critical frame by adopting the opening that passes 0.3 of the vapour
      that arrives, cut to what the valve can pass; without vapour or a pressure drop it opens fully. */
  lemma {:induction false} CriticalThrottles(m: Valve.MathLib, c: Config, s: State, f: Frame, now: int,
                                             x: real, G: real, rhoL: real)
    requires ValveTheory.Lawful(m) && Ready(c) && c.enabled
    requires rhoL > 0.0 && f.vaporDensity > 0.0 && 0.0 <= x <= 1.0 && Solved(f, x, G, rhoL)
    requires 0.0 < f.voidFraction < 1.0
    requires AssessmentOf(m, c, s, ReadingOf(f, now, s.downstream)).level == Threat.Critical
    ensures var r := Controller.Reading(now, f.pressure, f.temperature, x * G, s.downstream);
      var o := After(m, c, s, FrameIn(f, now)).opening;
      if ControllerTheory.Passable(r)
      then ControllerTheory.Passes(FlowAt(m, c, r, o), 0.3 * (x * G), FlowAt(m, c, r, 1.0))
      else o == 1.0
  {
    var r := ReadingOf(f, now, s.downstream);
    VaporFluxIsQuality(f, now, s.downstream, x, G, rhoL);
    var d := Derivatives.Both(c.controller.minSamples, Controller.Grown(true, s.safety.samples, r));
    ControllerTheory.AssessmentThrottles(m, c.controller, d.0, d.1, r, s.opening);
  }

  // ----- single frames

  /** At or above the pressure limit the valve is locked down, with an emergency packet
      that validates and parses back to value 0. */
  lemma {:induction false} LimitLocksDown(m: Valve.MathLib, c: Config, s: State, f: Frame, now: int, sequence: nat)
    requires Valve.Sound(m) && Ready(c) && c.enabled && f.pressure >= c.controller.limits.pressureLimit
    ensures var a := AssessmentOf(m, c, s, ReadingOf(f, now, s.downstream));
      && After(m, c, s, FrameIn(f, now)).opening == c.controller.lockdownOpening
      && Encodable(a) && PacketOf(c, a, sequence).Some?
      && LockdownRequest(c, PacketOf(c, a, sequence).value)
  {
    var r := ReadingOf(f, now, s.downstream);
    AssessmentEncodable(m, c, s, r);
    LockdownOpens(m, c, s, r);
    AtLimitImminent(m, c, s, r);
    LockdownPacketIs(c, sequence);
  }

  lemma {:induction false} AtLimitImminent(m: Valve.MathLib, c: Config, s: State, r: Controller.Reading)
    requires Valve.Sound(m) && Ready(c) && r.pressure >= c.controller.limits.pressureLimit
    ensures AssessmentOf(m, c, s, r).level == Threat.Imminent
  {}

  predicate LockdownRequest(c: Config, p: Override.Packet) {
    && Crc16.IsValid(p.raw)
    && p.command.priority == 0xFF
    && Override.ParseSingle(p.raw)
       == Some(Override.SingleRequest(c.controller.overrideAddress, c.controller.overrideRegister, 0))
  }

  lemma {:induction false} LockdownPacketIs(c: Config, sequence: nat)
    ensures LockdownRequest(c, Override.LockdownPacket(c.controller.overrideAddress,
                                                       c.controller.overrideRegister, sequence))
  {
    var p := Override.LockdownPacket(c.controller.overrideAddress, c.controller.overrideRegister, sequence);
    Override.SingleRoundTrip(p.command);
    Override.AppendIsValid(Override.SingleBody(p.command));
  }

  /** The opening moves only when the interceptor acts, that is on a Critical or Imminent
      frame while enabled, or when it is set. */
  predicate Quiet(m: Valve.MathLib, c: Config, s: State, e: Event)
    requires Valve.Sound(m) && Ready(c)
  {
    match e
    case FrameIn(f, now) =>
      !c.enabled || AssessmentOf(m, c, s, ReadingOf(f, now, s.downstream)).level.Rank() < 2
    case SetOpening(_) => false
    case SetDownstream(_) => true
  }

  predicate QuietRun(m: Valve.MathLib, c: Config, s: State, events: seq<Event>)
    requires Valve.Sound(m) && Ready(c)
  {
    forall i :: 0 <= i < |events| ==> Quiet(m, c, Run(m, c, s, events[..i]), events[i])
  }

  lemma {:induction false} QuietStep(m: Valve.MathLib, c: Config, s: State, e: Event)
    requires Valve.Sound(m) && Ready(c) && Quiet(m, c, s, e)
    ensures After(m, c, s, e).opening == s.opening
  {
    if e.FrameIn? {
      LockdownOpens(m, c, s, ReadingOf(e.f, e.now, s.downstream));
    }
  }

  /** Through any quiet run, a lockdown in particular stays in force. */
  lemma {:induction false} QuietRunKeepsOpening(m: Valve.MathLib, c: Config, s: State, events: seq<Event>)
    requires Valve.Sound(m) && Ready(c) && QuietRun(m, c, s, events)
    ensures Run(m, c, s, events).opening == s.opening
  {
    if events != [] {
      var k := |events| - 1;
      var u := events[..k];
      forall i | 0 <= i < |u|
        ensures Quiet(m, c, Run(m, c, s, u[..i]), u[i])
      {
        assert u[..i] == events[..i];
      }
      QuietRunKeepsOpening(m, c, s, u);
      assert Quiet(m, c, Run(m, c, s, events[..k]), events[k]);
      QuietStep(m, c, Run(m, c, s, u), events[k]);
    }
  }

  /** Every packet carries floor(1000 * new opening), except that a lockdown always carries
      0, which agrees with the new opening exactly when LockdownOpening is below 0.001. */
  lemma {:induction false} PacketMatchesOpening(m: Valve.MathLib, c: Config, s: State, f: Frame,
                                                now: int, sequence: nat)
    requires Valve.Sound(m) && Ready(c) && 0.0 <= c.controller.lockdownOpening <= 1.0
    ensures var a := AssessmentOf(m, c, s, ReadingOf(f, now, s.downstream));
      var after := After(m, c, s, FrameIn(f, now));
      Encodable(a) && (PacketOf(c, a, sequence).Some? <==> c.enabled && a.level.Rank() >= 2)
      && (PacketOf(c, a, sequence).Some? ==>
            var v := PacketOf(c, a, sequence).value.command.value;
            (v == (after.opening * 1000.0).Floor <==> (a.lockdown ==> c.controller.lockdownOpening < 0.001)))
  {
    var r := ReadingOf(f, now, s.downstream);
    var a := AssessmentOf(m, c, s, r);
    AssessmentEncodable(m, c, s, r);
    LockdownOpens(m, c, s, r);
    if Acts(c, a) && !a.lockdown {
      Override.OpeningRoundTrip(a.opening);
    }
  }
}
