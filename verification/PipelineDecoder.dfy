/** The decoder's counters, shared by all decoder workers and bumped one at a time. */
module PipelineDecoder {
  import opened Words
  import opened Wrappers
  import Protocol
  import opened Pipeline
  import opened PipelineTheory
  import PipelineRuns

  /** The counter that an increment goes to. */
  function Value(c: Protocol.Counters, b: Bump): (n: nat) {
    match b
    case Total => c.total
    case Invalid => c.invalid
    case Noise => c.noise
    case Truncated => c.truncated
    case Oversized => c.oversized
  }

  function Number(bumps: seq<Bump>, b: Bump): (n: nat) {
    if bumps == [] then 0 else One(bumps[0] == b) + Number(bumps[1..], b)
  }

  /** The increments of one kind that a worker, or all of them, still owe. */
  function Owes(p: Phase, b: Bump): (n: nat) {
    if p.Decoding? then Number(p.pending, b) else 0
  }

  function Owed(ws: seq<Phase>, b: Bump): (n: nat) {
    if ws == [] then 0 else Owes(ws[0], b) + Owed(ws[1..], b)
  }

  lemma {:induction false} OwedChange(ws: seq<Phase>, i: nat, p: Phase, b: Bump)
    requires i < |ws|
    ensures Owed(ws[i := p], b) + Owes(ws[i], b) == Owed(ws, b) + Owes(p, b)
  {
    if i == 0 {
      assert ws[0 := p][1..] == ws[1..];
    } else {
      OwedChange(ws[1..], i - 1, p, b);
      assert ws[i := p][1..] == ws[1..][i - 1 := p];
    }
  }

  lemma {:induction false} ShortList(x: Bump, rest: seq<Bump>, b: Bump)
    ensures Number([x] + rest, b) == One(x == b) + Number(rest, b)
  {
    assert ([x] + rest)[1..] == rest;
  }

  lemma {:induction false} BodyNumber(short: bool, valid: bool, b: Bump)
    ensures Number(BodyBumps(short, valid), b)
         == One(b.Total?) + One(b.Truncated? && short) + One((b.Invalid? || b.Noise?) && !valid)
  {
    var bad := if valid then [] else [Invalid, Noise];
    var more := if short then [Truncated] + bad else bad;
    assert BodyBumps(short, valid) == [Total] + more;
    ShortList(Total, more, b);
    ShortList(Truncated, bad, b);
    ShortList(Invalid, [Noise], b);
    ShortList(Noise, [], b);
    assert [Invalid] + [Noise] == [Invalid, Noise] && [Noise] + [] == [Noise];
  }

  lemma {:induction false} PairNumber(x: Bump, y: Bump, b: Bump)
    ensures Number([x], b) == One(x == b) && Number([x, y], b) == One(x == b) + One(y == b)
  {
    ShortList(x, [y], b);
    ShortList(x, [], b);
    ShortList(y, [], b);
    assert [x] + [y] == [x, y] && [y] + [] == [y] && [x] + [] == [x];
  }

  /** The increments of one call add up to what the decoder's contract says. */
  lemma {:induction false} BumpsCount(c: Protocol.Counters, raw: seq<byte>, b: Bump)
    ensures Value(Protocol.Count(c, raw), b) == Value(c, b) + Number(Bumps(raw), b)
  {
    if |raw| == 0 {
      PairNumber(Invalid, Invalid, b);
    } else if |raw| > Protocol.MAX_ALLOWED {
      PairNumber(Oversized, Invalid, b);
    } else if |raw| < Protocol.MIN_LENGTH {
      PairNumber(Truncated, Invalid, b);
    } else {
      BodyNumber(Protocol.Short(raw), Protocol.Decode(raw).error == None, b);
    }
  }

  // ----- runs

  /** The pipeline's decoder is the Modbus decoder. */
  ghost predicate Modbus(c: Config) {
    forall raw :: c.decode(raw) == ModbusVerdict(raw)
  }

  /** The counters are those of the calls begun, less the increments still owed. */
  ghost predicate InStep(s: State, b: Bump) {
    Value(s.counters, b) + Owed(s.workers, b) == Value(Protocol.CountAll(Protocol.ZEROS, s.calls), b)
  }

  lemma {:induction false} StartInStep(c: Config, s: State, i: nat, k: nat, b: Bump)
    requires Modbus(c) && i < |s.workers| && s.workers[i] == Took(k) && k < |s.inputs| && InStep(s, b)
    ensures InStep(StartDecode(c, s, i, k), b)
  {
    var bytes := s.inputs[k];
    OwedChange(s.workers, i, Head, b);
    assert c.decode(bytes) == ModbusVerdict(bytes);
    OwedChange(s.workers, i, Decoding(k, Bumps(bytes)), b);
    BumpsCount(Protocol.CountAll(Protocol.ZEROS, s.calls), bytes, b);
    assert (s.calls + [bytes])[..|s.calls|] == s.calls;
  }

  lemma {:induction false} GoOnInStep(c: Config, s: State, i: nat, k: nat, pending: seq<Bump>, b: Bump)
    requires i < |s.workers| && s.workers[i] == Decoding(k, pending) && k < |s.inputs| && InStep(s, b)
    ensures InStep(GoOnDecoding(c, s, i, k, pending), b)
  {
    if pending != [] {
      OwedChange(s.workers, i, Decoding(k, pending[1..]), b);
      assert Value(Bumped(s.counters, pending[0]), b) == Value(s.counters, b) + One(pending[0] == b);
    } else {
      OwedChange(s.workers, i, Sending(k), b);
      OwedChange(s.workers, i, Failing(k), b);
    }
  }

  lemma {:induction false} OtherMoves(c: Config, s: State, i: nat, m: Move)
    requires Known(s) && i < |s.workers| && MoveEnabled(c, s, i, m)
    requires !s.workers[i].Decoding? && !(s.workers[i].Took? && RoleOf(c, i).Decoder?)
    ensures var t := WorkerStep(c, s, i, m);
            t.counters == s.counters && t.calls == s.calls && !t.workers[i].Decoding?
  {
    match s.workers[i]
    case Failing(k) => assert EndFailing(c, s, i, k, m).workers[i] in {Head, Stopped(Some(k))};
    case Sending(k) => assert EndSending(c, s, i, k, m).workers[i] in {Head, Stopped(Some(k))};
    case _ =>
  }

  lemma {:induction false} StepInStep(c: Config, s: State, a: Action, b: Bump)
    requires Modbus(c) && Known(s) && Enabled(c, s, a) && InStep(s, b)
    ensures InStep(Apply(c, s, a), b)
  {
    if a.Do? {
      var i, p := a.i, s.workers[a.i];
      if p.Took? && RoleOf(c, i).Decoder? {
        assert Holds(p, p.id);
        StartInStep(c, s, i, p.id, b);
      } else if p.Decoding? {
        assert Holds(p, p.id);
        GoOnInStep(c, s, i, p.id, p.pending, b);
      } else {
        OtherMoves(c, s, i, a.move);
        OnlyOneWorkerMoves(c, s, i, a.move);
        OwedChange(s.workers, i, Apply(c, s, a).workers[i], b);
      }
    }
  }

  lemma {:induction false} IdleOwesNothing(n: nat, b: Bump)
    ensures Owed(seq(n, _ => Head), b) == 0
  {
    if n > 0 {
      IdleOwesNothing(n - 1, b);
      assert seq(n, _ => Head)[1..] == seq(n - 1, _ => Head);
    }
  }

  lemma {:induction false} RunInStep(c: Config, states: seq<State>, actions: seq<Action>, k: nat, b: Bump)
    requires Modbus(c) && PipelineRuns.IsRun(c, states, actions) && k < |states|
    ensures InStep(states[k], b)
  {
    if k == 0 {
      IdleOwesNothing(Workers(c), b);
    } else {
      RunInStep(c, states, actions, k - 1, b);
      StepInStep(c, states[k - 1], actions[k - 1], b);
    }
  }

  /** No worker is between two increments of a decode call. */
  ghost predicate Quiet(ws: seq<Phase>) {
    forall i :: 0 <= i < |ws| ==> ws[i].Decoding? ==> ws[i].pending == []
  }

  lemma {:induction false} QuietOwesNothing(ws: seq<Phase>, b: Bump)
    requires Quiet(ws)
    ensures Owed(ws, b) == 0
  {
    if ws != [] {
      assert ws[0].Decoding? ==> ws[0].pending == [];
      QuietOwesNothing(ws[1..], b);
    }
  }

  /** However the workers' increments interleave, the counters are at every moment those of the same
      calls made one after another, less the increments still to come; hence the number of calls is
      total + invalid - noise as soon as no call is halfway. */
  lemma {:induction false} SharedCounters(c: Config, states: seq<State>, actions: seq<Action>, k: nat)
    requires Modbus(c) && PipelineRuns.IsRun(c, states, actions) && k < |states|
    ensures var s := states[k]; var n := s.counters;
            && n.total + n.invalid - n.noise
               + Owed(s.workers, Total) + Owed(s.workers, Invalid) - Owed(s.workers, Noise) == |s.calls|
            && (Quiet(s.workers) ==>
                  n == Protocol.CountAll(Protocol.ZEROS, s.calls) && n.total + n.invalid - n.noise == |s.calls|)
  {
    var s := states[k];
    Protocol.EveryDecodeIsCounted(s.calls);
    RunInStep(c, states, actions, k, Total);
    RunInStep(c, states, actions, k, Invalid);
    RunInStep(c, states, actions, k, Noise);
    if Quiet(s.workers) {
      RunInStep(c, states, actions, k, Truncated);
      RunInStep(c, states, actions, k, Oversized);
      forall b: Bump
        ensures Owed(s.workers, b) == 0
      {
        QuietOwesNothing(s.workers, b);
      }
    }
  }
}
