/** The worker pipeline as a step system: decoder workers, the solver's own loop and solver workers
    move messages over bounded channels, one atomic operation at a time, in any order.

    A message is named by its place in the order of acceptance; `inputs` holds its bytes. */
module Pipeline {
  import opened Words
  import opened Wrappers
  import Protocol

  /** One atomic increment inside a decode call. */
  datatype Bump = Total | Invalid | Noise | Truncated | Oversized

  /** What decoding and extracting a message comes to: the increments it makes, in order, and
      whether it yields a sensor record. */
  datatype Verdict = Verdict(bumps: seq<Bump>, usable: bool)

  /** Workers are numbered: first the decoders, then the solver's own loop, then the solver workers. */
  datatype Config = Config(decoders: nat, solvers: nat, rawSize: nat, decodedSize: nat, frameSize: nat,
                           errorSize: nat, decode: seq<byte> -> Verdict)

  datatype Role = Decoder | OwnLoop | Solver

  function Workers(c: Config): (n: nat) {
    c.decoders + 1 + c.solvers
  }

  function RoleOf(c: Config, i: nat): (r: Role) {
    if i < c.decoders then Decoder else if i == c.decoders then OwnLoop else Solver
  }

  datatype Phase =
    | Head                                    // about to test the running flag
    | Select                                  // waiting for a message or for cancellation
    | Took(id: nat)
    | Decoding(id: nat, pending: seq<Bump>)   // inside a decode call, with these increments to come
    | Failing(id: nat)                        // about to report an error
    | Sending(id: nat)                        // about to pass the result on
    | Stopped(lost: Option<nat>)              // gone, perhaps with the message it held

  /** The counters other than the decoder's. */
  datatype Stats = Stats(decodedDropped: nat, frameDropped: nat, errDropped: nat,
                         totalFrames: nat, failedFrames: nat, outputDropped: nat, errorDropped: nat)

  /** Where messages have ended up. */
  datatype Ledger = Ledger(skipped: seq<nat>, decodedDropped: seq<nat>, frameDropped: seq<nat>, outputDropped: seq<nat>,
                           errDropped: seq<nat>, errorDropped: seq<nat>, forwarded: seq<nat>, handled: seq<nat>)

  datatype Channels = Channels(raw: seq<nat>, decoded: seq<nat>, frames: seq<nat>, errors: seq<nat>)

  datatype Flags = Flags(rawClosed: bool, running: bool, cancelled: bool, solverRunning: bool, solverCancelled: bool)

  /** calls lists the decode calls begun; ownTaken counts the records the solver's own loop took. */
  datatype State = State(inputs: seq<seq<byte>>, chans: Channels, flags: Flags, workers: seq<Phase>,
                         counters: Protocol.Counters, stats: Stats, ended: Ledger,
                         calls: seq<seq<byte>>, ownTaken: nat)

  /** The moves of a worker; solved is what the solver makes of a record. */
  datatype Move = Begin | Leave | SeeCancel | SeeClosed | Receive | Work(solved: bool) | Send | Lose | Drop

  datatype Action =
    | Offer(bytes: seq<byte>)     // a gateway puts bytes on the raw channel
    | Do(i: nat, move: Move)
    | ConsumeFrame | ConsumeError
    | StopPipeline | CancelPipeline | CloseRaw | StopSolver | CancelSolver

  function Init(c: Config): (s: State) {
    State([], Channels([], [], [], []), Flags(false, true, false, true, false), seq(Workers(c), _ => Head),
          Protocol.ZEROS, Stats(0, 0, 0, 0, 0, 0, 0), Ledger([], [], [], [], [], [], [], []), [], 0)
  }

  // ----- the decoder's part

  /** The increments for a frame of acceptable length. */
  function BodyBumps(short: bool, valid: bool): (b: seq<Bump>) {
    if short then if valid then [Total, Truncated] else [Total, Truncated, Invalid, Noise]
    else if valid then [Total] else [Total, Invalid, Noise]
  }

  function Bumps(raw: seq<byte>): (b: seq<Bump>)
    ensures |b| <= 4
  {
    if |raw| == 0 then [Invalid]
    else if |raw| > Protocol.MAX_ALLOWED then [Oversized, Invalid]
    else if |raw| < Protocol.MIN_LENGTH then [Truncated, Invalid]
    else BodyBumps(Protocol.Short(raw), Protocol.Decode(raw).error == None)
  }

  function ModbusVerdict(raw: seq<byte>): (v: Verdict) {
    var o := Protocol.Decode(raw);
    Verdict(Bumps(raw), o.error == None && Protocol.Extract(o.frame).Ok?)
  }

  function Bumped(c: Protocol.Counters, b: Bump): (d: Protocol.Counters) {
    match b
    case Total => c.(total := c.total + 1)
    case Invalid => c.(invalid := c.invalid + 1)
    case Noise => c.(noise := c.noise + 1)
    case Truncated => c.(truncated := c.truncated + 1)
    case Oversized => c.(oversized := c.oversized + 1)
  }

  // ----- steps

  predicate Running(c: Config, s: State, i: nat) {
    if RoleOf(c, i).OwnLoop? then s.flags.solverRunning else s.flags.running
  }

  predicate Cancelled(c: Config, s: State, i: nat) {
    if RoleOf(c, i).OwnLoop? then s.flags.solverCancelled else s.flags.cancelled
  }

  function Source(c: Config, s: State, i: nat): (q: seq<nat>) {
    if RoleOf(c, i).Decoder? then s.chans.raw else s.chans.decoded
  }

  predicate TargetFull(c: Config, s: State, i: nat) {
    if RoleOf(c, i).Decoder? then |s.chans.decoded| >= c.decodedSize else |s.chans.frames| >= c.frameSize
  }

  /** A send waits for nobody: it goes through if there is room, gives up if the worker's context
      is done, and is dropped only when neither is possible. Pipeline errors ignore the context. */
  predicate CanEnd(full: bool, cancellable: bool, m: Move) {
    match m
    case Send => !full
    case Lose => cancellable
    case Drop => full && !cancellable
    case _ => false
  }

  predicate MoveEnabled(c: Config, s: State, i: nat, m: Move)
    requires i < |s.workers|
  {
    match s.workers[i]
    case Head => m == if Running(c, s, i) then Begin else Leave
    case Select =>
      || (m.SeeCancel? && Cancelled(c, s, i))
      || (m.Receive? && Source(c, s, i) != [])
      || (m.SeeClosed? && RoleOf(c, i).Decoder? && s.flags.rawClosed && s.chans.raw == [])
    case Took(_) => m.Work?
    case Decoding(_, _) => m.Work?
    case Failing(_) =>
      CanEnd(|s.chans.errors| >= c.errorSize, RoleOf(c, i).OwnLoop? && s.flags.solverCancelled, m)
    case Sending(_) => CanEnd(TargetFull(c, s, i), Cancelled(c, s, i), m)
    case Stopped(_) => false
  }

  predicate Enabled(c: Config, s: State, a: Action) {
    match a
    case Offer(_) => !s.flags.rawClosed && |s.chans.raw| < c.rawSize
    case Do(i, m) => i < |s.workers| && MoveEnabled(c, s, i, m)
    case ConsumeFrame => s.chans.frames != []
    case ConsumeError => s.chans.errors != []
    case StopPipeline => s.flags.running
    case CancelPipeline => !s.flags.running
    case CloseRaw => s.flags.cancelled
    case StopSolver => s.flags.solverRunning
    case CancelSolver => !s.flags.solverRunning
  }

  function SetPhase(s: State, i: nat, p: Phase): (t: State)
    requires i < |s.workers|
  {
    s.(workers := s.workers[i := p])
  }

  function TakeNext(c: Config, s: State, i: nat): (t: State)
    requires i < |s.workers| && Source(c, s, i) != []
  {
    var t := SetPhase(s, i, Took(Source(c, s, i)[0]));
    if RoleOf(c, i).Decoder? then t.(chans := s.chans.(raw := s.chans.raw[1..]))
    else t.(chans := s.chans.(decoded := s.chans.decoded[1..]),
           ownTaken := s.ownTaken + if RoleOf(c, i).OwnLoop? then 1 else 0)
  }

  /** An empty message is skipped; any other is decoded. */
  function StartDecode(c: Config, s: State, i: nat, id: nat): (t: State)
    requires i < |s.workers| && id < |s.inputs|
  {
    var bytes := s.inputs[id];
    if bytes == [] then SetPhase(s, i, Head).(ended := s.ended.(skipped := s.ended.skipped + [id]))
    else SetPhase(s, i, Decoding(id, c.decode(bytes).bumps)).(calls := s.calls + [bytes])
  }

  /** A message that yields a record goes on; any other becomes an error. */
  function GoOnDecoding(c: Config, s: State, i: nat, id: nat, pending: seq<Bump>): (t: State)
    requires i < |s.workers| && id < |s.inputs|
  {
    if pending != [] then
      SetPhase(s, i, Decoding(id, pending[1..])).(counters := Bumped(s.counters, pending[0]))
    else SetPhase(s, i, if c.decode(s.inputs[id]).usable then Sending(id) else Failing(id))
  }

  function Solve(c: Config, s: State, i: nat, id: nat, solved: bool): (t: State)
    requires i < |s.workers|
  {
    var t := SetPhase(s, i, if solved then Sending(id) else Failing(id));
    if !RoleOf(c, i).OwnLoop? then t
    else if solved then t.(stats := s.stats.(totalFrames := s.stats.totalFrames + 1))
    else t.(stats := s.stats.(failedFrames := s.stats.failedFrames + 1))
  }

  function DropError(c: Config, s: State, i: nat, id: nat): (t: State) {
    if RoleOf(c, i).OwnLoop? then
      s.(stats := s.stats.(errorDropped := s.stats.errorDropped + 1),
         ended := s.ended.(errorDropped := s.ended.errorDropped + [id]))
    else
      s.(stats := s.stats.(errDropped := s.stats.errDropped + 1),
         ended := s.ended.(errDropped := s.ended.errDropped + [id]))
  }

  function EndFailing(c: Config, s: State, i: nat, id: nat, m: Move): (t: State)
    requires i < |s.workers|
  {
    if m.Lose? then SetPhase(s, i, Stopped(Some(id)))
    else if m.Send? then SetPhase(s, i, Head).(chans := s.chans.(errors := s.chans.errors + [id]))
    else DropError(c, SetPhase(s, i, Head), i, id)
  }

  function Deliver(c: Config, h: Channels, i: nat, id: nat): (k: Channels) {
    if RoleOf(c, i).Decoder? then h.(decoded := h.decoded + [id]) else h.(frames := h.frames + [id])
  }

  function CountDrop(r: Role, st: Stats): (t: Stats) {
    match r
    case Decoder => st.(decodedDropped := st.decodedDropped + 1)
    case OwnLoop => st.(outputDropped := st.outputDropped + 1)
    case Solver => st.(frameDropped := st.frameDropped + 1)
  }

  function EnterDrop(r: Role, l: Ledger, id: nat): (k: Ledger) {
    match r
    case Decoder => l.(decodedDropped := l.decodedDropped + [id])
    case OwnLoop => l.(outputDropped := l.outputDropped + [id])
    case Solver => l.(frameDropped := l.frameDropped + [id])
  }

  function DropResult(c: Config, s: State, i: nat, id: nat): (t: State) {
    s.(stats := CountDrop(RoleOf(c, i), s.stats), ended := EnterDrop(RoleOf(c, i), s.ended, id))
  }

  function EndSending(c: Config, s: State, i: nat, id: nat, m: Move): (t: State)
    requires i < |s.workers|
  {
    if m.Lose? then SetPhase(s, i, Stopped(Some(id)))
    else if m.Send? then SetPhase(s, i, Head).(chans := Deliver(c, s.chans, i, id))
    else DropResult(c, SetPhase(s, i, Head), i, id)
  }

  /** Every message held is one that was accepted. */
  ghost predicate Known(s: State) {
    forall i :: 0 <= i < |s.workers| ==> forall id: nat :: Holds(s.workers[i], id) ==> id < |s.inputs|
  }

  predicate Holds(p: Phase, id: nat) {
    match p
    case Head => false
    case Select => false
    case Took(k) => k == id
    case Decoding(k, _) => k == id
    case Failing(k) => k == id
    case Sending(k) => k == id
    case Stopped(lost) => lost == Some(id)
  }

  function WorkerStep(c: Config, s: State, i: nat, m: Move): (t: State)
    requires i < |s.workers| && MoveEnabled(c, s, i, m)
    requires Known(s)
  {
    match s.workers[i]
    case Head => SetPhase(s, i, if m.Begin? then Select else Stopped(None))
    case Select => if m.Receive? then TakeNext(c, s, i) else SetPhase(s, i, Stopped(None))
    case Took(id) =>
      assert Holds(s.workers[i], id);
      if RoleOf(c, i).Decoder? then StartDecode(c, s, i, id) else Solve(c, s, i, id, m.solved)
    case Decoding(id, pending) =>
      assert Holds(s.workers[i], id);
      GoOnDecoding(c, s, i, id, pending)
    case Failing(id) => EndFailing(c, s, i, id, m)
    case Sending(id) => EndSending(c, s, i, id, m)
  }

  function Apply(c: Config, s: State, a: Action): (t: State)
    requires Enabled(c, s, a) && Known(s)
  {
    match a
    case Offer(bytes) => s.(inputs := s.inputs + [bytes], chans := s.chans.(raw := s.chans.raw + [|s.inputs|]))
    case Do(i, m) => WorkerStep(c, s, i, m)
    case ConsumeFrame =>
      s.(chans := s.chans.(frames := s.chans.frames[1..]),
         ended := s.ended.(forwarded := s.ended.forwarded + [s.chans.frames[0]]))
    case ConsumeError =>
      s.(chans := s.chans.(errors := s.chans.errors[1..]),
         ended := s.ended.(handled := s.ended.handled + [s.chans.errors[0]]))
    case StopPipeline => s.(flags := s.flags.(running := false))
    case CancelPipeline => s.(flags := s.flags.(cancelled := true))
    case CloseRaw => s.(flags := s.flags.(rawClosed := true))
    case StopSolver => s.(flags := s.flags.(solverRunning := false))
    case CancelSolver => s.(flags := s.flags.(solverCancelled := true))
  }
}
