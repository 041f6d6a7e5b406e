/** What every run of the pipeline keeps, whatever the interleaving. */
module PipelineTheory {
  import opened Wrappers
  import opened Pipeline

  // ----- weighing the messages in the system

  function One(b: bool): (n: nat) {
    if b then 1 else 0
  }

  /** The total weight of the messages in a queue. */
  function Sum(q: seq<nat>, w: nat -> nat): (n: nat) {
    if q == [] then 0 else w(q[0]) + Sum(q[1..], w)
  }

  function InHand(p: Phase, w: nat -> nat): (n: nat) {
    match p
    case Head => 0
    case Select => 0
    case Took(id) => w(id)
    case Decoding(id, _) => w(id)
    case Failing(id) => w(id)
    case Sending(id) => w(id)
    case Stopped(lost) => if lost.Some? then w(lost.value) else 0
  }

  function Held(ws: seq<Phase>, w: nat -> nat): (n: nat) {
    if ws == [] then 0 else InHand(ws[0], w) + Held(ws[1..], w)
  }

  function Queued(h: Channels, w: nat -> nat): (n: nat) {
    Sum(h.raw, w) + Sum(h.decoded, w) + Sum(h.frames, w) + Sum(h.errors, w)
  }

  function Settled(l: Ledger, w: nat -> nat): (n: nat) {
    Sum(l.skipped, w) + Sum(l.decodedDropped, w) + Sum(l.frameDropped, w) + Sum(l.outputDropped, w)
    + Sum(l.errDropped, w) + Sum(l.errorDropped, w) + Sum(l.forwarded, w) + Sum(l.handled, w)
  }

  /** Messages queued, in a worker's hands or lost with it, and ended. */
  function Weight(s: State, w: nat -> nat): (n: nat) {
    Queued(s.chans, w) + Held(s.workers, w) + Settled(s.ended, w)
  }

  lemma {:induction false} SumMore(q: seq<nat>, x: nat, w: nat -> nat)
    ensures Sum(q + [x], w) == Sum(q, w) + w(x)
  {
    if q == [] {
      assert q + [x] == [x];
    } else {
      SumMore(q[1..], x, w);
      assert (q + [x])[1..] == q[1..] + [x];
    }
  }

  lemma {:induction false} HeldChange(ws: seq<Phase>, i: nat, p: Phase, w: nat -> nat)
    requires i < |ws|
    ensures Held(ws[i := p], w) + InHand(ws[i], w) == Held(ws, w) + InHand(p, w)
  {
    if i == 0 {
      assert ws[0 := p][1..] == ws[1..];
    } else {
      HeldChange(ws[1..], i - 1, p, w);
      assert ws[i := p][1..] == ws[1..][i - 1 := p];
    }
  }

  lemma {:induction false} HeldAtLeast(ws: seq<Phase>, i: nat, w: nat -> nat)
    requires i < |ws|
    ensures Held(ws, w) >= InHand(ws[i], w)
  {
    if i > 0 {
      HeldAtLeast(ws[1..], i - 1, w);
    }
  }

  // ----- conservation

  /** Weighing by this counts the copies of one message. */
  function Copy(id: nat): (w: nat -> nat) {
    k => One(k == id)
  }

  /** Every accepted message is in exactly one place. */
  ghost predicate Conserved(s: State) {
    forall id: nat :: Weight(s, Copy(id)) == One(id < |s.inputs|)
  }

  lemma {:induction false} HoldsIsInHand(p: Phase, id: nat, w: nat -> nat)
    requires Holds(p, id)
    ensures InHand(p, w) == w(id)
  {
    match p
    case Stopped(lost) => assert lost == Some(id);
    case _ =>
  }

  lemma {:induction false} ConservedIsKnown(s: State)
    requires Conserved(s)
    ensures Known(s)
  {
    forall i, id: nat | 0 <= i < |s.workers| && Holds(s.workers[i], id)
      ensures id < |s.inputs|
    {
      HeldAtLeast(s.workers, i, Copy(id));
      assert Copy(id)(id) == One(id == id);
      HoldsIsInHand(s.workers[i], id, Copy(id));
      assert Weight(s, Copy(id)) == One(id < |s.inputs|);
    }
  }

  lemma {:induction false} TakeNextKeeps(c: Config, s: State, i: nat, w: nat -> nat)
    requires i < |s.workers| && s.workers[i].Select? && Source(c, s, i) != []
    ensures Weight(TakeNext(c, s, i), w) == Weight(s, w)
  {
    HeldChange(s.workers, i, Took(Source(c, s, i)[0]), w);
  }

  lemma {:induction false} StartDecodeKeeps(c: Config, s: State, i: nat, k: nat, w: nat -> nat)
    requires i < |s.workers| && s.workers[i] == Took(k) && k < |s.inputs|
    ensures Weight(StartDecode(c, s, i, k), w) == Weight(s, w)
  {
    HeldChange(s.workers, i, Head, w);
    HeldChange(s.workers, i, Decoding(k, c.decode(s.inputs[k]).bumps), w);
    SumMore(s.ended.skipped, k, w);
  }

  lemma {:induction false} GoOnDecodingKeeps(c: Config, s: State, i: nat, k: nat, pending: seq<Bump>, w: nat -> nat)
    requires i < |s.workers| && s.workers[i] == Decoding(k, pending) && k < |s.inputs|
    ensures Weight(GoOnDecoding(c, s, i, k, pending), w) == Weight(s, w)
  {
    if pending != [] {
      HeldChange(s.workers, i, Decoding(k, pending[1..]), w);
    }
    HeldChange(s.workers, i, Sending(k), w);
    HeldChange(s.workers, i, Failing(k), w);
  }

  lemma {:induction false} SolveKeeps(c: Config, s: State, i: nat, k: nat, solved: bool, w: nat -> nat)
    requires i < |s.workers| && s.workers[i] == Took(k)
    ensures Weight(Solve(c, s, i, k, solved), w) == Weight(s, w)
  {
    HeldChange(s.workers, i, Sending(k), w);
    HeldChange(s.workers, i, Failing(k), w);
  }

  lemma {:induction false} DropErrorAdds(c: Config, s: State, i: nat, k: nat, w: nat -> nat)
    ensures Weight(DropError(c, s, i, k), w) == Weight(s, w) + w(k)
  {
    SumMore(s.ended.errorDropped, k, w);
    SumMore(s.ended.errDropped, k, w);
  }

  lemma {:induction false} EndFailingKeeps(c: Config, s: State, i: nat, k: nat, m: Move, w: nat -> nat)
    requires i < |s.workers| && s.workers[i] == Failing(k)
    ensures Weight(EndFailing(c, s, i, k, m), w) == Weight(s, w)
  {
    HeldChange(s.workers, i, Head, w);
    HeldChange(s.workers, i, Stopped(Some(k)), w);
    SumMore(s.chans.errors, k, w);
    DropErrorAdds(c, SetPhase(s, i, Head), i, k, w);
  }

  lemma {:induction false} EnterDropAdds(r: Role, l: Ledger, k: nat, w: nat -> nat)
    ensures Settled(EnterDrop(r, l, k), w) == Settled(l, w) + w(k)
  {
    match r
    case Decoder => SumMore(l.decodedDropped, k, w);
    case OwnLoop => SumMore(l.outputDropped, k, w);
    case Solver => SumMore(l.frameDropped, k, w);
  }

  lemma {:induction false} EndSendingKeeps(c: Config, s: State, i: nat, k: nat, m: Move, w: nat -> nat)
    requires i < |s.workers| && s.workers[i] == Sending(k)
    ensures Weight(EndSending(c, s, i, k, m), w) == Weight(s, w)
  {
    HeldChange(s.workers, i, Head, w);
    HeldChange(s.workers, i, Stopped(Some(k)), w);
    SumMore(s.chans.decoded, k, w);
    SumMore(s.chans.frames, k, w);
    EnterDropAdds(RoleOf(c, i), s.ended, k, w);
  }

  lemma {:induction false} WorkerStepKeeps(c: Config, s: State, i: nat, m: Move, w: nat -> nat)
    requires i < |s.workers| && MoveEnabled(c, s, i, m) && Known(s)
    ensures Weight(WorkerStep(c, s, i, m), w) == Weight(s, w)
  {
    HeldChange(s.workers, i, Select, w);
    HeldChange(s.workers, i, Stopped(None), w);
    match s.workers[i]
    case Head =>
    case Select =>
      if m.Receive? {
        TakeNextKeeps(c, s, i, w);
      }
    case Took(k) =>
      assert Holds(s.workers[i], k);
      if RoleOf(c, i).Decoder? {
        StartDecodeKeeps(c, s, i, k, w);
      } else {
        SolveKeeps(c, s, i, k, m.solved, w);
      }
    case Decoding(k, pending) =>
      assert Holds(s.workers[i], k);
      GoOnDecodingKeeps(c, s, i, k, pending, w);
    case Failing(k) => EndFailingKeeps(c, s, i, k, m, w);
    case Sending(k) => EndSendingKeeps(c, s, i, k, m, w);
  }

  /** Whatever the weighing, a step only moves messages about; only Offer adds one. */
  lemma {:induction false} StepKeepsWeight(c: Config, s: State, a: Action, w: nat -> nat)
    requires Enabled(c, s, a) && Known(s)
    ensures Weight(Apply(c, s, a), w) == Weight(s, w) + if a.Offer? then w(|s.inputs|) else 0
  {
    match a
    case Do(i, m) => WorkerStepKeeps(c, s, i, m, w);
    case Offer(_) => SumMore(s.chans.raw, |s.inputs|, w);
    case ConsumeFrame => SumMore(s.ended.forwarded, s.chans.frames[0], w);
    case ConsumeError => SumMore(s.ended.handled, s.chans.errors[0], w);
    case _ =>
  }

  lemma {:induction false} InputsGrow(c: Config, s: State, a: Action)
    requires Enabled(c, s, a) && Known(s)
    ensures Apply(c, s, a).inputs == s.inputs + if a.Offer? then [a.bytes] else []
  {
  }

  lemma {:induction false} StepConserves(c: Config, s: State, a: Action)
    requires Conserved(s) && Known(s) && Enabled(c, s, a)
    ensures Conserved(Apply(c, s, a))
  {
    InputsGrow(c, s, a);
    forall id: nat
      ensures Weight(Apply(c, s, a), Copy(id)) == One(id < |Apply(c, s, a).inputs|)
    {
      StepKeepsWeight(c, s, a, Copy(id));
      assert Weight(s, Copy(id)) == One(id < |s.inputs|);
      assert Copy(id)(|s.inputs|) == One(|s.inputs| == id);
    }
  }

  function Unit(): (w: nat -> nat) {
    _ => 1
  }

  /** The books balance: everything accepted is queued, held or lost, or ended. */
  ghost predicate Balanced(s: State) {
    Weight(s, Unit()) == |s.inputs|
  }

  lemma {:induction false} StepBalances(c: Config, s: State, a: Action)
    requires Balanced(s) && Known(s) && Enabled(c, s, a)
    ensures Balanced(Apply(c, s, a))
  {
    InputsGrow(c, s, a);
    StepKeepsWeight(c, s, a, Unit());
  }

  // ----- counters, capacities, losses

  /** Each drop counter is the number of messages dropped there. */
  ghost predicate DropsCounted(s: State) {
    && s.stats.decodedDropped == |s.ended.decodedDropped| && s.stats.frameDropped == |s.ended.frameDropped|
    && s.stats.outputDropped == |s.ended.outputDropped| && s.stats.errDropped == |s.ended.errDropped|
    && s.stats.errorDropped == |s.ended.errorDropped|
  }

  /** The channels stay within their capacities. */
  ghost predicate Bounded(c: Config, h: Channels) {
    && |h.raw| <= c.rawSize && |h.decoded| <= c.decodedSize
    && |h.frames| <= c.frameSize && |h.errors| <= c.errorSize
  }

  /** Every record the solver's own loop took is counted as solved or failed, but for one in hand. */
  ghost predicate OwnCounted(c: Config, s: State) {
    && |s.workers| == Workers(c)
    && s.ownTaken == s.stats.totalFrames + s.stats.failedFrames + One(s.workers[c.decoders].Took?)
  }

  /** A worker loses a message only by stopping, and only once its context is cancelled. */
  ghost predicate LossesExcused(c: Config, s: State) {
    forall i :: 0 <= i < |s.workers| ==>
      (s.workers[i].Stopped? && s.workers[i].lost.Some? ==> Cancelled(c, s, i))
  }

  lemma {:induction false} StepCountsDrops(c: Config, s: State, a: Action)
    requires DropsCounted(s) && Known(s) && Enabled(c, s, a)
    ensures DropsCounted(Apply(c, s, a))
  {
    if a.Do? {
      WorkerCountsDrops(c, s, a.i, a.move);
    }
  }

  lemma {:induction false} WorkerCountsDrops(c: Config, s: State, i: nat, m: Move)
    requires DropsCounted(s) && Known(s) && i < |s.workers| && MoveEnabled(c, s, i, m)
    ensures DropsCounted(WorkerStep(c, s, i, m))
  {
    match s.workers[i]
    case Failing(k) => assert DropsCounted(EndFailing(c, s, i, k, m));
    case Sending(k) => assert DropsCounted(EndSending(c, s, i, k, m));
    case _ =>
  }

  lemma {:induction false} StepBounded(c: Config, s: State, a: Action)
    requires Bounded(c, s.chans) && Known(s) && Enabled(c, s, a)
    ensures Bounded(c, Apply(c, s, a).chans)
  {
    if a.Do? {
      match s.workers[a.i]
      case Failing(k) => assert Bounded(c, EndFailing(c, s, a.i, k, a.move).chans);
      case Sending(k) => assert Bounded(c, EndSending(c, s, a.i, k, a.move).chans);
      case _ =>
    }
  }

  lemma {:induction false} StepCountsOwn(c: Config, s: State, a: Action)
    requires OwnCounted(c, s) && Known(s) && Enabled(c, s, a)
    ensures OwnCounted(c, Apply(c, s, a))
  {
    if a.Do? {
      WorkerCountsOwn(c, s, a.i, a.move);
    }
  }

  lemma {:induction false} WorkerCountsOwn(c: Config, s: State, i: nat, m: Move)
    requires OwnCounted(c, s) && Known(s) && i < |s.workers| && MoveEnabled(c, s, i, m)
    ensures OwnCounted(c, WorkerStep(c, s, i, m))
  {
    match s.workers[i]
    case Took(k) =>
      assert Holds(s.workers[i], k);
      if RoleOf(c, i).Decoder? {
        StartCountsOwn(c, s, i, k);
      } else {
        SolveCountsOwn(c, s, i, k, m.solved);
      }
    case Select => TakeCountsOwn(c, s, i, m);
    case Failing(k) => EndFailingCountsOwn(c, s, i, k, m);
    case Sending(k) => EndSendingCountsOwn(c, s, i, k, m);
    case _ =>
  }

  lemma {:induction false} StartCountsOwn(c: Config, s: State, i: nat, k: nat)
    requires OwnCounted(c, s) && i < |s.workers| && RoleOf(c, i).Decoder? && k < |s.inputs|
    ensures OwnCounted(c, StartDecode(c, s, i, k))
  {}

  lemma {:induction false} SolveCountsOwn(c: Config, s: State, i: nat, k: nat, solved: bool)
    requires OwnCounted(c, s) && i < |s.workers| && s.workers[i] == Took(k)
    ensures OwnCounted(c, Solve(c, s, i, k, solved))
  {}

  lemma {:induction false} TakeCountsOwn(c: Config, s: State, i: nat, m: Move)
    requires OwnCounted(c, s) && i < |s.workers| && s.workers[i].Select? && (m.Receive? ==> Source(c, s, i) != [])
    ensures OwnCounted(c, if m.Receive? then TakeNext(c, s, i) else SetPhase(s, i, Stopped(None)))
  {}

  lemma {:induction false} EndFailingCountsOwn(c: Config, s: State, i: nat, k: nat, m: Move)
    requires OwnCounted(c, s) && i < |s.workers| && s.workers[i] == Failing(k)
    ensures OwnCounted(c, EndFailing(c, s, i, k, m))
  {}

  lemma {:induction false} EndSendingCountsOwn(c: Config, s: State, i: nat, k: nat, m: Move)
    requires OwnCounted(c, s) && i < |s.workers| && s.workers[i] == Sending(k)
    ensures OwnCounted(c, EndSending(c, s, i, k, m))
  {}

  lemma {:induction false} StepExcusesLosses(c: Config, s: State, a: Action)
    requires LossesExcused(c, s) && Known(s) && Enabled(c, s, a)
    ensures LossesExcused(c, Apply(c, s, a))
  {
    var t := Apply(c, s, a);
    FlagsOnlyFall(c, s, a);
    if a.Do? {
      OnlyOneWorkerMoves(c, s, a.i, a.move);
    }
    forall i | 0 <= i < |t.workers| && t.workers[i].Stopped? && t.workers[i].lost.Some?
      ensures Cancelled(c, t, i)
    {
      if t.workers[i] == s.workers[i] {
        assert Cancelled(c, s, i);
      }
    }
  }

  /** Running flags only go down and cancellation only goes up, and no worker touches either. */
  lemma {:induction false} FlagsOnlyFall(c: Config, s: State, a: Action)
    requires Known(s) && Enabled(c, s, a)
    ensures var t := Apply(c, s, a);
            && (a.Do? ==> t.flags == s.flags) && (!a.Do? ==> t.workers == s.workers)
            && (s.flags.cancelled ==> t.flags.cancelled) && (s.flags.solverCancelled ==> t.flags.solverCancelled)
            && (!s.flags.running ==> !t.flags.running) && (!s.flags.solverRunning ==> !t.flags.solverRunning)
  {
  }

  lemma {:induction false} OnlyOneWorkerMoves(c: Config, s: State, i: nat, m: Move)
    requires Known(s) && i < |s.workers| && MoveEnabled(c, s, i, m)
    ensures var t := WorkerStep(c, s, i, m);
            && t.workers == s.workers[i := t.workers[i]] && |t.workers| == |s.workers|
            && (t.workers[i].Stopped? && t.workers[i].lost.Some? ==> Cancelled(c, s, i))
  {
    match s.workers[i]
    case Failing(k) => assert EndFailing(c, s, i, k, m).workers[i].Stopped? ==> m.Lose?;
    case Sending(k) => assert EndSending(c, s, i, k, m).workers[i].Stopped? ==> m.Lose?;
    case _ =>
  }
}
