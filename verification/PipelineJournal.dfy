/** A journal of what the workers did in a run, and what it says about the state. */
module PipelineJournal {
  import opened Words
  import opened Wrappers
  import opened Pipeline
  import opened PipelineTheory
  import opened PipelineRuns

  /** The messages each kind of worker took, passed on, reported or dropped, in order, and the verdicts of
      the solver. Workers below c.decoders decode, worker c.decoders is the solver's own loop, and the
      others are solver workers. */
  datatype Journal = Journal(
    taken: seq<nat>, passed: seq<nat>, received: seq<nat>, sent: seq<nat>, reported: seq<nat>,
    decodedDropped: seq<nat>, outputDropped: seq<nat>, frameDropped: seq<nat>,
    errDropped: seq<nat>, errorDropped: seq<nat>,
    solved: seq<nat>, failed: seq<nat>, ownSolved: nat, ownFailed: nat)

  const BLANK: Journal := Journal([], [], [], [], [], [], [], [], [], [], [], [], 0, 0)

  function RecordReceive(c: Config, j: Journal, i: nat, id: nat): (k: Journal) {
    if i < c.decoders then j.(taken := j.taken + [id]) else j.(received := j.received + [id])
  }

  /** The solver's verdict on a record: solved or failed. */
  function RecordWork(c: Config, j: Journal, i: nat, id: nat, ok: bool): (k: Journal) {
    if i < c.decoders then j
    else if ok then j.(solved := j.solved + [id], ownSolved := j.ownSolved + One(i == c.decoders))
    else j.(failed := j.failed + [id], ownFailed := j.ownFailed + One(i == c.decoders))
  }

  function RecordSend(c: Config, j: Journal, i: nat, id: nat): (k: Journal) {
    if i < c.decoders then j.(passed := j.passed + [id]) else j.(sent := j.sent + [id])
  }

  function RecordDrop(c: Config, j: Journal, i: nat, id: nat): (k: Journal) {
    if i < c.decoders then j.(decodedDropped := j.decodedDropped + [id])
    else if i == c.decoders then j.(outputDropped := j.outputDropped + [id])
    else j.(frameDropped := j.frameDropped + [id])
  }

  function RecordErrorDrop(c: Config, j: Journal, i: nat, id: nat): (k: Journal) {
    if i == c.decoders then j.(errorDropped := j.errorDropped + [id]) else j.(errDropped := j.errDropped + [id])
  }

  /** What the move of worker i, in phase p before and q after it, adds to the journal. */
  function Record(c: Config, j: Journal, i: nat, p: Phase, m: Move, q: Phase): (k: Journal) {
    match m
    case Receive => if q.Took? then RecordReceive(c, j, i, q.id) else j
    case Work(ok) => if p.Took? then RecordWork(c, j, i, p.id, ok) else j
    case Send =>
      if p.Sending? then RecordSend(c, j, i, p.id)
      else if p.Failing? then j.(reported := j.reported + [p.id]) else j
    case Drop =>
      if p.Sending? then RecordDrop(c, j, i, p.id)
      else if p.Failing? then RecordErrorDrop(c, j, i, p.id) else j
    case _ => j
  }

  function Next(c: Config, j: Journal, s: State, a: Action, t: State): (k: Journal) {
    if a.Do? && a.i < |s.workers| && a.i < |t.workers|
    then Record(c, j, a.i, s.workers[a.i], a.move, t.workers[a.i]) else j
  }

  function JournalOf(c: Config, states: seq<State>, actions: seq<Action>, k: nat): (j: Journal)
    requires k <= |actions| && k < |states|
  {
    if k == 0 then BLANK
    else Next(c, JournalOf(c, states, actions, k - 1), states[k - 1], actions[k - 1], states[k])
  }

  // ----- the channels are queues

  function Numbers(n: nat): (q: seq<nat>)
    ensures |q| == n
  {
    seq(n, i => i)
  }

  /** Every channel hands on, in order, exactly what was put into it, and each ledger entry is a drop of
      its own kind of worker. */
  ghost predicate Agrees(s: State, j: Journal) {
    && j.taken + s.chans.raw == Numbers(|s.inputs|)
    && j.received + s.chans.decoded == j.passed
    && j.sent == s.ended.forwarded + s.chans.frames
    && j.reported == s.ended.handled + s.chans.errors
    && s.ended.decodedDropped == j.decodedDropped && s.ended.outputDropped == j.outputDropped
    && s.ended.frameDropped == j.frameDropped && s.ended.errDropped == j.errDropped
    && s.ended.errorDropped == j.errorDropped
    && s.stats.totalFrames == j.ownSolved && s.stats.failedFrames == j.ownFailed
  }

  lemma {:induction false} PutAtEnd(out: seq<nat>, q: seq<nat>, x: nat)
    ensures out + (q + [x]) == (out + q) + [x]
  {}

  lemma {:induction false} TakeFromFront(out: seq<nat>, q: seq<nat>)
    requires q != []
    ensures (out + [q[0]]) + q[1..] == out + q
  {}

  lemma {:induction false} TakeAgrees(c: Config, s: State, j: Journal, i: nat)
    requires Agrees(s, j) && i < |s.workers| && Source(c, s, i) != []
    ensures Agrees(TakeNext(c, s, i), RecordReceive(c, j, i, Source(c, s, i)[0]))
  {
    if i < c.decoders {
      TakeFromFront(j.taken, s.chans.raw);
    } else {
      TakeFromFront(j.received, s.chans.decoded);
    }
  }

  lemma {:induction false} SolveAgrees(c: Config, s: State, j: Journal, i: nat, id: nat, ok: bool)
    requires Agrees(s, j) && i < |s.workers| && i >= c.decoders
    ensures Agrees(Solve(c, s, i, id, ok), RecordWork(c, j, i, id, ok))
  {}

  lemma {:induction false} EndFailingAgrees(c: Config, s: State, j: Journal, i: nat, id: nat, m: Move)
    requires Agrees(s, j) && i < |s.workers| && s.workers[i] == Failing(id) && MoveEnabled(c, s, i, m)
    ensures var t := EndFailing(c, s, i, id, m); Agrees(t, Record(c, j, i, Failing(id), m, t.workers[i]))
  {
    PutAtEnd(s.ended.handled, s.chans.errors, id);
  }

  lemma {:induction false} EndSendingAgrees(c: Config, s: State, j: Journal, i: nat, id: nat, m: Move)
    requires Agrees(s, j) && i < |s.workers| && s.workers[i] == Sending(id) && MoveEnabled(c, s, i, m)
    ensures var t := EndSending(c, s, i, id, m); Agrees(t, Record(c, j, i, Sending(id), m, t.workers[i]))
  {
    if m.Send? {
      DeliverAgrees(c, s, j, i, id);
    }
  }

  lemma {:induction false} DeliverAgrees(c: Config, s: State, j: Journal, i: nat, id: nat)
    requires Agrees(s, j)
    ensures Agrees(s.(chans := Deliver(c, s.chans, i, id)), RecordSend(c, j, i, id))
  {
    PutAtEnd(j.received, s.chans.decoded, id);
    PutAtEnd(s.ended.forwarded, s.chans.frames, id);
  }

  lemma {:induction false} WorkerAgrees(c: Config, s: State, j: Journal, i: nat, m: Move)
    requires Known(s) && i < |s.workers| && MoveEnabled(c, s, i, m)
    requires Agrees(s, j) && PhaseJust(c, s.inputs, RoleOf(c, i), s.workers[i])
    ensures var t := WorkerStep(c, s, i, m);
            i < |t.workers| && Agrees(t, Record(c, j, i, s.workers[i], m, t.workers[i]))
  {
    match s.workers[i]
    case Select =>
      if m.Receive? {
        TakeAgrees(c, s, j, i);
      }
    case Took(k) =>
      assert Holds(s.workers[i], k);
      if i >= c.decoders {
        SolveAgrees(c, s, j, i, k, m.solved);
      }
    case Decoding(k, _) => assert Holds(s.workers[i], k);
    case Failing(k) => EndFailingAgrees(c, s, j, i, k, m);
    case Sending(k) => EndSendingAgrees(c, s, j, i, k, m);
    case _ =>
  }

  lemma {:induction false} OneMoreNumber(n: nat)
    ensures Numbers(n + 1) == Numbers(n) + [n]
  {}

  lemma {:induction false} StepAgrees(c: Config, s: State, j: Journal, a: Action)
    requires Known(s) && Enabled(c, s, a) && Agrees(s, j) && WorkersJust(c, s)
    ensures Agrees(Apply(c, s, a), Next(c, j, s, a, Apply(c, s, a)))
  {
    match a
    case Do(i, m) =>
      assert PhaseJust(c, s.inputs, RoleOf(c, i), s.workers[i]);
      WorkerAgrees(c, s, j, i, m);
    case Offer(_) =>
      OneMoreNumber(|s.inputs|);
      PutAtEnd(j.taken, s.chans.raw, |s.inputs|);
    case ConsumeFrame => TakeFromFront(s.ended.forwarded, s.chans.frames);
    case ConsumeError => TakeFromFront(s.ended.handled, s.chans.errors);
    case _ =>
  }

  /** Over every run: each channel is first in, first out and loses nothing; each drop ledger lists the
      drops of its own kind of worker; and TotalFrames and FailedFrames count the records that the solver's
      own loop solved and failed. */
  lemma {:induction false} RunAgrees(c: Config, states: seq<State>, actions: seq<Action>, k: nat)
    requires IsRun(c, states, actions) && k < |states|
    ensures Agrees(states[k], JournalOf(c, states, actions, k))
  {
    if k > 0 {
      RunAgrees(c, states, actions, k - 1);
      RunSound(c, states, actions, k - 1);
      StepOf(c, states, actions, k - 1);
      StepAgrees(c, states[k - 1], JournalOf(c, states, actions, k - 1), actions[k - 1]);
    }
  }

  // ----- the solver's verdicts decide

  /** Beyond the decoders, what is about to be passed on was solved and what is about to be reported failed. */
  predicate PhaseFollows(c: Config, j: Journal, i: nat, p: Phase) {
    i >= c.decoders ==> (p.Sending? ==> p.id in j.solved) && (p.Failing? ==> p.id in j.failed)
  }

  ghost predicate WorkersFollow(c: Config, s: State, j: Journal) {
    forall i :: 0 <= i < |s.workers| ==> PhaseFollows(c, j, i, s.workers[i])
  }

  ghost predicate AllIn(q: seq<nat>, r: seq<nat>) {
    forall id :: id in q ==> id in r
  }

  ghost predicate AllBadOr(c: Config, inputs: seq<seq<byte>>, q: seq<nat>, r: seq<nat>) {
    forall id :: id in q ==> !Good(c, inputs, id) || id in r
  }

  /** Frames passed on or dropped were solved; errors are of messages that yield no record or that the
      solver failed. */
  ghost predicate EntriesFollow(c: Config, s: State, j: Journal) {
    && AllIn(j.sent, j.solved) && AllIn(j.outputDropped, j.solved) && AllIn(j.frameDropped, j.solved)
    && AllBadOr(c, s.inputs, j.reported, j.failed) && AllBadOr(c, s.inputs, j.errDropped, j.failed)
    && AllIn(j.errorDropped, j.failed)
  }

  lemma {:induction false} JournalGrows(c: Config, j: Journal, i: nat, p: Phase, m: Move, q: Phase)
    ensures AllIn(j.solved, Record(c, j, i, p, m, q).solved) && AllIn(j.failed, Record(c, j, i, p, m, q).failed)
  {}

  lemma {:induction false} MoverFollows(c: Config, s: State, j: Journal, i: nat, m: Move)
    requires Known(s) && i < |s.workers| && MoveEnabled(c, s, i, m)
    requires PhaseFollows(c, j, i, s.workers[i]) && PhaseJust(c, s.inputs, RoleOf(c, i), s.workers[i])
    ensures var t := WorkerStep(c, s, i, m);
            i < |t.workers| && PhaseFollows(c, Record(c, j, i, s.workers[i], m, t.workers[i]), i, t.workers[i])
  {
    match s.workers[i]
    case Took(k) => assert Holds(s.workers[i], k);
    case Decoding(k, _) => assert Holds(s.workers[i], k);
    case Failing(k) => assert EndFailing(c, s, i, k, m).workers[i] in {Head, Stopped(Some(k))};
    case Sending(k) => assert EndSending(c, s, i, k, m).workers[i] in {Head, Stopped(Some(k))};
    case _ =>
  }

  lemma {:induction false} RecordFollows(c: Config, s: State, j: Journal, i: nat, p: Phase, m: Move, q: Phase)
    requires EntriesFollow(c, s, j) && PhaseFollows(c, j, i, p) && PhaseJust(c, s.inputs, RoleOf(c, i), p)
    ensures EntriesFollow(c, s, Record(c, j, i, p, m, q))
  {
    JournalGrows(c, j, i, p, m, q);
  }

  ghost predicate Follows(c: Config, s: State, j: Journal) {
    WorkersFollow(c, s, j) && EntriesFollow(c, s, j)
  }

  lemma {:induction false} WorkerStepFollows(c: Config, s: State, j: Journal, i: nat, m: Move)
    requires Known(s) && i < |s.workers| && MoveEnabled(c, s, i, m) && WorkersJust(c, s) && Follows(c, s, j)
    ensures var t := WorkerStep(c, s, i, m);
            i < |t.workers| && WorkersFollow(c, t, Record(c, j, i, s.workers[i], m, t.workers[i]))
  {
    var t := WorkerStep(c, s, i, m);
    assert PhaseJust(c, s.inputs, RoleOf(c, i), s.workers[i]);
    assert PhaseFollows(c, j, i, s.workers[i]);
    MoverFollows(c, s, j, i, m);
    OnlyOneWorkerMoves(c, s, i, m);
    JournalGrows(c, j, i, s.workers[i], m, t.workers[i]);
    forall n | 0 <= n < |t.workers|
      ensures PhaseFollows(c, Record(c, j, i, s.workers[i], m, t.workers[i]), n, t.workers[n])
    {
      if n != i {
        assert PhaseFollows(c, j, n, s.workers[n]);
      }
    }
  }

  lemma {:induction false} SameInputsFollow(c: Config, s: State, t: State, j: Journal)
    requires EntriesFollow(c, s, j) && t.inputs == s.inputs
    ensures EntriesFollow(c, t, j)
  {}

  lemma {:induction false} StepFollows(c: Config, s: State, j: Journal, a: Action)
    requires Sound(c, s) && Enabled(c, s, a) && Follows(c, s, j) && Agrees(s, j)
    ensures Follows(c, Apply(c, s, a), Next(c, j, s, a, Apply(c, s, a)))
  {
    var t := Apply(c, s, a);
    InputsGrow(c, s, a);
    match a
    case Do(i, m) =>
      assert PhaseJust(c, s.inputs, RoleOf(c, i), s.workers[i]);
      assert PhaseFollows(c, j, i, s.workers[i]);
      WorkerStepFollows(c, s, j, i, m);
      RecordFollows(c, s, j, i, s.workers[i], m, t.workers[i]);
      SameInputsFollow(c, s, t, Next(c, j, s, a, t));
    case Offer(bytes) => OfferFollows(c, s, t, j, bytes);
    case _ => SameInputsFollow(c, s, t, j);
  }

  /** Accepting a message changes no verdict on the earlier ones. */
  lemma {:induction false} OfferFollows(c: Config, s: State, t: State, j: Journal, bytes: seq<byte>)
    requires EntriesFollow(c, s, j) && t.inputs == s.inputs + [bytes] && Agrees(s, j) && PlacesJust(c, s)
    ensures EntriesFollow(c, t, j)
  {
    forall id | id in j.reported
      ensures !Good(c, t.inputs, id) || id in j.failed
    {
      assert id in s.ended.handled || id in s.chans.errors;
      assert Filled(s.inputs, id);
    }
    forall id | id in j.errDropped
      ensures !Good(c, t.inputs, id) || id in j.failed
    {
      assert Filled(s.inputs, id);
    }
  }

  /** Over every run: exactly what the solver solved goes on as a frame, and a message that yields a record
      is reported as an error only if the solver failed it. */
  lemma {:induction false} RunFollows(c: Config, states: seq<State>, actions: seq<Action>, k: nat)
    requires IsRun(c, states, actions) && k < |states|
    ensures Follows(c, states[k], JournalOf(c, states, actions, k))
  {
    if k > 0 {
      RunFollows(c, states, actions, k - 1);
      RunAgrees(c, states, actions, k - 1);
      RunSound(c, states, actions, k - 1);
      StepOf(c, states, actions, k - 1);
      StepFollows(c, states[k - 1], JournalOf(c, states, actions, k - 1), actions[k - 1]);
    }
  }

  /** In terms of the state: every frame queued, consumed or dropped was solved, and every usable message
      among the errors failed. */
  lemma {:induction false} VerdictsDecide(c: Config, states: seq<State>, actions: seq<Action>, k: nat, id: nat)
    requires IsRun(c, states, actions) && k < |states|
    ensures var s, j := states[k], JournalOf(c, states, actions, k);
            && (id in s.chans.frames + s.ended.forwarded + s.ended.frameDropped + s.ended.outputDropped ==>
                  id in j.solved)
            && (id in s.chans.errors + s.ended.handled + s.ended.errDropped + s.ended.errorDropped ==>
                  !Good(c, s.inputs, id) || id in j.failed)
  {
    RunAgrees(c, states, actions, k);
    RunFollows(c, states, actions, k);
    var s, j := states[k], JournalOf(c, states, actions, k);
    assert id in s.chans.frames || id in s.ended.forwarded ==> id in j.sent;
    assert id in s.chans.errors || id in s.ended.handled ==> id in j.reported;
  }

  // ----- drops, losses and stops have a cause

  /** A message is dropped only at a full channel with the worker's context not done, and lost only when it
      is done; errors of the pipeline's own workers are never lost. */
  lemma {:induction false} EndsForCause(c: Config, states: seq<State>, actions: seq<Action>, k: nat, i: nat, m: Move)
    requires IsRun(c, states, actions) && k < |actions| && actions[k] == Do(i, m)
    ensures var s := states[k]; var done := if i == c.decoders then s.flags.solverCancelled else s.flags.cancelled;
            && i < |s.workers|
            && (m.Drop? && s.workers[i].Sending? ==>
                  !done && if i < c.decoders then |s.chans.decoded| == c.decodedSize
                           else |s.chans.frames| == c.frameSize)
            && (m.Drop? && s.workers[i].Failing? ==>
                  |s.chans.errors| == c.errorSize && (i == c.decoders ==> !done))
            && (m.Lose? ==> done && (s.workers[i].Failing? ==> i == c.decoders))
  {
    StepOf(c, states, actions, k);
    RunSound(c, states, actions, k);
  }

  /** Cancellation follows the fall of the running flag, and closing follows cancellation. */
  ghost predicate Orderly(s: State) {
    && (s.flags.cancelled ==> !s.flags.running) && (s.flags.solverCancelled ==> !s.flags.solverRunning)
    && (s.flags.rawClosed ==> s.flags.cancelled)
  }

  ghost predicate StopsForCause(c: Config, s: State) {
    forall i :: 0 <= i < |s.workers| && s.workers[i].Stopped? ==>
      !(if i == c.decoders then s.flags.solverRunning else s.flags.running)
  }

  lemma {:induction false} MoverStopsForCause(c: Config, s: State, i: nat, m: Move)
    requires Known(s) && i < |s.workers| && MoveEnabled(c, s, i, m) && Orderly(s)
    ensures var t := WorkerStep(c, s, i, m);
            i < |t.workers| && (t.workers[i].Stopped? ==>
              !(if i == c.decoders then s.flags.solverRunning else s.flags.running))
  {
    match s.workers[i]
    case Failing(k) => assert EndFailing(c, s, i, k, m).workers[i].Stopped? ==> m.Lose?;
    case Sending(k) => assert EndSending(c, s, i, k, m).workers[i].Stopped? ==> m.Lose?;
    case Took(k) => assert Holds(s.workers[i], k);
    case Decoding(k, _) => assert Holds(s.workers[i], k);
    case _ =>
  }

  lemma {:induction false} StepStopsForCause(c: Config, s: State, a: Action)
    requires Known(s) && Enabled(c, s, a) && Orderly(s) && StopsForCause(c, s)
    ensures Orderly(Apply(c, s, a)) && StopsForCause(c, Apply(c, s, a))
  {
    var t := Apply(c, s, a);
    FlagsOnlyFall(c, s, a);
    if a.Do? {
      MoverStopsForCause(c, s, a.i, a.move);
      OnlyOneWorkerMoves(c, s, a.i, a.move);
    }
    forall i | 0 <= i < |t.workers| && t.workers[i].Stopped?
      ensures !(if i == c.decoders then t.flags.solverRunning else t.flags.running)
    {
      if !a.Do? || i != a.i {
        assert t.workers[i] == s.workers[i];
      }
    }
  }

  /** No worker stops while its running flag is up. */
  lemma {:induction false} RunStopsForCause(c: Config, states: seq<State>, actions: seq<Action>, k: nat)
    requires IsRun(c, states, actions) && k < |states|
    ensures Orderly(states[k]) && StopsForCause(c, states[k])
  {
    if k > 0 {
      RunStopsForCause(c, states, actions, k - 1);
      StepOf(c, states, actions, k - 1);
      StepStopsForCause(c, states[k - 1], actions[k - 1]);
    }
  }
}
