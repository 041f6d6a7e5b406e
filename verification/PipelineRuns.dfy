/** The main results about whole runs of the pipeline. */
module PipelineRuns {
  import opened Words
  import opened Wrappers
  import opened Pipeline
  import opened PipelineTheory

  // ----- nothing is forwarded or skipped without cause

  ghost predicate AllEmpty(inputs: seq<seq<byte>>, q: seq<nat>) {
    forall i :: 0 <= i < |q| ==> q[i] < |inputs| && inputs[q[i]] == []
  }

  ghost predicate AllUsable(c: Config, inputs: seq<seq<byte>>, q: seq<nat>) {
    forall i :: 0 <= i < |q| ==> Good(c, inputs, q[i])
  }

  ghost predicate AllNonEmpty(inputs: seq<seq<byte>>, q: seq<nat>) {
    forall i :: 0 <= i < |q| ==> Filled(inputs, q[i])
  }

  predicate Good(c: Config, inputs: seq<seq<byte>>, id: nat) {
    id < |inputs| && inputs[id] != [] && c.decode(inputs[id]).usable
  }

  predicate Filled(inputs: seq<seq<byte>>, id: nat) {
    id < |inputs| && inputs[id] != []
  }

  /** What a worker holds fits its role and phase. */
  predicate PhaseJust(c: Config, inputs: seq<seq<byte>>, r: Role, p: Phase) {
    match p
    case Head => true
    case Select => true
    case Took(id) => !r.Decoder? ==> Good(c, inputs, id)
    case Decoding(id, _) => r.Decoder? && Filled(inputs, id)
    case Failing(id) => Filled(inputs, id) && (r.Decoder? <==> !Good(c, inputs, id))
    case Sending(id) => Good(c, inputs, id)
    case Stopped(lost) => lost.Some? ==> Filled(inputs, lost.value)
  }

  ghost predicate WorkersJust(c: Config, s: State) {
    forall i :: 0 <= i < |s.workers| ==> PhaseJust(c, s.inputs, RoleOf(c, i), s.workers[i])
  }

  /** Only empty messages are skipped; only messages that decode cleanly and carry a record get
      past the decoders; errors are never about empty messages. */
  ghost predicate PlacesJust(c: Config, s: State) {
    && AllEmpty(s.inputs, s.ended.skipped)
    && AllUsable(c, s.inputs, s.chans.decoded) && AllUsable(c, s.inputs, s.chans.frames)
    && AllUsable(c, s.inputs, s.ended.forwarded) && AllUsable(c, s.inputs, s.ended.decodedDropped)
    && AllUsable(c, s.inputs, s.ended.outputDropped) && AllUsable(c, s.inputs, s.ended.frameDropped)
    && AllNonEmpty(s.inputs, s.chans.errors) && AllNonEmpty(s.inputs, s.ended.handled)
    && AllNonEmpty(s.inputs, s.ended.errDropped) && AllUsable(c, s.inputs, s.ended.errorDropped)
  }

  lemma {:induction false} WorkerJust(c: Config, s: State, i: nat, m: Move)
    requires Known(s) && i < |s.workers| && MoveEnabled(c, s, i, m)
    requires PlacesJust(c, s) && PhaseJust(c, s.inputs, RoleOf(c, i), s.workers[i])
    ensures var t := WorkerStep(c, s, i, m);
            PhaseJust(c, s.inputs, RoleOf(c, i), t.workers[i])
  {
    match s.workers[i]
    case Took(k) => assert Holds(s.workers[i], k);
    case Decoding(k, _) => assert Holds(s.workers[i], k);
    case Failing(k) => assert EndFailing(c, s, i, k, m).workers[i] in {Head, Stopped(Some(k))};
    case Sending(k) => assert EndSending(c, s, i, k, m).workers[i] in {Head, Stopped(Some(k))};
    case _ =>
  }

  lemma {:induction false} WorkerPlacesJust(c: Config, s: State, i: nat, m: Move)
    requires Known(s) && i < |s.workers| && MoveEnabled(c, s, i, m)
    requires PlacesJust(c, s) && PhaseJust(c, s.inputs, RoleOf(c, i), s.workers[i])
    ensures PlacesJust(c, WorkerStep(c, s, i, m))
  {
    match s.workers[i]
    case Took(k) =>
      assert Holds(s.workers[i], k);
      if RoleOf(c, i).Decoder? {
        assert PlacesJust(c, StartDecode(c, s, i, k));
      }
    case Failing(k) => assert PlacesJust(c, EndFailing(c, s, i, k, m));
    case Sending(k) => assert PlacesJust(c, EndSending(c, s, i, k, m));
    case _ =>
  }

  lemma {:induction false} OfferJust(c: Config, s: State, bytes: seq<byte>)
    requires PlacesJust(c, s) && WorkersJust(c, s) && Known(s) && Enabled(c, s, Offer(bytes))
    ensures PlacesJust(c, Apply(c, s, Offer(bytes))) && WorkersJust(c, Apply(c, s, Offer(bytes)))
  {
    var inputs := s.inputs + [bytes];
    forall id: nat
      ensures Good(c, s.inputs, id) ==> Good(c, inputs, id)
      ensures Filled(s.inputs, id) ==> Filled(inputs, id)
    {}
    forall i | 0 <= i < |s.workers|
      ensures PhaseJust(c, inputs, RoleOf(c, i), s.workers[i])
    {
      assert PhaseJust(c, s.inputs, RoleOf(c, i), s.workers[i]);
    }
  }

  lemma {:induction false} StepJust(c: Config, s: State, a: Action)
    requires PlacesJust(c, s) && WorkersJust(c, s) && Known(s) && Enabled(c, s, a)
    ensures PlacesJust(c, Apply(c, s, a)) && WorkersJust(c, Apply(c, s, a))
  {
    match a
    case Offer(bytes) => OfferJust(c, s, bytes);
    case Do(i, m) =>
      assert PhaseJust(c, s.inputs, RoleOf(c, i), s.workers[i]);
      WorkerJust(c, s, i, m);
      WorkerPlacesJust(c, s, i, m);
      OnlyOneWorkerMoves(c, s, i, m);
      InputsGrow(c, s, a);
    case _ =>
  }

  // ----- whole runs

  /** All that every step keeps. */
  ghost predicate Sound(c: Config, s: State) {
    && Known(s) && Conserved(s) && Balanced(s)
    && DropsCounted(s) && Bounded(c, s.chans) && OwnCounted(c, s) && LossesExcused(c, s)
    && PlacesJust(c, s) && WorkersJust(c, s)
  }

  ghost predicate IsRun(c: Config, states: seq<State>, actions: seq<Action>) {
    && |states| == |actions| + 1 && states[0] == Init(c)
    && forall k :: 0 <= k < |actions| ==>
         Known(states[k]) && Enabled(c, states[k], actions[k]) && states[k + 1] == Apply(c, states[k], actions[k])
  }

  lemma {:induction false} StepOf(c: Config, states: seq<State>, actions: seq<Action>, k: nat)
    requires IsRun(c, states, actions) && k < |actions|
    ensures Known(states[k]) && Enabled(c, states[k], actions[k])
    ensures states[k + 1] == Apply(c, states[k], actions[k])
  {
  }

  lemma {:induction false} EmptyHands(n: nat, w: nat -> nat)
    ensures Held(seq(n, _ => Head), w) == 0
  {
    if n > 0 {
      EmptyHands(n - 1, w);
      assert seq(n, _ => Head)[1..] == seq(n - 1, _ => Head);
    }
  }

  lemma {:induction false} InitSound(c: Config)
    ensures Sound(c, Init(c))
  {
    forall w: nat -> nat
      ensures Weight(Init(c), w) == 0
    {
      EmptyHands(Workers(c), w);
    }
  }

  lemma {:induction false} StepSound(c: Config, s: State, a: Action)
    requires Sound(c, s) && Enabled(c, s, a)
    ensures Sound(c, Apply(c, s, a))
  {
    StepConserves(c, s, a);
    StepBalances(c, s, a);
    StepCountsDrops(c, s, a);
    StepBounded(c, s, a);
    StepCountsOwn(c, s, a);
    StepExcusesLosses(c, s, a);
    StepJust(c, s, a);
    ConservedIsKnown(Apply(c, s, a));
  }

  /** Whatever the interleaving: every accepted message is in exactly one place, the books balance,
      every drop is counted, and nothing is lost before cancellation. */
  lemma {:induction false} RunSound(c: Config, states: seq<State>, actions: seq<Action>, k: nat)
    requires IsRun(c, states, actions) && k < |states|
    ensures Sound(c, states[k])
  {
    if k == 0 {
      InitSound(c);
    } else {
      RunSound(c, states, actions, k - 1);
      StepSound(c, states[k - 1], actions[k - 1]);
    }
  }

  /** A sound state can always go on: the precondition of a step is never in the way. */
  lemma {:induction false} RunExtends(c: Config, states: seq<State>, actions: seq<Action>, a: Action)
    requires IsRun(c, states, actions) && Enabled(c, states[|actions|], a)
    ensures Known(states[|actions|])
         && IsRun(c, states + [Apply(c, states[|actions|], a)], actions + [a])
  {
    var n := |actions|;
    RunSound(c, states, actions, n);
    var states', actions' := states + [Apply(c, states[n], a)], actions + [a];
    forall k | 0 <= k < n + 1
      ensures Known(states'[k]) && Enabled(c, states'[k], actions'[k])
      ensures states'[k + 1] == Apply(c, states'[k], actions'[k])
    {
      if k < n {
        assert states'[k] == states[k] && states'[k + 1] == states[k + 1] && actions'[k] == actions[k];
      } else {
        assert states'[k] == states[n] && actions'[k] == a;
      }
    }
  }

  // ----- losses

  function Lost(ws: seq<Phase>): (n: nat)
    ensures n <= |ws|
  {
    if ws == [] then 0 else One(ws[0].Stopped? && ws[0].lost.Some?) + Lost(ws[1..])
  }

  /** Messages in the hands of workers still going. */
  function InHands(ws: seq<Phase>): (n: nat) {
    if ws == [] then 0 else One(!ws[0].Stopped? && InHand(ws[0], Unit()) == 1) + InHands(ws[1..])
  }

  lemma {:induction false} HeldSplits(ws: seq<Phase>)
    ensures Held(ws, Unit()) == InHands(ws) + Lost(ws)
  {
    if ws != [] {
      HeldSplits(ws[1..]);
    }
  }

  lemma {:induction false} Length(q: seq<nat>)
    ensures Sum(q, Unit()) == |q|
  {
    if q != [] {
      Length(q[1..]);
    }
  }

  lemma {:induction false} NoneLost(ws: seq<Phase>)
    requires forall i :: 0 <= i < |ws| ==> !(ws[i].Stopped? && ws[i].lost.Some?)
    ensures Lost(ws) == 0
  {
    if ws != [] {
      NoneLost(ws[1..]);
    }
  }

  /** The accounts in numbers: every accepted message is queued, in hand, skipped, in one of the five
      drop counters, consumed as a frame or as an error, or lost with a worker that stopped. At most
      one is lost per worker, and none while neither context is cancelled. */
  lemma {:induction false} Accounts(c: Config, states: seq<State>, actions: seq<Action>, k: nat)
    requires IsRun(c, states, actions) && k < |states|
    ensures var s := states[k]; var h := s.chans; var st := s.stats; var l := s.ended;
            && |s.inputs| == |h.raw| + |h.decoded| + |h.frames| + |h.errors| + InHands(s.workers) + Lost(s.workers)
                 + |l.skipped| + |l.forwarded| + |l.handled|
                 + st.decodedDropped + st.frameDropped + st.outputDropped + st.errDropped + st.errorDropped
            && Lost(s.workers) <= Workers(c)
            && (!s.flags.cancelled && !s.flags.solverCancelled ==> Lost(s.workers) == 0)
  {
    RunSound(c, states, actions, k);
    var s := states[k];
    HeldSplits(s.workers);
    QueuesInNumbers(s.chans);
    LedgerInNumbers(s.ended);
    if !s.flags.cancelled && !s.flags.solverCancelled {
      NoneLost(s.workers);
    }
  }

  lemma {:induction false} QueuesInNumbers(h: Channels)
    ensures Queued(h, Unit()) == |h.raw| + |h.decoded| + |h.frames| + |h.errors|
  {
    Length(h.raw);
    Length(h.decoded);
    Length(h.frames);
    Length(h.errors);
  }

  lemma {:induction false} LedgerInNumbers(l: Ledger)
    ensures Settled(l, Unit()) == |l.skipped| + |l.decodedDropped| + |l.frameDropped| + |l.outputDropped|
         + |l.errDropped| + |l.errorDropped| + |l.forwarded| + |l.handled|
  {
    Length(l.skipped);
    Length(l.decodedDropped);
    Length(l.frameDropped);
    Length(l.outputDropped);
    Length(l.errDropped);
    Length(l.errorDropped);
    Length(l.forwarded);
    Length(l.handled);
  }

  lemma {:induction false} Twice(q: seq<nat>, i: nat, j: nat)
    requires i < j < |q| && q[i] == q[j]
    ensures Sum(q, Copy(q[i])) >= 2
  {
    if i > 0 {
      Twice(q[1..], i - 1, j - 1);
    } else {
      Once(q[1..], j - 1);
      assert Copy(q[0])(q[0]) == One(q[0] == q[0]);
    }
  }

  lemma {:induction false} Once(q: seq<nat>, i: nat)
    requires i < |q|
    ensures Sum(q, Copy(q[i])) >= 1
  {
    if i > 0 {
      Once(q[1..], i - 1);
    } else {
      assert Copy(q[0])(q[0]) == One(q[0] == q[0]);
    }
  }

  /** Every consumed frame comes from an accepted message that decoded cleanly and carried a record,
      no message is forwarded twice, and none that was forwarded was also dropped or reported. */
  lemma {:induction false} ForwardedOnce(c: Config, states: seq<State>, actions: seq<Action>, k: nat, i: nat)
    requires IsRun(c, states, actions) && k < |states| && i < |states[k].ended.forwarded|
    ensures var l := states[k].ended; var id := l.forwarded[i];
            && Good(c, states[k].inputs, id)
            && (forall j :: 0 <= j < |l.forwarded| && j != i ==> l.forwarded[j] != id)
            && id !in l.handled && id !in l.decodedDropped && id !in l.frameDropped && id !in l.outputDropped
            && id !in l.errDropped && id !in l.errorDropped
  {
    RunSound(c, states, actions, k);
    var l := states[k].ended;
    var id := l.forwarded[i];
    assert Weight(states[k], Copy(id)) == One(id < |states[k].inputs|);
    Once(l.forwarded, i);
    forall j | 0 <= j < |l.forwarded| && j != i
      ensures l.forwarded[j] != id
    {
      if l.forwarded[j] == id {
        Twice(l.forwarded, if i < j then i else j, if i < j then j else i);
      }
    }
    Absent(l.handled, id);
    Absent(l.decodedDropped, id);
    Absent(l.frameDropped, id);
    Absent(l.outputDropped, id);
    Absent(l.errDropped, id);
    Absent(l.errorDropped, id);
  }

  lemma {:induction false} Absent(q: seq<nat>, id: nat)
    ensures Sum(q, Copy(id)) == 0 ==> id !in q
  {
    if id in q {
      var i :| 0 <= i < |q| && q[i] == id;
      Once(q, i);
    }
  }
}
