/** Once the running flags are down, the workers stop. */
module PipelineShutdown {
  import opened Wrappers
  import opened Pipeline
  import opened PipelineTheory
  import PipelineRuns
  import PipelineDecoder

  /** How many more moves a worker can make once its running flag is down. */
  function Rank(p: Phase): (n: nat) {
    match p
    case Stopped(_) => 0
    case Head => 1
    case Failing(_) => 2
    case Sending(_) => 2
    case Decoding(_, pending) => 3 + |pending|
    case Took(_) => 8
    case Select => 9
  }

  /** A decode call makes at most four increments. */
  ghost predicate Terse(c: Config) {
    forall raw :: |c.decode(raw).bumps| <= 4
  }

  lemma {:induction false} ModbusIsTerse(c: Config)
    requires PipelineDecoder.Modbus(c)
    ensures Terse(c)
  {
    forall raw
      ensures |c.decode(raw).bumps| <= 4
    {
      assert c.decode(raw) == ModbusVerdict(raw);
    }
  }

  ghost predicate Stopping(s: State) {
    !s.flags.running && !s.flags.solverRunning
  }

  /** Every move of a worker brings it nearer to stopping: it finishes the message in hand and
      takes at most one more. */
  lemma {:induction false} MoveLowersRank(c: Config, s: State, i: nat, m: Move)
    requires Terse(c) && Known(s) && i < |s.workers| && MoveEnabled(c, s, i, m) && Stopping(s)
    ensures Rank(WorkerStep(c, s, i, m).workers[i]) < Rank(s.workers[i])
  {
    match s.workers[i]
    case Took(k) =>
      assert Holds(s.workers[i], k);
      assert |c.decode(s.inputs[k]).bumps| <= 4;
    case Decoding(k, _) => assert Holds(s.workers[i], k);
    case Failing(k) => assert EndFailing(c, s, i, k, m).workers[i] in {Head, Stopped(Some(k))};
    case Sending(k) => assert EndSending(c, s, i, k, m).workers[i] in {Head, Stopped(Some(k))};
    case _ =>
  }

  predicate Mine(a: Action, i: nat) {
    a.Do? && a.i == i
  }

  lemma {:induction false} StepLowersRank(c: Config, s: State, a: Action, i: nat)
    requires Terse(c) && Known(s) && Enabled(c, s, a) && Stopping(s) && i < |s.workers|
    ensures Stopping(Apply(c, s, a)) && |Apply(c, s, a).workers| == |s.workers|
    ensures Rank(Apply(c, s, a).workers[i]) + One(Mine(a, i)) <= Rank(s.workers[i])
  {
    FlagsOnlyFall(c, s, a);
    if a.Do? {
      MoveLowersRank(c, s, a.i, a.move);
      OnlyOneWorkerMoves(c, s, a.i, a.move);
    }
  }

  lemma {:induction false} RunLowersRank(c: Config, states: seq<State>, actions: seq<Action>, k: nat, i: nat)
    requires Terse(c) && PipelineRuns.IsRun(c, states, actions) && k < |actions| && Stopping(states[k])
    requires i < |states[k].workers|
    ensures Stopping(states[k + 1]) && |states[k + 1].workers| == |states[k].workers|
    ensures Rank(states[k + 1].workers[i]) + One(Mine(actions[k], i)) <= Rank(states[k].workers[i])
  {
    PipelineRuns.StepOf(c, states, actions, k);
    StepLowersRank(c, states[k], actions[k], i);
  }

  /** The moves of worker i among some actions. */
  function Moves(actions: seq<Action>, i: nat): (n: nat) {
    if actions == [] then 0 else Moves(actions[..|actions| - 1], i) + One(Mine(actions[|actions| - 1], i))
  }

  lemma {:induction false} MovesMore(actions: seq<Action>, k: nat, m: nat, i: nat)
    requires k <= m < |actions|
    ensures Moves(actions[k..m + 1], i) == Moves(actions[k..m], i) + One(Mine(actions[m], i))
  {
    var s := actions[k..m + 1];
    assert s[..|s| - 1] == actions[k..m] && s[|s| - 1] == actions[m];
  }

  lemma {:induction false} FallingRanks(ranks: seq<nat>, actions: seq<Action>, k: nat, m: nat, i: nat)
    requires |ranks| == |actions| + 1 && k <= m < |ranks|
    requires forall j :: k <= j < m ==> ranks[j + 1] + One(Mine(actions[j], i)) <= ranks[j]
    ensures ranks[m] + Moves(actions[k..m], i) <= ranks[k]
    decreases m
  {
    if k < m {
      FallingRanks(ranks, actions, k, m - 1, i);
      MovesMore(actions, k, m - 1, i);
    }
  }

  lemma {:induction false} StaysStopping(c: Config, states: seq<State>, actions: seq<Action>, k: nat, m: nat, i: nat)
    requires Terse(c) && PipelineRuns.IsRun(c, states, actions)
    requires k <= m < |states| && Stopping(states[k]) && i < |states[k].workers|
    ensures Stopping(states[m]) && i < |states[m].workers|
  {
    forall j | k <= j < m
      ensures StopsOn(states[j], states[j + 1], i)
    {
      StepStopsOn(c, states, actions, j, i);
    }
    StopsThrough(states, k, m, i);
  }

  /** A step from a stopping state with worker i leads to another. */
  ghost predicate StopsOn(s: State, t: State, i: nat) {
    Stopping(s) && i < |s.workers| ==> Stopping(t) && i < |t.workers|
  }

  lemma {:induction false} StepStopsOn(c: Config, states: seq<State>, actions: seq<Action>, k: nat, i: nat)
    requires Terse(c) && PipelineRuns.IsRun(c, states, actions) && k < |actions|
    ensures StopsOn(states[k], states[k + 1], i)
  {
    if Stopping(states[k]) && i < |states[k].workers| {
      RunLowersRank(c, states, actions, k, i);
    }
  }

  lemma {:induction false} StopsThrough(states: seq<State>, k: nat, m: nat, i: nat)
    requires k <= m < |states| && Stopping(states[k]) && i < |states[k].workers|
    requires forall j :: k <= j < m ==> StopsOn(states[j], states[j + 1], i)
    ensures Stopping(states[m]) && i < |states[m].workers|
    decreases m
  {
    if k < m {
      StopsThrough(states, k, m - 1, i);
      assert StopsOn(states[m - 1], states[m - 1 + 1], i);
    }
  }

  function RankAt(s: State, i: nat): (n: nat) {
    if i < |s.workers| then Rank(s.workers[i]) else 0
  }

  lemma {:induction false} MovesBounded(c: Config, states: seq<State>, actions: seq<Action>, k: nat, m: nat, i: nat)
    requires Terse(c) && PipelineRuns.IsRun(c, states, actions)
    requires k <= m < |states| && Stopping(states[k]) && i < |states[k].workers|
    ensures RankAt(states[m], i) + Moves(actions[k..m], i) <= RankAt(states[k], i)
  {
    var ranks := seq(|states|, j requires 0 <= j < |states| => RankAt(states[j], i));
    forall j | k <= j < m
      ensures ranks[j + 1] + One(Mine(actions[j], i)) <= ranks[j]
    {
      StaysStopping(c, states, actions, k, j, i);
      RunLowersRank(c, states, actions, j, i);
    }
    FallingRanks(ranks, actions, k, m, i);
  }

  /** A decode call never has more than four increments to come. */
  ghost predicate Brief(ws: seq<Phase>) {
    forall i :: 0 <= i < |ws| ==> Rank(ws[i]) <= 9
  }

  lemma {:induction false} StepBrief(c: Config, s: State, a: Action)
    requires Terse(c) && Known(s) && Enabled(c, s, a) && Brief(s.workers)
    ensures Brief(Apply(c, s, a).workers)
  {
    FlagsOnlyFall(c, s, a);
    if a.Do? {
      var i, p := a.i, s.workers[a.i];
      OnlyOneWorkerMoves(c, s, i, a.move);
      assert Rank(p) <= 9;
      match p
      case Took(k) =>
        assert Holds(p, k);
        assert |c.decode(s.inputs[k]).bumps| <= 4;
      case Decoding(k, _) => assert Holds(p, k);
      case Failing(k) => assert EndFailing(c, s, i, k, a.move).workers[i] in {Head, Stopped(Some(k))};
      case Sending(k) => assert EndSending(c, s, i, k, a.move).workers[i] in {Head, Stopped(Some(k))};
      case _ =>
    }
  }

  lemma {:induction false} RunBrief(c: Config, states: seq<State>, actions: seq<Action>, k: nat)
    requires Terse(c) && PipelineRuns.IsRun(c, states, actions) && k < |states|
    ensures Brief(states[k].workers)
  {
    if k > 0 {
      RunBrief(c, states, actions, k - 1);
      StepBrief(c, states[k - 1], actions[k - 1]);
    }
  }

  /** From any moment at which the running flags are down, each worker makes at most nine moves. */
  lemma {:induction false} ShutdownIsBounded(c: Config, states: seq<State>, actions: seq<Action>,
                                             k: nat, m: nat, i: nat)
    requires Terse(c) && PipelineRuns.IsRun(c, states, actions)
    requires k <= m < |states| && Stopping(states[k]) && i < |states[k].workers|
    ensures Moves(actions[k..m], i) <= Rank(states[k].workers[i]) <= 9
  {
    MovesBounded(c, states, actions, k, m, i);
    RunBrief(c, states, actions, k);
  }

  /** And no worker is ever stuck: once its context is cancelled, a worker that has not stopped has
      a move it can make, whatever the channels hold. */
  lemma {:induction false} NeverStuck(c: Config, s: State, i: nat) returns (m: Move)
    requires i < |s.workers| && !s.workers[i].Stopped? && Cancelled(c, s, i)
    ensures MoveEnabled(c, s, i, m)
  {
    match s.workers[i]
    case Head => m := if Running(c, s, i) then Begin else Leave;
    case Select => m := SeeCancel;
    case Failing(_) =>
      m := if |s.chans.errors| < c.errorSize then Send else if RoleOf(c, i).OwnLoop? then Lose else Drop;
    case Sending(_) => m := Lose;
    case _ => m := Work(true);
  }
}
