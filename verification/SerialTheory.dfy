/** What the frames cut from the byte stream are: for every trace the loop can meet. */
module SerialTheory {
  import opened Words
  import opened Serial

  function Flat(parts: seq<seq<byte>>): (whole: seq<byte>) {
    if parts == [] then [] else Flat(parts[..|parts| - 1]) + parts[|parts| - 1]
  }

  lemma {:induction false} FlatMore(parts: seq<seq<byte>>, part: seq<byte>)
    ensures Flat(parts + [part]) == Flat(parts) + part
  {
    assert (parts + [part])[..|parts|] == parts;
  }

  ghost predicate AllPossible(trace: seq<Event>) {
    forall i :: 0 <= i < |trace| ==> Possible(trace[i])
  }

  // ----- no byte lost, none invented

  /** The bytes a pass of the loop takes in. */
  function Taken(s: State, e: Event): (bytes: seq<byte>) {
    if e.Read? && !s.stopped then e.data else []
  }

  /** The bytes read before the loop stopped. */
  function BytesRead(s: State, trace: seq<Event>): (bytes: seq<byte>) {
    if trace == [] then []
    else
      var front := trace[..|trace| - 1];
      BytesRead(s, front) + Taken(Run(s, front), trace[|trace| - 1])
  }

  /** Everything that has come in: the frames, then the pending bytes. */
  function Trail(s: State): (bytes: seq<byte>) {
    Flat(s.frames) + s.buffer
  }

  lemma {:induction false} FlushKeeps(c: bool, s: State)
    ensures Trail(FlushIf(c, s)) == Trail(s)
  {
    FlatMore(s.frames, s.buffer);
  }

  lemma {:induction false} AppendKeeps(s: State, data: seq<byte>, now: int)
    ensures Trail(s.(buffer := s.buffer + data, last := now)) == Trail(s) + data
  {
  }

  lemma {:induction false} ReceiveKeeps(s: State, data: seq<byte>, now: int)
    ensures Trail(Receive(s, data, now)) == Trail(s) + data
  {
    var s1 := FlushIf(now - s.last > IDLE_NANOS, s);
    FlushKeeps(now - s.last > IDLE_NANOS, s);
    FlushKeeps(|s1.buffer| + |data| > MAX_FRAME, s1);
    var s2 := MakeRoom(s, |data|, now);
    assert Trail(s2) == Trail(s);
    var s3 := s2.(buffer := s2.buffer + data, last := now);
    AppendKeeps(s2, data, now);
    FlushKeeps(|s3.buffer| >= FLUSH_AT, s3);
  }

  lemma {:induction false} StepKeeps(s: State, e: Event)
    ensures Trail(Step(s, e)) == Trail(s) + Taken(s, e)
  {
    var s1 := s.(errors := if e.Read? then 0 else s.errors + 1);
    FlushKeeps(true, s);
    FlushKeeps(true, s1);
    if e.Read? && e.data != [] {
      ReceiveKeeps(s1, e.data, e.now);
    }
  }

  /** For every trace, the frames followed by the pending bytes are exactly the bytes read. */
  lemma {:induction false} NoByteLost(s: State, trace: seq<Event>)
    ensures Trail(Run(s, trace)) == Trail(s) + BytesRead(s, trace)
    decreases |trace|
  {
    if trace == [] {
    } else {
      var front := trace[..|trace| - 1];
      NoByteLost(s, front);
      StepKeeps(Run(s, front), trace[|trace| - 1]);
    }
  }

  /** A stopped loop has dispatched everything it read, unless what stopped it was the port going
      away: then the bytes pending at that moment are never dispatched. */
  lemma {:induction false} OnlyAGonePortLosesBytes(s: State, trace: seq<Event>) returns (i: nat)
    requires !s.stopped && Run(s, trace).stopped
    ensures i < |trace| && !Run(s, trace[..i]).stopped && Run(s, trace[..i + 1]).stopped
    ensures Run(s, trace).buffer == if trace[i].PortGone? then Run(s, trace[..i]).buffer else []
    decreases |trace|
  {
    var front := trace[..|trace| - 1];
    if Run(s, front).stopped {
      i := OnlyAGonePortLosesBytes(s, front);
      assert front[..i] == trace[..i] && front[..i + 1] == trace[..i + 1];
    } else {
      i := |trace| - 1;
      assert trace[..i + 1] == trace;
    }
  }

  // ----- what stops the loop

  /** The failures since the last successful read. */
  function Failures(trace: seq<Event>): (n: nat) {
    if trace == [] then 0
    else
      var e := trace[|trace| - 1];
      if e.Read? then 0
      else if e.TimeoutError? || (e.ReadError? && e.running) then Failures(trace[..|trace| - 1]) + 1
      else Failures(trace[..|trace| - 1])
  }

  /** The event ends a loop that has met the trace: the running flag is down, the context is done or the
      port gone at the loop head; a read fails while the flag is down; or a read fails after at least a
      hundred failures in a row and the context is done during the back-off. */
  predicate Ends(trace: seq<Event>, e: Event) {
    match e
    case StopSeen => true
    case Cancelled => true
    case PortGone => true
    case TimeoutError => false
    case ReadError(running, cancelled) => !running || (cancelled && Failures(trace) >= 100)
    case Read(_, _) => false
  }

  /** The loop has stopped exactly when some event of the trace ends it; until then its error count is
      the number of failures in a row, whatever else it has met. */
  lemma {:induction false} StopsIff(trace: seq<Event>, now: int)
    ensures Run(Start([], 0, now), trace).stopped <==> exists i :: 0 <= i < |trace| && Ends(trace[..i], trace[i])
    ensures !Run(Start([], 0, now), trace).stopped ==> Run(Start([], 0, now), trace).errors == Failures(trace)
    decreases |trace|
  {
    if trace != [] {
      var n := |trace| - 1;
      var front := trace[..n];
      StopsIff(front, now);
      EndedLater(trace);
      StepEnds(Run(Start([], 0, now), front), front, trace[n]);
      assert trace == front + [trace[n]];
    }
  }

  lemma {:induction false} EndedLater(trace: seq<Event>)
    requires trace != []
    ensures var front := trace[..|trace| - 1];
            (exists i :: 0 <= i < |trace| && Ends(trace[..i], trace[i]))
            <==> (exists i :: 0 <= i < |front| && Ends(front[..i], front[i])) || Ends(front, trace[|trace| - 1])
  {
    var front := trace[..|trace| - 1];
    assert forall i :: 0 <= i < |front| ==> front[..i] == trace[..i] && front[i] == trace[i];
    if Ends(front, trace[|trace| - 1]) {
      assert Ends(trace[..|trace| - 1], trace[|trace| - 1]);
    }
    if i :| 0 <= i < |front| && Ends(front[..i], front[i]) {
      assert Ends(trace[..i], trace[i]);
    }
  }

  lemma {:induction false} StepEnds(s: State, trace: seq<Event>, e: Event)
    requires !s.stopped ==> s.errors == Failures(trace)
    ensures Step(s, e).stopped <==> s.stopped || Ends(trace, e)
    ensures !Step(s, e).stopped ==> Step(s, e).errors == Failures(trace + [e])
  {
    assert (trace + [e])[..|trace|] == trace;
  }

  // ----- sizes

  ghost predicate Sized(s: State) {
    && |s.buffer| < 256
    && forall i :: 0 <= i < |s.frames| ==> 0 < |s.frames[i]| <= 4096
  }

  lemma {:induction false} StepSized(s: State, e: Event)
    requires Sized(s) && Possible(e)
    ensures Sized(Step(s, e))
  {
    if !s.stopped && e.Read? && e.data != [] {
      var s0 := s.(errors := 0);
      var s1 := MakeRoom(s0, |e.data|, e.now);
      assert Sized(s1) && |s1.buffer| + |e.data| <= MAX_FRAME;
    }
  }

  /** At every loop head every frame is non-empty and within the limit, and under 256 bytes are pending. */
  lemma {:induction false} FramesAreBounded(s: State, trace: seq<Event>)
    requires Sized(s) && AllPossible(trace)
    ensures Sized(Run(s, trace))
    decreases |trace|
  {
    if trace == [] {
    } else {
      var front := trace[..|trace| - 1];
      FramesAreBounded(s, front);
      StepSized(Run(s, front), trace[|trace| - 1]);
    }
  }

  // ----- splitting at silences

  /** The chunks read, grouped into bursts by silences of more than 5 ms or empty reads alone; open while the
      next chunk may still join the last burst. */
  datatype Cut = Cut(bursts: seq<seq<seq<byte>>>, open: bool, last: int)

  function Extend(c: Cut, e: Event): (d: Cut) {
    if !e.Read? then c
    else if e.data == [] then c.(open := false)
    else if c.open && c.bursts != [] && e.now - c.last <= 5_000_000 then
      var k := |c.bursts| - 1;
      Cut(c.bursts[..k] + [c.bursts[k] + [e.data]], true, e.now)
    else Cut(c.bursts + [[e.data]], true, e.now)
  }

  function Bursts(trace: seq<Event>, now: int): (c: Cut) {
    if trace == [] then Cut([], false, now)
    else Extend(Bursts(trace[..|trace| - 1], now), trace[|trace| - 1])
  }

  /** A burst as the size limits cut it: pieces complete, and the bytes that may still grow. */
  datatype Pieces = Pieces(done: seq<seq<byte>>, pending: seq<byte>)

  /** The bytes waiting go out when the chunk would not fit behind them, and with it when long enough. */
  function AddChunk(p: Pieces, chunk: seq<byte>): (q: Pieces) {
    var whole := if |p.pending| + |chunk| <= 4096 then p.pending + chunk else chunk;
    var before := if p.pending != [] && |p.pending| + |chunk| > 4096 then p.done + [p.pending] else p.done;
    if |whole| < 256 then Pieces(before, whole) else Pieces(before + [whole], [])
  }

  function CutUp(burst: seq<seq<byte>>): (p: Pieces) {
    if burst == [] then Pieces([], []) else AddChunk(CutUp(burst[..|burst| - 1]), burst[|burst| - 1])
  }

  /** The frames that one burst makes on its own. */
  function PiecesOf(burst: seq<seq<byte>>): (frames: seq<seq<byte>>) {
    var p := CutUp(burst);
    if p.pending == [] then p.done else p.done + [p.pending]
  }

  /** The frames of every burst in turn. */
  function FramesOf(bursts: seq<seq<seq<byte>>>): (frames: seq<seq<byte>>) {
    if bursts == [] then [] else FramesOf(bursts[..|bursts| - 1]) + PiecesOf(bursts[|bursts| - 1])
  }

  /** The frames dispatched, and the pending bytes as the frame they would make. */
  function Delivered(s: State): (frames: seq<seq<byte>>) {
    if s.buffer == [] then s.frames else s.frames + [s.buffer]
  }

  /** The loop's own view of a read: it joins the pending bytes or starts a new frame. */
  predicate Joins(s: State, n: nat, now: int) {
    s.buffer != [] && now - s.last <= IDLE_NANOS && |s.buffer| + n <= MAX_FRAME
  }

  lemma {:induction false} ReceiveDelivers(s: State, data: seq<byte>, now: int)
    requires data != [] && |data| <= READ_SIZE
    ensures var t := Receive(s, data, now);
            var piece := if Joins(s, |data|, now) then s.buffer + data else data;
            && Delivered(t) == (if Joins(s, |data|, now) then s.frames else Delivered(s)) + [piece]
            && t.buffer == (if |piece| < FLUSH_AT then piece else [])
            && t.last == now
  {
    assert [] + data == data;
  }

  lemma {:induction false} CutMore(burst: seq<seq<byte>>, chunk: seq<byte>)
    ensures CutUp(burst + [chunk]) == AddChunk(CutUp(burst), chunk)
  {
    assert (burst + [chunk])[..|burst|] == burst;
  }

  lemma {:induction false} FramesMore(bursts: seq<seq<seq<byte>>>, burst: seq<seq<byte>>)
    ensures FramesOf(bursts + [burst]) == FramesOf(bursts) + PiecesOf(burst)
  {
    assert (bursts + [burst])[..|bursts|] == bursts;
  }

  /** What a chunk does to the frames of its burst. */
  lemma {:induction false} PiecesMore(burst: seq<seq<byte>>, chunk: seq<byte>)
    requires chunk != [] && |chunk| <= READ_SIZE
    ensures var p := CutUp(burst);
            var joins := p.pending != [] && |p.pending| + |chunk| <= MAX_FRAME;
            var piece := if joins then p.pending + chunk else chunk;
            && PiecesOf(burst + [chunk]) == (if joins then p.done else PiecesOf(burst)) + [piece]
            && CutUp(burst + [chunk]).pending == if |piece| < FLUSH_AT then piece else []
  {
    CutMore(burst, chunk);
    assert [] + chunk == chunk;
  }

  lemma {:induction false} Assoc<T>(a: seq<T>, b: seq<T>, c: seq<T>)
    ensures (a + b) + c == a + (b + c)
  {}

  /** The frames delivered are those of the bursts, and the pending bytes those of the open burst. */
  ghost predicate InStep(s: State, c: Cut) {
    && !s.stopped && s.last == c.last && Delivered(s) == FramesOf(c.bursts)
    && (c.open ==> c.bursts != [] && s.buffer == CutUp(c.bursts[|c.bursts| - 1]).pending)
    && (!c.open ==> s.buffer == [])
  }

  /** A read that opens a new burst. */
  lemma {:induction false} OpensBurst(s: State, c: Cut, data: seq<byte>, now: int)
    requires data != [] && |data| <= READ_SIZE && InStep(s, c) && (c.open ==> now - c.last > IDLE_NANOS)
    ensures InStep(Receive(s, data, now), Cut(c.bursts + [[data]], true, now))
  {
    ReceiveDelivers(s, data, now);
    assert [] + [data] == [data];
    PiecesMore([], data);
    FramesMore(c.bursts, [data]);
  }

  /** A read that goes on with the last burst. */
  lemma {:induction false} ContinuesBurst(s: State, front: seq<seq<seq<byte>>>, burst: seq<seq<byte>>,
                                          data: seq<byte>, now: int)
    requires data != [] && |data| <= READ_SIZE && InStep(s, Cut(front + [burst], true, s.last))
    requires now - s.last <= IDLE_NANOS
    ensures InStep(Receive(s, data, now), Cut(front + [burst + [data]], true, now))
  {
    assert (front + [burst])[|front|] == burst;
    FramesMore(front, burst);
    FramesMore(front, burst + [data]);
    GrowsAlike(s, FramesOf(front), burst, data, now);
    assert (front + [burst + [data]])[|front|] == burst + [data];
  }

  /** A read within a burst changes the frames delivered as it changes the pieces of the burst. */
  lemma {:induction false} GrowsAlike(s: State, earlier: seq<seq<byte>>, burst: seq<seq<byte>>,
                                      data: seq<byte>, now: int)
    requires data != [] && |data| <= READ_SIZE && now - s.last <= IDLE_NANOS
    requires Delivered(s) == earlier + PiecesOf(burst) && s.buffer == CutUp(burst).pending
    ensures var t := Receive(s, data, now);
            && Delivered(t) == earlier + PiecesOf(burst + [data]) && t.buffer == CutUp(burst + [data]).pending
            && t.last == now && t.stopped == s.stopped
  {
    ReceiveDelivers(s, data, now);
    PiecesMore(burst, data);
    if Joins(s, |data|, now) {
      SplitLast(s, earlier, burst);
      Assoc(earlier, CutUp(burst).done, [s.buffer + data]);
    } else {
      Assoc(earlier, PiecesOf(burst), [data]);
    }
  }

  lemma {:induction false} SplitLast(s: State, earlier: seq<seq<byte>>, burst: seq<seq<byte>>)
    requires Delivered(s) == earlier + PiecesOf(burst) && s.buffer == CutUp(burst).pending
    ensures s.frames == earlier + CutUp(burst).done
  {
    if s.buffer != [] {
      var d := CutUp(burst).done;
      assert s.frames == (s.frames + [s.buffer])[..|s.frames|];
      assert earlier + (d + [s.buffer]) == (earlier + d) + [s.buffer];
    }
  }

  lemma {:induction false} StepInStep(s: State, c: Cut, e: Event)
    requires InStep(s, c) && Possible(e) && !Step(s, e).stopped
    ensures InStep(Step(s, e), Extend(c, e))
  {
    if e.Read? && e.data != [] {
      var s0 := s.(errors := 0);
      assert Delivered(s0) == Delivered(s);
      if c.open && e.now - c.last <= IDLE_NANOS {
        var front, burst := c.bursts[..|c.bursts| - 1], c.bursts[|c.bursts| - 1];
        assert c == Cut(front + [burst], true, s.last);
        ContinuesBurst(s0, front, burst, e.data, e.now);
      } else {
        OpensBurst(s0, c, e.data, e.now);
      }
    }
  }

  /** For every trace still running, the frames delivered are those that each burst between silences
      makes on its own. */
  lemma {:induction false} DeliveredIsFramesOf(trace: seq<Event>, now: int)
    requires AllPossible(trace) && !Run(Start([], 0, now), trace).stopped
    ensures InStep(Run(Start([], 0, now), trace), Bursts(trace, now))
    decreases |trace|
  {
    if trace != [] {
      var front := trace[..|trace| - 1];
      DeliveredIsFramesOf(front, now);
      StepInStep(Run(Start([], 0, now), front), Bursts(front, now), trace[|trace| - 1]);
    }
  }

  // ----- which bursts are one frame

  /** Short enough to be framed whole: below the flushing size before its last chunk, and within
      the frame limit with it. */
  predicate Fits(burst: seq<seq<byte>>) {
    burst != [] && |Flat(burst[..|burst| - 1])| < 256 && |Flat(burst)| <= 4096
  }

  ghost predicate Chunked(burst: seq<seq<byte>>) {
    forall i :: 0 <= i < |burst| ==> burst[i] != [] && |burst[i]| <= READ_SIZE
  }

  /** One piece so far, still pending if it is short. */
  predicate Intact(burst: seq<seq<byte>>) {
    && PiecesOf(burst) == [Flat(burst)]
    && CutUp(burst).pending == if |Flat(burst)| < FLUSH_AT then Flat(burst) else []
  }

  lemma {:induction false} FirstChunk(chunk: seq<byte>)
    requires chunk != [] && |chunk| <= READ_SIZE
    ensures Intact([chunk]) && Fits([chunk])
  {
    PiecesMore([], chunk);
    FlatMore([], chunk);
    assert [] + [chunk] == [chunk] && [] + chunk == chunk && [chunk][..0] == [];
  }

  lemma {:induction false} FitsMore(burst: seq<seq<byte>>, chunk: seq<byte>)
    requires burst != [] && chunk != []
    ensures Flat(burst + [chunk]) == Flat(burst) + chunk
    ensures Fits(burst + [chunk]) <==> |Flat(burst)| < FLUSH_AT && |Flat(burst)| + |chunk| <= MAX_FRAME
    ensures Fits(burst + [chunk]) ==> Fits(burst)
  {
    FlatMore(burst, chunk);
    assert (burst + [chunk])[..|burst|] == burst;
    FlatMore(burst[..|burst| - 1], burst[|burst| - 1]);
  }

  /** A burst that fits is one piece, and one that does not is at least two. */
  lemma {:induction false} WholeOrMore(burst: seq<seq<byte>>)
    requires burst != [] && Chunked(burst)
    ensures if Fits(burst) then Intact(burst) else |PiecesOf(burst)| >= 2
    ensures Flat(burst) != []
  {
    var front, chunk := burst[..|burst| - 1], burst[|burst| - 1];
    assert burst == front + [chunk];
    if front == [] {
      FirstChunk(chunk);
      assert burst == [chunk];
    } else {
      WholeOrMore(front);
      FitsMore(front, chunk);
      PiecesMore(front, chunk);
    }
  }

  /** A burst comes out as one frame exactly when it fits. */
  lemma {:induction false} OnePieceIff(burst: seq<seq<byte>>)
    requires burst != [] && Chunked(burst)
    ensures PiecesOf(burst) == [Flat(burst)] <==> Fits(burst)
  {
    WholeOrMore(burst);
  }

  // ----- the frames of a stopped loop, burst by burst

  ghost predicate AllChunked(bursts: seq<seq<seq<byte>>>) {
    forall i :: 0 <= i < |bursts| ==> bursts[i] != [] && Chunked(bursts[i])
  }

  lemma {:induction false} StepChunked(c: Cut, e: Event)
    requires AllChunked(c.bursts) && Possible(e)
    ensures AllChunked(Extend(c, e).bursts)
  {
    if e.Read? && e.data != [] {
      assert Chunked([e.data]);
      if c.open && c.bursts != [] && e.now - c.last <= IDLE_NANOS {
        assert Chunked(c.bursts[|c.bursts| - 1] + [e.data]);
      }
    }
  }

  lemma {:induction false} BurstsAreChunked(trace: seq<Event>, now: int)
    requires AllPossible(trace)
    ensures AllChunked(Bursts(trace, now).bursts)
    decreases |trace|
  {
    if trace != [] {
      BurstsAreChunked(trace[..|trace| - 1], now);
      StepChunked(Bursts(trace[..|trace| - 1], now), trace[|trace| - 1]);
    }
  }

  /** The trace has not stopped the loop, and e does. */
  ghost predicate Stops(trace: seq<Event>, now: int, e: Event) {
    var s := Run(Start([], 0, now), trace);
    AllPossible(trace) && !s.stopped && Step(s, e).stopped
  }

  /** What has been dispatched once the loop has met the trace and then e. */
  function FramesAfter(trace: seq<Event>, now: int, e: Event): (frames: seq<seq<byte>>) {
    Run(Start([], 0, now), trace + [e]).frames
  }

  /** Whatever stops the loop, every burst is cut up on its own; only the port going away leaves the
      last piece pending instead of dispatched. */
  lemma {:induction false} StoppedFrames(trace: seq<Event>, now: int, e: Event)
    requires Stops(trace, now, e)
    ensures Delivered(Run(Start([], 0, now), trace + [e])) == FramesOf(Bursts(trace, now).bursts)
    ensures !e.PortGone? ==> FramesAfter(trace, now, e) == FramesOf(Bursts(trace, now).bursts)
  {
    assert (trace + [e])[..|trace|] == trace;
    DeliveredIsFramesOf(trace, now);
  }

  lemma {:induction false} FramesConcat(a: seq<seq<seq<byte>>>, b: seq<seq<seq<byte>>>)
    ensures FramesOf(a + b) == FramesOf(a) + FramesOf(b)
    decreases |b|
  {
    if b == [] {
      assert a + b == a;
    } else {
      var front, last := b[..|b| - 1], b[|b| - 1];
      assert b == front + [last];
      FramesMore(front, last);
      Assoc(a, front, [last]);
      FramesMore(a + front, last);
      FramesConcat(a, front);
      Assoc(FramesOf(a), FramesOf(front), PiecesOf(last));
    }
  }

  lemma {:induction false} FramesAround(bursts: seq<seq<seq<byte>>>, i: nat)
    requires i < |bursts|
    ensures FramesOf(bursts) == FramesOf(bursts[..i]) + PiecesOf(bursts[i]) + FramesOf(bursts[i + 1..])
  {
    assert bursts[..i + 1] == bursts[..i] + [bursts[i]];
    assert bursts == bursts[..i + 1] + bursts[i + 1..];
    FramesConcat(bursts[..i + 1], bursts[i + 1..]);
    FramesMore(bursts[..i], bursts[i]);
  }

  /** Wherever a burst stands in a trace, and whatever stops the loop short of the port going away, its
      own frames stand between those of the earlier and those of the later bursts, and they are the one
      frame holding it exactly when it fits. */
  lemma {:induction false} EachBurst(trace: seq<Event>, now: int, e: Event, i: nat)
    requires Stops(trace, now, e) && !e.PortGone? && i < |Bursts(trace, now).bursts|
    ensures var b := Bursts(trace, now).bursts;
            && FramesAfter(trace, now, e) == FramesOf(b[..i]) + PiecesOf(b[i]) + FramesOf(b[i + 1..])
            && (PiecesOf(b[i]) == [Flat(b[i])] <==> Fits(b[i]))
  {
    var b := Bursts(trace, now).bursts;
    StoppedFrames(trace, now, e);
    BurstsAreChunked(trace, now);
    OnePieceIff(b[i]);
    FramesAround(b, i);
  }

  function Joined(bursts: seq<seq<seq<byte>>>): (frames: seq<seq<byte>>)
    ensures |frames| == |bursts|
  {
    seq(|bursts|, i requires 0 <= i < |bursts| => Flat(bursts[i]))
  }

  lemma {:induction false} JoinedMore(front: seq<seq<seq<byte>>>, last: seq<seq<byte>>)
    ensures Joined(front + [last]) == Joined(front) + [Flat(last)]
  {}

  ghost predicate AllFit(bursts: seq<seq<seq<byte>>>) {
    forall i :: 0 <= i < |bursts| ==> Fits(bursts[i])
  }

  lemma {:induction false} AllFitMore(front: seq<seq<seq<byte>>>, last: seq<seq<byte>>)
    ensures AllFit(front + [last]) <==> AllFit(front) && Fits(last)
  {
    if AllFit(front + [last]) {
      assert (front + [last])[|front|] == last;
      assert forall i :: 0 <= i < |front| ==> (front + [last])[i] == front[i];
    }
  }

  /** Bursts that all fit are one frame each; otherwise there are more frames than bursts. */
  ghost predicate OneEachOrMore(bursts: seq<seq<seq<byte>>>) {
    && |FramesOf(bursts)| >= |bursts|
    && (AllFit(bursts) ==> FramesOf(bursts) == Joined(bursts))
    && (!AllFit(bursts) ==> |FramesOf(bursts)| > |bursts|)
  }

  predicate OneOrMore(burst: seq<seq<byte>>) {
    if Fits(burst) then PiecesOf(burst) == [Flat(burst)] else |PiecesOf(burst)| >= 2
  }

  lemma {:induction false} LastOneOrMore(bursts: seq<seq<seq<byte>>>)
    requires bursts != [] && AllChunked(bursts)
    ensures OneOrMore(bursts[|bursts| - 1]) && AllChunked(bursts[..|bursts| - 1])
  {
    WholeOrMore(bursts[|bursts| - 1]);
  }

  lemma {:induction false} OneMoreOrMore(front: seq<seq<seq<byte>>>, last: seq<seq<byte>>)
    requires OneEachOrMore(front) && OneOrMore(last)
    ensures OneEachOrMore(front + [last])
  {
    FramesMore(front, last);
    AllFitMore(front, last);
    if AllFit(front + [last]) {
      JoinedMore(front, last);
    }
  }

  lemma {:induction false} OneMoreAt(bursts: seq<seq<seq<byte>>>)
    requires bursts != [] && AllChunked(bursts) && OneEachOrMore(bursts[..|bursts| - 1])
    ensures OneEachOrMore(bursts)
  {
    LastOneOrMore(bursts);
    OneMoreOrMore(bursts[..|bursts| - 1], bursts[|bursts| - 1]);
    assert bursts == bursts[..|bursts| - 1] + [bursts[|bursts| - 1]];
  }

  lemma {:induction false} AllOrMore(bursts: seq<seq<seq<byte>>>)
    requires AllChunked(bursts)
    ensures OneEachOrMore(bursts)
  {
    if bursts == [] {
      assert Joined([]) == [];
    } else {
      AllOrMore(bursts[..|bursts| - 1]);
      OneMoreAt(bursts);
    }
  }

  /** The frames of a loop stopped by anything but the port going away are the bursts, one frame each,
      exactly when every burst fits. */
  lemma {:induction false} FramesAreBurstsIff(trace: seq<Event>, now: int, e: Event)
    requires Stops(trace, now, e) && !e.PortGone?
    ensures FramesAfter(trace, now, e) == Joined(Bursts(trace, now).bursts) <==> AllFit(Bursts(trace, now).bursts)
  {
    StoppedFrames(trace, now, e);
    BurstsAreChunked(trace, now);
    AllOrMore(Bursts(trace, now).bursts);
  }
}
