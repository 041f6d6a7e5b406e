/** Cutting the serial byte stream into frames. */
module Serial {
  import opened Words

  const MAX_FRAME: nat := 4096
  const READ_SIZE: nat := 4096
  const FLUSH_AT: nat := 256
  const IDLE_NANOS: int := 5_000_000
  const ERROR_THRESHOLD: nat := 100

  /** What one pass of the read loop meets; times are in nanoseconds. */
  datatype Event =
    | StopSeen                                   // the running flag is down at the loop head
    | Cancelled                                  // the context is done
    | PortGone                                   // the port has been taken away
    | TimeoutError                               // setting the read timeout failed
    | ReadError(running: bool, cancelled: bool)  // the read failed; cancelled is seen only while backing off
    | Read(data: seq<byte>, now: int)

  predicate Possible(e: Event) {
    e.Read? ==> |e.data| <= READ_SIZE
  }

  /** Frames dispatched so far, bytes buffered, time of the last byte, consecutive errors. */
  datatype State = State(frames: seq<seq<byte>>, buffer: seq<byte>, last: int, errors: nat, stopped: bool)

  function Start(frames: seq<seq<byte>>, errors: nat, now: int): (s: State) {
    State(frames, [], now, errors, false)
  }

  function Flush(s: State): (t: State) {
    if s.buffer == [] then s else s.(frames := s.frames + [s.buffer], buffer := [])
  }

  function FlushIf(c: bool, s: State): (t: State) {
    if c then Flush(s) else s
  }

  /** The pending bytes go out after a silence, and when the new ones would not fit behind them. */
  function MakeRoom(s: State, n: nat, now: int): (t: State) {
    var s1 := FlushIf(now - s.last > IDLE_NANOS, s);
    FlushIf(|s1.buffer| + n > MAX_FRAME, s1)
  }

  function Receive(s: State, data: seq<byte>, now: int): (t: State) {
    var s1 := MakeRoom(s, |data|, now);
    var s2 := s1.(buffer := s1.buffer + data, last := now);
    FlushIf(|s2.buffer| >= FLUSH_AT, s2)
  }

  function Halt(s: State): (t: State) {
    s.(stopped := true)
  }

  function Step(s: State, e: Event): (t: State) {
    if s.stopped then s
    else match e
      case StopSeen => Halt(Flush(s))
      case Cancelled => Halt(Flush(s))
      case PortGone => Halt(s)
      case TimeoutError => s.(errors := s.errors + 1)
      case ReadError(running, cancelled) =>
        if !running then Halt(Flush(s))
        else if s.errors + 1 > ERROR_THRESHOLD && cancelled then Halt(Flush(s.(errors := s.errors + 1)))
        else s.(errors := s.errors + 1)
      case Read(data, now) =>
        if data != [] then Receive(s.(errors := 0), data, now) else Flush(s.(errors := 0))
  }

  function Run(s: State, trace: seq<Event>): (t: State) {
    if trace == [] then s else Step(Run(s, trace[..|trace| - 1]), trace[|trace| - 1])
  }

  lemma {:induction false} StaysStopped(s: State, trace: seq<Event>, i: nat)
    requires i <= |trace|
    ensures Run(s, trace[..i]).stopped ==> Run(s, trace) == Run(s, trace[..i])
    decreases |trace|
  {
    if i == |trace| {
      assert trace[..i] == trace;
    } else {
      var front := trace[..|trace| - 1];
      StaysStopped(s, front, i);
      assert front[..i] == trace[..i];
    }
  }

  /** The frames whose dispatch the channel took. */
  function Accepted(frames: seq<seq<byte>>, outcomes: seq<bool>): (taken: seq<seq<byte>>)
    requires |frames| == |outcomes|
    ensures |taken| <= |frames|
  {
    if frames == [] then []
    else
      var k := |frames| - 1;
      Accepted(frames[..k], outcomes[..k]) + if outcomes[k] then [frames[k]] else []
  }

  function Total(frames: seq<seq<byte>>): (n: nat) {
    if frames == [] then 0 else Total(frames[..|frames| - 1]) + |frames[|frames| - 1]|
  }

  lemma {:induction false} OneMore(frames: seq<seq<byte>>, outcomes: seq<bool>, frame: seq<byte>, taken: bool)
    requires |frames| == |outcomes|
    ensures Accepted(frames + [frame], outcomes + [taken])
         == Accepted(frames, outcomes) + if taken then [frame] else []
  {
    assert (frames + [frame])[..|frames|] == frames && (outcomes + [taken])[..|frames|] == outcomes;
  }

  lemma {:induction false} TotalMore(frames: seq<seq<byte>>, frame: seq<byte>)
    ensures Total(frames + [frame]) == Total(frames) + |frame|
  {
    assert (frames + [frame])[..|frames|] == frames;
  }

  // ----- buffers

  /** A fresh copy of the first n bytes. */
  method Snapshot(a: array<byte>, n: nat) returns (copy: array<byte>)
    requires n <= a.Length
    ensures fresh(copy) && copy[..] == a[..n]
  {
    copy := new byte[n];
    for i := 0 to n
      invariant copy[..i] == a[..i]
    {
      copy[i] := a[i];
    }
  }

  /** Write data into a from position at on. */
  method PutAt(a: array<byte>, at: nat, data: seq<byte>)
    requires at + |data| <= a.Length
    modifies a
    ensures a[..at + |data|] == old(a[..at]) + data
  {
    for i := 0 to |data|
      invariant a[..at + i] == old(a[..at]) + data[..i]
    {
      a[at + i] := data[i];
    }
    assert data[..|data|] == data;
  }

  /** Append in place, moving to larger storage only when there is no room. */
  method AppendBytes(buf: array<byte>, used: nat, data: seq<byte>) returns (grown: array<byte>)
    requires used <= buf.Length
    modifies buf
    ensures used + |data| <= grown.Length && grown[..used + |data|] == old(buf[..used]) + data
    ensures grown == buf || fresh(grown)
  {
    grown := buf;
    if used + |data| > buf.Length {
      grown := new byte[used + |data|];
      var kept := buf[..used];
      PutAt(grown, 0, kept);
      assert grown[..used] == grown[..0] + kept;
    }
    PutAt(grown, used, data);
  }

  // ----- the loop

  class SerialGateway {
    /** Frames on the channel, each in storage of its own. */
    var sent: seq<array<byte>>
    var framesSent: nat
    var bytesSent: nat
    var totalErrors: nat
    /** Every frame offered so far, and whether the channel took it. */
    ghost var offered: seq<seq<byte>>
    ghost var outcomes: seq<bool>

    /** The channel holds copies of exactly the offered frames it took. */
    ghost predicate Valid()
      reads this, sent
    {
      |outcomes| == |offered| && Holds(Accepted(offered, outcomes))
    }

    ghost predicate Holds(taken: seq<seq<byte>>)
      reads this, sent
    {
      && |sent| == |taken| && (forall i :: 0 <= i < |sent| ==> sent[i][..] == taken[i])
      && framesSent == |taken| && bytesSent == Total(taken)
    }

    constructor ()
      ensures Valid() && sent == [] && offered == [] && totalErrors == 0
    {
      sent, framesSent, bytesSent, totalErrors := [], 0, 0, 0;
      offered, outcomes := [], [];
    }

    /** Offer a frame to the channel, which may be full or may lose the race with cancellation. */
    method Offer(frame: array<byte>)
      requires Valid()
      modifies this`sent, this`framesSent, this`bytesSent, this`offered, this`outcomes
      ensures Valid()
      ensures offered == old(offered) + [frame[..]] && old(outcomes) <= outcomes
      ensures sent == old(sent) || sent == old(sent) + [frame]
    {
      var taken: bool := *;
      ghost var before := Accepted(offered, outcomes);
      assert Holds(before);
      OneMore(offered, outcomes, frame[..], taken);
      offered, outcomes := offered + [frame[..]], outcomes + [taken];
      if taken {
        TotalMore(before, frame[..]);
        sent := sent + [frame];
        framesSent := framesSent + 1;
        bytesSent := bytesSent + frame.Length;
        assert Holds(before + [frame[..]]);
      } else {
        assert Accepted(offered, outcomes) == before;
      }
    }

    /** Offer the pending bytes as a frame with storage of its own. */
    method DispatchFrame(buf: array<byte>, used: nat)
      requires Valid() && used <= buf.Length && buf !in sent
      modifies this`sent, this`framesSent, this`bytesSent, this`offered, this`outcomes
      ensures Valid() && buf !in sent
      ensures offered == old(offered) + (if used == 0 then [] else [buf[..used]])
      ensures old(outcomes) <= outcomes
    {
      if used != 0 {
        var frame := Snapshot(buf, used);
        Offer(frame);
      }
    }

    /** The object and the first bytes of its read buffer stand for the state s. */
    ghost predicate Tracks(s: State, buf: array<byte>, used: nat)
      reads this, sent, buf
    {
      && Valid() && used <= buf.Length && buf !in sent
      && offered == s.frames && buf[..used] == s.buffer && totalErrors == s.errors
    }

    /** Dispatch the pending bytes if c says so; the storage is kept for the next bytes. */
    method FlushWhen(c: bool, buf: array<byte>, used0: nat, ghost s: State) returns (used: nat)
      requires Tracks(s, buf, used0)
      modifies this`sent, this`framesSent, this`bytesSent, this`offered, this`outcomes
      ensures Tracks(FlushIf(c, s), buf, used)
      ensures old(outcomes) <= outcomes
    {
      used := used0;
      if c {
        DispatchFrame(buf, used);
        used := 0;
      }
    }

    /** Append to the pending bytes; frames already on the channel keep their contents. */
    method Store(buf0: array<byte>, used: nat, data: seq<byte>, ghost s: State) returns (buf: array<byte>)
      requires Tracks(s, buf0, used)
      modifies buf0
      ensures Tracks(s.(buffer := s.buffer + data), buf, used + |data|)
      ensures buf == buf0 || fresh(buf)
    {
      buf := AppendBytes(buf0, used, data);
      assert forall i :: 0 <= i < |sent| ==> sent[i] != buf0;
    }

    method ClearFor(n: nat, now: int, last: int, buf: array<byte>, used0: nat, ghost s: State) returns (used: nat)
      requires Tracks(s, buf, used0) && s.last == last
      modifies this`sent, this`framesSent, this`bytesSent, this`offered, this`outcomes
      ensures Tracks(MakeRoom(s, n, now), buf, used)
      ensures old(outcomes) <= outcomes
    {
      used := FlushWhen(now - last > IDLE_NANOS, buf, used0, s);
      used := FlushWhen(used + n > MAX_FRAME, buf, used, FlushIf(now - s.last > IDLE_NANOS, s));
    }

    /** One read with data: flush after a silence or on overflow, append, flush when long enough. */
    method ReceiveBytes(buf0: array<byte>, used0: nat, last: int, data: seq<byte>, now: int, ghost s: State)
      returns (buf: array<byte>, used: nat)
      requires Tracks(s, buf0, used0) && s.last == last
      modifies this`sent, this`framesSent, this`bytesSent, this`offered, this`outcomes, buf0
      ensures Tracks(Receive(s, data, now), buf, used)
      ensures buf == buf0 || fresh(buf)
      ensures old(outcomes) <= outcomes
    {
      used := ClearFor(|data|, now, last, buf0, used0, s);
      ghost var s1 := MakeRoom(s, |data|, now);
      buf := Store(buf0, used, data, s1);
      used := used + |data|;
      used := FlushWhen(used >= FLUSH_AT, buf, used, s1.(buffer := s1.buffer + data, last := now));
    }

    /** A failed read; too many in a row make the loop back off, during which it may be cancelled. */
    method HandleReadError(running: bool, cancelled: bool, buf: array<byte>, used0: nat, ghost s: State)
      returns (used: nat, stopped: bool)
      requires Tracks(s, buf, used0) && !s.stopped
      modifies this
      ensures Tracks(Step(s, ReadError(running, cancelled)), buf, used)
      ensures stopped == Step(s, ReadError(running, cancelled)).stopped
      ensures old(outcomes) <= outcomes
    {
      used, stopped := used0, false;
      if !running {
        used := FlushWhen(true, buf, used, s);
        stopped := true;
      } else {
        totalErrors := totalErrors + 1;
        if totalErrors > ERROR_THRESHOLD && cancelled {
          used := FlushWhen(true, buf, used, s.(errors := s.errors + 1));
          stopped := true;
        }
      }
    }

    /** A successful read clears the error count; an empty one means silence on the line. */
    method HandleRead(buf0: array<byte>, used0: nat, last0: int, data: seq<byte>, now: int, ghost s: State)
      returns (buf: array<byte>, used: nat, last: int)
      requires Tracks(s, buf0, used0) && s.last == last0 && !s.stopped
      modifies this, buf0
      ensures Tracks(Step(s, Read(data, now)), buf, used) && last == Step(s, Read(data, now)).last
      ensures buf == buf0 || fresh(buf)
      ensures old(outcomes) <= outcomes
    {
      totalErrors := 0;
      buf, used, last := buf0, used0, last0;
      if data != [] {
        buf, used := ReceiveBytes(buf, used, last, data, now, s.(errors := 0));
        last := now;
      } else {
        used := FlushWhen(true, buf, used, s.(errors := 0));
      }
    }

    /** One pass of the loop. */
    method Pass(e: Event, buf0: array<byte>, used0: nat, last0: int, ghost s: State)
      returns (buf: array<byte>, used: nat, last: int, stopped: bool)
      requires Tracks(s, buf0, used0) && s.last == last0 && !s.stopped
      modifies this, buf0
      ensures Tracks(Step(s, e), buf, used) && last == Step(s, e).last && stopped == Step(s, e).stopped
      ensures buf == buf0 || fresh(buf)
      ensures old(outcomes) <= outcomes
    {
      buf, used, last, stopped := buf0, used0, last0, false;
      match e {
        case StopSeen =>
          used := FlushWhen(true, buf, used, s);
          stopped := true;
        case Cancelled =>
          used := FlushWhen(true, buf, used, s);
          stopped := true;
        case PortGone =>
          stopped := true;
        case TimeoutError =>
          totalErrors := totalErrors + 1;
        case ReadError(running, cancelled) =>
          used, stopped := HandleReadError(running, cancelled, buf, used, s);
        case Read(data, now) =>
          buf, used, last := HandleRead(buf, used, last, data, now, s);
      }
    }

    /** The loop over what it meets: it offers exactly the frames of the run and counts its errors. */
    method ReadLoop(trace: seq<Event>, now: int)
      requires Valid()
      modifies this
      ensures Valid() && old(outcomes) <= outcomes
      ensures offered == Run(Start(old(offered), old(totalErrors), now), trace).frames
      ensures totalErrors == Run(Start(old(offered), old(totalErrors), now), trace).errors
    {
      ghost var s0 := Start(offered, totalErrors, now);
      var buf := new byte[1024];
      var used, last, stopped, i := 0, now, false, 0;
      while i < |trace| && !stopped
        invariant i <= |trace| && fresh(buf) && old(outcomes) <= outcomes
        invariant Tracks(Run(s0, trace[..i]), buf, used)
        invariant last == Run(s0, trace[..i]).last && stopped == Run(s0, trace[..i]).stopped
      {
        buf, used, last, stopped := Pass(trace[i], buf, used, last, Run(s0, trace[..i]));
        assert trace[..i + 1][..i] == trace[..i];
        i := i + 1;
      }
      assert trace[..|trace|] == trace;
      StaysStopped(s0, trace, i);
    }
  }
}
