/** The outgoing byte stream of one connection, after Code/tcp/TcpConnection.cpp: direct
    writes, queued writes and partial writes must still give one unbroken stream. */
module TcpConnections {
  import opened Buffers
  import opened Channels

  datatype Errno = EAGAIN | EWOULDBLOCK | EPIPE | ECONNRESET | EOTHER

  /** What one write(2) call reports. */
  datatype WriteResult = Wrote(n: nat) | WriteFailed(errno: Errno)

  /** What one read(2) call reports. */
  datatype ReadResult = Received(chunk: string) | EndOfFile | ReadFailed(again: bool, interrupted: bool)

  predicate Fatal(errno: Errno) {
    errno == EPIPE || errno == ECONNRESET
  }

  /** The part of a connection that the stream depends on: bytes the kernel took, bytes that
      wait in the send buffer, and whether write events are asked for. */
  datatype Stream = Stream(open: bool, writing: bool, written: string, pending: string)

  const EMPTY := Stream(true, false, "", "")

  datatype Event =
    | Send(msg: string, result: WriteResult)
    | Writable(result: WriteResult)
    | Close

  /** A message goes to the socket at once only when nothing is waiting before it. */
  predicate Direct(s: Stream) {
    s.open && !s.writing && s.pending == ""
  }

  /** The write call that an event makes, if it makes one, takes no more than it is given. */
  ghost predicate Possible(s: Stream, e: Event) {
    match e
    case Send(msg, Wrote(n)) => Direct(s) ==> n <= |msg|
    case Writable(Wrote(n)) => s.open && s.writing ==> n <= |s.pending|
    case _ => true
  }

  /** The one message that is dropped on an open connection: its own direct write hit a dead peer. */
  predicate Dropped(s: Stream, e: Event) {
    e.Send? && (!s.open || (Direct(s) && e.result.WriteFailed? && Fatal(e.result.errno)))
  }

  /** A failed write in the write handler reaches `Retrieve` with -1 and stops on its assertion. */
  predicate Aborts(s: Stream, e: Event) {
    e.Writable? && s.open && s.writing && e.result.WriteFailed?
  }

  function Step(s: Stream, e: Event): Stream
    requires Possible(s, e) && !Aborts(s, e)
  {
    match e
    case Send(msg, result) =>
      if Dropped(s, e) then s
      else
        var n := if Direct(s) && result.Wrote? then result.n else 0;
        if n < |msg| then s.(writing := true, written := s.written + msg[..n], pending := s.pending + msg[n..])
        else s.(written := s.written + msg)
    case Writable(result) =>
      if s.open && s.writing then
        var left := s.pending[result.n..];
        s.(writing := left != "", written := s.written + s.pending[..result.n], pending := left)
      else s
    case Close => if s.open then s.(open := false, writing := false) else s
  }

  ghost predicate Legal(s: Stream, es: seq<Event>)
    decreases |es|
  {
    es != [] ==> Possible(s, es[0]) && !Aborts(s, es[0]) && Legal(Step(s, es[0]), es[1..])
  }

  ghost function Run(s: Stream, es: seq<Event>): Stream
    requires Legal(s, es)
    decreases |es|
  {
    if es == [] then s else Run(Step(s, es[0]), es[1..])
  }

  /** All bytes handed to SendInLoop, in order. */
  ghost function Offered(es: seq<Event>): string {
    if es == [] then ""
    else (if es[0].Send? then es[0].msg else "") + Offered(es[1..])
  }

  /** Those bytes of the run that belong to a message that was not dropped. */
  ghost function Kept(s: Stream, es: seq<Event>): string
    requires Legal(s, es)
    decreases |es|
  {
    if es == [] then ""
    else
      (if es[0].Send? && !Dropped(s, es[0]) then es[0].msg else "") + Kept(Step(s, es[0]), es[1..])
  }

  /** The peer is gone: what these two errors of a write mean. */
  ghost predicate PeerGone(r: WriteResult) {
    r == WriteFailed(EPIPE) || r == WriteFailed(ECONNRESET)
  }

  /** Some message with bytes in it was sent on a closed connection, or straight to a peer that is gone. */
  ghost predicate LosesBytes(s: Stream, es: seq<Event>)
    requires Legal(s, es)
    decreases |es|
  {
    es != [] &&
    (|| (es[0].Send? && es[0].msg != "" && (!s.open || (!s.writing && s.pending == "" && PeerGone(es[0].result))))
     || LosesBytes(Step(s, es[0]), es[1..]))
  }

  /** What the write calls of the run report as taken: a send makes one when nothing waits, a write event
      when write events are asked for. */
  ghost function Taken(s: Stream, es: seq<Event>): nat
    requires Legal(s, es)
    decreases |es|
  {
    if es == [] then 0
    else
      var e := es[0];
      (match e
       case Send(_, Wrote(n)) => if s.open && !s.writing && s.pending == "" then n else 0
       case Writable(Wrote(n)) => if s.open && s.writing then n else 0
       case _ => 0)
      + Taken(Step(s, e), es[1..])
  }

  /** Write interest is on exactly while bytes wait; a closed connection asks for nothing. */
  ghost predicate Tidy(s: Stream) {
    if s.open then s.writing <==> s.pending != "" else !s.writing
  }

  /** How much of the message the socket takes at once. */
  function TakenAtOnce(s: Stream, msg: string, result: WriteResult): nat {
    if Direct(s) && result.Wrote? then result.n else 0
  }

  /** A send, seen as a direct write and a rest that is queued. */
  lemma SendInTwo(s: Stream, msg: string, result: WriteResult)
    requires s.open && Possible(s, Send(msg, result))
    ensures var n := TakenAtOnce(s, msg, result);
            n <= |msg| && Step(s, Send(msg, result))
                          == var t := s.(written := s.written + msg[..n]);
                             if n < |msg| && !Dropped(s, Send(msg, result)) then t.(writing := true, pending := s.pending + msg[n..])
                             else t
  {
    var n := TakenAtOnce(s, msg, result);
    assert msg[..0] == "" && s.written + "" == s.written;
    assert n == |msg| ==> msg[..n] == msg;
  }

  lemma SendKeepsStream(s: Stream, msg: string, result: WriteResult)
    requires Tidy(s) && Possible(s, Send(msg, result)) && !Dropped(s, Send(msg, result))
    ensures var t := Step(s, Send(msg, result));
            Tidy(t) && t.written + t.pending == s.written + s.pending + msg && s.written <= t.written
  {
    var n := if Direct(s) && result.Wrote? then result.n else 0;
    var t := Step(s, Send(msg, result));
    if n < |msg| {
      assert t.written == s.written + msg[..n] && t.pending == s.pending + msg[n..];
      if n == 0 {
        assert msg[..0] == "" && msg[0..] == msg;
        assert s.written + "" == s.written;
        assert s.written + (s.pending + msg) == s.written + s.pending + msg;
      } else {
        assert s.pending == "";
        assert s.written + msg[..n] + ("" + msg[n..]) == s.written + "" + msg;
      }
    } else if msg == "" {
      assert t.written + t.pending == s.written + s.pending + msg;
    } else {
      assert s.pending == "";
      assert t.written + t.pending == s.written + msg;
    }
  }

  lemma WritableKeepsStream(s: Stream, result: WriteResult)
    requires Tidy(s) && Possible(s, Writable(result)) && !Aborts(s, Writable(result))
    ensures var t := Step(s, Writable(result));
            Tidy(t) && t.written + t.pending == s.written + s.pending && s.written <= t.written
  {
    if s.open && s.writing {
      assert s.pending[..result.n] + s.pending[result.n..] == s.pending;
    }
  }

  lemma StepKeepsStream(s: Stream, e: Event)
    requires Tidy(s) && Possible(s, e) && !Aborts(s, e)
    ensures Tidy(Step(s, e))
    ensures var t := Step(s, e);
            t.written + t.pending == s.written + s.pending + (if e.Send? && !Dropped(s, e) then e.msg else "")
    ensures s.written <= Step(s, e).written
  {
    assert s.written + s.pending + "" == s.written + s.pending;
    match e
    case Send(msg, result) =>
      if !Dropped(s, e) {
        SendKeepsStream(s, msg, result);
      }
    case Writable(result) => WritableKeepsStream(s, result);
    case Close =>
  }

  /** In every state of every run, the bytes on the wire followed by the bytes waiting are the
      kept messages, whole and in order. */
  lemma {:induction false} StreamIntegrity(s: Stream, es: seq<Event>)
    requires Tidy(s) && Legal(s, es)
    ensures Tidy(Run(s, es))
    ensures Run(s, es).written + Run(s, es).pending == s.written + s.pending + Kept(s, es)
    ensures s.written <= Run(s, es).written
    decreases |es|
  {
    if es == [] {
      assert s.written + s.pending + "" == s.written + s.pending;
    } else {
      var t := Step(s, es[0]);
      StepKeepsStream(s, es[0]);
      StreamIntegrity(t, es[1..]);
      var kept := if es[0].Send? && !Dropped(s, es[0]) then es[0].msg else "";
      assert s.written + s.pending + kept + Kept(t, es[1..]) == s.written + s.pending + (kept + Kept(t, es[1..]));
    }
  }

  lemma {:induction false} KeptLength(s: Stream, es: seq<Event>)
    requires Legal(s, es)
    ensures |Kept(s, es)| <= |Offered(es)|
    ensures Kept(s, es) == Offered(es) <==> !LosesBytes(s, es)
    ensures |Kept(s, es)| == |Offered(es)| <==> !LosesBytes(s, es)
    decreases |es|
  {
    if es != [] {
      KeptLength(Step(s, es[0]), es[1..]);
    }
  }

  /** From a fresh connection, the stream is exactly what was sent if and only if no message
      with bytes in it was sent on a closed connection or met EPIPE/ECONNRESET on a direct write. */
  lemma StreamIsCompleteIff(es: seq<Event>)
    requires Legal(EMPTY, es)
    ensures Run(EMPTY, es).written + Run(EMPTY, es).pending == Offered(es) <==> !LosesBytes(EMPTY, es)
  {
    StreamIntegrity(EMPTY, es);
    KeptLength(EMPTY, es);
    assert EMPTY.written + EMPTY.pending + Kept(EMPTY, es) == Kept(EMPTY, es);
  }

  /** So on a connection that stays open every byte of every message is kept, unless a send reports that the
      peer is gone: a full socket loses nothing. */
  lemma {:induction false} NothingLost(s: Stream, es: seq<Event>)
    requires Tidy(s) && s.open && Legal(s, es)
    requires forall i :: 0 <= i < |es| ==> !es[i].Close? && (es[i].Send? ==> !PeerGone(es[i].result))
    ensures Run(s, es).open && Run(s, es).written + Run(s, es).pending == s.written + s.pending + Offered(es)
    decreases |es|
  {
    if es == [] {
      Regroup(s.written + s.pending, "", "");
    } else {
      var t := Step(s, es[0]);
      var sent := if es[0].Send? then es[0].msg else "";
      StaysOpen(s, es[0]);
      StepKeepsStream(s, es[0]);
      hide Step, Tidy, Dropped, PeerGone, Possible, Aborts;
      NothingLost(t, es[1..]);
      Regroup(s.written + s.pending, sent, Offered(es[1..]));
    }
  }

  lemma StaysOpen(s: Stream, e: Event)
    requires s.open && Possible(s, e) && !Aborts(s, e) && !e.Close? && (e.Send? ==> !PeerGone(e.result))
    ensures Step(s, e).open && !Dropped(s, e)
  {
  }

  /** On the wire is what the write calls took, no more and no less. */
  lemma {:induction false} WrittenIsTaken(s: Stream, es: seq<Event>)
    requires Tidy(s) && Legal(s, es)
    ensures |Run(s, es).written| == |s.written| + Taken(s, es)
    decreases |es|
  {
    if es != [] {
      StepKeepsStream(s, es[0]);
      WrittenIsTaken(Step(s, es[0]), es[1..]);
    }
  }

  /** While bytes are left the handler stays armed, and once the socket has taken them all
      nothing of the messages is missing. */
  lemma DrainedMeansDelivered(es: seq<Event>)
    requires Legal(EMPTY, es) && !LosesBytes(EMPTY, es)
    ensures Run(EMPTY, es).open && !Run(EMPTY, es).writing ==> Run(EMPTY, es).written == Offered(es)
  {
    StreamIsCompleteIff(es);
    StreamIntegrity(EMPTY, es);
  }

  /** A write event whose write fails, if only because the socket is full for a moment, stops on the
      assertion exactly when bytes wait on an open connection: after every run, for every error. */
  lemma FullSocketAborts(es: seq<Event>, errno: Errno)
    requires Legal(EMPTY, es)
    ensures var s := Run(EMPTY, es);
            Aborts(s, Writable(WriteFailed(errno))) <==> s.open && s.pending != ""
  {
    StreamIntegrity(EMPTY, es);
  }

  predicate Ends(r: ReadResult) {
    r.EndOfFile? || (r.ReadFailed? && !r.interrupted)
  }

  /** The bytes a read loop collects before its first ending result. */
  function Collected(results: seq<ReadResult>): string {
    if results == [] || Ends(results[0]) then ""
    else (if results[0].Received? then results[0].chunk else "") + Collected(results[1..])
  }

  /** A socket is read until it reports that there is no more, or that it is gone. */
  predicate HasEnd(results: seq<ReadResult>) {
    results != [] && (Ends(results[0]) || HasEnd(results[1..]))
  }

  function Ending(results: seq<ReadResult>): (r: ReadResult)
    requires HasEnd(results)
    ensures Ends(r) && r in results
  {
    if Ends(results[0]) then results[0] else Ending(results[1..])
  }

  ghost function ChunkOf(r: ReadResult): string {
    if r.Received? then r.chunk else ""
  }

  ghost function ChunksOf(front: seq<ReadResult>): string {
    if front == [] then "" else ChunksOf(front[..|front| - 1]) + ChunkOf(front[|front| - 1])
  }

  lemma CollectsFirst(all: seq<ReadResult>)
    requires all != []
    ensures var r := all[0];
            if r.EndOfFile? || (r.ReadFailed? && !r.interrupted) then HasEnd(all) && Ending(all) == r && Collected(all) == ""
            else
              && (HasEnd(all[1..]) ==> HasEnd(all) && Ending(all) == Ending(all[1..]))
              && Collected(all) == ChunkOf(r) + Collected(all[1..])
  {
  }

  lemma ChunksSnoc(front: seq<ReadResult>, r: ReadResult)
    ensures ChunksOf(front + [r]) == ChunksOf(front) + ChunkOf(r)
  {
    assert (front + [r])[..|front|] == front;
  }

  lemma SameSequence(before: seq<ReadResult>, front: seq<ReadResult>, last: ReadResult, tail: seq<ReadResult>)
    ensures front == [] ==> front + ([last] + tail) == [last] + tail && before + front == before
    ensures front != [] ==> (front + ([last] + tail))[1..] == front[1..] + ([last] + tail)
                            && before + front == before + [front[0]] + front[1..]
  {
  }

  /** Whatever comes before the first end of the reads is collected, interrupted reads in between or not. */
  lemma {:induction false} CollectsAll(before: seq<ReadResult>, front: seq<ReadResult>, last: ReadResult, tail: seq<ReadResult>)
    requires forall i :: 0 <= i < |front| ==> front[i].Received? || (front[i].ReadFailed? && front[i].interrupted)
    requires last.EndOfFile? || (last.ReadFailed? && !last.interrupted)
    ensures var all := front + ([last] + tail);
            HasEnd(all) && Ending(all) == last && ChunksOf(before) + Collected(all) == ChunksOf(before + front)
    decreases |front|
  {
    hide HasEnd, Ending, Ends, Collected, ChunksOf;
    var all := front + ([last] + tail);
    SameSequence(before, front, last, tail);
    CollectsFirst(all);
    if front == [] {
      assert all[0] == last;
      Regroup(ChunksOf(before), "", "");
    } else {
      assert all[0] == front[0];
      CollectsAll(before + [front[0]], front[1..], last, tail);
      ChunksSnoc(before, front[0]);
      Regroup(ChunksOf(before), ChunkOf(front[0]), Collected(all[1..]));
    }
  }

  lemma Regroup(a: string, b: string, c: string)
    ensures a + (b + c) == (a + b) + c && a + "" == a
  {
  }

  lemma CollectedStep(got: string, results: seq<ReadResult>)
    requires HasEnd(results) && !Ends(results[0])
    ensures got + Collected(results) ==
            (if results[0].Received? then got + results[0].chunk else got) + Collected(results[1..])
  {
    hide Ending;
    var first, rest := if results[0].Received? then results[0].chunk else "", Collected(results[1..]);
    assert Collected(results) == first + rest;
    hide Collected;
    Regroup(got, first, rest);
    Regroup(got, "", "");
  }

  predicate Hangup(r: ReadResult) {
    r.EndOfFile? || (r.ReadFailed? && !r.again)
  }

  datatype State = Connected | Closed

  class TcpConnection {
    var state_: State
    var fault_error_: bool
    const channel_: Channel
    const read_buffer_: Buffer
    const send_buffer_: Buffer
    ghost var written: string

    ghost predicate Valid()
      reads this, channel_, read_buffer_, send_buffer_
    {
      read_buffer_.Valid() && send_buffer_.Valid() && read_buffer_ != send_buffer_
      && read_buffer_.buffer_ != send_buffer_.buffer_
    }

    ghost function View(): Stream
      requires Valid()
      reads this, channel_, read_buffer_, send_buffer_, read_buffer_.buffer_, send_buffer_.buffer_
    {
      Stream(state_.Connected?, Wants(channel_.listen_events_, EPOLLOUT), written, send_buffer_.Contents())
    }

    constructor ()
      ensures Valid() && View() == EMPTY
      ensures fresh(channel_) && fresh(read_buffer_) && fresh(send_buffer_)
      ensures fresh(read_buffer_.buffer_) && fresh(send_buffer_.buffer_)
    {
      state_, fault_error_ := Connected, false;
      channel_ := new Channel();
      read_buffer_ := new Buffer();
      send_buffer_ := new Buffer();
      written := "";
    }

    /** The direct write of SendInLoop, and what its error means. */
    method WriteAtOnce(msg: string, result: WriteResult) returns (n: nat)
      requires Valid() && Possible(View(), Send(msg, result)) && state_ == Connected
      modifies this`fault_error_, this`written
      ensures Valid() && n == TakenAtOnce(old(View()), msg, result) <= |msg|
      ensures View() == old(View()).(written := old(View()).written + msg[..n])
      ensures fault_error_ <==> !old(View()).writing && old(View()).pending == "" && PeerGone(result)
    {
      fault_error_ := false;
      n := 0;
      var failed := false;
      var busy := channel_.IsWriting();
      var waiting := send_buffer_.ReadableBytes();
      if !busy && waiting == 0 {
        match result
        case Wrote(m) => n := m;
        case WriteFailed(_) => failed := true;
      }
      if failed {
        n := 0;
        if result.errno != EAGAIN && result.errno != EWOULDBLOCK {
          if result.errno == EPIPE || result.errno == ECONNRESET {
            fault_error_ := true;
          }
        }
      }
      written := written + msg[..n];
    }

    /** The rest is queued, and write events are asked for. */
    method QueueRest(rest: string)
      requires Valid()
      modifies channel_, send_buffer_, send_buffer_.buffer_
      ensures Valid() && View() == old(View()).(writing := true, pending := old(View()).pending + rest)
      ensures send_buffer_.buffer_ == old(send_buffer_.buffer_) || fresh(send_buffer_.buffer_)
    {
      hide Apply, Reserve;
      send_buffer_.Append(rest);
      var busy := channel_.IsWriting();
      if !busy {
        channel_.EnableWrite();
      }
    }

    method SendInLoop(msg: string, result: WriteResult)
      requires Valid() && Possible(View(), Send(msg, result))
      modifies this, channel_, send_buffer_, send_buffer_.buffer_
      ensures Valid() && View() == Step(old(View()), Send(msg, result))
      ensures fault_error_ <==>
                && old(state_).Connected? && !old(View()).writing && old(View()).pending == ""
                && (result == WriteFailed(EPIPE) || result == WriteFailed(ECONNRESET))
      ensures old(state_).Connected? && !fault_error_ ==>
                View().written + View().pending == old(View()).written + old(View()).pending + msg
      ensures send_buffer_.buffer_ == old(send_buffer_.buffer_) || fresh(send_buffer_.buffer_)
    {
      fault_error_ := false;
      if state_ == Connected {
        SendInTwo(View(), msg, result);
        hide Direct, TakenAtOnce, Dropped, Possible, Step;
        var n := WriteAtOnce(msg, result);
        if n < |msg| && !fault_error_ {
          QueueRest(msg[n..]);
        }
      }
    }

    method HandleWrite(result: WriteResult) returns (aborted: bool)
      requires Valid() && Possible(View(), Writable(result))
      modifies this, channel_, send_buffer_`read_index_
      ensures Valid() && aborted == Aborts(old(View()), Writable(result))
      ensures aborted <==> old(View()).open && old(View()).writing && result.WriteFailed?
      ensures !aborted && old(View()).open && old(View()).writing ==>
                && View().written == old(View()).written + old(View()).pending[..result.n]
                && View().pending == old(View()).pending[result.n..] && (View().writing <==> View().pending != "")
      ensures View() == if aborted then old(View()) else Step(old(View()), Writable(result))
    {
      aborted := false;
      var busy := channel_.IsWriting();
      if busy && state_ == Connected {
        match result
        case WriteFailed(_) =>
          aborted := true;
        case Wrote(n) =>
          written := written + send_buffer_.Contents()[..n];
          send_buffer_.Retrieve(n);
          var left := send_buffer_.ReadableBytes();
          if left == 0 {
            channel_.DisableWrite();
          }
      }
    }

    /** Tells whether the close callback is called: only the first time. */
    method HandleClose() returns (notified: bool)
      requires Valid()
      modifies this`state_, channel_
      ensures Valid() && View() == Step(old(View()), Close)
      ensures notified == old(state_.Connected?) && state_.Closed?
      ensures View().written == old(View()).written && View().pending == old(View()).pending && (notified ==> !View().writing)
    {
      notified := false;
      if state_ != Closed {
        state_ := Closed;
        channel_.DisableAll();
        notified := true;
      }
    }

    /** The read loop, up to the result that ends it. */
    method ReadNonBlocking(results: seq<ReadResult>) returns (last: ReadResult)
      requires Valid() && HasEnd(results)
      modifies read_buffer_, read_buffer_.buffer_
      ensures Valid() && read_buffer_.Contents() == old(read_buffer_.Contents()) + Collected(results)
      ensures read_buffer_.buffer_ == old(read_buffer_.buffer_) || fresh(read_buffer_.buffer_)
      ensures last == Ending(results)
    {
      var rest := results;
      ghost var got := "";
      ghost var before := read_buffer_.Contents();
      while !Ends(rest[0])
        invariant HasEnd(rest) && Ending(rest) == Ending(results)
        invariant got + Collected(rest) == Collected(results)
        invariant Valid() && read_buffer_.Contents() == before + got
        invariant read_buffer_.buffer_ == old(read_buffer_.buffer_) || fresh(read_buffer_.buffer_)
        decreases |rest|
      {
        CollectedStep(got, rest);
        if rest[0].Received? {
          var chunk := rest[0].chunk;
          Regroup(before, got, chunk);
          read_buffer_.Append(chunk);
          got := got + chunk;
        }
        rest := rest[1..];
      }
      last := rest[0];
      Regroup(got, "", "");
    }

    /** The message callback runs exactly when the read did not end in a hang-up: bytes that
        came just before one are collected but not delivered. */
    method HandleMessage(results: seq<ReadResult>) returns (delivered: bool, notified: bool)
      requires Valid() && HasEnd(results)
      modifies this`state_, channel_, read_buffer_, read_buffer_.buffer_
      ensures Valid() && read_buffer_.Contents() == Collected(results)
      ensures View() == if Hangup(Ending(results)) then Step(old(View()), Close) else old(View())
      ensures delivered == (old(state_.Connected?) && !Hangup(Ending(results)))
      ensures notified == (old(state_.Connected?) && Hangup(Ending(results)))
      ensures state_.Connected? <==> old(state_.Connected?) && Ending(results).ReadFailed? && Ending(results).again
    {
      read_buffer_.RetrieveAll();
      var last := ReadNonBlocking(results);
      notified := false;
      if Hangup(last) {
        notified := HandleClose();
      }
      delivered := state_ == Connected;
    }
  }
}
