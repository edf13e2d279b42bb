/** The nghttp2 callbacks of Code/http2/HttpContext.cpp: one connection carries many streams, and the
    callbacks sort headers and data into one request per stream. */
module Http2Contexts {

  datatype Status = Start | Header | Data | Complete | Failed

  /** A request, as its own HttpRequest object holds it. */
  datatype Request = Request(stream: int, status: Status, headers: map<string, string>, data: string)

  datatype FrameKind = HeadersFrame | DataFrame

  /** One callback. Each names the stream of its frame; not every callback looks at it. */
  datatype Event =
    | BeginHeaders(id: int)
    | HeaderField(id: int, name: string, value: string)
    | DataChunk(id: int, chunk: string)
    | FrameReceived(id: int, kind: FrameKind, endStream: bool)
    | OtherFrame(id: int)
    | StreamClose(id: int)

  /** The fields of HttpContext that the callbacks use. */
  datatype Demux = Demux(current: int, push: int, requests: map<int, Request>)

  const FRESH := Demux(0, 0, map[])

  function NewRequest(id: int): Request {
    Request(id, Start, map[], "")
  }

  function StatusAfter(kind: FrameKind, endStream: bool): Status {
    if kind.DataFrame? || endStream then Complete else Data
  }

  function Step(s: Demux, e: Event): Demux {
    match e
    case BeginHeaders(id) =>
      Demux(id, if s.current == 0 then id else s.push, s.requests[id := NewRequest(id)])
    case HeaderField(_, name, value) =>
      if s.current !in s.requests then s
      else
        var r := s.requests[s.current];
        s.(requests := s.requests[s.current := r.(headers := r.headers[name := value])])
    case DataChunk(id, chunk) =>
      if id !in s.requests then s.(current := id)
      else
        var r := s.requests[id];
        s.(current := id, requests := s.requests[id := r.(data := r.data + chunk)])
    case FrameReceived(id, kind, endStream) =>
      if id !in s.requests then s.(current := id)
      else
        var r := s.requests[id];
        s.(current := id, requests := s.requests[id := r.(status := StatusAfter(kind, endStream))])
    case OtherFrame(_) => s
    case StreamClose(id) =>
      s.(current := id, requests := if id % 2 == 0 then s.requests else s.requests - {id})
  }

  /** The return value: anything but 0 makes nghttp2 give the connection up. */
  function Code(s: Demux, e: Event): int {
    match e
    case HeaderField(_, _, _) => if s.current in s.requests then 0 else 1
    case DataChunk(id, _) => if id in s.requests then 0 else 1
    case FrameReceived(id, _, _) => if id in s.requests then 0 else 1
    case _ => 0
  }

  class HttpContext {
    var current_id_: int
    var push_id_: int
    var requests_: map<int, Request>

    ghost function View(): Demux
      reads this
    {
      Demux(current_id_, push_id_, requests_)
    }

    constructor ()
      ensures View() == FRESH
    {
      current_id_, push_id_, requests_ := 0, 0, map[];
    }

    method AddStream()
      modifies this`requests_
      ensures requests_ == old(requests_)[current_id_ := NewRequest(current_id_)]
    {
      requests_ := requests_[current_id_ := NewRequest(current_id_)];
    }

    /** Streams with even ids are pushed by the server. */
    method RemoveStream()
      modifies this`requests_
      ensures requests_ == if current_id_ % 2 == 0 then old(requests_) else old(requests_) - {current_id_}
    {
      if current_id_ % 2 == 0 {
        return;
      }
      requests_ := requests_ - {current_id_};
    }

    method OnBeginHeaders(id: int) returns (code: int)
      modifies this
      ensures View() == Step(old(View()), BeginHeaders(id)) && code == Code(old(View()), BeginHeaders(id))
      ensures code == 0 && current_id_ == id && push_id_ == if old(current_id_) == 0 then id else old(push_id_)
      ensures requests_ == old(requests_)[id := Request(id, Start, map[], "")]
    {
      if current_id_ == 0 {
        push_id_ := id;
      }
      current_id_ := id;
      AddStream();
      code := 0;
    }

    /** The stream of the frame is not looked at. */
    method OnHeader(id: int, name: string, value: string) returns (code: int)
      modifies this`requests_
      ensures View() == Step(old(View()), HeaderField(id, name, value))
      ensures code == Code(old(View()), HeaderField(id, name, value))
      ensures code == 0 <==> current_id_ in old(requests_)
      ensures code == 0 ==> var r := old(requests_)[current_id_];
                            requests_ == old(requests_)[current_id_ := r.(headers := r.headers[name := value])]
      ensures code != 0 ==> requests_ == old(requests_)
    {
      if current_id_ !in requests_ {
        return 1;
      }
      var request := requests_[current_id_];
      requests_ := requests_[current_id_ := request.(headers := request.headers[name := value])];
      code := 0;
    }

    method OnDataChunk(id: int, chunk: string) returns (code: int)
      modifies this`current_id_, this`requests_
      ensures View() == Step(old(View()), DataChunk(id, chunk)) && code == Code(old(View()), DataChunk(id, chunk))
      ensures current_id_ == id && (code == 0 <==> id in old(requests_))
      ensures code == 0 ==> var r := old(requests_)[id]; requests_ == old(requests_)[id := r.(data := r.data + chunk)]
      ensures code != 0 ==> requests_ == old(requests_)
    {
      current_id_ := id;
      if current_id_ !in requests_ {
        return 1;
      }
      var request := requests_[current_id_];
      requests_ := requests_[current_id_ := request.(data := request.data + chunk)];
      code := 0;
    }

    method OnFrame(id: int, kind: FrameKind, endStream: bool) returns (code: int)
      modifies this`current_id_, this`requests_
      ensures View() == Step(old(View()), FrameReceived(id, kind, endStream))
      ensures code == Code(old(View()), FrameReceived(id, kind, endStream))
      ensures current_id_ == id && (code == 0 <==> id in old(requests_))
      ensures code == 0 ==> requests_ == old(requests_)[id := requests_[id]]
                            && requests_[id] == old(requests_)[id].(status := requests_[id].status)
                            && requests_[id].status == if kind.HeadersFrame? && !endStream then Data else Complete
      ensures code != 0 ==> requests_ == old(requests_)
    {
      current_id_ := id;
      if current_id_ !in requests_ {
        return 1;
      }
      var request := requests_[current_id_];
      if kind.HeadersFrame? {
        request := request.(status := Data);
      }
      if kind.DataFrame? || endStream {
        request := request.(status := Complete);
      }
      requests_ := requests_[current_id_ := request];
      code := 0;
    }

    method OnStreamClose(id: int) returns (code: int)
      modifies this`current_id_, this`requests_
      ensures View() == Step(old(View()), StreamClose(id)) && code == Code(old(View()), StreamClose(id))
      ensures code == 0 && current_id_ == id && requests_ == if id % 2 == 0 then old(requests_) else old(requests_) - {id}
    {
      current_id_ := id;
      RemoveStream();
      code := 0;
    }
  }

  // ---- runs, and what one stream sees of them

  function After(es: seq<Event>): Demux {
    if es == [] then FRESH else Step(After(es[..|es| - 1]), es[|es| - 1])
  }

  /** The events of one stream since its last header block began; none while it is not open. */
  function Own(es: seq<Event>, id: int): seq<Event> {
    if es == [] then []
    else
      var e, before := es[|es| - 1], Own(es[..|es| - 1], id);
      if e.id != id || e.OtherFrame? then before
      else if e.BeginHeaders? then [e]
      else if e.StreamClose? then []
      else before + [e]
  }

  /** All events of one stream since it was opened. */
  function Whole(es: seq<Event>, id: int): seq<Event> {
    if es == [] then []
    else
      var e, before := es[|es| - 1], Whole(es[..|es| - 1], id);
      if e.id != id || e.OtherFrame? then before
      else if e.StreamClose? then []
      else before + [e]
  }

  /** Those of them that came before its last header block. */
  function Erased(es: seq<Event>, id: int): seq<Event> {
    if es == [] then []
    else
      var e, before := es[|es| - 1], Erased(es[..|es| - 1], id);
      if e.id != id || e.OtherFrame? then before
      else if e.BeginHeaders? then Whole(es[..|es| - 1], id)
      else if e.StreamClose? then []
      else before
  }

  /** The stream whose header block is not complete, or 0. */
  function Block(es: seq<Event>): int {
    if es == [] then 0
    else
      match es[|es| - 1]
      case BeginHeaders(id) => id
      case FrameReceived(_, HeadersFrame, _) => 0
      case _ => Block(es[..|es| - 1])
  }

  /** Section 4.3 of RFC 9113: a header block is not interrupted. Beyond that: streams of the client
      have odd ids, and data comes for open streams only. A second header block on an open stream carries
      trailers (section 8.1 of RFC 9113). */
  predicate Allowed(es: seq<Event>, e: Event) {
    match e
    case BeginHeaders(id) => Block(es) == 0 && id > 0 && id % 2 == 1
    case HeaderField(id, _, _) => Block(es) == id && id != 0
    case DataChunk(id, _) => Block(es) == 0 && Own(es, id) != []
    case FrameReceived(id, kind, _) => Own(es, id) != [] && Block(es) == if kind.HeadersFrame? then id else 0
    case OtherFrame(_) => Block(es) == 0
    case StreamClose(id) => Block(es) == 0 && id != 0 && (Own(es, id) != [] || id % 2 == 0)
  }

  predicate Legal(es: seq<Event>) {
    es == [] || (Legal(es[..|es| - 1]) && Allowed(es[..|es| - 1], es[|es| - 1]))
  }

  /** The headers of a stream, the last value of a name winning. */
  function Headers(own: seq<Event>): map<string, string> {
    if own == [] then map[]
    else
      var e, before := own[|own| - 1], Headers(own[..|own| - 1]);
      if e.HeaderField? then before[e.name := e.value] else before
  }

  function Chunks(own: seq<Event>): string {
    if own == [] then ""
    else
      var e, before := own[|own| - 1], Chunks(own[..|own| - 1]);
      if e.DataChunk? then before + e.chunk else before
  }

  function LastStatus(own: seq<Event>): Status {
    if own == [] then Start
    else
      var e := own[|own| - 1];
      if e.FrameReceived? then StatusAfter(e.kind, e.endStream) else LastStatus(own[..|own| - 1])
  }

  function RequestOf(id: int, own: seq<Event>): Request {
    Request(id, LastStatus(own), Headers(own), Chunks(own))
  }

  /** The requests are the open streams, and each holds exactly its own events. */
  ghost predicate Holds(es: seq<Event>) {
    var s := After(es);
    && (forall id :: id in s.requests <==> Own(es, id) != [])
    && (forall id :: id in s.requests ==> s.requests[id] == RequestOf(id, Own(es, id)))
  }

  ghost predicate Sorted(es: seq<Event>) {
    var s := After(es);
    && Holds(es)
    && (Block(es) != 0 ==> s.current == Block(es) && Own(es, Block(es)) != [])
    && (forall id :: id in s.requests ==> id > 0 && id % 2 == 1)
  }

  lemma OwnSnoc(own: seq<Event>, e: Event)
    ensures Headers(own + [e]) == if e.HeaderField? then Headers(own)[e.name := e.value] else Headers(own)
    ensures Chunks(own + [e]) == if e.DataChunk? then Chunks(own) + e.chunk else Chunks(own)
    ensures LastStatus(own + [e]) == if e.FrameReceived? then StatusAfter(e.kind, e.endStream) else LastStatus(own)
  {
    assert (own + [e])[..|own|] == own;
  }

  lemma FirstOfOwn(e: Event)
    requires e.BeginHeaders?
    ensures RequestOf(e.id, [e]) == NewRequest(e.id)
  {
    assert [e] == [] + [e];
    OwnSnoc([], e);
  }

  lemma StepOwn(es: seq<Event>, e: Event, id: int)
    ensures Own(es + [e], id) == if e.id != id || e.OtherFrame? then Own(es, id)
                                 else if e.BeginHeaders? then [e]
                                 else if e.StreamClose? then []
                                 else Own(es, id) + [e]
  {
    assert (es + [e])[..|es|] == es;
  }

  lemma SnocRun(es: seq<Event>, e: Event)
    ensures After(es + [e]) == Step(After(es), e)
    ensures Legal(es + [e]) <==> Legal(es) && Allowed(es, e)
    ensures Block(es + [e]) == if e.BeginHeaders? then e.id
                               else if e.FrameReceived? && e.kind.HeadersFrame? then 0
                               else Block(es)
  {
    assert (es + [e])[..|es|] == es;
  }

  lemma StepSorts(es: seq<Event>, e: Event)
    requires Allowed(es, e) && Sorted(es)
    ensures Sorted(es + [e]) && Code(After(es), e) == 0
  {
    hide Own, Block, After, Headers, Chunks, LastStatus;
    var all := es + [e];
    var s := After(es);
    SnocRun(es, e);
    if e.BeginHeaders? {
      FirstOfOwn(e);
    } else {
      OwnSnoc(Own(es, e.id), e);
    }
    forall id
      ensures id in Step(s, e).requests <==> Own(all, id) != []
      ensures id in Step(s, e).requests ==> Step(s, e).requests[id] == RequestOf(id, Own(all, id)) && id > 0 && id % 2 == 1
    {
      StepOwn(es, e, id);
    }
    StepOwn(es, e, Block(es));
    StepOwn(es, e, e.id);
  }

  /** Demultiplexing: however streams interleave, each open stream's request holds exactly its own
      headers and the concatenation of its own data since its last header block began, and no callback
      ever fails. */
  lemma {:induction false} Demultiplexed(es: seq<Event>)
    requires Legal(es)
    ensures Sorted(es)
    ensures forall k :: 0 <= k < |es| ==> Code(After(es[..k]), es[k]) == 0
  {
    if es != [] {
      var n := |es| - 1;
      Demultiplexed(es[..n]);
      StepSorts(es[..n], es[n]);
      assert es == es[..n] + [es[n]];
      forall k | 0 <= k < |es| ensures Code(After(es[..k]), es[k]) == 0 {
        if k < n {
          assert es[..n][..k] == es[..k] && es[..n][k] == es[k];
        }
      }
    }
  }

  /** Interleaving does not matter: what a stream's request holds depends on its own events only. */
  lemma InterleavingIsInvisible(es: seq<Event>, fs: seq<Event>, id: int)
    requires Legal(es) && Legal(fs) && Own(es, id) == Own(fs, id)
    ensures id in After(es).requests <==> id in After(fs).requests
    ensures id in After(es).requests ==> After(es).requests[id] == After(fs).requests[id]
  {
    Demultiplexed(es);
    Demultiplexed(fs);
  }

  /** The last value of a name wins, and nothing but own headers is there. */
  lemma {:induction false} LastHeaderWins(own: seq<Event>, name: string)
    ensures name in Headers(own) <==> exists i :: 0 <= i < |own| && own[i].HeaderField? && own[i].name == name
    ensures name in Headers(own) ==>
              exists i :: 0 <= i < |own| && own[i].HeaderField? && own[i].name == name && own[i].value == Headers(own)[name]
                          && forall j :: i < j < |own| && own[j].HeaderField? ==> own[j].name != name
  {
    if own != [] {
      var n := |own| - 1;
      var before := own[..n];
      LastHeaderWins(before, name);
      if !(own[n].HeaderField? && own[n].name == name) && name in Headers(before) {
        var i :| 0 <= i < n && before[i].HeaderField? && before[i].name == name && before[i].value == Headers(before)[name]
                 && forall j :: i < j < n && before[j].HeaderField? ==> before[j].name != name;
        assert own[i] == before[i];
        forall j | i < j < |own| && own[j].HeaderField? ensures own[j].name != name {
          if j < n {
            assert before[j] == own[j];
          }
        }
      } else if name !in Headers(own) {
        forall i | 0 <= i < |own| ensures !(own[i].HeaderField? && own[i].name == name) {
          if i < n {
            assert before[i] == own[i];
          }
        }
      }
    }
  }

  predicate Quiet(es: seq<Event>) {
    forall i :: 0 <= i < |es| ==> es[i].OtherFrame?
  }

  /** The stream that pushes refer to is the first that was ever opened, provided that only other
      frames came before it; in particular no pushed stream can have been closed. */
  lemma {:induction false} PushIsFirst(es: seq<Event>, k: nat)
    requires Legal(es) && k < |es| && Quiet(es[..k]) && es[k].BeginHeaders?
    ensures After(es).push == es[k].id && After(es).current != 0
  {
    hide Headers, Chunks, LastStatus, Own, Block, After, Legal;
    var n := |es| - 1;
    assert es == es[..n] + [es[n]];
    SnocRun(es[..n], es[n]);
    if k == n {
      QuietIsFresh(es[..n]);
    } else {
      assert es[..n][..k] == es[..k];
      PushIsFirst(es[..n], k);
      Demultiplexed(es[..n]);
    }
  }

  lemma {:induction false} QuietIsFresh(es: seq<Event>)
    requires Quiet(es)
    ensures After(es) == FRESH
  {
    if es != [] {
      QuietIsFresh(es[..|es| - 1]);
    }
  }

  // ---- complete requests

  predicate HasEnd(own: seq<Event>) {
    exists i :: 0 <= i < |own| && own[i].FrameReceived? && own[i].endStream
  }

  predicate HasData(own: seq<Event>) {
    exists i :: 0 <= i < |own| && own[i].FrameReceived? && own[i].kind.DataFrame?
  }

  /** One header block for a stream: its HEADERS frame comes before every DATA frame. */
  predicate OneHeaders(own: seq<Event>) {
    forall i, j :: 0 <= i < j < |own| && own[i].FrameReceived? && own[j].FrameReceived? ==> own[j].kind.DataFrame?
  }

  lemma {:induction false} CompleteIffEndOrData(own: seq<Event>)
    requires OneHeaders(own)
    ensures LastStatus(own) == Complete <==> HasEnd(own) || HasData(own)
    ensures LastStatus(own) in {Start, Data, Complete}
  {
    if own != [] {
      var n := |own| - 1;
      CompleteIffEndOrData(own[..n]);
      var e := own[n];
      if e.FrameReceived? {
        assert own[n] == e;
        if e.kind.HeadersFrame? && !e.endStream {
          forall i | 0 <= i < n ensures !own[i].FrameReceived? {
          }
        }
      } else {
        forall i | 0 <= i < n ensures own[..n][i] == own[i] {
        }
        SameFrames(own[..n], e);
        assert own == own[..n] + [e];
      }
    }
  }

  lemma SameFrames(own: seq<Event>, e: Event)
    requires !e.FrameReceived?
    ensures HasEnd(own + [e]) <==> HasEnd(own)
    ensures HasData(own + [e]) <==> HasData(own)
  {
    var all := own + [e];
    if i :| 0 <= i < |own| && own[i].FrameReceived? && own[i].endStream {
      assert all[i] == own[i];
    }
    if i :| 0 <= i < |own| && own[i].FrameReceived? && own[i].kind.DataFrame? {
      assert all[i] == own[i];
    }
  }

  lemma {:induction false} OwnHasOneHeaders(es: seq<Event>, id: int)
    requires Legal(es)
    ensures OneHeaders(Own(es, id))
    ensures Block(es) == id ==> forall i :: 0 <= i < |Own(es, id)| ==> !Own(es, id)[i].FrameReceived?
  {
    if es != [] {
      var n := |es| - 1;
      OwnHasOneHeaders(es[..n], id);
      Demultiplexed(es[..n]);
    }
  }

  /** A request counts as complete as soon as END_STREAM has come or any DATA frame has; before that it waits
      for data once its HEADERS frame has come, and no other status occurs. */
  lemma CompleteIff(es: seq<Event>, id: int)
    requires Legal(es) && id in After(es).requests
    ensures var own, status := Own(es, id), After(es).requests[id].status;
            && (status == Complete <==> HasEnd(own) || HasData(own))
            && (status == Data <==> HasFrame(own) && !HasEnd(own) && !HasData(own))
            && (status == Start <==> !HasFrame(own))
  {
    Demultiplexed(es);
    OwnHasOneHeaders(es, id);
    CompleteIffEndOrData(Own(es, id));
    StatusOfNoFrame(Own(es, id));
  }

  /** The status tells the end of the stream exactly until a DATA frame without END_STREAM comes. */
  lemma StatusIsRightIff(es: seq<Event>, id: int)
    requires Legal(es) && id in After(es).requests
    ensures (After(es).requests[id].status == Complete <==> HasEnd(Own(es, id)))
            <==> (HasData(Own(es, id)) ==> HasEnd(Own(es, id)))
  {
    CompleteIff(es, id);
  }

  /** A body in two DATA frames: the request is complete after the first, with half of its body. */
  lemma CompleteTooEarly(id: int, first: string)
    requires id > 0 && id % 2 == 1
    ensures var es := [BeginHeaders(id), FrameReceived(id, HeadersFrame, false),
                       DataChunk(id, first), FrameReceived(id, DataFrame, false)];
            && Legal(es) && id in After(es).requests && !HasEnd(Own(es, id))
            && After(es).requests[id] == Request(id, Complete, map[], first)
  {
    var e1, e2 := BeginHeaders(id), FrameReceived(id, HeadersFrame, false);
    var e3, e4 := DataChunk(id, first), FrameReceived(id, DataFrame, false);
    SnocRun([], e1);
    assert [] + [e1] == [e1] && Own([e1], id) == [e1];
    SnocRun([e1], e2);
    assert [e1] + [e2] == [e1, e2] && Own([e1, e2], id) == [e1, e2];
    SnocRun([e1, e2], e3);
    assert [e1, e2] + [e3] == [e1, e2, e3] && Own([e1, e2, e3], id) == [e1, e2, e3] && "" + first == first;
    SnocRun([e1, e2, e3], e4);
    assert [e1, e2, e3] + [e4] == [e1, e2, e3, e4];
    StepOwn([e1, e2, e3], e4, id);
  }

  // ---- trailers

  lemma {:induction false} WholeSplits(es: seq<Event>, id: int)
    ensures Whole(es, id) == Erased(es, id) + Own(es, id)
  {
    if es != [] {
      var n := |es| - 1;
      WholeSplits(es[..n], id);
      var e := es[n];
      var x, y := Erased(es[..n], id), Own(es[..n], id);
      assert x + (y + [e]) == x + y + [e];
    }
  }

  predicate HasFrame(own: seq<Event>) {
    exists i :: 0 <= i < |own| && own[i].FrameReceived?
  }

  lemma FrameSnoc(own: seq<Event>, e: Event)
    ensures HasFrame(own + [e]) <==> HasFrame(own) || e.FrameReceived?
  {
    var all := own + [e];
    assert all[|own|] == e && forall i :: 0 <= i < |own| ==> all[i] == own[i];
  }

  lemma PartsEmpty(x: seq<Event>)
    ensures x + [] == x && Headers(x) + Headers([]) == Headers(x) && Chunks(x) + Chunks([]) == Chunks(x)
  {
  }

  lemma Associate(p: string, q: string, r: string)
    ensures p + (q + r) == p + q + r
  {
  }

  /** Two parts of a stream put together: later headers win, data follows data, the last frame decides. */
  lemma {:induction false} RequestOfParts(x: seq<Event>, y: seq<Event>)
    ensures Headers(x + y) == Headers(x) + Headers(y)
    ensures Chunks(x + y) == Chunks(x) + Chunks(y)
    ensures LastStatus(x + y) == if HasFrame(y) then LastStatus(y) else LastStatus(x)
  {
    hide Headers, Chunks, LastStatus, HasFrame;
    if y == [] {
      PartsEmpty(x);
      assert !HasFrame([]) by {
        StatusOfNoFrame([]);
        NoEvents();
      }
    } else {
      var n := |y| - 1;
      var front, e := y[..n], y[n];
      RequestOfParts(x, front);
      assert x + y == (x + front) + [e] && y == front + [e];
      OwnSnoc(x + front, e);
      OwnSnoc(front, e);
      FrameSnoc(front, e);
      if e.DataChunk? {
        Associate(Chunks(x), Chunks(front), e.chunk);
      }
    }
  }

  lemma NoEvents()
    ensures LastStatus([]) == Start
  {
  }

  lemma {:induction false} StatusOfNoFrame(own: seq<Event>)
    ensures LastStatus(own) == Start <==> !HasFrame(own)
  {
    if own != [] {
      var n := |own| - 1;
      StatusOfNoFrame(own[..n]);
      assert HasFrame(own) <==> HasFrame(own[..n]) || own[n].FrameReceived?;
    }
  }

  /** What came before the last header block left no trace that should still be there: no data, no header
      that is not sent again, and no frame unless one has come since. */
  predicate LeftNothing(erased: seq<Event>, own: seq<Event>) {
    Chunks(erased) == "" && Headers(erased).Keys <= Headers(own).Keys && (HasFrame(erased) ==> HasFrame(own))
  }

  /** A request holds all headers and data of its stream, trailers or not, exactly when that is so. */
  lemma WholeRequestIff(es: seq<Event>, id: int)
    requires Legal(es) && id in After(es).requests
    ensures After(es).requests[id] == RequestOf(id, Whole(es, id)) <==> LeftNothing(Erased(es, id), Own(es, id))
  {
    var x, y := Erased(es, id), Own(es, id);
    Demultiplexed(es);
    WholeSplits(es, id);
    RequestOfParts(x, y);
    StatusOfNoFrame(x);
    StatusOfNoFrame(y);
    MergeIff(Headers(x), Headers(y));
    var p, q := Chunks(x), Chunks(y);
    assert p + q == q ==> |p| == 0;
    assert "" + q == q;
  }

  lemma MergeIff(m: map<string, string>, n: map<string, string>)
    ensures m + n == n <==> m.Keys <= n.Keys
  {
    if m + n == n {
      assert (m + n).Keys == m.Keys + n.Keys;
    }
  }

  /** Without a second header block nothing is lost. */
  lemma {:induction false} NoTrailersNoLoss(es: seq<Event>, id: int)
    requires forall i :: 0 < i < |Whole(es, id)| ==> !Whole(es, id)[i].BeginHeaders?
    requires Legal(es)
    ensures Erased(es, id) == [] && Whole(es, id) == Own(es, id)
  {
    if es != [] {
      var n := |es| - 1;
      var e := es[n];
      if e.id == id && e.StreamClose? {
      } else {
        var before := Whole(es[..n], id);
        assert forall i :: 0 <= i < |before| ==> before[i] == Whole(es, id)[i];
        NoTrailersNoLoss(es[..n], id);
        if e.id == id && e.BeginHeaders? {
          assert Whole(es, id)[|before|] == e;
        }
      }
    }
  }

  lemma WithoutTrailersWhole(es: seq<Event>, id: int)
    requires Legal(es) && id in After(es).requests
    requires forall i :: 0 < i < |Whole(es, id)| ==> !Whole(es, id)[i].BeginHeaders?
    ensures After(es).requests[id] == RequestOf(id, Whole(es, id))
  {
    Demultiplexed(es);
    NoTrailersNoLoss(es, id);
  }

  // ---- why header blocks must not be interrupted

  /** The stream's request has this header already. */
  predicate Says(s: Demux, id: int, name: string, value: string) {
    id in s.requests && name in s.requests[id].headers && s.requests[id].headers[name] == value
  }

  /** After any events at all that left the requests right, a header keeps them right exactly when its
      stream is the current one, or when it changes nothing: neither where it should go nor where it goes. */
  lemma HeaderGoesHomeIff(es: seq<Event>, id: int, name: string, value: string)
    requires Holds(es) && id in After(es).requests
    ensures var s := After(es);
            Holds(es + [HeaderField(id, name, value)])
            <==> s.current == id || (Says(s, id, name, value) && (s.current in s.requests ==> Says(s, s.current, name, value)))
  {
    hide Own, Block, After, Headers, Chunks, LastStatus;
    var e, s := HeaderField(id, name, value), After(es);
    SnocRun(es, e);
    OwnSnoc(Own(es, id), e);
    var t := Step(s, e);
    forall i
      ensures i in t.requests <==> Own(es + [e], i) != []
      ensures i in t.requests && i != id && i != s.current ==> t.requests[i] == RequestOf(i, Own(es + [e], i))
    {
      StepOwn(es, e, i);
    }
    StepOwn(es, e, id);
    StepOwn(es, e, s.current);
    var h := s.requests[id].headers;
    assert h[name := value] == h <==> name in h && h[name] == value;
    if s.current in s.requests {
      var g := s.requests[s.current].headers;
      assert g[name := value] == g <==> name in g && g[name] == value;
    }
  }

  /** Two interleaved header blocks, after any events: the first stream loses its header to the second. */
  lemma InterleavedBlocks(es: seq<Event>, a: int, b: int, name: string, value: string)
    requires a > 0 && a != b
    ensures var all := es + [BeginHeaders(a)] + [BeginHeaders(b)] + [HeaderField(a, name, value)];
            && !Legal(all) && a in After(all).requests && After(all).requests[a] == NewRequest(a)
            && b in After(all).requests && After(all).requests[b] == NewRequest(b).(headers := map[name := value])
  {
    var e1, e2, e3 := BeginHeaders(a), BeginHeaders(b), HeaderField(a, name, value);
    SnocRun(es, e1);
    SnocRun(es + [e1], e2);
    SnocRun(es + [e1] + [e2], e3);
    hide After, Legal, Block;
    assert map[][name := value] == map[name := value];
  }
}
