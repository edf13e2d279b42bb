/** One concrete input for each way in which the server misses its purpose. */
module Witnesses {
  import CTypes
  import HttpRequests
  import HttpContexts
  import HttpGrammar
  import HttpRoundTrip
  import HttpThrows
  import Buffers
  import Channels
  import TcpConnections
  import EventLoops
  import Pools
  import MsgCaches
  import MsgOrders
  import UserCaches
  import Words
  import Http2Contexts
  import LogStreams

  // ---- HTTP/1

  const SLASH := HttpGrammar.Message("GET", ' ', "/", [], ' ', "HTTP", "1.1", [], "")

  lemma SlashIsGood()
    ensures HttpGrammar.Good(SLASH)
  {
    assert HttpGrammar.MethodFrom("GET", 0) && HttpGrammar.UrlFrom("/", 0) && HttpGrammar.ProtocolFrom("HTTP", 0);
  }

  lemma RequestLine()
    ensures HttpGrammar.TargetText(SLASH) == "GET / " && "HTTP" + "/" + "1.1" + "\r\n" == "HTTP/1.1\r\n"
  {
  }

  lemma Parses(data: string, past: char, s: string)
    requires data == s
    ensures HttpRoundTrip.At(data + [past], 0, s)
  {
  }

  /** A header whose colon is followed by the line end at once. */
  lemma EmptyHostThrows(past: char)
    ensures var data := "GET / " + "HTTP/1.1\r\n" + "Host:\r";
            HttpContexts.Run(data + [past], |data|, HttpContexts.Begin(HttpContexts.Start, HttpRequests.FRESH)).threw
  {
    hide HttpContexts.Run, HttpGrammar.Good, HttpGrammar.TargetText, HttpRoundTrip.At;
    var data := "GET / " + "HTTP/1.1\r\n" + "Host:\r";
    RequestLine();
    SlashIsGood();
    assert "" + ("Host" + ":\r") == "Host:\r";
    assert HttpThrows.BrokenText(SLASH, "Host") == data;
    Parses(data, past, data);
    HttpThrows.BrokenThrows(data + [past], |data|, SLASH, "Host");
  }

  const TWO := HttpGrammar.HeaderLine("Content-Length", ' ', "2")
  const ANNOUNCED := SLASH.(headers := [TWO], body := "abc")

  lemma HeaderOfTwo()
    ensures HttpGrammar.HeadersText([TWO]) == "Content-Length: 2\r\n"
    ensures HttpGrammar.WithHeaders(map[], [TWO]) == map["Content-Length" := "2"]
  {
    assert [TWO][1..] == [];
    assert HttpGrammar.HeaderText(TWO) + "" == "Content-Length: 2\r\n";
  }

  lemma AnnouncedIsPrinted()
    ensures HttpGrammar.Printed(ANNOUNCED) == "GET / " + "HTTP/1.1\r\n" + ("Content-Length: 2\r\n" + "\r\n") + "abc"
  {
    hide HttpGrammar.HeadersText, HttpGrammar.TargetText;
    RequestLine();
    HeaderOfTwo();
    assert HttpGrammar.TargetText(ANNOUNCED) == HttpGrammar.TargetText(SLASH) by {
      SameTarget();
    }
  }

  lemma SameTarget()
    ensures HttpGrammar.TargetText(ANNOUNCED) == HttpGrammar.TargetText(SLASH)
  {
  }

  lemma AnnouncedIsGood()
    ensures HttpGrammar.Good(ANNOUNCED)
  {
    SlashIsGood();
    assert HttpGrammar.HeaderOk(TWO);
  }

  /** Two bytes are announced, three are stored. */
  lemma LongerThanAnnounced(past: char)
    ensures var data := "GET / " + "HTTP/1.1\r\n" + ("Content-Length: 2\r\n" + "\r\n") + "abc";
            HttpContexts.Run(data + [past], |data|, HttpContexts.Begin(HttpContexts.Start, HttpRequests.FRESH)).request.body == "abc"
  {
    hide HttpGrammar.Good, HttpGrammar.Printed, HttpContexts.Run, HttpGrammar.WithHeaders;
    AnnouncedIsGood();
    AnnouncedIsPrinted();
    HeaderOfTwo();
    HttpRoundTrip.LengthIsIgnored(ANNOUNCED, past);
  }

  // ---- connections, loops, pools

  /** One of two bytes was written; then the socket is full. */
  lemma FullSocket()
    ensures var es := [TcpConnections.Send("ab", TcpConnections.Wrote(1))];
            && TcpConnections.Legal(TcpConnections.EMPTY, es)
            && TcpConnections.Aborts(TcpConnections.Run(TcpConnections.EMPTY, es),
                                     TcpConnections.Writable(TcpConnections.WriteFailed(TcpConnections.EAGAIN)))
  {
    var e := TcpConnections.Send("ab", TcpConnections.Wrote(1));
    assert [e][1..] == [];
    assert TcpConnections.Run(TcpConnections.EMPTY, [e]) == TcpConnections.Step(TcpConnections.EMPTY, e);
  }

  /** One task from the loop's own thread before Loop(). */
  lemma TaskBeforeLoop(s: EventLoops.Loop, task: EventLoops.Task)
    requires EventLoops.Created(s)
    ensures var setup := [EventLoops.SelfPush(task)];
            && EventLoops.Legal(s, setup) && EventLoops.Enabled(EventLoops.Exec(s, setup), EventLoops.EnterLoop)
            && !EventLoops.NeverLosesWakeup(EventLoops.Do(EventLoops.Exec(s, setup), EventLoops.EnterLoop))
  {
    var setup := [EventLoops.SelfPush(task)];
    assert setup[1..] == [] && setup[0].SelfPush?;
    EventLoops.QueuedBeforeLoop(s, setup);
  }

  /** One thread, no connections. */
  lemma EmptyPools()
    ensures !Pools.NeverStuck(Pools.State(map[0 := Pools.Outside], [], []))
  {
    var s := Pools.State(map[0 := Pools.Outside], [], []);
    assert 0 in s.threads;
    Pools.NeverStuckIff(s);
  }

  // ---- messages

  /** A colon that stands in the one id or in the other. */
  lemma ColonIds()
    ensures !MsgCaches.Distinct({"a", "b:c", "a:b", "c"})
  {
    assert !MsgCaches.Less("b:c", "a") && !MsgCaches.Less("c", "a:b");
    assert "b" + ":" + "c" == "b:c" && "a" + ":" + "b" == "a:b";
    MsgCaches.ColonSharesKeys("a", "b", "c");
    assert !MsgCaches.SamePair("a", "b:c", "a:b", "c");
  }

  function Two(first: string, date1: nat, second: string, date2: nat): seq<MsgCaches.Action> {
    [MsgCaches.Put("ann", "bob", first, date1), MsgCaches.Put("ann", "bob", second, date2)]
  }

  lemma RowsOfTwo(layout: MsgCaches.Layout, first: string, date1: nat, second: string, date2: nat)
    requires first != second
    ensures MsgCaches.Exec(MsgCaches.Empty(layout), Two(first, date1, second, date2)).rows
            == [MsgCaches.Row("ann", "bob", first, date1)] + [MsgCaches.Row("ann", "bob", second, date2)]
  {
    hide MsgCaches.BuildMsgKey, MsgCaches.Selectable;
    var run, w := Two(first, date1, second, date2), MsgCaches.Empty(layout);
    var w1 := MsgCaches.Do(w, run[0]);
    assert run[1..] == [run[1]] && [run[1]][1..] == [];
    assert MsgCaches.Exec(w, run) == MsgCaches.Exec(w1, [run[1]]) == MsgCaches.Do(w1, run[1]);
    var r, q := MsgCaches.Row("ann", "bob", first, date1), MsgCaches.Row("ann", "bob", second, date2);
    assert w1.rows == [] + [r] == [r] && !MsgCaches.Stored([r], "ann", "bob", second);
    assert MsgCaches.Do(w1, run[1]).rows == [r] + [q];
  }

  lemma HistoryOfTwo(r: MsgCaches.Row, q: MsgCaches.Row, a: string, b: string)
    requires MsgCaches.Between(r, a, b) && MsgCaches.Between(q, a, b)
    ensures MsgCaches.History([r] + [q], a, b) == [q, r]
  {
    hide MsgCaches.History;
    HistoryOfOne(r, a, b);
    MsgCaches.HistorySnoc([r], q, a, b);
    var one := [r];
    assert [q] + one == [q, r];
  }

  lemma HistoryOfOne(r: MsgCaches.Row, a: string, b: string)
    requires MsgCaches.Between(r, a, b)
    ensures MsgCaches.History([r], a, b) == [r]
  {
    assert [r][..0] == [];
  }

  lemma AnnAndBob()
    ensures MsgCaches.Distinct({"ann", "bob"})
  {
    MsgCaches.ColonFreeIsDistinct({"ann", "bob"});
  }

  lemma AfterTwo(layout: MsgCaches.Layout, first: string, date1: nat, second: string, date2: nat)
    requires first != second
    ensures MsgCaches.History(MsgCaches.Exec(MsgCaches.Empty(layout), Two(first, date1, second, date2)).rows, "ann", "bob")
            == [MsgCaches.Row("ann", "bob", second, date2), MsgCaches.Row("ann", "bob", first, date1)]
    ensures MsgCaches.Distinct({"ann", "bob"}) && MsgOrders.PutsAmong({"ann", "bob"}, Two(first, date1, second, date2))
  {
    hide MsgCaches.Exec, MsgCaches.History, MsgCaches.Distinct;
    RowsOfTwo(layout, first, date1, second, date2);
    HistoryOfTwo(MsgCaches.Row("ann", "bob", first, date1), MsgCaches.Row("ann", "bob", second, date2), "ann", "bob");
    AnnAndBob();
  }

  /** Two messages of one date. */
  lemma TiedMessages(layout: MsgCaches.Layout)
    ensures !MsgOrders.AlwaysRight(MsgCaches.Exec(MsgCaches.Empty(layout), Two("x", 5, "y", 5)), "ann", "bob")
  {
    var run := Two("x", 5, "y", 5);
    AfterTwo(layout, "x", 5, "y", 5);
    MsgOrders.TruthfulIffInOrder(layout, {"ann", "bob"}, run, "ann", "bob");
    var hist := MsgCaches.History(MsgCaches.Exec(MsgCaches.Empty(layout), run).rows, "ann", "bob");
    assert hist[0].date == hist[1].date && hist[0] != hist[1];
  }

  /** A message dated before the one that it follows. */
  lemma EarlierMessage(layout: MsgCaches.Layout)
    ensures !MsgOrders.AlwaysRight(MsgCaches.Exec(MsgCaches.Empty(layout), Two("x", 5, "y", 4)), "ann", "bob")
  {
    var run := Two("x", 5, "y", 4);
    AfterTwo(layout, "x", 5, "y", 4);
    MsgOrders.TruthfulIffDatesAdvance(layout, {"ann", "bob"}, run, "ann", "bob");
    var hist := MsgCaches.History(MsgCaches.Exec(MsgCaches.Empty(layout), run).rows, "ann", "bob");
    assert hist[0].date < hist[1].date;
  }

  function Long(n: nat): (s: string)
    ensures |s| == n && forall i :: 0 <= i < n ==> s[i] == 'x'
  {
    seq(n, i => 'x')
  }

  /** A message of 51 bytes. */
  lemma WideMessage(layout: MsgCaches.Layout)
    ensures !MsgOrders.AlwaysRight(MsgCaches.Exec(MsgCaches.Empty(layout), Two("x", 5, Long(51), 6)), "ann", "bob")
  {
    var run := Two("x", 5, Long(51), 6);
    AfterTwo(layout, "x", 5, Long(51), 6);
    MsgOrders.TruthfulIffInOrder(layout, {"ann", "bob"}, run, "ann", "bob");
    var hist := MsgCaches.History(MsgCaches.Exec(MsgCaches.Empty(layout), run).rows, "ann", "bob");
    assert !MsgCaches.Fits(hist[0]);
  }

  /** Such a message sent twice is stored twice, unless its column has the wide buffer. */
  lemma WideMessageTwice(layout: MsgCaches.Layout, date1: nat, date2: nat)
    ensures MsgOrders.Copies(MsgCaches.Exec(MsgCaches.Empty(layout), Two(Long(51), date1, Long(51), date2)).rows,
                             "ann", "bob", Long(51))
            == if layout.content == 2 then 1 else 2
  {
    var run := Two(Long(51), date1, Long(51), date2);
    assert run[1..] == [run[1]] && [run[1]][1..] == [];
    assert MsgOrders.Sent(run, "ann", "bob", Long(51)) == 1 + MsgOrders.Sent([run[1]], "ann", "bob", Long(51)) == 2;
    MsgOrders.StoredAsOften(layout, run, "ann", "bob", Long(51));
  }

  const NOTE := MsgCaches.Put("ann", Long(51), "x", 5)
  const NOTE_ROW := MsgCaches.Row("ann", Long(51), "x", 5)

  /** A short message to an id of 51 bytes, sent twice at one time, is stored twice. */
  lemma StoredTwice(layout: MsgCaches.Layout)
    requires layout.receiver != 2
    ensures MsgCaches.Exec(MsgCaches.Empty(layout), [NOTE, NOTE]).rows == [NOTE_ROW, NOTE_ROW]
  {
    hide MsgCaches.BuildMsgKey;
    var run, w := [NOTE, NOTE], MsgCaches.Empty(layout);
    var w1 := MsgCaches.Do(w, NOTE);
    assert run[1..] == [NOTE] && [NOTE][1..] == [];
    assert MsgCaches.Exec(w, run) == MsgCaches.Exec(w1, [NOTE]) == MsgCaches.Do(w1, NOTE);
    assert [] + [NOTE_ROW] == [NOTE_ROW] && [NOTE_ROW] + [NOTE_ROW] == [NOTE_ROW, NOTE_ROW];
  }

  lemma HistoryOfNotes()
    ensures MsgCaches.History([NOTE_ROW, NOTE_ROW], "ann", Long(51)) == [NOTE_ROW, NOTE_ROW]
  {
    HistoryOfTwo(NOTE_ROW, NOTE_ROW, "ann", Long(51));
    hide MsgCaches.History;
    assert [NOTE_ROW] + [NOTE_ROW] == [NOTE_ROW, NOTE_ROW];
  }

  lemma NotesAreInOrder()
    ensures MsgOrders.InOrder([NOTE_ROW, NOTE_ROW])
    ensures MsgCaches.Tieless([NOTE_ROW, NOTE_ROW]) && MsgCaches.AllFit([NOTE_ROW, NOTE_ROW])
  {
    assert [NOTE_ROW, NOTE_ROW][1..] == [NOTE_ROW] && [NOTE_ROW][1..] == [];
    assert MsgOrders.Sorted([NOTE_ROW]) == MsgOrders.Insorted([], NOTE_ROW) == [NOTE_ROW];
    assert MsgOrders.Sorted([NOTE_ROW, NOTE_ROW]) == MsgOrders.Insorted([NOTE_ROW], NOTE_ROW) == [NOTE_ROW] + [NOTE_ROW];
  }

  /** So the dates do not advance; and still no answer is wrong. */
  lemma TwiceToWideId(layout: MsgCaches.Layout)
    requires layout.receiver != 2
    ensures var w := MsgCaches.Exec(MsgCaches.Empty(layout), [NOTE, NOTE]);
            MsgOrders.AlwaysRight(w, "ann", Long(51)) && !MsgCaches.Advancing(MsgCaches.History(w.rows, "ann", Long(51)))
  {
    StoredTwice(layout);
    HistoryOfNotes();
    NotesAreInOrder();
    var users := {"ann", Long(51)};
    MsgCaches.ColonFreeIsDistinct(users);
    hide MsgCaches.Exec, MsgCaches.History, MsgOrders.InOrder, MsgCaches.Tieless, MsgCaches.AllFit, MsgOrders.AlwaysRight;
    MsgOrders.TruthfulIffInOrder(layout, users, [NOTE, NOTE], "ann", Long(51));
    var hist := [NOTE_ROW, NOTE_ROW];
    assert hist[0].date == hist[1].date;
  }

  // ---- users

  function Registered(keyed: bool, u: UserCaches.User): UserCaches.World {
    UserCaches.Do(UserCaches.Empty(keyed), UserCaches.Register(u))
  }

  lemma RegisteredIs(keyed: bool, u: UserCaches.User)
    requires UserCaches.LegalPassword(u.password)
    ensures Registered(keyed, u) == UserCaches.World(keyed, [u], map[u.id := u.password])
    ensures UserCaches.Exec(UserCaches.Empty(keyed), [UserCaches.Register(u)]) == Registered(keyed, u)
    ensures UserCaches.Find([u], u.id) == UserCaches.Some(u)
  {
    var run := [UserCaches.Register(u)];
    assert run[1..] == [] && [] + [u] == [u];
  }

  /** Of the password "secret 1" the first word gets in, the whole does not. */
  lemma TwoWords()
    ensures var w := Registered(true, UserCaches.User("ann", "secret 1", []));
            UserCaches.Accepts(w, "ann", "secret") && !UserCaches.Accepts(w, "ann", "secret 1")
  {
    var w := Registered(true, UserCaches.User("ann", "secret 1", []));
    RegisteredIs(true, UserCaches.User("ann", "secret 1", []));
    assert Words.WordsOf("secret 1") == ["secret", "1"] by {
      assert "secret" + " " + "1" == "secret 1";
      Words.WordsAtSpace("secret", "1");
      Words.CleanIffOneWord("secret");
      Words.CleanIffOneWord("1");
    }
    UserCaches.AcceptsFirstWord(w, "ann", "secret");
    UserCaches.AcceptsFirstWord(w, "ann", "secret 1");
  }

  /** The user named "password", once the hash has run out. */
  lemma NamedPassword()
    ensures !UserCaches.Accepts(UserCaches.Do(Registered(true, UserCaches.User("password", "secret", [])), UserCaches.TimeOut),
                                "password", "secret")
  {
    var u := UserCaches.User("password", "secret", []);
    RegisteredIs(true, u);
    UserCaches.PasswordAsId([UserCaches.Register(u)], u);
  }

  /** An id of 51 bytes, once the hash has run out. */
  lemma WideId()
    ensures !UserCaches.Accepts(UserCaches.Do(Registered(true, UserCaches.User(Long(51), "secret", [])), UserCaches.TimeOut),
                                Long(51), "secret")
  {
    var u := UserCaches.User(Long(51), "secret", []);
    RegisteredIs(true, u);
    assert UserCaches.ColumnsOf(u)[0].value == Long(51);
    UserCaches.UncachedLoginIff([UserCaches.Register(u)], Long(51), u);
  }

  /** The same id registered with another password, in a table without a key. */
  lemma TwoPasswords()
    ensures !UserCaches.AgreesThroughout(UserCaches.Empty(false), [UserCaches.Register(UserCaches.User("ann", "secret", [])),
                                                                   UserCaches.Register(UserCaches.User("ann", "hidden", []))])
  {
    var u, v := UserCaches.User("ann", "secret", []), UserCaches.User("ann", "hidden", []);
    var run := [UserCaches.Register(u), UserCaches.Register(v)];
    OneWordIsSound(u);
    OneWordIsSound(v);
    RegisteredIs(false, u);
    assert run[1..][0] == UserCaches.Register(v);
    UserCaches.KeyIsNeeded(run);
  }

  lemma OneWordIsSound(u: UserCaches.User)
    requires u.id == "ann" && (u.password == "secret" || u.password == "hidden") && u.more == []
    ensures UserCaches.SoundUser(u)
  {
    FitsRow(u);
    hide UserCaches.Readable, Words.WordsOf;
    Words.CleanIffOneWord("ann");
    assert UserCaches.Cell("ann") == "ann";
  }

  lemma FitsRow(u: UserCaches.User)
    requires |u.id| <= 50 && |u.password| <= 50 && u.more == []
    ensures UserCaches.Readable(u)
  {
  }

  // ---- HTTP/2

  /** A stream whose trailers have just begun: the header sent before is gone. */
  lemma Trailers()
    ensures var es := [Http2Contexts.BeginHeaders(1), Http2Contexts.HeaderField(1, "a", "b"),
                       Http2Contexts.FrameReceived(1, Http2Contexts.HeadersFrame, false), Http2Contexts.BeginHeaders(1)];
            && Http2Contexts.Legal(es) && 1 in Http2Contexts.After(es).requests
            && Http2Contexts.After(es).requests[1] == Http2Contexts.NewRequest(1)
  {
    var e1, e2 := Http2Contexts.BeginHeaders(1), Http2Contexts.HeaderField(1, "a", "b");
    var e3 := Http2Contexts.FrameReceived(1, Http2Contexts.HeadersFrame, false);
    BlockOfOne(e1, e2, e3);
    hide Http2Contexts.Own, Http2Contexts.Legal, Http2Contexts.After, Http2Contexts.Block;
    Http2Contexts.SnocRun([e1, e2, e3], e1);
    assert [e1, e2, e3] + [e1] == [e1, e2, e3, e1];
  }

  lemma BlockOfOne(e1: Http2Contexts.Event, e2: Http2Contexts.Event, e3: Http2Contexts.Event)
    requires e1 == Http2Contexts.BeginHeaders(1) && e2 == Http2Contexts.HeaderField(1, "a", "b")
    requires e3 == Http2Contexts.FrameReceived(1, Http2Contexts.HeadersFrame, false)
    ensures Http2Contexts.Legal([e1, e2, e3]) && Http2Contexts.Block([e1, e2, e3]) == 0
  {
    hide Http2Contexts.Own, Http2Contexts.Legal, Http2Contexts.After, Http2Contexts.Block;
    NoneYet();
    Http2Contexts.SnocRun([], e1);
    Http2Contexts.StepOwn([], e1, 1);
    assert [] + [e1] == [e1];
    Http2Contexts.SnocRun([e1], e2);
    Http2Contexts.StepOwn([e1], e2, 1);
    assert [e1] + [e2] == [e1, e2];
    Http2Contexts.SnocRun([e1, e2], e3);
    assert [e1, e2] + [e3] == [e1, e2, e3];
  }

  lemma NoneYet()
    ensures Http2Contexts.Legal([]) && Http2Contexts.Block([]) == 0
  {
  }

  // ---- numbers

  lemma MinusOne(stale: char)
    ensures !LogStreams.Denotes(LogStreams.Appended(-1, stale), -1)
  {
    LogStreams.DecimalIffNotNegative(-1, stale);
  }
}
