/** Message history in Redis lists over the msgs table, after Code/database/Redis.cpp and
    SelectMsgs of Code/database/Mysql.cpp. Every call is one step. */
module MsgCaches {
  import SqlText

  /** The date the database gives a row; the document pushed by an insert has none. */
  datatype Stamp = NoDate | On(date: nat)

  datatype Row = Row(sender: string, receiver: string, content: string, date: nat)

  /** A list element: a JSON document, or the text "NULL" that ends a complete history. */
  datatype Item = Doc(sender: string, content: string, stamp: Stamp) | Marker

  /** The positions of three columns in the msgs table. */
  datatype Layout = Layout(sender: nat, receiver: nat, content: nat)

  /** The table, oldest row first, and the lists. Redis keeps no empty list. */
  datatype World = World(layout: Layout, rows: seq<Row>, lists: map<string, seq<Item>>)

  function Empty(layout: Layout): World {
    World(layout, [], map[])
  }

  // ---- keys

  /** operator< of std::string. */
  predicate Less(a: string, b: string) {
    b != "" && (a == "" || a[0] < b[0] || (a[0] == b[0] && Less(a[1..], b[1..])))
  }

  function BuildMsgKey(user1: string, user2: string): string {
    if Less(user2, user1) then "msgs:" + user2 + ":" + user1 else "msgs:" + user1 + ":" + user2
  }

  predicate SamePair(a: string, b: string, c: string, d: string) {
    (a == c && b == d) || (a == d && b == c)
  }

  predicate ColonFree(s: string) {
    ':' !in s
  }

  lemma {:induction false} LessIsTotal(a: string, b: string)
    ensures !(Less(a, b) && Less(b, a))
    ensures Less(a, b) || Less(b, a) || a == b
  {
    if a != "" && b != "" {
      LessIsTotal(a[1..], b[1..]);
      if a[0] == b[0] && a[1..] == b[1..] {
        assert a == [a[0]] + a[1..] == b;
      }
    }
  }

  /** The order is that of the first difference, a text before its continuations. */
  lemma {:induction false} LessAt(a: string, b: string, k: nat)
    requires k <= |a| && k <= |b| && a[..k] == b[..k]
    ensures k == |a| && k < |b| ==> Less(a, b)
    ensures k < |a| && k < |b| && a[k] < b[k] ==> Less(a, b)
  {
    if k > 0 {
      assert a[0] == a[..k][0] && b[0] == b[..k][0];
      assert a[1..][..k - 1] == a[..k][1..] && b[1..][..k - 1] == b[..k][1..];
      LessAt(a[1..], b[1..], k - 1);
    }
  }

  lemma KeyIsSymmetric(a: string, b: string)
    ensures BuildMsgKey(a, b) == BuildMsgKey(b, a) && "msgs:" <= BuildMsgKey(a, b)
  {
    LessIsTotal(a, b);
  }

  /** The first colon ends the first id. */
  lemma FirstColon(a: string, b: string, c: string, d: string)
    requires ColonFree(a) && ColonFree(c) && a + ":" + b == c + ":" + d
    ensures a == c && b == d
  {
    var s := a + ":" + b;
    assert s[|a|] == ':' && (c + ":" + d)[|c|] == ':';
    assert |a| == |c|;
    assert a == s[..|a|] == c && b == s[|a| + 1..] == d;
  }

  lemma PrefixedKeys(a: string, b: string, c: string, d: string)
    requires "msgs:" + a + ":" + b == "msgs:" + c + ":" + d
    ensures a + ":" + b == c + ":" + d
  {
    assert ("msgs:" + a + ":" + b)[5..] == a + ":" + b;
    assert ("msgs:" + c + ":" + d)[5..] == c + ":" + d;
  }

  /** Ids without a colon: one key for each unordered pair. */
  lemma KeyNamesThePair(a: string, b: string, c: string, d: string)
    requires ColonFree(a) && ColonFree(b) && ColonFree(c) && ColonFree(d)
    ensures BuildMsgKey(a, b) == BuildMsgKey(c, d) <==> SamePair(a, b, c, d)
  {
    KeyIsSymmetric(a, b);
    if BuildMsgKey(a, b) == BuildMsgKey(c, d) {
      var a', b' := if Less(b, a) then b else a, if Less(b, a) then a else b;
      var c', d' := if Less(d, c) then d else c, if Less(d, c) then c else d;
      PrefixedKeys(a', b', c', d');
      FirstColon(a', b', c', d');
    }
  }

  /** No two pairs of these users share a list. */
  ghost predicate Distinct(users: set<string>) {
    forall a, b, c, d {:trigger SamePair(a, b, c, d)} ::
      (a in users && b in users && c in users && d in users && BuildMsgKey(a, b) == BuildMsgKey(c, d))
      ==> SamePair(a, b, c, d)
  }

  lemma ColonFreeIsDistinct(users: set<string>)
    requires forall u :: u in users ==> ColonFree(u)
    ensures Distinct(users)
  {
    forall a, b, c, d | a in users && b in users && c in users && d in users && BuildMsgKey(a, b) == BuildMsgKey(c, d)
      ensures SamePair(a, b, c, d)
    {
      KeyNamesThePair(a, b, c, d);
    }
  }

  // ---- the table

  predicate Between(r: Row, a: string, b: string) {
    SamePair(r.sender, r.receiver, a, b)
  }

  /** The messages of a pair, last inserted first. */
  function History(rows: seq<Row>, a: string, b: string): seq<Row> {
    if rows == [] then []
    else
      var n := |rows| - 1;
      (if Between(rows[n], a, b) then [rows[n]] else []) + History(rows[..n], a, b)
  }

  /** What ORDER BY date DESC may deliver: rows with one date come in any order. */
  ghost predicate Arranged(order: seq<Row>, hist: seq<Row>) {
    multiset(order) == multiset(hist) && Descending(order)
  }

  ghost predicate Descending(order: seq<Row>) {
    forall i, j :: 0 <= i < j < |order| ==> order[i].date >= order[j].date
  }

  ghost predicate Advancing(hist: seq<Row>) {
    forall i, j :: 0 <= i < j < |hist| ==> hist[i].date > hist[j].date
  }

  lemma SameMembers(s: seq<Row>, t: seq<Row>)
    requires multiset(s) == multiset(t)
    ensures |s| == |t| && forall r :: r in s ==> r in t
  {
    assert |s| == |multiset(s)| && |t| == |multiset(t)|;
    forall r | r in s ensures r in t {
      assert r in multiset(s) && r in multiset(t);
    }
  }

  lemma SameTails(s: seq<Row>, t: seq<Row>)
    requires multiset(s) == multiset(t) && s != [] && t != [] && s[0] == t[0]
    ensures multiset(s[1..]) == multiset(t[1..])
  {
    assert s == [s[0]] + s[1..] && t == [t[0]] + t[1..];
    assert multiset(s[1..]) == multiset(s) - multiset{s[0]} && multiset(t[1..]) == multiset(t) - multiset{t[0]};
  }

  /** No two different messages have one date. */
  ghost predicate Tieless(hist: seq<Row>) {
    forall i, j :: 0 <= i < j < |hist| && hist[i].date == hist[j].date ==> hist[i] == hist[j]
  }

  lemma TielessTail(order: seq<Row>)
    requires Tieless(order) && order != []
    ensures Tieless(order[1..])
  {
  }

  /** Then there is one arrangement only. */
  lemma {:induction false} OnlyOrder(order: seq<Row>, ord: seq<Row>)
    requires Arranged(order, ord) && Descending(ord) && Tieless(ord)
    ensures order == ord
    decreases |order|
  {
    hide Tieless;
    SameMembers(order, ord);
    SameMembers(ord, order);
    if order != [] {
      SameFirst(order, ord);
      SameTails(order, ord);
      TielessTail(ord);
      OnlyOrder(order[1..], ord[1..]);
      assert order == [order[0]] + order[1..] && ord == [ord[0]] + ord[1..];
    }
  }

  lemma SameFirst(order: seq<Row>, ord: seq<Row>)
    requires Descending(order) && Descending(ord) && Tieless(ord) && order != [] && ord != []
    requires ord[0] in order && order[0] in ord
    ensures order[0] == ord[0]
  {
    var i :| 0 <= i < |order| && order[i] == ord[0];
    var j :| 0 <= j < |ord| && ord[j] == order[0];
    assert order[0].date >= order[i].date && ord[0].date >= ord[j].date;
  }

  lemma OneArrangement(order: seq<Row>, hist: seq<Row>)
    requires Arranged(order, hist) && Advancing(hist)
    ensures order == hist
  {
    OnlyOrder(order, hist);
  }

  lemma HistoryOfOnePair(rows: seq<Row>, a: string, b: string)
    ensures History(rows, a, b) == History(rows, b, a)
  {
  }

  lemma HistorySnoc(rows: seq<Row>, r: Row, a: string, b: string)
    ensures History(rows + [r], a, b) == (if Between(r, a, b) then [r] else []) + History(rows, a, b)
  {
    assert (rows + [r])[..|rows|] == rows;
  }

  predicate Stored(rows: seq<Row>, sender: string, receiver: string, content: string) {
    exists i :: 0 <= i < |rows| && rows[i].sender == sender && rows[i].receiver == receiver && rows[i].content == content
  }

  // ---- the calls

  function ListOf(w: World, key: string): seq<Item> {
    if key in w.lists then w.lists[key] else []
  }

  function Docs(rows: seq<Row>): (items: seq<Item>)
    ensures |items| == |rows|
    ensures forall i :: 0 <= i < |rows| ==> items[i] == Doc(rows[i].sender, rows[i].content, On(rows[i].date))
  {
    seq(|rows|, i requires 0 <= i < |rows| => Doc(rows[i].sender, rows[i].content, On(rows[i].date)))
  }

  /** LIMIT n. */
  function Limited(order: seq<Row>, n: nat): seq<Row> {
    if n <= |order| then order[..n] else order
  }

  /** The column buffers of SelectMsgs: sender, content, date. The wide one is meant for the content but
      belongs to the date, which always fits. */
  const BUFFER_SIZE := 50

  predicate Fits(r: Row) {
    |r.sender| <= BUFFER_SIZE && |r.content| <= BUFFER_SIZE
  }

  predicate AllFit(rows: seq<Row>) {
    forall i :: 0 <= i < |rows| ==> Fits(rows[i])
  }

  /** The fetch loop ends at the first row that does not fit. */
  function Fetched(rows: seq<Row>): (got: seq<Row>)
    ensures got <= rows && AllFit(got)
    ensures |got| < |rows| ==> !Fits(rows[|got|])
  {
    if rows == [] || !Fits(rows[0]) then [] else [rows[0]] + Fetched(rows[1..])
  }

  function Ends(list: seq<Item>): bool {
    list != [] && list[|list| - 1].Marker?
  }

  /** The select before an insert: the fetch of a row with these values succeeds. Its other columns
      are taken to fit. */
  predicate Selectable(layout: Layout, sender: string, receiver: string, content: string) {
    && |sender| <= SqlText.Width(layout.sender)
    && |receiver| <= SqlText.Width(layout.receiver)
    && |content| <= SqlText.Width(layout.content)
  }

  /** A message that the same sender has sent to the same receiver before is refused, unless it is too
      wide to be found. */
  predicate Refuses(w: World, sender: string, receiver: string, content: string) {
    Stored(w.rows, sender, receiver, content) && Selectable(w.layout, sender, receiver, content)
  }

  function AfterInsert(w: World, sender: string, receiver: string, content: string, date: nat): World {
    if Refuses(w, sender, receiver, content) then w
    else
      var key := BuildMsgKey(sender, receiver);
      World(w.layout, w.rows + [Row(sender, receiver, content, date)],
            w.lists[key := [Doc(sender, content, NoDate)] + ListOf(w, key)])
  }

  lemma FetchedIs(rows: seq<Row>, i: nat)
    requires i <= |rows| && AllFit(rows[..i]) && (i < |rows| ==> !Fits(rows[i]))
    ensures Fetched(rows) == rows[..i]
  {
    var got := Fetched(rows);
    forall k | 0 <= k < i ensures Fits(rows[k]) {
      assert rows[..i][k] == rows[k];
    }
    forall k | 0 <= k < |got| ensures Fits(rows[k]) {
      assert got[k] == rows[k];
    }
    assert |got| == i;
  }

  /** The list behind a fetch: the missing documents, and the marker when there are no more. */
  function Refilled(list: seq<Item>, docs: seq<Item>, n: int): seq<Item>
    requires |list| <= |docs|
  {
    var whole := list + docs[|list|..];
    if |docs| < n then whole + [Marker] else whole
  }

  /** What a query reads, the list it leaves, and whether the iterator `results.begin() + len` stays
      inside `results`. */
  datatype Reading = Reading(items: seq<Item>, list: seq<Item>, inRange: bool)

  /** `order` is how the database sorts the rows of the pair. */
  function Read(list: seq<Item>, n: int, order: seq<Row>): Reading {
    if n <= 0 then Reading([], list, true)
    else if Ends(list) then Reading(list[..|list| - 1], list, true)
    else if |list| >= n then Reading(list[..n], list, true)
    else
      var docs := Docs(Fetched(Limited(order, n)));
      if docs == [] then Reading(docs, list, true)
      else if |docs| < |list| then Reading(docs, list, false)
      else Reading(docs, Refilled(list, docs, n), true)
  }

  function Query(w: World, sender: string, receiver: string, n: int, order: seq<Row>): Reading {
    Read(ListOf(w, BuildMsgKey(sender, receiver)), n, order)
  }

  function WithList(w: World, key: string, list: seq<Item>): World {
    if list == ListOf(w, key) then w else w.(lists := w.lists[key := list])
  }

  function AfterQuery(w: World, sender: string, receiver: string, n: int, order: seq<Row>): World {
    WithList(w, BuildMsgKey(sender, receiver), Query(w, sender, receiver, n, order).list)
  }

  function AfterExpire(w: World, key: string): World {
    w.(lists := w.lists - {key})
  }

  class Redis {
    const layout: Layout
    var rows: seq<Row>
    var lists: map<string, seq<Item>>

    ghost function View(): World
      reads this
    {
      World(layout, rows, lists)
    }

    constructor (layout: Layout)
      ensures View() == Empty(layout)
    {
      this.layout, rows, lists := layout, [], map[];
    }

    /** `date` is the time of the database. */
    method Insert(sender: string, receiver: string, content: string, date: nat) returns (done: bool)
      modifies this
      ensures View() == AfterInsert(old(View()), sender, receiver, content, date)
      ensures done <==> !Refuses(old(View()), sender, receiver, content)
      ensures done ==> rows == old(rows) + [Row(sender, receiver, content, date)]
      ensures done ==> var key := BuildMsgKey(sender, receiver);
                       var before := if key in old(lists) then old(lists)[key] else [];
                       lists == old(lists)[key := [Doc(sender, content, NoDate)] + before]
      ensures !done ==> rows == old(rows) && lists == old(lists)
      ensures done <==> Stored(old(rows), sender, receiver, content) ==>
                          || |sender| > (if layout.sender == 2 then 2020 else 50)
                          || |receiver| > (if layout.receiver == 2 then 2020 else 50)
                          || |content| > (if layout.content == 2 then 2020 else 50)
    {
      if Stored(rows, sender, receiver, content) && Selectable(layout, sender, receiver, content) {
        return false;
      }
      rows := rows + [Row(sender, receiver, content, date)];
      var key := BuildMsgKey(sender, receiver);
      lists := lists[key := [Doc(sender, content, NoDate)] + if key in lists then lists[key] else []];
      done := true;
    }

    /** SelectMsgs: the fetch loop over the rows that LIMIT lets through. */
    method SelectMsgs(order: seq<Row>, n: nat) returns (results: seq<Item>)
      ensures results == Docs(Fetched(Limited(order, n)))
      ensures |results| <= n && |results| <= |order|
      ensures forall i :: 0 <= i < |results| ==>
                && |order[i].sender| <= 50 && |order[i].content| <= 50
                && results[i] == Doc(order[i].sender, order[i].content, On(order[i].date))
      ensures var k := |results|;
              k < n && k < |order| ==> |order[k].sender| > 50 || |order[k].content| > 50
    {
      var rows := Limited(order, n);
      results := [];
      var i := 0;
      while i < |rows| && Fits(rows[i])
        invariant 0 <= i <= |rows| && results == Docs(rows[..i]) && AllFit(rows[..i])
      {
        results := results + [Doc(rows[i].sender, rows[i].content, On(rows[i].date))];
        i := i + 1;
      }
      FetchedIs(rows, i);
    }

    /** `order` is how the database sorts the rows of the pair now. */
    method GetRecentMsgs(sender: string, receiver: string, n: int, order: seq<Row>)
      returns (results: seq<Item>, inRange: bool)
      modifies this`lists
      ensures var q := Query(old(View()), sender, receiver, n, order); results == q.items && inRange == q.inRange
      ensures View() == AfterQuery(old(View()), sender, receiver, n, order)
      ensures !inRange <==> var list := ListOf(old(View()), BuildMsgKey(sender, receiver));
                            n > 0 && !Ends(list) && |list| < n && 0 < |results| < |list|
      ensures var list := ListOf(old(View()), BuildMsgKey(sender, receiver));
              n > 0 && !Ends(list) && |list| < n ==>
                |results| <= |order| && forall i :: 0 <= i < |results| ==>
                  results[i] == Doc(order[i].sender, order[i].content, On(order[i].date))
      ensures var key := BuildMsgKey(sender, receiver);
              var list := ListOf(old(View()), key);
              n > 0 && !Ends(list) && |list| < n && results != [] && inRange ==>
                |list| <= |results|
                && lists == old(lists)[key := list + results[|list|..] + if |results| < n then [Marker] else []]
    {
      hide Fetched, Limited, Less, BuildMsgKey;
      results, inRange := [], true;
      if n <= 0 {
        return;
      }
      var key := BuildMsgKey(sender, receiver);
      var list := if key in lists then lists[key] else [];
      var len := |list|;
      if len > 0 && list[len - 1] == Marker {
        if 0 <= len - 2 {
          results := list[..len - 1];
        }
        return;
      }
      if len >= n {
        results := list[..n];
        return;
      }
      results := SelectMsgs(order, n);
      if results != [] {
        if len > |results| {
          inRange := false;
          return;
        }
        ghost var whole := list + results[len..];
        assert whole + [] == whole;
        lists := lists[key := list + results[len..]];
        if |results| < n {
          lists := lists[key := lists[key] + [Marker]];
        }
        assert lists == old(lists)[key := whole + if |results| < n then [Marker] else []];
      }
    }

    /** The time to live of a list ran out. */
    method Expire(key: string)
      modifies this`lists
      ensures View() == AfterExpire(old(View()), key)
      ensures key !in lists && forall k :: k != key ==> (k in lists <==> k in old(lists)) && (k in lists ==> lists[k] == old(lists)[k])
    {
      lists := lists - {key};
    }
  }

  // ---- runs

  datatype Action =
    | Put(sender: string, receiver: string, content: string, date: nat)
    | Ask(sender: string, receiver: string, n: int, order: seq<Row>)
    | TimeOut(key: string)

  function Do(w: World, a: Action): World {
    match a
    case Put(sender, receiver, content, date) => AfterInsert(w, sender, receiver, content, date)
    case Ask(sender, receiver, n, order) => AfterQuery(w, sender, receiver, n, order)
    case TimeOut(key) => AfterExpire(w, key)
  }

  /** What the database can do. */
  ghost predicate Possible(w: World, a: Action) {
    a.Ask? ==> Arranged(a.order, History(w.rows, a.sender, a.receiver))
  }

  /** These users only, and the clock moves on between two messages of one pair. */
  ghost predicate Fair(w: World, users: set<string>, a: Action) {
    match a
    case Put(sender, receiver, _, date) =>
      && sender in users && receiver in users
      && var hist := History(w.rows, sender, receiver); forall i :: 0 <= i < |hist| ==> hist[i].date < date
    case Ask(sender, receiver, _, _) => sender in users && receiver in users
    case TimeOut(_) => true
  }

  ghost predicate Legal(w: World, users: set<string>, run: seq<Action>)
    decreases |run|
  {
    run != [] ==> Possible(w, run[0]) && Fair(w, users, run[0]) && Legal(Do(w, run[0]), users, run[1..])
  }

  function Exec(w: World, run: seq<Action>): World
    decreases |run|
  {
    if run == [] then w else Exec(Do(w, run[0]), run[1..])
  }

  // ---- the invariant

  /** The same messages, by sender, content and, where a document has one, date. */
  ghost predicate Agrees(items: seq<Item>, rows: seq<Row>) {
    |items| == |rows| && forall i :: 0 <= i < |items| ==> Matches(items[i], rows[i])
  }

  ghost predicate Matches(item: Item, r: Row) {
    item.Doc? && item.sender == r.sender && item.content == r.content && (item.stamp == NoDate || item.stamp == On(r.date))
  }

  /** A list is a prefix of the history; the marker stands last and only behind the whole history. */
  ghost predicate Faithful(list: seq<Item>, hist: seq<Row>) {
    if Ends(list) then hist != [] && |list| == |hist| + 1 && Agrees(list[..|hist|], hist)
    else |list| <= |hist| && Agrees(list, hist[..|list|])
  }

  /** Once a message that is too wide has been stored, nothing is promised for its pair. */
  ghost predicate PairOk(w: World, a: string, b: string) {
    var hist := History(w.rows, a, b);
    Advancing(hist) && (AllFit(hist) ==> Faithful(ListOf(w, BuildMsgKey(a, b)), hist))
  }

  ghost predicate Inv(w: World, users: set<string>) {
    forall a, b :: a in users && b in users ==> PairOk(w, a, b)
  }

  lemma PutKeepsPair(w: World, users: set<string>, p: Action, a: string, b: string)
    requires Distinct(users) && p.Put? && Fair(w, users, p) && a in users && b in users
    requires PairOk(w, a, b)
    ensures PairOk(Do(w, p), a, b)
  {
    hide History, BuildMsgKey, Faithful, AllFit, Advancing;
    var r := Row(p.sender, p.receiver, p.content, p.date);
    var key, hist := BuildMsgKey(a, b), History(w.rows, a, b);
    HistorySnoc(w.rows, r, a, b);
    KeyIsSymmetric(a, b);
    HistoryOfOnePair(w.rows, a, b);
    if Refuses(w, p.sender, p.receiver, p.content) {
    } else if Between(r, a, b) {
      assert BuildMsgKey(p.sender, p.receiver) == key && History(w.rows, p.sender, p.receiver) == hist;
      assert ListOf(Do(w, p), key) == [Doc(p.sender, p.content, NoDate)] + ListOf(w, key);
      PushIsOk(ListOf(w, key), hist, r);
    } else {
      assert !SamePair(p.sender, p.receiver, a, b) && BuildMsgKey(p.sender, p.receiver) != key;
      assert [] + hist == hist;
    }
  }

  lemma PushIsOk(list: seq<Item>, hist: seq<Row>, r: Row)
    requires Advancing(hist) && (forall i :: 0 <= i < |hist| ==> hist[i].date < r.date) && (AllFit(hist) ==> Faithful(list, hist))
    ensures Advancing([r] + hist)
    ensures AllFit([r] + hist) ==> Faithful([Doc(r.sender, r.content, NoDate)] + list, [r] + hist)
  {
    hide Faithful, Fits;
    PushAdvancing(hist, r);
    if AllFit([r] + hist) {
      assert forall i :: 0 <= i < |hist| ==> ([r] + hist)[i + 1] == hist[i];
      PushFaithful(list, hist, r);
    }
  }

  lemma PushAdvancing(hist: seq<Row>, r: Row)
    requires Advancing(hist) && forall i :: 0 <= i < |hist| ==> hist[i].date < r.date
    ensures Advancing([r] + hist)
  {
  }

  /** A push on the left keeps a list faithful. */
  lemma PushFaithful(list: seq<Item>, hist: seq<Row>, r: Row)
    requires Faithful(list, hist)
    ensures Faithful([Doc(r.sender, r.content, NoDate)] + list, [r] + hist)
  {
    var d := Doc(r.sender, r.content, NoDate);
    if Ends(list) {
      assert ([d] + list)[..|hist| + 1] == [d] + list[..|hist|];
    } else {
      assert ([r] + hist)[..|list| + 1] == [r] + hist[..|list|];
    }
  }

  /** The append behind a fetch. */
  lemma AppendFaithful(list: seq<Item>, docs: seq<Item>, hist: seq<Row>, n: int)
    requires Faithful(list, hist) && !Ends(list) && |list| < n && docs == Docs(Limited(hist, n)) && docs != []
    ensures |list| <= |docs|
    ensures Faithful(Refilled(list, docs, n), hist)
  {
    var whole := list + docs[|list|..];
    assert |whole| == |docs| && Agrees(whole, hist[..|docs|]);
    if |docs| < n {
      assert (whole + [Marker])[..|hist|] == whole && hist[..|docs|] == hist;
    }
  }

  /** What a query returns and leaves behind, on a faithful list. */
  ghost predicate TrueReading(q: Reading, list: seq<Item>, hist: seq<Row>, n: int) {
    && q.inRange && |q.items| <= |hist| && Agrees(q.items, hist[..|q.items|])
    && (n > 0 ==> |q.items| == if Ends(list) || n > |hist| then |hist| else n)
    && (n <= 0 ==> q.items == [])
    && (n > 0 && !Ends(list) && |list| < n ==> forall i :: 0 <= i < |q.items| ==> q.items[i].stamp == On(hist[i].date))
  }

  /** The query needs no fetch, or every row of its fetch fits. */
  predicate Readable(list: seq<Item>, hist: seq<Row>, n: int) {
    n <= 0 || Ends(list) || |list| >= n || AllFit(Limited(hist, n))
  }

  lemma ReadFromList(list: seq<Item>, hist: seq<Row>, n: int)
    requires Faithful(list, hist) && (n <= 0 || Ends(list) || |list| >= n)
    ensures TrueReading(Read(list, n, hist), list, hist, n) && Read(list, n, hist).list == list
  {
    if n > 0 {
      if Ends(list) {
        assert hist[..|hist|] == hist;
      } else {
        assert hist[..|list|][..n] == hist[..n];
      }
    }
  }

  lemma ReadByFetch(list: seq<Item>, hist: seq<Row>, n: int)
    requires Faithful(list, hist) && n > 0 && !Ends(list) && |list| < n && AllFit(Limited(hist, n))
    ensures TrueReading(Read(list, n, hist), list, hist, n)
    ensures Faithful(Read(list, n, hist).list, hist)
  {
    hide Fits, Refilled, Faithful;
    var rows := Limited(hist, n);
    assert Fetched(rows) == rows;
    assert rows == hist[..|rows|] && Agrees(Docs(rows), rows);
    if rows != [] {
      AppendFaithful(list, Docs(rows), hist, n);
    } else {
      NothingToFetch(list, hist);
    }
  }

  lemma NothingToFetch(list: seq<Item>, hist: seq<Row>)
    requires Faithful(list, hist) && hist == []
    ensures list == []
  {
  }

  lemma CutFetchIsUntrue(list: seq<Item>, hist: seq<Row>, n: int)
    requires n > 0 && !Ends(list) && |list| < n && !AllFit(Limited(hist, n))
    ensures !TrueReading(Read(list, n, hist), list, hist, n)
  {
    hide Fits, Refilled, Agrees;
    var rows := Limited(hist, n);
    assert |Fetched(rows)| == |rows| ==> Fetched(rows) == rows;
    assert |Read(list, n, hist).items| < |rows|;
  }

  /** A query on a faithful list is answered from the true history exactly when all rows it has to
      fetch fit the column buffers; then the list stays faithful. */
  lemma ReadIsTrueIff(list: seq<Item>, hist: seq<Row>, n: int)
    requires Faithful(list, hist)
    ensures TrueReading(Read(list, n, hist), list, hist, n) <==> Readable(list, hist, n)
    ensures Readable(list, hist, n) ==> Faithful(Read(list, n, hist).list, hist)
  {
    hide Read, Faithful, TrueReading, AllFit, Limited;
    if n <= 0 || Ends(list) || |list| >= n {
      ReadFromList(list, hist, n);
    } else {
      if AllFit(Limited(hist, n)) {
        ReadByFetch(list, hist, n);
      } else {
        CutFetchIsUntrue(list, hist, n);
      }
    }
  }

  /** The marker that a fetch puts behind a faithful list is right exactly when all messages of the pair
      fit; and a fetch never leaves a wrong list without it. */
  lemma MarkerIsRightIff(list: seq<Item>, hist: seq<Row>, n: int)
    requires Faithful(list, hist) && !Ends(list) && Ends(Read(list, n, hist).list)
    ensures Faithful(Read(list, n, hist).list, hist) <==> AllFit(hist)
  {
    var rows := Limited(hist, n);
    var got := Fetched(rows);
    var whole := list + Docs(got)[|list|..];
    assert |got| < n && |whole| == |got|;
    if AllFit(hist) {
      ReadIsTrueIff(list, hist, n);
    } else {
      assert |got| == |hist| ==> got == hist;
    }
  }

  lemma QueryOnPair(w: World, a: string, b: string, n: int, order: seq<Row>)
    requires PairOk(w, a, b) && Arranged(order, History(w.rows, a, b))
    ensures AfterQuery(w, a, b, n, order).rows == w.rows && PairOk(AfterQuery(w, a, b, n, order), a, b)
    ensures AllFit(History(w.rows, a, b)) ==>
              TrueReading(Query(w, a, b, n, order), ListOf(w, BuildMsgKey(a, b)), History(w.rows, a, b), n)
  {
    hide Read, Faithful, TrueReading, History, BuildMsgKey, Fits;
    var hist := History(w.rows, a, b);
    OneArrangement(order, hist);
    if AllFit(hist) {
      ReadIsTrueIff(ListOf(w, BuildMsgKey(a, b)), hist, n);
    }
  }

  lemma AskKeepsPair(w: World, users: set<string>, p: Action, a: string, b: string)
    requires Distinct(users) && p.Ask? && Fair(w, users, p) && Possible(w, p) && a in users && b in users
    requires PairOk(w, a, b) && PairOk(w, p.sender, p.receiver)
    ensures PairOk(Do(w, p), a, b)
  {
    hide Read, Faithful, History, BuildMsgKey, Arranged, Advancing, AllFit;
    QueryOnPair(w, p.sender, p.receiver, p.n, p.order);
    HistoryOfOnePair(w.rows, a, b);
    assert BuildMsgKey(p.sender, p.receiver) == BuildMsgKey(a, b) ==> SamePair(p.sender, p.receiver, a, b);
  }

  lemma StepKeepsInv(w: World, users: set<string>, p: Action)
    requires Distinct(users) && Inv(w, users) && Possible(w, p) && Fair(w, users, p)
    ensures Inv(Do(w, p), users)
  {
    forall a, b | a in users && b in users ensures PairOk(Do(w, p), a, b) {
      assert PairOk(w, a, b);
      match p
      case Put(_, _, _, _) => PutKeepsPair(w, users, p, a, b);
      case Ask(_, _, _, _) => assert PairOk(w, p.sender, p.receiver); AskKeepsPair(w, users, p, a, b);
      case TimeOut(_) =>
    }
  }

  lemma {:induction false} ExecKeepsInv(w: World, users: set<string>, run: seq<Action>)
    requires Distinct(users) && Inv(w, users) && Legal(w, users, run)
    ensures Inv(Exec(w, run), users)
    decreases |run|
  {
    if run != [] {
      StepKeepsInv(w, users, run[0]);
      ExecKeepsInv(Do(w, run[0]), users, run[1..]);
    }
  }

  lemma EmptyIsFine(layout: Layout, users: set<string>)
    ensures Inv(Empty(layout), users)
  {
  }

  /** After every legal run every query for a pair whose messages all fit answers with a prefix of the
      true history: all of it when the marker is there, exactly n messages (or all there are) when it is
      not; never out of range. */
  lemma AnswersAreTrue(layout: Layout, users: set<string>, run: seq<Action>, a: string, b: string, n: int, order: seq<Row>)
    requires Distinct(users) && a in users && b in users && Legal(Empty(layout), users, run)
    requires Arranged(order, History(Exec(Empty(layout), run).rows, a, b)) && AllFit(History(Exec(Empty(layout), run).rows, a, b))
    ensures var w := Exec(Empty(layout), run);
            TrueReading(Query(w, a, b, n, order), ListOf(w, BuildMsgKey(a, b)), History(w.rows, a, b), n)
  {
    EmptyIsFine(layout, users);
    ExecKeepsInv(Empty(layout), users, run);
    assert PairOk(Exec(Empty(layout), run), a, b);
    QueryOnPair(Exec(Empty(layout), run), a, b, n, order);
  }

  // ---- both conditions are needed

  /** Every query after every legal run of these users is answered from the true history, for the pairs
      whose messages all fit. */
  ghost predicate AllAnswersTrue(layout: Layout, users: set<string>) {
    forall run, a, b, n, order ::
      && a in users && b in users && Legal(Empty(layout), users, run)
      && Arranged(order, History(Exec(Empty(layout), run).rows, a, b)) && AllFit(History(Exec(Empty(layout), run).rows, a, b))
      ==> TrueReading(Query(Exec(Empty(layout), run), a, b, n, order), ListOf(Exec(Empty(layout), run), BuildMsgKey(a, b)),
                      History(Exec(Empty(layout), run).rows, a, b), n)
  }

  lemma AllTrueIffDistinct(layout: Layout, users: set<string>)
    ensures AllAnswersTrue(layout, users) <==> Distinct(users)
  {
    hide History, BuildMsgKey, Exec, Legal, TrueReading, Query, Arranged, AllFit;
    if Distinct(users) {
      forall run, a, b, n, order |
        && a in users && b in users && Legal(Empty(layout), users, run)
        && Arranged(order, History(Exec(Empty(layout), run).rows, a, b)) && AllFit(History(Exec(Empty(layout), run).rows, a, b))
        ensures TrueReading(Query(Exec(Empty(layout), run), a, b, n, order), ListOf(Exec(Empty(layout), run), BuildMsgKey(a, b)),
                            History(Exec(Empty(layout), run).rows, a, b), n)
      {
        AnswersAreTrue(layout, users, run, a, b, n, order);
      }
    } else {
      var a, b, c, d :| a in users && b in users && c in users && d in users
                        && BuildMsgKey(a, b) == BuildMsgKey(c, d) && !SamePair(a, b, c, d);
      SharedKeyIsUntrue(layout, users, a, b, c, d);
    }
  }

  lemma SharedKeyIsUntrue(layout: Layout, users: set<string>, a: string, b: string, c: string, d: string)
    requires a in users && b in users && BuildMsgKey(a, b) == BuildMsgKey(c, d) && !SamePair(a, b, c, d)
    ensures var run := [Put(a, b, "hi", 0)];
            var w := Exec(Empty(layout), run);
            && Legal(Empty(layout), users, run) && Arranged([], History(w.rows, c, d)) && AllFit(History(w.rows, c, d))
            && !TrueReading(Query(w, c, d, 1, []), ListOf(w, BuildMsgKey(c, d)), History(w.rows, c, d), 1)
  {
    hide BuildMsgKey, Exec, Arranged, Do, Query;
    var p := Put(a, b, "hi", 0);
    SharedKeyLeaks(layout, a, b, c, d, "hi", 0);
    LegalPut(layout, users, p);
  }

  lemma LegalPut(layout: Layout, users: set<string>, p: Action)
    requires p.Put? && p.sender in users && p.receiver in users
    ensures Legal(Empty(layout), users, [p])
  {
    hide Do;
    assert [p][1..] == [] && Legal(Do(Empty(layout), p), users, []);
  }

  /** Two pairs with one key: the second reads the message of the first. */
  lemma SharedKeyLeaks(layout: Layout, a: string, b: string, c: string, d: string, content: string, date: nat)
    requires BuildMsgKey(a, b) == BuildMsgKey(c, d) && !SamePair(a, b, c, d)
    ensures var w := Exec(Empty(layout), [Put(a, b, content, date)]);
            && History(w.rows, c, d) == [] && Arranged([], History(w.rows, c, d))
            && Query(w, c, d, 1, []).items == [Doc(a, content, NoDate)]
  {
    var p := Put(a, b, content, date);
    assert [p][1..] == [];
    assert Exec(Empty(layout), [p]) == Do(Empty(layout), p);
    var r := Row(a, b, content, date);
    HistorySnoc([], r, c, d);
    assert [] + [r] == [r];
  }

  /** An id with a colon in it: the key does not tell where the first id ends. */
  lemma ColonSharesKeys(p: string, q: string, r: string)
    requires p != r && !Less(q + ":" + r, p) && !Less(r, p + ":" + q)
    ensures BuildMsgKey(p, q + ":" + r) == BuildMsgKey(p + ":" + q, r)
    ensures !SamePair(p, q + ":" + r, p + ":" + q, r)
  {
    hide Less;
    assert "msgs:" + p + ":" + (q + ":" + r) == "msgs:" + (p + ":" + q) + ":" + r;
  }

  /** Users without a colon in their ids are always answered from the true history. */
  lemma ColonFreeAnswersTrue(layout: Layout, users: set<string>)
    requires forall u :: u in users ==> ColonFree(u)
    ensures AllAnswersTrue(layout, users)
  {
    hide AllAnswersTrue;
    ColonFreeIsDistinct(users);
    AllTrueIffDistinct(layout, users);
  }
}
