/** When the message cache is true to the order of the dates: the exact condition, for every history
    and every list. */
module MsgOrders {
  import opened MsgCaches

  // ---- runs that only read

  ghost predicate Feasible(w: World, run: seq<Action>)
    decreases |run|
  {
    run != [] ==> Possible(w, run[0]) && Feasible(Do(w, run[0]), run[1..])
  }

  /** One pair is asked for, from either side, and lists run out. */
  ghost predicate Quiet(run: seq<Action>, a: string, b: string) {
    forall i :: 0 <= i < |run| ==> run[i].TimeOut? || (run[i].Ask? && SamePair(run[i].sender, run[i].receiver, a, b))
  }

  /** Is there any order of the rows by date that begins with these messages? */
  ghost predicate Truthful(items: seq<Item>, hist: seq<Row>) {
    exists order :: Arranged(order, hist) && |items| <= |order| && Agrees(items, order[..|items|])
  }

  /** In range, true to the dates, and n messages or all there are. */
  ghost predicate Right(q: Reading, hist: seq<Row>, n: int) {
    q.inRange && Truthful(q.items, hist) && (|q.items| >= n || |q.items| >= |hist|)
  }

  /** Whatever is asked for, whenever lists run out, however the database sorts rows of one date. */
  ghost predicate AlwaysRight(w: World, a: string, b: string) {
    forall run, n, order ::
      Quiet(run, a, b) && Feasible(w, run) && Arranged(order, History(Exec(w, run).rows, a, b))
      ==> Right(Query(Exec(w, run), a, b, n, order), History(Exec(w, run).rows, a, b), n)
  }

  // ---- nothing is made up

  /** The item is a stored message of a pair with this key. */
  ghost predicate Real(item: Item, rows: seq<Row>, key: string) {
    exists r :: r in rows && BuildMsgKey(r.sender, r.receiver) == key && Matches(item, r)
  }

  /** Only the last element may be the marker; all others are stored messages. */
  ghost predicate ListReal(list: seq<Item>, rows: seq<Row>, key: string) {
    forall i :: 0 <= i < |list| ==> if list[i].Marker? then i == |list| - 1 else Real(list[i], rows, key)
  }

  ghost predicate ListsReal(w: World) {
    forall key :: key in w.lists ==> ListReal(w.lists[key], w.rows, key)
  }

  lemma FetchIsReal(rows: seq<Row>, a: string, b: string, n: nat, order: seq<Row>)
    requires Arranged(order, History(rows, a, b))
    ensures AllReal(Docs(Fetched(Limited(order, n))), rows, BuildMsgKey(a, b))
  {
    hide BuildMsgKey, History;
    var key, got := BuildMsgKey(a, b), Fetched(Limited(order, n));
    SameMembers(order, History(rows, a, b));
    HistoryIsOfPair(rows, a, b);
    KeyIsSymmetric(a, b);
    forall i | 0 <= i < |got| ensures Real(Docs(got)[i], rows, key) {
      assert got[i] == order[i] && order[i] in order;
      assert Matches(Docs(got)[i], order[i]);
    }
  }

  ghost predicate AllReal(items: seq<Item>, rows: seq<Row>, key: string) {
    forall i :: 0 <= i < |items| ==> items[i].Doc? && Real(items[i], rows, key)
  }

  /** The front of a list, without its marker. */
  lemma FrontIsReal(list: seq<Item>, rows: seq<Row>, key: string, k: nat)
    requires ListReal(list, rows, key) && k <= |list| && (k == |list| ==> !Ends(list))
    ensures AllReal(list[..k], rows, key)
  {
    hide Real;
  }

  lemma RefilledIsReal(list: seq<Item>, docs: seq<Item>, n: int, rows: seq<Row>, key: string)
    requires AllReal(list, rows, key) && AllReal(docs, rows, key) && |list| <= |docs|
    ensures ListReal(Refilled(list, docs, n), rows, key)
  {
    hide Real;
  }

  /** What a query reads and leaves on a list of stored messages. */
  lemma ReadIsReal(rows: seq<Row>, a: string, b: string, list: seq<Item>, n: int, order: seq<Row>)
    requires ListReal(list, rows, BuildMsgKey(a, b)) && Arranged(order, History(rows, a, b))
    ensures ListReal(Read(list, n, order).list, rows, BuildMsgKey(a, b))
    ensures AllReal(Read(list, n, order).items, rows, BuildMsgKey(a, b))
  {
    hide BuildMsgKey, Arranged, History, Real, ListReal, Ends, Fetched, Limited, Refilled;
    var key := BuildMsgKey(a, b);
    if n <= 0 {
    } else if Ends(list) {
      EndsIsLong(list);
      FrontIsReal(list, rows, key, |list| - 1);
    } else if |list| >= n {
      FrontIsReal(list, rows, key, n);
    } else {
      FetchIsReal(rows, a, b, n, order);
      FrontIsReal(list, rows, key, |list|);
      assert list[..|list|] == list;
      var docs := Docs(Fetched(Limited(order, n)));
      if |list| <= |docs| {
        RefilledIsReal(list, docs, n, rows, key);
      }
    }
  }

  lemma EndsIsLong(list: seq<Item>)
    requires Ends(list)
    ensures |list| > 0
  {
  }

  lemma StepIsReal(w: World, p: Action)
    requires ListsReal(w) && Possible(w, p)
    ensures ListsReal(Do(w, p))
  {
    hide BuildMsgKey, Arranged, History, Read, Refuses;
    match p
    case Put(sender, receiver, content, date) =>
      if !Refuses(w, sender, receiver, content) {
        var r, d := Row(sender, receiver, content, date), Doc(sender, content, NoDate);
        assert Matches(d, r) && r in w.rows + [r];
        forall key | key in Do(w, p).lists ensures ListReal(Do(w, p).lists[key], w.rows + [r], key) {
          forall item | Real(item, w.rows, key) ensures Real(item, w.rows + [r], key) {
            var q :| q in w.rows && BuildMsgKey(q.sender, q.receiver) == key && Matches(item, q);
            assert q in w.rows + [r];
          }
        }
      }
    case Ask(sender, receiver, n, order) =>
      var key := BuildMsgKey(sender, receiver);
      assert ListReal(ListOf(w, key), w.rows, key);
      ReadIsReal(w.rows, sender, receiver, ListOf(w, key), n, order);
    case TimeOut(_) =>
  }

  lemma {:induction false} ExecIsReal(w: World, run: seq<Action>)
    requires ListsReal(w) && Feasible(w, run)
    ensures ListsReal(Exec(w, run))
    decreases |run|
  {
    hide Do, Possible;
    if run != [] {
      StepIsReal(w, run[0]);
      ExecIsReal(Do(w, run[0]), run[1..]);
    }
  }

  /** Whatever ids, dates and widths: after any run, every item of every answer is a message stored for a
      pair with that key, undated or with its own date. */
  lemma NothingMadeUp(layout: Layout, run: seq<Action>, a: string, b: string, n: int, order: seq<Row>)
    requires Feasible(Empty(layout), run) && Arranged(order, History(Exec(Empty(layout), run).rows, a, b))
    ensures var w := Exec(Empty(layout), run);
            AllReal(Query(w, a, b, n, order).items, w.rows, BuildMsgKey(a, b))
  {
    hide BuildMsgKey, Arranged, History, Exec, Feasible, Read;
    ExecIsReal(Empty(layout), run);
    var w := Exec(Empty(layout), run);
    assert ListReal(ListOf(w, BuildMsgKey(a, b)), w.rows, BuildMsgKey(a, b));
    ReadIsReal(w.rows, a, b, ListOf(w, BuildMsgKey(a, b)), n, order);
  }

  // ---- sorting

  function Insorted(order: seq<Row>, r: Row): seq<Row> {
    if order == [] || order[0].date <= r.date then [r] + order else [order[0]] + Insorted(order[1..], r)
  }

  function Sorted(rows: seq<Row>): seq<Row> {
    if rows == [] then [] else Insorted(Sorted(rows[1..]), rows[0])
  }

  lemma {:induction false} InsortedDescends(order: seq<Row>, r: Row)
    requires Descending(order)
    ensures Descending(Insorted(order, r))
    ensures forall x :: x in Insorted(order, r) ==> x in order || x == r
  {
    if order != [] && order[0].date > r.date {
      InsortedDescends(order[1..], r);
      var rest := Insorted(order[1..], r);
      assert order == [order[0]] + order[1..];
      forall i | 0 <= i < |rest| ensures rest[i].date <= order[0].date {
        assert rest[i] in rest;
      }
    }
  }

  lemma {:induction false} InsortedKeepsRows(order: seq<Row>, r: Row)
    ensures multiset(Insorted(order, r)) == multiset(order) + multiset{r}
  {
    if order == [] || order[0].date <= r.date {
      assert multiset([r] + order) == multiset{r} + multiset(order);
    } else {
      InsortedKeepsRows(order[1..], r);
      assert order == [order[0]] + order[1..];
    }
  }

  /** The database can always sort. */
  lemma {:induction false} SortedIsArranged(rows: seq<Row>)
    ensures Arranged(Sorted(rows), rows)
  {
    if rows != [] {
      SortedIsArranged(rows[1..]);
      InsortedDescends(Sorted(rows[1..]), rows[0]);
      InsortedKeepsRows(Sorted(rows[1..]), rows[0]);
      assert rows == [rows[0]] + rows[1..];
    }
  }

  lemma SameArrangements(order: seq<Row>, ord: seq<Row>, hist: seq<Row>)
    requires Arranged(order, hist) && Arranged(ord, hist)
    ensures Arranged(order, ord) && |order| == |ord| == |hist| && (AllFit(hist) ==> AllFit(ord))
  {
    SameMembers(order, hist);
    SameMembers(ord, hist);
    forall i | 0 <= i < |ord| && AllFit(hist) ensures Fits(ord[i]) {
      assert ord[i] in ord;
    }
  }

  // ---- rows of one date

  lemma TielessMembers(order: seq<Row>, hist: seq<Row>)
    requires multiset(order) == multiset(hist) && Tieless(hist)
    ensures Tieless(order)
  {
    SameMembers(order, hist);
    forall i, j | 0 <= i < j < |order| && order[i].date == order[j].date ensures order[i] == order[j] {
      assert order[i] in order && order[j] in order;
      var k :| 0 <= k < |hist| && hist[k] == order[i];
      var l :| 0 <= l < |hist| && hist[l] == order[j];
      assert k != l ==> hist[k] == hist[l];
    }
  }

  lemma {:induction false} HistoryIsOfPair(rows: seq<Row>, a: string, b: string)
    ensures forall r :: r in History(rows, a, b) ==> r in rows && Between(r, a, b)
  {
    if rows != [] {
      HistoryIsOfPair(rows[..|rows| - 1], a, b);
    }
  }

  /** Within a pair, a row is its sender, its content and its date. */
  lemma NameIsRow(hist: seq<Row>, a: string, b: string, x: Row, y: Row)
    requires (forall r :: r in hist ==> Between(r, a, b)) && x in hist && y in hist
    requires x.sender == y.sender && x.content == y.content && x.date == y.date
    ensures x == y
  {
  }

  // ---- the condition is enough

  /** No two messages of the pair share a date, all rows fit, and the list is a part of the only order. */
  ghost predicate Sound(w: World, a: string, b: string, ord: seq<Row>) {
    var hist := History(w.rows, a, b);
    Arranged(ord, hist) && Tieless(ord) && AllFit(hist) && Faithful(ListOf(w, BuildMsgKey(a, b)), ord)
  }

  lemma SoundIsRight(w: World, a: string, b: string, ord: seq<Row>, n: int, order: seq<Row>)
    requires Sound(w, a, b, ord) && Arranged(order, History(w.rows, a, b))
    ensures order == ord && Right(Query(w, a, b, n, order), History(w.rows, a, b), n)
    ensures Sound(AfterQuery(w, a, b, n, order), a, b, ord)
  {
    hide History, BuildMsgKey, Read, Faithful, Tieless, Fits, Agrees;
    var hist, list := History(w.rows, a, b), ListOf(w, BuildMsgKey(a, b));
    SameArrangements(order, ord, hist);
    OnlyOrder(order, ord);
    LimitedFits(ord, n);
    ReadIsTrueIff(list, ord, n);
  }

  lemma LimitedFits(rows: seq<Row>, n: int)
    requires AllFit(rows)
    ensures n > 0 ==> AllFit(Limited(rows, n))
  {
  }

  lemma QuietStepIsSound(w: World, a: string, b: string, ord: seq<Row>, p: Action)
    requires Sound(w, a, b, ord) && Quiet([p], a, b) && Possible(w, p)
    ensures Sound(Do(w, p), a, b, ord)
  {
    hide History, BuildMsgKey, Arranged, Tieless, AllFit, Read;
    assert [p][0] == p;
    if p.Ask? {
      KeyIsSymmetric(a, b);
      HistoryOfOnePair(w.rows, a, b);
      SoundIsRight(w, a, b, ord, p.n, p.order);
    }
  }

  lemma {:induction false} QuietRunIsSound(w: World, a: string, b: string, ord: seq<Row>, run: seq<Action>)
    requires Sound(w, a, b, ord) && Quiet(run, a, b) && Feasible(w, run)
    ensures Sound(Exec(w, run), a, b, ord) && Exec(w, run).rows == w.rows
    decreases |run|
  {
    hide Sound, History, BuildMsgKey;
    if run != [] {
      assert Quiet([run[0]], a, b);
      QuietStepIsSound(w, a, b, ord, run[0]);
      assert Do(w, run[0]).rows == w.rows;
      QuietRunIsSound(Do(w, run[0]), a, b, ord, run[1..]);
    }
  }

  lemma SoundIsAlwaysRight(w: World, a: string, b: string, ord: seq<Row>)
    requires Sound(w, a, b, ord)
    ensures AlwaysRight(w, a, b)
  {
    hide Sound, History, BuildMsgKey, Exec, Feasible, Quiet, Query, Arranged, Right;
    forall run, n, order | Quiet(run, a, b) && Feasible(w, run) && Arranged(order, History(Exec(w, run).rows, a, b))
      ensures Right(Query(Exec(w, run), a, b, n, order), History(Exec(w, run).rows, a, b), n)
    {
      QuietRunIsSound(w, a, b, ord, run);
      SoundIsRight(Exec(w, run), a, b, ord, n, order);
    }
  }

  // ---- and needed

  lemma ConsRun(w: World, p: Action, rest: seq<Action>)
    requires Possible(w, p) && Feasible(Do(w, p), rest)
    ensures Feasible(w, [p] + rest) && Exec(w, [p] + rest) == Exec(Do(w, p), rest)
  {
    hide Possible, Do;
    assert ([p] + rest)[1..] == rest;
  }

  /** The list runs out: the same rows, an empty list. */
  lemma RunsOut(w: World, key: string)
    ensures Feasible(w, [TimeOut(key)]) && Exec(w, [TimeOut(key)]) == AfterExpire(w, key)
    ensures ListOf(AfterExpire(w, key), key) == [] && AfterExpire(w, key).rows == w.rows
  {
    ConsRun(w, TimeOut(key), []);
    assert [TimeOut(key)] + [] == [TimeOut(key)];
  }

  /** A row that does not fit: once the list has run out, a query for all gets less. */
  lemma WideShows(w: World, a: string, b: string)
    requires !AllFit(History(w.rows, a, b))
    ensures !AlwaysRight(w, a, b)
  {
    hide History, BuildMsgKey, Arranged, Fits, Truthful;
    var hist, key := History(w.rows, a, b), BuildMsgKey(a, b);
    var order := Sorted(hist);
    SortedIsArranged(hist);
    SameArrangements(order, order, hist);
    WideStaysWide(order, hist);
    RunsOut(w, key);
    var w1 := AfterExpire(w, key);
    var n := |hist|;
    assert Limited(order, n) == order;
    var got := Fetched(order);
    assert |got| == |order| ==> got == order;
    assert Query(w1, a, b, n, order).items == Docs(got);
    assert Quiet([TimeOut(key)], a, b);
    assert !Right(Query(w1, a, b, n, order), hist, n);
  }

  lemma WideStaysWide(order: seq<Row>, hist: seq<Row>)
    requires Arranged(order, hist) && !AllFit(hist)
    ensures !AllFit(order)
  {
    SameMembers(hist, order);
    var i :| 0 <= i < |hist| && !Fits(hist[i]);
    assert hist[i] in hist;
    var j :| 0 <= j < |order| && order[j] == hist[i];
  }

  /** The rows of an order that are newer than a row, equal to it, or neither. */
  datatype Kind = Newer | Same | Other

  function KindOf(r: Row, x: Row): Kind {
    if r.date > x.date then Newer else if r == x then Same else Other
  }

  function Part(rows: seq<Row>, x: Row, kind: Kind): seq<Row> {
    if rows == [] then []
    else (if KindOf(rows[0], x) == kind then [rows[0]] else []) + Part(rows[1..], x, kind)
  }

  /** The same rows with the copies of one row in front of all others of its date. */
  function Fronted(rows: seq<Row>, x: Row): seq<Row> {
    Part(rows, x, Newer) + Part(rows, x, Same) + Part(rows, x, Other)
  }

  lemma {:induction false} PartIs(rows: seq<Row>, x: Row, kind: Kind)
    ensures forall r :: r in Part(rows, x, kind) <==> r in rows && KindOf(r, x) == kind
  {
    if rows != [] {
      PartIs(rows[1..], x, kind);
    }
  }

  lemma {:induction false} PartDescends(rows: seq<Row>, x: Row, kind: Kind)
    requires Descending(rows)
    ensures Descending(Part(rows, x, kind))
  {
    if rows != [] {
      PartDescends(rows[1..], x, kind);
      PartIs(rows[1..], x, kind);
      var rest := Part(rows[1..], x, kind);
      forall i | 0 <= i < |rest| ensures rest[i].date <= rows[0].date {
        assert rest[i] in rest;
      }
    }
  }

  lemma PartCons(rows: seq<Row>, x: Row, kind: Kind)
    requires rows != []
    ensures multiset(Part(rows, x, kind))
            == (if KindOf(rows[0], x) == kind then multiset{rows[0]} else multiset{}) + multiset(Part(rows[1..], x, kind))
  {
  }

  lemma {:induction false} PartsAreAll(rows: seq<Row>, x: Row)
    ensures multiset(Part(rows, x, Newer)) + multiset(Part(rows, x, Same)) + multiset(Part(rows, x, Other)) == multiset(rows)
  {
    if rows != [] {
      assert rows == [rows[0]] + rows[1..];
      hide Part;
      PartCons(rows, x, Newer);
      PartCons(rows, x, Same);
      PartCons(rows, x, Other);
      PartsAreAll(rows[1..], x);
    }
  }

  lemma FrontedKeepsRows(rows: seq<Row>, x: Row)
    ensures multiset(Fronted(rows, x)) == multiset(rows)
  {
    hide Part;
    PartsAreAll(rows, x);
  }

  lemma FrontedIsArranged(order: seq<Row>, hist: seq<Row>, x: Row)
    requires Arranged(order, hist)
    ensures Arranged(Fronted(order, x), hist)
  {
    hide Part;
    FrontedKeepsRows(order, x);
    PartIs(order, x, Newer);
    PartIs(order, x, Same);
    PartIs(order, x, Other);
    PartDescends(order, x, Newer);
    PartDescends(order, x, Same);
    PartDescends(order, x, Other);
    var p, q, r := Part(order, x, Newer), Part(order, x, Same), Part(order, x, Other);
    forall i | 0 <= i < |p| ensures p[i].date > x.date { assert p[i] in p; }
    forall i | 0 <= i < |q| ensures q[i].date == x.date { assert q[i] in q; }
    forall i | 0 <= i < |r| ensures r[i].date <= x.date { assert r[i] in r; }
  }

  /** Two neighbours with one date may stand the other way round next time. */
  function Swapped(order: seq<Row>, i: nat): seq<Row>
    requires i + 1 < |order|
  {
    order[i := order[i + 1]][i + 1 := order[i]]
  }

  lemma SwappedIsArranged(order: seq<Row>, hist: seq<Row>, i: nat)
    requires Arranged(order, hist) && i + 1 < |order| && order[i].date == order[i + 1].date
    ensures Arranged(Swapped(order, i), hist)
  {
    var s := Swapped(order, i);
    assert order == order[..i] + [order[i], order[i + 1]] + order[i + 2..];
    assert s == order[..i] + [order[i + 1], order[i]] + order[i + 2..];
    assert multiset([order[i], order[i + 1]]) == multiset{order[i], order[i + 1]} == multiset([order[i + 1], order[i]]);
    forall j, k | 0 <= j < k < |s| ensures s[j].date >= s[k].date {
      assert s[j].date == order[j].date && s[k].date == order[k].date;
    }
  }

  /** One fetch of n rows into a list that is shorter: the missing documents, no marker. */
  lemma FetchFills(list: seq<Item>, order: seq<Row>, n: nat)
    requires |list| < n <= |order| && AllFit(order) && !Ends(list)
    ensures Read(list, n, order).list == list + Docs(order[..n])[|list|..]
  {
    hide Fits;
    assert AllFit(order[..n]) && order[..n][..n] == order[..n];
    FetchedIs(order[..n], n);
  }

  lemma SwappedFits(order: seq<Row>, i: nat)
    requires i + 1 < |order| && AllFit(order)
    ensures AllFit(Swapped(order, i))
  {
    var s := Swapped(order, i);
    forall k | 0 <= k < |s| ensures Fits(s[k]) {
      assert s[k] == order[k] || s[k] == order[i] || s[k] == order[i + 1];
    }
  }

  /** What two queries with the two orders leave in an empty list: one message twice. */
  lemma TieFillsList(order: seq<Row>, i: nat)
    requires i + 1 < |order| && AllFit(order)
    ensures Read([], i + 1, order).list == Docs(order[..i + 1])
    ensures Read(Docs(order[..i + 1]), i + 2, Swapped(order, i)).list == Docs(order[..i + 1] + [order[i]])
    ensures Read(Docs(order[..i + 1] + [order[i]]), i + 2, order).items == Docs(order[..i + 1] + [order[i]])
  {
    var first, twice := Docs(order[..i + 1]), Docs(order[..i + 1] + [order[i]]);
    assert !Ends([]) && !Ends(first) && !Ends(twice) && twice[..i + 2] == twice;
    assert [] + first[0..] == first;
    assert first + Docs(Swapped(order, i)[..i + 2])[i + 1..] == twice;
    SwappedFits(order, i);
    hide AllFit, Refilled, Limited, Fetched, Swapped, Ends;
    FetchFills([], order, i + 1);
    FetchFills(first, Swapped(order, i), i + 2);
  }

  /** The dates of an arrangement, place by place. */
  function Dates(order: seq<Row>): seq<nat> {
    if order == [] then [] else [order[0].date] + Dates(order[1..])
  }

  lemma {:induction false} DatesAt(order: seq<Row>)
    ensures |Dates(order)| == |order| && forall i :: 0 <= i < |order| ==> Dates(order)[i] == order[i].date
  {
    if order != [] {
      DatesAt(order[1..]);
    }
  }

  function Without<T>(s: seq<T>, i: nat): seq<T>
    requires i < |s|
  {
    s[..i] + s[i + 1..]
  }

  lemma DatesCons(order: seq<Row>)
    requires order != []
    ensures multiset(Dates(order)) == multiset{order[0].date} + multiset(Dates(order[1..]))
  {
  }

  lemma {:induction false} DatesWithout(order: seq<Row>, i: nat)
    requires i < |order|
    ensures multiset(Dates(order)) == multiset{order[i].date} + multiset(Dates(Without(order, i)))
  {
    hide Dates;
    DatesCons(order);
    if i == 0 {
      assert Without(order, 0) == order[1..];
    } else {
      DatesWithout(order[1..], i - 1);
      assert Without(order, i)[1..] == Without(order[1..], i - 1);
      DatesCons(Without(order, i));
    }
  }

  lemma WithoutIs<T>(s: seq<T>, i: nat)
    requires i < |s|
    ensures multiset(Without(s, i)) == multiset(s) - multiset{s[i]}
  {
    assert s == s[..i] + [s[i]] + s[i + 1..];
  }

  lemma {:induction false} SameDates(s: seq<Row>, t: seq<Row>)
    requires multiset(s) == multiset(t)
    ensures multiset(Dates(s)) == multiset(Dates(t))
    decreases |s|
  {
    SameMembers(s, t);
    if s != [] {
      hide Dates, Without;
      assert s[0] in s;
      var i :| 0 <= i < |t| && t[i] == s[0];
      DatesWithout(s, 0);
      DatesWithout(t, i);
      WithoutIs(s, 0);
      WithoutIs(t, i);
      SameMembers(Without(s, 0), Without(t, i));
      assert |Without(s, 0)| < |s| by {
        assert |multiset(s)| == |s| && |multiset(Without(s, 0))| == |Without(s, 0)|;
      }
      SameDates(Without(s, 0), Without(t, i));
    }
  }

  ghost predicate Falling(s: seq<nat>) {
    forall i, j :: 0 <= i < j < |s| ==> s[i] >= s[j]
  }

  lemma SameTop(s: seq<nat>, t: seq<nat>)
    requires multiset(s) == multiset(t) && Falling(s) && Falling(t) && s != []
    ensures t != [] && s[0] == t[0]
  {
    assert s[0] in multiset(s) && s[0] in t;
    assert t[0] in multiset(t) && t[0] in s;
  }

  lemma FallingTail(s: seq<nat>)
    requires Falling(s) && s != []
    ensures Falling(s[1..]) && multiset(s[1..]) == multiset(s) - multiset{s[0]}
  {
    assert s == [s[0]] + s[1..];
  }

  lemma {:induction false} SortedDates(s: seq<nat>, t: seq<nat>)
    requires multiset(s) == multiset(t) && Falling(s) && Falling(t)
    ensures s == t
  {
    hide Falling;
    assert |s| == |multiset(s)| == |multiset(t)| == |t|;
    if s != [] {
      SameTop(s, t);
      FallingTail(s);
      FallingTail(t);
      SortedDates(s[1..], t[1..]);
      assert s == [s[0]] + s[1..] && t == [t[0]] + t[1..];
    }
  }

  /** All arrangements have the same date in the same place. */
  lemma DateOfPlace(order: seq<Row>, ord: seq<Row>, hist: seq<Row>, i: nat)
    requires Arranged(order, hist) && Arranged(ord, hist) && i < |order|
    ensures |order| == |ord| && order[i].date == ord[i].date
  {
    SameMembers(order, hist);
    SameMembers(ord, hist);
    DatesAt(order);
    DatesAt(ord);
    SameDates(order, ord);
    SortedDates(Dates(order), Dates(ord));
  }

  lemma {:induction false} CopiesCount(s: seq<Row>, x: Row)
    requires forall i :: 0 <= i < |s| ==> s[i] == x
    ensures multiset(s)[x] == |s|
  {
    if s != [] {
      CopiesCount(s[1..], x);
      assert s == [s[0]] + s[1..];
    }
  }

  /** So many copies in a row, so many copies in all. */
  lemma CopiesWithin(order: seq<Row>, x: Row, k: nat, n: nat)
    requires k + n <= |order| && forall i :: k <= i < k + n ==> order[i] == x
    ensures multiset(order)[x] >= n
  {
    var front, copies, back := order[..k], order[k..k + n], order[k + n..];
    CopiesCount(copies, x);
    assert order == front + copies + back;
    assert multiset(order) == multiset(front) + multiset(copies) + multiset(back);
  }

  lemma PlaceIs(o: seq<Row>, order: seq<Row>, hist: seq<Row>, a: string, b: string, x: Row, j: nat)
    requires (forall r :: r in hist ==> Between(r, a, b)) && x in hist && Arranged(order, hist) && Arranged(o, hist)
    requires j < |o| && j < |order| && order[j].date == x.date
    requires o[j].sender == x.sender && o[j].content == x.content
    ensures o[j] == x
  {
    DateOfPlace(o, order, hist, j);
    SameMembers(o, hist);
    assert o[j] in o;
    hide Arranged;
    NameIsRow(hist, a, b, o[j], x);
  }

  lemma OneMoreCopy(o: seq<Row>, order: seq<Row>, hist: seq<Row>, a: string, b: string, x: Row, k: nat, n: nat)
    requires (forall r :: r in hist ==> Between(r, a, b)) && x in hist && Arranged(order, hist) && Arranged(o, hist)
    requires k + n <= |o| && k + n <= |order|
    requires forall j :: k <= j < k + n ==> order[j].date == x.date && o[j].sender == x.sender && o[j].content == x.content
    ensures multiset(hist)[x] >= n
  {
    forall j | k <= j < k + n ensures o[j] == x {
      PlaceIs(o, order, hist, a, b, x, j);
    }
    CopiesWithin(o, x, k, n);
  }

  /** All copies of a row stand from k to i, and it is listed once more: no order begins like that. */
  lemma OnceTooOften(order: seq<Row>, hist: seq<Row>, a: string, b: string, x: Row, k: nat, i: nat)
    requires (forall r :: r in hist ==> Between(r, a, b)) && x in hist && Arranged(order, hist)
    requires k <= i && i + 1 < |order| && order[i + 1].date == x.date && multiset(hist)[x] == i + 1 - k
    requires forall j :: k <= j <= i ==> order[j] == x
    ensures !Truthful(Docs(order[..i + 1] + [x]), hist)
  {
    hide Arranged;
    var rows := order[..i + 1] + [x];
    forall o: seq<Row> | Arranged(o, hist) && i + 2 <= |o| ensures !Agrees(Docs(rows), o[..i + 2]) {
      if Agrees(Docs(rows), o[..i + 2]) {
        forall j | k <= j < i + 2 ensures o[j].sender == x.sender && o[j].content == x.content {
          assert rows[j] == x && Docs(rows)[j] == Doc(x.sender, x.content, On(x.date)) && o[..i + 2][j] == o[j];
        }
        OneMoreCopy(o, order, hist, a, b, x, k, i + 2 - k);
        assert false;
      }
    }
  }

  lemma {:induction false} PartCounts(rows: seq<Row>, x: Row)
    ensures |Part(rows, x, Same)| == multiset(rows)[x]
  {
    if rows != [] {
      PartCounts(rows[1..], x);
      assert rows == [rows[0]] + rows[1..];
    }
  }

  lemma FirstOther(ord: seq<Row>, x: Row, y: Row)
    requires Descending(ord) && y in ord && x != y && x.date == y.date
    ensures Part(ord, x, Other) != [] && Part(ord, x, Other)[0].date == x.date
  {
    PartIs(ord, x, Other);
    PartDescends(ord, x, Other);
    hide Part;
    var r := Part(ord, x, Other);
    var m :| 0 <= m < |r| && r[m] == y;
    assert r[0] in r;
  }

  lemma AllTheSame(ord: seq<Row>, x: Row)
    ensures forall j :: 0 <= j < |Part(ord, x, Same)| ==> Part(ord, x, Same)[j] == x
  {
    PartIs(ord, x, Same);
    hide Part;
    var q := Part(ord, x, Same);
    forall j | 0 <= j < |q| ensures q[j] == x {
      assert q[j] in q;
    }
  }

  /** An order in which all copies of one row stand together, in front of a different row of the
      same date. */
  lemma FrontedPlaces(hist: seq<Row>, x: Row, y: Row) returns (order: seq<Row>, k: nat, i: nat)
    requires x in hist && y in hist && x != y && x.date == y.date
    ensures Arranged(order, hist) && k <= i && i + 1 < |order| && order[i + 1].date == x.date
    ensures multiset(hist)[x] == i + 1 - k && forall j :: k <= j <= i ==> order[j] == x
  {
    hide Part, Sorted;
    var ord := Sorted(hist);
    SortedIsArranged(hist);
    SameMembers(hist, ord);
    order := Fronted(ord, x);
    FrontedIsArranged(ord, hist, x);
    AllTheSame(ord, x);
    FirstOther(ord, x, y);
    PartCounts(ord, x);
    assert x in multiset(hist) && multiset(hist)[x] == |Part(ord, x, Same)|;
    k, i := |Part(ord, x, Newer)|, |Part(ord, x, Newer)| + |Part(ord, x, Same)| - 1;
    hide Arranged;
    ThreeParts(Part(ord, x, Newer), Part(ord, x, Same), Part(ord, x, Other), x);
  }

  lemma ThreeParts(p: seq<Row>, q: seq<Row>, r: seq<Row>, x: Row)
    requires r != [] && forall j :: 0 <= j < |q| ==> q[j] == x
    ensures forall j :: |p| <= j < |p| + |q| ==> (p + q + r)[j] == x
    ensures (p + q + r)[|p| + |q|] == r[0]
  {
  }

  /** Two different messages of one date: some run puts one of them into the list once too often. */
  lemma TieShows(w: World, a: string, b: string, x: Row, y: Row)
    requires var hist := History(w.rows, a, b);
             AllFit(hist) && x in hist && y in hist && x != y && x.date == y.date
    ensures !AlwaysRight(w, a, b)
  {
    hide History, BuildMsgKey, Arranged, Truthful, Read, AllFit, Swapped, Agrees;
    var hist, key := History(w.rows, a, b), BuildMsgKey(a, b);
    var order, k, i := FrontedPlaces(hist, x, y);
    HistoryIsOfPair(w.rows, a, b);
    SameArrangements(order, order, hist);
    SwappedIsArranged(order, hist, i);
    TieFillsList(order, i);
    OnceTooOften(order, hist, a, b, x, k, i);
    var t, q1, q2 := TimeOut(key), Ask(a, b, i + 1, order), Ask(a, b, i + 2, Swapped(order, i));
    var w1 := Do(w, t);
    var w2 := Do(w1, q1);
    var w3 := Do(w2, q2);
    assert ListOf(w1, key) == [] && ListOf(w2, key) == Docs(order[..i + 1]);
    assert ListOf(w3, key) == Docs(order[..i + 1] + [order[i]]);
    ConsRun(w2, q2, []);
    ConsRun(w1, q1, [q2] + []);
    ConsRun(w, t, [q1] + ([q2] + []));
    var run := [t] + ([q1] + ([q2] + []));
    assert Quiet(run, a, b) && Exec(w, run) == w3;
    assert !Right(Query(w3, a, b, i + 2, order), hist, i + 2);
  }

  /** A list that answers right is a part of the order. */
  lemma ListShows(w: World, a: string, b: string, ord: seq<Row>)
    requires History(w.rows, a, b) != [] && AlwaysRight(w, a, b)
    requires Arranged(ord, History(w.rows, a, b)) && Tieless(ord)
    ensures Faithful(ListOf(w, BuildMsgKey(a, b)), ord)
  {
    hide History, BuildMsgKey, Arranged, Truthful, Tieless, Fetched, Limited;
    var hist, list := History(w.rows, a, b), ListOf(w, BuildMsgKey(a, b));
    SameArrangements(ord, ord, hist);
    assert Quiet([], a, b) && Feasible(w, []) && Exec(w, []) == w;
    var n := if Ends(list) then |hist| else |list|;
    var q := Query(w, a, b, n, ord);
    assert Right(q, hist, n);
    TruthfulIsPrefix(q.items, hist, ord);
    assert ord[..|ord|] == ord;
    if !Ends(list) {
      assert list[..n] == list && (n == 0 ==> q.items == list);
    }
  }

  lemma TruthfulIsPrefix(items: seq<Item>, hist: seq<Row>, ord: seq<Row>)
    requires Truthful(items, hist) && Arranged(ord, hist) && Tieless(ord)
    ensures |items| <= |ord| && Agrees(items, ord[..|items|])
  {
    var order :| Arranged(order, hist) && |items| <= |order| && Agrees(items, order[..|items|]);
    SameArrangements(order, ord, hist);
    OnlyOrder(order, ord);
  }

  /** For every history and every list: all later answers are right if and only if every message fits the
      column buffers, no two different ones share a date, and the list is a prefix of the one order by
      date (or all of it, with the marker). */
  lemma RightIff(w: World, a: string, b: string)
    requires History(w.rows, a, b) != []
    ensures AlwaysRight(w, a, b)
            <==> && AllFit(History(w.rows, a, b)) && Tieless(History(w.rows, a, b))
                 && Faithful(ListOf(w, BuildMsgKey(a, b)), Sorted(History(w.rows, a, b)))
  {
    hide History, BuildMsgKey, AlwaysRight, Faithful, AllFit, Sorted;
    var hist := History(w.rows, a, b);
    var ord := Sorted(hist);
    SortedIsArranged(hist);
    if !AllFit(hist) {
      WideShows(w, a, b);
    } else if !Tieless(hist) {
      var i, j :| 0 <= i < j < |hist| && hist[i].date == hist[j].date && hist[i] != hist[j];
      TieShows(w, a, b, hist[i], hist[j]);
    } else {
      hide Arranged;
      OrderIsTieless(hist, ord);
      hide Tieless;
      if AlwaysRight(w, a, b) {
        ListShows(w, a, b, ord);
      } else if Faithful(ListOf(w, BuildMsgKey(a, b)), ord) {
        SoundIsAlwaysRight(w, a, b, ord);
      }
    }
  }

  lemma OrderIsTieless(hist: seq<Row>, ord: seq<Row>)
    requires Arranged(ord, hist) && Tieless(hist)
    ensures Tieless(ord)
  {
    TielessMembers(ord, hist);
  }

  // ---- what that means for a list that was only pushed to, and for one that ran out

  /** The list holds an undated document for every message, in the order of arrival. */
  ghost predicate Pushed(w: World, a: string, b: string) {
    Agrees(ListOf(w, BuildMsgKey(a, b)), History(w.rows, a, b)) && Undated(ListOf(w, BuildMsgKey(a, b)))
  }

  ghost predicate Undated(list: seq<Item>) {
    forall i :: 0 <= i < |list| ==> list[i].Doc? && list[i].stamp == NoDate
  }

  /** The messages, by sender and content, arrived in the order of their dates. */
  ghost predicate InOrder(hist: seq<Row>) {
    var ord := Sorted(hist);
    |ord| == |hist| && forall i :: 0 <= i < |hist| ==> hist[i].sender == ord[i].sender && hist[i].content == ord[i].content
  }

  lemma PushedFaithfulIff(list: seq<Item>, hist: seq<Row>)
    requires Agrees(list, hist) && Undated(list) && hist != []
    ensures Faithful(list, Sorted(hist)) <==> InOrder(hist)
  {
    SortedIsArranged(hist);
    var ord := Sorted(hist);
    SameArrangements(ord, ord, hist);
    assert !Ends(list) && ord[..|list|] == ord;
    assert Agrees(list, ord) <==> InOrder(hist) by {
      assert InOrder(hist) ==> Agrees(list, ord);
      if Agrees(list, ord) {
        forall i | 0 <= i < |hist| ensures hist[i].sender == ord[i].sender && hist[i].content == ord[i].content {
          assert list[i].sender == ord[i].sender && list[i].sender == hist[i].sender;
        }
      }
    }
  }

  lemma NoMessages(w: World, a: string, b: string)
    requires History(w.rows, a, b) == [] && |ListOf(w, BuildMsgKey(a, b))| == 0
    ensures AlwaysRight(w, a, b) && Tieless([]) && InOrder([]) && AllFit([])
  {
    hide History, BuildMsgKey, AlwaysRight;
    assert Sound(w, a, b, []);
    SoundIsAlwaysRight(w, a, b, []);
  }

  /** As long as nothing ran out: right exactly when the messages arrived in the order of their dates, no
      two different ones share a date, and all fit. */
  lemma PushedRightIff(w: World, a: string, b: string)
    requires Pushed(w, a, b)
    ensures var hist := History(w.rows, a, b); AlwaysRight(w, a, b) <==> InOrder(hist) && Tieless(hist) && AllFit(hist)
  {
    hide History, BuildMsgKey, AlwaysRight, Faithful, AllFit, Tieless, InOrder, Sorted;
    var hist := History(w.rows, a, b);
    if hist == [] {
      NoMessages(w, a, b);
    } else {
      RightIff(w, a, b);
      PushedFaithfulIff(ListOf(w, BuildMsgKey(a, b)), hist);
    }
  }

  /** Once the list has run out the order of arrival is forgotten: right exactly when no two different
      messages share a date and all fit. */
  lemma ExpiredRightIff(w: World, a: string, b: string)
    requires ListOf(w, BuildMsgKey(a, b)) == []
    ensures AlwaysRight(w, a, b) <==> Tieless(History(w.rows, a, b)) && AllFit(History(w.rows, a, b))
  {
    hide History, BuildMsgKey, AlwaysRight, AllFit, Tieless, Sorted;
    assert Faithful([], Sorted(History(w.rows, a, b)));
    if History(w.rows, a, b) == [] {
      NoMessages(w, a, b);
    } else {
      RightIff(w, a, b);
    }
  }

  // ---- messages that are stored once

  /** Messages that can be told apart by sender and content. */
  ghost predicate Distinguished(hist: seq<Row>) {
    forall i, j :: 0 <= i < j < |hist| ==> hist[i].sender != hist[j].sender || hist[i].content != hist[j].content
  }

  lemma AdvancingIsInOrder(hist: seq<Row>)
    requires Advancing(hist)
    ensures InOrder(hist) && Tieless(hist)
  {
    SortedIsArranged(hist);
    OneArrangement(Sorted(hist), hist);
  }

  /** Told apart, they arrived in the order of their dates exactly when the dates advance. */
  lemma InOrderIffAdvancing(hist: seq<Row>)
    requires Distinguished(hist)
    ensures InOrder(hist) && Tieless(hist) <==> Advancing(hist)
  {
    if Advancing(hist) {
      AdvancingIsInOrder(hist);
    } else if InOrder(hist) && Tieless(hist) {
      InOrderIsSorted(hist);
      SortedAdvances(hist);
    }
  }

  lemma SortedAdvances(hist: seq<Row>)
    requires Distinguished(hist) && Tieless(hist) && Descending(hist)
    ensures Advancing(hist)
  {
    forall i, j | 0 <= i < j < |hist| ensures hist[i].date > hist[j].date {
      assert hist[i] != hist[j];
    }
  }

  lemma InOrderIsSorted(hist: seq<Row>)
    requires Distinguished(hist) && InOrder(hist)
    ensures Descending(hist)
  {
    var ord := Sorted(hist);
    SortedIsArranged(hist);
    SameMembers(ord, hist);
    forall i | 0 <= i < |hist| ensures hist[i] == ord[i] {
      assert ord[i] in ord;
      var j :| 0 <= j < |hist| && hist[j] == ord[i];
      assert i == j;
    }
    assert hist == ord;
  }

  /** How often a message stands in the table. */
  function Copies(rows: seq<Row>, sender: string, receiver: string, content: string): nat {
    if rows == [] then 0
    else
      var n := |rows| - 1;
      Copies(rows[..n], sender, receiver, content)
      + if rows[n].sender == sender && rows[n].receiver == receiver && rows[n].content == content then 1 else 0
  }

  /** How often it is sent. */
  function Sent(run: seq<Action>, sender: string, receiver: string, content: string): nat {
    if run == [] then 0
    else
      (if run[0].Put? && run[0].sender == sender && run[0].receiver == receiver && run[0].content == content then 1 else 0)
      + Sent(run[1..], sender, receiver, content)
  }

  lemma {:induction false} StoredIffCopies(rows: seq<Row>, sender: string, receiver: string, content: string)
    ensures Stored(rows, sender, receiver, content) <==> Copies(rows, sender, receiver, content) > 0
  {
    if rows != [] {
      var n := |rows| - 1;
      StoredIffCopies(rows[..n], sender, receiver, content);
      if Stored(rows[..n], sender, receiver, content) {
        var i :| 0 <= i < n && rows[..n][i].sender == sender && rows[..n][i].receiver == receiver && rows[..n][i].content == content;
        assert rows[i] == rows[..n][i];
      }
    }
  }

  lemma StepCopies(w: World, p: Action, sender: string, receiver: string, content: string)
    ensures var before := Copies(w.rows, sender, receiver, content);
            Copies(Do(w, p).rows, sender, receiver, content)
            == if Sent([p], sender, receiver, content) == 0 || (before > 0 && Selectable(w.layout, sender, receiver, content))
               then before else before + 1
    ensures Do(w, p).layout == w.layout
  {
    hide Stored, Query, BuildMsgKey, Selectable;
    assert [p][1..] == [];
    if p.Put? {
      StoredIffCopies(w.rows, p.sender, p.receiver, p.content);
      var r := Row(p.sender, p.receiver, p.content, p.date);
      assert (w.rows + [r])[..|w.rows|] == w.rows;
    }
  }

  lemma {:induction false} ExecCopies(w: World, run: seq<Action>, sender: string, receiver: string, content: string)
    ensures var before, sent := Copies(w.rows, sender, receiver, content), Sent(run, sender, receiver, content);
            Copies(Exec(w, run).rows, sender, receiver, content)
            == if !Selectable(w.layout, sender, receiver, content) then before + sent
               else if before == 0 && sent > 0 then 1 else before
    decreases |run|
  {
    hide Selectable, Do;
    if run != [] {
      StepCopies(w, run[0], sender, receiver, content);
      assert [run[0]][1..] == [];
      ExecCopies(Do(w, run[0]), run[1..], sender, receiver, content);
    }
  }

  /** A message that the select before an insert can find is stored once, however often it is sent; one
      that it cannot find is stored as often as it is sent. */
  lemma StoredAsOften(layout: Layout, run: seq<Action>, sender: string, receiver: string, content: string)
    ensures var sent := Sent(run, sender, receiver, content);
            Copies(Exec(Empty(layout), run).rows, sender, receiver, content)
            == if Selectable(layout, sender, receiver, content) && sent > 0 then 1 else sent
  {
    ExecCopies(Empty(layout), run, sender, receiver, content);
  }

  lemma {:induction false} InHistory(rows: seq<Row>, a: string, b: string, r: Row)
    requires r in rows && Between(r, a, b)
    ensures r in History(rows, a, b)
  {
    var n := |rows| - 1;
    if rows[n] != r {
      InHistory(rows[..n], a, b, r);
    }
  }

  ghost predicate OneCopyEach(rows: seq<Row>, a: string, b: string) {
    forall sender, receiver, content ::
      SamePair(sender, receiver, a, b) ==> Copies(rows, sender, receiver, content) <= 1
  }

  ghost predicate NoneNamed(hist: seq<Row>, r: Row) {
    forall x :: x in hist ==> x.sender != r.sender || x.content != r.content
  }

  lemma NoneNamedIff(rows: seq<Row>, a: string, b: string, r: Row)
    requires Between(r, a, b)
    ensures NoneNamed(History(rows, a, b), r) <==> Copies(rows, r.sender, r.receiver, r.content) == 0
  {
    hide History, Copies;
    StoredIffCopies(rows, r.sender, r.receiver, r.content);
    HistoryIsOfPair(rows, a, b);
    if Stored(rows, r.sender, r.receiver, r.content) {
      var i :| 0 <= i < |rows| && rows[i].sender == r.sender && rows[i].receiver == r.receiver && rows[i].content == r.content;
      InHistory(rows, a, b, rows[i]);
    }
  }

  lemma DistinguishedCons(r: Row, hist: seq<Row>)
    ensures Distinguished([r] + hist) <==> Distinguished(hist) && NoneNamed(hist, r)
  {
    var all := [r] + hist;
    if Distinguished(all) {
      forall x | x in hist ensures x.sender != r.sender || x.content != r.content {
        var i :| 0 <= i < |hist| && hist[i] == x;
        assert all[0] == r && all[i + 1] == x;
      }
      forall i, j | 0 <= i < j < |hist| ensures hist[i].sender != hist[j].sender || hist[i].content != hist[j].content {
        assert all[i + 1] == hist[i] && all[j + 1] == hist[j];
      }
    }
  }

  lemma OneCopyCons(rows: seq<Row>, a: string, b: string)
    requires rows != []
    ensures var n := |rows| - 1; var r := rows[n];
            OneCopyEach(rows, a, b)
            <==> OneCopyEach(rows[..n], a, b) && (Between(r, a, b) ==> Copies(rows[..n], r.sender, r.receiver, r.content) == 0)
  {
    var n := |rows| - 1;
    var r, older := rows[n], rows[..n];
    if OneCopyEach(rows, a, b) {
      assert Between(r, a, b) ==> Copies(rows, r.sender, r.receiver, r.content) <= 1;
      forall s, t, c | SamePair(s, t, a, b) ensures Copies(older, s, t, c) <= 1 {
        assert Copies(rows, s, t, c) <= 1;
      }
    } else {
      var s, t, c :| SamePair(s, t, a, b) && Copies(rows, s, t, c) > 1;
      assert (s == r.sender && t == r.receiver && c == r.content) || Copies(older, s, t, c) > 1;
    }
  }

  lemma {:induction false} DistinguishedIff(rows: seq<Row>, a: string, b: string)
    ensures Distinguished(History(rows, a, b)) <==> OneCopyEach(rows, a, b)
  {
    if rows != [] {
      var n := |rows| - 1;
      DistinguishedIff(rows[..n], a, b);
      OneCopyCons(rows, a, b);
      if Between(rows[n], a, b) {
        DistinguishedCons(rows[n], History(rows[..n], a, b));
        NoneNamedIff(rows[..n], a, b, rows[n]);
      }
      hide Distinguished, OneCopyEach, NoneNamed;
      assert [] + History(rows[..n], a, b) == History(rows[..n], a, b);
    }
  }

  /** No message of the pair that is too wide to be found is sent twice. */
  ghost predicate WideOnce(layout: Layout, run: seq<Action>, a: string, b: string) {
    forall sender, receiver, content ::
      SamePair(sender, receiver, a, b) && !Selectable(layout, sender, receiver, content)
      ==> Sent(run, sender, receiver, content) <= 1
  }

  /** The messages of a pair can be told apart exactly when none that is too wide to be found was sent
      twice, whatever else happened. */
  lemma ReachableDiffers(layout: Layout, run: seq<Action>, a: string, b: string)
    ensures Distinguished(History(Exec(Empty(layout), run).rows, a, b)) <==> WideOnce(layout, run, a, b)
  {
    hide Copies, Sent, Exec, History, Selectable, Distinguished;
    var rows := Exec(Empty(layout), run).rows;
    DistinguishedIff(rows, a, b);
    forall sender, receiver, content | SamePair(sender, receiver, a, b)
      ensures Copies(rows, sender, receiver, content) <= 1
              <==> Selectable(layout, sender, receiver, content) || Sent(run, sender, receiver, content) <= 1
    {
      StoredAsOften(layout, run, sender, receiver, content);
    }
    if !WideOnce(layout, run, a, b) {
      var s, r, c :| SamePair(s, r, a, b) && !Selectable(layout, s, r, c) && Sent(run, s, r, c) > 1;
      assert Copies(rows, s, r, c) > 1;
    }
  }

  /** With ids that fit every column, what was sent twice and stored twice fits no query either. */
  lemma ShortIdsDiffer(layout: Layout, run: seq<Action>, a: string, b: string)
    requires |a| <= BUFFER_SIZE && |b| <= BUFFER_SIZE && AllFit(History(Exec(Empty(layout), run).rows, a, b))
    ensures WideOnce(layout, run, a, b)
  {
    hide Copies, Sent, Exec, History;
    var rows := Exec(Empty(layout), run).rows;
    forall sender, receiver, content |
      SamePair(sender, receiver, a, b) && !Selectable(layout, sender, receiver, content)
      ensures Sent(run, sender, receiver, content) <= 1
    {
      StoredAsOften(layout, run, sender, receiver, content);
      StoredIffCopies(rows, sender, receiver, content);
      if Sent(run, sender, receiver, content) > 1 {
        var i :| 0 <= i < |rows| && rows[i].sender == sender && rows[i].receiver == receiver && rows[i].content == content;
        InHistory(rows, a, b, rows[i]);
        assert false;
      }
    }
  }

  // ---- after messages only

  ghost predicate PutsAmong(users: set<string>, run: seq<Action>) {
    forall i :: 0 <= i < |run| ==> run[i].Put? && run[i].sender in users && run[i].receiver in users
  }

  lemma PutKeepsPushed(w: World, users: set<string>, p: Action, a: string, b: string)
    requires Distinct(users) && PutsAmong(users, [p]) && a in users && b in users && Pushed(w, a, b)
    ensures Pushed(Do(w, p), a, b)
  {
    hide History, BuildMsgKey;
    assert [p][0] == p;
    var r := Row(p.sender, p.receiver, p.content, p.date);
    var key, list, hist := BuildMsgKey(a, b), ListOf(w, BuildMsgKey(a, b)), History(w.rows, a, b);
    HistorySnoc(w.rows, r, a, b);
    KeyIsSymmetric(a, b);
    if Refuses(w, p.sender, p.receiver, p.content) {
    } else if Between(r, a, b) {
      assert BuildMsgKey(p.sender, p.receiver) == key;
      assert ListOf(Do(w, p), key) == [Doc(p.sender, p.content, NoDate)] + list;
      PushAgrees(list, hist, r);
    } else {
      assert !SamePair(p.sender, p.receiver, a, b) && BuildMsgKey(p.sender, p.receiver) != key;
      assert [] + hist == hist;
    }
  }

  lemma PushAgrees(list: seq<Item>, hist: seq<Row>, r: Row)
    requires Agrees(list, hist) && Undated(list)
    ensures var d := Doc(r.sender, r.content, NoDate);
            Agrees([d] + list, [r] + hist) && Undated([d] + list)
  {
  }

  lemma {:induction false} PutsArePushed(w: World, users: set<string>, run: seq<Action>, a: string, b: string)
    requires Distinct(users) && PutsAmong(users, run) && a in users && b in users && Pushed(w, a, b)
    ensures Pushed(Exec(w, run), a, b)
    decreases |run|
  {
    hide Pushed;
    if run != [] {
      PutKeepsPushed(w, users, run[0], a, b);
      PutsArePushed(Do(w, run[0]), users, run[1..], a, b);
    }
  }

  /** After any number of messages among any users, in any directions: all later answers for a pair are
      right if and only if its messages arrived in the order of their dates, no two different ones share a
      date, and all fit. */
  lemma TruthfulIffInOrder(layout: Layout, users: set<string>, run: seq<Action>, a: string, b: string)
    requires Distinct(users) && PutsAmong(users, run) && a in users && b in users
    ensures var hist := History(Exec(Empty(layout), run).rows, a, b);
            AlwaysRight(Exec(Empty(layout), run), a, b) <==> InOrder(hist) && Tieless(hist) && AllFit(hist)
  {
    hide AlwaysRight, History, Exec, InOrder, Tieless, AllFit;
    assert Pushed(Empty(layout), a, b) by {
      NoHistory(layout, a, b);
    }
    PutsArePushed(Empty(layout), users, run, a, b);
    PushedRightIff(Exec(Empty(layout), run), a, b);
  }

  /** Unless a message that is too wide for the select before an insert is sent twice, and always when both
      ids fit: right if and only if each message has a later date than the one before, and all fit. */
  lemma TruthfulIffDatesAdvance(layout: Layout, users: set<string>, run: seq<Action>, a: string, b: string)
    requires Distinct(users) && PutsAmong(users, run) && a in users && b in users
    requires WideOnce(layout, run, a, b) || (|a| <= BUFFER_SIZE && |b| <= BUFFER_SIZE)
    ensures var hist := History(Exec(Empty(layout), run).rows, a, b);
            AlwaysRight(Exec(Empty(layout), run), a, b) <==> Advancing(hist) && AllFit(hist)
  {
    hide AlwaysRight, History, Exec, Advancing, AllFit, Distinguished, InOrder, Tieless, WideOnce;
    var hist := History(Exec(Empty(layout), run).rows, a, b);
    TruthfulIffInOrder(layout, users, run, a, b);
    if AllFit(hist) {
      if |a| <= BUFFER_SIZE && |b| <= BUFFER_SIZE {
        ShortIdsDiffer(layout, run, a, b);
      }
      ReachableDiffers(layout, run, a, b);
      InOrderIffAdvancing(hist);
    }
  }

  lemma NoHistory(layout: Layout, a: string, b: string)
    ensures History(Empty(layout).rows, a, b) == []
  {
  }
}
