/** The users hash in Redis over the users table, with its negative entries, and the logic of
    registration and login: Code/database/Redis.cpp, the row printer of Code/database/Mysql.cpp and
    Code/business/User.cpp. Every call is one step. */
module UserCaches {
  import opened Words
  import SqlText

  datatype Option<T> = None | Some(value: T)

  datatype Column = Column(name: string, value: string)

  /** A row of the table; `more` are the columns behind the password, such as the date. */
  datatype User = User(id: string, password: string, more: seq<Column>)

  const NULL := "NULL"
  const FIELD := "password"

  // ---- reading a password out of a printed row

  function Cell(value: string): string {
    if value == "" then NULL else value
  }

  function ColumnText(c: Column): string {
    c.name + " " + Cell(c.value)
  }

  /** The columns behind the first. */
  function RestText(columns: seq<Column>): string {
    if columns == [] then "" else " " + ColumnText(columns[0]) + RestText(columns[1..])
  }

  function RowText(columns: seq<Column>): string {
    if columns == [] then "" else ColumnText(columns[0]) + RestText(columns[1..])
  }

  function ColumnsOf(u: User): seq<Column> {
    [Column("user_id", u.id), Column(FIELD, u.password)] + u.more
  }

  /** The word behind the first occurrence of a word. */
  function After(words: seq<string>, field: string): string {
    if words == [] then NULL
    else if words[0] == field then (if |words| > 1 then words[1] else NULL)
    else After(words[1..], field)
  }

  /** A row with a value wider than its buffer makes the fetch, and so the whole select, fail. */
  predicate Readable(u: User) {
    var columns := ColumnsOf(u);
    forall i :: 0 <= i < |columns| ==> |columns[i].value| <= SqlText.Width(i)
  }

  /** What Redis::Select makes of a row. */
  function Recovered(u: User): string {
    if Readable(u) then After(WordsOf(RowText(ColumnsOf(u))), FIELD) else NULL
  }

  /** The widths in numbers: 2020 bytes for the column behind the password, 50 for every other. */
  lemma ReadableIff(u: User)
    ensures Readable(u)
            <==> |u.id| <= 50 && |u.password| <= 50
                 && forall i :: 0 <= i < |u.more| ==> |u.more[i].value| <= if i == 0 then 2020 else 50
  {
    var columns := ColumnsOf(u);
    assert forall i :: 0 <= i < |u.more| ==> columns[i + 2] == u.more[i];
    if Readable(u) {
      assert |columns[0].value| <= SqlText.Width(0) && |columns[1].value| <= SqlText.Width(1);
      forall i | 0 <= i < |u.more| ensures |u.more[i].value| <= if i == 0 then 2020 else 50 {
        assert |columns[i + 2].value| <= SqlText.Width(i + 2);
      }
    } else {
      var i :| 0 <= i < |columns| && |columns[i].value| > SqlText.Width(i);
      assert i >= 2 ==> columns[i] == u.more[i - 2];
    }
  }

  /** The word behind the first occurrence, or "NULL". */
  lemma {:induction false} AfterIs(words: seq<string>, field: string, i: nat)
    ensures field !in words ==> After(words, field) == NULL
    ensures i < |words| && words[i] == field && field !in words[..i] ==>
              After(words, field) == if i + 1 < |words| then words[i + 1] else NULL
  {
    if words != [] && words[0] != field {
      AfterIs(words[1..], field, if i == 0 then 0 else i - 1);
      if 0 < i < |words| {
        assert words[..i] == [words[0]] + words[1..][..i - 1];
      }
    }
  }

  lemma {:induction false} RestSnoc(columns: seq<Column>, c: Column)
    ensures RestText(columns + [c]) == RestText(columns) + (" " + ColumnText(c))
  {
    var all := columns + [c];
    if columns == [] {
      assert all == [c] && all[1..] == [];
      assert RestText(all) == " " + ColumnText(c) + "";
      assert "" + (" " + ColumnText(c)) == " " + ColumnText(c) + "";
    } else {
      RestSnoc(columns[1..], c);
      assert all[1..] == columns[1..] + [c];
      var x, y, z := " " + ColumnText(columns[0]), RestText(columns[1..]), " " + ColumnText(c);
      assert x + (y + z) == x + y + z;
    }
  }

  lemma RowSnoc(columns: seq<Column>, c: Column)
    ensures RowText(columns + [c]) == if columns == [] then ColumnText(c) else RowText(columns) + (" " + ColumnText(c))
  {
    hide ColumnText;
    var all := columns + [c];
    if columns == [] {
      assert all == [c] && all[1..] == [] && ColumnText(c) + "" == ColumnText(c);
    } else {
      RestSnoc(columns[1..], c);
      assert all[1..] == columns[1..] + [c];
      var x, y, z := ColumnText(columns[0]), RestText(columns[1..]), " " + ColumnText(c);
      assert x + (y + z) == x + y + z;
    }
  }

  lemma RowStep(columns: seq<Column>, i: nat)
    requires i < |columns|
    ensures RowText(columns[..i + 1])
            == (if i == 0 then "" else RowText(columns[..i]) + " ")
               + (columns[i].name + " " + if columns[i].value == "" then "NULL" else columns[i].value)
  {
    hide RowText, RestText;
    RowSnoc(columns[..i], columns[i]);
    assert columns[..i + 1] == columns[..i] + [columns[i]];
    var x, y := RowText(columns[..i]), ColumnText(columns[i]);
    if i == 0 {
      assert "" + y == y;
    } else {
      assert x + " " + y == x + (" " + y);
    }
  }

  /** The row printer of ExecutePreparedSelect. */
  method PrintRow(columns: seq<Column>) returns (result: string)
    ensures result == RowText(columns)
  {
    result := "";
    var i := 0;
    assert result == RowText(columns[..0]);
    hide *;
    while i < |columns|
      invariant 0 <= i <= |columns| && result == RowText(columns[..i])
    {
      RowStep(columns, i);
      if i > 0 {
        result := result + " ";
      }
      var name, value := columns[i].name, if columns[i].value == "" then "NULL" else columns[i].value;
      result := result + (name + " " + value);
      i := i + 1;
    }
    assert columns[..i] == columns;
  }

  /** SsGet: the first word behind the field. */
  method SsGet(fieldVals: string, field: string) returns (s: string)
    ensures s == After(WordsOf(fieldVals), field)
  {
    var flag := false;
    s := "";
    var at := 0;
    while true
      invariant at <= |fieldVals|
      invariant var rest := WordsOf(fieldVals[at..]);
                After(WordsOf(fieldVals), field) == if !flag then After(rest, field) else if rest != [] then rest[0] else NULL
      decreases |fieldVals| - at
    {
      var ok, word, next := Extract(fieldVals, at, s);
      if !ok {
        return NULL;
      }
      assert ([word] + WordsOf(fieldVals[next..]))[1..] == WordsOf(fieldVals[next..]);
      s, at := word, next;
      if flag {
        return s;
      }
      if s == field {
        flag := true;
      }
    }
  }

  lemma {:induction false} AfterIn(words: seq<string>, rest: seq<string>, field: string)
    requires words != [] && field in words[..|words| - 1]
    ensures After(words + rest, field) == After(words, field)
  {
    assert (words + rest)[1..] == words[1..] + rest;
    if words[0] != field {
      assert words[..|words| - 1] == [words[0]] + words[1..][..|words[1..]| - 1];
      AfterIn(words[1..], rest, field);
    }
  }

  lemma {:induction false} AfterBehind(words: seq<string>, rest: seq<string>, field: string)
    requires field !in words
    ensures After(words + rest, field) == After(rest, field)
  {
    if words == [] {
      assert words + rest == rest;
    } else {
      assert (words + rest)[1..] == words[1..] + rest;
      AfterBehind(words[1..], rest, field);
    }
  }

  lemma WordsBeforeRest(front: string, columns: seq<Column>) returns (more: seq<string>)
    ensures WordsOf(front + RestText(columns)) == WordsOf(front) + more
    ensures forall i :: 0 <= i < |more| ==> Clean(more[i])
  {
    if columns == [] {
      more := [];
      assert front + "" == front;
    } else {
      var t := ColumnText(columns[0]) + RestText(columns[1..]);
      assert RestText(columns) == " " + t;
      assert front + (" " + t) == front + " " + t;
      WordsAtSpace(front, t);
      WordsAreClean(t);
      more := WordsOf(t);
    }
  }

  lemma WordsOfColumn(name: string, value: string)
    requires Clean(name)
    ensures WordsOf(ColumnText(Column(name, value))) == [name] + WordsOf(Cell(value))
  {
    CleanIffOneWord(name);
    WordsAtSpace(name, Cell(value));
  }

  lemma TextOfUser(u: User)
    ensures RowText(ColumnsOf(u))
            == ColumnText(Column("user_id", u.id)) + " " + (ColumnText(Column(FIELD, u.password)) + RestText(u.more))
  {
    var cs := ColumnsOf(u);
    assert cs[1..][1..] == u.more;
    var x, y, z := ColumnText(cs[0]), ColumnText(cs[1]), RestText(u.more);
    assert RestText(cs[1..]) == " " + y + z;
    assert x + (" " + y + z) == x + " " + (y + z);
  }

  /** The words of a printed user. */
  lemma WordsOfUser(u: User) returns (more: seq<string>)
    ensures WordsOf(RowText(ColumnsOf(u)))
            == ["user_id"] + WordsOf(Cell(u.id)) + ([FIELD] + WordsOf(Cell(u.password)) + more)
    ensures forall i :: 0 <= i < |more| ==> Clean(more[i])
  {
    hide RowText, RestText, ColumnText, WordsOf;
    var x, y := ColumnText(Column("user_id", u.id)), ColumnText(Column(FIELD, u.password));
    TextOfUser(u);
    WordsAtSpace(x, y + RestText(u.more));
    more := WordsBeforeRest(y, u.more);
    WordsOfColumn("user_id", u.id);
    WordsOfColumn(FIELD, u.password);
  }

  /** What comes back is the first word behind the field. */
  lemma FirstComesBack(u: User) returns (tail: seq<string>)
    requires Readable(u) && FIELD !in WordsOf(Cell(u.id))
    ensures Recovered(u) == if WordsOf(Cell(u.password)) + tail == [] then NULL else (WordsOf(Cell(u.password)) + tail)[0]
    ensures forall i :: 0 <= i < |tail| ==> Clean(tail[i])
  {
    hide Readable, WordsOf, RowText, Cell, Clean;
    tail := WordsOfUser(u);
    var ids, pws := WordsOf(Cell(u.id)), WordsOf(Cell(u.password));
    AssociateWords([FIELD], pws, tail);
    assert FIELD !in ["user_id"] + ids;
    AfterBehind(["user_id"] + ids, [FIELD] + (pws + tail), FIELD);
    assert ([FIELD] + (pws + tail))[1..] == pws + tail;
  }

  lemma AssociateWords(a: seq<string>, b: seq<string>, c: seq<string>)
    ensures a + b + c == a + (b + c)
  {
  }

  /** An id that does not hold the word "password": the password comes back exactly when it is one
      word; in general its first word does. */
  lemma RecoversIff(u: User)
    requires Readable(u) && FIELD !in WordsOf(Cell(u.id))
    ensures Recovered(u) == u.password <==> Clean(u.password)
    ensures WordsOf(u.password) != [] ==> Recovered(u) == WordsOf(u.password)[0]
  {
    NullIsClean();
    CellIs(u.password);
    hide Readable, WordsOf, Recovered, Clean, Cell;
    var tail := FirstComesBack(u);
    WordsAreClean(Cell(u.password));
    CleanIffOneWord(u.password);
    CleanIffOneWord(NULL);
    RecoveredIsClean(u);
  }

  lemma CellIs(value: string)
    ensures if value == "" then Cell(value) == NULL && !Clean(value) && WordsOf(value) == [] else Cell(value) == value
  {
  }

  lemma NullIsClean()
    ensures Clean(NULL)
  {
  }

  /** An id that holds it: what comes back does not depend on the password at all. */
  lemma IdHidesPassword(u: User)
    requires Readable(u) && FIELD in WordsOf(Cell(u.id))
    ensures Recovered(u) == After(WordsOf(Cell(u.id)) + [FIELD], FIELD)
  {
    hide Readable;
    var more := WordsOfUser(u);
    var ids, pws := WordsOf(Cell(u.id)), WordsOf(Cell(u.password));
    Regroup(["user_id"], ids, [FIELD], pws, more);
    assert (ids + [FIELD])[..|ids + [FIELD]| - 1] == ids;
    AfterIn(ids + [FIELD], pws + more, FIELD);
    AfterBehind(["user_id"], ids + [FIELD] + (pws + more), FIELD);
  }

  lemma Regroup(a: seq<string>, b: seq<string>, c: seq<string>, d: seq<string>, e: seq<string>)
    ensures a + b + (c + d + e) == a + (b + c + (d + e))
  {
  }

  // ---- the store

  /** The table and the hash. `keyed`: the table lets no two rows have one user_id. */
  datatype World = World(keyed: bool, rows: seq<User>, cache: map<string, string>)

  function Empty(keyed: bool): World {
    World(keyed, [], map[])
  }

  /** SELECT by user_id. */
  function Find(rows: seq<User>, id: string): Option<User> {
    if rows == [] then None
    else if rows[0].id == id then Some(rows[0])
    else Find(rows[1..], id)
  }

  /** SELECT by user_id and password. */
  function FindBoth(rows: seq<User>, id: string, pw: string): Option<User> {
    if rows == [] then None
    else if rows[0].id == id && rows[0].password == pw then Some(rows[0])
    else FindBoth(rows[1..], id, pw)
  }

  /** Mysql::Select: the first row, when its fetch succeeds. */
  predicate Selects(row: Option<User>) {
    row.Some? && Readable(row.value)
  }

  /** UPDATE ... SET password = pw WHERE user_id = id. */
  function SetPassword(rows: seq<User>, id: string, pw: string): seq<User> {
    if rows == [] then []
    else [if rows[0].id == id then rows[0].(password := pw) else rows[0]] + SetPassword(rows[1..], id, pw)
  }

  /** DELETE ... WHERE user_id = id. */
  function Remove(rows: seq<User>, id: string): seq<User> {
    if rows == [] then []
    else (if rows[0].id == id then [] else [rows[0]]) + Remove(rows[1..], id)
  }

  /** The check Mysql::Insert makes itself compares all given fields. */
  predicate Refuses(w: World, u: User) {
    Selects(FindBoth(w.rows, u.id, u.password)) || (w.keyed && Find(w.rows, u.id).Some?)
  }

  function AfterInsert(w: World, u: User): World {
    if Refuses(w, u) then w else w.(rows := w.rows + [u], cache := w.cache[u.id := u.password])
  }

  function AfterUpdate(w: World, id: string, pw: string): World {
    if !Selects(Find(w.rows, id)) then w
    else w.(rows := SetPassword(w.rows, id, pw), cache := w.cache[id := pw])
  }

  function AfterDelete(w: World, id: string): World {
    if !Selects(Find(w.rows, id)) then w else w.(rows := Remove(w.rows, id), cache := w.cache - {id})
  }

  /** The hash entry that Select answers from: an old one, or a new one made from the table. */
  function Entry(w: World, id: string): string {
    if id in w.cache then w.cache[id]
    else match Find(w.rows, id) case None => NULL case Some(u) => Recovered(u)
  }

  function AfterSelect(w: World, id: string): World {
    w.(cache := w.cache[id := Entry(w, id)])
  }

  predicate LegalPassword(pw: string) {
    6 <= |pw| <= 20
  }

  /** The word that the login loop stops at. */
  function LoginWord(words: seq<string>, last: string, current: string): string {
    if words == [] then current
    else if last == FIELD then words[0]
    else LoginWord(words[1..], words[0], words[0])
  }

  predicate Accepts(w: World, id: string, given: string) {
    var text := "password " + Entry(w, id);
    Entry(w, id) != NULL && LoginWord(WordsOf(text), "", text) == given
  }

  class Redis {
    const keyed: bool
    var rows: seq<User>
    var cache: map<string, string>

    ghost function View(): World
      reads this
    {
      World(keyed, rows, cache)
    }

    constructor (keyed: bool)
      ensures View() == Empty(keyed)
    {
      this.keyed, rows, cache := keyed, [], map[];
    }

    method Insert(u: User) returns (done: bool)
      modifies this
      ensures View() == AfterInsert(old(View()), u) && done == !Refuses(old(View()), u)
      ensures var row := FindBoth(old(rows), u.id, u.password);
              done <==> (row.Some? ==> !Readable(row.value)) && (keyed ==> Find(old(rows), u.id).None?)
      ensures if done then rows == old(rows) + [u] && cache == old(cache)[u.id := u.password] else View() == old(View())
    {
      if Selects(FindBoth(rows, u.id, u.password)) || (keyed && Find(rows, u.id).Some?) {
        return false;
      }
      rows := rows + [u];
      cache := cache[u.id := u.password];
      done := true;
    }

    /** `msg` is "password " and the entry. */
    method Select(id: string) returns (found: bool, msg: string)
      modifies this`cache
      ensures View() == AfterSelect(old(View()), id)
      ensures id in cache && found == (cache[id] != "NULL") && (found ==> msg == "password " + cache[id])
      ensures cache == old(cache)[id := cache[id]] && (id in old(cache) ==> cache == old(cache))
      ensures found == (Entry(old(View()), id) != NULL) && msg == if found then "password " + Entry(old(View()), id) else ""
    {
      if id !in cache {
        var row := Find(rows, id);
        if row.Some? && Readable(row.value) {
          var mysqlResult := PrintRow(ColumnsOf(row.value));
          var password := SsGet(mysqlResult, FIELD);
          cache := cache[id := password];
        } else {
          cache := cache[id := NULL];
        }
      }
      assert cache[id := cache[id]] == cache;
      if cache[id] == NULL {
        return false, "";
      }
      return true, "password " + cache[id];
    }

    method Update(id: string, password: string) returns (done: bool)
      modifies this
      ensures View() == AfterUpdate(old(View()), id, password) && done == Selects(Find(old(rows), id))
      ensures done <==> Find(old(rows), id).Some? && Readable(Find(old(rows), id).value)
      ensures if done then cache == old(cache)[id := password] else View() == old(View())
    {
      if !Selects(Find(rows, id)) {
        return false;
      }
      rows := SetPassword(rows, id, password);
      cache := cache[id := password];
      done := true;
    }

    method Delete(id: string) returns (done: bool)
      modifies this
      ensures View() == AfterDelete(old(View()), id) && done == Selects(Find(old(rows), id))
      ensures done <==> Find(old(rows), id).Some? && Readable(Find(old(rows), id).value)
      ensures if done then cache == old(cache) - {id} else View() == old(View())
    {
      if !Selects(Find(rows, id)) {
        return false;
      }
      rows := Remove(rows, id);
      cache := cache - {id};
      done := true;
    }

    /** The time to live of the hash ran out: all entries go. */
    method Expire()
      modifies this`cache
      ensures View() == old(View()).(cache := map[])
    {
      cache := map[];
    }

    /** HandleRegister and HandleProfile up to the store. */
    method HandleRegister(u: User) returns (done: bool)
      modifies this
      ensures View() == Do(old(View()), Register(u))
      ensures View() == if 6 <= |u.password| <= 20 then AfterInsert(old(View()), u) else old(View())
      ensures done == (6 <= |u.password| <= 20 && !Refuses(old(View()), u))
    {
      done := false;
      if LegalPassword(u.password) {
        done := Insert(u);
      }
    }

    method HandleProfile(id: string, password: string) returns (done: bool)
      modifies this
      ensures View() == Do(old(View()), Profile(id, password))
      ensures View() == if 6 <= |password| <= 20 then AfterUpdate(old(View()), id, password) else old(View())
      ensures done == (6 <= |password| <= 20 && Selects(Find(old(rows), id)))
    {
      done := false;
      if LegalPassword(password) {
        done := Update(id, password);
      }
    }

    /** HandleLogin up to the comparison. */
    method HandleLogin(id: string, password: string) returns (accepted: bool)
      modifies this`cache
      ensures View() == AfterSelect(old(View()), id) && accepted == Accepts(old(View()), id, password)
    {
      var found, text := Select(id);
      var msg, last, at := text, "", 0;
      var more := true;
      assert text[0..] == text;
      while more
        invariant at <= |text| && View() == AfterSelect(old(View()), id)
        invariant LoginWord(WordsOf(text), "", text) == if more then LoginWord(WordsOf(text[at..]), last, msg) else msg
        decreases |text| - at, more
      {
        var ok, word, next := Extract(text, at, msg);
        if ok {
          assert ([word] + WordsOf(text[next..]))[1..] == WordsOf(text[next..]);
          msg, at := word, next;
          if last == FIELD {
            more := false;
          } else {
            last := word;
          }
        } else {
          more := false;
        }
      }
      accepted := found && msg == password;
    }
  }

  // ---- runs

  datatype Action =
    | Register(user: User)
    | Profile(id: string, password: string)
    | Delete(id: string)
    | Login(id: string)
    | TimeOut

  function Do(w: World, a: Action): World {
    match a
    case Register(u) => if LegalPassword(u.password) then AfterInsert(w, u) else w
    case Profile(id, pw) => if LegalPassword(pw) then AfterUpdate(w, id, pw) else w
    case Delete(id) => AfterDelete(w, id)
    case Login(id) => AfterSelect(w, id)
    case TimeOut => w.(cache := map[])
  }

  function Exec(w: World, run: seq<Action>): World
    decreases |run|
  {
    if run == [] then w else Exec(Do(w, run[0]), run[1..])
  }

  // ---- facts about the table

  lemma {:induction false} FindIn(rows: seq<User>, id: string)
    ensures Find(rows, id).Some? ==> Find(rows, id).value in rows && Find(rows, id).value.id == id
    ensures Find(rows, id).None? ==> forall i :: 0 <= i < |rows| ==> rows[i].id != id
  {
    if rows != [] && rows[0].id != id {
      FindIn(rows[1..], id);
    }
  }

  lemma {:induction false} FindSnoc(rows: seq<User>, u: User, id: string)
    ensures Find(rows + [u], id) == if Find(rows, id).None? && u.id == id then Some(u) else Find(rows, id)
  {
    if rows == [] {
      assert rows + [u] == [u];
    } else {
      assert (rows + [u])[1..] == rows[1..] + [u];
      FindSnoc(rows[1..], u, id);
    }
  }

  lemma {:induction false} FindSet(rows: seq<User>, id: string, pw: string, other: string)
    ensures Find(SetPassword(rows, id, pw), other)
            == match Find(rows, other) case None => None case Some(u) => Some(if other == id then u.(password := pw) else u)
  {
    if rows != [] {
      FindSet(rows[1..], id, pw, other);
      assert SetPassword(rows, id, pw)[1..] == SetPassword(rows[1..], id, pw);
    }
  }

  lemma {:induction false} FindRemoved(rows: seq<User>, id: string, other: string)
    ensures Find(Remove(rows, id), other) == if other == id then None else Find(rows, other)
  {
    if rows != [] {
      FindRemoved(rows[1..], id, other);
      if rows[0].id != id {
        assert Remove(rows, id)[1..] == Remove(rows[1..], id);
      } else {
        assert Remove(rows, id) == Remove(rows[1..], id);
      }
    }
  }

  /** What one step does to the row that SELECT finds for an id. */
  function FoundAfter(w: World, a: Action, id: string): Option<User> {
    var row := Find(w.rows, id);
    match a
    case Register(u) =>
      if LegalPassword(u.password) && !Refuses(w, u) && row.None? && u.id == id then Some(u) else row
    case Profile(i, pw) =>
      if LegalPassword(pw) && i == id && Selects(row) then Some(row.value.(password := pw)) else row
    case Delete(i) => if i == id && Selects(row) then None else row
    case _ => row
  }

  lemma StepFinds(w: World, a: Action, id: string)
    ensures Find(Do(w, a).rows, id) == FoundAfter(w, a, id)
  {
    hide Find, FindBoth, SetPassword, Remove, Readable;
    match a
    case Register(u) => FindSnoc(w.rows, u, id);
    case Profile(i, pw) => FindSet(w.rows, i, pw, id);
    case Delete(i) => FindRemoved(w.rows, i, id);
    case _ =>
  }

  // ---- which words open the door

  lemma LoginWordOfEntry(entry: string)
    ensures var text := "password " + entry;
            LoginWord(WordsOf(text), "", text) == if WordsOf(entry) == [] then FIELD else WordsOf(entry)[0]
  {
    CleanIffOneWord(FIELD);
    assert "password " + entry == FIELD + " " + entry;
    WordsAtSpace(FIELD, entry);
    var ws := [FIELD] + WordsOf(entry);
    assert ws[1..] == WordsOf(entry);
  }

  /** In every state login accepts one word only: the first of the entry that Select answers from, or
      "password" when the entry has none. */
  lemma AcceptsFirstWord(w: World, id: string, given: string)
    ensures Accepts(w, id, given)
            <==> Entry(w, id) != NULL && given == if WordsOf(Entry(w, id)) == [] then FIELD else WordsOf(Entry(w, id))[0]
  {
    LoginWordOfEntry(Entry(w, id));
  }

  /** So a password with white space in it, or an empty one, never gets in, in any state. */
  lemma AcceptedIsClean(w: World, id: string, given: string)
    requires Accepts(w, id, given)
    ensures Clean(given)
  {
    FieldIsClean();
    hide *;
    AcceptsFirstWord(w, id, given);
    WordsAreClean(Entry(w, id));
  }

  lemma FieldIsClean()
    ensures Clean(FIELD)
  {
  }

  lemma {:induction false} AfterIsClean(words: seq<string>, field: string)
    requires forall i :: 0 <= i < |words| ==> Clean(words[i])
    ensures Clean(After(words, field))
  {
    if words != [] && words[0] != field {
      AfterIsClean(words[1..], field);
    }
  }

  lemma RecoveredIsClean(u: User)
    ensures Clean(Recovered(u))
  {
    var text := RowText(ColumnsOf(u));
    WordsAreClean(text);
    AfterIsClean(WordsOf(text), FIELD);
  }

  // ---- every run of a table with a key

  /** An entry is the stored password as it was given, or what was read back from the row, or "NULL"
      for an absent user. */
  ghost predicate EntryOf(row: Option<User>, entry: string) {
    match row
    case None => entry == NULL
    case Some(u) => entry == u.password || entry == Recovered(u)
  }

  ghost predicate KeyedInv(w: World) {
    && w.keyed
    && (forall id :: Find(w.rows, id).Some? ==> LegalPassword(Find(w.rows, id).value.password))
    && (forall id :: id in w.cache ==> EntryOf(Find(w.rows, id), w.cache[id]))
  }

  lemma StepKeepsKeyedInv(w: World, a: Action)
    requires KeyedInv(w)
    ensures KeyedInv(Do(w, a))
  {
    hide Find, FindBoth, SetPassword, Remove, Readable, Recovered;
    var v := Do(w, a);
    forall id ensures Find(v.rows, id) == FoundAfter(w, a, id) {
      StepFinds(w, a, id);
    }
  }

  lemma {:induction false} ExecKeepsKeyedInv(w: World, run: seq<Action>)
    requires KeyedInv(w)
    ensures KeyedInv(Exec(w, run))
    decreases |run|
  {
    if run != [] {
      StepKeepsKeyedInv(w, run[0]);
      ExecKeepsKeyedInv(Do(w, run[0]), run[1..]);
    }
  }

  lemma EntryAfter(run: seq<Action>, id: string)
    ensures var w := Exec(Empty(true), run);
            && EntryOf(Find(w.rows, id), Entry(w, id))
            && (Find(w.rows, id).Some? ==> LegalPassword(Find(w.rows, id).value.password) && Find(w.rows, id).value.id == id)
  {
    hide Recovered, Readable;
    ExecKeepsKeyedInv(Empty(true), run);
    FindIn(Exec(Empty(true), run).rows, id);
  }

  /** An absent user is refused, whatever is given and whatever happened before. */
  lemma AbsentIsRefused(run: seq<Action>, id: string, given: string)
    requires Find(Exec(Empty(true), run).rows, id).None?
    ensures !Accepts(Exec(Empty(true), run), id, given)
  {
    EntryAfter(run, id);
  }

  /** The step puts the password of this id into the hash as it was given. */
  ghost predicate Stores(w: World, a: Action, id: string) {
    match a
    case Register(u) => u.id == id && LegalPassword(u.password) && !Refuses(w, u)
    case Profile(i, pw) => i == id && LegalPassword(pw) && Selects(Find(w.rows, id))
    case _ => false
  }

  /** The step takes the entry of this id out of the hash. */
  ghost predicate Drops(w: World, a: Action, id: string) {
    match a
    case Delete(i) => i == id && Selects(Find(w.rows, id))
    case TimeOut => true
    case _ => false
  }

  /** Since the entry of this id was last taken out, a registration or a change has put one in. */
  ghost predicate AsGiven(run: seq<Action>, id: string) {
    if run == [] then false
    else
      var before, a := run[..|run| - 1], run[|run| - 1];
      var w := Exec(Empty(true), before);
      Stores(w, a, id) || (AsGiven(before, id) && !Drops(w, a, id))
  }

  lemma {:induction false} ExecSnoc(w: World, run: seq<Action>)
    requires run != []
    ensures Exec(w, run) == Do(Exec(w, run[..|run| - 1]), run[|run| - 1])
    decreases |run|
  {
    if |run| > 1 {
      ExecSnoc(Do(w, run[0]), run[1..]);
      assert run[1..][..|run| - 2] == run[..|run| - 1][1..];
    }
  }

  /** What Select answers from: the password as it was given, or as it is read back. */
  function EntryFor(row: Option<User>, asGiven: bool): string {
    match row
    case None => NULL
    case Some(u) => if asGiven then u.password else Recovered(u)
  }

  /** What the hash holds for one id. */
  ghost predicate Holds(w: World, id: string, asGiven: bool) {
    if id in w.cache then w.cache[id] == EntryFor(Find(w.rows, id), asGiven) else !asGiven
  }

  lemma StepHolds(w: World, a: Action, id: string, asGiven: bool)
    requires w.keyed && Holds(w, id, asGiven)
    ensures Holds(Do(w, a), id, Stores(w, a, id) || (asGiven && !Drops(w, a, id)))
  {
    hide Find, FindBoth, SetPassword, Remove, Readable, Recovered, LegalPassword;
    StepFinds(w, a, id);
  }

  /** The entry of every id after every run, as a function of the run. */
  lemma {:induction false} EntryIs(run: seq<Action>, id: string)
    ensures var w := Exec(Empty(true), run);
            w.keyed && Holds(w, id, AsGiven(run, id)) && Entry(w, id) == EntryFor(Find(w.rows, id), AsGiven(run, id))
    decreases |run|
  {
    if run != [] {
      hide Find, Stores, Drops, Do, Exec, Recovered;
      var before, a := run[..|run| - 1], run[|run| - 1];
      EntryIs(before, id);
      ExecSnoc(Empty(true), run);
      StepHolds(Exec(Empty(true), before), a, id, AsGiven(before, id));
      KeyStays(Exec(Empty(true), before), a);
    }
  }

  lemma KeyStays(w: World, a: Action)
    ensures Do(w, a).keyed == w.keyed
  {
  }

  /** What gets in after every run, for every id and every text given: one word, fixed by the stored
      password and by whether it is in the hash as it was given. */
  lemma AcceptedWord(run: seq<Action>, id: string, u: User, given: string)
    requires Find(Exec(Empty(true), run).rows, id) == Some(u)
    ensures Accepts(Exec(Empty(true), run), id, given)
            <==> if AsGiven(run, id) then given == if WordsOf(u.password) == [] then FIELD else WordsOf(u.password)[0]
                 else Recovered(u) != NULL && given == Recovered(u)
  {
    hide Recovered, Readable, Exec, Entry, Accepts, AsGiven, WordsOf, Find;
    EntryAfter(run, id);
    EntryIs(run, id);
    AcceptsFirstWord(Exec(Empty(true), run), id, given);
    RecoveredIsClean(u);
    CleanIffOneWord(Recovered(u));
  }

  /** The stored password survives being printed and read back. */
  ghost predicate ComesBack(u: User) {
    Readable(u)
    && if FIELD in WordsOf(Cell(u.id)) then u.password == After(WordsOf(Cell(u.id)) + [FIELD], FIELD)
       else Clean(u.password)
  }

  lemma ComesBackIff(u: User)
    requires LegalPassword(u.password)
    ensures ComesBack(u) <==> Recovered(u) == u.password
  {
    hide WordsOf, Cell;
    assert !Readable(u) ==> Recovered(u) == NULL;
    hide Readable, Recovered;
    RecoveredIsClean(u);
    if Readable(u) {
      if FIELD in WordsOf(Cell(u.id)) {
        IdHidesPassword(u);
      } else {
        RecoversIff(u);
      }
    }
  }

  /** After every run, for every stored user: the stored password gets in exactly when it is one word,
      as long as the hash has it as it was given, and exactly when it comes back from its row
      otherwise. */
  lemma OwnPasswordIff(run: seq<Action>, id: string, u: User)
    requires Find(Exec(Empty(true), run).rows, id) == Some(u)
    ensures Accepts(Exec(Empty(true), run), id, u.password) <==> if AsGiven(run, id) then Clean(u.password) else ComesBack(u)
  {
    hide Recovered, Exec, Accepts, AsGiven, WordsOf, Find, ComesBack;
    EntryAfter(run, id);
    AcceptedWord(run, id, u, u.password);
    ComesBackIff(u);
    CleanIffOneWord(u.password);
    WordsAreClean(u.password);
  }

  /** With a readable row and an id that does not hold the word "password", what gets in is the first
      word of the stored password, whole password or not. */
  lemma FirstWordGetsIn(run: seq<Action>, id: string, u: User, given: string)
    requires Find(Exec(Empty(true), run).rows, id) == Some(u) && Readable(u) && FIELD !in WordsOf(Cell(id))
    requires WordsOf(u.password) != [] && WordsOf(u.password)[0] != NULL
    ensures Accepts(Exec(Empty(true), run), id, given) <==> given == WordsOf(u.password)[0]
  {
    hide Recovered, Readable, Exec, Entry, Accepts;
    EntryAfter(run, id);
    RecoversIff(u);
    AcceptsFirstWord(Exec(Empty(true), run), id, given);
    WordsAreClean(u.password);
    CleanIffOneWord(WordsOf(u.password)[0]);
    if u.password == NULL {
      CleanIffOneWord(NULL);
    }
  }

  /** Login accepts the stored password and nothing else under the same condition. */
  lemma OnlyOwnPasswordIff(run: seq<Action>, id: string, u: User)
    requires Find(Exec(Empty(true), run).rows, id) == Some(u)
    ensures (forall given :: Accepts(Exec(Empty(true), run), id, given) <==> given == u.password)
            <==> if AsGiven(run, id) then Clean(u.password) else ComesBack(u)
  {
    hide Exec, Accepts, WordsOf, Find, AsGiven, ComesBack, Recovered;
    var w := Exec(Empty(true), run);
    OwnPasswordIff(run, id, u);
    forall given | Accepts(w, id, u.password) ensures Accepts(w, id, given) <==> given == u.password {
      AcceptedWord(run, id, u, given);
      AcceptedWord(run, id, u, u.password);
    }
  }

  /** Login once the hash has run out, after every run and for every id. */
  lemma UncachedLoginIff(run: seq<Action>, id: string, u: User)
    requires Find(Exec(Empty(true), run).rows, id) == Some(u)
    ensures Accepts(Do(Exec(Empty(true), run), TimeOut), id, u.password)
            <==> && |id| <= 50 && (forall i :: 0 <= i < |u.more| ==> |u.more[i].value| <= if i == 0 then 2020 else 50)
                 && if FIELD in WordsOf(Cell(id)) then u.password == After(WordsOf(Cell(id)) + [FIELD], FIELD)
                    else Clean(u.password)
  {
    hide Exec, Accepts, WordsOf, Find, Readable, Recovered, After, Clean, Cell;
    EntryAfter(run, id);
    ReadableIff(u);
    var later := run + [TimeOut];
    assert later[..|later| - 1] == run;
    ExecSnoc(Empty(true), later);
    OwnPasswordIff(later, id, u);
  }

  /** Login straight after any registration that succeeded, in any state: out of the hash. */
  lemma CachedLoginIff(w: World, u: User)
    requires LegalPassword(u.password) && !Refuses(w, u)
    ensures Accepts(Do(w, Register(u)), u.id, u.password) <==> Clean(u.password)
  {
    hide Refuses;
    AcceptsFirstWord(Do(w, Register(u)), u.id, u.password);
    CleanIffOneWord(u.password);
    WordsAreClean(u.password);
  }

  /** The user named "password" can log in from the table with one password only. */
  lemma PasswordAsId(run: seq<Action>, u: User)
    requires Find(Exec(Empty(true), run).rows, FIELD) == Some(u) && Readable(u)
    ensures Accepts(Do(Exec(Empty(true), run), TimeOut), FIELD, u.password) <==> u.password == "password"
  {
    hide *;
    PasswordId();
    EntryAfter(run, FIELD);
    ReadableIff(u);
    UncachedLoginIff(run, FIELD, u);
  }

  lemma PasswordId()
    ensures WordsOf(Cell(FIELD)) == [FIELD] && After([FIELD] + [FIELD], FIELD) == FIELD == "password" && |FIELD| <= 50
  {
    CleanIffOneWord(FIELD);
    assert ([FIELD] + [FIELD])[0] == FIELD;
  }

  // ---- when hash and table agree, with and without a key

  /** Passwords of one word, ids that do not hold the word "password", rows that can be read. */
  ghost predicate SoundUser(u: User) {
    Clean(u.password) && u.password != NULL && FIELD !in WordsOf(Cell(u.id)) && Readable(u)
  }

  ghost predicate Sound(a: Action) {
    match a
    case Register(u) => LegalPassword(u.password) ==> SoundUser(u)
    case Profile(_, pw) => LegalPassword(pw) ==> Clean(pw)
    case _ => true
  }

  /** What the hash should say. */
  function Truth(rows: seq<User>, id: string): string {
    match Find(rows, id) case None => NULL case Some(u) => u.password
  }

  /** The hash agrees with the table. */
  ghost predicate Agrees(w: World) {
    forall id :: id in w.cache ==> w.cache[id] == Truth(w.rows, id)
  }

  ghost predicate NoTwice(rows: seq<User>) {
    forall i, j :: 0 <= i < j < |rows| ==> rows[i].id != rows[j].id
  }

  ghost predicate Inv(w: World) {
    && (forall id :: Find(w.rows, id).Some? ==> SoundUser(Find(w.rows, id).value))
    && NoTwice(w.rows) && Agrees(w)
  }

  /** A registration under a stored id with another password. */
  predicate Clashes(w: World, a: Action) {
    a.Register? && LegalPassword(a.user.password)
    && Find(w.rows, a.user.id).Some? && Find(w.rows, a.user.id).value.password != a.user.password
  }

  /** A sound table and an agreeing hash: every entry that Select answers from is the truth. */
  lemma EntryIsTruth(w: World, id: string)
    requires Inv(w)
    ensures Entry(w, id) == Truth(w.rows, id)
  {
    hide Readable, Recovered;
    FindIn(w.rows, id);
    if id !in w.cache && Find(w.rows, id).Some? {
      RecoversIff(Find(w.rows, id).value);
    }
  }

  lemma {:induction false} NoTwiceMeansFirst(rows: seq<User>, i: nat)
    requires NoTwice(rows) && i < |rows|
    ensures Find(rows, rows[i].id) == Some(rows[i])
  {
    if i > 0 {
      assert rows[0].id != rows[i].id;
      NoTwiceMeansFirst(rows[1..], i - 1);
    }
  }

  lemma {:induction false} BothIn(rows: seq<User>, id: string, pw: string)
    ensures FindBoth(rows, id, pw).Some? ==>
              var u := FindBoth(rows, id, pw).value; u in rows && u.id == id && u.password == pw
    ensures Find(rows, id).Some? && Find(rows, id).value.password == pw ==> FindBoth(rows, id, pw) == Find(rows, id)
    ensures FindBoth(rows, id, pw).None? ==> forall i :: 0 <= i < |rows| ==> rows[i].id != id || rows[i].password != pw
  {
    if rows != [] {
      BothIn(rows[1..], id, pw);
    }
  }

  lemma {:induction false} SetKeepsIds(rows: seq<User>, id: string, pw: string)
    ensures |SetPassword(rows, id, pw)| == |rows|
    ensures forall i :: 0 <= i < |rows| ==>
              SetPassword(rows, id, pw)[i] == User(rows[i].id, if rows[i].id == id then pw else rows[i].password, rows[i].more)
  {
    if rows != [] {
      SetKeepsIds(rows[1..], id, pw);
    }
  }

  lemma {:induction false} RemoveKeepsNoTwice(rows: seq<User>, id: string)
    requires NoTwice(rows)
    ensures NoTwice(Remove(rows, id))
    ensures forall u :: u in Remove(rows, id) <==> u in rows && u.id != id
  {
    if rows != [] {
      RemoveKeepsNoTwice(rows[1..], id);
      var rest := Remove(rows[1..], id);
      forall i | 0 <= i < |rest| ensures rest[i].id != rows[0].id {
        assert rest[i] in rows[1..];
      }
    }
  }

  /** When a registration is refused, by the table or by the code. */
  lemma RefusedIff(w: World, u: User)
    requires Inv(w)
    ensures Refuses(w, u) <==> Find(w.rows, u.id).Some? && (w.keyed || Find(w.rows, u.id).value.password == u.password)
  {
    hide Readable;
    BothIn(w.rows, u.id, u.password);
    var row := FindBoth(w.rows, u.id, u.password);
    if row.Some? {
      var i :| 0 <= i < |w.rows| && w.rows[i] == row.value;
      NoTwiceMeansFirst(w.rows, i);
    }
  }

  lemma StepKeepsNoTwice(w: World, a: Action)
    requires Inv(w) && (w.keyed || !Clashes(w, a))
    ensures NoTwice(Do(w, a).rows)
  {
    hide Readable, SoundUser;
    match a
    case Register(u) =>
      RefusedIff(w, u);
      forall i | 0 <= i < |w.rows| ensures Find(w.rows, w.rows[i].id).Some? {
        NoTwiceMeansFirst(w.rows, i);
      }
    case Profile(id, pw) => SetKeepsIds(w.rows, id, pw);
    case Delete(id) => RemoveKeepsNoTwice(w.rows, id);
    case _ =>
  }

  lemma ChangedIsSound(u: User, pw: string)
    requires SoundUser(u) && LegalPassword(pw) && Clean(pw)
    ensures SoundUser(u.(password := pw))
  {
    var v := u.(password := pw);
    forall i | 0 <= i < |ColumnsOf(v)| ensures |ColumnsOf(v)[i].value| <= SqlText.Width(i) {
      assert i != 1 ==> ColumnsOf(v)[i] == ColumnsOf(u)[i];
    }
  }

  lemma StepKeepsInv(w: World, a: Action)
    requires Inv(w) && Sound(a) && (w.keyed || !Clashes(w, a))
    ensures Inv(Do(w, a))
  {
    hide Recovered, Find, FindBoth, SetPassword, Remove, WordsOf, Readable, NoTwice, SoundUser;
    var v := Do(w, a);
    StepKeepsNoTwice(w, a);
    forall id ensures Find(v.rows, id) == FoundAfter(w, a, id) {
      StepFinds(w, a, id);
    }
    match a
    case Register(u) => RefusedIff(w, u);
    case Profile(id, pw) =>
      if LegalPassword(pw) && Selects(Find(w.rows, id)) {
        ChangedIsSound(Find(w.rows, id).value, pw);
      }
    case Login(id) => EntryIsTruth(w, id);
    case _ =>
  }

  lemma {:induction false} ExecKeepsInv(w: World, run: seq<Action>)
    requires w.keyed && Inv(w) && forall i :: 0 <= i < |run| ==> Sound(run[i])
    ensures Inv(Exec(w, run))
    decreases |run|
  {
    if run != [] {
      StepKeepsInv(w, run[0]);
      ExecKeepsInv(Do(w, run[0]), run[1..]);
    }
  }

  /** After every sound run login accepts exactly the password that is stored, whether it comes out of
      the hash or has to be read back from the table. */
  lemma LoginIsExact(run: seq<Action>, id: string, given: string)
    requires forall i :: 0 <= i < |run| ==> Sound(run[i])
    ensures var w := Exec(Empty(true), run);
            Accepts(w, id, given) <==> Find(w.rows, id).Some? && Find(w.rows, id).value.password == given
  {
    hide Readable;
    ExecKeepsInv(Empty(true), run);
    var w := Exec(Empty(true), run);
    EntryIsTruth(w, id);
    FindIn(w.rows, id);
    AcceptsFirstWord(w, id, given);
    CleanIffOneWord(Entry(w, id));
  }

  /** Hash and table agree in every state of the run. */
  ghost predicate AgreesThroughout(w: World, run: seq<Action>)
    decreases |run|
  {
    Agrees(w) && (run != [] ==> AgreesThroughout(Do(w, run[0]), run[1..]))
  }

  /** No registration of the run names a stored id with another password. */
  ghost predicate Unambiguous(w: World, run: seq<Action>)
    decreases |run|
  {
    run != [] ==> !Clashes(w, run[0]) && Unambiguous(Do(w, run[0]), run[1..])
  }

  /** Without a key a clash gets through: the hash holds the new password, the table finds the old. */
  lemma ClashSplits(w: World, a: Action)
    requires Inv(w) && !w.keyed && Clashes(w, a)
    ensures !Agrees(Do(w, a))
  {
    hide Find, FindBoth, Readable, SoundUser, NoTwice;
    RefusedIff(w, a.user);
    StepFinds(w, a, a.user.id);
    assert a.user.id in Do(w, a).cache;
  }

  lemma {:induction false} AgreesThroughoutIff(w: World, run: seq<Action>)
    requires Inv(w) && !w.keyed && forall i :: 0 <= i < |run| ==> Sound(run[i])
    ensures AgreesThroughout(w, run) <==> Unambiguous(w, run)
    decreases |run|
  {
    if run != [] {
      if Clashes(w, run[0]) {
        ClashSplits(w, run[0]);
        assert !AgreesThroughout(Do(w, run[0]), run[1..]);
      } else {
        StepKeepsInv(w, run[0]);
        AgreesThroughoutIff(Do(w, run[0]), run[1..]);
      }
    }
  }

  /** A table without a key on user_id: over every sound run hash and table stay equal exactly when no
      registration names a stored id with another password. */
  lemma KeyIsNeeded(run: seq<Action>)
    requires forall i :: 0 <= i < |run| ==> Sound(run[i])
    ensures AgreesThroughout(Empty(false), run) <==> Unambiguous(Empty(false), run)
  {
    AgreesThroughoutIff(Empty(false), run);
  }
}
