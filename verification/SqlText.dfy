/** The statement texts of Code/database/Mysql.cpp: clauses are appended to output strings in a
    loop while the values to bind are collected beside them. */
module SqlText {

  /** A field name and the value that goes with it. */
  datatype FieldVal = FieldVal(field: string, value: string)

  type FieldVals = seq<FieldVal>

  const USERS_FIELDS: set<string> := {"user_id", "password", "date"}
  const MSGS_FIELDS: set<string> := {"rowadd", "sender_id", "receiver_id", "content", "date"}

  /** The size of the buffer that a select binds to its i-th column. A wider value makes the fetch fail. */
  function Width(i: nat): nat {
    if i == 2 then 2020 else 50
  }

  predicate ValidateTable(table: string) {
    table == "users" || table == "msgs"
  }

  function TableFields(table: string): set<string> {
    if table == "users" then USERS_FIELDS else if table == "msgs" then MSGS_FIELDS else {}
  }

  method ValidateFields(table: string, fields: FieldVals) returns (ok: bool)
    ensures ok <==> && (table == "users" || table == "msgs")
                    && forall kv :: kv in fields ==>
                         if table == "users" then kv.field in {"user_id", "password", "date"}
                         else kv.field in {"rowadd", "sender_id", "receiver_id", "content", "date"}
  {
    if !ValidateTable(table) {
      return false;
    }
    for i := 0 to |fields|
      invariant forall kv :: kv in fields[..i] ==> kv.field in TableFields(table)
    {
      if fields[i].field !in TableFields(table) {
        assert fields[i] in fields;
        return false;
      }
    }
    assert fields[..|fields|] == fields;
    return true;
  }

  ghost predicate Allowed(fields: FieldVals) {
    forall kv :: kv in fields ==> kv.field in USERS_FIELDS + MSGS_FIELDS
  }

  /** The pieces of a clause, one a field, put together with a separator. */
  function Joined(parts: seq<string>, sep: string): string {
    if parts == [] then "" else if |parts| == 1 then parts[0] else parts[0] + sep + Joined(parts[1..], sep)
  }

  lemma {:induction false} JoinedSnoc(parts: seq<string>, part: string, sep: string)
    ensures Joined(parts + [part], sep) == if parts == [] then part else Joined(parts, sep) + sep + part
  {
    var all := parts + [part];
    if parts == [] {
    } else if |parts| == 1 {
      assert all[1..] == [part];
    } else {
      assert all[1..] == parts[1..] + [part];
      JoinedSnoc(parts[1..], part, sep);
      assert parts[0] + sep + (Joined(parts[1..], sep) + sep + part) == parts[0] + sep + Joined(parts[1..], sep) + sep + part;
    }
  }

  function Names(fields: FieldVals): seq<string> {
    if fields == [] then [] else [fields[0].field] + Names(fields[1..])
  }

  function Equations(fields: FieldVals): seq<string> {
    if fields == [] then [] else [fields[0].field + " = ?"] + Equations(fields[1..])
  }

  function Marks(fields: FieldVals): seq<string> {
    if fields == [] then [] else ["?"] + Marks(fields[1..])
  }

  function Values(fields: FieldVals): seq<string> {
    if fields == [] then [] else [fields[0].value] + Values(fields[1..])
  }

  lemma {:induction false} Snoc(fields: FieldVals, kv: FieldVal)
    ensures Names(fields + [kv]) == Names(fields) + [kv.field]
    ensures Equations(fields + [kv]) == Equations(fields) + [kv.field + " = ?"]
    ensures Marks(fields + [kv]) == Marks(fields) + ["?"]
    ensures Values(fields + [kv]) == Values(fields) + [kv.value]
    ensures |Names(fields)| == |Equations(fields)| == |Marks(fields)| == |Values(fields)| == |fields|
  {
    if fields == [] {
      assert fields + [kv] == [kv];
    } else {
      assert (fields + [kv])[1..] == fields[1..] + [kv];
      Snoc(fields[1..], kv);
    }
  }

  /** One piece more, with a separator unless it is the first. */
  lemma JoinedStep(parts: seq<string>, part: string, sep: string)
    ensures Joined(parts + [part], sep) == (if parts == [] then "" else Joined(parts, sep) + sep) + part
  {
    JoinedSnoc(parts, part, sep);
    assert "" + part == part;
  }

  lemma ClauseStep(fields: FieldVals, i: nat, sep: string)
    requires i < |fields|
    ensures var piece := fields[i].field + " = ?";
            Joined(Equations(fields[..i + 1]), sep)
            == (if i == 0 then "" else Joined(Equations(fields[..i]), sep) + sep) + piece
    ensures Values(fields[..i + 1]) == Values(fields[..i]) + [fields[i].value]
  {
    hide Joined, Equations, Values;
    Snoc(fields[..i], fields[i]);
    assert fields[..i + 1] == fields[..i] + [fields[i]];
    JoinedStep(Equations(fields[..i]), fields[i].field + " = ?", sep);
  }

  lemma ListStep(fields: FieldVals, i: nat)
    requires i < |fields|
    ensures Joined(Names(fields[..i + 1]), ", ")
            == (if i == 0 then "" else Joined(Names(fields[..i]), ", ") + ", ") + fields[i].field
    ensures Joined(Marks(fields[..i + 1]), ", ")
            == (if i == 0 then "" else Joined(Marks(fields[..i]), ", ") + ", ") + "?"
    ensures Values(fields[..i + 1]) == Values(fields[..i]) + [fields[i].value]
  {
    hide Joined, Names, Marks, Values;
    Snoc(fields[..i], fields[i]);
    assert fields[..i + 1] == fields[..i] + [fields[i]];
    JoinedStep(Names(fields[..i]), fields[i].field, ", ");
    JoinedStep(Marks(fields[..i]), "?", ", ");
  }

  lemma NoPieces(sep: string)
    ensures Joined(Equations([]), sep) == "" && Joined(Names([]), sep) == "" && Joined(Marks([]), sep) == ""
    ensures Values([]) == []
  {
  }

  lemma AssociateText(a: string, b: string, c: string)
    ensures a + b + c == a + (b + c) && a + "" == a
  {
  }

  lemma AssociateValues(a: seq<string>, b: seq<string>, c: seq<string>)
    ensures a + b + c == a + (b + c) && a + [] == a
  {
  }

  /** One loop of the source with both separators: " AND " for WHERE, ", " for SET. */
  method BuildClause(fields: FieldVals, sep: string, clause: string, values: seq<string>)
    returns (clause': string, values': seq<string>)
    ensures clause' == clause + Joined(Equations(fields), sep)
    ensures values' == values + Values(fields)
  {
    hide Joined, Equations, Values;
    clause', values' := clause, values;
    ghost var text := "";
    NoPieces(sep);
    AssociateText(clause, "", "");
    AssociateValues(values, [], []);
    assert fields[..0] == [];
    for i := 0 to |fields|
      invariant text == Joined(Equations(fields[..i]), sep) && clause' == clause + text
      invariant values' == values + Values(fields[..i])
    {
      ClauseStep(fields, i, sep);
      if i > 0 {
        AssociateText(clause, text, sep);
        clause' := clause' + sep;
        text := text + sep;
      }
      var piece := fields[i].field + " = ?";
      AssociateText(clause, text, piece);
      AssociateValues(values, Values(fields[..i]), [fields[i].value]);
      clause' := clause' + piece;
      text := text + piece;
      values' := values' + [fields[i].value];
    }
    assert fields[..|fields|] == fields;
  }

  method BuildFieldList(fields: FieldVals) returns (names: string, marks: string, values: seq<string>)
    ensures names == Joined(Names(fields), ", ") && marks == Joined(Marks(fields), ", ")
    ensures values == Values(fields)
  {
    hide Joined, Names, Marks, Values;
    names, marks, values := "", "", [];
    NoPieces(", ");
    assert fields[..0] == [];
    for i := 0 to |fields|
      invariant names == Joined(Names(fields[..i]), ", ") && marks == Joined(Marks(fields[..i]), ", ")
      invariant values == Values(fields[..i])
    {
      ListStep(fields, i);
      if i > 0 {
        names := names + ", ";
        marks := marks + ", ";
      }
      names := names + fields[i].field;
      marks := marks + "?";
      values := values + [fields[i].value];
    }
    assert fields[..|fields|] == fields;
  }

  method SelectText(table: string, fields: FieldVals) returns (sql: string, values: seq<string>)
    ensures sql == SelectSql(table, fields) && values == Values(fields)
  {
    var clause;
    clause, values := BuildClause(fields, " AND ", "", []);
    assert "" + Joined(Equations(fields), " AND ") == Joined(Equations(fields), " AND ");
    assert [] + Values(fields) == Values(fields);
    sql := "SELECT * FROM " + table + " WHERE " + clause;
  }

  method DeleteText(table: string, fields: FieldVals) returns (sql: string, values: seq<string>)
    ensures sql == DeleteSql(table, fields) && values == Values(fields)
  {
    var clause;
    clause, values := BuildClause(fields, " AND ", "", []);
    assert "" + Joined(Equations(fields), " AND ") == Joined(Equations(fields), " AND ");
    assert [] + Values(fields) == Values(fields);
    sql := "DELETE FROM " + table + " WHERE " + clause;
  }

  method InsertText(table: string, fields: FieldVals) returns (sql: string, values: seq<string>)
    ensures sql == InsertSql(table, fields) && values == Values(fields)
  {
    var names, marks;
    names, marks, values := BuildFieldList(fields);
    sql := "INSERT INTO " + table + " (" + names + ") VALUES (" + marks + ")";
  }

  method UpdateText(table: string, fields: FieldVals, newFields: FieldVals) returns (sql: string, values: seq<string>)
    ensures sql == UpdateSql(table, fields, newFields) && values == Values(newFields) + Values(fields)
  {
    var setClause, whereClause;
    setClause, values := BuildClause(newFields, ", ", "", []);
    assert "" + Joined(Equations(newFields), ", ") == Joined(Equations(newFields), ", ");
    assert [] + Values(newFields) == Values(newFields);
    whereClause, values := BuildClause(fields, " AND ", "", values);
    assert "" + Joined(Equations(fields), " AND ") == Joined(Equations(fields), " AND ");
    sql := "UPDATE " + table + " SET " + setClause + " WHERE " + whereClause;
  }

  function SelectSql(table: string, fields: FieldVals): string {
    "SELECT * FROM " + table + " WHERE " + Joined(Equations(fields), " AND ")
  }

  function DeleteSql(table: string, fields: FieldVals): string {
    "DELETE FROM " + table + " WHERE " + Joined(Equations(fields), " AND ")
  }

  function InsertSql(table: string, fields: FieldVals): string {
    "INSERT INTO " + table + " (" + Joined(Names(fields), ", ") + ") VALUES (" + Joined(Marks(fields), ", ") + ")"
  }

  function UpdateSql(table: string, fields: FieldVals, newFields: FieldVals): string {
    "UPDATE " + table + " SET " + Joined(Equations(newFields), ", ") + " WHERE " + Joined(Equations(fields), " AND ")
  }

  // ---- an independent reading of a statement text: words, and every other character but the blank

  predicate WordChar(c: char) {
    'a' <= c <= 'z' || 'A' <= c <= 'Z' || c == '_'
  }

  ghost predicate IsWord(w: string) {
    w != "" && forall i :: 0 <= i < |w| ==> WordChar(w[i])
  }

  /** What has been read: the word being read, and the tokens before it. */
  datatype Reading = Reading(word: string, tokens: seq<string>) {
    function Flushed(): Reading {
      if word == "" then this else Reading("", tokens + [word])
    }

    function Next(c: char): Reading {
      if WordChar(c) then this.(word := word + [c])
      else if c == ' ' then Flushed()
      else Reading("", Flushed().tokens + [[c]])
    }
  }

  function Read(s: string, r: Reading): Reading
    decreases |s|
  {
    if s == "" then r else Read(s[1..], r.Next(s[0]))
  }

  function Tokens(s: string): seq<string> {
    Read(s, Reading("", [])).Flushed().tokens
  }

  lemma {:induction false} ReadConcat(s: string, t: string, r: Reading)
    ensures Read(s + t, r) == Read(t, Read(s, r))
    decreases |s|
  {
    if s == "" {
      assert s + t == t;
    } else {
      assert (s + t)[1..] == s[1..] + t;
      ReadConcat(s[1..], t, r.Next(s[0]));
    }
  }

  lemma {:induction false} ReadWord(w: string, r: Reading)
    requires forall i :: 0 <= i < |w| ==> WordChar(w[i])
    ensures Read(w, r) == r.(word := r.word + w)
    decreases |w|
  {
    if w == "" {
      assert r.word + "" == r.word;
    } else {
      ReadWord(w[1..], r.Next(w[0]));
      assert r.word + [w[0]] + w[1..] == r.word + w;
    }
  }

  /** Read where no word is open, the text gives these tokens. */
  ghost predicate Gives(s: string, ts: seq<string>) {
    forall r: Reading :: r.word == "" ==> Read(s, r).Flushed() == Reading("", r.tokens + ts)
  }

  lemma GivesWord(w: string)
    requires IsWord(w)
    ensures Gives(w, [w])
  {
    forall r: Reading | r.word == "" ensures Read(w, r).Flushed() == Reading("", r.tokens + [w]) {
      ReadWord(w, r);
      assert "" + w == w;
    }
  }

  lemma GivesBlank()
    ensures Gives(" ", [])
  {
    forall r: Reading | r.word == "" ensures Read(" ", r).Flushed() == Reading("", r.tokens + []) {
      assert Read(" ", r) == Read("", r.Next(' ')) && r.tokens + [] == r.tokens;
    }
  }

  lemma GivesSymbol(c: char)
    requires !WordChar(c) && c != ' '
    ensures Gives([c], [[c]])
  {
    forall r: Reading | r.word == "" ensures Read([c], r).Flushed() == Reading("", r.tokens + [[c]]) {
      assert [c][1..] == "" && Read([c], r) == Read("", r.Next(c));
    }
  }

  /** A text that does not begin with a letter ends the word before it. */
  lemma BreaksWord(t: string, r: Reading)
    requires t != "" && !WordChar(t[0])
    ensures Read(t, r) == Read(t, r.Flushed())
  {
    assert r.Next(t[0]) == r.Flushed().Next(t[0]);
  }

  lemma {:induction false} EndsWord(s: string, r: Reading)
    requires s != "" && !WordChar(s[|s| - 1])
    ensures Read(s, r).word == ""
    decreases |s|
  {
    if |s| > 1 {
      assert s[1..][|s| - 2] == s[|s| - 1];
      EndsWord(s[1..], r.Next(s[0]));
    } else {
      assert s[1..] == "" && Read(s, r) == Read("", r.Next(s[0]));
    }
  }

  lemma GivesAt(s: string, ts: seq<string>, r: Reading)
    requires Gives(s, ts) && r.word == ""
    ensures Read(s, r).Flushed() == Reading("", r.tokens + ts)
  {
  }

  lemma AssociateTokens(a: seq<string>, b: seq<string>, c: seq<string>)
    ensures a + b + c == a + (b + c)
  {
  }

  /** No word goes across from the one text to the other. */
  ghost predicate Apart(s: string, t: string) {
    s != "" && t != "" && (!WordChar(s[|s| - 1]) || !WordChar(t[0]))
  }

  lemma ApartIs(s: string, t: string, r: Reading)
    requires Apart(s, t)
    ensures Read(t, Read(s, r)) == Read(t, Read(s, r).Flushed())
  {
    if !WordChar(t[0]) {
      BreaksWord(t, Read(s, r));
    } else {
      EndsWord(s, r);
    }
  }

  lemma ConcatAt(s: string, x: seq<string>, t: string, y: seq<string>, r: Reading)
    requires Gives(s, x) && Gives(t, y) && r.word == ""
    requires Apart(s, t)
    ensures Read(s + t, r).Flushed() == Reading("", r.tokens + (x + y))
  {
    hide *;
    ReadConcat(s, t, r);
    var u := Read(s, r);
    GivesAt(s, x, r);
    ApartIs(s, t, r);
    GivesAt(t, y, u.Flushed());
    AssociateTokens(r.tokens, x, y);
  }

  /** Two texts one after the other, when no word goes across. */
  lemma GivesConcat(s: string, x: seq<string>, t: string, y: seq<string>)
    requires Gives(s, x) && Gives(t, y)
    requires Apart(s, t)
    ensures Gives(s + t, x + y)
  {
    forall r: Reading | r.word == "" ensures Read(s + t, r).Flushed() == Reading("", r.tokens + (x + y)) {
      hide *;
      ConcatAt(s, x, t, y, r);
    }
  }

  /** A keyword between blanks. */
  lemma GivesKeyword(w: string)
    requires IsWord(w)
    ensures Gives(" " + (w + " "), [w])
  {
    hide Gives;
    GivesWord(w);
    GivesBlank();
    assert [w] + [] == [w] && [] + [w] == [w];
    GivesConcat(w, [w], " ", []);
    GivesConcat(" ", [], w + " ", [w]);
  }

  lemma GivesKeywords(v: string, w: string)
    requires IsWord(v) && IsWord(w)
    ensures Gives(v + (" " + (w + " ")), [v, w])
  {
    hide Gives;
    GivesWord(v);
    GivesKeyword(w);
    GivesConcat(v, [v], " " + (w + " "), [w]);
    assert [v] + [w] == [v, w];
  }

  ghost predicate FieldsAreWords(fields: FieldVals) {
    forall kv :: kv in fields ==> IsWord(kv.field)
  }

  lemma AllowedAreWords(fields: FieldVals)
    requires Allowed(fields)
    ensures FieldsAreWords(fields)
  {
    assert IsWord("user_id") && IsWord("password") && IsWord("date");
    assert IsWord("rowadd") && IsWord("sender_id") && IsWord("receiver_id") && IsWord("content");
  }

  lemma TableIsWord(table: string)
    requires ValidateTable(table)
    ensures IsWord(table)
  {
    assert IsWord("users") && IsWord("msgs");
  }

  /** The tokens of a clause: "field = ?" for each field in order, with the separator in between. */
  ghost predicate Conditions(ts: seq<string>, fields: FieldVals, sep: string) {
    && |ts| == (if fields == [] then 0 else 4 * |fields| - 1)
    && forall i :: 0 <= i < |fields| ==>
         && ts[4 * i] == fields[i].field && ts[4 * i + 1] == "=" && ts[4 * i + 2] == "?"
         && (i > 0 ==> ts[4 * i - 1] == sep)
  }

  /** The tokens of a list, with commas in between. */
  ghost predicate Listed(ts: seq<string>, items: seq<string>) {
    && |ts| == (if items == [] then 0 else 2 * |items| - 1)
    && forall i :: 0 <= i < |items| ==> ts[2 * i] == items[i] && (i > 0 ==> ts[2 * i - 1] == ",")
  }

  lemma GivesEquation(f: string)
    requires IsWord(f)
    ensures Gives(f + " = ?", [f, "=", "?"])
  {
    hide Gives;
    GivesWord(f);
    GivesBlank();
    GivesSymbol('=');
    GivesSymbol('?');
    GivesConcat(" ", [], "?", ["?"]);
    GivesConcat("=", ["="], " " + "?", [] + ["?"]);
    GivesConcat(" ", [], "=" + (" " + "?"), ["="] + ([] + ["?"]));
    GivesConcat(f, [f], " " + ("=" + (" " + "?")), [] + (["="] + ([] + ["?"])));
    assert f + (" " + ("=" + (" " + "?"))) == f + " = ?";
    assert [f] + ([] + (["="] + ([] + ["?"]))) == [f, "=", "?"];
  }

  /** The two separators of a clause, as texts and as tokens. */
  lemma GivesSeparators()
    ensures Gives(" AND ", ["AND"]) && Gives(", ", [","])
  {
    assert IsWord("AND");
    GivesKeyword("AND");
    GivesSymbol(',');
    GivesBlank();
    GivesConcat(",", [","], " ", []);
    assert " " + ("AND" + " ") == " AND " && "," + " " == ", " && [","] + [] == [","];
  }

  lemma ConditionsCons(ts: seq<string>, fields: FieldVals, sep: string)
    requires |fields| > 1 && Conditions(ts, fields[1..], sep)
    ensures Conditions([fields[0].field, "=", "?"] + ([sep] + ts), fields, sep)
  {
    var all := [fields[0].field, "=", "?"] + ([sep] + ts);
    forall i | 0 <= i < |fields|
      ensures all[4 * i] == fields[i].field && all[4 * i + 1] == "=" && all[4 * i + 2] == "?" && (i > 0 ==> all[4 * i - 1] == sep)
    {
      if i > 0 {
        assert fields[1..][i - 1] == fields[i];
        assert all[4 * i] == ts[4 * (i - 1)] && all[4 * i + 1] == ts[4 * (i - 1) + 1] && all[4 * i + 2] == ts[4 * (i - 1) + 2];
        assert i > 1 ==> all[4 * i - 1] == ts[4 * (i - 1) - 1];
      }
    }
  }

  lemma EquationsCons(fields: FieldVals, sep: string)
    requires fields != []
    ensures Joined(Equations(fields), sep)
            == fields[0].field + " = ?" + if |fields| == 1 then "" else sep + Joined(Equations(fields[1..]), sep)
    ensures |fields| > 1 ==> Joined(Equations(fields[1..]), sep) != ""
  {
    assert Equations(fields)[1..] == Equations(fields[1..]);
    assert |fields| > 1 ==> Equations(fields[1..])[0] == fields[1].field + " = ?";
  }

  lemma OneCondition(field: FieldVal, sep: string)
    ensures Conditions([field.field, "=", "?"], [field], sep)
  {
  }

  lemma {:induction false} GivesClause(fields: FieldVals, sep: string, token: string) returns (ts: seq<string>)
    requires FieldsAreWords(fields) && fields != [] && ((sep == " AND " && token == "AND") || (sep == ", " && token == ","))
    ensures var text := Joined(Equations(fields), sep);
            Gives(text, ts) && Conditions(ts, fields, token) && text != "" && text[|text| - 1] == '?'
    decreases |fields|
  {
    hide Gives, Conditions, Joined, Equations, IsWord;
    var f := fields[0].field;
    var first := f + " = ?";
    assert fields[0] in fields;
    GivesEquation(f);
    EquationsCons(fields, sep);
    if |fields| == 1 {
      ts := [f, "=", "?"];
      OneCondition(fields[0], token);
      assert fields == [fields[0]] && first + "" == first;
    } else {
      var rest := Joined(Equations(fields[1..]), sep);
      var more := GivesClause(fields[1..], sep, token);
      GivesSeparators();
      GivesConcat(sep, [token], rest, more);
      GivesConcat(first, [f, "=", "?"], sep + rest, [token] + more);
      ts := [f, "=", "?"] + ([token] + more);
      ConditionsCons(more, fields, token);
    }
  }

  lemma ListedCons(item: string, ts: seq<string>, items: seq<string>)
    requires items != [] && Listed(ts, items)
    ensures Listed([item] + ([","] + ts), [item] + items)
  {
    var all, more := [item] + ([","] + ts), [item] + items;
    forall i | 0 <= i < |more| ensures all[2 * i] == more[i] && (i > 0 ==> all[2 * i - 1] == ",") {
      if i > 0 {
        assert all[2 * i] == ts[2 * (i - 1)] && (i > 1 ==> all[2 * i - 1] == ts[2 * (i - 1) - 1]);
      }
    }
  }

  lemma JoinedCons(items: seq<string>, sep: string)
    requires items != [] && items[0] != ""
    ensures Joined(items, sep) == items[0] + if |items| == 1 then "" else sep + Joined(items[1..], sep)
    ensures Joined(items, sep) != ""
  {
  }

  lemma GivesItem(item: string)
    requires item == "?" || IsWord(item)
    ensures Gives(item, [item]) && Listed([item], [item]) && item != ""
  {
    if item == "?" {
      GivesSymbol('?');
    } else {
      GivesWord(item);
    }
  }

  lemma {:induction false} GivesList(items: seq<string>) returns (ts: seq<string>)
    requires items != [] && forall i :: 0 <= i < |items| ==> items[i] == "?" || IsWord(items[i])
    ensures Gives(Joined(items, ", "), ts) && Listed(ts, items) && Joined(items, ", ") != ""
    decreases |items|
  {
    hide Gives, Listed, Joined, IsWord;
    var item := items[0];
    GivesItem(item);
    JoinedCons(items, ", ");
    if |items| == 1 {
      ts := [item];
      assert items == [item] && item + "" == item;
    } else {
      var rest := Joined(items[1..], ", ");
      var more := GivesList(items[1..]);
      GivesSeparators();
      GivesConcat(", ", [","], rest, more);
      GivesConcat(item, [item], ", " + rest, [","] + more);
      ts := [item] + ([","] + more);
      ListedCons(item, more, items[1..]);
      assert [item] + items[1..] == items;
    }
  }

  lemma {:induction false} NamesAndValues(fields: FieldVals)
    ensures |Names(fields)| == |Values(fields)| == |Marks(fields)| == |fields|
    ensures forall i :: 0 <= i < |fields| ==>
              Names(fields)[i] == fields[i].field && Values(fields)[i] == fields[i].value && Marks(fields)[i] == "?"
  {
    if fields != [] {
      NamesAndValues(fields[1..]);
    }
  }

  lemma Finished(s: string, ts: seq<string>)
    requires Gives(s, ts)
    ensures Tokens(s) == ts
  {
    assert [] + ts == ts;
  }

  lemma GivesSelectFrom()
    ensures Gives("SELECT * FROM ", ["SELECT", "*", "FROM"])
  {
    assert IsWord("SELECT") && IsWord("FROM");
    GivesWord("SELECT");
    GivesBlank();
    GivesSymbol('*');
    GivesKeyword("FROM");
    GivesConcat("*", ["*"], " " + ("FROM" + " "), ["FROM"]);
    GivesConcat(" ", [], "*" + (" " + ("FROM" + " ")), ["*"] + ["FROM"]);
    GivesConcat("SELECT", ["SELECT"], " " + ("*" + (" " + ("FROM" + " "))), [] + (["*"] + ["FROM"]));
    hide Gives;
    assert "SELECT" + (" " + ("*" + (" " + ("FROM" + " ")))) == "SELECT * FROM ";
    assert ["SELECT"] + ([] + (["*"] + ["FROM"])) == ["SELECT", "*", "FROM"];
  }

  lemma GivesDeleteFrom()
    ensures Gives("DELETE FROM ", ["DELETE", "FROM"])
  {
    assert IsWord("DELETE") && IsWord("FROM");
    GivesKeywords("DELETE", "FROM");
    hide Gives;
    assert "DELETE" + (" " + ("FROM" + " ")) == "DELETE FROM ";
  }

  /** "<head><table> <keyword> <clause>": the clause may be empty. */
  lemma GivesStatement(head: string, x: seq<string>, table: string, keyword: string, fields: FieldVals, sep: string, token: string)
    returns (ts: seq<string>)
    requires Gives(head, x) && head != "" && !WordChar(head[|head| - 1]) && IsWord(table) && IsWord(keyword)
    requires FieldsAreWords(fields) && ((sep == " AND " && token == "AND") || (sep == ", " && token == ","))
    ensures var text := head + (table + ((" " + (keyword + " ")) + Joined(Equations(fields), sep)));
            Gives(text, x + ([table] + ([keyword] + ts))) && text[|text| - 1] == if fields == [] then ' ' else '?'
    ensures Conditions(ts, fields, token)
  {
    var kw := " " + (keyword + " ");
    GivesKeyword(keyword);
    GivesWord(table);
    ts := [];
    if fields == [] {
      assert kw + "" == kw && [keyword] + ts == [keyword];
    } else {
      ts := GivesClause(fields, sep, token);
      GivesConcat(kw, [keyword], Joined(Equations(fields), sep), ts);
    }
    var clause := kw + Joined(Equations(fields), sep);
    hide Gives, Conditions, Joined, Equations;
    assert clause[0] == ' ';
    GivesConcat(table, [table], clause, [keyword] + ts);
    GivesConcat(head, x, table + clause, [table] + ([keyword] + ts));
  }

  lemma SelectParts(table: string, clause: string)
    ensures "SELECT * FROM " + (table + ((" " + ("WHERE" + " ")) + clause)) == "SELECT * FROM " + table + " WHERE " + clause
    ensures "DELETE FROM " + (table + ((" " + ("WHERE" + " ")) + clause)) == "DELETE FROM " + table + " WHERE " + clause
  {
    assert " " + ("WHERE" + " ") == " WHERE ";
    var tail := " WHERE " + clause;
    assert "SELECT * FROM " + (table + tail) == "SELECT * FROM " + table + tail == "SELECT * FROM " + table + " WHERE " + clause;
    assert "DELETE FROM " + (table + tail) == "DELETE FROM " + table + tail == "DELETE FROM " + table + " WHERE " + clause;
  }

  lemma SelectTokens(table: string, ts: seq<string>)
    ensures var all := ["SELECT", "*", "FROM"] + ([table] + (["WHERE"] + ts));
            |all| == 5 + |ts| && all[..5] == ["SELECT", "*", "FROM", table, "WHERE"] && all[5..] == ts
    ensures var all := ["DELETE", "FROM"] + ([table] + (["WHERE"] + ts));
            |all| == 4 + |ts| && all[..4] == ["DELETE", "FROM", table, "WHERE"] && all[4..] == ts
  {
  }

  /** Select: nothing but "field = ?" for each field in order, with AND in between, and a value for each. */
  lemma SelectBindsItsFields(table: string, fields: FieldVals)
    requires ValidateTable(table) && Allowed(fields)
    ensures var ts := Tokens(SelectSql(table, fields));
            |ts| >= 5 && ts[..5] == ["SELECT", "*", "FROM", table, "WHERE"] && Conditions(ts[5..], fields, "AND")
    ensures |Values(fields)| == |fields| && forall i :: 0 <= i < |fields| ==> Values(fields)[i] == fields[i].value
  {
    assert IsWord("WHERE");
    hide Gives, Conditions, Tokens, Joined, Equations, IsWord;
    AllowedAreWords(fields);
    TableIsWord(table);
    NamesAndValues(fields);
    GivesSelectFrom();
    var ts := GivesStatement("SELECT * FROM ", ["SELECT", "*", "FROM"], table, "WHERE", fields, " AND ", "AND");
    SelectParts(table, Joined(Equations(fields), " AND "));
    Finished(SelectSql(table, fields), ["SELECT", "*", "FROM"] + ([table] + (["WHERE"] + ts)));
    SelectTokens(table, ts);
  }

  lemma DeleteBindsItsFields(table: string, fields: FieldVals)
    requires ValidateTable(table) && Allowed(fields)
    ensures var ts := Tokens(DeleteSql(table, fields));
            |ts| >= 4 && ts[..4] == ["DELETE", "FROM", table, "WHERE"] && Conditions(ts[4..], fields, "AND")
    ensures |Values(fields)| == |fields| && forall i :: 0 <= i < |fields| ==> Values(fields)[i] == fields[i].value
  {
    assert IsWord("WHERE");
    hide Gives, Conditions, Tokens, Joined, Equations, IsWord;
    AllowedAreWords(fields);
    TableIsWord(table);
    NamesAndValues(fields);
    GivesDeleteFrom();
    var ts := GivesStatement("DELETE FROM ", ["DELETE", "FROM"], table, "WHERE", fields, " AND ", "AND");
    SelectParts(table, Joined(Equations(fields), " AND "));
    Finished(DeleteSql(table, fields), ["DELETE", "FROM"] + ([table] + (["WHERE"] + ts)));
    SelectTokens(table, ts);
  }

  lemma UpdateParts(table: string, fields: FieldVals, newFields: FieldVals)
    ensures "UPDATE " + (table + ((" " + ("SET" + " ")) + Joined(Equations(newFields), ", ")))
            + ((" " + ("WHERE" + " ")) + Joined(Equations(fields), " AND ")) == UpdateSql(table, fields, newFields)
  {
    hide Joined, Equations;
  }

  lemma UpdateTokens(table: string, xs: seq<string>, ys: seq<string>)
    ensures var all, k := ["UPDATE"] + ([table] + (["SET"] + xs)) + (["WHERE"] + ys), 3 + |xs|;
            && |all| == 4 + |xs| + |ys| && all[..3] == ["UPDATE", table, "SET"]
            && all[3..k] == xs && all[k] == "WHERE" && all[k + 1..] == ys
  {
  }

  /** Update: the equations of SET with commas, then those of WHERE with AND. */
  lemma UpdateBindsItsFields(table: string, fields: FieldVals, newFields: FieldVals)
    requires ValidateTable(table) && Allowed(fields) && Allowed(newFields)
    ensures var ts := Tokens(UpdateSql(table, fields, newFields));
            exists k :: 3 <= k < |ts| && ts[..3] == ["UPDATE", table, "SET"] && Conditions(ts[3..k], newFields, ",")
                        && ts[k] == "WHERE" && Conditions(ts[k + 1..], fields, "AND")
    ensures |Values(newFields)| == |newFields| && forall i :: 0 <= i < |newFields| ==> Values(newFields)[i] == newFields[i].value
    ensures |Values(fields)| == |fields| && forall i :: 0 <= i < |fields| ==> Values(fields)[i] == fields[i].value
  {
    assert IsWord("UPDATE") && IsWord("SET") && IsWord("WHERE");
    hide Gives, Conditions, Tokens, Joined, Equations, IsWord, UpdateSql;
    AllowedAreWords(fields);
    AllowedAreWords(newFields);
    TableIsWord(table);
    NamesAndValues(fields);
    NamesAndValues(newFields);
    GivesUpdate();
    var xs := GivesStatement("UPDATE ", ["UPDATE"], table, "SET", newFields, ", ", ",");
    var front := "UPDATE " + (table + ((" " + ("SET" + " ")) + Joined(Equations(newFields), ", ")));
    var x := ["UPDATE"] + ([table] + (["SET"] + xs));
    var ys := GivesWhere(front, x, fields);
    UpdateParts(table, fields, newFields);
    Finished(UpdateSql(table, fields, newFields), x + (["WHERE"] + ys));
    UpdateTokens(table, xs, ys);
  }

  lemma GivesUpdate()
    ensures Gives("UPDATE ", ["UPDATE"])
  {
    assert IsWord("UPDATE");
    GivesWord("UPDATE");
    GivesBlank();
    GivesConcat("UPDATE", ["UPDATE"], " ", []);
    assert "UPDATE" + " " == "UPDATE " && ["UPDATE"] + [] == ["UPDATE"];
  }

  lemma GivesWhere(front: string, x: seq<string>, fields: FieldVals) returns (ts: seq<string>)
    requires Gives(front, x) && front != "" && !WordChar(front[|front| - 1]) && FieldsAreWords(fields)
    ensures Gives(front + ((" " + ("WHERE" + " ")) + Joined(Equations(fields), " AND ")), x + (["WHERE"] + ts))
    ensures Conditions(ts, fields, "AND")
  {
    var kw := " " + ("WHERE" + " ");
    assert IsWord("WHERE");
    GivesKeyword("WHERE");
    ts := [];
    if fields == [] {
      assert kw + "" == kw && ["WHERE"] + ts == ["WHERE"];
    } else {
      ts := GivesClause(fields, " AND ", "AND");
      GivesConcat(kw, ["WHERE"], Joined(Equations(fields), " AND "), ts);
    }
    var clause := kw + Joined(Equations(fields), " AND ");
    hide Gives, Conditions, Joined, Equations;
    GivesConcat(front, x, clause, ["WHERE"] + ts);
  }

  /** A list in brackets; it may be empty. */
  lemma GivesBrackets(items: seq<string>) returns (ts: seq<string>)
    requires forall i :: 0 <= i < |items| ==> items[i] == "?" || IsWord(items[i])
    ensures Gives("(" + (Joined(items, ", ") + ")"), ["("] + (ts + [")"])) && Listed(ts, items)
  {
    GivesSymbol('(');
    GivesSymbol(')');
    ts := [];
    if items == [] {
      GivesConcat("(", ["("], ")", [")"]);
      assert "" + ")" == ")" && ts + [")"] == [")"];
    } else {
      ts := GivesList(items);
      hide Gives, Listed, Joined;
      GivesConcat(Joined(items, ", "), ts, ")", [")"]);
      GivesConcat("(", ["("], Joined(items, ", ") + ")", ts + [")"]);
    }
  }

  /** Insert: the fields in order between the table and VALUES, and a mark and a value for each. */
  lemma InsertBindsItsFields(table: string, fields: FieldVals)
    requires ValidateTable(table) && Allowed(fields)
    ensures var ts := Tokens(InsertSql(table, fields));
            exists xs, ys :: ts == ["INSERT", "INTO", table, "("] + xs + [")", "VALUES", "("] + ys + [")"]
                             && Listed(xs, Names(fields)) && Listed(ys, Marks(fields))
    ensures |Names(fields)| == |Marks(fields)| == |Values(fields)| == |fields|
    ensures forall i :: 0 <= i < |fields| ==>
              Names(fields)[i] == fields[i].field && Marks(fields)[i] == "?" && Values(fields)[i] == fields[i].value
  {
    hide Gives, Listed, Tokens, Joined, Names, Marks, Values;
    AllowedAreWords(fields);
    TableIsWord(table);
    NamesAndValues(fields);
    var xs := GivesBrackets(Names(fields));
    var ys := GivesBrackets(Marks(fields));
    var a, b := "(" + (Joined(Names(fields), ", ") + ")"), "(" + (Joined(Marks(fields), ", ") + ")");
    var x, y := ["("] + (xs + [")"]), ["("] + (ys + [")"]);
    GivesInsert(table, a, x, b, y);
    assert "INSERT INTO " + (table + (" " + (a + ((" " + ("VALUES" + " ")) + b)))) == InsertSql(table, fields);
    var all := ["INSERT", "INTO"] + ([table] + (x + (["VALUES"] + y)));
    Finished(InsertSql(table, fields), all);
    assert all == ["INSERT", "INTO", table, "("] + xs + [")", "VALUES", "("] + ys + [")"];
  }

  lemma GivesInsert(table: string, a: string, x: seq<string>, b: string, y: seq<string>)
    requires IsWord(table) && Gives(a, x) && Gives(b, y) && a != "" && a[0] == '(' && a[|a| - 1] == ')' && b != ""
    ensures Gives("INSERT INTO " + (table + (" " + (a + ((" " + ("VALUES" + " ")) + b)))),
                  ["INSERT", "INTO"] + ([table] + (x + (["VALUES"] + y))))
  {
    assert IsWord("INSERT") && IsWord("INTO") && IsWord("VALUES");
    GivesKeywords("INSERT", "INTO");
    GivesKeyword("VALUES");
    GivesWord(table);
    GivesBlank();
    hide Gives;
    assert "INSERT" + (" " + ("INTO" + " ")) == "INSERT INTO ";
    var kw := " " + ("VALUES" + " ");
    GivesConcat(kw, ["VALUES"], b, y);
    GivesConcat(a, x, kw + b, ["VALUES"] + y);
    var rest, z := a + (kw + b), x + (["VALUES"] + y);
    GivesConcat(" ", [], rest, z);
    assert [] + z == z;
    GivesConcat(table, [table], " " + rest, z);
    GivesConcat("INSERT INTO ", ["INSERT", "INTO"], table + (" " + rest), [table] + z);
  }
}
