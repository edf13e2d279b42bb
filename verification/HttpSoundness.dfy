/** The parser accepts nothing but the requests of the grammar. */
module HttpSoundness {
  import opened CTypes
  import opened HttpRequests
  import opened HttpContexts
  import opened HttpGrammar
  import opened HttpRoundTrip

  /** The run ends with a complete request or with an exception. */
  ghost predicate Fares(text: string, size: nat, c: Config)
    requires |text| == size + 1 && c.Ordered()
  {
    Accepts(text, size, c) || Run(text, size, c).threw
  }

  /** Such a run leaves every state on the way: by a good step, or by the one that throws. */
  lemma {:induction false} Leave(text: string, size: nat, c: Config) returns (j: nat)
    requires Ready(text, size, c) && Fares(text, size, c)
    ensures c.end <= j <= size && !Stays(c.state, text[j])
    ensures forall k :: c.end <= k < j ==> Stays(c.state, text[k])
    ensures var d := Step(text, size, c.(end := j));
            && d.Ordered() && (d.threw || (!d.state.Invalid? && d.end == j + 1))
            && Run(text, size, c) == Run(text, size, d) && (Accepts(text, size, c) ==> !d.threw)
    decreases size + 1 - c.end
  {
    hide Step, Stays;
    assert c.end <= size;
    j := c.end;
    StepProgress(text, size, c);
    RunStep(text, size, c);
    if Stays(c.state, text[c.end]) {
      StayStep(text, size, c);
      j := Leave(text, size, Stay(c));
    }
  }

  lemma FindMethod(text: string, size: nat, c: Config) returns (m: string, k: nat)
    requires Ready(text, size, c) && c.state.Start? && c.start == c.end && Fares(text, size, c)
    ensures MethodFrom(m, k) && At(text, c.end, m) && c.end + |m| <= size && IsBlank(text[c.end + |m|])
  {
    hide Run;
    var i := Leave(text, size, c);
    var d := Step(text, size, c.(end := i));
    assert d.state.InMethod? && d.end == i + 1 && IsUpper(text[i]);
    var j := Leave(text, size, d);
    m, k := text[c.end..j], i - c.end;
    assert IsBlank(text[j]) && |m| == j - c.end;
    assert forall l :: 0 <= l < |m| ==> m[l] == text[c.end + l];
  }

  lemma FindUrl(text: string, size: nat, c: Config) returns (u: string, k: nat)
    requires Ready(text, size, c) && c.state.BeforeUrl? && c.start == c.end && Fares(text, size, c)
    ensures UrlFrom(u, k) && At(text, c.end, u) && c.end + |u| <= size
    ensures IsBlank(text[c.end + |u|]) || text[c.end + |u|] == '?'
  {
    hide Run;
    var i := Leave(text, size, c);
    var d := Step(text, size, c.(end := i));
    var j := Leave(text, size, d);
    u, k := text[c.end..j], i - c.end;
  }

  lemma FindKey(text: string, size: nat, c: Config) returns (key: string)
    requires Ready(text, size, c) && c.state.BeforeParamKey? && c.start == c.end && Fares(text, size, c)
    ensures KeyText(key) && At(text, c.end, key) && c.end + |key| <= size && text[c.end + |key|] == '='
  {
    hide Run;
    var i := Leave(text, size, c);
    var j := Leave(text, size, Step(text, size, c.(end := i)));
    key := text[c.end..j];
  }

  lemma FindValue(text: string, size: nat, c: Config) returns (value: string)
    requires Ready(text, size, c) && c.state.BeforeParamValue? && Fares(text, size, c)
    ensures ValueText(value) && At(text, c.end, value) && c.end + |value| <= size
    ensures IsBlank(text[c.end + |value|]) || text[c.end + |value|] == '&'
  {
    hide Run;
    var i := Leave(text, size, c);
    var j := Leave(text, size, Step(text, size, c.(end := i)));
    value := text[c.end..j];
  }

  lemma FindPair(text: string, size: nat, c: Config) returns (p: Pair)
    requires Ready(text, size, c) && c.state.BeforeParamKey? && c.start == c.end && Fares(text, size, c)
    ensures KeyText(p.key) && ValueText(p.value) && At(text, c.end, PairText(p))
    ensures var q := c.end + |PairText(p)|; q <= size && (IsBlank(text[q]) || text[q] == '&')
  {
    hide Run, Step;
    var key := FindKey(text, size, c);
    ReadKey(text, size, c, key);
    var d := Go(c.(end := c.end + |key|), BeforeParamValue).(colon := c.end + |key|);
    var value := FindValue(text, size, d);
    p := Pair(key, value);
    AtChar(text, c.end + |key|, '=');
    AtConcat(text, c.end, key, "=");
    AtConcat(text, c.end, key + "=", value);
  }

  /** Where a parameter with another one behind it ends. */
  function NextPair(c: Config, p: Pair): Config {
    var q := c.end + |PairText(p)|;
    GoOn(c.(end := q), BeforeParamKey,
         c.request.(params := c.request.params[p.key := p.value])).(colon := c.end + |p.key|)
  }

  lemma TakePair(text: string, size: nat, c: Config) returns (p: Pair)
    requires Ready(text, size, c) && c.state.BeforeParamKey? && c.start == c.end && Fares(text, size, c)
    ensures KeyText(p.key) && ValueText(p.value) && At(text, c.end, PairText(p))
    ensures var q := c.end + |PairText(p)|;
            && q <= size && (IsBlank(text[q]) || text[q] == '&')
            && (text[q] == '&' ==> NextPair(c, p).Ordered() && Run(text, size, c) == Run(text, size, NextPair(c, p)))
  {
    hide Run, Step, KeyText, ValueText, IsBlank;
    p := FindPair(text, size, c);
    ReadPair(text, size, c, p);
  }

  lemma MorePairs(text: string, at: nat, p: Pair, rest: seq<Pair>)
    requires At(text, at, PairText(p)) && rest != []
    requires var q := at + |PairText(p)|; q < |text| && text[q] == '&' && At(text, q + 1, ParamsText(rest))
    ensures At(text, at, ParamsText([p] + rest)) && |ParamsText([p] + rest)| == |PairText(p)| + 1 + |ParamsText(rest)|
  {
    var ps := [p] + rest;
    assert ps[1..] == rest;
    assert ParamsText(ps) == PairText(p) + "&" + ParamsText(rest);
    hide ParamsText, PairText;
    AtChar(text, at + |PairText(p)|, '&');
    AtConcat(text, at, PairText(p), "&");
    AtConcat(text, at, PairText(p) + "&", ParamsText(rest));
  }

  lemma {:induction false} FindPairs(text: string, size: nat, c: Config) returns (ps: seq<Pair>)
    requires Ready(text, size, c) && c.state.BeforeParamKey? && c.start == c.end && Fares(text, size, c)
    ensures ps != [] && forall i :: 0 <= i < |ps| ==> KeyText(ps[i].key) && ValueText(ps[i].value)
    ensures At(text, c.end, ParamsText(ps))
    ensures var q := c.end + |ParamsText(ps)|; q <= size && IsBlank(text[q])
    decreases size + 1 - c.end
  {
    hide Run, Step, KeyText, ValueText, PairText, IsBlank, At;
    var p := TakePair(text, size, c);
    if text[c.end + |PairText(p)|] == '&' {
      var rest := FindPairs(text, size, NextPair(c, p));
      MorePairs(text, c.end, p, rest);
      ps := [p] + rest;
    } else {
      ps := [p];
    }
  }

  lemma FindProtocolText(text: string, size: nat, c: Config) returns (s: string, k: nat)
    requires Ready(text, size, c) && c.state.BeforeProtocol? && c.start == c.end && Fares(text, size, c)
    ensures ProtocolFrom(s, k) && At(text, c.end, s) && c.end + |s| <= size && text[c.end + |s|] == '/'
  {
    hide Run;
    var i := Leave(text, size, c);
    var d := Step(text, size, c.(end := i));
    var j := Leave(text, size, d);
    s, k := text[c.end..j], i - c.end;
  }

  lemma FindVersion(text: string, size: nat, c: Config) returns (v: string)
    requires Ready(text, size, c) && c.state.BeforeVersion? && c.start == c.end && Fares(text, size, c)
    ensures VersionText(v) && At(text, c.end, v) && c.end + |v| <= size && text[c.end + |v|] == CR
  {
    hide Run;
    var i := Leave(text, size, c);
    var j := Leave(text, size, Step(text, size, c.(end := i)));
    v := text[c.end..j];
  }

  lemma FindLineEnd(text: string, size: nat, c: Config)
    requires Ready(text, size, c) && c.state.WhenCr? && Fares(text, size, c)
    ensures c.end <= size && text[c.end] == LF
  {
    hide Run;
    var i := Leave(text, size, c);
  }

  lemma FindHeaderKey(text: string, size: nat, c: Config) returns (key: string)
    requires Ready(text, size, c) && c.state.CrLf? && Fares(text, size, c) && c.end <= size && text[c.end] != CR
    ensures key != "" && key[0] != CR && !IsBlank(key[0]) && At(text, c.end, key)
    ensures forall i :: 0 < i < |key| ==> key[i] != ':'
    ensures c.end + |key| <= size && text[c.end + |key|] == ':'
  {
    hide Run;
    var i := Leave(text, size, c);
    var j := Leave(text, size, Step(text, size, c.(end := i)));
    key := text[c.end..j];
  }

  lemma FindHeaderValue(text: string, size: nat, c: Config) returns (pad: char, value: string)
    requires Ready(text, size, c) && c.state.HeaderValue? && c.colon + 1 == c.end && Fares(text, size, c)
    requires c.end <= size && text[c.end] != CR
    ensures pad != CR && forall i :: 0 <= i < |value| ==> value[i] != CR
    ensures At(text, c.end, [pad] + value)
    ensures var e := c.end + 1 + |value|; e <= size && text[e] == CR
  {
    hide Run;
    var e := Leave(text, size, c);
    pad, value := text[c.end], text[c.end + 1..e];
    assert text[c.end..e] == [pad] + value;
  }

  /** A run that ends well has something between the colon and the end of the line. */
  lemma PadIsThere(text: string, size: nat, c: Config)
    requires Ready(text, size, c) && c.state.HeaderValue? && c.colon + 1 == c.end && Accepts(text, size, c)
    ensures c.end <= size && text[c.end] != CR
  {
    hide Run;
    var e := Leave(text, size, c);
  }

  /** The header line behind a key that has been found. */
  lemma FindHeader(text: string, size: nat, c: Config, key: string) returns (h: HeaderLine)
    requires Ready(text, size, c) && c.state.CrLf? && c.start == c.end && Fares(text, size, c)
    requires key != "" && key[0] != CR && !IsBlank(key[0]) && At(text, c.end, key)
    requires forall i :: 0 < i < |key| ==> key[i] != ':'
    requires var p := c.end + |key|; p < size && text[p] == ':' && text[p + 1] != CR
    ensures HeaderOk(h) && At(text, c.end, HeaderText(h)) && c.end + |HeaderText(h)| <= size + 1
  {
    hide Run, Step, IsBlank, HeaderText;
    ReadHeaderKey(text, size, c, key);
    var p := c.end + |key|;
    var c1 := Go(c.(end := p), HeaderValue).(colon := p);
    var pad, value := FindHeaderValue(text, size, c1);
    h := HeaderLine(key, pad, value);
    ReadHeaderValue(text, size, c1, h);
    var e := c1.end + 1 + |value|;
    var c2 := GoOn(c1.(end := e), WhenCr, c.request.(headers := c.request.headers[key := value]));
    FindLineEnd(text, size, c2);
    AtChar(text, p, ':');
    AtLineEnd(text, e);
    HeaderParts(text, c.end, h);
    HeaderLength(h);
  }

  lemma HeaderLength(h: HeaderLine)
    ensures |HeaderText(h)| == |h.key| + |h.value| + 4
  {
  }

  /** Such a line is found and read. */
  lemma TakeHeader(text: string, size: nat, c: Config, key: string) returns (h: HeaderLine)
    requires Ready(text, size, c) && c.state.CrLf? && c.start == c.end && Fares(text, size, c)
    requires key != "" && key[0] != CR && !IsBlank(key[0]) && At(text, c.end, key)
    requires forall i :: 0 < i < |key| ==> key[i] != ':'
    requires var p := c.end + |key|; p < size && text[p] == ':' && text[p + 1] != CR
    ensures HeaderOk(h) && At(text, c.end, HeaderText(h)) && c.end < Behind(c, h).end <= size + 1
    ensures Behind(c, h).Ordered() && Run(text, size, c) == Run(text, size, Behind(c, h))
  {
    hide Run, Step, HeaderOk;
    h := FindHeader(text, size, c, key);
    ReadHeader(text, size, c, h);
  }

  lemma FindBlankLine(text: string, size: nat, c: Config)
    requires Ready(text, size, c) && c.state.CrLf? && Accepts(text, size, c)
    requires c.end <= size && text[c.end] == CR
    ensures At(text, c.end, "\r\n")
  {
    hide Run;
    var i := Leave(text, size, c);
    var j := Leave(text, size, Step(text, size, c.(end := i)));
    AtLineEnd(text, c.end);
  }

  lemma {:induction false} FindHeaderLines(text: string, size: nat, c: Config) returns (hs: seq<HeaderLine>)
    requires Ready(text, size, c) && c.state.CrLf? && c.start == c.end && Accepts(text, size, c)
    ensures forall i :: 0 <= i < |hs| ==> HeaderOk(hs[i])
    ensures At(text, c.end, HeadersText(hs)) && At(text, c.end + |HeadersText(hs)|, "\r\n")
    decreases size + 1 - c.end
  {
    hide Run, Step, HeaderOk, HeaderText;
    var i := Leave(text, size, c);
    if text[c.end] == CR {
      FindBlankLine(text, size, c);
      hs := [];
    } else {
      var key := FindHeaderKey(text, size, c);
      ReadHeaderKey(text, size, c, key);
      PadIsThere(text, size, Go(c.(end := c.end + |key|), HeaderValue).(colon := c.end + |key|));
      var h := TakeHeader(text, size, c, key);
      var rest := FindHeaderLines(text, size, Behind(c, h));
      hs := [h] + rest;
      assert hs[1..] == rest;
      AtConcat(text, c.end, HeaderText(h), HeadersText(rest));
    }
  }

  /** A message with this request line so far, and nothing else. */
  function Front(httpMethod: string, blank1: char, url: string, ps: seq<Pair>, blank2: char): Message {
    Message(httpMethod, blank1, url, ps, blank2, "", "", [], "")
  }

  lemma FindFront(text: string, size: nat) returns (httpMethod: string, blank1: char, url: string)
    requires |text| == size + 1 && Fares(text, size, Begin(Start, FRESH))
    ensures MethodText(httpMethod) && IsBlank(blank1) && UrlText(url) && At(text, 0, httpMethod + [blank1] + url)
    ensures var q := |httpMethod| + 1 + |url|; q <= size && (IsBlank(text[q]) || text[q] == '?')
  {
    hide Run, Step, MethodOf, MethodFrom, UrlFrom;
    var c := Begin(Start, FRESH);
    var k, j;
    httpMethod, k := FindMethod(text, size, c);
    ReadMethod(text, size, c, httpMethod, k);
    blank1 := text[|httpMethod|];
    var d := GoOn(c.(end := |httpMethod|), BeforeUrl, c.request.(httpMethod := MethodOf(httpMethod)));
    url, j := FindUrl(text, size, d);
    AtConcat(text, 0, httpMethod, [blank1]);
    AtConcat(text, 0, httpMethod + [blank1], url);
  }

  /** The parameters, if any, and the blank behind them. */
  lemma FindQuery(text: string, size: nat, front: Message) returns (ps: seq<Pair>, blank2: char)
    requires |text| == size + 1 && GoodFront(front) && Fares(text, size, Begin(Start, FRESH))
    requires At(text, 0, front.httpMethod + [front.blank1] + front.url) && front.params != []
    requires var q := |front.httpMethod| + 1 + |front.url|; q <= size && (IsBlank(text[q]) || text[q] == '?')
    ensures forall i :: 0 <= i < |ps| ==> KeyText(ps[i].key) && ValueText(ps[i].value)
    ensures IsBlank(blank2) && At(text, |front.httpMethod| + 1 + |front.url|, QueryText(ps) + [blank2])
  {
    hide Run, Step, GoodFront, ParamsText, KeyText, ValueText, MethodOf, QueryText;
    var q := |front.httpMethod| + 1 + |front.url|;
    if text[q] == '?' {
      ReadFront(text, size, front);
      ps := FindPairs(text, size, Fronted(front));
      var e := q + 1 + |ParamsText(ps)|;
      blank2 := text[e];
      AtChar(text, q, '?');
      AtChar(text, e, blank2);
    } else {
      ps, blank2 := [], text[q];
      AtChar(text, q, blank2);
    }
    QueryParts(text, q, ps, blank2);
  }

  lemma FindTarget(text: string, size: nat) returns (m: Message)
    requires |text| == size + 1 && Fares(text, size, Begin(Start, FRESH))
    ensures GoodTarget(m) && At(text, 0, TargetText(m))
  {
    hide Run, Step, MethodText, UrlText, QueryText, KeyText, ValueText;
    var httpMethod, blank1, url := FindFront(text, size);
    var ps, blank2 := FindQuery(text, size, Front(httpMethod, blank1, url, [Pair("", "")], ' '));
    m := Front(httpMethod, blank1, url, ps, blank2);
    AtConcat(text, 0, httpMethod + [blank1] + url, QueryText(ps) + [blank2]);
  }

  /** Behind the target: protocol, version and the line end. */
  lemma FindProtocolLine(text: string, size: nat, c: Config) returns (protocol: string, version: string)
    requires Ready(text, size, c) && c.state.BeforeProtocol? && c.start == c.end && Fares(text, size, c)
    ensures ProtocolText(protocol) && VersionText(version)
    ensures At(text, c.end, protocol + "/" + version + "\r\n")
  {
    hide Run, Step, VersionOf, ProtocolFrom, VersionText;
    var k;
    protocol, k := FindProtocolText(text, size, c);
    ReadProtocolText(text, size, c, protocol, k);
    var c1 := GoOn(c.(end := c.end + |protocol|), BeforeVersion, c.request.(protocol := protocol));
    version := FindVersion(text, size, c1);
    ReadVersion(text, size, c1, version);
    var c2 := GoOn(c1.(end := c1.end + |version|), WhenCr, c1.request.(version := VersionOf(version)));
    FindLineEnd(text, size, c2);
    AtChar(text, c.end + |protocol|, '/');
    AtLineEnd(text, c2.end - 1);
    LineParts(text, c.end, protocol, version);
  }

  lemma FindHead(text: string, size: nat) returns (m: Message)
    requires |text| == size + 1 && Accepts(text, size, Begin(Start, FRESH))
    ensures Good(m) && m.body == "" && At(text, 0, HeadText(m))
  {
    hide Run, Step, TargetText, HeadersText, WithParams, VersionOf, MethodOf, HeaderOk;
    var t := FindTarget(text, size);
    var colon := ReadTarget(text, size, t);
    var protocol, version := FindProtocolLine(text, size, Targeted(t, colon));
    m := t.(protocol := protocol, version := version, body := "");
    SameTarget(t, m);
    ReadProtocolLine(text, size, m, colon);
    var hs := FindHeaderLines(text, size, Lined(m, colon));
    m := m.(headers := hs);
    SameTarget(t, m);
    HeadParts(text, m);
  }

  lemma SameTarget(a: Message, b: Message)
    requires a.httpMethod == b.httpMethod && a.blank1 == b.blank1 && a.url == b.url
    requires a.params == b.params && a.blank2 == b.blank2
    ensures TargetText(a) == TargetText(b)
  {
  }

  /** The input is a whole request, or one that lacks only its last line feed, which the byte behind
      the input supplies; then no body may have been announced. */
  ghost predicate Sent(m: Message, data: string, past: char) {
    || Printed(m) == data
    || (m.body == "" && HeadText(m) == data + [past] && !DemandsBody(m))
  }

  /** Soundness and completeness: a fresh parser accepts exactly the requests of the grammar. */
  lemma AcceptsIffSent(data: string, past: char)
    ensures Accepts(data + [past], |data|, Begin(Start, FRESH)) <==> exists m :: Good(m) && Sent(m, data, past)
  {
    var text, size := data + [past], |data|;
    if Accepts(text, size, Begin(Start, FRESH)) {
      var m := FindSent(data, past);
    }
    if m :| Good(m) && Sent(m, data, past) {
      WhatIsRead(m, data, past);
    }
  }

  /** The body is everything behind the head. */
  lemma FindSent(data: string, past: char) returns (m: Message)
    requires Accepts(data + [past], |data|, Begin(Start, FRESH))
    ensures Good(m) && Sent(m, data, past)
  {
    hide Run, HeadMeaning;
    var text, size := data + [past], |data|;
    m := FindHead(text, size);
    var q := |HeadText(m)|;
    if q <= size {
      var whole := m.(body := data[q..]);
      SameHead(m, whole);
      assert data == text[..q] + data[q..];
      m := whole;
    } else {
      assert text[..q] == text;
      BorrowedLineFeed(m, data, past);
    }
  }

  lemma SameHead(a: Message, b: Message)
    requires a.(body := b.body) == b
    ensures HeadText(a) == HeadText(b)
  {
    SameTarget(a, b);
  }

  /** What comes out for either form. */
  lemma WhatIsRead(m: Message, data: string, past: char)
    requires Good(m) && Sent(m, data, past)
    ensures Accepts(data + [past], |data|, Begin(Start, FRESH))
    ensures Run(data + [past], |data|, Begin(Start, FRESH)).request
            == if Printed(m) == data then Meaning(m) else HeadMeaning(m)
  {
    hide Run, Meaning, HeadMeaning, HeadText;
    if Printed(m) == data {
      RoundTrip(m, past);
    } else {
      BorrowedLineFeed(m, data, past);
    }
  }

  lemma HeadEndsWithLineFeed(m: Message)
    ensures var h := HeadText(m); |h| > 0 && h[|h| - 1] == LF
  {
    hide TargetText, HeadersText;
  }

  /** Two requests with the same text mean the same: the grammar is not ambiguous. */
  lemma SameTextSameMeaning(a: Message, b: Message)
    requires Good(a) && Good(b) && Printed(a) == Printed(b)
    ensures Meaning(a) == Meaning(b)
  {
    hide *;
    RoundTrip(a, 'x');
    RoundTrip(b, 'x');
  }

  /** An input that is accepted with a byte other than a line feed behind it is accepted alike, as the same
      request, whatever byte stands there. */
  lemma PastIsIrrelevant(data: string, past: char, other: char)
    requires past != LF && Accepts(data + [past], |data|, Begin(Start, FRESH))
    ensures Accepts(data + [other], |data|, Begin(Start, FRESH))
    ensures Run(data + [other], |data|, Begin(Start, FRESH)).request == Run(data + [past], |data|, Begin(Start, FRESH)).request
  {
    hide Run, Meaning, HeadMeaning, HeadText;
    var m := FindSent(data, past);
    HeadEndsWithLineFeed(m);
    assert Printed(m) == data by {
      assert (data + [past])[|data|] == past;
    }
    RoundTrip(m, past);
    RoundTrip(m, other);
  }
}
