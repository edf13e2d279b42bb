/** The parser reads back every request of the grammar, and accepts nothing else. */
module HttpRoundTrip {
  import opened CTypes
  import opened HttpRequests
  import opened HttpContexts
  import opened HttpGrammar

  /** s stands in the text at p. */
  ghost predicate At(text: string, p: nat, s: string) {
    p + |s| <= |text| && text[p..p + |s|] == s
  }

  lemma AtChars(text: string, p: nat, s: string)
    requires At(text, p, s)
    ensures forall i :: 0 <= i < |s| ==> text[p + i] == s[i]
    ensures forall i :: p <= i < p + |s| ==> text[i] == s[i - p]
  {
    forall i | 0 <= i < |s| ensures text[p + i] == s[i] {
      assert text[p..p + |s|][i] == s[i];
    }
  }

  lemma AtConcat(text: string, p: nat, a: string, b: string)
    ensures At(text, p, a + b) <==> At(text, p, a) && At(text, p + |a|, b)
  {
    if At(text, p, a + b) {
      AtChars(text, p, a + b);
      assert text[p..p + |a|] == (a + b)[..|a|] == a;
      assert text[p + |a|..p + |a| + |b|] == (a + b)[|a|..] == b;
    }
    if At(text, p, a) && At(text, p + |a|, b) {
      assert text[p..p + |a| + |b|] == text[p..p + |a|] + text[p + |a|..p + |a| + |b|];
    }
  }

  lemma AtChar(text: string, p: nat, c: char)
    ensures At(text, p, [c]) <==> p < |text| && text[p] == c
  {
  }

  ghost predicate Ready(text: string, size: nat, c: Config) {
    |text| == size + 1 && c.Ordered() && c.Live()
  }

  /** Characters that move only the end cursor. */
  predicate Stays(state: State, ch: char) {
    match state
    case Start => IsLineEnd(ch) || IsBlank(ch)
    case InMethod => IsUpper(ch)
    case BeforeUrl => IsBlank(ch)
    case InUrl => ch != '?' && !IsBlank(ch)
    case ParamKey => ch != '=' && !IsBlank(ch)
    case ParamValue => ch != '&' && !IsBlank(ch)
    case BeforeProtocol => IsBlank(ch)
    case Protocol => ch != '/'
    case InVersion => IsDigit(ch) || ch == '.'
    case HeaderKey => ch != ':'
    case HeaderValue => ch != CR
    case _ => false
  }

  lemma StayStep(text: string, size: nat, c: Config)
    requires Ready(text, size, c) && c.end <= size && Stays(c.state, text[c.end])
    ensures Step(text, size, c) == Stay(c)
  {
  }

  lemma {:induction false} Skip(text: string, size: nat, c: Config, j: nat)
    requires Ready(text, size, c) && c.end <= j <= size + 1
    requires forall k :: c.end <= k < j ==> Stays(c.state, text[k])
    ensures Run(text, size, c) == Run(text, size, c.(end := j))
    decreases j - c.end
  {
    hide Run, Step, Stays;
    if c.end < j {
      StayStep(text, size, c);
      RunStep(text, size, c);
      Skip(text, size, Stay(c), j);
    }
  }

  /** Reading on to j, and one character more. */
  lemma SkipStep(text: string, size: nat, c: Config, j: nat)
    requires Ready(text, size, c) && c.end <= j <= size
    requires forall k :: c.end <= k < j ==> Stays(c.state, text[k])
    ensures var d := Step(text, size, c.(end := j)); d.Ordered() && Run(text, size, c) == Run(text, size, d)
  {
    Skip(text, size, c, j);
    RunStep(text, size, c.(end := j));
  }

  // ---- reading each part

  lemma ReadMethod(text: string, size: nat, c: Config, m: string, k: nat)
    requires Ready(text, size, c) && c.state.Start? && c.start == c.end
    requires At(text, c.end, m) && MethodFrom(m, k)
    requires c.end + |m| <= size && IsBlank(text[c.end + |m|])
    ensures var d := GoOn(c.(end := c.end + |m|), BeforeUrl, c.request.(httpMethod := MethodOf(m)));
            Run(text, size, c) == Run(text, size, d)
  {
    hide Run;
    AtChars(text, c.end, m);
    SkipStep(text, size, c, c.end + k);
    var d := Step(text, size, c.(end := c.end + k));
    SkipStep(text, size, d, c.end + |m|);
  }

  lemma ReadUrl(text: string, size: nat, c: Config, u: string, k: nat)
    requires Ready(text, size, c) && c.state.BeforeUrl? && c.start == c.end
    requires At(text, c.end, u) && UrlFrom(u, k)
    requires c.end + |u| <= size && (IsBlank(text[c.end + |u|]) || text[c.end + |u|] == '?')
    ensures var d := GoOn(c.(end := c.end + |u|), if text[c.end + |u|] == '?' then BeforeParamKey else BeforeProtocol,
                          c.request.(url := u));
            Run(text, size, c) == Run(text, size, d)
  {
    hide Run;
    AtChars(text, c.end, u);
    SkipStep(text, size, c, c.end + k);
    var d := Step(text, size, c.(end := c.end + k));
    SkipStep(text, size, d, c.end + |u|);
  }

  lemma ReadKey(text: string, size: nat, c: Config, key: string)
    requires Ready(text, size, c) && c.state.BeforeParamKey? && c.start == c.end
    requires At(text, c.end, key) && KeyText(key)
    requires c.end + |key| <= size && text[c.end + |key|] == '='
    ensures var d := Go(c.(end := c.end + |key|), BeforeParamValue).(colon := c.end + |key|);
            Run(text, size, c) == Run(text, size, d)
  {
    hide Run;
    AtChars(text, c.end, key);
    RunStep(text, size, c);
    var d := Step(text, size, c);
    SkipStep(text, size, d, c.end + |key|);
  }

  lemma ReadValue(text: string, size: nat, c: Config, key: string, value: string)
    requires Ready(text, size, c) && c.state.BeforeParamValue? && c.start <= c.colon && c.colon + 1 == c.end
    requires c.end + |value| <= size && text[c.start..c.colon] == key
    requires At(text, c.end, value) && ValueText(value) && (IsBlank(text[c.end + |value|]) || text[c.end + |value|] == '&')
    ensures var d := GoOn(c.(end := c.end + |value|), if text[c.end + |value|] == '&' then BeforeParamKey else BeforeProtocol,
                          c.request.(params := c.request.params[key := value]));
            Run(text, size, c) == Run(text, size, d)
  {
    hide Run;
    AtChars(text, c.end, value);
    RunStep(text, size, c);
    var d := Step(text, size, c);
    SkipStep(text, size, d, c.end + |value|);
  }

  lemma ReadPair(text: string, size: nat, c: Config, p: Pair)
    requires Ready(text, size, c) && c.state.BeforeParamKey? && c.start == c.end
    requires KeyText(p.key) && ValueText(p.value) && At(text, c.end, PairText(p))
    requires var q := c.end + |PairText(p)|; q <= size && (IsBlank(text[q]) || text[q] == '&')
    ensures var q := c.end + |PairText(p)|;
            var d := GoOn(c.(end := q), if text[q] == '&' then BeforeParamKey else BeforeProtocol,
                          c.request.(params := c.request.params[p.key := p.value])).(colon := c.end + |p.key|);
            Run(text, size, c) == Run(text, size, d)
  {
    hide Run;
    AtConcat(text, c.end, p.key + "=", p.value);
    AtConcat(text, c.end, p.key, "=");
    AtChar(text, c.end + |p.key|, '=');
    ReadKey(text, size, c, p.key);
    var d := Go(c.(end := c.end + |p.key|), BeforeParamValue).(colon := c.end + |p.key|);
    ReadValue(text, size, d, p.key, p.value);
  }

  /** All parameters, up to the blank behind them. */
  lemma {:induction false} ReadPairs(text: string, size: nat, c: Config, ps: seq<Pair>) returns (colon: nat)
    requires Ready(text, size, c) && c.state.BeforeParamKey? && c.start == c.end
    requires ps != [] && forall i :: 0 <= i < |ps| ==> KeyText(ps[i].key) && ValueText(ps[i].value)
    requires At(text, c.end, ParamsText(ps))
    requires var q := c.end + |ParamsText(ps)|; q <= size && IsBlank(text[q])
    ensures var d := GoOn(c.(end := c.end + |ParamsText(ps)|, colon := colon), BeforeProtocol,
                          c.request.(params := WithParams(c.request.params, ps)));
            d.Ordered() && Run(text, size, c) == Run(text, size, d)
    decreases |ps|
  {
    hide Run;
    colon := c.end + |ps[0].key|;
    if |ps| == 1 {
      assert ps[1..] == [];
      ReadPair(text, size, c, ps[0]);
    } else {
      AtConcat(text, c.end, PairText(ps[0]) + "&", ParamsText(ps[1..]));
      AtConcat(text, c.end, PairText(ps[0]), "&");
      var q := c.end + |PairText(ps[0])|;
      AtChar(text, q, '&');
      ReadPair(text, size, c, ps[0]);
      var d := GoOn(c.(end := q), BeforeParamKey,
                    c.request.(params := c.request.params[ps[0].key := ps[0].value])).(colon := colon);
      colon := ReadPairs(text, size, d, ps[1..]);
    }
  }

  lemma ReadProtocolText(text: string, size: nat, c: Config, s: string, k: nat)
    requires Ready(text, size, c) && c.state.BeforeProtocol? && c.start == c.end
    requires At(text, c.end, s) && ProtocolFrom(s, k)
    requires c.end + |s| <= size && text[c.end + |s|] == '/'
    ensures var d := GoOn(c.(end := c.end + |s|), BeforeVersion, c.request.(protocol := s));
            Run(text, size, c) == Run(text, size, d)
  {
    hide Run;
    AtChars(text, c.end, s);
    SkipStep(text, size, c, c.end + k);
    var d := Step(text, size, c.(end := c.end + k));
    SkipStep(text, size, d, c.end + |s|);
  }

  lemma ReadVersion(text: string, size: nat, c: Config, v: string)
    requires Ready(text, size, c) && c.state.BeforeVersion? && c.start == c.end
    requires At(text, c.end, v) && VersionText(v)
    requires c.end + |v| <= size && text[c.end + |v|] == CR
    ensures var d := GoOn(c.(end := c.end + |v|), WhenCr, c.request.(version := VersionOf(v)));
            Run(text, size, c) == Run(text, size, d)
  {
    hide Run;
    AtChars(text, c.end, v);
    RunStep(text, size, c);
    SkipStep(text, size, Step(text, size, c), c.end + |v|);
  }

  lemma ReadHeaderKey(text: string, size: nat, c: Config, key: string)
    requires Ready(text, size, c) && c.state.CrLf? && c.start == c.end
    requires At(text, c.end, key) && key != "" && key[0] != CR && !IsBlank(key[0])
    requires forall i :: 0 < i < |key| ==> key[i] != ':'
    requires c.end + |key| <= size && text[c.end + |key|] == ':'
    ensures var d := Go(c.(end := c.end + |key|), HeaderValue).(colon := c.end + |key|);
            Run(text, size, c) == Run(text, size, d)
  {
    hide Run;
    AtChars(text, c.end, key);
    RunStep(text, size, c);
    SkipStep(text, size, Step(text, size, c), c.end + |key|);
  }

  lemma ReadHeaderValue(text: string, size: nat, c: Config, h: HeaderLine)
    requires Ready(text, size, c) && c.state.HeaderValue? && c.start <= c.colon && c.colon + 1 == c.end
    requires HeaderOk(h) && At(text, c.end, [h.pad] + h.value) && text[c.start..c.colon] == h.key
    requires var e := c.end + 1 + |h.value|; e <= size && text[e] == CR
    ensures var e := c.end + 1 + |h.value|;
            var d := GoOn(c.(end := e), WhenCr, c.request.(headers := c.request.headers[h.key := h.value]));
            Run(text, size, c) == Run(text, size, d)
  {
    hide Run;
    var e := c.end + 1 + |h.value|;
    AtConcat(text, c.end, [h.pad], h.value);
    AtChars(text, c.end, [h.pad] + h.value);
    SkipStep(text, size, c, e);
    assert text[c.colon + 2..e] == h.value;
  }

  lemma ReadLineEnd(text: string, size: nat, c: Config)
    requires Ready(text, size, c) && c.state.WhenCr? && c.end <= size && text[c.end] == LF
    ensures Run(text, size, c) == Run(text, size, GoOn(c, CrLf, c.request))
  {
    hide Run;
    RunStep(text, size, c);
  }

  lemma HeaderParts(text: string, p: nat, h: HeaderLine)
    ensures At(text, p, HeaderText(h)) <==>
            && At(text, p, h.key) && At(text, p + |h.key|, ":") && At(text, p + |h.key| + 1, [h.pad] + h.value)
            && At(text, p + |h.key| + 2 + |h.value|, "\r\n")
  {
    AtConcat(text, p, h.key + ":" + [h.pad] + h.value, "\r\n");
    assert h.key + ":" + [h.pad] + h.value == h.key + ":" + ([h.pad] + h.value);
    AtConcat(text, p, h.key + ":", [h.pad] + h.value);
    AtConcat(text, p, h.key, ":");
  }

  lemma AtLineEnd(text: string, p: nat)
    ensures At(text, p, "\r\n") <==> p + 2 <= |text| && text[p] == CR && text[p + 1] == LF
  {
  }

  /** Where a header line ends. */
  function Behind(c: Config, h: HeaderLine): Config {
    var q := c.end + |HeaderText(h)|;
    c.(start := q, end := q, colon := c.end + |h.key|,
       request := c.request.(headers := c.request.headers[h.key := h.value]))
  }

  lemma ReadHeader(text: string, size: nat, c: Config, h: HeaderLine)
    requires Ready(text, size, c) && c.state.CrLf? && c.start == c.end
    requires HeaderOk(h) && At(text, c.end, HeaderText(h)) && c.end + |HeaderText(h)| <= size + 1
    ensures Behind(c, h).Ordered() && Run(text, size, c) == Run(text, size, Behind(c, h))
  {
    hide Run, Step;
    var p, e := c.end, c.end + |h.key| + 2 + |h.value|;
    HeaderParts(text, p, h);
    AtChar(text, p + |h.key|, ':');
    AtLineEnd(text, e);
    ReadHeaderKey(text, size, c, h.key);
    var c1 := Go(c.(end := p + |h.key|), HeaderValue).(colon := p + |h.key|);
    ReadHeaderValue(text, size, c1, h);
    var c2 := GoOn(c1.(end := e), WhenCr, c.request.(headers := c.request.headers[h.key := h.value]));
    ReadLineEnd(text, size, c2);
  }

  lemma {:induction false} ReadHeaderLines(text: string, size: nat, c: Config, hs: seq<HeaderLine>) returns (colon: nat)
    requires Ready(text, size, c) && c.state.CrLf? && c.start == c.end
    requires forall i :: 0 <= i < |hs| ==> HeaderOk(hs[i])
    requires At(text, c.end, HeadersText(hs)) && c.end + |HeadersText(hs)| <= size + 1
    ensures var q := c.end + |HeadersText(hs)|;
            var d := c.(start := q, end := q, colon := colon,
                        request := c.request.(headers := WithHeaders(c.request.headers, hs)));
            d.Ordered() && Run(text, size, c) == Run(text, size, d)
    decreases |hs|
  {
    hide Run;
    colon := c.colon;
    if hs != [] {
      AtConcat(text, c.end, HeaderText(hs[0]), HeadersText(hs[1..]));
      ReadHeader(text, size, c, hs[0]);
      colon := ReadHeaderLines(text, size, Behind(c, hs[0]), hs[1..]);
    }
  }

  // ---- the head and the whole request

  lemma FrontParts(text: string, m: Message)
    ensures At(text, 0, m.httpMethod + [m.blank1] + m.url) <==>
            At(text, 0, m.httpMethod) && At(text, |m.httpMethod|, [m.blank1]) && At(text, |m.httpMethod| + 1, m.url)
  {
    AtConcat(text, 0, m.httpMethod + [m.blank1], m.url);
    AtConcat(text, 0, m.httpMethod, [m.blank1]);
  }

  lemma QueryParts(text: string, q: nat, ps: seq<Pair>, blank: char)
    ensures At(text, q, QueryText(ps) + [blank]) <==>
            if ps == [] then At(text, q, [blank])
            else At(text, q, "?") && At(text, q + 1, ParamsText(ps)) && At(text, q + 1 + |ParamsText(ps)|, [blank])
  {
    hide ParamsText;
    if ps == [] {
      assert "" + [blank] == [blank];
    } else {
      AtConcat(text, q, "?" + ParamsText(ps), [blank]);
      AtConcat(text, q, "?", ParamsText(ps));
    }
  }

  /** Where the target ends: method, path and parameters are stored. */
  function Targeted(m: Message, colon: nat): Config {
    var q := |TargetText(m)|;
    Config(BeforeProtocol, q, colon, q,
           FRESH.(httpMethod := MethodOf(m.httpMethod), url := m.url, params := WithParams(map[], m.params)), false)
  }

  /** Where the path ends. */
  function Fronted(m: Message): Config {
    var q := |m.httpMethod| + 1 + |m.url|;
    Config(if m.params == [] then BeforeProtocol else BeforeParamKey, q + 1, 0, q + 1,
           FRESH.(httpMethod := MethodOf(m.httpMethod), url := m.url), false)
  }

  lemma ReadFront(text: string, size: nat, m: Message)
    requires |text| == size + 1 && GoodFront(m) && At(text, 0, m.httpMethod + [m.blank1] + m.url)
    requires var q := |m.httpMethod| + 1 + |m.url|;
             q <= size && if m.params == [] then IsBlank(text[q]) else text[q] == '?'
    ensures Run(text, size, Begin(Start, FRESH)) == Run(text, size, Fronted(m))
  {
    hide Run, Step, MethodOf, MethodFrom, UrlFrom;
    FrontParts(text, m);
    AtChar(text, |m.httpMethod|, m.blank1);
    var j: nat :| MethodFrom(m.httpMethod, j);
    var k: nat :| UrlFrom(m.url, k);
    var c := Begin(Start, FRESH);
    ReadMethod(text, size, c, m.httpMethod, j);
    ReadUrl(text, size, GoOn(c.(end := |m.httpMethod|), BeforeUrl, c.request.(httpMethod := MethodOf(m.httpMethod))), m.url, k);
  }

  lemma TargetParts(text: string, m: Message)
    requires At(text, 0, TargetText(m))
    ensures At(text, 0, m.httpMethod + [m.blank1] + m.url)
    ensures var q := |m.httpMethod| + 1 + |m.url|;
            if m.params == [] then |TargetText(m)| == q + 1 && At(text, q, [m.blank2])
            else var e := q + 1 + |ParamsText(m.params)|;
                 |TargetText(m)| == e + 1 && At(text, q, "?") && At(text, q + 1, ParamsText(m.params)) && At(text, e, [m.blank2])
  {
    hide ParamsText;
    var q := |m.httpMethod| + 1 + |m.url|;
    AtConcat(text, 0, m.httpMethod + [m.blank1] + m.url, QueryText(m.params) + [m.blank2]);
    QueryParts(text, q, m.params, m.blank2);
  }

  lemma ReadTarget(text: string, size: nat, m: Message) returns (colon: nat)
    requires |text| == size + 1 && GoodTarget(m) && At(text, 0, TargetText(m))
    ensures Targeted(m, colon).Ordered()
    ensures Run(text, size, Begin(Start, FRESH)) == Run(text, size, Targeted(m, colon))
  {
    hide Run, Step, ParamsText, TargetText, WithParams, MethodOf;
    var q := |m.httpMethod| + 1 + |m.url|;
    TargetParts(text, m);
    colon := 0;
    if m.params == [] {
      AtChar(text, q, m.blank2);
      ReadFront(text, size, m);
      NoParams(m);
    } else {
      AtChar(text, q, '?');
      AtChar(text, q + 1 + |ParamsText(m.params)|, m.blank2);
      ReadFront(text, size, m);
      colon := ReadPairs(text, size, Fronted(m), m.params);
    }
  }

  lemma NoParams(m: Message)
    ensures m.params == [] ==> WithParams(map[], m.params) == map[]
  {
  }

  /** Where the request line ends. */
  function Lined(m: Message, colon: nat): Config {
    var c := Targeted(m, colon);
    var q := c.end + |m.protocol + "/" + m.version + "\r\n"|;
    Config(CrLf, q, colon, q, c.request.(protocol := m.protocol, version := VersionOf(m.version)), false)
  }

  lemma LineParts(text: string, p: nat, protocol: string, version: string)
    ensures At(text, p, protocol + "/" + version + "\r\n") <==>
            && At(text, p, protocol) && At(text, p + |protocol|, "/") && At(text, p + |protocol| + 1, version)
            && At(text, p + |protocol| + 1 + |version|, "\r\n")
  {
    AtConcat(text, p, protocol + "/" + version, "\r\n");
    AtConcat(text, p, protocol + "/", version);
    AtConcat(text, p, protocol, "/");
  }

  lemma ReadProtocolLine(text: string, size: nat, m: Message, colon: nat)
    requires |text| == size + 1 && ProtocolText(m.protocol) && VersionText(m.version) && Targeted(m, colon).Ordered()
    requires At(text, |TargetText(m)|, m.protocol + "/" + m.version + "\r\n") && Lined(m, colon).end <= size + 1
    ensures Lined(m, colon).Ordered()
    ensures Run(text, size, Targeted(m, colon)) == Run(text, size, Lined(m, colon))
  {
    hide Run, Step, TargetText, WithParams, ProtocolFrom, VersionText, VersionOf;
    var c := Targeted(m, colon);
    LineParts(text, c.end, m.protocol, m.version);
    var k: nat :| ProtocolFrom(m.protocol, k);
    AtChar(text, c.end + |m.protocol|, '/');
    ReadProtocolText(text, size, c, m.protocol, k);
    var c1 := GoOn(c.(end := c.end + |m.protocol|), BeforeVersion, c.request.(protocol := m.protocol));
    AtLineEnd(text, c1.end + |m.version|);
    ReadVersion(text, size, c1, m.version);
    var c2 := GoOn(c1.(end := c1.end + |m.version|), WhenCr, c1.request.(version := VersionOf(m.version)));
    ReadLineEnd(text, size, c2);
  }

  /** Where the head ends, its last line feed at `end`. */
  function Headed(m: Message, size: nat, colon: nat): Config {
    var q := |HeadText(m)|;
    var r := HeadMeaning(m);
    var next := if LENGTH_HEADER in r.headers then
                  if Atoi(r.headers[LENGTH_HEADER]) > 0 then Body else Complete
                else if q <= size then Body else Complete;
    Config(next, q, colon, q, r, false)
  }

  lemma ReadBlankLine(text: string, size: nat, c: Config)
    requires Ready(text, size, c) && c.state.CrLf? && At(text, c.end, "\r\n")
    ensures var d := c.(end := c.end + 1);
            Run(text, size, c) == Run(text, size, GoOn(d, AfterHeaders(size, d), c.request))
  {
    hide Run;
    AtLineEnd(text, c.end);
    RunStep(text, size, c);
    RunStep(text, size, Step(text, size, c));
  }

  lemma HeadParts(text: string, m: Message)
    ensures At(text, 0, HeadText(m)) <==>
            var p := |TargetText(m)|;
            var q := p + |m.protocol + "/" + m.version + "\r\n"|;
            && At(text, 0, TargetText(m)) && At(text, p, m.protocol + "/" + m.version + "\r\n")
            && At(text, q, HeadersText(m.headers)) && At(text, q + |HeadersText(m.headers)|, "\r\n")
  {
    hide TargetText, HeadersText;
    var line := m.protocol + "/" + m.version + "\r\n";
    AtConcat(text, 0, TargetText(m) + line, HeadersText(m.headers) + "\r\n");
    AtConcat(text, 0, TargetText(m), line);
    AtConcat(text, |TargetText(m) + line|, HeadersText(m.headers), "\r\n");
  }

  lemma ReadHead(text: string, size: nat, m: Message) returns (colon: nat)
    requires |text| == size + 1 && Good(m) && At(text, 0, HeadText(m))
    ensures Headed(m, size, colon).Ordered()
    ensures Run(text, size, Begin(Start, FRESH)) == Run(text, size, Headed(m, size, colon))
  {
    hide Run, Step, TargetText, HeadersText, WithParams, WithHeaders;
    HeadParts(text, m);
    colon := ReadTarget(text, size, m);
    ReadProtocolLine(text, size, m, colon);
    var c := Lined(m, colon);
    colon := ReadHeaderLines(text, size, c, m.headers);
    var q := c.end + |HeadersText(m.headers)|;
    var d := c.(start := q, end := q, colon := colon,
                request := c.request.(headers := WithHeaders(c.request.headers, m.headers)));
    ReadBlankLine(text, size, d);
  }

  /** The round trip: every request of the grammar is read back as exactly what it means, whatever
      byte stands behind it. */
  lemma RoundTrip(m: Message, past: char)
    requires Good(m)
    ensures var c := Run(Printed(m) + [past], |Printed(m)|, Begin(Start, FRESH));
            c.state.Complete? && !c.threw && c.request == Meaning(m)
  {
    hide HeadText, WithParams, WithHeaders, Atoi, MethodOf, VersionOf;
    var text, size := Printed(m) + [past], |Printed(m)|;
    AtConcat(text, 0, HeadText(m), m.body + [past]);
    assert text == HeadText(m) + (m.body + [past]);
    var colon := ReadHead(text, size, m);
    var c := Headed(m, size, colon);
    if c.state.Body? {
      RunStep(text, size, c);
      assert text[c.start..size] == m.body;
    }
  }

  /** What the request line stored, field by field. */
  lemma LineAsSent(m: Message, past: char)
    requires Good(m)
    ensures var r := Run(Printed(m) + [past], |Printed(m)|, Begin(Start, FRESH)).request;
      && (r.httpMethod == Get <==> m.httpMethod == "GET") && (r.httpMethod == Post <==> m.httpMethod == "POST")
      && (r.httpMethod == Head <==> m.httpMethod == "HEAD") && (r.httpMethod == Put <==> m.httpMethod == "PUT")
      && (r.httpMethod == Delete <==> m.httpMethod == "DELETE")
      && (r.version == Http10 <==> m.version == "1.0") && (r.version == Http11 <==> m.version == "1.1")
      && (r.version == Http20 <==> m.version == "2.0") && (r.version == Http30 <==> m.version == "3.0")
      && r.url == m.url && r.protocol == m.protocol
  {
    hide Run, Printed, Good, Atoi, WithHeaders, WithParams;
    RoundTrip(m, past);
  }

  /** The stored parameters and headers: those that were sent, each with its last value. */
  lemma PairsAsSent(m: Message, past: char, key: string)
    requires Good(m)
    ensures var r := Run(Printed(m) + [past], |Printed(m)|, Begin(Start, FRESH)).request;
      && (key in r.params <==> exists i :: 0 <= i < |m.params| && m.params[i].key == key)
      && (key in r.params ==> IsLast(m.params, key, r.params[key]))
      && (key in r.headers <==> exists i :: 0 <= i < |m.headers| && m.headers[i].key == key)
      && (key in r.headers ==> IsLastHeader(m.headers, key, r.headers[key]))
  {
    hide Run, Printed, Good, Atoi, MethodOf, VersionOf, WithHeaders, WithParams, IsLast, IsLastHeader;
    RoundTrip(m, past);
    LastParamWins(m.params, key);
    LastHeaderWins(m.headers, key);
  }

  /** The body: none when the misspelt header announces none, all remaining bytes otherwise; and it goes to
      the JSON library, up to its first zero byte, exactly when its type begins like that of JSON. */
  lemma BodyAsSent(m: Message, past: char)
    requires Good(m)
    ensures var r := Run(Printed(m) + [past], |Printed(m)|, Begin(Start, FRESH)).request;
      if "Content-Lenght" in r.headers && Atoi(r.headers["Content-Lenght"]) <= 0 then r.body == "" && r.dom == NoDom
      else
        && r.body == m.body
        && if "Content-Type" in r.headers && "application/json" <= r.headers["Content-Type"] then
             r.dom.DomOf? && r.dom.text <= m.body && '\0' !in r.dom.text
             && (|r.dom.text| < |m.body| ==> m.body[|r.dom.text|] == '\0')
           else r.dom == NoDom
  {
    hide Run, Printed, Good, Atoi, MethodOf, VersionOf, WithHeaders, WithParams, CString;
    RoundTrip(m, past);
    CStringIs(m.body);
    var h := WithHeaders(map[], m.headers);
    if "Content-Type" in h {
      PrefixIs(h["Content-Type"], "application/json");
    }
  }

  lemma PrefixIs(s: string, t: string)
    ensures Prefix(s, |t|) == t <==> t <= s
  {
  }

  const STANDARD_LENGTH := "Content-Length"

  /** Without the misspelt header the body is all bytes behind the blank line, whatever length a correctly
      spelt header announces; so the stored length is the announced one exactly when the bytes are as many
      as announced. */
  lemma LengthIsIgnored(m: Message, past: char)
    requires Good(m) && LENGTH_HEADER !in WithHeaders(map[], m.headers)
    ensures var r := Run(Printed(m) + [past], |Printed(m)|, Begin(Start, FRESH)).request;
            && r.body == m.body && r.headers == WithHeaders(map[], m.headers)
            && (STANDARD_LENGTH in r.headers ==>
                  (|r.body| == Atoi(r.headers[STANDARD_LENGTH]) <==> |m.body| == Atoi(r.headers[STANDARD_LENGTH])))
  {
    hide Run, Printed, Good, Atoi, WithHeaders, WithParams, MethodOf, VersionOf;
    RoundTrip(m, past);
  }

  /** A request without its last line feed, which happens to be the byte behind the input. */
  lemma BorrowedLineFeed(m: Message, data: string, past: char)
    requires Good(m) && HeadText(m) == data + [past]
    ensures var c := Run(data + [past], |data|, Begin(Start, FRESH));
            (c.state.Complete? && !c.threw <==> !DemandsBody(m)) && c.request == HeadMeaning(m)
  {
    hide HeadText, WithParams, WithHeaders, Atoi, MethodOf, VersionOf;
    var text, size := data + [past], |data|;
    assert At(text, 0, HeadText(m));
    var colon := ReadHead(text, size, m);
  }
}
