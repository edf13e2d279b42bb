/** The requests that the HTTP/1 parser accepts, written down as a grammar that does not mention
    the parser, and what such a request means. */
module HttpGrammar {
  import opened CTypes
  import opened HttpRequests
  import opened HttpContexts

  datatype Pair = Pair(key: string, value: string)

  /** "key: value": one character, usually a blank, stands between the colon and the value. */
  datatype HeaderLine = HeaderLine(key: string, pad: char, value: string)

  /** The parts of a request in the order they are sent. */
  datatype Message = Message(
    httpMethod: string, blank1: char, url: string, params: seq<Pair>, blank2: char,
    protocol: string, version: string, headers: seq<HeaderLine>, body: string)

  // ---- which texts may stand in which place

  /** An upper-case word from k on. White space and line ends in front of it become part of it. */
  ghost predicate MethodFrom(s: string, k: nat) {
    && k < |s|
    && (forall i :: 0 <= i < k ==> IsLineEnd(s[i]) || IsBlank(s[i]))
    && (forall i :: k <= i < |s| ==> IsUpper(s[i]))
  }

  ghost predicate MethodText(s: string) {
    exists k: nat :: MethodFrom(s, k)
  }

  /** A slash and anything but '?' and blanks. Further blanks in front become part of it. */
  ghost predicate UrlFrom(s: string, k: nat) {
    && k < |s| && s[k] == '/'
    && (forall i :: 0 <= i < k ==> IsBlank(s[i]))
    && (forall i :: k < i < |s| ==> s[i] != '?' && !IsBlank(s[i]))
  }

  ghost predicate UrlText(s: string) {
    exists k: nat :: UrlFrom(s, k)
  }

  ghost predicate KeyText(s: string) {
    s != "" && !IsBlank(s[0]) && !IsLineEnd(s[0]) && forall i :: 0 < i < |s| ==> s[i] != '=' && !IsBlank(s[i])
  }

  ghost predicate ValueText(s: string) {
    s != "" && !IsBlank(s[0]) && !IsLineEnd(s[0]) && forall i :: 0 < i < |s| ==> s[i] != '&' && !IsBlank(s[i])
  }

  ghost predicate ProtocolFrom(s: string, k: nat) {
    && k < |s| && !IsBlank(s[k])
    && (forall i :: 0 <= i < k ==> IsBlank(s[i]))
    && (forall i :: k < i < |s| ==> s[i] != '/')
  }

  ghost predicate ProtocolText(s: string) {
    exists k: nat :: ProtocolFrom(s, k)
  }

  ghost predicate VersionText(s: string) {
    s != "" && IsDigit(s[0]) && forall i :: 0 < i < |s| ==> IsDigit(s[i]) || s[i] == '.'
  }

  ghost predicate HeaderOk(h: HeaderLine) {
    && h.key != "" && h.key[0] != CR && !IsBlank(h.key[0])
    && (forall i :: 0 < i < |h.key| ==> h.key[i] != ':')
    && h.pad != CR && (forall i :: 0 <= i < |h.value| ==> h.value[i] != CR)
  }

  ghost predicate GoodFront(m: Message) {
    MethodText(m.httpMethod) && IsBlank(m.blank1) && UrlText(m.url)
  }

  ghost predicate GoodTarget(m: Message) {
    && GoodFront(m) && IsBlank(m.blank2)
    && forall i :: 0 <= i < |m.params| ==> KeyText(m.params[i].key) && ValueText(m.params[i].value)
  }

  ghost predicate Good(m: Message) {
    && GoodTarget(m) && ProtocolText(m.protocol) && VersionText(m.version)
    && forall i :: 0 <= i < |m.headers| ==> HeaderOk(m.headers[i])
  }

  // ---- how it is sent

  function PairText(p: Pair): string {
    p.key + "=" + p.value
  }

  function ParamsText(ps: seq<Pair>): string {
    if ps == [] then ""
    else if |ps| == 1 then PairText(ps[0])
    else PairText(ps[0]) + "&" + ParamsText(ps[1..])
  }

  function HeaderText(h: HeaderLine): string {
    h.key + ":" + [h.pad] + h.value + "\r\n"
  }

  function HeadersText(hs: seq<HeaderLine>): string {
    if hs == [] then "" else HeaderText(hs[0]) + HeadersText(hs[1..])
  }

  function QueryText(ps: seq<Pair>): string {
    if ps == [] then "" else "?" + ParamsText(ps)
  }

  /** "GET /path" and the parameters, if any. */
  function TargetText(m: Message): string {
    (m.httpMethod + [m.blank1] + m.url) + (QueryText(m.params) + [m.blank2])
  }

  /** The request line, the header lines and the blank line. */
  function HeadText(m: Message): string {
    TargetText(m) + (m.protocol + "/" + m.version + "\r\n") + (HeadersText(m.headers) + "\r\n")
  }

  function Printed(m: Message): string {
    HeadText(m) + m.body
  }

  // ---- what it means

  function WithParams(base: map<string, string>, ps: seq<Pair>): map<string, string>
    decreases |ps|
  {
    if ps == [] then base else WithParams(base[ps[0].key := ps[0].value], ps[1..])
  }

  function WithHeaders(base: map<string, string>, hs: seq<HeaderLine>): map<string, string>
    decreases |hs|
  {
    if hs == [] then base else WithHeaders(base[hs[0].key := hs[0].value], hs[1..])
  }

  /** The request when only its head has been read. */
  function HeadMeaning(m: Message): Request {
    Request(MethodOf(m.httpMethod), VersionOf(m.version), WithParams(map[], m.params), m.url,
            m.protocol, WithHeaders(map[], m.headers), "", NoDom)
  }

  /** A body is not read when the (misspelt) length header says there is none. */
  predicate RefusesBody(m: Message) {
    var r := HeadMeaning(m);
    LENGTH_HEADER in r.headers && Atoi(r.headers[LENGTH_HEADER]) <= 0
  }

  predicate DemandsBody(m: Message) {
    var r := HeadMeaning(m);
    LENGTH_HEADER in r.headers && Atoi(r.headers[LENGTH_HEADER]) > 0
  }

  function Meaning(m: Message): Request {
    if RefusesBody(m) then HeadMeaning(m) else WithBody(HeadMeaning(m), m.body)
  }

  /** The last pair with this key has this value. */
  ghost predicate IsLast(ps: seq<Pair>, key: string, value: string) {
    exists i :: 0 <= i < |ps| && ps[i].key == key && ps[i].value == value && forall j :: i < j < |ps| ==> ps[j].key != key
  }

  lemma {:induction false} WithParamsSnoc(base: map<string, string>, ps: seq<Pair>, p: Pair)
    ensures WithParams(base, ps + [p]) == WithParams(base, ps)[p.key := p.value]
    decreases |ps|
  {
    if ps == [] {
      assert ps + [p] == [p] && [p][1..] == [];
    } else {
      assert (ps + [p])[1..] == ps[1..] + [p];
      WithParamsSnoc(base[ps[0].key := ps[0].value], ps[1..], p);
    }
  }

  /** Duplicate keys: the last one wins, and nothing else is in the map. */
  lemma {:induction false} LastParamWins(ps: seq<Pair>, key: string)
    ensures key in WithParams(map[], ps) <==> exists i :: 0 <= i < |ps| && ps[i].key == key
    ensures key in WithParams(map[], ps) ==> IsLast(ps, key, WithParams(map[], ps)[key])
    decreases |ps|
  {
    if ps != [] {
      var n := |ps| - 1;
      assert ps == ps[..n] + [ps[n]];
      WithParamsSnoc(map[], ps[..n], ps[n]);
      LastParamWins(ps[..n], key);
      if ps[n].key != key && key in WithParams(map[], ps) {
        var i :| 0 <= i < n && ps[..n][i].key == key && ps[..n][i].value == WithParams(map[], ps)[key]
                 && forall j :: i < j < n ==> ps[..n][j].key != key;
        assert ps[i].key == key;
        forall j | i < j < |ps| ensures ps[j].key != key {
          assert j < n ==> ps[..n][j] == ps[j];
        }
      } else if ps[n].key != key {
        forall i | 0 <= i < |ps| ensures ps[i].key != key {
          assert i < n ==> ps[..n][i] == ps[i];
        }
      }
    }
  }

  function AsPairs(hs: seq<HeaderLine>): (ps: seq<Pair>)
    ensures |ps| == |hs| && forall i :: 0 <= i < |hs| ==> ps[i] == Pair(hs[i].key, hs[i].value)
  {
    if hs == [] then [] else [Pair(hs[0].key, hs[0].value)] + AsPairs(hs[1..])
  }

  /** Headers go by the same rule. */
  lemma {:induction false} HeadersLikeParams(base: map<string, string>, hs: seq<HeaderLine>)
    ensures WithHeaders(base, hs) == WithParams(base, AsPairs(hs))
    decreases |hs|
  {
    if hs != [] {
      HeadersLikeParams(base[hs[0].key := hs[0].value], hs[1..]);
      assert AsPairs(hs)[1..] == AsPairs(hs[1..]);
    }
  }

  /** The last line of this name has this value. */
  ghost predicate IsLastHeader(hs: seq<HeaderLine>, key: string, value: string) {
    exists i :: 0 <= i < |hs| && hs[i].key == key && hs[i].value == value && forall j :: i < j < |hs| ==> hs[j].key != key
  }

  lemma LastHeaderWins(hs: seq<HeaderLine>, key: string)
    ensures key in WithHeaders(map[], hs) <==> exists i :: 0 <= i < |hs| && hs[i].key == key
    ensures key in WithHeaders(map[], hs) ==> IsLastHeader(hs, key, WithHeaders(map[], hs)[key])
  {
    hide WithHeaders, WithParams;
    var ps := AsPairs(hs);
    HeadersLikeParams(map[], hs);
    LastParamWins(ps, key);
    assert forall i :: 0 <= i < |hs| ==> ps[i].key == hs[i].key && ps[i].value == hs[i].value;
    if i :| 0 <= i < |hs| && hs[i].key == key {
      assert ps[i].key == key;
      assert IsLast(ps, key, WithHeaders(map[], hs)[key]);
    }
  }
}
