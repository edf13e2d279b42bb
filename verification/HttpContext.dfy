/** The character-driven HTTP/1 parser of Code/http1/HttpsContext.cpp. */
module HttpContexts {
  import opened CTypes
  import opened HttpRequests

  const CR: char := '\r'
  const LF: char := '\n'

  datatype State =
    | Invalid | Start | InMethod | BeforeUrl | InUrl
    | BeforeParamKey | ParamKey | BeforeParamValue | ParamValue
    | BeforeProtocol | Protocol | BeforeVersion | InVersion
    | HeaderKey | HeaderValue | WhenCr | CrLf | CrLfCr | Body | Complete

  predicate IsLineEnd(c: char) {
    c == CR || c == LF
  }

  /** atoi, on values that fit: leading white space, a sign, digits. */
  function Atoi(s: string): int {
    if s != "" && IsSpace(s[0]) then Atoi(s[1..])
    else if s != "" && s[0] == '-' then 0 - DigitsValue(s[1..], 0)
    else if s != "" && s[0] == '+' then DigitsValue(s[1..], 0)
    else DigitsValue(s, 0)
  }

  function DigitsValue(s: string, sofar: nat): nat
    decreases |s|
  {
    if s == "" || !IsDigit(s[0]) then sofar else DigitsValue(s[1..], 10 * sofar + (s[0] as int - '0' as int))
  }

  /** White space, a sign, digits, and whatever follows them: the number is that of the digits. */
  lemma {:induction false} AtoiReads(white: string, sign: string, digits: string, rest: string)
    requires (forall i :: 0 <= i < |white| ==> IsSpace(white[i])) && (sign == "" || sign == "+" || sign == "-")
    requires (forall i :: 0 <= i < |digits| ==> IsDigit(digits[i])) && (rest != "" ==> !IsDigit(rest[0]))
    requires sign == "" && digits == "" && rest != "" ==> !IsSpace(rest[0]) && rest[0] != '+' && rest[0] != '-'
    ensures Atoi(white + (sign + (digits + rest))) == if sign == "-" then 0 - Decimal(digits) else Decimal(digits)
    decreases |white|
  {
    var tail := sign + (digits + rest);
    if white != "" {
      AtoiReads(white[1..], sign, digits, rest);
      assert (white + tail)[1..] == white[1..] + tail;
    } else {
      assert white + tail == tail;
      DigitsAre(digits, rest, 0);
      assert digits[0..] == digits && digits[..0] == "";
      if sign == "" {
        assert tail == digits + rest;
      } else {
        assert tail[1..] == digits + rest;
      }
    }
  }

  lemma {:induction false} DigitsAre(digits: string, rest: string, k: nat)
    requires (forall i :: 0 <= i < |digits| ==> IsDigit(digits[i])) && (rest != "" ==> !IsDigit(rest[0])) && k <= |digits|
    ensures DigitsValue(digits[k..] + rest, Decimal(digits[..k])) == Decimal(digits)
    decreases |digits| - k
  {
    if k == |digits| {
      assert digits[k..] + rest == rest && digits[..k] == digits;
    } else {
      DigitsAre(digits, rest, k + 1);
      assert (digits[k..] + rest)[1..] == digits[k + 1..] + rest;
      assert digits[..k + 1][..k] == digits[..k];
    }
  }

  /** The header name is misspelt in the source; a correctly spelt one has no effect. */
  const LENGTH_HEADER := "Content-Lenght"
  const TYPE_HEADER := "Content-Type"
  const JSON_TYPE := "application/json"

  function Prefix(s: string, n: nat): string {
    if |s| <= n then s else s[..n]
  }

  /** The parser between two characters: its state, its three cursors as offsets, the request it
      fills, and whether a std::string was asked for with its ends swapped, which throws. */
  datatype Config = Config(state: State, start: nat, colon: nat, end: nat, request: Request, threw: bool) {
    predicate Live() {
      !threw && !state.Invalid? && !state.Complete?
    }

    ghost predicate Ordered() {
      start <= end && colon <= end
    }
  }

  /** The text in front of the cursor: std::string(text + from, text + to). */
  function Cut(text: string, from: nat, to: nat): string
    requires from <= to <= |text|
  {
    text[from..to]
  }

  function Stay(c: Config): Config {
    c.(end := c.end + 1)
  }

  function Go(c: Config, state: State): Config {
    c.(state := state, end := c.end + 1)
  }

  /** The same with the start cursor put behind the current character. */
  function GoOn(c: Config, state: State, request: Request): Config {
    c.(state := state, request := request, start := c.end + 1, end := c.end + 1)
  }

  function Throw(c: Config): Config {
    c.(threw := true)
  }

  /** The two ways a parameter ends. */
  function EndParam(text: string, c: Config, state: State): Config
    requires c.Ordered() && c.end <= |text|
  {
    if c.start > c.colon || c.colon + 1 > c.end then Throw(c)
    else
      GoOn(c, state, c.request.(params := c.request.params[Cut(text, c.start, c.colon) := Cut(text, c.colon + 1, c.end)]))
  }

  /** The blank line is complete: is there a body? */
  function AfterHeaders(size: nat, c: Config): State {
    if LENGTH_HEADER in c.request.headers then
      if Atoi(c.request.headers[LENGTH_HEADER]) > 0 then Body else Complete
    else if c.end < size then Body
    else Complete
  }

  function WithBody(r: Request, body: string): Request {
    var r' := r.(body := body);
    if Prefix(r.Header(TYPE_HEADER), 16) == JSON_TYPE then r'.(dom := DomOf(CString(body))) else r'
  }

  /** One round of the loop. `text` is the input with the byte behind it, which the loop may read
      too; `size` is the length of the input alone. */
  function Step(text: string, size: nat, c: Config): Config
    requires |text| == size + 1 && c.Live() && c.Ordered() && c.end <= size
  {
    var ch := text[c.end];
    match c.state
    case Start =>
      if IsLineEnd(ch) || IsBlank(ch) then Stay(c) else if IsUpper(ch) then Go(c, InMethod) else Go(c, Invalid)
    case InMethod =>
      if IsUpper(ch) then Stay(c)
      else if IsBlank(ch) then GoOn(c, BeforeUrl, c.request.(httpMethod := MethodOf(Cut(text, c.start, c.end))))
      else Go(c, Invalid)
    case BeforeUrl =>
      if ch == '/' then Go(c, InUrl) else if IsBlank(ch) then Stay(c) else Go(c, Invalid)
    case InUrl =>
      if ch == '?' then GoOn(c, BeforeParamKey, c.request.(url := Cut(text, c.start, c.end)))
      else if IsBlank(ch) then GoOn(c, BeforeProtocol, c.request.(url := Cut(text, c.start, c.end)))
      else Stay(c)
    case BeforeParamKey =>
      if IsBlank(ch) || IsLineEnd(ch) then Go(c, Invalid) else Go(c, ParamKey)
    case ParamKey =>
      if ch == '=' then Go(c, BeforeParamValue).(colon := c.end)
      else if IsBlank(ch) then Go(c, Invalid)
      else Stay(c)
    case BeforeParamValue =>
      if IsBlank(ch) || IsLineEnd(ch) then Go(c, Invalid) else Go(c, ParamValue)
    case ParamValue =>
      if ch == '&' then EndParam(text, c.(state := BeforeParamKey), BeforeParamKey)   // the state is set first
      else if IsBlank(ch) then EndParam(text, c, BeforeProtocol)
      else Stay(c)
    case BeforeProtocol =>
      if IsBlank(ch) then Stay(c) else Go(c, Protocol)
    case Protocol =>
      if ch == '/' then GoOn(c, BeforeVersion, c.request.(protocol := Cut(text, c.start, c.end))) else Stay(c)
    case BeforeVersion =>
      if IsDigit(ch) then Go(c, InVersion) else Go(c, Invalid)
    case InVersion =>
      if ch == CR then GoOn(c, WhenCr, c.request.(version := VersionOf(Cut(text, c.start, c.end))))
      else if IsDigit(ch) || ch == '.' then Stay(c)
      else Go(c, Invalid)
    case HeaderKey =>
      if ch == ':' then Go(c, HeaderValue).(colon := c.end) else Stay(c)
    case HeaderValue =>
      if ch == CR then
        if c.start > c.colon || c.colon + 2 > c.end then Throw(c)
        else
          GoOn(c, WhenCr, c.request.(headers := c.request.headers[Cut(text, c.start, c.colon) := Cut(text, c.colon + 2, c.end)]))
      else Stay(c)
    case WhenCr =>
      if ch == LF then GoOn(c, CrLf, c.request) else Go(c, Invalid)
    case CrLf =>
      if ch == CR then Go(c, CrLfCr) else if IsBlank(ch) then Go(c, Invalid) else Go(c, HeaderKey)
    case CrLfCr =>
      if ch == LF then GoOn(c, AfterHeaders(size, c), c.request) else Go(c, Invalid)
    case Body =>
      var length := size - c.end;
      Go(c, Complete).(request := WithBody(c.request, Cut(text, c.start, c.start + length)))
  }

  /** The loop, from a given configuration to its end. */
  function Run(text: string, size: nat, c: Config): Config
    requires |text| == size + 1 && c.Ordered()
    decreases size + 1 - c.end, if c.threw then 0 else 1
  {
    if !c.Live() || c.end > size then c
    else
      StepProgress(text, size, c);
      Run(text, size, Step(text, size, c))
  }

  lemma StepProgress(text: string, size: nat, c: Config)
    requires |text| == size + 1 && c.Live() && c.Ordered() && c.end <= size
    ensures var d := Step(text, size, c);
            d.Ordered() && d.end == if d.threw then c.end else c.end + 1
  {
  }

  lemma RunStep(text: string, size: nat, c: Config)
    requires |text| == size + 1 && c.Live() && c.Ordered() && c.end <= size
    ensures Step(text, size, c).Ordered() && Step(text, size, c).end <= size + 1
    ensures Run(text, size, c) == Run(text, size, Step(text, size, c))
  {
    StepProgress(text, size, c);
  }

  ghost predicate Accepts(text: string, size: nat, c: Config)
    requires |text| == size + 1 && c.Ordered()
  {
    Run(text, size, c).state.Complete? && !Run(text, size, c).threw
  }

  function Begin(state: State, request: Request): Config {
    Config(state, 0, 0, 0, request, false)
  }

  class HttpContext {
    const request_: HttpRequest
    var state_: State

    constructor ()
      ensures state_ == Start && fresh(request_) && request_.View() == FRESH
    {
      state_ := Start;
      request_ := new HttpRequest();
    }

    method GetCompleteRequest() returns (b: bool)
      ensures b == state_.Complete?
    {
      b := state_ == Complete;
    }

    method ResetContextStatus()
      modifies this`state_
      ensures state_ == Start
    {
      state_ := Start;
    }

    /** `past` is the byte behind the input. An exception leaves the state as it was. */
    method ParseRequest(data: string, past: char) returns (complete: bool, threw: bool)
      modifies this`state_, request_
      ensures var c := Run(data + [past], |data|, Begin(old(state_), old(request_.View())));
              && state_ == c.state && request_.View() == c.request && threw == c.threw
              && complete == (c.state.Complete? && !c.threw)
    {
      var text, size := data + [past], |data|;
      var start: nat, colon: nat, end: nat := 0, 0, 0;
      threw := false;
      ghost var c := Begin(state_, request_.View());
      ghost var goal := Run(text, size, c);
      while state_ != Invalid && state_ != Complete && end <= size && !threw
        invariant start <= end && colon <= end && end <= size + 1
        invariant Follows(c, start, colon, end, threw) && Run(text, size, c) == goal
        decreases size + 1 - end, if threw then 0 else 1
      {
        RunStep(text, size, c);
        start, colon, threw := ReadCharacter(text, size, start, colon, end);
        if !threw {
          end := end + 1;
        }
        c := Step(text, size, c);
      }
      complete := state_ == Complete && !threw;
    }

    /** The object after one character, field by field. */
    ghost predicate Follows(c: Config, start: nat, colon: nat, end: nat, threw: bool)
      reads this, request_
    {
      Config(state_, start, colon, end, request_.View(), threw) == c
    }

    /** The switch of the loop. */
    method ReadCharacter(text: string, size: nat, start0: nat, colon0: nat, end: nat)
      returns (start: nat, colon: nat, threw: bool)
      requires |text| == size + 1 && end <= size && start0 <= end && colon0 <= end
      requires state_ != Invalid && state_ != Complete
      modifies this`state_, request_
      ensures Follows(Step(text, size, Config(old(state_), start0, colon0, end, old(request_.View()), false)),
                      start, colon, if threw then end else end + 1, threw)
    {
      match state_
      case Start | InMethod | BeforeUrl | InUrl =>
        start, colon, threw := ReadMethodAndUrl(text, size, start0, colon0, end);
      case BeforeParamKey | ParamKey | BeforeParamValue | ParamValue =>
        start, colon, threw := ReadParams(text, size, start0, colon0, end);
      case BeforeProtocol | Protocol | BeforeVersion | InVersion =>
        start, colon, threw := ReadProtocol(text, size, start0, colon0, end);
      case HeaderKey | HeaderValue | WhenCr | CrLf =>
        start, colon, threw := ReadHeaders(text, size, start0, colon0, end);
      case CrLfCr | Body =>
        start, colon, threw := ReadEnd(text, size, start0, colon0, end);
    }

    /** Method and path. */
    method ReadMethodAndUrl(text: string, size: nat, start0: nat, colon0: nat, end: nat)
      returns (start: nat, colon: nat, threw: bool)
      requires |text| == size + 1 && end <= size && start0 <= end && colon0 <= end
      requires state_.Start? || state_.InMethod? || state_.BeforeUrl? || state_.InUrl?
      modifies this`state_, request_
      ensures Follows(Step(text, size, Config(old(state_), start0, colon0, end, old(request_.View()), false)),
                      start, colon, if threw then end else end + 1, threw)
    {
      start, colon, threw := start0, colon0, false;
      var ch := text[end];
      match state_
      case Start =>
        if IsLineEnd(ch) || IsBlank(ch) {
        } else if IsUpper(ch) {
          state_ := InMethod;
        } else {
          state_ := Invalid;
        }
      case InMethod =>
        if IsUpper(ch) {
        } else if IsBlank(ch) {
          var known := request_.SetMethod(text[start..end]);
          state_ := BeforeUrl;
          start := end + 1;
        } else {
          state_ := Invalid;
        }
      case BeforeUrl =>
        if ch == '/' {
          state_ := InUrl;
        } else if !IsBlank(ch) {
          state_ := Invalid;
        }
      case InUrl =>
        if ch == '?' {
          request_.SetUrl(text[start..end]);
          start := end + 1;
          state_ := BeforeParamKey;
        } else if IsBlank(ch) {
          request_.SetUrl(text[start..end]);
          start := end + 1;
          state_ := BeforeProtocol;
        }
    }

    /** Request parameters. */
    method ReadParams(text: string, size: nat, start0: nat, colon0: nat, end: nat)
      returns (start: nat, colon: nat, threw: bool)
      requires |text| == size + 1 && end <= size && start0 <= end && colon0 <= end
      requires state_.BeforeParamKey? || state_.ParamKey? || state_.BeforeParamValue? || state_.ParamValue?
      modifies this`state_, request_
      ensures Follows(Step(text, size, Config(old(state_), start0, colon0, end, old(request_.View()), false)),
                      start, colon, if threw then end else end + 1, threw)
    {
      hide MethodOf, VersionOf, WithBody, AfterHeaders, IsUpper, IsDigit;
      start, colon, threw := start0, colon0, false;
      var ch := text[end];
      match state_
      case BeforeParamKey =>
        if IsBlank(ch) || ch == CR || ch == LF {
          state_ := Invalid;
        } else {
          state_ := ParamKey;
        }
      case ParamKey =>
        if ch == '=' {
          colon := end;
          state_ := BeforeParamValue;
        } else if IsBlank(ch) {
          state_ := Invalid;
        }
      case BeforeParamValue =>
        if IsBlank(ch) || ch == LF || ch == CR {
          state_ := Invalid;
        } else {
          state_ := ParamValue;
        }
      case ParamValue =>
        if ch == '&' || IsBlank(ch) {
          if ch == '&' {
            state_ := BeforeParamKey;
          }
          if start > colon || colon + 1 > end {
            threw := true;
            return;
          }
          request_.SetRequestParams(text[start..colon], text[colon + 1..end]);
          start := end + 1;
          if IsBlank(ch) {
            state_ := BeforeProtocol;
          }
        }
    }

    /** Protocol and version. */
    method ReadProtocol(text: string, size: nat, start0: nat, colon0: nat, end: nat)
      returns (start: nat, colon: nat, threw: bool)
      requires |text| == size + 1 && end <= size && start0 <= end && colon0 <= end
      requires state_.BeforeProtocol? || state_.Protocol? || state_.BeforeVersion? || state_.InVersion?
      modifies this`state_, request_
      ensures Follows(Step(text, size, Config(old(state_), start0, colon0, end, old(request_.View()), false)),
                      start, colon, if threw then end else end + 1, threw)
    {
      start, colon, threw := start0, colon0, false;
      var ch := text[end];
      match state_
      case BeforeProtocol =>
        if !IsBlank(ch) {
          state_ := Protocol;
        }
      case Protocol =>
        if ch == '/' {
          request_.SetProtocol(text[start..end]);
          start := end + 1;
          state_ := BeforeVersion;
        }
      case BeforeVersion =>
        state_ := if IsDigit(ch) then InVersion else Invalid;
      case InVersion =>
        if ch == CR {
          request_.SetVersion(text[start..end]);
          start := end + 1;
          state_ := WhenCr;
        } else if !(IsDigit(ch) || ch == '.') {
          state_ := Invalid;
        }
    }

    /** Header lines and line ends. */
    method ReadHeaders(text: string, size: nat, start0: nat, colon0: nat, end: nat)
      returns (start: nat, colon: nat, threw: bool)
      requires |text| == size + 1 && end <= size && start0 <= end && colon0 <= end
      requires state_.HeaderKey? || state_.HeaderValue? || state_.WhenCr? || state_.CrLf?
      modifies this`state_, request_
      ensures Follows(Step(text, size, Config(old(state_), start0, colon0, end, old(request_.View()), false)),
                      start, colon, if threw then end else end + 1, threw)
    {
      start, colon, threw := start0, colon0, false;
      var ch := text[end];
      match state_
      case HeaderKey =>
        if ch == ':' {
          colon := end;
          state_ := HeaderValue;
        }
      case HeaderValue =>
        if ch == CR {
          if start > colon || colon + 2 > end {
            threw := true;
            return;
          }
          request_.AddHeader(text[start..colon], text[colon + 2..end]);
          start := end + 1;
          state_ := WhenCr;
        }
      case WhenCr =>
        if ch == LF {
          start := end + 1;
          state_ := CrLf;
        } else {
          state_ := Invalid;
        }
      case CrLf =>
        if ch == CR {
          state_ := CrLfCr;
        } else if IsBlank(ch) {
          state_ := Invalid;
        } else {
          state_ := HeaderKey;
        }
    }

    /** The blank line and the body. */
    method ReadEnd(text: string, size: nat, start0: nat, colon0: nat, end: nat)
      returns (start: nat, colon: nat, threw: bool)
      requires |text| == size + 1 && end <= size && start0 <= end && colon0 <= end
      requires state_.CrLfCr? || state_.Body?
      modifies this`state_, request_
      ensures Follows(Step(text, size, Config(old(state_), start0, colon0, end, old(request_.View()), false)),
                      start, colon, if threw then end else end + 1, threw)
    {
      start, colon, threw := start0, colon0, false;
      var ch := text[end];
      match state_
      case CrLfCr =>
        if ch == LF {
          if LENGTH_HEADER in request_.headers_ {
            var length := request_.GetHeader(LENGTH_HEADER);
            state_ := if Atoi(length) > 0 then Body else Complete;
          } else {
            state_ := if end < size then Body else Complete;
          }
          start := end + 1;
        } else {
          state_ := Invalid;
        }
      case Body =>
        var length := size - end;
        request_.SetBody(text[start..start + length]);
        state_ := Complete;
        var kind := request_.GetHeader(TYPE_HEADER);
        if Prefix(kind, 16) == JSON_TYPE {
          request_.ParseJson2Dom();
        }
    }
  }
}
