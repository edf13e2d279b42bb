/** The request object that the HTTP/1 parser fills, after Code/http1/HttpsRequest.cpp. */
module HttpRequests {

  datatype Method = InvalidMethod | Get | Post | Head | Put | Delete

  datatype Version = UnknownVersion | Http10 | Http11 | Http20 | Http30

  /** What was last handed to the JSON library, whose own result is not modelled. */
  datatype Dom = NoDom | DomOf(text: string)

  function MethodOf(s: string): Method {
    if s == "GET" then Get
    else if s == "POST" then Post
    else if s == "HEAD" then Head
    else if s == "PUT" then Put
    else if s == "DELETE" then Delete
    else InvalidMethod
  }

  function VersionOf(s: string): Version {
    if s == "1.0" then Http10
    else if s == "1.1" then Http11
    else if s == "2.0" then Http20
    else if s == "3.0" then Http30
    else UnknownVersion
  }

  /** A C string ends before its first zero byte. */
  function CString(s: string): string {
    if s == "" || s[0] == '\0' then "" else [s[0]] + CString(s[1..])
  }

  lemma {:induction false} CStringIs(s: string)
    ensures var r := CString(s); r <= s && '\0' !in r && (|r| < |s| ==> s[|r|] == '\0')
  {
    if s != "" && s[0] != '\0' {
      CStringIs(s[1..]);
    }
  }

  /** The fields of a request. */
  datatype Request = Request(
    httpMethod: Method, version: Version, params: map<string, string>, url: string,
    protocol: string, headers: map<string, string>, body: string, dom: Dom)
  {
    function Header(field: string): string {
      if field in headers then headers[field] else ""
    }
  }

  const FRESH := Request(InvalidMethod, UnknownVersion, map[], "", "", map[], "", NoDom)

  class HttpRequest {
    var method_: Method
    var version_: Version
    var request_params_: map<string, string>
    var url_: string
    var protocol_: string
    var headers_: map<string, string>
    var body_: string
    var dom_: Dom

    ghost function View(): Request
      reads this
    {
      Request(method_, version_, request_params_, url_, protocol_, headers_, body_, dom_)
    }

    constructor ()
      ensures View() == FRESH
    {
      method_, version_, request_params_, url_ := InvalidMethod, UnknownVersion, map[], "";
      protocol_, headers_, body_, dom_ := "", map[], "", NoDom;
    }

    method SetMethod(s: string) returns (known: bool)
      modifies this`method_
      ensures View() == old(View()).(httpMethod := MethodOf(s)) && known == (method_ != InvalidMethod)
      ensures (method_ == Get <==> s == "GET") && (method_ == Post <==> s == "POST") && (method_ == Head <==> s == "HEAD")
      ensures (method_ == Put <==> s == "PUT") && (method_ == Delete <==> s == "DELETE")
    {
      if s == "GET" {
        method_ := Get;
      } else if s == "POST" {
        method_ := Post;
      } else if s == "HEAD" {
        method_ := Head;
      } else if s == "PUT" {
        method_ := Put;
      } else if s == "DELETE" {
        method_ := Delete;
      } else {
        method_ := InvalidMethod;
      }
      known := method_ != InvalidMethod;
    }

    method SetVersion(s: string)
      modifies this`version_
      ensures View() == old(View()).(version := VersionOf(s))
      ensures (version_ == Http10 <==> s == "1.0") && (version_ == Http11 <==> s == "1.1")
      ensures (version_ == Http20 <==> s == "2.0") && (version_ == Http30 <==> s == "3.0")
    {
      if s == "1.0" {
        version_ := Http10;
      } else if s == "1.1" {
        version_ := Http11;
      } else if s == "2.0" {
        version_ := Http20;
      } else if s == "3.0" {
        version_ := Http30;
      } else {
        version_ := UnknownVersion;
      }
    }

    method SetUrl(s: string)
      modifies this`url_
      ensures View() == old(View()).(url := s)
    {
      url_ := s;
    }

    method SetProtocol(s: string)
      modifies this`protocol_
      ensures View() == old(View()).(protocol := s)
    {
      protocol_ := s;
    }

    method SetRequestParams(key: string, value: string)
      modifies this`request_params_
      ensures View() == old(View()).(params := old(View()).params[key := value])
    {
      request_params_ := request_params_[key := value];
    }

    method AddHeader(field: string, value: string)
      modifies this`headers_
      ensures View() == old(View()).(headers := old(View()).headers[field := value])
    {
      headers_ := headers_[field := value];
    }

    method GetHeader(field: string) returns (value: string)
      ensures value == View().Header(field) && value == if field in headers_ then headers_[field] else ""
    {
      value := if field in headers_ then headers_[field] else "";
    }

    method SetBody(s: string)
      modifies this`body_
      ensures View() == old(View()).(body := s)
    {
      body_ := s;
    }

    method ParseJson2Dom()
      modifies this`dom_
      ensures View() == old(View()).(dom := DomOf(CString(old(View()).body)))
    {
      dom_ := DomOf(CString(body_));
    }
  }
}
