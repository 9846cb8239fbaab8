/** The HTTP request reader of the device's web server (UPnP/Parsing.cpp):
    the request line of section 3.1.1 of RFC 7230, the query split, the
    method table, the header lines up to the first blank one, and the rule
    that turns a request body into arguments. The socket is replaced by the
    request line, the header lines that follow it and the body bytes the
    client then has available. */
module Parsing {
  import opened Text

  datatype HTTPMethod =
    | HTTP_ANY | HTTP_GET | HTTP_POST | HTTP_PUT | HTTP_PATCH | HTTP_DELETE | HTTP_OPTIONS
    | HTTP_SUBSCRIBE | HTTP_UNSUBSCRIBE

  // ---------------------------------------------------------------------
  // Arduino String searches

  /** `String::indexOf(c, from)`: the first index at or after `from` that
      holds `c`, or -1. */
  function IndexFrom(s: string, c: char, from: nat): (r: int)
    ensures r == -1 || (from <= r < |s| && s[r] == c)
    ensures r == -1 ==> forall i :: from <= i < |s| ==> s[i] != c
    ensures r != -1 ==> forall i :: from <= i < r ==> s[i] != c
    decreases |s| - from
  {
    if from >= |s| then -1 else if s[from] == c then from else IndexFrom(s, c, from + 1)
  }

  function IndexOf(s: string, c: char): int
  {
    IndexFrom(s, c, 0)
  }

  /** `String::substring(from)`: empty when `from` is past the end. */
  function Tail(s: string, from: nat): string
  {
    if from >= |s| then "" else s[from..]
  }

  predicate StartsWith(s: string, prefix: string)
  {
    |prefix| <= |s| && s[..|prefix|] == prefix
  }

  // ---------------------------------------------------------------------
  // The request line

  datatype RequestLine = RequestLine(methodStr: string, url: string)

  /** The method is the text before the first space and the URL the text
      between it and the next space; without two spaces the line is invalid. */
  function SplitRequestLine(req: string): Option<RequestLine>
  {
    var start := IndexOf(req, ' ');
    if start == -1 then None
    else
      var end := IndexFrom(req, ' ', start + 1);
      if end == -1 then None else Some(RequestLine(req[..start], req[start + 1..end]))
  }

  /** A request line is refused exactly when it holds fewer than two spaces. */
  lemma RequestLineNeedsTwoSpaces(req: string)
    ensures SplitRequestLine(req).Some?
      <==> exists i, j :: 0 <= i < j < |req| && req[i] == ' ' && req[j] == ' '
  {
    if i, j :| 0 <= i < j < |req| && req[i] == ' ' && req[j] == ' ' {
      var start := IndexOf(req, ' ');
      assert start != -1 && start <= i;
      assert IndexFrom(req, ' ', start + 1) != -1 by {
        assert start + 1 <= j < |req| && req[j] == ' ';
      }
    }
  }

  /** Reading a line built from a space-free method and URL gives them back,
      whatever follows the second space. */
  lemma RequestLineRoundTrip(methodStr: string, url: string, rest: string)
    requires ' ' !in methodStr && ' ' !in url
    ensures SplitRequestLine(methodStr + " " + url + " " + rest) == Some(RequestLine(methodStr, url))
  {
    var req := methodStr + " " + url + " " + rest;
    var start := |methodStr|;
    assert req[start] == ' ' && forall i :: 0 <= i < start ==> req[i] == methodStr[i];
    assert IndexOf(req, ' ') == start;
    var end := start + 1 + |url|;
    assert req[end] == ' ' && forall i :: start + 1 <= i < end ==> req[i] == url[i - start - 1];
    assert IndexFrom(req, ' ', start + 1) == end;
    assert req[..start] == methodStr;
    assert req[start + 1..end] == url;
  }

  /** Conversely, an accepted line is its method, a space, its URL, a space
      and the rest, with no space inside method or URL. */
  lemma RequestLineParts(req: string)
    requires SplitRequestLine(req).Some?
    ensures var r := SplitRequestLine(req).value;
      ' ' !in r.methodStr && ' ' !in r.url
      && req == r.methodStr + " " + r.url + " " + req[|r.methodStr| + |r.url| + 2..]
  {
    var r := SplitRequestLine(req).value;
    var start := IndexOf(req, ' ');
    var end := IndexFrom(req, ' ', start + 1);
    assert req == req[..start] + [req[start]] + req[start + 1..end] + [req[end]] + req[end + 1..];
  }

  /** The path is the URL before the first `?` and the search string the text
      after it; a URL without `?` is all path. */
  function SplitQuery(url: string): (string, string)
  {
    var q := IndexOf(url, '?');
    if q == -1 then (url, "") else (url[..q], Tail(url, q + 1))
  }

  lemma QueryParts(url: string)
    ensures var (path, search) := SplitQuery(url);
      if '?' in url then url == path + "?" + search && '?' !in path
      else path == url && search == ""
  {
    var q := IndexOf(url, '?');
    if q != -1 {
      assert url == url[..q] + "?" + url[q + 1..];
    }
  }

  /** Five method names are told apart; everything else is served as GET. */
  function MethodOf(methodStr: string): HTTPMethod
  {
    if methodStr == "POST" then HTTP_POST
    else if methodStr == "DELETE" then HTTP_DELETE
    else if methodStr == "OPTIONS" then HTTP_OPTIONS
    else if methodStr == "PUT" then HTTP_PUT
    else if methodStr == "PATCH" then HTTP_PATCH
    else HTTP_GET
  }

  lemma MethodDefaultsToGet(methodStr: string)
    ensures MethodOf(methodStr) == HTTP_GET
      <==> methodStr !in {"POST", "DELETE", "OPTIONS", "PUT", "PATCH"}
    ensures MethodOf(methodStr) in {HTTP_GET, HTTP_POST, HTTP_DELETE, HTTP_OPTIONS, HTTP_PUT, HTTP_PATCH}
  {
  }

  /** The methods after whose headers the body is read. */
  predicate HasBody(m: HTTPMethod)
  {
    m == HTTP_POST || m == HTTP_PUT || m == HTTP_PATCH || m == HTTP_DELETE
  }

  // ---------------------------------------------------------------------
  // Header lines

  /** A header line keeps the loop going when it is not empty and holds a
      colon; a missing line reads as empty. */
  predicate Continues(line: string)
  {
    line != "" && IndexOf(line, ':') != -1
  }

  /** How many lines the header loop consumes as headers. */
  function HeaderEnd(lines: seq<string>): (k: nat)
    ensures k <= |lines|
    ensures forall j :: 0 <= j < k ==> Continues(lines[j])
    ensures k < |lines| ==> !Continues(lines[k])
  {
    if lines == [] || !Continues(lines[0]) then 0
    else
      var k := 1 + HeaderEnd(lines[1..]);
      assert forall j :: 1 <= j < k ==> lines[j] == lines[1..][j - 1];
      k
  }

  /** The text before the first colon. */
  function HeaderName(line: string): string
    requires Continues(line)
  {
    line[..IndexOf(line, ':')]
  }

  /** The text from two characters after the colon: one space is assumed. */
  function HeaderValue(line: string): string
    requires Continues(line)
  {
    Tail(line, IndexOf(line, ':') + 2)
  }

  /** A line written as `name: value` with a colon-free name reads back as
      that name and value. */
  lemma HeaderRoundTrip(name: string, value: string)
    requires ':' !in name
    ensures Continues(name + ": " + value)
    ensures HeaderName(name + ": " + value) == name && HeaderValue(name + ": " + value) == value
  {
    var line := name + ": " + value;
    assert line[|name|] == ':' && forall i :: 0 <= i < |name| ==> line[i] == name[i];
    assert IndexOf(line, ':') == |name|;
    assert line[..|name|] == name;
    if |name| + 2 < |line| {
      assert line[|name| + 2..] == value;
    }
  }

  /** What the header loop remembers: the Host value and, for a request with
      a body, whether a multipart form was announced and its boundary. */
  datatype HeaderState = HeaderState(host: string, isForm: bool, boundary: string)

  function HeaderStep(st: HeaderState, line: string, withBody: bool): HeaderState
    requires Continues(line)
  {
    var name := HeaderName(line);
    var value := HeaderValue(line);
    if withBody && name == "Content-Type" then
      if StartsWith(value, "text/plain") then st.(isForm := false)
      else if StartsWith(value, "multipart/form-data") then
        st.(isForm := true, boundary := Tail(value, IndexOf(value, '=') + 1))
      else st
    else if withBody && name == "Content-Length" then st
    else if name == "Host" then st.(host := value)
    else st
  }

  function HeadersAfter(lines: seq<string>, st: HeaderState, withBody: bool): HeaderState
    requires forall j :: 0 <= j < |lines| ==> Continues(lines[j])
  {
    if lines == [] then st
    else HeaderStep(HeadersAfter(lines[..|lines| - 1], st, withBody), lines[|lines| - 1], withBody)
  }

  /** Only a Host line changes the remembered host. */
  lemma StepHost(st: HeaderState, line: string, withBody: bool)
    requires Continues(line)
    ensures HeaderStep(st, line, withBody).host
      == if HeaderName(line) == "Host" then HeaderValue(line) else st.host
  {
    var name := HeaderName(line);
    if name == "Host" {
      assert name != "Content-Type" && name != "Content-Length";
    }
  }

  /** With no Host line the host is kept. */
  lemma {:induction false} HostKept(lines: seq<string>, st: HeaderState, withBody: bool)
    requires forall j :: 0 <= j < |lines| ==> Continues(lines[j])
    requires forall j :: 0 <= j < |lines| ==> HeaderName(lines[j]) != "Host"
    ensures HeadersAfter(lines, st, withBody).host == st.host
    decreases |lines|
  {
    if lines != [] {
      var front := lines[..|lines| - 1];
      assert forall j :: 0 <= j < |front| ==> front[j] == lines[j];
      HostKept(front, st, withBody);
      StepHost(HeadersAfter(front, st, withBody), lines[|lines| - 1], withBody);
    }
  }

  /** The host is the value of the last Host line read, for every method. */
  lemma {:induction false} HostIsLastHostLine(lines: seq<string>, st: HeaderState, withBody: bool, j: nat)
    requires forall i :: 0 <= i < |lines| ==> Continues(lines[i])
    requires j < |lines| && HeaderName(lines[j]) == "Host"
    requires forall i :: j < i < |lines| ==> HeaderName(lines[i]) != "Host"
    ensures HeadersAfter(lines, st, withBody).host == HeaderValue(lines[j])
    decreases |lines|
  {
    var front := lines[..|lines| - 1];
    assert forall i :: 0 <= i < |front| ==> front[i] == lines[i];
    StepHost(HeadersAfter(front, st, withBody), lines[|lines| - 1], withBody);
    if j < |lines| - 1 {
      HostIsLastHostLine(front, st, withBody, j);
    }
  }

  /** The header loop: read lines until an empty one or one without a colon. */
  method ReadHeaders(lines: seq<string>, start: HeaderState, withBody: bool)
    returns (k: nat, st: HeaderState)
    ensures k == HeaderEnd(lines)
    ensures st == HeadersAfter(lines[..k], start, withBody)
  {
    k := 0;
    st := start;
    while true
      invariant k <= HeaderEnd(lines)
      invariant st == HeadersAfter(lines[..k], start, withBody)
      decreases |lines| - k
    {
      var line := if k < |lines| then lines[k] else "";
      if line == "" {
        break;
      }
      var div := IndexOf(line, ':');
      if div == -1 {
        break;
      }
      assert lines[..k + 1][..k] == lines[..k];
      st := HeaderStep(st, line, withBody);
      k := k + 1;
    }
  }

  // ---------------------------------------------------------------------
  // The body

  /** The search string after a body that is not a multipart form: joined
      with `&`, and marked `plain=` when the body (as a C string) looks like
      JSON or holds no `=`. */
  function PlainArgs(search: string, body: string): string
  {
    var joined := if search != "" then search + "&" else search;
    var text := CStr(body);
    if (text != [] && (text[0] == '{' || text[0] == '[')) || '=' !in text then joined + "plain=" + text
    else joined + text
  }

  lemma PlainArgsParts(search: string, body: string)
    ensures var r := PlainArgs(search, body);
      var text := CStr(body);
      var joined := if search != "" then search + "&" else search;
      var plain := (text != [] && (text[0] == '{' || text[0] == '[')) || '=' !in text;
      StartsWith(r, joined) && r[|r| - |text|..] == text
      && (plain <==> |r| == |joined| + 6 + |text| && r[|joined|..|joined| + 6] == "plain=")
  {
  }

  // ---------------------------------------------------------------------
  // The request reader

  datatype ServerState = ServerState(
    currentUri: string, currentMethod: HTTPMethod, hostHeader: string,
    plainBuf: Option<string>, plainLen: nat)

  datatype Parsed = Parsed(ok: bool, args: string, state: ServerState)

  /** What `_parseRequest` leaves behind: the fields, the search string it
      assembles, and whether the request line was valid. */
  function ParseSpec(s: ServerState, req: string, lines: seq<string>, body: string): Parsed
  {
    match SplitRequestLine(req)
    case None => Parsed(false, "", s)
    case Some(line) =>
      var (path, search) := SplitQuery(line.url);
      var m := MethodOf(line.methodStr);
      var k := HeaderEnd(lines);
      var h := HeadersAfter(lines[..k], HeaderState(s.hostHeader, false, ""), HasBody(m));
      var s' := s.(currentUri := path, currentMethod := m, hostHeader := h.host);
      if HasBody(m) && !h.isForm then
        Parsed(true, PlainArgs(search, body), s'.(plainBuf := Some(body), plainLen := |body|))
      else Parsed(true, search, s')
  }

  /** A refused request line changes nothing; an accepted one always sets
      the URI and the method, and the body is read only for a method that
      carries one and a body that is not a multipart form. */
  lemma ParseOutcome(s: ServerState, req: string, lines: seq<string>, body: string)
    ensures var p := ParseSpec(s, req, lines, body);
      (!p.ok <==> (SplitRequestLine(req).None?))
      && (!p.ok ==> p.state == s)
      && (p.ok ==>
            p.state.currentUri == SplitQuery(SplitRequestLine(req).value.url).0
            && p.state.currentMethod == MethodOf(SplitRequestLine(req).value.methodStr))
      && (p.state.plainBuf != s.plainBuf ==> p.ok && HasBody(p.state.currentMethod) && p.state.plainBuf == Some(body))
  {
  }

  /** The two space searches of the request line. */
  method ReadRequestLine(req: string) returns (line: Option<RequestLine>)
    ensures line == SplitRequestLine(req)
  {
    var start := IndexOf(req, ' ');
    var end := IndexFrom(req, ' ', start + 1);
    if start == -1 || end == -1 {
      return None;
    }
    return Some(RequestLine(req[..start], req[start + 1..end]));
  }

  /** The query split of the URL. */
  method SplitUrl(url: string) returns (path: string, search: string)
    ensures (path, search) == SplitQuery(url)
  {
    path, search := url, "";
    var q := IndexOf(url, '?');
    if q != -1 {
      search := Tail(url, q + 1);
      path := url[..q];
    }
  }

  class WebServer {
    var currentUri: string
    var currentMethod: HTTPMethod
    var hostHeader: string
    var plainBuf: Option<string>
    var plainLen: nat

    function State(): ServerState
      reads this
    {
      ServerState(currentUri, currentMethod, hostHeader, plainBuf, plainLen)
    }

    method ParseRequest(req: string, lines: seq<string>, body: string) returns (ok: bool, args: string)
      modifies this
      ensures Parsed(ok, args, State()) == ParseSpec(old(State()), req, lines, body)
    {
      var line := ReadRequestLine(req);
      if line.None? {
        return false, "";
      }
      var url, search := SplitUrl(line.value.url);
      currentUri := url;
      var m := MethodOf(line.value.methodStr);
      currentMethod := m;
      var k, h := ReadHeaders(lines, HeaderState(hostHeader, false, ""), HasBody(m));
      hostHeader := h.host;
      if HasBody(m) && !h.isForm {
        args := PlainArgs(search, body);
        plainBuf := Some(body);
        plainLen := |body|;
      } else {
        args := search;
      }
      ok := true;
    }
  }
}
