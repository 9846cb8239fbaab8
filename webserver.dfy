/** The response side of the library web server (libraries/UPnP/WebServer.cpp):
    the chain of request handlers, the not-found fallback, response header
    assembly, chunked writes, request argument lookup and the file-suffix
    to MIME type map. The TCP client is a writer that reports, call by call,
    how many bytes it took. */
module Web {
  import opened Text
  import opened Parsing

  const HTTP_DOWNLOAD_UNIT_SIZE := 1460
  /** `(size_t) -1` and `(size_t) -2` on the 32-bit target. */
  const CONTENT_LENGTH_UNKNOWN := 0xFFFF_FFFF
  const CONTENT_LENGTH_NOT_SET := 0xFFFF_FFFE
  /** `UPNP_END_METHODS`: the number of slots in `upnp_headers[]`. */
  const UPNP_END_METHODS := 13

  // ---------------------------------------------------------------------
  // The client

  /** The connection a response goes to. `accepts[i]` is what the i-th write
      from now on reports as sent; a write past the end reports 0. */
  class Client {
    var writes: seq<string>
    var accepts: seq<nat>

    constructor (accepts: seq<nat>)
      ensures writes == [] && this.accepts == accepts
    {
      writes := [];
      this.accepts := accepts;
    }

    method Write(data: string) returns (sent: nat)
      modifies this
      ensures writes == old(writes) + [data]
      ensures sent == Taken(old(accepts), |data|) && sent <= |data|
      ensures accepts == Rest(old(accepts))
    {
      writes := writes + [data];
      sent := Taken(accepts, |data|);
      accepts := Rest(accepts);
    }
  }

  function Taken(accepts: seq<nat>, n: nat): (k: nat)
    ensures k <= n
  {
    if accepts == [] then 0 else Min(accepts[0], n)
  }

  function Rest(accepts: seq<nat>): seq<nat>
  {
    if accepts == [] then [] else accepts[1..]
  }

  // ---------------------------------------------------------------------
  // sendContent: chunked writes that stop at the first refused write

  datatype Delivery = Delivery(calls: seq<string>, delivered: nat, accepts: seq<nat>)

  /** The writes `sendContent` makes for `content` from offset `start` on,
      how many bytes the client took, and what is left of its answers. */
  function ContentWrites(content: string, start: nat, accepts: seq<nat>): (d: Delivery)
    requires start <= |content|
    ensures d.delivered <= |content| - start
    decreases |content| - start
  {
    if start == |content| then Delivery([], 0, accepts)
    else
      var n := Min(|content| - start, HTTP_DOWNLOAD_UNIT_SIZE);
      var sent := Taken(accepts, n);
      if sent == 0 then Delivery([content[start..start + n]], 0, Rest(accepts))
      else
        var d := ContentWrites(content, start + sent, Rest(accepts));
        Delivery([content[start..start + n]] + d.calls, sent + d.delivered, d.accepts)
  }

  /** One write of `sendContent` at `start`: the unit there, then either the
      stop or the writes from the first byte the client did not take. */
  lemma ContentWritesStep(content: string, start: nat, accepts: seq<nat>)
    requires start < |content|
    ensures var n := Min(|content| - start, HTTP_DOWNLOAD_UNIT_SIZE);
      var sent := Taken(accepts, n);
      var d := ContentWrites(content, start, accepts);
      start + sent <= |content|
      && (sent == 0 ==> d.calls == [content[start..start + n]] && d.accepts == Rest(accepts))
      && (sent > 0 ==> var next := ContentWrites(content, start + sent, Rest(accepts));
            d.calls == [content[start..start + n]] + next.calls && d.accepts == next.accepts)
  {
  }

  /** Every write asks for at most 1460 bytes and for at least one. */
  lemma {:induction false} ContentWritesBounded(content: string, start: nat, accepts: seq<nat>)
    requires start <= |content|
    ensures forall c :: c in ContentWrites(content, start, accepts).calls ==> 0 < |c| <= HTTP_DOWNLOAD_UNIT_SIZE
    decreases |content| - start
  {
    if start < |content| {
      var sent := Taken(accepts, Min(|content| - start, HTTP_DOWNLOAD_UNIT_SIZE));
      if sent != 0 {
        ContentWritesBounded(content, start + sent, Rest(accepts));
      }
    }
  }

  /** A client that takes whole units every time receives all the content. */
  lemma {:induction false} ContentWritesComplete(content: string, start: nat, accepts: seq<nat>)
    requires start <= |content|
    requires forall i :: 0 <= i < |accepts| ==> accepts[i] >= HTTP_DOWNLOAD_UNIT_SIZE
    requires |content| - start <= |accepts| * HTTP_DOWNLOAD_UNIT_SIZE
    ensures ContentWrites(content, start, accepts).delivered == |content| - start
    decreases |content| - start
  {
    if start < |content| {
      var n := Min(|content| - start, HTTP_DOWNLOAD_UNIT_SIZE);
      assert Taken(accepts, n) == n;
      ContentWritesComplete(content, start + n, Rest(accepts));
    }
  }

  /** A client that refuses the first write stops the transfer there. */
  lemma RefusedWriteStops(content: string, start: nat, accepts: seq<nat>)
    requires start < |content| && (accepts == [] || accepts[0] == 0)
    ensures ContentWrites(content, start, accepts).calls
      == [content[start..start + Min(|content| - start, HTTP_DOWNLOAD_UNIT_SIZE)]]
    ensures ContentWrites(content, start, accepts).delivered == 0
  {
  }

  // ---------------------------------------------------------------------
  // sendContent_P(content, size): fixed units, answers ignored

  /** The units `sendContent_P` copies out of `content` from offset `start`
      on, in order. */
  function Units(content: string, start: nat): (us: seq<string>)
    requires start <= |content|
    ensures forall u :: u in us ==> 0 < |u| <= HTTP_DOWNLOAD_UNIT_SIZE
    decreases |content| - start
  {
    if start == |content| then []
    else
      var n := Min(|content| - start, HTTP_DOWNLOAD_UNIT_SIZE);
      [content[start..start + n]] + Units(content, start + n)
  }

  function Concat(parts: seq<string>): string
  {
    if parts == [] then [] else parts[0] + Concat(parts[1..])
  }

  /** The units put back together are the content: exactly the bytes from
      `start` on go out, in order. */
  lemma {:induction false} UnitsCoverContent(content: string, start: nat)
    requires start <= |content|
    ensures Concat(Units(content, start)) == content[start..]
    decreases |content| - start
  {
    if start < |content| {
      var n := Min(|content| - start, HTTP_DOWNLOAD_UNIT_SIZE);
      UnitsCoverContent(content, start + n);
      assert content[start..] == content[start..start + n] + content[start + n..];
    }
  }

  /** Every unit but the last is a full one. */
  lemma {:induction false} UnitsAreFull(content: string, start: nat)
    requires start <= |content|
    ensures var us := Units(content, start);
      forall i :: 0 <= i < |us| - 1 ==> |us[i]| == HTTP_DOWNLOAD_UNIT_SIZE
    decreases |content| - start
  {
    if start < |content| {
      var n := Min(|content| - start, HTTP_DOWNLOAD_UNIT_SIZE);
      UnitsAreFull(content, start + n);
      var us := Units(content, start);
      assert us == [content[start..start + n]] + Units(content, start + n);
      assert |us| > 1 ==> start + n < |content|;
      forall i | 0 <= i < |us| - 1
        ensures |us[i]| == HTTP_DOWNLOAD_UNIT_SIZE
      {
        if i > 0 {
          assert us[i] == Units(content, start + n)[i - 1];
        }
      }
    }
  }

  // ---------------------------------------------------------------------
  // Status line and headers

  /** `_responseCodeToString`. */
  function ResponseText(code: int): string
  {
    if code == 101 then "Switching Protocols"
    else if code == 200 then "OK"
    else if code == 403 then "Forbidden"
    else if code == 404 then "Not found"
    else if code == 500 then "Fail"
    else ""
  }

  lemma ResponseTextKnownCodes(code: int)
    ensures ResponseText(code) != "" <==> code in {101, 200, 403, 404, 500}
  {
  }

  /** One header line as `sendHeader` formats it. */
  function HeaderLine(name: string, value: string): string
  {
    name + ": " + value + "\r\n"
  }

  function StatusLine(code: int): string
  {
    "HTTP/1.1 " + IntToString(code) + " " + ResponseText(code) + "\r\n"
  }

  /** Where the parts of a five-part concatenation start. */
  lemma Parts5(a: string, b: string, c: string, d: string, e: string)
    ensures (a + b + c + d + e)[..|a|] == a
    ensures (a + b + c + d + e)[|a|..] == b + (c + d + e)
  {
  }

  /** A reader of the status line gets the code back. */
  lemma StatusLineCode(code: nat)
    ensures var s := StatusLine(code); s[..9] == "HTTP/1.1 " && Atoi(s[9..]) == code
  {
    var t := ResponseText(code);
    Parts5("HTTP/1.1 ", NatToString(code), " ", t, "\r\n");
    assert (" " + t + "\r\n")[0] == ' ';
    AtoiOfNatToString(code, " " + t + "\r\n");
  }

  /** The Content-Length line `_prepareHeader` adds: from the length set
      beforehand when there is one, else from the argument when it is
      positive, else none. */
  function LengthLine(setLength: nat, contentLength: nat): string
  {
    if setLength != CONTENT_LENGTH_UNKNOWN && setLength != CONTENT_LENGTH_NOT_SET then
      HeaderLine("Content-Length", NatToString(setLength))
    else if contentLength > 0 then HeaderLine("Content-Length", NatToString(contentLength))
    else ""
  }

  /** The response head: status line, Content-Type first, the headers queued
      so far, the length, the two fixed headers and a blank line. */
  function PreparedHeader(code: int, contentType: Option<string>, setLength: nat, contentLength: nat,
                          pending: string): string
  {
    var t := if contentType.None? then "text/html" else contentType.value;
    StatusLine(code) + HeaderLine("Content-Type", t) + pending + LengthLine(setLength, contentLength)
      + HeaderLine("Connection", "close") + HeaderLine("Access-Control-Allow-Origin", "*") + "\r\n"
  }

  /** The head starts with the status line and the Content-Type header, then
      the queued headers, and ends with the fixed headers and a blank line. */
  lemma PreparedHeaderLayout(code: int, contentType: Option<string>, setLength: nat, contentLength: nat,
                             pending: string)
    ensures var h := PreparedHeader(code, contentType, setLength, contentLength, pending);
      var t := if contentType.None? then "text/html" else contentType.value;
      var front := StatusLine(code) + HeaderLine("Content-Type", t);
      var tail := HeaderLine("Connection", "close") + HeaderLine("Access-Control-Allow-Origin", "*") + "\r\n";
      |front| + |pending| + |tail| <= |h|
      && h[..|front|] == front
      && h[|front|..|front| + |pending|] == pending
      && h[|h| - |tail|..] == tail
  {
    var t := if contentType.None? then "text/html" else contentType.value;
    var front := StatusLine(code) + HeaderLine("Content-Type", t);
    var tail := HeaderLine("Connection", "close") + HeaderLine("Access-Control-Allow-Origin", "*") + "\r\n";
    Regroup7(StatusLine(code), HeaderLine("Content-Type", t), pending, LengthLine(setLength, contentLength),
             HeaderLine("Connection", "close"), HeaderLine("Access-Control-Allow-Origin", "*"), "\r\n");
    Layout4(front, pending, LengthLine(setLength, contentLength), tail);
  }

  lemma Regroup7(a: string, b: string, c: string, d: string, e: string, f: string, g: string)
    ensures a + b + c + d + e + f + g == (a + b) + c + d + (e + f + g)
  {
  }

  /** Where the first, second and last parts of a four-part concatenation sit. */
  lemma Layout4(a: string, b: string, c: string, d: string)
    ensures var x := a + b + c + d;
      |a| + |b| + |d| <= |x| && x[..|a|] == a && x[|a|..|a| + |b|] == b && x[|x| - |d|..] == d
  {
  }

  /** The length a reader finds in the Content-Length line is the one set
      beforehand when there is one, else the argument. */
  lemma LengthLineValue(setLength: nat, contentLength: nat)
    ensures var l := LengthLine(setLength, contentLength);
      var isSet := setLength != CONTENT_LENGTH_UNKNOWN && setLength != CONTENT_LENGTH_NOT_SET;
      (l == "" <==> !isSet && contentLength == 0)
      && (l != "" ==> l[..16] == "Content-Length: "
                      && Atoi(l[16..]) == if isSet then setLength else contentLength)
  {
    var isSet := setLength != CONTENT_LENGTH_UNKNOWN && setLength != CONTENT_LENGTH_NOT_SET;
    if isSet || contentLength > 0 {
      var n := if isSet then setLength else contentLength;
      var l := LengthLine(setLength, contentLength);
      assert l == "Content-Length: " + (NatToString(n) + "\r\n");
      assert l[16..] == NatToString(n) + "\r\n";
      AtoiOfNatToString(n, "\r\n");
    }
  }

  // ---------------------------------------------------------------------
  // Arguments

  datatype RequestArgument = RequestArgument(key: string, value: string)

  /** The index of the first argument named `name`. */
  function FirstNamed(args: seq<RequestArgument>, name: string): (r: Option<nat>)
    ensures r.Some? ==>
      r.value < |args| && args[r.value].key == name && (forall j :: 0 <= j < r.value ==> args[j].key != name)
    ensures r.None? ==> forall j :: 0 <= j < |args| ==> args[j].key != name
  {
    if args == [] then None
    else if args[0].key == name then Some(0)
    else
      var r := FirstNamed(args[1..], name);
      if r.None? then None else Some(r.value + 1)
  }

  // ---------------------------------------------------------------------
  // File suffixes

  /** `lastChar`: the offset of the terminating NUL. */
  method LastChar(s: string) returns (p: nat)
    requires NUL in s
    ensures p == |CStr(s)|
  {
    p := 0;
    while s[p] != NUL
      invariant p <= |CStr(s)| && s[..p] == CStr(s)[..p]
      decreases |CStr(s)| - p
    {
      p := p + 1;
    }
  }

  /** `endsWith(last, suffix)` with `last` at the end of `name`; a null
      suffix never matches. The source reads before `name` when the suffix
      is longer, so the caller must not ask that. */
  predicate EndsWith(name: string, suffix: Option<string>)
    requires suffix.Some? ==> |suffix.value| <= |name|
  {
    suffix.Some? && name[|name| - |suffix.value|..] == suffix.value
  }

  /** The suffixes `getContentType` tries, in order, with their types. */
  const MimeTable: seq<(string, string)> := [
    (".htm", "text/html"), (".xml", "text/xml"), (".html", "text/html"),
    (".css", "text/css"), (".js", "application/javascript"), (".png", "image/png"),
    (".gif", "image/gif"), (".jpg", "image/jpeg"), (".ico", "image/x-icon"),
    (".xml", "text/xml"), (".pdf", "application/x-pdf"), (".zip", "application/x-zip"),
    (".gz", "application/x-gzip")]

  /** Every suffix tried from entry `i` on, up to the first that matches, is
      no longer than the name. */
  predicate Testable(name: string, i: nat)
    decreases |MimeTable| - i
  {
    i >= |MimeTable|
    || (|MimeTable[i].0| <= |name| && (EndsWith(name, Some(MimeTable[i].0)) || Testable(name, i + 1)))
  }

  function ContentTypeFrom(name: string, i: nat): string
    requires Testable(name, i)
    decreases |MimeTable| - i
  {
    if i >= |MimeTable| then "text/plain"
    else if EndsWith(name, Some(MimeTable[i].0)) then MimeTable[i].1
    else ContentTypeFrom(name, i + 1)
  }

  /** `getContentType` of the C string in `filename`. */
  function ContentType(filename: string): string
    requires Testable(CStr(filename), 0)
  {
    ContentTypeFrom(CStr(filename), 0)
  }

  /** No suffix from entry `i` up to entry `k` ends the name, and each of them
      is no longer than it. */
  predicate NoSuffixIn(name: string, i: nat, k: nat)
    requires k <= |MimeTable|
  {
    forall j :: i <= j < k ==> |MimeTable[j].0| <= |name| && !EndsWith(name, Some(MimeTable[j].0))
  }

  /** The type is the one of the first suffix in the table that ends the
      name, and text/plain when none does. */
  lemma {:induction false} ContentTypeIsFirstMatch(name: string, i: nat)
    requires Testable(name, i)
    ensures forall k ::
      (i <= k < |MimeTable| && |MimeTable[k].0| <= |name| && EndsWith(name, Some(MimeTable[k].0))
       && NoSuffixIn(name, i, k))
      ==> ContentTypeFrom(name, i) == MimeTable[k].1
    ensures NoSuffixIn(name, i, |MimeTable|) ==> ContentTypeFrom(name, i) == "text/plain"
    decreases |MimeTable| - i
  {
    if i < |MimeTable| {
      if EndsWith(name, Some(MimeTable[i].0)) {
        forall k | i < k <= |MimeTable|
          ensures !NoSuffixIn(name, i, k)
        {
          assert i <= i < k;
        }
      } else {
        ContentTypeIsFirstMatch(name, i + 1);
        forall k | i < k <= |MimeTable| && NoSuffixIn(name, i, k)
          ensures NoSuffixIn(name, i + 1, k)
        {
        }
      }
    }
  }

  // ---------------------------------------------------------------------
  // Handlers

  /** A registered handler; what its `handle` decides is not part of this
      model, so dispatch takes the set of handlers that accept the request. */
  class WebRequestHandler {
    var next: WebRequestHandler?

    constructor ()
      ensures next == null
    {
      next := null;
    }
  }

  datatype Outcome =
    | ByHandler(handler: WebRequestHandler)
    | ByFileSystem
    | ByNotFoundHandler
    | NotFound(response: string)

  lemma Assemble(status: string, typeLine: string, pending: string, lengthLine: string, c1: string, c2: string)
    ensures status + (typeLine + pending + lengthLine + c1 + c2) + "\r\n"
      == status + typeLine + pending + lengthLine + c1 + c2 + "\r\n"
  {
  }

  /** The status line, built the way `_prepareHeader` appends it. */
  method AppendStatus(code: int) returns (response: string)
    ensures response == StatusLine(code)
  {
    response := "HTTP/1.1 ";
    response := response + IntToString(code);
    response := response + " ";
    response := response + ResponseText(code);
    response := response + "\r\n";
  }

  class WebServer {
    const port: int
    var nhandlers: nat
    var firstHandler: WebRequestHandler?
    var lastHandler: WebRequestHandler?
    ghost var chain: seq<WebRequestHandler>
    var notFoundHandlerSet: bool

    var currentUri: string
    var currentMethod: HTTPMethod
    var currentArgs: seq<RequestArgument>
    var contentLength: nat
    var responseHeaders: string
    var client: Client
    /** The shared `upnp_headers[]` table of received header values. */
    const upnpHeaders: array<Option<string>>

    /** The handler list links `chain` in order, each handler once. */
    ghost predicate Linked()
      reads this, chain
    {
      |chain| == nhandlers
      && (chain == [] ==> firstHandler == null && lastHandler == null)
      && (chain != [] ==> firstHandler == chain[0] && lastHandler == chain[|chain| - 1]
                          && chain[|chain| - 1].next == null)
      && (forall i :: 0 <= i < |chain| - 1 ==> chain[i].next == chain[i + 1])
      && (forall i, j :: 0 <= i < j < |chain| ==> chain[i] != chain[j])
    }

    constructor (port: int, client: Client)
      ensures Linked() && chain == [] && this.port == port && this.client == client
      ensures currentArgs == [] && responseHeaders == "" && !notFoundHandlerSet
      ensures fresh(upnpHeaders) && upnpHeaders.Length == UPNP_END_METHODS
    {
      this.port := port;
      this.client := client;
      nhandlers := 0;
      firstHandler := null;
      lastHandler := null;
      chain := [];
      notFoundHandlerSet := false;
      currentUri := "";
      currentMethod := HTTP_GET;
      currentArgs := [];
      contentLength := CONTENT_LENGTH_NOT_SET;
      responseHeaders := "";
      upnpHeaders := new Option<string>[UPNP_END_METHODS](_ => None);
    }

    /** Appends at the tail; the first handler is both head and tail. */
    method AddRequestHandler(h: WebRequestHandler)
      requires Linked() && h !in chain && h.next == null
      modifies this`nhandlers, this`firstHandler, this`lastHandler, this`chain, lastHandler
      ensures Linked() && chain == old(chain) + [h] && nhandlers == old(nhandlers) + 1
      ensures old(chain) != [] ==> firstHandler == old(firstHandler)
      ensures forall i :: 0 <= i < |old(chain)| - 1 ==> old(chain)[i].next == old(chain[i].next)
    {
      nhandlers := nhandlers + 1;
      if lastHandler == null {
        firstHandler := h;
        lastHandler := h;
      } else {
        lastHandler.next := h;
        lastHandler := h;
      }
      chain := chain + [h];
    }

    /** `on(uri, method, fn)`: a new handler goes at the end of the chain. */
    method On() returns (h: WebRequestHandler)
      requires Linked()
      modifies this`nhandlers, this`firstHandler, this`lastHandler, this`chain, lastHandler
      ensures fresh(h) && Linked() && chain == old(chain) + [h]
    {
      h := new WebRequestHandler();
      AddRequestHandler(h);
    }

    method OnNotFound()
      modifies this`notFoundHandlerSet
      ensures notFoundHandlerSet
    {
      notFoundHandlerSet := true;
    }

    /** `sendHeader`: the line goes in front when `first` is set, at the end
        otherwise. */
    method SendHeader(name: string, value: string, first: bool)
      modifies this`responseHeaders
      ensures responseHeaders == if first then HeaderLine(name, value) + old(responseHeaders)
                                 else old(responseHeaders) + HeaderLine(name, value)
    {
      var line := name;
      line := line + ": ";
      line := line + value;
      line := line + "\r\n";
      if first {
        responseHeaders := line + responseHeaders;
      } else {
        responseHeaders := responseHeaders + line;
      }
    }

    method PrepareHeader(code: int, contentType: Option<string>, argLength: nat) returns (response: string)
      modifies this`responseHeaders
      ensures response == PreparedHeader(code, contentType, contentLength, argLength, old(responseHeaders))
      ensures responseHeaders == ""
    {
      response := AppendStatus(code);
      var t := if contentType.None? then "text/html" else contentType.value;
      SendHeader("Content-Type", t, true);
      ghost var typed := responseHeaders;
      if contentLength != CONTENT_LENGTH_UNKNOWN && contentLength != CONTENT_LENGTH_NOT_SET {
        SendHeader("Content-Length", NatToString(contentLength), false);
      } else if argLength > 0 {
        SendHeader("Content-Length", NatToString(argLength), false);
      }
      assert responseHeaders == typed + LengthLine(contentLength, argLength);
      SendHeader("Connection", "close", false);
      SendHeader("Access-Control-Allow-Origin", "*", false);
      response := response + responseHeaders;
      response := response + "\r\n";
      Assemble(StatusLine(code), HeaderLine("Content-Type", t), old(responseHeaders), LengthLine(contentLength, argLength),
               HeaderLine("Connection", "close"), HeaderLine("Access-Control-Allow-Origin", "*"));
      responseHeaders := "";
    }

    method SendContent(content: string)
      modifies client
      ensures var d := ContentWrites(content, 0, old(client.accepts));
        client.writes == old(client.writes) + d.calls && client.accepts == d.accepts
    {
      var remaining := |content|;
      var start := 0;
      while remaining > 0
        invariant 0 <= start <= |content| && start + remaining == |content|
        invariant var d := ContentWrites(content, start, client.accepts);
          var d0 := ContentWrites(content, 0, old(client.accepts));
          client.writes + d.calls == old(client.writes) + d0.calls && d.accepts == d0.accepts
      {
        var unit := if remaining < HTTP_DOWNLOAD_UNIT_SIZE then remaining else HTTP_DOWNLOAD_UNIT_SIZE;
        ghost var accepts, writes := client.accepts, client.writes;
        ContentWritesStep(content, start, accepts);
        var sent := client.Write(content[start..start + unit]);
        if sent == 0 {
          break;
        }
        ConcatAssoc(writes, [content[start..start + unit]], ContentWrites(content, start + sent, client.accepts).calls);
        remaining := remaining - sent;
        start := start + sent;
      }
    }

    /** `sendContent_P(content, size)`: `size` bytes in fixed units, whatever
        the client answers; a null pointer sends nothing. */
    method SendContentP(content: Option<string>, size: nat)
      requires content.Some? ==> size <= |content.value|
      modifies client
      ensures client.writes == old(client.writes) + (if content.None? then [] else Units(content.value[..size], 0))
    {
      if content.None? {
        return;
      }
      var s := content.value[..size];
      var remaining := size;
      var start := 0;
      while remaining > 0
        invariant 0 <= start <= size && start + remaining == size
        invariant client.writes + Units(s, start) == old(client.writes) + Units(s, 0)
      {
        var unit := HTTP_DOWNLOAD_UNIT_SIZE;
        if remaining < HTTP_DOWNLOAD_UNIT_SIZE {
          unit := remaining;
        }
        ConcatAssoc(client.writes, [s[start..start + unit]], Units(s, start + unit));
        var _ := client.Write(s[start..start + unit]);
        start := start + unit;
        remaining := remaining - unit;
      }
    }

    /** `send`: the prepared head, then the content, each through
        `sendContent`. */
    method Send(code: int, contentType: Option<string>, content: string)
      modifies this`responseHeaders, client
      ensures responseHeaders == ""
      ensures var head := PreparedHeader(code, contentType, contentLength, |content|, old(responseHeaders));
        var d1 := ContentWrites(head, 0, old(client.accepts));
        var d2 := ContentWrites(content, 0, d1.accepts);
        client.writes == old(client.writes) + d1.calls + d2.calls && client.accepts == d2.accepts
    {
      var head := PrepareHeader(code, contentType, |content|);
      SendContent(head);
      SendContent(content);
    }

    /** `arg(name)`: the value of the first argument with that name, or "". */
    method Arg(name: string) returns (value: string)
      ensures var i := FirstNamed(currentArgs, name);
        value == if i.Some? then currentArgs[i.value].value else ""
    {
      var i := 0;
      while i < |currentArgs|
        invariant 0 <= i <= |currentArgs|
        invariant forall j :: 0 <= j < i ==> currentArgs[j].key != name
      {
        if currentArgs[i].key == name {
          return currentArgs[i].value;
        }
        i := i + 1;
      }
      return "";
    }

    /** `hasArg(name)`: whether some argument has that name. */
    method HasArg(name: string) returns (found: bool)
      ensures found <==> FirstNamed(currentArgs, name).Some?
    {
      var i := 0;
      while i < |currentArgs|
        invariant 0 <= i <= |currentArgs|
        invariant forall j :: 0 <= j < i ==> currentArgs[j].key != name
      {
        if currentArgs[i].key == name {
          return true;
        }
        i := i + 1;
      }
      return false;
    }

    /** `arg(i)`: a negative index compares as a huge unsigned one. */
    function ArgAt(i: int): (v: string)
      reads this
      ensures 0 <= i < |currentArgs| ==> v == currentArgs[i].value
      ensures !(0 <= i < |currentArgs|) ==> v == ""
    {
      if 0 <= i < |currentArgs| then currentArgs[i].value else ""
    }

    function ArgName(i: int): (k: string)
      reads this
      ensures 0 <= i < |currentArgs| ==> k == currentArgs[i].key
      ensures !(0 <= i < |currentArgs|) ==> k == ""
    {
      if 0 <= i < |currentArgs| then currentArgs[i].key else ""
    }

    /** `CleanHeaders`: every received header value is released. */
    method CleanHeaders()
      modifies upnpHeaders
      ensures forall i :: 0 <= i < upnpHeaders.Length ==> upnpHeaders[i].None?
    {
      var i := 0;
      while i < upnpHeaders.Length
        invariant 0 <= i <= upnpHeaders.Length
        invariant forall j :: 0 <= j < i ==> upnpHeaders[j].None?
      {
        if upnpHeaders[i].Some? {
          upnpHeaders[i] := None;
        }
        i := i + 1;
      }
    }

    /** `_handleRequest`: the handlers in registration order until one
        accepts; then the file system; then the not-found handler, or a 404
        naming the URI. The URI is cleared afterwards. */
    method HandleRequest(accepting: set<WebRequestHandler>, fileSystemHandles: bool) returns (outcome: Outcome)
      requires Linked()
      modifies this`currentUri, this`responseHeaders, client
      ensures currentUri == ""
      ensures outcome.ByHandler? ==>
        exists i :: 0 <= i < |chain| && chain[i] == outcome.handler && outcome.handler in accepting
          && forall j :: 0 <= j < i ==> chain[j] !in accepting
      ensures !outcome.ByHandler? ==> forall j :: 0 <= j < |chain| ==> chain[j] !in accepting
      ensures outcome.ByFileSystem? <==> !outcome.ByHandler? && fileSystemHandles
      ensures outcome.ByNotFoundHandler? <==> !outcome.ByHandler? && !fileSystemHandles && notFoundHandlerSet
      ensures outcome.NotFound? ==>
        var text := "Not found: " + old(currentUri);
        var head := PreparedHeader(404, Some("text/plain"), contentLength, |text|, old(responseHeaders));
        var d1 := ContentWrites(head, 0, old(client.accepts));
        var d2 := ContentWrites(text, 0, d1.accepts);
        outcome.response == text && client.writes == old(client.writes) + d1.calls + d2.calls
      ensures !outcome.NotFound? ==> client.writes == old(client.writes)
    {
      var handler := firstHandler;
      ghost var i := 0;
      var handled := false;
      while handler != null
        invariant 0 <= i <= |chain|
        invariant handler == if i < |chain| then chain[i] else null
        invariant forall j :: 0 <= j < i ==> chain[j] !in accepting
        invariant !handled
        decreases |chain| - i
      {
        if handler in accepting {
          handled := true;
          break;
        }
        handler := handler.next;
        i := i + 1;
      }
      if handled {
        assert i < |chain| && chain[i] == handler;
        outcome := ByHandler(handler);
      } else if fileSystemHandles {
        outcome := ByFileSystem;
      } else if notFoundHandlerSet {
        outcome := ByNotFoundHandler;
      } else {
        var text := "Not found: " + currentUri;
        Send(404, Some("text/plain"), text);
        outcome := NotFound(text);
      }
      currentUri := "";
    }
  }
}
