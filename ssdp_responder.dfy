/** The first SSDP responder (UPnP/SSDP.cpp). `_update` reads one queued
    datagram byte by byte through a METHOD/URI/PROTO/KEY/VALUE/ABORT state
    machine. It schedules at most one unicast search response, delayed by a
    random draw bounded by the MX header. It also announces the device by
    multicast every SSDP_INTERVAL seconds.

    The clock (millis) and the random draw are inputs. So is the UDP receive
    queue, a sequence of datagrams. */
module SsdpResponder {
  import opened Text
  import opened Device
  import opened SsdpWire

  const SSDP_METHOD_SIZE := 10
  const SSDP_URI_SIZE := 2
  const SSDP_BUFFER_SIZE := 64
  const NOTIFY_PERIOD_MS := SSDP_INTERVAL * 1000

  datatype ParseState = METHOD | URI | PROTO | KEY | VALUE | ABORT
  datatype HeaderKind = START | MAN | ST | MX

  /** The parser's locals (state, header, cursor, cr, buffer, method) together
      with the three fields the loop writes (_pending, _delay, _process_time). */
  datatype Scan = Scan(state: ParseState, header: HeaderKind, cursor: nat, cr: byte,
                       buffer: seq<char>, requestMethod: Method,
                       pending: bool, delay: uint16, processTime: uint32)

  predicate WellFormed(s: Scan)
  {
    |s.buffer| == SSDP_BUFFER_SIZE && s.cursor < SSDP_BUFFER_SIZE
  }

  /** The parser before the first byte; `_pending` is false, or nothing is parsed. */
  function Start(delay: uint16, processTime: uint32): Scan
  {
    Scan(METHOD, START, 0, 0, seq(SSDP_BUFFER_SIZE, _ => NUL), NONE, false, delay, processTime)
  }

  /** The CR/LF run counter, an 8-bit unsigned counter. */
  function NextCr(cr: byte, c: char): byte
  {
    if c == '\r' || c == '\n' then (cr + 1) % 0x100 else 0
  }

  /** `buffer[cursor++] = c; buffer[cursor] = '\0';` */
  function Append(s: Scan, c: char): (t: Scan)
    requires WellFormed(s) && s.cursor < SSDP_BUFFER_SIZE - 1
    ensures WellFormed(t)
  {
    s.(buffer := s.buffer[s.cursor := c][s.cursor + 1 := NUL], cursor := s.cursor + 1)
  }

  function MethodOf(token: string, current: Method): Method
  {
    if token == "M-SEARCH" then SEARCH else if token == "NOTIFY" then NOTIFY else current
  }

  /** The header kind chosen from the buffer while it is still START. */
  function HeaderOf(key: string, current: HeaderKind): HeaderKind
  {
    if current != START then current
    else if |key| >= 2 && key[..2] == "MA" then MAN
    else if key == "ST" then ST
    else if key == "MX" then MX
    else START
  }

  /** random(0, n) for a given draw: 0 when n <= 0, else a value in [0, n). */
  function Random(n: int, draw: nat): int
  {
    if n <= 0 then 0 else draw % n
  }

  /** `_delay = random(0, atoi(value)) * 1000L`, stored in an unsigned short. */
  function MxDelay(value: string, draw: nat): uint16
  {
    (Random(Atoi(value), draw) * 1000) % 0x1_0000
  }

  /** One byte of the `_update` loop: count the CR/LF run, then act on the state. */
  function Step(s: Scan, c: char, now: uint32, draw: nat): (t: Scan)
    requires WellFormed(s)
    ensures WellFormed(t)
  {
    var s := s.(cr := NextCr(s.cr, c));
    match s.state
    case METHOD => MethodByte(s, c)
    case URI => UriByte(s, c)
    case PROTO => if s.cr == 2 then s.(state := KEY, cursor := 0) else s
    case KEY => KeyByte(s, c, now)
    case VALUE => ValueByte(s, c, draw)
    case ABORT => s.(pending := false, delay := 0)
  }

  /** METHOD: a space ends the token, which selects the method or aborts;
      other bytes are kept while fewer than nine are. */
  function MethodByte(s: Scan, c: char): (t: Scan)
    requires WellFormed(s)
    ensures WellFormed(t)
  {
    if c == ' ' then
      var m := MethodOf(CStr(s.buffer), s.requestMethod);
      s.(requestMethod := m, state := if m == NONE then ABORT else URI, cursor := 0)
    else if s.cursor < SSDP_METHOD_SIZE - 1 then Append(s, c)
    else s
  }

  /** URI: a space ends the URI, which must read "*"; one byte is kept. */
  function UriByte(s: Scan, c: char): (t: Scan)
    requires WellFormed(s)
    ensures WellFormed(t)
  {
    if c == ' ' then
      s.(state := if CStr(s.buffer) != "*" then ABORT else PROTO, cursor := 0)
    else if s.cursor < SSDP_URI_SIZE - 1 then Append(s, c)
    else s
  }

  /** KEY: the fourth byte of a CR/LF run ends the headers and schedules the
      response; a space starts the value; other bytes except ':' are kept. */
  function KeyByte(s: Scan, c: char, now: uint32): (t: Scan)
    requires WellFormed(s)
    ensures WellFormed(t)
  {
    if s.cr == 4 then s.(pending := true, processTime := now)
    else if c == ' ' then s.(cursor := 0, state := VALUE)
    else if c != '\r' && c != '\n' && c != ':' && s.cursor < SSDP_BUFFER_SIZE - 1 then Append(s, c)
    else s
  }

  /** VALUE: a line end stores the MX delay and returns to KEY; other bytes
      first classify the header from the buffer, then are kept. */
  function ValueByte(s: Scan, c: char, draw: nat): (t: Scan)
    requires WellFormed(s)
    ensures WellFormed(t)
  {
    if s.cr == 2 then
      var d := if s.header == MX then MxDelay(CStr(s.buffer), draw) else s.delay;
      s.(delay := d, state := KEY, header := START, cursor := 0)
    else if c != '\r' && c != '\n' then
      var s := s.(header := HeaderOf(CStr(s.buffer), s.header));
      if s.cursor < SSDP_BUFFER_SIZE - 1 then Append(s, c) else s
    else s
  }

  /** The parser after consuming `bytes` in order. */
  function Run(s: Scan, bytes: string, now: uint32, draw: nat): (t: Scan)
    requires WellFormed(s)
    ensures WellFormed(t)
    decreases |bytes|
  {
    if bytes == [] then s
    else Step(Run(s, bytes[..|bytes| - 1], now, draw), bytes[|bytes| - 1], now, draw)
  }

  // ---------------------------------------------------------------------
  // The request line.

  /** Index of the first space of `p`, or |p| when there is none. */
  function SpaceIndex(p: string): (k: nat)
    ensures k <= |p| && ' ' !in p[..k]
    ensures k < |p| ==> p[k] == ' '
  {
    if p == [] || p[0] == ' ' then 0
    else
      var k := 1 + SpaceIndex(p[1..]);
      assert p[..k] == [p[0]] + p[1..][..k - 1];
      k
  }

  /** What the METHOD buffer holds at the first space: the token cut to 9 bytes
      and read as a C string. */
  function MethodToken(p: string): string
  {
    CStr(p[..Min(SpaceIndex(p), SSDP_METHOD_SIZE - 1)])
  }

  predicate MethodAccepted(p: string)
  {
    SpaceIndex(p) < |p| && MethodOf(MethodToken(p), NONE) != NONE
  }

  /** The text after the first space. */
  function AfterMethod(p: string): string
    requires SpaceIndex(p) < |p|
  {
    p[SpaceIndex(p) + 1..]
  }

  /** The request line passes both checks: the method token is M-SEARCH or
      NOTIFY, and a second space follows a URI whose first byte is '*'. */
  predicate RequestLineAccepted(p: string)
  {
    MethodAccepted(p)
    && var rest := AfterMethod(p);
       1 <= SpaceIndex(rest) < |rest| && rest[0] == '*'
  }

  predicate InHeaderPhase(s: Scan)
  {
    s.state == PROTO || s.state == KEY || s.state == VALUE
  }

  /** The buffer holds the C string `x` at its start, terminated. */
  predicate Holds(s: Scan, x: string)
  {
    |x| == s.cursor < |s.buffer| && s.buffer[..s.cursor] == x && s.buffer[s.cursor] == NUL
  }

  lemma {:induction false} CStrOfTerminated(buf: string, x: string)
    requires |x| < |buf| && buf[..|x|] == x && buf[|x|] == NUL
    ensures CStr(buf) == CStr(x)
    decreases |x|
  {
    if x != [] && x[0] != NUL {
      CStrOfTerminated(buf[1..], x[1..]);
      assert CStr(buf) == [buf[0]] + CStr(buf[1..]);
    } else if x != [] {
      assert buf[0] == NUL;
    }
  }

  lemma AppendHolds(s: Scan, x: string, c: char)
    requires WellFormed(s) && s.cursor < SSDP_BUFFER_SIZE - 1 && Holds(s, x)
    ensures Holds(Append(s, c), x + [c])
  {
    var t := Append(s, c);
    assert t.buffer[..t.cursor] == s.buffer[..s.cursor] + [c];
  }

  lemma {:induction false} RunAppend(s: Scan, a: string, b: string, now: uint32, draw: nat)
    requires WellFormed(s)
    ensures Run(s, a + b, now, draw) == Run(Run(s, a, now, draw), b, now, draw)
    decreases |b|
  {
    if b != [] {
      var b' := b[..|b| - 1];
      assert (a + b)[..|a + b| - 1] == a + b';
      RunAppend(s, a, b', now, draw);
    } else {
      assert a + b == a;
    }
  }

  lemma RunOne(s: Scan, a: string, c: char, now: uint32, draw: nat)
    requires WellFormed(s)
    ensures Run(s, a + [c], now, draw) == Step(Run(s, a, now, draw), c, now, draw)
  {
    assert (a + [c])[..|a|] == a;
  }

  lemma NextPrefix(s: Scan, bytes: string, i: nat, now: uint32, draw: nat)
    requires WellFormed(s) && i < |bytes|
    ensures Run(s, bytes[..i + 1], now, draw) == Step(Run(s, bytes[..i], now, draw), bytes[i], now, draw)
  {
    assert bytes[..i + 1][..i] == bytes[..i];
  }

  /** A method byte other than a space is kept while fewer than nine are. */
  lemma MethodChar(w: Scan, x: string, c: char, now: uint32, draw: nat)
    requires WellFormed(w) && w.state == METHOD && c != ' ' && Holds(w, x)
    ensures var v := Step(w, c, now, draw);
      v.state == METHOD && v.requestMethod == w.requestMethod && v.pending == w.pending
      && v.delay == w.delay && Holds(v, if |x| < SSDP_METHOD_SIZE - 1 then x + [c] else x)
  {
    var w1 := w.(cr := NextCr(w.cr, c));
    if w.cursor < SSDP_METHOD_SIZE - 1 {
      assert Step(w, c, now, draw) == Append(w1, c);
      AppendHolds(w1, x, c);
    } else {
      assert Step(w, c, now, draw) == w1;
    }
  }

  /** The first nine bytes of a token and one more byte. */
  lemma MethodPrefix(m: string, c: char)
    ensures (m + [c])[..Min(|m| + 1, SSDP_METHOD_SIZE - 1)]
            == var x := m[..Min(|m|, SSDP_METHOD_SIZE - 1)];
               if |x| < SSDP_METHOD_SIZE - 1 then x + [c] else x
  {
    if |m| < SSDP_METHOD_SIZE - 1 {
      assert (m + [c])[..|m| + 1] == m + [c];
      assert m[..|m|] == m;
    } else {
      assert (m + [c])[..SSDP_METHOD_SIZE - 1] == m[..SSDP_METHOD_SIZE - 1];
    }
  }

  /** While no space has arrived the parser stays in METHOD, keeping the first
      nine bytes of the token. */
  lemma {:induction false} MethodPhase(d: uint16, t: uint32, m: string, now: uint32, draw: nat)
    requires ' ' !in m
    ensures var s := Run(Start(d, t), m, now, draw);
      s.state == METHOD && s.requestMethod == NONE && !s.pending && s.delay == d
      && Holds(s, m[..Min(|m|, SSDP_METHOD_SIZE - 1)])
    decreases |m|
  {
    if m != [] {
      var m' := m[..|m| - 1];
      var c := m[|m| - 1];
      assert ' ' !in m' by { assert forall i :: 0 <= i < |m'| ==> m'[i] == m[i]; }
      MethodPhase(d, t, m', now, draw);
      RunOne(Start(d, t), m', c, now, draw);
      assert m' + [c] == m;
      MethodChar(Run(Start(d, t), m', now, draw), m'[..Min(|m'|, SSDP_METHOD_SIZE - 1)], c, now, draw);
      MethodPrefix(m', c);
    } else {
      assert Start(d, t).buffer[0] == NUL;
    }
  }

  /** Once in ABORT the parser stays there and every byte clears the pending
      response and the delay. */
  lemma {:induction false} AbortIsFinal(s: Scan, q: string, now: uint32, draw: nat)
    requires WellFormed(s) && s.state == ABORT && !s.pending
    ensures var u := Run(s, q, now, draw);
      u.state == ABORT && !u.pending && (q != [] ==> u.delay == 0)
    decreases |q|
  {
    if q != [] {
      AbortIsFinal(s, q[..|q| - 1], now, draw);
    }
  }

  /** A byte other than a space in URI goes through `UriByte`. */
  /** One byte other than a space in URI: the first is kept, later ones
      are dropped. */
  lemma UriStep(w: Scan, c: char, now: uint32, draw: nat)
    requires WellFormed(w) && w.state == URI && !w.pending && c != ' '
    requires w.cursor == 0 || (w.cursor == 1 && w.buffer[1] == NUL)
    ensures var v := Step(w, c, now, draw);
      v.state == URI && !v.pending && v.delay == w.delay && v.cursor == 1 && v.buffer[1] == NUL
      && v.buffer[0] == (if w.cursor == 0 then c else w.buffer[0])
  {
    var w1 := w.(cr := NextCr(w.cr, c));
    if w.cursor == 0 {
      assert Step(w, c, now, draw) == Append(w1, c);
    } else {
      assert Step(w, c, now, draw) == w1;
    }
  }

  /** In URI only the first byte is kept. */
  lemma {:induction false} UriPhase(s: Scan, u: string, now: uint32, draw: nat)
    requires WellFormed(s) && s.state == URI && !s.pending && s.cursor == 0
    requires ' ' !in u
    ensures var v := Run(s, u, now, draw);
      v.state == URI && !v.pending && v.delay == s.delay
      && (u == [] ==> v.buffer == s.buffer && v.cursor == 0)
      && (u != [] ==> v.cursor == 1 && v.buffer[0] == u[0] && v.buffer[1] == NUL)
    decreases |u|
  {
    if u != [] {
      var u' := u[..|u| - 1];
      var c := u[|u| - 1];
      assert ' ' !in u' by { assert forall i :: 0 <= i < |u'| ==> u'[i] == u[i]; }
      UriPhase(s, u', now, draw);
      var w := Run(s, u', now, draw);
      assert u' + [c] == u;
      RunOne(s, u', c, now, draw);
      UriStep(w, c, now, draw);
      assert Run(s, u, now, draw) == Step(w, c, now, draw);
      if u' != [] {
        assert u[0] == u'[0];
      }
    }
  }

  /** PROTO, KEY and VALUE never lead back, and a pending response stays pending. */
  lemma {:induction false} HeaderPhaseIsFinal(s: Scan, q: string, now: uint32, draw: nat)
    requires WellFormed(s) && InHeaderPhase(s)
    ensures var u := Run(s, q, now, draw);
      InHeaderPhase(u) && (s.pending ==> u.pending)
    decreases |q|
  {
    if q != [] {
      HeaderPhaseIsFinal(s, q[..|q| - 1], now, draw);
    }
  }

  lemma {:induction false} CStrNoNul(x: string)
    requires NUL !in x
    ensures CStr(x) == x
    decreases |x|
  {
    if x != [] {
      assert NUL !in x[1..] by { assert forall i :: 0 <= i < |x[1..]| ==> x[1..][i] == x[i + 1]; }
      CStrNoNul(x[1..]);
    }
  }

  /** At the first space the method token decides between URI and ABORT. */
  lemma MethodOutcome(d: uint16, t: uint32, p: string, now: uint32, draw: nat)
    requires SpaceIndex(p) < |p|
    ensures var s := Run(Start(d, t), p[..SpaceIndex(p) + 1], now, draw);
      s.state == (if MethodAccepted(p) then URI else ABORT) && !s.pending && s.delay == d
      && s.cursor == 0 && CStr(s.buffer) == MethodToken(p)
  {
    var k := SpaceIndex(p);
    var m := p[..k];
    assert p[..k + 1] == m + [' '];
    MethodPhase(d, t, m, now, draw);
    RunOne(Start(d, t), m, ' ', now, draw);
    var s1 := Run(Start(d, t), m, now, draw);
    assert p[..Min(k, SSDP_METHOD_SIZE - 1)] == m[..Min(|m|, SSDP_METHOD_SIZE - 1)];
    CStrOfTerminated(s1.buffer, m[..Min(|m|, SSDP_METHOD_SIZE - 1)]);
  }

  /** A space in URI ends the URI: PROTO when the kept URI reads "*",
      ABORT otherwise. */
  lemma UriSpace(s: Scan, u: string, now: uint32, draw: nat)
    requires WellFormed(s)
    ensures var w := Run(s, u, now, draw);
      var t := Run(s, u + [' '], now, draw);
      w.state == URI ==>
        t.state == (if CStr(w.buffer) != "*" then ABORT else PROTO)
        && t.pending == w.pending && t.delay == w.delay && t.cr == 0
  {
    RunOne(s, u, ' ', now, draw);
  }

  /** A buffer holding one byte and its terminator reads "*" exactly when
      that byte is '*'. */
  lemma OneByteIsStar(buf: string, c: char)
    requires |buf| >= 2 && buf[0] == c && buf[1] == NUL
    ensures CStr(buf) == "*" <==> c == '*'
  {
    CStrOfTerminated(buf, [c]);
    if c != NUL {
      CStrNoNul([c]);
    } else {
      assert CStr([c]) == [];
    }
  }

  /** At the second space the URI's first byte decides between PROTO and ABORT. */
  lemma UriOutcome(s: Scan, rest: string, now: uint32, draw: nat)
    requires WellFormed(s) && s.state == URI && !s.pending && s.cursor == 0
    requires CStr(s.buffer) != "*"
    requires SpaceIndex(rest) < |rest|
    ensures var k2 := SpaceIndex(rest);
      var v := Run(s, rest[..k2 + 1], now, draw);
      v.state == (if 1 <= k2 && rest[0] == '*' then PROTO else ABORT)
      && !v.pending && v.delay == s.delay && v.cr == 0
  {
    var k2 := SpaceIndex(rest);
    var u := rest[..k2];
    assert rest[..k2 + 1] == u + [' '];
    UriPhase(s, u, now, draw);
    UriSpace(s, u, now, draw);
    var v := Run(s, u, now, draw);
    if u != [] {
      assert u[0] == rest[0];
      OneByteIsStar(v.buffer, u[0]);
    }
  }

  /** After an accepted method token, the URI decides between PROTO and ABORT,
      and neither is left. */
  lemma AfterAcceptedMethod(s2: Scan, rest: string, now: uint32, draw: nat)
    requires WellFormed(s2) && s2.state == URI && !s2.pending && s2.cursor == 0
    requires CStr(s2.buffer) != "*"
    ensures var s := Run(s2, rest, now, draw);
      var k2 := SpaceIndex(rest);
      (k2 < |rest| && !(1 <= k2 && rest[0] == '*') ==> s.state == ABORT && !s.pending)
      && (1 <= k2 < |rest| && rest[0] == '*' ==> InHeaderPhase(s))
      && (s.pending ==> 1 <= k2 < |rest| && rest[0] == '*')
  {
    var k2 := SpaceIndex(rest);
    if k2 == |rest| {
      UriPhase(s2, rest, now, draw);
      return;
    }
    var rest2 := rest[k2 + 1..];
    assert rest == rest[..k2 + 1] + rest2;
    RunAppend(s2, rest[..k2 + 1], rest2, now, draw);
    UriOutcome(s2, rest, now, draw);
    var s4 := Run(s2, rest[..k2 + 1], now, draw);
    if s4.state == ABORT {
      AbortIsFinal(s4, rest2, now, draw);
    } else {
      HeaderPhaseIsFinal(s4, rest2, now, draw);
    }
  }

  /** The three outcomes of the request line: the method token decides ABORT
      or URI at the first space, and the URI's first byte decides ABORT or
      PROTO at the second. */
  lemma RequestLinePhases(d: uint16, t: uint32, p: string, now: uint32, draw: nat)
    ensures var s := Run(Start(d, t), p, now, draw);
      (SpaceIndex(p) < |p| && !MethodAccepted(p) ==> s.state == ABORT && !s.pending)
      && ((MethodAccepted(p) && SpaceIndex(AfterMethod(p)) < |AfterMethod(p)| && !RequestLineAccepted(p))
            ==> s.state == ABORT && !s.pending)
      && (RequestLineAccepted(p) ==> InHeaderPhase(s))
      && (s.pending ==> RequestLineAccepted(p))
  {
    var S := Start(d, t);
    var k := SpaceIndex(p);
    if k == |p| {
      MethodPhase(d, t, p, now, draw);
      return;
    }
    var rest := p[k + 1..];
    assert p == p[..k + 1] + rest;
    RunAppend(S, p[..k + 1], rest, now, draw);
    MethodOutcome(d, t, p, now, draw);
    var s2 := Run(S, p[..k + 1], now, draw);
    if !MethodAccepted(p) {
      AbortIsFinal(s2, rest, now, draw);
    } else {
      AfterAcceptedMethod(s2, rest, now, draw);
    }
  }

  /** A datagram whose request line is rejected can never leave a response pending. */
  lemma PendingNeedsAcceptedRequestLine(d: uint16, t: uint32, p: string, now: uint32, draw: nat)
    ensures Run(Start(d, t), p, now, draw).pending ==> RequestLineAccepted(p)
  {
    RequestLinePhases(d, t, p, now, draw);
  }

  // ---------------------------------------------------------------------
  // A complete search request.

  lemma {:induction false} ProtoPhase(s: Scan, q: string, now: uint32, draw: nat)
    requires WellFormed(s) && s.state == PROTO
    requires forall i :: 0 <= i < |q| ==> q[i] != '\r' && q[i] != '\n'
    ensures Run(s, q, now, draw) == if q == [] then s else s.(cr := 0)
    decreases |q|
  {
    if q != [] {
      ProtoPhase(s, q[..|q| - 1], now, draw);
    }
  }

  lemma SpaceIndexAfter(a: string, b: string)
    requires ' ' !in a
    ensures SpaceIndex(a + [' '] + b) == |a|
    decreases |a|
  {
    if a != [] {
      assert (a + [' '] + b)[1..] == a[1..] + [' '] + b;
      assert ' ' !in a[1..] by { assert forall i :: 0 <= i < |a[1..]| ==> a[1..][i] == a[i + 1]; }
      SpaceIndexAfter(a[1..], b);
    }
  }

  /** The shape of "<method> *<uri> ": the first space follows the token,
      the second ends the line, and both checks pass. */
  lemma AcceptedLineShape(m: string, u: string)
    requires ' ' !in m && NUL !in m && |m| < SSDP_METHOD_SIZE && MethodOf(m, NONE) != NONE
    requires ' ' !in u
    ensures var p := m + " *" + u + " ";
      var rest := ['*'] + u + [' '];
      SpaceIndex(p) == |m| && p[..|m| + 1] == m + [' '] && AfterMethod(p) == rest
      && SpaceIndex(rest) == |rest| - 1 && RequestLineAccepted(p)
  {
    var p := m + " *" + u + " ";
    var rest := ['*'] + u + [' '];
    assert p == m + [' '] + rest;
    SpaceIndexAfter(m, rest);
    assert ' ' !in ['*'] + u;
    assert rest == (['*'] + u) + [' '] + [];
    SpaceIndexAfter(['*'] + u, []);
    assert p[..Min(|m|, SSDP_METHOD_SIZE - 1)] == m;
    CStrNoNul(m);
  }

  /** "<method> *<uri> " with method M-SEARCH or NOTIFY passes both checks and
      leaves the parser in PROTO with nothing pending. */
  lemma RequestLineReachesProto(d: uint16, t: uint32, m: string, u: string, now: uint32, draw: nat)
    requires m == "M-SEARCH" || m == "NOTIFY"
    requires ' ' !in u
    ensures var p := m + " *" + u + " ";
      var s := Run(Start(d, t), p, now, draw);
      RequestLineAccepted(p) && s.state == PROTO && !s.pending && s.delay == d && s.cr == 0
  {
    assert ' ' !in m && NUL !in m;
    AcceptedLineShape(m, u);
    AcceptedLineReachesProto(d, t, m + " *" + u + " ", now, draw);
  }

  /** A request line that passes both checks and ends at its second space
      leaves the parser in PROTO with nothing pending. */
  lemma AcceptedLineReachesProto(d: uint16, t: uint32, p: string, now: uint32, draw: nat)
    requires RequestLineAccepted(p)
    requires SpaceIndex(AfterMethod(p)) == |AfterMethod(p)| - 1
    ensures var s := Run(Start(d, t), p, now, draw);
      s.state == PROTO && !s.pending && s.delay == d && s.cr == 0
  {
    var k := SpaceIndex(p);
    var rest := AfterMethod(p);
    assert rest == p[k + 1..];
    MethodOutcome(d, t, p, now, draw);
    var s2 := Run(Start(d, t), p[..k + 1], now, draw);
    assert MethodToken(p) == "M-SEARCH" || MethodToken(p) == "NOTIFY";
    assert CStr(s2.buffer) != "*";
    RunSplit(Start(d, t), p, k + 1, now, draw);
    UriLineEnd(s2, rest, now, draw);
  }

  /** Consuming a string is consuming its first `i` bytes, then the rest. */
  lemma RunSplit(s: Scan, p: string, i: nat, now: uint32, draw: nat)
    requires WellFormed(s) && i <= |p|
    ensures Run(s, p, now, draw) == Run(Run(s, p[..i], now, draw), p[i..], now, draw)
  {
    assert p == p[..i] + p[i..];
    RunAppend(s, p[..i], p[i..], now, draw);
  }

  /** A URI that ends with the only space: PROTO exactly when it starts
      with '*' and is not empty. */
  lemma UriLineEnd(s: Scan, rest: string, now: uint32, draw: nat)
    requires WellFormed(s) && s.state == URI && !s.pending && s.cursor == 0
    requires CStr(s.buffer) != "*"
    requires rest != [] && SpaceIndex(rest) == |rest| - 1
    ensures var v := Run(s, rest, now, draw);
      v.state == (if 2 <= |rest| && rest[0] == '*' then PROTO else ABORT)
      && !v.pending && v.delay == s.delay && v.cr == 0
  {
    UriOutcome(s, rest, now, draw);
    assert rest[..|rest|] == rest;
  }

  /** The four bytes of a blank line after the request line, one at a time. */
  lemma ProtoCr(w: Scan, now: uint32, draw: nat)
    requires WellFormed(w) && w.state == PROTO && w.cr == 0
    ensures Step(w, '\r', now, draw) == w.(cr := 1)
  {
  }

  lemma ProtoLf(w: Scan, now: uint32, draw: nat)
    requires WellFormed(w) && w.state == PROTO && w.cr == 1
    ensures Step(w, '\n', now, draw) == w.(cr := 2, state := KEY, cursor := 0)
  {
  }

  lemma KeyCr(w: Scan, now: uint32, draw: nat)
    requires WellFormed(w) && w.state == KEY && w.cr == 2
    ensures Step(w, '\r', now, draw) == w.(cr := 3)
  {
    assert KeyByte(w.(cr := 3), '\r', now) == w.(cr := 3);
  }

  lemma KeyLf(w: Scan, now: uint32, draw: nat)
    requires WellFormed(w) && w.state == KEY && w.cr == 3
    ensures Step(w, '\n', now, draw) == w.(cr := 4, pending := true, processTime := now)
  {
  }

  /** From PROTO, "\r\n" enters KEY and the second "\r\n" makes the
      response pending. */
  lemma BlankLineAfterProto(s: Scan, now: uint32, draw: nat)
    requires WellFormed(s) && s.state == PROTO && s.cr == 0
    ensures var v := Run(s, "\r\n\r\n", now, draw);
      v.pending && v.processTime == now && v.delay == s.delay
  {
    var s1 := s.(cr := 1);
    var s2 := s.(cr := 2, state := KEY, cursor := 0);
    var s3 := s2.(cr := 3);
    assert "\r\n\r\n" == ['\r', '\n', '\r'] + ['\n'];
    assert ['\r', '\n', '\r'] == ['\r', '\n'] + ['\r'];
    assert ['\r', '\n'] == ['\r'] + ['\n'];
    assert ['\r'] == [] + ['\r'];
    RunOne(s, [], '\r', now, draw);
    ProtoCr(s, now, draw);
    RunOne(s, ['\r'], '\n', now, draw);
    ProtoLf(s1, now, draw);
    RunOne(s, ['\r', '\n'], '\r', now, draw);
    KeyCr(s2, now, draw);
    RunOne(s, ['\r', '\n', '\r'], '\n', now, draw);
    KeyLf(s3, now, draw);
  }

  /** A request line followed by a blank line leaves a response pending, timed
      from now. */
  lemma BareRequestIsAnswered(d: uint16, t: uint32, m: string, u: string, proto: string, now: uint32, draw: nat)
    requires m == "M-SEARCH" || m == "NOTIFY"
    requires ' ' !in u
    requires forall i :: 0 <= i < |proto| ==> proto[i] != '\r' && proto[i] != '\n'
    ensures var p := m + " *" + u + " " + proto + "\r\n\r\n";
      var s := Run(Start(d, t), p, now, draw);
      RequestLineAccepted(p) && s.pending && s.processTime == now && s.delay == d
  {
    var line := m + " *" + u + " ";
    var p := line + proto + "\r\n\r\n";
    RequestLineReachesProto(d, t, m, u, now, draw);
    var s0 := Run(Start(d, t), line, now, draw);
    assert p == line + (proto + "\r\n\r\n");
    RunAppend(Start(d, t), line, proto + "\r\n\r\n", now, draw);
    RunAppend(s0, proto, "\r\n\r\n", now, draw);
    ProtoPhase(s0, proto, now, draw);
    BlankLineAfterProto(Run(s0, proto, now, draw), now, draw);
    RequestLinePrefix(line, proto + "\r\n\r\n");
  }

  // ---------------------------------------------------------------------
  // Header lines.

  /** A key byte other than a space, a line break or ':' is kept. */
  lemma KeyChar(w: Scan, c: char, now: uint32, draw: nat)
    requires WellFormed(w) && w.state == KEY && w.cursor < SSDP_BUFFER_SIZE - 1
    requires c != ' ' && c != '\r' && c != '\n' && c != ':'
    ensures Step(w, c, now, draw) == Append(w.(cr := 0), c)
  {
  }

  lemma KeyColon(w: Scan, now: uint32, draw: nat)
    requires WellFormed(w) && w.state == KEY
    ensures Step(w, ':', now, draw) == w.(cr := 0)
  {
  }

  lemma KeySpace(w: Scan, now: uint32, draw: nat)
    requires WellFormed(w) && w.state == KEY
    ensures Step(w, ' ', now, draw) == w.(cr := 0, cursor := 0, state := VALUE)
  {
  }

  /** A value byte other than a line break classifies the header from the
      key still in the buffer, then is kept. */
  lemma ValueChar(w: Scan, c: char, now: uint32, draw: nat)
    requires WellFormed(w) && w.state == VALUE && w.cursor < SSDP_BUFFER_SIZE - 1
    requires c != '\r' && c != '\n'
    ensures Step(w, c, now, draw) == Append(w.(cr := 0, header := HeaderOf(CStr(w.buffer), w.header)), c)
  {
  }

  lemma ValueCr(w: Scan, now: uint32, draw: nat)
    requires WellFormed(w) && w.state == VALUE && w.cr == 0
    ensures Step(w, '\r', now, draw) == w.(cr := 1)
  {
    assert NextCr(w.cr, '\r') == 1;
    assert ValueByte(w.(cr := 1), '\r', draw) == w.(cr := 1);
  }

  /** The line feed that ends a value stores the MX delay and returns to KEY. */
  lemma ValueLf(w: Scan, now: uint32, draw: nat)
    requires WellFormed(w) && w.state == VALUE && w.cr == 1
    ensures Step(w, '\n', now, draw)
            == w.(cr := 2, delay := if w.header == MX then MxDelay(CStr(w.buffer), draw) else w.delay,
                  state := KEY, header := START, cursor := 0)
  {
  }

  /** The key bytes "MX" at the start of a header line are appended to
      the buffer and terminated. */
  lemma MxName(w: Scan, now: uint32, draw: nat)
    requires WellFormed(w) && w.state == KEY && w.cursor == 0
    ensures var v := Run(w, "MX", now, draw);
      v == w.(cr := 0, cursor := 2, buffer := v.buffer)
      && v.buffer[..3] == "MX" + [NUL]
  {
    var w1 := Append(w.(cr := 0), 'M');
    assert "MX" == [] + ['M'] + ['X'];
    RunOne(w, [], 'M', now, draw);
    KeyChar(w, 'M', now, draw);
    RunOne(w, ['M'], 'X', now, draw);
    KeyChar(w1, 'X', now, draw);
  }

  /** ": " after a key: the colon is skipped and the space moves the parser
      to VALUE with the key left in the buffer. */
  lemma KeyColonSpace(w: Scan, now: uint32, draw: nat)
    requires WellFormed(w) && w.state == KEY
    ensures Run(w, ": ", now, draw) == w.(cr := 0, cursor := 0, state := VALUE)
  {
    assert ": " == [] + [':'] + [' '];
    RunOne(w, [], ':', now, draw);
    KeyColon(w, now, draw);
    RunOne(w, [':'], ' ', now, draw);
    KeySpace(w.(cr := 0), now, draw);
  }

  /** "MX: " at the start of a header line: the key is kept and the parser
      moves to VALUE with "MX" still in the buffer. */
  lemma MxKey(w: Scan, now: uint32, draw: nat)
    requires WellFormed(w) && w.state == KEY && w.cursor == 0
    ensures var v := Run(w, "MX: ", now, draw);
      v == w.(cr := 0, cursor := 0, state := VALUE, buffer := v.buffer)
      && v.buffer[..3] == "MX" + [NUL]
  {
    assert "MX: " == "MX" + ": ";
    RunAppend(w, "MX", ": ", now, draw);
    MxName(w, now, draw);
    KeyColonSpace(Run(w, "MX", now, draw), now, draw);
  }

  /** The first value byte after the key "MX": the header becomes MX and
      the byte is kept. */
  lemma MxValueFirst(w: Scan, c: char, now: uint32, draw: nat)
    requires WellFormed(w) && w.state == VALUE && w.header == START && w.cursor == 0
    requires w.buffer[..3] == "MX" + [NUL]
    requires c != '\r' && c != '\n'
    ensures var v := Step(w, c, now, draw);
      v.state == VALUE && v.header == MX && Holds(v, [c]) && v.cr == 0
      && v.pending == w.pending && v.delay == w.delay && v.processTime == w.processTime
  {
    CStrOfTerminated(w.buffer, "MX");
    CStrNoNul("MX");
    ValueChar(w, c, now, draw);
    var v := Step(w, c, now, draw);
    assert v.buffer[..1] == [c];
  }

  /** A later value byte of an MX line is kept. */
  lemma MxValueNext(w: Scan, x: string, c: char, now: uint32, draw: nat)
    requires WellFormed(w) && w.state == VALUE && w.header == MX && Holds(w, x)
    requires w.cursor < SSDP_BUFFER_SIZE - 1 && c != '\r' && c != '\n'
    ensures var v := Step(w, c, now, draw);
      v.state == VALUE && v.header == MX && Holds(v, x + [c]) && v.cr == 0
      && v.pending == w.pending && v.delay == w.delay && v.processTime == w.processTime
  {
    ValueChar(w, c, now, draw);
    AppendHolds(w.(cr := 0), x, c);
  }

  /** The value of an MX line: the first byte classifies the header as MX
      from the key in the buffer, and the value is kept. */
  lemma {:induction false} MxValue(w: Scan, k: string, now: uint32, draw: nat)
    requires WellFormed(w) && w.state == VALUE && w.header == START && w.cursor == 0
    requires w.buffer[..3] == "MX" + [NUL]
    requires k != [] && |k| < SSDP_BUFFER_SIZE - 1
    requires forall i :: 0 <= i < |k| ==> k[i] != '\r' && k[i] != '\n'
    ensures var v := Run(w, k, now, draw);
      v.state == VALUE && v.header == MX && Holds(v, k) && v.cr == 0
      && v.pending == w.pending && v.delay == w.delay && v.processTime == w.processTime
    decreases |k|
  {
    var k' := k[..|k| - 1];
    var c := k[|k| - 1];
    assert k' + [c] == k;
    RunOne(w, k', c, now, draw);
    if k' == [] {
      assert Run(w, k', now, draw) == w;
      MxValueFirst(w, c, now, draw);
    } else {
      MxValue(w, k', now, draw);
      MxValueNext(Run(w, k', now, draw), k', c, now, draw);
    }
  }

  /** CR LF after a value ends the header line: the MX delay is stored
      from the buffer and the parser is back in KEY. */
  lemma ValueLineEnd(v: Scan, now: uint32, draw: nat)
    requires WellFormed(v) && v.state == VALUE && v.cr == 0
    ensures Run(v, "\r\n", now, draw)
            == v.(cr := 2, delay := if v.header == MX then MxDelay(CStr(v.buffer), draw) else v.delay,
                  state := KEY, header := START, cursor := 0)
  {
    RunOne(v, [], '\r', now, draw);
    ValueCr(v, now, draw);
    RunOne(v, ['\r'], '\n', now, draw);
    ValueLf(v.(cr := 1), now, draw);
    assert ['\r', '\n'] == [] + ['\r'] + ['\n'];
  }

  /** A whole "MX: <k>" header line, line end included, stores the delay
      `random(0, atoi(k)) * 1000` and leaves the parser at the start of the
      next header line. */
  lemma MxLine(w: Scan, k: string, now: uint32, draw: nat)
    requires WellFormed(w) && w.state == KEY && w.header == START && w.cursor == 0
    requires k != [] && |k| < SSDP_BUFFER_SIZE - 1
    requires forall i :: 0 <= i < |k| ==> k[i] != '\r' && k[i] != '\n' && k[i] != NUL
    ensures var v := Run(w, "MX: " + k + "\r\n", now, draw);
      v.state == KEY && v.header == START && v.cursor == 0 && v.cr == 2
      && v.delay == MxDelay(k, draw) && v.pending == w.pending && v.processTime == w.processTime
  {
    var mx, crlf := "MX: ", "\r\n";
    MxKey(w, now, draw);
    var w4 := Run(w, mx, now, draw);
    MxValue(w4, k, now, draw);
    var v := Run(w4, k, now, draw);
    ValueLineEnd(v, now, draw);
    CStrOfTerminated(v.buffer, k);
    CStrNoNul(k);
    RunAppend(w, mx, k, now, draw);
    RunAppend(w, mx + k, crlf, now, draw);
  }

  /** The CR/LF run counter after `h`, starting from `cr`: each CR or LF
      adds one (modulo 256), any other byte resets it. */
  function CrAfter(cr: byte, h: string): byte
    decreases |h|
  {
    if h == [] then cr else NextCr(CrAfter(cr, h[..|h| - 1]), h[|h| - 1])
  }

  /** Some byte of `h` brings the counter to 4. */
  predicate ReachesFour(cr: byte, h: string)
  {
    exists i :: 0 < i <= |h| && CrAfter(cr, h[..i]) == 4
  }

  lemma ReachesFourSnoc(cr: byte, h: string, c: char)
    ensures ReachesFour(cr, h + [c]) <==> ReachesFour(cr, h) || CrAfter(cr, h + [c]) == 4
  {
    var h1 := h + [c];
    assert h1[..|h1|] == h1;
    assert forall i :: 0 < i <= |h| ==> h1[..i] == h[..i];
  }

  /** The header phase as the parser reaches it: PROTO and VALUE leave at
      the second byte of a CR/LF run, so only KEY sees a longer run. */
  predicate HeaderReady(s: Scan)
  {
    WellFormed(s) && InHeaderPhase(s) && (s.state != KEY ==> s.cr <= 1)
  }

  /** One header-phase byte sets `_pending` and stamps the time exactly
      when the run counter becomes 4, and leaves both alone otherwise. */
  lemma HeaderStep(w: Scan, c: char, now: uint32, draw: nat)
    requires HeaderReady(w)
    ensures var v := Step(w, c, now, draw);
      HeaderReady(v) && v.cr == NextCr(w.cr, c)
      && (v.cr == 4 ==> v.pending && v.processTime == now)
      && (v.cr != 4 ==> v.pending == w.pending && v.processTime == w.processTime)
  {
  }

  /** In the header phase the response becomes pending exactly at the
      fourth consecutive CR or LF, timed from that call, and at no other
      byte. */
  lemma {:induction false} PendingAtFourthBreak(s: Scan, h: string, now: uint32, draw: nat)
    requires HeaderReady(s)
    ensures var v := Run(s, h, now, draw);
      HeaderReady(v) && v.cr == CrAfter(s.cr, h)
      && v.pending == (s.pending || ReachesFour(s.cr, h))
      && v.processTime == (if ReachesFour(s.cr, h) then now else s.processTime)
    decreases |h|
  {
    if h == [] {
      assert !ReachesFour(s.cr, h);
    } else {
      var h' := h[..|h| - 1];
      var c := h[|h| - 1];
      assert h' + [c] == h;
      PendingAtFourthBreak(s, h', now, draw);
      HeaderStep(Run(s, h', now, draw), c, now, draw);
      ReachesFourSnoc(s.cr, h', c);
    }
  }

  /** Only KEY stamps the process time, and KEY leads only to KEY and
      VALUE: in the other states the stamp is still the one the parse
      began with. */
  predicate StampUntouched(s: Scan, t0: uint32)
  {
    s.state != KEY && s.state != VALUE ==> s.processTime == t0
  }

  lemma {:induction false} StampKept(s: Scan, q: string, t0: uint32, now: uint32, draw: nat)
    requires WellFormed(s) && StampUntouched(s, t0)
    ensures StampUntouched(Run(s, q, now, draw), t0)
    decreases |q|
  {
    if q != [] {
      StampKept(s, q[..|q| - 1], t0, now, draw);
    }
  }

  /** After an accepted request line, whatever follows (the protocol, the
      header lines, the blank line) leaves the response pending exactly
      when some byte completes a run of four CR/LF bytes. */
  lemma RequestPendingAtFourthBreak(d: uint16, t: uint32, m: string, u: string, h: string, now: uint32, draw: nat)
    requires m == "M-SEARCH" || m == "NOTIFY"
    requires ' ' !in u
    ensures var s := Run(Start(d, t), m + " *" + u + " " + h, now, draw);
      (s.pending <==> ReachesFour(0, h))
      && s.processTime == (if ReachesFour(0, h) then now else t)
  {
    var line := m + " *" + u + " ";
    RequestLineReachesProto(d, t, m, u, now, draw);
    StampKept(Start(d, t), line, t, now, draw);
    var s0 := Run(Start(d, t), line, now, draw);
    PendingAtFourthBreak(s0, h, now, draw);
    RunAppend(Start(d, t), line, h, now, draw);
  }

  /** Outside VALUE the header kind is START: only VALUE classifies it, and
      leaving VALUE resets it. */
  predicate HeaderReset(s: Scan)
  {
    s.state != VALUE ==> s.header == START
  }

  lemma {:induction false} HeaderResetKept(s: Scan, q: string, now: uint32, draw: nat)
    requires WellFormed(s) && HeaderReset(s)
    ensures HeaderReset(Run(s, q, now, draw))
    decreases |q|
  {
    if q != [] {
      HeaderResetKept(s, q[..|q| - 1], now, draw);
    }
  }

  /** CR LF ending the request line moves PROTO to the first header line. */
  lemma ProtoLineEnd(s: Scan, now: uint32, draw: nat)
    requires WellFormed(s) && s.state == PROTO && s.cr == 0
    ensures Run(s, "\r\n", now, draw) == s.(cr := 2, state := KEY, cursor := 0)
  {
    RunOne(s, [], '\r', now, draw);
    ProtoCr(s, now, draw);
    RunOne(s, ['\r'], '\n', now, draw);
    ProtoLf(s.(cr := 1), now, draw);
    assert ['\r', '\n'] == [] + ['\r'] + ['\n'];
  }

  /** CR LF right after a header line's CR LF is the blank line that makes
      the response pending. */
  lemma KeyBlankLine(s: Scan, now: uint32, draw: nat)
    requires WellFormed(s) && s.state == KEY && s.cr == 2
    ensures var v := Run(s, "\r\n", now, draw);
      v.pending && v.processTime == now && v.delay == s.delay
  {
    RunOne(s, [], '\r', now, draw);
    KeyCr(s, now, draw);
    RunOne(s, ['\r'], '\n', now, draw);
    KeyLf(s.(cr := 3), now, draw);
    assert ['\r', '\n'] == [] + ['\r'] + ['\n'];
  }

  /** After the request line: its line end, the line "MX: <k>" and the
      blank line leave the response pending from now with the MX delay. */
  lemma MxHeadersAfterProto(s: Scan, k: string, now: uint32, draw: nat)
    requires WellFormed(s) && s.state == PROTO && s.cr == 0 && s.header == START
    requires k != [] && |k| < SSDP_BUFFER_SIZE - 1
    requires forall i :: 0 <= i < |k| ==> k[i] != '\r' && k[i] != '\n' && k[i] != NUL
    ensures var v := Run(s, "\r\n" + "MX: " + k + "\r\n" + "\r\n", now, draw);
      v.pending && v.processTime == now && v.delay == MxDelay(k, draw)
  {
    var crlf, mx := "\r\n", "MX: ";
    var line := mx + k + crlf;
    ProtoLineEnd(s, now, draw);
    var s2 := Run(s, crlf, now, draw);
    MxLine(s2, k, now, draw);
    var s3 := Run(s2, line, now, draw);
    KeyBlankLine(s3, now, draw);
    ConcatAssoc(crlf, mx, k);
    ConcatAssoc(crlf, mx + k, crlf);
    RunAppend(s, crlf, line, now, draw);
    RunAppend(s, crlf + line, crlf, now, draw);
  }

  /** A search with an MX header: the request line, its line end, the line
      "MX: <k>" and the blank line leave the response pending from now,
      delayed by `random(0, atoi(k)) * 1000` milliseconds. */
  lemma MxRequestIsDelayed(d: uint16, t: uint32, m: string, u: string, proto: string, k: string, now: uint32, draw: nat)
    requires m == "M-SEARCH" || m == "NOTIFY"
    requires ' ' !in u
    requires forall i :: 0 <= i < |proto| ==> proto[i] != '\r' && proto[i] != '\n'
    requires k != [] && |k| < SSDP_BUFFER_SIZE - 1
    requires forall i :: 0 <= i < |k| ==> k[i] != '\r' && k[i] != '\n' && k[i] != NUL
    ensures var p := m + " *" + u + " " + proto + "\r\n" + "MX: " + k + "\r\n" + "\r\n";
      var s := Run(Start(d, t), p, now, draw);
      RequestLineAccepted(p) && s.pending && s.processTime == now && s.delay == MxDelay(k, draw)
  {
    var line := m + " *" + u + " ";
    var crlf, mx := "\r\n", "MX: ";
    var rest := crlf + mx + k + crlf + crlf;
    var S := Start(d, t);
    RequestLineReachesProto(d, t, m, u, now, draw);
    var s0 := Run(S, line, now, draw);
    ProtoPhase(s0, proto, now, draw);
    RunAppend(S, line, proto, now, draw);
    var lp := line + proto;
    HeaderResetKept(S, lp, now, draw);
    MxHeadersAfterProto(Run(S, lp, now, draw), k, now, draw);
    RunAppend(S, lp, rest, now, draw);
    ConcatAssoc(lp, crlf, mx);
    ConcatAssoc(lp, crlf + mx, k);
    ConcatAssoc(lp, crlf + mx + k, crlf);
    ConcatAssoc(lp, crlf + mx + k + crlf, crlf);
    ConcatAssoc(line, proto, rest);
    RequestLinePrefix(line, proto + rest);
  }

  /** Text after a space does not move the first space. */
  lemma {:induction false} SpaceIndexPrefix(p: string, more: string)
    requires SpaceIndex(p) < |p|
    ensures SpaceIndex(p + more) == SpaceIndex(p)
    ensures (p + more)[SpaceIndex(p) + 1..] == p[SpaceIndex(p) + 1..] + more
    decreases |p|
  {
    if p[0] != ' ' {
      assert (p + more)[1..] == p[1..] + more;
      SpaceIndexPrefix(p[1..], more);
    }
  }

  /** Whether the request line is accepted depends only on the bytes up to
      the second space. */
  lemma RequestLinePrefix(line: string, more: string)
    requires RequestLineAccepted(line)
    ensures RequestLineAccepted(line + more)
  {
    var p := line + more;
    var k := SpaceIndex(line);
    SpaceIndexPrefix(line, more);
    assert p[..Min(k, SSDP_METHOD_SIZE - 1)] == line[..Min(k, SSDP_METHOD_SIZE - 1)];
    assert MethodToken(p) == MethodToken(line);
    var rest := AfterMethod(line);
    assert AfterMethod(p) == rest + more;
    SpaceIndexPrefix(rest, more);
  }

  // ---------------------------------------------------------------------
  // The MX delay.

  /** The delay is a whole number of seconds below MX while MX <= 65; for a
      larger MX the 16-bit store wraps, which only ever shortens the delay,
      so the response never waits past MX seconds. */
  lemma MxDelayWithinWindow(value: string, draw: nat)
    ensures var n := Atoi(value); var dl := MxDelay(value, draw);
      (n <= 0 ==> dl == 0)
      && (n > 0 ==> dl < n * 1000 && dl <= Random(n, draw) * 1000)
      && (0 < n <= 65 ==> dl == (draw % n) * 1000)
  {
    var n := Atoi(value);
    if n > 0 {
      var r := draw % n;
      assert r * 1000 < n * 1000;
      if n <= 65 {
        assert r * 1000 <= 64000;
      }
    }
  }

  // ---------------------------------------------------------------------
  // The responder object.

  /** The fields `_update` and `_send` read and write, and the socket's queues. */
  datatype Responder = Responder(
    device: DeviceInfo, respondToAddr: IPv4, respondToPort: uint16,
    pending: bool, delay: uint16, processTime: uint32, notifyTime: uint32,
    inbox: seq<Datagram>, sent: seq<Datagram>)

  /** Run the parser over all the bytes of a payload, from the stored delay
      and process time, and store what it leaves in them. */
  function Absorb(r: Responder, payload: string, now: uint32, draw: nat): Responder
  {
    var s := Run(Start(r.delay, r.processTime), payload, now, draw);
    r.(pending := s.pending, delay := s.delay, processTime := s.processTime)
  }

  /** Take the next datagram, remember its sender and absorb its payload. */
  function Receive(r: Responder, now: uint32, draw: nat): Responder
    requires r.inbox != []
  {
    var dg := r.inbox[0];
    Absorb(r.(inbox := r.inbox[1..], respondToAddr := dg.addr, respondToPort := dg.port), dg.payload, now, draw)
  }

  predicate ResponseDue(r: Responder, now: uint32)
  {
    r.pending && Elapsed(now, r.processTime) > r.delay
  }

  predicate AnnouncementDue(r: Responder, now: uint32)
  {
    r.notifyTime == 0 || Elapsed(now, r.notifyTime) > NOTIFY_PERIOD_MS
  }

  /** The timer decision: the due response, else the due announcement, else nothing. */
  function Timers(r: Responder, now: uint32, localIp: IPv4): Responder
  {
    if ResponseDue(r, now) then
      r.(pending := false, delay := 0,
         sent := r.sent + [Packet(NONE, r.device, localIp, r.respondToAddr, r.respondToPort)])
    else if AnnouncementDue(r, now) then
      r.(notifyTime := now, sent := r.sent + [Packet(NOTIFY, r.device, localIp, r.respondToAddr, r.respondToPort)])
    else r
  }

  /** One call of `_update`. */
  function UpdateSpec(r: Responder, now: uint32, draw: nat, localIp: IPv4): Responder
  {
    var r1 := if !r.pending && r.inbox != [] then Receive(r, now, draw) else r;
    var r2 := Timers(r1, now, localIp);
    if r2.pending then r2.(inbox := []) else r2
  }

  /** Every call sends at most one packet and never takes back what was sent. */
  lemma AtMostOnePacketPerUpdate(r: Responder, now: uint32, draw: nat, ip: IPv4)
    ensures var r' := UpdateSpec(r, now, draw, ip);
      r.sent <= r'.sent && |r'.sent| <= |r.sent| + 1
      && r'.device == r.device
  {
  }

  /** A response goes out only for a pending search whose delay has passed;
      it clears the pending state and goes to the address the request came
      from. Otherwise the announcement goes out when it is due. */
  lemma UpdateSends(r: Responder, now: uint32, draw: nat, ip: IPv4)
    ensures var r1 := if !r.pending && r.inbox != [] then Receive(r, now, draw) else r;
      var r' := UpdateSpec(r, now, draw, ip);
      (ResponseDue(r1, now) ==>
         r'.sent == r.sent + [Packet(NONE, r.device, ip, r1.respondToAddr, r1.respondToPort)]
         && !r'.pending && r'.delay == 0)
      && (!ResponseDue(r1, now) && AnnouncementDue(r1, now) ==>
         r'.sent == r.sent + [Packet(NOTIFY, r.device, ip, r1.respondToAddr, r1.respondToPort)]
         && r'.notifyTime == now)
      && (!ResponseDue(r1, now) && !AnnouncementDue(r1, now) ==> r'.sent == r.sent)
      && (r'.pending ==> r'.inbox == [])
  {
  }

  /** While a response is pending no datagram is parsed: the requester is kept
      and every queued datagram is dropped unless the response goes out now. */
  lemma PendingBlocksParsing(r: Responder, now: uint32, draw: nat, ip: IPv4)
    requires r.pending
    ensures var r' := UpdateSpec(r, now, draw, ip);
      r'.respondToAddr == r.respondToAddr && r'.respondToPort == r.respondToPort
      && (r'.pending ==> r'.inbox == [] && r'.delay == r.delay && r'.processTime == r.processTime)
      && (!r'.pending ==> r'.inbox == r.inbox && r'.sent == r.sent + [Packet(NONE, r.device, ip, r.respondToAddr, r.respondToPort)])
  {
  }

  /** A datagram with a bad request line gets no response: nothing stays
      pending and the only packet this call may send is the announcement. */
  lemma RejectedRequestGetsNoResponse(r: Responder, now: uint32, draw: nat, ip: IPv4)
    requires !r.pending && r.inbox != [] && !RequestLineAccepted(r.inbox[0].payload)
    ensures var r' := UpdateSpec(r, now, draw, ip);
      !r'.pending && r'.inbox == r.inbox[1..]
      && (r'.sent == r.sent
          || r'.sent == r.sent + [Packet(NOTIFY, r.device, ip, r'.respondToAddr, r'.respondToPort)])
  {
    PendingNeedsAcceptedRequestLine(r.delay, r.processTime, r.inbox[0].payload, now, draw);
  }

  /** A bare "M-SEARCH * <proto>" request with no MX header is answered
      after the delay already stored: once the packet has been parsed the
      response is pending from now, the queue is dropped, and only an
      announcement may go out in the same call. */
  lemma BareSearchIsPending(r: Responder, u: string, proto: string, now: uint32, draw: nat, ip: IPv4)
    requires !r.pending && r.inbox != []
    requires ' ' !in u
    requires forall i :: 0 <= i < |proto| ==> proto[i] != '\r' && proto[i] != '\n'
    requires r.inbox[0].payload == "M-SEARCH" + " *" + u + " " + proto + "\r\n\r\n"
    ensures var r' := UpdateSpec(r, now, draw, ip);
      var dg := r.inbox[0];
      r'.pending && r'.inbox == [] && r'.processTime == now && r'.delay == r.delay
      && r'.sent <= r.sent + [Packet(NOTIFY, r.device, ip, dg.addr, dg.port)]
  {
    BareRequestIsAnswered(r.delay, r.processTime, "M-SEARCH", u, proto, now, draw);
  }

  /** A search carrying "MX: <k>" is answered after the MX delay: once the
      packet has been parsed the response is pending from now with delay
      `random(0, atoi(k)) * 1000`, to the sender of the packet, and it is
      due at a later time exactly when more than that delay has elapsed. */
  lemma SearchIsAnsweredAfterDelay(r: Responder, u: string, proto: string, k: string, now: uint32, draw: nat, ip: IPv4)
    requires !r.pending && r.inbox != []
    requires ' ' !in u
    requires forall i :: 0 <= i < |proto| ==> proto[i] != '\r' && proto[i] != '\n'
    requires k != [] && |k| < SSDP_BUFFER_SIZE - 1
    requires forall i :: 0 <= i < |k| ==> k[i] != '\r' && k[i] != '\n' && k[i] != NUL
    requires r.inbox[0].payload == "M-SEARCH" + " *" + u + " " + proto + "\r\n" + "MX: " + k + "\r\n" + "\r\n"
    ensures var r' := UpdateSpec(r, now, draw, ip);
      var dg := r.inbox[0];
      r'.pending && r'.inbox == [] && r'.processTime == now && r'.delay == MxDelay(k, draw)
      && r'.respondToAddr == dg.addr && r'.respondToPort == dg.port
      && r'.sent <= r.sent + [Packet(NOTIFY, r.device, ip, dg.addr, dg.port)]
      && (forall later: uint32 :: ResponseDue(r', later) <==> Elapsed(later, now) > MxDelay(k, draw))
  {
    MxRequestIsDelayed(r.delay, r.processTime, "M-SEARCH", u, proto, k, now, draw);
  }

  /** `buffer[cursor++] = c; buffer[cursor] = '\0';` on the parser's array. */
  method AppendChar(buffer: array<char>, cursor: nat, c: char) returns (next: nat)
    requires cursor + 1 < buffer.Length
    modifies buffer
    ensures next == cursor + 1
    ensures buffer[..] == old(buffer[..])[cursor := c][cursor + 1 := NUL]
  {
    buffer[cursor] := c;
    next := cursor + 1;
    buffer[next] := NUL;
  }

  /** The body of the byte loop: the parser's locals and the three fields it
      writes go in, their new values come out, and the buffer is updated in
      place. */
  method ParseByte(buffer: array<char>, state: ParseState, header: HeaderKind, cursor: nat, cr: byte,
                   requestMethod: Method, pending: bool, delay: uint16, processTime: uint32,
                   c: char, now: uint32, draw: nat)
    returns (state': ParseState, header': HeaderKind, cursor': nat, cr': byte,
             requestMethod': Method, pending': bool, delay': uint16, processTime': uint32)
    requires buffer.Length == SSDP_BUFFER_SIZE && cursor < SSDP_BUFFER_SIZE
    modifies buffer
    ensures cursor' < SSDP_BUFFER_SIZE
    ensures Scan(state', header', cursor', cr', buffer[..], requestMethod', pending', delay', processTime')
            == Step(Scan(state, header, cursor, cr, old(buffer[..]), requestMethod, pending, delay, processTime), c, now, draw)
  {
    ghost var counted := Scan(state, header, cursor, NextCr(cr, c), buffer[..], requestMethod, pending, delay, processTime);
    state', header', cursor', cr', requestMethod', pending', delay', processTime' :=
      state, header, cursor, NextCr(cr, c), requestMethod, pending, delay, processTime;
    match state {
      case METHOD =>
        if c == ' ' {
          requestMethod' := MethodOf(CStr(buffer[..]), requestMethod);
          state' := if requestMethod' == NONE then ABORT else URI;
          cursor' := 0;
        } else if cursor < SSDP_METHOD_SIZE - 1 {
          cursor' := AppendChar(buffer, cursor, c);
        }
      case URI =>
        if c == ' ' {
          state' := if CStr(buffer[..]) != "*" then ABORT else PROTO;
          cursor' := 0;
        } else if cursor < SSDP_URI_SIZE - 1 {
          cursor' := AppendChar(buffer, cursor, c);
        }
      case PROTO =>
        if cr' == 2 {
          state', cursor' := KEY, 0;
        }
      case KEY =>
        if cr' == 4 {
          pending', processTime' := true, now;
        } else if c == ' ' {
          cursor', state' := 0, VALUE;
        } else if c != '\r' && c != '\n' && c != ':' && cursor < SSDP_BUFFER_SIZE - 1 {
          cursor' := AppendChar(buffer, cursor, c);
        }
      case VALUE =>
        if cr' == 2 {
          if header == MX {
            delay' := MxDelay(CStr(buffer[..]), draw);
          }
          state', header', cursor' := KEY, START, 0;
        } else if c != '\r' && c != '\n' {
          header' := HeaderOf(CStr(buffer[..]), header);
          if cursor < SSDP_BUFFER_SIZE - 1 {
            cursor' := AppendChar(buffer, cursor, c);
          }
        }
      case ABORT =>
        pending', delay' := false, 0;
    }
  }

  class SSDPClass {
    var device: DeviceInfo
    var respondToAddr: IPv4
    var respondToPort: uint16
    var pending: bool
    var delay: uint16
    var processTime: uint32
    var notifyTime: uint32
    /** The datagrams the UDP socket has queued, oldest first. */
    var inbox: seq<Datagram>
    /** The datagrams handed to the socket, oldest first. */
    var sent: seq<Datagram>

    function State(): Responder
      reads this
    {
      Responder(device, respondToAddr, respondToPort, pending, delay, processTime, notifyTime, inbox, sent)
    }

    /** `SSDP` is a global: every field starts zeroed, and the member device
        gets UPnPDevice's constructor. */
    constructor ()
      ensures State() == Responder(DeviceInfo("", "", "", "", "", "", "", "", "", DefaultSchemaURL, 0),
                                   IPv4(0, 0, 0, 0), 0, false, 0, 0, 0, [], [])
    {
      device := DeviceInfo("", "", "", "", "", "", "", "", "", DefaultSchemaURL, 0);
      respondToAddr, respondToPort := IPv4(0, 0, 0, 0), 0;
      pending, delay, processTime, notifyTime := false, 0, 0, 0;
      inbox, sent := [], [];
    }

    /** `begin`: copy the device and give the copy the chip's UUID. */
    method Begin(dev: DeviceInfo, chipId: uint32)
      modifies this
      ensures State() == old(State()).(pending := false, device := dev.(uuid := Uuid(chipId)))
    {
      pending := false;
      device := dev.(uuid := Uuid(chipId));
    }

    /** `_send`: fill the template and pick the destination. */
    method Send(m: Method, localIp: IPv4)
      modifies this
      ensures State() == old(State()).(sent := old(sent) + [Packet(m, device, localIp, respondToAddr, respondToPort)])
    {
      var text := PrefixFor(m) + PacketBody(device, localIp);
      var addr, port;
      if m == NONE {
        addr, port := respondToAddr, respondToPort;
      } else {
        addr, port := SSDP_MULTICAST_ADDR, SSDP_PORT;
      }
      sent := sent + [Datagram(text, addr, port)];
    }

    /** The byte loop of `_update` over one datagram. The loop works on
        copies of `_pending`, `_delay` and `_process_time` and stores them
        when the datagram is consumed. */
    method Consume(payload: string, now: uint32, draw: nat)
      requires !pending
      modifies this
      ensures State() == Absorb(old(State()), payload, now, draw)
    {
      var state := METHOD;
      var header := START;
      var cursor: nat := 0;
      var cr: byte := 0;
      var requestMethod := NONE;
      var buffer := new char[SSDP_BUFFER_SIZE](_ => NUL);
      var p, d, t := pending, delay, processTime;
      ghost var start := Start(d, t);
      assert Scan(state, header, cursor, cr, buffer[..], requestMethod, p, d, t) == start;
      var i := 0;
      while i < |payload|
        invariant 0 <= i <= |payload| && cursor < SSDP_BUFFER_SIZE == buffer.Length
        invariant Scan(state, header, cursor, cr, buffer[..], requestMethod, p, d, t)
                  == Run(start, payload[..i], now, draw)
        modifies buffer
      {
        state, header, cursor, cr, requestMethod, p, d, t :=
          ParseByte(buffer, state, header, cursor, cr, requestMethod, p, d, t, payload[i], now, draw);
        NextPrefix(start, payload, i, now, draw);
        i := i + 1;
      }
      assert payload[..i] == payload;
      pending, delay, processTime := p, d, t;
    }

    /** The timer block of `_update`: the due response, else the due
        announcement. */
    method FireTimers(now: uint32, localIp: IPv4)
      modifies this
      ensures State() == Timers(old(State()), now, localIp)
    {
      if pending && Elapsed(now, processTime) > delay {
        pending, delay := false, 0;
        Send(NONE, localIp);
      } else if notifyTime == 0 || Elapsed(now, notifyTime) > NOTIFY_PERIOD_MS {
        notifyTime := now;
        Send(NOTIFY, localIp);
      }
    }

    /** `_update`, called on every received datagram and once a second. */
    method Update(now: uint32, draw: nat, localIp: IPv4)
      modifies this
      ensures State() == UpdateSpec(old(State()), now, draw, localIp)
    {
      ghost var r0 := State();
      if !pending && inbox != [] {
        var dg := inbox[0];
        inbox := inbox[1..];
        respondToAddr, respondToPort := dg.addr, dg.port;
        assert State() == r0.(inbox := r0.inbox[1..], respondToAddr := dg.addr, respondToPort := dg.port);
        Consume(dg.payload, now, draw);
      }
      FireTimers(now, localIp);
      if pending {
        inbox := [];
      }
    }
  }
}
