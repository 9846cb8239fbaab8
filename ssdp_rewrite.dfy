/** The rewritten SSDP responder (libraries/UPnP/SSDP.cpp). `_update` copies
    one datagram into a work buffer that starts with a sentinel '\r' and ends
    in NUL, overwrites every CR and LF with NUL, and looks for each name of
    its `headers[]` table at every offset. A datagram containing "M-SEARCH"
    is answered at once; one containing "NOTIFY" is handed to
    `RegisterNotify`, which does nothing. `EverySecond` announces the device
    every SSDP_INTERVAL seconds.

    The clock and the UDP receive queue are inputs, as in the first
    responder. */
module SsdpRewrite {
  import opened Text
  import opened Device
  import opened SsdpWire
  import opened HeaderScan

  const HeaderNames: seq<string> := ["M-SEARCH", "NOTIFY", "MAN:", "MX:", "ST:", "USN:", "NTS:", "LOCATION:"]
  const M_SEARCH_HEADER := 0
  const NOTIFY_HEADER := 1
  const NOTIFY_PERIOD_MS := SSDP_INTERVAL * 1000

  lemma HeaderNamesUsable()
    ensures forall i :: 0 <= i < |HeaderNames| ==> HeaderNames[i] != [] && NUL !in HeaderNames[i]
  {
  }

  /** The `ssdplen + 2` bytes of the work buffer. */
  function WorkBuffer(payload: string): (w: string)
    ensures |w| == |payload| + 2 && w[0] == '\r' && w[|w| - 1] == NUL
    ensures w[1..|w| - 1] == payload
  {
    ['\r'] + payload + [NUL]
  }

  /** The offset recorded for header `i` once `payload` has been scanned. */
  function Mark(payload: string, i: nat): Option<nat>
    requires i < |HeaderNames|
  {
    var w := WorkBuffer(payload);
    LastMatch(w, HeaderNames[i], NulIndex(w), true)
  }

  /** The whole `found` column after the scan. */
  function Marks(payload: string): (m: seq<Option<nat>>)
    ensures |m| == |HeaderNames|
  {
    seq(|HeaderNames|, i requires 0 <= i < |HeaderNames| => Mark(payload, i))
  }

  /** The text the scan walks over: the datagram up to its first NUL. */
  function ScannedText(payload: string): string
  {
    payload[..NulIndex(payload)]
  }

  lemma NulIndexOfWork(payload: string)
    ensures NulIndex(WorkBuffer(payload)) == NulIndex(payload) + 1
  {
    var w := WorkBuffer(payload);
    var n := NulIndex(payload);
    forall j | 0 <= j < n + 1 ensures w[j] != NUL {
      if j > 0 { assert w[j] == payload[..n][j - 1]; }
    }
    NulIndexUnique(w, n + 1);
  }

  /** A marked header occurs in the text before the first NUL. */
  lemma MarkOccurs(payload: string, i: nat)
    requires i < |HeaderNames| && Mark(payload, i).Some?
    ensures MatchAt(ScannedText(payload), Mark(payload, i).value - 1, HeaderNames[i])
  {
    HeaderNamesUsable();
    var h := HeaderNames[i];
    var w := WorkBuffer(payload);
    var n := NulIndex(payload);
    var t := ScannedText(payload);
    NulIndexOfWork(payload);
    var q := Mark(payload, i).value;
    assert MatchAt(w, q, h);
    assert q - 1 + |h| <= n;
    assert t[q - 1..q - 1 + |h|] == w[q..q + |h|];
  }

  /** An occurrence in the text before the first NUL is marked. */
  lemma OccurrenceMarked(payload: string, i: nat, k: nat)
    requires i < |HeaderNames| && MatchAt(ScannedText(payload), k, HeaderNames[i])
    ensures Mark(payload, i).Some?
  {
    var h := HeaderNames[i];
    var w := WorkBuffer(payload);
    var t := ScannedText(payload);
    NulIndexOfWork(payload);
    assert w[k + 1..k + 1 + |h|] == t[k..k + |h|];
    LastMatchFinds(w, h, NulIndex(payload) + 1, true, k + 1);
  }

  /** A header is marked exactly when its name occurs somewhere in the text
      before the first NUL, at a line start or not. */
  lemma MarkedIffOccurs(payload: string, i: nat)
    requires i < |HeaderNames|
    ensures Mark(payload, i).Some? <==> exists k :: MatchAt(ScannedText(payload), k, HeaderNames[i])
  {
    if Mark(payload, i).Some? {
      MarkOccurs(payload, i);
    }
    if k :| MatchAt(ScannedText(payload), k, HeaderNames[i]) {
      OccurrenceMarked(payload, i, k);
    }
  }

  /** "M-SEARCH" anywhere before the first NUL marks the datagram as a search,
      even in the middle of a line. */
  lemma SearchWordAnywhere(a: string, b: string)
    requires NUL !in a
    ensures Mark(a + "M-SEARCH" + b, M_SEARCH_HEADER).Some?
  {
    var p := a + "M-SEARCH" + b;
    assert forall j :: 0 <= j < |a| + 8 ==> p[j] != NUL by {
      forall j | 0 <= j < |a| + 8 ensures p[j] != NUL {
        if j < |a| { assert p[j] == a[j]; } else { assert p[j] == "M-SEARCH"[j - |a|]; }
      }
    }
    var n := NulIndex(p);
    assert n >= |a| + 8;
    var t := ScannedText(p);
    assert t[|a|..|a| + 8] == "M-SEARCH";
    OccurrenceMarked(p, M_SEARCH_HEADER, |a|);
  }

  /** The cutting and detection loop of `_update` over the work buffer. */
  method CutAndDetect(buffer: array<char>, table: HeaderTable)
    requires table.Valid() && table.Ready() && table.found == seq(|table.names|, _ => None)
    requires buffer.Length >= 1 && buffer[buffer.Length - 1] == NUL
    modifies buffer, table
    ensures table.Valid() && table.Ready() && table.length == old(table.length)
    ensures var w := old(buffer[..]);
      buffer[..] == Cut(w, NulIndex(w))
      && table.found == seq(|table.names|, i requires 0 <= i < |table.names| => LastMatch(w, table.names[i], NulIndex(w), true))
  {
    ghost var w := buffer[..];
    ghost var names := table.names;
    var p := 0;
    assert buffer[..] == Cut(w, 0);
    while buffer[p] != NUL
      invariant 0 <= p <= NulIndex(w) && p < buffer.Length
      invariant buffer[..] == Cut(w, p)
      invariant table.Valid() && table.Ready() && table.length == old(table.length)
      invariant forall i :: 0 <= i < |names| ==> table.found[i] == LastMatch(w, names[i], p, true)
      decreases buffer.Length - p
    {
      assert buffer[p] == w[p];
      if buffer[p] == '\r' || buffer[p] == '\n' {
        buffer[p] := NUL;
      }
      assert buffer[..] == Cut(w, p + 1);
      ghost var before := table.found;
      table.RecordMatches(buffer, p + 1);
      ScanStep(w, names, p, true, before, table.found, buffer[..]);
      assert w[p] != NUL;
      p := p + 1;
    }
    assert p == NulIndex(w);
    assert table.found == seq(|table.names|, i requires 0 <= i < |table.names| => LastMatch(w, table.names[i], NulIndex(w), true));
  }

  /** What `_update` and `_send` read and write, and the socket's queues. */
  datatype Responder = Responder(
    device: DeviceInfo, respondToAddr: IPv4, respondToPort: uint16,
    pending: bool, notifyTime: uint32, inbox: seq<Datagram>, sent: seq<Datagram>)

  /** One call of `_update`: take the next datagram unless one is being
      handled, and answer it when "M-SEARCH" was found. */
  function UpdateSpec(r: Responder, localIp: IPv4): Responder
  {
    if r.pending || r.inbox == [] then r
    else
      var dg := r.inbox[0];
      var r1 := r.(inbox := r.inbox[1..], respondToAddr := dg.addr, respondToPort := dg.port);
      if Mark(dg.payload, M_SEARCH_HEADER).Some? then
        r1.(sent := r.sent + [Packet(NONE, r.device, localIp, dg.addr, dg.port)])
      else r1
  }

  predicate AnnouncementDue(notifyTime: uint32, now: uint32)
  {
    notifyTime == 0 || Elapsed(now, notifyTime) > NOTIFY_PERIOD_MS
  }

  function EverySecondSpec(r: Responder, now: uint32, localIp: IPv4): Responder
  {
    if AnnouncementDue(r.notifyTime, now) then
      r.(notifyTime := now, sent := r.sent + [Packet(NOTIFY, r.device, localIp, r.respondToAddr, r.respondToPort)])
    else r
  }

  /** `_update` sends one response to the sender of a datagram containing
      "M-SEARCH" and nothing otherwise; a NOTIFY datagram sends nothing. It
      never changes the pending flag, the device or the announcement timer. */
  lemma UpdateAnswersSearchesOnly(r: Responder, ip: IPv4)
    ensures var r' := UpdateSpec(r, ip);
      r'.pending == r.pending && r'.device == r.device && r'.notifyTime == r.notifyTime
      && (!r.pending && r.inbox != [] ==>
            var dg := r.inbox[0];
            r'.inbox == r.inbox[1..]
            && ((exists k :: MatchAt(ScannedText(dg.payload), k, "M-SEARCH"))
                  ==> r'.sent == r.sent + [Packet(NONE, r.device, ip, dg.addr, dg.port)])
            && (!(exists k :: MatchAt(ScannedText(dg.payload), k, "M-SEARCH")) ==> r'.sent == r.sent))
      && (r.pending || r.inbox == [] ==> r' == r)
  {
    if !r.pending && r.inbox != [] {
      MarkedIffOccurs(r.inbox[0].payload, M_SEARCH_HEADER);
    }
  }

  /** `EverySecond` sends one announcement exactly when it is due, and
      changes nothing otherwise. */
  lemma EverySecondAnnounces(r: Responder, now: uint32, ip: IPv4)
    ensures var r' := EverySecondSpec(r, now, ip);
      (AnnouncementDue(r.notifyTime, now) <==> |r'.sent| == |r.sent| + 1)
      && (AnnouncementDue(r.notifyTime, now) ==>
            r'.notifyTime == now && r'.sent[|r.sent|].addr == SSDP_MULTICAST_ADDR && r'.sent[..|r.sent|] == r.sent)
      && (!AnnouncementDue(r.notifyTime, now) ==> r' == r)
  {
  }

  class SSDPClass {
    var device: DeviceInfo
    var port: uint16
    var respondToAddr: IPv4
    var respondToPort: uint16
    var pending: bool
    var notifyTime: uint32
    /** The datagrams the UDP socket has queued, oldest first. */
    var inbox: seq<Datagram>
    /** The datagrams handed to the socket, oldest first. */
    var sent: seq<Datagram>
    /** The file-scope `headers[]` table. */
    const headers: HeaderTable

    function State(): Responder
      reads this
    {
      Responder(device, respondToAddr, respondToPort, pending, notifyTime, inbox, sent)
    }

    ghost predicate Valid()
      reads this, headers
    {
      headers.Valid() && headers.names == HeaderNames && !pending
    }

    /** `_port(80)` and `_pending(false)`; the other fields are zero in the
        global object. */
    constructor ()
      ensures Valid() && fresh(headers)
      ensures port == 80
      ensures State() == Responder(DeviceInfo("", "", "", "", "", "", "", "", "", DefaultSchemaURL, 0),
                                   IPv4(0, 0, 0, 0), 0, false, 0, [], [])
    {
      HeaderNamesUsable();
      headers := new HeaderTable(HeaderNames);
      device := DeviceInfo("", "", "", "", "", "", "", "", "", DefaultSchemaURL, 0);
      port := 80;
      respondToAddr, respondToPort := IPv4(0, 0, 0, 0), 0;
      pending, notifyTime := false, 0;
      inbox, sent := [], [];
    }

    /** `begin`: copy the device and give the copy the chip's UUID. */
    method Begin(dev: DeviceInfo, chipId: uint32)
      requires Valid()
      modifies this
      ensures Valid()
      ensures State() == old(State()).(pending := false, device := dev.(uuid := Uuid(chipId)))
    {
      pending := false;
      device := dev.(uuid := Uuid(chipId));
    }

    /** `_send`: fill the template and pick the destination. */
    method Send(m: Method, localIp: IPv4)
      modifies this
      ensures State() == old(State()).(sent := old(sent) + [Packet(m, device, localIp, respondToAddr, respondToPort)])
    {
      var text := PrefixFor(m) + PacketBody(device, localIp);
      var addr, port;
      if m == NONE {
        addr, port := respondToAddr, respondToPort;
      } else {
        addr, port := SSDP_MULTICAST_ADDR, SSDP_PORT;
      }
      sent := sent + [Datagram(text, addr, port)];
    }

    /** Devices announcing themselves are not tracked. */
    method RegisterNotify()
      ensures State() == old(State())
    {
    }

    /** The packet analysis of `_update`: build the work buffer, reset the
        table and scan. */
    method Analyse(payload: string)
      requires headers.Valid() && headers.names == HeaderNames
      modifies headers
      ensures headers.Valid() && headers.Ready()
      ensures headers.found == Marks(payload)
    {
      var n := |payload|;
      var buffer := new char[n + 2](i requires 0 <= i < n + 2 =>
                                      if i == 0 then '\r' else if i <= n then payload[i - 1] else NUL);
      assert buffer[..] == WorkBuffer(payload);
      headers.Reset();
      CutAndDetect(buffer, headers);
    }

    /** `_update`, called when a datagram arrives. */
    method Update(localIp: IPv4)
      requires Valid()
      modifies this, headers
      ensures Valid()
      ensures State() == UpdateSpec(old(State()), localIp)
      ensures old(inbox) != [] ==> headers.found == Marks(old(inbox)[0].payload) && headers.Ready()
      ensures old(inbox) == [] ==> headers.found == old(headers.found) && headers.length == old(headers.length)
    {
      if !pending && inbox != [] {
        pending := true;
        var dg := inbox[0];
        inbox := inbox[1..];
        respondToAddr, respondToPort := dg.addr, dg.port;
        Analyse(dg.payload);
        if headers.found[M_SEARCH_HEADER].Some? {
          Send(NONE, localIp);
        } else if headers.found[NOTIFY_HEADER].Some? {
          RegisterNotify();
        }
        pending := false;
      }
    }

    /** `EverySecond`, run by the one-second timer. */
    method EverySecond(now: uint32, localIp: IPv4)
      modifies this
      ensures State() == EverySecondSpec(old(State()), now, localIp)
    {
      if notifyTime == 0 || Elapsed(now, notifyTime) > NOTIFY_PERIOD_MS {
        notifyTime := now;
        Send(NOTIFY, localIp);
      }
    }
  }
}
