/** The SSDP client's packet analysis and device table
    (libraries/UPnP/DiscoveryManager.cpp). `ProcessPacket` cuts a received
    datagram into lines, recognises header names only right after a CR or
    LF, and hands packets whose USN names one of this project's sensors to
    `AddDevice`. `AddDevice` keeps a slot table that grows by eight, reuses
    the first slot whose port is 0, and ignores a USN it already holds.

    The sender's address and port are parameters; the UDP socket is not
    modelled. */
module Discovery {
  import opened Text
  import opened HeaderScan

  const HeaderNames: seq<string> := ["M-SEARCH", "NOTIFY", "HTTP/1.1 200 OK", "MAN:", "EXT:", "MX:", "ST:",
                                     "USN:", "NTS:", "LOCATION:", "SERVER:"]
  const HEADER_ST := 6
  const HEADER_USN := 7
  const HEADER_LOCATION := 9
  const HEADER_SERVER := 10

  const SensorUuidPrefix := "38323636-4558-4dda-9188-cda0e6"
  const DISCOVER_DEVICES_INCREMENT := 8

  lemma HeaderNamesUsable()
    ensures forall i :: 0 <= i < |HeaderNames| ==> HeaderNames[i] != [] && NUL !in HeaderNames[i]
  {
  }

  // ---------------------------------------------------------------------
  // What the scan of one packet yields.

  /** The `len + 1` bytes `periodic` hands to `ProcessPacket`. */
  function PacketBuffer(payload: string): string
  {
    payload + [NUL]
  }

  /** The offset recorded for header `i`: the last line start where its name
      begins, within the text before the first NUL. */
  function Mark(payload: string, i: nat): Option<nat>
    requires i < |HeaderNames|
  {
    var w := PacketBuffer(payload);
    LastMatch(w, HeaderNames[i], NulIndex(w), false)
  }

  function Marks(payload: string): (m: seq<Option<nat>>)
    ensures |m| == |HeaderNames|
  {
    seq(|HeaderNames|, i requires 0 <= i < |HeaderNames| => Mark(payload, i))
  }

  /** The packet buffer once every CR and LF before the first NUL is NUL. */
  function CutPacket(payload: string): string
  {
    var w := PacketBuffer(payload);
    Cut(w, NulIndex(w))
  }

  /** The value of header `i`: what follows its name, up to the end of the line. */
  function Value(payload: string, i: nat): Option<string>
    requires i < |HeaderNames|
  {
    ValueAfter(CutPacket(payload), Mark(payload, i), |HeaderNames[i]|)
  }

  lemma NulIndexOfPacket(payload: string)
    ensures NulIndex(PacketBuffer(payload)) == NulIndex(payload)
  {
    var w := PacketBuffer(payload);
    var n := NulIndex(payload);
    assert forall j :: 0 <= j < n ==> w[j] == payload[..n][j];
    NulIndexUnique(w, n);
  }

  /** Every mark sits right after a CR or LF of the packet, so a header on the
      first line is never seen. */
  lemma MarksFollowLineEnds(payload: string, i: nat)
    requires i < |HeaderNames| && Mark(payload, i).Some?
    ensures var q := Mark(payload, i).value;
      1 <= q <= |payload| && IsLineEnd(payload[q - 1])
      && MatchAt(PacketBuffer(payload), q, HeaderNames[i])
  {
    NulIndexOfPacket(payload);
    var q := Mark(payload, i).value;
    assert PacketBuffer(payload)[q - 1] == payload[q - 1];
  }

  /** A header name right after a CR or LF before the first NUL is found. */
  lemma LineStartMarked(payload: string, i: nat, k: nat)
    requires i < |HeaderNames|
    requires k < NulIndex(payload) && IsLineEnd(payload[k]) && MatchAt(payload, k + 1, HeaderNames[i])
    ensures Mark(payload, i).Some? && k + 1 <= Mark(payload, i).value
  {
    var w := PacketBuffer(payload);
    var h := HeaderNames[i];
    NulIndexOfPacket(payload);
    assert w[k + 1..k + 1 + |h|] == payload[k + 1..k + 1 + |h|];
    assert w[k] == payload[k];
    LastMatchFinds(w, h, NulIndex(w), false, k + 1);
  }

  // ---------------------------------------------------------------------
  // The USN filter.

  /** `while (*usn && *usn == ' ') usn++;` */
  function SkipBlanks(s: string): (t: string)
    ensures |t| <= |s| && t == s[|s| - |t|..]
    ensures t != [] ==> t[0] != ' '
  {
    if s != [] && s[0] == ' ' then SkipBlanks(s[1..]) else s
  }

  /** The USN value, after leading blanks, starts with "uuid:"; after at most
      one more blank, the uuid starts with the sensors' UUID prefix. */
  predicate IsSensorUsn(v: string)
  {
    var u := SkipBlanks(v);
    |u| >= 5 && u[..5] == "uuid:"
    && var id := if |u| > 5 && u[5] == ' ' then u[6..] else u[5..];
       |id| >= |SensorUuidPrefix| && id[..|SensorUuidPrefix|] == SensorUuidPrefix
  }

  lemma {:induction false} SkipBlanksOfBlanks(blanks: nat, rest: string)
    requires rest == [] || rest[0] != ' '
    ensures SkipBlanks(seq(blanks, _ => ' ') + rest) == rest
    decreases blanks
  {
    var v := seq(blanks, _ => ' ') + rest;
    if blanks > 0 {
      assert v[1..] == seq(blanks - 1, _ => ' ') + rest;
      SkipBlanksOfBlanks(blanks - 1, rest);
    } else {
      assert v == rest;
    }
  }

  /** A USN written as blanks, "uuid:" and a sensor UUID passes the filter,
      and so does one with a blank after "uuid:". */
  lemma SensorUsnAccepted(blanks: nat, gap: bool, uuid: string)
    requires SensorUuidPrefix <= uuid
    ensures IsSensorUsn(seq(blanks, _ => ' ') + "uuid:" + (if gap then " " else "") + uuid)
  {
    var rest := "uuid:" + (if gap then " " else "") + uuid;
    assert seq(blanks, _ => ' ') + "uuid:" + (if gap then " " else "") + uuid == seq(blanks, _ => ' ') + rest;
    SkipBlanksOfBlanks(blanks, rest);
    assert rest[..5] == "uuid:";
    if gap {
      assert rest[6..] == uuid;
    } else {
      assert rest[5..] == uuid;
    }
  }

  // ---------------------------------------------------------------------
  // The device table.

  /** One discovered device; a null string is None. */
  datatype DiscoveredDevice = DiscoveredDevice(
    ip: IPv4, port: uint16, usn: Option<string>, location: Option<string>,
    upnptype: Option<string>, friendlyname: Option<string>)

  const EmptySlot := DiscoveredDevice(IPv4(0, 0, 0, 0), 0, None, None, None, None)

  /** Number of slots in use: a port of 0 marks a free slot. */
  function Occupied(d: seq<DiscoveredDevice>): (n: nat)
    ensures n <= |d|
  {
    if d == [] then 0 else Occupied(d[..|d| - 1]) + (if d[|d| - 1].port != 0 then 1 else 0)
  }

  predicate HasUsn(d: seq<DiscoveredDevice>, usn: string)
  {
    exists i :: 0 <= i < |d| && d[i].usn == Some(usn)
  }

  predicate UniqueUsns(d: seq<DiscoveredDevice>)
  {
    forall i, j :: 0 <= i < j < |d| && d[i].usn.Some? ==> d[i].usn != d[j].usn
  }

  /** The table invariant: the count bounds the used slots and the capacity
      bounds the count, and no two slots share a USN. */
  predicate TableInvariant(d: seq<DiscoveredDevice>, ndevices: nat)
  {
    Occupied(d) <= ndevices <= |d| && UniqueUsns(d)
  }

  /** Fewer used slots than slots means some slot is free. */
  lemma {:induction false} FreeSlotExists(d: seq<DiscoveredDevice>)
    requires Occupied(d) < |d|
    ensures exists i :: 0 <= i < |d| && d[i].port == 0
    decreases |d|
  {
    if d[|d| - 1].port != 0 {
      FreeSlotExists(d[..|d| - 1]);
      var i :| 0 <= i < |d| - 1 && d[..|d| - 1][i].port == 0;
      assert d[i].port == 0;
    }
  }

  function FirstFree(d: seq<DiscoveredDevice>): (k: nat)
    requires exists i :: 0 <= i < |d| && d[i].port == 0
    ensures k < |d| && d[k].port == 0
    ensures forall j :: 0 <= j < k ==> d[j].port != 0
  {
    if d[0].port == 0 then 0
    else
      assert exists i :: 0 <= i < |d[1..]| && d[1..][i].port == 0 by {
        var i :| 0 <= i < |d| && d[i].port == 0;
        assert d[1..][i - 1].port == 0;
      }
      1 + FirstFree(d[1..])
  }

  /** Replacing one slot changes the used count by at most the slot's change. */
  lemma {:induction false} OccupiedUpdate(d: seq<DiscoveredDevice>, k: nat, x: DiscoveredDevice)
    requires k < |d|
    ensures Occupied(d[k := x]) == Occupied(d) - (if d[k].port != 0 then 1 else 0) + (if x.port != 0 then 1 else 0)
    decreases |d|
  {
    if k < |d| - 1 {
      assert d[k := x][..|d| - 1] == d[..|d| - 1][k := x];
      OccupiedUpdate(d[..|d| - 1], k, x);
    } else {
      assert d[k := x][..|d| - 1] == d[..|d| - 1];
    }
  }

  lemma {:induction false} OccupiedEmptyTail(d: seq<DiscoveredDevice>, n: nat)
    ensures Occupied(d + seq(n, _ => EmptySlot)) == Occupied(d)
    decreases n
  {
    if n > 0 {
      var e := d + seq(n, _ => EmptySlot);
      assert e[..|e| - 1] == d + seq(n - 1, _ => EmptySlot);
      OccupiedEmptyTail(d, n - 1);
    } else {
      assert d + seq(0, _ => EmptySlot) == d;
    }
  }

  /** The table after growing it when it is full. */
  function Grown(d: seq<DiscoveredDevice>, ndevices: nat): seq<DiscoveredDevice>
  {
    if ndevices == |d| then d + seq(DISCOVER_DEVICES_INCREMENT, _ => EmptySlot) else d
  }

  /** The new entry written over `slot`: address, port and USN always,
      the other fields only when their header was found. */
  function Fill(slot: DiscoveredDevice, ip: IPv4, port: uint16, usn: string,
                location: Option<string>, upnptype: Option<string>, friendlyname: Option<string>): DiscoveredDevice
  {
    DiscoveredDevice(ip, port, Some(usn),
                     if location.Some? then location else slot.location,
                     if upnptype.Some? then upnptype else slot.upnptype,
                     if friendlyname.Some? then friendlyname else slot.friendlyname)
  }

  /** `AddDevice` on the table and count. */
  function AddSpec(d: seq<DiscoveredDevice>, ndevices: nat, ip: IPv4, port: uint16, usn: string,
                   location: Option<string>, upnptype: Option<string>, friendlyname: Option<string>)
    : (r: (seq<DiscoveredDevice>, nat))
    requires TableInvariant(d, ndevices)
  {
    if HasUsn(d, usn) then (d, ndevices)
    else
      var g := Grown(d, ndevices);
      OccupiedEmptyTail(d, DISCOVER_DEVICES_INCREMENT);
      FreeSlotExists(g);
      var k := FirstFree(g);
      (g[k := Fill(g[k], ip, port, usn, location, upnptype, friendlyname)], ndevices + 1)
  }

  /** Adding keeps the table invariant: no USN twice, and the count still
      bounds the used slots. A known USN changes nothing; otherwise the table
      grows by exactly eight empty slots when full, the device lands in the
      first free slot, every other slot is untouched and the count rises by
      one. */
  lemma AddKeepsInvariant(d: seq<DiscoveredDevice>, ndevices: nat, ip: IPv4, port: uint16, usn: string,
                          location: Option<string>, upnptype: Option<string>, friendlyname: Option<string>)
    requires TableInvariant(d, ndevices)
    ensures var (d', n') := AddSpec(d, ndevices, ip, port, usn, location, upnptype, friendlyname);
      TableInvariant(d', n') && HasUsn(d', usn)
      && (HasUsn(d, usn) ==> d' == d && n' == ndevices)
      && (!HasUsn(d, usn) ==>
            n' == ndevices + 1
            && |d'| == (if ndevices == |d| then |d| + DISCOVER_DEVICES_INCREMENT else |d|)
            && exists k :: 0 <= k < |d'| && d'[k].usn == Some(usn) && d'[k].ip == ip && d'[k].port == port
                 && (forall j :: 0 <= j < k ==> d'[j].port != 0)
                 && (forall j :: 0 <= j < |d'| && j != k ==> d'[j] == Grown(d, ndevices)[j])
                 && (forall j :: |d| <= j < |d'| && j != k ==> d'[j] == EmptySlot))
  {
    if !HasUsn(d, usn) {
      var g := Grown(d, ndevices);
      GrownTable(d, ndevices, usn);
      FreeSlotExists(g);
      var k := FirstFree(g);
      var x := Fill(g[k], ip, port, usn, location, upnptype, friendlyname);
      PlaceNew(g, ndevices, k, x, usn);
      assert AddSpec(d, ndevices, ip, port, usn, location, upnptype, friendlyname) == (g[k := x], ndevices + 1);
    }
  }

  /** Growing a table without the USN keeps its USNs unique and leaves a
      slot free beyond the count. */
  lemma GrownTable(d: seq<DiscoveredDevice>, ndevices: nat, usn: string)
    requires TableInvariant(d, ndevices) && !HasUsn(d, usn)
    ensures var g := Grown(d, ndevices);
      UniqueUsns(g) && !HasUsn(g, usn) && Occupied(g) <= ndevices < |g|
      && |g| == (if ndevices == |d| then |d| + DISCOVER_DEVICES_INCREMENT else |d|)
      && (forall j :: |d| <= j < |g| ==> g[j] == EmptySlot)
  {
    var g := Grown(d, ndevices);
    OccupiedEmptyTail(d, DISCOVER_DEVICES_INCREMENT);
    forall j | 0 <= j < |g| && g[j].usn.Some?
      ensures g[j].usn != Some(usn)
    {
      if j < |d| { assert g[j] == d[j]; }
    }
    forall i, j | 0 <= i < j < |g| && g[i].usn.Some?
      ensures g[i].usn != g[j].usn
    {
      if j < |d| { assert g[i] == d[i] && g[j] == d[j]; }
    }
  }

  /** Writing a device with a new USN into a free slot keeps the invariant
      with the count one higher. */
  lemma PlaceNew(g: seq<DiscoveredDevice>, n: nat, k: nat, x: DiscoveredDevice, usn: string)
    requires UniqueUsns(g) && !HasUsn(g, usn) && Occupied(g) <= n < |g|
    requires k < |g| && g[k].port == 0 && x.usn == Some(usn)
    ensures TableInvariant(g[k := x], n + 1) && HasUsn(g[k := x], usn)
  {
    OccupiedUpdate(g, k, x);
    assert g[k := x][k].usn == Some(usn);
  }

  // ---------------------------------------------------------------------
  // The manager object.

  /** The cutting and detection loop of `ProcessPacket`: headers are matched
      only right after a CR or LF, which becomes NUL. */
  method CutAtLineEnds(buffer: array<char>, table: HeaderTable)
    requires table.Valid() && table.Ready() && table.found == seq(|table.names|, _ => None)
    requires buffer.Length >= 1 && buffer[buffer.Length - 1] == NUL
    modifies buffer, table
    ensures table.Valid() && table.Ready() && table.length == old(table.length)
    ensures var w := old(buffer[..]);
      buffer[..] == Cut(w, NulIndex(w))
      && table.found == seq(|table.names|, i requires 0 <= i < |table.names| => LastMatch(w, table.names[i], NulIndex(w), false))
  {
    ghost var w := buffer[..];
    ghost var names := table.names;
    var p := 0;
    assert buffer[..] == Cut(w, 0);
    while buffer[p] != NUL
      invariant 0 <= p <= NulIndex(w) && p < buffer.Length
      invariant buffer[..] == Cut(w, p)
      invariant table.Valid() && table.Ready() && table.length == old(table.length)
      invariant forall i :: 0 <= i < |names| ==> table.found[i] == LastMatch(w, names[i], p, false)
      decreases buffer.Length - p
    {
      assert buffer[p] == w[p];
      if buffer[p] == '\r' || buffer[p] == '\n' {
        buffer[p] := NUL;
        assert buffer[..] == Cut(w, p + 1);
        ghost var before := table.found;
        table.RecordMatches(buffer, p + 1);
        ScanStep(w, names, p, false, before, table.found, buffer[..]);
      } else {
        assert buffer[..] == Cut(w, p + 1);
        ScanSkip(w, names, p, false, table.found);
      }
      assert w[p] != NUL;
      p := p + 1;
    }
    assert table.found == seq(|table.names|, i requires 0 <= i < |table.names| => LastMatch(w, table.names[i], NulIndex(w), false));
  }

  /** What `ProcessPacket` does to the table and count. */
  function ProcessSpec(d: seq<DiscoveredDevice>, ndevices: nat, payload: string, ip: IPv4, port: uint16)
    : (seq<DiscoveredDevice>, nat)
    requires TableInvariant(d, ndevices)
  {
    var usn := Value(payload, HEADER_USN);
    if usn.Some? && IsSensorUsn(usn.value) then
      AddSpec(d, ndevices, ip, port, usn.value,
              Value(payload, HEADER_LOCATION), Value(payload, HEADER_ST), Value(payload, HEADER_SERVER))
    else (d, ndevices)
  }

  /** A packet whose USN is missing or names no sensor leaves the table as
      it is; one from a sensor puts that USN in the table. */
  lemma ProcessFiltersSensors(d: seq<DiscoveredDevice>, ndevices: nat, payload: string, ip: IPv4, port: uint16)
    requires TableInvariant(d, ndevices)
    ensures var (d', n') := ProcessSpec(d, ndevices, payload, ip, port);
      var usn := Value(payload, HEADER_USN);
      TableInvariant(d', n')
      && (usn.None? || !IsSensorUsn(usn.value) ==> d' == d && n' == ndevices)
      && (usn.Some? && IsSensorUsn(usn.value) ==> HasUsn(d', usn.value) && n' <= ndevices + 1)
      && (usn.Some? ==> Mark(payload, HEADER_USN).Some?)
  {
    var usn := Value(payload, HEADER_USN);
    if usn.Some? && IsSensorUsn(usn.value) {
      AddKeepsInvariant(d, ndevices, ip, port, usn.value,
                        Value(payload, HEADER_LOCATION), Value(payload, HEADER_ST), Value(payload, HEADER_SERVER));
    }
  }

  /** The USN test of `ProcessPacket`: skip the blanks, require "uuid:",
      skip one more blank, compare with the sensors' UUID prefix. */
  method SensorUsn(v: string) returns (sensor: bool)
    ensures sensor == IsSensorUsn(v)
  {
    var blank := SkipBlanks(v);
    if |blank| < 5 || blank[..5] != "uuid:" {
      return false;
    }
    var uuid := blank[5..];
    if |uuid| > 0 && uuid[0] == ' ' {
      uuid := uuid[1..];
    }
    sensor := |uuid| >= |SensorUuidPrefix| && uuid[..|SensorUuidPrefix|] == SensorUuidPrefix;
  }

  class DiscoveryManager {
    var devices: seq<DiscoveredDevice>
    var ndevices: nat
    var maxdevices: nat
    /** The file-scope `headers[]` table. */
    const headers: HeaderTable

    ghost predicate Valid()
      reads this, headers
    {
      headers.Valid() && headers.names == HeaderNames
      && maxdevices == |devices| && TableInvariant(devices, ndevices)
    }

    /** No table, no devices. */
    constructor ()
      ensures Valid() && fresh(headers)
      ensures devices == [] && ndevices == 0 && maxdevices == 0
    {
      HeaderNamesUsable();
      headers := new HeaderTable(HeaderNames);
      devices := [];
      ndevices, maxdevices := 0, 0;
    }

    /** The duplicate check of `AddDevice`. */
    method Known(usn: string) returns (known: bool)
      requires maxdevices == |devices|
      ensures known == HasUsn(devices, usn)
    {
      var i := 0;
      while i < maxdevices
        invariant 0 <= i <= maxdevices && forall j :: 0 <= j < i ==> devices[j].usn != Some(usn)
      {
        if devices[i].usn.Some? && devices[i].usn.value == usn {
          return true;
        }
        i := i + 1;
      }
      return false;
    }

    /** The growth step of `AddDevice`: when the count has reached the
        capacity, eight more slots, each empty. */
    method Grow()
      requires maxdevices == |devices| && ndevices <= maxdevices
      modifies this
      ensures maxdevices == |devices| && ndevices == old(ndevices)
      ensures devices == Grown(old(devices), old(ndevices))
      ensures unchanged(headers)
    {
      if ndevices == maxdevices {
        maxdevices := maxdevices + DISCOVER_DEVICES_INCREMENT;
        var i := ndevices;
        while i < maxdevices
          invariant ndevices == old(ndevices) && maxdevices == old(maxdevices) + DISCOVER_DEVICES_INCREMENT
          invariant ndevices <= i <= maxdevices && |devices| == i
          invariant devices == old(devices) + seq(i - ndevices, _ => EmptySlot)
        {
          devices := devices + [EmptySlot];
          i := i + 1;
        }
      }
    }

    /** The search of `AddDevice` for the first slot whose port is 0. */
    method FindFree() returns (i: nat)
      requires maxdevices == |devices| && exists k :: 0 <= k < |devices| && devices[k].port == 0
      ensures i == FirstFree(devices)
    {
      i := 0;
      while i < maxdevices && devices[i].port != 0
        invariant 0 <= i <= maxdevices && i <= FirstFree(devices)
      {
        i := i + 1;
      }
    }

    /** `AddDevice`: the address and port of the sender and the found header
        values come in as parameters. */
    method AddDevice(ip: IPv4, port: uint16, usn: string,
                     location: Option<string>, upnptype: Option<string>, friendlyname: Option<string>)
      requires Valid()
      modifies this
      ensures Valid()
      ensures (devices, ndevices) == AddSpec(old(devices), old(ndevices), ip, port, usn, location, upnptype, friendlyname)
    {
      var known := Known(usn);
      if known {
        return;
      }
      Grow();
      OccupiedEmptyTail(old(devices), DISCOVER_DEVICES_INCREMENT);
      FreeSlotExists(devices);
      var i := FindFree();
      devices := devices[i := Fill(devices[i], ip, port, usn, location, upnptype, friendlyname)];
      ndevices := ndevices + 1;
      AddKeepsInvariant(old(devices), old(ndevices), ip, port, usn, location, upnptype, friendlyname);
    }

    /** The packet analysis of `ProcessPacket`: reset the table and scan. */
    method Analyse(payload: string)
      requires headers.Valid() && headers.names == HeaderNames
      modifies headers
      ensures headers.Valid() && headers.Ready()
      ensures headers.found == Marks(payload)
    {
      var n := |payload|;
      var buffer := new char[n + 1](i requires 0 <= i < n + 1 => if i < n then payload[i] else NUL);
      assert buffer[..] == PacketBuffer(payload);
      headers.Reset();
      CutAtLineEnds(buffer, headers);
      NulIndexOfPacket(payload);
    }

    /** `ProcessPacket` for a datagram from `ip`:`port`. */
    method ProcessPacket(payload: string, ip: IPv4, port: uint16)
      requires Valid()
      modifies this, headers
      ensures Valid() && headers.found == Marks(payload)
      ensures (devices, ndevices) == ProcessSpec(old(devices), old(ndevices), payload, ip, port)
    {
      Analyse(payload);
      var cut := CutPacket(payload);
      var found, length := headers.found, headers.length;
      var usn := ValueAfter(cut, found[HEADER_USN], length[HEADER_USN]);
      assert usn == Value(payload, HEADER_USN);
      if usn.Some? {
        var sensor := SensorUsn(usn.value);
        if sensor {
          var location := ValueAfter(cut, found[HEADER_LOCATION], length[HEADER_LOCATION]);
          var upnptype := ValueAfter(cut, found[HEADER_ST], length[HEADER_ST]);
          var server := ValueAfter(cut, found[HEADER_SERVER], length[HEADER_SERVER]);
          assert location == Value(payload, HEADER_LOCATION);
          assert upnptype == Value(payload, HEADER_ST);
          assert server == Value(payload, HEADER_SERVER);
          AddDevice(ip, port, usn.value, location, upnptype, server);
        }
      }
    }
  }
}
