/** What both SSDP responders put on the wire: the device UUID derived from
    the chip id, and the one packet template that serves as a unicast
    search response and as a multicast "ssdp:alive" announcement
    (section 1 of the UPnP Device Architecture 1.0). */
module SsdpWire {
  import opened Text
  import opened Device

  const SSDP_INTERVAL := 1200
  const SSDP_PORT: uint16 := 1900
  const SSDP_MULTICAST_ADDR := IPv4(239, 255, 255, 250)

  /** ssdp_method_t: NONE selects the search response, anything else the announcement. */
  datatype Method = NONE | SEARCH | NOTIFY

  /** One UDP datagram: its bytes and the peer it comes from or goes to. */
  datatype Datagram = Datagram(payload: string, addr: IPv4, port: uint16)

  const ResponsePrefix := "HTTP/1.1 200 OK\r\nEXT:\r\nST: upnp:rootdevice\r\n"
  const NotifyPrefix := "NOTIFY * HTTP/1.1\r\nHOST: 239.255.255.250:1900\r\nNT: upnp:rootdevice\r\nNTS: ssdp:alive\r\n"

  const UuidPrefix := "38323636-4558-4dda-9188-cda0e6"

  /** The UUID `begin` writes into the device copy: the fixed prefix and chip-id
      bytes 2, 1 and 0 as "%02x". */
  function Uuid(chipId: uint32): string
  {
    UuidPrefix + Hex2((chipId / 0x1_0000) % 0x100) + Hex2((chipId / 0x100) % 0x100) + Hex2(chipId % 0x100)
  }

  /** The UUID is 36 characters and fits UPnPDevice's 37-byte array; it starts
      with the fixed prefix and its last six hex digits spell the low 24 bits
      of the chip id. */
  lemma UuidShape(chipId: uint32)
    ensures var u := Uuid(chipId);
      |u| == 36 && |u| < UPnP_UUID_SIZE && u[..30] == UuidPrefix
      && HexNumber(u[30..]) == chipId % 0x100_0000
  {
    var u := Uuid(chipId);
    var b2, b1, b0 := (chipId / 0x1_0000) % 0x100, (chipId / 0x100) % 0x100, chipId % 0x100;
    var h := u[30..];
    assert h == [] + Hex2(b2) + Hex2(b1) + Hex2(b0);
    HexNumberAppend2([], b2);
    HexNumberAppend2([] + Hex2(b2), b1);
    HexNumberAppend2([] + Hex2(b2) + Hex2(b1), b0);
    ChipBytes(chipId);
  }

  lemma HexNumberAppend2(x: string, b: byte)
    ensures HexNumber(x + Hex2(b)) == HexNumber(x) * 256 + b
  {
    var y := x + Hex2(b);
    assert y[..|y| - 1] == x + [Hex2(b)[0]];
    assert (x + [Hex2(b)[0]])[..|x|] == x;
  }

  lemma DivUnique8(x: int, q: int, r: int)
    requires x == q * 0x100 + r && 0 <= r < 0x100
    ensures x / 0x100 == q && x % 0x100 == r
  {
  }

  lemma DivUnique16(x: int, q: int, r: int)
    requires x == q * 0x1_0000 + r && 0 <= r < 0x1_0000
    ensures x / 0x1_0000 == q && x % 0x1_0000 == r
  {
  }

  lemma DivUnique24(x: int, q: int, r: int)
    requires x == q * 0x100_0000 + r && 0 <= r < 0x100_0000
    ensures x / 0x100_0000 == q && x % 0x100_0000 == r
  {
  }

  /** The three low bytes of a chip id are the three bytes of its low 24
      bits, and they spell those bits. */
  lemma Bytes24(x: uint32)
    ensures (x / 0x1_0000) % 0x100 == (x % 0x100_0000) / 0x1_0000
    ensures (x / 0x100) % 0x100 == ((x % 0x100_0000) / 0x100) % 0x100
    ensures x % 0x100 == (x % 0x100_0000) % 0x100
    ensures (((x / 0x1_0000) % 0x100) * 256 + (x / 0x100) % 0x100) * 256 + x % 0x100 == x % 0x100_0000
  {
    var t1 := x / 0x100;
    var b0 := x % 0x100;
    var t2 := t1 / 0x100;
    var b1 := t1 % 0x100;
    var t3 := t2 / 0x100;
    var b2 := t2 % 0x100;
    var lo := (b2 * 0x100 + b1) * 0x100 + b0;
    assert x == t2 * 0x1_0000 + (b1 * 0x100 + b0);
    DivUnique16(x, t2, b1 * 0x100 + b0);
    assert x == t3 * 0x100_0000 + lo;
    DivUnique24(x, t3, lo);
    DivUnique16(lo, b2, b1 * 0x100 + b0);
    DivUnique8(lo, b2 * 0x100 + b1, b0);
    DivUnique8(b2 * 0x100 + b1, b2, b1);
  }

  lemma ChipBytes(x: uint32)
    ensures (((x / 0x1_0000) % 0x100) * 256 + (x / 0x100) % 0x100) * 256 + x % 0x100 == x % 0x100_0000
  {
    Bytes24(x);
  }

  /** Two chips get the same UUID exactly when their ids agree in the low 24 bits. */
  lemma UuidIdentifiesChip(a: uint32, b: uint32)
    ensures Uuid(a) == Uuid(b) <==> a % 0x100_0000 == b % 0x100_0000
  {
    if Uuid(a) == Uuid(b) {
      UuidShape(a);
      UuidShape(b);
    }
    if a % 0x100_0000 == b % 0x100_0000 {
      SameLowBytes(a, b);
    }
  }

  lemma SameLowBytes(a: uint32, b: uint32)
    requires a % 0x100_0000 == b % 0x100_0000
    ensures (a / 0x1_0000) % 0x100 == (b / 0x1_0000) % 0x100
    ensures (a / 0x100) % 0x100 == (b / 0x100) % 0x100
    ensures a % 0x100 == b % 0x100
  {
    Bytes24(a);
    Bytes24(b);
  }

  /** Everything after the prefix: identical for responses and announcements. */
  function PacketBody(d: DeviceInfo, localIp: IPv4): string
  {
    "CACHE-CONTROL: max-age=" + NatToString(SSDP_INTERVAL) + "\r\n"
    + "SERVER: Arduino/1.0 UPNP/1.1 " + d.modelName + "/" + d.modelNumber + "\r\n"
    + "USN: uuid:" + d.uuid + "\r\n"
    + "LOCATION: http://" + IpToString(localIp) + ":" + NatToString(d.port) + "/" + d.schemaURL + "\r\n"
    + "\r\n"
  }

  function PrefixFor(m: Method): string
  {
    if m == NONE then ResponsePrefix else NotifyPrefix
  }

  /** The datagram `_send(m)` hands to the socket. */
  function Packet(m: Method, d: DeviceInfo, localIp: IPv4, respondToAddr: IPv4, respondToPort: uint16): Datagram
  {
    var text := PrefixFor(m) + PacketBody(d, localIp);
    if m == NONE then Datagram(text, respondToAddr, respondToPort)
    else Datagram(text, SSDP_MULTICAST_ADDR, SSDP_PORT)
  }

  /** A response goes to the requester, an announcement to 239.255.255.250:1900;
      the two differ only in their prefix, and SEARCH and NOTIFY give the same
      announcement. */
  lemma ResponseAndAnnouncementShareBody(d: DeviceInfo, ip: IPv4, addr: IPv4, port: uint16, m: Method)
    requires m != NONE
    ensures var r := Packet(NONE, d, ip, addr, port);
            var n := Packet(m, d, ip, addr, port);
      r.addr == addr && r.port == port
      && n.addr == SSDP_MULTICAST_ADDR && n.port == 1900
      && r.payload[..|ResponsePrefix|] == ResponsePrefix
      && n.payload[..|NotifyPrefix|] == NotifyPrefix
      && r.payload[|ResponsePrefix|..] == n.payload[|NotifyPrefix|..]
      && n == Packet(NOTIFY, d, ip, addr, port)
  {
    var b := PacketBody(d, ip);
    assert (ResponsePrefix + b)[|ResponsePrefix|..] == b;
    assert (NotifyPrefix + b)[|NotifyPrefix|..] == b;
  }

  lemma ByteTextLength(b: byte)
    ensures |NatToString(b)| <= 3
  {
    assert Pow10(3) == 1000 by { assert Pow10(1) == 10; assert Pow10(2) == 100; }
    NatToStringLength(b, 3);
  }

  lemma IpTextLength(ip: IPv4)
    ensures |IpToString(ip)| <= 15
  {
    ByteTextLength(ip.a);
    ByteTextLength(ip.b);
    ByteTextLength(ip.c);
    ByteTextLength(ip.d);
  }

  lemma PortTextLength(p: uint16)
    ensures |NatToString(p)| <= 5
  {
    assert Pow10(5) == 100000 by {
      assert Pow10(1) == 10; assert Pow10(2) == 100; assert Pow10(3) == 1000; assert Pow10(4) == 10000;
    }
    NatToStringLength(p, 5);
  }

  /** For any device whose fields fit their arrays, every packet fits the
      512-byte buffer of the rewritten responder (and so the 1460-byte one of
      the first), so snprintf never truncates it. */
  lemma PacketFitsBuffer(m: Method, d: DeviceInfo, ip: IPv4, addr: IPv4, port: uint16)
    requires Fits(d)
    ensures |Packet(m, d, ip, addr, port).payload| < 512
  {
    IpTextLength(ip);
    PortTextLength(d.port);
    assert NatToString(SSDP_INTERVAL) == "1200" by {
      assert NatToString(1) == "1";
      assert NatToString(12) == "12";
      assert NatToString(120) == "120";
    }
  }
}
