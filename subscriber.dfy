/** A GENA event subscriber (UPnP/UPnPSubscriber.cpp): the NOTIFY message of
    section 4.2 of the UPnP Device Architecture 1.0, its SEQ counter, and the
    web client created on first use. */
module Subscriber {
  import opened Text

  /** The host-and-port line's `%p` conversion of the literal 45678 as newlib
      prints a pointer: `0x` and lower-case hexadecimal digits. */
  const HostPortText := "0xb26e"

  /** The header template filled with the fixed delivery path and host, the
      subscription id and the event key. */
  function NotifyHeader(sid: uint32, eventKey: int): string
  {
    NotifyLines(sid) + "SEQ: " + IntToString(eventKey) + "\r\n\r\n"
  }

  /** The header lines before the SEQ line. */
  function NotifyLines(sid: uint32): string
  {
    "NOTIFY delivery/path HTTP/1.0\r\n"
      + "HOST: host:" + HostPortText + "\r\n"
      + "CONTENT-TYPE: text/xml; charset=\"utf-8\"\r\n"
      + "NT: upnp:event\r\n"
      + "NTS: upnp:propchange\r\n"
      + "SID: uuid:" + Hex8(sid) + "\r\n"
  }

  /** The body template with its one `%s` filled by the literal `varlist`:
      no variable name or value is substituted. */
  const NotifyBody :=
    "<?xml version=\"1.0\"?>\r\n"
      + "<e:propertyset xmlns:e=\"urn:schemas-upnp-org:event-1-0\">\r\n"
      + "<e:property>\r\n"
      + "varlist\r\n"
      + "</e:property>\r\n"
      + "</e:propertyset>\r\n"
      + "\r\n"

  const LengthField := "\r\nContent-Length: "

  /** The complete message: header, the body's length, then the body. */
  function Message(header: string, body: string): string
  {
    header + LengthField + NatToString(|body|) + "\r\n" + body
  }

  /** Where the parts of a three-part concatenation sit. */
  lemma Parts3(x: string, y: string, z: string)
    ensures (x + y + z)[..|x|] == x
    ensures (x + y + z)[|x|..|x| + |y|] == y
    ensures (x + y + z)[|x| + |y|..] == z
  {
  }

  lemma Regroup4(a: string, b: string, c: string, d: string)
    ensures a + b + c + d == a + b + (c + d)
  {
  }

  lemma Regroup(a: string, b: string, c: string, d: string, e: string)
    ensures a + b + c + d + e == a + b + (c + (d + e))
  {
  }

  /** The message is the header, then a Content-Length line whose number a
      reader (atoi) gets back as the body's length, then exactly the body. */
  lemma MessageStatesBodyLength(header: string, body: string)
    ensures var m := Message(header, body);
      var at := |header| + |LengthField|;
      m[..|header|] == header
      && m[|header|..at] == LengthField
      && m[at..] == NatToString(|body|) + ("\r\n" + body)
      && Atoi(m[at..]) == |body|
  {
    var n := NatToString(|body|);
    var tail := "\r\n" + body;
    Regroup(header, LengthField, n, "\r\n", body);
    Parts3(header, LengthField, n + tail);
    AtoiOfNatToString(|body|, tail);
  }

  /** The SEQ line carries the event key: a reader gets the number back. */
  lemma HeaderCarriesEventKey(sid: uint32, eventKey: nat)
    ensures var h := NotifyHeader(sid, eventKey);
      var at := |h| - 4 - |NatToString(eventKey)|;
      0 <= at - 5 && h[at - 5..at] == "SEQ: " && Atoi(h[at..]) == eventKey
  {
    var n := NatToString(eventKey);
    var front := NotifyLines(sid);
    assert IntToString(eventKey) == n;
    Regroup4(front, "SEQ: ", n, "\r\n\r\n");
    Parts3(front, "SEQ: ", n + "\r\n\r\n");
    AtoiOfNatToString(eventKey, "\r\n\r\n");
  }

  // ---------------------------------------------------------------------
  // The message buffer

  /** `malloc(strlen(body) + strlen(header) + 4)`: the size the source
      allocates for the message. */
  function AsWrittenBufferSize(header: string, body: string): nat
  {
    |header| + |body| + 4
  }

  /** The message and its terminating NUL need 18 bytes more than that or
      more, for every header and body. */
  lemma AsWrittenBufferOverflows(header: string, body: string)
    ensures |Message(header, body)| + 1 >= AsWrittenBufferSize(header, body) + 18
  {
    NatToStringDigits(|body|);
  }

  /** The size the message needs: header, the Content-Length line, body and
      the NUL that sprintf appends. */
  function BufferSize(header: string, body: string): nat
  {
    |header| + |LengthField| + |NatToString(|body|)| + 2 + |body| + 1
  }

  /** The message and its NUL fill that size exactly. */
  lemma MessageFitsBuffer(header: string, body: string)
    ensures |Message(header, body)| + 1 == BufferSize(header, body)
  {
  }

  // ---------------------------------------------------------------------
  // The subscriber object

  /** The outbound HTTP client: connecting ignores the URL it is given (the
      client uses a fixed address), and each send writes one message. */
  class WebClient {
    var connects: nat
    var sent: seq<string>

    constructor ()
      ensures connects == 0 && sent == []
    {
      connects := 0;
      sent := [];
    }

    method Connect(url: string)
      modifies this
      ensures connects == old(connects) + 1 && sent == old(sent)
    {
      connects := connects + 1;
    }

    method Send(msg: string)
      modifies this
      ensures sent == old(sent) + [msg] && connects == old(connects)
    {
      sent := sent + [msg];
    }
  }

  class UPnPSubscriber {
    const url: string
    /** The subscription id: the source prints the object's address. */
    const sid: uint32
    var eventKey: int
    var wc: WebClient?

    constructor (url: string, sid: uint32)
      ensures this.url == url && this.sid == sid
      ensures eventKey == 1 && wc == null
    {
      this.url := url;
      this.sid := sid;
      eventKey := 1;
      wc := null;
    }

    /** Sends one NOTIFY carrying the current event key, then advances it;
        the client is created and connected only when there is none. */
    method SendNotify() returns (msg: string)
      modifies this, wc
      ensures eventKey == old(eventKey) + 1
      ensures msg == Message(NotifyHeader(sid, old(eventKey)), NotifyBody)
      ensures wc != null
      ensures old(wc) != null ==> wc == old(wc) && wc.connects == old(wc.connects)
      ensures old(wc) == null ==> fresh(wc) && wc.connects == 1
      ensures wc.sent == (if old(wc) == null then [] else old(wc.sent)) + [msg]
    {
      var body := NotifyBody;
      var header := NotifyHeader(sid, eventKey);
      eventKey := eventKey + 1;
      var size := BufferSize(header, body);
      MessageFitsBuffer(header, body);
      msg := header + LengthField + NatToString(|body|) + "\r\n" + body;
      if wc == null {
        wc := new WebClient();
        wc.Connect(url);
      }
      wc.Send(msg);
    }
  }

  /** Successive notifications from one subscriber carry 1, 2, 3, ... and go
      out over one client, connected once. */
  method ThreeNotifications(url: string, sid: uint32) returns (sent: seq<string>, connects: nat)
    ensures sent == [Message(NotifyHeader(sid, 1), NotifyBody),
                     Message(NotifyHeader(sid, 2), NotifyBody),
                     Message(NotifyHeader(sid, 3), NotifyBody)]
    ensures connects == 1
  {
    var s := new UPnPSubscriber(url, sid);
    var m1 := s.SendNotify();
    var m2 := s.SendNotify();
    var m3 := s.SendNotify();
    sent := s.wc.sent;
    connects := s.wc.connects;
  }
}
