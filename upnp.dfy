/** The global UPnPClass object (UPnP/UPnP.cpp): device attributes kept in
    fixed-size character arrays and the device description document served
    over HTTP. */
module UPnPRoot {
  import opened Text
  import opened Device

  /** The SSDP_*_SIZE array sizes of UPnPClass. Their values are not defined
      in the files this model covers, so they are parameters. */
  datatype Capacities = Capacities(
    schemaURL: nat, uuid: nat, friendlyName: nat, serialNumber: nat,
    presentationURL: nat, manufacturer: nat, manufacturerURL: nat,
    modelName: nat, modelURL: nat, modelNumber: nat)

  predicate UsableCapacities(c: Capacities)
  {
    c.schemaURL >= 1 && c.uuid >= 1 && c.friendlyName >= 1 && c.serialNumber >= 1
    && c.presentationURL >= 1 && c.manufacturer >= 1 && c.manufacturerURL >= 1
    && c.modelName >= 1 && c.modelURL >= 1 && c.modelNumber >= 1
  }

  class UPnPClass {
    const caps: Capacities
    var port: uint16
    var schemaURL: string
    var uuid: string
    var friendlyName: string
    var serialNumber: string
    var presentationURL: string
    var manufacturer: string
    var manufacturerURL: string
    var modelName: string
    var modelURL: string
    var modelNumber: string

    function Info(): DeviceInfo
      reads this
    {
      DeviceInfo(uuid, modelName, modelNumber, friendlyName, presentationURL, serialNumber,
                 modelURL, manufacturer, manufacturerURL, schemaURL, port)
    }

    ghost predicate Valid()
      reads this
    {
      UsableCapacities(caps)
      && |schemaURL| < caps.schemaURL && |uuid| < caps.uuid && |friendlyName| < caps.friendlyName
      && |serialNumber| < caps.serialNumber && |presentationURL| < caps.presentationURL
      && |manufacturer| < caps.manufacturer && |manufacturerURL| < caps.manufacturerURL
      && |modelName| < caps.modelName && |modelURL| < caps.modelURL && |modelNumber| < caps.modelNumber
    }

    /** `UPnP` is a global object, so every field starts zeroed. */
    constructor (caps: Capacities)
      requires UsableCapacities(caps)
      ensures Valid() && this.caps == caps
      ensures Info() == DeviceInfo("", "", "", "", "", "", "", "", "", "", 0)
    {
      this.caps := caps;
      port := 0;
      schemaURL, uuid, friendlyName, serialNumber := "", "", "", "";
      presentationURL, manufacturer, manufacturerURL := "", "", "";
      modelName, modelURL, modelNumber := "", "", "";
    }

    method SetSchemaURL(url: string)
      requires Valid()
      modifies this
      ensures Valid()
      ensures schemaURL == Strlcpy(url, caps.schemaURL)
      ensures Info() == old(Info()).(schemaURL := schemaURL)
    {
      schemaURL := Strlcpy(url, caps.schemaURL);
    }

    method SetHTTPPort(p: uint16)
      requires Valid()
      modifies this
      ensures Valid()
      ensures Info() == old(Info()).(port := p)
    {
      port := p;
    }

    method SetName(name: string)
      requires Valid()
      modifies this
      ensures Valid()
      ensures friendlyName == Strlcpy(name, caps.friendlyName)
      ensures Info() == old(Info()).(friendlyName := friendlyName)
    {
      friendlyName := Strlcpy(name, caps.friendlyName);
    }

    method SetURL(url: string)
      requires Valid()
      modifies this
      ensures Valid()
      ensures presentationURL == Strlcpy(url, caps.presentationURL)
      ensures Info() == old(Info()).(presentationURL := presentationURL)
    {
      presentationURL := Strlcpy(url, caps.presentationURL);
    }

    method SetSerialNumber(serial: string)
      requires Valid()
      modifies this
      ensures Valid()
      ensures serialNumber == Strlcpy(serial, caps.serialNumber)
      ensures Info() == old(Info()).(serialNumber := serialNumber)
    {
      serialNumber := Strlcpy(serial, caps.serialNumber);
    }

    method SetModelName(name: string)
      requires Valid()
      modifies this
      ensures Valid()
      ensures modelName == Strlcpy(name, caps.modelName)
      ensures Info() == old(Info()).(modelName := modelName)
    {
      modelName := Strlcpy(name, caps.modelName);
    }

    method SetModelNumber(num: string)
      requires Valid()
      modifies this
      ensures Valid()
      ensures modelNumber == Strlcpy(num, caps.modelNumber)
      ensures Info() == old(Info()).(modelNumber := modelNumber)
    {
      modelNumber := Strlcpy(num, caps.modelNumber);
    }

    method SetModelURL(url: string)
      requires Valid()
      modifies this
      ensures Valid()
      ensures modelURL == Strlcpy(url, caps.modelURL)
      ensures Info() == old(Info()).(modelURL := modelURL)
    {
      modelURL := Strlcpy(url, caps.modelURL);
    }

    method SetManufacturer(name: string)
      requires Valid()
      modifies this
      ensures Valid()
      ensures manufacturer == Strlcpy(name, caps.manufacturer)
      ensures Info() == old(Info()).(manufacturer := manufacturer)
    {
      manufacturer := Strlcpy(name, caps.manufacturer);
    }

    method SetManufacturerURL(url: string)
      requires Valid()
      modifies this
      ensures Valid()
      ensures manufacturerURL == Strlcpy(url, caps.manufacturerURL)
      ensures Info() == old(Info()).(manufacturerURL := manufacturerURL)
    {
      manufacturerURL := Strlcpy(url, caps.manufacturerURL);
    }
  }

  /** `<tag>content</tag>`. */
  function Element(tag: string, content: string): string
  {
    "<" + tag + ">" + content + "</" + tag + ">"
  }

  predicate OccursAt(part: string, whole: string, i: int)
  {
    0 <= i && i + |part| <= |whole| && whole[i..i + |part|] == part
  }

  ghost predicate IsInfix(part: string, whole: string)
  {
    exists i :: OccursAt(part, whole, i)
  }

  const SchemaHead := "HTTP/1.1 200 OK\r\nContent-Type: text/xml\r\nConnection: close\r\nAccess-Control-Allow-Origin: *\r\n\r\n<?xml version=\"1.0\"?><root xmlns=\"urn:schemas-upnp-org:device-1-0\"><specVersion><major>1</major><minor>0</minor></specVersion>"
  const DeviceType := "<deviceType>urn:schemas-upnp-org:device:Basic:1</deviceType>"
  const ServiceList := "<serviceList><service><serviceType>urn:danny-backx-info:service:sensor:1</serviceType><serviceId>urn:danny-backx-info:serviceId:sensor1</serviceId><controlURL>/control.xml</controlURL><eventSubURL>/event.xml</eventSubURL><SCPDURL>/scpd.xml</SCPDURL></service></serviceList>"
  const SchemaTail := ServiceList + "</device></root>\r\n\r\n"

  function UrlBase(ip: IPv4, port: uint16): string
  {
    "http://" + IpToString(ip) + ":" + NatToString(port) + "/"
  }

  /** The device description that `schema` prints for the local address `ip`. */
  function Schema(ip: IPv4, d: DeviceInfo): string
  {
    SchemaHead + Element("URLBase", UrlBase(ip, d.port)) + "<device>" + DeviceType
    + Element("friendlyName", d.friendlyName)
    + Element("presentationURL", d.presentationURL)
    + Element("serialNumber", d.serialNumber)
    + Element("modelName", d.modelName)
    + Element("modelNumber", d.modelNumber)
    + Element("modelURL", d.modelURL)
    + Element("manufacturer", d.manufacturer)
    + Element("manufacturerURL", d.manufacturerURL)
    + Element("UDN", "uuid:" + d.uuid)
    + SchemaTail
  }

  lemma InfixAfter(whole: string, before: string, part: string)
    requires before + part <= whole
    ensures IsInfix(part, whole)
  {
    assert whole[|before|..|before| + |part|] == part;
    assert OccursAt(part, whole, |before|);
  }

  lemma PrefixOfLonger(a: string, b: string, c: string)
    requires a + b <= c
    ensures a <= c
  {
    assert (a + b)[..|a|] == a;
  }

  /** Every part of a concatenation of fourteen strings occurs in it; the
      parts the description places its fields in are the second and the
      fifth to the thirteenth. */
  lemma PartsOccur(p0: string, e0: string, p1: string, p2: string, e1: string, e2: string, e3: string,
                   e4: string, e5: string, e6: string, e7: string, e8: string, e9: string, tail: string)
    ensures var doc := p0 + e0 + p1 + p2 + e1 + e2 + e3 + e4 + e5 + e6 + e7 + e8 + e9 + tail;
      IsInfix(e0, doc) && IsInfix(e1, doc) && IsInfix(e2, doc) && IsInfix(e3, doc) && IsInfix(e4, doc)
      && IsInfix(e5, doc) && IsInfix(e6, doc) && IsInfix(e7, doc) && IsInfix(e8, doc) && IsInfix(e9, doc)
  {
    var doc := p0 + e0 + p1 + p2 + e1 + e2 + e3 + e4 + e5 + e6 + e7 + e8 + e9 + tail;
    var q1 := p0 + e0 + p1 + p2;
    var q2 := q1 + e1;
    var q3 := q2 + e2;
    var q4 := q3 + e3;
    var q5 := q4 + e4;
    var q6 := q5 + e5;
    var q7 := q6 + e6;
    var q8 := q7 + e7;
    var q9 := q8 + e8;
    PrefixOfLonger(q9 + e9, tail, doc);
    InfixAfter(doc, q9, e9);
    PrefixOfLonger(q9, e9, doc);
    InfixAfter(doc, q8, e8);
    PrefixOfLonger(q8, e8, doc);
    InfixAfter(doc, q7, e7);
    PrefixOfLonger(q7, e7, doc);
    InfixAfter(doc, q6, e6);
    PrefixOfLonger(q6, e6, doc);
    InfixAfter(doc, q5, e5);
    PrefixOfLonger(q5, e5, doc);
    InfixAfter(doc, q4, e4);
    PrefixOfLonger(q4, e4, doc);
    InfixAfter(doc, q3, e3);
    PrefixOfLonger(q3, e3, doc);
    InfixAfter(doc, q2, e2);
    PrefixOfLonger(q2, e2, doc);
    InfixAfter(doc, q1, e1);
    PrefixOfLonger(q1, e1, doc);
    PrefixOfLonger(p0 + e0 + p1, p2, doc);
    PrefixOfLonger(p0 + e0, p1, doc);
    InfixAfter(doc, p0, e0);
  }

  /** The description names the HTTP port in URLBase, the UUID in UDN, and
      every attribute inside its own element. */
  lemma SchemaPlacesEveryField(ip: IPv4, d: DeviceInfo)
    ensures var doc := Schema(ip, d);
      IsInfix(Element("URLBase", UrlBase(ip, d.port)), doc)
      && IsInfix(Element("UDN", "uuid:" + d.uuid), doc)
      && IsInfix(Element("friendlyName", d.friendlyName), doc)
      && IsInfix(Element("presentationURL", d.presentationURL), doc)
      && IsInfix(Element("serialNumber", d.serialNumber), doc)
      && IsInfix(Element("modelName", d.modelName), doc)
      && IsInfix(Element("modelNumber", d.modelNumber), doc)
      && IsInfix(Element("modelURL", d.modelURL), doc)
      && IsInfix(Element("manufacturer", d.manufacturer), doc)
      && IsInfix(Element("manufacturerURL", d.manufacturerURL), doc)
  {
    PartsOccur(SchemaHead, Element("URLBase", UrlBase(ip, d.port)), "<device>", DeviceType,
      Element("friendlyName", d.friendlyName),
      Element("presentationURL", d.presentationURL),
      Element("serialNumber", d.serialNumber),
      Element("modelName", d.modelName),
      Element("modelNumber", d.modelNumber),
      Element("modelURL", d.modelURL),
      Element("manufacturer", d.manufacturer),
      Element("manufacturerURL", d.manufacturerURL),
      Element("UDN", "uuid:" + d.uuid),
      SchemaTail);
  }
}
