# arduino-upnp, modelled in Dafny

This project models the core of arduino-upnp. arduino-upnp is a small UPnP
device stack for ESP8266 boards. The model covers these parts of it:

- **SSDP.** There are two versions of the responder. The byte-by-byte
  M-SEARCH parser in `UPnP/SSDP.cpp` is modelled as `SsdpResponder`. The
  rewritten packet analyser in `libraries/UPnP/SSDP.cpp` is modelled as
  `SsdpRewrite` and `HeaderScan`. Both versions build the same response and
  announcement packets, which `SsdpWire` models.
- **The discovery manager** (`Discovery`). It reads the SSDP responses of
  other devices and keeps a table of sensors.
- **The HTTP request parser** (`Parsing`) and **the web server**
  (`Web`). The web server covers handler dispatch, header preparation,
  chunked content writes and request arguments.
- **The device description.** `Device` models the device's fields.
  `UPnPRoot` models the root object and its XML schema. `Service` models
  the service, action and state-variable tables and their XML.
- **The GENA subscriber** (`Subscriber`). It sends NOTIFY messages with an
  increasing event key.
- **The configuration store** (`Config`).
- **The DS3231 real-time clock drivers.** There are two of them:
  `RtcLibrary` and `RtcSketch`. `Rtc` holds the BCD conversions and the
  register layout that both drivers share.
- **The LED and alarm services** (`Led`, `Alarm`). They drive a GPIO pin
  from a state and a period. `Gpio` records the pin writes.

C strings are modelled as `seq<char>` and bytes as a `byte` newtype. A
fixed-size buffer is modelled as an `array`. An object that the source
changes in place is modelled as a `class` whose methods state the new
state. Each parser that reads one byte at a time has a `Step` function and
a method that follows it. Lemmas state what the parser does with whole
inputs. The following are parameters of the operations that use them:

- the clock (`millis`);
- the random draw;
- the bytes that arrive from the network;
- the status results of the two-wire bus.

## Model

| member | source | states |
|---|---|---|
| Text.Strlcpy | UPnP/UPnPDevice.cpp:43 | A copy is a prefix of the source string and is shorter than the buffer. It is the whole string when the string fits, and otherwise exactly size-1 characters. |
| Device.UPnPDevice.constructor | UPnP/UPnPDevice.cpp:26-37 | Every text field starts empty except the schema URL, which is `ssdp/schema.xml`. The port is 0. |
| Device.UPnPDevice.SetSchemaURL | UPnP/UPnPDevice.cpp:42-44 | Only the schema URL changes. It becomes the string cut to its buffer. |
| Device.UPnPDevice.SetHTTPPort | UPnP/UPnPDevice.cpp:46-48 | Only the HTTP port changes. |
| Device.UPnPDevice.SetName | UPnP/UPnPDevice.cpp:50-52 | Only the friendly name changes. It becomes the cut copy. |
| Device.UPnPDevice.SetURL | UPnP/UPnPDevice.cpp:54-56 | Only the presentation URL changes. |
| Device.UPnPDevice.SetSerialNumber | UPnP/UPnPDevice.cpp:58-60 | Only the serial number changes. |
| Device.UPnPDevice.SetModelName | UPnP/UPnPDevice.cpp:62-64 | Only the model name changes. |
| Device.UPnPDevice.SetModelNumber | UPnP/UPnPDevice.cpp:66-68 | Only the model number changes. |
| Device.UPnPDevice.SetModelURL | UPnP/UPnPDevice.cpp:70-72 | Only the model URL changes. |
| Device.UPnPDevice.SetManufacturer | UPnP/UPnPDevice.cpp:74-76 | Only the manufacturer changes. |
| Device.UPnPDevice.SetManufacturerURL | UPnP/UPnPDevice.cpp:78-80 | Only the manufacturer URL changes. |
| Device.UPnPDevice.SetPort | UPnP/UPnPDevice.cpp:82-88 | Only the port changes. |
| UPnPRoot.UPnPClass.constructor | UPnP/UPnP.cpp:25 | The root object starts with every field empty and port 0, within the given buffer sizes. |
| UPnPRoot.UPnPClass.SetSchemaURL | UPnP/UPnP.cpp:94-96 | Only the schema URL changes. It becomes the string cut to its buffer. |
| UPnPRoot.UPnPClass.SetHTTPPort | UPnP/UPnP.cpp:98-100 | Only the HTTP port changes. |
| UPnPRoot.UPnPClass.SetName | UPnP/UPnP.cpp:102-104 | Only the friendly name changes. It becomes the string cut to its buffer. |
| UPnPRoot.UPnPClass.SetURL | UPnP/UPnP.cpp:106-108 | Only the presentation URL changes. It becomes the cut copy. |
| UPnPRoot.UPnPClass.SetSerialNumber | UPnP/UPnP.cpp:110-112 | Only the serial number changes. It becomes the cut copy. |
| UPnPRoot.UPnPClass.SetModelName | UPnP/UPnP.cpp:114-116 | Only the model name changes. It becomes the cut copy. |
| UPnPRoot.UPnPClass.SetModelNumber | UPnP/UPnP.cpp:118-120 | Only the model number changes. It becomes the cut copy. |
| UPnPRoot.UPnPClass.SetModelURL | UPnP/UPnP.cpp:122-124 | Only the model URL changes. It becomes the cut copy. |
| UPnPRoot.UPnPClass.SetManufacturer | UPnP/UPnP.cpp:126-128 | Only the manufacturer changes. It becomes the cut copy. |
| UPnPRoot.UPnPClass.SetManufacturerURL | UPnP/UPnP.cpp:130-132 | Only the manufacturer URL changes. It becomes the cut copy. |
| UPnPRoot.SchemaPlacesEveryField | UPnP/UPnP.cpp:40-92 | The description XML contains each device field in its own element: URLBase, UDN, friendlyName, presentationURL, serialNumber, modelName, modelNumber, modelURL, manufacturer and manufacturerURL. |
| SsdpWire.UuidShape | UPnP/SSDP.cpp:101-105 | The UUID has 36 characters and fits its buffer. It is the fixed prefix followed by six hexadecimal digits. Those digits read back as the chip id modulo 2^24. |
| SsdpWire.UuidIdentifiesChip | libraries/UPnP/SSDP.cpp:96-101 | Two chips have the same UUID if and only if their ids agree modulo 2^24. |
| SsdpWire.ResponseAndAnnouncementShareBody | UPnP/SSDP.cpp:144-181 | A search response goes to the requester. An announcement goes to 239.255.255.250 port 1900. The two differ only in their first lines, and every method other than NONE gives the NOTIFY packet. |
| SsdpWire.PacketFitsBuffer | libraries/UPnP/SSDP.cpp:140-151 | When every device field fits its buffer, the formatted packet is shorter than 512 bytes. |
| SsdpResponder.MethodPhase | UPnP/SSDP.cpp:211-221 | Method bytes without a space go into the buffer, cut to the method's size. The parser stays in the METHOD state, and nothing is pending. |
| SsdpResponder.MethodOutcome | UPnP/SSDP.cpp:211-219 | At the first space the buffer holds the method token. The parser goes to URI if the method is accepted, and otherwise to ABORT. |
| SsdpResponder.AbortIsFinal | UPnP/SSDP.cpp:271-273 | No input leaves the ABORT state, and no response becomes pending. |
| SsdpResponder.UriPhase | UPnP/SSDP.cpp:222-228 | URI bytes without a space keep the parser in the URI state. The buffer holds only the first byte. |
| SsdpResponder.UriStep | UPnP/SSDP.cpp:222-227 | A byte other than a space in URI keeps the first URI byte, followed by a NUL, and drops later ones. Nothing becomes pending. |
| SsdpResponder.UriOutcome | UPnP/SSDP.cpp:222-228 | At the space after the request target, the parser goes to PROTO if the target starts with `*`. Otherwise it goes to ABORT. |
| SsdpResponder.UriSpace | UPnP/SSDP.cpp:222-226 | A space in URI leads to PROTO if the buffer reads `*`, and to ABORT otherwise. The CR count becomes 0. |
| SsdpResponder.UriLineEnd | UPnP/SSDP.cpp:222-226 | A URI that ends at its only space leads to PROTO exactly when it starts with `*` and is not empty. |
| SsdpResponder.AfterAcceptedMethod | UPnP/SSDP.cpp:222-231 | After an accepted method, a target that does not start with `*` aborts. A `*` target leads to the header phase. A pending response needs a `*` target. |
| SsdpResponder.RequestLinePhases | UPnP/SSDP.cpp:205-231 | Over any input, a rejected method or target aborts. An accepted request line leads to the header phase. A pending response needs an accepted request line. |
| SsdpResponder.PendingNeedsAcceptedRequestLine | UPnP/SSDP.cpp:211-236 | A response is pending after a packet only if its request line was accepted. |
| SsdpResponder.ProtoPhase | UPnP/SSDP.cpp:229-231 | Protocol bytes before the line end change nothing but the CR count. |
| SsdpResponder.HeaderPhaseIsFinal | UPnP/SSDP.cpp:229-270 | Once in the header phase, the parser stays there, and a pending response stays pending. |
| SsdpResponder.BlankLineAfterProto | UPnP/SSDP.cpp:229-236 | CR LF CR LF after the protocol makes a response pending. It is stamped with the current time, and the delay is kept. |
| SsdpResponder.RequestLineReachesProto | UPnP/SSDP.cpp:211-231 | `M-SEARCH *` or `NOTIFY *` followed by a space is an accepted request line. It reaches PROTO with nothing pending. |
| SsdpResponder.AcceptedLineReachesProto | UPnP/SSDP.cpp:211-231 | Any request line that passes both checks and ends at its second space reaches PROTO, with nothing pending and the delay kept. |
| SsdpResponder.BareRequestIsAnswered | UPnP/SSDP.cpp:205-236 | `M-SEARCH *` or `NOTIFY *`, a protocol and CR LF CR LF leave a response pending, stamped with the current time. |
| SsdpResponder.MxLine | UPnP/SSDP.cpp:232-269 | A header line `MX: k` stores the delay `random(0, atoi(k)) * 1000` when its line feed arrives, and the parser is back in KEY at the start of the next line. The pending flag and its time stamp do not change. |
| SsdpResponder.MxHeadersAfterProto | UPnP/SSDP.cpp:229-269 | After the protocol, CR LF, the line `MX: k` and a blank line leave the response pending from now, with the MX delay. |
| SsdpResponder.MxRequestIsDelayed | UPnP/SSDP.cpp:205-269 | A whole datagram, `M-SEARCH *` or `NOTIFY *`, then a protocol, an `MX: k` line and a blank line, is accepted. It leaves the response pending from now, with the MX delay. |
| SsdpResponder.HeaderResetKept | UPnP/SSDP.cpp:237-268 | Outside VALUE the header kind is always START: only VALUE classifies it, and leaving VALUE resets it. |
| SsdpResponder.HeaderStep | UPnP/SSDP.cpp:211-269 | One header-phase byte sets the pending flag and the time stamp exactly when the CR/LF counter becomes 4. Otherwise it leaves both alone. |
| SsdpResponder.PendingAtFourthBreak | UPnP/SSDP.cpp:211-269 | Over any header bytes, the response becomes pending exactly when some byte brings the CR/LF run to four. The counter after the bytes is `CrAfter`. |
| SsdpResponder.StampKept | UPnP/SSDP.cpp:211-269 | Outside KEY and VALUE the process time is still the one the parse began with. |
| SsdpResponder.RequestPendingAtFourthBreak | UPnP/SSDP.cpp:205-269 | After an accepted request line, any following bytes leave the response pending exactly when they contain a run of four CR/LF bytes. The time stamp is then the current time, and otherwise the old one. |
| SsdpResponder.RequestLinePrefix | UPnP/SSDP.cpp:211-228 | Whether a request line is accepted is decided by its prefix: more bytes after it do not change the decision. |
| SsdpResponder.MxDelayWithinWindow | UPnP/SSDP.cpp:255-257 | An MX value of 0 or less gives no delay. A positive value gives a delay in whole seconds below MX seconds, which is exactly `random(MX)` seconds when it fits 16 bits. |
| SsdpResponder.AtMostOnePacketPerUpdate | UPnP/SSDP.cpp:283-289 | One update sends at most one packet, appended to those already sent, and leaves the device unchanged. |
| SsdpResponder.UpdateSends | UPnP/SSDP.cpp:283-294 | A due response is sent and clears the pending flag. Otherwise a due announcement is sent and restarts its timer. Otherwise nothing is sent. |
| SsdpResponder.PendingBlocksParsing | UPnP/SSDP.cpp:186-294 | While a response is pending, no packet is read, and the reply address is kept. The update either sends the response or leaves everything waiting. |
| SsdpResponder.RejectedRequestGetsNoResponse | UPnP/SSDP.cpp:186-294 | A packet with a rejected request line is consumed without a pending response. At most an announcement is sent. |
| SsdpResponder.BareSearchIsPending | UPnP/SSDP.cpp:186-294 | A bare M-SEARCH without an MX line is consumed and leaves a response pending from now, with the stored delay and the queue dropped. At most an announcement goes out in the same call. |
| SsdpResponder.SearchIsAnsweredAfterDelay | UPnP/SSDP.cpp:186-294 | An M-SEARCH with the line `MX: k` is consumed and leaves a response pending from now, to its sender, with delay `random(0, atoi(k)) * 1000`. The response is due at a later time exactly when more than that delay has elapsed. |
| SsdpResponder.AppendChar | UPnP/SSDP.cpp:220 | The character is stored at the cursor, a NUL follows it, and the cursor advances. |
| SsdpResponder.ParseByte | UPnP/SSDP.cpp:208-274 | The in-place parser's new state and buffer after one byte are `Step` of the old ones. |
| SsdpResponder.SSDPClass.constructor | UPnP/SSDP.cpp:85-91 | The responder starts with no pending response, no delay and no packets. |
| SsdpResponder.SSDPClass.Begin | UPnP/SSDP.cpp:97-105 | The pending flag is cleared, and the device gets the UUID of the chip id. |
| SsdpResponder.SSDPClass.Send | UPnP/SSDP.cpp:144-181 | Exactly the formatted packet for the reply address is added to the packets sent. |
| SsdpResponder.SSDPClass.Consume | UPnP/SSDP.cpp:188-276 | Reading a packet runs the parser from its start state over the bytes. Pending, delay and time become those of `Run`. |
| SsdpResponder.SSDPClass.FireTimers | UPnP/SSDP.cpp:283-289 | The timer block changes the responder as `Timers` states: the due response, else the due announcement, else nothing. |
| SsdpResponder.SSDPClass.Update | UPnP/SSDP.cpp:186-296 | One update changes the responder as `UpdateSpec` states. The lemmas above give its properties. |
| HeaderScan.LastMatchIsLast | libraries/UPnP/SSDP.cpp:248-258 | The position found is the last candidate position at which the header matches. Without a result, no candidate position matches. |
| HeaderScan.LastMatchFinds | libraries/UPnP/SSDP.cpp:248-258 | If some candidate position matches, the search finds one at or after it. |
| HeaderScan.CutKeepsTail | libraries/UPnP/SSDP.cpp:248-251 | Cutting lines before a position leaves every match at or after that position as it was. |
| HeaderScan.HeaderTable.constructor | libraries/UPnP/SSDP.cpp:203-220 | The header table starts with every entry unfound and every length zero. |
| HeaderScan.HeaderTable.Reset | libraries/UPnP/SSDP.cpp:241-245 | Reset marks every header as not found and keeps the lengths that were set. |
| HeaderScan.HeaderTable.RecordMatches | libraries/UPnP/SSDP.cpp:253-256 | Every header whose name matches at the position is marked there. The other headers keep their marks. |
| SsdpRewrite.WorkBuffer | libraries/UPnP/SSDP.cpp:235-238 | The work buffer is CR, the packet and a NUL. |
| SsdpRewrite.MarkOccurs | libraries/UPnP/SSDP.cpp:248-258 | A header marked as found occurs at the marked position. |
| SsdpRewrite.OccurrenceMarked | libraries/UPnP/SSDP.cpp:248-258 | A header that occurs anywhere in the scanned text is marked. |
| SsdpRewrite.MarkedIffOccurs | libraries/UPnP/SSDP.cpp:248-258 | A header is marked if and only if it occurs in the scanned text. |
| SsdpRewrite.SearchWordAnywhere | libraries/UPnP/SSDP.cpp:248-262 | Any packet that contains `M-SEARCH` before its first NUL is marked as a search. |
| SsdpRewrite.CutAndDetect | libraries/UPnP/SSDP.cpp:247-258 | The in-place scan cuts the buffer at its line ends. Each header's entry is the last match before the NUL. |
| SsdpRewrite.UpdateAnswersSearchesOnly | libraries/UPnP/SSDP.cpp:223-270 | An update takes one packet and answers it if and only if it contains `M-SEARCH`. With a response pending or no packet, nothing changes. |
| SsdpRewrite.EverySecondAnnounces | libraries/UPnP/SSDP.cpp:273-279 | A tick sends one multicast announcement exactly when the interval has elapsed, and restarts the timer. Otherwise it changes nothing. |
| SsdpRewrite.SSDPClass.constructor | libraries/UPnP/SSDP.cpp:75-81 | The responder starts on port 80 with an empty device, no packets and a fresh header table. |
| SsdpRewrite.SSDPClass.Begin | libraries/UPnP/SSDP.cpp:92-101 | The pending flag is cleared, and the device gets the UUID of the chip id. |
| SsdpRewrite.SSDPClass.Send | libraries/UPnP/SSDP.cpp:140-181 | Exactly the formatted packet for the reply address is added to the packets sent. |
| SsdpRewrite.SSDPClass.RegisterNotify | libraries/UPnP/SSDP.cpp:281-283 | Registering the timer changes no modelled state. |
| SsdpRewrite.SSDPClass.Analyse | libraries/UPnP/SSDP.cpp:231-258 | The header table holds the marks of the packet. |
| SsdpRewrite.SSDPClass.Update | libraries/UPnP/SSDP.cpp:223-271 | One update changes the responder as `UpdateSpec` states, and the table holds the marks of the packet read. |
| SsdpRewrite.SSDPClass.EverySecond | libraries/UPnP/SSDP.cpp:273-279 | A tick changes the responder as `EverySecondSpec` states. |
| Discovery.MarksFollowLineEnds | libraries/UPnP/DiscoveryManager.cpp:278-288 | A marked header starts right after a line end. |
| Discovery.LineStartMarked | libraries/UPnP/DiscoveryManager.cpp:278-288 | A header that starts a line before the NUL is marked, at that line or a later one. |
| Discovery.SkipBlanks | libraries/UPnP/DiscoveryManager.cpp:293-294 | Skipping spaces gives a suffix that does not start with a space. |
| Discovery.SkipBlanksOfBlanks | libraries/UPnP/DiscoveryManager.cpp:293-294 | Leading spaces are removed, and the rest is kept whole. |
| Discovery.SensorUsnAccepted | libraries/UPnP/DiscoveryManager.cpp:290-301 | A USN made of spaces, `uuid:`, an optional space and a sensor UUID is accepted. |
| Discovery.SensorUsn | libraries/UPnP/DiscoveryManager.cpp:290-301 | The in-place USN check accepts exactly the values that `IsSensorUsn` accepts. |
| Discovery.FreeSlotExists | libraries/UPnP/DiscoveryManager.cpp:351-355 | A table with fewer occupied slots than slots has a free slot. |
| Discovery.FirstFree | libraries/UPnP/DiscoveryManager.cpp:351-355 | The slot found is free, and every slot before it is occupied. |
| Discovery.AddKeepsInvariant | libraries/UPnP/DiscoveryManager.cpp:327-370 | Adding keeps the USNs unique and the count equal to the occupied slots. A known USN changes nothing. A new one takes the first free slot, after the table grows if it was full, and no other slot changes. |
| Discovery.CutAtLineEnds | libraries/UPnP/DiscoveryManager.cpp:278-288 | The in-place scan cuts the buffer at its line ends. Each header's entry is the last match at a line start. |
| Discovery.ProcessFiltersSensors | libraries/UPnP/DiscoveryManager.cpp:290-301 | A packet without a sensor USN leaves the table as it was. A packet with one leaves that USN in the table. The table invariant holds either way. |
| Discovery.DiscoveryManager.constructor | libraries/UPnP/DiscoveryManager.cpp:55-61 | The manager starts with an empty table of capacity 0. |
| Discovery.DiscoveryManager.Known | libraries/UPnP/DiscoveryManager.cpp:329-334 | The result is true if and only if some slot holds the USN. |
| Discovery.DiscoveryManager.Grow | libraries/UPnP/DiscoveryManager.cpp:336-349 | The table grows by its increment with empty slots, the old entries are kept, and the count is unchanged. |
| Discovery.DiscoveryManager.FindFree | libraries/UPnP/DiscoveryManager.cpp:351-355 | The index found is the first free slot. |
| Discovery.DiscoveryManager.AddDevice | libraries/UPnP/DiscoveryManager.cpp:327-370 | The new table and count are `AddSpec` of the old ones, and the invariant holds. |
| Discovery.DiscoveryManager.Analyse | libraries/UPnP/DiscoveryManager.cpp:268-288 | The header table holds the marks of the packet. |
| Discovery.DiscoveryManager.ProcessPacket | libraries/UPnP/DiscoveryManager.cpp:268-324 | The table and count change as `ProcessSpec` states, and the header table holds the packet's marks. |
| Service.ServiceXMLFields | UPnP/UPnPService.cpp:101-111 | The service element reads back the service type and the service id, each closed by its tag, followed by the fixed URLs. |
| Service.XmlsAppend | UPnP/UPnPService.cpp:113-121 | The XML of two action lists joined is the two XML texts joined. |
| Service.ActionListInOrder | UPnP/UPnPService.cpp:113-121 | Each action's XML sits between the XML of the actions before it and the XML of those after it. |
| Service.ActionListGrows | UPnP/UPnPService.cpp:113-121 | After an action is added, the list is the old actions' XML followed by the new action's XML. |
| Service.EntryFields | UPnP/UPnPService.cpp:127-137 | Each state-variable entry shows its eventing flag in its opening tag. It carries its name between the name tags and ends with its data type. |
| Service.StateTableInOrder | UPnP/UPnPService.cpp:123-140 | Each variable's entry sits between the entries of the variables before it and those after it. |
| Service.AppendEntry | UPnP/UPnPService.cpp:128-136 | The buffer is extended by exactly the variable's entry. |
| Service.VariableCount.constructor | UPnP/UPnPService.cpp:36 | The shared variable count starts at zero. |
| Service.UPnPService.constructor | UPnP/UPnPService.cpp:38-48 | A service starts with blank tables and no actions, and it resets the shared variable count to zero. |
| Service.UPnPService.AddAction | UPnP/UPnPService.cpp:69-82 | The action goes into the next slot, the count grows, and the action list is the old one plus the action. |
| Service.UPnPService.AddStateVariable | UPnP/UPnPService.cpp:84-99 | The variable goes into the slot of the shared count, the count grows, and the variable list is the old one plus the variable. |
| Service.UPnPService.GetActionListXML | UPnP/UPnPService.cpp:113-121 | The result is the action-list XML of the actions added, in order. |
| Service.UPnPService.GetStateVariableListXML | UPnP/UPnPService.cpp:123-140 | The result is the state-table XML of the variables, in order. |
| Service.SecondServiceHidesVariables | UPnP/UPnPService.cpp:36-47 | Creating a second service resets the shared count, so the first service's state table loses the variable it had. |
| Subscriber.MessageStatesBodyLength | UPnP/UPnPSubscriber.cpp:85-86 | The Content-Length line reads back as the body's length, and the body follows the header. |
| Subscriber.HeaderCarriesEventKey | UPnP/UPnPSubscriber.cpp:35-44 | The SEQ line reads back as the event key. |
| Subscriber.AsWrittenBufferOverflows | UPnP/UPnPSubscriber.cpp:85 | The buffer as allocated is at least 18 bytes too small. |
| Subscriber.MessageFitsBuffer | UPnP/UPnPSubscriber.cpp:85-86 | The corrected size holds the message and its NUL exactly. |
| Subscriber.UPnPSubscriber.constructor | UPnP/UPnPSubscriber.cpp:99-105 | The event key starts at 1, and there is no client yet. |
| Subscriber.UPnPSubscriber.SendNotify | UPnP/UPnPSubscriber.cpp:71-97 | The message with the current key is sent and the key advances. The client is connected once. |
| Subscriber.ThreeNotifications | UPnP/UPnPSubscriber.cpp:80-93 | Successive notifications carry keys 1, 2 and 3 over one connection. |
| Parsing.RequestLineNeedsTwoSpaces | UPnP/Parsing.cpp:40-48 | A request line is accepted if and only if it has two spaces. |
| Parsing.RequestLineRoundTrip | UPnP/Parsing.cpp:40-51 | The method, the URL and the rest joined by spaces give back the line. |
| Parsing.RequestLineParts | UPnP/Parsing.cpp:50-51 | Neither the method nor the URL contains a space. |
| Parsing.QueryParts | UPnP/Parsing.cpp:52-58 | The URL splits at its first `?` into a path and a query, and without a `?` the query is empty. |
| Parsing.MethodDefaultsToGet | UPnP/Parsing.cpp:60-72 | POST, DELETE, OPTIONS, PUT and PATCH are recognised, and every other method string is GET. |
| Parsing.HeaderEnd | UPnP/Parsing.cpp:92-99 | Header reading stops at the first blank line or the first line without a colon. |
| Parsing.HeaderRoundTrip | UPnP/Parsing.cpp:96-101 | A header line built from a name without a colon, `: ` and a value continues the headers and gives back the name and the value. |
| Parsing.StepHost | UPnP/Parsing.cpp:119-121 | A header line sets the host if and only if its name is Host. |
| Parsing.HostKept | UPnP/Parsing.cpp:161-182 | Header lines that are not Host lines keep the host. |
| Parsing.HostIsLastHostLine | UPnP/Parsing.cpp:92-182 | The stored host is the value of the last Host line. |
| Parsing.ReadHeaders | UPnP/Parsing.cpp:161-182 | The loop stops at `HeaderEnd`, and the state is that of the lines before it. |
| Parsing.PlainArgsParts | UPnP/Parsing.cpp:124-148 | The arguments are the query, an `&` when there is one, then the body. A JSON body or a body without `=` is prefixed with `plain=`. |
| Parsing.ParseOutcome | UPnP/Parsing.cpp:33-195 | A request fails if and only if its request line has fewer than two spaces, and a failure changes nothing. On success the URI and the method come from the request line. The body is stored only for a method that has one. |
| Parsing.ReadRequestLine | UPnP/Parsing.cpp:40-51 | The result is the split of the request line. |
| Parsing.SplitUrl | UPnP/Parsing.cpp:52-58 | The result is the path and the query of the URL. |
| Parsing.WebServer.ParseRequest | UPnP/Parsing.cpp:33-195 | The result and the new server state are those of `ParseSpec`. |
| Web.ContentWritesBounded | libraries/UPnP/WebServer.cpp:204-218 | No write is empty, and none is longer than the download unit. |
| Web.ContentWritesComplete | libraries/UPnP/WebServer.cpp:204-218 | When each write accepts a whole unit and there are enough writes, all the content from the offset on is delivered. |
| Web.ContentWritesStep | libraries/UPnP/WebServer.cpp:204-218 | One write at an offset sends the unit there. The sending then stops, or goes on from the first byte the client did not take. |
| Web.RefusedWriteStops | libraries/UPnP/WebServer.cpp:204-218 | A refused first write ends the sending after that one call, and nothing is delivered. |
| Web.UnitsCoverContent | libraries/UPnP/WebServer.cpp:248-266 | The units joined give back the content from the offset on. |
| Web.UnitsAreFull | libraries/UPnP/WebServer.cpp:248-266 | Every unit but the last is a full download unit. |
| Web.ResponseTextKnownCodes | libraries/UPnP/WebServer.cpp:411-420 | Exactly the codes 101, 200, 403, 404 and 500 have a reason phrase. |
| Web.StatusLineCode | libraries/UPnP/WebServer.cpp:139-144 | The status line starts with `HTTP/1.1 ` and reads back as the code. |
| Web.PreparedHeaderLayout | libraries/UPnP/WebServer.cpp:139-162 | The header starts with the status line and the content type, `text/html` by default. The pending headers come next, and the Connection and CORS lines and the blank line come last. |
| Web.LengthLineValue | libraries/UPnP/WebServer.cpp:149-155 | The length line is absent only when no length was set and the content is empty. Otherwise it reads back as the set length or the content length. |
| Web.FirstNamed | libraries/UPnP/WebServer.cpp:268-274 | The index found is that of the first argument with the name. Without one the result is None. |
| Web.LastChar | libraries/UPnP/WebServer.cpp:422-427 | The index returned is the length of the C string. |
| Web.ContentTypeIsFirstMatch | libraries/UPnP/WebServer.cpp:439-457 | The type is that of the first suffix in the table that the name ends with. Without one it is `text/plain`. |
| Web.AppendStatus | libraries/UPnP/WebServer.cpp:140-144 | The result is exactly the status line for the code. |
| Web.WebServer.constructor | libraries/UPnP/WebServer.cpp:48-56 | The server starts with no handlers, no arguments and no response headers, and without a not-found handler. |
| Web.WebServer.AddRequestHandler | libraries/UPnP/WebServer.cpp:89-99 | The handler is appended to the chain, the first handler is kept, and the earlier links are unchanged. |
| Web.WebServer.On | libraries/UPnP/WebServer.cpp:85-87 | A new function handler is appended to the chain. |
| Web.WebServer.OnNotFound | libraries/UPnP/WebServer.cpp:308-310 | A not-found handler is set. |
| Web.WebServer.SendHeader | libraries/UPnP/WebServer.cpp:124-136 | The header line is added after or before the pending headers, as asked. |
| Web.WebServer.PrepareHeader | libraries/UPnP/WebServer.cpp:139-162 | The result is `PreparedHeader` with the pending headers, which are then cleared. |
| Web.WebServer.SendContent | libraries/UPnP/WebServer.cpp:204-218 | The client receives exactly the writes of `ContentWrites`. |
| Web.WebServer.SendContentP | libraries/UPnP/WebServer.cpp:248-266 | The client receives the units of the first `size` characters. A null pointer sends nothing. |
| Web.WebServer.Send | libraries/UPnP/WebServer.cpp:164-170 | The prepared header is written, then the content, and the pending headers are cleared. |
| Web.WebServer.Arg | libraries/UPnP/WebServer.cpp:268-274 | The result is the value of the first argument with the name, or empty. |
| Web.WebServer.HasArg | libraries/UPnP/WebServer.cpp:292-298 | The result is true if and only if some argument has the name. |
| Web.WebServer.ArgAt | libraries/UPnP/WebServer.cpp:276-280 | The result is the value at a valid index, and empty otherwise. |
| Web.WebServer.ArgName | libraries/UPnP/WebServer.cpp:282-286 | The result is the name at a valid index, and empty otherwise. |
| Web.WebServer.CleanHeaders | libraries/UPnP/WebServer.cpp:58-64 | Every UPnP header slot is cleared. |
| Web.WebServer.HandleRequest | libraries/UPnP/WebServer.cpp:317-409 | The first handler in the chain that accepts serves the request. Otherwise the file system, then the not-found handler, then a 404 `Not found:` response. Only the 404 writes to the client here, and the URI is cleared. |
| Config.IntItem | UPnP/Configuration.cpp:67-74 | An integer item has its name, its value and the default-int type. |
| Config.StringItem | UPnP/Configuration.cpp:76-83 | A string item has its name, its value and the default-string type. |
| Config.ListedItems | UPnP/Configuration.cpp:39-65 | The items are those before the first NULL, in order. |
| Config.FindItem | UPnP/Configuration.cpp:85-92 | The index found is the first name that matches ignoring case. Without one the result is None. |
| Config.ConstructedItemsAreConfigured | UPnP/Configuration.cpp:67-83 | Both kinds of item count as configured, and their types differ. |
| Config.CopyListed | UPnP/Configuration.cpp:46-63 | The two loops count the items up to the NULL and copy them, in order, into a fresh array with one slot more. |
| Config.StaticConfigurationFindsNothing | UPnP/Configuration.cpp:39-92 | As written, a configuration in static storage built from one item stores that item, yet `GetItem` by its own name finds nothing. |
| Config.CountedConfigurationFinds | UPnP/Configuration.cpp:39-92 | Built by the corrected constructor, the same configuration finds its item. |
| Config.Configuration.constructor | UPnP/Configuration.cpp:39-65 | The items stored are those listed before the NULL, in order. The count `GetItem` searches is left as the storage held it, so only that many items can be found. |
| Config.Configuration.Counted | UPnP/Configuration.cpp:39-65 | The corrected constructor stores the same items and their count. Every lookup then searches all listed items, as `FindItem` over the list does. |
| Config.Configuration.GetItem | UPnP/Configuration.cpp:85-92 | The result is the item that `FindItem` finds. |
| Config.Configuration.GetValue | UPnP/Configuration.cpp:102-117 | The result is 0 for a null name or a missing item, and otherwise the item's integer. |
| Config.Configuration.GetStringValue | UPnP/Configuration.cpp:123-125 | The result is the string of the item found. The source dereferences the item unchecked, so the item must exist. |
| Config.Configuration.Configured | UPnP/Configuration.cpp:135-160 | The result is true if and only if the item exists and its type is not NONE. |
| Config.ListedItemIsFound | UPnP/Configuration.cpp:85-92 | A listed item is found by a name that matches it ignoring case, unless an earlier item matches. |
| Rtc.BcdRoundTrip | libraries/UPnP/DS3231.cpp:139-154 | Below 100 a number goes to BCD and back unchanged. |
| Rtc.DecRoundTrip | libraries/UPnP/DS3231.cpp:139-154 | A byte comes back from its decimal value if and only if it is BCD. |
| Rtc.DecodeTime | libraries/UPnP/DS3231.cpp:125-134 | Each decoded field is within the range its BCD bits allow, and the weekday is left as it was. |
| Rtc.MonthRegisterFields | libraries/UPnP/DS3231.cpp:187-193 | The month register carries the century in bit 7 and the BCD month in bits 0-4. |
| Rtc.TimeRoundTrip | libraries/UPnP/DS3231.cpp:104-196 | Every representable time written to the registers reads back the same, except the weekday, which keeps the value of the `tm` it is read into. |
| Rtc.AsWrittenRoundTripAfter1999 | libraries/UPnP/DS3231.cpp:192-193 | As written, the round trip holds for the years 2000 to 2099. |
| Rtc.AsWrittenRoundTrip | libraries/UPnP/DS3231.cpp:104-196 | As written, every representable time reads back unchanged except the weekday and the year. The year comes back as `AsWrittenYearRead`: itself from 2000 on, and always wrong before 2000. |
| Rtc.AsWrittenYearBefore2000 | libraries/UPnP/DS3231.cpp:193 | As written, a clock set to 1970 reads back the year 1966. |
| Rtc.ReadRegisters | libraries/UPnP/DS3231.cpp:79-87 | The address is sent. On success the first `n` bytes from the chip land in the array. On failure the array is unchanged and the status is returned. |
| RtcLibrary.ProbesMade | libraries/UPnP/DS3231.cpp:43-72 | `begin` always makes the second probe. It makes the third and fourth only while the previous probe failed. |
| RtcLibrary.BeginOutcome | libraries/UPnP/DS3231.cpp:43-72 | `inited` becomes 1 if and only if one of the last three probes succeeds, and -1 otherwise. |
| RtcLibrary.FirstProbeIgnored | libraries/UPnP/DS3231.cpp:47-52 | The result of the first probe changes neither the outcome nor the probes made. |
| RtcLibrary.DS3231.constructor | libraries/UPnP/DS3231.cpp:32-35 | The driver starts with `inited` 0, on its bus. |
| RtcLibrary.DS3231.Begin | libraries/UPnP/DS3231.cpp:43-72 | `inited` is `BeginOutcome` of the probe results, and exactly `ProbesMade` empty transmissions are sent. |
| RtcLibrary.DS3231.ReadRange | libraries/UPnP/DS3231.cpp:75-88 | Before a successful `begin` the read returns 1 and touches nothing. Otherwise the address is sent and the registers are read. |
| RtcLibrary.DS3231.ReadRTC | libraries/UPnP/DS3231.cpp:104-137 | Before a successful `begin` the read returns 4 and leaves the time unchanged. Otherwise the time is `DecodeTime` of the seven registers read. |
| RtcLibrary.DS3231.SetRTC | libraries/UPnP/DS3231.cpp:173-196 | Before a successful `begin` nothing is sent. Otherwise one transmission carries the seconds address followed by `AsWrittenTimeRegisters`, whose year byte is `dec2bcd(tm_year - 100)` for every year. |
| RtcLibrary.DS3231.GetTemperature | libraries/UPnP/DS3231.cpp:201-214 | Before a successful `begin` there is no reading. Otherwise the two registers from 0x11 give the reading in 256ths of a degree. |
| RtcLibrary.SetThenRead | libraries/UPnP/DS3231.cpp:104-196 | After a successful `begin`, a representable time that is set and then read back comes back with the weekday of the `tm` read into and the year `AsWrittenYearRead`. From 2000 on this is the time itself. Before 2000 the year always differs. |
| RtcSketch.DS3231.constructor | UPnP/DS3231.cpp:32-34 | The driver is on its bus. |
| RtcSketch.DS3231.ReadRange | UPnP/DS3231.cpp:47-57 | The address is sent. On success the bytes land in the array, and on failure the array is unchanged. |
| RtcSketch.DS3231.ReadRTC | UPnP/DS3231.cpp:63-92 | The time is `DecodeTime` of the seven registers read, or of the buffer's old contents after a failed read. |
| RtcSketch.DS3231.SetRTC | UPnP/DS3231.cpp:123-142 | One transmission carries the seconds address followed by `AsWrittenTimeRegisters`, whose year byte is `dec2bcd(tm_year - 100)` for every year. |
| RtcSketch.DS3231.GetTemperature | UPnP/DS3231.cpp:144-154 | The two registers from 0x11 give the reading in 256ths of a degree. |
| Led.BlinkStep | UPnP/LEDService.cpp:180-192 | The counter advances. Reaching `active` writes LOW. Reaching `active + passive` writes HIGH and restarts the count at 0. |
| Led.BlinkStaysInCycle | UPnP/LEDService.cpp:180-192 | A count inside the cycle stays inside it. |
| Led.BlinkQuiet | UPnP/LEDService.cpp:157-192 | During the first `active` steps of a cycle nothing is written. |
| Led.BlinkDark | UPnP/LEDService.cpp:157-192 | From step `active` until the cycle ends, only the one LOW has been written. |
| Led.BlinkCycle | UPnP/LEDService.cpp:157-192 | A whole cycle writes LOW once and then HIGH once, and it ends with the counter at 0. |
| Led.PeriodicEffect | UPnP/LEDService.cpp:163-178 | ALARM and ON write HIGH, OFF writes LOW, and INVALID writes nothing. BLINK takes a blink step, and every other state keeps the counter. |
| Led.LEDService.constructor | UPnP/LEDService.cpp:93-101 | A service in zero-initialised storage runs `begin`, so it starts OFF with its pin set as an output and nothing written. |
| Led.LEDService.Begin | UPnP/LEDService.cpp:129-144 | Only the first call has an effect: the state becomes OFF and the pin becomes an output. |
| Led.LEDService.SetState | UPnP/LEDService.cpp:146-152 | `GetState` returns the state set, and nothing else changes. |
| Led.LEDService.SetPeriod | UPnP/LEDService.cpp:157-161 | The on and off times are stored, the counter is reset, and nothing else changes. |
| Led.LEDService.Periodic | UPnP/LEDService.cpp:163-178 | The counter and the pin writes are those of `PeriodicEffect`. |
| Led.LEDService.PeriodicBlink | UPnP/LEDService.cpp:180-192 | The counter and the pin writes are those of `BlinkStep`. |
| Alarm.AlarmItems | libraries/UPnP/AlarmService.cpp:156-161 | The configuration list of `begin` ends with its NULL. |
| Alarm.NoPinItem | libraries/UPnP/AlarmService.cpp:156-163 | The alarm configuration lists the code, from and to items, and none of them is named `pin`. |
| Alarm.PeriodicLevel | libraries/UPnP/AlarmService.cpp:202-213 | ALARM and ON give HIGH, OFF gives LOW, and every other state writes nothing. |
| Alarm.AlarmService.constructor | libraries/UPnP/AlarmService.cpp:102-114 | A service in zero-initialised storage runs `begin`. It starts OFF and drives pin 0, the default, as an output. |
| Alarm.ConfigureAlarm | libraries/UPnP/AlarmService.cpp:154-163 | The `Alarm` configuration holds the items of `AlarmItems` and keeps the count its fresh storage held. For every count up to the number of items, the pin read from it is 0. |
| Alarm.AlarmService.Begin | libraries/UPnP/AlarmService.cpp:150-183 | Only the first call has an effect. It builds the `Alarm` configuration from `AlarmItems` with the count the fresh storage held, reads the pin from it, and makes that pin an output. The pin is 0 for every count up to the number of items. |
| Alarm.AlarmService.SetState | libraries/UPnP/AlarmService.cpp:185-191 | `GetState` returns the state set, and nothing else changes. |
| Alarm.AlarmService.SetPeriod | libraries/UPnP/AlarmService.cpp:196-200 | The times are stored, the counter is reset, and nothing else changes. |
| Alarm.AlarmService.Periodic | libraries/UPnP/AlarmService.cpp:202-213 | The pin write is the one `PeriodicLevel` gives, and nothing else changes. |

## Left out

- Sockets, UDP multicast, IGMP, timers and WiFi are left out. The clock
  (`millis`) and the random draw are inputs, and the draw is a `nat`.
- The device port starts at 0, because the source leaves it unassigned.
- The capacities of `UPnPClass` are parameters.
- The sender's address and port (`udp.remoteIP`/`remotePort`) are
  parameters of `AddDevice`, and so are the header values.
- The subscription id is an opaque `uint32`. The `%p` host field is
  rendered as a fixed text.
- The outbound `WebClient` is modelled as a list of messages sent. The
  subscriber's URL and id are constructor parameters, although the source
  constructor takes none.
- Subscriber.UPnPSubscriber.SendNotify: the event key is an unbounded
  integer, so the wrap-around of the C `int` is not modelled.
- The body of an HTTP request is an input. `contentLength` is not used, and
  the search string is returned as the arguments.
- Handler decisions (`canHandle`) are modelled as a set of accepting
  handlers. Whether the file system serves a request is a boolean input.
- `handleClient`, `streamFile`, SPIFFS, `send_P` and `sendContent_P` with a
  `PGM_P` argument are left out, because they only move bytes to the
  network.
- An item value that the constructor does not set reads as 0 or None.
- The LED state and the alarm state are assumed to start at zero, as
  static storage does.
- Config.Configuration.constructor: `nitems` keeps whatever its storage
  held, which is a parameter. A value larger than the item count would make
  `GetItem` read past the allocation, which is undefined behaviour, so the
  model requires the value to be at most the item count.
- Alarm.AlarmService.Begin: the configuration comes from `new`, so its
  count is indeterminate. The model takes it as a parameter no larger than
  the item count, and the pin is 0 for every such value. A larger value
  would read past the allocation, which the model leaves out.
- Alarm.ConfigureAlarm: the same bound on the indeterminate count applies.
- The LED pin mode is set only under `HAVE_LED`. The model assumes that
  macro is defined.
- The LED and alarm services register actions and state variables, and
  call `UPnPService::begin`. That registration is left out: it is the
  service table's own operation, which `Service` models.
- The SOAP action handlers, `GetVersion`, `SendMailSample`, the DS3231
  `test()` routine, delays and Serial output are left out. They print or
  wait and change no modelled state.
- The DS3231 temperature is returned in raw 256ths of a degree, not as a
  float. `localtime` is an input. The sketch driver's `begin` does nothing.
- Rtc.DecodeTime: the 12-hour mode decoding follows the code as written.
  Its meaning is not stated.
- The BMP180, DHT and motion sensor services and `Time.cpp` are not part of
  this model.
- The SOAP dispatcher and the subscriber table are not in the modelled
  files.

## Findings

| source | as written | input that shows it | evidently intended | confidence | as-written member | corrected member |
|---|---|---|---|---|---|---|
| UPnP/UPnPSubscriber.cpp:85 | `malloc(strlen(body) + strlen(header) + 4)` | any message: the Content-Length line alone needs at least 18 bytes more | a buffer as large as the whole message and its NUL | not executed | Subscriber.AsWrittenBufferOverflows | Subscriber.MessageFitsBuffer |
| UPnP/Configuration.cpp:39-65 | the constructor never assigns `nitems` | a static configuration holding one item finds nothing | the constructor stores the item count | not executed | Config.StaticConfigurationFindsNothing | Config.CountedConfigurationFinds |
| libraries/UPnP/DS3231.cpp:193 | the year byte is `dec2bcd(tm_year - 100)` for every year | a clock set to 1970 reads back 1966 | the year within its century | not executed | Rtc.AsWrittenYearBefore2000 | Rtc.TimeRoundTrip |
