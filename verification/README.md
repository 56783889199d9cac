# ISMS firmware: a verified model

The firmware is an ESP32 safety and security monitor. It carries a small MQTT 3.1.1 broker of its own, an
actuator task with timed outputs, a door latch, and a dashboard, and it is built with a WebSocket client
component. This project models those parts in Dafny and proves what they keep in every run.

| files | part |
|---|---|
| `Bytes`, `Ticks`, `Options`, `Seqs` | bytes, 32-bit arithmetic, C strings in buffers, the wrapping clock |
| `Socket`, `RemainingLength`, `PacketHandler` | reading a byte stream that arrives in pieces: exact reads, the remaining-length codec, the packet loop of a client handler |
| `PacketFraming`, `PacketBoundary`, `PublishRoundTrip` | the packets of the standard as a grammar; where the loop keeps the packet boundary and where not; what is published reads back |
| `TopicMatch` | `topic_matches` against section 4.7 of MQTT 3.1.1 |
| `BrokerTable`, `BrokerProtocol`, `BrokerFilters` | the client table and the publisher as an object, all interleavings of accept loop, handlers and publishers, and what the table then says about the clients |
| `BrokerReplies`, `BrokerSessions`, `HandlerReplies` | replies and PUBLISH frames on one socket; what a handler that follows the packet loop asks for and sends |
| `PacketReader`, `BrokerPackets`, `BrokerSplits` | a client that reads its stream packet by packet; when it reads the frames and replies as they were made, and runs in which it does not |
| `WsSend`, `WsReceive` | fragmenting sends and chunked receives against RFC 6455 |
| `WsHistory`, `WsLifecycle`, `WsClient` | the connection state machine with any number of senders, its events, and the client object |
| `WsHandshake`, `WsKeepalive`, `WsTimers` | the close handshake; PING and PONG; the ping interval, the wait before a reconnect, and stopping |
| `WsLocks`, `WsTurns` | the two locks of the build with a separate transmit lock; what the task does in a turn of its loop |
| `Actuator`, `ActuatorPanel`, `ActuatorTiming`, `FanWatchdog`, `ActuatorTask` | the actuator task against button 2 and the posters, write by write: outputs and records, how long they last, the watchdog; and as an object |
| `Door`, `Presence`, `SystemState` | the door latch, the dashboard presence flag, the system state |

Code that changes things in place is modelled as classes and arrays with loops. Their contracts equate the
new state with a function of the old one (`Handle`, `Deliver`, `Fragments`, `Do`, `After`), and the lemmas
are about those functions. Tasks that interleave are a transition system (`Enabled`, `Do`, `Exec`); a lemma
whose name ends in `InEveryRun` quantifies over every sequence of steps from the start.

Where the code does not do what its documentation or the standard says, the code is modelled and the exact
condition is proved:

* The packet loop masks the type with 0xF0 but `MQTT_SUBSCRIBE` is 0x82, so the SUBSCRIBE arm is never
  entered (`NeverSubscribesAsWritten`, `NothingDeliveredToFollowers`). The lemmas about subscribing take the type
  constant as a parameter and hold for the intended 0x80.
* The remaining-length decoder refuses fields of four bytes: it inverts the encoder exactly below 2^21
  (`DecodeEncoded`).
* The packet loop keeps the packet boundary exactly if what it takes for a packet lies inside it
  (`BoundaryExactly`): the client identifier of a CONNECT, the filters of a SUBSCRIBE, the topic of a PUBLISH
  with at most 749 bytes of payload. A PINGREQ is never skipped over, so any body it has is taken for the next
  packet (`PingBodyLost`).
* SUBACK is complete exactly if every filter found a free slot (`SubackComplete`).
* `topic_matches` departs from section 4.7 in exactly three ways (`MatchesAsStandard`).
* Replies to a client are sent outside the broker mutex, a SUBACK in two sends. Every frame and every reply on its
  stream is in one piece exactly if its handler never replied while a publisher was in the middle of a frame for it,
  and no publisher sent to it between the two sends of a SUBACK (`WholeExactly`). Both do happen (`SplitHappens`,
  `SubackSplit`). Without them the client reads its stream as a sequence of packets: the frames of the publications
  that selected it and the replies of its handler, each whole and in order (`UnitsInEveryRun`, `ReadsAsPackets`).
* A WebSocket connection attempt ends at most once except after one of two races, and exactly then (`OnceInEveryRun`,
  `StaleSendHappens`, `LateCloseHappens`).
* A PING is answered with its own payload exactly if one read got all of it (`PongEchoesPing`).
* With separate locks, threads can wait for each other in a cycle exactly if event handlers send from within a sender,
  where the ERROR event of a failed write is delivered with the main lock held (`CycleExactly`).
* A manual fan keeps within the bound of its watchdog at every point, however long the tasks take within the
  timing, exactly if button 2 never sets the flag over a stamp that was too old when the last check began
  (`BoundExactly`). Three presses around a FAN_OFF leave such a stamp (`StalePressHappens`).
* The watchdog takes a manual fan away exactly when the stamp is 30 s old at the reading of the clock, but a stamp that
  is stored after that reading always counts as old (`ClearsExactly`). The fan that the button has just switched on
  can so be left on with nothing to switch it off (`ClearedTooEarly`).
* The presence flag is right exactly as long as no event is misread through the wrapping clock (`RightExactly`,
  `BothNeeded`).
* The documentation asks for 50 ms of low level before a close is recorded. By the readings of the pin, a close is
  recorded without that exactly if an interrupt found the door high in that time, or the stamp of the confirmation
  was not set or not older than 50 ms; readings that were low since the clock showed zero are the one exception
  (`CloseTooEarly`). An interrupt closes without a look at the stamp (`DroppedAtOnce`, `DroppedInTime`), and a
  confirmation without a look at the interrupt (`ConfirmedTooEarly`, `ConfirmedAtOnce`).
* A door opened when the clock shows zero is not released however long it is seen open (`ZeroStampStays`,
  `OpenedAtZero`); every other latch set by an event is younger than 30 s at the end of a turn (`LatchIsYoung`).

## Model

| member | source | states |
|---|---|---|
| Socket.Socket.Recv | rtos_firmware/main/ISMS_MQTT_v8_0_RTOS_PERF.c:1167 | any nonempty piece of what is left, or an end that is final; the bytes are those of the stream, in order |
| Socket.ReadExact | rtos_firmware/main/ISMS_MQTT_v8_0_RTOS_PERF.c:1162-1171 | however the stream is split, succeeds exactly if enough bytes are left, and then the buffer holds precisely the next ones and the stream has lost precisely those |
| Socket.Drain | rtos_firmware/main/ISMS_MQTT_v8_0_RTOS_PERF.c:1204-1213 | a skip loop drops exactly the announced number of bytes, whatever its chunk size and the split |
| RemainingLength.EncodeRemainingLen | rtos_firmware/main/ISMS_MQTT_v8_0_RTOS_PERF.c:1187-1197 | the bytes written are the base-128 field of the number, and no other byte of the buffer changes |
| RemainingLength.DecodeRemainingLen | rtos_firmware/main/ISMS_MQTT_v8_0_RTOS_PERF.c:1173-1185 | value, failure and bytes consumed for every stream are those of the decoder function |
| RemainingLength.DigitStep | rtos_firmware/main/ISMS_MQTT_v8_0_RTOS_PERF.c:1177-1182 | no 32-bit product or sum in the decoder wraps |
| RemainingLength.EncodeLenIsField | rtos_firmware/main/ISMS_MQTT_v8_0_RTOS_PERF.c:1187-1197 | the encoding is a digit string with continuation bits on all bytes but the last, and its value under section 2.2.3 is the number |
| RemainingLength.EncodeLenMinimal | rtos_firmware/main/ISMS_MQTT_v8_0_RTOS_PERF.c:1187-1197 | every other digit string with that value is longer |
| RemainingLength.EncodeLenSize | rtos_firmware/main/ISMS_MQTT_v8_0_RTOS_PERF.c:1187-1197 | k bytes exactly for numbers of k base-128 digits, so at most four below 2^28 |
| RemainingLength.DecodeEncoded | rtos_firmware/main/ISMS_MQTT_v8_0_RTOS_PERF.c:1173-1197 | decoding an encoding, followed by anything, gives the value and leaves exactly what follows if and only if the value is below 2^21 |
| RemainingLength.DecodeSound | rtos_firmware/main/ISMS_MQTT_v8_0_RTOS_PERF.c:1173-1185 | whatever is accepted is a digit string of at most three bytes with its standard value |
| PacketHandler.ReadString | rtos_firmware/main/ISMS_MQTT_v8_0_RTOS_PERF.c:1199-1218 | length, text and rest of the stream for a buffer of a given size; a string that does not fit is consumed and comes out empty |
| PacketHandler.Handler.Connect | rtos_firmware/main/ISMS_MQTT_v8_0_RTOS_PERF.c:1314-1338 | identifier set, CONNACK sent and bytes consumed as the arm says, for every stream, truncated ones included |
| PacketHandler.Handler.Subscribe | rtos_firmware/main/ISMS_MQTT_v8_0_RTOS_PERF.c:1339-1375 | filters stored in order while slots are free, SUBACK with their return codes, and the bytes consumed |
| PacketHandler.Handler.ReadFilters | rtos_firmware/main/ISMS_MQTT_v8_0_RTOS_PERF.c:1345-1365 | the filter loop adds one filter and one return code a turn, and stops at the eighth, at the end of the packet or of the stream |
| PacketHandler.Handler.Publish | rtos_firmware/main/ISMS_MQTT_v8_0_RTOS_PERF.c:1383-1400 | topic and payload handed on, with at most 749 payload bytes read |
| PacketHandler.Handler.Packet | rtos_firmware/main/ISMS_MQTT_v8_0_RTOS_PERF.c:1310-1410 | one turn of the packet loop: what it asks for, what it leaves of the stream, and whether it goes on |
| PacketHandler.Handler.Run | rtos_firmware/main/ISMS_MQTT_v8_0_RTOS_PERF.c:1296-1420 | the whole handler: its actions and the unread rest depend on the bytes only, not on the pieces they came in, and it terminates |
| PacketFraming.ReadStringField | rtos_firmware/main/ISMS_MQTT_v8_0_RTOS_PERF.c:1199-1218 | a length-prefixed field of the standard is consumed exactly, whatever follows |
| PacketFraming.ConnectExact | rtos_firmware/main/ISMS_MQTT_v8_0_RTOS_PERF.c:1314-1338 | a well-formed CONNECT is consumed exactly and means its client identifier |
| PacketFraming.SubscribeExact | rtos_firmware/main/ISMS_MQTT_v8_0_RTOS_PERF.c:1339-1375 | a well-formed SUBSCRIBE is consumed exactly up to the filters that find a slot and means those filters |
| PacketFraming.PublishExact | rtos_firmware/main/ISMS_MQTT_v8_0_RTOS_PERF.c:1383-1400 | a well-formed PUBLISH with at most 749 bytes of payload is consumed exactly, at every QoS |
| PacketFraming.PacketExact | rtos_firmware/main/ISMS_MQTT_v8_0_RTOS_PERF.c:1310-1410 | every packet of the grammar, followed by anything: exactly its bytes are consumed, and its meaning is the packet that was encoded |
| PacketFraming.StreamExact | rtos_firmware/main/ISMS_MQTT_v8_0_RTOS_PERF.c:1309-1415 | every concatenation of packets keeps the loop aligned on the next header, for any bytes that follow |
| PacketFraming.SessionExact | rtos_firmware/main/ISMS_MQTT_v8_0_RTOS_PERF.c:1309-1420 | a session ends at DISCONNECT with what follows unread, or at the end of the stream |
| PacketBoundary.ConnectAligned | rtos_firmware/main/ISMS_MQTT_v8_0_RTOS_PERF.c:1314-1338 | of all bodies of the announced length after which the loop goes on, those of a CONNECT that keep the packet boundary are exactly the ones whose client identifier lies inside |
| PacketBoundary.SubscribeAligned | rtos_firmware/main/ISMS_MQTT_v8_0_RTOS_PERF.c:1339-1375 | the same for a SUBSCRIBE: every filter that is read lies inside with the byte after it |
| PacketBoundary.PublishAligned | rtos_firmware/main/ISMS_MQTT_v8_0_RTOS_PERF.c:1383-1400 | the same for a PUBLISH: the topic lies inside and the payload has at most 749 bytes |
| PacketBoundary.BoundaryExactly | rtos_firmware/main/ISMS_MQTT_v8_0_RTOS_PERF.c:1309-1410 | for every first byte, every length field that the decoder accepts and every body of the announced length after which the loop goes on, it is on the packet boundary if and only if what it took for the packet lies inside |
| PacketBoundary.FieldsDecoded | rtos_firmware/main/ISMS_MQTT_v8_0_RTOS_PERF.c:1173-1185 | the shortest field of the length is such a field, and a longer one with the same value is another |
| PacketBoundary.StandardBytes | rtos_firmware/main/ISMS_MQTT_v8_0_RTOS_PERF.c:1309-1400 | in literal bytes: the first byte of each packet, and the actions and replies that it leads to, with texts of at most 31 and 63 bytes |
| PacketBoundary.StandardSubscribe | rtos_firmware/main/ISMS_MQTT_v8_0_RTOS_PERF.c:1339-1375 | in literal bytes: the filters, return codes and SUBACK of a SUBSCRIBE, with at most eight filters a client |
| PacketBoundary.ConnectNoId | rtos_firmware/main/ISMS_MQTT_v8_0_RTOS_PERF.c:1313-1337 | a CONNECT without a client identifier is consumed exactly, and its client is called unknown |
| PacketBoundary.PublishCut | rtos_firmware/main/ISMS_MQTT_v8_0_RTOS_PERF.c:1384-1400 | of a payload of 750 bytes or more the first 749 are published, and the rest is left in the stream |
| PacketBoundary.PingBodyLost | rtos_firmware/main/ISMS_MQTT_v8_0_RTOS_PERF.c:1376-1379 | the body of a PINGREQ is taken for the next packet, and a byte in it can end the session |
| PacketFraming.SubackComplete | rtos_firmware/main/ISMS_MQTT_v8_0_RTOS_PERF.c:1339-1375 | one return code per filter, as section 3.9.3 asks, if and only if all filters found a slot |
| PacketFraming.NeverSubscribesAsWritten | rtos_firmware/main/ISMS_MQTT_v8_0_RTOS_PERF.c:1312-1339 | with the type constant of the source, no stream of bytes whatever gets a filter into the table |
| TopicMatch.LevelsInjective | rtos_firmware/main/ISMS_MQTT_v8_0_RTOS_PERF.c:1220-1229 | splitting texts at slashes, on which section 4.7 rests, loses nothing |
| TopicMatch.MatchesAsStandard | rtos_firmware/main/ISMS_MQTT_v8_0_RTOS_PERF.c:1220-1229 | for all valid filters and topics: equal to level-by-level matching of section 4.7 except that a filter with + never matches, t/# does not match t, and # matches topics that start with $ |
| TopicMatch.DeparturesOccur | rtos_firmware/main/ISMS_MQTT_v8_0_RTOS_PERF.c:1220-1229 | each of the three departures has a concrete filter and topic |
| BrokerTable.Broker.AllocClient | rtos_firmware/main/ISMS_MQTT_v8_0_RTOS_PERF.c:1231-1235 | the first free entry, or none exactly if all are active |
| BrokerTable.Broker.Accept | rtos_firmware/main/ISMS_MQTT_v8_0_RTOS_PERF.c:1457-1474 | an entry is taken for the socket and counted, or the table is unchanged because it is full |
| BrokerTable.Broker.FreeClient | rtos_firmware/main/ISMS_MQTT_v8_0_RTOS_PERF.c:1237-1251 | an active entry is freed and uncounted; an index out of range or a free entry changes nothing |
| BrokerTable.Broker.SetClientId | rtos_firmware/main/ISMS_MQTT_v8_0_RTOS_PERF.c:1332-1334 | the identifier is cut to its buffer and stays terminated |
| BrokerTable.Broker.AddFilter | rtos_firmware/main/ISMS_MQTT_v8_0_RTOS_PERF.c:1346-1364 | the filter joins those held before, which all stay |
| BrokerTable.Broker.Matches | rtos_firmware/main/ISMS_MQTT_v8_0_RTOS_PERF.c:1275-1277 | for an active client, true exactly if it holds a matching filter |
| BrokerTable.WantsExactly | rtos_firmware/main/ISMS_MQTT_v8_0_RTOS_PERF.c:1273-1277 | the inner loop finds a match if and only if the client is active and holds a filter that topic_matches accepts for the topic |
| BrokerTable.WantsMore | rtos_firmware/main/ISMS_MQTT_v8_0_RTOS_PERF.c:1353-1358 | a stored filter counts from then on together with those stored before, and an entry just taken or freed wants nothing |
| BrokerTable.Broker.SendFrame | rtos_firmware/main/ISMS_MQTT_v8_0_RTOS_PERF.c:1279-1286 | the sends to one client are the chunks of one frame, in order |
| BrokerTable.Broker.Publish | rtos_firmware/main/ISMS_MQTT_v8_0_RTOS_PERF.c:1253-1289 | every output stream is as the delivery function says, the table is unchanged, and the packet identifier moves on modulo 2^16 for QoS above 0 |
| BrokerTable.DeliverOnce | rtos_firmware/main/ISMS_MQTT_v8_0_RTOS_PERF.c:1273-1286 | a socket receives the whole frame once if an active client on it holds a filter that topic_matches accepts for the topic, and otherwise nothing |
| BrokerTable.SubscribedHolds | rtos_firmware/main/ISMS_MQTT_v8_0_RTOS_PERF.c:1353-1358 | storing a filter adds that filter and removes none |
| BrokerTable.SubscribedFilters | rtos_firmware/main/ISMS_MQTT_v8_0_RTOS_PERF.c:1353-1358 | storing any filter adds its first 63 bytes to the filters held and removes none; an entry just taken holds none |
| BrokerTable.NamedKeeps | rtos_firmware/main/ISMS_MQTT_v8_0_RTOS_PERF.c:1332-1334 | the identifier is stored up to 31 bytes, and nothing else of the entry changes |
| BrokerTable.SlotsStayOk | rtos_firmware/main/ISMS_MQTT_v8_0_RTOS_PERF.c:1237-1251 | taking, freeing, naming and subscribing keep all buffers at their size and all texts terminated |
| PublishRoundTrip.FrameIsPacket | rtos_firmware/main/ISMS_MQTT_v8_0_RTOS_PERF.c:1253-1289 | what the publisher sends is a PUBLISH of section 3.3 |
| PublishRoundTrip.RoundTrip | rtos_firmware/main/ISMS_MQTT_v8_0_RTOS_PERF.c:1253-1400 | for all C strings, the frame is parsed back to the same topic and payload with nothing left over and nothing taken from what follows, if and only if they have at most 63 and 749 bytes |
| PublishRoundTrip.DeliveryReadsBack | rtos_firmware/main/ISMS_MQTT_v8_0_RTOS_PERF.c:1253-1400 | through the table: a client gets nothing, or one frame that reads back as the topic and payload, according to its filters |
| BrokerProtocol.StepKeeps | rtos_firmware/main/ISMS_MQTT_v8_0_RTOS_PERF.c:1231-1484 | every step of accept loop, handlers and publishers keeps the invariant on table, owners, mutex and streams |
| BrokerProtocol.TableInEveryRun | rtos_firmware/main/ISMS_MQTT_v8_0_RTOS_PERF.c:1447-1484 | in every run the counter is the number of active entries, at most two; each active entry has exactly one owner, on its own open socket; at most eight filters; every text terminated |
| BrokerProtocol.FanOutInEveryRun | rtos_firmware/main/ISMS_MQTT_v8_0_RTOS_PERF.c:1253-1289 | in every run a client has been sent the whole frames of exactly the publications whose table at lock time held a matching filter for it, in lock order, and then at most a beginning of the frame in progress |
| BrokerFilters.EntriesInEveryRun | rtos_firmware/main/ISMS_MQTT_v8_0_RTOS_PERF.c:1253-1484 | in every run the entry of a client holds exactly the filters that its handler has asked for since the connection was accepted, and the name it has asked for last |
| BrokerFilters.SelectsSubscribers | rtos_firmware/main/ISMS_MQTT_v8_0_RTOS_PERF.c:1253-1375 | in every run a publication selects exactly the clients whose handlers have asked for a filter that topic_matches accepts for its topic |
| BrokerFilters.IdsInEveryRun | rtos_firmware/main/ISMS_MQTT_v8_0_RTOS_PERF.c:1258-1287 | in every run the packet identifier starts at 1 and moves on modulo 2^16 after each publication at QoS 1 or 2 |
| BrokerFilters.NextClientStartsEmpty | rtos_firmware/main/ISMS_MQTT_v8_0_RTOS_PERF.c:1237-1484 | a run in which a client subscribes and leaves: its socket is closed, and the next client gets its entry with no filter |
| BrokerFilters.NoSocketLost | rtos_firmware/main/ISMS_MQTT_v8_0_RTOS_PERF.c:1237-1484 | in every run a socket that was accepted and is not closed is that of an active entry or about to be registered |
| BrokerProtocol.SendsOnOpenSockets | rtos_firmware/main/ISMS_MQTT_v8_0_RTOS_PERF.c:1237-1289 | nothing is sent on a socket that was never accepted or has been closed |
| BrokerProtocol.MidFrame | rtos_firmware/main/ISMS_MQTT_v8_0_RTOS_PERF.c:1279-1286 | a publisher inside a frame sent the preceding chunk last of all PUBLISH bytes on that socket |
| BrokerProtocol.ReplyMaySplitFrame | rtos_firmware/main/ISMS_MQTT_v8_0_RTOS_PERF.c:1336-1379 | in every state with a publisher inside a frame for a client whose handler is idle, a reply of that handler may come between two chunks |
| BrokerReplies.WholeExactly | rtos_firmware/main/ISMS_MQTT_v8_0_RTOS_PERF.c:1253-1379 | in every run no byte of a reply to a client stands inside a frame and no byte of a frame between the two sends of a SUBACK if and only if its handler never replied while a publisher was in the middle of a frame for it and no publisher sent to it while its handler was in the middle of a SUBACK |
| BrokerPackets.UnitsInEveryRun | rtos_firmware/main/ISMS_MQTT_v8_0_RTOS_PERF.c:1253-1379 | in every run without such a step the bytes sent to a client are whole frames and whole replies in order, then what there is of the frame or SUBACK in progress; the frames are those of the publications that selected it, in lock order, and the replies those sent, a SUBACK put together |
| HandlerReplies.HandleReplies | rtos_firmware/main/ISMS_MQTT_v8_0_RTOS_PERF.c:1300-1415 | whatever bytes it reads, the packet loop sends whole packets, none of them a PUBLISH, once the two sends of a SUBACK are put together |
| HandlerReplies.FollowersReply | rtos_firmware/main/ISMS_MQTT_v8_0_RTOS_PERF.c:1300-1484 | in every run in which the handlers follow the packet loop, the replies sent on a socket are a beginning of those of the packet loop to some bytes |
| BrokerPackets.ReadsAsPackets | rtos_firmware/main/ISMS_MQTT_v8_0_RTOS_PERF.c:1253-1415 | in every run in which the handlers follow the packet loop and no step splits its stream, a client reads whole packets: the PUBLISH packets are the frames of the publications that selected it, in lock order, and the others are the replies of its handler, in order |
| BrokerPackets.ReadsWholeStream | rtos_firmware/main/ISMS_MQTT_v8_0_RTOS_PERF.c:1253-1415 | in every such run, while nobody publishes and no SUBACK is half sent, it reads its whole stream so |
| BrokerSplits.SplitHappens | rtos_firmware/main/ISMS_MQTT_v8_0_RTOS_PERF.c:1273-1379 | a run of accept, subscribe, publish and PINGRESP, its handler following the packet loop, that ends with a reply inside a frame |
| BrokerSplits.SubackSplit | rtos_firmware/main/ISMS_MQTT_v8_0_RTOS_PERF.c:1273-1374 | a run, its handler following the packet loop, in which a whole frame stands between the two sends of a SUBACK, and the client reads the first byte of the frame as its return code |
| BrokerSessions.ReadBackInEveryRun | rtos_firmware/main/ISMS_MQTT_v8_0_RTOS_PERF.c:1253-1400 | in every run, while nobody publishes, the PUBLISH bytes on a socket are read by the packet loop as exactly the topics and payloads of the publications that selected it, in lock order, if they fit its buffers |
| BrokerProtocol.NeverAnyFilter | rtos_firmware/main/ISMS_MQTT_v8_0_RTOS_PERF.c:1312-1375 | in every run in which the SUBSCRIBE arm is not entered, every filter count stays zero |
| BrokerProtocol.NothingDeliveredAsWritten | rtos_firmware/main/ISMS_MQTT_v8_0_RTOS_PERF.c:1253-1375 | in every such run no client ever receives a byte of a PUBLISH |
| BrokerSessions.NothingDeliveredToFollowers | rtos_firmware/main/ISMS_MQTT_v8_0_RTOS_PERF.c:1253-1415 | if the handlers ask only for what the packet loop as written makes of their bytes, whatever these are, no filter is ever stored and no client receives a byte of a PUBLISH |
| WsSend.Sender.WriteChunk | rtos_firmware/managed_components/espressif__esp_websocket_client/esp_websocket_client.c:696-699 | one frame with the next bytes of the data |
| WsSend.Sender.SendFrames | rtos_firmware/managed_components/espressif__esp_websocket_client/esp_websocket_client.c:694-734 | the frames written are a prefix of those of the call, all of them exactly on success, and the result is the length or the error |
| WsSend.Sender.SendExact | rtos_firmware/managed_components/espressif__esp_websocket_client/esp_websocket_client.c:655-746 | the same for the whole call, which writes nothing if not connected or without the lock, and aborts the connection exactly if a write failed |
| WsSend.FragmentsShape | rtos_firmware/managed_components/espressif__esp_websocket_client/esp_websocket_client.c:694-734 | given opcode first and continuations after it, FIN on the last frame only and only if asked for, payloads that concatenate to the data |
| WsSend.ReceiveJoin | rtos_firmware/managed_components/espressif__esp_websocket_client/esp_websocket_client.c:694-734 | a receiver of section 5.4 of RFC 6455 may take frames in any grouping |
| WsSend.CallsDeliver | rtos_firmware/managed_components/espressif__esp_websocket_client/esp_websocket_client.c:1493-1526 | for all sequences of sends and all buffer sizes: legal under section 5.4 if and only if starts and continuations are nested, and then received as exactly the messages the calls say |
| WsSend.PartialSendsReassemble | rtos_firmware/managed_components/espressif__esp_websocket_client/esp_websocket_client.c:1493-1526 | a partial send, continuation sends and a FIN send make one message of the concatenated inputs |
| WsSend.ControlsInvisible | rtos_firmware/managed_components/espressif__esp_websocket_client/esp_websocket_client.c:1232-1258 | PING, PONG and CLOSE frames anywhere between the frames change no message |
| WsSend.FailedSendDeliversNothing | rtos_firmware/managed_components/espressif__esp_websocket_client/esp_websocket_client.c:700-729 | a send that fails on the way delivers no message |
| WsReceive.Source.Read | rtos_firmware/managed_components/espressif__esp_websocket_client/esp_websocket_client.c:1047 | the next piece of a frame, of any size up to the buffer, a timeout with nothing arriving or inside a frame, or a failure |
| WsReceive.Receiver.ReadPiece | rtos_firmware/managed_components/espressif__esp_websocket_client/esp_websocket_client.c:1047-1071 | one read extends the tiling by one DATA event |
| WsReceive.Receiver.ReadFrame | rtos_firmware/managed_components/espressif__esp_websocket_client/esp_websocket_client.c:1046-1072 | the events so far tile the payload from offset 0, each beginning where the one before ended |
| WsReceive.Receiver.Recv | rtos_firmware/managed_components/espressif__esp_websocket_client/esp_websocket_client.c:1038-1117 | the DATA events of a frame tile its payload and concatenate to it; a PING of any length is answered from the receive buffer and what lies behind it; PONG and CLOSE frames are acted on, others change nothing else |
| WsReceive.TilesTotal | rtos_firmware/managed_components/espressif__esp_websocket_client/esp_websocket_client.c:1069-1072 | events that tile a frame concatenate to the payload up to where they reach |
| WsReceive.PongEchoesPing | rtos_firmware/managed_components/espressif__esp_websocket_client/esp_websocket_client.c:1074-1108 | a PING of any given length is answered with its own payload (section 5.5.3), for all payloads and whatever lies behind the buffer, if and only if one read got all of it |
| WsHistory.EndStep | rtos_firmware/managed_components/espressif__esp_websocket_client/esp_websocket_client.c:256-283 | counting end events since the attempt began is the statement about pairs of end events |
| WsHistory.ConnectStep | rtos_firmware/managed_components/espressif__esp_websocket_client/esp_websocket_client.c:1156-1203 | the same for closes between consecutive connects |
| WsHistory.OrderMeans | rtos_firmware/managed_components/espressif__esp_websocket_client/esp_websocket_client.c:256-283 | the local order of events is, for all histories, the conjunction of three statements about pairs: one end per attempt, an end between two CONNECTED events, one close between connects |
| WsLifecycle.StepKeeps | rtos_firmware/managed_components/espressif__esp_websocket_client/esp_websocket_client.c:1145-1373 | every step that is not one of the two races keeps status, transport, program point and history in agreement |
| WsLifecycle.FaultBreaks | rtos_firmware/managed_components/espressif__esp_websocket_client/esp_websocket_client.c:700-729 | each of the two races puts the history out of order at once |
| WsLifecycle.OrderInEveryRun | rtos_firmware/managed_components/espressif__esp_websocket_client/esp_websocket_client.c:1121-1383 | in every run with any number of senders the history is in order if and only if neither race has occurred |
| WsLifecycle.OnceInEveryRun | rtos_firmware/managed_components/espressif__esp_websocket_client/esp_websocket_client.c:1121-1383 | the same for the three statements: each attempt has at most one DISCONNECTED or CLOSED event, CONNECTED events have one between them, consecutive connects not joined by a redirect are separated by exactly one close |
| WsLifecycle.ReconnectInEveryRun | rtos_firmware/managed_components/espressif__esp_websocket_client/esp_websocket_client.c:1145-1373 | in every run, races or not, two CONNECTED events have an end event between them |
| WsLifecycle.StaleSendHappens | rtos_firmware/managed_components/espressif__esp_websocket_client/esp_websocket_client.c:668-729 | a run with two DISCONNECTED events for one attempt: a sender gets the lock after the reconnect timer has run out |
| WsLifecycle.LateCloseHappens | rtos_firmware/managed_components/espressif__esp_websocket_client/esp_websocket_client.c:1069-1113 | a run with a DISCONNECTED and a CLOSED event for one attempt: a handler fails to send while a CLOSE frame is being reported |
| WsHandshake.FrameDecides | rtos_firmware/managed_components/espressif__esp_websocket_client/esp_websocket_client.c:1075-1116 | a CLOSE frame read to its end makes the status CLOSING from any status, and no other frame changes the status |
| WsHandshake.CloseStep | rtos_firmware/managed_components/espressif__esp_websocket_client/esp_websocket_client.c:1113-1372 | every step, races included, keeps the status CLOSING exactly while the history ends in a CLOSE frame or its echo |
| WsHandshake.CloseInEveryRun | rtos_firmware/managed_components/espressif__esp_websocket_client/esp_websocket_client.c:1113-1372 | in every run a CLOSE frame of the server is followed by its echo at most once, and then by the CLOSED event or, after a stop, FINISH; there are no other echoes and no other CLOSED events |
| WsHandshake.CloseEnds | rtos_firmware/managed_components/espressif__esp_websocket_client/esp_websocket_client.c:1145-1372 | in every run, after at most eight steps of the client task from a CLOSE frame on, the CLOSED or FINISH event has come, whatever other tasks do |
| WsHandshake.TaskMoves | rtos_firmware/managed_components/espressif__esp_websocket_client/esp_websocket_client.c:1145-1380 | in a handshake and elsewhere, the task always has a step to take until it is done |
| WsHandshake.ConnectedCloses | rtos_firmware/managed_components/espressif__esp_websocket_client/esp_websocket_client.c:1283-1372 | an undisturbed CONNECTED client that reads a CLOSE frame echoes it in the next turn and ends with exactly one CLOSED event |
| WsTimers.PingsInEveryRun | rtos_firmware/managed_components/espressif__esp_websocket_client/esp_websocket_client.c:1229-1256 | in every run any two PINGs are further apart than the interval, and the sent bit tells whether a CLOSE has been sent since the last close handshake |
| WsTimers.PingExactly | rtos_firmware/managed_components/espressif__esp_websocket_client/esp_websocket_client.c:1229-1250 | in every run the CONNECTED arm sends a PING if and only if no CLOSE has been sent and more than 1000 ms per second of the interval have passed since the last PING, or since the initial stamp |
| WsTimers.WaitExactly | rtos_firmware/managed_components/espressif__esp_websocket_client/esp_websocket_client.c:1275-1281 | in every run the WAIT_TIMEOUT arm goes on to connect if and only if more than the wait has passed since the last end event |
| WsTimers.ReconnectWaits | rtos_firmware/managed_components/espressif__esp_websocket_client/esp_websocket_client.c:255-282 | in every run more than the wait passes between the end of an attempt and any later transport connect |
| WsTimers.FailureEnds | rtos_firmware/managed_components/espressif__esp_websocket_client/esp_websocket_client.c:255-290 | a failing write, read or poll closes the transport and adds DISCONNECTED at once, and the client waits to reconnect or stops as configured; one that is over or closing is left |
| WsTimers.StoppedForGood | rtos_firmware/managed_components/espressif__esp_websocket_client/esp_websocket_client.c:509-520 | in every run the loop is not entered again once the client is not to run |
| WsTimers.StopEnds | rtos_firmware/managed_components/espressif__esp_websocket_client/esp_websocket_client.c:505-520 | in every run the loop is not entered again after a call of stop |
| WsKeepalive.StepKeeps | rtos_firmware/managed_components/espressif__esp_websocket_client/esp_websocket_client.c:1229-1274 | every step keeps the agreement between the PONG flag, its stamp and the PINGs of the history |
| WsKeepalive.AwaitedInEveryRun | rtos_firmware/managed_components/espressif__esp_websocket_client/esp_websocket_client.c:1202-1274 | in every run with a positive timeout, while a PONG is awaited the stamp is the time of the first PING since the last PONG or connect, and a PONG_TIMEOUT comes only when the whole timeout has passed since then |
| WsKeepalive.TimeoutExactly | rtos_firmware/managed_components/espressif__esp_websocket_client/esp_websocket_client.c:1229-1274 | the CONNECTED arm aborts exactly if a PING of this connection is unanswered for longer than the timeout and no CLOSE frame was sent |
| WsClient.Client.AbortConnection | rtos_firmware/managed_components/espressif__esp_websocket_client/esp_websocket_client.c:256-292 | the new state of all fields; nothing if the connection is over already |
| WsClient.Client.InitArm | rtos_firmware/managed_components/espressif__esp_websocket_client/esp_websocket_client.c:1151-1210 | the new state after a connect that fails, is redirected or succeeds |
| WsClient.Client.ConnectedSwitchArm | rtos_firmware/managed_components/espressif__esp_websocket_client/esp_websocket_client.c:1229-1274 | the new state after the PING and PONG parts, for all clock readings |
| WsClient.Client.PingWhenDue | rtos_firmware/managed_components/espressif__esp_websocket_client/esp_websocket_client.c:1232-1263 | a PING is sent when due, and the stamp is set only if no PONG is awaited |
| WsClient.Client.CheckPong | rtos_firmware/managed_components/espressif__esp_websocket_client/esp_websocket_client.c:1266-1272 | an abort exactly if a PONG is awaited and overdue |
| WsClient.Client.WaitTimeoutSwitchArm | rtos_firmware/managed_components/espressif__esp_websocket_client/esp_websocket_client.c:1275-1282 | back to INIT once the wait is over |
| WsClient.Client.ClosingSwitchArm | rtos_firmware/managed_components/espressif__esp_websocket_client/esp_websocket_client.c:1283-1317 | the CLOSE frame is echoed unless one has been sent |
| WsClient.Client.EndOfReceive | rtos_firmware/managed_components/espressif__esp_websocket_client/esp_websocket_client.c:1074-1115 | the new state after the last DATA event of a frame |
| WsClient.Client.CloseHandshakeDone | rtos_firmware/managed_components/espressif__esp_websocket_client/esp_websocket_client.c:1348-1372 | reconnect or leave the loop, with one CLOSED event |
| WsClient.Client.Finish | rtos_firmware/managed_components/espressif__esp_websocket_client/esp_websocket_client.c:1375-1378 | FINISH, then the transport is closed |
| WsClient.Client.SendError | rtos_firmware/managed_components/espressif__esp_websocket_client/esp_websocket_client.c:700-729 | the error path of a sender is one abort |
| WsLocks.CodeFaithful | rtos_firmware/managed_components/espressif__esp_websocket_client/esp_websocket_client.c:677-731 | every move of task, sender or handler changes the locks it holds as its place in the code says |
| WsLocks.StepKeeps | rtos_firmware/managed_components/espressif__esp_websocket_client/esp_websocket_client.c:677-731 | so in every step the owner and depth of both locks agree with the program points of all threads |
| WsLocks.ChainEnds | rtos_firmware/managed_components/espressif__esp_websocket_client/esp_websocket_client.c:1232-1258 | without sends by handlers in senders, a chain of waiting threads has at most two links |
| WsLocks.NoCycleInAnyRun | rtos_firmware/managed_components/espressif__esp_websocket_client/esp_websocket_client.c:1145-1373 | in every run with any number of senders, with handlers that may send from the task, there is no cycle of waiting threads of any length |
| WsLocks.CycleHappens | rtos_firmware/managed_components/espressif__esp_websocket_client/esp_websocket_client.c:700-729 | otherwise a run leads to a cycle: the ERROR handler of a failed send waits for the transmit lock, the task holds it and waits for the main lock |
| WsLocks.CycleExactly | rtos_firmware/managed_components/espressif__esp_websocket_client/esp_websocket_client.c:677-731 | a cycle is reachable if and only if handlers may send from within a sender |
| WsLocks.SomebodyMoves | rtos_firmware/managed_components/espressif__esp_websocket_client/esp_websocket_client.c:677-731 | whoever is blocked is at most two links from a thread that holds a lock and can move |
| WsLocks.LocksInEveryRun | rtos_firmware/managed_components/espressif__esp_websocket_client/esp_websocket_client.c:1145-1373 | in every run the task at its loop head, and a sender outside its send, hold neither lock, and at most one thread writes to the transport |
| WsTurns.TurnInEveryRun | rtos_firmware/managed_components/espressif__esp_websocket_client/esp_websocket_client.c:1145-1372 | in every run the task makes the abort after a failed poll, with the main lock held, before anything else, and takes the main lock again after the pause that follows the first receive |
| WsTurns.OneControlPerTurn | rtos_firmware/managed_components/espressif__esp_websocket_client/esp_websocket_client.c:1229-1315 | in every run the task starts at most one PING or CLOSE in a turn of its loop |
| Ticks.SinceExact | rtos_firmware/main/ISMS_MQTT_v8_0_RTOS_PERF.c:2014 | the unsigned difference of clock and stamp is the true age modulo 2^32 |
| ActuatorTiming.TimedOutputLasts | rtos_firmware/main/ISMS_MQTT_v8_0_RTOS_PERF.c:1926-1976 | in every run the output of a timed command stays on, pin and record, from when it is recorded on until its duration has passed |
| ActuatorTiming.WaitsExactly | rtos_firmware/main/ISMS_MQTT_v8_0_RTOS_PERF.c:1926-1976 | in every run the wait of a timed command can end if and only if its duration has passed |
| ActuatorTiming.ClearsExactly | rtos_firmware/main/ISMS_MQTT_v8_0_RTOS_PERF.c:2013-2022 | in every run the watchdog resets the fan if and only if the stamp is 30 s old when the clock is read, except that a stamp stored after that reading always counts as old |
| ActuatorTiming.ClearedTooEarly | rtos_firmware/main/ISMS_MQTT_v8_0_RTOS_PERF.c:2013-2091 | a run in which button 2 stores its stamp after the clock has been read, and the fan stays on with neither flag nor stamp |
| FanWatchdog.WatchStep | rtos_firmware/main/ISMS_MQTT_v8_0_RTOS_PERF.c:1919-2091 | every access of actuator task, button and posters keeps the age bound of a fan held by hand, unless it sets the flag over a stamp that is too old |
| FanWatchdog.FanNeverOutlives | rtos_firmware/main/ISMS_MQTT_v8_0_RTOS_PERF.c:2011-2091 | in every run and for all timings, except while the button is between its two writes, a set flag with a nonzero stamp is younger than 30 s plus one actuator iteration plus the delay of storing the stamp |
| FanWatchdog.BoundExactly | rtos_firmware/main/ISMS_MQTT_v8_0_RTOS_PERF.c:1919-2091 | in every run the bound holds at every point, between the two writes too and however much time passes there, if and only if no press sets the flag over a stamp that was too old when the last watchdog check began |
| FanWatchdog.WriteAges | rtos_firmware/main/ISMS_MQTT_v8_0_RTOS_PERF.c:2085-2088 | a press over a stamp under 30 s old is never too late, and one over a stamp at the bound misses it at once |
| FanWatchdog.StalePressHappens | rtos_firmware/main/ISMS_MQTT_v8_0_RTOS_PERF.c:1953-2091 | a run of button presses, with the waits of the task at one second each, that misses the bound: FAN_OFF resets flag and stamp between the two writes of a third press |
| ActuatorPanel.ProgramBalanced | rtos_firmware/main/ISMS_MQTT_v8_0_RTOS_PERF.c:1926-1989 | every command leaves each pin in agreement with its record whenever it waits and at its end |
| ActuatorPanel.ProgramOutcome | rtos_firmware/main/ISMS_MQTT_v8_0_RTOS_PERF.c:1926-1989 | what the accesses of each command amount to for each device, with the manual flag deciding a timed fan |
| ActuatorPanel.OutcomeInEveryRun | rtos_firmware/main/ISMS_MQTT_v8_0_RTOS_PERF.c:1926-1989 | in every run each record is as the outcome of the command says once it has been executed, and a timed fan stays on exactly if it is held by hand when it is to be released |
| ActuatorPanel.ResetInEveryRun | rtos_firmware/main/ISMS_MQTT_v8_0_RTOS_PERF.c:1956-1988 | in every run FAN_OFF and ALL_CLEAR leave neither manual flag nor stamp, if button 2 writes neither meanwhile |
| ActuatorPanel.PinsAgree | rtos_firmware/main/ISMS_MQTT_v8_0_RTOS_PERF.c:925-942 | in every run, whenever the actuator task waits or delays, every pin shows the recorded state of its device, the fan relay inverted |
| ActuatorPanel.BuzzerOffAtHead | rtos_firmware/main/ISMS_MQTT_v8_0_RTOS_PERF.c:1854-1938 | in every run, with the commands the firmware posts, the buzzer is off at the head of the loop |
| ActuatorPanel.AcceptsExactly | rtos_firmware/main/ISMS_MQTT_v8_0_RTOS_PERF.c:945-954 | a posted command goes last if fewer than eight are waiting and is refused otherwise |
| ActuatorPanel.CommandsInOrder | rtos_firmware/main/ISMS_MQTT_v8_0_RTOS_PERF.c:945-954 | in every run the commands executed are the first ones accepted, in order, and at most eight wait |
| ActuatorTask.CommandQueue.Post | rtos_firmware/main/ISMS_MQTT_v8_0_RTOS_PERF.c:945-954 | a full queue refuses the command, otherwise it goes last |
| ActuatorTask.CommandQueue.Receive | rtos_firmware/main/ISMS_MQTT_v8_0_RTOS_PERF.c:1922 | the first command, or nothing |
| ActuatorTask.Board.Execute | rtos_firmware/main/ISMS_MQTT_v8_0_RTOS_PERF.c:1926-1989 | pins and record agree and are the outcome of the command, whatever the monitoring task does during its delay; the records are set as listed, and a timed device is set off no sooner than its duration after it was set on |
| ActuatorTask.Board.CheckManual | rtos_firmware/main/ISMS_MQTT_v8_0_RTOS_PERF.c:2011-2023 | fan, flag and stamp are reset exactly if the flag is set with a nonzero stamp of at least 30 s |
| ActuatorTask.Board.PressButton2 | rtos_firmware/main/ISMS_MQTT_v8_0_RTOS_PERF.c:2068-2091 | off by command if the fan is on, otherwise flag, stamp and command |
| Door.Monitor.Iterate | rtos_firmware/main/ISMS_MQTT_v8_0_RTOS_PERF.c:1703-1754 | one turn: interrupt, confirmation, release |
| Door.LatchInEveryRun | rtos_firmware/main/ISMS_MQTT_v8_0_RTOS_PERF.c:1703-1754 | in every run the open stamp is nonzero only while the door is recorded open, a door recorded open by an event carries the stamp of that event, and two DOOR_OPEN events have a recorded close between them |
| Door.OpensExactly | rtos_firmware/main/ISMS_MQTT_v8_0_RTOS_PERF.c:1703-1724 | a turn records an opening, at the time of its interrupt, if and only if its interrupt finds the door high and the events so far say that it is closed, and a drop if and only if it finds it low and they say that it is open |
| Door.LatchIsYoung | rtos_firmware/main/ISMS_MQTT_v8_0_RTOS_PERF.c:1743-1754 | in every timely run, at the end of a turn a door that an event has recorded open, with the clock not at zero, was opened less than 30 s ago |
| Door.ZeroStampStays | rtos_firmware/main/ISMS_MQTT_v8_0_RTOS_PERF.c:1743-1754 | a latch with a stamp of zero is released by no turn that sees the door high, at whatever time |
| Door.OpenedAtZero | rtos_firmware/main/ISMS_MQTT_v8_0_RTOS_PERF.c:1705-1710 | a door opened when the clock shows zero has such a latch |
| Door.ConfirmedWasLow | rtos_firmware/main/ISMS_MQTT_v8_0_RTOS_PERF.c:1726-1741 | a confirmed close comes after more than 50 ms in which every turn saw the door low while it was recorded open |
| Door.CloseTooEarly | rtos_firmware/main/ISMS_MQTT_v8_0_RTOS_PERF.c:1703-1754 | in every timely run a recorded close had less than the documented 50 ms of low readings before it if and only if an interrupt found the door high in that time, or the stamp of the confirmation was unset or at most 50 ms old and the readings were not low since the clock showed zero |
| Door.ConfirmedTooEarly | rtos_firmware/main/ISMS_MQTT_v8_0_RTOS_PERF.c:1726-1741 | a confirmed close had less if and only if an interrupt found the door high in the last 50 ms |
| Door.ClosedAfter50 | rtos_firmware/main/ISMS_MQTT_v8_0_RTOS_PERF.c:1726-1741 | in every timely run, once the readings have been low for more than 50 ms from a nonzero clock on, the door is recorded closed |
| Door.ReleaseExactly | rtos_firmware/main/ISMS_MQTT_v8_0_RTOS_PERF.c:1743-1754 | in every timely run the last part of a turn records a close if and only if the door is still recorded open by an event with a nonzero stamp at least 30 s ago |
| Door.DroppedAtOnce | rtos_firmware/main/ISMS_MQTT_v8_0_RTOS_PERF.c:1718-1723 | a door opened at 5 s is recorded closed at 5.1 s, with no low reading before |
| Door.DroppedInTime | rtos_firmware/main/ISMS_MQTT_v8_0_RTOS_PERF.c:1718-1723 | one that was read low at 5.1 s and is dropped by the interrupt at 5.2 s had its 50 ms |
| Door.ConfirmedAtOnce | rtos_firmware/main/ISMS_MQTT_v8_0_RTOS_PERF.c:1726-1741 | one that the interrupt finds high and the level reading low at 5.2 s is confirmed closed then |
| Presence.Tracker.ActivityUpdate | rtos_firmware/main/isms_web_server.c:65-87 | flag and stamp after a request that gets the mutex |
| Presence.Tracker.Cleanup | rtos_firmware/main/isms_web_server.c:90-117 | flag after a scan that gets the mutex |
| Presence.RightExactly | rtos_firmware/main/isms_web_server.c:65-117 | for all ordered histories of requests and scans, the flag has always said whether a client is present in true time if and only if no event was misread |
| Presence.TameIsRight | rtos_firmware/main/isms_web_server.c:65-117 | nothing is misread with nonzero stamps and silences below 2^32 ms |
| Presence.FlagInTameHistory | rtos_firmware/main/isms_web_server.c:65-117 | then a request sets the flag, scans within 10 s of the last request keep it, and the first later scan clears it |
| Presence.BothNeeded | rtos_firmware/main/isms_web_server.c:65-117 | a stamp of zero, taken at 5 * 2^32 ms, never expires, and a request 2^32 + 4 ms after the last one does not show |
| SystemState.System.Update | rtos_firmware/main/ISMS_MQTT_v8_0_RTOS_PERF.c:986-1013 | state and counter after an event |
| SystemState.LastDecides | rtos_firmware/main/ISMS_MQTT_v8_0_RTOS_PERF.c:986-1013 | the last critical, emergency or SYSTEM_OK event decides the state whatever came before, and otherwise the warnings since then |
| SystemState.Splits | rtos_firmware/main/ISMS_MQTT_v8_0_RTOS_PERF.c:986-1013 | every history has the form that the statement above is about |
| SystemState.CounterCounts | rtos_firmware/main/ISMS_MQTT_v8_0_RTOS_PERF.c:986-1000 | the counter is the number of critical and emergency events modulo 2^32 |
| SystemState.NormalNeverAgain | rtos_firmware/main/ISMS_MQTT_v8_0_RTOS_PERF.c:1690-2145 | with the events that the tasks report, NORMAL is left by the first and never entered again |

## Left out

- Socket.Socket.Recv: a failed or empty `recv` is final; the sockets have a receive timeout, and a timeout after which more bytes arrive is not modelled.
- PacketHandler.Handler.Run: local buffers that the source leaves uninitialised when a read fails hold zeros (the packet identifier of a truncated SUBSCRIBE or PUBLISH), `last_activity` and logging are omitted, and the handler's effects on the table are recorded as actions, which `BrokerTable` and `BrokerProtocol` carry out.
- BrokerTable.Broker.Publish: a `send` always takes all its bytes; partial sends and send errors, which the source ignores, are not modelled.
- BrokerTable.Broker.SendFrame: as for `Publish`, every `send` takes all its bytes.
- BrokerProtocol.StepKeeps: the parts under the mutex that do not send are one step each.
- WsSend.Sender.SendExact: the transport writes a frame whole or fails; the contents of the transport, TLS and masking are not part of this model.
- WsReceive.Receiver.Recv: for a PING longer than the receive buffer, the source reads past the buffer; the model takes what is there as unknown bytes and does not go into other consequences.
- WsLifecycle.OrderInEveryRun: the default build without a separate transmit lock, one lifetime of the task, and the transport present; an abort or a switch arm runs in one step, except that event handlers may fail to send during CONNECTED and DATA events. A read or poll on a closed transport fails. The model allows redirects, which the source has only for recent versions of the platform.
- WsKeepalive.AwaitedInEveryRun: the products of seconds and 1000 do not overflow the integer types of the source.
- WsLocks.NoCycleInAnyRun: memory exhaustion and calls of stop, close or destroy, which wait for the task without a lock, are left out; a bounded wait counts as waiting.
- ActuatorTiming.ClearsExactly: C leaves open whether the clock or the stamp is read first in the subtraction; the model reads the clock first.
- FanWatchdog.FanNeverOutlives: an iteration is measured from the start of one watchdog check to the end of the next. A stamp that happens to be zero modulo 2^32 is never timed out, in the source as in the model, and is excluded. The time between two presses is not bounded below. Trigger texts and the publication of the actuator state are omitted.
- ActuatorTask.Board.Execute: during a delay the flag and the stamp may change arbitrarily; which changes are possible is the subject of `Actuator`.
- Presence.RightExactly: a request or scan that does not get the mutex in time does nothing and is no event.
- SystemState.LastDecides: calls are atomic; the source does not lock them.
- GPIO, ADC, I2C, clock chip, Wi-Fi, SPIFFS, HTTP serving, task creation and the hardware watchdog: platform calls.
- Transport, TLS, URI parsing, base64 and the event loop library of the WebSocket client: not part of this model.
- JSON, logging, OLED pages, performance metrics and trace hooks: formatting and reporting.
- Configuration setters, header appending and resource freeing of the WebSocket client: allocation plumbing.
- Interrupt debounce and the PIR branch: single-branch facts.
