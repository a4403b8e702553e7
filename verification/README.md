# A verified model of the KNX stack

This Dafny project models the parts of the stack that keep state or transform documents, and proves
what they promise over all inputs, all runs and all interleavings:

- **Tunnelling** (KNXnet/IP, KNX 3/8/4): the server with its tunnels, queues and retries
  (`TunnelServer`, `TunnelServerRuns`, `TunnelAccounts`), its event queue (`ServerLoop`), the client
  (`TunnelState`), and both joined by channels that lose and repeat datagrams (`TunnelPair`,
  `TunnelDelivery`). `TunnelLaws` says what each request achieves, and that everything arrives over a
  line without loss. `StopAndWait` holds what numbered frames on such channels have in common.
- **The connection-oriented transport layer** (KNX 3/3/4): one layer (`TransportLayer`,
  `TransportRuns`, `TransportLaws`), two of them (`TransportPair`), and how a device drains its
  actions (`ActionQueue`).
- **Renumbering of product XML**: the map (`Renumber`, `RenumberBuild`, `RenumberMaps`), the new numbers
  (`RenumberNumbers`), idempotence
  (`RenumberTwice`, `RenumberClash`), the reference graph (`RenumberGraph`, `RenumberExample`), the
  check of the new ids (`Sanity`), the scanner (`XmlScan`, `XmlAttrs`), the rewriting (`XmlRewrite`),
  all of it on text (`RenumberText`), and on documents as they are written (`XmlWriting`).
- **The registration hash**: collation (`Collation`), the order of siblings (`SiblingOrder`,
  `Siblings`, `SiblingOctets`), the byte format (`BinaryWriter`), ids without fingerprint
  (`ProgramId`), the recursive serialization (`ProgramHash`), and what its octets tell about the
  program (`ProgramOctets`).
- **TP-UART framing**: cEMI frames (`Cemi`), the encoder (`TpFrame`), the receiver and the
  transmitter (`TpUart`), and what stands on the wire (`TpLaws`).
- **The device**: the Load State Machine and the memory segments (`TableObject`, `Segments`), group
  objects and polling (`GroupObjects`), and the routing rate limiter (`RateLimiter`, KNX 3.2.6).

Objects whose methods update fields are classes, and loops are loops; each method is proved equal to
a function of the old state and its arguments, and the laws are proved about these functions and
about runs of them. The laws about single steps name the values, positions and states themselves. Time is a natural number, addresses are opaque, and sends are appended to an
output. Encoders, address resolution, application services, MD5, UTF-8, base64, the conversion of
typed attribute values and the case of characters are parameters.

`dafny verify dfyconfig.toml` checks everything.

## Findings

What the proofs show about the code where it does not do what one might expect; each is a lemma with
the input or the exact condition.

- Renumbering is not idempotent for some documents with com-objects that share a Number:
  `RenumberExample.SharedNumberChangesAgain`, exactly when: `RenumberClash.RenumbersOnceExactlyWhen`.
- A parameter reference and a com-object reference of one com-object can get the same new id:
  `RenumberExample.MixedReferencesCollide`, exactly when: `RenumberGraph.InjectiveExactlyWhen`.
- After a failed send the client uses the number again, and the next frame may be acknowledged
  without being taken: `TunnelPair.NextAfterFailedSend`.
- A connect that meets an open end, or a repeated one that reopens a closed end, makes old and new
  sequence numbers meet: `TransportPair.ReconnectingToAnOpenEnd`, `TransportPair.StaleConnectReopens`.
- A factory reset leaves the segment of the group object table in place while it clears the memory:
  `Segments.SegmentsOverlap`.
- A rate limit of zero grants every send: `RateLimiter.LimitZeroGrantsAll`.
- With an empty NPDU the TP encoder emits one byte more than the receiver expects:
  `TpUart.EncodedIsReceivedExactlyWhen`.
- Siblings with equal sort keys make the registration hash depend on their order in the document,
  unless their bytes are the same in either order: `SiblingOctets.OctetsKeptExactlyWhen`. Keys that
  differ in an accent alone are equal: `Collation.AccentsAreEqual`.

Where code and comments disagree, the model follows the code. The collation puts lower case first
(knx-rs-prod/src/hash.rs:910-912), although the comment at line 900 says the opposite. Allocation
without fill does not grow the memory (knx-rs-device/src/table_object.rs:268-277), although the
comment at its head says that memory is reserved.

## Model

| member | source | states |
|---|---|---|
| `TransportLayer.TransportLayer.ReceiveConnect` | knx-rs-device/src/transport_layer.rs:174-184 | a closed layer opens for the caller with both sequence numbers at zero and a running timer; an open one ignores its own peer and answers anyone else with a disconnect; nothing else of the state changes |
| `TransportLayer.TransportLayer.ReceiveDisconnect` | knx-rs-device/src/transport_layer.rs:187-194 | the disconnect of the connected remote closes the connection as `TransportLaws.DisconnectCloses` says, any other one does nothing |
| `TransportLayer.TransportLayer.ReceiveData` | knx-rs-device/src/transport_layer.rs:197-235 | the expected number is acknowledged and then indicated, the one before it is acknowledged again and not indicated, any other one is refused, or closes a layer that is still connecting; foreign data never changes the state |
| `TransportLayer.TransportLayer.ReceiveAck` | knx-rs-device/src/transport_layer.rs:238-266 | only the number in flight completes the send; any other acknowledgement while waiting closes the connection |
| `TransportLayer.TransportLayer.ReceiveNack` | knx-rs-device/src/transport_layer.rs:269-300 | the frame in flight is repeated while repetitions are left; after three the connection is closed |
| `TransportLayer.TransportLayer.PollTimers` | knx-rs-device/src/transport_layer.rs:363-404 | an expired connection timer closes; else an expired acknowledgement timer repeats or closes; else an idle layer sends the buffered request |
| `TransportLayer.TransportLayer.RequestData` | knx-rs-device/src/transport_layer.rs:322-335 | an idle layer sends at once, a busy one keeps the newest request only, a closed one drops it |
| `TransportLayer.TransportLayer.RequestConnect` | knx-rs-device/src/transport_layer.rs:338-346 | a closed layer calls the destination with both sequence numbers at zero; an open one is closed |
| `TransportLayer.TransportLayer.ConfirmConnect` | knx-rs-device/src/transport_layer.rs:303-317 | a confirmed call opens the connection, a failed one closes it; nothing happens unless the layer is connecting |
| `TransportLayer.TransportLayer.RequestDisconnect` | knx-rs-device/src/transport_layer.rs:349-358 | an open connection is closed and the remote told; the application is told in any case |
| `TransportRuns.RunKeepsInv` | knx-rs-device/src/transport_layer.rs:101-545 | in every run the acknowledgement timer is set exactly while a frame waits and the connection timer exactly while the layer is not closed; at most three repetitions are counted; a waiting frame is the one that was saved |
| `TransportRuns.RetransmissionIsBounded` | knx-rs-device/src/transport_layer.rs:269-523 | however acknowledgements, refusals, timeouts and the data of the remote interleave, a frame is put on the wire at most four times, always the same, and waits at most four acknowledgement times, each plus the lag of polling |
| `TransportRuns.WaitEndsWithinTwelveSeconds` | knx-rs-device/src/transport_layer.rs:269-523 | with polling on time, in every run of a new layer a frame waits at most 12 s after it was first sent, and is sent at most four times |
| `TransportRuns.LastTimeoutCloses` | knx-rs-device/src/transport_layer.rs:363-404 | the timeout of the fourth transmission tells the remote and the application and closes |
| `TransportRuns.OtherDevicesDoNotInterfere` | knx-rs-device/src/transport_layer.rs:174-300 | while a connection is open, deleting all frames of other devices from any run leaves the state, the counters, the timers and all actions the same, but for the rejections those devices get |
| `TransportLaws.DisconnectCloses` | knx-rs-device/src/transport_layer.rs:187-194 | from every state but closed, the disconnect of the peer closes the connection, stops both timers and is indicated; nothing is sent, the saved and the buffered frame and the numbers stay |
| `TransportLaws.OtherDisconnectIsIgnored` | knx-rs-device/src/transport_layer.rs:187-194 | a disconnect of anybody else, or without a connection, does nothing |
| `TransportLaws.RequestCloses` | knx-rs-device/src/transport_layer.rs:349-358 | the application can end every connection: the peer and the application are told |
| `TransportLaws.SilenceCloses` | knx-rs-device/src/transport_layer.rs:363-404 | 6 s without a sign of life close the connection at the next poll |
| `TransportLaws.KeptAlive` | knx-rs-device/src/transport_layer.rs:549-551 | data of the peer, and starting, completing and repeating a send, keep it alive for another 6 s |
| `TransportLaws.ContradictionCloses` | knx-rs-device/src/transport_layer.rs:238-300 | an acknowledgement, a refusal or a call that contradicts the state closes the connection and tells both sides |
| `TransportLaws.RepeatedUpToThreeTimes` | knx-rs-device/src/transport_layer.rs:269-523 | a refusal and a timeout put the same frame on the wire again, as long as it was repeated less than three times |
| `TransportLaws.DataIsAnswered` | knx-rs-device/src/transport_layer.rs:197-235 | data of the peer with the expected number is acknowledged and indicated, with the one before acknowledged again, with any other refused |
| `TransportLaws.OthersAreTurnedAway` | knx-rs-device/src/transport_layer.rs:174-300 | another caller is turned away while a connection is open, and everybody else while it is being opened |
| `TransportLaws.CallConnects` | knx-rs-device/src/transport_layer.rs:303-346 | a call that is confirmed and heard by a closed end connects both ends: each other as peers, all numbers zero |
| `TransportLaws.CallFails` | knx-rs-device/src/transport_layer.rs:303-317 | a call that fails leaves the layer closed, and the application is told |
| `TransportLaws.WaitingRequestIsSent` | knx-rs-device/src/transport_layer.rs:322-404 | requests made while one waits: the newest goes out with the next number after the acknowledgement |
| `TransportLaws.ClosedDropsRequests` | knx-rs-device/src/transport_layer.rs:322-335 | without a connection a request is dropped |
| `TransportLaws.NothingDue` | knx-rs-device/src/transport_layer.rs:363-404 | before anything is due, polling an idle line does nothing |
| `TransportLaws.EverythingArrives` | knx-rs-device/src/transport_layer.rs:174-523 | progress: over a line without loss every list of requests between connected ends is indicated whole and in order, every one is confirmed, and both are connected and idle again |
| `TransportPair.ConnectedDataIsExactlyOnce` | knx-rs-device/src/transport_layer.rs:197-523 | two layers over channels that lose and repeat frames, both sending: within one connection the data indicated is a prefix of the data sent, each frame once and in order, every confirmed frame was indicated, and the receiver is at most one frame ahead, despite four-bit numbers |
| `TransportPair.NothingIsRefused` | knx-rs-device/src/transport_layer.rs:452-459 | within one connection no layer ever finds a wrong number, so no refusal is ever under way |
| `TransportPair.DisconnectIsSent` | knx-rs-device/src/transport_layer.rs:349-358 | an end that is asked to disconnect closes and has a disconnect on its way to the other end |
| `TransportPair.DisconnectIsTaken` | knx-rs-device/src/transport_layer.rs:187-194 | an end that takes a disconnect of its partner out of its inbox is closed, both timers stopped |
| `TransportPair.ReconnectingToAnOpenEnd` | knx-rs-device/src/transport_layer.rs:174-184 | where this stops: after a lost disconnect a reconnecting device starts at number zero while the other end keeps its own; exactly when that is one, data is confirmed that was never indicated |
| `TransportPair.StaleConnectReopens` | knx-rs-device/src/transport_layer.rs:174-184 | the other case: a repeated connect reopens a closed end while its peer goes on with the old numbers; data is acknowledged without being indicated exactly if it has number 15 |
| `ActionQueue.DrainTransportActions` | knx-rs-device/src/bau.rs:955-997 | the loop ends, empties the queue, and leaves the transport layer and the outbox as pass after pass over the queue would |
| `ActionQueue.TwoPassesDrain` | knx-rs-device/src/bau.rs:955-1013 | from every queue and for all services, draining takes at most two passes that find something, because serving a request never queues another request |
| `ActionQueue.AcknowledgedBeforeAnswered` | knx-rs-device/src/bau.rs:1809-1832 | every acknowledgement that was queued stands in the outbox before all frames that serving the requests has queued at the transport layer |
| `ActionQueue.RequestIsAnswered` | knx-rs-device/src/bau.rs:1809-1869 | a connected request with one answer puts exactly its acknowledgement and then the answer, with the next sequence number, in the outbox if the layer is idle; if it waits, the answer is kept as its buffered request |
| `TunnelServer.TunnelClient.Enqueue` | knx-rs-ip/src/tunnel_server.rs:95-108 | a full queue of 128 drops exactly its oldest frame, and the new one is last |
| `TunnelServer.TunnelClient.Pump` | knx-rs-ip/src/tunnel_server.rs:1248-1273 | if nothing is in flight the oldest frame that fits a datagram goes out with the current number; frames that do not fit are skipped |
| `TunnelServer.TunnelClient.Transmit` | knx-rs-ip/src/tunnel_server.rs:1281-1299 | the same datagram is sent again, counted, and gets a new deadline |
| `TunnelServer.TunnelClient.Acknowledge` | knx-rs-ip/src/tunnel_server.rs:1302-1326 | only the number in flight releases the next frame, with the next eight-bit number |
| `TunnelServer.TunnelClient.Accept` | knx-rs-ip/src/tunnel_server.rs:1082-1146 | an accepted request goes to the application if it is a cEMI frame, and is confirmed to its sender if it was a request |
| `TunnelServer.DeviceServer.Connect` | knx-rs-ip/src/tunnel_server.rs:891-971 | a fifth client and a connection of another type are refused; else the new tunnel gets the first free id from the next one on, and a fresh state |
| `TunnelServer.DeviceServer.Disconnect` | knx-rs-ip/src/tunnel_server.rs:1049-1080 | only the control address of a tunnel can end it; exactly the tunnels with that id go, and the others keep their order |
| `TunnelServer.DeviceServer.Request` | knx-rs-ip/src/tunnel_server.rs:1082-1146 | every request on an open channel is acknowledged, and taken exactly if it has the expected number; what is handed over then is in `TunnelLaws.RequestHandsOver` |
| `TunnelServer.DeviceServer.SendToAll` | knx-rs-ip/src/tunnel_server.rs:1183-1205 | every client gets the frame queued, as an indication |
| `TunnelServer.DeviceServer.SendToTunnel` | knx-rs-ip/src/tunnel_server.rs:1228-1242 | only the client with that id gets the frame queued |
| `TunnelServer.DeviceServer.ExpireAcks` | knx-rs-ip/src/tunnel_server.rs:1346-1402 | overdue requests are repeated; exactly the clients that did not answer three times are dropped, each with a disconnect request to it |
| `TunnelServerRuns.IdSearchEndsWithinFourProbes` | knx-rs-ip/src/tunnel_server.rs:931-963 | with at most three tunnels the search for a free channel id looks at no more than four ids, and finds one |
| `TunnelServerRuns.PumpRestores` | knx-rs-ip/src/tunnel_server.rs:1248-1273 | whatever released the line, pumping restores that the outbox is empty unless a frame is in flight |
| `TunnelServerRuns.HandleKeepsOk` | knx-rs-ip/src/tunnel_server.rs:719-1414 | every handler keeps: at most four tunnels with distinct ids that are not zero, a next id that is not zero, at most 128 waiting frames, a frame in flight with the current number and one to three attempts, and an empty queue whenever nothing is in flight |
| `TunnelServerRuns.EveryRunIsOk` | knx-rs-ip/src/tunnel_server.rs:640-717 | the same in every state of every run of a new server |
| `TunnelServerRuns.AtMostOneEvent` | knx-rs-ip/src/tunnel_server.rs:719-762 | one datagram hands at most one frame to the application, and only a tunnelling request does |
| `TunnelServerRuns.ConfirmationIsAFrame` | knx-rs-ip/src/tunnel_server.rs:1155-1168 | the confirmation of a request is a valid cEMI frame again, with its message code and its confirm flag changed and nothing else |
| `TunnelServerRuns.IndicationIsAFrame` | knx-rs-ip/src/tunnel_server.rs:1217-1226 | what goes out to the clients is a valid cEMI frame again and never a request |
| `TunnelLaws.RequestHandsOver` | knx-rs-ip/src/tunnel_server.rs:1082-1146 | the events of a request of a served client are exactly the frame in it, if it has the expected number and is a cEMI frame; it is acknowledged first in any case |
| `TunnelLaws.RequestIsRefused` | knx-rs-ip/src/tunnel_server.rs:1082-1146 | on an unknown channel or from another address it gets an error, and nothing changes |
| `TunnelLaws.ConnectGivesTunnel` | knx-rs-ip/src/tunnel_server.rs:891-971 | with less than four tunnels a new one is added behind the others, with the addresses of the request, a new id and fresh numbers; the answer carries its id and address |
| `TunnelLaws.FirstFreeId` | knx-rs-ip/src/tunnel_server.rs:931-963 | it is the first free one from the next id on, counting round from 255 to 1, and the next id is the one behind it |
| `TunnelLaws.ConnectIsRefused` | knx-rs-ip/src/tunnel_server.rs:891-971 | a fifth client gets error 24h, another type of connection 22h, and nothing changes |
| `TunnelLaws.NewClientIsServed` | knx-rs-ip/src/tunnel_server.rs:891-1146 | the first request from the data address on the id in the answer is acknowledged and handed over |
| `TunnelLaws.DisconnectRemoves` | knx-rs-ip/src/tunnel_server.rs:1049-1080 | a disconnect from the control address removes exactly that tunnel and is answered |
| `TunnelLaws.OthersCannot` | knx-rs-ip/src/tunnel_server.rs:1017-1080 | nobody else can end a tunnel or keep it alive |
| `TunnelLaws.HeartbeatIsNoted` | knx-rs-ip/src/tunnel_server.rs:1017-1047 | a heartbeat from the control address is noted and answered |
| `TunnelLaws.StaleTunnelsGo` | knx-rs-ip/src/tunnel_server.rs:1404-1414 | exactly the tunnels without a heartbeat for two minutes are forgotten |
| `TunnelLaws.EveryClientIsServed` | knx-rs-ip/src/tunnel_server.rs:1183-1205 | a frame for everybody is on the wire for each client with nothing in flight, else the last in its queue; and it goes to the multicast group if there is one |
| `TunnelLaws.OneClientIsServed` | knx-rs-ip/src/tunnel_server.rs:1228-1242 | a frame for one client likewise, and the other tunnels stay as they are |
| `TunnelLaws.AckReleases` | knx-rs-ip/src/tunnel_server.rs:1302-1326 | the acknowledgement of the number in flight moves the number, and the oldest waiting frame goes out with the next one |
| `TunnelLaws.OtherAckIsIgnored` | knx-rs-ip/src/tunnel_server.rs:1302-1326 | an acknowledgement from elsewhere, of another number, or of nothing changes nothing |
| `TunnelLaws.OverdueIsRepeated` | knx-rs-ip/src/tunnel_server.rs:1346-1370 | a request that is not acknowledged in time is sent again unchanged, up to the third time |
| `TunnelLaws.SilentClientIsDropped` | knx-rs-ip/src/tunnel_server.rs:1346-1402 | after the third time the tunnel is gone, and the client is told |
| `TunnelLaws.NotYetDue` | knx-rs-ip/src/tunnel_server.rs:1346-1370 | nothing is repeated, and nobody dropped, before its time |
| `TunnelLaws.ClientTakes` | knx-rs-ip/src/tunnel.rs:402-431 | a client acknowledges every request on its channel, also while it sends, and takes exactly the expected one |
| `TunnelLaws.ClientIgnores` | knx-rs-ip/src/tunnel.rs:402-431 | requests on other channels do nothing |
| `TunnelLaws.ClientLeaves` | knx-rs-ip/src/tunnel.rs:368-400 | a disconnect between sends is answered and ends the tunnel |
| `TunnelLaws.EverythingArrives` | knx-rs-ip/src/tunnel_server.rs:1082-1273 | progress: over a line without loss every list of sends of both sides arrives whole and in order, frames of the server as indications, frames of the client unchanged with a confirmation for each request, whatever other clients there are |
| `TunnelAccounts.ServedAsIfAlone` | knx-rs-ip/src/tunnel_server.rs:1183-1402 | isolation: whatever event the server handles, the queue, the numbers, the frame in flight and the requests on the wire of each client become exactly what they would be if no other client existed |
| `TunnelAccounts.RunAsIfAlone` | knx-rs-ip/src/tunnel_server.rs:1183-1402 | the same over whole runs, as long as the client is served |
| `TunnelAccounts.EveryFrameIsAccountedFor` | knx-rs-ip/src/tunnel_server.rs:95-108 | conservation: over every run of the server, what went on the wire for a client followed by its queue is an in-order subsequence of what was queued for it, missing only frames that were evicted while 128 waited |
| `TunnelAccounts.OpeningIsBalanced` | knx-rs-ip/src/tunnel_server.rs:74-91 | the account of a new tunnel is balanced |
| `ServerLoop.EventQueue.Push` | knx-rs-ip/src/tunnel_server.rs:284-295 | an event goes into the channel if nothing is held back and there is room, else behind the backlog if that has room; without a reader it is not kept |
| `ServerLoop.EventQueue.Deliver` | knx-rs-ip/src/tunnel_server.rs:311-321 | the oldest event that is held back goes into the channel, and the order stays; without a reader the backlog is discarded |
| `ServerLoop.DeliveryMoves` | knx-rs-ip/src/tunnel_server.rs:311-321 | with room, a delivery moves exactly the oldest event that is held back |
| `ServerLoop.PushKeepsExactlyWithRoom` | knx-rs-ip/src/tunnel_server.rs:284-302 | an event is kept, as the last one held, exactly if there is room and somebody to read it; otherwise nothing changes |
| `ServerLoop.NothingReadIsDropped` | knx-rs-ip/src/tunnel_server.rs:640-762 | over every run of the loop with its guards, while the application listens: what it received, then the channel, then the backlog is exactly what was read from the socket, in order |
| `TunnelState.TunnelState.HandleTunnelingRequest` | knx-rs-ip/src/tunnel.rs:402-431 | every request on the own channel is acknowledged; it is delivered, and the counter moves, exactly if it has the expected number |
| `TunnelState.TunnelState.WaitForAck` | knx-rs-ip/src/tunnel.rs:492-527 | only an acknowledgement of this channel and number ends the wait; requests are handled at once, everything else is kept for later |
| `TunnelState.TunnelState.SendWithRetry` | knx-rs-ip/src/tunnel.rs:435-465 | up to three attempts with the same number; the number moves only when an acknowledgement came without an error |
| `TunnelState.SendEndsByFirstAck` | knx-rs-ip/src/tunnel.rs:435-527 | a send ends by its first awaited acknowledgement alone, at whatever attempt and position it comes: how often the frame was sent, how the send ends, and whether the number moves follow from it; a disconnect in an attempt that timed out is forgotten |
| `TunnelPair.ServerToClientIsExactlyOnce` | knx-rs-ip/src/tunnel_server.rs:1248-1370 | in every reachable state of a tunnel over channels that lose and repeat datagrams, what the client accepted is a prefix of what the server put in flight, each once and in order, at most one ahead of the acknowledged ones, despite eight-bit numbers |
| `TunnelPair.ClientToServerIsExactlyOnce` | knx-rs-ip/src/tunnel.rs:435-465 | the same in the other direction, up to the first send of the client that fails |
| `TunnelPair.ServerAnswersAsInPair` | knx-rs-ip/src/tunnel_server.rs:1082-1146 | the pair has the real server: a request of the client is acknowledged, taken and handed to the application as in the pair, whatever other clients there are; an unknown channel gets an error |
| `TunnelPair.NextAfterFailedSend` | knx-rs-ip/src/tunnel.rs:435-465 | why only until then: after a failed send the next frame has the same number; the server acknowledges it, but takes it exactly if it had not taken the failed one |
| `TunnelDelivery.FramesAreDeliveredExactlyOnce` | knx-rs-ip/src/tunnel.rs:402-431 | where the applications send cEMI frames, exactly-once holds for the frames that the client delivers, and for the concatenated events that the server hands to its application over the run |
| `RateLimiter.RateLimiter.Check` | knx-rs-ip/src/router.rs:243-269 | a send is granted and noted, or refused with the time to wait; sends that left the window are forgotten |
| `RateLimiter.RateLimiter.AwaitSlot` | knx-rs-ip/src/router.rs:318-334 | if every sleep is a little late, the loop ends with a grant at the latest at the third check, and after a pause that was on |
| `RateLimiter.AtMostLimitInAnySecond` | knx-rs-ip/src/router.rs:232-275 | for a clock that does not go back and a positive limit, every closed interval of one second of every run contains at most that many granted sends |
| `RateLimiter.GrantedExactlyWhen` | knx-rs-ip/src/router.rs:243-274 | after any run a send is granted exactly if the latest pause is over and the send that many places back lies more than a second in the past: the short log decides as the full one would |
| `RateLimiter.RefusedUntil` | knx-rs-ip/src/router.rs:243-274 | how long a refused send has to wait after any run: to the end of the latest pause while that is on, else until the send that many places back is a second old |
| `RateLimiter.WaitIsExact` | knx-rs-ip/src/router.rs:243-269 | after a refusal by the window, a check is granted exactly if it comes strictly later than the wait; at its very end it is refused once more |
| `RateLimiter.LimitZeroGrantsAll` | knx-rs-ip/src/router.rs:243-269 | why the limit has to be positive: with limit zero everything is granted |
| `Cemi.ParseAcceptsExactlyValid` | knx-rs-core/src/cemi.rs:96-123 | parsing accepts exactly the octets of valid frames, and keeps them |
| `Cemi.NewFrameReadsBack` | knx-rs-core/src/cemi.rs:133-195 | a built frame parses again, and its addresses, length and payload, with its padding, read back as given |
| `Cemi.CalcCrcTp` | knx-rs-core/src/cemi.rs:445-451 | the checksum is the inverted parity of all octets |
| `TpFrame.FromCemi` | knx-rs-tp/src/frame.rs:127-178 | the frame filled in the buffer is the encoded frame, or there is none if the payload does not fit |
| `TpFrame.FieldsSurvive` | knx-rs-tp/src/frame.rs:45-178 | without additional information and with the control bits of a frame start, the format, both addresses, the length and the payload read back from the wire |
| `TpFrame.NewFramesStart` | knx-rs-core/src/cemi.rs:133-195 | every frame the stack builds itself has these control bits and no additional information |
| `TpFrame.IsValid` | knx-rs-tp/src/frame.rs:109-119 | the loop over the octets decides validity by the checksum |
| `TpFrame.OneChangeIsDetected` | knx-rs-tp/src/frame.rs:109-119 | any change of one octet of a valid frame is detected |
| `TpLaws.StandardLayout` | knx-rs-tp/src/frame.rs:127-178 | the standard format octet by octet: control field with the frame type set, both addresses, address type and hops with the length, the transport unit, the checksum |
| `TpLaws.ExtendedLayout` | knx-rs-tp/src/frame.rs:127-178 | the extended format octet by octet: both control fields, both addresses, the length, the transport unit, the checksum |
| `TpLaws.EncodedExactlyWhen` | knx-rs-tp/src/frame.rs:127-178 | a frame is encoded exactly if its NPDU has at most 55 octets |
| `TpLaws.NewFrameIs` | knx-rs-core/src/cemi.rs:133-195 | a frame the stack builds, octet by octet |
| `TpLaws.ParityJoins` | knx-rs-core/src/cemi.rs:445-451 | the parity of joined octets is that of their parities |
| `TpLaws.ByteBetween` | knx-rs-tp/src/protocol.rs:120-184 | what each of the 256 byte values means between frames |
| `TpLaws.ByteBehindFrames` | knx-rs-tp/src/protocol.rs:120-178 | frames followed by a byte that starts none give the frames and then what the byte means, and no frame is open |
| `TpUart.TpUartProtocol.Process` | knx-rs-tp/src/protocol.rs:120-178 | byte by byte the buffer, the index and the expected length change as the receiver function says, and the same indications come out |
| `TpUart.ArbitraryBytesKeepOk` | knx-rs-tp/src/protocol.rs:120-178 | on arbitrary bytes the index stays inside the buffer |
| `TpUart.EndsWithin63` | knx-rs-tp/src/protocol.rs:120-178 | a started frame ends in a frame or an overrun within 63 more bytes, whatever they are, and the receiver is idle again |
| `TpUart.ReceivedWhole` | knx-rs-tp/src/protocol.rs:120-184 | the receiver gives back bytes as one frame if and only if they start as one and have the length their header announces, within the buffer |
| `TpUart.EncodedIsReceivedExactlyWhen` | knx-rs-tp/src/frame.rs:127-178 | an encoded frame comes back exactly if its NPDU is not empty and it has the control bits of a frame start; with an empty NPDU the encoder emits one byte more than the receiver expects |
| `TpUart.FramesComeBack` | knx-rs-tp/src/protocol.rs:120-178 | round trip: the bytes of any list of receivable encoded frames come back as exactly these frames, in order, all with a valid checksum, and the receiver is idle again |
| `TpUart.TransmittedIsSent` | knx-rs-tp/src/protocol.rs:101-117 | what is written for a frame makes the chip send exactly this frame, whatever it had stored before |
| `RenumberBuild.BuildMap` | knx-rs-prod/src/renumber.rs:154-304 | the two passes with their counters and growing maps give exactly the specified map, whose numbers are those of `RenumberNumbers`, or the first fault |
| `RenumberBuild.SplitRef` | knx-rs-prod/src/renumber.rs:140-150 | a reference is split at the first boundary whose left side is a key |
| `Renumber.ReferencesDoNotSplit` | knx-rs-prod/src/renumber.rs:140-150 | adding ids of references to the map never changes where any id is split |
| `RenumberNumbers.NumberedInOrder` | knx-rs-prod/src/renumber.rs:154-206 | parameters, blocks and separators are numbered 1, 2, 3 and so on in document order, each kind on its own; an id that is declared twice has the number of its last declaration |
| `RenumberNumbers.ComObjectKeepsNumber` | knx-rs-prod/src/renumber.rs:199-204 | a com-object is called after its own Number |
| `RenumberNumbers.ParameterReferences` | knx-rs-prod/src/renumber.rs:208-304 | the k-th parameter reference of a parent, from one, is called after the new id of the parent, its number, and k with at least two digits |
| `RenumberNumbers.CarriedNumberIsKept` | knx-rs-prod/src/renumber.rs:208-304 | a com-object reference that carries an integer keeps it |
| `RenumberNumbers.LeastFreeNumber` | knx-rs-prod/src/renumber.rs:208-304 | one that carries none is handed the least positive number that no reference of its parent carries and none before it was handed |
| `RenumberNumbers.DeclaresExactlyWhen` | knx-rs-prod/src/renumber.rs:308-316 | the five kinds of declarations, by tag name and the letters of the id |
| `RenumberNumbers.RenamedExactlyWhen` | knx-rs-prod/src/renumber.rs:154-304 | exactly the declared ids and those of references under the prefix are renamed |
| `RenumberNumbers.BuiltExactlyWhen` | knx-rs-prod/src/renumber.rs:154-304 | a document can be renumbered exactly if its com-objects have integer Numbers and its references declared parents with a number |
| `RenumberNumbers.BadNumberIsReported` | knx-rs-prod/src/renumber.rs:154-304 | the first com-object without an integer Number is reported, missing or not an integer |
| `RenumberNumbers.BadParentIsReported` | knx-rs-prod/src/renumber.rs:154-304 | with good Numbers the first reference without a good parent is reported |
| `RenumberTwice.BuiltAgain` | knx-rs-prod/src/renumber.rs:154-304 | a renumbered document can be renumbered |
| `RenumberTwice.RenumberingTwice` | knx-rs-prod/src/renumber.rs:154-304 | the second map is the identity if and only if no parameter reference that decides about its new id follows one of another parent with the same new id |
| `RenumberClash.ClashExactlyWhen` | knx-rs-prod/src/renumber.rs:154-304 | that is so, read off the document: there are no parameter references under different com-objects with the same Number, the later of which has no later reference with its id, instance or number |
| `RenumberClash.RenumbersOnceExactlyWhen` | knx-rs-prod/src/renumber.rs:56-130 | idempotence, with the condition on the document: renumbering twice equals renumbering once if and only if there are no two such references |
| `RenumberGraph.OwnKindRenumbersOnce` | knx-rs-prod/src/renumber.rs:154-304 | where parameter references belong to parameters, the second map is the identity |
| `RenumberGraph.InjectiveExactlyWhen` | knx-rs-prod/src/renumber.rs:154-304 | for distinct ids the map is injective if and only if com-objects have distinct Numbers, com-object references of one parent carry distinct integers, and no parameter reference of a parent reads like a com-object reference of it |
| `RenumberGraph.ReferencesResolve` | knx-rs-prod/src/renumber.rs:67-102 | with an injective map a renamed reference resolves to the elements it resolved to before, and besides only to elements that had the new id all along |
| `RenumberExample.SharedNumberChangesAgain` | knx-rs-prod/src/renumber.rs:199-204 | a document with a shared Number whose second renumbering changes it |
| `RenumberExample.MixedReferencesCollide` | knx-rs-prod/src/renumber.rs:256-297 | a document with distinct ids and numbers in which a parameter reference and a com-object reference get the same new id |
| `Sanity.CheckMarker` | knx-rs-prod/src/sanity.rs:116-142 | the loop over a shrinking slice finds the first marker in the whole value that no integer follows |
| `Sanity.CheckSuffixes` | knx-rs-prod/src/sanity.rs:116-142 | the check over all markers gives the first bad suffix |
| `Sanity.NewIdsPassExactlyWhen` | knx-rs-prod/src/sanity.rs:116-142 | every new id passes the integer-suffix check if and only if every marker inside the prefix itself is followed by an integer |
| `XmlScan.FindTagEnd` | knx-rs-prod/src/xml_scan.rs:15-36 | the end found is that of the tag, outside of quoted values |
| `XmlScan.OpenTags` | knx-rs-prod/src/xml_scan.rs:46-81 | exactly the open tags, in document order; comments, CDATA sections, closing tags and declarations are skipped |
| `XmlAttrs.ReadAttrs` | knx-rs-prod/src/xml_scan.rs:85-139 | the loops read exactly the specified attributes |
| `XmlRewrite.RewriteIds` | knx-rs-prod/src/renumber.rs:67-102 | the single pass gives the document with each quoted value of an open tag mapped, and every other character unchanged |
| `XmlRewrite.RewriteTagAttrs` | knx-rs-prod/src/renumber.rs:106-130 | one tag is appended with its values mapped once |
| `XmlRewrite.ScanningRewritten` | knx-rs-prod/src/renumber.rs:67-130 | rewriting commutes with scanning, for every document: the pieces of the rewritten text are the rewritten pieces of the text |
| `XmlAttrs.TagMapped` | knx-rs-prod/src/xml_scan.rs:85-139 | a rewritten tag whose quotes delimit attribute values has the same name and the same attribute names, and each value is mapped exactly once |
| `XmlWriting.ElementIsRead` | knx-rs-prod/src/xml_scan.rs:85-139 | an element written with a name and a list of quoted attributes is read with that name and exactly these attributes, in order, also with `>`, `<` or the other quote in a value |
| `XmlWriting.DocumentIsRead` | knx-rs-prod/src/xml_scan.rs:46-81 | the tags of a document written from character data, comments, CDATA sections, markup and elements are exactly its elements, in order |
| `XmlWriting.DocumentIsRenumbered` | knx-rs-prod/src/renumber.rs:56-60 | and renumbering it replaces exactly the attribute values of elements that are keys of the map built from these elements, and gives back everything else as written |
| `XmlWriting.NothingIsOpen` | knx-rs-prod/src/xml_scan.rs:46-81 | a document in which no tag ends has no tags and stays as it is |
| `RenumberText.RenumberIds` | knx-rs-prod/src/renumber.rs:56-60 | scanning, map building and rewriting one after the other give the renumbered text, or the first fault |
| `RenumberText.ReadingRewritten` | knx-rs-prod/src/renumber.rs:67-130 | for a document of such tags and values without quotes, the tags of the rewritten text are the renamed tags of the text: a simultaneous substitution, so a permutation of ids does not cascade |
| `RenumberText.RenumberingTextTwice` | knx-rs-prod/src/renumber.rs:56-60 | for a document of such tags, renumbering its renumbered text succeeds, and gives the same text if and only if the condition on the document holds |
| `RenumberText.OwnKindTextTwice` | knx-rs-prod/src/renumber.rs:56-60 | where parameter references belong to parameters, renumbering text is idempotent |
| `RenumberText.ReferencesInTextResolve` | knx-rs-prod/src/renumber.rs:56-60 | in the text of a document whose map is injective, every attribute value that named an element by a renamed id names exactly that element afterwards, unless a new id was in use already |
| `RenumberText.ReferencesInTextExactly` | knx-rs-prod/src/renumber.rs:56-60 | and if one was, a new id names besides exactly the elements that had it before |
| `BinaryWriter.WriteVarint` | knx-rs-prod/src/hash.rs:23-36 | the loop writes seven bits at a time, lowest first |
| `BinaryWriter.VarintReadsBack` | knx-rs-prod/src/hash.rs:23-36 | every length reads back, whatever follows it |
| `BinaryWriter.VarintExamples` | knx-rs-prod/src/hash.rs:1082-1092 | lengths up to 127 take one octet, the next ones two |
| `BinaryWriter.BlocksReadBack` | knx-rs-prod/src/hash.rs:38-41 | strings that are written one after another read back as they were |
| `Collation.KeysTransitive` | knx-rs-prod/src/hash.rs:879-886 | the order of sort keys is transitive |
| `Collation.KeysFlip` | knx-rs-prod/src/hash.rs:879-886 | and total: comparing in the other direction gives the opposite |
| `Collation.EqualExactlyWhen` | knx-rs-prod/src/hash.rs:902-913 | keys compare equal exactly if their primary weights and cases agree |
| `Collation.LowerCaseFirst` | knx-rs-prod/src/hash.rs:902-913 | of keys that differ in the case of one letter, the one in lower case comes first |
| `Collation.PrintableKeysDiffer` | knx-rs-prod/src/hash.rs:915-933 | printable ASCII keys compare equal only if they are the same |
| `Collation.AccentsAreEqual` | knx-rs-prod/src/hash.rs:915-933 | an accent alone does not tell keys apart |
| `Collation.FirstWeightDecides` | knx-rs-prod/src/hash.rs:902-913 | the first characters that differ in their weight decide |
| `Collation.SymbolsDigitsLetters` | knx-rs-prod/src/hash.rs:915-933 | control characters come first, then symbols, digits, letters, and at last all other characters |
| `Collation.DigitsAscend` | knx-rs-prod/src/hash.rs:915-933 | digits ascend by value |
| `Collation.LettersAscend` | knx-rs-prod/src/hash.rs:915-933 | letters ascend by the alphabet, without regard to case |
| `Collation.SymbolsAscend` | knx-rs-prod/src/hash.rs:915-933 | the order of the symbols |
| `SiblingOrder.SortingIsStable` | knx-rs-prod/src/hash.rs:828-832 | sorting keeps the order of entries whose keys compare equal |
| `SiblingOrder.SortedIs` | knx-rs-prod/src/hash.rs:828-832 | sorting puts the keys in order and keeps all entries |
| `Siblings.BlocksApart` | knx-rs-prod/src/hash.rs:795-834 | first the siblings whose order is relevant, in document order, then the others, sorted by their keys |
| `Siblings.MovingKeepsExactlyWhen` | knx-rs-prod/src/hash.rs:795-834 | the list of written blocks is unchanged by every reordering that keeps the relative order of ordered siblings, exactly if siblings whose keys compare equal have equal bytes |
| `SiblingOctets.OctetsKeptExactlyWhen` | knx-rs-prod/src/hash.rs:795-834 | the written bytes are unchanged by every such reordering exactly if siblings whose keys compare equal give the same bytes in either order |
| `ProgramId.NormalizeApplProgId` | knx-rs-prod/src/hash.rs:137-167 | the fingerprint behind the second dash is cut out, if there is one |
| `ProgramId.FingerprintIsIgnored` | knx-rs-prod/src/hash.rs:137-167 | ids that differ in their fingerprint only have the same normal form |
| `ProgramId.NormalFormOf` | knx-rs-prod/src/hash.rs:137-167 | the normal form of manufacturer, number, version, fingerprint and rest is the same without the fingerprint and its dash |
| `ProgramId.OtherIdsStay` | knx-rs-prod/src/hash.rs:137-167 | ids without the mark of a program are their own normal form |
| `ProgramHash.WriteAttrs` | knx-rs-prod/src/hash.rs:103-135 | the attributes are written in the order of the registry, each as `ProgramOctets.AttributeIs` says, or the first fault |
| `ProgramOctets.AttributeIs` | knx-rs-prod/src/hash.rs:103-135 | the octets of an attribute are its short name and then its effective value: the value if there is one, else the default, else the sign for a missing one |
| `ProgramOctets.SameOctetsSameAttributes` | knx-rs-prod/src/hash.rs:103-658 | read-back: if two elements of one registered name have equal octets, every registered attribute has the same effective value in both, ids up to their fingerprint and flags as booleans |
| `ProgramOctets.SameOctetsSameText` | knx-rs-prod/src/hash.rs:761-787 | if two elements with text have equal octets, their texts are equal, or their decoded contents |
| `ProgramOctets.ElementIs` | knx-rs-prod/src/hash.rs:597-834 | the octets of an element are its own, followed by those of its children that have a key, each of them once |
| `ProgramOctets.KeyIs` | knx-rs-prod/src/hash.rs:597-658 | an element is sorted by its attribute for that, without fingerprint, else by the digest of its octets, if it has any |
| `ProgramOctets.ChildShows` | knx-rs-prod/src/hash.rs:795-834 | elements that differ in one child, which keeps its key and has other octets, have other octets |
| `ProgramOctets.HashShows` | knx-rs-prod/src/hash.rs:949-1025 | without a collision of the digest, so have documents that differ in one child in that way other registration hashes |
| `ProgramHash.ProcessElement` | knx-rs-prod/src/hash.rs:597-658 | own octets, then those of the children; without a key of its own an element is sorted by the digest of its octets |
| `ProgramHash.ReadChildren` | knx-rs-prod/src/hash.rs:795-834 | the loop that counts ordered siblings, collects the keyed ones and sorts them appends exactly the specified octets |
| `ProgramHash.SameProgramSameOctets` | knx-rs-prod/src/hash.rs:597-834 | the bytes of an element are unchanged by reordering siblings at every depth, if ordered ones keep their order, and by other fingerprints in ids, provided siblings whose keys compare equal can be written in either order |
| `ProgramHash.SameProgramSameHash` | knx-rs-prod/src/hash.rs:949-1025 | so is the registration hash of a document without empty text elements |
| `ProgramHash.ChildOctetsKeptExactlyWhen` | knx-rs-prod/src/hash.rs:795-834 | at each element the condition is exact: its bytes are unchanged by every permitted move of its children if and only if it holds there |
| `ProgramHash.ASameProgramDiffers` | knx-rs-prod/src/hash.rs:795-834 | where it does not hold, the same program with its children in another order has other bytes |
| `ProgramHash.DifferentKeysAlike` | knx-rs-prod/src/hash.rs:902-913 | different printable keys are enough |
| `TableObject.TableObject.HandleLoadEvent` | knx-rs-device/src/table_object.rs:147-177 | every load event takes the table through the Load State Machine as specified, with its error, its segment and the fill it asks for |
| `TableObject.SegmentAfter` | knx-rs-device/src/table_object.rs:252-278 | a table keeps its segment, gives it up, or reserves one of the requested size at the end of the memory, and asks for a fill only then |
| `TableObject.StateAfter` | knx-rs-device/src/table_object.rs:147-244 | where each command leads from each state, by its first octet; what is no command fails in every state |
| `TableObject.LoadedExactlyWhen` | knx-rs-device/src/table_object.rs:193-215 | completing a download is the only way to become loaded |
| `TableObject.FailureSaysWhy` | knx-rs-device/src/table_object.rs:147-278 | which error a failure leaves |
| `TableObject.StartsAfterUnload` | knx-rs-device/src/table_object.rs:179-244 | after Unload a table is unloaded, and a download can start, whatever happened to it before |
| `TableObject.SegmentIsGivenUp` | knx-rs-device/src/table_object.rs:179-244 | starting and unloading give up the segment |
| `Segments.Controller.WriteLoadStateControl` | knx-rs-device/src/bau.rs:1200-1233 | a write to the load state control changes that table and fills the memory, and nothing else |
| `Segments.Controller.ApplyFill` | knx-rs-device/src/bau.rs:1647-1659 | a fill grows the memory and sets exactly its bytes; beyond 256 KiB it is skipped |
| `Segments.Controller.WriteToMemory` | knx-rs-device/src/bau.rs:1779-1789 | a write grows the memory and sets exactly its bytes; beyond 256 KiB it is refused |
| `Segments.WrittenIs` | knx-rs-device/src/bau.rs:1779-1789 | the memory after a write, octet by octet: the new octets, those before, and zeros in a gap; beyond 256 KiB nothing changes |
| `Segments.FilledIs` | knx-rs-device/src/bau.rs:1647-1659 | the memory after a fill likewise |
| `Segments.Controller.ApplyMasterReset` | knx-rs-device/src/bau.rs:1299-1332 | each erase code resets the tables and the memory in its scope, and nothing else |
| `Segments.ResetsExactly` | knx-rs-device/src/bau.rs:1299-1341 | which tables each erase code makes new and which it leaves, by literal code; only codes 2 and 7 clear the memory |
| `Segments.ResetUnconfigures` | knx-rs-device/src/bau.rs:935-946 | a device is configured after a reset exactly if it was, and the code erases nothing |
| `Segments.UnloadedCanStart` | knx-rs-device/src/bau.rs:1200-1233 | an Unload written to a table of the device makes it ready for a download, and leaves the memory |
| `Segments.StepKeepsExactlyWhen` | knx-rs-device/src/table_object.rs:252-278 | an event keeps the segments inside memory and pairwise disjoint if and only if an allocation is empty or asks for a fill that fits, and a reset that clears the memory finds no segment of the group object table |
| `Segments.DownloadedStayApart` | knx-rs-device/src/bau.rs:1647-1659 | over every run in which each allocation asks for a fill that fits, the address, association and application segments stay inside memory and pairwise disjoint |
| `Segments.RunLeavesSegment` | knx-rs-device/src/bau.rs:1647-1659 | over every run of events that concern other tables and other addresses, no byte of a segment changes |
| `Segments.DownloadReadsBack` | knx-rs-device/src/table_object.rs:127-293 | a download that allocates with a fill, writes its bytes at the table reference and completes is loaded with exactly these bytes, whatever happens to other tables meanwhile |
| `Segments.FactoryResetLeavesGroupSegment` | knx-rs-device/src/bau.rs:1299-1341 | a factory reset clears the memory but not the segment of the group object table; the next allocation overlaps it |
| `Segments.SegmentsOverlap` | knx-rs-device/src/bau.rs:1299-1341 | a run of a new device that gets there |
| `GroupObjects.GroupObjectStore.NextPending` | knx-rs-device/src/group_object.rs:259-267 | the first object with a pending request, if there is one |
| `GroupObjects.GroupObjectStore.ReinitializeFromTable` | knx-rs-device/src/group_object.rs:279-296 | there are as many objects as entries, found by their numbers, with the sizes of the table; those that stay keep their flags |
| `GroupObjects.Poll` | knx-rs-device/src/bau.rs:823-866 | the loop ends with no object pending; frames and objects are those of the specification, whose frames `GroupObjects.WriteSends` and `ReadSends` pin; an unconfigured device does nothing |
| `GroupObjects.OneFrameEach` | knx-rs-device/src/bau.rs:823-866 | the frames are those of exactly the objects that can send, one each, a write with the encoded value or a read, in strictly ascending ASAP order |
| `GroupObjects.WriteSends` | knx-rs-device/src/bau.rs:823-866 | a pending write to an object that resolves and encodes contributes exactly one group write of its encoded value |
| `GroupObjects.ReadSends` | knx-rs-device/src/bau.rs:823-866 | a pending read of an object that resolves contributes exactly one group read, whatever its value |
| `GroupObjects.FailsExactlyWhen` | knx-rs-device/src/bau.rs:823-866 | a pending object ends failed exactly if it does not resolve, or is a write that does not encode |
| `GroupObjects.OthersAreLeft` | knx-rs-device/src/bau.rs:823-866 | an object without a request is left alone and sends nothing |
| `GroupObjects.HandleTransmitConfirmation` | knx-rs-device/src/bau.rs:882-904 | a confirmation ends the transmission of the first object that transmits to the group, and nothing else |
| `GroupObjects.FirstIsConfirmed` | knx-rs-device/src/bau.rs:882-904 | the first object that transmits to the group is okay after a positive and failed after a negative confirmation |
| `GroupObjects.PollThenConfirm` | knx-rs-device/src/bau.rs:823-904 | where nothing was transmitting, polling and then one confirmation for each frame, in any order, leaves no object pending or transmitting, every sender okay or failed as one of the confirmations for its group says, and every other object as polling left it |
| `GroupObjects.AllOrNone` | knx-rs-device/src/bau.rs:882-904 | if all frames of a group went out, every object that sent to it is okay; if none did, failed |

## Left out

- Sockets, tasks, `select!`, tracing, IPv6 and NAT addressing, discovery, reconnect backoff and
  heartbeat replies of the client: I/O and simple branching.
- The codecs of data point types, TPDUs and APDUs, the property and descriptor services: long but
  finite case analyses; a served request is a list of its effects on outbox and transport layer.
- The contents of the element registry, the conversion of numeric attribute values, entities and
  line ends in XML text, MD5 and UTF-8: parameters or plain strings of the model.
- `ProgramHash.ProcessElement`: elements with text have some, as `Readable` demands; the scanning on
  behind an empty one is not modelled. The position of ordered siblings is not limited to 31 bits.
- `ProgramOctets.SameOctetsSameAttributes`: UTF-8 is an injective parameter, numbers have 1, 2, 4 or 8
  octets by their type, and the short names in the registry are shorter than 36
  octets, which keeps them apart from the sign for a missing value.
- `ProgramOctets.ChildShows`: a child that is sorted by its digest may move when its octets change; the
  law is about children that keep their key.
- `XmlWriting.DocumentIsRenumbered`: markup has a name, attributes and a tail without quotes, as closing
  tags, processing instructions and the XML declaration have.
- `ProgramHash.SameProgramSameHash`: the condition is exact at each element, but not for whole trees,
  because the digest that sorts an element of a parent may by chance keep its place.
- `XmlAttrs.ReadAttrs`: white space is that of the first 256 characters. The code tests it by
  character in tag names and by byte in attributes (knx-rs-prod/src/xml_scan.rs:85-139), so the model
  is exact for documents that are ASCII outside of attribute values.
- `ProgramId.NormalizeApplProgId`: positions count characters, as bytes do for ASCII ids; the guard
  against a cut inside a character is not modelled.
- `RenumberText.RenumberIds`: the id of the application program is given; how it is found in the
  document is not part of this model.
- `RenumberText.RenumberingTextTwice`: documents are shorter than 2^64 characters, and every quote of
  an open tag delimits an attribute value.
- `TransportPair.ConnectedDataIsExactlyOnce`: about one connection; what happens when two of them
  meet is in the two lemmas named above.
- `TunnelPair.ServerToClientIsExactlyOnce`: about one tunnel, from its connection on; the client is
  connected with the id the server gave it.
- `TransportRuns.WaitEndsWithinTwelveSeconds`: polling is prompt; `TransportRuns.RetransmissionIsBounded`
  adds the lag of polling.
- `Segments.DownloadedStayApart`: restoring a persisted state and replacing the whole memory are not
  events of the model.
- `GroupObjects.Poll`: resolving an address and encoding a value are partial functions that do not
  change during the loop.
- `ActionQueue.DrainTransportActions`: what a service does may depend on how many were served before,
  which stands for the rest of the device state.
- Signing, packaging, splitting and patching of product files: foreign libraries and file access.
