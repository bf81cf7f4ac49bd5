# wireless-serial link protocol in Dafny

This project models the hand-written ESP-NOW link protocol of the
wireless-serial firmware. It also proves what the protocol guarantees,
and where it falls short. Two nodes find each other by broadcasting. One
node becomes master through a ruling-code election. The two then run a
three-step handshake: RST, ACK with the code plus one, and EST with the
code plus two. After that they exchange DATA frames, and the master
sends heartbeats. Frames are protected by a CRC-16 over a packed header.

The project has six modules:

- `Wire` (wire.dfy) holds what both implementations share:
  - fixed-width integers and MAC addresses;
  - `wireless_status_t` and `wireless_packet_type_t`;
  - `IS_BROADCAST_ADDR`;
  - the queued serial buffer.
- `Codec` (codec.dfy) is the frame codec:
  - the packed `wireless_packet_t` laid out little-endian;
  - the CRC seal that every builder applies;
  - `CRC_CHECK` and `wireless_packet_check` as in-place methods on the received buffer;
  - one function per packet builder;
  - the round trip: a built frame passes the check and reads back as itself.

  The ROM routine `crc16_le` is a parameter (`CrcFn`), so every result holds for any CRC function.
- `Platform` (platform.dfy) covers what the connection managers share:
  - the configuration values;
  - unsigned tick arithmetic;
  - the peer-table update of `wireless_add_peer`;
  - which received bytes a manager reads;
  - the predicate `Built` for frames that a packet builder produced, and the send-log extension both property modules use.
- `Wlcon` (wlcon.dfy) models `wlcon_con_manager` and `wlcon_heartbeat_handler` of main/wlcon.c.
  - Transition functions (`Iteration`, `Tick` and their parts) say what one loop iteration and one timer tick do to a `Node` record.
  - The class `WlconNode` holds the globals and the manager's locals as fields. Its methods are written the way the C code updates them, and each is proved to implement its transition function.
- `SerialEspnow` (espnow.dfy) models the earlier manager of main/Serial_Espnow.c in the same way, with the class `EspnowNode`.
- `WlconProperties` (wlcon_properties.dfy) and `EspnowProperties` (espnow_properties.dfy) hold the protocol properties, proved over the transition functions. They cover:
  - that every sent frame passes the receiver's check;
  - the election;
  - the handshake and its nonce window;
  - retry bounds;
  - timeout, peer restart and clean-up;
  - stop-and-wait;
  - data delivery;
  - the heartbeat.

One iteration's inputs are parameters:

- the tick count;
- the next `esp_random` byte;
- the received event, as the sender's MAC address and a copy of its bytes;
- whether a received payload gets onto the serial queue (`xQueueSend` succeeds, and for wlcon.c the queue exists);
- for wlcon.c, the head of the send queue, and whether `malloc` and `esp_now_send` succeed.

The peer table (`peers`, a map from address to its encryption flag) is
a real field of each class, because the code queries it through
`esp_now_is_peer_exist`. The other effects are recorded in ghost fields:

- every `esp_now_send` call (`outbox`);
- the payloads queued for the serial side (`delivered`);
- for wlcon.c, the send-queue buffers the manager frees (`released`).

The two managers differ as follows:

| behaviour | main/wlcon.c | main/Serial_Espnow.c |
|---|---|---|
| Which status acts on a CONNECT frame | BROADCAST and CONNECT_RST | BROADCAST only; the sender is registered before the step is examined |
| A frame that is not BROADCAST or CONNECT, received while not connected | reaches the switch | dropped by a filter before the switch |
| CONNECT_RST before the connect interval | still reads the callback queue | `continue`s without reading it |
| Retry limit | `CONFIG_CONNECT_RETRY` | the literal 3 |
| Heartbeat timeout | `CONFIG_HEARTBEAT_INTERVAL + 1000` | `CONFIG_HEARTBEAT_INTERVAL + 3000` |
| Heartbeat send threshold | `CONFIG_HEARTBEAT_INTERVAL` | `CONFIG_HEARTBEAT_INTERVAL / 2` |
| BROADCAST frame from the target, outside BROADCAST | disconnect | ignored |
| Clean-up | removes the peer and resets `target_mac` | keeps both |
| Ruling code in the broadcast frame | the value when the frame was built (0) | the current value |
| `wait_ack` | set by the sender | never set |

## Model

| member | source | states |
|---|---|---|
| Wire.IsBroadcastAddr | main/Serial_Espnow.h:13 | An address is the broadcast address exactly when all six bytes are 0xFF |
| Wire.StatusFromCode | main/Serial_Espnow.h:20-28 | The numbers 0..4 name a status and read back to that number; 5 and above name none |
| Wire.StatusCodeInjective | main/Serial_Espnow.h:20-28 | The five status values are distinct constants, and each reads back as itself |
| Wire.PacketTypeFromCode | main/Serial_Espnow.h:31-38 | Type fields 0..3 name a packet type and read back to that number; there is no heartbeat type |
| Wire.PacketTypeCodeInjective | main/Serial_Espnow.h:31-38 | The four packet types are distinct constants, and each reads back as itself |
| Codec.FromLEOfLE | main/Serial_Espnow.h:41-48 | Reading back n little-endian bytes of a value below 256^n gives the value |
| Codec.SerializeLayout | main/Serial_Espnow.h:41-48 | version, type, length and crc occupy bytes 0-3, 4-7, 8-11 and 12-13, and the payload starts at the header size |
| Codec.ParseSerialize | main/Serial_Espnow.h:41-48 | Reading a serialised frame back through the packed struct gives the same frame |
| Codec.ZeroCrc | main/wlcon.c:311-317 | Zeroing the crc changes only the two crc bytes |
| Codec.CrcCheck | main/wlcon.c:311-317 | CRC_CHECK leaves the buffer byte-identical, and accepts exactly when the CRC-16 of the first (14 + `length`) mod 2^32 bytes of the crc-zeroed buffer equals the stored crc |
| Codec.WrappedLengthPasses | main/wlcon.c:314 | The size_t sum wraps: a bare 14-byte header declaring 2^32 - 14 payload bytes has an empty checked span, passes the check when its crc is the CRC of no bytes, and reads back as a frame declaring more payload than arrived |
| Codec.VersionGate | main/wlcon.c:353-357 | A wrong version is refused whatever the length field and the CRC say |
| Codec.PacketCheck | main/wlcon.c:344-365 | wireless_packet_check leaves the buffer unchanged, accepts exactly the valid frames, and refuses a wrong version |
| Codec.Seal | main/wlcon.c:279-281 | Sealing changes only the crc field |
| Codec.ZeroCrcSerialize | main/wlcon.c:311-317 | Zeroing the crc bytes of a serialised frame gives the frame serialised with crc 0 |
| Codec.SealedFramePasses | main/wlcon.c:311-365 | A sealed frame of the current version whose length is its payload, and whose size fits size_t, passes the check and parses back as itself |
| Codec.BroadcastFrame | main/wlcon.c:112-117 | The broadcast frame is version 1, type BROADCAST, length 1, and its payload is the ruling code |
| Codec.ConnectFrame | main/wlcon.c:260-281 | The connect frame is version 1, type CONNECT, length 2, and its payload is [step, code] |
| Codec.HeartbeatFrame | main/wlcon.c:143-147 | The heartbeat is an empty version-1 DATA frame |
| Codec.DataAckFrame | main/wlcon.c:155-159 | The data acknowledgement is an empty version-1 DATA_ACK frame |
| Codec.DataFrame | main/wlcon.c:398-410 | A data frame is version 1, type DATA, and its length and payload are the queued bytes |
| Platform.TicksSince | main/wlcon.c:440 | Unsigned tick subtraction gives the distance, also across a counter wrap |
| Platform.AddTen | main/wlcon.c:605-606 | `+= 10` on a uint32_t wraps at 2^32 |
| Platform.AddPeer | main/wlcon.c:319-342 | A new address is registered with its encryption flag and becomes target_mac; a known address changes neither the table nor target_mac |
| Platform.ReadableFrame | main/wlcon.c:347 | A buffer that covers what is read, and that passes the check, yields a frame whose BROADCAST or CONNECT bytes, or whose DATA payload of the declared length, are present |
| Platform.BuiltFrameReadable | main/wlcon.c:96-159 | Every frame a packet builder produces is readable, passes the check and parses back as itself |
| Platform.SentFramesPass | main/wlcon.c:344-365 | Every frame in a log of built frames passes the receiver's check and parses back as itself |
| Platform.Arrives | main/wlcon.c:213-246 | A built frame, delivered as the receive callback copies it, is readable, valid and parses to the frame |
| Platform.AckFor | main/wlcon.c:506-510 | The ACK for code c carries ((c + 1) mod 256) and is a built frame |
| Platform.EstFor | main/wlcon.c:517 | The EST sent after the ACK for code c carries ((c + 2) mod 256) and is a built frame |
| Platform.RstFor | main/wlcon.c:457-458 | The RST for code c carries [1, c] and is a built frame |
| Wlcon.Init | main/wlcon.c:654-711 | The node starts in BROADCAST, not master, with no ack outstanding. Only the broadcast address is registered, nothing has been sent, and the broadcast frame carries 0 while the ruling code is the drawn byte |
| Wlcon.WlconNode.constructor | main/wlcon.c:654-711 | wlcon_init yields the state Init describes |
| Wlcon.WlconNode.CreatePackets | main/wlcon.c:96-161 | The broadcast frame is built from the ruling code as it is at that moment |
| Wlcon.WlconNode.IsConnected | main/wlcon.c:647-652 | wlcon_is_connected holds exactly in CONNECTED |
| Wlcon.WlconNode.AddPeer | main/wlcon.c:319-342 | wireless_add_peer on the node equals the peer-table update |
| Wlcon.WlconNode.SendConnectPacket | main/wlcon.c:260-288 | The connect frame for the step and code is resealed and sent to target_mac |
| Wlcon.WlconNode.SendQueuedItem | main/wlcon.c:395-421 | The stop-and-wait sender implements SendQueued |
| Wlcon.WlconNode.CleanUp | main/wlcon.c:423-436 | The DISCONNECTED step implements Disconnect |
| Wlcon.WlconNode.GiveUpIfSpent | main/wlcon.c:450-455 | Spent retries lead to BROADCAST, retry 0, not master |
| Wlcon.WlconNode.SendRstAttempt | main/wlcon.c:457-460 | A fresh code is sent in an RST, and the attempt and its time are recorded |
| Wlcon.WlconNode.RetryConnectRst | main/wlcon.c:446-462 | The CONNECT_RST step implements RetryConnect |
| Wlcon.WlconNode.RunStatus | main/wlcon.c:384-462 | The status switch implements Housekeeping |
| Wlcon.WlconNode.AnswerRstFrame | main/wlcon.c:505-511 | Answering an RST implements AnswerRst |
| Wlcon.WlconNode.EstablishLink | main/wlcon.c:520-527 | The peer is re-registered encrypted and the node enters CONNECTED with heartbeat 0 |
| Wlcon.WlconNode.AcceptAckFrame | main/wlcon.c:512-532 | The ACK check implements AcceptAck |
| Wlcon.WlconNode.AcceptEstFrame | main/wlcon.c:533-550 | The EST check implements AcceptEst |
| Wlcon.WlconNode.HandleConnect | main/wlcon.c:500-553 | CONNECT handling implements OnConnect |
| Wlcon.WlconNode.HandleBroadcast | main/wlcon.c:481-498 | BROADCAST handling implements OnBroadcast |
| Wlcon.WlconNode.HandleData | main/wlcon.c:555-582 | DATA handling implements OnData, including the payload the serial queue refuses |
| Wlcon.WlconNode.HandlePacket | main/wlcon.c:478-595 | The type switch implements HandleFrame |
| Wlcon.WlconNode.Step | main/wlcon.c:367-601 | One loop iteration, including the in-place check of the received buffer, implements Iteration |
| Wlcon.WlconNode.HeartbeatHandler | main/wlcon.c:603-616 | The timer callback implements Tick |
| WlconProperties.SentFramesBuilt | main/wlcon.c:367-616 | Every frame the manager or the timer sends was built by a packet builder, so it passes the receiver's check; what was sent stays sent |
| WlconProperties.IterationExtends | main/wlcon.c:367-601 | One iteration only appends built frames and keeps the broadcast frame well formed |
| WlconProperties.HousekeepingExtends | main/wlcon.c:384-462 | The status step only appends built frames |
| WlconProperties.HandleFrameKeeps | main/wlcon.c:478-595 | Handling a frame only appends built frames |
| WlconProperties.OnConnectKeeps | main/wlcon.c:500-553 | Handling a CONNECT frame only appends built frames |
| WlconProperties.OnDataKeeps | main/wlcon.c:555-582 | Handling a DATA frame only appends a DATA_ACK |
| WlconProperties.TickExtends | main/wlcon.c:603-616 | The timer only appends heartbeat frames |
| WlconProperties.InitInv | main/wlcon.c:654-711 | The start state's broadcast frame is well formed, everything it has sent was built by a packet builder, and it has no ack outstanding and no retries |
| WlconProperties.ReceiveBuilt | main/wlcon.c:464-478 | A built frame that arrives is handled as itself |
| WlconProperties.ElectionOutcome | main/wlcon.c:491-497 | In BROADCAST a peer's broadcast makes the node master and CONNECT_RST exactly when its ruling code is strictly greater. A new peer then becomes the unencrypted target; otherwise nothing changes |
| WlconProperties.StaleBroadcastBothWin | main/wlcon.c:663 | As written, two fresh nodes with non-zero codes both win the election |
| WlconProperties.InitAnnounced | main/wlcon.c:654-711 | The start state with the broadcast frame built after the ruling code is drawn, so it carries that code; nothing else differs from Init |
| WlconProperties.AnnouncedElectionOneMaster | main/wlcon.c:706 | When the broadcast carries the drawn code, exactly one of two fresh nodes with different codes becomes master, the greater code winning, and none does when the codes are equal |
| WlconProperties.ConnectArrives | main/wlcon.c:500-504 | A received CONNECT frame reaches the CONNECT handler |
| WlconProperties.ConnectIgnoredOutsideHandshake | main/wlcon.c:500-504 | In CONNECTED or NONE any RST, ACK or EST leaves the node unchanged: CONNECT frames count in BROADCAST and CONNECT_RST only |
| WlconProperties.RstAnswered | main/wlcon.c:505-511 | A responder registers an unknown initiator unencrypted as target, adopts its code and answers with the ACK for it |
| WlconProperties.AcceptOwnAck | main/wlcon.c:512-532 | The initiator accepts the ACK for its own code exactly when the code is at most 254, sending the EST and connecting as master over an encrypted entry with heartbeat 0; for 255 it returns to BROADCAST |
| WlconProperties.AcceptOwnEst | main/wlcon.c:533-550 | The responder accepts the EST for its own code exactly when the code is at most 253, connecting as slave over an encrypted entry with heartbeat 0; for 254 and 255 it returns to BROADCAST |
| WlconProperties.AckAccepted | main/wlcon.c:512-532 | The same, for the ACK as it arrives over the air in CONNECT_RST |
| WlconProperties.EstAccepted | main/wlcon.c:533-550 | The responder accepts the EST for its code exactly when the code is at most 253, and connects as slave over an encrypted entry with heartbeat 0; otherwise it only returns to BROADCAST |
| WlconProperties.AckMismatch | main/wlcon.c:512-532 | In BROADCAST or CONNECT_RST, an ACK whose code is not connect_code + 1 (in int) only sets BROADCAST: nothing is sent and nothing else changes |
| WlconProperties.EstMismatch | main/wlcon.c:533-550 | An EST whose code is not connect_code + 2 only sets BROADCAST |
| WlconProperties.HandshakeWindow | main/wlcon.c:505-550 | For a responder that has not met the initiator or already targets it (as after the stale-broadcast election), both sides connect exactly when the initiator's code is at most 253; for 254 the initiator connects but the responder falls back to BROADCAST |
| WlconProperties.WrappedHandshake | main/wlcon.c:510-535 | With the comparisons taken mod 256, every code completes the handshake, for a responder that has not met the initiator or already targets it, with a master and a slave that target each other |
| WlconProperties.RetryAttempt | main/wlcon.c:446-462 | With retries left, an elapsed interval sends an RST with a fresh code and counts it; status and role are kept |
| WlconProperties.RetriesExhausted | main/wlcon.c:446-462 | With retries spent the node returns to BROADCAST as a slave, yet still sends an RST and ends with retry_count 1 |
| WlconProperties.RetryPaced | main/wlcon.c:448 | Before the connect interval has passed, CONNECT_RST changes nothing |
| WlconProperties.HandleFrameCounters | main/wlcon.c:478-595 | A received frame never changes retry_count, and clears wait_ack only through a DATA_ACK in CONNECTED |
| WlconProperties.ConnectCounters | main/wlcon.c:500-553 | CONNECT handling never changes retry_count or wait_ack |
| WlconProperties.RetryBounded | main/wlcon.c:446-462 | retry_count never exceeds max(CONFIG_CONNECT_RETRY, 1) across iterations and ticks |
| WlconProperties.HousekeepingRetryBounded | main/wlcon.c:446-462 | The status step keeps retry_count within that cap |
| WlconProperties.DisconnectedIgnoresFrames | main/wlcon.c:478-595 | In DISCONNECTED every frame is ignored |
| WlconProperties.DataNeedsConnection | main/wlcon.c:555-560 | Outside CONNECTED a DATA frame changes nothing |
| WlconProperties.AckNeedsConnection | main/wlcon.c:584-589 | Outside CONNECTED a DATA_ACK changes nothing |
| WlconProperties.HeartbeatTimeout | main/wlcon.c:386-392 | Past the heartbeat interval plus 1000 ms the iteration ends in DISCONNECTED whatever arrives. A queued item is still taken when no ack is outstanding |
| WlconProperties.PeerRestart | main/wlcon.c:482-489 | In CONNECT_RST or CONNECTED, a broadcast from the target forces DISCONNECTED and nothing else; from any other address it is ignored |
| WlconProperties.CleanUpOutcome | main/wlcon.c:423-436 | The clean-up removes the peer and resets target_mac unless already broadcast, ends in BROADCAST as slave with retry 0, and keeps wait_ack |
| WlconProperties.StopAndWait | main/wlcon.c:395-421 | An item is taken exactly when no ack is outstanding. It goes out as a DATA frame to the target, wait_ack follows the send result, the item's buffer is freed when bit 0 of its flag is set, and nothing else changes. A failed malloc keeps wait_ack set and skips the callback queue |
| WlconProperties.DataDelivered | main/wlcon.c:555-582 | In CONNECTED a DATA frame sends a DATA_ACK to the target and restarts the heartbeat count; its non-empty payload reaches the serial side exactly when the serial queue takes it, and is lost otherwise |
| WlconProperties.AckReleasesSender | main/wlcon.c:584-594 | In CONNECTED a DATA_ACK clears wait_ack, restarts the heartbeat count and does nothing else |
| WlconProperties.LostAckBlocksSender | main/wlcon.c:423-436 | As written, a node still awaiting an ack when it disconnects is still awaiting it, and takes no queued item, once reconnected |
| WlconProperties.WaitKept | main/wlcon.c:395-397 | An iteration that receives no valid DATA_ACK keeps an outstanding wait_ack and takes no queued item |
| WlconProperties.WaitBlocksUntilDataAck | main/wlcon.c:423-436 | Through any run of loop iterations and timer ticks with no valid DATA_ACK, timeouts, clean-ups and reconnections included, an outstanding wait_ack stays set and no queued item is taken |
| WlconProperties.ClearedAckFreesSender | main/wlcon.c:423-436 | When the clean-up also clears wait_ack, the next connection sends the first queued item |
| WlconProperties.TickHeartbeat | main/wlcon.c:603-616 | Both counters advance by 10. A heartbeat goes to the target exactly when the node is the connected master and both counters exceed the interval, and then only the interval counter restarts. A slave never sends one |
| WlconProperties.HeartbeatAcknowledged | main/wlcon.c:561-569 | A heartbeat received in CONNECTED is answered with a DATA_ACK and delivers nothing |
| SerialEspnow.Init | main/Serial_Espnow.c:627-686 | The node starts in BROADCAST, not master, with no ack outstanding and no retries. Only the broadcast address is registered, and one broadcast carrying the drawn code has been sent |
| SerialEspnow.EspnowNode.constructor | main/Serial_Espnow.c:627-686 | Serial_Espnow_init yields the state Init describes |
| SerialEspnow.EspnowNode.SendBroadcastPacket | main/Serial_Espnow.c:145-169 | A fresh broadcast frame with the current ruling code goes to the broadcast address |
| SerialEspnow.EspnowNode.SendConnectPacket | main/Serial_Espnow.c:171-194 | A fresh connect frame for the step and code goes to target_mac |
| SerialEspnow.EspnowNode.SendHeartbeatPacket | main/Serial_Espnow.c:196-217 | Kind 1 sends an empty DATA frame and any other kind an empty DATA_ACK, to target_mac |
| SerialEspnow.EspnowNode.SendAckPacket | main/Serial_Espnow.c:219-240 | An empty DATA_ACK goes to target_mac |
| SerialEspnow.EspnowNode.AddPeer | main/Serial_Espnow.c:251-274 | wireless_add_peer on the node equals the peer-table update |
| SerialEspnow.EspnowNode.GiveUpIfSpent | main/Serial_Espnow.c:344-350 | After three attempts: BROADCAST, retry 0, not master |
| SerialEspnow.EspnowNode.SendRstAttempt | main/Serial_Espnow.c:351-354 | A fresh code is sent in an RST, and the attempt and its time are recorded |
| SerialEspnow.EspnowNode.RunStatus | main/Serial_Espnow.c:309-355 | The status switch, with the early `continue` in CONNECT_RST, implements Housekeeping |
| SerialEspnow.EspnowNode.AnswerRstFrame | main/Serial_Espnow.c:402-407 | Answering an RST implements AnswerRst |
| SerialEspnow.EspnowNode.EstablishLink | main/Serial_Espnow.c:414-424 | The peer is re-registered encrypted and the node enters CONNECTED with heartbeat 0 |
| SerialEspnow.EspnowNode.AcceptAckFrame | main/Serial_Espnow.c:408-431 | The ACK check implements AcceptAck |
| SerialEspnow.EspnowNode.AcceptEstFrame | main/Serial_Espnow.c:432-452 | The EST check implements AcceptEst |
| SerialEspnow.EspnowNode.HandleConnect | main/Serial_Espnow.c:395-453 | CONNECT handling implements OnConnect |
| SerialEspnow.EspnowNode.HandleBroadcast | main/Serial_Espnow.c:380-393 | BROADCAST handling implements OnBroadcast |
| SerialEspnow.EspnowNode.HandleData | main/Serial_Espnow.c:455-482 | DATA handling implements OnData, including the payload the serial queue refuses |
| SerialEspnow.EspnowNode.HandlePacket | main/Serial_Espnow.c:371-496 | The filter and the type switch implement HandleFrame |
| SerialEspnow.EspnowNode.Step | main/Serial_Espnow.c:299-505 | One loop iteration, including the in-place check of the received buffer, implements Iteration |
| SerialEspnow.EspnowNode.HeartbeatHandler | main/Serial_Espnow.c:571-585 | The timer callback implements Tick |
| EspnowProperties.SentFramesBuilt | main/Serial_Espnow.c:299-585 | Every frame the manager or the timer sends was built by a packet builder, so it passes the receiver's check; what was sent stays sent |
| EspnowProperties.HousekeepingExtends | main/Serial_Espnow.c:309-355 | The status step only appends built frames |
| EspnowProperties.OnConnectExtends | main/Serial_Espnow.c:395-453 | CONNECT handling only appends built frames |
| EspnowProperties.HandleFrameExtends | main/Serial_Espnow.c:371-496 | Handling a frame only appends built frames |
| EspnowProperties.InitBuilt | main/Serial_Espnow.c:685 | The start-up broadcast is a built frame |
| EspnowProperties.ReceiveBuilt | main/Serial_Espnow.c:358-370 | A built frame that arrives is handled as itself |
| EspnowProperties.UnconnectedFilter | main/Serial_Espnow.c:371-375 | While not connected, DATA (heartbeats included) and DATA_ACK frames are dropped with no effect |
| EspnowProperties.UnknownTypeIgnored | main/Serial_Espnow.c:377-496 | A frame of unknown type changes nothing in any status |
| EspnowProperties.BroadcastHeard | main/Serial_Espnow.c:380-393 | A broadcast counts only in BROADCAST, with the strict `>` election. In any other status it is ignored, even from the target |
| EspnowProperties.FreshNodesElectOne | main/Serial_Espnow.c:680-685 | Two fresh nodes hearing each other's start-up broadcast elect exactly one master when their codes differ, and none when the codes are equal |
| EspnowProperties.RetryPacing | main/Serial_Espnow.c:340-343 | Before the connect interval has passed, a CONNECT_RST iteration changes nothing and does not read the callback queue |
| EspnowProperties.RetryAttempt | main/Serial_Espnow.c:338-355 | Under three attempts, an RST with a fresh code is sent and counted |
| EspnowProperties.RetriesExhausted | main/Serial_Espnow.c:344-354 | After three attempts the node returns to BROADCAST as slave, yet still sends an RST and ends with retry_count 1 |
| EspnowProperties.RetryBounded | main/Serial_Espnow.c:344-354 | retry_count never exceeds 3 |
| EspnowProperties.HandleFrameCounters | main/Serial_Espnow.c:371-496 | A received frame never changes retry_count and never sets wait_ack |
| EspnowProperties.ConnectCounters | main/Serial_Espnow.c:395-453 | CONNECT handling never changes retry_count or wait_ack |
| EspnowProperties.ConnectIgnoredOutsideBroadcast | main/Serial_Espnow.c:395-399 | Any CONNECT frame outside BROADCAST is ignored, so an initiator in CONNECT_RST ignores the ACK |
| EspnowProperties.ConnectArrives | main/Serial_Espnow.c:395-401 | A received CONNECT frame reaches the CONNECT handler |
| EspnowProperties.RstAnswered | main/Serial_Espnow.c:400-407 | A responder in BROADCAST registers the initiator unencrypted as target, adopts its code, sends the ACK and stays in BROADCAST |
| EspnowProperties.AcceptOwnAck | main/Serial_Espnow.c:408-431 | The ACK for the node's own code is accepted exactly when the code is at most 254, with heartbeat 0; for 255 the node only returns to BROADCAST |
| EspnowProperties.AckAcceptedInBroadcast | main/Serial_Espnow.c:408-431 | An initiator back in BROADCAST connects as master, with heartbeat 0, on the ACK for its last code exactly when that code is at most 254 |
| EspnowProperties.AcceptOwnEst | main/Serial_Espnow.c:432-452 | The EST for the node's own code is accepted exactly when the code is at most 253, with heartbeat 0 |
| EspnowProperties.EstAccepted | main/Serial_Espnow.c:432-452 | The responder connects as slave, with heartbeat 0, on the EST for its code exactly when that code is at most 253 |
| EspnowProperties.HandshakeWindow | main/Serial_Espnow.c:400-452 | With the initiator back in BROADCAST and a responder that has not met it or already targets it (as after answering an earlier RST), both sides connect exactly when its code is at most 253; for 254 the initiator connects but the responder stays in BROADCAST |
| EspnowProperties.WrappedHandshake | main/Serial_Espnow.c:408-452 | With the comparisons taken mod 256, every code completes the handshake, with a master and a slave that target each other |
| EspnowProperties.AckMismatch | main/Serial_Espnow.c:395-431 | In BROADCAST an ACK whose code is not connect_code + 1 (in int) leaves only the unencrypted registration of its sender (and, if new, its adoption as target_mac); nothing is sent and the node stays in BROADCAST |
| EspnowProperties.EstMismatch | main/Serial_Espnow.c:395-452 | The same for an EST whose code is not connect_code + 2 |
| EspnowProperties.TimeoutThreshold | main/Serial_Espnow.c:311-317 | In CONNECTED the status step disconnects exactly when the heartbeat count exceeds the interval plus 3000 ms |
| EspnowProperties.DisconnectedIgnoresFrames | main/Serial_Espnow.c:371-496 | In DISCONNECTED every frame is ignored |
| EspnowProperties.CleanUpKeepsPeer | main/Serial_Espnow.c:320-327 | The DISCONNECTED step returns to BROADCAST as slave with retry 0, keeps the peer and target_mac, and sends nothing |
| EspnowProperties.WaitAckNeverSet | main/Serial_Espnow.c:484-495 | Once clear, wait_ack stays clear through every iteration and tick |
| EspnowProperties.DataDelivered | main/Serial_Espnow.c:455-482 | In CONNECTED a DATA frame restarts the heartbeat count and is answered with a DATA_ACK; its non-empty payload reaches the serial side exactly when xQueueSend takes it, and is lost otherwise |
| EspnowProperties.AckReceived | main/Serial_Espnow.c:484-495 | In CONNECTED a DATA_ACK clears wait_ack and restarts the heartbeat count, and does nothing else |
| EspnowProperties.TickHeartbeat | main/Serial_Espnow.c:571-585 | Both counters advance by 10. A heartbeat is sent exactly when the node is the connected master and both counters exceed half the interval, and then only the interval counter restarts. A slave never sends one |

## Left out

- The radio callbacks `espnow_send_cb` and `espnow_recv_cb` are represented only by the optional received event (sender address and bytes). A send-completion event is treated like no event.
- The event queue is not modelled. In particular, an event dropped because the queue is full is not modelled.
- Wi-Fi and ESP-NOW initialisation are not modelled. `esp_now_*` registration calls are modelled as updates of the peer table.
- `crc16_le` is a ROM routine whose body is not visible, so it is a parameter. Properties that depend on the CRC's error-detection strength are not stated.
- `malloc` and `free` are modelled only in two places: the failed allocation of a data frame in wlcon.c is an input, and the `free` of a send-queue buffer whose flag has bit 0 set is recorded in `released`. Buffer ownership otherwise, the leaks (the received payload copy is never freed when the serial queue refuses it) and the NULL dereference in the log of `wireless_packet_check` are not modelled.
- Serial_Espnow.c: every control-frame allocation succeeds in the model; the failed `malloc` paths of the send helpers are not modelled.
- `esp_now_send` results are not modelled. Every call is recorded in `outbox`; wlcon.c's data path additionally takes the result as an input.
- The timer callback and the manager task share `heartbeat_time` and `status`. Their interleaving is modelled as separate `Step` and `HeartbeatHandler` calls on one state, so races between them are not modelled.
- `esp_random`, `xTaskGetTickCount` and `CONFIG_*` are inputs. Intervals are given directly in ticks.
- One `now` per iteration stands for both `xTaskGetTickCount` reads of a status step (main/wlcon.c:440 and 443, 448 and 460): the tick that elapses between the comparison and the stored time is not modelled.
- main/wlcon.h is not part of this model. `WIRELESS_PACKET_VERSION` is taken as 1, and the queued buffer's `buf`/`flag` shape is taken from its use in main/wlcon.c:395-420.
- Codec.CrcCheck, Codec.PacketCheck: require the buffer to cover the checked span, (14 + `length`) mod 2^32 bytes, which the code reads without comparing it with the received length; reading past the end of the buffer is not modelled. Spans that wrap around are modelled (Codec.WrappedLengthPasses).
- Wlcon.Receive, SerialEspnow.Receive: also require (`Readable`) the payload bytes read from a BROADCAST or CONNECT frame and the declared payload of a DATA frame to be present, even in states where the frame is dropped unread; a `memcpy` past the end of the buffer is not modelled.
- The static RST/ACK/EST packets of wlcon.c are modelled by the frames they carry when sent: each send rewrites the code and reseals. The heartbeat and acknowledgement packets likewise appear as the frames sent.
- Delivered payloads are `payload[..length]`. The 16-bit `len` of the queued `buf_len_t` would truncate a length of 65536 or more, which an ESP-NOW frame cannot carry; that truncation is not modelled.
- main/main.c, main/espnow.c, `uart_rx_task` in Serial_Espnow.c, `wireless_heartbeat_task` (never started), `wifi_init` and serial_test.py are UART, task and test plumbing, and are not modelled.

## Findings

| source | as written | input that shows it | evidently intended | confidence | as-written member | corrected member |
|---|---|---|---|---|---|---|
| main/wlcon.c:663 | `wlcon_create_packet` seals the broadcast frame before `master_ruling_code` is drawn at line 706, so every broadcast carries 0 | two fresh nodes with ruling codes 7 and 9: each hears 0 and both become master | the broadcast announces the drawn ruling code, so exactly one node wins | not executed; high | WlconProperties.StaleBroadcastBothWin | WlconProperties.AnnouncedElectionOneMaster |
| main/wlcon.c:510-535 | the ACK and EST codes are sent truncated to 8 bits but compared with `connect_code + 1` and `+ 2` in int | initiator code 254: the responder expects EST code 256, receives 0 and falls back to BROADCAST while the initiator is CONNECTED | comparisons modulo 256, so every code completes the handshake | not executed; high | WlconProperties.HandshakeWindow | WlconProperties.WrappedHandshake |
| main/wlcon.c:423-436 | the DISCONNECTED clean-up leaves `wait_ack` set | a DATA frame whose DATA_ACK is lost, then a heartbeat timeout and a new connection: the sender takes no queued item until some DATA_ACK reaches it (WlconProperties.WaitBlocksUntilDataAck). A node that reconnects as master is freed by the DATA_ACK that answers its next heartbeat. One that reconnects as slave sends no heartbeat, and its peer sends a DATA_ACK only in answer to a DATA frame (main/wlcon.c:555-582), so it stays blocked for as long as it is slave | the clean-up drops the outstanding acknowledgement | not executed; medium | WlconProperties.LostAckBlocksSender | WlconProperties.ClearedAckFreesSender |
| main/Serial_Espnow.c:408-452 | the same ACK and EST comparisons as in wlcon.c, in int against codes sent truncated to 8 bits | initiator code 254, back in BROADCAST: the responder expects EST code 256, receives 0 and stays in BROADCAST while the initiator is CONNECTED | comparisons modulo 256 | not executed; high | EspnowProperties.HandshakeWindow | EspnowProperties.WrappedHandshake |
