/*
 * The earlier connection manager of main/Serial_Espnow.c, modelled the
 * same way as module Wlcon: transition functions over a Node record say
 * what one iteration of wireless_con_manager_task and one tick of
 * wireless_heartbeat_handler do; the EspnowNode class, written the way the
 * C code updates its globals and locals, is proved to implement them.
 *
 * It differs from wlcon.c in what it gates and when: CONNECT frames are
 * acted on in BROADCAST only, non-discovery frames are filtered before the
 * switch while not connected, CONNECT_RST skips the callback queue until
 * the connect interval has passed, the retry limit is the literal 3, the
 * timeout is CONFIG_HEARTBEAT_INTERVAL + 3000, the clean-up keeps the
 * peer, every frame is built afresh when sent, and nothing sets wait_ack.
 */
module SerialEspnow {
  import opened Wire
  import opened Codec
  import opened Platform

  /** The literal retry limit of CONNECT_RST. */
  const RetryLimit: nat := 3

  /** Everything one iteration of wireless_con_manager_task reads or writes. */
  datatype Node = Node(
    status: Status,
    isMaster: bool,
    retryCount: nat,
    connectCode: uint8,
    waitAck: bool,
    heartbeatTime: uint32,
    heartbeatInterval: uint32,
    targetMac: Mac,
    rulingCode: uint8,
    lastBroadcastTime: uint32,
    lastConnectRstTime: uint32,
    peers: Peers,               // the ESP-NOW peer table
    outbox: seq<Sent>,          // every esp_now_send call, in order
    delivered: seq<seq<uint8>>) // payloads queued for the serial side

  /**
   * One iteration's inputs: the tick count, the next esp_random byte, the
   * event at the head of the callback queue, and whether a received
   * payload gets onto the serial queue (xQueueSend succeeds).
   */
  datatype Inputs = Inputs(now: uint32, random: uint8, inbound: Option<Inbound>, serialOk: bool)

  /** The new state, and whether the callback event was taken off its queue. */
  datatype Outcome = Outcome(node: Node, eventTaken: bool)

  /** The first half of an iteration: the new state and whether it ended there (`continue`). */
  datatype Phase = Phase(node: Node, skipped: bool)

  /**
   * Serial_Espnow_init with the globals' and the manager's initial values:
   * the broadcast address is registered, the ruling code drawn, and a
   * first broadcast carrying it is sent.
   */
  function Init(cfg: Config, random: uint8): (s: Node)
    ensures s.status == Broadcast && !s.isMaster && !s.waitAck && s.retryCount == 0
    ensures s.rulingCode == random && s.peers == map[BroadcastMac := false]
    ensures s.outbox == [Sent(BroadcastMac, BroadcastFrame(cfg.crc, random))] && s.delivered == []
  {
    Node(Broadcast, false, 0, 0, false, 0, 0, InitialTarget, random, 0, 0,
         map[BroadcastMac := false], [Sent(BroadcastMac, BroadcastFrame(cfg.crc, random))], [])
  }

  /** One esp_now_send of a freshly built frame. */
  function SendTo(s: Node, dest: Mac, f: Frame): Node {
    s.(outbox := s.outbox + [Sent(dest, f)])
  }

  /** send_connect_packet: a CONNECT frame for `step` carrying `code` goes to target_mac. */
  function SendConnect(cfg: Config, s: Node, step: uint8, code: uint8): Node
    requires step == ConRst || step == ConAck || step == ConEst
  {
    SendTo(s, s.targetMac, ConnectFrame(cfg.crc, step, code))
  }

  // ---------------------------------------------------------------------
  // First half of the loop body: what the current status does

  /** Heartbeat timeout: more than CONFIG_HEARTBEAT_INTERVAL + 3000 ms without a liveness frame. */
  function CheckTimeout(cfg: Config, s: Node): Node {
    if s.heartbeatTime > cfg.heartbeatInterval + 3000 then s.(status := Disconnected) else s
  }

  /** The DISCONNECTED step: back to BROADCAST as a slave with no retries counted; the peer stays registered. */
  function Reset(s: Node): Node {
    s.(retryCount := 0, isMaster := false, status := Broadcast)
  }

  /** BROADCAST: broadcast the current ruling code once the broadcast interval has passed. */
  function KeepBroadcasting(cfg: Config, s: Node, now: uint32): Node {
    if TicksSince(now, s.lastBroadcastTime) > cfg.broadcastTicks then
      SendTo(s, BroadcastMac, BroadcastFrame(cfg.crc, s.rulingCode)).(lastBroadcastTime := now)
    else s
  }

  /** CONNECT_RST with three attempts made: back to BROADCAST, not master, count 0. */
  function GiveUp(s: Node): Node {
    if s.retryCount >= RetryLimit then s.(status := Broadcast, retryCount := 0, isMaster := false)
    else s
  }

  /** One connect attempt: draw a fresh code, send it in an RST, count the attempt. */
  function SendRst(cfg: Config, s: Node, now: uint32, random: uint8): Node {
    var u := SendConnect(cfg, s.(connectCode := random), ConRst, random);
    u.(lastConnectRstTime := now, retryCount := s.retryCount + 1)
  }

  /** The status switch; CONNECT_RST ends the iteration early until the connect interval has passed. */
  function Housekeeping(cfg: Config, s: Node, now: uint32, random: uint8): Phase {
    match s.status
    case Connected => Phase(CheckTimeout(cfg, s), false)
    case Disconnected => Phase(Reset(s), false)
    case Broadcast => Phase(KeepBroadcasting(cfg, s, now), false)
    case ConnectRst =>
      if TicksSince(now, s.lastConnectRstTime) < cfg.connectTicks then Phase(s, true)
      else Phase(SendRst(cfg, GiveUp(s), now, random), false)
    case StatusNone => Phase(s, false)
  }

  // ---------------------------------------------------------------------
  // Second half: the received frame

  /** The filter before the switch: while not connected only BROADCAST and CONNECT frames get through. */
  predicate Discarded(s: Node, f: Frame) {
    s.status != Connected && f.ptype != PacketTypeCode(BroadcastPkt) && f.ptype != PacketTypeCode(ConnectPkt)
  }

  /** BROADCAST frame, acted on in BROADCAST only: the strictly greater ruling code becomes master and initiator. */
  function OnBroadcast(s: Node, mac: Mac, f: Frame): Node
    requires |f.payload| >= 1
  {
    if s.status != Broadcast then s
    else if s.rulingCode > f.payload[0] then
      var u := AddPeer(s.peers, s.targetMac, mac, false);
      s.(isMaster := true, peers := u.peers, targetMac := u.target, status := ConnectRst)
    else s
  }

  /** Re-register the peer with its link key and enter CONNECTED with a fresh heartbeat count. */
  function Establish(s: Node, mac: Mac): Node {
    var u := AddPeer(s.peers - {s.targetMac}, s.targetMac, mac, true);
    s.(peers := u.peers, targetMac := u.target, heartbeatTime := 0, status := Connected)
  }

  /** CONNECT/RST: adopt the code and answer with an ACK carrying the code plus one, truncated to 8 bits. */
  function AnswerRst(cfg: Config, s: Node, code: uint8): Node {
    SendConnect(cfg, s.(connectCode := code), ConAck, ((code as int + 1) % 256) as uint8)
  }

  /**
   * CONNECT/ACK: an ACK whose code is connect_code plus one (compared in
   * int) is answered with an EST carrying that plus one, and the node
   * becomes the connected master; any other ACK sends it to BROADCAST.
   */
  function AcceptAck(cfg: Config, s: Node, mac: Mac, code: uint8): Node {
    if code == s.connectCode + 1 then
      Establish(SendConnect(cfg, s, ConEst, ((code as int + 1) % 256) as uint8).(isMaster := true), mac)
    else s.(status := Broadcast)
  }

  /** CONNECT/EST: an EST whose code is connect_code plus two makes the node the connected slave; otherwise BROADCAST. */
  function AcceptEst(s: Node, mac: Mac, code: uint8): Node {
    if code == s.connectCode + 2 then Establish(s.(isMaster := false), mac)
    else s.(status := Broadcast)
  }

  /** CONNECT frame, acted on in BROADCAST only; the sender is registered unencrypted before the step is looked at. */
  function OnConnect(cfg: Config, s: Node, mac: Mac, f: Frame): Node
    requires |f.payload| >= 2
  {
    if s.status != Broadcast then s
    else
      var u := AddPeer(s.peers, s.targetMac, mac, false);
      var t := s.(peers := u.peers, targetMac := u.target);
      if f.payload[0] == ConRst then AnswerRst(cfg, t, f.payload[1])
      else if f.payload[0] == ConAck then AcceptAck(cfg, t, mac, f.payload[1])
      else if f.payload[0] == ConEst then AcceptEst(t, mac, f.payload[1])
      else t
  }

  /**
   * DATA frame, acted on in CONNECTED only: liveness and a DATA_ACK back;
   * a non-empty payload goes to the serial side when xQueueSend takes it
   * (`serialOk`) and is dropped otherwise.
   */
  function OnData(cfg: Config, s: Node, f: Frame, serialOk: bool): Node
    requires f.length <= |f.payload|
  {
    if s.status != Connected then s
    else
      var t := SendTo(s.(heartbeatTime := 0), s.targetMac, DataAckFrame(cfg.crc));
      if f.length == 0 || !serialOk then t
      else t.(delivered := s.delivered + [f.payload[..f.length]])
  }

  /** DATA_ACK frame, acted on in CONNECTED only. */
  function OnDataAck(s: Node): Node {
    if s.status != Connected then s else s.(waitAck := false, heartbeatTime := 0)
  }

  /** The filter and then the switch on the type of a frame that passed wireless_packet_check. */
  function HandleFrame(cfg: Config, s: Node, mac: Mac, f: Frame, serialOk: bool): Node
    requires FrameReadable(f)
  {
    if Discarded(s, f) then s
    else
      match PacketTypeFromCode(f.ptype)
      case Some(BroadcastPkt) => OnBroadcast(s, mac, f)
      case Some(ConnectPkt) => OnConnect(cfg, s, mac, f)
      case Some(DataPkt) => OnData(cfg, s, f, serialOk)
      case Some(DataAckPkt) => OnDataAck(s)
      case Nothing => s
  }

  /** The callback event: a frame that fails wireless_packet_check is dropped without any effect. */
  function Receive(cfg: Config, s: Node, ev: Option<Inbound>, serialOk: bool): Node
    requires ev.Some? ==> Readable(cfg.crc, ev.value.bytes)
  {
    if ev.Nothing? || !PacketValid(cfg.crc, ev.value.bytes) then s
    else HandleFrame(cfg, s, ev.value.mac, ParseFrame(ev.value.bytes), serialOk)
  }

  /** One iteration of the wireless_con_manager_task loop. */
  function Iteration(cfg: Config, s: Node, input: Inputs): Outcome
    requires input.inbound.Some? ==> Readable(cfg.crc, input.inbound.value.bytes)
  {
    var h := Housekeeping(cfg, s, input.now, input.random);
    if h.skipped then Outcome(h.node, false)
    else Outcome(Receive(cfg, h.node, input.inbound, input.serialOk), input.inbound.Some?)
  }

  /** wireless_heartbeat_handler: count, and let a connected master send a heartbeat past half the interval. */
  function Tick(cfg: Config, s: Node): Node {
    var t := s.(heartbeatTime := AddTen(s.heartbeatTime), heartbeatInterval := AddTen(s.heartbeatInterval));
    if t.isMaster && t.status == Connected && t.heartbeatTime > cfg.heartbeatInterval / 2
       && t.heartbeatInterval > cfg.heartbeatInterval / 2
    then SendTo(t.(heartbeatInterval := 0), t.targetMac, HeartbeatFrame(cfg.crc))
    else t
  }

  // ---------------------------------------------------------------------
  // The node as the C code holds it

  class EspnowNode {
    const cfg: Config
    var status: Status
    var isMaster: bool
    var retryCount: nat
    var connectCode: uint8
    var waitAck: bool
    var heartbeatTime: uint32
    var heartbeatInterval: uint32
    var targetMac: Mac
    var rulingCode: uint8
    var lastBroadcastTime: uint32
    var lastConnectRstTime: uint32
    var peers: Peers            // the driver's peer table, queried by esp_now_is_peer_exist
    ghost var outbox: seq<Sent>
    ghost var delivered: seq<seq<uint8>>

    ghost function State(): Node
      reads this
    {
      Node(status, isMaster, retryCount, connectCode, waitAck, heartbeatTime, heartbeatInterval,
           targetMac, rulingCode, lastBroadcastTime, lastConnectRstTime, peers, outbox, delivered)
    }

    /** Serial_Espnow_init after the static initialisers. */
    constructor (config: Config, random: uint8)
      ensures cfg == config
      ensures State() == Init(config, random)
    {
      cfg := config;
      status, isMaster, retryCount, connectCode, waitAck := Broadcast, false, 0, 0, false;
      heartbeatTime, heartbeatInterval := 0, 0;
      targetMac, rulingCode := InitialTarget, 0;
      lastBroadcastTime, lastConnectRstTime := 0, 0;
      peers, outbox, delivered := map[BroadcastMac := false], [], [];
      new;
      rulingCode := random;
      SendBroadcastPacket();
    }

    /** send_broadcast_packet: a fresh BROADCAST frame with the current ruling code. */
    method SendBroadcastPacket()
      modifies this
      ensures State() == SendTo(old(State()), BroadcastMac, BroadcastFrame(cfg.crc, rulingCode))
    {
      var p := Frame(Version, PacketTypeCode(BroadcastPkt), 1, 0, [rulingCode]);
      p := p.(crc := cfg.crc(CrcInit, Serialize(p)));
      outbox := outbox + [Sent(BroadcastMac, p)];
    }

    /** send_connect_packet(step, code) */
    method SendConnectPacket(step: uint8, code: uint8)
      requires step == ConRst || step == ConAck || step == ConEst
      modifies this
      ensures State() == SendConnect(cfg, old(State()), step, code)
    {
      var p := Frame(Version, PacketTypeCode(ConnectPkt), 2, 0, [step, code]);
      p := p.(crc := cfg.crc(CrcInit, Serialize(p)));
      outbox := outbox + [Sent(targetMac, p)];
    }

    /** send_heartbeat_packet(kind): an empty DATA frame for kind 1, an empty DATA_ACK frame otherwise. */
    method SendHeartbeatPacket(kind: int)
      modifies this
      ensures kind == 1 ==> State() == SendTo(old(State()), targetMac, HeartbeatFrame(cfg.crc))
      ensures kind != 1 ==> State() == SendTo(old(State()), targetMac, DataAckFrame(cfg.crc))
    {
      var ptype := if kind == 1 then PacketTypeCode(DataPkt) else PacketTypeCode(DataAckPkt);
      var p := Frame(Version, ptype, 0, 0, []);
      p := p.(crc := cfg.crc(CrcInit, Serialize(p)));
      outbox := outbox + [Sent(targetMac, p)];
    }

    /** send_ack_packet: an empty DATA_ACK frame. */
    method SendAckPacket()
      modifies this
      ensures State() == SendTo(old(State()), targetMac, DataAckFrame(cfg.crc))
    {
      var p := Frame(Version, PacketTypeCode(DataAckPkt), 0, 0, []);
      p := p.(crc := cfg.crc(CrcInit, Serialize(p)));
      outbox := outbox + [Sent(targetMac, p)];
    }

    /** wireless_add_peer */
    method AddPeer(mac: Mac, encrypt: bool)
      modifies this
      ensures var u := Platform.AddPeer(old(peers), old(targetMac), mac, encrypt);
              State() == old(State()).(peers := u.peers, targetMac := u.target)
    {
      if mac !in peers {
        peers := peers[mac := encrypt];
        targetMac := mac;
      }
    }

    /** Lines 344-350: three attempts made. */
    method GiveUpIfSpent()
      modifies this
      ensures State() == GiveUp(old(State()))
    {
      if retryCount >= RetryLimit {
        status := Broadcast;
        retryCount := 0;
        isMaster := false;
      }
    }

    /** Lines 351-354: one connect attempt. */
    method SendRstAttempt(now: uint32, random: uint8)
      modifies this
      ensures State() == SendRst(cfg, old(State()), now, random)
    {
      connectCode := random;
      SendConnectPacket(ConRst, connectCode);
      lastConnectRstTime := now;
      retryCount := retryCount + 1;
    }

    /** Lines 309-355: what the current status does before the callback queue is read. */
    method RunStatus(now: uint32, random: uint8) returns (skipped: bool)
      modifies this
      ensures Phase(State(), skipped) == Housekeeping(cfg, old(State()), now, random)
    {
      skipped := false;
      if status == Connected {
        if heartbeatTime > cfg.heartbeatInterval + 3000 {
          status := Disconnected;
        }
      } else if status == Disconnected {
        retryCount := 0;
        isMaster := false;
        status := Broadcast;
      } else if status == Broadcast {
        if TicksSince(now, lastBroadcastTime) > cfg.broadcastTicks {
          SendBroadcastPacket();
          lastBroadcastTime := now;
        }
      } else if status == ConnectRst {
        if TicksSince(now, lastConnectRstTime) < cfg.connectTicks {
          skipped := true;
          return;
        }
        GiveUpIfSpent();
        SendRstAttempt(now, random);
      }
    }

    /** Lines 402-407: answer an RST. */
    method AnswerRstFrame(code: uint8)
      modifies this
      ensures State() == AnswerRst(cfg, old(State()), code)
    {
      connectCode := code;
      SendConnectPacket(ConAck, ((connectCode as int + 1) % 256) as uint8);
    }

    /** Drop the provisional peer, register the sender with its link key and enter CONNECTED. */
    method EstablishLink(mac: Mac)
      modifies this
      ensures State() == Establish(old(State()), mac)
    {
      peers := peers - {targetMac};
      AddPeer(mac, true);
      heartbeatTime := 0;
      status := Connected;
    }

    /** Lines 408-431: check an ACK. */
    method AcceptAckFrame(mac: Mac, code: uint8)
      modifies this
      ensures State() == AcceptAck(cfg, old(State()), mac, code)
    {
      if code == connectCode + 1 {
        SendConnectPacket(ConEst, ((code as int + 1) % 256) as uint8);
        isMaster := true;
        EstablishLink(mac);
      } else {
        status := Broadcast;
      }
    }

    /** Lines 432-452: check an EST. */
    method AcceptEstFrame(mac: Mac, code: uint8)
      modifies this
      ensures State() == AcceptEst(old(State()), mac, code)
    {
      if code == connectCode + 2 {
        isMaster := false;
        EstablishLink(mac);
      } else {
        status := Broadcast;
      }
    }

    /** Lines 395-452: a CONNECT frame. */
    method HandleConnect(mac: Mac, f: Frame)
      requires |f.payload| >= 2
      modifies this
      ensures State() == OnConnect(cfg, old(State()), mac, f)
    {
      if status != Broadcast {
        return;
      }
      AddPeer(mac, false);
      if f.payload[0] == ConRst {
        AnswerRstFrame(f.payload[1]);
      } else if f.payload[0] == ConAck {
        AcceptAckFrame(mac, f.payload[1]);
      } else if f.payload[0] == ConEst {
        AcceptEstFrame(mac, f.payload[1]);
      }
    }

    /** Lines 380-393: a BROADCAST frame. */
    method HandleBroadcast(mac: Mac, f: Frame)
      requires |f.payload| >= 1
      modifies this
      ensures State() == OnBroadcast(old(State()), mac, f)
    {
      if status != Broadcast {
        return;
      }
      if rulingCode > f.payload[0] {
        isMaster := true;
        AddPeer(mac, false);
        status := ConnectRst;
      }
    }

    /** Lines 455-482: a DATA frame. */
    method HandleData(f: Frame, serialOk: bool)
      requires f.length <= |f.payload|
      modifies this
      ensures State() == OnData(cfg, old(State()), f, serialOk)
    {
      if status != Connected {
        return;
      }
      heartbeatTime := 0;
      if f.length == 0 {
        SendHeartbeatPacket(2);
        return;
      }
      var data := f.payload[..f.length];
      SendAckPacket();
      if serialOk {
        delivered := delivered + [data];
      }
    }

    /** Lines 371-496: the filter, then the switch on the type of a checked frame. */
    method HandlePacket(mac: Mac, f: Frame, serialOk: bool)
      requires FrameReadable(f)
      modifies this
      ensures State() == HandleFrame(cfg, old(State()), mac, f, serialOk)
    {
      if status != Connected && !(f.ptype == PacketTypeCode(BroadcastPkt) || f.ptype == PacketTypeCode(ConnectPkt)) {
        return;
      }
      if f.ptype == PacketTypeCode(BroadcastPkt) {
        HandleBroadcast(mac, f);
      } else if f.ptype == PacketTypeCode(ConnectPkt) {
        HandleConnect(mac, f);
      } else if f.ptype == PacketTypeCode(DataPkt) {
        HandleData(f, serialOk);
      } else if f.ptype == PacketTypeCode(DataAckPkt) {
        if status == Connected {
          waitAck := false;
          heartbeatTime := 0;
        }
      }
    }

    /** One iteration of the wireless_con_manager_task loop. */
    method Step(input: Inputs) returns (eventTaken: bool)
      requires input.inbound.Some? ==> Readable(cfg.crc, input.inbound.value.bytes)
      modifies this
      ensures Outcome(State(), eventTaken) == Iteration(cfg, old(State()), input)
    {
      var skipped := RunStatus(input.now, input.random);
      eventTaken := false;
      if skipped {
        return;
      }
      if input.inbound.Nothing? {
        return;
      }
      eventTaken := true;
      var ev := input.inbound.value;
      var packet := new uint8[|ev.bytes|](i requires 0 <= i < |ev.bytes| => ev.bytes[i]);
      assert packet[..] == ev.bytes;
      var ok := PacketCheck(cfg.crc, packet);
      if !ok {
        return;
      }
      ReadableFrame(cfg.crc, packet[..]);
      HandlePacket(ev.mac, ParseFrame(packet[..]), input.serialOk);
    }

    /** wireless_heartbeat_handler */
    method HeartbeatHandler()
      modifies this
      ensures State() == Tick(cfg, old(State()))
    {
      heartbeatTime := AddTen(heartbeatTime);
      heartbeatInterval := AddTen(heartbeatInterval);
      if isMaster && status == Connected && heartbeatTime > cfg.heartbeatInterval / 2 {
        if heartbeatInterval > cfg.heartbeatInterval / 2 {
          heartbeatInterval := 0;
          SendHeartbeatPacket(1);
        }
      }
    }
  }
}
