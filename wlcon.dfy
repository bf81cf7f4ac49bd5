/*
 * The connection manager of wlcon.c: one iteration of the manager loop,
 * the heartbeat timer callback and the connected query.
 *
 * The transition functions over the Node record say what one iteration
 * does; the class WlconNode holds the same state in fields (the effects on
 * the radio, the peer table and the serial side as ghost fields) and its
 * methods, written the way the C code updates its globals and locals, are
 * proved to perform exactly those transitions.
 */
module Wlcon {
  import opened Wire
  import opened Codec
  import opened Platform

  /** Everything one iteration of wlcon_con_manager reads or writes. */
  datatype Node = Node(
    status: Status,
    isMaster: bool,
    retryCount: nat,
    connectCode: uint8,
    waitAck: bool,
    heartbeatTime: uint32,
    heartbeatInterval: uint32,
    targetMac: Mac,
    rulingCode: uint8,
    lastBroadcastTime: uint32,
    lastConnectRstTime: uint32,
    broadcastPacket: Frame,     // the static broadcast frame, built once
    peers: Peers,               // the ESP-NOW peer table
    outbox: seq<Sent>,          // every esp_now_send call, in order
    delivered: seq<seq<uint8>>, // payloads queued for the serial side
    released: seq<SendItem>)    // send-queue buffers the manager freed

  /**
   * One iteration's inputs: the tick count, the next esp_random byte, the
   * event at the head of the callback queue, the item at the head of the
   * send queue, whether malloc of the data frame succeeds, whether
   * esp_now_send accepts it, and whether a received payload gets onto
   * the serial queue (wlcon_recv_queue exists and xQueueSend succeeds).
   */
  datatype Inputs = Inputs(
    now: uint32,
    random: uint8,
    inbound: Option<Inbound>,
    queued: Option<SendItem>,
    allocOk: bool,
    sendOk: bool,
    serialOk: bool)

  /** The new state, and whether the send-queue item and the callback event were taken off their queues. */
  datatype Outcome = Outcome(node: Node, itemTaken: bool, eventTaken: bool)

  /** The first half of an iteration: the new state, whether a send-queue item was taken, whether the iteration stops there (`continue`). */
  datatype Phase = Phase(node: Node, itemTaken: bool, stalled: bool)

  /**
   * wlcon_init with the manager's locals: the packets are built while
   * master_ruling_code still holds 0, then the broadcast address is
   * registered, then the ruling code is drawn.
   */
  function Init(cfg: Config, random: uint8): (s: Node)
    ensures s.status == Broadcast && !s.isMaster && !s.waitAck
    ensures s.broadcastPacket == BroadcastFrame(cfg.crc, 0) && s.rulingCode == random
    ensures s.peers == map[BroadcastMac := false] && s.outbox == []
  {
    Node(Broadcast, false, 0, 0, false, 0, 0, InitialTarget, random, 0, 0,
         BroadcastFrame(cfg.crc, 0), map[BroadcastMac := false], [], [], [])
  }

  /** send_connect_packet: the CONNECT frame for `step`, carrying `code` and sealed, goes to target_mac. */
  function SendConnect(cfg: Config, s: Node, step: uint8, code: uint8): Node
    requires step == ConRst || step == ConAck || step == ConEst
  {
    s.(outbox := s.outbox + [Sent(s.targetMac, ConnectFrame(cfg.crc, step, code))])
  }

  // ---------------------------------------------------------------------
  // First half of the loop body: what the current status does

  /** Heartbeat timeout: more than CONFIG_HEARTBEAT_INTERVAL + 1000 ms without a liveness frame. */
  function CheckTimeout(cfg: Config, s: Node): Node {
    if s.heartbeatTime > cfg.heartbeatInterval + 1000 then s.(status := Disconnected) else s
  }

  /**
   * The stop-and-wait sender: a queued item is taken only while no frame
   * awaits its acknowledgement, and taking it sets wait_ack. A failed
   * malloc leaves wait_ack set and ends the iteration; a failed send
   * clears it again. The buffer is freed only when its flag's low bit is set.
   */
  function SendQueued(cfg: Config, s: Node, queued: Option<SendItem>, allocOk: bool, sendOk: bool): Phase {
    if !s.waitAck && queued.Some? then
      var item := queued.value;
      if !allocOk then Phase(s.(waitAck := true), true, true)
      else
        var sent := s.(waitAck := sendOk, outbox := s.outbox + [Sent(s.targetMac, DataFrame(cfg.crc, item.buf))]);
        Phase(sent.(released := if item.flag % 2 == 1 then s.released + [item] else s.released), true, false)
    else Phase(s, false, false)
  }

  /** The DISCONNECTED clean-up: drop the peer and forget its address unless it is the broadcast address, then back to BROADCAST. */
  function Disconnect(s: Node): Node {
    var t := if !IsBroadcastAddr(s.targetMac)
             then s.(peers := s.peers - {s.targetMac}, targetMac := BroadcastMac)
             else s;
    t.(retryCount := 0, isMaster := false, status := Broadcast)
  }

  /** BROADCAST: send the static broadcast frame once the broadcast interval has passed. */
  function KeepBroadcasting(cfg: Config, s: Node, now: uint32): Node {
    if TicksSince(now, s.lastBroadcastTime) > cfg.broadcastTicks then
      s.(outbox := s.outbox + [Sent(BroadcastMac, s.broadcastPacket)], lastBroadcastTime := now)
    else s
  }

  /** CONNECT_RST with the retries spent: back to BROADCAST, not master, count 0. */
  function GiveUp(cfg: Config, s: Node): Node {
    if s.retryCount >= cfg.connectRetry then s.(status := Broadcast, retryCount := 0, isMaster := false)
    else s
  }

  /** One connect attempt: draw a fresh code, send it in an RST, count the attempt. */
  function SendRst(cfg: Config, s: Node, now: uint32, random: uint8): Node {
    var u := SendConnect(cfg, s.(connectCode := random), ConRst, random);
    u.(retryCount := s.retryCount + 1, lastConnectRstTime := now)
  }

  /**
   * CONNECT_RST: once the connect interval has passed, give up if the
   * retries are spent, and in either case make a connect attempt.
   */
  function RetryConnect(cfg: Config, s: Node, now: uint32, random: uint8): Node {
    if TicksSince(now, s.lastConnectRstTime) >= cfg.connectTicks then SendRst(cfg, GiveUp(cfg, s), now, random)
    else s
  }

  function Housekeeping(cfg: Config, s: Node, input: Inputs): Phase {
    match s.status
    case Connected => SendQueued(cfg, CheckTimeout(cfg, s), input.queued, input.allocOk, input.sendOk)
    case Disconnected => Phase(Disconnect(s), false, false)
    case Broadcast => Phase(KeepBroadcasting(cfg, s, input.now), false, false)
    case ConnectRst => Phase(RetryConnect(cfg, s, input.now, input.random), false, false)
    case StatusNone => Phase(s, false, false)
  }

  // ---------------------------------------------------------------------
  // Second half: the received frame

  /**
   * BROADCAST frame. Outside BROADCAST status it only matters when it comes
   * from target_mac: the peer has restarted discovery. In BROADCAST the node
   * whose ruling code is strictly greater becomes master and initiator.
   */
  function OnBroadcast(s: Node, mac: Mac, f: Frame): Node
    requires |f.payload| >= 1
  {
    if s.status != Broadcast then
      if mac == s.targetMac then s.(status := Disconnected) else s
    else if s.rulingCode > f.payload[0] then
      var u := AddPeer(s.peers, s.targetMac, mac, false);
      s.(isMaster := true, peers := u.peers, targetMac := u.target, status := ConnectRst)
    else s
  }

  /** Re-register the peer with its link key and enter CONNECTED with a fresh heartbeat count. */
  function Establish(s: Node, mac: Mac): Node {
    var u := AddPeer(s.peers - {s.targetMac}, s.targetMac, mac, true);
    s.(peers := u.peers, targetMac := u.target, heartbeatTime := 0, status := Connected)
  }

  /** CONNECT/RST: register the sender, adopt its code and answer with an ACK carrying the code plus one, truncated to 8 bits. */
  function AnswerRst(cfg: Config, s: Node, mac: Mac, code: uint8): Node {
    var u := AddPeer(s.peers, s.targetMac, mac, false);
    var t := s.(peers := u.peers, targetMac := u.target, connectCode := code);
    SendConnect(cfg, t, ConAck, ((code as int + 1) % 256) as uint8)
  }

  /**
   * CONNECT/ACK: the initiator accepts an ACK whose code is its own plus
   * one (compared in int), answers with an EST carrying that plus one and
   * becomes the connected master; any other ACK sends it back to BROADCAST.
   */
  function AcceptAck(cfg: Config, s: Node, mac: Mac, code: uint8): Node {
    if code == s.connectCode + 1 then
      Establish(SendConnect(cfg, s, ConEst, ((code as int + 1) % 256) as uint8).(isMaster := true), mac)
    else s.(status := Broadcast)
  }

  /** CONNECT/EST: the responder accepts an EST whose code is its own plus two and becomes the connected slave; otherwise back to BROADCAST. */
  function AcceptEst(s: Node, mac: Mac, code: uint8): Node {
    if code == s.connectCode + 2 then Establish(s.(isMaster := false), mac)
    else s.(status := Broadcast)
  }

  /** CONNECT frame, acted on in BROADCAST and CONNECT_RST only; an unknown step is ignored. */
  function OnConnect(cfg: Config, s: Node, mac: Mac, f: Frame): Node
    requires |f.payload| >= 2
  {
    if s.status != Broadcast && s.status != ConnectRst then s
    else if f.payload[0] == ConRst then AnswerRst(cfg, s, mac, f.payload[1])
    else if f.payload[0] == ConAck then AcceptAck(cfg, s, mac, f.payload[1])
    else if f.payload[0] == ConEst then AcceptEst(s, mac, f.payload[1])
    else s
  }

  /**
   * DATA frame, acted on in CONNECTED only: it is a liveness signal and is
   * acknowledged; a non-empty payload goes to the serial side when the
   * serial queue takes it (`serialOk`) and is dropped otherwise, the
   * DATA_ACK having gone out already.
   */
  function OnData(cfg: Config, s: Node, f: Frame, serialOk: bool): Node
    requires f.length <= |f.payload|
  {
    if s.status != Connected then s
    else
      var t := s.(heartbeatTime := 0, outbox := s.outbox + [Sent(s.targetMac, DataAckFrame(cfg.crc))]);
      if f.length == 0 || !serialOk then t
      else t.(delivered := s.delivered + [f.payload[..f.length]])
  }

  /** DATA_ACK frame, acted on in CONNECTED only: the outstanding frame is acknowledged and the peer is alive. */
  function OnDataAck(s: Node): Node {
    if s.status != Connected then s else s.(waitAck := false, heartbeatTime := 0)
  }

  /** The switch on the type of a frame that passed wireless_packet_check. */
  function HandleFrame(cfg: Config, s: Node, mac: Mac, f: Frame, serialOk: bool): Node
    requires FrameReadable(f)
  {
    match PacketTypeFromCode(f.ptype)
    case Some(BroadcastPkt) => OnBroadcast(s, mac, f)
    case Some(ConnectPkt) => OnConnect(cfg, s, mac, f)
    case Some(DataPkt) => OnData(cfg, s, f, serialOk)
    case Some(DataAckPkt) => OnDataAck(s)
    case Nothing => s
  }

  /** The callback event: a frame that fails wireless_packet_check is dropped without any effect. */
  function Receive(cfg: Config, s: Node, ev: Option<Inbound>, serialOk: bool): Node
    requires ev.Some? ==> Readable(cfg.crc, ev.value.bytes)
  {
    if ev.Nothing? || !PacketValid(cfg.crc, ev.value.bytes) then s
    else HandleFrame(cfg, s, ev.value.mac, ParseFrame(ev.value.bytes), serialOk)
  }

  /** One iteration of the wlcon_con_manager loop. */
  function Iteration(cfg: Config, s: Node, input: Inputs): Outcome
    requires input.inbound.Some? ==> Readable(cfg.crc, input.inbound.value.bytes)
  {
    var h := Housekeeping(cfg, s, input);
    if h.stalled then Outcome(h.node, h.itemTaken, false)
    else Outcome(Receive(cfg, h.node, input.inbound, input.serialOk), h.itemTaken, input.inbound.Some?)
  }

  /** wlcon_heartbeat_handler, run every 10 ms from the timer: count, and let a connected master send a heartbeat. */
  function Tick(cfg: Config, s: Node): Node {
    var t := s.(heartbeatTime := AddTen(s.heartbeatTime), heartbeatInterval := AddTen(s.heartbeatInterval));
    if t.isMaster && t.status == Connected && t.heartbeatTime > cfg.heartbeatInterval
       && t.heartbeatInterval > cfg.heartbeatInterval
    then t.(heartbeatInterval := 0, outbox := t.outbox + [Sent(t.targetMac, HeartbeatFrame(cfg.crc))])
    else t
  }

  // ---------------------------------------------------------------------
  // The node as the C code holds it

  class WlconNode {
    const cfg: Config
    var status: Status
    var isMaster: bool
    var retryCount: nat
    var connectCode: uint8
    var waitAck: bool
    var heartbeatTime: uint32
    var heartbeatInterval: uint32
    var targetMac: Mac
    var rulingCode: uint8
    var lastBroadcastTime: uint32
    var lastConnectRstTime: uint32
    var broadcastPacket: Frame
    var peers: Peers            // the driver's peer table, queried by esp_now_is_peer_exist
    ghost var outbox: seq<Sent>
    ghost var delivered: seq<seq<uint8>>
    ghost var released: seq<SendItem>

    ghost function State(): Node
      reads this
    {
      Node(status, isMaster, retryCount, connectCode, waitAck, heartbeatTime, heartbeatInterval,
           targetMac, rulingCode, lastBroadcastTime, lastConnectRstTime,
           broadcastPacket, peers, outbox, delivered, released)
    }

    /** wlcon_init followed by the manager's local initialisation. */
    constructor (config: Config, random: uint8)
      ensures cfg == config
      ensures State() == Init(config, random)
    {
      cfg := config;
      status, isMaster, retryCount, connectCode, waitAck := Broadcast, false, 0, 0, false;
      heartbeatTime, heartbeatInterval := 0, 0;
      targetMac, rulingCode := InitialTarget, 0;
      lastBroadcastTime, lastConnectRstTime := 0, 0;
      peers, outbox, delivered, released := map[], [], [], [];
      new;
      CreatePackets();
      peers := peers[BroadcastMac := false];
      rulingCode := random;
    }

    /** wlcon_create_packet: the broadcast frame carries the ruling code as it is at this point. */
    method CreatePackets()
      modifies this
      ensures broadcastPacket == BroadcastFrame(cfg.crc, old(rulingCode))
      ensures State() == old(State()).(broadcastPacket := broadcastPacket)
    {
      var b := Frame(Version, PacketTypeCode(BroadcastPkt), 1, 0, [rulingCode]);
      broadcastPacket := b.(crc := cfg.crc(CrcInit, Serialize(b)));
    }

    /** wlcon_is_connected */
    function IsConnected(): (b: bool)
      reads this
      ensures b <==> State().status == Connected
    {
      status == Connected
    }

    /** wireless_add_peer */
    method AddPeer(mac: Mac, encrypt: bool)
      modifies this
      ensures var u := Platform.AddPeer(old(peers), old(targetMac), mac, encrypt);
              State() == old(State()).(peers := u.peers, targetMac := u.target)
    {
      if mac !in peers {
        peers := peers[mac := encrypt];
        targetMac := mac;
      }
    }

    /** send_connect_packet(step, code): fill in the code, reseal, send to target_mac. */
    method SendConnectPacket(step: uint8, code: uint8)
      requires step == ConRst || step == ConAck || step == ConEst
      modifies this
      ensures State() == SendConnect(cfg, old(State()), step, code)
    {
      var p := Frame(Version, PacketTypeCode(ConnectPkt), 2, 0, [step, code]);
      p := p.(crc := cfg.crc(CrcInit, Serialize(p)));
      outbox := outbox + [Sent(targetMac, p)];
    }

    /** Lines 395-421: hand the next queued buffer to the radio unless a frame is awaiting its ACK. */
    method SendQueuedItem(queued: Option<SendItem>, allocOk: bool, sendOk: bool) returns (taken: bool, stalled: bool)
      modifies this
      ensures Phase(State(), taken, stalled) == SendQueued(cfg, old(State()), queued, allocOk, sendOk)
    {
      taken, stalled := false, false;
      if !waitAck && queued.Some? {
        var item := queued.value;
        taken := true;
        waitAck := true;
        if !allocOk {
          stalled := true;
          return;
        }
        var wp := Frame(Version, PacketTypeCode(DataPkt), ItemLength(item), 0, item.buf);
        wp := wp.(crc := cfg.crc(CrcInit, Serialize(wp)));
        assert wp == DataFrame(cfg.crc, item.buf);
        outbox := outbox + [Sent(targetMac, wp)];
        if !sendOk {
          waitAck := false;
        }
        if item.flag % 2 == 1 {
          released := released + [item];
        }
      }
    }

    /** Lines 423-436: the DISCONNECTED clean-up. */
    method CleanUp()
      modifies this
      ensures State() == Disconnect(old(State()))
    {
      if !IsBroadcastAddr(targetMac) {
        peers := peers - {targetMac};
        targetMac := BroadcastMac;
      }
      retryCount := 0;
      isMaster := false;
      status := Broadcast;
    }

    /** Lines 451-454: the retries are spent. */
    method GiveUpIfSpent()
      modifies this
      ensures State() == GiveUp(cfg, old(State()))
    {
      if retryCount >= cfg.connectRetry {
        status := Broadcast;
        retryCount := 0;
        isMaster := false;
      }
    }

    /** Lines 456-460: one connect attempt. */
    method SendRstAttempt(now: uint32, random: uint8)
      modifies this
      ensures State() == SendRst(cfg, old(State()), now, random)
    {
      connectCode := random;
      SendConnectPacket(ConRst, connectCode);
      retryCount := retryCount + 1;
      lastConnectRstTime := now;
    }

    /** Lines 446-462: the connect retry of CONNECT_RST. */
    method RetryConnectRst(now: uint32, random: uint8)
      modifies this
      ensures State() == RetryConnect(cfg, old(State()), now, random)
    {
      if TicksSince(now, lastConnectRstTime) >= cfg.connectTicks {
        GiveUpIfSpent();
        SendRstAttempt(now, random);
      }
    }

    /** Lines 384-462: what the current status does before the callback queue is read. */
    method RunStatus(input: Inputs) returns (taken: bool, stalled: bool)
      modifies this
      ensures Phase(State(), taken, stalled) == Housekeeping(cfg, old(State()), input)
    {
      taken, stalled := false, false;
      if status == Connected {
        if heartbeatTime > cfg.heartbeatInterval + 1000 {
          status := Disconnected;
        }
        taken, stalled := SendQueuedItem(input.queued, input.allocOk, input.sendOk);
      } else if status == Disconnected {
        CleanUp();
      } else if status == Broadcast {
        if TicksSince(input.now, lastBroadcastTime) > cfg.broadcastTicks {
          outbox := outbox + [Sent(BroadcastMac, broadcastPacket)];
          lastBroadcastTime := input.now;
        }
      } else if status == ConnectRst {
        RetryConnectRst(input.now, input.random);
      }
    }

    /** Lines 503-511: answer an RST. */
    method AnswerRstFrame(mac: Mac, code: uint8)
      modifies this
      ensures State() == AnswerRst(cfg, old(State()), mac, code)
    {
      AddPeer(mac, false);
      connectCode := code;
      ghost var t := State();
      SendConnectPacket(ConAck, ((connectCode as int + 1) % 256) as uint8);
      assert State() == SendConnect(cfg, t, ConAck, ((code as int + 1) % 256) as uint8);
    }

    /** Drop the provisional peer, register the sender with its link key and enter CONNECTED. */
    method EstablishLink(mac: Mac)
      modifies this
      ensures State() == Establish(old(State()), mac)
    {
      peers := peers - {targetMac};
      AddPeer(mac, true);
      heartbeatTime := 0;
      status := Connected;
    }

    /** Lines 512-532: check an ACK. */
    method AcceptAckFrame(mac: Mac, code: uint8)
      modifies this
      ensures State() == AcceptAck(cfg, old(State()), mac, code)
    {
      if code == connectCode + 1 {
        SendConnectPacket(ConEst, ((code as int + 1) % 256) as uint8);
        isMaster := true;
        EstablishLink(mac);
      } else {
        status := Broadcast;
      }
    }

    /** Lines 533-550: check an EST. */
    method AcceptEstFrame(mac: Mac, code: uint8)
      modifies this
      ensures State() == AcceptEst(old(State()), mac, code)
    {
      if code == connectCode + 2 {
        isMaster := false;
        EstablishLink(mac);
      } else {
        status := Broadcast;
      }
    }

    /** Lines 500-553: a CONNECT frame. */
    method HandleConnect(mac: Mac, f: Frame)
      requires |f.payload| >= 2
      modifies this
      ensures State() == OnConnect(cfg, old(State()), mac, f)
    {
      if status != Broadcast && status != ConnectRst {
        return;
      }
      if f.payload[0] == ConRst {
        AnswerRstFrame(mac, f.payload[1]);
      } else if f.payload[0] == ConAck {
        AcceptAckFrame(mac, f.payload[1]);
      } else if f.payload[0] == ConEst {
        AcceptEstFrame(mac, f.payload[1]);
      }
    }

    /** Lines 481-498: a BROADCAST frame. */
    method HandleBroadcast(mac: Mac, f: Frame)
      requires |f.payload| >= 1
      modifies this
      ensures State() == OnBroadcast(old(State()), mac, f)
    {
      if status != Broadcast {
        if mac == targetMac {
          status := Disconnected;
        }
        return;
      }
      if rulingCode > f.payload[0] {
        isMaster := true;
        AddPeer(mac, false);
        status := ConnectRst;
      }
    }

    /** Lines 555-582: a DATA frame. */
    method HandleData(f: Frame, serialOk: bool)
      requires f.length <= |f.payload|
      modifies this
      ensures State() == OnData(cfg, old(State()), f, serialOk)
    {
      if status != Connected {
        return;
      }
      heartbeatTime := 0;
      outbox := outbox + [Sent(targetMac, DataAckFrame(cfg.crc))];
      if f.length != 0 && serialOk {
        delivered := delivered + [f.payload[..f.length]];
      }
    }

    /** Lines 478-595: the switch on the type of a checked frame. */
    method HandlePacket(mac: Mac, f: Frame, serialOk: bool)
      requires FrameReadable(f)
      modifies this
      ensures State() == HandleFrame(cfg, old(State()), mac, f, serialOk)
    {
      if f.ptype == PacketTypeCode(BroadcastPkt) {
        HandleBroadcast(mac, f);
      } else if f.ptype == PacketTypeCode(ConnectPkt) {
        HandleConnect(mac, f);
      } else if f.ptype == PacketTypeCode(DataPkt) {
        HandleData(f, serialOk);
      } else if f.ptype == PacketTypeCode(DataAckPkt) {
        if status == Connected {
          waitAck := false;
          heartbeatTime := 0;
        }
      }
    }

    /** One iteration of the wlcon_con_manager loop. */
    method Step(input: Inputs) returns (itemTaken: bool, eventTaken: bool)
      requires input.inbound.Some? ==> Readable(cfg.crc, input.inbound.value.bytes)
      modifies this
      ensures Outcome(State(), itemTaken, eventTaken) == Iteration(cfg, old(State()), input)
    {
      var stalled;
      itemTaken, stalled := RunStatus(input);
      eventTaken := false;
      if stalled {
        return;
      }
      if input.inbound.Nothing? {
        return;
      }
      eventTaken := true;
      var ev := input.inbound.value;
      var packet := new uint8[|ev.bytes|](i requires 0 <= i < |ev.bytes| => ev.bytes[i]);
      assert packet[..] == ev.bytes;
      var ok := PacketCheck(cfg.crc, packet);
      if !ok {
        return;
      }
      ReadableFrame(cfg.crc, packet[..]);
      HandlePacket(ev.mac, ParseFrame(packet[..]), input.serialOk);
    }

    /** wlcon_heartbeat_handler */
    method HeartbeatHandler()
      modifies this
      ensures State() == Tick(cfg, old(State()))
    {
      heartbeatTime := AddTen(heartbeatTime);
      heartbeatInterval := AddTen(heartbeatInterval);
      if isMaster && status == Connected && heartbeatTime > cfg.heartbeatInterval {
        if heartbeatInterval > cfg.heartbeatInterval {
          heartbeatInterval := 0;
          outbox := outbox + [Sent(targetMac, HeartbeatFrame(cfg.crc))];
        }
      }
    }
  }
}
