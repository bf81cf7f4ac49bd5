/*
 * What the Serial_Espnow.c connection manager guarantees, and how its
 * gating differs from wlcon.c, stated over the transition functions of
 * module SerialEspnow.
 */
module EspnowProperties {
  import opened Wire
  import opened Codec
  import opened Platform
  import opened SerialEspnow

  // ---------------------------------------------------------------------
  // Every frame a node sends passes the receiver's wireless_packet_check

  /** `r` sent everything `s` had sent, and every frame it sent since was built by a packet builder. */
  predicate Extends(cfg: Config, s: Node, r: Node) {
    LogExtends(cfg.crc, s.outbox, r.outbox)
  }


  /** Sending one built frame. */
  lemma SendToExtends(cfg: Config, s: Node, dest: Mac, f: Frame)
    requires Built(cfg.crc, f)
    ensures Extends(cfg, s, SendTo(s, dest, f))
  {
    assert SendTo(s, dest, f).outbox[|s.outbox|..] == [Sent(dest, f)];
  }

  lemma HousekeepingExtends(cfg: Config, s: Node, now: uint32, random: uint8)
    ensures Extends(cfg, s, Housekeeping(cfg, s, now, random).node)
  {
    match s.status
    case Connected =>
    case Disconnected =>
    case Broadcast =>
      if TicksSince(now, s.lastBroadcastTime) > cfg.broadcastTicks {
        SendToExtends(cfg, s, BroadcastMac, BroadcastFrame(cfg.crc, s.rulingCode));
      }
    case ConnectRst =>
      if TicksSince(now, s.lastConnectRstTime) >= cfg.connectTicks {
        var g := GiveUp(s).(connectCode := random);
        SendToExtends(cfg, g, g.targetMac, ConnectFrame(cfg.crc, ConRst, random));
      }
    case StatusNone =>
  }

  lemma OnConnectExtends(cfg: Config, s: Node, mac: Mac, f: Frame)
    requires |f.payload| >= 2
    ensures Extends(cfg, s, OnConnect(cfg, s, mac, f))
  {
    if s.status == Broadcast {
      var u := AddPeer(s.peers, s.targetMac, mac, false);
      var t := s.(peers := u.peers, targetMac := u.target);
      if f.payload[0] == ConRst {
        var c := f.payload[1];
        SendToExtends(cfg, t.(connectCode := c), t.targetMac, ConnectFrame(cfg.crc, ConAck, ((c as int + 1) % 256) as uint8));
      } else if f.payload[0] == ConAck && f.payload[1] == t.connectCode + 1 {
        SendToExtends(cfg, t, t.targetMac, ConnectFrame(cfg.crc, ConEst, ((f.payload[1] as int + 1) % 256) as uint8));
      }
    }
  }

  lemma HandleFrameExtends(cfg: Config, s: Node, mac: Mac, f: Frame, serialOk: bool)
    requires FrameReadable(f)
    ensures Extends(cfg, s, HandleFrame(cfg, s, mac, f, serialOk))
  {
    if !Discarded(s, f) {
      match PacketTypeFromCode(f.ptype)
      case Some(BroadcastPkt) =>
      case Some(ConnectPkt) => OnConnectExtends(cfg, s, mac, f);
      case Some(DataPkt) =>
        if s.status == Connected {
          SendToExtends(cfg, s.(heartbeatTime := 0), s.targetMac, DataAckFrame(cfg.crc));
        }
      case Some(DataAckPkt) =>
      case Nothing =>
    }
  }


  /**
   * Every frame the node hands to the radio, from the start-up broadcast
   * on, in any iteration of the manager loop and on any heartbeat tick,
   * was built by a packet builder and so passes wireless_packet_check on
   * the receiving node; what was sent before stays sent.
   */
  lemma {:induction false} SentFramesBuilt(cfg: Config, s: Node, input: Inputs)
    requires AllBuilt(cfg.crc, s.outbox)
    requires input.inbound.Some? ==> Readable(cfg.crc, input.inbound.value.bytes)
    ensures var r := Iteration(cfg, s, input).node; AllBuilt(cfg.crc, r.outbox) && s.outbox <= r.outbox
    ensures var r := Tick(cfg, s); AllBuilt(cfg.crc, r.outbox) && s.outbox <= r.outbox
  {
    var h := Housekeeping(cfg, s, input.now, input.random);
    HousekeepingExtends(cfg, s, input.now, input.random);
    if !h.skipped && input.inbound.Some? && PacketValid(cfg.crc, input.inbound.value.bytes) {
      ReadableFrame(cfg.crc, input.inbound.value.bytes);
      HandleFrameExtends(cfg, h.node, input.inbound.value.mac, ParseFrame(input.inbound.value.bytes), input.serialOk);
      LogExtendsTrans(cfg.crc, s.outbox, h.node.outbox, Iteration(cfg, s, input).node.outbox);
    }
    AllBuiltExtends(cfg.crc, s.outbox, Iteration(cfg, s, input).node.outbox);
    var t := Tick(cfg, s);
    if t.outbox != s.outbox {
      var u := s.(heartbeatTime := AddTen(s.heartbeatTime), heartbeatInterval := 0);
      SendToExtends(cfg, u, u.targetMac, HeartbeatFrame(cfg.crc));
    }
    AllBuiltExtends(cfg.crc, s.outbox, t.outbox);
  }

  /** The start-up state has sent one built frame: the broadcast of its ruling code. */
  lemma InitBuilt(cfg: Config, random: uint8)
    ensures AllBuilt(cfg.crc, Init(cfg, random).outbox)
  {
    assert Built(cfg.crc, Init(cfg, random).outbox[0].frame);
  }

  // ---------------------------------------------------------------------
  // Receiving a built frame

  lemma ReceiveBuilt(cfg: Config, s: Node, mac: Mac, f: Frame, serialOk: bool)
    requires Built(cfg.crc, f)
    ensures FrameReadable(f)
    ensures Receive(cfg, s, Arrives(cfg.crc, mac, f), serialOk) == HandleFrame(cfg, s, mac, f, serialOk)
  {
    BuiltFrameReadable(cfg.crc, f);
  }

  /**
   * The filter before the switch: while not connected a DATA frame
   * (heartbeats included) and a DATA_ACK frame are dropped with no effect.
   */
  lemma {:induction false} UnconnectedFilter(cfg: Config, s: Node, mac: Mac, buf: seq<uint8>, serialOk: bool)
    requires s.status != Connected && |buf| < 0x1_0000
    ensures Receive(cfg, s, Arrives(cfg.crc, mac, DataFrame(cfg.crc, buf)), serialOk) == s
    ensures Receive(cfg, s, Arrives(cfg.crc, mac, DataAckFrame(cfg.crc)), serialOk) == s
  {
    ReceiveBuilt(cfg, s, mac, DataFrame(cfg.crc, buf), serialOk);
    ReceiveBuilt(cfg, s, mac, DataAckFrame(cfg.crc), serialOk);
  }

  /** A frame whose type the switch does not know changes nothing in any status. */
  lemma UnknownTypeIgnored(cfg: Config, s: Node, mac: Mac, f: Frame, serialOk: bool)
    requires FrameReadable(f) && f.ptype >= 4
    ensures HandleFrame(cfg, s, mac, f, serialOk) == s
  {
  }

  // ---------------------------------------------------------------------
  // Election

  /**
   * BROADCAST frames count only in BROADCAST status, where the node whose
   * ruling code is strictly greater becomes master, registers the sender
   * unencrypted and starts connecting. In every other status a BROADCAST,
   * even from the target, is ignored: there is no peer-restart detection.
   */
  lemma {:induction false} BroadcastHeard(cfg: Config, s: Node, mac: Mac, code: uint8, serialOk: bool)
    ensures var r := Receive(cfg, s, Arrives(cfg.crc, mac, BroadcastFrame(cfg.crc, code)), serialOk);
      (s.status != Broadcast ==> r == s)
      && (s.status == Broadcast ==>
            (r.status == ConnectRst <==> s.rulingCode > code)
            && (s.rulingCode > code ==> r.isMaster && mac in r.peers
                                        && (mac !in s.peers ==> r.targetMac == mac && !r.peers[mac]))
            && (s.rulingCode <= code ==> r == s))
  {
    ReceiveBuilt(cfg, s, mac, BroadcastFrame(cfg.crc, code), serialOk);
  }

  /**
   * Two freshly started nodes that hear each other's start-up broadcast
   * elect exactly one master when their ruling codes differ, the greater
   * code winning, and none when they are equal.
   */
  lemma {:induction false} FreshNodesElectOne(cfg: Config, ra: uint8, rb: uint8, macA: Mac, macB: Mac, serialOk: bool)
    ensures var a := Init(cfg, ra);
      var b := Init(cfg, rb);
      var a1 := Receive(cfg, a, Arrives(cfg.crc, macB, b.outbox[0].frame), serialOk);
      var b1 := Receive(cfg, b, Arrives(cfg.crc, macA, a.outbox[0].frame), serialOk);
      (a1.isMaster <==> ra > rb) && (b1.isMaster <==> rb > ra)
      && (ra != rb ==> a1.isMaster != b1.isMaster)
  {
    BroadcastHeard(cfg, Init(cfg, ra), macB, rb, serialOk);
    BroadcastHeard(cfg, Init(cfg, rb), macA, ra, serialOk);
  }

  // ---------------------------------------------------------------------
  // Connect retries and the handshake

  /** Before the connect interval has passed a CONNECT_RST iteration ends at once: nothing changes and the callback queue is not read. */
  lemma {:induction false} RetryPacing(cfg: Config, s: Node, input: Inputs)
    requires s.status == ConnectRst && TicksSince(input.now, s.lastConnectRstTime) < cfg.connectTicks
    requires input.inbound.Some? ==> Readable(cfg.crc, input.inbound.value.bytes)
    ensures Iteration(cfg, s, input) == Outcome(s, false)
  {
  }

  /** A connect attempt while fewer than three have been made: a fresh code goes out in an RST and the attempt is counted. */
  lemma {:induction false} RetryAttempt(cfg: Config, s: Node, now: uint32, random: uint8)
    requires s.status == ConnectRst && s.retryCount < RetryLimit
    requires TicksSince(now, s.lastConnectRstTime) >= cfg.connectTicks
    ensures var h := Housekeeping(cfg, s, now, random);
      !h.skipped && h.node.status == ConnectRst && h.node.retryCount == s.retryCount + 1
      && h.node.connectCode == random && h.node.outbox == s.outbox + [Sent(s.targetMac, RstFor(cfg, random))]
  {
  }

  /**
   * After three attempts the node gives up: it is back in BROADCAST and no
   * longer master, yet it still sends one more RST with a fresh code and
   * leaves retry_count at 1.
   */
  lemma {:induction false} RetriesExhausted(cfg: Config, s: Node, now: uint32, random: uint8)
    requires s.status == ConnectRst && s.retryCount >= RetryLimit
    requires TicksSince(now, s.lastConnectRstTime) >= cfg.connectTicks
    ensures var h := Housekeeping(cfg, s, now, random);
      !h.skipped && h.node.status == Broadcast && !h.node.isMaster && h.node.retryCount == 1
      && h.node.connectCode == random && h.node.outbox == s.outbox + [Sent(s.targetMac, RstFor(cfg, random))]
  {
  }

  /** retry_count never exceeds three, whatever an iteration receives. */
  lemma {:induction false} RetryBounded(cfg: Config, s: Node, input: Inputs)
    requires s.retryCount <= RetryLimit
    requires input.inbound.Some? ==> Readable(cfg.crc, input.inbound.value.bytes)
    ensures Iteration(cfg, s, input).node.retryCount <= RetryLimit
    ensures Tick(cfg, s).retryCount <= RetryLimit
  {
    var h := Housekeeping(cfg, s, input.now, input.random);
    assert h.node.retryCount <= RetryLimit;
    if !h.skipped && input.inbound.Some? && PacketValid(cfg.crc, input.inbound.value.bytes) {
      ReadableFrame(cfg.crc, input.inbound.value.bytes);
      HandleFrameCounters(cfg, h.node, input.inbound.value.mac, ParseFrame(input.inbound.value.bytes), input.serialOk);
    }
  }

  /** A received frame leaves retry_count alone, and wait_ack can only be cleared. */
  lemma {:induction false} HandleFrameCounters(cfg: Config, s: Node, mac: Mac, f: Frame, serialOk: bool)
    requires FrameReadable(f)
    ensures HandleFrame(cfg, s, mac, f, serialOk).retryCount == s.retryCount
    ensures HandleFrame(cfg, s, mac, f, serialOk).waitAck ==> s.waitAck
  {
    if !Discarded(s, f) {
      match PacketTypeFromCode(f.ptype)
      case Some(BroadcastPkt) =>
      case Some(ConnectPkt) => ConnectCounters(cfg, s, mac, f);
      case Some(DataPkt) =>
      case Some(DataAckPkt) =>
      case Nothing =>
    }
  }

  lemma ConnectCounters(cfg: Config, s: Node, mac: Mac, f: Frame)
    requires |f.payload| >= 2
    ensures OnConnect(cfg, s, mac, f).retryCount == s.retryCount
    ensures OnConnect(cfg, s, mac, f).waitAck == s.waitAck
  {
  }

  /**
   * CONNECT frames count in BROADCAST only. The initiator sits in
   * CONNECT_RST after winning the election, so it ignores the ACK to its
   * RST until it has given up and returned to BROADCAST.
   */
  lemma {:induction false} ConnectIgnoredOutsideBroadcast(cfg: Config, s: Node, mac: Mac, step: uint8, code: uint8, serialOk: bool)
    requires s.status != Broadcast && (step == ConRst || step == ConAck || step == ConEst)
    ensures Receive(cfg, s, Arrives(cfg.crc, mac, ConnectFrame(cfg.crc, step, code)), serialOk) == s
  {
    ReceiveBuilt(cfg, s, mac, ConnectFrame(cfg.crc, step, code), serialOk);
  }

  /** A received CONNECT frame reaches the CONNECT handler. */
  lemma ConnectArrives(cfg: Config, s: Node, mac: Mac, f: Frame, serialOk: bool)
    requires Built(cfg.crc, f) && f.ptype == PacketTypeCode(ConnectPkt) && |f.payload| == 2
    ensures Receive(cfg, s, Arrives(cfg.crc, mac, f), serialOk) == OnConnect(cfg, s, mac, f)
  {
    ReceiveBuilt(cfg, s, mac, f, serialOk);
  }

  /**
   * A responder in BROADCAST registers the sender of an RST unencrypted
   * before anything else, takes it as target if it is new, remembers the
   * code and answers with the ACK for it; it stays in BROADCAST.
   */
  lemma {:induction false} RstAnswered(cfg: Config, b: Node, macA: Mac, c: uint8, serialOk: bool)
    requires b.status == Broadcast && macA !in b.peers
    ensures var b1 := Receive(cfg, b, Arrives(cfg.crc, macA, RstFor(cfg, c)), serialOk);
      b1.outbox == b.outbox + [Sent(macA, AckFor(cfg, c))] && b1.connectCode == c
      && b1.targetMac == macA && macA in b1.peers && !b1.peers[macA] && b1.status == Broadcast
  {
    ConnectArrives(cfg, b, macA, RstFor(cfg, c), serialOk);
  }

  /** AcceptAck on the ACK for the node's own code, compared against the untruncated sum. */
  lemma {:induction false} AcceptOwnAck(cfg: Config, a: Node, macB: Mac)
    requires a.targetMac == macB
    ensures var c := a.connectCode;
      var a1 := AcceptAck(cfg, a, macB, ((c as int + 1) % 256) as uint8);
      (a1.status == Connected <==> c <= 254)
      && (c <= 254 ==> a1.outbox == a.outbox + [Sent(macB, EstFor(cfg, c))] && a1.isMaster
                       && a1.targetMac == macB && macB in a1.peers && a1.peers[macB] && a1.heartbeatTime == 0)
      && (c == 255 ==> a1 == a.(status := Broadcast))
  {
    var c := a.connectCode;
    assert ((((c as int + 1) % 256) + 1) % 256) == (c as int + 2) % 256;
  }

  /**
   * The initiator, back in BROADCAST with the responder registered as its
   * target, accepts the ACK for its last code exactly when that code is at
   * most 254: it sends the EST and connects as master over an encrypted
   * entry.
   */
  lemma {:induction false} AckAcceptedInBroadcast(cfg: Config, a: Node, macB: Mac, serialOk: bool)
    requires a.status == Broadcast && a.targetMac == macB && macB in a.peers
    ensures var c := a.connectCode;
      var a1 := Receive(cfg, a, Arrives(cfg.crc, macB, AckFor(cfg, c)), serialOk);
      (a1.status == Connected <==> c <= 254)
      && (c <= 254 ==> a1.outbox == a.outbox + [Sent(macB, EstFor(cfg, c))] && a1.isMaster
                       && a1.targetMac == macB && macB in a1.peers && a1.peers[macB] && a1.heartbeatTime == 0)
  {
    var c := a.connectCode;
    ConnectArrives(cfg, a, macB, AckFor(cfg, c), serialOk);
    AcceptOwnAck(cfg, a, macB);
  }

  /** AcceptEst on the EST for the node's own code, compared against the untruncated sum. */
  lemma {:induction false} AcceptOwnEst(b: Node, macA: Mac)
    requires b.targetMac == macA
    ensures var c := b.connectCode;
      var b2 := AcceptEst(b, macA, ((c as int + 2) % 256) as uint8);
      (b2.status == Connected <==> c <= 253)
      && (c <= 253 ==> !b2.isMaster && b2.targetMac == macA && macA in b2.peers && b2.peers[macA]
                       && b2.heartbeatTime == 0)
  {
  }

  /** The responder, still in BROADCAST, accepts the EST for the code it remembered exactly when that code is at most 253, and connects as slave. */
  lemma {:induction false} EstAccepted(cfg: Config, b: Node, macA: Mac, serialOk: bool)
    requires b.status == Broadcast && b.targetMac == macA && macA in b.peers
    ensures var c := b.connectCode;
      var b2 := Receive(cfg, b, Arrives(cfg.crc, macA, EstFor(cfg, c)), serialOk);
      (b2.status == Connected <==> c <= 253)
      && (c <= 253 ==> !b2.isMaster && b2.targetMac == macA && macA in b2.peers && b2.peers[macA]
                       && b2.heartbeatTime == 0)
  {
    ConnectArrives(cfg, b, macA, EstFor(cfg, b.connectCode), serialOk);
    AcceptOwnEst(b, macA);
  }

  /**
   * The whole handshake as written, with the initiator back in BROADCAST
   * and targeting the responder: with the initiator's code `c` both sides
   * end CONNECTED only when `c` is at most 253, and for 254 the initiator
   * believes it is connected while the responder stays in BROADCAST. The
   * responder either has not met the initiator yet or already targets it,
   * as it does after answering one of the initiator's earlier RSTs.
   */
  lemma {:induction false} HandshakeWindow(cfg: Config, a: Node, b: Node, macA: Mac, macB: Mac, serialOk: bool)
    requires a.status == Broadcast && a.targetMac == macB && macB in a.peers
    requires b.status == Broadcast && (macA !in b.peers || b.targetMac == macA)
    ensures var c := a.connectCode;
      var b1 := Receive(cfg, b, Arrives(cfg.crc, macA, RstFor(cfg, c)), serialOk);
      var a1 := Receive(cfg, a, Arrives(cfg.crc, macB, AckFor(cfg, c)), serialOk);
      var b2 := Receive(cfg, b1, Arrives(cfg.crc, macA, EstFor(cfg, c)), serialOk);
      (a1.status == Connected && b2.status == Connected <==> c <= 253)
      && (c == 254 ==> a1.status == Connected && b2.status == Broadcast)
  {
    var c := a.connectCode;
    ConnectArrives(cfg, b, macA, RstFor(cfg, c), serialOk);
    AckAcceptedInBroadcast(cfg, a, macB, serialOk);
    EstAccepted(cfg, Receive(cfg, b, Arrives(cfg.crc, macA, RstFor(cfg, c)), serialOk), macA, serialOk);
  }

  /** The evidently intended ACK check: the expected code wraps around like the one sent. */
  function AcceptAckWrapped(cfg: Config, s: Node, mac: Mac, code: uint8): Node {
    if code == (s.connectCode as int + 1) % 256 then
      Establish(SendConnect(cfg, s, ConEst, ((code as int + 1) % 256) as uint8).(isMaster := true), mac)
    else s.(status := Broadcast)
  }

  /** The evidently intended EST check. */
  function AcceptEstWrapped(s: Node, mac: Mac, code: uint8): Node {
    if code == (s.connectCode as int + 2) % 256 then Establish(s.(isMaster := false), mac)
    else s.(status := Broadcast)
  }

  /**
   * With wrapping checks the handshake completes for every code: the
   * responder answers the RST with the ACK for it, and both end connected,
   * master and slave, each targeting the other.
   */
  lemma {:induction false} WrappedHandshake(cfg: Config, a: Node, b: Node, macA: Mac, macB: Mac)
    requires a.targetMac == macB && b.targetMac == macA
    ensures var c := a.connectCode;
      var b1 := AnswerRst(cfg, b, c);
      var a1 := AcceptAckWrapped(cfg, a, macB, ((c as int + 1) % 256) as uint8);
      var b2 := AcceptEstWrapped(b1, macA, ((c as int + 2) % 256) as uint8);
      b1.outbox == b.outbox + [Sent(macA, AckFor(cfg, c))]
      && a1.status == Connected && a1.isMaster && a1.targetMac == macB
      && a1.outbox == a.outbox + [Sent(macB, EstFor(cfg, c))]
      && b2.status == Connected && !b2.isMaster && b2.targetMac == macA
  {
    var c := a.connectCode;
    assert ((((c as int + 1) % 256) + 1) % 256) == (c as int + 2) % 256;
  }

  /**
   * A CONNECT frame in BROADCAST registers its sender unencrypted before
   * the step is looked at; an ACK whose code is not the node's own plus
   * one, counted in int, then changes nothing more: the registration (and
   * a new target_mac) stays, nothing is sent and the node stays in
   * BROADCAST.
   */
  lemma {:induction false} AckMismatch(cfg: Config, a: Node, mac: Mac, d: uint8, serialOk: bool)
    requires a.status == Broadcast && d != a.connectCode + 1
    ensures var u := AddPeer(a.peers, a.targetMac, mac, false);
      Receive(cfg, a, Arrives(cfg.crc, mac, ConnectFrame(cfg.crc, ConAck, d)), serialOk)
        == a.(peers := u.peers, targetMac := u.target)
  {
    ConnectArrives(cfg, a, mac, ConnectFrame(cfg.crc, ConAck, d), serialOk);
  }

  /** The same for an EST whose code is not the node's own plus two. */
  lemma {:induction false} EstMismatch(cfg: Config, b: Node, mac: Mac, d: uint8, serialOk: bool)
    requires b.status == Broadcast && d != b.connectCode + 2
    ensures var u := AddPeer(b.peers, b.targetMac, mac, false);
      Receive(cfg, b, Arrives(cfg.crc, mac, ConnectFrame(cfg.crc, ConEst, d)), serialOk)
        == b.(peers := u.peers, targetMac := u.target)
  {
    ConnectArrives(cfg, b, mac, ConnectFrame(cfg.crc, ConEst, d), serialOk);
  }

  // ---------------------------------------------------------------------
  // Liveness and disconnection

  /** In CONNECTED the timeout is CONFIG_HEARTBEAT_INTERVAL + 3000 ms: the status step disconnects exactly beyond it. */
  lemma {:induction false} TimeoutThreshold(cfg: Config, s: Node, now: uint32, random: uint8)
    requires s.status == Connected
    ensures var h := Housekeeping(cfg, s, now, random);
      !h.skipped && (h.node.status == Disconnected <==> s.heartbeatTime > cfg.heartbeatInterval + 3000)
      && (h.node.status == Connected ==> h.node == s)
  {
  }

  /** In DISCONNECTED every received frame is ignored. */
  lemma DisconnectedIgnoresFrames(cfg: Config, s: Node, mac: Mac, f: Frame, serialOk: bool)
    requires s.status == Disconnected && FrameReadable(f)
    ensures HandleFrame(cfg, s, mac, f, serialOk) == s
  {
  }

  /**
   * The DISCONNECTED step returns to BROADCAST as a slave with no retries
   * counted; unlike wlcon.c it keeps the peer registered and target_mac
   * unchanged, and sends nothing.
   */
  lemma CleanUpKeepsPeer(cfg: Config, s: Node, now: uint32, random: uint8)
    requires s.status == Disconnected
    ensures var h := Housekeeping(cfg, s, now, random);
      !h.skipped && h.node.status == Broadcast && !h.node.isMaster && h.node.retryCount == 0
      && h.node.peers == s.peers && h.node.targetMac == s.targetMac && h.node.outbox == s.outbox
  {
  }

  /** Nothing in this manager sets wait_ack: once clear it stays clear through every iteration and tick. */
  lemma {:induction false} WaitAckNeverSet(cfg: Config, s: Node, input: Inputs)
    requires !s.waitAck
    requires input.inbound.Some? ==> Readable(cfg.crc, input.inbound.value.bytes)
    ensures !Iteration(cfg, s, input).node.waitAck && !Tick(cfg, s).waitAck
  {
    var h := Housekeeping(cfg, s, input.now, input.random);
    assert !h.node.waitAck;
    if !h.skipped && input.inbound.Some? && PacketValid(cfg.crc, input.inbound.value.bytes) {
      ReadableFrame(cfg.crc, input.inbound.value.bytes);
      HandleFrameCounters(cfg, h.node, input.inbound.value.mac, ParseFrame(input.inbound.value.bytes), input.serialOk);
    }
  }

  // ---------------------------------------------------------------------
  // Data path and heartbeat

  /**
   * A DATA frame received while CONNECTED restarts the heartbeat count
   * and is answered with a DATA_ACK to the target; a non-empty payload
   * goes to the serial side exactly when xQueueSend takes it, an empty
   * one (a heartbeat) never does. A payload the queue refuses is lost
   * after its DATA_ACK has gone out.
   */
  lemma {:induction false} DataDelivered(cfg: Config, s: Node, mac: Mac, buf: seq<uint8>, serialOk: bool)
    requires s.status == Connected && |buf| < 0x1_0000
    ensures var r := Receive(cfg, s, Arrives(cfg.crc, mac, DataFrame(cfg.crc, buf)), serialOk);
      r.delivered == s.delivered + (if |buf| == 0 || !serialOk then [] else [buf])
      && r.outbox == s.outbox + [Sent(s.targetMac, DataAckFrame(cfg.crc))]
      && r.heartbeatTime == 0 && r.status == Connected
  {
    var f := DataFrame(cfg.crc, buf);
    ReceiveBuilt(cfg, s, mac, f, serialOk);
    assert f.payload[..f.length] == buf;
  }

  /** A DATA_ACK received while CONNECTED clears wait_ack and restarts the heartbeat count, and does nothing else. */
  lemma {:induction false} AckReceived(cfg: Config, s: Node, mac: Mac, serialOk: bool)
    requires s.status == Connected
    ensures Receive(cfg, s, Arrives(cfg.crc, mac, DataAckFrame(cfg.crc)), serialOk) == s.(waitAck := false, heartbeatTime := 0)
  {
    ReceiveBuilt(cfg, s, mac, DataAckFrame(cfg.crc), serialOk);
  }

  /**
   * wireless_heartbeat_handler: both counters advance by 10 ms; a heartbeat
   * goes to the target exactly when the node is the connected master and
   * both counters have passed half of CONFIG_HEARTBEAT_INTERVAL, and then
   * only the sending interval restarts. A slave never sends one.
   */
  lemma {:induction false} TickHeartbeat(cfg: Config, s: Node)
    ensures var r := Tick(cfg, s);
      var due := s.isMaster && s.status == Connected
                 && AddTen(s.heartbeatTime) > cfg.heartbeatInterval / 2
                 && AddTen(s.heartbeatInterval) > cfg.heartbeatInterval / 2;
      r.heartbeatTime == AddTen(s.heartbeatTime) && r.status == s.status
      && (due ==> r.outbox == s.outbox + [Sent(s.targetMac, HeartbeatFrame(cfg.crc))] && r.heartbeatInterval == 0)
      && (!due ==> r.outbox == s.outbox && r.heartbeatInterval == AddTen(s.heartbeatInterval))
      && (!s.isMaster ==> r.outbox == s.outbox)
  {
  }
}
