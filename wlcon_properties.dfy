/*
 * What the wlcon.c connection manager guarantees, and where it falls
 * short, stated over the transition functions of module Wlcon.
 */
module WlconProperties {
  import opened Wire
  import opened Codec
  import opened Platform
  import opened Wlcon

  // ---------------------------------------------------------------------
  // Every frame a node sends passes the receiver's wireless_packet_check

  /** The static broadcast frame is one the broadcast builder produced. */
  predicate Inv(cfg: Config, s: Node) {
    |s.broadcastPacket.payload| == 1
    && s.broadcastPacket == BroadcastFrame(cfg.crc, s.broadcastPacket.payload[0])
  }

  /** `r` sent everything `s` had sent, and every frame it sent since was built by a packet builder. */
  predicate Extends(cfg: Config, s: Node, r: Node) {
    LogExtends(cfg.crc, s.outbox, r.outbox)
  }


  lemma SendConnectExtends(cfg: Config, s: Node, step: uint8, code: uint8)
    requires step == ConRst || step == ConAck || step == ConEst
    ensures Extends(cfg, s, SendConnect(cfg, s, step, code))
  {
    var r := SendConnect(cfg, s, step, code);
    assert r.outbox[|s.outbox|..] == [Sent(s.targetMac, ConnectFrame(cfg.crc, step, code))];
  }

  /** Appending one built frame. */
  lemma SendOneExtends(cfg: Config, s: Node, r: Node, dest: Mac, f: Frame)
    requires r.outbox == s.outbox + [Sent(dest, f)] && Built(cfg.crc, f)
    ensures Extends(cfg, s, r)
  {
    assert r.outbox[|s.outbox|..] == [Sent(dest, f)];
  }

  lemma SendQueuedExtends(cfg: Config, s: Node, queued: Option<SendItem>, allocOk: bool, sendOk: bool)
    requires Inv(cfg, s)
    ensures Extends(cfg, s, SendQueued(cfg, s, queued, allocOk, sendOk).node)
    ensures Inv(cfg, SendQueued(cfg, s, queued, allocOk, sendOk).node)
  {
    if !s.waitAck && queued.Some? && allocOk {
      var item := queued.value;
      SendOneExtends(cfg, s, SendQueued(cfg, s, queued, allocOk, sendOk).node, s.targetMac, DataFrame(cfg.crc, item.buf));
    }
  }

  lemma RetryConnectExtends(cfg: Config, s: Node, now: uint32, random: uint8)
    requires Inv(cfg, s)
    ensures Extends(cfg, s, RetryConnect(cfg, s, now, random)) && Inv(cfg, RetryConnect(cfg, s, now, random))
  {
    if TicksSince(now, s.lastConnectRstTime) >= cfg.connectTicks {
      var t := GiveUp(cfg, s);
      SendConnectExtends(cfg, t.(connectCode := random), ConRst, random);
    }
  }

  lemma HousekeepingExtends(cfg: Config, s: Node, input: Inputs)
    requires Inv(cfg, s)
    ensures Extends(cfg, s, Housekeeping(cfg, s, input).node)
    ensures Inv(cfg, Housekeeping(cfg, s, input).node)
  {
    match s.status
    case Connected => SendQueuedExtends(cfg, CheckTimeout(cfg, s), input.queued, input.allocOk, input.sendOk);
    case Disconnected => assert Disconnect(s).outbox == s.outbox;
    case Broadcast =>
      var r := KeepBroadcasting(cfg, s, input.now);
      if r.outbox != s.outbox {
        SendOneExtends(cfg, s, r, BroadcastMac, s.broadcastPacket);
      }
    case ConnectRst => RetryConnectExtends(cfg, s, input.now, input.random);
    case StatusNone =>
  }

  /** A transition that sends only built frames and keeps the static frames. */
  predicate Keeps(cfg: Config, s: Node, r: Node) {
    Extends(cfg, s, r) && Inv(cfg, r)
  }

  lemma AnswerRstKeeps(cfg: Config, s: Node, mac: Mac, code: uint8)
    requires Inv(cfg, s)
    ensures Keeps(cfg, s, AnswerRst(cfg, s, mac, code))
  {
    var u := AddPeer(s.peers, s.targetMac, mac, false);
    SendConnectExtends(cfg, s.(peers := u.peers, targetMac := u.target, connectCode := code), ConAck, ((code as int + 1) % 256) as uint8);
  }

  lemma AcceptAckKeeps(cfg: Config, s: Node, mac: Mac, code: uint8)
    requires Inv(cfg, s)
    ensures Keeps(cfg, s, AcceptAck(cfg, s, mac, code))
  {
    if code == s.connectCode + 1 {
      SendConnectExtends(cfg, s, ConEst, ((code as int + 1) % 256) as uint8);
    }
  }

  lemma AcceptEstKeeps(cfg: Config, s: Node, mac: Mac, code: uint8)
    requires Inv(cfg, s)
    ensures Keeps(cfg, s, AcceptEst(s, mac, code))
  {
  }

  lemma OnConnectKeeps(cfg: Config, s: Node, mac: Mac, f: Frame)
    requires Inv(cfg, s) && |f.payload| >= 2
    ensures Keeps(cfg, s, OnConnect(cfg, s, mac, f))
  {
    if s.status == Broadcast || s.status == ConnectRst {
      if f.payload[0] == ConRst {
        AnswerRstKeeps(cfg, s, mac, f.payload[1]);
      } else if f.payload[0] == ConAck {
        AcceptAckKeeps(cfg, s, mac, f.payload[1]);
      } else if f.payload[0] == ConEst {
        AcceptEstKeeps(cfg, s, mac, f.payload[1]);
      }
    }
  }

  lemma OnDataKeeps(cfg: Config, s: Node, f: Frame, serialOk: bool)
    requires Inv(cfg, s) && f.length <= |f.payload|
    ensures Keeps(cfg, s, OnData(cfg, s, f, serialOk))
  {
    if s.status == Connected {
      SendOneExtends(cfg, s, OnData(cfg, s, f, serialOk), s.targetMac, DataAckFrame(cfg.crc));
    }
  }

  lemma HandleFrameKeeps(cfg: Config, s: Node, mac: Mac, f: Frame, serialOk: bool)
    requires Inv(cfg, s) && FrameReadable(f)
    ensures Keeps(cfg, s, HandleFrame(cfg, s, mac, f, serialOk))
  {
    match PacketTypeFromCode(f.ptype)
    case Some(BroadcastPkt) =>
    case Some(ConnectPkt) => OnConnectKeeps(cfg, s, mac, f);
    case Some(DataPkt) => OnDataKeeps(cfg, s, f, serialOk);
    case Some(DataAckPkt) =>
    case Nothing =>
  }

  lemma TickExtends(cfg: Config, s: Node)
    requires Inv(cfg, s)
    ensures Extends(cfg, s, Tick(cfg, s)) && Inv(cfg, Tick(cfg, s))
  {
    var r := Tick(cfg, s);
    if r.outbox != s.outbox {
      SendOneExtends(cfg, s, r, s.targetMac, HeartbeatFrame(cfg.crc));
    }
  }

  lemma {:induction false} IterationExtends(cfg: Config, s: Node, input: Inputs)
    requires Inv(cfg, s)
    requires input.inbound.Some? ==> Readable(cfg.crc, input.inbound.value.bytes)
    ensures Extends(cfg, s, Iteration(cfg, s, input).node) && Inv(cfg, Iteration(cfg, s, input).node)
  {
    var h := Housekeeping(cfg, s, input);
    HousekeepingExtends(cfg, s, input);
    if !h.stalled && input.inbound.Some? && PacketValid(cfg.crc, input.inbound.value.bytes) {
      var ev := input.inbound.value;
      ReadableFrame(cfg.crc, ev.bytes);
      HandleFrameKeeps(cfg, h.node, ev.mac, ParseFrame(ev.bytes), input.serialOk);
      LogExtendsTrans(cfg.crc, s.outbox, h.node.outbox, Iteration(cfg, s, input).node.outbox);
    }
  }


  /**
   * Every frame a node hands to the radio, in any iteration of the manager
   * loop and on any heartbeat tick, was built by a packet builder (and so,
   * by Platform.SentFramesPass, passes wireless_packet_check on the
   * receiving node); what was sent before stays sent.
   */
  lemma {:induction false} SentFramesBuilt(cfg: Config, s: Node, input: Inputs)
    requires Inv(cfg, s) && AllBuilt(cfg.crc, s.outbox)
    requires input.inbound.Some? ==> Readable(cfg.crc, input.inbound.value.bytes)
    ensures var r := Iteration(cfg, s, input).node;
      Inv(cfg, r) && AllBuilt(cfg.crc, r.outbox) && s.outbox <= r.outbox
    ensures var r := Tick(cfg, s);
      Inv(cfg, r) && AllBuilt(cfg.crc, r.outbox) && s.outbox <= r.outbox
  {
    IterationExtends(cfg, s, input);
    AllBuiltExtends(cfg.crc, s.outbox, Iteration(cfg, s, input).node.outbox);
    TickExtends(cfg, s);
    AllBuiltExtends(cfg.crc, s.outbox, Tick(cfg, s).outbox);
  }

  /** A freshly started node satisfies the invariant and has sent nothing. */
  lemma InitInv(cfg: Config, random: uint8)
    ensures Inv(cfg, Init(cfg, random)) && AllBuilt(cfg.crc, Init(cfg, random).outbox)
    ensures !Init(cfg, random).waitAck && Init(cfg, random).retryCount == 0
  {
  }

  // ---------------------------------------------------------------------
  // Receiving what a peer built

  /** A built frame, once received, passes the check and is handled as itself. */
  lemma ReceiveBuilt(cfg: Config, s: Node, mac: Mac, f: Frame, serialOk: bool)
    requires Built(cfg.crc, f)
    ensures FrameReadable(f)
    ensures Receive(cfg, s, Arrives(cfg.crc, mac, f), serialOk) == HandleFrame(cfg, s, mac, f, serialOk)
  {
    BuiltFrameReadable(cfg.crc, f);
  }

  // ---------------------------------------------------------------------
  // Election

  /**
   * A node in BROADCAST that hears a peer's broadcast wins the election
   * exactly when its ruling code is strictly greater than the one heard:
   * it then becomes master, registers the peer unencrypted and starts
   * connecting. Otherwise nothing changes.
   */
  lemma {:induction false} ElectionOutcome(cfg: Config, s: Node, mac: Mac, code: uint8, serialOk: bool)
    requires s.status == Broadcast
    ensures var r := Receive(cfg, s, Arrives(cfg.crc, mac, BroadcastFrame(cfg.crc, code)), serialOk);
      (r.status == ConnectRst <==> s.rulingCode > code)
      && (s.rulingCode > code ==> r.isMaster && mac in r.peers
                                  && (mac !in s.peers ==> r.targetMac == mac && !r.peers[mac]))
      && (s.rulingCode <= code ==> r == s)
  {
    ReceiveBuilt(cfg, s, mac, BroadcastFrame(cfg.crc, code), serialOk);
  }

  /**
   * As the code is written the broadcast frame is built before the ruling
   * code is drawn, so every broadcast carries 0: two freshly started nodes
   * with non-zero codes both win the election and both start connecting
   * as master.
   */
  lemma {:induction false} StaleBroadcastBothWin(cfg: Config, ra: uint8, rb: uint8, macA: Mac, macB: Mac, serialOk: bool)
    requires ra > 0 && rb > 0
    ensures var a := Init(cfg, ra);
      var b := Init(cfg, rb);
      var a1 := Receive(cfg, a, Arrives(cfg.crc, macB, b.broadcastPacket), serialOk);
      var b1 := Receive(cfg, b, Arrives(cfg.crc, macA, a.broadcastPacket), serialOk);
      a1.isMaster && a1.status == ConnectRst && b1.isMaster && b1.status == ConnectRst
  {
    ElectionOutcome(cfg, Init(cfg, ra), macB, 0, serialOk);
    ElectionOutcome(cfg, Init(cfg, rb), macA, 0, serialOk);
  }

  /** The evidently intended start: the broadcast frame announces the ruling code the node drew. */
  function InitAnnounced(cfg: Config, random: uint8): (s: Node)
    ensures s.broadcastPacket == BroadcastFrame(cfg.crc, random) && s.rulingCode == random
    ensures s == Init(cfg, random).(broadcastPacket := s.broadcastPacket)
  {
    Init(cfg, random).(broadcastPacket := BroadcastFrame(cfg.crc, random))
  }

  /**
   * With the ruling code announced, two fresh nodes that hear each other
   * elect exactly one master when their codes differ (the greater code
   * wins) and none when they are equal.
   */
  lemma {:induction false} AnnouncedElectionOneMaster(cfg: Config, ra: uint8, rb: uint8, macA: Mac, macB: Mac, serialOk: bool)
    ensures var a := InitAnnounced(cfg, ra);
      var b := InitAnnounced(cfg, rb);
      var a1 := Receive(cfg, a, Arrives(cfg.crc, macB, b.broadcastPacket), serialOk);
      var b1 := Receive(cfg, b, Arrives(cfg.crc, macA, a.broadcastPacket), serialOk);
      (a1.isMaster <==> ra > rb) && (b1.isMaster <==> rb > ra)
      && (ra != rb ==> a1.isMaster != b1.isMaster)
  {
    ElectionOutcome(cfg, InitAnnounced(cfg, ra), macB, rb, serialOk);
    ElectionOutcome(cfg, InitAnnounced(cfg, rb), macA, ra, serialOk);
  }

  // ---------------------------------------------------------------------
  // Handshake

  /** A received CONNECT frame reaches the CONNECT handler with its step and code. */
  lemma ConnectArrives(cfg: Config, s: Node, mac: Mac, f: Frame, serialOk: bool)
    requires Built(cfg.crc, f) && f.ptype == PacketTypeCode(ConnectPkt) && |f.payload| == 2
    ensures Receive(cfg, s, Arrives(cfg.crc, mac, f), serialOk) == OnConnect(cfg, s, mac, f)
  {
    ReceiveBuilt(cfg, s, mac, f, serialOk);
  }

  /**
   * CONNECT frames are acted on in BROADCAST and CONNECT_RST only: in
   * CONNECTED or NONE any RST, ACK or EST leaves the node unchanged.
   */
  lemma {:induction false} ConnectIgnoredOutsideHandshake(cfg: Config, s: Node, mac: Mac, step: uint8, code: uint8, serialOk: bool)
    requires s.status == Connected || s.status == StatusNone
    requires step == ConRst || step == ConAck || step == ConEst
    ensures Receive(cfg, s, Arrives(cfg.crc, mac, ConnectFrame(cfg.crc, step, code)), serialOk) == s
  {
    ReceiveBuilt(cfg, s, mac, ConnectFrame(cfg.crc, step, code), serialOk);
  }

  /**
   * Handshake, first step: a responder in BROADCAST or CONNECT_RST that has
   * not registered the initiator answers its RST with the ACK, after
   * registering it unencrypted as target and remembering its code.
   */
  lemma {:induction false} RstAnswered(cfg: Config, b: Node, macA: Mac, c: uint8, serialOk: bool)
    requires (b.status == Broadcast || b.status == ConnectRst) && macA !in b.peers
    ensures var b1 := Receive(cfg, b, Arrives(cfg.crc, macA, RstFor(cfg, c)), serialOk);
      b1.outbox == b.outbox + [Sent(macA, AckFor(cfg, c))] && b1.connectCode == c
      && b1.targetMac == macA && macA in b1.peers && !b1.peers[macA] && b1.status == b.status
  {
    ConnectArrives(cfg, b, macA, RstFor(cfg, c), serialOk);
  }

  /**
   * Handshake, second step: the initiator in CONNECT_RST accepts the ACK
   * for its own code exactly when that code is at most 254, because it
   * compares against the untruncated sum. It then sends the EST to its
   * target and connects as master over an encrypted entry; for code 255 it
   * falls back to BROADCAST and sends nothing.
   */
  lemma {:induction false} AckAccepted(cfg: Config, a: Node, macB: Mac, serialOk: bool)
    requires a.status == ConnectRst && a.targetMac == macB
    ensures var c := a.connectCode;
      var a1 := Receive(cfg, a, Arrives(cfg.crc, macB, AckFor(cfg, c)), serialOk);
      (a1.status == Connected <==> c <= 254)
      && (c <= 254 ==> a1.outbox == a.outbox + [Sent(macB, EstFor(cfg, c))] && a1.isMaster
                       && a1.targetMac == macB && macB in a1.peers && a1.peers[macB] && a1.heartbeatTime == 0)
      && (c == 255 ==> a1 == a.(status := Broadcast))
  {
    var c := a.connectCode;
    ConnectArrives(cfg, a, macB, AckFor(cfg, c), serialOk);
    AcceptOwnAck(cfg, a, macB);
  }

  /** AcceptAck on the ACK for the initiator's own code, compared against the untruncated sum. */
  lemma {:induction false} AcceptOwnAck(cfg: Config, a: Node, macB: Mac)
    requires a.targetMac == macB
    ensures var c := a.connectCode;
      var a1 := AcceptAck(cfg, a, macB, ((c as int + 1) % 256) as uint8);
      (a1.status == Connected <==> c <= 254)
      && (c <= 254 ==> a1.outbox == a.outbox + [Sent(macB, EstFor(cfg, c))] && a1.isMaster
                       && a1.targetMac == macB && macB in a1.peers && a1.peers[macB] && a1.heartbeatTime == 0)
      && (c == 255 ==> a1 == a.(status := Broadcast))
  {
    var c := a.connectCode;
    assert ((((c as int + 1) % 256) + 1) % 256) == (c as int + 2) % 256;
  }

  /**
   * Handshake, third step: the responder, which remembered code `c`,
   * and targets the initiator, accepts the EST exactly when `c` is at most
   * 253 and connects as slave
   * over an encrypted entry for the initiator.
   */
  lemma {:induction false} EstAccepted(cfg: Config, b: Node, macA: Mac, serialOk: bool)
    requires (b.status == Broadcast || b.status == ConnectRst) && b.targetMac == macA
    ensures var c := b.connectCode;
      var b2 := Receive(cfg, b, Arrives(cfg.crc, macA, EstFor(cfg, c)), serialOk);
      (b2.status == Connected <==> c <= 253)
      && (c <= 253 ==> !b2.isMaster && b2.targetMac == macA && macA in b2.peers && b2.peers[macA]
                       && b2.heartbeatTime == 0)
      && (c > 253 ==> b2 == b.(status := Broadcast))
  {
    ConnectArrives(cfg, b, macA, EstFor(cfg, b.connectCode), serialOk);
    AcceptOwnEst(b, macA);
  }

  /** AcceptEst on the EST for the responder's own code, compared against the untruncated sum. */
  lemma {:induction false} AcceptOwnEst(b: Node, macA: Mac)
    requires b.targetMac == macA
    ensures var c := b.connectCode;
      var b2 := AcceptEst(b, macA, ((c as int + 2) % 256) as uint8);
      (b2.status == Connected <==> c <= 253)
      && (c <= 253 ==> !b2.isMaster && b2.targetMac == macA && macA in b2.peers && b2.peers[macA]
                       && b2.heartbeatTime == 0)
      && (c > 253 ==> b2 == b.(status := Broadcast))
  {
  }

  /**
   * An ACK whose code is not the initiator's own plus one, counted in int,
   * ends the attempt: the node drops back to BROADCAST, sends nothing and
   * changes nothing else, whether it was in BROADCAST or CONNECT_RST.
   */
  lemma {:induction false} AckMismatch(cfg: Config, a: Node, mac: Mac, d: uint8, serialOk: bool)
    requires (a.status == Broadcast || a.status == ConnectRst) && d != a.connectCode + 1
    ensures Receive(cfg, a, Arrives(cfg.crc, mac, ConnectFrame(cfg.crc, ConAck, d)), serialOk) == a.(status := Broadcast)
  {
    ConnectArrives(cfg, a, mac, ConnectFrame(cfg.crc, ConAck, d), serialOk);
  }

  /** An EST whose code is not the responder's own plus two likewise sends it back to BROADCAST with nothing else changed. */
  lemma {:induction false} EstMismatch(cfg: Config, b: Node, mac: Mac, d: uint8, serialOk: bool)
    requires (b.status == Broadcast || b.status == ConnectRst) && d != b.connectCode + 2
    ensures Receive(cfg, b, Arrives(cfg.crc, mac, ConnectFrame(cfg.crc, ConEst, d)), serialOk) == b.(status := Broadcast)
  {
    ConnectArrives(cfg, b, mac, ConnectFrame(cfg.crc, ConEst, d), serialOk);
  }

  /**
   * The whole handshake as written: with the initiator's code `c`, both
   * sides end CONNECTED only when `c` is at most 253, and for 254 the
   * initiator believes it is connected while the responder drops back to
   * BROADCAST. The responder either has not met the initiator yet or
   * already targets it, as after an election it won itself.
   */
  lemma {:induction false} HandshakeWindow(cfg: Config, a: Node, b: Node, macA: Mac, macB: Mac, serialOk: bool)
    requires a.status == ConnectRst && a.targetMac == macB
    requires b.status == Broadcast || b.status == ConnectRst
    requires macA !in b.peers || b.targetMac == macA
    ensures var c := a.connectCode;
      var b1 := Receive(cfg, b, Arrives(cfg.crc, macA, RstFor(cfg, c)), serialOk);
      var a1 := Receive(cfg, a, Arrives(cfg.crc, macB, AckFor(cfg, c)), serialOk);
      var b2 := Receive(cfg, b1, Arrives(cfg.crc, macA, EstFor(cfg, c)), serialOk);
      (a1.status == Connected && b2.status == Connected <==> c <= 253)
      && (c == 254 ==> a1.status == Connected && b2.status == Broadcast)
  {
    var c := a.connectCode;
    ConnectArrives(cfg, b, macA, RstFor(cfg, c), serialOk);
    AckAccepted(cfg, a, macB, serialOk);
    EstAccepted(cfg, Receive(cfg, b, Arrives(cfg.crc, macA, RstFor(cfg, c)), serialOk), macA, serialOk);
  }

  /** The evidently intended ACK check: the expected code wraps around like the one sent. */
  function AcceptAckWrapped(cfg: Config, s: Node, mac: Mac, code: uint8): Node {
    if code == (s.connectCode as int + 1) % 256 then
      Establish(SendConnect(cfg, s, ConEst, ((code as int + 1) % 256) as uint8).(isMaster := true), mac)
    else s.(status := Broadcast)
  }

  /** The evidently intended EST check. */
  function AcceptEstWrapped(s: Node, mac: Mac, code: uint8): Node {
    if code == (s.connectCode as int + 2) % 256 then Establish(s.(isMaster := false), mac)
    else s.(status := Broadcast)
  }

  /** With wrapping checks the handshake completes for every code: master and slave, each targeting the other. */
  lemma {:induction false} WrappedHandshake(cfg: Config, a: Node, b: Node, macA: Mac, macB: Mac)
    requires a.targetMac == macB && (macA !in b.peers || b.targetMac == macA)
    ensures var c := a.connectCode;
      var b1 := AnswerRst(cfg, b, macA, c);
      var a1 := AcceptAckWrapped(cfg, a, macB, ((c as int + 1) % 256) as uint8);
      var b2 := AcceptEstWrapped(b1, macA, ((c as int + 2) % 256) as uint8);
      a1.status == Connected && a1.isMaster && a1.targetMac == macB
      && a1.outbox == a.outbox + [Sent(macB, ConnectFrame(cfg.crc, ConEst, ((c as int + 2) % 256) as uint8))]
      && b2.status == Connected && !b2.isMaster && b2.targetMac == macA
  {
    var c := a.connectCode;
    assert ((((c as int + 1) % 256) + 1) % 256) == (c as int + 2) % 256;
  }

  // ---------------------------------------------------------------------
  // Connect retries

  /** The most retry_count can reach: CONFIG_CONNECT_RETRY, or 1 when that is 0. */
  function RetryCap(cfg: Config): nat {
    if cfg.connectRetry >= 1 then cfg.connectRetry else 1
  }

  /** A connect attempt while retries remain: a fresh code goes out in an RST, the attempt is counted, the status stays. */
  lemma {:induction false} RetryAttempt(cfg: Config, s: Node, now: uint32, random: uint8)
    requires s.retryCount < cfg.connectRetry && TicksSince(now, s.lastConnectRstTime) >= cfg.connectTicks
    ensures var r := RetryConnect(cfg, s, now, random);
      r.status == s.status && r.isMaster == s.isMaster && r.retryCount == s.retryCount + 1
      && r.connectCode == random && r.lastConnectRstTime == now
      && r.outbox == s.outbox + [Sent(s.targetMac, RstFor(cfg, random))]
  {
    assert GiveUp(cfg, s) == s;
  }

  /**
   * Retries spent: the node gives up, returns to BROADCAST and stops being
   * master, yet in the same iteration still draws a code, sends one more
   * RST and leaves retry_count at 1.
   */
  lemma {:induction false} RetriesExhausted(cfg: Config, s: Node, now: uint32, random: uint8)
    requires s.retryCount >= cfg.connectRetry && TicksSince(now, s.lastConnectRstTime) >= cfg.connectTicks
    ensures var r := RetryConnect(cfg, s, now, random);
      r.status == Broadcast && !r.isMaster && r.retryCount == 1 && r.connectCode == random
      && r.outbox == s.outbox + [Sent(s.targetMac, RstFor(cfg, random))]
  {
  }

  /** Before the connect interval has passed nothing happens. */
  lemma RetryPaced(cfg: Config, s: Node, now: uint32, random: uint8)
    requires TicksSince(now, s.lastConnectRstTime) < cfg.connectTicks
    ensures RetryConnect(cfg, s, now, random) == s
  {
  }

  /** A received frame leaves retry_count alone and can only clear wait_ack, and only by a DATA_ACK while CONNECTED. */
  lemma {:induction false} HandleFrameCounters(cfg: Config, s: Node, mac: Mac, f: Frame, serialOk: bool)
    requires FrameReadable(f)
    ensures var r := HandleFrame(cfg, s, mac, f, serialOk);
      r.retryCount == s.retryCount
      && (r.waitAck != s.waitAck ==> s.status == Connected && f.ptype == PacketTypeCode(DataAckPkt) && !r.waitAck)
  {
    match PacketTypeFromCode(f.ptype)
    case Some(BroadcastPkt) =>
    case Some(ConnectPkt) => ConnectCounters(cfg, s, mac, f);
    case Some(DataPkt) =>
    case Some(DataAckPkt) =>
    case Nothing =>
  }

  lemma ConnectCounters(cfg: Config, s: Node, mac: Mac, f: Frame)
    requires |f.payload| >= 2
    ensures OnConnect(cfg, s, mac, f).retryCount == s.retryCount
    ensures OnConnect(cfg, s, mac, f).waitAck == s.waitAck
  {
  }

  /**
   * retry_count never exceeds CONFIG_CONNECT_RETRY (or 1 when that is 0):
   * no iteration of the manager loop and no heartbeat tick takes it past
   * the cap.
   */
  lemma {:induction false} RetryBounded(cfg: Config, s: Node, input: Inputs)
    requires s.retryCount <= RetryCap(cfg)
    requires input.inbound.Some? ==> Readable(cfg.crc, input.inbound.value.bytes)
    ensures Iteration(cfg, s, input).node.retryCount <= RetryCap(cfg)
    ensures Tick(cfg, s).retryCount <= RetryCap(cfg)
  {
    var h := Housekeeping(cfg, s, input);
    HousekeepingRetryBounded(cfg, s, input);
    if !h.stalled && input.inbound.Some? && PacketValid(cfg.crc, input.inbound.value.bytes) {
      ReadableFrame(cfg.crc, input.inbound.value.bytes);
      HandleFrameCounters(cfg, h.node, input.inbound.value.mac, ParseFrame(input.inbound.value.bytes), input.serialOk);
    }
  }

  /** The status step keeps retry_count within the cap. */
  lemma HousekeepingRetryBounded(cfg: Config, s: Node, input: Inputs)
    requires s.retryCount <= RetryCap(cfg)
    ensures Housekeeping(cfg, s, input).node.retryCount <= RetryCap(cfg)
  {
    if s.status == ConnectRst && TicksSince(input.now, s.lastConnectRstTime) >= cfg.connectTicks {
      assert GiveUp(cfg, s).retryCount < RetryCap(cfg);
    }
  }

  // ---------------------------------------------------------------------
  // Liveness and disconnection

  /** In DISCONNECTED every received frame is ignored. */
  lemma DisconnectedIgnoresFrames(cfg: Config, s: Node, mac: Mac, f: Frame, serialOk: bool)
    requires s.status == Disconnected && FrameReadable(f)
    ensures HandleFrame(cfg, s, mac, f, serialOk) == s
  {
  }

  /** Outside CONNECTED a DATA frame is dropped: no acknowledgement, no delivery, no heartbeat reset. */
  lemma {:induction false} DataNeedsConnection(cfg: Config, s: Node, mac: Mac, buf: seq<uint8>, serialOk: bool)
    requires s.status != Connected && |buf| < 0x1_0000
    ensures Receive(cfg, s, Arrives(cfg.crc, mac, DataFrame(cfg.crc, buf)), serialOk) == s
  {
    ReceiveBuilt(cfg, s, mac, DataFrame(cfg.crc, buf), serialOk);
  }

  /** Outside CONNECTED a DATA_ACK is dropped: wait_ack stays as it was. */
  lemma {:induction false} AckNeedsConnection(cfg: Config, s: Node, mac: Mac, serialOk: bool)
    requires s.status != Connected
    ensures Receive(cfg, s, Arrives(cfg.crc, mac, DataAckFrame(cfg.crc)), serialOk) == s
  {
    ReceiveBuilt(cfg, s, mac, DataAckFrame(cfg.crc), serialOk);
  }

  /**
   * Heartbeat timeout: a CONNECTED node that has heard nothing for more
   * than CONFIG_HEARTBEAT_INTERVAL + 1000 ms ends the iteration
   * DISCONNECTED, whatever it receives; a queued item is still sent in
   * that same iteration.
   */
  lemma {:induction false} HeartbeatTimeout(cfg: Config, s: Node, input: Inputs)
    requires s.status == Connected && s.heartbeatTime > cfg.heartbeatInterval + 1000
    requires input.inbound.Some? ==> Readable(cfg.crc, input.inbound.value.bytes)
    ensures Iteration(cfg, s, input).node.status == Disconnected
    ensures Iteration(cfg, s, input).itemTaken <==> !s.waitAck && input.queued.Some?
  {
    var h := Housekeeping(cfg, s, input);
    assert h.node.status == Disconnected;
    if !h.stalled && input.inbound.Some? && PacketValid(cfg.crc, input.inbound.value.bytes) {
      ReadableFrame(cfg.crc, input.inbound.value.bytes);
      DisconnectedIgnoresFrames(cfg, h.node, input.inbound.value.mac, ParseFrame(input.inbound.value.bytes), input.serialOk);
    }
  }

  /**
   * A BROADCAST frame heard in CONNECT_RST or CONNECTED from the target
   * means the peer restarted discovery: the node goes DISCONNECTED and
   * changes nothing else. From any other address it is ignored.
   */
  lemma {:induction false} PeerRestart(cfg: Config, s: Node, mac: Mac, code: uint8, serialOk: bool)
    requires s.status == ConnectRst || s.status == Connected
    ensures var r := Receive(cfg, s, Arrives(cfg.crc, mac, BroadcastFrame(cfg.crc, code)), serialOk);
      (mac == s.targetMac ==> r == s.(status := Disconnected))
      && (mac != s.targetMac ==> r == s)
  {
    ReceiveBuilt(cfg, s, mac, BroadcastFrame(cfg.crc, code), serialOk);
  }

  /**
   * The DISCONNECTED clean-up: the peer entry is removed and target_mac
   * reset unless it already is the broadcast address; the node leaves
   * DISCONNECTED for BROADCAST as a slave with no retries counted. The
   * wait_ack flag is not touched.
   */
  lemma {:induction false} CleanUpOutcome(cfg: Config, s: Node, input: Inputs)
    requires s.status == Disconnected
    ensures var h := Housekeeping(cfg, s, input);
      !h.stalled && !h.itemTaken && h.node.status == Broadcast && !h.node.isMaster && h.node.retryCount == 0
      && IsBroadcastAddr(h.node.targetMac) && h.node.waitAck == s.waitAck && h.node.outbox == s.outbox
      && (!IsBroadcastAddr(s.targetMac) ==> h.node.peers == s.peers - {s.targetMac} && h.node.targetMac == BroadcastMac)
      && (IsBroadcastAddr(s.targetMac) ==> h.node.peers == s.peers && h.node.targetMac == s.targetMac)
  {
  }

  // ---------------------------------------------------------------------
  // Data path

  /**
   * The stop-and-wait sender in CONNECTED: a queued item is taken exactly
   * when no acknowledgement is outstanding. It goes to the target as a DATA
   * frame, wait_ack records whether the send was accepted, the item's
   * buffer is freed when bit 0 of its flag is set, and nothing else
   * changes; if the frame cannot be allocated the item is lost, wait_ack
   * stays set and the iteration ends before the callback queue is read.
   */
  lemma {:induction false} StopAndWait(cfg: Config, s: Node, input: Inputs)
    requires s.status == Connected && s.heartbeatTime <= cfg.heartbeatInterval + 1000
    requires input.inbound.Some? ==> Readable(cfg.crc, input.inbound.value.bytes)
    ensures var h := Housekeeping(cfg, s, input);
      (h.itemTaken <==> !s.waitAck && input.queued.Some?)
      && (!h.itemTaken ==> h.node == s && !h.stalled)
      && (h.itemTaken && input.allocOk ==>
            var item := input.queued.value;
            !h.stalled
            && h.node == s.(waitAck := input.sendOk,
                            outbox := s.outbox + [Sent(s.targetMac, DataFrame(cfg.crc, item.buf))],
                            released := s.released + (if item.flag % 2 == 1 then [item] else [])))
      && (h.itemTaken && !input.allocOk ==> h.node == s.(waitAck := true) && h.stalled)
    ensures var o := Iteration(cfg, s, input);
      o.eventTaken <==> input.inbound.Some? && !(o.itemTaken && !input.allocOk)
  {
  }

  /**
   * A DATA frame received while CONNECTED: a DATA_ACK goes to the target
   * and the heartbeat count restarts whatever happens next; a non-empty
   * payload reaches the serial side exactly when the serial queue takes
   * it, and is otherwise lost although its sender has been told it
   * arrived.
   */
  lemma {:induction false} DataDelivered(cfg: Config, s: Node, mac: Mac, buf: seq<uint8>, serialOk: bool)
    requires s.status == Connected && |buf| < 0x1_0000
    ensures var r := Receive(cfg, s, Arrives(cfg.crc, mac, DataFrame(cfg.crc, buf)), serialOk);
      r.delivered == s.delivered + (if |buf| == 0 || !serialOk then [] else [buf])
      && r.outbox == s.outbox + [Sent(s.targetMac, DataAckFrame(cfg.crc))]
      && r.heartbeatTime == 0 && r.status == Connected && r.waitAck == s.waitAck
  {
    var f := DataFrame(cfg.crc, buf);
    ReceiveBuilt(cfg, s, mac, f, serialOk);
    assert f.payload[..f.length] == buf;
  }

  /** A DATA_ACK received while CONNECTED frees the sender and restarts the heartbeat count, and does nothing else. */
  lemma {:induction false} AckReleasesSender(cfg: Config, s: Node, mac: Mac, serialOk: bool)
    requires s.status == Connected
    ensures Receive(cfg, s, Arrives(cfg.crc, mac, DataAckFrame(cfg.crc)), serialOk) == s.(waitAck := false, heartbeatTime := 0)
  {
    ReceiveBuilt(cfg, s, mac, DataAckFrame(cfg.crc), serialOk);
  }

  /**
   * As written, wait_ack survives the DISCONNECTED clean-up. A node whose
   * DATA frame or its DATA_ACK was lost stays blocked: after the timeout,
   * the clean-up and a new connection it still takes no queued item.
   */
  lemma {:induction false} LostAckBlocksSender(cfg: Config, s: Node, input: Inputs, mac: Mac, item: SendItem)
    requires s.status == Disconnected && s.waitAck
    ensures var c := Establish(Housekeeping(cfg, s, input).node, mac);
      c.status == Connected && c.waitAck && !SendQueued(cfg, c, Some(item), true, true).itemTaken
  {
  }

  /** The evidently intended clean-up: it also drops the outstanding acknowledgement. */
  function DisconnectClearingAck(s: Node): Node {
    Disconnect(s).(waitAck := false)
  }

  /** With the acknowledgement dropped at clean-up, the next connection sends the first queued item. */
  lemma {:induction false} ClearedAckFreesSender(cfg: Config, s: Node, mac: Mac, item: SendItem)
    requires s.status == Disconnected
    ensures var c := Establish(DisconnectClearingAck(s), mac);
      var p := SendQueued(cfg, c, Some(item), true, true);
      c.status == Connected && p.itemTaken && p.node.waitAck
      && p.node.outbox == s.outbox + [Sent(c.targetMac, DataFrame(cfg.crc, item.buf))]
  {
  }

  /** One thing that happens to a node: an iteration of the manager loop, or a tick of the heartbeat timer. */
  datatype Event = Loop(input: Inputs) | Timer

  /** Every callback event in the run holds the bytes its manager reads. */
  predicate Runnable(cfg: Config, evs: seq<Event>) {
    forall i :: 0 <= i < |evs| && evs[i].Loop? ==>
      (evs[i].input.inbound.Some? ==> Readable(cfg.crc, evs[i].input.inbound.value.bytes))
  }

  /** The node after a run of events, and how many send-queue items the run took. */
  datatype Trace = Trace(node: Node, taken: nat)

  function Run(cfg: Config, s: Node, evs: seq<Event>): Trace
    requires Runnable(cfg, evs)
    decreases |evs|
  {
    if evs == [] then Trace(s, 0)
    else
      assert Runnable(cfg, evs[1..]) by {
        forall i | 0 <= i < |evs[1..]| && evs[1..][i].Loop?
          ensures evs[1..][i].input.inbound.Some? ==> Readable(cfg.crc, evs[1..][i].input.inbound.value.bytes)
        {
          assert evs[1..][i] == evs[i + 1];
        }
      }
      match evs[0]
      case Timer => Run(cfg, Tick(cfg, s), evs[1..])
      case Loop(input) =>
        var o := Iteration(cfg, s, input);
        var rest := Run(cfg, o.node, evs[1..]);
        Trace(rest.node, rest.taken + (if o.itemTaken then 1 else 0))
  }

  /** The callback event is not a DATA_ACK that passes wireless_packet_check. */
  predicate NoDataAck(cfg: Config, ev: Option<Inbound>)
    requires ev.Some? ==> Readable(cfg.crc, ev.value.bytes)
  {
    ev.Nothing? || !PacketValid(cfg.crc, ev.value.bytes)
    || ParseFrame(ev.value.bytes).ptype != PacketTypeCode(DataAckPkt)
  }

  /** An iteration that receives no DATA_ACK keeps an outstanding wait_ack and so takes no queued item. */
  lemma {:induction false} WaitKept(cfg: Config, s: Node, input: Inputs)
    requires s.waitAck
    requires input.inbound.Some? ==> Readable(cfg.crc, input.inbound.value.bytes)
    requires NoDataAck(cfg, input.inbound)
    ensures var o := Iteration(cfg, s, input); o.node.waitAck && !o.itemTaken
  {
    var h := Housekeeping(cfg, s, input);
    assert h.node.waitAck && !h.itemTaken;
    if !h.stalled && input.inbound.Some? && PacketValid(cfg.crc, input.inbound.value.bytes) {
      ReadableFrame(cfg.crc, input.inbound.value.bytes);
      HandleFrameCounters(cfg, h.node, input.inbound.value.mac, ParseFrame(input.inbound.value.bytes), input.serialOk);
    }
  }

  /**
   * As written, an outstanding wait_ack is only ever cleared by a DATA_ACK:
   * through any run of loop iterations and timer ticks that delivers no
   * DATA_ACK, heartbeat timeouts, clean-ups and reconnections included,
   * the node stays blocked and takes no item from the send queue.
   */
  lemma {:induction false} WaitBlocksUntilDataAck(cfg: Config, s: Node, evs: seq<Event>)
    requires s.waitAck && Runnable(cfg, evs)
    requires forall i :: 0 <= i < |evs| && evs[i].Loop? ==> NoDataAck(cfg, evs[i].input.inbound)
    ensures Run(cfg, s, evs).node.waitAck && Run(cfg, s, evs).taken == 0
    decreases |evs|
  {
    if evs != [] {
      assert Runnable(cfg, evs[1..]) by {
        forall i | 0 <= i < |evs[1..]| && evs[1..][i].Loop?
          ensures evs[1..][i].input.inbound.Some? ==> Readable(cfg.crc, evs[1..][i].input.inbound.value.bytes)
        {
          assert evs[1..][i] == evs[i + 1];
        }
      }
      forall i | 0 <= i < |evs[1..]| && evs[1..][i].Loop?
        ensures NoDataAck(cfg, evs[1..][i].input.inbound)
      {
        assert evs[1..][i] == evs[i + 1];
      }
      match evs[0]
      case Timer =>
        WaitBlocksUntilDataAck(cfg, Tick(cfg, s), evs[1..]);
      case Loop(input) =>
        WaitKept(cfg, s, input);
        WaitBlocksUntilDataAck(cfg, Iteration(cfg, s, input).node, evs[1..]);
    }
  }

  // ---------------------------------------------------------------------
  // Heartbeat timer

  /**
   * wlcon_heartbeat_handler: both counters advance by 10 ms; a heartbeat
   * goes to the target exactly when the node is the connected master and
   * both counters have passed CONFIG_HEARTBEAT_INTERVAL, and then the
   * sending interval restarts. A slave never sends one.
   */
  lemma {:induction false} TickHeartbeat(cfg: Config, s: Node)
    ensures var r := Tick(cfg, s);
      var due := s.isMaster && s.status == Connected
                 && AddTen(s.heartbeatTime) > cfg.heartbeatInterval && AddTen(s.heartbeatInterval) > cfg.heartbeatInterval;
      r.heartbeatTime == AddTen(s.heartbeatTime) && r.status == s.status && r.waitAck == s.waitAck
      && (due ==> r.outbox == s.outbox + [Sent(s.targetMac, HeartbeatFrame(cfg.crc))] && r.heartbeatInterval == 0)
      && (!due ==> r.outbox == s.outbox && r.heartbeatInterval == AddTen(s.heartbeatInterval))
      && (!s.isMaster ==> r.outbox == s.outbox)
  {
  }

  /** A heartbeat received while CONNECTED is a DATA frame with an empty payload: acknowledged, nothing delivered. */
  lemma {:induction false} HeartbeatAcknowledged(cfg: Config, s: Node, mac: Mac, serialOk: bool)
    requires s.status == Connected
    ensures var r := Receive(cfg, s, Arrives(cfg.crc, mac, HeartbeatFrame(cfg.crc)), serialOk);
      r.delivered == s.delivered && r.heartbeatTime == 0
      && r.outbox == s.outbox + [Sent(s.targetMac, DataAckFrame(cfg.crc))]
  {
    ReceiveBuilt(cfg, s, mac, HeartbeatFrame(cfg.crc), serialOk);
  }
}
