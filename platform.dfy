/*
 * What both connection managers share: compile-time configuration, the
 * shape of one radio event, the record of a frame handed to the radio,
 * tick arithmetic on the unsigned 32-bit counters, the ESP-NOW peer table
 * update of wireless_add_peer, and which received bytes the managers read.
 */
module Platform {
  import opened Wire
  import opened Codec

  /** A CONFIG_* value; small enough that `CONFIG_X + 3000` never leaves the C int range. */
  type Interval = x: nat | x < 0x4000_0000

  /**
   * The build's configuration and the ROM CRC routine. Intervals are in
   * ticks already (pdMS_TO_TICKS applied), the heartbeat values in ms.
   */
  datatype Config = Config(
    crc: CrcFn,
    heartbeatInterval: Interval,  // CONFIG_HEARTBEAT_INTERVAL
    connectRetry: Interval,       // CONFIG_CONNECT_RETRY
    broadcastTicks: Interval,     // pdMS_TO_TICKS(CONFIG_BROADCAST_INTERVAL)
    connectTicks: Interval)       // pdMS_TO_TICKS(CONFIG_CONNECT_INTERVAL)

  /** A receive event as the callback queues it: the sender and a copy of the bytes. */
  datatype Inbound = Inbound(mac: Mac, bytes: seq<uint8>)

  /** One call of esp_now_send: destination and the frame in the buffer. */
  datatype Sent = Sent(dest: Mac, frame: Frame)

  /** The ESP-NOW peer table: registered address and whether its link key is in use. */
  type Peers = map<Mac, bool>

  /** target_mac's C initialiser {0xff} in both managers: the first byte 0xff, the rest zero. */
  const InitialTarget: Mac := [0xFF, 0, 0, 0, 0, 0]

  const Wrap: nat := 0x1_0000_0000

  /** `now - last` on TickType_t: unsigned, so a tick counter that wrapped still yields the distance. */
  function TicksSince(now: uint32, last: uint32): (d: uint32)
    ensures now >= last ==> d == now - last
    ensures now < last ==> d == Wrap - last + now
  {
    (now - last) % Wrap
  }

  /** `counter += 10` on a uint32_t. */
  function AddTen(x: uint32): (r: uint32)
    ensures x < Wrap - 10 ==> r == x + 10
    ensures x >= Wrap - 10 ==> r == x + 10 - Wrap
  {
    (x + 10) % Wrap
  }

  /** Result of wireless_add_peer: the new table and the new target_mac. */
  datatype PeerUpdate = PeerUpdate(peers: Peers, target: Mac)

  /**
   * wireless_add_peer: a new address is registered with the given
   * encryption and becomes target_mac; an address already in the table is
   * left alone, and target_mac is then not updated either.
   */
  function AddPeer(peers: Peers, target: Mac, mac: Mac, encrypt: bool): (r: PeerUpdate)
    ensures mac !in peers ==> r.peers == peers[mac := encrypt] && r.target == mac
    ensures mac in peers ==> r == PeerUpdate(peers, target)
    ensures mac in r.peers && r.peers.Keys == peers.Keys + {mac}
  {
    if mac in peers then PeerUpdate(peers, target)
    else PeerUpdate(peers[mac := encrypt], mac)
  }

  /**
   * How many payload bytes the managers read from a frame with these type
   * and length fields: payload[0] of a BROADCAST, payload[0..2] of a
   * CONNECT, the declared `length` bytes a DATA frame's memcpy copies.
   */
  function PayloadBytesRead(ptype: uint32, length: uint32): nat {
    if ptype == PacketTypeCode(BroadcastPkt) then 1
    else if ptype == PacketTypeCode(ConnectPkt) then 2
    else if ptype == PacketTypeCode(DataPkt) then length
    else 0
  }

  /**
   * A received buffer that holds every byte the manager reads from it:
   * the CRC gate's bytes (InBounds) and, for a frame that passes the gate,
   * the payload bytes its type is read for.
   */
  predicate Readable(crc: CrcFn, b: seq<uint8>) {
    InBounds(b) && (PacketValid(crc, b) ==> HeaderSize + PayloadBytesRead(TypeField(b), LengthField(b)) <= |b|)
  }

  /** The same condition on the frame read out of such a buffer. */
  predicate FrameReadable(f: Frame) {
    PayloadBytesRead(f.ptype, f.length) <= |f.payload|
  }

  lemma ReadableFrame(crc: CrcFn, b: seq<uint8>)
    requires Readable(crc, b) && PacketValid(crc, b)
    ensures FrameReadable(ParseFrame(b))
  {
  }

  /** A frame one of the packet builders produced. */
  predicate Built(crc: CrcFn, f: Frame) {
    (|f.payload| == 1 && f == BroadcastFrame(crc, f.payload[0]))
    || f == HeartbeatFrame(crc) || f == DataAckFrame(crc)
    || (|f.payload| == 2 && f == ConnectFrame(crc, f.payload[0], f.payload[1]))
    || (|f.payload| < 0x1_0000 && f == DataFrame(crc, f.payload))
  }

  /** Every frame sent so far was built by a packet builder. */
  predicate AllBuilt(crc: CrcFn, sends: seq<Sent>) {
    forall i :: 0 <= i < |sends| ==> Built(crc, sends[i].frame)
  }

  /** Every frame the builders produce can be received: it is readable, passes the gate and reads back as itself. */
  lemma {:induction false} BuiltFrameReadable(crc: CrcFn, f: Frame)
    requires Built(crc, f)
    ensures Readable(crc, Serialize(f)) && PacketValid(crc, Serialize(f))
    ensures ParseFrame(Serialize(f)) == f && FrameReadable(f)
  {
    var g := f.(crc := 0);
    SealedFramePasses(crc, g);
    assert Seal(crc, g) == f;
    assert f.ptype == TypeField(Serialize(f));
  }

  /** The log `after` keeps everything in `before`, and every frame sent since was built by a packet builder. */
  predicate LogExtends(crc: CrcFn, before: seq<Sent>, after: seq<Sent>) {
    before <= after && AllBuilt(crc, after[|before|..])
  }

  lemma LogExtendsTrans(crc: CrcFn, a: seq<Sent>, b: seq<Sent>, c: seq<Sent>)
    requires LogExtends(crc, a, b) && LogExtends(crc, b, c)
    ensures LogExtends(crc, a, c)
  {
    assert c[|a|..] == b[|a|..] + c[|b|..];
  }

  lemma AllBuiltExtends(crc: CrcFn, before: seq<Sent>, after: seq<Sent>)
    requires AllBuilt(crc, before) && LogExtends(crc, before, after)
    ensures AllBuilt(crc, after)
  {
    assert after == before + after[|before|..];
  }

  /** Every frame in a log of built frames can be received and passes the check. */
  lemma SentFramesPass(crc: CrcFn, sends: seq<Sent>)
    requires AllBuilt(crc, sends)
    ensures forall i :: 0 <= i < |sends| ==>
      Readable(crc, Serialize(sends[i].frame)) && PacketValid(crc, Serialize(sends[i].frame))
      && ParseFrame(Serialize(sends[i].frame)) == sends[i].frame
  {
    forall i | 0 <= i < |sends|
      ensures Readable(crc, Serialize(sends[i].frame)) && PacketValid(crc, Serialize(sends[i].frame))
              && ParseFrame(Serialize(sends[i].frame)) == sends[i].frame
    {
      BuiltFrameReadable(crc, sends[i].frame);
    }
  }

  /** A built frame as the radio delivers it: its bytes hold everything the receiving manager reads. */
  function Arrives(crc: CrcFn, mac: Mac, f: Frame): (ev: Option<Inbound>)
    requires Built(crc, f)
    ensures ev.Some? && ev.value.mac == mac && Readable(crc, ev.value.bytes)
    ensures PacketValid(crc, ev.value.bytes) && ParseFrame(ev.value.bytes) == f
  {
    BuiltFrameReadable(crc, f);
    Some(Inbound(mac, Serialize(f)))
  }

  /** The ACK a responder sends for an RST carrying `c`: the code plus one, truncated to 8 bits. */
  function AckFor(cfg: Config, c: uint8): (f: Frame)
    ensures Built(cfg.crc, f) && f.payload == [ConAck, ((c as int + 1) % 256) as uint8]
  {
    ConnectFrame(cfg.crc, ConAck, ((c as int + 1) % 256) as uint8)
  }

  /** The EST an initiator sends after accepting the ACK for its code `c`. */
  function EstFor(cfg: Config, c: uint8): (f: Frame)
    ensures Built(cfg.crc, f) && f.payload == [ConEst, ((c as int + 2) % 256) as uint8]
  {
    assert ((((c as int + 1) % 256) + 1) % 256) == (c as int + 2) % 256;
    ConnectFrame(cfg.crc, ConEst, ((c as int + 2) % 256) as uint8)
  }

  /** The RST an initiator with code `c` sends. */
  function RstFor(cfg: Config, c: uint8): (f: Frame)
    ensures Built(cfg.crc, f) && f.payload == [ConRst, c]
  {
    ConnectFrame(cfg.crc, ConRst, c)
  }
}
