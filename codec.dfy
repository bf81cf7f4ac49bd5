/*
 * The frame codec: the packed wireless_packet_t header (version, type,
 * length, crc) followed by `length` payload bytes, stored little-endian
 * as the target lays it out in memory; the CRC-16 seal every builder
 * applies; and the receive-side gate (version first, then the CRC
 * recomputed with the crc field temporarily zeroed).
 *
 * The ROM routine crc16_le is not visible, so it is a parameter of type
 * CrcFn: everything proved here holds for every such function.
 */
module Codec {
  import opened Wire

  type CrcFn = (uint16, seq<uint8>) -> uint16

  /** UINT16_MAX, the seed every caller passes to crc16_le. */
  const CrcInit: uint16 := 0xFFFF

  /** WIRELESS_PACKET_VERSION */
  const Version: uint32 := 1

  /** Byte offsets of the packed header fields, and sizeof(wireless_packet_t). */
  const VersionOffset: nat := 0
  const TypeOffset: nat := 4
  const LengthOffset: nat := 8
  const CrcOffset: nat := 12
  const HeaderSize: nat := 14

  /** CON_TYPE_RST, CON_TYPE_ACK, CON_TYPE_EST: payload[0] of a CONNECT frame. */
  const ConRst: uint8 := 1
  const ConAck: uint8 := 2
  const ConEst: uint8 := 3

  /** A frame as the sender's struct holds it; `payload` is what follows the header in the buffer. */
  datatype Frame = Frame(version: uint32, ptype: uint32, length: uint32, crc: uint16, payload: seq<uint8>)

  /** A frame whose declared length is exactly the payload it carries. */
  predicate Exact(f: Frame) {
    f.length == |f.payload|
  }

  // ---------------------------------------------------------------------
  // Little-endian integers

  function Pow256(n: nat): (p: nat)
    ensures p >= 1
  {
    if n == 0 then 1 else 256 * Pow256(n - 1)
  }

  lemma Pow256Widths()
    ensures Pow256(2) == 0x1_0000 && Pow256(4) == 0x1_0000_0000
  {
    assert Pow256(1) == 256;
    assert Pow256(2) == 0x1_0000;
    assert Pow256(3) == 0x100_0000;
  }

  /** The n low-order bytes of x, least significant first. */
  function LE(n: nat, x: nat): (r: seq<uint8>)
    ensures |r| == n
  {
    if n == 0 then [] else [x % 256] + LE(n - 1, x / 256)
  }

  /** The number n bytes stored least significant first denote; it fits in n bytes. */
  function FromLE(s: seq<uint8>): (x: nat)
    ensures x < Pow256(|s|)
  {
    if s == [] then 0 else s[0] + 256 * FromLE(s[1..])
  }

  lemma {:induction false} FromLEOfLE(n: nat, x: nat)
    requires x < Pow256(n)
    ensures FromLE(LE(n, x)) == x
  {
    if n > 0 {
      var r := LE(n, x);
      assert r[0] == x % 256 && r[1..] == LE(n - 1, x / 256);
      FromLEOfLE(n - 1, x / 256);
    }
  }

  // ---------------------------------------------------------------------
  // Layout

  /** The bytes of the packed struct followed by the payload, as they go on the air. */
  function Serialize(f: Frame): (b: seq<uint8>)
    ensures |b| == HeaderSize + |f.payload|
  {
    LE(4, f.version) + LE(4, f.ptype) + LE(4, f.length) + LE(2, f.crc) + f.payload
  }

  function VersionField(b: seq<uint8>): uint32
    requires |b| >= HeaderSize
  {
    Pow256Widths();
    FromLE(b[VersionOffset..TypeOffset])
  }

  function TypeField(b: seq<uint8>): uint32
    requires |b| >= HeaderSize
  {
    Pow256Widths();
    FromLE(b[TypeOffset..LengthOffset])
  }

  function LengthField(b: seq<uint8>): uint32
    requires |b| >= HeaderSize
  {
    Pow256Widths();
    FromLE(b[LengthOffset..CrcOffset])
  }

  function CrcField(b: seq<uint8>): uint16
    requires |b| >= HeaderSize
  {
    Pow256Widths();
    FromLE(b[CrcOffset..HeaderSize])
  }

  /** A received buffer viewed through the struct: header fields, then everything after the header. */
  function ParseFrame(b: seq<uint8>): Frame
    requires |b| >= HeaderSize
  {
    Frame(VersionField(b), TypeField(b), LengthField(b), CrcField(b), b[HeaderSize..])
  }

  /** Each header field sits at its offset, and the payload starts right after the header. */
  lemma SerializeLayout(f: Frame)
    ensures Serialize(f)[VersionOffset..TypeOffset] == LE(4, f.version)
    ensures Serialize(f)[TypeOffset..LengthOffset] == LE(4, f.ptype)
    ensures Serialize(f)[LengthOffset..CrcOffset] == LE(4, f.length)
    ensures Serialize(f)[CrcOffset..HeaderSize] == LE(2, f.crc)
    ensures Serialize(f)[HeaderSize..] == f.payload
  {
    var b := Serialize(f);
    var a0, a1, a2, a3 := LE(4, f.version), LE(4, f.ptype), LE(4, f.length), LE(2, f.crc);
    assert b == a0 + (a1 + (a2 + (a3 + f.payload)));
  }

  /** Reading a serialised frame back through the struct gives the frame. */
  lemma {:induction false} ParseSerialize(f: Frame)
    ensures ParseFrame(Serialize(f)) == f
  {
    SerializeLayout(f);
    FromLEOfLE(4, f.version);
    FromLEOfLE(4, f.ptype);
    FromLEOfLE(4, f.length);
    FromLEOfLE(2, f.crc);
  }

  // ---------------------------------------------------------------------
  // CRC

  /** The buffer with its two crc bytes set to zero and every other byte kept. */
  function ZeroCrc(b: seq<uint8>): (r: seq<uint8>)
    requires |b| >= HeaderSize
    ensures |r| == |b| && r[CrcOffset] == 0 && r[CrcOffset + 1] == 0
    ensures forall i :: 0 <= i < |b| && i != CrcOffset && i != CrcOffset + 1 ==> r[i] == b[i]
  {
    b[..CrcOffset] + [0, 0] + b[HeaderSize..]
  }

  /** 2^32: size_t and the length parameter of crc16_le are 32 bits wide on the target. */
  const SizeWrap: nat := 0x1_0000_0000

  /**
   * The number of bytes CRC_CHECK hands to crc16_le:
   * `sizeof(wireless_packet_t) + packet->length`, computed in size_t, so
   * a length within 14 of 2^32 wraps around to a span shorter than the
   * header itself.
   */
  function CheckedSpan(b: seq<uint8>): (n: nat)
    requires |b| >= HeaderSize
    ensures n < SizeWrap
    ensures HeaderSize + LengthField(b) < SizeWrap ==> n == HeaderSize + LengthField(b)
    ensures HeaderSize + LengthField(b) >= SizeWrap ==> n == HeaderSize + LengthField(b) - SizeWrap
  {
    (HeaderSize + LengthField(b)) % SizeWrap
  }

  /**
   * What wireless_packet_check reads: the header, and, once the version
   * matches, the CheckedSpan bytes. Nothing in the code compares the
   * declared length with the number of bytes received, so a buffer that
   * does not cover the span is read past its end; the model admits only
   * buffers that cover what is read.
   */
  predicate InBounds(b: seq<uint8>) {
    |b| >= HeaderSize && (VersionField(b) == Version ==> CheckedSpan(b) <= |b|)
  }

  /** The bytes CRC_CHECK hands to crc16_le: the buffer with its crc zeroed, cut to the checked span. */
  function CrcInput(b: seq<uint8>): (r: seq<uint8>)
    requires |b| >= HeaderSize && CheckedSpan(b) <= |b|
    ensures |r| == CheckedSpan(b)
  {
    ZeroCrc(b)[..CheckedSpan(b)]
  }

  predicate CrcMatches(crc: CrcFn, b: seq<uint8>)
    requires |b| >= HeaderSize && CheckedSpan(b) <= |b|
  {
    crc(CrcInit, CrcInput(b)) == CrcField(b)
  }

  /** wireless_packet_check: the version must match; only then is the CRC recomputed. */
  predicate PacketValid(crc: CrcFn, b: seq<uint8>)
    requires InBounds(b)
  {
    VersionField(b) == Version && CrcMatches(crc, b)
  }

  /** The version gate: a wrong version is refused whatever the length field and the CRC say. */
  lemma VersionGate(crc: CrcFn, b: seq<uint8>)
    requires |b| >= HeaderSize && VersionField(b) != Version
    ensures InBounds(b) && !PacketValid(crc, b)
  {
  }

  /** A two-byte little-endian value. */
  lemma FromLE2(s: seq<uint8>)
    requires |s| == 2
    ensures FromLE(s) == s[0] + 256 * (s[1] as int)
  {
    assert s[1..][1..] == [];
    assert FromLE(s[1..]) == s[1] + 256 * FromLE(s[1..][1..]);
  }

  /**
   * CRC_CHECK on the receive buffer in place: save the crc, zero it,
   * recompute over header and declared payload, put the saved crc back.
   */
  method CrcCheck(crc: CrcFn, packet: array<uint8>) returns (ok: bool)
    requires packet.Length >= HeaderSize && CheckedSpan(packet[..]) <= packet.Length
    modifies packet
    ensures packet[..] == old(packet[..])
    ensures ok == CrcMatches(crc, old(packet[..]))
  {
    ghost var b := packet[..];
    var crcRecv: int := packet[CrcOffset] + 256 * (packet[CrcOffset + 1] as int);
    assert crcRecv == CrcField(b) by {
      FromLE2(b[CrcOffset..HeaderSize]);
    }
    var lo, hi := packet[CrcOffset], packet[CrcOffset + 1];
    packet[CrcOffset] := 0;
    packet[CrcOffset + 1] := 0;
    assert packet[..] == ZeroCrc(b);
    Pow256Widths();
    var len: uint32 := FromLE(packet[LengthOffset..CrcOffset]);
    assert len == LengthField(b) by {
      assert packet[LengthOffset..CrcOffset] == b[LengthOffset..CrcOffset];
    }
    var span := (HeaderSize + len) % SizeWrap;
    var crcCalc := crc(CrcInit, packet[..span]);
    packet[CrcOffset] := lo;
    packet[CrcOffset + 1] := hi;
    assert packet[..] == b;
    ok := crcCalc == crcRecv;
  }

  /** wireless_packet_check on a received buffer; the buffer is left byte-identical. */
  method PacketCheck(crc: CrcFn, packet: array<uint8>) returns (ok: bool)
    requires InBounds(packet[..])
    modifies packet
    ensures packet[..] == old(packet[..])
    ensures ok == PacketValid(crc, old(packet[..]))
    ensures VersionField(old(packet[..])) != Version ==> !ok
  {
    Pow256Widths();
    var version: uint32 := FromLE(packet[VersionOffset..TypeOffset]);
    assert version == VersionField(packet[..]) by {
      assert packet[VersionOffset..TypeOffset] == packet[..][VersionOffset..TypeOffset];
    }
    if version != Version {
      return false;
    }
    ok := CrcCheck(crc, packet);
  }

  /**
   * The gate does not bound the declared length: a bare 14-byte header
   * declaring 2^32 - 14 payload bytes wraps the checked span to nothing,
   * so with the crc field set to the CRC of no bytes it passes, and the
   * frame read from it declares far more payload than arrived.
   */
  lemma {:induction false} WrappedLengthPasses(crc: CrcFn)
    ensures var f := Frame(Version, PacketTypeCode(DataPkt), (SizeWrap - HeaderSize) as uint32, crc(CrcInit, []), []);
      var b := Serialize(f);
      |b| == HeaderSize && InBounds(b) && CheckedSpan(b) == 0 && PacketValid(crc, b)
      && ParseFrame(b) == f && f.length as int > |f.payload|
  {
    var f := Frame(Version, PacketTypeCode(DataPkt), (SizeWrap - HeaderSize) as uint32, crc(CrcInit, []), []);
    var b := Serialize(f);
    ParseSerialize(f);
    assert LengthField(b) == SizeWrap - HeaderSize;
    assert CrcInput(b) == [];
  }

  // ---------------------------------------------------------------------
  // Builders

  /** Fill the header with crc 0, then store the CRC-16 of header plus payload. */
  function Seal(crc: CrcFn, f: Frame): (r: Frame)
    ensures r.version == f.version && r.ptype == f.ptype && r.length == f.length && r.payload == f.payload
  {
    f.(crc := crc(CrcInit, Serialize(f.(crc := 0))))
  }

  /** Zeroing the crc bytes of a serialised frame gives the frame serialised with crc 0. */
  lemma ZeroCrcSerialize(f: Frame)
    ensures ZeroCrc(Serialize(f)) == Serialize(f.(crc := 0))
  {
    SerializeLayout(f);
    SerializeLayout(f.(crc := 0));
    var b, z := Serialize(f), Serialize(f.(crc := 0));
    assert LE(2, 0) == [0, 0] by {
      assert LE(2, 0) == [0] + LE(1, 0);
      assert LE(1, 0) == [0] + LE(0, 0);
    }
    assert b[..CrcOffset] == z[..CrcOffset] by {
      assert LE(4, f.version) + LE(4, f.ptype) + LE(4, f.length) == b[..CrcOffset];
      assert LE(4, f.version) + LE(4, f.ptype) + LE(4, f.length) == z[..CrcOffset];
    }
    assert z == z[..CrcOffset] + z[CrcOffset..HeaderSize] + z[HeaderSize..];
  }

  /**
   * The round trip: a sealed frame of the current version whose length
   * is its payload passes wireless_packet_check and reads back as itself.
   */
  lemma {:induction false} SealedFramePasses(crc: CrcFn, f: Frame)
    requires f.version == Version && Exact(f) && HeaderSize + |f.payload| < SizeWrap
    ensures InBounds(Serialize(Seal(crc, f)))
    ensures PacketValid(crc, Serialize(Seal(crc, f)))
    ensures ParseFrame(Serialize(Seal(crc, f))) == Seal(crc, f)
  {
    var g := Seal(crc, f);
    var b := Serialize(g);
    ParseSerialize(g);
    assert VersionField(b) == Version && LengthField(b) == |g.payload|;
    ZeroCrcSerialize(g);
    assert g.(crc := 0) == f.(crc := 0);
    assert CrcInput(b) == Serialize(f.(crc := 0));
  }

  /** send_broadcast_packet: one payload byte, the ruling code. */
  function BroadcastFrame(crc: CrcFn, rulingCode: uint8): (r: Frame)
    ensures r.version == Version && r.ptype == PacketTypeCode(BroadcastPkt) && r.length == 1 && r.payload == [rulingCode]
  {
    var f := Frame(Version, PacketTypeCode(BroadcastPkt), 1, 0, [rulingCode]);
    Seal(crc, f)
  }

  /** send_connect_packet: payload[0] names the handshake step, payload[1] carries the code. */
  function ConnectFrame(crc: CrcFn, step: uint8, code: uint8): (r: Frame)
    ensures r.version == Version && r.ptype == PacketTypeCode(ConnectPkt) && r.length == 2 && r.payload == [step, code]
  {
    var f := Frame(Version, PacketTypeCode(ConnectPkt), 2, 0, [step, code]);
    Seal(crc, f)
  }

  /** send_heartbeat_packet(1): an empty DATA frame. */
  function HeartbeatFrame(crc: CrcFn): (r: Frame)
    ensures r.version == Version && r.ptype == PacketTypeCode(DataPkt) && r.length == 0 && r.payload == []
  {
    var f := Frame(Version, PacketTypeCode(DataPkt), 0, 0, []);
    Seal(crc, f)
  }

  /** send_heartbeat_packet(2) and send_ack_packet: an empty DATA_ACK frame. */
  function DataAckFrame(crc: CrcFn): (r: Frame)
    ensures r.version == Version && r.ptype == PacketTypeCode(DataAckPkt) && r.length == 0 && r.payload == []
  {
    var f := Frame(Version, PacketTypeCode(DataAckPkt), 0, 0, []);
    Seal(crc, f)
  }

  /** A DATA frame carrying the bytes of a queued serial buffer; buf_len_t's length is 16 bits wide. */
  function DataFrame(crc: CrcFn, data: seq<uint8>): (r: Frame)
    requires |data| < 0x1_0000
    ensures r.version == Version && r.ptype == PacketTypeCode(DataPkt) && r.length == |data| && r.payload == data
  {
    var f := Frame(Version, PacketTypeCode(DataPkt), |data|, 0, data);
    Seal(crc, f)
  }
}
