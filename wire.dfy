/*
 * Wire-level declarations shared by both link-protocol implementations:
 * fixed-width integers, MAC addresses, the link status and packet type
 * enumerations, and the serial-side buffer descriptor.
 */
module Wire {

  type uint8 = x: int | 0 <= x < 0x100
  type uint16 = x: int | 0 <= x < 0x1_0000
  type uint32 = x: int | 0 <= x < 0x1_0000_0000

  datatype Option<T> = Nothing | Some(value: T)

  /** ESP_NOW_ETH_ALEN */
  const MacLen: nat := 6

  type Mac = s: seq<uint8> | |s| == MacLen witness [0, 0, 0, 0, 0, 0]

  const BroadcastMac: Mac := [0xFF, 0xFF, 0xFF, 0xFF, 0xFF, 0xFF]

  /** IS_BROADCAST_ADDR: the address compares equal to ff:ff:ff:ff:ff:ff. */
  function IsBroadcastAddr(addr: Mac): (b: bool)
    ensures b <==> forall i :: 0 <= i < MacLen ==> addr[i] == 0xFF
  {
    addr == BroadcastMac
  }

  /** wireless_status_t */
  datatype Status = StatusNone | Broadcast | ConnectRst | Connected | Disconnected

  function StatusCode(s: Status): uint8 {
    match s
    case StatusNone => 0
    case Broadcast => 1
    case ConnectRst => 2
    case Connected => 3
    case Disconnected => 4
  }

  /** Reading a status back from its numeric value; WIRELESS_STATUS_MAX_INDEX (5) and above name no status. */
  function StatusFromCode(c: int): (r: Option<Status>)
    ensures r.Some? <==> 0 <= c < 5
    ensures r.Some? ==> StatusCode(r.value) == c
  {
    if c == 0 then Some(StatusNone)
    else if c == 1 then Some(Broadcast)
    else if c == 2 then Some(ConnectRst)
    else if c == 3 then Some(Connected)
    else if c == 4 then Some(Disconnected)
    else Nothing
  }

  /** The five status values are pairwise distinct constants. */
  lemma StatusCodeInjective(s: Status, t: Status)
    ensures StatusCode(s) == StatusCode(t) <==> s == t
    ensures StatusFromCode(StatusCode(s)) == Some(s)
  {
  }

  /** wireless_packet_type_t; there is no heartbeat type: a heartbeat is an empty DATA frame. */
  datatype PacketType = BroadcastPkt | ConnectPkt | DataPkt | DataAckPkt

  function PacketTypeCode(t: PacketType): uint32 {
    match t
    case BroadcastPkt => 0
    case ConnectPkt => 1
    case DataPkt => 2
    case DataAckPkt => 3
  }

  /** The packet type a received 32-bit type field names, if any. */
  function PacketTypeFromCode(c: uint32): (r: Option<PacketType>)
    ensures r.Some? <==> c < 4
    ensures r.Some? ==> PacketTypeCode(r.value) == c
  {
    if c == 0 then Some(BroadcastPkt)
    else if c == 1 then Some(ConnectPkt)
    else if c == 2 then Some(DataPkt)
    else if c == 3 then Some(DataAckPkt)
    else Nothing
  }

  lemma PacketTypeCodeInjective(s: PacketType, t: PacketType)
    ensures PacketTypeCode(s) == PacketTypeCode(t) <==> s == t
    ensures PacketTypeFromCode(PacketTypeCode(s)) == Some(s)
  {
  }

  /**
   * buf_len_t as the serial side queues it: the bytes, and the flag whose
   * low bit says the consumer owns (and must free) the buffer. The length
   * field is 16 bits wide.
   */
  datatype BufLen = BufLen(buf: seq<uint8>, flag: uint8)

  type SendItem = b: BufLen | |b.buf| < 0x1_0000 witness BufLen([], 0)

  /** The queued length always fits the frame's 32-bit length field. */
  function ItemLength(item: SendItem): (n: uint32)
    ensures n == |item.buf| && n < 0x1_0000
  {
    |item.buf|
  }
}
