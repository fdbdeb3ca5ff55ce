// Little-endian wire format and the packet header (Common/Packet/Serialization, Common/Packet/PacketHeader.h).

module PacketWire {
  import opened Wrappers

  type Byte = x: int | 0 <= x < 0x100
  type UInt16 = x: int | 0 <= x < 0x1_0000
  type UInt32 = x: int | 0 <= x < 0x1_0000_0000
  type Bytes = seq<Byte>

  const SERIALIZED_PACKET_HEADER_SIZE := 6
  const MAX_SERIALIZED_PACKET_SIZE := 1200
  const PROTOCOL_VERSION: UInt16 := 5
  const PACKET_HEADER_AUTHENTICATED_FLAG: UInt16 := 0x4000
  const PACKET_HEADER_RELIABLE_FLAG: UInt16 := 0x8000

  // Little-endian numbers.

  function Limit(count: nat): (limit: int)
    ensures limit >= 1
  {
    if count == 0 then 1 else 0x100 * Limit(count - 1)
  }

  /** The `count` lowest bytes of a number, the lowest first. */
  function Digits(v: nat, count: nat): (b: Bytes)
    ensures |b| == count
  {
    if count == 0 then [] else [v % 0x100] + Digits(v / 0x100, count - 1)
  }

  function NumberOf(b: Bytes): (v: nat)
    ensures v < Limit(|b|)
  {
    if b == [] then 0
    else
      var lowest: int := b[0];
      lowest + 0x100 * NumberOf(b[1..])
  }

  lemma {:induction false} DigitsAreReadBack(v: nat, count: nat)
    requires v < Limit(count)
    ensures NumberOf(Digits(v, count)) == v
  {
    if count > 0 {
      DigitsAreReadBack(v / 0x100, count - 1);
      assert Digits(v, count)[1..] == Digits(v / 0x100, count - 1);
    }
  }

  lemma {:induction false} NumberIsWrittenBack(b: Bytes)
    ensures Digits(NumberOf(b), |b|) == b
  {
    if b != [] {
      NumberIsWrittenBack(b[1..]);
      assert NumberOf(b) / 0x100 == NumberOf(b[1..]);
    }
  }

  function Encode16(v: UInt16): (b: Bytes)
    ensures |b| == 2
  {
    Digits(v, 2)
  }

  function Encode32(v: UInt32): (b: Bytes)
    ensures |b| == 4
  {
    Digits(v, 4)
  }

  function Decode16(b: Bytes, offset: nat): UInt16
    requires offset + 2 <= |b|
  {
    assert Limit(2) == 0x1_0000;
    NumberOf(b[offset..offset + 2])
  }

  function Decode32(b: Bytes, offset: nat): UInt32
    requires offset + 4 <= |b|
  {
    assert Limit(1) == 0x100 && Limit(2) == 0x100 * Limit(1) && Limit(3) == 0x100 * Limit(2) && Limit(4) == 0x100 * Limit(3);
    NumberOf(b[offset..offset + 4])
  }

  lemma NumberRoundTrip16(b: Bytes, offset: nat, v: UInt16)
    requires offset + 2 <= |b| && b[offset..offset + 2] == Encode16(v)
    ensures Decode16(b, offset) == v
  {
    DigitsAreReadBack(v, 2);
  }

  lemma NumberRoundTrip32(b: Bytes, offset: nat, v: UInt32)
    requires offset + 4 <= |b| && b[offset..offset + 4] == Encode32(v)
    ensures Decode32(b, offset) == v
  {
    DigitsAreReadBack(v, 4);
  }

  lemma BytesRoundTrip16(b: Bytes, offset: nat)
    requires offset + 2 <= |b|
    ensures Encode16(Decode16(b, offset)) == b[offset..offset + 2]
  {
    NumberIsWrittenBack(b[offset..offset + 2]);
  }

  lemma BytesRoundTrip32(b: Bytes, offset: nat)
    requires offset + 4 <= |b|
    ensures Encode32(Decode32(b, offset)) == b[offset..offset + 4]
  {
    NumberIsWrittenBack(b[offset..offset + 4]);
  }

  /** The number with these four bytes, the lowest first. */
  function Combine(byte0: int, byte1: int, byte2: int, byte3: int): int {
    byte0 + 0x100 * byte1 + 0x1_0000 * byte2 + 0x100_0000 * byte3
  }

  lemma CombineIsNumber(b: Bytes)
    ensures |b| == 2 ==> NumberOf(b) == Combine(b[0], b[1], 0, 0)
    ensures |b| == 4 ==> NumberOf(b) == Combine(b[0], b[1], b[2], b[3])
  {
    if |b| == 2 {
      assert NumberOf(b[2..]) == 0;
      assert b[1..][1..] == b[2..];
    } else if |b| == 4 {
      assert b[1..][1..] == b[2..] && b[2..][1..] == b[3..] && b[3..][1..] == [];
      assert NumberOf(b[3..]) == b[3] && NumberOf(b[2..]) == b[2] + 0x100 * NumberOf(b[3..]);
    }
  }

  lemma FourDigits(v: nat)
    ensures Digits(v, 4) == [v % 0x100, v / 0x100 % 0x100, v / 0x1_0000 % 0x100, v / 0x100_0000 % 0x100]
  {
    assert v / 0x1_0000 == v / 0x100 / 0x100 && v / 0x100_0000 == v / 0x1_0000 / 0x100;
    assert Digits(v / 0x1_0000, 2) == [v / 0x1_0000 % 0x100] + Digits(v / 0x100_0000, 1);
  }

  /** Appends numbers to a growing buffer. */
  class PacketWriter {
    var buffer: Bytes

    constructor ()
      ensures buffer == []
    {
      buffer := [];
    }

    method WriteUInt8(value: Byte)
      modifies this
      ensures buffer == old(buffer) + [value]
    {
      buffer := buffer + [value];
    }

    method WriteUInt16(value: UInt16)
      modifies this
      ensures buffer == old(buffer) + Encode16(value)
    {
      WriteUInt8(value % 0x100);
      WriteUInt8(value / 0x100 % 0x100);
      assert Digits(value / 0x100, 1) == [value / 0x100 % 0x100];
    }

    method WriteUInt32(value: UInt32)
      modifies this
      ensures buffer == old(buffer) + Encode32(value)
    {
      WriteUInt8(value % 0x100);
      WriteUInt8(value / 0x100 % 0x100);
      WriteUInt8(value / 0x1_0000 % 0x100);
      WriteUInt8(value / 0x100_0000 % 0x100);
      FourDigits(value);
    }
  }

  /** Reads numbers off a fixed buffer. A read that does not fit leaves nothing to read. */
  class PacketReader {
    const data: Bytes
    var offset: nat

    ghost predicate Valid()
      reads this
    {
      offset <= |data|
    }

    constructor (data: Bytes)
      ensures Valid() && this.data == data && offset == 0
    {
      this.data := data;
      offset := 0;
    }

    method ReadUInt8() returns (ok: bool, value: Byte)
      requires Valid()
      modifies this`offset
      ensures Valid()
      ensures ok <==> old(offset) + 1 <= |data|
      ensures ok ==> offset == old(offset) + 1 && value == data[old(offset)]
      ensures !ok ==> offset == old(offset)
    {
      if |data| - offset < 1 {
        return false, 0;
      }
      value := data[offset];
      offset := offset + 1;
      return true, value;
    }

    method ReadUInt16() returns (ok: bool, value: UInt16)
      requires Valid()
      modifies this`offset
      ensures Valid()
      ensures ok <==> old(offset) + 2 <= |data|
      ensures ok ==> offset == old(offset) + 2 && value == Decode16(data, old(offset))
      ensures !ok ==> offset == |data|
    {
      var ok0, byte0 := ReadUInt8();
      if !ok0 {
        return false, 0;
      }
      var ok1, byte1 := ReadUInt8();
      if !ok1 {
        return false, 0;
      }
      assert data[old(offset)..offset] == [byte0, byte1];
      CombineIsNumber([byte0, byte1]);
      return true, Combine(byte0, byte1, 0, 0);
    }

    method ReadUInt32() returns (ok: bool, value: UInt32)
      requires Valid()
      modifies this`offset
      ensures Valid()
      ensures ok <==> old(offset) + 4 <= |data|
      ensures ok ==> offset == old(offset) + 4 && value == Decode32(data, old(offset))
      ensures !ok ==> offset == |data|
    {
      var ok0, byte0 := ReadUInt8();
      if !ok0 {
        return false, 0;
      }
      var ok1, byte1 := ReadUInt8();
      if !ok1 {
        return false, 0;
      }
      var ok2, byte2 := ReadUInt8();
      if !ok2 {
        return false, 0;
      }
      var ok3, byte3 := ReadUInt8();
      if !ok3 {
        return false, 0;
      }
      assert data[old(offset)..offset] == [byte0, byte1, byte2, byte3];
      CombineIsNumber([byte0, byte1, byte2, byte3]);
      return true, Combine(byte0, byte1, byte2, byte3);
    }
  }

  // Packet types and their transport.

  const NONE: UInt16 := 0

  /** One entry per packet type, in enumeration order: must it travel on the reliable transport? */
  const PACKET_RELIABILITY_TABLE: seq<bool> :=
    [false,                 // None
     false, false,          // JoinRequest, JoinResponse
     false, false,          // InputCommand, FireRequest
     true,                  // LeaveRequest
     true, true,            // JoinRoomRequest, JoinRoomResponse
     false, false,          // PlayerJoined, PlayerLeft
     false, false, false,   // PlayerSnapshot, BulletSnapshot, ImpactEffect
     false, false,          // AccountLoginRequest, AccountLoginResponse
     true,                  // LeaveResponse
     false,                 // KeepAlive
     true]                  // ServerDisconnect

  const LEAVE_REQUEST: UInt16 := 5
  const JOIN_ROOM_REQUEST: UInt16 := 6
  const JOIN_ROOM_RESPONSE: UInt16 := 7
  const LEAVE_RESPONSE: UInt16 := 15
  const SERVER_DISCONNECT: UInt16 := 17

  predicate IsReliablePacketType(packetType: UInt16) {
    || packetType == LEAVE_REQUEST
    || packetType == JOIN_ROOM_REQUEST
    || packetType == JOIN_ROOM_RESPONSE
    || packetType == LEAVE_RESPONSE
    || packetType == SERVER_DISCONNECT
  }

  /** The table lookup; a type past its end is unreliable. */
  lemma TableListsReliableTypes(packetType: UInt16)
    ensures IsReliablePacketType(packetType)
       <==> packetType < |PACKET_RELIABILITY_TABLE| && PACKET_RELIABILITY_TABLE[packetType]
  {
  }

  predicate IsPacketTransportReliabilityValid(packetType: UInt16, isReliable: bool) {
    if packetType == NONE then isReliable else IsReliablePacketType(packetType) == isReliable
  }

  // The packet header: size, type, and a version whose two top bits are flags.

  datatype PacketHeader = PacketHeader(size: UInt16, packetType: UInt16, version: UInt16)

  function MakePacketHeaderVersion(isReliable: bool, isAuthenticated: bool): UInt16 {
    PROTOCOL_VERSION
    + (if isReliable then PACKET_HEADER_RELIABLE_FLAG else 0)
    + (if isAuthenticated then PACKET_HEADER_AUTHENTICATED_FLAG else 0)
  }

  predicate IsReliableHeader(h: PacketHeader) {
    h.version >= PACKET_HEADER_RELIABLE_FLAG
  }

  predicate IsAuthenticatedHeader(h: PacketHeader) {
    h.version % PACKET_HEADER_RELIABLE_FLAG >= PACKET_HEADER_AUTHENTICATED_FLAG
  }

  function ProtocolVersionOf(h: PacketHeader): UInt16 {
    h.version % PACKET_HEADER_AUTHENTICATED_FLAG
  }

  /** A version field is its two flags and its protocol number. */
  lemma VersionIsFlags(h: PacketHeader)
    requires ProtocolVersionOf(h) == PROTOCOL_VERSION
    ensures h.version == MakePacketHeaderVersion(IsReliableHeader(h), IsAuthenticatedHeader(h))
  {
  }

  lemma FlagsAreReadBack(size: UInt16, packetType: UInt16, isReliable: bool, isAuthenticated: bool)
    ensures var h := PacketHeader(size, packetType, MakePacketHeaderVersion(isReliable, isAuthenticated));
            && IsReliableHeader(h) == isReliable
            && IsAuthenticatedHeader(h) == isAuthenticated
            && ProtocolVersionOf(h) == PROTOCOL_VERSION
  {
  }

  function EncodeHeader(h: PacketHeader): (b: Bytes)
    ensures |b| == SERIALIZED_PACKET_HEADER_SIZE
  {
    Encode16(h.size) + Encode16(h.packetType) + Encode16(h.version)
  }

  function DecodeHeader(b: Bytes): Option<PacketHeader> {
    if |b| < SERIALIZED_PACKET_HEADER_SIZE then None
    else Some(PacketHeader(Decode16(b, 0), Decode16(b, 2), Decode16(b, 4)))
  }

  lemma {:induction false} CombineDigits(v: UInt32)
    ensures v < 0x1_0000 ==> Combine(Digits(v, 2)[0], Digits(v, 2)[1], 0, 0) == v
    ensures Combine(Digits(v, 4)[0], Digits(v, 4)[1], Digits(v, 4)[2], Digits(v, 4)[3]) == v
  {
    CombineIsNumber(Digits(v, 2));
    CombineIsNumber(Digits(v, 4));
    assert Limit(1) == 0x100 && Limit(2) == 0x100 * Limit(1) && Limit(3) == 0x100 * Limit(2) && Limit(4) == 0x100 * Limit(3);
    DigitsAreReadBack(v, 4);
    if v < 0x1_0000 {
      DigitsAreReadBack(v, 2);
    }
  }

  /** Where the fields lie: size, type and version, two bytes each, the lowest first. */
  lemma HeaderLayout(h: PacketHeader)
    ensures var b := EncodeHeader(h);
            |b| == 6 && Combine(b[0], b[1], 0, 0) == h.size && Combine(b[2], b[3], 0, 0) == h.packetType && Combine(b[4], b[5], 0, 0) == h.version
  {
    CombineDigits(h.size);
    CombineDigits(h.packetType);
    CombineDigits(h.version);
  }

  lemma HeaderRoundTrip(h: PacketHeader, rest: Bytes)
    ensures DecodeHeader(EncodeHeader(h) + rest) == Some(h)
  {
    var b := EncodeHeader(h) + rest;
    assert b[0..2] == Encode16(h.size);
    assert b[2..4] == Encode16(h.packetType);
    assert b[4..6] == Encode16(h.version);
    NumberRoundTrip16(b, 0, h.size);
    NumberRoundTrip16(b, 2, h.packetType);
    NumberRoundTrip16(b, 4, h.version);
  }

  lemma HeaderBytesRoundTrip(b: Bytes)
    requires |b| >= SERIALIZED_PACKET_HEADER_SIZE
    ensures EncodeHeader(DecodeHeader(b).value) == b[..SERIALIZED_PACKET_HEADER_SIZE]
  {
    BytesRoundTrip16(b, 0);
    BytesRoundTrip16(b, 2);
    BytesRoundTrip16(b, 4);
    assert b[..6] == b[0..2] + b[2..4] + b[4..6];
  }

  method WritePacketHeader(writer: PacketWriter, packetSize: UInt16, packetType: UInt16, isReliable: bool, isAuthenticated: bool)
    modifies writer
    ensures writer.buffer == old(writer.buffer)
              + EncodeHeader(PacketHeader(packetSize, packetType, MakePacketHeaderVersion(isReliable, isAuthenticated)))
  {
    writer.WriteUInt16(packetSize);
    writer.WriteUInt16(packetType);
    writer.WriteUInt16(MakePacketHeaderVersion(isReliable, isAuthenticated));
  }

  method ReadPacketHeader(reader: PacketReader) returns (header: Option<PacketHeader>)
    requires reader.Valid()
    modifies reader`offset
    ensures reader.Valid()
    ensures header == DecodeHeader(reader.data[old(reader.offset)..])
    ensures header.Some? ==> reader.offset == old(reader.offset) + SERIALIZED_PACKET_HEADER_SIZE
  {
    var ok, size := reader.ReadUInt16();
    if !ok {
      return None;
    }
    var packetType;
    ok, packetType := reader.ReadUInt16();
    if !ok {
      return None;
    }
    var version;
    ok, version := reader.ReadUInt16();
    if !ok {
      return None;
    }
    ghost var start, rest := old(reader.offset), reader.data[old(reader.offset)..];
    assert rest[0..2] == reader.data[start..start + 2];
    assert rest[2..4] == reader.data[start + 2..start + 4];
    assert rest[4..6] == reader.data[start + 4..start + 6];
    return Some(PacketHeader(size, packetType, version));
  }

  method DeserializePacketHeader(packet: Bytes) returns (header: Option<PacketHeader>)
    ensures header == DecodeHeader(packet)
  {
    if |packet| < SERIALIZED_PACKET_HEADER_SIZE {
      return None;
    }
    var reader := new PacketReader(packet);
    assert packet[0..] == packet;
    header := ReadPacketHeader(reader);
  }
}
