// The reliable envelope: packet header, reliable header, payload
// (Common/Net/Reliable/ReliableUdpPacketBuilder.h, ReliableUdpPacketSerialization.h).

module ReliableUdpPacket {
  import opened Wrappers
  import opened SequenceNumber
  import opened BitWindow
  import opened PacketWire

  const RELIABLE_HEADER_WIRE_SIZE := 12
  const PAYLOAD_OFFSET := SERIALIZED_PACKET_HEADER_SIZE + RELIABLE_HEADER_WIRE_SIZE

  datatype ReliableHeader = ReliableHeader(sequence: SequenceNumber, ackSequence: SequenceNumber, ackBitfield: Bits32)

  datatype ReliableView = ReliableView(packetHeader: PacketHeader, reliableHeader: ReliableHeader, payload: Bytes)

  function BitfieldToInt(bits: Bits32): UInt32 {
    Pow2Of32();
    BitsToInt(bits)
  }

  function EncodeReliableHeader(h: ReliableHeader): (b: Bytes)
    ensures |b| == RELIABLE_HEADER_WIRE_SIZE
  {
    Encode32(h.sequence) + Encode32(h.ackSequence) + Encode32(BitfieldToInt(h.ackBitfield))
  }

  function DecodeReliableHeader(b: Bytes, offset: nat): ReliableHeader
    requires offset + RELIABLE_HEADER_WIRE_SIZE <= |b|
  {
    ReliableHeader(Decode32(b, offset), Decode32(b, offset + 4), IntToBits(Decode32(b, offset + 8), 32))
  }

  /** Where the fields lie: sequence, acknowledged sequence and ack field, four bytes each, the lowest first, with bit `i` of the field as
      bit `i` of its number. */
  lemma ReliableHeaderLayout(h: ReliableHeader, i: nat)
    requires i < 32
    ensures var b := EncodeReliableHeader(h);
            && |b| == 12 && Combine(b[0], b[1], b[2], b[3]) == h.sequence && Combine(b[4], b[5], b[6], b[7]) == h.ackSequence
            && Combine(b[8], b[9], b[10], b[11]) >= 0 && (BitOf(Combine(b[8], b[9], b[10], b[11]), i) <==> h.ackBitfield[i])
  {
    CombineDigits(h.sequence);
    CombineDigits(h.ackSequence);
    CombineDigits(BitfieldToInt(h.ackBitfield));
    BitsAreThoseOfTheNumber(h.ackBitfield, i);
    hide BitOf, BitsToInt;
  }

  lemma SliceOfSlice(b: Bytes, offset: nat, length: nat, from: nat, to: nat)
    requires offset + length <= |b| && from <= to <= length
    ensures b[offset + from..offset + to] == b[offset..offset + length][from..to]
  {
    var part, whole := b[offset + from..offset + to], b[offset..offset + length];
    assert forall k :: 0 <= k < to - from ==> part[k] == whole[from..to][k];
  }

  lemma ReliableHeaderRoundTrip(b: Bytes, offset: nat, h: ReliableHeader)
    requires offset + RELIABLE_HEADER_WIRE_SIZE <= |b|
    requires b[offset..offset + RELIABLE_HEADER_WIRE_SIZE] == EncodeReliableHeader(h)
    ensures DecodeReliableHeader(b, offset) == h
  {
    var bits := BitfieldToInt(h.ackBitfield);
    var w := EncodeReliableHeader(h);
    SliceOfSlice(b, offset, RELIABLE_HEADER_WIRE_SIZE, 0, 4);
    SliceOfSlice(b, offset, RELIABLE_HEADER_WIRE_SIZE, 4, 8);
    SliceOfSlice(b, offset, RELIABLE_HEADER_WIRE_SIZE, 8, 12);
    assert w[0..4] == Encode32(h.sequence) && w[4..8] == Encode32(h.ackSequence) && w[8..12] == Encode32(bits);
    NumberRoundTrip32(b, offset, h.sequence);
    NumberRoundTrip32(b, offset + 4, h.ackSequence);
    NumberRoundTrip32(b, offset + 8, bits);
    BitsSurviveTheWire(h.ackBitfield);
  }

  lemma BitfieldIsWrittenBack(value: UInt32)
    ensures BitfieldToInt(IntToBits(value, 32)) == value
  {
    Pow2Of32();
    IntsSurviveTheWire(value, 32);
  }

  lemma ReliableHeaderBytesRoundTrip(b: Bytes, offset: nat)
    requires offset + RELIABLE_HEADER_WIRE_SIZE <= |b|
    ensures EncodeReliableHeader(DecodeReliableHeader(b, offset)) == b[offset..offset + RELIABLE_HEADER_WIRE_SIZE]
  {
    hide Encode32, Decode32, BitsToInt, IntToBits;
    BitfieldIsWrittenBack(Decode32(b, offset + 8));
    BytesRoundTrip32(b, offset);
    BytesRoundTrip32(b, offset + 4);
    BytesRoundTrip32(b, offset + 8);
    assert b[offset..offset + 12] == b[offset..offset + 4] + b[offset + 4..offset + 8] + b[offset + 8..offset + 12];
  }

  /** A whole packet of the given type and body under a plain, unflagged header. */
  predicate IsPlainPacket(packet: Bytes) {
    var header := DecodeHeader(packet);
    && header.Some?
    && header.value.size == |packet|
    && ProtocolVersionOf(header.value) == PROTOCOL_VERSION
    && !IsReliableHeader(header.value)
    && !IsAuthenticatedHeader(header.value)
  }

  /** What the reliable transport accepts from the game: a plain packet of a reliable type. */
  predicate IsReliableGamePacket(packet: Bytes) {
    IsPlainPacket(packet) && IsReliablePacketType(DecodeHeader(packet).value.packetType)
  }

  function Framed(size: nat, packetType: UInt16, isReliable: bool, isAuthenticated: bool): Bytes
    requires size < 0x1_0000
  {
    EncodeHeader(PacketHeader(size, packetType, MakePacketHeaderVersion(isReliable, isAuthenticated)))
  }

  function Wrapped(header: ReliableHeader, game: Bytes): Option<Bytes> {
    if !IsReliableGamePacket(game) then None
    else
      var size := RELIABLE_HEADER_WIRE_SIZE + |game|;
      if size > MAX_SERIALIZED_PACKET_SIZE then None
      else Some(Framed(size, DecodeHeader(game).value.packetType, true, false)
                + EncodeReliableHeader(header) + game[SERIALIZED_PACKET_HEADER_SIZE..])
  }

  function AckPacket(header: ReliableHeader): Bytes {
    Framed(PAYLOAD_OFFSET, NONE, true, false) + EncodeReliableHeader(header)
  }

  function Parsed(packet: Bytes): Option<ReliableView> {
    if |packet| < PAYLOAD_OFFSET then None
    else
      var header := DecodeHeader(packet).value;
      if header.size != |packet| || !IsReliableHeader(header) || ProtocolVersionOf(header) != PROTOCOL_VERSION
         || !IsPacketTransportReliabilityValid(header.packetType, true)
         || (header.packetType == NONE && |packet| != PAYLOAD_OFFSET)
      then None
      else Some(ReliableView(header,
                             DecodeReliableHeader(packet, SERIALIZED_PACKET_HEADER_SIZE),
                             packet[PAYLOAD_OFFSET..]))
  }

  function GamePacketOf(view: ReliableView): Option<Bytes> {
    if !IsReliablePacketType(view.packetHeader.packetType) then None
    else
      var size := SERIALIZED_PACKET_HEADER_SIZE + |view.payload|;
      if size > MAX_SERIALIZED_PACKET_SIZE then None
      else Some(Framed(size, view.packetHeader.packetType, false, false) + view.payload)
  }

  lemma FramedIsReadBack(size: nat, packetType: UInt16, isReliable: bool, isAuthenticated: bool, body: Bytes)
    requires size < 0x1_0000
    ensures var h := DecodeHeader(Framed(size, packetType, isReliable, isAuthenticated) + body);
            && h == Some(PacketHeader(size, packetType, MakePacketHeaderVersion(isReliable, isAuthenticated)))
            && IsReliableHeader(h.value) == isReliable
            && IsAuthenticatedHeader(h.value) == isAuthenticated
            && ProtocolVersionOf(h.value) == PROTOCOL_VERSION
  {
    HeaderRoundTrip(PacketHeader(size, packetType, MakePacketHeaderVersion(isReliable, isAuthenticated)), body);
    FlagsAreReadBack(size, packetType, isReliable, isAuthenticated);
  }

  /** A packet whose header has the current protocol number starts with the frame its header describes. */
  lemma FrameIsPrefix(packet: Bytes)
    requires |packet| >= SERIALIZED_PACKET_HEADER_SIZE
    requires ProtocolVersionOf(DecodeHeader(packet).value) == PROTOCOL_VERSION
    ensures var h := DecodeHeader(packet).value;
            packet == Framed(h.size, h.packetType, IsReliableHeader(h), IsAuthenticatedHeader(h))
                      + packet[SERIALIZED_PACKET_HEADER_SIZE..]
  {
    HeaderBytesRoundTrip(packet);
    VersionIsFlags(DecodeHeader(packet).value);
    assert packet == packet[..SERIALIZED_PACKET_HEADER_SIZE] + packet[SERIALIZED_PACKET_HEADER_SIZE..];
  }

  lemma PartsAreParsed(size: nat, packetType: UInt16, header: ReliableHeader, payload: Bytes)
    requires size == PAYLOAD_OFFSET + |payload| < 0x1_0000
    requires IsPacketTransportReliabilityValid(packetType, true)
    requires packetType == NONE ==> payload == []
    ensures var packet := Framed(size, packetType, true, false) + EncodeReliableHeader(header) + payload;
            Parsed(packet) == Some(ReliableView(PacketHeader(size, packetType, MakePacketHeaderVersion(true, false)), header, payload))
  {
    var frame, middle := Framed(size, packetType, true, false), EncodeReliableHeader(header);
    var packet := frame + middle + payload;
    assert packet == frame + (middle + payload);
    FramedIsReadBack(size, packetType, true, false, middle + payload);
    assert packet[SERIALIZED_PACKET_HEADER_SIZE..PAYLOAD_OFFSET] == middle;
    assert packet[PAYLOAD_OFFSET..] == payload;
    ReliableHeaderRoundTrip(packet, SERIALIZED_PACKET_HEADER_SIZE, header);
  }

  /** Wrapping succeeds on every game packet that leaves room for the reliable header, and
      parsing gives back the header and the very bytes of the game packet. */
  lemma WrapThenParse(header: ReliableHeader, game: Bytes)
    ensures Wrapped(header, game).Some?
       <==> IsReliableGamePacket(game) && |game| + RELIABLE_HEADER_WIRE_SIZE <= MAX_SERIALIZED_PACKET_SIZE
    ensures Wrapped(header, game).Some? ==>
              var view := Parsed(Wrapped(header, game).value);
              && view.Some?
              && view.value.reliableHeader == header
              && view.value.packetHeader.packetType == DecodeHeader(game).value.packetType
              && view.value.payload == game[SERIALIZED_PACKET_HEADER_SIZE..]
              && GamePacketOf(view.value) == Some(game)
  {
    if Wrapped(header, game).Some? {
      PartsAreParsed(|Wrapped(header, game).value|, DecodeHeader(game).value.packetType, header, game[SERIALIZED_PACKET_HEADER_SIZE..]);
      FrameIsPrefix(game);
    }
  }

  lemma AckPacketThenParse(header: ReliableHeader)
    ensures var view := Parsed(AckPacket(header));
            view == Some(ReliableView(PacketHeader(PAYLOAD_OFFSET, NONE, MakePacketHeaderVersion(true, false)), header, []))
  {
    PartsAreParsed(PAYLOAD_OFFSET, NONE, header, []);
    assert AckPacket(header) + [] == AckPacket(header);
  }

  lemma WireIsHeaderAndPayload(packet: Bytes)
    requires Parsed(packet).Some?
    ensures var view := Parsed(packet).value;
            var h := view.packetHeader;
            packet == Framed(|packet|, h.packetType, true, IsAuthenticatedHeader(h))
                      + EncodeReliableHeader(view.reliableHeader) + view.payload
  {
    FrameIsPrefix(packet);
    ReliableHeaderBytesRoundTrip(packet, SERIALIZED_PACKET_HEADER_SIZE);
    var frame, middle, payload := packet[..SERIALIZED_PACKET_HEADER_SIZE], packet[SERIALIZED_PACKET_HEADER_SIZE..PAYLOAD_OFFSET], packet[PAYLOAD_OFFSET..];
    assert packet[SERIALIZED_PACKET_HEADER_SIZE..] == middle + payload;
    assert packet == frame + middle + payload;
  }

  lemma PartsAreWrapped(packetType: UInt16, header: ReliableHeader, payload: Bytes)
    requires IsReliablePacketType(packetType) && PAYLOAD_OFFSET + |payload| <= MAX_SERIALIZED_PACKET_SIZE
    ensures Wrapped(header, Framed(SERIALIZED_PACKET_HEADER_SIZE + |payload|, packetType, false, false) + payload)
         == Some(Framed(PAYLOAD_OFFSET + |payload|, packetType, true, false) + EncodeReliableHeader(header) + payload)
  {
    var size := SERIALIZED_PACKET_HEADER_SIZE + |payload|;
    var game := Framed(size, packetType, false, false) + payload;
    FramedIsReadBack(size, packetType, false, false, payload);
    assert game[SERIALIZED_PACKET_HEADER_SIZE..] == payload;
  }

  /** Every received packet of a reliable type that was not also flagged as authenticated
      is what wrapping its own parts produces. */
  lemma ParseThenWrap(packet: Bytes, view: ReliableView)
    requires |packet| <= MAX_SERIALIZED_PACKET_SIZE
    requires Parsed(packet) == Some(view) && IsReliablePacketType(view.packetHeader.packetType)
    requires !IsAuthenticatedHeader(view.packetHeader)
    ensures GamePacketOf(view).Some? && Wrapped(view.reliableHeader, GamePacketOf(view).value) == Some(packet)
  {
    WireIsHeaderAndPayload(packet);
    assert |packet| == PAYLOAD_OFFSET + |view.payload|;
    PartsAreWrapped(view.packetHeader.packetType, view.reliableHeader, view.payload);
  }

  // The builders and the parser, over the writer and the reader.

  method WriteReliableUdpPacketHeader(writer: PacketWriter, header: ReliableHeader)
    modifies writer
    ensures writer.buffer == old(writer.buffer) + EncodeReliableHeader(header)
  {
    writer.WriteUInt32(header.sequence);
    writer.WriteUInt32(header.ackSequence);
    writer.WriteUInt32(BitfieldToInt(header.ackBitfield));
  }

  method ReadReliableUdpPacketHeader(reader: PacketReader) returns (header: Option<ReliableHeader>)
    requires reader.Valid()
    modifies reader`offset
    ensures reader.Valid()
    ensures header.Some? <==> old(reader.offset) + RELIABLE_HEADER_WIRE_SIZE <= |reader.data|
    ensures header.Some? ==>
              && reader.offset == old(reader.offset) + RELIABLE_HEADER_WIRE_SIZE
              && header.value == DecodeReliableHeader(reader.data, old(reader.offset))
  {
    var ok, sequence := reader.ReadUInt32();
    if !ok {
      return None;
    }
    var ackSequence;
    ok, ackSequence := reader.ReadUInt32();
    if !ok {
      return None;
    }
    var ackBitfield;
    ok, ackBitfield := reader.ReadUInt32();
    if !ok {
      return None;
    }
    return Some(ReliableHeader(sequence, ackSequence, IntToBits(ackBitfield, 32)));
  }

  method BuildReliableUdpPacket(header: ReliableHeader, game: Bytes) returns (packet: Option<Bytes>)
    ensures packet == Wrapped(header, game)
  {
    if |game| < SERIALIZED_PACKET_HEADER_SIZE {
      return None;
    }
    var gameHeader := DeserializePacketHeader(game);
    if gameHeader.None? {
      return None;
    }
    var h := gameHeader.value;
    if IsReliableHeader(h) || IsAuthenticatedHeader(h) || ProtocolVersionOf(h) != PROTOCOL_VERSION
       || !IsReliablePacketType(h.packetType) || h.size != |game| {
      return None;
    }
    var payloadSize := |game| - SERIALIZED_PACKET_HEADER_SIZE;
    var packetSize := PAYLOAD_OFFSET + payloadSize;
    if packetSize > MAX_SERIALIZED_PACKET_SIZE || packetSize > 0xFFFF {
      return None;
    }
    var writer := new PacketWriter();
    WritePacketHeader(writer, packetSize, h.packetType, true, false);
    assert writer.buffer == Framed(packetSize, h.packetType, true, false);
    WriteReliableUdpPacketHeader(writer, header);
    var buffer := writer.buffer + game[SERIALIZED_PACKET_HEADER_SIZE..];
    if |buffer| != packetSize {
      return None;
    }
    return Some(buffer);
  }

  method BuildReliableUdpAckPacket(header: ReliableHeader) returns (packet: Option<Bytes>)
    ensures packet == Some(AckPacket(header))
  {
    var packetSize := PAYLOAD_OFFSET;
    if packetSize > MAX_SERIALIZED_PACKET_SIZE {
      return None;
    }
    var writer := new PacketWriter();
    WritePacketHeader(writer, packetSize, NONE, true, false);
    WriteReliableUdpPacketHeader(writer, header);
    assert writer.buffer == AckPacket(header);
    if |writer.buffer| != packetSize {
      return None;
    }
    return Some(writer.buffer);
  }

  method ParseReliableUdpPacket(packet: Bytes) returns (view: Option<ReliableView>)
    ensures view == Parsed(packet)
  {
    if |packet| < PAYLOAD_OFFSET {
      return None;
    }
    var reader := new PacketReader(packet);
    assert packet[0..] == packet;
    var header := ReadPacketHeader(reader);
    if header.None? || header.value.size != |packet| || !IsReliableHeader(header.value)
       || ProtocolVersionOf(header.value) != PROTOCOL_VERSION
       || !IsPacketTransportReliabilityValid(header.value.packetType, true) {
      return None;
    }
    if header.value.packetType == NONE && |packet| != PAYLOAD_OFFSET {
      return None;
    }
    var reliableHeader := ReadReliableUdpPacketHeader(reader);
    if reliableHeader.None? {
      return None;
    }
    return Some(ReliableView(header.value, reliableHeader.value, packet[PAYLOAD_OFFSET..]));
  }

  method BuildGamePacketFromReliableUdpPacketView(view: ReliableView) returns (packet: Option<Bytes>)
    ensures packet == GamePacketOf(view)
  {
    if !IsReliablePacketType(view.packetHeader.packetType) {
      return None;
    }
    var packetSize := SERIALIZED_PACKET_HEADER_SIZE + |view.payload|;
    if packetSize > MAX_SERIALIZED_PACKET_SIZE || packetSize > 0xFFFF {
      return None;
    }
    var writer := new PacketWriter();
    WritePacketHeader(writer, packetSize, view.packetHeader.packetType, false, false);
    assert writer.buffer == Framed(packetSize, view.packetHeader.packetType, false, false);
    var buffer := writer.buffer + view.payload;
    if |buffer| != packetSize {
      return None;
    }
    return Some(buffer);
  }
}
