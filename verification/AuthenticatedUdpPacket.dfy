// The authenticated envelope: packet, 4-byte sequence, 32-byte tag (Common/Net/Auth/AuthenticatedUdpPacket.cpp).

module AuthenticatedUdpPacket {
  import opened Wrappers
  import opened SequenceNumber
  import opened PacketWire
  import opened ReliableUdpPacket
  import opened SessionToken

  const TAG_SIZE := 32
  const SEQUENCE_WIRE_SIZE := 4
  const TRAILER_WIRE_SIZE := SEQUENCE_WIRE_SIZE + TAG_SIZE

  type Tag = t: Bytes | |t| == TAG_SIZE witness seq(TAG_SIZE, _ => 0)

  /** The keyed hash, of which nothing but its tag length is used. */
  type Authenticator = (SessionToken, Bytes) -> Tag

  datatype AuthenticatedView = AuthenticatedView(packetHeader: PacketHeader, sequence: SequenceNumber, tag: Tag, packet: Bytes)

  function ComputeTag(mac: Authenticator, token: SessionToken, data: Bytes): Option<Tag> {
    if !IsValidSessionToken(token) then None else Some(mac(token, data))
  }

  /** The bytes a tag covers: the re-headed packet and the sequence. */
  function Signed(sequence: SequenceNumber, packet: Bytes): Bytes
    requires SERIALIZED_PACKET_HEADER_SIZE <= |packet| && |packet| + TRAILER_WIRE_SIZE < 0x1_0000
  {
    var h := DecodeHeader(packet).value;
    Framed(|packet| + TRAILER_WIRE_SIZE, h.packetType, IsReliableHeader(h), true)
    + packet[SERIALIZED_PACKET_HEADER_SIZE..] + Encode32(sequence)
  }

  function Authenticated(mac: Authenticator, token: SessionToken, sequence: SequenceNumber, packet: Bytes): Option<Bytes> {
    var header := DecodeHeader(packet);
    if header.None? || header.value.size != |packet| || ProtocolVersionOf(header.value) != PROTOCOL_VERSION
       || IsAuthenticatedHeader(header.value) || |packet| + TRAILER_WIRE_SIZE > MAX_SERIALIZED_PACKET_SIZE
    then None
    else
      var signed := Signed(sequence, packet);
      match ComputeTag(mac, token, signed)
      case None => None
      case Some(tag) => Some(signed + tag)
  }

  /** Where the parts lie: the packet under its new header, the sequence in four bytes, the lowest first, and the tag of all that precedes it. */
  lemma TrailerLayout(mac: Authenticator, token: SessionToken, sequence: SequenceNumber, packet: Bytes)
    requires Authenticated(mac, token, sequence, packet).Some?
    ensures var wire, n := Authenticated(mac, token, sequence, packet).value, |packet|;
            && n >= SERIALIZED_PACKET_HEADER_SIZE && |wire| == n + 36
            && wire[SERIALIZED_PACKET_HEADER_SIZE..n] == packet[SERIALIZED_PACKET_HEADER_SIZE..]
            && Combine(wire[n], wire[n + 1], wire[n + 2], wire[n + 3]) == sequence
            && wire[n + 4..] == mac(token, wire[..n + 4])
  {
    hide EncodeHeader, Decode16, Digits;
    var signed, wire, n := Signed(sequence, packet), Authenticated(mac, token, sequence, packet).value, |packet|;
    assert wire == signed + mac(token, signed) && |signed| == n + 4;
    assert wire[..n + 4] == signed && wire[n + 4..] == mac(token, signed);
    CombineDigits(sequence);
    assert signed[n..] == Encode32(sequence);
    assert forall k :: 0 <= k < 4 ==> wire[n + k] == Encode32(sequence)[k];
  }

  function ParseAuthenticated(packet: Bytes): Option<AuthenticatedView> {
    if |packet| < SERIALIZED_PACKET_HEADER_SIZE + TRAILER_WIRE_SIZE then None
    else
      var header := DecodeHeader(packet).value;
      if header.size != |packet| || ProtocolVersionOf(header) != PROTOCOL_VERSION || !IsAuthenticatedHeader(header) then None
      else
        var tagOffset := |packet| - TAG_SIZE;
        Some(AuthenticatedView(header, Decode32(packet, tagOffset - SEQUENCE_WIRE_SIZE), packet[tagOffset..], packet))
  }

  predicate VerifyAuthenticatedUdpPacket(mac: Authenticator, token: SessionToken, view: AuthenticatedView) {
    && |view.packet| >= TRAILER_WIRE_SIZE
    && ComputeTag(mac, token, view.packet[..|view.packet| - TAG_SIZE]) == Some(view.tag)
  }

  function Stripped(view: AuthenticatedView): Option<Bytes> {
    if !IsAuthenticatedHeader(view.packetHeader) || |view.packet| != view.packetHeader.size
       || |view.packet| < SERIALIZED_PACKET_HEADER_SIZE + TRAILER_WIRE_SIZE
    then None
    else
      var size := |view.packet| - TRAILER_WIRE_SIZE;
      Some(Framed(size, view.packetHeader.packetType, IsReliableHeader(view.packetHeader), false)
           + view.packet[SERIALIZED_PACKET_HEADER_SIZE..size])
  }

  /** Authentication succeeds on every well-formed packet with room for the trailer under a valid
      token, and then parsing, verifying and stripping give back the sequence and the bytes. */
  lemma AuthenticateThenStrip(mac: Authenticator, token: SessionToken, sequence: SequenceNumber, packet: Bytes)
    ensures (Authenticated(mac, token, sequence, packet).Some?
             <==> (&& IsFramedPacket(packet)
                   && |packet| + TRAILER_WIRE_SIZE <= MAX_SERIALIZED_PACKET_SIZE
                   && IsValidSessionToken(token)))
    ensures Authenticated(mac, token, sequence, packet).Some? ==>
              var view := ParseAuthenticated(Authenticated(mac, token, sequence, packet).value);
              && view.Some?
              && view.value.sequence == sequence
              && VerifyAuthenticatedUdpPacket(mac, token, view.value)
              && Stripped(view.value) == Some(packet)
  {
    if Authenticated(mac, token, sequence, packet).Some? {
      SignedIsReadBack(sequence, packet, mac(token, Signed(sequence, packet)));
    }
  }

  lemma SignedIsReadBack(sequence: SequenceNumber, packet: Bytes, tag: Tag)
    requires IsFramedPacket(packet) && |packet| + TRAILER_WIRE_SIZE < 0x1_0000
    ensures var wire := Signed(sequence, packet) + tag;
            var h := DecodeHeader(packet).value;
            && ParseAuthenticated(wire) == Some(AuthenticatedView(
                 PacketHeader(|wire|, h.packetType, MakePacketHeaderVersion(IsReliableHeader(h), true)), sequence, tag, wire))
            && wire[..|wire| - TAG_SIZE] == Signed(sequence, packet)
            && Stripped(ParseAuthenticated(wire).value) == Some(packet)
  {
    var h := DecodeHeader(packet).value;
    var body := packet[SERIALIZED_PACKET_HEADER_SIZE..];
    var wire := Signed(sequence, packet) + tag;
    var frame := Framed(|wire|, h.packetType, IsReliableHeader(h), true);
    assert wire == frame + (body + Encode32(sequence) + tag);
    FramedIsReadBack(|wire|, h.packetType, IsReliableHeader(h), true, body + Encode32(sequence) + tag);
    assert wire[|wire| - TRAILER_WIRE_SIZE..|wire| - TAG_SIZE] == Encode32(sequence);
    assert wire[|wire| - TAG_SIZE..] == tag;
    NumberRoundTrip32(wire, |wire| - TRAILER_WIRE_SIZE, sequence);
    assert wire[SERIALIZED_PACKET_HEADER_SIZE..|packet|] == body;
    FrameIsPrefix(packet);
  }

  /** A whole packet under the current protocol number, not yet authenticated. */
  predicate IsFramedPacket(packet: Bytes) {
    var header := DecodeHeader(packet);
    header.Some? && header.value.size == |packet| && ProtocolVersionOf(header.value) == PROTOCOL_VERSION && !IsAuthenticatedHeader(header.value)
  }

  /** Stripping a parsed packet gives a whole packet whose signed form is the received one without its tag. */
  lemma StrippedIsSigned(wire: Bytes, view: AuthenticatedView)
    requires |wire| < 0x1_0000 && ParseAuthenticated(wire) == Some(view)
    ensures Stripped(view).Some?
    ensures var packet := Stripped(view).value;
            && |packet| == |wire| - TRAILER_WIRE_SIZE
            && IsFramedPacket(packet)
            && Signed(view.sequence, packet) == wire[..|wire| - TAG_SIZE]
  {
    var h := view.packetHeader;
    var size := |wire| - TRAILER_WIRE_SIZE;
    var body := wire[SERIALIZED_PACKET_HEADER_SIZE..size];
    var packet := Framed(size, h.packetType, IsReliableHeader(h), false) + body;
    FramedIsReadBack(size, h.packetType, IsReliableHeader(h), false, body);
    assert packet[SERIALIZED_PACKET_HEADER_SIZE..] == body;
    WireIsSigned(wire);
  }

  lemma WireIsSigned(wire: Bytes)
    requires ParseAuthenticated(wire).Some?
    ensures var view := ParseAuthenticated(wire).value;
            wire[..|wire| - TAG_SIZE]
            == Framed(|wire|, view.packetHeader.packetType, IsReliableHeader(view.packetHeader), true)
               + wire[SERIALIZED_PACKET_HEADER_SIZE..|wire| - TRAILER_WIRE_SIZE] + Encode32(view.sequence)
  {
    FrameIsPrefix(wire);
    BytesRoundTrip32(wire, |wire| - TRAILER_WIRE_SIZE);
  }

  /** The bytes are some whole packet with some sequence and some tag. */
  ghost predicate IsSigned(wire: Bytes) {
    exists sequence, packet, tag: Tag :: IsFramedPacket(packet) && |packet| + TRAILER_WIRE_SIZE < 0x1_0000 && Signed(sequence, packet) + tag == wire
  }

  ghost predicate IsAuthentic(mac: Authenticator, token: SessionToken, wire: Bytes) {
    exists sequence, packet :: Authenticated(mac, token, sequence, packet) == Some(wire)
  }

  /** What parses is exactly what carries a whole packet, a sequence and a tag, whoever signed it. */
  lemma ParsedIffSigned(wire: Bytes)
    requires |wire| < 0x1_0000
    ensures ParseAuthenticated(wire).Some? <==> IsSigned(wire)
  {
    match ParseAuthenticated(wire)
    case Some(view) =>
      StrippedIsSigned(wire, view);
      assert Signed(view.sequence, Stripped(view).value) + view.tag == wire;
    case None =>
      forall sequence, packet, tag: Tag | IsFramedPacket(packet) && |packet| + TRAILER_WIRE_SIZE < 0x1_0000
        ensures Signed(sequence, packet) + tag != wire
      {
        SignedIsReadBack(sequence, packet, tag);
      }
  }

  /** And what verifies is exactly what was authenticated under the token. */
  lemma VerifiedIffAuthentic(mac: Authenticator, token: SessionToken, wire: Bytes)
    requires |wire| <= MAX_SERIALIZED_PACKET_SIZE
    ensures IsAuthentic(mac, token, wire)
       <==> ParseAuthenticated(wire).Some? && VerifyAuthenticatedUdpPacket(mac, token, ParseAuthenticated(wire).value)
  {
    hide ParseAuthenticated, VerifyAuthenticatedUdpPacket, Authenticated, Stripped;
    if ParseAuthenticated(wire).Some? && VerifyAuthenticatedUdpPacket(mac, token, ParseAuthenticated(wire).value) {
      StripThenAuthenticate(mac, token, wire);
    } else {
      forall sequence, packet
        ensures Authenticated(mac, token, sequence, packet) != Some(wire)
      {
        AuthenticateThenStrip(mac, token, sequence, packet);
      }
    }
  }

  /** Re-authenticating what was stripped from a verified packet reproduces the packet byte for byte. */
  lemma StripThenAuthenticate(mac: Authenticator, token: SessionToken, wire: Bytes)
    requires |wire| <= MAX_SERIALIZED_PACKET_SIZE
    requires ParseAuthenticated(wire).Some? && VerifyAuthenticatedUdpPacket(mac, token, ParseAuthenticated(wire).value)
    ensures var view := ParseAuthenticated(wire).value;
            && Stripped(view).Some?
            && Authenticated(mac, token, view.sequence, Stripped(view).value) == Some(wire)
  {
    StrippedIsSigned(wire, ParseAuthenticated(wire).value);
    assert wire == wire[..|wire| - TAG_SIZE] + wire[|wire| - TAG_SIZE..];
  }

  // The builders and the parser, over the writer and the reader.

  method BuildAuthenticatedUdpPacket(mac: Authenticator, token: SessionToken, sequence: SequenceNumber, packet: Bytes)
    returns (wire: Option<Bytes>)
    ensures wire == Authenticated(mac, token, sequence, packet)
  {
    var packetHeader := DeserializePacketHeader(packet);
    if packetHeader.None? {
      return None;
    }
    var h := packetHeader.value;
    if h.size != |packet| || ProtocolVersionOf(h) != PROTOCOL_VERSION || IsAuthenticatedHeader(h) {
      return None;
    }
    var authenticatedPacketSize := |packet| + TRAILER_WIRE_SIZE;
    if authenticatedPacketSize > MAX_SERIALIZED_PACKET_SIZE || authenticatedPacketSize > 0xFFFF {
      return None;
    }
    var headerWriter := new PacketWriter();
    WritePacketHeader(headerWriter, authenticatedPacketSize, h.packetType, IsReliableHeader(h), true);
    assert headerWriter.buffer == Framed(authenticatedPacketSize, h.packetType, IsReliableHeader(h), true);
    var buffer := headerWriter.buffer + packet[SERIALIZED_PACKET_HEADER_SIZE..];
    var sequenceWriter := new PacketWriter();
    sequenceWriter.WriteUInt32(sequence);
    assert sequenceWriter.buffer == Encode32(sequence);
    buffer := buffer + sequenceWriter.buffer;
    var tag := ComputeTag(mac, token, buffer);
    if tag.None? {
      return None;
    }
    buffer := buffer + tag.value;
    if |buffer| != authenticatedPacketSize {
      return None;
    }
    return Some(buffer);
  }

  /** Reads the sequence through a reader that sees nothing else of the packet. */
  method ReadSequenceAt(packet: Bytes, sequenceOffset: nat) returns (sequence: Option<SequenceNumber>)
    requires sequenceOffset + SEQUENCE_WIRE_SIZE <= |packet|
    ensures sequence == Some(Decode32(packet, sequenceOffset))
  {
    var sequenceReader := new PacketReader(packet[sequenceOffset..sequenceOffset + SEQUENCE_WIRE_SIZE]);
    var ok, value := sequenceReader.ReadUInt32();
    if !ok || sequenceReader.offset != |sequenceReader.data| {
      return None;
    }
    assert sequenceReader.data[0..SEQUENCE_WIRE_SIZE] == packet[sequenceOffset..sequenceOffset + SEQUENCE_WIRE_SIZE];
    return Some(value);
  }

  method ParseAuthenticatedUdpPacket(packet: Bytes) returns (view: Option<AuthenticatedView>)
    ensures view == ParseAuthenticated(packet)
  {
    if |packet| < SERIALIZED_PACKET_HEADER_SIZE + TRAILER_WIRE_SIZE {
      return None;
    }
    var packetHeader := DeserializePacketHeader(packet);
    if packetHeader.None? {
      return None;
    }
    var h := packetHeader.value;
    if h.size != |packet| || ProtocolVersionOf(h) != PROTOCOL_VERSION || !IsAuthenticatedHeader(h) {
      return None;
    }
    var sequenceOffset := |packet| - TAG_SIZE - SEQUENCE_WIRE_SIZE;
    var sequence := ReadSequenceAt(packet, sequenceOffset);
    if sequence.None? {
      return None;
    }
    var tagOffset := |packet| - TAG_SIZE;
    return Some(AuthenticatedView(h, sequence.value, packet[tagOffset..], packet));
  }

  method BuildUnauthenticatedUdpPacket(view: AuthenticatedView) returns (packet: Option<Bytes>)
    ensures packet == Stripped(view)
  {
    if !IsAuthenticatedHeader(view.packetHeader) {
      return None;
    }
    if |view.packet| != view.packetHeader.size {
      return None;
    }
    if |view.packet| < SERIALIZED_PACKET_HEADER_SIZE + TRAILER_WIRE_SIZE {
      return None;
    }
    var packetSize := |view.packet| - TRAILER_WIRE_SIZE;
    var writer := new PacketWriter();
    WritePacketHeader(writer, packetSize, view.packetHeader.packetType, IsReliableHeader(view.packetHeader), false);
    assert writer.buffer == Framed(packetSize, view.packetHeader.packetType, IsReliableHeader(view.packetHeader), false);
    var buffer := writer.buffer + view.packet[SERIALIZED_PACKET_HEADER_SIZE..packetSize];
    if |buffer| != packetSize {
      return None;
    }
    return Some(buffer);
  }

  lemma FrameIsFramed(packetType: UInt16, isReliable: bool, body: Bytes)
    requires SERIALIZED_PACKET_HEADER_SIZE + |body| < 0x1_0000
    ensures IsFramedPacket(Framed(SERIALIZED_PACKET_HEADER_SIZE + |body|, packetType, isReliable, false) + body)
  {
    FramedIsReadBack(SERIALIZED_PACKET_HEADER_SIZE + |body|, packetType, isReliable, false, body);
  }

  lemma WrappedIsFramed(header: ReliableHeader, game: Bytes)
    requires Wrapped(header, game).Some?
    ensures IsFramedPacket(Wrapped(header, game).value)
    ensures |Wrapped(header, game).value| == RELIABLE_HEADER_WIRE_SIZE + |game|
  {
    var packetType := DecodeHeader(game).value.packetType;
    var middle, payload := EncodeReliableHeader(header), game[SERIALIZED_PACKET_HEADER_SIZE..];
    var frame := Framed(RELIABLE_HEADER_WIRE_SIZE + |game|, packetType, true, false);
    FrameIsFramed(packetType, true, middle + payload);
    assert frame + middle + payload == frame + (middle + payload);
  }

  /** The whole journey of a reliable game packet through both envelopes. It starts exactly when the
      packet is a reliable game packet of at most 1152 bytes and the token is valid, and it always
      ends with the same bytes, the same reliable header and the same authentication sequence. */
  lemma EnvelopesRoundTrip(mac: Authenticator, token: SessionToken, sequence: SequenceNumber, header: ReliableHeader, game: Bytes)
    requires IsValidSessionToken(token)
    ensures (Wrapped(header, game).Some? && Authenticated(mac, token, sequence, Wrapped(header, game).value).Some?)
       <==> IsReliableGamePacket(game) && |game| <= 1152
    ensures IsReliableGamePacket(game) && |game| <= 1152 ==>
              var wire := Authenticated(mac, token, sequence, Wrapped(header, game).value).value;
              var received := ParseAuthenticated(wire);
              && received.Some?
              && received.value.sequence == sequence
              && VerifyAuthenticatedUdpPacket(mac, token, received.value)
              && Stripped(received.value).Some?
              && var inner := Parsed(Stripped(received.value).value);
                 inner.Some? && inner.value.reliableHeader == header && GamePacketOf(inner.value) == Some(game)
  {
    WrapThenParse(header, game);
    if Wrapped(header, game).Some? {
      WrappedIsFramed(header, game);
      AuthenticateThenStrip(mac, token, sequence, Wrapped(header, game).value);
    }
  }
}
