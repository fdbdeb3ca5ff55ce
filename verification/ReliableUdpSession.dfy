// One end of a reliable conversation: an ack tracker and a send window (Common/Net/Reliable/ReliableUdpSession.h).

module ReliableUdpSession {
  import opened Wrappers
  import opened SequenceNumber
  import opened BitWindow
  import opened ReceiveHistory
  import opened PacketWire
  import opened ReliableUdpPacket
  import Protocol = ReliableUdpProtocol
  import Window = ReliableUdpSendWindow

  datatype SessionState = SessionState(tracker: Protocol.AckState, window: Window.WindowState)

  function Opened(config: Window.WindowConfig): SessionState {
    SessionState(Protocol.INITIAL_ACK_STATE, Window.WindowState(1, [], config))
  }

  // Sending.

  /** A header that carries `sequence` and, piggybacked, what has been received so far. */
  function OutgoingHeader(tracker: Protocol.AckState, sequence: SequenceNumber): ReliableHeader {
    if tracker.hasReceivedAny then ReliableHeader(sequence, tracker.latest, tracker.bitfield)
    else ReliableHeader(sequence, 0, Cleared(32))
  }

  datatype SendOutcome = Sent(packet: Bytes) | InvalidGamePacket | SendWindowFull

  /** The checks made before a sequence is spent. An authenticated flag is only found out afterwards. */
  predicate MayBeSent(game: Bytes) {
    var header := DecodeHeader(game);
    && header.Some?
    && !IsReliableHeader(header.value)
    && ProtocolVersionOf(header.value) == PROTOCOL_VERSION
    && header.value.size == |game|
    && IsReliablePacketType(header.value.packetType)
  }

  /** The session after an attempt to send, and how the attempt went. */
  function AfterSend(s: SessionState, game: Bytes, now: int): (SessionState, SendOutcome) {
    if !MayBeSent(game) then (s, InvalidGamePacket)
    else
      var window := Window.Allocated(s.window);
      match Wrapped(OutgoingHeader(s.tracker, s.window.nextSequence), game)
      case None => (s.(window := window), InvalidGamePacket)
      case Some(packet) =>
        if !Window.CanRegister(window, packet) then (s.(window := window), SendWindowFull)
        else (s.(window := Window.Registered(window, s.window.nextSequence, packet, now)), Sent(packet))
  }

  // Receiving.

  datatype ReceiveStatus = AckOnlyProcessed | InvalidAck | DataReceived | DuplicateData

  datatype Received = Received(status: ReceiveStatus, ackPacket: Option<Bytes>)

  function AfterReceive(s: SessionState, view: ReliableView): (SessionState, Received) {
    var h := view.reliableHeader;
    var window := Window.Acked(s.window, h.ackSequence, h.ackBitfield);
    if view.packetHeader.packetType == NONE then
      (s.(window := window),
       Received(if Window.AcksAllocated(s.window, h.ackSequence) then AckOnlyProcessed else InvalidAck, None))
    else
      var tracker := Protocol.Observe(s.tracker, h.sequence);
      (SessionState(tracker, window),
       Received(if Protocol.HasAcked(s.tracker, h.sequence) then DuplicateData else DataReceived,
                Some(AckPacket(OutgoingHeader(tracker, 0)))))
  }

  /** A header acknowledges exactly what was received, as far as its field reaches: 32 behind the newest. */
  lemma HeaderAcknowledgesExactly(tracker: Protocol.AckState, h: History, sequence: SequenceNumber, u: int)
    requires Protocol.Shows(tracker, h) && h.Seen? && Distinguishable(h, u)
    ensures var header := OutgoingHeader(tracker, sequence);
            && header.sequence == sequence
            && (Protocol.IsSequenceAcked(Wrap(u), header.ackSequence, header.ackBitfield) <==> Contains(h, u) && h.latest - u <= Protocol.ACK_BIT_COUNT)
  {
    Protocol.AckedIsSeenInWindow(tracker, h, u);
  }

  /** A packet goes out exactly if it is a plain packet of a reliable type that fits and the window has room. On the wire it carries
      its game packet whole under the next sequence, and it is what the window then waits to have acknowledged. */
  lemma SendingIsExact(s: SessionState, game: Bytes, now: int)
    ensures var (s', outcome) := AfterSend(s, game, now);
            var fits := IsReliableGamePacket(game) && |game| + RELIABLE_HEADER_WIRE_SIZE <= MAX_SERIALIZED_PACKET_SIZE;
            var hasRoom := |s.window.pending| < s.window.config.maxPendingPacketCount;
            && (outcome.Sent? <==> fits && hasRoom) && (outcome == SendWindowFull <==> fits && !hasRoom)
            && s'.tracker == s.tracker && s'.window.config == s.window.config
            && match outcome
               case Sent(packet) =>
                 && s'.window.pending == s.window.pending + [Window.PendingPacket(s.window.nextSequence, packet, now, 0)]
                 && s'.window.nextSequence == Wrap(s.window.nextSequence + 1)
                 && Parsed(packet).Some? && Parsed(packet).value.reliableHeader.sequence == s.window.nextSequence
                 && GamePacketOf(Parsed(packet).value) == Some(game)
               case _ => s'.window.pending == s.window.pending
  {
    hide Parsed, GamePacketOf, DecodeHeader, MayBeSent, IsReliableGamePacket, Wrapped, OutgoingHeader;
    OutgoingIsWhole(s.tracker, s.window.nextSequence, game);
  }

  lemma OutgoingIsWhole(tracker: Protocol.AckState, sequence: SequenceNumber, game: Bytes)
    ensures var packet := Wrapped(OutgoingHeader(tracker, sequence), game);
            && (packet.Some? <==> IsReliableGamePacket(game) && |game| + RELIABLE_HEADER_WIRE_SIZE <= MAX_SERIALIZED_PACKET_SIZE)
            && (packet.Some? ==>
                  && MayBeSent(game) && packet.value != [] && Parsed(packet.value).Some?
                  && Parsed(packet.value).value.reliableHeader.sequence == sequence
                  && GamePacketOf(Parsed(packet.value).value) == Some(game))
  {
    hide Parsed, GamePacketOf, DecodeHeader;
    WrapThenParse(OutgoingHeader(tracker, sequence), game);
    if IsReliableGamePacket(game) {
      ReliableMayBeSent(game);
      FrameIsNotEmpty(OutgoingHeader(tracker, sequence), game);
    }
  }

  lemma ReliableMayBeSent(game: Bytes)
    requires IsReliableGamePacket(game)
    ensures MayBeSent(game)
  {
  }

  lemma FrameIsNotEmpty(header: ReliableHeader, game: Bytes)
    ensures Wrapped(header, game) != Some([])
  {
  }

  /** Every data packet is answered, a duplicate too, and the answer acknowledges it unless it is more than 32 behind the newest. */
  lemma DataIsAnswered(s: SessionState, h: History, view: ReliableView, u: int)
    requires Protocol.Shows(s.tracker, h) && view.packetHeader.packetType != NONE
    requires view.reliableHeader.sequence == Wrap(u) && Distinguishable(h, u)
    ensures var (_, received) := AfterReceive(s, view);
            && received.ackPacket.Some? && Parsed(received.ackPacket.value).Some?
            && var reply := Parsed(received.ackPacket.value).value;
               && reply.packetHeader.packetType == NONE
               && (Protocol.IsSequenceAcked(Wrap(u), reply.reliableHeader.ackSequence, reply.reliableHeader.ackBitfield)
                   <==> h.Nothing? || h.latest - u <= Protocol.ACK_BIT_COUNT)
  {
    hide Parsed, AckPacket;
    var tracker := Protocol.Observe(s.tracker, Wrap(u));
    Protocol.ObserveShows(s.tracker, h, u);
    hide Protocol.Observe, Protocol.Shows;
    HeaderAcknowledgesExactly(tracker, Note(h, u), 0, u);
    AckPacketThenParse(OutgoingHeader(tracker, 0));
  }

  /** At-most-once delivery is not promised outside the window: of three packets numbered
      1, 34 and 1 again, the last is reported as new data a second time. */
  lemma DeliveredTwiceOutsideTheWindow(s: SessionState, first: ReliableView, far: ReliableView)
    requires s.tracker == Protocol.INITIAL_ACK_STATE
    requires first.packetHeader.packetType != NONE && far.packetHeader.packetType != NONE
    requires first.reliableHeader.sequence == 1 && far.reliableHeader.sequence == 34
    ensures var once := AfterReceive(s, first);
            var twice := AfterReceive(once.0, far);
            var thrice := AfterReceive(twice.0, first);
            once.1.status == DataReceived && twice.1.status == DataReceived && thrice.1.status == DataReceived
  {
  }

  /** The session over its two parts. */
  class ReliableUdpSession {
    const ackTracker: Protocol.ReliableAckTracker
    const sendWindow: Window.ReliableUdpSendWindow

    ghost predicate Valid()
      reads this, ackTracker, sendWindow
    {
      ackTracker.Valid()
    }

    function View(): SessionState
      reads this, ackTracker, sendWindow
    {
      SessionState(ackTracker.View(), sendWindow.View())
    }

    constructor ()
      ensures Valid() && fresh(ackTracker) && fresh(sendWindow)
      ensures View() == Opened(Window.DEFAULT_CONFIG)
    {
      ackTracker := new Protocol.ReliableAckTracker();
      sendWindow := new Window.ReliableUdpSendWindow();
    }

    method Configure(maxPendingPacketCount: nat, maxResendCount: int, resendInterval: int)
      requires Valid()
      modifies sendWindow
      ensures Valid()
      ensures View() == old(View()).(window := old(View()).window.(config :=
                Window.WindowConfig(maxPendingPacketCount, Window.ClampedResendCount(maxResendCount), resendInterval)))
    {
      sendWindow.Configure(maxPendingPacketCount, maxResendCount, resendInterval);
    }

    method Reset()
      requires Valid()
      modifies ackTracker, sendWindow
      ensures Valid() && View() == Opened(old(View()).window.config)
    {
      ackTracker.Reset();
      sendWindow.Reset();
    }

    function BuildOutgoingHeader(sequence: SequenceNumber): ReliableHeader
      reads this, ackTracker, sendWindow
    {
      OutgoingHeader(ackTracker.View(), sequence)
    }

    method BuildOutgoingPacket(serializedGamePacket: Bytes, currentTime: int) returns (outcome: SendOutcome)
      requires Valid()
      modifies sendWindow
      ensures Valid()
      ensures (View(), outcome) == AfterSend(old(View()), serializedGamePacket, currentTime)
    {
      var packetHeader := DeserializePacketHeader(serializedGamePacket);
      if packetHeader.None? || IsReliableHeader(packetHeader.value)
         || ProtocolVersionOf(packetHeader.value) != PROTOCOL_VERSION
         || packetHeader.value.size != |serializedGamePacket|
         || !IsReliablePacketType(packetHeader.value.packetType) {
        return InvalidGamePacket;
      }
      var sequence := sendWindow.AllocateSequence();
      var reliableHeader := BuildOutgoingHeader(sequence);
      var packet := BuildReliableUdpPacket(reliableHeader, serializedGamePacket);
      if packet.None? {
        return InvalidGamePacket;
      }
      var registered := sendWindow.RegisterSentPacket(sequence, packet.value, currentTime);
      if !registered {
        return SendWindowFull;
      }
      return Sent(packet.value);
    }

    method ProcessReceivedAck(reliableHeader: ReliableHeader) returns (processed: bool)
      requires Valid()
      modifies sendWindow
      ensures Valid()
      ensures View() == old(View()).(window := Window.Acked(old(View()).window, reliableHeader.ackSequence, reliableHeader.ackBitfield))
      ensures processed == Window.AcksAllocated(old(View()).window, reliableHeader.ackSequence)
    {
      processed := sendWindow.ProcessAck(reliableHeader.ackSequence, reliableHeader.ackBitfield);
    }

    method ProcessReceivedDataHeader(reliableHeader: ReliableHeader) returns (isNew: bool)
      requires Valid()
      modifies ackTracker, sendWindow
      ensures Valid()
      ensures View() == SessionState(Protocol.Observe(old(View()).tracker, reliableHeader.sequence),
                                     Window.Acked(old(View()).window, reliableHeader.ackSequence, reliableHeader.ackBitfield))
      ensures isNew == !Protocol.HasAcked(old(View()).tracker, reliableHeader.sequence)
    {
      var isAlreadyReceived := ackTracker.IsAcked(reliableHeader.sequence);
      ackTracker.ObserveReceivedSequence(reliableHeader.sequence);
      var _ := sendWindow.ProcessAck(reliableHeader.ackSequence, reliableHeader.ackBitfield);
      return !isAlreadyReceived;
    }

    method ProcessReceivedPacket(view: ReliableView) returns (result: Received)
      requires Valid()
      modifies ackTracker, sendWindow
      ensures Valid()
      ensures (View(), result) == AfterReceive(old(View()), view)
    {
      if view.packetHeader.packetType == NONE {
        var processed := ProcessReceivedAck(view.reliableHeader);
        if !processed {
          return Received(InvalidAck, None);
        }
        return Received(AckOnlyProcessed, None);
      }
      var isNewPacket := ProcessReceivedDataHeader(view.reliableHeader);
      // A duplicate is answered as well, so that the peer stops resending it.
      var ackPacket := BuildReliableUdpAckPacket(BuildOutgoingHeader(0));
      return Received(if isNewPacket then DataReceived else DuplicateData, ackPacket);
    }

    method ExtractResendResult(currentTime: int)
      returns (resendPacketList: seq<Window.PendingPacket>, giveUpPacketList: seq<Window.PendingPacket>)
      requires Valid()
      modifies sendWindow
      ensures Valid()
      ensures View() == old(View()).(window := Window.Extracted(old(View()).window, currentTime))
      ensures resendPacketList == Window.ToResend(old(View()).window.pending, currentTime, old(View()).window.config)
      ensures giveUpPacketList == Window.ToGiveUp(old(View()).window.pending, currentTime, old(View()).window.config)
    {
      resendPacketList, giveUpPacketList := sendWindow.ExtractResendResult(currentTime);
    }
  }
}
