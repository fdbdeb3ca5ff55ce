// Two reliable sessions over a network that loses, duplicates, delays and reorders.
//
// The network only ever grows: a datagram once sent may be delivered at any later time, any number
// of times, or never. Beside the bytes each datagram carries the unwrapped numbers it was built from.

module ReliableConversation {
  import opened Wrappers
  import opened SequenceNumber
  import opened BitWindow
  import opened ReceiveHistory
  import opened PacketWire
  import opened ReliableUdpPacket
  import Protocol = ReliableUdpProtocol
  import Window = ReliableUdpSendWindow
  import Ledger = SendLedger
  import Session = ReliableUdpSession

  /** Bytes on the network, what they parse to, the number of the data they carry (0 for an ack
      alone), the newest number they acknowledge (0 for none), and all that their builder had received by then. */
  datatype Datagram = Datagram(wire: Bytes, view: ReliableView, dataId: int, ackId: int, seen: set<int>)

  /** One session with its accounts: everything it sent, received, reported as new, and whether it refused an ack. */
  datatype Side = Side(
    tracker: Protocol.AckState,
    ledger: Ledger.Ledger,
    received: History,
    reported: set<int>,
    hasRefusedAck: bool)

  datatype Action =
    | Send(game: Bytes, now: int)
    | Receive(datagram: Datagram)
    | Resend(time: int)

  function SessionOf(x: Side): Session.SessionState {
    Session.SessionState(x.tracker, x.ledger.window)
  }

  function NewestReceived(x: Side): int {
    if x.received.Seen? then x.received.latest else 0
  }

  function NumbersOf(h: History): set<int> {
    if h.Seen? then h.numbers else {}
  }

  function NextHeader(x: Side): ReliableHeader {
    Session.OutgoingHeader(x.tracker, x.ledger.window.nextSequence)
  }

  /** A wrapped packet is registered and, if there was room for it, put on the network. */
  function Sending(x: Side, out: set<Datagram>, packet: Bytes, view: ReliableView, now: int): (Side, set<Datagram>) {
    var x' := x.(ledger := Ledger.AfterSend(x.ledger, packet, now));
    (x', if Window.CanRegister(x.ledger.window, packet)
         then out + {Datagram(packet, view, x'.ledger.lastAllocated, NewestReceived(x), NumbersOf(x.received))}
         else out)
  }

  function AfterSend(x: Side, out: set<Datagram>, game: Bytes, now: int): (Side, set<Datagram>) {
    if !Session.MayBeSent(game) then (x, out)
    else
      match Wrapped(NextHeader(x), game)
      case None => (x.(ledger := Ledger.AfterAllocate(x.ledger)), out)
      case Some(packet) =>
        WrapThenParse(NextHeader(x), game);
        Sending(x, out, packet, Parsed(packet).value, now)
  }

  function AckView(header: ReliableHeader): ReliableView {
    ReliableView(PacketHeader(PAYLOAD_OFFSET, NONE, MakePacketHeaderVersion(true, false)), header, [])
  }

  function AckDatagram(header: ReliableHeader, ackId: int, seen: set<int>): Datagram {
    Datagram(AckPacket(header), AckView(header), 0, ackId, seen)
  }

  /** The number that the data's 32 bits stand for at the receiver: its own, if they can still tell it apart. */
  function PlaceOf(received: History, dataId: int, sequence: SequenceNumber): int {
    if Distinguishable(received, dataId) then dataId else ReceiveHistory.NumberOf(received, sequence)
  }

  function Receiving(x: Side, out: set<Datagram>, view: ReliableView, dataId: int): (Side, set<Datagram>) {
    var h := view.reliableHeader;
    var x' := x.(ledger := Ledger.AfterAck(x.ledger, h.ackSequence, h.ackBitfield),
                 hasRefusedAck := x.hasRefusedAck || !Window.AcksAllocated(x.ledger.window, h.ackSequence));
    if view.packetHeader.packetType == NONE then (x', out)
    else
      var x'' := x'.(
        tracker := Protocol.Observe(x.tracker, h.sequence),
        received := Note(x.received, PlaceOf(x.received, dataId, h.sequence)),
        reported := if Protocol.HasAcked(x.tracker, h.sequence) then x.reported else x.reported + {dataId});
      (x'', out + {AckDatagram(Session.OutgoingHeader(x''.tracker, 0), NewestReceived(x''), NumbersOf(x''.received))})
  }

  function AfterReceive(x: Side, out: set<Datagram>, d: Datagram): (Side, set<Datagram>) {
    match Parsed(d.wire)
    case None => (x, out)
    case Some(view) => Receiving(x, out, view, d.dataId)
  }

  /** A resent packet is bytes the network already holds (see ResendsAreOnTheNetwork). */
  function Act(x: Side, out: set<Datagram>, a: Action): (Side, set<Datagram>) {
    match a
    case Send(game, now) => AfterSend(x, out, game, now)
    case Receive(d) => AfterReceive(x, out, d)
    case Resend(now) => (x.(ledger := Ledger.AfterExtract(x.ledger, now)), out)
  }

  /** The accounts ride along with the session's own transitions. */
  lemma SideRunsTheSession(x: Side, out: set<Datagram>, a: Action)
    ensures var (x', out') := Act(x, out, a);
            && out <= out'
            && (a.Send? ==>
                  var (session, outcome) := Session.AfterSend(SessionOf(x), a.game, a.now);
                  SessionOf(x') == session && (outcome.Sent? ==> exists d :: d in out' && d.wire == outcome.packet))
            && (a.Receive? && Parsed(a.datagram.wire).Some? ==>
                  var (session, result) := Session.AfterReceive(SessionOf(x), Parsed(a.datagram.wire).value);
                  && SessionOf(x') == session
                  && x'.reported == x.reported + (if result.status == Session.DataReceived then {a.datagram.dataId} else {})
                  && (result.status == Session.InvalidAck ==> x'.hasRefusedAck)
                  && (x'.hasRefusedAck && !x.hasRefusedAck && result.ackPacket.None? ==> result.status == Session.InvalidAck)
                  && (result.ackPacket.Some? ==> exists d :: d in out' && d.wire == result.ackPacket.value))
            && (a.Resend? ==> SessionOf(x').window == Window.Extracted(SessionOf(x).window, a.time) && x'.tracker == x.tracker)
  {
    match a {
      case Send(game, now) => SendRunsTheSession(x, out, game, now);
      case Receive(d) =>
        if Parsed(d.wire).Some? {
          ReceiveRunsTheSession(x, out, d);
        }
      case Resend(_) =>
    }
  }

  lemma SendRunsTheSession(x: Side, out: set<Datagram>, game: Bytes, now: int)
    ensures var (x', out') := Act(x, out, Send(game, now));
            var (session, outcome) := Session.AfterSend(SessionOf(x), game, now);
            SessionOf(x') == session && (outcome.Sent? ==> exists d :: d in out' && d.wire == outcome.packet)
  {
    hide Wrapped, Parsed, GamePacketOf, DecodeHeader;
    var (x', out') := Act(x, out, Send(game, now));
    var (session, outcome) := Session.AfterSend(SessionOf(x), game, now);
    if outcome.Sent? {
      WrapThenParse(NextHeader(x), game);
      var view := Parsed(outcome.packet).value;
      assert Datagram(outcome.packet, view, x'.ledger.lastAllocated, NewestReceived(x), NumbersOf(x.received)) in out';
    }
  }

  lemma ReceiveRunsTheSession(x: Side, out: set<Datagram>, d: Datagram)
    requires Parsed(d.wire).Some?
    ensures var (x', out') := Act(x, out, Receive(d));
            var (session, result) := Session.AfterReceive(SessionOf(x), Parsed(d.wire).value);
            && SessionOf(x') == session
            && x'.reported == x.reported + (if result.status == Session.DataReceived then {d.dataId} else {})
            && (result.status == Session.InvalidAck ==> x'.hasRefusedAck)
            && (x'.hasRefusedAck && !x.hasRefusedAck && result.ackPacket.None? ==> result.status == Session.InvalidAck)
            && (result.ackPacket.Some? ==> exists d' :: d' in out' && d'.wire == result.ackPacket.value)
  {
    var (x', out') := Act(x, out, Receive(d));
    var (session, result) := Session.AfterReceive(SessionOf(x), Parsed(d.wire).value);
    if result.ackPacket.Some? {
      assert AckDatagram(Session.OutgoingHeader(x'.tracker, 0), NewestReceived(x'), NumbersOf(x'.received)) in out';
    }
  }

  // Which deliveries are true.

  /** The ack counts for this pending packet: its number lies at most 32 behind the acknowledged one, as far as 32 bits
      can tell, and its bit is set. */
  predicate Hits(t: Ledger.Tracked, h: ReliableHeader, ackId: int) {
    var behind := (ackId - t.id) % RANGE;
    behind == 0 || (behind <= Protocol.ACK_BIT_COUNT && h.ackBitfield[behind - 1])
  }

  /** The packet is one or more full turns of the sequence space away from where the ack means it to be. */
  predicate IsTurnsAway(t: Ledger.Tracked, ackId: int) {
    !(0 <= ackId - t.id < RANGE)
  }

  /** As far as 32 bits can tell, the ack is of no number after the last one allocated; 0 always passes. */
  predicate SeemsAllocated(lastAllocated: int, ackId: int) {
    Wrap(ackId) == 0 || !(0 < (ackId - lastAllocated) % RANGE < HALF_RANGE)
  }

  /** The ack is not refused, and it counts for no packet turns away that the other side has not reported. */
  ghost predicate AckIsTrue(x: Side, d: Datagram, reportedThere: set<int>) {
    && SeemsAllocated(x.ledger.lastAllocated, d.ackId)
    && forall t :: t in x.ledger.tracked && Hits(t, d.view.reliableHeader, d.ackId) && IsTurnsAway(t, d.ackId) ==> t.id in reportedThere
  }

  /** The data is placed where it belongs; or on a number already reported, and it is not reported anew. */
  ghost predicate DataIsTrue(x: Side, d: Datagram) {
    d.dataId != 0 ==>
      var place := PlaceOf(x.received, d.dataId, d.view.reliableHeader.sequence);
      || place == d.dataId
      || (place in x.reported && (NewestReceived(x) - place <= Protocol.ACK_BIT_COUNT || d.dataId in x.reported))
  }

  ghost predicate IsTrueDelivery(x: Side, d: Datagram, reportedThere: set<int>) {
    AckIsTrue(x, d, reportedThere) && DataIsTrue(x, d)
  }

  /** 32 bits suffice to place this datagram: its data among what was received, its ack among what is pending. */
  ghost predicate WithinReach(x: Side, d: Datagram) {
    && (d.dataId != 0 ==> Distinguishable(x.received, d.dataId))
    && x.ledger.lastAllocated - d.ackId < HALF_RANGE
    && forall t :: t in x.ledger.tracked ==> d.ackId - t.id <= HALF_RANGE
  }

  // What holds between a sender and its receiver.

  predicate Genuine(d: Datagram) {
    Parsed(d.wire) == Some(d.view)
  }

  /** Built by a session that had allocated `lastAllocated` numbers. */
  predicate CarriesHonestData(view: ReliableView, dataId: int, lastAllocated: int) {
    && (dataId == 0 <==> view.packetHeader.packetType == NONE)
    && 0 <= dataId <= lastAllocated
    && (dataId != 0 ==> view.reliableHeader.sequence == Wrap(dataId))
  }

  /** Acknowledges, of what its builder had seen, the newest number and exactly the numbers at most 32 before it. */
  predicate Acknowledges(h: ReliableHeader, ackId: int, seen: set<int>) {
    && 0 <= ackId && h.ackSequence == Wrap(ackId)
    && (if ackId == 0 then seen == {} else ackId in seen) && (forall u :: u in seen ==> 1 <= u <= ackId)
    && forall i :: 0 <= i < Protocol.ACK_BIT_COUNT ==> (h.ackBitfield[i] <==> ackId - 1 - i in seen)
  }

  /** Acknowledges exactly what its builder had seen, all of it reported as new data. */
  predicate IsHonestAck(d: Datagram, reported: set<int>) {
    Acknowledges(d.view.reliableHeader, d.ackId, d.seen) && d.seen <= reported
  }

  ghost predicate ReceivedHonestly(lastAllocated: int, receiver: Side) {
    && Protocol.Shows(receiver.tracker, receiver.received)
    && receiver.reported == NumbersOf(receiver.received)
    && forall u :: u in receiver.reported ==> 1 <= u <= lastAllocated
  }

  ghost predicate Linked(sender: Side, receiver: Side, toSender: set<Datagram>, toReceiver: set<Datagram>) {
    && Ledger.Conserved(sender.ledger)
    && ReceivedHonestly(sender.ledger.lastAllocated, receiver)
    && (forall d :: d in toReceiver ==> CarriesHonestData(d.view, d.dataId, sender.ledger.lastAllocated))
    && (forall d :: d in toSender ==> IsHonestAck(d, receiver.reported))
    && (forall t :: t in sender.ledger.tracked ==> OnWire(t.packet.packetBuffer, toReceiver))
    && sender.ledger.acked <= receiver.reported
    && !sender.hasRefusedAck
  }

  ghost predicate OnWire(packet: Bytes, datagrams: set<Datagram>) {
    exists d :: d in datagrams && d.wire == packet
  }

  // The sender's own steps.

  lemma SenderAllocates(x: Side, y: Side, toX: set<Datagram>, toY: set<Datagram>)
    requires Linked(x, y, toX, toY)
    ensures Linked(x.(ledger := Ledger.AfterAllocate(x.ledger)), y, toX, toY)
  {
    Ledger.AllocateConserves(x.ledger);
  }

  lemma SenderSends(x: Side, y: Side, toX: set<Datagram>, toY: set<Datagram>, packet: Bytes, view: ReliableView, now: int)
    requires Linked(x, y, toX, toY)
    requires view.packetHeader.packetType != NONE && view.reliableHeader == NextHeader(x)
    ensures var (x', toY') := Sending(x, toY, packet, view, now); Linked(x', y, toX, toY')
  {
    var (x', toY') := Sending(x, toY, packet, view, now);
    Ledger.SendConserves(x.ledger, packet, now);
    forall t | t in x'.ledger.tracked
      ensures OnWire(t.packet.packetBuffer, toY')
    {
      if t in x.ledger.tracked {
        var d :| d in toY && d.wire == t.packet.packetBuffer;
        assert d in toY';
      } else {
        assert Datagram(packet, view, x'.ledger.lastAllocated, NewestReceived(x), NumbersOf(x.received)) in toY';
      }
    }
  }

  /** The branches of the ack test, in numbers. */
  lemma AckedIffHit(t: Ledger.Tracked, h: ReliableHeader, ackId: int)
    requires t.packet.sequence == Wrap(t.id) && h.ackSequence == Wrap(ackId)
    ensures Ledger.IsAckedBy(t, h.ackSequence, h.ackBitfield) <==> Hits(t, h, ackId)
  {
    WrapDifference(ackId, t.id);
    WrapDifference(t.id, ackId);
    NewerIsSerialOrder(t.packet.sequence, h.ackSequence);
  }

  /** An ack counts for a packet of its own turn exactly if its builder had seen it and it is at most 32 behind the newest. */
  lemma OwnTurnIsSeen(h: ReliableHeader, ackId: int, seen: set<int>, t: Ledger.Tracked)
    requires t.id >= 1 && Acknowledges(h, ackId, seen) && !IsTurnsAway(t, ackId)
    ensures Hits(t, h, ackId) <==> t.id in seen && ackId - t.id <= Protocol.ACK_BIT_COUNT
  {
    var behind := ackId - t.id;
    assert behind == (ackId - t.id) % RANGE;
    if 0 < behind <= Protocol.ACK_BIT_COUNT {
      assert ackId - 1 - (behind - 1) == t.id;
    }
  }

  lemma {:induction false} AckedIdsWereAcked(tracked: seq<Ledger.Tracked>, ackSequence: SequenceNumber, ackBitfield: Bits32)
    ensures forall id :: id in Ledger.AckedIds(tracked, ackSequence, ackBitfield) ==>
              exists t :: t in tracked && t.id == id && Ledger.IsAckedBy(t, ackSequence, ackBitfield)
  {
    if tracked != [] {
      AckedIdsWereAcked(tracked[1..], ackSequence, ackBitfield);
      assert tracked == [tracked[0]] + tracked[1..];
    }
  }

  lemma {:induction false} AckedIdsAreAll(tracked: seq<Ledger.Tracked>, ackSequence: SequenceNumber, ackBitfield: Bits32)
    ensures forall t :: t in tracked && Ledger.IsAckedBy(t, ackSequence, ackBitfield) ==> t.id in Ledger.AckedIds(tracked, ackSequence, ackBitfield)
  {
    if tracked != [] {
      AckedIdsAreAll(tracked[1..], ackSequence, ackBitfield);
      assert tracked == [tracked[0]] + tracked[1..];
    }
  }

  /** An ack is refused exactly when it seems to be of a number after the last one allocated. */
  lemma AckIsAcceptedIff(l: Ledger.Ledger, ackId: int)
    requires Ledger.Numbered(l)
    ensures Window.AcksAllocated(l.window, Wrap(ackId)) <==> SeemsAllocated(l.lastAllocated, ackId)
  {
    Ledger.WrapSuccessor(l.lastAllocated + 1);
    WrapDifference(ackId, l.lastAllocated);
    NewerIsSerialOrder(Wrap(ackId), Wrap(l.lastAllocated));
  }

  lemma HonestAckIsNotRefused(l: Ledger.Ledger, ackId: int)
    requires Ledger.Numbered(l)
    requires ackId <= l.lastAllocated && l.lastAllocated - ackId < HALF_RANGE
    ensures Window.AcksAllocated(l.window, Wrap(ackId))
  {
    AckIsAcceptedIff(l, ackId);
    if ackId < l.lastAllocated {
      assert (ackId - l.lastAllocated) % RANGE == ackId - l.lastAllocated + RANGE;
    }
  }

  /** An honest ack is taken and removes nothing unreported exactly when it is true. */
  lemma AckIsTrueIff(x: Side, d: Datagram, reported: set<int>)
    requires Ledger.Conserved(x.ledger) && x.ledger.acked <= reported && IsHonestAck(d, reported)
    ensures var h := d.view.reliableHeader;
            (Window.AcksAllocated(x.ledger.window, h.ackSequence) && Ledger.AfterAck(x.ledger, h.ackSequence, h.ackBitfield).acked <= reported)
            <==> AckIsTrue(x, d, reported)
  {
    var h := d.view.reliableHeader;
    AckIsAcceptedIff(x.ledger, d.ackId);
    AckedIdsWereAcked(x.ledger.tracked, h.ackSequence, h.ackBitfield);
    AckedIdsAreAll(x.ledger.tracked, h.ackSequence, h.ackBitfield);
    forall t | t in x.ledger.tracked
      ensures Ledger.IsAckedBy(t, h.ackSequence, h.ackBitfield) <==> Hits(t, h, d.ackId)
      ensures Hits(t, h, d.ackId) && !IsTurnsAway(t, d.ackId) ==> t.id in reported
    {
      AckedIffHit(t, h, d.ackId);
      if Hits(t, h, d.ackId) && !IsTurnsAway(t, d.ackId) {
        OwnTurnIsSeen(h, d.ackId, d.seen, t);
      }
    }
    hide Ledger.IsAckedBy, Hits, IsTurnsAway, Ledger.Conserved, IsHonestAck;
    var ids := Ledger.AckedIds(x.ledger.tracked, h.ackSequence, h.ackBitfield);
    assert AckIsTrue(x, d, reported) ==> ids <= reported by {
      if AckIsTrue(x, d, reported) {
        forall id | id in ids
          ensures id in reported
        {
          var t :| t in x.ledger.tracked && t.id == id && Ledger.IsAckedBy(t, h.ackSequence, h.ackBitfield);
        }
      }
    }
  }

  lemma SenderReceives(x: Side, y: Side, toX: set<Datagram>, toY: set<Datagram>, d: Datagram)
    requires Linked(x, y, toX, toY) && d in toX && AckIsTrue(x, d, y.reported)
    ensures var (x', toY') := Receiving(x, toY, d.view, d.dataId); Linked(x', y, toX, toY')
  {
    hide AckIsTrue, ReceivedHonestly, Protocol.Observe, Protocol.HasAcked, PlaceOf, Note, Ledger.Partitioned, Ledger.Paced;
    var h := d.view.reliableHeader;
    var (x', toY') := Receiving(x, toY, d.view, d.dataId);
    AckIsTrueIff(x, d, y.reported);
    Ledger.AckConserves(x.ledger, h.ackSequence, h.ackBitfield);
    Ledger.UnackedSweep(x.ledger.tracked, h.ackSequence, h.ackBitfield);
    forall t | t in x'.ledger.tracked
      ensures OnWire(t.packet.packetBuffer, toY')
    {
      var e :| e in toY && e.wire == t.packet.packetBuffer;
      assert e in toY';
    }
  }

  lemma SenderResends(x: Side, y: Side, toX: set<Datagram>, toY: set<Datagram>, now: int)
    requires Linked(x, y, toX, toY)
    ensures Linked(x.(ledger := Ledger.AfterExtract(x.ledger, now)), y, toX, toY)
  {
    Ledger.ExtractConserves(x.ledger, now);
    RemainingWasPending(x.ledger.tracked, now, x.ledger.window.config);
  }

  lemma {:induction false} RemainingWasPending(tracked: seq<Ledger.Tracked>, now: int, config: Window.WindowConfig)
    ensures forall t :: t in Ledger.RemainingTracked(tracked, now, config) ==>
              exists s :: s in tracked && s.packet.packetBuffer == t.packet.packetBuffer
    ensures forall p :: p in Window.ToResend(Ledger.Packets(tracked), now, config) ==>
              exists s :: s in tracked && s.packet.packetBuffer == p.packetBuffer
  {
    if tracked != [] {
      RemainingWasPending(tracked[1..], now, config);
      assert Ledger.Packets(tracked)[1..] == Ledger.Packets(tracked[1..]);
      assert tracked == [tracked[0]] + tracked[1..];
    }
  }

  /** Every packet a resend pass hands to the network is there already. */
  lemma ResendsAreOnTheNetwork(x: Side, y: Side, toX: set<Datagram>, toY: set<Datagram>, now: int)
    requires Linked(x, y, toX, toY)
    ensures forall p :: p in Window.ToResend(x.ledger.window.pending, now, x.ledger.window.config) ==> OnWire(p.packetBuffer, toY)
  {
    RemainingWasPending(x.ledger.tracked, now, x.ledger.window.config);
  }

  // The receiver's steps.

  predicate IsBuiltBy(d: Datagram, x: Side, sequence: SequenceNumber) {
    d.view.reliableHeader == Session.OutgoingHeader(x.tracker, sequence) && d.ackId == NewestReceived(x) && d.seen == NumbersOf(x.received)
  }

  /** What is built under an honest window acknowledges exactly what was received. */
  lemma BuiltIsHonestAck(lastAllocated: int, receiver: Side, sequence: SequenceNumber, d: Datagram)
    requires ReceivedHonestly(lastAllocated, receiver) && IsBuiltBy(d, receiver, sequence)
    ensures IsHonestAck(d, receiver.reported) && d.seen == receiver.reported
  {
  }

  lemma StillReceivedHonestly(lastAllocated: int, y: Side, y': Side)
    requires ReceivedHonestly(lastAllocated, y) && y' == y.(ledger := y'.ledger)
    ensures ReceivedHonestly(lastAllocated, y')
  {
  }

  lemma ReceiverSends(x: Side, y: Side, toX: set<Datagram>, toY: set<Datagram>, packet: Bytes, view: ReliableView, now: int)
    requires Linked(x, y, toX, toY)
    requires view.reliableHeader == NextHeader(y)
    ensures var (y', toX') := Sending(y, toX, packet, view, now); Linked(x, y', toX', toY)
  {
    hide IsHonestAck, ReceivedHonestly;
    var (y', toX') := Sending(y, toX, packet, view, now);
    forall d | d in toX'
      ensures IsHonestAck(d, y'.reported)
    {
      if d !in toX {
        BuiltIsHonestAck(x.ledger.lastAllocated, y, y.ledger.window.nextSequence, d);
      }
    }
    StillReceivedHonestly(x.ledger.lastAllocated, y, y');
  }

  /** A data packet is reported as new exactly when the number that its 32 bits stand for was not reported
      before, or lies more than 32 behind the newest. */
  lemma ReportedNewIff(lastAllocated: int, y: Side, view: ReliableView, number: int)
    requires ReceivedHonestly(lastAllocated, y) && view.packetHeader.packetType != NONE
    requires view.reliableHeader.sequence == Wrap(number) && Distinguishable(y.received, number)
    ensures Session.AfterReceive(SessionOf(y), view).1.status == Session.DataReceived
       <==> !(number in y.reported && NewestReceived(y) - number <= Protocol.ACK_BIT_COUNT)
  {
    Protocol.AckedIsSeenInWindow(y.tracker, y.received, number);
  }

  /** What was received stays what was reported exactly when the data is true. */
  lemma DataIsTrueIff(lastAllocated: int, y: Side, out: set<Datagram>, d: Datagram)
    requires ReceivedHonestly(lastAllocated, y) && CarriesHonestData(d.view, d.dataId, lastAllocated)
    ensures var (y', _) := Receiving(y, out, d.view, d.dataId);
            && Protocol.Shows(y'.tracker, y'.received) && y.reported <= y'.reported
            && (y'.reported == NumbersOf(y'.received) <==> DataIsTrue(y, d))
            && (DataIsTrue(y, d) ==> ReceivedHonestly(lastAllocated, y'))
  {
    if d.dataId != 0 {
      var place := PlaceOf(y.received, d.dataId, d.view.reliableHeader.sequence);
      Protocol.AckedIsSeenInWindow(y.tracker, y.received, place);
      Protocol.ObserveShows(y.tracker, y.received, place);
      var (y', _) := Receiving(y, out, d.view, d.dataId);
      assert place in NumbersOf(y'.received);
      if !DataIsTrue(y, d) && place in y.reported {
        assert d.dataId in y'.reported && d.dataId !in NumbersOf(y'.received);
      }
    }
  }

  lemma MoreReportedKeepsHonest(reported: set<int>, reported': set<int>)
    requires reported <= reported'
    ensures forall d :: IsHonestAck(d, reported) ==> IsHonestAck(d, reported')
  {
  }

  lemma ReceiverReceives(x: Side, y: Side, toX: set<Datagram>, toY: set<Datagram>, d: Datagram)
    requires Linked(x, y, toX, toY) && d in toY && DataIsTrue(y, d)
    ensures var (y', toX') := Receiving(y, toX, d.view, d.dataId); Linked(x, y', toX', toY)
  {
    hide DataIsTrue, IsHonestAck, ReceivedHonestly, Protocol.Observe, Protocol.HasAcked, Ledger.AfterAck, Ledger.Conserved, PlaceOf, Note;
    var (y', toX') := Receiving(y, toX, d.view, d.dataId);
    DataIsTrueIff(x.ledger.lastAllocated, y, toX, d);
    MoreReportedKeepsHonest(y.reported, y'.reported);
    forall e | e in toX' && e !in toX
      ensures IsHonestAck(e, y'.reported)
    {
      BuiltIsHonestAck(x.ledger.lastAllocated, y', 0, e);
    }
  }

  /** Whatever is within the reach of 32 bits is true. */
  lemma WithinReachIsTrue(x: Side, y: Side, toX: set<Datagram>, toY: set<Datagram>, d: Datagram)
    requires Linked(x, y, toX, toY) && d in toX && WithinReach(x, d)
    ensures IsTrueDelivery(x, d, y.reported)
  {
    var h := d.view.reliableHeader;
    HonestAckIsNotRefused(x.ledger, d.ackId);
    AckIsAcceptedIff(x.ledger, d.ackId);
    forall t | t in x.ledger.tracked
      ensures Hits(t, h, d.ackId) ==> !IsTurnsAway(t, d.ackId)
    {
      if d.ackId < t.id {
        assert (d.ackId - t.id) % RANGE == d.ackId - t.id + RANGE;
      }
    }
  }

  // Whole conversations.

  datatype Conversation = Conversation(left: Side, right: Side, toLeft: set<Datagram>, toRight: set<Datagram>)

  datatype Move = Move(byLeft: bool, action: Action)

  function OpenedSide(config: Window.WindowConfig): Side {
    Side(Protocol.INITIAL_ACK_STATE, Ledger.Opened(config), Nothing, {}, false)
  }

  function Play(c: Conversation, m: Move): Conversation {
    if m.byLeft then
      var (left, toRight) := Act(c.left, c.toRight, m.action);
      c.(left := left, toRight := toRight)
    else
      var (right, toLeft) := Act(c.right, c.toLeft, m.action);
      c.(right := right, toLeft := toLeft)
  }

  function SideOf(c: Conversation, isLeft: bool): Side {
    if isLeft then c.left else c.right
  }

  function InboxOf(c: Conversation, isLeft: bool): set<Datagram> {
    if isLeft then c.toLeft else c.toRight
  }

  /** All that the network asks of a move: what arrives was sent. */
  predicate OnNetwork(c: Conversation, m: Move) {
    m.action.Receive? ==> m.action.datagram in InboxOf(c, m.byLeft)
  }

  ghost predicate IsTrueMove(c: Conversation, m: Move) {
    m.action.Receive? ==> IsTrueDelivery(SideOf(c, m.byLeft), m.action.datagram, SideOf(c, !m.byLeft).reported)
  }

  function PlayAll(leftConfig: Window.WindowConfig, rightConfig: Window.WindowConfig, moves: seq<Move>): Conversation {
    if moves == [] then Conversation(OpenedSide(leftConfig), OpenedSide(rightConfig), {}, {})
    else Play(PlayAll(leftConfig, rightConfig, moves[..|moves| - 1]), moves[|moves| - 1])
  }

  /** A conversation over the network: it may lose, delay, duplicate and reorder without limit. */
  predicate IsConversation(leftConfig: Window.WindowConfig, rightConfig: Window.WindowConfig, moves: seq<Move>) {
    moves != [] ==>
      && IsConversation(leftConfig, rightConfig, moves[..|moves| - 1])
      && OnNetwork(PlayAll(leftConfig, rightConfig, moves[..|moves| - 1]), moves[|moves| - 1])
  }

  /** A conversation all of whose deliveries are true. */
  ghost predicate IsTrueConversation(leftConfig: Window.WindowConfig, rightConfig: Window.WindowConfig, moves: seq<Move>) {
    moves != [] ==>
      && IsTrueConversation(leftConfig, rightConfig, moves[..|moves| - 1])
      && OnNetwork(PlayAll(leftConfig, rightConfig, moves[..|moves| - 1]), moves[|moves| - 1])
      && IsTrueMove(PlayAll(leftConfig, rightConfig, moves[..|moves| - 1]), moves[|moves| - 1])
  }

  ghost predicate Sound(c: Conversation) {
    && Linked(c.left, c.right, c.toLeft, c.toRight) && Linked(c.right, c.left, c.toRight, c.toLeft)
    && forall d :: d in c.toLeft || d in c.toRight ==> Genuine(d)
  }

  lemma AckDatagramIsGenuine(header: ReliableHeader, ackId: int, seen: set<int>)
    ensures Genuine(AckDatagram(header, ackId, seen))
  {
    AckPacketThenParse(header);
  }

  lemma SentDatagramIsGenuine(x: Side, out: set<Datagram>, game: Bytes, now: int)
    requires forall d :: d in out ==> Genuine(d)
    ensures forall d :: d in AfterSend(x, out, game, now).1 ==> Genuine(d)
  {
    hide Wrapped, Parsed, Ledger.AfterSend, Ledger.AfterAllocate;
    WrapThenParse(NextHeader(x), game);
  }

  lemma ReceivedAckIsGenuine(x: Side, out: set<Datagram>, view: ReliableView, dataId: int)
    requires forall d :: d in out ==> Genuine(d)
    ensures forall d :: d in Receiving(x, out, view, dataId).1 ==> Genuine(d)
  {
    hide Genuine, AckDatagram, Ledger.AfterAck, Protocol.Observe, Protocol.HasAcked, Note, Window.AcksAllocated;
    var (x', out') := Receiving(x, out, view, dataId);
    var ack := AckDatagram(Session.OutgoingHeader(x'.tracker, 0), NewestReceived(x'), NumbersOf(x'.received));
    forall d | d in out'
      ensures Genuine(d)
    {
      if d !in out {
        AckDatagramIsGenuine(Session.OutgoingHeader(x'.tracker, 0), NewestReceived(x'), NumbersOf(x'.received));
        assert d == ack;
      }
    }
  }

  lemma NewDatagramsAreGenuine(x: Side, out: set<Datagram>, a: Action)
    requires forall d :: d in out ==> Genuine(d)
    ensures forall d :: d in Act(x, out, a).1 ==> Genuine(d)
  {
    match a {
      case Send(game, now) => SentDatagramIsGenuine(x, out, game, now);
      case Receive(d) =>
        if Parsed(d.wire).Some? {
          ReceivedAckIsGenuine(x, out, Parsed(d.wire).value, d.dataId);
        }
      case Resend(_) =>
    }
  }

  /** One side's step keeps both directions. */
  lemma ActKeepsLinks(x: Side, y: Side, toX: set<Datagram>, toY: set<Datagram>, a: Action)
    requires Linked(x, y, toX, toY) && Linked(y, x, toY, toX)
    requires a.Receive? ==> a.datagram in toX && IsTrueDelivery(x, a.datagram, y.reported) && Genuine(a.datagram)
    ensures var (x', toY') := Act(x, toY, a); Linked(x', y, toX, toY') && Linked(y, x', toY', toX)
  {
    match a {
      case Send(game, now) => SendKeepsLinks(x, y, toX, toY, game, now);
      case Receive(d) => ReceiveKeepsLinks(x, y, toX, toY, d);
      case Resend(now) => SenderResends(x, y, toX, toY, now);
    }
  }

  lemma ReceiveKeepsLinks(x: Side, y: Side, toX: set<Datagram>, toY: set<Datagram>, d: Datagram)
    requires Linked(x, y, toX, toY) && Linked(y, x, toY, toX)
    requires d in toX && IsTrueDelivery(x, d, y.reported) && Genuine(d)
    ensures var (x', toY') := AfterReceive(x, toY, d); Linked(x', y, toX, toY') && Linked(y, x', toY', toX)
  {
    SenderReceives(x, y, toX, toY, d);
    ReceiverReceives(y, x, toY, toX, d);
  }

  /** A wrapped packet carries data under the header it was wrapped with. */
  lemma WrappedCarriesData(header: ReliableHeader, game: Bytes)
    requires Wrapped(header, game).Some?
    ensures var view := Parsed(Wrapped(header, game).value);
            view.Some? && view.value.reliableHeader == header && view.value.packetHeader.packetType != NONE
  {
    hide Parsed, GamePacketOf, EncodeReliableHeader;
    WrapThenParse(header, game);
  }

  lemma SendKeepsLinks(x: Side, y: Side, toX: set<Datagram>, toY: set<Datagram>, game: Bytes, now: int)
    requires Linked(x, y, toX, toY) && Linked(y, x, toY, toX)
    ensures var (x', toY') := AfterSend(x, toY, game, now); Linked(x', y, toX, toY') && Linked(y, x', toY', toX)
  {
    hide Wrapped, Parsed, Session.MayBeSent, Ledger.AfterSend, Ledger.Conserved, Protocol.Shows, IsHonestAck, CarriesHonestData;
    SenderAllocates(x, y, toX, toY);
    if Session.MayBeSent(game) && Wrapped(NextHeader(x), game).Some? {
      WrappedCarriesData(NextHeader(x), game);
      var packet := Wrapped(NextHeader(x), game).value;
      hide Linked, Sending;
      SenderSends(x, y, toX, toY, packet, Parsed(packet).value, now);
      ReceiverSends(y, x, toY, toX, packet, Parsed(packet).value, now);
    }
  }

  /** A true move keeps everything that links the two sides. */
  lemma TrueMoveKeepsSound(c: Conversation, m: Move)
    requires Sound(c) && OnNetwork(c, m) && IsTrueMove(c, m)
    ensures Sound(Play(c, m))
  {
    hide Linked, Act, IsTrueDelivery, Genuine;
    NewDatagramsAreGenuine(c.left, c.toRight, m.action);
    NewDatagramsAreGenuine(c.right, c.toLeft, m.action);
    if m.byLeft {
      ActKeepsLinks(c.left, c.right, c.toLeft, c.toRight, m.action);
    } else {
      ActKeepsLinks(c.right, c.left, c.toRight, c.toLeft, m.action);
    }
  }

  lemma OpeningIsSound(leftConfig: Window.WindowConfig, rightConfig: Window.WindowConfig)
    ensures Sound(PlayAll(leftConfig, rightConfig, []))
  {
  }

  lemma {:induction false} EveryTrueConversationIsSound(
      leftConfig: Window.WindowConfig, rightConfig: Window.WindowConfig, moves: seq<Move>)
    requires IsTrueConversation(leftConfig, rightConfig, moves)
    ensures Sound(PlayAll(leftConfig, rightConfig, moves))
  {
    hide Sound, Play, OnNetwork, IsTrueMove;
    if moves == [] {
      OpeningIsSound(leftConfig, rightConfig);
    } else {
      EveryTrueConversationIsSound(leftConfig, rightConfig, moves[..|moves| - 1]);
      TrueMoveKeepsSound(PlayAll(leftConfig, rightConfig, moves[..|moves| - 1]), moves[|moves| - 1]);
    }
  }

  // An ack counts for all that was received.

  lemma {:induction false} UnackedAreTheRest(tracked: seq<Ledger.Tracked>, ackSequence: SequenceNumber, ackBitfield: Bits32)
    ensures forall t :: t in Ledger.UnackedTracked(tracked, ackSequence, ackBitfield)
                   <==> t in tracked && !Ledger.IsAckedBy(t, ackSequence, ackBitfield)
  {
    if tracked != [] {
      UnackedAreTheRest(tracked[1..], ackSequence, ackBitfield);
      assert tracked == [tracked[0]] + tracked[1..];
    }
  }

  /** Within reach, an honest ack counts for a pending packet exactly if its builder had seen it and it is at most 32 behind the newest. */
  lemma NearAckCountsForSeen(x: Side, d: Datagram, t: Ledger.Tracked)
    requires Acknowledges(d.view.reliableHeader, d.ackId, d.seen) && WithinReach(x, d) && Ledger.Numbered(x.ledger) && t in x.ledger.tracked
    ensures Ledger.IsAckedBy(t, d.view.reliableHeader.ackSequence, d.view.reliableHeader.ackBitfield)
       <==> t.id in d.seen && d.ackId - t.id <= Protocol.ACK_BIT_COUNT
  {
    AckedIffHit(t, d.view.reliableHeader, d.ackId);
    if IsTurnsAway(t, d.ackId) {
      assert (d.ackId - t.id) % RANGE == d.ackId - t.id + RANGE;
    } else {
      OwnTurnIsSeen(d.view.reliableHeader, d.ackId, d.seen, t);
    }
  }

  /** A delivery within reach removes from the pending packets exactly those that the datagram's builder had received and that
      lie at most 32 behind the newest it had received. */
  lemma AckRemovesExactly(x: Side, y: Side, toX: set<Datagram>, toY: set<Datagram>, d: Datagram)
    requires Linked(x, y, toX, toY) && d in toX && WithinReach(x, d)
    ensures var x' := Receiving(x, toY, d.view, d.dataId).0;
            && (forall t :: t in x'.ledger.tracked <==> t in x.ledger.tracked && !(t.id in d.seen && d.ackId - t.id <= Protocol.ACK_BIT_COUNT))
            && forall t :: t in x.ledger.tracked ==> (t.id in x'.ledger.acked <==> t.id in d.seen && d.ackId - t.id <= Protocol.ACK_BIT_COUNT)
  {
    var h, tracked := d.view.reliableHeader, x.ledger.tracked;
    assert IsHonestAck(d, y.reported);
    HonestAckIsNotRefused(x.ledger, d.ackId);
    UnackedAreTheRest(tracked, h.ackSequence, h.ackBitfield);
    AckedIdsAreAll(tracked, h.ackSequence, h.ackBitfield);
    AckedIdsAreThose(x.ledger, h.ackSequence, h.ackBitfield);
    forall t | t in tracked
      ensures Ledger.IsAckedBy(t, h.ackSequence, h.ackBitfield) <==> t.id in d.seen && d.ackId - t.id <= Protocol.ACK_BIT_COUNT
    {
      NearAckCountsForSeen(x, d, t);
    }
    hide Ledger.IsAckedBy, Ledger.Conserved, IsHonestAck, ReceivedHonestly;
  }

  /** Numbers are not shared: what an ack removes were its own packets, and none of these was acked before. */
  lemma AckedIdsAreThose(l: Ledger.Ledger, ackSequence: SequenceNumber, ackBitfield: Bits32)
    requires Ledger.Conserved(l)
    ensures forall t :: t in l.tracked && t.id in l.acked + Ledger.AckedIds(l.tracked, ackSequence, ackBitfield) ==>
              Ledger.IsAckedBy(t, ackSequence, ackBitfield)
  {
    Ledger.IdsAreMembers(l.tracked);
    AckedIdsWereAcked(l.tracked, ackSequence, ackBitfield);
    forall t | t in l.tracked && t.id in l.acked + Ledger.AckedIds(l.tracked, ackSequence, ackBitfield)
      ensures Ledger.IsAckedBy(t, ackSequence, ackBitfield)
    {
      assert t.id in Ledger.Ids(l.tracked);
      var s :| s in l.tracked && s.id == t.id && Ledger.IsAckedBy(s, ackSequence, ackBitfield);
      SameIdSamePacket(l.tracked, s, t);
    }
  }

  lemma {:induction false} SameIdSamePacket(tracked: seq<Ledger.Tracked>, s: Ledger.Tracked, t: Ledger.Tracked)
    requires Ledger.Ordered(tracked) && s in tracked && t in tracked && s.id == t.id
    ensures s == t
  {
    Ledger.IdsAreMembers(tracked[1..]);
    assert tracked == [tracked[0]] + tracked[1..];
    if s != tracked[0] && t != tracked[0] {
      SameIdSamePacket(tracked[1..], s, t);
    }
  }

  /** In every true conversation, whenever a datagram is delivered within reach: it removes exactly the pending packets that its
      builder had received when it was built and that lie at most 32 behind the newest received by then. */
  lemma EveryAckRemovesExactlyWhatWasSeen(
      leftConfig: Window.WindowConfig, rightConfig: Window.WindowConfig, moves: seq<Move>, isLeft: bool, d: Datagram)
    requires IsTrueConversation(leftConfig, rightConfig, moves)
    requires var c := PlayAll(leftConfig, rightConfig, moves); d in InboxOf(c, isLeft) && WithinReach(SideOf(c, isLeft), d)
    ensures var c := PlayAll(leftConfig, rightConfig, moves);
            var before, after := SideOf(c, isLeft).ledger, SideOf(Play(c, Move(isLeft, Receive(d))), isLeft).ledger;
            forall t :: t in after.tracked <==> t in before.tracked && !(t.id in d.seen && d.ackId - t.id <= Protocol.ACK_BIT_COUNT)
  {
    hide Linked, WithinReach, Genuine, Receiving, AfterReceive;
    var c := PlayAll(leftConfig, rightConfig, moves);
    EveryTrueConversationIsSound(leftConfig, rightConfig, moves);
    GenuineIsReceived(SideOf(c, isLeft), InboxOf(c, !isLeft), d);
    if isLeft {
      AckRemovesExactly(c.left, c.right, c.toLeft, c.toRight, d);
    } else {
      AckRemovesExactly(c.right, c.left, c.toRight, c.toLeft, d);
    }
  }

  lemma EmittedHasSeen(x: Side, out: set<Datagram>, a: Action, d: Datagram)
    requires d in Act(x, out, a).1 && d !in out
    ensures var x' := Act(x, out, a).0; d.seen == NumbersOf(x'.received) && d.ackId == NewestReceived(x')
  {
    hide Wrapped, Parsed, Session.MayBeSent, Session.OutgoingHeader, Note, PlaceOf;
  }

  /** What a move puts on the network, packet or ack, has seen everything its side has reported. */
  lemma NewDatagramsHaveSeenAll(leftConfig: Window.WindowConfig, rightConfig: Window.WindowConfig, moves: seq<Move>, d: Datagram)
    requires moves != [] && IsTrueConversation(leftConfig, rightConfig, moves)
    requires var byLeft := moves[|moves| - 1].byLeft;
             && d in InboxOf(PlayAll(leftConfig, rightConfig, moves), !byLeft)
             && d !in InboxOf(PlayAll(leftConfig, rightConfig, moves[..|moves| - 1]), !byLeft)
    ensures var x := SideOf(PlayAll(leftConfig, rightConfig, moves), moves[|moves| - 1].byLeft);
            d.seen == x.reported && d.ackId == NewestReceived(x)
  {
    hide Act, Sound, IsTrueMove, OnNetwork;
    var c, m := PlayAll(leftConfig, rightConfig, moves[..|moves| - 1]), moves[|moves| - 1];
    EmittedHasSeen(SideOf(c, m.byLeft), InboxOf(c, !m.byLeft), m.action, d);
    EveryTrueConversationIsSound(leftConfig, rightConfig, moves);
    SoundIsTruthful(PlayAll(leftConfig, rightConfig, moves));
  }

  // No false acks.

  /** What an ack removed from a send window was reported as new by the other side, no ack was refused, and the numbers
      that the ack window stands for are those of the data reported. */
  predicate IsTruthful(c: Conversation) {
    && c.left.ledger.acked <= c.right.reported && c.right.ledger.acked <= c.left.reported
    && !c.left.hasRefusedAck && !c.right.hasRefusedAck
    && c.left.reported == NumbersOf(c.left.received) && c.right.reported == NumbersOf(c.right.received)
  }

  lemma SoundIsTruthful(c: Conversation)
    requires Sound(c)
    ensures IsTruthful(c)
  {
  }

  /** One delivery, from any sound state: it leaves the conversation truthful exactly when it is true. */
  lemma DeliveryIsTruthfulIff(c: Conversation, m: Move)
    requires Sound(c) && OnNetwork(c, m) && m.action.Receive?
    ensures IsTruthful(Play(c, m)) <==> IsTrueMove(c, m)
  {
    if m.byLeft {
      ReceptionIsTruthfulIff(c.left, c.right, c.toLeft, c.toRight, m.action.datagram);
    } else {
      ReceptionIsTruthfulIff(c.right, c.left, c.toRight, c.toLeft, m.action.datagram);
    }
    hide Linked, Genuine, IsTrueDelivery, Receiving;
    assert Genuine(m.action.datagram);
    SoundIsTruthful(c);
    GenuineIsReceived(SideOf(c, m.byLeft), InboxOf(c, !m.byLeft), m.action.datagram);
  }

  lemma GenuineIsReceived(x: Side, out: set<Datagram>, d: Datagram)
    requires Genuine(d)
    ensures AfterReceive(x, out, d) == Receiving(x, out, d.view, d.dataId)
  {
  }

  lemma ReceptionIsTruthfulIff(x: Side, y: Side, toX: set<Datagram>, toY: set<Datagram>, d: Datagram)
    requires Linked(x, y, toX, toY) && Linked(y, x, toY, toX) && d in toX
    ensures var x' := Receiving(x, toY, d.view, d.dataId).0;
            && (x'.ledger.acked <= y.reported && !x'.hasRefusedAck && x'.reported == NumbersOf(x'.received) <==> IsTrueDelivery(x, d, y.reported))
            && x.reported <= x'.reported
  {
    hide AckIsTrue, DataIsTrue, Ledger.AfterAck;
    AckIsTrueIff(x, d, y.reported);
    DataIsTrueIff(y.ledger.lastAllocated, x, toY, d);
  }

  /** The conversation has been truthful all along. */
  ghost predicate IsTruthfulThroughout(leftConfig: Window.WindowConfig, rightConfig: Window.WindowConfig, moves: seq<Move>) {
    && IsTruthful(PlayAll(leftConfig, rightConfig, moves))
    && (moves != [] ==> IsTruthfulThroughout(leftConfig, rightConfig, moves[..|moves| - 1]))
  }

  /** Whatever the network does, for however long: no false ack is ever applied, none refused and no false ack window
      built exactly when each delivery is true. */
  lemma {:induction false} NoFalseAckIff(leftConfig: Window.WindowConfig, rightConfig: Window.WindowConfig, moves: seq<Move>)
    requires IsConversation(leftConfig, rightConfig, moves)
    ensures IsTruthfulThroughout(leftConfig, rightConfig, moves) <==> IsTrueConversation(leftConfig, rightConfig, moves)
  {
    hide Sound, Play, OnNetwork, IsTrueMove, IsTruthful;
    if moves == [] {
      OpeningIsSound(leftConfig, rightConfig);
      SoundIsTruthful(PlayAll(leftConfig, rightConfig, []));
    } else {
      var c, m := PlayAll(leftConfig, rightConfig, moves[..|moves| - 1]), moves[|moves| - 1];
      NoFalseAckIff(leftConfig, rightConfig, moves[..|moves| - 1]);
      if IsTrueConversation(leftConfig, rightConfig, moves[..|moves| - 1]) {
        EveryTrueConversationIsSound(leftConfig, rightConfig, moves[..|moves| - 1]);
        if m.action.Receive? {
          DeliveryIsTruthfulIff(c, m);
        } else {
          OtherMovesAreTrue(c, m);
          TrueMoveKeepsSound(c, m);
          SoundIsTruthful(Play(c, m));
        }
      }
    }
  }

  lemma OtherMovesAreTrue(c: Conversation, m: Move)
    requires !m.action.Receive?
    ensures IsTrueMove(c, m)
  {
  }

  /** A conversation in which each datagram is within the reach of 32 bits when it is delivered. */
  ghost predicate IsNearConversation(leftConfig: Window.WindowConfig, rightConfig: Window.WindowConfig, moves: seq<Move>) {
    moves != [] ==>
      var c, m := PlayAll(leftConfig, rightConfig, moves[..|moves| - 1]), moves[|moves| - 1];
      && IsNearConversation(leftConfig, rightConfig, moves[..|moves| - 1])
      && OnNetwork(c, m) && (m.action.Receive? ==> WithinReach(SideOf(c, m.byLeft), m.action.datagram))
  }

  lemma NearMoveIsTrue(c: Conversation, m: Move)
    requires Sound(c) && OnNetwork(c, m) && (m.action.Receive? ==> WithinReach(SideOf(c, m.byLeft), m.action.datagram))
    ensures IsTrueMove(c, m)
  {
    hide Linked, WithinReach, IsTrueDelivery, Genuine;
    if m.action.Receive? {
      if m.byLeft {
        WithinReachIsTrue(c.left, c.right, c.toLeft, c.toRight, m.action.datagram);
      } else {
        WithinReachIsTrue(c.right, c.left, c.toRight, c.toLeft, m.action.datagram);
      }
    }
  }

  lemma {:induction false} NearConversationsAreTrue(
      leftConfig: Window.WindowConfig, rightConfig: Window.WindowConfig, moves: seq<Move>)
    requires IsNearConversation(leftConfig, rightConfig, moves)
    ensures IsTrueConversation(leftConfig, rightConfig, moves)
  {
    hide Sound, Play, OnNetwork, IsTrueMove, WithinReach;
    if moves != [] {
      NearConversationsAreTrue(leftConfig, rightConfig, moves[..|moves| - 1]);
      EveryTrueConversationIsSound(leftConfig, rightConfig, moves[..|moves| - 1]);
      NearMoveIsTrue(PlayAll(leftConfig, rightConfig, moves[..|moves| - 1]), moves[|moves| - 1]);
    }
  }

  /** No false acks: in every such conversation, whatever an ack removed from a send window had been
      reported as new data by the other side, and no ack was refused. */
  lemma NoFalseAck(leftConfig: Window.WindowConfig, rightConfig: Window.WindowConfig, moves: seq<Move>)
    requires IsNearConversation(leftConfig, rightConfig, moves)
    ensures IsTruthful(PlayAll(leftConfig, rightConfig, moves))
  {
    NearConversationsAreTrue(leftConfig, rightConfig, moves);
    EveryTrueConversationIsSound(leftConfig, rightConfig, moves);
  }

  // At most once.

  lemma ReceiversAreHonest(c: Conversation, isLeft: bool)
    requires Sound(c)
    ensures var lastAllocated := SideOf(c, !isLeft).ledger.lastAllocated;
            && ReceivedHonestly(lastAllocated, SideOf(c, isLeft))
            && forall d :: d in InboxOf(c, isLeft) ==> CarriesHonestData(d.view, d.dataId, lastAllocated)
  {
  }

  /** In every true conversation a data packet reaching either side is reported as new exactly when the number that
      its 32 bits stand for there was not reported before or lies more than 32 behind the newest received: at most
      once inside the window. Within reach of 32 bits that number is the packet's own. */
  lemma DeliveredAtMostOnceInsideTheWindow(
      leftConfig: Window.WindowConfig, rightConfig: Window.WindowConfig, moves: seq<Move>, isLeft: bool, d: Datagram)
    requires IsTrueConversation(leftConfig, rightConfig, moves)
    requires d in InboxOf(PlayAll(leftConfig, rightConfig, moves), isLeft) && d.dataId != 0
    ensures var receiver := SideOf(PlayAll(leftConfig, rightConfig, moves), isLeft);
            var isNew := Session.AfterReceive(SessionOf(receiver), d.view).1.status == Session.DataReceived;
            var place := PlaceOf(receiver.received, d.dataId, d.view.reliableHeader.sequence);
            && (isNew <==> !(place in receiver.reported && NewestReceived(receiver) - place <= Protocol.ACK_BIT_COUNT))
            && (WithinReach(receiver, d) ==> place == d.dataId)
  {
    var c := PlayAll(leftConfig, rightConfig, moves);
    var receiver, lastAllocated := SideOf(c, isLeft), SideOf(c, !isLeft).ledger.lastAllocated;
    EveryTrueConversationIsSound(leftConfig, rightConfig, moves);
    ReceiversAreHonest(c, isLeft);
    assert CarriesHonestData(d.view, d.dataId, lastAllocated);
    ReportedNewIff(lastAllocated, receiver, d.view, PlaceOf(receiver.received, d.dataId, d.view.reliableHeader.sequence));
  }

  // Short conversations.

  /** While fewer than 2^31 numbers were allocated on each side, every datagram on the network is
      within reach, however old: delivery needs no further condition. */
  lemma EarlyDatagramsAreWithinReach(x: Side, y: Side, toX: set<Datagram>, toY: set<Datagram>, d: Datagram)
    requires Linked(x, y, toX, toY) && Linked(y, x, toY, toX) && d in toX
    requires x.ledger.lastAllocated < HALF_RANGE && y.ledger.lastAllocated < HALF_RANGE
    ensures WithinReach(x, d)
  {
  }

  predicate IsShort(c: Conversation) {
    c.left.ledger.lastAllocated < HALF_RANGE && c.right.ledger.lastAllocated < HALF_RANGE
  }

  lemma EarlyInboxIsWithinReach(c: Conversation, isLeft: bool, d: Datagram)
    requires Sound(c) && IsShort(c) && d in InboxOf(c, isLeft)
    ensures WithinReach(SideOf(c, isLeft), d)
  {
    hide Linked, WithinReach, Genuine;
    if isLeft {
      EarlyDatagramsAreWithinReach(c.left, c.right, c.toLeft, c.toRight, d);
    } else {
      EarlyDatagramsAreWithinReach(c.right, c.left, c.toRight, c.toLeft, d);
    }
  }

  /** A conversation over the network in which each side has allocated fewer than 2^31 sequences. */
  predicate ShortConversation(leftConfig: Window.WindowConfig, rightConfig: Window.WindowConfig, moves: seq<Move>) {
    IsConversation(leftConfig, rightConfig, moves) && IsShort(PlayAll(leftConfig, rightConfig, moves))
  }

  /** Numbers are only ever allocated. */
  lemma EarlierIsShorter(c: Conversation, m: Move)
    requires IsShort(Play(c, m))
    ensures IsShort(c)
  {
    hide Wrapped, Parsed, Session.MayBeSent;
  }

  lemma {:induction false} ShortConversationsAreNear(
      leftConfig: Window.WindowConfig, rightConfig: Window.WindowConfig, moves: seq<Move>)
    requires ShortConversation(leftConfig, rightConfig, moves)
    ensures IsNearConversation(leftConfig, rightConfig, moves)
  {
    hide Sound, Play, IsTrueMove, WithinReach, IsShort;
    if moves != [] {
      var c, m := PlayAll(leftConfig, rightConfig, moves[..|moves| - 1]), moves[|moves| - 1];
      EarlierIsShorter(c, m);
      ShortConversationsAreNear(leftConfig, rightConfig, moves[..|moves| - 1]);
      NearConversationsAreTrue(leftConfig, rightConfig, moves[..|moves| - 1]);
      EveryTrueConversationIsSound(leftConfig, rightConfig, moves[..|moves| - 1]);
      if m.action.Receive? {
        EarlyInboxIsWithinReach(c, m.byLeft, m.action.datagram);
      }
    }
  }

  /** No false acks, with no condition on the network, while fewer than 2^31 numbers were allocated. */
  lemma NoFalseAckInShortConversations(leftConfig: Window.WindowConfig, rightConfig: Window.WindowConfig, moves: seq<Move>)
    requires ShortConversation(leftConfig, rightConfig, moves)
    ensures IsTruthful(PlayAll(leftConfig, rightConfig, moves))
  {
    ShortConversationsAreNear(leftConfig, rightConfig, moves);
    NoFalseAck(leftConfig, rightConfig, moves);
  }

  /** Nor does it take one for acks to count: whatever a side puts on the network, once delivered before anything else, leaves the
      other with no pending packet that the side has reported and that is at most 32 behind the newest it has received. */
  lemma WhatWasReceivedIsDropped(leftConfig: Window.WindowConfig, rightConfig: Window.WindowConfig, moves: seq<Move>, d: Datagram)
    requires moves != [] && ShortConversation(leftConfig, rightConfig, moves)
    requires var byLeft := moves[|moves| - 1].byLeft;
             && d in InboxOf(PlayAll(leftConfig, rightConfig, moves), !byLeft)
             && d !in InboxOf(PlayAll(leftConfig, rightConfig, moves[..|moves| - 1]), !byLeft)
    ensures var c, byLeft := PlayAll(leftConfig, rightConfig, moves), moves[|moves| - 1].byLeft;
            var emitter, after := SideOf(c, byLeft), SideOf(Play(c, Move(!byLeft, Receive(d))), !byLeft).ledger;
            forall t :: t in after.tracked
              <==> t in SideOf(c, !byLeft).ledger.tracked && !(t.id in emitter.reported && NewestReceived(emitter) - t.id <= Protocol.ACK_BIT_COUNT)
  {
    hide Sound, Play, IsTrueMove, WithinReach, OnNetwork;
    var c, byLeft := PlayAll(leftConfig, rightConfig, moves), moves[|moves| - 1].byLeft;
    ShortConversationsAreNear(leftConfig, rightConfig, moves);
    NearConversationsAreTrue(leftConfig, rightConfig, moves);
    EveryTrueConversationIsSound(leftConfig, rightConfig, moves);
    EarlyInboxIsWithinReach(c, !byLeft, d);
    NewDatagramsHaveSeenAll(leftConfig, rightConfig, moves, d);
    EveryAckRemovesExactlyWhatWasSeen(leftConfig, rightConfig, moves, !byLeft, d);
  }

  /** Nor does delivery at most once need one. */
  lemma DeliveredAtMostOnceInShortConversations(
      leftConfig: Window.WindowConfig, rightConfig: Window.WindowConfig, moves: seq<Move>, isLeft: bool, d: Datagram)
    requires ShortConversation(leftConfig, rightConfig, moves)
    requires d in InboxOf(PlayAll(leftConfig, rightConfig, moves), isLeft) && d.dataId != 0
    ensures var receiver := SideOf(PlayAll(leftConfig, rightConfig, moves), isLeft);
            Session.AfterReceive(SessionOf(receiver), d.view).1.status == Session.DataReceived
            <==> !(d.dataId in receiver.reported && NewestReceived(receiver) - d.dataId <= Protocol.ACK_BIT_COUNT)
  {
    ShortConversationsAreNear(leftConfig, rightConfig, moves);
    NearConversationsAreTrue(leftConfig, rightConfig, moves);
    EveryTrueConversationIsSound(leftConfig, rightConfig, moves);
    EarlyInboxIsWithinReach(PlayAll(leftConfig, rightConfig, moves), isLeft, d);
    DeliveredAtMostOnceInsideTheWindow(leftConfig, rightConfig, moves, isLeft, d);
  }
}
