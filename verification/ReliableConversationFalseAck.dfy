// A conversation with a false ack. A session that has received nothing acknowledges 0, meaning nothing;
// but 0 is also the sequence of the packet numbered 2^32.

module ReliableConversationFalseAck {
  import opened SequenceNumber
  import opened ReceiveHistory
  import opened PacketWire
  import opened ReliableUdpPacket
  import opened ReliableConversation
  import Protocol = ReliableUdpProtocol
  import Window = ReliableUdpSendWindow
  import Ledger = SendLedger
  import Session = ReliableUdpSession

  /** A leave request, and the same with its authenticated flag set: that one spends a sequence and is never sent. */
  function LeaveRequest(isAuthenticated: bool): Bytes {
    Framed(SERIALIZED_PACKET_HEADER_SIZE, LEAVE_REQUEST, false, isAuthenticated)
  }

  lemma LeaveRequestIsReadBack(isAuthenticated: bool)
    ensures Session.MayBeSent(LeaveRequest(isAuthenticated))
    ensures IsReliableGamePacket(LeaveRequest(isAuthenticated)) <==> !isAuthenticated
  {
    hide EncodeHeader, DecodeHeader;
    var packet := LeaveRequest(isAuthenticated);
    FramedIsReadBack(SERIALIZED_PACKET_HEADER_SIZE, LEAVE_REQUEST, false, isAuthenticated, []);
    assert packet + [] == packet;
  }

  lemma SpendingSend(x: Side, out: set<Datagram>)
    ensures AfterSend(x, out, LeaveRequest(true), 0) == (x.(ledger := Ledger.AfterAllocate(x.ledger)), out)
  {
    hide EncodeHeader, DecodeHeader, LeaveRequest;
    LeaveRequestIsReadBack(true);
  }

  lemma FirstSend(x: Side) returns (d: Datagram)
    requires x.ledger.tracked == [] && x.ledger.window.pending == [] && x.ledger.window.config == Window.DEFAULT_CONFIG
    ensures d.view.reliableHeader == NextHeader(x) && Genuine(d)
    ensures var (x', out) := AfterSend(x, {}, LeaveRequest(false), 0);
            && out == {d} && x' == x.(ledger := x'.ledger)
            && (exists t :: x'.ledger.tracked == [t] && t.id == x.ledger.lastAllocated + 1 && t.packet.sequence == x.ledger.window.nextSequence)
  {
    hide EncodeHeader, DecodeHeader, LeaveRequest, Parsed, Wrapped, GamePacketOf, NumbersOf, NewestReceived, NextHeader;
    LeaveRequestIsReadBack(false);
    LeaveRequestIsShort();
    WrapThenParse(NextHeader(x), LeaveRequest(false));
    var packet := Wrapped(NextHeader(x), LeaveRequest(false)).value;
    var (x', out) := AfterSend(x, {}, LeaveRequest(false), 0);
    d := Datagram(packet, Parsed(packet).value, x'.ledger.lastAllocated, NewestReceived(x), NumbersOf(x.received));
    WrappedIsNotEmpty(NextHeader(x), LeaveRequest(false));
    assert x'.ledger.tracked == [x'.ledger.tracked[0]];
  }

  lemma LeaveRequestIsShort()
    ensures |LeaveRequest(false)| == SERIALIZED_PACKET_HEADER_SIZE
  {
  }

  lemma WrappedIsNotEmpty(header: ReliableHeader, game: Bytes)
    requires Wrapped(header, game).Some?
    ensures Wrapped(header, game).value != []
  {
  }

  function Spending(n: nat): seq<Move> {
    if n == 0 then [] else Spending(n - 1) + [Move(true, Send(LeaveRequest(true), 0))]
  }

  /** The conversation once the left side has spent `n` sequences on nothing. */
  function Spent(n: nat): Conversation {
    var side := OpenedSide(Window.DEFAULT_CONFIG);
    var window := side.ledger.window.(nextSequence := Wrap(n + 1));
    Conversation(side.(ledger := side.ledger.(window := window, lastAllocated := n)), side, {}, {})
  }

  lemma SpendingOnce(n: nat)
    requires n > 0
    ensures Play(Spent(n - 1), Move(true, Send(LeaveRequest(true), 0))) == Spent(n)
  {
    hide AfterSend, LeaveRequest;
    SpendingSend(Spent(n - 1).left, {});
    Ledger.WrapSuccessor(n);
  }

  lemma PlayOneMore(moves: seq<Move>, m: Move)
    requires IsConversation(Window.DEFAULT_CONFIG, Window.DEFAULT_CONFIG, moves)
    requires OnNetwork(PlayAll(Window.DEFAULT_CONFIG, Window.DEFAULT_CONFIG, moves), m)
    ensures IsConversation(Window.DEFAULT_CONFIG, Window.DEFAULT_CONFIG, moves + [m])
    ensures PlayAll(Window.DEFAULT_CONFIG, Window.DEFAULT_CONFIG, moves + [m])
         == Play(PlayAll(Window.DEFAULT_CONFIG, Window.DEFAULT_CONFIG, moves), m)
  {
    assert (moves + [m])[..|moves + [m]| - 1] == moves;
  }

  lemma {:induction false} SpendingSpends(n: nat)
    ensures IsConversation(Window.DEFAULT_CONFIG, Window.DEFAULT_CONFIG, Spending(n))
    ensures PlayAll(Window.DEFAULT_CONFIG, Window.DEFAULT_CONFIG, Spending(n)) == Spent(n)
  {
    hide LeaveRequest, Play, IsConversation;
    if n == 0 {
      NothingSpent();
    } else {
      SpendingSpends(n - 1);
      SpendingOnce(n);
      PlayOneMore(Spending(n - 1), Move(true, Send(LeaveRequest(true), 0)));
    }
  }

  lemma NothingSpent()
    ensures IsConversation(Window.DEFAULT_CONFIG, Window.DEFAULT_CONFIG, [])
    ensures PlayAll(Window.DEFAULT_CONFIG, Window.DEFAULT_CONFIG, []) == Spent(0)
  {
  }

  /** It does happen. The left side spends 2^32 - 1 sequences and sends its packet number 2^32, whose sequence is 0; the
      right side, which has received nothing, sends its first packet, whose ack is 0; and the left side takes that for an ack. */
  lemma FalseAckInARun() returns (moves: seq<Move>)
    ensures IsConversation(Window.DEFAULT_CONFIG, Window.DEFAULT_CONFIG, moves)
    ensures var c := PlayAll(Window.DEFAULT_CONFIG, Window.DEFAULT_CONFIG, moves);
            RANGE in c.left.ledger.acked && c.right.reported == {} && !IsTruthful(c)
  {
    hide AfterSend, Spending, IsConversation, PlayAll, LeaveRequest, Receiving;
    var send, c0 := Send(LeaveRequest(false), 0), Spent(RANGE - 1);
    SpendingSpends(RANGE - 1);
    PlayOneMore(Spending(RANGE - 1), Move(true, send));
    var sent := FirstSend(c0.left);
    var c1 := Play(c0, Move(true, send));
    PlayOneMore(Spending(RANGE - 1) + [Move(true, send)], Move(false, send));
    var d := FirstSend(c0.right);
    var c2 := Play(c1, Move(false, send));
    moves := Spending(RANGE - 1) + [Move(true, send)] + [Move(false, send)] + [Move(true, Receive(d))];
    PlayOneMore(Spending(RANGE - 1) + [Move(true, send)] + [Move(false, send)], Move(true, Receive(d)));
    GenuineIsReceived(c2.left, c2.toRight, d);
    NothingIsTakenForZero(c2.left, c2.toRight, d);
  }

  lemma NothingIsTakenForZero(x: Side, out: set<Datagram>, d: Datagram)
    requires d.view.reliableHeader.ackSequence == 0
    requires exists t :: x.ledger.tracked == [t] && t.id == RANGE && t.packet.sequence == 0
    ensures RANGE in Receiving(x, out, d.view, d.dataId).0.ledger.acked
  {
    hide Protocol.Observe, Note, PlaceOf;
    var t :| x.ledger.tracked == [t] && t.id == RANGE && t.packet.sequence == 0;
    assert Ledger.IsAckedBy(t, 0, d.view.reliableHeader.ackBitfield);
    AckedIdsAreAll(x.ledger.tracked, 0, d.view.reliableHeader.ackBitfield);
  }
}
