// The 33-sequence ack window (Common/Net/Reliable/ReliableUdpProtocol.h).

module ReliableUdpProtocol {
  import opened SequenceNumber
  import opened BitWindow
  import opened ReceiveHistory

  const ACK_BIT_COUNT := 32

  /** Does the pair (ackSequence, ackBitfield) acknowledge `sequence`? */
  predicate IsSequenceAcked(sequence: SequenceNumber, ackSequence: SequenceNumber, ackBitfield: Bits32) {
    if sequence == ackSequence then true
    else if IsSequenceNewer(sequence, ackSequence) then false
    else
      var distance := Subtract(ackSequence, sequence);
      if distance == 0 || distance > ACK_BIT_COUNT then false else ackBitfield[distance - 1]
  }

  /** The fields of an ack tracker. */
  datatype AckState = AckState(hasReceivedAny: bool, latest: SequenceNumber, bitfield: Bits32)

  const INITIAL_ACK_STATE := AckState(false, 0, Cleared(ACK_BIT_COUNT))

  function Observe(a: AckState, sequence: SequenceNumber): AckState {
    if !a.hasReceivedAny then AckState(true, sequence, Cleared(ACK_BIT_COUNT))
    else if sequence == a.latest then a
    else if IsSequenceNewer(sequence, a.latest) then
      var distance := Subtract(sequence, a.latest);
      var bitfield := if distance > ACK_BIT_COUNT then Cleared(ACK_BIT_COUNT)
                      else SetBit(ShiftLeft(a.bitfield, distance), distance - 1);
      AckState(true, sequence, bitfield)
    else
      var distance := Subtract(a.latest, sequence);
      if distance == 0 || distance > ACK_BIT_COUNT then a
      else a.(bitfield := SetBit(a.bitfield, distance - 1))
  }

  predicate HasAcked(a: AckState, sequence: SequenceNumber) {
    a.hasReceivedAny && IsSequenceAcked(sequence, a.latest, a.bitfield)
  }

  /** The window shows exactly the part of the history that fits in it. */
  ghost predicate Shows(a: AckState, h: History) {
    && Consistent(h)
    && a.hasReceivedAny == h.Seen?
    && (h.Seen? ==>
          && a.latest == Wrap(h.latest)
          && forall i :: 0 <= i < ACK_BIT_COUNT ==> (a.bitfield[i] <==> h.latest - 1 - i in h.numbers))
    && (h.Nothing? ==> a == INITIAL_ACK_STATE)
  }

  lemma ObserveShows(a: AckState, h: History, u: int)
    requires Shows(a, h) && Distinguishable(h, u)
    ensures Shows(Observe(a, Wrap(u)), Note(h, u))
  {
    var a', h' := Observe(a, Wrap(u)), Note(h, u);
    NoteKeepsConsistent(h, u);
    if h.Seen? {
      NewerIsGreater(h.latest, u);
      forall i | 0 <= i < ACK_BIT_COUNT
        ensures a'.bitfield[i] <==> h'.latest - 1 - i in h'.numbers
      {
        var distance := u - h.latest;
        if 0 < distance <= i {
          assert a.bitfield[i - distance] <==> h.latest - 1 - (i - distance) in h.numbers;
        }
      }
    }
  }

  /** A number near the newest one is acknowledged exactly when it was seen and is at most 32 behind. */
  lemma AckedIsSeenInWindow(a: AckState, h: History, u: int)
    requires Shows(a, h) && Distinguishable(h, u)
    ensures HasAcked(a, Wrap(u)) <==> Contains(h, u) && h.latest - u <= ACK_BIT_COUNT
  {
    if h.Seen? {
      NewerIsGreater(h.latest, u);
      if 1 <= h.latest - u <= ACK_BIT_COUNT {
        assert a.bitfield[h.latest - u - 1] <==> h.latest - 1 - (h.latest - u - 1) in h.numbers;
      }
    }
  }

  // Whole runs of one tracker.

  function ObserveAll(sequences: seq<SequenceNumber>): AckState {
    if sequences == [] then INITIAL_ACK_STATE
    else Observe(ObserveAll(sequences[..|sequences| - 1]), sequences[|sequences| - 1])
  }

  function NoteAll(sequences: seq<SequenceNumber>): History {
    if sequences == [] then Nothing
    else
      var h := NoteAll(sequences[..|sequences| - 1]);
      Note(h, NumberOf(h, sequences[|sequences| - 1]))
  }

  /** After any run of observations the ack field is the history, bit by bit, across wrap-around. */
  lemma {:induction false} AckWindowIsExact(sequences: seq<SequenceNumber>)
    ensures Shows(ObserveAll(sequences), NoteAll(sequences))
  {
    if sequences != [] {
      var earlier, last := sequences[..|sequences| - 1], sequences[|sequences| - 1];
      AckWindowIsExact(earlier);
      ObserveShows(ObserveAll(earlier), NoteAll(earlier), NumberOf(NoteAll(earlier), last));
    }
  }

  /** After any run, a sequence is reported as already received exactly when its number was
      observed before and lies at most 32 behind the newest. */
  lemma AlreadyReceivedIffInWindow(sequences: seq<SequenceNumber>, next: SequenceNumber)
    ensures var h := NoteAll(sequences); var u := NumberOf(h, next);
            HasAcked(ObserveAll(sequences), next) <==> Contains(h, u) && h.latest - u <= ACK_BIT_COUNT
  {
    AckWindowIsExact(sequences);
    AckedIsSeenInWindow(ObserveAll(sequences), NoteAll(sequences), NumberOf(NoteAll(sequences), next));
  }

  /** Tracks the newest received sequence and which of the 32 before it were received. */
  class ReliableAckTracker {
    var latestReceivedSequence: SequenceNumber
    var ackBitfield: Bits32
    var hasReceivedAnySequence: bool
    ghost var history: History

    function View(): AckState
      reads this
    {
      AckState(hasReceivedAnySequence, latestReceivedSequence, ackBitfield)
    }

    ghost predicate Valid()
      reads this
    {
      Shows(View(), history)
    }

    constructor ()
      ensures Valid() && View() == INITIAL_ACK_STATE && history == Nothing
    {
      latestReceivedSequence, ackBitfield, hasReceivedAnySequence := 0, Cleared(ACK_BIT_COUNT), false;
      history := Nothing;
    }

    method Reset()
      modifies this
      ensures Valid() && View() == INITIAL_ACK_STATE && history == Nothing
    {
      latestReceivedSequence, ackBitfield, hasReceivedAnySequence := 0, Cleared(ACK_BIT_COUNT), false;
      history := Nothing;
    }

    method ObserveReceivedSequence(sequence: SequenceNumber)
      requires Valid()
      modifies this
      ensures Valid() && View() == Observe(old(View()), sequence)
      ensures history == Note(old(history), NumberOf(old(history), sequence))
    {
      ghost var before, u := View(), NumberOf(history, sequence);
      ObserveShows(before, history, u);
      history := Note(history, u);
      if !hasReceivedAnySequence {
        latestReceivedSequence, ackBitfield, hasReceivedAnySequence := sequence, Cleared(ACK_BIT_COUNT), true;
        return;
      }
      if sequence == latestReceivedSequence {
        return;
      }
      if IsSequenceNewer(sequence, latestReceivedSequence) {
        var distance := Subtract(sequence, latestReceivedSequence);
        if distance > ACK_BIT_COUNT {
          ackBitfield := Cleared(ACK_BIT_COUNT);
        } else {
          NewerIsSerialOrder(sequence, latestReceivedSequence);
          ackBitfield := ShiftLeft(ackBitfield, distance);
          ackBitfield := SetBit(ackBitfield, distance - 1);
        }
        latestReceivedSequence := sequence;
        return;
      }
      var distance := Subtract(latestReceivedSequence, sequence);
      if distance == 0 || distance > ACK_BIT_COUNT {
        return;
      }
      ackBitfield := SetBit(ackBitfield, distance - 1);
    }

    method IsAcked(sequence: SequenceNumber) returns (acked: bool)
      requires Valid()
      ensures acked == HasAcked(View(), sequence)
      ensures var u := NumberOf(history, sequence);
              acked <==> Contains(history, u) && history.latest - u <= ACK_BIT_COUNT
    {
      AckedIsSeenInWindow(View(), history, NumberOf(history, sequence));
      if !hasReceivedAnySequence {
        return false;
      }
      return IsSequenceAcked(sequence, latestReceivedSequence, ackBitfield);
    }
  }
}
