// The 256-wide replay window (Common/Net/Auth/PacketReplayGuard.cpp).

module PacketReplayGuard {
  import opened SequenceNumber
  import opened BitWindow
  import opened ReceiveHistory

  const REPLAY_WINDOW_BIT_COUNT := 256

  datatype ObserveStatus = New | Duplicate | TooOld

  // The reference: a set of accepted numbers, of which the last 256 matter.

  function Verdict(accepted: History, u: int): ObserveStatus {
    if accepted.Nothing? || u > accepted.latest then New
    else if accepted.latest - u >= REPLAY_WINDOW_BIT_COUNT then TooOld
    else if u in accepted.numbers then Duplicate
    else New
  }

  function Accept(accepted: History, u: int): History {
    if Verdict(accepted, u) == New then Note(accepted, u) else accepted
  }

  // The guard's own fields and branches.

  type ReplayBits = b: Bits | |b| == REPLAY_WINDOW_BIT_COUNT witness Cleared(REPLAY_WINDOW_BIT_COUNT)

  datatype GuardState = GuardState(hasReceived: bool, latest: SequenceNumber, received: ReplayBits)

  const INITIAL_GUARD := GuardState(false, 0, Cleared(REPLAY_WINDOW_BIT_COUNT))

  datatype Observation = Observation(status: ObserveStatus, guard: GuardState)

  function Observe(g: GuardState, sequence: SequenceNumber): Observation {
    if !g.hasReceived then
      Observation(New, GuardState(true, sequence, SetBit(g.received, 0)))
    else if sequence == g.latest then
      Observation(Duplicate, g)
    else if IsSequenceNewer(sequence, g.latest) then
      var distance := Subtract(sequence, g.latest);
      var moved := if distance >= REPLAY_WINDOW_BIT_COUNT then Cleared(REPLAY_WINDOW_BIT_COUNT)
                   else ShiftLeft(g.received, distance);
      Observation(New, GuardState(true, sequence, SetBit(moved, 0)))
    else
      var distance := Subtract(g.latest, sequence);
      if distance >= REPLAY_WINDOW_BIT_COUNT then Observation(TooOld, g)
      else if g.received[distance] then Observation(Duplicate, g)
      else Observation(New, g.(received := SetBit(g.received, distance)))
  }

  predicate RemembersNewest(g: GuardState) {
    g.hasReceived ==> g.received[0]
  }

  /** A sequence answered New or Duplicate is a Duplicate right afterwards. */
  lemma SeenIsDuplicate(g: GuardState, sequence: SequenceNumber)
    requires RemembersNewest(g) && Observe(g, sequence).status != TooOld
    ensures Observe(Observe(g, sequence).guard, sequence).status == Duplicate
    ensures RemembersNewest(Observe(g, sequence).guard)
  {
  }

  ghost predicate Shows(g: GuardState, accepted: History) {
    && Consistent(accepted)
    && g.hasReceived == accepted.Seen?
    && (accepted.Nothing? ==> g == INITIAL_GUARD)
    && (accepted.Seen? ==>
          && g.latest == Wrap(accepted.latest)
          && forall i :: 0 <= i < REPLAY_WINDOW_BIT_COUNT ==> (g.received[i] <==> accepted.latest - i in accepted.numbers))
  }

  /** One observation answers as the reference does and keeps showing it. */
  lemma ObserveRefines(g: GuardState, accepted: History, u: int)
    requires Shows(g, accepted) && Distinguishable(accepted, u)
    ensures Observe(g, Wrap(u)).status == Verdict(accepted, u)
    ensures Shows(Observe(g, Wrap(u)).guard, Accept(accepted, u))
  {
    NoteKeepsConsistent(accepted, u);
    if accepted.Seen? {
      NewerIsGreater(accepted.latest, u);
      var g', h' := Observe(g, Wrap(u)).guard, Accept(accepted, u);
      var distance := u - accepted.latest;
      if -REPLAY_WINDOW_BIT_COUNT < distance <= 0 {
        assert g.received[-distance] <==> accepted.latest - (-distance) in accepted.numbers;
      }
      forall i | 0 <= i < REPLAY_WINDOW_BIT_COUNT
        ensures g'.received[i] <==> h'.latest - i in h'.numbers
      {
        if 0 < distance <= i {
          assert g.received[i - distance] <==> accepted.latest - (i - distance) in accepted.numbers;
        }
      }
    }
  }

  // Whole runs of one guard.

  function ObserveAll(sequences: seq<SequenceNumber>): GuardState {
    if sequences == [] then INITIAL_GUARD
    else Observe(ObserveAll(sequences[..|sequences| - 1]), sequences[|sequences| - 1]).guard
  }

  function AcceptAll(sequences: seq<SequenceNumber>): History {
    if sequences == [] then Nothing
    else
      var accepted := AcceptAll(sequences[..|sequences| - 1]);
      Accept(accepted, NumberOf(accepted, sequences[|sequences| - 1]))
  }

  lemma {:induction false} RunShows(sequences: seq<SequenceNumber>)
    ensures Shows(ObserveAll(sequences), AcceptAll(sequences))
  {
    if sequences != [] {
      var earlier, last := sequences[..|sequences| - 1], sequences[|sequences| - 1];
      RunShows(earlier);
      ObserveRefines(ObserveAll(earlier), AcceptAll(earlier), NumberOf(AcceptAll(earlier), last));
    }
  }

  /** After any run the guard answers the next sequence as the set of accepted numbers does. */
  lemma GuardRefinesSet(sequences: seq<SequenceNumber>, next: SequenceNumber)
    ensures Observe(ObserveAll(sequences), next).status
         == Verdict(AcceptAll(sequences), NumberOf(AcceptAll(sequences), next))
  {
    RunShows(sequences);
    ObserveRefines(ObserveAll(sequences), AcceptAll(sequences), NumberOf(AcceptAll(sequences), next));
  }

  /** How far the newest number is past an accepted one, as far as 32 bits can tell. */
  function LagOf(accepted: History, u: int): int
    requires accepted.Seen?
  {
    (accepted.latest - u) % RANGE
  }

  /** An accepted number, played again at any later time, is accepted again exactly when it seems to lie
      ahead, or when it seems to be a recent number that has not been accepted. */
  lemma ReplayIsNewIff(sequences: seq<SequenceNumber>, u: int)
    requires Contains(AcceptAll(sequences), u)
    ensures var accepted, lag := AcceptAll(sequences), LagOf(AcceptAll(sequences), u);
            Observe(ObserveAll(sequences), Wrap(u)).status == New
            <==> lag > HALF_RANGE || (lag < REPLAY_WINDOW_BIT_COUNT && accepted.latest - lag !in accepted.numbers)
  {
    var accepted, lag := AcceptAll(sequences), LagOf(AcceptAll(sequences), u);
    var turns := (accepted.latest - u) / RANGE;
    hide ObserveAll, AcceptAll, Observe, NumberOf;
    RunShows(sequences);
    GuardRefinesSet(sequences, Wrap(u));
    if lag > HALF_RANGE {
      WrapShift(u, turns + 1);
      NumberOfFinds(accepted, accepted.latest - lag + RANGE);
    } else {
      WrapShift(u, turns);
      NumberOfFinds(accepted, accepted.latest - lag);
    }
  }

  /** Before the sequence space has gone round, that is when the newest number is more than half the range past it. */
  lemma ReplayIsNewOnlyPastHalfRange(sequences: seq<SequenceNumber>, u: int)
    requires Contains(AcceptAll(sequences), u)
    requires AcceptAll(sequences).latest - u < RANGE
    ensures Observe(ObserveAll(sequences), Wrap(u)).status == New
       <==> AcceptAll(sequences).latest - u > HALF_RANGE
  {
    hide ObserveAll, AcceptAll, Observe;
    RunShows(sequences);
    ReplayIsNewIff(sequences, u);
    assert LagOf(AcceptAll(sequences), u) == AcceptAll(sequences).latest - u;
  }

  /** It happens: 0 is accepted, the newest sequence moves past it in two strides, and 0 is accepted again;
      and then, a full range past the first 0, it is a duplicate. */
  lemma ReplayIsNewInARun()
    ensures var strides := [0, 0x7FFF_FFFF, 0xFFFF_FFFE];
            && Contains(AcceptAll(strides), 0) && Observe(ObserveAll(strides), 0).status == New
            && Contains(AcceptAll(strides + [0]), 0) && AcceptAll(strides + [0]).latest == RANGE
            && Observe(ObserveAll(strides + [0]), 0).status == Duplicate
  {
    var strides: seq<SequenceNumber> := [0, 0x7FFF_FFFF, 0xFFFF_FFFE];
    assert strides[..2] == [0, 0x7FFF_FFFF] && strides[..2][..1] == [0];
    assert (strides + [0])[..3] == strides;
    assert AcceptAll([0]) == Seen(0, {0});
    assert AcceptAll(strides[..2]) == Seen(0x7FFF_FFFF, {0, 0x7FFF_FFFF});
    assert AcceptAll(strides) == Seen(0xFFFF_FFFE, {0, 0x7FFF_FFFF, 0xFFFF_FFFE});
    assert NumberOf(AcceptAll(strides), 0) == RANGE;
  }

  /** Keeps the receive history of recent authentication sequences to stop replayed packets. */
  class PacketReplayGuard {
    var latestSequence: SequenceNumber
    var receivedBitfield: ReplayBits
    var hasReceivedSequence: bool
    ghost var accepted: History

    function View(): GuardState
      reads this
    {
      GuardState(hasReceivedSequence, latestSequence, receivedBitfield)
    }

    ghost predicate Valid()
      reads this
    {
      Shows(View(), accepted)
    }

    constructor ()
      ensures Valid() && View() == INITIAL_GUARD && accepted == Nothing
    {
      latestSequence, receivedBitfield, hasReceivedSequence := 0, Cleared(REPLAY_WINDOW_BIT_COUNT), false;
      accepted := Nothing;
    }

    method Reset()
      modifies this
      ensures Valid() && View() == INITIAL_GUARD && accepted == Nothing
    {
      latestSequence, receivedBitfield, hasReceivedSequence := 0, Cleared(REPLAY_WINDOW_BIT_COUNT), false;
      accepted := Nothing;
    }

    method ObserveSequence(sequence: SequenceNumber) returns (status: ObserveStatus)
      requires Valid()
      modifies this
      ensures Valid()
      ensures status == Verdict(old(accepted), NumberOf(old(accepted), sequence))
      ensures accepted == Accept(old(accepted), NumberOf(old(accepted), sequence))
      ensures View() == Observe(old(View()), sequence).guard
    {
      ObserveRefines(View(), accepted, NumberOf(accepted, sequence));
      accepted := Accept(accepted, NumberOf(accepted, sequence));
      if !hasReceivedSequence {
        latestSequence := sequence;
        receivedBitfield := SetBit(receivedBitfield, 0);
        hasReceivedSequence := true;
        return New;
      }
      if sequence == latestSequence {
        return Duplicate;
      }
      if IsSequenceNewer(sequence, latestSequence) {
        var distance := Subtract(sequence, latestSequence);
        if distance >= REPLAY_WINDOW_BIT_COUNT {
          receivedBitfield := Cleared(REPLAY_WINDOW_BIT_COUNT);
        } else {
          receivedBitfield := ShiftLeft(receivedBitfield, distance);
        }
        receivedBitfield := SetBit(receivedBitfield, 0);
        latestSequence := sequence;
        return New;
      }
      var distance := Subtract(latestSequence, sequence);
      if distance >= REPLAY_WINDOW_BIT_COUNT {
        return TooOld;
      }
      if receivedBitfield[distance] {
        return Duplicate;
      }
      receivedBitfield := SetBit(receivedBitfield, distance);
      return New;
    }

    method TryAccept(sequence: SequenceNumber) returns (isNew: bool)
      requires Valid()
      modifies this
      ensures Valid() && View() == Observe(old(View()), sequence).guard
      ensures accepted == Accept(old(accepted), NumberOf(old(accepted), sequence))
      ensures isNew <==> Verdict(old(accepted), NumberOf(old(accepted), sequence)) == New
    {
      var status := ObserveSequence(sequence);
      return status == New;
    }
  }
}
