// Packets waiting for an acknowledgement, their resends and their abandonment
// (Common/Net/Reliable/ReliableUdpSendWindow.h).

module ReliableUdpSendWindow {
  import opened SequenceNumber
  import opened BitWindow
  import opened PacketWire
  import opened ReliableUdpProtocol

  datatype PendingPacket = PendingPacket(sequence: SequenceNumber, packetBuffer: Bytes, lastSentTime: int, resendCount: nat)

  datatype WindowConfig = WindowConfig(maxPendingPacketCount: nat, maxResendCount: nat, resendInterval: int)

  datatype WindowState = WindowState(nextSequence: SequenceNumber, pending: seq<PendingPacket>, config: WindowConfig)

  const DEFAULT_CONFIG := WindowConfig(64, 10, 100)

  function ClampedResendCount(maxResendCount: int): nat {
    if maxResendCount < 0 then 0 else maxResendCount
  }

  predicate CanRegister(w: WindowState, packetBuffer: Bytes) {
    packetBuffer != [] && |w.pending| < w.config.maxPendingPacketCount
  }

  function Allocated(w: WindowState): WindowState {
    w.(nextSequence := Wrap(w.nextSequence + 1))
  }

  function Registered(w: WindowState, sequence: SequenceNumber, packetBuffer: Bytes, sentTime: int): WindowState {
    if CanRegister(w, packetBuffer)
    then w.(pending := w.pending + [PendingPacket(sequence, packetBuffer, sentTime, 0)])
    else w
  }

  // Acknowledgement.

  /** An ack for a sequence that was never allocated is refused; 0 stands for "nothing received". */
  predicate AcksAllocated(w: WindowState, ackSequence: SequenceNumber) {
    ackSequence == 0 || !IsSequenceNewer(ackSequence, Wrap(w.nextSequence - 1))
  }

  function Unacked(pending: seq<PendingPacket>, ackSequence: SequenceNumber, ackBitfield: Bits32): seq<PendingPacket> {
    if pending == [] then []
    else
      var rest := Unacked(pending[1..], ackSequence, ackBitfield);
      if IsSequenceAcked(pending[0].sequence, ackSequence, ackBitfield) then rest else [pending[0]] + rest
  }

  function Acked(w: WindowState, ackSequence: SequenceNumber, ackBitfield: Bits32): WindowState {
    if AcksAllocated(w, ackSequence) then w.(pending := Unacked(w.pending, ackSequence, ackBitfield)) else w
  }

  // Resending.

  datatype Fate = Waits | GivesUp | Resends

  function FateOf(p: PendingPacket, now: int, config: WindowConfig): Fate {
    if now - p.lastSentTime < config.resendInterval then Waits
    else if p.resendCount >= config.maxResendCount then GivesUp
    else Resends
  }

  function Resent(p: PendingPacket, now: int): PendingPacket {
    p.(lastSentTime := now, resendCount := p.resendCount + 1)
  }

  /** What is left in the window after a resend pass. */
  function Remaining(pending: seq<PendingPacket>, now: int, config: WindowConfig): seq<PendingPacket> {
    if pending == [] then []
    else
      var rest := Remaining(pending[1..], now, config);
      match FateOf(pending[0], now, config)
      case Waits => [pending[0]] + rest
      case GivesUp => rest
      case Resends => [Resent(pending[0], now)] + rest
  }

  function ToResend(pending: seq<PendingPacket>, now: int, config: WindowConfig): seq<PendingPacket> {
    if pending == [] then []
    else
      var rest := ToResend(pending[1..], now, config);
      if FateOf(pending[0], now, config) == Resends then [Resent(pending[0], now)] + rest else rest
  }

  function ToGiveUp(pending: seq<PendingPacket>, now: int, config: WindowConfig): seq<PendingPacket> {
    if pending == [] then []
    else
      var rest := ToGiveUp(pending[1..], now, config);
      if FateOf(pending[0], now, config) == GivesUp then [pending[0]] + rest else rest
  }

  function Extracted(w: WindowState, now: int): WindowState {
    w.(pending := Remaining(w.pending, now, w.config))
  }

  // What a pass hands out.

  /** Waited for its interval, with resends left. */
  predicate IsDue(p: PendingPacket, now: int, config: WindowConfig) {
    now - p.lastSentTime >= config.resendInterval && p.resendCount < config.maxResendCount
  }

  /** Waited for its interval, with no resends left. */
  predicate IsExhausted(p: PendingPacket, now: int, config: WindowConfig) {
    now - p.lastSentTime >= config.resendInterval && p.resendCount >= config.maxResendCount
  }

  /** These are places of the list, in rising order. */
  ghost predicate ArePlaces(places: seq<nat>, pending: seq<PendingPacket>) {
    && (forall k :: 0 <= k < |places| ==> places[k] < |pending|)
    && forall j, k :: 0 <= j < k < |places| ==> places[j] < places[k]
  }

  /** The same places, one further on, after the first place if that is among them. */
  function Shifted(isFirst: bool, places: seq<nat>): (shifted: seq<nat>)
    ensures |shifted| == |places| + if isFirst then 1 else 0
    ensures isFirst ==> shifted[0] == 0 && forall k :: 0 < k < |shifted| ==> shifted[k] == places[k - 1] + 1
    ensures !isFirst ==> forall k :: 0 <= k < |shifted| ==> shifted[k] == places[k] + 1
  {
    (if isFirst then [0] else []) + seq(|places|, k requires 0 <= k < |places| => places[k] + 1)
  }

  lemma ShiftedArePlaces(pending: seq<PendingPacket>, isFirst: bool, places: seq<nat>)
    requires pending != [] && ArePlaces(places, pending[1..])
    ensures ArePlaces(Shifted(isFirst, places), pending)
  {
    hide Shifted;
  }

  lemma ShiftedHolds(isFirst: bool, places: seq<nat>, i: nat)
    ensures i in Shifted(isFirst, places) <==> (i == 0 && isFirst) || (i > 0 && i - 1 in places)
  {
    hide Shifted;
    var shifted, n := Shifted(isFirst, places), if isFirst then 1 else 0;
    if i in shifted {
      var k :| 0 <= k < |shifted| && shifted[k] == i;
      if k >= n {
        assert places[k - n] == i - 1;
      }
    }
    if i > 0 && i - 1 in places {
      var k :| 0 <= k < |places| && places[k] == i - 1;
      assert shifted[k + n] == i;
    }
    if i == 0 && isFirst {
      assert shifted[0] == 0;
    }
  }

  /** `q` is `p` after the pass: the same bytes under the same sequence, if due sent now for one more time. */
  predicate IsAfterPass(q: PendingPacket, p: PendingPacket, now: int, config: WindowConfig) {
    && q.sequence == p.sequence && q.packetBuffer == p.packetBuffer
    && if IsDue(p, now, config) then q.lastSentTime == now && q.resendCount == p.resendCount + 1
       else q.lastSentTime == p.lastSentTime && q.resendCount == p.resendCount
  }

  /** The packets of these places, each once and in order, after the pass. */
  ghost predicate StandAt(out: seq<PendingPacket>, places: seq<nat>, pending: seq<PendingPacket>, now: int, config: WindowConfig) {
    && |out| == |places| && ArePlaces(places, pending)
    && forall k :: 0 <= k < |out| ==> IsAfterPass(out[k], pending[places[k]], now, config)
  }

  lemma ShiftedStandAt(
      first: seq<PendingPacket>, rest: seq<PendingPacket>, out: seq<PendingPacket>, places: seq<nat>, pending: seq<PendingPacket>, now: int,
      config: WindowConfig)
    requires pending != [] && StandAt(rest, places, pending[1..], now, config)
    requires |first| <= 1 && (first != [] ==> IsAfterPass(first[0], pending[0], now, config))
    requires out == if first == [] then rest else first + rest
    ensures StandAt(out, Shifted(first != [], places), pending, now, config)
  {
    ShiftedArePlaces(pending, first != [], places);
    hide Shifted, IsAfterPass, ArePlaces;
    var shifted := Shifted(first != [], places);
    forall k | 0 <= k < |out|
      ensures IsAfterPass(out[k], pending[shifted[k]], now, config)
    {
      if k >= |first| {
        assert out[k] == rest[k - |first|] && pending[shifted[k]] == pending[1..][places[k - |first|]];
      }
    }
  }

  /** A pass hands out exactly the pending packets that are due, each once and in order, as the same bytes under the same
      sequence, sent now for one more time. */
  lemma {:induction false} PassHandsOutTheDue(pending: seq<PendingPacket>, now: int, config: WindowConfig) returns (places: seq<nat>)
    ensures StandAt(ToResend(pending, now, config), places, pending, now, config)
    ensures forall i: nat :: i in places <==> i < |pending| && IsDue(pending[i], now, config)
  {
    hide StandAt, Shifted;
    if pending == [] {
      places := [];
      NothingStands(pending, now, config);
    } else {
      var rest := PassHandsOutTheDue(pending[1..], now, config);
      var isFirst := IsDue(pending[0], now, config);
      ShiftedStandAt(if isFirst then [Resent(pending[0], now)] else [], ToResend(pending[1..], now, config), ToResend(pending, now, config), rest, pending, now, config);
      places := Shifted(isFirst, rest);
      forall i: nat ensures i in places <==> i < |pending| && IsDue(pending[i], now, config) { ShiftedHolds(isFirst, rest, i); }
    }
  }

  lemma NothingStands(pending: seq<PendingPacket>, now: int, config: WindowConfig)
    ensures StandAt([], [], pending, now, config)
  {
  }

  /** It abandons exactly those with no resends left, each once, in order and as they are. */
  lemma {:induction false} PassAbandonsTheExhausted(pending: seq<PendingPacket>, now: int, config: WindowConfig) returns (places: seq<nat>)
    ensures StandAt(ToGiveUp(pending, now, config), places, pending, now, config)
    ensures forall i: nat :: i in places <==> i < |pending| && IsExhausted(pending[i], now, config)
  {
    hide StandAt, Shifted;
    if pending == [] {
      places := [];
      NothingStands(pending, now, config);
    } else {
      var rest := PassAbandonsTheExhausted(pending[1..], now, config);
      var isFirst := IsExhausted(pending[0], now, config);
      ShiftedStandAt(if isFirst then [pending[0]] else [], ToGiveUp(pending[1..], now, config), ToGiveUp(pending, now, config), rest, pending, now, config);
      places := Shifted(isFirst, rest);
      forall i: nat ensures i in places <==> i < |pending| && IsExhausted(pending[i], now, config) { ShiftedHolds(isFirst, rest, i); }
    }
  }

  /** And it leaves all others in the window, in order: those that were due as they were handed out, the rest as they are. */
  lemma {:induction false} PassLeavesTheOthers(pending: seq<PendingPacket>, now: int, config: WindowConfig) returns (places: seq<nat>)
    ensures StandAt(Remaining(pending, now, config), places, pending, now, config)
    ensures forall i: nat :: i in places <==> i < |pending| && !IsExhausted(pending[i], now, config)
  {
    hide StandAt, Shifted;
    if pending == [] {
      places := [];
      NothingStands(pending, now, config);
    } else {
      var rest := PassLeavesTheOthers(pending[1..], now, config);
      var isFirst := !IsExhausted(pending[0], now, config);
      ShiftedStandAt(if isFirst then [if IsDue(pending[0], now, config) then Resent(pending[0], now) else pending[0]] else [], Remaining(pending[1..], now, config), Remaining(pending, now, config), rest, pending, now, config);
      places := Shifted(isFirst, rest);
      forall i: nat ensures i in places <==> i < |pending| && !IsExhausted(pending[i], now, config) { ShiftedHolds(isFirst, rest, i); }
    }
  }

  /** A pass loses nothing: what it leaves and what it abandons are as many as there were. */
  lemma {:induction false} PassLosesNothing(pending: seq<PendingPacket>, now: int, config: WindowConfig)
    ensures |Remaining(pending, now, config)| + |ToGiveUp(pending, now, config)| == |pending|
  {
    if pending != [] {
      PassLosesNothing(pending[1..], now, config);
    }
  }

  /** The pass goes on behind what it has kept, handed out and abandoned. */
  lemma PassStep(
      resent: seq<PendingPacket>, abandoned: seq<PendingPacket>, kept: seq<PendingPacket>, rest: seq<PendingPacket>, now: int, config: WindowConfig)
    requires rest != []
    ensures var p, later := rest[0], rest[1..];
            if now - p.lastSentTime < config.resendInterval then
              && resent + ToResend(rest, now, config) == resent + ToResend(later, now, config)
              && abandoned + ToGiveUp(rest, now, config) == abandoned + ToGiveUp(later, now, config)
              && kept + Remaining(rest, now, config) == kept + [p] + Remaining(later, now, config)
            else if p.resendCount >= config.maxResendCount then
              && resent + ToResend(rest, now, config) == resent + ToResend(later, now, config)
              && abandoned + ToGiveUp(rest, now, config) == abandoned + [p] + ToGiveUp(later, now, config)
              && kept + Remaining(rest, now, config) == kept + Remaining(later, now, config)
            else
              && resent + ToResend(rest, now, config) == resent + [Resent(p, now)] + ToResend(later, now, config)
              && abandoned + ToGiveUp(rest, now, config) == abandoned + ToGiveUp(later, now, config)
              && kept + Remaining(rest, now, config) == kept + [Resent(p, now)] + Remaining(later, now, config)
  {
    var p, later := rest[0], rest[1..];
    Regroup(resent, Resent(p, now), ToResend(later, now, config));
    Regroup(abandoned, p, ToGiveUp(later, now, config));
    Regroup(kept, p, Remaining(later, now, config));
    Regroup(kept, Resent(p, now), Remaining(later, now, config));
  }

  lemma Regroup(first: seq<PendingPacket>, p: PendingPacket, rest: seq<PendingPacket>)
    ensures first + ([p] + rest) == first + [p] + rest
  {
  }

  lemma PassEnd(now: int, config: WindowConfig)
    ensures ToResend([], now, config) == [] && ToGiveUp([], now, config) == [] && Remaining([], now, config) == []
  {
  }

  /** The window itself. */
  class ReliableUdpSendWindow {
    var nextSequence: SequenceNumber
    var pendingPacketList: seq<PendingPacket>
    var maxPendingPacketCount: nat
    var maxResendCount: nat
    var resendInterval: int

    function View(): WindowState
      reads this
    {
      WindowState(nextSequence, pendingPacketList, WindowConfig(maxPendingPacketCount, maxResendCount, resendInterval))
    }

    constructor ()
      ensures View() == WindowState(1, [], DEFAULT_CONFIG)
    {
      nextSequence, pendingPacketList := 1, [];
      maxPendingPacketCount, maxResendCount, resendInterval := 64, 10, 100;
    }

    method Reset()
      modifies this
      ensures View() == old(View()).(nextSequence := 1, pending := [])
    {
      nextSequence := 1;
      pendingPacketList := [];
    }

    method Configure(maxPendingPacketCount: nat, maxResendCount: int, resendInterval: int)
      modifies this
      ensures View() == old(View()).(config := WindowConfig(maxPendingPacketCount, ClampedResendCount(maxResendCount), resendInterval))
    {
      this.maxPendingPacketCount := maxPendingPacketCount;
      this.maxResendCount := if maxResendCount < 0 then 0 else maxResendCount;
      this.resendInterval := resendInterval;
    }

    method AllocateSequence() returns (sequence: SequenceNumber)
      modifies this
      ensures sequence == old(nextSequence) && View() == Allocated(old(View()))
    {
      sequence := nextSequence;
      nextSequence := (nextSequence + 1) % RANGE;
    }

    method RegisterSentPacket(sequence: SequenceNumber, packetBuffer: Bytes, sentTime: int) returns (registered: bool)
      modifies this
      ensures registered == CanRegister(old(View()), packetBuffer)
      ensures View() == Registered(old(View()), sequence, packetBuffer, sentTime)
    {
      if packetBuffer == [] || |pendingPacketList| >= maxPendingPacketCount {
        return false;
      }
      pendingPacketList := pendingPacketList + [PendingPacket(sequence, packetBuffer, sentTime, 0)];
      return true;
    }

    method CanProcessAck(ackSequence: SequenceNumber) returns (can: bool)
      ensures can == AcksAllocated(View(), ackSequence)
    {
      if ackSequence == 0 {
        return true;
      }
      var latestAllocatedSequence := Subtract(nextSequence, 1);
      return !IsSequenceNewer(ackSequence, latestAllocatedSequence);
    }

    method ProcessAck(ackSequence: SequenceNumber, ackBitfield: Bits32) returns (processed: bool)
      modifies this
      ensures processed == AcksAllocated(old(View()), ackSequence)
      ensures View() == Acked(old(View()), ackSequence, ackBitfield)
    {
      var can := CanProcessAck(ackSequence);
      if !can {
        return false;
      }
      var i := 0;
      while i < |pendingPacketList|
        invariant 0 <= i <= |pendingPacketList|
        invariant Unacked(old(pendingPacketList), ackSequence, ackBitfield)
               == pendingPacketList[..i] + Unacked(pendingPacketList[i..], ackSequence, ackBitfield)
        invariant View() == old(View()).(pending := pendingPacketList)
        decreases |pendingPacketList| - i
      {
        ghost var rest := pendingPacketList[i..];
        if IsSequenceAcked(pendingPacketList[i].sequence, ackSequence, ackBitfield) {
          pendingPacketList := pendingPacketList[..i] + pendingPacketList[i + 1..];
          assert pendingPacketList[i..] == rest[1..];
          continue;
        }
        assert pendingPacketList[i + 1..] == rest[1..];
        i := i + 1;
      }
      return true;
    }

    method ExtractResendResult(
        currentTime: int) returns (resendPacketList: seq<PendingPacket>, giveUpPacketList: seq<PendingPacket>)
      modifies this
      ensures View() == Extracted(old(View()), currentTime)
      ensures resendPacketList == ToResend(old(pendingPacketList), currentTime, old(View()).config)
      ensures giveUpPacketList == ToGiveUp(old(pendingPacketList), currentTime, old(View()).config)
    {
      hide Remaining, ToResend, ToGiveUp, FateOf;
      ghost var config := View().config;
      resendPacketList, giveUpPacketList := [], [];
      ghost var kept, rest := [], pendingPacketList;
      var i := 0;
      while i < |pendingPacketList|
        invariant |kept| == i && pendingPacketList == kept + rest
        invariant Remaining(old(pendingPacketList), currentTime, config) == kept + Remaining(rest, currentTime, config)
        invariant ToResend(old(pendingPacketList), currentTime, config) == resendPacketList + ToResend(rest, currentTime, config)
        invariant ToGiveUp(old(pendingPacketList), currentTime, config) == giveUpPacketList + ToGiveUp(rest, currentTime, config)
        invariant View() == old(View()).(pending := pendingPacketList)
        decreases |rest|
      {
        var pendingPacket := pendingPacketList[i];
        PassStep(resendPacketList, giveUpPacketList, kept, rest, currentTime, config);
        rest := rest[1..];
        if currentTime - pendingPacket.lastSentTime < resendInterval {
          kept := kept + [pendingPacket];
          i := i + 1;
          continue;
        }
        if pendingPacket.resendCount >= maxResendCount {
          giveUpPacketList := giveUpPacketList + [pendingPacket];
          pendingPacketList := pendingPacketList[..i] + pendingPacketList[i + 1..];
          continue;
        }
        pendingPacket := pendingPacket.(lastSentTime := currentTime, resendCount := pendingPacket.resendCount + 1);
        pendingPacketList := pendingPacketList[i := pendingPacket];
        resendPacketList := resendPacketList + [pendingPacket];
        kept := kept + [pendingPacket];
        i := i + 1;
      }
      PassEnd(currentTime, config);
    }
  }
}
