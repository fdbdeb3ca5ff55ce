// What becomes of every packet a send window ever registered.

module SendLedger {
  import opened SequenceNumber
  import opened BitWindow
  import opened PacketWire
  import opened ReliableUdpProtocol
  import opened ReliableUdpSendWindow

  /** A pending packet and the unwrapped number its sequence stands for. */
  datatype Tracked = Tracked(id: int, packet: PendingPacket)

  /** A window with its accounts: when each registered packet was sent, and which were acked or abandoned. */
  datatype Ledger = Ledger(
    window: WindowState,
    lastAllocated: nat,
    tracked: seq<Tracked>,
    sends: map<int, seq<int>>,
    acked: set<int>,
    gaveUp: set<int>)

  datatype Op =
    | Allocate
    | Send(packetBuffer: Bytes, now: int)
    | Ack(ackSequence: SequenceNumber, ackBitfield: Bits32)
    | Extract(time: int)

  function Opened(config: WindowConfig): Ledger {
    Ledger(WindowState(1, [], config), 0, [], map[], {}, {})
  }

  function Packets(tracked: seq<Tracked>): seq<PendingPacket> {
    if tracked == [] then [] else [tracked[0].packet] + Packets(tracked[1..])
  }

  function Ids(tracked: seq<Tracked>): set<int> {
    if tracked == [] then {} else {tracked[0].id} + Ids(tracked[1..])
  }

  predicate IsAckedBy(t: Tracked, ackSequence: SequenceNumber, ackBitfield: Bits32) {
    IsSequenceAcked(t.packet.sequence, ackSequence, ackBitfield)
  }

  function UnackedTracked(tracked: seq<Tracked>, ackSequence: SequenceNumber, ackBitfield: Bits32): seq<Tracked> {
    if tracked == [] then []
    else
      var rest := UnackedTracked(tracked[1..], ackSequence, ackBitfield);
      if IsAckedBy(tracked[0], ackSequence, ackBitfield) then rest else [tracked[0]] + rest
  }

  function AckedIds(tracked: seq<Tracked>, ackSequence: SequenceNumber, ackBitfield: Bits32): set<int> {
    if tracked == [] then {}
    else
      var rest := AckedIds(tracked[1..], ackSequence, ackBitfield);
      if IsAckedBy(tracked[0], ackSequence, ackBitfield) then {tracked[0].id} + rest else rest
  }

  function RemainingTracked(tracked: seq<Tracked>, now: int, config: WindowConfig): seq<Tracked> {
    if tracked == [] then []
    else
      var rest := RemainingTracked(tracked[1..], now, config);
      match FateOf(tracked[0].packet, now, config)
      case Waits => [tracked[0]] + rest
      case GivesUp => rest
      case Resends => [tracked[0].(packet := Resent(tracked[0].packet, now))] + rest
  }

  function IdsWithFate(tracked: seq<Tracked>, fate: Fate, now: int, config: WindowConfig): set<int> {
    if tracked == [] then {}
    else
      var rest := IdsWithFate(tracked[1..], fate, now, config);
      if FateOf(tracked[0].packet, now, config) == fate then {tracked[0].id} + rest else rest
  }

  function AfterAllocate(l: Ledger): Ledger {
    l.(window := Allocated(l.window), lastAllocated := l.lastAllocated + 1)
  }

  function AfterSend(l: Ledger, packetBuffer: Bytes, now: int): Ledger {
    var l0 := AfterAllocate(l);
    if !CanRegister(l0.window, packetBuffer) then l0
    else l0.(
      window := Registered(l0.window, l.window.nextSequence, packetBuffer, now),
      tracked := l.tracked + [Tracked(l0.lastAllocated, PendingPacket(l.window.nextSequence, packetBuffer, now, 0))],
      sends := l.sends[l0.lastAllocated := [now]])
  }

  function AfterAck(l: Ledger, ackSequence: SequenceNumber, ackBitfield: Bits32): Ledger {
    var window := Acked(l.window, ackSequence, ackBitfield);
    if !AcksAllocated(l.window, ackSequence) then l.(window := window)
    else l.(
      window := window,
      tracked := UnackedTracked(l.tracked, ackSequence, ackBitfield),
      acked := l.acked + AckedIds(l.tracked, ackSequence, ackBitfield))
  }

  function AfterExtract(l: Ledger, now: int): Ledger {
    var config := l.window.config;
    var resent := IdsWithFate(l.tracked, Resends, now, config);
    l.(
      window := Extracted(l.window, now),
      tracked := RemainingTracked(l.tracked, now, config),
      sends := map id | id in l.sends :: if id in resent then l.sends[id] + [now] else l.sends[id],
      gaveUp := l.gaveUp + IdsWithFate(l.tracked, GivesUp, now, config))
  }

  function Step(l: Ledger, op: Op): Ledger {
    match op
    case Allocate => AfterAllocate(l)
    case Send(packetBuffer, now) => AfterSend(l, packetBuffer, now)
    case Ack(ackSequence, ackBitfield) => AfterAck(l, ackSequence, ackBitfield)
    case Extract(now) => AfterExtract(l, now)
  }

  function Run(config: WindowConfig, ops: seq<Op>): Ledger {
    if ops == [] then Opened(config) else Step(Run(config, ops[..|ops| - 1]), ops[|ops| - 1])
  }

  // The invariant.

  ghost predicate Ordered(tracked: seq<Tracked>) {
    tracked != [] ==>
      (forall id :: id in Ids(tracked[1..]) ==> tracked[0].id < id) && Ordered(tracked[1..])
  }

  /** The pending packets carry the numbers they were allocated, in increasing order. */
  ghost predicate Numbered(l: Ledger) {
    && Packets(l.tracked) == l.window.pending
    && l.window.nextSequence == Wrap(l.lastAllocated + 1)
    && Ordered(l.tracked)
    && forall t :: t in l.tracked ==> 1 <= t.id <= l.lastAllocated && t.packet.sequence == Wrap(t.id)
  }

  /** Every registered packet is in exactly one place. */
  ghost predicate Partitioned(l: Ledger) {
    && l.sends.Keys == Ids(l.tracked) + l.acked + l.gaveUp
    && Ids(l.tracked) !! l.acked && Ids(l.tracked) !! l.gaveUp && l.acked !! l.gaveUp
    && (forall id :: id in l.sends ==> id <= l.lastAllocated)
    && |l.tracked| <= l.window.config.maxPendingPacketCount
  }

  ghost predicate Spaced(times: seq<int>, interval: int) {
    forall k :: 0 <= k < |times| - 1 ==> times[k + 1] - times[k] >= interval
  }

  /** The accounts show when this pending packet was sent. */
  ghost predicate SentAsRecorded(t: Tracked, sends: map<int, seq<int>>, config: WindowConfig) {
    && t.id in sends
    && |sends[t.id]| == t.packet.resendCount + 1
    && sends[t.id][t.packet.resendCount] == t.packet.lastSentTime
    && t.packet.resendCount <= config.maxResendCount
  }

  /** Every packet was sent often enough, not too often, and not too soon after the last time. */
  ghost predicate Paced(l: Ledger) {
    var config := l.window.config;
    && (forall id :: id in l.sends ==>
          1 <= |l.sends[id]| <= config.maxResendCount + 1 && Spaced(l.sends[id], config.resendInterval))
    && (forall t :: t in l.tracked ==> SentAsRecorded(t, l.sends, config))
    && (forall id :: id in l.gaveUp ==> id in l.sends && |l.sends[id]| == config.maxResendCount + 1)
  }

  ghost predicate Conserved(l: Ledger) {
    Numbered(l) && Partitioned(l) && Paced(l)
  }

  // How an append and the two sweeps act on the tracked packets.

  lemma {:induction false} Append(tracked: seq<Tracked>, t: Tracked)
    requires Ordered(tracked) && forall id :: id in Ids(tracked) ==> id < t.id
    ensures Packets(tracked + [t]) == Packets(tracked) + [t.packet]
    ensures Ids(tracked + [t]) == Ids(tracked) + {t.id}
    ensures Ordered(tracked + [t])
  {
    if tracked != [] {
      assert Ids(tracked) == {tracked[0].id} + Ids(tracked[1..]);
      Append(tracked[1..], t);
      assert (tracked + [t])[1..] == tracked[1..] + [t];
    }
  }

  lemma {:induction false} PacketsLength(tracked: seq<Tracked>)
    ensures |Packets(tracked)| == |tracked|
  {
    if tracked != [] {
      PacketsLength(tracked[1..]);
    }
  }

  lemma {:induction false} IdsAreMembers(tracked: seq<Tracked>)
    ensures forall t :: t in tracked ==> t.id in Ids(tracked)
    ensures forall id :: id in Ids(tracked) ==> exists t :: t in tracked && t.id == id
  {
    if tracked != [] {
      IdsAreMembers(tracked[1..]);
      assert tracked == [tracked[0]] + tracked[1..];
    }
  }

  lemma {:induction false} UnackedSweep(tracked: seq<Tracked>, ackSequence: SequenceNumber, ackBitfield: Bits32)
    requires Ordered(tracked)
    ensures var left, gone := UnackedTracked(tracked, ackSequence, ackBitfield), AckedIds(tracked, ackSequence, ackBitfield);
            && Packets(left) == Unacked(Packets(tracked), ackSequence, ackBitfield)
            && Ids(left) + gone == Ids(tracked) && Ids(left) !! gone
            && Ordered(left)
            && |left| <= |tracked|
            && (forall t :: t in left ==> t in tracked)
  {
    if tracked != [] {
      UnackedSweep(tracked[1..], ackSequence, ackBitfield);
      assert Packets(tracked)[1..] == Packets(tracked[1..]);
      assert tracked == [tracked[0]] + tracked[1..];
      var rest := UnackedTracked(tracked[1..], ackSequence, ackBitfield);
      assert ([tracked[0]] + rest)[1..] == rest;
    }
  }

  lemma {:induction false} RemainingSweep(tracked: seq<Tracked>, now: int, config: WindowConfig)
    requires Ordered(tracked)
    ensures var left, gone := RemainingTracked(tracked, now, config), IdsWithFate(tracked, GivesUp, now, config);
            && Packets(left) == Remaining(Packets(tracked), now, config)
            && Ids(left) + gone == Ids(tracked) && Ids(left) !! gone
            && Ordered(left)
            && |left| <= |tracked|
  {
    if tracked != [] {
      RemainingSweep(tracked[1..], now, config);
      assert Packets(tracked)[1..] == Packets(tracked[1..]);
      var head, rest := tracked[0], RemainingTracked(tracked[1..], now, config);
      assert ([head] + rest)[1..] == rest;
      assert ([head.(packet := Resent(head.packet, now))] + rest)[1..] == rest;
    }
  }

  lemma {:induction false} FateIdsWithin(tracked: seq<Tracked>, fate: Fate, now: int, config: WindowConfig)
    requires Ordered(tracked)
    ensures IdsWithFate(tracked, fate, now, config) <= Ids(tracked)
    ensures forall t :: t in tracked ==> (t.id in IdsWithFate(tracked, fate, now, config) <==> FateOf(t.packet, now, config) == fate)
    ensures forall id :: id in IdsWithFate(tracked, fate, now, config) ==>
              exists t :: t in tracked && t.id == id && FateOf(t.packet, now, config) == fate
  {
    if tracked != [] {
      FateIdsWithin(tracked[1..], fate, now, config);
      IdsAreMembers(tracked[1..]);
      assert tracked == [tracked[0]] + tracked[1..];
    }
  }

  /** The send times kept after a resend pass. */
  ghost predicate Extended(s: Tracked, sends: map<int, seq<int>>, sends': map<int, seq<int>>, now: int, config: WindowConfig) {
    && SentAsRecorded(s, sends, config)
    && s.id in sends'
    && sends'[s.id] == if FateOf(s.packet, now, config) == Resends then sends[s.id] + [now] else sends[s.id]
  }

  lemma {:induction false} RemainingAsRecorded(
      tracked: seq<Tracked>, sends: map<int, seq<int>>, sends': map<int, seq<int>>, now: int, config: WindowConfig)
    requires forall s :: s in tracked ==> Extended(s, sends, sends', now, config)
    ensures forall t :: t in RemainingTracked(tracked, now, config) ==> SentAsRecorded(t, sends', config)
  {
    if tracked != [] {
      var head, rest := tracked[0], RemainingTracked(tracked[1..], now, config);
      assert tracked == [head] + tracked[1..];
      RemainingAsRecorded(tracked[1..], sends, sends', now, config);
      assert Extended(head, sends, sends', now, config);
    }
  }

  // Every operation keeps the accounts.

  lemma WrapSuccessor(u: int)
    ensures Wrap(Wrap(u) + 1) == Wrap(u + 1)
    ensures Wrap(Wrap(u) - 1) == Wrap(u - 1)
  {
    WrapShift(u + 1, -(u / RANGE));
    WrapShift(u - 1, -(u / RANGE));
  }

  lemma AllocateConserves(l: Ledger)
    requires Conserved(l)
    ensures Conserved(AfterAllocate(l))
  {
    WrapSuccessor(l.lastAllocated + 1);
  }

  lemma SendNumbers(l: Ledger, packetBuffer: Bytes, now: int)
    requires Numbered(l)
    ensures Numbered(AfterSend(l, packetBuffer, now))
  {
    WrapSuccessor(l.lastAllocated + 1);
    IdsAreMembers(l.tracked);
    Append(l.tracked, Tracked(l.lastAllocated + 1, PendingPacket(l.window.nextSequence, packetBuffer, now, 0)));
  }

  lemma SendPartitions(l: Ledger, packetBuffer: Bytes, now: int)
    requires Numbered(l) && Partitioned(l)
    ensures Partitioned(AfterSend(l, packetBuffer, now))
  {
    PacketsLength(l.tracked);
    IdsAreMembers(l.tracked);
    Append(l.tracked, Tracked(l.lastAllocated + 1, PendingPacket(l.window.nextSequence, packetBuffer, now, 0)));
  }

  lemma SendPaces(l: Ledger, packetBuffer: Bytes, now: int)
    requires Conserved(l)
    ensures Paced(AfterSend(l, packetBuffer, now))
  {
    IdsAreMembers(l.tracked);
  }

  lemma SendConserves(l: Ledger, packetBuffer: Bytes, now: int)
    requires Conserved(l)
    ensures Conserved(AfterSend(l, packetBuffer, now))
  {
    SendNumbers(l, packetBuffer, now);
    SendPartitions(l, packetBuffer, now);
    SendPaces(l, packetBuffer, now);
  }

  lemma AckConserves(l: Ledger, ackSequence: SequenceNumber, ackBitfield: Bits32)
    requires Conserved(l)
    ensures Conserved(AfterAck(l, ackSequence, ackBitfield))
  {
    UnackedSweep(l.tracked, ackSequence, ackBitfield);
  }

  lemma ExtractNumbers(l: Ledger, now: int)
    requires Numbered(l)
    ensures Numbered(AfterExtract(l, now))
  {
    RemainingSweep(l.tracked, now, l.window.config);
    RemainingKeepsSequences(l.tracked, now, l.window.config);
  }

  lemma {:induction false} RemainingKeepsSequences(tracked: seq<Tracked>, now: int, config: WindowConfig)
    ensures forall t :: t in RemainingTracked(tracked, now, config) ==>
              exists s :: s in tracked && s.id == t.id && s.packet.sequence == t.packet.sequence && s.packet.packetBuffer == t.packet.packetBuffer
  {
    if tracked != [] {
      RemainingKeepsSequences(tracked[1..], now, config);
      assert tracked == [tracked[0]] + tracked[1..];
    }
  }

  lemma ExtractPartitions(l: Ledger, now: int)
    requires Numbered(l) && Partitioned(l)
    ensures Partitioned(AfterExtract(l, now))
  {
    RemainingSweep(l.tracked, now, l.window.config);
  }

  lemma ExtractRecords(l: Ledger, now: int)
    requires Conserved(l)
    ensures var l' := AfterExtract(l, now);
            forall t :: t in l'.tracked ==> SentAsRecorded(t, l'.sends, l.window.config)
  {
    var config := l.window.config;
    FateIdsWithin(l.tracked, Resends, now, config);
    forall s | s in l.tracked
      ensures Extended(s, l.sends, AfterExtract(l, now).sends, now, config)
    {
      assert SentAsRecorded(s, l.sends, config);
    }
    RemainingAsRecorded(l.tracked, l.sends, AfterExtract(l, now).sends, now, config);
  }

  lemma OneMoreIsSpaced(times: seq<int>, now: int, interval: int)
    requires times != [] && Spaced(times, interval) && now - times[|times| - 1] >= interval
    ensures Spaced(times + [now], interval)
  {
  }

  lemma ExtractSpaces(l: Ledger, now: int, id: int)
    requires Conserved(l) && id in l.sends
    ensures var times := AfterExtract(l, now).sends[id];
            1 <= |times| <= l.window.config.maxResendCount + 1 && Spaced(times, l.window.config.resendInterval)
  {
    var config := l.window.config;
    FateIdsWithin(l.tracked, Resends, now, config);
    hide Numbered, Partitioned, Ordered, Ids, IdsWithFate, RemainingTracked, Extracted, Spaced;
    if id in IdsWithFate(l.tracked, Resends, now, config) {
      var s :| s in l.tracked && s.id == id && FateOf(s.packet, now, config) == Resends;
      assert SentAsRecorded(s, l.sends, config);
      OneMoreIsSpaced(l.sends[id], now, config.resendInterval);
    }
  }

  lemma ExtractGivesUpLate(l: Ledger, now: int, id: int)
    requires Conserved(l) && id in AfterExtract(l, now).gaveUp
    ensures id in l.sends && |AfterExtract(l, now).sends[id]| == l.window.config.maxResendCount + 1
  {
    var config := l.window.config;
    FateIdsWithin(l.tracked, Resends, now, config);
    FateIdsWithin(l.tracked, GivesUp, now, config);
    if id !in l.gaveUp {
      var s :| s in l.tracked && s.id == id && FateOf(s.packet, now, config) == GivesUp;
      assert SentAsRecorded(s, l.sends, config);
    }
  }

  lemma ExtractConserves(l: Ledger, now: int)
    requires Conserved(l)
    ensures Conserved(AfterExtract(l, now))
  {
    var l' := AfterExtract(l, now);
    ExtractNumbers(l, now);
    ExtractPartitions(l, now);
    assert Paced(l') by {
      ExtractRecords(l, now);
      forall id | id in l'.sends
        ensures 1 <= |l'.sends[id]| <= l'.window.config.maxResendCount + 1 && Spaced(l'.sends[id], l'.window.config.resendInterval)
      {
        ExtractSpaces(l, now, id);
      }
      forall id | id in l'.gaveUp
        ensures id in l'.sends && |l'.sends[id]| == l'.window.config.maxResendCount + 1
      {
        ExtractGivesUpLate(l, now, id);
      }
    }
  }

  // What a pass hands out is what its accounts say.

  function ResentTracked(tracked: seq<Tracked>, now: int, config: WindowConfig): seq<Tracked> {
    if tracked == [] then []
    else
      var rest := ResentTracked(tracked[1..], now, config);
      if FateOf(tracked[0].packet, now, config) == Resends then [tracked[0].(packet := Resent(tracked[0].packet, now))] + rest else rest
  }

  function AbandonedTracked(tracked: seq<Tracked>, now: int, config: WindowConfig): seq<Tracked> {
    if tracked == [] then []
    else
      var rest := AbandonedTracked(tracked[1..], now, config);
      if FateOf(tracked[0].packet, now, config) == GivesUp then [tracked[0]] + rest else rest
  }

  lemma {:induction false} ResentSweep(tracked: seq<Tracked>, now: int, config: WindowConfig)
    requires Ordered(tracked)
    ensures var resent := ResentTracked(tracked, now, config);
            && Packets(resent) == ToResend(Packets(tracked), now, config)
            && Ids(resent) == IdsWithFate(tracked, Resends, now, config) && Ids(resent) <= Ids(tracked)
            && Ordered(resent) && forall t :: t in resent ==> t in RemainingTracked(tracked, now, config)
  {
    if tracked != [] {
      ResentSweep(tracked[1..], now, config);
      assert Packets(tracked)[1..] == Packets(tracked[1..]);
      var head, rest := tracked[0].(packet := Resent(tracked[0].packet, now)), ResentTracked(tracked[1..], now, config);
      assert ([head] + rest)[1..] == rest;
    }
  }

  lemma {:induction false} AbandonedSweep(tracked: seq<Tracked>, now: int, config: WindowConfig)
    requires Ordered(tracked)
    ensures var abandoned := AbandonedTracked(tracked, now, config);
            && Packets(abandoned) == ToGiveUp(Packets(tracked), now, config)
            && Ids(abandoned) == IdsWithFate(tracked, GivesUp, now, config) && Ids(abandoned) <= Ids(tracked)
            && Ordered(abandoned) && forall t :: t in abandoned ==> t in tracked
  {
    if tracked != [] {
      AbandonedSweep(tracked[1..], now, config);
      assert Packets(tracked)[1..] == Packets(tracked[1..]);
      var rest := AbandonedTracked(tracked[1..], now, config);
      assert ([tracked[0]] + rest)[1..] == rest;
    }
  }

  /** The packets handed out by a pass are exactly those whose send times it extends, in the order of their numbers, and they stay
      pending as they were handed out; those it abandons are exactly the ones that join the given up, as they were. */
  lemma PassIsAccountedFor(l: Ledger, now: int) returns (resent: seq<Tracked>, abandoned: seq<Tracked>)
    requires Conserved(l)
    ensures Packets(resent) == ToResend(l.window.pending, now, l.window.config) && Ordered(resent)
    ensures Packets(abandoned) == ToGiveUp(l.window.pending, now, l.window.config) && Ordered(abandoned)
    ensures var l' := AfterExtract(l, now);
            && (forall t :: t in resent ==> t in l'.tracked) && (forall t :: t in abandoned ==> t in l.tracked)
            && l'.sends.Keys == l.sends.Keys
            && (forall id :: id in l.sends ==> l'.sends[id] == if id in Ids(resent) then l.sends[id] + [now] else l.sends[id])
            && l'.gaveUp == l.gaveUp + Ids(abandoned) && Ids(abandoned) !! l.gaveUp
  {
    var config := l.window.config;
    resent, abandoned := ResentTracked(l.tracked, now, config), AbandonedTracked(l.tracked, now, config);
    ResentSweep(l.tracked, now, config);
    AbandonedSweep(l.tracked, now, config);
  }

  lemma StepConserves(l: Ledger, op: Op)
    requires Conserved(l)
    ensures Conserved(Step(l, op))
  {
    match op {
      case Allocate => AllocateConserves(l);
      case Send(packetBuffer, now) => SendConserves(l, packetBuffer, now);
      case Ack(ackSequence, ackBitfield) => AckConserves(l, ackSequence, ackBitfield);
      case Extract(now) => ExtractConserves(l, now);
    }
  }

  /** In every run of a window with a fixed configuration each registered packet is in exactly one of
      pending, acked and given up; pending packets are in increasing order and within the limit; each
      packet is sent at most maxResendCount + 1 times, sends at least resendInterval apart, and
      given up only after exactly maxResendCount resends. */
  lemma {:induction false} EveryRunConserves(config: WindowConfig, ops: seq<Op>)
    ensures Conserved(Run(config, ops)) && Run(config, ops).window.config == config
  {
    if ops != [] {
      EveryRunConserves(config, ops[..|ops| - 1]);
      StepConserves(Run(config, ops[..|ops| - 1]), ops[|ops| - 1]);
    }
  }
}
