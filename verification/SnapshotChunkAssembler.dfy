// The receiver of snapshots cut into chunks (Common/Net/Snapshot/SnapshotChunkAssemblerCore.h).
// Chunks are lost, duplicated, reordered and interleaved; ticks are compared without wrapping.

module SnapshotChunkAssembler {
  import opened GameIds
  import opened Wrappers

  datatype ChunkView<D> = ChunkView(roomId: RoomId, serverTick: nat, chunkIndex: nat, chunkCount: nat, dataList: seq<D>)

  datatype AssembledChunk<D> = AssembledChunk(roomId: RoomId, serverTick: nat, dataList: seq<D>)

  datatype AssemblyState<D> = AssemblyState(
    serverTick: nat,
    chunkCount: nat,
    receivedChunkCount: nat,
    receivedChunkFlagList: seq<bool>,
    chunkDataList: seq<seq<D>>,
    lastUpdatedTime: int)

  /** What the assembler holds for one room. */
  datatype RoomState<D> = RoomState(assembly: Option<AssemblyState<D>>, lastAppliedTick: Option<nat>)

  datatype AssemblerState<D> = AssemblerState(assemblies: map<RoomId, AssemblyState<D>>, lastAppliedTicks: map<RoomId, nat>)

  function RoomOf<D>(s: AssemblerState<D>, r: RoomId): RoomState<D> {
    RoomState(
      if r in s.assemblies then Some(s.assemblies[r]) else None,
      if r in s.lastAppliedTicks then Some(s.lastAppliedTicks[r]) else None)
  }

  function WithRoom<D>(s: AssemblerState<D>, r: RoomId, room: RoomState<D>): AssemblerState<D> {
    AssemblerState(
      if room.assembly.Some? then s.assemblies[r := room.assembly.value] else s.assemblies - {r},
      if room.lastAppliedTick.Some? then s.lastAppliedTicks[r := room.lastAppliedTick.value] else s.lastAppliedTicks - {r})
  }

  lemma SameRoom<D>(s: AssemblerState<D>, r: RoomId)
    ensures WithRoom(s, r, RoomOf(s, r)) == s
    ensures forall a :: WithRoom(s, r, RoomOf(s, r).(assembly := Some(a))) == s.(assemblies := s.assemblies[r := a])
  {
    assert r !in s.assemblies ==> s.assemblies - {r} == s.assemblies;
    assert r in s.assemblies ==> s.assemblies[r := s.assemblies[r]] == s.assemblies;
    assert r !in s.lastAppliedTicks ==> s.lastAppliedTicks - {r} == s.lastAppliedTicks;
    assert r in s.lastAppliedTicks ==> s.lastAppliedTicks[r := s.lastAppliedTicks[r]] == s.lastAppliedTicks;
  }

  /** The chunks joined in index order. */
  function Flatten<D>(chunks: seq<seq<D>>): seq<D> {
    if chunks == [] then [] else chunks[0] + Flatten(chunks[1..])
  }

  function CountOf(flags: seq<bool>): (count: nat)
    ensures count <= |flags|
  {
    if flags == [] then 0 else (if flags[0] then 1 else 0) + CountOf(flags[1..])
  }

  // One chunk.

  predicate IsValidHeader<D>(v: ChunkView<D>) {
    v.chunkIndex < v.chunkCount
  }

  function FreshAssembly<D>(v: ChunkView<D>, now: int): AssemblyState<D> {
    AssemblyState(v.serverTick, v.chunkCount, 0, seq(v.chunkCount, _ => false), seq(v.chunkCount, _ => []), now)
  }

  function Stored<D>(a: AssemblyState<D>, v: ChunkView<D>): AssemblyState<D>
    requires v.chunkIndex < |a.receivedChunkFlagList| == |a.chunkDataList|
  {
    a.(receivedChunkCount := a.receivedChunkCount + 1,
       receivedChunkFlagList := a.receivedChunkFlagList[v.chunkIndex := true],
       chunkDataList := a.chunkDataList[v.chunkIndex := v.dataList])
  }

  function Accept<D>(room: RoomState<D>, a: AssemblyState<D>, v: ChunkView<D>): (RoomState<D>, Option<AssembledChunk<D>>)
    requires v.chunkIndex < |a.receivedChunkFlagList| == |a.chunkDataList|
  {
    var stored := Stored(a, v);
    if stored.receivedChunkCount < stored.chunkCount then (room.(assembly := Some(stored)), None)
    else (RoomState(None, Some(stored.serverTick)),
          Some(AssembledChunk(v.roomId, stored.serverTick, Flatten(stored.chunkDataList))))
  }

  predicate NeedsReset<D>(room: RoomState<D>, v: ChunkView<D>) {
    room.assembly.None? || v.serverTick > room.assembly.value.serverTick || v.chunkCount != room.assembly.value.chunkCount
  }

  /** What a chunk does to its room, and the snapshot it completes if it does. */
  function Push<D>(room: RoomState<D>, v: ChunkView<D>, now: int): (RoomState<D>, Option<AssembledChunk<D>>)
    requires IsAssembling(room)
  {
    if !IsValidHeader(v) then (room, None)
    else if room.lastAppliedTick.Some? && v.serverTick < room.lastAppliedTick.value then (room, None)
    else if room.lastAppliedTick == Some(v.serverTick) && room.assembly.None? then (room, None)
    else if NeedsReset(room, v) then Accept(room, FreshAssembly(v, now), v)
    else if v.serverTick < room.assembly.value.serverTick then (room, None)
    else
      var a := room.assembly.value.(lastUpdatedTime := now);
      if a.receivedChunkFlagList[v.chunkIndex] then (room.(assembly := Some(a)), None)
      else Accept(room, a, v)
  }

  function Cleaned<D>(room: RoomState<D>, now: int, timeout: int): RoomState<D> {
    if room.assembly.Some? && now - room.assembly.value.lastUpdatedTime > timeout then room.(assembly := None) else room
  }

  /** A stored assembly counts its set flags, and is never complete. */
  ghost predicate IsAssembling<D>(room: RoomState<D>) {
    room.assembly.Some? ==>
      var a := room.assembly.value;
      && |a.receivedChunkFlagList| == |a.chunkDataList| == a.chunkCount
      && a.receivedChunkCount == CountOf(a.receivedChunkFlagList) < a.chunkCount
  }

  lemma {:induction false} CountOfSet(flags: seq<bool>, i: nat)
    requires i < |flags| && !flags[i]
    ensures CountOf(flags[i := true]) == CountOf(flags) + 1
  {
    if i > 0 {
      CountOfSet(flags[1..], i - 1);
      assert flags[i := true][1..] == flags[1..][i - 1 := true];
    } else {
      assert flags[0 := true][1..] == flags[1..];
    }
  }

  lemma {:induction false} CountOfNone(flags: seq<bool>)
    requires forall i :: 0 <= i < |flags| ==> !flags[i]
    ensures CountOf(flags) == 0
  {
    if flags != [] {
      CountOfNone(flags[1..]);
    }
  }

  lemma {:induction false} CountOfAll(flags: seq<bool>)
    ensures CountOf(flags) == |flags| <==> forall i :: 0 <= i < |flags| ==> flags[i]
  {
    if flags != [] {
      CountOfAll(flags[1..]);
      assert flags == [flags[0]] + flags[1..];
    }
  }

  lemma PushKeepsAssembling<D>(room: RoomState<D>, v: ChunkView<D>, now: int)
    requires IsAssembling(room)
    ensures IsAssembling(Push(room, v, now).0)
  {
    if IsValidHeader(v) {
      CountOfNone(FreshAssembly(v, now).receivedChunkFlagList);
      CountOfSet(FreshAssembly(v, now).receivedChunkFlagList, v.chunkIndex);
      if !NeedsReset(room, v) && !room.assembly.value.receivedChunkFlagList[v.chunkIndex] {
        CountOfSet(room.assembly.value.receivedChunkFlagList, v.chunkIndex);
      }
    }
  }

  /** Every room of the table is assembling. */
  ghost predicate AllAssembling<D>(s: AssemblerState<D>) {
    forall r :: r in s.assemblies ==> IsAssembling(RoomOf(s, r))
  }

  function AfterPush<D>(s: AssemblerState<D>, v: ChunkView<D>, now: int): AssemblerState<D>
    requires AllAssembling(s)
  {
    WithRoom(s, v.roomId, Push(RoomOf(s, v.roomId), v, now).0)
  }

  function AfterCleanup<D>(s: AssemblerState<D>, now: int, timeout: int): AssemblerState<D> {
    s.(assemblies := map r | r in s.assemblies && now - s.assemblies[r].lastUpdatedTime <= timeout :: s.assemblies[r])
  }

  lemma AfterCleanupKeepsAssembling<D>(s: AssemblerState<D>, now: int, timeout: int)
    requires AllAssembling(s)
    ensures AllAssembling(AfterCleanup(s, now, timeout))
    ensures forall r :: RoomOf(AfterCleanup(s, now, timeout), r) == Cleaned(RoomOf(s, r), now, timeout)
  {
    forall r | r in AfterCleanup(s, now, timeout).assemblies
      ensures IsAssembling(RoomOf(AfterCleanup(s, now, timeout), r))
    {
      assert IsAssembling(RoomOf(s, r));
    }
  }

  function AfterResetRoom<D>(s: AssemblerState<D>, r: RoomId): AssemblerState<D> {
    AssemblerState(s.assemblies - {r}, s.lastAppliedTicks - {r})
  }

  function EmptyAssembler<D>(): AssemblerState<D> {
    AssemblerState(map[], map[])
  }

  lemma AfterPushKeepsAssembling<D>(s: AssemblerState<D>, v: ChunkView<D>, now: int)
    requires AllAssembling(s)
    ensures AllAssembling(AfterPush(s, v, now))
    ensures RoomOf(AfterPush(s, v, now), v.roomId) == Push(RoomOf(s, v.roomId), v, now).0
    ensures forall r :: r != v.roomId ==> RoomOf(AfterPush(s, v, now), r) == RoomOf(s, r)
  {
    PushKeepsAssembling(RoomOf(s, v.roomId), v, now);
    var after := AfterPush(s, v, now);
    forall r | r in after.assemblies
      ensures IsAssembling(RoomOf(after, r))
    {
      if r != v.roomId {
        assert IsAssembling(RoomOf(s, r));
      }
    }
  }

  // Every run of the assembler.

  datatype Event<D> =
    | PushChunk(view: ChunkView<D>, now: int)
    | Cleanup(time: int, timeout: int)
    | ResetRoom(roomId: RoomId)
    | Clear

  ghost function After<D>(s: AssemblerState<D>, event: Event<D>): (after: AssemblerState<D>)
    requires AllAssembling(s)
    ensures AllAssembling(after)
  {
    match event
    case PushChunk(v, now) => AfterPushKeepsAssembling(s, v, now); AfterPush(s, v, now)
    case Cleanup(now, timeout) => AfterCleanupKeepsAssembling(s, now, timeout); AfterCleanup(s, now, timeout)
    case ResetRoom(r) => AfterResetRoom(s, r)
    case Clear => EmptyAssembler()
  }

  /** The states of the assembler before, between and after these events. */
  ghost predicate IsRun<D>(states: seq<AssemblerState<D>>, events: seq<Event<D>>) {
    && |states| == |events| + 1 && states[0] == EmptyAssembler()
    && (forall i :: 0 <= i < |states| ==> AllAssembling(states[i]))
    && forall i :: 0 <= i < |events| ==> states[i + 1] == After(states[i], events[i])
  }

  /** Any events make a run, in which every stored assembly counts its set flags and is incomplete. */
  lemma {:induction false} EveryRunIsAssembling<D>(events: seq<Event<D>>) returns (states: seq<AssemblerState<D>>)
    ensures IsRun(states, events)
    decreases |events|
  {
    if events == [] {
      states := [EmptyAssembler()];
    } else {
      var n := |events| - 1;
      var earlier := EveryRunIsAssembling(events[..n]);
      states := earlier + [After(earlier[n], events[n])];
      forall i | 0 <= i < |events|
        ensures states[i + 1] == After(states[i], events[i])
      {
        if i < n {
          assert states[i + 1] == earlier[i + 1] && events[..n][i] == events[i];
        }
      }
    }
  }

  /** What event `i` of a run delivered. */
  ghost function DeliveredBy<D>(states: seq<AssemblerState<D>>, events: seq<Event<D>>, i: nat): Option<AssembledChunk<D>>
    requires IsRun(states, events) && i < |events|
  {
    if events[i].PushChunk? then Push(RoomOf(states[i], events[i].view.roomId), events[i].view, events[i].now).1 else None
  }

  /** One event is at most one step of a room. */
  lemma RoomStep<D>(states: seq<AssemblerState<D>>, events: seq<Event<D>>, r: RoomId, i: nat)
    requires IsRun(states, events) && i < |events|
    ensures var room, room' := RoomOf(states[i], r), RoomOf(states[i + 1], r);
            match events[i]
            case PushChunk(v, now) => room' == if v.roomId == r then Push(room, v, now).0 else room
            case Cleanup(now, timeout) => room' == Cleaned(room, now, timeout)
            case ResetRoom(reset) => room' == if reset == r then RoomState(None, None) else room
            case Clear => room' == RoomState(None, None)
  {
    match events[i] {
      case PushChunk(v, now) => AfterPushKeepsAssembling(states[i], v, now);
      case Cleanup(now, timeout) => AfterCleanupKeepsAssembling(states[i], now, timeout);
      case ResetRoom(_) =>
      case Clear =>
    }
  }

  // Where delivered data comes from.

  /** One of the first `n` events pushed a chunk of this room, tick, count and index with this data. */
  ghost predicate WasPushed<D>(events: seq<Event<D>>, n: nat, r: RoomId, tick: nat, count: nat, index: nat, dataList: seq<D>) {
    exists k :: 0 <= k < n <= |events| && events[k].PushChunk? && events[k].view == ChunkView(r, tick, index, count, dataList)
  }

  ghost predicate StoresPushed<D>(events: seq<Event<D>>, n: nat, r: RoomId, a: AssemblyState<D>) {
    && |a.receivedChunkFlagList| == |a.chunkDataList| == a.chunkCount
    && forall i :: 0 <= i < a.chunkCount && a.receivedChunkFlagList[i] ==>
        WasPushed(events, n, r, a.serverTick, a.chunkCount, i, a.chunkDataList[i])
  }

  /** A delivery is made of chunks of its room and tick that agree on their count, each of them pushed, joined in index order. */
  ghost predicate IsJoinOf<D>(events: seq<Event<D>>, n: nat, d: AssembledChunk<D>, chunks: seq<seq<D>>) {
    && d.dataList == Flatten(chunks)
    && forall i :: 0 <= i < |chunks| ==> WasPushed(events, n, d.roomId, d.serverTick, |chunks|, i, chunks[i])
  }

  lemma PushedStaysPushed<D>(events: seq<Event<D>>, n: nat, r: RoomId, a: AssemblyState<D>)
    requires n < |events| && StoresPushed(events, n, r, a)
    ensures StoresPushed(events, n + 1, r, a)
  {
    forall i | 0 <= i < a.chunkCount && a.receivedChunkFlagList[i]
      ensures WasPushed(events, n + 1, r, a.serverTick, a.chunkCount, i, a.chunkDataList[i])
    {
      assert WasPushed(events, n, r, a.serverTick, a.chunkCount, i, a.chunkDataList[i]);
    }
  }

  /** The assembly a valid chunk goes into: the active one or a fresh one. */
  ghost function Target<D>(room: RoomState<D>, v: ChunkView<D>, now: int): AssemblyState<D> {
    if NeedsReset(room, v) then FreshAssembly(v, now) else room.assembly.value.(lastUpdatedTime := now)
  }

  /** A chunk leaves its room alone, or refreshes or fills or completes its target. */
  lemma PushOutcome<D>(room: RoomState<D>, v: ChunkView<D>, now: int)
    requires IsAssembling(room)
    ensures var (room', delivered), a := Push(room, v, now), Target(room, v, now);
            || (delivered.None? && room' == room)
            || (delivered.None? && room' == room.(assembly := Some(a)))
            || (&& IsValidHeader(v) && a.serverTick == v.serverTick && a.chunkCount == v.chunkCount
                && |a.receivedChunkFlagList| == |a.chunkDataList| == v.chunkCount
                && ((delivered.None? && room' == room.(assembly := Some(Stored(a, v))))
                    || (&& delivered == Some(AssembledChunk(v.roomId, v.serverTick, Flatten(Stored(a, v).chunkDataList)))
                        && room' == RoomState(None, Some(v.serverTick))
                        && (room.lastAppliedTick.Some? ==> room.lastAppliedTick.value <= v.serverTick)
                        && forall i :: 0 <= i < v.chunkCount ==> Stored(a, v).receivedChunkFlagList[i])))
  {
    var a := Target(room, v, now);
    if Push(room, v, now).1.Some? {
      CountOfNone(FreshAssembly(v, now).receivedChunkFlagList);
      CountOfSet(a.receivedChunkFlagList, v.chunkIndex);
      CountOfAll(Stored(a, v).receivedChunkFlagList);
    }
  }

  lemma StoredIsPushed<D>(events: seq<Event<D>>, n: nat, a: AssemblyState<D>, v: ChunkView<D>)
    requires n < |events| && events[n].PushChunk? && events[n].view == v && IsValidHeader(v)
    requires StoresPushed(events, n, v.roomId, a) && a.serverTick == v.serverTick && a.chunkCount == v.chunkCount
    ensures StoresPushed(events, n + 1, v.roomId, Stored(a, v))
  {
    PushedStaysPushed(events, n, v.roomId, a);
    assert WasPushed(events, n + 1, v.roomId, v.serverTick, v.chunkCount, v.chunkIndex, v.dataList);
  }

  lemma PushStoresPushed<D>(events: seq<Event<D>>, n: nat, room: RoomState<D>, v: ChunkView<D>, now: int)
    requires n < |events| && events[n] == PushChunk(v, now) && IsAssembling(room)
    requires room.assembly.Some? ==> StoresPushed(events, n, v.roomId, room.assembly.value)
    ensures var (room', delivered) := Push(room, v, now);
            && (room'.assembly.Some? ==> StoresPushed(events, n + 1, v.roomId, room'.assembly.value))
            && (delivered.Some? ==>
                  var chunks := Stored(Target(room, v, now), v).chunkDataList;
                  |chunks| == v.chunkCount && IsJoinOf(events, n + 1, delivered.value, chunks))
  {
    PushOutcome(room, v, now);
    if room.assembly.Some? {
      PushedStaysPushed(events, n, v.roomId, room.assembly.value);
    }
    var a := Target(room, v, now);
    assert StoresPushed(events, n, v.roomId, FreshAssembly(v, now));
    if IsValidHeader(v) && a.serverTick == v.serverTick && a.chunkCount == v.chunkCount {
      StoredIsPushed(events, n, a, v);
    }
    if Push(room, v, now).1.Some? {
      var stored := Stored(a, v);
      forall i | 0 <= i < v.chunkCount
        ensures WasPushed(events, n + 1, v.roomId, v.serverTick, v.chunkCount, i, stored.chunkDataList[i])
      {
        assert stored.receivedChunkFlagList[i];
      }
    }
  }

  lemma {:induction false} RunStoresPushed<D>(states: seq<AssemblerState<D>>, events: seq<Event<D>>, r: RoomId, n: nat)
    requires IsRun(states, events) && n <= |events|
    ensures RoomOf(states[n], r).assembly.Some? ==> StoresPushed(events, n, r, RoomOf(states[n], r).assembly.value)
  {
    if n > 0 {
      RunStoresPushed(states, events, r, n - 1);
      RoomStep(states, events, r, n - 1);
      var room := RoomOf(states[n - 1], r);
      if room.assembly.Some? {
        PushedStaysPushed(events, n - 1, r, room.assembly.value);
      }
      if events[n - 1].PushChunk? && events[n - 1].view.roomId == r {
        PushStoresPushed(events, n - 1, room, events[n - 1].view, events[n - 1].now);
      }
    }
  }

  /** Chunks of different rooms, ticks or counts never mix: whatever was pushed, in whatever order,
      every delivery joins, in index order, one pushed chunk for each index of its room, tick and count. */
  lemma DeliveriesJoinPushedChunks<D>(states: seq<AssemblerState<D>>, events: seq<Event<D>>, i: nat) returns (chunks: seq<seq<D>>)
    requires IsRun(states, events) && i < |events| && DeliveredBy(states, events, i).Some?
    ensures chunks != [] && |chunks| == events[i].view.chunkCount
    ensures DeliveredBy(states, events, i).value.roomId == events[i].view.roomId
    ensures DeliveredBy(states, events, i).value.serverTick == events[i].view.serverTick
    ensures IsJoinOf(events, i + 1, DeliveredBy(states, events, i).value, chunks)
  {
    var v, now := events[i].view, events[i].now;
    var room := RoomOf(states[i], v.roomId);
    RunStoresPushed(states, events, v.roomId, i);
    PushStoresPushed(events, i, room, v, now);
    PushOutcome(room, v, now);
    chunks := Stored(Target(room, v, now), v).chunkDataList;
  }

  // The ticks delivered to a room.

  /** Nothing forgets room `r` between two points of a run. */
  ghost predicate NothingResets<D>(events: seq<Event<D>>, r: RoomId, from: nat, to: nat)
    requires to <= |events|
  {
    forall k :: from <= k < to ==> !events[k].Clear? && events[k] != ResetRoom(r)
  }

  predicate IsAtMost(before: Option<nat>, after: Option<nat>) {
    before.Some? ==> after.Some? && before.value <= after.value
  }

  lemma {:induction false} AppliedTickNeverDecreases<D>(
      states: seq<AssemblerState<D>>, events: seq<Event<D>>, r: RoomId, i: nat, j: nat)
    requires IsRun(states, events) && i <= j <= |events| && NothingResets(events, r, i, j)
    ensures IsAtMost(RoomOf(states[i], r).lastAppliedTick, RoomOf(states[j], r).lastAppliedTick)
    decreases j - i
  {
    if i < j {
      AppliedTickNeverDecreases(states, events, r, i, j - 1);
      RoomStep(states, events, r, j - 1);
      if events[j - 1].PushChunk? {
        PushOutcome(RoomOf(states[j - 1], r), events[j - 1].view, events[j - 1].now);
      }
    }
  }

  /** A delivery makes its tick the applied one, which it was at least equal to before. */
  lemma DeliveryApplies<D>(states: seq<AssemblerState<D>>, events: seq<Event<D>>, i: nat)
    requires IsRun(states, events) && i < |events| && DeliveredBy(states, events, i).Some?
    ensures var r, tick := events[i].view.roomId, DeliveredBy(states, events, i).value.serverTick;
            && RoomOf(states[i + 1], r) == RoomState(None, Some(tick))
            && IsAtMost(RoomOf(states[i], r).lastAppliedTick, Some(tick))
  {
    RoomStep(states, events, events[i].view.roomId, i);
    PushOutcome(RoomOf(states[i], events[i].view.roomId), events[i].view, events[i].now);
  }

  /** Between resets of a room, the ticks delivered to it never decrease. */
  lemma DeliveredTicksNeverDecrease<D>(states: seq<AssemblerState<D>>, events: seq<Event<D>>, i: nat, j: nat)
    requires IsRun(states, events) && i < j < |events|
    requires DeliveredBy(states, events, i).Some? && DeliveredBy(states, events, j).Some?
    requires events[i].view.roomId == events[j].view.roomId && NothingResets(events, events[i].view.roomId, i, j)
    ensures DeliveredBy(states, events, i).value.serverTick <= DeliveredBy(states, events, j).value.serverTick
  {
    DeliveryApplies(states, events, i);
    AppliedTickNeverDecreases(states, events, events[i].view.roomId, i + 1, j);
    DeliveryApplies(states, events, j);
  }

  /** The active assembly is of a newer tick than the applied one. */
  predicate IsAhead<D>(room: RoomState<D>) {
    room.assembly.Some? && room.lastAppliedTick.Some? ==> room.assembly.value.serverTick > room.lastAppliedTick.value
  }

  /** A chunk of the applied tick arrives while a snapshot of another chunk count is being assembled. */
  predicate StepsBack<D>(room: RoomState<D>, v: ChunkView<D>) {
    && IsValidHeader(v)
    && room.lastAppliedTick == Some(v.serverTick)
    && room.assembly.Some? && v.chunkCount != room.assembly.value.chunkCount
  }

  /** The assembler works on ticks newer than the applied one exactly as long as no chunk steps back.
      When one does, the applied tick is under assembly again, or delivered again at once. */
  lemma AheadIffNoStepBack<D>(room: RoomState<D>, v: ChunkView<D>, now: int)
    requires IsAssembling(room) && IsAhead(room)
    ensures var (room', delivered) := Push(room, v, now);
            (IsAhead(room') && (delivered.Some? && room.lastAppliedTick.Some? ==> delivered.value.serverTick > room.lastAppliedTick.value))
            <==> !StepsBack(room, v)
  {
  }

  ghost predicate NothingStepsBack<D>(states: seq<AssemblerState<D>>, events: seq<Event<D>>, r: RoomId, from: nat, to: nat)
    requires IsRun(states, events) && to <= |events|
  {
    forall k :: from <= k < to && events[k].PushChunk? && events[k].view.roomId == r ==>
      !StepsBack(RoomOf(states[k], r), events[k].view)
  }

  lemma {:induction false} StaysAhead<D>(states: seq<AssemblerState<D>>, events: seq<Event<D>>, r: RoomId, i: nat, j: nat)
    requires IsRun(states, events) && i <= j <= |events|
    requires NothingResets(events, r, i, j) && NothingStepsBack(states, events, r, i, j)
    requires IsAhead(RoomOf(states[i], r))
    ensures IsAhead(RoomOf(states[j], r))
    decreases j - i
  {
    if i < j {
      StaysAhead(states, events, r, i, j - 1);
      AheadStep(states, events, r, j - 1);
    }
  }

  lemma AheadStep<D>(states: seq<AssemblerState<D>>, events: seq<Event<D>>, r: RoomId, k: nat)
    requires IsRun(states, events) && k < |events| && IsAhead(RoomOf(states[k], r))
    requires events[k].PushChunk? && events[k].view.roomId == r ==> !StepsBack(RoomOf(states[k], r), events[k].view)
    ensures IsAhead(RoomOf(states[k + 1], r))
  {
    RoomStep(states, events, r, k);
    if events[k].PushChunk? && events[k].view.roomId == r {
      AheadIffNoStepBack(RoomOf(states[k], r), events[k].view, events[k].now);
    }
  }

  /** As long as no chunk steps back, the ticks delivered to a room strictly increase. */
  lemma DeliveredTicksIncrease<D>(states: seq<AssemblerState<D>>, events: seq<Event<D>>, i: nat, j: nat)
    requires IsRun(states, events) && i < j < |events|
    requires DeliveredBy(states, events, i).Some? && DeliveredBy(states, events, j).Some?
    requires events[i].view.roomId == events[j].view.roomId && NothingResets(events, events[i].view.roomId, i, j)
    requires NothingStepsBack(states, events, events[i].view.roomId, i + 1, j + 1)
    ensures DeliveredBy(states, events, i).value.serverTick < DeliveredBy(states, events, j).value.serverTick
  {
    var r := events[i].view.roomId;
    DeliveryApplies(states, events, i);
    StaysAhead(states, events, r, i + 1, j);
    AppliedTickNeverDecreases(states, events, r, i + 1, j);
    AheadIffNoStepBack(RoomOf(states[j], r), events[j].view, events[j].now);
  }

  /** It does happen: a one-chunk snapshot of tick 5 is delivered twice, because a repeat of its chunk
      replaces the two-chunk snapshot of tick 6 that is being assembled. */
  lemma AppliedTickCanBeDeliveredAgain<D>(dataList: seq<D>) returns (states: seq<AssemblerState<D>>, events: seq<Event<D>>)
    ensures IsRun(states, events) && |events| == 3 && NothingResets(events, RoomId(1), 0, 3)
    ensures DeliveredBy(states, events, 0) == DeliveredBy(states, events, 2) == Some(AssembledChunk(RoomId(1), 5, dataList))
  {
    var r, first := RoomId(1), ChunkView(RoomId(1), 5, 0, 1, dataList);
    events := [PushChunk(first, 0), PushChunk(ChunkView(r, 6, 0, 2, dataList), 0), PushChunk(first, 0)];
    states := EveryRunIsAssembling(events);
    assert Flatten([dataList]) == dataList + Flatten([]) == dataList;
    assert Stored(FreshAssembly(first, 0), first).chunkDataList == [dataList];
    RoomStep(states, events, r, 0);
    RoomStep(states, events, r, 1);
  }

  // A snapshot whose chunks all arrive.

  /** A chunk of the snapshot `chunks` arrives at a time. */
  datatype Arrival = Arrival(chunkIndex: nat, now: int)

  function PartOf<D>(r: RoomId, tick: nat, chunks: seq<seq<D>>, i: nat): ChunkView<D>
    requires i < |chunks|
  {
    ChunkView(r, tick, i, |chunks|, chunks[i])
  }

  /** The room after these arrivals with nothing in between, and what they delivered. */
  ghost function PushParts<D>(room: RoomState<D>, r: RoomId, tick: nat, chunks: seq<seq<D>>, arrivals: seq<Arrival>)
    : (RoomState<D>, seq<AssembledChunk<D>>)
    requires IsAssembling(room)
    requires forall k :: 0 <= k < |arrivals| ==> arrivals[k].chunkIndex < |chunks|
    decreases |arrivals|
  {
    if arrivals == [] then (room, [])
    else
      var v := PartOf(r, tick, chunks, arrivals[0].chunkIndex);
      PushKeepsAssembling(room, v, arrivals[0].now);
      var (room', delivered) := Push(room, v, arrivals[0].now);
      var (final, later) := PushParts(room', r, tick, chunks, arrivals[1..]);
      (final, if delivered.Some? then [delivered.value] + later else later)
  }

  ghost predicate IsArrival(arrivals: seq<Arrival>, i: nat) {
    exists k :: 0 <= k < |arrivals| && arrivals[k].chunkIndex == i
  }

  /** An assembly of the snapshot holds some of its chunks, and the rest are among the arrivals. */
  ghost predicate HoldsPartsOf<D>(a: AssemblyState<D>, tick: nat, chunks: seq<seq<D>>) {
    && a.serverTick == tick && a.chunkCount == |chunks| == |a.receivedChunkFlagList| == |a.chunkDataList|
    && forall i :: 0 <= i < |chunks| && a.receivedChunkFlagList[i] ==> a.chunkDataList[i] == chunks[i]
  }

  /** The chunks of this tick and count that the room holds already, and these for the rest: a stored chunk stays. */
  function Completed<D>(room: RoomState<D>, tick: nat, chunks: seq<seq<D>>): (completed: seq<seq<D>>)
    requires IsAssembling(room)
    ensures |completed| == |chunks|
  {
    if room.assembly.Some? && room.assembly.value.serverTick == tick && room.assembly.value.chunkCount == |chunks| then
      var a := room.assembly.value;
      seq(|chunks|, i requires 0 <= i < |chunks| => if a.receivedChunkFlagList[i] then a.chunkDataList[i] else chunks[i])
    else chunks
  }

  /** What the room holds of a snapshot of this tick and chunk count are this snapshot's chunks. */
  ghost predicate HoldsNothingElse<D>(room: RoomState<D>, tick: nat, chunks: seq<seq<D>>) {
    room.assembly.Some? && room.assembly.value.serverTick == tick && room.assembly.value.chunkCount == |chunks| ==>
      HoldsPartsOf(room.assembly.value, tick, chunks)
  }

  lemma CompletedIsChunks<D>(room: RoomState<D>, tick: nat, chunks: seq<seq<D>>)
    requires IsAssembling(room) && HoldsNothingElse(room, tick, chunks)
    ensures Completed(room, tick, chunks) == chunks
  {
  }

  predicate IsNewTick<D>(room: RoomState<D>, tick: nat) {
    room.lastAppliedTick.Some? ==> room.lastAppliedTick.value < tick
  }

  predicate IsOpenTick<D>(room: RoomState<D>, tick: nat) {
    room.lastAppliedTick.Some? ==> room.lastAppliedTick.value <= tick
  }

  lemma {:induction false} NothingAfterApplied<D>(
      room: RoomState<D>, r: RoomId, tick: nat, chunks: seq<seq<D>>, arrivals: seq<Arrival>)
    requires room == RoomState(None, Some(tick))
    requires forall k :: 0 <= k < |arrivals| ==> arrivals[k].chunkIndex < |chunks|
    ensures PushParts(room, r, tick, chunks, arrivals) == (room, [])
    decreases |arrivals|
  {
    if arrivals != [] {
      assert Push(room, PartOf(r, tick, chunks, arrivals[0].chunkIndex), arrivals[0].now) == (room, None);
      NothingAfterApplied(room, r, tick, chunks, arrivals[1..]);
    }
  }

  lemma {:induction false} NothingWhileBlocked<D>(
      room: RoomState<D>, r: RoomId, tick: nat, chunks: seq<seq<D>>, arrivals: seq<Arrival>)
    requires IsAssembling(room) && room.assembly.Some?
    requires room.assembly.value.serverTick > tick && room.assembly.value.chunkCount == |chunks|
    requires forall k :: 0 <= k < |arrivals| ==> arrivals[k].chunkIndex < |chunks|
    ensures PushParts(room, r, tick, chunks, arrivals) == (room, [])
    decreases |arrivals|
  {
    if arrivals != [] {
      assert Push(room, PartOf(r, tick, chunks, arrivals[0].chunkIndex), arrivals[0].now) == (room, None);
      NothingWhileBlocked(room, r, tick, chunks, arrivals[1..]);
    }
  }

  /** The active assembly holds some of `whole`, and the pushed chunks agree with it on the rest. */
  ghost predicate HoldsPartsOfWhole<D>(a: AssemblyState<D>, tick: nat, chunks: seq<seq<D>>, whole: seq<seq<D>>) {
    && HoldsPartsOf(a, tick, whole) && |whole| == |chunks|
    && forall i :: 0 <= i < |chunks| && !a.receivedChunkFlagList[i] ==> whole[i] == chunks[i]
  }

  lemma {:induction false} ActiveSnapshotCompletes<D>(
      room: RoomState<D>, r: RoomId, tick: nat, chunks: seq<seq<D>>, whole: seq<seq<D>>, arrivals: seq<Arrival>)
    requires IsAssembling(room) && room.assembly.Some? && HoldsPartsOfWhole(room.assembly.value, tick, chunks, whole) && IsOpenTick(room, tick)
    requires forall k :: 0 <= k < |arrivals| ==> arrivals[k].chunkIndex < |chunks|
    requires forall i :: 0 <= i < |chunks| ==> room.assembly.value.receivedChunkFlagList[i] || IsArrival(arrivals, i)
    ensures PushParts(room, r, tick, chunks, arrivals)
         == (RoomState(None, Some(tick)), [AssembledChunk(r, tick, Flatten(whole))])
    decreases |arrivals|
  {
    var a := room.assembly.value;
    CountOfAll(a.receivedChunkFlagList);
    assert arrivals != [] by {
      var i :| 0 <= i < |chunks| && !a.receivedChunkFlagList[i];
      assert IsArrival(arrivals, i);
    }
    var index, v := arrivals[0].chunkIndex, PartOf(r, tick, chunks, arrivals[0].chunkIndex);
    var (room', delivered) := Push(room, v, arrivals[0].now);
    PushKeepsAssembling(room, v, arrivals[0].now);
    RestArrives(a.receivedChunkFlagList, arrivals);
    if delivered.Some? {
      LastChunkCompletes(a, v, whole);
      NothingAfterApplied(room', r, tick, chunks, arrivals[1..]);
      assert delivered.value == AssembledChunk(r, tick, Flatten(whole));
      assert [delivered.value] + PushParts(room', r, tick, chunks, arrivals[1..]).1 == [delivered.value];
    } else {
      ActiveSnapshotCompletes(room', r, tick, chunks, whole, arrivals[1..]);
    }
  }

  /** What is neither here nor the first to arrive is among the later arrivals. */
  lemma RestArrives(flags: seq<bool>, arrivals: seq<Arrival>)
    requires arrivals != [] && forall i :: 0 <= i < |flags| ==> flags[i] || IsArrival(arrivals, i)
    ensures forall i :: 0 <= i < |flags| ==> i == arrivals[0].chunkIndex || flags[i] || IsArrival(arrivals[1..], i)
  {
    forall i | 0 <= i < |flags|
      ensures i == arrivals[0].chunkIndex || flags[i] || IsArrival(arrivals[1..], i)
    {
      if i != arrivals[0].chunkIndex && !flags[i] {
        var k :| 0 <= k < |arrivals| && arrivals[k].chunkIndex == i;
        assert arrivals[1..][k - 1].chunkIndex == i;
      }
    }
  }

  lemma LastChunkCompletes<D>(a: AssemblyState<D>, v: ChunkView<D>, whole: seq<seq<D>>)
    requires |a.receivedChunkFlagList| == |a.chunkDataList| == a.chunkCount == |whole| && v.chunkIndex < a.chunkCount
    requires a.receivedChunkCount == CountOf(a.receivedChunkFlagList) && !a.receivedChunkFlagList[v.chunkIndex]
    requires forall i :: 0 <= i < |whole| && a.receivedChunkFlagList[i] ==> a.chunkDataList[i] == whole[i]
    requires v.dataList == whole[v.chunkIndex] && a.receivedChunkCount + 1 == a.chunkCount
    ensures Stored(a, v).chunkDataList == whole
  {
    CountOfSet(a.receivedChunkFlagList, v.chunkIndex);
    CountOfAll(Stored(a, v).receivedChunkFlagList);
    forall i | 0 <= i < |whole|
      ensures Stored(a, v).chunkDataList[i] == whole[i]
    {
      assert Stored(a, v).receivedChunkFlagList[i];
    }
  }

  /** A newer snapshot of this chunk count is being assembled. */
  predicate IsBlockedBy<D>(room: RoomState<D>, tick: nat, count: nat) {
    room.assembly.Some? && room.assembly.value.serverTick > tick && room.assembly.value.chunkCount == count
  }

  /** All chunks of a newer tick, in any order and with repeats, uninterrupted: they deliver the
      snapshot exactly once, unless a still newer one of the same chunk count is under assembly,
      in which case all of them are dropped. What the room held of it already stays as it is. */
  lemma CompleteSnapshotIsDeliveredOnce<D>(room: RoomState<D>, r: RoomId, tick: nat, chunks: seq<seq<D>>, arrivals: seq<Arrival>)
    requires IsAssembling(room) && IsNewTick(room, tick) && chunks != []
    requires forall k :: 0 <= k < |arrivals| ==> arrivals[k].chunkIndex < |chunks|
    requires forall i :: 0 <= i < |chunks| ==> IsArrival(arrivals, i)
    ensures PushParts(room, r, tick, chunks, arrivals)
         == if IsBlockedBy(room, tick, |chunks|) then (room, [])
            else (RoomState(None, Some(tick)), [AssembledChunk(r, tick, Flatten(Completed(room, tick, chunks)))])
  {
    OpenSnapshotIsDelivered(room, r, tick, chunks, arrivals);
  }

  lemma OpenSnapshotIsDelivered<D>(room: RoomState<D>, r: RoomId, tick: nat, chunks: seq<seq<D>>, arrivals: seq<Arrival>)
    requires IsAssembling(room) && IsOpenTick(room, tick) && chunks != []
    requires room.lastAppliedTick == Some(tick) ==> room.assembly.Some?
    requires forall k :: 0 <= k < |arrivals| ==> arrivals[k].chunkIndex < |chunks|
    requires forall i :: 0 <= i < |chunks| ==> IsArrival(arrivals, i)
    ensures PushParts(room, r, tick, chunks, arrivals)
         == if IsBlockedBy(room, tick, |chunks|) then (room, [])
            else (RoomState(None, Some(tick)), [AssembledChunk(r, tick, Flatten(Completed(room, tick, chunks)))])
  {
    hide PushParts, Push;
    assert IsArrival(arrivals, 0);
    if IsBlockedBy(room, tick, |chunks|) {
      NothingWhileBlocked(room, r, tick, chunks, arrivals);
    } else if NeedsReset(room, PartOf(r, tick, chunks, 0)) {
      StartedSnapshotCompletes(room, r, tick, chunks, arrivals);
    } else {
      ActiveSnapshotCompletes(room, r, tick, chunks, Completed(room, tick, chunks), arrivals);
    }
  }

  /** The first of these chunks starts the assembly afresh. */
  lemma StartedSnapshotCompletes<D>(room: RoomState<D>, r: RoomId, tick: nat, chunks: seq<seq<D>>, arrivals: seq<Arrival>)
    requires IsAssembling(room) && chunks != [] && arrivals != []
    requires forall k :: 0 <= k < |arrivals| ==> arrivals[k].chunkIndex < |chunks|
    requires forall i :: 0 <= i < |chunks| ==> IsArrival(arrivals, i)
    requires NeedsReset(room, PartOf(r, tick, chunks, 0)) && IsOpenTick(room, tick)
    requires room.lastAppliedTick == Some(tick) ==> room.assembly.Some?
    ensures PushParts(room, r, tick, chunks, arrivals)
         == (RoomState(None, Some(tick)), [AssembledChunk(r, tick, Flatten(chunks))])
  {
    var v := PartOf(r, tick, chunks, arrivals[0].chunkIndex);
    var started := room.(assembly := Some(FreshAssembly(v, arrivals[0].now)));
    CountOfNone(started.assembly.value.receivedChunkFlagList);
    assert Push(room, v, arrivals[0].now) == Push(started, v, arrivals[0].now);
    ActiveSnapshotCompletes(started, r, tick, chunks, chunks, arrivals);
  }

  /** All chunks of the applied tick once more, uninterrupted: they deliver it again, once, exactly when
      some snapshot is being assembled, and none that blocks them. */
  lemma AppliedTickIsDeliveredAgainIff<D>(room: RoomState<D>, r: RoomId, tick: nat, chunks: seq<seq<D>>, arrivals: seq<Arrival>)
    requires IsAssembling(room) && room.lastAppliedTick == Some(tick) && chunks != []
    requires forall k :: 0 <= k < |arrivals| ==> arrivals[k].chunkIndex < |chunks|
    requires forall i :: 0 <= i < |chunks| ==> IsArrival(arrivals, i)
    ensures PushParts(room, r, tick, chunks, arrivals)
         == if room.assembly.Some? && !IsBlockedBy(room, tick, |chunks|)
            then (RoomState(None, Some(tick)), [AssembledChunk(r, tick, Flatten(Completed(room, tick, chunks)))])
            else (room, [])
  {
    if room.assembly.None? {
      NothingAfterApplied(room, r, tick, chunks, arrivals);
    } else {
      OpenSnapshotIsDelivered(room, r, tick, chunks, arrivals);
    }
  }

  /** While the assembler is ahead of the applied tick, that is when the first of them steps back. */
  lemma AheadIsDeliveredAgainIff<D>(room: RoomState<D>, r: RoomId, tick: nat, chunks: seq<seq<D>>)
    requires IsAhead(room) && room.lastAppliedTick == Some(tick) && chunks != []
    ensures (room.assembly.Some? && !IsBlockedBy(room, tick, |chunks|)) <==> StepsBack(room, PartOf(r, tick, chunks, 0))
  {
  }

  // When an assembly goes idle.

  /** A chunk of this room, tick and count. */
  predicate IsChunkOf<D>(event: Event<D>, r: RoomId, tick: nat, count: nat) {
    && event.PushChunk? && IsValidHeader(event.view)
    && event.view.roomId == r && event.view.serverTick == tick && event.view.chunkCount == count
  }

  /** When the last such chunk was pushed in the first `n` events. */
  function LastChunkAt<D>(events: seq<Event<D>>, n: nat, r: RoomId, tick: nat, count: nat): int
    requires n <= |events|
  {
    if n == 0 then 0
    else if IsChunkOf(events[n - 1], r, tick, count) then events[n - 1].now
    else LastChunkAt(events, n - 1, r, tick, count)
  }

  /** The active assembly is not older than the applied tick. */
  ghost predicate IsNotBehind<D>(room: RoomState<D>) {
    room.assembly.Some? && room.lastAppliedTick.Some? ==> room.lastAppliedTick.value <= room.assembly.value.serverTick
  }

  /** An assembly was last updated by the last chunk of its own. */
  lemma PushTimes<D>(room: RoomState<D>, v: ChunkView<D>, now: int)
    requires IsAssembling(room) && IsNotBehind(room)
    ensures var room' := Push(room, v, now).0;
            && IsNotBehind(room')
            && (room'.assembly.Some? ==>
                  var a := room'.assembly.value;
                  if IsValidHeader(v) && v.serverTick == a.serverTick && v.chunkCount == a.chunkCount then a.lastUpdatedTime == now
                  else room.assembly.Some? && room.assembly.value == a)
  {
  }

  ghost predicate IsTimed<D>(room: RoomState<D>, events: seq<Event<D>>, n: nat, r: RoomId)
    requires n <= |events|
  {
    && IsNotBehind(room)
    && (room.assembly.Some? ==>
          room.assembly.value.lastUpdatedTime == LastChunkAt(events, n, r, room.assembly.value.serverTick, room.assembly.value.chunkCount))
  }

  lemma PushIsTimed<D>(room: RoomState<D>, events: seq<Event<D>>, n: nat, r: RoomId)
    requires n < |events| && IsAssembling(room) && IsTimed(room, events, n, r) && events[n].PushChunk? && events[n].view.roomId == r
    ensures IsTimed(Push(room, events[n].view, events[n].now).0, events, n + 1, r)
  {
    PushTimes(room, events[n].view, events[n].now);
    hide Push, IsAssembling;
  }

  lemma OtherIsTimed<D>(room: RoomState<D>, room': RoomState<D>, events: seq<Event<D>>, n: nat, r: RoomId)
    requires n < |events| && IsTimed(room, events, n, r) && (events[n].PushChunk? ==> events[n].view.roomId != r)
    requires room' == room || room' == room.(assembly := None) || room' == RoomState(None, None)
    ensures IsTimed(room', events, n + 1, r)
  {
  }

  lemma {:induction false} EveryAssemblyIsTimed<D>(states: seq<AssemblerState<D>>, events: seq<Event<D>>, n: nat, r: RoomId)
    requires IsRun(states, events) && n <= |events|
    ensures IsTimed(RoomOf(states[n], r), events, n, r)
  {
    hide Push, IsAssembling, IsTimed, RoomOf, After;
    if n == 0 {
      EmptyIsTimed(events, r);
    } else {
      EveryAssemblyIsTimed(states, events, n - 1, r);
      RoomStep(states, events, r, n - 1);
      assert states[n - 1 + 1] == states[n];
      RoomIsAssembling(states[n - 1], r);
      if events[n - 1].PushChunk? && events[n - 1].view.roomId == r {
        PushIsTimed(RoomOf(states[n - 1], r), events, n - 1, r);
      } else {
        OtherIsTimed(RoomOf(states[n - 1], r), RoomOf(states[n], r), events, n - 1, r);
      }
    }
  }

  lemma EmptyIsTimed<D>(events: seq<Event<D>>, r: RoomId)
    ensures IsTimed(RoomOf(EmptyAssembler<D>(), r), events, 0, r)
  {
  }

  lemma RoomIsAssembling<D>(s: AssemblerState<D>, r: RoomId)
    requires AllAssembling(s)
    ensures IsAssembling(RoomOf(s, r))
  {
  }

  /** In every run a cleanup drops exactly the assemblies whose last chunk came longer ago than the timeout. */
  lemma CleanupDropsExactlyTheIdle<D>(states: seq<AssemblerState<D>>, events: seq<Event<D>>, n: nat, r: RoomId)
    requires IsRun(states, events) && n < |events| && events[n].Cleanup? && r in states[n].assemblies
    ensures var a := states[n].assemblies[r];
            && (r in states[n + 1].assemblies
                <==> events[n].time - LastChunkAt(events, n, r, a.serverTick, a.chunkCount) <= events[n].timeout)
            && (r in states[n + 1].assemblies ==> states[n + 1].assemblies[r] == a)
            && states[n + 1].lastAppliedTicks == states[n].lastAppliedTicks
  {
    hide LastChunkAt;
    EveryAssemblyIsTimed(states, events, n, r);
    assert states[n + 1] == After(states[n], events[n]);
  }

  /** The assembler over its two tables. */
  class SnapshotChunkAssemblerCore<D> {
    var assemblyTable: map<RoomId, AssemblyState<D>>
    var lastAppliedTickTable: map<RoomId, nat>

    function View(): AssemblerState<D>
      reads this
    {
      AssemblerState(assemblyTable, lastAppliedTickTable)
    }

    ghost predicate Valid()
      reads this
    {
      AllAssembling(View())
    }

    constructor ()
      ensures Valid() && View() == EmptyAssembler()
    {
      assemblyTable, lastAppliedTickTable := map[], map[];
    }

    method ClearAll()
      modifies this
      ensures Valid() && View() == EmptyAssembler()
    {
      assemblyTable, lastAppliedTickTable := map[], map[];
    }

    method ResetRoom(roomId: RoomId)
      requires Valid()
      modifies this
      ensures Valid() && View() == AfterResetRoom(old(View()), roomId)
    {
      assemblyTable := assemblyTable - {roomId};
      lastAppliedTickTable := lastAppliedTickTable - {roomId};
    }

    method CleanupExpiredAssemblies(currentTime: int, assemblyTimeout: int)
      modifies this`assemblyTable
      ensures View() == AfterCleanup(old(View()), currentTime, assemblyTimeout)
    {
      var unvisited := assemblyTable.Keys;
      while unvisited != {}
        invariant forall r :: r in unvisited ==> r in assemblyTable
        invariant forall r :: r in assemblyTable ==> r in old(assemblyTable) && assemblyTable[r] == old(assemblyTable)[r]
        invariant forall r :: r in old(assemblyTable) && r !in unvisited ==>
                    (r in assemblyTable <==> currentTime - old(assemblyTable)[r].lastUpdatedTime <= assemblyTimeout)
        decreases unvisited
      {
        var roomId :| roomId in unvisited;
        unvisited := unvisited - {roomId};
        if currentTime - assemblyTable[roomId].lastUpdatedTime <= assemblyTimeout {
          continue;
        }
        assemblyTable := assemblyTable - {roomId};
      }
      assert assemblyTable == AfterCleanup(old(View()), currentTime, assemblyTimeout).assemblies;
    }

    static method FlattenChunkDataList(chunkDataList: seq<seq<D>>) returns (flattenedDataList: seq<D>)
      ensures flattenedDataList == Flatten(chunkDataList)
    {
      flattenedDataList := [];
      ghost var rest := chunkDataList;
      for i := 0 to |chunkDataList|
        invariant rest == chunkDataList[i..] && flattenedDataList + Flatten(rest) == Flatten(chunkDataList)
      {
        flattenedDataList := flattenedDataList + chunkDataList[i];
        rest := rest[1..];
      }
    }

    /** Stores a chunk in the assembly of its room, and delivers the snapshot if that completes it. */
    method AcceptChunk(
        assemblyState: AssemblyState<D>, chunkView: ChunkView<D>) returns (assembledChunk: Option<AssembledChunk<D>>)
      requires chunkView.chunkIndex < |assemblyState.receivedChunkFlagList| == |assemblyState.chunkDataList|
      modifies this
      ensures var (room, delivered) := Accept(RoomOf(old(View()), chunkView.roomId), assemblyState, chunkView);
              View() == WithRoom(old(View()), chunkView.roomId, room) && assembledChunk == delivered
    {
      var roomId := chunkView.roomId;
      ghost var applied := lastAppliedTickTable;
      var updated := assemblyState.(
        chunkDataList := assemblyState.chunkDataList[chunkView.chunkIndex := chunkView.dataList],
        receivedChunkFlagList := assemblyState.receivedChunkFlagList[chunkView.chunkIndex := true],
        receivedChunkCount := assemblyState.receivedChunkCount + 1);
      if updated.receivedChunkCount < updated.chunkCount {
        assemblyTable := assemblyTable[roomId := updated];
        assert roomId in applied ==> applied[roomId := applied[roomId]] == applied;
        return None;
      }
      var dataList := FlattenChunkDataList(updated.chunkDataList);
      lastAppliedTickTable := lastAppliedTickTable[roomId := updated.serverTick];
      assemblyTable := assemblyTable - {roomId};
      return Some(AssembledChunk(roomId, updated.serverTick, dataList));
    }

    method PushChunk(chunkView: ChunkView<D>, currentTime: int) returns (assembledChunk: Option<AssembledChunk<D>>)
      requires Valid()
      modifies this
      ensures Valid() && View() == AfterPush(old(View()), chunkView, currentTime)
      ensures assembledChunk == Push(RoomOf(old(View()), chunkView.roomId), chunkView, currentTime).1
    {
      var roomId := chunkView.roomId;
      AfterPushKeepsAssembling(View(), chunkView, currentTime);
      SameRoom(View(), roomId);
      if chunkView.chunkCount == 0 || chunkView.chunkIndex >= chunkView.chunkCount {
        return None;
      }
      var hasAppliedTick := roomId in lastAppliedTickTable;
      var hasAssemblyState := roomId in assemblyTable;
      if hasAppliedTick && chunkView.serverTick < lastAppliedTickTable[roomId] {
        return None;
      }
      if hasAppliedTick && chunkView.serverTick == lastAppliedTickTable[roomId] && !hasAssemblyState {
        return None;
      }
      assert hasAssemblyState ==> IsAssembling(RoomOf(View(), roomId));
      var assemblyState := if hasAssemblyState then assemblyTable[roomId] else AssemblyState(0, 0, 0, [], [], 0);
      var needReset := assemblyState.chunkCount == 0 || chunkView.serverTick > assemblyState.serverTick
                       || chunkView.chunkCount != assemblyState.chunkCount;
      assert needReset == NeedsReset(RoomOf(View(), roomId), chunkView);
      if needReset {
        assemblyState := AssemblyState(chunkView.serverTick, chunkView.chunkCount, 0,
                                       seq(chunkView.chunkCount, _ => false), seq(chunkView.chunkCount, _ => []), currentTime);
        assert assemblyState == FreshAssembly(chunkView, currentTime);
      } else if chunkView.serverTick < assemblyState.serverTick {
        return None;
      } else {
        assemblyState := assemblyState.(lastUpdatedTime := currentTime);
      }
      if assemblyState.receivedChunkFlagList[chunkView.chunkIndex] {
        assemblyTable := assemblyTable[roomId := assemblyState];
        return None;
      }
      assembledChunk := AcceptChunk(assemblyState, chunkView);
    }
  }
}
