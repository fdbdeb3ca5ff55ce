// The sender of snapshots (Server/Protocol/SnapshotBroadcastBuilder.cpp): each room's bullets and
// effects are cut into chunks that fit a packet, under 16-bit chunk numbers.

module SnapshotBroadcastBuilder {
  import opened GameIds
  import opened SessionToken
  import opened SnapshotChunkAssembler
  import opened Wrappers

  const MAX_BULLETS_PER_SNAPSHOT := 32
  const MAX_IMPACT_EFFECTS_PER_PACKET := 16

  /** What a 16-bit field keeps of a number. */
  function Low16(n: nat): nat {
    n % 0x1_0000
  }

  datatype BulletData = BulletData(bulletId: nat, x: real, y: real)

  datatype ImpactEffectData = ImpactEffectData(effectType: nat, x: real, y: real)

  datatype RoomContext = RoomContext(
    roomId: RoomId,
    peerContextList: seq<EndpointKey>,
    bulletStateContextList: seq<BulletData>,
    impactEffectContextList: seq<ImpactEffectData>)

  datatype Task<D> = Task(endpointKeyList: seq<EndpointKey>, packet: ChunkView<D>)

  // Cutting a list into chunks.

  /** Full chunks and a last one that may be short; an empty list is one empty chunk. */
  function Chunks<D>(list: seq<D>, size: nat): (chunks: seq<seq<D>>)
    requires size > 0
    ensures chunks != []
    decreases |list|
  {
    if |list| <= size then [list] else [list[..size]] + Chunks(list[size..], size)
  }

  /** The packet that carries chunk `i` of a list. */
  function PacketOf<D>(roomId: RoomId, serverTick: nat, list: seq<D>, size: nat, i: nat): ChunkView<D>
    requires size > 0 && i < |Chunks(list, size)|
  {
    ChunkView(roomId, serverTick, Low16(i), Low16(|Chunks(list, size)|), Chunks(list, size)[i])
  }

  function TasksFor<D>(endpoints: seq<EndpointKey>, roomId: RoomId, serverTick: nat, list: seq<D>, size: nat): seq<Task<D>>
    requires size > 0
  {
    seq(|Chunks(list, size)|, i requires 0 <= i < |Chunks(list, size)| => Task(endpoints, PacketOf(roomId, serverTick, list, size, i)))
  }

  function BulletTasksOf(room: RoomContext, serverTick: nat): seq<Task<BulletData>> {
    if room.peerContextList == [] then []
    else TasksFor(room.peerContextList, room.roomId, serverTick, room.bulletStateContextList, MAX_BULLETS_PER_SNAPSHOT)
  }

  function BulletTasks(rooms: seq<RoomContext>, serverTick: nat): seq<Task<BulletData>> {
    if rooms == [] then [] else BulletTasksOf(rooms[0], serverTick) + BulletTasks(rooms[1..], serverTick)
  }

  function ImpactEffectTasksOf(room: RoomContext, serverTick: nat): seq<Task<ImpactEffectData>> {
    if room.peerContextList == [] || room.impactEffectContextList == [] then []
    else TasksFor(room.peerContextList, room.roomId, serverTick, room.impactEffectContextList, MAX_IMPACT_EFFECTS_PER_PACKET)
  }

  function ImpactEffectTasks(rooms: seq<RoomContext>, serverTick: nat): seq<Task<ImpactEffectData>> {
    if rooms == [] then [] else ImpactEffectTasksOf(rooms[0], serverTick) + ImpactEffectTasks(rooms[1..], serverTick)
  }

  /** Cutting loses nothing. */
  lemma {:induction false} ChunksJoinToList<D>(list: seq<D>, size: nat)
    requires size > 0
    ensures Flatten(Chunks(list, size)) == list
    decreases |list|
  {
    var chunks := Chunks(list, size);
    if |list| <= size {
      assert Flatten(chunks[1..]) == [];
    } else {
      ChunksJoinToList(list[size..], size);
      assert chunks[1..] == Chunks(list[size..], size);
      assert list == list[..size] + list[size..];
    }
  }

  /** Every chunk fits a packet, and only the last can be short. */
  lemma {:induction false} ChunksFit<D>(list: seq<D>, size: nat)
    requires size > 0
    ensures forall i :: 0 <= i < |Chunks(list, size)| ==> |Chunks(list, size)[i]| <= size
    ensures size * (|Chunks(list, size)| - 1) < |list| || |Chunks(list, size)| == 1
    ensures |list| <= size * |Chunks(list, size)|
    decreases |list|
  {
    if |list| > size {
      ChunksFit(list[size..], size);
      TimesNext(size, |Chunks(list[size..], size)|);
      TimesNext(size, |Chunks(list[size..], size)| - 1);
    }
  }

  lemma {:induction false} TimesIsMonotone(size: nat, n: nat, m: nat)
    requires n <= m
    ensures size * n <= size * m
    decreases m - n
  {
    if n < m {
      TimesIsMonotone(size, n, m - 1);
      TimesNext(size, m - 1);
    }
  }

  lemma TimesNext(size: int, n: int)
    ensures size * (n + 1) == size * n + size
  {
  }

  lemma {:induction false} ChunkIsSlice<D>(list: seq<D>, size: nat, i: nat)
    requires size > 0 && i < |Chunks(list, size)|
    ensures 0 <= size * i <= |list|
    ensures Chunks(list, size)[i] == list[size * i..if size * i + size <= |list| then size * i + size else |list|]
    decreases |list|
  {
    if |list| > size && i > 0 {
      ChunkIsSlice(list[size..], size, i - 1);
      TimesNext(size, i - 1);
      assert Chunks(list, size)[i] == Chunks(list[size..], size)[i - 1];
    }
  }

  function ChunkCountOf(length: nat, size: nat): nat
    requires size > 0
  {
    var count := (length + size - 1) / size;
    if count < 1 then 1 else count
  }

  lemma QuotientIs(x: nat, size: nat, q: nat)
    requires size > 0 && size * q <= x < size * q + size
    ensures x / size == q
  {
    var d := x / size;
    TimesNext(size, d);
    TimesNext(size, q);
    if d < q {
      TimesIsMonotone(size, d + 1, q);
    } else if d > q {
      TimesIsMonotone(size, q + 1, d);
    }
  }

  /** The number of chunks is what the sender computes from the length alone. */
  lemma CountIsExact<D>(list: seq<D>, size: nat)
    requires size > 0
    ensures |Chunks(list, size)| == ChunkCountOf(|list|, size)
  {
    ChunksFit(list, size);
    var n := |Chunks(list, size)|;
    TimesNext(size, n - 1);
    if list == [] {
      QuotientIs(size - 1, size, 0);
    } else {
      QuotientIs(|list| + size - 1, size, n);
    }
  }

  // The two chunk numbers are 16 bits wide.

  /** Every packet of a list carries its own index and the true count exactly when there are at most 65535 chunks. */
  lemma NumbersAreExactIffTheyFit<D>(roomId: RoomId, serverTick: nat, list: seq<D>, size: nat)
    requires size > 0
    ensures (forall i :: 0 <= i < |Chunks(list, size)| ==>
               PacketOf(roomId, serverTick, list, size, i) == PartOf(roomId, serverTick, Chunks(list, size), i))
       <==> |Chunks(list, size)| <= 0xFFFF
  {
    if |Chunks(list, size)| > 0xFFFF {
      assert PacketOf(roomId, serverTick, list, size, 0) != PartOf(roomId, serverTick, Chunks(list, size), 0);
    }
  }

  /** `v` is one of the packets the sender cut from the one list of its room and tick. */
  ghost predicate WasCut<D>(lists: map<(RoomId, nat), seq<D>>, size: nat, v: ChunkView<D>)
    requires size > 0
  {
    && (v.roomId, v.serverTick) in lists
    && var list := lists[(v.roomId, v.serverTick)];
       exists i :: 0 <= i < |Chunks(list, size)| && v == PacketOf(v.roomId, v.serverTick, list, size, i)
  }

  ghost predicate AllWereCut<D>(lists: map<(RoomId, nat), seq<D>>, size: nat, events: seq<Event<D>>)
    requires size > 0
  {
    forall k :: 0 <= k < |events| && events[k].PushChunk? ==> WasCut(lists, size, events[k].view)
  }

  /** Every bullet packet the builder makes for a tick is cut from the bullet list of its room. */
  lemma {:induction false} BulletPacketsAreCut(
      rooms: seq<RoomContext>, serverTick: nat, lists: map<(RoomId, nat), seq<BulletData>>, k: nat)
    requires forall room :: room in rooms ==> (room.roomId, serverTick) in lists && lists[(room.roomId, serverTick)] == room.bulletStateContextList
    requires k < |BulletTasks(rooms, serverTick)|
    ensures WasCut(lists, MAX_BULLETS_PER_SNAPSHOT, BulletTasks(rooms, serverTick)[k].packet)
  {
    var first := BulletTasksOf(rooms[0], serverTick);
    assert rooms[0] in rooms;
    if k < |first| {
      assert first[k].packet == PacketOf(rooms[0].roomId, serverTick, rooms[0].bulletStateContextList, MAX_BULLETS_PER_SNAPSHOT, k);
    } else {
      BulletPacketsAreCut(rooms[1..], serverTick, lists, k - |first|);
    }
  }

  /** Every effect packet the builder makes for a tick is cut from the effect list of its room. */
  lemma {:induction false} ImpactEffectPacketsAreCut(
      rooms: seq<RoomContext>, serverTick: nat, lists: map<(RoomId, nat), seq<ImpactEffectData>>, k: nat)
    requires forall room :: room in rooms ==> (room.roomId, serverTick) in lists && lists[(room.roomId, serverTick)] == room.impactEffectContextList
    requires k < |ImpactEffectTasks(rooms, serverTick)|
    ensures WasCut(lists, MAX_IMPACT_EFFECTS_PER_PACKET, ImpactEffectTasks(rooms, serverTick)[k].packet)
  {
    var first := ImpactEffectTasksOf(rooms[0], serverTick);
    assert rooms[0] in rooms;
    if k < |first| {
      assert first[k].packet == PacketOf(rooms[0].roomId, serverTick, rooms[0].impactEffectContextList, MAX_IMPACT_EFFECTS_PER_PACKET, k);
    } else {
      ImpactEffectPacketsAreCut(rooms[1..], serverTick, lists, k - |first|);
    }
  }

  /** The task takes one of the packets cut from this list to these peers. */
  ghost predicate TakesPacketOf<D>(task: Task<D>, peers: seq<EndpointKey>, roomId: RoomId, serverTick: nat, list: seq<D>, size: nat)
    requires size > 0
  {
    task.endpointKeyList == peers && exists i: nat :: i < |Chunks(list, size)| && task.packet == PacketOf(roomId, serverTick, list, size, i)
  }

  lemma TasksTakeAllPackets<D>(peers: seq<EndpointKey>, roomId: RoomId, serverTick: nat, list: seq<D>, size: nat, task: Task<D>)
    requires size > 0
    ensures task in TasksFor(peers, roomId, serverTick, list, size) <==> TakesPacketOf(task, peers, roomId, serverTick, list, size)
  {
    var tasks := TasksFor(peers, roomId, serverTick, list, size);
    if TakesPacketOf(task, peers, roomId, serverTick, list, size) {
      var i: nat :| i < |Chunks(list, size)| && task.packet == PacketOf(roomId, serverTick, list, size, i);
      assert tasks[i] == task;
    }
  }

  /** A tick's tasks take to the peers of every room that has any all packets of the room's bullets, and nothing else. */
  lemma {:induction false} EveryRoomsBulletsAreSent(rooms: seq<RoomContext>, serverTick: nat, task: Task<BulletData>)
    ensures task in BulletTasks(rooms, serverTick)
       <==> exists room :: room in rooms && room.peerContextList != []
                           && TakesPacketOf(task, room.peerContextList, room.roomId, serverTick, room.bulletStateContextList, MAX_BULLETS_PER_SNAPSHOT)
  {
    hide TasksFor, TakesPacketOf;
    if rooms != [] {
      EveryRoomsBulletsAreSent(rooms[1..], serverTick, task);
      assert rooms == [rooms[0]] + rooms[1..];
      var first := rooms[0];
      TasksTakeAllPackets(first.peerContextList, first.roomId, serverTick, first.bulletStateContextList, MAX_BULLETS_PER_SNAPSHOT, task);
    }
  }

  /** And all packets of its effects, if there are any. */
  lemma {:induction false} EveryRoomsEffectsAreSent(rooms: seq<RoomContext>, serverTick: nat, task: Task<ImpactEffectData>)
    ensures task in ImpactEffectTasks(rooms, serverTick)
       <==> exists room :: room in rooms && room.peerContextList != [] && room.impactEffectContextList != []
                           && TakesPacketOf(task, room.peerContextList, room.roomId, serverTick, room.impactEffectContextList, MAX_IMPACT_EFFECTS_PER_PACKET)
  {
    hide TasksFor, TakesPacketOf;
    if rooms != [] {
      EveryRoomsEffectsAreSent(rooms[1..], serverTick, task);
      assert rooms == [rooms[0]] + rooms[1..];
      var first := rooms[0];
      TasksTakeAllPackets(first.peerContextList, first.roomId, serverTick, first.impactEffectContextList, MAX_IMPACT_EFFECTS_PER_PACKET, task);
    }
  }

  /** No packet is sent twice: there are as many tasks as the rooms' lists make chunks. */
  lemma {:induction false} NoPacketIsSentTwice(rooms: seq<RoomContext>, serverTick: nat)
    ensures |BulletTasks(rooms, serverTick)| == BulletPacketCount(rooms)
    ensures |ImpactEffectTasks(rooms, serverTick)| == ImpactEffectPacketCount(rooms)
  {
    if rooms != [] {
      NoPacketIsSentTwice(rooms[1..], serverTick);
      CountIsExact(rooms[0].bulletStateContextList, MAX_BULLETS_PER_SNAPSHOT);
      CountIsExact(rooms[0].impactEffectContextList, MAX_IMPACT_EFFECTS_PER_PACKET);
    }
  }

  function BulletPacketCount(rooms: seq<RoomContext>): nat {
    if rooms == [] then 0
    else
      (if rooms[0].peerContextList == [] then 0 else ChunkCountOf(|rooms[0].bulletStateContextList|, MAX_BULLETS_PER_SNAPSHOT))
      + BulletPacketCount(rooms[1..])
  }

  function ImpactEffectPacketCount(rooms: seq<RoomContext>): nat {
    if rooms == [] then 0
    else
      (if rooms[0].peerContextList == [] || rooms[0].impactEffectContextList == [] then 0
       else ChunkCountOf(|rooms[0].impactEffectContextList|, MAX_IMPACT_EFFECTS_PER_PACKET))
      + ImpactEffectPacketCount(rooms[1..])
  }

  lemma {:induction false} FlattenLength<D>(chunks: seq<seq<D>>, size: nat)
    requires forall i :: 0 <= i < |chunks| ==> |chunks[i]| <= size
    ensures |Flatten(chunks)| <= size * |chunks|
  {
    if chunks != [] {
      FlattenLength(chunks[1..], size);
      assert size * |chunks| == size + size * |chunks[1..]|;
    }
  }

  /** A pushed chunk is the sender's chunk with its number, if the sender's numbers fit 16 bits. */
  lemma PushedWasCut<D>(
      lists: map<(RoomId, nat), seq<D>>, size: nat, events: seq<Event<D>>, n: nat,
      r: RoomId, tick: nat, count: nat, index: nat, dataList: seq<D>)
    requires size > 0 && AllWereCut(lists, size, events) && WasPushed(events, n, r, tick, count, index, dataList)
    ensures (r, tick) in lists && count == Low16(|Chunks(lists[(r, tick)], size)|) && |dataList| <= size
    ensures var cut := Chunks(lists[(r, tick)], size); |cut| <= 0xFFFF ==> index < |cut| && dataList == cut[index]
  {
    var k :| 0 <= k < n && events[k].PushChunk? && events[k].view == ChunkView(r, tick, index, count, dataList);
    assert WasCut(lists, size, events[k].view);
    ChunksFit(lists[(r, tick)], size);
  }

  /** Reassembly is exact. Whatever subset of the sender's packets arrives, in whatever order, repeated
      and mixed across rooms and ticks, with resets and timeouts in between: what is delivered is the
      sender's full list for that room and tick exactly when the list takes at most 65535 chunks. */
  lemma ReassemblyIsExact<D>(
      lists: map<(RoomId, nat), seq<D>>, size: nat, states: seq<AssemblerState<D>>, events: seq<Event<D>>, i: nat)
    requires size > 0 && IsRun(states, events) && AllWereCut(lists, size, events)
    requires i < |events| && DeliveredBy(states, events, i).Some?
    ensures var d := DeliveredBy(states, events, i).value;
            && (d.roomId, d.serverTick) in lists
            && (d.dataList == lists[(d.roomId, d.serverTick)] <==> |Chunks(lists[(d.roomId, d.serverTick)], size)| <= 0xFFFF)
  {
    var d := DeliveredBy(states, events, i).value;
    var chunks := DeliveriesJoinPushedChunks(states, events, i);
    JoinIsListIffItFits(lists, size, events, i + 1, d, chunks);
  }

  lemma JoinIsListIffItFits<D>(
      lists: map<(RoomId, nat), seq<D>>, size: nat, events: seq<Event<D>>, n: nat, d: AssembledChunk<D>, chunks: seq<seq<D>>)
    requires size > 0 && AllWereCut(lists, size, events) && chunks != [] && IsJoinOf(events, n, d, chunks)
    ensures (d.roomId, d.serverTick) in lists
    ensures d.dataList == lists[(d.roomId, d.serverTick)] <==> |Chunks(lists[(d.roomId, d.serverTick)], size)| <= 0xFFFF
  {
    PushedWasCut(lists, size, events, n, d.roomId, d.serverTick, |chunks|, 0, chunks[0]);
    var list := lists[(d.roomId, d.serverTick)];
    var cut := Chunks(list, size);
    forall j | 0 <= j < |chunks|
      ensures |chunks[j]| <= size && (|cut| <= 0xFFFF ==> chunks[j] == cut[j])
    {
      PushedWasCut(lists, size, events, n, d.roomId, d.serverTick, |chunks|, j, chunks[j]);
    }
    if |cut| <= 0xFFFF {
      assert chunks == cut;
      ChunksJoinToList(list, size);
    } else {
      FewerChunksAreShorter(list, size, chunks);
    }
  }

  lemma FewerChunksAreShorter<D>(list: seq<D>, size: nat, chunks: seq<seq<D>>)
    requires size > 0 && 0 < |chunks| < |Chunks(list, size)|
    requires forall j :: 0 <= j < |chunks| ==> |chunks[j]| <= size
    ensures Flatten(chunks) != list
  {
    FlattenLength(chunks, size);
    ChunksFit(list, size);
    TimesIsMonotone(size, |chunks|, |Chunks(list, size)| - 1);
  }

  // All packets of a list arrive.

  /** The room after these packets of a list with nothing in between, and what they delivered. */
  ghost function PushPackets<D>(room: RoomState<D>, r: RoomId, tick: nat, list: seq<D>, size: nat, arrivals: seq<Arrival>)
    : (RoomState<D>, seq<AssembledChunk<D>>)
    requires size > 0 && IsAssembling(room)
    requires forall k :: 0 <= k < |arrivals| ==> arrivals[k].chunkIndex < |Chunks(list, size)|
    decreases |arrivals|
  {
    if arrivals == [] then (room, [])
    else
      var v := PacketOf(r, tick, list, size, arrivals[0].chunkIndex);
      PushKeepsAssembling(room, v, arrivals[0].now);
      var (room', delivered) := Push(room, v, arrivals[0].now);
      var (final, later) := PushPackets(room', r, tick, list, size, arrivals[1..]);
      (final, if delivered.Some? then [delivered.value] + later else later)
  }

  lemma {:induction false} FittingPacketsAreParts<D>(
      room: RoomState<D>, r: RoomId, tick: nat, list: seq<D>, size: nat, arrivals: seq<Arrival>)
    requires size > 0 && IsAssembling(room) && |Chunks(list, size)| <= 0xFFFF
    requires forall k :: 0 <= k < |arrivals| ==> arrivals[k].chunkIndex < |Chunks(list, size)|
    ensures PushPackets(room, r, tick, list, size, arrivals) == PushParts(room, r, tick, Chunks(list, size), arrivals)
    decreases |arrivals|
  {
    if arrivals != [] {
      var v := PacketOf(r, tick, list, size, arrivals[0].chunkIndex);
      assert v == PartOf(r, tick, Chunks(list, size), arrivals[0].chunkIndex);
      PushKeepsAssembling(room, v, arrivals[0].now);
      FittingPacketsAreParts(Push(room, v, arrivals[0].now).0, r, tick, list, size, arrivals[1..]);
    }
  }

  /** A packet of the list carries this data under this index. */
  ghost predicate IsPacketData<D>(list: seq<D>, size: nat, index: nat, dataList: seq<D>)
    requires size > 0
  {
    exists j :: 0 <= j < |Chunks(list, size)| && index == Low16(j) && dataList == Chunks(list, size)[j]
  }

  /** What the room holds under the list's tick and packet count came in the list's packets. */
  ghost predicate HoldsOnlyPackets<D>(room: RoomState<D>, tick: nat, list: seq<D>, size: nat)
    requires size > 0 && IsAssembling(room)
  {
    room.assembly.Some? && room.assembly.value.serverTick == tick && room.assembly.value.chunkCount == Low16(|Chunks(list, size)|) ==>
      var a := room.assembly.value;
      forall i :: 0 <= i < a.chunkCount && a.receivedChunkFlagList[i] ==> IsPacketData(list, size, i, a.chunkDataList[i])
  }

  /** In every reachable state that is so. */
  lemma RunHoldsOnlyPackets<D>(
      lists: map<(RoomId, nat), seq<D>>, size: nat, states: seq<AssemblerState<D>>, events: seq<Event<D>>, n: nat, r: RoomId, tick: nat)
    requires size > 0 && IsRun(states, events) && AllWereCut(lists, size, events) && n < |states| && (r, tick) in lists
    ensures HoldsOnlyPackets(RoomOf(states[n], r), tick, lists[(r, tick)], size)
  {
    RunStoresPushed(states, events, r, n);
    var room, list := RoomOf(states[n], r), lists[(r, tick)];
    if room.assembly.Some? && room.assembly.value.serverTick == tick {
      var a := room.assembly.value;
      forall i | 0 <= i < a.chunkCount && a.receivedChunkFlagList[i]
        ensures IsPacketData(list, size, i, a.chunkDataList[i])
      {
        assert WasPushed(events, n, r, tick, a.chunkCount, i, a.chunkDataList[i]);
        var k :| 0 <= k < n && events[k].PushChunk? && events[k].view == ChunkView(r, tick, i, a.chunkCount, a.chunkDataList[i]);
        assert WasCut(lists, size, events[k].view);
        var j :| 0 <= j < |Chunks(list, size)| && events[k].view == PacketOf(r, tick, list, size, j);
      }
    }
  }

  /** A list of too many chunks is delivered by none of its packets: whatever they deliver is shorter. */
  lemma {:induction false} OversizedListIsNotDelivered<D>(
      room: RoomState<D>, r: RoomId, tick: nat, list: seq<D>, size: nat, arrivals: seq<Arrival>)
    requires size > 0 && IsAssembling(room) && HoldsOnlyPackets(room, tick, list, size) && |Chunks(list, size)| > 0xFFFF
    requires forall k :: 0 <= k < |arrivals| ==> arrivals[k].chunkIndex < |Chunks(list, size)|
    ensures forall d :: d in PushPackets(room, r, tick, list, size, arrivals).1 ==> d.dataList != list
    decreases |arrivals|
  {
    if arrivals != [] {
      var v, now := PacketOf(r, tick, list, size, arrivals[0].chunkIndex), arrivals[0].now;
      PushKeepsAssembling(room, v, now);
      PacketIsStored(room, r, tick, list, size, arrivals[0].chunkIndex, now);
      OversizedListIsNotDelivered(Push(room, v, now).0, r, tick, list, size, arrivals[1..]);
    }
  }

  lemma PacketIsStored<D>(room: RoomState<D>, r: RoomId, tick: nat, list: seq<D>, size: nat, index: nat, now: int)
    requires size > 0 && IsAssembling(room) && HoldsOnlyPackets(room, tick, list, size)
    requires index < |Chunks(list, size)| && |Chunks(list, size)| > 0xFFFF
    ensures var (room', delivered) := Push(room, PacketOf(r, tick, list, size, index), now);
            && IsAssembling(room') && HoldsOnlyPackets(room', tick, list, size)
            && (delivered.Some? ==> delivered.value.dataList != list)
  {
    var v := PacketOf(r, tick, list, size, index);
    var (room', delivered) := Push(room, v, now);
    PushKeepsAssembling(room, v, now);
    assert IsPacketData(list, size, v.chunkIndex, v.dataList);
    PushOutcome(room, v, now);
    if delivered.Some? {
      var chunks := Stored(Target(room, v, now), v).chunkDataList;
      ChunksFit(list, size);
      forall i | 0 <= i < |chunks|
        ensures |chunks[i]| <= size
      {
        assert Stored(Target(room, v, now), v).receivedChunkFlagList[i];
      }
      FewerChunksAreShorter(list, size, chunks);
    }
  }

  /** When all packets of a newer tick arrive, in any order and with repeats, uninterrupted: they deliver the
      list, whole and once, exactly when its chunks can be numbered and no newer snapshot blocks them. */
  lemma AllPacketsDeliverTheList<D>(
      room: RoomState<D>, roomId: RoomId, tick: nat, list: seq<D>, size: nat, arrivals: seq<Arrival>)
    requires size > 0 && IsAssembling(room) && IsNewTick(room, tick) && HoldsOnlyPackets(room, tick, list, size)
    requires forall k :: 0 <= k < |arrivals| ==> arrivals[k].chunkIndex < |Chunks(list, size)|
    requires forall i :: 0 <= i < |Chunks(list, size)| ==> IsArrival(arrivals, i)
    ensures PushPackets(room, roomId, tick, list, size, arrivals).1 == [AssembledChunk(roomId, tick, list)]
       <==> |Chunks(list, size)| <= 0xFFFF && !IsBlockedBy(room, tick, |Chunks(list, size)|)
    ensures |Chunks(list, size)| <= 0xFFFF && IsBlockedBy(room, tick, |Chunks(list, size)|) ==>
              PushPackets(room, roomId, tick, list, size, arrivals).1 == []
  {
    if |Chunks(list, size)| <= 0xFFFF {
      FittingPacketsAreParts(room, roomId, tick, list, size, arrivals);
      ChunksJoinToList(list, size);
      CompletedIsChunks(room, tick, Chunks(list, size));
      CompleteSnapshotIsDeliveredOnce(room, roomId, tick, Chunks(list, size), arrivals);
    } else {
      OversizedListIsNotDelivered(room, roomId, tick, list, size, arrivals);
      assert AssembledChunk(roomId, tick, list) in [AssembledChunk(roomId, tick, list)];
    }
  }

  /** So it is after any run of packets cut from the lists of their rooms and ticks. */
  lemma {:induction false} AllPacketsDeliverTheListInRuns<D>(
      lists: map<(RoomId, nat), seq<D>>, size: nat, states: seq<AssemblerState<D>>, events: seq<Event<D>>, n: nat,
      roomId: RoomId, tick: nat, arrivals: seq<Arrival>)
    requires size > 0 && IsRun(states, events) && AllWereCut(lists, size, events) && n < |states|
    requires (roomId, tick) in lists && IsNewTick(RoomOf(states[n], roomId), tick)
    requires forall k :: 0 <= k < |arrivals| ==> arrivals[k].chunkIndex < |Chunks(lists[(roomId, tick)], size)|
    requires forall i :: 0 <= i < |Chunks(lists[(roomId, tick)], size)| ==> IsArrival(arrivals, i)
    ensures var room, list := RoomOf(states[n], roomId), lists[(roomId, tick)];
            PushPackets(room, roomId, tick, list, size, arrivals).1 == [AssembledChunk(roomId, tick, list)]
            <==> |Chunks(list, size)| <= 0xFFFF && !IsBlockedBy(room, tick, |Chunks(list, size)|)
  {
    RunHoldsOnlyPackets(lists, size, states, events, n, roomId, tick);
    AllPacketsDeliverTheList(RoomOf(states[n], roomId), roomId, tick, lists[(roomId, tick)], size, arrivals);
  }

  /** It does go wrong: of 65537 entries, one to a packet, the first is delivered as the whole snapshot. */
  lemma OversizedListIsDeliveredCut<D>(roomId: RoomId, tick: nat, list: seq<D>, now: int)
    requires |list| == 0x1_0001
    ensures |Chunks(list, 1)| == 0x1_0001
    ensures Push(RoomState(None, None), PacketOf(roomId, tick, list, 1, 0), now)
         == (RoomState(None, Some(tick)), Some(AssembledChunk(roomId, tick, [list[0]])))
  {
    CountIsExact(list, 1);
    var v := PacketOf(roomId, tick, list, 1, 0);
    assert v == ChunkView(roomId, tick, 0, 1, [list[0]]);
    assert Stored(FreshAssembly(v, now), v).chunkDataList == [[list[0]]];
    assert Flatten([[list[0]]]) == [list[0]] + Flatten([]) == [list[0]];
  }

  // The builder's loops.

  /** One chunk, copied entry by entry into a packet. */
  method FillPacket<D>(roomId: RoomId, serverTick: nat, list: seq<D>, size: nat, chunkIndex: nat, chunkCount: nat)
    returns (packet: ChunkView<D>)
    requires size > 0 && chunkIndex < chunkCount == |Chunks(list, size)|
    ensures packet == PacketOf(roomId, serverTick, list, size, chunkIndex)
  {
    ChunkIsSlice(list, size, chunkIndex);
    var beginIndex := chunkIndex * size;
    var endIndex := if beginIndex + size <= |list| then beginIndex + size else |list|;
    var dataList: seq<D> := [];
    var index := beginIndex;
    while index < endIndex
      invariant beginIndex <= index <= endIndex && dataList == list[beginIndex..index]
    {
      dataList := dataList + [list[index]];
      index := index + 1;
    }
    return ChunkView(roomId, serverTick, Low16(chunkIndex), Low16(chunkCount), dataList);
  }

  method BuildRoomTasks<D>(endpoints: seq<EndpointKey>, roomId: RoomId, serverTick: nat, list: seq<D>, size: nat, chunkCount: nat)
    returns (taskList: seq<Task<D>>)
    requires size > 0 && chunkCount == |Chunks(list, size)|
    ensures taskList == TasksFor(endpoints, roomId, serverTick, list, size)
  {
    taskList := [];
    for chunkIndex := 0 to chunkCount
      invariant |taskList| == chunkIndex
      invariant forall i :: 0 <= i < chunkIndex ==> taskList[i] == Task(endpoints, PacketOf(roomId, serverTick, list, size, i))
    {
      var packet := FillPacket(roomId, serverTick, list, size, chunkIndex, chunkCount);
      taskList := taskList + [Task(endpoints, packet)];
    }
  }

  method BuildBulletSnapshotTasksOf(room: RoomContext, serverTick: nat) returns (taskList: seq<Task<BulletData>>)
    ensures taskList == BulletTasksOf(room, serverTick)
  {
    if room.peerContextList == [] {
      return [];
    }
    var list, size := room.bulletStateContextList, MAX_BULLETS_PER_SNAPSHOT;
    var chunkCount := (|list| + size - 1) / size;
    if chunkCount < 1 {
      chunkCount := 1;
    }
    CountIsExact(list, size);
    taskList := BuildRoomTasks(room.peerContextList, room.roomId, serverTick, list, size, chunkCount);
  }

  method BuildBulletSnapshotTasks(roomContextList: seq<RoomContext>, serverTick: nat) returns (taskList: seq<Task<BulletData>>)
    ensures taskList == BulletTasks(roomContextList, serverTick)
  {
    taskList := [];
    ghost var rest := roomContextList;
    for i := 0 to |roomContextList|
      invariant rest == roomContextList[i..]
      invariant taskList + BulletTasks(rest, serverTick) == BulletTasks(roomContextList, serverTick)
    {
      var roomTaskList := BuildBulletSnapshotTasksOf(roomContextList[i], serverTick);
      taskList := taskList + roomTaskList;
      rest := rest[1..];
    }
  }

  method BuildImpactEffectTasksOf(room: RoomContext, serverTick: nat) returns (taskList: seq<Task<ImpactEffectData>>)
    ensures taskList == ImpactEffectTasksOf(room, serverTick)
  {
    if room.peerContextList == [] || room.impactEffectContextList == [] {
      return [];
    }
    var list, size := room.impactEffectContextList, MAX_IMPACT_EFFECTS_PER_PACKET;
    var chunkCount := (|list| + size - 1) / size;
    CountIsExact(list, size);
    taskList := BuildRoomTasks(room.peerContextList, room.roomId, serverTick, list, size, chunkCount);
  }

  method BuildImpactEffectTasks(
      roomContextList: seq<RoomContext>, serverTick: nat) returns (taskList: seq<Task<ImpactEffectData>>)
    ensures taskList == ImpactEffectTasks(roomContextList, serverTick)
  {
    taskList := [];
    ghost var rest := roomContextList;
    for i := 0 to |roomContextList|
      invariant rest == roomContextList[i..]
      invariant taskList + ImpactEffectTasks(rest, serverTick) == ImpactEffectTasks(roomContextList, serverTick)
    {
      var roomTaskList := BuildImpactEffectTasksOf(roomContextList[i], serverTick);
      taskList := taskList + roomTaskList;
      rest := rest[1..];
    }
  }
}
