// Players, bullets and pending effects of all rooms (Server/Game/GameWorld.cpp).

module GameWorld {
  import opened GameIds
  import opened WorldCollision
  import opened StatePool

  const RANGE := 0x1_0000_0000

  type InputFlags = nat

  const NO_INPUT: InputFlags := 0

  datatype PlayerState = PlayerState(
    playerId: PlayerId,
    position: Position,
    moveSpeed: real,
    inputFlags: InputFlags,
    hp: int,
    isDead: bool,
    killCount: nat,
    deathCount: nat,
    respawnRemainingSeconds: real,
    invincibilityRemainingSeconds: real,
    hitFlashRemainingSeconds: real,
    fireCooldownRemainingSeconds: real,
    lastMoveDirection: Position)

  datatype BulletState = BulletState(
    bulletId: nat,
    ownerPlayerId: PlayerId,
    ownerPersistentPlayerId: PersistentPlayerId,
    roomId: RoomId,
    position: Position,
    velocity: Position,
    remainingLifeSeconds: real,
    damage: int,
    radius: real)

  datatype EffectType = Impact | Spawn

  datatype ImpactEffectState = ImpactEffectState(roomId: RoomId, effectType: EffectType, position: Position)

  type PlayerTable = map<PlayerId, PlayerState>

  /** Identifiers and the tick are 32-bit counters that wrap. */
  datatype World = World(
    players: PlayerTable,
    bullets: seq<BulletState>,
    effects: seq<ImpactEffectState>,
    nextPlayerId: nat,
    nextBulletId: nat,
    serverTick: nat)

  const EMPTY_WORLD := World(map[], [], [], 1, 1, 0)

  function NextId(id: nat): nat {
    (id + 1) % RANGE
  }

  function WithPlayer(w: World, p: PlayerState): World {
    w.(players := w.players[p.playerId := p])
  }

  function WithoutPlayer(w: World, playerId: PlayerId): World {
    w.(players := w.players - {playerId})
  }

  function WithEffect(w: World, roomId: RoomId, effectType: EffectType, position: Position): World {
    w.(effects := w.effects + [ImpactEffectState(roomId, effectType, position)])
  }

  function BulletRoom(b: BulletState): RoomId {
    b.roomId
  }

  function EffectRoom(e: ImpactEffectState): RoomId {
    e.roomId
  }

  /** The world without the bullets and pending effects of a room. */
  function WithoutTransients(w: World, roomId: RoomId): World {
    w.(bullets := WithoutRoom(w.bullets, 0, BulletRoom, roomId), effects := WithoutRoom(w.effects, 0, EffectRoom, roomId))
  }

  /** Each bullet and effect of another room stays as often as it was there, and none of this room does. */
  lemma TransientsOfOthersStay(w: World, roomId: RoomId)
    ensures forall b :: multiset(WithoutTransients(w, roomId).bullets)[b] == if b.roomId == roomId then 0 else multiset(w.bullets)[b]
    ensures forall e :: multiset(WithoutTransients(w, roomId).effects)[e] == if e.roomId == roomId then 0 else multiset(w.effects)[e]
  {
    WithoutRoomIsExact(w.bullets, 0, BulletRoom, roomId);
    WithoutRoomIsExact(w.effects, 0, EffectRoom, roomId);
  }

  lemma TransientsOfOthersRemain(w: World, roomId: RoomId)
    ensures forall b :: b in WithoutTransients(w, roomId).bullets <==> b in w.bullets && b.roomId != roomId
    ensures forall e :: e in WithoutTransients(w, roomId).effects <==> e in w.effects && e.roomId != roomId
  {
    WithoutRoomKeepsOthers(w.bullets, BulletRoom, roomId);
    WithoutRoomKeepsOthers(w.effects, EffectRoom, roomId);
  }

  /** The world over its table and its two pools. */
  class GameWorld {
    var playerTable: PlayerTable
    const bulletStatePool: StatePool<BulletState>
    const pendingImpactEffectStatePool: StatePool<ImpactEffectState>
    var nextPlayerId: nat
    var nextBulletId: nat
    var serverTick: nat

    ghost function Footprint(): set<object> {
      {this, bulletStatePool, pendingImpactEffectStatePool}
    }

    ghost predicate Valid() {
      (bulletStatePool as object) != (pendingImpactEffectStatePool as object)
    }

    function View(): World
      reads this, bulletStatePool, pendingImpactEffectStatePool
    {
      World(playerTable, bulletStatePool.activeStateList, pendingImpactEffectStatePool.activeStateList,
            nextPlayerId, nextBulletId, serverTick)
    }

    constructor ()
      ensures Valid() && fresh(Footprint()) && View() == EMPTY_WORLD
    {
      playerTable, nextPlayerId, nextBulletId, serverTick := map[], 1, 1, 0;
      bulletStatePool := new StatePool();
      pendingImpactEffectStatePool := new StatePool();
    }

    method Clear()
      requires Valid()
      modifies Footprint()
      ensures View() == EMPTY_WORLD
    {
      playerTable := map[];
      bulletStatePool.Clear();
      pendingImpactEffectStatePool.Clear();
      nextPlayerId, nextBulletId, serverTick := 1, 1, 0;
    }

    method AllocatePlayerId() returns (playerId: PlayerId)
      modifies this
      ensures playerId == PlayerId(old(nextPlayerId)) && View() == old(View()).(nextPlayerId := NextId(old(nextPlayerId)))
    {
      playerId := PlayerId(nextPlayerId);
      nextPlayerId := (nextPlayerId + 1) % RANGE;
    }

    method AllocateBulletId() returns (bulletId: nat)
      modifies this
      ensures bulletId == old(nextBulletId) && View() == old(View()).(nextBulletId := NextId(old(nextBulletId)))
    {
      bulletId := nextBulletId;
      nextBulletId := (nextBulletId + 1) % RANGE;
    }

    method AdvanceServerTick()
      modifies this
      ensures View() == old(View()).(serverTick := NextId(old(serverTick)))
    {
      serverTick := (serverTick + 1) % RANGE;
    }

    method UpsertPlayer(playerState: PlayerState)
      modifies this
      ensures View() == WithPlayer(old(View()), playerState)
    {
      playerTable := playerTable[playerState.playerId := playerState];
    }

    method RemovePlayer(playerId: PlayerId)
      modifies this
      ensures View() == WithoutPlayer(old(View()), playerId)
    {
      playerTable := playerTable - {playerId};
    }

    method AddBullet(bulletState: BulletState)
      requires Valid()
      modifies bulletStatePool
      ensures View() == old(View()).(bullets := old(View()).bullets + [bulletState])
    {
      bulletStatePool.Add(bulletState);
    }

    method RemoveBulletAt(bulletIndex: nat)
      requires Valid()
      modifies bulletStatePool
      ensures View() == old(View()).(bullets := SwapRemoved(old(View()).bullets, bulletIndex))
    {
      bulletStatePool.RemoveAt(bulletIndex);
    }

    method AddPendingImpactEffect(state: ImpactEffectState)
      requires Valid()
      modifies pendingImpactEffectStatePool
      ensures View() == WithEffect(old(View()), state.roomId, state.effectType, state.position)
    {
      pendingImpactEffectStatePool.Add(state);
    }

    method ClearPendingImpactEffects()
      requires Valid()
      modifies pendingImpactEffectStatePool
      ensures View() == old(View()).(effects := [])
    {
      pendingImpactEffectStatePool.Clear();
    }

    method ClearRoomTransientState(roomId: RoomId)
      requires Valid()
      modifies bulletStatePool, pendingImpactEffectStatePool
      ensures View() == WithoutTransients(old(View()), roomId)
    {
      bulletStatePool.RemoveRoom(BulletRoom, roomId);
      pendingImpactEffectStatePool.RemoveRoom(EffectRoom, roomId);
    }
  }
}
