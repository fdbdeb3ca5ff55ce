// The simulation's loops over the world (Server/Game/GameSimulation.cpp), in the arena of the game's rooms.

module GameSimulationLoops {
  import opened GameIds
  import opened WorldCollision
  import opened RoomLayout
  import opened GameWorld
  import opened Arena
  import opened GameSimulation
  import opened PeerRoomManager
  import opened Wrappers

  // Moving the players.

  method MovePlayer(p: PlayerState, roomId: RoomId, dt: real, directions: Directions) returns (position: Position)
    ensures position == GameArena(directions).moved(p, roomId, dt)
  {
    position := MovePlayerWithWallCollision(
      p.position, Displacement(directions, p, dt), PLAYER_HALF_EXTENT, DEFAULT_WORLD_BOUNDS, WallRectListForRoom(roomId));
  }

  method UpdatePlayers(dt: real, contexts: seq<PlayerSimulationContext>, gameWorld: GameWorld, directions: Directions)
    requires gameWorld.Valid()
    modifies gameWorld
    ensures gameWorld.View() == PlayersMoved(old(gameWorld.View()), contexts, dt, GameArena(directions))
  {
    hide GameArena;
    for i := 0 to |contexts|
      invariant gameWorld.View() == PlayersMoved(old(gameWorld.View()), contexts[..i], dt, GameArena(directions))
    {
      assert contexts[..i + 1][..i] == contexts[..i];
      var context := contexts[i];
      if context.playerId !in gameWorld.playerTable || gameWorld.playerTable[context.playerId].isDead {
        continue;
      }
      var playerState := gameWorld.playerTable[context.playerId];
      var position := MovePlayer(playerState, context.roomId, dt, directions);
      gameWorld.playerTable := gameWorld.playerTable[context.playerId := playerState.(position := position)];
    }
    assert contexts[..|contexts|] == contexts;
  }

  // Flying and hitting.

  method SpawnImpactEffect(position: Position, roomId: RoomId, effectType: EffectType, gameWorld: GameWorld)
    requires gameWorld.Valid()
    modifies gameWorld.pendingImpactEffectStatePool
    ensures gameWorld.View() == WithEffect(old(gameWorld.View()), roomId, effectType, position)
  {
    gameWorld.AddPendingImpactEffect(ImpactEffectState(roomId, effectType, position));
  }

  /** A bullet that ended its move outside the bounds or in a wall leaves its mark where it first touched. */
  method StrikeSurroundings(bullet: BulletState, previous: Position, gameWorld: GameWorld) returns (struck: bool)
    requires gameWorld.Valid()
    modifies gameWorld.pendingImpactEffectStatePool
    ensures struck == HitsSurroundings(bullet)
    ensures gameWorld.View() == if struck then WithEffect(old(gameWorld.View()), bullet.roomId, Impact, BulletImpact(previous, bullet)) else old(gameWorld.View())
  {
    hide ImpactPosition;
    var walls := WallRectListForRoom(bullet.roomId);
    if IsCircleOutsideWorldBounds(bullet.position.x, bullet.position.y, bullet.radius, DEFAULT_WORLD_BOUNDS) {
      var impact := FindCircleImpactPosition(previous, bullet.position, bullet.radius, DEFAULT_WORLD_BOUNDS, walls);
      SpawnImpactEffect(impact, bullet.roomId, Impact, gameWorld);
      return true;
    }
    if IsCircleCollidingWithAnyWall(bullet.position.x, bullet.position.y, bullet.radius, walls) {
      var impact := FindCircleImpactPosition(previous, bullet.position, bullet.radius, DEFAULT_WORLD_BOUNDS, walls);
      SpawnImpactEffect(impact, bullet.roomId, Impact, gameWorld);
      return true;
    }
    return false;
  }

  /** The victim of a hit is wounded, and if that kills it, the kill is credited and reported. */
  method Hit(
      bullet: BulletState, context: PlayerSimulationContext, gameWorld: GameWorld,
      rules: GameRuleConfig) returns (kills: seq<KillEvent>)
    requires gameWorld.Valid() && context.playerId in gameWorld.playerTable
    modifies gameWorld, gameWorld.pendingImpactEffectStatePool
    ensures (gameWorld.View(), kills) == HitPlayer(old(gameWorld.View()), bullet, context, rules)
  {
    kills := [];
    var playerState := gameWorld.playerTable[context.playerId];
    var hp := if playerState.hp - bullet.damage < 0 then 0 else playerState.hp - bullet.damage;
    playerState := playerState.(hp := hp, hitFlashRemainingSeconds := rules.hitFlashDurationSeconds);
    SpawnImpactEffect(bullet.position, bullet.roomId, Impact, gameWorld);
    if hp <= 0 {
      playerState := playerState.(isDead := true, respawnRemainingSeconds := rules.respawnDelaySeconds,
                                  invincibilityRemainingSeconds := 0.0, inputFlags := NO_INPUT, deathCount := playerState.deathCount + 1);
    }
    gameWorld.playerTable := gameWorld.playerTable[context.playerId := playerState];
    if hp <= 0 {
      if bullet.ownerPlayerId in gameWorld.playerTable {
        var owner := gameWorld.playerTable[bullet.ownerPlayerId];
        gameWorld.playerTable := gameWorld.playerTable[bullet.ownerPlayerId := owner.(killCount := owner.killCount + 1)];
      }
      kills := [KillEvent(bullet.ownerPlayerId, bullet.ownerPersistentPlayerId, context.playerId, context.persistentPlayerId, bullet.roomId)];
    }
  }

  method FindHit(
      bullet: BulletState, contexts: seq<PlayerSimulationContext>, gameWorld: GameWorld, ghost arena: Arena) returns (k: nat)
    requires arena.hitsPlayer == IsBulletCollidingWithPlayer
    ensures k == FirstHit(arena, bullet, contexts, gameWorld.playerTable, 0)
  {
    hide IsBulletCollidingWithPlayer;
    k := 0;
    while k < |contexts|
      invariant k <= |contexts| && FirstHit(arena, bullet, contexts, gameWorld.playerTable, 0) == FirstHit(arena, bullet, contexts, gameWorld.playerTable, k)
    {
      var context := contexts[k];
      if context.playerId == bullet.ownerPlayerId || context.roomId != bullet.roomId || context.playerId !in gameWorld.playerTable {
        k := k + 1;
        continue;
      }
      var playerState := gameWorld.playerTable[context.playerId];
      if playerState.isDead || playerState.invincibilityRemainingSeconds > 0.0 || !IsBulletCollidingWithPlayer(bullet, playerState) {
        k := k + 1;
        continue;
      }
      return;
    }
  }

  method Land(
      bullet: BulletState, previous: Position, contexts: seq<PlayerSimulationContext>, gameWorld: GameWorld,
      rules: GameRuleConfig, ghost arena: Arena)
    returns (kills: seq<KillEvent>, shouldErase: bool)
    requires gameWorld.Valid() && arena.hitsPlayer == IsBulletCollidingWithPlayer
    requires arena.hitsSurroundings == HitsSurroundings && arena.impact == BulletImpact
    modifies gameWorld, gameWorld.pendingImpactEffectStatePool
    ensures Flight(gameWorld.View(), kills, shouldErase) == Landed(old(gameWorld.View()), bullet, previous, contexts, rules, arena)
  {
    hide IsBulletCollidingWithPlayer, HitsSurroundings, BulletImpact, HitPlayer, FirstHit;
    if bullet.remainingLifeSeconds <= 0.0 {
      return [], true;
    }
    var struck := StrikeSurroundings(bullet, previous, gameWorld);
    if struck {
      return [], true;
    }
    var k := FindHit(bullet, contexts, gameWorld, arena);
    if k == |contexts| {
      return [], false;
    }
    kills := Hit(bullet, contexts[k], gameWorld, rules);
    return kills, true;
  }

  /** One bullet's turn: it moves in place, lands if it must, and is swapped out of the pool if it is spent. */
  method AdvanceBullet(
      bulletIndex: nat, dt: real, contexts: seq<PlayerSimulationContext>, gameWorld: GameWorld, rules: GameRuleConfig, ghost arena: Arena)
    returns (kills: seq<KillEvent>, shouldErase: bool)
    requires gameWorld.Valid() && bulletIndex < |gameWorld.bulletStatePool.activeStateList|
    requires arena.hitsPlayer == IsBulletCollidingWithPlayer && arena.hitsSurroundings == HitsSurroundings && arena.impact == BulletImpact
    modifies gameWorld.Footprint()
    ensures Flight(gameWorld.View(), kills, shouldErase) == BulletStep(old(gameWorld.View()), bulletIndex, contexts, dt, rules, arena)
  {
    hide Landed, IsBulletCollidingWithPlayer, HitsSurroundings, BulletImpact;
    var pool := gameWorld.bulletStatePool;
    var previous := pool.activeStateList[bulletIndex].position;
    var bullet := BulletMoved(pool.activeStateList[bulletIndex], dt);
    pool.activeStateList := pool.activeStateList[bulletIndex := bullet];
    kills, shouldErase := Land(bullet, previous, contexts, gameWorld, rules, arena);
    if shouldErase {
      gameWorld.RemoveBulletAt(bulletIndex);
    }
  }

  lemma PassStep(w: World, index: nat, contexts: seq<PlayerSimulationContext>, dt: real, rules: GameRuleConfig, arena: Arena)
    requires index < |w.bullets|
    ensures var f := BulletStep(w, index, contexts, dt, rules, arena);
            var (updated, later) := BulletsUpdated(f.world, NextIndex(index, f), contexts, dt, rules, arena);
            BulletsUpdated(w, index, contexts, dt, rules, arena) == (updated, f.kills + later)
  {
  }

  lemma PassEnd(w: World, contexts: seq<PlayerSimulationContext>, dt: real, rules: GameRuleConfig, arena: Arena)
    ensures BulletsUpdated(w, |w.bullets|, contexts, dt, rules, arena) == (w, [])
  {
  }

  /** `done` and what the pass still brings from `index` on are the whole. */
  ghost predicate IsRestOfPass(
      whole: (World, seq<KillEvent>), done: seq<KillEvent>, w: World, index: nat,
      contexts: seq<PlayerSimulationContext>, dt: real, rules: GameRuleConfig, arena: Arena) {
    index <= |w.bullets| && var rest := BulletsUpdated(w, index, contexts, dt, rules, arena); whole == (rest.0, done + rest.1)
  }

  lemma RestAfterStep(
      whole: (World, seq<KillEvent>), done: seq<KillEvent>, w: World, index: nat,
      contexts: seq<PlayerSimulationContext>, dt: real, rules: GameRuleConfig, arena: Arena)
    requires index < |w.bullets| && IsRestOfPass(whole, done, w, index, contexts, dt, rules, arena)
    ensures var f := BulletStep(w, index, contexts, dt, rules, arena);
            IsRestOfPass(whole, done + f.kills, f.world, NextIndex(index, f), contexts, dt, rules, arena)
  {
    hide BulletsUpdated;
    PassStep(w, index, contexts, dt, rules, arena);
    var f := BulletStep(w, index, contexts, dt, rules, arena);
    hide BulletStep;
    var later := BulletsUpdated(f.world, NextIndex(index, f), contexts, dt, rules, arena).1;
    assert done + (f.kills + later) == done + f.kills + later;
  }

  lemma RestAtStart(w: World, contexts: seq<PlayerSimulationContext>, dt: real, rules: GameRuleConfig, arena: Arena)
    ensures IsRestOfPass(BulletsUpdated(w, 0, contexts, dt, rules, arena), [], w, 0, contexts, dt, rules, arena)
  {
    hide BulletsUpdated;
    var kills := BulletsUpdated(w, 0, contexts, dt, rules, arena).1;
    assert [] + kills == kills;
  }

  lemma RestAtEnd(
      whole: (World, seq<KillEvent>), done: seq<KillEvent>, w: World,
      contexts: seq<PlayerSimulationContext>, dt: real, rules: GameRuleConfig, arena: Arena)
    requires IsRestOfPass(whole, done, w, |w.bullets|, contexts, dt, rules, arena)
    ensures whole == (w, done)
  {
    PassEnd(w, contexts, dt, rules, arena);
    assert done + [] == done;
  }

  method UpdateBullets(
      dt: real, contexts: seq<PlayerSimulationContext>, gameWorld: GameWorld, rules: GameRuleConfig, directions: Directions)
    returns (killEventList: seq<KillEvent>)
    requires gameWorld.Valid()
    modifies gameWorld.Footprint()
    ensures (gameWorld.View(), killEventList) == BulletsUpdated(old(gameWorld.View()), 0, contexts, dt, rules, GameArena(directions))
  {
    ghost var arena := GameArena(directions);
    assert arena.hitsPlayer == IsBulletCollidingWithPlayer && arena.hitsSurroundings == HitsSurroundings && arena.impact == BulletImpact;
    hide GameArena, BulletStep, BulletsUpdated, IsRestOfPass, IsBulletCollidingWithPlayer, HitsSurroundings, BulletImpact;
    ghost var whole := BulletsUpdated(gameWorld.View(), 0, contexts, dt, rules, arena);
    RestAtStart(gameWorld.View(), contexts, dt, rules, arena);
    killEventList := [];
    var bulletIndex := 0;
    while bulletIndex < |gameWorld.bulletStatePool.activeStateList|
      invariant bulletIndex <= |gameWorld.bulletStatePool.activeStateList|
      invariant IsRestOfPass(whole, killEventList, gameWorld.View(), bulletIndex, contexts, dt, rules, arena)
      decreases |gameWorld.bulletStatePool.activeStateList| - bulletIndex
    {
      RestAfterStep(whole, killEventList, gameWorld.View(), bulletIndex, contexts, dt, rules, arena);
      var kills, shouldErase := AdvanceBullet(bulletIndex, dt, contexts, gameWorld, rules, arena);
      killEventList := killEventList + kills;
      if !shouldErase {
        bulletIndex := bulletIndex + 1;
      }
    }
    RestAtEnd(whole, killEventList, gameWorld.View(), contexts, dt, rules, arena);
  }

  // Coming back to life, and timers.

  method FindContext(contexts: seq<PlayerSimulationContext>, playerId: PlayerId) returns (found: Option<PlayerSimulationContext>)
    ensures found == ContextOf(contexts, playerId)
  {
    ghost var rest := contexts;
    for i := 0 to |contexts|
      invariant rest == contexts[i..] && ContextOf(contexts, playerId) == ContextOf(rest, playerId)
    {
      if contexts[i].playerId == playerId {
        return Some(contexts[i]);
      }
      rest := rest[1..];
    }
    return None;
  }

  method UpdateRespawn(
      playerId: PlayerId, dt: real, contexts: seq<PlayerSimulationContext>, gameWorld: GameWorld, rules: GameRuleConfig,
      ghost arena: Arena)
    requires gameWorld.Valid() && playerId in gameWorld.playerTable && arena.spawnPoint == SpawnPointForRoom
    modifies gameWorld, gameWorld.pendingImpactEffectStatePool
    ensures gameWorld.View() == RespawnStep(old(gameWorld.View()), playerId, contexts, dt, rules, arena)
  {
    hide SpawnPointForRoom, ContextOf;
    var playerState := gameWorld.playerTable[playerId];
    if !playerState.isDead {
      return;
    }
    playerState := playerState.(respawnRemainingSeconds := playerState.respawnRemainingSeconds - dt);
    gameWorld.playerTable := gameWorld.playerTable[playerId := playerState];
    if playerState.respawnRemainingSeconds > 0.0 {
      return;
    }
    var context := FindContext(contexts, playerId);
    if context.None? {
      return;
    }
    var spawnPosition := SpawnPointForRoom(context.value.roomId, 0);
    playerState := playerState.(
      position := spawnPosition, hp := rules.initialPlayerHp, isDead := false, respawnRemainingSeconds := 0.0,
      invincibilityRemainingSeconds := rules.respawnInvincibilitySeconds, hitFlashRemainingSeconds := 0.0,
      fireCooldownRemainingSeconds := 0.0, inputFlags := NO_INPUT, lastMoveDirection := Position(1.0, 0.0));
    gameWorld.playerTable := gameWorld.playerTable[playerId := playerState];
    SpawnImpactEffect(spawnPosition, context.value.roomId, Spawn, gameWorld);
  }

  /** One pass over the players, in the order of the table, reported as `order`. */
  method UpdateRespawns(
      dt: real, contexts: seq<PlayerSimulationContext>, gameWorld: GameWorld, rules: GameRuleConfig, directions: Directions)
    returns (ghost order: seq<PlayerId>)
    requires gameWorld.Valid()
    modifies gameWorld, gameWorld.pendingImpactEffectStatePool
    ensures IsListing(order, old(gameWorld.playerTable).Keys)
    ensures gameWorld.View() == Respawned(old(gameWorld.View()), order, contexts, dt, rules, GameArena(directions))
  {
    ghost var arena, before := GameArena(directions), gameWorld.View();
    hide GameArena, SpawnPointForRoom;
    order := [];
    var unvisited := gameWorld.playerTable.Keys;
    while unvisited != {}
      invariant gameWorld.playerTable.Keys == before.players.Keys && unvisited <= before.players.Keys
      invariant forall id :: id in order <==> id in before.players && id !in unvisited
      invariant forall i, j :: 0 <= i < j < |order| ==> order[i] != order[j]
      invariant gameWorld.View() == Respawned(before, order, contexts, dt, rules, arena)
      decreases unvisited
    {
      var playerId :| playerId in unvisited;
      unvisited := unvisited - {playerId};
      ghost var earlier := gameWorld.View();
      UpdateRespawn(playerId, dt, contexts, gameWorld, rules, arena);
      RespawnStepKeepsKeys(earlier, playerId, contexts, dt, rules, arena);
      assert (order + [playerId])[..|order|] == order;
      order := order + [playerId];
    }
  }

  lemma RespawnStepKeepsKeys(
      w: World, playerId: PlayerId, contexts: seq<PlayerSimulationContext>, dt: real, rules: GameRuleConfig, arena: Arena)
    requires playerId in w.players
    ensures RespawnStep(w, playerId, contexts, dt, rules, arena).players.Keys == w.players.Keys
  {
  }

  method UpdatePlayerTimers(dt: real, gameWorld: GameWorld)
    requires gameWorld.Valid()
    modifies gameWorld
    ensures gameWorld.View() == TimersUpdated(old(gameWorld.View()), dt)
  {
    ghost var before := gameWorld.View();
    var unvisited := gameWorld.playerTable.Keys;
    while unvisited != {}
      invariant gameWorld.View() == before.(players := gameWorld.playerTable)
      invariant gameWorld.playerTable.Keys == before.players.Keys && unvisited <= before.players.Keys
      invariant forall id :: id in unvisited ==> gameWorld.playerTable[id] == before.players[id]
      invariant forall id :: id in before.players && id !in unvisited ==> gameWorld.playerTable[id] == TimersUpdated(before, dt).players[id]
      decreases unvisited
    {
      var playerId :| playerId in unvisited;
      unvisited := unvisited - {playerId};
      var playerState := gameWorld.playerTable[playerId];
      gameWorld.playerTable := gameWorld.playerTable[playerId := playerState.(
        invincibilityRemainingSeconds := UpdatedTimer(playerState.invincibilityRemainingSeconds, dt),
        hitFlashRemainingSeconds := UpdatedTimer(playerState.hitFlashRemainingSeconds, dt),
        fireCooldownRemainingSeconds := UpdatedTimer(playerState.fireCooldownRemainingSeconds, dt))];
    }
    assert gameWorld.playerTable == TimersUpdated(before, dt).players;
  }
}
