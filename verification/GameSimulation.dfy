// One tick of the game: players, bullets, respawns and timers (Server/Game/GameSimulation.cpp).

module GameSimulation {
  import opened GameIds
  import opened WorldCollision
  import opened StatePool
  import opened GameWorld
  import opened Arena
  import opened Wrappers

  datatype GameRuleConfig = GameRuleConfig(
    initialPlayerHp: int,
    respawnDelaySeconds: real,
    respawnInvincibilitySeconds: real,
    hitFlashDurationSeconds: real)

  datatype PlayerSimulationContext = PlayerSimulationContext(
    playerId: PlayerId,
    persistentPlayerId: PersistentPlayerId,
    roomId: RoomId)

  datatype KillEvent = KillEvent(
    killerPlayerId: PlayerId,
    killerPersistentPlayerId: PersistentPlayerId,
    victimPlayerId: PlayerId,
    victimPersistentPlayerId: PersistentPlayerId,
    roomId: RoomId)

  // Moving the players.

  function MoveStep(w: World, c: PlayerSimulationContext, dt: real, arena: Arena): World {
    if c.playerId !in w.players || w.players[c.playerId].isDead then w
    else w.(players := w.players[c.playerId := w.players[c.playerId].(position := arena.moved(w.players[c.playerId], c.roomId, dt))])
  }

  function PlayersMoved(w: World, contexts: seq<PlayerSimulationContext>, dt: real, arena: Arena): World {
    if contexts == [] then w
    else
      MoveStep(PlayersMoved(w, contexts[..|contexts| - 1], dt, arena), contexts[|contexts| - 1], dt, arena)
  }

  // Flying and hitting.

  function BulletMoved(b: BulletState, dt: real): BulletState {
    b.(position := Position(b.position.x + b.velocity.x * dt, b.position.y + b.velocity.y * dt),
       remainingLifeSeconds := b.remainingLifeSeconds - dt)
  }

  predicate CanHit(arena: Arena, b: BulletState, context: PlayerSimulationContext, players: PlayerTable) {
    && context.playerId != b.ownerPlayerId
    && context.roomId == b.roomId
    && context.playerId in players
    && !players[context.playerId].isDead
    && !(players[context.playerId].invincibilityRemainingSeconds > 0.0)
    && arena.hitsPlayer(b, players[context.playerId])
  }

  /** The first player, from index `i` on, that the bullet hits; the length if there is none. */
  function FirstHit(arena: Arena, b: BulletState, contexts: seq<PlayerSimulationContext>, players: PlayerTable, i: nat): (k: nat)
    requires i <= |contexts|
    ensures i <= k <= |contexts| && (k < |contexts| ==> CanHit(arena, b, contexts[k], players))
    ensures forall j :: i <= j < k ==> !CanHit(arena, b, contexts[j], players)
    decreases |contexts| - i
  {
    if i == |contexts| || CanHit(arena, b, contexts[i], players) then i else FirstHit(arena, b, contexts, players, i + 1)
  }

  function Wounded(p: PlayerState, damage: int, rules: GameRuleConfig): PlayerState {
    var hp := if p.hp - damage < 0 then 0 else p.hp - damage;
    var hit := p.(hp := hp, hitFlashRemainingSeconds := rules.hitFlashDurationSeconds);
    if hp <= 0 then
      hit.(isDead := true, respawnRemainingSeconds := rules.respawnDelaySeconds, invincibilityRemainingSeconds := 0.0,
           inputFlags := NO_INPUT, deathCount := hit.deathCount + 1)
    else hit
  }

  function Credited(players: PlayerTable, killer: PlayerId): PlayerTable {
    if killer in players then players[killer := players[killer].(killCount := players[killer].killCount + 1)] else players
  }

  function KillOf(b: BulletState, context: PlayerSimulationContext): KillEvent {
    KillEvent(b.ownerPlayerId, b.ownerPersistentPlayerId, context.playerId, context.persistentPlayerId, b.roomId)
  }

  function HitPlayer(w: World, b: BulletState, context: PlayerSimulationContext, rules: GameRuleConfig): (World, seq<KillEvent>)
    requires context.playerId in w.players
  {
    var wounded := Wounded(w.players[context.playerId], b.damage, rules);
    var players := w.players[context.playerId := wounded];
    var hit := WithEffect(w, b.roomId, Impact, b.position);
    if wounded.hp <= 0 then (hit.(players := Credited(players, b.ownerPlayerId)), [KillOf(b, context)])
    else (hit.(players := players), [])
  }

  datatype Flight = Flight(world: World, kills: seq<KillEvent>, isErased: bool)

  /** What a bullet that has just moved does, before it is erased from the pool if it must be. */
  function Landed(
      w: World, b: BulletState, previous: Position, contexts: seq<PlayerSimulationContext>, rules: GameRuleConfig,
      arena: Arena): (f: Flight)
    ensures f.world.bullets == w.bullets
  {
    if b.remainingLifeSeconds <= 0.0 then Flight(w, [], true)
    else if arena.hitsSurroundings(b) then Flight(WithEffect(w, b.roomId, Impact, arena.impact(previous, b)), [], true)
    else
      var k := FirstHit(arena, b, contexts, w.players, 0);
      if k == |contexts| then Flight(w, [], false)
      else var (hit, kills) := HitPlayer(w, b, contexts[k], rules); Flight(hit, kills, true)
  }

  /** One bullet: it moves, lands if it must, and its slot is refilled from the end if it is erased. */
  function BulletStep(
      w: World, index: nat, contexts: seq<PlayerSimulationContext>, dt: real, rules: GameRuleConfig, arena: Arena): (f: Flight)
    requires index < |w.bullets|
    ensures |f.world.bullets| == if f.isErased then |w.bullets| - 1 else |w.bullets|
  {
    var moved := BulletMoved(w.bullets[index], dt);
    var f := Landed(w.(bullets := w.bullets[index := moved]), moved, w.bullets[index].position, contexts, rules, arena);
    if f.isErased then f.(world := f.world.(bullets := SwapRemoved(f.world.bullets, index))) else f
  }

  function NextIndex(index: nat, f: Flight): nat {
    if f.isErased then index else index + 1
  }

  function BulletsUpdated(
      w: World, index: nat, contexts: seq<PlayerSimulationContext>, dt: real, rules: GameRuleConfig, arena: Arena)
    : (World, seq<KillEvent>)
    requires index <= |w.bullets|
    decreases |w.bullets| - index
  {
    if index == |w.bullets| then (w, [])
    else
      var f := BulletStep(w, index, contexts, dt, rules, arena);
      var (updated, kills) := BulletsUpdated(f.world, NextIndex(index, f), contexts, dt, rules, arena);
      (updated, f.kills + kills)
  }

  // Coming back to life, and timers.

  function ContextOf(contexts: seq<PlayerSimulationContext>, playerId: PlayerId): (c: Option<PlayerSimulationContext>)
    ensures c.Some? ==> c.value in contexts && c.value.playerId == playerId
    ensures c.None? ==> forall k :: 0 <= k < |contexts| ==> contexts[k].playerId != playerId
  {
    if contexts == [] then None
    else if contexts[0].playerId == playerId then Some(contexts[0])
    else ContextOf(contexts[1..], playerId)
  }

  function RespawnedPlayer(p: PlayerState, roomId: RoomId, rules: GameRuleConfig, arena: Arena): PlayerState {
    p.(position := arena.spawnPoint(roomId, 0), hp := rules.initialPlayerHp, isDead := false, respawnRemainingSeconds := 0.0,
       invincibilityRemainingSeconds := rules.respawnInvincibilitySeconds, hitFlashRemainingSeconds := 0.0,
       fireCooldownRemainingSeconds := 0.0, inputFlags := NO_INPUT, lastMoveDirection := Position(1.0, 0.0))
  }

  function RespawnStep(
      w: World, playerId: PlayerId, contexts: seq<PlayerSimulationContext>, dt: real, rules: GameRuleConfig, arena: Arena): World
    requires playerId in w.players
  {
    var p := w.players[playerId];
    if !p.isDead then w
    else
      var waiting := p.(respawnRemainingSeconds := p.respawnRemainingSeconds - dt);
      var context := ContextOf(contexts, playerId);
      if waiting.respawnRemainingSeconds > 0.0 || context.None? then w.(players := w.players[playerId := waiting])
      else
        var back := RespawnedPlayer(waiting, context.value.roomId, rules, arena);
        WithEffect(w.(players := w.players[playerId := back]), context.value.roomId, Spawn, back.position)
  }

  /** The respawn pass over the players in `order`, the order in which the table lists them. */
  function Respawned(
      w: World, order: seq<PlayerId>, contexts: seq<PlayerSimulationContext>, dt: real, rules: GameRuleConfig,
      arena: Arena): World {
    if order == [] then w
    else
      var before, last := Respawned(w, order[..|order| - 1], contexts, dt, rules, arena), order[|order| - 1];
      if last in before.players then RespawnStep(before, last, contexts, dt, rules, arena) else before
  }

  function UpdatedTimer(remaining: real, dt: real): real {
    if remaining <= 0.0 then remaining else if remaining - dt < 0.0 then 0.0 else remaining - dt
  }

  function TimersUpdated(w: World, dt: real): World {
    w.(players := map id | id in w.players :: w.players[id].(
        invincibilityRemainingSeconds := UpdatedTimer(w.players[id].invincibilityRemainingSeconds, dt),
        hitFlashRemainingSeconds := UpdatedTimer(w.players[id].hitFlashRemainingSeconds, dt),
        fireCooldownRemainingSeconds := UpdatedTimer(w.players[id].fireCooldownRemainingSeconds, dt)))
  }

  // Every bullet flies once.

  /** The bullets advanced by the pass from `index`, as they were before the pass. */
  function Advanced(
      w: World, index: nat, contexts: seq<PlayerSimulationContext>, dt: real, rules: GameRuleConfig,
      arena: Arena): seq<BulletState>
    requires index <= |w.bullets|
    decreases |w.bullets| - index
  {
    if index == |w.bullets| then []
    else
      var f := BulletStep(w, index, contexts, dt, rules, arena);
      [w.bullets[index]] + Advanced(f.world, NextIndex(index, f), contexts, dt, rules, arena)
  }

  lemma StepLeavesTheRest(
      w: World, index: nat, contexts: seq<PlayerSimulationContext>, dt: real, rules: GameRuleConfig, arena: Arena)
    requires index < |w.bullets|
    ensures var f := BulletStep(w, index, contexts, dt, rules, arena);
            multiset(f.world.bullets[NextIndex(index, f)..]) == multiset(w.bullets[index + 1..])
  {
    hide SwapRemoved, Landed;
    var list := w.bullets[index := BulletMoved(w.bullets[index], dt)];
    assert list[index + 1..] == w.bullets[index + 1..];
    SwapRemovalKeepsTail(list, index);
  }

  lemma SameBehindFirst(bullets: seq<BulletState>, index: nat, rest: seq<BulletState>, advanced: seq<BulletState>)
    requires index < |bullets|
    requires multiset(rest) == multiset(bullets[index + 1..]) && multiset(advanced) == multiset(rest)
    ensures multiset([bullets[index]] + advanced) == multiset(bullets[index..])
  {
    assert bullets[index..] == [bullets[index]] + bullets[index + 1..];
  }

  /** Despite the swapping, a tick advances each bullet that was there at its start exactly once. */
  lemma {:induction false} EveryBulletAdvancesOnce(
      w: World, index: nat, contexts: seq<PlayerSimulationContext>, dt: real, rules: GameRuleConfig, arena: Arena)
    requires index <= |w.bullets|
    ensures multiset(Advanced(w, index, contexts, dt, rules, arena)) == multiset(w.bullets[index..])
    decreases |w.bullets| - index
  {
    if index == |w.bullets| {
      assert w.bullets[index..] == [];
    } else {
      var f := BulletStep(w, index, contexts, dt, rules, arena);
      var next := NextIndex(index, f);
      StepLeavesTheRest(w, index, contexts, dt, rules, arena);
      EveryBulletAdvancesOnce(f.world, next, contexts, dt, rules, arena);
      SameBehindFirst(w.bullets, index, f.world.bullets[next..], Advanced(f.world, next, contexts, dt, rules, arena));
    }
  }

  // Deaths and kills.

  function DeathsOf(kills: seq<KillEvent>, playerId: PlayerId): nat {
    if kills == [] then 0 else (if kills[0].victimPlayerId == playerId then 1 else 0) + DeathsOf(kills[1..], playerId)
  }

  function KillsBy(kills: seq<KillEvent>, playerId: PlayerId): nat {
    if kills == [] then 0 else (if kills[0].killerPlayerId == playerId then 1 else 0) + KillsBy(kills[1..], playerId)
  }

  /** A player's two counters rise by its deaths and kills among the events, it dies at most once and only
      if it was alive, and it stays where it is. */
  predicate IsAccountedFor(before: PlayerState, after: PlayerState, kills: seq<KillEvent>, playerId: PlayerId) {
    && after.deathCount == before.deathCount + DeathsOf(kills, playerId)
    && after.killCount == before.killCount + KillsBy(kills, playerId)
    && DeathsOf(kills, playerId) <= (if before.isDead then 0 else 1)
    && after.isDead == (before.isDead || DeathsOf(kills, playerId) == 1)
    && after.position == before.position && after.playerId == before.playerId
  }

  /** Dead means out of hit points. */
  predicate IsSound(p: PlayerState) {
    p.hp >= 0 && (p.isDead <==> p.hp == 0)
  }

  /** Every player is filed under its own id and is dead exactly when out of hit points. */
  predicate AreSound(players: PlayerTable) {
    forall id :: id in players ==> players[id].playerId == id && IsSound(players[id])
  }

  lemma {:induction false} CountsAdd(first: seq<KillEvent>, second: seq<KillEvent>, playerId: PlayerId)
    ensures DeathsOf(first + second, playerId) == DeathsOf(first, playerId) + DeathsOf(second, playerId)
    ensures KillsBy(first + second, playerId) == KillsBy(first, playerId) + KillsBy(second, playerId)
  {
    if first == [] {
      assert first + second == second;
    } else {
      CountsAdd(first[1..], second, playerId);
      assert (first + second)[1..] == first[1..] + second;
    }
  }

  lemma CountsOfOne(kill: KillEvent, playerId: PlayerId)
    ensures DeathsOf([kill], playerId) == if kill.victimPlayerId == playerId then 1 else 0
    ensures KillsBy([kill], playerId) == if kill.killerPlayerId == playerId then 1 else 0
  {
    assert [kill][1..] == [];
  }

  lemma HitIsAccountedFor(w: World, b: BulletState, context: PlayerSimulationContext, rules: GameRuleConfig, arena: Arena)
    requires AreSound(w.players) && CanHit(arena, b, context, w.players)
    ensures var (w', kills) := HitPlayer(w, b, context, rules);
            && w'.players.Keys == w.players.Keys && AreSound(w'.players)
            && forall id :: id in w.players ==> IsAccountedFor(w.players[id], w'.players[id], kills, id)
  {
    var (w', kills) := HitPlayer(w, b, context, rules);
    forall id | id in w.players
      ensures w'.players[id].playerId == id && IsSound(w'.players[id]) && IsAccountedFor(w.players[id], w'.players[id], kills, id)
    {
      CountsOfOne(KillOf(b, context), id);
    }
  }

  lemma StepIsAccountedFor(
      w: World, index: nat, contexts: seq<PlayerSimulationContext>, dt: real, rules: GameRuleConfig, arena: Arena)
    requires index < |w.bullets| && AreSound(w.players)
    ensures var f := BulletStep(w, index, contexts, dt, rules, arena);
            && f.world.players.Keys == w.players.Keys && AreSound(f.world.players) && f.world.nextPlayerId == w.nextPlayerId
            && forall id :: id in w.players ==> IsAccountedFor(w.players[id], f.world.players[id], f.kills, id)
  {
    var moved := BulletMoved(w.bullets[index], dt);
    var w0 := w.(bullets := w.bullets[index := moved]);
    var k := FirstHit(arena, moved, contexts, w.players, 0);
    if k < |contexts| {
      HitIsAccountedFor(w0, moved, contexts[k], rules, arena);
    }
  }

  /** A tick's kill events are exactly its deaths: for every player, the rise of its death count is the number of
      events it is the victim of, which is at most one, and none if it was dead already. The same holds of
      kill counts, and dead stays the same as out of hit points. */
  lemma {:induction false} BulletPassIsAccountedFor(
      w: World, index: nat, contexts: seq<PlayerSimulationContext>, dt: real, rules: GameRuleConfig, arena: Arena)
    requires index <= |w.bullets| && AreSound(w.players)
    ensures var (w', kills) := BulletsUpdated(w, index, contexts, dt, rules, arena);
            && w'.players.Keys == w.players.Keys && AreSound(w'.players) && w'.nextPlayerId == w.nextPlayerId
            && forall id :: id in w.players ==> IsAccountedFor(w.players[id], w'.players[id], kills, id)
    decreases |w.bullets| - index
  {
    if index < |w.bullets| {
      var f := BulletStep(w, index, contexts, dt, rules, arena);
      StepIsAccountedFor(w, index, contexts, dt, rules, arena);
      BulletPassIsAccountedFor(f.world, NextIndex(index, f), contexts, dt, rules, arena);
      var (w', later) := BulletsUpdated(f.world, NextIndex(index, f), contexts, dt, rules, arena);
      forall id | id in w.players
        ensures IsAccountedFor(w.players[id], w'.players[id], f.kills + later, id)
      {
        CountsAdd(f.kills, later, id);
        assert IsAccountedFor(w.players[id], f.world.players[id], f.kills, id);
        assert IsAccountedFor(f.world.players[id], w'.players[id], later, id);
      }
    }
  }

  // Owners and rooms of what flies and flashes.

  ghost predicate AreOwned(bullets: seq<BulletState>, owners: set<(RoomId, PersistentPlayerId)>) {
    forall b :: b in bullets ==> (b.roomId, b.ownerPersistentPlayerId) in owners
  }

  ghost predicate AreWithin(effects: seq<ImpactEffectState>, rooms: set<RoomId>) {
    forall e :: e in effects ==> e.roomId in rooms
  }

  /** A kill's killer owned a bullet of its room, and its victim was a player of that room. */
  ghost predicate IsBacked(kill: KillEvent, owners: set<(RoomId, PersistentPlayerId)>, contexts: seq<PlayerSimulationContext>) {
    && (kill.roomId, kill.killerPersistentPlayerId) in owners
    && PlayerSimulationContext(kill.victimPlayerId, kill.victimPersistentPlayerId, kill.roomId) in contexts
  }

  lemma StepKeepsOwners(
      w: World, index: nat, contexts: seq<PlayerSimulationContext>, dt: real, rules: GameRuleConfig, arena: Arena,
      owners: set<(RoomId, PersistentPlayerId)>, rooms: set<RoomId>)
    requires index < |w.bullets| && AreOwned(w.bullets, owners) && AreWithin(w.effects, rooms)
    requires forall o :: o in owners ==> o.0 in rooms
    ensures var f := BulletStep(w, index, contexts, dt, rules, arena);
            && AreOwned(f.world.bullets, owners) && AreWithin(f.world.effects, rooms)
            && forall k :: k in f.kills ==> IsBacked(k, owners, contexts)
  {
    var b := w.bullets[index];
    var moved := BulletMoved(b, dt);
    assert b in w.bullets && (b.roomId, b.ownerPersistentPlayerId) in owners;
    var w0 := w.(bullets := w.bullets[index := moved]);
    assert AreOwned(w0.bullets, owners);
    var f := Landed(w0, moved, b.position, contexts, rules, arena);
    var k := FirstHit(arena, moved, contexts, w.players, 0);
    if k < |contexts| {
      assert contexts[k] in contexts;
    }
    assert (b.roomId, b.ownerPersistentPlayerId).0 in rooms;
    assert forall e :: e in f.world.effects ==> e in w.effects || e.roomId == b.roomId;
  }

  /** Bullets keep their rooms and owners, effects appear in rooms of bullets, and every kill is backed. */
  lemma {:induction false} BulletPassKeepsOwners(
      w: World, index: nat, contexts: seq<PlayerSimulationContext>, dt: real, rules: GameRuleConfig, arena: Arena,
      owners: set<(RoomId, PersistentPlayerId)>, rooms: set<RoomId>)
    requires index <= |w.bullets| && AreOwned(w.bullets, owners) && AreWithin(w.effects, rooms)
    requires forall o :: o in owners ==> o.0 in rooms
    ensures var (w', kills) := BulletsUpdated(w, index, contexts, dt, rules, arena);
            && AreOwned(w'.bullets, owners) && AreWithin(w'.effects, rooms)
            && forall k :: k in kills ==> IsBacked(k, owners, contexts)
    decreases |w.bullets| - index
  {
    if index < |w.bullets| {
      var f := BulletStep(w, index, contexts, dt, rules, arena);
      StepKeepsOwners(w, index, contexts, dt, rules, arena, owners, rooms);
      BulletPassKeepsOwners(f.world, NextIndex(index, f), contexts, dt, rules, arena, owners, rooms);
    }
  }

  // Where players stand.

  ghost predicate HaveDistinctPlayers(contexts: seq<PlayerSimulationContext>) {
    forall i, j :: 0 <= i < j < |contexts| ==> contexts[i].playerId != contexts[j].playerId
  }

  /** Every listed player is there and stands in its room. */
  ghost predicate AllStand(players: PlayerTable, contexts: seq<PlayerSimulationContext>, stands: (Position, RoomId) -> bool) {
    forall k :: 0 <= k < |contexts| ==>
      contexts[k].playerId in players && stands(players[contexts[k].playerId].position, contexts[k].roomId)
  }

  /** Nothing but positions differs, and all listed players still stand. */
  ghost predicate MovedOnly(w: World, w': World, contexts: seq<PlayerSimulationContext>, stands: (Position, RoomId) -> bool) {
    && w' == w.(players := w'.players) && w'.players.Keys == w.players.Keys
    && AllStand(w'.players, contexts, stands) && AreSound(w'.players)
    && forall id :: id in w.players ==> w'.players[id] == w.players[id].(position := w'.players[id].position)
  }

  lemma MoveKeepsStanding(
      w: World, contexts: seq<PlayerSimulationContext>, k: nat, dt: real, arena: Arena, stands: (Position, RoomId) -> bool)
    requires k < |contexts| && HaveDistinctPlayers(contexts) && KeepsStanding(arena, stands)
    requires AllStand(w.players, contexts, stands) && AreSound(w.players)
    ensures MovedOnly(w, MoveStep(w, contexts[k], dt, arena), contexts, stands)
  {
    var c := contexts[k];
    assert stands(arena.moved(w.players[c.playerId], c.roomId, dt), c.roomId);
    assert forall i :: 0 <= i < |contexts| && i != k ==> contexts[i].playerId != c.playerId;
  }

  lemma MovesCompose(w0: World, w1: World, w2: World, contexts: seq<PlayerSimulationContext>, stands: (Position, RoomId) -> bool)
    requires MovedOnly(w0, w1, contexts, stands) && MovedOnly(w1, w2, contexts, stands)
    ensures MovedOnly(w0, w2, contexts, stands)
  {
  }

  /** After the first `n` players have moved, all listed players stand. */
  lemma {:induction false} MovesKeepStanding(
      w: World, contexts: seq<PlayerSimulationContext>, n: nat, dt: real, arena: Arena, stands: (Position, RoomId) -> bool)
    requires n <= |contexts| && HaveDistinctPlayers(contexts) && KeepsStanding(arena, stands)
    requires AllStand(w.players, contexts, stands) && AreSound(w.players)
    ensures MovedOnly(w, PlayersMoved(w, contexts[..n], dt, arena), contexts, stands)
  {
    if n > 0 {
      var before := PlayersMoved(w, contexts[..n - 1], dt, arena);
      MovesKeepStanding(w, contexts, n - 1, dt, arena, stands);
      MoveKeepsStanding(before, contexts, n - 1, dt, arena, stands);
      MovesCompose(w, before, MoveStep(before, contexts[n - 1], dt, arena), contexts, stands);
      assert contexts[..n][..n - 1] == contexts[..n - 1] && contexts[..n][n - 1] == contexts[n - 1];
    }
  }

  /** The order of the list does not matter: each listed living player has made its own move, and no other player has changed. */
  lemma {:induction false} MovesAreIndependent(
      w: World, contexts: seq<PlayerSimulationContext>, n: nat, dt: real, arena: Arena, id: PlayerId)
    requires n <= |contexts| && HaveDistinctPlayers(contexts) && id in w.players
    ensures var players, p := PlayersMoved(w, contexts[..n], dt, arena).players, w.players[id];
            && players.Keys == w.players.Keys
            && (forall k :: 0 <= k < n && contexts[k].playerId == id ==>
                  players[id] == if p.isDead then p else p.(position := arena.moved(p, contexts[k].roomId, dt)))
            && ((forall k :: 0 <= k < n ==> contexts[k].playerId != id) ==> players[id] == p)
  {
    if n > 0 {
      MovesAreIndependent(w, contexts, n - 1, dt, arena, id);
      assert contexts[..n][..n - 1] == contexts[..n - 1] && contexts[..n][n - 1] == contexts[n - 1];
    }
  }

  lemma BulletsLeavePlayersStanding(
      w: World, contexts: seq<PlayerSimulationContext>, dt: real, rules: GameRuleConfig, arena: Arena, stands: (Position, RoomId) -> bool)
    requires AllStand(w.players, contexts, stands) && AreSound(w.players)
    ensures AllStand(BulletsUpdated(w, 0, contexts, dt, rules, arena).0.players, contexts, stands)
  {
    BulletPassIsAccountedFor(w, 0, contexts, dt, rules, arena);
    var (w', kills) := BulletsUpdated(w, 0, contexts, dt, rules, arena);
    forall k | 0 <= k < |contexts|
      ensures contexts[k].playerId in w'.players && stands(w'.players[contexts[k].playerId].position, contexts[k].roomId)
    {
      assert IsAccountedFor(w.players[contexts[k].playerId], w'.players[contexts[k].playerId], kills, contexts[k].playerId);
    }
  }

  /** What a respawn pass leaves: the same players, standing and sound, and effects in known rooms. */
  ghost predicate RespawnedOnly(
      w: World, w': World, contexts: seq<PlayerSimulationContext>, rooms: set<RoomId>, stands: (Position, RoomId) -> bool) {
    && w' == w.(players := w'.players, effects := w'.effects) && w'.players.Keys == w.players.Keys
    && AllStand(w'.players, contexts, stands) && AreSound(w'.players) && AreWithin(w'.effects, rooms)
  }

  lemma RespawnStepKeeps(
      w: World, playerId: PlayerId, contexts: seq<PlayerSimulationContext>, dt: real, rules: GameRuleConfig, arena: Arena,
      rooms: set<RoomId>, stands: (Position, RoomId) -> bool)
    requires playerId in w.players && rules.initialPlayerHp > 0 && HaveDistinctPlayers(contexts) && KeepsStanding(arena, stands)
    requires AllStand(w.players, contexts, stands) && AreSound(w.players) && AreWithin(w.effects, rooms)
    requires forall c :: c in contexts ==> c.roomId in rooms
    ensures RespawnedOnly(w, RespawnStep(w, playerId, contexts, dt, rules, arena), contexts, rooms, stands)
  {
    var context := ContextOf(contexts, playerId);
    if context.Some? {
      assert stands(arena.spawnPoint(context.value.roomId, 0), context.value.roomId);
    }
  }

  lemma {:induction false} RespawnsKeep(
      w: World, order: seq<PlayerId>, contexts: seq<PlayerSimulationContext>, dt: real, rules: GameRuleConfig, arena: Arena,
      rooms: set<RoomId>, stands: (Position, RoomId) -> bool)
    requires rules.initialPlayerHp > 0 && HaveDistinctPlayers(contexts) && KeepsStanding(arena, stands)
    requires AllStand(w.players, contexts, stands) && AreSound(w.players) && AreWithin(w.effects, rooms)
    requires forall c :: c in contexts ==> c.roomId in rooms
    ensures RespawnedOnly(w, Respawned(w, order, contexts, dt, rules, arena), contexts, rooms, stands)
  {
    if order != [] {
      var before, last := Respawned(w, order[..|order| - 1], contexts, dt, rules, arena), order[|order| - 1];
      RespawnsKeep(w, order[..|order| - 1], contexts, dt, rules, arena, rooms, stands);
      if last in before.players {
        RespawnStepKeeps(before, last, contexts, dt, rules, arena, rooms, stands);
      }
    }
  }

  /** The order of the table does not matter to the players: each one listed has had its own turn, and no other player has changed. */
  lemma {:induction false} RespawnsAreIndependent(
      w: World, order: seq<PlayerId>, contexts: seq<PlayerSimulationContext>, dt: real, rules: GameRuleConfig, arena: Arena, id: PlayerId)
    requires (forall i, j :: 0 <= i < j < |order| ==> order[i] != order[j]) && (forall k :: k in order ==> k in w.players) && id in w.players
    ensures var w' := Respawned(w, order, contexts, dt, rules, arena);
            && w'.players.Keys == w.players.Keys
            && w'.players[id] == if id in order then RespawnStep(w, id, contexts, dt, rules, arena).players[id] else w.players[id]
  {
    if order != [] {
      var last := order[|order| - 1];
      RespawnsAreIndependent(w, order[..|order| - 1], contexts, dt, rules, arena, id);
      RespawnsAreIndependent(w, order[..|order| - 1], contexts, dt, rules, arena, last);
      assert order == order[..|order| - 1] + [last];
    }
  }
}
