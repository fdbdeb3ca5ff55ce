// Input and fire requests of joined players (Server/Service/PlayerCommandService.cpp, Server/Game/BulletFactory.h).

module PlayerCommandService {
  import opened SequenceNumber
  import opened SessionToken
  import opened WorldCollision
  import opened GameWorld
  import opened GameSimulationAccounts
  import opened Arena
  import opened PeerRoomManager
  import opened PeerSessionService

  datatype WeaponRule = WeaponRule(
    bulletDamage: int,
    bulletSpeed: real,
    bulletLifeSeconds: real,
    bulletRadius: real,
    fireCooldownSeconds: real)

  /** The endpoint's peer is joined, its player is there and alive. */
  predicate MayAct(s: Lobby, e: EndpointKey) {
    && IsJoinedPeer(s.tables, e) && s.tables.peers[e].playerId in s.world.players
    && !s.world.players[s.tables.peers[e].playerId].isDead
  }

  function Turned(p: PlayerState, direction: Position): PlayerState {
    if direction == Position(0.0, 0.0) then p else p.(lastMoveDirection := direction)
  }

  predicate AcceptsInput(s: Lobby, e: EndpointKey, sequence: SequenceNumber) {
    MayAct(s, e) && IsSequenceNewer(sequence, s.tables.peers[e].lastAcceptedInputSequence)
  }

  function InputApplied(s: Lobby, e: EndpointKey, sequence: SequenceNumber, flags: InputFlags, arena: Arena, now: int): Lobby {
    if !AcceptsInput(s, e, sequence) then s
    else
      var peer := s.tables.peers[e];
      var player := Turned(s.world.players[peer.playerId].(inputFlags := flags), arena.moveDirection(flags));
      s.(tables := s.tables.(peers := s.tables.peers[e := peer.(lastAcceptedInputSequence := sequence, lastRecvTime := now)]),
         world := s.world.(players := s.world.players[peer.playerId := player]))
  }

  function NewBullet(bulletId: nat, peer: PeerState, player: PlayerState, weapon: WeaponRule, arena: Arena): BulletState {
    var aim := arena.aim(player.lastMoveDirection);
    BulletState(bulletId, peer.playerId, peer.persistentPlayerId, peer.roomId, player.position,
                Position(aim.x * weapon.bulletSpeed, aim.y * weapon.bulletSpeed),
                weapon.bulletLifeSeconds, weapon.bulletDamage, weapon.bulletRadius)
  }

  predicate MayFire(s: Lobby, e: EndpointKey) {
    MayAct(s, e) && s.world.players[s.tables.peers[e].playerId].fireCooldownRemainingSeconds <= 0.0
  }

  /** A request of a living player refreshes its peer even while the weapon cools down. */
  function Fired(s: Lobby, e: EndpointKey, weapon: WeaponRule, arena: Arena, now: int): Lobby {
    if !MayAct(s, e) then s
    else
      var refreshed := s.(tables := Refreshed(s.tables, e, now));
      if !MayFire(s, e) then refreshed
      else
        var peer, player, w := s.tables.peers[e], s.world.players[s.tables.peers[e].playerId], s.world;
        refreshed.(world := w.(
          bullets := w.bullets + [NewBullet(w.nextBulletId, peer, player, weapon, arena)],
          nextBulletId := NextId(w.nextBulletId),
          players := w.players[peer.playerId := player.(fireCooldownRemainingSeconds := weapon.fireCooldownSeconds)]))
  }

  /** A shot adds one bullet, in the shooter's name and room: it starts where the shooter stands and flies the way the shooter last went,
      as fast, as long and as hard as the weapon says; and the shooter has to wait for its cooldown. */
  lemma ShotIsTheShooters(s: Lobby, e: EndpointKey, weapon: WeaponRule, arena: Arena, now: int)
    requires MayFire(s, e)
    ensures var peer, w, w' := s.tables.peers[e], s.world, Fired(s, e, weapon, arena, now).world;
            var p, aim := w.players[peer.playerId], arena.aim(w.players[peer.playerId].lastMoveDirection);
            && |w'.bullets| == |w.bullets| + 1 && w.bullets <= w'.bullets
            && w' == w.(bullets := w'.bullets, nextBulletId := w'.nextBulletId,
                        players := w.players[peer.playerId := p.(fireCooldownRemainingSeconds := weapon.fireCooldownSeconds)])
            && var b := w'.bullets[|w.bullets|];
               && b.ownerPlayerId == peer.playerId && b.ownerPersistentPlayerId == peer.persistentPlayerId && b.roomId == peer.roomId
               && b.bulletId == w.nextBulletId && w'.nextBulletId == NextId(w.nextBulletId)
               && b.position == p.position && b.velocity == Position(aim.x * weapon.bulletSpeed, aim.y * weapon.bulletSpeed)
               && b.remainingLifeSeconds == weapon.bulletLifeSeconds && b.damage == weapon.bulletDamage && b.radius == weapon.bulletRadius
  {
  }

  /** The way the shooter last went is that of its last input with a direction; an input without one leaves it as it was. */
  lemma ShotFliesWhereLastWent(
      s: Lobby, e: EndpointKey, sequence: SequenceNumber, flags: InputFlags, weapon: WeaponRule, arena: Arena, now: int, later: int)
    requires AcceptsInput(s, e, sequence) && MayFire(InputApplied(s, e, sequence, flags, arena, now), e)
    ensures var moved := InputApplied(s, e, sequence, flags, arena, now);
            var d, last := arena.moveDirection(flags), s.world.players[s.tables.peers[e].playerId].lastMoveDirection;
            var w', aim := Fired(moved, e, weapon, arena, later).world, arena.aim(if d.x == 0.0 && d.y == 0.0 then last else d);
            |w'.bullets| > 0 && w'.bullets[|w'.bullets| - 1].velocity == Position(aim.x * weapon.bulletSpeed, aim.y * weapon.bulletSpeed)
  {
    ShotIsTheShooters(InputApplied(s, e, sequence, flags, arena, now), e, weapon, arena, later);
  }

  /** In a sound lobby every peer's living player may act, and nobody else: with an input if it is newer than the last one taken, and with a
      shot if its weapon has cooled down; the dead do nothing. */
  lemma RequestsAreTakenIff(s: Lobby, e: EndpointKey, sequence: SequenceNumber, flags: InputFlags, weapon: WeaponRule, arena: Arena, now: int)
    requires forall f :: f in s.tables.peers ==> s.tables.peers[f].isJoined && s.tables.peers[f].playerId in s.world.players
    ensures var isAlive := e in s.tables.peers && !s.world.players[s.tables.peers[e].playerId].isDead;
            var isReady := isAlive && s.world.players[s.tables.peers[e].playerId].fireCooldownRemainingSeconds <= 0.0;
            var input, shot := InputApplied(s, e, sequence, flags, arena, now), Fired(s, e, weapon, arena, now);
            && (isAlive && IsSequenceNewer(sequence, s.tables.peers[e].lastAcceptedInputSequence)
                <==> e in s.tables.peers && AcceptsInput(s, e, sequence)
                     && input.tables.peers == s.tables.peers[e := s.tables.peers[e].(lastAcceptedInputSequence := sequence, lastRecvTime := now)])
            && (!AcceptsInput(s, e, sequence) ==> input == s)
            && (shot.world.bullets != s.world.bullets <==> isReady)
            && (!isAlive ==> shot == s)
            && (isAlive && !isReady ==> shot == s.(tables := s.tables.(peers := s.tables.peers[e := s.tables.peers[e].(lastRecvTime := now)])))
  {
  }

  /** After a shot the same player may shoot again exactly when as much time has passed in ticks as the weapon's cooldown. */
  lemma ShotsWaitForTheCooldown(s: Lobby, e: EndpointKey, weapon: WeaponRule, arena: Arena, now: int, dt: real, n: nat)
    requires MayFire(s, e) && dt >= 0.0 && weapon.fireCooldownSeconds > 0.0
    ensures var fired := Fired(s, e, weapon, arena, now);
            MayFire(fired.(world := TimersUpdatedTimes(fired.world, dt, n)), e) <==> TimeOf(n, dt) >= weapon.fireCooldownSeconds
  {
    hide TimersUpdatedTimes, TimeOf, NewBullet;
    var fired := Fired(s, e, weapon, arena, now);
    TimersRunDown(fired.world, dt, n, s.tables.peers[e].playerId);
  }
}
