// Joining, recovering, leaving, changing rooms and expiring (Server/Service/PeerSessionService.cpp):
// what each does to peers and rooms, to the world, and to the accounts waiting to join.

module PeerSessionService {
  import opened GameIds
  import opened SessionToken
  import opened WorldCollision
  import opened GameWorld
  import opened GameSimulation
  import opened Arena
  import opened PeerRoomManager
  import opened AuthenticatedAccountRegistry
  import opened Wrappers

  const DEFAULT_MOVE_SPEED := 220.0

  datatype Lobby = Lobby(tables: PeerTables, world: World, accounts: AccountTable)

  datatype AuthenticatedIdentity = AuthenticatedIdentity(
    accountId: int,
    persistentPlayerId: PersistentPlayerId,
    sessionToken: SessionToken,
    nickname: string)

  datatype JoinStatus = Joined | Recovered | ExistingPeer | Unauthenticated | Rejected

  datatype JoinResult = JoinResult(
    shouldSendResponse: bool,
    shouldBroadcastPlayerJoined: bool,
    playerId: PlayerId,
    persistentPlayerId: PersistentPlayerId,
    roomId: RoomId,
    spawnPosition: Position)

  const NO_JOIN := JoinResult(false, false, PlayerId(0), PersistentPlayerId(0), RoomId(0), Position(0.0, 0.0))

  datatype JoinOutcome = JoinOutcome(lobby: Lobby, status: JoinStatus, result: JoinResult)

  function CurrentJoinResult(p: PeerState, w: World): JoinResult {
    if p.playerId !in w.players then NO_JOIN
    else JoinResult(true, false, p.playerId, p.persistentPlayerId, p.roomId, w.players[p.playerId].position)
  }

  function InitialPlayer(playerId: PlayerId, spawn: Position, rules: GameRuleConfig): PlayerState {
    PlayerState(playerId, spawn, DEFAULT_MOVE_SPEED, NO_INPUT, rules.initialPlayerHp, false, 0, 0, 0.0, 0.0, 0.0, 0.0, Position(1.0, 0.0))
  }

  predicate IsCompleteIdentity(identity: AuthenticatedIdentity) {
    && identity.accountId > 0 && identity.persistentPlayerId.value > 0
    && IsValidSessionToken(identity.sessionToken) && identity.nickname != ""
  }

  predicate IsIdentityOf(p: PeerState, identity: AuthenticatedIdentity) {
    p.accountId == identity.accountId && p.persistentPlayerId == identity.persistentPlayerId && p.sessionToken == identity.sessionToken
  }

  function IdentifiedPeer(t: PeerTables, e: EndpointKey, identity: AuthenticatedIdentity): PeerTables
    requires e in t.peers
  {
    t.(peers := t.peers[e := t.peers[e].(
      accountId := identity.accountId, persistentPlayerId := identity.persistentPlayerId, sessionToken := identity.sessionToken,
      nickname := identity.nickname, lastAcceptedInputSequence := 0, lastProcessedInputSequence := 0)])
  }

  /** A new peer with a new player at the room's next spawn point. */
  function Created(
      s: Lobby, e: EndpointKey, identity: AuthenticatedIdentity, r: RoomId, rules: GameRuleConfig, arena: Arena, now: int)
    : (Lobby, JoinResult)
  {
    var spawn := arena.spawnPoint(r, MemberCount(s.tables, r));
    var playerId := PlayerId(s.world.nextPlayerId);
    var tables := IdentifiedPeer(Upserted(s.tables, e, playerId, r, now), e, identity);
    var world := WithPlayer(s.world.(nextPlayerId := NextId(s.world.nextPlayerId)), InitialPlayer(playerId, spawn, rules));
    (s.(tables := tables, world := world), JoinResult(true, true, playerId, identity.persistentPlayerId, r, spawn))
  }

  function JoinedPeer(
      s: Lobby, e: EndpointKey, identity: AuthenticatedIdentity, r: RoomId, rules: GameRuleConfig, arena: Arena, now: int)
    : (Lobby, JoinResult)
  {
    if !IsCompleteIdentity(identity) then (s, NO_JOIN)
    else if IsJoinedPeer(s.tables, e) then
      if !IsIdentityOf(s.tables.peers[e], identity) then (s, NO_JOIN)
      else
        var refreshed := s.(tables := Refreshed(s.tables, e, now));
        var current := CurrentJoinResult(refreshed.tables.peers[e], s.world);
        if current.shouldSendResponse then (refreshed, current)
        else Created(s.(tables := Removed(refreshed.tables, e)), e, identity, r, rules, arena, now)
    else Created(s, e, identity, r, rules, arena, now)
  }

  function Recovery(s: Lobby, previous: EndpointKey, e: EndpointKey, now: int): JoinOutcome
    requires previous in s.tables.peers
  {
    var current := CurrentJoinResult(s.tables.peers[previous], s.world);
    if !current.shouldSendResponse || !CanRebind(s.tables, previous, e) then JoinOutcome(s, Rejected, NO_JOIN)
    else JoinOutcome(s.(tables := Rebound(s.tables, previous, e, now)), Recovered, current)
  }

  /** Joining under an identity; a fresh peer takes its account out of the waiting ones. */
  function JoinAs(
      s: Lobby, e: EndpointKey, identity: AuthenticatedIdentity, r: RoomId, rules: GameRuleConfig, arena: Arena,
      now: int): JoinOutcome {
    var (joined, result) := JoinedPeer(s, e, identity, r, rules, arena, now);
    if !result.shouldSendResponse then JoinOutcome(joined, Rejected, result)
    else if !result.shouldBroadcastPlayerJoined then JoinOutcome(joined, ExistingPeer, result)
    else JoinOutcome(joined.(accounts := joined.accounts - {e}), Joined, result)
  }

  function JoinAuthenticated(
      s: Lobby, e: EndpointKey, token: SessionToken, found: Option<EndpointKey>, r: RoomId, rules: GameRuleConfig, arena: Arena, now: int): JoinOutcome
  {
    if IsJoinedPeer(s.tables, e) then
      var peer := s.tables.peers[e];
      if peer.connectionState == Recoverable then
        if peer.sessionToken != token then JoinOutcome(s, Rejected, NO_JOIN) else Recovery(s, e, e, now)
      else JoinAs(s, e, AuthenticatedIdentity(peer.accountId, peer.persistentPlayerId, token, peer.nickname), r, rules, arena, now)
    else if found.Some? && found.value in s.tables.peers then Recovery(s, found.value, e, now)
    else
      match FoundWithToken(s.accounts, e, token)
      case None => JoinOutcome(s, Unauthenticated, NO_JOIN)
      case Some(account) =>
        JoinAs(s, e, AuthenticatedIdentity(account.accountId, account.persistentPlayerId, account.sessionToken, account.nickname), r, rules, arena, now)
  }

  /** The world after a player of a room is gone, and with the last member the room's bullets and effects too. */
  function DepartedWorld(w: World, t: PeerTables, playerId: PlayerId, r: RoomId): World {
    var left := WithoutPlayer(w, playerId);
    if MemberCount(t, r) == 0 then WithoutTransients(left, r) else left
  }

  function LeftPeer(s: Lobby, e: EndpointKey): Lobby
    requires IsJoinedPeer(s.tables, e)
  {
    var peer, tables := s.tables.peers[e], Removed(s.tables, e);
    s.(tables := tables, world := DepartedWorld(s.world, tables, peer.playerId, peer.roomId))
  }

  predicate MayChangeRoom(s: Lobby, e: EndpointKey, next: RoomId) {
    && next.value > 0 && IsJoinedPeer(s.tables, e)
    && s.tables.peers[e].playerId in s.world.players
    && !s.world.players[s.tables.peers[e].playerId].isDead
    && s.tables.peers[e].roomId != next
  }

  function ChangedRoom(s: Lobby, e: EndpointKey, next: RoomId, arena: Arena, now: int): Lobby
    requires MayChangeRoom(s, e, next)
  {
    var peer, tables := s.tables.peers[e], RoomChanged(s.tables, e, next, now);
    var world := if MemberCount(tables, peer.roomId) == 0 then WithoutTransients(s.world, peer.roomId) else s.world;
    var count := MemberCount(tables, next);
    var spawn := arena.spawnPoint(next, if count > 0 then count - 1 else 0);
    s.(tables := tables,
       world := world.(players := world.players[peer.playerId := world.players[peer.playerId].(position := spawn, inputFlags := NO_INPUT)]))
  }

  function PlayersOf(t: PeerTables, endpoints: set<EndpointKey>): set<PlayerId>
    requires endpoints <= t.peers.Keys
  {
    set e | e in endpoints :: t.peers[e].playerId
  }

  function Halted(w: World, players: set<PlayerId>): World {
    w.(players := map id | id in w.players ::
         if id in players then w.players[id].(inputFlags := NO_INPUT) else w.players[id])
  }

  function TimedOutMarked(s: Lobby, now: int, timeout: int): Lobby {
    s.(tables := MarkedRecoverable(s.tables, now, timeout),
       world := Halted(s.world, PlayersOf(s.tables, TimedOut(s.tables, now, timeout))))
  }

  /** The world after the players of these removed peers are gone, given the tables that remain. */
  function DepartedAll(w: World, t: PeerTables, peers: PeerTable, gone: seq<EndpointKey>): World
    requires forall e :: e in gone ==> e in peers
  {
    if gone == [] then w
    else
      var last := gone[|gone| - 1];
      DepartedWorld(DepartedAll(w, t, peers, gone[..|gone| - 1]), t, peers[last].playerId, peers[last].roomId)
  }

  /** Expired peers go, in the order in which the table lists them. */
  function ExpiredRemoved(s: Lobby, gone: seq<EndpointKey>): Lobby
    requires forall e :: e in gone ==> e in s.tables.peers
  {
    var tables := WithoutPeers(s.tables, gone);
    s.(tables := tables, world := DepartedAll(s.world, tables, s.tables.peers, gone))
  }
}
