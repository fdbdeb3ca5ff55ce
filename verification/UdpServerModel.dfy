// The server's state behind its one mutex, and each locked section as one step (Server/Net/UdpServer.cpp).
// What hash tables, the random generator, the clocks and the clients decide is part of the event.

module UdpServerModel {
  import opened GameIds
  import opened SequenceNumber
  import opened SessionToken
  import opened PacketWire
  import opened GameWorld
  import opened GameSimulation
  import opened Arena
  import opened PeerRoomManager
  import opened MatchHistoryTracker
  import opened PeerSessionService
  import opened PlayerCommandService
  import opened AuthenticatedAccountRegistry
  import opened Wrappers
  import Admission = AccountLoginAdmissionService
  import Auth = AuthenticatedUdpPacket
  import Registry = ReliableUdpSessionRegistry
  import ReliableUdpPacket

  datatype ServerConfig = ServerConfig(
    initialRoomId: RoomId,
    peerTimeout: int,
    reconnectGracePeriod: int,
    gameRule: GameRuleConfig,
    weaponRule: WeaponRule,
    reliableUdp: Registry.ReliableUdpConfig,
    fixedDeltaSeconds: real,
    arena: Arena)

  datatype ServerState = ServerState(lobby: Lobby, sessions: Registry.RegistryState, matches: MatchState)

  const EMPTY_LOBBY := Lobby(NO_TABLES, EMPTY_WORLD, map[])
  const INITIAL_STATE := ServerState(EMPTY_LOBBY, Registry.EMPTY_REGISTRY, NO_MATCHES)

  // Joining and leaving.

  function JoinOutcomeOf(
      c: ServerConfig, s: ServerState, e: EndpointKey, token: SessionToken, found: Option<EndpointKey>, now: int): JoinOutcome
  {
    JoinAuthenticated(s.lobby, e, token, found, c.initialRoomId, c.gameRule, c.arena, now)
  }

  function AfterJoin(
      c: ServerConfig, s: ServerState, e: EndpointKey, token: SessionToken, found: Option<EndpointKey>, now: int, systemNow: int)
    : ServerState
  {
    var o := JoinOutcomeOf(c, s, e, token, found, now);
    ServerState(
      o.lobby,
      if o.status == Joined || o.status == Recovered then Registry.AfterUpsert(s.sessions, e, c.reliableUdp, token) else s.sessions,
      if o.status == Joined then Entered(s.matches, o.result.roomId, o.result.persistentPlayerId, systemNow) else s.matches)
  }

  /** A last reliable packet is queued and the session closes behind it, or is removed if that fails. */
  function ClosedSession(r: Registry.RegistryState, e: EndpointKey, game: Option<Bytes>, now: int): Registry.RegistryState {
    if game.None? then Registry.AfterRemove(r, e)
    else
      var (built, outcome) := Registry.AfterBuild(r, e, game.value, now);
      if outcome.Built? then Registry.AfterBeginClose(built, e) else Registry.AfterRemove(built, e)
  }

  /** A joined peer leaves: the room, the world, its match, and last its session. */
  ghost function AfterDeparture(s: ServerState, e: EndpointKey, game: Option<Bytes>, now: int, systemNow: int): ServerState
    requires IsJoinedPeer(s.lobby.tables, e)
  {
    var peer := s.lobby.tables.peers[e];
    ServerState(
      LeftPeer(s.lobby, e),
      ClosedSession(s.sessions, e, game, now),
      Left(s.matches, peer.roomId, peer.persistentPlayerId, systemNow))
  }

  ghost function AfterLeave(s: ServerState, e: EndpointKey, game: Option<Bytes>, now: int, systemNow: int): ServerState {
    if IsJoinedPeer(s.lobby.tables, e) then AfterDeparture(s, e, game, now, systemNow) else s
  }

  ghost function AfterKick(
      s: ServerState, playerId: PlayerId, found: Option<EndpointKey>, game: Option<Bytes>, now: int, systemNow: int): ServerState
    requires found.Some? ==> IsJoinedPeer(s.lobby.tables, found.value)
  {
    if playerId == PlayerId(0) || found.None? then s else AfterDeparture(s, found.value, game, now, systemNow)
  }

  ghost function AfterChangeRoom(
      c: ServerConfig, s: ServerState, e: EndpointKey, next: RoomId, game: Option<Bytes>, now: int, systemNow: int): ServerState {
    if !MayChangeRoom(s.lobby, e, next) then s
    else
      var peer := s.lobby.tables.peers[e];
      ServerState(
        ChangedRoom(s.lobby, e, next, c.arena, now),
        if game.Some? then Registry.AfterBuild(s.sessions, e, game.value, now).0 else s.sessions,
        Entered(Left(s.matches, peer.roomId, peer.persistentPlayerId, systemNow), next, peer.persistentPlayerId, systemNow))
  }

  // Timeouts.

  function WithoutSessions(r: Registry.RegistryState, gone: set<EndpointKey>): Registry.RegistryState {
    Registry.RegistryState(r.sessions - gone, r.closing - gone)
  }

  ghost function LeftAll(m: MatchState, peers: PeerTable, gone: seq<EndpointKey>, systemNow: int): MatchState
    requires forall e :: e in gone ==> e in peers
  {
    if gone == [] then m
    else
      var last := gone[|gone| - 1];
      Left(LeftAll(m, peers, gone[..|gone| - 1], systemNow), peers[last].roomId, peers[last].persistentPlayerId, systemNow)
  }

  /** Each peer of the list, in its turn, can leave its match. */
  ghost predicate AllCanLeave(m: MatchState, peers: PeerTable, gone: seq<EndpointKey>, systemNow: int)
    requires forall e :: e in gone ==> e in peers
  {
    forall k :: 0 <= k < |gone| ==>
      CanLeave(LeftAll(m, peers, gone[..k], systemNow), peers[gone[k]].roomId, peers[gone[k]].persistentPlayerId)
  }

  ghost function AfterTimeouts(c: ServerConfig, s: ServerState, gone: seq<EndpointKey>, now: int, systemNow: int): ServerState
    requires forall e :: e in gone ==> e in s.lobby.tables.peers
  {
    var timedOut := TimedOut(s.lobby.tables, now, c.peerTimeout);
    var marked := TimedOutMarked(s.lobby, now, c.peerTimeout);
    var removed := ExpiredRemoved(marked, gone);
    ServerState(
      removed.(accounts := WithoutExpired(s.lobby.accounts, now, c.peerTimeout)),
      WithoutSessions(s.sessions, timedOut),
      LeftAll(s.matches, marked.tables.peers, gone, systemNow))
  }

  // The tick.

  function ContextOfPeer(p: PeerState): PlayerSimulationContext {
    PlayerSimulationContext(p.playerId, p.persistentPlayerId, p.roomId)
  }

  function ContextsOf(peers: PeerTable, order: seq<EndpointKey>): (contexts: seq<PlayerSimulationContext>)
    requires forall e :: e in order ==> e in peers
    ensures |contexts| == |order| && forall i :: 0 <= i < |order| ==> contexts[i] == ContextOfPeer(peers[order[i]])
  {
    seq(|order|, i requires 0 <= i < |order| => ContextOfPeer(peers[order[i]]))
  }

  function BulletPass(c: ServerConfig, s: ServerState, order: seq<EndpointKey>): (World, seq<KillEvent>)
    requires forall e :: e in order ==> e in s.lobby.tables.peers
  {
    var contexts := ContextsOf(s.lobby.tables.peers, order);
    var moved := PlayersMoved(s.lobby.world, contexts, c.fixedDeltaSeconds, c.arena);
    BulletsUpdated(moved, 0, contexts, c.fixedDeltaSeconds, c.gameRule, c.arena)
  }

  /** The kills of a tick, for an order that lists peers. */
  ghost function KillsOf(c: ServerConfig, s: ServerState, order: seq<EndpointKey>): seq<KillEvent> {
    if forall e :: e in order ==> e in s.lobby.tables.peers then BulletPass(c, s, order).1 else []
  }

  function AfterTick(c: ServerConfig, s: ServerState, order: seq<EndpointKey>, players: seq<PlayerId>): ServerState
    requires forall e :: e in order ==> e in s.lobby.tables.peers
  {
    var contexts := ContextsOf(s.lobby.tables.peers, order);
    var (fought, kills) := BulletPass(c, s, order);
    var respawned := Respawned(fought, players, contexts, c.fixedDeltaSeconds, c.gameRule, c.arena);
    var timed := TimersUpdated(respawned, c.fixedDeltaSeconds);
    s.(lobby := s.lobby.(tables := Committed(s.lobby.tables), world := timed.(serverTick := NextId(timed.serverTick))),
       matches := RecordedAll(s.matches, kills).0)
  }

  /** How many of a tick's kills the match history took. */
  function RecordedKillCount(c: ServerConfig, s: ServerState, order: seq<EndpointKey>): nat
    requires forall e :: e in order ==> e in s.lobby.tables.peers
  {
    RecordedAll(s.matches, BulletPass(c, s, order).1).1
  }

  ghost function AfterAdmission(
      s: ServerState, request: Admission.Request, token: Option<SessionToken>, found: Option<EndpointKey>): ServerState {
    s.(lobby := s.lobby.(accounts := Admission.Applied(request, token, found, s.lobby.accounts, s.lobby.tables).0))
  }

  /** Stopping a running server completes every match; all but the matches is forgotten in any case. */
  ghost function AfterStop(s: ServerState, wasRunning: bool, order: seq<RoomId>, systemNow: int): ServerState
    requires forall r :: r in order ==> r in s.matches.matches
  {
    ServerState(EMPTY_LOBBY, Registry.EMPTY_REGISTRY, if wasRunning then AllCompleted(s.matches, order, systemNow) else s.matches)
  }

  // Every step.

  datatype Event =
    | Login(request: Admission.Request, drawn: Option<SessionToken>, holder: Option<EndpointKey>)
    | Join(endpoint: EndpointKey, token: SessionToken, recoverable: Option<EndpointKey>, now: int, systemNow: int)
    | Leave(endpoint: EndpointKey, response: Option<Bytes>, now: int, systemNow: int)
    | Kick(playerId: PlayerId, kicked: Option<EndpointKey>, response: Option<Bytes>, now: int, systemNow: int)
    | ChangeRoom(endpoint: EndpointKey, next: RoomId, response: Option<Bytes>, now: int, systemNow: int)
    | Input(endpoint: EndpointKey, sequence: SequenceNumber, flags: InputFlags, now: int)
    | Fire(endpoint: EndpointKey, now: int)
    | KeepAlive(endpoint: EndpointKey, now: int)
    | Tick(order: seq<EndpointKey>, players: seq<PlayerId>)
    | Timeouts(gone: seq<EndpointKey>, now: int, systemNow: int)
    | Resend(now: int)
    | Authenticate(endpoint: EndpointKey, packet: Bytes)
    | Receive(endpoint: EndpointKey, view: ReliableUdpPacket.ReliableView)
    | BroadcastSnapshots
    | ExtractCompleted
    | Stop(wasRunning: bool, roomOrder: seq<RoomId>, systemNow: int)

  /** What the outside may hand to a step: choices the tables allow, listings of the tables, and logins from a
      one-to-one directory. */
  ghost predicate IsOffered(c: ServerConfig, directory: Admission.Directory, s: ServerState, event: Event) {
    var t := s.lobby.tables;
    match event
    case Login(request, _, holder) =>
      request.persistentPlayerId == directory(request.accountId)
      && IsEndpointOf(s.lobby.accounts, request.accountId, holder)
    case Join(_, token, recoverable, _, _) => IsRecoverableWith(t, token, recoverable)
    case Kick(playerId, kicked, _, _, _) => IsPeerOf(t, playerId, kicked)
    case Tick(order, players) => IsListing(order, t.peers.Keys) && IsListing(players, s.lobby.world.players.Keys)
    case Timeouts(gone, now, _) => IsListing(gone, Expired(MarkedRecoverable(t, now, c.peerTimeout), now, c.reconnectGracePeriod))
    case Stop(wasRunning, order, _) => if wasRunning then IsListing(order, s.matches.matches.Keys) else order == []
    case _ => true
  }

  /** A join that creates a player finds the next 32-bit player id free. */
  ghost predicate FindsFreeId(
      c: ServerConfig, s: ServerState, e: EndpointKey, token: SessionToken, found: Option<EndpointKey>, now: int) {
    JoinOutcomeOf(c, s, e, token, found, now).status == Joined ==> PlayerId(s.lobby.world.nextPlayerId) !in s.lobby.world.players
  }

  /** A server that does not run has no peers when it is stopped. */
  ghost predicate StopsInOrder(s: ServerState, wasRunning: bool) {
    wasRunning || s.lobby.tables.peers == map[]
  }

  ghost predicate IsOrderly(c: ServerConfig, s: ServerState, event: Event) {
    match event
    case Join(e, token, recoverable, now, _) => FindsFreeId(c, s, e, token, recoverable, now)
    case Stop(wasRunning, _, _) => StopsInOrder(s, wasRunning)
    case _ => true
  }

  ghost predicate IsEnabled(c: ServerConfig, directory: Admission.Directory, s: ServerState, event: Event) {
    IsOffered(c, directory, s, event) && IsOrderly(c, s, event)
  }

  ghost function After(
      c: ServerConfig, mac: Auth.Authenticator, directory: Admission.Directory, s: ServerState, event: Event): ServerState
    requires IsOffered(c, directory, s, event)
  {
    match event
    case Login(request, drawn, holder) => AfterAdmission(s, request, drawn, holder)
    case Join(e, token, recoverable, now, systemNow) => AfterJoin(c, s, e, token, recoverable, now, systemNow)
    case Leave(e, response, now, systemNow) => AfterLeave(s, e, response, now, systemNow)
    case Kick(playerId, kicked, response, now, systemNow) => AfterKick(s, playerId, kicked, response, now, systemNow)
    case ChangeRoom(e, next, response, now, systemNow) => AfterChangeRoom(c, s, e, next, response, now, systemNow)
    case Input(e, sequence, flags, now) => s.(lobby := InputApplied(s.lobby, e, sequence, flags, c.arena, now))
    case Fire(e, now) => s.(lobby := Fired(s.lobby, e, c.weaponRule, c.arena, now))
    case KeepAlive(e, now) => s.(lobby := s.lobby.(tables := Refreshed(s.lobby.tables, e, now)))
    case Tick(order, players) => AfterTick(c, s, order, players)
    case Timeouts(gone, now, systemNow) => AfterTimeouts(c, s, gone, now, systemNow)
    case Resend(now) => s.(sessions := Registry.AfterResend(s.sessions, now))
    case Authenticate(e, packet) => s.(sessions := Registry.AfterAuthenticate(mac, s.sessions, e, packet).0)
    case Receive(e, view) => s.(sessions := Registry.AfterReceive(s.sessions, e, view).0)
    case BroadcastSnapshots => s.(lobby := s.lobby.(world := s.lobby.world.(effects := [])))
    case ExtractCompleted => s.(matches := s.matches.(completed := []))
    case Stop(wasRunning, order, systemNow) => AfterStop(s, wasRunning, order, systemNow)
  }

  /** What each section has to do to make its step. */
  lemma SectionIsStep(
      c: ServerConfig, mac: Auth.Authenticator, directory: Admission.Directory, s: ServerState, event: Event)
    requires IsOffered(c, directory, s, event)
    ensures var s' := After(c, mac, directory, s, event);
            match event
            case Login(request, drawn, holder) => s' == AfterAdmission(s, request, drawn, holder)
            case Join(e, token, recoverable, now, systemNow) => s' == AfterJoin(c, s, e, token, recoverable, now, systemNow)
            case Leave(e, response, now, systemNow) => s' == AfterLeave(s, e, response, now, systemNow)
            case Kick(playerId, kicked, response, now, systemNow) => s' == AfterKick(s, playerId, kicked, response, now, systemNow)
            case ChangeRoom(e, next, response, now, systemNow) => s' == AfterChangeRoom(c, s, e, next, response, now, systemNow)
            case Input(e, sequence, flags, now) => s' == s.(lobby := InputApplied(s.lobby, e, sequence, flags, c.arena, now))
            case Fire(e, now) => s' == s.(lobby := Fired(s.lobby, e, c.weaponRule, c.arena, now))
            case KeepAlive(e, now) => s' == s.(lobby := s.lobby.(tables := Refreshed(s.lobby.tables, e, now)))
            case Tick(order, players) => s' == AfterTick(c, s, order, players)
            case Timeouts(gone, now, systemNow) => s' == AfterTimeouts(c, s, gone, now, systemNow)
            case Resend(now) => s' == s.(sessions := Registry.AfterResend(s.sessions, now))
            case Authenticate(e, packet) => s' == s.(sessions := Registry.AfterAuthenticate(mac, s.sessions, e, packet).0)
            case Receive(e, view) => s' == s.(sessions := Registry.AfterReceive(s.sessions, e, view).0)
            case BroadcastSnapshots => s' == s.(lobby := s.lobby.(world := s.lobby.world.(effects := [])))
            case ExtractCompleted => s' == s.(matches := s.matches.(completed := []))
            case Stop(wasRunning, order, systemNow) => s' == AfterStop(s, wasRunning, order, systemNow)
  {
    hide AfterTick, AfterTimeouts, AfterJoin, AfterDeparture, AfterKick, AfterLeave, AfterChangeRoom, AfterStop, AfterAdmission;
    hide InputApplied, Fired, Refreshed, Registry.AfterResend, Registry.AfterAuthenticate, Registry.AfterReceive;
  }
}
