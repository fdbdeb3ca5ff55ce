// Logins, joins, inputs and shots keep the server's tables in agreement.

module UdpServerRequests {
  import opened GameIds
  import opened SessionToken
  import opened GameWorld
  import opened GameSimulation
  import opened Arena
  import opened PeerRoomManager
  import opened MatchHistoryTracker
  import opened PeerSessionService
  import opened PlayerCommandService
  import opened AuthenticatedAccountRegistry
  import opened UdpServerModel
  import opened UdpServerInvariants
  import opened Wrappers
  import Admission = AccountLoginAdmissionService
  import Registry = ReliableUdpSessionRegistry

  // Requests that touch a peer and its player.

  /** Nothing about a player that the invariants speak of differs. */
  ghost predicate SameBodies(players: PlayerTable, players': PlayerTable) {
    && players'.Keys == players.Keys
    && forall id :: id in players ==>
         && players'[id].playerId == players[id].playerId && players'[id].position == players[id].position
         && players'[id].hp == players[id].hp && players'[id].isDead == players[id].isDead
  }

  lemma SameFacesTables(t: PeerTables, t': PeerTables)
    requires TablesAgree(t) && HavePositiveRooms(t.peers) && t'.rooms == t.rooms && SameFaces(t.peers, t'.peers)
    ensures TablesAgree(t') && HavePositiveRooms(t'.peers)
  {
  }

  lemma SameFacesOwn(directory: Admission.Directory, t: PeerTables, t': PeerTables, accounts: AccountTable)
    requires Admission.HasOneOwner(t, accounts, directory) && SameFaces(t.peers, t'.peers)
    ensures Admission.HasOneOwner(t', accounts, directory)
  {
  }

  lemma SameBodiesStand(peers: PeerTable, peers': PeerTable, players: PlayerTable, players': PlayerTable, stands: Standing)
    requires PeersStand(peers, players, stands) && AreSound(players)
    requires SameFaces(peers, peers') && SameBodies(players, players')
    ensures PeersStand(peers', players', stands) && AreSound(players')
  {
  }

  /** The lobby after peers and players changed in nothing that the invariants speak of. */
  ghost predicate IsTouched(s: Lobby, s': Lobby) {
    && s'.tables.rooms == s.tables.rooms && SameFaces(s.tables.peers, s'.tables.peers) && s'.accounts == s.accounts
    && SameBodies(s.world.players, s'.world.players) && s'.world.nextPlayerId == s.world.nextPlayerId
  }

  lemma TouchKeepsLobby(directory: Admission.Directory, stands: Standing, s: Lobby, s': Lobby)
    requires IsSoundLobby(directory, stands, s) && IsTouched(s, s')
    ensures IsSoundLobby(directory, stands, s')
  {
    hide TablesAgree, PlayersAgree, AreSound, PeersStand, HavePositiveRooms, Admission.HasOneOwner, SameFaces, SameBodies;
    SameFacesTables(s.tables, s'.tables);
    SameFacesOwn(directory, s.tables, s'.tables, s.accounts);
    SameBodiesStand(s.tables.peers, s'.tables.peers, s.world.players, s'.world.players, stands);
    assert s'.world.players.Keys == s.world.players.Keys by {
      SameBodiesKeys(s.world.players, s'.world.players);
    }
    SameFacesAgree(s.tables.peers, s'.tables.peers, s.world, s'.world);
  }

  lemma SameBodiesKeys(players: PlayerTable, players': PlayerTable)
    requires SameBodies(players, players')
    ensures players'.Keys == players.Keys
  {
  }

  lemma TouchKeepsState(directory: Admission.Directory, stands: Standing, s: ServerState, lobby: Lobby)
    requires IsSoundState(directory, stands, s) && IsTouched(s.lobby, lobby)
    requires SameConnections(s.lobby.tables.peers, lobby.tables.peers)
    requires TransientsBacked(lobby.world, s.matches.matches)
    ensures IsSoundState(directory, stands, s.(lobby := lobby))
  {
    hide IsSoundLobby, MatchesAgree, IsKept, TransientsBacked, SessionsAgree, SameConnections, SameFaces, SameBodies;
    TouchKeepsLobby(directory, stands, s.lobby, lobby);
    SameFacesMatch(s.lobby.tables.peers, lobby.tables.peers, s.matches.matches);
    SameConnectionsAgree(s.lobby.tables.peers, lobby.tables.peers, s.sessions);
  }

  lemma InputTouches(s: Lobby, event: Event, arena: Arena)
    requires event.Input?
    ensures var s' := InputApplied(s, event.endpoint, event.sequence, event.flags, arena, event.now);
            IsTouched(s, s') && SameConnections(s.tables.peers, s'.tables.peers)
            && s'.world.bullets == s.world.bullets && s'.world.effects == s.world.effects
  {
  }

  lemma InputKeeps(c: ServerConfig, directory: Admission.Directory, stands: Standing, s: ServerState, event: Event)
    requires IsSoundState(directory, stands, s) && event.Input?
    ensures IsSoundState(directory, stands, s.(lobby := InputApplied(s.lobby, event.endpoint, event.sequence, event.flags, c.arena, event.now)))
  {
    hide IsSoundLobby, MatchesAgree, IsKept, SessionsAgree, SameConnections, IsTouched, InputApplied;
    InputTouches(s.lobby, event, c.arena);
    TouchKeepsState(directory, stands, s, InputApplied(s.lobby, event.endpoint, event.sequence, event.flags, c.arena, event.now));
  }

  lemma RefreshKeeps(directory: Admission.Directory, stands: Standing, s: ServerState, e: EndpointKey, now: int)
    requires IsSoundState(directory, stands, s)
    ensures IsSoundState(directory, stands, s.(lobby := s.lobby.(tables := Refreshed(s.lobby.tables, e, now))))
  {
    hide IsSoundLobby, MatchesAgree, IsKept, SessionsAgree;
    TouchKeepsState(directory, stands, s, s.lobby.(tables := Refreshed(s.lobby.tables, e, now)));
  }

  lemma FireTouches(s: Lobby, e: EndpointKey, weapon: WeaponRule, arena: Arena, now: int)
    ensures var s' := Fired(s, e, weapon, arena, now);
            IsTouched(s, s') && SameConnections(s.tables.peers, s'.tables.peers)
  {
    hide NewBullet;
  }

  /** A bullet is fired by a peer of its room, who is active in the room's match and so has stats in it. */
  lemma FireIsBacked(s: Lobby, e: EndpointKey, weapon: WeaponRule, arena: Arena, now: int, m: MatchState)
    requires PeersAreActive(s.tables.peers, m.matches) && TransientsBacked(s.world, m.matches) && IsKept(m)
    ensures TransientsBacked(Fired(s, e, weapon, arena, now).world, m.matches)
  {
    hide IsBalanced;
    if MayFire(s, e) {
      var peer := s.tables.peers[e];
      var bullet := NewBullet(s.world.nextBulletId, peer, s.world.players[peer.playerId], weapon, arena);
      assert Fired(s, e, weapon, arena, now).world.bullets == s.world.bullets + [bullet];
    }
  }

  lemma FireKeeps(c: ServerConfig, directory: Admission.Directory, stands: Standing, s: ServerState, e: EndpointKey, now: int)
    requires IsSoundState(directory, stands, s)
    ensures IsSoundState(directory, stands, s.(lobby := Fired(s.lobby, e, c.weaponRule, c.arena, now)))
  {
    hide IsSoundLobby, PeersAreActive, ActiveArePeers, TransientsBacked, SessionsAgree, SameConnections, IsTouched, Fired, IsKept;
    FireTouches(s.lobby, e, c.weaponRule, c.arena, now);
    FireIsBacked(s.lobby, e, c.weaponRule, c.arena, now, s.matches);
    TouchKeepsState(directory, stands, s, Fired(s.lobby, e, c.weaponRule, c.arena, now));
  }

  // Logging in and joining.

  lemma LoginKeeps(directory: Admission.Directory, stands: Standing, s: ServerState, event: Event)
    requires IsSoundState(directory, stands, s) && event.Login?
    requires event.request.persistentPlayerId == directory(event.request.accountId)
    requires IsEndpointOf(s.lobby.accounts, event.request.accountId, event.holder)
    ensures IsSoundState(directory, stands, AfterAdmission(s, event.request, event.drawn, event.holder))
  {
    hide TablesAgree, PlayersAgree, AreSound, PeersStand, HavePositiveRooms, Admission.HasOneOwner, Admission.Applied;
    hide MatchesAgree, IsKept, TransientsBacked, SessionsAgree, IsEndpointOf;
    Admission.AdmissionKeepsOneOwner(event.request, event.drawn, event.holder, s.lobby.accounts, s.lobby.tables, directory);
  }

  /** The identity of an account that waits at `e`. */
  ghost predicate IsWaitingAt(
      directory: Admission.Directory, accounts: AccountTable, e: EndpointKey, identity: AuthenticatedIdentity) {
    && e in accounts && accounts[e].accountId == identity.accountId
    && Admission.IsIdentified(directory, identity.accountId, identity.persistentPlayerId, identity.sessionToken, identity.nickname)
  }

  /** The peer that joining creates. */
  function CreatedPeer(s: Lobby, e: EndpointKey, identity: AuthenticatedIdentity, r: RoomId, now: int): PeerState {
    PeerState(e, identity.accountId, identity.persistentPlayerId, identity.sessionToken, identity.nickname,
              PlayerId(s.world.nextPlayerId), 0, 0, r, true, Connected, now, 0)
  }

  lemma CreatedTables(
      s: Lobby, e: EndpointKey, identity: AuthenticatedIdentity, r: RoomId, rules: GameRuleConfig, arena: Arena, now: int)
    requires TablesAgree(s.tables) && e !in s.tables.peers && r.value > 0 && HavePositiveRooms(s.tables.peers)
    ensures var created := Created(s, e, identity, r, rules, arena, now).0;
            && TablesAgree(created.tables) && HavePositiveRooms(created.tables.peers)
            && created.tables.peers == s.tables.peers[e := CreatedPeer(s, e, identity, r, now)]
  {
    var tables := Upserted(s.tables, e, PlayerId(s.world.nextPlayerId), r, now);
    UpsertKeepsAgreement(s.tables, e, PlayerId(s.world.nextPlayerId), r, now);
    RefreshKeepsAgreement(tables, e, IdentifiedPeer(tables, e, identity).peers[e]);
  }

  lemma CreatedOwner(
      directory: Admission.Directory, t: PeerTables, t': PeerTables, accounts: AccountTable, e: EndpointKey,
      identity: AuthenticatedIdentity)
    requires Admission.HasOneOwner(t, accounts, directory) && e !in t.peers && IsWaitingAt(directory, accounts, e, identity)
    requires t'.peers.Keys == t.peers.Keys + {e} && forall f :: f in t.peers ==> t'.peers[f] == t.peers[f]
    requires var p := t'.peers[e]; p.accountId == identity.accountId && p.persistentPlayerId == identity.persistentPlayerId
                                   && p.sessionToken == identity.sessionToken && p.nickname == identity.nickname
    ensures Admission.HasOneOwner(t', accounts - {e}, directory)
  {
  }

  lemma CreatedStands(s: Lobby, e: EndpointKey, identity: AuthenticatedIdentity, c: ServerConfig, now: int, stands: Standing)
    requires IsSoundConfig(c, stands) && e !in s.tables.peers && PlayerId(s.world.nextPlayerId) !in s.world.players
    requires AreSound(s.world.players) && PeersStand(s.tables.peers, s.world.players, stands)
    requires forall f :: f in s.tables.peers ==> s.tables.peers[f].playerId in s.world.players
    ensures var created := Created(s, e, identity, c.initialRoomId, c.gameRule, c.arena, now).0;
            AreSound(created.world.players)
            && PeersStand(s.tables.peers[e := CreatedPeer(s, e, identity, c.initialRoomId, now)], created.world.players, stands)
  {
    assert stands(c.arena.spawnPoint(c.initialRoomId, MemberCount(s.tables, c.initialRoomId)), c.initialRoomId);
  }

  /** A fresh peer under an account that waits at its endpoint. */
  lemma CreatedIsSound(
      c: ServerConfig, directory: Admission.Directory, stands: Standing, s: Lobby, e: EndpointKey,
      identity: AuthenticatedIdentity, now: int)
    requires IsSoundConfig(c, stands) && IsSoundLobby(directory, stands, s) && e !in s.tables.peers
    requires PlayerId(s.world.nextPlayerId) !in s.world.players
    requires IsWaitingAt(directory, s.accounts, e, identity)
    ensures var created := Created(s, e, identity, c.initialRoomId, c.gameRule, c.arena, now).0;
            IsSoundLobby(directory, stands, created.(accounts := s.accounts - {e}))
  {
    hide TablesAgree, AreSound, PeersStand, HavePositiveRooms, Admission.HasOneOwner, KeepsStanding, Upserted, IsWaitingAt;
    var p := CreatedPeer(s, e, identity, c.initialRoomId, now);
    CreatedTables(s, e, identity, c.initialRoomId, c.gameRule, c.arena, now);
    var created := Created(s, e, identity, c.initialRoomId, c.gameRule, c.arena, now).0;
    CreatedOwner(directory, s.tables, created.tables, s.accounts, e, identity);
    CreatedStands(s, e, identity, c, now, stands);
    hide PlayersAgree;
    AddedPlayerAgrees(s.tables.peers, s.world, e, p, InitialPlayer(p.playerId, c.arena.spawnPoint(c.initialRoomId, MemberCount(s.tables, c.initialRoomId)), c.gameRule));
  }

  lemma ReboundShape(t: PeerTables, previous: EndpointKey, e: EndpointKey, now: int)
    requires CanRebind(t, previous, e)
    ensures var t' := Rebound(t, previous, e, now);
            t'.peers == (t.peers - {previous})[e := Reconnected(t.peers[previous], if previous == e then t.peers[e].endpointKey else e, now)]
  {
  }

  lemma ReboundOwner(
      directory: Admission.Directory, t: PeerTables, accounts: AccountTable, previous: EndpointKey, e: EndpointKey, now: int)
    requires Admission.HasOneOwner(t, accounts, directory) && CanRebind(t, previous, e)
    ensures Admission.HasOneOwner(Rebound(t, previous, e, now), accounts, directory)
  {
  }

  lemma ReboundStands(t: PeerTables, players: PlayerTable, previous: EndpointKey, e: EndpointKey, now: int, stands: Standing)
    requires PeersStand(t.peers, players, stands) && HavePositiveRooms(t.peers) && CanRebind(t, previous, e)
    ensures PeersStand(Rebound(t, previous, e, now).peers, players, stands) && HavePositiveRooms(Rebound(t, previous, e, now).peers)
  {
  }

  lemma ReboundIsSound(
      directory: Admission.Directory, stands: Standing, s: Lobby, previous: EndpointKey, e: EndpointKey, now: int)
    requires IsSoundLobby(directory, stands, s) && CanRebind(s.tables, previous, e)
    ensures IsSoundLobby(directory, stands, s.(tables := Rebound(s.tables, previous, e, now)))
  {
    hide TablesAgree, PlayersAgree, AreSound, PeersStand, HavePositiveRooms, Admission.HasOneOwner, Rebound;
    RebindKeepsAgreement(s.tables, previous, e, now);
    ReboundOwner(directory, s.tables, s.accounts, previous, e, now);
    ReboundStands(s.tables, s.world.players, previous, e, now, stands);
    ReboundShape(s.tables, previous, e, now);
    RekeyedPlayerAgrees(s.tables.peers, s.world, previous, e, Rebound(s.tables, previous, e, now).peers[e]);
  }

  /** In a sound state a recoverable peer can always be moved to an endpoint without a peer. */
  lemma RecoverySucceeds(s: Lobby, previous: EndpointKey, e: EndpointKey, now: int)
    requires TablesAgree(s.tables) && PlayersAgree(s.tables.peers, s.world)
    requires previous in s.tables.peers && s.tables.peers[previous].connectionState == Recoverable
    requires e == previous || e !in s.tables.peers
    ensures Recovery(s, previous, e, now).status == Recovered && CanRebind(s.tables, previous, e)
  {
    assert e != previous ==> e !in s.tables.rooms[s.tables.peers[previous].roomId];
  }

  /** A join is rejected only for presenting another token than that of the endpoint's own peer; it is refused as
      unauthenticated only when neither a recoverable peer nor a waiting account has the token. */
  lemma JoinIsDecidedByTokens(
      c: ServerConfig, directory: Admission.Directory, stands: Standing, s: ServerState, e: EndpointKey, token: SessionToken, found: Option<EndpointKey>, now: int)
    requires IsSoundState(directory, stands, s) && IsRecoverableWith(s.lobby.tables, token, found)
    ensures var status := JoinOutcomeOf(c, s, e, token, found, now).status;
            var peers := s.lobby.tables.peers;
            && (status == Rejected <==> e in peers && peers[e].sessionToken != token)
            && (status == ExistingPeer <==> e in peers && peers[e].sessionToken == token && peers[e].connectionState == Connected)
            && (status == Recovered <==> if e in peers then peers[e].sessionToken == token && peers[e].connectionState == Recoverable else found.Some?)
            && (status == Joined <==> e !in peers && found.None? && e in s.lobby.accounts && s.lobby.accounts[e].sessionToken == token)
  {
    hide MatchesAgree, IsKept, TransientsBacked, SessionsAgree, AreSound, PeersStand, Rebound, Upserted;
    var peers := s.lobby.tables.peers;
    if e in peers && peers[e].connectionState == Recoverable {
      RecoverySucceeds(s.lobby, e, e, now);
    } else if e !in peers && found.Some? {
      RecoverySucceeds(s.lobby, found.value, e, now);
    }
  }

  lemma JoinedAs(
      s: Lobby, e: EndpointKey, identity: AuthenticatedIdentity, r: RoomId, rules: GameRuleConfig, arena: Arena, now: int)
    requires e in s.tables.peers ==> s.tables.peers[e].isJoined && s.tables.peers[e].playerId in s.world.players
    ensures var o := JoinAs(s, e, identity, r, rules, arena, now);
            && (o.status == Rejected ==> o.lobby == s)
            && (o.status == ExistingPeer ==> o.lobby == s.(tables := Refreshed(s.tables, e, now)))
            && (o.status == Joined ==>
                  e !in s.tables.peers
                  && var (created, result) := Created(s, e, identity, r, rules, arena, now);
                     o.lobby == created.(accounts := s.accounts - {e}) && o.result == result)
            && o.status != Recovered && o.status != Unauthenticated
  {
    CreatedKeepsAccounts(s, e, identity, r, rules, arena, now);
    hide Created;
  }

  /** What a join makes of the lobby, status by status. */
  lemma JoinShape(c: ServerConfig, s: Lobby, e: EndpointKey, token: SessionToken, found: Option<EndpointKey>, now: int)
    requires IsRecoverableWith(s.tables, token, found) && TablesAgree(s.tables) && PlayersAgree(s.tables.peers, s.world)
    ensures var o := JoinAuthenticated(s, e, token, found, c.initialRoomId, c.gameRule, c.arena, now);
            && (o.status == Rejected || o.status == Unauthenticated ==> o.lobby == s)
            && (o.status == ExistingPeer ==> o.lobby == s.(tables := Refreshed(s.tables, e, now)))
            && (o.status == Recovered ==>
                  exists previous ::
                    && previous in s.tables.peers && s.tables.peers[previous].sessionToken == token
                    && s.tables.peers[previous].connectionState == Recoverable
                    && CanRebind(s.tables, previous, e) && (e == previous || e !in s.tables.peers)
                    && o.lobby == s.(tables := Rebound(s.tables, previous, e, now)))
            && (o.status == Joined ==>
                  && e !in s.tables.peers && FoundWithToken(s.accounts, e, token).Some?
                  && var identity := WaitingIdentity(s.accounts[e]);
                     var (created, result) := Created(s, e, identity, c.initialRoomId, c.gameRule, c.arena, now);
                     o.lobby == created.(accounts := s.accounts - {e}) && o.result == result)
  {
    hide Created, Upserted, Rebound, CanRebind, JoinAs, Refreshed;
    var o := JoinAuthenticated(s, e, token, found, c.initialRoomId, c.gameRule, c.arena, now);
    if e in s.tables.peers {
      var p := s.tables.peers[e];
      JoinedAs(s, e, AuthenticatedIdentity(p.accountId, p.persistentPlayerId, token, p.nickname), c.initialRoomId, c.gameRule, c.arena, now);
    } else if e in s.accounts {
      JoinedAs(s, e, WaitingIdentity(s.accounts[e]), c.initialRoomId, c.gameRule, c.arena, now);
    }
    if o.status == Recovered {
      assert CanRebind(s.tables, if e in s.tables.peers then e else found.value, e);
    }
  }

  function WaitingIdentity(account: AuthenticatedAccount): AuthenticatedIdentity {
    AuthenticatedIdentity(account.accountId, account.persistentPlayerId, account.sessionToken, account.nickname)
  }

  lemma CreatedKeepsAccounts(
      s: Lobby, e: EndpointKey, identity: AuthenticatedIdentity, r: RoomId, rules: GameRuleConfig, arena: Arena, now: int)
    ensures var (created, result) := Created(s, e, identity, r, rules, arena, now);
            created.accounts == s.accounts && result.shouldSendResponse && result.shouldBroadcastPlayerJoined
            && result.roomId == r && result.persistentPlayerId == identity.persistentPlayerId
            && created.world.bullets == s.world.bullets && created.world.effects == s.world.effects
  {
  }

  lemma UpsertedSessionAgrees(
      peers: PeerTable, r: Registry.RegistryState, previous: EndpointKey, e: EndpointKey, p: PeerState,
      config: Registry.ReliableUdpConfig)
    requires SessionsAgree(peers, r) && p.connectionState == Connected
    requires previous in peers ==> peers[previous].connectionState == Recoverable
    requires e == previous || e !in peers
    ensures SessionsAgree((peers - {previous})[e := p], Registry.AfterUpsert(r, e, config, p.sessionToken))
  {
  }

  lemma RecoveredKeeps(
      c: ServerConfig, directory: Admission.Directory, stands: Standing, s: ServerState, previous: EndpointKey, e: EndpointKey, token: SessionToken, now: int)
    requires IsSoundState(directory, stands, s) && CanRebind(s.lobby.tables, previous, e) && (e == previous || e !in s.lobby.tables.peers)
    requires s.lobby.tables.peers[previous].sessionToken == token
    ensures IsSoundState(directory, stands, s.(
              lobby := s.lobby.(tables := Rebound(s.lobby.tables, previous, e, now)),
              sessions := Registry.AfterUpsert(s.sessions, e, c.reliableUdp, token)))
  {
    hide IsSoundLobby, MatchesAgree, IsKept, TransientsBacked, SessionsAgree, Rebound, Registry.AfterUpsert;
    ReboundIsSound(directory, stands, s.lobby, previous, e, now);
    ReboundShape(s.lobby.tables, previous, e, now);
    var p := Rebound(s.lobby.tables, previous, e, now).peers[e];
    RekeyedMatches(s.lobby.tables.peers, s.matches.matches, previous, e, p);
    UpsertedSessionAgrees(s.lobby.tables.peers, s.sessions, previous, e, p, c.reliableUdp);
  }

  lemma GrowingStatsKeepTransients(w: World, w': World, matches: ActiveMatchTable, matches': ActiveMatchTable)
    requires TransientsBacked(w, matches) && KeepsStats(matches, matches') && w'.bullets == w.bullets && w'.effects == w.effects
    ensures TransientsBacked(w', matches')
  {
  }

  lemma NoOneHasTheId(directory: Admission.Directory, t: PeerTables, accounts: AccountTable, e: EndpointKey)
    requires Admission.HasOneOwner(t, accounts, directory) && Admission.IsOneToOne(directory) && e in accounts
    ensures accounts[e].persistentPlayerId.value > 0
    ensures forall f :: f in t.peers ==> t.peers[f].persistentPlayerId != accounts[e].persistentPlayerId
    ensures IsWaitingAt(directory, accounts, e, WaitingIdentity(accounts[e]))
  {
    forall f | f in t.peers
      ensures t.peers[f].persistentPlayerId != accounts[e].persistentPlayerId
    {
      assert t.peers[f].accountId != accounts[e].accountId;
    }
  }

  /** A waiting account joins under a free player id. */
  lemma JoinedKeeps(
      c: ServerConfig, directory: Admission.Directory, stands: Standing, s: ServerState, e: EndpointKey, now: int, systemNow: int)
    requires IsSoundConfig(c, stands) && Admission.IsOneToOne(directory) && IsSoundState(directory, stands, s)
    requires e !in s.lobby.tables.peers && e in s.lobby.accounts && PlayerId(s.lobby.world.nextPlayerId) !in s.lobby.world.players
    ensures var account := s.lobby.accounts[e];
            var created := Created(s.lobby, e, WaitingIdentity(account), c.initialRoomId, c.gameRule, c.arena, now).0;
            IsSoundState(directory, stands, ServerState(
                 created.(accounts := s.lobby.accounts - {e}),
                 Registry.AfterUpsert(s.sessions, e, c.reliableUdp, account.sessionToken),
                 Entered(s.matches, c.initialRoomId, account.persistentPlayerId, systemNow)))
  {
    hide MatchesAgree, IsKept, TransientsBacked, SessionsAgree, Created, Registry.AfterUpsert, KeepsStanding, KeepsStats;
    hide PlayersAgree, AreSound, PeersStand, HavePositiveRooms, TablesAgree, Admission.HasOneOwner, IsWaitingAt, Entered, CanEnter;
    var identity, peers := WaitingIdentity(s.lobby.accounts[e]), s.lobby.tables.peers;
    var p := CreatedPeer(s.lobby, e, identity, c.initialRoomId, now);
    NoOneHasTheId(directory, s.lobby.tables, s.lobby.accounts, e);
    CreatedTables(s.lobby, e, identity, c.initialRoomId, c.gameRule, c.arena, now);
    CreatedIsSound(c, directory, stands, s.lobby, e, identity, now);
    CreatedKeepsAccounts(s.lobby, e, identity, c.initialRoomId, c.gameRule, c.arena, now);
    EnteringAgrees(peers, s.matches, e, p, systemNow);
    EnterKeeps(s.matches, c.initialRoomId, identity.persistentPlayerId, systemNow);
    var created := Created(s.lobby, e, identity, c.initialRoomId, c.gameRule, c.arena, now).0;
    GrowingStatsKeepTransients(s.lobby.world, created.world, s.matches.matches, Entered(s.matches, c.initialRoomId, identity.persistentPlayerId, systemNow).matches);
    UpsertedSessionAgrees(peers, s.sessions, e, e, p, c.reliableUdp);
    assert (peers - {e})[e := p] == peers[e := p];
  }

  /** A fresh peer enters the match of its room without fail, whatever player id it gets. */
  lemma JoinEntersMatch(
      c: ServerConfig, directory: Admission.Directory, stands: Standing, s: ServerState,
      e: EndpointKey, token: SessionToken, found: Option<EndpointKey>, now: int)
    requires IsSoundConfig(c, stands) && Admission.IsOneToOne(directory) && IsSoundState(directory, stands, s)
    requires IsRecoverableWith(s.lobby.tables, token, found)
    ensures var o := JoinOutcomeOf(c, s, e, token, found, now);
            o.status == Joined ==> CanEnter(s.matches, o.result.roomId, o.result.persistentPlayerId)
  {
    hide MatchesAgree, IsKept, TransientsBacked, SessionsAgree, Created, KeepsStanding;
    hide PlayersAgree, AreSound, PeersStand, HavePositiveRooms, TablesAgree, Admission.HasOneOwner, CanEnter, JoinAuthenticated;
    var o := JoinOutcomeOf(c, s, e, token, found, now);
    JoinShape(c, s.lobby, e, token, found, now);
    if o.status == Joined {
      var identity := WaitingIdentity(s.lobby.accounts[e]);
      NoOneHasTheId(directory, s.lobby.tables, s.lobby.accounts, e);
      EnteringAgrees(s.lobby.tables.peers, s.matches, e, CreatedPeer(s.lobby, e, identity, c.initialRoomId, now), now);
      CreatedKeepsAccounts(s.lobby, e, identity, c.initialRoomId, c.gameRule, c.arena, now);
    }
  }

  /** Joining, in all its outcomes, keeps the tables in agreement, as long as a fresh player finds its id free. */
  lemma JoinKeeps(
      c: ServerConfig, directory: Admission.Directory, stands: Standing, s: ServerState,
      e: EndpointKey, token: SessionToken, found: Option<EndpointKey>, now: int, systemNow: int)
    requires IsSoundConfig(c, stands) && Admission.IsOneToOne(directory) && IsSoundState(directory, stands, s)
    requires IsRecoverableWith(s.lobby.tables, token, found) && FindsFreeId(c, s, e, token, found, now)
    ensures IsSoundState(directory, stands, AfterJoin(c, s, e, token, found, now, systemNow))
  {
    hide MatchesAgree, IsKept, TransientsBacked, SessionsAgree, Created, Registry.AfterUpsert, KeepsStanding, Rebound, CanRebind;
    hide PlayersAgree, AreSound, PeersStand, HavePositiveRooms, TablesAgree, Admission.HasOneOwner, Entered, CanEnter, JoinAuthenticated;
    hide Refreshed;
    var o := JoinOutcomeOf(c, s, e, token, found, now);
    JoinShape(c, s.lobby, e, token, found, now);
    match o.status {
      case Joined =>
        JoinedKeeps(c, directory, stands, s, e, now, systemNow);
        CreatedKeepsAccounts(s.lobby, e, WaitingIdentity(s.lobby.accounts[e]), c.initialRoomId, c.gameRule, c.arena, now);
      case Recovered =>
        var previous :| previous in s.lobby.tables.peers && s.lobby.tables.peers[previous].sessionToken == token
                        && s.lobby.tables.peers[previous].connectionState == Recoverable
                        && CanRebind(s.lobby.tables, previous, e) && (e == previous || e !in s.lobby.tables.peers)
                        && o.lobby == s.lobby.(tables := Rebound(s.lobby.tables, previous, e, now));
        RecoveredKeeps(c, directory, stands, s, previous, e, token, now);
      case ExistingPeer => RefreshKeeps(directory, stands, s, e, now);
      case Unauthenticated =>
      case Rejected =>
    }
  }

  /** And not otherwise: under an id in use, two peers share a player. */
  lemma JoinKeepsIff(
      c: ServerConfig, directory: Admission.Directory, stands: Standing, s: ServerState,
      e: EndpointKey, token: SessionToken, found: Option<EndpointKey>, now: int, systemNow: int)
    requires IsSoundConfig(c, stands) && Admission.IsOneToOne(directory) && IsSoundState(directory, stands, s)
    requires IsRecoverableWith(s.lobby.tables, token, found)
    ensures IsSoundState(directory, stands, AfterJoin(c, s, e, token, found, now, systemNow)) <==> FindsFreeId(c, s, e, token, found, now)
  {
    hide MatchesAgree, IsKept, TransientsBacked, SessionsAgree, Created, KeepsStanding, Registry.AfterUpsert, IsSoundConfig;
    hide AreSound, PeersStand, HavePositiveRooms, TablesAgree, Admission.HasOneOwner, Entered, CanEnter, JoinAuthenticated, Admission.IsOneToOne;
    if FindsFreeId(c, s, e, token, found, now) {
      JoinKeeps(c, directory, stands, s, e, token, found, now, systemNow);
    } else {
      JoinShape(c, s.lobby, e, token, found, now);
      JoinedAtPeerTable(c, directory, stands, s, e, now);
      var peers, id := s.lobby.tables.peers, PlayerId(s.lobby.world.nextPlayerId);
      var f :| f in peers && peers[f].playerId == id;
      var peers' := AfterJoin(c, s, e, token, found, now, systemNow).lobby.tables.peers;
      assert peers'[e].playerId == id && peers'[f] == peers[f];
    }
  }

  lemma JoinedAtPeerTable(c: ServerConfig, directory: Admission.Directory, stands: Standing, s: ServerState, e: EndpointKey, now: int)
    requires IsSoundConfig(c, stands) && IsSoundState(directory, stands, s) && e !in s.lobby.tables.peers && e in s.lobby.accounts
    ensures var identity := WaitingIdentity(s.lobby.accounts[e]);
            Created(s.lobby, e, identity, c.initialRoomId, c.gameRule, c.arena, now).0.tables.peers
            == s.lobby.tables.peers[e := CreatedPeer(s.lobby, e, identity, c.initialRoomId, now)]
  {
    hide MatchesAgree, IsKept, TransientsBacked, SessionsAgree, Created, KeepsStanding, TablesAgree, PlayersAgree, AreSound, PeersStand;
    hide HavePositiveRooms, Admission.HasOneOwner;
    CreatedTables(s.lobby, e, WaitingIdentity(s.lobby.accounts[e]), c.initialRoomId, c.gameRule, c.arena, now);
  }
}
