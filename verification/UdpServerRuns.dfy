// A tick keeps the server's tables in agreement; so does every other step, and so every run.

module UdpServerRuns {
  import opened GameIds
  import opened SessionToken
  import opened RoomLayout
  import opened GameWorld
  import opened GameSimulation
  import opened Arena
  import opened PeerRoomManager
  import opened MatchHistoryTracker
  import opened PeerSessionService
  import opened PlayerCommandService
  import opened AuthenticatedAccountRegistry
  import opened UdpServerModel
  import opened UdpServerInvariants
  import opened UdpServerRequests
  import opened UdpServerDepartures
  import Admission = AccountLoginAdmissionService
  import Auth = AuthenticatedUdpPacket
  import Registry = ReliableUdpSessionRegistry

  // The tick.

  /** The contexts of a tick name each peer's player once, and all of them stand. */
  lemma ContextsStand(peers: PeerTable, w: World, order: seq<EndpointKey>, stands: Standing)
    requires PlayersAgree(peers, w) && PeersStand(peers, w.players, stands) && IsListing(order, peers.Keys)
    ensures HaveDistinctPlayers(ContextsOf(peers, order)) && AllStand(w.players, ContextsOf(peers, order), stands)
  {
    var contexts := ContextsOf(peers, order);
    forall i, j | 0 <= i < j < |order|
      ensures contexts[i].playerId != contexts[j].playerId
    {
      assert order[i] in order && order[j] in order && order[i] != order[j];
    }
    forall k | 0 <= k < |order|
      ensures contexts[k].playerId in w.players && stands(w.players[contexts[k].playerId].position, contexts[k].roomId)
    {
      assert order[k] in order;
    }
  }

  lemma StandingContextsMeanStandingPeers(peers: PeerTable, players: PlayerTable, order: seq<EndpointKey>, stands: Standing)
    requires IsListing(order, peers.Keys) && AllStand(players, ContextsOf(peers, order), stands)
    ensures PeersStand(peers, players, stands)
  {
    var contexts := ContextsOf(peers, order);
    forall e | e in peers
      ensures peers[e].playerId in players && stands(players[peers[e].playerId].position, peers[e].roomId)
    {
      assert e in order;
      var k :| 0 <= k < |order| && order[k] == e;
      assert contexts[k] == ContextOfPeer(peers[e]);
    }
  }

  /** Rooms with a match, and the players their matches have stats for. */
  ghost function OwnersOf(matches: ActiveMatchTable): set<(RoomId, PersistentPlayerId)> {
    set r, id | r in matches && id in matches[r].playerStatsTable :: (r, id)
  }

  lemma BackedMeansOwned(w: World, matches: ActiveMatchTable)
    ensures TransientsBacked(w, matches) <==> AreOwned(w.bullets, OwnersOf(matches)) && AreWithin(w.effects, matches.Keys)
    ensures forall o :: o in OwnersOf(matches) ==> o.0 in matches.Keys
  {
  }

  /** The contexts' rooms have matches. */
  lemma ContextRoomsHaveMatches(peers: PeerTable, matches: ActiveMatchTable, order: seq<EndpointKey>)
    requires PeersAreActive(peers, matches) && forall e :: e in order ==> e in peers
    ensures forall c :: c in ContextsOf(peers, order) ==> c.roomId in matches && c.persistentPlayerId in matches[c.roomId].activePlayerSet
  {
    var contexts := ContextsOf(peers, order);
    forall c | c in contexts
      ensures c.roomId in matches && c.persistentPlayerId in matches[c.roomId].activePlayerSet
    {
      var k :| 0 <= k < |contexts| && contexts[k] == c;
      assert order[k] in order;
    }
  }

  /** What a tick does to the world, stage by stage, keeps players sound and standing and leaves only owned bullets. */
  ghost predicate IsTickedWorld(
      w: World, w': World, contexts: seq<PlayerSimulationContext>, owners: set<(RoomId, PersistentPlayerId)>, rooms: set<RoomId>, stands: Standing) {
    && w'.players.Keys == w.players.Keys && w'.nextPlayerId == w.nextPlayerId
    && AreSound(w'.players) && AllStand(w'.players, contexts, stands)
    && AreOwned(w'.bullets, owners) && AreWithin(w'.effects, rooms)
  }

  lemma BulletPassTicks(
      c: ServerConfig, w: World, contexts: seq<PlayerSimulationContext>, owners: set<(RoomId, PersistentPlayerId)>, rooms: set<RoomId>, stands: Standing)
    requires IsSoundConfig(c, stands) && HaveDistinctPlayers(contexts) && AllStand(w.players, contexts, stands) && AreSound(w.players)
    requires AreOwned(w.bullets, owners) && AreWithin(w.effects, rooms) && forall o :: o in owners ==> o.0 in rooms
    ensures var (fought, kills) := BulletsUpdated(PlayersMoved(w, contexts, c.fixedDeltaSeconds, c.arena), 0, contexts, c.fixedDeltaSeconds, c.gameRule, c.arena);
            && IsTickedWorld(w, fought, contexts, owners, rooms, stands)
            && forall k :: k in kills ==> IsBacked(k, owners, contexts)
  {
    hide AreSound, AllStand, AreOwned, AreWithin, BulletsUpdated, PlayersMoved, HaveDistinctPlayers, KeepsStanding, IsBacked;
    var moved := PlayersMoved(w, contexts, c.fixedDeltaSeconds, c.arena);
    assert contexts[..|contexts|] == contexts;
    MovesKeepStanding(w, contexts, |contexts|, c.fixedDeltaSeconds, c.arena, stands);
    BulletPassIsAccountedFor(moved, 0, contexts, c.fixedDeltaSeconds, c.gameRule, c.arena);
    BulletsLeavePlayersStanding(moved, contexts, c.fixedDeltaSeconds, c.gameRule, c.arena, stands);
    BulletPassKeepsOwners(moved, 0, contexts, c.fixedDeltaSeconds, c.gameRule, c.arena, owners, rooms);
  }

  lemma TimersKeep(w: World, dt: real, contexts: seq<PlayerSimulationContext>, stands: Standing)
    requires AreSound(w.players) && AllStand(w.players, contexts, stands)
    ensures var w' := TimersUpdated(w, dt);
            && w'.players.Keys == w.players.Keys && AreSound(w'.players) && AllStand(w'.players, contexts, stands)
            && w' == w.(players := w'.players)
  {
  }

  lemma TickKeepsWorld(
      c: ServerConfig, s: ServerState, order: seq<EndpointKey>, players: seq<PlayerId>,
      owners: set<(RoomId, PersistentPlayerId)>, rooms: set<RoomId>, stands: Standing)
    requires IsSoundConfig(c, stands) && forall e :: e in order ==> e in s.lobby.tables.peers
    requires var w, contexts := s.lobby.world, ContextsOf(s.lobby.tables.peers, order);
             && HaveDistinctPlayers(contexts) && AllStand(w.players, contexts, stands) && AreSound(w.players)
             && AreOwned(w.bullets, owners) && AreWithin(w.effects, rooms) && (forall k :: k in contexts ==> k.roomId in rooms)
    requires forall o :: o in owners ==> o.0 in rooms
    ensures IsTickedWorld(s.lobby.world, AfterTick(c, s, order, players).lobby.world, ContextsOf(s.lobby.tables.peers, order), owners, rooms, stands)
    ensures forall k :: k in BulletPass(c, s, order).1 ==> IsBacked(k, owners, ContextsOf(s.lobby.tables.peers, order))
  {
    hide AreSound, AllStand, AreOwned, AreWithin, BulletsUpdated, PlayersMoved, Respawned, TimersUpdated, HaveDistinctPlayers, KeepsStanding, IsBacked;
    var contexts, fought := ContextsOf(s.lobby.tables.peers, order), BulletPass(c, s, order).0;
    BulletPassTicks(c, s.lobby.world, contexts, owners, rooms, stands);
    RespawnsKeep(fought, players, contexts, c.fixedDeltaSeconds, c.gameRule, c.arena, rooms, stands);
    TimersKeep(Respawned(fought, players, contexts, c.fixedDeltaSeconds, c.gameRule, c.arena), c.fixedDeltaSeconds, contexts, stands);
  }

  lemma BackedKillIsRecordable(
      directory: Admission.Directory, t: PeerTables, accounts: AccountTable, m: MatchState, order: seq<EndpointKey>, k: KillEvent)
    requires PeersAreActive(t.peers, m.matches) && IsKept(m) && (forall e :: e in order ==> e in t.peers)
    requires IsBacked(k, OwnersOf(m.matches), ContextsOf(t.peers, order))
    ensures CanRecord(m, k)
  {
    hide IsBalanced;
    ContextRoomsHaveMatches(t.peers, m.matches, order);
    var victim := PlayerSimulationContext(k.victimPlayerId, k.victimPersistentPlayerId, k.roomId);
    assert victim in ContextsOf(t.peers, order);
    assert IsKeptMatch(m.matches[k.roomId], k.roomId);
  }

  lemma SamePlayersMatch(peers: PeerTable, m: MatchState, m': MatchState)
    requires MatchesAgree(peers, m.matches) && SamePlayers(m, m')
    ensures MatchesAgree(peers, m'.matches)
  {
    forall r, id | r in m'.matches && id in m'.matches[r].activePlayerSet
      ensures HasMember(peers, r, id)
    {
      assert r in m.matches && id in m.matches[r].activePlayerSet;
    }
  }

  lemma SamePlayersOwn(m: MatchState, m': MatchState)
    requires SamePlayers(m, m')
    ensures OwnersOf(m'.matches) == OwnersOf(m.matches)
  {
    forall r, id
      ensures r in m'.matches && id in m'.matches[r].playerStatsTable <==> r in m.matches && id in m.matches[r].playerStatsTable
    {
    }
  }

  lemma CommittedFaces(t: PeerTables)
    ensures SameFaces(t.peers, Committed(t).peers) && SameConnections(t.peers, Committed(t).peers) && Committed(t).rooms == t.rooms
  {
  }

  /** Every kill of a tick is recorded: the match history takes as many as the simulation reports. */
  lemma TickRecordsEveryKill(
      c: ServerConfig, directory: Admission.Directory, stands: Standing, s: ServerState, order: seq<EndpointKey>,
      players: seq<PlayerId>)
    requires IsSoundConfig(c, stands) && IsSoundState(directory, stands, s) && IsListing(order, s.lobby.tables.peers.Keys)
    ensures RecordedKillCount(c, s, order) == |BulletPass(c, s, order).1|
    ensures forall k :: k in BulletPass(c, s, order).1 ==>
              CanRecord(s.matches, k) && IsBacked(k, OwnersOf(s.matches.matches), ContextsOf(s.lobby.tables.peers, order))
    ensures IsTickedWorld(s.lobby.world, AfterTick(c, s, order, players).lobby.world, ContextsOf(s.lobby.tables.peers, order),
                          OwnersOf(s.matches.matches), s.matches.matches.Keys, stands)
  {
    hide TablesAgree, PlayersAgree, AreSound, PeersStand, HavePositiveRooms, Admission.HasOneOwner, IsSoundConfig, IsKept, TransientsBacked;
    hide SessionsAgree, BulletPass, AfterTick, PeersAreActive, ActiveArePeers, AllStand, HaveDistinctPlayers, OwnersOf, IsBacked, CanRecord;
    hide AreOwned, AreWithin;
    var peers, m := s.lobby.tables.peers, s.matches;
    assert forall e :: e in order ==> e in peers;
    ContextsStand(peers, s.lobby.world, order, stands);
    BackedMeansOwned(s.lobby.world, m.matches);
    ContextRoomsHaveMatches(peers, m.matches, order);
    TickKeepsWorld(c, s, order, players, OwnersOf(m.matches), m.matches.Keys, stands);
    var kills := BulletPass(c, s, order).1;
    forall k | k in kills
      ensures CanRecord(m, k)
    {
      BackedKillIsRecordable(directory, s.lobby.tables, s.lobby.accounts, m, order, k);
    }
    AllAreRecorded(m, kills);
  }

  lemma TickKeepsLobby(
      c: ServerConfig, directory: Admission.Directory, stands: Standing, s: Lobby, s': Lobby, order: seq<EndpointKey>)
    requires IsSoundLobby(directory, stands, s) && IsListing(order, s.tables.peers.Keys)
    requires s'.tables == Committed(s.tables) && s'.accounts == s.accounts
    requires s'.world.players.Keys == s.world.players.Keys && s'.world.nextPlayerId == s.world.nextPlayerId
    requires AreSound(s'.world.players) && AllStand(s'.world.players, ContextsOf(s.tables.peers, order), stands)
    ensures IsSoundLobby(directory, stands, s')
  {
    hide TablesAgree, PlayersAgree, AreSound, PeersStand, HavePositiveRooms, Admission.HasOneOwner, AllStand, Committed, SameFaces;
    CommittedFaces(s.tables);
    SameFacesTables(s.tables, s'.tables);
    SameFacesOwn(directory, s.tables, s'.tables, s.accounts);
    SameFacesAgree(s.tables.peers, s'.tables.peers, s.world, s'.world);
    StandingContextsMeanStandingPeers(s.tables.peers, s'.world.players, order, stands);
    SameFacesStand(s.tables.peers, s'.tables.peers, s'.world.players, stands);
  }

  lemma SameFacesStand(peers: PeerTable, peers': PeerTable, players: PlayerTable, stands: Standing)
    requires PeersStand(peers, players, stands) && SameFaces(peers, peers')
    ensures PeersStand(peers', players, stands)
  {
  }

  lemma TickKeeps(
      c: ServerConfig, directory: Admission.Directory, stands: Standing, s: ServerState, order: seq<EndpointKey>,
      players: seq<PlayerId>)
    requires IsSoundConfig(c, stands) && IsSoundState(directory, stands, s) && IsListing(order, s.lobby.tables.peers.Keys)
    ensures IsSoundState(directory, stands, AfterTick(c, s, order, players))
  {
    hide AreSound, AllStand, IsSoundConfig, IsSoundLobby, IsKept, TransientsBacked, SessionsAgree, MatchesAgree, OwnersOf, AreOwned, AreWithin;
    hide BulletPass, Respawned, TimersUpdated, Committed, SamePlayers, SameFaces, SameConnections;
    var s', kills := AfterTick(c, s, order, players), BulletPass(c, s, order).1;
    TickRecordsEveryKill(c, directory, stands, s, order, players);
    TickKeepsLobby(c, directory, stands, s.lobby, s'.lobby, order);
    RecordingKeeps(s.matches, kills);
    CommittedFaces(s.lobby.tables);
    SameConnectionsAgree(s.lobby.tables.peers, s'.lobby.tables.peers, s.sessions);
    SameFacesMatch(s.lobby.tables.peers, s'.lobby.tables.peers, s.matches.matches);
    SamePlayersMatch(s'.lobby.tables.peers, s.matches, s'.matches);
    SamePlayersOwn(s.matches, s'.matches);
    BackedMeansOwned(s'.lobby.world, s'.matches.matches);
    SameMatchKeys(s.matches, s'.matches);
  }

  lemma SameMatchKeys(m: MatchState, m': MatchState)
    requires SamePlayers(m, m')
    ensures m'.matches.Keys == m.matches.Keys
  {
  }

  // The remaining steps.

  lemma RegistryStepKeeps(
      mac: Auth.Authenticator, directory: Admission.Directory, stands: Standing, s: ServerState, event: Registry.Event)
    requires IsSoundState(directory, stands, s) && (event.Authenticate? || event.Receive? || event.Resend?)
    ensures IsSoundState(directory, stands, s.(sessions := Registry.After(mac, s.sessions, event)))
  {
    hide IsSoundLobby, IsKept, TransientsBacked, MatchesAgree, Registry.After, ClosesOnly;
    RegistryStepsCloseOnly(mac, s.sessions, event);
    ClosingKeepsSessionsAgreed(s.lobby.tables.peers, s.sessions, Registry.After(mac, s.sessions, event));
  }

  lemma EffectsMayGo(directory: Admission.Directory, stands: Standing, s: ServerState)
    requires IsSoundState(directory, stands, s)
    ensures IsSoundState(directory, stands, s.(lobby := s.lobby.(world := s.lobby.world.(effects := []))))
  {
    hide IsKept, SessionsAgree, MatchesAgree, SameFaces, SameBodies, TransientsBacked, SameConnections;
    var lobby := s.lobby.(world := s.lobby.world.(effects := []));
    TouchesNothing(s.lobby, lobby);
    FewerEffectsAreBacked(s.lobby.world, s.matches.matches);
    TouchKeepsState(directory, stands, s, lobby);
  }

  lemma TouchesNothing(s: Lobby, s': Lobby)
    requires s'.tables == s.tables && s'.accounts == s.accounts && s'.world.players == s.world.players && s'.world.nextPlayerId == s.world.nextPlayerId
    ensures IsTouched(s, s') && SameConnections(s.tables.peers, s'.tables.peers)
  {
  }

  lemma FewerEffectsAreBacked(w: World, matches: ActiveMatchTable)
    requires TransientsBacked(w, matches)
    ensures TransientsBacked(w.(effects := []), matches)
  {
  }

  lemma EmptyStateIsSound(directory: Admission.Directory, stands: Standing, m: MatchState)
    requires IsKept(m) && m.matches == map[]
    ensures IsSoundState(directory, stands, ServerState(EMPTY_LOBBY, Registry.EMPTY_REGISTRY, m))
  {
    hide IsKept;
  }

  lemma CompletedMayGo(m: MatchState)
    requires IsKept(m)
    ensures IsKept(m.(completed := []))
  {
  }

  /** Stopping keeps agreement exactly when it completes the matches or there are none. */
  lemma StopKeepsIff(directory: Admission.Directory, stands: Standing, s: ServerState, wasRunning: bool, order: seq<RoomId>, systemNow: int)
    requires IsSoundState(directory, stands, s) && forall r :: r in order ==> r in s.matches.matches
    ensures IsSoundState(directory, stands, AfterStop(s, wasRunning, order, systemNow)) <==> StopsInOrder(s, wasRunning)
  {
    hide IsSoundLobby, IsKept, TransientsBacked, SessionsAgree;
    if wasRunning {
      CompletionKeeps(s.matches, order, systemNow);
      EmptyStateIsSound(directory, stands, AllCompleted(s.matches, order, systemNow));
    } else if s.lobby.tables.peers == map[] {
      assert s.matches.matches == map[] by {
        if r :| r in s.matches.matches {
          var e := MemberOfMatch(s.lobby.tables.peers, s.matches.matches, r);
        }
      }
      EmptyStateIsSound(directory, stands, s.matches);
    } else {
      var e :| e in s.lobby.tables.peers;
      assert s.lobby.tables.peers[e].roomId in s.matches.matches;
      if IsSoundState(directory, stands, AfterStop(s, wasRunning, order, systemNow)) {
        var f := MemberOfMatch(EMPTY_LOBBY.tables.peers, s.matches.matches, s.lobby.tables.peers[e].roomId);
      }
    }
  }

  lemma OtherStepKeeps(
      c: ServerConfig, mac: Auth.Authenticator, directory: Admission.Directory, stands: Standing, s: ServerState, event: Event)
    requires IsSoundState(directory, stands, s) && IsEnabled(c, directory, s, event)
    requires event.Resend? || event.Authenticate? || event.Receive? || event.BroadcastSnapshots? || event.ExtractCompleted? || event.Stop?
    ensures IsSoundState(directory, stands, After(c, mac, directory, s, event))
  {
    hide IsSoundLobby, IsKept, TransientsBacked, MatchesAgree, SessionsAgree;
    match event {
      case Resend(now) => RegistryStepKeeps(mac, directory, stands, s, Registry.Resend(now));
      case Authenticate(e, packet) => RegistryStepKeeps(mac, directory, stands, s, Registry.Authenticate(e, packet));
      case Receive(e, view) => RegistryStepKeeps(mac, directory, stands, s, Registry.Receive(e, view));
      case BroadcastSnapshots => EffectsMayGo(directory, stands, s);
      case ExtractCompleted => CompletedMayGo(s.matches);
      case Stop(wasRunning, order, systemNow) => StopKeepsIff(directory, stands, s, wasRunning, order, systemNow);
    }
  }

  /** Every step the outside may take keeps all tables in agreement. */
  lemma StepKeeps(
      c: ServerConfig, mac: Auth.Authenticator, directory: Admission.Directory, stands: Standing, s: ServerState, event: Event)
    requires IsSoundConfig(c, stands) && Admission.IsOneToOne(directory)
    requires IsSoundState(directory, stands, s) && IsEnabled(c, directory, s, event)
    ensures IsSoundState(directory, stands, After(c, mac, directory, s, event))
  {
    hide IsSoundConfig, IsSoundState, Admission.IsOneToOne, AfterTick, AfterTimeouts, AfterJoin, AfterDeparture, AfterChangeRoom, AfterAdmission;
    hide AfterStop, InputApplied, Fired, Refreshed, IsListing, IsRecoverableWith;
    if event.Login? {
      LoginKeeps(directory, stands, s, event);
    } else if event.Join? {
      JoinKeeps(c, directory, stands, s, event.endpoint, event.token, event.recoverable, event.now, event.systemNow);
    } else if event.Leave? {
      if IsJoinedPeer(s.lobby.tables, event.endpoint) {
        DepartureKeeps(directory, stands, s, event.endpoint, event.response, event.now, event.systemNow);
      }
    } else if event.Kick? {
      if event.kicked.Some? {
        DepartureKeeps(directory, stands, s, event.kicked.value, event.response, event.now, event.systemNow);
      }
    } else if event.ChangeRoom? {
      ChangeRoomKeeps(c, directory, stands, s, event.endpoint, event.next, event.response, event.now, event.systemNow);
    } else if event.Input? {
      InputKeeps(c, directory, stands, s, event);
    } else if event.Fire? {
      FireKeeps(c, directory, stands, s, event.endpoint, event.now);
    } else if event.KeepAlive? {
      RefreshKeeps(directory, stands, s, event.endpoint, event.now);
    } else if event.Tick? {
      TickKeeps(c, directory, stands, s, event.order, event.players);
    } else if event.Timeouts? {
      TimeoutsKeep(c, directory, stands, s, event.gone, event.now, event.systemNow);
    } else {
      OtherStepKeeps(c, mac, directory, stands, s, event);
    }
  }

  /** Exactly the orderly ones do: a step that finds its player id in use, or that stops a server which has peers as if it
      did not run, does not. */
  lemma StepKeepsIff(
      c: ServerConfig, mac: Auth.Authenticator, directory: Admission.Directory, stands: Standing, s: ServerState, event: Event)
    requires IsSoundConfig(c, stands) && Admission.IsOneToOne(directory)
    requires IsSoundState(directory, stands, s) && IsOffered(c, directory, s, event)
    ensures IsSoundState(directory, stands, After(c, mac, directory, s, event)) <==> IsOrderly(c, s, event)
  {
    hide IsSoundConfig, IsSoundState, Admission.IsOneToOne, After, IsOffered, FindsFreeId;
    if IsOrderly(c, s, event) {
      StepKeeps(c, mac, directory, stands, s, event);
    } else {
      DisorderlyStep(c, mac, directory, stands, s, event);
    }
  }

  lemma DisorderlyStep(
      c: ServerConfig, mac: Auth.Authenticator, directory: Admission.Directory, stands: Standing, s: ServerState, event: Event)
    requires IsSoundConfig(c, stands) && Admission.IsOneToOne(directory)
    requires IsSoundState(directory, stands, s) && IsOffered(c, directory, s, event) && !IsOrderly(c, s, event)
    ensures !IsSoundState(directory, stands, After(c, mac, directory, s, event))
  {
    hide IsSoundConfig, IsSoundState, Admission.IsOneToOne, AfterJoin, AfterStop, FindsFreeId, StopsInOrder, IsRecoverableWith;
    match event
    case Join(e, token, recoverable, now, systemNow) =>
      JoinKeepsIff(c, directory, stands, s, e, token, recoverable, now, systemNow);
    case Stop(wasRunning, order, systemNow) =>
      StopKeepsIff(directory, stands, s, wasRunning, order, systemNow);
    case _ =>
  }

  // Every run.

  /** The states of the server from its start through these events. */
  ghost predicate IsRun(
      c: ServerConfig, mac: Auth.Authenticator, directory: Admission.Directory, states: seq<ServerState>, events: seq<Event>) {
    && |states| == |events| + 1 && states[0] == INITIAL_STATE
    && forall i :: 0 <= i < |events| ==>
         IsEnabled(c, directory, states[i], events[i]) && states[i + 1] == After(c, mac, directory, states[i], events[i])
  }

  lemma InitialStateIsSound(directory: Admission.Directory, stands: Standing)
    ensures IsSoundState(directory, stands, INITIAL_STATE)
  {
    hide IsSoundState;
    assert IsKept(NO_MATCHES);
    EmptyStateIsSound(directory, stands, NO_MATCHES);
  }

  /** In every reachable state all tables agree: rooms with peers, players with peers, accounts with at most one
      owner, matches with rooms and their kills with their deaths, bullets with matches, and sessions with connections. */
  lemma {:induction false} EveryRunIsSound(
      c: ServerConfig, mac: Auth.Authenticator, directory: Admission.Directory, stands: Standing, states: seq<ServerState>, events: seq<Event>, n: nat)
    requires IsSoundConfig(c, stands) && Admission.IsOneToOne(directory) && IsRun(c, mac, directory, states, events) && n < |states|
    ensures IsSoundState(directory, stands, states[n])
  {
    hide IsSoundState, IsSoundConfig, Admission.IsOneToOne, After, IsOffered, IsOrderly;
    if n == 0 {
      InitialStateIsSound(directory, stands);
    } else {
      EveryRunIsSound(c, mac, directory, stands, states, events, n - 1);
      StepKeeps(c, mac, directory, stands, states[n - 1], events[n - 1]);
      assert states[n] == After(c, mac, directory, states[n - 1], events[n - 1]);
    }
  }

  // What it means.

  /** In every run, each tick's kills are all recorded, and in every match, active or completed, kills equal deaths. */
  lemma EveryKillIsRecorded(
      c: ServerConfig, mac: Auth.Authenticator, directory: Admission.Directory, stands: Standing, states: seq<ServerState>, events: seq<Event>, n: nat)
    requires IsSoundConfig(c, stands) && Admission.IsOneToOne(directory) && IsRun(c, mac, directory, states, events) && n < |events|
    ensures events[n].Tick? ==> RecordedKillCount(c, states[n], events[n].order) == |BulletPass(c, states[n], events[n].order).1|
    ensures forall r :: r in states[n].matches.matches ==> IsBalanced(states[n].matches.matches[r].playerStatsTable)
    ensures forall m :: m in states[n].matches.completed ==> KillTotal(m.playerStatsList) == DeathTotal(m.playerStatsList)
  {
    hide IsSoundConfig, Admission.IsOneToOne, IsSoundLobby, MatchesAgree, TransientsBacked, SessionsAgree, IsBalanced, KillTotal, DeathTotal;
    hide RecordedKillCount, BulletPass, After;
    EveryRunIsSound(c, mac, directory, stands, states, events, n);
    if events[n].Tick? {
      TickRecordsEveryKill(c, directory, stands, states[n], events[n].order, events[n].players);
    }
  }

  /** The match history never refuses: not a joining player, not a leaving, kicked or expiring one, and not one that changes rooms. */
  lemma MatchHistoryNeverRefuses(
      c: ServerConfig, mac: Auth.Authenticator, directory: Admission.Directory, stands: Standing, states: seq<ServerState>, events: seq<Event>, n: nat)
    requires IsSoundConfig(c, stands) && Admission.IsOneToOne(directory) && IsRun(c, mac, directory, states, events) && n < |events|
    ensures var s, m, peers := states[n], states[n].matches, states[n].lobby.tables.peers;
            match events[n]
            case Join(e, token, recoverable, now, _) =>
              var o := JoinOutcomeOf(c, s, e, token, recoverable, now);
              o.status == Joined ==> CanEnter(m, o.result.roomId, o.result.persistentPlayerId)
            case Leave(e, _, _, _) => IsJoinedPeer(s.lobby.tables, e) ==> CanLeave(m, peers[e].roomId, peers[e].persistentPlayerId)
            case Kick(_, Some(e), _, _, _) => CanLeave(m, peers[e].roomId, peers[e].persistentPlayerId)
            case ChangeRoom(e, next, _, _, systemNow) =>
              MayChangeRoom(s.lobby, e, next) ==>
                && CanLeave(m, peers[e].roomId, peers[e].persistentPlayerId)
                && CanEnter(Left(m, peers[e].roomId, peers[e].persistentPlayerId, systemNow), next, peers[e].persistentPlayerId)
            case Timeouts(gone, now, systemNow) =>
              AllCanLeave(m, MarkedRecoverable(s.lobby.tables, now, c.peerTimeout).peers, gone, systemNow)
            case _ => true
  {
    hide IsSoundConfig, Admission.IsOneToOne, IsSoundState, CanEnter, CanLeave, Left, AllCanLeave, MayChangeRoom, After, JoinAuthenticated;
    var s := states[n];
    EveryRunIsSound(c, mac, directory, stands, states, events, n);
    match events[n] {
      case Join(e, token, recoverable, now, _) => JoinEntersMatch(c, directory, stands, s, e, token, recoverable, now);
      case Leave(e, response, now, systemNow) =>
        if IsJoinedPeer(s.lobby.tables, e) {
          DepartureKeeps(directory, stands, s, e, response, now, systemNow);
        }
      case Kick(_, Some(e), response, now, systemNow) => DepartureKeeps(directory, stands, s, e, response, now, systemNow);
      case ChangeRoom(e, next, response, now, systemNow) => ChangeRoomKeeps(c, directory, stands, s, e, next, response, now, systemNow);
      case Timeouts(gone, now, systemNow) => TimeoutsKeep(c, directory, stands, s, gone, now, systemNow);
      case _ =>
    }
  }

  /** In the game's own rooms every player of every reachable state is inside the world and clear of the walls of its room. */
  lemma PlayersStandInTheirRooms(
      c: ServerConfig, mac: Auth.Authenticator, directory: Admission.Directory, directions: Directions, states: seq<ServerState>, events: seq<Event>, n: nat, e: EndpointKey)
    requires c.arena == GameArena(directions) && c.initialRoomId.value > 0 && c.gameRule.initialPlayerHp > 0
    requires Admission.IsOneToOne(directory) && IsRun(c, mac, directory, states, events)
    requires n < |states| && e in states[n].lobby.tables.peers
    ensures var peer := states[n].lobby.tables.peers[e];
            peer.playerId in states[n].lobby.world.players && StandsInRoom(states[n].lobby.world.players[peer.playerId].position, peer.roomId)
  {
    hide GameArena, StandsInRoom, KeepsStanding, IsRun, Admission.IsOneToOne;
    hide MatchesAgree, TransientsBacked, SessionsAgree, IsKept, TablesAgree, Admission.HasOneOwner, AreSound, HavePositiveRooms;
    GameArenaKeepsStanding(directions);
    EveryRunIsSound(c, mac, directory, StandsInRoom, states, events, n);
  }

  /** In every reachable state each peer sits under its own endpoint, the rooms are exactly those of peers with exactly those peers
      as members, and the players of the world are exactly those of peers, one each. */
  lemma PeersRoomsAndPlayersAgree(
      c: ServerConfig, mac: Auth.Authenticator, directory: Admission.Directory, stands: Standing, states: seq<ServerState>, events: seq<Event>, n: nat)
    requires IsSoundConfig(c, stands) && Admission.IsOneToOne(directory) && IsRun(c, mac, directory, states, events) && n < |states|
    ensures var peers, rooms, players := states[n].lobby.tables.peers, states[n].lobby.tables.rooms, states[n].lobby.world.players;
            && (forall e :: e in peers ==> peers[e].endpointKey == e && peers[e].roomId in rooms)
            && (forall r :: r in rooms ==> rooms[r] != {} && rooms[r] == set e | e in peers && peers[e].roomId == r)
            && players.Keys == (set e | e in peers :: peers[e].playerId)
            && forall e, f :: e in peers && f in peers && peers[e].playerId == peers[f].playerId ==> e == f
  {
    hide IsSoundConfig, Admission.IsOneToOne, IsRun, IsKept, SessionsAgree, PeersStand, AreSound, Admission.HasOneOwner, MatchesAgree, TransientsBacked;
    EveryRunIsSound(c, mac, directory, stands, states, events, n);
    var peers, players := states[n].lobby.tables.peers, states[n].lobby.world.players;
    forall id | id in players
      ensures id in set e | e in peers :: peers[e].playerId
    {
      var e :| e in peers && peers[e].playerId == id;
    }
  }

  /** In every reachable state a room has an active match exactly while it has peers, and the match's active players
      are exactly the persistent players of those peers. */
  lemma ActivePlayersAreTheRoomsPeers(
      c: ServerConfig, mac: Auth.Authenticator, directory: Admission.Directory, stands: Standing, states: seq<ServerState>, events: seq<Event>, n: nat, r: RoomId)
    requires IsSoundConfig(c, stands) && Admission.IsOneToOne(directory) && IsRun(c, mac, directory, states, events) && n < |states|
    ensures var peers, matches := states[n].lobby.tables.peers, states[n].matches.matches;
            && (r in matches <==> exists e :: e in peers && peers[e].roomId == r)
            && (r in matches ==> matches[r].activePlayerSet == set e | e in peers && peers[e].roomId == r :: peers[e].persistentPlayerId)
  {
    hide IsSoundConfig, Admission.IsOneToOne, IsRun, IsSoundLobby, IsKept, TransientsBacked, SessionsAgree;
    EveryRunIsSound(c, mac, directory, stands, states, events, n);
    var peers, matches := states[n].lobby.tables.peers, states[n].matches.matches;
    if r in matches {
      var e := MemberOfMatch(peers, matches, r);
      forall id | id in matches[r].activePlayerSet
        ensures id in set e | e in peers && peers[e].roomId == r :: peers[e].persistentPlayerId
      {
        assert HasMember(peers, r, id);
      }
    }
  }

  /** In every reachable state the sessions that are not closing are exactly those of connected peers, under the peers' tokens,
      and every closing endpoint has a session. */
  lemma SessionsAreThoseOfConnectedPeers(
      c: ServerConfig, mac: Auth.Authenticator, directory: Admission.Directory, stands: Standing, states: seq<ServerState>, events: seq<Event>, n: nat, e: EndpointKey)
    requires IsSoundConfig(c, stands) && Admission.IsOneToOne(directory) && IsRun(c, mac, directory, states, events) && n < |states|
    ensures var peers, r := states[n].lobby.tables.peers, states[n].sessions;
            && (e in r.sessions && e !in r.closing <==> e in peers && peers[e].connectionState == Connected)
            && (e in r.sessions && e !in r.closing ==> r.sessions[e].sessionToken == peers[e].sessionToken)
            && (e in r.closing ==> e in r.sessions)
  {
    hide IsSoundConfig, Admission.IsOneToOne, IsRun, IsSoundLobby, IsKept, TransientsBacked, MatchesAgree;
    EveryRunIsSound(c, mac, directory, stands, states, events, n);
  }

  /** In every reachable state an account is held by at most one peer or one waiting login, never by both. */
  lemma NoAccountHasTwoOwners(
      c: ServerConfig, mac: Auth.Authenticator, directory: Admission.Directory, stands: Standing, states: seq<ServerState>, events: seq<Event>, n: nat,
      e: EndpointKey, f: EndpointKey)
    requires IsSoundConfig(c, stands) && Admission.IsOneToOne(directory) && IsRun(c, mac, directory, states, events) && n < |states|
    ensures var peers, accounts := states[n].lobby.tables.peers, states[n].lobby.accounts;
            && (e in peers && f in peers && e != f ==> peers[e].accountId != peers[f].accountId)
            && (e in accounts && f in accounts && e != f ==> accounts[e].accountId != accounts[f].accountId)
            && (e in peers && f in accounts ==> peers[e].accountId != accounts[f].accountId)
  {
    hide IsSoundConfig, Admission.IsOneToOne, IsRun, IsKept, TransientsBacked, MatchesAgree, SessionsAgree, TablesAgree, PlayersAgree, PeersStand, AreSound;
    EveryRunIsSound(c, mac, directory, stands, states, events, n);
  }

  /** In every reachable state each bullet and each pending effect is in a room with at least one peer, and the bullet's owner
      has stats in the room's match. */
  lemma BulletsBelongToLiveRooms(
      c: ServerConfig, mac: Auth.Authenticator, directory: Admission.Directory, stands: Standing, states: seq<ServerState>, events: seq<Event>, n: nat)
    requires IsSoundConfig(c, stands) && Admission.IsOneToOne(directory) && IsRun(c, mac, directory, states, events) && n < |states|
    ensures var t, w, matches := states[n].lobby.tables, states[n].lobby.world, states[n].matches.matches;
            && (forall b :: b in w.bullets ==>
                  b.roomId in t.rooms && b.roomId in matches && b.ownerPersistentPlayerId in matches[b.roomId].playerStatsTable)
            && forall x :: x in w.effects ==> x.roomId in t.rooms
  {
    hide IsSoundConfig, Admission.IsOneToOne, IsRun, IsKept, SessionsAgree, PlayersAgree, PeersStand, AreSound, Admission.HasOneOwner, MatchesAgree;
    EveryRunIsSound(c, mac, directory, stands, states, events, n);
    var t, w, matches := states[n].lobby.tables, states[n].lobby.world, states[n].matches.matches;
    forall r | r in matches
      ensures r in t.rooms
    {
      var e := MemberOfMatch(t.peers, matches, r);
    }
  }
}
