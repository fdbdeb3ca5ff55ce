// The locked sections of the server over its live tables (Server/Net/UdpServer.cpp). Each is one step of
// the state machine, finds all tables in agreement, leaves them so, and reports the event it was.

module UdpServer {
  import opened GameIds
  import opened SequenceNumber
  import opened SessionToken
  import opened PacketWire
  import opened RoomLayout
  import opened GameWorld
  import opened GameSimulation
  import opened GameSimulationLoops
  import opened Arena
  import opened PeerRoomManager
  import opened MatchHistoryTracker
  import opened PeerSessionService
  import opened PlayerCommandService
  import opened PeerServices
  import opened AuthenticatedAccountRegistry
  import opened UdpServerModel
  import opened UdpServerInvariants
  import opened UdpServerRequests
  import opened UdpServerDepartures
  import opened UdpServerRuns
  import opened Wrappers
  import ReliableUdpPacket
  import Admission = AccountLoginAdmissionService
  import Auth = AuthenticatedUdpPacket
  import Registry = ReliableUdpSessionRegistry

  datatype KickPlayerResult = KickPlayerResult(kicked: bool, disconnectNotificationQueued: bool, playerId: PlayerId, roomId: RoomId)

  const NOT_KICKED := KickPlayerResult(false, false, PlayerId(0), RoomId(0))

  class UdpServer {
    const config: ServerConfig
    const directions: Directions
    const mac: Auth.Authenticator
    ghost const directory: Admission.Directory

    const authenticatedAccountRegistry: AuthenticatedAccountRegistry
    const reliableUdpSessionRegistry: Registry.ReliableUdpSessionRegistry
    const peerRoomManager: PeerRoomManager
    const matchHistoryTracker: MatchHistoryTracker
    const gameWorld: GameWorld

    function View(): ServerState
      reads authenticatedAccountRegistry, reliableUdpSessionRegistry, peerRoomManager, matchHistoryTracker
      reads gameWorld, gameWorld.bulletStatePool, gameWorld.pendingImpactEffectStatePool
    {
      ServerState(
        LobbyOf(peerRoomManager, gameWorld, authenticatedAccountRegistry.accountTable),
        reliableUdpSessionRegistry.View(),
        matchHistoryTracker.View())
    }

    ghost function Footprint(): set<object> {
      {authenticatedAccountRegistry, reliableUdpSessionRegistry, peerRoomManager, matchHistoryTracker} + gameWorld.Footprint()
    }

    /** The configuration is a validated one for the game's rooms, accounts are one-to-one with players, and all tables agree. */
    ghost predicate Valid()
      reads Footprint()
    {
      && gameWorld.Valid() && matchHistoryTracker.Valid()
      && config.arena == GameArena(directions) && IsSoundConfig(config, StandsInRoom) && Admission.IsOneToOne(directory)
      && IsSoundState(directory, StandsInRoom, View())
    }

    /** What every section guarantees: it was one enabled step. */
    twostate predicate IsStep(event: Event)
      reads Footprint()
    {
      && IsEnabled(config, directory, old(View()), event)
      && View() == After(config, mac, directory, old(View()), event)
    }

    constructor (config: ServerConfig, directions: Directions, mac: Auth.Authenticator, ghost directory: Admission.Directory)
      requires config.initialRoomId.value > 0 && config.gameRule.initialPlayerHp > 0 && config.arena == GameArena(directions)
      requires Admission.IsOneToOne(directory)
      ensures Valid() && fresh(Footprint()) && View() == INITIAL_STATE
    {
      hide IsSoundState, GameArena, KeepsStanding, StandsInRoom, Admission.IsOneToOne, After;
      GameArenaKeepsStanding(directions);
      InitialStateIsSound(directory, StandsInRoom);
      this.config, this.directions, this.mac, this.directory := config, directions, mac, directory;
      authenticatedAccountRegistry := new AuthenticatedAccountRegistry();
      reliableUdpSessionRegistry := new Registry.ReliableUdpSessionRegistry();
      peerRoomManager := new PeerRoomManager();
      matchHistoryTracker := new MatchHistoryTracker();
      gameWorld := new GameWorld();
    }

    method ApplyLogin(
        request: Admission.Request, drawn: Option<SessionToken>) returns (result: Admission.Result, ghost event: Event)
      requires Valid() && request.persistentPlayerId == directory(request.accountId)
      modifies authenticatedAccountRegistry
      ensures Valid() && IsStep(event) && event.Login? && event == Login(request, drawn, event.holder)
      ensures result == Admission.Applied(request, drawn, event.holder, old(View()).lobby.accounts, old(View()).lobby.tables).1
    {
      hide IsSoundState, IsSoundConfig, GameArena, Admission.IsOneToOne, After, Admission.Applied, IsEndpointOf;
      ghost var before, holder := View(), None;
      result, holder := PeerServices.ApplyLogin(request, drawn, authenticatedAccountRegistry, peerRoomManager);
      event := Login(request, drawn, holder);
      SectionIsStep(config, mac, directory, before, event);
      StepKeeps(config, mac, directory, StandsInRoom, before, event);
    }

    /** The match history lets every joining player in. The server stays in order, and this was one enabled step, exactly
        when a fresh player finds its id free. */
    method ProcessJoinRequest(endpointKey: EndpointKey, sessionToken: SessionToken, now: int, systemNow: int)
      returns (status: JoinStatus, joinResult: JoinResult, matchHistoryEntered: bool, ghost event: Event)
      requires Valid()
      modifies Footprint()
      ensures event.Join? && event == Join(endpointKey, sessionToken, event.recoverable, now, systemNow)
      ensures IsOffered(config, directory, old(View()), event)
      ensures View() == After(config, mac, directory, old(View()), event)
      ensures Valid() <==> FindsFreeId(config, old(View()), endpointKey, sessionToken, event.recoverable, now)
      ensures Valid() ==> IsStep(event)
      ensures var o := JoinOutcomeOf(config, old(View()), endpointKey, sessionToken, event.recoverable, now);
              status == o.status && joinResult == o.result
      ensures matchHistoryEntered
    {
      hide IsSoundState, IsSoundConfig, GameArena, Admission.IsOneToOne, After, FindsFreeId;
      hide JoinAuthenticated, IsRecoverableWith, Entered, CanEnter, Registry.AfterUpsert;
      ghost var before, recoverable := View(), None;
      matchHistoryEntered := true;
      status, joinResult, recoverable := JoinAuthenticatedPeer(
        endpointKey, sessionToken, config.initialRoomId, authenticatedAccountRegistry, peerRoomManager, gameWorld, config.gameRule, config.arena, now);
      event := Join(endpointKey, sessionToken, recoverable, now, systemNow);
      SectionIsStep(config, mac, directory, before, event);
      JoinEntersMatch(config, directory, StandsInRoom, before, endpointKey, sessionToken, recoverable, now);
      JoinKeepsIff(config, directory, StandsInRoom, before, endpointKey, sessionToken, recoverable, now, systemNow);
      if status == Joined || status == Recovered {
        reliableUdpSessionRegistry.Upsert(endpointKey, config.reliableUdp, sessionToken);
      }
      if status == Joined {
        matchHistoryEntered := matchHistoryTracker.EnterPlayer(joinResult.roomId, joinResult.persistentPlayerId, systemNow);
      }
      assert View() == AfterJoin(config, before, endpointKey, sessionToken, recoverable, now, systemNow);
    }

    /** The last reliable packet is queued and the session closes behind it, or is removed if that fails. */
    method CloseSession(endpointKey: EndpointKey, response: Option<Bytes>, now: int) returns (queued: bool)
      modifies reliableUdpSessionRegistry
      ensures reliableUdpSessionRegistry.View() == ClosedSession(old(reliableUdpSessionRegistry.View()), endpointKey, response, now)
    {
      hide Registry.AfterBuild;
      if response.Some? {
        var outcome := reliableUdpSessionRegistry.BuildOutgoingPacket(endpointKey, response.value, now);
        if outcome.Built? {
          var begun := reliableUdpSessionRegistry.BeginClose(endpointKey);
          return true;
        }
      }
      var removed := reliableUdpSessionRegistry.Remove(endpointKey);
      return false;
    }

    /** A joined peer's departure, shared by leaving and kicking. */
    method Depart(endpointKey: EndpointKey, response: Option<Bytes>, now: int, systemNow: int)
      returns (left: PeerState, matchHistoryLeft: bool, queued: bool)
      requires Valid() && IsJoinedPeer(View().lobby.tables, endpointKey)
      modifies Footprint()
      ensures Valid() && View() == AfterDeparture(old(View()), endpointKey, response, now, systemNow)
      ensures left == old(View()).lobby.tables.peers[endpointKey] && matchHistoryLeft
    {
      hide IsSoundState, IsSoundConfig, GameArena, Admission.IsOneToOne, After, LeftPeer, Left, CanLeave, ClosedSession;
      ghost var before := View();
      DepartureKeeps(directory, StandsInRoom, before, endpointKey, response, now, systemNow);
      var leaveResult := LeavePeer(endpointKey, peerRoomManager, gameWorld, authenticatedAccountRegistry.accountTable);
      left := leaveResult.value;
      matchHistoryLeft := matchHistoryTracker.LeavePlayer(left.roomId, left.persistentPlayerId, systemNow);
      queued := CloseSession(endpointKey, response, now);
      LeftKeepsAccounts(before.lobby, endpointKey);
      assert View() == AfterDeparture(before, endpointKey, response, now, systemNow);
    }

    lemma LeftKeepsAccounts(s: Lobby, e: EndpointKey)
      requires IsJoinedPeer(s.tables, e)
      ensures LeftPeer(s, e).accounts == s.accounts
    {
    }

    /** The match history lets every leaving player go. */
    method ProcessLeaveRequest(endpointKey: EndpointKey, response: Option<Bytes>, now: int, systemNow: int)
      returns (left: Option<PeerState>, matchHistoryLeft: bool, ghost event: Event)
      requires Valid()
      modifies Footprint()
      ensures Valid() && IsStep(event) && event == Leave(endpointKey, response, now, systemNow)
      ensures matchHistoryLeft
    {
      hide IsSoundState, IsSoundConfig, GameArena, Admission.IsOneToOne, After, AfterDeparture;
      event := Leave(endpointKey, response, now, systemNow);
      SectionIsStep(config, mac, directory, View(), event);
      matchHistoryLeft, left := true, None;
      var peerState := peerRoomManager.FindJoinedPeer(endpointKey);
      if peerState.Some? {
        var leaving, queued;
        leaving, matchHistoryLeft, queued := Depart(endpointKey, response, now, systemNow);
        left := Some(leaving);
      }
    }

    method KickPlayer(playerId: PlayerId, response: Option<Bytes>, now: int, systemNow: int)
      returns (result: KickPlayerResult, matchHistoryLeft: bool, ghost event: Event)
      requires Valid()
      modifies Footprint()
      ensures Valid() && IsStep(event) && event.Kick? && event == Kick(playerId, event.kicked, response, now, systemNow)
      ensures matchHistoryLeft
      ensures result.kicked <==> playerId != PlayerId(0) && event.kicked.Some?
      ensures result.kicked ==> result.playerId == playerId
    {
      hide IsSoundState, IsSoundConfig, GameArena, Admission.IsOneToOne, After, AfterDeparture;
      matchHistoryLeft, result := true, NOT_KICKED;
      var found := peerRoomManager.FindJoinedPeerByPlayerId(playerId);
      event := Kick(playerId, found, response, now, systemNow);
      SectionIsStep(config, mac, directory, View(), event);
      if playerId == PlayerId(0) || found.None? {
        return;
      }
      var left, queued;
      left, matchHistoryLeft, queued := Depart(found.value, response, now, systemNow);
      result := KickPlayerResult(true, queued, left.playerId, left.roomId);
    }

    method ProcessJoinRoomRequest(endpointKey: EndpointKey, nextRoomId: RoomId, response: Option<Bytes>, now: int, systemNow: int)
      returns (changed: bool, previousMatchLeft: bool, nextMatchEntered: bool, ghost event: Event)
      requires Valid()
      modifies Footprint()
      ensures Valid() && IsStep(event) && event == ChangeRoom(endpointKey, nextRoomId, response, now, systemNow)
      ensures changed == MayChangeRoom(old(View()).lobby, endpointKey, nextRoomId)
      ensures previousMatchLeft && nextMatchEntered
    {
      hide IsSoundState, IsSoundConfig, GameArena, Admission.IsOneToOne, After, MayChangeRoom, ChangedRoom, Left, Entered, CanLeave, CanEnter, Registry.AfterBuild;
      ghost var before := View();
      event := ChangeRoom(endpointKey, nextRoomId, response, now, systemNow);
      SectionIsStep(config, mac, directory, before, event);
      previousMatchLeft, nextMatchEntered := true, true;
      ChangeRoomKeeps(config, directory, StandsInRoom, before, endpointKey, nextRoomId, response, now, systemNow);
      var found := peerRoomManager.FindJoinedPeer(endpointKey);
      changed := ChangePeerRoom(endpointKey, nextRoomId, peerRoomManager, gameWorld, config.arena, now, authenticatedAccountRegistry.accountTable);
      if changed {
        ChangingNeedsPeer(before.lobby, endpointKey, nextRoomId);
        ChangedKeepsAccounts(before.lobby, endpointKey, nextRoomId, config.arena, now);
        previousMatchLeft := matchHistoryTracker.LeavePlayer(found.value.roomId, found.value.persistentPlayerId, systemNow);
        nextMatchEntered := matchHistoryTracker.EnterPlayer(nextRoomId, found.value.persistentPlayerId, systemNow);
        if response.Some? {
          var outcome := reliableUdpSessionRegistry.BuildOutgoingPacket(endpointKey, response.value, now);
        }
      }
      assert View() == AfterChangeRoom(config, before, endpointKey, nextRoomId, response, now, systemNow);
    }

    lemma ChangingNeedsPeer(s: Lobby, e: EndpointKey, next: RoomId)
      requires MayChangeRoom(s, e, next)
      ensures IsJoinedPeer(s.tables, e)
    {
    }

    lemma ChangedKeepsAccounts(s: Lobby, e: EndpointKey, next: RoomId, arena: Arena, now: int)
      requires MayChangeRoom(s, e, next)
      ensures ChangedRoom(s, e, next, arena, now).accounts == s.accounts
    {
    }

    method ProcessInputCommand(endpointKey: EndpointKey, inputSequence: SequenceNumber, inputFlags: InputFlags, now: int)
      returns (applied: bool, ghost event: Event)
      requires Valid()
      modifies Footprint()
      ensures Valid() && IsStep(event) && event == Input(endpointKey, inputSequence, inputFlags, now)
    {
      hide IsSoundState, IsSoundConfig, GameArena, Admission.IsOneToOne, After, InputApplied;
      ghost var before := View();
      event := Input(endpointKey, inputSequence, inputFlags, now);
      SectionIsStep(config, mac, directory, before, event);
      applied := ApplyInputCommand(
        endpointKey, inputSequence, inputFlags, peerRoomManager, gameWorld, config.arena, now, authenticatedAccountRegistry.accountTable);
      InputKeepsAccounts(before.lobby, event, config.arena);
      StepKeeps(config, mac, directory, StandsInRoom, before, event);
    }

    lemma InputKeepsAccounts(s: Lobby, event: Event, arena: Arena)
      requires event.Input?
      ensures InputApplied(s, event.endpoint, event.sequence, event.flags, arena, event.now).accounts == s.accounts
    {
    }

    method ProcessFireRequest(endpointKey: EndpointKey, now: int) returns (fired: bool, ghost event: Event)
      requires Valid()
      modifies Footprint()
      ensures Valid() && IsStep(event) && event == Fire(endpointKey, now)
    {
      hide IsSoundState, IsSoundConfig, GameArena, Admission.IsOneToOne, After, Fired;
      ghost var before := View();
      event := Fire(endpointKey, now);
      SectionIsStep(config, mac, directory, before, event);
      fired := FireBullet(endpointKey, peerRoomManager, gameWorld, config.weaponRule, config.arena, now, authenticatedAccountRegistry.accountTable);
      FireKeepsAccounts(before.lobby, endpointKey, config, now);
      StepKeeps(config, mac, directory, StandsInRoom, before, event);
    }

    lemma FireKeepsAccounts(s: Lobby, e: EndpointKey, c: ServerConfig, now: int)
      ensures Fired(s, e, c.weaponRule, c.arena, now).accounts == s.accounts
    {
    }

    method HandleKeepAlive(endpointKey: EndpointKey, now: int) returns (ghost event: Event)
      requires Valid()
      modifies peerRoomManager
      ensures Valid() && IsStep(event) && event == KeepAlive(endpointKey, now)
    {
      hide IsSoundState, IsSoundConfig, GameArena, Admission.IsOneToOne, After, Refreshed;
      ghost var before := View();
      event := KeepAlive(endpointKey, now);
      SectionIsStep(config, mac, directory, before, event);
      var refreshed := peerRoomManager.RefreshRecvTime(endpointKey, now);
      StepKeeps(config, mac, directory, StandsInRoom, before, event);
    }

    /** The players of a tick, in the order of the peer table, reported as `order`. */
    method BuildPlayerSimulationContextList() returns (contexts: seq<PlayerSimulationContext>, ghost order: seq<EndpointKey>)
      requires TablesAgree(peerRoomManager.View())
      ensures IsListing(order, peerRoomManager.peerTable.Keys) && (forall e :: e in order ==> e in peerRoomManager.peerTable)
      ensures contexts == ContextsOf(peerRoomManager.peerTable, order)
    {
      contexts, order := [], [];
      var peers := peerRoomManager.peerTable;
      var unvisited := peers.Keys;
      while unvisited != {}
        invariant unvisited <= peers.Keys
        invariant forall e :: e in order <==> e in peers && e !in unvisited
        invariant forall i, j :: 0 <= i < j < |order| ==> order[i] != order[j]
        invariant |contexts| == |order|
        invariant forall i :: 0 <= i < |order| ==> order[i] in peers && contexts[i] == ContextOfPeer(peers[order[i]])
        decreases unvisited
      {
        var endpointKey :| endpointKey in unvisited;
        unvisited := unvisited - {endpointKey};
        var peerState := peers[endpointKey];
        if !peerState.isJoined {
          continue;
        }
        contexts := contexts + [PlayerSimulationContext(peerState.playerId, peerState.persistentPlayerId, peerState.roomId)];
        order := order + [endpointKey];
      }
    }

    /** The tick's simulation: players move, bullets fly, input is committed, the dead come back and timers run. */
    method Simulate(contexts: seq<PlayerSimulationContext>)
      returns (killEventList: seq<KillEvent>, ghost fought: World, ghost players: seq<PlayerId>)
      requires gameWorld.Valid() && config.arena == GameArena(directions)
      modifies peerRoomManager, gameWorld.Footprint()
      ensures var dt, moved := config.fixedDeltaSeconds, PlayersMoved(old(gameWorld.View()), contexts, config.fixedDeltaSeconds, config.arena);
              var timed := TimersUpdated(Respawned(fought, players, contexts, dt, config.gameRule, config.arena), dt);
              && (fought, killEventList) == BulletsUpdated(moved, 0, contexts, dt, config.gameRule, config.arena)
              && IsListing(players, fought.players.Keys)
              && gameWorld.View() == timed.(serverTick := NextId(timed.serverTick))
      ensures peerRoomManager.View() == Committed(old(peerRoomManager.View()))
    {
      hide GameArena, PlayersMoved, BulletsUpdated, Respawned, TimersUpdated, Committed, IsListing;
      var dt := config.fixedDeltaSeconds;
      UpdatePlayers(dt, contexts, gameWorld, directions);
      killEventList := UpdateBullets(dt, contexts, gameWorld, config.gameRule, directions);
      fought := gameWorld.View();
      peerRoomManager.CommitProcessedInputSequences();
      players := UpdateRespawns(dt, contexts, gameWorld, config.gameRule, directions);
      UpdatePlayerTimers(dt, gameWorld);
      gameWorld.AdvanceServerTick();
    }

    /** Every kill of the tick is recorded in the match history. */
    method UpdateGameTick() returns (killEventList: seq<KillEvent>, recordedKillCount: nat, ghost event: Event)
      requires Valid()
      modifies Footprint()
      ensures Valid() && IsStep(event) && event.Tick?
      ensures killEventList == KillsOf(config, old(View()), event.order) && recordedKillCount == |killEventList|
    {
      hide IsSoundConfig, GameArena, Admission.IsOneToOne, After, IsSoundState, AreFiled, IsListing;
      hide IsEndpointOf, IsRecoverableWith, IsPeerOf, Expired, MarkedRecoverable;
      hide PlayersMoved, BulletsUpdated, Respawned, TimersUpdated, Committed, RecordedAll, ContextsOf;
      ghost var before, order, fought, players := View(), [], EMPTY_WORLD, [];
      SoundTablesAgree(before);
      var contexts;
      contexts, order := BuildPlayerSimulationContextList();
      killEventList, fought, players := Simulate(contexts);
      assert (fought, killEventList) == BulletPass(config, before, order);
      recordedKillCount := matchHistoryTracker.RecordKills(killEventList);
      event := Tick(order, players);
      FoughtPlayers(before, order);
      SectionIsStep(config, mac, directory, before, event);
      assert View() == AfterTick(config, before, order, players);
      TickRecordsEveryKill(config, directory, StandsInRoom, before, order, players);
      TickKeeps(config, directory, StandsInRoom, before, order, players);
    }

    lemma SoundTablesAgree(s: ServerState)
      requires IsSoundState(directory, StandsInRoom, s)
      ensures TablesAgree(s.lobby.tables)
    {
      hide IsSoundConfig, MatchesAgree, IsKept, TransientsBacked, SessionsAgree, PlayersAgree, PeersStand, TablesAgree, AreSound, Admission.HasOneOwner;
    }

    /** The simulation keeps the same players. */
    lemma FoughtPlayers(s: ServerState, order: seq<EndpointKey>)
      requires IsSoundConfig(config, StandsInRoom) && IsSoundState(directory, StandsInRoom, s) && IsListing(order, s.lobby.tables.peers.Keys)
      requires forall e :: e in order ==> e in s.lobby.tables.peers
      ensures BulletPass(config, s, order).0.players.Keys == s.lobby.world.players.Keys
    {
      hide IsSoundConfig, MatchesAgree, IsKept, TransientsBacked, SessionsAgree, TablesAgree, HavePositiveRooms, AreSound, Admission.HasOneOwner;
      hide PlayersMoved, BulletsUpdated, AllStand, HaveDistinctPlayers, PlayersAgree, PeersStand, StandsInRoom, ContextsOf, KeepsStanding, IsListing;
      var w, contexts := s.lobby.world, ContextsOf(s.lobby.tables.peers, order);
      ContextsStand(s.lobby.tables.peers, w, order, StandsInRoom);
      assert contexts[..|contexts|] == contexts;
      assert KeepsStanding(config.arena, StandsInRoom) by {
        SoundConfigKeepsStanding();
      }
      MovesKeepStanding(w, contexts, |contexts|, config.fixedDeltaSeconds, config.arena, StandsInRoom);
      BulletPassIsAccountedFor(PlayersMoved(w, contexts, config.fixedDeltaSeconds, config.arena), 0, contexts,
                               config.fixedDeltaSeconds, config.gameRule, config.arena);
    }

    lemma SoundConfigKeepsStanding()
      requires IsSoundConfig(config, StandsInRoom)
      ensures KeepsStanding(config.arena, StandsInRoom)
    {
      hide KeepsStanding;
    }

    /** The lobby's part: peers marked and removed, waiting accounts forgotten. */
    method ExpireLobby(
        now: int) returns (recoverablePeerList: seq<EndpointKey>, expiredPeerList: seq<PeerState>, ghost gone: seq<EndpointKey>)
      requires gameWorld.Valid()
      modifies peerRoomManager, gameWorld.Footprint(), authenticatedAccountRegistry
      ensures IsListing(recoverablePeerList, TimedOut(old(View()).lobby.tables, now, config.peerTimeout))
      ensures var peers := MarkedRecoverable(old(View()).lobby.tables, now, config.peerTimeout).peers;
              && (forall e :: e in gone ==> e in peers) && peers.Keys == old(View()).lobby.tables.peers.Keys
              && |expiredPeerList| == |gone| && forall i :: 0 <= i < |gone| ==> gone[i] in peers && expiredPeerList[i] == peers[gone[i]]
      ensures IsListing(gone, Expired(MarkedRecoverable(old(View()).lobby.tables, now, config.peerTimeout), now, config.reconnectGracePeriod))
      ensures View().lobby == ExpiredRemoved(TimedOutMarked(old(View()).lobby, now, config.peerTimeout), gone).(
                                accounts := WithoutExpired(old(View()).lobby.accounts, now, config.peerTimeout))
    {
      hide MarkedRecoverable, TimedOut, Expired, ExpiredRemoved, TimedOutMarked, WithoutExpired, IsListing;
      ghost var before := View().lobby;
      MarkedTables(before, now, config.peerTimeout);
      recoverablePeerList := PeerServices.MarkTimedOutPeersRecoverable(now, config.peerTimeout, peerRoomManager, gameWorld, authenticatedAccountRegistry.accountTable);
      expiredPeerList, gone := PeerServices.RemoveExpiredRecoverablePeers(
        now, config.reconnectGracePeriod, peerRoomManager, gameWorld, authenticatedAccountRegistry.accountTable);
      var expiredAccountCount := authenticatedAccountRegistry.RemoveExpired(now, config.peerTimeout);
    }

    /** Marks, removes and forgets what timed out; no leaving of a match fails. */
    method ProcessPeerTimeouts(now: int, systemNow: int) returns (matchHistoryLeaveFailureCount: int, ghost event: Event)
      requires Valid()
      modifies Footprint()
      ensures Valid() && IsStep(event) && event.Timeouts? && event == Timeouts(event.gone, now, systemNow)
      ensures matchHistoryLeaveFailureCount == 0
    {
      hide IsSoundState, IsSoundConfig, GameArena, Admission.IsOneToOne, After, AreFiled;
      hide MarkedRecoverable, TimedOut, Expired, ExpiredRemoved, LeftAll, AllCanLeave, WithoutExpired, IsListing, WithoutSessions;
      ghost var before, gone := View(), [];
      MarkedTables(before.lobby, now, config.peerTimeout);
      var recoverablePeerList, expiredPeerList;
      recoverablePeerList, expiredPeerList, gone := ExpireLobby(now);
      event := Timeouts(gone, now, systemNow);
      SectionIsStep(config, mac, directory, before, event);
      TimeoutsKeep(config, directory, StandsInRoom, before, gone, now, systemNow);
      RemoveSessions(recoverablePeerList, TimedOut(before.lobby.tables, now, config.peerTimeout));
      matchHistoryLeaveFailureCount := LeaveMatches(
        expiredPeerList, MarkedRecoverable(before.lobby.tables, now, config.peerTimeout).peers, gone, systemNow);
      assert View() == AfterTimeouts(config, before, gone, now, systemNow);
    }

    lemma MarkedTables(s: Lobby, now: int, timeout: int)
      ensures TimedOutMarked(s, now, timeout).tables == MarkedRecoverable(s.tables, now, timeout)
      ensures MarkedRecoverable(s.tables, now, timeout).peers.Keys == s.tables.peers.Keys
    {
    }

    method RemoveSessions(endpoints: seq<EndpointKey>, ghost gone: set<EndpointKey>)
      requires IsListing(endpoints, gone)
      modifies reliableUdpSessionRegistry
      ensures reliableUdpSessionRegistry.View() == WithoutSessions(old(reliableUdpSessionRegistry.View()), gone)
    {
      ghost var before, visited: set<EndpointKey> := reliableUdpSessionRegistry.View(), {};
      for i := 0 to |endpoints|
        invariant visited == (set e | e in endpoints[..i])
        invariant reliableUdpSessionRegistry.View() == WithoutSessions(before, visited)
      {
        var removed := reliableUdpSessionRegistry.Remove(endpoints[i]);
        visited := visited + {endpoints[i]};
      }
      assert endpoints[..|endpoints|] == endpoints;
      assert visited == gone;
    }

    method LeaveMatches(
        expiredPeerList: seq<PeerState>, ghost peers: PeerTable, ghost gone: seq<EndpointKey>,
        systemNow: int) returns (failureCount: int)
      requires matchHistoryTracker.Valid() && |expiredPeerList| == |gone|
      requires forall i :: 0 <= i < |gone| ==> gone[i] in peers && expiredPeerList[i] == peers[gone[i]]
      requires forall e :: e in gone ==> e in peers
      requires AllCanLeave(matchHistoryTracker.View(), peers, gone, systemNow)
      modifies matchHistoryTracker
      ensures matchHistoryTracker.Valid() && matchHistoryTracker.View() == LeftAll(old(matchHistoryTracker.View()), peers, gone, systemNow)
      ensures failureCount == 0
    {
      hide Left, CanLeave;
      ghost var before := matchHistoryTracker.View();
      failureCount := 0;
      for i := 0 to |expiredPeerList|
        invariant matchHistoryTracker.Valid() && matchHistoryTracker.View() == LeftAll(before, peers, gone[..i], systemNow)
        invariant failureCount == 0
      {
        assert gone[..i + 1][..i] == gone[..i];
        var matchHistoryLeft := matchHistoryTracker.LeavePlayer(expiredPeerList[i].roomId, expiredPeerList[i].persistentPlayerId, systemNow);
        if !matchHistoryLeft {
          failureCount := failureCount + 1;
        }
      }
      assert gone[..|gone|] == gone;
    }

    method ProcessReliableResends(now: int) returns (taskList: seq<Registry.ResendTask>, ghost event: Event)
      requires Valid()
      modifies reliableUdpSessionRegistry
      ensures Valid() && IsStep(event) && event == Resend(now)
    {
      hide IsSoundState, IsSoundConfig, GameArena, Admission.IsOneToOne, After, Registry.AfterResend;
      ghost var before, order := View(), [];
      var giveUpPacketCount;
      event := Resend(now);
      SectionIsStep(config, mac, directory, before, event);
      taskList, giveUpPacketCount, order := reliableUdpSessionRegistry.ExtractResendBatch(now);
      StepKeeps(config, mac, directory, StandsInRoom, before, event);
    }

    method AuthenticateIncomingPacket(
        endpointKey: EndpointKey, packet: Bytes) returns (result: Registry.Authentication, ghost event: Event)
      requires Valid()
      modifies reliableUdpSessionRegistry
      ensures Valid() && IsStep(event) && event == Authenticate(endpointKey, packet)
    {
      hide IsSoundState, IsSoundConfig, GameArena, Admission.IsOneToOne, After, Registry.AfterAuthenticate;
      ghost var before := View();
      event := Authenticate(endpointKey, packet);
      SectionIsStep(config, mac, directory, before, event);
      result := reliableUdpSessionRegistry.AuthenticateIncomingPacket(mac, endpointKey, packet);
      StepKeeps(config, mac, directory, StandsInRoom, before, event);
    }

    method ProcessReceivedPacket(endpointKey: EndpointKey, packetView: ReliableUdpPacket.ReliableView)
      returns (result: Registry.Processing, ghost event: Event)
      requires Valid()
      modifies reliableUdpSessionRegistry
      ensures Valid() && IsStep(event) && event == Receive(endpointKey, packetView)
    {
      hide IsSoundState, IsSoundConfig, GameArena, Admission.IsOneToOne, After, Registry.AfterReceive;
      ghost var before := View();
      event := Receive(endpointKey, packetView);
      SectionIsStep(config, mac, directory, before, event);
      result := reliableUdpSessionRegistry.ProcessReceivedPacket(endpointKey, packetView);
      StepKeeps(config, mac, directory, StandsInRoom, before, event);
    }

    /** Every pending effect goes into one broadcast. */
    method BroadcastSnapshots() returns (effects: seq<ImpactEffectState>, ghost event: Event)
      requires Valid()
      modifies gameWorld.pendingImpactEffectStatePool
      ensures Valid() && IsStep(event) && event == Event.BroadcastSnapshots
      ensures effects == old(View()).lobby.world.effects
    {
      hide IsSoundState, IsSoundConfig, GameArena, Admission.IsOneToOne, After;
      ghost var before := View();
      event := Event.BroadcastSnapshots;
      SectionIsStep(config, mac, directory, before, event);
      effects := gameWorld.pendingImpactEffectStatePool.activeStateList;
      gameWorld.ClearPendingImpactEffects();
      StepKeeps(config, mac, directory, StandsInRoom, before, event);
    }

    method ExtractCompletedMatches() returns (completed: seq<CompletedMatch>, ghost event: Event)
      requires Valid()
      modifies matchHistoryTracker
      ensures Valid() && IsStep(event) && event == ExtractCompleted
      ensures completed == old(View()).matches.completed
    {
      hide IsSoundState, IsSoundConfig, GameArena, Admission.IsOneToOne, After;
      ghost var before := View();
      event := ExtractCompleted;
      SectionIsStep(config, mac, directory, before, event);
      completed := matchHistoryTracker.ExtractCompletedMatches();
      StepKeeps(config, mac, directory, StandsInRoom, before, event);
    }

    /** The server is in order afterwards, and this was one enabled step, exactly when it had been running or had no peers. */
    method Stop(wasRunning: bool, systemNow: int) returns (ghost event: Event)
      requires Valid()
      modifies Footprint()
      ensures event.Stop? && event == Event.Stop(wasRunning, event.roomOrder, systemNow)
      ensures IsOffered(config, directory, old(View()), event)
      ensures View() == After(config, mac, directory, old(View()), event)
      ensures Valid() <==> StopsInOrder(old(View()), wasRunning)
      ensures Valid() ==> IsStep(event)
    {
      hide IsSoundState, IsSoundConfig, GameArena, Admission.IsOneToOne, After, AllCompleted;
      hide IsEndpointOf, IsRecoverableWith, IsPeerOf, Expired, MarkedRecoverable;
      ghost var before, order := View(), [];
      if wasRunning {
        order := matchHistoryTracker.CompleteAll(systemNow);
      }
      event := Event.Stop(wasRunning, order, systemNow);
      SectionIsStep(config, mac, directory, before, event);
      authenticatedAccountRegistry.Clear();
      reliableUdpSessionRegistry.Clear();
      peerRoomManager.Clear();
      gameWorld.Clear();
      StopKeepsIff(directory, StandsInRoom, before, wasRunning, order, systemNow);
    }
  }
}
