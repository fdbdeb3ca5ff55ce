// The services over the live tables: each changes the room manager, the world and the waiting accounts
// exactly as its specification says (Server/Service/PeerSessionService.cpp, PlayerCommandService.cpp,
// AccountLoginAdmissionService.cpp).

module PeerServices {
  import opened GameIds
  import opened SequenceNumber
  import opened SessionToken
  import opened GameWorld
  import opened GameSimulation
  import opened Arena
  import opened PeerRoomManager
  import opened PeerSessionService
  import opened PlayerCommandService
  import opened AuthenticatedAccountRegistry
  import opened Wrappers
  import Admission = AccountLoginAdmissionService

  function LobbyOf(peerRoomManager: PeerRoomManager, gameWorld: GameWorld, accounts: AccountTable): Lobby
    reads peerRoomManager, gameWorld, gameWorld.bulletStatePool, gameWorld.pendingImpactEffectStatePool
  {
    Lobby(peerRoomManager.View(), gameWorld.View(), accounts)
  }

  // Logging in.

  method ApplyLogin(
      request: Admission.Request, drawn: Option<SessionToken>, registry: AuthenticatedAccountRegistry, peerRoomManager: PeerRoomManager)
    returns (result: Admission.Result, ghost holder: Option<EndpointKey>)
    modifies registry
    ensures IsEndpointOf(old(registry.accountTable), request.accountId, holder)
    ensures (registry.accountTable, result) == Admission.Applied(request, drawn, holder, old(registry.accountTable), peerRoomManager.View())
  {
    var found := registry.FindEndpointByAccountId(request.accountId);
    holder := found;
    if request.accountId <= 0 || request.persistentPlayerId.value <= 0 || request.nickname == "" {
      return Admission.Refused(Admission.RegistrationFailed), holder;
    }
    var endpointPeerState := peerRoomManager.FindJoinedPeer(request.endpointKey);
    if endpointPeerState.Some? {
      var peerState := endpointPeerState.value;
      if peerState.accountId != request.accountId {
        return Admission.Refused(Admission.AlreadyLoggedIn), holder;
      }
      if !IsValidSessionToken(peerState.sessionToken) || peerState.persistentPlayerId != request.persistentPlayerId {
        return Admission.Refused(Admission.RegistrationFailed), holder;
      }
      var removed := registry.Remove(request.endpointKey);
      return Admission.Result(Admission.ExistingSession, peerState.sessionToken), holder;
    }
    var accountPeer := peerRoomManager.FindJoinedPeerByAccountId(request.accountId);
    if accountPeer.Some? {
      return Admission.Refused(Admission.AlreadyLoggedIn), holder;
    }
    if found.Some? && found.value != request.endpointKey {
      return Admission.Refused(Admission.AlreadyLoggedIn), holder;
    }
    if request.endpointKey in registry.accountTable {
      var endpointAccount := registry.accountTable[request.endpointKey];
      if endpointAccount.accountId != request.accountId {
        return Admission.Refused(Admission.AlreadyLoggedIn), holder;
      }
      if endpointAccount.persistentPlayerId != request.persistentPlayerId {
        return Admission.Refused(Admission.RegistrationFailed), holder;
      }
    }
    if drawn.None? {
      return Admission.Refused(Admission.TokenGenerationFailed), holder;
    }
    var registered := registry.Upsert(
      request.endpointKey, request.accountId, request.persistentPlayerId, drawn.value, request.nickname, request.currentTime);
    if !registered {
      return Admission.Refused(Admission.RegistrationFailed), holder;
    }
    return Admission.Result(Admission.Authenticated, drawn.value), holder;
  }

  // Joining.

  /** The new peer and player, at the room's next spawn point. */
  method CreatePeer(
      endpointKey: EndpointKey, identity: AuthenticatedIdentity, roomId: RoomId, peerRoomManager: PeerRoomManager, gameWorld: GameWorld,
      gameRule: GameRuleConfig, arena: Arena, currentTime: int, ghost accounts: AccountTable)
    returns (joinResult: JoinResult)
    requires gameWorld.Valid()
    modifies peerRoomManager, gameWorld
    ensures (LobbyOf(peerRoomManager, gameWorld, accounts), joinResult)
         == Created(old(LobbyOf(peerRoomManager, gameWorld, accounts)), endpointKey, identity, roomId, gameRule, arena, currentTime)
  {
    var spawnIndex := peerRoomManager.GetRoomMemberCount(roomId);
    var spawnPosition := arena.spawnPoint(roomId, spawnIndex);
    var playerId := gameWorld.AllocatePlayerId();
    peerRoomManager.UpsertJoinedPeer(endpointKey, playerId, roomId, currentTime);
    var peerState := peerRoomManager.peerTable[endpointKey];
    peerRoomManager.peerTable := peerRoomManager.peerTable[endpointKey := peerState.(
      accountId := identity.accountId, persistentPlayerId := identity.persistentPlayerId, sessionToken := identity.sessionToken,
      nickname := identity.nickname, lastAcceptedInputSequence := 0, lastProcessedInputSequence := 0)];
    gameWorld.UpsertPlayer(InitialPlayer(playerId, spawnPosition, gameRule));
    return JoinResult(true, true, playerId, identity.persistentPlayerId, roomId, spawnPosition);
  }

  method JoinPeer(
      endpointKey: EndpointKey, identity: AuthenticatedIdentity, roomId: RoomId, peerRoomManager: PeerRoomManager, gameWorld: GameWorld,
      gameRule: GameRuleConfig, arena: Arena, currentTime: int, ghost accounts: AccountTable)
    returns (joinResult: JoinResult)
    requires gameWorld.Valid()
    modifies peerRoomManager, gameWorld
    ensures (LobbyOf(peerRoomManager, gameWorld, accounts), joinResult)
         == JoinedPeer(old(LobbyOf(peerRoomManager, gameWorld, accounts)), endpointKey, identity, roomId, gameRule, arena, currentTime)
  {
    hide Created, Removed;
    if identity.accountId <= 0 || identity.persistentPlayerId.value <= 0 || !IsValidSessionToken(identity.sessionToken) || identity.nickname == "" {
      return NO_JOIN;
    }
    var existing := peerRoomManager.FindJoinedPeer(endpointKey);
    if existing.Some? {
      if existing.value.accountId != identity.accountId || existing.value.persistentPlayerId != identity.persistentPlayerId
         || existing.value.sessionToken != identity.sessionToken {
        return NO_JOIN;
      }
      var refreshed := peerRoomManager.RefreshRecvTime(endpointKey, currentTime);
      joinResult := CurrentJoinResult(peerRoomManager.peerTable[endpointKey], gameWorld.View());
      if joinResult.shouldSendResponse {
        return;
      }
      var removed := peerRoomManager.RemovePeer(endpointKey);
    }
    joinResult := CreatePeer(endpointKey, identity, roomId, peerRoomManager, gameWorld, gameRule, arena, currentTime, accounts);
  }

  method Recover(
      previousEndpointKey: EndpointKey, endpointKey: EndpointKey, peerRoomManager: PeerRoomManager, gameWorld: GameWorld,
      currentTime: int, ghost accounts: AccountTable)
    returns (status: JoinStatus, joinResult: JoinResult)
    requires previousEndpointKey in peerRoomManager.peerTable
    modifies peerRoomManager
    ensures JoinOutcome(LobbyOf(peerRoomManager, gameWorld, accounts), status, joinResult)
         == Recovery(old(LobbyOf(peerRoomManager, gameWorld, accounts)), previousEndpointKey, endpointKey, currentTime)
  {
    hide CanRebind, Rebound;
    joinResult := CurrentJoinResult(peerRoomManager.peerTable[previousEndpointKey], gameWorld.View());
    if !joinResult.shouldSendResponse {
      return Rejected, NO_JOIN;
    }
    var rebound := peerRoomManager.RebindRecoverablePeer(previousEndpointKey, endpointKey, currentTime);
    if !rebound {
      return Rejected, NO_JOIN;
    }
    return Recovered, joinResult;
  }

  lemma SomeRecoverable(t: PeerTables, token: SessionToken) returns (found: Option<EndpointKey>)
    ensures IsRecoverableWith(t, token, found)
  {
    if e :| IsValidSessionToken(token) && IsJoinedPeer(t, e) && t.peers[e].connectionState == Recoverable && t.peers[e].sessionToken == token {
      found := Some(e);
    } else {
      found := None;
    }
  }

  method JoinAs(
      endpointKey: EndpointKey, identity: AuthenticatedIdentity, roomId: RoomId, registry: AuthenticatedAccountRegistry,
      peerRoomManager: PeerRoomManager, gameWorld: GameWorld, gameRule: GameRuleConfig, arena: Arena, currentTime: int)
    returns (status: JoinStatus, joinResult: JoinResult)
    requires gameWorld.Valid()
    modifies registry, peerRoomManager, gameWorld
    ensures JoinOutcome(LobbyOf(peerRoomManager, gameWorld, registry.accountTable), status, joinResult)
         == PeerSessionService.JoinAs(old(LobbyOf(peerRoomManager, gameWorld, registry.accountTable)), endpointKey, identity, roomId, gameRule, arena, currentTime)
  {
    hide JoinedPeer;
    ghost var before := LobbyOf(peerRoomManager, gameWorld, registry.accountTable);
    joinResult := JoinPeer(endpointKey, identity, roomId, peerRoomManager, gameWorld, gameRule, arena, currentTime, registry.accountTable);
    if !joinResult.shouldSendResponse {
      return Rejected, joinResult;
    }
    if !joinResult.shouldBroadcastPlayerJoined {
      return ExistingPeer, joinResult;
    }
    JoinedKeepsAccounts(before, endpointKey, identity, roomId, gameRule, arena, currentTime);
    var removed := registry.Remove(endpointKey);
    return Joined, joinResult;
  }

  lemma JoinedKeepsAccounts(
      s: Lobby, e: EndpointKey, identity: AuthenticatedIdentity, r: RoomId, rules: GameRuleConfig, arena: Arena, now: int)
    ensures JoinedPeer(s, e, identity, r, rules, arena, now).0.accounts == s.accounts
  {
  }

  method JoinAuthenticatedPeer(
      endpointKey: EndpointKey, sessionToken: SessionToken, initialRoomId: RoomId, registry: AuthenticatedAccountRegistry,
      peerRoomManager: PeerRoomManager, gameWorld: GameWorld, gameRule: GameRuleConfig, arena: Arena, currentTime: int)
    returns (status: JoinStatus, joinResult: JoinResult, ghost recoverable: Option<EndpointKey>)
    requires gameWorld.Valid()
    modifies registry, peerRoomManager, gameWorld
    ensures IsRecoverableWith(old(peerRoomManager.View()), sessionToken, recoverable)
    ensures JoinOutcome(LobbyOf(peerRoomManager, gameWorld, registry.accountTable), status, joinResult)
         == JoinAuthenticated(old(LobbyOf(peerRoomManager, gameWorld, registry.accountTable)), endpointKey, sessionToken, recoverable,
                              initialRoomId, gameRule, arena, currentTime)
  {
    hide PeerSessionService.JoinAs, Recovery;
    recoverable := SomeRecoverable(peerRoomManager.View(), sessionToken);
    var existing := peerRoomManager.FindJoinedPeer(endpointKey);
    var identity;
    if existing.Some? {
      var peerState := existing.value;
      if peerState.connectionState == Recoverable {
        if peerState.sessionToken != sessionToken {
          return Rejected, NO_JOIN, recoverable;
        }
        status, joinResult := Recover(endpointKey, endpointKey, peerRoomManager, gameWorld, currentTime, registry.accountTable);
        return;
      }
      identity := AuthenticatedIdentity(peerState.accountId, peerState.persistentPlayerId, sessionToken, peerState.nickname);
    } else {
      var found := peerRoomManager.FindRecoverablePeerBySessionToken(sessionToken);
      recoverable := found;
      if found.Some? {
        status, joinResult := Recover(found.value, endpointKey, peerRoomManager, gameWorld, currentTime, registry.accountTable);
        return;
      }
      var account := registry.Find(endpointKey, sessionToken);
      if account.None? {
        return Unauthenticated, NO_JOIN, recoverable;
      }
      identity := AuthenticatedIdentity(account.value.accountId, account.value.persistentPlayerId, account.value.sessionToken, account.value.nickname);
    }
    status, joinResult := JoinAs(endpointKey, identity, initialRoomId, registry, peerRoomManager, gameWorld, gameRule, arena, currentTime);
  }

  // Leaving and changing rooms.

  method RemovePlayerOfRoom(playerId: PlayerId, roomId: RoomId, peerRoomManager: PeerRoomManager, gameWorld: GameWorld)
    requires gameWorld.Valid()
    modifies gameWorld.Footprint()
    ensures gameWorld.View() == DepartedWorld(old(gameWorld.View()), old(peerRoomManager.View()), playerId, roomId)
  {
    hide MemberCount, WithoutTransients;
    gameWorld.RemovePlayer(playerId);
    if peerRoomManager.GetRoomMemberCount(roomId) == 0 {
      gameWorld.ClearRoomTransientState(roomId);
    }
  }

  /** The peer that left, or none if the endpoint had no joined peer. */
  method LeavePeer(endpointKey: EndpointKey, peerRoomManager: PeerRoomManager, gameWorld: GameWorld, ghost accounts: AccountTable)
    returns (left: Option<PeerState>)
    requires gameWorld.Valid()
    modifies peerRoomManager, gameWorld.Footprint()
    ensures left == (if IsJoinedPeer(old(peerRoomManager.View()), endpointKey) then Some(old(peerRoomManager.peerTable)[endpointKey]) else None)
    ensures LobbyOf(peerRoomManager, gameWorld, accounts)
         == if left.Some? then LeftPeer(old(LobbyOf(peerRoomManager, gameWorld, accounts)), endpointKey)
            else old(LobbyOf(peerRoomManager, gameWorld, accounts))
  {
    hide Removed, DepartedWorld;
    var peerState := peerRoomManager.FindJoinedPeer(endpointKey);
    if peerState.None? {
      return None;
    }
    left := peerRoomManager.RemovePeer(endpointKey);
    RemovePlayerOfRoom(left.value.playerId, left.value.roomId, peerRoomManager, gameWorld);
  }

  method ChangePeerRoom(
      endpointKey: EndpointKey, nextRoomId: RoomId, peerRoomManager: PeerRoomManager, gameWorld: GameWorld, arena: Arena,
      currentTime: int, ghost accounts: AccountTable)
    returns (changed: bool)
    requires gameWorld.Valid()
    modifies peerRoomManager, gameWorld.Footprint()
    ensures changed == MayChangeRoom(old(LobbyOf(peerRoomManager, gameWorld, accounts)), endpointKey, nextRoomId)
    ensures LobbyOf(peerRoomManager, gameWorld, accounts)
         == if changed then ChangedRoom(old(LobbyOf(peerRoomManager, gameWorld, accounts)), endpointKey, nextRoomId, arena, currentTime)
            else old(LobbyOf(peerRoomManager, gameWorld, accounts))
  {
    hide RoomChanged, WithoutTransients, MemberCount;
    if nextRoomId.value <= 0 {
      return false;
    }
    var peerState := peerRoomManager.FindJoinedPeer(endpointKey);
    if peerState.None? || peerState.value.playerId !in gameWorld.playerTable {
      return false;
    }
    var playerId, previousRoomId := peerState.value.playerId, peerState.value.roomId;
    if gameWorld.playerTable[playerId].isDead || previousRoomId == nextRoomId {
      return false;
    }
    changed := peerRoomManager.ChangePeerRoom(endpointKey, nextRoomId, currentTime);
    if peerRoomManager.GetRoomMemberCount(previousRoomId) == 0 {
      gameWorld.ClearRoomTransientState(previousRoomId);
    }
    var joinedRoomMemberCount := peerRoomManager.GetRoomMemberCount(nextRoomId);
    var spawnPosition := arena.spawnPoint(nextRoomId, if joinedRoomMemberCount > 0 then joinedRoomMemberCount - 1 else 0);
    gameWorld.playerTable := gameWorld.playerTable[playerId := gameWorld.playerTable[playerId].(position := spawnPosition, inputFlags := NO_INPUT)];
  }

  // Timeouts.

  method MarkTimedOutPeersRecoverable(
      currentTime: int, timeout: int, peerRoomManager: PeerRoomManager, gameWorld: GameWorld, ghost accounts: AccountTable)
    returns (recoverablePeerList: seq<EndpointKey>)
    requires gameWorld.Valid()
    modifies peerRoomManager, gameWorld
    ensures IsListing(recoverablePeerList, TimedOut(old(peerRoomManager.View()), currentTime, timeout))
    ensures LobbyOf(peerRoomManager, gameWorld, accounts)
         == TimedOutMarked(old(LobbyOf(peerRoomManager, gameWorld, accounts)), currentTime, timeout)
  {
    hide MarkedRecoverable, TimedOut;
    ghost var tables, before := peerRoomManager.View(), gameWorld.View();
    var peers := peerRoomManager.peerTable;
    TimedOutArePeers(tables, currentTime, timeout);
    recoverablePeerList := peerRoomManager.MarkTimedOutPeersRecoverable(currentTime, timeout);
    ghost var halted: set<PlayerId> := {};
    HaltedNone(before);
    for i := 0 to |recoverablePeerList|
      invariant peerRoomManager.View() == MarkedRecoverable(tables, currentTime, timeout)
      invariant halted == PlayersOfFirst(peers, recoverablePeerList, i)
      invariant gameWorld.View() == Halted(before, halted)
    {
      assert recoverablePeerList[i] in recoverablePeerList;
      var playerId := peers[recoverablePeerList[i]].playerId;
      HaltedOneMore(before, halted, playerId);
      PlayersOfNext(peers, recoverablePeerList, i);
      halted := halted + {playerId};
      if playerId in gameWorld.playerTable {
        gameWorld.playerTable := gameWorld.playerTable[playerId := gameWorld.playerTable[playerId].(inputFlags := NO_INPUT)];
      }
    }
    PlayersOfAll(tables, recoverablePeerList, TimedOut(tables, currentTime, timeout));
  }

  ghost function PlayersOfFirst(peers: PeerTable, list: seq<EndpointKey>, n: nat): set<PlayerId> {
    set k | 0 <= k < n && k < |list| && list[k] in peers :: peers[list[k]].playerId
  }

  lemma TimedOutArePeers(t: PeerTables, now: int, timeout: int)
    ensures TimedOut(t, now, timeout) <= t.peers.Keys
  {
  }

  lemma PlayersOfNext(peers: PeerTable, list: seq<EndpointKey>, n: nat)
    requires n < |list| && list[n] in peers
    ensures PlayersOfFirst(peers, list, n + 1) == PlayersOfFirst(peers, list, n) + {peers[list[n]].playerId}
  {
  }

  lemma PlayersOfAll(t: PeerTables, list: seq<EndpointKey>, endpoints: set<EndpointKey>)
    requires IsListing(list, endpoints) && endpoints <= t.peers.Keys
    ensures PlayersOfFirst(t.peers, list, |list|) == PlayersOf(t, endpoints)
  {
    forall id | id in PlayersOf(t, endpoints)
      ensures id in PlayersOfFirst(t.peers, list, |list|)
    {
      var e :| e in endpoints && t.peers[e].playerId == id;
      var k :| 0 <= k < |list| && list[k] == e;
    }
    forall id | id in PlayersOfFirst(t.peers, list, |list|)
      ensures id in PlayersOf(t, endpoints)
    {
      var k :| 0 <= k < |list| && list[k] in t.peers && t.peers[list[k]].playerId == id;
      assert list[k] in list;
    }
  }

  lemma HaltedNone(w: World)
    ensures Halted(w, {}) == w
  {
    assert Halted(w, {}).players == w.players;
  }

  lemma HaltedOneMore(w: World, players: set<PlayerId>, id: PlayerId)
    ensures id in w.players ==> id in Halted(w, players).players
    ensures Halted(w, players + {id})
         == if id in w.players
            then Halted(w, players).(players := Halted(w, players).players[id := Halted(w, players).players[id].(inputFlags := NO_INPUT)])
            else Halted(w, players)
  {
    if id in w.players {
      assert Halted(w, players + {id}).players == Halted(w, players).players[id := Halted(w, players).players[id].(inputFlags := NO_INPUT)];
    } else {
      assert Halted(w, players + {id}).players == Halted(w, players).players;
    }
  }

  method RemoveExpiredRecoverablePeers(
      currentTime: int, gracePeriod: int, peerRoomManager: PeerRoomManager, gameWorld: GameWorld, ghost accounts: AccountTable)
    returns (expiredPeerList: seq<PeerState>, ghost gone: seq<EndpointKey>)
    requires gameWorld.Valid()
    modifies peerRoomManager, gameWorld.Footprint()
    ensures IsListing(gone, Expired(old(peerRoomManager.View()), currentTime, gracePeriod))
    ensures |expiredPeerList| == |gone|
    ensures forall i :: 0 <= i < |gone| ==> gone[i] in old(peerRoomManager.peerTable) && expiredPeerList[i] == old(peerRoomManager.peerTable)[gone[i]]
    ensures forall e :: e in gone ==> e in old(peerRoomManager.peerTable)
    ensures LobbyOf(peerRoomManager, gameWorld, accounts) == ExpiredRemoved(old(LobbyOf(peerRoomManager, gameWorld, accounts)), gone)
  {
    hide DepartedWorld, WithoutPeers;
    ghost var peers, before := peerRoomManager.peerTable, gameWorld.View();
    expiredPeerList, gone := peerRoomManager.RemoveExpiredRecoverablePeers(currentTime, gracePeriod);
    assert forall e :: e in gone ==> e in peers;
    ghost var tables := peerRoomManager.View();
    for i := 0 to |expiredPeerList|
      invariant peerRoomManager.View() == tables && gameWorld.View() == DepartedAll(before, tables, peers, gone[..i])
    {
      assert gone[..i + 1][..i] == gone[..i];
      RemovePlayerOfRoom(expiredPeerList[i].playerId, expiredPeerList[i].roomId, peerRoomManager, gameWorld);
    }
    assert gone[..|gone|] == gone;
  }

  // Commands.

  method ApplyInputCommand(
      endpointKey: EndpointKey, inputSequence: SequenceNumber, inputFlags: InputFlags, peerRoomManager: PeerRoomManager, gameWorld: GameWorld,
      arena: Arena, currentTime: int, ghost accounts: AccountTable)
    returns (applied: bool)
    requires gameWorld.Valid()
    modifies peerRoomManager, gameWorld
    ensures applied == AcceptsInput(old(LobbyOf(peerRoomManager, gameWorld, accounts)), endpointKey, inputSequence)
    ensures LobbyOf(peerRoomManager, gameWorld, accounts)
         == InputApplied(old(LobbyOf(peerRoomManager, gameWorld, accounts)), endpointKey, inputSequence, inputFlags, arena, currentTime)
  {
    var found := peerRoomManager.FindJoinedPeer(endpointKey);
    if found.None? || found.value.playerId !in gameWorld.playerTable {
      return false;
    }
    var peerState, playerState := found.value, gameWorld.playerTable[found.value.playerId];
    if playerState.isDead {
      return false;
    }
    if !IsSequenceNewer(inputSequence, peerState.lastAcceptedInputSequence) {
      return false;
    }
    peerRoomManager.peerTable := peerRoomManager.peerTable[endpointKey := peerState.(lastAcceptedInputSequence := inputSequence, lastRecvTime := currentTime)];
    playerState := playerState.(inputFlags := inputFlags);
    var direction := arena.moveDirection(inputFlags);
    if !(direction.x == 0.0 && direction.y == 0.0) {
      playerState := playerState.(lastMoveDirection := direction);
    }
    gameWorld.playerTable := gameWorld.playerTable[peerState.playerId := playerState];
    return true;
  }

  method FireBullet(
      endpointKey: EndpointKey, peerRoomManager: PeerRoomManager, gameWorld: GameWorld, weapon: WeaponRule, arena: Arena,
      currentTime: int, ghost accounts: AccountTable)
    returns (fired: bool)
    requires gameWorld.Valid()
    modifies peerRoomManager, gameWorld.Footprint()
    ensures fired == MayFire(old(LobbyOf(peerRoomManager, gameWorld, accounts)), endpointKey)
    ensures LobbyOf(peerRoomManager, gameWorld, accounts)
         == Fired(old(LobbyOf(peerRoomManager, gameWorld, accounts)), endpointKey, weapon, arena, currentTime)
  {
    var found := peerRoomManager.FindJoinedPeer(endpointKey);
    if found.None? || found.value.playerId !in gameWorld.playerTable {
      return false;
    }
    var peerState, playerState := found.value, gameWorld.playerTable[found.value.playerId];
    if playerState.isDead {
      return false;
    }
    var refreshed := peerRoomManager.RefreshRecvTime(endpointKey, currentTime);
    if playerState.fireCooldownRemainingSeconds > 0.0 {
      return false;
    }
    var bulletId := gameWorld.AllocateBulletId();
    gameWorld.AddBullet(NewBullet(bulletId, peerState, playerState, weapon, arena));
    gameWorld.playerTable := gameWorld.playerTable[peerState.playerId := playerState.(fireCooldownRemainingSeconds := weapon.fireCooldownSeconds)];
    return true;
  }
}
