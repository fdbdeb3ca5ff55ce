// What a client is told and given when it joins, comes back, changes rooms or leaves.

module UdpServerAnswers {
  import opened GameIds
  import opened SessionToken
  import opened WorldCollision
  import opened GameWorld
  import opened GameSimulation
  import opened Arena
  import opened PeerRoomManager
  import opened MatchHistoryTracker
  import opened PeerSessionService
  import opened AuthenticatedAccountRegistry
  import opened UdpServerModel
  import opened UdpServerInvariants
  import opened UdpServerRequests
  import opened UdpServerDepartures
  import opened Wrappers
  import PacketWire
  import ReliableUdpPacket
  import Admission = AccountLoginAdmissionService
  import Registry = ReliableUdpSessionRegistry
  import Session = ReliableUdpSession

  /** The peers of a room. */
  function PeersIn(t: PeerTables, r: RoomId): set<EndpointKey> {
    set e | e in t.peers && t.peers[e].roomId == r
  }

  lemma MembersArePeers(t: PeerTables, r: RoomId)
    requires TablesAgree(t)
    ensures MemberCount(t, r) == |PeersIn(t, r)|
  {
    if r in t.rooms {
      assert t.rooms[r] == PeersIn(t, r);
    } else {
      assert PeersIn(t, r) == {};
    }
  }

  // Joining.

  /** The answer tells the truth about the peer at the endpoint and its player. */
  predicate IsTrueAnswer(result: JoinResult, s: Lobby, e: EndpointKey) {
    && e in s.tables.peers && s.tables.peers[e].playerId in s.world.players && result.shouldSendResponse
    && result.playerId == s.tables.peers[e].playerId && result.persistentPlayerId == s.tables.peers[e].persistentPlayerId
    && result.roomId == s.tables.peers[e].roomId && result.spawnPosition == s.world.players[s.tables.peers[e].playerId].position
  }

  /** A new player is alive and whole, has not moved, killed or died yet, and stands where it is told to. */
  predicate IsNewPlayer(p: PlayerState, id: PlayerId, position: Position, rules: GameRuleConfig) {
    && p.playerId == id && p.position == position && p.hp == rules.initialPlayerHp && !p.isDead && p.moveSpeed == DEFAULT_MOVE_SPEED
    && p.killCount == p.deathCount == 0 && p.inputFlags == NO_INPUT && p.fireCooldownRemainingSeconds == 0.0 && p.invincibilityRemainingSeconds == 0.0
  }

  lemma CreatedIsNew(
      s: Lobby, e: EndpointKey, identity: AuthenticatedIdentity, r: RoomId, rules: GameRuleConfig, arena: Arena, now: int)
    requires TablesAgree(s.tables)
    ensures var (s', result) := Created(s, e, identity, r, rules, arena, now);
            var id := PlayerId(s.world.nextPlayerId);
            && IsTrueAnswer(result, s', e) && result.shouldBroadcastPlayerJoined && result.playerId == id
            && IsNewPlayer(s'.world.players[id], id, arena.spawnPoint(r, |PeersIn(s.tables, r)|), rules)
            && s'.world == s.world.(players := s.world.players[id := s'.world.players[id]], nextPlayerId := NextId(s.world.nextPlayerId))
  {
    MembersArePeers(s.tables, r);
    hide TablesAgree, MemberCount;
  }

  /** Whoever is let in is told the truth about its player, and the others are told of it exactly if it is new. A new peer holds the account
      that waited for it under the presented token, and a new player at the next spawn point of the first room; one that comes back is the
      lost peer with this token under its new endpoint, its player untouched; one that was there already is only heard from. */
  lemma JoinIsAnsweredTruly(
      c: ServerConfig, directory: Admission.Directory, stands: Standing, s: ServerState, e: EndpointKey, token: SessionToken, found: Option<EndpointKey>, now: int)
    requires IsSoundConfig(c, stands) && IsSoundState(directory, stands, s) && IsRecoverableWith(s.lobby.tables, token, found)
    ensures var o, peers, w := JoinOutcomeOf(c, s, e, token, found, now), s.lobby.tables.peers, s.lobby.world;
            && (o.status != Rejected && o.status != Unauthenticated ==> IsTrueAnswer(o.result, o.lobby, e))
            && (o.result.shouldBroadcastPlayerJoined <==> o.status == Joined)
            && match o.status
               case Joined =>
                 && e in s.lobby.accounts && s.lobby.accounts[e].sessionToken == token && o.lobby.accounts == s.lobby.accounts - {e}
                 && (var a, id := s.lobby.accounts[e], PlayerId(w.nextPlayerId);
                     && o.lobby.tables.peers == peers[e := PeerState(e, a.accountId, a.persistentPlayerId, token, a.nickname, id, 0, 0, c.initialRoomId,
                                                                     true, Connected, now, 0)]
                     && id in o.lobby.world.players
                     && IsNewPlayer(o.lobby.world.players[id], id, c.arena.spawnPoint(c.initialRoomId, |PeersIn(s.lobby.tables, c.initialRoomId)|), c.gameRule))
               case Recovered =>
                 && o.lobby.world == w && o.lobby.accounts == s.lobby.accounts
                 && (exists previous ::
                       && previous in peers && peers[previous].connectionState == Recoverable && peers[previous].sessionToken == token
                       && o.lobby.tables.peers == (peers - {previous})[e := peers[previous].(
                            endpointKey := e, connectionState := Connected, lastRecvTime := now, recoverableSince := 0)])
               case ExistingPeer =>
                 && e in peers && o.lobby == s.lobby.(tables := s.lobby.tables.(peers := peers[e := peers[e].(lastRecvTime := now)]))
               case _ => o.lobby == s.lobby && !o.result.shouldSendResponse
  {
    hide MatchesAgree, IsKept, TransientsBacked, SessionsAgree, Created, KeepsStanding, Rebound, CanRebind;
    hide AreSound, PeersStand, HavePositiveRooms, TablesAgree, Admission.HasOneOwner, JoinAuthenticated, IsRecoverableWith, PlayersAgree;
    var o := JoinOutcomeOf(c, s, e, token, found, now);
    JoinShape(c, s.lobby, e, token, found, now);
    JoinResults(c, s.lobby, e, token, found, now);
    if o.status == Joined {
      JoinedAtPeerTable(c, directory, stands, s, e, now);
      CreatedIsNew(s.lobby, e, WaitingIdentity(s.lobby.accounts[e]), c.initialRoomId, c.gameRule, c.arena, now);
    } else if o.status == Recovered {
      var previous :| previous in s.lobby.tables.peers && s.lobby.tables.peers[previous].sessionToken == token
                      && s.lobby.tables.peers[previous].connectionState == Recoverable
                      && CanRebind(s.lobby.tables, previous, e) && (e == previous || e !in s.lobby.tables.peers)
                      && o.lobby == s.lobby.(tables := Rebound(s.lobby.tables, previous, e, now));
      ReboundShape(s.lobby.tables, previous, e, now);
      KeysAreFiled(s.lobby.tables);
    } else if o.status == ExistingPeer {
      JoinIsDecidedByTokens(c, directory, stands, s, e, token, found, now);
      KeysAreFiled(s.lobby.tables);
    }
  }

  lemma KeysAreFiled(t: PeerTables)
    requires TablesAgree(t)
    ensures forall e :: e in t.peers ==> t.peers[e].endpointKey == e && t.peers[e].isJoined
  {
  }

  /** The outcome's answer suits its status. */
  predicate IsFitAnswer(o: JoinOutcome, accounts: AccountTable, e: EndpointKey) {
    && (o.result.shouldBroadcastPlayerJoined <==> o.status == Joined)
    && (o.status == Rejected || o.status == Unauthenticated ==> !o.result.shouldSendResponse)
    && (o.status == Recovered || o.status == ExistingPeer ==> IsTrueAnswer(o.result, o.lobby, e) && o.lobby.accounts == accounts)
  }

  lemma RecoveryResult(s: Lobby, previous: EndpointKey, e: EndpointKey, now: int)
    requires previous in s.tables.peers
    ensures IsFitAnswer(Recovery(s, previous, e, now), s.accounts, e)
  {
  }

  lemma JoinAsResult(
      s: Lobby, e: EndpointKey, identity: AuthenticatedIdentity, r: RoomId, rules: GameRuleConfig, arena: Arena, now: int)
    requires e in s.tables.peers ==> s.tables.peers[e].isJoined && s.tables.peers[e].playerId in s.world.players
    ensures IsFitAnswer(JoinAs(s, e, identity, r, rules, arena, now), s.accounts, e)
  {
    CreatedKeepsAccounts(s, e, identity, r, rules, arena, now);
    hide Created;
  }

  /** The answers, status by status. */
  lemma JoinResults(c: ServerConfig, s: Lobby, e: EndpointKey, token: SessionToken, found: Option<EndpointKey>, now: int)
    requires IsRecoverableWith(s.tables, token, found) && TablesAgree(s.tables) && PlayersAgree(s.tables.peers, s.world)
    ensures IsFitAnswer(JoinAuthenticated(s, e, token, found, c.initialRoomId, c.gameRule, c.arena, now), s.accounts, e)
  {
    hide Recovery, JoinAs, IsTrueAnswer;
    if e in s.tables.peers {
      var p := s.tables.peers[e];
      RecoveryResult(s, e, e, now);
      JoinAsResult(s, e, AuthenticatedIdentity(p.accountId, p.persistentPlayerId, token, p.nickname), c.initialRoomId, c.gameRule, c.arena, now);
    } else {
      if found.Some? && found.value in s.tables.peers {
        RecoveryResult(s, found.value, e, now);
      }
      if e in s.accounts {
        JoinAsResult(s, e, WaitingIdentity(s.accounts[e]), c.initialRoomId, c.gameRule, c.arena, now);
      }
    }
  }

  /** A peer whose player is missing, joining again under its own identity, is given a new one as if it were new. */
  lemma MissingPlayerIsReplaced(
      s: Lobby, e: EndpointKey, identity: AuthenticatedIdentity, r: RoomId, rules: GameRuleConfig, arena: Arena, now: int)
    requires TablesAgree(s.tables) && e in s.tables.peers && s.tables.peers[e].playerId !in s.world.players
    requires IsCompleteIdentity(identity) && IsIdentityOf(s.tables.peers[e], identity)
    ensures var (s', result), id := JoinedPeer(s, e, identity, r, rules, arena, now), PlayerId(s.world.nextPlayerId);
            && IsTrueAnswer(result, s', e) && result.shouldBroadcastPlayerJoined && result.playerId == id
            && IsNewPlayer(s'.world.players[id], id, arena.spawnPoint(r, |PeersIn(s.tables, r) - {e}|), rules)
  {
    var refreshed := Refreshed(s.tables, e, now);
    RefreshKeepsAgreement(s.tables, e, refreshed.peers[e]);
    RemoveKeepsAgreement(refreshed, e);
    var left := s.(tables := Removed(refreshed, e));
    assert PeersIn(left.tables, r) == PeersIn(s.tables, r) - {e};
    CreatedIsNew(left, e, identity, r, rules, arena, now);
    hide Created, Removed, TablesAgree;
  }

  // Changing rooms.

  /** Whoever may change rooms is in the next room afterwards, at the spawn point that follows those of the peers already there, halted; and
      nothing else about it, and nobody else, is different. */
  lemma RoomChangeIsExact(s: Lobby, e: EndpointKey, next: RoomId, arena: Arena, now: int)
    requires TablesAgree(s.tables) && MayChangeRoom(s, e, next)
    ensures var s', peer := ChangedRoom(s, e, next, arena, now), s.tables.peers[e];
            && s'.tables.peers == s.tables.peers[e := peer.(roomId := next, lastRecvTime := now)] && s'.accounts == s.accounts
            && s'.world.players == s.world.players[peer.playerId := s.world.players[peer.playerId].(
                 position := arena.spawnPoint(next, |PeersIn(s.tables, next)|), inputFlags := NO_INPUT)]
  {
    hide TablesAgree, MemberCount, RoomChanged;
    ChangedRoomTables(s, e, next, arena, now);
    NewcomerCounts(s.tables, e, next, now);
  }

  /** A request to change rooms is taken if and only if it is a living player's, for a positive room other than its own; otherwise nothing
      happens at all. */
  lemma RoomChangeIsTakenIff(
      c: ServerConfig, s: ServerState, e: EndpointKey, next: RoomId, game: Option<PacketWire.Bytes>, now: int, systemNow: int)
    requires TablesAgree(s.lobby.tables)
    ensures var peers, players := s.lobby.tables.peers, s.lobby.world.players;
            AfterChangeRoom(c, s, e, next, game, now, systemNow) != s
            <==> (&& next.value > 0 && e in peers && peers[e].roomId != next
                  && peers[e].playerId in players && !players[peers[e].playerId].isDead)
  {
    hide Left, Entered, Registry.AfterBuild;
    if MayChangeRoom(s.lobby, e, next) {
      RoomChangeIsExact(s.lobby, e, next, c.arena, now);
    }
    hide ChangedRoom;
  }

  lemma NewcomerCounts(t: PeerTables, e: EndpointKey, next: RoomId, now: int)
    requires TablesAgree(t) && CanChangeRoom(t, e, next)
    ensures MemberCount(RoomChanged(t, e, next, now), next) == |PeersIn(t, next)| + 1
  {
    hide TablesAgree, MemberCount, Inserted, Erased;
    RoomChangeKeepsAgreement(t, e, next, now);
    MembersArePeers(RoomChanged(t, e, next, now), next);
    assert PeersIn(RoomChanged(t, e, next, now), next) == PeersIn(t, next) + {e};
  }

  // Leaving.

  /** A peer that leaves gets its answer: if the packet can go out under its session it goes out, and the session closes behind it, waiting
      for nothing but what is pending; if it cannot, or there is none, the session is removed at once. No other session is touched. */
  lemma LeavingIsAnswered(r: Registry.RegistryState, e: EndpointKey, game: Option<PacketWire.Bytes>, now: int)
    ensures var r' := ClosedSession(r, e, game, now);
            && (forall f :: f != e ==> (f in r'.sessions <==> f in r.sessions) && (f in r.sessions ==> r'.sessions[f] == r.sessions[f])
                                       && (f in r'.closing <==> f in r.closing))
            && (e in r'.sessions <==> e in r.sessions && game.Some? && CanGoOut(r.sessions[e].session, game.value))
            && (e in r'.closing <==> e in r'.sessions)
            && (e in r'.sessions ==>
                  var pending, pending' := r.sessions[e].session.window.pending, r'.sessions[e].session.window.pending;
                  && |pending'| == |pending| + 1 && pending < pending'
                  && ReliableUdpPacket.Parsed(pending'[|pending|].packetBuffer).Some?
                  && ReliableUdpPacket.GamePacketOf(ReliableUdpPacket.Parsed(pending'[|pending|].packetBuffer).value) == game)
  {
    hide ReliableUdpPacket.Parsed, ReliableUdpPacket.GamePacketOf, Session.AfterSend, CanGoOut;
    if e in r.sessions && game.Some? {
      SendingGoesOut(r.sessions[e].session, game.value, now);
    }
  }

  predicate CanGoOut(s: Session.SessionState, game: PacketWire.Bytes) {
    && ReliableUdpPacket.IsReliableGamePacket(game)
    && |game| + ReliableUdpPacket.RELIABLE_HEADER_WIRE_SIZE <= PacketWire.MAX_SERIALIZED_PACKET_SIZE
    && |s.window.pending| < s.window.config.maxPendingPacketCount
  }

  lemma SendingGoesOut(s: Session.SessionState, game: PacketWire.Bytes, now: int)
    ensures var (s', outcome) := Session.AfterSend(s, game, now);
            && (outcome.Sent? <==> CanGoOut(s, game))
            && (outcome.Sent? ==>
                  && |s'.window.pending| == |s.window.pending| + 1 && s.window.pending < s'.window.pending
                  && ReliableUdpPacket.Parsed(s'.window.pending[|s.window.pending|].packetBuffer).Some?
                  && ReliableUdpPacket.GamePacketOf(ReliableUdpPacket.Parsed(s'.window.pending[|s.window.pending|].packetBuffer).value) == Some(game))
  {
    hide ReliableUdpPacket.Parsed, ReliableUdpPacket.GamePacketOf, Session.AfterSend, ReliableUdpPacket.IsReliableGamePacket;
    Session.SendingIsExact(s, game, now);
  }
}
