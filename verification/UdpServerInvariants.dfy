// What holds between the server's tables in every reachable state, and what follows from it.

module UdpServerInvariants {
  import opened GameIds
  import opened SessionToken
  import opened WorldCollision
  import opened GameWorld
  import opened GameSimulation
  import opened Arena
  import opened PeerRoomManager
  import opened MatchHistoryTracker
  import opened PeerSessionService
  import opened UdpServerModel
  import PacketWire
  import Admission = AccountLoginAdmissionService
  import Auth = AuthenticatedUdpPacket
  import Registry = ReliableUdpSessionRegistry

  // Peers and players.

  /** Players correspond one-to-one with peers. */
  ghost predicate PlayersAgree(peers: PeerTable, w: World) {
    && (forall e :: e in peers ==> peers[e].playerId in w.players)
    && (forall e, f :: e in peers && f in peers && e != f ==> peers[e].playerId != peers[f].playerId)
    && forall id :: id in w.players ==> exists e :: e in peers && peers[e].playerId == id
  }

  lemma AddedPlayerAgrees(peers: PeerTable, w: World, e: EndpointKey, p: PeerState, player: PlayerState)
    requires PlayersAgree(peers, w) && e !in peers && PlayerId(w.nextPlayerId) !in w.players
    requires p.playerId == player.playerId == PlayerId(w.nextPlayerId)
    ensures PlayersAgree(peers[e := p], WithPlayer(w.(nextPlayerId := NextId(w.nextPlayerId)), player))
  {
    var peers', w' := peers[e := p], WithPlayer(w.(nextPlayerId := NextId(w.nextPlayerId)), player);
    forall id | id in w'.players
      ensures exists f :: f in peers' && peers'[f].playerId == id
    {
      if id == p.playerId {
        assert peers'[e].playerId == id;
      } else {
        var f :| f in peers && peers[f].playerId == id;
        assert peers'[f].playerId == id;
      }
    }
  }

  lemma RemovedPlayersAgree(peers: PeerTable, w: World, w': World, gone: set<EndpointKey>)
    requires PlayersAgree(peers, w) && gone <= peers.Keys
    requires w'.nextPlayerId == w.nextPlayerId && w'.players == w.players - (set e | e in gone :: peers[e].playerId)
    ensures PlayersAgree(peers - gone, w')
  {
    forall id | id in w'.players
      ensures exists e :: e in peers - gone && (peers - gone)[e].playerId == id
    {
      var e :| e in peers && peers[e].playerId == id;
      assert e in peers - gone;
    }
  }

  lemma RekeyedPlayerAgrees(peers: PeerTable, w: World, previous: EndpointKey, next: EndpointKey, p: PeerState)
    requires PlayersAgree(peers, w) && previous in peers && p.playerId == peers[previous].playerId
    requires next == previous || next !in peers
    ensures PlayersAgree((peers - {previous})[next := p], w)
  {
    var peers' := (peers - {previous})[next := p];
    forall id | id in w.players
      ensures exists e :: e in peers' && peers'[e].playerId == id
    {
      var e :| e in peers && peers[e].playerId == id;
      assert peers'[if e == previous then next else e].playerId == id;
    }
  }

  /** Peers that differ at most in their connection, times and input sequences. */
  ghost predicate SameFaces(peers: PeerTable, peers': PeerTable) {
    && peers'.Keys == peers.Keys
    && forall e :: e in peers ==>
         peers'[e] == peers[e].(connectionState := peers'[e].connectionState, lastRecvTime := peers'[e].lastRecvTime,
                                recoverableSince := peers'[e].recoverableSince,
                                lastAcceptedInputSequence := peers'[e].lastAcceptedInputSequence,
                                lastProcessedInputSequence := peers'[e].lastProcessedInputSequence)
  }

  lemma SameFacesAgree(peers: PeerTable, peers': PeerTable, w: World, w': World)
    requires PlayersAgree(peers, w) && SameFaces(peers, peers')
    requires w'.players.Keys == w.players.Keys && w'.nextPlayerId == w.nextPlayerId
    ensures PlayersAgree(peers', w')
  {
    forall id | id in w'.players
      ensures exists e :: e in peers' && peers'[e].playerId == id
    {
      var e :| e in peers && peers[e].playerId == id;
      assert peers'[e].playerId == id;
    }
  }

  ghost predicate PeersStand(peers: PeerTable, players: PlayerTable, stands: (Position, RoomId) -> bool) {
    forall e :: e in peers && peers[e].playerId in players ==> stands(players[peers[e].playerId].position, peers[e].roomId)
  }

  // Matches and rooms.

  ghost predicate PeersAreActive(peers: PeerTable, matches: ActiveMatchTable) {
    forall e :: e in peers ==>
      peers[e].roomId in matches && peers[e].persistentPlayerId in matches[peers[e].roomId].activePlayerSet
  }

  ghost predicate HasMember(peers: PeerTable, r: RoomId, id: PersistentPlayerId) {
    exists e :: e in peers && peers[e].roomId == r && peers[e].persistentPlayerId == id
  }

  ghost predicate ActiveArePeers(peers: PeerTable, matches: ActiveMatchTable) {
    forall r, id :: r in matches && id in matches[r].activePlayerSet ==> HasMember(peers, r, id)
  }

  /** The active players of each match are the peers of its room, and a room has a match exactly while it has peers. */
  ghost predicate MatchesAgree(peers: PeerTable, matches: ActiveMatchTable) {
    && PeersAreActive(peers, matches) && ActiveArePeers(peers, matches)
    && forall r :: r in matches ==> matches[r].activePlayerSet != {}
  }

  lemma LeftPeersAreActive(peers: PeerTable, matches: ActiveMatchTable, e: EndpointKey)
    requires PeersAreActive(peers, matches) && e in peers
    requires forall f :: f in peers && f != e ==> peers[f].persistentPlayerId != peers[e].persistentPlayerId
    ensures PeersAreActive(peers - {e}, MatchesLeft(matches, peers[e].roomId, peers[e].persistentPlayerId))
  {
    var r, id := peers[e].roomId, peers[e].persistentPlayerId;
    var matches' := MatchesLeft(matches, r, id);
    forall f | f in peers - {e}
      ensures peers[f].roomId in matches' && peers[f].persistentPlayerId in matches'[peers[f].roomId].activePlayerSet
    {
      if peers[f].roomId == r {
        assert peers[f].persistentPlayerId in matches[r].activePlayerSet - {id};
      }
    }
  }

  lemma LeftActiveArePeers(peers: PeerTable, matches: ActiveMatchTable, e: EndpointKey)
    requires ActiveArePeers(peers, matches) && e in peers && peers[e].roomId in matches
    ensures ActiveArePeers(peers - {e}, MatchesLeft(matches, peers[e].roomId, peers[e].persistentPlayerId))
  {
    var r, id := peers[e].roomId, peers[e].persistentPlayerId;
    var matches' := MatchesLeft(matches, r, id);
    forall q, k | q in matches' && k in matches'[q].activePlayerSet
      ensures HasMember(peers - {e}, q, k)
    {
      assert k in matches[q].activePlayerSet && (q, k) != (r, id);
      assert HasMember(peers, q, k);
      var f :| f in peers && peers[f].roomId == q && peers[f].persistentPlayerId == k;
      assert f in peers - {e};
    }
  }

  /** A peer leaves its room's match: the attempt never fails, and the match completes if that was the last peer. */
  lemma LeavingAgrees(peers: PeerTable, m: MatchState, e: EndpointKey, now: int)
    requires MatchesAgree(peers, m.matches) && e in peers
    requires peers[e].roomId.value > 0 && peers[e].persistentPlayerId.value > 0
    requires forall f :: f in peers && f != e ==> peers[f].persistentPlayerId != peers[e].persistentPlayerId
    ensures CanLeave(m, peers[e].roomId, peers[e].persistentPlayerId)
    ensures var m' := Left(m, peers[e].roomId, peers[e].persistentPlayerId, now);
            MatchesAgree(peers - {e}, m'.matches) && IsRetained(m.matches, m'.matches)
  {
    LeftPeersAreActive(peers, m.matches, e);
    LeftActiveArePeers(peers, m.matches, e);
  }

  /** Whatever match is still there has kept its stats. */
  ghost predicate IsRetained(matches: ActiveMatchTable, matches': ActiveMatchTable) {
    forall r :: r in matches' ==> r in matches && matches'[r].playerStatsTable == matches[r].playerStatsTable
  }

  lemma EnteredPeersAgree(peers: PeerTable, matches: ActiveMatchTable, matches': ActiveMatchTable, e: EndpointKey, p: PeerState)
    requires PeersAreActive(peers, matches) && ActiveArePeers(peers, matches) && e !in peers
    requires matches'.Keys == matches.Keys + {p.roomId}
    requires forall r :: r in matches' ==>
               matches'[r].activePlayerSet == (if r in matches then matches[r].activePlayerSet else {})
                                              + (if r == p.roomId then {p.persistentPlayerId} else {})
    ensures PeersAreActive(peers[e := p], matches') && ActiveArePeers(peers[e := p], matches')
  {
    var peers' := peers[e := p];
    forall q, k | q in matches' && k in matches'[q].activePlayerSet
      ensures HasMember(peers', q, k)
    {
      if q == p.roomId && k == p.persistentPlayerId {
        assert peers'[e].roomId == q;
      } else {
        assert HasMember(peers, q, k);
        var f :| f in peers && peers[f].roomId == q && peers[f].persistentPlayerId == k;
        assert peers'[f].roomId == q;
      }
    }
  }

  /** A peer new to its room enters the room's match: the attempt never fails. */
  lemma EnteringAgrees(peers: PeerTable, m: MatchState, e: EndpointKey, p: PeerState, now: int)
    requires MatchesAgree(peers, m.matches) && e !in peers
    requires p.roomId.value > 0 && p.persistentPlayerId.value > 0
    requires forall f :: f in peers ==> peers[f].persistentPlayerId != p.persistentPlayerId
    ensures CanEnter(m, p.roomId, p.persistentPlayerId)
    ensures MatchesAgree(peers[e := p], Entered(m, p.roomId, p.persistentPlayerId, now).matches)
    ensures KeepsStats(m.matches, Entered(m, p.roomId, p.persistentPlayerId, now).matches)
  {
    assert !HasMember(peers, p.roomId, p.persistentPlayerId);
    EnteredPeersAgree(peers, m.matches, Entered(m, p.roomId, p.persistentPlayerId, now).matches, e, p);
  }

  /** Matches may come, and stats may grow. */
  ghost predicate KeepsStats(matches: ActiveMatchTable, matches': ActiveMatchTable) {
    forall r :: r in matches ==> r in matches' && matches[r].playerStatsTable.Keys <= matches'[r].playerStatsTable.Keys
  }

  lemma SameFacesMatch(peers: PeerTable, peers': PeerTable, matches: ActiveMatchTable)
    requires MatchesAgree(peers, matches) && SameFaces(peers, peers')
    ensures MatchesAgree(peers', matches)
  {
    forall r, id | r in matches && id in matches[r].activePlayerSet
      ensures HasMember(peers', r, id)
    {
      assert HasMember(peers, r, id);
      var e :| e in peers && peers[e].roomId == r && peers[e].persistentPlayerId == id;
      assert peers'[e].roomId == r;
    }
  }

  lemma RekeyedMatches(peers: PeerTable, matches: ActiveMatchTable, previous: EndpointKey, next: EndpointKey, p: PeerState)
    requires MatchesAgree(peers, matches) && previous in peers && (next == previous || next !in peers)
    requires p.roomId == peers[previous].roomId && p.persistentPlayerId == peers[previous].persistentPlayerId
    ensures MatchesAgree((peers - {previous})[next := p], matches)
  {
    var peers' := (peers - {previous})[next := p];
    forall r, id | r in matches && id in matches[r].activePlayerSet
      ensures HasMember(peers', r, id)
    {
      assert HasMember(peers, r, id);
      var e :| e in peers && peers[e].roomId == r && peers[e].persistentPlayerId == id;
      assert peers'[if e == previous then next else e].roomId == r;
    }
  }

  // Bullets and effects.

  /** Every bullet and pending effect belongs to a room with a match, which has stats for the bullet's owner. */
  ghost predicate TransientsBacked(w: World, matches: ActiveMatchTable) {
    && (forall b :: b in w.bullets ==>
          b.roomId in matches && b.ownerPersistentPlayerId in matches[b.roomId].playerStatsTable)
    && forall x :: x in w.effects ==> x.roomId in matches
  }

  // Sessions.

  /** The sessions that are not closing are exactly those of connected peers, under the peers' tokens. */
  ghost predicate SessionsAgree(peers: PeerTable, r: Registry.RegistryState) {
    && r.closing <= r.sessions.Keys
    && (forall e :: e in r.sessions && e !in r.closing <==> e in peers && peers[e].connectionState == Connected)
    && forall e :: e in r.sessions && e !in r.closing ==> r.sessions[e].sessionToken == peers[e].sessionToken
  }

  /** The same endpoints under the same tokens, except that closing ones may be gone. */
  ghost predicate ClosesOnly(r: Registry.RegistryState, r': Registry.RegistryState) {
    && r'.closing <= r.closing && r'.sessions.Keys <= r.sessions.Keys
    && (forall e :: e in r.sessions && e !in r.closing ==> e in r'.sessions)
    && (forall e :: e in r.closing ==> (e in r'.closing <==> e in r'.sessions))
    && forall e :: e in r'.sessions ==> r'.sessions[e].sessionToken == r.sessions[e].sessionToken
  }

  lemma ClosingKeepsSessionsAgreed(peers: PeerTable, r: Registry.RegistryState, r': Registry.RegistryState)
    requires SessionsAgree(peers, r) && ClosesOnly(r, r')
    ensures SessionsAgree(peers, r')
  {
  }

  lemma BuildKeepsSessions(r: Registry.RegistryState, e: EndpointKey, game: PacketWire.Bytes, now: int)
    requires r.closing <= r.sessions.Keys
    ensures ClosesOnly(r, Registry.AfterBuild(r, e, game, now).0)
    ensures Registry.AfterBuild(r, e, game, now).0.closing == r.closing
    ensures Registry.AfterBuild(r, e, game, now).1.Built? ==> e in r.sessions
  {
  }

  lemma RegistryStepsCloseOnly(mac: Auth.Authenticator, r: Registry.RegistryState, event: Registry.Event)
    requires r.closing <= r.sessions.Keys
    requires event.Authenticate? || event.Receive? || event.Resend?
    ensures ClosesOnly(r, Registry.After(mac, r, event))
  {
  }

  /** The same endpoints, connected alike under the same tokens. */
  ghost predicate SameConnections(peers: PeerTable, peers': PeerTable) {
    && peers'.Keys == peers.Keys
    && forall e :: e in peers' ==>
         peers'[e].connectionState == peers[e].connectionState && peers'[e].sessionToken == peers[e].sessionToken
  }

  lemma SameConnectionsAgree(peers: PeerTable, peers': PeerTable, r: Registry.RegistryState)
    requires SessionsAgree(peers, r) && SameConnections(peers, peers')
    ensures SessionsAgree(peers', r)
  {
  }

  // All of it together.

  type Standing = (Position, RoomId) -> bool

  /** What the configuration validator guarantees, and an arena in which standing players keep standing. */
  ghost predicate IsSoundConfig(c: ServerConfig, stands: Standing) {
    c.initialRoomId.value > 0 && c.gameRule.initialPlayerHp > 0 && KeepsStanding(c.arena, stands)
  }

  ghost predicate HavePositiveRooms(peers: PeerTable) {
    forall e :: e in peers ==> peers[e].roomId.value > 0
  }

  /** Peers, rooms, players and accounts agree. */
  ghost predicate IsSoundLobby(directory: Admission.Directory, stands: Standing, s: Lobby) {
    && TablesAgree(s.tables) && HavePositiveRooms(s.tables.peers)
    && PlayersAgree(s.tables.peers, s.world) && AreSound(s.world.players)
    && PeersStand(s.tables.peers, s.world.players, stands)
    && Admission.HasOneOwner(s.tables, s.accounts, directory)
  }

  /** All of the server's tables agree. */
  ghost predicate IsSoundState(directory: Admission.Directory, stands: Standing, s: ServerState) {
    && IsSoundLobby(directory, stands, s.lobby)
    && MatchesAgree(s.lobby.tables.peers, s.matches.matches) && IsKept(s.matches)
    && TransientsBacked(s.lobby.world, s.matches.matches)
    && SessionsAgree(s.lobby.tables.peers, s.sessions)
  }
}
