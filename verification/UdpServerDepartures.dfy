// Leaving, being kicked, expiring and changing rooms keep the server's tables in agreement.

module UdpServerDepartures {
  import opened GameIds
  import opened SessionToken
  import opened StatePool
  import opened GameWorld
  import opened GameSimulation
  import opened Arena
  import opened PeerRoomManager
  import opened MatchHistoryTracker
  import opened PeerSessionService
  import opened AuthenticatedAccountRegistry
  import opened UdpServerModel
  import opened UdpServerInvariants
  import opened UdpServerRequests
  import opened Wrappers
  import PacketWire
  import Admission = AccountLoginAdmissionService
  import Registry = ReliableUdpSessionRegistry

  // A list of peers goes.

  ghost predicate IsDeparture(peers: PeerTable, gone: seq<EndpointKey>) {
    && (forall e :: e in gone ==> e in peers)
    && forall i, j :: 0 <= i < j < |gone| ==> gone[i] != gone[j]
  }

  function AsSet(gone: seq<EndpointKey>): set<EndpointKey> {
    set e | e in gone
  }

  lemma LastOfSet(gone: seq<EndpointKey>)
    requires gone != []
    ensures AsSet(gone) == AsSet(gone[..|gone| - 1]) + {gone[|gone| - 1]}
  {
  }

  /** The world after these players are gone: nobody else is, and exactly what is in no emptied room
      still flies or flashes. */
  ghost predicate IsWorldWithout(w: World, w': World, t: PeerTables, peers: PeerTable, gone: set<EndpointKey>)
    requires gone <= peers.Keys
  {
    && w'.nextPlayerId == w.nextPlayerId
    && w'.players == w.players - (set e | e in gone :: peers[e].playerId)
    && (forall b :: b in w'.bullets <==> b in w.bullets && forall e :: e in gone ==> peers[e].roomId == b.roomId ==> MemberCount(t, b.roomId) != 0)
    && forall x :: x in w'.effects <==> x in w.effects && forall e :: e in gone ==> peers[e].roomId == x.roomId ==> MemberCount(t, x.roomId) != 0
  }

  lemma DepartedOne(w0: World, w: World, t: PeerTables, peers: PeerTable, gone: set<EndpointKey>, e: EndpointKey)
    requires gone <= peers.Keys && e in peers && IsWorldWithout(w0, w, t, peers, gone)
    ensures IsWorldWithout(w0, DepartedWorld(w, t, peers[e].playerId, peers[e].roomId), t, peers, gone + {e})
  {
    hide MemberCount, WithoutRoom;
    TransientsOfOthersRemain(WithoutPlayer(w, peers[e].playerId), peers[e].roomId);
    var w' := DepartedWorld(w, t, peers[e].playerId, peers[e].roomId);
    assert w'.players == w0.players - (set f | f in gone + {e} :: peers[f].playerId);
  }

  lemma {:induction false} DepartedAllShape(w: World, t: PeerTables, peers: PeerTable, gone: seq<EndpointKey>)
    requires forall e :: e in gone ==> e in peers
    ensures AsSet(gone) <= peers.Keys && IsWorldWithout(w, DepartedAll(w, t, peers, gone), t, peers, AsSet(gone))
  {
    if gone == [] {
      assert AsSet(gone) == {};
      assert w.players == w.players - (set e | e in AsSet(gone) :: peers[e].playerId);
    } else {
      hide IsWorldWithout, DepartedWorld;
      var last := gone[|gone| - 1];
      DepartedAllShape(w, t, peers, gone[..|gone| - 1]);
      DepartedOne(w, DepartedAll(w, t, peers, gone[..|gone| - 1]), t, peers, AsSet(gone[..|gone| - 1]), last);
      LastOfSet(gone);
    }
  }

  lemma WithoutPeersStand(peers: PeerTable, players: PlayerTable, gone: set<EndpointKey>, lost: set<PlayerId>, stands: Standing)
    requires PeersStand(peers, players, stands) && AreSound(players) && HavePositiveRooms(peers)
    ensures PeersStand(peers - gone, players - lost, stands) && AreSound(players - lost) && HavePositiveRooms(peers - gone)
  {
  }

  lemma WithoutPeersOwn(
      directory: Admission.Directory, t: PeerTables, t': PeerTables, accounts: AccountTable, gone: set<EndpointKey>)
    requires Admission.HasOneOwner(t, accounts, directory) && t'.peers == t.peers - gone
    ensures Admission.HasOneOwner(t', accounts, directory)
  {
  }

  lemma DepartureKeepsLobby(directory: Admission.Directory, stands: Standing, s: Lobby, gone: seq<EndpointKey>)
    requires IsSoundLobby(directory, stands, s) && IsDeparture(s.tables.peers, gone)
    ensures IsSoundLobby(directory, stands, ExpiredRemoved(s, gone))
    ensures ExpiredRemoved(s, gone).tables.peers == s.tables.peers - AsSet(gone)
  {
    hide TablesAgree, PlayersAgree, AreSound, PeersStand, HavePositiveRooms, Admission.HasOneOwner, WithoutPeers, DepartedAll;
    var removed := ExpiredRemoved(s, gone);
    RemovalsKeepAgreement(s.tables, gone);
    DepartedAllShape(s.world, removed.tables, s.tables.peers, gone);
    RemovedPlayersAgree(s.tables.peers, s.world, removed.world, AsSet(gone));
    WithoutPeersStand(s.tables.peers, s.world.players, AsSet(gone), set e | e in AsSet(gone) :: s.tables.peers[e].playerId, stands);
    WithoutPeersOwn(directory, s.tables, removed.tables, s.accounts, AsSet(gone));
  }

  // Their matches.

  ghost predicate HaveIds(peers: PeerTable) {
    && (forall e :: e in peers ==> peers[e].persistentPlayerId.value > 0 && peers[e].roomId.value > 0)
    && forall e, f :: e in peers && f in peers && e != f ==> peers[e].persistentPlayerId != peers[f].persistentPlayerId
  }

  lemma OwnersHaveIds(directory: Admission.Directory, t: PeerTables, accounts: AccountTable)
    requires Admission.HasOneOwner(t, accounts, directory) && Admission.IsOneToOne(directory) && HavePositiveRooms(t.peers)
    ensures HaveIds(t.peers)
  {
    forall e, f | e in t.peers && f in t.peers && e != f
      ensures t.peers[e].persistentPlayerId != t.peers[f].persistentPlayerId
    {
      Admission.PeersHaveDistinctIds(t, accounts, directory, e, f);
    }
  }

  lemma RetainedTwice(m0: ActiveMatchTable, m1: ActiveMatchTable, m2: ActiveMatchTable)
    requires IsRetained(m0, m1) && IsRetained(m1, m2)
    ensures IsRetained(m0, m2)
  {
  }

  /** Each peer of the list, in its turn, leaves its match without fail. */
  lemma {:induction false} LeftAllAgrees(peers: PeerTable, m: MatchState, gone: seq<EndpointKey>, now: int)
    requires MatchesAgree(peers, m.matches) && IsKept(m) && HaveIds(peers) && IsDeparture(peers, gone)
    ensures var m' := LeftAll(m, peers, gone, now);
            MatchesAgree(peers - AsSet(gone), m'.matches) && IsKept(m') && IsRetained(m.matches, m'.matches)
    ensures AllCanLeave(m, peers, gone, now)
  {
    hide MatchesAgree, IsKept, Left, CanLeave, IsRetained, AllCanLeave;
    if gone == [] {
      assert peers - AsSet(gone) == peers;
      AllRetained(m.matches);
      NoneMustLeave(m, peers, now);
    } else {
      var earlier, last := gone[..|gone| - 1], gone[|gone| - 1];
      var before, rest := LeftAll(m, peers, earlier, now), peers - AsSet(earlier);
      LeftAllAgrees(peers, m, earlier, now);
      assert last in rest && rest[last] == peers[last];
      LeavingAgrees(rest, before, last, now);
      LeaveKeeps(before, peers[last].roomId, peers[last].persistentPlayerId, now);
      LastOfSet(gone);
      assert rest - {last} == peers - AsSet(gone);
      RetainedTwice(m.matches, before.matches, LeftAll(m, peers, gone, now).matches);
      OneMoreCanLeave(m, peers, gone, now);
    }
  }

  lemma NoneMustLeave(m: MatchState, peers: PeerTable, now: int)
    ensures AllCanLeave(m, peers, [], now)
  {
  }

  lemma OneMoreCanLeave(m: MatchState, peers: PeerTable, gone: seq<EndpointKey>, now: int)
    requires gone != [] && forall e :: e in gone ==> e in peers
    requires AllCanLeave(m, peers, gone[..|gone| - 1], now)
    requires var last := gone[|gone| - 1];
             CanLeave(LeftAll(m, peers, gone[..|gone| - 1], now), peers[last].roomId, peers[last].persistentPlayerId)
    ensures AllCanLeave(m, peers, gone, now)
  {
    hide CanLeave, LeftAll;
    var earlier := gone[..|gone| - 1];
    forall k | 0 <= k < |gone|
      ensures CanLeave(LeftAll(m, peers, gone[..k], now), peers[gone[k]].roomId, peers[gone[k]].persistentPlayerId)
    {
      if k < |earlier| {
        assert earlier[..k] == gone[..k] && earlier[k] == gone[k];
      }
    }
  }

  lemma AllRetained(matches: ActiveMatchTable)
    ensures IsRetained(matches, matches)
  {
  }

  lemma MemberOfMatch(peers: PeerTable, matches: ActiveMatchTable, r: RoomId) returns (e: EndpointKey)
    requires MatchesAgree(peers, matches) && r in matches
    ensures e in peers && peers[e].roomId == r
  {
    var id :| id in matches[r].activePlayerSet;
    assert HasMember(peers, r, id);
    e :| e in peers && peers[e].roomId == r && peers[e].persistentPlayerId == id;
  }

  /** A room of the old matches is a room of the new ones, or its last peers are among the gone and it is empty. */
  lemma RoomOfMatch(
      t: PeerTables, t': PeerTables, matches: ActiveMatchTable, matches': ActiveMatchTable, gone: set<EndpointKey>, r: RoomId)
    requires MatchesAgree(t.peers, matches) && PeersAreActive(t'.peers, matches') && TablesAgree(t')
    requires t'.peers == t.peers - gone && r in matches
    ensures r in matches' || (MemberCount(t', r) == 0 && exists e :: e in gone && e in t.peers && t.peers[e].roomId == r)
  {
    hide MatchesAgree, TablesAgree, MemberCount;
    var e := MemberOfMatch(t.peers, matches, r);
    if e !in t'.peers && r !in matches' {
      RoomIsEmptyIff(t', r);
    }
  }

  lemma DepartedTransients(
      w: World, w': World, t: PeerTables, t': PeerTables, matches: ActiveMatchTable, matches': ActiveMatchTable, gone: set<EndpointKey>)
    requires MatchesAgree(t.peers, matches) && PeersAreActive(t'.peers, matches') && TablesAgree(t') && t'.peers == t.peers - gone
    requires gone <= t.peers.Keys && IsWorldWithout(w, w', t', t.peers, gone)
    requires TransientsBacked(w, matches) && IsRetained(matches, matches')
    ensures TransientsBacked(w', matches')
  {
    hide MatchesAgree, PeersAreActive, TablesAgree, MemberCount;
    forall b | b in w'.bullets
      ensures b.roomId in matches'
    {
      RoomOfMatch(t, t', matches, matches', gone, b.roomId);
    }
    forall x | x in w'.effects
      ensures x.roomId in matches'
    {
      RoomOfMatch(t, t', matches, matches', gone, x.roomId);
    }
  }

  /** Peers, players, rooms, bullets and matches after a list of peers is gone. */
  lemma DepartureKeepsMatches(
      directory: Admission.Directory, stands: Standing, s: Lobby, m: MatchState, gone: seq<EndpointKey>, now: int)
    requires IsSoundLobby(directory, stands, s) && Admission.IsOneToOne(directory) && IsDeparture(s.tables.peers, gone)
    requires MatchesAgree(s.tables.peers, m.matches) && IsKept(m) && TransientsBacked(s.world, m.matches)
    ensures var s', m' := ExpiredRemoved(s, gone), LeftAll(m, s.tables.peers, gone, now);
            && IsSoundLobby(directory, stands, s') && s'.tables.peers == s.tables.peers - AsSet(gone)
            && MatchesAgree(s'.tables.peers, m'.matches) && IsKept(m') && TransientsBacked(s'.world, m'.matches)
    ensures AllCanLeave(m, s.tables.peers, gone, now)
  {
    hide TablesAgree, PlayersAgree, AreSound, PeersStand, HavePositiveRooms, Admission.HasOneOwner, Admission.IsOneToOne, WithoutPeers, DepartedAll;
    hide IsKept, TransientsBacked, LeftAll, IsWorldWithout, PeersAreActive, ActiveArePeers, HaveIds, CanLeave, IsRetained;
    var s' := ExpiredRemoved(s, gone);
    DepartureKeepsLobby(directory, stands, s, gone);
    OwnersHaveIds(directory, s.tables, s.accounts);
    LeftAllAgrees(s.tables.peers, m, gone, now);
    DepartedAllShape(s.world, s'.tables, s.tables.peers, gone);
    DepartedTransients(s.world, s'.world, s.tables, s'.tables, m.matches, LeftAll(m, s.tables.peers, gone, now).matches, AsSet(gone));
  }

  // One peer goes, and its session closes.

  lemma DepartureOfOne(s: Lobby, e: EndpointKey, m: MatchState, now: int)
    requires IsJoinedPeer(s.tables, e)
    ensures LeftPeer(s, e) == ExpiredRemoved(s, [e])
    ensures Left(m, s.tables.peers[e].roomId, s.tables.peers[e].persistentPlayerId, now) == LeftAll(m, s.tables.peers, [e], now)
    ensures LeftAll(m, s.tables.peers, [e][..0], now) == m
  {
    hide Removed, DepartedWorld, Left;
    assert [e][..0] == [];
    assert WithoutPeers(s.tables, [e]) == Removed(WithoutPeers(s.tables, []), e);
    assert DepartedAll(s.world, Removed(s.tables, e), s.tables.peers, []) == s.world;
  }

  lemma ClosedSessionAgrees(peers: PeerTable, r: Registry.RegistryState, e: EndpointKey, game: Option<PacketWire.Bytes>, now: int)
    requires SessionsAgree(peers, r) && e in peers
    ensures SessionsAgree(peers - {e}, ClosedSession(r, e, game, now))
  {
    hide Registry.AfterBuild;
    if game.Some? {
      BuildKeepsSessions(r, e, game.value, now);
    }
  }

  /** A peer that leaves leaves its match without fail, and all tables agree after it. */
  lemma DepartureKeeps(
      directory: Admission.Directory, stands: Standing, s: ServerState, e: EndpointKey, game: Option<PacketWire.Bytes>,
      now: int, systemNow: int)
    requires IsSoundState(directory, stands, s) && Admission.IsOneToOne(directory) && e in s.lobby.tables.peers && IsJoinedPeer(s.lobby.tables, e)
    ensures IsSoundState(directory, stands, AfterDeparture(s, e, game, now, systemNow))
    ensures CanLeave(s.matches, s.lobby.tables.peers[e].roomId, s.lobby.tables.peers[e].persistentPlayerId)
  {
    hide IsSoundLobby, MatchesAgree, IsKept, TransientsBacked, SessionsAgree, LeftPeer, Left, LeftAll, ClosedSession, CanLeave, ExpiredRemoved;
    hide Admission.IsOneToOne;
    DepartureOfOne(s.lobby, e, s.matches, systemNow);
    DepartureKeepsMatches(directory, stands, s.lobby, s.matches, [e], systemNow);
    ClosedSessionAgrees(s.lobby.tables.peers, s.sessions, e, game, now);
    assert AsSet([e]) == {e};
    assert [e][0] == e;
  }

  // Timeouts.

  lemma MarkedFaces(t: PeerTables, now: int, timeout: int)
    ensures SameFaces(t.peers, MarkedRecoverable(t, now, timeout).peers) && MarkedRecoverable(t, now, timeout).rooms == t.rooms
  {
  }

  lemma HaltedBodies(w: World, players: set<PlayerId>)
    ensures SameBodies(w.players, Halted(w, players).players)
    ensures Halted(w, players) == w.(players := Halted(w, players).players)
  {
  }

  lemma ExpiredAccountsOwn(directory: Admission.Directory, t: PeerTables, accounts: AccountTable, now: int, timeout: int)
    requires Admission.HasOneOwner(t, accounts, directory)
    ensures Admission.HasOneOwner(t, WithoutExpired(accounts, now, timeout), directory)
  {
  }

  /** Marked peers lose their sessions; expired ones, which have none, lose nothing more. */
  lemma TimedOutSessionsAgree(
      t: PeerTables, r: Registry.RegistryState, gone: set<EndpointKey>, now: int, timeout: int, gracePeriod: int)
    requires SessionsAgree(t.peers, r) && TablesAgree(t)
    requires gone == Expired(MarkedRecoverable(t, now, timeout), now, gracePeriod)
    ensures SessionsAgree(MarkedRecoverable(t, now, timeout).peers - gone, WithoutSessions(r, TimedOut(t, now, timeout)))
  {
  }

  lemma TimeoutsKeep(
      c: ServerConfig, directory: Admission.Directory, stands: Standing, s: ServerState, gone: seq<EndpointKey>, now: int,
      systemNow: int)
    requires IsSoundState(directory, stands, s) && Admission.IsOneToOne(directory)
    requires IsListing(gone, Expired(MarkedRecoverable(s.lobby.tables, now, c.peerTimeout), now, c.reconnectGracePeriod))
    ensures IsSoundState(directory, stands, AfterTimeouts(c, s, gone, now, systemNow))
    ensures AllCanLeave(s.matches, MarkedRecoverable(s.lobby.tables, now, c.peerTimeout).peers, gone, systemNow)
  {
    hide TablesAgree, PlayersAgree, AreSound, PeersStand, HavePositiveRooms, Admission.HasOneOwner, Admission.IsOneToOne, SameFaces, SameBodies;
    hide MatchesAgree, IsKept, TransientsBacked, SessionsAgree, Left, LeftAll, CanLeave, ExpiredRemoved, MarkedRecoverable, Halted, WithoutExpired;
    var marked := TimedOutMarked(s.lobby, now, c.peerTimeout);
    MarkedFaces(s.lobby.tables, now, c.peerTimeout);
    HaltedBodies(s.lobby.world, PlayersOf(s.lobby.tables, TimedOut(s.lobby.tables, now, c.peerTimeout)));
    TouchKeepsLobby(directory, stands, s.lobby, marked);
    SameFacesMatch(s.lobby.tables.peers, marked.tables.peers, s.matches.matches);
    GrowingStatsKeepTransients(s.lobby.world, marked.world, s.matches.matches, s.matches.matches);
    assert AsSet(gone) == Expired(marked.tables, now, c.reconnectGracePeriod);
    DepartureKeepsMatches(directory, stands, marked, s.matches, gone, systemNow);
    ExpiredKeepsAccounts(marked, gone);
    ExpiredAccountsOwn(directory, ExpiredRemoved(marked, gone).tables, s.lobby.accounts, now, c.peerTimeout);
    TimedOutSessionsAgree(s.lobby.tables, s.sessions, AsSet(gone), now, c.peerTimeout, c.reconnectGracePeriod);
  }

  lemma ExpiredKeepsAccounts(s: Lobby, gone: seq<EndpointKey>)
    requires forall e :: e in gone ==> e in s.tables.peers
    ensures ExpiredRemoved(s, gone).accounts == s.accounts
  {
  }

  // Changing rooms.

  lemma ChangedRoomTables(s: Lobby, e: EndpointKey, next: RoomId, arena: Arena, now: int)
    requires MayChangeRoom(s, e, next)
    ensures var s' := ChangedRoom(s, e, next, arena, now);
            && s'.tables == RoomChanged(s.tables, e, next, now) && s'.accounts == s.accounts
            && s'.tables.peers == s.tables.peers[e := s.tables.peers[e].(roomId := next, lastRecvTime := now)]
            && s'.world.nextPlayerId == s.world.nextPlayerId && s'.world.players.Keys == s.world.players.Keys
  {
  }

  lemma ChangedRoomStands(s: Lobby, e: EndpointKey, next: RoomId, arena: Arena, now: int, stands: Standing)
    requires MayChangeRoom(s, e, next) && KeepsStanding(arena, stands)
    requires PeersStand(s.tables.peers, s.world.players, stands) && AreSound(s.world.players) && HavePositiveRooms(s.tables.peers)
    requires forall f :: f in s.tables.peers && f != e ==> s.tables.peers[f].playerId != s.tables.peers[e].playerId
    ensures var s' := ChangedRoom(s, e, next, arena, now);
            PeersStand(s'.tables.peers, s'.world.players, stands) && AreSound(s'.world.players) && HavePositiveRooms(s'.tables.peers)
  {
    hide WithoutRoom, MemberCount, Inserted, Erased;
    var count := MemberCount(RoomChanged(s.tables, e, next, now), next);
    assert stands(arena.spawnPoint(next, if count > 0 then count - 1 else 0), next);
  }

  lemma ChangedRoomOwner(
      directory: Admission.Directory, t: PeerTables, t': PeerTables, accounts: AccountTable, e: EndpointKey, p: PeerState)
    requires Admission.HasOneOwner(t, accounts, directory) && e in t.peers && t'.peers == t.peers[e := p]
    requires p == t.peers[e].(roomId := p.roomId, lastRecvTime := p.lastRecvTime)
    ensures Admission.HasOneOwner(t', accounts, directory)
  {
  }

  lemma PlayersAreDistinct(peers: PeerTable, w: World, e: EndpointKey)
    requires PlayersAgree(peers, w) && e in peers
    ensures forall f :: f in peers && f != e ==> peers[f].playerId != peers[e].playerId
  {
  }

  lemma SamePlayersAgree(peers: PeerTable, w: World, w': World)
    requires PlayersAgree(peers, w) && w'.players.Keys == w.players.Keys && w'.nextPlayerId == w.nextPlayerId
    ensures PlayersAgree(peers, w')
  {
  }

  lemma RoomChangeKeepsLobby(
      c: ServerConfig, directory: Admission.Directory, stands: Standing, s: Lobby, e: EndpointKey, next: RoomId, now: int)
    requires IsSoundConfig(c, stands) && IsSoundLobby(directory, stands, s) && MayChangeRoom(s, e, next)
    ensures IsSoundLobby(directory, stands, ChangedRoom(s, e, next, c.arena, now))
  {
    hide TablesAgree, PlayersAgree, AreSound, PeersStand, HavePositiveRooms, Admission.HasOneOwner, KeepsStanding, ChangedRoom, RoomChanged;
    var s', p := ChangedRoom(s, e, next, c.arena, now), s.tables.peers[e].(roomId := next, lastRecvTime := now);
    ChangedRoomTables(s, e, next, c.arena, now);
    RoomChangeKeepsAgreement(s.tables, e, next, now);
    PlayersAreDistinct(s.tables.peers, s.world, e);
    ChangedRoomStands(s, e, next, c.arena, now, stands);
    ChangedRoomOwner(directory, s.tables, s'.tables, s.accounts, e, p);
    RekeyedPlayerAgrees(s.tables.peers, s.world, e, e, p);
    assert (s.tables.peers - {e})[e := p] == s.tables.peers[e := p];
    SamePlayersAgree(s'.tables.peers, s.world, s'.world);
  }

  /** Exactly what was there before, and not in the room left if that is empty now, still flies or flashes after a room change. */
  lemma ChangedRoomTransients(s: Lobby, e: EndpointKey, next: RoomId, arena: Arena, now: int)
    requires MayChangeRoom(s, e, next)
    ensures var s', previous := ChangedRoom(s, e, next, arena, now), s.tables.peers[e].roomId;
            && (forall b :: b in s'.world.bullets <==> b in s.world.bullets && (b.roomId == previous ==> MemberCount(s'.tables, previous) != 0))
            && forall x :: x in s'.world.effects <==> x in s.world.effects && (x.roomId == previous ==> MemberCount(s'.tables, previous) != 0)
  {
    hide WithoutRoom, MemberCount, RoomChanged;
    TransientsOfOthersRemain(s.world, s.tables.peers[e].roomId);
  }

  /** A room of a match keeps it when one peer leaves the room, unless the room is empty then. */
  lemma RoomKeepsMatch(
      t: PeerTables, t': PeerTables, matches: ActiveMatchTable, matches': ActiveMatchTable, e: EndpointKey, r: RoomId)
    requires MatchesAgree(t.peers, matches) && PeersAreActive(t.peers - {e}, matches') && TablesAgree(t')
    requires e in t.peers && e in t'.peers && t'.peers.Keys == t.peers.Keys && t'.peers[e].roomId != t.peers[e].roomId
    requires forall f :: f in t.peers && f != e ==> t'.peers[f] == t.peers[f]
    requires r in matches && (r == t.peers[e].roomId ==> MemberCount(t', r) != 0)
    ensures r in matches'
  {
    hide MatchesAgree, TablesAgree, MemberCount;
    var f := MemberOfMatch(t.peers, matches, r);
    if f == e {
      RoomIsEmptyIff(t', r);
      var g :| g in t'.peers && t'.peers[g].roomId == r;
      assert g in t.peers - {e};
    } else {
      assert f in t.peers - {e};
    }
  }

  lemma MovedTransients(
      s: Lobby, s': Lobby, matches: ActiveMatchTable, left: ActiveMatchTable, entered: ActiveMatchTable, e: EndpointKey)
    requires MatchesAgree(s.tables.peers, matches) && PeersAreActive(s.tables.peers - {e}, left) && TablesAgree(s'.tables)
    requires e in s.tables.peers && e in s'.tables.peers && s'.tables.peers == s.tables.peers[e := s'.tables.peers[e]]
    requires s'.tables.peers[e].roomId != s.tables.peers[e].roomId
    requires var previous := s.tables.peers[e].roomId;
             && (forall b :: b in s'.world.bullets ==> b in s.world.bullets && (b.roomId == previous ==> MemberCount(s'.tables, previous) != 0))
             && forall x :: x in s'.world.effects ==> x in s.world.effects && (x.roomId == previous ==> MemberCount(s'.tables, previous) != 0)
    requires TransientsBacked(s.world, matches) && IsRetained(matches, left) && KeepsStats(left, entered)
    ensures TransientsBacked(s'.world, entered)
  {
    hide MatchesAgree, PeersAreActive, TablesAgree, MemberCount;
    forall b | b in s'.world.bullets
      ensures b.roomId in left
    {
      RoomKeepsMatch(s.tables, s'.tables, matches, left, e, b.roomId);
    }
    forall x | x in s'.world.effects
      ensures x.roomId in left
    {
      RoomKeepsMatch(s.tables, s'.tables, matches, left, e, x.roomId);
    }
  }

  /** Leaving the match of the room left and entering that of the next room never fail. */
  lemma MovedMatchesAgree(peers: PeerTable, m: MatchState, e: EndpointKey, p: PeerState, now: int)
    requires MatchesAgree(peers, m.matches) && IsKept(m) && HaveIds(peers) && e in peers
    requires p.persistentPlayerId == peers[e].persistentPlayerId && p.roomId.value > 0
    ensures var left := Left(m, peers[e].roomId, p.persistentPlayerId, now);
            var entered := Entered(left, p.roomId, p.persistentPlayerId, now);
            && CanLeave(m, peers[e].roomId, p.persistentPlayerId) && CanEnter(left, p.roomId, p.persistentPlayerId)
            && PeersAreActive(peers - {e}, left.matches) && IsRetained(m.matches, left.matches) && KeepsStats(left.matches, entered.matches)
            && MatchesAgree(peers[e := p], entered.matches) && IsKept(entered)
  {
    hide PeersAreActive, ActiveArePeers, IsKept, Left, CanLeave, IsRetained, KeepsStats, Entered, CanEnter;
    var left := Left(m, peers[e].roomId, p.persistentPlayerId, now);
    LeavingAgrees(peers, m, e, now);
    LeaveKeeps(m, peers[e].roomId, p.persistentPlayerId, now);
    EnteringAgrees(peers - {e}, left, e, p, now);
    EnterKeeps(left, p.roomId, p.persistentPlayerId, now);
    assert (peers - {e})[e := p] == peers[e := p];
  }

  lemma BuiltSessionAgrees(peers: PeerTable, r: Registry.RegistryState, e: EndpointKey, game: Option<PacketWire.Bytes>, now: int)
    requires SessionsAgree(peers, r)
    ensures SessionsAgree(peers, if game.Some? then Registry.AfterBuild(r, e, game.value, now).0 else r)
  {
    hide Registry.AfterBuild;
    if game.Some? {
      BuildKeepsSessions(r, e, game.value, now);
      ClosingKeepsSessionsAgreed(peers, r, Registry.AfterBuild(r, e, game.value, now).0);
    }
  }

  lemma ChangeRoomKeeps(
      c: ServerConfig, directory: Admission.Directory, stands: Standing, s: ServerState,
      e: EndpointKey, next: RoomId, game: Option<PacketWire.Bytes>, now: int, systemNow: int)
    requires IsSoundConfig(c, stands) && IsSoundState(directory, stands, s) && Admission.IsOneToOne(directory)
    ensures IsSoundState(directory, stands, AfterChangeRoom(c, s, e, next, game, now, systemNow))
    ensures MayChangeRoom(s.lobby, e, next) ==>
              var peer := s.lobby.tables.peers[e];
              && CanLeave(s.matches, peer.roomId, peer.persistentPlayerId)
              && CanEnter(Left(s.matches, peer.roomId, peer.persistentPlayerId, systemNow), next, peer.persistentPlayerId)
  {
    hide TablesAgree, PlayersAgree, AreSound, PeersStand, HavePositiveRooms, Admission.HasOneOwner, Admission.IsOneToOne, IsSoundConfig;
    hide MatchesAgree, IsKept, TransientsBacked, SessionsAgree, Left, CanLeave, Entered, CanEnter, ChangedRoom, HaveIds, Registry.AfterBuild;
    hide PeersAreActive, IsRetained, KeepsStats, RoomChanged, MemberCount;
    if MayChangeRoom(s.lobby, e, next) {
      var peers, lobby := s.lobby.tables.peers, ChangedRoom(s.lobby, e, next, c.arena, now);
      var p := peers[e].(roomId := next, lastRecvTime := now);
      RoomChangeKeepsLobby(c, directory, stands, s.lobby, e, next, now);
      ChangedRoomTables(s.lobby, e, next, c.arena, now);
      OwnersHaveIds(directory, s.lobby.tables, s.lobby.accounts);
      MovedMatchesAgree(peers, s.matches, e, p, systemNow);
      ChangedRoomTransients(s.lobby, e, next, c.arena, now);
      var left := Left(s.matches, peers[e].roomId, p.persistentPlayerId, systemNow);
      MovedTransients(s.lobby, lobby, s.matches.matches, left.matches, Entered(left, next, p.persistentPlayerId, systemNow).matches, e);
      SameConnectionsAgree(peers, lobby.tables.peers, s.sessions);
      BuiltSessionAgrees(lobby.tables.peers, s.sessions, e, game, now);
    }
  }
}
