// Bullets and effects stay as long as their rooms do.

module UdpServerTransients {
  import opened GameIds
  import opened SessionToken
  import opened GameWorld
  import opened GameSimulation
  import opened Arena
  import opened PeerRoomManager
  import opened MatchHistoryTracker
  import opened PeerSessionService
  import opened PlayerCommandService
  import opened StatePool
  import opened UdpServerModel
  import opened UdpServerInvariants
  import opened UdpServerRequests
  import opened UdpServerRuns
  import opened Wrappers
  import Admission = AccountLoginAdmissionService
  import Auth = AuthenticatedUdpPacket

  /** Each state is there as often as before, or it is gone and its room has no members. */
  ghost predicate KeptOrEmptied<T(!new)>(list: seq<T>, list': seq<T>, roomOf: T -> RoomId, t: PeerTables) {
    forall x :: multiset(list')[x] == multiset(list)[x] || (multiset(list')[x] == 0 && MemberCount(t, roomOf(x)) == 0)
  }

  ghost predicate LosesOnlyEmptiedRooms(w: World, w': World, t: PeerTables) {
    KeptOrEmptied(w.bullets, w'.bullets, BulletRoom, t) && KeptOrEmptied(w.effects, w'.effects, EffectRoom, t)
  }

  lemma ClearingLosesOnlyEmptied(w: World, r: RoomId, t: PeerTables)
    requires MemberCount(t, r) == 0
    ensures LosesOnlyEmptiedRooms(w, WithoutTransients(w, r), t)
  {
    hide MemberCount, WithoutRoom;
    TransientsOfOthersStay(w, r);
  }

  lemma DepartingLosesOnlyEmptied(w: World, t: PeerTables, playerId: PlayerId, r: RoomId)
    ensures LosesOnlyEmptiedRooms(w, DepartedWorld(w, t, playerId, r), t)
  {
    hide MemberCount, WithoutRoom;
    if MemberCount(t, r) == 0 {
      ClearingLosesOnlyEmptied(WithoutPlayer(w, playerId), r, t);
    }
  }

  lemma LeavingLosesOnlyEmptied(s: Lobby, e: EndpointKey)
    requires IsJoinedPeer(s.tables, e)
    ensures LosesOnlyEmptiedRooms(s.world, LeftPeer(s, e).world, LeftPeer(s, e).tables)
  {
    hide MemberCount, Removed, LosesOnlyEmptiedRooms;
    DepartingLosesOnlyEmptied(s.world, Removed(s.tables, e), s.tables.peers[e].playerId, s.tables.peers[e].roomId);
  }

  lemma MovingLosesOnlyEmptied(s: Lobby, e: EndpointKey, next: RoomId, arena: Arena, now: int)
    requires MayChangeRoom(s, e, next)
    ensures var s' := ChangedRoom(s, e, next, arena, now); LosesOnlyEmptiedRooms(s.world, s'.world, s'.tables)
  {
    hide MemberCount, RoomChanged, WithoutRoom;
    var tables, previous := RoomChanged(s.tables, e, next, now), s.tables.peers[e].roomId;
    if MemberCount(tables, previous) == 0 {
      ClearingLosesOnlyEmptied(s.world, previous, tables);
    }
  }

  lemma {:induction false} DepartingAllLosesOnlyEmptied(w: World, t: PeerTables, peers: PeerTable, gone: seq<EndpointKey>)
    requires forall e :: e in gone ==> e in peers
    ensures LosesOnlyEmptiedRooms(w, DepartedAll(w, t, peers, gone), t)
  {
    hide MemberCount, DepartedWorld;
    if gone != [] {
      var last, before := gone[|gone| - 1], DepartedAll(w, t, peers, gone[..|gone| - 1]);
      DepartingAllLosesOnlyEmptied(w, t, peers, gone[..|gone| - 1]);
      DepartingLosesOnlyEmptied(before, t, peers[last].playerId, peers[last].roomId);
    }
  }

  lemma JoiningLosesNothing(c: ServerConfig, s: Lobby, e: EndpointKey, token: SessionToken, found: Option<EndpointKey>, now: int)
    requires IsRecoverableWith(s.tables, token, found) && TablesAgree(s.tables) && PlayersAgree(s.tables.peers, s.world)
    ensures var s' := JoinAuthenticated(s, e, token, found, c.initialRoomId, c.gameRule, c.arena, now).lobby;
            LosesOnlyEmptiedRooms(s.world, s'.world, s'.tables)
  {
    hide TablesAgree, PlayersAgree, JoinAuthenticated, MemberCount, Created;
    var o := JoinAuthenticated(s, e, token, found, c.initialRoomId, c.gameRule, c.arena, now);
    JoinShape(c, s, e, token, found, now);
    if o.status == Joined {
      CreatedKeepsAccounts(s, e, WaitingIdentity(s.accounts[e]), c.initialRoomId, c.gameRule, c.arena, now);
    }
  }

  /** A step that neither simulates nor fires nor clears everything. */
  predicate LeavesTransients(event: Event) {
    !event.Tick? && !event.Fire? && !event.BroadcastSnapshots? && !event.Stop?
  }

  lemma StepLosesOnlyEmptied(
      c: ServerConfig, mac: Auth.Authenticator, directory: Admission.Directory, stands: Standing, s: ServerState, event: Event)
    requires IsSoundState(directory, stands, s) && IsEnabled(c, directory, s, event) && LeavesTransients(event)
    ensures var s' := After(c, mac, directory, s, event).lobby; LosesOnlyEmptiedRooms(s.lobby.world, s'.world, s'.tables)
  {
    hide MemberCount, LeftPeer, ChangedRoom, DepartedAll, WithoutPeers, JoinAuthenticated, TablesAgree, PlayersAgree, MarkedRecoverable, InputApplied;
    hide AreSound, PeersStand, HavePositiveRooms, Admission.HasOneOwner, MatchesAgree, IsKept, SessionsAgree, TransientsBacked;
    match event
    case Join(e, token, found, now, _) => JoiningLosesNothing(c, s.lobby, e, token, found, now);
    case Leave(e, _, _, _) => if IsJoinedPeer(s.lobby.tables, e) { LeavingLosesOnlyEmptied(s.lobby, e); }
    case Kick(_, Some(e), _, _, _) => LeavingLosesOnlyEmptied(s.lobby, e);
    case ChangeRoom(e, next, _, now, _) => if MayChangeRoom(s.lobby, e, next) { MovingLosesOnlyEmptied(s.lobby, e, next, c.arena, now); }
    case Timeouts(gone, now, _) =>
      var marked := TimedOutMarked(s.lobby, now, c.peerTimeout);
      DepartingAllLosesOnlyEmptied(marked.world, ExpiredRemoved(marked, gone).tables, marked.tables.peers, gone);
    case Input(_, _, _, _) => InputTouches(s.lobby, event, c.arena);
    case _ =>
  }

  /** In every run, a step that neither simulates nor fires nor clears everything takes away exactly the bullets and effects whose
      room has no peers after it. */
  lemma TransientsGoExactlyWithTheirRooms(
      c: ServerConfig, mac: Auth.Authenticator, directory: Admission.Directory, stands: Standing, states: seq<ServerState>, events: seq<Event>, n: nat)
    requires IsSoundConfig(c, stands) && Admission.IsOneToOne(directory) && IsRun(c, mac, directory, states, events) && n < |events|
    requires LeavesTransients(events[n])
    ensures var w, w', rooms' := states[n].lobby.world, states[n + 1].lobby.world, states[n + 1].lobby.tables.rooms;
            && (forall b :: multiset(w'.bullets)[b] == if b.roomId in rooms' then multiset(w.bullets)[b] else 0)
            && forall x :: multiset(w'.effects)[x] == if x.roomId in rooms' then multiset(w.effects)[x] else 0
  {
    hide IsSoundConfig, Admission.IsOneToOne, IsSoundState, After, IsEnabled, MemberCount;
    EveryRunIsSound(c, mac, directory, stands, states, events, n);
    StepLosesOnlyEmptied(c, mac, directory, stands, states[n], events[n]);
    BulletsBelongToLiveRooms(c, mac, directory, stands, states, events, n + 1);
    EveryRunIsSound(c, mac, directory, stands, states, events, n + 1);
    RoomsHaveMembers(directory, stands, states[n + 1]);
  }

  lemma RoomsHaveMembers(directory: Admission.Directory, stands: Standing, s: ServerState)
    requires IsSoundState(directory, stands, s)
    ensures forall r :: MemberCount(s.lobby.tables, r) == 0 <==> r !in s.lobby.tables.rooms
  {
    hide MemberCount, TablesAgree;
    forall r
      ensures MemberCount(s.lobby.tables, r) == 0 <==> r !in s.lobby.tables.rooms
    {
      RoomIsEmptyIff(s.lobby.tables, r);
    }
  }
}
