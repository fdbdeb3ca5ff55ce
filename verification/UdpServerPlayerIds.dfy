// Player ids are 32-bit counters: as long as fewer than 2^32 joins are made, every join finds its id free.

module UdpServerPlayerIds {
  import opened GameIds
  import opened SessionToken
  import opened GameWorld
  import opened GameSimulation
  import opened PeerRoomManager
  import opened MatchHistoryTracker
  import opened PeerSessionService
  import opened PlayerCommandService
  import opened AuthenticatedAccountRegistry
  import opened UdpServerModel
  import opened UdpServerInvariants
  import opened UdpServerRequests
  import opened UdpServerDepartures
  import opened UdpServerRuns
  import opened Wrappers
  import Admission = AccountLoginAdmissionService
  import Auth = AuthenticatedUdpPacket

  /** After `count` allocations: all ids in use are among those given out, and the next one follows them. */
  ghost predicate IdsUpTo(w: World, count: nat) {
    w.nextPlayerId == (1 + count) % RANGE && forall id :: id in w.players ==> 1 <= id.value <= count
  }

  /** No player is new, and no id was given out. */
  ghost predicate NoOneNew(w: World, w': World) {
    w'.nextPlayerId == w.nextPlayerId && w'.players.Keys <= w.players.Keys
  }

  lemma NoOneNewKeepsIds(w: World, w': World, count: nat)
    requires IdsUpTo(w, count) && NoOneNew(w, w')
    ensures IdsUpTo(w', count)
  {
  }

  lemma JoinTakesNextId(
      c: ServerConfig, s: Lobby, e: EndpointKey, token: SessionToken, found: Option<EndpointKey>, now: int, count: nat) returns (count': nat)
    requires IsRecoverableWith(s.tables, token, found) && TablesAgree(s.tables) && PlayersAgree(s.tables.peers, s.world)
    requires IdsUpTo(s.world, count) && count < RANGE - 1
    ensures var o := JoinAuthenticated(s, e, token, found, c.initialRoomId, c.gameRule, c.arena, now);
            IdsUpTo(o.lobby.world, count') && count' <= count + 1
  {
    hide TablesAgree, PlayersAgree, JoinAuthenticated;
    JoinShape(c, s, e, token, found, now);
    count' := if JoinAuthenticated(s, e, token, found, c.initialRoomId, c.gameRule, c.arena, now).status == Joined then count + 1 else count;
  }

  lemma DepartingBringsNoOne(w: World, t: PeerTables, playerId: PlayerId, r: RoomId)
    ensures NoOneNew(w, DepartedWorld(w, t, playerId, r))
  {
  }

  lemma {:induction false} DepartingAllBringsNoOne(w: World, t: PeerTables, peers: PeerTable, gone: seq<EndpointKey>)
    requires forall e :: e in gone ==> e in peers
    ensures NoOneNew(w, DepartedAll(w, t, peers, gone))
  {
    hide DepartedWorld;
    if gone != [] {
      var last, before := gone[|gone| - 1], DepartedAll(w, t, peers, gone[..|gone| - 1]);
      DepartingAllBringsNoOne(w, t, peers, gone[..|gone| - 1]);
      DepartingBringsNoOne(before, t, peers[last].playerId, peers[last].roomId);
    }
  }

  lemma OtherStepsBringNoOne(
      c: ServerConfig, mac: Auth.Authenticator, directory: Admission.Directory, stands: Standing, s: ServerState, event: Event)
    requires IsSoundConfig(c, stands) && IsSoundState(directory, stands, s) && IsOffered(c, directory, s, event)
    requires !event.Join? && !event.Stop?
    ensures NoOneNew(s.lobby.world, After(c, mac, directory, s, event).lobby.world)
  {
    hide DepartedWorld, ChangedRoom, DepartedAll, WithoutPeers, InputApplied, Fired, MarkedRecoverable, IsSoundState, IsSoundConfig;
    match event
    case Leave(e, _, _, _) =>
      if IsJoinedPeer(s.lobby.tables, e) {
        var peer := s.lobby.tables.peers[e];
        DepartingBringsNoOne(s.lobby.world, Removed(s.lobby.tables, e), peer.playerId, peer.roomId);
      }
    case Kick(_, Some(e), _, _, _) =>
      var peer := s.lobby.tables.peers[e];
      DepartingBringsNoOne(s.lobby.world, Removed(s.lobby.tables, e), peer.playerId, peer.roomId);
    case ChangeRoom(e, next, _, now, _) =>
      if MayChangeRoom(s.lobby, e, next) {
        ChangedRoomTables(s.lobby, e, next, c.arena, now);
      }
    case Timeouts(gone, now, _) =>
      var marked := TimedOutMarked(s.lobby, now, c.peerTimeout);
      DepartingAllBringsNoOne(marked.world, ExpiredRemoved(marked, gone).tables, marked.tables.peers, gone);
    case Input(_, _, _, _) => InputTouchesKeys(s.lobby, event, c);
    case Fire(e, now) => FireTouchesKeys(s.lobby, e, c, now);
    case Tick(order, players) => TickRecordsEveryKill(c, directory, stands, s, order, players);
    case _ =>
  }

  lemma InputTouchesKeys(s: Lobby, event: Event, c: ServerConfig)
    requires event.Input?
    ensures NoOneNew(s.world, InputApplied(s, event.endpoint, event.sequence, event.flags, c.arena, event.now).world)
  {
  }

  lemma FireTouchesKeys(s: Lobby, e: EndpointKey, c: ServerConfig, now: int)
    ensures NoOneNew(s.world, Fired(s, e, c.weaponRule, c.arena, now).world)
  {
  }

  function Joins(events: seq<Event>): nat {
    if events == [] then 0 else Joins(events[..|events| - 1]) + if events[|events| - 1].Join? then 1 else 0
  }

  lemma JoinStepTakesId(
      c: ServerConfig, directory: Admission.Directory, stands: Standing, s: ServerState, event: Event, count: nat)
    returns (count': nat)
    requires event.Join? && IsSoundState(directory, stands, s) && IsRecoverableWith(s.lobby.tables, event.token, event.recoverable)
    requires IdsUpTo(s.lobby.world, count) && count < RANGE - 1
    ensures IdsUpTo(AfterJoin(c, s, event.endpoint, event.token, event.recoverable, event.now, event.systemNow).lobby.world, count')
    ensures count' <= count + 1 && FindsFreeId(c, s, event.endpoint, event.token, event.recoverable, event.now)
  {
    hide AfterJoin, JoinOutcomeOf, TablesAgree, PlayersAgree, AreSound, PeersStand, HavePositiveRooms, IsRecoverableWith;
    hide Admission.HasOneOwner, MatchesAgree, IsKept, TransientsBacked, SessionsAgree;
    count' := JoinTakesNextId(c, s.lobby, event.endpoint, event.token, event.recoverable, event.now, count);
    AfterJoinWorld(c, s, event.endpoint, event.token, event.recoverable, event.now, event.systemNow);
  }

  lemma StepTakesIds(
      c: ServerConfig, mac: Auth.Authenticator, directory: Admission.Directory, stands: Standing, s: ServerState, event: Event, count: nat)
    returns (count': nat)
    requires IsSoundConfig(c, stands) && IsSoundState(directory, stands, s) && IsOffered(c, directory, s, event)
    requires IdsUpTo(s.lobby.world, count) && (event.Join? ==> count < RANGE - 1)
    ensures IdsUpTo(After(c, mac, directory, s, event).lobby.world, count')
    ensures count' <= count + if event.Join? then 1 else 0
    ensures event.Join? ==> IsOrderly(c, s, event)
  {
    hide IsSoundConfig, IsSoundState, After, AfterJoin, AfterStop, FindsFreeId, NoOneNew, IdsUpTo;
    hide IsEndpointOf, IsRecoverableWith, IsPeerOf, Expired, MarkedRecoverable;
    SectionIsStep(c, mac, directory, s, event);
    match event
    case Join(_, _, _, _, _) => count' := JoinStepTakesId(c, directory, stands, s, event, count);
    case Stop(wasRunning, order, systemNow) =>
      count' := 0;
      AfterStopWorld(s, wasRunning, order, systemNow);
    case _ =>
      count' := count;
      OtherStepsBringNoOne(c, mac, directory, stands, s, event);
      NoOneNewKeepsIds(s.lobby.world, After(c, mac, directory, s, event).lobby.world, count);
  }

  lemma AfterJoinWorld(
      c: ServerConfig, s: ServerState, e: EndpointKey, token: SessionToken, found: Option<EndpointKey>, now: int, systemNow: int)
    ensures AfterJoin(c, s, e, token, found, now, systemNow).lobby
         == JoinAuthenticated(s.lobby, e, token, found, c.initialRoomId, c.gameRule, c.arena, now).lobby
  {
  }

  lemma AfterStopWorld(s: ServerState, wasRunning: bool, order: seq<RoomId>, systemNow: int)
    requires forall r :: r in order ==> r in s.matches.matches
    ensures IdsUpTo(AfterStop(s, wasRunning, order, systemNow).lobby.world, 0)
  {
  }

  /** The states of the server through events of which nothing is asked about player ids. */
  ghost predicate IsOfferedRun(
      c: ServerConfig, mac: Auth.Authenticator, directory: Admission.Directory, states: seq<ServerState>, events: seq<Event>) {
    && |states| == |events| + 1 && states[0] == INITIAL_STATE
    && forall i :: 0 <= i < |events| ==>
         && IsOffered(c, directory, states[i], events[i]) && (events[i].Stop? ==> IsOrderly(c, states[i], events[i]))
         && states[i + 1] == After(c, mac, directory, states[i], events[i])
  }

  /** With fewer than 2^32 joins every join finds its player id free, and all results about runs apply. */
  lemma {:induction false} FewJoinsMakeARun(
      c: ServerConfig, mac: Auth.Authenticator, directory: Admission.Directory, stands: Standing, states: seq<ServerState>, events: seq<Event>)
    returns (count: nat)
    requires IsSoundConfig(c, stands) && Admission.IsOneToOne(directory)
    requires IsOfferedRun(c, mac, directory, states, events) && Joins(events) < RANGE
    ensures IsRun(c, mac, directory, states, events)
    ensures IdsUpTo(states[|events|].lobby.world, count) && count <= Joins(events)
    decreases |events|
  {
    hide IsSoundConfig, Admission.IsOneToOne, IsSoundState, After, IsOffered, IsOrderly, IdsUpTo;
    if events == [] {
      count := 0;
      InitialIds();
    } else {
      var n := |events| - 1;
      var earlier := states[..n + 1];
      forall i | 0 <= i < n
        ensures IsOffered(c, directory, earlier[i], events[..n][i]) && (events[..n][i].Stop? ==> IsOrderly(c, earlier[i], events[..n][i]))
        ensures earlier[i + 1] == After(c, mac, directory, earlier[i], events[..n][i])
      {
        assert earlier[i] == states[i] && earlier[i + 1] == states[i + 1] && events[..n][i] == events[i];
      }
      count := FewJoinsMakeARun(c, mac, directory, stands, earlier, events[..n]);
      EveryRunIsSound(c, mac, directory, stands, earlier, events[..n], n);
      count := StepTakesIds(c, mac, directory, stands, states[n], events[n], count);
      assert IsOrderly(c, states[n], events[n]) by {
        if !events[n].Stop? && !events[n].Join? {
          OthersAreOrderly(c, states[n], events[n]);
        }
      }
      forall i | 0 <= i < |events|
        ensures IsEnabled(c, directory, states[i], events[i])
      {
        if i < n {
          assert earlier[i] == states[i] && events[..n][i] == events[i];
          assert IsEnabled(c, directory, earlier[i], events[..n][i]);
        }
      }
    }
  }

  lemma InitialIds()
    ensures IdsUpTo(INITIAL_STATE.lobby.world, 0)
  {
  }

  lemma OthersAreOrderly(c: ServerConfig, s: ServerState, event: Event)
    requires !event.Join? && !event.Stop?
    ensures IsOrderly(c, s, event)
  {
  }
}
