// What the server's completed matches say: which room's match it was, from when to when, and what became of its players.

module UdpServerMatchTimes {
  import opened GameIds
  import opened SessionToken
  import opened GameSimulation
  import opened PeerRoomManager
  import opened MatchHistoryTracker
  import opened PeerSessionService
  import opened UdpServerModel
  import opened UdpServerInvariants
  import opened UdpServerRuns
  import Admission = AccountLoginAdmissionService
  import Auth = AuthenticatedUdpPacket
  import Registry = ReliableUdpSessionRegistry

  function SystemTimeOf(event: Event): int {
    match event
    case Join(_, _, _, _, systemNow) => systemNow
    case Leave(_, _, _, systemNow) => systemNow
    case Kick(_, _, _, _, systemNow) => systemNow
    case ChangeRoom(_, _, _, _, systemNow) => systemNow
    case Timeouts(_, _, systemNow) => systemNow
    case Stop(_, _, systemNow) => systemNow
    case _ => 0
  }

  /** When the room's match was opened, as of the first `n` events: at the last one that found none there and left one. */
  function OpenedAt(states: seq<ServerState>, events: seq<Event>, n: nat, r: RoomId): int
    requires n <= |events| < |states|
  {
    if n == 0 then 0
    else if r !in states[n - 1].matches.matches && r in states[n].matches.matches then SystemTimeOf(events[n - 1])
    else OpenedAt(states, events, n - 1, r)
  }

  /** The record of a match that ended at a time. */
  ghost predicate IsRecordOf(c: CompletedMatch, a: ActiveMatch, time: int) {
    && c.roomId == a.roomId && c.startedAt == a.startedAt && c.endedAt == time && IsSortedListing(c.playerStatsList, a.playerStatsTable)
  }

  /** The matches that were there and still are bear the same times; new ones bear this time; the ended ones, and they
      alone, have each left one record, of this time. */
  ghost predicate IsMatchStep(m: MatchState, m': MatchState, time: int) {
    && (forall r :: r in m'.matches ==> m'.matches[r].startedAt == if r in m.matches then m.matches[r].startedAt else time)
    && |m.completed| <= |m'.completed| && m.completed <= m'.completed
    && (forall i :: |m.completed| <= i < |m'.completed| ==>
          m'.completed[i].roomId in m.matches && m'.completed[i].roomId !in m'.matches && IsRecordOf(m'.completed[i], m.matches[m'.completed[i].roomId], time))
    && (forall i, j :: |m.completed| <= i < j < |m'.completed| ==> m'.completed[i].roomId != m'.completed[j].roomId)
    && forall r :: r in m.matches && r !in m'.matches ==> exists i :: |m.completed| <= i < |m'.completed| && m'.completed[i].roomId == r
  }

  /** A step in which nobody enters. */
  ghost predicate IsLeavingStep(m: MatchState, m': MatchState, time: int) {
    IsMatchStep(m, m', time) && forall r :: r in m'.matches ==> r in m.matches && m'.matches[r] == m.matches[r].(activePlayerSet := m'.matches[r].activePlayerSet)
  }

  lemma NobodyLeaves(m: MatchState, time: int)
    ensures IsLeavingStep(m, m, time)
  {
  }

  lemma OneLeaves(m: MatchState, r: RoomId, id: PersistentPlayerId, time: int)
    requires IsKept(m)
    ensures IsLeavingStep(m, Left(m, r, id, time), time)
  {
    hide IsSortedListing, IsBalanced, SortedStats;
    if CanLeave(m, r, id) {
      LeavingCompletesMatch(m, r, id, time);
      assert IsKeptMatch(m.matches[r], r);
      var m' := Left(m, r, id, time);
      assert forall q :: q in m.matches && q !in m'.matches ==> q == r && m'.completed[|m.completed|].roomId == q;
    } else {
      NobodyLeaves(m, time);
    }
  }

  lemma LeavingStepsCompose(m0: MatchState, m1: MatchState, m2: MatchState, time: int)
    requires IsLeavingStep(m0, m1, time) && IsLeavingStep(m1, m2, time)
    ensures IsLeavingStep(m0, m2, time)
  {
    hide IsSortedListing;
    forall i | |m0.completed| <= i < |m2.completed|
      ensures m2.completed[i].roomId in m0.matches && m2.completed[i].roomId !in m2.matches
      ensures IsRecordOf(m2.completed[i], m0.matches[m2.completed[i].roomId], time)
    {
      if i < |m1.completed| {
        assert m2.completed[i] == m1.completed[i];
      }
    }
    forall r | r in m0.matches && r !in m2.matches
      ensures exists i :: |m0.completed| <= i < |m2.completed| && m2.completed[i].roomId == r
    {
      if r !in m1.matches {
        var i :| |m0.completed| <= i < |m1.completed| && m1.completed[i].roomId == r;
        assert m2.completed[i] == m1.completed[i];
      }
    }
  }

  lemma {:induction false} ManyLeave(m: MatchState, peers: PeerTable, gone: seq<EndpointKey>, time: int)
    requires IsKept(m) && forall e :: e in gone ==> e in peers
    ensures IsKept(LeftAll(m, peers, gone, time)) && IsLeavingStep(m, LeftAll(m, peers, gone, time), time)
  {
    hide IsKept, IsLeavingStep, Left;
    if gone == [] {
      NobodyLeaves(m, time);
    } else {
      var before, last := LeftAll(m, peers, gone[..|gone| - 1], time), gone[|gone| - 1];
      ManyLeave(m, peers, gone[..|gone| - 1], time);
      OneLeaves(before, peers[last].roomId, peers[last].persistentPlayerId, time);
      LeaveKeeps(before, peers[last].roomId, peers[last].persistentPlayerId, time);
      LeavingStepsCompose(m, before, LeftAll(m, peers, gone, time), time);
    }
  }

  lemma OneEnters(m: MatchState, r: RoomId, id: PersistentPlayerId, time: int)
    ensures IsMatchStep(m, Entered(m, r, id, time), time)
  {
    hide IsSortedListing;
    if CanEnter(m, r, id) {
      EnteringStartsMatch(m, r, id, time);
    }
  }

  /** One leaves a room's match and enters that of another. */
  lemma OneMoves(m: MatchState, r: RoomId, next: RoomId, id: PersistentPlayerId, time: int)
    requires IsKept(m) && next != r
    ensures IsMatchStep(m, Entered(Left(m, r, id, time), next, id, time), time)
  {
    hide IsSortedListing, IsKept, Left, Entered, CanEnter;
    var left := Left(m, r, id, time);
    OneLeaves(m, r, id, time);
    LeavesOnlyItsRoom(m, r, id, time);
    if CanEnter(left, next, id) {
      EnteringStartsMatch(left, next, id, time);
    } else {
      NotEntered(left, next, id, time);
    }
    var m' := Entered(left, next, id, time);
    forall q | q in m.matches && q !in m'.matches
      ensures exists i :: |m.completed| <= i < |m'.completed| && m'.completed[i].roomId == q
    {
      assert q !in left.matches;
    }
  }

  lemma LeavesOnlyItsRoom(m: MatchState, r: RoomId, id: PersistentPlayerId, time: int)
    ensures forall q :: q != r && q in m.matches ==> q in Left(m, r, id, time).matches
  {
  }

  lemma NotEntered(m: MatchState, r: RoomId, id: PersistentPlayerId, time: int)
    requires !CanEnter(m, r, id)
    ensures Entered(m, r, id, time) == m
  {
  }

  lemma AllEnd(m: MatchState, order: seq<RoomId>, time: int)
    requires IsKept(m) && IsListing(order, m.matches.Keys)
    ensures IsMatchStep(m, AllCompleted(m, order, time), time)
  {
    hide IsSortedListing, CompletionsOf;
    CompletionsAreTheMatches(m, order, time);
    forall r | r in m.matches
      ensures IsKeptMatch(m.matches[r], r)
    {
    }
    hide IsKeptMatch, IsKept;
    var m' := AllCompleted(m, order, time);
    forall r | r in m.matches
      ensures exists i :: |m.completed| <= i < |m'.completed| && m'.completed[i].roomId == r
    {
      assert r in order;
      var k :| 0 <= k < |order| && order[k] == r;
      assert m'.completed[|m.completed| + k] == CompletionsOf(m.matches, order, time)[k];
    }
  }

  lemma RecordingEndsNothing(m: MatchState, kills: seq<KillEvent>, time: int)
    requires IsKept(m)
    ensures IsMatchStep(m, RecordedAll(m, kills).0, time)
  {
    hide IsKept, RecordedAll, IsSortedListing;
    RecordingKeeps(m, kills);
  }

  // Every step and every run.

  lemma NothingEnds(m: MatchState, time: int)
    ensures IsMatchStep(m, m, time)
  {
  }

  lemma LeaveIsMatchStep(s: ServerState, event: Event)
    requires IsKept(s.matches) && event.Leave?
    ensures IsMatchStep(s.matches, AfterLeave(s, event.endpoint, event.response, event.now, event.systemNow).matches, event.systemNow)
  {
    hide IsKept, Left, LeftPeer, ClosedSession, IsMatchStep;
    if IsJoinedPeer(s.lobby.tables, event.endpoint) {
      var peer := s.lobby.tables.peers[event.endpoint];
      OneLeaves(s.matches, peer.roomId, peer.persistentPlayerId, event.systemNow);
    } else {
      NothingEnds(s.matches, event.systemNow);
    }
  }

  lemma KickIsMatchStep(s: ServerState, event: Event)
    requires IsKept(s.matches) && event.Kick? && IsPeerOf(s.lobby.tables, event.playerId, event.kicked)
    ensures IsMatchStep(s.matches, AfterKick(s, event.playerId, event.kicked, event.response, event.now, event.systemNow).matches, event.systemNow)
  {
    hide IsKept, Left, LeftPeer, ClosedSession, IsMatchStep;
    if event.kicked.Some? {
      var peer := s.lobby.tables.peers[event.kicked.value];
      OneLeaves(s.matches, peer.roomId, peer.persistentPlayerId, event.systemNow);
    }
    NothingEnds(s.matches, event.systemNow);
  }

  lemma ChangeRoomIsMatchStep(c: ServerConfig, s: ServerState, event: Event)
    requires IsKept(s.matches) && event.ChangeRoom?
    ensures IsMatchStep(s.matches, AfterChangeRoom(c, s, event.endpoint, event.next, event.response, event.now, event.systemNow).matches, event.systemNow)
  {
    hide IsKept, Left, Entered, ChangedRoom, Registry.AfterBuild, IsMatchStep;
    if MayChangeRoom(s.lobby, event.endpoint, event.next) {
      var peer := s.lobby.tables.peers[event.endpoint];
      OneMoves(s.matches, peer.roomId, event.next, peer.persistentPlayerId, event.systemNow);
    } else {
      NothingEnds(s.matches, event.systemNow);
    }
  }

  lemma JoinIsMatchStep(c: ServerConfig, s: ServerState, event: Event)
    requires event.Join?
    ensures IsMatchStep(s.matches, AfterJoin(c, s, event.endpoint, event.token, event.recoverable, event.now, event.systemNow).matches, event.systemNow)
  {
    hide JoinAuthenticated, Entered, Registry.AfterUpsert, IsMatchStep;
    var o := JoinOutcomeOf(c, s, event.endpoint, event.token, event.recoverable, event.now);
    OneEnters(s.matches, o.result.roomId, o.result.persistentPlayerId, event.systemNow);
    NothingEnds(s.matches, event.systemNow);
  }

  lemma TickIsMatchStep(c: ServerConfig, s: ServerState, event: Event)
    requires IsKept(s.matches) && event.Tick? && forall e :: e in event.order ==> e in s.lobby.tables.peers
    ensures IsMatchStep(s.matches, AfterTick(c, s, event.order, event.players).matches, 0)
  {
    hide IsKept, BulletPass, Respawned, TimersUpdated, RecordedAll, IsMatchStep;
    RecordingEndsNothing(s.matches, BulletPass(c, s, event.order).1, 0);
  }

  lemma TimeoutsAreMatchStep(c: ServerConfig, s: ServerState, event: Event)
    requires IsKept(s.matches) && event.Timeouts? && forall e :: e in event.gone ==> e in s.lobby.tables.peers
    ensures IsMatchStep(s.matches, AfterTimeouts(c, s, event.gone, event.now, event.systemNow).matches, event.systemNow)
  {
    hide IsKept, ExpiredRemoved, LeftAll, IsMatchStep, WithoutSessions, Halted;
    ManyLeave(s.matches, TimedOutMarked(s.lobby, event.now, c.peerTimeout).tables.peers, event.gone, event.systemNow);
  }

  lemma StepIsMatchStep(
      c: ServerConfig, mac: Auth.Authenticator, directory: Admission.Directory, stands: Standing, s: ServerState, event: Event)
    requires IsSoundState(directory, stands, s) && IsEnabled(c, directory, s, event) && !event.ExtractCompleted?
    ensures IsMatchStep(s.matches, After(c, mac, directory, s, event).matches, SystemTimeOf(event))
  {
    hide IsSoundLobby, MatchesAgree, TransientsBacked, SessionsAgree, IsKept, IsMatchStep, Expired, MarkedRecoverable, AfterTick, AfterTimeouts, AfterJoin;
    hide AfterLeave, AfterKick, AfterChangeRoom, AllCompleted, AfterAdmission, IsRecoverableWith;
    match event
    case Join(_, _, _, _, _) => JoinIsMatchStep(c, s, event);
    case Leave(_, _, _, _) => LeaveIsMatchStep(s, event);
    case Kick(_, _, _, _, _) => KickIsMatchStep(s, event);
    case ChangeRoom(_, _, _, _, _) => ChangeRoomIsMatchStep(c, s, event);
    case Tick(_, _) => TickIsMatchStep(c, s, event);
    case Timeouts(gone, now, systemNow) =>
      ExpiredArePeers(c, s, gone, now);
      assert After(c, mac, directory, s, event) == AfterTimeouts(c, s, gone, now, systemNow);
      TimeoutsAreMatchStep(c, s, event);
    case Stop(wasRunning, order, systemNow) =>
      if wasRunning {
        AllEnd(s.matches, order, systemNow);
      } else {
        NothingEnds(s.matches, systemNow);
      }
    case _ =>
      AdmissionEndsNothing(s, event);
      NothingEnds(s.matches, 0);
  }

  lemma ExpiredArePeers(c: ServerConfig, s: ServerState, gone: seq<EndpointKey>, now: int)
    requires IsListing(gone, Expired(MarkedRecoverable(s.lobby.tables, now, c.peerTimeout), now, c.reconnectGracePeriod))
    ensures forall e :: e in gone ==> e in s.lobby.tables.peers
  {
  }

  lemma AdmissionEndsNothing(s: ServerState, event: Event)
    ensures event.Login? ==> AfterAdmission(s, event.request, event.drawn, event.holder).matches == s.matches
  {
    hide Admission.Applied;
  }

  /** In every reachable state each active match bears the time at which its room's match was opened. */
  lemma {:induction false} EveryMatchIsTimed(
      c: ServerConfig, mac: Auth.Authenticator, directory: Admission.Directory, stands: Standing, states: seq<ServerState>, events: seq<Event>, n: nat, r: RoomId)
    requires IsSoundConfig(c, stands) && Admission.IsOneToOne(directory) && IsRun(c, mac, directory, states, events) && n <= |events|
    requires r in states[n].matches.matches
    ensures states[n].matches.matches[r].startedAt == OpenedAt(states, events, n, r)
  {
    hide IsSoundConfig, Admission.IsOneToOne, IsSoundState, After, IsOffered, IsOrderly;
    if n > 0 {
      EveryRunIsSound(c, mac, directory, stands, states, events, n - 1);
      assert IsEnabled(c, directory, states[n - 1], events[n - 1]) && states[n - 1 + 1] == After(c, mac, directory, states[n - 1], events[n - 1]);
      if events[n - 1].ExtractCompleted? {
        ExtractingKeepsMatches(c, mac, directory, states[n - 1], events[n - 1]);
      } else {
        StepIsMatchStep(c, mac, directory, stands, states[n - 1], events[n - 1]);
      }
      if r in states[n - 1].matches.matches {
        EveryMatchIsTimed(c, mac, directory, stands, states, events, n - 1, r);
      }
    }
  }

  lemma ExtractingKeepsMatches(c: ServerConfig, mac: Auth.Authenticator, directory: Admission.Directory, s: ServerState, event: Event)
    requires event.ExtractCompleted? && IsOffered(c, directory, s, event)
    ensures After(c, mac, directory, s, event).matches == MatchState(s.matches.matches, [])
  {
  }

  /** In every run every record that a step adds is of a room whose match ended in that step, from when it was opened until then, listing all
      of its players' stats; and every match that ends leaves exactly one. */
  lemma CompletedMatchesAreTrue(
      c: ServerConfig, mac: Auth.Authenticator, directory: Admission.Directory, stands: Standing, states: seq<ServerState>, events: seq<Event>, n: nat)
    requires IsSoundConfig(c, stands) && Admission.IsOneToOne(directory) && IsRun(c, mac, directory, states, events) && n < |events|
    requires !events[n].ExtractCompleted?
    ensures var m, m' := states[n].matches, states[n + 1].matches;
            && |m.completed| <= |m'.completed| && m.completed <= m'.completed
            && (forall i :: |m.completed| <= i < |m'.completed| ==>
                  var record := m'.completed[i];
                  && record.roomId in m.matches && record.roomId !in m'.matches
                  && record.startedAt == OpenedAt(states, events, n, record.roomId) && record.endedAt == SystemTimeOf(events[n])
                  && IsSortedListing(record.playerStatsList, m.matches[record.roomId].playerStatsTable))
            && (forall i, j :: |m.completed| <= i < j < |m'.completed| ==> m'.completed[i].roomId != m'.completed[j].roomId)
            && forall r :: r in m.matches && r !in m'.matches ==> exists i :: |m.completed| <= i < |m'.completed| && m'.completed[i].roomId == r
  {
    hide IsSoundConfig, Admission.IsOneToOne, IsSoundState, After, IsOffered, IsOrderly, OpenedAt, IsSortedListing;
    EveryRunIsSound(c, mac, directory, stands, states, events, n);
    assert IsEnabled(c, directory, states[n], events[n]) && states[n + 1] == After(c, mac, directory, states[n], events[n]);
    StepIsMatchStep(c, mac, directory, stands, states[n], events[n]);
    var m, m' := states[n].matches, states[n + 1].matches;
    forall i | |m.completed| <= i < |m'.completed|
      ensures m'.completed[i].roomId in m.matches && m'.completed[i].startedAt == OpenedAt(states, events, n, m'.completed[i].roomId)
    {
      EveryMatchIsTimed(c, mac, directory, stands, states, events, n, m'.completed[i].roomId);
    }
  }
}
