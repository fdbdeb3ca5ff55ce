// When peers time out, expire, or are kept: in every run, by when they were last heard from.

module UdpServerTimeouts {
  import opened SessionToken
  import opened GameWorld
  import opened GameSimulation
  import opened Arena
  import opened PeerRoomManager
  import opened MatchHistoryTracker
  import opened PeerSessionService
  import opened PlayerCommandService
  import opened UdpServerModel
  import opened UdpServerInvariants
  import opened UdpServerRequests
  import opened UdpServerDepartures
  import opened UdpServerRuns
  import Admission = AccountLoginAdmissionService
  import Auth = AuthenticatedUdpPacket
  import Registry = ReliableUdpSessionRegistry

  /** A request with which the server hears from this endpoint's peer: a join that is not turned away, a keep-alive, an input that is
      taken, a shot or a room change that is allowed. */
  predicate IsHeard(c: ServerConfig, s: ServerState, event: Event, e: EndpointKey) {
    match event
    case Join(f, token, recoverable, now, _) =>
      f == e && var status := JoinOutcomeOf(c, s, f, token, recoverable, now).status; status == Joined || status == Recovered || status == ExistingPeer
    case ChangeRoom(f, next, _, _, _) => f == e && MayChangeRoom(s.lobby, f, next)
    case Input(f, sequence, _, _) => f == e && AcceptsInput(s.lobby, f, sequence)
    case Fire(f, _) => f == e && MayAct(s.lobby, f)
    case KeepAlive(f, _) => f == e && IsJoinedPeer(s.lobby.tables, f)
    case _ => false
  }

  function TimeOfEvent(event: Event): int {
    match event
    case Join(_, _, _, now, _) => now
    case ChangeRoom(_, _, _, now, _) => now
    case Input(_, _, _, now) => now
    case Fire(_, now) => now
    case KeepAlive(_, now) => now
    case Timeouts(_, now, _) => now
    case _ => 0
  }

  /** When the endpoint's peer was last heard from in the first `n` events. */
  function HeardAt(c: ServerConfig, states: seq<ServerState>, events: seq<Event>, n: nat, e: EndpointKey): int
    requires n <= |events| < |states|
  {
    if n == 0 then 0
    else if IsHeard(c, states[n - 1], events[n - 1], e) then TimeOfEvent(events[n - 1])
    else HeardAt(c, states, events, n - 1, e)
  }

  /** A timeout step has found the peer silent for more than the timeout, and it has not joined again since. */
  predicate IsLost(c: ServerConfig, states: seq<ServerState>, events: seq<Event>, n: nat, e: EndpointKey)
    requires n <= |events| < |states|
  {
    && n > 0 && !(events[n - 1].Join? && IsHeard(c, states[n - 1], events[n - 1], e))
    && (IsLost(c, states, events, n - 1, e) || IsSilentAt(c, states, events, n - 1, e))
  }

  predicate IsSilentAt(c: ServerConfig, states: seq<ServerState>, events: seq<Event>, n: nat, e: EndpointKey)
    requires n < |events| < |states|
  {
    events[n].Timeouts? && events[n].now - HeardAt(c, states, events, n, e) > c.peerTimeout
  }

  /** The time of that timeout step. */
  function LostAt(c: ServerConfig, states: seq<ServerState>, events: seq<Event>, n: nat, e: EndpointKey): int
    requires n <= |events| < |states|
  {
    if n == 0 then 0
    else if !IsLost(c, states, events, n - 1, e) && IsSilentAt(c, states, events, n - 1, e) then TimeOfEvent(events[n - 1])
    else LostAt(c, states, events, n - 1, e)
  }

  // One step.

  /** A peer after a step: last heard from now if it was heard, else as before; connected if it joined, else as before, but lost now
      if a timeout step found it silent. */
  predicate IsTimed(c: ServerConfig, s: ServerState, event: Event, e: EndpointKey, peers: PeerTable, peers': PeerTable)
    requires e in peers'
  {
    var isHeard := IsHeard(c, s, event, e);
    if event.Join? && isHeard then peers'[e].lastRecvTime == event.now && peers'[e].connectionState == Connected
    else
      && e in peers && peers'[e].lastRecvTime == (if isHeard then TimeOfEvent(event) else peers[e].lastRecvTime)
      && (if event.Timeouts? && peers[e].connectionState == Connected && event.now - peers[e].lastRecvTime > c.peerTimeout
          then peers'[e].connectionState == Recoverable && peers'[e].recoverableSince == event.now
          else peers'[e].connectionState == peers[e].connectionState && peers'[e].recoverableSince == peers[e].recoverableSince)
  }

  lemma JoinTimes(
      c: ServerConfig, stands: Standing, directory: Admission.Directory, s: ServerState, event: Event, e: EndpointKey)
    requires IsSoundConfig(c, stands) && IsSoundState(directory, stands, s) && IsOffered(c, directory, s, event) && event.Join?
    requires e in AfterJoin(c, s, event.endpoint, event.token, event.recoverable, event.now, event.systemNow).lobby.tables.peers
    ensures IsTimed(c, s, event, e, s.lobby.tables.peers,
                    AfterJoin(c, s, event.endpoint, event.token, event.recoverable, event.now, event.systemNow).lobby.tables.peers)
  {
    hide MatchesAgree, IsKept, TransientsBacked, SessionsAgree, Created, KeepsStanding, Rebound, CanRebind, Registry.AfterUpsert, Entered;
    hide PlayersAgree, AreSound, PeersStand, HavePositiveRooms, TablesAgree, Admission.HasOneOwner, JoinAuthenticated, IsRecoverableWith;
    var f, o := event.endpoint, JoinOutcomeOf(c, s, event.endpoint, event.token, event.recoverable, event.now);
    JoinShape(c, s.lobby, f, event.token, event.recoverable, event.now);
    AfterJoinLobby(c, s, event);
    if o.status == Joined {
      JoinedAtPeerTable(c, directory, stands, s, f, event.now);
    } else if o.status == Recovered {
      var previous :| previous in s.lobby.tables.peers && s.lobby.tables.peers[previous].sessionToken == event.token
                      && s.lobby.tables.peers[previous].connectionState == Recoverable
                      && CanRebind(s.lobby.tables, previous, f) && (f == previous || f !in s.lobby.tables.peers)
                      && o.lobby == s.lobby.(tables := Rebound(s.lobby.tables, previous, f, event.now));
      ReboundShape(s.lobby.tables, previous, f, event.now);
    } else if o.status == ExistingPeer {
      JoinIsDecidedByTokens(c, directory, stands, s, f, event.token, event.recoverable, event.now);
      AllAreJoined(s.lobby.tables);
    }
  }

  lemma AllAreJoined(t: PeerTables)
    requires TablesAgree(t)
    ensures forall e :: e in t.peers ==> t.peers[e].isJoined
  {
  }

  lemma AfterJoinLobby(c: ServerConfig, s: ServerState, event: Event)
    requires event.Join?
    ensures AfterJoin(c, s, event.endpoint, event.token, event.recoverable, event.now, event.systemNow).lobby
         == JoinOutcomeOf(c, s, event.endpoint, event.token, event.recoverable, event.now).lobby
  {
  }

  predicate IsSilent(c: ServerConfig, p: PeerState, now: int) {
    p.connectionState == Connected && now - p.lastRecvTime > c.peerTimeout
  }

  /** What a timeout step makes of a peer in the table. */
  lemma TimeoutsTable(c: ServerConfig, s: ServerState, gone: seq<EndpointKey>, now: int, systemNow: int, e: EndpointKey)
    requires TablesAgree(s.lobby.tables) && e in s.lobby.tables.peers
    requires IsListing(gone, Expired(MarkedRecoverable(s.lobby.tables, now, c.peerTimeout), now, c.reconnectGracePeriod))
    ensures var peers', p := AfterTimeouts(c, s, gone, now, systemNow).lobby.tables.peers, s.lobby.tables.peers[e];
            && (e in TimedOut(s.lobby.tables, now, c.peerTimeout) <==> IsSilent(c, p, now))
            && (e in peers' <==> e !in gone)
            && (e in gone <==> if p.connectionState == Connected then IsSilent(c, p, now) && c.reconnectGracePeriod < 0
                               else now - p.recoverableSince > c.reconnectGracePeriod)
            && (e in peers' ==> peers'[e] == if IsSilent(c, p, now) then p.(connectionState := Recoverable, recoverableSince := now) else p)
  {
    var t := MarkedRecoverable(s.lobby.tables, now, c.peerTimeout);
    MarkingKeepsAgreement(s.lobby.tables, now, c.peerTimeout);
    RemovalsKeepAgreement(t, gone);
    MarkingIsExact(s.lobby.tables, now, c.peerTimeout, e);
    ExpiryIsExact(t, gone, now, c.reconnectGracePeriod, e);
  }

  lemma TimeoutsTime(c: ServerConfig, s: ServerState, gone: seq<EndpointKey>, now: int, systemNow: int, e: EndpointKey)
    requires TablesAgree(s.lobby.tables)
    requires IsListing(gone, Expired(MarkedRecoverable(s.lobby.tables, now, c.peerTimeout), now, c.reconnectGracePeriod))
    ensures var peers' := AfterTimeouts(c, s, gone, now, systemNow).lobby.tables.peers;
            e in peers' ==> IsTimed(c, s, Timeouts(gone, now, systemNow), e, s.lobby.tables.peers, peers')
  {
    hide TimedOut, MarkedRecoverable, Expired;
    NobodyReturns(c, s, gone, now, systemNow);
    if e in s.lobby.tables.peers {
      TimeoutsTable(c, s, gone, now, systemNow, e);
    }
  }

  lemma NobodyReturns(c: ServerConfig, s: ServerState, gone: seq<EndpointKey>, now: int, systemNow: int)
    requires TablesAgree(s.lobby.tables)
    requires IsListing(gone, Expired(MarkedRecoverable(s.lobby.tables, now, c.peerTimeout), now, c.reconnectGracePeriod))
    ensures AfterTimeouts(c, s, gone, now, systemNow).lobby.tables.peers.Keys <= s.lobby.tables.peers.Keys
  {
    MarkingKeepsAgreement(s.lobby.tables, now, c.peerTimeout);
    RemovalsKeepAgreement(MarkedRecoverable(s.lobby.tables, now, c.peerTimeout), gone);
  }

  /** A joined peer is gone from the table, and nobody else is touched. */
  lemma DepartureTimes(c: ServerConfig, s: ServerState, event: Event, gone: EndpointKey, e: EndpointKey)
    requires TablesAgree(s.lobby.tables) && IsJoinedPeer(s.lobby.tables, gone) && (event.Leave? || event.Kick?)
    ensures var peers' := LeftPeer(s.lobby, gone).tables.peers; e in peers' ==> IsTimed(c, s, event, e, s.lobby.tables.peers, peers')
  {
    hide TablesAgree, Removed, DepartedWorld;
    RemoveKeepsAgreement(s.lobby.tables, gone);
  }

  lemma ChangeRoomTimes(
      c: ServerConfig, mac: Auth.Authenticator, directory: Admission.Directory, s: ServerState, event: Event, e: EndpointKey)
    requires event.ChangeRoom? && IsOffered(c, directory, s, event)
    ensures var peers' := After(c, mac, directory, s, event).lobby.tables.peers;
            e in peers' ==> IsTimed(c, s, event, e, s.lobby.tables.peers, peers')
  {
    hide Entered, Left, Registry.AfterBuild, ChangedRoom, RoomChanged;
    if MayChangeRoom(s.lobby, event.endpoint, event.next) {
      ChangedRoomTables(s.lobby, event.endpoint, event.next, c.arena, event.now);
    }
  }

  /** The steps that touch at most one peer's times. */
  predicate IsRequestOrTick(event: Event) {
    event.Input? || event.Fire? || event.KeepAlive? || event.Tick?
  }

  lemma RequestTimes(c: ServerConfig, mac: Auth.Authenticator, directory: Admission.Directory, s: ServerState, event: Event, e: EndpointKey)
    requires IsRequestOrTick(event) && IsOffered(c, directory, s, event)
    ensures var peers' := After(c, mac, directory, s, event).lobby.tables.peers;
            e in peers' ==> IsTimed(c, s, event, e, s.lobby.tables.peers, peers')
  {
    hide BulletPass, Respawned, TimersUpdated, RecordedAll, NewBullet;
  }

  lemma OtherTimes(c: ServerConfig, mac: Auth.Authenticator, directory: Admission.Directory, s: ServerState, event: Event, e: EndpointKey)
    requires IsOffered(c, directory, s, event) && !IsRequestOrTick(event)
    requires !event.Join? && !event.Leave? && !event.Kick? && !event.ChangeRoom? && !event.Timeouts?
    ensures var peers' := After(c, mac, directory, s, event).lobby.tables.peers;
            e in peers' ==> IsTimed(c, s, event, e, s.lobby.tables.peers, peers')
  {
    hide AllCompleted, Admission.Applied;
  }

  lemma StepTimes(
      c: ServerConfig, mac: Auth.Authenticator, directory: Admission.Directory, stands: Standing, s: ServerState, event: Event, e: EndpointKey)
    requires IsSoundConfig(c, stands) && IsSoundState(directory, stands, s) && IsEnabled(c, directory, s, event)
    ensures var peers' := After(c, mac, directory, s, event).lobby.tables.peers;
            e in peers' ==> IsTimed(c, s, event, e, s.lobby.tables.peers, peers')
  {
    hide TablesAgree, PlayersAgree, AreSound, PeersStand, HavePositiveRooms, Admission.HasOneOwner, MatchesAgree, IsKept, TransientsBacked, SessionsAgree;
    hide IsTimed, AfterJoin, LeftPeer, AfterTimeouts, IsSoundConfig, After, IsOrderly, IsPeerOf, IsRecoverableWith, IsListing;
    SectionIsStep(c, mac, directory, s, event);
    match event {
      case Join(_, _, _, _, _) =>
        if e in After(c, mac, directory, s, event).lobby.tables.peers {
          JoinTimes(c, stands, directory, s, event, e);
        }
      case Leave(f, response, now, systemNow) =>
        LeaveTimes(c, s, event, e);
      case Kick(_, _, _, _, _) =>
        KickTimes(c, s, event, e);
      case ChangeRoom(_, _, _, _, _) => ChangeRoomTimes(c, mac, directory, s, event, e);
      case Timeouts(gone, now, systemNow) => TimeoutsTime(c, s, gone, now, systemNow, e);
      case _ =>
        if IsRequestOrTick(event) {
          RequestTimes(c, mac, directory, s, event, e);
        } else {
          OtherTimes(c, mac, directory, s, event, e);
        }
    }
  }

  lemma LeaveTimes(c: ServerConfig, s: ServerState, event: Event, e: EndpointKey)
    requires TablesAgree(s.lobby.tables) && event.Leave?
    ensures var peers' := AfterLeave(s, event.endpoint, event.response, event.now, event.systemNow).lobby.tables.peers;
            e in peers' ==> IsTimed(c, s, event, e, s.lobby.tables.peers, peers')
  {
    hide LeftPeer;
    if IsJoinedPeer(s.lobby.tables, event.endpoint) {
      DepartureTimes(c, s, event, event.endpoint, e);
    }
  }

  lemma KickTimes(c: ServerConfig, s: ServerState, event: Event, e: EndpointKey)
    requires TablesAgree(s.lobby.tables) && event.Kick? && IsPeerOf(s.lobby.tables, event.playerId, event.kicked)
    ensures var peers' := AfterKick(s, event.playerId, event.kicked, event.response, event.now, event.systemNow).lobby.tables.peers;
            e in peers' ==> IsTimed(c, s, event, e, s.lobby.tables.peers, peers')
  {
    hide LeftPeer;
    if event.kicked.Some? {
      DepartureTimes(c, s, event, event.kicked.value, e);
    }
  }

  // Every run.

  /** In every reachable state the table says of each peer when it was last heard from, whether a timeout step has lost it, and when. */
  lemma {:induction false} EveryPeerIsTimed(
      c: ServerConfig, mac: Auth.Authenticator, directory: Admission.Directory, stands: Standing, states: seq<ServerState>, events: seq<Event>, n: nat, e: EndpointKey)
    requires IsSoundConfig(c, stands) && Admission.IsOneToOne(directory) && IsRun(c, mac, directory, states, events) && n <= |events|
    requires e in states[n].lobby.tables.peers
    ensures var p := states[n].lobby.tables.peers[e];
            && p.lastRecvTime == HeardAt(c, states, events, n, e)
            && (p.connectionState == Recoverable <==> IsLost(c, states, events, n, e))
            && (p.connectionState == Recoverable ==> p.recoverableSince == LostAt(c, states, events, n, e))
  {
    hide IsSoundConfig, Admission.IsOneToOne, IsSoundState, After, IsOffered, IsOrderly, IsHeard;
    if n > 0 {
      EveryRunIsSound(c, mac, directory, stands, states, events, n - 1);
      assert IsEnabled(c, directory, states[n - 1], events[n - 1]) && states[n - 1 + 1] == After(c, mac, directory, states[n - 1], events[n - 1]);
      StepTimes(c, mac, directory, stands, states[n - 1], events[n - 1], e);
      if e in states[n - 1].lobby.tables.peers {
        EveryPeerIsTimed(c, mac, directory, stands, states, events, n - 1, e);
      }
      if events[n - 1].Timeouts? {
        NotHeard(c, states[n - 1], events[n - 1], e);
      }
    }
  }

  lemma NotHeard(c: ServerConfig, s: ServerState, event: Event, e: EndpointKey)
    requires event.Timeouts?
    ensures !IsHeard(c, s, event, e)
  {
  }

  /** What a timeout step leaves of a peer, its session and its player, by what the table says of it. */
  predicate IsLeftByTimeouts(c: ServerConfig, s: ServerState, s': ServerState, now: int, e: EndpointKey)
    requires e in s.lobby.tables.peers
  {
    var p, peers', players, players' := s.lobby.tables.peers[e], s'.lobby.tables.peers, s.lobby.world.players, s'.lobby.world.players;
    var hasSession := e in s'.sessions.sessions && e !in s'.sessions.closing;
    if p.connectionState == Recoverable then
      && (e in peers' <==> now - p.recoverableSince <= c.reconnectGracePeriod) && (e in peers' ==> peers'[e] == p)
      && !hasSession && (p.playerId in players' <==> e in peers')
    else if now - p.lastRecvTime <= c.peerTimeout then
      && e in peers' && peers'[e] == p && hasSession
      && p.playerId in players && p.playerId in players' && players'[p.playerId] == players[p.playerId]
    else
      && (c.reconnectGracePeriod >= 0 ==>
            && e in peers' && peers'[e] == p.(connectionState := Recoverable, recoverableSince := now)
            && p.playerId in players && p.playerId in players' && players'[p.playerId] == players[p.playerId].(inputFlags := NO_INPUT))
      && (c.reconnectGracePeriod < 0 ==> e !in peers' && p.playerId !in players')
      && !hasSession
  }

  /** The players of those gone are gone, and of the others exactly those of the timed out have been halted. */
  lemma TimeoutsLeavePlayers(
      c: ServerConfig, directory: Admission.Directory, stands: Standing, s: ServerState, gone: seq<EndpointKey>, now: int, systemNow: int, e: EndpointKey)
    requires IsSoundLobby(directory, stands, s.lobby) && e in s.lobby.tables.peers
    requires IsListing(gone, Expired(MarkedRecoverable(s.lobby.tables, now, c.peerTimeout), now, c.reconnectGracePeriod))
    ensures var w', p := AfterTimeouts(c, s, gone, now, systemNow).lobby.world, s.lobby.tables.peers[e];
            && p.playerId in s.lobby.world.players && (p.playerId in w'.players <==> e !in gone)
            && (e !in gone ==>
                  w'.players[p.playerId] == if e in TimedOut(s.lobby.tables, now, c.peerTimeout) then s.lobby.world.players[p.playerId].(inputFlags := NO_INPUT)
                                            else s.lobby.world.players[p.playerId])
  {
    hide TablesAgree, AreSound, PeersStand, HavePositiveRooms, Admission.HasOneOwner, WithoutPeers, DepartedAll, MarkedRecoverable, IsTimedOut, IsExpired;
    var marked := TimedOutMarked(s.lobby, now, c.peerTimeout);
    MarkedFaces(s.lobby.tables, now, c.peerTimeout);
    DepartedAllShape(marked.world, ExpiredRemoved(marked, gone).tables, marked.tables.peers, gone);
  }

  lemma TimeoutsLeavePeer(
      c: ServerConfig, directory: Admission.Directory, stands: Standing, s: ServerState, gone: seq<EndpointKey>, now: int, systemNow: int, e: EndpointKey)
    requires IsSoundState(directory, stands, s) && Admission.IsOneToOne(directory) && e in s.lobby.tables.peers
    requires IsListing(gone, Expired(MarkedRecoverable(s.lobby.tables, now, c.peerTimeout), now, c.reconnectGracePeriod))
    ensures IsLeftByTimeouts(c, s, AfterTimeouts(c, s, gone, now, systemNow), now, e)
  {
    hide TablesAgree, PlayersAgree, AreSound, PeersStand, HavePositiveRooms, Admission.HasOneOwner, MatchesAgree, IsKept, TransientsBacked, AfterTimeouts;
    hide TimedOut, MarkedRecoverable, Expired, Admission.IsOneToOne;
    TimeoutsTable(c, s, gone, now, systemNow, e);
    TimeoutsLeavePlayers(c, directory, stands, s, gone, now, systemNow, e);
    TimeoutsKeep(c, directory, stands, s, gone, now, systemNow);
  }

  /** In every run a timeout step keeps, untouched and with its session, exactly the connected peers heard from at most the timeout ago.
      Those silent for longer lose their session, become recoverable as of now, and their players stop; and of the recoverable ones exactly
      those go, with their players, that were lost longer ago than the grace period (at once if that is negative). */
  lemma TimeoutsAreExact(
      c: ServerConfig, mac: Auth.Authenticator, directory: Admission.Directory, stands: Standing, states: seq<ServerState>, events: seq<Event>, n: nat, e: EndpointKey)
    requires IsSoundConfig(c, stands) && Admission.IsOneToOne(directory) && IsRun(c, mac, directory, states, events) && n < |events|
    requires events[n].Timeouts? && e in states[n].lobby.tables.peers
    ensures var now, peers, peers', r' := events[n].now, states[n].lobby.tables.peers, states[n + 1].lobby.tables.peers, states[n + 1].sessions;
            var players, players', id := states[n].lobby.world.players, states[n + 1].lobby.world.players, peers[e].playerId;
            var hasSession := e in r'.sessions && e !in r'.closing;
            if IsLost(c, states, events, n, e) then
              && (e in peers' <==> now - LostAt(c, states, events, n, e) <= c.reconnectGracePeriod) && (e in peers' ==> peers'[e] == peers[e])
              && (id in players' <==> e in peers') && !hasSession
            else if now - HeardAt(c, states, events, n, e) <= c.peerTimeout then
              && e in peers' && peers'[e] == peers[e] && hasSession
              && id in players && id in players' && players'[id] == players[id]
            else
              && !hasSession
              && if c.reconnectGracePeriod >= 0 then
                   && e in peers' && peers'[e] == peers[e].(connectionState := Recoverable, recoverableSince := now)
                   && id in players && id in players' && players'[id] == players[id].(inputFlags := NO_INPUT)
                 else e !in peers' && id !in players'
  {
    hide IsSoundConfig, Admission.IsOneToOne, IsSoundState, AfterTimeouts, IsOrderly, IsHeard, HeardAt, LostAt, IsLost;
    EveryRunIsSound(c, mac, directory, stands, states, events, n);
    EveryPeerIsTimed(c, mac, directory, stands, states, events, n, e);
    var gone, now, systemNow := events[n].gone, events[n].now, events[n].systemNow;
    TimeoutsLeavePeer(c, directory, stands, states[n], gone, now, systemNow, e);
    assert states[n + 1] == AfterTimeouts(c, states[n], gone, now, systemNow);
  }

  // Logins that wait to join.

  /** This login is admitted and waits at `e`. */
  ghost predicate IsAdmittedAt(s: ServerState, event: Event, e: EndpointKey) {
    && event.Login? && event.request.endpointKey == e
    && Admission.Applied(event.request, event.drawn, event.holder, s.lobby.accounts, s.lobby.tables).1.status == Admission.Authenticated
  }

  /** When the login that waits at `e` was last admitted in the first `n` events. */
  ghost function LoginAt(states: seq<ServerState>, events: seq<Event>, n: nat, e: EndpointKey): int
    requires n <= |events| < |states|
  {
    if n == 0 then 0
    else if IsAdmittedAt(states[n - 1], events[n - 1], e) then events[n - 1].request.currentTime
    else LoginAt(states, events, n - 1, e)
  }

  lemma StepTimesLogins(
      c: ServerConfig, mac: Auth.Authenticator, directory: Admission.Directory, stands: Standing, s: ServerState, event: Event, e: EndpointKey)
    requires IsSoundState(directory, stands, s) && IsEnabled(c, directory, s, event)
    ensures var accounts, accounts' := s.lobby.accounts, After(c, mac, directory, s, event).lobby.accounts;
            e in accounts' ==>
              if IsAdmittedAt(s, event, e) then accounts'[e].authenticatedTime == event.request.currentTime
              else e in accounts && accounts'[e] == accounts[e]
  {
    hide TablesAgree, PlayersAgree, AreSound, PeersStand, HavePositiveRooms, Admission.HasOneOwner, MatchesAgree, IsKept, TransientsBacked, SessionsAgree;
    hide LeftPeer, ChangedRoom, ExpiredRemoved, TimedOutMarked, Expired, MarkedRecoverable, InputApplied, Fired, BulletPass, IsListing, JoinAuthenticated, Created;
    hide IsRecoverableWith, AllCompleted, Registry.AfterUpsert, Entered, Left, LeftAll;
    match event
    case Join(f, token, recoverable, now, _) =>
      JoinShape(c, s.lobby, f, token, recoverable, now);
      if f in s.lobby.accounts {
        CreatedKeepsAccounts(s.lobby, f, WaitingIdentity(s.lobby.accounts[f]), c.initialRoomId, c.gameRule, c.arena, now);
      }
    case Leave(f, _, _, _) => if IsJoinedPeer(s.lobby.tables, f) { LeftKeepsAccounts(s.lobby, f); }
    case Kick(_, Some(f), _, _, _) => LeftKeepsAccounts(s.lobby, f);
    case ChangeRoom(f, next, _, now, _) => if MayChangeRoom(s.lobby, f, next) { ChangedRoomTables(s.lobby, f, next, c.arena, now); }
    case Input(_, _, _, _) => InputTouches(s.lobby, event, c.arena);
    case Fire(f, now) => FireTouches(s.lobby, f, c.weaponRule, c.arena, now);
    case _ =>
  }

  lemma LeftKeepsAccounts(s: Lobby, e: EndpointKey)
    requires IsJoinedPeer(s.tables, e)
    ensures LeftPeer(s, e).accounts == s.accounts
  {
  }

  /** In every reachable state each waiting login bears the time at which it was admitted. */
  lemma {:induction false} EveryWaitingLoginIsTimed(
      c: ServerConfig, mac: Auth.Authenticator, directory: Admission.Directory, stands: Standing, states: seq<ServerState>, events: seq<Event>, n: nat, e: EndpointKey)
    requires IsSoundConfig(c, stands) && Admission.IsOneToOne(directory) && IsRun(c, mac, directory, states, events) && n <= |events|
    requires e in states[n].lobby.accounts
    ensures states[n].lobby.accounts[e].authenticatedTime == LoginAt(states, events, n, e)
  {
    hide IsSoundConfig, Admission.IsOneToOne, IsSoundState, After, IsOffered, IsOrderly, IsAdmittedAt;
    if n > 0 {
      EveryRunIsSound(c, mac, directory, stands, states, events, n - 1);
      assert IsEnabled(c, directory, states[n - 1], events[n - 1]) && states[n - 1 + 1] == After(c, mac, directory, states[n - 1], events[n - 1]);
      StepTimesLogins(c, mac, directory, stands, states[n - 1], events[n - 1], e);
      if e in states[n - 1].lobby.accounts {
        EveryWaitingLoginIsTimed(c, mac, directory, stands, states, events, n - 1, e);
      }
    }
  }

  /** In every run a timeout step forgets exactly the waiting logins admitted at least the timeout ago; none if it is not positive. */
  lemma WaitingLoginsExpireExactly(
      c: ServerConfig, mac: Auth.Authenticator, directory: Admission.Directory, stands: Standing, states: seq<ServerState>, events: seq<Event>, n: nat, e: EndpointKey)
    requires IsSoundConfig(c, stands) && Admission.IsOneToOne(directory) && IsRun(c, mac, directory, states, events) && n < |events|
    requires events[n].Timeouts? && e in states[n].lobby.accounts
    ensures var accounts, accounts' := states[n].lobby.accounts, states[n + 1].lobby.accounts;
            && (e in accounts' <==> c.peerTimeout <= 0 || events[n].now - LoginAt(states, events, n, e) < c.peerTimeout)
            && (e in accounts' ==> accounts'[e] == accounts[e])
  {
    hide IsSoundConfig, Admission.IsOneToOne, IsOrderly, ExpiredRemoved, TimedOutMarked, LoginAt, MarkedRecoverable, Expired;
    EveryWaitingLoginIsTimed(c, mac, directory, stands, states, events, n, e);
    assert IsEnabled(c, directory, states[n], events[n]);
    assert states[n + 1] == After(c, mac, directory, states[n], events[n]);
  }
}
