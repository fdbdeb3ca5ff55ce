// What the server's sessions are over whole runs: each follows what the server's steps hand to its own endpoint.

module UdpServerSessions {
  import opened Wrappers
  import opened GameIds
  import opened SequenceNumber
  import opened SessionToken
  import opened PacketWire
  import opened PeerRoomManager
  import opened PeerSessionService
  import opened PlayerCommandService
  import opened MatchHistoryTracker
  import opened UdpServerModel
  import opened UdpServerRuns
  import opened ReliableUdpSessionRuns
  import Admission = AccountLoginAdmissionService
  import Auth = AuthenticatedUdpPacket
  import Guard = PacketReplayGuard
  import ReceiveHistory
  import Window = ReliableUdpSendWindow
  import Session = ReliableUdpSession
  import Registry = ReliableUdpSessionRegistry

  /** What closing hands to the session: its last packet, and that it may go; or that it has to go now. */
  function HandedInClosing(r: Registry.RegistryState, e: EndpointKey, game: Option<Bytes>, now: int): seq<Registry.Event> {
    if game.None? then [Registry.Remove(e)]
    else
      [Registry.Build(e, game.value, now), if Registry.AfterBuild(r, e, game.value, now).1.Built? then Registry.BeginClose(e) else Registry.Remove(e)]
  }

  /** What a step of the server hands to the session of one endpoint. */
  ghost function HandedOver(c: ServerConfig, s: ServerState, e: EndpointKey, event: Event): seq<Registry.Event> {
    match event
    case Join(f, token, recoverable, now, _) =>
      var status := JoinOutcomeOf(c, s, f, token, recoverable, now).status;
      if f == e && (status == Joined || status == Recovered) then [Registry.Upsert(e, c.reliableUdp, token)] else []
    case Leave(f, game, now, _) => if f == e && IsJoinedPeer(s.lobby.tables, e) then HandedInClosing(s.sessions, e, game, now) else []
    case Kick(playerId, kicked, game, now, _) =>
      if playerId != PlayerId(0) && kicked == Some(e) then HandedInClosing(s.sessions, e, game, now) else []
    case ChangeRoom(f, next, game, now, _) =>
      if f == e && MayChangeRoom(s.lobby, e, next) && game.Some? then [Registry.Build(e, game.value, now)] else []
    case Timeouts(_, now, _) => if e in TimedOut(s.lobby.tables, now, c.peerTimeout) then [Registry.Remove(e)] else []
    case Resend(now) => [Registry.Resend(now)]
    case Authenticate(f, packet) => if f == e then [Registry.Authenticate(e, packet)] else []
    case Receive(f, view) => if f == e then [Registry.Receive(e, view)] else []
    case Stop(_, _, _) => [Registry.Remove(e)]
    case _ => []
  }

  ghost function HandedOverBy(c: ServerConfig, states: seq<ServerState>, events: seq<Event>, e: EndpointKey, n: nat): seq<Registry.Event>
    requires n < |states| && n <= |events|
  {
    if n == 0 then [] else HandedOverBy(c, states, events, e, n - 1) + HandedOver(c, states[n - 1], e, events[n - 1])
  }

  /** Two registries hold the same for one endpoint. */
  predicate AreSameAt(r: Registry.RegistryState, r': Registry.RegistryState, e: EndpointKey) {
    && (e in r.sessions <==> e in r'.sessions) && (e in r.sessions ==> r.sessions[e] == r'.sessions[e])
    && (e in r.closing <==> e in r'.closing)
  }

  lemma SameStaySame(mac: Auth.Authenticator, r: Registry.RegistryState, r': Registry.RegistryState, e: EndpointKey, event: Registry.Event)
    requires AreSameAt(r, r', e)
    ensures AreSameAt(Registry.After(mac, r, event), Registry.After(mac, r', event), e)
  {
    hide Session.AfterReceive, Session.AfterSend, Window.Extracted, Guard.Observe, Auth.ParseAuthenticated, Auth.VerifyAuthenticatedUdpPacket, Auth.Stripped;
  }

  lemma {:induction false} SameStaySameInRuns(
      mac: Auth.Authenticator, r: Registry.RegistryState, r': Registry.RegistryState, e: EndpointKey, events: seq<Registry.Event>)
    requires AreSameAt(r, r', e)
    ensures AreSameAt(Registry.AfterAll(mac, r, events), Registry.AfterAll(mac, r', events), e)
    decreases |events|
  {
    hide AreSameAt, Registry.After;
    if events != [] {
      SameStaySame(mac, r, r', e, events[0]);
      SameStaySameInRuns(mac, Registry.After(mac, r, events[0]), Registry.After(mac, r', events[0]), e, events[1..]);
    }
  }

  lemma RunOfOne(mac: Auth.Authenticator, r: Registry.RegistryState, event: Registry.Event)
    ensures Registry.AfterAll(mac, r, []) == r && Registry.AfterAll(mac, r, [event]) == Registry.After(mac, r, event)
  {
    hide Registry.After;
    assert [event][1..] == [];
  }

  lemma ClosingIsHandedOver(
      mac: Auth.Authenticator, r: Registry.RegistryState, f: EndpointKey, game: Option<Bytes>, now: int, e: EndpointKey)
    ensures AreSameAt(ClosedSession(r, f, game, now), Registry.AfterAll(mac, r, if f == e then HandedInClosing(r, e, game, now) else []), e)
  {
    RunOfOne(mac, r, Registry.Remove(e));
    if game.Some? && f == e {
      var built, last := Registry.Build(e, game.value, now), HandedInClosing(r, e, game, now)[1];
      LastComesLast(mac, r, [built], [last]);
      RunOfOne(mac, r, built);
      RunOfOne(mac, Registry.After(mac, r, built), last);
      assert [built, last] == [built] + [last];
      hide Registry.AfterAll, Registry.AfterBuild;
    } else {
      hide Registry.AfterAll;
    }
  }

  lemma StepIsHandedOver(
      c: ServerConfig, mac: Auth.Authenticator, directory: Admission.Directory, s: ServerState, event: Event, e: EndpointKey)
    requires IsOffered(c, directory, s, event)
    ensures AreSameAt(After(c, mac, directory, s, event).sessions, Registry.AfterAll(mac, s.sessions, HandedOver(c, s, e, event)), e)
  {
    hide JoinOutcomeOf, MayChangeRoom, ClosedSession, HandedInClosing, ChangedRoom, LeftPeer, Left, Entered, LeftAll, ExpiredRemoved, AllCompleted;
    hide TimedOutMarked, Removed, IsPeerOf, IsListing, IsRecoverableWith, Expired, MarkedRecoverable, BulletPass, Committed, RecordedAll, InputApplied, Fired, Refreshed;
    hide Registry.AfterAll, Registry.AfterAuthenticate, Registry.AfterReceive, Session.AfterSend, Window.Extracted, Admission.Applied;
    var handed := HandedOver(c, s, e, event);
    RunOfOne(mac, s.sessions, if |handed| == 1 then handed[0] else Registry.Remove(e));
    assert |handed| == 1 ==> handed == [handed[0]];
    match event
    case Leave(f, game, now, _) => ClosingIsHandedOver(mac, s.sessions, f, game, now, e);
    case Kick(_, kicked, game, now, _) =>
      if kicked.Some? {
        ClosingIsHandedOver(mac, s.sessions, kicked.value, game, now, e);
      }
    case Authenticate(f, packet) =>
      if f != e {
        Registry.OtherSessionsAreUntouched(mac, s.sessions, Registry.Authenticate(f, packet), e);
      }
    case Receive(f, view) =>
      if f != e {
        Registry.OtherSessionsAreUntouched(mac, s.sessions, Registry.Receive(f, view), e);
      }
    case _ =>
  }

  /** In every run the server holds for an endpoint what its registry would make of that endpoint's own events alone. */
  lemma {:induction false} SessionsFollowTheirEvents(
      c: ServerConfig, mac: Auth.Authenticator, directory: Admission.Directory, states: seq<ServerState>, events: seq<Event>, n: nat, e: EndpointKey)
    requires IsRun(c, mac, directory, states, events) && n < |states|
    ensures AreSameAt(states[n].sessions, Registry.AfterAll(mac, Registry.EMPTY_REGISTRY, HandedOverBy(c, states, events, e, n)), e)
  {
    hide AreSameAt, After, IsOffered, IsOrderly, HandedOver, Registry.AfterAll;
    if n == 0 {
      NothingIsHandedOver(mac, e);
    } else {
      SessionsFollowTheirEvents(c, mac, directory, states, events, n - 1, e);
      var earlier, last := HandedOverBy(c, states, events, e, n - 1), HandedOver(c, states[n - 1], e, events[n - 1]);
      assert IsEnabled(c, directory, states[n - 1], events[n - 1]);
      StepIsHandedOver(c, mac, directory, states[n - 1], events[n - 1], e);
      LastComesLast(mac, Registry.EMPTY_REGISTRY, earlier, last);
      SameStaySameInRuns(mac, states[n - 1].sessions, Registry.AfterAll(mac, Registry.EMPTY_REGISTRY, earlier), e, last);
      SameIsTransitive(
        states[n].sessions, Registry.AfterAll(mac, states[n - 1].sessions, last),
        Registry.AfterAll(mac, Registry.EMPTY_REGISTRY, HandedOverBy(c, states, events, e, n)), e);
    }
  }

  lemma NothingIsHandedOver(mac: Auth.Authenticator, e: EndpointKey)
    ensures AreSameAt(INITIAL_STATE.sessions, Registry.AfterAll(mac, Registry.EMPTY_REGISTRY, []), e)
  {
  }

  lemma SameIsTransitive(r: Registry.RegistryState, r': Registry.RegistryState, r'': Registry.RegistryState, e: EndpointKey)
    requires AreSameAt(r, r', e) && AreSameAt(r', r'', e)
    ensures AreSameAt(r, r'', e)
  {
  }

  lemma StepOpensAsConfigured(c: ServerConfig, s: ServerState, e: EndpointKey, event: Event)
    ensures forall h :: h in HandedOver(c, s, e, event) && h.Upsert? ==> h.config == c.reliableUdp
  {
    hide JoinOutcomeOf, MayChangeRoom, TimedOut, Registry.AfterBuild;
  }

  lemma {:induction false} OpenedAsConfigured(c: ServerConfig, states: seq<ServerState>, events: seq<Event>, e: EndpointKey, n: nat)
    requires n < |states| && n <= |events|
    ensures forall event :: event in HandedOverBy(c, states, events, e, n) && event.Upsert? ==> event.config == c.reliableUdp
  {
    hide HandedOver;
    if n > 0 {
      OpenedAsConfigured(c, states, events, e, n - 1);
      StepOpensAsConfigured(c, states[n - 1], e, events[n - 1]);
    }
  }

  /** In every run, at every endpoint with a session: since it was last opened, under the server's configuration, the session is the product
      of the packets received there, the packets sent there and all resend passes, and of nothing else. */
  lemma EveryRunsSessions(
      c: ServerConfig, mac: Auth.Authenticator, directory: Admission.Directory, states: seq<ServerState>, events: seq<Event>, n: nat, e: EndpointKey)
    requires IsRun(c, mac, directory, states, events) && n < |states| && e in states[n].sessions.sessions
    ensures LifeOf(e, HandedOverBy(c, states, events, e, n)).Some?
    ensures var life, entry := LifeOf(e, HandedOverBy(c, states, events, e, n)).value, states[n].sessions.sessions[e];
            && entry.session == SessionRun(Session.Opened(Registry.WindowConfigOf(c.reliableUdp)), e, life.events)
            && entry.sessionToken == life.token
  {
    hide IsEnabled, After, Registry.AfterAll, HandedOverBy, SessionRun;
    SessionsFollowTheirEvents(c, mac, directory, states, events, n, e);
    SessionsRunAsIfAlone(mac, e, HandedOverBy(c, states, events, e, n));
    LifeIsOpened(e, HandedOverBy(c, states, events, e, n));
    OpenedAsConfigured(c, states, events, e, n);
  }

  lemma SameGetThrough(
      mac: Auth.Authenticator, r: Registry.RegistryState, r': Registry.RegistryState, e: EndpointKey, wire: Bytes, sequence: SequenceNumber, packet: Bytes)
    requires AreSameAt(r, r', e)
    ensures GetsThrough(mac, r, e, wire, sequence, packet) <==> GetsThrough(mac, r', e, wire, sequence, packet)
  {
  }

  /** In every run, at every endpoint with a session: a datagram gets through if and only if it is that packet authenticated under the token
      the session was last opened with, and among the numbers accepted at this endpoint since then its own is new, or a recent one in a
      reliable packet. */
  lemma EveryRunAuthenticatesExactly(
      c: ServerConfig, mac: Auth.Authenticator, directory: Admission.Directory, states: seq<ServerState>, events: seq<Event>, n: nat, e: EndpointKey,
      wire: Bytes, sequence: SequenceNumber, packet: Bytes)
    requires IsRun(c, mac, directory, states, events) && n < |states| && e in states[n].sessions.sessions
    ensures LifeOf(e, HandedOverBy(c, states, events, e, n)).Some?
    ensures var life := LifeOf(e, HandedOverBy(c, states, events, e, n)).value;
            var accepted := Guard.AcceptAll(PresentedAll(mac, life.token, e, life.events));
            GetsThrough(mac, states[n].sessions, e, wire, sequence, packet)
            <==> (&& Auth.Authenticated(mac, life.token, sequence, packet) == Some(wire)
                  && Registry.IsLetThrough(Guard.Verdict(accepted, ReceiveHistory.NumberOf(accepted, sequence)), packet))
  {
    hide IsEnabled, After, GetsThrough, Registry.AfterAll, LifeOf, PresentedAll, HandedOverBy, Guard.AcceptAll, Guard.Verdict, Auth.Authenticated;
    var handed := HandedOverBy(c, states, events, e, n);
    SessionsFollowTheirEvents(c, mac, directory, states, events, n, e);
    var r := Registry.AfterAll(mac, Registry.EMPTY_REGISTRY, handed);
    SameGetThrough(mac, states[n].sessions, r, e, wire, sequence, packet);
    PacketsAreJudgedByTheSet(mac, e, handed, wire, sequence, packet);
  }
}
