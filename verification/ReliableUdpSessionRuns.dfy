// What a session of the registry is: the product of what reached its own endpoint since it was opened.

module ReliableUdpSessionRuns {
  import opened Wrappers
  import opened SequenceNumber
  import opened SessionToken
  import opened PacketWire
  import opened ReliableUdpSessionRegistry
  import Auth = AuthenticatedUdpPacket
  import Guard = PacketReplayGuard
  import ReceiveHistory
  import Window = ReliableUdpSendWindow
  import Session = ReliableUdpSession

  /** What an event means to the session of one endpoint. */
  function SessionStep(session: Session.SessionState, e: EndpointKey, event: Event): Session.SessionState {
    match event
    case Receive(f, view) => if f == e then Session.AfterReceive(session, view).0 else session
    case Build(f, game, now) => if f == e then Session.AfterSend(session, game, now).0 else session
    case Resend(now) => session.(window := Window.Extracted(session.window, now))
    case _ => session
  }

  function SessionRun(session: Session.SessionState, e: EndpointKey, events: seq<Event>): Session.SessionState {
    if events == [] then session else SessionStep(SessionRun(session, e, events[..|events| - 1]), e, events[|events| - 1])
  }

  /** The sequence of an authentic packet that reaches the endpoint. */
  function Presented(mac: Auth.Authenticator, token: SessionToken, e: EndpointKey, event: Event): Option<SequenceNumber> {
    if event.Authenticate? && event.endpoint == e then
      match Auth.ParseAuthenticated(event.packet)
      case None => None
      case Some(view) => if Auth.VerifyAuthenticatedUdpPacket(mac, token, view) then Some(view.sequence) else None
    else None
  }

  function PresentedAll(mac: Auth.Authenticator, token: SessionToken, e: EndpointKey, events: seq<Event>): seq<SequenceNumber> {
    if events == [] then []
    else
      var before, last := PresentedAll(mac, token, e, events[..|events| - 1]), Presented(mac, token, e, events[|events| - 1]);
      if last.Some? then before + [last.value] else before
  }

  /** How the endpoint's session was last opened, and everything that happened since. */
  datatype Life = Life(config: ReliableUdpConfig, token: SessionToken, events: seq<Event>)

  function LifeOf(e: EndpointKey, events: seq<Event>): Option<Life> {
    if events == [] then None
    else
      var last := events[|events| - 1];
      if last.Upsert? && last.endpoint == e then Some(Life(last.config, last.token, []))
      else
        match LifeOf(e, events[..|events| - 1])
        case None => None
        case Some(life) => Some(life.(events := life.events + [last]))
  }

  lemma {:induction false} LifeIsOpened(e: EndpointKey, events: seq<Event>)
    ensures LifeOf(e, events).Some? ==> Upsert(e, LifeOf(e, events).value.config, LifeOf(e, events).value.token) in events
  {
    if events != [] {
      LifeIsOpened(e, events[..|events| - 1]);
      assert events == events[..|events| - 1] + [events[|events| - 1]];
    }
  }

  lemma {:induction false} LastComesLast(mac: Auth.Authenticator, r: RegistryState, first: seq<Event>, second: seq<Event>)
    ensures AfterAll(mac, r, first + second) == AfterAll(mac, AfterAll(mac, r, first), second)
    decreases |first|
  {
    hide After;
    if first == [] {
      assert first + second == second;
    } else {
      assert (first + second)[1..] == first[1..] + second;
      LastComesLast(mac, After(mac, r, first[0]), first[1..], second);
    }
  }

  lemma StepIsTheSessions(mac: Auth.Authenticator, r: RegistryState, e: EndpointKey, event: Event)
    requires !(event.Upsert? && event.endpoint == e) && e in After(mac, r, event).sessions
    ensures e in r.sessions
    ensures var entry, entry' := r.sessions[e], After(mac, r, event).sessions[e];
            var sequence := Presented(mac, entry.sessionToken, e, event);
            && entry'.session == SessionStep(entry.session, e, event) && entry'.sessionToken == entry.sessionToken
            && entry'.replayGuard == (if sequence.Some? then Guard.Observe(entry.replayGuard, sequence.value).guard else entry.replayGuard)
  {
    hide Session.AfterReceive, Session.AfterSend, Window.Extracted, Guard.Observe, Auth.ParseAuthenticated, Auth.VerifyAuthenticatedUdpPacket, Auth.Stripped;
  }

  lemma UpsertOpens(mac: Auth.Authenticator, r: RegistryState, event: Event)
    requires event.Upsert?
    ensures event.endpoint in After(mac, r, event).sessions && After(mac, r, event).sessions[event.endpoint] == FreshEntry(event.config, event.token)
  {
  }

  /** Whatever happened at other endpoints, a session is what its own packets, sends and resend passes have made of it since it was last
      opened, its replay guard has seen exactly the authentic packets presented to it since, and it is kept under the token it was opened
      with. */
  lemma {:induction false} SessionsRunAsIfAlone(mac: Auth.Authenticator, e: EndpointKey, events: seq<Event>)
    requires e in AfterAll(mac, EMPTY_REGISTRY, events).sessions
    ensures LifeOf(e, events).Some?
    ensures var life, entry := LifeOf(e, events).value, AfterAll(mac, EMPTY_REGISTRY, events).sessions[e];
            && entry.session == SessionRun(Session.Opened(WindowConfigOf(life.config)), e, life.events) && entry.sessionToken == life.token
            && entry.replayGuard == Guard.ObserveAll(PresentedAll(mac, life.token, e, life.events))
  {
    hide After, SessionStep, Presented, Guard.Observe;
    if events != [] {
      var earlier, last := events[..|events| - 1], events[|events| - 1];
      assert events == earlier + [last];
      LastComesLast(mac, EMPTY_REGISTRY, earlier, [last]);
      var r := AfterAll(mac, EMPTY_REGISTRY, earlier);
      assert AfterAll(mac, r, [last]) == After(mac, r, last);
      if last.Upsert? && last.endpoint == e {
        UpsertOpens(mac, r, last);
      } else {
        StepIsTheSessions(mac, r, e, last);
        SessionsRunAsIfAlone(mac, e, earlier);
      }
    }
  }

  /** The datagram is authenticated, with this sequence and as this packet. */
  predicate GetsThrough(mac: Auth.Authenticator, r: RegistryState, e: EndpointKey, wire: Bytes, sequence: SequenceNumber, packet: Bytes) {
    && |wire| <= MAX_SERIALIZED_PACKET_SIZE
    && AfterAuthenticate(mac, r, e, wire).1 == Authentication(Succeeded, Some(packet))
    && Auth.ParseAuthenticated(wire).value.sequence == sequence
  }

  /** A datagram gets through to its session if and only if it is that packet authenticated under the session's token, and among the numbers
      accepted since the session was opened its own is new, or a recent one in a reliable packet. */
  lemma PacketsAreJudgedByTheSet(
      mac: Auth.Authenticator, e: EndpointKey, events: seq<Event>, wire: Bytes, sequence: SequenceNumber, packet: Bytes)
    requires e in AfterAll(mac, EMPTY_REGISTRY, events).sessions
    ensures LifeOf(e, events).Some?
    ensures var life := LifeOf(e, events).value;
            var accepted := Guard.AcceptAll(PresentedAll(mac, life.token, e, life.events));
            GetsThrough(mac, AfterAll(mac, EMPTY_REGISTRY, events), e, wire, sequence, packet)
            <==> (&& Auth.Authenticated(mac, life.token, sequence, packet) == Some(wire)
                  && IsLetThrough(Guard.Verdict(accepted, ReceiveHistory.NumberOf(accepted, sequence)), packet))
  {
    hide AfterAuthenticate, Guard.Observe, Guard.ObserveAll, Guard.AcceptAll, Guard.Verdict, AfterAll, LifeOf, PresentedAll;
    hide Auth.Authenticated, Auth.ParseAuthenticated;
    var r := AfterAll(mac, EMPTY_REGISTRY, events);
    SessionsRunAsIfAlone(mac, e, events);
    var life := LifeOf(e, events).value;
    var presented := PresentedAll(mac, life.token, e, life.events);
    AcceptsExactlyAuthenticPackets(mac, r, e, wire, sequence, packet);
    Guard.GuardRefinesSet(presented, sequence);
  }
}
