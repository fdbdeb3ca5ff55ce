// One reliable session per endpoint, and the sessions that are closing (Server/Net/ReliableUdpSessionRegistry.h).

module ReliableUdpSessionRegistry {
  import opened Wrappers
  import opened SequenceNumber
  import opened PacketWire
  import opened ReliableUdpPacket
  import opened SessionToken
  import Auth = AuthenticatedUdpPacket
  import Guard = PacketReplayGuard
  import Protocol = ReliableUdpProtocol
  import Window = ReliableUdpSendWindow
  import Session = ReliableUdpSession

  datatype ReliableUdpConfig = ReliableUdpConfig(maxPendingPacketCount: nat, maxResendCount: int, resendInterval: int)

  datatype SessionEntry = SessionEntry(session: Session.SessionState, sessionToken: SessionToken, replayGuard: Guard.GuardState)

  type SessionTable = map<EndpointKey, SessionEntry>

  datatype RegistryState = RegistryState(sessions: SessionTable, closing: set<EndpointKey>)

  const EMPTY_REGISTRY := RegistryState(map[], {})

  function WindowConfigOf(config: ReliableUdpConfig): Window.WindowConfig {
    Window.WindowConfig(config.maxPendingPacketCount, Window.ClampedResendCount(config.maxResendCount), config.resendInterval)
  }

  function FreshEntry(config: ReliableUdpConfig, token: SessionToken): SessionEntry {
    SessionEntry(Session.Opened(WindowConfigOf(config)), token, Guard.INITIAL_GUARD)
  }

  function AfterUpsert(r: RegistryState, e: EndpointKey, config: ReliableUdpConfig, token: SessionToken): RegistryState {
    RegistryState(r.sessions[e := FreshEntry(config, token)], r.closing - {e})
  }

  // Authentication of incoming packets.

  datatype AuthenticateStatus = Succeeded | SessionNotFound | InvalidPacket | InvalidTag | ReplayRejected

  datatype Authentication = Authentication(status: AuthenticateStatus, packet: Option<Bytes>)

  function AfterAuthenticate(
      mac: Auth.Authenticator, r: RegistryState, e: EndpointKey, packet: Bytes): (RegistryState, Authentication) {
    if e !in r.sessions then (r, Authentication(SessionNotFound, None))
    else
      var entry := r.sessions[e];
      match Auth.ParseAuthenticated(packet)
      case None => (r, Authentication(InvalidPacket, None))
      case Some(view) =>
        if !Auth.VerifyAuthenticatedUdpPacket(mac, entry.sessionToken, view) then (r, Authentication(InvalidTag, None))
        else
          var observation := Guard.Observe(entry.replayGuard, view.sequence);
          var r' := r.(sessions := r.sessions[e := entry.(replayGuard := observation.guard)]);
          if observation.status == Guard.TooOld then (r', Authentication(ReplayRejected, None))
          else if observation.status == Guard.Duplicate && !IsReliableHeader(view.packetHeader) then (r', Authentication(ReplayRejected, None))
          else
            match Auth.Stripped(view)
            case None => (r', Authentication(InvalidPacket, None))
            case Some(stripped) => (r', Authentication(Succeeded, Some(stripped)))
  }

  /** An unreliable packet that was authenticated once is not authenticated again while the guard
      remembers its sequence; a reliable one is, and is left to the session's own window. */
  lemma ReplaysOfUnreliablePacketsAreRejected(mac: Auth.Authenticator, r: RegistryState, e: EndpointKey, packet: Bytes)
    requires AfterAuthenticate(mac, r, e, packet).1.status == Succeeded
    requires Guard.RemembersNewest(r.sessions[e].replayGuard)
    ensures var (r', first) := AfterAuthenticate(mac, r, e, packet);
            var (r'', second) := AfterAuthenticate(mac, r', e, packet);
            second.status == if IsReliableHeader(Auth.ParseAuthenticated(packet).value.packetHeader) then Succeeded else ReplayRejected
  {
    var view := Auth.ParseAuthenticated(packet).value;
    Guard.SeenIsDuplicate(r.sessions[e].replayGuard, view.sequence);
  }

  /** A new sequence may pass, and a repeated one only in a reliable packet. */
  predicate IsLetThrough(status: Guard.ObserveStatus, packet: Bytes) {
    status == Guard.New || (status == Guard.Duplicate && DecodeHeader(packet).Some? && IsReliableHeader(DecodeHeader(packet).value))
  }

  predicate PassesGuard(guard: Guard.GuardState, sequence: SequenceNumber, packet: Bytes) {
    IsLetThrough(Guard.Observe(guard, sequence).status, packet)
  }

  /** What gets through, and as what: exactly the packets built under the session's token whose sequence passes. */
  lemma AcceptsExactlyAuthenticPackets(
      mac: Auth.Authenticator, r: RegistryState, e: EndpointKey, wire: Bytes, sequence: SequenceNumber, packet: Bytes)
    ensures (&& |wire| <= MAX_SERIALIZED_PACKET_SIZE
             && AfterAuthenticate(mac, r, e, wire).1 == Authentication(Succeeded, Some(packet))
             && Auth.ParseAuthenticated(wire).value.sequence == sequence)
       <==> (&& e in r.sessions
             && Auth.Authenticated(mac, r.sessions[e].sessionToken, sequence, packet) == Some(wire)
             && PassesGuard(r.sessions[e].replayGuard, sequence, packet))
  {
    if e in r.sessions {
      var token := r.sessions[e].sessionToken;
      if Auth.Authenticated(mac, token, sequence, packet) == Some(wire) {
        AuthenticPacketIsJudged(mac, r, e, wire, sequence, packet);
      } else if |wire| <= MAX_SERIALIZED_PACKET_SIZE && AfterAuthenticate(mac, r, e, wire).1 == Authentication(Succeeded, Some(packet)) {
        Auth.StripThenAuthenticate(mac, token, wire);
      }
    }
  }

  lemma AuthenticPacketIsJudged(
      mac: Auth.Authenticator, r: RegistryState, e: EndpointKey, wire: Bytes, sequence: SequenceNumber, packet: Bytes)
    requires e in r.sessions && Auth.Authenticated(mac, r.sessions[e].sessionToken, sequence, packet) == Some(wire)
    ensures |wire| <= MAX_SERIALIZED_PACKET_SIZE && Auth.ParseAuthenticated(wire).Some? && Auth.ParseAuthenticated(wire).value.sequence == sequence
    ensures AfterAuthenticate(mac, r, e, wire).1
         == if PassesGuard(r.sessions[e].replayGuard, sequence, packet) then Authentication(Succeeded, Some(packet))
            else Authentication(ReplayRejected, None)
  {
    var token := r.sessions[e].sessionToken;
    Auth.AuthenticateThenStrip(mac, token, sequence, packet);
    Auth.SignedIsReadBack(sequence, packet, mac(token, Auth.Signed(sequence, packet)));
    var h := DecodeHeader(packet).value;
    FlagsAreReadBack(|wire|, h.packetType, IsReliableHeader(h), true);
  }

  /** Why a datagram is refused: for its shape, if it carries no packet, sequence and tag; for its tag, if it does but nobody authenticated it
      under the session's token; and as a replay, if somebody did and the guard does not let it pass. */
  lemma RefusalsAreExact(mac: Auth.Authenticator, r: RegistryState, e: EndpointKey, wire: Bytes)
    requires e in r.sessions && |wire| <= MAX_SERIALIZED_PACKET_SIZE
    ensures var token, status := r.sessions[e].sessionToken, AfterAuthenticate(mac, r, e, wire).1.status;
            && (status == InvalidPacket <==> !Auth.IsSigned(wire))
            && (status == InvalidTag <==> Auth.IsSigned(wire) && !Auth.IsAuthentic(mac, token, wire))
            && (status == ReplayRejected
                <==> exists sequence, packet ::
                       Auth.Authenticated(mac, token, sequence, packet) == Some(wire) && !PassesGuard(r.sessions[e].replayGuard, sequence, packet))
  {
    var entry := r.sessions[e];
    Auth.ParsedIffSigned(wire);
    Auth.VerifiedIffAuthentic(mac, entry.sessionToken, wire);
    hide Auth.ParseAuthenticated, Auth.VerifyAuthenticatedUdpPacket, Auth.Authenticated, Auth.IsSigned, Guard.Observe, Auth.Stripped, PassesGuard;
    if Auth.IsAuthentic(mac, entry.sessionToken, wire) {
      var sequence, packet :| Auth.Authenticated(mac, entry.sessionToken, sequence, packet) == Some(wire);
      AuthenticPacketIsJudged(mac, r, e, wire, sequence, packet);
      forall s, p | Auth.Authenticated(mac, entry.sessionToken, s, p) == Some(wire)
        ensures s == sequence && p == packet
      {
        Auth.AuthenticateThenStrip(mac, entry.sessionToken, s, p);
        Auth.AuthenticateThenStrip(mac, entry.sessionToken, sequence, packet);
      }
      hide AfterAuthenticate;
    }
  }

  // Data and acks.

  datatype ProcessStatus = NoSession | Processed(status: Session.ReceiveStatus)

  datatype Processing = Processing(status: ProcessStatus, ackPacket: Option<Bytes>)

  predicate IsDrained(entry: SessionEntry) {
    entry.session.window.pending == []
  }

  function AfterReceive(r: RegistryState, e: EndpointKey, view: ReliableView): (RegistryState, Processing) {
    if e !in r.sessions then (r, Processing(NoSession, None))
    else
      var (session, received) := Session.AfterReceive(r.sessions[e].session, view);
      var entry := r.sessions[e].(session := session);
      var processing := Processing(Processed(received.status), received.ackPacket);
      if e in r.closing && IsDrained(entry)
      then (RegistryState(r.sessions - {e}, r.closing - {e}), processing)
      else (r.(sessions := r.sessions[e := entry]), processing)
  }

  datatype BuildOutcome = Built(packet: Bytes) | BuildFailed | BuildWithoutSession

  function AfterBuild(r: RegistryState, e: EndpointKey, game: Bytes, now: int): (RegistryState, BuildOutcome) {
    if e !in r.sessions then (r, BuildWithoutSession)
    else
      var (session, outcome) := Session.AfterSend(r.sessions[e].session, game, now);
      (r.(sessions := r.sessions[e := r.sessions[e].(session := session)]),
       if outcome.Sent? then Built(outcome.packet) else BuildFailed)
  }

  // Closing.

  function AfterRemove(r: RegistryState, e: EndpointKey): RegistryState {
    RegistryState(r.sessions - {e}, r.closing - {e})
  }

  function AfterBeginClose(r: RegistryState, e: EndpointKey): RegistryState {
    if e in r.sessions then r.(closing := r.closing + {e}) else r
  }

  function ExtractedEntry(entry: SessionEntry, now: int): SessionEntry {
    entry.(session := entry.session.(window := Window.Extracted(entry.session.window, now)))
  }

  predicate IsErasedBy(r: RegistryState, e: EndpointKey, now: int)
    requires e in r.sessions
  {
    e in r.closing && IsDrained(ExtractedEntry(r.sessions[e], now))
  }

  /** The registry once `e` alone has had its resend pass. */
  function Visited(r: RegistryState, e: EndpointKey, now: int): RegistryState
    requires e in r.sessions
  {
    if IsErasedBy(r, e, now) then AfterRemove(r, e)
    else r.(sessions := r.sessions[e := ExtractedEntry(r.sessions[e], now)])
  }

  /** The registry once the endpoints in `visited` have had their resend pass. */
  function SweptOver(r: RegistryState, visited: set<EndpointKey>, now: int): RegistryState {
    RegistryState(
      map e | e in r.sessions && !(e in visited && IsErasedBy(r, e, now)) ::
        if e in visited then ExtractedEntry(r.sessions[e], now) else r.sessions[e],
      set e | e in r.closing && !(e in visited && e in r.sessions && IsErasedBy(r, e, now)))
  }

  lemma SweepNone(r: RegistryState, now: int)
    ensures SweptOver(r, {}, now) == r
  {
    assert SweptOver(r, {}, now).sessions == r.sessions;
    assert SweptOver(r, {}, now).closing == r.closing;
  }

  lemma SweepOne(r: RegistryState, visited: set<EndpointKey>, e: EndpointKey, now: int)
    requires e in r.sessions && e !in visited
    ensures var s := SweptOver(r, visited, now);
            && e in s.sessions && s.sessions[e] == r.sessions[e] && (e in s.closing <==> e in r.closing)
            && SweptOver(r, visited + {e}, now) == Visited(s, e, now)
  {
  }

  function AfterResend(r: RegistryState, now: int): RegistryState {
    SweptOver(r, r.sessions.Keys, now)
  }

  datatype ResendTask = ResendTask(endpointKey: EndpointKey, packetBuffer: Bytes)

  function TasksFor(e: EndpointKey, packets: seq<Window.PendingPacket>): seq<ResendTask> {
    if packets == [] then [] else [ResendTask(e, packets[0].packetBuffer)] + TasksFor(e, packets[1..])
  }

  function ToResendOf(entry: SessionEntry, now: int): seq<Window.PendingPacket> {
    Window.ToResend(entry.session.window.pending, now, entry.session.window.config)
  }

  function ToGiveUpOf(entry: SessionEntry, now: int): seq<Window.PendingPacket> {
    Window.ToGiveUp(entry.session.window.pending, now, entry.session.window.config)
  }

  /** The tasks of a pass that visits the endpoints in the given order. */
  function TasksInOrder(sessions: SessionTable, order: seq<EndpointKey>, now: int): seq<ResendTask>
    requires forall e :: e in order ==> e in sessions
  {
    if order == [] then []
    else
      var last := order[|order| - 1];
      TasksInOrder(sessions, order[..|order| - 1], now) + TasksFor(last, ToResendOf(sessions[last], now))
  }

  function GiveUpsInOrder(sessions: SessionTable, order: seq<EndpointKey>, now: int): nat
    requires forall e :: e in order ==> e in sessions
  {
    if order == [] then 0
    else GiveUpsInOrder(sessions, order[..|order| - 1], now) + |ToGiveUpOf(sessions[order[|order| - 1]], now)|
  }

  /** The registry once the endpoints in `order` have had their resend pass, one after the other. */
  function SweptInOrder(r: RegistryState, order: seq<EndpointKey>, now: int): RegistryState {
    if order == [] then r
    else
      var swept, last := SweptInOrder(r, order[..|order| - 1], now), order[|order| - 1];
      if last in swept.sessions then Visited(swept, last, now) else swept
  }

  /** Each endpoint once, in any order, makes one pass over the registry. */
  lemma {:induction false} OrderDoesNotMatter(r: RegistryState, order: seq<EndpointKey>, now: int)
    requires forall i :: 0 <= i < |order| ==> order[i] in r.sessions
    requires forall i, j :: 0 <= i < j < |order| ==> order[i] != order[j]
    ensures SweptInOrder(r, order, now) == SweptOver(r, (set e | e in order), now)
  {
    if order == [] {
      SweepNone(r, now);
      assert (set e | e in order) == {};
    } else {
      var earlier, last := order[..|order| - 1], order[|order| - 1];
      OrderDoesNotMatter(r, earlier, now);
      SweepOne(r, (set e | e in earlier), last, now);
      assert (set e | e in order) == (set e | e in earlier) + {last};
    }
  }

  /** `order` lists, each once, the endpoints that are no longer in `unvisited`. */
  ghost predicate IsPartialVisit(all: set<EndpointKey>, order: seq<EndpointKey>, unvisited: set<EndpointKey>) {
    && (forall e :: e in all <==> e in unvisited || e in order)
    && (forall i :: 0 <= i < |order| ==> order[i] !in unvisited)
    && (forall i, j :: 0 <= i < j < |order| ==> order[i] != order[j])
  }

  ghost predicate Untouched(before: SessionTable, now: SessionTable, unvisited: set<EndpointKey>) {
    forall e :: e in unvisited ==> e in before && e in now && now[e] == before[e]
  }

  lemma VisitNext(all: set<EndpointKey>, order: seq<EndpointKey>, unvisited: set<EndpointKey>, e: EndpointKey)
    requires IsPartialVisit(all, order, unvisited) && e in unvisited
    ensures IsPartialVisit(all, order + [e], unvisited - {e})
  {
    assert forall k :: k in order + [e] <==> k in order || k == e;
  }

  lemma VisitInOrder(r: RegistryState, order: seq<EndpointKey>, e: EndpointKey, now: int)
    requires e in r.sessions && forall k :: k in order ==> k in r.sessions
    ensures TasksInOrder(r.sessions, order + [e], now) == TasksInOrder(r.sessions, order, now) + TasksFor(e, ToResendOf(r.sessions[e], now))
    ensures GiveUpsInOrder(r.sessions, order + [e], now) == GiveUpsInOrder(r.sessions, order, now) + |ToGiveUpOf(r.sessions[e], now)|
    ensures e in SweptInOrder(r, order, now).sessions ==>
              SweptInOrder(r, order + [e], now) == Visited(SweptInOrder(r, order, now), e, now)
  {
    assert (order + [e])[..|order|] == order;
  }

  // What a pass hands out.

  /** The bytes of an endpoint's tasks, in order. */
  function BytesTo(e: EndpointKey, tasks: seq<ResendTask>): seq<Bytes> {
    if tasks == [] then []
    else (if tasks[0].endpointKey == e then [tasks[0].packetBuffer] else []) + BytesTo(e, tasks[1..])
  }

  function BytesOf(packets: seq<Window.PendingPacket>): seq<Bytes> {
    seq(|packets|, i requires 0 <= i < |packets| => packets[i].packetBuffer)
  }

  lemma {:induction false} BytesToJoined(e: EndpointKey, first: seq<ResendTask>, second: seq<ResendTask>)
    ensures BytesTo(e, first + second) == BytesTo(e, first) + BytesTo(e, second)
  {
    if first == [] {
      assert first + second == second;
    } else {
      BytesToJoined(e, first[1..], second);
      assert (first + second)[1..] == first[1..] + second;
      var own := if first[0].endpointKey == e then [first[0].packetBuffer] else [];
      assert own + (BytesTo(e, first[1..]) + BytesTo(e, second)) == own + BytesTo(e, first[1..]) + BytesTo(e, second);
    }
  }

  lemma {:induction false} BytesToTarget(e: EndpointKey, target: EndpointKey, packets: seq<Window.PendingPacket>)
    ensures BytesTo(e, TasksFor(target, packets)) == if e == target then BytesOf(packets) else []
  {
    if packets != [] {
      BytesToTarget(e, target, packets[1..]);
      assert BytesOf(packets) == [packets[0].packetBuffer] + BytesOf(packets[1..]);
      assert TasksFor(target, packets)[1..] == TasksFor(target, packets[1..]);
    }
  }

  /** In whatever order the sessions are visited, the tasks for an endpoint are exactly the packets its window hands out, in order
      and byte for byte. */
  lemma {:induction false} EveryResendBecomesATask(sessions: SessionTable, order: seq<EndpointKey>, now: int, e: EndpointKey)
    requires forall k :: k in order ==> k in sessions
    requires forall i, j :: 0 <= i < j < |order| ==> order[i] != order[j]
    ensures BytesTo(e, TasksInOrder(sessions, order, now)) == if e in order then BytesOf(ToResendOf(sessions[e], now)) else []
  {
    if order != [] {
      hide ToResendOf, BytesOf, BytesTo, TasksInOrder;
      var earlier, last := order[..|order| - 1], order[|order| - 1];
      EveryResendBecomesATask(sessions, earlier, now, e);
      LastVisitAddsItsTasks(sessions, order, now, e);
      assert order == earlier + [last];
      if e in earlier {
        assert e != last;
      }
    }
  }

  lemma LastVisitAddsItsTasks(sessions: SessionTable, order: seq<EndpointKey>, now: int, e: EndpointKey)
    requires order != [] && forall k :: k in order ==> k in sessions
    ensures var last := order[|order| - 1];
            BytesTo(e, TasksInOrder(sessions, order, now))
            == BytesTo(e, TasksInOrder(sessions, order[..|order| - 1], now)) + if e == last then BytesOf(ToResendOf(sessions[last], now)) else []
  {
    hide ToResendOf, BytesOf, BytesTo, TasksFor;
    var earlier, last := order[..|order| - 1], order[|order| - 1];
    BytesToJoined(e, TasksInOrder(sessions, earlier, now), TasksFor(last, ToResendOf(sessions[last], now)));
    BytesToTarget(e, last, ToResendOf(sessions[last], now));
  }

  function PendingAt(r: RegistryState, e: EndpointKey): nat {
    if e in r.sessions then |r.sessions[e].session.window.pending| else 0
  }

  function PendingAtAll(r: RegistryState, order: seq<EndpointKey>): nat {
    if order == [] then 0 else PendingAtAll(r, order[..|order| - 1]) + PendingAt(r, order[|order| - 1])
  }

  lemma PassLosesNothingAt(r: RegistryState, e: EndpointKey, now: int)
    requires e in r.sessions
    ensures PendingAt(AfterResend(r, now), e) + |ToGiveUpOf(r.sessions[e], now)| == PendingAt(r, e)
  {
    Window.PassLosesNothing(r.sessions[e].session.window.pending, now, r.sessions[e].session.window.config);
  }

  /** Over all sessions a pass loses no packet: each is pending afterwards or counted as given up, even where it erased the session. */
  lemma {:induction false} PassCountsWhatItGivesUp(r: RegistryState, order: seq<EndpointKey>, now: int)
    requires forall k :: k in order ==> k in r.sessions
    ensures PendingAtAll(AfterResend(r, now), order) + GiveUpsInOrder(r.sessions, order, now) == PendingAtAll(r, order)
  {
    hide AfterResend, PendingAt, ToGiveUpOf;
    if order != [] {
      assert order[|order| - 1] in order;
      PassCountsWhatItGivesUp(r, order[..|order| - 1], now);
      PassLosesNothingAt(r, order[|order| - 1], now);
    }
  }

  // Every event of the registry.

  datatype Event =
    | Upsert(endpoint: EndpointKey, config: ReliableUdpConfig, token: SessionToken)
    | Authenticate(endpoint: EndpointKey, packet: Bytes)
    | Receive(endpoint: EndpointKey, view: ReliableView)
    | Build(endpoint: EndpointKey, game: Bytes, now: int)
    | Remove(endpoint: EndpointKey)
    | BeginClose(endpoint: EndpointKey)
    | Resend(time: int)

  function After(mac: Auth.Authenticator, r: RegistryState, event: Event): RegistryState {
    match event
    case Upsert(e, config, token) => AfterUpsert(r, e, config, token)
    case Authenticate(e, packet) => AfterAuthenticate(mac, r, e, packet).0
    case Receive(e, view) => AfterReceive(r, e, view).0
    case Build(e, game, now) => AfterBuild(r, e, game, now).0
    case Remove(e) => AfterRemove(r, e)
    case BeginClose(e) => AfterBeginClose(r, e)
    case Resend(now) => AfterResend(r, now)
  }

  function AfterAll(mac: Auth.Authenticator, r: RegistryState, events: seq<Event>): RegistryState
    decreases |events|
  {
    if events == [] then r else AfterAll(mac, After(mac, r, events[0]), events[1..])
  }

  // Closing sessions drain.

  /** Nothing is registered for `e`, though its acks and data may still arrive and it may even be removed. */
  predicate IsQuietFor(e: EndpointKey, event: Event) {
    !(event.Upsert? && event.endpoint == e) && !(event.Build? && event.endpoint == e)
  }

  function Passes(events: seq<Event>): nat {
    if events == [] then 0 else (if events[0].Resend? then 1 else 0) + Passes(events[1..])
  }

  /** The first pass is not before `earliest`, and each later one at least `interval` after the one before. */
  predicate PassesSpaced(events: seq<Event>, earliest: int, interval: int) {
    events != [] ==>
      if events[0].Resend? then events[0].time >= earliest && PassesSpaced(events[1..], events[0].time + interval, interval)
      else PassesSpaced(events[1..], earliest, interval)
  }

  /** A closing session whose pending packets were all last sent by `last` and resent at least `resends` times. */
  ghost predicate IsDraining(r: RegistryState, e: EndpointKey, last: int, resends: int, config: Window.WindowConfig) {
    e in r.sessions ==>
      && e in r.closing
      && r.sessions[e].session.window.config == config
      && forall p :: p in r.sessions[e].session.window.pending ==> p.lastSentTime <= last && resends <= p.resendCount
  }

  lemma {:induction false} UnackedWithin(pending: seq<Window.PendingPacket>, view: ReliableView)
    ensures forall p :: p in Window.Unacked(pending, view.reliableHeader.ackSequence, view.reliableHeader.ackBitfield) ==> p in pending
  {
    if pending != [] {
      UnackedWithin(pending[1..], view);
      assert pending == [pending[0]] + pending[1..];
    }
  }

  lemma {:induction false} PassAges(
      pending: seq<Window.PendingPacket>, now: int, config: Window.WindowConfig, last: int, resends: int)
    requires forall p :: p in pending ==> p.lastSentTime <= last && resends <= p.resendCount
    requires last <= now
    ensures forall p :: p in Window.Remaining(pending, now, config) ==> p.lastSentTime <= now && resends <= p.resendCount
    ensures last + config.resendInterval <= now ==>
              && (forall p :: p in Window.Remaining(pending, now, config) ==> resends + 1 <= p.resendCount)
              && (config.maxResendCount <= resends ==> Window.Remaining(pending, now, config) == [])
  {
    if pending != [] {
      PassAges(pending[1..], now, config, last, resends);
      assert pending == [pending[0]] + pending[1..];
    }
  }

  /** An event that registers nothing for a draining session leaves it draining, or gone. */
  lemma QuietEventKeepsDraining(
      mac: Auth.Authenticator, r: RegistryState, e: EndpointKey, event: Event, last: int, resends: int, config: Window.WindowConfig)
    requires IsDraining(r, e, last, resends, config) && IsQuietFor(e, event) && !event.Resend?
    ensures IsDraining(After(mac, r, event), e, last, resends, config)
  {
    if event.Receive? && event.endpoint == e && e in r.sessions {
      UnackedWithin(r.sessions[e].session.window.pending, event.view);
    }
  }

  lemma PassKeepsDraining(r: RegistryState, e: EndpointKey, now: int, last: int, resends: int, config: Window.WindowConfig)
    requires IsDraining(r, e, last, resends, config) && last <= now
    ensures IsDraining(AfterResend(r, now), e, now, resends, config)
    ensures last + config.resendInterval <= now ==>
              && IsDraining(AfterResend(r, now), e, now, resends + 1, config)
              && (config.maxResendCount <= resends ==> e !in AfterResend(r, now).sessions)
  {
    if e in r.sessions {
      PassAges(r.sessions[e].session.window.pending, now, config, last, resends);
    }
  }

  lemma {:induction false} DrainsFrom(
      mac: Auth.Authenticator, r: RegistryState, e: EndpointKey, events: seq<Event>, last: int, resends: int, config: Window.WindowConfig)
    requires IsDraining(r, e, last, resends, config)
    requires forall event :: event in events ==> IsQuietFor(e, event)
    requires config.resendInterval >= 0 && PassesSpaced(events, last + config.resendInterval, config.resendInterval)
    requires e in r.sessions ==> resends + Passes(events) > config.maxResendCount && resends <= config.maxResendCount
    ensures e !in AfterAll(mac, r, events).sessions
    decreases |events|
  {
    if events != [] {
      var r' := After(mac, r, events[0]);
      assert events[0] in events;
      if events[0].Resend? {
        PassKeepsDraining(r, e, events[0].time, last, resends, config);
        DrainsFrom(mac, r', e, events[1..], events[0].time, if e in r'.sessions then resends + 1 else resends, config);
      } else {
        QuietEventKeepsDraining(mac, r, e, events[0], last, resends, config);
        DrainsFrom(mac, r', e, events[1..], last, resends, config);
      }
    }
  }

  /** A closing session for which nothing more is registered is erased within maxResendCount + 2
      resend passes spaced at least resendInterval apart, whatever else arrives in between. */
  lemma {:induction false} ClosingSessionsDrain(
      mac: Auth.Authenticator, r: RegistryState, e: EndpointKey, events: seq<Event>, start: int)
    requires e in r.sessions && e in r.closing
    requires r.sessions[e].session.window.config.resendInterval >= 0
    requires forall p :: p in r.sessions[e].session.window.pending ==> p.lastSentTime <= start
    requires forall event :: event in events ==> IsQuietFor(e, event)
    requires PassesSpaced(events, start, r.sessions[e].session.window.config.resendInterval)
    requires Passes(events) >= r.sessions[e].session.window.config.maxResendCount + 2
    ensures e !in AfterAll(mac, r, events).sessions
  {
    DrainsSinceStart(mac, r, e, events, start, r.sessions[e].session.window.config);
  }

  lemma {:induction false} DrainsSinceStart(
      mac: Auth.Authenticator, r: RegistryState, e: EndpointKey, events: seq<Event>, start: int, config: Window.WindowConfig)
    requires IsDraining(r, e, start, 0, config)
    requires forall event :: event in events ==> IsQuietFor(e, event)
    requires config.resendInterval >= 0 && PassesSpaced(events, start, config.resendInterval)
    requires Passes(events) >= config.maxResendCount + 2
    ensures e !in AfterAll(mac, r, events).sessions
    decreases |events|
  {
    var r' := After(mac, r, events[0]);
    assert events[0] in events;
    if events[0].Resend? {
      PassKeepsDraining(r, e, events[0].time, start, 0, config);
      DrainsFrom(mac, r', e, events[1..], events[0].time, 0, config);
    } else {
      QuietEventKeepsDraining(mac, r, e, events[0], start, 0, config);
      DrainsSinceStart(mac, r', e, events[1..], start, config);
    }
  }

  /** Only endpoints with a session are closing. */
  predicate ClosingWithinSessions(r: RegistryState) {
    r.closing <= r.sessions.Keys
  }

  lemma ClosingStaysWithinSessions(mac: Auth.Authenticator, r: RegistryState, event: Event)
    requires ClosingWithinSessions(r)
    ensures ClosingWithinSessions(After(mac, r, event))
  {
  }

  lemma {:induction false} UnackedIsEmptyIff(pending: seq<Window.PendingPacket>, h: ReliableHeader)
    ensures Window.Unacked(pending, h.ackSequence, h.ackBitfield) == []
       <==> forall p :: p in pending ==> Protocol.IsSequenceAcked(p.sequence, h.ackSequence, h.ackBitfield)
  {
    if pending != [] {
      UnackedIsEmptyIff(pending[1..], h);
      assert pending == [pending[0]] + pending[1..];
    }
  }

  lemma PassEmptiesIff(w: Window.WindowState, now: int)
    ensures Window.Extracted(w, now).pending == [] <==> forall p :: p in w.pending ==> Window.IsExhausted(p, now, w.config)
  {
    var places := Window.PassLeavesTheOthers(w.pending, now, w.config);
    if places != [] {
      assert places[0] in places;
    }
    forall i: nat | i < |w.pending| && !Window.IsExhausted(w.pending[i], now, w.config)
      ensures places != []
    {
      assert i in places;
    }
  }

  /** What the registry answers is what the endpoint's own session answers. */
  lemma AnswersAreTheSessions(r: RegistryState, e: EndpointKey, view: ReliableView, game: Bytes, now: int)
    ensures var received, built := AfterReceive(r, e, view).1, AfterBuild(r, e, game, now).1;
            if e in r.sessions then
              var (answer, outcome) := (Session.AfterReceive(r.sessions[e].session, view).1, Session.AfterSend(r.sessions[e].session, game, now).1);
              && received.status == Processed(answer.status) && received.ackPacket == answer.ackPacket
              && (forall packet :: built == Built(packet) <==> outcome == Session.Sent(packet)) && (built == BuildFailed <==> !outcome.Sent?)
            else received == Processing(NoSession, None) && built == BuildWithoutSession
  {
    hide Session.AfterReceive, Session.AfterSend;
  }

  /** A session starts with nothing sent, received or seen, not closing, under its token and the configured limits. */
  lemma SessionsStartAfresh(mac: Auth.Authenticator, r: RegistryState, e: EndpointKey, config: ReliableUdpConfig, token: SessionToken)
    ensures var r' := After(mac, r, Upsert(e, config, token));
            && e in r'.sessions && e !in r'.closing && r'.sessions[e].sessionToken == token
            && var window, limits := r'.sessions[e].session.window, r'.sessions[e].session.window.config;
               && window.pending == [] && window.nextSequence == 1 && !r'.sessions[e].session.tracker.hasReceivedAny
               && limits.maxPendingPacketCount == config.maxPendingPacketCount && limits.resendInterval == config.resendInterval
               && limits.maxResendCount == (if config.maxResendCount > 0 then config.maxResendCount else 0)
               && forall sequence :: Guard.Observe(r'.sessions[e].replayGuard, sequence).status == Guard.New
  {
  }

  /** Whatever concerns one endpoint leaves the sessions of all others alone. */
  lemma OtherSessionsAreUntouched(mac: Auth.Authenticator, r: RegistryState, event: Event, e: EndpointKey)
    requires !event.Resend? && event.endpoint != e
    ensures var r' := After(mac, r, event);
            && (e in r'.sessions <==> e in r.sessions) && (e in r.sessions ==> r'.sessions[e] == r.sessions[e])
            && (e in r'.closing <==> e in r.closing)
  {
  }

  /** Nothing will be pending for a closing session after this event. */
  ghost predicate Empties(r: RegistryState, e: EndpointKey, event: Event)
    requires e in r.sessions
  {
    var w := r.sessions[e].session.window;
    match event
    case Receive(f, view) =>
      var h := view.reliableHeader;
      f == e && (w.pending == []
                 || (&& Window.AcksAllocated(w, h.ackSequence)
                     && forall p :: p in w.pending ==> Protocol.IsSequenceAcked(p.sequence, h.ackSequence, h.ackBitfield)))
    case Resend(now) => forall p :: p in w.pending ==> Window.IsExhausted(p, now, w.config)
    case _ => false
  }

  /** A session goes exactly if it is removed, or if it is closing and whatever it still had pending is acknowledged or given up. */
  lemma SessionGoesIff(mac: Auth.Authenticator, r: RegistryState, event: Event, e: EndpointKey)
    requires e in r.sessions
    ensures e !in After(mac, r, event).sessions <==> event == Remove(e) || (e in r.closing && Empties(r, e, event))
  {
    match event
    case Receive(f, view) => UnackedIsEmptyIff(r.sessions[e].session.window.pending, view.reliableHeader);
    case Resend(now) => PassEmptiesIff(r.sessions[e].session.window, now);
    case _ =>
  }

  /** The registry over its tables. */
  class ReliableUdpSessionRegistry {
    var sessionTable: SessionTable
    var closingEndpointSet: set<EndpointKey>

    function View(): RegistryState
      reads this
    {
      RegistryState(sessionTable, closingEndpointSet)
    }

    constructor ()
      ensures View() == EMPTY_REGISTRY
    {
      sessionTable, closingEndpointSet := map[], {};
    }

    method Upsert(endpointKey: EndpointKey, config: ReliableUdpConfig, sessionToken: SessionToken)
      modifies this
      ensures View() == AfterUpsert(old(View()), endpointKey, config, sessionToken)
    {
      sessionTable := sessionTable[endpointKey := FreshEntry(config, sessionToken)];
      closingEndpointSet := closingEndpointSet - {endpointKey};
    }

    method AuthenticateIncomingPacket(
        mac: Auth.Authenticator, endpointKey: EndpointKey, packet: Bytes) returns (result: Authentication)
      modifies this`sessionTable
      ensures (View(), result) == AfterAuthenticate(mac, old(View()), endpointKey, packet)
    {
      if endpointKey !in sessionTable {
        return Authentication(SessionNotFound, None);
      }
      var sessionEntry := sessionTable[endpointKey];
      var packetView := Auth.ParseAuthenticatedUdpPacket(packet);
      if packetView.None? {
        return Authentication(InvalidPacket, None);
      }
      if !Auth.VerifyAuthenticatedUdpPacket(mac, sessionEntry.sessionToken, packetView.value) {
        return Authentication(InvalidTag, None);
      }
      var observation := Guard.Observe(sessionEntry.replayGuard, packetView.value.sequence);
      sessionTable := sessionTable[endpointKey := sessionEntry.(replayGuard := observation.guard)];
      if observation.status == Guard.TooOld {
        return Authentication(ReplayRejected, None);
      }
      if observation.status == Guard.Duplicate && !IsReliableHeader(packetView.value.packetHeader) {
        return Authentication(ReplayRejected, None);
      }
      var packetBuffer := Auth.BuildUnauthenticatedUdpPacket(packetView.value);
      if packetBuffer.None? {
        return Authentication(InvalidPacket, None);
      }
      return Authentication(Succeeded, packetBuffer);
    }

    method ProcessReceivedPacket(endpointKey: EndpointKey, packetView: ReliableView) returns (result: Processing)
      modifies this
      ensures (View(), result) == AfterReceive(old(View()), endpointKey, packetView)
    {
      if endpointKey !in sessionTable {
        return Processing(NoSession, None);
      }
      var (session, received) := Session.AfterReceive(sessionTable[endpointKey].session, packetView);
      var entry := sessionTable[endpointKey].(session := session);
      if endpointKey in closingEndpointSet && |session.window.pending| == 0 {
        closingEndpointSet := closingEndpointSet - {endpointKey};
        sessionTable := sessionTable - {endpointKey};
      } else {
        sessionTable := sessionTable[endpointKey := entry];
      }
      return Processing(Processed(received.status), received.ackPacket);
    }

    method BuildOutgoingPacket(
        endpointKey: EndpointKey, serializedGamePacket: Bytes, currentTime: int) returns (outcome: BuildOutcome)
      modifies this`sessionTable
      ensures (View(), outcome) == AfterBuild(old(View()), endpointKey, serializedGamePacket, currentTime)
    {
      if endpointKey !in sessionTable {
        return BuildWithoutSession;
      }
      var (session, sent) := Session.AfterSend(sessionTable[endpointKey].session, serializedGamePacket, currentTime);
      sessionTable := sessionTable[endpointKey := sessionTable[endpointKey].(session := session)];
      if sent.Sent? {
        return Built(sent.packet);
      }
      return BuildFailed;
    }

    method Remove(endpointKey: EndpointKey) returns (removed: bool)
      modifies this
      ensures View() == AfterRemove(old(View()), endpointKey)
      ensures removed == (endpointKey in old(sessionTable))
    {
      closingEndpointSet := closingEndpointSet - {endpointKey};
      removed := endpointKey in sessionTable;
      sessionTable := sessionTable - {endpointKey};
    }

    method Clear()
      modifies this
      ensures View() == EMPTY_REGISTRY
    {
      closingEndpointSet := {};
      sessionTable := map[];
    }

    method BeginClose(endpointKey: EndpointKey) returns (begun: bool)
      modifies this`closingEndpointSet
      ensures View() == AfterBeginClose(old(View()), endpointKey)
      ensures begun == (endpointKey in sessionTable)
    {
      if endpointKey !in sessionTable {
        return false;
      }
      closingEndpointSet := closingEndpointSet + {endpointKey};
      return true;
    }

    method ExtractResendOf(endpointKey: EndpointKey, currentTime: int) returns (taskList: seq<ResendTask>, giveUpPacketCount: nat)
      requires endpointKey in sessionTable
      modifies this
      ensures View() == Visited(old(View()), endpointKey, currentTime)
      ensures Untouched(old(sessionTable), sessionTable, old(sessionTable).Keys - {endpointKey})
      ensures taskList == TasksFor(endpointKey, ToResendOf(old(sessionTable)[endpointKey], currentTime))
      ensures giveUpPacketCount == |ToGiveUpOf(old(sessionTable)[endpointKey], currentTime)|
    {
      var entry := sessionTable[endpointKey];
      giveUpPacketCount := |ToGiveUpOf(entry, currentTime)|;
      taskList := TasksFor(endpointKey, ToResendOf(entry, currentTime));
      entry := ExtractedEntry(entry, currentTime);
      if endpointKey in closingEndpointSet && |entry.session.window.pending| == 0 {
        closingEndpointSet := closingEndpointSet - {endpointKey};
        sessionTable := sessionTable - {endpointKey};
      } else {
        sessionTable := sessionTable[endpointKey := entry];
      }
    }

    /** One resend pass. The hash table is visited in an order of its own, reported as `order`. */
    method ExtractResendBatch(
        currentTime: int) returns (taskList: seq<ResendTask>, giveUpPacketCount: nat, ghost order: seq<EndpointKey>)
      modifies this
      ensures View() == AfterResend(old(View()), currentTime)
      ensures (set e | e in order) == old(sessionTable).Keys
      ensures forall i, j :: 0 <= i < j < |order| ==> order[i] != order[j]
      ensures taskList == TasksInOrder(old(sessionTable), order, currentTime)
      ensures giveUpPacketCount == GiveUpsInOrder(old(sessionTable), order, currentTime)
    {
      ghost var before := View();
      taskList, giveUpPacketCount, order := [], 0, [];
      var unvisited := sessionTable.Keys;
      while unvisited != {}
        invariant IsPartialVisit(before.sessions.Keys, order, unvisited)
        invariant Untouched(before.sessions, sessionTable, unvisited)
        invariant View() == SweptInOrder(before, order, currentTime)
        invariant taskList == TasksInOrder(before.sessions, order, currentTime)
        invariant giveUpPacketCount == GiveUpsInOrder(before.sessions, order, currentTime)
        decreases unvisited
      {
        var endpointKey :| endpointKey in unvisited;
        VisitInOrder(before, order, endpointKey, currentTime);
        VisitNext(before.sessions.Keys, order, unvisited, endpointKey);
        var tasks, giveUps := ExtractResendOf(endpointKey, currentTime);
        taskList := taskList + tasks;
        giveUpPacketCount := giveUpPacketCount + giveUps;
        unvisited := unvisited - {endpointKey};
        order := order + [endpointKey];
        assert Untouched(before.sessions, sessionTable, unvisited);
      }
      OrderDoesNotMatter(before, order, currentTime);
      assert (set e | e in order) == before.sessions.Keys;
    }
  }
}
