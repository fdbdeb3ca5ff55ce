// A run of the server in which a join finds its player id in use: one player stays while others come and go
// until the 32-bit ids have gone round.

module UdpServerIdInUse {
  import opened GameIds
  import opened SessionToken
  import opened GameWorld
  import opened GameSimulation
  import opened PeerRoomManager
  import opened MatchHistoryTracker
  import opened PeerSessionService
  import opened AuthenticatedAccountRegistry
  import opened UdpServerModel
  import opened UdpServerInvariants
  import opened UdpServerRequests
  import opened UdpServerRuns
  import opened UdpServerPlayerIds
  import opened Wrappers
  import Admission = AccountLoginAdmissionService
  import Auth = AuthenticatedUdpPacket

  const HOST := EndpointKey(1, 1)
  const GUEST := EndpointKey(2, 1)

  function TokenOf(accountId: nat): SessionToken {
    SessionToken(accountId, 0)
  }

  function LoginOf(directory: Admission.Directory, e: EndpointKey, accountId: nat): Event {
    Login(Admission.Request(e, accountId, directory(accountId), "player", 0), Some(TokenOf(accountId)), None)
  }

  function JoinOf(e: EndpointKey, accountId: nat): Event {
    Join(e, TokenOf(accountId), None, 0, 0)
  }

  function WaitingAccount(directory: Admission.Directory, accountId: nat): AuthenticatedAccount {
    AuthenticatedAccount(accountId, directory(accountId), TokenOf(accountId), "player", 0)
  }

  /** Nobody waits, everybody is connected, and nobody holds this account. */
  ghost predicate IsOpenTo(s: Lobby, accountId: nat) {
    && s.accounts == map[]
    && forall e :: e in s.tables.peers ==> s.tables.peers[e].connectionState == Connected && s.tables.peers[e].accountId != accountId
  }

  lemma LoginWaits(
      c: ServerConfig, mac: Auth.Authenticator, directory: Admission.Directory, s: ServerState, e: EndpointKey, accountId: nat)
    requires accountId > 0 && directory(accountId).value > 0 && IsOpenTo(s.lobby, accountId) && e !in s.lobby.tables.peers
    ensures IsEnabled(c, directory, s, LoginOf(directory, e, accountId))
    ensures After(c, mac, directory, s, LoginOf(directory, e, accountId))
         == s.(lobby := s.lobby.(accounts := map[e := WaitingAccount(directory, accountId)]))
  {
    hide IsListing, IsPeerOf, Expired, MarkedRecoverable;
    SectionIsStep(c, mac, directory, s, LoginOf(directory, e, accountId));
  }

  /** The one who waits joins. */
  lemma WaitingJoins(
      c: ServerConfig, mac: Auth.Authenticator, directory: Admission.Directory, stands: Standing, s: ServerState, e: EndpointKey, accountId: nat)
    requires IsSoundConfig(c, stands) && IsSoundState(directory, stands, s) && e !in s.lobby.tables.peers
    requires s.lobby.accounts == map[e := WaitingAccount(directory, accountId)]
    requires forall f :: f in s.lobby.tables.peers ==> s.lobby.tables.peers[f].connectionState == Connected
    ensures IsOffered(c, directory, s, JoinOf(e, accountId))
    ensures IsOrderly(c, s, JoinOf(e, accountId)) <==> PlayerId(s.lobby.world.nextPlayerId) !in s.lobby.world.players
    ensures var s', account := After(c, mac, directory, s, JoinOf(e, accountId)).lobby, WaitingAccount(directory, accountId);
            && s'.tables.peers == s.lobby.tables.peers[e := CreatedPeer(s.lobby, e, WaitingIdentity(account), c.initialRoomId, 0)]
            && s'.accounts == map[] && s'.world.nextPlayerId == NextId(s.lobby.world.nextPlayerId)
  {
    hide MatchesAgree, IsKept, TransientsBacked, SessionsAgree, AreSound, PeersStand, Admission.HasOneOwner, HavePositiveRooms;
    hide JoinAuthenticated, AfterJoin, TablesAgree, PlayersAgree, After, Created;
    SectionIsStep(c, mac, directory, s, JoinOf(e, accountId));
    JoinIsDecidedByTokens(c, directory, stands, s, e, TokenOf(accountId), None, 0);
    JoinShape(c, s.lobby, e, TokenOf(accountId), None, 0);
    AfterJoinWorld(c, s, e, TokenOf(accountId), None, 0, 0);
    JoinedAtPeerTable(c, directory, stands, s, e, 0);
    CreatedTakesNextId(s.lobby, e, WaitingIdentity(s.lobby.accounts[e]), c);
    assert s.lobby.accounts - {e} == map[];
  }

  lemma CreatedTakesNextId(s: Lobby, e: EndpointKey, identity: AuthenticatedIdentity, c: ServerConfig)
    ensures Created(s, e, identity, c.initialRoomId, c.gameRule, c.arena, 0).0.world.nextPlayerId == NextId(s.world.nextPlayerId)
  {
  }

  lemma GuestLeaves(c: ServerConfig, mac: Auth.Authenticator, directory: Admission.Directory, s: ServerState, e: EndpointKey)
    requires IsJoinedPeer(s.lobby.tables, e)
    ensures IsEnabled(c, directory, s, Leave(e, None, 0, 0))
    ensures var s' := After(c, mac, directory, s, Leave(e, None, 0, 0)).lobby;
            && s'.tables.peers == s.lobby.tables.peers - {e} && s'.accounts == s.lobby.accounts
            && s'.world.nextPlayerId == s.lobby.world.nextPlayerId
  {
    hide IsListing, IsPeerOf, Expired, MarkedRecoverable, Erased, WithoutTransients, ClosedSession, Left;
    SectionIsStep(c, mac, directory, s, Leave(e, None, 0, 0));
    TransientsOnly(WithoutPlayer(s.lobby.world, s.lobby.tables.peers[e].playerId), s.lobby.tables.peers[e].roomId);
  }

  lemma TransientsOnly(w: World, r: RoomId)
    ensures WithoutTransients(w, r).nextPlayerId == w.nextPlayerId
  {
  }

  /** The host alone is there, and `count` ids were given out, the first to the host. */
  ghost predicate IsHosted(s: Lobby, count: nat) {
    && s.tables.peers.Keys == {HOST} && s.accounts == map[] && s.world.nextPlayerId == (1 + count) % RANGE
    && var host := s.tables.peers[HOST];
       host.accountId == 1 && host.playerId == PlayerId(1) && host.connectionState == Connected
  }

  ghost predicate IsSoundRun(
      c: ServerConfig, mac: Auth.Authenticator, directory: Admission.Directory, stands: Standing, states: seq<ServerState>, events: seq<Event>) {
    IsRun(c, mac, directory, states, events) && IsSoundState(directory, stands, states[|events|])
  }

  lemma RunExtends(
      c: ServerConfig, mac: Auth.Authenticator, directory: Admission.Directory, stands: Standing, states: seq<ServerState>, events: seq<Event>, event: Event)
    returns (states': seq<ServerState>, events': seq<Event>)
    requires IsSoundConfig(c, stands) && Admission.IsOneToOne(directory)
    requires IsSoundRun(c, mac, directory, stands, states, events) && IsEnabled(c, directory, states[|events|], event)
    ensures IsSoundRun(c, mac, directory, stands, states', events')
    ensures states'[|events'|] == After(c, mac, directory, states[|events|], event)
  {
    hide After, IsOffered, IsOrderly, IsSoundState, IsSoundConfig, Admission.IsOneToOne;
    var s := states[|events|];
    StepKeeps(c, mac, directory, stands, s, event);
    states', events' := states + [After(c, mac, directory, s, event)], events + [event];
    forall i | 0 <= i < |events'|
      ensures IsEnabled(c, directory, states'[i], events'[i]) && states'[i + 1] == After(c, mac, directory, states'[i], events'[i])
    {
      if i < |events| {
        assert states'[i] == states[i] && states'[i + 1] == states[i + 1] && events'[i] == events[i];
      }
    }
  }

  /** The host joins an empty server. */
  lemma HostComes(c: ServerConfig, mac: Auth.Authenticator, directory: Admission.Directory, stands: Standing)
    returns (states: seq<ServerState>, events: seq<Event>)
    requires IsSoundConfig(c, stands) && Admission.IsOneToOne(directory) && directory(1).value > 0
    ensures IsSoundRun(c, mac, directory, stands, states, events) && IsHosted(states[|events|].lobby, 1)
  {
    hide After, IsOffered, IsSoundState, IsSoundConfig, Admission.IsOneToOne, CreatedPeer, IsOrderly;
    InitialStateIsSound(directory, stands);
    states, events := [INITIAL_STATE], [];
    LoginWaits(c, mac, directory, INITIAL_STATE, HOST, 1);
    states, events := RunExtends(c, mac, directory, stands, states, events, LoginOf(directory, HOST, 1));
    WaitingJoins(c, mac, directory, stands, states[|events|], HOST, 1);
    CreatedPeerIs(states[|events|].lobby, HOST, WaitingIdentity(WaitingAccount(directory, 1)), c.initialRoomId);
    states, events := RunExtends(c, mac, directory, stands, states, events, JoinOf(HOST, 1));
  }

  lemma CreatedPeerIs(s: Lobby, e: EndpointKey, identity: AuthenticatedIdentity, r: RoomId)
    ensures var p := CreatedPeer(s, e, identity, r, 0);
            p.accountId == identity.accountId && p.playerId == PlayerId(s.world.nextPlayerId) && p.connectionState == Connected && p.isJoined
  {
  }

  /** A guest logs in and waits. */
  lemma GuestWaits(
      c: ServerConfig, mac: Auth.Authenticator, directory: Admission.Directory, stands: Standing, states: seq<ServerState>, events: seq<Event>, count: nat)
    returns (states': seq<ServerState>, events': seq<Event>)
    requires IsSoundConfig(c, stands) && Admission.IsOneToOne(directory) && directory(2).value > 0
    requires IsSoundRun(c, mac, directory, stands, states, events) && IsHosted(states[|events|].lobby, count)
    ensures IsSoundRun(c, mac, directory, stands, states', events')
    ensures var s' := states'[|events'|].lobby;
            s' == states[|events|].lobby.(accounts := map[GUEST := WaitingAccount(directory, 2)]) && s'.world.players.Keys == {PlayerId(1)}
  {
    hide After, IsOffered, IsOrderly, IsSoundState, IsSoundConfig, Admission.IsOneToOne;
    OnlyHostPlays(directory, stands, states[|events|], count);
    LoginWaits(c, mac, directory, states[|events|], GUEST, 2);
    states', events' := RunExtends(c, mac, directory, stands, states, events, LoginOf(directory, GUEST, 2));
  }

  lemma OnlyHostPlays(directory: Admission.Directory, stands: Standing, s: ServerState, count: nat)
    requires IsSoundState(directory, stands, s) && IsHosted(s.lobby, count)
    ensures s.lobby.world.players.Keys == {PlayerId(1)}
  {
    hide TablesAgree, AreSound, PeersStand, HavePositiveRooms, Admission.HasOneOwner, MatchesAgree, IsKept, TransientsBacked, SessionsAgree;
    var peers, players := s.lobby.tables.peers, s.lobby.world.players;
    assert peers[HOST].playerId in players;
    forall id | id in players
      ensures id == PlayerId(1)
    {
      var e :| e in peers && peers[e].playerId == id;
      assert e in peers.Keys;
    }
  }

  /** A guest comes and goes. */
  lemma GuestVisits(
      c: ServerConfig, mac: Auth.Authenticator, directory: Admission.Directory, stands: Standing, states: seq<ServerState>, events: seq<Event>, count: nat)
    returns (states': seq<ServerState>, events': seq<Event>)
    requires IsSoundConfig(c, stands) && Admission.IsOneToOne(directory) && directory(2).value > 0
    requires IsSoundRun(c, mac, directory, stands, states, events) && IsHosted(states[|events|].lobby, count) && 1 <= count < RANGE
    ensures IsSoundRun(c, mac, directory, stands, states', events') && IsHosted(states'[|events'|].lobby, count + 1)
  {
    hide After, IsOffered, IsOrderly, IsSoundState, IsSoundConfig, Admission.IsOneToOne, CreatedPeer;
    states', events' := GuestWaits(c, mac, directory, stands, states, events, count);
    var s := states'[|events'|];
    WaitingJoins(c, mac, directory, stands, s, GUEST, 2);
    CreatedPeerIs(s.lobby, GUEST, WaitingIdentity(WaitingAccount(directory, 2)), c.initialRoomId);
    states', events' := RunExtends(c, mac, directory, stands, states', events', JoinOf(GUEST, 2));
    GuestLeaves(c, mac, directory, states'[|events'|], GUEST);
    states', events' := RunExtends(c, mac, directory, stands, states', events', Leave(GUEST, None, 0, 0));
  }

  lemma {:induction false} GuestsVisit(c: ServerConfig, mac: Auth.Authenticator, directory: Admission.Directory, stands: Standing, count: nat)
    returns (states: seq<ServerState>, events: seq<Event>)
    requires IsSoundConfig(c, stands) && Admission.IsOneToOne(directory) && directory(1).value > 0 && directory(2).value > 0
    requires 1 <= count <= RANGE
    ensures IsSoundRun(c, mac, directory, stands, states, events) && IsHosted(states[|events|].lobby, count)
    decreases count
  {
    hide IsSoundRun, IsHosted, IsSoundConfig, Admission.IsOneToOne;
    if count == 1 {
      states, events := HostComes(c, mac, directory, stands);
    } else {
      states, events := GuestsVisit(c, mac, directory, stands, count - 1);
      states, events := GuestVisits(c, mac, directory, stands, states, events, count - 1);
    }
  }

  /** It does happen: after 2^32 joins the next guest is given the host's player id, and the tables no longer agree. */
  lemma JoinFindsIdInUseInARun(c: ServerConfig, mac: Auth.Authenticator, directory: Admission.Directory, stands: Standing)
    returns (states: seq<ServerState>, events: seq<Event>, event: Event)
    requires IsSoundConfig(c, stands) && Admission.IsOneToOne(directory) && directory(1).value > 0 && directory(2).value > 0
    ensures IsRun(c, mac, directory, states, events) && event.Join? && IsOffered(c, directory, states[|events|], event)
    ensures !IsOrderly(c, states[|events|], event)
    ensures !IsSoundState(directory, stands, After(c, mac, directory, states[|events|], event))
  {
    hide After, IsOffered, IsOrderly, IsSoundState, IsSoundConfig, Admission.IsOneToOne, CreatedPeer;
    states, events := GuestsVisit(c, mac, directory, stands, RANGE);
    states, events := GuestWaits(c, mac, directory, stands, states, events, RANGE);
    event := JoinOf(GUEST, 2);
    WaitingJoins(c, mac, directory, stands, states[|events|], GUEST, 2);
    StepKeepsIff(c, mac, directory, stands, states[|events|], event);
  }
}
