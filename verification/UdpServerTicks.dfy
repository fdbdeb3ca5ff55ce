// What a tick does to each player and to the matches, from the counts of its hits and kills.

module UdpServerTicks {
  import opened GameIds
  import opened SessionToken
  import opened GameWorld
  import opened GameSimulation
  import opened GameSimulationAccounts
  import opened Arena
  import opened PeerRoomManager
  import opened MatchHistoryTracker
  import opened PeerSessionService
  import opened PlayerCommandService
  import opened UdpServerModel
  import opened UdpServerInvariants
  import opened UdpServerRuns
  import Admission = AccountLoginAdmissionService
  import Auth = AuthenticatedUdpPacket
  import Client = LocalPlayerReconciliation

  // A player through a tick.

  function MovedWorld(c: ServerConfig, s: ServerState, order: seq<EndpointKey>): World
    requires forall e :: e in order ==> e in s.lobby.tables.peers
  {
    PlayersMoved(s.lobby.world, ContextsOf(s.lobby.tables.peers, order), c.fixedDeltaSeconds, c.arena)
  }

  /** The turns of the tick's bullets, among the players after they have moved, for an order that lists peers. */
  ghost function TickTurns(c: ServerConfig, s: ServerState, order: seq<EndpointKey>): seq<Turn> {
    if forall e :: e in order ==> e in s.lobby.tables.peers
    then TurnsOf(MovedWorld(c, s, order), 0, ContextsOf(s.lobby.tables.peers, order), c.fixedDeltaSeconds, c.gameRule, c.arena)
    else []
  }

  function Walked(p: PlayerState, r: RoomId, c: ServerConfig): PlayerState {
    if p.isDead then p else p.(position := c.arena.moved(p, r, c.fixedDeltaSeconds))
  }

  lemma ContextOfListed(peers: PeerTable, order: seq<EndpointKey>, e: EndpointKey) returns (k: nat)
    requires IsListing(order, peers.Keys) && e in peers
    ensures k < |order| && ContextsOf(peers, order)[k] == ContextOfPeer(peers[e])
  {
    assert e in order;
    k :| 0 <= k < |order| && order[k] == e;
  }

  lemma TickWalks(c: ServerConfig, stands: Standing, s: ServerState, order: seq<EndpointKey>, e: EndpointKey)
    requires PlayersAgree(s.lobby.tables.peers, s.lobby.world) && PeersStand(s.lobby.tables.peers, s.lobby.world.players, stands)
    requires IsListing(order, s.lobby.tables.peers.Keys) && e in s.lobby.tables.peers
    ensures var moved, p := MovedWorld(c, s, order), s.lobby.tables.peers[e];
            && p.playerId in s.lobby.world.players && moved.players.Keys == s.lobby.world.players.Keys
            && moved.players[p.playerId] == Walked(s.lobby.world.players[p.playerId], p.roomId, c)
  {
    hide PlayersMoved;
    var contexts, id := ContextsOf(s.lobby.tables.peers, order), s.lobby.tables.peers[e].playerId;
    ContextsStand(s.lobby.tables.peers, s.lobby.world, order, stands);
    var k := ContextOfListed(s.lobby.tables.peers, order, e);
    MovesAreIndependent(s.lobby.world, contexts, |contexts|, c.fixedDeltaSeconds, c.arena, id);
    assert contexts[..|contexts|] == contexts;
  }

  /** A peer's player goes through a tick stage by stage: it walks if it lives, takes the tick's hits, comes back if it is dead and its
      time is up, and its timers run. */
  lemma TickOfAPlayer(
      c: ServerConfig, directory: Admission.Directory, stands: Standing, s: ServerState, order: seq<EndpointKey>, players: seq<PlayerId>, e: EndpointKey)
    returns (hit: PlayerState, back: PlayerState)
    requires IsSoundLobby(directory, stands, s.lobby) && e in s.lobby.tables.peers
    requires KeepsStanding(c.arena, stands)
    requires IsListing(order, s.lobby.tables.peers.Keys) && IsListing(players, s.lobby.world.players.Keys)
    ensures var id, turns, w' := s.lobby.tables.peers[e].playerId, TickTurns(c, s, order), AfterTick(c, s, order, players).lobby.world;
            && id in s.lobby.world.players && id in w'.players
            && hit == AfterHits(Walked(s.lobby.world.players[id], s.lobby.tables.peers[e].roomId, c), HitsOn(turns, id), DamageTo(turns, id),
                                KillsBy(BulletPass(c, s, order).1, id), c.gameRule)
            && IsAfterRespawn(hit, back, id, ContextsOf(s.lobby.tables.peers, order), c.fixedDeltaSeconds, c.gameRule, c.arena)
            && HaveRunDown(back, w'.players[id], c.fixedDeltaSeconds)
            && (s.lobby.world.players[id].isDead ==> HitsOn(turns, id) == 0)
  {
    hide TablesAgree, AreSound, HavePositiveRooms, Admission.HasOneOwner, PlayersMoved, BulletsUpdated, Respawned, TimersUpdated, TurnsOf, AfterHits;
    hide IsAfterRespawn, HaveRunDown, KeepsStanding, PlayersAgree, PeersStand, HaveDistinctPlayers, AllStand;
    var contexts, dt, id := ContextsOf(s.lobby.tables.peers, order), c.fixedDeltaSeconds, s.lobby.tables.peers[e].playerId;
    var w, moved := s.lobby.world, MovedWorld(c, s, order);
    TickWalks(c, stands, s, order, e);
    ContextsStand(s.lobby.tables.peers, w, order, stands);
    assert contexts[..|contexts|] == contexts;
    MovesKeepStanding(w, contexts, |contexts|, dt, c.arena, stands);
    PassLeavesPlayer(moved, 0, contexts, dt, c.gameRule, c.arena, id);
    BulletPassIsAccountedFor(moved, 0, contexts, dt, c.gameRule, c.arena);
    var fought := BulletPass(c, s, order).0;
    hit := fought.players[id];
    RespawnPassLeavesPlayer(fought, players, contexts, dt, c.gameRule, c.arena, id);
    var respawned := Respawned(fought, players, contexts, dt, c.gameRule, c.arena);
    back := respawned.players[id];
    OnePassRunsDown(respawned, dt, id);
  }

  /** What that comes to. A living player that the tick's hits do not finish has walked its way and lost exactly their damage; one they
      finish is dead where it walked to, for the respawn delay; a dead one waits until its time is up; and whoever comes back stands at the
      first spawn point of its room, whole. */
  predicate IsTickOutcome(c: ServerConfig, p: PlayerState, p': PlayerState, r: RoomId, hits: nat, damage: int, kills: nat) {
    var dt, isFinished := c.fixedDeltaSeconds, !p.isDead && hits > 0 && damage >= p.hp;
    var wait := if p.isDead then p.respawnRemainingSeconds else c.gameRule.respawnDelaySeconds;
    && p'.killCount == p.killCount + kills && p'.deathCount == p.deathCount + (if isFinished then 1 else 0)
    && if !p.isDead && !isFinished then
         && !p'.isDead && p'.hp == p.hp - damage && p'.position == c.arena.moved(p, r, dt) && p'.inputFlags == p.inputFlags
         && IsRunDown(p.fireCooldownRemainingSeconds, p'.fireCooldownRemainingSeconds, dt)
       else if wait > dt then
         && p'.isDead && p'.hp == (if p.isDead then p.hp else 0) && p'.respawnRemainingSeconds == wait - dt
         && p'.position == if p.isDead then p.position else c.arena.moved(p, r, dt)
       else
         && !p'.isDead && p'.hp == c.gameRule.initialPlayerHp && p'.position == c.arena.spawnPoint(r, 0) && p'.inputFlags == NO_INPUT
         && IsRunDown(c.gameRule.respawnInvincibilitySeconds, p'.invincibilityRemainingSeconds, dt)
  }

  lemma StagesMakeOutcome(
      c: ServerConfig, p: PlayerState, r: RoomId, hits: nat, damage: int, kills: nat, id: PlayerId, contexts: seq<PlayerSimulationContext>,
      k: nat, back: PlayerState, p': PlayerState)
    requires HaveDistinctPlayers(contexts) && k < |contexts| && contexts[k].playerId == id && contexts[k].roomId == r
    requires (hits == 0 ==> damage == 0) && (p.isDead ==> hits == 0)
    requires IsAfterRespawn(AfterHits(Walked(p, r, c), hits, damage, kills, c.gameRule), back, id, contexts, c.fixedDeltaSeconds, c.gameRule, c.arena)
    requires HaveRunDown(back, p', c.fixedDeltaSeconds)
    ensures IsTickOutcome(c, p, p', r, hits, damage, kills)
  {
    hide IsRunDown;
    assert forall j :: 0 <= j < |contexts| && contexts[j].playerId == id ==> j == k;
  }

  lemma TickOutcome(
      c: ServerConfig, directory: Admission.Directory, stands: Standing, s: ServerState, order: seq<EndpointKey>, players: seq<PlayerId>, e: EndpointKey)
    requires IsSoundLobby(directory, stands, s.lobby) && e in s.lobby.tables.peers && KeepsStanding(c.arena, stands)
    requires IsListing(order, s.lobby.tables.peers.Keys) && IsListing(players, s.lobby.world.players.Keys)
    ensures var r, id := s.lobby.tables.peers[e].roomId, s.lobby.tables.peers[e].playerId;
            var turns, w' := TickTurns(c, s, order), AfterTick(c, s, order, players).lobby.world;
            && id in s.lobby.world.players && id in w'.players
            && IsTickOutcome(c, s.lobby.world.players[id], w'.players[id], r, HitsOn(turns, id), DamageTo(turns, id), KillsBy(BulletPass(c, s, order).1, id))
  {
    hide TickTurns, AfterTick, BulletPass, KeepsStanding, TablesAgree, HavePositiveRooms, Admission.HasOneOwner, PlayersAgree, PeersStand, HaveDistinctPlayers;
    hide IsTickOutcome, AfterHits, Walked, IsAfterRespawn, HaveRunDown, AreSound, AllStand;
    var r, id, contexts := s.lobby.tables.peers[e].roomId, s.lobby.tables.peers[e].playerId, ContextsOf(s.lobby.tables.peers, order);
    var hit, back := TickOfAPlayer(c, directory, stands, s, order, players, e);
    NoHitsNoDamage(TickTurns(c, s, order), id);
    ContextsStand(s.lobby.tables.peers, s.lobby.world, order, stands);
    var k := ContextOfListed(s.lobby.tables.peers, order, e);
    StagesMakeOutcome(c, s.lobby.world.players[id], r, HitsOn(TickTurns(c, s, order), id), DamageTo(TickTurns(c, s, order), id),
                      KillsBy(BulletPass(c, s, order).1, id), id, contexts, k, back, AfterTick(c, s, order, players).lobby.world.players[id]);
  }

  // The matches through a tick.

  /** How many of these kills are this player's in this room. */
  function KillEventsOf(kills: seq<KillEvent>, r: RoomId, id: PersistentPlayerId): nat {
    if kills == [] then 0
    else
      var k := kills[|kills| - 1];
      KillEventsOf(kills[..|kills| - 1], r, id) + if k.roomId == r && k.killerPersistentPlayerId == id then 1 else 0
  }

  /** How many of them this player fell victim to. */
  function DeathEventsOf(kills: seq<KillEvent>, r: RoomId, id: PersistentPlayerId): nat {
    if kills == [] then 0
    else
      var k := kills[|kills| - 1];
      DeathEventsOf(kills[..|kills| - 1], r, id) + if k.roomId == r && k.victimPersistentPlayerId == id then 1 else 0
  }

  lemma {:induction false} AllCount(m: MatchState, kills: seq<KillEvent>, r: RoomId, id: PersistentPlayerId)
    requires forall k :: k in kills ==> CanRecord(m, k)
    ensures RecordedKillsOf(m, kills, r, id) == KillEventsOf(kills, r, id) && RecordedDeathsOf(m, kills, r, id) == DeathEventsOf(kills, r, id)
  {
    hide CanRecord;
    if kills != [] {
      AllCount(m, kills[..|kills| - 1], r, id);
      assert CanRecord(m, kills[|kills| - 1]);
    }
  }

  /** In every run a tick raises the stats of every player of every active match by exactly its kills and its deaths among the tick's kill
      events in that match's room, and changes nothing else about matches. */
  lemma TicksRaiseStatsExactly(
      c: ServerConfig, mac: Auth.Authenticator, directory: Admission.Directory, stands: Standing, states: seq<ServerState>, events: seq<Event>, n: nat,
      r: RoomId, id: PersistentPlayerId)
    requires IsSoundConfig(c, stands) && Admission.IsOneToOne(directory) && IsRun(c, mac, directory, states, events) && n < |events|
    requires events[n].Tick? && r in states[n].matches.matches && id in states[n].matches.matches[r].playerStatsTable
    ensures SamePlayers(states[n].matches, states[n + 1].matches)
    ensures var before, after := states[n].matches.matches[r].playerStatsTable[id], states[n + 1].matches.matches[r].playerStatsTable[id];
            var kills := KillsOf(c, states[n], events[n].order);
            && after.persistentPlayerId == before.persistentPlayerId
            && after.killCount == before.killCount + KillEventsOf(kills, r, id)
            && after.deathCount == before.deathCount + DeathEventsOf(kills, r, id)
  {
    hide IsSoundConfig, Admission.IsOneToOne, IsSoundState, BulletPass, IsListing, SamePlayers, CanRecord, IsOrderly, RecordedAll;
    var s, order, players := states[n], events[n].order, events[n].players;
    EveryRunIsSound(c, mac, directory, stands, states, events, n);
    assert IsEnabled(c, directory, s, events[n]);
    ListedArePeers(s, order);
    TickRecordsEveryKill(c, directory, stands, s, order, players);
    var kills := BulletPass(c, s, order).1;
    RecordingCounts(s.matches, kills, r, id);
    AllCount(s.matches, kills, r, id);
    assert states[n + 1] == After(c, mac, directory, s, events[n]);
  }

  lemma ListedArePeers(s: ServerState, order: seq<EndpointKey>)
    requires IsListing(order, s.lobby.tables.peers.Keys)
    ensures forall e :: e in order ==> e in s.lobby.tables.peers
  {
  }

  /** A tick in a run: every peer's player comes out of it as told, every accepted input counts as processed, and the tick is counted. */
  lemma TicksAreExact(
      c: ServerConfig, mac: Auth.Authenticator, directory: Admission.Directory, stands: Standing, states: seq<ServerState>, events: seq<Event>, n: nat, e: EndpointKey)
    requires IsSoundConfig(c, stands) && Admission.IsOneToOne(directory) && IsRun(c, mac, directory, states, events) && n < |events|
    requires events[n].Tick? && e in states[n].lobby.tables.peers
    ensures var s, s' := states[n].lobby, states[n + 1].lobby;
            var peer, turns := s.tables.peers[e], TickTurns(c, states[n], events[n].order);
            && e in s'.tables.peers && s'.tables.peers[e] == peer.(lastProcessedInputSequence := peer.lastAcceptedInputSequence)
            && s'.world.serverTick == (s.world.serverTick + 1) % 0x1_0000_0000
            && peer.playerId in s.world.players && peer.playerId in s'.world.players
            && IsTickOutcome(c, s.world.players[peer.playerId], s'.world.players[peer.playerId], peer.roomId, HitsOn(turns, peer.playerId),
                             DamageTo(turns, peer.playerId), KillsBy(KillsOf(c, states[n], events[n].order), peer.playerId))
  {
    hide Admission.IsOneToOne, BulletPass, IsOrderly, TablesAgree, PlayersAgree, AreSound, PeersStand, HavePositiveRooms, Admission.HasOneOwner;
    hide MatchesAgree, IsKept, TransientsBacked, SessionsAgree, KeepsStanding, TickTurns, IsTickOutcome, RecordedAll, Respawned, TimersUpdated, IsListing;
    var s, order, players := states[n], events[n].order, events[n].players;
    EveryRunIsSound(c, mac, directory, stands, states, events, n);
    assert IsEnabled(c, directory, s, events[n]);
    ListedArePeers(s, order);
    TickOutcome(c, directory, stands, s, order, players, e);
    PeersAreJoined(s.lobby.tables);
    TickIsCounted(c, s, order, players);
    assert states[n + 1] == After(c, mac, directory, s, events[n]);
  }

  lemma TickIsCounted(c: ServerConfig, s: ServerState, order: seq<EndpointKey>, players: seq<PlayerId>)
    requires forall e :: e in order ==> e in s.lobby.tables.peers
    ensures AfterTick(c, s, order, players).lobby.world.serverTick == (s.lobby.world.serverTick + 1) % 0x1_0000_0000
  {
    hide MoveStep, BulletStep, RespawnStep, RecordedAll;
    var contexts, w := ContextsOf(s.lobby.tables.peers, order), s.lobby.world;
    MovingKeepsTick(w, contexts, c.fixedDeltaSeconds, c.arena);
    var moved := MovedWorld(c, s, order);
    BulletsKeepTick(moved, 0, contexts, c.fixedDeltaSeconds, c.gameRule, c.arena);
    RespawnsKeepTick(BulletPass(c, s, order).0, players, contexts, c.fixedDeltaSeconds, c.gameRule, c.arena);
  }

  lemma {:induction false} MovingKeepsTick(w: World, contexts: seq<PlayerSimulationContext>, dt: real, arena: Arena)
    ensures PlayersMoved(w, contexts, dt, arena).serverTick == w.serverTick
  {
    if contexts != [] {
      MovingKeepsTick(w, contexts[..|contexts| - 1], dt, arena);
    }
  }

  lemma {:induction false} BulletsKeepTick(
      w: World, index: nat, contexts: seq<PlayerSimulationContext>, dt: real, rules: GameRuleConfig, arena: Arena)
    requires index <= |w.bullets|
    ensures BulletsUpdated(w, index, contexts, dt, rules, arena).0.serverTick == w.serverTick
    decreases |w.bullets| - index
  {
    if index < |w.bullets| {
      var f := BulletStep(w, index, contexts, dt, rules, arena);
      BulletsKeepTick(f.world, NextIndex(index, f), contexts, dt, rules, arena);
    }
  }

  lemma {:induction false} RespawnsKeepTick(
      w: World, order: seq<PlayerId>, contexts: seq<PlayerSimulationContext>, dt: real, rules: GameRuleConfig, arena: Arena)
    ensures Respawned(w, order, contexts, dt, rules, arena).serverTick == w.serverTick
  {
    if order != [] {
      RespawnsKeepTick(w, order[..|order| - 1], contexts, dt, rules, arena);
    }
  }

  lemma PeersAreJoined(t: PeerTables)
    requires TablesAgree(t)
    ensures forall e :: e in t.peers ==> t.peers[e].isJoined
  {
  }

  // The scores and the matches agree.

  /** A kill's victim is this peer's player exactly if it is this peer's person in its room. */
  lemma VictimIsPeer(
      directory: Admission.Directory, s: Lobby, order: seq<EndpointKey>, owners: set<(RoomId, PersistentPlayerId)>, k: KillEvent, e: EndpointKey)
    requires PlayersAgree(s.tables.peers, s.world) && Admission.HasOneOwner(s.tables, s.accounts, directory) && Admission.IsOneToOne(directory)
    requires IsListing(order, s.tables.peers.Keys) && e in s.tables.peers
    requires IsBacked(k, owners, ContextsOf(s.tables.peers, order))
    ensures var p := s.tables.peers[e];
            k.victimPlayerId == p.playerId <==> k.roomId == p.roomId && k.victimPersistentPlayerId == p.persistentPlayerId
  {
    var contexts := ContextsOf(s.tables.peers, order);
    var j :| 0 <= j < |contexts| && contexts[j] == PlayerSimulationContext(k.victimPlayerId, k.victimPersistentPlayerId, k.roomId);
    var f := order[j];
    assert f in order;
    if f != e {
      Admission.PeersHaveDistinctIds(s.tables, s.accounts, directory, e, f);
    }
  }

  lemma {:induction false} SameDeaths(kills: seq<KillEvent>, p: PeerState)
    requires forall k :: k in kills ==>
               (k.victimPlayerId == p.playerId <==> k.roomId == p.roomId && k.victimPersistentPlayerId == p.persistentPlayerId)
    ensures DeathsOf(kills, p.playerId) == DeathEventsOf(kills, p.roomId, p.persistentPlayerId)
  {
    if kills != [] {
      var earlier, last := kills[..|kills| - 1], kills[|kills| - 1];
      SameDeaths(earlier, p);
      assert kills == earlier + [last] && last in kills;
      CountsAdd(earlier, [last], p.playerId);
      CountsOfOne(last, p.playerId);
    }
  }

  /** A tick raises the death count that a peer's player shows and the one that its match keeps by the same number. */
  lemma DeathsShownAreDeathsKept(
      c: ServerConfig, mac: Auth.Authenticator, directory: Admission.Directory, stands: Standing, states: seq<ServerState>, events: seq<Event>, n: nat, e: EndpointKey)
    requires IsSoundConfig(c, stands) && Admission.IsOneToOne(directory) && IsRun(c, mac, directory, states, events) && n < |events|
    requires events[n].Tick? && e in states[n].lobby.tables.peers
    ensures var peer, players, players' := states[n].lobby.tables.peers[e], states[n].lobby.world.players, states[n + 1].lobby.world.players;
            var matches, matches' := states[n].matches.matches, states[n + 1].matches.matches;
            && peer.playerId in players && peer.playerId in players' && peer.roomId in matches && peer.roomId in matches'
            && var stats, stats' := matches[peer.roomId].playerStatsTable, matches'[peer.roomId].playerStatsTable;
               && peer.persistentPlayerId in stats && peer.persistentPlayerId in stats'
               && players'[peer.playerId].deathCount - players[peer.playerId].deathCount
                  == stats'[peer.persistentPlayerId].deathCount - stats[peer.persistentPlayerId].deathCount
  {
    hide BulletPass, IsOrderly, TablesAgree, PlayersAgree, AreSound, PeersStand, HavePositiveRooms, Admission.HasOneOwner, Admission.IsOneToOne;
    hide IsKept, TransientsBacked, SessionsAgree, KeepsStanding, IsTickOutcome, RecordedAll, AfterTick, IsListing, IsBacked, CanRecord;
    var s, order, players := states[n], events[n].order, events[n].players;
    EveryRunIsSound(c, mac, directory, stands, states, events, n);
    assert IsEnabled(c, directory, s, events[n]);
    ListedArePeers(s, order);
    TickRecordsEveryKill(c, directory, stands, s, order, players);
    PeerHasStats(s, e);
    var peer, kills := s.lobby.tables.peers[e], BulletPass(c, s, order).1;
    TicksRaiseStatsExactly(c, mac, directory, stands, states, events, n, peer.roomId, peer.persistentPlayerId);
    forall k | k in kills
      ensures k.victimPlayerId == peer.playerId <==> k.roomId == peer.roomId && k.victimPersistentPlayerId == peer.persistentPlayerId
    {
      VictimIsPeer(directory, s.lobby, order, OwnersOf(s.matches.matches), k, e);
    }
    SameDeaths(kills, peer);
    DeathsAreShown(c, directory, stands, s, order, players, e);
    assert states[n + 1] == AfterTick(c, s, order, players);
  }

  lemma PeerHasStats(s: ServerState, e: EndpointKey)
    requires MatchesAgree(s.lobby.tables.peers, s.matches.matches) && IsKept(s.matches) && e in s.lobby.tables.peers
    ensures var peer, matches := s.lobby.tables.peers[e], s.matches.matches;
            peer.roomId in matches && peer.persistentPlayerId in matches[peer.roomId].playerStatsTable
  {
    hide IsBalanced;
    assert IsKeptMatch(s.matches.matches[s.lobby.tables.peers[e].roomId], s.lobby.tables.peers[e].roomId);
  }

  lemma DeathsAreShown(
      c: ServerConfig, directory: Admission.Directory, stands: Standing, s: ServerState, order: seq<EndpointKey>, players: seq<PlayerId>, e: EndpointKey)
    requires IsSoundLobby(directory, stands, s.lobby) && e in s.lobby.tables.peers && KeepsStanding(c.arena, stands)
    requires IsListing(order, s.lobby.tables.peers.Keys) && IsListing(players, s.lobby.world.players.Keys)
    ensures var id, w' := s.lobby.tables.peers[e].playerId, AfterTick(c, s, order, players).lobby.world;
            && id in s.lobby.world.players && id in w'.players
            && w'.players[id].deathCount == s.lobby.world.players[id].deathCount + DeathsOf(BulletPass(c, s, order).1, id)
  {
    hide TablesAgree, AreSound, HavePositiveRooms, Admission.HasOneOwner, PlayersMoved, BulletsUpdated, Respawned, TimersUpdated;
    hide IsAfterRespawn, HaveRunDown, KeepsStanding, PlayersAgree, PeersStand, HaveDistinctPlayers, AllStand;
    var contexts, dt, id := ContextsOf(s.lobby.tables.peers, order), c.fixedDeltaSeconds, s.lobby.tables.peers[e].playerId;
    var w, moved := s.lobby.world, MovedWorld(c, s, order);
    TickWalks(c, stands, s, order, e);
    ContextsStand(s.lobby.tables.peers, w, order, stands);
    assert contexts[..|contexts|] == contexts;
    MovesKeepStanding(w, contexts, |contexts|, dt, c.arena, stands);
    BulletPassIsAccountedFor(moved, 0, contexts, dt, c.gameRule, c.arena);
    var fought := BulletPass(c, s, order).0;
    RespawnPassLeavesPlayer(fought, players, contexts, dt, c.gameRule, c.arena, id);
    var respawned := Respawned(fought, players, contexts, dt, c.gameRule, c.arena);
    OnePassRunsDown(respawned, dt, id);
    RespawnKeepsDeaths(fought.players[id], respawned.players[id], id, contexts, dt, c.gameRule, c.arena);
    RunningDownKeepsDeaths(respawned.players[id], TimersUpdated(respawned, dt).players[id], dt);
  }

  lemma RespawnKeepsDeaths(p: PlayerState, p': PlayerState, id: PlayerId, contexts: seq<PlayerSimulationContext>, dt: real, rules: GameRuleConfig, arena: Arena)
    requires IsAfterRespawn(p, p', id, contexts, dt, rules, arena)
    ensures p'.deathCount == p.deathCount
  {
  }

  lemma RunningDownKeepsDeaths(p: PlayerState, p': PlayerState, time: real)
    requires HaveRunDown(p, p', time)
    ensures p'.deathCount == p.deathCount
  {
  }

  // Inputs.

  /** The server does with an input what the client does. In a run, take an input that is accepted and the tick right after it: unless the
      tick's hits finish the player, it is where the client's prediction puts it, and the input's sequence is the one reported as processed. */
  lemma AcceptedInputMovesAsPredicted(
      c: ServerConfig, mac: Auth.Authenticator, directory: Admission.Directory, directions: Directions, stands: Standing, states: seq<ServerState>,
      events: seq<Event>, n: nat)
    requires IsSoundConfig(c, stands) && Admission.IsOneToOne(directory) && IsRun(c, mac, directory, states, events) && n + 1 < |events|
    requires c.arena == GameArena(directions) && c.fixedDeltaSeconds > 0.0
    requires events[n].Input? && AcceptsInput(states[n].lobby, events[n].endpoint, events[n].sequence) && events[n + 1].Tick?
    ensures var e, flags, dt := events[n].endpoint, events[n].flags, c.fixedDeltaSeconds;
            var peer, s, s' := states[n].lobby.tables.peers[e], states[n].lobby, states[n + 2].lobby;
            var turns := TickTurns(c, states[n + 1], events[n + 1].order);
            && e in s'.tables.peers && s'.tables.peers[e].lastProcessedInputSequence == events[n].sequence
            && peer.playerId in s.world.players && peer.playerId in s'.world.players
            && var p, p' := s.world.players[peer.playerId], s'.world.players[peer.playerId];
               (p.moveSpeed > 0.0 && (HitsOn(turns, peer.playerId) == 0 || DamageTo(turns, peer.playerId) < p.hp)
                ==> p'.inputFlags == flags
                    && p'.position == Client.InputApplied(Client.Prediction(p.position, true), Client.GameMover(directions), flags, dt, p.moveSpeed, peer.roomId).position)
  {
    hide Admission.IsOneToOne, IsOrderly, IsSoundState, KeepsStanding, TickTurns, AfterTick, IsListing;
    var s := states[n];
    EveryRunIsSound(c, mac, directory, stands, states, events, n);
    assert states[n + 1] == After(c, mac, directory, s, events[n]);
    TicksAreExact(c, mac, directory, stands, states, events, n + 1, events[n].endpoint);
    var peer := s.lobby.tables.peers[events[n].endpoint];
    Client.ClientMovesAsServer(directions, states[n + 1].lobby.world.players[peer.playerId], peer.roomId, c.fixedDeltaSeconds);
  }
}
