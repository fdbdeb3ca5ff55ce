// Active matches by room, their kill and death counts, and the completed ones (Server/Game/MatchHistoryTracker.cpp).

module MatchHistoryTracker {
  import opened GameIds
  import opened GameSimulation

  datatype MatchPlayerStats = MatchPlayerStats(persistentPlayerId: PersistentPlayerId, killCount: nat, deathCount: nat)

  type StatsTable = map<PersistentPlayerId, MatchPlayerStats>

  datatype ActiveMatch = ActiveMatch(
    roomId: RoomId,
    startedAt: int,
    playerStatsTable: StatsTable,
    activePlayerSet: set<PersistentPlayerId>)

  datatype CompletedMatch = CompletedMatch(roomId: RoomId, startedAt: int, endedAt: int, playerStatsList: seq<MatchPlayerStats>)

  type ActiveMatchTable = map<RoomId, ActiveMatch>

  datatype MatchState = MatchState(matches: ActiveMatchTable, completed: seq<CompletedMatch>)

  const NO_MATCHES := MatchState(map[], [])

  // A table listed in the order of its players' ids.

  ghost function Least(ids: set<PersistentPlayerId>): (least: PersistentPlayerId)
    requires ids != {}
    ensures least in ids && forall id :: id in ids ==> least.value <= id.value
  {
    var id :| id in ids;
    if ids == {id} then id
    else
      var other := Least(ids - {id});
      assert forall k :: k in ids ==> k == id || k in ids - {id};
      if other.value < id.value then other else id
  }

  ghost function SortedStats(stats: StatsTable): seq<MatchPlayerStats>
    decreases |stats|
  {
    if stats == map[] then []
    else
      var least := Least(stats.Keys);
      assert (stats - {least}).Keys == stats.Keys - {least};
      [stats[least]] + SortedStats(stats - {least})
  }

  function KillTotal(list: seq<MatchPlayerStats>): nat {
    if list == [] then 0 else list[0].killCount + KillTotal(list[1..])
  }

  function DeathTotal(list: seq<MatchPlayerStats>): nat {
    if list == [] then 0 else list[0].deathCount + DeathTotal(list[1..])
  }

  ghost predicate IsBalanced(stats: StatsTable) {
    KillTotal(SortedStats(stats)) == DeathTotal(SortedStats(stats))
  }

  lemma {:induction false} UpdateShiftsTotals(stats: StatsTable, id: PersistentPlayerId, updated: StatsTable)
    requires id in stats && id in updated && updated == stats[id := updated[id]]
    ensures KillTotal(SortedStats(updated)) == KillTotal(SortedStats(stats)) - stats[id].killCount + updated[id].killCount
    ensures DeathTotal(SortedStats(updated)) == DeathTotal(SortedStats(stats)) - stats[id].deathCount + updated[id].deathCount
    decreases |stats|
  {
    var least := Least(stats.Keys);
    assert updated.Keys == stats.Keys;
    assert (stats - {least}).Keys == stats.Keys - {least};
    if least == id {
      assert updated - {least} == stats - {least};
    } else {
      assert updated - {least} == (stats - {least})[id := updated[id]];
      UpdateShiftsTotals(stats - {least}, id, updated - {least});
    }
  }

  lemma LeastIsUnique(ids: set<PersistentPlayerId>, id: PersistentPlayerId)
    requires id in ids && forall k :: k in ids ==> id.value <= k.value
    ensures ids != {} && Least(ids) == id
  {
  }

  lemma {:induction false} InsertAddsToTotals(stats: StatsTable, id: PersistentPlayerId, s: MatchPlayerStats)
    requires id !in stats
    ensures KillTotal(SortedStats(stats[id := s])) == KillTotal(SortedStats(stats)) + s.killCount
    ensures DeathTotal(SortedStats(stats[id := s])) == DeathTotal(SortedStats(stats)) + s.deathCount
    decreases |stats|
  {
    var inserted := stats[id := s];
    var least := Least(inserted.Keys);
    if least == id {
      assert (inserted - {least}).Keys == stats.Keys;
      assert inserted - {least} == stats;
    } else {
      LeastIsUnique(stats.Keys, least);
      assert (stats - {least}).Keys == stats.Keys - {least};
      assert inserted - {least} == (stats - {least})[id := s];
      InsertAddsToTotals(stats - {least}, id, s);
    }
  }

  /** A list with strictly rising ids that holds exactly the entries of a table. */
  ghost predicate IsSortedListing(list: seq<MatchPlayerStats>, stats: StatsTable) {
    && (forall id :: id in stats ==> stats[id].persistentPlayerId == id && stats[id] in list)
    && (forall i :: 0 <= i < |list| ==> list[i].persistentPlayerId in stats && stats[list[i].persistentPlayerId] == list[i])
    && forall i, j :: 0 <= i < j < |list| ==> list[i].persistentPlayerId.value < list[j].persistentPlayerId.value
  }

  lemma FirstIsLeast(list: seq<MatchPlayerStats>, stats: StatsTable)
    requires IsSortedListing(list, stats) && list != []
    ensures stats != map[] && Least(stats.Keys) == list[0].persistentPlayerId
  {
    forall k | k in stats
      ensures list[0].persistentPlayerId.value <= k.value
    {
      var i :| 0 <= i < |list| && list[i] == stats[k];
    }
    LeastIsUnique(stats.Keys, list[0].persistentPlayerId);
  }

  lemma RestIsListing(list: seq<MatchPlayerStats>, stats: StatsTable)
    requires IsSortedListing(list, stats) && list != []
    ensures IsSortedListing(list[1..], stats - {list[0].persistentPlayerId})
  {
    var first, rest := list[0].persistentPlayerId, list[1..];
    forall id | id in stats - {first}
      ensures stats[id] in rest
    {
      var i :| 0 <= i < |list| && list[i] == stats[id];
      assert rest[i - 1] == stats[id];
    }
  }

  /** There is only one such list. */
  lemma {:induction false} SortedListingIsUnique(list: seq<MatchPlayerStats>, stats: StatsTable)
    requires IsSortedListing(list, stats)
    ensures list == SortedStats(stats)
    decreases |list|
  {
    if list == [] {
      assert stats == map[];
    } else {
      FirstIsLeast(list, stats);
      RestIsListing(list, stats);
      SortedListingIsUnique(list[1..], stats - {list[0].persistentPlayerId});
      assert list == [list[0]] + list[1..];
    }
  }

  // Entering, leaving, and killing.

  ghost function Completion(match': ActiveMatch, now: int): CompletedMatch {
    CompletedMatch(match'.roomId, match'.startedAt, now, SortedStats(match'.playerStatsTable))
  }

  function MatchAt(m: MatchState, r: RoomId, now: int): ActiveMatch {
    if r in m.matches then m.matches[r] else ActiveMatch(r, now, map[], {})
  }

  predicate CanEnter(m: MatchState, r: RoomId, id: PersistentPlayerId) {
    r.value > 0 && id.value > 0 && !(r in m.matches && id in m.matches[r].activePlayerSet)
  }

  function WithStats(stats: StatsTable, id: PersistentPlayerId): StatsTable {
    if id in stats then stats else stats[id := MatchPlayerStats(id, 0, 0)]
  }

  function Entered(m: MatchState, r: RoomId, id: PersistentPlayerId, now: int): MatchState {
    if !CanEnter(m, r, id) then m
    else
      var a := MatchAt(m, r, now);
      m.(matches := m.matches[r := a.(activePlayerSet := a.activePlayerSet + {id}, playerStatsTable := WithStats(a.playerStatsTable, id))])
  }

  predicate CanLeave(m: MatchState, r: RoomId, id: PersistentPlayerId) {
    r.value > 0 && id.value > 0 && r in m.matches && id in m.matches[r].activePlayerSet
  }

  /** The active matches without one player of a room: the match of the room goes with its last player. */
  function MatchesLeft(matches: ActiveMatchTable, r: RoomId, id: PersistentPlayerId): ActiveMatchTable
    requires r in matches
  {
    var remaining := matches[r].activePlayerSet - {id};
    if remaining == {} then matches - {r} else matches[r := matches[r].(activePlayerSet := remaining)]
  }

  ghost function Left(m: MatchState, r: RoomId, id: PersistentPlayerId, now: int): MatchState {
    if !CanLeave(m, r, id) then m
    else
      var matches := MatchesLeft(m.matches, r, id);
      MatchState(matches, if r in matches then m.completed else m.completed + [Completion(m.matches[r], now)])
  }

  predicate CanRecord(m: MatchState, k: KillEvent) {
    && k.roomId.value > 0 && k.killerPersistentPlayerId.value > 0 && k.victimPersistentPlayerId.value > 0
    && k.roomId in m.matches
    && k.killerPersistentPlayerId in m.matches[k.roomId].playerStatsTable
    && k.victimPersistentPlayerId in m.matches[k.roomId].playerStatsTable
  }

  function WithKill(stats: StatsTable, id: PersistentPlayerId): StatsTable
    requires id in stats
  {
    stats[id := stats[id].(killCount := stats[id].killCount + 1)]
  }

  function WithDeath(stats: StatsTable, id: PersistentPlayerId): StatsTable
    requires id in stats
  {
    stats[id := stats[id].(deathCount := stats[id].deathCount + 1)]
  }

  function Recorded(m: MatchState, k: KillEvent): MatchState {
    if !CanRecord(m, k) then m
    else
      var a := m.matches[k.roomId];
      m.(matches := m.matches[k.roomId := a.(playerStatsTable :=
        WithDeath(WithKill(a.playerStatsTable, k.killerPersistentPlayerId), k.victimPersistentPlayerId))])
  }

  function RecordedAll(m: MatchState, kills: seq<KillEvent>): (MatchState, nat) {
    if kills == [] then (m, 0)
    else
      var (before, count) := RecordedAll(m, kills[..|kills| - 1]);
      var k := kills[|kills| - 1];
      (Recorded(before, k), if CanRecord(before, k) then count + 1 else count)
  }

  ghost function CompletionsOf(matches: ActiveMatchTable, order: seq<RoomId>, now: int): seq<CompletedMatch>
    requires forall r :: r in order ==> r in matches
  {
    if order == [] then []
    else CompletionsOf(matches, order[..|order| - 1], now) + [Completion(matches[order[|order| - 1]], now)]
  }

  /** Every active match is completed, in the order in which the table lists them. */
  ghost function AllCompleted(m: MatchState, order: seq<RoomId>, now: int): MatchState
    requires forall r :: r in order ==> r in m.matches
  {
    MatchState(map[], m.completed + CompletionsOf(m.matches, order, now))
  }

  // Kills equal deaths.

  /** A match is filed under its room and stats under their positive ids, active players have stats, and kills equal deaths. */
  ghost predicate IsKeptMatch(a: ActiveMatch, r: RoomId) {
    && a.roomId == r && r.value > 0
    && a.activePlayerSet <= a.playerStatsTable.Keys
    && (forall id :: id in a.playerStatsTable ==> a.playerStatsTable[id].persistentPlayerId == id && id.value > 0)
    && IsBalanced(a.playerStatsTable)
  }

  ghost predicate IsEven(c: CompletedMatch) {
    KillTotal(c.playerStatsList) == DeathTotal(c.playerStatsList)
  }

  /** In every match, active or completed, kills equal deaths. */
  ghost predicate IsKept(m: MatchState) {
    && (forall r :: r in m.matches ==> IsKeptMatch(m.matches[r], r))
    && forall c :: c in m.completed ==> IsEven(c)
  }

  lemma NewStatsKeepMatch(a: ActiveMatch, r: RoomId, id: PersistentPlayerId)
    requires IsKeptMatch(a, r) && id.value > 0
    ensures IsKeptMatch(a.(activePlayerSet := a.activePlayerSet + {id}, playerStatsTable := WithStats(a.playerStatsTable, id)), r)
  {
    hide SortedStats;
    if id !in a.playerStatsTable {
      InsertAddsToTotals(a.playerStatsTable, id, MatchPlayerStats(id, 0, 0));
    }
  }

  lemma NewMatchIsKept(r: RoomId, now: int)
    requires r.value > 0
    ensures IsKeptMatch(ActiveMatch(r, now, map[], {}), r)
  {
    assert SortedStats(map[]) == [];
  }

  lemma EnterKeeps(m: MatchState, r: RoomId, id: PersistentPlayerId, now: int)
    requires IsKept(m)
    ensures IsKept(Entered(m, r, id, now))
  {
    hide IsKeptMatch, WithStats;
    if CanEnter(m, r, id) {
      NewMatchIsKept(r, now);
      NewStatsKeepMatch(MatchAt(m, r, now), r, id);
    }
  }

  lemma LeaveKeeps(m: MatchState, r: RoomId, id: PersistentPlayerId, now: int)
    requires IsKept(m)
    ensures IsKept(Left(m, r, id, now))
  {
    hide SortedStats, KillTotal, DeathTotal;
    if CanLeave(m, r, id) {
      assert IsKeptMatch(m.matches[r], r);
    }
  }

  lemma KillShiftsTotals(stats: StatsTable, id: PersistentPlayerId)
    requires id in stats
    ensures KillTotal(SortedStats(WithKill(stats, id))) == KillTotal(SortedStats(stats)) + 1
    ensures DeathTotal(SortedStats(WithKill(stats, id))) == DeathTotal(SortedStats(stats))
  {
    hide SortedStats;
    UpdateShiftsTotals(stats, id, WithKill(stats, id));
  }

  lemma DeathShiftsTotals(stats: StatsTable, id: PersistentPlayerId)
    requires id in stats
    ensures KillTotal(SortedStats(WithDeath(stats, id))) == KillTotal(SortedStats(stats))
    ensures DeathTotal(SortedStats(WithDeath(stats, id))) == DeathTotal(SortedStats(stats)) + 1
  {
    hide SortedStats;
    UpdateShiftsTotals(stats, id, WithDeath(stats, id));
  }

  lemma KillKeepsMatch(a: ActiveMatch, r: RoomId, killer: PersistentPlayerId, victim: PersistentPlayerId)
    requires IsKeptMatch(a, r) && killer in a.playerStatsTable && victim in a.playerStatsTable
    ensures IsKeptMatch(a.(playerStatsTable := WithDeath(WithKill(a.playerStatsTable, killer), victim)), r)
  {
    hide SortedStats;
    KillShiftsTotals(a.playerStatsTable, killer);
    DeathShiftsTotals(WithKill(a.playerStatsTable, killer), victim);
  }

  lemma RecordKeeps(m: MatchState, k: KillEvent)
    requires IsKept(m)
    ensures IsKept(Recorded(m, k))
  {
    hide IsKeptMatch, WithKill, WithDeath;
    if CanRecord(m, k) {
      KillKeepsMatch(m.matches[k.roomId], k.roomId, k.killerPersistentPlayerId, k.victimPersistentPlayerId);
    }
  }

  /** Recording changes counts only: the same matches since the same times, active players and stats entries. */
  ghost predicate SamePlayers(m: MatchState, m': MatchState) {
    && m'.matches.Keys == m.matches.Keys && m'.completed == m.completed
    && forall r :: r in m.matches ==>
         && m'.matches[r].roomId == m.matches[r].roomId && m'.matches[r].startedAt == m.matches[r].startedAt
         && m'.matches[r].activePlayerSet == m.matches[r].activePlayerSet
         && m'.matches[r].playerStatsTable.Keys == m.matches[r].playerStatsTable.Keys
  }

  lemma RecordKeepsPlayers(m: MatchState, k: KillEvent)
    ensures SamePlayers(m, Recorded(m, k))
  {
  }

  lemma {:induction false} RecordingKeeps(m: MatchState, kills: seq<KillEvent>)
    requires IsKept(m)
    ensures IsKept(RecordedAll(m, kills).0) && SamePlayers(m, RecordedAll(m, kills).0)
  {
    hide IsKept, Recorded;
    if kills != [] {
      RecordingKeeps(m, kills[..|kills| - 1]);
      RecordKeeps(RecordedAll(m, kills[..|kills| - 1]).0, kills[|kills| - 1]);
      RecordKeepsPlayers(RecordedAll(m, kills[..|kills| - 1]).0, kills[|kills| - 1]);
    }
  }

  /** When every kill can be recorded to begin with, every one of them is. */
  lemma {:induction false} AllAreRecorded(m: MatchState, kills: seq<KillEvent>)
    requires IsKept(m) && forall k :: k in kills ==> CanRecord(m, k)
    ensures RecordedAll(m, kills).1 == |kills|
  {
    hide IsKept, Recorded;
    if kills != [] {
      var earlier, last := kills[..|kills| - 1], kills[|kills| - 1];
      AllAreRecorded(m, earlier);
      RecordingKeeps(m, earlier);
      assert CanRecord(m, last);
    }
  }

  // Who is credited with what.

  /** How many of the kills that can be recorded are this player's in this room. */
  function RecordedKillsOf(m: MatchState, kills: seq<KillEvent>, r: RoomId, id: PersistentPlayerId): nat {
    if kills == [] then 0
    else
      var k := kills[|kills| - 1];
      RecordedKillsOf(m, kills[..|kills| - 1], r, id) + if CanRecord(m, k) && k.roomId == r && k.killerPersistentPlayerId == id then 1 else 0
  }

  /** How many of them this player fell victim to. */
  function RecordedDeathsOf(m: MatchState, kills: seq<KillEvent>, r: RoomId, id: PersistentPlayerId): nat {
    if kills == [] then 0
    else
      var k := kills[|kills| - 1];
      RecordedDeathsOf(m, kills[..|kills| - 1], r, id) + if CanRecord(m, k) && k.roomId == r && k.victimPersistentPlayerId == id then 1 else 0
  }

  /** A recorded kill is one kill more for its killer and one death more for its victim in its room's match; a refused one is neither. */
  lemma RecordedCounts(m: MatchState, k: KillEvent, r: RoomId, id: PersistentPlayerId)
    requires r in m.matches && id in m.matches[r].playerStatsTable
    ensures SamePlayers(m, Recorded(m, k))
    ensures var before, after := m.matches[r].playerStatsTable[id], Recorded(m, k).matches[r].playerStatsTable[id];
            && after.persistentPlayerId == before.persistentPlayerId
            && after.killCount == before.killCount + (if CanRecord(m, k) && k.roomId == r && k.killerPersistentPlayerId == id then 1 else 0)
            && after.deathCount == before.deathCount + (if CanRecord(m, k) && k.roomId == r && k.victimPersistentPlayerId == id then 1 else 0)
  {
  }

  lemma SamePlayersRecordAlike(m: MatchState, m': MatchState, k: KillEvent)
    requires SamePlayers(m, m')
    ensures CanRecord(m', k) <==> CanRecord(m, k)
  {
  }

  /** Over any list of kills every player's two counts rise by exactly the recordable kills that name it as killer and as victim. */
  lemma {:induction false} RecordingCounts(m: MatchState, kills: seq<KillEvent>, r: RoomId, id: PersistentPlayerId)
    requires r in m.matches && id in m.matches[r].playerStatsTable
    ensures SamePlayers(m, RecordedAll(m, kills).0)
    ensures var before, after := m.matches[r].playerStatsTable[id], RecordedAll(m, kills).0.matches[r].playerStatsTable[id];
            && after.persistentPlayerId == before.persistentPlayerId
            && after.killCount == before.killCount + RecordedKillsOf(m, kills, r, id)
            && after.deathCount == before.deathCount + RecordedDeathsOf(m, kills, r, id)
  {
    hide CanRecord, Recorded;
    if kills != [] {
      var before, k := RecordedAll(m, kills[..|kills| - 1]).0, kills[|kills| - 1];
      RecordingCounts(m, kills[..|kills| - 1], r, id);
      RecordedCounts(before, k, r, id);
      SamePlayersRecordAlike(m, before, k);
    }
  }

  // What a match leaves behind.

  /** The match of a room starts when its first player enters; later players leave its start and its counts alone. */
  lemma EnteringStartsMatch(m: MatchState, r: RoomId, id: PersistentPlayerId, now: int)
    requires CanEnter(m, r, id)
    ensures var m' := Entered(m, r, id, now);
            && m'.completed == m.completed && m'.matches.Keys == m.matches.Keys + {r}
            && (forall q :: q in m.matches && q != r ==> m'.matches[q] == m.matches[q])
            && m'.matches[r].roomId == (if r in m.matches then m.matches[r].roomId else r)
            && m'.matches[r].startedAt == (if r in m.matches then m.matches[r].startedAt else now)
            && (var stats := if r in m.matches then m.matches[r].playerStatsTable else map[];
                && (forall k :: k in stats ==> k in m'.matches[r].playerStatsTable && m'.matches[r].playerStatsTable[k] == stats[k])
                && (id !in stats ==> m'.matches[r].playerStatsTable == stats[id := MatchPlayerStats(id, 0, 0)]))
  {
  }

  /** A player enters and leaves in turn: one that entered may leave and not enter again, and one that left may not leave again. */
  lemma EnteringAndLeavingAlternate(m: MatchState, r: RoomId, id: PersistentPlayerId, now: int)
    ensures CanEnter(m, r, id) ==> CanLeave(Entered(m, r, id, now), r, id)
    ensures CanLeave(m, r, id) ==> !CanEnter(m, r, id) && CanEnter(Left(m, r, id, now), r, id)
    ensures r.value > 0 && id.value > 0 ==> CanEnter(m, r, id) || CanLeave(m, r, id)
  {
    hide SortedStats;
  }

  /** The last player to leave completes the match: its room, its start, its end and all of its stats, once; any other leaves
      completed matches alone. */
  lemma LeavingCompletesMatch(m: MatchState, r: RoomId, id: PersistentPlayerId, now: int)
    requires IsKept(m) && CanLeave(m, r, id)
    ensures var m' := Left(m, r, id, now);
            && (forall q :: q in m.matches && q != r ==> q in m'.matches && m'.matches[q] == m.matches[q])
            && if m.matches[r].activePlayerSet == {id} then
                 && m'.matches.Keys == m.matches.Keys - {r} && |m'.completed| == |m.completed| + 1 && m.completed <= m'.completed
                 && var c := m'.completed[|m.completed|];
                    c.roomId == r && c.startedAt == m.matches[r].startedAt && c.endedAt == now && IsSortedListing(c.playerStatsList, m.matches[r].playerStatsTable)
               else m'.completed == m.completed && m'.matches.Keys == m.matches.Keys
  {
    hide IsSortedListing;
    assert IsKeptMatch(m.matches[r], r);
    var remaining := m.matches[r].activePlayerSet - {id};
    if remaining == {} {
      assert m.matches[r].activePlayerSet == {id};
    }
    SortedStatsList(m.matches[r].playerStatsTable);
  }

  /** The list that completion makes does list the table. */
  lemma {:induction false} SortedStatsList(stats: StatsTable)
    requires forall id :: id in stats ==> stats[id].persistentPlayerId == id
    ensures IsSortedListing(SortedStats(stats), stats)
    decreases |stats|
  {
    if stats != map[] {
      var least := Least(stats.Keys);
      var rest := stats - {least};
      assert rest.Keys == stats.Keys - {least};
      SortedStatsList(rest);
      FirstBeforeRest(stats, least, SortedStats(rest));
    }
  }

  lemma FirstBeforeRest(stats: StatsTable, least: PersistentPlayerId, list: seq<MatchPlayerStats>)
    requires least in stats && (forall id :: id in stats ==> stats[id].persistentPlayerId == id && least.value <= id.value)
    requires IsSortedListing(list, stats - {least})
    ensures IsSortedListing([stats[least]] + list, stats)
  {
    var longer := [stats[least]] + list;
    forall id | id in stats
      ensures stats[id] in longer
    {
      if id == least {
        assert longer[0] == stats[id];
      } else {
        assert id in stats - {least} && stats[id] in list;
      }
    }
    forall i, j | 0 <= i < j < |longer|
      ensures longer[i].persistentPlayerId.value < longer[j].persistentPlayerId.value
    {
      assert longer[j] == list[j - 1];
      if i == 0 {
        assert list[j - 1].persistentPlayerId in stats - {least};
      }
    }
  }

  /** Completing all: each active match once, in the order of the table, with its room, its start and all of its stats. */
  lemma {:induction false} CompletionsAreTheMatches(m: MatchState, order: seq<RoomId>, now: int)
    requires IsKept(m) && forall r :: r in order ==> r in m.matches
    ensures var list := CompletionsOf(m.matches, order, now);
            |list| == |order| && forall i :: 0 <= i < |order| ==>
              && list[i].roomId == order[i] && list[i].startedAt == m.matches[order[i]].startedAt && list[i].endedAt == now
              && IsSortedListing(list[i].playerStatsList, m.matches[order[i]].playerStatsTable)
  {
    hide IsSortedListing, SortedStats, IsBalanced;
    if order != [] {
      CompletionsAreTheMatches(m, order[..|order| - 1], now);
      assert IsKeptMatch(m.matches[order[|order| - 1]], order[|order| - 1]);
      SortedStatsList(m.matches[order[|order| - 1]].playerStatsTable);
    }
  }

  lemma {:induction false} CompletionKeeps(m: MatchState, order: seq<RoomId>, now: int)
    requires IsKept(m) && forall r :: r in order ==> r in m.matches
    ensures IsKept(AllCompleted(m, order, now))
  {
    hide SortedStats, KillTotal, DeathTotal;
    if order != [] {
      CompletionKeeps(m, order[..|order| - 1], now);
      assert CompletionsOf(m.matches, order, now)
          == CompletionsOf(m.matches, order[..|order| - 1], now) + [Completion(m.matches[order[|order| - 1]], now)];
    }
  }

  // The tracker over its table and its list.

  ghost predicate IsRising(list: seq<MatchPlayerStats>) {
    forall i, j :: 0 <= i < j < |list| ==> list[i].persistentPlayerId.value < list[j].persistentPlayerId.value
  }

  ghost predicate AreFiled(stats: StatsTable) {
    forall id :: id in stats ==> stats[id].persistentPlayerId == id
  }

  /** Puts stats where they belong in a list that rises by id. */
  method InsertByPlayer(list: seq<MatchPlayerStats>, s: MatchPlayerStats) returns (inserted: seq<MatchPlayerStats>)
    requires IsRising(list) && forall i :: 0 <= i < |list| ==> list[i].persistentPlayerId != s.persistentPlayerId
    ensures IsRising(inserted) && forall x :: x in inserted <==> x == s || x in list
  {
    var k := 0;
    while k < |list| && list[k].persistentPlayerId.value < s.persistentPlayerId.value
      invariant 0 <= k <= |list|
      invariant forall i :: 0 <= i < k ==> list[i].persistentPlayerId.value < s.persistentPlayerId.value
    {
      k := k + 1;
    }
    if k < |list| {
      assert list[k].persistentPlayerId.value != s.persistentPlayerId.value;
    }
    inserted := list[..k] + [s] + list[k..];
    assert list == list[..k] + list[k..];
  }

  /** A match is completed with its stats sorted by player. */
  method BuildCompletedMatch(activeMatch: ActiveMatch, endedAt: int) returns (completed: CompletedMatch)
    requires AreFiled(activeMatch.playerStatsTable)
    ensures completed == Completion(activeMatch, endedAt)
  {
    hide SortedStats;
    var stats := activeMatch.playerStatsTable;
    var list: seq<MatchPlayerStats> := [];
    var unvisited := stats.Keys;
    while unvisited != {}
      invariant unvisited <= stats.Keys && IsRising(list)
      invariant forall x :: x in list <==> x.persistentPlayerId in stats && x.persistentPlayerId !in unvisited && stats[x.persistentPlayerId] == x
      decreases unvisited
    {
      var id :| id in unvisited;
      forall i | 0 <= i < |list|
        ensures list[i].persistentPlayerId != id
      {
        assert list[i] in list;
      }
      list := InsertByPlayer(list, stats[id]);
      unvisited := unvisited - {id};
    }
    forall i | 0 <= i < |list|
      ensures list[i].persistentPlayerId in stats && stats[list[i].persistentPlayerId] == list[i]
    {
      assert list[i] in list;
    }
    SortedListingIsUnique(list, stats);
    return CompletedMatch(activeMatch.roomId, activeMatch.startedAt, endedAt, list);
  }

  class MatchHistoryTracker {
    var activeMatchTable: ActiveMatchTable
    var completedMatchList: seq<CompletedMatch>

    function View(): MatchState
      reads this
    {
      MatchState(activeMatchTable, completedMatchList)
    }

    ghost predicate Valid()
      reads this
    {
      forall r :: r in activeMatchTable ==> AreFiled(activeMatchTable[r].playerStatsTable)
    }

    constructor ()
      ensures Valid() && View() == NO_MATCHES
    {
      activeMatchTable, completedMatchList := map[], [];
    }

    method EnterPlayer(roomId: RoomId, persistentPlayerId: PersistentPlayerId, currentTime: int) returns (entered: bool)
      requires Valid()
      modifies this`activeMatchTable
      ensures Valid() && entered == CanEnter(old(View()), roomId, persistentPlayerId)
      ensures View() == Entered(old(View()), roomId, persistentPlayerId, currentTime)
    {
      if roomId.value <= 0 || persistentPlayerId.value <= 0 {
        return false;
      }
      var activeMatch := if roomId in activeMatchTable then activeMatchTable[roomId] else ActiveMatch(roomId, currentTime, map[], {});
      if persistentPlayerId in activeMatch.activePlayerSet {
        return false;
      }
      var stats := activeMatch.playerStatsTable;
      if persistentPlayerId !in stats {
        stats := stats[persistentPlayerId := MatchPlayerStats(persistentPlayerId, 0, 0)];
      }
      activeMatchTable := activeMatchTable[roomId := activeMatch.(
        activePlayerSet := activeMatch.activePlayerSet + {persistentPlayerId}, playerStatsTable := stats)];
      return true;
    }

    method LeavePlayer(roomId: RoomId, persistentPlayerId: PersistentPlayerId, currentTime: int) returns (left: bool)
      requires Valid()
      modifies this
      ensures Valid() && left == CanLeave(old(View()), roomId, persistentPlayerId)
      ensures View() == Left(old(View()), roomId, persistentPlayerId, currentTime)
    {
      hide SortedStats;
      if roomId.value <= 0 || persistentPlayerId.value <= 0 || roomId !in activeMatchTable {
        return false;
      }
      var activeMatch := activeMatchTable[roomId];
      if persistentPlayerId !in activeMatch.activePlayerSet {
        return false;
      }
      activeMatch := activeMatch.(activePlayerSet := activeMatch.activePlayerSet - {persistentPlayerId});
      if activeMatch.activePlayerSet != {} {
        activeMatchTable := activeMatchTable[roomId := activeMatch];
        return true;
      }
      var completedMatch := BuildCompletedMatch(activeMatch, currentTime);
      completedMatchList := completedMatchList + [completedMatch];
      activeMatchTable := activeMatchTable - {roomId};
      return true;
    }

    method RecordKill(killEvent: KillEvent) returns (recorded: bool)
      requires Valid()
      modifies this`activeMatchTable
      ensures Valid() && recorded == CanRecord(old(View()), killEvent) && View() == Recorded(old(View()), killEvent)
    {
      if killEvent.roomId.value <= 0 || killEvent.killerPersistentPlayerId.value <= 0 || killEvent.victimPersistentPlayerId.value <= 0 {
        return false;
      }
      if killEvent.roomId !in activeMatchTable {
        return false;
      }
      var activeMatch := activeMatchTable[killEvent.roomId];
      var stats := activeMatch.playerStatsTable;
      if killEvent.killerPersistentPlayerId !in stats || killEvent.victimPersistentPlayerId !in stats {
        return false;
      }
      var killer := stats[killEvent.killerPersistentPlayerId];
      stats := stats[killEvent.killerPersistentPlayerId := killer.(killCount := killer.killCount + 1)];
      var victim := stats[killEvent.victimPersistentPlayerId];
      stats := stats[killEvent.victimPersistentPlayerId := victim.(deathCount := victim.deathCount + 1)];
      activeMatchTable := activeMatchTable[killEvent.roomId := activeMatch.(playerStatsTable := stats)];
      return true;
    }

    method RecordKills(killEventList: seq<KillEvent>) returns (recordedCount: nat)
      requires Valid()
      modifies this`activeMatchTable
      ensures Valid() && (View(), recordedCount) == RecordedAll(old(View()), killEventList)
    {
      recordedCount := 0;
      for i := 0 to |killEventList|
        invariant Valid() && (View(), recordedCount) == RecordedAll(old(View()), killEventList[..i])
      {
        hide Recorded, CanRecord;
        assert killEventList[..i + 1][..i] == killEventList[..i];
        var recorded := RecordKill(killEventList[i]);
        if recorded {
          recordedCount := recordedCount + 1;
        }
      }
      assert killEventList[..|killEventList|] == killEventList;
    }

    /** Completes every active match, in the order of the table, reported as `order`. */
    method CompleteAll(currentTime: int) returns (ghost order: seq<RoomId>)
      requires Valid()
      modifies this
      ensures Valid() && (forall r :: r in order <==> r in old(activeMatchTable))
      ensures forall i, j :: 0 <= i < j < |order| ==> order[i] != order[j]
      ensures View() == AllCompleted(old(View()), order, currentTime)
    {
      hide SortedStats;
      order := [];
      var unvisited := activeMatchTable.Keys;
      while unvisited != {}
        invariant Valid() && activeMatchTable == old(activeMatchTable) && unvisited <= activeMatchTable.Keys
        invariant forall r :: r in order <==> r in activeMatchTable && r !in unvisited
        invariant forall i, j :: 0 <= i < j < |order| ==> order[i] != order[j]
        invariant completedMatchList == old(completedMatchList) + CompletionsOf(activeMatchTable, order, currentTime)
        decreases unvisited
      {
        var roomId :| roomId in unvisited;
        unvisited := unvisited - {roomId};
        var completedMatch := BuildCompletedMatch(activeMatchTable[roomId], currentTime);
        completedMatchList := completedMatchList + [completedMatch];
        order := order + [roomId];
        assert order[..|order| - 1] + [roomId] == order;
      }
      activeMatchTable := map[];
    }

    method ExtractCompletedMatches() returns (completed: seq<CompletedMatch>)
      modifies this`completedMatchList
      ensures completed == old(completedMatchList) && View() == old(View()).(completed := [])
    {
      completed := completedMatchList;
      completedMatchList := [];
    }

    method Clear()
      modifies this
      ensures Valid() && View() == NO_MATCHES
    {
      activeMatchTable, completedMatchList := map[], [];
    }
  }
}
