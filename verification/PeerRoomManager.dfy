// Peers by endpoint and members by room (Server/Service/PeerRoomManager.cpp).

module PeerRoomManager {
  import opened GameIds
  import opened SequenceNumber
  import opened SessionToken
  import opened Wrappers

  datatype ConnectionState = Connected | Recoverable

  datatype PeerState = PeerState(
    endpointKey: EndpointKey,
    accountId: int,
    persistentPlayerId: PersistentPlayerId,
    sessionToken: SessionToken,
    nickname: string,
    playerId: PlayerId,
    lastAcceptedInputSequence: SequenceNumber,
    lastProcessedInputSequence: SequenceNumber,
    roomId: RoomId,
    isJoined: bool,
    connectionState: ConnectionState,
    lastRecvTime: int,
    recoverableSince: int)

  type PeerTable = map<EndpointKey, PeerState>

  type RoomTable = map<RoomId, set<EndpointKey>>

  datatype PeerTables = PeerTables(peers: PeerTable, rooms: RoomTable)

  const NO_TABLES := PeerTables(map[], map[])

  /** A peer nobody has filled in yet. */
  const BLANK_PEER := PeerState(
    EndpointKey(0, 0), 0, PersistentPlayerId(0), INVALID_SESSION_TOKEN, "", PlayerId(0), 0, 0, RoomId(0), false, Connected, 0, 0)

  predicate IsJoinedPeer(t: PeerTables, e: EndpointKey) {
    e in t.peers && t.peers[e].isJoined
  }

  function MemberCount(t: PeerTables, r: RoomId): nat {
    if r in t.rooms then |t.rooms[r]| else 0
  }

  function Inserted(rooms: RoomTable, r: RoomId, e: EndpointKey): RoomTable {
    rooms[r := (if r in rooms then rooms[r] else {}) + {e}]
  }

  /** A room is dropped with its last member. */
  function Erased(rooms: RoomTable, r: RoomId, e: EndpointKey): RoomTable {
    if r !in rooms then rooms
    else if rooms[r] - {e} == {} then rooms - {r}
    else rooms[r := rooms[r] - {e}]
  }

  function Upserted(t: PeerTables, e: EndpointKey, playerId: PlayerId, r: RoomId, now: int): PeerTables {
    var peer := if e in t.peers then t.peers[e] else BLANK_PEER;
    PeerTables(
      t.peers[e := peer.(endpointKey := e, playerId := playerId, roomId := r, isJoined := true,
                         connectionState := Connected, lastRecvTime := now, recoverableSince := 0)],
      Inserted(t.rooms, r, e))
  }

  function Refreshed(t: PeerTables, e: EndpointKey, now: int): PeerTables {
    if IsJoinedPeer(t, e) then t.(peers := t.peers[e := t.peers[e].(lastRecvTime := now)]) else t
  }

  function Reconnected(p: PeerState, e: EndpointKey, now: int): PeerState {
    p.(endpointKey := e, connectionState := Connected, lastRecvTime := now, recoverableSince := 0)
  }

  predicate CanRebind(t: PeerTables, previous: EndpointKey, next: EndpointKey) {
    && IsJoinedPeer(t, previous) && t.peers[previous].connectionState == Recoverable
    && (previous == next
        || (&& next !in t.peers
            && var r := t.peers[previous].roomId;
               r in t.rooms && previous in t.rooms[r] && next !in t.rooms[r]))
  }

  /** A recoverable peer moves to the endpoint it came back from. */
  function Rebound(t: PeerTables, previous: EndpointKey, next: EndpointKey, now: int): PeerTables
    requires CanRebind(t, previous, next)
  {
    var p := t.peers[previous];
    if previous == next then t.(peers := t.peers[previous := p.(connectionState := Connected, lastRecvTime := now, recoverableSince := 0)])
    else PeerTables(
           (t.peers - {previous})[next := Reconnected(p, next, now)],
           t.rooms[p.roomId := t.rooms[p.roomId] - {previous} + {next}])
  }

  function Removed(t: PeerTables, e: EndpointKey): PeerTables {
    if e !in t.peers then t
    else if !t.peers[e].isJoined then t.(peers := t.peers - {e})
    else PeerTables(t.peers - {e}, Erased(t.rooms, t.peers[e].roomId, e))
  }

  predicate CanChangeRoom(t: PeerTables, e: EndpointKey, next: RoomId) {
    IsJoinedPeer(t, e) && t.peers[e].roomId != next
  }

  function RoomChanged(t: PeerTables, e: EndpointKey, next: RoomId, now: int): PeerTables
    requires CanChangeRoom(t, e, next)
  {
    PeerTables(
      t.peers[e := t.peers[e].(roomId := next, lastRecvTime := now)],
      Inserted(Erased(t.rooms, t.peers[e].roomId, e), next, e))
  }

  predicate IsTimedOut(p: PeerState, now: int, timeout: int) {
    p.isJoined && p.connectionState == Connected && now - p.lastRecvTime > timeout
  }

  function TimedOut(t: PeerTables, now: int, timeout: int): set<EndpointKey> {
    set e | e in t.peers && IsTimedOut(t.peers[e], now, timeout)
  }

  function MarkedRecoverable(t: PeerTables, now: int, timeout: int): PeerTables {
    t.(peers := map e | e in t.peers ::
         if IsTimedOut(t.peers[e], now, timeout) then t.peers[e].(connectionState := Recoverable, recoverableSince := now)
         else t.peers[e])
  }

  predicate IsExpired(p: PeerState, now: int, gracePeriod: int) {
    p.isJoined && p.connectionState == Recoverable && now - p.recoverableSince > gracePeriod
  }

  function Expired(t: PeerTables, now: int, gracePeriod: int): set<EndpointKey> {
    set e | e in t.peers && IsExpired(t.peers[e], now, gracePeriod)
  }

  /** The tables once these peers have been removed, one after the other. */
  function WithoutPeers(t: PeerTables, gone: seq<EndpointKey>): PeerTables {
    if gone == [] then t else Removed(WithoutPeers(t, gone[..|gone| - 1]), gone[|gone| - 1])
  }

  function CommittedPeer(p: PeerState): PeerState {
    if p.isJoined then p.(lastProcessedInputSequence := p.lastAcceptedInputSequence) else p
  }

  /** Every joined peer's accepted input counts as processed. */
  function Committed(t: PeerTables): PeerTables {
    t.(peers := map e | e in t.peers :: CommittedPeer(t.peers[e]))
  }

  /** `order` lists each element of `s` once. */
  ghost predicate IsListing<T(!new)>(order: seq<T>, s: set<T>) {
    && (forall x :: x in order <==> x in s)
    && forall i, j :: 0 <= i < j < |order| ==> order[i] != order[j]
  }

  // Searches, whose answers among several are left to the hash table.

  /** `found` is a joined peer with this player, or none if there is none. */
  ghost predicate IsPeerOf(t: PeerTables, playerId: PlayerId, found: Option<EndpointKey>) {
    match found
    case Some(e) => IsJoinedPeer(t, e) && t.peers[e].playerId == playerId
    case None => forall e :: IsJoinedPeer(t, e) ==> t.peers[e].playerId != playerId
  }

  /** `found` is a recoverable peer with this token, or none if there is none; which one is left to the hash table. */
  ghost predicate IsRecoverableWith(t: PeerTables, token: SessionToken, found: Option<EndpointKey>) {
    match found
    case Some(e) =>
      IsValidSessionToken(token) && IsJoinedPeer(t, e) && t.peers[e].connectionState == Recoverable && t.peers[e].sessionToken == token
    case None =>
      IsValidSessionToken(token) ==>
        forall e :: IsJoinedPeer(t, e) ==> !(t.peers[e].connectionState == Recoverable && t.peers[e].sessionToken == token)
  }

  ghost predicate HasJoinedAccount(t: PeerTables, accountId: int) {
    accountId > 0 && exists e :: IsJoinedPeer(t, e) && t.peers[e].accountId == accountId
  }

  // The two tables agree.

  /** Every peer is joined, sits under its own endpoint and among the members of exactly its room; and no room is empty. */
  ghost predicate TablesAgree(t: PeerTables) {
    && (forall e :: e in t.peers ==>
          && t.peers[e].endpointKey == e && t.peers[e].isJoined
          && t.peers[e].roomId in t.rooms && e in t.rooms[t.peers[e].roomId])
    && (forall r :: r in t.rooms ==> t.rooms[r] != {})
    && forall r, e :: r in t.rooms && e in t.rooms[r] ==> e in t.peers && t.peers[e].roomId == r
  }

  lemma UpsertKeepsAgreement(t: PeerTables, e: EndpointKey, playerId: PlayerId, r: RoomId, now: int)
    requires TablesAgree(t) && e !in t.peers
    ensures TablesAgree(Upserted(t, e, playerId, r, now))
  {
    assert e in Inserted(t.rooms, r, e)[r];
  }

  lemma RefreshKeepsAgreement(t: PeerTables, e: EndpointKey, p: PeerState)
    requires TablesAgree(t) && e in t.peers
    requires p.endpointKey == e && p.isJoined && p.roomId == t.peers[e].roomId
    ensures TablesAgree(t.(peers := t.peers[e := p]))
  {
  }

  lemma RebindKeepsAgreement(t: PeerTables, previous: EndpointKey, next: EndpointKey, now: int)
    requires TablesAgree(t) && CanRebind(t, previous, next)
    ensures TablesAgree(Rebound(t, previous, next, now))
  {
    if previous != next {
      assert next in Rebound(t, previous, next, now).rooms[t.peers[previous].roomId];
    }
  }

  lemma RemoveKeepsAgreement(t: PeerTables, e: EndpointKey)
    requires TablesAgree(t)
    ensures TablesAgree(Removed(t, e)) && Removed(t, e).peers == t.peers - {e}
  {
    if e in t.peers {
      var t', r := Removed(t, e), t.peers[e].roomId;
      forall k | k in t'.peers
        ensures t'.peers[k].roomId in t'.rooms && k in t'.rooms[t'.peers[k].roomId]
      {
        assert k in t.rooms[t.peers[k].roomId];
        if t.peers[k].roomId == r {
          assert k in t.rooms[r] - {e};
        }
      }
    } else {
      assert t.peers - {e} == t.peers;
    }
  }

  lemma RoomChangeKeepsAgreement(t: PeerTables, e: EndpointKey, next: RoomId, now: int)
    requires TablesAgree(t) && CanChangeRoom(t, e, next)
    ensures TablesAgree(RoomChanged(t, e, next, now))
  {
    RemoveKeepsAgreement(t, e);
    var left := Removed(t, e);
    assert RoomChanged(t, e, next, now).rooms == Inserted(left.rooms, next, e);
    assert e in Inserted(left.rooms, next, e)[next];
    assert forall k :: k in t.peers && k != e ==> k in left.peers;
  }

  lemma MarkingKeepsAgreement(t: PeerTables, now: int, timeout: int)
    requires TablesAgree(t)
    ensures TablesAgree(MarkedRecoverable(t, now, timeout))
  {
  }

  lemma {:induction false} RemovalsKeepAgreement(t: PeerTables, gone: seq<EndpointKey>)
    requires TablesAgree(t)
    ensures TablesAgree(WithoutPeers(t, gone))
    ensures WithoutPeers(t, gone).peers == t.peers - (set e | e in gone)
  {
    if gone == [] {
      assert (set e | e in gone) == {};
    } else {
      var earlier, last := gone[..|gone| - 1], gone[|gone| - 1];
      RemovalsKeepAgreement(t, earlier);
      RemoveKeepsAgreement(WithoutPeers(t, earlier), last);
      assert (set e | e in gone) == (set e | e in earlier) + {last};
    }
  }

  /** Marking makes recoverable, as of now, exactly the connected peers silent for more than the timeout, and touches no other. */
  lemma MarkingIsExact(t: PeerTables, now: int, timeout: int, e: EndpointKey)
    requires e in t.peers
    ensures var t', p := MarkedRecoverable(t, now, timeout), t.peers[e];
            && t'.rooms == t.rooms && t'.peers.Keys == t.peers.Keys
            && t'.peers[e] == if p.isJoined && p.connectionState == Connected && p.lastRecvTime + timeout < now
                              then p.(connectionState := Recoverable, recoverableSince := now) else p
  {
  }

  /** Once the expired are gone, exactly those peers are missing that have been recoverable for longer than the grace period. */
  lemma ExpiryIsExact(t: PeerTables, gone: seq<EndpointKey>, now: int, gracePeriod: int, e: EndpointKey)
    requires TablesAgree(t) && IsListing(gone, Expired(t, now, gracePeriod)) && e in t.peers
    ensures var t', p := WithoutPeers(t, gone), t.peers[e];
            && (e !in t'.peers <==> p.connectionState == Recoverable && p.recoverableSince + gracePeriod < now)
            && (e in t'.peers ==> t'.peers[e] == p)
  {
    RemovalsKeepAgreement(t, gone);
  }

  /** The number of members of a room is zero exactly when no peer is in it. */
  lemma RoomIsEmptyIff(t: PeerTables, r: RoomId)
    requires TablesAgree(t)
    ensures MemberCount(t, r) == 0 <==> r !in t.rooms
    ensures MemberCount(t, r) == 0 <==> forall e :: e in t.peers ==> t.peers[e].roomId != r
  {
    if r in t.rooms {
      var e :| e in t.rooms[r];
      assert t.peers[e].roomId == r;
    }
  }

  lemma RemoveNone(t: PeerTables)
    ensures WithoutPeers(t, []) == t
  {
  }

  lemma RemoveNext(t: PeerTables, gone: seq<EndpointKey>, e: EndpointKey)
    ensures WithoutPeers(t, gone + [e]) == Removed(WithoutPeers(t, gone), e)
  {
    assert (gone + [e])[..|gone|] == gone;
  }

  lemma ListedExpired(t: PeerTables, order: seq<EndpointKey>, now: int, gracePeriod: int)
    requires forall e :: e in order <==> e in t.peers && IsExpired(t.peers[e], now, gracePeriod)
    requires forall i, j :: 0 <= i < j < |order| ==> order[i] != order[j]
    ensures IsListing(order, Expired(t, now, gracePeriod))
  {
  }

  /** The manager over its two tables. */
  class PeerRoomManager {
    var peerTable: PeerTable
    var roomTable: RoomTable

    function View(): PeerTables
      reads this
    {
      PeerTables(peerTable, roomTable)
    }

    constructor ()
      ensures View() == NO_TABLES
    {
      peerTable, roomTable := map[], map[];
    }

    method Clear()
      modifies this
      ensures View() == NO_TABLES
    {
      peerTable, roomTable := map[], map[];
    }

    method FindJoinedPeer(endpointKey: EndpointKey) returns (peerState: Option<PeerState>)
      ensures peerState == if IsJoinedPeer(View(), endpointKey) then Some(peerTable[endpointKey]) else None
    {
      if endpointKey !in peerTable || !peerTable[endpointKey].isJoined {
        return None;
      }
      return Some(peerTable[endpointKey]);
    }

    method FindJoinedPeerByPlayerId(playerId: PlayerId) returns (found: Option<EndpointKey>)
      ensures IsPeerOf(View(), playerId, found)
    {
      var unvisited := peerTable.Keys;
      while unvisited != {}
        invariant unvisited <= peerTable.Keys
        invariant forall e :: e in peerTable && e !in unvisited ==> !(peerTable[e].isJoined && peerTable[e].playerId == playerId)
        decreases unvisited
      {
        var endpointKey :| endpointKey in unvisited;
        if peerTable[endpointKey].isJoined && peerTable[endpointKey].playerId == playerId {
          return Some(endpointKey);
        }
        unvisited := unvisited - {endpointKey};
      }
      return None;
    }

    method FindJoinedPeerByAccountId(accountId: int) returns (found: Option<EndpointKey>)
      ensures found.Some? <==> HasJoinedAccount(View(), accountId)
      ensures found.Some? ==> IsJoinedPeer(View(), found.value) && peerTable[found.value].accountId == accountId
    {
      if accountId <= 0 {
        return None;
      }
      var unvisited := peerTable.Keys;
      while unvisited != {}
        invariant unvisited <= peerTable.Keys
        invariant forall e :: e in peerTable && e !in unvisited ==> !(peerTable[e].isJoined && peerTable[e].accountId == accountId)
        decreases unvisited
      {
        var endpointKey :| endpointKey in unvisited;
        if peerTable[endpointKey].isJoined && peerTable[endpointKey].accountId == accountId {
          assert IsJoinedPeer(View(), endpointKey);
          return Some(endpointKey);
        }
        unvisited := unvisited - {endpointKey};
      }
      return None;
    }

    method FindRecoverablePeerBySessionToken(sessionToken: SessionToken) returns (found: Option<EndpointKey>)
      ensures IsRecoverableWith(View(), sessionToken, found)
    {
      if !IsValidSessionToken(sessionToken) {
        return None;
      }
      var unvisited := peerTable.Keys;
      while unvisited != {}
        invariant unvisited <= peerTable.Keys
        invariant forall e :: e in peerTable && e !in unvisited ==>
                    !(peerTable[e].isJoined && peerTable[e].connectionState == Recoverable && peerTable[e].sessionToken == sessionToken)
        decreases unvisited
      {
        var endpointKey :| endpointKey in unvisited;
        var peerState := peerTable[endpointKey];
        if peerState.isJoined && peerState.connectionState == Recoverable && peerState.sessionToken == sessionToken {
          return Some(endpointKey);
        }
        unvisited := unvisited - {endpointKey};
      }
      return None;
    }

    function GetRoomMemberCount(roomId: RoomId): nat
      reads this
    {
      MemberCount(View(), roomId)
    }

    method UpsertJoinedPeer(endpointKey: EndpointKey, playerId: PlayerId, roomId: RoomId, currentTime: int)
      modifies this
      ensures View() == Upserted(old(View()), endpointKey, playerId, roomId, currentTime)
    {
      var peerState := if endpointKey in peerTable then peerTable[endpointKey] else BLANK_PEER;
      peerTable := peerTable[endpointKey := peerState.(
        endpointKey := endpointKey, playerId := playerId, roomId := roomId, isJoined := true,
        connectionState := Connected, lastRecvTime := currentTime, recoverableSince := 0)];
      roomTable := roomTable[roomId := (if roomId in roomTable then roomTable[roomId] else {}) + {endpointKey}];
    }

    method RefreshRecvTime(endpointKey: EndpointKey, currentTime: int) returns (refreshed: bool)
      modifies this`peerTable
      ensures refreshed == IsJoinedPeer(old(View()), endpointKey) && View() == Refreshed(old(View()), endpointKey, currentTime)
    {
      if endpointKey !in peerTable || !peerTable[endpointKey].isJoined {
        return false;
      }
      peerTable := peerTable[endpointKey := peerTable[endpointKey].(lastRecvTime := currentTime)];
      return true;
    }

    method RebindRecoverablePeer(
        previousEndpointKey: EndpointKey, nextEndpointKey: EndpointKey, currentTime: int) returns (rebound: bool)
      modifies this
      ensures rebound == CanRebind(old(View()), previousEndpointKey, nextEndpointKey)
      ensures View() == if rebound then Rebound(old(View()), previousEndpointKey, nextEndpointKey, currentTime) else old(View())
    {
      if previousEndpointKey !in peerTable || !peerTable[previousEndpointKey].isJoined {
        return false;
      }
      var peerState := peerTable[previousEndpointKey];
      if peerState.connectionState != Recoverable {
        return false;
      }
      if previousEndpointKey == nextEndpointKey {
        peerTable := peerTable[previousEndpointKey := peerState.(connectionState := Connected, lastRecvTime := currentTime, recoverableSince := 0)];
        return true;
      }
      if nextEndpointKey in peerTable || peerState.roomId !in roomTable {
        return false;
      }
      var roomMemberSet := roomTable[peerState.roomId];
      if previousEndpointKey !in roomMemberSet || nextEndpointKey in roomMemberSet {
        return false;
      }
      peerTable := peerTable - {previousEndpointKey};
      roomMemberSet := roomMemberSet - {previousEndpointKey};
      peerState := peerState.(endpointKey := nextEndpointKey, connectionState := Connected, lastRecvTime := currentTime, recoverableSince := 0);
      peerTable := peerTable[nextEndpointKey := peerState];
      roomTable := roomTable[peerState.roomId := roomMemberSet + {nextEndpointKey}];
      return true;
    }

    method EraseMember(roomId: RoomId, endpointKey: EndpointKey)
      modifies this`roomTable
      ensures roomTable == Erased(old(roomTable), roomId, endpointKey)
    {
      if roomId in roomTable {
        var roomMemberSet := roomTable[roomId] - {endpointKey};
        if roomMemberSet == {} {
          roomTable := roomTable - {roomId};
        } else {
          roomTable := roomTable[roomId := roomMemberSet];
        }
      }
    }

    method RemovePeer(endpointKey: EndpointKey) returns (removed: Option<PeerState>)
      modifies this
      ensures removed == (if IsJoinedPeer(old(View()), endpointKey) then Some(old(peerTable)[endpointKey]) else None)
      ensures View() == Removed(old(View()), endpointKey) && peerTable == old(peerTable) - {endpointKey}
    {
      if endpointKey !in peerTable {
        return None;
      }
      var peerState := peerTable[endpointKey];
      if !peerState.isJoined {
        peerTable := peerTable - {endpointKey};
        return None;
      }
      EraseMember(peerState.roomId, endpointKey);
      peerTable := peerTable - {endpointKey};
      return Some(peerState);
    }

    method ChangePeerRoom(endpointKey: EndpointKey, nextRoomId: RoomId, currentTime: int) returns (changed: bool)
      modifies this
      ensures changed == CanChangeRoom(old(View()), endpointKey, nextRoomId)
      ensures View() == if changed then RoomChanged(old(View()), endpointKey, nextRoomId, currentTime) else old(View())
    {
      if endpointKey !in peerTable || !peerTable[endpointKey].isJoined || peerTable[endpointKey].roomId == nextRoomId {
        return false;
      }
      var peerState := peerTable[endpointKey];
      EraseMember(peerState.roomId, endpointKey);
      roomTable := roomTable[nextRoomId := (if nextRoomId in roomTable then roomTable[nextRoomId] else {}) + {endpointKey}];
      peerTable := peerTable[endpointKey := peerState.(roomId := nextRoomId, lastRecvTime := currentTime)];
      return true;
    }

    /** Marks every timed-out peer and lists them. */
    method MarkTimedOutPeersRecoverable(currentTime: int, timeout: int) returns (recoverablePeerList: seq<EndpointKey>)
      modifies this`peerTable
      ensures View() == MarkedRecoverable(old(View()), currentTime, timeout)
      ensures IsListing(recoverablePeerList, TimedOut(old(View()), currentTime, timeout))
    {
      recoverablePeerList := [];
      var unvisited := peerTable.Keys;
      while unvisited != {}
        invariant peerTable.Keys == old(peerTable).Keys && unvisited <= peerTable.Keys
        invariant forall e :: e in unvisited ==> peerTable[e] == old(peerTable)[e]
        invariant forall e :: e in peerTable && e !in unvisited ==>
                    peerTable[e] == if IsTimedOut(old(peerTable)[e], currentTime, timeout)
                                    then old(peerTable)[e].(connectionState := Recoverable, recoverableSince := currentTime) else old(peerTable)[e]
        invariant forall e :: e in recoverablePeerList <==> e in peerTable && e !in unvisited && IsTimedOut(old(peerTable)[e], currentTime, timeout)
        invariant forall i, j :: 0 <= i < j < |recoverablePeerList| ==> recoverablePeerList[i] != recoverablePeerList[j]
        decreases unvisited
      {
        var endpointKey :| endpointKey in unvisited;
        unvisited := unvisited - {endpointKey};
        var peerState := peerTable[endpointKey];
        if !peerState.isJoined || peerState.connectionState != Connected || currentTime - peerState.lastRecvTime <= timeout {
          continue;
        }
        peerTable := peerTable[endpointKey := peerState.(connectionState := Recoverable, recoverableSince := currentTime)];
        recoverablePeerList := recoverablePeerList + [endpointKey];
      }
      assert peerTable == MarkedRecoverable(old(View()), currentTime, timeout).peers;
    }

    /** Removes every expired peer while walking the table, and lists what it removed in that order. */
    method RemoveExpiredRecoverablePeers(
        currentTime: int, gracePeriod: int) returns (expiredPeerList: seq<PeerState>, ghost order: seq<EndpointKey>)
      modifies this
      ensures IsListing(order, Expired(old(View()), currentTime, gracePeriod))
      ensures View() == WithoutPeers(old(View()), order)
      ensures |expiredPeerList| == |order|
      ensures forall i :: 0 <= i < |order| ==> order[i] in old(peerTable) && expiredPeerList[i] == old(peerTable)[order[i]]
    {
      hide Removed, WithoutPeers, Expired;
      RemoveNone(View());
      expiredPeerList, order := [], [];
      var unvisited := peerTable.Keys;
      while unvisited != {}
        invariant unvisited <= peerTable.Keys
        invariant forall e :: e in unvisited ==> e in old(peerTable) && peerTable[e] == old(peerTable)[e]
        invariant forall e :: e in order <==> e in old(peerTable) && e !in unvisited && IsExpired(old(peerTable)[e], currentTime, gracePeriod)
        invariant forall i, j :: 0 <= i < j < |order| ==> order[i] != order[j]
        invariant View() == WithoutPeers(old(View()), order)
        invariant |expiredPeerList| == |order|
        invariant forall i :: 0 <= i < |order| ==> order[i] in old(peerTable) && expiredPeerList[i] == old(peerTable)[order[i]]
        decreases unvisited
      {
        var endpointKey :| endpointKey in unvisited;
        unvisited := unvisited - {endpointKey};
        var peerState := peerTable[endpointKey];
        if !peerState.isJoined || peerState.connectionState != Recoverable || currentTime - peerState.recoverableSince <= gracePeriod {
          continue;
        }
        var removed := RemovePeer(endpointKey);
        RemoveNext(old(View()), order, endpointKey);
        expiredPeerList := expiredPeerList + [peerState];
        order := order + [endpointKey];
      }
      ListedExpired(old(View()), order, currentTime, gracePeriod);
    }

    method CommitProcessedInputSequences()
      modifies this`peerTable
      ensures View() == Committed(old(View()))
    {
      var unvisited := peerTable.Keys;
      while unvisited != {}
        invariant peerTable.Keys == old(peerTable).Keys && unvisited <= peerTable.Keys
        invariant forall e :: e in unvisited ==> peerTable[e] == old(peerTable)[e]
        invariant forall e :: e in peerTable && e !in unvisited ==> peerTable[e] == CommittedPeer(old(peerTable)[e])
        decreases unvisited
      {
        var endpointKey :| endpointKey in unvisited;
        unvisited := unvisited - {endpointKey};
        var peerState := peerTable[endpointKey];
        if peerState.isJoined {
          peerTable := peerTable[endpointKey := peerState.(lastProcessedInputSequence := peerState.lastAcceptedInputSequence)];
        }
      }
      assert peerTable == Committed(old(View())).peers;
    }
  }
}
