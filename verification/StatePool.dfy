// A pool of states that removes by moving the last one into the gap (Server/Game/StatePool.h).

module StatePool {
  import opened GameIds

  function SwapRemoved<T>(list: seq<T>, index: nat): seq<T> {
    if index >= |list| then list
    else if index + 1 < |list| then list[index := list[|list| - 1]][..|list| - 1]
    else list[..|list| - 1]
  }

  lemma ReplacingOne<T>(list: seq<T>, index: nat, state: T)
    requires index < |list|
    ensures multiset(list[index := state]) == multiset(list) - multiset{list[index]} + multiset{state}
    ensures list[index] in multiset(list)
  {
  }

  lemma FrontAndLast<T>(front: seq<T>, last: T)
    ensures multiset(front + [last]) == multiset(front) + multiset{last}
    ensures multiset([last] + front) == multiset(front) + multiset{last}
  {
  }

  lemma ExchangingOne<T>(front: multiset<T>, last: T, gone: T)
    requires gone in front
    ensures front - multiset{gone} + multiset{last} == front + multiset{last} - multiset{gone}
  {
  }

  lemma SwapRemovedIs<T>(list: seq<T>, index: nat)
    requires index + 1 < |list|
    ensures SwapRemoved(list, index) == list[..|list| - 1][index := list[|list| - 1]]
    ensures SwapRemoved(list, index)[index..] == [list[|list| - 1]] + list[index + 1..|list| - 1]
  {
  }

  /** Exactly the removed state is gone, and what was before it has not moved. */
  lemma SwapRemovalTakesOne<T>(list: seq<T>, index: nat)
    requires index < |list|
    ensures multiset(SwapRemoved(list, index)) == multiset(list) - multiset{list[index]}
    ensures |SwapRemoved(list, index)| == |list| - 1 && SwapRemoved(list, index)[..index] == list[..index]
  {
    var front, last := list[..|list| - 1], list[|list| - 1];
    assert list == front + [last];
    FrontAndLast(front, last);
    if index + 1 < |list| {
      SwapRemovedIs(list, index);
      hide SwapRemoved;
      ReplacingOne(front, index, last);
      ExchangingOne(multiset(front), last, list[index]);
    }
  }

  /** What comes at or after a removed index is what came after it before. */
  lemma SwapRemovalKeepsTail<T>(list: seq<T>, index: nat)
    requires index < |list|
    ensures index <= |SwapRemoved(list, index)|
    ensures multiset(SwapRemoved(list, index)[index..]) == multiset(list[index + 1..])
  {
    if index + 1 < |list| {
      var middle, last := list[index + 1..|list| - 1], list[|list| - 1];
      SwapRemovedIs(list, index);
      hide SwapRemoved;
      TailIs(list, index);
      FrontAndLast(middle, last);
    }
  }

  lemma TailIs<T>(list: seq<T>, index: nat)
    requires index + 1 < |list|
    ensures list[index + 1..] == list[index + 1..|list| - 1] + [list[|list| - 1]]
  {
  }

  /** The pool after a removal of every state of a room at or past `index`. */
  function WithoutRoom<T>(list: seq<T>, index: nat, roomOf: T -> RoomId, roomId: RoomId): seq<T>
    requires index <= |list|
    decreases |list| - index
  {
    if index == |list| then list
    else if roomOf(list[index]) != roomId then WithoutRoom(list, index + 1, roomOf, roomId)
    else WithoutRoom(SwapRemoved(list, index), index, roomOf, roomId)
  }

  /** Clearing a room removes each of its states and no other. */
  lemma {:induction false} WithoutRoomIsExact<T>(list: seq<T>, index: nat, roomOf: T -> RoomId, roomId: RoomId)
    requires index <= |list| && forall i :: 0 <= i < index ==> roomOf(list[i]) != roomId
    ensures forall s :: multiset(WithoutRoom(list, index, roomOf, roomId))[s] == if roomOf(s) == roomId then 0 else multiset(list)[s]
    decreases |list| - index
  {
    if index < |list| {
      if roomOf(list[index]) != roomId {
        WithoutRoomIsExact(list, index + 1, roomOf, roomId);
      } else {
        SwapRemovalTakesOne(list, index);
        forall i | 0 <= i < index
          ensures roomOf(SwapRemoved(list, index)[i]) != roomId
        {
          assert SwapRemoved(list, index)[..index][i] == list[..index][i];
        }
        WithoutRoomIsExact(SwapRemoved(list, index), index, roomOf, roomId);
      }
    } else {
      forall s | roomOf(s) == roomId
        ensures multiset(list)[s] == 0
      {
        assert s !in list;
      }
    }
  }

  lemma WithoutRoomKeepsOthers<T>(list: seq<T>, roomOf: T -> RoomId, roomId: RoomId)
    ensures forall s :: s in WithoutRoom(list, 0, roomOf, roomId) <==> s in list && roomOf(s) != roomId
  {
    WithoutRoomIsExact(list, 0, roomOf, roomId);
    forall s
      ensures s in WithoutRoom(list, 0, roomOf, roomId) <==> s in list && roomOf(s) != roomId
    {
      assert s in WithoutRoom(list, 0, roomOf, roomId) <==> s in multiset(WithoutRoom(list, 0, roomOf, roomId));
      assert s in list <==> s in multiset(list);
    }
  }

  class StatePool<T> {
    var activeStateList: seq<T>

    constructor ()
      ensures activeStateList == []
    {
      activeStateList := [];
    }

    method Clear()
      modifies this
      ensures activeStateList == []
    {
      activeStateList := [];
    }

    method Add(state: T)
      modifies this
      ensures activeStateList == old(activeStateList) + [state]
    {
      activeStateList := activeStateList + [state];
    }

    method RemoveAt(index: nat)
      modifies this
      ensures activeStateList == SwapRemoved(old(activeStateList), index)
    {
      if index >= |activeStateList| {
        return;
      }
      if index + 1 < |activeStateList| {
        activeStateList := activeStateList[index := activeStateList[|activeStateList| - 1]];
      }
      activeStateList := activeStateList[..|activeStateList| - 1];
    }

    /** Erases every state of a room, scanning once and looking again at an index whose state was replaced. */
    method RemoveRoom(roomOf: T -> RoomId, roomId: RoomId)
      modifies this
      ensures activeStateList == WithoutRoom(old(activeStateList), 0, roomOf, roomId)
    {
      var index := 0;
      while index < |activeStateList|
        invariant index <= |activeStateList|
        invariant WithoutRoom(old(activeStateList), 0, roomOf, roomId) == WithoutRoom(activeStateList, index, roomOf, roomId)
        decreases |activeStateList| - index
      {
        if roomOf(activeStateList[index]) != roomId {
          index := index + 1;
          continue;
        }
        RemoveAt(index);
      }
    }
  }
}
