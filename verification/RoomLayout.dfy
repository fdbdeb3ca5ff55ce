// Walls and spawn points of each room (Common/Game/RoomLayout.h).

module RoomLayout {
  import opened GameIds
  import opened WorldCollision

  const ROOM1_WALL_RECT_LIST := [
    WallRect(120.0, 120.0, 180.0, 560.0),
    WallRect(460.0, 80.0, 520.0, 420.0),
    WallRect(800.0, 220.0, 860.0, 620.0)]

  const ROOM1_SPAWN_POINT_LIST := [
    Position(60.0, 60.0), Position(60.0, 640.0), Position(1140.0, 60.0),
    Position(1140.0, 640.0), Position(320.0, 350.0), Position(980.0, 350.0)]

  const ROOM2_WALL_RECT_LIST := [
    WallRect(180.0, 120.0, 260.0, 200.0),
    WallRect(180.0, 320.0, 260.0, 400.0),
    WallRect(560.0, 140.0, 640.0, 520.0),
    WallRect(920.0, 260.0, 1000.0, 340.0)]

  const ROOM2_SPAWN_POINT_LIST := [
    Position(80.0, 80.0), Position(80.0, 620.0), Position(1110.0, 80.0),
    Position(1110.0, 620.0), Position(380.0, 100.0), Position(780.0, 600.0)]

  const ROOM3_WALL_RECT_LIST := [
    WallRect(160.0, 160.0, 1040.0, 220.0),
    WallRect(160.0, 480.0, 1040.0, 540.0),
    WallRect(280.0, 260.0, 360.0, 440.0),
    WallRect(560.0, 260.0, 640.0, 440.0),
    WallRect(840.0, 260.0, 920.0, 440.0)]

  const ROOM3_SPAWN_POINT_LIST := [
    Position(80.0, 350.0), Position(1120.0, 350.0), Position(220.0, 100.0),
    Position(220.0, 600.0), Position(980.0, 100.0), Position(980.0, 600.0)]

  const FALLBACK_SPAWN_POINT := Position(100.0, 100.0)

  function WallRectListForRoom(roomId: RoomId): seq<WallRect> {
    match roomId.value
    case 1 => ROOM1_WALL_RECT_LIST
    case 2 => ROOM2_WALL_RECT_LIST
    case 3 => ROOM3_WALL_RECT_LIST
    case _ => []
  }

  function SpawnPointListForRoom(roomId: RoomId): seq<Position> {
    match roomId.value
    case 1 => ROOM1_SPAWN_POINT_LIST
    case 2 => ROOM2_SPAWN_POINT_LIST
    case 3 => ROOM3_SPAWN_POINT_LIST
    case _ => []
  }

  function SpawnPointForRoom(roomId: RoomId, spawnIndex: nat): Position {
    var list := SpawnPointListForRoom(roomId);
    if list == [] then FALLBACK_SPAWN_POINT else list[spawnIndex % |list|]
  }

  /** Spawn points are taken in turn: in a room with a list, as many indices in a row as it is long give as many different points, and then
      they come round again. */
  lemma SpawnPointsComeInTurn(roomId: RoomId, i: nat, j: nat)
    requires SpawnPointListForRoom(roomId) != [] && i <= j
    ensures var list := SpawnPointListForRoom(roomId);
            && SpawnPointForRoom(roomId, i) in list
            && (SpawnPointForRoom(roomId, i) == SpawnPointForRoom(roomId, j) <==> (j - i) % |list| == 0)
  {
    var list := SpawnPointListForRoom(roomId);
    assert |list| == 6;
    var a, b := i % 6, j % 6;
    assert a < 6 && b < 6 && ((j - i) % 6 == 0 <==> a == b);
    assert forall k, l :: 0 <= k < l < 6 ==> list[k] != list[l];
  }

  /** A player fits at `p` in a room: inside the world and clear of the room's walls. */
  predicate StandsInRoom(p: Position, roomId: RoomId) {
    IsStanding(p, PLAYER_HALF_EXTENT, DEFAULT_WORLD_BOUNDS, WallRectListForRoom(roomId))
  }

  /** Every spawn point of every room is inside the world and clear of the room's walls. */
  lemma SpawnPointsStand(roomId: RoomId, spawnIndex: nat)
    ensures StandsInRoom(SpawnPointForRoom(roomId, spawnIndex), roomId)
  {
    var list, walls := SpawnPointListForRoom(roomId), WallRectListForRoom(roomId);
    if list != [] {
      var k := spawnIndex % |list|;
      assert k == 0 || k == 1 || k == 2 || k == 3 || k == 4 || k == 5;
      forall i | 0 <= i < |walls|
        ensures !IsPlayerCollidingWithWall(list[k].x, list[k].y, PLAYER_HALF_EXTENT, walls[i])
      {
      }
    }
  }
}
