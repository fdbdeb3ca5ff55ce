// The geometry a game runs on, as functions: where an input takes a player, what a bullet hits, where players
// appear. The simulation is stated over any arena; GameArena is the one built from the rooms' walls.

module Arena {
  import opened GameIds
  import opened WorldCollision
  import opened RoomLayout
  import opened GameWorld

  datatype Arena = Arena(
    moved: (PlayerState, RoomId, real) -> Position,
    spawnPoint: (RoomId, nat) -> Position,
    hitsPlayer: (BulletState, PlayerState) -> bool,
    hitsSurroundings: BulletState -> bool,
    impact: (Position, BulletState) -> Position,
    moveDirection: InputFlags -> Position,
    aim: Position -> Position)

  /** The direction of an input and the unit vector of a direction: square roots in the original, any vectors here. */
  datatype Directions = Directions(moveDirection: InputFlags -> Position, aim: Position -> Position)

  function Displacement(directions: Directions, p: PlayerState, dt: real): Position {
    var d, distance := directions.moveDirection(p.inputFlags), p.moveSpeed * dt;
    Position(d.x * distance, d.y * distance)
  }

  function MovedPosition(directions: Directions, p: PlayerState, roomId: RoomId, dt: real): Position {
    Moved(p.position, Displacement(directions, p, dt), PLAYER_HALF_EXTENT, DEFAULT_WORLD_BOUNDS, WallRectListForRoom(roomId))
  }

  predicate IsBulletCollidingWithPlayer(b: BulletState, p: PlayerState) {
    var deltaX, deltaY := b.position.x - p.position.x, b.position.y - p.position.y;
    var collisionRadius := PLAYER_HALF_EXTENT + b.radius;
    deltaX * deltaX + deltaY * deltaY <= collisionRadius * collisionRadius
  }

  predicate HitsSurroundings(b: BulletState) {
    IsCircleCollidingWithWorldOrWalls(b.position, b.radius, DEFAULT_WORLD_BOUNDS, WallRectListForRoom(b.roomId))
  }

  function BulletImpact(previous: Position, b: BulletState): Position {
    ImpactPosition(previous, b.position, b.radius, DEFAULT_WORLD_BOUNDS, WallRectListForRoom(b.roomId))
  }

  function GameArena(directions: Directions): Arena {
    Arena(
      (p, roomId, dt) => MovedPosition(directions, p, roomId, dt),
      SpawnPointForRoom,
      IsBulletCollidingWithPlayer,
      HitsSurroundings,
      BulletImpact,
      directions.moveDirection,
      directions.aim)
  }

  /** In a time a player walks its direction at its speed for that time, unless a wall or the edge of the world stops it. */
  lemma PlayersWalkTheirWay(directions: Directions, p: PlayerState, roomId: RoomId, dt: real)
    ensures var q, d, walls := GameArena(directions).moved(p, roomId, dt), directions.moveDirection(p.inputFlags), WallRectListForRoom(roomId);
            && (q.x == p.position.x + d.x * (p.moveSpeed * dt)
                || IsStoppedAlong(q.x, p.position.y, PLAYER_HALF_EXTENT, DEFAULT_WORLD_BOUNDS.minX, DEFAULT_WORLD_BOUNDS.maxX, SpansAlongX(walls)))
            && (q.y == p.position.y + d.y * (p.moveSpeed * dt)
                || IsStoppedAlong(q.y, q.x, PLAYER_HALF_EXTENT, DEFAULT_WORLD_BOUNDS.minY, DEFAULT_WORLD_BOUNDS.maxY, SpansAlongY(walls)))
  {
    hide IsStoppedAlong, Moved, WallRectListForRoom;
    MoveIsWholeUnlessStopped(p.position, Displacement(directions, p, dt), PLAYER_HALF_EXTENT, DEFAULT_WORLD_BOUNDS, WallRectListForRoom(roomId));
  }

  // What a bullet touches.

  function Dot(u: Position, v: Position): real {
    u.x * v.x + u.y * v.y
  }

  function Difference(p: Position, q: Position): Position {
    Position(p.x - q.x, p.y - q.y)
  }

  predicate IsInCircle(q: Position, center: Position, radius: real) {
    DistanceSquared(q, center) <= Square(radius)
  }

  /** The product of two vectors no longer than their bounds is no greater than that of the bounds. */
  lemma DotIsBounded(u: Position, v: Position, a: real, b: real)
    requires a >= 0.0 && b >= 0.0 && Dot(u, u) <= Square(a) && Dot(v, v) <= Square(b)
    ensures Dot(u, v) <= a * b
  {
    var cross := u.x * v.y - u.y * v.x;
    CauchySchwarz(u, v);
    SquareIsNotNegative(cross);
    SquareIsNotNegative(u.x);
    SquareIsNotNegative(u.y);
    SquareIsNotNegative(v.x);
    SquareIsNotNegative(v.y);
    ProductsAreOrdered(Dot(u, u), Square(a), Dot(v, v), Square(b));
    assert Square(a) * Square(b) == Square(a * b);
    SmallerRoot(Dot(u, v), a * b);
  }

  lemma CauchySchwarz(u: Position, v: Position)
    ensures Dot(u, u) * Dot(v, v) == Square(Dot(u, v)) + Square(u.x * v.y - u.y * v.x)
  {
  }

  lemma SquareIsNotNegative(a: real)
    ensures Square(a) >= 0.0
  {
  }

  lemma ProductsAreOrdered(a: real, b: real, c: real, d: real)
    requires 0.0 <= a <= b && 0.0 <= c <= d
    ensures a * c <= b * d
  {
  }

  lemma SmallerRoot(a: real, b: real)
    requires b >= 0.0 && Square(a) <= Square(b)
    ensures a <= b
  {
    if a > b {
      LargerSquare(a, b);
    }
  }

  lemma LargerSquare(a: real, b: real)
    requires a > b >= 0.0
    ensures Square(a) > Square(b)
  {
    var d := a - b;
    assert d * d > 0.0 && b * d >= 0.0;
    assert a * a == (b + d) * (b + d);
  }

  lemma PartsOfAStep(a: real, b: real, t: real, c: real)
    requires c == a + (b - a) * t
    ensures Square(c - a) == Square(t) * Square(a - b) && Square(c - b) == Square(1.0 - t) * Square(a - b)
  {
    assert c - a == (a - b) * -t && c - b == (a - b) * (1.0 - t);
    SquareOfProduct(a - b, -t);
    SquareOfProduct(a - b, 1.0 - t);
    assert Square(-t) == Square(t);
  }

  lemma SquareOfProduct(a: real, b: real)
    ensures Square(a * b) == Square(b) * Square(a)
  {
  }

  lemma PartsOfTheWay(p: Position, q: Position, t: real, between: Position)
    requires between == Position(p.x + (q.x - p.x) * t, p.y + (q.y - p.y) * t)
    ensures DistanceSquared(between, p) == Square(t) * DistanceSquared(p, q)
    ensures DistanceSquared(between, q) == Square(1.0 - t) * DistanceSquared(p, q)
  {
    PartsOfAStep(p.x, q.x, t, between.x);
    PartsOfAStep(p.y, q.y, t, between.y);
    hide Square;
  }

  lemma PartIsBounded(t: real, distanceSquared: real, whole: real, part: real)
    requires 0.0 <= distanceSquared <= Square(whole) && t * whole == part
    ensures Square(t) * distanceSquared <= Square(part)
  {
    SquareIsNotNegative(t);
    ProductsAreOrdered(Square(t), Square(t), distanceSquared, Square(whole));
    assert Square(t) * Square(whole) == Square(t * whole);
  }

  lemma SumOfSquares(p: Position, q: Position, between: Position)
    ensures var u, v := Difference(between, p), Difference(q, between);
            && DistanceSquared(between, p) == Dot(u, u) && DistanceSquared(between, q) == Dot(v, v)
            && DistanceSquared(p, q) == Dot(u, u) + 2.0 * Dot(u, v) + Dot(v, v)
  {
  }

  lemma SquareOfSum(a: real, b: real)
    ensures Square(a + b) == Square(a) + 2.0 * (a * b) + Square(b)
  {
  }

  lemma TouchIsDistance(b: BulletState, p: PlayerState)
    ensures IsBulletCollidingWithPlayer(b, p) <==> DistanceSquared(p.position, b.position) <= Square(PLAYER_HALF_EXTENT + b.radius)
  {
  }

  lemma PartOfSum(a: real, b: real) returns (t: real)
    requires a > 0.0 && b >= 0.0
    ensures t * (a + b) == a && (1.0 - t) * (a + b) == b
  {
    t := a / (a + b);
    assert t * (a + b) == a;
  }

  lemma DistanceIsNotNegative(p: Position, q: Position)
    ensures DistanceSquared(p, q) >= 0.0
  {
    SquareIsNotNegative(p.x - q.x);
    SquareIsNotNegative(p.y - q.y);
  }

  lemma PointOfTouch(p: Position, q: Position, a: real, b: real) returns (between: Position)
    requires a > 0.0 && b >= 0.0 && DistanceSquared(p, q) <= Square(a + b)
    ensures IsInCircle(between, p, a) && IsInCircle(between, q, b)
  {
    hide Square, DistanceSquared;
    var t := PartOfSum(a, b);
    between := Position(p.x + (q.x - p.x) * t, p.y + (q.y - p.y) * t);
    PartsOfTheWay(p, q, t, between);
    DistanceIsNotNegative(p, q);
    PartIsBounded(t, DistanceSquared(p, q), a + b, a);
    PartIsBounded(1.0 - t, DistanceSquared(p, q), a + b, b);
  }

  lemma PointInBoth(p: Position, q: Position, a: real, b: real, between: Position)
    requires a >= 0.0 && b >= 0.0 && IsInCircle(between, p, a) && IsInCircle(between, q, b)
    ensures DistanceSquared(p, q) <= Square(a + b)
  {
    hide Square, Dot, Difference, DistanceSquared;
    SumOfSquares(p, q, between);
    DotIsBounded(Difference(between, p), Difference(q, between), a, b);
    SquareOfSum(a, b);
  }

  /** A bullet touches a player exactly if its circle and that of the player's half extent have a point in common. */
  lemma BulletTouchesPlayerIff(directions: Directions, b: BulletState, p: PlayerState)
    requires b.radius >= 0.0
    ensures GameArena(directions).hitsPlayer(b, p)
       <==> exists q :: IsInCircle(q, p.position, PLAYER_HALF_EXTENT) && IsInCircle(q, b.position, b.radius)
  {
    hide IsBulletCollidingWithPlayer, IsInCircle, DistanceSquared, Square;
    TouchIsDistance(b, p);
    if IsBulletCollidingWithPlayer(b, p) {
      var q := PointOfTouch(p.position, b.position, PLAYER_HALF_EXTENT, b.radius);
    }
    forall q | IsInCircle(q, p.position, PLAYER_HALF_EXTENT) && IsInCircle(q, b.position, b.radius)
      ensures IsBulletCollidingWithPlayer(b, p)
    {
      PointInBoth(p.position, b.position, PLAYER_HALF_EXTENT, b.radius, q);
    }
  }

  /** A bullet touches its surroundings exactly if it reaches over the edge of the world or some point of a wall of its room lies within
      its radius. */
  lemma BulletTouchesSurroundingsIff(directions: Directions, b: BulletState)
    ensures GameArena(directions).hitsSurroundings(b) <==>
            || b.position.x - b.radius < DEFAULT_WORLD_BOUNDS.minX || b.position.x + b.radius > DEFAULT_WORLD_BOUNDS.maxX
            || b.position.y - b.radius < DEFAULT_WORLD_BOUNDS.minY || b.position.y + b.radius > DEFAULT_WORLD_BOUNDS.maxY
            || exists wall, q :: wall in WallRectListForRoom(b.roomId) && IsInWall(q, wall) && DistanceSquared(b.position, q) <= Square(b.radius)
  {
    var walls := WallRectListForRoom(b.roomId);
    WallsAreUpright(b.roomId);
    hide WallRectListForRoom, IsCircleCollidingWithWall, DistanceSquared, Square, IsInWall;
    forall i | 0 <= i < |walls|
      ensures IsCircleCollidingWithWall(b.position.x, b.position.y, b.radius, walls[i])
         <==> exists q :: IsInWall(q, walls[i]) && DistanceSquared(b.position, q) <= Square(b.radius)
    {
      CircleTouchesWallIff(b.position, b.radius, walls[i]);
    }
  }

  /** The mark of a bullet that ended its move in its surroundings is at a point of the move where it touches them, and less than a 4096th of
      the way before it did not, unless that is the very start. */
  lemma BulletLeavesItsMarkAtContact(directions: Directions, previous: Position, b: BulletState) returns (fraction: real)
    requires GameArena(directions).hitsSurroundings(b)
    ensures 0.0 < fraction <= 1.0 && GameArena(directions).impact(previous, b) == PointAt(previous, b.position, fraction)
    ensures HitsSurroundings(b.(position := PointAt(previous, b.position, fraction)))
    ensures fraction == 1.0 / 4096.0 || !HitsSurroundings(b.(position := PointAt(previous, b.position, fraction - 1.0 / 4096.0)))
  {
    hide ImpactPosition, PointAt, IsCircleCollidingWithWorldOrWalls, WallRectListForRoom;
    fraction := ImpactIsNearFirstContact(previous, b.position, b.radius, DEFAULT_WORLD_BOUNDS, WallRectListForRoom(b.roomId));
  }

  lemma WallsAreUpright(roomId: RoomId)
    ensures forall wall :: wall in WallRectListForRoom(roomId) ==> wall.minX <= wall.maxX && wall.minY <= wall.maxY
  {
  }

  /** Moving and appearing keep to places where players may stand. */
  ghost predicate KeepsStanding(arena: Arena, stands: (Position, RoomId) -> bool) {
    && (forall p: PlayerState, roomId, dt :: stands(p.position, roomId) ==> stands(arena.moved(p, roomId, dt), roomId))
    && forall roomId, i :: stands(arena.spawnPoint(roomId, i), roomId)
  }

  /** In the game's rooms, players never enter or leave through walls: inside the world and clear of all walls of
      the room they stay so, whatever the directions of their inputs. */
  lemma GameArenaKeepsStanding(directions: Directions)
    ensures KeepsStanding(GameArena(directions), StandsInRoom)
  {
    var arena := GameArena(directions);
    forall p: PlayerState, roomId, dt | StandsInRoom(p.position, roomId)
      ensures StandsInRoom(arena.moved(p, roomId, dt), roomId)
    {
      MoveEndsStanding(p.position, Displacement(directions, p, dt), PLAYER_HALF_EXTENT, DEFAULT_WORLD_BOUNDS, WallRectListForRoom(roomId));
    }
    forall roomId, i: nat
      ensures StandsInRoom(arena.spawnPoint(roomId, i), roomId)
    {
      SpawnPointsStand(roomId, i);
    }
  }
}
