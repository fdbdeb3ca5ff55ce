// Movement against walls, one axis after the other, and the impact point of a bullet
// (Common/Game/WorldCollision.h), over real coordinates.

module WorldCollision {

  datatype WallRect = WallRect(minX: real, minY: real, maxX: real, maxY: real)

  datatype WorldBounds = WorldBounds(minX: real, minY: real, maxX: real, maxY: real)

  datatype Position = Position(x: real, y: real)

  const DEFAULT_WORLD_BOUNDS := WorldBounds(0.0, 0.0, 1280.0, 720.0)
  const PLAYER_HALF_EXTENT := 10.0

  function Clamp(v: real, low: real, high: real): real {
    if v < low then low else if high < v then high else v
  }

  function Min(a: real, b: real): real {
    if b < a then b else a
  }

  function Max(a: real, b: real): real {
    if a < b then b else a
  }

  // A square player among rectangular walls.

  predicate IsAabbOverlappingWall(minX: real, minY: real, maxX: real, maxY: real, wall: WallRect) {
    minX < wall.maxX && maxX > wall.minX && minY < wall.maxY && maxY > wall.minY
  }

  predicate IsPlayerCollidingWithWall(x: real, y: real, halfExtent: real, wall: WallRect) {
    IsAabbOverlappingWall(x - halfExtent, y - halfExtent, x + halfExtent, y + halfExtent, wall)
  }

  predicate IsClearOfWalls(x: real, y: real, halfExtent: real, walls: seq<WallRect>) {
    forall i :: 0 <= i < |walls| ==> !IsPlayerCollidingWithWall(x, y, halfExtent, walls[i])
  }

  predicate IsInside(x: real, y: real, halfExtent: real, bounds: WorldBounds) {
    && bounds.minX + halfExtent <= x <= bounds.maxX - halfExtent
    && bounds.minY + halfExtent <= y <= bounds.maxY - halfExtent
  }

  // One axis at a time. A wall seen along an axis has a near and a far side, and a range across it.

  datatype Span = Span(near: real, far: real, crossMin: real, crossMax: real)

  function AlongX(wall: WallRect): Span {
    Span(wall.minX, wall.maxX, wall.minY, wall.maxY)
  }

  function AlongY(wall: WallRect): Span {
    Span(wall.minY, wall.maxY, wall.minX, wall.maxX)
  }

  function SpansAlongX(walls: seq<WallRect>): (spans: seq<Span>)
    ensures |spans| == |walls| && forall i :: 0 <= i < |walls| ==> spans[i] == AlongX(walls[i])
  {
    seq(|walls|, i requires 0 <= i < |walls| => AlongX(walls[i]))
  }

  function SpansAlongY(walls: seq<WallRect>): (spans: seq<Span>)
    ensures |spans| == |walls| && forall i :: 0 <= i < |walls| ==> spans[i] == AlongY(walls[i])
  {
    seq(|walls|, i requires 0 <= i < |walls| => AlongY(walls[i]))
  }

  predicate IsRangeOverlapping(minA: real, maxA: real, minB: real, maxB: real) {
    minA < maxB && maxA > minB
  }

  /** A player at `a` on the axis and `cross` across it overlaps the span. */
  predicate IsColliding(a: real, cross: real, halfExtent: real, span: Span) {
    && IsRangeOverlapping(a - halfExtent, a + halfExtent, span.near, span.far)
    && IsRangeOverlapping(cross - halfExtent, cross + halfExtent, span.crossMin, span.crossMax)
  }

  predicate IsClear(a: real, cross: real, halfExtent: real, spans: seq<Span>) {
    forall i :: 0 <= i < |spans| ==> !IsColliding(a, cross, halfExtent, spans[i])
  }

  /** How far up the axis the spans let a player go from `a` towards `target`. */
  function FarthestUp(a: real, cross: real, target: real, halfExtent: real, spans: seq<Span>): real {
    if spans == [] then target
    else
      var span, before := spans[|spans| - 1], FarthestUp(a, cross, target, halfExtent, spans[..|spans| - 1]);
      if IsRangeOverlapping(cross - halfExtent, cross + halfExtent, span.crossMin, span.crossMax) && a <= span.near - halfExtent
      then Min(before, span.near - halfExtent) else before
  }

  /** How far down the axis. */
  function FarthestDown(a: real, cross: real, target: real, halfExtent: real, spans: seq<Span>): real {
    if spans == [] then target
    else
      var span, before := spans[|spans| - 1], FarthestDown(a, cross, target, halfExtent, spans[..|spans| - 1]);
      if IsRangeOverlapping(cross - halfExtent, cross + halfExtent, span.crossMin, span.crossMax) && a >= span.far + halfExtent
      then Max(before, span.far + halfExtent) else before
  }

  /** The coordinate after trying to move by `delta` along the axis. */
  function MovedAlong(a: real, cross: real, delta: real, halfExtent: real, low: real, high: real, spans: seq<Span>): real {
    if delta == 0.0 then a
    else
      var target := Clamp(a + delta, low + halfExtent, high - halfExtent);
      if delta > 0.0 then FarthestUp(a, cross, target, halfExtent, spans) else FarthestDown(a, cross, target, halfExtent, spans)
  }

  predicate IsBetween(t: real, a: real, b: real) {
    a <= t <= b || b <= t <= a
  }

  /** Going up stays clear all the way to the limit, and anything beyond it is the target's or a wall's doing. */
  lemma {:induction false} UpwardPathIsClear(a: real, cross: real, target: real, halfExtent: real, spans: seq<Span>)
    requires a <= target && IsClear(a, cross, halfExtent, spans)
    ensures a <= FarthestUp(a, cross, target, halfExtent, spans) <= target
    ensures forall t :: a <= t <= FarthestUp(a, cross, target, halfExtent, spans) ==> IsClear(t, cross, halfExtent, spans)
  {
    if spans != [] {
      var earlier, last := spans[..|spans| - 1], spans[|spans| - 1];
      assert IsClear(a, cross, halfExtent, earlier);
      UpwardPathIsClear(a, cross, target, halfExtent, earlier);
      forall t | a <= t <= FarthestUp(a, cross, target, halfExtent, spans)
        ensures IsClear(t, cross, halfExtent, spans)
      {
        assert IsClear(t, cross, halfExtent, earlier);
        assert !IsColliding(a, cross, halfExtent, last);
        assert forall i :: 0 <= i < |spans| - 1 ==> spans[i] == earlier[i];
      }
    }
  }

  lemma {:induction false} DownwardPathIsClear(a: real, cross: real, target: real, halfExtent: real, spans: seq<Span>)
    requires target <= a && IsClear(a, cross, halfExtent, spans)
    ensures target <= FarthestDown(a, cross, target, halfExtent, spans) <= a
    ensures forall t :: FarthestDown(a, cross, target, halfExtent, spans) <= t <= a ==> IsClear(t, cross, halfExtent, spans)
  {
    if spans != [] {
      var earlier, last := spans[..|spans| - 1], spans[|spans| - 1];
      assert IsClear(a, cross, halfExtent, earlier);
      DownwardPathIsClear(a, cross, target, halfExtent, earlier);
      forall t | FarthestDown(a, cross, target, halfExtent, spans) <= t <= a
        ensures IsClear(t, cross, halfExtent, spans)
      {
        assert IsClear(t, cross, halfExtent, earlier);
        assert !IsColliding(a, cross, halfExtent, last);
        assert forall i :: 0 <= i < |spans| - 1 ==> spans[i] == earlier[i];
      }
    }
  }

  /** Along one axis: the player stays inside and clear at every point passed, for any spans and any displacement. */
  lemma PathAlongAxisIsClear(a: real, cross: real, delta: real, halfExtent: real, low: real, high: real, spans: seq<Span>)
    requires low + halfExtent <= a <= high - halfExtent && IsClear(a, cross, halfExtent, spans)
    ensures var b := MovedAlong(a, cross, delta, halfExtent, low, high, spans);
            && low + halfExtent <= b <= high - halfExtent
            && (delta >= 0.0 ==> a <= b <= a + delta)
            && (delta <= 0.0 ==> a + delta <= b <= a)
            && forall t :: IsBetween(t, a, b) ==> IsClear(t, cross, halfExtent, spans)
  {
    var target := Clamp(a + delta, low + halfExtent, high - halfExtent);
    if delta > 0.0 {
      UpwardPathIsClear(a, cross, target, halfExtent, spans);
    } else if delta < 0.0 {
      DownwardPathIsClear(a, cross, target, halfExtent, spans);
    } else {
      assert forall t :: IsBetween(t, a, a) ==> t == a;
    }
  }

  /** At `b` a player touches the near side of the span, across from it. */
  predicate StopsUpward(b: real, cross: real, halfExtent: real, span: Span) {
    && b == span.near - halfExtent
    && IsRangeOverlapping(cross - halfExtent, cross + halfExtent, span.crossMin, span.crossMax)
  }

  /** At `b` a player touches the far side. */
  predicate StopsDownward(b: real, cross: real, halfExtent: real, span: Span) {
    && b == span.far + halfExtent
    && IsRangeOverlapping(cross - halfExtent, cross + halfExtent, span.crossMin, span.crossMax)
  }

  /** The move stops no earlier than it must: short of its target, it touches a wall, and everywhere beyond the stop up to
      the far side of that wall it would be in it. */
  lemma {:induction false} UpwardMoveStopsAtAWall(a: real, cross: real, target: real, halfExtent: real, spans: seq<Span>)
    ensures var b := FarthestUp(a, cross, target, halfExtent, spans);
            b == target || exists i :: 0 <= i < |spans| && StopsUpward(b, cross, halfExtent, spans[i])
                                       && forall t :: b < t < spans[i].far + halfExtent ==> IsColliding(t, cross, halfExtent, spans[i])
  {
    if spans != [] {
      UpwardMoveStopsAtAWall(a, cross, target, halfExtent, spans[..|spans| - 1]);
      assert spans == spans[..|spans| - 1] + [spans[|spans| - 1]];
      var b := FarthestUp(a, cross, target, halfExtent, spans);
      if b != target {
        var i :| 0 <= i < |spans| && StopsUpward(b, cross, halfExtent, spans[i]);
      }
    }
  }

  lemma {:induction false} DownwardMoveStopsAtAWall(a: real, cross: real, target: real, halfExtent: real, spans: seq<Span>)
    ensures var b := FarthestDown(a, cross, target, halfExtent, spans);
            b == target || exists i :: 0 <= i < |spans| && StopsDownward(b, cross, halfExtent, spans[i])
                                       && forall t :: spans[i].near - halfExtent < t < b ==> IsColliding(t, cross, halfExtent, spans[i])
  {
    if spans != [] {
      DownwardMoveStopsAtAWall(a, cross, target, halfExtent, spans[..|spans| - 1]);
      assert spans == spans[..|spans| - 1] + [spans[|spans| - 1]];
      var b := FarthestDown(a, cross, target, halfExtent, spans);
      if b != target {
        var i :| 0 <= i < |spans| && StopsDownward(b, cross, halfExtent, spans[i]);
      }
    }
  }

  // The whole move: X first, then Y.

  function MovedX(p: Position, deltaX: real, halfExtent: real, bounds: WorldBounds, walls: seq<WallRect>): real {
    MovedAlong(p.x, p.y, deltaX, halfExtent, bounds.minX, bounds.maxX, SpansAlongX(walls))
  }

  function MovedY(p: Position, deltaY: real, halfExtent: real, bounds: WorldBounds, walls: seq<WallRect>): real {
    MovedAlong(p.y, p.x, deltaY, halfExtent, bounds.minY, bounds.maxY, SpansAlongY(walls))
  }

  function Moved(p: Position, delta: Position, halfExtent: real, bounds: WorldBounds, walls: seq<WallRect>): Position {
    var x := MovedX(p, delta.x, halfExtent, bounds, walls);
    Position(x, MovedY(Position(x, p.y), delta.y, halfExtent, bounds, walls))
  }

  /** `q` lies on the path: on the leg along X, or on the leg along Y after it. */
  predicate IsOnPath(q: Position, from: Position, to: Position) {
    || (q.y == from.y && IsBetween(q.x, from.x, to.x))
    || (q.x == to.x && IsBetween(q.y, from.y, to.y))
  }

  predicate IsStanding(p: Position, halfExtent: real, bounds: WorldBounds, walls: seq<WallRect>) {
    IsInside(p.x, p.y, halfExtent, bounds) && IsClearOfWalls(p.x, p.y, halfExtent, walls)
  }

  lemma ClearAlongX(x: real, y: real, halfExtent: real, walls: seq<WallRect>)
    ensures IsClearOfWalls(x, y, halfExtent, walls) <==> IsClear(x, y, halfExtent, SpansAlongX(walls))
  {
    assert forall i :: 0 <= i < |walls| ==>
        (IsPlayerCollidingWithWall(x, y, halfExtent, walls[i]) <==> IsColliding(x, y, halfExtent, SpansAlongX(walls)[i]));
  }

  lemma ClearAlongY(x: real, y: real, halfExtent: real, walls: seq<WallRect>)
    ensures IsClearOfWalls(x, y, halfExtent, walls) <==> IsClear(y, x, halfExtent, SpansAlongY(walls))
  {
    assert forall i :: 0 <= i < |walls| ==>
        (IsPlayerCollidingWithWall(x, y, halfExtent, walls[i]) <==> IsColliding(y, x, halfExtent, SpansAlongY(walls)[i]));
  }

  /** Walls are never entered or crossed. For any walls and any displacement, a player that stands inside the
      bounds and clear of all walls stands so at every point of its path, first along X and then along Y. */
  lemma PathIsClear(p: Position, delta: Position, halfExtent: real, bounds: WorldBounds, walls: seq<WallRect>, q: Position)
    requires IsStanding(p, halfExtent, bounds, walls)
    requires IsOnPath(q, p, Moved(p, delta, halfExtent, bounds, walls))
    ensures IsStanding(q, halfExtent, bounds, walls)
  {
    var to := Moved(p, delta, halfExtent, bounds, walls);
    ClearAlongX(p.x, p.y, halfExtent, walls);
    PathAlongAxisIsClear(p.x, p.y, delta.x, halfExtent, bounds.minX, bounds.maxX, SpansAlongX(walls));
    assert IsBetween(to.x, p.x, to.x);
    ClearAlongX(to.x, p.y, halfExtent, walls);
    if q.y == p.y && IsBetween(q.x, p.x, to.x) {
      ClearAlongX(q.x, p.y, halfExtent, walls);
    } else {
      ClearAlongY(to.x, p.y, halfExtent, walls);
      PathAlongAxisIsClear(p.y, to.x, delta.y, halfExtent, bounds.minY, bounds.maxY, SpansAlongY(walls));
      ClearAlongY(to.x, q.y, halfExtent, walls);
    }
  }

  lemma MoveEndsStanding(p: Position, delta: Position, halfExtent: real, bounds: WorldBounds, walls: seq<WallRect>)
    requires IsStanding(p, halfExtent, bounds, walls)
    ensures IsStanding(Moved(p, delta, halfExtent, bounds, walls), halfExtent, bounds, walls)
  {
    var to := Moved(p, delta, halfExtent, bounds, walls);
    assert IsBetween(to.y, p.y, to.y);
    PathIsClear(p, delta, halfExtent, bounds, walls, to);
  }

  /** At `b` a player touches a bound, or a wall across from it. */
  ghost predicate IsStoppedAlong(b: real, cross: real, halfExtent: real, low: real, high: real, spans: seq<Span>) {
    || b == low + halfExtent || b == high - halfExtent
    || exists i :: 0 <= i < |spans| && (StopsUpward(b, cross, halfExtent, spans[i]) || StopsDownward(b, cross, halfExtent, spans[i]))
  }

  lemma MoveAlongIsWholeUnlessStopped(a: real, cross: real, delta: real, halfExtent: real, low: real, high: real, spans: seq<Span>)
    ensures var b := MovedAlong(a, cross, delta, halfExtent, low, high, spans);
            b == a + delta || IsStoppedAlong(b, cross, halfExtent, low, high, spans)
  {
    var target := Clamp(a + delta, low + halfExtent, high - halfExtent);
    if delta > 0.0 {
      UpwardMoveStopsAtAWall(a, cross, target, halfExtent, spans);
    } else if delta < 0.0 {
      DownwardMoveStopsAtAWall(a, cross, target, halfExtent, spans);
    }
  }

  /** A move is whole unless it is stopped: along X by something across from where the player started, along Y by something across from
      where the move along X has taken it. */
  lemma MoveIsWholeUnlessStopped(p: Position, delta: Position, halfExtent: real, bounds: WorldBounds, walls: seq<WallRect>)
    ensures var q := Moved(p, delta, halfExtent, bounds, walls);
            && (q.x == p.x + delta.x || IsStoppedAlong(q.x, p.y, halfExtent, bounds.minX, bounds.maxX, SpansAlongX(walls)))
            && (q.y == p.y + delta.y || IsStoppedAlong(q.y, q.x, halfExtent, bounds.minY, bounds.maxY, SpansAlongY(walls)))
  {
    hide IsStoppedAlong, MovedAlong;
    var x := MovedX(p, delta.x, halfExtent, bounds, walls);
    MoveAlongIsWholeUnlessStopped(p.x, p.y, delta.x, halfExtent, bounds.minX, bounds.maxX, SpansAlongX(walls));
    MoveAlongIsWholeUnlessStopped(p.y, x, delta.y, halfExtent, bounds.minY, bounds.maxY, SpansAlongY(walls));
  }

  method TryMoveAlongXAxis(
      x: real, y: real, deltaX: real, halfExtent: real, bounds: WorldBounds, walls: seq<WallRect>) returns (x': real)
    ensures x' == MovedX(Position(x, y), deltaX, halfExtent, bounds, walls)
  {
    if deltaX == 0.0 {
      return x;
    }
    var targetX := Clamp(x + deltaX, bounds.minX + halfExtent, bounds.maxX - halfExtent);
    var playerMinY, playerMaxY := y - halfExtent, y + halfExtent;
    ghost var spans := SpansAlongX(walls);
    x' := targetX;
    if deltaX > 0.0 {
      for i := 0 to |walls|
        invariant x' == FarthestUp(x, y, targetX, halfExtent, spans[..i])
      {
        assert spans[..i + 1][..i] == spans[..i];
        if !IsRangeOverlapping(playerMinY, playerMaxY, walls[i].minY, walls[i].maxY) {
          continue;
        }
        var wallContactX := walls[i].minX - halfExtent;
        if x <= wallContactX {
          x' := Min(x', wallContactX);
        }
      }
    } else {
      for i := 0 to |walls|
        invariant x' == FarthestDown(x, y, targetX, halfExtent, spans[..i])
      {
        assert spans[..i + 1][..i] == spans[..i];
        if !IsRangeOverlapping(playerMinY, playerMaxY, walls[i].minY, walls[i].maxY) {
          continue;
        }
        var wallContactX := walls[i].maxX + halfExtent;
        if x >= wallContactX {
          x' := Max(x', wallContactX);
        }
      }
    }
    assert spans[..|walls|] == spans;
  }

  method TryMoveAlongYAxis(
      x: real, y: real, deltaY: real, halfExtent: real, bounds: WorldBounds, walls: seq<WallRect>) returns (y': real)
    ensures y' == MovedY(Position(x, y), deltaY, halfExtent, bounds, walls)
  {
    if deltaY == 0.0 {
      return y;
    }
    var targetY := Clamp(y + deltaY, bounds.minY + halfExtent, bounds.maxY - halfExtent);
    var playerMinX, playerMaxX := x - halfExtent, x + halfExtent;
    ghost var spans := SpansAlongY(walls);
    y' := targetY;
    if deltaY > 0.0 {
      for i := 0 to |walls|
        invariant y' == FarthestUp(y, x, targetY, halfExtent, spans[..i])
      {
        assert spans[..i + 1][..i] == spans[..i];
        if !IsRangeOverlapping(playerMinX, playerMaxX, walls[i].minX, walls[i].maxX) {
          continue;
        }
        var wallContactY := walls[i].minY - halfExtent;
        if y <= wallContactY {
          y' := Min(y', wallContactY);
        }
      }
    } else {
      for i := 0 to |walls|
        invariant y' == FarthestDown(y, x, targetY, halfExtent, spans[..i])
      {
        assert spans[..i + 1][..i] == spans[..i];
        if !IsRangeOverlapping(playerMinX, playerMaxX, walls[i].minX, walls[i].maxX) {
          continue;
        }
        var wallContactY := walls[i].maxY + halfExtent;
        if y >= wallContactY {
          y' := Max(y', wallContactY);
        }
      }
    }
    assert spans[..|walls|] == spans;
  }

  method MovePlayerWithWallCollision(p: Position, delta: Position, halfExtent: real, bounds: WorldBounds, walls: seq<WallRect>)
    returns (p': Position)
    ensures p' == Moved(p, delta, halfExtent, bounds, walls)
  {
    var x := TryMoveAlongXAxis(p.x, p.y, delta.x, halfExtent, bounds, walls);
    var y := TryMoveAlongYAxis(x, p.y, delta.y, halfExtent, bounds, walls);
    return Position(x, y);
  }

  // A round bullet and its point of impact.

  predicate IsCircleOutsideWorldBounds(x: real, y: real, radius: real, bounds: WorldBounds) {
    x < bounds.minX + radius || x > bounds.maxX - radius || y < bounds.minY + radius || y > bounds.maxY - radius
  }

  predicate IsCircleCollidingWithWall(x: real, y: real, radius: real, wall: WallRect) {
    var deltaX, deltaY := x - Clamp(x, wall.minX, wall.maxX), y - Clamp(y, wall.minY, wall.maxY);
    deltaX * deltaX + deltaY * deltaY <= radius * radius
  }

  predicate IsCircleCollidingWithAnyWall(x: real, y: real, radius: real, walls: seq<WallRect>) {
    exists i :: 0 <= i < |walls| && IsCircleCollidingWithWall(x, y, radius, walls[i])
  }

  predicate IsCircleCollidingWithWorldOrWalls(p: Position, radius: real, bounds: WorldBounds, walls: seq<WallRect>) {
    IsCircleOutsideWorldBounds(p.x, p.y, radius, bounds) || IsCircleCollidingWithAnyWall(p.x, p.y, radius, walls)
  }

  function Square(a: real): real {
    a * a
  }

  function DistanceSquared(p: Position, q: Position): real {
    Square(p.x - q.x) + Square(p.y - q.y)
  }

  lemma CloserIsSmaller(a: real, b: real)
    requires 0.0 <= a <= b || b <= a <= 0.0
    ensures Square(a) <= Square(b)
  {
  }

  lemma ClampIsNearest(v: real, low: real, high: real, w: real)
    requires low <= w <= high
    ensures Square(v - Clamp(v, low, high)) <= Square(v - w)
  {
    CloserIsSmaller(v - Clamp(v, low, high), v - w);
  }

  predicate IsInWall(q: Position, wall: WallRect) {
    wall.minX <= q.x <= wall.maxX && wall.minY <= q.y <= wall.maxY
  }

  /** A bullet touches a wall exactly if some point of the wall lies within its radius. */
  lemma CircleTouchesWallIff(p: Position, radius: real, wall: WallRect)
    requires wall.minX <= wall.maxX && wall.minY <= wall.maxY
    ensures IsCircleCollidingWithWall(p.x, p.y, radius, wall) <==> exists q :: IsInWall(q, wall) && DistanceSquared(p, q) <= Square(radius)
  {
    var nearest := Position(Clamp(p.x, wall.minX, wall.maxX), Clamp(p.y, wall.minY, wall.maxY));
    assert IsInWall(nearest, wall) && (IsCircleCollidingWithWall(p.x, p.y, radius, wall) <==> DistanceSquared(p, nearest) <= Square(radius));
    forall q | IsInWall(q, wall)
      ensures DistanceSquared(p, nearest) <= DistanceSquared(p, q)
    {
      ClampIsNearest(p.x, wall.minX, wall.maxX, q.x);
      ClampIsNearest(p.y, wall.minY, wall.maxY, q.y);
    }
  }

  const BISECTION_STEPS := 12

  function PointAt(start: Position, end: Position, fraction: real): Position {
    Position(start.x + (end.x - start.x) * fraction, start.y + (end.y - start.y) * fraction)
  }

  /** `steps` halvings of [left, right], keeping a collision at the right end. */
  function Bisected(
      start: Position, end: Position, radius: real, bounds: WorldBounds, walls: seq<WallRect>, left: real, right: real,
      steps: nat)
    : (real, real)
    decreases steps
  {
    if steps == 0 then (left, right)
    else
      var mid := (left + right) / 2.0;
      if IsCircleCollidingWithWorldOrWalls(PointAt(start, end, mid), radius, bounds, walls)
      then Bisected(start, end, radius, bounds, walls, left, mid, steps - 1)
      else Bisected(start, end, radius, bounds, walls, mid, right, steps - 1)
  }

  function ImpactPosition(start: Position, end: Position, radius: real, bounds: WorldBounds, walls: seq<WallRect>): Position {
    if !IsCircleCollidingWithWorldOrWalls(end, radius, bounds, walls) then end
    else PointAt(start, end, Bisected(start, end, radius, bounds, walls, 0.0, 1.0, BISECTION_STEPS).1)
  }

  function Halved(width: real, times: nat): real
    decreases times
  {
    if times == 0 then width else Halved(width / 2.0, times - 1)
  }

  lemma {:induction false} BisectionBrackets(
      start: Position, end: Position, radius: real, bounds: WorldBounds, walls: seq<WallRect>, left: real, right: real, steps: nat)
    requires IsCircleCollidingWithWorldOrWalls(PointAt(start, end, right), radius, bounds, walls) && left < right
    ensures var (l, r) := Bisected(start, end, radius, bounds, walls, left, right, steps);
            && left <= l < r <= right && r - l == Halved(right - left, steps)
            && IsCircleCollidingWithWorldOrWalls(PointAt(start, end, r), radius, bounds, walls)
            && (l == left || !IsCircleCollidingWithWorldOrWalls(PointAt(start, end, l), radius, bounds, walls))
    decreases steps
  {
    if steps > 0 {
      var mid := (left + right) / 2.0;
      if IsCircleCollidingWithWorldOrWalls(PointAt(start, end, mid), radius, bounds, walls) {
        BisectionBrackets(start, end, radius, bounds, walls, left, mid, steps - 1);
      } else {
        BisectionBrackets(start, end, radius, bounds, walls, mid, right, steps - 1);
      }
    }
  }

  lemma BracketedContact(start: Position, end: Position, radius: real, bounds: WorldBounds, walls: seq<WallRect>, steps: nat)
    returns (fraction: real)
    requires IsCircleCollidingWithWorldOrWalls(end, radius, bounds, walls)
    ensures fraction == Bisected(start, end, radius, bounds, walls, 0.0, 1.0, steps).1
    ensures 0.0 < fraction <= 1.0 && IsCircleCollidingWithWorldOrWalls(PointAt(start, end, fraction), radius, bounds, walls)
    ensures fraction == Halved(1.0, steps)
            || !IsCircleCollidingWithWorldOrWalls(PointAt(start, end, fraction - Halved(1.0, steps)), radius, bounds, walls)
  {
    assert PointAt(start, end, 1.0) == end;
    BisectionBrackets(start, end, radius, bounds, walls, 0.0, 1.0, steps);
    fraction := Bisected(start, end, radius, bounds, walls, 0.0, 1.0, steps).1;
  }

  /** When the end of a bullet's move collides, the impact reported is a colliding point of the segment,
      and a point free of collision, or the start, lies within 1/4096 of the segment before it. */
  lemma ImpactIsNearFirstContact(
      start: Position, end: Position, radius: real, bounds: WorldBounds, walls: seq<WallRect>) returns (fraction: real)
    requires IsCircleCollidingWithWorldOrWalls(end, radius, bounds, walls)
    ensures 0.0 < fraction <= 1.0 && ImpactPosition(start, end, radius, bounds, walls) == PointAt(start, end, fraction)
    ensures IsCircleCollidingWithWorldOrWalls(PointAt(start, end, fraction), radius, bounds, walls)
    ensures fraction == 1.0 / 4096.0 || !IsCircleCollidingWithWorldOrWalls(PointAt(start, end, fraction - 1.0 / 4096.0), radius, bounds, walls)
  {
    fraction := BracketedContact(start, end, radius, bounds, walls, BISECTION_STEPS);
    assert Halved(1.0, BISECTION_STEPS) == 1.0 / 4096.0;
  }

  method FindCircleImpactPosition(
      start: Position, end: Position, radius: real, bounds: WorldBounds, walls: seq<WallRect>) returns (impact: Position)
    ensures impact == ImpactPosition(start, end, radius, bounds, walls)
  {
    hide PointAt, IsCircleCollidingWithWorldOrWalls;
    if !IsCircleCollidingWithWorldOrWalls(end, radius, bounds, walls) {
      return end;
    }
    var left, right := 0.0, 1.0;
    ghost var bracket := Bisected(start, end, radius, bounds, walls, left, right, BISECTION_STEPS);
    for iteration := 0 to BISECTION_STEPS
      invariant Bisected(start, end, radius, bounds, walls, left, right, BISECTION_STEPS - iteration) == bracket
    {
      var mid := (left + right) / 2.0;
      if IsCircleCollidingWithWorldOrWalls(PointAt(start, end, mid), radius, bounds, walls) {
        right := mid;
      } else {
        left := mid;
      }
    }
    return PointAt(start, end, right);
  }
}
