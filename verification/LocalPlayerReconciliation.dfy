// The client's own player: predicted from its inputs, and checked against the server by replaying the
// inputs the server had not seen (Client/Game/LocalPlayerPrediction.cpp, LocalPlayerReconciliation.cpp).

module LocalPlayerReconciliation {
  import opened GameIds
  import opened SequenceNumber
  import opened WorldCollision
  import opened RoomLayout
  import opened GameWorld
  import opened Arena

  const MAX_PENDING_INPUT_COUNT := 256
  const CORRECTION_IGNORE_DISTANCE := 2.0
  const CORRECTION_HARD_SNAP_DISTANCE := 160.0
  const RENDER_CORRECTION_MAX_OFFSET := 96.0

  const ORIGIN := Position(0.0, 0.0)

  // Moving, as the server does.

  /** Where an input takes a player from a position, in a time, at a speed, in a room. */
  type Mover = (Position, InputFlags, real, real, RoomId) -> Position

  function StepOf(directions: Directions, flags: InputFlags, dt: real, speed: real): Position {
    var d, distance := directions.moveDirection(flags), speed * dt;
    Position(d.x * distance, d.y * distance)
  }

  function GamePosition(directions: Directions, p: Position, flags: InputFlags, dt: real, speed: real, roomId: RoomId): Position {
    Moved(p, StepOf(directions, flags, dt, speed), PLAYER_HALF_EXTENT, DEFAULT_WORLD_BOUNDS, WallRectListForRoom(roomId))
  }

  function GameMover(directions: Directions): Mover {
    (p: Position, flags: InputFlags, dt: real, speed: real, roomId: RoomId) => GamePosition(directions, p, flags, dt, speed, roomId)
  }

  /** The client moves its player by the very rule by which the server moves it. */
  lemma ClientMovesAsServer(directions: Directions, p: PlayerState, roomId: RoomId, dt: real)
    ensures GameMover(directions)(p.position, p.inputFlags, dt, p.moveSpeed, roomId) == GameArena(directions).moved(p, roomId, dt)
  {
  }

  datatype Prediction = Prediction(position: Position, isInitialized: bool)

  datatype PendingInput = PendingInput(sequence: SequenceNumber, inputFlags: InputFlags, deltaSeconds: real)

  function InputApplied(p: Prediction, move: Mover, flags: InputFlags, dt: real, speed: real, roomId: RoomId): Prediction {
    if !p.isInitialized || dt <= 0.0 || speed <= 0.0 then p
    else Prediction(move(p.position, flags, dt, speed, roomId), true)
  }

  function Replayed(p: Prediction, move: Mover, inputs: seq<PendingInput>, speed: real, roomId: RoomId): Prediction {
    if inputs == [] then p
    else
      var last := inputs[|inputs| - 1];
      InputApplied(Replayed(p, move, inputs[..|inputs| - 1], speed, roomId), move, last.inputFlags, last.deltaSeconds, speed, roomId)
  }

  lemma {:induction false} ReplayInTwoParts(
      p: Prediction, move: Mover, first: seq<PendingInput>, second: seq<PendingInput>, speed: real, roomId: RoomId)
    ensures Replayed(p, move, first + second, speed, roomId) == Replayed(Replayed(p, move, first, speed, roomId), move, second, speed, roomId)
  {
    if second == [] {
      assert first + second == first;
    } else {
      var earlier := second[..|second| - 1];
      assert (first + second)[..|first + second| - 1] == first + earlier;
      ReplayInTwoParts(p, move, first, earlier, speed, roomId);
    }
  }

  lemma {:induction false} ReplayStaysInitialized(
      p: Prediction, move: Mover, inputs: seq<PendingInput>, speed: real, roomId: RoomId)
    ensures Replayed(p, move, inputs, speed, roomId).isInitialized == p.isInitialized
  {
    if inputs != [] {
      ReplayStaysInitialized(p, move, inputs[..|inputs| - 1], speed, roomId);
    }
  }

  // Reconciling.

  datatype Reconciler = Reconciler(pending: seq<PendingInput>, offset: Position, isHistoryValid: bool)

  const FRESH := Reconciler([], ORIGIN, true)

  function Recorded(r: Reconciler, sequence: SequenceNumber, flags: InputFlags, dt: real): Reconciler {
    if dt <= 0.0 || !r.isHistoryValid then r
    else if |r.pending| >= MAX_PENDING_INPUT_COUNT then r.(pending := [], isHistoryValid := false)
    else r.(pending := r.pending + [PendingInput(sequence, flags, dt)])
  }

  function Discarded(pending: seq<PendingInput>, processed: SequenceNumber): seq<PendingInput> {
    if pending != [] && IsSequenceOlderOrEqual(pending[0].sequence, processed) then Discarded(pending[1..], processed) else pending
  }

  function LengthSquared(p: Position): real {
    p.x * p.x + p.y * p.y
  }

  function Minus(a: Position, b: Position): Position {
    Position(a.x - b.x, a.y - b.y)
  }

  function Plus(a: Position, b: Position): Position {
    Position(a.x + b.x, a.y + b.y)
  }

  /** The square root, of which nothing but its defining property is used. */
  type Root = real -> real

  ghost predicate IsRoot(root: Root) {
    forall v :: v >= 0.0 ==> root(v) >= 0.0 && root(v) * root(v) == v
  }

  function ClampedVector(p: Position, maxLength: real, root: Root): Position {
    if LengthSquared(p) <= maxLength * maxLength then p
    else
      var length := root(LengthSquared(p));
      if length <= 0.0 then ORIGIN else Position(p.x * (maxLength / length), p.y * (maxLength / length))
  }

  function Reconciled(
      r: Reconciler, prediction: Prediction, authoritative: Position, processed: SequenceNumber, move: Mover, root: Root, speed: real, roomId: RoomId)
    : (Reconciler, Prediction)
  {
    if !r.isHistoryValid then (FRESH, Prediction(authoritative, true))
    else
      var r' := r.(pending := Discarded(r.pending, processed));
      var position := Replayed(Prediction(authoritative, true), move, r'.pending, speed, roomId).position;
      if !prediction.isInitialized then (r'.(offset := ORIGIN), Prediction(position, true))
      else
        var distanceSquared := LengthSquared(Minus(position, prediction.position));
        if distanceSquared <= CORRECTION_IGNORE_DISTANCE * CORRECTION_IGNORE_DISTANCE then (r', prediction)
        else if distanceSquared >= CORRECTION_HARD_SNAP_DISTANCE * CORRECTION_HARD_SNAP_DISTANCE then (r'.(offset := ORIGIN), Prediction(position, true))
        else
          var offset := Plus(r.offset, Minus(prediction.position, position));
          (r'.(offset := ClampedVector(offset, RENDER_CORRECTION_MAX_OFFSET, root)), Prediction(position, true))
  }

  /** What the player sees. */
  function Rendered(r: Reconciler, prediction: Prediction): Position {
    Plus(prediction.position, r.offset)
  }

  /** The offset of a reconciler never grows beyond its bound. */
  predicate IsBounded(r: Reconciler) {
    && |r.pending| <= MAX_PENDING_INPUT_COUNT && (!r.isHistoryValid ==> r.pending == [])
    && LengthSquared(r.offset) <= RENDER_CORRECTION_MAX_OFFSET * RENDER_CORRECTION_MAX_OFFSET
  }

  lemma {:induction false} DiscardedIsSuffix(pending: seq<PendingInput>, processed: SequenceNumber)
    ensures |Discarded(pending, processed)| <= |pending|
  {
    if pending != [] && IsSequenceOlderOrEqual(pending[0].sequence, processed) {
      DiscardedIsSuffix(pending[1..], processed);
    }
  }

  function ScaledSquare(square: real, scale: real): real {
    scale * scale * square
  }

  lemma ScaledLength(p: Position, scale: real, scaled: Position)
    requires scaled == Position(p.x * scale, p.y * scale)
    ensures LengthSquared(scaled) == ScaledSquare(LengthSquared(p), scale)
  {
  }

  lemma ScaledToLength(m: real, length: real)
    requires length > 0.0
    ensures ScaledSquare(length * length, m / length) == m * m
  {
    var q := m / length;
    assert q * length == m;
    assert q * q * (length * length) == (q * length) * (q * length);
  }

  lemma ClampedIsShort(p: Position, maxLength: real, root: Root)
    requires IsRoot(root) && maxLength >= 0.0
    ensures LengthSquared(ClampedVector(p, maxLength, root)) <= maxLength * maxLength
  {
    SquareIsNonNegative(maxLength);
    OriginIsShort();
    hide LengthSquared, ScaledSquare;
    if LengthSquared(p) > maxLength * maxLength {
      var length := root(LengthSquared(p));
      assert length * length == LengthSquared(p);
      if length > 0.0 {
        ScaledLength(p, maxLength / length, ClampedVector(p, maxLength, root));
        ScaledToLength(maxLength, length);
      }
    }
  }

  /** A vector that is too long keeps its direction and gets the greatest length; a shorter one stays as it is. */
  lemma ClampedIsScaled(p: Position, maxLength: real, root: Root) returns (scale: real)
    requires IsRoot(root) && maxLength > 0.0
    ensures 0.0 < scale <= 1.0 && ClampedVector(p, maxLength, root) == Position(p.x * scale, p.y * scale)
    ensures LengthSquared(p) <= maxLength * maxLength ==> scale == 1.0
    ensures LengthSquared(p) > maxLength * maxLength ==> LengthSquared(ClampedVector(p, maxLength, root)) == maxLength * maxLength
  {
    hide LengthSquared, ScaledSquare;
    if LengthSquared(p) <= maxLength * maxLength {
      scale := 1.0;
    } else {
      var length := root(LengthSquared(p));
      SquareIsNonNegative(maxLength);
      assert length * length == LengthSquared(p);
      LongerSquare(length, maxLength);
      scale := maxLength / length;
      ScaledLength(p, scale, ClampedVector(p, maxLength, root));
      ScaledToLength(maxLength, length);
    }
  }

  lemma LongerSquare(length: real, maxLength: real)
    requires length >= 0.0 && maxLength > 0.0 && length * length > maxLength * maxLength
    ensures length > maxLength && 0.0 < maxLength / length <= 1.0
  {
    if length <= maxLength {
      ProductsGrow(length, maxLength);
    }
    QuotientIsSmall(maxLength, length);
  }

  lemma ProductsGrow(a: real, b: real)
    requires 0.0 <= a <= b
    ensures a * a <= b * b
  {
  }

  lemma QuotientIsSmall(a: real, b: real)
    requires 0.0 < a <= b
    ensures 0.0 < a / b <= 1.0
  {
  }

  lemma SquareIsNonNegative(a: real)
    ensures a * a >= 0.0
  {
  }

  lemma OriginIsShort()
    ensures LengthSquared(ORIGIN) == 0.0
  {
  }

  /** Recording and reconciling keep the list and the offset bounded. */
  lemma StepsKeepBounded(
      r: Reconciler, prediction: Prediction, authoritative: Position, sequence: SequenceNumber, move: Mover, root: Root,
      flags: InputFlags, dt: real, speed: real, roomId: RoomId)
    requires IsBounded(r) && IsRoot(root)
    ensures IsBounded(Recorded(r, sequence, flags, dt))
    ensures IsBounded(Reconciled(r, prediction, authoritative, sequence, move, root, speed, roomId).0)
  {
    hide IsRoot, Replayed;
    DiscardedIsSuffix(r.pending, sequence);
    var position := Replayed(Prediction(authoritative, true), move, Discarded(r.pending, sequence), speed, roomId).position;
    ClampedIsShort(Plus(r.offset, Minus(prediction.position, position)), RENDER_CORRECTION_MAX_OFFSET, root);
    hide ClampedVector;
  }

  /** A correction moves the prediction without moving what the player sees, as long as it is short of a
      snap and the accumulated offset within its bound. */
  lemma CorrectionIsInvisible(
      r: Reconciler, prediction: Prediction, authoritative: Position, processed: SequenceNumber, move: Mover, root: Root, speed: real, roomId: RoomId)
    requires r.isHistoryValid && prediction.isInitialized
    ensures var position := Replayed(Prediction(authoritative, true), move, Discarded(r.pending, processed), speed, roomId).position;
            var (r', prediction') := Reconciled(r, prediction, authoritative, processed, move, root, speed, roomId);
            LengthSquared(Minus(position, prediction.position)) < CORRECTION_HARD_SNAP_DISTANCE * CORRECTION_HARD_SNAP_DISTANCE
            && LengthSquared(Plus(r.offset, Minus(prediction.position, position))) <= RENDER_CORRECTION_MAX_OFFSET * RENDER_CORRECTION_MAX_OFFSET
            ==> Rendered(r', prediction') == Rendered(r, prediction)
  {
    hide LengthSquared, Replayed;
  }

  predicate AreWithin(p: Position, q: Position, distance: real) {
    LengthSquared(Minus(p, q)) <= distance * distance
  }

  /** What a snapshot leaves is where the server's position takes the player under the inputs it had not processed, to within the ignored
      distance. A prediction that close is kept with its offset. Any other is replaced: from far away, or on first sight, it is shown at
      once, and else the old picture is kept by an offset in the direction of the error, as long as the bound allows. */
  lemma ReconcilingFollowsServer(
      r: Reconciler, prediction: Prediction, authoritative: Position, processed: SequenceNumber, move: Mover, root: Root, speed: real, roomId: RoomId)
    requires r.isHistoryValid && IsRoot(root)
    ensures var replayed := Replayed(Prediction(authoritative, true), move, Discarded(r.pending, processed), speed, roomId).position;
            var (r', prediction') := Reconciled(r, prediction, authoritative, processed, move, root, speed, roomId);
            && r'.isHistoryValid && r'.pending == Discarded(r.pending, processed)
            && prediction'.isInitialized && AreWithin(replayed, prediction'.position, CORRECTION_IGNORE_DISTANCE)
            && if prediction.isInitialized && AreWithin(replayed, prediction.position, CORRECTION_IGNORE_DISTANCE) then
                 prediction' == prediction && r'.offset == r.offset
               else
                 && prediction'.position == replayed
                 && if prediction.isInitialized && LengthSquared(Minus(replayed, prediction.position)) < CORRECTION_HARD_SNAP_DISTANCE * CORRECTION_HARD_SNAP_DISTANCE
                    then IsKeptPicture(Minus(Rendered(r, prediction), replayed), r'.offset)
                    else Rendered(r', prediction') == replayed
  {
    hide LengthSquared, Replayed, Discarded, ClampedVector, IsKeptPicture, IsRoot;
    var replayed := Replayed(Prediction(authoritative, true), move, Discarded(r.pending, processed), speed, roomId).position;
    OriginIsShort();
    assert Minus(replayed, replayed) == ORIGIN;
    var offset := Plus(r.offset, Minus(prediction.position, replayed));
    assert offset == Minus(Rendered(r, prediction), replayed);
    OffsetKeepsPicture(offset, root);
  }

  lemma OffsetKeepsPicture(back: Position, root: Root)
    requires IsRoot(root)
    ensures IsKeptPicture(back, ClampedVector(back, RENDER_CORRECTION_MAX_OFFSET, root))
  {
    hide LengthSquared, IsRoot;
    var scale := ClampedIsScaled(back, RENDER_CORRECTION_MAX_OFFSET, root);
    assert IsScaled(back, ClampedVector(back, RENDER_CORRECTION_MAX_OFFSET, root), scale);
    hide ClampedVector;
  }

  predicate IsScaled(p: Position, q: Position, scale: real) {
    0.0 < scale <= 1.0 && q == Position(p.x * scale, p.y * scale)
  }

  /** The offset leads back to the old picture, in whole if it is no longer than the bound, else by just the bound. */
  ghost predicate IsKeptPicture(back: Position, offset: Position) {
    var bound := RENDER_CORRECTION_MAX_OFFSET * RENDER_CORRECTION_MAX_OFFSET;
    && (exists scale :: IsScaled(back, offset, scale))
    && if LengthSquared(back) <= bound then offset == back else LengthSquared(offset) == bound
  }

  // A client whose server agrees with it.

  /** The inputs made so far, numbered from one. */
  predicate AreNumbered(inputs: seq<PendingInput>) {
    forall i :: 0 <= i < |inputs| ==> inputs[i].sequence == Wrap(i + 1) && inputs[i].deltaSeconds > 0.0
  }

  /** The client has predicted all `inputs` from `start`, holds those the server had not processed when it last
      reconciled, and has never had to correct itself. */
  ghost predicate IsInStep(
      r: Reconciler, prediction: Prediction, start: Position, inputs: seq<PendingInput>, processed: nat, move: Mover, speed: real, roomId: RoomId) {
    && AreNumbered(inputs) && processed <= |inputs|
    && r == Reconciler(inputs[processed..], ORIGIN, true)
    && prediction == Replayed(Prediction(start, true), move, inputs, speed, roomId)
  }

  lemma {:induction false} DiscardsExactlyTheProcessed(inputs: seq<PendingInput>, from: nat, processed: nat)
    requires AreNumbered(inputs) && from <= processed <= |inputs| <= from + MAX_PENDING_INPUT_COUNT
    ensures Discarded(inputs[from..], Wrap(processed)) == inputs[processed..]
    decreases processed - from
  {
    if from < |inputs| {
      NewerIsGreater(from + 1, processed);
      assert inputs[from..][1..] == inputs[from + 1..];
      if from < processed {
        DiscardsExactlyTheProcessed(inputs, from + 1, processed);
      }
    }
  }

  lemma RecordingStaysInStep(
      r: Reconciler, prediction: Prediction, start: Position, inputs: seq<PendingInput>, processed: nat, move: Mover, speed: real, roomId: RoomId,
      flags: InputFlags, dt: real)
    requires IsInStep(r, prediction, start, inputs, processed, move, speed, roomId) && dt > 0.0
    requires |inputs| < processed + MAX_PENDING_INPUT_COUNT
    ensures var input := PendingInput(Wrap(|inputs| + 1), flags, dt);
            IsInStep(Recorded(r, input.sequence, flags, dt), InputApplied(prediction, move, flags, dt, speed, roomId),
                     start, inputs + [input], processed, move, speed, roomId)
  {
    hide InputApplied;
    var longer := inputs + [PendingInput(Wrap(|inputs| + 1), flags, dt)];
    assert longer[..|longer| - 1] == inputs;
    assert longer[processed..] == inputs[processed..] + [longer[|inputs|]];
  }

  /** One more input keeps the client in step exactly while the list has room for it. */
  lemma RecordingStaysInStepIff(
      r: Reconciler, prediction: Prediction, start: Position, inputs: seq<PendingInput>, processed: nat, move: Mover, speed: real, roomId: RoomId,
      flags: InputFlags, dt: real)
    requires IsInStep(r, prediction, start, inputs, processed, move, speed, roomId) && dt > 0.0
    requires |inputs| <= processed + MAX_PENDING_INPUT_COUNT
    ensures var input := PendingInput(Wrap(|inputs| + 1), flags, dt);
            IsInStep(Recorded(r, input.sequence, flags, dt), InputApplied(prediction, move, flags, dt, speed, roomId),
                     start, inputs + [input], processed, move, speed, roomId)
            <==> |inputs| < processed + MAX_PENDING_INPUT_COUNT
  {
    if |inputs| < processed + MAX_PENDING_INPUT_COUNT {
      RecordingStaysInStep(r, prediction, start, inputs, processed, move, speed, roomId, flags, dt);
    }
  }

  /** An input that takes no time is neither recorded nor predicted, and nothing is predicted without a position or a speed. */
  lemma PausesAreIgnored(
      r: Reconciler, prediction: Prediction, sequence: SequenceNumber, move: Mover, flags: InputFlags, dt: real, speed: real, roomId: RoomId)
    ensures dt <= 0.0 ==> Recorded(r, sequence, flags, dt) == r
    ensures dt <= 0.0 || speed <= 0.0 || !prediction.isInitialized ==> InputApplied(prediction, move, flags, dt, speed, roomId) == prediction
  {
  }

  /** After an input too many the next snapshot is shown as it is, whatever the client had predicted beyond it. */
  lemma OverflowSnapsToServer(
      r: Reconciler, prediction: Prediction, start: Position, inputs: seq<PendingInput>, processed: nat, move: Mover, root: Root, speed: real,
      roomId: RoomId, flags: InputFlags, dt: real, authoritative: Position, k: SequenceNumber)
    requires IsInStep(r, prediction, start, inputs, processed, move, speed, roomId) && dt > 0.0
    requires |inputs| == processed + MAX_PENDING_INPUT_COUNT
    ensures var (r', prediction') := Reconciled(Recorded(r, Wrap(|inputs| + 1), flags, dt), InputApplied(prediction, move, flags, dt, speed, roomId),
                                                authoritative, k, move, root, speed, roomId);
            r' == FRESH && Rendered(r', prediction') == authoritative
  {
  }

  /** The server's word on the first `k` inputs, not older than its last word, changes neither prediction nor offset. */
  lemma ReconcilingStaysInStep(
      r: Reconciler, prediction: Prediction, start: Position, inputs: seq<PendingInput>, processed: nat, move: Mover, root: Root, speed: real, roomId: RoomId,
      k: nat)
    requires IsInStep(r, prediction, start, inputs, processed, move, speed, roomId) && processed <= k <= |inputs|
    requires |inputs| <= processed + MAX_PENDING_INPUT_COUNT
    ensures var authoritative := Replayed(Prediction(start, true), move, inputs[..k], speed, roomId).position;
            var (r', prediction') := Reconciled(r, prediction, authoritative, Wrap(k), move, root, speed, roomId);
            && prediction' == prediction && r'.offset == r.offset
            && IsInStep(r', prediction', start, inputs, k, move, speed, roomId)
  {
    hide Replayed, AreNumbered, Discarded, LengthSquared, ClampedVector;
    DiscardsExactlyTheProcessed(inputs, processed, k);
    assert inputs == inputs[..k] + inputs[k..];
    ReplayInTwoParts(Prediction(start, true), move, inputs[..k], inputs[k..], speed, roomId);
    ReplayStaysInitialized(Prediction(start, true), move, inputs[..k], speed, roomId);
    ReplayStaysInitialized(Prediction(start, true), move, inputs, speed, roomId);
    var authoritative := Replayed(Prediction(start, true), move, inputs[..k], speed, roomId).position;
    assert Replayed(Prediction(start, true), move, inputs[..k], speed, roomId) == Prediction(authoritative, true);
    OriginIsShort();
    assert Minus(prediction.position, prediction.position) == ORIGIN;
  }

  datatype Event = Press(flags: InputFlags, dt: real) | Snapshot(processed: nat)

  datatype Play = Play(reconciler: Reconciler, prediction: Prediction, inputs: seq<PendingInput>, processed: nat)

  /** The client records and predicts what it presses, and reconciles when a snapshot arrives whose position is that of
      the server after the first `processed` inputs. */
  function After(play: Play, start: Position, event: Event, move: Mover, root: Root, speed: real, roomId: RoomId): Play
    requires event.Snapshot? ==> event.processed <= |play.inputs|
  {
    match event
    case Press(flags, dt) =>
      if dt <= 0.0 then play
      else
        var input := PendingInput(Wrap(|play.inputs| + 1), flags, dt);
        play.(reconciler := Recorded(play.reconciler, input.sequence, flags, dt),
              prediction := InputApplied(play.prediction, move, flags, dt, speed, roomId),
              inputs := play.inputs + [input])
    case Snapshot(k) =>
      var authoritative := Replayed(Prediction(start, true), move, play.inputs[..k], speed, roomId).position;
      var (r, prediction) := Reconciled(play.reconciler, play.prediction, authoritative, Wrap(k), move, root, speed, roomId);
      play.(reconciler := r, prediction := prediction, processed := k)
  }

  /** A snapshot is of inputs already made and not older than the last one, and the unconfirmed inputs fit the list. */
  predicate IsEnabled(play: Play, event: Event) {
    match event
    case Press(_, dt) => dt <= 0.0 || |play.inputs| < play.processed + MAX_PENDING_INPUT_COUNT
    case Snapshot(k) => play.processed <= k <= |play.inputs|
  }

  ghost predicate IsRun(
      plays: seq<Play>, events: seq<Event>, start: Position, move: Mover, root: Root, speed: real, roomId: RoomId) {
    && |plays| == |events| + 1 && plays[0] == Play(FRESH, Prediction(start, true), [], 0)
    && forall i :: 0 <= i < |events| ==>
         IsEnabled(plays[i], events[i]) && plays[i + 1] == After(plays[i], start, events[i], move, root, speed, roomId)
  }

  /** Client replay agrees: however long it plays and however late snapshots come, a client whose inputs the server
      processes in order is never corrected; what it shows is always the replay of all its inputs. */
  lemma {:induction false} ClientIsNeverCorrected(
      plays: seq<Play>, events: seq<Event>, start: Position, move: Mover, root: Root, speed: real, roomId: RoomId, n: nat)
    requires IsRun(plays, events, start, move, root, speed, roomId) && n < |plays|
    ensures IsInStep(plays[n].reconciler, plays[n].prediction, start, plays[n].inputs, plays[n].processed, move, speed, roomId)
    ensures |plays[n].inputs| <= plays[n].processed + MAX_PENDING_INPUT_COUNT
    ensures Rendered(plays[n].reconciler, plays[n].prediction)
         == Replayed(Prediction(start, true), move, plays[n].inputs, speed, roomId).position
  {
    hide IsInStep, Replayed, Recorded, Reconciled, InputApplied, Rendered;
    if n == 0 {
      FreshIsInStep(start, move, speed, roomId);
    } else {
      var play := plays[n - 1];
      ClientIsNeverCorrected(plays, events, start, move, root, speed, roomId, n - 1);
      match events[n - 1] {
        case Press(flags, dt) =>
          if dt > 0.0 {
            RecordingStaysInStep(play.reconciler, play.prediction, start, play.inputs, play.processed, move, speed, roomId, flags, dt);
          }
        case Snapshot(k) =>
          ReconcilingStaysInStep(play.reconciler, play.prediction, start, play.inputs, play.processed, move, root, speed, roomId, k);
      }
    }
    InStepShowsReplay(plays[n].reconciler, plays[n].prediction, start, plays[n].inputs, plays[n].processed, move, speed, roomId);
  }

  lemma FreshIsInStep(start: Position, move: Mover, speed: real, roomId: RoomId)
    ensures IsInStep(FRESH, Prediction(start, true), start, [], 0, move, speed, roomId)
  {
  }

  lemma InStepShowsReplay(
      r: Reconciler, prediction: Prediction, start: Position, inputs: seq<PendingInput>, processed: nat, move: Mover, speed: real, roomId: RoomId)
    requires IsInStep(r, prediction, start, inputs, processed, move, speed, roomId)
    ensures Rendered(r, prediction) == Replayed(Prediction(start, true), move, inputs, speed, roomId).position
  {
    hide Replayed;
  }

  // The prediction and the reconciliation over their fields.

  class LocalPlayerPrediction {
    var position: Position
    var isInitialized: bool

    function View(): Prediction
      reads this
    {
      Prediction(position, isInitialized)
    }

    constructor ()
      ensures View() == Prediction(ORIGIN, false)
    {
      position, isInitialized := ORIGIN, false;
    }

    method Clear()
      modifies this
      ensures View() == Prediction(ORIGIN, false)
    {
      position, isInitialized := ORIGIN, false;
    }

    method Reset(position: Position)
      modifies this
      ensures View() == Prediction(position, true)
    {
      this.position, isInitialized := position, true;
    }

    method ApplyInput(inputFlags: InputFlags, deltaSeconds: real, moveSpeed: real, roomId: RoomId, directions: Directions)
      modifies this
      ensures View() == InputApplied(old(View()), GameMover(directions), inputFlags, deltaSeconds, moveSpeed, roomId)
    {
      if !isInitialized || deltaSeconds <= 0.0 || moveSpeed <= 0.0 {
        return;
      }
      hide StepOf, Moved;
      assert GameMover(directions)(position, inputFlags, deltaSeconds, moveSpeed, roomId)
          == GamePosition(directions, position, inputFlags, deltaSeconds, moveSpeed, roomId);
      position := MovePlayerWithWallCollision(
        position, StepOf(directions, inputFlags, deltaSeconds, moveSpeed), PLAYER_HALF_EXTENT, DEFAULT_WORLD_BOUNDS, WallRectListForRoom(roomId));
    }
  }

  class LocalPlayerReconciliation {
    var pendingInputList: seq<PendingInput>
    var renderCorrectionOffset: Position
    var isHistoryValid: bool

    function View(): Reconciler
      reads this
    {
      Reconciler(pendingInputList, renderCorrectionOffset, isHistoryValid)
    }

    constructor ()
      ensures View() == FRESH
    {
      pendingInputList, renderCorrectionOffset, isHistoryValid := [], ORIGIN, true;
    }

    method Clear()
      modifies this
      ensures View() == FRESH
    {
      pendingInputList, renderCorrectionOffset, isHistoryValid := [], ORIGIN, true;
    }

    method RecordPendingInput(inputSequence: SequenceNumber, inputFlags: InputFlags, deltaSeconds: real)
      modifies this
      ensures View() == Recorded(old(View()), inputSequence, inputFlags, deltaSeconds)
    {
      if deltaSeconds <= 0.0 || !isHistoryValid {
        return;
      }
      if |pendingInputList| >= MAX_PENDING_INPUT_COUNT {
        pendingInputList := [];
        isHistoryValid := false;
        return;
      }
      pendingInputList := pendingInputList + [PendingInput(inputSequence, inputFlags, deltaSeconds)];
    }

    method DiscardProcessedInputs(lastProcessedInputSequence: SequenceNumber)
      modifies this
      ensures View() == old(View()).(pending := Discarded(old(pendingInputList), lastProcessedInputSequence))
    {
      while |pendingInputList| > 0 && IsSequenceOlderOrEqual(pendingInputList[0].sequence, lastProcessedInputSequence)
        invariant View() == old(View()).(pending := pendingInputList)
        invariant Discarded(old(pendingInputList), lastProcessedInputSequence) == Discarded(pendingInputList, lastProcessedInputSequence)
        decreases |pendingInputList|
      {
        pendingInputList := pendingInputList[1..];
      }
    }

    /** A fresh prediction fed with the pending inputs. */
    method Replay(authoritative: Position, moveSpeed: real, roomId: RoomId, directions: Directions) returns (position: Position)
      ensures position == Replayed(Prediction(authoritative, true), GameMover(directions), pendingInputList, moveSpeed, roomId).position
    {
      hide GameMover;
      var replayPrediction := new LocalPlayerPrediction();
      replayPrediction.Reset(authoritative);
      for i := 0 to |pendingInputList|
        invariant replayPrediction.View() == Replayed(Prediction(authoritative, true), GameMover(directions), pendingInputList[..i], moveSpeed, roomId)
      {
        assert pendingInputList[..i + 1][..i] == pendingInputList[..i];
        replayPrediction.ApplyInput(pendingInputList[i].inputFlags, pendingInputList[i].deltaSeconds, moveSpeed, roomId, directions);
      }
      assert pendingInputList[..|pendingInputList|] == pendingInputList;
      return replayPrediction.position;
    }

    method Reconcile(
        prediction: LocalPlayerPrediction, authoritative: Position, lastProcessedInputSequence: SequenceNumber,
        moveSpeed: real, roomId: RoomId, directions: Directions, root: Root)
      modifies this, prediction
      ensures (View(), prediction.View())
           == Reconciled(old(View()), old(prediction.View()), authoritative, lastProcessedInputSequence, GameMover(directions), root, moveSpeed, roomId)
    {
      hide GameMover, Replayed, Discarded, LengthSquared, ClampedVector;
      if !isHistoryValid {
        pendingInputList := [];
        prediction.Reset(authoritative);
        renderCorrectionOffset := ORIGIN;
        isHistoryValid := true;
        return;
      }
      DiscardProcessedInputs(lastProcessedInputSequence);
      var reconciled := Replay(authoritative, moveSpeed, roomId, directions);
      if !prediction.isInitialized {
        prediction.Reset(reconciled);
        renderCorrectionOffset := ORIGIN;
        return;
      }
      var oldPredicted := prediction.position;
      var correctionDistanceSquared := LengthSquared(Minus(reconciled, oldPredicted));
      if correctionDistanceSquared <= CORRECTION_IGNORE_DISTANCE * CORRECTION_IGNORE_DISTANCE {
        return;
      }
      prediction.Reset(reconciled);
      if correctionDistanceSquared >= CORRECTION_HARD_SNAP_DISTANCE * CORRECTION_HARD_SNAP_DISTANCE {
        renderCorrectionOffset := ORIGIN;
        return;
      }
      renderCorrectionOffset := Plus(renderCorrectionOffset, Minus(oldPredicted, reconciled));
      renderCorrectionOffset := ClampedVector(renderCorrectionOffset, RENDER_CORRECTION_MAX_OFFSET, root);
    }
  }
}
