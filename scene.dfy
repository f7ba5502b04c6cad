/**
 * The engine's scene record and the rules of the active piece: spawning,
 * rotation and move requests, gravity, and the intents the keyboard sets.
 * Each rule is a function from the scene before to the scene after; the
 * engine's methods are proved to perform exactly these updates.
 */
module Scene {
  import opened Tetrominos
  import opened Playfield
  import opened Input

  /** The scene fields the game logic reads or writes (camera and stroke easing are not modelled). */
  datatype SceneParams = SceneParams(
    drawBackground: bool,
    windowSize: Size,
    sizeChanged: bool,
    /** Move intent per axis, written by the keys and by gravity; i8 in the source. */
    targetPieceX: int,
    targetPieceY: int,
    /** Requested rotation, 0..3. */
    targetTetRot: nat,
    currTetPos: Pos,
    currTetIndex: Tetromino,
    currTetActive: bool,
    currTetRot: nat,
    currTetMatrix: TetroShape,
    speed: real,
    lastDownSecs: real)

  /** The scene Engine::new starts with: a 1024x768 window, no active piece, the empty shape. */
  const INITIAL_SCENE: SceneParams := SceneParams(
    true, Size(1024, 768), true, 0, 0, 0, Pos(0, 0), 0, false, 0, Odd(TETRO_NONE), 1.0, 0.0)

  predicate IsIntent(v: int) { -1 <= v <= 1 }

  /**
   * What every reachable scene satisfies besides ShapeMatches: the kind
   * is one of the table's, rotations are quarter turns 0..3, intents are
   * unit steps, the speed is positive, and the empty kind 0 only occurs,
   * at the origin and inactive, before the first spawn.
   */
  predicate SceneInvariant(s: SceneParams) {
    && s.currTetIndex < TL
    && s.currTetRot < 4
    && s.targetTetRot < 4
    && IsIntent(s.targetPieceX) && IsIntent(s.targetPieceY)
    && s.speed > 0.0
    && (s.currTetIndex == 0 ==> s.currTetPos == Pos(0, 0) && !s.currTetActive)
  }

  /** The stored matrix is the kind's table shape turned by the stored rotation. */
  predicate ShapeMatches(s: SceneParams) {
    s.currTetIndex < |ALL| && s.currTetMatrix == Rotated(ALL[s.currTetIndex], s.currTetRot)
  }

  /** The piece stands on free cells of the board. */
  predicate Legal(s: SceneParams, board: Board) {
    IsFree(s.currTetPos, s.currTetMatrix, board)
  }

  lemma InitialScene()
    ensures SceneInvariant(INITIAL_SCENE) && ShapeMatches(INITIAL_SCENE) && Legal(INITIAL_SCENE, EMPTY_BOARD)
    ensures !INITIAL_SCENE.currTetActive && INITIAL_SCENE.sizeChanged
  {
    TableShapes();
  }

  /**
   * A legal piece in a reachable scene stays inside [-3, 9] x [-3, 15],
   * so adding a unit intent to its i32 position cannot overflow.
   */
  lemma LegalSceneBounded(s: SceneParams, board: Board)
    requires SceneInvariant(s) && ShapeMatches(s) && Legal(s, board)
    ensures -3 <= s.currTetPos.x <= 9 && -3 <= s.currTetPos.y <= 15
  {
    if s.currTetIndex != 0 {
      LegalPieceBounded(s.currTetIndex, s.currTetRot, s.currTetPos, board);
    }
  }

  // ---------------------------------------------------------------------
  // Spawn
  // ---------------------------------------------------------------------

  /** A new piece of kind k at the origin, unrotated and active; the rotation request is kept. */
  function Spawned(s: SceneParams, k: Tetromino): SceneParams
    requires k < |ALL|
  {
    s.(currTetIndex := k, currTetPos := Pos(0, 0), currTetRot := 0,
       currTetMatrix := ALL[k], currTetActive := true)
  }

  function SpawnedIfInactive(s: SceneParams, k: Tetromino): SceneParams
    requires k < |ALL|
  {
    if s.currTetActive then s else Spawned(s, k)
  }

  /**
   * Every kind the generator can draw (1..6, never 7) spawns a reachable
   * scene whose piece is legal on the empty board.
   */
  lemma SpawnIsLegal(s: SceneParams, k: Tetromino)
    requires SceneInvariant(s) && RANGE.Contains(k)
    ensures SceneInvariant(Spawned(s, k)) && ShapeMatches(Spawned(s, k)) && Legal(Spawned(s, k), EMPTY_BOARD)
    ensures Spawned(s, k).currTetIndex != 7
  {
    FreeAtOriginOnEmptyBoard(ALL[k]);
  }

  // ---------------------------------------------------------------------
  // Rotation request
  // ---------------------------------------------------------------------

  /** The shape asked for: the kind's own shape turned to the target rotation. */
  function RotationCandidate(s: SceneParams): TetroShape
    requires s.currTetIndex < |ALL|
  {
    Rotated(ALL[s.currTetIndex], s.targetTetRot)
  }

  predicate RotationCommits(s: SceneParams, board: Board)
    requires s.currTetIndex < |ALL|
  {
    s.currTetRot != s.targetTetRot && IsFree(s.currTetPos, RotationCandidate(s), board)
  }

  /** A pending rotation is taken when the candidate fits, and otherwise the request is withdrawn. */
  function RotationResolved(s: SceneParams, board: Board): SceneParams
    requires s.currTetIndex < |ALL|
  {
    if s.currTetRot == s.targetTetRot then s
    else if IsFree(s.currTetPos, RotationCandidate(s), board) then
      s.(currTetMatrix := RotationCandidate(s), currTetRot := s.targetTetRot)
    else s.(targetTetRot := s.currTetRot)
  }

  /**
   * After resolving there is no pending rotation; the piece turned exactly
   * when the candidate was free, otherwise matrix and rotation are as
   * before; the position and all other fields never change.
   */
  lemma RotationOutcome(s: SceneParams, board: Board)
    requires s.currTetIndex < |ALL|
    ensures var r := RotationResolved(s, board);
      && r.targetTetRot == r.currTetRot
      && (RotationCommits(s, board) ==> r.currTetMatrix == RotationCandidate(s) && r.currTetRot == s.targetTetRot)
      && (!RotationCommits(s, board) ==> r.currTetMatrix == s.currTetMatrix && r.currTetRot == s.currTetRot)
      && r.(currTetMatrix := s.currTetMatrix, currTetRot := s.currTetRot, targetTetRot := s.targetTetRot) == s
  {
  }

  lemma RotationKeepsInvariant(s: SceneParams, board: Board)
    requires SceneInvariant(s) && ShapeMatches(s) && Legal(s, board)
    ensures SceneInvariant(RotationResolved(s, board)) && ShapeMatches(RotationResolved(s, board))
    ensures Legal(RotationResolved(s, board), board)
  {
    var r := RotationResolved(s, board);
    if s.currTetRot == s.targetTetRot {
      assert r == s;
    } else if IsFree(s.currTetPos, RotationCandidate(s), board) {
      assert r == s.(currTetMatrix := RotationCandidate(s), currTetRot := s.targetTetRot);
      assert r.currTetMatrix == Rotated(ALL[r.currTetIndex], r.currTetRot);
    } else {
      assert r == s.(targetTetRot := s.currTetRot);
    }
  }

  /**
   * A spawn resets the rotation but keeps the request, so on the empty
   * board the new piece is turned in the same frame to the requested
   * rotation; after a resolved rotation that is the previous piece's own.
   */
  lemma SpawnTakesPendingRotation(s: SceneParams, k: Tetromino)
    requires !s.currTetActive && k < |ALL|
    ensures var r := RotationResolved(SpawnedIfInactive(s, k), EMPTY_BOARD);
      && r.currTetIndex == k && r.currTetPos == Pos(0, 0)
      && r.currTetRot == s.targetTetRot && r.currTetMatrix == Rotated(ALL[k], s.targetTetRot)
  {
    FreeAtOriginOnEmptyBoard(Rotated(ALL[k], s.targetTetRot));
  }

  // ---------------------------------------------------------------------
  // Gravity and moves
  // ---------------------------------------------------------------------

  /** Seconds between gravity steps at the given speed. */
  function GravityInterval(speed: real): (secs: real)
    requires speed > 0.0
    ensures secs > 0.0
    ensures speed == 1.0 ==> secs == 2.0
  {
    (2000.0 / speed) / 1000.0
  }

  /** Once more than one interval has passed since the last step, request one row down. */
  function Gravity(s: SceneParams, time: real): SceneParams
    requires s.speed > 0.0
  {
    if time - s.lastDownSecs > GravityInterval(s.speed) then
      s.(lastDownSecs := time, targetPieceY := 1)
    else s
  }

  /**
   * The speed timer fires at most once per interval: once gravity has
   * fired at time t, it does not fire again at any time t' that is at
   * most one interval later.
   */
  lemma GravityOncePerInterval(s: SceneParams, t: real, t': real)
    requires s.speed > 0.0
    requires t - s.lastDownSecs > GravityInterval(s.speed) && t' - t <= GravityInterval(s.speed)
    ensures Gravity(Gravity(s, t), t') == Gravity(s, t)
  {
  }

  /**
   * The timer only moves forward: at a time no earlier than the last step
   * it stays or is restarted at that time, and a firing asks for one row
   * down and changes nothing else.
   */
  lemma GravityTimer(s: SceneParams, time: real)
    requires s.speed > 0.0 && time >= s.lastDownSecs
    ensures var g := Gravity(s, time);
      && s.lastDownSecs <= g.lastDownSecs <= time
      && (g.lastDownSecs != s.lastDownSecs ==> g.targetPieceY == 1)
      && g.(lastDownSecs := s.lastDownSecs, targetPieceY := s.targetPieceY) == s
  {
  }

  predicate MoveRequested(s: SceneParams) {
    s.targetPieceX != 0 || s.targetPieceY != 0
  }

  function MoveTarget(s: SceneParams): Pos {
    Pos(s.currTetPos.x + s.targetPieceX, s.currTetPos.y + s.targetPieceY)
  }

  predicate MoveCommits(s: SceneParams, board: Board) {
    MoveRequested(s) && IsFree(MoveTarget(s), s.currTetMatrix, board)
  }

  /** A requested move is taken when it lands on free cells; the intents are cleared either way. */
  function MoveResolved(s: SceneParams, board: Board): SceneParams {
    if !MoveRequested(s) then s
    else (if IsFree(MoveTarget(s), s.currTetMatrix, board) then s.(currTetPos := MoveTarget(s)) else s)
      .(targetPieceX := 0, targetPieceY := 0)
  }

  /**
   * Both intents are zero afterwards; the piece moved to the target
   * exactly when the move was requested and free, and nothing but the
   * position and the intents changes.
   */
  lemma MoveOutcome(s: SceneParams, board: Board)
    ensures var r := MoveResolved(s, board);
      && r.targetPieceX == 0 && r.targetPieceY == 0
      && (MoveCommits(s, board) ==> r.currTetPos == MoveTarget(s))
      && (!MoveCommits(s, board) ==> r.currTetPos == s.currTetPos)
      && r.(currTetPos := s.currTetPos, targetPieceX := s.targetPieceX, targetPieceY := s.targetPieceY) == s
  {
  }

  lemma MoveKeepsInvariant(s: SceneParams, board: Board)
    requires SceneInvariant(s) && Legal(s, board)
    requires s.currTetIndex == 0 ==> !MoveRequested(s)
    ensures SceneInvariant(MoveResolved(s, board)) && Legal(MoveResolved(s, board), board)
    ensures ShapeMatches(s) ==> ShapeMatches(MoveResolved(s, board))
  {
  }

  // ---------------------------------------------------------------------
  // The per-entity step
  // ---------------------------------------------------------------------

  /** Gravity then the move, as done once for each geometry entity. */
  function EntityStep(s: SceneParams, board: Board, time: real): SceneParams
    requires s.speed > 0.0
  {
    MoveResolved(Gravity(s, time), board)
  }

  /** The scene after the step has run for n entities. */
  function EntitySteps(s: SceneParams, board: Board, time: real, n: nat): (r: SceneParams)
    requires s.speed > 0.0
    ensures r.speed == s.speed
  {
    if n == 0 then s else EntityStep(EntitySteps(s, board, time, n - 1), board, time)
  }

  /** A second step at the same time does nothing: the timer was just restarted or had not expired, and the intents are clear. */
  lemma EntityStepIdempotent(s: SceneParams, board: Board, time: real)
    requires s.speed > 0.0
    ensures EntityStep(EntityStep(s, board, time), board, time) == EntityStep(s, board, time)
  {
  }

  /**
   * With no entities nothing moves and no gravity applies; with one or
   * more, the scene is that of a single step, because the first entity
   * consumes the intents.
   */
  lemma {:induction false} EntityStepsCollapse(s: SceneParams, board: Board, time: real, n: nat)
    requires s.speed > 0.0
    ensures n == 0 ==> EntitySteps(s, board, time, n) == s
    ensures n >= 1 ==> EntitySteps(s, board, time, n) == EntityStep(s, board, time)
  {
    if n >= 2 {
      EntityStepsCollapse(s, board, time, n - 1);
      EntityStepIdempotent(s, board, time);
    }
  }

  lemma EntityStepKeepsInvariant(s: SceneParams, board: Board, time: real)
    requires SceneInvariant(s) && Legal(s, board) && s.currTetIndex != 0
    ensures SceneInvariant(EntityStep(s, board, time)) && Legal(EntityStep(s, board, time), board)
    ensures var r := EntityStep(s, board, time);
      r.currTetIndex == s.currTetIndex && r.currTetRot == s.currTetRot && r.currTetMatrix == s.currTetMatrix
      && r.currTetActive == s.currTetActive && r.targetTetRot == s.targetTetRot
  {
    MoveKeepsInvariant(Gravity(s, time), board);
  }

  // ---------------------------------------------------------------------
  // One frame's scene update
  // ---------------------------------------------------------------------

  /** update_state's effect on the scene, with k the generator's draw and n the entity count. */
  function FrameScene(s: SceneParams, board: Board, time: real, k: Tetromino, n: nat): SceneParams
    requires s.currTetIndex < |ALL| && k < |ALL| && s.speed > 0.0
  {
    EntitySteps(RotationResolved(SpawnedIfInactive(s, k), board), board, time, n)
  }

  /**
   * A frame on the empty board keeps the scene reachable and the piece
   * legal, leaves no pending rotation, and afterwards a piece is active.
   */
  lemma FrameKeepsInvariant(s: SceneParams, time: real, k: Tetromino, n: nat)
    requires SceneInvariant(s) && ShapeMatches(s) && Legal(s, EMPTY_BOARD) && RANGE.Contains(k)
    ensures var r := FrameScene(s, EMPTY_BOARD, time, k, n);
      SceneInvariant(r) && ShapeMatches(r) && Legal(r, EMPTY_BOARD) && r.currTetActive && r.currTetIndex != 0
      && r.targetTetRot == r.currTetRot
  {
    var s1 := SpawnedIfInactive(s, k);
    if !s.currTetActive {
      SpawnIsLegal(s, k);
    }
    assert SceneInvariant(s1) && ShapeMatches(s1) && Legal(s1, EMPTY_BOARD);
    assert s1.currTetActive && s1.currTetIndex != 0;
    var s2 := RotationResolved(s1, EMPTY_BOARD);
    RotationKeepsInvariant(s1, EMPTY_BOARD);
    RotationOutcome(s1, EMPTY_BOARD);
    assert s2.currTetActive && s2.currTetIndex != 0 && s2.targetTetRot == s2.currTetRot;
    EntityStepsCollapse(s2, EMPTY_BOARD, time, n);
    if n >= 1 {
      EntityStepKeepsInvariant(s2, EMPTY_BOARD, time);
    }
  }

  /** A frame with at least one entity ends with both intents cleared. */
  lemma FrameClearsIntents(s: SceneParams, board: Board, time: real, k: Tetromino, n: nat)
    requires s.currTetIndex < |ALL| && k < |ALL| && s.speed > 0.0 && n >= 1
    ensures FrameScene(s, board, time, k, n).targetPieceX == 0
    ensures FrameScene(s, board, time, k, n).targetPieceY == 0
  {
    EntityStepsCollapse(RotationResolved(SpawnedIfInactive(s, k), board), board, time, n);
  }

  // ---------------------------------------------------------------------
  // Input
  // ---------------------------------------------------------------------

  /**
   * The scene fields process_input changes for one event. Arrows set move
   * intents, Space/X and Back/Z request a quarter turn clockwise or back
   * from the current rotation, Return drops the active piece, B toggles
   * the background, Minus/O and Plus/P scale the speed, a resize records
   * the new size; everything else leaves the modelled fields alone.
   */
  function AfterInput(s: SceneParams, e: Event): (r: SceneParams)
    ensures r.currTetPos == s.currTetPos && r.currTetMatrix == s.currTetMatrix
    ensures r.currTetRot == s.currTetRot && r.currTetIndex == s.currTetIndex
    ensures r.lastDownSecs == s.lastDownSecs
    ensures r.currTetActive ==> s.currTetActive
  {
    match e
    case Resized(size) => s.(windowSize := size, sizeChanged := true)
    case KeyPressed(key) =>
      (match key
       case Minus | O => s.(speed := s.speed * 0.8)
       case Plus | P => s.(speed := s.speed * 1.25)
       case Left => s.(targetPieceX := -1)
       case Right => s.(targetPieceX := 1)
       case Up => s.(targetPieceY := -1)
       case Down => s.(targetPieceY := 1)
       case Return => s.(currTetActive := false)
       case Space | X => s.(targetTetRot := (s.currTetRot + 1) % 4)
       case Back | Z => s.(targetTetRot := (4 + s.currTetRot - 1) % 4)
       case B => s.(drawBackground := !s.drawBackground)
       case _ => s)
    case _ => s
  }

  lemma InputKeepsInvariant(s: SceneParams, board: Board, e: Event)
    requires SceneInvariant(s) && Legal(s, board)
    ensures SceneInvariant(AfterInput(s, e)) && Legal(AfterInput(s, e), board)
    ensures ShapeMatches(s) ==> ShapeMatches(AfterInput(s, e))
  {
  }

  /** Space (and X) asks for the current piece turned one quarter clockwise. */
  lemma TurnKeyRequestsQuarterTurn(s: SceneParams)
    requires SceneInvariant(s) && ShapeMatches(s)
    ensures AfterInput(s, KeyPressed(Space)).targetTetRot == (s.currTetRot + 1) % 4
    ensures RotationCandidate(AfterInput(s, KeyPressed(Space))) == Rotated(s.currTetMatrix, 1)
  {
    var shape := ALL[s.currTetIndex];
    RotatedAdd(shape, s.currTetRot, 1);
    RotatedMod4(shape, s.currTetRot + 1);
    assert Rotated(s.currTetMatrix, 1) == Rotated(shape, (s.currTetRot + 1) % 4);
  }

  /** Back (and Z) asks for the current piece turned one quarter back, three quarters clockwise. */
  lemma BackKeyRequestsQuarterTurnBack(s: SceneParams)
    requires SceneInvariant(s) && ShapeMatches(s)
    ensures AfterInput(s, KeyPressed(Back)).targetTetRot == (s.currTetRot + 3) % 4
    ensures RotationCandidate(AfterInput(s, KeyPressed(Back))) == Rotated(s.currTetMatrix, 3)
  {
    var shape := ALL[s.currTetIndex];
    RotatedAdd(shape, s.currTetRot, 3);
    RotatedMod4(shape, s.currTetRot + 3);
    assert Rotated(s.currTetMatrix, 3) == Rotated(shape, (s.currTetRot + 3) % 4);
  }

}
