/**
 * The engine object: its scene, the geometry entities it draws, the board,
 * and the per-frame steps of the event loop that the game logic runs in.
 * Every method is proved to perform the scene and buffer updates that the
 * Scene and Slots functions describe.
 */
module Engine {
  import opened Tetrominos
  import opened Gpu
  import opened GeoEntities
  import opened Input
  import opened Playfield
  import opened Scene
  import opened Slots

  /** The shimmer weights of one frame: shimmer(time, idx) for each board cell idx. */
  function Weights(shimmer: (real, nat) -> real, time: real): nat -> real
  {
    (idx: nat) => shimmer(time, idx)
  }

  /**
   * One entity's buffer after its turn in update_state's loop: the board
   * strokes are repainted, and the overlay follows the piece if the
   * gravity-adjusted move is taken.
   */
  function EntityBuffer(b: seq<Primitive>, s: SceneParams, board: Board, time: real, weight: nat -> real): seq<Primitive>
    requires s.speed > 0.0
  {
    var painted := Painted(b, weight);
    var g := Gravity(s, time);
    if MoveCommits(g, board) then Translated(painted, MoveTarget(g)) else painted
  }

  /**
   * Entity i's buffer after update_state: the spawn and an accepted
   * rotation redraw the overlay, then the entity's own turn in the loop
   * runs with the scene as the earlier entities left it.
   */
  function FrameBuffer(b: seq<Primitive>, scale: real, s: SceneParams, board: Board, time: real,
                       weight: nat -> real, k: Tetromino, i: nat): seq<Primitive>
    requires s.currTetIndex < |ALL| && k < |ALL| && s.speed > 0.0
  {
    var s1 := SpawnedIfInactive(s, k);
    var b1 := if s.currTetActive then b else WithOverlay(b, k, ALL[k], Pos(0, 0), scale);
    var s2 := RotationResolved(s1, board);
    var b2 := if RotationCommits(s1, board) then WithOverlay(b1, s2.currTetIndex, s2.currTetMatrix, s2.currTetPos, scale) else b1;
    EntityBuffer(b2, EntitySteps(s2, board, time, i), board, time, weight)
  }

  /** An entity whose overlay sits over the piece still does after its turn in the loop. */
  lemma EntityBufferTracks(b: seq<Primitive>, s: SceneParams, board: Board, time: real, weight: nat -> real)
    requires |b| == PRIM_BUFFER_LEN && s.speed > 0.0 && OverlayTracks(b, s.currTetPos)
    ensures OverlayTracks(EntityBuffer(b, s, board, time, weight), EntityStep(s, board, time).currTetPos)
  {
    var g := Gravity(s, time);
    PaintKeepsTracking(b, weight, s.currTetPos);
    OverlayFollowsPiece(Painted(b, weight), 0, ALL[0], Pos(0, 0), 1.0, MoveTarget(g));
  }

  /**
   * After the spawn and rotation branches the overlay sits over the piece:
   * a spawn redraws it whatever the buffer held, and an active piece's
   * overlay that already tracked keeps tracking.
   */
  lemma RedrawTracks(b: seq<Primitive>, scale: real, s: SceneParams, board: Board, k: Tetromino)
    requires |b| == PRIM_BUFFER_LEN && s.currTetIndex < |ALL| && k < |ALL|
    requires s.currTetActive ==> OverlayTracks(b, s.currTetPos)
    ensures var s1 := SpawnedIfInactive(s, k);
      var b1 := if s.currTetActive then b else WithOverlay(b, k, ALL[k], Pos(0, 0), scale);
      var s2 := RotationResolved(s1, board);
      OverlayTracks(if RotationCommits(s1, board) then WithOverlay(b1, s2.currTetIndex, s2.currTetMatrix, s2.currTetPos, scale) else b1,
                    s2.currTetPos)
  {
    var s1 := SpawnedIfInactive(s, k);
    var b1 := if s.currTetActive then b else WithOverlay(b, k, ALL[k], Pos(0, 0), scale);
    OverlayFollowsPiece(b, k, ALL[k], Pos(0, 0), scale, Pos(0, 0));
    var s2 := RotationResolved(s1, board);
    OverlayFollowsPiece(b1, s2.currTetIndex, s2.currTetMatrix, s2.currTetPos, scale, s2.currTetPos);
  }

  /**
   * The first entity's overlay keeps up with the piece: after a frame it
   * sits over the piece if it did before, or if the frame spawned a piece,
   * as the first frame after construction does for a fresh buffer.
   */
  lemma FirstEntityOverlayTracks(b: seq<Primitive>, scale: real, s: SceneParams, board: Board, time: real,
                                 weight: nat -> real, k: Tetromino)
    requires |b| == PRIM_BUFFER_LEN && s.currTetIndex < |ALL| && k < |ALL| && s.speed > 0.0
    requires s.currTetActive ==> OverlayTracks(b, s.currTetPos)
    ensures OverlayTracks(FrameBuffer(b, scale, s, board, time, weight, k, 0), FrameScene(s, board, time, k, 1).currTetPos)
  {
    var s1 := SpawnedIfInactive(s, k);
    var b1 := if s.currTetActive then b else WithOverlay(b, k, ALL[k], Pos(0, 0), scale);
    var s2 := RotationResolved(s1, board);
    var b2 := if RotationCommits(s1, board) then WithOverlay(b1, s2.currTetIndex, s2.currTetMatrix, s2.currTetPos, scale) else b1;
    RedrawTracks(b, scale, s, board, k);
    EntityBufferTracks(b2, s2, board, time, weight);
    assert FrameBuffer(b, scale, s, board, time, weight, k, 0) == EntityBuffer(b2, s2, board, time, weight);
    assert FrameScene(s, board, time, k, 1) == EntityStep(s2, board, time);
  }

  /**
   * Only the first entity's overlay follows a move: once it has consumed
   * the intents, a later entity with no spawn or rotation this frame only
   * gets its board strokes repainted, and its overlay stays where it was.
   */
  lemma LaterEntitiesMissTheMove(b: seq<Primitive>, scale: real, s: SceneParams, board: Board, time: real,
                                 weight: nat -> real, k: Tetromino, i: nat)
    requires s.currTetIndex < |ALL| && k < |ALL| && s.speed > 0.0
    requires s.currTetActive && s.currTetRot == s.targetTetRot && i >= 1
    ensures FrameBuffer(b, scale, s, board, time, weight, k, i) == Painted(b, weight)
  {
    EntityStepsCollapse(s, board, time, i);
    EntityStepIdempotent(s, board, time);
  }

  class Engine {
    var scene: SceneParams
    var geoEntities: seq<GeoEntity>
    /** The board; the game logic reads it and never writes it. */
    const playfield: Board
    /** Seconds since the animation started, as of the previous frame. */
    var animSecs: real

    /** Every entity has its own buffer of PRIM_BUFFER_LEN records. */
    ghost predicate BuffersOk()
      reads this
    {
      && (forall i :: 0 <= i < |geoEntities| ==> geoEntities[i].primitives.Length == PRIM_BUFFER_LEN)
      && (forall i, j :: 0 <= i < j < |geoEntities| ==> geoEntities[i].primitives != geoEntities[j].primitives)
    }

    ghost predicate Valid()
      reads this
    {
      && BuffersOk()
      && SceneInvariant(scene) && ShapeMatches(scene)
      && playfield == EMPTY_BOARD && Legal(scene, playfield)
    }

    ghost function Buffers(): set<array<Primitive>>
      reads this
    {
      set i | 0 <= i < |geoEntities| :: geoEntities[i].primitives
    }

    /** The game-logic part of Engine::new: the initial scene, no entities, an empty board. */
    constructor ()
      ensures Valid()
      ensures scene == INITIAL_SCENE && geoEntities == [] && playfield == EMPTY_BOARD && animSecs == 0.0
    {
      scene := INITIAL_SCENE;
      geoEntities := [];
      playfield := EMPTY_BOARD;
      animSecs := 0.0;
      new;
      InitialScene();
    }

    /** add_entity: appends e and returns its index. */
    method AddEntity(e: GeoEntity) returns (index: nat)
      requires Valid() && e.primitives.Length == PRIM_BUFFER_LEN && e.primitives !in Buffers()
      modifies this
      ensures Valid()
      ensures geoEntities == old(geoEntities) + [e] && index == |geoEntities| - 1
      ensures scene == old(scene) && animSecs == old(animSecs)
    {
      geoEntities := geoEntities + [e];
      index := |geoEntities| - 1;
      assert forall i :: 0 <= i < |old(geoEntities)| ==> old(geoEntities)[i].primitives in old(Buffers());
    }

    /** update_tet: every entity's overlay shows the current piece at its position. */
    method UpdateTet()
      requires BuffersOk() && scene.currTetIndex < |COLORS|
      modifies Buffers()
      ensures forall i :: 0 <= i < |geoEntities| ==>
        geoEntities[i].primitives[..] ==
          WithOverlay(old(geoEntities[i].primitives[..]), scene.currTetIndex, scene.currTetMatrix, scene.currTetPos, geoEntities[i].scale)
    {
      for i := 0 to |geoEntities|
        invariant forall j :: 0 <= j < i ==>
          geoEntities[j].primitives[..] ==
            WithOverlay(old(geoEntities[j].primitives[..]), scene.currTetIndex, scene.currTetMatrix, scene.currTetPos, geoEntities[j].scale)
        invariant forall j :: i <= j < |geoEntities| ==> geoEntities[j].primitives[..] == old(geoEntities[j].primitives[..])
      {
        var geo := geoEntities[i];
        WriteOverlay(geo.primitives, scene.currTetIndex, scene.currTetMatrix, scene.currTetPos, geo.scale);
      }
    }

    /** The spawn branch of update_state: a random kind from RANGE, drawn at the origin, then made active. */
    method Spawn()
      requires Valid() && !scene.currTetActive
      modifies this, Buffers()
      ensures Valid() && geoEntities == old(geoEntities) && animSecs == old(animSecs)
      ensures RANGE.Contains(scene.currTetIndex) && scene == Spawned(old(scene), scene.currTetIndex)
      ensures forall i :: 0 <= i < |geoEntities| ==>
        geoEntities[i].primitives[..] ==
          WithOverlay(old(geoEntities[i].primitives[..]), scene.currTetIndex, ALL[scene.currTetIndex], Pos(0, 0), geoEntities[i].scale)
    {
      var k :| TI <= k < TL;
      SpawnIsLegal(scene, k);
      scene := scene.(currTetIndex := k, currTetPos := Pos(0, 0), currTetRot := 0, currTetMatrix := ALL[k]);
      UpdateTet();
      scene := scene.(currTetActive := true);
    }

    /** The rotation branch of update_state: commit the requested turn if it fits, else withdraw it. */
    method ResolveRotation()
      requires Valid()
      modifies this, Buffers()
      ensures Valid() && geoEntities == old(geoEntities) && animSecs == old(animSecs)
      ensures scene == RotationResolved(old(scene), playfield)
      ensures forall i :: 0 <= i < |geoEntities| ==>
        geoEntities[i].primitives[..] ==
          if RotationCommits(old(scene), playfield)
          then WithOverlay(old(geoEntities[i].primitives[..]), scene.currTetIndex, scene.currTetMatrix, scene.currTetPos, geoEntities[i].scale)
          else old(geoEntities[i].primitives[..])
    {
      RotationKeepsInvariant(scene, playfield);
      if scene.currTetRot != scene.targetTetRot {
        var shape := ALL[scene.currTetIndex];
        var newMatrix := Rotated(shape, scene.targetTetRot);
        var free := CheckIfFree(scene.currTetPos, newMatrix, playfield);
        if free {
          scene := scene.(currTetMatrix := newMatrix);
          UpdateTet();
          scene := scene.(currTetRot := scene.targetTetRot);
        } else {
          scene := scene.(targetTetRot := scene.currTetRot);
        }
      }
    }

    /** The gravity tick of one entity's turn: past the interval, request one row down and restart the timer. */
    method ApplyGravity(time: real)
      requires Valid() && scene.currTetIndex != 0
      modifies this
      ensures Valid() && geoEntities == old(geoEntities) && animSecs == old(animSecs)
      ensures scene == Gravity(old(scene), time)
    {
      var lastDownSecs := scene.lastDownSecs;
      var speedMod := (2000.0 / scene.speed) / 1000.0;
      if time - lastDownSecs > speedMod {
        scene := scene.(lastDownSecs := time, targetPieceY := 1);
      }
    }

    /** The move of one entity's turn: take the requested step if it is free and redraw geo's overlay there; clear the intents. */
    method ResolveMove(geo: GeoEntity)
      requires Valid() && scene.currTetIndex != 0 && geo.primitives.Length == PRIM_BUFFER_LEN
      modifies this, geo.primitives
      ensures Valid() && geoEntities == old(geoEntities) && animSecs == old(animSecs)
      ensures scene == MoveResolved(old(scene), playfield)
      ensures geo.primitives[..] ==
        if MoveCommits(old(scene), playfield) then Translated(old(geo.primitives[..]), MoveTarget(old(scene)))
        else old(geo.primitives[..])
    {
      MoveKeepsInvariant(scene, playfield);
      ghost var s0 := scene;
      if scene.targetPieceX != 0 || scene.targetPieceY != 0 {
        var newPos := Pos(scene.currTetPos.x + scene.targetPieceX, scene.currTetPos.y + scene.targetPieceY);
        assert newPos == MoveTarget(s0);
        var free := CheckIfFree(newPos, scene.currTetMatrix, playfield);
        assert free == MoveCommits(s0, playfield);
        if free {
          scene := scene.(currTetPos := newPos);
          TranslateOverlay(geo.primitives, newPos);
        }
        scene := scene.(targetPieceX := 0, targetPieceY := 0);
      }
      assert scene == MoveResolved(s0, playfield);
    }

    /**
     * One turn of update_state's entity loop, for entity i: repaint its
     * board strokes, apply gravity, take or drop the move. No other
     * entity's buffer changes.
     */
    method StepEntity(i: nat, time: real, weight: nat -> real)
      requires Valid() && scene.currTetIndex != 0 && i < |geoEntities|
      modifies this, geoEntities[i].primitives
      ensures Valid() && geoEntities == old(geoEntities) && animSecs == old(animSecs)
      ensures scene == EntityStep(old(scene), playfield, time) && scene.currTetIndex == old(scene.currTetIndex)
      ensures geoEntities[i].primitives[..] ==
        EntityBuffer(old(geoEntities[i].primitives[..]), old(scene), playfield, time, weight)
      ensures forall j :: 0 <= j < |geoEntities| && j != i ==>
        geoEntities[j].primitives[..] == old(geoEntities[j].primitives[..])
    {
      EntityStepKeepsInvariant(scene, playfield, time);
      var geo := geoEntities[i];
      PaintBoard(geo.primitives, weight);
      ApplyGravity(time);
      ResolveMove(geo);
      forall j | 0 <= j < |geoEntities| && j != i
        ensures geoEntities[j].primitives[..] == old(geoEntities[j].primitives[..])
      {
        assert geoEntities[j].primitives != geo.primitives;
      }
    }

    /** update_state's loop over the entities, each taking its turn with the scene the earlier ones left. */
    method StepEntities(shimmer: (real, nat) -> real)
      requires Valid() && scene.currTetIndex != 0
      modifies this, Buffers()
      ensures Valid() && geoEntities == old(geoEntities) && animSecs == old(animSecs)
      ensures scene.currTetIndex == old(scene.currTetIndex)
      ensures scene == EntitySteps(old(scene), playfield, animSecs, |geoEntities|)
      ensures forall i :: 0 <= i < |geoEntities| ==>
        geoEntities[i].primitives[..] ==
          EntityBuffer(old(geoEntities[i].primitives[..]), EntitySteps(old(scene), playfield, animSecs, i),
                       playfield, animSecs, Weights(shimmer, animSecs))
    {
      var time := animSecs;
      var weight := Weights(shimmer, time);
      for i := 0 to |geoEntities|
        invariant Valid() && geoEntities == old(geoEntities) && animSecs == time
        invariant scene.currTetIndex == old(scene.currTetIndex)
        invariant scene == EntitySteps(old(scene), playfield, time, i)
        invariant forall j :: 0 <= j < i ==>
          geoEntities[j].primitives[..] ==
            EntityBuffer(old(geoEntities[j].primitives[..]), EntitySteps(old(scene), playfield, time, j), playfield, time, weight)
        invariant forall j :: i <= j < |geoEntities| ==> geoEntities[j].primitives[..] == old(geoEntities[j].primitives[..])
      {
        StepEntity(i, time, weight);
      }
    }

    /**
     * update_state, game logic only: spawn if no piece is active, resolve
     * a pending rotation, then run the per-entity loop at the previous
     * frame's time.
     */
    method UpdateState(shimmer: (real, nat) -> real)
      requires Valid()
      modifies this, Buffers()
      ensures Valid() && geoEntities == old(geoEntities) && animSecs == old(animSecs)
      ensures old(scene.currTetActive) ==> scene.currTetIndex == old(scene.currTetIndex)
      ensures !old(scene.currTetActive) ==> RANGE.Contains(scene.currTetIndex)
      ensures scene == FrameScene(old(scene), playfield, animSecs, scene.currTetIndex, |geoEntities|)
      ensures forall i :: 0 <= i < |geoEntities| ==>
        geoEntities[i].primitives[..] ==
          FrameBuffer(old(geoEntities[i].primitives[..]), geoEntities[i].scale, old(scene), playfield, animSecs,
                      Weights(shimmer, animSecs), scene.currTetIndex, i)
    {
      if !scene.currTetActive {
        Spawn();
      }
      label spawned:
      ResolveRotation();
      label rotated:
      StepEntities(shimmer);
    }

    /** The key arm of process_input for every key but Escape: speed, intents, activity and the background toggle. */
    method PressKey(key: Key)
      requires Valid() && key != Escape
      modifies this
      ensures Valid() && geoEntities == old(geoEntities) && animSecs == old(animSecs)
      ensures scene == AfterInput(old(scene), KeyPressed(key))
    {
      InputKeepsInvariant(scene, playfield, KeyPressed(key));
      match key {
      case Minus | O =>
        scene := scene.(speed := scene.speed * 0.8);
      case Plus | P =>
        scene := scene.(speed := scene.speed * 1.25);
      case Left =>
        scene := scene.(targetPieceX := -1);
      case Right =>
        scene := scene.(targetPieceX := 1);
      case Up =>
        scene := scene.(targetPieceY := -1);
      case Down =>
        scene := scene.(targetPieceY := 1);
      case Return =>
        scene := scene.(currTetActive := false);
      case Space | X =>
        scene := scene.(targetTetRot := (scene.currTetRot + 1) % 4);
      case Back | Z =>
        scene := scene.(targetTetRot := (4 + scene.currTetRot - 1) % 4);
      case B =>
        scene := scene.(drawBackground := !scene.drawBackground);
      case _ =>
      }
    }

    /**
     * process_input, for the fields modelled: returns whether the loop
     * should skip this frame and the control-flow request it leaves.
     */
    method ProcessInput(event: Event, flowIn: ControlFlow) returns (keepPolling: bool, flow: ControlFlow)
      requires Valid()
      modifies this
      ensures Valid() && geoEntities == old(geoEntities) && animSecs == old(animSecs)
      ensures scene == AfterInput(old(scene), event)
      ensures keepPolling == !StopsPolling(event)
      ensures flow == FlowAfterInput(event, flowIn)
    {
      InputKeepsInvariant(scene, playfield, event);
      match event {
      case MainEventsCleared =>
        return false, flowIn;
      case Destroyed =>
        return false, Exit;
      case CloseRequested =>
        return false, Exit;
      case Resized(size) =>
        scene := scene.(windowSize := size, sizeChanged := true);
      case KeyPressed(key) =>
        if key == Escape {
          return false, Exit;
        }
        PressKey(key);
      case _ =>
      }
      return true, Poll;
    }

    /** create_scene_textures, for the scene: the new size has been taken up. */
    method CreateSceneTextures()
      requires Valid()
      modifies this
      ensures Valid() && geoEntities == old(geoEntities) && animSecs == old(animSecs)
      ensures scene == old(scene).(sizeChanged := false)
    {
      scene := scene.(sizeChanged := false);
    }

    /**
     * prepare_frame: a frame exactly when the swap chain gave one; an
     * Outdated swap chain records the window's current inner size and asks
     * for new textures.
     */
    method PrepareFrame(acquire: FrameResult, innerSize: Size) returns (frame: bool)
      requires Valid()
      modifies this
      ensures Valid() && geoEntities == old(geoEntities) && animSecs == old(animSecs)
      ensures frame <==> acquire == FrameOk
      ensures acquire == Outdated ==> scene == old(scene).(windowSize := innerSize, sizeChanged := true)
      ensures acquire != Outdated ==> scene == old(scene)
    {
      match acquire
      case FrameOk =>
        frame := true;
      case Outdated =>
        scene := scene.(windowSize := innerSize, sizeChanged := true);
        frame := false;
      case OtherFrameError =>
        frame := false;
    }

    /**
     * One call of the event-loop closure in run: handle the event; for the
     * events that do not stop polling, return at once; otherwise rebuild
     * the textures if the size changed, and with a frame update the state
     * and then the animation clock (elapsed seconds since the start).
     */
    method RunIteration(event: Event, flowIn: ControlFlow, acquire: FrameResult, innerSize: Size,
                        elapsed: real, shimmer: (real, nat) -> real) returns (flow: ControlFlow)
      requires Valid()
      modifies this, Buffers()
      ensures Valid() && geoEntities == old(geoEntities)
      ensures flow == FlowAfterInput(event, flowIn)
      ensures !StopsPolling(event) || acquire != FrameOk ==>
        && animSecs == old(animSecs)
        && (forall i :: 0 <= i < |geoEntities| ==> geoEntities[i].primitives[..] == old(geoEntities[i].primitives[..]))
      ensures !StopsPolling(event) ==> scene == AfterInput(old(scene), event)
      ensures StopsPolling(event) && acquire == Outdated ==>
        scene == AfterInput(old(scene), event).(windowSize := innerSize, sizeChanged := true)
      ensures StopsPolling(event) && acquire == OtherFrameError ==>
        scene == AfterInput(old(scene), event).(sizeChanged := false)
      ensures StopsPolling(event) && acquire == FrameOk ==>
        && animSecs == elapsed
        && scene == FrameScene(AfterInput(old(scene), event).(sizeChanged := false), playfield, old(animSecs),
                               scene.currTetIndex, |geoEntities|)
        && (forall i :: 0 <= i < |geoEntities| ==>
              geoEntities[i].primitives[..] ==
                FrameBuffer(old(geoEntities[i].primitives[..]), geoEntities[i].scale,
                            AfterInput(old(scene), event).(sizeChanged := false), playfield, old(animSecs),
                            Weights(shimmer, old(animSecs)), scene.currTetIndex, i))
    {
      var keepPolling;
      keepPolling, flow := ProcessInput(event, flowIn);
      if keepPolling {
        return;
      }
      if scene.sizeChanged {
        CreateSceneTextures();
      }
      assert scene == AfterInput(old(scene), event).(sizeChanged := false);
      var frame := PrepareFrame(acquire, innerSize);
      if frame {
        UpdateState(shimmer);
        animSecs := elapsed;
      }
    }
  }
}
