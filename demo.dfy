/**
 * The draft binary's own game logic: it seeds a 10x16 showcase board with
 * every piece kind, builds the per-instance records that draw the board
 * twice (fills, then strokes), and handles input on its own scene record.
 * Its instance record has no stroke colour and its buffer holds 340
 * records, unlike the engine's.
 */
module Demo {
  import opened Tetrominos
  import opened Gpu
  import opened Input

  const DEMO_PRIM_BUFFER_LEN: nat := 340
  const DEMO_COLS: nat := 10
  const DEMO_ROWS: nat := 16
  /** The board cells, and the number of instances drawn per half. */
  const NUM_INSTANCES: nat := 160
  const DEMO_TETRION_SIZE: real := 8.0
  const TETRION_PATH_SCALE: real := 0.8
  const OPAQUE_BLACK: Color := Color(0.0, 0.0, 0.0, 1.0)

  /**
   * The binary's per-instance record: twelve 4-byte words (colour 4,
   * translate 2, then one each for z, width, angle, scale and the two
   * padding words), 48 bytes.
   */
  datatype DemoPrimitive = DemoPrimitive(
    color: Color,
    translate: Vec2,
    zIndex: int,
    width: real,
    angle: real,
    scale: real,
    pad1: int,
    pad2: int)

  const DEMO_DEFAULT: DemoPrimitive := DemoPrimitive(
    Color(0.0, 0.0, 0.0, 0.0), Vec2(0.0, 0.0), 0, 0.0, 0.0, 1.0, 0, 0)

  /** What every slot is pushed as: opaque red, z 0, width 0, at the origin, otherwise the default. */
  const INITIAL_RECORD: DemoPrimitive :=
    DEMO_DEFAULT.(color := Color(1.0, 0.0, 0.0, 1.0), zIndex := 0, width := 0.0, translate := Vec2(0.0, 0.0), angle := 0.0)

  // ---------------------------------------------------------------------
  // Board seeding
  // ---------------------------------------------------------------------

  /** Kinds 0..3 go to the left half and 4..7 to the right, one per band of four rows. */
  function SeedKind(r: nat, c: nat): (k: nat)
    requires r < DEMO_ROWS
    ensures k < |ALL|
  {
    if c < 5 then r / 4 else 4 + r / 4
  }

  /** The column within the piece's box; the right half is mirrored. */
  function SeedColumn(c: nat): nat
    requires c < DEMO_COLS
  {
    if c < 5 then c else (DEMO_COLS - c) - 1
  }

  /** Cell (r, c) of the showcase board: its band's kind where that shape is solid, else 0. */
  function SeedCell(r: nat, c: nat): nat
    requires r < DEMO_ROWS && c < DEMO_COLS
  {
    var k := SeedKind(r, c);
    if IsSolid(ALL[k], SeedColumn(c), r % 4) then k else 0
  }

  /**
   * The body of the seeding loops: the band's kind, the (mirrored) column
   * within its box, and the source's match on the shape's grid size.
   */
  method SeedTetrion(r: nat, c: nat) returns (tetrion: nat)
    requires r < DEMO_ROWS && c < DEMO_COLS
    ensures tetrion == SeedCell(r, c)
  {
    var rb := r / 4;
    var ri := r % 4;
    var tetind := if c < 5 then rb else 4 + rb;
    var ci := if c < 5 then c else (DEMO_COLS - c) - 1;
    var tetromino := ALL[tetind];
    var solid := match tetromino
      case Odd(t) => if ci < 3 && ri < 3 then t[ri][ci] else false
      case Even(t) => if ci < 4 then t[ri][ci] else false;
    assert solid == IsSolid(tetromino, ci, ri);
    tetrion := if solid then tetind else 0;
  }

  /** The playfield seeding loops: 160 cells pushed row by row, cell (r, c) at r*10+c. */
  method SeedPlayfield() returns (playfield: seq<nat>)
    ensures |playfield| == DEMO_ROWS * DEMO_COLS
    ensures forall r: nat, c: nat :: r < DEMO_ROWS && c < DEMO_COLS ==> playfield[r * DEMO_COLS + c] == SeedCell(r, c)
  {
    playfield := [];
    for r := 0 to DEMO_ROWS
      invariant |playfield| == r * DEMO_COLS
      invariant forall r': nat, c': nat :: r' < r && c' < DEMO_COLS ==> playfield[r' * DEMO_COLS + c'] == SeedCell(r', c')
    {
      for c := 0 to DEMO_COLS
        invariant |playfield| == r * DEMO_COLS + c
        invariant forall r': nat, c': nat :: r' < r && c' < DEMO_COLS ==> playfield[r' * DEMO_COLS + c'] == SeedCell(r', c')
        invariant forall c': nat :: c' < c ==> playfield[r * DEMO_COLS + c'] == SeedCell(r, c')
      {
        var tetrion := SeedTetrion(r, c);
        ghost var prev := playfield;
        playfield := playfield + [tetrion];
        forall r': nat, c': nat | r' < r && c' < DEMO_COLS
          ensures playfield[r' * DEMO_COLS + c'] == SeedCell(r', c')
        {
          assert r' * DEMO_COLS + c' < |prev|;
        }
        forall c': nat | c' < c + 1
          ensures playfield[r * DEMO_COLS + c'] == SeedCell(r, c')
        {
          if c' < c {
            assert r * DEMO_COLS + c' < |prev|;
          }
        }
      }
    }
  }

  /**
   * Every seeded value indexes the kind, name and colour tables, and a
   * cell is occupied exactly where its band's shape is solid.
   */
  lemma SeedCellValues(r: nat, c: nat)
    requires r < DEMO_ROWS && c < DEMO_COLS
    ensures SeedCell(r, c) < |ALL| && SeedCell(r, c) < |NAMES| && SeedCell(r, c) < |COLORS|
    ensures SeedCell(r, c) != 0 <==> IsSolid(ALL[SeedKind(r, c)], SeedColumn(c), r % 4)
  {
    TableShapes();
    TableColors();
  }

  /**
   * Where the kinds land: kinds 1..3 in the left half and 4..7 in the
   * right, each in rows 4*(k mod 4) to 4*(k mod 4)+3.
   */
  lemma SeedKindPlacement(r: nat, c: nat)
    requires r < DEMO_ROWS && c < DEMO_COLS && SeedCell(r, c) != 0
    ensures var k := SeedCell(r, c);
      && (k < 4 <==> c < 5)
      && r / 4 == k % 4
  {
  }

  // ---------------------------------------------------------------------
  // Instance records
  // ---------------------------------------------------------------------

  /**
   * Record idx after the instance loop: it draws board cell idx % 160 at
   * that cell's position with z id+1, or z 1 and opaque black when the
   * cell is empty, a kind's colour otherwise; records of the second half
   * are the 0.3-wide black strokes.
   */
  function InstanceRecord(playfield: seq<nat>, idx: nat): DemoPrimitive
    requires |playfield| == NUM_INSTANCES && idx < 2 * NUM_INSTANCES
    requires forall i :: 0 <= i < |playfield| ==> playfield[i] < |COLORS|
  {
    var id := idx % NUM_INSTANCES;
    var tet := playfield[id];
    var p := INITIAL_RECORD.(
      translate := Vec2((id % DEMO_COLS) as real * DEMO_TETRION_SIZE, (id / DEMO_COLS) as real * DEMO_TETRION_SIZE),
      zIndex := id + 1);
    var q := (if tet == 0 then p.(zIndex := 1, color := OPAQUE_BLACK) else p.(color := COLORS[tet])).(scale := TETRION_PATH_SCALE);
    if idx >= NUM_INSTANCES then q.(width := 0.3, color := OPAQUE_BLACK) else q
  }

  /**
   * A fill record is opaque black exactly for an empty cell, and its z is
   * 1 for an empty cell and id+1 for an occupied one; a stroke record is
   * the same instance, 0.3 wide and black.
   */
  lemma InstanceRecordFields(playfield: seq<nat>, id: nat)
    requires |playfield| == NUM_INSTANCES && id < NUM_INSTANCES
    requires forall i :: 0 <= i < |playfield| ==> playfield[i] < |COLORS|
    ensures var fill := InstanceRecord(playfield, id);
      && (fill.color == OPAQUE_BLACK <==> playfield[id] == 0)
      && fill.zIndex == (if playfield[id] == 0 then 1 else id + 1)
      && fill.width == 0.0 && fill.scale == TETRION_PATH_SCALE
      && fill.translate == Vec2((id % DEMO_COLS) as real * DEMO_TETRION_SIZE, (id / DEMO_COLS) as real * DEMO_TETRION_SIZE)
    ensures InstanceRecord(playfield, id + NUM_INSTANCES) == InstanceRecord(playfield, id).(width := 0.3, color := OPAQUE_BLACK)
  {
    TableColors();
    var k := playfield[id];
    if k != 0 {
      assert !IsBlackRgb(COLORS[k]);
    }
  }

  /**
   * The cpu_primitives set-up: 340 records pushed as INITIAL_RECORD, then
   * the first 320 rewritten by the instance loop; the last 20 keep the
   * initial record.
   */
  method BuildPrimitives(playfield: seq<nat>) returns (prims: array<DemoPrimitive>)
    requires |playfield| == NUM_INSTANCES
    requires forall i :: 0 <= i < |playfield| ==> playfield[i] < |COLORS|
    ensures fresh(prims) && prims.Length == DEMO_PRIM_BUFFER_LEN
    ensures forall idx :: 0 <= idx < 2 * NUM_INSTANCES ==> prims[idx] == InstanceRecord(playfield, idx)
    ensures forall idx :: 2 * NUM_INSTANCES <= idx < DEMO_PRIM_BUFFER_LEN ==> prims[idx] == INITIAL_RECORD
  {
    prims := new DemoPrimitive[DEMO_PRIM_BUFFER_LEN];
    for i := 0 to DEMO_PRIM_BUFFER_LEN
      invariant forall j :: 0 <= j < i ==> prims[j] == INITIAL_RECORD
    {
      prims[i] := INITIAL_RECORD;
    }
    for idx := 0 to 2 * NUM_INSTANCES
      invariant forall j :: 0 <= j < idx ==> prims[j] == InstanceRecord(playfield, j)
      invariant forall j :: idx <= j < DEMO_PRIM_BUFFER_LEN ==> prims[j] == INITIAL_RECORD
    {
      var id := idx % NUM_INSTANCES;
      var tet := playfield[id];
      var color := COLORS[playfield[id]];
      var col := id % DEMO_COLS;
      var row := id / DEMO_COLS;
      prims[idx] := prims[idx].(translate := Vec2(col as real * DEMO_TETRION_SIZE, row as real * DEMO_TETRION_SIZE));
      prims[idx] := prims[idx].(zIndex := id + 1);
      if tet == 0 {
        prims[idx] := prims[idx].(zIndex := 1, color := OPAQUE_BLACK);
      } else {
        prims[idx] := prims[idx].(color := color);
      }
      prims[idx] := prims[idx].(scale := TETRION_PATH_SCALE);
      if idx >= NUM_INSTANCES {
        prims[idx] := prims[idx].(width := 0.3, color := OPAQUE_BLACK);
      }
    }
  }

  // ---------------------------------------------------------------------
  // Input
  // ---------------------------------------------------------------------

  /** The binary's scene record, for the fields its handlers change that are not camera easing. */
  class DemoScene {
    var showPoints: bool
    var drawBackground: bool
    var windowSize: Size
    var sizeChanged: bool

    constructor ()
      ensures showPoints && drawBackground && windowSize == Size(1024, 768) && sizeChanged
    {
      showPoints := true;
      drawBackground := true;
      windowSize := Size(1024, 768);
      sizeChanged := true;
    }

    /**
     * update_inputs: P toggles the point display, B the background, a
     * resize records the new size; returns whether polling goes on.
     */
    method UpdateInputs(event: Event, flowIn: ControlFlow) returns (keepPolling: bool, flow: ControlFlow)
      modifies this
      ensures keepPolling == !StopsPolling(event)
      ensures flow == FlowAfterInput(event, flowIn)
      ensures showPoints == (if event == KeyPressed(P) then !old(showPoints) else old(showPoints))
      ensures drawBackground == (if event == KeyPressed(B) then !old(drawBackground) else old(drawBackground))
      ensures windowSize == (if event.Resized? then event.size else old(windowSize))
      ensures sizeChanged == (event.Resized? || old(sizeChanged))
    {
      match event {
        case MainEventsCleared =>
          return false, flowIn;
        case Destroyed =>
          return false, Exit;
        case CloseRequested =>
          return false, Exit;
        case Resized(size) =>
          windowSize := size;
          sizeChanged := true;
        case KeyPressed(key) =>
          match key {
            case Escape =>
              return false, Exit;
            case P =>
              showPoints := !showPoints;
            case B =>
              drawBackground := !drawBackground;
            case _ =>
          }
        case _ =>
      }
      return true, Poll;
    }

    /**
     * The scene side of one event-loop call: handle the event; unless it
     * stops polling, return at once; take up a size change; then render
     * only if the swap chain gave a frame, an Outdated one recording the
     * window's inner size.
     */
    method RunIteration(event: Event, flowIn: ControlFlow, acquire: FrameResult, innerSize: Size)
      returns (flow: ControlFlow, renders: bool)
      modifies this
      ensures flow == FlowAfterInput(event, flowIn)
      ensures renders <==> StopsPolling(event) && acquire == FrameOk
      ensures showPoints == (if event == KeyPressed(P) then !old(showPoints) else old(showPoints))
      ensures drawBackground == (if event == KeyPressed(B) then !old(drawBackground) else old(drawBackground))
      ensures StopsPolling(event) ==> sizeChanged == (acquire == Outdated)
      ensures StopsPolling(event) ==> windowSize == (if acquire == Outdated then innerSize else old(windowSize))
      ensures !StopsPolling(event) ==> sizeChanged == (event.Resized? || old(sizeChanged))
      ensures !StopsPolling(event) ==> windowSize == (if event.Resized? then event.size else old(windowSize))
    {
      var keepPolling;
      keepPolling, flow := UpdateInputs(event, flowIn);
      if keepPolling {
        return flow, false;
      }
      if sizeChanged {
        sizeChanged := false;
      }
      match acquire {
        case FrameOk =>
          renders := true;
        case Outdated =>
          windowSize := innerSize;
          sizeChanged := true;
          renders := false;
        case OtherFrameError =>
          renders := false;
      }
    }
  }
}
