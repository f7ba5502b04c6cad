# ruzzle game logic in Dafny

ruzzle is a falling-block puzzle drawn with GPU instancing. This project
models its game logic:

- the seven tetromino kinds, their 3x3/4x4 grids, rotation, and the name and
  colour tables (`tetrominos.dfy`);
- the 10x16 board and the placement check `check_if_free` (`playfield.dfy`);
- the scene record and what one frame and one input event do to it
  (`scene.dfy`);
- the per-instance GPU records and the slots of an entity's buffer that the
  engine rewrites (`gpu.dfy`, `slots.dfy`, `geo_entity.dfy`);
- the engine object, whose methods update its scene and each entity's buffer
  (`engine.dfy`);
- the window events the handlers see (`input.dfy`);
- the draft binary's own game logic (`demo.dfy`): it seeds a showcase board
  with every piece kind, builds its 340 instance records, and handles input
  on its own scene record.

Slot layout of an entity's 180-record buffer: slot `idx < 160` is board cell
`idx` (column `idx % 10`, row `idx / 10`). Slots `160 + 4r + c` are the
moving piece's 4x4 overlay. The remaining four slots are never written.

Main results:

- `Playfield.CheckIfFree` returns exactly `IsFree`: every solid cell of the
  box is on the board and empty.
- A legal real piece lies in [-3, 9] x [-3, 15], so the source's `i32` move
  arithmetic cannot overflow.
- Rotation has period four.
- Every reachable scene keeps its invariant: the stored matrix is the
  kind's shape at the stored rotation, and the piece stands on free cells.
  This holds across spawn, rotation, gravity, moves and every input event.
- After every frame the first entity's overlay sits over the piece's box,
  provided it did before the frame or the frame spawned a piece
  (`Engine.FirstEntityOverlayTracks`). A spawn redraws the overlay whatever
  the buffer held, so this covers a fresh buffer behind the inactive initial
  scene (`Engine.RedrawTracks`). Later entities miss moves.
- The engine methods perform exactly the scene and buffer updates that the
  `Scene` and `Slots` functions describe, down to one call of the event-loop
  closure (`Engine.Engine.RunIteration`).

The engine's board is never written: it stays all zeros. The spawn draw
`1..TL` is half-open with `TL = 7`, so the L piece (kind 7) never spawns.
That is modelled as written.

One property of `update_state`'s entity loop is modelled as written rather
than corrected. Gravity and the move run inside the loop over entities, and
the first entity clears the intents. So with several entities only the first
one's overlay follows a move (`Engine.LaterEntitiesMissTheMove`).

`rotated(shape, steps)` recurses `steps` times (src/tetrominos.rs:21-57).
The model recurses the same way, and `Tetrominos.RotatedMod4` proves that
only `steps` mod 4 matters.

A spawn resets the rotation to 0 but keeps the requested rotation
`target_tet_rot` (src/engine/mod.rs:479-487; `Scene.Spawned` keeps
`targetTetRot`). Every resolved rotation leaves the request equal to the
current rotation (`Scene.FrameKeepsInvariant`). So in its first frame every
new piece is turned to the previous piece's final rotation, with no turn
requested (`Scene.SpawnTakesPendingRotation`). This is modelled as written.

## Model

| member | source | states |
|---|---|---|
| Tetrominos.Side | src/tetrominos.rs:3-19 | a bounding box is 3 cells wide exactly for the odd shapes and 4 exactly for the even ones, and every solid cell lies inside it |
| Tetrominos.IsSolid | src/tetrominos.rs:13-19 | false outside the shape's own grid; inside it, the grid's cell at row y, column x |
| Tetrominos.Step3 | src/tetrominos.rs:29-41 | one clockwise turn puts old cell (2-col, row) at (row, col) |
| Tetrominos.Step4 | src/tetrominos.rs:43-57 | one clockwise turn puts old cell (3-col, row) at (row, col) |
| Tetrominos.Rotated | src/tetrominos.rs:21-26 | rotating keeps the size variant; zero steps is the identity |
| Tetrominos.Rotated3Add | src/tetrominos.rs:29-41 | a turns then b turns of a 3x3 grid are a+b turns |
| Tetrominos.Rotated4Add | src/tetrominos.rs:43-57 | a turns then b turns of a 4x4 grid are a+b turns |
| Tetrominos.RotatedAdd | src/tetrominos.rs:21-57 | rotations compose additively for both variants |
| Tetrominos.Step3Period | src/tetrominos.rs:29-41 | four quarter turns of a 3x3 grid give the grid back |
| Tetrominos.Step4Period | src/tetrominos.rs:43-57 | four quarter turns of a 4x4 grid give the grid back |
| Tetrominos.RotatedFour | src/tetrominos.rs:21-57 | four turns are the identity on every shape |
| Tetrominos.RotatedMod4 | src/tetrominos.rs:21-57 | only steps mod 4 matters |
| Tetrominos.SolidAfterOneTurn | src/tetrominos.rs:13-57 | after one turn, cell (x, y) is solid iff cell (y, side-1-x) was |
| Tetrominos.Rotated3Count | src/tetrominos.rs:29-41 | rotating a 3x3 grid keeps its number of solid cells |
| Tetrominos.Rotated4Count | src/tetrominos.rs:43-57 | rotating a 4x4 grid keeps its number of solid cells |
| Tetrominos.RotatedCount | src/tetrominos.rs:21-57 | every rotation of a shape has as many solid cells as the shape |
| Tetrominos.TableShapes | src/tetrominos.rs:61-86 | the kind and name tables have 8 entries; kind 0 is the empty grid named NONE; kinds 1..7 have exactly four solid cells |
| Tetrominos.RgbaBytes | src/tetrominos.rs:94-101 | the four bytes, most significant first, reassemble the word |
| Tetrominos.Unit | src/tetrominos.rs:94-101 | byte/255 lies in [0, 1], is 0 exactly for byte 0 and 1 exactly for 0xff |
| Tetrominos.Rgba | src/tetrominos.rs:94-101 | every channel lies in [0, 1]; the colour is opaque exactly when the low byte is 0xff, and black in r, g, b exactly when the top three bytes are 0 |
| Tetrominos.UnitInjective | src/tetrominos.rs:94-101 | two bytes with the same component value are the same byte |
| Tetrominos.RgbaInjective | src/tetrominos.rs:94-101 | two words with the same colour are the same word |
| Tetrominos.RgbWord | src/tetrominos.rs:103-105 | shifting left by 8 and or-ing 0xff moves the low three bytes up and makes alpha 0xff |
| Tetrominos.Rgb | src/tetrominos.rs:103-105 | opaque, with r, g, b the word's low three bytes over 255 |
| Tetrominos.TableColors | src/tetrominos.rs:107-118 | 8 colours; kind 0 is transparent black; kinds 1..7 are opaque and not black, so a colour is black exactly for kind 0 |
| Gpu.NewWithScale | src/engine/gpu.rs:41-49 | opaque black fill with the given scale, every other field the default |
| Gpu.DefaultFields | src/engine/gpu.rs:51-63 | the default record: both colours transparent black, at the origin, z 0, width 0, angle 0, scale 1, zero padding |
| Gpu.WithId.NewFillVertex | src/engine/gpu.rs:82-90 | a fill vertex keeps its position, gets a zero normal and the constructor's id |
| Gpu.WithId.NewStrokeVertex | src/engine/gpu.rs:92-100 | a stroke vertex takes its position on the path and its normal, with the constructor's id |
| Gpu.WithId.FillVertices | src/engine/gpu.rs:82-90 | tessellating a fill maps vertices one to one with positions kept, zero normals and the id |
| Gpu.WithId.StrokeVertices | src/engine/gpu.rs:92-100 | tessellating a stroke maps vertices one to one with path positions, normals and the id |
| GeoEntities.GeoEntity.constructor | src/engine/entities/geo_entity.rs:42-67 | requires instances <= 180 as the source asserts; stores geometry, scale and instance count, ranges in the order fill then stroke, no renderer, and a fresh buffer of 180 NewWithScale(scale) records |
| Input.FlowAfterInput | src/engine/mod.rs:715-838 | MainEventsCleared leaves the control flow as it was; close, destroy and Escape set Exit; every other event sets Poll |
| Playfield.CheckIfFree | src/engine/mod.rs:841-860 | returns true iff every solid cell of the 4x4 box lands on an existing, empty board cell; bounds are checked before the board is indexed |
| Playfield.FreeAtOriginOnEmptyBoard | src/engine/mod.rs:479-487 | any shape fits at (0, 0) on the empty 10x16 board |
| Playfield.FreeKeepsCellOnBoard | src/engine/mod.rs:841-860 | a legal shape's solid cell (x, y) lands inside the board |
| Playfield.SolidCellExists | src/tetrominos.rs:13-19 | a shape with a solid cell has one inside its 4x4 box |
| Playfield.LegalPieceBounded | src/engine/mod.rs:556-573 | a legal real piece at any rotation lies in [-3, 9] x [-3, 15], so adding a unit intent stays within i32 |
| Scene.InitialScene | src/engine/mod.rs:111-133 | the initial scene satisfies the invariant, matches its shape, is legal on the empty board, is inactive and asks for textures |
| Scene.LegalSceneBounded | src/engine/mod.rs:556-573 | a reachable legal scene's position lies in [-3, 9] x [-3, 15] |
| Scene.SpawnIsLegal | src/engine/mod.rs:479-487 | spawning any kind of RANGE keeps the invariant and stands legal at the origin; the kind is never 7 (L) |
| Scene.RotationOutcome | src/engine/mod.rs:489-500 | no rotation is pending afterwards; the piece turned to the target exactly when the candidate fits, otherwise matrix and rotation are unchanged; no other field changes |
| Scene.RotationKeepsInvariant | src/engine/mod.rs:489-500 | resolving a rotation keeps the invariant, the shape match and legality |
| Scene.SpawnTakesPendingRotation | src/engine/mod.rs:479-500 | a spawned piece on the empty board is turned in the same frame to the kept request: kind k at the origin with rotation and matrix of the requested rotation |
| Scene.GravityInterval | src/engine/mod.rs:547-548 | the gravity interval is positive, and 2 seconds at speed 1 |
| Scene.GravityOncePerInterval | src/engine/mod.rs:547-553 | once the timer has fired at t, it does not fire again at any time at most one interval later |
| Scene.GravityTimer | src/engine/mod.rs:547-553 | at a time no earlier than the last step the timer stays or restarts at that time, never going back; a firing asks for one row down and changes nothing else |
| Scene.MoveOutcome | src/engine/mod.rs:556-589 | both intents are zero afterwards; the piece is at the target exactly when the move was requested and free; nothing else changes |
| Scene.MoveKeepsInvariant | src/engine/mod.rs:556-589 | a move keeps the invariant, the shape match and legality |
| Scene.EntitySteps | src/engine/mod.rs:502-591 | the steps of the entity loop never change the speed |
| Scene.EntityStepIdempotent | src/engine/mod.rs:547-589 | a second entity turn at the same time changes nothing more |
| Scene.EntityStepsCollapse | src/engine/mod.rs:502-591 | n >= 1 entity turns act like one turn, and zero turns change nothing |
| Scene.EntityStepKeepsInvariant | src/engine/mod.rs:547-589 | an entity turn keeps the invariant and legality and never changes kind, rotation, matrix, activity or target rotation |
| Scene.FrameKeepsInvariant | src/engine/mod.rs:472-592 | a frame on the empty board keeps the invariant, the shape match and legality, and leaves an active real piece with no pending rotation |
| Scene.FrameClearsIntents | src/engine/mod.rs:502-591 | with at least one entity, both intents are zero after the frame |
| Scene.AfterInput | src/engine/mod.rs:715-838 | an input event never moves the piece, changes its matrix, rotation, kind or gravity timer, and never activates a piece |
| Scene.InputKeepsInvariant | src/engine/mod.rs:767-815 | every event keeps the invariant, the shape match and legality |
| Scene.TurnKeyRequestsQuarterTurn | src/engine/mod.rs:804-806 | Space asks for rotation (r+1) mod 4, and that candidate is the current matrix turned once |
| Scene.BackKeyRequestsQuarterTurnBack | src/engine/mod.rs:807-809 | Back asks for rotation (r+3) mod 4, and that candidate is the current matrix turned three times |
| Slots.OverlaySlot | src/engine/mod.rs:367 | overlay cell (r, c) is slot 160 + 4r + c, inside the 180-record buffer, and the slot gives r and c back |
| Slots.OverlayCells | src/engine/mod.rs:360-385 | the overlay sits over the box's board cell at the entity's scale; a solid cell gets the kind's colour, a white stroke, width 0.3 and z 160; an empty one gets the clear magenta colours and keeps width and z; no slot outside the overlay changes |
| Slots.OverlayFollowsPiece | src/engine/mod.rs:360-385 | after update_tet, and after the move branch's translation (lines 575-582), every overlay slot sits over its cell of the box at the new position |
| Slots.TranslateRedraws | src/engine/mod.rs:575-582 | translating a drawn overlay to a new position is the same as drawing it there |
| Slots.BoardStroke | src/engine/mod.rs:515-534 | the stroke is an opaque grey; it is the cell's weight when the fill is black and black otherwise |
| Slots.PaintTouchesOnlyBoardStrokes | src/engine/mod.rs:504-534 | the board pass changes only the strokes of slots 0..159, and a second pass with the same weights changes nothing |
| Slots.PaintKeepsTracking | src/engine/mod.rs:504-534 | the board pass does not disturb the overlay's position |
| Slots.PaintedKindStroke | src/engine/mod.rs:515-534 | a cell filled with a real kind's colour gets an opaque black stroke; an empty-coloured cell gets its shimmer weight |
| Slots.FreshBoardShimmers | src/engine/entities/geo_entity.rs:54-56 | a new entity's board fills are opaque black, so each board stroke takes its cell's shimmer weight |
| Slots.PaintAndOverlayCommute | src/engine/mod.rs:502-589 | the board pass and the overlay translation write disjoint slots and commute |
| Slots.OverlayStep | src/engine/mod.rs:365-382 | writing overlay cell (r, c) extends the overlay drawn so far by that one slot |
| Slots.TranslateStep | src/engine/mod.rs:575-582 | translating cell (r, c) extends the translation done so far by that one slot |
| Slots.WriteOverlay | src/engine/mod.rs:364-384 | the array becomes WithOverlay of its old contents |
| Slots.TranslateOverlay | src/engine/mod.rs:575-582 | the array becomes Translated of its old contents |
| Slots.PaintBoard | src/engine/mod.rs:504-534 | the array becomes Painted of its old contents |
| Engine.EntityBufferTracks | src/engine/mod.rs:502-589 | an entity turn keeps the overlay over the piece when the scene's position is the one drawn |
| Engine.RedrawTracks | src/engine/mod.rs:479-500 | after the spawn and rotation branches the overlay sits over the piece: a spawn redraws it whatever the buffer held, and an active piece's tracking overlay keeps tracking |
| Engine.FirstEntityOverlayTracks | src/engine/mod.rs:472-592 | after a frame the first entity's overlay sits over the piece's box if it did before or the frame spawned a piece, which covers the first frame of a fresh buffer |
| Engine.LaterEntitiesMissTheMove | src/engine/mod.rs:502-591 | with an active piece and no pending rotation, every entity after the first only has its board strokes repainted |
| Engine.Engine.constructor | src/engine/mod.rs:111-183 | initial scene, no entities, empty board, time 0 |
| Engine.Engine.AddEntity | src/engine/mod.rs:221-225 | appends the entity and returns its index, the last one |
| Engine.Engine.UpdateTet | src/engine/mod.rs:360-385 | every entity's buffer becomes WithOverlay of the current kind, matrix and position at its scale |
| Engine.Engine.Spawn | src/engine/mod.rs:479-487 | picks a kind in RANGE, resets position, rotation and matrix, redraws every overlay at the origin, and activates the piece |
| Engine.Engine.ResolveRotation | src/engine/mod.rs:489-500 | the scene becomes RotationResolved, and the overlays are redrawn exactly when the rotation commits |
| Engine.Engine.ApplyGravity | src/engine/mod.rs:547-553 | the scene becomes Gravity of the old scene |
| Engine.Engine.ResolveMove | src/engine/mod.rs:556-589 | the scene becomes MoveResolved; the entity's overlay is translated to the target exactly when the move commits |
| Engine.Engine.StepEntity | src/engine/mod.rs:502-591 | entity i's turn: scene becomes EntityStep, its buffer EntityBuffer, and no other buffer changes |
| Engine.Engine.StepEntities | src/engine/mod.rs:502-591 | entity i's buffer is EntityBuffer for the scene the first i turns left; the scene is EntitySteps over all entities |
| Engine.Engine.UpdateState | src/engine/mod.rs:472-592 | the scene becomes FrameScene, each buffer FrameBuffer; an active piece keeps its kind, an inactive one is replaced from RANGE |
| Engine.Engine.PressKey | src/engine/mod.rs:767-823 | a key other than Escape updates the scene as AfterInput says and keeps the invariant |
| Engine.Engine.ProcessInput | src/engine/mod.rs:715-838 | the scene becomes AfterInput; polling continues exactly for events that do not stop it; the flow is FlowAfterInput |
| Engine.Engine.CreateSceneTextures | src/engine/mod.rs:418-422 | only the size-changed flag is cleared |
| Engine.Engine.PrepareFrame | src/engine/mod.rs:458-470 | a frame exactly when the swap chain gives one; Outdated records the inner size and sets the flag; other errors change nothing |
| Engine.Engine.RunIteration | src/engine/mod.rs:387-416 | the flow is FlowAfterInput; an event that keeps polling or a missing frame leaves buffers and time alone; a polling event leaves the scene as AfterInput; otherwise the size flag is cleared, Outdated records the inner size and sets it again, another error changes nothing more, and a frame gives the scene FrameScene and every buffer FrameBuffer of the input-updated scene at the previous time, then stores the elapsed time |
| Demo.SeedKind | src/main.rs:230-236 | the kind for row r and column c is an index of the shape table |
| Demo.SeedTetrion | src/main.rs:234-249 | the cell value is its band's kind where that shape is solid at the (mirrored) column, else 0 |
| Demo.SeedPlayfield | src/main.rs:226-260 | 160 cells, cell (r, c) at index 10r + c holding SeedCell(r, c) |
| Demo.SeedCellValues | src/main.rs:226-260 | every seeded value indexes the shape, name and colour tables, and is nonzero exactly where the band's shape is solid |
| Demo.SeedKindPlacement | src/main.rs:230-236 | an occupied cell's kind is below 4 exactly in the left half, and its band of rows is kind mod 4 |
| Demo.InstanceRecordFields | src/main.rs:276-327 | fill record id is opaque black exactly for an empty cell, with z 1 for empty and id+1 otherwise, width 0, scale 0.8, at the cell's position; stroke record id+160 is the same, 0.3 wide and black |
| Demo.BuildPrimitives | src/main.rs:214-327 | a fresh array of 340 records: the first 320 are the instance records, the last 20 the initial red record |
| Demo.DemoScene.constructor | src/main.rs:333-345 | points and background shown, window 1024x768, size changed |
| Demo.DemoScene.UpdateInputs | src/main.rs:876-981 | P toggles the points, B the background, a resize records the new size and sets the flag; polling continues exactly for non-stopping events; the flow is FlowAfterInput |
| Demo.DemoScene.RunIteration | src/main.rs:621-675 | P toggles the points and B the background on every path; a polling event leaves the size and flag as UpdateInputs does; otherwise the flag is cleared, the frame renders exactly when the swap chain gives one, Outdated records the inner size and sets the flag again, and any other answer keeps the old size |

## Left out

- Floating point: `f32` values are modelled as exact reals. Rounding in
  `(2000 / speed) / 1000`, in the speed factors 0.8 and 1.25, and in the
  slot positions is not captured.
- The shimmer formula (sines of time, absolute values) is a parameter
  `shimmer(time, idx)`. Its value only matters on black-filled cells.
- Camera state: zoom, scroll, cursor, stroke width and their easing. No
  game decision depends on them.
- Mouse-wheel events and the PageUp, PageDown and A keys only change camera
  state, so the model leaves those events out.
- Rendering, device, swap chain, pipeline and texture creation, FPS and
  window title. These are foreign calls. The swap chain's answer is the
  `acquire` parameter and the window's size the `innerSize` parameter.
- The clock: `anim_secs` is taken from the `elapsed` parameter.
- The random generator: `Engine.Spawn` makes a nondeterministic choice of a
  kind in `RANGE`.
- Logging and `println!` output.
- The renderer, bind groups and `init_render` of `GeoEntity`, and the whole
  of `entity.rs`, `entity_builder.rs`, `bg_entity.rs`, `paths.rs`,
  `config.rs`, `error.rs`, `lib.rs` and `build.rs`. These are set-up and
  rendering code, not game logic.
- The tessellation done by lyon is not part of this model. `FillVertices`
  and `StrokeVertices` model only the per-vertex constructors.
- In the binary, the arrow keys and Z only change camera state, so they are
  left out.
- Integer widths: rotations are `u8`, kinds `usize` and positions `i32` in
  the source. The model uses unbounded integers. `Playfield.LegalPieceBounded`
  shows that legal positions and one-step targets stay far inside `i32`.
- The never-returning `event_loop.run` itself: the model gives one call of
  its closure (`Engine.Engine.RunIteration`, `Demo.DemoScene.RunIteration`).
- The binary's per-frame jitter of the instance translates (sines of the
  time and the instance index, src/main.rs:691-707) is floating-point
  animation with no game decision depending on it.
