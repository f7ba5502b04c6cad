/**
 * How the engine uses one entity's primitive buffer: slots 0..159 are the
 * board cells, slots 160..175 the 4x4 box of the active piece (the
 * overlay). The functions say what each in-place pass leaves in the
 * buffer; the methods perform the passes over the array.
 */
module Slots {
  import opened Tetrominos
  import opened Gpu
  import opened Playfield

  /** Side of one board cell in world units. */
  const TETRION_SIZE: real := 8.0
  const OVERLAY_SLOTS: nat := 16

  const WHITE: Color := Color(1.0, 1.0, 1.0, 1.0)
  /** The fill and stroke of an empty overlay cell: magenta with alpha 0, so nothing shows. */
  const CLEAR_MAGENTA: Color := Color(1.0, 0.0, 1.0, 0.0)

  /** The buffer slot of overlay cell (r, c); the overlay ends below the buffer's capacity. */
  function OverlaySlot(r: nat, c: nat): (slot: nat)
    requires r < 4 && c < 4
    ensures PLAYFIELD_SIZE <= slot < PLAYFIELD_SIZE + OVERLAY_SLOTS <= PRIM_BUFFER_LEN
    ensures (slot - PLAYFIELD_SIZE) / 4 == r && (slot - PLAYFIELD_SIZE) % 4 == c
  {
    assert r == 0 || r == 1 || r == 2 || r == 3;
    PLAYFIELD_SIZE + r * 4 + c
  }

  /** World position of the board cell under overlay cell (r, c) when the box stands at pos. */
  function CellTranslate(pos: Pos, r: nat, c: nat): Vec2 {
    Vec2((pos.x + c) as real * TETRION_SIZE, (pos.y + r) as real * TETRION_SIZE)
  }

  // ---------------------------------------------------------------------
  // The overlay: update_tet and the move branch of update_state
  // ---------------------------------------------------------------------

  /**
   * Overlay cell (r, c) of piece kind k with matrix m at pos: translated
   * over its board cell at the entity's scale; a solid cell gets the kind's
   * colour, a white stroke, width 0.3 and z 160, an empty one the clear
   * colours with width and z left as they were.
   */
  function OverlayCell(p: Primitive, k: Tetromino, m: TetroShape, pos: Pos, scale: real, r: nat, c: nat): Primitive
    requires k < |COLORS|
  {
    var q := p.(translate := CellTranslate(pos, r, c), scale := scale);
    if IsSolid(m, c, r) then
      q.(colorStroke := WHITE, color := COLORS[k], width := 0.3, zIndex := PLAYFIELD_SIZE)
    else
      q.(colorStroke := CLEAR_MAGENTA, color := CLEAR_MAGENTA)
  }

  /** The buffer once the first n overlay slots have been written. */
  function OverlayUpTo(b: seq<Primitive>, k: Tetromino, m: TetroShape, pos: Pos, scale: real, n: nat): seq<Primitive>
    requires k < |COLORS|
  {
    seq(|b|, i requires 0 <= i < |b| =>
      if PLAYFIELD_SIZE <= i < PLAYFIELD_SIZE + n then
        OverlayCell(b[i], k, m, pos, scale, (i - PLAYFIELD_SIZE) / 4, (i - PLAYFIELD_SIZE) % 4)
      else b[i])
  }

  /** The buffer after update_tet has drawn piece k with matrix m at pos. */
  function WithOverlay(b: seq<Primitive>, k: Tetromino, m: TetroShape, pos: Pos, scale: real): seq<Primitive>
    requires k < |COLORS|
  {
    OverlayUpTo(b, k, m, pos, scale, OVERLAY_SLOTS)
  }

  /** The buffer once the first n overlay slots have been moved over pos. */
  function TranslatedUpTo(b: seq<Primitive>, pos: Pos, n: nat): seq<Primitive> {
    seq(|b|, i requires 0 <= i < |b| =>
      if PLAYFIELD_SIZE <= i < PLAYFIELD_SIZE + n then
        b[i].(translate := CellTranslate(pos, (i - PLAYFIELD_SIZE) / 4, (i - PLAYFIELD_SIZE) % 4))
      else b[i])
  }

  /** The buffer after an accepted move has shifted the overlay to pos. */
  function Translated(b: seq<Primitive>, pos: Pos): seq<Primitive> {
    TranslatedUpTo(b, pos, OVERLAY_SLOTS)
  }

  /** Every overlay slot sits over its board cell for a box at pos. */
  ghost predicate OverlayTracks(b: seq<Primitive>, pos: Pos)
    requires |b| == PRIM_BUFFER_LEN
  {
    forall r: nat, c: nat :: r < 4 && c < 4 ==> b[OverlaySlot(r, c)].translate == CellTranslate(pos, r, c)
  }

  /**
   * Cell by cell, the overlay shows the piece: translate and scale for
   * every cell, the kind's colour exactly on the solid cells, the clear
   * colours elsewhere, and no slot outside 160..175 changes.
   */
  lemma OverlayCells(b: seq<Primitive>, k: Tetromino, m: TetroShape, pos: Pos, scale: real, r: nat, c: nat)
    requires |b| == PRIM_BUFFER_LEN && k < |COLORS| && r < 4 && c < 4
    ensures var o := WithOverlay(b, k, m, pos, scale); var slot := OverlaySlot(r, c);
      && |o| == |b|
      && o[slot].translate == CellTranslate(pos, r, c) && o[slot].scale == scale
      && (IsSolid(m, c, r) ==>
            o[slot].color == COLORS[k] && o[slot].colorStroke == WHITE && o[slot].width == 0.3 && o[slot].zIndex == PLAYFIELD_SIZE)
      && (!IsSolid(m, c, r) ==>
            o[slot].color == CLEAR_MAGENTA && o[slot].colorStroke == CLEAR_MAGENTA
            && o[slot].width == b[slot].width && o[slot].zIndex == b[slot].zIndex)
    ensures forall i :: 0 <= i < |b| && !(PLAYFIELD_SIZE <= i < PLAYFIELD_SIZE + OVERLAY_SLOTS) ==>
      WithOverlay(b, k, m, pos, scale)[i] == b[i]
  {
    var slot := OverlaySlot(r, c);
    assert WithOverlay(b, k, m, pos, scale)[slot] == OverlayCell(b[slot], k, m, pos, scale, r, c);
  }

  /** Drawing the overlay, and moving it, both leave it over the box's board cells. */
  lemma OverlayFollowsPiece(b: seq<Primitive>, k: Tetromino, m: TetroShape, pos: Pos, scale: real, to: Pos)
    requires |b| == PRIM_BUFFER_LEN && k < |COLORS|
    ensures OverlayTracks(WithOverlay(b, k, m, pos, scale), pos)
    ensures OverlayTracks(Translated(b, to), to)
  {
    forall r: nat, c: nat | r < 4 && c < 4
      ensures WithOverlay(b, k, m, pos, scale)[OverlaySlot(r, c)].translate == CellTranslate(pos, r, c)
      ensures Translated(b, to)[OverlaySlot(r, c)].translate == CellTranslate(to, r, c)
    {
      var slot := OverlaySlot(r, c);
      assert slot - PLAYFIELD_SIZE < OVERLAY_SLOTS;
    }
  }

  /** Moving a drawn overlay to a new position is the same as drawing it there. */
  lemma TranslateRedraws(b: seq<Primitive>, k: Tetromino, m: TetroShape, pos: Pos, scale: real, to: Pos)
    requires |b| == PRIM_BUFFER_LEN && k < |COLORS|
    ensures Translated(WithOverlay(b, k, m, pos, scale), to) == WithOverlay(b, k, m, to, scale)
  {
    var lhs := Translated(WithOverlay(b, k, m, pos, scale), to);
    var rhs := WithOverlay(b, k, m, to, scale);
    forall i | 0 <= i < |b| ensures lhs[i] == rhs[i] {
      if PLAYFIELD_SIZE <= i < PLAYFIELD_SIZE + OVERLAY_SLOTS {
        var r, c := (i - PLAYFIELD_SIZE) / 4, (i - PLAYFIELD_SIZE) % 4;
        assert lhs[i] == OverlayCell(b[i], k, m, pos, scale, r, c).(translate := CellTranslate(to, r, c));
      }
    }
  }

  // ---------------------------------------------------------------------
  // The board pass of update_state
  // ---------------------------------------------------------------------

  /** A board cell's stroke: an opaque grey of the given weight on a black fill, opaque black otherwise. */
  function BoardStroke(fill: Color, weight: real): (stroke: Color)
    ensures stroke.a == 1.0 && stroke.r == stroke.g == stroke.b
    ensures !IsBlackRgb(fill) ==> stroke == Color(0.0, 0.0, 0.0, 1.0)
    ensures IsBlackRgb(fill) ==> stroke.r == weight
  {
    var w := if IsBlackRgb(fill) then weight else 0.0;
    Color(w, w, w, 1.0)
  }

  /** The buffer once the first n board strokes have been set, weight(i) being cell i's shimmer. */
  function PaintedUpTo(b: seq<Primitive>, weight: nat -> real, n: nat): seq<Primitive> {
    seq(|b|, i requires 0 <= i < |b| =>
      if i < n then b[i].(colorStroke := BoardStroke(b[i].color, weight(i))) else b[i])
  }

  function Painted(b: seq<Primitive>, weight: nat -> real): seq<Primitive> {
    PaintedUpTo(b, weight, PLAYFIELD_SIZE)
  }

  /**
   * The board pass changes only the strokes of the board slots: fills and
   * everything in the overlay and beyond stay as they were, and a second
   * pass with the same weights changes nothing.
   */
  lemma PaintTouchesOnlyBoardStrokes(b: seq<Primitive>, weight: nat -> real)
    requires |b| == PRIM_BUFFER_LEN
    ensures |Painted(b, weight)| == |b|
    ensures forall i :: 0 <= i < |b| ==> Painted(b, weight)[i].(colorStroke := b[i].colorStroke) == b[i]
    ensures forall i :: PLAYFIELD_SIZE <= i < |b| ==> Painted(b, weight)[i] == b[i]
    ensures Painted(Painted(b, weight), weight) == Painted(b, weight)
  {
    var p := Painted(b, weight);
    forall i | 0 <= i < |b| ensures Painted(p, weight)[i] == p[i] {
      if i < PLAYFIELD_SIZE {
        assert p[i].color == b[i].color;
      }
    }
  }

  /** The board pass keeps the overlay where it was. */
  lemma PaintKeepsTracking(b: seq<Primitive>, weight: nat -> real, pos: Pos)
    requires |b| == PRIM_BUFFER_LEN && OverlayTracks(b, pos)
    ensures OverlayTracks(Painted(b, weight), pos)
  {
    forall r: nat, c: nat | r < 4 && c < 4
      ensures Painted(b, weight)[OverlaySlot(r, c)].translate == CellTranslate(pos, r, c)
    {
      assert Painted(b, weight)[OverlaySlot(r, c)] == b[OverlaySlot(r, c)];
    }
  }

  /** Over a fill of a piece kind 1..7 the stroke weight is zero; over the empty kind's colour it is the shimmer. */
  lemma PaintedKindStroke(b: seq<Primitive>, weight: nat -> real, i: nat, k: Tetromino)
    requires |b| == PRIM_BUFFER_LEN && i < PLAYFIELD_SIZE && k < |COLORS| && b[i].color == COLORS[k]
    ensures k != 0 ==> Painted(b, weight)[i].colorStroke == Color(0.0, 0.0, 0.0, 1.0)
    ensures k == 0 ==> Painted(b, weight)[i].colorStroke == Color(weight(i), weight(i), weight(i), 1.0)
  {
    TableColors();
    assert IsBlackRgb(COLORS[k]) <==> k == 0;
    assert Painted(b, weight)[i].colorStroke == BoardStroke(COLORS[k], weight(i));
  }

  /**
   * A new entity's board fills are opaque black, and the game logic never
   * recolours them, so every board stroke takes its cell's shimmer weight.
   */
  lemma FreshBoardShimmers(scale: real, weight: nat -> real, i: nat)
    requires i < PLAYFIELD_SIZE
    ensures var b := seq(PRIM_BUFFER_LEN, _ => NewWithScale(scale));
      Painted(b, weight)[i].colorStroke == Color(weight(i), weight(i), weight(i), 1.0)
  {
    var b := seq(PRIM_BUFFER_LEN, _ => NewWithScale(scale));
    assert IsBlackRgb(b[i].color);
  }

  /** The overlay and the board pass write disjoint slots, so their order does not matter. */
  lemma PaintAndOverlayCommute(b: seq<Primitive>, weight: nat -> real, pos: Pos)
    requires |b| == PRIM_BUFFER_LEN
    ensures Translated(Painted(b, weight), pos) == Painted(Translated(b, pos), weight)
  {
  }

  // ---------------------------------------------------------------------
  // The passes over the array
  // ---------------------------------------------------------------------

  lemma OverlayStep(b: seq<Primitive>, k: Tetromino, m: TetroShape, pos: Pos, scale: real, r: nat, c: nat)
    requires |b| == PRIM_BUFFER_LEN && k < |COLORS| && r < 4 && c < 4
    ensures OverlayUpTo(b, k, m, pos, scale, r * 4 + c + 1)
         == OverlayUpTo(b, k, m, pos, scale, r * 4 + c)[OverlaySlot(r, c) := OverlayCell(b[OverlaySlot(r, c)], k, m, pos, scale, r, c)]
  {
    var _ := OverlaySlot(r, c);
  }

  lemma TranslateStep(b: seq<Primitive>, pos: Pos, r: nat, c: nat)
    requires |b| == PRIM_BUFFER_LEN && r < 4 && c < 4
    ensures TranslatedUpTo(b, pos, r * 4 + c + 1)
         == TranslatedUpTo(b, pos, r * 4 + c)[OverlaySlot(r, c) := b[OverlaySlot(r, c)].(translate := CellTranslate(pos, r, c))]
  {
    var _ := OverlaySlot(r, c);
  }

  /** update_tet's loop over one entity: draws piece k with matrix m at pos into the overlay slots. */
  method WriteOverlay(prims: array<Primitive>, k: Tetromino, m: TetroShape, pos: Pos, scale: real)
    requires prims.Length == PRIM_BUFFER_LEN && k < |COLORS|
    modifies prims
    ensures prims[..] == WithOverlay(old(prims[..]), k, m, pos, scale)
  {
    ghost var b := prims[..];
    for r := 0 to 4
      invariant prims[..] == OverlayUpTo(b, k, m, pos, scale, r * 4)
    {
      for c := 0 to 4
        invariant prims[..] == OverlayUpTo(b, k, m, pos, scale, r * 4 + c)
      {
        var slot := PLAYFIELD_SIZE + r * 4 + c;
        assert slot == OverlaySlot(r, c);
        var prim := prims[slot];
        var solid := IsSolid(m, c, r);
        prim := prim.(translate := Vec2((pos.x + c) as real * TETRION_SIZE, (pos.y + r) as real * TETRION_SIZE), scale := scale);
        if solid {
          prim := prim.(colorStroke := WHITE, color := COLORS[k], width := 0.3, zIndex := PLAYFIELD_SIZE);
        } else {
          prim := prim.(colorStroke := CLEAR_MAGENTA, color := CLEAR_MAGENTA);
        }
        OverlayStep(b, k, m, pos, scale, r, c);
        prims[slot] := prim;
      }
    }
  }

  /** The move branch's loop over one entity: moves every overlay slot over its cell at pos. */
  method TranslateOverlay(prims: array<Primitive>, pos: Pos)
    requires prims.Length == PRIM_BUFFER_LEN
    modifies prims
    ensures prims[..] == Translated(old(prims[..]), pos)
  {
    ghost var b := prims[..];
    for r := 0 to 4
      invariant prims[..] == TranslatedUpTo(b, pos, r * 4)
    {
      for c := 0 to 4
        invariant prims[..] == TranslatedUpTo(b, pos, r * 4 + c)
      {
        var slot := PLAYFIELD_SIZE + r * 4 + c;
        assert slot == OverlaySlot(r, c);
        TranslateStep(b, pos, r, c);
        prims[slot] := prims[slot].(translate := Vec2((pos.x + c) as real * TETRION_SIZE, (pos.y + r) as real * TETRION_SIZE));
      }
    }
  }

  /** The board loop over one entity: sets each board slot's stroke from its fill and shimmer weight. */
  method PaintBoard(prims: array<Primitive>, weight: nat -> real)
    requires prims.Length == PRIM_BUFFER_LEN
    modifies prims
    ensures prims[..] == Painted(old(prims[..]), weight)
  {
    ghost var b := prims[..];
    for idx := 0 to PLAYFIELD_SIZE
      invariant prims[..] == PaintedUpTo(b, weight, idx)
    {
      var w := if IsBlackRgb(prims[idx].color) then weight(idx) else 0.0;
      assert PaintedUpTo(b, weight, idx + 1) == PaintedUpTo(b, weight, idx)[idx := b[idx].(colorStroke := BoardStroke(b[idx].color, weight(idx)))];
      prims[idx] := prims[idx].(colorStroke := Color(w, w, w, 1.0));
    }
  }
}
