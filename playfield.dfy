/**
 * The 10x16 playfield and the placement-legality check for a piece's
 * bounding box at a board position.
 */
module Playfield {
  import opened Tetrominos

  const PLAYFIELD_COLS: int := 10
  const PLAYFIELD_ROWS: int := 16
  const PLAYFIELD_SIZE: nat := 160

  /** Row-major cells, each 0 (empty) or the kind that occupies it. */
  type Board = b: seq<nat> | |b| == PLAYFIELD_SIZE witness seq(160, _ => 0)

  const EMPTY_BOARD: Board := seq(PLAYFIELD_SIZE, _ => 0)

  /** A board position (column, row) of a bounding box's top-left cell; i32 in the source. */
  datatype Pos = Pos(x: int, y: int)

  /** The board cell at column col, row row exists and is empty. */
  predicate CellFree(board: Board, col: int, row: int) {
    0 <= col < PLAYFIELD_COLS && 0 <= row < PLAYFIELD_ROWS && board[row * PLAYFIELD_COLS + col] == 0
  }

  /**
   * A shape may stand at pos: every solid cell of its 4x4 box lands on an
   * existing, empty board cell.
   */
  predicate IsFree(pos: Pos, shape: TetroShape, board: Board) {
    forall r: nat, c: nat :: r < 4 && c < 4 && IsSolid(shape, c, r) ==> CellFree(board, pos.x + c, pos.y + r)
  }

  /**
   * check_if_free: walks the 4x4 box row by row and returns false at the
   * first solid cell that is off the board or on an occupied cell; bounds
   * are checked before the board is indexed.
   */
  method CheckIfFree(pos: Pos, shape: TetroShape, blocks: Board) returns (free: bool)
    ensures free == IsFree(pos, shape, blocks)
  {
    for r := 0 to 4
      invariant forall r': nat, c': nat :: r' < r && c' < 4 && IsSolid(shape, c', r') ==> CellFree(blocks, pos.x + c', pos.y + r')
    {
      var offsetRow := r + pos.y;
      var blockRow := offsetRow * PLAYFIELD_COLS;
      for c := 0 to 4
        invariant forall r': nat, c': nat :: r' < r && c' < 4 && IsSolid(shape, c', r') ==> CellFree(blocks, pos.x + c', pos.y + r')
        invariant forall c': nat :: c' < c && IsSolid(shape, c', r) ==> CellFree(blocks, pos.x + c', pos.y + r)
      {
        var offsetCol := c + pos.x;
        var solid := match shape
          case Odd(t) => if c < 3 && r < 3 then t[r][c] else false
          case Even(t) => t[r][c];
        if solid && (offsetRow < 0 || offsetRow >= PLAYFIELD_ROWS ||
                     offsetCol < 0 || offsetCol >= PLAYFIELD_COLS ||
                     blocks[blockRow + offsetCol] != 0) {
          assert IsSolid(shape, c, r) && !CellFree(blocks, pos.x + c, pos.y + r);
          return false;
        }
      }
    }
    return true;
  }

  /** Any shape fits at the origin of the empty board: the box is 4x4 and the board 10x16. */
  lemma FreeAtOriginOnEmptyBoard(shape: TetroShape)
    ensures IsFree(Pos(0, 0), shape, EMPTY_BOARD)
  {
  }

  /** A shape with a solid cell at (x, y) can only be legal where that cell is on the board. */
  lemma FreeKeepsCellOnBoard(pos: Pos, shape: TetroShape, board: Board, x: nat, y: nat)
    requires IsFree(pos, shape, board) && IsSolid(shape, x, y)
    ensures 0 <= pos.x + x < PLAYFIELD_COLS && 0 <= pos.y + y < PLAYFIELD_ROWS
  {
  }

  /** A shape with a solid cell has one inside its 4x4 box. */
  lemma SolidCellExists(s: TetroShape) returns (x: nat, y: nat)
    requires SolidCount(s) > 0
    ensures x < 4 && y < 4 && IsSolid(s, x, y)
  {
    match s
    case Odd(t) =>
      var r, c :| 0 <= r < 3 && 0 <= c < 3 && t[r][c];
      x, y := c, r;
    case Even(t) =>
      var r, c :| 0 <= r < 4 && 0 <= c < 4 && t[r][c];
      x, y := c, r;
  }

  /**
   * Wherever a real piece (kind 1..7, any rotation) is legal, its position
   * lies in [-3, 9] x [-3, 15], so adding a unit move stays far inside i32.
   */
  lemma LegalPieceBounded(k: nat, steps: nat, pos: Pos, board: Board)
    requires 1 <= k < 8
    requires IsFree(pos, Rotated(ALL[k], steps), board)
    ensures -3 <= pos.x <= PLAYFIELD_COLS - 1 && -3 <= pos.y <= PLAYFIELD_ROWS - 1
  {
    TableShapes();
    RotatedCount(ALL[k], steps);
    var x, y := SolidCellExists(Rotated(ALL[k], steps));
    FreeKeepsCellOnBoard(pos, Rotated(ALL[k], steps), board, x, y);
  }
}
