/**
 * The shape table of the seven pieces (plus the empty sentinel), their
 * quarter-turn rotation, and their names and colours.
 */
module Tetrominos {

  // ---------------------------------------------------------------------
  // Grids
  // ---------------------------------------------------------------------

  /** A square boolean grid with n rows of n cells, indexed m[row][col]. */
  ghost predicate IsGrid(m: seq<seq<bool>>, n: nat) {
    |m| == n && forall r :: 0 <= r < n ==> |m[r]| == n
  }

  type Grid3 = m: seq<seq<bool>> | IsGrid(m, 3)
    witness [[false, false, false], [false, false, false], [false, false, false]]

  type Grid4 = m: seq<seq<bool>> | IsGrid(m, 4)
    witness [[false, false, false, false], [false, false, false, false],
             [false, false, false, false], [false, false, false, false]]

  /** A piece's bounding box: 4x4 for the even pieces, 3x3 for the odd ones. */
  datatype TetroShape = Even(t4: Grid4) | Odd(t3: Grid3)

  /** The side length of a shape's bounding box: every solid cell lies inside it. */
  function Side(s: TetroShape): (n: nat)
    ensures s.Odd? <==> n == 3
    ensures s.Even? <==> n == 4
    ensures forall x: nat, y: nat :: IsSolid(s, x, y) ==> x < n && y < n
  {
    if s.Odd? then 3 else 4
  }

  /**
   * Whether the cell at column x, row y is solid. Coordinates outside the
   * grid are never solid, so callers can walk a uniform 4x4 box.
   */
  function IsSolid(s: TetroShape, x: nat, y: nat): (solid: bool)
    ensures s.Odd? && (x >= 3 || y >= 3) ==> !solid
    ensures x >= 4 || y >= 4 ==> !solid
    ensures s.Odd? && x < 3 && y < 3 ==> solid == s.t3[y][x]
    ensures s.Even? && x < 4 && y < 4 ==> solid == s.t4[y][x]
  {
    match s
    case Odd(t) => if x < 3 && y < 3 then t[y][x] else false
    case Even(t) => if x < 4 && y < 4 then t[y][x] else false
  }

  // ---------------------------------------------------------------------
  // Rotation
  // ---------------------------------------------------------------------

  /**
   * One clockwise quarter turn of a 3x3 grid, as a corner permutation:
   * rows [a b c] [d e f] [g h i] become [g d a] [h e b] [i f c].
   */
  function Step3(m: Grid3): (r: Grid3)
    ensures forall row, col :: 0 <= row < 3 && 0 <= col < 3 ==> r[row][col] == m[2 - col][row]
  {
    [[m[2][0], m[1][0], m[0][0]],
     [m[2][1], m[1][1], m[0][1]],
     [m[2][2], m[1][2], m[0][2]]]
  }

  /**
   * One clockwise quarter turn of a 4x4 grid, as a corner permutation:
   * rows [a b c d] [e f g h] [i j k l] [m n o p] become
   * [m i e a] [n j f b] [o k g c] [p l h d].
   */
  function Step4(x: Grid4): (r: Grid4)
    ensures forall row, col :: 0 <= row < 4 && 0 <= col < 4 ==> r[row][col] == x[3 - col][row]
  {
    [[x[3][0], x[2][0], x[1][0], x[0][0]],
     [x[3][1], x[2][1], x[1][1], x[0][1]],
     [x[3][2], x[2][2], x[1][2], x[0][2]],
     [x[3][3], x[2][3], x[1][3], x[0][3]]]
  }

  /** `steps` quarter turns of a 3x3 grid: one turn, then the remaining ones. */
  function Rotated3(m: Grid3, steps: nat): Grid3
    decreases steps
  {
    if steps == 0 then m else Rotated3(Step3(m), steps - 1)
  }

  /** `steps` quarter turns of a 4x4 grid: one turn, then the remaining ones. */
  function Rotated4(x: Grid4, steps: nat): Grid4
    decreases steps
  {
    if steps == 0 then x else Rotated4(Step4(x), steps - 1)
  }

  /** A new shape turned clockwise `steps` times; the size variant is kept. */
  function Rotated(s: TetroShape, steps: nat): (r: TetroShape)
    ensures r.Odd? <==> s.Odd?
    ensures steps == 0 ==> r == s
  {
    match s
    case Odd(t) => Odd(Rotated3(t, steps))
    case Even(t) => Even(Rotated4(t, steps))
  }

  lemma {:induction false} Rotated3Add(m: Grid3, a: nat, b: nat)
    ensures Rotated3(Rotated3(m, a), b) == Rotated3(m, a + b)
    decreases a
  {
    if a > 0 {
      Rotated3Add(Step3(m), a - 1, b);
    }
  }

  lemma {:induction false} Rotated4Add(x: Grid4, a: nat, b: nat)
    ensures Rotated4(Rotated4(x, a), b) == Rotated4(x, a + b)
    decreases a
  {
    if a > 0 {
      Rotated4Add(Step4(x), a - 1, b);
    }
  }

  /** Turning by a then by b is turning by a + b; in particular n steps are one step and n - 1 more. */
  lemma RotatedAdd(s: TetroShape, a: nat, b: nat)
    ensures Rotated(Rotated(s, a), b) == Rotated(s, a + b)
  {
    match s
    case Odd(t) => Rotated3Add(t, a, b);
    case Even(t) => Rotated4Add(t, a, b);
  }

  lemma Step3Period(m: Grid3)
    ensures Step3(Step3(Step3(Step3(m)))) == m
  {
    var r := Step3(Step3(Step3(Step3(m))));
    forall row | 0 <= row < 3 ensures r[row] == m[row] {
      assert forall col :: 0 <= col < 3 ==> r[row][col] == m[row][col];
    }
  }

  lemma Step4Period(x: Grid4)
    ensures Step4(Step4(Step4(Step4(x)))) == x
  {
    var r := Step4(Step4(Step4(Step4(x))));
    forall row | 0 <= row < 4 ensures r[row] == x[row] {
      assert forall col :: 0 <= col < 4 ==> r[row][col] == x[row][col];
    }
  }

  /** Four quarter turns give back the original grid. */
  lemma RotatedFour(s: TetroShape)
    ensures Rotated(s, 4) == s
  {
    match s
    case Odd(t) =>
      Rotated3Add(t, 1, 3);
      Rotated3Add(Step3(t), 1, 2);
      Rotated3Add(Step3(Step3(t)), 1, 1);
      Step3Period(t);
    case Even(t) =>
      Rotated4Add(t, 1, 3);
      Rotated4Add(Step4(t), 1, 2);
      Rotated4Add(Step4(Step4(t)), 1, 1);
      Step4Period(t);
  }

  /** Rotation has period four: only `steps % 4` matters. */
  lemma {:induction false} RotatedMod4(s: TetroShape, steps: nat)
    ensures Rotated(s, steps) == Rotated(s, steps % 4)
    decreases steps
  {
    if steps >= 4 {
      calc {
        Rotated(s, steps);
        == { RotatedAdd(s, 4, steps - 4); }
        Rotated(Rotated(s, 4), steps - 4);
        == { RotatedFour(s); }
        Rotated(s, steps - 4);
        == { RotatedMod4(s, steps - 4); assert (steps - 4) % 4 == steps % 4; }
        Rotated(s, steps % 4);
      }
    }
  }

  /** After one clockwise turn, cell (x, y) holds what cell (y, n-1-x) held. */
  lemma SolidAfterOneTurn(s: TetroShape, x: nat, y: nat)
    requires x < Side(s) && y < Side(s)
    ensures IsSolid(Rotated(s, 1), x, y) == IsSolid(s, y, Side(s) - 1 - x)
  {
  }

  // ---------------------------------------------------------------------
  // Solid-cell count
  // ---------------------------------------------------------------------

  function Bit(b: bool): nat { if b then 1 else 0 }

  function Count3(m: Grid3): nat {
    Bit(m[0][0]) + Bit(m[0][1]) + Bit(m[0][2]) +
    Bit(m[1][0]) + Bit(m[1][1]) + Bit(m[1][2]) +
    Bit(m[2][0]) + Bit(m[2][1]) + Bit(m[2][2])
  }

  function Count4(x: Grid4): nat {
    Bit(x[0][0]) + Bit(x[0][1]) + Bit(x[0][2]) + Bit(x[0][3]) +
    Bit(x[1][0]) + Bit(x[1][1]) + Bit(x[1][2]) + Bit(x[1][3]) +
    Bit(x[2][0]) + Bit(x[2][1]) + Bit(x[2][2]) + Bit(x[2][3]) +
    Bit(x[3][0]) + Bit(x[3][1]) + Bit(x[3][2]) + Bit(x[3][3])
  }

  /** The number of solid cells of a shape. */
  function SolidCount(s: TetroShape): nat {
    match s
    case Odd(t) => Count3(t)
    case Even(t) => Count4(t)
  }

  lemma {:induction false} Rotated3Count(m: Grid3, steps: nat)
    ensures Count3(Rotated3(m, steps)) == Count3(m)
    decreases steps
  {
    if steps > 0 {
      Rotated3Count(Step3(m), steps - 1);
    }
  }

  lemma {:induction false} Rotated4Count(x: Grid4, steps: nat)
    ensures Count4(Rotated4(x, steps)) == Count4(x)
    decreases steps
  {
    if steps > 0 {
      Rotated4Count(Step4(x), steps - 1);
    }
  }

  /** Rotation only permutes cells, so the number of solid cells is kept. */
  lemma RotatedCount(s: TetroShape, steps: nat)
    ensures SolidCount(Rotated(s, steps)) == SolidCount(s)
  {
    match s
    case Odd(t) => Rotated3Count(t, steps);
    case Even(t) => Rotated4Count(t, steps);
  }

  // ---------------------------------------------------------------------
  // The piece table
  // ---------------------------------------------------------------------

  /** A piece kind: an index into ALL, NAMES and COLORS (0 is the empty sentinel). */
  type Tetromino = nat

  const TI: Tetromino := 1
  const TL: Tetromino := 7

  /** A half-open range start..end. */
  datatype Range = Range(start: nat, end: nat) {
    predicate Contains(k: nat) { start <= k < end }
  }

  const RANGE: Range := Range(TI, TL)

  const NAMES: seq<string> := ["NONE", "I", "O", "T", "S", "Z", "J", "L"]

  const XX := true
  const oo := false

  const TETRO_NONE: Grid3 := [
    [oo, oo, oo],
    [oo, oo, oo],
    [oo, oo, oo]]

  const TETRO_I: Grid4 := [
    [oo, oo, oo, oo],
    [XX, XX, XX, XX],
    [oo, oo, oo, oo],
    [oo, oo, oo, oo]]

  const TETRO_O: Grid4 := [
    [oo, oo, oo, oo],
    [oo, XX, XX, oo],
    [oo, XX, XX, oo],
    [oo, oo, oo, oo]]

  const TETRO_T: Grid3 := [
    [oo, oo, oo],
    [oo, XX, oo],
    [XX, XX, XX]]

  const TETRO_S: Grid3 := [
    [oo, oo, oo],
    [oo, XX, XX],
    [XX, XX, oo]]

  const TETRO_Z: Grid3 := [
    [oo, oo, oo],
    [XX, XX, oo],
    [oo, XX, XX]]

  const TETRO_J: Grid3 := [
    [oo, oo, XX],
    [oo, oo, XX],
    [oo, XX, XX]]

  const TETRO_L: Grid3 := [
    [XX, oo, oo],
    [XX, oo, oo],
    [XX, XX, oo]]

  const ALL: seq<TetroShape> := [
    Odd(TETRO_NONE),
    Even(TETRO_I),
    Even(TETRO_O),
    Odd(TETRO_T),
    Odd(TETRO_S),
    Odd(TETRO_Z),
    Odd(TETRO_J),
    Odd(TETRO_L)]

  /** Index 0 is the empty 3x3 grid; every real piece has exactly four solid cells. */
  lemma TableShapes()
    ensures |ALL| == |NAMES| == 8
    ensures ALL[0] == Odd(TETRO_NONE) && NAMES[0] == "NONE"
    ensures forall x: nat, y: nat :: !IsSolid(ALL[0], x, y)
    ensures forall k :: 1 <= k < 8 ==> SolidCount(ALL[k]) == 4
  {
    forall k | 1 <= k < 8 ensures SolidCount(ALL[k]) == 4 {
      if k == 1 {
        assert SolidCount(ALL[k]) == Count4(TETRO_I);
      } else if k == 2 {
        assert SolidCount(ALL[k]) == Count4(TETRO_O);
      } else {
        assert SolidCount(ALL[k]) == Count3(ALL[k].t3);
      }
    }
  }

  // ---------------------------------------------------------------------
  // Colours
  // ---------------------------------------------------------------------

  /** An RGBA colour with components in [0, 1]. */
  datatype Color = Color(r: real, g: real, b: real, a: real)

  /** Four bytes, most significant first, packed into a 32-bit word. */
  function Packed(bytes: seq<bv8>): bv32
    requires |bytes| == 4
  {
    ((bytes[0] as bv32) << 24) | ((bytes[1] as bv32) << 16) | ((bytes[2] as bv32) << 8) | (bytes[3] as bv32)
  }

  /** The four bytes of a packed 0xRRGGBBAA word, most significant first. */
  function RgbaBytes(x: bv32): (bytes: seq<bv8>)
    ensures |bytes| == 4
    ensures Packed(bytes) == x
  {
    [((x >> 24) & 0xff) as bv8,
     ((x >> 16) & 0xff) as bv8,
     ((x >> 8) & 0xff) as bv8,
     (x & 0xff) as bv8]
  }

  /** A byte as a colour component: byte / 255. */
  function Unit(b: bv8): (v: real)
    ensures 0.0 <= v <= 1.0
    ensures v == 0.0 <==> b == 0
    ensures v == 1.0 <==> b == 0xff
  {
    (b as int) as real / 255.0
  }

  /**
   * The colour of a packed 0xRRGGBBAA word: every channel is in [0, 1], the
   * colour is opaque exactly when the low byte is 0xff, and black in its
   * red, green and blue channels exactly when the top three bytes are 0.
   */
  function Rgba(x: bv32): (c: Color)
    ensures 0.0 <= c.r <= 1.0 && 0.0 <= c.g <= 1.0 && 0.0 <= c.b <= 1.0 && 0.0 <= c.a <= 1.0
    ensures c.a == 1.0 <==> x & 0xff == 0xff
    ensures c.r == 0.0 && c.g == 0.0 && c.b == 0.0 <==> x >> 8 == 0
  {
    var bytes := RgbaBytes(x);
    Color(Unit(bytes[0]), Unit(bytes[1]), Unit(bytes[2]), Unit(bytes[3]))
  }

  /** Distinct bytes give distinct components. */
  lemma UnitInjective(a: bv8, b: bv8)
    requires Unit(a) == Unit(b)
    ensures a == b
  {
    assert (a as int) as real == Unit(a) * 255.0;
    assert (b as int) as real == Unit(b) * 255.0;
  }

  /** Distinct words give distinct colours: no two table entries can be confused. */
  lemma RgbaInjective(x: bv32, y: bv32)
    requires Rgba(x) == Rgba(y)
    ensures x == y
  {
    var xs, ys := RgbaBytes(x), RgbaBytes(y);
    assert Rgba(x) == Color(Unit(xs[0]), Unit(xs[1]), Unit(xs[2]), Unit(xs[3]));
    assert Rgba(y) == Color(Unit(ys[0]), Unit(ys[1]), Unit(ys[2]), Unit(ys[3]));
    UnitInjective(xs[0], ys[0]);
    UnitInjective(xs[1], ys[1]);
    UnitInjective(xs[2], ys[2]);
    UnitInjective(xs[3], ys[3]);
    assert xs == ys;
    assert x == Packed(xs) == Packed(ys) == y;
  }

  /**
   * The packed word for an opaque 0xRRGGBB colour: the low three bytes move
   * up one byte, the top byte falls off the 32-bit word, and alpha is 0xff.
   */
  function RgbWord(x: bv32): (w: bv32)
    ensures RgbaBytes(w)[..3] == RgbaBytes(x)[1..]
    ensures RgbaBytes(w)[3] == 0xff
  {
    (x << 8) | 0xff
  }

  /** An opaque colour given as 0xRRGGBB. */
  function Rgb(x: bv32): (c: Color)
    ensures c.a == 1.0
    ensures c.r == Unit(RgbaBytes(x)[1]) && c.g == Unit(RgbaBytes(x)[2]) && c.b == Unit(RgbaBytes(x)[3])
  {
    Rgba(RgbWord(x))
  }

  const COLORS: seq<Color> := [
    Color(0.0, 0.0, 0.0, 0.0),
    Rgba(0x00C0C0ff),
    Rgba(0xFDE01Aff),
    Rgba(0x732982ff),
    Rgba(0x007940ff),
    Rgb(0xD12229),
    Rgba(0x24408Eff),
    Rgba(0xf68a1eff)]

  /** Black in its red, green and blue channels (alpha is not looked at). */
  predicate IsBlackRgb(c: Color) {
    c.r == 0.0 && c.g == 0.0 && c.b == 0.0
  }

  /**
   * Index 0 is fully transparent black; every real piece is opaque and has
   * a colour that is not black.
   */
  lemma TableColors()
    ensures |COLORS| == 8
    ensures COLORS[0] == Color(0.0, 0.0, 0.0, 0.0)
    ensures forall k :: 1 <= k < 8 ==> COLORS[k].a == 1.0
    ensures forall k :: 0 <= k < 8 ==> (IsBlackRgb(COLORS[k]) <==> k == 0)
  {
    forall k | 1 <= k < 8 ensures COLORS[k].a == 1.0 && !IsBlackRgb(COLORS[k]) {
      if k == 1 {
        assert RgbaBytes(0x00C0C0ff)[1] == 0xC0;
      } else if k == 2 {
        assert RgbaBytes(0xFDE01Aff)[0] == 0xFD;
      } else if k == 3 {
        assert RgbaBytes(0x732982ff)[0] == 0x73;
      } else if k == 4 {
        assert RgbaBytes(0x007940ff)[1] == 0x79;
      } else if k == 5 {
        assert RgbaBytes(0xD12229)[1] == 0xD1;
      } else if k == 6 {
        assert RgbaBytes(0x24408Eff)[0] == 0x24;
      } else {
        assert RgbaBytes(0xf68a1eff)[0] == 0xf6;
      }
    }
  }
}
