/** The 64x32 monochrome framebuffer and the XOR sprite compositing of the
    Dxyn instruction. */
module Screen {
  import opened Prelude
  import opened Layout

  /** The display bits in row-major order: the pixel in column col of row
      row is cell Width * row + col. */
  type Display = d: seq<bool> | |d| == Width * Height witness seq(Width * Height, _ => false)

  /** The cleared display. */
  function Blank(): (d: Display)
    ensures forall c :: 0 <= c < Width * Height ==> !d[c]
  {
    seq(Width * Height, _ => false)
  }

  /** Row-major index of the pixel in column col of row row; the index
      gives both coordinates back. */
  function CellIndex(col: nat, row: nat): (c: nat)
    requires col < Width && row < Height
    ensures c < Width * Height
    ensures c % Width == col && c / Width == row
  {
    Width * row + col
  }

  /** A sprite as Dxyn sees it: the origin read from Vx and Vy and the n
      rows read from memory at I, I+1, ..., I+n-1. */
  datatype Sprite = Sprite(x: Byte, y: Byte, rows: seq<Byte>)

  /** n is a 4-bit field, so a sprite has at most 15 rows. */
  predicate Drawable(sp: Sprite)
  {
    |sp.rows| < 16
  }

  /** The source visits 8 cells per sprite row. */
  function CellCount(sp: Sprite): nat
  {
    8 * |sp.rows|
  }

  /** The cell the drawing loop visits k-th: bit k % 8 of row k / 8 lands
      on column (x + k % 8) mod Width of row (y + k / 8) mod Height. */
  function Target(sp: Sprite, k: nat): (c: nat)
    requires k < CellCount(sp)
    ensures c < Width * Height
  {
    CellIndex((sp.x + k % 8) % Width, (sp.y + k / 8) % Height)
  }

  /** Whether the k-th visited pixel of the sprite is set: bit 7 - k % 8 of
      row k / 8, so the most significant bit is the leftmost pixel. */
  predicate Ink(sp: Sprite, k: nat)
    requires k < CellCount(sp)
  {
    (((sp.rows[k / 8] as bv8) >> (7 - k % 8)) & 1) == 1
  }

  /** Column of cell c relative to the sprite origin, around the torus. */
  function ColumnOffset(sp: Sprite, c: nat): nat
  {
    (c % Width - sp.x) % Width
  }

  /** Row of cell c relative to the sprite origin, around the torus. */
  function RowOffset(sp: Sprite, c: nat): nat
  {
    (c / Width - sp.y) % Height
  }

  /** Cell c lies under the 8 x n rectangle of the sprite. */
  predicate InFootprint(sp: Sprite, c: nat)
  {
    ColumnOffset(sp, c) < 8 && RowOffset(sp, c) < |sp.rows|
  }

  /** The position of cell c in the loop's visiting order. */
  function Ordinal(sp: Sprite, c: nat): nat
  {
    8 * RowOffset(sp, c) + ColumnOffset(sp, c)
  }

  /** Cell c is among the first k cells the loop visits. */
  predicate Visited(sp: Sprite, c: nat, k: nat)
  {
    InFootprint(sp, c) && Ordinal(sp, c) < k
  }

  /** The pixel the drawing leaves in cell c after its first k visits: the
      XOR of the old pixel and the sprite pixel for visited cells, the old
      pixel otherwise. */
  function Composite(d: Display, sp: Sprite, c: nat, k: nat): bool
    requires c < Width * Height && k <= CellCount(sp)
  {
    if Visited(sp, c, k) then d[c] != Ink(sp, Ordinal(sp, c)) else d[c]
  }

  /** Some pixel that was set in d is unset in e. */
  ghost predicate Collided(d: Display, e: Display)
  {
    exists c :: 0 <= c < Width * Height && d[c] && !e[c]
  }

  lemma ColumnOffsetOfShift(x: Byte, b: nat)
    requires b < Width
    ensures ((x + b) % Width - x) % Width == b
  {
  }

  lemma RowOffsetOfShift(y: Byte, r: nat)
    requires r < Height
    ensures ((y + r) % Height - y) % Height == r
  {
  }

  /** The k-th visited cell is in the footprint and is visited k-th. */
  lemma TargetOrdinal(sp: Sprite, k: nat)
    requires Drawable(sp) && k < CellCount(sp)
    ensures InFootprint(sp, Target(sp, k))
    ensures Ordinal(sp, Target(sp, k)) == k
  {
    var t := Target(sp, k);
    assert t % Width == (sp.x + k % 8) % Width && t / Width == (sp.y + k / 8) % Height;
    ColumnOffsetOfShift(sp.x, k % 8);
    RowOffsetOfShift(sp.y, k / 8);
  }

  /** Every cell of the footprint is visited, at the position Ordinal gives. */
  lemma OrdinalTarget(sp: Sprite, c: nat)
    requires Drawable(sp) && c < Width * Height && InFootprint(sp, c)
    ensures Ordinal(sp, c) < CellCount(sp)
    ensures Target(sp, Ordinal(sp, c)) == c
  {
    var k := Ordinal(sp, c);
    assert k % 8 == ColumnOffset(sp, c) && k / 8 == RowOffset(sp, c);
    assert (sp.x + ColumnOffset(sp, c)) % Width == c % Width;
    assert (sp.y + RowOffset(sp, c)) % Height == c / Width;
  }

  /** One visit of the drawing loop keeps the description of its progress. */
  lemma DrawStep(d: Display, sp: Sprite, k: nat, prev: Display, hit: bool)
    requires Drawable(sp) && 0 < k <= CellCount(sp)
    requires forall c :: 0 <= c < Width * Height ==> prev[c] == Composite(d, sp, c, k - 1)
    requires hit <==> Collided(d, prev)
    ensures var t := Target(sp, k - 1);
            var pixel := prev[t] != Ink(sp, k - 1);
            var next := prev[t := pixel];
            && (forall c :: 0 <= c < Width * Height ==> next[c] == Composite(d, sp, c, k))
            && ((hit || (!pixel && prev[t])) <==> Collided(d, next))
  {
    var t := Target(sp, k - 1);
    var pixel := prev[t] != Ink(sp, k - 1);
    var next := prev[t := pixel];
    TargetOrdinal(sp, k - 1);
    assert prev[t] == d[t];
    forall c | 0 <= c < Width * Height
      ensures next[c] == Composite(d, sp, c, k)
    {
      if c != t && Visited(sp, c, k) && Ordinal(sp, c) == k - 1 {
        OrdinalTarget(sp, c);
        assert false;
      }
    }
    if hit {
      var c :| 0 <= c < Width * Height && d[c] && !prev[c];
      assert c != t;
      assert d[c] && !next[c];
    }
    if !pixel && prev[t] {
      assert d[t] && !next[t];
    }
    if Collided(d, next) {
      var c :| 0 <= c < Width * Height && d[c] && !next[c];
      if c != t {
        assert d[c] && !prev[c];
      }
    }
  }

  /** The display and collision flag after the source's nested loop has
      visited its first k cells, in its order: row by row, and within a row
      from the leftmost pixel. */
  function DrawPrefix(d: Display, sp: Sprite, k: nat): (r: (Display, bool))
    requires Drawable(sp) && k <= CellCount(sp)
    ensures forall c :: 0 <= c < Width * Height ==> r.0[c] == Composite(d, sp, c, k)
    ensures r.1 <==> Collided(d, r.0)
    decreases k
  {
    if k == 0 then (d, false)
    else
      var (prev, hit) := DrawPrefix(d, sp, k - 1);
      var t := Target(sp, k - 1);
      var pixel := prev[t] != Ink(sp, k - 1);
      DrawStep(d, sp, k, prev, hit);
      (prev[t := pixel], hit || (!pixel && prev[t]))
  }

  /** Dxyn's compositing: every cell under the sprite becomes the XOR of its
      old pixel and the sprite pixel over it, every other cell keeps its
      pixel, and the flag reports whether some set pixel was unset. */
  function Draw(d: Display, sp: Sprite): (r: (Display, bool))
    requires Drawable(sp)
    ensures forall c :: 0 <= c < Width * Height ==>
      r.0[c] == (if InFootprint(sp, c) then d[c] != Ink(sp, Ordinal(sp, c)) else d[c])
    ensures r.1 <==> Collided(d, r.0)
  {
    var r := DrawPrefix(d, sp, CellCount(sp));
    assert forall c :: 0 <= c < Width * Height && InFootprint(sp, c) ==> Ordinal(sp, c) < CellCount(sp);
    r
  }

  /** A collision happens exactly when the sprite has a set pixel over a
      set display pixel. */
  lemma DrawCollision(d: Display, sp: Sprite)
    requires Drawable(sp)
    ensures Draw(d, sp).1 <==>
      exists c :: 0 <= c < Width * Height && InFootprint(sp, c) && d[c] && Ink(sp, Ordinal(sp, c))
  {
    var e := Draw(d, sp).0;
    if Draw(d, sp).1 {
      var c :| 0 <= c < Width * Height && d[c] && !e[c];
      assert InFootprint(sp, c) && Ink(sp, Ordinal(sp, c));
    }
    if exists c :: 0 <= c < Width * Height && InFootprint(sp, c) && d[c] && Ink(sp, Ordinal(sp, c)) {
      var c :| 0 <= c < Width * Height && InFootprint(sp, c) && d[c] && Ink(sp, Ordinal(sp, c));
      assert d[c] && !e[c];
    }
  }

  /** Drawing the same sprite twice at the same place restores the display. */
  lemma DrawTwiceRestores(d: Display, sp: Sprite)
    requires Drawable(sp)
    ensures Draw(Draw(d, sp).0, sp).0 == d
  {
    var e := Draw(Draw(d, sp).0, sp).0;
    assert forall c :: 0 <= c < Width * Height ==> e[c] == d[c];
  }
}
