/**
  Dxyn, the sprite draw. The interpreter walks the n rows and 8 columns of the
  sprite pixel by pixel; the fold `PaintUpTo` follows that walk exactly: the
  row coordinate V[y] + row is read when a row begins, the column V[x] + col
  at every pixel, and V[0xF], the register that collects the collision flag,
  may be either of them. For x, y != 0xF the lemmas below give the closed
  form: every set sprite bit toggles one distinct screen pixel, VF reports
  whether one of them was lit, and drawing the same sprite again restores
  the framebuffer.
 */
module Sprites {
  import opened Machine

  /** emulator/emulator.go wraps pixel coordinates; emulator/chip8.go does not. */
  datatype Addressing = Wrapping | Clipping

  /** Where togglePixel/getPixel land for raw coordinates (x, y): (column, row). */
  function Screen(mode: Addressing, x: nat, y: nat): (p: (nat, nat))
    requires mode == Clipping ==> y < Rows
    ensures p.1 < Rows && (mode == Wrapping ==> p.0 < Columns)
  {
    match mode
    case Wrapping => (x % Columns, y % Rows)
    case Clipping => (x, y)
  }

  /** Everything one Dxyn reads: the sprite is n bytes of ram at i, drawn at (V[x], V[y]). */
  datatype Sprite = Sprite(mode: Addressing, ram: Memory, i: U16, v: Registers,
                           x: Nibble, y: Nibble, n: Nibble, display: Frame)

  /**
    No index goes out of range: the sprite bytes lie in memory, and without
    wrapping every row lies on the screen. With y == 0xF the row base is the
    flag being computed, 0 or 1, so the rows stay below 16.
   */
  predicate Drawable(d: Sprite) {
    && (d.n == 0 || d.i + d.n <= MemorySize)
    && (d.mode == Clipping ==> d.y == 15 || d.n == 0 || d.v[d.y] + d.n <= Rows)
  }

  /** The framebuffer and V[0xF] while the draw is in progress. */
  datatype Canvas = Canvas(display: Frame, vf: bool)

  /** Register r as the loop reads it: V[0xF] holds the flag computed so far. */
  function Reg(d: Sprite, vf: bool, r: Nibble): nat {
    if r == 15 then (if vf then 1 else 0) else d.v[r]
  }

  /** Bit j of a sprite byte, counting from the most significant. */
  predicate SpriteBit(b: Byte, j: nat)
    requires j < 8
  {
    (b as bv8) & (0x80 >> j) != 0
  }

  /** Whether screen pixel p = (column, row) is lit; a column off the right edge reads as dark. */
  predicate LitAt(display: Frame, p: (nat, nat))
    requires p.1 < Rows
  {
    p.0 < Columns && display[p.1][p.0]
  }

  /**
    getPixel then togglePixel at screen pixel p: the pixel flips and the flag
    records that it was lit. Off the right edge the mask is zero and nothing
    changes.
   */
  function Plot(c: Canvas, p: (nat, nat)): (c': Canvas)
    requires p.1 < Rows
  {
    if p.0 < Columns then
      Canvas(c.display[p.1 := c.display[p.1][p.0 := !c.display[p.1][p.0]]], c.vf || c.display[p.1][p.0])
    else c
  }

  /**
    Sprite pixel (row k, column j) of the walk. The row coordinate `y` was
    computed when the row began; V[x] is read afresh, with V[0xF] = c.vf.
   */
  function PaintPixel(d: Sprite, c: Canvas, y: nat, k: nat, j: nat): (c': Canvas)
    requires Drawable(d) && k < d.n && j < 8
    requires d.mode == Clipping ==> y < Rows
  {
    if SpriteBit(d.ram[d.i + k], j) then Plot(c, Screen(d.mode, Reg(d, c.vf, d.x) + j, y)) else c
  }

  /** Row k of the sprite from column 0 up to column j, starting from canvas c, the row coordinate being y. */
  function PaintRow(d: Sprite, c: Canvas, y: nat, k: nat, j: nat): (c': Canvas)
    requires Drawable(d) && k < d.n && j <= 8
    requires d.mode == Clipping ==> y < Rows
  {
    if j == 0 then c else PaintPixel(d, PaintRow(d, c, y, k, j - 1), y, k, j - 1)
  }

  /** The row coordinate of sprite row k: V[y] + k, V[y] read when the row begins, with V[0xF] = vf. */
  function RowY(d: Sprite, vf: bool, k: nat): (y: nat)
    requires Drawable(d) && k < d.n
    ensures d.mode == Clipping ==> y < Rows
  {
    Reg(d, vf, d.y) + k
  }

  /** The canvas after the first k rows of the sprite; the flag starts cleared. */
  function PaintRows(d: Sprite, k: nat): (c: Canvas)
    requires Drawable(d) && k <= d.n
  {
    if k == 0 then Canvas(d.display, false)
    else
      var c := PaintRows(d, k - 1);
      PaintRow(d, c, RowY(d, c.vf, k - 1), k - 1, 8)
  }

  /** The canvas after the first q pixels of the walk, row by row. */
  function PaintUpTo(d: Sprite, q: nat): (c: Canvas)
    requires Drawable(d) && q <= 8 * d.n
  {
    if q == 8 * d.n then PaintRows(d, d.n)
    else
      var k := q / 8;
      var c := PaintRows(d, k);
      PaintRow(d, c, RowY(d, c.vf, k), k, q % 8)
  }

  function Paint(d: Sprite): (c: Canvas)
    requires Drawable(d)
  {
    PaintRows(d, d.n)
  }

  /** A pixel right of column 63 has a zero mask: plotting it changes nothing, flag included. */
  lemma OffScreenIsNoOp(c: Canvas, p: (nat, nat))
    requires p.1 < Rows && p.0 >= Columns
    ensures Plot(c, p) == c
  {}

  // ---------------------------------------------------------------------
  // Closed form when neither coordinate register is V[0xF]

  predicate Fixed(d: Sprite) {
    d.x != 15 && d.y != 15
  }

  /** The screen pixel that pixel q of the walk lands on. */
  function Target(d: Sprite, q: nat): (nat, nat)
    requires Drawable(d) && Fixed(d) && q < 8 * d.n
  {
    Screen(d.mode, d.v[d.x] + q % 8, d.v[d.y] + q / 8)
  }

  /** Pixel q of the walk is a set sprite bit that lands on the screen. */
  predicate Hit(d: Sprite, q: nat)
    requires Drawable(d) && Fixed(d) && q < 8 * d.n
  {
    SpriteBit(d.ram[d.i + q / 8], q % 8) && Target(d, q).0 < Columns
  }

  /** With fixed coordinate registers pixel q plots its target if it hits, and changes nothing otherwise. */
  lemma FixedPixel(d: Sprite, c: Canvas, y: nat, q: nat)
    requires Drawable(d) && Fixed(d) && q < 8 * d.n
    requires y == d.v[d.y] + q / 8
    ensures PaintPixel(d, c, y, q / 8, q % 8) == if Hit(d, q) then Plot(c, Target(d, q)) else c
  {
    if SpriteBit(d.ram[d.i + q / 8], q % 8) && !Hit(d, q) {
      OffScreenIsNoOp(c, Target(d, q));
    }
  }

  lemma StepInRow(d: Sprite, q: nat)
    requires Drawable(d) && q + 1 < 8 * d.n && q % 8 != 7
    ensures PaintUpTo(d, q + 1) == PaintPixel(d, PaintUpTo(d, q), RowY(d, PaintRows(d, q / 8).vf, q / 8), q / 8, q % 8)
  {
    assert (q + 1) / 8 == q / 8 && (q + 1) % 8 == q % 8 + 1;
  }

  lemma StepRowEnd(d: Sprite, q: nat)
    requires Drawable(d) && q < 8 * d.n && q % 8 == 7
    ensures PaintUpTo(d, q + 1) == PaintPixel(d, PaintUpTo(d, q), RowY(d, PaintRows(d, q / 8).vf, q / 8), q / 8, q % 8)
  {
    assert (q + 1) / 8 == q / 8 + 1 && (q + 1) % 8 == 0;
  }

  lemma WalkStep(d: Sprite, q: nat)
    requires Drawable(d) && q < 8 * d.n
    ensures PaintUpTo(d, q + 1) == PaintPixel(d, PaintUpTo(d, q), RowY(d, PaintRows(d, q / 8).vf, q / 8), q / 8, q % 8)
  {
    if q % 8 == 7 { StepRowEnd(d, q); } else { StepInRow(d, q); }
  }

  /** One more pixel of the walk plots its target if it hits, and does nothing otherwise. */
  lemma Unroll(d: Sprite, q: nat)
    requires Drawable(d) && Fixed(d) && q < 8 * d.n
    ensures PaintUpTo(d, q + 1) == if Hit(d, q) then Plot(PaintUpTo(d, q), Target(d, q)) else PaintUpTo(d, q)
  {
    WalkStep(d, q);
    FixedPixel(d, PaintUpTo(d, q), RowY(d, PaintRows(d, q / 8).vf, q / 8), q);
  }

  /** Plotting an on-screen pixel flips exactly that pixel, and raises the flag if it was lit. */
  lemma PlotPixel(c: Canvas, t: (nat, nat), p: (nat, nat))
    requires t.0 < Columns && t.1 < Rows && p.1 < Rows
    ensures LitAt(Plot(c, t).display, p) == (LitAt(c.display, p) != (p == t))
    ensures Plot(c, t).vf == (c.vf || LitAt(c.display, t))
  {}

  /** The screen pixels (column, row) hit by the first p pixels of the walk. */
  function HitsUpTo(d: Sprite, p: nat): set<(nat, nat)>
    requires Drawable(d) && Fixed(d) && p <= 8 * d.n
  {
    if p == 0 then {}
    else HitsUpTo(d, p - 1) + (if Hit(d, p - 1) then {Target(d, p - 1)} else {})
  }

  function Hits(d: Sprite): set<(nat, nat)>
    requires Drawable(d) && Fixed(d)
  {
    HitsUpTo(d, 8 * d.n)
  }

  /** A hit pixel is the target of some set sprite bit, and every such target is hit. */
  lemma {:induction false} HitsAre(d: Sprite, p: nat, t: (nat, nat))
    requires Drawable(d) && Fixed(d) && p <= 8 * d.n
    ensures t in HitsUpTo(d, p) <==> exists q :: 0 <= q < p && Hit(d, q) && Target(d, q) == t
  {
    if p > 0 {
      HitsAre(d, p - 1, t);
      if t in HitsUpTo(d, p) && t !in HitsUpTo(d, p - 1) {
        assert Hit(d, p - 1) && Target(d, p - 1) == t;
      }
    }
  }

  /** Different pixels of the walk land on different screen pixels (8 < 64 columns, 15 < 32 rows). */
  lemma TargetsDistinct(d: Sprite, q1: nat, q2: nat)
    requires Drawable(d) && Fixed(d) && q1 < q2 < 8 * d.n
    ensures Target(d, q1) != Target(d, q2)
  {
    var vx, vy := d.v[d.x], d.v[d.y];
    var k1, j1, k2, j2 := q1 / 8, q1 % 8, q2 / 8, q2 % 8;
    assert q1 == 8 * k1 + j1 && q2 == 8 * k2 + j2;
    if k1 == k2 {
      assert j1 < j2;
      ModShift(vx + j1, j2 - j1, Columns);
    } else {
      assert k1 < k2 < 15;
      ModShift(vy + k1, k2 - k1, Rows);
    }
  }

  lemma ModShift(a: nat, delta: nat, m: nat)
    requires m == 32 || m == 64
    requires 0 < delta < 16
    ensures (a + delta) % m != a % m
  {
    if m == 32 {
      assert (a + delta) % 32 != a % 32;
    } else {
      assert (a + delta) % 64 != a % 64;
    }
  }

  lemma NotYetHit(d: Sprite, q: nat)
    requires Drawable(d) && Fixed(d) && q < 8 * d.n
    ensures Target(d, q) !in HitsUpTo(d, q)
  {
    HitsAre(d, q, Target(d, q));
    if Target(d, q) in HitsUpTo(d, q) {
      var q' :| 0 <= q' < q && Hit(d, q') && Target(d, q') == Target(d, q);
      TargetsDistinct(d, q', q);
    }
  }

  /** The XOR rule, pixel by pixel: after p pixels of the walk a screen pixel is lit iff it was lit before xor it was hit. */
  lemma {:induction false} PixelsAfter(d: Sprite, p: nat, t: (nat, nat))
    requires Drawable(d) && Fixed(d) && p <= 8 * d.n && t.1 < Rows
    ensures LitAt(PaintUpTo(d, p).display, t) == (LitAt(d.display, t) != (t in HitsUpTo(d, p)))
  {
    if p > 0 {
      var q := p - 1;
      Unroll(d, q);
      PixelsAfter(d, q, t);
      if Hit(d, q) {
        NotYetHit(d, q);
        PlotPixel(PaintUpTo(d, q), Target(d, q), t);
      }
    }
  }

  /** Some pixel of H was already lit on the screen the sprite is drawn on. */
  predicate Collides(display: Frame, h: set<(nat, nat)>) {
    exists t :: t in h && t.1 < Rows && LitAt(display, t)
  }

  lemma CollidesAdd(display: Frame, h: set<(nat, nat)>, t: (nat, nat))
    requires t.1 < Rows
    ensures Collides(display, h + {t}) == (Collides(display, h) || LitAt(display, t))
  {
    if Collides(display, h + {t}) && !LitAt(display, t) {
      var u :| u in h + {t} && u.1 < Rows && LitAt(display, u);
      assert u in h;
    }
  }

  lemma HitsStep(d: Sprite, q: nat)
    requires Drawable(d) && Fixed(d) && q < 8 * d.n
    ensures HitsUpTo(d, q + 1) == if Hit(d, q) then HitsUpTo(d, q) + {Target(d, q)} else HitsUpTo(d, q)
  {}

  /** The flag after p pixels of the walk: one of the pixels hit so far was lit beforehand. */
  lemma {:induction false} CollisionAfter(d: Sprite, p: nat)
    requires Drawable(d) && Fixed(d) && p <= 8 * d.n
    ensures PaintUpTo(d, p).vf == Collides(d.display, HitsUpTo(d, p))
  {
    if p > 0 {
      var q := p - 1;
      CollisionAfter(d, q);
      Unroll(d, q);
      HitsStep(d, q);
      if Hit(d, q) {
        var t := Target(d, q);
        NotYetHit(d, q);
        PixelsAfter(d, q, t);
        PlotPixel(PaintUpTo(d, q), t, t);
        CollidesAdd(d.display, HitsUpTo(d, q), t);
      }
    }
  }

  /** The screen with every pixel of h flipped. */
  function Flip(display: Frame, h: set<(nat, nat)>): (f: Frame)
    ensures forall t: (nat, nat) :: t.1 < Rows ==> (LitAt(f, t) == (LitAt(display, t) != (t.0 < Columns && t in h)))
  {
    seq(Rows, r requires 0 <= r < Rows =>
      seq(Columns, c requires 0 <= c < Columns => display[r][c] != ((c, r) in h)))
  }

  /** Two screens are equal when they agree on every pixel. */
  lemma FrameExt(a: Frame, b: Frame)
    requires forall t: (nat, nat) :: t.1 < Rows ==> LitAt(a, t) == LitAt(b, t)
    ensures a == b
  {
    forall r | 0 <= r < Rows
      ensures a[r] == b[r]
    {
      forall c | 0 <= c < Columns
        ensures a[r][c] == b[r][c]
      {
        assert LitAt(a, (c, r)) == LitAt(b, (c, r));
      }
    }
  }

  /** Dxyn XORs the sprite onto the screen: exactly the pixels it hits flip. */
  lemma DrawXor(d: Sprite)
    requires Drawable(d) && Fixed(d)
    ensures Paint(d).display == Flip(d.display, Hits(d))
  {
    forall t: (nat, nat) | t.1 < Rows
      ensures LitAt(Paint(d).display, t) == LitAt(Flip(d.display, Hits(d)), t)
    {
      PixelsAfter(d, 8 * d.n, t);
    }
    FrameExt(Paint(d).display, Flip(d.display, Hits(d)));
  }

  /** VF after Dxyn: set exactly when some pixel the sprite hits was already lit. */
  lemma DrawCollision(d: Sprite)
    requires Drawable(d) && Fixed(d)
    ensures Paint(d).vf == Collides(d.display, Hits(d))
  {
    CollisionAfter(d, 8 * d.n);
  }

  lemma FlipTwice(display: Frame, h: set<(nat, nat)>)
    ensures Flip(Flip(display, h), h) == display
  {
    FrameExt(Flip(Flip(display, h), h), display);
  }

  /** The same Dxyn issued again right after: the screen is the one just drawn and V[0xF] holds the flag. */
  function Redraw(d: Sprite): (d': Sprite)
    requires Drawable(d)
  {
    var c := Paint(d);
    d.(display := c.display, v := d.v[15 := if c.vf then 1 else 0])
  }

  /** The redraw reads the same sprite bytes at the same coordinates. */
  lemma SameTarget(d: Sprite, q: nat)
    requires Drawable(d) && Fixed(d) && q < 8 * d.n
    ensures Drawable(Redraw(d)) && Fixed(Redraw(d))
    ensures Target(Redraw(d), q) == Target(d, q) && Hit(Redraw(d), q) == Hit(d, q)
  {}

  lemma {:induction false} SameHits(d: Sprite, p: nat)
    requires Drawable(d) && Fixed(d) && p <= 8 * d.n
    ensures Drawable(Redraw(d)) && Fixed(Redraw(d))
    ensures HitsUpTo(Redraw(d), p) == HitsUpTo(d, p)
  {
    if p > 0 {
      SameHits(d, p - 1);
      SameTarget(d, p - 1);
    }
  }

  /** Drawing the same sprite twice restores the screen. */
  lemma DrawTwiceRestores(d: Sprite)
    requires Drawable(d) && Fixed(d)
    ensures Drawable(Redraw(d))
    ensures Paint(Redraw(d)).display == d.display
  {
    SameHits(d, 8 * d.n);
    DrawXor(d);
    DrawXor(Redraw(d));
    FlipTwice(d.display, Hits(d));
  }

  /** On a clear screen the first draw reports no collision, and drawing it again does, unless the sprite hits nothing. */
  lemma DrawTwiceOnBlank(d: Sprite)
    requires Drawable(d) && Fixed(d) && d.display == Blank()
    ensures Drawable(Redraw(d))
    ensures !Paint(d).vf
    ensures Paint(Redraw(d)).vf == (Hits(d) != {})
  {
    SameHits(d, 8 * d.n);
    DrawCollision(d);
    DrawCollision(Redraw(d));
    DrawXor(d);
    if Hits(d) != {} {
      var t :| t in Hits(d);
      HitsAre(d, 8 * d.n, t);
      assert LitAt(Paint(d).display, t);
    }
  }
}
