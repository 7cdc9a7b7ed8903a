/**
  The interpreter's framebuffer words: a row of the screen is one 64-bit
  word whose most significant bit is column 0, and a pixel is addressed by
  the mask `(0x1 << 63) >> x`.
 */
module Framebuffer {
  import opened Machine

  /** The word with only the bit for column k set. */
  function Bit(k: bv6): bv64 {
    0x8000_0000_0000_0000 >> k
  }

  /** Go's `(0x1 << 63) >> x` for a column x; a shift by 64 or more leaves nothing. */
  function Mask(x: nat): bv64 {
    if x < Columns then Bit(x as bv6) else 0
  }

  /** Whether column c of the row word is lit. */
  predicate Lit(w: bv64, c: nat) {
    w & Mask(c) != 0
  }

  /** The pixels of a row word. */
  function Pixels(w: bv64): (r: Row)
    ensures forall c :: 0 <= c < Columns ==> r[c] == Lit(w, c)
  {
    seq(Columns, c requires 0 <= c < Columns => Lit(w, c))
  }

  lemma OneBit(k: bv6)
    ensures Bit(k) & (Bit(k) - 1) == 0
  {}

  lemma MaskIsOneBit(x: nat)
    ensures Mask(x) & (Mask(x) - 1) == 0
  {
    if x < Columns {
      OneBit(x as bv6);
    }
  }

  lemma XorOnOneBit(a: bv64, b: bv64, m: bv64)
    requires m & (m - 1) == 0
    ensures ((a ^ b) & m != 0) == ((a & m != 0) != (b & m != 0))
  {}

  /** XOR of words is pointwise XOR of their pixels. */
  lemma LitXor(a: bv64, b: bv64, c: nat)
    ensures Lit(a ^ b, c) == (Lit(a, c) != Lit(b, c))
  {
    MaskIsOneBit(c);
    XorOnOneBit(a, b, Mask(c));
  }

  lemma BitsMeet(a: bv6, b: bv6)
    ensures (Bit(a) & Bit(b) != 0) == (a == b)
  {}

  lemma ColumnBits(c: nat)
    requires c < Columns
    ensures (c as bv6) as int == c
  {}

  /** The mask of column x lights column x and no other. */
  lemma LitMask(x: nat, c: nat)
    requires x < Columns
    ensures Lit(Mask(x), c) == (c == x)
  {
    if c < Columns {
      BitsMeet(x as bv6, c as bv6);
      ColumnBits(x);
      ColumnBits(c);
    }
  }

  /** Toggling column x flips that pixel and leaves every other one. */
  lemma LitToggle(w: bv64, x: nat, c: nat)
    requires x < Columns
    ensures Lit(w ^ Mask(x), c) == (Lit(w, c) != (c == x))
  {
    LitXor(w, Mask(x), c);
    LitMask(x, c);
  }

  /** togglePixel's XOR flips pixel x of the row and no other. */
  lemma PixelsToggle(w: bv64, x: nat)
    requires x < Columns
    ensures Pixels(w ^ Mask(x)) == Pixels(w)[x := !Pixels(w)[x]]
  {
    var a, b := Pixels(w ^ Mask(x)), Pixels(w)[x := !Pixels(w)[x]];
    forall c: nat | c < Columns
      ensures a[c] == b[c]
    {
      LitToggle(w, x, c);
    }
  }

  /** Off the right edge the mask is zero and togglePixel changes nothing. */
  lemma ToggleOffEdge(w: bv64, x: nat)
    requires x >= Columns
    ensures w ^ Mask(x) == w
  {}

  /** getPixel's AND is nonzero exactly on a lit on-screen pixel. */
  lemma PixelsGet(w: bv64, x: nat)
    ensures (w & Mask(x) != 0) == (x < Columns && Pixels(w)[x])
  {}

  /** The cleared word is a dark row. */
  lemma PixelsZero()
    ensures Pixels(0) == Blank()[0]
  {
    assert forall c :: 0 <= c < Columns ==> !Lit(0, c);
  }

  // ---------------------------------------------------------------------
  // The whole framebuffer

  /** The screen the 32 row words show. */
  function FrameOf(ws: seq<bv64>): (f: Frame)
    requires |ws| == Rows
    ensures forall r :: 0 <= r < Rows ==> f[r] == Pixels(ws[r])
  {
    seq(Rows, r requires 0 <= r < Rows => Pixels(ws[r]))
  }

  /** Replacing one row word replaces just that row of the screen. */
  lemma RowReplaced(ws: seq<bv64>, y: nat, w: bv64)
    requires |ws| == Rows && y < Rows
    ensures FrameOf(ws[y := w]) == FrameOf(ws)[y := Pixels(w)]
  {
    var a, b := FrameOf(ws[y := w]), FrameOf(ws)[y := Pixels(w)];
    forall r | 0 <= r < Rows
      ensures a[r] == b[r]
    {}
  }

  /** All-zero words are the cleared screen. */
  lemma FrameZero(ws: seq<bv64>)
    requires |ws| == Rows && forall r :: 0 <= r < Rows ==> ws[r] == 0
    ensures FrameOf(ws) == Blank()
  {
    PixelsZero();
    var a := FrameOf(ws);
    assert forall r :: 0 <= r < Rows ==> a[r] == Blank()[r];
  }

  // ---------------------------------------------------------------------
  // The operations on one row word

  /** togglePixel's XOR: column x < 64 of the row flips; off the right edge the mask is zero. */
  function Toggle(w: bv64, x: nat): (r: bv64)
    ensures x < Columns ==> Pixels(r) == Pixels(w)[x := !Pixels(w)[x]]
    ensures x >= Columns ==> r == w
  {
    if x < Columns then
      PixelsToggle(w, x);
      w ^ Mask(x)
    else
      ToggleOffEdge(w, x);
      w ^ Mask(x)
  }

  /** getPixel's AND: nonzero exactly on a lit pixel of the row. */
  function Probe(w: bv64, x: nat): (r: bv64)
    ensures (r != 0) == (x < Columns && Pixels(w)[x])
  {
    PixelsGet(w, x);
    w & Mask(x)
  }
}
