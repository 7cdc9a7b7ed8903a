/**
  cicularShiftLeftUint8 and cicularShiftLeftUint64: rotate a word left one
  bit at a time. A shift that is a multiple of the width returns the word;
  a shift above the width is first reduced modulo it; a negative shift
  runs the loop zero times.
 */
module Rotation {

  /** The byte after k one-bit left rotations. */
  function Rotated8(w: bv8, k: nat): bv8 {
    if k == 0 then w else Rotated8(w, k - 1).RotateLeft(1)
  }

  /** The word after k one-bit left rotations. */
  function Rotated64(w: bv64, k: nat): bv64 {
    if k == 0 then w else Rotated64(w, k - 1).RotateLeft(1)
  }

  /** What the functions promise: a rotation by shiftBy places, none for a shift below one. */
  function Shifted8(w: bv8, shiftBy: int): bv8 {
    if shiftBy > 0 then Rotated8(w, shiftBy) else w
  }

  function Shifted64(w: bv64, shiftBy: int): bv64 {
    if shiftBy > 0 then Rotated64(w, shiftBy) else w
  }

  // ---------------------------------------------------------------------
  // The loops

  method CircularShiftLeft8(input: bv8, shiftBy: int) returns (out: bv8)
    ensures out == Shifted8(input, shiftBy)
  {
    if shiftBy % 8 == 0 {
      if shiftBy > 0 {
        Periodic8(input, shiftBy / 8, 0);
      }
      return input;
    }
    var count := shiftBy;
    if count > 8 {
      count := shiftBy % 8;
    }
    out := input;
    var i := 1;
    while i <= count
      invariant 1 <= i <= if count >= 0 then count + 1 else 1
      invariant out == Rotated8(input, i - 1)
    {
      OneBit8(out);
      var msb := (out >> 7) & 1;
      out := out << 1;
      out := out | msb;
      i := i + 1;
    }
    assert out == Rotated8(input, if count > 0 then count else 0);
    if shiftBy > 8 {
      Periodic8(input, shiftBy / 8, shiftBy % 8);
    }
  }

  method CircularShiftLeft64(input: bv64, shiftBy: int) returns (out: bv64)
    ensures out == Shifted64(input, shiftBy)
  {
    if shiftBy % 64 == 0 {
      if shiftBy > 0 {
        Periodic64(input, shiftBy / 64, 0);
      }
      return input;
    }
    var count := shiftBy;
    if count > 64 {
      count := shiftBy % 64;
    }
    out := input;
    var i := 1;
    while i <= count
      invariant 1 <= i <= if count >= 0 then count + 1 else 1
      invariant out == Rotated64(input, i - 1)
    {
      OneBit64(out);
      var msb := (out >> 63) & 1;
      out := out << 1;
      out := out | msb;
      i := i + 1;
    }
    assert out == Rotated64(input, if count > 0 then count else 0);
    if shiftBy > 64 {
      Periodic64(input, shiftBy / 64, shiftBy % 64);
    }
  }

  // ---------------------------------------------------------------------
  // Rotation facts

  /** The loop body, shift left and carry the top bit round, is a one-bit rotation. */
  lemma OneBit8(x: bv8)
    ensures (x << 1) | ((x >> 7) & 1) == x.RotateLeft(1)
  {}

  lemma OneBit64(x: bv64)
    ensures (x << 1) | ((x >> 63) & 1) == x.RotateLeft(1)
  {}

  /** Rotating by a then by b is rotating by a + b. */
  lemma {:induction false} Compose8(w: bv8, a: nat, b: nat)
    ensures Rotated8(Rotated8(w, a), b) == Rotated8(w, a + b)
  {
    if b > 0 {
      Compose8(w, a, b - 1);
    }
  }

  lemma {:induction false} Compose64(w: bv64, a: nat, b: nat)
    ensures Rotated64(Rotated64(w, a), b) == Rotated64(w, a + b)
  {
    if b > 0 {
      Compose64(w, a, b - 1);
    }
  }

  /** Rotations by constant amounts add up. */
  lemma Doubling8(x: bv8)
    ensures x.RotateLeft(1).RotateLeft(1) == x.RotateLeft(2)
    ensures x.RotateLeft(2).RotateLeft(2) == x.RotateLeft(4)
    ensures x.RotateLeft(4).RotateLeft(4) == x
  {}

  lemma Once8(w: bv8)
    ensures Rotated8(w, 1) == w.RotateLeft(1)
  {}

  lemma Unfold8(w: bv8, k: nat)
    requires k > 0
    ensures Rotated8(w, k) == Rotated8(w, k - 1).RotateLeft(1)
  {}

  lemma Twice8(w: bv8)
    ensures Rotated8(w, 2) == w.RotateLeft(1).RotateLeft(1)
  {
    Once8(w);
    Unfold8(w, 2);
  }

  lemma Rotated8By2(w: bv8)
    ensures Rotated8(w, 2) == w.RotateLeft(2)
  {
    Twice8(w);
    Doubling8(w);
  }

  lemma Rotated8By4(w: bv8)
    ensures Rotated8(w, 4) == w.RotateLeft(4)
  {
    Compose8(w, 2, 2);
    Rotated8By2(w);
    Rotated8By2(w.RotateLeft(2));
    Doubling8(w);
  }

  /** Eight one-bit rotations of a byte give it back. */
  lemma Period8(w: bv8)
    ensures Rotated8(w, 8) == w
  {
    Compose8(w, 4, 4);
    Rotated8By4(w);
    Rotated8By4(w.RotateLeft(4));
    Doubling8(w);
  }

  /** Rotations by constant amounts add up. */
  lemma Doubling64(x: bv64)
    ensures x.RotateLeft(1).RotateLeft(1) == x.RotateLeft(2)
    ensures x.RotateLeft(2).RotateLeft(2) == x.RotateLeft(4)
    ensures x.RotateLeft(4).RotateLeft(4) == x.RotateLeft(8)
    ensures x.RotateLeft(8).RotateLeft(8) == x.RotateLeft(16)
    ensures x.RotateLeft(16).RotateLeft(16) == x.RotateLeft(32)
    ensures x.RotateLeft(32).RotateLeft(32) == x
  {}

  lemma Once64(w: bv64)
    ensures Rotated64(w, 1) == w.RotateLeft(1)
  {}

  lemma Unfold64(w: bv64, k: nat)
    requires k > 0
    ensures Rotated64(w, k) == Rotated64(w, k - 1).RotateLeft(1)
  {}

  lemma Twice64(w: bv64)
    ensures Rotated64(w, 2) == w.RotateLeft(1).RotateLeft(1)
  {
    Once64(w);
    Unfold64(w, 2);
  }

  lemma Rotated64By2(w: bv64)
    ensures Rotated64(w, 2) == w.RotateLeft(2)
  {
    Twice64(w);
    Doubling64(w);
  }

  lemma Rotated64By4(w: bv64)
    ensures Rotated64(w, 4) == w.RotateLeft(4)
  {
    Compose64(w, 2, 2);
    Rotated64By2(w);
    Rotated64By2(w.RotateLeft(2));
    Doubling64(w);
  }

  lemma Rotated64By8(w: bv64)
    ensures Rotated64(w, 8) == w.RotateLeft(8)
  {
    Compose64(w, 4, 4);
    Rotated64By4(w);
    Rotated64By4(w.RotateLeft(4));
    Doubling64(w);
  }

  lemma Rotated64By16(w: bv64)
    ensures Rotated64(w, 16) == w.RotateLeft(16)
  {
    Compose64(w, 8, 8);
    Rotated64By8(w);
    Rotated64By8(w.RotateLeft(8));
    Doubling64(w);
  }

  lemma Rotated64By32(w: bv64)
    ensures Rotated64(w, 32) == w.RotateLeft(32)
  {
    Compose64(w, 16, 16);
    Rotated64By16(w);
    Rotated64By16(w.RotateLeft(16));
    Doubling64(w);
  }

  /** Sixty-four one-bit rotations of a word give it back. */
  lemma Period64(w: bv64)
    ensures Rotated64(w, 64) == w
  {
    Compose64(w, 32, 32);
    Rotated64By32(w);
    Rotated64By32(w.RotateLeft(32));
    Doubling64(w);
  }

  /** Only the shift modulo the width matters. */
  lemma {:induction false} Periodic8(w: bv8, m: nat, r: nat)
    ensures Rotated8(w, 8 * m + r) == Rotated8(w, r)
  {
    if m > 0 {
      Periodic8(w, m - 1, r);
      Compose8(w, 8 * (m - 1) + r, 8);
      Period8(Rotated8(w, 8 * (m - 1) + r));
    }
  }

  lemma {:induction false} Periodic64(w: bv64, m: nat, r: nat)
    ensures Rotated64(w, 64 * m + r) == Rotated64(w, r)
  {
    if m > 0 {
      Periodic64(w, m - 1, r);
      Compose64(w, 64 * (m - 1) + r, 64);
      Period64(Rotated64(w, 64 * (m - 1) + r));
    }
  }

  /** A rotation by k is undone by a rotation by the width minus k. */
  lemma Undo8(w: bv8, k: nat)
    requires k <= 8
    ensures Rotated8(Rotated8(w, k), 8 - k) == w
  {
    Compose8(w, k, 8 - k);
    Period8(w);
  }

  lemma Undo64(w: bv64, k: nat)
    requires k <= 64
    ensures Rotated64(Rotated64(w, k), 64 - k) == w
  {
    Compose64(w, k, 64 - k);
    Period64(w);
  }

  /** The table of emulator/chip8_test.go. */
  lemma ShiftTable()
    ensures Shifted8(0x03, 2) == 0x0C
    ensures Shifted8(0x06, 2) == 0x18
    ensures Shifted8(0x06, 8) == 0x06
    ensures Shifted8(0x06, 9) == 0x0C
    ensures Shifted8(0x06, 18) == 0x18
    ensures Shifted8(0xE0, 2) == 0x83
    ensures Shifted8(0x05, 2) == 0x14
    ensures Shifted8(0x0A, 2) == 0x28
    ensures Shifted8(0x0A, 8) == 0x0A
    ensures Shifted8(0x0A, 9) == 0x14
    ensures Shifted8(0x0A, 18) == 0x28
    ensures Shifted8(0x90, 2) == 0x42
    ensures Shifted8(0x91, 3) == 0x8C
  {}
}
