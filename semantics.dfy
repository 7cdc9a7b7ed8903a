/**
  One EmulateCycle as a function on machine states: fetch, decode, the
  dispatch on the opcode's high nibble, and the timer tick. The source's two
  snapshots differ only in how a pixel coordinate is addressed, which is the
  `Addressing` parameter. Index-out-of-range panics are the preconditions
  collected in `CanExecute`; the random byte of Cxkk is a parameter.
 */
module Semantics {
  import opened Machine
  import opened Sprites

  /** A value `rand.Intn(255)` can return. */
  type Random = b: int | 0 <= b < 255

  /**
    How a cycle ends: with the next state, by waiting for a key (Fx0A with
    no key down keeps polling and never returns by itself), or by the fatal
    exit on an unknown Fx opcode.
   */
  datatype Outcome = Next(state: State) | AwaitingKey | Fatal

  /** VF's encoding of a condition. */
  function Flag(b: bool): (r: Byte)
    ensures r <= 1 && (r == 1 <==> b)
  {
    if b then 1 else 0
  }

  /** A skip instruction's pc: over the next instruction when c holds. */
  function Skip(pc: U16, c: bool): U16 {
    Advance(pc, if c then 4 else 2)
  }

  /** Go's bitwise operators on uint8. */
  function Or8(a: Byte, b: Byte): Byte {
    ((a as bv8) | (b as bv8)) as int
  }

  function And8(a: Byte, b: Byte): Byte {
    ((a as bv8) & (b as bv8)) as int
  }

  function Xor8(a: Byte, b: Byte): Byte {
    ((a as bv8) ^ (b as bv8)) as int
  }

  // ---------------------------------------------------------------------
  // 8xyN: register arithmetic

  /**
    The registers after 8xyN. The flag instructions write VF before V[x],
    and V[x]'s new value is computed from the registers as they are after
    that write, so for x or y = 0xF the flag is an operand or is overwritten.
   */
  function Alu(v: Registers, x: Nibble, y: Nibble, n: Nibble): Registers {
    match n
    case 0x0 => v[x := v[y]]
    case 0x1 => v[x := Or8(v[x], v[y])]
    case 0x2 => v[x := And8(v[x], v[y])]
    case 0x3 => v[x := Xor8(v[x], v[y])]
    case 0x4 => var w := v[15 := Flag(v[x] as int + v[y] as int > 255)]; w[x := Wrap8(w[x] + w[y])]
    case 0x5 => var w := v[15 := Flag(v[x] > v[y])]; w[x := Wrap8(w[x] - w[y])]
    case 0x6 => var w := v[15 := v[x] % 2]; w[x := w[x] / 2]
    case 0x7 => var w := v[15 := Flag(v[y] > v[x])]; w[x := Wrap8(w[y] - w[x])]
    case 0xE => var w := v[15 := v[x] / 128]; w[x := Wrap8(w[x] * 2)]
    case _ => v
  }

  // ---------------------------------------------------------------------
  // Fx33, Fx55, Fx65, Fx0A

  /**
    Fx33 as the interpreter computes it, before each digit is stored as a
    byte: the branches test v > 100 and v > 10, so 100 and 10 fall into the
    branch below their own.
   */
  function BcdAsWritten(n: int): (d: seq<int>)
    requires 0 <= n < 256
    ensures |d| == 3 && 0 <= d[0] < 256 && 0 <= d[1] < 256 && 0 <= d[2] < 256
  {
    if n > 100 then [(n % 1000) / 100, (n % 100) / 10, n % 10]
    else if n > 10 then [0, (n % 100) / 10, n % 10]
    else [0, 0, n]
  }

  /** The decimal digits of n, hundreds first. */
  function Decimal(n: int): (d: seq<int>)
    requires 0 <= n < 256
    ensures |d| == 3 && 0 <= d[0] < 10 && 0 <= d[1] < 10 && 0 <= d[2] < 10
    ensures d[0] * 100 + d[1] * 10 + d[2] == n
  {
    [n / 100, (n / 10) % 10, n % 10]
  }

  /** Fx33 stores the decimal digits of every value except 10 and 100. */
  lemma BcdIsDecimal(n: int)
    requires 0 <= n < 256
    ensures BcdAsWritten(n) == Decimal(n) <==> n != 10 && n != 100
  {
    TensDigit(n);
    if n == 10 {
      assert BcdAsWritten(n)[2] != Decimal(n)[2];
    } else if n == 100 {
      assert BcdAsWritten(n)[0] != Decimal(n)[0];
    }
  }

  lemma TensDigit(n: int)
    requires 0 <= n < 256
    ensures n % 1000 == n
    ensures (n % 100) / 10 == (n / 10) % 10
  {
    var q, r := n / 100, n % 100;
    assert n == 100 * q + r;
    assert n / 10 == 10 * q + r / 10;
  }

  /** What Fx33 stores for the two values it gets wrong. */
  lemma BcdAtTenAndHundred()
    ensures BcdAsWritten(10) == [0, 0, 10]
    ensures BcdAsWritten(100) == [0, 0, 0]
  {}

  /** Memory after Fx55 with index register i: V[0] .. V[x-1] copied to i onwards. */
  function StoreRegisters(ram: Memory, i: U16, v: Registers, x: Nibble): (r: Memory)
    requires x == 0 || i + x <= MemorySize
    ensures forall k :: 0 <= k < x ==> r[i + k] == v[k]
    ensures forall a :: 0 <= a < MemorySize && !(i <= a < i + x) ==> r[a] == ram[a]
  {
    seq(MemorySize, a requires 0 <= a < MemorySize => if i <= a < i + x then v[a - i] else ram[a])
  }

  /** Registers after Fx65 with index register i: V[0] .. V[x-1] read from i onwards. */
  function LoadRegisters(v: Registers, ram: Memory, i: U16, x: Nibble): (r: Registers)
    requires x == 0 || i + x <= MemorySize
    ensures forall k :: 0 <= k < x ==> r[k] == ram[i + k]
    ensures forall k :: x <= k < 16 ==> r[k] == v[k]
  {
    seq(16, k requires 0 <= k < 16 => if k < x then ram[i + k] else v[k])
  }

  /** Reading back what Fx55 stored gives the stored registers, and touches no other register. */
  lemma StoreThenLoad(ram: Memory, i: U16, v: Registers, w: Registers, x: Nibble)
    requires x == 0 || i + x <= MemorySize
    ensures LoadRegisters(w, StoreRegisters(ram, i, v, x), i, x) == v[..x] + w[x..]
  {
    var r := LoadRegisters(w, StoreRegisters(ram, i, v, x), i, x);
    assert forall k :: 0 <= k < 16 ==> r[k] == (v[..x] + w[x..])[k];
  }

  /** The key scan of Fx0A from key i on: the first pressed key, or -1. */
  function PressedFrom(keys: Keypad, i: nat): (k: int)
    requires i <= 16
    ensures k == -1 || i <= k < 16
    decreases 16 - i
  {
    if i == 16 then -1 else if keys[i] > 0 then i else PressedFrom(keys, i + 1)
  }

  function LowestPressed(keys: Keypad): (k: int)
    ensures -1 <= k < 16
  {
    PressedFrom(keys, 0)
  }

  lemma {:induction false} PressedFromIsFirst(keys: Keypad, i: nat)
    requires i <= 16
    ensures var k := PressedFrom(keys, i);
      && (k == -1 <==> forall j :: i <= j < 16 ==> keys[j] == 0)
      && (k != -1 ==> keys[k] > 0 && forall j :: i <= j < k ==> keys[j] == 0)
    decreases 16 - i
  {
    if i < 16 {
      PressedFromIsFirst(keys, i + 1);
    }
  }

  /** The scan finds the lowest-numbered pressed key, and -1 exactly when no key is down. */
  lemma LowestPressedIsLowest(keys: Keypad)
    ensures var k := LowestPressed(keys);
      && (k == -1 <==> forall j :: 0 <= j < 16 ==> keys[j] == 0)
      && (k != -1 ==> keys[k] > 0 && forall j :: 0 <= j < k ==> keys[j] == 0)
  {
    PressedFromIsFirst(keys, 0);
  }

  // ---------------------------------------------------------------------
  // One cycle

  /** The sprite a Dxyn reads. */
  function SpriteOf(mode: Addressing, s: State, f: Fields): Sprite {
    Sprite(mode, s.ram, s.i, s.v, f.x, f.y, f.n, s.display)
  }

  /** The opcode does not index outside memory, the stack, the keypad or the screen. */
  predicate CanExecute(mode: Addressing, s: State, f: Fields) {
    match f.family
    case 0x0 => f.kk == 0xEE ==> s.sp < 16
    case 0x2 => Wrap8(s.sp + 1) < 16
    case 0xD => Drawable(SpriteOf(mode, s, f))
    case 0xE => f.kk == 0x9E || f.kk == 0xA1 ==> s.v[f.x] < 16
    case 0xF =>
      && (f.kk == 0x33 ==> s.i + 2 < MemorySize)
      && (f.kk == 0x55 || f.kk == 0x65 ==> f.x == 0 || s.i + f.x <= MemorySize)
    case _ => true
  }

  /** Dxyn: paint the sprite, VF the collision flag, refresh the screen. */
  function Draw(mode: Addressing, s: State, f: Fields): State
    requires Drawable(SpriteOf(mode, s, f))
  {
    var c := Paint(SpriteOf(mode, s, f));
    s.(display := c.display, v := s.v[15 := Flag(c.vf)], updateDisplay := true, pc := Advance(s.pc, 2))
  }

  /** ExNN: skips on the key named by V[x]; an unknown NN does nothing, pc included. */
  function KeySkip(s: State, f: Fields): State
    requires f.kk == 0x9E || f.kk == 0xA1 ==> s.v[f.x] < 16
  {
    if f.kk == 0x9E then s.(pc := Skip(s.pc, s.keys[s.v[f.x]] > 0))
    else if f.kk == 0xA1 then s.(pc := Skip(s.pc, s.keys[s.v[f.x]] == 0))
    else s
  }

  /** FxNN: timers, the key wait, I arithmetic and the memory transfers. */
  function Misc(s: State, f: Fields): Outcome
    requires f.kk == 0x33 ==> s.i + 2 < MemorySize
    requires f.kk == 0x55 || f.kk == 0x65 ==> f.x == 0 || s.i + f.x <= MemorySize
  {
    var pc := Advance(s.pc, 2);
    var vx := s.v[f.x];
    match f.kk
    case 0x07 => Next(s.(v := s.v[f.x := s.dt], pc := pc))
    case 0x0A =>
      var k := LowestPressed(s.keys);
      if k == -1 then AwaitingKey else Next(s.(v := s.v[f.x := k], pc := pc))
    case 0x15 => Next(s.(dt := vx, pc := pc))
    case 0x18 => Next(s.(st := vx, pc := pc))
    case 0x1E =>
      var w := s.v[15 := Flag(s.i as int + vx as int > 255)];
      Next(s.(v := w, i := (s.i + w[f.x]) % 0x1_0000, pc := pc))
    case 0x29 => Next(s.(i := BytesPerCharacter * vx, pc := pc))
    case 0x33 =>
      var d := BcdAsWritten(vx);
      Next(s.(ram := s.ram[s.i := d[0]][s.i + 1 := d[1]][s.i + 2 := d[2]], pc := pc))
    case 0x55 => Next(s.(ram := StoreRegisters(s.ram, s.i, s.v, f.x), i := (s.i + f.x + 1) % 0x1_0000, pc := pc))
    case 0x65 => Next(s.(v := LoadRegisters(s.v, s.ram, s.i, f.x), i := (s.i + f.x + 1) % 0x1_0000, pc := pc))
    case _ => Fatal
  }

  /** clearDisplay: every pixel dark, and the screen marked for redrawing. */
  function ClearDisplay(s: State): State {
    s.(display := Blank(), updateDisplay := true)
  }

  /** The opcode's effect, before the timers tick. */
  function Execute(mode: Addressing, s: State, f: Fields, rnd: Random): Outcome
    requires CanExecute(mode, s, f)
  {
    var pc := Advance(s.pc, 2);
    match f.family
    case 0x0 =>
      if f.kk == 0xE0 then Next(ClearDisplay(s).(pc := pc))
      else if f.kk == 0xEE then Next(s.(pc := s.stack[s.sp], sp := Wrap8(s.sp - 1)))
      else Next(s)
    case 0x1 => Next(s.(pc := f.nnn))
    case 0x2 =>
      var sp := Wrap8(s.sp + 1);
      Next(s.(sp := sp, stack := s.stack[sp := pc], pc := f.nnn))
    case 0x3 => Next(s.(pc := Skip(s.pc, s.v[f.x] == f.kk)))
    case 0x4 => Next(s.(pc := Skip(s.pc, s.v[f.x] != f.kk)))
    case 0x5 => Next(s.(pc := Skip(s.pc, s.v[f.x] == s.v[f.y])))
    case 0x6 => Next(s.(v := s.v[f.x := f.kk], pc := pc))
    case 0x7 => Next(s.(v := s.v[f.x := Wrap8(s.v[f.x] + f.kk)], pc := pc))
    case 0x8 => Next(s.(v := Alu(s.v, f.x, f.y, f.n), pc := pc))
    case 0x9 => if f.n == 0 then Next(s.(pc := Skip(s.pc, s.v[f.x] != s.v[f.y]))) else Next(s)
    case 0xA => Next(s.(i := f.nnn, pc := pc))
    case 0xB => Next(s.(pc := f.nnn + s.v[0]))
    case 0xC => Next(s.(v := s.v[f.x := And8(rnd, f.kk)], pc := pc))
    case 0xD => Next(Draw(mode, s, f))
    case 0xE => Next(KeySkip(s, f))
    case 0xF => Misc(s, f)
  }

  /** updateTimers. */
  function UpdateTimers(s: State): State {
    s.(dt := Tick(s.dt), st := Tick(s.st))
  }

  predicate CanStep(mode: Addressing, s: State) {
    s.pc + 1 < MemorySize && CanExecute(mode, s, Decode(Opcode(s)))
  }

  /** EmulateCycle: fetch, decode, execute, then tick the timers, unless the cycle did not finish. */
  function Step(mode: Addressing, s: State, rnd: Random): Outcome
    requires CanStep(mode, s)
  {
    match Execute(mode, s, Decode(Opcode(s)), rnd)
    case Next(t) => Next(UpdateTimers(t))
    case AwaitingKey => AwaitingKey
    case Fatal => Fatal
  }

  // ---------------------------------------------------------------------
  // 8xyN: what the flag instructions compute

  /** 8xy4 with x, y != 0xF: the carry in VF and the wrapped sum in V[x] make up the full sum. */
  lemma AddCarries(v: Registers, x: Nibble, y: Nibble)
    requires x != 15 && y != 15
    ensures var w := Alu(v, x, y, 4);
      && 256 * w[15] as int + w[x] as int == v[x] as int + v[y] as int && w[15] <= 1
      && forall r :: 0 <= r < 15 && r != x ==> w[r] == v[r]
  {}

  /**
    8xy5 (d = V[x] - V[y]) and 8xy7 (d = V[y] - V[x]) with x, y != 0xF: V[x]
    is d modulo 256 and VF is 1 exactly when d is positive, so an equal pair
    leaves VF at 0 although nothing was borrowed.
   */
  lemma SubtractBorrows(v: Registers, x: Nibble, y: Nibble, n: Nibble)
    requires x != 15 && y != 15 && (n == 5 || n == 7)
    ensures var w := Alu(v, x, y, n);
      var d := if n == 5 then v[x] as int - v[y] as int else v[y] as int - v[x] as int;
      && (w[15] == 1 <==> d > 0) && (w[15] == 0 <==> d <= 0)
      && (d >= 0 ==> w[x] == d) && (d < 0 ==> w[x] == d + 256)
      && forall r :: 0 <= r < 15 && r != x ==> w[r] == v[r]
  {}

  /** 8xy6 and 8xyE with x != 0xF: VF is the bit shifted out and V[x] the rest. */
  lemma ShiftsOut(v: Registers, x: Nibble, y: Nibble)
    requires x != 15
    ensures var w := Alu(v, x, y, 6);
      && 2 * w[x] as int + w[15] as int == v[x] && w[15] <= 1
      && forall r :: 0 <= r < 15 && r != x ==> w[r] == v[r]
    ensures var w := Alu(v, x, y, 0xE);
      && w[x] as int + 256 * w[15] as int == 2 * v[x] as int && w[15] <= 1
      && forall r :: 0 <= r < 15 && r != x ==> w[r] == v[r]
  {}

  /**
    With x = 0xF the shift is applied to the flag just written, not to the
    old V[0xF]: 8xy6 always leaves 0 in VF, and 8xyE twice the old top bit.
   */
  lemma FlagOverwritten(v: Registers, y: Nibble)
    ensures Alu(v, 15, y, 6)[15] == 0
    ensures Alu(v, 15, y, 0xE)[15] == if v[15] >= 128 then 2 else 0
    ensures forall r :: 0 <= r < 15 ==> Alu(v, 15, y, 6)[r] == v[r] && Alu(v, 15, y, 0xE)[r] == v[r]
  {}

  /**
    8Fy4, 8Fy5 and 8Fy7 (y != 0xF): the flag c is written first and V[0xF]
    is then overwritten by c combined with V[y], not by the sum or
    difference of the old V[0xF] and V[y].
   */
  lemma FlagOverwrittenBySum(v: Registers, y: Nibble)
    requires y != 15
    ensures var c: int := if v[15] as int + v[y] as int > 255 then 1 else 0;
      var w := Alu(v, 15, y, 4);
      w[15] == (c + v[y] as int) % 256 && forall r :: 0 <= r < 15 ==> w[r] == v[r]
    ensures var c: int := if v[15] > v[y] then 1 else 0;
      var w := Alu(v, 15, y, 5);
      w[15] == (c - v[y] as int) % 256 && forall r :: 0 <= r < 15 ==> w[r] == v[r]
    ensures var c: int := if v[y] > v[15] then 1 else 0;
      var w := Alu(v, 15, y, 7);
      w[15] == (v[y] as int - c) % 256 && forall r :: 0 <= r < 15 ==> w[r] == v[r]
  {}

  /**
    8xF4, 8xF5 and 8xF7 (x != 0xF): the flag c just written is the second
    operand in place of the old V[0xF], and stays in VF.
   */
  lemma FlagIsOperand(v: Registers, x: Nibble)
    requires x != 15
    ensures var c: int := if v[x] as int + v[15] as int > 255 then 1 else 0;
      var w := Alu(v, x, 15, 4);
      w[15] == c && w[x] == (v[x] as int + c) % 256 && forall r :: 0 <= r < 15 && r != x ==> w[r] == v[r]
    ensures var c: int := if v[x] > v[15] then 1 else 0;
      var w := Alu(v, x, 15, 5);
      w[15] == c && w[x] == (v[x] as int - c) % 256 && forall r :: 0 <= r < 15 && r != x ==> w[r] == v[r]
    ensures var c: int := if v[15] > v[x] then 1 else 0;
      var w := Alu(v, x, 15, 7);
      w[15] == c && w[x] == (c - v[x] as int) % 256 && forall r :: 0 <= r < 15 && r != x ==> w[r] == v[r]
  {}

  /** 8FF4 doubles the carry of V[0xF] + V[0xF]; 8FF5 and 8FF7 always leave 0. */
  lemma FlagWithItself(v: Registers)
    ensures Alu(v, 15, 15, 4)[15] == (if v[15] >= 128 then 2 else 0)
    ensures Alu(v, 15, 15, 5)[15] == 0 && Alu(v, 15, 15, 7)[15] == 0
    ensures forall r :: 0 <= r < 15 ==>
      Alu(v, 15, 15, 4)[r] == v[r] && Alu(v, 15, 15, 5)[r] == v[r] && Alu(v, 15, 15, 7)[r] == v[r]
  {}

  /** 8xy0 .. 8xy3 write V[x] alone; a selector other than 0-7 and E writes nothing. */
  lemma AluFrame(v: Registers, x: Nibble, y: Nibble, n: Nibble)
    requires n <= 3 || !(n <= 7 || n == 0xE)
    ensures forall r :: 0 <= r < 16 && r != x ==> Alu(v, x, y, n)[r] == v[r]
    ensures !(n <= 7 || n == 0xE) ==> Alu(v, x, y, n) == v
  {}

  // ---------------------------------------------------------------------
  // Control flow

  /**
    2nnn then 00EE: the call jumps to nnn and pushes the address after it;
    the return pops that address and sp, so the pair resumes after the call
    with only the pushed stack slot changed.
   */
  lemma CallThenReturn(mode: Addressing, s: State, call: Fields, ret: Fields, rnd: Random)
    requires call.family == 2 && ret.family == 0 && ret.kk == 0xEE
    requires Wrap8(s.sp + 1) < 16
    ensures CanExecute(mode, s, call)
    ensures var o := Execute(mode, s, call, rnd);
      && o.Next? && o.state.pc == call.nnn && o.state.sp == Wrap8(s.sp + 1)
      && o.state.stack[Wrap8(s.sp + 1)] == Advance(s.pc, 2)
      && CanExecute(mode, o.state, ret)
      && Execute(mode, o.state, ret, rnd) == Next(s.(pc := Advance(s.pc, 2), stack := o.state.stack))
  {}

  /** 00EE with sp = 0 wraps sp to 255, after which another 00EE indexes outside the stack. */
  lemma ReturnUnderflows(mode: Addressing, s: State, ret: Fields, rnd: Random)
    requires ret.family == 0 && ret.kk == 0xEE && s.sp == 0
    ensures CanExecute(mode, s, ret)
    ensures var o := Execute(mode, s, ret, rnd);
      o.Next? && o.state.sp == 255 && o.state.pc == s.stack[0] && !CanExecute(mode, o.state, ret)
  {}

  /** The test of each conditional skip. */
  predicate SkipWhen(s: State, f: Fields)
    requires f.family == 0xE ==> s.v[f.x] < 16
  {
    match f.family
    case 0x3 => s.v[f.x] == f.kk
    case 0x4 => s.v[f.x] != f.kk
    case 0x5 => s.v[f.x] == s.v[f.y]
    case 0x9 => s.v[f.x] != s.v[f.y]
    case 0xE => if f.kk == 0x9E then s.keys[s.v[f.x]] != 0 else s.keys[s.v[f.x]] == 0
    case _ => false
  }

  predicate IsSkip(f: Fields) {
    || f.family == 0x3 || f.family == 0x4 || f.family == 0x5
    || (f.family == 0x9 && f.n == 0)
    || (f.family == 0xE && (f.kk == 0x9E || f.kk == 0xA1))
  }

  /** A skip changes pc alone: by 4 when its test holds, by 2 otherwise. */
  lemma Skips(mode: Addressing, s: State, f: Fields, rnd: Random)
    requires IsSkip(f) && CanExecute(mode, s, f)
    ensures Execute(mode, s, f, rnd) == Next(s.(pc := Advance(s.pc, if SkipWhen(s, f) then 4 else 2)))
  {}

  /** 1nnn and Bnnn jump without advancing; Bnnn's target never exceeds 16 bits. */
  lemma Jumps(mode: Addressing, s: State, f: Fields, rnd: Random)
    requires f.family == 0x1 || f.family == 0xB
    ensures var o := Execute(mode, s, f, rnd);
      && o.Next? && o.state == s.(pc := o.state.pc)
      && o.state.pc == f.nnn + (if f.family == 0xB then s.v[0] else 0)
  {}

  /**
    Opcodes the interpreter does not know: an unknown 0nnn, 9xyn with n != 0
    and an unknown ExNN change nothing, pc included; an unknown 8xyN only
    advances pc; an unknown FxNN is the fatal exit.
   */
  lemma UnknownOpcodes(mode: Addressing, s: State, f: Fields, rnd: Random)
    ensures (f.family == 0x0 && f.kk != 0xE0 && f.kk != 0xEE) ==> Execute(mode, s, f, rnd) == Next(s)
    ensures (f.family == 0x9 && f.n != 0) ==> Execute(mode, s, f, rnd) == Next(s)
    ensures (f.family == 0xE && f.kk != 0x9E && f.kk != 0xA1) ==> Execute(mode, s, f, rnd) == Next(s)
    ensures (f.family == 0x8 && !(f.n <= 7 || f.n == 0xE)) ==> Execute(mode, s, f, rnd) == Next(s.(pc := Advance(s.pc, 2)))
    ensures (f.family == 0xF && !KnownMisc(f.kk)) ==> Execute(mode, s, f, rnd) == Fatal
  {}

  /** The FxNN selectors Misc knows. */
  predicate KnownMisc(kk: Byte) {
    kk == 0x07 || kk == 0x0A || kk == 0x15 || kk == 0x18 || kk == 0x1E
    || kk == 0x29 || kk == 0x33 || kk == 0x55 || kk == 0x65
  }

  /** The only outcomes that are not a next state: Fx0A with no key down, and an unknown FxNN. */
  lemma OnlyFxStops(mode: Addressing, s: State, f: Fields, rnd: Random)
    requires CanExecute(mode, s, f)
    ensures Execute(mode, s, f, rnd) == AwaitingKey <==> f.family == 0xF && f.kk == 0x0A && LowestPressed(s.keys) == -1
    ensures Execute(mode, s, f, rnd) == Fatal <==> f.family == 0xF && !KnownMisc(f.kk)
  {}

  // ---------------------------------------------------------------------
  // Registers and I

  /** 6xkk and 7xkk write V[x] alone: kk, or V[x] + kk modulo 256 with no carry recorded in VF. */
  lemma ByteLoads(mode: Addressing, s: State, f: Fields, rnd: Random)
    requires f.family == 0x6 || f.family == 0x7
    ensures var o := Execute(mode, s, f, rnd);
      && o.Next? && o.state == s.(v := o.state.v, pc := Advance(s.pc, 2))
      && o.state.v[f.x] == (if f.family == 0x6 then f.kk else (s.v[f.x] + f.kk) % 256)
      && forall r :: 0 <= r < 16 && r != f.x ==> o.state.v[r] == s.v[r]
  {}

  /**
    8xyN: the registers become Alu of the old ones and pc advances, for a
    known selector as for an unknown one; nothing else in the machine moves.
   */
  lemma AluStep(mode: Addressing, s: State, f: Fields, rnd: Random)
    requires f.family == 0x8
    ensures Execute(mode, s, f, rnd) == Next(s.(v := Alu(s.v, f.x, f.y, f.n), pc := Advance(s.pc, 2)))
  {}

  /** Annn sets I; Cxkk writes V[x] from the random byte; neither touches anything else. */
  lemma IndexAndRandom(mode: Addressing, s: State, f: Fields, rnd: Random)
    requires f.family == 0xA || f.family == 0xC
    ensures var o := Execute(mode, s, f, rnd);
      && o.Next? && o.state.pc == Advance(s.pc, 2)
      && (f.family == 0xA ==> o.state == s.(i := f.nnn, pc := o.state.pc))
      && (f.family == 0xC ==> o.state == s.(v := s.v[f.x := And8(rnd, f.kk)], pc := o.state.pc))
  {}

  lemma ByteOfBits(b: bv8)
    ensures (b as int) as bv8 == b
  {}

  lemma AndBits(a: Byte, b: Byte)
    ensures And8(a, b) as bv8 == (a as bv8) & (b as bv8)
  {
    ByteOfBits((a as bv8) & (b as bv8));
  }

  lemma AndWithin(a: bv8, b: bv8)
    ensures (a & b) & !b == 0
  {}

  /** Cxkk's random byte is masked by kk: V[x] has no bit that kk lacks, so kk = 0 clears it. */
  lemma RandomMasked(mode: Addressing, s: State, f: Fields, rnd: Random)
    requires f.family == 0xC
    ensures var o := Execute(mode, s, f, rnd);
      && o.Next?
      && (o.state.v[f.x] as bv8) & !(f.kk as bv8) == 0
      && (f.kk == 0 ==> o.state.v[f.x] == 0)
  {
    AndBits(rnd, f.kk);
    AndWithin(rnd as bv8, f.kk as bv8);
  }

  /**
    Fx1E: VF records whether I + V[x] exceeds 255, the threshold the
    interpreter tests, and I then grows modulo 2^16 by V[x] as it is after
    that write. For x != 0xF that is the old V[x]; for x = 0xF it is the
    flag, so I grows by 0 or 1.
   */
  lemma IndexAdd(mode: Addressing, s: State, f: Fields, rnd: Random)
    requires f.family == 0xF && f.kk == 0x1E
    ensures var o := Execute(mode, s, f, rnd);
      && o.Next?
      && (o.state.v[15] == 1 <==> s.i + s.v[f.x] > 255) && o.state.v[15] <= 1
      && o.state == s.(v := s.v[15 := o.state.v[15]], i := o.state.i, pc := Advance(s.pc, 2))
      && (f.x != 15 ==> o.state.i == (s.i + s.v[f.x]) % 0x1_0000)
      && (f.x == 15 ==> o.state.i == (s.i + o.state.v[15]) % 0x1_0000)
  {}

  /** Fx29 points I at the font glyph of the digit in V[x]. */
  lemma FontAddress(mode: Addressing, s: State, f: Fields, rnd: Random)
    requires f.family == 0xF && f.kk == 0x29 && s.v[f.x] < 16
    requires forall a :: 0 <= a < |FontSet| ==> s.ram[InterpreterStart + a] == FontSet[a]
    ensures var o := Execute(mode, s, f, rnd);
      && o.Next? && o.state == s.(i := o.state.i, pc := Advance(s.pc, 2))
      && o.state.i + BytesPerCharacter <= |FontSet|
      && o.state.ram[o.state.i..o.state.i + BytesPerCharacter] == Glyph(s.v[f.x])
  {
    var g := s.v[f.x];
    assert s.ram[5 * g..5 * g + 5] == FontSet[5 * g..5 * g + 5];
  }

  /** The five rows of the glyph of hex digit g. */
  function Glyph(g: Nibble): (r: seq<Byte>)
    ensures |r| == BytesPerCharacter
  {
    FontSet[BytesPerCharacter * g..BytesPerCharacter * (g + 1)]
  }

  /** Fx07, Fx15 and Fx18 move a byte between V[x] and a timer. */
  lemma TimerMoves(mode: Addressing, s: State, f: Fields, rnd: Random)
    requires f.family == 0xF && (f.kk == 0x07 || f.kk == 0x15 || f.kk == 0x18)
    ensures var o := Execute(mode, s, f, rnd);
      && o.Next? && o.state.pc == Advance(s.pc, 2)
      && (f.kk == 0x07 ==> o.state == s.(v := s.v[f.x := s.dt], pc := o.state.pc))
      && (f.kk == 0x15 ==> o.state == s.(dt := s.v[f.x], pc := o.state.pc))
      && (f.kk == 0x18 ==> o.state == s.(st := s.v[f.x], pc := o.state.pc))
  {}

  /** Fx0A waits while no key is down; otherwise it stores the lowest pressed key. */
  lemma KeyWait(mode: Addressing, s: State, f: Fields, rnd: Random)
    requires f.family == 0xF && f.kk == 0x0A
    ensures var o := Execute(mode, s, f, rnd);
      && (o == AwaitingKey <==> forall k :: 0 <= k < 16 ==> s.keys[k] == 0)
      && o != Fatal
      && (o.Next? ==>
            var key := o.state.v[f.x];
            && key < 16 && s.keys[key] != 0
            && (forall k :: 0 <= k < key ==> s.keys[k] == 0)
            && o.state == s.(v := s.v[f.x := key], pc := Advance(s.pc, 2)))
  {
    LowestPressedIsLowest(s.keys);
  }

  // ---------------------------------------------------------------------
  // Memory transfers

  /** Fx33 stores BcdAsWritten(V[x]) at I, I+1, I+2, the decimal digits for every value but 10 and 100. */
  lemma StoresDigits(mode: Addressing, s: State, f: Fields, rnd: Random)
    requires f.family == 0xF && f.kk == 0x33 && s.i + 2 < MemorySize
    ensures var o := Execute(mode, s, f, rnd);
      && o.Next? && o.state == s.(ram := o.state.ram, pc := Advance(s.pc, 2))
      && o.state.ram[s.i..s.i + 3] == BcdAsWritten(s.v[f.x])
      && (s.v[f.x] != 10 && s.v[f.x] != 100 ==> o.state.ram[s.i..s.i + 3] == Decimal(s.v[f.x]))
      && forall a :: 0 <= a < MemorySize && !(s.i <= a < s.i + 3) ==> o.state.ram[a] == s.ram[a]
  {
    BcdIsDecimal(s.v[f.x]);
    var r := Execute(mode, s, f, rnd).state.ram;
    assert r[s.i..s.i + 3] == [r[s.i], r[s.i + 1], r[s.i + 2]];
  }

  /**
    Fx55 and Fx65 move V[0] .. V[x-1] to or from I onwards (V[x] itself is
    not moved) and leave I advanced by x + 1.
   */
  lemma Transfers(mode: Addressing, s: State, f: Fields, rnd: Random)
    requires f.family == 0xF && (f.kk == 0x55 || f.kk == 0x65)
    requires f.x == 0 || s.i + f.x <= MemorySize
    ensures var o := Execute(mode, s, f, rnd);
      && o.Next? && o.state.pc == Advance(s.pc, 2) && o.state.i == (s.i + f.x + 1) % 0x1_0000
      && (f.kk == 0x55 ==>
            && o.state == s.(ram := o.state.ram, i := o.state.i, pc := o.state.pc)
            && (forall k :: 0 <= k < f.x ==> o.state.ram[s.i + k] == s.v[k])
            && forall a :: 0 <= a < MemorySize && !(s.i <= a < s.i + f.x) ==> o.state.ram[a] == s.ram[a])
      && (f.kk == 0x65 ==>
            && o.state == s.(v := o.state.v, i := o.state.i, pc := o.state.pc)
            && (forall k :: 0 <= k < f.x ==> o.state.v[k] == s.ram[s.i + k])
            && forall k :: f.x <= k < 16 ==> o.state.v[k] == s.v[k])
  {}

  /** Fx65 from the address an Fx55 stored to gets back the stored registers: the registers are as before. */
  lemma SaveThenRestore(mode: Addressing, s: State, save: Fields, load: Fields, rnd: Random)
    requires save.family == 0xF && save.kk == 0x55 && load.family == 0xF && load.kk == 0x65 && save.x == load.x
    requires save.x == 0 || s.i + save.x <= MemorySize
    ensures var o := Execute(mode, s, save, rnd);
      && o.Next? && CanExecute(mode, o.state.(i := s.i), load)
      && var u := Execute(mode, o.state.(i := s.i), load, rnd);
      && u.Next? && u.state.v == s.v
  {
    var t := Execute(mode, s, save, rnd).state.(i := s.i);
    assert t.ram == StoreRegisters(s.ram, s.i, s.v, save.x);
    var w := LoadRegisters(s.v, t.ram, s.i, save.x);
    assert forall k :: 0 <= k < 16 ==> w[k] == s.v[k];
  }

  // ---------------------------------------------------------------------
  // The screen

  /** 00E0 darkens every pixel and marks the screen for redrawing. */
  lemma ClearsScreen(mode: Addressing, s: State, f: Fields, rnd: Random)
    requires f.family == 0x0 && f.kk == 0xE0
    ensures var o := Execute(mode, s, f, rnd);
      && o.Next? && o.state == s.(display := o.state.display, updateDisplay := true, pc := Advance(s.pc, 2))
      && forall p: (nat, nat) :: p.1 < Rows ==> !LitAt(o.state.display, p)
  {}

  /**
    Dxyn with x, y != 0xF XORs the sprite onto the screen, sets VF exactly
    when a pixel it hits was lit, and marks the screen for redrawing.
   */
  lemma DrawsSprite(mode: Addressing, s: State, f: Fields, rnd: Random)
    requires f.family == 0xD && f.x != 15 && f.y != 15 && CanExecute(mode, s, f)
    ensures var o := Execute(mode, s, f, rnd); var d := SpriteOf(mode, s, f);
      && o.Next? && o.state.display == Flip(s.display, Hits(d))
      && (o.state.v[15] == 1 <==> Collides(s.display, Hits(d))) && o.state.v[15] <= 1
      && o.state == s.(display := o.state.display, v := s.v[15 := o.state.v[15]], updateDisplay := true, pc := Advance(s.pc, 2))
  {
    DrawXor(SpriteOf(mode, s, f));
    DrawCollision(SpriteOf(mode, s, f));
  }

  /** The state right after a Dxyn holds exactly the redraw of its sprite. */
  lemma DrawnSprite(mode: Addressing, s: State, f: Fields, rnd: Random)
    requires f.family == 0xD && CanExecute(mode, s, f)
    ensures var t := Execute(mode, s, f, rnd).state;
      SpriteOf(mode, t, f) == Redraw(SpriteOf(mode, s, f))
  {}

  /** The same Dxyn executed twice in a row leaves the screen as it found it. */
  lemma DrawTwiceRestoresScreen(mode: Addressing, s: State, f: Fields, rnd: Random)
    requires f.family == 0xD && f.x != 15 && f.y != 15 && CanExecute(mode, s, f)
    ensures var t := Execute(mode, s, f, rnd).state;
      CanExecute(mode, t, f) && Execute(mode, t, f, rnd).state.display == s.display
  {
    DrawnSprite(mode, s, f, rnd);
    DrawTwiceRestores(SpriteOf(mode, s, f));
  }

  /** On a clear screen a Dxyn reports no collision, and repeating it does, unless the sprite hits no pixel. */
  lemma DrawTwiceOnClearScreen(mode: Addressing, s: State, f: Fields, rnd: Random)
    requires f.family == 0xD && f.x != 15 && f.y != 15 && CanExecute(mode, s, f) && s.display == Blank()
    ensures var t := Execute(mode, s, f, rnd).state;
      && t.v[15] == 0 && CanExecute(mode, t, f)
      && (Execute(mode, t, f, rnd).state.v[15] == 1 <==> Hits(SpriteOf(mode, s, f)) != {})
  {
    DrawnSprite(mode, s, f, rnd);
    DrawTwiceOnBlank(SpriteOf(mode, s, f));
  }

  // ---------------------------------------------------------------------
  // The cycle

  /**
    A cycle that finishes ticks both timers once after the opcode ran, so a
    timer the opcode did not write drops by one towards zero and a value
    Fx15/Fx18 just wrote is already one lower; a cycle that waits or exits
    ticks nothing.
   */
  lemma TimersTick(mode: Addressing, s: State, rnd: Random)
    requires CanStep(mode, s)
    ensures var f := Decode(Opcode(s)); var o := Execute(mode, s, f, rnd); var r := Step(mode, s, rnd);
      && (o.Next? <==> r.Next?) && (!o.Next? ==> r == o)
      && (r.Next? ==>
            && r.state == o.state.(dt := r.state.dt, st := r.state.st)
            && r.state.dt == (if o.state.dt == 0 then 0 else o.state.dt - 1)
            && r.state.st == (if o.state.st == 0 then 0 else o.state.st - 1)
            && (!(f.family == 0xF && f.kk == 0x15) ==> r.state.dt == (if s.dt == 0 then 0 else s.dt - 1))
            && (!(f.family == 0xF && f.kk == 0x18) ==> r.state.st == (if s.st == 0 then 0 else s.st - 1)))
  {}

  /** An opcode that changes nothing is fetched again by the next cycle: the interpreter spins on it while the timers run down. */
  lemma SpinsOnUnknown(mode: Addressing, s: State, rnd: Random)
    requires CanStep(mode, s)
    requires Execute(mode, s, Decode(Opcode(s)), rnd) == Next(s)
    ensures Step(mode, s, rnd) == Next(UpdateTimers(s))
    ensures CanStep(mode, UpdateTimers(s)) && Decode(Opcode(UpdateTimers(s))) == Decode(Opcode(s))
  {
    var t, f := UpdateTimers(s), Decode(Opcode(s));
    assert Opcode(t) == Opcode(s);
    assert SpriteOf(mode, t, f) == SpriteOf(mode, s, f);
  }
}
