/**
  The CHIP-8 machine as a value: memory, registers, timers, stack, framebuffer
  and keypad, the constants the interpreter installs, and the pieces of one
  cycle that do not depend on the opcode (fetch, decode, timer tick).
 */
module Machine {

  /** A Go `uint16`. */
  type U16 = n: int | 0 <= n < 0x1_0000
  /** A 4-bit field of an opcode: a register index, a sprite height. */
  type Nibble = n: int | 0 <= n < 16
  /** The 12-bit address field of an opcode. */
  type Address = n: int | 0 <= n < 0x1000
  /** A Go `uint8`, or the low byte of an opcode. */
  type Byte = n: int | 0 <= n < 0x100

  const MemorySize := 4096
  const InterpreterStart := 0x000
  const ProgramStart := 0x200
  const BytesPerCharacter := 5
  const Rows := 32
  const Columns := 64
  /** The largest ROM that fits between ProgramStart and the end of memory. */
  const MaxRomSize := MemorySize - ProgramStart

  /** The 16 hexadecimal glyphs, 5 bytes each, installed at InterpreterStart. */
  const FontSet: seq<Byte> := [
    0xF0, 0x90, 0x90, 0x90, 0xF0, // 0
    0x20, 0x60, 0x20, 0x20, 0x70, // 1
    0xF0, 0x10, 0xF0, 0x80, 0xF0, // 2
    0xF0, 0x10, 0xF0, 0x10, 0xF0, // 3
    0x90, 0x90, 0xF0, 0x10, 0x10, // 4
    0xF0, 0x80, 0xF0, 0x10, 0xF0, // 5
    0xF0, 0x80, 0xF0, 0x90, 0xF0, // 6
    0xF0, 0x10, 0x20, 0x40, 0x40, // 7
    0xF0, 0x90, 0xF0, 0x90, 0xF0, // 8
    0xF0, 0x90, 0xF0, 0x10, 0xF0, // 9
    0xF0, 0x90, 0xF0, 0x90, 0x90, // A
    0xE0, 0x90, 0xE0, 0x90, 0xE0, // B
    0xF0, 0x80, 0x80, 0x80, 0xF0, // C
    0xE0, 0x90, 0x90, 0x90, 0xE0, // D
    0xF0, 0x80, 0xF0, 0x80, 0xF0, // E
    0xF0, 0x80, 0xF0, 0x80, 0x80  // F
  ]

  /** The Go arrays, each of its fixed size. */
  type Memory = s: seq<Byte> | |s| == MemorySize witness seq(MemorySize, _ => 0)
  type Registers = s: seq<Byte> | |s| == 16 witness seq(16, _ => 0)
  type Stack = s: seq<U16> | |s| == 16 witness seq(16, _ => 0)
  /** A screen row, column 0 first, and the screen, row 0 first; `true` is a lit pixel. */
  type Row = s: seq<bool> | |s| == Columns witness seq(Columns, _ => false)
  type Frame = s: seq<Row> | |s| == Rows witness seq(Rows, _ => seq(Columns, _ => false))
  type Keypad = s: seq<Byte> | |s| == 16 witness seq(16, _ => 0)

  /**
    The whole machine, the framebuffer taken pixel by pixel (the interpreter
    packs each row into a 64-bit word); a key counts as pressed when nonzero.
   */
  datatype State = State(
    ram: Memory,
    v: Registers,
    i: U16,
    dt: Byte,
    st: Byte,
    pc: U16,
    sp: Byte,
    stack: Stack,
    display: Frame,
    keys: Keypad,
    updateDisplay: bool)

  /** The cleared screen. */
  function Blank(): (f: Frame)
    ensures forall r, c :: 0 <= r < Rows && 0 <= c < Columns ==> !f[r][c]
  {
    seq(Rows, _ => seq(Columns, _ => false))
  }

  /** Go's uint8 arithmetic: the result modulo 256. */
  function Wrap8(k: int): Byte {
    k % 0x100
  }

  /** Go's `pc += k` on a uint16. */
  function Advance(pc: U16, k: nat): U16 {
    (pc + k) % 0x1_0000
  }

  // ---------------------------------------------------------------------
  // Loading a program

  /** Memory after the loader copied `bs` to ProgramStart onwards. */
  function LoadImage(ram: seq<Byte>, bs: seq<Byte>): (r: seq<Byte>)
    requires |ram| == MemorySize && |bs| <= MaxRomSize
    ensures |r| == MemorySize
    ensures forall j :: 0 <= j < |bs| ==> r[ProgramStart + j] == bs[j]
    ensures forall a :: 0 <= a < MemorySize && !(ProgramStart <= a < ProgramStart + |bs|) ==> r[a] == ram[a]
  {
    ram[..ProgramStart] + bs + ram[ProgramStart + |bs|..]
  }

  /** The machine New returns: the font at InterpreterStart, pc at ProgramStart, everything else zero. */
  function PowerOn(): (s: State)
    ensures forall a :: 0 <= a < |FontSet| ==> s.ram[InterpreterStart + a] == FontSet[a]
    ensures forall a :: |FontSet| <= a < MemorySize ==> s.ram[a] == 0
    ensures s.pc == ProgramStart && s.i == 0 && s.sp == 0 && s.dt == 0 && s.st == 0
    ensures s.display == Blank() && !s.updateDisplay
    ensures forall r :: 0 <= r < 16 ==> s.v[r] == 0 && s.stack[r] == 0 && s.keys[r] == 0
  {
    State(FontSet + seq(MemorySize - |FontSet|, _ => 0), seq(16, _ => 0), 0, 0, 0,
          ProgramStart, 0, seq(16, _ => 0), Blank(), seq(16, _ => 0), false)
  }

  /**
    A ROM loaded into a fresh machine: it sits at ProgramStart, the font
    below it is intact, and the first fetch reads the ROM's first two bytes.
   */
  lemma BootImage(bs: seq<Byte>)
    requires 2 <= |bs| <= MaxRomSize
    ensures var s := PowerOn().(ram := LoadImage(PowerOn().ram, bs));
      && s.ram[ProgramStart..ProgramStart + |bs|] == bs
      && (forall a :: 0 <= a < |FontSet| ==> s.ram[InterpreterStart + a] == FontSet[a])
      && Opcode(s) == bs[0] as int * 256 + bs[1] as int
  {
    var r := LoadImage(PowerOn().ram, bs);
    assert r[ProgramStart..ProgramStart + |bs|] == bs;
  }

  // ---------------------------------------------------------------------
  // Fetch and decode

  /** The big-endian opcode at pc, `uint16(ram[pc])<<8 | uint16(ram[pc+1])` read as a number. */
  function Opcode(s: State): U16
    requires s.pc + 1 < MemorySize
  {
    s.ram[s.pc] as int * 256 + s.ram[s.pc + 1] as int
  }

  /** Go's shift-and-or join of two bytes is the base-256 number they spell. */
  lemma BytesJoin(hi: bv8, lo: bv8)
    ensures ((hi as bv16 << 8) | lo as bv16) as int == hi as int * 256 + lo as int
  {}

  /** The sub-fields of an opcode, and its high nibble. */
  datatype Fields = Fields(family: Nibble, nnn: Address, n: Nibble, x: Nibble, y: Nibble, kk: Byte)

  /** The fields as digits of the opcode in bases 16, 256 and 4096. */
  function Decode(op: U16): (f: Fields)
    ensures op == f.family * 4096 + f.x * 256 + f.y * 16 + f.n
    ensures f.nnn == f.x * 256 + f.kk && f.kk == f.y * 16 + f.n
  {
    DigitsOf(op);
    Fields(op / 4096, op % 4096, op % 16, (op / 256) % 16, (op / 16) % 16, op % 256)
  }

  /**
    The interpreter's masks and shifts (`opcode & 0xf000`, `opcode & 0x0fff`,
    `opcode & 0x000f`, `(opcode >> 8) & 0x000f`, `(opcode >> 4) & 0x000f`,
    `opcode & 0x00ff`) compute exactly the fields of Decode.
   */
  lemma MasksAreFields(op: bv16)
    ensures var f := Decode(op as int);
      && f.family == ((op & 0xF000) >> 12) as int
      && f.nnn == (op & 0x0FFF) as int
      && f.n == (op & 0x000F) as int
      && f.x == ((op >> 8) & 0x000F) as int
      && f.y == ((op >> 4) & 0x000F) as int
      && f.kk == (op & 0x00FF) as int
  {
    var w := op as int;
    assert Decode(w) == Fields(w / 4096, w % 4096, w % 16, (w / 256) % 16, (w / 16) % 16, w % 256);
    Low4(op);
    Low8(op);
    Low12(op);
    Low4(op >> 4);
    Low4(op >> 8);
    ShiftIsDivision(op);
  }

  lemma ShiftIsDivision(b: bv16)
    ensures (b >> 4) as int == b as int / 16
    ensures (b >> 8) as int == b as int / 256
    ensures ((b & 0xF000) >> 12) as int == b as int / 4096
  {
    Shift4(b);
    Shift8(b);
    assert (b & 0xF000) >> 12 == b >> 12;
    Shift12(b);
  }

  lemma Shift4(b: bv16)
    ensures (b >> 4) as int == b as int / 16
  {
    Split4(b);
    Unique(16, (b & 0xF) as int, (b >> 4) as int, b as int);
  }

  lemma Shift8(b: bv16)
    ensures (b >> 8) as int == b as int / 256
  {
    Split8(b);
    Unique(256, (b & 0xFF) as int, (b >> 8) as int, b as int);
  }

  lemma Shift12(b: bv16)
    ensures (b >> 12) as int == b as int / 4096
  {
    Split12(b);
    Unique(4096, (b & 0xFFF) as int, (b >> 12) as int, b as int);
  }

  lemma Low4(b: bv16)
    ensures (b & 0x000F) as int == b as int % 16
  {
    Split4(b);
    Unique(16, (b & 0xF) as int, (b >> 4) as int, b as int);
  }

  lemma Low8(b: bv16)
    ensures (b & 0x00FF) as int == b as int % 256
  {
    Split8(b);
    Unique(256, (b & 0xFF) as int, (b >> 8) as int, b as int);
  }

  lemma Low12(b: bv16)
    ensures (b & 0x0FFF) as int == b as int % 4096
  {
    Split12(b);
    Unique(4096, (b & 0xFFF) as int, (b >> 12) as int, b as int);
  }

  lemma Split4(b: bv16)
    ensures (b & 0xF) as int < 16
    ensures (b & 0xF) as int + 16 * (b >> 4) as int == b as int
  {
    assert b == (b & 0xF) | ((b >> 4) << 4);
    assert (b >> 4) < 0x1000;
  }

  lemma Split8(b: bv16)
    ensures (b & 0xFF) as int < 256 && (b & 0xFF) as int + 256 * (b >> 8) as int == b as int
  {}

  lemma Split12(b: bv16)
    ensures (b & 0xFFF) as int < 4096 && (b & 0xFFF) as int + 4096 * (b >> 12) as int == b as int
  {}

  /** The remainder is the only digit below the base. */
  lemma Unique(base: int, lo: int, hi: int, w: int)
    requires base == 16 || base == 256 || base == 4096
    requires 0 <= lo < base && lo + base * hi == w
    ensures lo == w % base && hi == w / base
  {
    if base == 16 {
      assert lo == w % 16 && hi == w / 16;
    } else if base == 256 {
      assert lo == w % 256 && hi == w / 256;
    } else {
      assert lo == w % 4096 && hi == w / 4096;
    }
  }

  lemma DigitsOf(w: int)
    requires 0 <= w < 0x1_0000
    ensures w == (w / 4096) * 4096 + ((w / 256) % 16) * 256 + ((w / 16) % 16) * 16 + w % 16
    ensures w % 4096 == ((w / 256) % 16) * 256 + w % 256
    ensures w % 256 == ((w / 16) % 16) * 16 + w % 16
  {
    var n, t := w % 16, w / 16;
    var y, t2 := t % 16, t / 16;
    var x, f := t2 % 16, t2 / 16;
    assert w == 256 * t2 + (16 * y + n);
    Unique(256, 16 * y + n, t2, w);
    assert w == 4096 * f + (256 * x + 16 * y + n);
    Unique(4096, 256 * x + 16 * y + n, f, w);
  }

  // ---------------------------------------------------------------------
  // Timers

  /** One tick of a countdown timer: down by one, but never below zero. */
  function Tick(t: Byte): Byte {
    if t > 0 then t - 1 else t
  }

  /** The timer after `k` ticks. */
  function Ticks(t: Byte, k: nat): Byte {
    if k == 0 then t else Tick(Ticks(t, k - 1))
  }

  /** Timers decay to zero one tick at a time and stay there. */
  lemma {:induction false} TicksSaturate(t: Byte, k: nat)
    ensures Ticks(t, k) == if k <= t then t - k else 0
  {
    if k > 0 {
      TicksSaturate(t, k - 1);
    }
  }
}
