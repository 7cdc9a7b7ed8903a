/**
  The interpreter as the source has it: an object whose fields (memory,
  registers, stack, the 32 framebuffer words, the keypad) the methods update
  in place. Every method is proved against the value model: `Snapshot()` reads
  the object as a `State`, and each method's new snapshot is the model's
  function of the old one.
 */
module Interpreter {
  import opened Machine
  import opened Framebuffer
  import opened Sprites
  import opened Semantics

  /** How EmulateCycle ended: the cycle ran, it is polling for a key, or the process exits. */
  datatype Cycle = Ran | Waiting | Exited

  /** The model's outcome for a cycle that ended as o with snapshot s. */
  function Reported(o: Cycle, s: State): Outcome {
    match o
    case Ran => Next(s)
    case Waiting => AwaitingKey
    case Exited => Fatal
  }

  class Emulator {
    /** Which snapshot of the source: emulator.go wraps coordinates, chip8.go does not. */
    const mode: Addressing
    const ram: array<Byte>
    const v: array<Byte>
    var i: U16
    var dt: Byte
    var st: Byte
    var pc: U16
    var sp: Byte
    const stack: array<U16>
    const display: array<bv64>
    const keys: array<Byte>
    var updateDisplay: bool

    ghost predicate Valid()
      reads this
    {
      && ram.Length == MemorySize && v.Length == 16 && stack.Length == 16
      && display.Length == Rows && keys.Length == 16
      && ram != v && ram != keys && v != keys
    }

    /** The machine the object holds. */
    ghost function Snapshot(): State
      requires Valid()
      reads this, ram, v, stack, display, keys
    {
      State(ram[..], v[..], i, dt, st, pc, sp, stack[..], FrameOf(display[..]), keys[..], updateDisplay)
    }

    /** New: zeroed memory with the font installed, pc at ProgramStart. */
    constructor (mode: Addressing)
      ensures Valid() && this.mode == mode
      ensures fresh(ram) && fresh(v) && fresh(stack) && fresh(display) && fresh(keys)
      ensures Snapshot() == PowerOn()
    {
      this.mode := mode;
      ram := new Byte[MemorySize](_ => 0);
      v := new Byte[16](_ => 0);
      stack := new U16[16](_ => 0);
      display := new bv64[Rows](_ => 0);
      keys := new Byte[16](_ => 0);
      i, dt, st, pc, sp := 0, 0, 0, ProgramStart, 0;
      updateDisplay := false;
      new;
      InstallFont(ram);
      assert forall r :: 0 <= r < Rows ==> display[..][r] == 0;
      FrameZero(display[..]);
      assert v[..] == PowerOn().v && keys[..] == PowerOn().keys && stack[..] == PowerOn().stack;
    }

    /** New's loop: the font copied into zeroed memory from InterpreterStart on. */
    static method InstallFont(ram: array<Byte>)
      requires ram.Length == MemorySize && forall a :: 0 <= a < MemorySize ==> ram[a] == 0
      modifies ram
      ensures ram[..] == PowerOn().ram
    {
      for k := 0 to |FontSet|
        invariant forall a :: 0 <= a < k ==> ram[InterpreterStart + a] == FontSet[a]
        invariant forall a :: k <= a < MemorySize ==> ram[a] == 0
      {
        ram[InterpreterStart + k] := FontSet[k];
      }
      assert ram[..] == PowerOn().ram;
    }

    /** LoadROM: the bytes read from the ROM copied to ProgramStart onwards. */
    method LoadROM(bs: seq<Byte>)
      requires Valid() && |bs| <= MaxRomSize
      modifies ram
      ensures Valid()
      ensures ram[..] == LoadImage(old(ram[..]), bs)
    {
      for k := 0 to |bs|
        invariant forall j :: 0 <= j < k ==> ram[ProgramStart + j] == bs[j]
        invariant forall a :: 0 <= a < MemorySize && !(ProgramStart <= a < ProgramStart + k) ==> ram[a] == old(ram[a])
      {
        ram[ProgramStart + k] := bs[k];
      }
      assert ram[..] == LoadImage(old(ram[..]), bs);
    }

    /** updateTimers: each timer down by one unless it is already zero. */
    method UpdateTimers()
      requires Valid()
      modifies this
      ensures Valid()
      ensures Snapshot() == Semantics.UpdateTimers(old(Snapshot()))
    {
      if dt > 0 {
        dt := dt - 1;
      }
      if st > 0 {
        st := st - 1;
      }
    }

    /** clearDisplay: every row word zeroed, the screen marked for redrawing. */
    method ClearDisplay()
      requires Valid()
      modifies this, display
      ensures Valid()
      ensures Snapshot() == Semantics.ClearDisplay(old(Snapshot()))
    {
      for r := 0 to Rows
        modifies display
        invariant forall q :: 0 <= q < r ==> display[q] == 0
      {
        display[r] := 0;
      }
      assert forall q :: 0 <= q < Rows ==> display[..][q] == 0;
      FrameZero(display[..]);
      updateDisplay := true;
    }

    /** togglePixel: XOR the pixel's mask into its row; emulator.go first wraps both coordinates. */
    method TogglePixel(x: nat, y: nat)
      requires Valid() && (mode == Clipping ==> y < Rows)
      modifies display
      ensures Valid()
      ensures FrameOf(display[..]) == Plot(Canvas(old(FrameOf(display[..])), false), Screen(mode, x, y)).display
    {
      var c, r := Place(x, y);
      ghost var ws := display[..];
      ghost var before := FrameOf(ws);
      display[r] := Toggle(display[r], c);
      RowReplaced(ws, r, display[r]);
      assert display[..] == ws[r := display[r]];
      assert FrameOf(display[..]) == Plot(Canvas(before, false), (c, r)).display;
    }

    /** getPixel: the row word masked with the pixel's bit, nonzero exactly when the pixel is lit. */
    method GetPixel(x: nat, y: nat) returns (p: bv64)
      requires Valid() && (mode == Clipping ==> y < Rows)
      ensures (p != 0) == LitAt(FrameOf(display[..]), Screen(mode, x, y))
    {
      var c, r := Place(x, y);
      p := Probe(display[r], c);
      assert FrameOf(display[..])[r] == Pixels(display[r]);
    }

    /** The coordinates togglePixel and getPixel address: emulator.go wraps them. */
    method Place(x: nat, y: nat) returns (c: nat, r: nat)
      requires mode == Clipping ==> y < Rows
      ensures (c, r) == Screen(mode, x, y)
    {
      c, r := x, y;
      if mode == Wrapping {
        if x >= Columns {
          c := x % Columns;
        }
        if y >= Rows {
          r := y % Rows;
        }
      }
    }

    // -------------------------------------------------------------------
    // Dxyn

    /**
      One pixel of Dxyn's inner loop: getPixel, then togglePixel and the
      collision flag when sprite bit col of bt is set. c is the canvas
      the object holds on entry.
     */
    method DrawPixel(ghost c: Canvas, x0: nat, y0: nat, bt: Byte, col: nat)
      requires Valid() && col < 8 && (mode == Clipping ==> y0 < Rows)
      requires v[15] == Flag(c.vf) && FrameOf(display[..]) == c.display
      modifies v, display
      ensures Valid()
      ensures var c' := if SpriteBit(bt, col) then Plot(c, Screen(mode, x0, y0)) else c;
        v[..] == old(v[..])[15 := Flag(c'.vf)] && FrameOf(display[..]) == c'.display
    {
      var pix := GetPixel(x0, y0);
      if SpriteBit(bt, col) {
        TogglePixel(x0, y0);
        if pix != 0 {
          v[15] := 1;
        }
      }
    }

    /** Column `col` of sprite row `row`: V[x] read afresh, then the pixel drawn at (V[x] + col, y0). */
    method DrawColumn(ghost d: Sprite, ghost c0: Canvas, x: Nibble, y0: nat, row: nat, bt: Byte, col: nat)
      requires Valid() && Drawable(d) && row < d.n && col < 8 && (d.mode == Clipping ==> y0 < Rows)
      requires d.mode == mode && d.x == x && bt == d.ram[d.i + row]
      requires v[..] == d.v[15 := Flag(PaintRow(d, c0, y0, row, col).vf)]
      requires FrameOf(display[..]) == PaintRow(d, c0, y0, row, col).display
      modifies v, display
      ensures Valid()
      ensures v[..] == d.v[15 := Flag(PaintRow(d, c0, y0, row, col + 1).vf)]
      ensures FrameOf(display[..]) == PaintRow(d, c0, y0, row, col + 1).display
    {
      ghost var c := PaintRow(d, c0, y0, row, col);
      var x0: nat := v[x] as int + col;
      assert x0 == Reg(d, c.vf, d.x) + col;
      ghost var c' := PaintRow(d, c0, y0, row, col + 1);
      assert c' == if SpriteBit(bt, col) then Plot(c, Screen(mode, x0, y0)) else c;
      DrawPixel(c, x0, y0, bt, col);
      assert v[..] == d.v[15 := Flag(c'.vf)];
    }

    /** Row `row` of Dxyn: V[y] read when the row starts, the eight columns walked left to right. */
    method DrawRow(ghost d: Sprite, x: Nibble, y: Nibble, row: nat)
      requires Valid() && Drawable(d) && row < d.n
      requires d.mode == mode && d.ram == ram[..] && d.i == i && d.x == x && d.y == y
      requires v[..] == d.v[15 := Flag(PaintRows(d, row).vf)] && FrameOf(display[..]) == PaintRows(d, row).display
      modifies v, display
      ensures Valid()
      ensures v[..] == d.v[15 := Flag(PaintRows(d, row + 1).vf)] && FrameOf(display[..]) == PaintRows(d, row + 1).display
    {
      ghost var c0 := PaintRows(d, row);
      var y0: nat := v[y] as int + row;
      assert y0 == RowY(d, c0.vf, row);
      var bt := ram[i + row];
      for col := 0 to 8
        invariant v[..] == d.v[15 := Flag(PaintRow(d, c0, y0, row, col).vf)]
        invariant FrameOf(display[..]) == PaintRow(d, c0, y0, row, col).display
      {
        DrawColumn(d, c0, x, y0, row, bt, col);
      }
    }

    /** Dxyn: VF cleared, the sprite's rows drawn top to bottom, the screen marked for redrawing. */
    method DrawSprite(f: Fields)
      requires Valid() && Drawable(SpriteOf(mode, Snapshot(), f))
      modifies this, v, display
      ensures Valid()
      ensures Snapshot() == Draw(mode, old(Snapshot()), f)
    {
      ghost var d := SpriteOf(mode, Snapshot(), f);
      v[15] := 0;
      for row := 0 to f.n
        modifies v, display
        invariant v[..] == d.v[15 := Flag(PaintRows(d, row).vf)]
        invariant FrameOf(display[..]) == PaintRows(d, row).display
      {
        DrawRow(d, f.x, f.y, row);
      }
      updateDisplay := true;
      pc := Advance(pc, 2);
    }

    // -------------------------------------------------------------------
    // 8xyN

    /** 8xyN on the register file, VF written before V[x] as the interpreter does. */
    method Arithmetic(x: Nibble, y: Nibble, n: Nibble)
      requires Valid()
      modifies v
      ensures Valid()
      ensures v[..] == Alu(old(v[..]), x, y, n)
    {
      match n
      case 0x0 => v[x] := v[y];
      case 0x1 => v[x] := Or8(v[x], v[y]);
      case 0x2 => v[x] := And8(v[x], v[y]);
      case 0x3 => v[x] := Xor8(v[x], v[y]);
      case 0x4 =>
        v[15] := Flag(v[x] as int + v[y] as int > 255);
        v[x] := Wrap8(v[x] as int + v[y] as int);
      case 0x5 =>
        v[15] := Flag(v[x] > v[y]);
        v[x] := Wrap8(v[x] as int - v[y] as int);
      case 0x6 =>
        v[15] := v[x] % 2;
        v[x] := v[x] / 2;
      case 0x7 =>
        v[15] := Flag(v[y] > v[x]);
        v[x] := Wrap8(v[y] as int - v[x] as int);
      case 0xE =>
        v[15] := v[x] / 128;
        v[x] := Wrap8(v[x] as int * 2);
      case _ =>
    }

    // -------------------------------------------------------------------
    // FxNN

    /** Fx0A's scan of the keypad: the first key that is down, or -1. */
    method FirstPressed() returns (k: int)
      requires Valid()
      ensures k == LowestPressed(keys[..])
    {
      k := -1;
      var j := 0;
      while j < 16
        invariant 0 <= j <= 16
        invariant PressedFrom(keys[..], 0) == if k == -1 then PressedFrom(keys[..], j) else k
        invariant k == -1 || k < j
        decreases 16 - j
      {
        if keys[j] > 0 {
          k := j;
          break;
        }
        j := j + 1;
      }
    }

    /** Fx55's loop: V[0] .. V[x-1] copied to memory from I on. */
    method StoreLoop(x: Nibble)
      requires Valid() && (x == 0 || i + x <= MemorySize)
      modifies ram
      ensures Valid()
      ensures ram[..] == StoreRegisters(old(ram[..]), i, v[..], x)
    {
      for k := 0 to x
        invariant forall j :: 0 <= j < k ==> ram[i + j] == v[j]
        invariant forall a :: 0 <= a < MemorySize && !(i <= a < i + k) ==> ram[a] == old(ram[a])
      {
        ram[i + k] := v[k];
      }
      assert ram[..] == StoreRegisters(old(ram[..]), i, v[..], x);
    }

    /** Fx65's loop: V[0] .. V[x-1] read from memory from I on. */
    method LoadLoop(x: Nibble)
      requires Valid() && (x == 0 || i + x <= MemorySize)
      modifies v
      ensures Valid()
      ensures v[..] == LoadRegisters(old(v[..]), ram[..], i, x)
    {
      for k := 0 to x
        invariant forall j :: 0 <= j < k ==> v[j] == ram[i + j]
        invariant forall j :: k <= j < 16 ==> v[j] == old(v[j])
      {
        v[k] := ram[i + k];
      }
      assert v[..] == LoadRegisters(old(v[..]), ram[..], i, x);
    }

    /** Fx33: the digits of V[x] as the interpreter's three branches compute them, at I, I+1, I+2. */
    method StoreDigits(x: Nibble)
      requires Valid() && i + 2 < MemorySize
      modifies ram
      ensures Valid()
      ensures var d := BcdAsWritten(v[x]);
        ram[..] == old(ram[..])[i := d[0]][i + 1 := d[1]][i + 2 := d[2]]
    {
      var intVal := v[x];
      if intVal > 100 {
        ram[i] := (intVal % 1000) / 100;
        ram[i + 1] := (intVal % 100) / 10;
        ram[i + 2] := intVal % 10;
      } else if intVal > 10 {
        ram[i] := 0;
        ram[i + 1] := (intVal % 100) / 10;
        ram[i + 2] := intVal % 10;
      } else {
        ram[i] := 0;
        ram[i + 1] := 0;
        ram[i + 2] := intVal;
      }
    }

    /**
      FxNN. Fx0A with no key down ends the cycle as Waiting with nothing
      changed: the interpreter polls again, which the next call does. An
      unknown NN is the fatal exit.
     */
    method Miscellaneous(f: Fields) returns (o: Cycle)
      requires Valid()
      requires f.kk == 0x33 ==> i + 2 < MemorySize
      requires f.kk == 0x55 || f.kk == 0x65 ==> f.x == 0 || i + f.x <= MemorySize
      modifies this, ram, v
      ensures Valid()
      ensures Reported(o, Snapshot()) == Misc(old(Snapshot()), f)
      ensures o != Ran ==> Snapshot() == old(Snapshot())
    {
      var x := f.x;
      o := Ran;
      match f.kk
      case 0x07 =>
        v[x] := dt;
        pc := Advance(pc, 2);
      case 0x0A =>
        var k := FirstPressed();
        if k == -1 {
          o := Waiting;
        } else {
          v[x] := k;
          pc := Advance(pc, 2);
        }
      case 0x15 =>
        dt := v[x];
        pc := Advance(pc, 2);
      case 0x18 =>
        st := v[x];
        pc := Advance(pc, 2);
      case 0x1E =>
        v[15] := Flag(i as int + v[x] as int > 255);
        i := (i + v[x]) % 0x1_0000;
        pc := Advance(pc, 2);
      case 0x29 =>
        i := BytesPerCharacter * v[x];
        pc := Advance(pc, 2);
      case 0x33 =>
        StoreDigits(x);
        pc := Advance(pc, 2);
      case 0x55 =>
        StoreLoop(x);
        i := (i + x + 1) % 0x1_0000;
        pc := Advance(pc, 2);
      case 0x65 =>
        LoadLoop(x);
        i := (i + x + 1) % 0x1_0000;
        pc := Advance(pc, 2);
      case _ =>
        o := Exited;
    }

    // -------------------------------------------------------------------
    // One cycle

    /** EmulateCycle's switch on the opcode's high nibble. */
    method Dispatch(f: Fields, rnd: Random) returns (o: Cycle)
      requires Valid() && CanExecute(mode, Snapshot(), f)
      modifies this, ram, v, stack, display
      ensures Valid()
      ensures Reported(o, Snapshot()) == Semantics.Execute(mode, old(Snapshot()), f, rnd)
      ensures o != Ran ==> Snapshot() == old(Snapshot())
    {
      o := Ran;
      match f.family
      case 0x0 =>
        if f.kk == 0xE0 {
          ClearDisplay();
          pc := Advance(pc, 2);
        } else if f.kk == 0xEE {
          pc := stack[sp];
          sp := Wrap8(sp - 1);
        }
      case 0x1 =>
        pc := f.nnn;
      case 0x2 =>
        sp := Wrap8(sp + 1);
        stack[sp] := Advance(pc, 2);
        pc := f.nnn;
      case 0x3 =>
        pc := Skip(pc, v[f.x] == f.kk);
      case 0x4 =>
        pc := Skip(pc, v[f.x] != f.kk);
      case 0x5 =>
        pc := Skip(pc, v[f.x] == v[f.y]);
      case 0x6 =>
        v[f.x] := f.kk;
        pc := Advance(pc, 2);
      case 0x7 =>
        v[f.x] := Wrap8(v[f.x] + f.kk);
        pc := Advance(pc, 2);
      case 0x8 =>
        Arithmetic(f.x, f.y, f.n);
        pc := Advance(pc, 2);
      case 0x9 =>
        if f.n == 0 {
          pc := Skip(pc, v[f.x] != v[f.y]);
        }
      case 0xA =>
        i := f.nnn;
        pc := Advance(pc, 2);
      case 0xB =>
        pc := f.nnn + v[0];
      case 0xC =>
        v[f.x] := And8(rnd, f.kk);
        pc := Advance(pc, 2);
      case 0xD =>
        DrawSprite(f);
      case 0xE =>
        if f.kk == 0x9E {
          pc := Skip(pc, keys[v[f.x]] > 0);
        } else if f.kk == 0xA1 {
          pc := Skip(pc, keys[v[f.x]] == 0);
        }
      case 0xF =>
        o := Miscellaneous(f);
    }

    /**
      EmulateCycle: fetch the opcode at pc, run it, then tick the timers.
      The random byte Cxkk draws is the parameter rnd.
     */
    method EmulateCycle(rnd: Random) returns (o: Cycle)
      requires Valid() && CanStep(mode, Snapshot())
      modifies this, ram, v, stack, display
      ensures Valid()
      ensures Reported(o, Snapshot()) == Step(mode, old(Snapshot()), rnd)
      ensures o != Ran ==> Snapshot() == old(Snapshot())
    {
      var opcode := ram[pc] as int * 256 + ram[pc + 1] as int;
      var f := Decode(opcode);
      o := Dispatch(f, rnd);
      if o == Ran {
        UpdateTimers();
      }
    }
  }
}
