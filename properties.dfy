/**
 * What `fetchNextOpcode` (vm.go) guarantees, stated over Semantics.Step and
 * Semantics.Execute: program-counter discipline, the call stack, ALU results and
 * flags, sprite drawing, BCD, register dump and load, the font, key waits and faults.
 */
module Properties {
  import opened Wrappers
  import opened Chip8
  import opened Opcodes
  import opened Semantics

  /** The instruction at m's program counter. */
  function CurrentInstr(m: State): Instr
    requires WellFormed(m) && 0 <= m.pc && m.pc + 1 < MemorySize
  {
    Decode(Fetch(m.memory, m.pc))
  }

  /** Instructions that leave pc anywhere but just after themselves. */
  predicate RedirectsPc(ins: Instr)
  {
    || ins.Return? || ins.Jump? || ins.Call? || ins.JumpOffset?
    || ins.SkipEqImm? || ins.SkipNeImm? || ins.SkipEqReg? || ins.SkipNeReg?
    || ins.SkipKey? || ins.SkipNoKey? || ins.WaitKey?
  }

  predicate IsSkip(ins: Instr)
  {
    ins.SkipEqImm? || ins.SkipNeImm? || ins.SkipEqReg? || ins.SkipNeReg? || ins.SkipKey? || ins.SkipNoKey?
  }

  /** When a skip instruction skips, read off the CHIP-8 instruction table. */
  predicate SkipTaken(ins: Instr, m: State, io: Inputs)
    requires WellFormed(m) && ValidInputs(io) && IsSkip(ins)
  {
    match ins
    case SkipEqImm(x, nn) => m.v[x] == nn
    case SkipNeImm(x, nn) => m.v[x] != nn
    case SkipEqReg(x, y) => m.v[x] == m.v[y]
    case SkipNeReg(x, y) => m.v[x] != m.v[y]
    case SkipKey(x) => m.v[x] <= 0xF && io.keys[m.v[x]]
    case SkipNoKey(x) => m.v[x] <= 0xF && !io.keys[m.v[x]]
  }

  // ---------------------------------------------------------------- faults

  /** A step faults exactly when pc is out of range, 00EE meets an empty stack, or a memory operand runs past the end. */
  lemma StepFaults(m: State, io: Inputs)
    requires WellFormed(m) && ValidInputs(io)
    ensures Step(m, io).Err? <==>
      || m.pc < 0 || m.pc + 1 >= MemorySize
      || (match CurrentInstr(m)
          case Return => m.stack == []
          case Draw(_, _, n) => n > 0 && m.i + n > MemorySize
          case StoreBcd(_) => m.i + 2 >= MemorySize
          case StoreRegs(x) => m.i + x >= MemorySize
          case LoadRegs(x) => m.i + x >= MemorySize
          case _ => false)
  {
  }

  // ------------------------------------------------------- program counter

  /** Every instruction that does not redirect pc, unknown ones included, ends with pc advanced by 2. */
  lemma StepAdvancesPc(m: State, io: Inputs)
    requires WellFormed(m) && ValidInputs(io) && Step(m, io).Ok?
    requires !RedirectsPc(CurrentInstr(m))
    ensures Step(m, io).value.pc == m.pc + 2
  {
  }

  /** An opcode the dispatch does not act on changes nothing but pc. */
  lemma UnknownOnlyAdvancesPc(m: State, io: Inputs)
    requires WellFormed(m) && ValidInputs(io) && 0 <= m.pc && m.pc + 1 < MemorySize
    requires CurrentInstr(m).Unknown?
    ensures Step(m, io) == Ok(m.(pc := m.pc + 2))
  {
  }

  /** A skip moves pc by 4 when its condition holds and by 2 otherwise, and changes nothing else. */
  lemma SkipStep(m: State, io: Inputs)
    requires WellFormed(m) && ValidInputs(io) && 0 <= m.pc && m.pc + 1 < MemorySize
    requires IsSkip(CurrentInstr(m))
    ensures Step(m, io) == Ok(m.(pc := m.pc + if SkipTaken(CurrentInstr(m), m, io) then 4 else 2))
  {
  }

  /** 5xyN and 9xyN with N != 0 never skip. */
  lemma RegisterSkipNeedsZeroNibble(m: State, io: Inputs)
    requires WellFormed(m) && ValidInputs(io) && 0 <= m.pc && m.pc + 1 < MemorySize
    requires Fetch(m.memory, m.pc) / 0x1000 in {0x5, 0x9} && Fetch(m.memory, m.pc) % 0x10 != 0
    ensures Step(m, io) == Ok(m.(pc := m.pc + 2))
  {
  }

  /** 2nnn pushes the address after it and jumps; a 00EE at nnn comes back to that address with the stack as before. */
  lemma CallThenReturn(m: State, io: Inputs, nnn: Addr)
    requires WellFormed(m) && ValidInputs(io) && 0 <= m.pc && m.pc + 1 < MemorySize
    requires CurrentInstr(m) == Call(nnn)
    requires nnn + 1 < MemorySize && m.memory[nnn] == 0x00 && m.memory[nnn + 1] == 0xEE
    ensures Step(m, io) == Ok(m.(pc := nnn, stack := m.stack + [m.pc + 2]))
    ensures Step(Step(m, io).value, io) == Ok(m.(pc := m.pc + 2))
  {
    var m1 := m.(pc := nnn, stack := m.stack + [m.pc + 2]);
    assert Step(m, io) == Ok(m1);
    assert Fetch(m1.memory, m1.pc) == 0x00EE;
    assert m1.stack[..|m1.stack| - 1] == m.stack;
  }

  // ------------------------------------------------------------------- ALU

  /** 8xy4 with x, y != F: Vx is the wrapped sum and VF the carry; no other register changes, whether or not x == y. */
  lemma AddCarry(v: seq<Byte>, x: Reg, y: Reg)
    requires |v| == RegisterCount && x != Flag && y != Flag
    ensures var r := ApplyAlu(v, Add, x, y);
      && r[x] == (v[x] as int + v[y] as int) % 256
      && r[Flag] <= 1 && (r[Flag] == 1 <==> v[x] as int + v[y] as int > 255)
      && forall j :: 0 <= j < RegisterCount && j != x && j != Flag ==> r[j] == v[j]
  {
  }

  /** 8xy5 with x, y != F: Vx = Vx - Vy wrapped and VF = 1 exactly when there is no borrow. */
  lemma SubBorrow(v: seq<Byte>, x: Reg, y: Reg)
    requires |v| == RegisterCount && x != Flag && y != Flag
    ensures var r := ApplyAlu(v, Sub, x, y);
      && r[x] == (v[x] as int - v[y] as int) % 256
      && r[Flag] <= 1 && (r[Flag] == 1 <==> v[x] >= v[y])
      && forall j :: 0 <= j < RegisterCount && j != x && j != Flag ==> r[j] == v[j]
  {
  }

  /** 8xy7 with x, y != F: Vx = Vy - Vx wrapped and VF = 1 exactly when there is no borrow. */
  lemma SubReverseBorrow(v: seq<Byte>, x: Reg, y: Reg)
    requires |v| == RegisterCount && x != Flag && y != Flag
    ensures var r := ApplyAlu(v, SubReverse, x, y);
      && r[x] == (v[y] as int - v[x] as int) % 256
      && r[Flag] <= 1 && (r[Flag] == 1 <==> v[y] >= v[x])
      && forall j :: 0 <= j < RegisterCount && j != x && j != Flag ==> r[j] == v[j]
  {
  }

  /** 8xy6 and 8xyE with x, y != F: VF gets the bit shifted out of Vy and Vx the shifted Vy. */
  lemma Shifts(v: seq<Byte>, x: Reg, y: Reg)
    requires |v| == RegisterCount && x != Flag && y != Flag
    ensures var r := ApplyAlu(v, ShiftRight, x, y);
      && r[Flag] == v[y] % 2 && r[x] == v[y] / 2
      && forall j :: 0 <= j < RegisterCount && j != x && j != Flag ==> r[j] == v[j]
    ensures var r := ApplyAlu(v, ShiftLeft, x, y);
      && r[Flag] == v[y] / 128 && r[x] == (2 * v[y] as int) % 256
      && forall j :: 0 <= j < RegisterCount && j != x && j != Flag ==> r[j] == v[j]
  {
  }

  /** 8xy0 .. 8xy3 change Vx alone and leave VF alone. */
  lemma LogicOpsChangeOnlyVx(v: seq<Byte>, f: AluOp, x: Reg, y: Reg)
    requires |v| == RegisterCount && (f.Move? || f.Or? || f.And? || f.Xor?)
    ensures ApplyAlu(v, f, x, y) == v[x := ApplyAlu(v, f, x, y)[x]]
    ensures f.Move? ==> ApplyAlu(v, f, x, y)[x] == v[y]
  {
  }

  /**
   * In 8xy4, 8xy5, 8xy6, 8xy7 and 8xyE the flag is written before the result. With
   * y = F the operand is the fresh flag, not the old VF; with x = F the flag is then
   * overwritten by the result.
   */
  lemma FlagWrittenFirst(v: seq<Byte>, x: Reg, y: Reg)
    requires |v| == RegisterCount && x != Flag && y != Flag
    ensures ApplyAlu(v, Add, x, Flag)[x] == (v[x] as int + (if v[x] as int + v[Flag] as int > 255 then 1 else 0)) % 256
    ensures ApplyAlu(v, Add, Flag, y)[Flag] == ((if v[Flag] as int + v[y] as int > 255 then 1 else 0) + v[y] as int) % 256
    ensures ApplyAlu(v, Sub, x, Flag)[x] == (v[x] as int - (if v[x] >= v[Flag] then 1 else 0)) % 256
    ensures ApplyAlu(v, Sub, Flag, y)[Flag] == ((if v[Flag] >= v[y] then 1 else 0) - v[y] as int) % 256
    ensures ApplyAlu(v, SubReverse, x, Flag)[x] == ((if v[Flag] >= v[x] then 1 else 0) - v[x] as int) % 256
    ensures ApplyAlu(v, SubReverse, Flag, y)[Flag] == (v[y] as int - (if v[y] >= v[Flag] then 1 else 0)) % 256
    ensures ApplyAlu(v, ShiftRight, x, Flag)[x] == 0
    ensures ApplyAlu(v, ShiftRight, Flag, y)[Flag] == v[y] / 2
    ensures ApplyAlu(v, ShiftLeft, x, Flag)[x] == 2 * (v[Flag] / 128)
    ensures ApplyAlu(v, ShiftLeft, Flag, y)[Flag] == (v[y] as int * 2) % 256
  {
  }

  /** 7xnn adds with wrap-around and never touches VF (for x != F). */
  lemma AddImmediateWraps(m: State, io: Inputs, x: Reg, nn: Byte)
    requires WellFormed(m) && ValidInputs(io)
    ensures Execute(m, AddImm(x, nn), io).Ok?
    ensures var r := Execute(m, AddImm(x, nn), io).value;
      && r.v[x] == (m.v[x] as int + nn as int) % 256
      && forall j :: 0 <= j < RegisterCount && j != x ==> r.v[j] == m.v[j]
  {
  }

  // --------------------------------------------------------------- drawing

  /** Drawing the same sprite at the same place twice restores the display exactly. */
  lemma BlitInvolution(d: seq<seq<bool>>, s: seq<Byte>, vx: int, vy: int)
    requires ValidDisplay(d)
    ensures Blit(Blit(d, s, vx, vy), s, vx, vy) == d
  {
    var e := Blit(Blit(d, s, vx, vy), s, vx, vy);
    forall r | 0 <= r < Rows ensures e[r] == d[r] {
      assert forall c :: 0 <= c < Cols ==> e[r][c] == d[r][c];
    }
  }

  /**
   * Only pixels inside the sprite's box at (vy, vx) can change: sprite rows past row 31
   * and columns past 63 are dropped, not wrapped to the other edge.
   */
  lemma BlitClips(d: seq<seq<bool>>, s: seq<Byte>, vx: int, vy: int, r: int, c: int)
    requires ValidDisplay(d) && 0 <= r < Rows && 0 <= c < Cols
    requires Blit(d, s, vx, vy)[r][c] != d[r][c]
    ensures vy <= r < vy + |s| && vx <= c < vx + 8
  {
  }

  /** The intended collision flag is set exactly when drawing turns some lit pixel off. */
  lemma CollidesIffErases(d: seq<seq<bool>>, s: seq<Byte>, vx: Byte, vy: Byte)
    requires ValidDisplay(d)
    ensures Collides(d, s, vx, vy) <==>
      exists r, c :: 0 <= r < Rows && 0 <= c < Cols && d[r][c] && !Blit(d, s, vx, vy)[r][c]
  {
    var e := Blit(d, s, vx, vy);
    if Collides(d, s, vx, vy) {
      var yy, xx :| 0 <= yy < |s| && 0 <= xx < 8 && Hit(d, s, vx, vy, yy, xx);
      assert d[vy + yy][vx + xx] && !e[vy + yy][vx + xx];
    }
    if exists r, c :: 0 <= r < Rows && 0 <= c < Cols && d[r][c] && !e[r][c] {
      var r, c :| 0 <= r < Rows && 0 <= c < Cols && d[r][c] && !e[r][c];
      assert Hit(d, s, vx, vy, r - vy, c - vx);
    }
  }

  /** Under the intended flag, drawing a sprite again right after it lit some pixel reports a collision. */
  lemma RedrawCollides(d: seq<seq<bool>>, s: seq<Byte>, vx: Byte, vy: Byte)
    requires ValidDisplay(d)
    requires exists r, c :: 0 <= r < Rows && 0 <= c < Cols && !d[r][c] && Blit(d, s, vx, vy)[r][c]
    ensures Collides(Blit(d, s, vx, vy), s, vx, vy)
  {
    var e := Blit(d, s, vx, vy);
    var r, c :| 0 <= r < Rows && 0 <= c < Cols && !d[r][c] && e[r][c];
    BlitInvolution(d, s, vx, vy);
    assert !Blit(e, s, vx, vy)[r][c];
    CollidesIffErases(e, s, vx, vy);
  }

  /**
   * What each instruction may touch: only 00EE, Dxyn, Fx33, Fx55 and Fx65 can fault,
   * only Fx33 and Fx55 write memory, only 00E0 and Dxyn change the display, and only
   * 2nnn and 00EE change the stack.
   */
  lemma ExecuteFrame(m: State, ins: Instr, io: Inputs)
    requires WellFormed(m) && ValidInputs(io)
    ensures var r := Execute(m, ins, io);
      && (r.Err? ==> ins.Return? || ins.Draw? || ins.StoreBcd? || ins.StoreRegs? || ins.LoadRegs?)
      && (r.Ok? && !(ins.StoreBcd? || ins.StoreRegs?) ==> r.value.memory == m.memory)
      && (r.Ok? && !(ins.ClearScreen? || ins.Draw?) ==> r.value.display == m.display)
      && (r.Ok? && !(ins.Return? || ins.Call?) ==> r.value.stack == m.stack)
  {
  }

  /**
   * Dxyn twice with x, y != F: I and memory are untouched, the display is restored, and
   * the second VF is the flag as vm.go:236 computes it: 1 exactly when some pixel of the
   * sprite's visible box is lit both after the first draw and before it.
   */
  lemma DrawTwice(m: State, io: Inputs, x: Reg, y: Reg, n: Nibble)
    requires WellFormed(m) && ValidInputs(io) && x != Flag && y != Flag
    requires n == 0 || m.i + n <= MemorySize
    ensures Execute(m, Draw(x, y, n), io).Ok?
    ensures var m1 := Execute(m, Draw(x, y, n), io).value;
      && m1.i == m.i && m1.memory == m.memory
      && Execute(m1, Draw(x, y, n), io).Ok?
      && Execute(m1, Draw(x, y, n), io).value.display == m.display
      && (Execute(m1, Draw(x, y, n), io).value.v[Flag] == 1 <==>
          exists r, c :: m.v[y] <= r < Rows && m.v[x] <= c < Cols && r < m.v[y] + n && c < m.v[x] + 8
            && m1.display[r][c] && m.display[r][c])
  {
    var s := Sprite(m.memory, m.i, n);
    BlitInvolution(m.display, s, m.v[x], m.v[y]);
    var m1 := Execute(m, Draw(x, y, n), io).value;
    AsWrittenFlagsKeptPixels(m1.display, s, m.v[x], m.v[y]);
  }

  /**
   * The intended Dxyn leaves the same state as the machine step but for VF, and sets VF
   * exactly when it turns some lit pixel off.
   */
  lemma DrawIntendedFlagsErasure(m: State, io: Inputs, x: Reg, y: Reg, n: Nibble)
    requires WellFormed(m) && ValidInputs(io)
    ensures DrawIntended(m, x, y, n).Ok? == Execute(m, Draw(x, y, n), io).Ok?
    ensures DrawIntended(m, x, y, n).Err? ==>
      DrawIntended(m, x, y, n).error == Execute(m, Draw(x, y, n), io).error == MemoryOutOfRange
    ensures DrawIntended(m, x, y, n).Ok? ==>
      var e, r := DrawIntended(m, x, y, n).value, Execute(m, Draw(x, y, n), io).value;
      && e == r.(v := r.v[Flag := e.v[Flag]])
      && (e.v[Flag] == 1 <==>
          exists r, c :: 0 <= r < Rows && 0 <= c < Cols && m.display[r][c] && !e.display[r][c])
  {
    if DrawIntended(m, x, y, n).Ok? {
      CollidesIffErases(m.display, Sprite(m.memory, m.i, n), m.v[x], m.v[y]);
    }
  }

  /**
   * The intended Dxyn twice with x, y != F restores the display, and its second VF is 1
   * whenever the first draw lit a pixel.
   */
  lemma DrawIntendedTwice(m: State, x: Reg, y: Reg, n: Nibble)
    requires WellFormed(m) && x != Flag && y != Flag
    requires n == 0 || m.i + n <= MemorySize
    ensures DrawIntended(m, x, y, n).Ok?
    ensures var m1 := DrawIntended(m, x, y, n).value;
      && DrawIntended(m1, x, y, n).Ok?
      && DrawIntended(m1, x, y, n).value.display == m.display
      && ((exists r, c :: 0 <= r < Rows && 0 <= c < Cols && !m.display[r][c] && m1.display[r][c])
          ==> DrawIntended(m1, x, y, n).value.v[Flag] == 1)
  {
    var s := Sprite(m.memory, m.i, n);
    BlitInvolution(m.display, s, m.v[x], m.v[y]);
    var m1 := DrawIntended(m, x, y, n).value;
    if exists r, c :: 0 <= r < Rows && 0 <= c < Cols && !m.display[r][c] && m1.display[r][c] {
      RedrawCollides(m.display, s, m.v[x], m.v[y]);
    }
  }

  /**
   * The flag as vm.go:236 computes it is set exactly when some pixel inside the sprite's
   * visible box is lit and stays lit, the opposite of a collision.
   */
  lemma AsWrittenFlagsKeptPixels(d: seq<seq<bool>>, s: seq<Byte>, vx: Byte, vy: Byte)
    requires ValidDisplay(d)
    ensures CollidesAsWritten(d, s, vx, vy) <==>
      exists r, c :: vy <= r < Rows && vx <= c < Cols && r < vy + |s| && c < vx + 8
        && d[r][c] && Blit(d, s, vx, vy)[r][c]
  {
    var e := Blit(d, s, vx, vy);
    if CollidesAsWritten(d, s, vx, vy) {
      var yy, xx :| 0 <= yy < |s| && 0 <= xx < 8 && HitAsWritten(d, s, vx, vy, yy, xx);
      assert d[vy + yy][vx + xx] && e[vy + yy][vx + xx];
    }
    if exists r, c :: vy <= r < Rows && vx <= c < Cols && r < vy + |s| && c < vx + 8 && d[r][c] && e[r][c] {
      var r, c :| vy <= r < Rows && vx <= c < Cols && r < vy + |s| && c < vx + 8 && d[r][c] && e[r][c];
      assert HitAsWritten(d, s, vx, vy, r - vy, c - vx);
    }
  }

  /**
   * Counterexamples to the flag as written: drawing 0xFF twice at (0, 0) on a clear
   * screen erases eight pixels but leaves the as-written flag clear; drawing 0x00 over a
   * lit pixel changes nothing but sets it.
   */
  lemma AsWrittenCollisionIsInverted()
    ensures var d := Blit(Blank(), [0xFF], 0, 0);
      && Collides(d, [0xFF], 0, 0) && !CollidesAsWritten(d, [0xFF], 0, 0)
    ensures var d := Blit(Blank(), [0x80], 0, 0);
      && Blit(d, [0x00], 0, 0) == d
      && CollidesAsWritten(d, [0x00], 0, 0) && !Collides(d, [0x00], 0, 0)
  {
    var d := Blit(Blank(), [0xFF], 0, 0);
    assert SpriteBit(0xFF, 0);
    assert Hit(d, [0xFF], 0, 0, 0, 0);
    forall yy, xx | 0 <= yy < 1 && 0 <= xx < 8 ensures !HitAsWritten(d, [0xFF], 0, 0, yy, xx) {
      assert SpriteBit(0xFF, xx);
    }
    var d2 := Blit(Blank(), [0x80], 0, 0);
    assert SpriteBit(0x80, 0);
    assert !SpriteBit(0x00, 0);
    assert d2[0][0];
    assert HitAsWritten(d2, [0x00], 0, 0, 0, 0);
    forall xx | 0 <= xx < 8 ensures !SpriteBit(0x00, xx) {
    }
    BlitInvolution(d2, [0x00], 0, 0);
    var d3 := Blit(d2, [0x00], 0, 0);
    forall r | 0 <= r < Rows ensures d3[r] == d2[r] {
      assert forall c :: 0 <= c < Cols ==> d3[r][c] == d2[r][c];
    }
  }

  // --------------------------------------------------------- BCD, dump, load

  /** Fx33 writes the three decimal digits of Vx at I, I+1, I+2 and changes nothing else. */
  lemma StoreBcdDigits(m: State, io: Inputs, x: Reg)
    requires WellFormed(m) && ValidInputs(io) && m.i + 2 < MemorySize
    ensures Execute(m, StoreBcd(x), io).Ok?
    ensures var r := Execute(m, StoreBcd(x), io).value;
      && r == m.(memory := r.memory)
      && 100 * r.memory[m.i] + 10 * r.memory[m.i + 1] + r.memory[m.i + 2] == m.v[x]
      && r.memory[m.i] <= 9 && r.memory[m.i + 1] <= 9 && r.memory[m.i + 2] <= 9
      && (forall a :: 0 <= a < MemorySize && (a < m.i || a > m.i + 2) ==> r.memory[a] == m.memory[a])
      && (m.v[x] == 156 ==> r.memory[m.i .. m.i + 3] == [1, 5, 6])
  {
  }

  /** Fx55 writes V0..Vx to I..I+x and nothing else, and leaves I at I + x + 1. */
  lemma StoreRegsWrites(m: State, io: Inputs, x: Reg)
    requires WellFormed(m) && ValidInputs(io) && m.i + x < MemorySize
    ensures Execute(m, StoreRegs(x), io).Ok?
    ensures var m1 := Execute(m, StoreRegs(x), io).value;
      && m1 == m.(memory := m1.memory, i := m.i + x + 1)
      && (forall j :: 0 <= j <= x ==> m1.memory[m.i + j] == m.v[j])
      && (forall a :: 0 <= a < MemorySize && (a < m.i || a > m.i + x) ==> m1.memory[a] == m.memory[a])
  {
  }

  /** Fx65 from the I that Fx55 started at reads back exactly the registers it stored. */
  lemma StoreThenLoad(m: State, io: Inputs, x: Reg)
    requires WellFormed(m) && ValidInputs(io) && m.i + x < MemorySize
    ensures Execute(m, StoreRegs(x), io).Ok?
    ensures var m1 := Execute(m, StoreRegs(x), io).value;
      && Execute(m1.(i := m.i), LoadRegs(x), io).Ok?
      && Execute(m1.(i := m.i), LoadRegs(x), io).value == m1
  {
    StoreRegsWrites(m, io, x);
    var m1 := Execute(m, StoreRegs(x), io).value;
    var lo := m.i;
    assert m1.memory[lo .. lo + x + 1] == m.v[..x + 1];
    assert m.v[..x + 1] + m.v[x + 1..] == m.v;
  }

  // ------------------------------------------------------------------ font

  /** Fx29 sets I to 5 * Vx in 8-bit arithmetic; for a digit Vx <= F that is the address of its glyph. */
  lemma LoadGlyphAddressesGlyph(m: State, io: Inputs, x: Reg)
    requires WellFormed(m) && ValidInputs(io)
    ensures Execute(m, LoadGlyph(x), io).Ok?
    ensures var r := Execute(m, LoadGlyph(x), io).value;
      && r == m.(i := r.i)
      && r.i == (5 * m.v[x] as int) % 256
      && (m.v[x] <= 0xF && FontIntact(m.memory) ==>
            r.i == GlyphSize * m.v[x] && r.memory[r.i .. r.i + GlyphSize] == FontList[m.v[x]])
  {
    var r := Execute(m, LoadGlyph(x), io).value;
    if m.v[x] <= 0xF && FontIntact(m.memory) {
      FontShape();
      var d := m.v[x];
      forall k | 0 <= k < GlyphSize ensures r.memory[r.i .. r.i + GlyphSize][k] == FontList[d][k] {
        assert r.memory[GlyphSize * d + k] == FontList[d][k];
      }
    }
  }

  // ------------------------------------------------------------------ keys

  /**
   * Fx0A with no key held rewinds pc, so the next step runs it again and nothing else
   * changes; otherwise it stores the first held key in map order and moves on.
   */
  lemma WaitKeyStep(m: State, io: Inputs, x: Reg)
    requires WellFormed(m) && ValidInputs(io) && 0 <= m.pc && m.pc + 1 < MemorySize
    requires CurrentInstr(m) == WaitKey(x)
    ensures (forall k :: 0 <= k < 16 ==> !io.keys[k]) ==> Step(m, io) == Ok(m)
    ensures (exists k :: 0 <= k < 16 && io.keys[k]) ==>
      exists k :: 0 <= k < 16 && io.keys[k] && Step(m, io) == Ok(m.(pc := m.pc + 2, v := m.v[x := k]))
  {
    var r := FirstPressed(io.keys, io.order);
    if forall k :: 0 <= k < 16 ==> !io.keys[k] {
      assert r.None?;
    } else {
      var k :| 0 <= k < 16 && io.keys[k];
      assert k in io.order;
      var j :| 0 <= j < 16 && io.order[j] == k;
      assert r.Some?;
    }
  }

  /** Whichever key is held, some iteration order of the key map makes Fx0A store it. */
  lemma AnyHeldKeyCanBeStored(keys: seq<bool>, k: int)
    requires |keys| == 16 && 0 <= k < 16 && keys[k]
    ensures exists order :: IsKeyOrder(order) && FirstPressed(keys, order) == Some(k)
  {
    var order := seq(16, j requires 0 <= j < 16 => if j == 0 then k else if j <= k then j - 1 else j);
    forall kk | 0 <= kk < 16 ensures kk in order {
      var j := if kk == k then 0 else if kk < k then kk + 1 else kk;
      assert order[j] == kk;
    }
    forall j, l | 0 <= j < l < 16 ensures order[j] != order[l] {
    }
    assert IsKeyOrder(order);
    FirstPressedAt(keys, order, 0);
  }

  // ------------------------------------------------------------- scenarios

  /** The program 6005 7005 leaves V0 = 10 after two steps, pc advanced by 4. */
  lemma AddProgram(m: State, io: Inputs)
    requires WellFormed(m) && ValidInputs(io) && 0 <= m.pc && m.pc + 3 < MemorySize
    requires m.memory[m.pc .. m.pc + 4] == [0x60, 0x05, 0x70, 0x05]
    ensures Step(m, io).Ok? && Step(Step(m, io).value, io).Ok?
    ensures var r := Step(Step(m, io).value, io).value;
      r.v[0] == 10 && r.pc == m.pc + 4 && r == m.(v := m.v[0 := 10], pc := m.pc + 4)
  {
    var code := m.memory[m.pc .. m.pc + 4];
    assert m.memory[m.pc] == code[0] && m.memory[m.pc + 1] == code[1];
    assert m.memory[m.pc + 2] == code[2] && m.memory[m.pc + 3] == code[3];
    assert Fetch(m.memory, m.pc) == 0x6005;
    var m1 := m.(v := m.v[0 := 5], pc := m.pc + 2);
    assert Step(m, io) == Ok(m1);
    assert Fetch(m1.memory, m1.pc) == 0x7005;
    assert m1.v[0 := 10] == m.v[0 := 10];
  }

  /** 00E0 turns every one of the 2048 pixels off and changes nothing else but pc. */
  lemma ClearScreenStep(m: State, io: Inputs)
    requires WellFormed(m) && ValidInputs(io) && 0 <= m.pc && m.pc + 1 < MemorySize
    requires CurrentInstr(m) == ClearScreen
    ensures Step(m, io) == Ok(m.(display := Step(m, io).value.display, pc := m.pc + 2))
    ensures forall r, c :: 0 <= r < Rows && 0 <= c < Cols ==> !Step(m, io).value.display[r][c]
  {
  }
}
