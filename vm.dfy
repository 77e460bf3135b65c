/**
 * The `chipVM` record of vm.go as an object updated in place: `newChipVM` is the
 * constructor, `setFont` and `fetchNextOpcode` are methods, and every method is proved
 * to move View() exactly as the functions of Chip8 and Semantics say.
 */
module Vm {
  import opened Wrappers
  import opened Chip8
  import opened Opcodes
  import opened Semantics

  class ChipVM {
    const v: array<Byte>
    var i: Word
    var sound: Byte
    var delay: Byte
    /** The call stack, bottom first (the Go code keeps it in a deque). */
    var stack: seq<int>
    const memory: array<Byte>
    /** display[row, col], true for a lit pixel (1 in the Go code). */
    const display: array2<bool>
    var pc: int

    ghost predicate Valid()
    {
      && v.Length == RegisterCount
      && memory.Length == MemorySize
      && display.Length0 == Rows && display.Length1 == Cols
      && v != memory
    }

    ghost function DisplayView(): (d: seq<seq<bool>>)
      requires Valid()
      reads display
      ensures ValidDisplay(d)
      ensures forall r, c :: 0 <= r < Rows && 0 <= c < Cols ==> d[r][c] == display[r, c]
    {
      seq(Rows, r requires 0 <= r < Rows reads display =>
        seq(Cols, c requires 0 <= c < Cols reads display => display[r, c]))
    }

    /** The machine state this object holds. */
    ghost function View(): (m: State)
      requires Valid()
      reads this, v, memory, display
      ensures WellFormed(m)
    {
      State(v[..], i, sound, delay, stack, memory[..], DisplayView(), pc)
    }

    /** Two displays that agree on every pixel are equal. */
    lemma DisplayViewIs(d: seq<seq<bool>>)
      requires Valid() && ValidDisplay(d)
      requires forall r, c :: 0 <= r < Rows && 0 <= c < Cols ==> display[r, c] == d[r][c]
      ensures DisplayView() == d
    {
      var e := DisplayView();
      forall r | 0 <= r < Rows ensures e[r] == d[r] {
        assert forall c :: 0 <= c < Cols ==> e[r][c] == d[r][c];
      }
    }

    /** `newChipVM` on the bytes of an image file that fits in memory. */
    constructor (rom: seq<Byte>)
      requires |rom| <= MaxImageSize
      ensures Valid() && fresh(v) && fresh(memory) && fresh(display)
      ensures Boot(rom) == Ok(View())
    {
      v := new Byte[RegisterCount](_ => 0);
      memory := new Byte[MemorySize](_ => 0);
      display := new bool[Rows, Cols]((_, _) => false);
      i, stack := 0, [];
      sound := 0;
      delay := 0;
      pc := ProgramStart;
      new;
      assert forall r :: 0 <= r < RegisterCount ==> v[r] == 0;
      assert forall r, c :: 0 <= r < Rows && 0 <= c < Cols ==> !display[r, c];
      assert memory[..] == seq(MemorySize, _ => 0);
      SetFont();
      LoadProgram(rom);
      assert v[..] == seq(RegisterCount, _ => 0);
      DisplayViewIs(Blank());
    }

    /** The image copy loop of `newChipVM`: `rom` byte by byte from ProgramStart. */
    method LoadProgram(rom: seq<Byte>)
      requires Valid() && |rom| <= MaxImageSize
      modifies memory
      ensures memory[..] == LoadImage(old(memory[..]), rom)
    {
      var addr := ProgramStart;
      while addr < |rom| + ProgramStart
        invariant ProgramStart <= addr <= |rom| + ProgramStart
        invariant forall a :: 0 <= a < MemorySize ==>
          memory[a] == if ProgramStart <= a < addr then rom[a - ProgramStart] else old(memory[a])
      {
        memory[addr] := rom[addr - ProgramStart];
        addr := addr + 1;
      }
      assert memory[..] == LoadImage(old(memory[..]), rom);
    }

    /** `setFont`: the sixteen glyphs, in order, at addresses 0..79. */
    method SetFont()
      requires Valid()
      modifies memory
      ensures memory[..] == InstallFont(old(memory[..]))
    {
      FontShape();
      var addr := 0;
      for d := 0 to |FontList|
        invariant addr == GlyphSize * d
        invariant forall dd, k :: 0 <= dd < d && 0 <= k < GlyphSize ==> memory[GlyphSize * dd + k] == FontList[dd][k]
        invariant forall j :: addr <= j < MemorySize ==> memory[j] == old(memory[j])
      {
        var sprite := FontList[d];
        for k := 0 to |sprite|
          invariant addr == GlyphSize * d + k
          invariant forall dd, kk :: 0 <= dd < 16 && 0 <= kk < GlyphSize && (dd < d || (dd == d && kk < k)) ==>
            memory[GlyphSize * dd + kk] == FontList[dd][kk]
          invariant forall j :: addr <= j < MemorySize ==> memory[j] == old(memory[j])
        {
          memory[addr] := sprite[k];
          addr := addr + 1;
        }
      }
      InstallFontIsIntact(memory[..], old(memory[..]));
    }

    /** The host's 60 Hz timer tick. */
    method TickTimers()
      requires Valid()
      modifies this`delay, this`sound
      ensures View() == Tick(old(View()))
    {
      if delay > 0 {
        delay := delay - 1;
      }
      if sound > 2 {
        sound := sound - 1;
      }
    }

    /** `fetchNextOpcode`: one fetch-decode-execute step; a fault halts the machine. */
    method Step(io: Inputs) returns (fault: Option<Fault>)
      requires Valid() && ValidInputs(io)
      modifies this, v, memory, display
      ensures Semantics.Step(old(View()), io) == if fault.None? then Ok(View()) else Err(fault.value)
      // a fault changes nothing but, possibly, the pc
      ensures fault.Some? ==> View() == old(View()).(pc := pc)
    {
      if pc < 0 || pc + 1 >= MemorySize {
        return Some(PcOutOfRange);
      }
      var opcode := memory[pc] as int * 0x100 + memory[pc + 1] as int;
      var ins := Decode(opcode);
      pc := pc + 2;
      fault := Execute(ins, io);
    }

    method Execute(ins: Instr, io: Inputs) returns (fault: Option<Fault>)
      requires Valid() && ValidInputs(io)
      modifies this, v, memory, display
      ensures Semantics.Execute(old(View()), ins, io) == if fault.None? then Ok(View()) else Err(fault.value)
      ensures fault.Some? ==> View() == old(View())
    {
      if ins.ClearScreen? || ins.Return? || ins.Jump? || ins.Call? || ins.JumpOffset? || ins.Unknown? {
        fault := ExecuteFlow(ins);
      } else if ins.SkipEqImm? || ins.SkipNeImm? || ins.SkipEqReg? || ins.SkipNeReg? || ins.SkipKey? || ins.SkipNoKey? {
        ExecuteSkip(ins, io);
        fault := None;
      } else if ins.LoadImm? || ins.AddImm? || ins.Alu? || ins.LoadIndex? || ins.Random? {
        ExecuteRegister(ins, io);
        fault := None;
      } else if ins.Draw? {
        fault := ExecuteDraw(ins.x, ins.y, ins.n);
      } else if ins.StoreBcd? {
        fault := StoreDigits(ins.x);
      } else if ins.StoreRegs? {
        fault := ExecuteStore(ins.x);
      } else if ins.LoadRegs? {
        fault := ExecuteLoad(ins.x);
      } else if ins.WaitKey? {
        WaitForKey(ins.x, io);
        fault := None;
      } else if ins.AddIndex? || ins.LoadGlyph? {
        ExecuteIndex(ins);
        fault := None;
      } else {
        ExecuteTimers(ins);
        fault := None;
      }
    }

    method ExecuteFlow(ins: Instr) returns (fault: Option<Fault>)
      requires Valid()
      requires ins.ClearScreen? || ins.Return? || ins.Jump? || ins.Call? || ins.JumpOffset? || ins.Unknown?
      modifies this, display
      ensures forall io: Inputs | ValidInputs(io) ::
        Semantics.Execute(old(View()), ins, io) == if fault.None? then Ok(View()) else Err(fault.value)
      ensures fault.Some? ==> View() == old(View())
    {
      fault := None;
      match ins {
        case ClearScreen =>
          ClearDisplay();
        case Return =>
          if stack == [] {
            return Some(StackUnderflow);
          }
          pc := stack[|stack| - 1];
          stack := stack[..|stack| - 1];
        case Jump(nnn) =>
          pc := nnn;
        case Call(nnn) =>
          stack := stack + [pc];
          pc := nnn;
        case JumpOffset(nnn) =>
          pc := nnn + v[0];
        case Unknown =>
      }
    }

    method ExecuteSkip(ins: Instr, io: Inputs)
      requires Valid() && ValidInputs(io)
      requires ins.SkipEqImm? || ins.SkipNeImm? || ins.SkipEqReg? || ins.SkipNeReg? || ins.SkipKey? || ins.SkipNoKey?
      modifies this`pc
      ensures Semantics.Execute(old(View()), ins, io) == Ok(View())
    {
      match ins {
        case SkipEqImm(x, nn) =>
          if v[x] == nn {
            pc := pc + 2;
          }
        case SkipNeImm(x, nn) =>
          if v[x] != nn {
            pc := pc + 2;
          }
        case SkipEqReg(x, y) =>
          if v[x] == v[y] {
            pc := pc + 2;
          }
        case SkipNeReg(x, y) =>
          if v[x] != v[y] {
            pc := pc + 2;
          }
        case SkipKey(x) =>
          SkipIfKeyDown(x, io);
        case SkipNoKey(x) =>
          SkipIfKeyUp(x, io);
      }
    }

    method ExecuteRegister(ins: Instr, io: Inputs)
      requires Valid() && ValidInputs(io)
      requires ins.LoadImm? || ins.AddImm? || ins.Alu? || ins.LoadIndex? || ins.Random?
      modifies this`i, v
      ensures Semantics.Execute(old(View()), ins, io) == Ok(View())
    {
      match ins {
        case LoadImm(x, nn) =>
          v[x] := nn;
        case AddImm(x, nn) =>
          v[x] := (v[x] as int + nn as int) % 256;
        case Alu(f, x, y) =>
          RunAlu(f, x, y);
        case LoadIndex(nnn) =>
          i := nnn;
        case Random(x, nn) =>
          v[x] := BitAnd(io.random, nn);
      }
    }

    method ExecuteDraw(x: Reg, y: Reg, n: Nibble) returns (fault: Option<Fault>)
      requires Valid()
      modifies v, display
      ensures forall io: Inputs | ValidInputs(io) ::
        Semantics.Execute(old(View()), Draw(x, y, n), io) == if fault.None? then Ok(View()) else Err(fault.value)
      ensures fault.Some? ==> View() == old(View())
    {
      if n > 0 && i as int + n as int > MemorySize {
        return Some(MemoryOutOfRange);
      }
      DrawSprite(x, y, n);
      fault := None;
    }

    /** Fx07, Fx15, Fx18: the timers. */
    method ExecuteTimers(ins: Instr)
      requires Valid()
      requires ins.LoadDelay? || ins.SetDelay? || ins.SetSound?
      modifies this`delay, this`sound, v
      ensures forall io: Inputs | ValidInputs(io) :: Semantics.Execute(old(View()), ins, io) == Ok(View())
    {
      match ins {
        case LoadDelay(x) =>
          v[x] := delay;
        case SetDelay(x) =>
          delay := v[x];
        case SetSound(x) =>
          sound := v[x];
      }
    }

    /** Fx1E and Fx29: I from Vx. */
    method ExecuteIndex(ins: Instr)
      requires Valid()
      requires ins.AddIndex? || ins.LoadGlyph?
      modifies this`i
      ensures forall io: Inputs | ValidInputs(io) :: Semantics.Execute(old(View()), ins, io) == Ok(View())
    {
      match ins {
        case AddIndex(x) =>
          i := (i as int + v[x] as int) % 0x1_0000;
        case LoadGlyph(x) =>
          i := (5 * v[x] as int) % 256;
      }
    }

    /** Fx55: V0..Vx to memory at I..I+x, unless that runs past the end of memory. */
    method ExecuteStore(x: Reg) returns (fault: Option<Fault>)
      requires Valid()
      modifies this`i, memory
      ensures forall io: Inputs | ValidInputs(io) ::
        Semantics.Execute(old(View()), StoreRegs(x), io) == if fault.None? then Ok(View()) else Err(fault.value)
      ensures fault.Some? ==> View() == old(View())
    {
      if i as int + x >= MemorySize {
        return Some(MemoryOutOfRange);
      }
      StoreRegisters(x);
      fault := None;
    }

    /** Fx65: V0..Vx from memory at I..I+x, unless that runs past the end of memory. */
    method ExecuteLoad(x: Reg) returns (fault: Option<Fault>)
      requires Valid()
      modifies this`i, v
      ensures forall io: Inputs | ValidInputs(io) ::
        Semantics.Execute(old(View()), LoadRegs(x), io) == if fault.None? then Ok(View()) else Err(fault.value)
      ensures fault.Some? ==> View() == old(View())
    {
      if i as int + x >= MemorySize {
        return Some(MemoryOutOfRange);
      }
      LoadRegisters(x);
      fault := None;
    }

    /** Fx33: the hundreds, tens and units of Vx at I, I+1 and I+2. */
    method StoreDigits(x: Reg) returns (fault: Option<Fault>)
      requires Valid()
      modifies memory
      ensures forall io: Inputs | ValidInputs(io) ::
        Semantics.Execute(old(View()), StoreBcd(x), io) == if fault.None? then Ok(View()) else Err(fault.value)
      ensures fault.Some? ==> View() == old(View())
    {
      if i as int + 2 >= MemorySize {
        return Some(MemoryOutOfRange);
      }
      var vx := v[x];
      memory[i] := vx / 100;
      memory[i + 1] := (vx % 100) / 10;
      memory[i + 2] := vx % 10;
      fault := None;
    }

    /** 8xyN; in 8xy4, 8xy5, 8xy6, 8xy7 and 8xyE VF is written before Vx, as in the Go code. */
    method RunAlu(f: AluOp, x: Reg, y: Reg)
      requires Valid()
      modifies v
      ensures v[..] == ApplyAlu(old(v[..]), f, x, y)
    {
      match f {
        case Move =>
          v[x] := v[y];
        case Or =>
          v[x] := BitOr(v[x], v[y]);
        case And =>
          v[x] := BitAnd(v[x], v[y]);
        case Xor =>
          v[x] := BitXor(v[x], v[y]);
        case Add =>
          v[Flag] := if v[x] as int + v[y] as int > 255 then 1 else 0;
          v[x] := (v[x] as int + v[y] as int) % 256;
        case Sub =>
          v[Flag] := if v[x] as int - v[y] as int < 0 then 0 else 1;
          v[x] := (v[x] as int - v[y] as int) % 256;
        case ShiftRight =>
          v[Flag] := v[y] % 2;
          v[x] := v[y] / 2;
        case SubReverse =>
          v[Flag] := if v[y] as int - v[x] as int < 0 then 0 else 1;
          v[x] := (v[y] as int - v[x] as int) % 256;
        case ShiftLeft =>
          v[Flag] := v[y] / 128;
          v[x] := (v[y] as int * 2) % 256;
      }
    }

    /** 00E0: the row-by-row clearing loop. */
    method ClearDisplay()
      requires Valid()
      modifies display
      ensures DisplayView() == Blank()
    {
      for row := 0 to Rows
        invariant forall r, c :: 0 <= r < row && 0 <= c < Cols ==> !display[r, c]
      {
        for col := 0 to Cols
          invariant forall r, c :: 0 <= r < Rows && 0 <= c < Cols && (r < row || (r == row && c < col)) ==> !display[r, c]
        {
          display[row, col] := false;
        }
      }
      DisplayViewIs(Blank());
    }

    /**
     * The display part way through Dxyn: every pixel before row vy + row, column vx + col
     * (in row-major order) is flipped where the sprite covers it; the rest is still d0.
     */
    ghost predicate DrawnUpTo(d0: seq<seq<bool>>, sprite: seq<Byte>, vx: Byte, vy: Byte, row: int, col: int)
      requires Valid() && ValidDisplay(d0)
      reads display
    {
      forall r, c :: 0 <= r < Rows && 0 <= c < Cols ==>
        display[r, c] ==
          if r < vy + row || (r == vy + row && c < vx + col) then d0[r][c] != Covers(sprite, vx, vy, r, c)
          else d0[r][c]
    }

    /**
     * Dxyn: XOR the n sprite bytes at I onto the display at (Vy, Vx), skipping pixels
     * past row 31 or column 63, and set VF when a lit pixel stays lit (the test at vm.go:236).
     */
    method DrawSprite(x: Reg, y: Reg, n: Nibble)
      requires Valid() && (n == 0 || i as int + n as int <= MemorySize)
      modifies v, display
      ensures DisplayView() == Blit(old(DisplayView()), Sprite(memory[..], i, n), old(v[x]), old(v[y]))
      ensures v[..] == old(v[..])[Flag :=
        if CollidesAsWritten(old(DisplayView()), Sprite(memory[..], i, n), old(v[x]), old(v[y])) then 1 else 0]
    {
      ghost var d0 := DisplayView();
      ghost var sprite := Sprite(memory[..], i, n);
      var vx, vy := v[x], v[y];
      var unset := DrawRows(vx, vy, n, d0, sprite);
      DrawnAll(d0, sprite, vx, vy);
      v[Flag] := if unset then 1 else 0;
    }

    /** The loop over the n rows of a sprite. */
    method DrawRows(vx: Byte, vy: Byte, n: Nibble, ghost d0: seq<seq<bool>>, ghost sprite: seq<Byte>)
      returns (unset: bool)
      requires Valid() && (n == 0 || i as int + n as int <= MemorySize)
      requires d0 == DisplayView() && sprite == Sprite(memory[..], i, n)
      modifies display
      ensures DrawnUpTo(d0, sprite, vx, vy, n, 0)
      ensures unset <==> CollidesAsWritten(d0, sprite, vx, vy)
    {
      unset := false;
      var row := 0;
      while row < n
        invariant 0 <= row <= n
        invariant DrawnUpTo(d0, sprite, vx, vy, row, 0)
        invariant unset <==> exists yy, xx :: 0 <= yy < row && 0 <= xx < 8 && HitAsWritten(d0, sprite, vx, vy, yy, xx)
      {
        var spriteByte := memory[i as int + row];
        var rowUnset := DrawRow(vx, vy, row, spriteByte, d0, sprite);
        unset := unset || rowUnset;
        HitRowsStep(d0, sprite, vx, vy, row);
        row := row + 1;
      }
    }

    lemma HitRowsStep(d0: seq<seq<bool>>, sprite: seq<Byte>, vx: Byte, vy: Byte, row: nat)
      requires ValidDisplay(d0) && row < |sprite|
      ensures (exists yy, xx :: 0 <= yy < row + 1 && 0 <= xx < 8 && HitAsWritten(d0, sprite, vx, vy, yy, xx))
        <==> || (exists yy, xx :: 0 <= yy < row && 0 <= xx < 8 && HitAsWritten(d0, sprite, vx, vy, yy, xx))
             || (exists xx :: 0 <= xx < 8 && HitAsWritten(d0, sprite, vx, vy, row, xx))
    {
    }

    lemma DrawnAll(d0: seq<seq<bool>>, sprite: seq<Byte>, vx: Byte, vy: Byte)
      requires Valid() && ValidDisplay(d0) && DrawnUpTo(d0, sprite, vx, vy, |sprite|, 0)
      ensures DisplayView() == Blit(d0, sprite, vx, vy)
    {
      DisplayViewIs(Blit(d0, sprite, vx, vy));
    }

    /** One sprite row of Dxyn: the loop over its eight bits, most significant first. */
    method DrawRow(vx: Byte, vy: Byte, row: nat, spriteByte: Byte, ghost d0: seq<seq<bool>>, ghost sprite: seq<Byte>)
      returns (unset: bool)
      requires Valid() && ValidDisplay(d0) && row < |sprite| && sprite[row] == spriteByte
      requires DrawnUpTo(d0, sprite, vx, vy, row, 0)
      modifies display
      ensures DrawnUpTo(d0, sprite, vx, vy, row + 1, 0)
      ensures unset <==> exists xx :: 0 <= xx < 8 && HitAsWritten(d0, sprite, vx, vy, row, xx)
    {
      var r0 := vy + row;
      unset := DrawBits(vx, r0, spriteByte, d0, sprite, row);
      assert forall xx :: 0 <= xx < 8 ==>
        (HitAsWritten(d0, sprite, vx, vy, row, xx) <==>
           r0 < Rows && vx + xx < Cols && d0[r0][vx + xx] && d0[r0][vx + xx] != SpriteBit(spriteByte, xx));
      forall r, c | 0 <= r < Rows && 0 <= c < Cols
        ensures display[r, c] ==
          if r < vy + row + 1 then d0[r][c] != Covers(sprite, vx, vy, r, c) else d0[r][c]
      {
        if r == r0 {
          assert old(display[r, c]) == d0[r][c];
        }
      }
    }

    /** The loop over the eight bits of one sprite byte, drawn on display row r0. */
    method DrawBits(vx: Byte, r0: int, spriteByte: Byte, ghost d0: seq<seq<bool>>, ghost sprite: seq<Byte>, ghost row: nat)
      returns (unset: bool)
      requires Valid() && ValidDisplay(d0) && row < |sprite| && sprite[row] == spriteByte && 0 <= r0
      requires r0 < Rows ==> forall c :: 0 <= c < Cols ==> display[r0, c] == d0[r0][c]
      modifies display
      ensures forall r, c :: 0 <= r < Rows && r != r0 && 0 <= c < Cols ==> display[r, c] == old(display[r, c])
      ensures r0 < Rows ==> forall c :: 0 <= c < Cols ==>
        display[r0, c] == if vx <= c < vx + 8 then d0[r0][c] != SpriteBit(spriteByte, c - vx) else d0[r0][c]
      ensures unset <==>
        exists xx :: 0 <= xx < 8 && r0 < Rows && vx + xx < Cols && d0[r0][vx + xx]
          && d0[r0][vx + xx] != SpriteBit(spriteByte, xx)
    {
      unset := false;
      var col := 0;
      while col < 8
        invariant 0 <= col <= 8
        invariant forall r, c :: 0 <= r < Rows && r != r0 && 0 <= c < Cols ==> display[r, c] == old(display[r, c])
        invariant r0 < Rows ==> forall c :: 0 <= c < Cols ==>
          display[r0, c] == if vx <= c < vx + col then d0[r0][c] != SpriteBit(spriteByte, c - vx) else d0[r0][c]
        invariant unset <==>
          exists xx :: 0 <= xx < col && r0 < Rows && vx + xx < Cols && d0[r0][vx + xx]
            && d0[r0][vx + xx] != SpriteBit(spriteByte, xx)
      {
        if r0 < Rows && vx + col < Cols {
          var newPixel := SpriteBit(spriteByte, col);
          var oldPixel := display[r0, vx + col];
          if oldPixel && oldPixel != newPixel {
            unset := true;
          }
          display[r0, vx + col] := oldPixel != newPixel;
        }
        col := col + 1;
      }
    }

    /** Ex9E: the loop over the key map; only the button mapped to Vx can skip. */
    method SkipIfKeyDown(x: Reg, io: Inputs)
      requires Valid() && ValidInputs(io)
      modifies this`pc
      ensures pc == old(pc) + if KeyDown(io.keys, io.order, v[x]) then 2 else 0
    {
      var vx := v[x];
      for j := 0 to |io.order|
        invariant pc == old(pc) + if vx < 16 && vx in io.order[..j] && io.keys[vx] then 2 else 0
      {
        assert io.order[..j + 1] == io.order[..j] + [io.order[j]];
        if io.order[j] == vx {
          if io.keys[io.order[j]] {
            pc := pc + 2;
          }
        }
      }
      assert io.order[..|io.order|] == io.order;
    }

    /** ExA1: the loop over the key map; only the button mapped to Vx can skip. */
    method SkipIfKeyUp(x: Reg, io: Inputs)
      requires Valid() && ValidInputs(io)
      modifies this`pc
      ensures pc == old(pc) + if KeyUp(io.keys, io.order, v[x]) then 2 else 0
    {
      var vx := v[x];
      for j := 0 to |io.order|
        invariant pc == old(pc) + if vx < 16 && vx in io.order[..j] && !io.keys[vx] then 2 else 0
      {
        assert io.order[..j + 1] == io.order[..j] + [io.order[j]];
        if io.order[j] == vx {
          if !io.keys[io.order[j]] {
            pc := pc + 2;
          }
        }
      }
      assert io.order[..|io.order|] == io.order;
    }

    /** Fx0A: store the first held key met in map order, or rewind pc to wait. */
    method WaitForKey(x: Reg, io: Inputs)
      requires Valid() && ValidInputs(io)
      modifies this`pc, v
      ensures match FirstPressed(io.keys, io.order)
        case Some(k) => v[..] == old(v[..])[x := k] && pc == old(pc)
        case None => v[..] == old(v[..]) && pc == old(pc) - 2
    {
      var pressed := false;
      var j := 0;
      while j < |io.order|
        invariant 0 <= j <= |io.order|
        invariant forall l :: 0 <= l < j ==> !io.keys[io.order[l]]
        invariant !pressed && v[..] == old(v[..])
      {
        var k := io.order[j];
        if io.keys[k] {
          v[x] := k;
          pressed := true;
          break;
        }
        j := j + 1;
      }
      if pressed {
        assert j < |io.order| && io.keys[io.order[j]] && v[..] == old(v[..])[x := io.order[j]];
        FirstPressedAt(io.keys, io.order, j);
      } else {
        pc := pc - 2;
      }
    }

    /** Fx55: V0..Vx to memory at I..I+x, then I = I + x + 1. */
    method StoreRegisters(x: Reg)
      requires Valid() && i as int + x < MemorySize
      modifies this`i, memory
      ensures memory[..] == old(memory[..])[..old(i)] + v[..x + 1] + old(memory[..])[old(i) + x + 1..]
      ensures i == (old(i) as int + x + 1) % 0x1_0000
    {
      var addr := i as int;
      for j := 0 to x + 1
        invariant forall a :: 0 <= a < MemorySize ==>
          memory[a] == if addr <= a < addr + j then v[a - addr] else old(memory[a])
      {
        memory[addr + j] := v[j];
      }
      i := (addr + x + 1) % 0x1_0000;
      assert memory[..] == old(memory[..])[..addr] + v[..x + 1] + old(memory[..])[addr + x + 1..];
    }

    /** Fx65: V0..Vx from memory at I..I+x, then I = I + x + 1. */
    method LoadRegisters(x: Reg)
      requires Valid() && i as int + x < MemorySize
      modifies this`i, v
      ensures v[..] == memory[old(i) .. old(i) + x + 1] + old(v[..])[x + 1..]
      ensures i == (old(i) as int + x + 1) % 0x1_0000
    {
      var addr := i as int;
      for j := 0 to x + 1
        invariant forall r :: 0 <= r < RegisterCount ==>
          v[r] == if r < j then memory[addr + r] else old(v[r])
      {
        v[j] := memory[addr + j];
      }
      i := (addr + x + 1) % 0x1_0000;
      assert v[..] == memory[addr .. addr + x + 1] + old(v[..])[x + 1..];
    }
  }
}
