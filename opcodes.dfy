/**
 * Fetching and decoding of the 16-bit opcodes dispatched by `fetchNextOpcode`
 * (vm.go): the family is the top nibble, x and y the next two nibbles, n the low
 * nibble, nn the low byte and nnn the low twelve bits.
 */
module Opcodes {
  import opened Wrappers
  import opened Chip8

  type Opcode = op: int | 0 <= op < 0x1_0000
  type Nibble = n: int | 0 <= n < 16
  /** A twelve-bit address operand. */
  type Addr = a: int | 0 <= a < 0x1000

  /** The register-to-register operations 8xy0 .. 8xyE. */
  datatype AluOp = Move | Or | And | Xor | Add | Sub | ShiftRight | SubReverse | ShiftLeft

  datatype Instr =
    | ClearScreen               // 00E0
    | Return                    // 00EE
    | Jump(nnn: Addr)           // 1nnn
    | Call(nnn: Addr)           // 2nnn
    | SkipEqImm(x: Reg, nn: Byte)   // 3xnn
    | SkipNeImm(x: Reg, nn: Byte)   // 4xnn
    | SkipEqReg(x: Reg, y: Reg)     // 5xy0
    | LoadImm(x: Reg, nn: Byte)     // 6xnn
    | AddImm(x: Reg, nn: Byte)      // 7xnn
    | Alu(op: AluOp, x: Reg, y: Reg) // 8xy0 .. 8xyE
    | SkipNeReg(x: Reg, y: Reg)     // 9xy0
    | LoadIndex(nnn: Addr)          // Annn
    | JumpOffset(nnn: Addr)         // Bnnn
    | Random(x: Reg, nn: Byte)      // Cxnn
    | Draw(x: Reg, y: Reg, n: Nibble) // Dxyn
    | SkipKey(x: Reg)               // Ex9E
    | SkipNoKey(x: Reg)             // ExA1
    | LoadDelay(x: Reg)             // Fx07
    | WaitKey(x: Reg)               // Fx0A
    | SetDelay(x: Reg)              // Fx15
    | SetSound(x: Reg)              // Fx18
    | AddIndex(x: Reg)              // Fx1E
    | LoadGlyph(x: Reg)             // Fx29
    | StoreBcd(x: Reg)              // Fx33
    | StoreRegs(x: Reg)             // Fx55
    | LoadRegs(x: Reg)              // Fx65
    | Unknown                       // any other opcode: nothing but the pc advance

  /**
   * The opcode at pc: the byte at pc is the high byte (Go's `m[pc] << 8 | m[pc+1]`,
   * which equals the sum below because the low byte is below 256).
   */
  function Fetch(mem: seq<Byte>, pc: int): (op: Opcode)
    requires |mem| == MemorySize && 0 <= pc && pc + 1 < MemorySize
    ensures op / 0x100 == mem[pc] && op % 0x100 == mem[pc + 1]
  {
    (mem[pc] as int) * 0x100 + mem[pc + 1] as int
  }

  /** Division by the constant field widths, with the quotient and remainder given. */
  lemma DivModConst(q: int, r: int, d: int)
    requires d == 0x10 || d == 0x100 || d == 0x1000
    requires 0 <= r < d
    ensures (q * d + r) / d == q && (q * d + r) % d == r
  {
    if d == 0x10 {
      assert (q * 0x10 + r) / 0x10 == q;
    } else if d == 0x100 {
      assert (q * 0x100 + r) / 0x100 == q;
    } else {
      assert (q * 0x1000 + r) / 0x1000 == q;
    }
  }

  /** The opcode with nibbles f, x, y, n (most significant first). */
  function Pack(f: Nibble, x: Nibble, y: Nibble, n: Nibble): (op: Opcode)
    ensures op / 0x1000 == f && op / 0x100 % 0x10 == x && op / 0x10 % 0x10 == y && op % 0x10 == n
    ensures op % 0x100 == y * 0x10 + n && op % 0x1000 == x * 0x100 + y * 0x10 + n
  {
    var op := f * 0x1000 + x * 0x100 + y * 0x10 + n;
    DivModConst(f, x * 0x100 + y * 0x10 + n, 0x1000);
    DivModConst(f * 0x10 + x, y * 0x10 + n, 0x100);
    DivModConst(f, x, 0x10);
    DivModConst(f * 0x100 + x * 0x10 + y, n, 0x10);
    DivModConst(f * 0x10 + x, y, 0x10);
    assert op == (f * 0x100 + x * 0x10 + y) * 0x10 + n;
    op
  }

  /** The opcode with family nibble f and twelve-bit address nnn. */
  function PackAddr(f: Nibble, nnn: Addr): (op: Opcode)
    ensures op / 0x1000 == f && op % 0x1000 == nnn
  {
    DivModConst(f, nnn, 0x1000);
    f * 0x1000 + nnn
  }

  /** An opcode is the sum of its nibbles at their place values. */
  lemma Unpack(op: Opcode)
    ensures op == (op / 0x1000) * 0x1000 + (op / 0x100 % 0x10) * 0x100 + op % 0x100
    ensures op % 0x100 == (op / 0x10 % 0x10) * 0x10 + op % 0x10
    ensures op % 0x1000 == (op / 0x100 % 0x10) * 0x100 + op % 0x100
  {
  }

  /** A twelve-bit address as three nibbles. */
  lemma UnpackAddr(a: Addr)
    ensures a == (a / 0x100) * 0x100 + (a / 0x10 % 0x10) * 0x10 + a % 0x10
  {
  }

  function AluCode(f: AluOp): (n: Nibble)
  {
    match f
    case Move => 0x0
    case Or => 0x1
    case And => 0x2
    case Xor => 0x3
    case Add => 0x4
    case Sub => 0x5
    case ShiftRight => 0x6
    case SubReverse => 0x7
    case ShiftLeft => 0xE
  }

  /** The ALU operation selected by the low nibble of an 8xyN opcode, if any. */
  function AluOpOf(n: Nibble): (r: Option<AluOp>)
    ensures r.Some? <==> n <= 7 || n == 0xE
    ensures r.Some? ==> AluCode(r.value) == n
  {
    if n == 0x0 then Some(Move)
    else if n == 0x1 then Some(Or)
    else if n == 0x2 then Some(And)
    else if n == 0x3 then Some(Xor)
    else if n == 0x4 then Some(Add)
    else if n == 0x5 then Some(Sub)
    else if n == 0x6 then Some(ShiftRight)
    else if n == 0x7 then Some(SubReverse)
    else if n == 0xE then Some(ShiftLeft)
    else None
  }

  /**
   * The dispatch of `fetchNextOpcode`: families 0, 8, E and F select on their low
   * twelve bits, low nibble or low byte; 5xyN and 9xyN act only when N is 0. Every
   * opcode the switch does not act on decodes to Unknown.
   */
  function Decode(op: Opcode): (r: Instr)
    ensures r.Unknown? ==> op / 0x1000 in {0x0, 0x5, 0x8, 0x9, 0xE, 0xF}
  {
    var family := op / 0x1000;
    var x := op / 0x100 % 0x10;
    var y := op / 0x10 % 0x10;
    var n := op % 0x10;
    var nn := op % 0x100;
    var nnn := op % 0x1000;
    if family == 0x0 then
      if nnn == 0x0E0 then ClearScreen
      else if nnn == 0x0EE then Return
      else Unknown
    else if family == 0x1 then Jump(nnn)
    else if family == 0x2 then Call(nnn)
    else if family == 0x3 then SkipEqImm(x, nn)
    else if family == 0x4 then SkipNeImm(x, nn)
    else if family == 0x5 then
      if n == 0 then SkipEqReg(x, y) else Unknown
    else if family == 0x6 then LoadImm(x, nn)
    else if family == 0x7 then AddImm(x, nn)
    else if family == 0x8 then
      match AluOpOf(n)
      case Some(f) => Alu(f, x, y)
      case None => Unknown
    else if family == 0x9 then
      if n == 0 then SkipNeReg(x, y) else Unknown
    else if family == 0xA then LoadIndex(nnn)
    else if family == 0xB then JumpOffset(nnn)
    else if family == 0xC then Random(x, nn)
    else if family == 0xD then Draw(x, y, n)
    else if family == 0xE then
      if nn == 0x9E then SkipKey(x)
      else if nn == 0xA1 then SkipNoKey(x)
      else Unknown
    else
      if nn == 0x07 then LoadDelay(x)
      else if nn == 0x0A then WaitKey(x)
      else if nn == 0x15 then SetDelay(x)
      else if nn == 0x18 then SetSound(x)
      else if nn == 0x1E then AddIndex(x)
      else if nn == 0x29 then LoadGlyph(x)
      else if nn == 0x33 then StoreBcd(x)
      else if nn == 0x55 then StoreRegs(x)
      else if nn == 0x65 then LoadRegs(x)
      else Unknown
  }

  /** The canonical opcode of an instruction; decoding it gives the instruction back. */
  function Encode(ins: Instr): (op: Opcode)
    requires !ins.Unknown?
  {
    match ins
    case ClearScreen => Pack(0x0, 0x0, 0xE, 0x0)
    case Return => Pack(0x0, 0x0, 0xE, 0xE)
    case Jump(nnn) => PackAddr(0x1, nnn)
    case Call(nnn) => PackAddr(0x2, nnn)
    case SkipEqImm(x, nn) => Pack(0x3, x, nn / 0x10, nn % 0x10)
    case SkipNeImm(x, nn) => Pack(0x4, x, nn / 0x10, nn % 0x10)
    case SkipEqReg(x, y) => Pack(0x5, x, y, 0x0)
    case LoadImm(x, nn) => Pack(0x6, x, nn / 0x10, nn % 0x10)
    case AddImm(x, nn) => Pack(0x7, x, nn / 0x10, nn % 0x10)
    case Alu(f, x, y) => Pack(0x8, x, y, AluCode(f))
    case SkipNeReg(x, y) => Pack(0x9, x, y, 0x0)
    case LoadIndex(nnn) => PackAddr(0xA, nnn)
    case JumpOffset(nnn) => PackAddr(0xB, nnn)
    case Random(x, nn) => Pack(0xC, x, nn / 0x10, nn % 0x10)
    case Draw(x, y, n) => Pack(0xD, x, y, n)
    case SkipKey(x) => Pack(0xE, x, 0x9, 0xE)
    case SkipNoKey(x) => Pack(0xE, x, 0xA, 0x1)
    case LoadDelay(x) => Pack(0xF, x, 0x0, 0x7)
    case WaitKey(x) => Pack(0xF, x, 0x0, 0xA)
    case SetDelay(x) => Pack(0xF, x, 0x1, 0x5)
    case SetSound(x) => Pack(0xF, x, 0x1, 0x8)
    case AddIndex(x) => Pack(0xF, x, 0x1, 0xE)
    case LoadGlyph(x) => Pack(0xF, x, 0x2, 0x9)
    case StoreBcd(x) => Pack(0xF, x, 0x3, 0x3)
    case StoreRegs(x) => Pack(0xF, x, 0x5, 0x5)
    case LoadRegs(x) => Pack(0xF, x, 0x6, 0x5)
  }

  /** Decoding inverts encoding: every instruction has an opcode that means it. */
  lemma DecodeEncode(ins: Instr)
    requires !ins.Unknown?
    ensures Decode(Encode(ins)) == ins
  {
    if ins.ClearScreen? || ins.Return? || ins.Jump? || ins.Call? || ins.LoadIndex? || ins.JumpOffset? {
      DecodeEncodeFlow(ins);
    } else if ins.SkipEqImm? || ins.SkipNeImm? || ins.SkipEqReg? || ins.SkipNeReg? || ins.SkipKey? || ins.SkipNoKey? {
      DecodeEncodeSkip(ins);
    } else if ins.LoadImm? || ins.AddImm? || ins.Alu? || ins.Random? || ins.Draw? {
      DecodeEncodeRegister(ins);
    } else {
      DecodeEncodeMisc(ins);
    }
  }

  lemma DecodeEncodeFlow(ins: Instr)
    requires ins.ClearScreen? || ins.Return? || ins.Jump? || ins.Call? || ins.LoadIndex? || ins.JumpOffset?
    ensures Decode(Encode(ins)) == ins
  {
    if ins.Jump? || ins.Call? {
      DecodeEncodeCall(ins);
    } else if ins.LoadIndex? || ins.JumpOffset? {
      DecodeEncodeIndex(ins);
    }
  }

  lemma DecodeEncodeCall(ins: Instr)
    requires ins.Jump? || ins.Call?
    ensures Decode(Encode(ins)) == ins
  {
  }

  lemma DecodeEncodeIndex(ins: Instr)
    requires ins.LoadIndex? || ins.JumpOffset?
    ensures Decode(Encode(ins)) == ins
  {
  }

  lemma DecodeEncodeSkip(ins: Instr)
    requires ins.SkipEqImm? || ins.SkipNeImm? || ins.SkipEqReg? || ins.SkipNeReg? || ins.SkipKey? || ins.SkipNoKey?
    ensures Decode(Encode(ins)) == ins
  {
  }

  lemma DecodeEncodeRegister(ins: Instr)
    requires ins.LoadImm? || ins.AddImm? || ins.Alu? || ins.Random? || ins.Draw?
    ensures Decode(Encode(ins)) == ins
  {
  }

  lemma DecodeEncodeMisc(ins: Instr)
    requires ins.LoadDelay? || ins.WaitKey? || ins.SetDelay? || ins.SetSound? || ins.AddIndex?
      || ins.LoadGlyph? || ins.StoreBcd? || ins.StoreRegs? || ins.LoadRegs?
    ensures Decode(Encode(ins)) == ins
  {
  }

  /** Every opcode the dispatch acts on is the canonical encoding of its instruction. */
  lemma EncodeDecode(op: Opcode)
    requires !Decode(op).Unknown?
    ensures Encode(Decode(op)) == op
  {
    Unpack(op);
    var family := op / 0x1000;
    if family in {0x0, 0x1, 0x2, 0xA, 0xB} {
      EncodeDecodeAddr(op);
    } else if family in {0x3, 0x4, 0x6, 0x7, 0xC} {
      EncodeDecodeImm(op);
    } else if family in {0x5, 0x8, 0x9, 0xD} {
      EncodeDecodeReg(op);
    } else {
      EncodeDecodeKeyMisc(op);
    }
  }

  lemma EncodeDecodeAddr(op: Opcode)
    requires op / 0x1000 in {0x0, 0x1, 0x2, 0xA, 0xB} && !Decode(op).Unknown?
    ensures Encode(Decode(op)) == op
  {
    Unpack(op);
    var nnn: Addr := op % 0x1000;
    UnpackAddr(nnn);
  }

  lemma EncodeDecodeImm(op: Opcode)
    requires op / 0x1000 in {0x3, 0x4, 0x6, 0x7, 0xC}
    ensures Encode(Decode(op)) == op
  {
    Unpack(op);
  }

  lemma EncodeDecodeReg(op: Opcode)
    requires op / 0x1000 in {0x5, 0x8, 0x9, 0xD} && !Decode(op).Unknown?
    ensures Encode(Decode(op)) == op
  {
    Unpack(op);
  }

  lemma EncodeDecodeKeyMisc(op: Opcode)
    requires op / 0x1000 in {0xE, 0xF} && !Decode(op).Unknown?
    ensures Encode(Decode(op)) == op
  {
    if op / 0x1000 == 0xE {
      EncodeDecodeKey(op);
    } else {
      EncodeDecodeMisc(op);
    }
  }

  lemma EncodeDecodeKey(op: Opcode)
    requires op / 0x1000 == 0xE && !Decode(op).Unknown?
    ensures Encode(Decode(op)) == op
  {
    Unpack(op);
  }

  lemma EncodeDecodeMisc(op: Opcode)
    requires op / 0x1000 == 0xF && !Decode(op).Unknown?
    ensures Encode(Decode(op)) == op
  {
    Unpack(op);
  }
}
