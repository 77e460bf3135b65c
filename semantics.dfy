/**
 * What one call of `fetchNextOpcode` (vm.go) does to the machine, as functions on
 * Chip8.State. The host's inputs to a step are the key state, the iteration order of
 * the Go key map and the random byte of Cxnn.
 */
module Semantics {
  import opened Wrappers
  import opened Chip8
  import opened Opcodes

  /**
   * keys[k]: logical key k (0x0..0xF) is held down. order: the logical keys in the
   * order the Go key map happens to be iterated (the map is a bijection from sixteen
   * buttons onto the logical keys). random: the byte drawn for Cxnn.
   */
  datatype Inputs = Inputs(keys: seq<bool>, order: seq<int>, random: Byte)

  /** A possible iteration order of the key map: each logical key exactly once. */
  predicate IsKeyOrder(order: seq<int>)
  {
    && |order| == 16
    && (forall j :: 0 <= j < 16 ==> 0 <= order[j] < 16)
    && (forall j, l :: 0 <= j < l < 16 ==> order[j] != order[l])
    && (forall k :: 0 <= k < 16 ==> k in order)
  }

  predicate ValidInputs(io: Inputs)
  {
    |io.keys| == 16 && IsKeyOrder(io.order)
  }

  /**
   * Ex9E: some button of the key map maps to the value vx and is held. The map is a
   * bijection onto 0..F, so this is the key vx itself, and no key maps to a value above 15.
   */
  function KeyDown(keys: seq<bool>, order: seq<int>, vx: Byte): (b: bool)
    requires |keys| == 16 && IsKeyOrder(order)
    ensures b <==> vx < 16 && keys[vx]
  {
    assert vx < 16 ==> vx in order;
    exists j :: 0 <= j < |order| && order[j] == vx && keys[order[j]]
  }

  /** ExA1: some button of the key map maps to the value vx and is not held. */
  function KeyUp(keys: seq<bool>, order: seq<int>, vx: Byte): (b: bool)
    requires |keys| == 16 && IsKeyOrder(order)
    ensures b <==> vx < 16 && !keys[vx]
  {
    assert vx < 16 ==> vx in order;
    exists j :: 0 <= j < |order| && order[j] == vx && !keys[order[j]]
  }

  /** Fx0A: the first held key in map iteration order, if any key is held. */
  function FirstPressed(keys: seq<bool>, order: seq<int>): (r: Option<Byte>)
    requires |keys| == 16
    requires forall j :: 0 <= j < |order| ==> 0 <= order[j] < 16
    ensures r.None? <==> forall j :: 0 <= j < |order| ==> !keys[order[j]]
    ensures r.Some? ==>
      exists j :: 0 <= j < |order| && order[j] == r.value && keys[r.value] &&
        forall l :: 0 <= l < j ==> !keys[order[l]]
  {
    if order == [] then None
    else if keys[order[0]] then Some(order[0])
    else
      var r := FirstPressed(keys, order[1..]);
      assert forall j :: 1 <= j < |order| ==> order[1..][j - 1] == order[j];
      r
  }

  /** The key at position j of the order is returned when no earlier key is held. */
  lemma {:induction false} FirstPressedAt(keys: seq<bool>, order: seq<int>, j: int)
    requires |keys| == 16 && 0 <= j < |order|
    requires forall l :: 0 <= l < |order| ==> 0 <= order[l] < 16
    requires keys[order[j]] && forall l :: 0 <= l < j ==> !keys[order[l]]
    ensures FirstPressed(keys, order) == Some(order[j])
    decreases j
  {
    if j > 0 {
      assert forall l :: 1 <= l < |order| ==> order[1..][l - 1] == order[l];
      FirstPressedAt(keys, order[1..], j - 1);
    }
  }

  /**
   * 8xyN. 8xy0..8xy3 write Vx alone. In 8xy4, 8xy5, 8xy6, 8xy7 and 8xyE VF is written
   * first and Vx is then computed from the registers as they are after that write, so
   * with y = F the operand is the new flag and with x = F the flag is overwritten by
   * the result.
   */
  function ApplyAlu(v: seq<Byte>, f: AluOp, x: Reg, y: Reg): (r: seq<Byte>)
    requires |v| == RegisterCount
    ensures |r| == RegisterCount
    ensures forall j :: 0 <= j < RegisterCount && j != x && j != Flag ==> r[j] == v[j]
  {
    match f
    case Move => v[x := v[y]]
    case Or => v[x := BitOr(v[x], v[y])]
    case And => v[x := BitAnd(v[x], v[y])]
    case Xor => v[x := BitXor(v[x], v[y])]
    case Add =>
      var w := v[Flag := if v[x] as int + v[y] as int > 255 then 1 else 0];
      w[x := (w[x] as int + w[y] as int) % 256]
    case Sub =>
      var w := v[Flag := if v[x] as int - v[y] as int < 0 then 0 else 1];
      w[x := (w[x] as int - w[y] as int) % 256]
    case ShiftRight =>
      var w := v[Flag := v[y] % 2];
      w[x := w[y] / 2]
    case SubReverse =>
      var w := v[Flag := if v[y] as int - v[x] as int < 0 then 0 else 1];
      w[x := (w[y] as int - w[x] as int) % 256]
    case ShiftLeft =>
      var w := v[Flag := v[y] / 128];
      w[x := (w[y] as int * 2) % 256]
  }

  /** The n sprite bytes Dxyn reads at I. */
  function Sprite(mem: seq<Byte>, i: Word, n: Nibble): (s: seq<Byte>)
    requires |mem| == MemorySize && (n == 0 || i + n <= MemorySize)
    ensures |s| == n && forall k :: 0 <= k < n ==> s[k] == mem[i + k]
  {
    if n == 0 then [] else mem[i .. i + n]
  }

  /** The sprite, drawn with its top-left corner at row vy and column vx, has a set bit at (r, c). */
  predicate Covers(sprite: seq<Byte>, vx: int, vy: int, r: int, c: int)
  {
    vy <= r < vy + |sprite| && vx <= c < vx + 8 && SpriteBit(sprite[r - vy], c - vx)
  }

  /** Dxyn's display: every covered pixel is flipped; sprite parts beyond row 31 or column 63 are dropped. */
  function Blit(d: seq<seq<bool>>, sprite: seq<Byte>, vx: int, vy: int): (e: seq<seq<bool>>)
    requires ValidDisplay(d)
    ensures ValidDisplay(e)
    ensures forall r, c :: 0 <= r < Rows && 0 <= c < Cols ==> e[r][c] == (d[r][c] != Covers(sprite, vx, vy, r, c))
  {
    seq(Rows, r requires 0 <= r < Rows =>
      seq(Cols, c requires 0 <= c < Cols => d[r][c] != Covers(sprite, vx, vy, r, c)))
  }

  /** Sprite row yy, column xx lands on the display where a pixel is lit and its bit is set. */
  predicate Hit(d: seq<seq<bool>>, sprite: seq<Byte>, vx: Byte, vy: Byte, yy: int, xx: int)
    requires ValidDisplay(d) && 0 <= yy < |sprite| && 0 <= xx < 8
  {
    vy + yy < Rows && vx + xx < Cols && d[vy + yy][vx + xx] && SpriteBit(sprite[yy], xx)
  }

  /** The CHIP-8 collision rule, used by DrawIntended: some lit pixel is turned off. */
  predicate Collides(d: seq<seq<bool>>, sprite: seq<Byte>, vx: Byte, vy: Byte)
    requires ValidDisplay(d)
  {
    exists yy, xx :: 0 <= yy < |sprite| && 0 <= xx < 8 && Hit(d, sprite, vx, vy, yy, xx)
  }

  /** The condition vm.go:236 tests per pixel: `oldbyte == 1 && oldbyte ^ newbyte != 0`. */
  predicate HitAsWritten(d: seq<seq<bool>>, sprite: seq<Byte>, vx: Byte, vy: Byte, yy: int, xx: int)
    requires ValidDisplay(d) && 0 <= yy < |sprite| && 0 <= xx < 8
  {
    vy + yy < Rows && vx + xx < Cols && d[vy + yy][vx + xx] && (d[vy + yy][vx + xx] != SpriteBit(sprite[yy], xx))
  }

  /** The flag as vm.go:227-246 computes it. */
  predicate CollidesAsWritten(d: seq<seq<bool>>, sprite: seq<Byte>, vx: Byte, vy: Byte)
    requires ValidDisplay(d)
  {
    exists yy, xx :: 0 <= yy < |sprite| && 0 <= xx < 8 && HitAsWritten(d, sprite, vx, vy, yy, xx)
  }

  /**
   * The execute half of `fetchNextOpcode`, on a state whose pc already points past the
   * instruction. A memory index past the end, or a return with an empty stack, is a fault.
   */
  function Execute(m: State, ins: Instr, io: Inputs): (r: Result<State, Fault>)
    requires WellFormed(m) && ValidInputs(io)
    ensures r.Ok? ==> WellFormed(r.value)
  {
    match ins
    case ClearScreen => Ok(m.(display := Blank()))
    case Return =>
      if m.stack == [] then Err(StackUnderflow)
      else Ok(m.(pc := m.stack[|m.stack| - 1], stack := m.stack[..|m.stack| - 1]))
    case Jump(nnn) => Ok(m.(pc := nnn))
    case Call(nnn) => Ok(m.(stack := m.stack + [m.pc], pc := nnn))
    case SkipEqImm(x, nn) => Ok(if m.v[x] == nn then m.(pc := m.pc + 2) else m)
    case SkipNeImm(x, nn) => Ok(if m.v[x] != nn then m.(pc := m.pc + 2) else m)
    case SkipEqReg(x, y) => Ok(if m.v[x] == m.v[y] then m.(pc := m.pc + 2) else m)
    case LoadImm(x, nn) => Ok(m.(v := m.v[x := nn]))
    case AddImm(x, nn) => Ok(m.(v := m.v[x := (m.v[x] as int + nn as int) % 256]))
    case Alu(f, x, y) => Ok(m.(v := ApplyAlu(m.v, f, x, y)))
    case SkipNeReg(x, y) => Ok(if m.v[x] != m.v[y] then m.(pc := m.pc + 2) else m)
    case LoadIndex(nnn) => Ok(m.(i := nnn))
    case JumpOffset(nnn) => Ok(m.(pc := nnn as int + m.v[0] as int))
    case Random(x, nn) => Ok(m.(v := m.v[x := BitAnd(io.random, nn)]))
    case Draw(x, y, n) =>
      if n > 0 && m.i as int + n as int > MemorySize then Err(MemoryOutOfRange)
      else
        var sprite := Sprite(m.memory, m.i, n);
        var vx, vy := m.v[x], m.v[y];
        Ok(m.(display := Blit(m.display, sprite, vx, vy),
              v := m.v[Flag := if CollidesAsWritten(m.display, sprite, vx, vy) then 1 else 0]))
    case SkipKey(x) => Ok(if KeyDown(io.keys, io.order, m.v[x]) then m.(pc := m.pc + 2) else m)
    case SkipNoKey(x) => Ok(if KeyUp(io.keys, io.order, m.v[x]) then m.(pc := m.pc + 2) else m)
    case LoadDelay(x) => Ok(m.(v := m.v[x := m.delay]))
    case WaitKey(x) =>
      (match FirstPressed(io.keys, io.order)
       case Some(k) => Ok(m.(v := m.v[x := k]))
       case None => Ok(m.(pc := m.pc - 2)))
    case SetDelay(x) => Ok(m.(delay := m.v[x]))
    case SetSound(x) => Ok(m.(sound := m.v[x]))
    case AddIndex(x) => Ok(m.(i := (m.i as int + m.v[x] as int) % 0x1_0000))
    case LoadGlyph(x) => Ok(m.(i := (5 * m.v[x] as int) % 256))
    case StoreBcd(x) =>
      if m.i as int + 2 >= MemorySize then Err(MemoryOutOfRange)
      else
        var vx := m.v[x];
        Ok(m.(memory := m.memory[m.i := vx / 100][m.i + 1 := (vx % 100) / 10][m.i + 2 := vx % 10]))
    case StoreRegs(x) =>
      if m.i + x >= MemorySize then Err(MemoryOutOfRange)
      else Ok(m.(memory := m.memory[..m.i] + m.v[..x + 1] + m.memory[m.i + x + 1..],
                 i := (m.i as int + x + 1) % 0x1_0000))
    case LoadRegs(x) =>
      if m.i + x >= MemorySize then Err(MemoryOutOfRange)
      else Ok(m.(v := m.memory[m.i .. m.i + x + 1] + m.v[x + 1..],
                 i := (m.i as int + x + 1) % 0x1_0000))
    case Unknown => Ok(m)
  }

  /**
   * Dxyn as CHIP-8 intends it: the display update of Execute, with VF set when a lit
   * pixel is turned off. This is the corrected form of the test at vm.go:236.
   */
  function DrawIntended(m: State, x: Reg, y: Reg, n: Nibble): (r: Result<State, Fault>)
    requires WellFormed(m)
    ensures r.Ok? ==> WellFormed(r.value)
  {
    if n > 0 && m.i as int + n as int > MemorySize then Err(MemoryOutOfRange)
    else
      var sprite := Sprite(m.memory, m.i, n);
      Ok(m.(display := Blit(m.display, sprite, m.v[x], m.v[y]),
            v := m.v[Flag := if Collides(m.display, sprite, m.v[x], m.v[y]) then 1 else 0]))
  }

  /** `fetchNextOpcode`: fetch the opcode at pc, advance pc by 2, then execute. */
  function Step(m: State, io: Inputs): (r: Result<State, Fault>)
    requires WellFormed(m) && ValidInputs(io)
    ensures r.Ok? ==> WellFormed(r.value)
    ensures (m.pc < 0 || m.pc + 1 >= MemorySize) ==> r == Err(PcOutOfRange)
  {
    if m.pc < 0 || m.pc + 1 >= MemorySize then Err(PcOutOfRange)
    else Execute(m.(pc := m.pc + 2), Decode(Fetch(m.memory, m.pc)), io)
  }
}
