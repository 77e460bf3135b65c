/**
 * The CHIP-8 machine state of vm.go (`chipVM`), its constants, the built-in font,
 * program loading (`newChipVM`, `setFont`) and the host's timer decay.
 */
module Chip8 {
  import opened Wrappers

  const MemorySize := 4096
  /** Where program images are loaded and where execution starts. */
  const ProgramStart := 0x200
  /** The largest image that fits between ProgramStart and the end of memory. */
  const MaxImageSize := MemorySize - ProgramStart
  const Rows := 32
  const Cols := 64
  const RegisterCount := 16
  /** VF, the flag register. */
  const Flag := 0xF
  const GlyphSize := 5
  const FontSize := 80

  /** Go's uint8. */
  type Byte = b: int | 0 <= b < 256
  /** Go's uint16, the type of the index register. */
  type Word = w: int | 0 <= w < 0x1_0000
  /** An index into the register file V0..VF. */
  type Reg = r: int | 0 <= r < 16

  datatype Fault =
    | PcOutOfRange       // the program counter does not address two bytes of memory
    | MemoryOutOfRange   // Dxyn, Fx33, Fx55 or Fx65 would index past the end of memory
    | StackUnderflow     // 00EE with an empty call stack
    | ImageTooLarge      // the program image does not fit above ProgramStart

  /**
   * The value of a `chipVM`: registers V0..VF, the index register I, the two timers,
   * the call stack (bottom first), memory, the 32 x 64 display (`display[row][col]`,
   * true for a lit pixel) and the program counter (a Go `int`).
   */
  datatype State = State(
    v: seq<Byte>,
    i: Word,
    sound: Byte,
    delay: Byte,
    stack: seq<int>,
    memory: seq<Byte>,
    display: seq<seq<bool>>,
    pc: int)

  predicate ValidDisplay(d: seq<seq<bool>>)
  {
    |d| == Rows && forall r :: 0 <= r < |d| ==> |d[r]| == Cols
  }

  predicate WellFormed(m: State)
  {
    |m.v| == RegisterCount && |m.memory| == MemorySize && ValidDisplay(m.display)
  }

  /** The cleared display. */
  function Blank(): (d: seq<seq<bool>>)
    ensures ValidDisplay(d)
  {
    seq(Rows, _ => seq(Cols, _ => false))
  }

  // Bitwise operations on bytes, computed on bv8.

  function BitAnd(a: Byte, b: Byte): Byte
  {
    ((a as bv8) & (b as bv8)) as int
  }

  function BitOr(a: Byte, b: Byte): Byte
  {
    ((a as bv8) | (b as bv8)) as int
  }

  function BitXor(a: Byte, b: Byte): Byte
  {
    ((a as bv8) ^ (b as bv8)) as int
  }

  /** Bit 7 - c of a sprite byte: the pixel of column c, most significant bit leftmost. */
  function SpriteBit(b: Byte, c: int): bool
    requires 0 <= c < 8
  {
    (b as bv8 >> (7 - c)) & 1 == 1
  }

  /** The hexadecimal digit glyphs 0..F of `setFont`, five rows of four pixels each. */
  const FontList: seq<seq<Byte>> := [
    [0xF0, 0x90, 0x90, 0x90, 0xF0], // 0
    [0x20, 0x60, 0x20, 0x20, 0x70], // 1
    [0xF0, 0x10, 0xF0, 0x80, 0xF0], // 2
    [0xF0, 0x10, 0xF0, 0x10, 0xF0], // 3
    [0x90, 0x90, 0xF0, 0x10, 0x10], // 4
    [0xF0, 0x80, 0xF0, 0x10, 0xF0], // 5
    [0xF0, 0x80, 0xF0, 0x90, 0xF0], // 6
    [0xF0, 0x10, 0x20, 0x40, 0x40], // 7
    [0xF0, 0x90, 0xF0, 0x90, 0xF0], // 8
    [0xF0, 0x90, 0xF0, 0x10, 0xF0], // 9
    [0xF0, 0x90, 0xF0, 0x90, 0x90], // A
    [0xE0, 0x90, 0xE0, 0x90, 0xE0], // B
    [0xF0, 0x80, 0x80, 0x80, 0xF0], // C
    [0xE0, 0x90, 0x90, 0x90, 0xE0], // D
    [0xF0, 0x80, 0xF0, 0x80, 0xF0], // E
    [0xF0, 0x80, 0xF0, 0x80, 0x80]  // F
  ]

  lemma FontShape()
    ensures |FontList| == 16
    ensures forall d :: 0 <= d < 16 ==> |FontList[d]| == GlyphSize
  {
  }

  /** Memory after `setFont`: glyph bytes in 0..79, in font order, the rest untouched. */
  function InstallFont(mem: seq<Byte>): (r: seq<Byte>)
    requires |mem| == MemorySize
    ensures |r| == MemorySize && forall j :: FontSize <= j < MemorySize ==> r[j] == mem[j]
  {
    FontShape();
    seq(MemorySize, j requires 0 <= j < MemorySize =>
      if j < FontSize then FontList[j / GlyphSize][j % GlyphSize] else mem[j])
  }

  /** The font is in place: glyph d occupies bytes 5d .. 5d+4. */
  ghost predicate FontIntact(mem: seq<Byte>)
    requires |mem| == MemorySize
  {
    FontShape();
    forall d, k :: 0 <= d < 16 && 0 <= k < GlyphSize ==> mem[GlyphSize * d + k] == FontList[d][k]
  }

  lemma InstallFontPlacesGlyphs(mem: seq<Byte>)
    requires |mem| == MemorySize
    ensures FontIntact(InstallFont(mem))
    ensures forall d :: 0 <= d < 16 ==> InstallFont(mem)[GlyphSize * d .. GlyphSize * d + GlyphSize] == FontList[d]
    ensures InstallFont(mem)[FontSize..] == mem[FontSize..]
  {
    FontShape();
    var r := InstallFont(mem);
    forall d, k | 0 <= d < 16 && 0 <= k < GlyphSize
      ensures r[GlyphSize * d + k] == FontList[d][k]
    {
      var j := GlyphSize * d + k;
      assert j / GlyphSize == d && j % GlyphSize == k;
    }
    forall d | 0 <= d < 16
      ensures r[GlyphSize * d .. GlyphSize * d + GlyphSize] == FontList[d]
    {
      forall k | 0 <= k < GlyphSize
        ensures r[GlyphSize * d .. GlyphSize * d + GlyphSize][k] == FontList[d][k]
      {
        assert r[GlyphSize * d + k] == FontList[d][k];
      }
    }
  }

  /** A memory holding the glyphs in place and `mem` past them is the memory setFont leaves. */
  lemma InstallFontIsIntact(r: seq<Byte>, mem: seq<Byte>)
    requires |r| == MemorySize && |mem| == MemorySize
    requires FontIntact(r) && forall j :: FontSize <= j < MemorySize ==> r[j] == mem[j]
    ensures r == InstallFont(mem)
  {
    FontShape();
    forall j | 0 <= j < FontSize ensures r[j] == InstallFont(mem)[j] {
      var d, k := j / GlyphSize, j % GlyphSize;
      assert j == GlyphSize * d + k;
    }
  }

  /** Memory after the image copy loop of `newChipVM`: `rom` at ProgramStart, the rest untouched. */
  function LoadImage(mem: seq<Byte>, rom: seq<Byte>): (r: seq<Byte>)
    requires |mem| == MemorySize && |rom| <= MaxImageSize
    ensures |r| == MemorySize
    ensures forall j :: 0 <= j < |rom| ==> r[ProgramStart + j] == rom[j]
    ensures forall j :: 0 <= j < MemorySize && !(ProgramStart <= j < ProgramStart + |rom|) ==> r[j] == mem[j]
  {
    mem[..ProgramStart] + rom + mem[ProgramStart + |rom|..]
  }

  /**
   * `newChipVM` on an image already read from the file: zeroed registers, timers, I,
   * stack and display, the font at 0, the image at 0x200 and pc = 0x200. An image
   * longer than MaxImageSize makes the copy loop index past the end of memory.
   */
  function Boot(rom: seq<Byte>): (r: Result<State, Fault>)
    ensures r.Ok? ==> WellFormed(r.value)
  {
    if |rom| > MaxImageSize then Err(ImageTooLarge)
    else
      Ok(State(
        seq(RegisterCount, _ => 0), 0, 0, 0, [],
        LoadImage(InstallFont(seq(MemorySize, _ => 0)), rom),
        Blank(), ProgramStart))
  }

  lemma BootState(rom: seq<Byte>)
    ensures Boot(rom).Ok? <==> |rom| <= MaxImageSize
    ensures Boot(rom).Ok? ==>
      var m := Boot(rom).value;
      && m.pc == ProgramStart
      && (forall k :: 0 <= k < |rom| ==> m.memory[ProgramStart + k] == rom[k])
      && (forall a :: ProgramStart + |rom| <= a < MemorySize ==> m.memory[a] == 0)
      && FontIntact(m.memory)
      && (forall a :: FontSize <= a < ProgramStart ==> m.memory[a] == 0)
      && (forall j :: 0 <= j < RegisterCount ==> m.v[j] == 0)
      && m.i == 0 && m.delay == 0 && m.sound == 0 && m.stack == []
      && (forall r, c :: 0 <= r < Rows && 0 <= c < Cols ==> !m.display[r][c])
  {
    if |rom| <= MaxImageSize {
      var font := InstallFont(seq(MemorySize, _ => 0));
      InstallFontPlacesGlyphs(seq(MemorySize, _ => 0));
      var mem := LoadImage(font, rom);
      forall k | 0 <= k < |rom| ensures mem[ProgramStart + k] == rom[k] {
      }
      assert mem[..ProgramStart] == font[..ProgramStart];
      assert FontIntact(mem) by {
        forall d, k | 0 <= d < 16 && 0 <= k < GlyphSize
          ensures mem[GlyphSize * d + k] == FontList[d][k]
        {
          assert mem[GlyphSize * d + k] == font[GlyphSize * d + k];
        }
      }
    }
  }

  /**
   * One tick of the host's 60 Hz timer: the delay timer counts down to 0, the sound
   * timer counts down only while it is above 2.
   */
  function Tick(m: State): (r: State)
    ensures r == m.(delay := r.delay, sound := r.sound)
    ensures r.delay <= m.delay <= r.delay + 1 && (r.delay == m.delay <==> m.delay == 0)
    ensures r.sound <= m.sound <= r.sound + 1 && (r.sound == m.sound <==> m.sound <= 2)
  {
    m.(delay := if m.delay > 0 then m.delay - 1 else m.delay,
       sound := if m.sound > 2 then m.sound - 1 else m.sound)
  }

  function Ticks(m: State, k: nat): (r: State)
    ensures r == m.(delay := r.delay, sound := r.sound)
    ensures r.delay <= m.delay && (r.delay == 0 <==> m.delay <= k)
    ensures r.sound <= m.sound && (m.sound <= 2 ==> r.sound == m.sound) && (m.sound > 2 ==> r.sound >= 2)
    decreases k
  {
    if k == 0 then m else Ticks(Tick(m), k - 1)
  }

  /** After k ticks: delay = max(delay - k, 0), and a sound value above 2 drops to no less than 2. */
  lemma {:induction false} TicksCloseForm(m: State, k: nat)
    ensures Ticks(m, k).delay == if m.delay > k then m.delay - k else 0
    ensures Ticks(m, k).sound == if m.sound <= 2 then m.sound else if m.sound - k > 2 then m.sound - k else 2
    ensures Ticks(m, k) == m.(delay := Ticks(m, k).delay, sound := Ticks(m, k).sound)
    decreases k
  {
    if k > 0 {
      TicksCloseForm(Tick(m), k - 1);
    }
  }
}
