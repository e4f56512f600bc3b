/** One fetch-decode-execute cycle of the interpreter (ExecuteInstruction):
    every failed assertion of the source is a Halt with its Fault. */
module Interpreter {
  import opened Prelude
  import opened Layout
  import opened Screen
  import opened Keypad
  import opened Decoder
  import opened Alu
  import opened Machine

  /** PC may be fetched from: inside program space and even. */
  predicate ValidPC(pc: Word)
  {
    ProgramSpace <= pc < MaxMemory && pc % 2 == 0
  }

  /** The big-endian opcode at pc. */
  function Fetch(m: Memory, pc: Word): Word
    requires pc + 1 < MaxMemory
  {
    var hi: int, lo: int := m[pc], m[pc + 1];
    0x100 * hi + lo
  }

  /** The first byte fetched is the opcode's high byte, the second its low
      byte. */
  lemma FetchBigEndian(m: Memory, pc: Word)
    requires pc + 1 < MaxMemory
    ensures Fetch(m, pc) / 0x100 == m[pc] && Fetch(m, pc) % 0x100 == m[pc + 1]
    ensures FieldKK(Fetch(m, pc)) == m[pc + 1]
  {
  }

  /** The conditional skips: PC moves exactly when c holds, and then by one
      instruction in 16-bit arithmetic; nothing else changes. */
  function SkipIf(s: State, c: bool): (r: State)
    ensures r.PC != s.PC <==> c
    ensures c ==> (r.PC - s.PC) % 0x1_0000 == 2
    ensures r == s.(PC := r.PC)
  {
    if c then s.(PC := Wrap16(s.PC + 2)) else s
  }

  /** Fx29: the address of the glyph of the low nibble of v, inside the
      font table. */
  function FontAddress(v: Byte): (a: Word)
    ensures FontBase <= a && a + GlyphSize <= FontBase + |Font|
    ensures (a - FontBase) % GlyphSize == 0 && (a - FontBase) / GlyphSize == v % 0x10
  {
    FontBase + GlyphSize * LowNibble(v)
  }

  /** Fx33: the digits of v written at a, a + 1 and a + 2. */
  function WriteBcd(m: Memory, a: Word, v: Byte): (r: Memory)
    requires a + 2 < MaxMemory
    ensures r[a] == BcdDigits(v).0 && r[a + 1] == BcdDigits(v).1 && r[a + 2] == BcdDigits(v).2
    ensures forall b :: 0 <= b < MaxMemory && !(a <= b <= a + 2) ==> r[b] == m[b]
  {
    var d := BcdDigits(v);
    m[a := d.0][a + 1 := d.1][a + 2 := d.2]
  }

  /** Fx55: V0..Vx copied to base..base + x; the rest of memory is kept. */
  function StoreRegisters(m: Memory, base: Word, v: Registers, x: Nibble): (r: Memory)
    requires base + x < MaxMemory
    ensures forall a :: 0 <= a < MaxMemory ==> r[a] == if base <= a <= base + x then v[a - base] else m[a]
  {
    m[..base] + v[..x + 1] + m[base + x + 1..]
  }

  /** Fx65: V0..Vx read from base..base + x; the other registers are kept. */
  function LoadRegisters(v: Registers, m: Memory, base: Word, x: Nibble): (r: Registers)
    requires base + x < MaxMemory
    ensures forall k :: 0 <= k < MaxRegisters ==> r[k] == if k <= x then m[base + k] else v[k]
  {
    m[base..base + x + 1] + v[x + 1..]
  }

  /** The rule of instruction i applied to s, whose PC has already been
      advanced past i. rnd is the byte the random generator yields. */
  function Execute(s: State, i: Instr, rnd: Byte): Result<State>
  {
    if FormOf(i) == 0x8 then Ok(ExecuteAlu(s, i))
    else if FormOf(i) == 0xF then ExecuteMisc(s, i)
    else ExecuteFlow(s, i, rnd)
  }

  /** The register-to-register forms 8xyz. In 8xy4, 8xy5 and 8xy7 the flag
      is written before Vx, so with x = F the result replaces the flag. */
  function ExecuteAlu(s: State, i: Instr): State
    requires FormOf(i) == 0x8
  {
    match i
    case LdReg(x, y) => s.(V := s.V[x := s.V[y]])
    case Or(x, y) => s.(V := s.V[x := Or8(s.V[x], s.V[y])])
    case And(x, y) => s.(V := s.V[x := And8(s.V[x], s.V[y])])
    case Xor(x, y) => s.(V := s.V[x := Xor8(s.V[x], s.V[y])])
    case AddReg(x, y) => WithFlag(s, x, AddWithCarry(s.V[x], s.V[y]))
    case Sub(x, y) => WithFlag(s, x, SubWithBorrow(s.V[x], s.V[y]))
    case Shr(x, y) =>
      // the flag is written first and V[y] read again afterwards
      var v := s.V[0xF := LowBit(s.V[y])];
      s.(V := v[x := HalfOf(v[y])])
    case Subn(x, y) => WithFlag(s, x, SubWithBorrow(s.V[y], s.V[x]))
    case Shl(x, y) =>
      var v := s.V[0xF := HighBit(s.V[y])];
      s.(V := v[x := DoubleOf(v[y])])
  }

  /** VF := r.1, then Vx := r.0. */
  function WithFlag(s: State, x: Nibble, r: (Byte, Byte)): State
  {
    s.(V := s.V[0xF := r.1][x := r.0])
  }

  /** The timer, key, I and memory forms Fxkk. */
  function ExecuteMisc(s: State, i: Instr): Result<State>
    requires FormOf(i) == 0xF
  {
    match i
    case LdVxDt(x) => Ok(s.(V := s.V[x := s.delay]))
    case LdKey(x) => Ok(s.(waitingKey := ArmLatch(x)))
    case LdDtVx(x) => Ok(s.(delay := s.V[x]))
    case LdStVx(x) => Ok(s.(sound := s.V[x]))
    case AddI(x) => Ok(s.(I := Wrap16(s.I + s.V[x])))
    case LdFont(x) => Ok(s.(I := FontAddress(s.V[x])))
    case Bcd(x) =>
      if s.I + 2 < MaxMemory then Ok(s.(memory := WriteBcd(s.memory, s.I, s.V[x])))
      else Halt(BcdOutOfBounds(s.I))
    case Store(x) =>
      if s.I + x < MaxMemory then Ok(s.(memory := StoreRegisters(s.memory, s.I, s.V, x), I := s.I + x + 1))
      else Halt(StoreOutOfBounds(s.I, x))
    case Load(x) =>
      if s.I + x < MaxMemory then Ok(s.(V := LoadRegisters(s.V, s.memory, s.I, x), I := s.I + x + 1))
      else Halt(LoadOutOfBounds(s.I, x))
  }

  /** Dxyn: VF is cleared before the origin is read from Vx and Vy, so with
      x = F or y = F that coordinate is 0; the n rows come from I onwards. */
  function DrawSprite(s: State, x: Nibble, y: Nibble, n: Nibble): Result<State>
  {
    if s.I + n < MaxMemory then
      var v := s.V[0xF := 0];
      var r := Draw(s.display, Sprite(v[x], v[y], s.memory[s.I..s.I + n]));
      Ok(s.(V := v[0xF := if r.1 then 1 else 0], display := r.0, screenUpdated := true))
    else Halt(SpriteOutOfBounds(s.I, n))
  }

  /** Control flow, immediates, skips and the display. */
  function ExecuteFlow(s: State, i: Instr, rnd: Byte): Result<State>
    requires FormOf(i) != 0x8 && FormOf(i) != 0xF
  {
    match i
    case Cls => Ok(ClearScreen(s))
    case Ret =>
      if s.SP > 0 then Ok(s.(PC := s.stack[s.SP], SP := s.SP - 1))
      else Halt(StackUnderflow)
    case Jp(nnn) => Ok(s.(PC := nnn))
    case Call(nnn) =>
      // the push pre-increments SP, so slot 0 is never written
      if s.SP < StackSize - 1 then
        Ok(s.(SP := s.SP + 1, stack := s.stack[s.SP + 1 := s.PC], PC := nnn))
      else Halt(StackOverflow)
    case SeByte(x, kk) => Ok(SkipIf(s, s.V[x] == kk))
    case SneByte(x, kk) => Ok(SkipIf(s, s.V[x] != kk))
    case SeReg(x, y) => Ok(SkipIf(s, s.V[x] == s.V[y]))
    case LdByte(x, kk) => Ok(s.(V := s.V[x := kk]))
    case AddByte(x, kk) => Ok(s.(V := s.V[x := Wrap8(s.V[x] + kk)]))
    case SneReg(x, y) => Ok(SkipIf(s, s.V[x] != s.V[y]))
    case LdI(nnn) => Ok(s.(I := nnn))
    case JpV0(nnn) => Ok(s.(PC := nnn + s.V[0]))
    case Rnd(x, kk) => Ok(s.(V := s.V[x := And8(rnd, kk)]))
    case Drw(x, y, n) => DrawSprite(s, x, y, n)
    case Skp(x) => Ok(SkipIf(s, KeyPressed(s.keys, s.V[x])))
    case Sknp(x) => Ok(SkipIf(s, !KeyPressed(s.keys, s.V[x])))
  }

  /** One cycle: check PC, fetch the opcode, advance PC by 2, decode, and
      apply the instruction's rule. */
  function Step(s: State, rnd: Byte): (r: Result<State>)
    ensures !ValidPC(s.PC) ==> r == Halt(PcOutOfRange(s.PC))
    ensures ValidPC(s.PC) && Decode(Fetch(s.memory, s.PC)).None? ==>
      r == Halt(UnhandledOpcode(Fetch(s.memory, s.PC)))
    ensures r.Halt? && r.fault.PcOutOfRange? ==> !ValidPC(s.PC)
    ensures r.Halt? && r.fault.UnhandledOpcode? ==>
      ValidPC(s.PC) && Decode(Fetch(s.memory, s.PC)).None? && r.fault.opcode == Fetch(s.memory, s.PC)
  {
    if !ValidPC(s.PC) then Halt(PcOutOfRange(s.PC))
    else
      var op := Fetch(s.memory, s.PC);
      match Decode(op)
      case None => Halt(UnhandledOpcode(op))
      case Some(i) => Execute(s.(PC := s.PC + 2), i, rnd)
  }

  /** The instruction at PC is i. */
  predicate Fetches(s: State, i: Instr)
  {
    ValidPC(s.PC) && Fetch(s.memory, s.PC) == Encode(i)
  }

  /** A cycle that fetches i applies i's rule after advancing PC. */
  lemma StepExecutes(s: State, i: Instr, rnd: Byte)
    requires Fetches(s, i)
    ensures Step(s, rnd) == Execute(s.(PC := s.PC + 2), i, rnd)
  {
    DecodeEncode(i);
  }

  /** Every cycle that does not halt on its fetch executes exactly one
      decoded instruction. */
  lemma StepDecodes(s: State, rnd: Byte)
    requires ValidPC(s.PC) && Decode(Fetch(s.memory, s.PC)).Some?
    ensures Fetches(s, Decode(Fetch(s.memory, s.PC)).value)
  {
    EncodeDecode(Fetch(s.memory, s.PC));
  }
}
