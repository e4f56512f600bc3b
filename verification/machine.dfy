/** The machine state of the interpreter, its fatal conditions, the keypad
    mask and wait latch, and the operations that give the initial state:
    Reset, ClearScreen and program loading. */
module Machine {
  import opened Prelude
  import opened Layout
  import opened Screen
  import opened Keypad

  /** The 16 general purpose registers V0..VF; VF doubles as the flag. */
  type Registers = v: seq<Byte> | |v| == MaxRegisters witness seq(MaxRegisters, _ => 0)

  /** The 4 KiB address space. */
  type Memory = m: seq<Byte> | |m| == MaxMemory witness seq(MaxMemory, _ => 0)

  /** The return-address slots of the call stack. */
  type CallStack = s: seq<Word> | |s| == StackSize witness seq(StackSize, _ => 0)

  /** The stack pointer indexes the most recently pushed slot; the push in
      CALL pre-increments, so slot 0 is never written and at most
      StackSize - 1 calls nest. */
  type StackIndex = i: int | 0 <= i < StackSize

  /** Everything one instruction can read or write. Registers and memory
      are separate fields: the font and programs live in memory, the
      registers do not. */
  datatype State = State(
    V: Registers,
    I: Word,
    PC: Word,
    stack: CallStack,
    SP: StackIndex,
    waitingKey: bv8,
    delay: Byte,
    sound: Byte,
    memory: Memory,
    display: Display,
    screenUpdated: bool,
    keys: bv16)

  /** The conditions under which the interpreter stops with a failed
      assertion. */
  datatype Fault =
    | PcOutOfRange(pc: Word)
    | StackUnderflow
    | StackOverflow
    | SpriteOutOfBounds(address: Word, rows: Nibble)
    | BcdOutOfBounds(address: Word)
    | StoreOutOfBounds(address: Word, last: Nibble)
    | LoadOutOfBounds(address: Word, last: Nibble)
    | UnhandledOpcode(opcode: Word)

  /** The outcome of running something: a value, or a halt with the fault. */
  datatype Result<+T> = Ok(value: T) | Halt(fault: Fault) {
    predicate IsFailure()
    {
      Halt?
    }

    function PropagateFailure<U>(): Result<U>
      requires Halt?
    {
      Halt(fault)
    }

    function Extract(): T
      requires Ok?
    {
      value
    }
  }

  // ----- Initial state -----

  /** The state every program starts from: registers, I, timers, keypad and
      latch zero, PC at the start of program space, stack empty, display
      cleared and owed to the renderer. */
  predicate IsReset(s: State)
  {
    && (forall r :: 0 <= r < MaxRegisters ==> s.V[r] == 0)
    && s.I == 0 && s.PC == ProgramSpace && s.SP == 0
    && s.delay == 0 && s.sound == 0
    && s.keys == 0 && s.waitingKey == 0
    && (forall c :: 0 <= c < Width * Height ==> !s.display[c])
    && s.screenUpdated
  }

  /** Clears every pixel and marks the display as changed; nothing else
      changes. */
  function ClearScreen(s: State): (r: State)
    ensures forall c :: 0 <= c < Width * Height ==> !r.display[c]
    ensures r.screenUpdated
    ensures r == s.(display := r.display, screenUpdated := true)
  {
    s.(display := Blank(), screenUpdated := true)
  }

  /** Resets the registers, timers, keypad and latch and clears the screen.
      Memory (font and program) and the stack slots are kept. */
  function Reset(s: State): (r: State)
    ensures IsReset(r)
    ensures r.memory == s.memory && r.stack == s.stack
  {
    ClearScreen(s.(
      SP := 0,
      PC := ProgramSpace,
      V := seq(MaxRegisters, _ => 0),
      I := 0,
      delay := 0,
      sound := 0,
      keys := 0,
      waitingKey := 0))
  }

  /** Two states that agree on memory and stack are the same after a reset. */
  lemma ResetForgetsRegisters(s: State, t: State)
    requires s.memory == t.memory && s.stack == t.stack
    ensures Reset(s) == Reset(t)
  {
    assert Reset(s).V == Reset(t).V;
  }

  /** Memory at power-on: zero except the font table at FontBase. */
  function PowerOnMemory(): (m: Memory)
    ensures forall k :: 0 <= k < |Font| ==> m[FontBase + k] == Font[k]
    ensures forall a :: 0 <= a < MaxMemory && !(FontBase <= a < FontBase + |Font|) ==> m[a] == 0
  {
    seq(MaxMemory, a => if FontBase <= a < FontBase + |Font| then Font[a - FontBase] else 0)
  }

  /** The state after construction: font copied in, everything else zero,
      then reset. */
  function PowerOn(): (s: State)
    ensures IsReset(s)
    ensures forall d: Nibble, k :: 0 <= k < GlyphSize ==> s.memory[FontBase + GlyphSize * d + k] == Glyph(d)[k]
  {
    var zero := State(seq(MaxRegisters, _ => 0), 0, 0, seq(StackSize, _ => 0), 0, 0, 0, 0,
                      PowerOnMemory(), Blank(), false, 0);
    Reset(zero)
  }

  /** Outcome of loading a program image. */
  datatype Load = Loaded(state: State) | BadSize(size: nat)

  /** Loads a program image of 1 to MaxProgramSize bytes at ProgramSpace
      and resets; an empty or oversized image is refused and nothing
      changes. Memory beyond the image keeps its old contents. */
  function LoadProgram(s: State, program: seq<Byte>): (r: Load)
    ensures r.Loaded? <==> 0 < |program| <= MaxProgramSize
    ensures r.BadSize? ==> r.size == |program|
    ensures r.Loaded? ==> IsReset(r.state) && r.state.stack == s.stack
    ensures r.Loaded? ==> forall k :: 0 <= k < |program| ==> r.state.memory[ProgramSpace + k] == program[k]
    ensures r.Loaded? ==> forall a :: 0 <= a < MaxMemory && !(ProgramSpace <= a < ProgramSpace + |program|) ==>
      r.state.memory[a] == s.memory[a]
  {
    if |program| == 0 || |program| > MaxProgramSize then BadSize(|program|)
    else
      var m := s.memory[..ProgramSpace] + program + s.memory[ProgramSpace + |program|..];
      Loaded(Reset(s.(memory := m)))
  }
}
