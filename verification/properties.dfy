/** What one cycle of the interpreter does, instruction by instruction, and
    what no cycle touches. */
module Properties {
  import opened Prelude
  import opened Layout
  import opened Screen
  import opened Keypad
  import opened Decoder
  import opened Alu
  import opened Machine
  import opened Interpreter

  /** The instruction the next cycle executes, if it gets that far. */
  function Current(s: State): Option<Instr>
  {
    if ValidPC(s.PC) then Decode(Fetch(s.memory, s.PC)) else None
  }

  /** A cycle either halts on its fetch or executes the current instruction. */
  lemma StepRunsCurrent(s: State, rnd: Byte)
    ensures Current(s).None? ==> Step(s, rnd).Halt?
    ensures Current(s).Some? ==>
      Fetches(s, Current(s).value) && Step(s, rnd) == Execute(s.(PC := s.PC + 2), Current(s).value, rnd)
  {
    if Current(s).Some? {
      StepDecodes(s, rnd);
    }
  }

  // ----- Frame: what an instruction leaves alone -----

  /** The parts of the state only some instructions write. */
  predicate Framed(s: State, i: Instr, r: State)
  {
    && r.keys == s.keys
    && r.stack[0] == s.stack[0]
    && (i.Call? || r.stack == s.stack)
    && (i.Bcd? || i.Store? || r.memory == s.memory)
    && (i.LdDtVx? || r.delay == s.delay)
    && (i.LdStVx? || r.sound == s.sound)
    && (i.LdKey? || r.waitingKey == s.waitingKey)
    && (i.Cls? || i.Drw? || (r.display == s.display && r.screenUpdated == s.screenUpdated))
  }

  lemma {:induction false} ExecuteAluFrame(s: State, i: Instr)
    requires FormOf(i) == 0x8
    ensures Framed(s, i, ExecuteAlu(s, i))
  {
  }

  lemma {:induction false} ExecuteMiscFrame(s: State, i: Instr)
    requires FormOf(i) == 0xF && ExecuteMisc(s, i).Ok?
    ensures Framed(s, i, ExecuteMisc(s, i).value)
  {
    match i
    case Bcd(x) =>
    case Store(x) =>
    case Load(x) =>
    case _ =>
  }

  lemma {:induction false} ExecuteFlowFrame(s: State, i: Instr, rnd: Byte)
    requires FormOf(i) != 0x8 && FormOf(i) != 0xF && ExecuteFlow(s, i, rnd).Ok?
    ensures Framed(s, i, ExecuteFlow(s, i, rnd).value)
  {
    match i
    case Call(nnn) =>
    case Drw(x, y, n) =>
    case _ =>
  }

  /** No cycle changes the keypad mask or stack slot 0; the stack changes
      only in 2nnn, memory only in Fx33 and Fx55, the timers only in Fx15
      and Fx18, the latch only in Fx0A and the display only in 00E0 and
      Dxyn. */
  lemma StepFrame(s: State, rnd: Byte)
    requires Step(s, rnd).Ok?
    ensures Current(s).Some?
    ensures Framed(s, Current(s).value, Step(s, rnd).value)
  {
    StepRunsCurrent(s, rnd);
    var i := Current(s).value;
    var t := s.(PC := s.PC + 2);
    if FormOf(i) == 0x8 {
      ExecuteAluFrame(t, i);
    } else if FormOf(i) == 0xF {
      ExecuteMiscFrame(t, i);
    } else {
      ExecuteFlowFrame(t, i, rnd);
    }
  }

  // ----- From a cycle to the rule of its instruction family -----

  lemma StepFlow(s: State, i: Instr, rnd: Byte)
    requires Fetches(s, i) && FormOf(i) != 0x8 && FormOf(i) != 0xF
    ensures Step(s, rnd) == ExecuteFlow(s.(PC := s.PC + 2), i, rnd)
  {
    StepExecutes(s, i, rnd);
  }

  lemma StepAlu(s: State, i: Instr, rnd: Byte)
    requires Fetches(s, i) && FormOf(i) == 0x8
    ensures Step(s, rnd) == Ok(ExecuteAlu(s.(PC := s.PC + 2), i))
  {
    StepExecutes(s, i, rnd);
  }

  lemma StepMiscYields(s: State, i: Instr, rnd: Byte, r: Result<State>)
    requires Fetches(s, i) && FormOf(i) == 0xF && ExecuteMisc(s.(PC := s.PC + 2), i) == r
    ensures Step(s, rnd) == r
  {
    StepExecutes(s, i, rnd);
  }

  lemma StepMisc(s: State, i: Instr, rnd: Byte)
    requires Fetches(s, i) && FormOf(i) == 0xF
    ensures Step(s, rnd) == ExecuteMisc(s.(PC := s.PC + 2), i)
  {
    StepExecutes(s, i, rnd);
  }

  // ----- Subroutines -----

  /** 2nnn halts with a stack overflow unless SP < 15; otherwise it pushes
      the address after the call into slot SP + 1 and jumps to nnn. */
  lemma CallPushes(s: State, nnn: Addr, rnd: Byte)
    requires Fetches(s, Call(nnn))
    ensures Step(s, rnd).Ok? <==> s.SP < StackSize - 1
    ensures Step(s, rnd).Halt? ==> Step(s, rnd).fault == StackOverflow
    ensures Step(s, rnd).Ok? ==>
      var r := Step(s, rnd).value;
      && r.SP == s.SP + 1 && r.stack[r.SP] == s.PC + 2 && r.PC == nnn
      && (forall k :: 0 <= k < StackSize && k != r.SP ==> r.stack[k] == s.stack[k])
      && r == s.(PC := nnn, SP := r.SP, stack := r.stack)
  {
    StepFlow(s, Call(nnn), rnd);
  }

  /** 00EE halts with a stack underflow on an empty stack (SP = 0, not a
      no-op); otherwise it jumps to the address in slot SP and pops it. */
  lemma RetPops(s: State, rnd: Byte)
    requires Fetches(s, Ret)
    ensures Step(s, rnd).Ok? <==> s.SP > 0
    ensures Step(s, rnd).Halt? ==> Step(s, rnd).fault == StackUnderflow
    ensures Step(s, rnd).Ok? ==>
      Step(s, rnd).value == s.(PC := s.stack[s.SP], SP := s.SP - 1)
  {
    StepFlow(s, Ret, rnd);
  }

  /** A call followed by a return resumes after the call with the stack
      pointer and everything but the used stack slot restored. */
  lemma CallThenRet(s: State, nnn: Addr, rnd: Byte, rnd': Byte)
    requires Fetches(s, Call(nnn)) && s.SP < StackSize - 1
    requires Fetches(Step(s, rnd).value, Ret)
    ensures Step(Step(s, rnd).value, rnd').Ok?
    ensures Step(Step(s, rnd).value, rnd').value == s.(PC := s.PC + 2, stack := s.stack[s.SP + 1 := s.PC + 2])
  {
    CallPushes(s, nnn, rnd);
    RetPops(Step(s, rnd).value, rnd');
  }

  /** At most StackSize - 1 calls nest: slot 0 is never used. */
  lemma CallDepth(s: State, nnn: Addr, rnd: Byte)
    requires Fetches(s, Call(nnn))
    ensures s.SP == StackSize - 1 ==> Step(s, rnd) == Halt(StackOverflow)
    ensures s.SP == StackSize - 2 ==> Step(s, rnd).Ok? && Step(s, rnd).value.SP == StackSize - 1
  {
    CallPushes(s, nnn, rnd);
  }

  // ----- Arithmetic -----

  /** r is t with Vx set to value and, unless x = F, VF set to 1 exactly
      when flag holds and to 0 otherwise; nothing else differs. */
  predicate FlagResult(t: State, x: Nibble, r: State, value: int, flag: bool)
  {
    && r.V[x] == value
    && (x != 0xF ==> (r.V[0xF] == 1 <==> flag) && r.V[0xF] <= 1)
    && (forall k :: 0 <= k < MaxRegisters && k != x && k != 0xF ==> r.V[k] == t.V[k])
    && r == t.(V := r.V)
  }

  lemma AddRegRule(t: State, x: Nibble, y: Nibble)
    ensures FlagResult(t, x, ExecuteAlu(t, AddReg(x, y)),
                       (t.V[x] as int + t.V[y]) % 0x100, t.V[x] as int + t.V[y] > 0xFF)
  {
  }

  lemma SubRule(t: State, x: Nibble, y: Nibble)
    ensures FlagResult(t, x, ExecuteAlu(t, Sub(x, y)), (t.V[x] as int - t.V[y]) % 0x100, t.V[x] >= t.V[y])
  {
  }

  lemma SubnRule(t: State, x: Nibble, y: Nibble)
    ensures FlagResult(t, x, ExecuteAlu(t, Subn(x, y)), (t.V[y] as int - t.V[x]) % 0x100, t.V[y] >= t.V[x])
  {
  }

  lemma ShrRule(t: State, x: Nibble, y: Nibble)
    ensures FlagResult(t, x, ExecuteAlu(t, Shr(x, y)),
                       (if y == 0xF then t.V[y] % 2 else t.V[y]) / 2, t.V[y] % 2 == 1)
  {
  }

  lemma ShlRule(t: State, x: Nibble, y: Nibble)
    ensures FlagResult(t, x, ExecuteAlu(t, Shl(x, y)),
                       (2 * ((if y == 0xF then t.V[y] / 0x80 else t.V[y]) as int)) % 0x100, t.V[y] >= 0x80)
  {
  }

  /** 8xy4: Vx becomes the sum modulo 256 and VF the carry; with x = F the
      sum replaces the carry. No other register changes. */
  lemma AddRegFlags(s: State, x: Nibble, y: Nibble, rnd: Byte)
    requires Fetches(s, AddReg(x, y))
    ensures Step(s, rnd).Ok?
    ensures FlagResult(s.(PC := s.PC + 2), x, Step(s, rnd).value,
                       (s.V[x] as int + s.V[y]) % 0x100, s.V[x] as int + s.V[y] > 0xFF)
  {
    StepAlu(s, AddReg(x, y), rnd);
    AddRegRule(s.(PC := s.PC + 2), x, y);
  }

  /** 8xy5: Vx becomes Vx - Vy modulo 256 and VF is 1 exactly when
      Vx >= Vy (no borrow); with x = F the difference replaces the flag. */
  lemma SubFlags(s: State, x: Nibble, y: Nibble, rnd: Byte)
    requires Fetches(s, Sub(x, y))
    ensures Step(s, rnd).Ok?
    ensures FlagResult(s.(PC := s.PC + 2), x, Step(s, rnd).value,
                       (s.V[x] as int - s.V[y]) % 0x100, s.V[x] >= s.V[y])
  {
    StepAlu(s, Sub(x, y), rnd);
    SubRule(s.(PC := s.PC + 2), x, y);
  }

  /** 8xy7: Vx becomes Vy - Vx modulo 256 and VF is 1 exactly when
      Vy >= Vx; with x = F the difference replaces the flag. */
  lemma SubnFlags(s: State, x: Nibble, y: Nibble, rnd: Byte)
    requires Fetches(s, Subn(x, y))
    ensures Step(s, rnd).Ok?
    ensures FlagResult(s.(PC := s.PC + 2), x, Step(s, rnd).value,
                       (s.V[y] as int - s.V[x]) % 0x100, s.V[y] >= s.V[x])
  {
    StepAlu(s, Subn(x, y), rnd);
    SubnRule(s.(PC := s.PC + 2), x, y);
  }

  /** 8xy6 shifts Vy, not Vx: VF becomes the low bit of Vy and Vx the value
      shifted right, where with y = F the value shifted is the flag just
      written. */
  lemma ShrFlags(s: State, x: Nibble, y: Nibble, rnd: Byte)
    requires Fetches(s, Shr(x, y))
    ensures Step(s, rnd).Ok?
    ensures FlagResult(s.(PC := s.PC + 2), x, Step(s, rnd).value,
                       (if y == 0xF then s.V[y] % 2 else s.V[y]) / 2, s.V[y] % 2 == 1)
  {
    StepAlu(s, Shr(x, y), rnd);
    ShrRule(s.(PC := s.PC + 2), x, y);
  }

  /** 8xyE shifts Vy, not Vx: VF becomes the high bit of Vy and Vx the
      value shifted left modulo 256, where with y = F the value shifted is
      the flag just written. */
  lemma ShlFlags(s: State, x: Nibble, y: Nibble, rnd: Byte)
    requires Fetches(s, Shl(x, y))
    ensures Step(s, rnd).Ok?
    ensures FlagResult(s.(PC := s.PC + 2), x, Step(s, rnd).value,
                       (2 * ((if y == 0xF then s.V[y] / 0x80 else s.V[y]) as int)) % 0x100, s.V[y] >= 0x80)
  {
    StepAlu(s, Shl(x, y), rnd);
    ShlRule(s.(PC := s.PC + 2), x, y);
  }

  /** 6xkk loads kk into Vx; nothing else but PC changes. */
  lemma LoadImmediate(s: State, x: Nibble, kk: Byte, rnd: Byte)
    requires Fetches(s, LdByte(x, kk))
    ensures Step(s, rnd) == Ok(s.(PC := s.PC + 2, V := s.V[x := kk]))
  {
    StepFlow(s, LdByte(x, kk), rnd);
  }

  /** 8xy0, 8xy1, 8xy2 and 8xy3 write Vy, Vx | Vy, Vx & Vy and Vx ^ Vy
      into Vx and leave VF alone unless x = F. */
  lemma RegisterLogic(s: State, i: Instr, rnd: Byte)
    requires i.LdReg? || i.Or? || i.And? || i.Xor?
    requires Fetches(s, i)
    ensures var a, b := s.V[i.x], s.V[i.y];
      Step(s, rnd) == Ok(s.(PC := s.PC + 2, V := s.V[i.x :=
        if i.LdReg? then b else if i.Or? then Or8(a, b) else if i.And? then And8(a, b) else Xor8(a, b)]))
  {
    StepAlu(s, i, rnd);
  }

  /** Annn loads nnn into I. */
  lemma LoadIndex(s: State, nnn: Addr, rnd: Byte)
    requires Fetches(s, LdI(nnn))
    ensures Step(s, rnd) == Ok(s.(PC := s.PC + 2, I := nnn))
  {
    StepFlow(s, LdI(nnn), rnd);
  }

  /** Fx1E adds Vx to I in 16-bit arithmetic and leaves VF alone. */
  lemma AddToIndex(s: State, x: Nibble, rnd: Byte)
    requires Fetches(s, AddI(x))
    ensures Step(s, rnd) == Ok(s.(PC := s.PC + 2, I := (s.I + s.V[x]) % 0x1_0000))
  {
    var t := s.(PC := s.PC + 2);
    AddIRule(t, x);
    StepMiscYields(s, AddI(x), rnd, Ok(s.(PC := s.PC + 2, I := (s.I + s.V[x]) % 0x1_0000)));
  }

  lemma AddIRule(t: State, x: Nibble)
    ensures ExecuteMisc(t, AddI(x)) == Ok(t.(I := (t.I + t.V[x]) % 0x1_0000))
  {
  }

  /** 7xkk adds modulo 256 and leaves VF alone unless x = F. */
  lemma AddByteWraps(s: State, x: Nibble, kk: Byte, rnd: Byte)
    requires Fetches(s, AddByte(x, kk))
    ensures Step(s, rnd) == Ok(s.(PC := s.PC + 2, V := s.V[x := (s.V[x] as int + kk) % 0x100]))
  {
    StepFlow(s, AddByte(x, kk), rnd);
  }

  /** Cxkk stores the random byte masked by kk in Vx and changes nothing
      else. */
  lemma RandomMasked(s: State, x: Nibble, kk: Byte, rnd: Byte)
    requires Fetches(s, Rnd(x, kk))
    ensures Step(s, rnd) == Ok(s.(PC := s.PC + 2, V := s.V[x := And8(rnd, kk)]))
  {
    StepFlow(s, Rnd(x, kk), rnd);
  }

  // ----- Skips and jumps -----

  /** The condition under which each conditional instruction skips. */
  predicate SkipCondition(s: State, i: Instr)
    requires i.SeByte? || i.SneByte? || i.SeReg? || i.SneReg? || i.Skp? || i.Sknp?
  {
    match i
    case SeByte(x, kk) => s.V[x] == kk
    case SneByte(x, kk) => s.V[x] != kk
    case SeReg(x, y) => s.V[x] == s.V[y]
    case SneReg(x, y) => s.V[x] != s.V[y]
    case Skp(x) => KeyPressed(s.keys, s.V[x])
    case Sknp(x) => !KeyPressed(s.keys, s.V[x])
  }

  lemma SkipRule(t: State, i: Instr, rnd: Byte)
    requires i.SeByte? || i.SneByte? || i.SeReg? || i.SneReg? || i.Skp? || i.Sknp?
    ensures ExecuteFlow(t, i, rnd) == Ok(SkipIf(t, SkipCondition(t, i)))
  {
  }

  /** A conditional instruction moves PC past itself and, when its
      condition holds, past the next instruction too; nothing else changes. */
  lemma ConditionalSkip(s: State, i: Instr, rnd: Byte)
    requires i.SeByte? || i.SneByte? || i.SeReg? || i.SneReg? || i.Skp? || i.Sknp?
    requires Fetches(s, i)
    ensures Step(s, rnd) == Ok(s.(PC := s.PC + if SkipCondition(s, i) then 4 else 2))
  {
    var t := s.(PC := s.PC + 2);
    StepFlow(s, i, rnd);
    SkipRule(t, i, rnd);
    SkipWithoutWrap(t, SkipCondition(t, i));
  }

  /** Below 2^16 - 2 a skip does not wrap. */
  lemma SkipWithoutWrap(t: State, c: bool)
    requires t.PC + 2 < 0x1_0000
    ensures SkipIf(t, c) == t.(PC := t.PC + if c then 2 else 0)
  {
  }

  /** Jumps are not checked when taken: 1nnn can leave program space, and
      only the next fetch halts. */
  lemma JumpOutOfProgramSpace(s: State, rnd: Byte, rnd': Byte)
    requires Fetches(s, Jp(0x100))
    ensures Step(s, rnd) == Ok(s.(PC := 0x100))
    ensures Step(s.(PC := 0x100), rnd') == Halt(PcOutOfRange(0x100))
  {
    StepFlow(s, Jp(0x100), rnd);
  }

  /** 1nnn jumps to nnn and changes nothing else. */
  lemma JumpTaken(s: State, nnn: Addr, rnd: Byte)
    requires Fetches(s, Jp(nnn))
    ensures Step(s, rnd) == Ok(s.(PC := nnn))
  {
    StepFlow(s, Jp(nnn), rnd);
  }

  /** Bnnn jumps to nnn + V0 without wrapping. */
  lemma JumpOffset(s: State, nnn: Addr, rnd: Byte)
    requires Fetches(s, JpV0(nnn))
    ensures Step(s, rnd) == Ok(s.(PC := nnn + s.V[0]))
  {
    StepFlow(s, JpV0(nnn), rnd);
  }

  // ----- Display -----

  /** 00E0 clears every pixel and owes the renderer a redraw. */
  lemma ClearClears(s: State, rnd: Byte)
    requires Fetches(s, Cls)
    ensures Step(s, rnd).Ok?
    ensures var r := Step(s, rnd).value;
      && (forall c :: 0 <= c < Width * Height ==> !r.display[c])
      && r == s.(PC := s.PC + 2, display := r.display, screenUpdated := true)
  {
    StepFlow(s, Cls, rnd);
  }

  /** The sprite Dxyn draws: VF is cleared first, so a coordinate register
      that is VF reads as 0. */
  function SpriteOf(s: State, x: Nibble, y: Nibble, n: Nibble): Sprite
    requires s.I + n < MaxMemory
  {
    Sprite(if x == 0xF then 0 else s.V[x], if y == 0xF then 0 else s.V[y], s.memory[s.I..s.I + n])
  }

  /** r is t after the sprite of Dxyn is drawn: every cell under the sprite
      is XORed with the sprite pixel over it, every other cell is kept, VF
      is 1 exactly when some set pixel was unset, V0..VE are kept, and a
      redraw is owed. */
  ghost predicate SpriteDrawn(t: State, x: Nibble, y: Nibble, n: Nibble, r: State)
    requires t.I + n < MaxMemory
  {
    var sp := SpriteOf(t, x, y, n);
    && (forall c :: 0 <= c < Width * Height ==>
          r.display[c] == if InFootprint(sp, c) then t.display[c] != Ink(sp, Ordinal(sp, c)) else t.display[c])
    && (r.V[0xF] == 1 <==> Collided(t.display, r.display)) && r.V[0xF] <= 1
    && (forall k :: 0 <= k < MaxRegisters && k != 0xF ==> r.V[k] == t.V[k])
    && r == t.(V := r.V, display := r.display, screenUpdated := true)
  }

  /** Dxyn halts unless I + n < 4096; otherwise it draws its sprite. */
  lemma DrawEffect(s: State, x: Nibble, y: Nibble, n: Nibble, rnd: Byte)
    requires Fetches(s, Drw(x, y, n))
    ensures Step(s, rnd).Ok? <==> s.I + n < MaxMemory
    ensures Step(s, rnd).Halt? ==> Step(s, rnd).fault == SpriteOutOfBounds(s.I, n)
    ensures Step(s, rnd).Ok? ==> SpriteDrawn(s.(PC := s.PC + 2), x, y, n, Step(s, rnd).value)
  {
    StepFlow(s, Drw(x, y, n), rnd);
    DrawRule(s.(PC := s.PC + 2), x, y, n);
  }

  lemma DrawRule(t: State, x: Nibble, y: Nibble, n: Nibble)
    ensures DrawSprite(t, x, y, n).Ok? <==> t.I + n < MaxMemory
    ensures DrawSprite(t, x, y, n).Halt? ==> DrawSprite(t, x, y, n).fault == SpriteOutOfBounds(t.I, n)
    ensures DrawSprite(t, x, y, n).Ok? ==> SpriteDrawn(t, x, y, n, DrawSprite(t, x, y, n).value)
  {
    if t.I + n < MaxMemory {
      var v := t.V[0xF := 0];
      assert Sprite(v[x], v[y], t.memory[t.I..t.I + n]) == SpriteOf(t, x, y, n);
    }
  }

  /** Executing the same Dxyn twice at the same place restores the display.
      This holds with VF as a coordinate register too: VF is cleared before
      the origin is read, so that coordinate is 0 both times. */
  lemma DrawAgainRestores(s: State, x: Nibble, y: Nibble, n: Nibble, rnd: Byte, rnd': Byte)
    requires Fetches(s, Drw(x, y, n)) && s.I + n < MaxMemory
    ensures Step(s, rnd).Ok?
    ensures var t := Step(s, rnd).value.(PC := s.PC);
      Step(t, rnd').Ok? && Step(t, rnd').value.display == s.display
  {
    DrawEffect(s, x, y, n, rnd);
    var t := Step(s, rnd).value.(PC := s.PC);
    DrawEffect(t, x, y, n, rnd');
    assert SpriteOf(t.(PC := t.PC + 2), x, y, n) == SpriteOf(s.(PC := s.PC + 2), x, y, n);
    DrawTwiceRestores(s.display, SpriteOf(s, x, y, n));
  }

  // ----- Memory -----

  /** r is t with the three decimal digits of Vx, each at most 9, written
      at I, I + 1 and I + 2 and no other byte changed. */
  predicate BcdWritten(t: State, x: Nibble, r: State)
    requires t.I + 2 < MaxMemory
  {
    && r.memory[t.I] <= 9 && r.memory[t.I + 1] <= 9 && r.memory[t.I + 2] <= 9
    && 100 * (r.memory[t.I] as int) + 10 * (r.memory[t.I + 1] as int) + (r.memory[t.I + 2] as int) == t.V[x]
    && (forall a :: 0 <= a < MaxMemory && !(t.I <= a <= t.I + 2) ==> r.memory[a] == t.memory[a])
    && r == t.(memory := r.memory)
  }

  lemma BcdRule(t: State, x: Nibble)
    ensures ExecuteMisc(t, Bcd(x)).Ok? <==> t.I + 2 < MaxMemory
    ensures ExecuteMisc(t, Bcd(x)).Halt? ==> ExecuteMisc(t, Bcd(x)).fault == BcdOutOfBounds(t.I)
    ensures t.I + 2 < MaxMemory ==> BcdWritten(t, x, ExecuteMisc(t, Bcd(x)).value)
  {
  }

  /** Fx33 halts unless I + 2 < 4096; otherwise it writes the three decimal
      digits of Vx at I, I + 1 and I + 2 and nothing else. */
  lemma BcdDigitsStored(s: State, x: Nibble, rnd: Byte)
    requires Fetches(s, Bcd(x))
    ensures Step(s, rnd).Ok? <==> s.I + 2 < MaxMemory
    ensures Step(s, rnd).Halt? ==> Step(s, rnd).fault == BcdOutOfBounds(s.I)
    ensures s.I + 2 < MaxMemory ==> BcdWritten(s.(PC := s.PC + 2), x, Step(s, rnd).value)
  {
    StepMisc(s, Bcd(x), rnd);
    BcdRule(s.(PC := s.PC + 2), x);
  }

  /** r is t with V0..Vx copied to I..I + x, no other byte changed, and I
      moved past them. */
  predicate RegistersStored(t: State, x: Nibble, r: State)
    requires t.I + x < MaxMemory
  {
    && (forall a :: 0 <= a < MaxMemory ==>
          r.memory[a] == if t.I <= a <= t.I + x then t.V[a - t.I] else t.memory[a])
    && r == t.(memory := r.memory, I := t.I + x + 1)
  }

  /** r is t with V0..Vx read from I..I + x, the other registers kept, and
      I moved past them. */
  predicate RegistersLoaded(t: State, x: Nibble, r: State)
    requires t.I + x < MaxMemory
  {
    && (forall k :: 0 <= k < MaxRegisters ==> r.V[k] == if k <= x then t.memory[t.I + k] else t.V[k])
    && r == t.(V := r.V, I := t.I + x + 1)
  }

  lemma StoreRule(t: State, x: Nibble)
    ensures ExecuteMisc(t, Store(x)).Ok? <==> t.I + x < MaxMemory
    ensures ExecuteMisc(t, Store(x)).Halt? ==> ExecuteMisc(t, Store(x)).fault == StoreOutOfBounds(t.I, x)
    ensures t.I + x < MaxMemory ==> RegistersStored(t, x, ExecuteMisc(t, Store(x)).value)
  {
  }

  lemma LoadRule(t: State, x: Nibble)
    ensures ExecuteMisc(t, Load(x)).Ok? <==> t.I + x < MaxMemory
    ensures ExecuteMisc(t, Load(x)).Halt? ==> ExecuteMisc(t, Load(x)).fault == LoadOutOfBounds(t.I, x)
    ensures t.I + x < MaxMemory ==> RegistersLoaded(t, x, ExecuteMisc(t, Load(x)).value)
  {
  }

  /** Fx55 halts unless I + x < 4096; otherwise V0..Vx land at I..I + x,
      no other byte changes, and I moves past them. */
  lemma StoreEffect(s: State, x: Nibble, rnd: Byte)
    requires Fetches(s, Store(x))
    ensures Step(s, rnd).Ok? <==> s.I + x < MaxMemory
    ensures Step(s, rnd).Halt? ==> Step(s, rnd).fault == StoreOutOfBounds(s.I, x)
    ensures s.I + x < MaxMemory ==> RegistersStored(s.(PC := s.PC + 2), x, Step(s, rnd).value)
  {
    StepMisc(s, Store(x), rnd);
    StoreRule(s.(PC := s.PC + 2), x);
  }

  /** Fx65 halts unless I + x < 4096; otherwise V0..Vx are read from
      I..I + x, the other registers are kept, and I moves past them. */
  lemma LoadEffect(s: State, x: Nibble, rnd: Byte)
    requires Fetches(s, Load(x))
    ensures Step(s, rnd).Ok? <==> s.I + x < MaxMemory
    ensures Step(s, rnd).Halt? ==> Step(s, rnd).fault == LoadOutOfBounds(s.I, x)
    ensures s.I + x < MaxMemory ==> RegistersLoaded(s.(PC := s.PC + 2), x, Step(s, rnd).value)
  {
    StepMisc(s, Load(x), rnd);
    LoadRule(s.(PC := s.PC + 2), x);
  }

  /** Storing V0..Vx with Fx55 and loading them back with Fx65 from the
      same base restores them. */
  lemma StoreThenLoadRestores(s: State, x: Nibble, u: State, rnd: Byte, rnd': Byte)
    requires Fetches(s, Store(x)) && s.I + x < MaxMemory
    requires Fetches(u, Load(x)) && u.I == s.I && u.memory == StoreRegisters(s.memory, s.I, s.V, x)
    ensures Step(s, rnd).Ok? && Step(s, rnd).value.memory == u.memory
    ensures Step(u, rnd').Ok?
    ensures forall k :: 0 <= k <= x ==> Step(u, rnd').value.V[k] == s.V[k]
  {
    StepMisc(s, Store(x), rnd);
    LoadEffect(u, x, rnd');
  }

  // ----- Font, timers and keys -----

  /** The font table is where the interpreter put it. */
  predicate FontIntact(m: Memory)
  {
    forall k :: 0 <= k < |Font| ==> m[FontBase + k] == Font[k]
  }

  /** Fx29 points I at the glyph of the low nibble of Vx. */
  lemma FontPointsAtGlyph(s: State, x: Nibble, rnd: Byte)
    requires Fetches(s, LdFont(x))
    ensures Step(s, rnd).Ok?
    ensures var r := Step(s, rnd).value;
      && r.I == FontBase + GlyphSize * (s.V[x] % 0x10)
      && r == s.(PC := s.PC + 2, I := r.I)
      && (FontIntact(s.memory) ==>
            forall k :: 0 <= k < GlyphSize ==> r.memory[r.I + k] == Glyph(s.V[x] % 0x10)[k])
  {
    StepMisc(s, LdFont(x), rnd);
  }

  /** Fx0A only arms the latch for register x; PC has moved past it. */
  lemma WaitArmsLatch(s: State, x: Nibble, rnd: Byte)
    requires Fetches(s, LdKey(x))
    ensures Step(s, rnd).Ok?
    ensures var r := Step(s, rnd).value;
      && LatchArmed(r.waitingKey) && LatchRegister(r.waitingKey) == x
      && r == s.(PC := s.PC + 2, waitingKey := ArmLatch(x))
  {
    StepMisc(s, LdKey(x), rnd);
    LatchEncoding(x, 0);
  }

  /** Fx15 loads the delay timer from Vx. */
  lemma DelayFromRegister(s: State, x: Nibble, rnd: Byte)
    requires Fetches(s, LdDtVx(x))
    ensures Step(s, rnd) == Ok(s.(PC := s.PC + 2, delay := s.V[x]))
  {
    StepMisc(s, LdDtVx(x), rnd);
  }

  /** Fx18 loads the sound timer from Vx. */
  lemma SoundFromRegister(s: State, x: Nibble, rnd: Byte)
    requires Fetches(s, LdStVx(x))
    ensures Step(s, rnd) == Ok(s.(PC := s.PC + 2, sound := s.V[x]))
  {
    StepMisc(s, LdStVx(x), rnd);
  }

  /** Fx07 copies the delay timer into Vx. */
  lemma DelayToRegister(s: State, x: Nibble, rnd: Byte)
    requires Fetches(s, LdVxDt(x))
    ensures Step(s, rnd) == Ok(s.(PC := s.PC + 2, V := s.V[x := s.delay]))
  {
    StepMisc(s, LdVxDt(x), rnd);
  }
}
