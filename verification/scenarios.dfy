/** Concrete runs of the machine: short programs and inputs whose outcome
    follows from the general rules. */
module Scenarios {
  import opened Prelude
  import opened Layout
  import opened Screen
  import opened Keypad
  import opened Decoder
  import opened Machine
  import opened Interpreter
  import opened Properties
  import opened Scheduler

  /** 6A12 then FA15 load 0x12 into the delay timer; after n elapsed
      frames it reads 0x12 - n, and 0 once n reaches 0x12. */
  lemma DelayCountdown(s: State, rnd: Byte, rnd': Byte, n: int)
    requires ValidPC(s.PC) && s.PC + 3 < MaxMemory
    requires s.memory[s.PC] == 0x6A && s.memory[s.PC + 1] == 0x12
    requires s.memory[s.PC + 2] == 0xFA && s.memory[s.PC + 3] == 0x15
    requires n > 0
    ensures Step(s, rnd).Ok? && Step(Step(s, rnd).value, rnd').Ok?
    ensures var t := Step(Step(s, rnd).value, rnd').value;
      && t.delay == 0x12 && t.PC == s.PC + 4
      && Tick(t, n).0.delay == (if n < 0x12 then 0x12 - n else 0)
  {
    assert Fetch(s.memory, s.PC) == Encode(LdByte(0xA, 0x12));
    StepFlow(s, LdByte(0xA, 0x12), rnd);
    var u := Step(s, rnd).value;
    assert u == s.(PC := s.PC + 2, V := s.V[0xA := 0x12]);
    assert Fetch(u.memory, u.PC) == Encode(LdDtVx(0xA));
    DelayFromRegister(u, 0xA, rnd');
  }

  /** 8xy4 with Vx = 0xFF and Vy = 2 leaves Vx = 1 and VF = 1; with
      Vx = Vy = 1 it leaves Vx = 2 and VF = 0. */
  lemma AddCarryExamples(s: State, x: Nibble, y: Nibble, rnd: Byte)
    requires Fetches(s, AddReg(x, y)) && x != 0xF
    ensures Step(s, rnd).Ok?
    ensures s.V[x] == 0xFF && s.V[y] == 0x02 ==> Step(s, rnd).value.V[x] == 0x01 && Step(s, rnd).value.V[0xF] == 1
    ensures s.V[x] == 0x01 && s.V[y] == 0x01 ==> Step(s, rnd).value.V[x] == 0x02 && Step(s, rnd).value.V[0xF] == 0
  {
    StepAlu(s, AddReg(x, y), rnd);
    AddCarryRuleExamples(s.(PC := s.PC + 2), x, y);
  }

  lemma AddCarryRuleExamples(t: State, x: Nibble, y: Nibble)
    requires x != 0xF
    ensures t.V[x] == 0xFF && t.V[y] == 0x02 ==>
      ExecuteAlu(t, AddReg(x, y)).V[x] == 0x01 && ExecuteAlu(t, AddReg(x, y)).V[0xF] == 1
    ensures t.V[x] == 0x01 && t.V[y] == 0x01 ==>
      ExecuteAlu(t, AddReg(x, y)).V[x] == 0x02 && ExecuteAlu(t, AddReg(x, y)).V[0xF] == 0
  {
    AddRegRule(t, x, y);
  }

  /** Every pixel of the one-row sprite 0xFF is set. */
  lemma FullRowInk(sp: Sprite, k: nat)
    requires sp.rows == [0xFF] && k < 8
    ensures Ink(sp, k)
  {
    assert k / 8 == 0 && k % 8 == k;
    var b: bv8 := 0xFF;
    if k == 0 { assert (b >> 7) & 1 == 1; }
    else if k == 1 { assert (b >> 6) & 1 == 1; }
    else if k == 2 { assert (b >> 5) & 1 == 1; }
    else if k == 3 { assert (b >> 4) & 1 == 1; }
    else if k == 4 { assert (b >> 3) & 1 == 1; }
    else if k == 5 { assert (b >> 2) & 1 == 1; }
    else if k == 6 { assert (b >> 1) & 1 == 1; }
    else { assert b & 1 == 1; }
  }

  /** Cell c lies under the sprite 0xFF at column x of row 0 exactly when
      it is in row 0 at most 7 columns right of x, around the edge. */
  lemma FullRowFootprint(x: Byte, c: nat)
    requires c < Width * Height
    ensures InFootprint(Sprite(x, 0, [0xFF]), c) <==> c < Width && (c - x) % Width < 8
    ensures InFootprint(Sprite(x, 0, [0xFF]), c) ==> Ordinal(Sprite(x, 0, [0xFF]), c) < 8
  {
    var sp := Sprite(x, 0, [0xFF]);
    assert RowOffset(sp, c) == c / Width;
    if c < Width {
      assert c % Width == c;
    }
  }

  /** Cell c after drawing the sprite 0xFF at column x of row 0 on a blank
      display. */
  lemma FullRowCell(x: Byte, c: nat)
    requires c < Width * Height
    ensures Draw(Blank(), Sprite(x, 0, [0xFF])).0[c] == (c < Width && (c - x) % Width < 8)
  {
    var sp := Sprite(x, 0, [0xFF]);
    FullRowFootprint(x, c);
    if InFootprint(sp, c) {
      FullRowInk(sp, Ordinal(sp, c));
    }
  }

  /** On a blank display, the sprite 0xFF at column x of row 0 sets
      exactly the eight cells x, x + 1, ... of row 0, wrapping at the
      right edge, and reports no collision. */
  lemma FullRowOnBlank(x: Byte)
    ensures var sp := Sprite(x, 0, [0xFF]);
      && (forall c :: 0 <= c < Width * Height ==> Draw(Blank(), sp).0[c] == (c < Width && (c - x) % Width < 8))
      && !Draw(Blank(), sp).1
  {
    var sp := Sprite(x, 0, [0xFF]);
    var r := Draw(Blank(), sp);
    forall c | 0 <= c < Width * Height
      ensures r.0[c] == (c < Width && (c - x) % Width < 8)
    {
      FullRowCell(x, c);
    }
  }

  /** Drawn at column x <= 56 of row 0 on a blank display, the sprite
      0xFF sets columns x to x + 7 of row 0 and nothing else: at (0, 0),
      columns 0-7. */
  lemma RowInside(x: Byte)
    requires x <= Width - 8
    ensures forall c :: 0 <= c < Width * Height ==> Draw(Blank(), Sprite(x, 0, [0xFF])).0[c] == (x <= c < x + 8)
    ensures !Draw(Blank(), Sprite(x, 0, [0xFF])).1
  {
    FullRowOnBlank(x);
    forall c | 0 <= c < Width * Height
      ensures Draw(Blank(), Sprite(x, 0, [0xFF])).0[c] == (x <= c < x + 8)
    {
      FullRowCell(x, c);
      ColumnsInside(x, c);
    }
  }

  /** Drawn a second time at the same place, the sprite clears those
      cells again and reports a collision. */
  lemma RowDrawnTwice(x: Byte)
    ensures var first := Draw(Blank(), Sprite(x, 0, [0xFF])).0;
      Draw(first, Sprite(x, 0, [0xFF])).0 == Blank() && Draw(first, Sprite(x, 0, [0xFF])).1
  {
    var sp := Sprite(x, 0, [0xFF]);
    var first := Draw(Blank(), sp).0;
    DrawTwiceRestores(Blank(), sp);
    var second := Draw(first, sp).0;
    FullRowOrigin(x);
    SetCellCollides(first, second, x % Width);
  }

  /** The sprite's first pixel lands on column x mod 64 of row 0. */
  lemma FullRowOrigin(x: Byte)
    ensures Draw(Blank(), Sprite(x, 0, [0xFF])).0[x % Width]
  {
    var c := x % Width;
    ColumnOfOrigin(x, c);
    FullRowCell(x, c);
  }

  lemma ColumnOfOrigin(x: Byte, c: int)
    requires c == x % Width
    ensures 0 <= c < Width && (c - x) % Width == 0
  {
    if x < 0x40 { assert c == x; }
    else if x < 0x80 { assert c - x == -0x40; }
    else if x < 0xC0 { assert c - x == -0x80; }
    else { assert c - x == -0xC0; }
  }

  lemma SetCellCollides(d: Display, e: Display, c: nat)
    requires c < Width * Height && d[c] && !e[c]
    ensures Collided(d, e)
  {
  }

  /** Drawn at column 56 < x < 64 of row 0, the sprite wraps past the
      right edge: columns x to 63 and 0 to x - 57. At (60, 0) these are
      columns 60-63 and 0-3. */
  lemma RowWrapsAround(x: Byte)
    requires Width - 8 < x < Width
    ensures forall c :: 0 <= c < Width * Height ==>
      Draw(Blank(), Sprite(x, 0, [0xFF])).0[c] == (c < x + 8 - Width || x <= c < Width)
  {
    forall c | 0 <= c < Width * Height
      ensures Draw(Blank(), Sprite(x, 0, [0xFF])).0[c] == (c < x + 8 - Width || x <= c < Width)
    {
      FullRowCell(x, c);
      ColumnsAcrossEdge(x, c);
    }
  }

  lemma ColumnsInside(x: int, c: int)
    requires 0 <= x <= Width - 8 && 0 <= c
    ensures (c < Width && (c - x) % Width < 8) == (x <= c < x + 8)
  {
    if c < x {
      assert (c - x) % Width == c - x + Width;
    } else if c < Width {
      assert (c - x) % Width == c - x;
    }
  }

  lemma ColumnsAcrossEdge(x: int, c: int)
    requires Width - 8 < x < Width && 0 <= c
    ensures (c < Width && (c - x) % Width < 8) == (c < x + 8 - Width || x <= c < Width)
  {
    if c < x {
      assert (c - x) % Width == c - x + Width;
    } else if c < Width {
      assert (c - x) % Width == c - x;
    }
  }

  /** A batch that reaches Fx0A with the latch idle runs it and stops at
      once, however large its budget. */
  lemma BatchStopsAtKeyWait(s: State, x: Nibble, budget: nat, rng: nat -> Byte)
    requires Fetches(s, LdKey(x)) && !LatchArmed(s.waitingKey) && budget >= 1
    ensures Step(s, rng(0)).Ok?
    ensures RunBatch(s, 0, budget, rng) == Ok(Batch(Step(s, rng(0)).value, 1))
  {
    WaitArmsLatch(s, x, rng(0));
  }

  /** F30A with the latch idle, followed in the same iteration by a
      key-down of B: the batch stops after F30A, the key lands in V3, the
      latch is idle again and PC is at the instruction after F30A, ready
      for the next batch. */
  lemma KeyWaitScenario(s: State, budget: U32, ipf: U32, frames: int, rng: nat -> Byte)
    requires Fetches(s, LdKey(3)) && !LatchArmed(s.waitingKey) && budget >= 1
    ensures RunIteration(s, budget, ipf, [KeyDown(0xB)], frames, rng).Ok?
    ensures var u := RunIteration(s, budget, ipf, [KeyDown(0xB)], frames, rng).value.state;
      u.V[3] == 0x0B && u.waitingKey == 0 && u.PC == s.PC + 2
  {
    BatchStopsAtKeyWait(s, 3, budget, rng);
    WaitArmsLatch(s, 3, rng(0));
    var t := Step(s, rng(0)).value;
    FirstKeyDownDelivered(t, true, [KeyDown(0xB)], 0);
    HandleEventsFrame(t, true, [KeyDown(0xB)]);
  }
}
