/** The arithmetic and latch handling of the main loop (Run). The wall clock
    becomes a count of newly elapsed frames, window input becomes a list of
    key events already mapped to keypad values, and the Mersenne Twister
    behind Cxkk becomes a stream of bytes. */
module Scheduler {
  import opened Prelude
  import opened Layout
  import opened Keypad
  import opened Machine
  import opened Interpreter
  import opened Properties

  // ----- Rates and budgets -----

  /** insPerFrame: ips / FPS / 2 in unsigned arithmetic, at least 1. Half
      of the configured rate is spent per frame, so the machine runs
      ips / 120 instructions per 60 Hz frame. */
  function InstructionsPerFrame(ips: U32): (r: U32)
    ensures r >= 1 && r == Max(1, ips / 120)
    ensures ips >= 120 ==> 120 * r <= ips < 120 * (r + 1)
  {
    Max(1, ips / Fps / 2)
  }

  /** consecutiveIns: max(1, frames) * insPerFrame, formed in a 32-bit
      unsigned int. It is one frame's worth when no whole frame elapsed,
      and the exact product whenever that fits in 32 bits. */
  function Budget(frames: int, ipf: U32): (r: U32)
    ensures frames <= 1 ==> r == ipf
    ensures Max(1, frames) * ipf < 0x1_0000_0000 ==> r == Max(1, frames) * ipf
    ensures r < 0x1_0000_0000
  {
    Wrap32(Max(1, frames) * ipf)
  }

  /** The product can wrap: at 4026531840 instructions per second a lag of
      128 frames yields a batch of no instructions at all. */
  lemma BudgetWraps()
    ensures InstructionsPerFrame(4026531840) == 0x200_0000
    ensures Budget(128, InstructionsPerFrame(4026531840)) == 0
  {
    assert 4026531840 / Fps / 2 == 0x200_0000;
  }

  // ----- Timers -----

  /** timer -= min(frames, timer) for frames > 0: the timer counts down by
      one per frame and stops at 0. */
  function DecrementTimer(t: Byte, frames: int): (r: Byte)
    requires frames > 0
    ensures r <= t
    ensures r == 0 <==> frames >= t
    ensures r != 0 ==> r == t - frames
  {
    t - Min(frames, t)
  }

  predicate AllPositive(fs: seq<int>)
  {
    forall k :: 0 <= k < |fs| ==> fs[k] > 0
  }

  function Total(fs: seq<int>): int
  {
    if |fs| == 0 then 0 else fs[0] + Total(fs[1..])
  }

  /** A timer after a run of ticks with fs[0], fs[1], ... newly elapsed
      frames. */
  function DecrementEach(t: Byte, fs: seq<int>): Byte
    requires AllPositive(fs)
  {
    if |fs| == 0 then t else DecrementEach(DecrementTimer(t, fs[0]), fs[1..])
  }

  /** However the elapsed frames are grouped into ticks, a timer ends at
      its start minus the total number of frames, and never below 0. */
  lemma {:induction false} TimerCountsFrames(t: Byte, fs: seq<int>)
    requires AllPositive(fs)
    ensures DecrementEach(t, fs) == if Total(fs) >= t then 0 else t - Total(fs)
  {
    if |fs| > 0 {
      var rest := fs[1..];
      assert AllPositive(rest) by {
        forall k | 0 <= k < |rest| ensures rest[k] > 0 {
          assert rest[k] == fs[k + 1];
        }
      }
      TotalNonNegative(rest);
      TimerCountsFrames(DecrementTimer(t, fs[0]), rest);
    }
  }

  lemma {:induction false} TotalNonNegative(fs: seq<int>)
    requires AllPositive(fs)
    ensures Total(fs) >= 0
  {
    if |fs| > 0 {
      var rest := fs[1..];
      assert AllPositive(rest) by {
        forall k | 0 <= k < |rest| ensures rest[k] > 0 {
          assert rest[k] == fs[k + 1];
        }
      }
      TotalNonNegative(rest);
    }
  }

  /** The end of one loop iteration: when whole frames have elapsed, both
      timers count down, and DrawScreen presents the display if it changed
      and clears the changed flag. The flag returned says whether a frame
      was presented. */
  function Tick(s: State, frames: int): (r: (State, bool))
    ensures frames <= 0 ==> r == (s, false)
    ensures frames > 0 ==> r.0.delay == DecrementTimer(s.delay, frames) && r.0.sound == DecrementTimer(s.sound, frames)
    ensures r.1 <==> frames > 0 && s.screenUpdated
    ensures frames > 0 ==> !r.0.screenUpdated
    ensures r.0 == s.(delay := r.0.delay, sound := r.0.sound, screenUpdated := r.0.screenUpdated)
  {
    if frames > 0 then
      (s.(delay := s.delay - Min(frames, s.delay), sound := s.sound - Min(frames, s.sound), screenUpdated := false),
       s.screenUpdated)
    else (s, false)
  }

  // ----- Instruction batches -----

  /** The state after a batch and the number of instructions it ran. */
  datatype Batch = Batch(state: State, executed: nat)

  /** The inner loop of Run from its done-th iteration on: instructions run
      until budget of them have run or the wait latch is armed. rng(k) is
      the random byte drawn if the k-th instruction of the batch is Cxkk.
      A failed assertion ends the program. */
  function RunBatch(s: State, done: nat, budget: nat, rng: nat -> Byte): (r: Result<Batch>)
    requires done <= budget
    ensures r.Ok? ==> done <= r.value.executed <= budget
    ensures r.Ok? ==> r.value.executed == budget || LatchArmed(r.value.state.waitingKey)
    ensures LatchArmed(s.waitingKey) ==> r == Ok(Batch(s, done))
    decreases budget - done
  {
    if done == budget || LatchArmed(s.waitingKey) then Ok(Batch(s, done))
    else
      match Step(s, rng(done))
      case Halt(f) => Halt(f)
      case Ok(t) => RunBatch(t, done + 1, budget, rng)
  }

  /** Instructions never touch the keypad mask: a batch leaves it as it
      found it. */
  lemma {:induction false} BatchKeepsKeys(s: State, done: nat, budget: nat, rng: nat -> Byte)
    requires done <= budget
    ensures RunBatch(s, done, budget, rng).Ok? ==> RunBatch(s, done, budget, rng).value.state.keys == s.keys
    decreases budget - done
  {
    if done < budget && !LatchArmed(s.waitingKey) && Step(s, rng(done)).Ok? {
      StepFrame(s, rng(done));
      BatchKeepsKeys(Step(s, rng(done)).value, done + 1, budget, rng);
    }
  }

  // ----- Key events -----

  /** A window event, with the scancode already mapped to its keypad
      value. */
  datatype KeyEvent = KeyDown(key: Nibble) | KeyUp(key: Nibble) | Quit

  /** One event of the poll loop: Quit stops the main loop; a key event
      updates the mask; a key-down also completes a pending Fx0A, storing
      the key in the latch's register and disarming the latch. */
  function HandleEvent(s: State, running: bool, e: KeyEvent): (r: (State, bool))
  {
    match e
    case Quit => (s, false)
    case KeyUp(k) => (s.(keys := SetKey(s.keys, k, false)), running)
    case KeyDown(k) =>
      var t := s.(keys := SetKey(s.keys, k, true));
      if LatchArmed(s.waitingKey) then (t.(V := s.V[LatchRegister(s.waitingKey) := k], waitingKey := 0), running)
      else (t, running)
  }

  /** What one event e does to (s, running), giving r: the loop stops on
      Quit; key b is down afterwards exactly when e was a key-down of b, or
      e names another key and b was down before; the latch is released only
      by a key-down, which stores its key in the latch's register; no other
      register, and nothing but the mask, the latch and that register,
      changes. */
  ghost predicate EventApplied(s: State, running: bool, e: KeyEvent, r: (State, bool))
  {
    && (r.1 <==> running && !e.Quit?)
    && (forall b :: 0 <= b < 16 ==> KeyPressed(r.0.keys, b) == PressedAfterEvent(KeyPressed(s.keys, b), e, b))
    && (LatchArmed(r.0.waitingKey) <==> LatchArmed(s.waitingKey) && !e.KeyDown?)
    && (e.KeyDown? && LatchArmed(s.waitingKey) ==> r.0.V[LatchRegister(s.waitingKey)] == e.key && r.0.waitingKey == 0)
    && (forall k :: 0 <= k < MaxRegisters && (k != LatchRegister(s.waitingKey) || !e.KeyDown? || !LatchArmed(s.waitingKey)) ==> r.0.V[k] == s.V[k])
    && r.0 == s.(keys := r.0.keys, waitingKey := r.0.waitingKey, V := r.0.V)
  }

  /** A single event has the effect EventApplied describes. */
  lemma HandleEventEffect(s: State, running: bool, e: KeyEvent)
    ensures EventApplied(s, running, e, HandleEvent(s, running, e))
  {
    match e
    case Quit => QuitApplied(s, running);
    case KeyUp(k) => KeyUpApplied(s, running, k);
    case KeyDown(k) => KeyDownApplied(s, running, k);
  }

  lemma QuitApplied(s: State, running: bool)
    ensures EventApplied(s, running, Quit, HandleEvent(s, running, Quit))
  {
  }

  lemma KeyUpApplied(s: State, running: bool, k: Nibble)
    ensures EventApplied(s, running, KeyUp(k), HandleEvent(s, running, KeyUp(k)))
  {
    SetKeyOnlyItsBit(s.keys, k, false);
  }

  lemma KeyDownApplied(s: State, running: bool, k: Nibble)
    ensures EventApplied(s, running, KeyDown(k), HandleEvent(s, running, KeyDown(k)))
  {
    var r := HandleEvent(s, running, KeyDown(k));
    SetKeyOnlyItsBit(s.keys, k, true);
    if LatchArmed(s.waitingKey) {
      LatchEncoding(0, 0);
      assert r.0.waitingKey == 0;
    }
  }

  lemma HandleEventKey(s: State, running: bool, e: KeyEvent, b: Nibble)
    ensures KeyPressed(HandleEvent(s, running, e).0.keys, b) == PressedAfterEvent(KeyPressed(s.keys, b), e, b)
  {
    match e
    case Quit =>
    case KeyUp(k) => SetKeyBit(s.keys, k, false, b);
    case KeyDown(k) => SetKeyBit(s.keys, k, true, b);
  }

  /** Whether key b is down after event e when it was down before. */
  function PressedAfterEvent(before: bool, e: KeyEvent, b: Nibble): bool
  {
    if e.KeyDown? && e.key == b then true
    else if e.KeyUp? && e.key == b then false
    else before
  }

  /** The poll loop: every pending event, in order. */
  function HandleEvents(s: State, running: bool, es: seq<KeyEvent>): (r: (State, bool))
    ensures r.1 <==> running && forall k :: 0 <= k < |es| ==> !es[k].Quit?
    ensures LatchArmed(r.0.waitingKey) <==> LatchArmed(s.waitingKey) && forall k :: 0 <= k < |es| ==> !es[k].KeyDown?
    decreases |es|
  {
    if |es| == 0 then (s, running)
    else
      var (t, go) := HandleEvent(s, running, es[0]);
      HandleEventEffect(s, running, es[0]);
      var r := HandleEvents(t, go, es[1..]);
      assert forall k :: 1 <= k < |es| ==> es[k] == es[1..][k - 1];
      r
  }

  /** Whether key b is down after events es when it was down before: the
      last event that names b decides, and without one b keeps its state. */
  function PressedAfter(before: bool, es: seq<KeyEvent>, b: Nibble): bool
    decreases |es|
  {
    if |es| == 0 then before
    else
      var e := es[|es| - 1];
      if (e.KeyDown? || e.KeyUp?) && e.key == b then e.KeyDown?
      else PressedAfter(before, es[..|es| - 1], b)
  }

  /** Applying the last event to the state after the others. */
  lemma {:induction false} PressedAfterLast(before: bool, es: seq<KeyEvent>, b: Nibble)
    requires |es| > 0
    ensures PressedAfter(before, es, b) == PressedAfterEvent(PressedAfter(before, es[..|es| - 1], b), es[|es| - 1], b)
  {
  }

  /** Peeling off the first event. */
  lemma {:induction false} PressedAfterFirst(before: bool, es: seq<KeyEvent>, b: Nibble)
    requires |es| > 0
    ensures PressedAfter(before, es, b) == PressedAfter(PressedAfterEvent(before, es[0], b), es[1..], b)
    decreases |es|
  {
    if |es| > 1 {
      var init := es[..|es| - 1];
      assert init[1..] == es[1..][..|es[1..]| - 1];
      assert init[0] == es[0];
      PressedAfterFirst(before, init, b);
      PressedAfterLast(before, es, b);
      PressedAfterLast(PressedAfterEvent(before, es[0], b), es[1..], b);
      assert es[1..][|es[1..]| - 1] == es[|es| - 1];
    } else {
      assert es[..0] == [];
      assert es[1..] == [];
    }
  }

  /** After the poll loop, each key is down exactly when the last event
      naming it was a key-down, or no event named it and it was down
      before. */
  lemma {:induction false} EventsSetKeys(s: State, running: bool, es: seq<KeyEvent>, b: Nibble)
    ensures KeyPressed(HandleEvents(s, running, es).0.keys, b) == PressedAfter(KeyPressed(s.keys, b), es, b)
    decreases |es|
  {
    if |es| > 0 {
      var r := HandleEvent(s, running, es[0]);
      assert HandleEvents(s, running, es) == HandleEvents(r.0, r.1, es[1..]);
      HandleEventKey(s, running, es[0], b);
      EventsSetKeys(r.0, r.1, es[1..], b);
      PressedAfterFirst(KeyPressed(s.keys, b), es, b);
    }
  }

  /** While the latch is armed, the first key-down is the key Fx0A
      receives: its key lands in the latch's register and the latch is idle
      afterwards, whatever events follow. */
  lemma {:induction false} FirstKeyDownDelivered(s: State, running: bool, es: seq<KeyEvent>, j: nat)
    requires LatchArmed(s.waitingKey)
    requires j < |es| && es[j].KeyDown?
    requires forall k :: 0 <= k < j ==> !es[k].KeyDown?
    ensures HandleEvents(s, running, es).0.V[LatchRegister(s.waitingKey)] == es[j].key
    ensures HandleEvents(s, running, es).0.waitingKey == 0
    decreases |es|
  {
    var (t, go) := HandleEvent(s, running, es[0]);
    HandleEventEffect(s, running, es[0]);
    if j == 0 {
      IdleEventsKeepRegisters(t, go, es[1..]);
      IdleEventsKeepLatch(t, go, es[1..]);
    } else {
      assert forall k :: 0 <= k < j - 1 ==> es[1..][k] == es[k + 1];
      FirstKeyDownDelivered(t, go, es[1..], j - 1);
    }
  }

  /** With the latch idle, events change no register. */
  lemma {:induction false} IdleEventsKeepRegisters(s: State, running: bool, es: seq<KeyEvent>)
    requires !LatchArmed(s.waitingKey)
    ensures HandleEvents(s, running, es).0.V == s.V
    decreases |es|
  {
    if |es| > 0 {
      var (t, go) := HandleEvent(s, running, es[0]);
      HandleEventEffect(s, running, es[0]);
      IdleEventsKeepRegisters(t, go, es[1..]);
    }
  }

  /** With the latch at 0, events leave it at 0. */
  lemma {:induction false} IdleEventsKeepLatch(s: State, running: bool, es: seq<KeyEvent>)
    requires s.waitingKey == 0
    ensures HandleEvents(s, running, es).0.waitingKey == 0
    decreases |es|
  {
    LatchEncoding(0, 0);
    if |es| > 0 {
      var (t, go) := HandleEvent(s, running, es[0]);
      HandleEventEffect(s, running, es[0]);
      IdleEventsKeepLatch(t, go, es[1..]);
    }
  }

  // ----- One iteration of the main loop -----

  /** The loop's state between iterations: the machine, whether the loop
      goes on, the next batch size, and whether a frame was presented. */
  datatype Loop = Loop(state: State, running: bool, budget: U32, presented: bool)

  /** One iteration of Run: a batch of at most budget instructions, the
      pending events, the timer and screen tick for the frames that
      elapsed meanwhile, and the next batch size. */
  function RunIteration(s: State, budget: U32, ipf: U32, events: seq<KeyEvent>, frames: int, rng: nat -> Byte): (r: Result<Loop>)
    ensures r.Ok? ==> r.value.budget == Budget(frames, ipf)
    ensures r.Ok? ==> (r.value.running <==> forall k :: 0 <= k < |events| ==> !events[k].Quit?)
    ensures r.Halt? <==> RunBatch(s, 0, budget, rng).Halt?
    ensures r.Halt? ==> r.fault == RunBatch(s, 0, budget, rng).fault
  {
    var b :- RunBatch(s, 0, budget, rng);
    var (t, running) := HandleEvents(b.state, true, events);
    var (u, presented) := Tick(t, frames);
    Ok(Loop(u, running, Budget(frames, ipf), presented))
  }

  /** An iteration that starts with the latch armed runs no instruction:
      the machine's registers, memory and PC stay as they were, apart from
      what the events and the tick change. */
  lemma WaitingIterationIdles(s: State, budget: U32, ipf: U32, events: seq<KeyEvent>, frames: int, rng: nat -> Byte)
    requires LatchArmed(s.waitingKey)
    ensures RunIteration(s, budget, ipf, events, frames, rng).Ok?
    ensures var u := RunIteration(s, budget, ipf, events, frames, rng).value.state;
      u.PC == s.PC && u.I == s.I && u.SP == s.SP && u.stack == s.stack && u.memory == s.memory && u.display == s.display
  {
    var (t, running) := HandleEvents(s, true, events);
    HandleEventsFrame(s, true, events);
  }

  /** Events change only the mask, the latch and the registers. */
  lemma {:induction false} HandleEventsFrame(s: State, running: bool, es: seq<KeyEvent>)
    ensures var r := HandleEvents(s, running, es).0;
      r == s.(keys := r.keys, waitingKey := r.waitingKey, V := r.V)
    decreases |es|
  {
    if |es| > 0 {
      var (t, go) := HandleEvent(s, running, es[0]);
      HandleEventEffect(s, running, es[0]);
      HandleEventsFrame(t, go, es[1..]);
    }
  }
}
