/** The 16-key keypad: the mask of pressed keys and the latch that the
    blocking key read (Fx0A) arms. */
module Keypad {
  import opened Prelude

  /** Bit of the wait latch that marks it armed (WAITINGKEY_FLAG). */
  const WaitingKeyFlag: bv8 := 0x10

  // ----- Wait latch -----

  /** The latch armed for register x: the flag bit with x in the low nibble. */
  function ArmLatch(x: Nibble): bv8
  {
    WaitingKeyFlag | (x as bv8)
  }

  /** The latch is armed when its flag bit is set. */
  predicate LatchArmed(latch: bv8)
  {
    latch & WaitingKeyFlag != 0
  }

  /** The register a key press is stored into: the low nibble. */
  function LatchRegister(latch: bv8): Nibble
  {
    (latch & 0xF) as int
  }

  /** The idle latch is 0; an armed latch reads back as armed for the
      register it was armed with, and only values with the flag bit read
      as armed. */
  lemma LatchEncoding(x: Nibble, latch: bv8)
    ensures !LatchArmed(0)
    ensures LatchArmed(ArmLatch(x)) && LatchRegister(ArmLatch(x)) == x
    ensures LatchArmed(latch) <==> latch as int / 0x10 % 2 == 1
  {
  }

  // ----- Keypad -----

  /** The mask bit of key k: 1 << k. */
  function Bit(k: int): bv16
    requires 0 <= k < 16
  {
    (1 as bv16) << (k as bv16)
  }

  /** Key k is down in the keypad mask: bit k is set. Values of 16 and up
      name no key. */
  predicate KeyPressed(keys: bv16, k: int)
  {
    0 <= k < 16 && keys & Bit(k) != 0
  }

  /** Records key key as pressed or released in the 16-bit mask. Keys 16 to
      30 shift the bit out of the 16-bit mask; larger shifts are undefined. */
  function SetKey(keys: bv16, key: Byte, pressed: bool): bv16
    requires key < 31
  {
    if key >= 16 then keys
    else if pressed then keys | Bit(key)
    else keys & !Bit(key)
  }

  // Facts about single mask bits, each small enough for the solver.

  lemma BitsDisjoint(a: bv16, c: bv16)
    requires a < 16 && c < 16 && a != c
    ensures ((1 as bv16) << a) & ((1 as bv16) << c) == 0
  {
  }

  lemma BitNonZero(a: bv16)
    requires a < 16
    ensures ((1 as bv16) << a) != 0
  {
  }
  lemma OrMask(keys: bv16, kb: bv16, bb: bv16)
    ensures (keys | kb) & bb == (keys & bb) | (kb & bb)
  {
  }

  lemma ClearOtherMask(keys: bv16, kb: bv16, bb: bv16)
    requires kb & bb == 0
    ensures (keys & !kb) & bb == keys & bb
  {
  }

  lemma SetOwnMask(keys: bv16, bb: bv16)
    requires bb != 0
    ensures (keys | bb) & bb != 0
  {
  }

  lemma ClearOwnMask(keys: bv16, bb: bv16)
    ensures (keys & !bb) & bb == 0
  {
  }

  lemma ShiftAmountsDistinct(a: int, c: int)
    requires 0 <= a < 16 && 0 <= c < 16 && a != c
    ensures a as bv16 != c as bv16
  {
    ShiftAmountValue(a);
    ShiftAmountValue(c);
  }

  lemma ShiftAmountValue(a: int)
    requires 0 <= a < 16
    ensures (a as bv16) as int == a
  {
  }

  /** SetKey sets bit key to pressed and keeps bit b for every other b. */
  lemma SetKeyBit(keys: bv16, key: Byte, pressed: bool, b: int)
    requires key < 31 && 0 <= b < 16
    ensures KeyPressed(SetKey(keys, key, pressed), b) == (if b == key then pressed else KeyPressed(keys, b))
  {
    if key < 16 {
      if b == key {
        SetKeyOwnBit(keys, key, pressed);
      } else {
        SetKeyOtherBit(keys, key, pressed, b);
      }
    }
  }

  lemma SetKeyOwnBit(keys: bv16, key: int, pressed: bool)
    requires 0 <= key < 16
    ensures KeyPressed(SetKey(keys, key, pressed), key) == pressed
  {
    var bb := Bit(key);
    BitNonZero(key as bv16);
    SetOwnMask(keys, bb);
    ClearOwnMask(keys, bb);
  }

  lemma SetKeyOtherBit(keys: bv16, key: int, pressed: bool, b: int)
    requires 0 <= key < 16 && 0 <= b < 16 && b != key
    ensures KeyPressed(SetKey(keys, key, pressed), b) == KeyPressed(keys, b)
  {
    var kb := Bit(key);
    var bb := Bit(b);
    ShiftAmountsDistinct(key, b);
    BitsDisjoint(key as bv16, b as bv16);
    OrMask(keys, kb, bb);
    ClearOtherMask(keys, kb, bb);
  }

  /** SetKey changes bit key of the mask to pressed and no other bit. */
  lemma SetKeyOnlyItsBit(keys: bv16, key: Byte, pressed: bool)
    requires key < 31
    ensures forall b :: 0 <= b < 16 ==>
      KeyPressed(SetKey(keys, key, pressed), b) == (if b == key then pressed else KeyPressed(keys, b))
    ensures key >= 16 ==> SetKey(keys, key, pressed) == keys
  {
    forall b | 0 <= b < 16 {
      SetKeyBit(keys, key, pressed, b);
    }
  }
}
