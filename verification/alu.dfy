/** The byte arithmetic of the 8xyz, Fx29 and Fx33 instructions, written
    with the operators of the source (unsigned 16-bit intermediates, shifts
    and masks) and specified by what they compute on numbers. */
module Alu {
  import opened Prelude

  /** 8xy4: the sum is formed in a uint16_t; the high byte is the carry and
      the low byte the result. */
  function AddWithCarry(a: Byte, b: Byte): (r: (Byte, Byte))
    ensures r.1 <= 1 && 0x100 * r.1 + r.0 == a + b
    ensures r.1 == 1 <==> a + b > 0xFF
  {
    var sum := Wrap16(a + b);
    (sum % 0x100, sum / 0x100)
  }

  /** 8xy5 and 8xy7: the difference is formed in a uint16_t, so a borrow
      wraps it to 0xFF00 and above; the flag is the logical negation of its
      high byte and the result is its low byte. */
  function SubWithBorrow(a: Byte, b: Byte): (r: (Byte, Byte))
    ensures r.1 <= 1
    ensures r.1 == 1 <==> a >= b
    ensures r.0 == if a >= b then a - b else a - b + 0x100
  {
    var diff := Wrap16(a - b);
    (diff % 0x100, if diff / 0x100 == 0 then 1 else 0)
  }

  // The shifts and masks below act on a non-negative value by a constant,
  // so each is the matching division or remainder.

  /** V[y] & 0x1: the bit 8xy6 shifts out. */
  function LowBit(v: Byte): Byte
  {
    v % 2
  }

  /** V[y] >> 1. */
  function HalfOf(v: Byte): Byte
  {
    v / 2
  }

  /** V[y] >> 7: the bit 8xyE shifts out. */
  function HighBit(v: Byte): Byte
  {
    v / 0x80
  }

  /** V[y] << 1 stored back into a uint8_t. */
  function DoubleOf(v: Byte): Byte
  {
    (2 * v) % 0x100
  }

  /** V[x] & 0xF: the digit whose glyph Fx29 selects. */
  function LowNibble(v: Byte): Nibble
  {
    v % 0x10
  }

  /** The shifts lose exactly the bit they put in the flag: 8xy6 splits v
      into its half and its low bit, 8xyE into its high bit and the rest
      doubled. */
  lemma ShiftsSplit(v: Byte)
    ensures 2 * HalfOf(v) + LowBit(v) == v
    ensures 0x100 * HighBit(v) + DoubleOf(v) == 2 * v
    ensures LowBit(v) <= 1 && HighBit(v) <= 1
  {
  }

  /** Fx33: the hundreds, tens and ones digits of v. */
  function BcdDigits(v: Byte): (d: (Byte, Byte, Byte))
    ensures d.0 <= 2 && d.1 <= 9 && d.2 <= 9
    ensures 100 * d.0 + 10 * d.1 + d.2 == v
  {
    ((v / 100) % 10, (v / 10) % 10, v % 10)
  }
}
