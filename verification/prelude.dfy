/** Fixed-width integer types of the interpreter, the wrap-around of C's
    unsigned compound assignments, and the bitwise operations on bytes. */
module Prelude {

  /** uint8_t */
  type Byte = b: int | 0 <= b < 0x100

  /** uint16_t */
  type Word = w: int | 0 <= w < 0x1_0000

  /** unsigned int on the platforms the interpreter targets */
  type U32 = u: int | 0 <= u < 0x1_0000_0000

  /** A 4-bit opcode field (x, y or n). */
  type Nibble = n: int | 0 <= n < 0x10

  /** A 12-bit opcode address field (nnn). */
  type Addr = a: int | 0 <= a < 0x1000

  /** Storing an int into a uint8_t keeps it modulo 2^8. */
  function Wrap8(v: int): Byte
  {
    v % 0x100
  }

  /** Storing an int into a uint16_t keeps it modulo 2^16. */
  function Wrap16(v: int): Word
  {
    v % 0x1_0000
  }

  /** Storing an int into an unsigned int keeps it modulo 2^32. */
  function Wrap32(v: int): U32
  {
    v % 0x1_0000_0000
  }

  function Min(a: int, b: int): int
  {
    if a < b then a else b
  }

  function Max(a: int, b: int): int
  {
    if a < b then b else a
  }

  function Or8(a: Byte, b: Byte): Byte
  {
    ((a as bv8) | (b as bv8)) as int
  }

  function And8(a: Byte, b: Byte): Byte
  {
    ((a as bv8) & (b as bv8)) as int
  }

  function Xor8(a: Byte, b: Byte): Byte
  {
    ((a as bv8) ^ (b as bv8)) as int
  }

  datatype Option<+T> = None | Some(value: T)
}
