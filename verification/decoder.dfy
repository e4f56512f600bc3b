/** The instruction set: decoding a 16-bit opcode into the instruction the
    interpreter's if/else chain selects, and encoding it back. */
module Decoder {
  import opened Prelude

  /** One instruction per branch of the chain, named by its mnemonic. x and
      y name registers, kk is an immediate byte, nnn an address and n a
      sprite height. */
  datatype Instr =
    | Cls                             // 00E0
    | Ret                             // 00EE
    | Jp(nnn: Addr)                   // 1nnn
    | Call(nnn: Addr)                 // 2nnn
    | SeByte(x: Nibble, kk: Byte)     // 3xkk
    | SneByte(x: Nibble, kk: Byte)    // 4xkk
    | SeReg(x: Nibble, y: Nibble)     // 5xy0
    | LdByte(x: Nibble, kk: Byte)     // 6xkk
    | AddByte(x: Nibble, kk: Byte)    // 7xkk
    | LdReg(x: Nibble, y: Nibble)     // 8xy0
    | Or(x: Nibble, y: Nibble)        // 8xy1
    | And(x: Nibble, y: Nibble)       // 8xy2
    | Xor(x: Nibble, y: Nibble)       // 8xy3
    | AddReg(x: Nibble, y: Nibble)    // 8xy4
    | Sub(x: Nibble, y: Nibble)       // 8xy5
    | Shr(x: Nibble, y: Nibble)       // 8xy6
    | Subn(x: Nibble, y: Nibble)      // 8xy7
    | Shl(x: Nibble, y: Nibble)       // 8xyE
    | SneReg(x: Nibble, y: Nibble)    // 9xy0
    | LdI(nnn: Addr)                  // Annn
    | JpV0(nnn: Addr)                 // Bnnn
    | Rnd(x: Nibble, kk: Byte)        // Cxkk
    | Drw(x: Nibble, y: Nibble, n: Nibble) // Dxyn
    | Skp(x: Nibble)                  // Ex9E
    | Sknp(x: Nibble)                 // ExA1
    | LdVxDt(x: Nibble)               // Fx07
    | LdKey(x: Nibble)                // Fx0A
    | LdDtVx(x: Nibble)               // Fx15
    | LdStVx(x: Nibble)               // Fx18
    | AddI(x: Nibble)                 // Fx1E
    | LdFont(x: Nibble)               // Fx29
    | Bcd(x: Nibble)                  // Fx33
    | Store(x: Nibble)                // Fx55
    | Load(x: Nibble)                 // Fx65

  /** The opcode fields: w, x, y and z are its four nibbles from the most
      significant, kk its low byte and nnn its low 12 bits. */
  function FieldW(op: Word): Nibble { op / 0x1000 }
  function FieldX(op: Word): Nibble { (op / 0x100) % 0x10 }
  function FieldY(op: Word): Nibble { (op / 0x10) % 0x10 }
  function FieldZ(op: Word): Nibble { op % 0x10 }
  function FieldKK(op: Word): Byte { op % 0x100 }
  function FieldNNN(op: Word): Addr { op % 0x1000 }

  /** The opcode with nibbles w, x, y, z. */
  function Pack(w: Nibble, x: Nibble, y: Nibble, z: Nibble): Word
  {
    0x1000 * w + 0x100 * x + 0x10 * y + z
  }

  /** The fields of an opcode determine it. */
  lemma Unpack(op: Word)
    ensures op == Pack(FieldW(op), FieldX(op), FieldY(op), FieldZ(op))
    ensures FieldKK(op) == 0x10 * FieldY(op) + FieldZ(op)
    ensures FieldNNN(op) == 0x100 * FieldX(op) + FieldKK(op)
  {
    var w, r1 := op / 0x1000, op % 0x1000;
    var x, r2 := r1 / 0x100, r1 % 0x100;
    var y, z := r2 / 0x10, r2 % 0x10;
    DivUnique(op, 0x100, 0x10 * w + x, r2);
    DivUnique(0x10 * w + x, 0x10, w, x);
    DivUnique(op, 0x10, 0x100 * w + 0x10 * x + y, z);
    DivUnique(0x100 * w + 0x10 * x + y, 0x10, 0x10 * w + x, y);
  }

  /** Quotient and remainder are the only such pair. */
  lemma DivUnique(n: int, d: int, q: int, r: int)
    requires d == 0x10 || d == 0x100
    requires n == d * q + r && 0 <= r < d
    ensures n / d == q && n % d == r
  {
    if d == 0x10 {
      assert n == 0x10 * q + r;
    } else {
      assert n == 0x100 * q + r;
    }
  }

  /** Packing nibbles and taking the fields gives them back. */
  lemma PackFields(w: Nibble, x: Nibble, y: Nibble, z: Nibble)
    ensures var op := Pack(w, x, y, z);
      && FieldW(op) == w && FieldX(op) == x && FieldY(op) == y && FieldZ(op) == z
      && FieldKK(op) == 0x10 * y + z && FieldNNN(op) == 0x100 * x + 0x10 * y + z
  {
    var op := Pack(w, x, y, z);
    var low: int := 0x100 * x + 0x10 * y + z;
    assert op == 0x1000 * w + low && low < 0x1000;
    assert op / 0x100 == 0x10 * w + x;
    assert op / 0x10 == 0x100 * w + 0x10 * x + y;
  }

  /** The fields of an opcode built from w, x and an immediate byte kk. */
  lemma ByteFields(w: Nibble, x: Nibble, kk: Byte)
    ensures var op := 0x1000 * w + 0x100 * x + kk;
      0 <= op < 0x1_0000 && FieldW(op) == w && FieldX(op) == x && FieldKK(op) == kk && FieldZ(op) == kk % 0x10
  {
    PackFields(w, x, kk / 0x10, kk % 0x10);
  }

  /** The fields of an opcode built from w and an address nnn. */
  lemma AddrFields(w: Nibble, nnn: Addr)
    ensures var op := 0x1000 * w + nnn;
      0 <= op < 0x1_0000 && FieldW(op) == w && FieldNNN(op) == nnn
  {
    PackFields(w, nnn / 0x100, (nnn / 0x10) % 0x10, nnn % 0x10);
  }

  /** The instruction the chain of chip8.cpp selects for op, or None for the
      final branch that reports an unhandled opcode. Every test of the chain
      but the first two fixes w, so the chain is dispatched on w here; with
      w = 0 only 00E0 and 00EE are handled and every other 0nnn is not. */
  function Decode(op: Word): Option<Instr>
  {
    var x, y, z, kk, nnn := FieldX(op), FieldY(op), FieldZ(op), FieldKK(op), FieldNNN(op);
    match FieldW(op)
    case 0x0 => if op == 0x00E0 then Some(Cls) else if op == 0x00EE then Some(Ret) else None
    case 0x1 => Some(Jp(nnn))
    case 0x2 => Some(Call(nnn))
    case 0x3 => Some(SeByte(x, kk))
    case 0x4 => Some(SneByte(x, kk))
    case 0x5 => if z == 0x0 then Some(SeReg(x, y)) else None
    case 0x6 => Some(LdByte(x, kk))
    case 0x7 => Some(AddByte(x, kk))
    case 0x8 => DecodeAlu(x, y, z)
    case 0x9 => if z == 0x0 then Some(SneReg(x, y)) else None
    case 0xA => Some(LdI(nnn))
    case 0xB => Some(JpV0(nnn))
    case 0xC => Some(Rnd(x, kk))
    case 0xD => Some(Drw(x, y, z))
    case 0xE => if kk == 0x9E then Some(Skp(x)) else if kk == 0xA1 then Some(Sknp(x)) else None
    case 0xF => DecodeMisc(x, kk)
  }

  /** The register-to-register forms 8xyz. */
  function DecodeAlu(x: Nibble, y: Nibble, z: Nibble): Option<Instr>
  {
    match z
    case 0x0 => Some(LdReg(x, y))
    case 0x1 => Some(Or(x, y))
    case 0x2 => Some(And(x, y))
    case 0x3 => Some(Xor(x, y))
    case 0x4 => Some(AddReg(x, y))
    case 0x5 => Some(Sub(x, y))
    case 0x6 => Some(Shr(x, y))
    case 0x7 => Some(Subn(x, y))
    case 0xE => Some(Shl(x, y))
    case _ => None
  }

  /** The timer, key, I and memory forms Fxkk. */
  function DecodeMisc(x: Nibble, kk: Byte): Option<Instr>
  {
    match kk
    case 0x07 => Some(LdVxDt(x))
    case 0x0A => Some(LdKey(x))
    case 0x15 => Some(LdDtVx(x))
    case 0x18 => Some(LdStVx(x))
    case 0x1E => Some(AddI(x))
    case 0x29 => Some(LdFont(x))
    case 0x33 => Some(Bcd(x))
    case 0x55 => Some(Store(x))
    case 0x65 => Some(Load(x))
    case _ => None
  }

  /** The opcode of an instruction. */
  function Encode(i: Instr): Word
  {
    match i
    case Cls => 0x00E0
    case Ret => 0x00EE
    case Jp(nnn) => 0x1000 + nnn
    case Call(nnn) => 0x2000 + nnn
    case SeByte(x, kk) => 0x3000 + 0x100 * x + kk
    case SneByte(x, kk) => 0x4000 + 0x100 * x + kk
    case SeReg(x, y) => Pack(0x5, x, y, 0x0)
    case LdByte(x, kk) => 0x6000 + 0x100 * x + kk
    case AddByte(x, kk) => 0x7000 + 0x100 * x + kk
    case LdReg(x, y) => Pack(0x8, x, y, 0x0)
    case Or(x, y) => Pack(0x8, x, y, 0x1)
    case And(x, y) => Pack(0x8, x, y, 0x2)
    case Xor(x, y) => Pack(0x8, x, y, 0x3)
    case AddReg(x, y) => Pack(0x8, x, y, 0x4)
    case Sub(x, y) => Pack(0x8, x, y, 0x5)
    case Shr(x, y) => Pack(0x8, x, y, 0x6)
    case Subn(x, y) => Pack(0x8, x, y, 0x7)
    case Shl(x, y) => Pack(0x8, x, y, 0xE)
    case SneReg(x, y) => Pack(0x9, x, y, 0x0)
    case LdI(nnn) => 0xA000 + nnn
    case JpV0(nnn) => 0xB000 + nnn
    case Rnd(x, kk) => 0xC000 + 0x100 * x + kk
    case Drw(x, y, n) => Pack(0xD, x, y, n)
    case Skp(x) => 0xE09E + 0x100 * x
    case Sknp(x) => 0xE0A1 + 0x100 * x
    case LdVxDt(x) => 0xF007 + 0x100 * x
    case LdKey(x) => 0xF00A + 0x100 * x
    case LdDtVx(x) => 0xF015 + 0x100 * x
    case LdStVx(x) => 0xF018 + 0x100 * x
    case AddI(x) => 0xF01E + 0x100 * x
    case LdFont(x) => 0xF029 + 0x100 * x
    case Bcd(x) => 0xF033 + 0x100 * x
    case Store(x) => 0xF055 + 0x100 * x
    case Load(x) => 0xF065 + 0x100 * x
  }

  /** Every instruction is decoded from its own opcode. */
  lemma DecodeEncode(i: Instr)
    ensures Decode(Encode(i)) == Some(i)
  {
    if FormOf(i) == 0x8 {
      DecodeEncodeAlu(i);
    } else if FormOf(i) == 0xF {
      DecodeEncodeMisc(i);
    } else if FormOf(i) < 0x8 {
      DecodeEncodeLow(i);
    } else {
      DecodeEncodeHigh(i);
    }
  }

  /** The leading nibble of the instruction's opcode. */
  function FormOf(i: Instr): Nibble
  {
    match i
    case Cls | Ret => 0x0
    case Jp(_) => 0x1
    case Call(_) => 0x2
    case SeByte(_, _) => 0x3
    case SneByte(_, _) => 0x4
    case SeReg(_, _) => 0x5
    case LdByte(_, _) => 0x6
    case AddByte(_, _) => 0x7
    case LdReg(_, _) | Or(_, _) | And(_, _) | Xor(_, _) | AddReg(_, _)
       | Sub(_, _) | Shr(_, _) | Subn(_, _) | Shl(_, _) => 0x8
    case SneReg(_, _) => 0x9
    case LdI(_) => 0xA
    case JpV0(_) => 0xB
    case Rnd(_, _) => 0xC
    case Drw(_, _, _) => 0xD
    case Skp(_) | Sknp(_) => 0xE
    case LdVxDt(_) | LdKey(_) | LdDtVx(_) | LdStVx(_) | AddI(_)
       | LdFont(_) | Bcd(_) | Store(_) | Load(_) => 0xF
  }

  lemma {:induction false} DecodeEncodeLow(i: Instr)
    requires FormOf(i) < 0x8
    ensures Decode(Encode(i)) == Some(i)
  {
    match i
    case Cls =>
    case Ret =>
    case Jp(nnn) => AddrFields(0x1, nnn);
    case Call(nnn) => AddrFields(0x2, nnn);
    case SeByte(x, kk) => ByteFields(0x3, x, kk);
    case SneByte(x, kk) => ByteFields(0x4, x, kk);
    case SeReg(x, y) => PackFields(0x5, x, y, 0x0);
    case LdByte(x, kk) => ByteFields(0x6, x, kk);
    case AddByte(x, kk) => ByteFields(0x7, x, kk);
  }

  lemma {:induction false} DecodeEncodeAlu(i: Instr)
    requires FormOf(i) == 0x8
    ensures Decode(Encode(i)) == Some(i)
  {
    match i
    case LdReg(x, y) => PackFields(0x8, x, y, 0x0);
    case Or(x, y) => PackFields(0x8, x, y, 0x1);
    case And(x, y) => PackFields(0x8, x, y, 0x2);
    case Xor(x, y) => PackFields(0x8, x, y, 0x3);
    case AddReg(x, y) => PackFields(0x8, x, y, 0x4);
    case Sub(x, y) => PackFields(0x8, x, y, 0x5);
    case Shr(x, y) => PackFields(0x8, x, y, 0x6);
    case Subn(x, y) => PackFields(0x8, x, y, 0x7);
    case Shl(x, y) => PackFields(0x8, x, y, 0xE);
  }

  lemma {:induction false} DecodeEncodeHigh(i: Instr)
    requires 0x8 < FormOf(i) < 0xF
    ensures Decode(Encode(i)) == Some(i)
  {
    match i
    case SneReg(x, y) => PackFields(0x9, x, y, 0x0);
    case LdI(nnn) => AddrFields(0xA, nnn);
    case JpV0(nnn) => AddrFields(0xB, nnn);
    case Rnd(x, kk) => ByteFields(0xC, x, kk);
    case Drw(x, y, n) => PackFields(0xD, x, y, n);
    case Skp(x) => ByteFields(0xE, x, 0x9E);
    case Sknp(x) => ByteFields(0xE, x, 0xA1);
  }

  lemma {:induction false} DecodeEncodeMisc(i: Instr)
    requires FormOf(i) == 0xF
    ensures Decode(Encode(i)) == Some(i)
  {
    match i
    case LdVxDt(x) => ByteFields(0xF, x, 0x07);
    case LdKey(x) => ByteFields(0xF, x, 0x0A);
    case LdDtVx(x) => ByteFields(0xF, x, 0x15);
    case LdStVx(x) => ByteFields(0xF, x, 0x18);
    case AddI(x) => ByteFields(0xF, x, 0x1E);
    case LdFont(x) => ByteFields(0xF, x, 0x29);
    case Bcd(x) => ByteFields(0xF, x, 0x33);
    case Store(x) => ByteFields(0xF, x, 0x55);
    case Load(x) => ByteFields(0xF, x, 0x65);
  }

  /** Decoding loses nothing: a decoded opcode is the encoding of the
      instruction it decodes to. */
  lemma EncodeDecode(op: Word)
    requires Decode(op).Some?
    ensures Encode(Decode(op).value) == op
  {
    Unpack(op);
    var w := FieldW(op);
    if w == 0x8 {
      EncodeDecodeAlu(op);
    } else if w == 0xF {
      EncodeDecodeMisc(op);
    }
  }

  lemma EncodeDecodeAlu(op: Word)
    requires FieldW(op) == 0x8 && Decode(op).Some?
    ensures Encode(Decode(op).value) == op
  {
    Unpack(op);
  }

  lemma EncodeDecodeMisc(op: Word)
    requires FieldW(op) == 0xF && Decode(op).Some?
    ensures Encode(Decode(op).value) == op
  {
    Unpack(op);
  }

  /** An opcode is handled exactly when it encodes some instruction. */
  lemma Handled(op: Word)
    ensures Decode(op).Some? <==> exists i :: Encode(i) == op
  {
    if Decode(op).Some? {
      EncodeDecode(op);
    }
    if exists i :: Encode(i) == op {
      var i :| Encode(i) == op;
      DecodeEncode(i);
    }
  }

  /** Machine-code calls 0nnn other than 00E0 and 00EE are not handled, nor
      are the 5xyz and 9xyz forms with z other than 0. */
  lemma Unhandled(op: Word)
    ensures op < 0x1000 && op != 0x00E0 && op != 0x00EE ==> Decode(op).None?
    ensures FieldW(op) in {0x5, 0x9} && FieldZ(op) != 0 ==> Decode(op).None?
  {
  }
}
