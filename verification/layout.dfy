/** The machine constants of chip8.h, the built-in font, and the byte layout
    of the interpreter's state inside the reserved area below program space. */
module Layout {
  import opened Prelude

  /** Screen width and height in pixels (W, H). */
  const Width: nat := 64
  const Height: nat := 32

  /** Total addressable memory (MAX_MEMORY). */
  const MaxMemory: nat := 0x1000

  /** First address of program space (PROGRAM_SPACE). */
  const ProgramSpace: nat := 0x200

  /** Largest loadable program (MAX_PROGRAM_SIZE). */
  const MaxProgramSize: nat := MaxMemory - ProgramSpace

  /** Number of call-stack slots (STACK_SIZE). */
  const StackSize: nat := 16

  /** Number of general purpose registers (MAX_REGISTERS). */
  const MaxRegisters: nat := 16

  /** Timer and screen refresh rate (FPS). */
  const Fps: nat := 60

  /** Bytes per font glyph. */
  const GlyphSize: nat := 5

  /** Address of the font table: its offset inside the state struct that
      overlays the reserved memory (see UnionLayout). */
  const FontBase: nat := 0x38

  /** The glyphs of the hexadecimal digits 0-F, five rows of four pixels each. */
  const Font: seq<Byte> := [
    0xF0, 0x90, 0x90, 0x90, 0xF0, // 0
    0x20, 0x60, 0x20, 0x20, 0x70, // 1
    0xF0, 0x10, 0xF0, 0x80, 0xF0, // 2
    0xF0, 0x10, 0xF0, 0x10, 0xF0, // 3
    0x90, 0x90, 0xF0, 0x10, 0x10, // 4
    0xF0, 0x80, 0xF0, 0x10, 0xF0, // 5
    0xF0, 0x80, 0xF0, 0x90, 0xF0, // 6
    0xF0, 0x10, 0x20, 0x40, 0x40, // 7
    0xF0, 0x90, 0xF0, 0x90, 0xF0, // 8
    0xF0, 0x90, 0xF0, 0x10, 0xF0, // 9
    0xF0, 0x90, 0xF0, 0x90, 0x90, // A
    0xE0, 0x90, 0xE0, 0x90, 0xE0, // B
    0xF0, 0x80, 0x80, 0x80, 0xF0, // C
    0xE0, 0x90, 0x90, 0x90, 0xE0, // D
    0xF0, 0x80, 0xF0, 0x80, 0xF0, // E
    0xF0, 0x80, 0xF0, 0x80, 0x80  // F
  ]

  /** The five bytes drawn for hexadecimal digit d. */
  function Glyph(d: Nibble): (g: seq<Byte>)
    ensures |g| == GlyphSize
    ensures forall k :: 0 <= k < GlyphSize ==> g[k] == Font[GlyphSize * d + k]
  {
    Font[GlyphSize * d .. GlyphSize * d + GlyphSize]
  }

  /** The program-space constants agree with each other. */
  lemma ProgramSpaceSize()
    ensures MaxProgramSize == 3584
    ensures ProgramSpace + MaxProgramSize == MaxMemory
    ensures Width * Height == 2048 && Width * Height % 8 == 0
  {
  }

  /** One member of the structure overlaid on the reserved memory: its size
      and its alignment in bytes. */
  datatype Field = Field(size: nat, align: nat)

  predicate Alignable(fields: seq<Field>)
  {
    forall k :: 0 <= k < |fields| ==> fields[k].align in {1, 2, 4, 8}
  }

  /** The first multiple of align at or after offset. */
  function AlignUp(offset: nat, align: nat): (r: nat)
    requires align in {1, 2, 4, 8}
    ensures offset <= r < offset + align
    ensures r % align == 0
  {
    AlignUpBounds(offset, align);
    offset + (align - offset % align) % align
  }

  lemma AlignUpBounds(offset: nat, align: nat)
    requires align in {1, 2, 4, 8}
    ensures var r := offset + (align - offset % align) % align;
      offset <= r < offset + align && r % align == 0
  {
    if align == 1 {
    } else if align == 2 {
    } else if align == 4 {
    } else {
    }
  }

  /** The offset of field k when the fields are laid out in declaration
      order from offset 0, each at the first offset its alignment allows
      at or after the end of the previous one: fields never overlap, and
      each wastes less than its alignment in padding. */
  function FieldOffset(fields: seq<Field>, k: nat): (r: nat)
    requires Alignable(fields) && k < |fields|
    ensures r % fields[k].align == 0
    ensures PreviousEnd(fields, k) <= r < PreviousEnd(fields, k) + fields[k].align
    decreases k, 1
  {
    AlignUp(PreviousEnd(fields, k), fields[k].align)
  }

  /** The first byte after the fields before field k. */
  function PreviousEnd(fields: seq<Field>, k: nat): nat
    requires Alignable(fields) && k < |fields|
    decreases k, 0
  {
    if k == 0 then 0 else FieldOffset(fields, k - 1) + fields[k - 1].size
  }

  /** The first byte after the last field. */
  function StructEnd(fields: seq<Field>): nat
    requires Alignable(fields)
  {
    if |fields| == 0 then 0 else FieldOffset(fields, |fields| - 1) + fields[|fields| - 1].size
  }

  /** The anonymous structure of the state union, on an LP64 target where a
      std::bitset is a run of 8-byte words. */
  const UnionFields: seq<Field> := [
    Field(MaxRegisters, 1), // V
    Field(2, 2), // I
    Field(2, 2), // PC
    Field(2 * StackSize, 2), // stack
    Field(1, 1), // SP
    Field(1, 1), // waitingKey
    Field(1, 1), // delayTimer
    Field(1, 1), // soundTimer
    Field(16 * GlyphSize, 1), // font
    Field(Width * Height / 8, 8), // display
    Field(2, 2) // keys
  ]

  /** Index of the font table among the fields. */
  const FontField: nat := 8

  /** The offsets of V, I, PC, stack, SP and waitingKey. */
  lemma RegisterOffsets()
    ensures Alignable(UnionFields)
    ensures FieldOffset(UnionFields, 5) == 53
  {
    var f := UnionFields;
    assert FieldOffset(f, 0) == 0;
    assert FieldOffset(f, 1) == 16;
    assert FieldOffset(f, 2) == 18;
    assert FieldOffset(f, 3) == 20;
    assert FieldOffset(f, 4) == 52;
  }

  /** The offsets of the timers and of the font table. */
  lemma FontOffset()
    ensures Alignable(UnionFields)
    ensures FieldOffset(UnionFields, FontField) == 56
  {
    var f := UnionFields;
    RegisterOffsets();
    assert FieldOffset(f, 6) == 54;
    assert FieldOffset(f, 7) == 55;
  }

  /** The state structure ends below program space, so a program loaded at
      ProgramSpace never overwrites interpreter state, and the font table
      starts at FontBase. */
  lemma UnionLayout()
    ensures Alignable(UnionFields)
    ensures FieldOffset(UnionFields, FontField) == FontBase
    ensures UnionFields[FontField].size == |Font|
    ensures FontBase + |Font| <= ProgramSpace
    ensures StructEnd(UnionFields) == 394 <= ProgramSpace
  {
    DisplayOffsets();
    assert |Font| == 80;
  }

  /** The offsets of the display bitset and of the keypad mask. */
  lemma DisplayOffsets()
    ensures Alignable(UnionFields)
    ensures FieldOffset(UnionFields, FontField) == 56
    ensures FieldOffset(UnionFields, 10) == 392
  {
    var f := UnionFields;
    FontOffset();
    assert FieldOffset(f, 9) == 136;
  }
}
