/** Machine words and register numbers shared by the simulator models. */
module Words {
  type Word = bv32
  type Byte = bv8

  /** A register number, 0 to 31. */
  type RegNo = n: nat | n < 32

  /** The five bits of w starting at bit `low`, as a register number. */
  function RegisterField(w: Word, low: bv6): (n: RegNo)
    requires low <= 27
  {
    ((w >> low) & 0x1F) as int
  }

  /** A word used as an index into memory. */
  function Address(w: Word): nat { w as int }

  /** The address of the next instruction word. */
  function Following(pc: Word): Word { pc + 4 }

  /** The right shift of an int32_t, which copies the sign bit: complement, shift, complement. */
  function ShiftRightArithmetic(a: Word, n: bv6): Word
    requires n < 32
  {
    if a & 0x8000_0000 == 0 then a >> n else !(!a >> n)
  }

  /** The source's cast to int32_t, as a mathematical integer. */
  function Signed(w: Word): int {
    if w & 0x8000_0000 != 0 then w as int - 0x1_0000_0000 else w as int
  }
}
