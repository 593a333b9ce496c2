/** The arithmetic, logic and compare units and the immediate generator (src/execution/alu.c). */
module Alu {
  import opened Words

  datatype ArithOp = Add | Sub
  datatype LogicOp = And | Or | Xor | ShiftLeft | ShiftRight | Upper | UpperPlusPc
  datatype BranchOp = Equal | NotEqual | Less | GreaterEqual | Jump
  datatype Format = NoFormat | R | I | S | B | U | J

  function ArithmeticUnit(a: Word, b: Word, op: ArithOp): Word {
    match op
    case Add => a + b
    case Sub => a - b
  }

  /** int32_t comparison: flip the sign bits and compare as unsigned words. */
  predicate SignedLess(a: Word, b: Word) {
    a ^ 0x8000_0000 < b ^ 0x8000_0000
  }

  function LogicalUnit(a: Word, b: Word, op: LogicOp, signed: bool): Word {
    var shift := (b & 0x1F) as bv6;
    match op
    case And => a & b
    case Or => a | b
    case Xor => a ^ b
    case ShiftLeft => a << shift
    case ShiftRight => if signed then ShiftRightArithmetic(a, shift) else a >> shift
    case Upper => b << 12
    case UpperPlusPc => (b << 12) + a
  }

  function LessThanComparator(a: Word, b: Word, signed: bool): Word {
    if (if signed then SignedLess(a, b) else a < b) then 1 else 0
  }

  predicate BranchComparator(a: Word, b: Word, op: BranchOp, signed: bool) {
    match op
    case Equal => a == b
    case NotEqual => a != b
    case Less => if signed then SignedLess(a, b) else a < b
    case GreaterEqual => if signed then !SignedLess(a, b) else a >= b
    case Jump => false
  }

  function ImmediateI(ir: Word): Word { ShiftRightArithmetic(ir & 0xFFF0_0000, 20) }

  function ImmediateS(ir: Word): Word {
    ShiftRightArithmetic((ir & 0xFE00_0000) | ((ir & 0xF80) << 13), 20)
  }

  function ImmediateB(ir: Word): Word {
    (((ir & 0xF00) >> 8)
     | ((ir & 0x7E00_0000) >> 21)
     | ((ir & 0x80) << 3)
     | ShiftRightArithmetic(ir & 0x8000_0000, 20)) << 1
  }

  function ImmediateU(ir: Word): Word { ShiftRightArithmetic(ir & 0xFFFF_F000, 12) }

  function ImmediateJ(ir: Word): Word {
    (((ir & 0x7FE0_0000) >> 21)
     | ((ir & 0x0010_0000) >> 10)
     | ((ir & 0x000F_F000) >> 1)
     | ShiftRightArithmetic(ir & 0x8000_0000, 12)) << 1
  }

  function GenerateImmediate(format: Format, ir: Word): Word {
    match format
    case NoFormat => 0
    case R => 0
    case I => ImmediateI(ir)
    case S => ImmediateS(ir)
    case B => ImmediateB(ir)
    case U => ImmediateU(ir)
    case J => ImmediateJ(ir)
  }
}
