/** The RV32I base integer instruction set, written from The RISC-V Instruction Set Manual, Volume I
    (20191213), sections 2.2 to 2.6, independently of the simulator's control signals. */
module Rv32i {
  import opened Wrappers
  import opened Words
  import opened Control
  import opened Dram
  import opened Machine

  datatype AluOp = ADD | SUB | SLL | SLT | SLTU | XOR | SRL | SRA | OR | AND
  datatype Condition = BEQ | BNE | BLT | BGE | BLTU | BGEU

  datatype Instruction =
    | Lui(rd: RegNo, imm: Word)
    | Auipc(rd: RegNo, imm: Word)
    | Jal(rd: RegNo, imm: Word)
    | Jalr(rd: RegNo, rs1: RegNo, imm: Word)
    | Branch(cond: Condition, rs1: RegNo, rs2: RegNo, imm: Word)
    | Load(width: LoadOp, rd: RegNo, rs1: RegNo, imm: Word)
    | Store(size: StoreOp, rs1: RegNo, rs2: RegNo, imm: Word)
    | OpImm(op: AluOp, rd: RegNo, rs1: RegNo, imm: Word)
    | Op(op: AluOp, rd: RegNo, rs1: RegNo, rs2: RegNo)
    | Fence
    | EnvironmentCall

  // ---- immediates (section 2.3) ----

  /** The bits of w from position `lo` up that the mask selects. */
  function Field(w: Word, lo: bv6, mask: Word): Word
    requires lo < 32
  {
    (w >> lo) & mask
  }

  predicate Negative(w: Word) { w & 0x8000_0000 != 0 }

  /** Every immediate is sign-extended from bit 31 of the instruction. */
  function SignFill(w: Word, from: bv6): Word
    requires from < 32
  {
    if Negative(w) then 0xFFFF_FFFF << from else 0
  }

  function ImmI(w: Word): Word { SignFill(w, 11) | Field(w, 20, 0x7FF) }
  function ImmS(w: Word): Word { SignFill(w, 11) | (Field(w, 25, 0x3F) << 5) | Field(w, 7, 0x1F) }
  function ImmB(w: Word): Word {
    SignFill(w, 12) | (Field(w, 7, 0x1) << 11) | (Field(w, 25, 0x3F) << 5) | (Field(w, 8, 0xF) << 1)
  }
  function ImmU(w: Word): Word { Field(w, 12, 0xFFFFF) << 12 }
  function ImmJ(w: Word): Word {
    SignFill(w, 20) | (Field(w, 12, 0xFF) << 12) | (Field(w, 20, 0x1) << 11) | (Field(w, 21, 0x3FF) << 1)
  }

  // ---- encodings (section 2.2 and the instruction listings) ----

  function AluOpOf(funct3: Word, alternative: bool): AluOp {
    if funct3 == 0 then (if alternative then SUB else ADD)
    else if funct3 == 1 then SLL
    else if funct3 == 2 then SLT
    else if funct3 == 3 then SLTU
    else if funct3 == 4 then XOR
    else if funct3 == 5 then (if alternative then SRA else SRL)
    else if funct3 == 6 then OR
    else AND
  }

  /** None for words that are not RV32I instructions (ebreak is left out). */
  function DecodeWord(w: Word): Option<Instruction> {
    var opcode, funct3, funct7 := Field(w, 0, 0x7F), Field(w, 12, 0x7), Field(w, 25, 0x7F);
    var rd, rs1, rs2 := Rd(w), Rs1Of(w), Rs2Of(w);
    if opcode == 0x37 then Some(Lui(rd, ImmU(w)))
    else if opcode == 0x17 then Some(Auipc(rd, ImmU(w)))
    else if opcode == 0x6F then Some(Jal(rd, ImmJ(w)))
    else if opcode == 0x67 && funct3 == 0 then Some(Jalr(rd, rs1, ImmI(w)))
    else if opcode == 0x63 then
      if funct3 == 0 then Some(Branch(BEQ, rs1, rs2, ImmB(w)))
      else if funct3 == 1 then Some(Branch(BNE, rs1, rs2, ImmB(w)))
      else if funct3 == 4 then Some(Branch(BLT, rs1, rs2, ImmB(w)))
      else if funct3 == 5 then Some(Branch(BGE, rs1, rs2, ImmB(w)))
      else if funct3 == 6 then Some(Branch(BLTU, rs1, rs2, ImmB(w)))
      else if funct3 == 7 then Some(Branch(BGEU, rs1, rs2, ImmB(w)))
      else None
    else if opcode == 0x03 then
      if funct3 == 0 then Some(Load(LoadByte, rd, rs1, ImmI(w)))
      else if funct3 == 1 then Some(Load(LoadHalf, rd, rs1, ImmI(w)))
      else if funct3 == 2 then Some(Load(LoadWord, rd, rs1, ImmI(w)))
      else if funct3 == 4 then Some(Load(LoadByteUnsigned, rd, rs1, ImmI(w)))
      else if funct3 == 5 then Some(Load(LoadHalfUnsigned, rd, rs1, ImmI(w)))
      else None
    else if opcode == 0x23 then
      if funct3 == 0 then Some(Store(StoreByte, rs1, rs2, ImmS(w)))
      else if funct3 == 1 then Some(Store(StoreHalf, rs1, rs2, ImmS(w)))
      else if funct3 == 2 then Some(Store(StoreWord, rs1, rs2, ImmS(w)))
      else None
    else if opcode == 0x13 then
      if funct3 == 1 && funct7 != 0 then None
      else if funct3 == 5 && funct7 != 0 && funct7 != 0x20 then None
      else Some(OpImm(AluOpOf(funct3, funct3 == 5 && funct7 == 0x20), rd, rs1, ImmI(w)))
    else if opcode == 0x33 then
      if funct7 == 0 || (funct7 == 0x20 && (funct3 == 0 || funct3 == 5))
      then Some(Op(AluOpOf(funct3, funct7 == 0x20), rd, rs1, rs2))
      else None
    else if opcode == 0x0F && funct3 == 0 then Some(Fence)
    else if w == 0x73 then Some(EnvironmentCall)
    else None
  }

  // ---- semantics (sections 2.4 to 2.6) ----

  predicate LessSigned(a: Word, b: Word) {
    if Negative(a) == Negative(b) then a < b else Negative(a)
  }

  function Compute(op: AluOp, a: Word, b: Word): Word {
    var shamt := (b & 0x1F) as bv6;
    match op
    case ADD => a + b
    case SUB => a - b
    case SLL => a << shamt
    case SLT => if LessSigned(a, b) then 1 else 0
    case SLTU => if a < b then 1 else 0
    case XOR => a ^ b
    case SRL => a >> shamt
    case SRA => ShiftRightArithmetic(a, shamt)
    case OR => a | b
    case AND => a & b
  }

  predicate Holds(cond: Condition, a: Word, b: Word) {
    match cond
    case BEQ => a == b
    case BNE => a != b
    case BLT => LessSigned(a, b)
    case BGE => !LessSigned(a, b)
    case BLTU => a < b
    case BGEU => !(a < b)
  }

  function SetRegister(regs: Registers, rd: RegNo, value: Word): Registers {
    if rd == 0 then regs else regs[rd := value]
  }

  function Displaced(base: Word, imm: Word): Word { base + imm }

  function ClearLowBit(w: Word): Word { w & 0xFFFF_FFFE }

  function Write(a: Arch, rd: RegNo, value: Word): Arch {
    a.(regs := SetRegister(a.regs, rd, value), pc := Following(a.pc))
  }

  function Perform(i: Instruction, a: Arch): Arch {
    match i
    case Lui(rd, imm) => Write(a, rd, imm)
    case Auipc(rd, imm) => Write(a, rd, Displaced(a.pc, imm))
    case Jal(rd, imm) => Write(a, rd, Following(a.pc)).(pc := Displaced(a.pc, imm))
    case Jalr(rd, rs1, imm) => Write(a, rd, Following(a.pc)).(pc := ClearLowBit(Displaced(a.regs[rs1], imm)))
    case Branch(cond, rs1, rs2, imm) =>
      a.(pc := if Holds(cond, a.regs[rs1], a.regs[rs2]) then Displaced(a.pc, imm) else Following(a.pc))
    case Load(width, rd, rs1, imm) => Write(a, rd, LoadValue(a.ram, Address(Displaced(a.regs[rs1], imm)), width))
    case Store(size, rs1, rs2, imm) =>
      a.(ram := StoreValue(a.ram, Address(Displaced(a.regs[rs1], imm)), a.regs[rs2], size), pc := Following(a.pc))
    case OpImm(op, rd, rs1, imm) => Write(a, rd, Compute(op, a.regs[rs1], imm))
    case Op(op, rd, rs1, rs2) => Write(a, rd, Compute(op, a.regs[rs1], a.regs[rs2]))
    case Fence => a.(pc := Following(a.pc))
    case EnvironmentCall => a.(pc := Following(a.pc))
  }
}
