/** The decoder, the immediate generator and the execute units implement RV32I. */
module IsaConformance {
  import opened Wrappers
  import opened Words
  import opened Alu
  import opened Control
  import opened Dram
  import opened Machine
  import opened Rv32i

  // ---- immediates ----
  // Both sides are reduced to the same expression on the bits of the word, one sign at a time.

  lemma ShiftPositive(a: Word, n: bv6)
    requires n < 32 && a & 0x8000_0000 == 0
    ensures ShiftRightArithmetic(a, n) == a >> n
  {
  }

  lemma ShiftNegative(a: Word, n: bv6)
    requires n < 32 && a & 0x8000_0000 != 0
    ensures ShiftRightArithmetic(a, n) == !(!a >> n)
  {
  }

  lemma BitsOfI(w: Word)
    ensures ((w & 0xFFF0_0000) & 0x8000_0000 == 0) <==> (w & 0x8000_0000 == 0)
    ensures w & 0x8000_0000 == 0 ==> ((w & 0xFFF0_0000) >> 20) == ((w >> 20) & 0x7FF)
    ensures w & 0x8000_0000 != 0 ==> !(!(w & 0xFFF0_0000) >> 20) == (0xFFFF_FFFF << 11) | ((w >> 20) & 0x7FF)
  {
  }

  lemma GeneratedI(w: Word)
    ensures w & 0x8000_0000 == 0 ==> ImmediateI(w) == ((w >> 20) & 0x7FF)
    ensures w & 0x8000_0000 != 0 ==> ImmediateI(w) == (0xFFFF_FFFF << 11) | ((w >> 20) & 0x7FF)
  {
    hide ShiftRightArithmetic;
    BitsOfI(w);
    if w & 0x8000_0000 == 0 { ShiftPositive(w & 0xFFF0_0000, 20); } else { ShiftNegative(w & 0xFFF0_0000, 20); }
  }

  lemma SpecifiedI(w: Word)
    ensures w & 0x8000_0000 == 0 ==> ImmI(w) == 0 | ((w >> 20) & 0x7FF)
    ensures w & 0x8000_0000 != 0 ==> ImmI(w) == (0xFFFF_FFFF << 11) | ((w >> 20) & 0x7FF)
  {
  }

  lemma ImmediateIAgrees(w: Word)
    ensures ImmediateI(w) == ImmI(w)
  {
    hide ImmediateI, ImmI;
    GeneratedI(w);
    SpecifiedI(w);
  }

  lemma BitsOfS(w: Word)
    ensures (((w & 0xFE00_0000) | ((w & 0xF80) << 13)) & 0x8000_0000 == 0) <==> (w & 0x8000_0000 == 0)
    ensures w & 0x8000_0000 == 0 ==>
        (((w & 0xFE00_0000) | ((w & 0xF80) << 13)) >> 20) == (((w >> 25) & 0x3F) << 5) | ((w >> 7) & 0x1F)
    ensures w & 0x8000_0000 != 0 ==>
        !(!((w & 0xFE00_0000) | ((w & 0xF80) << 13)) >> 20) == (0xFFFF_FFFF << 11) | (((w >> 25) & 0x3F) << 5) |
        ((w >> 7) & 0x1F)
  {
  }

  lemma GeneratedS(w: Word)
    ensures w & 0x8000_0000 == 0 ==> ImmediateS(w) == (((w >> 25) & 0x3F) << 5) | ((w >> 7) & 0x1F)
    ensures w & 0x8000_0000 != 0 ==>
        ImmediateS(w) == (0xFFFF_FFFF << 11) | (((w >> 25) & 0x3F) << 5) | ((w >> 7) & 0x1F)
  {
    hide ShiftRightArithmetic;
    BitsOfS(w);
    if w & 0x8000_0000 == 0 { ShiftPositive((w & 0xFE00_0000) | ((w & 0xF80) << 13), 20); }
        else { ShiftNegative((w & 0xFE00_0000) | ((w & 0xF80) << 13), 20); }
  }

  lemma SpecifiedS(w: Word)
    ensures w & 0x8000_0000 == 0 ==> ImmS(w) == 0 | (((w >> 25) & 0x3F) << 5) | ((w >> 7) & 0x1F)
    ensures w & 0x8000_0000 != 0 ==> ImmS(w) == (0xFFFF_FFFF << 11) | (((w >> 25) & 0x3F) << 5) | ((w >> 7) & 0x1F)
  {
  }

  lemma ImmediateSAgrees(w: Word)
    ensures ImmediateS(w) == ImmS(w)
  {
    hide ImmediateS, ImmS;
    GeneratedS(w);
    SpecifiedS(w);
  }

  lemma BitsOfB(w: Word)
    ensures ((w & 0x8000_0000) & 0x8000_0000 == 0) <==> (w & 0x8000_0000 == 0)
    ensures w & 0x8000_0000 == 0 ==>
        (((w & 0xF00) >> 8) | ((w & 0x7E00_0000) >> 21) | ((w & 0x80) << 3) | ((w & 0x8000_0000) >> 20)) << 1 ==
        (((w >> 7) & 0x1) << 11) | (((w >> 25) & 0x3F) << 5) | (((w >> 8) & 0xF) << 1)
    ensures w & 0x8000_0000 != 0 ==>
        (((w & 0xF00) >> 8) | ((w & 0x7E00_0000) >> 21) | ((w & 0x80) << 3) | !(!(w & 0x8000_0000) >> 20)) << 1 ==
        (0xFFFF_FFFF << 12) | (((w >> 7) & 0x1) << 11) | (((w >> 25) & 0x3F) << 5) | (((w >> 8) & 0xF) << 1)
  {
  }

  lemma GeneratedB(w: Word)
    ensures w & 0x8000_0000 == 0 ==>
        ImmediateB(w) == (((w >> 7) & 0x1) << 11) | (((w >> 25) & 0x3F) << 5) | (((w >> 8) & 0xF) << 1)
    ensures w & 0x8000_0000 != 0 ==>
        ImmediateB(w) == (0xFFFF_FFFF << 12) | (((w >> 7) & 0x1) << 11) | (((w >> 25) & 0x3F) << 5) |
        (((w >> 8) & 0xF) << 1)
  {
    hide ShiftRightArithmetic;
    BitsOfB(w);
    if w & 0x8000_0000 == 0 { ShiftPositive(w & 0x8000_0000, 20); } else { ShiftNegative(w & 0x8000_0000, 20); }
  }

  lemma SpecifiedB(w: Word)
    ensures w & 0x8000_0000 == 0 ==>
        ImmB(w) == 0 | (((w >> 7) & 0x1) << 11) | (((w >> 25) & 0x3F) << 5) | (((w >> 8) & 0xF) << 1)
    ensures w & 0x8000_0000 != 0 ==>
        ImmB(w) == (0xFFFF_FFFF << 12) | (((w >> 7) & 0x1) << 11) | (((w >> 25) & 0x3F) << 5) | (((w >> 8) & 0xF) << 1)
  {
  }

  lemma ImmediateBAgrees(w: Word)
    ensures ImmediateB(w) == ImmB(w)
  {
    hide ImmediateB, ImmB;
    GeneratedB(w);
    SpecifiedB(w);
  }

  /** A branch is predicted as taken always, never, or exactly when its target lies behind it; the dynamic strategies
      are stubs that never do. */
  lemma Predictions(strategy: Strategy, w: Word)
    ensures Predict(strategy, w) <==> strategy == Taken || (strategy == Offset && Signed(ImmB(w)) < 0)
  {
    ImmediateBAgrees(w);
    SignOf(ImmB(w));
    hide ImmediateB, ImmB, Signed;
  }

  lemma SignOf(w: Word)
    ensures w & 0x8000_0000 != 0 <==> Signed(w) < 0
  {
  }

  lemma BitsOfJ(w: Word)
    ensures ((w & 0x8000_0000) & 0x8000_0000 == 0) <==> (w & 0x8000_0000 == 0)
    ensures w & 0x8000_0000 == 0 ==>
        (((w & 0x7FE0_0000) >> 21) | ((w & 0x0010_0000) >> 10) | ((w & 0x000F_F000) >> 1) |
        ((w & 0x8000_0000) >> 12)) << 1 == (((w >> 12) & 0xFF) << 12) | (((w >> 20) & 0x1) << 11) |
        (((w >> 21) & 0x3FF) << 1)
    ensures w & 0x8000_0000 != 0 ==>
        (((w & 0x7FE0_0000) >> 21) | ((w & 0x0010_0000) >> 10) | ((w & 0x000F_F000) >> 1) |
        !(!(w & 0x8000_0000) >> 12)) << 1 == (0xFFFF_FFFF << 20) | (((w >> 12) & 0xFF) << 12) |
        (((w >> 20) & 0x1) << 11) | (((w >> 21) & 0x3FF) << 1)
  {
  }

  lemma GeneratedJ(w: Word)
    ensures w & 0x8000_0000 == 0 ==>
        ImmediateJ(w) == (((w >> 12) & 0xFF) << 12) | (((w >> 20) & 0x1) << 11) | (((w >> 21) & 0x3FF) << 1)
    ensures w & 0x8000_0000 != 0 ==>
        ImmediateJ(w) == (0xFFFF_FFFF << 20) | (((w >> 12) & 0xFF) << 12) | (((w >> 20) & 0x1) << 11) |
        (((w >> 21) & 0x3FF) << 1)
  {
    hide ShiftRightArithmetic;
    BitsOfJ(w);
    if w & 0x8000_0000 == 0 { ShiftPositive(w & 0x8000_0000, 12); } else { ShiftNegative(w & 0x8000_0000, 12); }
  }

  lemma SpecifiedJ(w: Word)
    ensures w & 0x8000_0000 == 0 ==>
        ImmJ(w) == 0 | (((w >> 12) & 0xFF) << 12) | (((w >> 20) & 0x1) << 11) | (((w >> 21) & 0x3FF) << 1)
    ensures w & 0x8000_0000 != 0 ==>
        ImmJ(w) == (0xFFFF_FFFF << 20) | (((w >> 12) & 0xFF) << 12) | (((w >> 20) & 0x1) << 11) |
        (((w >> 21) & 0x3FF) << 1)
  {
  }

  lemma ImmediateJAgrees(w: Word)
    ensures ImmediateJ(w) == ImmJ(w)
  {
    hide ImmediateJ, ImmJ;
    GeneratedJ(w);
    SpecifiedJ(w);
  }

  lemma BitsOfU(w: Word)
    ensures (w & 0xFFFF_F000) & 0xFFF == 0 && w & 0xFFFF_F000 == ((w >> 12) & 0xFFFFF) << 12
  {
  }

  lemma BackPositive(x: Word)
    requires x & 0xFFF == 0
    ensures (x >> 12) << 12 == x
  {
  }

  lemma BackNegative(x: Word)
    requires x & 0xFFF == 0
    ensures !(!x >> 12) << 12 == x
  {
  }

  lemma ShiftBack(x: Word)
    requires x & 0xFFF == 0
    ensures ShiftRightArithmetic(x, 12) << 12 == x
  {
    hide ShiftRightArithmetic;
    if x & 0x8000_0000 == 0 {
      ShiftPositive(x, 12);
      BackPositive(x);
    } else {
      ShiftNegative(x, 12);
      BackNegative(x);
    }
  }

  lemma GeneratedU(w: Word)
    ensures ImmediateU(w) << 12 == ((w >> 12) & 0xFFFFF) << 12
  {
    hide ShiftRightArithmetic;
    BitsOfU(w);
    ShiftBack(w & 0xFFFF_F000);
  }

  lemma SpecifiedU(w: Word)
    ensures ImmU(w) == ((w >> 12) & 0xFFFFF) << 12
  {
  }

  /** lui and auipc shift the generated immediate back up. */
  lemma ImmediateUAgrees(w: Word)
    ensures ImmediateU(w) << 12 == ImmU(w)
  {
    hide ImmediateU, ImmU;
    GeneratedU(w);
    SpecifiedU(w);
  }

  // ---- units ----

  lemma SignedLessAgrees(a: Word, b: Word)
    ensures SignedLess(a, b) == LessSigned(a, b)
  {
  }

  lemma ArithmeticAgrees(a: Word, b: Word)
    ensures ArithmeticUnit(a, b, Add) == Compute(ADD, a, b) && ArithmeticUnit(a, b, Sub) == Compute(SUB, a, b)
  {
  }

  lemma CompareAgrees(a: Word, b: Word)
    ensures LessThanComparator(a, b, true) == Compute(SLT, a, b)
    ensures LessThanComparator(a, b, false) == Compute(SLTU, a, b)
  {
    hide SignedLess, LessSigned;
    SignedLessAgrees(a, b);
  }

  lemma SllAgrees(a: Word, b: Word)
    ensures LogicalUnit(a, b, ShiftLeft, false) == Compute(SLL, a, b)
  {
    hide ShiftRightArithmetic;
  }

  lemma XorAgrees(a: Word, b: Word)
    ensures LogicalUnit(a, b, Xor, false) == Compute(XOR, a, b)
  {
    hide ShiftRightArithmetic;
  }

  lemma SrlAgrees(a: Word, b: Word)
    ensures LogicalUnit(a, b, ShiftRight, false) == Compute(SRL, a, b)
  {
    hide ShiftRightArithmetic;
  }

  lemma SraAgrees(a: Word, b: Word)
    ensures LogicalUnit(a, b, ShiftRight, true) == Compute(SRA, a, b)
  {
    hide ShiftRightArithmetic;
  }

  lemma OrAgrees(a: Word, b: Word)
    ensures LogicalUnit(a, b, Or, false) == Compute(OR, a, b)
  {
    hide ShiftRightArithmetic;
  }

  lemma AndAgrees(a: Word, b: Word)
    ensures LogicalUnit(a, b, And, false) == Compute(AND, a, b)
  {
    hide ShiftRightArithmetic;
  }

  // ---- decoding ----

  function AluSignals(op: AluOp, format: Format, s2: Source2): CuOutput {
    match op
    case ADD => ArithSignals(format, s2, Add)
    case SUB => ArithSignals(format, s2, Sub)
    case SLL => LogicSignals(format, s2, ShiftLeft, false)
    case SLT => CompareSignals(format, s2, true)
    case SLTU => CompareSignals(format, s2, false)
    case XOR => LogicSignals(format, s2, Xor, false)
    case SRL => LogicSignals(format, s2, ShiftRight, false)
    case SRA => LogicSignals(format, s2, ShiftRight, true)
    case OR => LogicSignals(format, s2, Or, false)
    case AND => LogicSignals(format, s2, And, false)
  }

  function ConditionSignals(cond: Condition, predicted: bool): CuOutput {
    match cond
    case BEQ => BranchSignals(Equal, false, predicted)
    case BNE => BranchSignals(NotEqual, false, predicted)
    case BLT => BranchSignals(Less, true, predicted)
    case BGE => BranchSignals(GreaterEqual, true, predicted)
    case BLTU => BranchSignals(Less, false, predicted)
    case BGEU => BranchSignals(GreaterEqual, false, predicted)
  }

  /** The control signals that each instruction calls for. */
  function SignalsFor(i: Instruction, predicted: bool): CuOutput {
    match i
    case Lui(_, _) => UpperSignals(Upper)
    case Auipc(_, _) => UpperSignals(UpperPlusPc)
    case Jal(_, _) => JumpSignals(Format.J, Pc)
    case Jalr(_, _, _) => JumpSignals(Format.I, Rs1)
    case Branch(cond, _, _, _) => ConditionSignals(cond, predicted)
    case Load(width, _, _, _) => AccessSignals(Format.I, Read(width), true)
    case Store(size, _, _, _) => AccessSignals(Format.S, MemAccess.Write(size), false)
    case OpImm(op, _, _, _) => AluSignals(op, Format.I, Imm)
    case Op(op, _, _, _) => AluSignals(op, Format.R, Rs2)
    case Fence => BUBBLE
    case EnvironmentCall => SystemSignals(Ecall)
  }

  lemma FieldsAgree(w: Word)
    ensures Field(w, 0, 0x7F) == Opcode(w) && Field(w, 12, 0x7) == Funct3(w) && Field(w, 25, 0x7F) == Funct7(w)
    ensures Funct3(w) < 8
    ensures Opcode(0x73) == 0x73 && Funct7(0x73) == 0
  {
  }

  lemma DecoderAgreesI(strategy: Strategy, w: Word)
    requires DecodeWord(w).Some? && Opcode(w) == 0x13
    ensures Decode(strategy, w) == Some(SignalsFor(DecodeWord(w).value, Predict(strategy, w)))
  {
    hide Field, Opcode, Funct3, Funct7, Predict, ImmI, ImmS, ImmB, ImmU, ImmJ, RegisterField;
    FieldsAgree(w);
  }

  lemma DecoderAgreesR(strategy: Strategy, w: Word)
    requires DecodeWord(w).Some? && Opcode(w) == 0x33
    ensures Decode(strategy, w) == Some(SignalsFor(DecodeWord(w).value, Predict(strategy, w)))
  {
    hide Field, Opcode, Funct3, Funct7, Predict, ImmI, ImmS, ImmB, ImmU, ImmJ, RegisterField;
    FieldsAgree(w);
  }

  lemma DecoderAgreesLoad(strategy: Strategy, w: Word)
    requires DecodeWord(w).Some? && Opcode(w) == 0x03
    ensures Decode(strategy, w) == Some(SignalsFor(DecodeWord(w).value, Predict(strategy, w)))
  {
    hide Field, Opcode, Funct3, Funct7, Predict, ImmI, ImmS, ImmB, ImmU, ImmJ, RegisterField;
    FieldsAgree(w);
  }

  lemma DecoderAgreesStore(strategy: Strategy, w: Word)
    requires DecodeWord(w).Some? && Opcode(w) == 0x23
    ensures Decode(strategy, w) == Some(SignalsFor(DecodeWord(w).value, Predict(strategy, w)))
  {
    hide Field, Opcode, Funct3, Funct7, Predict, ImmI, ImmS, ImmB, ImmU, ImmJ, RegisterField;
    FieldsAgree(w);
  }

  lemma DecoderAgreesBranch(strategy: Strategy, w: Word)
    requires DecodeWord(w).Some? && Opcode(w) == 0x63
    ensures Decode(strategy, w) == Some(SignalsFor(DecodeWord(w).value, Predict(strategy, w)))
  {
    hide Field, Opcode, Funct3, Funct7, Predict, ImmI, ImmS, ImmB, ImmU, ImmJ, RegisterField;
    FieldsAgree(w);
  }

  lemma DecoderAgreesOther(strategy: Strategy, w: Word)
    requires DecodeWord(w).Some? && Opcode(w) !in {0x03, 0x13, 0x23, 0x33, 0x63}
    ensures Decode(strategy, w) == Some(SignalsFor(DecodeWord(w).value, Predict(strategy, w)))
  {
    hide Field, Opcode, Funct3, Funct7, Predict, ImmI, ImmS, ImmB, ImmU, ImmJ, RegisterField, ReadRFormat,
         ReadArithmeticI, ReadLoad, ReadSFormat, ReadBFormat, AluOpOf;
    FieldsAgree(w);
  }

  /** Every RV32I instruction word decodes to the signals of its mnemonic. */
  lemma DecoderAgrees(strategy: Strategy, w: Word)
    requires DecodeWord(w).Some?
    ensures Decode(strategy, w) == Some(SignalsFor(DecodeWord(w).value, Predict(strategy, w)))
  {
    hide Decode, DecodeWord, Opcode, Predict, SignalsFor;
    if Opcode(w) == 0x13 { DecoderAgreesI(strategy, w); }
    else if Opcode(w) == 0x33 { DecoderAgreesR(strategy, w); }
    else if Opcode(w) == 0x03 { DecoderAgreesLoad(strategy, w); }
    else if Opcode(w) == 0x23 { DecoderAgreesStore(strategy, w); }
    else if Opcode(w) == 0x63 { DecoderAgreesBranch(strategy, w); }
    else { DecoderAgreesOther(strategy, w); }
  }

  // ---- execution ----

  lemma RegisterWriteAgrees(regs: Registers, rd: RegNo, value: Word)
    requires regs[0] == 0
    ensures WriteBack(regs, true, rd, value) == SetRegister(regs, rd, value)
  {
  }

  /** The jump target of jalr, which the simulator does not mask. */
  predicate JumpAligned(i: Instruction, a: Arch) {
    i.Jalr? ==> Displaced(a.regs[i.rs1], i.imm) & 1 == 0
  }

  lemma AluAgrees(op: AluOp, s2: Source2, format: Format, pc: Word, pcNext: Word, v1: Word, v2: Word, imm: Word)
    ensures Execute(AluSignals(op, format, s2).ex, pc, pcNext, v1, v2, imm)
            == Executed(Compute(op, v1, if s2.Imm? then imm else v2), pcNext, false)
  {
    hide LogicalUnit, ArithmeticUnit, LessThanComparator, Compute;
    var b := if s2.Imm? then imm else v2;
    match op
    case ADD => ArithmeticAgrees(v1, b);
    case SUB => ArithmeticAgrees(v1, b);
    case SLL => SllAgrees(v1, b);
    case SLT => CompareAgrees(v1, b);
    case SLTU => CompareAgrees(v1, b);
    case XOR => XorAgrees(v1, b);
    case SRL => SrlAgrees(v1, b);
    case SRA => SraAgrees(v1, b);
    case OR => OrAgrees(v1, b);
    case AND => AndAgrees(v1, b);
  }

  lemma AddAgrees(a: Word, b: Word)
    ensures ArithmeticUnit(a, b, Add) == Displaced(a, b)
  {
  }

  lemma AccessAgrees(mem: MemAccess, wb: bool, format: Format, pc: Word, pcNext: Word, v1: Word, v2: Word, imm: Word)
    ensures Execute(AccessSignals(format, mem, wb).ex, pc, pcNext, v1, v2, imm) ==
        Executed(Displaced(v1, imm), pcNext, false)
  {
    hide ArithmeticUnit, Displaced;
    AddAgrees(v1, imm);
  }

  lemma JumpAgrees(s1: Source1, format: Format, pc: Word, pcNext: Word, v1: Word, v2: Word, imm: Word)
    ensures Execute(JumpSignals(format, s1).ex, pc, pcNext, v1, v2, imm)
            == Executed(pcNext, Displaced(if s1.Pc? then pc else v1, imm), true)
  {
    hide ArithmeticUnit, Displaced;
    AddAgrees(if s1.Pc? then pc else v1, imm);
  }

  lemma UpperAgrees(op: LogicOp, pc: Word, pcNext: Word, v1: Word, v2: Word, w: Word)
    requires op == Upper || op == UpperPlusPc
    ensures Execute(UpperSignals(op).ex, pc, pcNext, v1, v2, GenerateImmediate(Format.U, w))
            == Executed(if op == Upper then ImmU(w) else Displaced(pc, ImmU(w)), pcNext, false)
  {
    hide LogicalUnit, ImmU, Displaced, GenerateImmediate;
    UpperUnits(pc, w);
  }

  lemma UpperUnits(pc: Word, w: Word)
    ensures LogicalUnit(pc, GenerateImmediate(Format.U, w), Upper, false) == ImmU(w)
    ensures LogicalUnit(pc, GenerateImmediate(Format.U, w), UpperPlusPc, false) == Displaced(pc, ImmU(w))
  {
    hide ImmediateU, ImmU, LogicalUnit, Displaced;
    ImmediateUAgrees(w);
    UpperUnit(pc, ImmediateU(w));
  }

  lemma UpperUnit(a: Word, b: Word)
    ensures LogicalUnit(a, b, Upper, false) == b << 12
    ensures LogicalUnit(a, b, UpperPlusPc, false) == Displaced(a, b << 12)
  {
    hide ShiftRightArithmetic;
  }

  lemma ComparatorAgrees(cond: Condition, p: bool, v1: Word, v2: Word)
    ensures var ex := ConditionSignals(cond, p).ex;
        BranchComparator(v1, v2, ex.branch, ex.signed) == Holds(cond, v1, v2)
  {
    hide SignedLess, LessSigned;
    SignedLessAgrees(v1, v2);
    assert v1 >= v2 <==> !(v1 < v2);
  }

  lemma ConditionAgrees(cond: Condition, p: bool, pc: Word, pcNext: Word, v1: Word, v2: Word, imm: Word)
    ensures Execute(ConditionSignals(cond, p).ex, pc, pcNext, v1, v2, imm)
            == Executed(pcNext, Displaced(pc, imm), Holds(cond, v1, v2))
  {
    hide BranchComparator, Holds, ArithmeticUnit, Displaced;
    AddAgrees(pc, imm);
    ComparatorAgrees(cond, p, v1, v2);
  }

  lemma MaskEven(t: Word)
    ensures ClearLowBit(t) == t <==> t & 1 == 0
  {
  }

  /** The next instruction word of `a`, decoded by the manual. */
  function CurrentInstruction(a: Arch): Option<Instruction> { DecodeWord(CurrentWord(a)) }

  lemma InstructionFields(w: Word)
    requires DecodeWord(w).Some?
    ensures match DecodeWord(w).value
            case Lui(rd, imm) => rd == Rd(w) && imm == ImmU(w)
            case Auipc(rd, imm) => rd == Rd(w) && imm == ImmU(w)
            case Jal(rd, imm) => rd == Rd(w) && imm == ImmJ(w)
            case Jalr(rd, rs1, imm) => rd == Rd(w) && rs1 == Rs1Of(w) && imm == ImmI(w)
            case Branch(_, rs1, rs2, imm) => rs1 == Rs1Of(w) && rs2 == Rs2Of(w) && imm == ImmB(w)
            case Load(_, rd, rs1, imm) => rd == Rd(w) && rs1 == Rs1Of(w) && imm == ImmI(w)
            case Store(_, rs1, rs2, imm) => rs1 == Rs1Of(w) && rs2 == Rs2Of(w) && imm == ImmS(w)
            case OpImm(_, rd, rs1, imm) => rd == Rd(w) && rs1 == Rs1Of(w) && imm == ImmI(w)
            case Op(_, rd, rs1, rs2) => rd == Rd(w) && rs1 == Rs1Of(w) && rs2 == Rs2Of(w)
            case _ => true
  {
    hide Field, ImmI, ImmS, ImmB, ImmU, ImmJ, RegisterField, AluOpOf;
  }

  /** The values that the execute units work on. */
  lemma ImmediatesAgree(w: Word)
    ensures GenerateImmediate(Format.I, w) == ImmI(w) && GenerateImmediate(Format.S, w) == ImmS(w)
    ensures GenerateImmediate(Format.B, w) == ImmB(w) && GenerateImmediate(Format.J, w) == ImmJ(w)
  {
    hide ImmediateI, ImmediateS, ImmediateB, ImmediateJ, ImmI, ImmS, ImmB, ImmJ;
    ImmediateIAgrees(w);
    ImmediateSAgrees(w);
    ImmediateBAgrees(w);
    ImmediateJAgrees(w);
  }

  lemma AluStep(cfg: Config, a: Arch)
    requires a.regs[0] == 0 && CurrentInstruction(a).Some?
    requires CurrentInstruction(a).value.OpImm? || CurrentInstruction(a).value.Op?
    ensures Step(cfg, a) == Perform(CurrentInstruction(a).value, a)
  {
    hide Field, ImmI, ImmS, ImmB, ImmU, ImmJ, RegisterField, DecodeWord, Decode, WordAt, Compute, Following, Address,
         GenerateImmediate, WriteBack, SetRegister, Predict, Execute, Displaced;
    var w := CurrentWord(a);
    var i := DecodeWord(w).value;
    DecoderAgrees(cfg.strategy, w);
    InstructionFields(w);
    ImmediatesAgree(w);
    var s2 := if i.OpImm? then Imm else Rs2;
    var format := if i.OpImm? then Format.I else Format.R;
    AluAgrees(i.op, s2, format, a.pc, Following(a.pc), a.regs[Rs1Of(w)], a.regs[Rs2Of(w)],
        GenerateImmediate(format, w));
    RegisterWriteAgrees(a.regs, Rd(w), CurrentExecuted(cfg, a).result);
  }

  lemma UpperStep(cfg: Config, a: Arch)
    requires a.regs[0] == 0 && CurrentInstruction(a).Some?
    requires CurrentInstruction(a).value.Lui? || CurrentInstruction(a).value.Auipc?
    ensures Step(cfg, a) == Perform(CurrentInstruction(a).value, a)
  {
    hide Field, ImmI, ImmS, ImmB, ImmU, ImmJ, RegisterField, DecodeWord, Decode, WordAt, Following, Address,
         GenerateImmediate, WriteBack, SetRegister, Predict, Execute, Displaced;
    var w := CurrentWord(a);
    DecoderAgrees(cfg.strategy, w);
    InstructionFields(w);
    ImmediatesAgree(w);
    UpperAgrees(if DecodeWord(w).value.Lui? then Upper else UpperPlusPc, a.pc, Following(a.pc),
                a.regs[Rs1Of(w)], a.regs[Rs2Of(w)], w);
    RegisterWriteAgrees(a.regs, Rd(w), CurrentExecuted(cfg, a).result);
  }

  /** jal always, and jalr exactly when the target is even. */
  lemma JumpStep(cfg: Config, a: Arch)
    requires a.regs[0] == 0 && CurrentInstruction(a).Some?
    requires CurrentInstruction(a).value.Jal? || CurrentInstruction(a).value.Jalr?
    ensures Step(cfg, a) == Perform(CurrentInstruction(a).value, a) <==> JumpAligned(CurrentInstruction(a).value, a)
  {
    hide Field, ImmI, ImmS, ImmB, ImmU, ImmJ, RegisterField, DecodeWord, Decode, WordAt, Following, Address,
         GenerateImmediate, WriteBack, SetRegister, Predict, Execute, Displaced, ClearLowBit;
    var w := CurrentWord(a);
    DecoderAgrees(cfg.strategy, w);
    InstructionFields(w);
    ImmediatesAgree(w);
    if DecodeWord(w).value.Jal? {
      JumpAgrees(Pc, Format.J, a.pc, Following(a.pc), a.regs[Rs1Of(w)], a.regs[Rs2Of(w)],
          GenerateImmediate(Format.J, w));
    } else {
      JumpAgrees(Rs1, Format.I, a.pc, Following(a.pc), a.regs[Rs1Of(w)], a.regs[Rs2Of(w)],
          GenerateImmediate(Format.I, w));
    }
    RegisterWriteAgrees(a.regs, Rd(w), Following(a.pc));
    MaskEven(Displaced(a.regs[Rs1Of(w)], ImmI(w)));
  }

  lemma BranchStep(cfg: Config, a: Arch)
    requires CurrentInstruction(a).Some? && CurrentInstruction(a).value.Branch?
    ensures Step(cfg, a) == Perform(CurrentInstruction(a).value, a)
  {
    hide Field, ImmI, ImmS, ImmB, ImmU, ImmJ, RegisterField, DecodeWord, Decode, WordAt, Following, Address,
         GenerateImmediate, WriteBack, SetRegister, Predict, Execute, Displaced, Holds;
    var w := CurrentWord(a);
    DecoderAgrees(cfg.strategy, w);
    InstructionFields(w);
    ImmediatesAgree(w);
    ConditionAgrees(DecodeWord(w).value.cond, Predict(cfg.strategy, w), a.pc, Following(a.pc),
                    a.regs[Rs1Of(w)], a.regs[Rs2Of(w)], GenerateImmediate(Format.B, w));
  }

  lemma LoadStep(cfg: Config, a: Arch)
    requires a.regs[0] == 0 && CurrentInstruction(a).Some? && CurrentInstruction(a).value.Load?
    ensures Step(cfg, a) == Perform(CurrentInstruction(a).value, a)
  {
    hide Field, ImmI, ImmS, ImmB, ImmU, ImmJ, RegisterField, DecodeWord, Decode, WordAt, Following, Address,
         GenerateImmediate, WriteBack, SetRegister, Predict, Execute, Displaced, LoadValue;
    var w := CurrentWord(a);
    DecoderAgrees(cfg.strategy, w);
    InstructionFields(w);
    ImmediatesAgree(w);
    AccessAgrees(Read(DecodeWord(w).value.width), true, Format.I, a.pc, Following(a.pc),
                 a.regs[Rs1Of(w)], a.regs[Rs2Of(w)], GenerateImmediate(Format.I, w));
    RegisterWriteAgrees(a.regs, Rd(w), ResultValue(cfg, a));
  }

  lemma StoreStep(cfg: Config, a: Arch)
    requires CurrentInstruction(a).Some? && CurrentInstruction(a).value.Store? && AccessAllowed(cfg, a)
    ensures Step(cfg, a) == Perform(CurrentInstruction(a).value, a)
  {
    hide Field, ImmI, ImmS, ImmB, ImmU, ImmJ, RegisterField, DecodeWord, Decode, WordAt, Following, Address,
         GenerateImmediate, WriteBack, SetRegister, Predict, Execute, Displaced, StoreValue, StoreAllowed;
    var w := CurrentWord(a);
    DecoderAgrees(cfg.strategy, w);
    InstructionFields(w);
    ImmediatesAgree(w);
    AccessAgrees(MemAccess.Write(DecodeWord(w).value.size), false, Format.S, a.pc, Following(a.pc),
                 a.regs[Rs1Of(w)], a.regs[Rs2Of(w)], GenerateImmediate(Format.S, w));
  }

  /** One sequential step of the simulator is one RV32I instruction, exactly when a jalr target is even. */
  lemma StepConforms(cfg: Config, a: Arch)
    requires a.regs[0] == 0 && CurrentInstruction(a).Some? && AccessAllowed(cfg, a)
    ensures Decode(cfg.strategy, CurrentWord(a)).Some?
    ensures Step(cfg, a) == Perform(CurrentInstruction(a).value, a) <==> JumpAligned(CurrentInstruction(a).value, a)
    ensures Step(cfg, a).regs[0] == 0
  {
    hide Perform, Step, Decode, DecodeWord;
    DecoderAgrees(cfg.strategy, CurrentWord(a));
    StepKeepsZero(cfg, a);
    match CurrentInstruction(a).value
    case OpImm(_, _, _, _) => AluStep(cfg, a);
    case Op(_, _, _, _) => AluStep(cfg, a);
    case Lui(_, _) => UpperStep(cfg, a);
    case Auipc(_, _) => UpperStep(cfg, a);
    case Jal(_, _) => JumpStep(cfg, a);
    case Jalr(_, _, _) => JumpStep(cfg, a);
    case Branch(_, _, _, _) => BranchStep(cfg, a);
    case Load(_, _, _, _) => LoadStep(cfg, a);
    case Store(_, _, _, _) => StoreStep(cfg, a);
    case Fence => IdleStep(cfg, a);
    case EnvironmentCall => IdleStep(cfg, a);
  }

  lemma StepKeepsZero(cfg: Config, a: Arch)
    requires a.regs[0] == 0
    ensures Step(cfg, a).regs[0] == 0
  {
    hide Decode, WordAt, Execute, NextPc, ApplyMemWrite;
  }

  lemma IdleStep(cfg: Config, a: Arch)
    requires CurrentInstruction(a).Some?
    requires CurrentInstruction(a).value.Fence? || CurrentInstruction(a).value.EnvironmentCall?
    ensures Step(cfg, a) == Perform(CurrentInstruction(a).value, a)
  {
    hide Field, ImmI, ImmS, ImmB, ImmU, ImmJ, RegisterField, DecodeWord, Decode, WordAt, Following, Address,
         GenerateImmediate, WriteBack, SetRegister, Predict, Execute, Displaced;
    var w := CurrentWord(a);
    DecoderAgrees(cfg.strategy, w);
    InstructionFields(w);
    ImmediatesAgree(w);
  }

  // ---- whole executions ----

  /** Executing RV32I one instruction at a time; a word outside RV32I stops the machine. */
  function IsaSteps(a: Arch, n: nat): Arch {
    if n == 0 then a
    else
      var b := IsaSteps(a, n - 1);
      match CurrentInstruction(b)
      case Some(i) => Perform(i, b)
      case None => b
  }

  /** The first n instructions are RV32I and their jalr targets are even. */
  ghost predicate RunsRv32i(a: Arch, n: nat) {
    forall k | 0 <= k < n :: CurrentInstruction(IsaSteps(a, k)).Some?
                             && JumpAligned(CurrentInstruction(IsaSteps(a, k)).value, IsaSteps(a, k))
  }

  lemma {:induction false} StepsConform(cfg: Config, a: Arch, n: nat)
    requires a.regs[0] == 0 && RunsRv32i(a, n) && Legal(cfg, a, n)
    ensures Steps(cfg, a, n) == IsaSteps(a, n) && Steps(cfg, a, n).regs[0] == 0
  {
    hide Step, Perform, CurrentInstruction, JumpAligned, AccessAllowed, Fetchable;
    if n > 0 {
      StepsConform(cfg, a, n - 1);
      assert Fetchable(cfg, Steps(cfg, a, n - 1)) && AccessAllowed(cfg, Steps(cfg, a, n - 1));
      assert CurrentInstruction(IsaSteps(a, n - 1)).Some?;
      StepConforms(cfg, Steps(cfg, a, n - 1));
    }
  }

  // ---- an odd jalr target ----

  const ODD_JALR: Word := 0x0010_0067   // jalr x0, 1(x0)

  /** The program that consists of it. */
  function OddProgram(): Arch { Arch(0, seq(32, _ => 0), [0x67, 0x00, 0x10, 0x00]) }

  lemma OddWord()
    ensures CurrentWord(OddProgram()) == ODD_JALR
  {
    var ram := OddProgram().ram;
    assert Address(0) == 0;
    assert ByteAt(ram, 0) == 0x67 && ByteAt(ram, 1) == 0 && ByteAt(ram, 2) == 0x10 && ByteAt(ram, 3) == 0;
  }

  lemma OddFields()
    ensures DecodeWord(ODD_JALR) == Some(Jalr(0, 0, 1)) && RegisterField(ODD_JALR, 15) == 0
        && RegisterField(ODD_JALR, 7) == 0
    ensures GenerateImmediate(Format.I, ODD_JALR) == 1 && Displaced(0, 1) == 1 && ClearLowBit(1) == 0
  {
    assert ImmI(ODD_JALR) == 1;
    hide ImmI, ImmS, ImmB, ImmU, ImmJ;
  }

  lemma OddSum()
    ensures ArithmeticUnit(0, 1, Add) == 1
  {
  }

  lemma OddDecodes(strategy: Strategy)
    ensures Decode(strategy, ODD_JALR) == Some(JumpSignals(Format.I, Rs1))
  {
  }

  /** The simulator goes on at 1, where the ISA goes on at 0. */
  lemma {:induction false} OddJalrDiffers(cfg: Config)
    ensures var a := OddProgram();
      && a.regs[0] == 0 && CurrentInstruction(a) == Some(Jalr(0, 0, 1)) && AccessAllowed(cfg, a)
      && Step(cfg, a).pc == 1 && Perform(Jalr(0, 0, 1), a).pc == 0
  {
    OddWord();
    OddFields();
    OddSum();
    OddDecodes(cfg.strategy);
    hide CurrentWord, DecodeWord, Decode, RegisterField, GenerateImmediate, Displaced, ClearLowBit, ArithmeticUnit,
         Following, WriteBack, SetRegister, ApplyRegWrite, ApplyMemWrite, LoadAllowed, StoreAllowed;
  }
}
