/** Every word the assembler emits decodes to the instruction that was written. */
module AssemblerProof {
  import opened Wrappers
  import opened Words
  import opened Alu
  import opened Control
  import opened Machine
  import opened Rv32i
  import opened Assembler
  import opened WordNumbers
  import opened AssemblerNumbers
  import IsaConformance

  // ---- what a line of source means ----

  /** The register that a text names; 0 stands for any other text. */
  function RegOf(s: string): RegNo { if IsRegister(s) then RegisterIn(s) else 0 }

  function BaseOf(s: string): RegNo { RegOf(BaseText(s)) }

  /** The word of the number that a text denotes. */
  function NumberOf(s: string): Word { if IsNumeral(s) then AsWord(IntOf(s)) else 0 }

  function OffsetOf(s: string): Word { NumberOf(OffsetText(s)) }

  function UpperOf(s: string): Word { Upper12(NumberOf(s)) }

  function Upper12(w: Word): Word { w << 12 }

  /** How far it is from here to the label. */
  function Reach(table: seq<Symbol>, name: string, address: Word): Word {
    match GetAddress(table, name)
    case Some(there) => Distance(there, address)
    case None => 0
  }

  function Triple(op: AluOp,
      t: seq<string>): Instruction { Instruction.Op(op, RegOf(Token(t, 1)), RegOf(Token(t, 2)), RegOf(Token(t, 3))) }

  function WithImmediate(op: AluOp, t: seq<string>): Instruction {
    OpImm(op, RegOf(Token(t, 1)), RegOf(Token(t, 2)), NumberOf(Token(t, 3)))
  }

  /** The shift amount; bit 10 tells srai from srli (section 2.4.1 of the ISA manual). */
  function WithShift(op: AluOp, t: seq<string>): Instruction {
    OpImm(op, RegOf(Token(t, 1)), RegOf(Token(t, 2)), ShiftImmediate(op, NumberOf(Token(t, 3))))
  }

  function ShiftImmediate(op: AluOp, amount: Word): Word { if op == SRA then Tagged(amount) else amount }

  function Tagged(amount: Word): Word { 0x400 | amount }

  function ToLabel(cond: Condition, t: seq<string>, table: seq<Symbol>, address: Word): Instruction {
    Branch(cond, RegOf(Token(t, 1)), RegOf(Token(t, 2)), Reach(table, Token(t, 3), address))
  }

  function From(width: LoadOp, t: seq<string>): Instruction {
    Load(width, RegOf(Token(t, 1)), BaseOf(Token(t, 2)), OffsetOf(Token(t, 2)))
  }

  function To(size: StoreOp, t: seq<string>): Instruction {
    Store(size, BaseOf(Token(t, 2)), RegOf(Token(t, 1)), OffsetOf(Token(t, 2)))
  }

  /** The instruction a mnemonic and its operands name (the listings of sections 2.4 to 2.8). */
  function Meaning(m: Mnemonic, t: seq<string>, table: seq<Symbol>, address: Word): Instruction
    requires m != ebreak
  {
    match m
    case add => Triple(ADD, t)
    case sub => Triple(SUB, t)
    case sll => Triple(SLL, t)
    case slt => Triple(SLT, t)
    case sltu => Triple(SLTU, t)
    case xor => Triple(XOR, t)
    case srl => Triple(SRL, t)
    case sra => Triple(SRA, t)
    case or => Triple(OR, t)
    case and => Triple(AND, t)
    case addi => WithImmediate(ADD, t)
    case slti => WithImmediate(SLT, t)
    case sltiu => WithImmediate(SLTU, t)
    case xori => WithImmediate(XOR, t)
    case ori => WithImmediate(OR, t)
    case andi => WithImmediate(AND, t)
    case slli => WithShift(SLL, t)
    case srli => WithShift(SRL, t)
    case srai => WithShift(SRA, t)
    case lui => Lui(RegOf(Token(t, 1)), UpperOf(Token(t, 2)))
    case auipc => Auipc(RegOf(Token(t, 1)), UpperOf(Token(t, 2)))
    case jal => Jal(RegOf(Token(t, 1)), Reach(table, Token(t, 2), address))
    case jalr => Jalr(RegOf(Token(t, 1)), BaseOf(Token(t, 2)), OffsetOf(Token(t, 2)))
    case beq => ToLabel(BEQ, t, table, address)
    case bne => ToLabel(BNE, t, table, address)
    case blt => ToLabel(BLT, t, table, address)
    case bge => ToLabel(BGE, t, table, address)
    case bltu => ToLabel(BLTU, t, table, address)
    case bgeu => ToLabel(BGEU, t, table, address)
    case lb => From(LoadByte, t)
    case lh => From(LoadHalf, t)
    case lw => From(LoadWord, t)
    case lbu => From(LoadByteUnsigned, t)
    case lhu => From(LoadHalfUnsigned, t)
    case sb => To(StoreByte, t)
    case sh => To(StoreHalf, t)
    case sw => To(StoreWord, t)
    case ecall => EnvironmentCall
    case fence => Fence
    case nop => OpImm(ADD, 0, 0, 0)
  }

  // ---- fields of the packed words ----

  predicate FixedOk(opcode: Word, funct3: Word, funct7: Word) { opcode <= 0x7F && funct3 <= 7 && funct7 <= 0x7F }

  predicate Number5(n: Word) { n <= 31 }

  predicate Even(w: Word) { w & 1 == 0 }

  /** The header fields that every format leaves as the table has them. */
  predicate Header(w: Word, opcode: Word, funct3: Word) { Field(w, 0, 0x7F) == opcode && Field(w, 12, 7) == funct3 }

  lemma PackRFields(opcode: Word, funct3: Word, funct7: Word, a: Word, b: Word, c: Word)
    requires FixedOk(opcode, funct3, funct7) && Number5(a) && Number5(b) && Number5(c)
    ensures
      var w := PackR(Fixed(opcode, funct3, funct7), a, b, c);
      Header(w, opcode, funct3) && Field(w, 25, 0x7F) == funct7 && Field(w, 7, 31) == a && Field(w, 15, 31) == b
          && Field(w, 20, 31) == c
  {
  }

  lemma PackIHeader(opcode: Word, funct3: Word, a: Word, b: Word, imm: Word)
    requires FixedOk(opcode, funct3, 0) && Number5(a) && Number5(b) && Between(imm, 0xFFFF_F800, 2047)
    ensures var w := PackR(Fixed(opcode, funct3, 0), a, b, imm);
      Header(w, opcode, funct3) && Field(w, 7, 31) == a && Field(w, 15, 31) == b
  {
  }

  lemma PackIImmediate(opcode: Word, funct3: Word, a: Word, b: Word, imm: Word)
    requires FixedOk(opcode, funct3, 0) && Number5(a) && Number5(b) && Between(imm, 0xFFFF_F800, 2047)
    ensures var w := PackR(Fixed(opcode, funct3, 0), a, b, imm);
      ImmI(w) == imm
  {
  }

  lemma PackIFields(opcode: Word, funct3: Word, a: Word, b: Word, imm: Word)
    requires FixedOk(opcode, funct3, 0) && Number5(a) && Number5(b) && Between(imm, 0xFFFF_F800, 2047)
    ensures
      var w := PackR(Fixed(opcode, funct3, 0), a, b, imm);
      Header(w, opcode, funct3) && Field(w, 7, 31) == a && Field(w, 15, 31) == b && ImmI(w) == imm
  {
    hide FixedOk, Number5, Between, Even, Fixed, Field, PackR, PackS, PackB, ImmI, ImmS, ImmB, Tagged;
    PackIHeader(opcode, funct3, a, b, imm);
    PackIImmediate(opcode, funct3, a, b, imm);
  }

  lemma PackShiftFields(funct3: Word, funct7: Word, a: Word, b: Word, amount: Word)
    requires FixedOk(0x13, funct3, funct7) && (funct7 == 0 || funct7 == 0x20) && Number5(a) && Number5(b)
        && Number5(amount)
    ensures
      var w := PackR(Fixed(0x13, funct3, funct7), a, b, amount);
      Header(w, 0x13, funct3) && Field(w, 25, 0x7F) == funct7 && Field(w, 7, 31) == a && Field(w, 15, 31) == b
      && ImmI(w) == (if funct7 == 0 then amount else Tagged(amount))
  {
  }

  lemma PackSHeader(opcode: Word, funct3: Word, a: Word, b: Word, imm: Word)
    requires FixedOk(opcode, funct3, 0) && Number5(a) && Number5(b) && Between(imm, 0xFFFF_F800, 2047)
    ensures var w := PackS(Fixed(opcode, funct3, 0), a, b, imm);
      Header(w, opcode, funct3) && Field(w, 20, 31) == a && Field(w, 15, 31) == b
  {
  }

  lemma PackSImmediate(opcode: Word, funct3: Word, a: Word, b: Word, imm: Word)
    requires FixedOk(opcode, funct3, 0) && Number5(a) && Number5(b) && Between(imm, 0xFFFF_F800, 2047)
    ensures var w := PackS(Fixed(opcode, funct3, 0), a, b, imm);
      ImmS(w) == imm
  {
  }

  lemma PackSFields(opcode: Word, funct3: Word, a: Word, b: Word, imm: Word)
    requires FixedOk(opcode, funct3, 0) && Number5(a) && Number5(b) && Between(imm, 0xFFFF_F800, 2047)
    ensures
      var w := PackS(Fixed(opcode, funct3, 0), a, b, imm);
      Header(w, opcode, funct3) && Field(w, 20, 31) == a && Field(w, 15, 31) == b && ImmS(w) == imm
  {
    hide FixedOk, Number5, Between, Even, Fixed, Field, PackR, PackS, PackB, ImmI, ImmS, ImmB, Tagged;
    PackSHeader(opcode, funct3, a, b, imm);
    PackSImmediate(opcode, funct3, a, b, imm);
  }

  lemma PackBHeader(opcode: Word, funct3: Word, a: Word, b: Word, offset: Word)
    requires FixedOk(opcode, funct3, 0) && Number5(a) && Number5(b) && Between(offset, 0xFFFF_F000, 4095)
        && Even(offset)
    ensures var w := PackB(Fixed(opcode, funct3, 0), a, b, offset);
      Header(w, opcode, funct3) && Field(w, 15, 31) == a && Field(w, 20, 31) == b
  {
  }

  lemma PackBImmediate(opcode: Word, funct3: Word, a: Word, b: Word, offset: Word)
    requires FixedOk(opcode, funct3, 0) && Number5(a) && Number5(b) && Between(offset, 0xFFFF_F000, 4095)
        && Even(offset)
    ensures var w := PackB(Fixed(opcode, funct3, 0), a, b, offset);
      ImmB(w) == offset
  {
  }

  lemma PackBFields(opcode: Word, funct3: Word, a: Word, b: Word, offset: Word)
    requires FixedOk(opcode, funct3, 0) && Number5(a) && Number5(b) && Between(offset, 0xFFFF_F000, 4095)
        && Even(offset)
    ensures
      var w := PackB(Fixed(opcode, funct3, 0), a, b, offset);
      Header(w, opcode, funct3) && Field(w, 15, 31) == a && Field(w, 20, 31) == b && ImmB(w) == offset
  {
    hide FixedOk, Number5, Between, Even, Fixed, Field, PackR, PackS, PackB, ImmI, ImmS, ImmB, Tagged;
    PackBHeader(opcode, funct3, a, b, offset);
    PackBImmediate(opcode, funct3, a, b, offset);
  }

  lemma PackUFields(opcode: Word, a: Word, imm: Word)
    requires FixedOk(opcode, 0, 0) && Number5(a) && Between(imm, 0, 1048575)
    ensures
      var w := PackU(Fixed(opcode, 0, 0), a, imm);
      Field(w, 0, 0x7F) == opcode && Field(w, 7, 31) == a && ImmU(w) == Upper12(imm)
  {
  }

  lemma PackJParts(opcode: Word, a: Word, offset: Word)
    requires FixedOk(opcode, 0, 0) && Number5(a)
    ensures
      var w := PackJ(Fixed(opcode, 0, 0), a, offset);
      && Field(w, 0, 0x7F) == opcode && Field(w, 7, 31) == a
      && Field(w, 12, 0xFF) == Field(offset, 12, 0xFF) && Field(w, 20, 1) == Field(offset, 11, 1)
      && Field(w, 21, 0x3FF) == Field(offset, 1, 0x3FF) && (Negative(w) <==> Bit20(offset))
  {
  }

  predicate Bit20(offset: Word) { offset & 0x10_0000 != 0 }

  function Fill(offset: Word): Word { if Bit20(offset) then 0xFFFF_FFFF << 20 else 0 }

  lemma Extended(offset: Word)
    requires Between(offset, 0xFFF0_0000, 1048575)
    ensures offset & 0xFFF0_0000 == if Bit20(offset) then 0xFFF0_0000 else 0
  {
  }

  lemma JoinBits(offset: Word)
    ensures (offset & 0xFFF0_0000) | (((offset >> 12) & 0xFF) << 12) | (((offset >> 11) & 1) << 11) |
        (((offset >> 1) & 0x3FF) << 1) | (offset & 1) == offset
  {
  }

  /** The parts put together again, for an even offset of 21 bits. */
  lemma JoinJ(offset: Word)
    requires Between(offset, 0xFFF0_0000, 1048575) && Even(offset)
    ensures Fill(offset) | (Field(offset, 12, 0xFF) << 12) | (Field(offset, 11, 1) << 11) |
        (Field(offset, 1, 0x3FF) << 1) == offset
  {
    hide Between;
    Extended(offset);
    JoinBits(offset);
  }

  lemma SameFill(w: Word, offset: Word)
    requires Negative(w) <==> Bit20(offset)
    ensures SignFill(w, 20) == Fill(offset)
  {
  }

  lemma ImmJIs(w: Word)
    ensures ImmJ(w) == SignFill(w, 20) | (Field(w, 12, 0xFF) << 12) | (Field(w, 20, 0x1) << 11) |
        (Field(w, 21, 0x3FF) << 1)
  {
  }

  lemma PackJFields(opcode: Word, a: Word, offset: Word)
    requires FixedOk(opcode, 0, 0) && Number5(a) && Between(offset, 0xFFF0_0000, 1048575) && Even(offset)
    ensures
      var w := PackJ(Fixed(opcode, 0, 0), a, offset);
      Field(w, 0, 0x7F) == opcode && Field(w, 7, 31) == a && ImmJ(w) == offset
  {
    hide PackJ, Between, Negative, Field, SignFill, Fill, Fixed, FixedOk, Number5, Even, Bit20, ImmJ;
    var w := PackJ(Fixed(opcode, 0, 0), a, offset);
    PackJParts(opcode, a, offset);
    JoinJ(offset);
    SameFill(w, offset);
    ImmJIs(w);
  }

  // ---- operands ----

  lemma RegisterRange(n: Word)
    requires Between(n, 0, 31)
    ensures Number5(n)
  {
  }

  lemma SameRegister(w: Word, low: bv6, n: Word)
    requires low <= 27 && Field(w, low, 31) == n && Number5(n)
    ensures RegisterField(w, low) == RegisterField(n, 0)
  {
    assert (n >> 0) & 0x1F == n;
  }

  /** A register operand that passed the checks, as a field of a word. */
  lemma RegisterOperand(s: string)
    requires ReadR(s).Some?
    ensures Number5(ReadOperand(RegisterKind, s)) && RegOf(s) == RegisterField(ReadOperand(RegisterKind, s), 0)
  {
    hide ReadR, Number5, Between, AsWord, RegisterIn, IsRegister, RegisterField;
    RegRange(s);
    RegisterRead(s);
    FieldOfRegister(RegOf(s));
  }

  lemma AddressOperandOk(s: string)
    requires ReadA(s).Some?
    ensures Number5(AddressOperand(s).1) && BaseOf(s) == RegisterField(AddressOperand(s).1, 0)
    ensures Between(AddressOperand(s).0, 0xFFFF_F800, 2047) && OffsetOf(s) == AddressOperand(s).0
  {
    hide ReadR, ReadI, Number5, Between, AsWord, IntOf, Denotes, RegisterIn, IsRegister, RegisterField, OffsetText,
         BaseText, ReadA, NumberOf;
    AddressRead(s);
    ImmediateRead(OffsetText(s));
    ImmRange(OffsetText(s));
    RegisterRead(BaseText(s));
    RegRange(BaseText(s));
    FieldOfRegister(BaseOf(s));
  }

  /** An accepted register operand is a register number. */
  lemma RegRange(s: string)
    ensures ReadR(s).Some? ==> Number5(ReadR(s).value)
  {
    if ReadR(s).Some? { RegisterRange(ReadR(s).value); }
    hide Number5, Between;
  }

  /** An accepted number is in the range of its field, and is the number that the text denotes. */
  lemma ImmRange(s: string)
    ensures ReadI(s).Some? ==> Between(ReadI(s).value, 0xFFFF_F800, 2047) && ReadI(s).value == NumberOf(s)
    ensures ReadS(s).Some? ==> Between(ReadS(s).value, 0, 31) && ReadS(s).value == NumberOf(s)
    ensures ReadU(s).Some? ==> Between(ReadU(s).value, 0, 1048575) && ReadU(s).value == NumberOf(s)
  {
    ImmediateRead(s);
    hide Between, AsWord, ReadNumber, IntOf;
  }

  // ---- one format at a time ----

  /** The line was accepted and names m. */
  predicate Accepted(t: seq<string>, m: Mnemonic) { Assembler.Legal(t) && MnemonicOf(Token(t, 0)) == Some(m) }

  /** What get_opcode calls, and the operands that were checked. */
  lemma Dispatch(m: Mnemonic, t: seq<string>, table: seq<Symbol>, address: Word)
    requires Accepted(t, m)
    ensures var f := RowOf(m).format; var w := GetOpcode(t, table, address);
      && (f == Format.R ==> w == EncodeR(RowOf(m), t))
      && (f == Format.I ==> w == EncodeI(RowOf(m), t))
      && (f == Format.S ==> w == EncodeS(RowOf(m), t))
      && (f == Format.B ==> w == EncodeB(RowOf(m), t, table, address))
      && (f == Format.U ==> w == EncodeU(RowOf(m), t))
      && (f == Format.J ==> w == EncodeJ(RowOf(m), t, table, address))
  {
    hide MnemonicOf, RowOf, OperandOk, EncodeR, EncodeI, EncodeS, EncodeB, EncodeU, EncodeJ;
  }

  lemma Checked123(m: Mnemonic, t: seq<string>)
    requires Accepted(t, m)
    ensures RowOf(m).operands > 0 ==> OperandOk(RowOf(m).op1, Token(t, 1))
    ensures RowOf(m).operands > 1 ==> OperandOk(RowOf(m).op2, Token(t, 2))
    ensures RowOf(m).operands > 2 ==> OperandOk(RowOf(m).op3, Token(t, 3))
  {
    hide MnemonicOf, RowOf, OperandOk;
  }

  /** No row overflows its fields. */
  lemma RowFits(m: Mnemonic)
    ensures var r := RowOf(m); FixedOk(r.opcode, r.funct3, r.funct7)
  {
    match m
    case add =>
    case sub =>
    case sll =>
    case slt =>
    case sltu =>
    case xor =>
    case srl =>
    case sra =>
    case or =>
    case and =>
    case addi =>
    case slti =>
    case sltiu =>
    case xori =>
    case ori =>
    case andi =>
    case slli =>
    case srli =>
    case srai =>
    case lui =>
    case auipc =>
    case jal =>
    case jalr =>
    case beq =>
    case bne =>
    case blt =>
    case bge =>
    case bltu =>
    case bgeu =>
    case lb =>
    case lh =>
    case lw =>
    case lbu =>
    case lhu =>
    case sb =>
    case sh =>
    case sw =>
    case ecall =>
    case ebreak =>
    case fence =>
    case nop =>
  }

  function AluOf(m: Mnemonic): AluOp {
    match m
    case sub => SUB
    case sll => SLL
    case slli => SLL
    case slt => SLT
    case slti => SLT
    case sltu => SLTU
    case sltiu => SLTU
    case xor => XOR
    case xori => XOR
    case srl => SRL
    case srli => SRL
    case sra => SRA
    case srai => SRA
    case or => OR
    case ori => OR
    case and => AND
    case andi => AND
    case _ => ADD
  }

  // How DecodeWord treats each opcode.

  lemma Opcode33(w: Word)
    requires Field(w, 0, 0x7F) == 0x33
    ensures var funct3, funct7 := Field(w, 12, 7), Field(w, 25, 0x7F);
      funct7 == 0 || (funct7 == 0x20 && (funct3 == 0 || funct3 == 5)) ==>
        DecodeWord(w) == Some(Instruction.Op(AluOpOf(funct3, funct7 == 0x20), Rd(w), Rs1Of(w), Rs2Of(w)))
  {
    hide Field, RegisterField, ImmI, ImmS, ImmB, ImmU, ImmJ, AluOpOf;
  }

  /** The R-format rows, in order. */
  function RowR(m: Mnemonic): Row {
    match m
    case sub => Register3(0, 0x20)
    case sll => Register3(1, 0)
    case slt => Register3(2, 0)
    case sltu => Register3(3, 0)
    case xor => Register3(4, 0)
    case srl => Register3(5, 0)
    case sra => Register3(5, 0x20)
    case or => Register3(6, 0)
    case and => Register3(7, 0)
    case _ => Register3(0, 0)
  }

  lemma RowRFirst(m: Mnemonic)
    requires m == add || m == sub || m == sll || m == slt || m == sltu
    ensures RowOf(m) == RowR(m)
  {
    hide Register3, Immediate3, Branch3, Indexed, Bare;
    match m
    case add =>
    case sub =>
    case sll =>
    case slt =>
    case sltu =>
    case _ =>
  }

  lemma RowRLast(m: Mnemonic)
    requires m == xor || m == srl || m == sra || m == or || m == and
    ensures RowOf(m) == RowR(m)
  {
    hide Register3, Immediate3, Branch3, Indexed, Bare;
    match m
    case xor =>
    case srl =>
    case sra =>
    case or =>
    case and =>
    case _ =>
  }

  lemma RowRIs(m: Mnemonic)
    requires RowOf(m).format == Format.R
    ensures RowOf(m) == RowR(m)
  {
    IsR(m);
    hide RowOf, RowR;
    if m == xor || m == srl || m == sra || m == or || m == and { RowRLast(m); } else { RowRFirst(m); }
  }

  /** Only Register3 makes R-format rows. */
  lemma NotR()
    ensures forall kind, f3, f7 :: Immediate3(kind, f3, f7).format == Format.I
    ensures forall f3 :: Branch3(f3).format == Format.B
    ensures forall opcode, f3 ::
        Indexed(Format.I, opcode, f3).format == Format.I && Indexed(Format.S, opcode, f3).format == Format.S
    ensures forall opcode, f7 :: Bare(opcode, f7).format == Format.I
  {
  }

  lemma AluOps()
    ensures AluOpOf(0, false) == ADD && AluOpOf(0, true) == SUB && AluOpOf(1, false) == SLL && AluOpOf(2, false) == SLT
        && AluOpOf(3, false) == SLTU
    ensures AluOpOf(4, false) == XOR && AluOpOf(5, false) == SRL && AluOpOf(5, true) == SRA && AluOpOf(6, false) == OR
        && AluOpOf(7, false) == AND
  {
  }

  predicate AluMatches(r: Row, op: AluOp) {
    && (r.funct7 == 0 || (r.funct7 == 0x20 && (r.funct3 == 0 || r.funct3 == 5)))
    && AluOpOf(r.funct3, r.funct7 == 0x20) == op
  }

  lemma AluRowA(m: Mnemonic)
    requires m == add || m == sub || m == sll || m == slt
    ensures AluMatches(RowR(m), AluOf(m))
  {
    hide AluOpOf;
    AluOps();
    match m
    case add => assert RowR(m) == Register3(0, 0);
    case sub => assert RowR(m) == Register3(0, 0x20);
    case sll => assert RowR(m) == Register3(1, 0);
    case slt => assert RowR(m) == Register3(2, 0);
    case _ =>
  }

  lemma AluRowB(m: Mnemonic)
    requires m == sltu || m == xor || m == srl
    ensures AluMatches(RowR(m), AluOf(m))
  {
    hide AluOpOf;
    AluOps();
    match m
    case sltu => assert RowR(m) == Register3(3, 0);
    case xor => assert RowR(m) == Register3(4, 0);
    case srl => assert RowR(m) == Register3(5, 0);
    case _ =>
  }

  lemma AluRowC(m: Mnemonic)
    requires m == sra || m == or || m == and
    ensures AluMatches(RowR(m), AluOf(m))
  {
    hide AluOpOf;
    AluOps();
    match m
    case sra => assert RowR(m) == Register3(5, 0x20);
    case or => assert RowR(m) == Register3(6, 0);
    case and => assert RowR(m) == Register3(7, 0);
    case _ =>
  }

  lemma AluRow(m: Mnemonic)
    requires RowOf(m).format == Format.R
    ensures AluMatches(RowOf(m), AluOf(m))
  {
    RowRIs(m);
    IsR(m);
    hide RowOf, RowR, AluOf, AluMatches;
    if m == add || m == sub || m == sll || m == slt { AluRowA(m); }
    else if m == sltu || m == xor || m == srl { AluRowB(m); }
    else { AluRowC(m); }
  }

  lemma IsR(m: Mnemonic)
    requires RowOf(m).format == Format.R
    ensures m == add || m == sub || m == sll || m == slt || m == sltu || m == xor || m == srl || m == sra || m == or
        || m == and
  {
    hide Register3, Immediate3, Branch3, Indexed, Bare;
    NotR();
  }

  lemma DecodesR(m: Mnemonic, w: Word)
    requires RowOf(m).format == Format.R
    requires Header(w, 0x33, RowOf(m).funct3) && Field(w, 25, 0x7F) == RowOf(m).funct7
    ensures DecodeWord(w) == Some(Instruction.Op(AluOf(m), Rd(w), Rs1Of(w), Rs2Of(w)))
  {
    hide Field, RegisterField, DecodeWord, AluOpOf, RowOf, AluOf;
    Opcode33(w);
    AluRow(m);
  }

  /** Three registers under opcode OP. */
  predicate ThreeRegisters(r: Row) { r.op1 == RegisterKind && r.op2 == RegisterKind && r.op3 == RegisterKind
      && r.opcode == 0x33 && r.operands == 3 }

  lemma Register3Shape()
    ensures forall funct3, funct7 :: ThreeRegisters(Register3(funct3, funct7))
  {
  }

  lemma ShapeR(m: Mnemonic)
    ensures ThreeRegisters(RowR(m))
  {
    hide ThreeRegisters, Register3;
    Register3Shape();
  }

  lemma MeaningR(m: Mnemonic, t: seq<string>, table: seq<Symbol>, address: Word)
    requires m == add || m == sub || m == sll || m == slt || m == sltu || m == xor || m == srl || m == sra || m == or
        || m == and
    ensures Meaning(m, t, table, address) == Triple(AluOf(m), t)
  {
    hide Triple;
    match m
    case add =>
    case sub =>
    case sll =>
    case slt =>
    case sltu =>
    case xor =>
    case srl =>
    case sra =>
    case or =>
    case and =>
    case _ =>
  }

  lemma MeaningOfR(m: Mnemonic, t: seq<string>, table: seq<Symbol>, address: Word)
    requires RowOf(m).format == Format.R
    ensures m != ebreak && Meaning(m, t, table, address) == Triple(AluOf(m), t)
  {
    IsR(m);
    hide RowOf, Meaning, Triple, AluOf;
    MeaningR(m, t, table, address);
  }

  lemma RowsR(m: Mnemonic, t: seq<string>, table: seq<Symbol>, address: Word)
    requires RowOf(m).format == Format.R
    ensures var r := RowOf(m);
      && r.op1 == RegisterKind && r.op2 == RegisterKind && r.op3 == RegisterKind && r.opcode == 0x33 && r.operands == 3
      && m != ebreak && Meaning(m, t, table, address) == Triple(AluOf(m), t)
  {
    hide RowOf, RowR, Meaning, Triple, AluOf;
    RowRIs(m);
    ShapeR(m);
    MeaningOfR(m, t, table, address);
  }

  lemma EncodesR(m: Mnemonic, t: seq<string>, table: seq<Symbol>, address: Word)
    requires Accepted(t, m) && RowOf(m).format == Format.R
    ensures m != ebreak && DecodeWord(GetOpcode(t, table, address)) == Some(Meaning(m, t, table, address))
  {
    Dispatch(m, t, table, address);
    Checked123(m, t);
    RowsR(m, t, table, address);
    RowFits(m);
    hide RegOf, BaseOf, OffsetOf, NumberOf, Accepted, GetOpcode, ReadR, Fixed, FixedOk, Number5, Field, RegisterField,
         PackR, Header, RowOf, Meaning, DecodeWord;
    var r := RowOf(m);
    var a, b, c := ReadOperand(RegisterKind, Token(t, 1)), ReadOperand(RegisterKind, Token(t, 2)),
        ReadOperand(RegisterKind, Token(t, 3));
    RegisterOperand(Token(t, 1));
    RegisterOperand(Token(t, 2));
    RegisterOperand(Token(t, 3));
    PackRFields(r.opcode, r.funct3, r.funct7, a, b, c);
    var w := PackR(Fixed(r.opcode, r.funct3, r.funct7), a, b, c);
    SameRegister(w, 7, a);
    SameRegister(w, 15, b);
    SameRegister(w, 20, c);
    DecodesR(m, w);
  }

  // ---- immediates and shifts ----

  predicate ArithmeticI(m: Mnemonic) { m == addi || m == slti || m == sltiu || m == xori || m == ori || m == andi }

  predicate ShiftI(m: Mnemonic) { m == slli || m == srli || m == srai }

  lemma Opcode13(w: Word)
    requires Field(w, 0, 0x7F) == 0x13
    ensures var funct3, funct7 := Field(w, 12, 7), Field(w, 25, 0x7F);
      (funct3 == 1 ==> funct7 == 0) && (funct3 == 5 ==> funct7 == 0 || funct7 == 0x20) ==>
        DecodeWord(w) == Some(OpImm(AluOpOf(funct3, funct3 == 5 && funct7 == 0x20), Rd(w), Rs1Of(w), ImmI(w)))
  {
    hide Field, RegisterField, ImmI, ImmS, ImmB, ImmU, ImmJ, AluOpOf;
  }

  function RowI(m: Mnemonic): Row {
    match m
    case slti => Immediate3(ImmediateKind, 2, 0)
    case sltiu => Immediate3(ImmediateKind, 3, 0)
    case xori => Immediate3(ImmediateKind, 4, 0)
    case ori => Immediate3(ImmediateKind, 6, 0)
    case andi => Immediate3(ImmediateKind, 7, 0)
    case _ => Immediate3(ImmediateKind, 0, 0)
  }

  lemma RowIIs(m: Mnemonic)
    requires ArithmeticI(m)
    ensures RowOf(m) == RowI(m)
  {
    hide Register3, Immediate3, Branch3, Indexed, Bare;
    match m
    case addi =>
    case slti =>
    case sltiu =>
    case xori =>
    case ori =>
    case andi =>
    case _ =>
  }

  predicate Kinds(r: Row, k3: Kind) { r.op1 == RegisterKind && r.op2 == RegisterKind && r.op3 == k3
      && r.format == Format.I && r.operands == 3 }

  /** The fixed fields of an OP-IMM row without a shift. */
  predicate PlainImmediate(r: Row, op: AluOp) {
    r.opcode == 0x13 && r.funct7 == 0 && FixedOk(r.opcode, r.funct3, 0) && r.funct3 != 1 && r.funct3 != 5
        && AluOpOf(r.funct3, false) == op
  }

  lemma ShapeI(m: Mnemonic)
    requires ArithmeticI(m)
    ensures Kinds(RowI(m), ImmediateKind)
  {
  }

  lemma AluI(m: Mnemonic)
    requires ArithmeticI(m)
    ensures PlainImmediate(RowI(m), AluOf(m))
  {
    match m
    case addi =>
    case slti =>
    case sltiu =>
    case xori =>
    case ori =>
    case andi =>
    case _ =>
  }

  lemma MeaningI(m: Mnemonic, t: seq<string>, table: seq<Symbol>, address: Word)
    requires ArithmeticI(m)
    ensures Meaning(m, t, table, address) == WithImmediate(AluOf(m), t)
  {
    hide WithImmediate;
    match m
    case addi =>
    case slti =>
    case sltiu =>
    case xori =>
    case ori =>
    case andi =>
    case _ =>
  }

  /** A word that decodes as that operation on those operands. */
  predicate DecodesOpImm(w: Word, op: AluOp, a: Word, b: Word, imm: Word) {
    DecodeWord(w) == Some(OpImm(op, Rd(w), Rs1Of(w), ImmI(w))) && Field(w, 7, 31) == a && Field(w, 15, 31) == b
        && ImmI(w) == imm
  }

  lemma PackImmediate(r: Row, op: AluOp, a: Word, b: Word, c: Word)
    requires PlainImmediate(r, op) && Number5(a) && Number5(b) && Between(c, 0xFFFF_F800, 2047)
    ensures DecodesOpImm(PackR(Base(r), a, b, c), op, a, b, c)
  {
    hide Number5, Between, Field, ImmI, DecodeWord, AluOpOf, PackR, Fixed, RegisterField, FixedOk;
    PackIFields(0x13, r.funct3, a, b, c);
    Opcode13(PackR(Base(r), a, b, c));
  }

  lemma EncodesArithmeticI(m: Mnemonic, t: seq<string>, table: seq<Symbol>, address: Word)
    requires Accepted(t, m) && ArithmeticI(m)
    ensures DecodeWord(GetOpcode(t, table, address)) == Some(Meaning(m, t, table, address))
  {
    hide RegOf, BaseOf, OffsetOf, NumberOf, Accepted, ArithmeticI, GetOpcode, ReadR, ReadI, ReadS, ReadU, ReadA,
         Number5, Field, PackR, RowOf, RowI, Meaning, DecodeWord, ImmI, Between, Base, PlainImmediate, AluOf,
         RegisterField;
    Dispatch(m, t, table, address);
    Checked123(m, t);
    RowIIs(m);
    ShapeI(m);
    AluI(m);
    MeaningI(m, t, table, address);
    var a, b, c := ReadOperand(RegisterKind, Token(t, 1)), ReadOperand(RegisterKind, Token(t, 2)),
        ReadOperand(ImmediateKind, Token(t, 3));
    RegisterOperand(Token(t, 1));
    RegisterOperand(Token(t, 2));
    ImmRange(Token(t, 3));
    PackImmediate(RowOf(m), AluOf(m), a, b, c);
    var w := PackR(Base(RowOf(m)), a, b, c);
    SameRegister(w, 7, a);
    SameRegister(w, 15, b);
  }

  function RowShift(m: Mnemonic): Row {
    match m
    case srli => Immediate3(ShiftKind, 5, 0)
    case srai => Immediate3(ShiftKind, 5, 0x20)
    case _ => Immediate3(ShiftKind, 1, 0)
  }

  lemma RowShiftIs(m: Mnemonic)
    requires ShiftI(m)
    ensures RowOf(m) == RowShift(m)
  {
    hide Register3, Immediate3, Branch3, Indexed, Bare;
    match m
    case slli =>
    case srli =>
    case srai =>
    case _ =>
  }

  /** The fixed fields of a shift by an immediate. */
  predicate ImmediateShift(r: Row, op: AluOp) {
    && r.opcode == 0x13 && FixedOk(r.opcode, r.funct3, r.funct7)
        && (r.funct7 == 0 || (r.funct3 == 5 && r.funct7 == 0x20))
    && (r.funct7 == 0x20 <==> op == SRA) && AluOpOf(r.funct3, r.funct3 == 5 && r.funct7 == 0x20) == op
  }

  lemma ShapeShift(m: Mnemonic)
    requires ShiftI(m)
    ensures Kinds(RowShift(m), ShiftKind)
  {
  }

  lemma AluShift(m: Mnemonic)
    requires ShiftI(m)
    ensures ImmediateShift(RowShift(m), AluOf(m))
  {
    match m
    case slli =>
    case srli =>
    case srai =>
    case _ =>
  }

  lemma MeaningShift(m: Mnemonic, t: seq<string>, table: seq<Symbol>, address: Word)
    requires ShiftI(m)
    ensures Meaning(m, t, table, address) == WithShift(AluOf(m), t)
  {
    hide WithShift;
    match m
    case slli =>
    case srli =>
    case srai =>
    case _ =>
  }

  lemma PackShift(r: Row, op: AluOp, a: Word, b: Word, c: Word)
    requires ImmediateShift(r, op) && Number5(a) && Number5(b) && Number5(c)
    ensures DecodesOpImm(PackR(Base(r), a, b, c), op, a, b, ShiftImmediate(op, c))
  {
    hide Number5, Between, Field, ImmI, DecodeWord, AluOpOf, PackR, Fixed, RegisterField, FixedOk, Tagged;
    PackShiftFields(r.funct3, r.funct7, a, b, c);
    Opcode13(PackR(Base(r), a, b, c));
  }

  lemma EncodesShift(m: Mnemonic, t: seq<string>, table: seq<Symbol>, address: Word)
    requires Accepted(t, m) && ShiftI(m)
    ensures DecodeWord(GetOpcode(t, table, address)) == Some(Meaning(m, t, table, address))
  {
    hide RegOf, BaseOf, OffsetOf, NumberOf, Accepted, ShiftI, GetOpcode, ReadR, ReadI, ReadS, ReadU, ReadA, Number5,
         Field, PackR, RowOf, RowShift, Meaning, DecodeWord, ImmI, Between, Base, ImmediateShift, AluOf, RegisterField,
         ShiftImmediate;
    Dispatch(m, t, table, address);
    Checked123(m, t);
    RowShiftIs(m);
    ShapeShift(m);
    AluShift(m);
    MeaningShift(m, t, table, address);
    var a, b, c := ReadOperand(RegisterKind, Token(t, 1)), ReadOperand(RegisterKind, Token(t, 2)),
        ReadOperand(ShiftKind, Token(t, 3));
    RegisterOperand(Token(t, 1));
    RegisterOperand(Token(t, 2));
    ImmRange(Token(t, 3));
    RegisterRange(c);
    PackShift(RowOf(m), AluOf(m), a, b, c);
    var w := PackR(Base(RowOf(m)), a, b, c);
    SameRegister(w, 7, a);
    SameRegister(w, 15, b);
  }

  // ---- loads, stores and jalr ----

  function WidthOf(m: Mnemonic): LoadOp {
    match m
    case lh => LoadHalf
    case lw => LoadWord
    case lbu => LoadByteUnsigned
    case lhu => LoadHalfUnsigned
    case _ => LoadByte
  }

  function SizeOf(m: Mnemonic): StoreOp {
    match m
    case sh => StoreHalf
    case sw => StoreWord
    case _ => StoreByte
  }

  predicate IsLoad(m: Mnemonic) { m == lb || m == lh || m == lw || m == lbu || m == lhu }

  predicate IsStore(m: Mnemonic) { m == sb || m == sh || m == sw }

  lemma LoadRows(m: Mnemonic)
    requires IsLoad(m)
    ensures RowOf(m) == Indexed(Format.I, 0x03, LoadCode(WidthOf(m)))
  {
    hide Indexed, Register3, Immediate3, Branch3, Bare;
    match m
    case lb =>
    case lh =>
    case lw =>
    case lbu =>
    case lhu =>
    case _ =>
  }

  lemma StoreRows(m: Mnemonic)
    requires IsStore(m)
    ensures RowOf(m) == Indexed(Format.S, 0x23, StoreCode(SizeOf(m)))
  {
    hide Indexed, Register3, Immediate3, Branch3, Bare;
    match m
    case sb =>
    case sh =>
    case sw =>
    case _ =>
  }

  /** The rows of loads, stores and jalr. */
  lemma AccessRows(m: Mnemonic)
    ensures IsLoad(m) ==> RowOf(m) == Indexed(Format.I, 0x03, LoadCode(WidthOf(m)))
    ensures IsStore(m) ==> RowOf(m) == Indexed(Format.S, 0x23, StoreCode(SizeOf(m)))
    ensures m == jalr ==> RowOf(m) == Indexed(Format.I, 0x67, 0)
  {
    JalrRow();
    hide RowOf, Indexed, WidthOf, SizeOf, LoadCode, StoreCode;
    if IsLoad(m) { LoadRows(m); }
    if IsStore(m) { StoreRows(m); }
  }

  lemma JalrRow()
    ensures RowOf(jalr) == Indexed(Format.I, 0x67, 0)
  {
    hide Indexed;
  }

  function LoadCode(width: LoadOp): Word {
    match width
    case LoadByte => 0
    case LoadHalf => 1
    case LoadWord => 2
    case LoadByteUnsigned => 4
    case LoadHalfUnsigned => 5
  }

  function StoreCode(size: StoreOp): Word {
    match size
    case StoreByte => 0
    case StoreHalf => 1
    case StoreWord => 2
  }

  lemma RowsIndexed(m: Mnemonic)
    requires IsLoad(m) || IsStore(m) || m == jalr
    ensures var r := RowOf(m);
      && r.op1 == RegisterKind && r.op2 == AddressKind && r.funct7 == 0 && r.operands == 2
      && (if IsStore(m) then r.format == Format.S && r.opcode == 0x23 else r.format == Format.I)
      && (IsLoad(m) ==> r.opcode == 0x03) && (m == jalr ==> r.opcode == 0x67 && r.funct3 == 0)
  {
    hide RowOf, LoadCode, StoreCode;
    AccessRows(m);
  }

  lemma DecodesLoad(m: Mnemonic, w: Word)
    requires IsLoad(m) && Header(w, 0x03, RowOf(m).funct3)
    ensures DecodeWord(w) == Some(Load(WidthOf(m), Rd(w), Rs1Of(w), ImmI(w)))
  {
    hide Field, RegisterField, DecodeWord, ImmI, RowOf, WidthOf;
    Opcode03(w);
    Accesses(m);
  }

  lemma Opcode03(w: Word)
    requires Field(w, 0, 0x7F) == 0x03
    ensures WidthAt(Field(w, 12, 7)).Some? ==>
        DecodeWord(w) == Some(Load(WidthAt(Field(w, 12, 7)).value, Rd(w), Rs1Of(w), ImmI(w)))
  {
    hide Field, RegisterField, ImmI, ImmS, ImmB, ImmU, ImmJ, AluOpOf;
  }

  function WidthAt(funct3: Word): Option<LoadOp> {
    if funct3 == 0 then Some(LoadByte) else if funct3 == 1 then Some(LoadHalf) else if funct3 == 2 then Some(LoadWord)
    else if funct3 == 4 then Some(LoadByteUnsigned) else if funct3 == 5 then Some(LoadHalfUnsigned) else None
  }

  function SizeAt(funct3: Word): Option<StoreOp> {
    if funct3 == 0 then Some(StoreByte) else if funct3 == 1 then Some(StoreHalf) else if funct3 == 2
        then Some(StoreWord) else None
  }

  lemma Accesses(m: Mnemonic)
    ensures IsLoad(m) ==> WidthAt(RowOf(m).funct3) == Some(WidthOf(m))
    ensures IsStore(m) ==> SizeAt(RowOf(m).funct3) == Some(SizeOf(m))
  {
    hide RowOf, WidthOf, SizeOf;
    AccessRows(m);
  }

  lemma DecodesJalr(w: Word)
    requires Header(w, 0x67, 0)
    ensures DecodeWord(w) == Some(Jalr(Rd(w), Rs1Of(w), ImmI(w)))
  {
    hide Field, RegisterField, ImmI, ImmS, ImmB, ImmU, ImmJ;
  }

  lemma DecodesStore(m: Mnemonic, w: Word)
    requires IsStore(m) && Header(w, 0x23, RowOf(m).funct3)
    ensures DecodeWord(w) == Some(Store(SizeOf(m), Rs1Of(w), Rs2Of(w), ImmS(w)))
  {
    hide Field, RegisterField, DecodeWord, ImmS, RowOf, SizeOf;
    Opcode23(w);
    Accesses(m);
  }

  lemma Opcode23(w: Word)
    requires Field(w, 0, 0x7F) == 0x23
    ensures SizeAt(Field(w, 12, 7)).Some? ==>
        DecodeWord(w) == Some(Store(SizeAt(Field(w, 12, 7)).value, Rs1Of(w), Rs2Of(w), ImmS(w)))
  {
    hide Field, RegisterField, ImmI, ImmS, ImmB, ImmU, ImmJ, AluOpOf;
  }

  lemma LoadMeaning(m: Mnemonic, t: seq<string>, table: seq<Symbol>, address: Word)
    requires IsLoad(m)
    ensures Meaning(m, t, table, address) == From(WidthOf(m), t)
  {
    hide From;
    match m
    case lb =>
    case lh =>
    case lw =>
    case lbu =>
    case lhu =>
    case _ =>
  }

  lemma StoreMeaning(m: Mnemonic, t: seq<string>, table: seq<Symbol>, address: Word)
    requires IsStore(m)
    ensures Meaning(m, t, table, address) == To(SizeOf(m), t)
  {
    hide To;
    match m
    case sb =>
    case sh =>
    case sw =>
    case _ =>
  }

  lemma JalrMeaning(t: seq<string>, table: seq<Symbol>, address: Word)
    ensures Meaning(jalr, t, table, address) == Jalr(RegOf(Token(t, 1)), BaseOf(Token(t, 2)), OffsetOf(Token(t, 2)))
  {
    hide RegOf, BaseOf, OffsetOf;
  }

  predicate IndexedFilled(m: Mnemonic, t: seq<string>, w: Word) {
    && Header(w, RowOf(m).opcode, RowOf(m).funct3) && Rd(w) == RegOf(Token(t, 1)) && Rs1Of(w) == BaseOf(Token(t, 2))
    && ImmI(w) == OffsetOf(Token(t, 2))
  }

  lemma IndexedFields(m: Mnemonic, t: seq<string>)
    requires Accepted(t, m) && (IsLoad(m) || m == jalr)
    ensures IndexedFilled(m, t, EncodeI(RowOf(m), t))
  {
    Checked123(m, t);
    RowsIndexed(m);
    RowFits(m);
    hide RegOf, BaseOf, OffsetOf, NumberOf, Accepted, GetOpcode, ReadR, ReadI, ReadS, ReadU, ReadA, Fixed, FixedOk,
         Number5, Field, RegisterField, PackR, PackS, PackB, PackU, PackJ, Header, RowOf, Meaning, DecodeWord, ImmI,
         ImmS, ImmB, ImmU, ImmJ, Between, Distance, Even, Upper12, Tagged;
    var r := RowOf(m);
    var a, b := ReadOperand(RegisterKind, Token(t, 1)), AddressOperand(Token(t, 2));
    RegisterOperand(Token(t, 1));
    AddressOperandOk(Token(t, 2));
    PackIFields(r.opcode, r.funct3, a, b.1, b.0);
    var w := PackR(Fixed(r.opcode, r.funct3, 0), a, b.1, b.0);
    SameRegister(w, 7, a);
    SameRegister(w, 15, b.1);
  }

  lemma EncodesIndexed(m: Mnemonic, t: seq<string>, table: seq<Symbol>, address: Word)
    requires Accepted(t, m) && (IsLoad(m) || m == jalr)
    ensures DecodeWord(GetOpcode(t, table, address)) == Some(Meaning(m, t, table, address))
  {
    Dispatch(m, t, table, address);
    Checked123(m, t);
    RowsIndexed(m);
    if m == jalr { JalrMeaning(t, table, address); } else { LoadMeaning(m, t, table, address); }
    IndexedFields(m, t);
    hide NumberOf, Accepted, GetOpcode, RegOf, BaseOf, OffsetOf, UpperOf, ReadR, ReadI, ReadS, ReadU, ReadA, Fixed,
         FixedOk, Number5, Field, RegisterField, PackR, PackS, PackB, PackU, PackJ, Header, RowOf, Meaning, DecodeWord,
         ImmI, ImmS, ImmB, ImmU, ImmJ, Between, Distance, Even, Upper12, Tagged, EncodeI, Rd, Rs1Of;
    var w := EncodeI(RowOf(m), t);
    if m == jalr { DecodesJalr(w); } else { DecodesLoad(m, w); }
  }

  lemma StoreFields(m: Mnemonic, t: seq<string>)
    requires Accepted(t, m) && IsStore(m)
    ensures var w := EncodeS(RowOf(m), t);
      && Header(w, 0x23, RowOf(m).funct3) && Rs2Of(w) == RegOf(Token(t, 1)) && Rs1Of(w) == BaseOf(Token(t, 2))
      && ImmS(w) == OffsetOf(Token(t, 2))
  {
    Checked123(m, t);
    RowsIndexed(m);
    RowFits(m);
    hide RegOf, BaseOf, OffsetOf, NumberOf, Accepted, GetOpcode, ReadR, ReadI, ReadS, ReadU, ReadA, Fixed, FixedOk,
         Number5, Field, RegisterField, PackR, PackS, PackB, PackU, PackJ, Header, RowOf, Meaning, DecodeWord, ImmI,
         ImmS, ImmB, ImmU, ImmJ, Between, Distance, Even, Upper12, Tagged;
    var r := RowOf(m);
    var a, b := ReadOperand(RegisterKind, Token(t, 1)), AddressOperand(Token(t, 2));
    RegisterOperand(Token(t, 1));
    AddressOperandOk(Token(t, 2));
    PackSFields(0x23, r.funct3, a, b.1, b.0);
    var w := PackS(Fixed(0x23, r.funct3, 0), a, b.1, b.0);
    SameRegister(w, 20, a);
    SameRegister(w, 15, b.1);
  }

  lemma EncodesStore(m: Mnemonic, t: seq<string>, table: seq<Symbol>, address: Word)
    requires Accepted(t, m) && IsStore(m)
    ensures DecodeWord(GetOpcode(t, table, address)) == Some(Meaning(m, t, table, address))
  {
    Dispatch(m, t, table, address);
    RowsIndexed(m);
    StoreMeaning(m, t, table, address);
    StoreFields(m, t);
    hide NumberOf, Accepted, GetOpcode, RegOf, BaseOf, OffsetOf, Header, RowOf, Meaning, DecodeWord, ImmS, EncodeS, Rd,
         Rs1Of, Rs2Of, SizeOf;
    DecodesStore(m, EncodeS(RowOf(m), t));
  }

  // ---- upper immediates, jumps and branches ----

  lemma RowsUpper(m: Mnemonic, t: seq<string>, table: seq<Symbol>, address: Word)
    requires m == lui || m == auipc
    ensures RowOf(m) == Row(2, RegisterKind, UpperKind, NoOperand, Format.U, if m == lui then 0x37 else 0x17, 0, 0)
    ensures m == lui ==> Meaning(m, t, table, address) == Lui(RegOf(Token(t, 1)), UpperOf(Token(t, 2)))
    ensures m == auipc ==> Meaning(m, t, table, address) == Auipc(RegOf(Token(t, 1)), UpperOf(Token(t, 2)))
  {
    hide RegOf, UpperOf;
  }

  lemma EncodesUpper(m: Mnemonic, t: seq<string>, table: seq<Symbol>, address: Word)
    requires Accepted(t, m) && (m == lui || m == auipc)
    ensures DecodeWord(GetOpcode(t, table, address)) == Some(Meaning(m, t, table, address))
  {
    Dispatch(m, t, table, address);
    Checked123(m, t);
    RowFits(m);
    RowsUpper(m, t, table, address);
    var r := RowOf(m);
    hide RegOf, BaseOf, OffsetOf, NumberOf, Accepted, GetOpcode, ReadR, ReadI, ReadS, ReadU, ReadA, Fixed, FixedOk,
         Number5, Field, RegisterField, PackR, PackS, PackB, PackU, PackJ, Header, RowOf, Meaning, DecodeWord, ImmI,
         ImmS, ImmB, ImmU, ImmJ, Between, Distance, Even, Upper12, Tagged;
    var a, b := ReadOperand(RegisterKind, Token(t, 1)), ReadOperand(UpperKind, Token(t, 2));
    RegisterOperand(Token(t, 1));
    ImmRange(Token(t, 2));
    PackUFields(r.opcode, a, b);
    var w := PackU(Fixed(r.opcode, 0, 0), a, b);
    SameRegister(w, 7, a);
    DecodesUpper(w);
  }

  lemma DecodesUpper(w: Word)
    ensures Field(w, 0, 0x7F) == 0x37 ==> DecodeWord(w) == Some(Lui(Rd(w), ImmU(w)))
    ensures Field(w, 0, 0x7F) == 0x17 ==> DecodeWord(w) == Some(Auipc(Rd(w), ImmU(w)))
    ensures Field(w, 0, 0x7F) == 0x6F ==> DecodeWord(w) == Some(Jal(Rd(w), ImmJ(w)))
  {
    hide Field, RegisterField, ImmI, ImmS, ImmB, ImmU, ImmJ;
  }

  /** All addresses are multiples of four, so distances are even. */
  predicate WordAddress(a: Word) { a & 3 == 0 }

  lemma EvenDistance(there: Word, here: Word)
    requires WordAddress(there) && WordAddress(here)
    ensures Even(Distance(there, here))
  {
  }

  predicate WordAddresses(table: seq<Symbol>) { forall i | 0 <= i < |table| :: WordAddress(table[i].address) }

  lemma {:induction false} AddressInTable(table: seq<Symbol>, name: string)
    requires WordAddresses(table) && GetAddress(table, name).Some?
    ensures WordAddress(GetAddress(table, name).value)
  {
    hide WordAddress;
    if table[0].name != name { AddressInTable(table[1..], name); }
  }

  lemma EncodesJump(m: Mnemonic, t: seq<string>, table: seq<Symbol>, address: Word)
    requires Accepted(t, m) && m == jal && WordAddresses(table) && WordAddress(address)
    requires GetOpcode(t, table, address) != 0
    ensures DecodeWord(GetOpcode(t, table, address)) == Some(Meaning(m, t, table, address))
    ensures GetAddress(table, Token(t, 2)).Some?
  {
    Dispatch(m, t, table, address);
    Checked123(m, t);
    RowFits(m);
    var r := RowOf(m);
    assert r == Row(2, RegisterKind, LabelKind, NoOperand, Format.J, 0x6F, 0, 0);
    assert Meaning(m, t, table, address) == Jal(RegOf(Token(t, 1)), Reach(table, Token(t, 2), address));
    hide RegOf, BaseOf, OffsetOf, NumberOf, Accepted, GetOpcode, ReadR, ReadI, ReadS, ReadU, ReadA, Fixed, FixedOk,
         Number5, Field, RegisterField, PackR, PackS, PackB, PackU, PackJ, Header, RowOf, Meaning, DecodeWord, ImmI,
         ImmS, ImmB, ImmU, ImmJ, Between, Distance, Even, Upper12, Tagged;
    var a := ReadOperand(RegisterKind, Token(t, 1));
    RegisterOperand(Token(t, 1));
    AddressInTable(table, Token(t, 2));
    var there := GetAddress(table, Token(t, 2)).value;
    EvenDistance(there, address);
    PackJFields(0x6F, a, Distance(there, address));
    var w := PackJ(Fixed(0x6F, 0, 0), a, Distance(there, address));
    SameRegister(w, 7, a);
    DecodesUpper(w);
  }

  predicate IsBranch(m: Mnemonic) { m == beq || m == bne || m == blt || m == bge || m == bltu || m == bgeu }

  function ConditionOf(m: Mnemonic): Condition {
    match m
    case bne => BNE
    case blt => BLT
    case bge => BGE
    case bltu => BLTU
    case bgeu => BGEU
    case _ => BEQ
  }

  lemma RowsBranch(m: Mnemonic, t: seq<string>, table: seq<Symbol>, address: Word)
    requires IsBranch(m)
    ensures RowOf(m) == Row(3, RegisterKind, RegisterKind, LabelKind, Format.B, 0x63, RowOf(m).funct3, 0)
    ensures Meaning(m, t, table, address) == ToLabel(ConditionOf(m), t, table, address)
  {
    hide ToLabel;
    match m
    case beq =>
    case bne =>
    case blt =>
    case bge =>
    case bltu =>
    case bgeu =>
    case _ =>
  }

  function ConditionAt(funct3: Word): Option<Condition> {
    if funct3 == 0 then Some(BEQ) else if funct3 == 1 then Some(BNE) else if funct3 == 4 then Some(BLT)
    else if funct3 == 5 then Some(BGE) else if funct3 == 6 then Some(BLTU) else if funct3 == 7 then Some(BGEU) else None
  }

  lemma Conditions(m: Mnemonic)
    requires IsBranch(m)
    ensures ConditionAt(RowOf(m).funct3) == Some(ConditionOf(m))
  {
    match m
    case beq =>
    case bne =>
    case blt =>
    case bge =>
    case bltu =>
    case bgeu =>
    case _ =>
  }

  lemma Opcode63(w: Word)
    requires Field(w, 0, 0x7F) == 0x63
    ensures ConditionAt(Field(w, 12, 7)).Some? ==>
      DecodeWord(w) == Some(Branch(ConditionAt(Field(w, 12, 7)).value, Rs1Of(w), Rs2Of(w), ImmB(w)))
  {
    hide Field, RegisterField, ImmI, ImmS, ImmB, ImmU, ImmJ, AluOpOf;
  }

  lemma DecodesBranch(m: Mnemonic, w: Word)
    requires IsBranch(m) && Header(w, 0x63, RowOf(m).funct3)
    ensures DecodeWord(w) == Some(Branch(ConditionOf(m), Rs1Of(w), Rs2Of(w), ImmB(w)))
  {
    hide Field, RegisterField, DecodeWord, ImmB, RowOf, ConditionOf;
    Opcode63(w);
    Conditions(m);
  }

  lemma EncodesBranch(m: Mnemonic, t: seq<string>, table: seq<Symbol>, address: Word)
    requires Accepted(t, m) && IsBranch(m) && WordAddresses(table) && WordAddress(address)
    requires GetOpcode(t, table, address) != 0
    ensures DecodeWord(GetOpcode(t, table, address)) == Some(Meaning(m, t, table, address))
    ensures GetAddress(table, Token(t, 3)).Some?
  {
    Dispatch(m, t, table, address);
    Checked123(m, t);
    RowsBranch(m, t, table, address);
    RowFits(m);
    hide RegOf, BaseOf, OffsetOf, NumberOf, Accepted, GetOpcode, ReadR, ReadI, ReadS, ReadU, ReadA, Fixed, FixedOk,
         Number5, Field, RegisterField, PackR, PackS, PackB, PackU, PackJ, Header, RowOf, Meaning, DecodeWord, ImmI,
         ImmS, ImmB, ImmU, ImmJ, Between, Distance, Even, Upper12, Tagged;
    var r := RowOf(m);
    var a, b := ReadOperand(RegisterKind, Token(t, 1)), ReadOperand(RegisterKind, Token(t, 2));
    RegisterOperand(Token(t, 1));
    RegisterOperand(Token(t, 2));
    AddressInTable(table, Token(t, 3));
    var there := GetAddress(table, Token(t, 3)).value;
    EvenDistance(there, address);
    PackBFields(0x63, r.funct3, a, b, Distance(there, address));
    var w := PackB(Fixed(0x63, r.funct3, 0), a, b, Distance(there, address));
    SameRegister(w, 15, a);
    SameRegister(w, 20, b);
    DecodesBranch(m, w);
  }

  // ---- instructions without operands ----

  lemma BareWords()
    ensures PackR(Fixed(0x73, 0, 0), 0, 0, 0) == 0x73 && PackR(Fixed(0x0F, 0, 0), 0, 0, 0) == 0x0F
    ensures PackR(Fixed(0x13, 0, 0), 0, 0, 0) == 0x13 && PackR(Fixed(0x73, 0, 1), 0, 0, 0) == 0x0200_0073
  {
  }

  lemma BareDecodes()
    ensures DecodeWord(0x73) == Some(EnvironmentCall) && DecodeWord(0x0F) == Some(Instruction.Fence)
    ensures DecodeWord(0x13) == Some(OpImm(ADD, 0, 0, 0))
  {
    assert ImmI(0x13) == 0;
    assert RegisterField(0x13, 7) == 0 && RegisterField(0x13, 15) == 0;
    hide RegisterField, ImmI, ImmS, ImmB, ImmU, ImmJ;
  }

  lemma BareRows(m: Mnemonic, t: seq<string>, table: seq<Symbol>, address: Word)
    ensures m == ecall ==> RowOf(m) == Bare(0x73, 0) && Meaning(m, t, table, address) == EnvironmentCall
    ensures m == Mnemonic.fence ==> RowOf(m) == Bare(0x0F, 0) && Meaning(m, t, table, address) == Instruction.Fence
    ensures m == nop ==> RowOf(m) == Bare(0x13, 0) && Meaning(m, t, table, address) == OpImm(ADD, 0, 0, 0)
  {
    hide Register3, Immediate3, Branch3, Indexed, Bare, Triple, WithImmediate, WithShift, ToLabel, From, To, Upper12,
         RegOf, UpperOf, BaseOf, OffsetOf, Reach;
    match m
    case ecall =>
    case fence =>
    case nop =>
    case _ =>
  }

  lemma EncodesBare(m: Mnemonic, t: seq<string>, table: seq<Symbol>, address: Word)
    requires Accepted(t, m) && (m == ecall || m == Mnemonic.fence || m == nop)
    ensures DecodeWord(GetOpcode(t, table, address)) == Some(Meaning(m, t, table, address))
  {
    BareRows(m, t, table, address);
    Dispatch(m, t, table, address);
    hide RegOf, BaseOf, OffsetOf, NumberOf, Accepted, GetOpcode, DecodeWord, PackR, Fixed, Meaning, RowOf;
    BareWords();
    BareDecodes();
  }

  /** ebreak is encoded with funct7 = 1, which the simulator's decoder takes for a breakpoint; the ISA
      manual encodes it otherwise (section 2.8). */
  lemma EncodesBreak(t: seq<string>, table: seq<Symbol>, address: Word, strategy: Strategy)
    requires Accepted(t, ebreak)
    ensures Decode(strategy, GetOpcode(t, table, address)) == Some(SystemSignals(Breakpoint))
  {
    Dispatch(ebreak, t, table, address);
    hide RegOf, BaseOf, OffsetOf, NumberOf, Accepted, GetOpcode, PackR, Fixed;
    BareWords();
  }

  // ---- the theorems ----

  /** Each word emitted for an accepted line is, to the ISA and to the simulator's decoder, the
      instruction that the line names, with its registers, immediates and label distance. */
  lemma EncodesMeaning(m: Mnemonic, t: seq<string>, table: seq<Symbol>, address: Word, strategy: Strategy)
    requires Accepted(t, m) && m != ebreak && WordAddresses(table) && WordAddress(address)
    requires GetOpcode(t, table, address) != 0
    ensures var w := GetOpcode(t, table, address);
      && DecodeWord(w) == Some(Meaning(m, t, table, address))
      && Decode(strategy, w) == Some(IsaConformance.SignalsFor(Meaning(m, t, table, address), Predict(strategy, w)))
  {
    hide RegOf, BaseOf, OffsetOf, NumberOf, Accepted, GetOpcode, Meaning, DecodeWord, Decode, RowOf,
         IsaConformance.SignalsFor, Predict;
    if ArithmeticI(m) { EncodesArithmeticI(m, t, table, address); }
    else if ShiftI(m) { EncodesShift(m, t, table, address); }
    else if IsLoad(m) || m == jalr { EncodesIndexed(m, t, table, address); }
    else if IsStore(m) { EncodesStore(m, t, table, address); }
    else if m == lui || m == auipc { EncodesUpper(m, t, table, address); }
    else if m == jal { EncodesJump(m, t, table, address); }
    else if IsBranch(m) { EncodesBranch(m, t, table, address); }
    else if m == ecall || m == Mnemonic.fence || m == nop { EncodesBare(m, t, table, address); }
    else { OnlyR(m); EncodesR(m, t, table, address); }
    IsaConformance.DecoderAgrees(strategy, GetOpcode(t, table, address));
  }

  lemma OnlyR(m: Mnemonic)
    requires m == add || m == sub || m == sll || m == slt || m == sltu || m == xor || m == srl || m == sra || m == or
        || m == and
    ensures RowOf(m).format == Format.R
  {
    match m
    case add =>
    case sub =>
    case sll =>
    case slt =>
    case sltu =>
    case xor =>
    case srl =>
    case sra =>
    case or =>
    case and =>
    case _ =>
  }

  lemma AddBack(x: Word, y: Word)
    ensures Displaced(x, y - x) == y
  {
  }

  /** Jumping from `address` by the distance lands on the label. */
  lemma Lands(there: Word, address: Word)
    ensures Displaced(address, Distance(there, address)) == there
  {
    hide Displaced;
    AddBack(address, there);
  }

  // ---- whole programs ----

  /** How many words come before line k. */
  function OpsBefore(lines: seq<Line>, k: nat): nat
    requires k <= |lines|
  {
    if k == 0 then 0 else OpsBefore(lines, k - 1) + if lines[k - 1].Op? then 1 else 0
  }

  lemma Times4Aligned(n: Word)
    ensures WordAddress(Times4(n))
  {
  }

  lemma {:induction false} TableAddresses(lines: seq<Line>, k: nat)
    requires k <= |lines| && TableAt(lines, k).Some?
    ensures WordAddresses(TableAt(lines, k).value)
  {
    hide WordAddress, Assembler.Legal, Times4;
    if k > 0 {
      TableAddresses(lines, k - 1);
      Times4Aligned(NumberAt(lines, k - 1));
    }
  }

  /** The table holds exactly the labels of the program, each with the address of the next
      instruction, and no label twice. */
  lemma {:induction false} TableIsLabels(lines: seq<Line>, k: nat, name: string)
    requires k <= |lines| && TableAt(lines, k).Some?
    ensures GetAddress(TableAt(lines, k).value, name).Some? <==> Line.Label(name) in lines[..k]
    ensures forall j | 0 <= j < k && lines[j] == Line.Label(name) ::
        GetAddress(TableAt(lines, k).value, name) == Some(AddressAt(lines, j))
    ensures forall i, j | 0 <= i < j < k && lines[i] == Line.Label(name) :: lines[j] != lines[i]
  {
    hide Assembler.Legal, AddressAt;
    if k > 0 {
      TableIsLabels(lines, k - 1, name);
      assert lines[..k] == lines[..k - 1] + [lines[k - 1]];
    }
  }

  lemma {:induction false} TablePrefix(lines: seq<Line>, k: nat)
    requires k < |lines| && TableAt(lines, |lines|).Some? && lines[k].Op?
    ensures Assembler.Legal(lines[k].tokens)
  {
    if TableAt(lines, k + 1).None? { GivesUp(lines, k + 1); }
  }

  lemma {:induction false} WordOf(lines: seq<Line>, table: seq<Symbol>, k: nat, n: nat)
    requires k < n <= |lines| && WordsAt(lines, table, n).Some? && lines[k].Op?
    ensures var words := WordsAt(lines, table, n).value; var i := OpsBefore(lines, k);
      && i < |words| == OpsBefore(lines, n) && words[i] == GetOpcode(lines[k].tokens, table, AddressAt(lines, k)) != 0
  {
    hide GetOpcode, AddressAt;
    WordCount(lines, table, n - 1);
    if k < n - 1 { WordOf(lines, table, k, n - 1); }
  }

  lemma {:induction false} WordCount(lines: seq<Line>, table: seq<Symbol>, n: nat)
    requires n <= |lines| && WordsAt(lines, table, n).Some?
    ensures |WordsAt(lines, table, n).value| == OpsBefore(lines, n)
  {
    hide GetOpcode, AddressAt;
    if n > 0 { WordCount(lines, table, n - 1); }
  }

  /** Whatever program assembles: its word for line k, at the place that the instructions before k
      leave, decodes to what line k says at its address. */
  lemma {:induction false} EveryWordDecodes(lines: seq<Line>, words: seq<Word>, k: nat, m: Mnemonic, strategy: Strategy)
    requires Assembled(lines) == Some(words) && k < |lines| && lines[k].Op?
        && MnemonicOf(Token(lines[k].tokens, 0)) == Some(m)
    ensures OpsBefore(lines, k) < |words|
    ensures m != ebreak ==>
      var w := words[OpsBefore(lines, k)];
      var i := Meaning(m, lines[k].tokens, TableAt(lines, |lines|).value, AddressAt(lines, k));
      DecodeWord(w) == Some(i) && Decode(strategy, w) == Some(IsaConformance.SignalsFor(i, Predict(strategy, w)))
  {
    hide MnemonicOf, GetOpcode, Assembler.Legal, Meaning, DecodeWord, Decode, RowOf, IsaConformance.SignalsFor, Predict,
         Times4, WordAddress;
    var table := TableAt(lines, |lines|).value;
    TableAddresses(lines, |lines|);
    TablePrefix(lines, k);
    WordOf(lines, table, k, |lines|);
    Times4Aligned(NumberAt(lines, k));
    if m != ebreak { EncodesMeaning(m, lines[k].tokens, table, AddressAt(lines, k), strategy); }
  }

  /** An emitted jump or branch found its label. */
  lemma {:induction false} LabelFound(lines: seq<Line>, words: seq<Word>, k: nat, m: Mnemonic)
    requires Assembled(lines) == Some(words) && k < |lines| && lines[k].Op?
        && MnemonicOf(Token(lines[k].tokens, 0)) == Some(m)
    requires m == jal || IsBranch(m)
    ensures GetAddress(TableAt(lines, |lines|).value, Token(lines[k].tokens, if m == jal then 2 else 3)).Some?
  {
    hide MnemonicOf, GetOpcode, Assembler.Legal, AddressAt, WordAddress, DecodeWord, Meaning, Token;
    var table := TableAt(lines, |lines|).value;
    TableAddresses(lines, |lines|);
    TablePrefix(lines, k);
    WordOf(lines, table, k, |lines|);
    AddressAligned(lines, k);
    if m == jal { EncodesJump(m, lines[k].tokens, table, AddressAt(lines, k)); }
    else { EncodesBranch(m, lines[k].tokens, table, AddressAt(lines, k)); }
  }

  lemma AddressAligned(lines: seq<Line>, k: nat)
    requires k <= |lines|
    ensures WordAddress(AddressAt(lines, k))
  {
    hide WordAddress, Times4;
    Times4Aligned(NumberAt(lines, k));
  }

  /** The address of the n-th emitted word: each four more than the one before, in 32-bit words. */
  function NthAddress(n: nat): Word { if n == 0 then 0 else Following(NthAddress(n - 1)) }

  /** Pass one counts the words that pass two emits: the address of a line is that of the next word. */
  lemma {:induction false} AddressCounts(lines: seq<Line>, k: nat)
    requires k <= |lines|
    ensures AddressAt(lines, k) == NthAddress(OpsBefore(lines, k))
  {
    FirstAddress();
    hide Times4, Next, Following;
    if k > 0 {
      AddressCounts(lines, k - 1);
      Times4Next(NumberAt(lines, k - 1));
    }
  }

  /** The first operation at or after line k, or the number of lines. */
  function NextOp(lines: seq<Line>, k: nat): (j: nat)
    requires k <= |lines|
    ensures k <= j <= |lines| && (j < |lines| ==> lines[j].Op?)
    ensures OpsBefore(lines, j) == OpsBefore(lines, k)
    decreases |lines| - k
  {
    if k == |lines| || lines[k].Op? then k else NextOp(lines, k + 1)
  }

  /** And a jump or branch to a label lands on the label's instruction: the target is the address of
      the word with index OpsBefore(lines, j), which is the word of the first operation after the
      label, or of the end of the text when no operation follows. */
  lemma {:induction false} JumpsLand(lines: seq<Line>, words: seq<Word>, k: nat, m: Mnemonic) returns (j: nat)
    requires Assembled(lines) == Some(words) && k < |lines| && lines[k].Op?
    requires MnemonicOf(Token(lines[k].tokens, 0)) == Some(m) && (m == jal || IsBranch(m))
    ensures
      var name := Token(lines[k].tokens, if m == jal then 2 else 3);
      var target := Displaced(AddressAt(lines, k), Reach(TableAt(lines, |lines|).value, name, AddressAt(lines, k)));
      && j < |lines| && lines[j] == Line.Label(name) && target == AddressAt(lines, j)
      && target == NthAddress(OpsBefore(lines, j))
    ensures OpsBefore(lines, j) <= |words|
    ensures var i := NextOp(lines, j); if OpsBefore(lines, j) < |words| then i < |lines| else i == |lines|
  {
    hide MnemonicOf, Assembler.Legal, Displaced, Distance, AddressAt, Token, WordsAt, TableAt;
    var name := Token(lines[k].tokens, if m == jal then 2 else 3);
    LabelFound(lines, words, k, m);
    TableIsLabels(lines, |lines|, name);
    assert lines[..|lines|] == lines;
    j :| 0 <= j < |lines| && lines[j] == Line.Label(name);
    Lands(AddressAt(lines, j), AddressAt(lines, k));
    AddressCounts(lines, j);
    WordsCounted(lines, words);
    OpsGrow(lines, NextOp(lines, j));
  }

  lemma WordsCounted(lines: seq<Line>, words: seq<Word>)
    requires Assembled(lines) == Some(words)
    ensures |words| == OpsBefore(lines, |lines|)
  {
    hide WordsAt, TableAt;
    WordCount(lines, TableAt(lines, |lines|).value, |lines|);
  }

  /** An operation at line i is counted after it. */
  lemma {:induction false} OpsGrow(lines: seq<Line>, i: nat)
    requires i <= |lines|
    ensures OpsBefore(lines, i) <= OpsBefore(lines, |lines|)
    ensures i < |lines| && lines[i].Op? ==> OpsBefore(lines, i) < OpsBefore(lines, |lines|)
    decreases |lines| - i
  {
    if i < |lines| { OpsGrow(lines, i + 1); }
  }

  /** So the word at the target decodes to the first operation after the label. */
  lemma {:induction false} TargetDecodes(lines: seq<Line>, words: seq<Word>, k: nat, m: Mnemonic, next: Mnemonic,
      strategy: Strategy)
    returns (j: nat, i: nat)
    requires Assembled(lines) == Some(words) && k < |lines| && lines[k].Op?
    requires MnemonicOf(Token(lines[k].tokens, 0)) == Some(m) && (m == jal || IsBranch(m))
    ensures
      var name := Token(lines[k].tokens, if m == jal then 2 else 3);
      var target := Displaced(AddressAt(lines, k), Reach(TableAt(lines, |lines|).value, name, AddressAt(lines, k)));
      && j < |lines| && lines[j] == Line.Label(name) && i == NextOp(lines, j)
      && OpsBefore(lines, i) <= |words| && (OpsBefore(lines, i) < |words| <==> i < |lines|)
      && target == AddressAt(lines, i) && target == NthAddress(OpsBefore(lines, i))
    ensures i < |lines| && MnemonicOf(Token(lines[i].tokens, 0)) == Some(next) && next != ebreak ==>
      var meaning := Meaning(next, lines[i].tokens, TableAt(lines, |lines|).value, AddressAt(lines, i));
      && DecodeWord(words[OpsBefore(lines, i)]) == Some(meaning)
      && Decode(strategy, words[OpsBefore(lines, i)])
         == Some(IsaConformance.SignalsFor(meaning, Predict(strategy, words[OpsBefore(lines, i)])))
  {
    hide MnemonicOf, Assembler.Legal, Displaced, Reach, AddressAt, Token, WordsAt, TableAt, Meaning, DecodeWord, Decode,
         Predict, IsaConformance.SignalsFor;
    j := JumpsLand(lines, words, k, m);
    i := NextOp(lines, j);
    SameAddress(lines, j, i);
    if i < |lines| && MnemonicOf(Token(lines[i].tokens, 0)) == Some(next) {
      EveryWordDecodes(lines, words, i, next, strategy);
    }
  }

  /** Lines without operations between them have one address. */
  lemma SameAddress(lines: seq<Line>, j: nat, i: nat)
    requires j <= |lines| && i <= |lines| && OpsBefore(lines, j) == OpsBefore(lines, i)
    ensures AddressAt(lines, j) == AddressAt(lines, i)
  {
    AddressCounts(lines, j);
    AddressCounts(lines, i);
  }
}
