/** Exactly which programs assemble (src/assembler/core/main.c:50-156, syntax_analyzer.c, include/assembler.h). */
module AssemblerAccepts {
  import opened Wrappers
  import opened Words
  import opened Alu
  import opened Assembler
  import opened WordNumbers
  import opened AssemblerNumbers
  import opened AssemblerProof

  // ---- the assembly language ----

  /** How a mnemonic is written. */
  function Name(m: Mnemonic): string {
    match m
    case add => "add"
    case sub => "sub"
    case sll => "sll"
    case slt => "slt"
    case sltu => "sltu"
    case xor => "xor"
    case srl => "srl"
    case sra => "sra"
    case or => "or"
    case and => "and"
    case addi => "addi"
    case slti => "slti"
    case sltiu => "sltiu"
    case xori => "xori"
    case ori => "ori"
    case andi => "andi"
    case slli => "slli"
    case srli => "srli"
    case srai => "srai"
    case lui => "lui"
    case auipc => "auipc"
    case jal => "jal"
    case jalr => "jalr"
    case beq => "beq"
    case bne => "bne"
    case blt => "blt"
    case bge => "bge"
    case bltu => "bltu"
    case bgeu => "bgeu"
    case lb => "lb"
    case lh => "lh"
    case lw => "lw"
    case lbu => "lbu"
    case lhu => "lhu"
    case sb => "sb"
    case sh => "sh"
    case sw => "sw"
    case ecall => "ecall"
    case ebreak => "ebreak"
    case fence => "fence"
    case nop => "nop"
  }

  /** The bytes of a name as one number. */
  function Code(s: string): int {
    At(s, 0) + 256 * At(s, 1) + 0x1_0000 * At(s, 2) + 0x100_0000 * At(s, 3) + 0x1_0000_0000 * At(s, 4)
    + 0x100_0000_0000 * At(s, 5)
  }

  function At(s: string, i: nat): int { if i < |s| then s[i] as int else 0 }

  /** The bytes of each name. */
  function Key(m: Mnemonic): int {
    match m
    case add => 6579297
    case sub => 6452595
    case sll => 7105651
    case slt => 7629939
    case sltu => 1970564211
    case xor => 7499640
    case srl => 7107187
    case sra => 6386291
    case or => 29295
    case and => 6581857
    case addi => 1768186977
    case slti => 1769237619
    case sltiu => 504280411251
    case xori => 1769107320
    case ori => 6910575
    case andi => 1768189537
    case slli => 1768713331
    case srli => 1768714867
    case srai => 1767993971
    case lui => 6911340
    case auipc => 427087721825
    case jal => 7102826
    case jalr => 1919705450
    case beq => 7431522
    case bne => 6647394
    case blt => 7629922
    case bge => 6645602
    case bltu => 1970564194
    case bgeu => 1969579874
    case lb => 25196
    case lh => 26732
    case lw => 30572
    case lbu => 7692908
    case lhu => 7694444
    case sb => 25203
    case sh => 26739
    case sw => 30579
    case ecall => 465674789733
    case ebreak => 118066057994853
    case fence => 435459876198
    case nop => 7368558
  }

  lemma Coded(m: Mnemonic)
    ensures Code(Name(m)) == Key(m)
  {
  }

  lemma RegisterOpsNamed(s: string, m: Mnemonic)
    ensures RegisterOps(s) == Some(m) ==> s == Name(m)
  {
  }

  lemma ImmediateOpsNamed(s: string, m: Mnemonic)
    ensures ImmediateOps(s) == Some(m) ==> s == Name(m)
  {
  }

  lemma JumpOpsNamed(s: string, m: Mnemonic)
    ensures JumpOps(s) == Some(m) ==> s == Name(m)
  {
  }

  lemma OtherOpsNamed(s: string, m: Mnemonic)
    ensures OtherOps(s) == Some(m) ==> s == Name(m)
  {
  }

  lemma Named(s: string, m: Mnemonic)
    requires MnemonicOf(s) == Some(m)
    ensures s == Name(m)
  {
    hide Name, RegisterOps, ImmediateOps, JumpOps, OtherOps;
    RegisterOpsNamed(s, m);
    ImmediateOpsNamed(s, m);
    JumpOpsNamed(s, m);
    OtherOpsNamed(s, m);
  }

  lemma Distinct(m: Mnemonic, n: Mnemonic)
    requires Name(m) == Name(n)
    ensures m == n
  {
    hide Name, Code, Key;
    Coded(m);
    Coded(n);
    KeysDiffer(m, n);
  }

  lemma KeysDiffer(m: Mnemonic, n: Mnemonic)
    requires Key(m) == Key(n)
    ensures m == n
  {
    hide Key, OfKey;
    Keyed(m);
    Keyed(n);
  }

  /** The operation with that key. */
  function OfKey(key: int): Mnemonic {
    if key == 6579297 then add else if key == 6452595 then sub else if key == 7105651 then sll
    else if key == 7629939 then slt else if key == 1970564211 then sltu else if key == 7499640 then xor
    else if key == 7107187 then srl else if key == 6386291 then sra else if key == 29295 then or
    else if key == 6581857 then and else if key == 1768186977 then addi else if key == 1769237619 then slti
    else if key == 504280411251 then sltiu else if key == 1769107320 then xori else if key == 6910575 then ori
    else if key == 1768189537 then andi else if key == 1768713331 then slli else if key == 1768714867 then srli
    else if key == 1767993971 then srai else if key == 6911340 then lui else if key == 427087721825 then auipc
    else if key == 7102826 then jal else if key == 1919705450 then jalr else if key == 7431522 then beq
    else if key == 6647394 then bne else if key == 7629922 then blt else if key == 6645602 then bge
    else if key == 1970564194 then bltu else if key == 1969579874 then bgeu else if key == 25196 then lb
    else if key == 26732 then lh else if key == 30572 then lw else if key == 7692908 then lbu
    else if key == 7694444 then lhu else if key == 25203 then sb else if key == 26739 then sh
    else if key == 30579 then sw else if key == 465674789733 then ecall else if key == 118066057994853 then ebreak
    else if key == 435459876198 then fence else nop
  }

  lemma Keyed(m: Mnemonic)
    ensures OfKey(Key(m)) == m
  {
  }

  lemma RegisterOpsFinds(m: Mnemonic, s: string)
    requires s == Name(m)
    requires m == add || m == sub || m == sll || m == slt || m == sltu || m == xor
        || m == srl || m == sra || m == or || m == and
    ensures RegisterOps(s).Some?
  {
  }

  lemma ImmediateOpsFinds(m: Mnemonic, s: string)
    requires s == Name(m)
    requires m == addi || m == slti || m == sltiu || m == xori || m == ori || m == andi
        || m == slli || m == srli || m == srai
    ensures ImmediateOps(s).Some?
  {
  }

  lemma JumpOpsFinds(m: Mnemonic, s: string)
    requires s == Name(m)
    requires m == lui || m == auipc || m == jal || m == jalr || m == beq || m == bne
        || m == blt || m == bge || m == bltu || m == bgeu
    ensures JumpOps(s).Some?
  {
  }

  lemma OtherOpsFinds(m: Mnemonic, s: string)
    requires s == Name(m)
    requires m == lb || m == lh || m == lw || m == lbu || m == lhu || m == sb
        || m == sh || m == sw || m == ecall || m == ebreak || m == fence || m == nop
    ensures OtherOps(s).Some?
  {
  }

  lemma Listed(m: Mnemonic)
    ensures MnemonicOf(Name(m)).Some?
  {
    hide Name, RegisterOps, ImmediateOps, JumpOps, OtherOps;
    var s := Name(m);
    match m
    case add | sub | sll | slt | sltu | xor | srl | sra | or | and => RegisterOpsFinds(m, s);
    case addi | slti | sltiu | xori | ori | andi | slli | srli | srai => ImmediateOpsFinds(m, s);
    case lui | auipc | jal | jalr | beq | bne | blt | bge | bltu | bgeu => JumpOpsFinds(m, s);
    case _ => OtherOpsFinds(m, s);
  }

  /** get_i_block finds exactly the operations of the table. */
  lemma NamesAre(s: string, m: Mnemonic)
    ensures MnemonicOf(s) == Some(m) <==> s == Name(m)
  {
    hide Name, MnemonicOf;
    Listed(m);
    if MnemonicOf(s) == Some(m) { Named(s, m); }
    if s == Name(m) {
      Named(s, MnemonicOf(s).value);
      Distinct(m, MnemonicOf(s).value);
    }
  }

  /** The operands of an operation, in the order in which they are written. */
  function Shape(m: Mnemonic): seq<Kind> {
    match m
    case add | sub | sll | slt | sltu | xor | srl | sra | or | and => [RegisterKind, RegisterKind, RegisterKind]
    case addi | slti | sltiu | xori | ori | andi => [RegisterKind, RegisterKind, ImmediateKind]
    case slli | srli | srai => [RegisterKind, RegisterKind, ShiftKind]
    case lui | auipc => [RegisterKind, UpperKind]
    case jal => [RegisterKind, LabelKind]
    case jalr | lb | lh | lw | lbu | lhu | sb | sh | sw => [RegisterKind, AddressKind]
    case beq | bne | blt | bge | bltu | bgeu => [RegisterKind, RegisterKind, LabelKind]
    case ecall | ebreak | fence | nop => []
  }

  /** The text is an operand of that kind. */
  predicate Fits(kind: Kind, s: string) {
    match kind
    case RegisterKind => IsRegister(s)
    case ImmediateKind => Denotes(s, -2048, 2047)
    case ShiftKind => Denotes(s, 0, 31)
    case UpperKind => Denotes(s, 0, 1048575) && !(s[0] == '-' && HasHexPrefix(s[1..]))
    case LabelKind => (s == "" || !IsDigit(s[0])) && forall c <- s :: IsNameChar(c)
    case AddressKind => IsAddress(s)
    case NoOperand => false
  }

  predicate HasShape(r: Row, shape: seq<Kind>) {
    && |shape| == r.operands && (|shape| > 0 ==> shape[0] == r.op1) && (|shape| > 1 ==> shape[1] == r.op2)
    && (|shape| > 2 ==> shape[2] == r.op3) && |shape| <= 3
  }

  lemma Shapes()
    ensures forall f3, f7 :: HasShape(Register3(f3, f7), [RegisterKind, RegisterKind, RegisterKind])
    ensures forall k, f3, f7 :: HasShape(Immediate3(k, f3, f7), [RegisterKind, RegisterKind, k])
    ensures forall f3 :: HasShape(Branch3(f3), [RegisterKind, RegisterKind, LabelKind])
    ensures forall format, opcode, f3 :: HasShape(Indexed(format, opcode, f3), [RegisterKind, AddressKind])
    ensures forall opcode, f7 :: HasShape(Bare(opcode, f7), [])
  {
  }

  lemma RowShaped(m: Mnemonic)
    ensures HasShape(RowOf(m), Shape(m))
  {
    hide Register3, Immediate3, Branch3, Indexed, Bare;
    Shapes();
  }

  lemma FitsIsOk(kind: Kind, s: string)
    ensures OperandOk(kind, s) <==> Fits(kind, s)
  {
    hide IsRegister, Denotes, IsAddress, ReadR, ReadI, ReadS, ReadU, ReadA, HasHexPrefix;
    RegisterRead(s);
    ImmediateRead(s);
    AddressRead(s);
  }

  predicate IsOperation(t: seq<string>, m: Mnemonic) {
    |t| == 1 + |Shape(m)| && t[0] == Name(m) && OperandsFit(Shape(m), t)
  }

  predicate OperandsFit(shape: seq<Kind>, t: seq<string>)
    requires |t| == 1 + |shape|
  {
    forall i | 1 <= i < |t| :: Fits(shape[i - 1], t[i])
  }

  lemma OneByOne(shape: seq<Kind>, t: seq<string>)
    requires |t| == 1 + |shape| <= 4
    ensures OperandsFit(shape, t) <==>
        && (|t| > 1 ==> Fits(shape[0], t[1])) && (|t| > 2 ==> Fits(shape[1], t[2]))
        && (|t| > 3 ==> Fits(shape[2], t[3]))
  {
    hide Fits;
  }

  /** check_syntax and check_semantics accept exactly the operations of the language. */
  lemma LegalIs(t: seq<string>, m: Mnemonic)
    ensures Accepted(t, m) <==> IsOperation(t, m)
  {
    hide Shape, RowOf, OperandOk, Fits, Name, MnemonicOf, OperandsFit;
    NamesAre(Token(t, 0), m);
    RowShaped(m);
    var r := RowOf(m);
    FitsIsOk(r.op1, Token(t, 1));
    FitsIsOk(r.op2, Token(t, 2));
    FitsIsOk(r.op3, Token(t, 3));
    if |t| == 1 + |Shape(m)| { OneByOne(Shape(m), t); }
  }

  // ---- the words ----

  lemma NotZeroR(base: Word, a: Word, b: Word, c: Word)
    requires base != 0
    ensures PackR(base, a, b, c) != 0
  {
  }

  lemma NotZeroS(base: Word, a: Word, b: Word, c: Word)
    requires base != 0
    ensures PackS(base, a, b, c) != 0
  {
  }

  lemma NotZeroB(base: Word, a: Word, b: Word, c: Word)
    requires base != 0
    ensures PackB(base, a, b, c) != 0
  {
  }

  lemma NotZeroU(base: Word, a: Word, b: Word)
    requires base != 0
    ensures PackU(base, a, b) != 0
  {
  }

  lemma NotZeroJ(base: Word, a: Word, b: Word)
    requires base != 0
    ensures PackJ(base, a, b) != 0
  {
  }

  predicate HasOpcode(r: Row) { Base(r) != 0 }

  lemma Opcodes()
    ensures forall f3, f7 :: HasOpcode(Register3(f3, f7))
    ensures forall k, f3, f7 :: HasOpcode(Immediate3(k, f3, f7))
    ensures forall f3 :: HasOpcode(Branch3(f3))
    ensures forall format, opcode, f3 :: opcode != 0 ==> HasOpcode(Indexed(format, opcode, f3))
    ensures forall opcode, f7 :: opcode != 0 ==> HasOpcode(Bare(opcode, f7))
  {
  }

  lemma RowHasOpcode(m: Mnemonic)
    ensures HasOpcode(RowOf(m))
  {
    hide Register3, Immediate3, Branch3, Indexed, Bare;
    Opcodes();
  }

  // ---- addresses ----

  lemma {:induction false} NthAddressIs(n: nat)
    ensures NthAddress(n) == AsWord(4 * n)
  {
    hide AsWord, Plus, Following;
    UpTo8();
    if n > 0 {
      NthAddressIs(n - 1);
      Sum(4 * (n - 1), 4);
      FollowingIs(NthAddress(n - 1));
    }
  }

  lemma FollowingIs(w: Word)
    ensures Following(w) == Plus(w, 4)
  {
  }

  /** The distance of two lines: four for each operation between them. */
  lemma DistanceIs(lines: seq<Line>, j: nat, k: nat)
    requires j <= |lines| && k <= |lines|
    ensures Distance(AddressAt(lines, j), AddressAt(lines, k))
        == AsWord(4 * (OpsBefore(lines, j) - OpsBefore(lines, k)))
  {
    hide AsWord, AddressAt, Distance, Plus, Minus;
    AddressCounts(lines, j);
    AddressCounts(lines, k);
    NthAddressIs(OpsBefore(lines, j));
    NthAddressIs(OpsBefore(lines, k));
    var a, b := 4 * OpsBefore(lines, j), 4 * OpsBefore(lines, k);
    Opposite(b);
    Sum(a, -b);
    Difference(AsWord(a), AsWord(b));
  }

  lemma Difference(v: Word, w: Word)
    ensures Distance(v, w) == Plus(v, Minus(w))
  {
    hide Plus, Distance;
    Subtract(v, w);
    assert Minus(w) == 0 - w;
  }

  lemma Subtract(v: Word, w: Word)
    ensures Distance(v, w) == Plus(v, 0 - w)
  {
  }

  lemma Limits()
    ensures AsWord(-4096) == 0xFFFF_F000 && AsWord(4095) == 4095
    ensures AsWord(-1048576) == 0xFFF0_0000 && AsWord(1048575) == 1048575
  {
    LowPowers();
    HighPowers();
    CountedDown(4096);
    CountedDown(1048576);
    Opposite(4096);
    Opposite(1048576);
    hide AsWord;
  }

  lemma RangesAre(v: int)
    ensures Between(AsWord(v), 0xFFFF_F000, 4095) <==> -4096 <= Wrap(v) <= 4095
    ensures Between(AsWord(v), 0xFFF0_0000, 1048575) <==> -1048576 <= Wrap(v) <= 1048575
  {
    hide AsWord, Between;
    Limits();
    WithinIs(v, -4096, 4095);
    WithinIs(v, -1048576, 1048575);
  }

  // ---- whole programs ----

  predicate WithFormat(r: Row, f: Format) { r.format == f }

  lemma ShapedFormats()
    ensures forall f3, f7 :: WithFormat(Register3(f3, f7), Format.R)
    ensures forall k, f3, f7 :: WithFormat(Immediate3(k, f3, f7), Format.I)
    ensures forall f3 :: WithFormat(Branch3(f3), Format.B)
    ensures forall format, opcode, f3 :: WithFormat(Indexed(format, opcode, f3), format)
    ensures forall opcode, f7 :: WithFormat(Bare(opcode, f7), Format.I)
  {
  }

  function FormatOf(m: Mnemonic): Format {
    match m
    case add | sub | sll | slt | sltu | xor | srl | sra | or | and => Format.R
    case lui | auipc => Format.U
    case jal => Format.J
    case beq | bne | blt | bge | bltu | bgeu => Format.B
    case sb | sh | sw => Format.S
    case _ => Format.I
  }

  lemma FormatIs(m: Mnemonic)
    ensures RowOf(m).format == FormatOf(m)
  {
    hide Register3, Immediate3, Branch3, Indexed, Bare;
    ShapedFormats();
  }

  lemma Formats(m: Mnemonic)
    ensures var f := RowOf(m).format;
      f != NoFormat && (f == Format.B <==> IsBranch(m)) && (f == Format.J <==> m == jal)
  {
    hide RowOf, FormatOf;
    FormatIs(m);
    BranchFormat(m);
    JumpFormat(m);
  }

  lemma BranchFormat(m: Mnemonic)
    ensures FormatOf(m) == Format.B <==> IsBranch(m)
  {
  }

  lemma JumpFormat(m: Mnemonic)
    ensures FormatOf(m) != NoFormat && (FormatOf(m) == Format.J <==> m == jal)
  {
  }

  /** The operand that holds the label of a jump or branch. */
  function Target(t: seq<string>, m: Mnemonic): string { Token(t, if m == jal then 2 else 3) }

  /** The address is known and within the reach of the operation. */
  predicate Near(there: Option<Word>, address: Word, m: Mnemonic) {
    there.Some? && if m == jal then Between(Distance(there.value, address), 0xFFF0_0000, 1048575)
      else Between(Distance(there.value, address), 0xFFFF_F000, 4095)
  }

  /** get_opcode gives up exactly on a label that is missing or too far. */
  lemma OpcodeGivesUp(m: Mnemonic, t: seq<string>, table: seq<Symbol>, address: Word)
    requires Accepted(t, m)
    ensures GetOpcode(t, table, address) == 0 <==>
        (m == jal || IsBranch(m)) && !Near(GetAddress(table, Target(t, m)), address, m)
  {
    hide Accepted, GetOpcode, RowOf, Between, Distance, PackR, PackS, PackB, PackU, PackJ, Base, ReadOperand,
         AddressOperand, IsBranch;
    Dispatch(m, t, table, address);
    RowHasOpcode(m);
    Formats(m);
    NotZero(Base(RowOf(m)));
  }

  lemma NotZero(base: Word)
    requires base != 0
    ensures forall a, b, c :: PackR(base, a, b, c) != 0
    ensures forall a, b, c :: PackS(base, a, b, c) != 0
    ensures forall a, b, c :: PackB(base, a, b, c) != 0
    ensures forall a, b :: PackU(base, a, b) != 0
    ensures forall a, b :: PackJ(base, a, b) != 0
  {
    hide PackR, PackS, PackB, PackU, PackJ;
    forall a, b, c ensures PackR(base, a, b, c) != 0 { NotZeroR(base, a, b, c); }
    forall a, b, c ensures PackS(base, a, b, c) != 0 { NotZeroS(base, a, b, c); }
    forall a, b, c ensures PackB(base, a, b, c) != 0 { NotZeroB(base, a, b, c); }
    forall a, b ensures PackU(base, a, b) != 0 { NotZeroU(base, a, b); }
    forall a, b ensures PackJ(base, a, b) != 0 { NotZeroJ(base, a, b); }
  }

  /** Pass one gets past this line. */
  ghost predicate Declares(lines: seq<Line>, k: nat)
    requires k < |lines|
  {
    match lines[k]
    case Blank => true
    case Comment => true
    case Bad => false
    case Label(name) => |name| <= 255 && lines[k] !in lines[..k]
    case Op(t) => exists m :: IsOperation(t, m)
  }

  lemma {:induction false} TableIff(lines: seq<Line>, k: nat)
    requires k <= |lines|
    ensures TableAt(lines, k).Some? <==> forall i | 0 <= i < k :: Declares(lines, i)
  {
    hide Assembler.Legal, AddressAt, IsOperation;
    if k > 0 {
      TableIff(lines, k - 1);
      TableStep(lines, k);
    }
  }

  lemma TableStep(lines: seq<Line>, k: nat)
    requires 0 < k <= |lines|
    ensures TableAt(lines, k).Some? <==> TableAt(lines, k - 1).Some? && Declares(lines, k - 1)
  {
    hide Assembler.Legal, AddressAt, IsOperation;
    match lines[k - 1]
    case Label(name) =>
      if TableAt(lines, k - 1).Some? { TableIsLabels(lines, k - 1, name); }
    case Op(t) => LegalExists(t);
    case _ =>
  }

  lemma LegalExists(t: seq<string>)
    ensures Assembler.Legal(t) <==> exists m :: IsOperation(t, m)
  {
    hide IsOperation, RowOf, OperandOk, MnemonicOf;
    if Assembler.Legal(t) {
      LegalIs(t, MnemonicOf(Token(t, 0)).value);
    }
    if m :| IsOperation(t, m) { LegalIs(t, m); }
  }

  lemma {:induction false} WordsIff(lines: seq<Line>, table: seq<Symbol>, k: nat)
    requires k <= |lines|
    ensures WordsAt(lines, table, k).Some? <==>
        forall i | 0 <= i < k && lines[i].Op? :: GetOpcode(lines[i].tokens, table, AddressAt(lines, i)) != 0
  {
    hide GetOpcode, AddressAt;
    if k > 0 { WordsIff(lines, table, k - 1); }
  }

  /** The label is declared at line j, near enough for a jump or branch at line k. */
  predicate Reaches(lines: seq<Line>, j: nat, k: nat, m: Mnemonic, name: string)
    requires k < |lines|
  {
    && j < |lines| && lines[j] == Line.Label(name)
    && var d := Wrap(4 * (OpsBefore(lines, j) - OpsBefore(lines, k)));
      if m == jal then -1048576 <= d <= 1048575 else -4096 <= d <= 4095
  }

  /** The label of a jump or branch is there and near enough. */
  ghost predicate Resolves(lines: seq<Line>, k: nat, m: Mnemonic)
    requires k < |lines| && lines[k].Op?
  {
    m == jal || IsBranch(m) ==> exists j :: Reaches(lines, j, k, m, Target(lines[k].tokens, m))
  }

  lemma OpcodeIff(lines: seq<Line>, k: nat, m: Mnemonic)
    requires k < |lines| && lines[k].Op? && IsOperation(lines[k].tokens, m)
    requires TableAt(lines, |lines|).Some?
    ensures GetOpcode(lines[k].tokens, TableAt(lines, |lines|).value, AddressAt(lines, k)) != 0 <==>
        Resolves(lines, k, m)
  {
    hide IsOperation, Accepted, GetOpcode, AddressAt, Near, TableAt, Reaches, IsBranch, Target;
    var t, table := lines[k].tokens, TableAt(lines, |lines|).value;
    LegalIs(t, m);
    OpcodeGivesUp(m, t, table, AddressAt(lines, k));
    if m == jal || IsBranch(m) { LabelReached(lines, k, m, Target(t, m)); }
  }

  lemma LabelReached(lines: seq<Line>, k: nat, m: Mnemonic, name: string)
    requires k < |lines| && TableAt(lines, |lines|).Some?
    ensures (exists j :: Reaches(lines, j, k, m, name)) <==>
        Near(GetAddress(TableAt(lines, |lines|).value, name), AddressAt(lines, k), m)
  {
    hide AddressAt, Distance, Between, TableAt, OpsBefore, Wrap, AsWord;
    TableIsLabels(lines, |lines|, name);
    assert lines[..|lines|] == lines;
    forall j | 0 <= j < |lines| && lines[j] == Line.Label(name)
      ensures Reaches(lines, j, k, m, name) <==> Near(Some(AddressAt(lines, j)), AddressAt(lines, k), m)
    {
      DistanceIs(lines, j, k);
      RangesAre(4 * (OpsBefore(lines, j) - OpsBefore(lines, k)));
    }
  }

  /** What every line of a program must be. */
  ghost predicate WellFormed(lines: seq<Line>, k: nat)
    requires k < |lines|
  {
    Declares(lines, k) && (lines[k].Op? ==> forall m | IsOperation(lines[k].tokens, m) :: Resolves(lines, k, m))
  }

  /** A program assembles exactly when every line is an operation of the language, a new label, a comment or
      blank, and the label of each jump and branch is declared within its reach. */
  lemma AssemblesExactly(lines: seq<Line>)
    ensures Assembled(lines).Some? <==> forall k | 0 <= k < |lines| :: WellFormed(lines, k)
  {
    hide IsOperation, GetOpcode, AddressAt, TableAt, WordsAt, Resolves;
    TableIff(lines, |lines|);
    if TableAt(lines, |lines|).Some? {
      var table := TableAt(lines, |lines|).value;
      WordsIff(lines, table, |lines|);
      forall k | 0 <= k < |lines|
        ensures WellFormed(lines, k) <==>
            (lines[k].Op? ==> GetOpcode(lines[k].tokens, table, AddressAt(lines, k)) != 0)
      {
        assert Declares(lines, k);
        if lines[k].Op? {
          var n :| IsOperation(lines[k].tokens, n);
          OpcodeIff(lines, k, n);
          forall m | IsOperation(lines[k].tokens, m)
            ensures GetOpcode(lines[k].tokens, table, AddressAt(lines, k)) != 0 <==> Resolves(lines, k, m)
          {
            OpcodeIff(lines, k, m);
          }
        }
      }
    } else {
      var i: nat :| i < |lines| && !Declares(lines, i);
      assert !WellFormed(lines, i);
    }
  }
}
