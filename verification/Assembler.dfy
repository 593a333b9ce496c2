/** The two-pass assembler on tokenised lines (src/assembler/core, include/assembler.h). An int of the
    source is the machine word that represents it. */
module Assembler {
  import opened Wrappers
  import opened Words
  import opened Alu

  // ---- operand text (src/assembler/core/semantics_analyzer.c) ----

  predicate IsDigit(c: char) { '0' <= c <= '9' }

  predicate IsHexLetter(c: char) { 'a' <= c <= 'f' }

  predicate AllDigits(s: string) { forall i | 0 <= i < |s| :: IsDigit(s[i]) }

  predicate AllHex(s: string) { forall i | 0 <= i < |s| :: IsDigit(s[i]) || IsHexLetter(s[i]) }

  function DigitWord(c: char): Word {
    if c == '1' then 1 else if c == '2' then 2 else if c == '3' then 3 else if c == '4' then 4
    else if c == '5' then 5 else if c == '6' then 6 else if c == '7' then 7 else if c == '8' then 8
    else if c == '9' then 9 else if c == 'a' then 10 else if c == 'b' then 11 else if c == 'c' then 12
    else if c == 'd' then 13 else if c == 'e' then 14 else if c == 'f' then 15 else 0
  }

  function Appended(n: Word, base: Word, digit: Word): Word { n * base + digit }

  function Number(s: string, base: Word): Word {
    if s == "" then 0 else Appended(Number(s[..|s| - 1], base), base, DigitWord(s[|s| - 1]))
  }

  /** The text after an optional minus sign. */
  function Unsigned(s: string): string { if s != "" && s[0] == '-' then s[1..] else s }

  function WithSign(s: string, n: Word): Word { if s != "" && s[0] == '-' then 0 - n else n }

  predicate HasHexPrefix(t: string) { |t| >= 2 && t[0] == '0' && t[1] == 'x' }

  /** read_dec and atoi; None is the source's INT_MIN. */
  function ReadDec(s: string): Option<Word> {
    var t := Unsigned(s);
    if s != "" && AllDigits(t) then Some(WithSign(s, Number(t, 10))) else None
  }

  /** read_hex and strtol with base 16. */
  function ReadHex(s: string): Option<Word> {
    var t := Unsigned(s);
    var d := if HasHexPrefix(t) then t[2..] else t;
    if s != "" && AllHex(d) then Some(WithSign(s, Number(d, 16))) else None
  }

  function ReadNumber(s: string): Option<Word> {
    if HasHexPrefix(Unsigned(s)) then ReadHex(s) else ReadDec(s)
  }

  predicate Between(w: Word, least: Word, most: Word) { !SignedLess(w, least) && !SignedLess(most, w) }

  /** The number, if it lies in the given signed range. */
  function Checked(n: Option<Word>, least: Word, most: Word): (r: Option<Word>)
    ensures r.Some? ==> Between(r.value, least, most)
  {
    if n.Some? && Between(n.value, least, most) then n else None
  }

  function ReadR(s: string): Option<Word> {
    if s != "" && s[0] == 'r' then Checked(ReadNumber(s[1..]), 0, 31) else None
  }

  function ReadI(s: string): Option<Word> { Checked(ReadNumber(s), 0xFFFF_F800, 2047) }

  function ReadS(s: string): Option<Word> { Checked(ReadNumber(s), 0, 31) }

  function ReadU(s: string): Option<Word> {
    if s != "" && s[0] == '-' && HasHexPrefix(Unsigned(s)) then None
    else Checked(ReadNumber(s), 0, 1048575)
  }

  predicate IsNameChar(c: char) { 'a' <= c <= 'z' || 'A' <= c <= 'Z' || IsDigit(c) || c == '_' }

  /** read_l: a name that does not start with a digit. */
  predicate IsLabel(s: string) {
    (s == "" || !IsDigit(s[0])) && forall i | 0 <= i < |s| :: IsNameChar(s[i])
  }

  function IndexOf(s: string, c: char): (i: nat)
    ensures i <= |s| && c !in s[..i] && (i < |s| ==> s[i] == c)
  {
    if s == "" || s[0] == c then 0 else 1 + IndexOf(s[1..], c)
  }

  /** read_a: offset(register), in buffers of 32 and 8 characters; what follows the closing
      parenthesis is not looked at. */
  function ReadA(s: string): Option<(Word, Word)> {
    var open := IndexOf(s, '(');
    if open == |s| || open >= 32 then None
    else
      var rest := s[open + 1..];
      var close := IndexOf(rest, ')');
      if close == |rest| || close >= 8 then None
      else
        match (ReadI(s[..open]), ReadR(rest[..close]))
        case (Some(offset), Some(reg)) => Some((offset, reg))
        case _ => None
  }

  // ---- the instruction table (include/assembler.h:41-115) ----

  datatype Mnemonic =
    | add | sub | sll | slt | sltu | xor | srl | sra | or | and
    | addi | slti | sltiu | xori | ori | andi | slli | srli | srai
    | lui | auipc | jal | jalr
    | beq | bne | blt | bge | bltu | bgeu
    | lb | lh | lw | lbu | lhu | sb | sh | sw
    | ecall | ebreak | fence | nop

  datatype Kind = NoOperand | RegisterKind | ImmediateKind | ShiftKind | UpperKind | LabelKind | AddressKind

  datatype Row = Row(operands: nat, op1: Kind, op2: Kind, op3: Kind, format: Format, opcode: Word, funct3: Word,
      funct7: Word)

  function Register3(funct3: Word, funct7: Word): Row {
    Row(3, RegisterKind, RegisterKind, RegisterKind, R, 0x33, funct3, funct7)
  }

  function Immediate3(kind: Kind, funct3: Word, funct7: Word): Row {
    Row(3, RegisterKind, RegisterKind, kind, I, 0x13, funct3, funct7)
  }

  function Branch3(funct3: Word): Row { Row(3, RegisterKind, RegisterKind, LabelKind, B, 0x63, funct3, 0) }

  function Indexed(format: Format, opcode: Word, funct3: Word): Row {
    Row(2, RegisterKind, AddressKind, NoOperand, format, opcode, funct3, 0)
  }

  function Bare(opcode: Word, funct7: Word): Row { Row(0, NoOperand, NoOperand, NoOperand, I, opcode, 0, funct7) }

  function RowOf(m: Mnemonic): Row {
    match m
    case add => Register3(0, 0)
    case sub => Register3(0, 0x20)
    case sll => Register3(1, 0)
    case slt => Register3(2, 0)
    case sltu => Register3(3, 0)
    case xor => Register3(4, 0)
    case srl => Register3(5, 0)
    case sra => Register3(5, 0x20)
    case or => Register3(6, 0)
    case and => Register3(7, 0)
    case addi => Immediate3(ImmediateKind, 0, 0)
    case slti => Immediate3(ImmediateKind, 2, 0)
    case sltiu => Immediate3(ImmediateKind, 3, 0)
    case xori => Immediate3(ImmediateKind, 4, 0)
    case ori => Immediate3(ImmediateKind, 6, 0)
    case andi => Immediate3(ImmediateKind, 7, 0)
    case slli => Immediate3(ShiftKind, 1, 0)
    case srli => Immediate3(ShiftKind, 5, 0)
    case srai => Immediate3(ShiftKind, 5, 0x20)
    case lui => Row(2, RegisterKind, UpperKind, NoOperand, U, 0x37, 0, 0)
    case auipc => Row(2, RegisterKind, UpperKind, NoOperand, U, 0x17, 0, 0)
    case jal => Row(2, RegisterKind, LabelKind, NoOperand, J, 0x6F, 0, 0)
    case jalr => Indexed(I, 0x67, 0)
    case beq => Branch3(0)
    case bne => Branch3(1)
    case blt => Branch3(4)
    case bge => Branch3(5)
    case bltu => Branch3(6)
    case bgeu => Branch3(7)
    case lb => Indexed(I, 0x03, 0)
    case lh => Indexed(I, 0x03, 1)
    case lw => Indexed(I, 0x03, 2)
    case lbu => Indexed(I, 0x03, 4)
    case lhu => Indexed(I, 0x03, 5)
    case sb => Indexed(S, 0x23, 0)
    case sh => Indexed(S, 0x23, 1)
    case sw => Indexed(S, 0x23, 2)
    case ecall => Bare(0x73, 0)
    case ebreak => Bare(0x73, 1)
    case fence => Bare(0x0F, 0)
    case nop => Bare(0x13, 0)
  }

  /** get_i_block, down the table. */
  function MnemonicOf(s: string): Option<Mnemonic> {
    FirstOf(RegisterOps(s), FirstOf(ImmediateOps(s), FirstOf(JumpOps(s), OtherOps(s))))
  }

  function FirstOf(a: Option<Mnemonic>, b: Option<Mnemonic>): Option<Mnemonic> { if a.Some? then a else b }

  function RegisterOps(s: string): Option<Mnemonic> {
    if s == "add" then Some(add) else if s == "sub" then Some(sub) else if s == "sll" then Some(sll)
    else if s == "slt" then Some(slt) else if s == "sltu" then Some(sltu) else if s == "xor" then Some(xor)
    else if s == "srl" then Some(srl) else if s == "sra" then Some(sra) else if s == "or" then Some(or)
    else if s == "and" then Some(and)
    else None
  }

  function ImmediateOps(s: string): Option<Mnemonic> {
    if s == "addi" then Some(addi) else if s == "slti" then Some(slti) else if s == "sltiu" then Some(sltiu)
    else if s == "xori" then Some(xori) else if s == "ori" then Some(ori) else if s == "andi" then Some(andi)
    else if s == "slli" then Some(slli) else if s == "srli" then Some(srli) else if s == "srai" then Some(srai)
    else None
  }

  function JumpOps(s: string): Option<Mnemonic> {
    if s == "lui" then Some(lui) else if s == "auipc" then Some(auipc) else if s == "jal" then Some(jal)
    else if s == "jalr" then Some(jalr) else if s == "beq" then Some(beq) else if s == "bne" then Some(bne)
    else if s == "blt" then Some(blt) else if s == "bge" then Some(bge) else if s == "bltu" then Some(bltu)
    else if s == "bgeu" then Some(bgeu)
    else None
  }

  function OtherOps(s: string): Option<Mnemonic> {
    if s == "lb" then Some(lb) else if s == "lh" then Some(lh) else if s == "lw" then Some(lw)
    else if s == "lbu" then Some(lbu) else if s == "lhu" then Some(lhu) else if s == "sb" then Some(sb)
    else if s == "sh" then Some(sh) else if s == "sw" then Some(sw) else if s == "ecall" then Some(ecall)
    else if s == "ebreak" then Some(ebreak) else if s == "fence" then Some(fence) else if s == "nop" then Some(nop)
    else None
  }

  // ---- checks (src/assembler/core/syntax_analyzer.c, semantics_analyzer.c) ----

  /** check_operand. */
  predicate OperandOk(kind: Kind, s: string) {
    match kind
    case RegisterKind => ReadR(s).Some?
    case ImmediateKind => ReadI(s).Some?
    case ShiftKind => ReadS(s).Some?
    case UpperKind => ReadU(s).Some?
    case LabelKind => IsLabel(s)
    case AddressKind => ReadA(s).Some?
    case NoOperand => false
  }

  /** The i-th string of the token array. */
  function Token(tokens: seq<string>, i: nat): string { if i < |tokens| then tokens[i] else "" }

  /** check_syntax and check_semantics. */
  predicate Legal(tokens: seq<string>) {
    var m := MnemonicOf(Token(tokens, 0));
    m.Some? &&
      var row := RowOf(m.value);
      && row.operands + 1 == |tokens|
      && (row.operands > 0 ==> OperandOk(row.op1, Token(tokens, 1)))
      && (row.operands > 1 ==> OperandOk(row.op2, Token(tokens, 2)))
      && (row.operands > 2 ==> OperandOk(row.op3, Token(tokens, 3)))
  }

  // ---- the symbol table (src/assembler/core/symbol_table.c) ----

  /** Newest first. */
  datatype Symbol = Symbol(name: string, address: Word)

  /** get_address; None is -1. */
  function GetAddress(table: seq<Symbol>, name: string): Option<Word> {
    if table == [] then None
    else if table[0].name == name then Some(table[0].address)
    else GetAddress(table[1..], name)
  }

  /** add_symbol; None is -1. */
  function AddSymbol(table: seq<Symbol>, name: string, address: Word): Option<seq<Symbol>> {
    if |name| > 255 || GetAddress(table, name).Some? then None
    else Some([Symbol(name, address)] + table)
  }

  // ---- encoding (src/assembler/core/opcode_generator.c) ----

  /** read_operand: one number, or 0 for the other kinds. */
  function ReadOperand(kind: Kind, s: string): Word {
    match kind
    case RegisterKind => OrMinimum(ReadR(s))
    case ImmediateKind => OrMinimum(ReadI(s))
    case ShiftKind => OrMinimum(ReadS(s))
    case UpperKind => OrMinimum(ReadU(s))
    case _ => 0
  }

  /** INT_MIN for an error. */
  function OrMinimum(n: Option<Word>): Word { if n.Some? then n.value else 0x8000_0000 }

  /** The part of a word that the table fixes. */
  function Fixed(opcode: Word, funct3: Word, funct7: Word): Word { opcode | (funct3 << 12) | (funct7 << 25) }

  function Base(row: Row): Word { Fixed(row.opcode, row.funct3, row.funct7) }

  function PackR(base: Word, rd: Word, rs1: Word, rs2: Word): Word { base | (rd << 7) | (rs1 << 15) | (rs2 << 20) }

  function PackS(base: Word, rs2: Word, rs1: Word, imm: Word): Word {
    base | (rs2 << 20) | (rs1 << 15) | ((imm & 0x1F) << 7) | ((imm & 0xFE0) << 20)
  }

  function PackB(base: Word, rs1: Word, rs2: Word, offset: Word): Word {
    base | (rs1 << 15) | (rs2 << 20) | ((offset & 0x1E) << 7) | ((offset & 0x7E0) << 20)
    | ((offset & 0x800) >> 4) | ((offset & 0x1000) << 19)
  }

  function PackU(base: Word, rd: Word, imm: Word): Word { base | (rd << 7) | (imm << 12) }

  function PackJ(base: Word, rd: Word, offset: Word): Word {
    base | (rd << 7) | ((offset & 0x7FE) << 20) | ((offset & 0x800) << 9) | (offset & 0xF_F000) |
        ((offset & 0x10_0000) << 11)
  }

  function EncodeI(row: Row, tokens: seq<string>): Word {
    var v1 := ReadOperand(row.op1, Token(tokens, 1));
    if row.op2 == AddressKind then
      var a := AddressOperand(Token(tokens, 2));
      PackR(Base(row), v1, a.1, a.0)
    else
      PackR(Base(row), v1, ReadOperand(row.op2, Token(tokens, 2)), ReadOperand(row.op3, Token(tokens, 3)))
  }

  /** read_a: the offset and the register, or INT_MIN for a register that is not one. */
  function AddressOperand(s: string): (Word, Word) {
    if ReadA(s).Some? then ReadA(s).value else (0, 0x8000_0000)
  }

  function EncodeS(row: Row, tokens: seq<string>): Word {
    var a := AddressOperand(Token(tokens, 2));
    PackS(Base(row), ReadOperand(row.op1, Token(tokens, 1)), a.1, a.0)
  }

  function EncodeB(row: Row, tokens: seq<string>, table: seq<Symbol>, address: Word): Word {
    var v1, v2 := ReadOperand(row.op1, Token(tokens, 1)), ReadOperand(row.op2, Token(tokens, 2));
    var target := GetAddress(table, Token(tokens, 3));
    if target.None? || !Between(Distance(target.value, address), 0xFFFF_F000, 4095) then 0
    else PackB(Base(row), v1, v2, Distance(target.value, address))
  }

  function EncodeJ(row: Row, tokens: seq<string>, table: seq<Symbol>, address: Word): Word {
    var target := GetAddress(table, Token(tokens, 2));
    if target.None? || !Between(Distance(target.value, address), 0xFFF0_0000, 1048575) then 0
    else PackJ(Base(row), ReadOperand(row.op1, Token(tokens, 1)), Distance(target.value, address))
  }

  function EncodeR(row: Row, tokens: seq<string>): Word {
    PackR(Base(row), ReadOperand(row.op1, Token(tokens, 1)), ReadOperand(row.op2, Token(tokens, 2)),
        ReadOperand(row.op3, Token(tokens, 3)))
  }

  function EncodeU(row: Row, tokens: seq<string>): Word {
    PackU(Base(row), ReadOperand(row.op1, Token(tokens, 1)), ReadOperand(row.op2, Token(tokens, 2)))
  }

  /** get_opcode: 0 when a label is missing or too far. */
  function GetOpcode(tokens: seq<string>, table: seq<Symbol>, address: Word): Word {
    var m := MnemonicOf(Token(tokens, 0));
    if m.None? then 0
    else
      var row := RowOf(m.value);
      match row.format
      case R => EncodeR(row, tokens)
      case I => EncodeI(row, tokens)
      case S => EncodeS(row, tokens)
      case B => EncodeB(row, tokens, table, address)
      case U => EncodeU(row, tokens)
      case J => EncodeJ(row, tokens, table, address)
      case NoFormat => 0
  }

  function Distance(target: Word, address: Word): Word { target - address }

  // ---- the two passes (src/assembler/core/main.c) ----

  /** What get_tokens makes of a line. */
  datatype Line = Blank | Comment | Bad | Label(name: string) | Op(tokens: seq<string>)

  /** Instruction number times four. */
  function Times4(n: Word): Word { n << 2 }

  function Next(n: Word): Word { n + 1 }

  /** The instruction number that pass one has reached before line k. */
  function NumberAt(lines: seq<Line>, k: nat): Word
    requires k <= |lines|
  {
    if k == 0 then 0 else if lines[k - 1].Op? then Next(NumberAt(lines, k - 1)) else NumberAt(lines, k - 1)
  }

  function AddressAt(lines: seq<Line>, k: nat): Word
    requires k <= |lines|
  {
    Times4(NumberAt(lines, k))
  }

  /** The symbol table after k lines of pass one, or None where it gives up. */
  function TableAt(lines: seq<Line>, k: nat): Option<seq<Symbol>>
    requires k <= |lines|
  {
    if k == 0 then Some([])
    else
      match TableAt(lines, k - 1)
      case None => None
      case Some(table) =>
        match lines[k - 1]
        case Blank => Some(table)
        case Comment => Some(table)
        case Bad => None
        case Label(name) => AddSymbol(table, name, AddressAt(lines, k - 1))
        case Op(tokens) => if Legal(tokens) then Some(table) else None
  }

  /** The words of the first k lines, or None where pass two gives up. */
  function WordsAt(lines: seq<Line>, table: seq<Symbol>, k: nat): Option<seq<Word>>
    requires k <= |lines|
  {
    if k == 0 then Some([])
    else
      match WordsAt(lines, table, k - 1)
      case None => None
      case Some(words) =>
        if lines[k - 1].Op? then
          var w := GetOpcode(lines[k - 1].tokens, table, AddressAt(lines, k - 1));
          if w == 0 then None else Some(words + [w])
        else Some(words)
  }

  function Assembled(lines: seq<Line>): Option<seq<Word>> {
    match TableAt(lines, |lines|)
    case None => None
    case Some(table) => WordsAt(lines, table, |lines|)
  }

  lemma Times4Next(n: Word)
    ensures Times4(Next(n)) == Following(Times4(n))
  {
  }

  /** Pass one counts instructions and gives each label the count times four. */
  method FirstPass(lines: seq<Line>) returns (table: Option<seq<Symbol>>)
    ensures table == TableAt(lines, |lines|)
  {
    hide Legal, AddSymbol, Times4, Next;
    var symbols: seq<Symbol> := [];
    var number: Word := 0;
    var k := 0;
    while k < |lines|
      invariant 0 <= k <= |lines| && number == NumberAt(lines, k) && TableAt(lines, k) == Some(symbols)
    {
      match lines[k] {
        case Blank =>
        case Comment =>
        case Bad => GivesUp(lines, k + 1); return None;
        case Label(name) =>
          var added := AddSymbol(symbols, name, Times4(number));
          if added.None? { GivesUp(lines, k + 1); return None; }
          symbols := added.value;
        case Op(tokens) =>
          if !Legal(tokens) { GivesUp(lines, k + 1); return None; }
          number := Next(number);
      }
      k := k + 1;
    }
    return Some(symbols);
  }

  /** Pass two adds four to an address, which is the address of pass one. */
  method SecondPass(lines: seq<Line>, table: seq<Symbol>) returns (output: Option<seq<Word>>)
    ensures output == WordsAt(lines, table, |lines|)
  {
    FirstAddress();
    hide GetOpcode, Times4, Following, Next;
    var address: Word := 0;
    var words: seq<Word> := [];
    var k := 0;
    while k < |lines|
      invariant 0 <= k <= |lines| && address == AddressAt(lines, k) && WordsAt(lines, table, k) == Some(words)
    {
      if lines[k].Op? {
        var opcode := GetOpcode(lines[k].tokens, table, address);
        if opcode == 0 { StopsShort(lines, table, k + 1); return None; }
        words := words + [opcode];
        Times4Next(NumberAt(lines, k));
        address := Following(address);
      }
      k := k + 1;
    }
    return Some(words);
  }

  lemma FirstAddress()
    ensures Times4(0) == 0
  {
  }

  method Assemble(lines: seq<Line>) returns (output: Option<seq<Word>>)
    ensures output == Assembled(lines)
  {
    var table := FirstPass(lines);
    if table.None? { return None; }
    output := SecondPass(lines, table.value);
  }

  lemma {:induction false} GivesUp(lines: seq<Line>, k: nat)
    requires k <= |lines| && TableAt(lines, k) == None
    ensures TableAt(lines, |lines|) == None
    decreases |lines| - k
  {
    if k < |lines| { GivesUp(lines, k + 1); }
  }

  lemma {:induction false} StopsShort(lines: seq<Line>, table: seq<Symbol>, k: nat)
    requires k <= |lines| && WordsAt(lines, table, k) == None
    ensures WordsAt(lines, table, |lines|) == None
    decreases |lines| - k
  {
    if k < |lines| { StopsShort(lines, table, k + 1); }
  }
}
