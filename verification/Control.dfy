/** Control signals, instruction decoder and static branch predictors
    (src/execution/control.c, src/branch/). */
module Control {
  import opened Wrappers
  import opened Words
  import opened Alu

  datatype Source1 = Pc | Rs1
  datatype Source2 = Rs2 | Imm
  datatype ExType = Arithmetic | Logic | LessThan | BranchCompare
  datatype SystemCall = NoCall | Breakpoint | Ecall

  datatype ExControl = ExControl(
    source1: Source1, source2: Source2, signed: bool, typ: ExType,
    arith: ArithOp, logic: LogicOp, branch: BranchOp, system: SystemCall)

  datatype LoadOp = LoadByte | LoadHalf | LoadWord | LoadByteUnsigned | LoadHalfUnsigned
  datatype StoreOp = StoreByte | StoreHalf | StoreWord
  datatype MemAccess = NoMem | Read(load: LoadOp) | Write(store: StoreOp)
  datatype Transfer = NoTransfer | JumpTransfer | BranchTransfer

  /** `predicted` and `actual` are the two bits of the source's `branch_taken`. */
  datatype MaControl = MaControl(mem: MemAccess, predicted: bool, actual: bool, transfer: Transfer)

  datatype CuOutput = CuOutput(format: Format, ex: ExControl, ma: MaControl, wb: bool)

  const IDLE_EX := ExControl(Pc, Rs2, false, Arithmetic, Add, And, Equal, NoCall)
  const IDLE_MA := MaControl(NoMem, false, false, NoTransfer)
  const BUBBLE := CuOutput(NoFormat, IDLE_EX, IDLE_MA, false)

  /** TwoBitSwitch and HistoryTable are stubs that never predict taken. */
  datatype Strategy = NotTaken | Taken | Offset | TwoBitSwitch | HistoryTable

  predicate Predict(strategy: Strategy, ir: Word) {
    match strategy
    case NotTaken => false
    case Taken => true
    case Offset => GenerateImmediate(B, ir) & 0x8000_0000 != 0
    case TwoBitSwitch => false
    case HistoryTable => false
  }

  function Opcode(ir: Word): Word { ir & 0x7F }
  function Funct3(ir: Word): Word { (ir >> 12) & 0x7 }
  function Funct7(ir: Word): Word { ir >> 25 }

  /** The format of the first table entry with this opcode. */
  function GetFormat(opcode: Word): Format {
    if opcode == 0x33 then R
    else if opcode == 0x13 || opcode == 0x67 || opcode == 0x03 || opcode == 0x73 || opcode == 0x0F then I
    else if opcode == 0x37 || opcode == 0x17 then U
    else if opcode == 0x6F then J
    else if opcode == 0x63 then B
    else if opcode == 0x23 then S
    else NoFormat
  }

  function ArithSignals(format: Format, s2: Source2, op: ArithOp): CuOutput {
    CuOutput(format, ExControl(Rs1, s2, true, Arithmetic, op, And, Equal, NoCall), IDLE_MA, true)
  }

  function LogicSignals(format: Format, s2: Source2, op: LogicOp, signed: bool): CuOutput {
    CuOutput(format, ExControl(Rs1, s2, signed, Logic, Add, op, Equal, NoCall), IDLE_MA, true)
  }

  function CompareSignals(format: Format, s2: Source2, signed: bool): CuOutput {
    CuOutput(format, ExControl(Rs1, s2, signed, LessThan, Add, And, Equal, NoCall), IDLE_MA, true)
  }

  function AccessSignals(format: Format, mem: MemAccess, wb: bool): CuOutput {
    CuOutput(format, ExControl(Rs1, Imm, false, Arithmetic, Add, And, Equal, NoCall),
             MaControl(mem, false, false, NoTransfer), wb)
  }

  function ReadRFormat(ir: Word): Option<CuOutput> {
    var funct3, funct7 := Funct3(ir), Funct7(ir);
    if funct3 == 0 then
      if funct7 == 0 then Some(ArithSignals(R, Rs2, Add))
      else if funct7 == 0x20 then Some(ArithSignals(R, Rs2, Sub))
      else None
    else if funct3 == 1 then Some(LogicSignals(R, Rs2, ShiftLeft, false))
    else if funct3 == 2 then Some(CompareSignals(R, Rs2, true))
    else if funct3 == 3 then Some(CompareSignals(R, Rs2, false))
    else if funct3 == 4 then Some(LogicSignals(R, Rs2, Xor, false))
    else if funct3 == 5 then
      if funct7 == 0 then Some(LogicSignals(R, Rs2, ShiftRight, false))
      else if funct7 == 0x20 then Some(LogicSignals(R, Rs2, ShiftRight, true))
      else None
    else if funct3 == 6 then Some(LogicSignals(R, Rs2, Or, false))
    else Some(LogicSignals(R, Rs2, And, false))
  }

  function ReadArithmeticI(ir: Word): Option<CuOutput> {
    var funct3, funct7 := Funct3(ir), Funct7(ir);
    if funct3 == 0 then Some(ArithSignals(I, Imm, Add))
    else if funct3 == 1 then
      if funct7 == 0 then Some(LogicSignals(I, Imm, ShiftLeft, false)) else None
    else if funct3 == 2 then Some(CompareSignals(I, Imm, true))
    else if funct3 == 3 then Some(CompareSignals(I, Imm, false))
    else if funct3 == 4 then Some(LogicSignals(I, Imm, Xor, false))
    else if funct3 == 5 then
      if funct7 == 0 then Some(LogicSignals(I, Imm, ShiftRight, false))
      else if funct7 == 0x20 then Some(LogicSignals(I, Imm, ShiftRight, true))
      else None
    else if funct3 == 6 then Some(LogicSignals(I, Imm, Or, false))
    else Some(LogicSignals(I, Imm, And, false))
  }

  function ReadLoad(ir: Word): Option<CuOutput> {
    var funct3 := Funct3(ir);
    if funct3 == 0 then Some(AccessSignals(I, Read(LoadByte), true))
    else if funct3 == 1 then Some(AccessSignals(I, Read(LoadHalf), true))
    else if funct3 == 2 then Some(AccessSignals(I, Read(LoadWord), true))
    else if funct3 == 4 then Some(AccessSignals(I, Read(LoadByteUnsigned), true))
    else if funct3 == 5 then Some(AccessSignals(I, Read(LoadHalfUnsigned), true))
    else None
  }

  function JumpSignals(format: Format, s1: Source1): CuOutput {
    CuOutput(format, ExControl(s1, Imm, true, BranchCompare, Add, And, Jump, NoCall),
             MaControl(NoMem, true, false, JumpTransfer), true)
  }

  function SystemSignals(call: SystemCall): CuOutput {
    BUBBLE.(ex := IDLE_EX.(system := call))
  }

  function ReadIFormat(ir: Word): Option<CuOutput> {
    var opcode := Opcode(ir);
    if opcode == 0x13 then ReadArithmeticI(ir)
    else if opcode == 0x67 then Some(JumpSignals(I, Rs1))
    else if opcode == 0x03 then ReadLoad(ir)
    else if opcode == 0x73 then
      if Funct7(ir) == 0 then Some(SystemSignals(Ecall))
      else if Funct7(ir) == 1 then Some(SystemSignals(Breakpoint))
      else None
    else Some(BUBBLE)  // fence
  }

  function ReadSFormat(ir: Word): Option<CuOutput> {
    var funct3 := Funct3(ir);
    if funct3 == 0 then Some(AccessSignals(S, Write(StoreByte), false))
    else if funct3 == 1 then Some(AccessSignals(S, Write(StoreHalf), false))
    else if funct3 == 2 then Some(AccessSignals(S, Write(StoreWord), false))
    else None
  }

  function BranchSignals(op: BranchOp, signed: bool, predicted: bool): CuOutput {
    CuOutput(B, ExControl(Rs1, Rs2, signed, BranchCompare, Add, And, op, NoCall),
             MaControl(NoMem, predicted, false, BranchTransfer), false)
  }

  function ReadBFormat(strategy: Strategy, ir: Word): Option<CuOutput> {
    var funct3, p := Funct3(ir), Predict(strategy, ir);
    if funct3 == 0 then Some(BranchSignals(Equal, false, p))
    else if funct3 == 1 then Some(BranchSignals(NotEqual, false, p))
    else if funct3 == 4 then Some(BranchSignals(Less, true, p))
    else if funct3 == 5 then Some(BranchSignals(GreaterEqual, true, p))
    else if funct3 == 6 then Some(BranchSignals(Less, false, p))
    else if funct3 == 7 then Some(BranchSignals(GreaterEqual, false, p))
    else None
  }

  function UpperSignals(op: LogicOp): CuOutput {
    CuOutput(U, ExControl(Pc, Imm, false, Logic, Add, op, Equal, NoCall), IDLE_MA, true)
  }

  /** None is the source's exit(1). */
  function Decode(strategy: Strategy, ir: Word): Option<CuOutput> {
    var opcode := Opcode(ir);
    if opcode == 0 then Some(BUBBLE)
    else
      match GetFormat(opcode)
      case NoFormat => None
      case R => ReadRFormat(ir)
      case I => ReadIFormat(ir)
      case S => ReadSFormat(ir)
      case B => ReadBFormat(strategy, ir)
      case U => Some(UpperSignals(if opcode == 0x37 then Upper else UpperPlusPc))
      case J => Some(JumpSignals(J, Pc))
  }
}
