/** The reference: executing one instruction at a time, in program order. */
module Machine {
  import opened Wrappers
  import opened Words
  import opened Alu
  import opened Control
  import opened Dram

  type Registers = regs: seq<Word> | |regs| == 32 witness seq(32, _ => 0)

  datatype Config = Config(limits: Limits, forwarding: bool, strategy: Strategy)

  /** Architectural state: program counter, registers and memory. */
  datatype Arch = Arch(pc: Word, regs: Registers, ram: Ram)

  function Rd(ir: Word): RegNo { RegisterField(ir, 7) }
  function Rs1Of(ir: Word): RegNo { RegisterField(ir, 15) }
  function Rs2Of(ir: Word): RegNo { RegisterField(ir, 20) }

  /** Register write; register 0 stays 0. */
  function WriteBack(regs: Registers, wb: bool, rd: RegNo, value: Word): Registers {
    if wb then regs[rd := value][0 := 0] else regs
  }

  /** What the execute units produce: the result, the transfer target and whether it is taken. */
  datatype Executed = Executed(result: Word, target: Word, taken: bool)

  function Execute(ex: ExControl, pc: Word, pcNext: Word, v1: Word, v2: Word, imm: Word): Executed {
    var a := if ex.source1.Pc? then pc else v1;
    var b := if ex.source2.Imm? then imm else v2;
    match ex.typ
    case Arithmetic => Executed(ArithmeticUnit(a, b, ex.arith), pcNext, false)
    case Logic => Executed(LogicalUnit(a, b, ex.logic, ex.signed), pcNext, false)
    case LessThan => Executed(LessThanComparator(a, b, ex.signed), pcNext, false)
    case BranchCompare =>
      if ex.branch.Jump? then Executed(pcNext, ArithmeticUnit(a, b, ex.arith), true)
      else Executed(pcNext, ArithmeticUnit(pc, imm, ex.arith), BranchComparator(a, b, ex.branch, ex.signed))
  }

  function CurrentWord(a: Arch): Word { WordAt(a.ram, Address(a.pc)) }

  /** The next instruction can be fetched and decoded. */
  predicate Fetchable(cfg: Config, a: Arch) {
    FetchAllowed(cfg.limits, Address(a.pc)) && Decode(cfg.strategy, CurrentWord(a)).Some?
  }

  function CurrentSignals(cfg: Config, a: Arch): CuOutput {
    match Decode(cfg.strategy, CurrentWord(a))
    case Some(c) => c
    case None => BUBBLE
  }

  function CurrentExecuted(cfg: Config, a: Arch): Executed {
    var c, ir := CurrentSignals(cfg, a), CurrentWord(a);
    Execute(c.ex, a.pc, Following(a.pc), a.regs[Rs1Of(ir)], a.regs[Rs2Of(ir)], GenerateImmediate(c.format, ir))
  }

  /** The memory access, if any, of the next instruction is aligned and inside its segment. */
  predicate AccessAllowed(cfg: Config, a: Arch) {
    var addr := Address(CurrentExecuted(cfg, a).result);
    match CurrentSignals(cfg, a).ma.mem
    case NoMem => true
    case Read(op) => LoadAllowed(a.ram, addr, op)
    case Write(op) => StoreAllowed(cfg.limits, a.ram, addr, op)
  }

  datatype RegWrite = RegWrite(rd: RegNo, value: Word)
  datatype MemWrite = MemWrite(op: StoreOp, addr: Word, data: Word)

  /** The visible effect of one instruction. */
  datatype Commit = Commit(reg: Option<RegWrite>, mem: Option<MemWrite>)

  function ResultValue(cfg: Config, a: Arch): Word {
    var x := CurrentExecuted(cfg, a).result;
    match CurrentSignals(cfg, a).ma.mem
    case Read(op) => LoadValue(a.ram, Address(x), op)
    case _ => x
  }

  function CurrentCommit(cfg: Config, a: Arch): Commit {
    var c, ir := CurrentSignals(cfg, a), CurrentWord(a);
    Commit(
      if c.wb then Some(RegWrite(Rd(ir), ResultValue(cfg, a))) else None,
      match c.ma.mem
      case Write(op) => Some(MemWrite(op, CurrentExecuted(cfg, a).result, a.regs[Rs2Of(ir)]))
      case _ => None)
  }

  function ApplyRegWrite(regs: Registers, w: Option<RegWrite>): Registers {
    match w
    case Some(w) => WriteBack(regs, true, w.rd, w.value)
    case None => regs
  }

  function ApplyMemWrite(limits: Limits, ram: Ram, w: Option<MemWrite>): Ram {
    match w
    case Some(w) =>
      if StoreAllowed(limits, ram, Address(w.addr), w.op) then StoreValue(ram, Address(w.addr), w.data, w.op) else ram
    case None => ram
  }

  function NextPc(cfg: Config, a: Arch): Word {
    var t, x := CurrentSignals(cfg, a).ma.transfer, CurrentExecuted(cfg, a);
    if t.JumpTransfer? || (t.BranchTransfer? && x.taken) then x.target else Following(a.pc)
  }

  /** One instruction. ecall and fence only advance the program counter. */
  function Step(cfg: Config, a: Arch): Arch {
    var c := CurrentCommit(cfg, a);
    Arch(NextPc(cfg, a), ApplyRegWrite(a.regs, c.reg), ApplyMemWrite(cfg.limits, a.ram, c.mem))
  }

  function Steps(cfg: Config, a: Arch, n: nat): Arch {
    if n == 0 then a else Step(cfg, Steps(cfg, a, n - 1))
  }

  /** The effects of the first n instructions, in program order. */
  function Trace(cfg: Config, a: Arch, n: nat): (t: seq<Commit>)
    ensures |t| == n
  {
    if n == 0 then [] else Trace(cfg, a, n - 1) + [CurrentCommit(cfg, Steps(cfg, a, n - 1))]
  }

  /** The first n instructions can be fetched and decoded, and their accesses are allowed. */
  predicate Legal(cfg: Config, a: Arch, n: nat) {
    forall i :: 0 <= i < n ==>
      Fetchable(cfg, Steps(cfg, a, i)) && AccessAllowed(cfg, Steps(cfg, a, i))
  }

  lemma StepKeepsText(cfg: Config, a: Arch, pc: nat)
    requires WordAlignedText(cfg.limits) && FetchAllowed(cfg.limits, pc)
    ensures WordAt(Step(cfg, a).ram, pc) == WordAt(a.ram, pc)
  {
    match CurrentCommit(cfg, a).mem
    case None =>
    case Some(w) =>
      if StoreAllowed(cfg.limits, a.ram, Address(w.addr), w.op) {
        StoreKeepsText(cfg.limits, a.ram, Address(w.addr), w.data, w.op, pc);
      }
  }
}
