/** The five-stage pipeline as functions on a snapshot of the simulator's globals
    (src/pipeline/, src/forwarding/, src/memory/memory.c, src/execution/simulator.c).
    `ins` stands for the display string of a slot: true when the slot holds an instruction. */
module Pipeline {
  import opened Wrappers
  import opened Words
  import opened Alu
  import opened Control
  import opened Dram
  import opened Machine

  datatype IfId = IfId(ir: Word, pc: Word, pcNext: Word, ins: bool)
  datatype IdEx = IdEx(pc: Word, pcNext: Word, nrs1: RegNo, r1: Word, nrs2: RegNo, r2: Word,
                       imm: Word, nrd: RegNo, ex: ExControl, ma: MaControl, wb: bool, ins: bool)
  datatype ExMa = ExMa(pcNext: Word, nrs2: RegNo, r2: Word, result: Word, nrd: RegNo,
                       ma: MaControl, wb: bool, ins: bool)
  datatype MaWb = MaWb(result: Word, nrd: RegNo, wb: bool, ins: bool)

  const EMPTY_IF_ID := IfId(0, 0, 0, false)
  const EMPTY_ID_EX := IdEx(0, 0, 0, 0, 0, 0, 0, 0, IDLE_EX, IDLE_MA, false, false)
  const EMPTY_EX_MA := ExMa(0, 0, 0, 0, 0, IDLE_MA, false, false)
  const EMPTY_MA_WB := MaWb(0, 0, false, false)

  /** A memory port. A counter of -1 means idle; `mfc` is true when COMPLETED. */
  datatype FetchPort = FetchPort(mfc: bool, counter: int, mar: Word, mbr: Word)
  datatype DataPort = DataPort(mfc: bool, readCounter: int, writeCounter: int, mar: Word, mbr: Word)

  const IDLE_FETCH := FetchPort(true, -1, 0, 0)
  const IDLE_DATA := DataPort(true, -1, -1, 0, 0)

  datatype Flags = Flags(flush: bool, forwardingStall: bool, hazardStall: bool, trap: bool, trapCounter: int)
  datatype Stats = Stats(cycle: nat, instructions: nat, exFlushes: nat, idFlushes: nat)

  datatype State = State(
    regs: Registers, ram: Ram, pc: Word,
    ifId: IfId, idEx: IdEx, exMa: ExMa, maWb: MaWb, wbIf: MaWb, recentWb: MaWb,
    changePc: bool, jumpPc: Word,
    fetch: FetchPort, data: DataPort, flags: Flags, stats: Stats)

  /** The latencies that the cache model returns for accesses that start in this cycle. */
  datatype Latency = Latency(fetch: nat, data: nat) {
    predicate Valid() { 1 <= fetch && 1 <= data }
  }

  /** Aborted is the source's exit(1); Paused is ebreak. */
  datatype Outcome = Running(s: State) | Halted(s: State) | Paused | Aborted {
    predicate IsFailure() { !Running? }

    function PropagateFailure(): Outcome
      requires !Running?
    {
      this
    }

    function Extract(): State
      requires Running?
    {
      s
    }
  }

  // ---- memory ports ----

  function CancelFetch(s: State): State { s.(fetch := s.fetch.(counter := -1, mfc := true)) }

  function ReadMemoryI(limits: Limits, ram: Ram, p: FetchPort, latency: nat): Option<FetchPort> {
    var t := if p.counter < 0 then p.(counter := latency - 1, mfc := false) else p;
    if t.counter > 0 then Some(t.(counter := t.counter - 1))
    else if !FetchAllowed(limits, Address(t.mar)) then None
    else Some(t.(mbr := WordAt(ram, Address(t.mar)), mfc := true, counter := -1))
  }

  function ReadMemory(ram: Ram, p: DataPort, op: LoadOp, latency: nat): Option<DataPort> {
    var t := if p.readCounter < 0 then p.(readCounter := latency - 1, mfc := false) else p;
    if t.readCounter > 0 then Some(t.(readCounter := t.readCounter - 1))
    else if !LoadAllowed(ram, Address(t.mar), op) then None
    else Some(t.(mbr := LoadValue(ram, Address(t.mar), op), mfc := true, readCounter := -1))
  }

  function WriteMemory(limits: Limits, ram: Ram, p: DataPort, op: StoreOp, latency: nat): Option<(DataPort, Ram)> {
    var t := if p.writeCounter < 0 then p.(writeCounter := latency - 1, mfc := false) else p;
    if t.writeCounter > 0 then Some((t.(writeCounter := t.writeCounter - 1), ram))
    else if !StoreAllowed(limits, ram, Address(t.mar), op) then None
    else Some((t.(mfc := true, writeCounter := -1), StoreValue(ram, Address(t.mar), t.mbr, op)))
  }

  // ---- forwarding ----

  predicate Provides(wb: bool, nrd: RegNo, n: RegNo) { wb && n == nrd && nrd != 0 }

  /** None is FORWARDING_STALL. */
  function ForwardEx(s: State, original: Word, n: RegNo): Option<Word> {
    if Provides(s.exMa.wb, s.exMa.nrd, n) then
      if s.exMa.ma.mem.NoMem? then Some(s.exMa.result) else None
    else if Provides(s.maWb.wb, s.maWb.nrd, n) then None
    else if Provides(s.wbIf.wb, s.wbIf.nrd, n) then Some(s.wbIf.result)
    else Some(original)
  }

  function ForwardMa(s: State, original: Word, n: RegNo): Word {
    if Provides(s.maWb.wb, s.maWb.nrd, n) then s.maWb.result
    else if Provides(s.recentWb.wb, s.recentWb.nrd, n) then s.recentWb.result
    else original
  }

  // ---- stages ----

  function WbStage(s: State): State {
    s.(regs := WriteBack(s.regs, s.maWb.wb, s.maWb.nrd, s.maWb.result),
       recentWb := s.wbIf, wbIf := s.maWb,
       stats := if s.maWb.ins then s.stats.(instructions := s.stats.instructions + 1) else s.stats)
  }

  /** Pass the EX/MA slot on to MA/WB. */
  function ToWriteBack(s: State, result: Word): State {
    s.(maWb := MaWb(result, s.exMa.nrd, s.exMa.wb, s.exMa.ins))
  }

  function ResolveTransfer(s: State): State {
    match s.exMa.ma.transfer
    case JumpTransfer => s.(pc := s.exMa.pcNext, flags := s.flags.(flush := true))
    case BranchTransfer =>
      if s.exMa.ma.actual == s.exMa.ma.predicted then s
      else if s.exMa.ma.actual then s.(pc := s.exMa.pcNext, flags := s.flags.(flush := true))
      else s.(pc := s.exMa.result, flags := s.flags.(flush := true))
    case NoTransfer => s
  }

  function MaStage(cfg: Config, s: State, latency: nat): Outcome {
    match s.exMa.ma.mem
    case NoMem => Running(ToWriteBack(ResolveTransfer(s), s.exMa.result))
    case Read(op) =>
      (match ReadMemory(s.ram, s.data.(mar := s.exMa.result), op, latency)
       case None => Aborted
       case Some(d) => Running(ToWriteBack(s.(data := d), d.mbr)))
    case Write(op) =>
      var data := ForwardMa(s, s.exMa.r2, s.exMa.nrs2);
      match WriteMemory(cfg.limits, s.ram, s.data.(mbr := data, mar := s.exMa.result), op, latency)
      case None => Aborted
      case Some(w) => Running(ToWriteBack(s.(data := w.0, ram := w.1), s.exMa.result))
  }

  /** The value used for an operand whose forwarding stalled; its slot is discarded. */
  function OrZero(v: Option<Word>): Word { if v.Some? then v.value else 0 }

  predicate IsStore(ma: MaControl) { ma.mem.Write? }

  predicate NeedsStall(s: State) {
    var i := s.idEx;
    || (i.ex.source1.Rs1? && ForwardEx(s, i.r1, i.nrs1).None?)
    || (i.ex.source2.Rs2? && ForwardEx(s, i.r2, i.nrs2).None?)
    || (IsStore(i.ma) && ForwardEx(s, i.r2, i.nrs2).None?)
  }

  function ExStage(s: State): Outcome {
    var i := s.idEx;
    match i.ex.system
    case Breakpoint => Paused
    case Ecall => Running(s.(flags := s.flags.(trap := true), exMa := s.exMa.(ins := i.ins)))
    case NoCall =>
      var v1, v2 := OrZero(ForwardEx(s, i.r1, i.nrs1)), OrZero(ForwardEx(s, i.r2, i.nrs2));
      var x := Execute(i.ex, i.pc, i.pcNext, v1, v2, i.imm);
      Running(s.(
        flags := s.flags.(forwardingStall := s.flags.forwardingStall || NeedsStall(s)),
        exMa := ExMa(x.target, i.nrs2, if IsStore(i.ma) then v2 else i.r2, x.result, i.nrd,
                     i.ma.(actual := i.ma.actual || x.taken), i.wb, i.ins)))
  }

  function UpdateOperands(s: State): State {
    s.(idEx := s.idEx.(r1 := s.regs[s.idEx.nrs1], r2 := s.regs[s.idEx.nrs2]))
  }

  /** The decoded instruction reads a register that the given slot will write. */
  predicate Depends(i: IdEx, wb: bool, nrd: RegNo) {
    wb && (|| (i.ex.source1.Rs1? && nrd == i.nrs1 && i.nrs1 != 0)
           || (i.ex.source2.Rs2? && nrd == i.nrs2 && i.nrs2 != 0)
           || (IsStore(i.ma) && nrd == i.nrs2 && i.nrs2 != 0))
  }

  predicate HazardStall(s: State) {
    || Depends(s.idEx, s.exMa.wb, s.exMa.nrd)
    || Depends(s.idEx, s.maWb.wb, s.maWb.nrd)
    || Depends(s.idEx, s.wbIf.wb, s.wbIf.nrd)
  }

  function DecodedSlot(c: CuOutput, i: IfId, regs: Registers): IdEx {
    var nrs1, nrs2 := Rs1Of(i.ir), Rs2Of(i.ir);
    IdEx(i.pc, i.pcNext, nrs1, regs[nrs1], nrs2, regs[nrs2], GenerateImmediate(c.format, i.ir),
         Rd(i.ir), c.ex, c.ma, c.wb, i.ins)
  }

  function BranchTarget(pc: Word, ir: Word): Word {
    ArithmeticUnit(pc, GenerateImmediate(Format.B, ir), Add)
  }

  predicate PredictedTaken(c: CuOutput) {
    c.ma.predicted && c.ex.typ.BranchCompare? && c.ma.transfer.BranchTransfer?
  }

  function IdStage(cfg: Config, s: State): Outcome {
    if s.changePc then
      Running(CancelFetch(s).(pc := s.jumpPc, flags := s.flags.(flush := true), jumpPc := 0, changePc := false))
    else
      match Decode(cfg.strategy, s.ifId.ir)
      case None => Aborted
      case Some(c) =>
        var t := s.(idEx := DecodedSlot(c, s.ifId, s.regs));
        if !cfg.forwarding && HazardStall(t) then Running(t.(flags := t.flags.(hazardStall := true)))
        else if PredictedTaken(c) then
          Running(t.(changePc := true, jumpPc := BranchTarget(s.ifId.pc, s.ifId.ir)))
        else Running(t)
  }

  function IfStage(cfg: Config, s: State, latency: nat): Outcome {
    match ReadMemoryI(cfg.limits, s.ram, if s.fetch.mfc then s.fetch.(mar := s.pc) else s.fetch, latency)
    case None => Aborted
    case Some(f) =>
      Running(if f.mfc then s.(fetch := f, ifId := IfId(f.mbr, s.pc, Following(s.pc), true), pc := Following(s.pc))
              else s.(fetch := f, ifId := EMPTY_IF_ID))
  }

  // ---- one cycle ----

  function FlushFromMa(s: State): State {
    CancelFetch(s).(exMa := EMPTY_EX_MA, idEx := EMPTY_ID_EX, ifId := EMPTY_IF_ID,
                    changePc := false, jumpPc := 0,
                    stats := s.stats.(exFlushes := s.stats.exFlushes + 1), flags := s.flags.(flush := false))
  }

  function FlushFromId(s: State): State {
    CancelFetch(s).(idEx := EMPTY_ID_EX, ifId := EMPTY_IF_ID,
                    stats := s.stats.(idFlushes := s.stats.idFlushes + 1), flags := s.flags.(flush := false))
  }

  function ClearHazard(s: State): State { s.(flags := s.flags.(hazardStall := false)) }

  function Tick(s: State): State { s.(stats := s.stats.(cycle := s.stats.cycle + 1)) }

  /** The ID and IF stages. A state with `hazardStall` set reports an interlock stall, which skips IF. */
  function FrontEnd(cfg: Config, s: State, latency: nat): Outcome {
    var d :- IdStage(cfg, s);
    if d.flags.hazardStall then Running(d.(idEx := EMPTY_ID_EX))
    else
      var f :- IfStage(cfg, if d.flags.flush then FlushFromId(d) else d, latency);
      Running(if f.fetch.mfc then f else f.(ifId := EMPTY_IF_ID))
  }

  const SYSTEM_HALT_CODE: Word := 0

  /** The cycle in which a pending ecall may complete: it waits for a fetch to complete. */
  function FinishTrap(s: State): Outcome {
    if s.flags.hazardStall then Running(ClearHazard(Tick(s)))
    else if !s.fetch.mfc then Running(Tick(s))
    else
      var t := Tick(s).(flags := s.flags.(trapCounter := s.flags.trapCounter - 1, trap := false));
      if s.regs[17] == SYSTEM_HALT_CODE then Halted(t) else Running(t)
  }

  /** EX, ID and IF, once MA has completed and its flush has been applied. */
  function AfterMa(cfg: Config, s: State, latency: nat): Outcome {
    var e :- ExStage(s);
    if e.flags.trap then
      if e.flags.trapCounter == 0 then
        var f :- FrontEnd(cfg, e, latency);
        FinishTrap(f)
      else
        Running(Tick(e).(exMa := EMPTY_EX_MA, flags := e.flags.(trapCounter := 0, trap := false)))
    else if e.flags.forwardingStall then
      Running(Tick(UpdateOperands(e.(exMa := EMPTY_EX_MA, flags := e.flags.(forwardingStall := false)))))
    else
      var f :- FrontEnd(cfg, e, latency);
      Running(ClearHazard(Tick(f)))
  }

  function Cycle(cfg: Config, s: State, latency: Latency): Outcome {
    var m :- MaStage(cfg, WbStage(s), latency.data);
    if !m.data.mfc then Running(Tick(UpdateOperands(m.(maWb := EMPTY_MA_WB))))
    else AfterMa(cfg, if m.flags.flush then FlushFromMa(m) else m, latency.fetch)
  }

  /** The simulator's state when the main loop starts. */
  function Initial(a: Arch): State {
    State(a.regs, a.ram, a.pc, EMPTY_IF_ID, EMPTY_ID_EX, EMPTY_EX_MA, EMPTY_MA_WB, EMPTY_MA_WB, EMPTY_MA_WB,
          false, 0, IDLE_FETCH, IDLE_DATA, Flags(false, false, false, false, -1), Stats(0, 0, 0, 0))
  }

  /** The outcome of one cycle per latency, stopping early when the simulator does. */
  function Run(cfg: Config, s: State, latencies: seq<Latency>): Outcome
    decreases |latencies|
  {
    if latencies == [] then Running(s)
    else
      var n := |latencies| - 1;
      var t :- Run(cfg, s, latencies[..n]);
      Cycle(cfg, t, latencies[n])
  }
}
