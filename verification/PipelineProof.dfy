/** One cycle keeps the invariant: the pipeline either stays at its position in the sequential
    execution or commits exactly one instruction. */
module PipelineProof {
  import opened Wrappers
  import opened Words
  import opened Alu
  import opened Control
  import opened Dram
  import opened Machine
  import opened Pipeline
  import opened PipelineInvariant

  /** The state in which EX runs: MA has completed and its flush has been applied.
      `a` is the sequential state just before the instruction in ID/EX. */
  ghost predicate AtEx(cfg: Config, s: State, a: Arch) {
    && FetchState(s) && Idle(s.data) && QuietFlags(s)
    && HistoryMatches(s) && TrapState(s) && (!s.exMa.ins ==> Inert(s.exMa))
    && a.regs == WriteBack(s.regs, s.maWb.wb, s.maWb.nrd, s.maWb.result)
    && a.ram == s.ram
    && YoungerMatch(cfg, s, a)
    && (s.idEx.ins ==>
          && s.maWb.wb == s.exMa.wb && s.maWb.nrd == s.exMa.nrd
          && (s.exMa.ma.mem.NoMem? ==> s.maWb.result == s.exMa.result))
    && (s.idEx.ex.system.NoCall? ==>
        OperandCurrent(s, s.idEx.nrs1, s.idEx.r1) && OperandCurrent(s, s.idEx.nrs2, s.idEx.r2))
  }

  predicate Idle(d: DataPort) {
    d.mfc && d.readCounter == -1 && d.writeCounter == -1
  }

  /** The operand was read one write-back ago. */
  predicate OperandCurrent(s: State, n: RegNo, r: Word) {
    Provides(s.wbIf.wb, s.wbIf.nrd, n) || r == s.regs[n]
  }

  // ---- operands ----

  /** Without a stall, EX forwarding yields the value of the youngest older writer. */
  lemma ForwardExCorrect(cfg: Config, s: State, a: Arch, n: RegNo, r: Word)
    requires AtEx(cfg, s, a) && s.idEx.ins && OperandCurrent(s, n, r)
    ensures ForwardEx(s, r, n).Some? ==> ForwardEx(s, r, n).value == a.regs[n]
  {
  }

  /** The store data that MA forwards, on every retry of a store, is the value EX captured. */
  lemma ForwardMaCorrect(cfg: Config, s: State, a: Arch)
    requires OlderMatch(cfg, s, a) && IsStore(s.exMa.ma)
    ensures ForwardMa(WbStage(s), s.exMa.r2, s.exMa.nrs2) == a.regs[s.exMa.nrs2] == s.exMa.r2
  {
    DecodeShape(cfg.strategy, CurrentWord(a));
  }

  // ---- WB and MA ----

  lemma WbFacts(cfg: Config, s: State, a: Arch)
    requires OlderMatch(cfg, s, a) && FreshOperands(s)
    ensures var w := WbStage(s); w.regs == a.regs && HistoryMatches(w)
    ensures var w := WbStage(s); s.idEx.ex.system.NoCall? ==>
      OperandCurrent(w, s.idEx.nrs1, s.idEx.r1) && OperandCurrent(w, s.idEx.nrs2, s.idEx.r2)
  {
  }

  /** What a completing MA stage leaves behind, before any flush. */
  ghost predicate MaDone(cfg: Config, s: State, m: State, a: Arch, next: Arch) {
    && Idle(m.data)
    && next.regs == WriteBack(a.regs, m.maWb.wb, m.maWb.nrd, m.maWb.result)
    && next.ram == m.ram
    && m.maWb.wb == s.exMa.wb && m.maWb.nrd == s.exMa.nrd && m.maWb.ins == s.exMa.ins
    && (s.exMa.ma.mem.NoMem? ==> m.maWb.result == s.exMa.result)
    && (s.exMa.ins ==> AccessAllowed(cfg, a))
    && m.flags.flush == Redirects(s.exMa)
    && m.pc == (if m.flags.flush then next.pc else s.pc)
  }

  /** The commit of an instruction, read off its EX/MA slot. */
  predicate SlotCommit(x: ExMa, c: Commit, value: Word) {
    && c.reg == (if x.wb then Some(RegWrite(x.nrd, value)) else None)
    && c.mem == (match x.ma.mem case Write(op) => Some(MemWrite(op, x.result, x.r2)) case _ => None)
  }

  /** The value that the EX/MA slot writes back. */
  function SlotValue(x: ExMa, ram: Ram): Word {
    match x.ma.mem
    case Read(op) => LoadValue(ram, Address(x.result), op)
    case _ => x.result
  }

  predicate SlotAllowed(limits: Limits, x: ExMa, ram: Ram) {
    match x.ma.mem
    case NoMem => true
    case Read(op) => LoadAllowed(ram, Address(x.result), op)
    case Write(op) => StoreAllowed(limits, ram, Address(x.result), op)
  }

  lemma SlotEffect(cfg: Config, x: ExMa, a: Arch)
    requires ExMaMatches(cfg, x, a) && x.ins
    ensures SlotCommit(x, CurrentCommit(cfg, a), SlotValue(x, a.ram))
    ensures AccessAllowed(cfg, a) <==> SlotAllowed(cfg.limits, x, a.ram)
    ensures x.ma.mem.Write? ==> !x.wb
    ensures !x.ma.mem.NoMem? ==> x.ma.transfer.NoTransfer?
  {
    DecodeShape(cfg.strategy, CurrentWord(a));
  }

  /** Where the sequential machine goes next, read off the EX/MA slot. */
  lemma SlotNextPc(cfg: Config, x: ExMa, a: Arch)
    requires ExMaMatches(cfg, x, a) && x.ins && Redirects(x)
    ensures Step(cfg, a).pc ==
      if x.ma.transfer.JumpTransfer? || x.ma.actual then x.pcNext else x.result
  {
    DecodeShape(cfg.strategy, CurrentWord(a));
  }

  /** The globals that MA does not touch. */
  predicate OnlyMa(w: State, m: State) {
    m == w.(pc := m.pc, flags := w.flags.(flush := m.flags.flush), maWb := m.maWb, ram := m.ram, data := m.data)
  }

  /** MA either waits, or completes the instruction of `a` exactly. */
  ghost predicate MaResult(cfg: Config, s: State, m: State, a: Arch) {
    && OnlyMa(WbStage(s), m)
    && (if m.data.mfc then MaDone(cfg, s, m, a, After(cfg, s.exMa.ins, a))
        else
          && !s.exMa.ma.mem.NoMem? && DataState(m.data, s.exMa.ma.mem)
          && m.ram == s.ram && m.pc == s.pc && !m.flags.flush)
  }

  lemma MaStageCorrect(cfg: Config, s: State, a: Arch, latency: nat)
    requires OlderMatch(cfg, s, a) && 1 <= latency
    ensures var m := MaStage(cfg, WbStage(s), latency);
      m.Aborted? || (m.Running? && MaResult(cfg, s, m.s, a))
  {
    match s.exMa.ma.mem
    case NoMem => MaWithoutAccess(cfg, s, a, latency);
    case Read(op) => MaRead(cfg, s, a, latency, op);
    case Write(op) => MaWrite(cfg, s, a, latency, op);
  }

  /** MA without a memory access, on the slot it finds. */
  lemma MaIdle(cfg: Config, w: State, latency: nat)
    requires w.exMa.ma.mem.NoMem?
    ensures var x := w.exMa; MaStage(cfg, w, latency) == Running(w.(
      pc := if Redirects(x) then (if x.ma.transfer.JumpTransfer? || x.ma.actual then x.pcNext else x.result) else w.pc,
      flags := w.flags.(flush := w.flags.flush || Redirects(x)),
      maWb := MaWb(x.result, x.nrd, x.wb, x.ins)))
  {
  }

  /** WB changes the registers, its own history and the statistics. */
  lemma WbFrame(s: State)
    ensures var w := WbStage(s);
      w == s.(regs := w.regs, recentWb := s.wbIf, wbIf := s.maWb, stats := w.stats)
      && w.regs == WriteBack(s.regs, s.maWb.wb, s.maWb.nrd, s.maWb.result)
  {
  }

  lemma MaWithoutAccess(cfg: Config, s: State, a: Arch, latency: nat)
    requires OlderMatch(cfg, s, a) && s.exMa.ma.mem.NoMem?
    ensures var m := MaStage(cfg, WbStage(s), latency);
      m.Running? && MaResult(cfg, s, m.s, a)
  {
    hide Address, Following, WordAt, Decode, GenerateImmediate, LoadValue, StoreValue, LoadAllowed, StoreAllowed,
         RegisterField, MaStage, WbStage, CurrentSignals, CurrentExecuted, CurrentWord, Execute, MaDone;
    WbFrame(s);
    MaIdle(cfg, WbStage(s), latency);
    MaIdleDone(cfg, s, a, MaStage(cfg, WbStage(s), latency).s);
  }

  lemma MaIdleDone(cfg: Config, s: State, a: Arch, m: State)
    requires OlderMatch(cfg, s, a) && s.exMa.ma.mem.NoMem?
    requires var x := s.exMa;
      && m.data == s.data && m.ram == s.ram && m.maWb == MaWb(x.result, x.nrd, x.wb, x.ins)
      && m.flags.flush == Redirects(x)
      && m.pc == if Redirects(x) then (if x.ma.transfer.JumpTransfer? || x.ma.actual then x.pcNext else x.result)
          else s.pc
    ensures m.data.mfc && MaDone(cfg, s, m, a, After(cfg, s.exMa.ins, a))
  {
    hide Address, Following, WordAt, Decode, GenerateImmediate, LoadValue, StoreValue, LoadAllowed, StoreAllowed,
         RegisterField, CurrentSignals, CurrentExecuted, CurrentWord, Execute;
    if s.exMa.ins {
      SlotEffect(cfg, s.exMa, a);
      if Redirects(s.exMa) { SlotNextPc(cfg, s.exMa, a); }
    }
  }

  lemma MaRead(cfg: Config, s: State, a: Arch, latency: nat, op: LoadOp)
    requires OlderMatch(cfg, s, a) && s.exMa.ma.mem == Read(op) && 1 <= latency
    ensures var m := MaStage(cfg, WbStage(s), latency);
      m.Aborted? || (m.Running? && MaResult(cfg, s, m.s, a))
  {
    hide Address, Following, WordAt, Decode, GenerateImmediate, LoadValue, StoreValue, LoadAllowed, StoreAllowed,
         RegisterField;
    SlotEffect(cfg, s.exMa, a);
  }

  lemma MaWrite(cfg: Config, s: State, a: Arch, latency: nat, op: StoreOp)
    requires OlderMatch(cfg, s, a) && s.exMa.ma.mem == Write(op) && 1 <= latency
    ensures var m := MaStage(cfg, WbStage(s), latency);
      m.Aborted? || (m.Running? && MaResult(cfg, s, m.s, a))
  {
    hide Address, Following, WordAt, Decode, GenerateImmediate, LoadValue, StoreValue, LoadAllowed, StoreAllowed,
         RegisterField;
    SlotEffect(cfg, s.exMa, a);
    ForwardMaCorrect(cfg, s, a);
  }

  /** The state EX sees once MA has completed. */
  function ForEx(m: State): State { if m.flags.flush then FlushFromMa(m) else m }

  lemma FlushReachesEx(cfg: Config, s: State, m: State, a: Arch)
    requires Inv(cfg, s, a) && MaResult(cfg, s, m, a) && m.data.mfc && m.flags.flush
    ensures AtEx(cfg, FlushFromMa(m), After(cfg, s.exMa.ins, a))
  {
    hide Address, Following, WordAt, Decode, Step, RegisterField;
    WbFacts(cfg, s, a);
  }

  lemma NoFlushReachesEx(cfg: Config, s: State, m: State, a: Arch)
    requires Inv(cfg, s, a) && MaResult(cfg, s, m, a) && m.data.mfc && !m.flags.flush
    ensures AtEx(cfg, m, After(cfg, s.exMa.ins, a))
  {
    hide Address, Following, WordAt, Decode, Step, RegisterField;
    WbFacts(cfg, s, a);
    var next := After(cfg, s.exMa.ins, a);
    assert next.regs == WriteBack(m.regs, m.maWb.wb, m.maWb.nrd, m.maWb.result) && next.ram == m.ram;
    assert YoungerMatch(cfg, s, next);
    assert m.idEx == s.idEx && m.ifId == s.ifId && m.pc == s.pc && m.changePc == s.changePc && m.jumpPc == s.jumpPc;
    assert YoungerMatch(cfg, m, next);
    assert FetchState(m) && QuietFlags(m) && TrapState(m) && HistoryMatches(m);
  }

  // ---- EX ----

  /** The state after EX, before ID: the slot in ID/EX has been used up. `i` is the next
      instruction to decode when the EX/MA slot does not redirect. */
  ghost predicate AtId(cfg: Config, e: State, a: Arch) {
    && FetchState(e) && Idle(e.data) && QuietFlags(e) && HistoryMatches(e)
    && a.regs == WriteBack(e.regs, e.maWb.wb, e.maWb.nrd, e.maWb.result)
    && a.ram == e.ram
    && ExMaMatches(cfg, e.exMa, a)
    && (!Redirects(e.exMa) ==> FrontMatches(cfg, e, After(cfg, e.exMa.ins, a)))
  }

  /** Only the operands that the sources select matter. */
  lemma ExecuteUses(ex: ExControl, pc: Word, pcNext: Word, v1: Word, v2: Word, u1: Word, u2: Word, imm: Word)
    requires (ex.source1.Rs1? ==> v1 == u1) && (ex.source2.Rs2? ==> v2 == u2)
    ensures Execute(ex, pc, pcNext, v1, v2, imm) == Execute(ex, pc, pcNext, u1, u2, imm)
  {
  }

  /** EX's operands select to what the sequential machine reads. */
  lemma ExOperands(cfg: Config, s: State, a: Arch)
    requires AtEx(cfg, s, a) && s.idEx.ins && s.idEx.ex.system.NoCall? && !NeedsStall(s)
    ensures var i := s.idEx; var v1, v2 := OrZero(ForwardEx(s, i.r1, i.nrs1)), OrZero(ForwardEx(s, i.r2, i.nrs2));
      && (i.ex.source1.Rs1? ==> v1 == a.regs[i.nrs1])
      && (i.ex.source2.Rs2? || IsStore(i.ma) ==> v2 == a.regs[i.nrs2])
  {
    hide YoungerMatch, FetchState, TrapState, HistoryMatches, ForwardEx, WriteBack;
    ForwardExCorrect(cfg, s, a, s.idEx.nrs1, s.idEx.r1);
    ForwardExCorrect(cfg, s, a, s.idEx.nrs2, s.idEx.r2);
  }

  /** The slot that EX fills. */
  lemma ExSlot(s: State)
    requires s.idEx.ex.system.NoCall?
    ensures var i := s.idEx; var e := ExStage(s); var v2 := OrZero(ForwardEx(s, i.r2, i.nrs2));
      var x := Execute(i.ex, i.pc, i.pcNext, OrZero(ForwardEx(s, i.r1, i.nrs1)), v2, i.imm);
      && e.Running? && e.s.flags.forwardingStall == (s.flags.forwardingStall || NeedsStall(s))
      && e.s.exMa == ExMa(x.target, i.nrs2, if IsStore(i.ma) then v2
          else i.r2, x.result, i.nrd, i.ma.(actual := i.ma.actual || x.taken), i.wb, i.ins)
  {
    hide Execute, ForwardEx, NeedsStall;
  }

  /** The ID/EX slot names the current instruction's fields. */
  lemma IdExFields(cfg: Config, i: IdEx, a: Arch)
    requires IdExMatches(cfg, i, a) && i.ins
    ensures var c, ir := CurrentSignals(cfg, a), CurrentWord(a);
      && Fetchable(cfg, a) && i.ex == c.ex && i.ma == c.ma && i.wb == c.wb && i.nrd == Rd(ir) && i.nrs1 == Rs1Of(ir)
          && i.nrs2 == Rs2Of(ir)
      && Shape(c)
      && CurrentExecuted(cfg, a) == Execute(i.ex, i.pc, i.pcNext, a.regs[i.nrs1], a.regs[i.nrs2], i.imm)
  {
    hide Address, Following, WordAt, Decode, RegisterField, Execute, GenerateImmediate;
    assert Shape(CurrentSignals(cfg, a)) by { DecodeShape(cfg.strategy, CurrentWord(a)); }
  }

  /** EX computes exactly what the sequential machine computes. */
  lemma ExComputes(cfg: Config, s: State, a: Arch)
    requires AtEx(cfg, s, a) && s.idEx.ins && s.idEx.ex.system.NoCall? && !NeedsStall(s)
    ensures var e := ExStage(s);
      e.Running? && ExMaMatches(cfg, e.s.exMa, a) && e.s.exMa.ins
      && (Redirects(e.s.exMa) <==> WillRedirect(cfg, a))
  {
    hide Address, Following, WordAt, Decode, RegisterField, Execute, GenerateImmediate, ExStage, ForwardEx,
         CurrentExecuted, CurrentSignals, CurrentWord, FetchState, TrapState, HistoryMatches, WriteBack, FrontMatches,
         NeedsStall, OrZero;
    var i := s.idEx;
    var v1, v2 := OrZero(ForwardEx(s, i.r1, i.nrs1)), OrZero(ForwardEx(s, i.r2, i.nrs2));
    ExOperands(cfg, s, a);
    ExSlot(s);
    IdExFields(cfg, i, a);
    ExecuteUses(i.ex, i.pc, i.pcNext, v1, v2, a.regs[i.nrs1], a.regs[i.nrs2], i.imm);
  }

  lemma ExReachesId(cfg: Config, s: State, a: Arch)
    requires AtEx(cfg, s, a) && ExStage(s).Running? && !ExStage(s).s.flags.forwardingStall
    requires s.idEx.ex.system.NoCall? || s.flags.trapCounter == 0
    ensures AtId(cfg, ExStage(s).s, a)
  {
    hide Address, Following, WordAt, Decode, Step, RegisterField, Execute;
    if s.idEx.ins {
      if s.idEx.ex.system.NoCall? { ExComputes(cfg, s, a); }
      else { assert Shape(CurrentSignals(cfg, a)) by { DecodeShape(cfg.strategy, CurrentWord(a)); } }
    }
  }

  // ---- ID and IF ----

  /** The two instructions ahead of the fetch leave its word alone. */
  lemma AheadKeepsText(cfg: Config, inExMa: bool, inIdEx: bool, a: Arch, pc: nat)
    requires WordAlignedText(cfg.limits) && FetchAllowed(cfg.limits, pc)
    ensures var e := After(cfg, inExMa, a);
      WordAt(After(cfg, inIdEx, e).ram, pc) == WordAt(e.ram, pc) == WordAt(a.ram, pc)
  {
    hide WordAt, FetchAllowed;
    var e := After(cfg, inExMa, a);
    if inExMa { StepKeepsText(cfg, a, pc); }
    if inIdEx { StepKeepsText(cfg, e, pc); }
  }

  /** The state after ID, once a taken prediction has been acted upon: IF/ID has been used up. */
  ghost predicate AtIf(cfg: Config, d: State, a: Arch) {
    && FetchState(d) && Idle(d.data) && QuietFlags(d) && HistoryMatches(d) && FreshOperands(d)
    && a.regs == WriteBack(d.regs, d.maWb.wb, d.maWb.nrd, d.maWb.result)
    && a.ram == d.ram
    && ExMaMatches(cfg, d.exMa, a)
    && (!Redirects(d.exMa) ==> NextFetch(cfg, d, After(cfg, d.exMa.ins, a)))
  }

  /** ID/EX holds the next instruction of `e`, and `pc` or the pending redirect is where its successor is. */
  ghost predicate NextFetch(cfg: Config, d: State, e: Arch) {
    && IdExMatches(cfg, d.idEx, e)
    && (!(d.idEx.ins && WillRedirect(cfg, e)) ==>
          (if d.changePc then d.jumpPc else d.pc) == After(cfg, d.idEx.ins, e).pc)
  }

  /** The instruction port: waiting keeps the port's invariant, and completion delivers its word. */
  lemma FetchPortKeeps(limits: Limits, ram: Ram, p: FetchPort, latency: nat)
    requires p.counter >= -1 && (p.mfc <==> p.counter == -1) && 1 <= latency
    ensures var r := ReadMemoryI(limits, ram, p, latency);
      r.Some? ==>
        && r.value.counter >= -1 && (r.value.mfc <==> r.value.counter == -1) && r.value.mar == p.mar
        && (r.value.mfc ==> FetchAllowed(limits, Address(p.mar)) && r.value.mbr == WordAt(ram, Address(p.mar)))
  {
    hide Address, WordAt, FetchAllowed;
  }

  /** What IF does, whichever path it is on. */
  lemma IfPort(cfg: Config, d: State, latency: nat)
    requires FetchState(d) && 1 <= latency
    ensures var f := IfStage(cfg, d, latency);
      f.Running? ==>
        && f.s == d.(pc := f.s.pc, ifId := f.s.ifId, fetch := f.s.fetch) && FetchState(f.s)
        && (if f.s.fetch.mfc then
              && FetchAllowed(cfg.limits, Address(d.pc)) && f.s.pc == Following(d.pc)
              && f.s.ifId == IfId(WordAt(d.ram, Address(d.pc)), d.pc, Following(d.pc), true)
            else f.s.ifId == EMPTY_IF_ID && f.s.pc == d.pc)
  {
    hide Address, Following, WordAt, FetchAllowed, ReadMemoryI;
    FetchPortKeeps(cfg.limits, d.ram, if d.fetch.mfc then d.fetch.(mar := d.pc) else d.fetch, latency);
  }

  /** A completed fetch delivers the instruction at `pc`. */
  lemma IfDelivers(cfg: Config, d: State, a: Arch, latency: nat)
    requires WordAlignedText(cfg.limits) && AtIf(cfg, d, a) && 1 <= latency
    requires !Redirects(d.exMa)
    ensures var f := IfStage(cfg, d, latency);
      f.Running? ==> YoungerMatch(cfg, f.s, After(cfg, d.exMa.ins, a))
  {
    hide Address, Following, WordAt, FetchAllowed, Decode, Step, RegisterField, CurrentSignals, CurrentExecuted,
         Fetchable, WriteBack, IfStage;
    IfPort(cfg, d, latency);
    if FetchAllowed(cfg.limits, Address(d.pc)) {
      AheadKeepsText(cfg, d.exMa.ins, d.idEx.ins, a, Address(d.pc));
    }
  }

  lemma IfKeeps(cfg: Config, d: State, a: Arch, latency: nat)
    requires WordAlignedText(cfg.limits) && AtIf(cfg, d, a) && 1 <= latency
    ensures var f := IfStage(cfg, d, latency);
      f.Running? ==> CoreInv(cfg, f.s, a)
                     && f.s == d.(pc := f.s.pc, ifId := f.s.ifId, fetch := f.s.fetch)
                     && (!f.s.fetch.mfc ==> f.s.ifId == EMPTY_IF_ID)
  {
    hide Address, Following, WordAt, FetchAllowed, Decode, Step, RegisterField, NextFetch, YoungerMatch, CurrentSignals,
         CurrentExecuted, WriteBack, IfStage, FetchState;
    IfPort(cfg, d, latency);
    if !Redirects(d.exMa) { IfDelivers(cfg, d, a, latency); }
  }

  /** The state that IF starts from, after ID has run without an interlock stall. */
  function ForIf(d: State): State { if d.flags.flush then FlushFromId(d) else d }

  /** A pending taken prediction moves fetch to its target. */
  lemma IdRedirects(cfg: Config, e: State, a: Arch)
    requires AtId(cfg, e, a) && e.changePc
    ensures var d := IdStage(cfg, e);
      d.Running? && AtIf(cfg, FlushFromId(d.s), a)
      && d.s == e.(pc := d.s.pc, fetch := d.s.fetch, jumpPc := 0, changePc := false, flags := e.flags.(flush := true))
  {
    hide Address, Following, WordAt, Decode, Step, RegisterField, CurrentSignals, CurrentExecuted, WriteBack;
    var d := FlushFromId(IdStage(cfg, e).s);
    assert FetchState(d) && Idle(d.data) && QuietFlags(d) && HistoryMatches(d);
    assert FreshOperands(d);
    assert ExMaMatches(cfg, d.exMa, a);
    assert !Redirects(e.exMa) ==> d.pc == After(cfg, e.exMa.ins, a).pc;
    assert !Redirects(e.exMa) ==> NextFetch(cfg, d, After(cfg, d.exMa.ins, a));
  }

  /** When the prediction is right, it names the next instruction. */
  lemma PredictionTarget(cfg: Config, i: Arch)
    requires Fetchable(cfg, i) && !WillRedirect(cfg, i)
    ensures Step(cfg, i).pc ==
      if PredictedTaken(CurrentSignals(cfg, i)) then BranchTarget(i.pc, CurrentWord(i)) else Following(i.pc)
  {
    hide Address, Following, WordAt, Decode, RegisterField, GenerateImmediate, BranchComparator, ArithmeticUnit,
         WriteBack, FetchAllowed;
    DecodeShape(cfg.strategy, CurrentWord(i));
  }

  /** Decoding the right instruction: its slot matches, and fetch will follow the prediction. */
  lemma IdDecodes(cfg: Config, e: State, a: Arch)
    requires WordAlignedText(cfg.limits) && AtId(cfg, e, a) && !e.changePc && !Redirects(e.exMa) && e.ifId.ins
    ensures var d := IdStage(cfg, e);
      d.Running? && !d.s.flags.hazardStall ==> NextFetch(cfg, d.s, After(cfg, e.exMa.ins, a))
  {
    hide Address, Following, WordAt, Decode, RegisterField, GenerateImmediate, WriteBack, FetchAllowed, Step,
         CurrentExecuted, BranchTarget, HazardStall;
    var i := After(cfg, e.exMa.ins, a);
    if Decode(cfg.strategy, e.ifId.ir).Some? {
      if !WillRedirect(cfg, i) { PredictionTarget(cfg, i); }
    }
  }

  /** Decoding a bubble gives a bubble. */
  lemma IdBubble(cfg: Config, e: State)
    requires FetchState(e) && HistoryMatches(e) && !e.changePc && !e.ifId.ins
    ensures var d := IdStage(cfg, e);
      d.Running? && d.s == e.(idEx := EMPTY_ID_EX)
  {
    hide Decode;
    ZeroWordIsBubble(cfg.strategy);
  }

  /** ID decodes into the slot, and sets one of the stall and the redirect. */
  lemma IdCases(cfg: Config, e: State)
    requires !e.changePc
    ensures var d := IdStage(cfg, e);
      d.Running? ==>
        && Decode(cfg.strategy, e.ifId.ir).Some?
        && var slot := DecodedSlot(Decode(cfg.strategy, e.ifId.ir).value, e.ifId, e.regs);
        && d.s == e.(idEx := slot, changePc := d.s.changePc, jumpPc := d.s.jumpPc, flags := d.s.flags)
        && (d.s.flags == e.flags || d.s.flags == e.flags.(hazardStall := true))
        && (d.s.flags.hazardStall && !e.flags.hazardStall ==> !d.s.changePc && d.s.jumpPc == e.jumpPc)
  {
    hide Decode, DecodedSlot, HazardStall, BranchTarget;
  }

  lemma SlotFields(c: CuOutput, i: IfId, regs: Registers)
    ensures var d := DecodedSlot(c, i, regs);
      d.ins == i.ins && d.ex == c.ex && d.r1 == regs[d.nrs1] && d.r2 == regs[d.nrs2]
  {
    hide GenerateImmediate, RegisterField;
  }

  /** What ID does to the slots, whichever path it is on. */
  lemma IdSlots(cfg: Config, e: State)
    requires FetchState(e) && HistoryMatches(e) && QuietFlags(e) && !e.changePc
    ensures var d := IdStage(cfg, e);
      d.Running? ==>
        && d.s == e.(idEx := d.s.idEx, changePc := d.s.changePc, jumpPc := d.s.jumpPc, flags := d.s.flags)
        && d.s.flags == e.flags.(hazardStall := d.s.flags.hazardStall)
        && d.s.idEx.ins == e.ifId.ins && (!d.s.idEx.ins ==> d.s.idEx == EMPTY_ID_EX && !d.s.flags.hazardStall)
        && FreshOperands(d.s)
        && (d.s.flags.hazardStall ==> !d.s.changePc && d.s.jumpPc == e.jumpPc)
  {
    IdCases(cfg, e);
    if !e.ifId.ins { IdBubble(cfg, e); }
    hide Decode, DecodedSlot, IdStage;
    if Decode(cfg.strategy, e.ifId.ir).Some? { SlotFields(Decode(cfg.strategy, e.ifId.ir).value, e.ifId, e.regs); }
  }

  lemma IdReachesIf(cfg: Config, e: State, a: Arch)
    requires WordAlignedText(cfg.limits) && AtId(cfg, e, a)
    ensures var d := IdStage(cfg, e);
      d.Running? && !d.s.flags.hazardStall ==> AtIf(cfg, ForIf(d.s), a)
  {
    hide Decode, GenerateImmediate, RegisterField, BranchTarget, Step, CurrentExecuted, WordAt, Address, Following,
         IdStage, WriteBack;
    if e.changePc {
      IdRedirects(cfg, e, a);
    } else {
      IdSlots(cfg, e);
      if !Redirects(e.exMa) {
        if e.ifId.ins { IdDecodes(cfg, e, a); } else { IdBubble(cfg, e); }
      }
    }
  }

  /** An interlock stall keeps the fetched instruction for later. */
  lemma StallKeeps(cfg: Config, e: State, a: Arch)
    requires AtId(cfg, e, a) && IdStage(cfg, e).Running? && IdStage(cfg, e).s.flags.hazardStall
    ensures CoreInv(cfg, IdStage(cfg, e).s.(idEx := EMPTY_ID_EX), a)
    ensures !e.changePc
  {
    hide Decode, GenerateImmediate, RegisterField, BranchTarget, Step, CurrentExecuted, WordAt, Address, Following,
         WriteBack;
    if e.changePc { IdRedirects(cfg, e, a); assert false; }
    IdSlots(cfg, e);
  }

  /** The front end keeps the invariant and leaves the rest of the machine alone. */
  lemma FrontEndKeeps(cfg: Config, e: State, a: Arch, latency: nat)
    requires WordAlignedText(cfg.limits) && AtId(cfg, e, a) && 1 <= latency
    ensures var f := FrontEnd(cfg, e, latency);
      f.Running? ==>
        && CoreInv(cfg, f.s, a) && f.s.exMa == e.exMa && f.s.maWb == e.maWb && f.s.regs == e.regs
        && f.s.flags == e.flags.(hazardStall := f.s.flags.hazardStall)
        && (f.s.flags.hazardStall ==> !f.s.idEx.ins)
        && (!f.s.flags.hazardStall && !f.s.fetch.mfc ==> !f.s.ifId.ins)
        && (f.s.idEx.ins ==> e.ifId.ins)
  {
    hide Decode, GenerateImmediate, RegisterField, BranchTarget, Step, CurrentExecuted, WordAt, Address, Following,
         WriteBack, IdStage, IfStage, AtIf, CoreInv;
    var d := IdStage(cfg, e);
    if d.Running? {
      if e.changePc { IdRedirects(cfg, e, a); } else { IdSlots(cfg, e); }
      if d.s.flags.hazardStall {
        StallKeeps(cfg, e, a);
      } else {
        IdReachesIf(cfg, e, a);
        IfKeeps(cfg, ForIf(d.s), a, latency);
      }
    }
  }
}
