/** Exactly when a cycle aborts, pauses or halts (src/execution/simulator.c:36-355, src/memory/memory.c:70-312). */
module PipelineOutcome {
  import opened Wrappers
  import opened Words
  import opened Alu
  import opened Control
  import opened Dram
  import opened Machine
  import opened MemoryPorts
  import opened Pipeline
  import opened PipelineInvariant
  import opened PipelineProof
  import opened PipelineRefinement
  import opened PipelineResults

  // ---- data accesses ----

  /** The access of the next instruction is out of its limits or no multiple of its width. */
  predicate AccessFaults(cfg: Config, a: Arch) {
    var addr := Address(CurrentExecuted(cfg, a).result);
    match CurrentSignals(cfg, a).ma.mem
    case NoMem => false
    case Read(op) => !LoadFits(|a.ram|, addr, op)
    case Write(op) => !StoreFits(cfg.limits, |a.ram|, addr, op)
  }

  lemma FaultsAreRefused(cfg: Config, a: Arch)
    ensures AccessFaults(cfg, a) <==> !AccessAllowed(cfg, a)
  {
    hide CurrentExecuted, CurrentSignals, Address;
  }

  /** The data port answers in this cycle. */
  predicate DataEnds(s: State, latency: nat) {
    match s.exMa.ma.mem
    case NoMem => true
    case Read(_) => if s.data.readCounter >= 0 then s.data.readCounter == 0 else latency == 1
    case Write(_) => if s.data.writeCounter >= 0 then s.data.writeCounter == 0 else latency == 1
  }

  predicate SlotFaults(limits: Limits, x: ExMa, size: nat) {
    match x.ma.mem
    case NoMem => false
    case Read(op) => !LoadFits(size, Address(x.result), op)
    case Write(op) => !StoreFits(limits, size, Address(x.result), op)
  }

  lemma ReadEnds(ram: Ram, p: DataPort, op: LoadOp, latency: nat)
    requires p.readCounter >= -1 && 1 <= latency && (p.readCounter >= 0 ==> !p.mfc)
    ensures var r := ReadMemory(ram, p, op, latency);
      var ends := if p.readCounter >= 0 then p.readCounter == 0 else latency == 1;
      && (r == None <==> ends && !LoadFits(|ram|, Address(p.mar), op))
      && (r.Some? ==> (r.value.mfc <==> ends))
  {
    hide LoadValue, Address;
  }

  lemma WriteEnds(limits: Limits, ram: Ram, p: DataPort, op: StoreOp, latency: nat)
    requires p.writeCounter >= -1 && 1 <= latency && (p.writeCounter >= 0 ==> !p.mfc)
    ensures var r := WriteMemory(limits, ram, p, op, latency);
      var ends := if p.writeCounter >= 0 then p.writeCounter == 0 else latency == 1;
      && (r == None <==> ends && !StoreFits(limits, |ram|, Address(p.mar), op))
      && (r.Some? ==> (r.value.0.mfc <==> ends))
  {
    hide StoreValue, Address;
  }

  lemma MaEnds(cfg: Config, s: State, latency: nat)
    requires DataState(s.data, s.exMa.ma.mem) && 1 <= latency
    ensures var m := MaStage(cfg, WbStage(s), latency);
      && (m.Running? || m.Aborted?)
      && (m.Aborted? <==> DataEnds(s, latency) && SlotFaults(cfg.limits, s.exMa, |s.ram|))
      && (m.Running? ==> (m.s.data.mfc <==> DataEnds(s, latency)))
  {
    var w := WbStage(s);
    WbFrame(s);
    hide WbStage, WriteBack, ForwardMa, ReadMemory, WriteMemory, ResolveTransfer, Address, LoadFits, StoreFits;
    match s.exMa.ma.mem {
      case NoMem => MaIdle(cfg, w, latency);
      case Read(op) => ReadEnds(w.ram, w.data.(mar := w.exMa.result), op, latency);
      case Write(op) =>
        var data := ForwardMa(w, w.exMa.r2, w.exMa.nrs2);
        WriteEnds(cfg.limits, w.ram, w.data.(mbr := data, mar := w.exMa.result), op, latency);
    }
  }

  /** The slot in EX/MA stands for the sequential instruction's access. */
  lemma SlotAccess(cfg: Config, s: State, a: Arch)
    requires Inv(cfg, s, a)
    ensures SlotFaults(cfg.limits, s.exMa, |s.ram|) <==> s.exMa.ins && AccessFaults(cfg, a)
    ensures DataState(s.data, s.exMa.ma.mem)
  {
    hide YoungerMatch, WriteBack, Address, LoadFits, StoreFits;
    if s.exMa.ins {
      SlotEffect(cfg, s.exMa, a);
      SameAccess(cfg, s.exMa, a);
    }
  }

  lemma SameAccess(cfg: Config, x: ExMa, a: Arch)
    requires ExMaMatches(cfg, x, a) && x.ins
    ensures SlotFaults(cfg.limits, x, |a.ram|) <==> AccessFaults(cfg, a)
  {
    hide Address, LoadFits, StoreFits, CurrentExecuted, WordAt, Decode, FetchAllowed;
    DecodeShape(cfg.strategy, CurrentWord(a));
  }

  /** MA ends the program exactly when the sequential instruction's access faults, in the cycle in
      which the access ends. */
  lemma {:induction false} MaAborts(cfg: Config, s: State, a: Arch, latency: nat)
    requires Inv(cfg, s, a) && 1 <= latency
    ensures var m := MaStage(cfg, WbStage(s), latency);
      && (m.Aborted? <==> s.exMa.ins && AccessFaults(cfg, a) && DataEnds(s, latency))
      && (m.Running? <==> !m.Aborted?)
      && (m.Running? ==> (m.s.data.mfc <==> DataEnds(s, latency)))
  {
    SlotAccess(cfg, s, a);
    MaEnds(cfg, s, latency);
    hide MaStage, WbStage, Inv, SlotFaults, AccessFaults, DataEnds;
  }

  // ---- EX, ID and IF ----

  /** EX pauses exactly at the sequential machine's ebreak. */
  lemma ExPauses(cfg: Config, x: State, b: Arch)
    requires AtEx(cfg, x, b)
    ensures ExStage(x).Running? || ExStage(x).Paused?
    ensures ExStage(x).Paused? <==> x.idEx.ins && CurrentSignals(cfg, b).ex.system.Breakpoint?
    ensures x.idEx.ex.system.Breakpoint? <==> ExStage(x).Paused?
  {
    ExFrame(x);
    hide WordAt, Decode, Address, Following, RegisterField, GenerateImmediate, Execute, ForwardEx, NeedsStall,
         WriteBack, FrontMatches, Step, CurrentExecuted;
  }

  /** The cycle goes on to ID and IF: an ecall has been held back once, nothing waits for a load. */
  predicate FrontRuns(x: State) {
    if x.flags.trap || x.idEx.ex.system.Ecall? then x.flags.trapCounter == 0
    else x.idEx.ex.system.NoCall? && !NeedsStall(x)
  }

  /** ID meets a word that it cannot decode, or a fetch ends that is out of the text or unaligned. */
  predicate FrontFaults(cfg: Config, e: State, latency: nat) {
    if e.changePc then latency == 1 && !FetchFits(cfg.limits, Address(e.jumpPc))
    else
      || Decode(cfg.strategy, e.ifId.ir).None?
      || (!IdWaits(cfg, e) && FetchEnds(e, latency) && !FetchFits(cfg.limits, Address(e.pc)))
  }

  lemma IfAborts(cfg: Config, d: State, latency: nat)
    requires 1 <= latency && d.fetch.counter >= -1 && (d.fetch.mfc <==> d.fetch.counter == -1)
    requires !d.fetch.mfc ==> d.fetch.mar == d.pc
    ensures var f := IfStage(cfg, d, latency);
      && (f.Running? || f.Aborted?)
      && (f.Aborted? <==> (if d.fetch.mfc then latency == 1 else d.fetch.counter == 0)
                          && !FetchFits(cfg.limits, Address(d.pc)))
  {
    hide WordAt, Address, Following;
  }

  lemma IdAborts(cfg: Config, e: State)
    requires FetchState(e) && QuietFlags(e)
    ensures var d := IdStage(cfg, e);
      && (d.Running? || d.Aborted?)
      && (d.Aborted? <==> !e.changePc && Decode(cfg.strategy, e.ifId.ir).None?)
      && (d.Running? ==>
            && (d.s.flags.hazardStall <==> IdWaits(cfg, e)) && (d.s.flags.flush <==> e.changePc)
            && d.s.pc == (if e.changePc then e.jumpPc else e.pc)
            && d.s.fetch == if e.changePc then CancelFetch(e).fetch else e.fetch)
  {
    IdEnds(cfg, e);
    hide Decode, DecodedSlot, HazardStall, BranchTarget, PredictedTaken, IdWaits;
  }

  lemma FrontAborts(cfg: Config, e: State, latency: nat)
    requires FetchState(e) && QuietFlags(e) && 1 <= latency
    ensures FrontEnd(cfg, e, latency).Aborted? <==> FrontFaults(cfg, e, latency)
  {
    hide IdStage, IfStage, IdWaits, Decode, Address, FetchFits;
    IdAborts(cfg, e);
    var d := IdStage(cfg, e);
    if d.Running? {
      WaitsDecoded(cfg, e);
      IfAborts(cfg, ForIf(d.s), latency);
    }
  }

  lemma WaitsDecoded(cfg: Config, e: State)
    ensures IdWaits(cfg, e) ==> !e.changePc && Decode(cfg.strategy, e.ifId.ir).Some?
  {
    hide Decode, HazardStall, DecodedSlot;
  }

  /** An ecall in its second EX cycle, or a pending one, halts. */
  predicate Halts(cfg: Config, x: State, e: State, latency: nat) {
    && (x.flags.trap || x.idEx.ex.system.Ecall?) && x.flags.trapCounter == 0
    && !FrontFaults(cfg, e, latency) && !IdWaits(cfg, e) && FetchEnds(e, latency) && x.regs[17] == SYSTEM_HALT_CODE
  }

  /** What EX does to the flags that decide how the cycle goes on. */
  lemma ExFlags(cfg: Config, x: State, b: Arch)
    requires AtEx(cfg, x, b) && ExStage(x).Running?
    ensures var e := ExStage(x).s;
      && (e.flags.trap <==> x.flags.trap || x.idEx.ex.system.Ecall?) && e.flags.trapCounter == x.flags.trapCounter
      && (!e.flags.trap ==> (e.flags.forwardingStall <==> NeedsStall(x)))
      && (e.flags.trap ==> !e.flags.forwardingStall)
      && FetchState(e) && e.regs == x.regs && !e.flags.flush && !e.flags.hazardStall && !x.idEx.ex.system.Breakpoint?
  {
    ExKeeps(x);
    if x.idEx.ex.system.NoCall? { ExSlot(x); }
    if ExStage(x).s.flags.trap { NoStallWhilePending(cfg, x, b); }
    hide ExStage, YoungerMatch, WriteBack, NeedsStall, HistoryMatches, OperandCurrent;
  }

  lemma AfterMaOutcome(cfg: Config, x: State, b: Arch, latency: nat)
    requires AtEx(cfg, x, b) && 1 <= latency
    ensures var t := AfterMa(cfg, x, latency);
      && (t.Paused? <==> ExStage(x).Paused?)
      && (t.Aborted? <==> ExStage(x).Running? && FrontRuns(x) && FrontFaults(cfg, ExStage(x).s, latency))
      && (t.Halted? <==> ExStage(x).Running? && Halts(cfg, x, ExStage(x).s, latency))
  {
    ExPauses(cfg, x, b);
    if ExStage(x).Running? {
      ExFlags(cfg, x, b);
      RunningOutcome(cfg, x, latency);
    } else {
      PausedOutcome(cfg, x, latency);
    }
    hide ExStage, AfterMa, AtEx, FrontRuns, FrontFaults, Halts;
  }

  lemma PausedOutcome(cfg: Config, x: State, latency: nat)
    requires ExStage(x).Paused?
    ensures AfterMa(cfg, x, latency).Paused?
  {
    hide ExStage;
  }

  /** What a finishing trap comes to. */
  lemma FinishOutcome(f: State)
    ensures var t := FinishTrap(f);
      && (t.Running? || t.Halted?)
      && (t.Halted? <==> !f.flags.hazardStall && f.fetch.mfc && f.regs[17] == SYSTEM_HALT_CODE)
  {
  }

  lemma RunningOutcome(cfg: Config, x: State, latency: nat)
    requires ExStage(x).Running? && 1 <= latency && !x.idEx.ex.system.Breakpoint?
    requires var e := ExStage(x).s;
      && (e.flags.trap <==> x.flags.trap || x.idEx.ex.system.Ecall?) && e.flags.trapCounter == x.flags.trapCounter
      && (!e.flags.trap ==> (e.flags.forwardingStall <==> NeedsStall(x))) && (e.flags.trap ==> !e.flags.forwardingStall)
      && FetchState(e) && e.regs == x.regs && !e.flags.flush && !e.flags.hazardStall
    ensures var t := AfterMa(cfg, x, latency);
      && !t.Paused?
      && (t.Aborted? <==> FrontRuns(x) && FrontFaults(cfg, ExStage(x).s, latency))
      && (t.Halted? <==> Halts(cfg, x, ExStage(x).s, latency))
  {
    hide ExStage, FrontEnd, FinishTrap, FrontFaults, NeedsStall, IdWaits, FetchEnds;
    var e := ExStage(x).s;
    if e.flags.forwardingStall || (e.flags.trap && e.flags.trapCounter != 0) {
      StallOrHold(cfg, x, latency);
    } else {
      FrontAborts(cfg, e, latency);
      FrontEndEnds(cfg, e, latency);
      FrontEndOutcome(cfg, e, latency);
      FrontEndFrame(cfg, e, latency);
      var f := FrontEnd(cfg, e, latency);
      if f.Running? { FinishOutcome(f.s); }
    }
  }

  lemma StallOrHold(cfg: Config, x: State, latency: nat)
    requires ExStage(x).Running?
    requires var e := ExStage(x).s;
      (!e.flags.trap && e.flags.forwardingStall) || (e.flags.trap && e.flags.trapCounter != 0)
    ensures AfterMa(cfg, x, latency).Running?
  {
    hide ExStage, FrontEnd, FinishTrap;
  }

  // ---- cycles ----

  ghost predicate MaFaults(cfg: Config, s: State, a: Arch, latency: Latency) {
    s.exMa.ins && AccessFaults(cfg, a) && DataEnds(s, latency.data)
  }

  /** The state in which EX runs, when MA completes in this cycle. */
  function AtExOf(cfg: Config, s: State, latency: Latency): Option<State> {
    match MaStage(cfg, WbStage(s), latency.data)
    case Running(m) => if m.data.mfc then Some(ForEx(m)) else None
    case _ => None
  }

  predicate LaterFaults(cfg: Config, s: State, latency: Latency) {
    match AtExOf(cfg, s, latency)
    case Some(x) => ExStage(x).Running? && FrontRuns(x) && FrontFaults(cfg, ExStage(x).s, latency.fetch)
    case None => false
  }

  /** A cycle aborts exactly on a fault of the sequential instruction's access or of decoding or
      fetching; it pauses exactly at the sequential machine's ebreak; it halts exactly at an ecall that
      nothing delays and whose a7 holds the halt code. */
  lemma {:induction false} CycleOutcome(cfg: Config, s: State, a: Arch, latency: Latency)
    requires Inv(cfg, s, a) && latency.Valid()
    ensures var t, x, b := Cycle(cfg, s, latency), AtExOf(cfg, s, latency), After(cfg, s.exMa.ins, a);
      && (t.Aborted? <==> MaFaults(cfg, s, a, latency) || LaterFaults(cfg, s, latency))
      && (t.Paused? <==> x.Some? && x.value.idEx.ins && CurrentSignals(cfg, b).ex.system.Breakpoint?)
      && (t.Halted? <==> x.Some? && ExStage(x.value).Running? && Halts(cfg, x.value, ExStage(x.value).s, latency.fetch))
  {
    hide MaStage, WbStage, ExStage, AfterMa, AtEx, Inv, FrontRuns, FrontFaults, Halts, AccessFaults, DataEnds, MaResult,
         CurrentSignals;
    MaAborts(cfg, s, a, latency.data);
    MaStageCorrect(cfg, s, a, latency.data) by { Older(cfg, s, a); }
    var r := MaStage(cfg, WbStage(s), latency.data);
    if r.Running? && r.s.data.mfc {
      var b := After(cfg, s.exMa.ins, a);
      if r.s.flags.flush { FlushReachesEx(cfg, s, r.s, a); } else { NoFlushReachesEx(cfg, s, r.s, a); }
      AfterMaOutcome(cfg, ForEx(r.s), b, latency.fetch);
      ExPauses(cfg, ForEx(r.s), b);
    }
  }

  lemma Older(cfg: Config, s: State, a: Arch)
    requires Inv(cfg, s, a)
    ensures OlderMatch(cfg, s, a)
  {
    hide OlderMatch;
  }

  /** A run that aborts does so in a cycle in which the access of the next sequential instruction
      faults, or decoding or fetching does. */
  lemma {:induction false} RunAborts(cfg: Config, a: Arch, latencies: seq<Latency>) returns (k: nat)
    requires WordAlignedText(cfg.limits) && a.regs[0] == 0 && ValidLatencies(latencies)
    requires Run(cfg, Initial(a), latencies).Aborted?
    ensures k < |latencies| && Run(cfg, Initial(a), latencies[..k]).Running?
    ensures var t, n := Run(cfg, Initial(a), latencies[..k]).s, |Log(cfg, Initial(a), latencies[..k])|;
      MaFaults(cfg, t, Steps(cfg, a, n), latencies[k]) || LaterFaults(cfg, t, latencies[k])
    decreases |latencies|
  {
    hide Cycle, Inv, MaFaults, LaterFaults, Commits, Step, CommitOf, Halts;
    var m := |latencies| - 1;
    var prefix := latencies[..m];
    var r := Run(cfg, Initial(a), prefix);
    if r.Running? {
      k := m;
      Refinement(cfg, a, prefix);
      CycleOutcome(cfg, r.s, Steps(cfg, a, |Log(cfg, Initial(a), prefix)|), latencies[m]);
    } else {
      k := RunAborts(cfg, a, prefix);
      assert prefix[..k] == latencies[..k];
    }
  }

  /** So while the sequential machine's accesses keep to their limits, a run ends in exit(1) only for a
      word that ID cannot decode or a fetch that is out of the text or unaligned. */
  lemma {:induction false} AllowedAccessesNeverAbort(cfg: Config, a: Arch, latencies: seq<Latency>) returns (k: nat)
    requires WordAlignedText(cfg.limits) && a.regs[0] == 0 && ValidLatencies(latencies)
    requires forall n: nat | n <= |latencies| :: !AccessFaults(cfg, Steps(cfg, a, n))
    requires Run(cfg, Initial(a), latencies).Aborted?
    ensures k < |latencies| && Run(cfg, Initial(a), latencies[..k]).Running?
    ensures LaterFaults(cfg, Run(cfg, Initial(a), latencies[..k]).s, latencies[k])
  {
    k := RunAborts(cfg, a, latencies);
    hide Run, LaterFaults, AccessFaults, Steps;
  }
}
