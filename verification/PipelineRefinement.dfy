/** The pipeline refines the one-instruction-at-a-time machine: every run commits a prefix of the
    sequential trace, whatever the latencies, the forwarding switch and the predictor. */
module PipelineRefinement {
  import opened Wrappers
  import opened Words
  import opened Control
  import opened Dram
  import opened Machine
  import opened Pipeline
  import opened PipelineInvariant
  import opened PipelineProof

  // ---- one cycle ----

  /** The core of the invariant does not depend on statistics, the interlock flag or the ecall flags. */
  lemma CoreFrame(cfg: Config, s: State, t: State, a: Arch)
    requires CoreInv(cfg, s, a) && t == s.(stats := t.stats, flags := t.flags)
    requires !t.flags.flush && !t.flags.forwardingStall
    ensures CoreInv(cfg, t, a)
  {
    hide WordAt, Address, Following, Decode, Step, CurrentSignals, CurrentExecuted, Execute, WriteBack;
  }

  /** While an ecall is pending, EX cannot meet a load it would have to wait for. */
  lemma NoStallWhilePending(cfg: Config, s: State, a: Arch)
    requires AtEx(cfg, s, a) && ExStage(s).Running? && ExStage(s).s.flags.trap
    ensures !ExStage(s).s.flags.forwardingStall
  {
    hide WordAt, Decode, Step, CurrentSignals, CurrentExecuted, Execute, WriteBack;
  }

  /** The first EX cycle of an ecall holds it back. */
  lemma FirstTrapCycle(cfg: Config, s: State, a: Arch, latency: nat)
    requires AtEx(cfg, s, a) && ExStage(s).Running? && ExStage(s).s.flags.trap && s.flags.trapCounter != 0
    ensures var t := AfterMa(cfg, s, latency); t.Running? && Inv(cfg, t.s, a)
  {
    hide WordAt, Address, Following, Decode, Step, CurrentSignals, CurrentExecuted, Execute, WriteBack, FrontEnd;
  }

  /** What EX may change. */
  lemma ExKeeps(s: State)
    requires ExStage(s).Running?
    ensures var e := ExStage(s).s;
      && e == s.(flags := s.flags.(trap := e.flags.trap, forwardingStall := e.flags.forwardingStall), exMa := e.exMa)
      && !s.idEx.ex.system.Breakpoint?
      && (if s.idEx.ex.system.Ecall? then
            e.flags.trap && e.exMa == s.exMa.(ins := s.idEx.ins) && e.flags.forwardingStall == s.flags.forwardingStall
          else e.flags.trap == s.flags.trap)
  {
    hide Execute, ForwardEx, NeedsStall;
  }

  lemma StallShape(cfg: Config, s: State, latency: nat)
    requires ExStage(s).Running? && !ExStage(s).s.flags.trap && ExStage(s).s.flags.forwardingStall
    ensures var e := ExStage(s).s;
      AfterMa(cfg, s, latency) ==
          Running(Tick(UpdateOperands(s.(flags := e.flags.(forwardingStall := false), exMa := EMPTY_EX_MA))))
  {
    ExKeeps(s);
    hide ExStage, FrontEnd, FinishTrap, UpdateOperands;
  }

  lemma StallCycle(cfg: Config, s: State, a: Arch, latency: nat)
    requires AtEx(cfg, s, a) && ExStage(s).Running? && !ExStage(s).s.flags.trap && ExStage(s).s.flags.forwardingStall
    ensures var t := AfterMa(cfg, s, latency);
      t.Running? && Inv(cfg, t.s, a)
  {
    ExKeeps(s);
    StallShape(cfg, s, latency);
    hide WordAt, Address, Following, Decode, Step, CurrentSignals, CurrentExecuted, Execute, WriteBack, FrontEnd,
         ExStage, AfterMa, FrontMatches;
    StallInv(cfg, s, a, Tick(UpdateOperands(s.(flags := ExStage(s).s.flags.(forwardingStall := false),
        exMa := EMPTY_EX_MA))));
  }

  lemma StallInv(cfg: Config, s: State, a: Arch, t: State)
    requires AtEx(cfg, s, a) && s.idEx.ex.system.NoCall?
    requires var u := s.(exMa := EMPTY_EX_MA, flags := t.flags, stats := t.stats); t == UpdateOperands(u)
    requires t.flags == s.flags.(forwardingStall := false, trap := t.flags.trap) && !t.flags.trap && !s.flags.trap
    ensures Inv(cfg, t, a)
  {
    hide WordAt, Address, Following, Decode, Step, CurrentSignals, CurrentExecuted, Execute, WriteBack, CurrentWord;
  }

  lemma PlainShape(cfg: Config, s: State, latency: nat)
    requires ExStage(s).Running? && !ExStage(s).s.flags.trap && !ExStage(s).s.flags.forwardingStall
    ensures var f := FrontEnd(cfg, ExStage(s).s, latency); var t := AfterMa(cfg, s, latency);
      if f.Running? then t == Running(ClearHazard(Tick(f.s))) else t == f
  {
    hide ExStage, FrontEnd, FinishTrap;
  }

  lemma PlainCycle(cfg: Config, s: State, a: Arch, latency: nat)
    requires WordAlignedText(cfg.limits) && AtEx(cfg, s, a) && 1 <= latency
    requires ExStage(s).Running? && !ExStage(s).s.flags.trap && !ExStage(s).s.flags.forwardingStall
    ensures var t := AfterMa(cfg, s, latency);
      t.Running? ==> Inv(cfg, t.s, a)
  {
    ExKeeps(s);
    assert TrapState(s);
    PlainShape(cfg, s, latency);
    hide FrontEnd, CoreInv, AtId, AtEx, ExStage, AfterMa;
    ExReachesId(cfg, s, a);
    FrontEndKeeps(cfg, ExStage(s).s, a, latency);
    var f := FrontEnd(cfg, ExStage(s).s, latency);
    if f.Running? { CoreFrame(cfg, f.s, ClearHazard(Tick(f.s)), a); }
  }

  /** Only a pending ecall can halt the machine. */
  lemma FrontEndOutcome(cfg: Config, e: State, latency: nat)
    ensures var f := FrontEnd(cfg, e, latency); f.Running? || f.Aborted?
  {
    hide WordAt, Decode, DecodedSlot, HazardStall, FetchAllowed, BranchTarget;
  }

  lemma PendingShape(cfg: Config, s: State, latency: nat)
    requires ExStage(s).Running? && ExStage(s).s.flags.trap && s.flags.trapCounter == 0
    ensures var f := FrontEnd(cfg, ExStage(s).s, latency); var t := AfterMa(cfg, s, latency);
      if f.Running? then t == FinishTrap(f.s) else t == f
  {
    ExKeeps(s);
    hide ExStage, FrontEnd, FinishTrap;
  }

  /** Finishing a trap touches flags and statistics only. */
  lemma FinishKeeps(f: State)
    ensures var t := FinishTrap(f);
      && (t.Running? || t.Halted?) && t.s == f.(stats := t.s.stats, flags := t.s.flags)
      && t.s.flags == f.flags.(hazardStall := t.s.flags.hazardStall, trapCounter := t.s.flags.trapCounter,
          trap := t.s.flags.trap)
      && !t.s.flags.hazardStall
      && (if f.flags.hazardStall || !f.fetch.mfc
          then t.s.flags.trapCounter == f.flags.trapCounter && t.s.flags.trap == f.flags.trap
          else t.s.flags.trapCounter == f.flags.trapCounter - 1 && !t.s.flags.trap)
  {
  }

  /** EX finds nothing to do behind a pending ecall that has let an instruction pass. */
  lemma PendingInert(cfg: Config, s: State, a: Arch)
    requires AtEx(cfg, s, a) && ExStage(s).Running? && ExStage(s).s.flags.trap && s.flags.trapCounter == 0
    ensures s.ifId.ins ==> Inert(ExStage(s).s.exMa)
  {
    hide WordAt, Address, Following, Decode, Step, CurrentSignals, CurrentExecuted, Execute, WriteBack, FrontMatches;
  }

  lemma PendingTrapCycle(cfg: Config, s: State, a: Arch, latency: nat)
    requires WordAlignedText(cfg.limits) && AtEx(cfg, s, a) && 1 <= latency
    requires ExStage(s).Running? && ExStage(s).s.flags.trap && s.flags.trapCounter == 0
    ensures var t := AfterMa(cfg, s, latency);
      t.Running? || t.Halted? ==> Inv(cfg, t.s, a)
  {
    ExKeeps(s);
    NoStallWhilePending(cfg, s, a);
    PendingInert(cfg, s, a);
    PendingShape(cfg, s, latency);
    hide FrontEnd, CoreInv, AtId, AtEx, ExStage, AfterMa, FinishTrap, Inert;
    ExReachesId(cfg, s, a);
    FrontEndKeeps(cfg, ExStage(s).s, a, latency);
    FrontEndOutcome(cfg, ExStage(s).s, latency);
    var f := FrontEnd(cfg, ExStage(s).s, latency);
    if f.Running? {
      FinishKeeps(f.s);
      CoreFrame(cfg, f.s, FinishTrap(f.s).s, a);
    }
  }

  lemma AfterMaKeeps(cfg: Config, s: State, a: Arch, latency: nat)
    requires WordAlignedText(cfg.limits) && AtEx(cfg, s, a) && 1 <= latency
    ensures var t := AfterMa(cfg, s, latency);
      t.Running? || t.Halted? ==> Inv(cfg, t.s, a)
  {
    hide Inv, AtEx, FrontEnd, ExStage;
    var e := ExStage(s);
    if e.Running? {
      FrontEndOutcome(cfg, e.s, latency);
      if e.s.flags.trap && s.flags.trapCounter == 0 {
        PendingTrapCycle(cfg, s, a, latency);
      } else if e.s.flags.trap {
        FirstTrapCycle(cfg, s, a, latency);
      } else if e.s.flags.forwardingStall {
        StallCycle(cfg, s, a, latency);
      } else {
        PlainCycle(cfg, s, a, latency);
      }
    } else {
      ExFrame(s);
    }
  }

  /** The state after a cycle in which a data access is not complete. */
  function Waiting(m: State): State { Tick(UpdateOperands(m.(maWb := EMPTY_MA_WB))) }

  lemma WaitingOlder(cfg: Config, s: State, m: State, a: Arch)
    requires Inv(cfg, s, a) && MaResult(cfg, s, m, a) && !m.data.mfc
    ensures OlderMatch(cfg, Waiting(m), a)
  {
    WbFrame(s);
    WbFacts(cfg, s, a);
    hide WordAt, Address, Following, Decode, Step, CurrentSignals, CurrentExecuted, CurrentWord, Execute, RegisterField,
         WbStage, WriteBack, YoungerMatch, FetchState, TrapState, FreshOperands, ExMaMatches;
  }

  lemma WaitingYounger(cfg: Config, s: State, m: State, a: Arch)
    requires Inv(cfg, s, a) && MaResult(cfg, s, m, a) && !m.data.mfc
    ensures var t := Waiting(m);
      && FetchState(t) && !t.flags.forwardingStall && !t.flags.hazardStall && FreshOperands(t) && TrapState(t)
      && (!Redirects(t.exMa) ==> YoungerMatch(cfg, t, After(cfg, t.exMa.ins, a)))
  {
    WbFrame(s);
    WbFacts(cfg, s, a);
    hide WordAt, Address, Following, Decode, Step, CurrentSignals, CurrentExecuted, CurrentWord, Execute, RegisterField,
         WbStage, WriteBack, OlderMatch, ExMaMatches, MaDone, WillRedirect, FrontMatches;
    SameFront(cfg, s, Waiting(m));
  }

  lemma SameFront(cfg: Config, s: State, t: State)
    requires t.changePc == s.changePc && t.jumpPc == s.jumpPc && t.ifId == s.ifId && t.pc == s.pc
    ensures forall a: Arch :: FrontMatches(cfg, t, a) == FrontMatches(cfg, s, a)
  {
  }

  /** A data access that is not complete keeps everything but WB waiting. */
  lemma WaitingCycle(cfg: Config, s: State, m: State, a: Arch)
    requires Inv(cfg, s, a) && MaResult(cfg, s, m, a) && !m.data.mfc
    ensures Inv(cfg, Waiting(m), a)
  {
    WaitingOlder(cfg, s, m, a);
    WaitingYounger(cfg, s, m, a);
    hide MaResult, OlderMatch, YoungerMatch, FetchState, FreshOperands, TrapState, Waiting;
  }

  /** MA completes in this cycle and passes on an instruction. */
  predicate Commits(cfg: Config, s: State, latency: Latency) {
    var m := MaStage(cfg, WbStage(s), latency.data);
    s.exMa.ins && m.Running? && m.s.data.mfc
  }

  /** One cycle keeps the invariant, moving on by one instruction exactly when MA completes one. */
  lemma CycleKeeps(cfg: Config, s: State, a: Arch, latency: Latency)
    requires WordAlignedText(cfg.limits) && Inv(cfg, s, a) && latency.Valid()
    ensures var t := Cycle(cfg, s, latency);
      t.Running? || t.Halted? ==> Inv(cfg, t.s, After(cfg, Commits(cfg, s, latency), a))
  {
    hide WordAt, Address, Following, Decode, Step, CurrentSignals, CurrentExecuted, Execute, RegisterField, AtEx,
         FrontEnd, MaStage, WbStage, AfterMa;
    MaStageCorrect(cfg, s, a, latency.data);
    var r := MaStage(cfg, WbStage(s), latency.data);
    if r.Running? {
      var m := r.s;
      if !m.data.mfc {
        WaitingCycle(cfg, s, m, a);
      } else {
        if m.flags.flush { FlushReachesEx(cfg, s, m, a); } else { NoFlushReachesEx(cfg, s, m, a); }
        AfterMaKeeps(cfg, ForEx(m), After(cfg, s.exMa.ins, a), latency.fetch);
      }
    }
  }

  // ---- whole runs ----

  /** What MA hands on in a committing cycle: the pending register write and the store performed. */
  function CommitOf(cfg: Config, s: State, latency: Latency): Commit
    requires Commits(cfg, s, latency)
  {
    CommitBy(s, MaStage(cfg, WbStage(s), latency.data).s)
  }

  /** Read off the state that MA leaves. */
  function CommitBy(s: State, m: State): Commit {
    Commit(if m.maWb.wb then Some(RegWrite(m.maWb.nrd, m.maWb.result)) else None,
           match s.exMa.ma.mem
           case Write(op) => Some(MemWrite(op, m.data.mar, m.data.mbr))
           case _ => None)
  }

  lemma CommitMatches(cfg: Config, s: State, a: Arch, latency: Latency)
    requires Inv(cfg, s, a) && latency.Valid() && Commits(cfg, s, latency)
    ensures CommitOf(cfg, s, latency) == CurrentCommit(cfg, a)
    ensures Fetchable(cfg, a) && AccessAllowed(cfg, a)
  {
    hide WordAt, Address, Following, Decode, CurrentSignals, CurrentExecuted, CurrentCommit, Execute, RegisterField,
         YoungerMatch, LoadValue, StoreValue, LoadAllowed, StoreAllowed, TrapState, FetchState, MaStage, WbStage,
         MaResult, MaDone, OnlyMa, SlotCommit, FreshOperands;
    SlotEffect(cfg, s.exMa, a);
    MaStageCorrect(cfg, s, a, latency.data);
    MaPorts(cfg, s, a, latency.data);
    CommitDone(cfg, s, MaStage(cfg, WbStage(s), latency.data).s, a);
    CommitSlot(cfg, s, a, MaStage(cfg, WbStage(s), latency.data).s);
  }

  lemma CommitDone(cfg: Config, s: State, m: State, a: Arch)
    requires MaResult(cfg, s, m, a) && m.data.mfc && s.exMa.ins
    ensures AccessAllowed(cfg, a)
  {
    hide OnlyMa, Step, WbStage, WriteBack, AccessAllowed;
  }

  lemma PortRead(ram: Ram, p: DataPort, op: LoadOp, latency: nat)
    requires p.readCounter >= 0 ==> !p.mfc
    ensures var r := ReadMemory(ram, p, op, latency);
      r.Some? && r.value.mfc ==> r.value.mbr == LoadValue(ram, Address(p.mar), op)
  {
    hide Address, LoadValue, LoadAllowed;
  }

  lemma PortWrite(limits: Limits, ram: Ram, p: DataPort, op: StoreOp, latency: nat)
    ensures var r := WriteMemory(limits, ram, p, op, latency);
      r.Some? ==> r.value.0.mar == p.mar && r.value.0.mbr == p.mbr
  {
    hide Address, StoreValue, StoreAllowed;
  }

  /** What MA puts in the write-back slot and, for a store, on its port. */
  lemma MaPorts(cfg: Config, s: State, a: Arch, latency: nat)
    requires OlderMatch(cfg, s, a) && 1 <= latency && s.exMa.ins
    ensures var m := MaStage(cfg, WbStage(s), latency);
      m.Running? && m.s.data.mfc ==>
        && m.s.maWb.wb == s.exMa.wb && m.s.maWb.nrd == s.exMa.nrd
        && (s.exMa.wb ==> m.s.maWb.result == SlotValue(s.exMa, a.ram))
        && (s.exMa.ma.mem.Write? ==> m.s.data.mar == s.exMa.result && m.s.data.mbr == s.exMa.r2)
  {
    var w := WbStage(s);
    WbFrame(s);
    SlotEffect(cfg, s.exMa, a);
    if IsStore(s.exMa.ma) { ForwardMaCorrect(cfg, s, a); }
    hide Address, LoadValue, WriteBack, CurrentSignals, CurrentExecuted, CurrentWord, CurrentCommit, Execute,
         HistoryMatches, WbStage, ExMaMatches, ReadMemory, WriteMemory, ForwardMa, Fetchable, SlotCommit, SlotAllowed,
         AccessAllowed, ResolveTransfer;
    match s.exMa.ma.mem {
      case NoMem => MaIdle(cfg, w, latency);
      case Read(op) => PortRead(w.ram, w.data.(mar := w.exMa.result), op, latency);
      case Write(op) =>
        PortWrite(cfg.limits, w.ram, w.data.(mbr := ForwardMa(w, w.exMa.r2, w.exMa.nrs2), mar := w.exMa.result), op,
            latency);
    }
  }

  lemma CommitSlot(cfg: Config, s: State, a: Arch, m: State)
    requires s.exMa.ins && SlotCommit(s.exMa, CurrentCommit(cfg, a), SlotValue(s.exMa, a.ram))
    requires m.maWb.wb == s.exMa.wb && m.maWb.nrd == s.exMa.nrd
    requires s.exMa.wb ==> m.maWb.result == SlotValue(s.exMa, a.ram)
    requires s.exMa.ma.mem.Write? ==> m.data.mar == s.exMa.result && m.data.mbr == s.exMa.r2
    ensures CommitBy(s, m) == CurrentCommit(cfg, a)
  {
    hide CurrentCommit, SlotValue;
  }

  /** The instructions that a run commits, in order. */
  function Log(cfg: Config, s: State, latencies: seq<Latency>): (log: seq<Commit>)
    ensures |log| <= |latencies|
  {
    if latencies == [] then []
    else
      var n := |latencies| - 1;
      var before := Log(cfg, s, latencies[..n]);
      match Run(cfg, s, latencies[..n])
      case Running(t) =>
        if Commits(cfg, t, latencies[n]) then before + [CommitOf(cfg, t, latencies[n])] else before
      case _ => before
  }

  ghost predicate ValidLatencies(latencies: seq<Latency>) {
    forall l <- latencies :: l.Valid()
  }

  /** Write-back has reached all commits but the one still in MA/WB. */
  ghost predicate WrittenBack(cfg: Config, s: State, a: Arch, n: nat) {
    && (s.maWb.ins ==> n > 0)
    && s.regs == Steps(cfg, a, if s.maWb.ins then n - 1 else n).regs
  }

  /** Neither the registers and memory nor the MA/WB slot differ. */
  predicate SameBehind(s: State, t: State) {
    s.regs == t.regs && s.ram == t.ram && s.maWb == t.maWb
  }

  predicate SameTrap(s: State, t: State) {
    s.flags.trap == t.flags.trap && s.flags.trapCounter == t.flags.trapCounter
  }

  lemma IdFrame(cfg: Config, e: State)
    ensures var d := IdStage(cfg, e);
      d.Running? ==> SameBehind(d.s, e) && SameTrap(d.s, e) && SameBehind(ForIf(d.s), e) && SameTrap(ForIf(d.s), e)
  {
    hide Decode, DecodedSlot, HazardStall, BranchTarget;
  }

  lemma IfFrame(cfg: Config, d: State, latency: nat)
    ensures var f := IfStage(cfg, d, latency); f.Running? ==> SameBehind(f.s, d) && SameTrap(f.s, d)
  {
    hide ReadMemoryI, Following;
  }

  lemma FrontEndFrame(cfg: Config, e: State, latency: nat)
    ensures var f := FrontEnd(cfg, e, latency); f.Running? ==> SameBehind(f.s, e) && SameTrap(f.s, e)
  {
    hide IdStage, IfStage, FlushFromId;
    IdFrame(cfg, e);
    if IdStage(cfg, e).Running? { IfFrame(cfg, ForIf(IdStage(cfg, e).s), latency); }
  }

  lemma ExFrame(s: State)
    ensures ExStage(s).Running? || ExStage(s).Paused?
    ensures ExStage(s).Running? ==> SameBehind(ExStage(s).s, s)
  {
    hide NeedsStall, Execute, ForwardEx;
  }

  /** After MA, a cycle leaves registers, memory and the MA/WB slot alone. */
  lemma AfterMaFrame(cfg: Config, s: State, latency: nat)
    ensures var t := AfterMa(cfg, s, latency);
      t.Running? || t.Halted? ==> SameBehind(t.s, s)
  {
    hide FrontEnd, ExStage;
    ExFrame(s);
    if ExStage(s).Running? {
      FrontEndOutcome(cfg, ExStage(s).s, latency);
      FrontEndFrame(cfg, ExStage(s).s, latency);
    }
  }

  lemma CycleWritesBack(cfg: Config, s: State, a: Arch, n: nat, latency: Latency)
    requires Inv(cfg, s, Steps(cfg, a, n)) && WrittenBack(cfg, s, a, n) && latency.Valid()
    ensures var t := Cycle(cfg, s, latency);
      t.Running? || t.Halted? ==> WrittenBack(cfg, t.s, a, if Commits(cfg, s, latency) then n + 1 else n)
  {
    hide WordAt, Address, Following, Decode, Step, CurrentSignals, CurrentExecuted, Execute, RegisterField, AfterMa,
         MaStage, FlushFromMa, YoungerMatch, TrapState, ExMaMatches;
    var b := Steps(cfg, a, n);
    WbFacts(cfg, s, b);
    MaStageCorrect(cfg, s, b, latency.data);
    var r := MaStage(cfg, WbStage(s), latency.data);
    if r.Running? && r.s.data.mfc {
      AfterMaFrame(cfg, ForEx(r.s), latency.fetch);
      FlushFrame(r.s);
    }
  }

  lemma FlushFrame(m: State)
    ensures FlushFromMa(m).regs == m.regs && FlushFromMa(m).ram == m.ram && FlushFromMa(m).maWb == m.maWb
  {
  }

  lemma InvRam(cfg: Config, r: Outcome, a: Arch)
    requires r.Running? || r.Halted? ==> Inv(cfg, r.s, a)
    ensures r.Running? || r.Halted? ==> r.s.ram == a.ram
  {
  }

  /** The main theorem: whatever the latencies, a run from reset commits exactly the first n
      instructions of the sequential execution, each of them legal, and its registers and memory
      are those of the sequential machine at that point. */
  lemma {:induction false} Refinement(cfg: Config, a: Arch, latencies: seq<Latency>)
    requires WordAlignedText(cfg.limits) && a.regs[0] == 0 && ValidLatencies(latencies)
    ensures var log, r := Log(cfg, Initial(a), latencies), Run(cfg, Initial(a), latencies);
      && log == Trace(cfg, a, |log|) && Legal(cfg, a, |log|)
      && (r.Running? || r.Halted? ==>
            && Inv(cfg, r.s, Steps(cfg, a, |log|))
            && r.s.ram == Steps(cfg, a, |log|).ram
            && WrittenBack(cfg, r.s, a, |log|))
    decreases |latencies|
  {
    hide Inv, Cycle, Commits, CommitOf, CurrentCommit, Step, Fetchable, AccessAllowed;
    if latencies == [] {
      InitialInv(cfg, a);
    } else {
      var k := |latencies| - 1;
      var prefix, l := latencies[..k], latencies[k];
      Refinement(cfg, a, prefix);
      var n := |Log(cfg, Initial(a), prefix)|;
      match Run(cfg, Initial(a), prefix)
      case Running(t) =>
        CycleKeeps(cfg, t, Steps(cfg, a, n), l);
        if Commits(cfg, t, l) { CommitMatches(cfg, t, Steps(cfg, a, n), l); }
        CycleWritesBack(cfg, t, a, n, l);
        InvRam(cfg, Run(cfg, Initial(a), latencies), Steps(cfg, a, |Log(cfg, Initial(a), latencies)|));
      case _ =>
    }
  }
}
