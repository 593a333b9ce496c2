/** Consequences of the refinement: timing never changes results, and when the machine halts. */
module PipelineResults {
  import opened Wrappers
  import opened Words
  import opened Alu
  import opened Control
  import opened Dram
  import opened Machine
  import opened Pipeline
  import opened PipelineInvariant
  import opened PipelineProof
  import opened PipelineRefinement
  import IsaConformance

  // ---- timing settings never change results ----

  /** The predictor changes only the `predicted` bit. */
  lemma DecodeIgnoresStrategy(s: Strategy, t: Strategy, ir: Word)
    ensures Decode(s, ir).Some? <==> Decode(t, ir).Some?
    ensures Decode(s, ir).Some? ==>
      var c, d := Decode(s, ir).value, Decode(t, ir).value;
      c == d.(ma := d.ma.(predicted := c.ma.predicted))
  {
    hide Predict;
  }

  lemma StepIgnoresTiming(cfg: Config, other: Config, a: Arch)
    requires cfg.limits == other.limits
    ensures Step(cfg, a) == Step(other, a) && CurrentCommit(cfg, a) == CurrentCommit(other, a)
  {
    hide Decode, WordAt, Execute, RegisterField, GenerateImmediate, LoadValue, StoreValue, StoreAllowed;
    DecodeIgnoresStrategy(cfg.strategy, other.strategy, CurrentWord(a));
  }

  lemma {:induction false} TraceIgnoresTiming(cfg: Config, other: Config, a: Arch, n: nat)
    requires cfg.limits == other.limits
    ensures Steps(cfg, a, n) == Steps(other, a, n) && Trace(cfg, a, n) == Trace(other, a, n)
  {
    hide Step, CurrentCommit;
    if n > 0 {
      TraceIgnoresTiming(cfg, other, a, n - 1);
      StepIgnoresTiming(cfg, other, Steps(cfg, a, n - 1));
    }
  }

  lemma {:induction false} TraceIsPrefix(cfg: Config, a: Arch, m: nat, n: nat)
    requires m <= n
    ensures Trace(cfg, a, m) <= Trace(cfg, a, n)
  {
    hide CurrentCommit, Steps;
    if m < n { TraceIsPrefix(cfg, a, m, n - 1); }
  }

  /** Two runs of the same program, with any latencies, forwarding settings and predictors, commit
      the same effects: one log is a prefix of the other, and where the logs are equally long and
      both machines are drained to the same depth, registers and memory agree. */
  lemma TimingIndependence(cfg: Config, other: Config, a: Arch, l1: seq<Latency>, l2: seq<Latency>)
    requires cfg.limits == other.limits && WordAlignedText(cfg.limits) && a.regs[0] == 0
    requires ValidLatencies(l1) && ValidLatencies(l2)
    ensures var log1, log2 := Log(cfg, Initial(a), l1), Log(other, Initial(a), l2);
      && (log1 <= log2 || log2 <= log1)
      && var r1, r2 := Run(cfg, Initial(a), l1), Run(other, Initial(a), l2);
         r1.Running? && r2.Running? && |log1| == |log2| ==>
           r1.s.ram == r2.s.ram && (r1.s.maWb.ins == r2.s.maWb.ins ==> r1.s.regs == r2.s.regs)
  {
    hide Run, Log, Trace, Steps, Inv, Legal;
    Refinement(cfg, a, l1);
    Refinement(other, a, l2);
    var m, n := |Log(cfg, Initial(a), l1)|, |Log(other, Initial(a), l2)|;
    TraceIgnoresTiming(cfg, other, a, m);
    TraceIgnoresTiming(cfg, other, a, n);
    if m > 0 { TraceIgnoresTiming(cfg, other, a, m - 1); }
    if m <= n { TraceIsPrefix(cfg, a, m, n); } else { TraceIsPrefix(cfg, a, n, m); }
  }

  // ---- the pipeline implements RV32I ----

  /** As long as the program keeps to RV32I with even jalr targets, registers and memory are those
      of the instruction set manual after exactly the committed instructions; the youngest
      committed register write may still be in MA/WB. */
  lemma ImplementsRv32i(cfg: Config, a: Arch, latencies: seq<Latency>)
    requires WordAlignedText(cfg.limits) && a.regs[0] == 0 && ValidLatencies(latencies)
    requires IsaConformance.RunsRv32i(a, |Log(cfg, Initial(a), latencies)|)
    ensures var n, r := |Log(cfg, Initial(a), latencies)|, Run(cfg, Initial(a), latencies);
      r.Running? || r.Halted? ==>
        && r.s.ram == IsaConformance.IsaSteps(a, n).ram
        && (r.s.maWb.ins ==> n > 0)
        && r.s.regs == IsaConformance.IsaSteps(a, if r.s.maWb.ins then n - 1 else n).regs
  {
    hide Run, Log, Trace, Inv, Step, IsaConformance.CurrentInstruction, IsaConformance.JumpAligned;
    Refinement(cfg, a, latencies);
    var n := |Log(cfg, Initial(a), latencies)|;
    IsaConformance.StepsConform(cfg, a, n);
    if n > 0 {
      IsaConformance.StepsConform(cfg, a, n - 1);
    }
  }

  // ---- halting ----

  /** The second EX cycle of an ecall: everything older has been written back, and the ecall
      completes in this cycle if a fetch does. */
  predicate AtEcall(s: State) {
    s.flags.trapCounter == 0 && !s.flags.trap
  }

  /** The ecall is the next instruction of the sequential machine, and the register file is exact. */
  lemma EcallPosition(cfg: Config, s: State, a: Arch)
    requires Inv(cfg, s, a) && AtEcall(s)
    ensures Fetchable(cfg, a) && CurrentSignals(cfg, a).ex.system.Ecall?
    ensures WbStage(s).regs == a.regs
  {
    hide WordAt, Decode, Step, RegisterField, CurrentExecuted, GenerateImmediate;
    WbFacts(cfg, s, a);
  }

  /** An ecall whose completion is not delayed by a fetch halts the machine exactly when the
      sequential register a7 holds the halt code. */
  lemma HaltsExactly(cfg: Config, s: State, a: Arch, latency: Latency)
    requires WordAlignedText(cfg.limits) && Inv(cfg, s, a) && AtEcall(s) && latency.Valid()
    ensures var t := Cycle(cfg, s, latency);
      && (t.Halted? ==> a.regs[17] == SYSTEM_HALT_CODE)
      && (t.Running? && !t.s.flags.trap ==> a.regs[17] != SYSTEM_HALT_CODE)
      && (t.Halted? ==> t.s.regs == a.regs && t.s.ram == a.ram)
  {
    hide WordAt, Address, Following, Decode, Step, CurrentSignals, CurrentExecuted, Execute, RegisterField, FrontEnd,
         YoungerMatch, WriteBack;
    WbFacts(cfg, s, a);
    var m := MaStage(cfg, WbStage(s), latency.data).s;
    assert m.data.mfc && !m.flags.flush && m.regs == a.regs && m.ram == a.ram && m.idEx == s.idEx && m.flags == s.flags;
    var e := ExStage(m);
    FrontEndOutcome(cfg, e.s, latency.fetch);
    FrontEndFrame(cfg, e.s, latency.fetch);
  }

  /** The fetch port delivers in this cycle. */
  predicate FetchEnds(s: State, latency: nat) {
    if s.changePc || s.fetch.mfc then latency == 1 else s.fetch.counter == 0
  }

  /** ID would hold back the next instruction; with forwarding it never does. */
  predicate IdWaits(cfg: Config, s: State) {
    !cfg.forwarding && !s.changePc
    && match Decode(cfg.strategy, s.ifId.ir)
       case Some(c) => HazardStall(s.(idEx := DecodedSlot(c, s.ifId, s.regs)))
       case None => false
  }

  lemma IdEnds(cfg: Config, e: State)
    requires FetchState(e) && QuietFlags(e)
    ensures var d := IdStage(cfg, e);
      d.Running? ==>
        && (d.s.flags.hazardStall <==> IdWaits(cfg, e)) && (d.s.flags.flush <==> e.changePc)
        && (!e.changePc ==> d.s.idEx.ins == e.ifId.ins)
        && d.s.fetch == if e.changePc then CancelFetch(e).fetch else e.fetch
  {
    hide Decode, RegisterField, GenerateImmediate, HazardStall, BranchTarget, PredictedTaken;
  }

  lemma IfEnds(cfg: Config, d: State, latency: nat)
    requires 1 <= latency && d.fetch.counter >= -1 && (d.fetch.mfc <==> d.fetch.counter == -1)
    ensures var f := IfStage(cfg, d, latency);
      f.Running? ==> f.s.flags == d.flags && f.s.idEx == d.idEx && (f.s.fetch.mfc <==>
          if d.fetch.mfc then latency == 1 else d.fetch.counter == 0)
  {
    hide WordAt, FetchAllowed, Address, Following;
  }

  lemma FrontEndEnds(cfg: Config, e: State, latency: nat)
    requires FetchState(e) && QuietFlags(e) && 1 <= latency
    ensures var f := FrontEnd(cfg, e, latency);
      f.Running? ==>
        && (f.s.flags.hazardStall <==> IdWaits(cfg, e))
        && (!f.s.flags.hazardStall ==> (f.s.fetch.mfc <==> FetchEnds(e, latency)))
        && (!f.s.flags.hazardStall && !e.changePc ==> f.s.idEx.ins == e.ifId.ins)
  {
    hide IdStage, IfStage, IdWaits;
    IdEnds(cfg, e);
    var d := IdStage(cfg, e);
    if d.Running? { IfEnds(cfg, if d.s.flags.flush then FlushFromId(d.s) else d.s, latency); }
  }

  /** Exactly when an ecall in its second EX cycle halts the machine: the code is there, nothing
      behind it waits for an operand, and a fetch completes in this cycle. If ID waits or no fetch
      completes, the ecall stays pending; in the second case an instruction already fetched behind it
      moves on to EX. */
  lemma HaltsWhenFetched(cfg: Config, s: State, a: Arch, latency: Latency)
    requires WordAlignedText(cfg.limits) && Inv(cfg, s, a) && AtEcall(s) && latency.Valid()
    ensures var t, m := Cycle(cfg, s, latency), MaStage(cfg, WbStage(s), latency.data);
      t.Running? || t.Halted? ==>
        && m.Running?
        && (t.Halted? <==> a.regs[17] == SYSTEM_HALT_CODE && !IdWaits(cfg, m.s) && FetchEnds(s, latency.fetch))
        && (t.Running? ==> (t.s.flags.trap <==> IdWaits(cfg, m.s) || !FetchEnds(s, latency.fetch)))
        && (t.Running? && !IdWaits(cfg, m.s) && !FetchEnds(s, latency.fetch) && !s.changePc ==>
            t.s.idEx.ins == s.ifId.ins)
  {
    hide WordAt, Address, Following, Decode, Step, CurrentSignals, CurrentExecuted, Execute, RegisterField, FrontEnd,
         YoungerMatch, WriteBack, HazardStall, DecodedSlot;
    WbFacts(cfg, s, a);
    var m := MaStage(cfg, WbStage(s), latency.data).s;
    assert m.data.mfc && !m.flags.flush && m.regs == a.regs && m.fetch == s.fetch && m.changePc == s.changePc
        && m.ifId == s.ifId && m.flags == s.flags;
    var e := ExStage(m);
    assert e.s == m.(exMa := e.s.exMa, flags := m.flags.(trap := true)) && e.s.exMa == m.exMa.(ins := m.idEx.ins);
    SameWait(cfg, e.s, m);
    FrontEndEnds(cfg, e.s, latency.fetch);
    FrontEndOutcome(cfg, e.s, latency.fetch);
    FrontEndFrame(cfg, e.s, latency.fetch);
  }

  lemma SameWait(cfg: Config, e: State, m: State)
    requires e == m.(exMa := m.exMa.(ins := e.exMa.ins), flags := e.flags)
    ensures IdWaits(cfg, e) == IdWaits(cfg, m)
  {
    hide Decode;
  }
}
