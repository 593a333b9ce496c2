/** With forwarding switched off, the interlock in ID makes every forwarding path idle. */
module PipelineInterlock {
  import opened Wrappers
  import opened Words
  import opened Control
  import opened Dram
  import opened Machine
  import opened Pipeline
  import opened PipelineInvariant
  import opened PipelineProof
  import opened PipelineRefinement

  /** No slot ahead will still write a register that ID/EX, or a store in EX/MA, reads. */
  predicate Interlocked(s: State) {
    && !Depends(s.idEx, s.exMa.wb, s.exMa.nrd)
    && !Depends(s.idEx, s.maWb.wb, s.maWb.nrd)
    && (IsStore(s.exMa.ma) ==>
          && !Provides(s.maWb.wb, s.maWb.nrd, s.exMa.nrs2)
          && !Provides(s.wbIf.wb, s.wbIf.nrd, s.exMa.nrs2))
  }

  predicate SameSlots(s: State, t: State) {
    s.idEx == t.idEx && s.exMa == t.exMa && s.maWb == t.maWb && s.wbIf == t.wbIf
  }

  /** The state that EX sees. */
  predicate ExInterlocked(s: State) {
    && !Depends(s.idEx, s.exMa.wb, s.exMa.nrd)
    && !Depends(s.idEx, s.maWb.wb, s.maWb.nrd)
    && !Depends(s.idEx, s.wbIf.wb, s.wbIf.nrd)
  }

  /** EX forwarding returns the original value for every operand that the instruction uses. */
  lemma ExForwardingIdle(s: State)
    requires ExInterlocked(s)
    ensures s.idEx.ex.source1.Rs1? ==> ForwardEx(s, s.idEx.r1, s.idEx.nrs1) == Some(s.idEx.r1)
    ensures s.idEx.ex.source2.Rs2? || IsStore(s.idEx.ma) ==> ForwardEx(s, s.idEx.r2, s.idEx.nrs2) == Some(s.idEx.r2)
    ensures !NeedsStall(s)
  {
  }

  lemma MaForwardingIdle(s: State)
    requires Interlocked(s) && IsStore(s.exMa.ma)
    ensures ForwardMa(WbStage(s), s.exMa.r2, s.exMa.nrs2) == s.exMa.r2
  {
  }

  /** What the MA stage passes on when it completes. */
  lemma MaSlots(cfg: Config, s: State, latency: nat)
    ensures var m := MaStage(cfg, WbStage(s), latency);
      m.Running? ==>
        && m.s.idEx == s.idEx && m.s.exMa == s.exMa && m.s.wbIf == s.maWb
        && m.s.maWb.wb == s.exMa.wb && m.s.maWb.nrd == s.exMa.nrd
        && m.s.flags == s.flags.(flush := m.s.flags.flush)
    ensures !MaStage(cfg, WbStage(s), latency).Halted?
  {
    hide ReadMemory, WriteMemory, ForwardMa, WriteBack;
  }

  lemma IdSlot(cfg: Config, e: State)
    requires !cfg.forwarding
    ensures var d := IdStage(cfg, e);
      && !d.Halted?
      && (d.Running? ==>
            && d.s.exMa == e.exMa && d.s.maWb == e.maWb && d.s.wbIf == e.wbIf
            && (d.s.flags.flush || d.s.flags.hazardStall || !HazardStall(d.s)))
  {
    hide Decode, DecodedSlot, BranchTarget;
  }

  lemma IfSlots(cfg: Config, d: State, latency: nat)
    ensures var f := IfStage(cfg, d, latency); f.Running? ==> SameSlots(f.s, d)
  {
    hide ReadMemoryI, Following;
  }

  /** The slots behind ID after the front end has run. */
  lemma FrontEndSlots(cfg: Config, e: State, latency: nat)
    requires !cfg.forwarding && !e.flags.hazardStall && !e.flags.flush
    ensures var f := FrontEnd(cfg, e, latency);
      f.Running? ==>
        && f.s.exMa == e.exMa && f.s.maWb == e.maWb && f.s.wbIf == e.wbIf
        && (f.s.idEx == EMPTY_ID_EX || !HazardStall(f.s))
  {
    hide IdStage, IfStage, Depends;
    IdSlot(cfg, e);
    if IdStage(cfg, e).Running? { IfSlots(cfg, ForIf(IdStage(cfg, e).s), latency); }
  }

  /** EX turns "nothing ahead writes what ID/EX reads" into the same for a store in EX/MA. */
  lemma ExSlots(s: State)
    requires ExInterlocked(s) && !s.flags.forwardingStall
    ensures var e := ExStage(s);
      && !e.Halted?
      && (e.Running? ==>
            && e.s.idEx == s.idEx && e.s.maWb == s.maWb && e.s.wbIf == s.wbIf
            && e.s.flags == s.flags.(trap := e.s.flags.trap)
            && (!s.idEx.ex.system.NoCall? ==> e.s.flags.trap)
            && (s.idEx.ex.system.NoCall? && IsStore(e.s.exMa.ma) ==>
                  && !Provides(s.maWb.wb, s.maWb.nrd, e.s.exMa.nrs2)
                  && !Provides(s.wbIf.wb, s.wbIf.nrd, e.s.exMa.nrs2))
            && (!s.idEx.ex.system.NoCall? ==> e.s.exMa == s.exMa.(ins := e.s.exMa.ins)))
  {
    hide Execute, NeedsStall, ForwardEx;
    ExForwardingIdle(s);
  }

  /** The last steps of a cycle leave the slots as the front end made them. */
  lemma EndSlots(cfg: Config, s: State, latency: nat)
    requires ExStage(s).Running? && !ExStage(s).s.flags.forwardingStall
    requires !ExStage(s).s.flags.trap || ExStage(s).s.flags.trapCounter == 0
    ensures var f, t := FrontEnd(cfg, ExStage(s).s, latency), AfterMa(cfg, s, latency);
      t.Running? ==> f.Running? && SameSlots(t.s, f.s)
  {
    hide FrontEnd, ExStage;
    FrontEndOutcome(cfg, ExStage(s).s, latency);
  }

  lemma SlotsInterlocked(e: State, f: State)
    requires f.exMa == e.exMa && f.maWb == e.maWb && f.wbIf == e.wbIf
    requires f.idEx == EMPTY_ID_EX || !HazardStall(f)
    requires IsStore(e.exMa.ma) ==>
      !Provides(e.maWb.wb, e.maWb.nrd, e.exMa.nrs2) && !Provides(e.wbIf.wb, e.wbIf.nrd, e.exMa.nrs2)
    ensures Interlocked(f)
  {
  }

  lemma FirstTrapInterlock(cfg: Config, s: State, latency: nat)
    requires ExInterlocked(s) && ExStage(s).Running? && ExStage(s).s.flags.trap && s.flags.trapCounter != 0
    requires ExStage(s).s.flags.trapCounter == s.flags.trapCounter && ExStage(s).s.idEx == s.idEx
    requires ExStage(s).s.maWb == s.maWb && ExStage(s).s.wbIf == s.wbIf
    ensures var t := AfterMa(cfg, s, latency); t.Running? && Interlocked(t.s)
  {
    hide FrontEnd, ExStage, FinishTrap;
  }

  lemma AfterMaKeepsInterlock(cfg: Config, s: State, latency: nat)
    requires !cfg.forwarding && ExInterlocked(s) && QuietFlags(s)
    requires !s.idEx.ex.system.NoCall? && s.flags.trapCounter == 0 ==> Inert(s.exMa)
    ensures var t := AfterMa(cfg, s, latency); t.Running? ==> Interlocked(t.s)
  {
    hide FrontEnd, ExStage, HazardStall, AfterMa, Depends, Provides;
    ExSlots(s);
    var e := ExStage(s);
    if e.Running? {
      if e.s.flags.trap && s.flags.trapCounter != 0 {
        FirstTrapInterlock(cfg, s, latency);
      } else {
        FrontEndSlots(cfg, e.s, latency);
        EndSlots(cfg, s, latency);
        var f := FrontEnd(cfg, e.s, latency);
        if f.Running? { SlotsInterlocked(e.s, f.s); }
      }
    } else {
      PausedEnds(cfg, s, latency);
    }
  }

  lemma PausedEnds(cfg: Config, s: State, latency: nat)
    requires !ExStage(s).Running?
    ensures AfterMa(cfg, s, latency) == ExStage(s)
  {
  }

  /** Every cycle keeps the interlock. */
  lemma CycleKeepsInterlock(cfg: Config, s: State, a: Arch, latency: Latency)
    requires !cfg.forwarding && Interlocked(s) && Inv(cfg, s, a) && latency.Valid()
    ensures var t := Cycle(cfg, s, latency); t.Running? ==> Interlocked(t.s)
  {
    hide WbStage, MaStage, AfterMa, YoungerMatch, OlderMatch, FreshOperands;
    MaSlots(cfg, s, latency.data);
    var r := MaStage(cfg, WbStage(s), latency.data);
    if r.Running? && r.s.data.mfc {
      OlderSlot(cfg, s, a);
      ReachesEx(s, r.s);
      AfterMaKeepsInterlock(cfg, ForEx(r.s), latency.fetch);
    }
  }

  lemma ReachesEx(s: State, m: State)
    requires Interlocked(s) && TrapState(s) && QuietFlags(s) && (!s.exMa.ins ==> Inert(s.exMa))
        && (!s.idEx.ins ==> s.idEx == EMPTY_ID_EX)
    requires m.idEx == s.idEx && m.exMa == s.exMa && m.wbIf == s.maWb && m.maWb.wb == s.exMa.wb
        && m.maWb.nrd == s.exMa.nrd
    requires m.flags == s.flags.(flush := m.flags.flush)
    ensures var e := ForEx(m);
      ExInterlocked(e) && QuietFlags(e) && (!e.idEx.ex.system.NoCall? && e.flags.trapCounter == 0 ==> Inert(e.exMa))
  {
  }

  lemma OlderSlot(cfg: Config, s: State, a: Arch)
    requires OlderMatch(cfg, s, a)
    ensures (!s.exMa.ins ==> Inert(s.exMa)) && !s.flags.flush
  {
    hide Decode;
  }

  /** In a reachable state with forwarding off, a store's data and the operands that EX uses
      never come from a forwarding path, and EX never stalls for one. */
  lemma {:induction false} ForwardingNeverUsed(cfg: Config, a: Arch, latencies: seq<Latency>, next: Latency)
    requires !cfg.forwarding && WordAlignedText(cfg.limits) && a.regs[0] == 0
    requires ValidLatencies(latencies) && next.Valid()
    ensures var r := Run(cfg, Initial(a), latencies);
      r.Running? ==>
        && (IsStore(r.s.exMa.ma) ==> ForwardMa(WbStage(r.s), r.s.exMa.r2, r.s.exMa.nrs2) == r.s.exMa.r2)
        && var m := MaStage(cfg, WbStage(r.s), next.data);
           m.Running? && m.s.data.mfc ==>
             var e := ForEx(m.s);
             && !NeedsStall(e)
             && (e.idEx.ex.source1.Rs1? ==> ForwardEx(e, e.idEx.r1, e.idEx.nrs1) == Some(e.idEx.r1))
             && (e.idEx.ex.source2.Rs2? || IsStore(e.idEx.ma) ==>
                 ForwardEx(e, e.idEx.r2, e.idEx.nrs2) == Some(e.idEx.r2))
  {
    hide WbStage, MaStage, NeedsStall, ForwardEx, ForwardMa, Interlocked, ExInterlocked, YoungerMatch, OlderMatch,
         FreshOperands;
    var r := Run(cfg, Initial(a), latencies);
    if r.Running? {
      AlwaysInterlocked(cfg, a, latencies);
      if IsStore(r.s.exMa.ma) { MaForwardingIdle(r.s); }
      var m := MaStage(cfg, WbStage(r.s), next.data);
      if m.Running? && m.s.data.mfc {
        Refinement(cfg, a, latencies);
        MaSlots(cfg, r.s, next.data);
        OlderSlot(cfg, r.s, Steps(cfg, a, |Log(cfg, Initial(a), latencies)|));
        ReachesEx(r.s, m.s);
        ExForwardingIdle(ForEx(m.s));
      }
    }
  }

  lemma {:induction false} AlwaysInterlocked(cfg: Config, a: Arch, latencies: seq<Latency>)
    requires !cfg.forwarding && WordAlignedText(cfg.limits) && a.regs[0] == 0 && ValidLatencies(latencies)
    ensures var r := Run(cfg, Initial(a), latencies); r.Running? ==> Interlocked(r.s)
    decreases |latencies|
  {
    hide Cycle, Inv;
    if latencies != [] {
      var k := |latencies| - 1;
      AlwaysInterlocked(cfg, a, latencies[..k]);
      Refinement(cfg, a, latencies[..k]);
      var r := Run(cfg, Initial(a), latencies[..k]);
      if r.Running? {
        CycleKeepsInterlock(cfg, r.s, Steps(cfg, a, |Log(cfg, Initial(a), latencies[..k])|), latencies[k]);
      }
    }
  }
}
