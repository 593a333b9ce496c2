/** The pipeline never stands still: with bounded latencies every run commits instructions at a rate
    (src/execution/simulator.c:36-355). */
module PipelineProgress {
  import Arithmetic
  import opened Words
  import opened Control
  import opened Dram
  import opened Machine
  import opened Pipeline
  import opened PipelineInvariant
  import opened PipelineProof
  import opened PipelineRefinement
  import opened PipelineResults

  /** Latencies up to `most`. */
  predicate UpTo(latency: Latency, most: nat) { latency.Valid() && latency.fetch <= most && latency.data <= most }

  ghost predicate AllUpTo(latencies: seq<Latency>, most: nat) { forall l <- latencies :: UpTo(l, most) }

  /** The ports' counters stay below the latency that loaded them. */
  predicate Bounded(s: State, most: nat) {
    most >= 1 && s.fetch.counter < most && s.data.readCounter < most && s.data.writeCounter < most
  }

  /** Cycles that the access in MA still waits. */
  function MaWait(s: State, most: nat): int {
    match s.exMa.ma.mem
    case NoMem => 0
    case Read(_) => if s.data.readCounter >= 0 then s.data.readCounter else most - 1
    case Write(_) => if s.data.writeCounter >= 0 then s.data.writeCounter else most - 1
  }

  function IfWait(s: State, most: nat): int { if s.fetch.counter >= 0 then s.fetch.counter else most - 1 }

  function Count(b: bool): nat { if b then 1 else 0 }

  /** How many cycles at most pass before the next instruction commits, by the slot it is in. */
  function Rank(s: State, most: nat): int {
    if s.exMa.ins then MaWait(s, most)
    else if s.idEx.ins then most + Count(s.idEx.ex.system.Ecall? && s.flags.trapCounter != 0)
    else if s.changePc then 2 * most + 4
    else if s.ifId.ins then most + 2 + Count(s.maWb.wb)
    else most + 4 + IfWait(s, most)
  }

  lemma RankBound(s: State, most: nat)
    requires Bounded(s, most) && FetchState(s)
    ensures Rank(s, most) <= 2 * most + 4
  {
  }

  // ---- MA waits ----

  lemma ReadLess(ram: Ram, p: DataPort, op: LoadOp, latency: nat, most: nat)
    requires 1 <= latency <= most && -1 <= p.readCounter < most
    ensures var r := ReadMemory(ram, p, op, latency);
      r.Some? ==>
        && r.value.writeCounter == p.writeCounter && -1 <= r.value.readCounter < most
        && (!r.value.mfc && (p.readCounter == -1 || !p.mfc) ==>
              0 <= r.value.readCounter < if p.readCounter >= 0 then p.readCounter else most - 1)
  {
    hide Address, LoadValue, LoadAllowed;
  }

  lemma WriteLess(cfg: Config, ram: Ram, p: DataPort, op: StoreOp, latency: nat, most: nat)
    requires 1 <= latency <= most && -1 <= p.writeCounter < most
    ensures var r := WriteMemory(cfg.limits, ram, p, op, latency);
      r.Some? ==>
        && r.value.0.readCounter == p.readCounter && -1 <= r.value.0.writeCounter < most
        && (!r.value.0.mfc && (p.writeCounter == -1 || !p.mfc) ==>
              0 <= r.value.0.writeCounter < if p.writeCounter >= 0 then p.writeCounter else most - 1)
  {
    hide Address, StoreValue, StoreAllowed;
  }

  lemma WaitsLess(cfg: Config, s: State, latency: nat, most: nat)
    requires Bounded(s, most) && 1 <= latency <= most && DataState(s.data, s.exMa.ma.mem)
    ensures var m := MaStage(cfg, WbStage(s), latency);
      m.Running? ==>
        && Bounded(m.s, most) && m.s.exMa == s.exMa && m.s.fetch == s.fetch
        && (!m.s.data.mfc ==> 0 <= MaWait(m.s, most) < MaWait(s, most))
  {
    var w := WbStage(s);
    WbFrame(s);
    hide WbStage, WriteBack, ForwardMa, ReadMemory, WriteMemory, ResolveTransfer;
    match s.exMa.ma.mem {
      case NoMem => MaIdle(cfg, w, latency);
      case Read(op) => ReadLess(w.ram, w.data.(mar := w.exMa.result), op, latency, most);
      case Write(op) =>
        WriteLess(cfg, w.ram, w.data.(mbr := ForwardMa(w, w.exMa.r2, w.exMa.nrs2), mar := w.exMa.result), op, latency,
            most);
    }
  }

  // ---- the front end ----

  lemma IdMoves(cfg: Config, e: State, most: nat)
    requires FetchState(e) && QuietFlags(e) && HistoryMatches(e) && Bounded(e, most)
    ensures var d := IdStage(cfg, e);
      d.Running? ==>
        && d.s.exMa == e.exMa && d.s.data == e.data
        && (d.s.flags.hazardStall <==> IdWaits(cfg, e)) && (d.s.flags.flush <==> e.changePc)
        && (e.changePc ==> !d.s.changePc && d.s.fetch.mfc && d.s.fetch.counter == -1)
        && (!e.changePc ==> d.s.fetch == e.fetch && d.s.ifId == e.ifId && d.s.idEx.ins == e.ifId.ins)
        && (!e.changePc && (!e.ifId.ins || d.s.flags.hazardStall) ==> !d.s.changePc)
        && (e.changePc || !e.ifId.ins ==> !d.s.flags.hazardStall)
  {
    IdEnds(cfg, e);
    if !e.changePc {
      IdSlots(cfg, e);
      if !e.ifId.ins { IdBubble(cfg, e); }
    }
    hide Decode, DecodedSlot, HazardStall, BranchTarget, PredictedTaken, IdWaits;
  }

  lemma IfMoves(cfg: Config, d: State, latency: nat, most: nat)
    requires 1 <= latency <= most && d.fetch.counter >= -1 && (d.fetch.mfc <==> d.fetch.counter == -1)
        && d.fetch.counter < most
    ensures var f := IfStage(cfg, d, latency);
      f.Running? ==>
        && f.s == d.(pc := f.s.pc, ifId := f.s.ifId, fetch := f.s.fetch) && -1 <= f.s.fetch.counter < most
        && (f.s.fetch.mfc ==> f.s.ifId.ins) && (!f.s.fetch.mfc ==> 0 <= f.s.fetch.counter < IfWait(d, most))
  {
    hide WordAt, FetchAllowed, Address, Following;
  }

  lemma FrontMoves(cfg: Config, e: State, latency: nat, most: nat)
    requires FetchState(e) && QuietFlags(e) && HistoryMatches(e) && Bounded(e, most) && 1 <= latency <= most
    ensures var f := FrontEnd(cfg, e, latency);
      f.Running? ==>
        && f.s.exMa == e.exMa && f.s.data == e.data && Bounded(f.s, most)
        && (if e.changePc then !f.s.idEx.ins && !f.s.changePc && (f.s.ifId.ins || IfWait(f.s, most) < most - 1)
            else if !e.ifId.ins then !f.s.idEx.ins && !f.s.changePc && (f.s.ifId.ins
                || IfWait(f.s, most) < IfWait(e, most))
            else f.s.idEx.ins || (IdWaits(cfg, e) && !f.s.changePc && f.s.ifId.ins))
  {
    hide IdStage, IfStage, IdWaits;
    IdMoves(cfg, e, most);
    var d := IdStage(cfg, e);
    if d.Running? { IfMoves(cfg, ForIf(d.s), latency, most); }
  }

  // ---- one cycle ----

  /** In a cycle without a commit and without a waiting access, EX moves what it finds: nothing is
      ahead of it that it would have to wait for. */
  lemma ExMoves(cfg: Config, s: State, m: State, a: Arch)
    requires Inv(cfg, s, a) && !s.exMa.ins && OnlyMa(WbStage(s), m)
    requires m.maWb == MaWb(s.exMa.result, s.exMa.nrd, s.exMa.wb, s.exMa.ins) && m.data == s.data && m.pc == s.pc
        && !m.flags.flush
    ensures FetchState(m) && QuietFlags(m) && HistoryMatches(m) && !NeedsStall(m) && !m.maWb.wb && Inert(m.exMa)
    ensures m.wbIf == s.maWb && m.idEx == s.idEx && m.ifId == s.ifId && m.changePc == s.changePc && m.fetch == s.fetch
        && m.exMa == s.exMa
    ensures m.flags.trap == s.flags.trap && m.flags.trapCounter == s.flags.trapCounter && m.data.mfc
    ensures m.data == s.data
  {
    WbFacts(cfg, s, a);
    WbFrame(s);
    NoRedirect(cfg, s, a);
    InvParts(cfg, s, a);
    hide Inv, WbStage, WriteBack, NeedsStall;
    NothingAhead(m);
  }

  lemma InvParts(cfg: Config, s: State, a: Arch)
    requires Inv(cfg, s, a)
    ensures FetchState(s) && QuietFlags(s) && (!s.exMa.ins ==> Inert(s.exMa))
  {
    hide YoungerMatch, WriteBack, HistoryMatches, FreshOperands;
  }

  lemma NothingAhead(m: State)
    requires !m.exMa.wb && !m.maWb.wb
    ensures !NeedsStall(m)
  {
  }

  /** MA has let a bubble pass, and EX is about to run. */
  predicate BubblePassed(m: State, most: nat) {
    && FetchState(m) && QuietFlags(m) && HistoryMatches(m) && Bounded(m, most) && m.data.mfc
    && !NeedsStall(m) && !m.maWb.wb && Inert(m.exMa) && !m.exMa.ins
    && (m.flags.trapCounter == -1 || m.flags.trapCounter == 0) && (m.flags.trap ==> m.flags.trapCounter == 0)
  }

  /** The rank as it stands once WB has shifted its history. */
  function RankAtEx(m: State, most: nat): int {
    if m.idEx.ins then most + Count(m.idEx.ex.system.Ecall? && m.flags.trapCounter != 0)
    else if m.changePc then 2 * most + 4
    else if m.ifId.ins then most + 2 + Count(m.wbIf.wb)
    else most + 4 + IfWait(m, most)
  }

  /** What EX makes of the slot it finds. */
  lemma ExTakes(m: State, most: nat)
    requires BubblePassed(m, most) && ExStage(m).Running?
    ensures var e := ExStage(m).s;
      && e == m.(flags := m.flags.(trap := e.flags.trap), exMa := e.exMa) && e.exMa.ins == m.idEx.ins
      && (e.flags.trap <==> m.flags.trap || m.idEx.ex.system.Ecall?)
      && (m.idEx.ex.system.Ecall? ==> e.exMa == m.exMa.(ins := m.idEx.ins) && e.exMa.ma.mem.NoMem?)
      && (!m.idEx.ins ==> !e.exMa.wb)
      && FetchState(e) && QuietFlags(e) && HistoryMatches(e) && Bounded(e, most)
  {
    ExKeeps(m);
    if m.idEx.ex.system.NoCall? { ExSlot(m); }
    hide Execute, ForwardEx, NeedsStall, ExStage, OrZero;
  }

  lemma FirstTrapShape(cfg: Config, m: State, latency: nat)
    requires ExStage(m).Running? && ExStage(m).s.flags.trap && m.flags.trapCounter != 0
    ensures var e := ExStage(m).s;
      AfterMa(cfg, m, latency) ==
          Running(Tick(m.(exMa := EMPTY_EX_MA, flags := e.flags.(trapCounter := 0, trap := false))))
  {
    ExKeeps(m);
    hide ExStage, FrontEnd, FinishTrap;
  }

  /** Only the slot written back in this cycle can make ID wait. */
  lemma WaitsForHistory(cfg: Config, e: State)
    requires IdWaits(cfg, e) && !e.exMa.wb && !e.maWb.wb
    ensures e.wbIf.wb
  {
    hide Decode, DecodedSlot;
  }

  /** What a cycle keeps of the state that the front end leaves. */
  predicate Ends(f: State, t: State) {
    t == f.(stats := t.stats, flags := t.flags)
  }

  lemma RunsOn(cfg: Config, m: State, latency: nat, most: nat)
    requires BubblePassed(m, most) && ExStage(m).Running? && (ExStage(m).s.flags.trap ==> m.flags.trapCounter == 0)
    ensures var f, t := FrontEnd(cfg, ExStage(m).s, latency), AfterMa(cfg, m, latency);
      t.Running? ==> f.Running? && Ends(f.s, t.s)
  {
    ExTakes(m, most);
    if ExStage(m).s.flags.trap { PendingShape(cfg, m, latency); } else { PlainShape(cfg, m, latency); }
    FrontEndOutcome(cfg, ExStage(m).s, latency);
    var f := FrontEnd(cfg, ExStage(m).s, latency);
    if f.Running? { FinishKeeps(f.s); }
    hide FrontEnd, ExStage, AfterMa, FinishTrap, BubblePassed;
  }

  /** An instruction in ID/EX reaches EX/MA, or an ecall its second EX cycle. */
  lemma SlotMoves(cfg: Config, m: State, latency: nat, most: nat)
    requires BubblePassed(m, most) && 1 <= latency <= most && m.idEx.ins && ExStage(m).Running?
    requires ExStage(m).s.flags.trap ==> m.flags.trapCounter == 0
    ensures var t := AfterMa(cfg, m, latency);
      t.Running? ==> Bounded(t.s, most) && Rank(t.s, most) < RankAtEx(m, most)
  {
    ExTakes(m, most);
    RunsOn(cfg, m, latency, most);
    hide FrontEnd, ExStage, AfterMa, NeedsStall, IdWaits, FetchState, QuietFlags, HistoryMatches;
    assert m.data.readCounter < most && m.data.writeCounter < most;
    FrontMoves(cfg, ExStage(m).s, latency, most);
  }

  /** A bubble in ID/EX, and the front end comes nearer to filling it. */
  lemma BubbleMoves(cfg: Config, m: State, latency: nat, most: nat)
    requires BubblePassed(m, most) && 1 <= latency <= most && !m.idEx.ins && ExStage(m).Running?
    requires ExStage(m).s.flags.trap ==> m.flags.trapCounter == 0
    ensures var t := AfterMa(cfg, m, latency);
      t.Running? ==> Bounded(t.s, most) && Rank(t.s, most) < RankAtEx(m, most)
  {
    ExTakes(m, most);
    RunsOn(cfg, m, latency, most);
    hide FrontEnd, ExStage, AfterMa, NeedsStall, IdWaits, QuietFlags, HistoryMatches, MaWait;
    var e := ExStage(m).s;
    FrontMoves(cfg, e, latency, most);
    FrontEndFrame(cfg, e, latency);
    if IdWaits(cfg, e) { WaitsForHistory(cfg, e); }
  }

  lemma Moves(cfg: Config, m: State, latency: nat, most: nat)
    requires BubblePassed(m, most) && 1 <= latency <= most
    ensures var t := AfterMa(cfg, m, latency);
      t.Running? ==> Bounded(t.s, most) && Rank(t.s, most) < RankAtEx(m, most)
  {
    hide FrontEnd, ExStage, AfterMa, NeedsStall, FetchState, QuietFlags, HistoryMatches, Rank, RankAtEx;
    ExFrame(m);
    if !ExStage(m).Running? {
      PausedOnly(cfg, m, latency);
    } else {
      ExTakes(m, most);
      if ExStage(m).s.flags.trap && m.flags.trapCounter != 0 { HeldOnce(cfg, m, latency, most); }
      else if m.idEx.ins { SlotMoves(cfg, m, latency, most); }
      else { BubbleMoves(cfg, m, latency, most); }
    }
  }

  /** The first EX cycle of an ecall. */
  lemma HeldOnce(cfg: Config, m: State, latency: nat, most: nat)
    requires BubblePassed(m, most) && ExStage(m).Running? && ExStage(m).s.flags.trap && m.flags.trapCounter != 0
    ensures var t := AfterMa(cfg, m, latency);
      t.Running? ==> Bounded(t.s, most) && Rank(t.s, most) < RankAtEx(m, most)
  {
    hide FrontEnd, ExStage, AfterMa, NeedsStall, QuietFlags, HistoryMatches;
    ExTakes(m, most);
    FirstTrapShape(cfg, m, latency);
  }

  lemma PausedOnly(cfg: Config, m: State, latency: nat)
    requires !ExStage(m).Running?
    ensures !AfterMa(cfg, m, latency).Running?
  {
    hide ExStage;
  }

  lemma FlushBounded(m: State, most: nat)
    requires Bounded(m, most)
    ensures Bounded(ForEx(m), most)
  {
  }

  lemma AfterMaBounded(cfg: Config, x: State, a: Arch, latency: nat, most: nat)
    requires AtEx(cfg, x, a) && Bounded(x, most) && 1 <= latency <= most
    ensures var t := AfterMa(cfg, x, latency); t.Running? ==> Bounded(t.s, most)
  {
    hide FrontEnd, ExStage, AfterMa, NeedsStall, FinishTrap, YoungerMatch, WriteBack, Inert;
    ExFrame(x);
    if !ExStage(x).Running? {
      PausedOnly(cfg, x, latency);
    } else {
      ExKeeps(x);
      var e := ExStage(x).s;
      if e.flags.trap && x.flags.trapCounter != 0 {
        FirstTrapShape(cfg, x, latency);
      } else if !e.flags.trap && e.flags.forwardingStall {
        StallShape(cfg, x, latency);
      } else {
        if e.flags.trap {
          NoStallWhilePending(cfg, x, a);
          PendingShape(cfg, x, latency);
        } else {
          PlainShape(cfg, x, latency);
        }
        FrontMoves(cfg, e, latency, most);
        FrontEndOutcome(cfg, e, latency);
        var f := FrontEnd(cfg, e, latency);
        if f.Running? { FinishKeeps(f.s); }
      }
    }
  }

  /** Every cycle keeps the counters below the bound. */
  lemma CycleBounded(cfg: Config, s: State, a: Arch, latency: Latency, most: nat)
    requires Inv(cfg, s, a) && Bounded(s, most) && UpTo(latency, most)
    ensures var t := Cycle(cfg, s, latency); t.Running? ==> Bounded(t.s, most)
  {
    MaStageCorrect(cfg, s, a, latency.data);
    WaitsLess(cfg, s, latency.data, most);
    hide MaStage, WbStage, AfterMa, AtEx, Step, MaDone, OnlyMa, YoungerMatch, ExMaMatches;
    var r := MaStage(cfg, WbStage(s), latency.data);
    if r.Running? && r.s.data.mfc {
      if r.s.flags.flush { FlushReachesEx(cfg, s, r.s, a); } else { NoFlushReachesEx(cfg, s, r.s, a); }
      FlushBounded(r.s, most);
      AfterMaBounded(cfg, ForEx(r.s), After(cfg, s.exMa.ins, a), latency.fetch, most);
    }
  }

  lemma WaitingDrops(cfg: Config, s: State, a: Arch, latency: Latency, most: nat)
    requires Inv(cfg, s, a) && Bounded(s, most) && UpTo(latency, most) && s.exMa.ins && !Commits(cfg, s, latency)
    ensures var t := Cycle(cfg, s, latency); t.Running? ==> Rank(t.s, most) < Rank(s, most)
  {
    hide MaStage, WbStage, AfterMa, Inv;
    InvCounters(cfg, s, a);
    WaitsLess(cfg, s, latency.data, most);
  }

  lemma BubbleDrops(cfg: Config, s: State, a: Arch, latency: Latency, most: nat)
    requires Inv(cfg, s, a) && Bounded(s, most) && UpTo(latency, most) && !s.exMa.ins
    ensures var t := Cycle(cfg, s, latency); t.Running? ==> Rank(t.s, most) < Rank(s, most)
  {
    hide MaStage, WbStage, AfterMa, Inv, NeedsStall, FetchState, QuietFlags, HistoryMatches, WriteBack;
    WbFrame(s);
    NoRedirect(cfg, s, a);
    MaIdle(cfg, WbStage(s), latency.data);
    var m := MaStage(cfg, WbStage(s), latency.data).s;
    ExMoves(cfg, s, m, a);
    Moves(cfg, m, latency.fetch, most);
  }

  lemma NoRedirect(cfg: Config, s: State, a: Arch)
    requires Inv(cfg, s, a) && !s.exMa.ins
    ensures s.exMa.ma.mem.NoMem? && !Redirects(s.exMa) && !s.flags.flush && s.data.mfc
    ensures (s.flags.trapCounter == -1 || s.flags.trapCounter == 0) && (s.flags.trap ==> s.flags.trapCounter == 0)
  {
    hide YoungerMatch;
  }

  /** A cycle that commits nothing brings the next commit nearer. */
  lemma CycleDrops(cfg: Config, s: State, a: Arch, latency: Latency, most: nat)
    requires Inv(cfg, s, a) && Bounded(s, most) && UpTo(latency, most) && !Commits(cfg, s, latency)
    ensures var t := Cycle(cfg, s, latency); t.Running? ==> Rank(t.s, most) < Rank(s, most)
  {
    hide Inv, Bounded, UpTo, Commits, Cycle, Rank;
    if s.exMa.ins { WaitingDrops(cfg, s, a, latency, most); } else { BubbleDrops(cfg, s, a, latency, most); }
  }

  // ---- whole runs ----

  /** Cycles in which an instruction is sure to commit. */
  function Period(most: nat): nat { 2 * most + 5 }

  lemma Valid(latencies: seq<Latency>, most: nat)
    requires AllUpTo(latencies, most)
    ensures ValidLatencies(latencies)
  {
  }

  lemma RankNeverNegative(s: State, most: nat)
    requires Bounded(s, most) && s.data.readCounter >= -1 && s.data.writeCounter >= -1
    ensures 0 <= Rank(s, most)
  {
  }

  lemma InvCounters(cfg: Config, s: State, a: Arch)
    requires Inv(cfg, s, a)
    ensures FetchState(s) && s.data.readCounter >= -1 && s.data.writeCounter >= -1 && DataState(s.data, s.exMa.ma.mem)
  {
    hide YoungerMatch, ExMaMatches;
  }

  lemma InitialBounded(a: Arch, most: nat)
    requires most >= 1
    ensures Bounded(Initial(a), most)
  {
  }

  /** After `cycles` cycles and n commits. */
  ghost predicate Paid(s: State, cycles: nat, n: nat, most: nat) {
    Bounded(s, most) && cycles + Rank(s, most) < (n + 1) * Period(most)
  }

  lemma {:induction false} CyclePays(cfg: Config, s: State, a: Arch, l: Latency, cycles: nat, n: nat, most: nat)
    requires WordAlignedText(cfg.limits) && Inv(cfg, s, a) && UpTo(l, most) && Paid(s, cycles, n, most)
    ensures var t := Cycle(cfg, s, l);
      t.Running? ==> Paid(t.s, cycles + 1, if Commits(cfg, s, l) then n + 1 else n, most)
  {
    CycleKeeps(cfg, s, a, l);
    CycleBounded(cfg, s, a, l, most);
    hide Inv, Cycle, Commits, Rank, Bounded, Step;
    Bound(cfg, s, a, most);
    var t := Cycle(cfg, s, l);
    if t.Running? {
      Bound(cfg, t.s, After(cfg, Commits(cfg, s, l), a), most);
      if !Commits(cfg, s, l) { CycleDrops(cfg, s, a, l, most); }
      Arithmetic.Distribute(n + 1, 1, Period(most));
    }
  }

  /** A run that is still going has committed an instruction in every period. */
  lemma {:induction false} RankPays(cfg: Config, a: Arch, latencies: seq<Latency>, most: nat)
    requires WordAlignedText(cfg.limits) && a.regs[0] == 0 && most >= 1 && AllUpTo(latencies, most)
    ensures var r := Run(cfg, Initial(a), latencies);
      r.Running? ==> Paid(r.s, |latencies|, |Log(cfg, Initial(a), latencies)|, most)
    decreases |latencies|
  {
    hide Inv, Cycle, Commits, CommitOf, Rank, Bounded, Initial, Step, Trace, Legal, WrittenBack, UpTo, Period;
    if latencies == [] {
      InitialPaid(cfg, a, most);
    } else {
      var k := |latencies| - 1;
      var prefix, l := latencies[..k], latencies[k];
      RankPays(cfg, a, prefix, most);
      Valid(prefix, most);
      Refinement(cfg, a, prefix);
      var r, n := Run(cfg, Initial(a), prefix), |Log(cfg, Initial(a), prefix)|;
      if r.Running? { CyclePays(cfg, r.s, Steps(cfg, a, n), l, k, n, most); }
    }
  }

  lemma InitialPaid(cfg: Config, a: Arch, most: nat)
    requires a.regs[0] == 0 && most >= 1
    ensures Paid(Initial(a), 0, 0, most)
  {
    InitialBounded(a, most);
    InitialInv(cfg, a);
    Bound(cfg, Initial(a), a, most);
  }

  lemma Bound(cfg: Config, s: State, a: Arch, most: nat)
    requires Inv(cfg, s, a) && Bounded(s, most)
    ensures 0 <= Rank(s, most) < Period(most)
  {
    InvCounters(cfg, s, a);
    RankBound(s, most);
    RankNeverNegative(s, most);
    hide Inv, Rank;
  }

  /** Progress: with latencies up to `most`, a run of n cycles that has not halted, paused or aborted
      has committed at least n / (2 * most + 5) instructions, rounded down. */
  lemma {:induction false} Progress(cfg: Config, a: Arch, latencies: seq<Latency>, most: nat)
    requires WordAlignedText(cfg.limits) && a.regs[0] == 0 && most >= 1 && AllUpTo(latencies, most)
    ensures Run(cfg, Initial(a), latencies).Running? ==>
      |latencies| / Period(most) <= |Log(cfg, Initial(a), latencies)|
  {
    RankPays(cfg, a, latencies, most);
    var r, n := Run(cfg, Initial(a), latencies), |Log(cfg, Initial(a), latencies)|;
    hide Run, Log, Rank, Bounded;
    if r.Running? {
      Valid(latencies, most);
      Refinement(cfg, a, latencies);
      Bound(cfg, r.s, Steps(cfg, a, n), most);
      Arithmetic.BelowMultiple(|latencies|, n + 1, Period(most));
    }
  }
}
