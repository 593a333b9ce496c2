/** Where every cycle of every run goes, whatever the latencies, the predictor and the forwarding switch
    (src/execution/simulator.c:36-355, src/memory/memory.c:29-314). */
module PipelineCycles {
  import opened Wrappers
  import opened Words
  import opened Control
  import opened Dram
  import opened Machine
  import opened MemoryPorts
  import opened Pipeline
  import opened PipelineInvariant
  import opened PipelineOutcome
  import opened PipelineProof
  import opened PipelineRefinement
  import opened PipelineResults

  function Count(b: bool): nat { if b then 1 else 0 }

  /** Instructions in the four pipeline registers. */
  function InFlight(s: State): nat {
    Count(s.maWb.ins) + Count(s.exMa.ins) + Count(s.idEx.ins) + Count(s.ifId.ins)
  }

  /** What a run has spent its cycles on, other than instructions: the latencies of data accesses
      beyond one cycle each, waits for a fetch, EX waiting for an operand, first EX cycles of ecalls, ID
      waiting for an operand, and instructions squashed. Beside these the commits, and how often MA and
      ID redirected the fetch. */
  datatype Losses = Losses(data: nat, fetch: nat, operands: nat, ecalls: nat, interlocks: nat, squashed: nat,
                           commits: nat, redirects: nat, predictions: nat) {
    function Sum(): nat { data + fetch + operands + ecalls + interlocks + squashed }

    function Plus(o: Losses): Losses {
      Losses(data + o.data, fetch + o.fetch, operands + o.operands, ecalls + o.ecalls, interlocks + o.interlocks,
             squashed + o.squashed, commits + o.commits, redirects + o.redirects, predictions + o.predictions)
    }
  }

  const NO_LOSSES := Losses(0, 0, 0, 0, 0, 0, 0, 0, 0)

  /** A data access starts with the given latency. */
  predicate Starts(s: State) { s.data.mfc && !s.exMa.ma.mem.NoMem? }

  function AccessLoss(s: State, latency: nat): Losses
    requires 1 <= latency
  {
    NO_LOSSES.(data := if Starts(s) then latency - 1 else 0)
  }

  /** MA commits its instruction; a transfer that was not predicted drops the two youngest. */
  function MaLoss(s: State): Losses {
    NO_LOSSES.(commits := Count(s.exMa.ins), redirects := Count(Redirects(s.exMa)),
               squashed := if Redirects(s.exMa) then Count(s.idEx.ins) + Count(s.ifId.ins) else 0)
  }

  /** A taken prediction drops the instruction behind it. */
  function FrontLoss(cfg: Config, e: State, latency: nat): Losses {
    NO_LOSSES.(
      squashed := if e.changePc then Count(e.ifId.ins) else 0,
      predictions := Count(e.changePc),
      interlocks := Count(IdWaits(cfg, e)),
      fetch := Count(!IdWaits(cfg, e) && !FetchEnds(e, latency)))
  }

  function ExLoss(cfg: Config, x: State, latency: nat): Losses {
    if x.flags.trap || x.idEx.ex.system.Ecall? then
      if x.flags.trapCounter != 0 then NO_LOSSES.(ecalls := 1)
      else if ExStage(x).Running? then FrontLoss(cfg, ExStage(x).s, latency) else NO_LOSSES
    else if NeedsStall(x) then NO_LOSSES.(operands := 1)
    else if ExStage(x).Running? then FrontLoss(cfg, ExStage(x).s, latency) else NO_LOSSES
  }

  function CycleLoss(cfg: Config, s: State, latency: Latency): Losses
    requires latency.Valid()
  {
    AccessLoss(s, latency.data).Plus(
      match AtExOf(cfg, s, latency)
      case Some(x) => MaLoss(s).Plus(ExLoss(cfg, x, latency.fetch))
      case None => NO_LOSSES)
  }

  /** The losses of a run. */
  function RunLosses(cfg: Config, s: State, latencies: seq<Latency>): Losses
    requires ValidLatencies(latencies)
  {
    if latencies == [] then NO_LOSSES
    else
      var n := |latencies| - 1;
      assert latencies[n] in latencies;
      match Run(cfg, s, latencies[..n])
      case Running(t) => RunLosses(cfg, s, latencies[..n]).Plus(CycleLoss(cfg, t, latencies[n]))
      case _ => RunLosses(cfg, s, latencies[..n])
  }

  // ---- data accesses ----

  /** The cycles that the data access outstanding still has to wait after the coming one. */
  function Pending(s: State): nat {
    match s.exMa.ma.mem
    case NoMem => 0
    case Read(_) => if s.data.readCounter >= 0 then s.data.readCounter else 0
    case Write(_) => if s.data.writeCounter >= 0 then s.data.writeCounter else 0
  }

  lemma ReadClock(ram: Ram, p: DataPort, op: LoadOp, latency: nat)
    requires p.readCounter >= -1 && 1 <= latency && (p.readCounter >= 0 ==> !p.mfc)
    ensures var r := ReadMemory(ram, p, op, latency);
      var wait := if p.readCounter >= 0 then p.readCounter else latency - 1;
      r.Some? ==>
        if r.value.mfc then wait == 0 && r.value.readCounter == -1 && r.value.writeCounter == p.writeCounter
        else wait > 0 && r.value.readCounter == wait - 1
  {
    hide LoadValue, LoadAllowed, Address;
  }

  lemma WriteClock(limits: Limits, ram: Ram, p: DataPort, op: StoreOp, latency: nat)
    requires p.writeCounter >= -1 && 1 <= latency && (p.writeCounter >= 0 ==> !p.mfc)
    ensures var r := WriteMemory(limits, ram, p, op, latency);
      var wait := if p.writeCounter >= 0 then p.writeCounter else latency - 1;
      r.Some? ==>
        if r.value.0.mfc then wait == 0 && r.value.0.writeCounter == -1 && r.value.0.readCounter == p.readCounter
        else wait > 0 && r.value.0.writeCounter == wait - 1
  {
    hide StoreValue, StoreAllowed, Address;
  }

  /** One cycle takes one off what an access has to wait. */
  lemma MaClock(cfg: Config, s: State, latency: nat)
    requires DataState(s.data, s.exMa.ma.mem) && 1 <= latency
    ensures var m := MaStage(cfg, WbStage(s), latency);
      m.Running? ==>
        && m.s.exMa == s.exMa
        && Pending(s) + AccessLoss(s, latency).data == (if m.s.data.mfc then 0 else 1 + Pending(m.s))
  {
    var w := WbStage(s);
    WbFrame(s);
    hide WbStage, WriteBack, ForwardMa, ReadMemory, WriteMemory, ResolveTransfer;
    match s.exMa.ma.mem {
      case NoMem => MaIdle(cfg, w, latency);
      case Read(op) => ReadClock(w.ram, w.data.(mar := w.exMa.result), op, latency);
      case Write(op) =>
        var data := ForwardMa(w, w.exMa.r2, w.exMa.nrs2);
        WriteClock(cfg.limits, w.ram, w.data.(mbr := data, mar := w.exMa.result), op, latency);
    }
  }

  // ---- ID and IF ----

  lemma IdCounts(cfg: Config, e: State)
    requires FetchState(e) && QuietFlags(e) && HistoryMatches(e)
    ensures var d := IdStage(cfg, e);
      d.Running? ==>
        && d.s.exMa == e.exMa && d.s.maWb == e.maWb && d.s.data == e.data && d.s.stats == e.stats
        && (d.s.flags.hazardStall <==> IdWaits(cfg, e)) && (d.s.flags.flush <==> e.changePc)
        && (e.changePc ==> d.s.fetch.mfc && d.s.fetch.counter == -1)
        && (!e.changePc ==> d.s.fetch == e.fetch && d.s.ifId == e.ifId && d.s.idEx.ins == e.ifId.ins)
  {
    IdEnds(cfg, e);
    if !e.changePc { IdSlots(cfg, e); }
    hide Decode, DecodedSlot, HazardStall, BranchTarget, PredictedTaken, IdWaits;
  }

  lemma IfCounts(cfg: Config, d: State, latency: nat)
    requires 1 <= latency && d.fetch.counter >= -1 && (d.fetch.mfc <==> d.fetch.counter == -1)
    ensures var f := IfStage(cfg, d, latency);
      f.Running? ==>
        && f.s == d.(pc := f.s.pc, ifId := f.s.ifId, fetch := f.s.fetch)
        && (f.s.fetch.mfc <==> if d.fetch.mfc then latency == 1 else d.fetch.counter == 0)
        && f.s.ifId.ins == f.s.fetch.mfc
  {
    hide WordAt, FetchAllowed, Address, Following;
  }

  /** Which slots ID and IF leave filled. */
  lemma FrontCounts(cfg: Config, e: State, latency: nat)
    requires FetchState(e) && QuietFlags(e) && HistoryMatches(e) && 1 <= latency
    ensures var f := FrontEnd(cfg, e, latency);
      f.Running? ==>
        && f.s.exMa == e.exMa && f.s.maWb == e.maWb && f.s.data == e.data
        && f.s.stats == e.stats.(idFlushes := e.stats.idFlushes + Count(e.changePc))
        && f.s.idEx.ins == (!e.changePc && !IdWaits(cfg, e) && e.ifId.ins)
        && f.s.ifId.ins == if IdWaits(cfg, e) then e.ifId.ins else FetchEnds(e, latency)
  {
    hide IdStage, IfStage, IdWaits;
    IdCounts(cfg, e);
    WaitsDecoded(cfg, e);
    var d := IdStage(cfg, e);
    if d.Running? { IfCounts(cfg, ForIf(d.s), latency); }
  }

  // ---- the equation ----

  /** Each cycle so far retired an instruction, is paid by one on its way, or was lost; and the
      simulator's statistics agree. */
  ghost predicate Accounts(s: State, l: Losses) {
    && s.stats.cycle + Pending(s) == s.stats.instructions + InFlight(s) + l.Sum()
    && Counted(s, l)
  }

  ghost predicate Counted(s: State, l: Losses) {
    && s.stats.instructions + Count(s.maWb.ins) == l.commits
    && s.stats.exFlushes == l.redirects && s.stats.idFlushes == l.predictions
  }

  ghost predicate AccountsAtEx(x: State, l: Losses) {
    && x.data.mfc && x.data.readCounter == -1 && x.data.writeCounter == -1
    && x.stats.cycle == x.stats.instructions + Count(x.maWb.ins) + Count(x.idEx.ins) + Count(x.ifId.ins) + l.Sum()
    && Counted(x, l)
  }

  lemma FrontAccounts(cfg: Config, x: State, e: State, f: State, t: State, latency: nat, l: Losses)
    requires AccountsAtEx(x, l) && e.exMa.ins == x.idEx.ins
    requires e.maWb == x.maWb && e.data == x.data && e.stats == x.stats && e.ifId == x.ifId
    requires f.exMa == e.exMa && f.maWb == e.maWb && f.data == e.data
    requires f.stats == e.stats.(idFlushes := e.stats.idFlushes + Count(e.changePc))
    requires f.idEx.ins == (!e.changePc && !IdWaits(cfg, e) && e.ifId.ins)
    requires f.ifId.ins == if IdWaits(cfg, e) then e.ifId.ins else FetchEnds(e, latency)
    requires t == f.(stats := f.stats.(cycle := f.stats.cycle + 1), flags := t.flags)
    ensures Accounts(t, l.Plus(FrontLoss(cfg, e, latency)))
  {
    WaitsDecoded(cfg, e);
    hide IdWaits, FetchEnds;
  }

  /** The stalls of EX. */
  lemma HeldAccounts(x: State, t: State, l: Losses, held: Losses)
    requires AccountsAtEx(x, l) && held.Sum() == 1 && held.commits == held.redirects == held.predictions == 0
    requires t.exMa == EMPTY_EX_MA && t.maWb == x.maWb && t.idEx.ins == x.idEx.ins && t.ifId == x.ifId
    requires t.stats == x.stats.(cycle := x.stats.cycle + 1)
    ensures Accounts(t, l.Plus(held))
  {
  }

  /** What EX hands on. */
  lemma ExCounts(cfg: Config, x: State, b: Arch)
    requires AtEx(cfg, x, b) && ExStage(x).Running?
    ensures var e := ExStage(x).s;
      && e == x.(flags := e.flags, exMa := e.exMa) && e.exMa.ins == x.idEx.ins
      && (e.flags.trap <==> x.flags.trap || x.idEx.ex.system.Ecall?) && e.flags.trapCounter == x.flags.trapCounter
      && (!e.flags.trap ==> (e.flags.forwardingStall <==> NeedsStall(x)))
      && FetchState(e) && HistoryMatches(e) && (!e.flags.forwardingStall ==> QuietFlags(e))
      && (e.flags.trap ==> !e.flags.forwardingStall)
  {
    ExKeeps(x);
    ExFlags(cfg, x, b);
    if x.idEx.ex.system.NoCall? { ExSlot(x); }
    hide ExStage, YoungerMatch, WriteBack, NeedsStall, OperandCurrent, ForwardEx, Execute, OrZero;
  }

  lemma HeldShape(cfg: Config, x: State, latency: nat)
    requires ExStage(x).Running? && ExStage(x).s.flags.trap && x.flags.trapCounter != 0
    ensures var t := AfterMa(cfg, x, latency);
      && t.Running? && t.s.exMa == EMPTY_EX_MA && t.s.maWb == x.maWb && t.s.idEx == x.idEx && t.s.ifId == x.ifId
      && t.s.stats == x.stats.(cycle := x.stats.cycle + 1)
  {
    ExKeeps(x);
    hide ExStage, FrontEnd, FinishTrap;
  }

  lemma AfterMaAccounts(cfg: Config, x: State, b: Arch, latency: nat, l: Losses)
    requires AtEx(cfg, x, b) && AccountsAtEx(x, l) && 1 <= latency
    ensures var t := AfterMa(cfg, x, latency);
      t.Running? || t.Halted? ==> Accounts(t.s, l.Plus(ExLoss(cfg, x, latency)))
  {
    ExPauses(cfg, x, b);
    if ExStage(x).Running? {
      ExCounts(cfg, x, b);
      var e := ExStage(x).s;
      var t := AfterMa(cfg, x, latency);
      if e.flags.trap && e.flags.trapCounter != 0 {
        HeldShape(cfg, x, latency);
        HeldAccounts(x, t.s, l, NO_LOSSES.(ecalls := 1));
      } else if e.flags.forwardingStall {
        StallShape(cfg, x, latency);
        HeldAccounts(x, t.s, l, NO_LOSSES.(operands := 1));
      } else {
        RunsAccounts(cfg, x, latency, l);
      }
    } else {
      PausedOutcome(cfg, x, latency);
    }
    hide ExStage, FrontEnd, AfterMa, AtEx, NeedsStall, FrontLoss, Accounts, AccountsAtEx;
  }

  lemma RunsAccounts(cfg: Config, x: State, latency: nat, l: Losses)
    requires AccountsAtEx(x, l) && 1 <= latency && ExStage(x).Running?
    requires var e := ExStage(x).s;
      && e == x.(flags := e.flags, exMa := e.exMa) && e.exMa.ins == x.idEx.ins
          && e.flags.trapCounter == x.flags.trapCounter
      && FetchState(e) && HistoryMatches(e) && QuietFlags(e) && (e.flags.trap ==> e.flags.trapCounter == 0)
    ensures var t := AfterMa(cfg, x, latency);
      t.Running? || t.Halted? ==> Accounts(t.s, l.Plus(FrontLoss(cfg, ExStage(x).s, latency)))
  {
    var e := ExStage(x).s;
    FrontCounts(cfg, e, latency);
    FrontEndOutcome(cfg, e, latency);
    if e.flags.trap { PendingShape(cfg, x, latency); } else { PlainShape(cfg, x, latency); }
    var f, t := FrontEnd(cfg, e, latency), AfterMa(cfg, x, latency);
    if f.Running? {
      FinishKeeps(f.s);
      FinishStats(f.s);
      FrontAccounts(cfg, x, e, f.s, t.s, latency, l);
    }
    hide ExStage, FrontEnd, AfterMa, FinishTrap, IdWaits, FetchEnds, FrontLoss, Accounts, AccountsAtEx;
  }

  lemma FinishStats(f: State)
    ensures FinishTrap(f).s.stats == f.stats.(cycle := f.stats.cycle + 1)
  {
  }

  // ---- a cycle ----

  lemma MaStats(s: State, m: State)
    requires OnlyMa(WbStage(s), m)
    ensures m.stats == s.stats.(instructions := s.stats.instructions + Count(s.maWb.ins))
    ensures m.idEx == s.idEx && m.ifId == s.ifId && m.exMa == s.exMa
  {
    hide WriteBack;
  }

  /** What a completing MA leaves, as far as accounting is concerned. */
  lemma MaLeaves(cfg: Config, s: State, a: Arch, m: State)
    requires Inv(cfg, s, a) && MaResult(cfg, s, m, a) && m.data.mfc
    ensures Idle(m.data) && m.flags.flush == Redirects(s.exMa) && m.maWb.ins == s.exMa.ins && OnlyMa(WbStage(s), m)
  {
    hide YoungerMatch, ExMaMatches, WriteBack, WbStage, OnlyMa, Redirects;
  }

  lemma MaAccounts(cfg: Config, s: State, a: Arch, m: State, latency: nat, l: Losses)
    requires Inv(cfg, s, a) && Accounts(s, l) && MaResult(cfg, s, m, a) && m.data.mfc && 1 <= latency
    requires Pending(s) + AccessLoss(s, latency).data == 0
    ensures AccountsAtEx(ForEx(m), l.Plus(AccessLoss(s, latency)).Plus(MaLoss(s)))
  {
    MaLeaves(cfg, s, a, m);
    MaStats(s, m);
    hide Inv, MaResult, WbStage, OnlyMa, Pending, Redirects;
  }

  lemma WaitAccounts(s: State, m: State, latency: nat, l: Losses)
    requires Accounts(s, l) && OnlyMa(WbStage(s), m) && 1 <= latency
    requires Pending(s) + AccessLoss(s, latency).data == 1 + Pending(m)
    ensures Accounts(Tick(UpdateOperands(m.(maWb := EMPTY_MA_WB))), l.Plus(AccessLoss(s, latency)))
  {
    MaStats(s, m);
    hide WbStage, OnlyMa;
  }

  lemma PlusNothing(l: Losses)
    ensures l.Plus(NO_LOSSES) == l
  {
  }

  lemma PlusThree(l: Losses, a: Losses, b: Losses, c: Losses)
    ensures l.Plus(a).Plus(b).Plus(c) == l.Plus(a.Plus(b.Plus(c)))
  {
  }

  lemma {:induction false} CycleAccounts(cfg: Config, s: State, a: Arch, latency: Latency, l: Losses)
    requires Inv(cfg, s, a) && latency.Valid() && Accounts(s, l)
    ensures var t := Cycle(cfg, s, latency);
      t.Running? || t.Halted? ==> Accounts(t.s, l.Plus(CycleLoss(cfg, s, latency)))
  {
    hide MaStage, WbStage, AfterMa, AtEx, Inv, MaResult, Accounts, AccountsAtEx, Losses.Plus, AccessLoss, MaLoss,
         ExLoss, Pending, OnlyMa, Step;
    OlderData(cfg, s, a);
    MaStageCorrect(cfg, s, a, latency.data);
    MaClock(cfg, s, latency.data);
    var r := MaStage(cfg, WbStage(s), latency.data);
    var start := AccessLoss(s, latency.data);
    if r.Running? {
      if r.s.data.mfc {
        MaAccounts(cfg, s, a, r.s, latency.data, l);
        if r.s.flags.flush { FlushReachesEx(cfg, s, r.s, a); } else { NoFlushReachesEx(cfg, s, r.s, a); }
        AfterMaAccounts(cfg, ForEx(r.s), After(cfg, s.exMa.ins, a), latency.fetch, l.Plus(start).Plus(MaLoss(s)));
        PlusThree(l, start, MaLoss(s), ExLoss(cfg, ForEx(r.s), latency.fetch));
      } else {
        OnlyByMa(cfg, s, r.s, a);
        WaitAccounts(s, r.s, latency.data, l);
        PlusNothing(start);
      }
    }
  }

  lemma OlderData(cfg: Config, s: State, a: Arch)
    requires Inv(cfg, s, a)
    ensures OlderMatch(cfg, s, a) && DataState(s.data, s.exMa.ma.mem)
  {
    hide YoungerMatch, ExMaMatches, WriteBack;
  }

  lemma OnlyByMa(cfg: Config, s: State, m: State, a: Arch)
    requires MaResult(cfg, s, m, a)
    ensures OnlyMa(WbStage(s), m)
  {
    hide OnlyMa, WbStage;
  }

  // ---- whole runs ----

  lemma InitialAccounts(a: Arch)
    ensures Accounts(Initial(a), NO_LOSSES)
  {
  }

  /** The cycles of any run, whatever the latencies: one for each instruction retired or on its way, and
      the losses, in which each data access that starts with latency L counts L - 1, less what the one
      outstanding still has to wait. The simulator's counts of instructions and flushes are right. */
  lemma {:induction false} CycleEquation(cfg: Config, a: Arch, latencies: seq<Latency>)
    requires WordAlignedText(cfg.limits) && a.regs[0] == 0 && ValidLatencies(latencies)
    ensures var r, l := Run(cfg, Initial(a), latencies), RunLosses(cfg, Initial(a), latencies);
      r.Running? || r.Halted? ==>
        && r.s.stats.cycle + Pending(r.s) == r.s.stats.instructions + InFlight(r.s) + l.Sum()
        && r.s.stats.instructions + Count(r.s.maWb.ins) == l.commits
        && r.s.stats.exFlushes == l.redirects && r.s.stats.idFlushes == l.predictions
    decreases |latencies|
  {
    hide Cycle, Inv, CycleLoss, Pending, InFlight, Losses.Sum, Losses.Plus, Step, Trace, Legal, WrittenBack, Log;
    if latencies == [] {
      InitialAccounts(a);
    } else {
      var k := |latencies| - 1;
      var prefix := latencies[..k];
      assert latencies[k] in latencies;
      CycleEquation(cfg, a, prefix);
      Refinement(cfg, a, prefix);
      var r := Run(cfg, Initial(a), prefix);
      if r.Running? {
        CycleAccounts(cfg, r.s, Steps(cfg, a, |Log(cfg, Initial(a), prefix)|), latencies[k],
            RunLosses(cfg, Initial(a), prefix));
      }
    }
  }

  /** The commits are the log. */
  lemma {:induction false} CommitsAreLog(cfg: Config, s: State, latencies: seq<Latency>)
    requires ValidLatencies(latencies)
    ensures RunLosses(cfg, s, latencies).commits == |Log(cfg, s, latencies)|
    decreases |latencies|
  {
    hide CycleLoss, Commits, CommitOf, Cycle;
    if latencies != [] {
      var k := |latencies| - 1;
      assert latencies[k] in latencies;
      CommitsAreLog(cfg, s, latencies[..k]);
      var r := Run(cfg, s, latencies[..k]);
      if r.Running? { OneCommit(cfg, r.s, latencies[k]); }
    }
  }

  lemma OneCommit(cfg: Config, s: State, latency: Latency)
    requires latency.Valid()
    ensures CycleLoss(cfg, s, latency).commits == Count(Commits(cfg, s, latency))
  {
    hide MaStage, WbStage, NeedsStall, FrontLoss, ExStage;
    FrontCommits(cfg, s, latency);
  }

  lemma FrontCommits(cfg: Config, s: State, latency: Latency)
    ensures AtExOf(cfg, s, latency).Some? ==> ExLoss(cfg, AtExOf(cfg, s, latency).value, latency.fetch).commits == 0
  {
    hide MaStage, WbStage, NeedsStall, IdWaits, FetchEnds, ExStage;
  }

  // ---- how long one access takes ----

  /** The access of slot x is outstanding and has `left` more cycles to wait after the coming one. */
  predicate Outstanding(s: State, x: ExMa, left: int) {
    s.exMa == x
    && match x.ma.mem
       case NoMem => false
       case Read(_) => s.data.readCounter == left
       case Write(_) => s.data.writeCounter == left
  }

  lemma StaysOutstanding(cfg: Config, s: State, latency: Latency)
    requires DataState(s.data, s.exMa.ma.mem) && latency.Valid() && !s.exMa.ma.mem.NoMem?
    ensures var wait := if Starts(s) then latency.data - 1 else Pending(s);
      && (DataEnds(s, latency.data) <==> wait == 0)
      && (wait > 0 ==>
            var t := Cycle(cfg, s, latency); t.Running? && Outstanding(t.s, s.exMa, wait - 1) && !t.s.data.mfc)
  {
    MaClockPort(cfg, s, latency.data);
    MaEnds(cfg, s, latency.data);
    hide MaStage, WbStage, AfterMa, SlotFaults;
  }

  lemma MaClockPort(cfg: Config, s: State, latency: nat)
    requires DataState(s.data, s.exMa.ma.mem) && 1 <= latency && !s.exMa.ma.mem.NoMem?
    ensures var m := MaStage(cfg, WbStage(s), latency);
      var wait := if Starts(s) then latency - 1 else Pending(s);
      m.Running? && !m.s.data.mfc ==> Outstanding(m.s, s.exMa, wait - 1) && wait > 0
  {
    var w := WbStage(s);
    WbFrame(s);
    hide WbStage, WriteBack, ForwardMa, ReadMemory, WriteMemory, ResolveTransfer;
    match s.exMa.ma.mem {
      case Read(op) => ReadClock(w.ram, w.data.(mar := w.exMa.result), op, latency);
      case Write(op) =>
        var data := ForwardMa(w, w.exMa.r2, w.exMa.nrs2);
        WriteClock(cfg.limits, w.ram, w.data.(mbr := data, mar := w.exMa.result), op, latency);
      case NoMem =>
    }
  }

  /** A data access that starts in cycle i of a run with latency L goes on until cycle i + L - 1, which
      is the one in which MA commits it or ends the program; in each cycle before the run goes on. */
  lemma {:induction false} AccessLasts(cfg: Config, a: Arch, latencies: seq<Latency>, i: nat, j: nat)
    requires WordAlignedText(cfg.limits) && a.regs[0] == 0 && ValidLatencies(latencies)
    requires i <= j < |latencies| && j < i + latencies[i].data
    requires Run(cfg, Initial(a), latencies[..i]).Running? && Starts(Run(cfg, Initial(a), latencies[..i]).s)
    ensures var r := Run(cfg, Initial(a), latencies[..j]); var L := latencies[i].data;
      && r.Running? && r.s.exMa == Run(cfg, Initial(a), latencies[..i]).s.exMa
      && (j > i ==> Outstanding(r.s, r.s.exMa, i + L - 1 - j) && !r.s.data.mfc)
      && (DataEnds(r.s, latencies[j].data) <==> j == i + L - 1)
    decreases j
  {
    hide Inv, Cycle, Step, Trace, Legal, WrittenBack, Log, Initial;
    var s := Run(cfg, Initial(a), latencies[..i]).s;
    assert latencies[j] in latencies;
    if j > i {
      AccessLasts(cfg, a, latencies, i, j - 1);
      assert latencies[j - 1] in latencies && latencies[..j][..j - 1] == latencies[..j - 1];
      var r := Run(cfg, Initial(a), latencies[..j - 1]);
      PrefixData(cfg, a, latencies, j - 1);
      StaysOutstanding(cfg, r.s, latencies[j - 1]);
    }
    PrefixData(cfg, a, latencies, j);
    StaysOutstanding(cfg, Run(cfg, Initial(a), latencies[..j]).s, latencies[j]);
  }

  lemma PrefixData(cfg: Config, a: Arch, latencies: seq<Latency>, j: nat)
    requires WordAlignedText(cfg.limits) && a.regs[0] == 0 && ValidLatencies(latencies) && j <= |latencies|
    requires Run(cfg, Initial(a), latencies[..j]).Running?
    ensures var s := Run(cfg, Initial(a), latencies[..j]).s; DataState(s.data, s.exMa.ma.mem)
  {
    Refinement(cfg, a, latencies[..j]);
    var s := Run(cfg, Initial(a), latencies[..j]).s;
    OlderData(cfg, s, Steps(cfg, a, |Log(cfg, Initial(a), latencies[..j])|));
    hide Inv, Run, Log, Steps;
  }
}
