/** Exact cycle accounting with ideal memory and forwarding. */
module PipelineTiming {
  import opened Wrappers
  import opened Words
  import opened Alu
  import opened Control
  import opened Dram
  import opened Machine
  import opened Pipeline
  import opened PipelineInvariant
  import opened PipelineProof
  import opened PipelineRefinement

  const IDEAL := Latency(1, 1)

  function IdealMemory(n: nat): (l: seq<Latency>)
    ensures |l| == n && ValidLatencies(l)
  {
    seq(n, _ => IDEAL)
  }

  function Count(b: bool): nat { if b then 1 else 0 }

  /** Instructions in the four pipeline registers. */
  function InFlight(s: State): nat {
    Count(s.maWb.ins) + Count(s.exMa.ins) + Count(s.idEx.ins) + Count(s.ifId.ins)
  }

  predicate TakenPrediction(ma: MaControl) { ma.transfer.BranchTransfer? && ma.predicted }

  /** The cycle lost to a taken prediction, until MA has seen whether it was right. */
  function Unsettled(s: State): nat { Count(TakenPrediction(s.exMa.ma)) }

  // ---- the events that cost cycles ----

  /** The state in which EX of the coming cycle runs. */
  function ExState(cfg: Config, s: State): Option<State> {
    match MaStage(cfg, WbStage(s), 1)
    case Running(m) => Some(ForEx(m))
    case _ => None
  }

  predicate LoadUseStall(cfg: Config, s: State) {
    ExState(cfg, s).Some? && s.flags.trapCounter == -1
    && var e := ExState(cfg, s).value; e.idEx.ex.system.NoCall? && NeedsStall(e)
  }

  predicate EcallStall(cfg: Config, s: State) {
    ExState(cfg, s).Some? && s.flags.trapCounter == -1 && ExState(cfg, s).value.idEx.ex.system.Ecall?
  }

  /** MA meets a branch that was predicted taken and is. */
  predicate RightlyTaken(s: State) { TakenPrediction(s.exMa.ma) && s.exMa.ma.actual }

  datatype Ledger = Ledger(stalls: nat, ecalls: nat, rightlyTaken: nat)

  function Entries(cfg: Config, s: State, l: Ledger): Ledger {
    Ledger(l.stalls + Count(LoadUseStall(cfg, s)), l.ecalls + Count(EcallStall(cfg, s)),
           l.rightlyTaken + Count(RightlyTaken(s)))
  }

  /** The events of the first n cycles of a run with ideal memory. */
  function Events(cfg: Config, s: State, n: nat): Ledger {
    if n == 0 then Ledger(0, 0, 0)
    else
      match Run(cfg, s, IdealMemory(n - 1))
      case Running(t) => Entries(cfg, t, Events(cfg, s, n - 1))
      case _ => Events(cfg, s, n - 1)
  }

  // ---- the invariant ----

  predicate Ports(s: State) { s.fetch.mfc && s.data.mfc && !s.flags.trap }

  predicate Predicting(s: State) {
    s.changePc <==> s.idEx.ins && TakenPrediction(s.idEx.ma)
  }

  /** IF never waits, ID marks taken predictions, and a transfer in EX/MA has its successor in
      ID/EX unless it was predicted taken. */
  predicate Steady(s: State) {
    && Ports(s) && Predicting(s)
    && (s.ifId.ins || (!s.maWb.ins && !s.exMa.ins && !s.idEx.ins && s.stats.cycle == 0))
    && (!s.exMa.ma.transfer.NoTransfer? ==> s.exMa.ins && s.ifId.ins && (s.idEx.ins <==> !TakenPrediction(s.exMa.ma)))
  }

  ghost predicate Balanced(s: State, l: Ledger) {
    s.stats.cycle == s.stats.instructions + InFlight(s) + Unsettled(s)
                     + l.stalls + l.ecalls + l.rightlyTaken + 2 * s.stats.exFlushes
  }

  // ---- one cycle ----

  /** ID keeps a taken prediction pending exactly while its branch is in ID/EX. */
  lemma IdPredicts(cfg: Config, e: State)
    requires cfg.forwarding && FetchState(e) && !e.flags.flush && !e.flags.hazardStall
    ensures var d := IdStage(cfg, e);
      d.Running? ==>
        && (d.s.flags.flush <==> e.changePc) && !d.s.flags.hazardStall
        && d.s.exMa == e.exMa && d.s.maWb == e.maWb && d.s.data == e.data && d.s.stats == e.stats
        && (e.changePc ==> !d.s.changePc) && (!e.changePc ==> (d.s.idEx.ins <==> e.ifId.ins) && Predicting(d.s))
  {
    hide Decode, RegisterField, GenerateImmediate, BranchTarget;
    if !e.changePc {
      if !e.ifId.ins { ZeroWordIsBubble(cfg.strategy); }
      if Decode(cfg.strategy, e.ifId.ir).Some? { DecodeShape(cfg.strategy, e.ifId.ir); }
    }
  }

  /** An idle fetch port with latency 1 delivers in the same cycle. */
  lemma IfDeliversAtOnce(cfg: Config, d: State)
    requires d.fetch.mfc && d.fetch.counter == -1
    ensures var f := IfStage(cfg, d, 1);
      f.Running? ==> f.s.fetch.mfc && f.s.ifId.ins && f.s == d.(pc := f.s.pc, ifId := f.s.ifId, fetch := f.s.fetch)
  {
    hide WordAt, FetchAllowed, Address, Following;
  }

  lemma IdFetchPort(cfg: Config, e: State)
    requires e.fetch.mfc && e.fetch.counter == -1
    ensures var d := IdStage(cfg, e);
      d.Running? ==> ForIf(d.s).fetch.mfc && ForIf(d.s).fetch.counter == -1
  {
    hide Decode, DecodedSlot, HazardStall, BranchTarget;
  }

  /** With ideal memory IF completes, and ID turns a taken prediction into one lost slot. */
  lemma IdealFront(cfg: Config, e: State)
    requires cfg.forwarding && FetchState(e) && e.fetch.mfc && !e.flags.flush && !e.flags.hazardStall
    ensures var f := FrontEnd(cfg, e, 1);
      f.Running? ==>
        && f.s.fetch.mfc && f.s.ifId.ins && !f.s.flags.hazardStall && !f.s.flags.flush
        && (f.s.idEx.ins <==> !e.changePc && e.ifId.ins) && Predicting(f.s)
        && f.s.stats == e.stats.(idFlushes := f.s.stats.idFlushes)
        && f.s.exMa == e.exMa && f.s.maWb == e.maWb && f.s.data == e.data
  {
    hide IdStage, IfStage;
    IdPredicts(cfg, e);
    IdFetchPort(cfg, e);
    var d := IdStage(cfg, e);
    if d.Running? { IfDeliversAtOnce(cfg, ForIf(d.s)); }
  }

  /** Balance of a state in which EX is about to run, with the cycle not yet counted. */
  ghost predicate BalancedAtEx(s: State, l: Ledger) {
    s.stats.cycle == s.stats.instructions + Count(s.maWb.ins) + Count(s.idEx.ins) + Count(s.ifId.ins)
                     + l.stalls + l.ecalls + l.rightlyTaken + 2 * s.stats.exFlushes
  }

  predicate SteadyAtEx(s: State) {
    && Ports(s) && Predicting(s) && !s.flags.flush
    && (s.ifId.ins || !s.idEx.ins)
  }

  /** The data access of a state with an idle port and latency 1 completes at once. */
  lemma MaAtOnce(cfg: Config, s: State)
    requires DataState(s.data, s.exMa.ma.mem) && s.data.mfc
    ensures var m := MaStage(cfg, WbStage(s), 1); (m.Running? || m.Aborted?) && (m.Running? ==> m.s.data.mfc)
  {
    hide WriteBack, LoadValue, StoreValue, LoadAllowed, StoreAllowed, Address, ForwardMa;
  }

  lemma MaStats(cfg: Config, s: State, m: State)
    requires OnlyMa(WbStage(s), m)
    ensures m.stats == (if s.maWb.ins then s.stats.(instructions := s.stats.instructions + 1) else s.stats)
    ensures m.idEx == s.idEx && m.ifId == s.ifId && m.exMa == s.exMa && m.changePc == s.changePc && m.fetch == s.fetch
    ensures m.flags == s.flags.(flush := m.flags.flush)
  {
    hide WriteBack;
  }

  /** WB and MA settle the account of the instruction in EX/MA. */
  lemma MaBalances(cfg: Config, s: State, a: Arch, l: Ledger)
    requires Inv(cfg, s, a) && Steady(s) && Balanced(s, l)
    ensures ExState(cfg, s).Some? ==>
      var e := ExState(cfg, s).value;
      && BalancedAtEx(e, l.(rightlyTaken := l.rightlyTaken + Count(RightlyTaken(s)))) && SteadyAtEx(e)
      && e.flags.trapCounter == s.flags.trapCounter
      && (s.flags.trapCounter != -1 ==> !e.maWb.ins)
  {
    hide WbStage, MaStage, OnlyMa, YoungerMatch, ExMaMatches, WriteBack;
    MaAtOnce(cfg, s);
    MaStageCorrect(cfg, s, a, 1);
    var r := MaStage(cfg, WbStage(s), 1);
    if r.Running? { MaStats(cfg, s, r.s); }
  }

  /** The stalls that the EX stage of this state causes. */
  function ExEntries(e: State, l: Ledger): Ledger {
    l.(stalls := l.stalls + Count(e.flags.trapCounter == -1 && e.idEx.ex.system.NoCall? && NeedsStall(e)),
       ecalls := l.ecalls + Count(e.flags.trapCounter == -1 && e.idEx.ex.system.Ecall?))
  }

  /** What EX leaves in its slot, as far as accounting is concerned. */
  lemma ExAccount(s: State, e: State)
    requires ExStage(s) == Running(e) && (!s.idEx.ins ==> s.idEx == EMPTY_ID_EX)
    requires s.idEx.ex.system.Ecall? ==> s.idEx.ins && Inert(s.exMa)
    ensures (e.exMa.ins <==> s.idEx.ins)
    ensures s.idEx.ex.system.NoCall? ==>
        e.exMa.ma.transfer == s.idEx.ma.transfer && e.exMa.ma.predicted == s.idEx.ma.predicted
    ensures s.idEx.ex.system.Ecall? ==> Inert(e.exMa)
    ensures e == s.(exMa := e.exMa, flags := e.flags)
    ensures e.flags == s.flags.(trap := s.flags.trap || s.idEx.ex.system.Ecall?,
                                forwardingStall := s.flags.forwardingStall
                                    || (s.idEx.ex.system.NoCall? && NeedsStall(s)))
  {
    ExKeeps(s);
    if s.idEx.ex.system.NoCall? { ExSlot(s); }
    hide Execute, ForwardEx, NeedsStall, ExStage, OrZero;
  }

  /** A cycle in which ID and IF run gains one instruction or settles one prediction. */
  lemma FrontBalances(s: State, e: State, f: State, t: State, l: Ledger)
    requires BalancedAtEx(s, l) && SteadyAtEx(s) && (!s.idEx.ins ==> s.idEx == EMPTY_ID_EX)
    requires e == s.(exMa := e.exMa, flags := e.flags)
    requires (e.exMa.ins <==> s.idEx.ins) && (s.ifId.ins || !s.idEx.ins)
    requires e.exMa.ma.transfer == s.idEx.ma.transfer
    requires TakenPrediction(e.exMa.ma) <==> TakenPrediction(s.idEx.ma)
    requires f.fetch.mfc && f.ifId.ins && (f.idEx.ins <==> !e.changePc && e.ifId.ins) && Predicting(f)
    requires f.stats == e.stats.(idFlushes := f.stats.idFlushes) && f.exMa == e.exMa && f.maWb == e.maWb
        && f.data == e.data
    requires t == f.(stats := f.stats.(cycle := f.stats.cycle + 1), flags := t.flags) && !t.flags.trap
    ensures Steady(t) && Balanced(t, l)
  {
  }

  lemma EcallIsIdle(cfg: Config, s: State, a: Arch)
    requires AtEx(cfg, s, a) && s.idEx.ex.system.Ecall?
    ensures s.idEx.ins && s.idEx.ma.transfer.NoTransfer?
    ensures s.flags.trapCounter != -1 ==> Inert(s.exMa)
  {
    hide WordAt, Decode, Step, RegisterField, CurrentExecuted, GenerateImmediate, WriteBack;
    if s.idEx.ins { DecodeShape(cfg.strategy, CurrentWord(a)); }
  }

  /** Everything the accounting needs to know about the state in which EX runs. */
  ghost predicate ExReady(cfg: Config, s: State, e: State, l: Ledger) {
    && cfg.forwarding && FetchState(s) && s.data.mfc && QuietFlags(s)
    && BalancedAtEx(s, l) && SteadyAtEx(s) && ExStage(s) == Running(e)
    && (s.idEx.ex.system.Ecall? ==> s.idEx.ins && s.idEx.ma.transfer.NoTransfer?)
    && (s.idEx.ex.system.Ecall? && s.flags.trapCounter != -1 ==> Inert(s.exMa))
    && (s.flags.trapCounter == -1 || s.flags.trapCounter == 0)
    && (s.flags.trapCounter == 0 ==> s.idEx.ex.system.Ecall?)
  }

  /** The first EX cycle of an ecall and a load-use stall cost one cycle each. */
  lemma HeldBack(cfg: Config, s: State, e: State, l: Ledger)
    requires ExReady(cfg, s, e, l) && s.flags.trapCounter == -1
    requires s.idEx.ex.system.Ecall? || (s.idEx.ex.system.NoCall? && NeedsStall(s))
    ensures var t := AfterMa(cfg, s, 1); t.Running? && Steady(t.s) && Balanced(t.s, ExEntries(s, l))
  {
    hide ExStage, FrontEnd, FinishTrap, NeedsStall;
    HeldBackFlags(s, e);
    if !s.idEx.ins { BubblesNeverStall(s); }
  }

  lemma BubblesNeverStall(s: State)
    requires s.idEx == EMPTY_ID_EX
    ensures !NeedsStall(s)
  {
  }

  lemma HeldBackFlags(s: State, e: State)
    requires ExStage(s) == Running(e) && QuietFlags(s) && !s.flags.trap
    ensures e == s.(exMa := e.exMa, flags := e.flags)
    ensures e.flags == s.flags.(trap := s.idEx.ex.system.Ecall?, forwardingStall := s.idEx.ex.system.NoCall?
        && NeedsStall(s))
  {
    hide Execute, ForwardEx, NeedsStall;
  }

  /** The rest of the cycle keeps the balance, and a halt finds the last slots filled. */
  ghost predicate Settles(s: State, t: Outcome, l: Ledger) {
    t.Running? || t.Halted? ==>
      && Steady(t.s) && Balanced(t.s, ExEntries(s, l))
      && (t.Halted? ==> s.flags.trapCounter == 0 && t.s.exMa.ins && t.s.ifId.ins && t.s.maWb == s.maWb && t.s.idEx.ins
                        && Unsettled(t.s) == 0)
  }

  lemma Advances(cfg: Config, s: State, e: State, l: Ledger)
    requires ExReady(cfg, s, e, l) && (s.flags.trapCounter == 0 || s.idEx.ex.system.NoCall?)
    requires s.idEx.ex.system.NoCall? ==> !NeedsStall(s)
    ensures Settles(s, AfterMa(cfg, s, 1), l)
  {
    HeldBackFlags(s, e);
    ExAccount(s, e);
    if s.idEx.ex.system.Ecall? { PendingShape(cfg, s, 1); } else { PlainShape(cfg, s, 1); }
    hide ExStage, FrontEnd, NeedsStall, AfterMa, FinishTrap, Settles;
    FrontEndOutcome(cfg, e, 1);
    var f := FrontEnd(cfg, e, 1);
    if f.Running? {
      FrontFacts(cfg, s, e, f.s);
      FinishKeeps(f.s);
      FinishStats(f.s);
      Moves(s, e, f.s, AfterMa(cfg, s, 1), l);
    } else {
      Gone(s, f, l);
    }
  }

  /** What ID and IF did, with one-cycle fetches. */
  ghost predicate Fronted(s: State, e: State, f: State) {
    && f.fetch.mfc && f.ifId.ins && !f.flags.hazardStall && (f.idEx.ins <==> !e.changePc && e.ifId.ins) && Predicting(f)
    && f.stats == e.stats.(idFlushes := f.stats.idFlushes) && f.exMa == e.exMa && f.maWb == e.maWb && f.data == e.data
    && f.flags.trap == e.flags.trap && f.flags.trapCounter == e.flags.trapCounter
  }

  lemma FrontFacts(cfg: Config, s: State, e: State, f: State)
    requires cfg.forwarding && FetchState(e) && e.fetch.mfc && !e.flags.flush && !e.flags.hazardStall
        && FrontEnd(cfg, e, 1) == Running(f)
    ensures Fronted(s, e, f)
  {
    hide FrontEnd;
    IdealFront(cfg, e);
    FrontEndFrame(cfg, e, 1);
  }

  lemma Gone(s: State, t: Outcome, l: Ledger)
    requires !t.Running? && !t.Halted?
    ensures Settles(s, t, l)
  {
  }

  lemma Moves(s: State, e: State, f: State, t: Outcome, l: Ledger)
    requires BalancedAtEx(s, l) && SteadyAtEx(s) && FetchState(s) && Fronted(s, e, f) && (t.Running? || t.Halted?)
    requires e == s.(exMa := e.exMa, flags := e.flags) && (e.exMa.ins <==> s.idEx.ins)
    requires if s.idEx.ex.system.Ecall?
        then Inert(e.exMa) && s.idEx.ins && s.idEx.ma.transfer.NoTransfer? && s.flags.trapCounter == 0
             else e.exMa.ma.transfer == s.idEx.ma.transfer && e.exMa.ma.predicted == s.idEx.ma.predicted && t.Running?
    requires !(s.flags.trapCounter == -1 && (s.idEx.ex.system.Ecall? || NeedsStall(s)))
    requires t.s == f.(stats := f.stats.(cycle := f.stats.cycle + 1), flags := t.s.flags) && !t.s.flags.trap
    ensures Settles(s, t, l)
  {
    FrontBalances(s, e, f, t.s, l);
    hide NeedsStall;
  }

  lemma FinishStats(f: State)
    ensures FinishTrap(f).s.stats == f.stats.(cycle := f.stats.cycle + 1)
  {
  }

  /** EX, ID and IF keep the balance. */
  lemma AfterMaBalances(cfg: Config, s: State, a: Arch, l: Ledger)
    requires cfg.forwarding && AtEx(cfg, s, a) && BalancedAtEx(s, l) && SteadyAtEx(s)
    ensures var t := AfterMa(cfg, s, 1);
      t.Running? || t.Halted? ==>
        Steady(t.s) && Balanced(t.s, ExEntries(s, l))
        && (t.Halted? ==> s.flags.trapCounter == 0 && t.s.exMa.ins && t.s.ifId.ins && t.s.maWb == s.maWb && t.s.idEx.ins
                          && Unsettled(t.s) == 0)
  {
    hide ExStage, FrontEnd, NeedsStall, YoungerMatch, WriteBack, Steady, Balanced, BalancedAtEx, SteadyAtEx;
    ExFrame(s);
    if ExStage(s).Running? {
      var e := ExStage(s).s;
      if s.idEx.ex.system.Ecall? { EcallIsIdle(cfg, s, a); }
      NoTrapPending(s, l);
      NotBreakpoint(s);
      if s.flags.trapCounter == -1 && (s.idEx.ex.system.Ecall? || NeedsStall(s)) {
        HeldBack(cfg, s, e, l);
      } else {
        Advances(cfg, s, e, l);
      }
    } else {
      PausedAtEx(cfg, s);
    }
  }

  lemma NoTrapPending(s: State, l: Ledger)
    requires SteadyAtEx(s) && TrapState(s)
    ensures s.flags.trapCounter == -1 || (s.flags.trapCounter == 0 && s.idEx.ex.system.Ecall?)
  {
  }

  lemma NotBreakpoint(s: State)
    requires ExStage(s).Running?
    ensures s.idEx.ex.system.NoCall? || s.idEx.ex.system.Ecall?
  {
  }

  lemma PausedAtEx(cfg: Config, s: State)
    requires ExStage(s).Paused?
    ensures AfterMa(cfg, s, 1).Paused?
  {
  }

  // ---- whole runs ----

  lemma CycleBalances(cfg: Config, s: State, a: Arch, l: Ledger)
    requires cfg.forwarding && WordAlignedText(cfg.limits) && Inv(cfg, s, a) && Steady(s) && Balanced(s, l)
    ensures var t := Cycle(cfg, s, IDEAL);
      t.Running? || t.Halted? ==>
        && Steady(t.s) && Balanced(t.s, Entries(cfg, s, l))
        && (t.Halted? ==> InFlight(t.s) == 3 && Unsettled(t.s) == 0)
  {
    hide MaStage, WbStage, AfterMa, YoungerMatch, OlderMatch, WriteBack, Steady, Balanced, BalancedAtEx, SteadyAtEx,
         NeedsStall, MaResult, AtEx, Inv;
    IdlePorts(cfg, s, a);
    MaAtOnce(cfg, s);
    MaBalances(cfg, s, a, l);
    MaStageCorrect(cfg, s, a, 1);
    var r := MaStage(cfg, WbStage(s), 1);
    if r.Running? {
      if r.s.flags.flush { FlushReachesEx(cfg, s, r.s, a); } else { NoFlushReachesEx(cfg, s, r.s, a); }
      AfterMaBalances(cfg, ForEx(r.s), After(cfg, s.exMa.ins, a),
          l.(rightlyTaken := l.rightlyTaken + Count(RightlyTaken(s))));
    }
  }

  lemma IdlePorts(cfg: Config, s: State, a: Arch)
    requires Inv(cfg, s, a) && Steady(s)
    ensures OlderMatch(cfg, s, a) && DataState(s.data, s.exMa.ma.mem) && s.data.mfc
  {
  }

  lemma {:induction false} RunBalances(cfg: Config, a: Arch, n: nat)
    requires cfg.forwarding && WordAlignedText(cfg.limits) && a.regs[0] == 0
    ensures var r := Run(cfg, Initial(a), IdealMemory(n));
      r.Running? || r.Halted? ==>
        && Steady(r.s) && Balanced(r.s, Events(cfg, Initial(a), n))
        && (r.Halted? ==> InFlight(r.s) == 3 && Unsettled(r.s) == 0)
  {
    hide Cycle, Inv, Steady, Balanced, Entries;
    if n == 0 {
      InitialBalance(a);
    } else {
      RunBalances(cfg, a, n - 1);
      assert IdealMemory(n)[..n - 1] == IdealMemory(n - 1);
      Refinement(cfg, a, IdealMemory(n - 1));
      var r := Run(cfg, Initial(a), IdealMemory(n - 1));
      if r.Running? {
        CycleBalances(cfg, r.s, Steps(cfg, a, |Log(cfg, Initial(a), IdealMemory(n - 1))|),
            Events(cfg, Initial(a), n - 1));
      }
    }
  }

  lemma InitialBalance(a: Arch)
    ensures Steady(Initial(a)) && Balanced(Initial(a), Ledger(0, 0, 0))
  {
  }

  /** With ideal memory and forwarding, a run that halts at its only ecall takes exactly
      retired + 4 + load-use stalls + 2 * EX flushes + rightly predicted taken branches cycles. */
  lemma CycleCount(cfg: Config, a: Arch, n: nat)
    requires cfg.forwarding && WordAlignedText(cfg.limits) && a.regs[0] == 0
    requires Run(cfg, Initial(a), IdealMemory(n)).Halted? && Events(cfg, Initial(a), n).ecalls == 1
    ensures var stats, l := Run(cfg, Initial(a), IdealMemory(n)).s.stats, Events(cfg, Initial(a), n);
      stats.cycle == stats.instructions + 4 + l.stalls + 2 * stats.exFlushes + l.rightlyTaken
  {
    hide Run, Events, Steady, InFlight, Unsettled;
    RunBalances(cfg, a, n);
  }
}
