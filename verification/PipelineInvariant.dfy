/** The invariant that ties every pipeline register to a position in the sequential execution. */
module PipelineInvariant {
  import opened Wrappers
  import opened Words
  import opened Alu
  import opened Control
  import opened Dram
  import opened Machine
  import opened Pipeline

  /** A slot without effects: a bubble or an ecall. */
  predicate Inert(x: ExMa) {
    !x.wb && x.ma.mem.NoMem? && x.ma.transfer.NoTransfer?
  }

  /** The EX/MA slot makes MA flush the younger stages. */
  predicate Redirects(x: ExMa) {
    x.ma.transfer.JumpTransfer? || (x.ma.transfer.BranchTransfer? && x.ma.actual != x.ma.predicted)
  }

  /** The next instruction of `a` will make MA flush the younger stages. */
  predicate WillRedirect(cfg: Config, a: Arch) {
    var ma := CurrentSignals(cfg, a).ma;
    || ma.transfer.JumpTransfer?
    || (ma.transfer.BranchTransfer? && CurrentExecuted(cfg, a).taken != ma.predicted)
  }

  /** The EX/MA slot holds what EX computes for the next instruction of `a`. */
  ghost predicate ExMaMatches(cfg: Config, x: ExMa, a: Arch) {
    if !x.ins then Inert(x)
    else
      var c, e, ir := CurrentSignals(cfg, a), CurrentExecuted(cfg, a), CurrentWord(a);
      Fetchable(cfg, a)
      && if c.ex.system.Ecall? then Inert(x)
         else
           && x.wb == c.wb && x.nrd == Rd(ir) && x.result == e.result && x.pcNext == e.target
           && x.ma == c.ma.(actual := e.taken)
           && (IsStore(c.ma) ==> x.nrs2 == Rs2Of(ir) && x.r2 == a.regs[Rs2Of(ir)])
  }

  /** The ID/EX slot holds the decoded next instruction of `a`; its operands are checked elsewhere. */
  ghost predicate IdExMatches(cfg: Config, i: IdEx, a: Arch) {
    i.ins ==>
      && Fetchable(cfg, a)
      && var d := DecodedSlot(CurrentSignals(cfg, a), IfId(CurrentWord(a), a.pc, Following(a.pc), true), a.regs);
         i == d.(r1 := i.r1, r2 := i.r2)
  }

  /** The front end will deliver the next instruction of `a`. */
  ghost predicate FrontMatches(cfg: Config, s: State, a: Arch) {
    if s.changePc then s.jumpPc == a.pc
    else if s.ifId.ins then
      && s.ifId == IfId(CurrentWord(a), a.pc, Following(a.pc), true)
      && FetchAllowed(cfg.limits, Address(a.pc))
      && s.pc == Following(a.pc)
    else s.pc == a.pc
  }

  function After(cfg: Config, ins: bool, a: Arch): Arch { if ins then Step(cfg, a) else a }

  /** Everything behind the EX/MA slot, unless that slot is about to squash it. */
  ghost predicate YoungerMatch(cfg: Config, s: State, a: Arch) {
    && IdExMatches(cfg, s.idEx, a)
    && (!(s.idEx.ins && WillRedirect(cfg, a)) ==> FrontMatches(cfg, s, After(cfg, s.idEx.ins, a)))
  }

  /** An ecall between its two EX cycles, or one whose completion waits for a fetch.
      In the second case at most one younger instruction has been decoded. */
  predicate TrapState(s: State) {
    || (s.flags.trapCounter == -1 && !s.flags.trap)
    || (s.flags.trapCounter == 0 && !s.flags.trap && s.idEx.ins && s.idEx.ex.system.Ecall? && !s.exMa.ins)
    || (s.flags.trapCounter == 0 && s.flags.trap && (s.idEx.ins ==> Inert(s.exMa) && !s.ifId.ins))
  }

  /** Facts about the globals that hold on every path, right or wrong. */
  predicate FetchState(s: State) {
    && s.fetch.counter >= -1 && (s.fetch.mfc <==> s.fetch.counter == -1) && (!s.fetch.mfc ==> s.fetch.mar == s.pc)
    && (!s.ifId.ins ==> s.ifId == EMPTY_IF_ID)
    && (!s.idEx.ins ==> s.idEx == EMPTY_ID_EX)
  }

  predicate DataState(d: DataPort, mem: MemAccess) {
    && d.readCounter >= -1 && d.writeCounter >= -1
    && (d.mfc <==> d.readCounter == -1 && d.writeCounter == -1)
    && (d.readCounter >= 0 ==> mem.Read?)
    && (d.writeCounter >= 0 ==> mem.Write?)
  }

  predicate QuietFlags(s: State) {
    !s.flags.flush && !s.flags.forwardingStall && !s.flags.hazardStall
  }

  /** Operands in ID/EX are current. An ecall has none. */
  predicate FreshOperands(s: State) {
    s.idEx.ex.system.NoCall? ==>
      s.idEx.r1 == s.regs[s.idEx.nrs1] && s.idEx.r2 == s.regs[s.idEx.nrs2]
  }

  /** The last written-back slot agrees with the register file. */
  predicate HistoryMatches(s: State) {
    s.regs[0] == 0 && (s.wbIf.wb && s.wbIf.nrd != 0 ==> s.regs[s.wbIf.nrd] == s.wbIf.result)
  }

  /** The write-back side: `a` is the sequential state just before the instruction in EX/MA. */
  ghost predicate OlderMatch(cfg: Config, s: State, a: Arch) {
    && DataState(s.data, s.exMa.ma.mem) && HistoryMatches(s) && !s.flags.flush
    && a.regs == WriteBack(s.regs, s.maWb.wb, s.maWb.nrd, s.maWb.result)
    && a.ram == s.ram
    && ExMaMatches(cfg, s.exMa, a)
  }

  /** All but the interlock flag and the ecall bookkeeping. */
  ghost predicate CoreInv(cfg: Config, s: State, a: Arch) {
    && OlderMatch(cfg, s, a)
    && FetchState(s) && !s.flags.forwardingStall && FreshOperands(s)
    && (!Redirects(s.exMa) ==> YoungerMatch(cfg, s, After(cfg, s.exMa.ins, a)))
  }

  ghost predicate Inv(cfg: Config, s: State, a: Arch) {
    CoreInv(cfg, s, a) && !s.flags.hazardStall && TrapState(s)
  }

  lemma InitialInv(cfg: Config, a: Arch)
    requires a.regs[0] == 0
    ensures Inv(cfg, Initial(a), a)
  {
  }

  /** The combinations of signals that the decoder can produce. */
  predicate Shape(c: CuOutput) {
    && !c.ma.actual
    && (!c.ma.mem.NoMem? ==> c.ma.transfer.NoTransfer? && c.ex.source1.Rs1? && c.ex.source2.Imm?
                             && c.ex.typ.Arithmetic? && c.ex.system.NoCall?)
    && (c.ma.mem.Write? ==> !c.wb)
    && (c.ma.transfer.JumpTransfer? ==> c.ex.typ.BranchCompare? && c.ex.branch.Jump? && c.ex.system.NoCall?)
    && (c.ma.transfer.BranchTransfer? ==> c.ex.typ.BranchCompare? && !c.ex.branch.Jump? && c.ex.arith.Add?
                                          && c.format == Format.B && !c.wb && c.ex.system.NoCall?)
    && (c.ma.transfer.NoTransfer? ==> !c.ex.typ.BranchCompare?)
    && (!c.ex.system.NoCall? ==> !c.wb && c.ma == IDLE_MA)
  }

  lemma DecodeShape(strategy: Strategy, ir: Word)
    requires Decode(strategy, ir).Some?
    ensures Shape(Decode(strategy, ir).value)
  {
  }

  lemma ZeroWordIsBubble(strategy: Strategy)
    ensures Decode(strategy, 0) == Some(BUBBLE)
    ensures Rs1Of(0) == 0 && Rs2Of(0) == 0 && Rd(0) == 0
  {
  }
}
