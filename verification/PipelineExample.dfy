/** A program whose ecall halts when fetches are quick and is passed by when one is slow
    (src/execution/simulator.c:193-256). */
module PipelineExample {
  import opened Wrappers
  import opened Words
  import opened Alu
  import opened Control
  import opened Dram
  import opened Machine
  import opened Pipeline
  import opened PipelineProof
  import opened PipelineTiming

  /** ecall; addi x17, x0, 1; and bubbles. */
  function Image(): Ram { [0x73, 0, 0, 0, 0x93, 0x08, 0x10, 0] + seq(24, _ => 0) }

  function Zeros(): Registers { seq(32, _ => 0) }

  function Start(): Arch { Arch(0, Zeros(), Image()) }

  const SETTING := Config(Limits(31, 31), true, NotTaken)

  const ADDI_WORD: Word := 0x0010_0893

  const SLOW := Latency(4, 1)

  // ---- facts about words ----

  lemma Bytes()
    ensures |Image()| == 32 && Image()[0] == 0x73 && Image()[1] == 0 && Image()[2] == 0 && Image()[3] == 0
    ensures Image()[4] == 0x93 && Image()[5] == 0x08 && Image()[6] == 0x10 && Image()[7] == 0
    ensures forall i | 8 <= i < 32 :: Image()[i] == 0
  {
  }

  lemma Joined()
    ensures forall r: Ram, i: nat | ByteAt(r, i) == 0x73 && ByteAt(r, i + 1) == 0 && ByteAt(r, i + 2) == 0
        && ByteAt(r, i + 3) == 0 ::
      WordAt(r, i) == 0x73
    ensures forall r: Ram, i: nat | ByteAt(r, i) == 0x93 && ByteAt(r, i + 1) == 0x08 && ByteAt(r, i + 2) == 0x10
        && ByteAt(r, i + 3) == 0 ::
      WordAt(r, i) == ADDI_WORD
  {
  }

  lemma Fetched()
    ensures WordAt(Image(), 0) == 0x73 && WordAt(Image(), 4) == ADDI_WORD
  {
    Bytes();
    Joined();
  }

  lemma Addresses()
    ensures Address(0) == 0 && Address(4) == 4 && Address(8) == 8 && Address(12) == 12
    ensures Following(0) == 4 && Following(4) == 8 && Following(8) == 12
  {
  }

  lemma Decoded()
    ensures Decode(NotTaken, 0) == Some(BUBBLE) && Decode(NotTaken, 0x73) == Some(SystemSignals(Ecall))
    ensures Decode(NotTaken, ADDI_WORD) == Some(ArithSignals(Format.I, Imm, Add))
  {
  }

  lemma Fields()
    ensures Rd(0) == 0 && Rs1Of(0) == 0 && Rs2Of(0) == 0 && Rd(0x73) == 0 && Rs1Of(0x73) == 0 && Rs2Of(0x73) == 0
    ensures Rd(ADDI_WORD) == 17 && Rs1Of(ADDI_WORD) == 0 && Rs2Of(ADDI_WORD) == 1
    ensures GenerateImmediate(NoFormat, 0) == 0 && GenerateImmediate(NoFormat, 0x73) == 0
        && GenerateImmediate(Format.I, ADDI_WORD) == 1
  {
  }

  lemma SumZero()
    ensures ArithmeticUnit(0, 0, Add) == 0 && ArithmeticUnit(0, 1, Add) == 1
  {
  }

  // ---- one stage at a time ----

  /** Nothing to write back, nothing in memory. */
  lemma QuietBack(s: State, latency: nat)
    requires s.maWb == EMPTY_MA_WB && s.exMa == EMPTY_EX_MA && s.data.mfc
    ensures MaStage(SETTING, WbStage(s), latency) == Running(s.(recentWb := s.wbIf, wbIf := EMPTY_MA_WB))
  {
  }

  lemma BubbleInEx(s: State)
    requires s.idEx == EMPTY_ID_EX
    ensures ExStage(s) == Running(s.(exMa := EMPTY_EX_MA))
  {
    SumZero();
    hide ArithmeticUnit;
  }

  lemma EcallInEx(s: State)
    requires s.idEx == EcallSlot() && s.exMa == EMPTY_EX_MA
    ensures ExStage(s) == Running(s.(flags := s.flags.(trap := true), exMa := EMPTY_EX_MA.(ins := true)))
  {
  }

  function Slot(ir: Word, pc: Word): IfId { IfId(ir, pc, Following(pc), true) }

  lemma QuietDecode(s: State, c: CuOutput)
    requires !s.changePc && Decode(NotTaken, s.ifId.ir) == Some(c) && !c.ma.predicted
    ensures IdStage(SETTING, s) == Running(s.(idEx := DecodedSlot(c, s.ifId, s.regs)))
  {
    hide Decode, DecodedSlot;
  }

  lemma QuickFetch(s: State)
    requires s.fetch.mfc && s.fetch.counter == -1 && FetchAllowed(SETTING.limits, Address(s.pc))
    ensures var w := WordAt(s.ram, Address(s.pc));
      IfStage(SETTING, s, 1) ==
          Running(s.(fetch := FetchPort(true, -1, s.pc, w), ifId := Slot(w, s.pc), pc := Following(s.pc)))
  {
    hide FetchAllowed, Address, WordAt, Following;
  }

  // ---- the states of the run ----

  function EcallSlot(): IdEx { IdEx(0, 4, 0, 0, 0, 0, 0, 0, IDLE_EX.(system := Ecall), IDLE_MA, false, true) }

  function State1(): State {
    Initial(Start()).(pc := 4, ifId := Slot(0x73, 0), fetch := FetchPort(true, -1, 0, 0x73), stats := Stats(1, 0, 0, 0))
  }

  lemma DecodedFields(c: CuOutput, i: IfId, regs: Registers, rd: RegNo, rs1: RegNo, rs2: RegNo, imm: Word)
    requires Rd(i.ir) == rd && Rs1Of(i.ir) == rs1 && Rs2Of(i.ir) == rs2 && GenerateImmediate(c.format, i.ir) == imm
    ensures DecodedSlot(c, i, regs) ==
        IdEx(i.pc, i.pcNext, rs1, regs[rs1], rs2, regs[rs2], imm, rd, c.ex, c.ma, c.wb, i.ins)
  {
    hide RegisterField, GenerateImmediate, Rd, Rs1Of, Rs2Of;
  }

  /** A cycle without stalls. */
  lemma PlainCycle(s: State, m: State, e: State, d: State, f: State, latency: Latency)
    requires MaStage(SETTING, WbStage(s), latency.data) == Running(m) && m.data.mfc && !m.flags.flush
    requires ExStage(m) == Running(e) && !e.flags.trap && !e.flags.forwardingStall
    requires IdStage(SETTING, e) == Running(d) && !d.flags.hazardStall && !d.flags.flush
    requires IfStage(SETTING, d, latency.fetch) == Running(f) && f.fetch.mfc && !f.flags.hazardStall
    ensures Cycle(SETTING, s, latency) == Running(Tick(f))
  {
    hide MaStage, WbStage, ExStage, IdStage, IfStage;
  }

  lemma Cycle1()
    ensures Cycle(SETTING, Initial(Start()), IDEAL) == Running(State1())
  {
    Fetched();
    Addresses();
    hide WordAt, Address, Following, Decode, DecodedSlot, RegisterField, IdStage, IfStage, ExStage, MaStage, WbStage,
         Cycle, Image;
    var s := Initial(Start());
    QuietBack(s, 1);
    BubbleInEx(s);
    IdBubble(SETTING, s);
    QuickFetch(s);
    PlainCycle(s, s, s, s, State1().(stats := Stats(0, 0, 0, 0)), IDEAL);
  }

  function State2(): State {
    State1().(pc := 8, idEx := EcallSlot(), ifId := Slot(ADDI_WORD, 4), fetch := FetchPort(true, -1, 4, ADDI_WORD),
        stats := Stats(2, 0, 0, 0))
  }

  lemma EcallDecodes(regs: Registers)
    requires regs[0] == 0
    ensures DecodedSlot(SystemSignals(Ecall), Slot(0x73, 0), regs) == EcallSlot()
  {
    var c, i := SystemSignals(Ecall), Slot(0x73, 0);
    assert c.ex == IDLE_EX.(system := Ecall) && c.ma == IDLE_MA && !c.wb && c.format == NoFormat;
    Addresses();
    assert i.ir == 0x73 && i.pc == 0 && i.pcNext == 4 && i.ins;
    hide DecodedSlot, RegisterField, GenerateImmediate, Rd, Rs1Of, Rs2Of, Following, SystemSignals, Slot;
    Fields();
    DecodedFields(c, i, regs, 0, 0, 0, 0);
  }

  lemma Cycle2()
    ensures Cycle(SETTING, State1(), IDEAL) == Running(State2())
  {
    Fetched();
    Addresses();
    Decoded();
    hide WordAt, Address, Following, Decode, DecodedSlot, RegisterField, IdStage, IfStage, ExStage, MaStage, WbStage,
         Cycle, Image;
    var s := State1();
    QuietBack(s, 1);
    BubbleInEx(s);
    QuietDecode(s, SystemSignals(Ecall));
    EcallDecodes(s.regs);
    QuickFetch(s.(idEx := EcallSlot()));
    PlainCycle(s, s, s, s.(idEx := EcallSlot()), State2().(stats := Stats(1, 0, 0, 0)), IDEAL);
  }

  /** The first EX cycle of an ecall. */
  lemma TrapStarts(s: State, m: State, e: State, latency: Latency)
    requires MaStage(SETTING, WbStage(s), latency.data) == Running(m) && m.data.mfc && !m.flags.flush
    requires ExStage(m) == Running(e) && e.flags.trap && e.flags.trapCounter != 0
    ensures Cycle(SETTING, s, latency) ==
        Running(Tick(e).(exMa := EMPTY_EX_MA, flags := e.flags.(trapCounter := 0, trap := false)))
  {
    hide MaStage, WbStage, ExStage;
  }

  /** A cycle in which an ecall may complete. */
  lemma TrapCycle(s: State, m: State, e: State, d: State, f: State, latency: Latency)
    requires MaStage(SETTING, WbStage(s), latency.data) == Running(m) && m.data.mfc && !m.flags.flush
    requires ExStage(m) == Running(e) && e.flags.trap && e.flags.trapCounter == 0
    requires IdStage(SETTING, e) == Running(d) && !d.flags.hazardStall && !d.flags.flush
    requires IfStage(SETTING, d, latency.fetch) == Running(f) && (!f.fetch.mfc ==> f.ifId == EMPTY_IF_ID)
    ensures Cycle(SETTING, s, latency) == FinishTrap(f)
  {
    hide MaStage, WbStage, ExStage, IdStage, IfStage, FinishTrap;
  }

  function State3(): State {
    State2().(flags := Flags(false, false, false, false, 0), stats := Stats(3, 0, 0, 0))
  }

  lemma Cycle3()
    ensures Cycle(SETTING, State2(), IDEAL) == Running(State3())
  {
    hide WordAt, Address, Following, ExStage, MaStage, WbStage, Cycle, Image, Slot;
    var s := State2();
    QuietBack(s, 1);
    EcallInEx(s);
    TrapStarts(s, s, s.(flags := s.flags.(trap := true), exMa := EMPTY_EX_MA.(ins := true)), IDEAL);
  }

  function AddiSlot(): IdEx { IdEx(4, 8, 0, 0, 1, 0, 1, 17, AddiEx(), IDLE_MA, true, true) }

  function AddiEx(): ExControl { ExControl(Rs1, Imm, true, Arithmetic, Add, And, Equal, NoCall) }

  lemma AddiDecodes(regs: Registers)
    requires regs[0] == 0 && regs[1] == 0
    ensures DecodedSlot(ArithSignals(Format.I, Imm, Add), Slot(ADDI_WORD, 4), regs) == AddiSlot()
  {
    var c, i := ArithSignals(Format.I, Imm, Add), Slot(ADDI_WORD, 4);
    assert c.ex == AddiEx() && c.ma == IDLE_MA && c.wb && c.format == Format.I;
    Addresses();
    assert i.ir == ADDI_WORD && i.pc == 4 && i.pcNext == 8 && i.ins;
    hide DecodedSlot, RegisterField, GenerateImmediate, Rd, Rs1Of, Rs2Of, Following, ArithSignals, Slot, AddiEx;
    Fields();
    DecodedFields(c, i, regs, 17, 0, 1, 1);
  }

  /** The state in which ID runs in cycle 4, and what it makes of it. */
  function Waiting(): State {
    State3().(flags := Flags(false, false, false, true, 0), exMa := EMPTY_EX_MA.(ins := true))
  }

  lemma FourthDecode()
    ensures MaStage(SETTING, WbStage(State3()), 1) == Running(State3()) && ExStage(State3()) == Running(Waiting())
    ensures IdStage(SETTING, Waiting()) == Running(Waiting().(idEx := AddiSlot()))
  {
    Decoded();
    hide WordAt, Address, Following, Decode, DecodedSlot, IdStage, ExStage, MaStage, WbStage, Image, ArithSignals,
         AddiSlot;
    QuietBack(State3(), 1);
    EcallInEx(State3());
    PlainAddi();
    QuietDecode(Waiting(), ArithSignals(Format.I, Imm, Add));
    AddiDecodes(State3().regs);
  }

  lemma PlainAddi()
    ensures !ArithSignals(Format.I, Imm, Add).ma.predicted
  {
  }

  lemma HaltsWhenQuick()
    ensures Cycle(SETTING, State3(), IDEAL).Halted?
  {
    FourthDecode();
    Addresses();
    hide WordAt, Address, Following, Decode, IdStage, IfStage, ExStage, MaStage, WbStage, Cycle, Image, AddiSlot;
    var d := Waiting().(idEx := AddiSlot());
    QuickFetch(d);
    var w := WordAt(d.ram, Address(8));
    var f := d.(fetch := FetchPort(true, -1, 8, w), ifId := Slot(w, 8), pc := Following(8));
    TrapCycle(State3(), State3(), Waiting(), d, f, IDEAL);
  }

  // ---- the slow fetch ----

  lemma SlowFetch(s: State, latency: nat)
    requires if s.fetch.mfc then s.fetch.counter == -1 && latency > 1 else s.fetch.counter > 0 && s.fetch.mar == s.pc
    ensures var n := if s.fetch.mfc then latency - 1 else s.fetch.counter;
      IfStage(SETTING, s, latency) ==
          Running(s.(fetch := FetchPort(false, n - 1, s.pc, s.fetch.mbr), ifId := EMPTY_IF_ID))
  {
    hide WordAt, Address, FetchAllowed;
  }

  lemma LastFetch(s: State, latency: nat)
    requires !s.fetch.mfc && s.fetch.counter == 0 && FetchAllowed(SETTING.limits, Address(s.pc)) && s.fetch.mar == s.pc
    ensures var w := WordAt(s.ram, Address(s.pc));
      IfStage(SETTING, s, latency) ==
          Running(s.(fetch := FetchPort(true, -1, s.pc, w), ifId := Slot(w, s.pc), pc := Following(s.pc)))
  {
    hide WordAt, Address, FetchAllowed, Following;
  }

  lemma StillWaits(f: State)
    requires !f.flags.hazardStall && !f.fetch.mfc
    ensures FinishTrap(f) == Running(Tick(f))
  {
  }

  function State4(): State {
    Waiting().(idEx := AddiSlot(), ifId := EMPTY_IF_ID, fetch := FetchPort(false, 2, 8, ADDI_WORD),
        stats := Stats(4, 0, 0, 0))
  }

  lemma Cycle4()
    ensures Cycle(SETTING, State3(), SLOW) == Running(State4())
  {
    FourthDecode();
    hide WordAt, Address, Following, Decode, IdStage, IfStage, ExStage, MaStage, WbStage, Cycle, Image, AddiSlot,
         FinishTrap;
    var d := Waiting().(idEx := AddiSlot());
    SlowFetch(d, 4);
    var f := d.(ifId := EMPTY_IF_ID, fetch := FetchPort(false, 2, 8, ADDI_WORD));
    TrapCycle(State3(), State3(), Waiting(), d, f, SLOW);
    StillWaits(f);
  }

  const ECALL_DONE := MaWb(0, 0, false, true)

  const ADDI_DONE := MaWb(1, 17, true, true)

  function AddiInMa(): ExMa { ExMa(8, 1, 0, 1, 17, IDLE_MA, true, true) }

  lemma AddiInEx(s: State)
    requires s.idEx == AddiSlot() && !s.exMa.wb && !s.maWb.wb && !s.wbIf.wb
    ensures ExStage(s) == Running(s.(exMa := AddiInMa()))
  {
    SumZero();
    hide ArithmeticUnit;
  }

  /** WB and MA when the slot in EX/MA has no memory access. */
  lemma PassOn(s: State)
    requires s.exMa.ma == IDLE_MA
    ensures MaStage(SETTING, WbStage(s), 1) ==
        Running(WbStage(s).(maWb := MaWb(s.exMa.result, s.exMa.nrd, s.exMa.wb, s.exMa.ins)))
  {
    hide WriteBack;
  }

  function State5(): State {
    State4().(maWb := ECALL_DONE, exMa := AddiInMa(), idEx := EMPTY_ID_EX, fetch := FetchPort(false, 1, 8, ADDI_WORD),
        stats := Stats(5, 0, 0, 0))
  }

  lemma Cycle5()
    ensures Cycle(SETTING, State4(), IDEAL) == Running(State5())
  {
    assert AddiSlot().ins;
    hide WordAt, Address, Following, Decode, IdStage, IfStage, ExStage, MaStage, Cycle, Image, AddiSlot, FinishTrap;
    var s := State4();
    PassOn(s);
    var m := s.(maWb := ECALL_DONE);
    AddiInEx(m);
    var e := m.(exMa := AddiInMa());
    IdBubble(SETTING, e);
    var d := e.(idEx := EMPTY_ID_EX);
    SlowFetch(d, 1);
    var f := d.(fetch := FetchPort(false, 1, 8, ADDI_WORD));
    TrapCycle(s, m, e, d, f, IDEAL);
    StillWaits(f);
  }

  function State6(): State {
    State5().(wbIf := ECALL_DONE, maWb := ADDI_DONE, exMa := EMPTY_EX_MA, fetch := FetchPort(false, 0, 8, ADDI_WORD),
        stats := Stats(6, 1, 0, 0))
  }

  lemma Cycle6()
    ensures Cycle(SETTING, State5(), IDEAL) == Running(State6())
  {
    hide WordAt, Address, Following, Decode, IdStage, IfStage, ExStage, MaStage, Cycle, Image, FinishTrap;
    var s := State5();
    PassOn(s);
    var m := s.(wbIf := ECALL_DONE, maWb := ADDI_DONE, stats := Stats(5, 1, 0, 0));
    BubbleInEx(m);
    var e := m.(exMa := EMPTY_EX_MA);
    IdBubble(SETTING, e);
    SlowFetch(e, 1);
    var f := e.(fetch := FetchPort(false, 0, 8, ADDI_WORD));
    TrapCycle(s, m, e, e, f, IDEAL);
    StillWaits(f);
  }

  /** The addi has written x17 when the fetch completes. */
  lemma Cycle7()
    ensures var t := Cycle(SETTING, State6(), IDEAL);
        t.Running? && !t.s.flags.trap && t.s.flags.trapCounter == -1 && t.s.regs[17] == 1
  {
    Addresses();
    hide WordAt, Address, Following, Decode, IdStage, IfStage, ExStage, MaStage, Cycle, Image;
    var s := State6();
    PassOn(s);
    var m := s.(regs := s.regs[17 := 1], recentWb := ECALL_DONE, wbIf := ADDI_DONE, maWb := EMPTY_MA_WB,
        stats := Stats(6, 2, 0, 0));
    assert s.regs[17 := 1][0 := 0] == s.regs[17 := 1];
    BubbleInEx(m);
    IdBubble(SETTING, m);
    LastFetch(m, 1);
    var w := WordAt(m.ram, Address(8));
    var f := m.(fetch := FetchPort(true, -1, 8, w), ifId := Slot(w, 8), pc := Following(8));
    TrapCycle(s, m, m, m, f, IDEAL);
  }

  // ---- both runs ----

  function QuickRun(): seq<Latency> { [IDEAL, IDEAL, IDEAL, IDEAL] }

  function SlowRun(): seq<Latency> { [IDEAL, IDEAL, IDEAL, SLOW, IDEAL, IDEAL, IDEAL] }

  lemma RunOne(s: State, ls: seq<Latency>, t: State)
    requires ls != [] && Run(SETTING, s, ls[..|ls| - 1]) == Running(t)
    ensures Run(SETTING, s, ls) == Cycle(SETTING, t, ls[|ls| - 1])
  {
    hide Cycle;
  }

  lemma FirstThree()
    ensures Run(SETTING, Initial(Start()), [IDEAL, IDEAL, IDEAL]) == Running(State3())
  {
    hide Cycle, State1, State2, State3, Initial, Start;
    var s := Initial(Start());
    Cycle1();
    Cycle2();
    Cycle3();
    assert [IDEAL][..0] == [] && [IDEAL, IDEAL][..1] == [IDEAL] && [IDEAL, IDEAL, IDEAL][..2] == [IDEAL, IDEAL];
    RunOne(s, [IDEAL], s);
    RunOne(s, [IDEAL, IDEAL], State1());
    RunOne(s, [IDEAL, IDEAL, IDEAL], State2());
  }

  lemma FirstSix()
    ensures Run(SETTING, Initial(Start()), [IDEAL, IDEAL, IDEAL, SLOW, IDEAL, IDEAL]) == Running(State6())
  {
    hide Cycle, State1, State2, State3, State4, State5, State6, Initial, Start, Run, SLOW, IDEAL;
    var s, w := Initial(Start()), [IDEAL, IDEAL, IDEAL, SLOW, IDEAL, IDEAL];
    FirstThree();
    Cycle4();
    Cycle5();
    Cycle6();
    assert w[..4][..3] == [IDEAL, IDEAL, IDEAL];
    RunOne(s, w[..4], State3());
    assert w[..5][..4] == w[..4];
    RunOne(s, w[..5], State4());
    assert w[..5] == w[..|w| - 1];
    RunOne(s, w, State5());
  }

  /** The first instruction is an ecall with the halt code in x17. With quick fetches the machine
      halts there; with a fetch of four cycles behind it, it runs on and the instruction behind the
      ecall has written x17. */
  lemma {:induction false} SlowFetchPassesEcall()
    ensures CurrentSignals(SETTING, Start()).ex.system.Ecall? && Start().regs[17] == SYSTEM_HALT_CODE
    ensures Run(SETTING, Initial(Start()), QuickRun()).Halted?
    ensures var r := Run(SETTING, Initial(Start()), SlowRun()); r.Running? && !r.s.flags.trap && r.s.regs[17] == 1
  {
    EcallFirst();
    hide Cycle, State3, State6, Initial, Start, Run, SLOW, IDEAL;
    var s := Initial(Start());
    FirstThree();
    HaltsWhenQuick();
    assert QuickRun()[..3] == [IDEAL, IDEAL, IDEAL];
    RunOne(s, QuickRun(), State3());
    FirstSix();
    Cycle7();
    assert SlowRun()[..6] == [IDEAL, IDEAL, IDEAL, SLOW, IDEAL, IDEAL];
    RunOne(s, SlowRun(), State6());
  }

  lemma EcallFirst()
    ensures CurrentSignals(SETTING, Start()).ex.system.Ecall? && Start().regs[17] == SYSTEM_HALT_CODE
  {
    Fetched();
    Addresses();
    Decoded();
    hide Decode, WordAt, Address, Image;
  }
}
