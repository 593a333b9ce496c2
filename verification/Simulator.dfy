/** The simulator's globals and the functions that change them in place, stage by stage. Every
    method is proved against the function on snapshots of the same name in module Pipeline. */
module Simulator {
  import opened Wrappers
  import opened Words
  import opened Alu
  import opened Control
  import opened Dram
  import opened Machine
  import opened Pipeline
  import PipelineInvariant
  import PipelineRefinement

  /** How a call ended: Exit is the source's exit(1). */
  datatype Status = Going | HaltCall | BreakCall | Exit

  /** The status and the globals agree with an outcome of the snapshot functions. */
  predicate Agrees(status: Status, s: State, o: Outcome) {
    match o
    case Running(t) => status == Going && s == t
    case Halted(t) => status == HaltCall && s == t
    case Paused => status == BreakCall
    case Aborted => status == Exit
  }

  /** The forwarding paths do not depend on the stall flag. */
  lemma ForwardStable(s: State, t: State, r: Word, n: RegNo)
    requires t == s.(flags := t.flags)
    ensures Pipeline.ForwardEx(t, r, n) == Pipeline.ForwardEx(s, r, n)
  {
  }

  /** Execute, on operands that have already been chosen. */
  lemma ExecuteCases(ex: ExControl, pc: Word, pcNext: Word, a: Word, b: Word, v1: Word, v2: Word, imm: Word)
    requires a == (if ex.source1.Pc? then pc else v1) && b == (if ex.source2.Imm? then imm else v2)
    ensures ex.typ.Arithmetic? ==>
      Execute(ex, pc, pcNext, v1, v2, imm) == Executed(ArithmeticUnit(a, b, ex.arith), pcNext, false)
    ensures ex.typ.Logic? ==>
      Execute(ex, pc, pcNext, v1, v2, imm) == Executed(LogicalUnit(a, b, ex.logic, ex.signed), pcNext, false)
    ensures ex.typ.LessThan? ==>
      Execute(ex, pc, pcNext, v1, v2, imm) == Executed(LessThanComparator(a, b, ex.signed), pcNext, false)
    ensures ex.typ.BranchCompare? && ex.branch.Jump? ==>
      Execute(ex, pc, pcNext, v1, v2, imm) == Executed(pcNext, ArithmeticUnit(a, b, ex.arith), true)
    ensures ex.typ.BranchCompare? && !ex.branch.Jump? ==>
      Execute(ex, pc, pcNext, v1, v2, imm)
      == Executed(pcNext, ArithmeticUnit(pc, imm, ex.arith), BranchComparator(a, b, ex.branch, ex.signed))
  {
    hide ArithmeticUnit, LogicalUnit, LessThanComparator, BranchComparator;
  }

  /** The stall flag after EX has looked at its operands and at the data of a store. */
  predicate StallFlag(s: State) {
    var i := s.idEx;
    || s.flags.forwardingStall
    || (i.ex.source1.Rs1? && Pipeline.ForwardEx(s, i.r1, i.nrs1).None?)
    || (i.ex.source2.Rs2? && Pipeline.ForwardEx(s, i.r2, i.nrs2).None?)
    || (IsStore(i.ma) && Pipeline.ForwardEx(s, i.r2, i.nrs2).None?)
  }

  lemma ExStageNoCall(s: State, x: Executed, storeData: Word)
    requires s.idEx.ex.system.NoCall?
    requires var i := s.idEx; var v2 := OrZero(Pipeline.ForwardEx(s, i.r2, i.nrs2));
      && x == Execute(i.ex, i.pc, i.pcNext, OrZero(Pipeline.ForwardEx(s, i.r1, i.nrs1)), v2, i.imm)
      && storeData == if IsStore(i.ma) then v2 else i.r2
    ensures Pipeline.ExStage(s) == Running(s.(
      flags := s.flags.(forwardingStall := StallFlag(s)),
      exMa := ExMa(x.target, s.idEx.nrs2, storeData, x.result, s.idEx.nrd,
                   s.idEx.ma.(actual := s.idEx.ma.actual || x.taken), s.idEx.wb, s.idEx.ins)))
  {
    hide Execute, Pipeline.ForwardEx;
  }

  class Simulator {
    const cfg: Config
    const regFile: array<Word>
    const dram: array<Byte>
    var pc: Word
    var ifId: IfId
    var idEx: IdEx
    var exMa: ExMa
    var maWb: MaWb
    var wbIf: MaWb
    var recentWb: MaWb
    var changePc: bool
    var jumpPc: Word
    var fetch: FetchPort
    var data: DataPort
    var flush: bool
    var forwardingStall: bool
    var hazardStall: bool
    var trap: bool
    var trapCounter: int
    var cycle: nat
    var instructions: nat
    var exFlushes: nat
    var idFlushes: nat

    ghost predicate Valid() { regFile.Length == 32 }

    ghost function Snapshot(): State
      reads this, regFile, dram
      requires Valid()
    {
      State(regFile[..], dram[..], pc, ifId, idEx, exMa, maWb, wbIf, recentWb, changePc, jumpPc, fetch, data,
            Flags(flush, forwardingStall, hazardStall, trap, trapCounter),
            Stats(cycle, instructions, exFlushes, idFlushes))
    }

    /** The snapshot's parts are the fields. */
    lemma Fields()
      requires Valid()
      ensures var s := Snapshot();
        && s.flags == Flags(flush, forwardingStall, hazardStall, trap, trapCounter)
        && s.regs == regFile[..] && s.ram == dram[..] && s.pc == pc && s.ifId == ifId && s.idEx == idEx
            && s.exMa == exMa
        && s.maWb == maWb && s.wbIf == wbIf && s.changePc == changePc && s.jumpPc == jumpPc && s.fetch == fetch
            && s.data == data
    {
    }

    constructor (cfg: Config, registers: Registers, image: Ram, entry: Word)
      ensures Valid() && this.cfg == cfg && fresh(regFile) && fresh(dram)
      ensures Snapshot() == Initial(Arch(entry, registers, image))
    {
      this.cfg := cfg;
      regFile := new Word[32](i requires 0 <= i < 32 => registers[i]);
      dram := new Byte[|image|](i requires 0 <= i < |image| => image[i]);
      pc := entry;
      ifId, idEx, exMa, maWb, wbIf, recentWb := EMPTY_IF_ID, EMPTY_ID_EX, EMPTY_EX_MA, EMPTY_MA_WB, EMPTY_MA_WB,
          EMPTY_MA_WB;
      changePc, jumpPc := false, 0;
      fetch, data := IDLE_FETCH, IDLE_DATA;
      flush, forwardingStall, hazardStall, trap, trapCounter := false, false, false, false, -1;
      cycle, instructions, exFlushes, idFlushes := 0, 0, 0, 0;
      new;
      assert regFile[..] == registers;
      assert dram[..] == image;
    }

    // ---- memory ports ----

    method CancelFetch()
      requires Valid()
      modifies this`fetch
      ensures Snapshot() == Pipeline.CancelFetch(old(Snapshot()))
    {
      fetch := fetch.(counter := -1, mfc := true);
    }

    method ReadMemoryI(latency: nat) returns (status: Status)
      requires Valid()
      modifies this`fetch
      ensures match Pipeline.ReadMemoryI(cfg.limits, dram[..], old(fetch), latency)
              case Some(f) => status == Going && fetch == f
              case None => status == Exit
    {
      status := Going;
      if fetch.counter < 0 {
        fetch := fetch.(counter := latency - 1);
        fetch := fetch.(mfc := false);
      }
      if fetch.counter > 0 {
        fetch := fetch.(counter := fetch.counter - 1);
      } else {
        if !FetchAllowed(cfg.limits, Address(fetch.mar)) { return Exit; }
        fetch := fetch.(mbr := WordAt(dram[..], Address(fetch.mar)));
        fetch := fetch.(mfc := true, counter := -1);
      }
    }

    method ReadMemory(op: LoadOp, latency: nat) returns (status: Status)
      requires Valid()
      modifies this`data
      ensures match Pipeline.ReadMemory(dram[..], old(data), op, latency)
              case Some(d) => status == Going && data == d
              case None => status == Exit
    {
      status := Going;
      if data.readCounter < 0 {
        data := data.(readCounter := latency - 1);
        data := data.(mfc := false);
      }
      if data.readCounter > 0 {
        data := data.(readCounter := data.readCounter - 1);
      } else {
        if !LoadAllowed(dram[..], Address(data.mar), op) { return Exit; }
        data := data.(mbr := LoadValue(dram[..], Address(data.mar), op));
        data := data.(mfc := true, readCounter := -1);
      }
    }

    method SetByteAt(i: nat, b: Byte)
      requires Valid()
      modifies dram
      ensures dram[..] == SetByte(old(dram[..]), i, b)
    {
      if i < dram.Length { dram[i] := b; }
    }

    method StoreBytes(addr: nat, word: Word, op: StoreOp)
      requires Valid()
      modifies dram
      ensures dram[..] == StoreValue(old(dram[..]), addr, word, op)
    {
      hide SetByte, ByteOf;
      var high := word >> 16;
      SetByteAt(addr, ByteOf(word, 0));
      if op != StoreByte { SetByteAt(addr + 1, ByteOf(word, 8)); }
      if op == StoreWord {
        SetByteAt(addr + 2, ByteOf(high, 0));
        SetByteAt(addr + 3, ByteOf(high, 8));
      }
    }

    method WriteMemory(op: StoreOp, latency: nat) returns (status: Status)
      requires Valid()
      modifies this`data, dram
      ensures match Pipeline.WriteMemory(cfg.limits, old(dram[..]), old(data), op, latency)
              case Some(w) => status == Going && data == w.0 && dram[..] == w.1
              case None => status == Exit
    {
      status := Going;
      if data.writeCounter < 0 {
        data := data.(writeCounter := latency - 1);
        data := data.(mfc := false);
      }
      if data.writeCounter > 0 {
        data := data.(writeCounter := data.writeCounter - 1);
      } else {
        var addr := Address(data.mar);
        if !StoreAllowed(cfg.limits, dram[..], addr, op) { return Exit; }
        StoreBytes(addr, data.mbr, op);
        data := data.(mfc := true, writeCounter := -1);
      }
    }

    // ---- stages ----

    method WbStage()
      requires Valid()
      modifies this, regFile
      ensures Snapshot() == Pipeline.WbStage(old(Snapshot()))
    {
      if maWb.wb {
        regFile[maWb.nrd] := maWb.result;
        regFile[0] := 0;
      }
      recentWb := wbIf;
      wbIf := maWb;
      if wbIf.ins { instructions := instructions + 1; }
    }

    method ForwardMa(original: Word, n: RegNo) returns (v: Word)
      requires Valid()
      ensures v == Pipeline.ForwardMa(Snapshot(), original, n)
    {
      if maWb.wb && maWb.nrd == n && maWb.nrd != 0 {
        v := maWb.result;
      } else if recentWb.wb && recentWb.nrd == n && recentWb.nrd != 0 {
        v := recentWb.result;
      } else {
        v := original;
      }
    }

    /** Jumps and mispredicted branches redirect the fetch and flush the younger stages. */
    method ResolveTransfer()
      requires Valid()
      modifies this`pc, this`flush
      ensures Snapshot() == Pipeline.ResolveTransfer(old(Snapshot()))
    {
      if exMa.ma.transfer == JumpTransfer {
        pc := exMa.pcNext;
        flush := true;
      } else if exMa.ma.transfer == BranchTransfer {
        var actual, predicted := exMa.ma.actual, exMa.ma.predicted;
        if actual == predicted {
        } else if actual {
          pc := exMa.pcNext;
          flush := true;
        } else {
          pc := exMa.result;
          flush := true;
        }
      }
    }

    method ToWriteBack(result: Word)
      requires Valid()
      modifies this`maWb
      ensures Snapshot() == Pipeline.ToWriteBack(old(Snapshot()), result)
    {
      maWb := MaWb(result, exMa.nrd, exMa.wb, exMa.ins);
    }

    method MaStage(latency: nat) returns (status: Status)
      requires Valid()
      modifies this, dram
      ensures Agrees(status, Snapshot(), Pipeline.MaStage(cfg, old(Snapshot()), latency))
    {
      hide Pipeline.ReadMemory, Pipeline.WriteMemory, Pipeline.ForwardMa, Pipeline.ResolveTransfer,
           Pipeline.ToWriteBack;
      status := Going;
      var result := exMa.result;
      match exMa.ma.mem {
        case NoMem =>
          ResolveTransfer();
        case Read(op) =>
          data := data.(mar := exMa.result);
          status := ReadMemory(op, latency);
          if status == Exit { return; }
          result := data.mbr;
        case Write(op) =>
          var value := ForwardMa(exMa.r2, exMa.nrs2);
          data := data.(mbr := value, mar := exMa.result);
          status := WriteMemory(op, latency);
          if status == Exit { return; }
      }
      ToWriteBack(result);
    }

    /** Sets FORWARDING_STALL and returns 0 when the value is not available yet. */
    method ForwardEx(original: Word, n: RegNo) returns (v: Word)
      requires Valid()
      modifies this`forwardingStall
      ensures v == OrZero(Pipeline.ForwardEx(old(Snapshot()), original, n))
      ensures forwardingStall == (old(forwardingStall) || Pipeline.ForwardEx(old(Snapshot()), original, n).None?)
    {
      v := 0;
      if exMa.wb && n == exMa.nrd && exMa.nrd != 0 {
        if exMa.ma.mem != NoMem {
          forwardingStall := true;
        } else {
          v := exMa.result;
        }
      } else if maWb.wb && n == maWb.nrd && maWb.nrd != 0 {
        forwardingStall := true;
      } else if wbIf.wb && n == wbIf.nrd && wbIf.nrd != 0 {
        v := wbIf.result;
      } else {
        v := original;
      }
    }

    /** The unit that the control signals select, and the resolution of a branch or jump. */
    method RunUnits(operand1: Word, operand2: Word, ghost v1: Word, ghost v2: Word)
      returns (result: Word, pcNext: Word, taken: bool)
      requires Valid()
      requires operand1 == if idEx.ex.source1.Pc? then idEx.pc else v1
      requires operand2 == if idEx.ex.source2.Imm? then idEx.imm else v2
      ensures Executed(result, pcNext, taken) == Execute(idEx.ex, idEx.pc, idEx.pcNext, v1, v2, idEx.imm)
    {
      hide ArithmeticUnit, LogicalUnit, LessThanComparator, BranchComparator, Execute;
      var control := idEx.ex;
      pcNext, taken := idEx.pcNext, false;
      match control.typ {
        case Arithmetic =>
          result := ArithmeticUnit(operand1, operand2, control.arith);
        case Logic =>
          result := LogicalUnit(operand1, operand2, control.logic, control.signed);
        case LessThan =>
          result := LessThanComparator(operand1, operand2, control.signed);
        case BranchCompare =>
          result := idEx.pcNext;
          if control.branch == Jump {
            pcNext := ArithmeticUnit(operand1, operand2, control.arith);
            taken := true;
          } else {
            pcNext := ArithmeticUnit(idEx.pc, idEx.imm, control.arith);
            taken := BranchComparator(operand1, operand2, control.branch, control.signed);
          }
      }
      ExecuteCases(control, idEx.pc, idEx.pcNext, operand1, operand2, v1, v2, idEx.imm);
    }

    /** The two operands of EX, with their hazards checked. */
    method ReadOperands() returns (operand1: Word, operand2: Word)
      requires Valid()
      modifies this`forwardingStall
      ensures var s := old(Snapshot());
        && operand1 == (if idEx.ex.source1.Pc? then idEx.pc else OrZero(Pipeline.ForwardEx(s, idEx.r1, idEx.nrs1)))
        && operand2 == (if idEx.ex.source2.Imm? then idEx.imm else OrZero(Pipeline.ForwardEx(s, idEx.r2, idEx.nrs2)))
        && (forwardingStall <==>
              || s.flags.forwardingStall
              || (idEx.ex.source1.Rs1? && Pipeline.ForwardEx(s, idEx.r1, idEx.nrs1).None?)
              || (idEx.ex.source2.Rs2? && Pipeline.ForwardEx(s, idEx.r2, idEx.nrs2).None?))
    {
      hide Pipeline.ForwardEx;
      ghost var s := Snapshot();
      operand1, operand2 := idEx.pc, idEx.imm;
      if idEx.ex.source1 == Rs1 { operand1 := ForwardEx(idEx.r1, idEx.nrs1); }
      ForwardStable(s, Snapshot(), idEx.r2, idEx.nrs2);
      if idEx.ex.source2 == Rs2 { operand2 := ForwardEx(idEx.r2, idEx.nrs2); }
    }

    /** The data of a store, resolved before EX/MA is overwritten. */
    method ResolveStoreData() returns (storeData: Word)
      requires Valid()
      modifies this`forwardingStall
      ensures var v := Pipeline.ForwardEx(old(Snapshot()), idEx.r2, idEx.nrs2);
        if IsStore(idEx.ma) then storeData == OrZero(v) && forwardingStall == (old(forwardingStall) || v.None?)
        else storeData == idEx.r2 && forwardingStall == old(forwardingStall)
    {
      hide Pipeline.ForwardEx;
      storeData := idEx.r2;
      if IsStore(idEx.ma) { storeData := ForwardEx(idEx.r2, idEx.nrs2); }
    }

    method ExStage() returns (status: Status)
      requires Valid()
      modifies this
      ensures Agrees(status, Snapshot(), Pipeline.ExStage(old(Snapshot())))
    {
      hide Execute, Pipeline.ForwardEx;
      status := Going;
      if idEx.ex.system == Breakpoint {
        return BreakCall;
      } else if idEx.ex.system == Ecall {
        trap := true;
        exMa := exMa.(ins := idEx.ins);
        return;
      }
      ExecuteStage();
    }

    /** Everything that EX computes before it overwrites EX/MA. */
    method ComputeSlot() returns (result: Word, pcNext: Word, taken: bool, storeData: Word)
      requires Valid() && idEx.ex.system.NoCall?
      modifies this`forwardingStall
      ensures var s := old(Snapshot()); var v2 := OrZero(Pipeline.ForwardEx(s, idEx.r2, idEx.nrs2));
        && Executed(result, pcNext, taken)
           == Execute(idEx.ex, idEx.pc, idEx.pcNext, OrZero(Pipeline.ForwardEx(s, idEx.r1, idEx.nrs1)), v2, idEx.imm)
        && storeData == (if IsStore(idEx.ma) then v2 else idEx.r2)
        && forwardingStall == StallFlag(s)
    {
      hide Execute, Pipeline.ForwardEx, OrZero;
      ghost var s := Snapshot();
      ghost var v1, v2 := OrZero(Pipeline.ForwardEx(s, idEx.r1, idEx.nrs1)),
          OrZero(Pipeline.ForwardEx(s, idEx.r2, idEx.nrs2));
      var operand1, operand2 := ReadOperands();
      result, pcNext, taken := RunUnits(operand1, operand2, v1, v2);
      assert Snapshot() == s.(flags := Snapshot().flags);
      hide Snapshot;
      Fields();
      ForwardStable(s, Snapshot(), idEx.r2, idEx.nrs2);
      storeData := ResolveStoreData();
    }

    method ExecuteStage()
      requires Valid() && idEx.ex.system.NoCall?
      modifies this
      ensures Agrees(Going, Snapshot(), Pipeline.ExStage(old(Snapshot())))
    {
      hide Execute, Pipeline.ForwardEx, Pipeline.ExStage, StallFlag;
      ghost var s := Snapshot();
      var result, pcNext, taken, storeData := ComputeSlot();
      ExStageNoCall(s, Executed(result, pcNext, taken), storeData);
      FillExMa(result, pcNext, taken, storeData);
    }

    method FillExMa(result: Word, pcNext: Word, taken: bool, storeData: Word)
      requires Valid()
      modifies this`exMa
      ensures Snapshot() == old(Snapshot()).(
        exMa := ExMa(pcNext, idEx.nrs2, storeData, result, idEx.nrd,
                     idEx.ma.(actual := idEx.ma.actual || taken), idEx.wb, idEx.ins))
    {
      exMa := ExMa(pcNext, idEx.nrs2, storeData, result, idEx.nrd,
                   idEx.ma.(actual := idEx.ma.actual || taken), idEx.wb, idEx.ins);
    }

    method UpdateOperands()
      requires Valid()
      modifies this`idEx
      ensures Snapshot() == Pipeline.UpdateOperands(old(Snapshot()))
    {
      idEx := idEx.(r1 := regFile[idEx.nrs1]);
      idEx := idEx.(r2 := regFile[idEx.nrs2]);
    }

    method SetHazardStall() returns (stall: bool)
      requires Valid()
      modifies this`hazardStall
      ensures stall == HazardStall(old(Snapshot()))
      ensures Snapshot() == old(Snapshot()).(flags := old(Snapshot()).flags.(hazardStall := old(hazardStall) || stall))
    {
      stall := false;
      if exMa.wb && Depends(idEx, exMa.wb, exMa.nrd) {
        hazardStall := true;
        return true;
      }
      if maWb.wb && Depends(idEx, maWb.wb, maWb.nrd) {
        hazardStall := true;
        return true;
      }
      if wbIf.wb && Depends(idEx, wbIf.wb, wbIf.nrd) {
        hazardStall := true;
        return true;
      }
    }

    method IdStage() returns (status: Status)
      requires Valid()
      modifies this
      ensures Agrees(status, Snapshot(), Pipeline.IdStage(cfg, old(Snapshot())))
    {
      hide Control.Decode, DecodedSlot, HazardStall, BranchTarget, Snapshot;
      Fields();
      status := Going;
      if changePc {
        CancelFetch();
        Fields();
        TakeRedirect();
        return;
      }
      var ir := ifId.ir;
      var out := Control.Decode(cfg.strategy, ir);
      if out.None? { return Exit; }
      var c := out.value;
      FillIdEx(c);
      Fields();
      if !cfg.forwarding {
        var stall := SetHazardStall();
        if stall { return; }
      }
      if c.ma.predicted && c.ex.typ == BranchCompare && c.ma.transfer == BranchTransfer {
        PlanRedirect(BranchTarget(ifId.pc, ir));
      }
    }

    /** A pending redirect takes effect. */
    method TakeRedirect()
      requires Valid()
      modifies this`pc, this`flush, this`jumpPc, this`changePc
      ensures var s := old(Snapshot());
        Snapshot() == s.(pc := s.jumpPc, flags := s.flags.(flush := true), jumpPc := 0, changePc := false)
    {
      pc := jumpPc;
      flush := true;
      jumpPc := 0;
      changePc := false;
    }

    method PlanRedirect(target: Word)
      requires Valid()
      modifies this`jumpPc, this`changePc
      ensures Snapshot() == old(Snapshot()).(changePc := true, jumpPc := target)
    {
      changePc := true;
      jumpPc := target;
    }

    method FillIdEx(c: CuOutput)
      requires Valid()
      modifies this`idEx
      ensures Snapshot() == old(Snapshot()).(idEx := DecodedSlot(c, ifId, regFile[..]))
    {
      hide GenerateImmediate, RegisterField;
      var ir := ifId.ir;
      var nrs1, nrs2 := Rs1Of(ir), Rs2Of(ir);
      idEx := IdEx(ifId.pc, ifId.pcNext, nrs1, regFile[nrs1], nrs2, regFile[nrs2],
                   GenerateImmediate(c.format, ir), Rd(ir), c.ex, c.ma, c.wb, ifId.ins);
    }

    method IfStage(latency: nat) returns (status: Status)
      requires Valid()
      modifies this
      ensures Agrees(status, Snapshot(), Pipeline.IfStage(cfg, old(Snapshot()), latency))
    {
      hide WordAt, Address, Following;
      if fetch.mfc { fetch := fetch.(mar := pc); }
      status := ReadMemoryI(latency);
      if status == Exit { return; }
      if fetch.mfc {
        var at := pc;
        pc := Following(pc);
        ifId := IfId(fetch.mbr, at, pc, true);
      } else {
        ifId := EMPTY_IF_ID;
      }
    }

    // ---- the main loop ----

    method FlushFromMa()
      requires Valid()
      modifies this
      ensures Snapshot() == Pipeline.FlushFromMa(old(Snapshot()))
    {
      hide Snapshot;
      EmptyExMaSlot();
      EmptyFront();
      CancelFetch();
      ResetDecodeFlags();
      EndMaFlush();
    }

    method EmptyFront()
      requires Valid()
      modifies this`idEx, this`ifId
      ensures Snapshot() == old(Snapshot()).(idEx := EMPTY_ID_EX, ifId := EMPTY_IF_ID)
    {
      idEx, ifId := EMPTY_ID_EX, EMPTY_IF_ID;
    }

    method EmptyExMaSlot()
      requires Valid()
      modifies this`exMa
      ensures Snapshot() == old(Snapshot()).(exMa := EMPTY_EX_MA)
    {
      exMa := EMPTY_EX_MA;
    }

    method ResetDecodeFlags()
      requires Valid()
      modifies this`changePc, this`jumpPc
      ensures Snapshot() == old(Snapshot()).(changePc := false, jumpPc := 0)
    {
      changePc, jumpPc := false, 0;
    }

    method EndMaFlush()
      requires Valid()
      modifies this`exFlushes, this`flush
      ensures var s := old(Snapshot());
        Snapshot() == s.(stats := s.stats.(exFlushes := s.stats.exFlushes + 1), flags := s.flags.(flush := false))
    {
      exFlushes := exFlushes + 1;
      flush := false;
    }

    method EndIdFlush()
      requires Valid()
      modifies this`idFlushes, this`flush
      ensures var s := old(Snapshot());
        Snapshot() == s.(stats := s.stats.(idFlushes := s.stats.idFlushes + 1), flags := s.flags.(flush := false))
    {
      idFlushes := idFlushes + 1;
      flush := false;
    }

    method FlushFromId()
      requires Valid()
      modifies this
      ensures Snapshot() == Pipeline.FlushFromId(old(Snapshot()))
    {
      hide Snapshot;
      EmptyFront();
      CancelFetch();
      EndIdFlush();
    }

    method FrontEnd(latency: nat) returns (status: Status)
      requires Valid()
      modifies this
      ensures Agrees(status, Snapshot(), Pipeline.FrontEnd(cfg, old(Snapshot()), latency))
    {
      hide Pipeline.IdStage, Pipeline.IfStage, Pipeline.FlushFromId;
      status := IdStage();
      if status != Going { return; }
      if hazardStall {
        idEx := EMPTY_ID_EX;
      } else {
        if flush { FlushFromId(); }
        status := IfStage(latency);
        if status != Going { return; }
        if !fetch.mfc { ifId := EMPTY_IF_ID; }
      }
    }

    method Tick()
      requires Valid()
      modifies this`cycle
      ensures Snapshot() == Pipeline.Tick(old(Snapshot()))
    {
      cycle := cycle + 1;
    }

    /** The rest of a cycle once MA has completed. */
    method AfterMa(latency: nat) returns (status: Status)
      requires Valid()
      modifies this
      ensures Agrees(status, Snapshot(), Pipeline.AfterMa(cfg, old(Snapshot()), latency))
    {
      hide Pipeline.ExStage, Pipeline.FrontEnd, Pipeline.UpdateOperands, Pipeline.FinishTrap, Snapshot;
      status := ExStage();
      if status != Going { return; }
      Fields();
      if trap {
        if trapCounter == 0 {
          status := FrontEnd(latency);
          if status != Going { return; }
          status := FinishTrap();
        } else {
          Tick();
          HoldTrap();
        }
      } else if forwardingStall {
        HoldForwarding();
        UpdateOperands();
        Tick();
      } else {
        status := FrontEnd(latency);
        if status != Going { return; }
        Tick();
        ClearHazard();
      }
    }

    /** The first EX cycle of an ecall. */
    method HoldTrap()
      requires Valid()
      modifies this`exMa, this`trapCounter, this`trap
      ensures var s := old(Snapshot());
        Snapshot() == s.(exMa := EMPTY_EX_MA, flags := s.flags.(trapCounter := 0, trap := false))
    {
      trapCounter := 0;
      exMa := EMPTY_EX_MA;
      trap := false;
    }

    /** A load-use stall. */
    method HoldForwarding()
      requires Valid()
      modifies this`exMa, this`forwardingStall
      ensures var s := old(Snapshot());
        Snapshot() == s.(exMa := EMPTY_EX_MA, flags := s.flags.(forwardingStall := false))
    {
      exMa := EMPTY_EX_MA;
      forwardingStall := false;
    }

    method ClearHazard()
      requires Valid()
      modifies this`hazardStall
      ensures Snapshot() == Pipeline.ClearHazard(old(Snapshot()))
    {
      hazardStall := false;
    }

    method FinishTrap() returns (status: Status)
      requires Valid()
      modifies this
      ensures Agrees(status, Snapshot(), Pipeline.FinishTrap(old(Snapshot())))
    {
      hide Snapshot;
      status := Going;
      Fields();
      Tick();
      if hazardStall {
        ClearHazard();
      } else if fetch.mfc {
        var ecallCode := regFile[17];
        EndTrap();
        if ecallCode == SYSTEM_HALT_CODE { status := HaltCall; }
      }
    }

    method EndTrap()
      requires Valid()
      modifies this`trapCounter, this`trap
      ensures var s := old(Snapshot());
        Snapshot() == s.(flags := s.flags.(trapCounter := s.flags.trapCounter - 1, trap := false))
    {
      trapCounter := trapCounter - 1;
      trap := false;
    }

    method CycleOnce(latency: Latency) returns (status: Status)
      requires Valid()
      modifies this, regFile, dram
      ensures Agrees(status, Snapshot(), Pipeline.Cycle(cfg, old(Snapshot()), latency))
    {
      hide Pipeline.WbStage, Pipeline.MaStage, Pipeline.AfterMa, Pipeline.FlushFromMa, Pipeline.Tick,
           Pipeline.UpdateOperands;
      WbStage();
      status := MaStage(latency.data);
      if status != Going { return; }
      if !data.mfc {
        maWb := EMPTY_MA_WB;
        UpdateOperands();
        Tick();
      } else {
        if flush { FlushFromMa(); }
        status := AfterMa(latency.fetch);
      }
    }

    /** Runs until the machine stops or there are no more latencies. */
    method Simulate(latencies: seq<Latency>) returns (status: Status)
      requires Valid()
      modifies this, regFile, dram
      ensures Agrees(status, Snapshot(), Run(cfg, old(Snapshot()), latencies))
    {
      hide Pipeline.Cycle;
      ghost var start := Snapshot();
      var i := 0;
      status := Going;
      assert latencies[..0] == [];
      while i < |latencies|
        invariant 0 <= i <= |latencies| && status == Going
        invariant Run(cfg, start, latencies[..i]) == Running(Snapshot())
      {
        ghost var before := Snapshot();
        status := CycleOnce(latencies[i]);
        i := i + 1;
        assert latencies[..i][..i - 1] == latencies[..i - 1];
        if status != Going {
          RunStops(cfg, start, latencies, i);
          return;
        }
      }
      assert latencies[..i] == latencies;
    }
  }

  /** A stopped machine stays stopped. */
  lemma {:induction false} RunStops(cfg: Config, s: State, latencies: seq<Latency>, n: nat)
    requires n <= |latencies| && !Run(cfg, s, latencies[..n]).Running?
    ensures Run(cfg, s, latencies) == Run(cfg, s, latencies[..n])
    decreases |latencies|
  {
    hide Pipeline.Cycle;
    if n == |latencies| {
      assert latencies[..n] == latencies;
    } else {
      var k := |latencies| - 1;
      assert latencies[..k][..n] == latencies[..n];
      RunStops(cfg, s, latencies[..k], n);
    }
  }

  /** Loading and running a program: memory is that of the sequential machine after the n committed
      instructions, and so are the registers, up to a write that has not reached WB yet. */
  method RunProgram(cfg: Config, registers: Registers, image: Ram, entry: Word, latencies: seq<Latency>)
    returns (sim: Simulator, status: Status, ghost n: nat)
    requires WordAlignedText(cfg.limits) && registers[0] == 0 && PipelineRefinement.ValidLatencies(latencies)
    ensures fresh(sim) && sim.Valid()
    ensures var start := Arch(entry, registers, image);
      && Legal(cfg, start, n)
      && (status == Going || status == HaltCall ==>
            && sim.dram[..] == Steps(cfg, start, n).ram
            && PipelineRefinement.WrittenBack(cfg, sim.Snapshot(), start, n))
  {
    hide Run, PipelineRefinement.Log, PipelineInvariant.Inv, Legal;
    var start := Arch(entry, registers, image);
    sim := new Simulator(cfg, registers, image, entry);
    status := sim.Simulate(latencies);
    PipelineRefinement.Refinement(cfg, start, latencies);
    n := |PipelineRefinement.Log(cfg, Initial(start), latencies)|;
  }
}
