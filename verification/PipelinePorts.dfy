/** The order in which the pipeline uses its two memory ports, which is the order that the caches are
    proved for (src/execution/simulator.c:36-355, src/memory/memory.c:29-314). */
module PipelinePorts {
  import opened Words
  import opened Control
  import opened Dram
  import opened Machine
  import opened Pipeline
  import opened PipelineInvariant
  import opened PipelineProof
  import opened PipelineRefinement
  import CacheLevel
  import CacheSystem

  type Event = CacheSystem.Event

  type Events = seq<CacheSystem.Event>

  // ---- what a cycle asks of the caches ----

  /** The bytes that a store writes. */
  function StoredCells(op: StoreOp, a: nat, w: Word): map<nat, int> {
    match op
    case StoreByte => map[a := ByteOf(w, 0) as int]
    case StoreHalf => map[a := ByteOf(w, 0) as int, a + 1 := ByteOf(w, 8) as int]
    case StoreWord =>
      map[a := ByteOf(w, 0) as int, a + 1 := ByteOf(w, 8) as int,
          a + 2 := ByteOf(w, 16) as int, a + 3 := ByteOf(w, 24) as int]
  }

  /** An idle data port asks for its access. */
  function DataStart(s: State): Events {
    if !s.data.mfc then []
    else
      match s.exMa.ma.mem
      case NoMem => []
      case Read(_) => [CacheSystem.Load(Address(s.exMa.result))]
      case Write(op) =>
        var a := Address(s.exMa.result);
        [CacheSystem.Store(a, StoredCells(op, a, ForwardMa(WbStage(s), s.exMa.r2, s.exMa.nrs2)))]
  }

  /** complete_read and complete_write. */
  function DataEnd(s: State, m: State): Events {
    if !s.exMa.ma.mem.NoMem? && m.data.mfc then [CacheSystem.DataDone] else []
  }

  /** An idle fetch port asks for the instruction at pc; complete_read_i. */
  function FetchEvents(cfg: Config, d: State, latency: nat): Events {
    (if d.fetch.mfc then [CacheSystem.Fetch(Address(d.pc))] else [])
    + match IfStage(cfg, d, latency)
      case Running(f) => if f.fetch.mfc then [CacheSystem.FetchDone] else []
      case _ => []
  }

  /** ID and IF: a redirect cancels the fetch in ID and again in the loop. */
  function FrontEvents(cfg: Config, e: State, latency: nat): Events {
    match IdStage(cfg, e)
    case Running(d) =>
      (if e.changePc then [CacheSystem.FetchDone, CacheSystem.FetchDone] else [])
      + if d.flags.hazardStall then [] else FetchEvents(cfg, ForIf(d), latency)
    case _ => []
  }

  function AfterMaEvents(cfg: Config, x: State, latency: nat): Events {
    match ExStage(x)
    case Running(e) =>
      if e.flags.trap && e.flags.trapCounter != 0 then []
      else if !e.flags.trap && e.flags.forwardingStall then []
      else FrontEvents(cfg, e, latency)
    case _ => []
  }

  /** All that one cycle asks, in order; a flush from MA cancels the fetch. */
  function CycleEvents(cfg: Config, s: State, latency: Latency): Events {
    match MaStage(cfg, WbStage(s), latency.data)
    case Running(m) =>
      DataStart(s) + DataEnd(s, m)
      + if !m.data.mfc then []
          else (if m.flags.flush then [CacheSystem.FetchDone] else []) + AfterMaEvents(cfg, ForEx(m), latency.fetch)
    case _ => DataStart(s)
  }

  /** And a whole run. */
  function RunEvents(cfg: Config, s: State, latencies: seq<Latency>): Events {
    if latencies == [] then []
    else
      var n := |latencies| - 1;
      match Run(cfg, s, latencies[..n])
      case Running(t) => RunEvents(cfg, s, latencies[..n]) + CycleEvents(cfg, t, latencies[n])
      case _ => RunEvents(cfg, s, latencies[..n])
  }

  // ---- the order ----

  /** Which ports have an access outstanding. */
  datatype Flow = Flow(fetching: bool, busy: bool)

  function After1(w: Flow, e: Event): Flow {
    match e
    case Fetch(_) => w.(fetching := true)
    case FetchDone => w.(fetching := false)
    case Load(_) => w.(busy := true)
    case Store(_, _) => w.(busy := true)
    case DataDone => w.(busy := false)
  }

  /** No fetch starts while anything is outstanding, no data access while one is. */
  predicate Fits(w: Flow, e: Event) {
    match e
    case Fetch(_) => !w.fetching && !w.busy
    case Load(_) => !w.busy
    case Store(_, _) => !w.busy
    case _ => true
  }

  function Ends(w: Flow, es: Events): Flow
    decreases |es|
  {
    if es == [] then w else Ends(After1(w, es[0]), es[1..])
  }

  predicate Ordered(w: Flow, es: Events)
    decreases |es|
  {
    es == [] || (Fits(w, es[0]) && Ordered(After1(w, es[0]), es[1..]))
  }

  lemma {:induction false} Chain(w: Flow, a: Events, b: Events)
    ensures Ends(w, a + b) == Ends(Ends(w, a), b)
    ensures Ordered(w, a + b) <==> Ordered(w, a) && Ordered(Ends(w, a), b)
    decreases |a|
  {
    if a == [] {
      assert a + b == b;
    } else {
      assert (a + b)[1..] == a[1..] + b;
      Chain(After1(w, a[0]), a[1..], b);
    }
  }

  lemma One(w: Flow, e: Event)
    ensures Ends(w, [e]) == After1(w, e) && (Ordered(w, [e]) <==> Fits(w, e))
  {
    assert [e][1..] == [];
  }

  lemma Nothing(w: Flow)
    ensures Ends(w, []) == w && Ordered(w, [])
  {
  }

  /** The flow that a state's ports show. */
  function FlowOf(s: State): Flow { Flow(!s.fetch.mfc, !s.data.mfc) }

  // ---- one cycle ----

  ghost predicate Leads(w: Flow, es: Events, v: Flow) { Ordered(w, es) && Ends(w, es) == v }

  lemma Linked(w: Flow, a: Events, v: Flow, b: Events, u: Flow)
    requires Leads(w, a, v) && Leads(v, b, u)
    ensures Leads(w, a + b, u)
  {
    Chain(w, a, b);
  }

  /** The fetch port, once started, is waited for until it is done. */
  lemma IfPorts(cfg: Config, d: State, latency: nat)
    requires d.data.mfc && d.fetch.counter >= -1 && (d.fetch.mfc <==> d.fetch.counter == -1)
    ensures var f := IfStage(cfg, d, latency); var es := FetchEvents(cfg, d, latency);
      && Ordered(FlowOf(d), es)
      && (f.Running? ==> f.s.data == d.data && Leads(FlowOf(d), es, FlowOf(f.s)))
  {
    PortWaits(cfg, d, latency);
    hide IfStage;
    var w := FlowOf(d);
    var start := CacheSystem.Fetch(Address(d.pc));
    var a: Events := if d.fetch.mfc then [start] else [];
    var f := IfStage(cfg, d, latency);
    var b: Events := if f.Running? && f.s.fetch.mfc then [CacheSystem.FetchDone] else [];
    One(w, start);
    Nothing(w);
    One(Flow(true, false), CacheSystem.FetchDone);
    Nothing(Flow(true, false));
    Chain(w, a, b);
  }

  lemma PortWaits(cfg: Config, d: State, latency: nat)
    requires d.fetch.counter >= -1 && (d.fetch.mfc <==> d.fetch.counter == -1)
    ensures var f := IfStage(cfg, d, latency); f.Running? ==> f.s.data == d.data && f.s.flags == d.flags
  {
    hide Address, WordAt, FetchAllowed, Following;
  }

  /** A redirect in ID cancels the fetch. */
  lemma IdPorts(cfg: Config, e: State)
    ensures var d := IdStage(cfg, e);
      d.Running? ==>
        && d.s.data == e.data && (e.changePc ==> d.s.flags.flush && d.s.flags.hazardStall == e.flags.hazardStall)
        && (if e.changePc then d.s.fetch.mfc && d.s.fetch.counter == -1
            else d.s.fetch == e.fetch && d.s.flags.flush == e.flags.flush)
  {
    hide Decode, DecodedSlot, HazardStall, BranchTarget, PredictedTaken;
  }

  lemma FrontPorts(cfg: Config, e: State, latency: nat)
    requires e.data.mfc && QuietFlags(e) && e.fetch.counter >= -1 && (e.fetch.mfc <==> e.fetch.counter == -1)
    ensures var f := FrontEnd(cfg, e, latency); var es := FrontEvents(cfg, e, latency);
      && Ordered(FlowOf(e), es)
      && (f.Running? ==> f.s.data == e.data && Leads(FlowOf(e), es, FlowOf(f.s)))
  {
    IdPorts(cfg, e);
    hide IdStage, IfStage, FetchEvents;
    var d := IdStage(cfg, e);
    if d.Running? {
      var x := ForIf(d.s);
      IfPorts(cfg, x, latency);
      var w := FlowOf(e);
      var a: Events := if e.changePc then [CacheSystem.FetchDone, CacheSystem.FetchDone] else [];
      Cancelled(w);
      Nothing(w);
      var b := if d.s.flags.hazardStall then [] else FetchEvents(cfg, x, latency);
      Nothing(FlowOf(x));
      Chain(w, a, b);
    } else {
      Nothing(FlowOf(e));
    }
  }

  lemma Cancelled(w: Flow)
    ensures Leads(w, [CacheSystem.FetchDone], w.(fetching := false))
    ensures Leads(w, [CacheSystem.FetchDone, CacheSystem.FetchDone], w.(fetching := false))
  {
    One(w, CacheSystem.FetchDone);
    One(w.(fetching := false), CacheSystem.FetchDone);
    Chain(w, [CacheSystem.FetchDone], [CacheSystem.FetchDone]);
    assert [CacheSystem.FetchDone] + [CacheSystem.FetchDone] == [CacheSystem.FetchDone, CacheSystem.FetchDone];
  }

  /** EX, ID and IF, once MA has completed. */
  lemma AfterMaPorts(cfg: Config, x: State, a: Arch, latency: nat)
    requires AtEx(cfg, x, a)
    ensures var t := AfterMa(cfg, x, latency); var es := AfterMaEvents(cfg, x, latency);
      && Ordered(FlowOf(x), es)
      && (t.Running? ==> t.s.data.mfc && Leads(FlowOf(x), es, FlowOf(t.s)))
  {
    hide FrontEnd, ExStage, AfterMa, FinishTrap, YoungerMatch, FrontEvents, Inert, OperandCurrent;
    Nothing(FlowOf(x));
    ExFrame(x);
    if ExStage(x).Running? {
      ExKeeps(x);
      var e := ExStage(x).s;
      if e.flags.trap && x.flags.trapCounter != 0 {
        HeldShape(cfg, x, latency);
      } else if !e.flags.trap && e.flags.forwardingStall {
        StallShape(cfg, x, latency);
      } else {
        if e.flags.trap {
          NoStallWhilePending(cfg, x, a);
          PendingShape(cfg, x, latency);
        } else {
          PlainShape(cfg, x, latency);
        }
        FrontPorts(cfg, e, latency);
        FrontEndOutcome(cfg, e, latency);
        var f := FrontEnd(cfg, e, latency);
        if f.Running? { FinishKeeps(f.s); }
      }
    } else {
      StopsInEx(cfg, x, latency);
    }
  }

  lemma StopsInEx(cfg: Config, x: State, latency: nat)
    requires !ExStage(x).Running?
    ensures !AfterMa(cfg, x, latency).Running?
  {
    hide ExStage;
  }

  lemma HeldShape(cfg: Config, x: State, latency: nat)
    requires ExStage(x).Running? && ExStage(x).s.flags.trap && x.flags.trapCounter != 0
    ensures var t := AfterMa(cfg, x, latency); t.Running? && t.s.fetch == x.fetch && t.s.data == x.data
  {
    ExKeeps(x);
    hide ExStage, FrontEnd, FinishTrap;
  }

  /** MA starts an access when its port is idle, and the port is idle again when it is done. */
  lemma DataPorts(cfg: Config, s: State, a: Arch, m: State)
    requires Inv(cfg, s, a) && MaResult(cfg, s, m, a)
    ensures Ordered(FlowOf(s), DataStart(s))
        && Leads(FlowOf(s), DataStart(s) + DataEnd(s, m), Flow(!s.fetch.mfc, !m.data.mfc))
    ensures m.fetch == s.fetch
  {
    hide YoungerMatch, ExMaMatches, WriteBack, ForwardMa, Address, StoredCells, MaDone, WbStage;
    MaFetch(s, m);
    var w, busy := FlowOf(s), Flow(!s.fetch.mfc, true);
    var start := DataStart(s);
    if start != [] {
      assert |start| == 1 && start == [start[0]];
      One(w, start[0]);
    }
    Nothing(w);
    One(busy, CacheSystem.DataDone);
    Nothing(busy);
    Chain(w, start, DataEnd(s, m));
    PortAgrees(cfg, s, a, m);
  }

  lemma MaFetch(s: State, m: State)
    requires OnlyMa(WbStage(s), m)
    ensures m.fetch == s.fetch
  {
  }

  /** The data port is busy only for an access in MA. */
  lemma PortAgrees(cfg: Config, s: State, a: Arch, m: State)
    requires Inv(cfg, s, a) && MaResult(cfg, s, m, a)
    ensures s.exMa.ma.mem.NoMem? ==> s.data.mfc && m.data.mfc
  {
    hide YoungerMatch, ExMaMatches, WriteBack;
  }

  /** The rest of a cycle in which MA completes. */
  lemma RestPorts(cfg: Config, s: State, a: Arch, m: State, latency: nat)
    requires Inv(cfg, s, a) && MaResult(cfg, s, m, a) && m.data.mfc
    ensures var v, t := Flow(!s.fetch.mfc, false), AfterMa(cfg, ForEx(m), latency);
      var es := (if m.flags.flush then [CacheSystem.FetchDone] else []) + AfterMaEvents(cfg, ForEx(m), latency);
      Ordered(v, es) && (t.Running? ==> Leads(v, es, FlowOf(t.s)))
  {
    if m.flags.flush { FlushReachesEx(cfg, s, m, a); } else { NoFlushReachesEx(cfg, s, m, a); }
    MaFetch(s, m);
    hide WbStage, AfterMa, AtEx, Step, MaDone, OnlyMa, YoungerMatch, ExMaMatches, AfterMaEvents, Inv, MaResult;
    var v, x := Flow(!s.fetch.mfc, false), ForEx(m);
    AfterMaPorts(cfg, x, After(cfg, s.exMa.ins, a), latency);
    Cancelled(v);
    Nothing(v);
    Chain(v, if m.flags.flush then [CacheSystem.FetchDone] else [], AfterMaEvents(cfg, x, latency));
  }

  lemma CyclePorts(cfg: Config, s: State, a: Arch, latency: Latency)
    requires Inv(cfg, s, a) && latency.Valid()
    ensures var t := Cycle(cfg, s, latency); var es := CycleEvents(cfg, s, latency);
      Ordered(FlowOf(s), es) && (t.Running? ==> Leads(FlowOf(s), es, FlowOf(t.s)))
  {
    hide MaStage, WbStage, AfterMa, Step, MaDone, OnlyMa, DataStart, DataEnd, AfterMaEvents, Inv, MaResult, FlushFromMa;
    MaStageCorrect(cfg, s, a, latency.data) by { Older(cfg, s, a); }
    var r := MaStage(cfg, WbStage(s), latency.data);
    if r.Running? {
      var m := r.s;
      var v := Flow(!s.fetch.mfc, !m.data.mfc);
      var data := DataStart(s) + DataEnd(s, m);
      DataPorts(cfg, s, a, m);
      Nothing(v);
      if m.data.mfc {
        RestPorts(cfg, s, a, m, latency.fetch);
        Chain(FlowOf(s), data, (if m.flags.flush then [CacheSystem.FetchDone] else []) +
            AfterMaEvents(cfg, ForEx(m), latency.fetch));
      } else {
        Chain(FlowOf(s), data, []);
      }
    } else {
      StartsOrdered(cfg, s, a);
    }
  }

  lemma Older(cfg: Config, s: State, a: Arch)
    requires Inv(cfg, s, a)
    ensures OlderMatch(cfg, s, a)
  {
    hide OlderMatch;
  }

  lemma StartsOrdered(cfg: Config, s: State, a: Arch)
    ensures Ordered(FlowOf(s), DataStart(s))
  {
    hide ForwardMa, Address, StoredCells, WbStage;
    var start := DataStart(s);
    Nothing(FlowOf(s));
    if start != [] {
      assert |start| == 1 && start == [start[0]];
      One(FlowOf(s), start[0]);
    }
  }

  // ---- whole runs ----

  /** In every run the ports are used in the order that CacheSystem.Allowed demands, and what is
      outstanding at the end is what the ports say. */
  lemma {:induction false} PortsOrdered(cfg: Config, a: Arch, latencies: seq<Latency>)
    requires WordAlignedText(cfg.limits) && a.regs[0] == 0 && ValidLatencies(latencies)
    ensures var r, es := Run(cfg, Initial(a), latencies), RunEvents(cfg, Initial(a), latencies);
      Ordered(Flow(false, false), es) && (r.Running? ==> Ends(Flow(false, false), es) == FlowOf(r.s))
    decreases |latencies|
  {
    hide Inv, Cycle, CycleEvents, Step, Trace, Legal, Log, WrittenBack;
    var w := Flow(false, false);
    Nothing(w);
    if latencies != [] {
      var k := |latencies| - 1;
      var prefix := latencies[..k];
      PortsOrdered(cfg, a, prefix);
      Refinement(cfg, a, prefix);
      var r := Run(cfg, Initial(a), prefix);
      if r.Running? {
        CyclePorts(cfg, r.s, Steps(cfg, a, |Log(cfg, Initial(a), prefix)|), latencies[k]);
        Chain(w, RunEvents(cfg, Initial(a), prefix), CycleEvents(cfg, r.s, latencies[k]));
      }
    }
  }

  // ---- the caches below ----

  /** Fetches stay below the boundary, data accesses at or above it, and stores in one block. */
  ghost predicate Separated(l1d: CacheLevel.Level, es: Events, limit: nat)
    requires l1d.p.geo.Ok()
  {
    forall e <- es ::
      match e
      case Fetch(a) => a < limit
      case Load(a) => a >= limit
      case Store(a, d) => a >= limit && forall w | w in d :: CacheLevel.Same(l1d, a, w)
      case _ => true
  }

  /** Events with the cycles in which the caches see them. */
  function Stamped(es: Events, stamps: seq<nat>): (r: seq<(Event, nat)>)
    requires |stamps| == |es|
    ensures |r| == |es|
  {
    seq(|es|, i requires 0 <= i < |es| => (es[i], stamps[i]))
  }

  function SystemFlow(s: CacheSystem.System): Flow { Flow(s.fetching, s.busy) }

  lemma ApplyFlow(s: CacheSystem.System, e: Event, now: nat)
    requires CacheSystem.SystemShaped(s)
    ensures SystemFlow(CacheSystem.Apply(s, e, now).0) == After1(SystemFlow(s), e)
  {
  }

  lemma StampedFront(es: Events, stamps: seq<nat>, l1d: CacheLevel.Level, limit: nat)
    requires es != [] && |stamps| == |es| && l1d.p.geo.Ok() && Separated(l1d, es, limit)
    ensures var n := |es| - 1;
      && Stamped(es, stamps)[..n] == Stamped(es[..n], stamps[..n]) && Separated(l1d, es[..n], limit)
          && Separated(l1d, [es[n]], limit)
  {
    var n := |es| - 1;
    assert forall e <- es[..n] :: e in es;
    assert es[n] in es;
  }

  /** One more event. */
  lemma LegalStep(s: CacheSystem.System, front: seq<(Event, nat)>, e: Event, now: nat, limit: nat)
    requires CacheSystem.SystemShaped(s) && s.l1d.p.geo.Ok() && CacheSystem.Legal(s, front, limit)
        && Separated(s.l1d, [e], limit)
    requires Fits(SystemFlow(CacheSystem.Run(s, front)), e)
    ensures CacheSystem.Legal(s, front + [(e, now)], limit)
    ensures SystemFlow(CacheSystem.Run(s, front + [(e, now)])) == After1(SystemFlow(CacheSystem.Run(s, front)), e)
  {
    var m, all := CacheSystem.Run(s, front), front + [(e, now)];
    assert all[..|all| - 1] == front;
    assert e in [e];
    ApplyFlow(m, e, now);
    CacheSystem.RunParams(s, front);
    hide CacheSystem.Apply;
  }

  /** An ordered and separated sequence is one that the cache theorems are about. */
  lemma {:induction false} OrderedIsLegal(s: CacheSystem.System, es: Events, stamps: seq<nat>, limit: nat)
    requires CacheSystem.SystemShaped(s) && s.l1d.p.geo.Ok() && |stamps| == |es|
    requires Ordered(SystemFlow(s), es) && Separated(s.l1d, es, limit)
    ensures CacheSystem.Legal(s, Stamped(es, stamps), limit)
    ensures SystemFlow(CacheSystem.Run(s, Stamped(es, stamps))) == Ends(SystemFlow(s), es)
    decreases |es|
  {
    Nothing(SystemFlow(s));
    if es == [] {
      assert Stamped(es, stamps) == [];
    } else {
      var n := |es| - 1;
      var front, e := es[..n], es[n];
      StampedFront(es, stamps, s.l1d, limit);
      assert es == front + [e] && Stamped(es, stamps) == Stamped(front, stamps[..n]) + [(e, stamps[n])];
      Chain(SystemFlow(s), front, [e]);
      OrderedIsLegal(s, front, stamps[..n], limit);
      One(Ends(SystemFlow(s), front), e);
      LegalStep(s, Stamped(front, stamps[..n]), e, stamps[n], limit);
    }
    hide CacheSystem.Apply, Ordered, Ends, Separated, CacheSystem.Legal, CacheSystem.Run;
  }

  /** So every run of the pipeline drives the caches as they are proved for: starting idle and
      coherent they stay coherent, no access answers -1 or exits, and nothing in flight is lost. The
      boundary is any address that keeps the fetched blocks apart from the accessed ones. */
  lemma {:induction false} PipelineDrivesCaches(cfg: Config, a: Arch, latencies: seq<Latency>, s: CacheSystem.System,
      stamps: seq<nat>, limit: nat)
    requires WordAlignedText(cfg.limits) && a.regs[0] == 0 && ValidLatencies(latencies)
    requires CacheSystem.SystemOk(s, limit) && !s.fetching && !s.busy && s.l1d.p.geo.Ok()
    requires var es := RunEvents(cfg, Initial(a), latencies); |stamps| == |es| && Separated(s.l1d, es, limit)
    ensures var es := Stamped(RunEvents(cfg, Initial(a), latencies), stamps);
      && CacheSystem.Legal(s, es, limit) && CacheSystem.SystemOk(CacheSystem.Run(s, es), limit)
      && forall w: nat :: CacheSystem.Cell(CacheSystem.Run(s, es), limit, w) == CacheSystem.Expected(s, limit, es, w)
  {
    OkShaped(s, limit);
    hide CacheSystem.SystemOk, CacheSystem.SystemShaped, CacheSystem.Legal, CacheSystem.Run, CacheSystem.Cell,
         CacheSystem.Expected, RunEvents, Ordered, Ends, Separated;
    PortsOrdered(cfg, a, latencies);
    OrderedIsLegal(s, RunEvents(cfg, Initial(a), latencies), stamps, limit);
    CacheSystem.Coherence(s, Stamped(RunEvents(cfg, Initial(a), latencies), stamps), limit);
  }

  lemma OkShaped(s: CacheSystem.System, limit: nat)
    requires CacheSystem.SystemOk(s, limit)
    ensures CacheSystem.SystemShaped(s)
  {
  }
}
