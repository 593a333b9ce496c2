/** The statistics of the levels add up, in spite of the counts that write-allocate takes back. */
module CacheCount {
  import opened CacheSet
  import opened CacheLevel
  import opened Cache
  import opened CacheSystem
  import opened CacheAccess

  function Reads(l: Level): int { l.stats.hitR + l.stats.missR }

  function Writes(l: Level): int { l.stats.hitW + l.stats.missW }

  /** The reads that a level has passed down: its read misses and its allocated write misses. */
  function DownReads(l: Level): int {
    l.stats.missR + if l.p.allocate then l.stats.missW else 0
  }

  /** The writes that a level has passed down: all of them when it writes through, else its write-backs and
      the write misses it did not allocate. */
  function DownWrites(l: Level): int {
    if !l.p.writeBack then Writes(l)
    else l.stats.writebacks + if l.p.allocate then 0 else l.stats.missW
  }

  /** From m to n every level got as many reads and writes as the level above passed down. */
  ghost predicate Flow(m: Memory, n: Memory) {
    m.Cached? == n.Cached? && (m.Cached? ==>
      && n.level.p == m.level.p && Flow(m.below, n.below)
      && (m.below.Cached? ==>
        && Reads(n.below.level) - Reads(m.below.level) == DownReads(n.level) - DownReads(m.level)
        && Writes(n.below.level) - Writes(m.below.level) == DownWrites(n.level) - DownWrites(m.level)))
  }

  ghost predicate Counted(m: Memory, n: Memory, nr: int, nw: int) {
    m.Cached? ==>
      && n.Cached? && Reads(n.level) - Reads(m.level) == nr && Writes(n.level) - Writes(m.level) == nw
  }

  lemma {:induction false} FlowTwice(m: Memory, n: Memory, r: Memory)
    requires Flow(m, n) && Flow(n, r)
    ensures Flow(m, r)
  {
    if m.Cached? { FlowTwice(m.below, n.below, r.below); }
  }

  lemma {:induction false} FlowSelf(m: Memory)
    ensures Flow(m, m)
  {
    if m.Cached? { FlowSelf(m.below); }
  }

  lemma {:induction false} CompleteFlow(m: Memory, a: nat)
    requires Shaped(m)
    ensures Flow(m, Complete(m, a)) && Counted(m, Complete(m, a), 0, 0)
  {
    if m.Cached? {
      CompleteFlow(m.below, a);
      hide Level.Mark;
    }
  }

  /** The two ways an eviction can succeed. */
  lemma {:induction false} EvictShape(l: Level, b: Memory, a: nat, now: nat)
    requires l.Shaped() && Shaped(b) && Evict(l, b, a, now).1.Stall?
    ensures var k := Chosen(l, a); var n := Evict(l, b, a, now).0;
      k < l.p.ways && n.level.p == l.p
      && var v := l.Ways(a)[k].addr; var w := Write(b, v, Contents(l, v), now, false);
      if l.Ways(a)[k].valid && l.p.writeBack && l.Ways(a)[k].dirty then
        w.1.Stall? && n.below == Complete(w.0, v) && n.level.stats == CountWriteback(l, b).stats
      else
        n.below == b && n.level.stats == l.stats
  {
    hide Level.Place, Level.Lookup, Complete, Fetched, Contents, Victim, FirstInvalid, Write;
  }

  lemma {:induction false} EvictFlow(l: Level, b: Memory, a: nat, now: nat)
    requires l.Shaped() && Shaped(b) && Evict(l, b, a, now).1.Stall?
    ensures var n := Evict(l, b, a, now).0;
      Flow(Cached(l, b), n) && n.level.stats == l.stats.(writebacks := n.level.stats.writebacks)
    decreases |ParamsOf(b)| + 1, 0
  {
    EvictShape(l, b, a, now);
    var k := Chosen(l, a);
    var n := Evict(l, b, a, now).0;
    if l.Ways(a)[k].valid && l.p.writeBack && l.Ways(a)[k].dirty {
      var v := l.Ways(a)[k].addr;
      WriteFlow(b, v, Contents(l, v), now, false);
      var b1 := Write(b, v, Contents(l, v), now, false).0;
      CompleteFlow(b1, v);
      DownFlow(l, b, b1, Complete(b1, v), n);
    } else {
      FlowSelf(b);
      CleanFlow(l, b, n);
    }
    hide Complete, Contents, Evict, Write, Chosen, Level.Ways, Flow;
  }

  lemma {:induction false} CleanFlow(l: Level, b: Memory, n: Memory)
    requires n.Cached? && n.below == b && n.level.p == l.p && n.level.stats == l.stats && Flow(b, b)
    ensures Flow(Cached(l, b), n)
  {
  }

  /** One write-back, passed down once. */
  lemma {:induction false} DownFlow(l: Level, b: Memory, b1: Memory, b2: Memory, n: Memory)
    requires Flow(b, b1) && Counted(b, b1, 0, 1) && Flow(b1, b2) && Counted(b1, b2, 0, 0)
    requires n.Cached? && n.below == b2 && n.level.p == l.p && l.p.writeBack
        && n.level.stats == CountWriteback(l, b).stats
    ensures Flow(Cached(l, b), n)
  {
    FlowTwice(b, b1, b2);
  }

  lemma {:induction false} MissFlow(l: Level, b: Memory, b1: Memory, n: Memory)
    requires Flow(b, b1) && Counted(b, b1, 1, 0) && Flow(Cached(l, b1), n) && Shaped(n) && n.Cached?
    requires n.level.stats == l.stats.(writebacks := n.level.stats.writebacks)
    ensures Flow(Cached(l, b), CountRead(n, 0, 1)) && Counted(Cached(l, b), CountRead(n, 0, 1), 1, 0)
  {
    FlowTwice(b, b1, n.below);
  }

  lemma {:induction false} ReadFlow(m: Memory, a: nat, now: nat)
    requires Shaped(m) && Read(m, a, now).1.Stall?
    ensures Flow(m, Read(m, a, now).0) && Counted(m, Read(m, a, now).0, 1, 0)
    decreases |ParamsOf(m)|, 1
  {
    if m.Cached? {
      var l, b := m.level, m.below;
      FlowSelf(b);
      if l.Lookup(a).Free? {
        ReadFlow(b, a, now);
        var b1 := Read(b, a, now).0;
        EvictFlow(l, b1, a, now);
        var n := Evict(l, b1, a, now).0;
        hide Level.Use, Level.Lookup, Evict, Flow, Counted;
        MissFlow(l, b, b1, n);
      } else {
        hide Level.Use, Level.Lookup, Evict;
      }
    }
  }

  /** A write that does not allocate ends in one of three ways. */
  lemma {:induction false} WriteShape(m: Memory, a: nat, d: map<nat, int>, now: nat, again: bool)
    requires Shaped(m) && m.Cached? && Write(m, a, d, now, again).1.Stall?
    requires m.level.Lookup(a).Hit? || !m.level.p.allocate || again
    ensures var r := Write(m, a, d, now, again).0; var w := Write(m.below, a, d, now, false);
      var hit := m.level.Lookup(a).Hit?; var s := m.level.stats;
      r.Cached? && r.level.p == m.level.p
      && (hit || !m.level.p.allocate)
      && r.level.stats == (if hit then s.(hitW := s.hitW + 1) else s.(missW := s.missW + 1))
      && (if hit && m.level.p.writeBack then r.below == m.below else w.1.Stall? && r.below == w.0)
  {
    hide Level.Store, Level.Lookup, Read;
  }

  lemma {:induction false} PassFlow(m: Memory, r: Memory, hit: bool)
    requires m.Cached? && r.Cached? && r.level.p == m.level.p && (hit || !m.level.p.allocate)
    requires var s := m.level.stats; r.level.stats == if hit then s.(hitW := s.hitW + 1) else s.(missW := s.missW + 1)
    requires if hit && m.level.p.writeBack then r.below == m.below
        else Flow(m.below, r.below) && Counted(m.below, r.below, 0, 1)
    ensures Flow(m, r) && Counted(m, r, 0, 1)
  {
    FlowSelf(m.below);
  }

  /** Taking back the counts of the read and of the second try. */
  lemma {:induction false} RecountFlow(m: Memory, w: Memory)
    requires m.Cached? && Shaped(w) && w.Cached? && m.level.p.allocate
    requires Flow(m, w) && Counted(m, w, 1, 1)
    ensures var r := CountWrite(CountRead(w, 0, -1), -1, 1); Flow(m, r) && Counted(m, r, 0, 1)
  {
  }

  lemma {:induction false} CountedTwice(m: Memory, n: Memory, r: Memory, nr: int, nw: int, kr: int, kw: int)
    requires m.Cached? && Counted(m, n, nr, nw) && Counted(n, r, kr, kw)
    ensures Counted(m, r, nr + kr, nw + kw)
  {
  }

  lemma {:induction false} WriteFlow(m: Memory, a: nat, d: map<nat, int>, now: nat, again: bool)
    requires Shaped(m) && Write(m, a, d, now, again).1.Stall?
    ensures var r := Write(m, a, d, now, again).0;
      Flow(m, r) && Counted(m, r, 0, 1)
      && (again && m.Cached? && m.level.p.allocate ==> r.level.stats.missW == m.level.stats.missW)
    decreases |ParamsOf(m)|, if again then 2 else 4
  {
    if m.Cached? {
      if m.level.Lookup(a).Hit? || !m.level.p.allocate || again {
        WriteShape(m, a, d, now, again);
        if !(m.level.Lookup(a).Hit? && m.level.p.writeBack) { WriteFlow(m.below, a, d, now, false); }
        hide Level.Lookup, Write, Read, Flow, Counted;
        PassFlow(m, Write(m, a, d, now, again).0, m.level.Lookup(a).Hit?);
      } else {
        AllocateFlow(m, a, d, now);
      }
    }
  }

  lemma {:induction false} AllocateShape(m: Memory, a: nat, d: map<nat, int>, now: nat)
    requires Shaped(m) && m.Cached? && !m.level.Lookup(a).Hit? && m.level.p.allocate
        && Write(m, a, d, now, false).1.Stall?
    ensures var r1 := Read(m, a, now); var r2 := Write(Complete(r1.0, a), a, d, now, true);
      r1.1.Stall? && r2.1.Stall? && Write(m, a, d, now, false).0 == CountWrite(CountRead(r2.0, 0, -1), -1, 1)
  {
    hide Level.Lookup, Read, Complete;
  }

  lemma {:induction false} AllocateFlow(m: Memory, a: nat, d: map<nat, int>, now: nat)
    requires Shaped(m) && m.Cached? && !m.level.Lookup(a).Hit? && m.level.p.allocate
        && Write(m, a, d, now, false).1.Stall?
    ensures var r := Write(m, a, d, now, false).0; Flow(m, r) && Counted(m, r, 0, 1)
    decreases |ParamsOf(m)|, 3
  {
    AllocateShape(m, a, d, now);
    ReadFlow(m, a, now);
    var n := Read(m, a, now).0;
    var c := Complete(n, a);
    CompleteFlow(n, a);
    assert c.level.p == m.level.p;
    WriteFlow(c, a, d, now, true);
    var w := Write(c, a, d, now, true).0;
    hide Read, Write, Complete, Level.Lookup, Flow, Counted, CountRead, CountWrite;
    FlowTwice(m, n, c);
    FlowTwice(m, c, w);
    CountedTwice(m, n, c, 1, 0, 0, 0);
    CountedTwice(m, c, w, 1, 0, 0, 1);
    RecountFlow(m, w);
  }

  // ---- the whole system ----

  /** Each level below got exactly what the levels above it passed down, and the first levels got
      the accesses counted by nr, nw and nf. */
  ghost predicate Chain(m: Memory) {
    m.Cached? ==> Chain(m.below) && (m.below.Cached? ==>
      Reads(m.below.level) == DownReads(m.level) && Writes(m.below.level) == DownWrites(m.level))
  }

  ghost predicate Conserved(s: System) {
    && Chain(s.below)
    && (s.below.Cached? ==>
      && Reads(s.below.level) == DownReads(s.l1i) + DownReads(s.l1d)
      && Writes(s.below.level) == DownWrites(s.l1i) + DownWrites(s.l1d))
  }

  function Fetched(es: seq<(Event, nat)>): nat {
    if es == [] then 0 else Fetched(es[..|es| - 1]) + if es[|es| - 1].0.Fetch? then 1 else 0
  }

  function Loads(es: seq<(Event, nat)>): nat {
    if es == [] then 0 else Loads(es[..|es| - 1]) + if es[|es| - 1].0.Load? then 1 else 0
  }

  function Stores(es: seq<(Event, nat)>): nat {
    if es == [] then 0 else Stores(es[..|es| - 1]) + if es[|es| - 1].0.Store? then 1 else 0
  }

  lemma {:induction false} ChainFlow(m: Memory, n: Memory)
    requires Chain(m) && Flow(m, n)
    ensures Chain(n)
  {
    if m.Cached? { ChainFlow(m.below, n.below); }
  }

  /** A flow through one of two first levels keeps the sum over both. */
  lemma {:induction false} SideFlow(l: Level, b: Memory, n: Level, b1: Memory, o: Level)
    requires Flow(Cached(l, b), Cached(n, b1)) && Chain(b)
    requires b.Cached? ==>
      Reads(b.level) == DownReads(l) + DownReads(o) && Writes(b.level) == DownWrites(l) + DownWrites(o)
    ensures Chain(b1)
    ensures b1.Cached? ==>
      Reads(b1.level) == DownReads(n) + DownReads(o) && Writes(b1.level) == DownWrites(n) + DownWrites(o)
  {
    FlowTop(l, b, n, b1);
    ChainFlow(b, b1);
    hide Flow, Chain;
  }

  lemma {:induction false} FlowTop(l: Level, b: Memory, n: Level, b1: Memory)
    requires Flow(Cached(l, b), Cached(n, b1))
    ensures n.p == l.p && Flow(b, b1) && b.Cached? == b1.Cached?
    ensures b.Cached? ==>
      && Reads(b1.level) - Reads(b.level) == DownReads(n) - DownReads(l)
      && Writes(b1.level) - Writes(b.level) == DownWrites(n) - DownWrites(l)
  {
  }

  lemma {:induction false} StepConserves(s: System, e: Event, now: nat)
    requires SystemShaped(s) && Conserved(s) && Apply(s, e, now).1.Stall?
    ensures var r := Apply(s, e, now).0;
      Conserved(r)
      && Reads(r.l1i) == Reads(s.l1i) + (if e.Fetch? then 1 else 0)
      && Reads(r.l1d) == Reads(s.l1d) + (if e.Load? then 1 else 0)
      && Writes(r.l1d) == Writes(s.l1d) + (if e.Store? then 1 else 0)
  {
    var i, d := Cached(s.l1i, s.below), Cached(s.l1d, s.below);
    var r := Apply(s, e, now).0;
    match e {
      case Fetch(a) => ReadFlow(i, a, now);
      case FetchDone => CompleteFlow(i, s.marI);
      case Load(a) => ReadFlow(d, a, now);
      case Store(a, c) => WriteFlow(d, a, c, now, false);
      case DataDone => CompleteFlow(d, s.mar);
    }
    assert Flow(if e.Fetch? || e.FetchDone? then i
        else d, Cached(if e.Fetch? || e.FetchDone? then r.l1i else r.l1d, r.below));
    hide Read, Write, Complete, Flow;
    if e.Fetch? || e.FetchDone? { SideFlow(s.l1i, s.below, r.l1i, r.below, s.l1d); }
    else { SideFlow(s.l1d, s.below, r.l1d, r.below, s.l1i); }
  }

  /** Over every run: what each level received is what the levels above report as passed down. */
  lemma {:induction false} Conservation(s: System, es: seq<(Event, nat)>, limit: nat)
    requires SystemOk(s, limit) && Legal(s, es, limit) && Conserved(s)
    ensures var r := Run(s, es);
      Conserved(r)
      && Reads(r.l1i) == Reads(s.l1i) + Fetched(es)
      && Reads(r.l1d) == Reads(s.l1d) + Loads(es)
      && Writes(r.l1d) == Writes(s.l1d) + Stores(es)
    decreases |es|
  {
    if es != [] {
      var front := es[..|es| - 1];
      Conservation(s, front, limit);
      Coherence(s, front, limit);
      StepKeeps(Run(s, front), es[|es| - 1].0, es[|es| - 1].1, limit);
      StepConserves(Run(s, front), es[|es| - 1].0, es[|es| - 1].1);
      hide SystemOk, Apply, Cell, Conserved, Allowed;
    }
  }

  lemma {:induction false} EmptyChain(ps: seq<Params>, ram: Memory)
    requires ram.Ram?
    ensures Chain(EmptyMemory(ps, ram))
  {
    if ps != [] { EmptyChain(ps[1..], ram); }
  }

  lemma {:induction false} StartConserved(i: Params, d: Params, ps: seq<Params>, ram: Memory)
    requires ram.Ram?
    ensures Conserved(System(EmptyLevel(i), EmptyLevel(d), EmptyMemory(ps, ram), 0, false, 0, false))
  {
    EmptyChain(ps, ram);
  }
}
