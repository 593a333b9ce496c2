/** Split first-level caches over shared lower levels, driven by the two memory ports
    (src/cache/read.c:9-81, src/cache/write.c:6-42, src/memory/memory.c). */
module CacheSystem {
  import opened Wrappers
  import opened CacheSet
  import opened CacheLevel
  import opened Cache
  import opened CacheCoherence
  import opened CacheAccess

  /** `marI` and `mar` are the ports' address registers; `fetching` and `busy` say whether the
      counter of the port is running. */
  datatype System = System(l1i: Level, l1d: Level, below: Memory, marI: nat, fetching: bool, mar: nat, busy: bool)

  /** What the ports ask for. FetchDone also stands for a cancelled fetch, which completes the
      block at mar_i as well (src/memory/memory.c:36-45). */
  datatype Event = Fetch(a: nat) | FetchDone | Load(a: nat) | Store(a: nat, d: map<nat, int>) | DataDone

  ghost predicate SystemShaped(s: System) {
    s.l1i.Shaped() && s.l1d.Shaped() && Shaped(s.below)
  }

  function Apply(s: System, e: Event, now: nat): (r: (System, Answer))
    requires SystemShaped(s)
    ensures SystemShaped(r.0)
  {
    match e
    case Fetch(a) =>
      var (m, t) := Read(Cached(s.l1i, s.below), a, now);
      (s.(l1i := m.level, below := m.below, marI := a, fetching := true), t)
    case FetchDone =>
      var m := Complete(Cached(s.l1i, s.below), s.marI);
      (s.(l1i := m.level, below := m.below, fetching := false), Stall(0))
    case Load(a) =>
      var (m, t) := Read(Cached(s.l1d, s.below), a, now);
      (s.(l1d := m.level, below := m.below, mar := a, busy := true), t)
    case Store(a, d) =>
      var (m, t) := Write(Cached(s.l1d, s.below), a, d, now, false);
      (s.(l1d := m.level, below := m.below, mar := a, busy := true), t)
    case DataDone =>
      var m := Complete(Cached(s.l1d, s.below), s.mar);
      (s.(l1d := m.level, below := m.below, busy := false), Stall(0))
  }

  /** The order the simulator keeps: a data access may start while one fetch is outstanding, but
      no fetch starts while a data access is (src/execution/simulator.c:45-59). Text is fetched,
      data is loaded and stored, and a store stays in one block. */
  ghost predicate Allowed(s: System, e: Event, limit: nat)
    requires s.l1d.p.geo.Ok()
  {
    match e
    case Fetch(a) => !s.fetching && !s.busy && a < limit
    case Load(a) => !s.busy && a >= limit
    case Store(a, d) => !s.busy && a >= limit && forall w | w in d :: Same(s.l1d, a, w)
    case _ => true
  }

  function Fetching(s: System): set<nat> { if s.fetching then {s.marI} else {} }

  function Accessing(s: System): set<nat> { if s.busy then {s.mar} else {} }

  /** What holds in every reachable state: both sides are coherent, blocks in flight are those of
      the accesses outstanding, and the first levels hold text and data only. */
  ghost predicate SystemOk(s: System, limit: nat) {
    && Fine(Cached(s.l1i, s.below), limit)
    && Fine(Cached(s.l1d, s.below), limit)
    && QuietLevel(s.l1i, Fetching(s)) && QuietLevel(s.l1d, Accessing(s))
    && Quiet(s.below, Fetching(s) + Accessing(s))
    && (s.fetching ==> s.marI < limit) && (s.busy ==> s.mar >= limit)
    && (forall w: nat :: s.l1i.Holds(w) ==> w < limit)
    && (forall w: nat :: s.l1d.Holds(w) ==> w >= limit)
  }

  /** What a read of w through its own port would return. */
  function Cell(s: System, limit: nat, w: nat): int
    requires SystemShaped(s)
  {
    Look(Cached(if w < limit then s.l1i else s.l1d, s.below), w)
  }

  /** An access through one first level leaves the other coherent. */
  lemma {:induction false} OtherSide(l: Level, b: Memory, n: Level, b1: Memory, o: Level, d: map<nat, int>,
      top: set<nat>, low: set<nat>, limit: nat)
    requires Effect(Cached(l, b), Cached(n, b1), d, top, low, limit) && Fine(Cached(o, b), limit)
    requires forall w: nat :: o.Holds(w) ==> !l.Holds(w) && !n.Holds(w) && w !in d
    ensures Fine(Cached(o, b1), limit)
  {
    Tail(ParamsOf(Cached(n, b1)), 0, map[], {}, limit);
    forall w: nat | o.Holds(w)
      ensures Look(b1, w) == Look(b, w)
    {
      assert Look(Cached(n, b1), w) == Look(Cached(l, b), w);
    }
    hide Level.Holds, Level.Dirty, Level.Probe, Look, Fits, Lower;
    assert Agree(o, b1);
    assert ParamsOf(b1) == ParamsOf(Cached(n, b1))[1..] == ParamsOf(Cached(l, b))[1..] == ParamsOf(b);
  }

  lemma {:induction false} SameSide(l: Level, limit: nat, a: nat)
    requires l.p.geo.Ok() && limit % l.p.geo.blockSize == 0
    ensures forall w: nat :: Same(l, a, w) ==> (w < limit <==> a < limit)
  {
    forall w: nat | Same(l, a, w)
      ensures w < limit <==> a < limit
    {
      if w < limit <= a { LimitSplits(l.p.geo, limit, w, a); }
      if a < limit <= w { LimitSplits(l.p.geo, limit, a, w); }
    }
  }

  lemma {:induction false} TopAligned(l: Level, b: Memory, limit: nat)
    requires Fine(Cached(l, b), limit)
    ensures l.p.geo.Ok() && limit % l.p.geo.blockSize == 0
  {
    assert ParamsOf(Cached(l, b))[0] == l.p;
  }

  /** The part of a step's result that does not depend on the event. */
  ghost predicate Stepped(s: System, r: (System, Answer), d: map<nat, int>, limit: nat) {
    && r.1.Stall? && SystemOk(s, limit) && SystemOk(r.0, limit)
    && forall w: nat :: Cell(r.0, limit, w) == if w in d then d[w] else Cell(s, limit, w)
  }

  /** No block in flight was evicted or completed. */
  ghost predicate Protected(s: System, r: System)
    requires SystemShaped(s) && SystemShaped(r)
  {
    && (forall w: nat :: s.l1i.InFlight(w) ==> r.l1i.InFlight(w))
    && (forall w: nat :: s.l1d.InFlight(w) ==> r.l1d.InFlight(w))
    && Kept(s.below, r.below)
  }

  lemma {:induction false} FetchKeeps(s: System, a: nat, now: nat, limit: nat)
    requires SystemOk(s, limit) && Allowed(s, Fetch(a), limit)
    ensures var r := Apply(s, Fetch(a), now);
        Stepped(s, r, map[], limit) && r.1.n >= 1 && r.0.l1i.Holds(a) && Protected(s, r.0)
  {
    assert Fetching(s) + Accessing(s) == {};
    ReadKeeps(s.l1i, s.below, a, now, {}, {}, 0, limit);
    var r := Apply(s, Fetch(a), now).0;
    TopAligned(s.l1i, s.below, limit);
    SameSide(s.l1i, limit, a);
    assert {} + {a} == {a};
    FetchedOk(s, r, a, limit);
  }

  lemma {:induction false} FetchedOk(s: System, r: System, a: nat, limit: nat)
    requires SystemOk(s, limit) && !s.fetching && !s.busy && a < limit
    requires Fetches(s.l1i, s.below, a, {}, {}, limit, Cached(r.l1i, r.below))
    requires r == s.(l1i := r.l1i, below := r.below, marI := a, fetching := true)
    requires forall w: nat :: Same(s.l1i, a, w) ==> w < limit
    ensures SystemOk(r, limit) && forall w: nat :: Cell(r, limit, w) == Cell(s, limit, w)
  {
    assert {} + {a} == {a};
    OtherSide(s.l1i, s.below, r.l1i, r.below, s.l1d, map[], {a}, {a}, limit);
    assert Fetching(r) == {a} && Accessing(r) == {} && Fetching(r) + Accessing(r) == {a};
    BelowSame(s.l1i, s.below, r.l1i, r.below, map[], {a}, {a}, limit);
    hide Level.Holds, Level.InFlight, Level.Probe, Level.Dirty, Fine, Same, Quiet, QuietLevel;
  }

  /** A cell that the top level held neither before nor after is unchanged below. */
  lemma {:induction false} BelowSame(l: Level, b: Memory, n: Level, b1: Memory, d: map<nat, int>, top: set<nat>,
      low: set<nat>, limit: nat)
    requires Effect(Cached(l, b), Cached(n, b1), d, top, low, limit)
    ensures forall w: nat :: !l.Holds(w) && !n.Holds(w) && w !in d ==> Look(b1, w) == Look(b, w)
  {
    hide Level.Holds;
    forall w: nat | !l.Holds(w) && !n.Holds(w) && w !in d
      ensures Look(b1, w) == Look(b, w)
    {
      assert Look(Cached(n, b1), w) == Look(Cached(l, b), w);
    }
  }

  lemma {:induction false} AccessOk(s: System, r: System, a: nat, d: map<nat, int>, limit: nat)
    requires SystemOk(s, limit) && !s.busy && a >= limit
    requires Effect(Cached(s.l1d, s.below), Cached(r.l1d, r.below), d, {a}, Fetching(s) + {a}, limit)
    requires forall w: nat :: r.l1d.Holds(w) ==> s.l1d.Holds(w) || Same(s.l1d, a, w)
    requires r == s.(l1d := r.l1d, below := r.below, mar := a, busy := true)
    requires forall w: nat :: Same(s.l1d, a, w) ==> w >= limit
    requires forall w | w in d :: Same(s.l1d, a, w)
    ensures SystemOk(r, limit) && forall w: nat :: Cell(r, limit, w) == if w in d then d[w] else Cell(s, limit, w)
  {
    OtherSide(s.l1d, s.below, r.l1d, r.below, s.l1i, d, {a}, Fetching(s) + {a}, limit);
    assert Fetching(r) == Fetching(s) && Accessing(r) == {a};
    BelowSame(s.l1d, s.below, r.l1d, r.below, d, {a}, Fetching(s) + {a}, limit);
    hide Level.Holds, Level.InFlight, Level.Probe, Level.Dirty, Fine, Same, Quiet, QuietLevel, Kept;
  }

  lemma {:induction false} LoadKeeps(s: System, a: nat, now: nat, limit: nat)
    requires SystemOk(s, limit) && Allowed(s, Load(a), limit)
    ensures var r := Apply(s, Load(a), now);
        Stepped(s, r, map[], limit) && r.1.n >= 1 && r.0.l1d.Holds(a) && Protected(s, r.0)
  {
    assert Fetching(s) + Accessing(s) == Fetching(s);
    ReadKeeps(s.l1d, s.below, a, now, {}, Fetching(s), s.marI, limit);
    var r := Apply(s, Load(a), now).0;
    TopAligned(s.l1d, s.below, limit);
    SameSide(s.l1d, limit, a);
    assert {} + {a} == {a};
    AccessOk(s, r, a, map[], limit);
  }

  lemma {:induction false} StoreStepKeeps(s: System, a: nat, d: map<nat, int>, now: nat, limit: nat)
    requires SystemOk(s, limit) && Allowed(s, Store(a, d), limit)
    ensures var r := Apply(s, Store(a, d), now); Stepped(s, r, d, limit) && r.1.n >= 1 && Protected(s, r.0)
  {
    assert Fetching(s) + Accessing(s) == Fetching(s);
    TopWithin(s.l1d, s.below, a, d, limit);
    StoreKeeps(s.l1d, s.below, a, d, now, Fetching(s), s.marI, limit);
    var r := Apply(s, Store(a, d), now).0;
    TopAligned(s.l1d, s.below, limit);
    SameSide(s.l1d, limit, a);
    AccessOk(s, r, a, d, limit);
  }

  lemma {:induction false} TopWithin(l: Level, b: Memory, a: nat, d: map<nat, int>, limit: nat)
    requires Fine(Cached(l, b), limit) && forall w | w in d :: Same(l, a, w)
    ensures Within(ParamsOf(Cached(l, b)), a, d)
  {
    var ps := ParamsOf(Cached(l, b));
    WithinBelow(l.p.geo, ps[1..], a, d);
    forall i, w | 0 <= i < |ps| && w in d
      ensures ps[i].geo.Ok() && SameBlock(ps[i].geo, a, w)
    {
      if i > 0 { assert ps[i] == ps[1..][i - 1]; }
    }
  }

  // ---- completions ----

  lemma {:induction false} CompletedSide(l: Level, b: Memory, o: Level, a: nat, limit: nat)
    requires Fine(Cached(l, b), limit) && Fine(Cached(o, b), limit)
    ensures var n := Complete(Cached(l, b), a);
      Fine(n, limit) && Fine(Cached(o, n.below), limit)
      && (forall w: nat ::
            n.level.Holds(w) == l.Holds(w) && Look(n, w) == Look(Cached(l, b), w) && Look(n.below, w) == Look(b, w))
  {
    FineBelow(l, b, limit);
    CompleteKeeps(Cached(l, b), a, limit);
    CompleteKeeps(b, a, limit);
    hide Level.Holds, Level.Dirty, Level.Probe, Look, Fits, Lower;
    assert Agree(o, Complete(b, a));
  }

  lemma {:induction false} CompletedQuiet(l: Level, b: Memory, a: nat, before: set<nat>, rest: set<nat>)
    requires l.Ok() && Coherent(b) && QuietLevel(l, before) && before <= {a} && Quiet(b, before + rest)
    ensures var n := Complete(Cached(l, b), a); QuietLevel(n.level, {}) && Quiet(n.below, rest)
  {
    DoneEffect(l, a);
    QuietMore(b, before + rest, rest + {a});
    CompleteQuiet(b, a, rest);
    hide Level.Holds, Level.Dirty, Level.Probe, Level.InFlight, Level.Mark;
  }

  /** Neither side's blocks or cells changed, and fewer blocks are in flight. */
  lemma {:induction false} DoneOk(s: System, r: System, limit: nat)
    requires SystemOk(s, limit)
    requires Fine(Cached(r.l1i, r.below), limit) && Fine(Cached(r.l1d, r.below), limit)
    requires forall w: nat :: r.l1i.Holds(w) == s.l1i.Holds(w) && r.l1d.Holds(w) == s.l1d.Holds(w)
    requires forall w: nat :: Look(Cached(r.l1i, r.below), w) == Look(Cached(s.l1i, s.below), w)
    requires forall w: nat :: Look(Cached(r.l1d, r.below), w) == Look(Cached(s.l1d, s.below), w)
    requires QuietLevel(r.l1i, Fetching(r)) && QuietLevel(r.l1d, Accessing(r))
        && Quiet(r.below, Fetching(r) + Accessing(r))
    requires r.marI == s.marI && r.mar == s.mar && (r.fetching ==> s.fetching) && (r.busy ==> s.busy)
    ensures SystemOk(r, limit) && forall w: nat :: Cell(r, limit, w) == Cell(s, limit, w)
  {
    hide Level.Holds, Level.InFlight, Level.Probe, Level.Dirty, Fine, Same, Quiet, QuietLevel, Look;
  }

  /** The same change below leaves the other side's cells alone. */
  lemma {:induction false} OverSame(o: Level, b: Memory, b1: Memory)
    requires o.Shaped() && Shaped(b) && Shaped(b1) && forall w: nat :: Look(b1, w) == Look(b, w)
    ensures forall w: nat :: Look(Cached(o, b1), w) == Look(Cached(o, b), w)
  {
    hide Level.Holds;
  }

  lemma {:induction false} FetchDoneKeeps(s: System, now: nat, limit: nat)
    requires SystemOk(s, limit)
    ensures Stepped(s, Apply(s, FetchDone, now), map[], limit)
  {
    var r := Apply(s, FetchDone, now).0;
    var m := Cached(s.l1i, s.below);
    FineBelow(s.l1i, s.below, limit);
    CompletedSide(s.l1i, s.below, s.l1d, s.marI, limit);
    CompletedQuiet(s.l1i, s.below, s.marI, Fetching(s), Accessing(s));
    OverSame(s.l1d, s.below, Complete(m, s.marI).below);
    hide Level.Holds, Level.InFlight, Level.Probe, Level.Dirty, Fine, Same, Quiet, QuietLevel, Complete, Look, Cell;
    assert Fetching(r) + Accessing(r) == Accessing(s);
    DoneOk(s, r, limit);
  }

  lemma {:induction false} DataDoneKeeps(s: System, now: nat, limit: nat)
    requires SystemOk(s, limit)
    ensures Stepped(s, Apply(s, DataDone, now), map[], limit)
  {
    var r := Apply(s, DataDone, now).0;
    var m := Cached(s.l1d, s.below);
    FineBelow(s.l1d, s.below, limit);
    CompletedSide(s.l1d, s.below, s.l1i, s.mar, limit);
    assert Fetching(s) + Accessing(s) == Accessing(s) + Fetching(s);
    CompletedQuiet(s.l1d, s.below, s.mar, Accessing(s), Fetching(s));
    OverSame(s.l1i, s.below, Complete(m, s.mar).below);
    hide Level.Holds, Level.InFlight, Level.Probe, Level.Dirty, Fine, Same, Quiet, QuietLevel, Complete, Look, Cell;
    assert Fetching(r) + Accessing(r) == Fetching(s);
    DoneOk(s, r, limit);
  }

  // ---- why text and data must not share a block ----

  lemma ReadAborts(l: Level, b: Memory, a: nat, now: nat)
    requires l.Shaped() && Shaped(b) && l.Lookup(a).Free? && b.Cached? && b.level.Lookup(a).Busy?
    ensures Read(Cached(l, b), a, now).1 == Abort(InFlightHit)
  {
    hide Level.Lookup, Level.Use, Evict, CountRead;
  }

  lemma FineLevel(m: Memory, limit: nat)
    requires Fine(m, limit) && m.Cached?
    ensures m.level.Ok() && (m.below.Cached? ==> m.below.level.Ok())
  {
    assert Coherent(m) && Coherent(m.below);
    hide Agree, DirtyAbove, WellBuilt, Aligned, Look, Level.Dirty;
  }

  lemma SystemParts(s: System, limit: nat)
    requires SystemOk(s, limit)
    ensures SystemShaped(s) && Fine(Cached(s.l1d, s.below), limit) && QuietLevel(s.l1d, Accessing(s))
  {
    FineShaped(Cached(s.l1i, s.below), limit);
    FineShaped(Cached(s.l1d, s.below), limit);
    hide Fine, Quiet, QuietLevel, Level.Holds;
  }

  lemma FineShaped(m: Memory, limit: nat)
    requires Fine(m, limit)
    ensures Shaped(m)
  {
    hide Coherent, DirtyAbove, WellBuilt, Aligned;
  }

  lemma RoomWhenQuiet(l: Level, a: nat)
    requires l.Ok() && QuietLevel(l, {}) && !l.Holds(a)
    ensures l.Lookup(a).Free?
  {
    RoomAndVictim(l, a, {}, 0);
    hide Level.Holds, Level.InFlight, Level.Lookup;
  }

  /** A load that reaches the second level while that level is fetching its block ends in exit(1):
      find_block takes a block in flight for impossible (src/cache/cache.c:68-73). */
  lemma {:induction false} SharedBlockAborts(s: System, a: nat, now: nat, limit: nat)
    requires SystemOk(s, limit) && s.fetching && !s.busy && !s.l1d.Holds(a)
    requires s.below.Cached? && s.below.level.InFlight(s.marI) && Same(s.below.level, s.marI, a)
    ensures Apply(s, Load(a), now).1 == Abort(InFlightHit)
  {
    hide SystemOk, Level.Lookup, QuietLevel, Fine, Level.Holds, Level.Probe, Read;
    SystemParts(s, limit);
    FineLevel(Cached(s.l1d, s.below), limit);
    assert Accessing(s) == {};
    RoomWhenQuiet(s.l1d, a);
    SameInFlight(s.below.level, s.marI, a);
    LookupProbe(s.below.level, a);
    ReadAborts(s.l1d, s.below, a, now);
  }

  lemma SameInFlight(l: Level, a: nat, w: nat)
    requires l.Shaped() && Same(l, a, w)
    ensures l.InFlight(a) == l.InFlight(w)
  {
    ProbeSame(l, a, w);
  }

  // ---- whole runs ----

  /** Events with the cycle each is handled in, which only the stamps depend on. */
  function Run(s: System, es: seq<(Event, nat)>): (r: System)
    requires SystemShaped(s)
    ensures SystemShaped(r)
  {
    if es == [] then s else Apply(Run(s, es[..|es| - 1]), es[|es| - 1].0, es[|es| - 1].1).0
  }

  ghost predicate Legal(s: System, es: seq<(Event, nat)>, limit: nat)
    requires SystemShaped(s)
  {
    es == [] || (Legal(s, es[..|es| - 1], limit) && Allowed(Run(s, es[..|es| - 1]), es[|es| - 1].0, limit))
  }

  /** The value last stored to w, if any. */
  function LastStored(es: seq<(Event, nat)>, w: nat): Option<int> {
    if es == [] then None
    else
      var e := es[|es| - 1].0;
      if e.Store? && w in e.d then Some(e.d[w]) else LastStored(es[..|es| - 1], w)
  }

  function Expected(s: System, limit: nat, es: seq<(Event, nat)>, w: nat): int
    requires SystemShaped(s)
  {
    match LastStored(es, w)
    case Some(v) => v
    case None => Cell(s, limit, w)
  }

  function Stored(e: Event): map<nat, int> { if e.Store? then e.d else map[] }

  lemma {:induction false} StepKeeps(s: System, e: Event, now: nat, limit: nat)
    requires SystemOk(s, limit) && Allowed(s, e, limit)
    ensures Stepped(s, Apply(s, e, now), Stored(e), limit)
    ensures !e.FetchDone? && !e.DataDone? ==> Protected(s, Apply(s, e, now).0) && Apply(s, e, now).1.n >= 1
  {
    hide Stepped, Protected, SystemOk, Apply;
    match e
    case Fetch(a) => FetchKeeps(s, a, now, limit);
    case FetchDone => FetchDoneKeeps(s, now, limit);
    case Load(a) => LoadKeeps(s, a, now, limit);
    case Store(a, d) => StoreStepKeeps(s, a, d, now, limit);
    case DataDone => DataDoneKeeps(s, now, limit);
  }

  /** In every run each cell reads as the value last stored to it, whatever the policies, sizes,
      stamps and evictions. */
  lemma {:induction false} Coherence(s: System, es: seq<(Event, nat)>, limit: nat)
    requires SystemOk(s, limit) && Legal(s, es, limit)
    ensures SystemOk(Run(s, es), limit)
    ensures forall w: nat :: Cell(Run(s, es), limit, w) == Expected(s, limit, es, w)
    decreases |es|
  {
    if es != [] {
      var front := es[..|es| - 1];
      Coherence(s, front, limit);
      StepKeeps(Run(s, front), es[|es| - 1].0, es[|es| - 1].1, limit);
      hide SystemOk, Cell, Apply;
    }
  }

  /** A load answers with a number of cycles, never -1 or exit, brings the block of its address into
      the data cache, and each word the line would carry is the value last stored to it. */
  lemma {:induction false} LoadSeesLastStore(s: System, es: seq<(Event, nat)>, a: nat, now: nat, w: nat, limit: nat)
    requires SystemOk(s, limit) && Legal(s, es, limit) && Allowed(Run(s, es), Load(a), limit)
    requires Same(s.l1d, a, w)
    ensures var r := Apply(Run(s, es), Load(a), now);
      r.1.Stall? && r.1.n >= 1
      && r.0.l1d.p == s.l1d.p && r.0.l1d.Holds(w) && r.0.l1d.Word(w) == Expected(s, limit, es, w)
  {
    var m := Run(s, es);
    Coherence(s, es, limit);
    RunParams(s, es);
    LoadKeeps(m, a, now, limit);
    var r := Apply(m, Load(a), now).0;
    RunParams(s, es + [(Load(a), now)]);
    assert (es + [(Load(a), now)])[..|es|] == es;
    TopAligned(m.l1d, m.below, limit);
    SameSide(m.l1d, limit, a);
    ProbeSame(r.l1d, a, w);
    hide SystemOk, Apply, Level.Probe;
  }

  lemma {:induction false} FetchSeesMemory(s: System, es: seq<(Event, nat)>, a: nat, now: nat, w: nat, limit: nat)
    requires SystemOk(s, limit) && Legal(s, es, limit) && Allowed(Run(s, es), Fetch(a), limit)
    requires Same(s.l1i, a, w)
    ensures var r := Apply(Run(s, es), Fetch(a), now);
      r.1.Stall? && r.1.n >= 1
      && r.0.l1i.p == s.l1i.p && r.0.l1i.Holds(w) && r.0.l1i.Word(w) == Expected(s, limit, es, w)
  {
    var m := Run(s, es);
    Coherence(s, es, limit);
    RunParams(s, es);
    FetchKeeps(m, a, now, limit);
    var r := Apply(m, Fetch(a), now).0;
    RunParams(s, es + [(Fetch(a), now)]);
    assert (es + [(Fetch(a), now)])[..|es|] == es;
    TopAligned(m.l1i, m.below, limit);
    SameSide(m.l1i, limit, a);
    ProbeSame(r.l1i, a, w);
    hide SystemOk, Apply, Level.Probe;
  }

  lemma {:induction false} RunParams(s: System, es: seq<(Event, nat)>)
    requires SystemShaped(s)
    ensures var r := Run(s, es); r.l1i.p == s.l1i.p && r.l1d.p == s.l1d.p && ParamsOf(r.below) == ParamsOf(s.below)
    decreases |es|
  {
    if es != [] {
      var m := Run(s, es[..|es| - 1]);
      RunParams(s, es[..|es| - 1]);
      ApplyParams(m, es[|es| - 1].0, es[|es| - 1].1);
      hide Apply;
    }
  }

  lemma {:induction false} ApplyParams(s: System, e: Event, now: nat)
    requires SystemShaped(s)
    ensures var r := Apply(s, e, now).0;
        r.l1i.p == s.l1i.p && r.l1d.p == s.l1d.p && ParamsOf(r.below) == ParamsOf(s.below)
  {
    assert ParamsOf(Cached(s.l1i, s.below))[1..] == ParamsOf(s.below);
    assert ParamsOf(Cached(s.l1d, s.below))[1..] == ParamsOf(s.below);
    assert ParamsOf(Cached(s.l1i, s.below))[0] == s.l1i.p;
    assert ParamsOf(Cached(s.l1d, s.below))[0] == s.l1d.p;
    hide Read, Write, Complete;
  }

  // ---- the start ----

  function EmptyMemory(ps: seq<Params>, ram: Memory): Memory {
    if ps == [] then ram else Cached(EmptyLevel(ps[0]), EmptyMemory(ps[1..], ram))
  }

  lemma {:induction false} EmptyHolds(p: Params)
    requires p.geo.Ok() && p.ways > 0
    ensures EmptyLevel(p).Ok() && forall w: nat :: !EmptyLevel(p).Holds(w)
  {
    var l := EmptyLevel(p);
    forall i | 0 <= i < p.geo.sets
      ensures SetOk(p.geo, l.sets[i], i)
    {
    }
    forall w: nat
      ensures !l.Holds(w)
    {
      var ws := l.Ways(w);
      assert forall k | 0 <= k < p.ways :: ws[k] == EMPTY_BLOCK;
    }
  }

  ghost predicate Buildable(ps: seq<Params>, ram: Memory, limit: nat) {
    && ram.Ram? && RamOk(ram) && WellBuilt(ps) && Aligned(ps, limit)
    && forall i | 0 <= i < |ps| :: ps[i].ways > 0
  }

  lemma {:induction false} EmptyFine(ps: seq<Params>, ram: Memory, limit: nat)
    requires Buildable(ps, ram, limit)
    ensures var m := EmptyMemory(ps, ram);
      Fine(m, limit) && ParamsOf(m) == ps && Quiet(m, {})
      && forall w: nat :: Look(m, w) == Look(ram, w)
  {
    if ps != [] {
      EmptyFine(ps[1..], ram, limit);
      EmptyHolds(ps[0]);
      assert ps == [ps[0]] + ps[1..];
      hide EmptyLevel;
    }
  }

  lemma {:induction false} TopShaped(l: Level, b: Memory, flight: set<nat>)
    requires Shaped(Cached(l, b)) && Quiet(Cached(l, b), flight)
    ensures l.Shaped() && Shaped(b) && QuietLevel(l, flight) && Quiet(b, flight)
  {
  }

  /** The caches start empty: then the hypotheses of the theorems hold. */
  lemma {:induction false} StartOk(i: Params, d: Params, ps: seq<Params>, ram: Memory, limit: nat)
    requires Buildable([i] + ps, ram, limit) && Buildable([d] + ps, ram, limit)
    ensures var s := System(EmptyLevel(i), EmptyLevel(d), EmptyMemory(ps, ram), 0, false, 0, false);
      SystemOk(s, limit) && forall w: nat :: Cell(s, limit, w) == Look(ram, w)
  {
    EmptyFine([i] + ps, ram, limit);
    EmptyFine([d] + ps, ram, limit);
    assert ([i] + ps)[1..] == ps && ([d] + ps)[1..] == ps;
    assert EmptyMemory([i] + ps, ram) == Cached(EmptyLevel(i), EmptyMemory(ps, ram));
    assert EmptyMemory([d] + ps, ram) == Cached(EmptyLevel(d), EmptyMemory(ps, ram));
    EmptyHolds(i);
    EmptyHolds(d);
    TopShaped(EmptyLevel(i), EmptyMemory(ps, ram), {});
    TopShaped(EmptyLevel(d), EmptyMemory(ps, ram), {});
    hide EmptyLevel, EmptyMemory, Level.Probe, Level.Holds, Level.InFlight, Fine, Buildable, Quiet, QuietLevel;
    var s := System(EmptyLevel(i), EmptyLevel(d), EmptyMemory(ps, ram), 0, false, 0, false);
    assert Fetching(s) + Accessing(s) == {};
  }
}
