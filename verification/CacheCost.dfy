/** How many cycles the caches answer, and what they count (src/cache/read.c, src/cache/write.c,
    src/cache/eviction.c). */
module CacheCost {
  import opened Wrappers
  import opened CacheSet
  import opened CacheLevel
  import opened Cache
  import opened CacheCoherence
  import opened CacheAccess
  import opened CacheCount
  import opened CacheSystem

  // ---- the times, by what the levels hold ----

  /** The read latencies from the top down to the first level that holds a, or to the RAM. */
  ghost function ReadTime(m: Memory, a: nat): nat
    requires Shaped(m)
  {
    if m.Ram? then m.readLatency
    else m.level.p.readLatency + if m.level.Holds(a) then 0 else ReadTime(m.below, a)
  }

  /** The time of a write that brings nothing in: levels without the block are passed by, a level with
      it takes its latency, and hands the write on unless it writes back. */
  ghost function WriteTime(m: Memory, a: nat): nat
    requires Shaped(m)
  {
    if m.Ram? then m.writeLatency
    else if !m.level.Holds(a) then WriteTime(m.below, a)
    else m.level.p.writeLatency + if m.level.p.writeBack then 0 else WriteTime(m.below, a)
  }

  /** The block that gives way to the block of a, if its set is full. */
  ghost function Leaving(l: Level, a: nat): Option<nat>
    requires l.Shaped()
  {
    var k := Chosen(l, a);
    if k < l.p.ways && l.Ways(a)[k].valid then Some(l.Ways(a)[k].addr) else None
  }

  /** It is written down first if it is dirty. */
  ghost function LeavingTime(l: Level, b: Memory, a: nat): nat
    requires l.Shaped() && Shaped(b)
  {
    match Leaving(l, a)
    case Some(v) => if l.Dirty(v) then WriteTime(b, v) else 0
    case None => 0
  }

  /** The write-downs of a read, at each level that does not hold the block, lowest first. */
  ghost function LeavingTimes(m: Memory, a: nat, now: nat): nat
    requires Shaped(m)
  {
    if m.Ram? || m.level.Holds(a) then 0
    else LeavingTimes(m.below, a, now) + LeavingTime(m.level, Read(m.below, a, now).0, a)
  }

  // ---- what the functions answer ----

  ghost predicate AllOk(m: Memory) { m.Cached? ==> m.level.Ok() && Shaped(m.below) && AllOk(m.below) }

  lemma {:induction false} FineOk(m: Memory, limit: nat)
    requires Fine(m, limit)
    ensures AllOk(m) && (m.Cached? ==> Lower(ParamsOf(m)[1..]))
  {
    CoherentOk(m);
    hide Coherent, Aligned, DirtyAbove;
  }

  lemma {:induction false} CoherentOk(m: Memory)
    requires Coherent(m)
    ensures AllOk(m)
  {
    if m.Cached? { CoherentOk(m.below); }
    hide Agree, Level.Dirty, Level.Ok;
  }

  /** A write that hits, or passes by, takes its time. */
  lemma {:induction false} WriteTakes(m: Memory, a: nat, d: map<nat, int>, now: nat, again: bool)
    requires Shaped(m) && AllOk(m) && (m.Cached? ==> Lower(ParamsOf(m)[1..]))
    requires m.Cached? ==> m.level.Holds(a) || !m.level.p.allocate
    requires Write(m, a, d, now, again).1.Stall?
    ensures Write(m, a, d, now, again).1.n == WriteTime(m, a)
  {
    if m.Cached? {
      LookupProbe(m.level, a);
      LowerTail(m);
      hide Level.Holds, Level.InFlight, Level.Lookup, Level.Store, Level.Ok, CountWrite;
      if !(m.level.Holds(a) && m.level.p.writeBack) {
        WritePasses(m, a, d, now, again);
        WriteTakes(m.below, a, d, now, false);
      }
    }
  }

  lemma LowerTail(m: Memory)
    requires Shaped(m) && m.Cached? && Lower(ParamsOf(m)[1..])
    ensures m.below.Cached? ==> !m.below.level.p.allocate && Lower(ParamsOf(m.below)[1..])
  {
    if m.below.Cached? {
      var ps := ParamsOf(m)[1..];
      assert ps == ParamsOf(m.below) && ps[0] == m.below.level.p;
    }
  }

  lemma WritePasses(m: Memory, a: nat, d: map<nat, int>, now: nat, again: bool)
    requires Shaped(m) && m.Cached? && Write(m, a, d, now, again).1.Stall?
    requires if m.level.Lookup(a).Hit? then !m.level.p.writeBack else !m.level.p.allocate
    ensures Write(m.below, a, d, now, false).1.Stall?
  {
    hide Level.Lookup, Level.Store, CountWrite;
  }

  lemma LeavingDirty(l: Level, a: nat)
    requires l.Ok() && Chosen(l, a) < l.p.ways && l.Ways(a)[Chosen(l, a)].valid
    ensures var w := l.Ways(a)[Chosen(l, a)]; Leaving(l, a) == Some(w.addr) && (l.Dirty(w.addr) <==> w.dirty)
  {
    WayHeld(l, a, Chosen(l, a));
    hide Chosen, Level.Ok;
  }

  lemma {:induction false} EvictTakes(l: Level, b: Memory, a: nat, now: nat)
    requires l.Ok() && Shaped(b) && AllOk(b) && Lower(ParamsOf(b)) && Evict(l, b, a, now).1.Stall?
    requires forall w: nat :: l.Dirty(w) ==> l.p.writeBack
    ensures Evict(l, b, a, now).1.n == LeavingTime(l, b, a)
  {
    OkShaped(l);
    hide Evict, Write, Chosen, Level.Ok, Level.Dirty, Contents, WriteTime, Leaving, AllOk, Lower;
    var k := Chosen(l, a);
    if k < l.p.ways && l.Ways(a)[k].valid {
      LeavingDirty(l, a);
      LowerSelf(b);
      EvictAnswer(l, b, a, now);
      var v := l.Ways(a)[k].addr;
      if l.Ways(a)[k].dirty { WriteTakes(b, v, Contents(l, v), now, false); }
    } else {
      EvictFree(l, b, a, now);
    }
  }

  lemma OkShaped(l: Level)
    requires l.Ok()
    ensures l.Shaped()
  {
  }

  lemma LowerSelf(b: Memory)
    requires Shaped(b) && Lower(ParamsOf(b))
    ensures b.Cached? ==> !b.level.p.allocate && Lower(ParamsOf(b)[1..])
  {
  }

  lemma EvictAnswer(l: Level, b: Memory, a: nat, now: nat)
    requires l.Shaped() && Shaped(b) && Evict(l, b, a, now).1.Stall?
    requires Chosen(l, a) < l.p.ways && l.Ways(a)[Chosen(l, a)].valid
    ensures var w := l.Ways(a)[Chosen(l, a)]; var t := Write(b, w.addr, Contents(l, w.addr), now, false).1;
      if l.p.writeBack && w.dirty then Evict(l, b, a, now).1 == t else Evict(l, b, a, now).1 == Stall(0)
  {
    hide Level.Lookup, Bring, Complete, Contents, Write, Victim;
  }

  lemma EvictFree(l: Level, b: Memory, a: nat, now: nat)
    requires l.Shaped() && Shaped(b) && Evict(l, b, a, now).1.Stall?
    requires Chosen(l, a) < l.p.ways ==> !l.Ways(a)[Chosen(l, a)].valid
    ensures Evict(l, b, a, now).1 == Stall(0) && Leaving(l, a) == None
  {
    hide Level.Lookup, Bring, Complete, Contents, Write;
  }

  lemma ReadAnswer(m: Memory, a: nat, now: nat)
    requires Shaped(m) && m.Cached? && !m.level.Lookup(a).Hit? && Read(m, a, now).1.Stall?
    ensures var r := Read(m.below, a, now); var t := Evict(m.level, r.0, a, now).1;
      r.1.Stall? && t.Stall? && Read(m, a, now).1.n == m.level.p.readLatency + r.1.n + t.n
  {
    hide Level.Lookup, Level.Use, Evict, CountRead;
  }

  lemma ReadHitAnswer(m: Memory, a: nat, now: nat)
    requires Shaped(m) && m.Cached? && m.level.Lookup(a).Hit?
    ensures Read(m, a, now).1 == Stall(m.level.p.readLatency)
  {
    hide Level.Lookup, Level.Use, Evict, CountRead;
  }

  /** A read takes the latencies down to the first holder, and the write-downs on the way. */
  lemma {:induction false} ReadTakes(l: Level, b: Memory, a: nat, now: nat, top: set<nat>, low: set<nat>, f: nat,
      limit: nat)
    requires Fine(Cached(l, b), limit) && Room(l, top, f) && Quiet(b, low)
    requires low <= {f} && (forall x | x in low :: x < limit) && (low == {} || a >= limit)
    requires !l.InFlight(a)
    ensures var m := Cached(l, b); Read(m, a, now).1 == Stall(ReadTime(m, a) + LeavingTimes(m, a, now))
    decreases b
  {
    var m := Cached(l, b);
    ReadKeeps(l, b, a, now, top, low, f, limit);
    FineBelow(l, b, limit);
    FineOk(m, limit);
    LookupProbe(l, a);
    if l.Holds(a) {
      ReadHitAnswer(m, a, now);
    } else {
      ReadAnswer(m, a, now);
      MissTakes(l, b, a, now, top, low, f, limit);
    }
    hide Fine, Level.Holds, Level.InFlight, Level.Lookup, Level.Ok, Read, Evict, ReadTime, LeavingTimes, Fetches, Quiet,
         Room;
    TimesUnfold(m, a, now);
  }

  lemma TimesUnfold(m: Memory, a: nat, now: nat)
    requires Shaped(m) && m.Cached?
    ensures ReadTime(m, a) == m.level.p.readLatency + if m.level.Holds(a) then 0 else ReadTime(m.below, a)
    ensures LeavingTimes(m, a, now) ==
      if m.level.Holds(a) then 0 else LeavingTimes(m.below, a, now) + LeavingTime(m.level, Read(m.below, a, now).0, a)
  {
  }

  /** The two parts of a miss. */
  lemma {:induction false} MissTakes(l: Level, b: Memory, a: nat, now: nat, top: set<nat>, low: set<nat>, f: nat,
      limit: nat)
    requires Fine(Cached(l, b), limit) && Room(l, top, f) && Quiet(b, low) && !l.Holds(a)
    requires low <= {f} && (forall x | x in low :: x < limit) && (low == {} || a >= limit)
    requires var t := Read(b, a, now).1; t.Stall? && Evict(l, Read(b, a, now).0, a, now).1.Stall?
    ensures var r := Read(b, a, now);
      && r.1.n == ReadTime(b, a) + LeavingTimes(b, a, now)
      && Evict(l, r.0, a, now).1.n == LeavingTime(l, r.0, a)
    decreases b, 0
  {
    var b1 := Read(b, a, now).0;
    FineBelow(l, b, limit);
    ReadLatency(l, b, limit);
    BelowReady(l, b, a, low, limit);
    if b.Cached? {
      ReadKeeps(b.level, b.below, a, now, low, low, f, limit);
      ReadTakes(b.level, b.below, a, now, low, low, f, limit);
      EffectFine(b, b1, low + {a}, limit);
    }
    FineOk(b1, limit);
    hide Fine, Level.Holds, Level.InFlight, Level.Ok, Level.Dirty, Read, Evict, Effect, Quiet, Room, LeavingTime;
    EvictTakes(l, b1, a, now);
  }

  lemma EffectFine(m: Memory, n: Memory, flight: set<nat>, limit: nat)
    requires Effect(m, n, map[], flight, flight, limit)
    ensures Fine(n, limit) && ParamsOf(n) == ParamsOf(m)
  {
    hide Fine, Look, Flights, Kept;
  }

  // ---- stores ----

  /** The block is there when an allocating store tries again. */
  ghost function StoreTime(m: Memory, a: nat, now: nat): nat
    requires Shaped(m)
  {
    if m.Ram? || m.level.Holds(a) || !m.level.p.allocate then WriteTime(m, a)
    else ReadTime(m, a) + LeavingTimes(m, a, now) + WriteTime(Complete(Read(m, a, now).0, a), a)
  }

  lemma {:induction false} StoreTakes(l: Level, b: Memory, a: nat, d: map<nat, int>, now: nat, low: set<nat>, f: nat,
      limit: nat)
    requires Fine(Cached(l, b), limit) && QuietLevel(l, {}) && Quiet(b, low)
    requires low <= {f} && (forall x | x in low :: x < limit) && a >= limit
    requires Within(ParamsOf(Cached(l, b)), a, d)
    ensures var m := Cached(l, b); Write(m, a, d, now, false).1 == Stall(StoreTime(m, a, now))
  {
    var m := Cached(l, b);
    StoreKeeps(l, b, a, d, now, low, f, limit);
    FineOk(m, limit);
    if l.Holds(a) || !l.p.allocate {
      WriteTakes(m, a, d, now, false);
    } else {
      AllocateTakes(l, b, a, d, now, low, f, limit);
    }
    hide Fine, Level.Holds, Level.InFlight, Level.Ok, Read, Write, ReadTime, WriteTime, LeavingTimes, Complete, Quiet,
         Effect;
  }

  /** The state in which the second try finds the block. */
  lemma {:induction false} AllocateReady(l: Level, b: Memory, a: nat, d: map<nat, int>, now: nat, low: set<nat>,
      f: nat, limit: nat)
    requires Fine(Cached(l, b), limit) && QuietLevel(l, {}) && Quiet(b, low) && !l.Holds(a)
    requires low <= {f} && (forall x | x in low :: x < limit) && a >= limit
    requires Within(ParamsOf(Cached(l, b)), a, d)
    ensures var m := Cached(l, b); var r := Read(m, a, now); var n := Complete(r.0, a);
      && l.Lookup(a).Free? && r.1.Stall? && n.Cached? && n.level.Holds(a)
      && Fine(n, limit) && ParamsOf(n) == ParamsOf(m) && Write(n, a, d, now, true).1.Stall?
  {
    var m := Cached(l, b);
    NeverBusy(l, a);
    EvictChooses(l, b, a, {}, f, limit);
    ReadKeeps(l, b, a, now, {}, low, f, limit);
    var m1 := Read(m, a, now).0;
    hide Fine, Level.Holds, Level.InFlight, Level.Ok, Read, Write, Complete, Quiet, Level.Lookup, Look, Kept;
    Allocated(l, b, m1, a, low, limit);
    var n := Complete(m1, a);
    EffectBuilt(m, n, {}, low, limit);
    Retry(n, a, d, now, low, limit);
  }

  /** The read and the second try. */
  lemma StoreInTwo(m: Memory, a: nat, d: map<nat, int>, now: nat)
    requires Shaped(m) && m.Cached? && m.level.Lookup(a).Free? && m.level.p.allocate && !m.level.Holds(a)
    requires Read(m, a, now).1 == Stall(ReadTime(m, a) + LeavingTimes(m, a, now))
    requires var n := Complete(Read(m, a, now).0, a); Write(n, a, d, now, true).1 == Stall(WriteTime(n, a))
    ensures Write(m, a, d, now, false).1 == Stall(StoreTime(m, a, now))
  {
    hide Read, Write, Complete, Level.Lookup, Level.Holds, ReadTime, WriteTime, LeavingTimes, CountRead, CountWrite;
    SecondTry(m, a, d, now);
  }

  lemma {:induction false} AgainTakes(n: Memory, m: Memory, a: nat, d: map<nat, int>, now: nat, limit: nat)
    requires Fine(n, limit) && Fine(m, limit) && n.Cached? && n.level.Holds(a) && ParamsOf(n) == ParamsOf(m)
    requires Write(n, a, d, now, true).1.Stall?
    ensures Write(n, a, d, now, true).1 == Stall(WriteTime(n, a))
  {
    FineShaped(n, limit);
    FineOk(n, limit);
    hide Fine, Level.Holds, Write, WriteTime, AllOk, Lower;
    WriteTakes(n, a, d, now, true);
  }

  lemma {:induction false} AllocateTakes(l: Level, b: Memory, a: nat, d: map<nat, int>, now: nat, low: set<nat>,
      f: nat, limit: nat)
    requires Fine(Cached(l, b), limit) && QuietLevel(l, {}) && Quiet(b, low) && !l.Holds(a) && l.p.allocate
    requires low <= {f} && (forall x | x in low :: x < limit) && a >= limit
    requires Within(ParamsOf(Cached(l, b)), a, d)
    ensures Write(Cached(l, b), a, d, now, false).1 == Stall(StoreTime(Cached(l, b), a, now))
  {
    hide Fine, Level.Holds, Level.InFlight, Level.Ok, Read, Write, ReadTime, WriteTime, LeavingTimes, StoreTime,
         Complete, Quiet, QuietLevel, Room, Level.Lookup, Within, ParamsOf;
    var m := Cached(l, b);
    FineShaped(m, limit);
    NeverBusy(l, a);
    EmptyRoom(l, f);
    AllocateReady(l, b, a, d, now, low, f, limit);
    ReadTakes(l, b, a, now, {}, low, f, limit);
    AgainTakes(Complete(Read(m, a, now).0, a), m, a, d, now, limit);
    StoreInTwo(m, a, d, now);
  }

  lemma EmptyRoom(l: Level, f: nat)
    requires l.Shaped() && QuietLevel(l, {})
    ensures Room(l, {}, f)
  {
  }

  lemma NeverBusy(l: Level, a: nat)
    requires l.Shaped() && QuietLevel(l, {})
    ensures !l.InFlight(a)
  {
  }

  lemma EffectBuilt(m: Memory, n: Memory, top: set<nat>, low: set<nat>, limit: nat)
    requires Effect(m, n, map[], top, low, limit)
    ensures Fine(n, limit) && ParamsOf(n) == ParamsOf(m)
  {
    hide Fine, Look, Flights, Kept;
  }

  // ---- in every run ----

  ghost function TimeOf(s: System, e: Event, now: nat): nat
    requires SystemShaped(s)
  {
    match e
    case Fetch(a) => ReadTime(Cached(s.l1i, s.below), a) + LeavingTimes(Cached(s.l1i, s.below), a, now)
    case Load(a) => ReadTime(Cached(s.l1d, s.below), a) + LeavingTimes(Cached(s.l1d, s.below), a, now)
    case Store(a, _) => StoreTime(Cached(s.l1d, s.below), a, now)
    case _ => 0
  }

  /** After any run, each access answers the latencies of the levels it reaches and of the write-downs. */
  lemma {:induction false} AccessTakes(s: System, es: seq<(Event, nat)>, e: Event, now: nat, limit: nat)
    requires SystemOk(s, limit) && Legal(s, es, limit) && Allowed(Run(s, es), e, limit)
    ensures Apply(Run(s, es), e, now).1 == Stall(TimeOf(Run(s, es), e, now))
  {
    var m := Run(s, es);
    Coherence(s, es, limit);
    OneTakes(m, e, now, limit);
    hide SystemOk, Apply, TimeOf, Cell;
  }

  lemma {:induction false} OneTakes(s: System, e: Event, now: nat, limit: nat)
    requires SystemOk(s, limit) && Allowed(s, e, limit)
    ensures Apply(s, e, now).1 == Stall(TimeOf(s, e, now))
  {
    hide Read, Write, ReadTime, LeavingTimes, StoreTime, Complete, Fine;
    match e
    case Fetch(a) => FetchTakes(s, a, now, limit);
    case Load(a) => LoadTakes(s, a, now, limit);
    case Store(a, d) => DataTakes(s, a, d, now, limit);
    case _ =>
  }

  lemma {:induction false} FetchTakes(s: System, a: nat, now: nat, limit: nat)
    requires SystemOk(s, limit) && Allowed(s, Fetch(a), limit)
    ensures Apply(s, Fetch(a), now).1 == Stall(TimeOf(s, Fetch(a), now))
  {
    assert Fetching(s) + Accessing(s) == {};
    ReadTakes(s.l1i, s.below, a, now, {}, {}, 0, limit);
    hide Read, ReadTime, LeavingTimes, Fine;
  }

  lemma {:induction false} LoadTakes(s: System, a: nat, now: nat, limit: nat)
    requires SystemOk(s, limit) && Allowed(s, Load(a), limit)
    ensures Apply(s, Load(a), now).1 == Stall(TimeOf(s, Load(a), now))
  {
    assert Fetching(s) + Accessing(s) == Fetching(s);
    ReadTakes(s.l1d, s.below, a, now, {}, Fetching(s), s.marI, limit);
    hide Read, ReadTime, LeavingTimes, Fine;
  }

  lemma {:induction false} DataTakes(s: System, a: nat, d: map<nat, int>, now: nat, limit: nat)
    requires SystemOk(s, limit) && Allowed(s, Store(a, d), limit)
    ensures Apply(s, Store(a, d), now).1 == Stall(TimeOf(s, Store(a, d), now))
  {
    assert Fetching(s) + Accessing(s) == Fetching(s);
    TopWithin(s.l1d, s.below, a, d, limit);
    StoreTakes(s.l1d, s.below, a, d, now, Fetching(s), s.marI, limit);
    hide Read, Write, ReadTime, LeavingTimes, StoreTime, Fine;
  }

  // ---- from empty caches ----

  function ReadLatencies(ps: seq<Params>): nat { if ps == [] then 0 else ps[0].readLatency + ReadLatencies(ps[1..]) }

  /** The first read of all takes every read latency and that of the RAM. */
  lemma {:induction false} ColdRead(ps: seq<Params>, ram: Memory, a: nat, now: nat)
    requires ram.Ram? && forall i | 0 <= i < |ps| :: ps[i].geo.Ok() && ps[i].ways > 0
    ensures var m := EmptyMemory(ps, ram);
      Shaped(m) && ReadTime(m, a) == ReadLatencies(ps) + ram.readLatency && LeavingTimes(m, a, now) == 0
  {
    if ps != [] {
      ColdRead(ps[1..], ram, a, now);
      EmptyHolds(ps[0]);
      NothingLeaves(ps[0], a);
      hide EmptyLevel, Level.Holds, Read, Leaving;
    }
  }

  lemma NothingLeaves(p: Params, a: nat)
    requires p.geo.Ok() && p.ways > 0
    ensures EmptyLevel(p).Shaped() && Leaving(EmptyLevel(p), a) == None
  {
    var ws := EmptyLevel(p).Ways(a);
    assert !ws[0].valid;
  }

  // ---- the counts of one level ----

  function One(b: bool): int { if b then 1 else 0 }

  /** A read counts as a hit exactly if the level holds the block, and a write-back exactly if a dirty
      block leaves, except at a second level above the RAM, which the source does not count. */
  lemma {:induction false} ReadCounts(m: Memory, a: nat, now: nat)
    requires Shaped(m) && m.Cached? && m.level.Ok() && Read(m, a, now).1.Stall?
    requires forall w: nat :: m.level.Dirty(w) ==> m.level.p.writeBack
    ensures var l, s := m.level, m.level.stats;
      var down := !l.Holds(a) && Leaving(l, a).Some? && l.Dirty(Leaving(l, a).value);
      var r := Read(m, a, now).0;
      r.Cached? && r.level.stats == s.(
        hitR := s.hitR + One(l.Holds(a)), missR := s.missR + One(!l.Holds(a)),
        writebacks := s.writebacks + One(down && !(l.p.level == 2 && m.below.Ram?)))
  {
    var l := m.level;
    LookupProbe(l, a);
    ReadShape(m, a, now);
    if !l.Holds(a) {
      var b1 := Read(m.below, a, now).0;
      EvictShape(l, b1, a, now);
      if l.Ways(a)[Chosen(l, a)].valid { LeavingDirty(l, a); }
    }
    hide Level.Holds, Level.Ok, Read, Evict, Level.Lookup, Chosen, Level.InFlight, Write, Contents, Complete;
  }

  lemma ReadShape(m: Memory, a: nat, now: nat)
    requires Shaped(m) && m.Cached? && Read(m, a, now).1.Stall?
    ensures var r := Read(m, a, now).0; var b1 := Read(m.below, a, now).0; var s := m.level.stats;
      if m.level.Lookup(a).Hit? then r.Cached? && r.level.stats == s.(hitR := s.hitR + 1)
      else
        var e := Evict(m.level, b1, a, now);
        && m.level.Lookup(a).Free? && e.1.Stall? && r.Cached? && b1.Ram? == m.below.Ram?
        && r.level.stats == e.0.level.stats.(missR := e.0.level.stats.missR + 1, hitR := e.0.level.stats.hitR)
  {
    hide Level.Lookup, Level.Use, Evict;
  }

  /** Likewise a write that brings nothing in. */
  lemma {:induction false} WriteCounts(m: Memory, a: nat, d: map<nat, int>, now: nat, again: bool)
    requires Shaped(m) && m.Cached? && m.level.Ok() && Write(m, a, d, now, again).1.Stall?
    requires m.level.Holds(a) || !m.level.p.allocate
    ensures var l, s := m.level, m.level.stats;
      var r := Write(m, a, d, now, again).0;
      r.Cached? && r.level.stats == s.(hitW := s.hitW + One(l.Holds(a)), missW := s.missW + One(!l.Holds(a)))
  {
    hide Level.Holds, Level.Ok, Write, Level.Lookup, Level.InFlight;
    LookupProbe(m.level, a);
    OkShaped(m.level);
    NotBusy(m, a, d, now, again);
    WriteShape(m, a, d, now, again);
  }

  lemma NotBusy(m: Memory, a: nat, d: map<nat, int>, now: nat, again: bool)
    requires Shaped(m) && m.Cached? && Write(m, a, d, now, again).1.Stall?
    ensures !m.level.Lookup(a).Busy?
  {
    hide Level.Lookup, Level.Store, Read, CountWrite, Complete;
  }
}
