/** LRU levels hold blocks by stack distance, so more ways never miss where fewer hit. */
module LruStack {
  import opened Arithmetic
  import opened CacheSet
  import opened CacheLevel
  import opened Cache
  import opened CacheCoherence
  import opened CacheAccess
  import Recency

  /** A first-level access that allocates, with the cycle that stamps it. */
  datatype Access = Access(a: nat, now: nat, write: bool)

  /** Start the access and complete it. */
  function Serve(m: Memory, x: Access): (r: Memory)
    requires Shaped(m)
    ensures Shaped(r) && ParamsOf(r) == ParamsOf(m) && r.Ram? == m.Ram?
  {
    Complete(if x.write then Write(m, x.a, map[], x.now, false).0 else Read(m, x.a, x.now).0, x.a)
  }

  function Ref(l: Level, w: nat): nat
    requires l.Shaped()
  {
    if l.Holds(w) then l.Probe(w).value.reference else 0
  }

  // ---- what one access does to the blocks and stamps of the level ----

  ghost predicate Touched(l: Level, r: Level, a: nat, now: nat) {
    l.Ok() && r.Ok() && r.p == l.p
    && (forall w: nat :: r.Holds(w) == l.Holds(w))
    && (forall w: nat :: l.Holds(w) ==> Ref(r, w) == if Same(l, a, w) then now else Ref(l, w))
  }

  ghost predicate Quieted(l: Level, r: Level) {
    l.Ok() && r.Ok() && r.p == l.p
    && (forall w: nat :: r.Holds(w) == l.Holds(w))
    && (forall w: nat :: Ref(r, w) == Ref(l, w))
  }

  ghost predicate Brought(l: Level, r: Level, a: nat, k: nat, now: nat) {
    l.Ok() && r.Ok() && r.p == l.p && k < l.p.ways
    && (forall w: nat :: r.Holds(w) == (Same(l, a, w) || (l.Holds(w) && !Leaves(l, a, k, w))))
    && (forall w: nat :: r.Holds(w) ==> Ref(r, w) == if Same(l, a, w) then now else Ref(l, w))
  }

  lemma {:induction false} MarkRefs(l: Level, a: nat, f: Flag)
    requires l.Ok() && (f.Done? || f.Dirty?)
    ensures Quieted(l, l.Mark(a, f))
  {
    MarkEffect(l, a, f);
    hide SetFlag, FirstHit;
  }

  lemma {:induction false} TouchRefs(l: Level, a: nat, now: nat)
    requires l.Ok() && l.p.lru
    ensures Touched(l, l.Touch(a, now), a, now)
  {
    MarkEffect(l, a, Reference(now));
    hide SetFlag, FirstHit, Level.Mark;
  }

  lemma {:induction false} Then(l: Level, m: Level, r: Level, a: nat, now: nat)
    requires Touched(l, m, a, now) && Quieted(m, r)
    ensures Touched(l, r, a, now)
  {
    hide Ref, Level.Holds, Level.Ok;
  }

  lemma {:induction false} Before(l: Level, m: Level, r: Level, a: nat, now: nat)
    requires Quieted(l, m) && Touched(m, r, a, now)
    ensures Touched(l, r, a, now)
  {
    hide Ref, Level.Holds, Level.Ok;
  }

  lemma {:induction false} UseRefs(l: Level, a: nat, now: nat)
    requires l.Ok() && l.p.lru
    ensures Touched(l, l.Use(a, now), a, now)
  {
    TouchRefs(l, a, now);
    MarkRefs(l.Touch(a, now), a, Done(false));
    Then(l, l.Touch(a, now), l.Use(a, now), a, now);
  }

  lemma {:induction false} StoreRefs(l: Level, a: nat, d: map<nat, int>, now: nat)
    requires l.Ok() && l.p.lru
    ensures Touched(l, l.Store(a, d, now), a, now)
  {
    var l1 := if l.p.writeBack then l.Mark(a, Flag.Dirty(true)) else l;
    if l.p.writeBack { MarkRefs(l, a, Flag.Dirty(true)); } else { SameSets(l, l); }
    UseRefs(l1, a, now);
    SameSets(l1.Use(a, now), l.Store(a, d, now));
    hide Ref, Level.Holds, Level.Mark, Level.Use, Touched, Quieted;
    Before(l, l1, l1.Use(a, now), a, now);
    Then(l, l1.Use(a, now), l.Store(a, d, now), a, now);
  }

  lemma {:induction false} SameSets(l: Level, r: Level)
    requires l.Ok() && l.p == r.p && l.sets == r.sets
    ensures Quieted(l, r)
  {
    SetsOnly(l, r);
  }

  lemma {:induction false} PlaceRefs(l: Level, a: nat, k: nat, now: nat)
    requires l.Ok() && k < l.p.ways && !l.Holds(a)
    requires forall j | 0 <= j < k :: l.Ways(a)[j].valid
    ensures Brought(l, l.Place(a, k, now), a, k, now)
  {
    PlaceEffect(l, a, k, now);
    hide Fill, FirstHit, Level.Place;
  }

  /** The two things an access can do. */
  ghost predicate Accessed(l: Level, r: Level, a: nat, now: nat) {
    l.Ok() && if l.Holds(a) then Touched(l, r, a, now) else Brought(l, r, a, Chosen(l, a), now)
  }

  lemma {:induction false} EvictSets(l: Level, b: Memory, a: nat, now: nat)
    requires l.Shaped() && Shaped(b) && Evict(l, b, a, now).1.Stall?
    ensures var k := Chosen(l, a); k < l.p.ways && var n := Evict(l, b, a, now).0.level;
      n.p == l.p && n.sets == l.Place(a, k, now).sets
  {
    hide Fill, Level.Lookup, Complete, Fetched, Contents, Victim, FirstInvalid, Write;
  }

  lemma {:induction false} BroughtThen(l: Level, m: Level, r: Level, a: nat, k: nat, now: nat)
    requires Brought(l, m, a, k, now) && (Quieted(m, r) || Touched(m, r, a, now))
    ensures Brought(l, r, a, k, now)
  {
    hide Ref, Level.Holds, Level.Ok, Leaves;
  }

  lemma {:induction false} AccessedThen(l: Level, m: Level, r: Level, a: nat, now: nat)
    requires Accessed(l, m, a, now) && Quieted(m, r)
    ensures Accessed(l, r, a, now)
  {
    if l.Holds(a) { Then(l, m, r, a, now); } else { BroughtThen(l, m, r, a, Chosen(l, a), now); }
  }

  lemma {:induction false} ReadAccessed(l: Level, b: Memory, a: nat, now: nat)
    requires Fine(Cached(l, b), 0) && QuietLevel(l, {}) && Quiet(b, {}) && l.p.lru
    ensures Accessed(l, Read(Cached(l, b), a, now).0.level, a, now)
  {
    assert !l.InFlight(a);
    LookupProbe(l, a);
    ReadKeeps(l, b, a, now, {}, {}, 0, 0);
    var r := Read(Cached(l, b), a, now).0.level;
    FineBelow(l, b, 0);
    if l.Holds(a) {
      UseRefs(l, a, now);
      SameSets(l.Use(a, now), r);
      hide Ref, Level.Holds, Level.Mark, Level.Use, Read, Fine, Touched, Quieted;
      Then(l, l.Use(a, now), r, a, now);
    } else {
      EvictChooses(l, b, a, {}, 0, 0);
      ReadEvicts(l, b, a, now);
      PlaceRefs(l, a, Chosen(l, a), now);
      SameSets(l.Place(a, Chosen(l, a), now), r);
      hide Ref, Level.Holds, Read, Fine, Chosen, Level.Place, Brought, Quieted;
      BroughtThen(l, l.Place(a, Chosen(l, a), now), r, a, Chosen(l, a), now);
    }
  }

  lemma {:induction false} ReadEvicts(l: Level, b: Memory, a: nat, now: nat)
    requires l.Shaped() && Shaped(b) && l.Lookup(a).Free? && Read(Cached(l, b), a, now).1.Stall?
    ensures Chosen(l, a) < l.p.ways
    ensures var r := Read(Cached(l, b), a, now).0.level; r.p == l.p && r.sets == l.Place(a, Chosen(l, a), now).sets
  {
    EvictSets(l, Read(b, a, now).0, a, now);
    hide Level.Lookup, Evict, Level.Place;
  }

  lemma {:induction false} WriteHitSets(l: Level, b: Memory, a: nat, d: map<nat, int>, now: nat, again: bool)
    requires l.Shaped() && Shaped(b) && l.Lookup(a).Hit? && Write(Cached(l, b), a, d, now, again).1.Stall?
    ensures var r := Write(Cached(l, b), a, d, now, again).0.level; r.p == l.p && r.sets == l.Store(a, d, now).sets
  {
    hide Level.Lookup, Level.Store;
  }

  lemma {:induction false} WriteHitAccessed(l: Level, b: Memory, a: nat, now: nat, again: bool)
    requires Fine(Cached(l, b), 0) && QuietLevel(l, {}) && Quiet(b, {}) && l.p.lru && l.Holds(a)
    requires Write(Cached(l, b), a, map[], now, again).1.Stall?
    ensures Touched(l, Write(Cached(l, b), a, map[], now, again).0.level, a, now)
  {
    assert !l.InFlight(a);
    LookupProbe(l, a);
    WriteHitSets(l, b, a, map[], now, again);
    StoreRefs(l, a, map[], now);
    var r := Write(Cached(l, b), a, map[], now, again).0.level;
    SameSets(l.Store(a, map[], now), r);
    Then(l, l.Store(a, map[], now), r, a, now);
  }

  /** An access, started and completed, keeps the hierarchy fine and idle, and does one of the two
      things to the first level. */
  lemma {:induction false} ServeAccessed(m: Memory, x: Access)
    requires Fine(m, 0) && m.Cached? && Quiet(m, {}) && m.level.p.lru && m.level.p.allocate
    ensures Fine(Serve(m, x), 0) && Quiet(Serve(m, x), {}) && Accessed(m.level, Serve(m, x).level, x.a, x.now)
  {
    if x.write { ServeWrite(m, x.a, x.now); } else { ServeRead(m, x.a, x.now); }
  }

  lemma {:induction false} Finish(m: Memory, r: Memory, a: nat, d: map<nat, int>, now: nat)
    requires Effect(m, r, d, {a}, {a}, 0) && m.Cached? && Accessed(m.level, r.level, a, now)
    ensures var n := Complete(r, a); Fine(n, 0) && Quiet(n, {}) && Accessed(m.level, n.level, a, now)
  {
    CompleteKeeps(r, a, 0);
    FlightsQuiet(r, {a});
    assert {} + {a} == {a};
    CompleteQuiet(r, a, {});
    MarkRefs(r.level, a, Done(true));
    AccessedThen(m.level, r.level, Complete(r, a).level, a, now);
  }

  lemma {:induction false} ServeRead(m: Memory, a: nat, now: nat)
    requires Fine(m, 0) && m.Cached? && Quiet(m, {}) && m.level.p.lru
    ensures var r := Complete(Read(m, a, now).0, a); Fine(r, 0) && Quiet(r, {}) && Accessed(m.level, r.level, a, now)
  {
    ReadKeeps(m.level, m.below, a, now, {}, {}, 0, 0);
    ReadAccessed(m.level, m.below, a, now);
    assert {} + {a} == {a};
    Finish(m, Read(m, a, now).0, a, map[], now);
  }

  lemma {:induction false} ServeWrite(m: Memory, a: nat, now: nat)
    requires Fine(m, 0) && m.Cached? && Quiet(m, {}) && m.level.p.lru && m.level.p.allocate
    ensures var r := Complete(Write(m, a, map[], now, false).0, a);
      Fine(r, 0) && Quiet(r, {}) && Accessed(m.level, r.level, a, now)
  {
    StoreKeeps(m.level, m.below, a, map[], now, {}, 0, 0);
    assert {} + {a} == {a};
    var w := Write(m, a, map[], now, false).0;
    if m.level.Holds(a) {
      WriteHitAccessed(m.level, m.below, a, now, false);
    } else {
      WriteMissAccessed(m, a, now);
    }
    Finish(m, w, a, map[], now);
  }

  lemma {:induction false} WriteMissAccessed(m: Memory, a: nat, now: nat)
    requires Fine(m, 0) && m.Cached? && Quiet(m, {}) && m.level.p.lru && m.level.p.allocate && !m.level.Holds(a)
    ensures Accessed(m.level, Write(m, a, map[], now, false).0.level, a, now)
  {
    EvictChooses(m.level, m.below, a, {}, 0, 0);
    ReadKeeps(m.level, m.below, a, now, {}, {}, 0, 0);
    ReadAccessed(m.level, m.below, a, now);
    assert {} + {a} == {a};
    var m1 := Read(m, a, now).0;
    Finish(m, m1, a, map[], now);
    var n := Complete(m1, a);
    Allocated(m.level, m.below, m1, a, {}, 0);
    Retry(n, a, map[], now, {}, 0);
    SecondTry(m, a, map[], now);
    WriteHitAccessed(n.level, n.below, a, now, true);
    var w := Write(n, a, map[], now, true).0;
    var r := Write(m, a, map[], now, false).0;
    FineBelow(w.level, w.below, 0);
    SameSets(w.level, r.level);
    hide Level.Holds, Ref, Complete, Read, Write, Chosen, Touched, Quieted, Brought, Fine, Quiet;
    Then(n.level, w.level, r.level, a, now);
    BroughtThen(m.level, n.level, r.level, a, Chosen(m.level, a), now);
  }

  // ---- one set, as the blocks it holds ----

  /** The block numbers held in the set of index i. */
  function Held(l: Level, i: nat): set<nat>
    requires l.Shaped() && i < l.p.geo.sets
  {
    set k | 0 <= k < l.p.ways && l.sets[i][k].valid :: l.p.geo.Number(l.sets[i][k].addr)
  }

  lemma {:induction false} HeldIff(l: Level, w: nat)
    requires l.Ok()
    ensures l.Holds(w) <==> l.p.geo.Number(w) in Held(l, l.p.geo.Index(w))
  {
    var g := l.p.geo;
    var i := g.Index(w);
    assert SetOk(g, l.sets[i], i);
    if l.Holds(w) {
      ProbeFacts(l, w);
      var k := FirstHit(g, l.Ways(w), g.Tag(w));
      assert g.Number(l.sets[i][k].addr) == g.Number(w);
    }
    if g.Number(w) in Held(l, i) {
      var k :| 0 <= k < l.p.ways && l.sets[i][k].valid && g.Number(l.sets[i][k].addr) == g.Number(w);
      ProbeWay(l, w, k);
    }
  }

  /** As many blocks as valid ways. */
  lemma {:induction false} HeldSize(l: Level, i: nat)
    requires l.Ok() && i < l.p.geo.sets
    ensures |Held(l, i)| == FirstInvalid(l.sets[i]) <= l.p.ways
  {
    var ws := l.sets[i];
    var n := FirstInvalid(ws);
    assert SetOk(l.p.geo, ws, i);
    NumbersSize(l.p.geo, ws, i, n);
    assert Held(l, i) == Numbers(l.p.geo, ws, n) by {
      assert n < l.p.ways ==> !ws[n].valid;
      assert forall k | 0 <= k < l.p.ways && ws[k].valid :: k < n;
    }
  }

  function Numbers(g: Geometry, ws: seq<Block>, n: nat): set<nat>
    requires g.Ok() && n <= |ws|
  {
    set k | 0 <= k < n :: g.Number(ws[k].addr)
  }

  lemma {:induction false} NumbersSize(g: Geometry, ws: seq<Block>, i: nat, n: nat)
    requires SetOk(g, ws, i) && n <= |ws| && forall k | 0 <= k < n :: ws[k].valid
    ensures |Numbers(g, ws, n)| == n
  {
    if n > 0 {
      NumbersSize(g, ws, i, n - 1);
      var b := g.Number(ws[n - 1].addr);
      forall k | 0 <= k < n - 1
        ensures g.Number(ws[k].addr) != b
      {
        SameBlockIff(g, ws[k].addr, ws[n - 1].addr);
      }
      assert Numbers(g, ws, n) == Numbers(g, ws, n - 1) + {b};
    }
  }

  lemma {:induction false} ChosenOldest(l: Level, a: nat)
    requires l.Ok() && QuietLevel(l, {}) && |Held(l, l.p.geo.Index(a))| == l.p.ways
    ensures var k := Chosen(l, a);
      k < l.p.ways && l.Ways(a)[k].valid
      && forall w: nat :: l.Holds(w) && l.p.geo.Index(w) == l.p.geo.Index(a) ==> l.Ways(a)[k].reference <= Ref(l, w)
  {
    var ws := l.Ways(a);
    HeldSize(l, l.p.geo.Index(a));
    var o := CacheSet.Oldest(ws, |ws|, |ws|);
    assert o < |ws|;
    WayHeld(l, a, o);
    assert !l.InFlight(ws[o].addr);
    assert Chosen(l, a) == o;
    forall w: nat | l.Holds(w) && l.p.geo.Index(w) == l.p.geo.Index(a)
      ensures ws[o].reference <= Ref(l, w)
    {
      var k := FirstHit(l.p.geo, l.Ways(w), l.p.geo.Tag(w));
      assert l.Ways(w) == ws;
    }
  }

  /** Membership in Held, by the first address of the block. */
  lemma {:induction false} HeldAt(l: Level, i: nat, n: nat)
    requires l.Ok() && i < l.p.geo.sets
    ensures l.p.geo.Number(n * l.p.geo.blockSize) == n
    ensures n in Held(l, i) <==> l.p.geo.Index(n * l.p.geo.blockSize) == i && l.Holds(n * l.p.geo.blockSize)
  {
    var g := l.p.geo;
    var w := n * g.blockSize;
    Quotient(w, n, g.blockSize);
    HeldIff(l, w);
    if n in Held(l, i) {
      assert SetOk(g, l.sets[i], i);
      var k :| 0 <= k < l.p.ways && l.sets[i][k].valid && g.Number(l.sets[i][k].addr) == n;
      assert g.Index(l.sets[i][k].addr) == i;
    }
  }

  /** An access uses its block in its own set and leaves the other sets alone. */
  lemma {:induction false} AccessUses(l: Level, r: Level, a: nat, now: nat, i: nat)
    requires Accessed(l, r, a, now) && r.p == l.p && r.Ok() && QuietLevel(l, {}) && i < l.p.geo.sets
    ensures i != l.p.geo.Index(a) ==> Held(r, i) == Held(l, i)
    ensures i == l.p.geo.Index(a) ==>
      && Chosen(l, a) <= l.p.ways
      && var k := Chosen(l, a); var v := if k < l.p.ways then l.p.geo.Number(l.Ways(a)[k].addr) else 0;
      Held(r, i) == Recency.Used(Held(l, i), l.p.ways, l.p.geo.Number(a), v)
  {
    var g := l.p.geo;
    var h := Held(l, g.Index(a));
    HeldIff(l, a);
    HeldSize(l, g.Index(a));
    forall n: nat
      ensures i != g.Index(a) ==> (n in Held(r, i) <==> n in Held(l, i))
      ensures i == g.Index(a) ==>
        var k := Chosen(l, a); var v := if k < l.p.ways then g.Number(l.Ways(a)[k].addr) else 0;
        (n in Held(r, i) <==> n in Recency.Used(Held(l, i), l.p.ways, g.Number(a), v))
    {
      AccessUsesAt(l, r, a, now, i, n);
    }
  }

  lemma {:induction false} AccessUsesAt(l: Level, r: Level, a: nat, now: nat, i: nat, n: nat)
    requires Accessed(l, r, a, now) && r.p == l.p && r.Ok() && QuietLevel(l, {}) && i < l.p.geo.sets
    ensures i != l.p.geo.Index(a) ==> (n in Held(r, i) <==> n in Held(l, i))
    ensures i == l.p.geo.Index(a) ==>
      var k := Chosen(l, a); var v := if k < l.p.ways then l.p.geo.Number(l.Ways(a)[k].addr) else 0;
      (n in Held(r, i) <==> n in Recency.Used(Held(l, i), l.p.ways, l.p.geo.Number(a), v))
  {
    HeldAt(l, i, n);
    HeldAt(r, i, n);
    HeldIff(l, a);
    HeldSize(l, l.p.geo.Index(a));
    var w := n * l.p.geo.blockSize;
    if l.Holds(a) { HitUses(l, r, a, now, w); } else { MissUses(l, r, a, now, i, w); }
    hide Held, Level.Holds, Chosen, Level.Ways, Accessed, QuietLevel, Level.Ok, Geometry.Index, Geometry.Number;
  }

  lemma {:induction false} HitUses(l: Level, r: Level, a: nat, now: nat, w: nat)
    requires Accessed(l, r, a, now) && r.p == l.p && r.Ok() && l.Holds(a)
    ensures r.Holds(w) == l.Holds(w)
  {
    hide Level.Holds, Level.Ok, Ref;
  }

  /** After a miss: the block of a, and what did not leave. */
  lemma {:induction false} MissUses(l: Level, r: Level, a: nat, now: nat, i: nat, w: nat)
    requires Accessed(l, r, a, now) && r.p == l.p && r.Ok() && QuietLevel(l, {}) && !l.Holds(a)
    ensures Chosen(l, a) < l.p.ways
    ensures
      var full := |Held(l, l.p.geo.Index(a))| == l.p.ways;
      var v := l.Ways(a)[Chosen(l, a)].addr;
      && (full ==> l.p.geo.Index(v) == l.p.geo.Index(a))
      && r.Holds(w) == (l.p.geo.Number(w) == l.p.geo.Number(a)
          || (l.Holds(w) && !(full && l.p.geo.Number(v) == l.p.geo.Number(w))))
  {
    MissHolds(l, r, a, now, w);
    MissLeaves(l, a, w);
    hide Held, Level.Holds, Chosen, Level.Ways, Accessed, Leaves, Level.Ok, Geometry.Number, Geometry.Index;
  }

  lemma {:induction false} MissHolds(l: Level, r: Level, a: nat, now: nat, w: nat)
    requires Accessed(l, r, a, now) && r.p == l.p && r.Ok() && !l.Holds(a)
    ensures Chosen(l, a) < l.p.ways && r.Holds(w) == (Same(l, a, w) || (l.Holds(w) && !Leaves(l, a, Chosen(l, a), w)))
  {
    hide Held, Level.Holds, Chosen, Level.Ways, Leaves, Level.Ok, Same, Ref;
  }

  /** A block leaves exactly when the set is full. */
  lemma {:induction false} MissLeaves(l: Level, a: nat, w: nat)
    requires l.Ok() && QuietLevel(l, {}) && Chosen(l, a) < l.p.ways
    ensures
      var full := |Held(l, l.p.geo.Index(a))| == l.p.ways;
      var v := l.Ways(a)[Chosen(l, a)].addr;
      && (full ==> l.p.geo.Index(v) == l.p.geo.Index(a))
      && (Leaves(l, a, Chosen(l, a), w) <==> full && l.p.geo.Number(v) == l.p.geo.Number(w))
  {
    var k := Chosen(l, a);
    HeldSize(l, l.p.geo.Index(a));
    if |Held(l, l.p.geo.Index(a))| == l.p.ways {
      ChosenOldest(l, a);
      WayHeld(l, a, k);
    } else {
      assert !l.Ways(a)[k].valid;
    }
    hide Held, Level.Holds, Level.Ok, Geometry.Number, Geometry.Index, QuietLevel, Victim;
  }

  // ---- whole traces ----

  /** The blocks of set i, in the order they are accessed. */
  function SetTrace(g: Geometry, xs: seq<Access>, i: nat): seq<nat>
    requires g.Ok()
  {
    if xs == [] then []
    else
      var x := xs[|xs| - 1];
      SetTrace(g, xs[..|xs| - 1], i) + if g.Index(x.a) == i then [g.Number(x.a)] else []
  }

  /** The cycle of the last access to block n. */
  function Stamp(g: Geometry, xs: seq<Access>, n: nat): nat
    requires g.Ok()
  {
    if xs == [] then 0
    else if g.Number(xs[|xs| - 1].a) == n then xs[|xs| - 1].now
    else Stamp(g, xs[..|xs| - 1], n)
  }

  /** One stamp per access, later accesses in later cycles. */
  ghost predicate Timed(xs: seq<Access>) {
    forall i, j | 0 <= i < j < |xs| :: xs[i].now < xs[j].now
  }

  function Serves(m: Memory, xs: seq<Access>): (r: Memory)
    requires Shaped(m)
    ensures Shaped(r) && ParamsOf(r) == ParamsOf(m) && r.Ram? == m.Ram?
  {
    if xs == [] then m else Serve(Serves(m, xs[..|xs| - 1]), xs[|xs| - 1])
  }

  lemma {:induction false} StampBound(g: Geometry, xs: seq<Access>, n: nat, i: nat)
    requires g.Ok() && Timed(xs) && Recency.Last(SetTrace(g, xs, i), n) >= 0
    ensures xs != [] && Stamp(g, xs, n) <= xs[|xs| - 1].now
    decreases |xs|
  {
    var front := xs[..|xs| - 1];
    var x := xs[|xs| - 1];
    if g.Number(x.a) != n {
      if g.Index(x.a) == i { Recency.LastAppend(SetTrace(g, front, i), g.Number(x.a), n); }
      else { assert SetTrace(g, xs, i) == SetTrace(g, front, i); }
      StampBound(g, front, n, i);
    }
  }

  /** Stamps order the blocks of a set as their last uses do. */
  lemma {:induction false} StampOrder(g: Geometry, xs: seq<Access>, i: nat, u: nat, v: nat)
    requires g.Ok() && Timed(xs)
    requires var t := SetTrace(g, xs, i); Recency.Last(t, u) >= 0 && Recency.Last(t, v) >= 0
    requires Stamp(g, xs, u) <= Stamp(g, xs, v)
    requires u % g.sets == i && v % g.sets == i
    ensures Recency.Last(SetTrace(g, xs, i), u) <= Recency.Last(SetTrace(g, xs, i), v)
    decreases |xs|
  {
    if xs != [] && u != v {
      var front := xs[..|xs| - 1];
      var x := xs[|xs| - 1];
      var t := SetTrace(g, front, i);
      if g.Index(x.a) != i {
        assert SetTrace(g, xs, i) == t;
        StampOrder(g, front, i, u, v);
      } else {
        Recency.LastAppend(t, g.Number(x.a), u);
        Recency.LastAppend(t, g.Number(x.a), v);
        if g.Number(x.a) == u {
          StampBound(g, front, v, i);
        } else if g.Number(x.a) != v {
          StampOrder(g, front, i, u, v);
        }
      }
    }
  }

  /** The level holds, in every set, the blocks at stack distance below its ways, each stamped with
      its last access. */
  ghost predicate StackOk(l: Level, xs: seq<Access>) {
    l.Ok()
    && (forall i | 0 <= i < l.p.geo.sets :: Recency.Exact(SetTrace(l.p.geo, xs, i), l.p.ways, Held(l, i)))
    && (forall w: nat :: l.Holds(w) ==> Ref(l, w) == Stamp(l.p.geo, xs, l.p.geo.Number(w)))
  }

  lemma {:induction false} StampsKept(l: Level, r: Level, xs: seq<Access>, x: Access)
    requires StackOk(l, xs) && Accessed(l, r, x.a, x.now) && r.p == l.p && r.Ok()
    ensures forall w: nat :: r.Holds(w) ==> Ref(r, w) == Stamp(l.p.geo, xs + [x], l.p.geo.Number(w))
  {
    assert (xs + [x])[..|xs|] == xs;
    forall w: nat | r.Holds(w)
      ensures Ref(r, w) == Stamp(l.p.geo, xs + [x], l.p.geo.Number(w))
    {
      if Same(l, x.a, w) && l.Holds(x.a) { ProbeSame(l, x.a, w); }
    }
  }

  lemma {:induction false} VictimIsLast(l: Level, xs: seq<Access>, a: nat)
    requires StackOk(l, xs) && QuietLevel(l, {}) && Timed(xs)
    requires |Held(l, l.p.geo.Index(a))| == l.p.ways
    ensures var i := l.p.geo.Index(a); var k := Chosen(l, a); var t := SetTrace(l.p.geo, xs, i);
      k < l.p.ways && var v := l.p.geo.Number(l.Ways(a)[k].addr);
      v in Held(l, i) && forall h | h in Held(l, i) :: Recency.Last(t, v) <= Recency.Last(t, h)
  {
    var g := l.p.geo;
    var i := g.Index(a);
    ChosenOldest(l, a);
    var k := Chosen(l, a);
    WayHeld(l, a, k);
    var v := l.Ways(a)[k].addr;
    HeldIff(l, v);
    forall h | h in Held(l, i)
      ensures Recency.Last(SetTrace(g, xs, i), g.Number(v)) <= Recency.Last(SetTrace(g, xs, i), h)
    {
      OldestIsLast(l, xs, i, v, h);
    }
  }

  lemma {:induction false} TraceAppend(g: Geometry, xs: seq<Access>, x: Access, i: nat)
    requires g.Ok()
    ensures SetTrace(g, xs + [x], i) == if g.Index(x.a) == i then SetTrace(g, xs, i) + [g.Number(x.a)]
        else SetTrace(g, xs, i)
  {
    assert (xs + [x])[..|xs|] == xs;
  }

  lemma {:induction false} SetKept(l: Level, r: Level, xs: seq<Access>, x: Access, i: nat)
    requires StackOk(l, xs) && Accessed(l, r, x.a, x.now) && r.p == l.p && r.Ok() && QuietLevel(l, {}) && Timed(xs)
    requires i < l.p.geo.sets
    ensures Recency.Exact(SetTrace(l.p.geo, xs + [x], i), l.p.ways, Held(r, i))
  {
    var g := l.p.geo;
    TraceAppend(g, xs, x, i);
    assert Recency.Exact(SetTrace(g, xs, i), l.p.ways, Held(l, i));
    AccessUses(l, r, x.a, x.now, i);
    if i == g.Index(x.a) {
      HeldSize(l, i);
      if |Held(l, i)| == l.p.ways { VictimIsLast(l, xs, x.a); }
      var k := Chosen(l, x.a);
      SetUsed(SetTrace(g, xs, i), l.p.ways, Held(l, i), g.Number(x.a), if k < l.p.ways
          then g.Number(l.Ways(x.a)[k].addr) else 0);
    }
    hide Held, Accessed, SetTrace, QuietLevel, StackOk, Recency.Exact, Recency.Last, Recency.Used, Chosen, Timed;
  }

  lemma {:induction false} SetUsed(t: seq<nat>, ways: nat, held: set<nat>, b: nat, v: nat)
    requires ways > 0 && Recency.Exact(t, ways, held) && |held| <= ways
    requires |held| == ways ==> v in held && forall h | h in held :: Recency.Last(t, v) <= Recency.Last(t, h)
    ensures Recency.Exact(t + [b], ways, Recency.Used(held, ways, b, v))
  {
    Recency.UseKeepsExact(t, ways, held, b, v);
  }

  lemma {:induction false} OldestIsLast(l: Level, xs: seq<Access>, i: nat, v: nat, h: nat)
    requires StackOk(l, xs) && Timed(xs) && i < l.p.geo.sets && l.Holds(v) && l.p.geo.Index(v) == i && h in Held(l, i)
    requires forall w: nat :: l.Holds(w) && l.p.geo.Index(w) == i ==> Ref(l, v) <= Ref(l, w)
    ensures Recency.Last(SetTrace(l.p.geo, xs, i), l.p.geo.Number(v)) <= Recency.Last(SetTrace(l.p.geo, xs, i), h)
  {
    var g := l.p.geo;
    var t := SetTrace(g, xs, i);
    HeldAt(l, i, h);
    HeldIff(l, v);
    assert Recency.Exact(t, l.p.ways, Held(l, i));
    assert Recency.Near(t, l.p.ways, h) && Recency.Near(t, l.p.ways, g.Number(v));
    StampOrder(g, xs, i, g.Number(v), h);
  }

  /** An idle, coherent hierarchy under a first level with LRU and write-allocate. */
  ghost predicate LruReady(m: Memory) {
    Fine(m, 0) && m.Cached? && Quiet(m, {}) && m.level.p.lru && m.level.p.allocate
  }

  /** r is that hierarchy after the accesses. */
  ghost predicate Stacked(r: Memory, p: Params, xs: seq<Access>) {
    LruReady(r) && r.level.p == p && StackOk(r.level, xs)
  }

  /** In every run of reads and allocating writes, one stamp each, an LRU level holds a block exactly
      if fewer than `ways` other blocks of its set were used since its own last use. */
  lemma {:induction false} LruIsStackDistance(m: Memory, xs: seq<Access>)
    requires LruReady(m) && Timed(xs) && StackOk(m.level, [])
    ensures Stacked(Serves(m, xs), m.level.p, xs)
    decreases |xs|
  {
    hide LruReady, Serve, Serves, StackOk, Timed, Stacked;
    TimedFront(xs);
    ReadyShaped(m);
    ServesLast(m, xs);
    if xs == [] {
      StackedStart(m);
    } else {
      var front, x := xs[..|xs| - 1], xs[|xs| - 1];
      LruIsStackDistance(m, front);
      assert front + [x] == xs;
      ServeKeepsStack(Serves(m, front), m.level.p, front, x);
    }
  }

  lemma {:induction false} ReadyShaped(m: Memory)
    requires LruReady(m)
    ensures Shaped(m) && m.Cached?
  {
  }

  lemma {:induction false} StackedStart(m: Memory)
    requires LruReady(m) && StackOk(m.level, [])
    ensures Stacked(m, m.level.p, [])
  {
  }

  lemma {:induction false} ServesLast(m: Memory, xs: seq<Access>)
    requires Shaped(m)
    ensures Serves(m, xs) == if xs == [] then m else Serve(Serves(m, xs[..|xs| - 1]), xs[|xs| - 1])
  {
  }

  lemma {:induction false} TimedFront(xs: seq<Access>)
    requires Timed(xs)
    ensures xs != [] ==> Timed(xs[..|xs| - 1])
  {
  }

  lemma {:induction false} ServeKeepsStack(n: Memory, p: Params, front: seq<Access>, x: Access)
    requires Stacked(n, p, front) && Timed(front)
    ensures Stacked(Serve(n, x), p, front + [x])
  {
    ServeAccessed(n, x);
    var r := Serve(n, x);
    FineBelow(r.level, r.below, 0);
    FineBelow(n.level, n.below, 0);
    assert r.level.p == n.level.p by { assert ParamsOf(r)[0] == ParamsOf(n)[0]; }
    StampsKept(n.level, r.level, front, x);
    forall i | 0 <= i < r.level.p.geo.sets
      ensures Recency.Exact(SetTrace(r.level.p.geo, front + [x], i), r.level.p.ways, Held(r.level, i))
    {
      SetKept(n.level, r.level, front, x, i);
    }
    hide Fine, Quiet, Serve, Accessed, SetTrace, Held, Ref, Stamp, Timed, Level.Holds;
  }

  /** Starting empty, the cache with more ways holds every block the smaller one holds, after every
      trace: it never misses where the smaller one hits. */
  lemma {:induction false} MoreWaysHoldMore(small: Memory, big: Memory, xs: seq<Access>, w: nat)
    requires LruReady(small) && LruReady(big)
    requires StackOk(small.level, []) && StackOk(big.level, []) && Timed(xs)
    requires small.level.p.geo == big.level.p.geo && small.level.p.ways <= big.level.p.ways
    ensures var s, b := Serves(small, xs), Serves(big, xs);
      s.level.Shaped() && b.level.Shaped() && (s.level.Holds(w) ==> b.level.Holds(w))
  {
    LruIsStackDistance(small, xs);
    LruIsStackDistance(big, xs);
    var s, b := Serves(small, xs).level, Serves(big, xs).level;
    var g := s.p.geo;
    HeldIff(s, w);
    HeldIff(b, w);
    assert Recency.Exact(SetTrace(g, xs, g.Index(w)), s.p.ways, Held(s, g.Index(w)));
    assert Recency.Exact(SetTrace(g, xs, g.Index(w)), b.p.ways, Held(b, g.Index(w)));
  }

  lemma {:induction false} EmptyStackOk(l: Level)
    requires l.Ok() && forall w: nat :: !l.Holds(w)
    ensures StackOk(l, [])
  {
    forall i | 0 <= i < l.p.geo.sets
      ensures Recency.Exact(SetTrace(l.p.geo, [], i), l.p.ways, Held(l, i))
    {
      forall n: nat
        ensures n !in Held(l, i)
      {
        HeldAt(l, i, n);
      }
    }
  }
}
