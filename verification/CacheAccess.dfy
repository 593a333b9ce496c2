/** Reads, writes and evictions keep the hierarchy coherent and always find room. */
module CacheAccess {
  import opened Wrappers
  import opened CacheSet
  import opened CacheLevel
  import opened Cache
  import opened CacheCoherence

  /** What is in flight at the top level, and below it. */
  ghost predicate Flights(m: Memory, top: set<nat>, low: set<nat>)
    requires Shaped(m)
  {
    m.Cached? ==> QuietLevel(m.level, top) && Quiet(m.below, low)
  }

  lemma {:induction false} Tail(ps: seq<Params>, a: nat, d: map<nat, int>, flight: set<nat>, limit: nat)
    requires |ps| > 0
    ensures Within(ps, a, d) ==> Within(ps[1..], a, d)
    ensures Apart(ps, a, flight) ==> Apart(ps[1..], a, flight)
    ensures Aligned(ps, limit) ==> Aligned(ps[1..], limit)
    ensures Lower(ps) ==> Lower(ps[1..])
  {
  }

  // ---- writes that need no room ----

  /** From m to n only the cells d changed, and no block in flight was lost. */
  ghost predicate Effect(m: Memory, n: Memory, d: map<nat, int>, top: set<nat>, low: set<nat>, limit: nat) {
    && Fine(m, limit) && Fine(n, limit) && ParamsOf(n) == ParamsOf(m)
    && (forall w: nat :: Look(n, w) == if w in d then d[w] else Look(m, w))
    && Flights(n, top, low)
    && Kept(m, n)
  }

  lemma {:induction false} Twinned(m: Memory, n: Memory, r: Memory, d: map<nat, int>, top: set<nat>, low: set<nat>,
      limit: nat)
    requires Twin(n, r) && m.Cached? && Effect(m, n, d, top, low, limit) && ParamsOf(r) == ParamsOf(n)
    ensures Effect(m, r, d, top, low, limit)
    ensures forall w: nat :: r.level.Holds(w) == n.level.Holds(w)
  {
    hide Level.Probe, Level.Holds, Level.InFlight, Level.Dirty, Fine, Look;
    Recounted(n, r, limit);
  }

  lemma {:induction false} StoredWords(l: Level, a: nat, d: map<nat, int>, now: nat)
    requires l.Ok() && l.Holds(a) && forall w | w in d :: Same(l, a, w)
    ensures forall w: nat | w in d :: l.Holds(w)
    ensures forall w: nat :: l.Store(a, d, now).Word(w) == if w in d then d[w] else l.Word(w)
  {
    forall w: nat | w in d
      ensures l.Holds(w)
    {
      ProbeSame(l, a, w);
    }
    hide Level.Probe, Level.Holds, Level.Store;
  }

  lemma {:induction false} WriteHitAgrees(l: Level, b: Memory, b1: Memory, a: nat, d: map<nat, int>, now: nat)
    requires l.Ok() && Shaped(b) && Shaped(b1) && Agree(l, b) && l.Holds(a)
    requires forall w | w in d :: Same(l, a, w)
    requires forall w: nat :: Look(b1, w) == if w in d && !l.p.writeBack then d[w] else Look(b, w)
    ensures var r := l.Store(a, d, now);
      Agree(r, b1)
      && forall w: nat :: Look(Cached(r, b1), w) == if w in d then d[w] else Look(Cached(l, b), w)
  {
    StoreEffect(l, a, d, now);
    StoredWords(l, a, d, now);
    hide Level.Probe, Level.Holds, Level.InFlight, Level.Dirty, Level.Store, Level.Word, Level.Ok;
  }

  lemma {:induction false} WriteHitFlights(l: Level, b: Memory, b1: Memory, a: nat, d: map<nat, int>, now: nat,
      top: set<nat>, low: set<nat>)
    requires l.Ok() && Shaped(b) && Shaped(b1) && QuietLevel(l, top) && Quiet(b1, low + {a}) && Kept(b, b1)
        && l.Holds(a)
    ensures Flights(Cached(l.Store(a, d, now), b1), top + {a}, low + {a})
    ensures Kept(Cached(l, b), Cached(l.Store(a, d, now), b1))
    ensures forall w: nat :: l.Store(a, d, now).Holds(w) == l.Holds(w)
  {
    StoreEffect(l, a, d, now);
    hide Level.Probe, Level.Holds, Level.InFlight, Level.Dirty, Level.Store;
  }

  lemma {:induction false} WriteHitFine(l: Level, b: Memory, b1: Memory, a: nat, d: map<nat, int>, now: nat, limit: nat)
    requires Fine(Cached(l, b), limit) && a >= limit && l.Holds(a)
    requires Fine(b1, limit) && ParamsOf(b1) == ParamsOf(b) && Agree(l.Store(a, d, now), b1)
    ensures Fine(Cached(l.Store(a, d, now), b1), limit)
  {
    StoreEffect(l, a, d, now);
    forall w: nat | Same(l, a, w)
      ensures w >= limit
    {
      if w < limit { LimitSplits(l.p.geo, limit, w, a); }
    }
    hide Level.Probe, Level.Holds, Level.InFlight, Level.Dirty, Level.Store, Fits, Lower, Same, Aligned, Agree, Look;
  }

  lemma {:induction false} WriteHit(l: Level, b: Memory, b1: Memory, a: nat, d: map<nat, int>, now: nat, top: set<nat>,
      low: set<nat>, limit: nat)
    requires Fine(Cached(l, b), limit) && QuietLevel(l, top) && a >= limit && l.Holds(a)
    requires forall w | w in d :: Same(l, a, w)
    requires Effect(b, b1, if l.p.writeBack then map[] else d, low + {a}, low + {a}, limit)
    ensures Effect(Cached(l, b), Cached(l.Store(a, d, now), b1), d, top + {a}, low + {a}, limit)
    ensures forall w: nat :: l.Store(a, d, now).Holds(w) == l.Holds(w)
  {
    FlightsQuiet(b1, low + {a});
    WriteHitAgrees(l, b, b1, a, d, now);
    WriteHitFlights(l, b, b1, a, d, now, top, low);
    WriteHitFine(l, b, b1, a, d, now, limit);
    hide Level.Probe, Level.Holds, Level.Store, Agree, Fine, Kept, Flights;
  }

  lemma {:induction false} WritePass(l: Level, b: Memory, b1: Memory, a: nat, d: map<nat, int>, top: set<nat>,
      low: set<nat>, limit: nat)
    requires Fine(Cached(l, b), limit) && QuietLevel(l, top) && a >= limit && !l.Holds(a)
    requires forall w | w in d :: Same(l, a, w)
    requires Effect(b, b1, d, low + {a}, low + {a}, limit)
    ensures Effect(Cached(l, b), Cached(l, b1), d, top + {a}, low + {a}, limit)
  {
    forall w: nat | w in d
      ensures !l.Holds(w)
    {
      ProbeSame(l, a, w);
    }
    hide Level.Probe, Level.Holds, Level.InFlight, Level.Dirty, Fits, Lower, Same, Aligned;
    assert Agree(l, b);
    assert Agree(l, b1);
  }

  lemma {:induction false} KeptSelf(m: Memory)
    requires Shaped(m)
    ensures Kept(m, m)
  {
    if m.Cached? { KeptSelf(m.below); }
  }

  lemma {:induction false} QuietMore(m: Memory, small: set<nat>, big: set<nat>)
    requires Shaped(m) && Quiet(m, small) && small <= big
    ensures Quiet(m, big)
  {
    if m.Cached? { QuietMore(m.below, small, big); }
  }

  lemma {:induction false} FlightsQuiet(m: Memory, flight: set<nat>)
    requires Shaped(m)
    ensures Flights(m, flight, flight) <==> Quiet(m, flight)
  {
  }

  lemma {:induction false} Unchanged(m: Memory, low: set<nat>, more: set<nat>, limit: nat)
    requires Fine(m, limit) && Quiet(m, low) && low <= more
    ensures Effect(m, m, map[], more, more, limit)
  {
    QuietMore(m, low, more);
    KeptSelf(m);
    hide Fine, Look;
  }

  lemma {:induction false} WriteKeeps(m: Memory, a: nat, d: map<nat, int>, now: nat, again: bool, top: set<nat>,
      low: set<nat>, limit: nat)
    requires Fine(m, limit) && Flights(m, top, low) && a >= limit
    requires m.Cached? ==> (!m.level.p.allocate || m.level.Holds(a)) && !m.level.InFlight(a)
    requires m.Cached? ==> Apart(ParamsOf(m.below), a, low)
    requires Within(ParamsOf(m), a, d)
    ensures var r := Write(m, a, d, now, again);
      r.1.Stall? && r.1.n >= 1 && Effect(m, r.0, d, top + {a}, low + {a}, limit)
      && (m.Cached? ==> forall w: nat :: r.0.level.Holds(w) == m.level.Holds(w))
    decreases m, 0
  {
    if m.Cached? { WriteCached(m.level, m.below, a, d, now, again, top, low, limit); }
  }

  lemma {:induction false} WriteCached(l: Level, b: Memory, a: nat, d: map<nat, int>, now: nat, again: bool,
      top: set<nat>, low: set<nat>, limit: nat)
    requires Fine(Cached(l, b), limit) && QuietLevel(l, top) && Quiet(b, low) && a >= limit
    requires (!l.p.allocate || l.Holds(a)) && !l.InFlight(a) && Apart(ParamsOf(b), a, low)
    requires Within(ParamsOf(Cached(l, b)), a, d)
    ensures var m := Cached(l, b); var r := Write(m, a, d, now, again);
      r.1.Stall? && r.1.n >= 1 && Effect(m, r.0, d, top + {a}, low + {a}, limit)
      && forall w: nat :: r.0.level.Holds(w) == l.Holds(w)
    decreases Cached(l, b), -1
  {
    var ps := ParamsOf(Cached(l, b));
    Tail(ps, a, d, low, limit);
    FineBelow(l, b, limit);
    ReadLatency(l, b, limit);
    assert ps[0] == l.p;
    hide Level.Holds, Level.InFlight, Fine, Look, Kept, Quiet, QuietLevel, Write, Effect;
    if l.Holds(a) && l.p.writeBack {
      Unchanged(b, low, low + {a}, limit);
      WriteKeptHere(l, b, a, d, now, again, top, low, limit);
    } else {
      WriteBelow(b, a, d, now, low, limit);
      if l.Holds(a) {
        WriteThrough(l, b, a, d, now, again, top, low, limit);
      } else {
        WritePassed(l, b, a, d, now, again, top, low, limit);
      }
    }
  }

  lemma {:induction false} WriteKeptHere(l: Level, b: Memory, a: nat, d: map<nat, int>, now: nat, again: bool,
      top: set<nat>, low: set<nat>, limit: nat)
    requires Fine(Cached(l, b), limit) && QuietLevel(l, top) && a >= limit && l.Holds(a) && !l.InFlight(a)
    requires forall w | w in d :: Same(l, a, w)
    requires l.p.writeBack && Effect(b, b, map[], low + {a}, low + {a}, limit)
    ensures var m := Cached(l, b); var r := Write(m, a, d, now, again);
      r.1 == Stall(l.p.writeLatency) && Effect(m, r.0, d, top + {a}, low + {a}, limit)
      && forall w: nat :: r.0.level.Holds(w) == l.Holds(w)
  {
    LookupProbe(l, a);
    hide Level.Probe, Level.Holds, Level.InFlight, Level.Lookup, Level.Store, Fine, Look, Effect, Fits, Lower,
         QuietLevel;
    var n := Cached(l.Store(a, d, now), b);
    WriteHit(l, b, b, a, d, now, top, low, limit);
    Twinned(Cached(l, b), n, CountWrite(n, 1, 0), d, top + {a}, low + {a}, limit);
  }

  lemma {:induction false} WriteThrough(l: Level, b: Memory, a: nat, d: map<nat, int>, now: nat, again: bool,
      top: set<nat>, low: set<nat>, limit: nat)
    requires Fine(Cached(l, b), limit) && QuietLevel(l, top) && a >= limit && l.Holds(a) && !l.InFlight(a)
        && !l.p.writeBack
    requires forall w | w in d :: Same(l, a, w)
    requires var w := Write(b, a, d, now, false); w.1.Stall? && Effect(b, w.0, d, low + {a}, low + {a}, limit)
    ensures var m := Cached(l, b); var r := Write(m, a, d, now, again);
      r.1.Stall? && r.1.n >= l.p.writeLatency && Effect(m, r.0, d, top + {a}, low + {a}, limit)
      && forall w: nat :: r.0.level.Holds(w) == l.Holds(w)
  {
    LookupProbe(l, a);
    hide Level.Probe, Level.Holds, Level.InFlight, Level.Lookup, Level.Store, Fine, Look, Effect, Fits, Lower,
         QuietLevel;
    var b1 := Write(b, a, d, now, false).0;
    var n := Cached(l.Store(a, d, now), b1);
    WriteHit(l, b, b1, a, d, now, top, low, limit);
    Twinned(Cached(l, b), n, CountWrite(n, 1, 0), d, top + {a}, low + {a}, limit);
  }

  lemma {:induction false} WritePassed(l: Level, b: Memory, a: nat, d: map<nat, int>, now: nat, again: bool,
      top: set<nat>, low: set<nat>, limit: nat)
    requires Fine(Cached(l, b), limit) && QuietLevel(l, top) && a >= limit && !l.Holds(a) && !l.p.allocate
    requires forall w | w in d :: Same(l, a, w)
    requires var w := Write(b, a, d, now, false); w.1.Stall? && Effect(b, w.0, d, low + {a}, low + {a}, limit)
    ensures var m := Cached(l, b); var r := Write(m, a, d, now, again);
      r.1 == Write(b, a, d, now, false).1 && Effect(m, r.0, d, top + {a}, low + {a}, limit)
      && forall w: nat :: r.0.level.Holds(w) == l.Holds(w)
  {
    LookupProbe(l, a);
    hide Level.Probe, Level.Holds, Level.InFlight, Level.Lookup, Level.Store, Fine, Look, Effect, Fits, Lower,
         QuietLevel;
    var b1 := Write(b, a, d, now, false).0;
    var n := Cached(l, b1);
    WritePass(l, b, b1, a, d, top, low, limit);
    Twinned(Cached(l, b), n, CountWrite(n, 0, 1), d, top + {a}, low + {a}, limit);
  }

  /** A write to a level that does not allocate. */
  lemma {:induction false} WriteBelow(m: Memory, a: nat, d: map<nat, int>, now: nat, low: set<nat>, limit: nat)
    requires Fine(m, limit) && Lower(ParamsOf(m)) && Quiet(m, low) && a >= limit
    requires Apart(ParamsOf(m), a, low) && Within(ParamsOf(m), a, d)
    ensures var r := Write(m, a, d, now, false);
      r.1.Stall? && r.1.n >= 1 && Effect(m, r.0, d, low + {a}, low + {a}, limit)
    decreases m, 1
  {
    if m.Cached? {
      Tail(ParamsOf(m), a, d, low, limit);
      NotInFlight(m, a, low);
    }
    WriteKeeps(m, a, d, now, false, low, low, limit);
  }

  lemma {:induction false} NotInFlight(m: Memory, a: nat, low: set<nat>)
    requires Shaped(m) && m.Cached? && Quiet(m, low) && Apart(ParamsOf(m), a, low)
    ensures !m.level.InFlight(a)
  {
    assert ParamsOf(m)[0] == m.level.p;
  }

  // ---- bringing a block in ----

  /** What leaves is below, unless it was never in. */
  ghost predicate WrittenDown(l: Level, b: Memory, b1: Memory, a: nat, k: nat)
    requires l.Shaped() && Shaped(b) && Shaped(b1) && k < l.p.ways
  {
    forall w: nat :: Look(b1, w) == if Leaves(l, a, k, w) then l.Word(w) else Look(b, w)
  }

  lemma {:induction false} LeavesHeld(l: Level, a: nat, k: nat)
    requires l.Ok() && k < l.p.ways && !l.Holds(a)
    ensures forall w: nat :: Leaves(l, a, k, w) ==> l.Holds(w) && l.Probe(w) == Some(l.Ways(a)[k]) && !Same(l, a, w)
  {
    if l.Ways(a)[k].valid {
      WayHeld(l, a, k);
      var v := l.Ways(a)[k].addr;
      forall w: nat | Same(l, v, w)
        ensures l.Probe(w) == Some(l.Ways(a)[k]) && !Same(l, a, w)
      {
        ProbeSame(l, v, w);
        if Same(l, a, w) { ProbeSame(l, a, w); }
      }
    }
  }

  lemma {:induction false} BringWords(l: Level, b1: Memory, a: nat, k: nat, now: nat)
    requires l.Ok() && Shaped(b1) && k < l.p.ways && !l.Holds(a)
    ensures forall w: nat :: Bring(l, b1, a, k, now).level.Word(w) == if Same(l, a, w) then Look(b1, w) else l.Word(w)
    ensures forall w: nat :: Same(l, a, w) ==> !l.Holds(w)
  {
    forall w: nat
      ensures w in l.Span(a) <==> Same(l, a, w)
      ensures Same(l, a, w) ==> !l.Holds(w)
    {
      InSpan(l, a, w);
      if Same(l, a, w) { ProbeSame(l, a, w); }
    }
    hide Level.Holds, Level.Probe, Level.Place, Same, Level.Span, Look;
  }

  lemma {:induction false} BringAgrees(l: Level, b: Memory, b1: Memory, a: nat, k: nat, now: nat)
    requires l.Ok() && Shaped(b) && Shaped(b1) && k < l.p.ways && Agree(l, b) && !l.Holds(a)
    requires forall j | 0 <= j < k :: l.Ways(a)[j].valid
    requires WrittenDown(l, b, b1, a, k)
    ensures var r := Bring(l, b1, a, k, now);
      Agree(r.level, b1) && forall w: nat :: Look(r, w) == Look(Cached(l, b), w)
  {
    BringEffect(l, a, k, now);
    LeavesHeld(l, a, k);
    var r := Bring(l, b1, a, k, now);
    SetsOnly(l.Place(a, k, now), r.level);
    BringWords(l, b1, a, k, now);
    hide Level.Holds, Level.InFlight, Level.Probe, Level.Dirty, Level.Place, Same, Level.Span, Leaves, Level.Word,
         Fetched, Level.Ok;
  }

  lemma {:induction false} BringFlights(l: Level, b: Memory, b1: Memory, a: nat, k: nat, now: nat, top: set<nat>,
      low: set<nat>)
    requires l.Ok() && Shaped(b) && Shaped(b1) && k < l.p.ways && !l.Holds(a)
    requires forall j | 0 <= j < k :: l.Ways(a)[j].valid
    requires l.Ways(a)[k].valid ==> l.Ways(a)[k].done
    requires QuietLevel(l, top) && Quiet(b1, low + {a}) && Kept(b, b1)
    ensures var r := Bring(l, b1, a, k, now);
      Flights(r, top + {a}, low + {a}) && Kept(Cached(l, b), r)
      && r.level.Holds(a) && forall w: nat :: r.level.Holds(w) ==> l.Holds(w) || Same(l, a, w)
  {
    BringEffect(l, a, k, now);
    LeavesHeld(l, a, k);
    var r := Bring(l, b1, a, k, now);
    SetsOnly(l.Place(a, k, now), r.level);
    assert forall w: nat :: l.InFlight(w) ==> !Leaves(l, a, k, w);
    hide Level.Holds, Level.InFlight, Level.Probe, Level.Dirty, Level.Place, Leaves, Level.Ok;
  }

  lemma {:induction false} BringFine(l: Level, b: Memory, b1: Memory, a: nat, k: nat, now: nat, limit: nat)
    requires Fine(Cached(l, b), limit) && k < l.p.ways && !l.Holds(a)
    requires forall j | 0 <= j < k :: l.Ways(a)[j].valid
    requires Fine(b1, limit) && ParamsOf(b1) == ParamsOf(b) && Agree(Bring(l, b1, a, k, now).level, b1)
    ensures Fine(Bring(l, b1, a, k, now), limit)
  {
    BringEffect(l, a, k, now);
    var r := Bring(l, b1, a, k, now);
    SetsOnly(l.Place(a, k, now), r.level);
    hide Level.Probe, Level.Holds, Level.InFlight, Level.Dirty, Level.Place, Fits, Lower, Same, Aligned, Agree, Look,
         Leaves;
  }

  lemma {:induction false} BringKeeps(l: Level, b: Memory, b1: Memory, a: nat, k: nat, now: nat, top: set<nat>,
      low: set<nat>, limit: nat)
    requires Fine(Cached(l, b), limit) && k < l.p.ways && !l.Holds(a)
    requires forall j | 0 <= j < k :: l.Ways(a)[j].valid
    requires l.Ways(a)[k].valid ==> l.Ways(a)[k].done
    requires Fine(b1, limit) && ParamsOf(b1) == ParamsOf(b) && WrittenDown(l, b, b1, a, k)
    requires QuietLevel(l, top) && Quiet(b1, low + {a}) && Kept(b, b1)
    ensures var r := Bring(l, b1, a, k, now);
      Effect(Cached(l, b), r, map[], top + {a}, low + {a}, limit)
      && r.level.Holds(a) && forall w: nat :: r.level.Holds(w) ==> l.Holds(w) || Same(l, a, w)
  {
    BringAgrees(l, b, b1, a, k, now);
    BringFlights(l, b, b1, a, k, now, top, low);
    BringFine(l, b, b1, a, k, now, limit);
    hide Level.Probe, Level.Holds, Level.Place, Agree, Fine, Kept, Flights, Look, Same, Bring;
  }

  // ---- evictions ----

  /** Writing a victim down and completing that write. */
  lemma {:induction false} WriteDown(l: Level, b: Memory, a: nat, v: nat, now: nat, low: set<nat>, limit: nat)
    requires Fine(Cached(l, b), limit) && l.Holds(v) && v >= limit && l.p.geo.Index(v) == l.p.geo.Index(a)
        && !Same(l, a, v)
    requires Quiet(b, low + {a}) && forall f | f in low :: f < limit
    ensures var r := Write(b, v, Contents(l, v), now, false); var b1 := Complete(r.0, v);
      r.1.Stall? && Fine(b1, limit) && ParamsOf(b1) == ParamsOf(b) && Quiet(b1, low + {a}) && Kept(b, b1)
      && forall w: nat :: Look(b1, w) == if Same(l, v, w) then l.Word(w) else Look(b, w)
  {
    var ps := ParamsOf(b);
    Tail(ParamsOf(Cached(l, b)), v, map[], low, limit);
    LimitApart(ps, limit, v, low);
    VictimApart(l.p.geo, ps, a, v);
    assert Apart(ps, v, low + {a});
    forall w: nat
      ensures w in l.Span(v) <==> Same(l, v, w)
    {
      InSpan(l, v, w);
    }
    WithinBelow(l.p.geo, ps, v, Contents(l, v));
    WriteBelow(b, v, Contents(l, v), now, low + {a}, limit);
    var r := Write(b, v, Contents(l, v), now, false);
    FlightsQuiet(r.0, low + {a} + {v});
    CompleteKeeps(r.0, v, limit);
    CompleteQuiet(r.0, v, low + {a});
    CompleteKept(b, r.0, v, low + {a});
    hide Level.Probe, Level.Holds, Agree, Fine, Kept, Flights, Look, Same, Level.Span;
  }

  /** The block of a is in, held blocks of the top level are old ones or it, and no cell changed. */
  ghost predicate Fetches(l: Level, b: Memory, a: nat, top: set<nat>, low: set<nat>, limit: nat, r: Memory)
    requires l.Shaped()
  {
    && Effect(Cached(l, b), r, map[], top + {a}, low + {a}, limit) && r.Cached?
    && r.level.Holds(a) && forall w: nat :: r.level.Holds(w) ==> l.Holds(w) || Same(l, a, w)
  }

  /** At most f is in flight at the top level, alone in its set only if nothing is. */
  ghost predicate Room(l: Level, top: set<nat>, f: nat)
    requires l.Shaped()
  {
    QuietLevel(l, top) && top <= {f} && (top == {} || l.p.ways >= 2)
  }

  lemma {:induction false} CleanLeaves(l: Level, b: Memory, a: nat, k: nat)
    requires l.Ok() && Shaped(b) && k < l.p.ways && !l.Holds(a) && Agree(l, b)
    requires l.Ways(a)[k].valid ==> !l.Ways(a)[k].dirty
    ensures WrittenDown(l, b, b, a, k)
  {
    LeavesHeld(l, a, k);
  }

  lemma {:induction false} EvictClean(l: Level, b: Memory, a: nat, k: nat, now: nat, top: set<nat>, low: set<nat>,
      limit: nat)
    requires Fine(Cached(l, b), limit) && QuietLevel(l, top) && Quiet(b, low + {a}) && !l.Holds(a) && k < l.p.ways
    requires forall j | 0 <= j < k :: l.Ways(a)[j].valid
    requires l.Ways(a)[k].valid ==> !l.Ways(a)[k].dirty && l.Ways(a)[k].done
    ensures Fetches(l, b, a, top, low, limit, Bring(l, b, a, k, now))
  {
    CleanLeaves(l, b, a, k);
    KeptSelf(b);
    hide Fine, Look;
    FineBelow(l, b, limit);
    BringKeeps(l, b, b, a, k, now, top, low, limit);
  }

  lemma {:induction false} FineBelow(l: Level, b: Memory, limit: nat)
    requires Fine(Cached(l, b), limit)
    ensures Fine(b, limit) && l.Ok() && Agree(l, b)
    ensures forall w: nat :: l.Dirty(w) ==> w >= limit && l.p.writeBack
  {
    Tail(ParamsOf(Cached(l, b)), 0, map[], {}, limit);
  }

  lemma {:induction false} EvictDirty(l: Level, b: Memory, a: nat, k: nat, now: nat, top: set<nat>, low: set<nat>,
      limit: nat)
    requires Fine(Cached(l, b), limit) && QuietLevel(l, top) && Quiet(b, low + {a}) && !l.Holds(a) && k < l.p.ways
    requires forall j | 0 <= j < k :: l.Ways(a)[j].valid
    requires forall f | f in low :: f < limit
    requires l.Ways(a)[k].valid && l.Ways(a)[k].dirty && l.Ways(a)[k].done
    ensures var v := l.Ways(a)[k].addr; var w := Write(b, v, Contents(l, v), now, false);
      w.1.Stall? && Fetches(l, b, a, top, low, limit, Bring(CountWriteback(l, b), Complete(w.0, v), a, k, now))
  {
    FineBelow(l, b, limit);
    WayHeld(l, a, k);
    LeavesHeld(l, a, k);
    var v := l.Ways(a)[k].addr;
    assert l.Dirty(v);
    assert !Same(l, a, v);
    WriteDown(l, b, a, v, now, low, limit);
    var b1 := Complete(Write(b, v, Contents(l, v), now, false).0, v);
    hide Fine, Look, Level.Holds, Level.Probe, Level.Place, Level.Span, Same, CountWriteback, Bring, QuietLevel, Quiet,
         Kept;
    EvictWritten(l, b, b1, a, k, now, top, low, limit);
  }

  lemma {:induction false} EvictWritten(l: Level, b: Memory, b1: Memory, a: nat, k: nat, now: nat, top: set<nat>,
      low: set<nat>, limit: nat)
    requires Fine(Cached(l, b), limit) && k < l.p.ways && !l.Holds(a)
    requires forall j | 0 <= j < k :: l.Ways(a)[j].valid
    requires l.Ways(a)[k].valid && l.Ways(a)[k].done
    requires Fine(b1, limit) && ParamsOf(b1) == ParamsOf(b)
    requires forall w: nat :: Look(b1, w) == if Same(l, l.Ways(a)[k].addr, w) then l.Word(w) else Look(b, w)
    requires QuietLevel(l, top) && Quiet(b1, low + {a}) && Kept(b, b1)
    ensures Fetches(l, b, a, top, low, limit, Bring(CountWriteback(l, b), b1, a, k, now))
  {
    var c := CountWriteback(l, b);
    var n := Bring(l, b1, a, k, now);
    var r := Bring(c, b1, a, k, now);
    CountedBring(l, b, b1, a, k, now);
    hide Fine, Look, Level.Holds, Level.Probe, Level.Place, Level.Span, Same, CountWriteback, Bring, QuietLevel, Quiet,
         Kept;
    assert WrittenDown(l, b, b1, a, k);
    BringKeeps(l, b, b1, a, k, now, top, low, limit);
    Twinned(Cached(l, b), n, r, map[], top + {a}, low + {a}, limit);
  }

  lemma {:induction false} CountedBring(l: Level, b: Memory, b1: Memory, a: nat, k: nat, now: nat)
    requires l.Shaped() && Shaped(b1) && k < l.p.ways
    ensures CountWriteback(l, b).Shaped()
    ensures Twin(Bring(l, b1, a, k, now), Bring(CountWriteback(l, b), b1, a, k, now))
  {
    var c := CountWriteback(l, b);
    assert c.Span(a) == l.Span(a);
    hide Fill, Look;
  }

  /** The way that evict picks. */
  function Chosen(l: Level, a: nat): (k: nat)
    requires l.Shaped()
    ensures k <= l.p.ways
  {
    if FirstInvalid(l.Ways(a)) < l.p.ways then FirstInvalid(l.Ways(a)) else Victim(l.Ways(a))
  }

  lemma {:induction false} EvictChooses(l: Level, b: Memory, a: nat, top: set<nat>, f: nat, limit: nat)
    requires Fine(Cached(l, b), limit) && Room(l, top, f) && !l.Holds(a)
    ensures var k := Chosen(l, a);
      l.Lookup(a).Free? && k < l.p.ways
      && (forall j | 0 <= j < k :: l.Ways(a)[j].valid)
      && (l.Ways(a)[k].valid <==> FirstInvalid(l.Ways(a)) == l.p.ways)
      && (l.Ways(a)[k].valid ==> l.Ways(a)[k].done)
      && (l.Ways(a)[k].valid && l.Ways(a)[k].dirty ==> l.p.writeBack)
  {
    FineBelow(l, b, limit);
    RoomAndVictim(l, a, top, f);
    var k := Chosen(l, a);
    if l.Ways(a)[k].valid && l.Ways(a)[k].dirty {
      WayHeld(l, a, k);
      assert l.Dirty(l.Ways(a)[k].addr);
    }
  }

  lemma {:induction false} EvictKeeps(l: Level, b: Memory, a: nat, now: nat, top: set<nat>, f: nat, low: set<nat>,
      limit: nat)
    requires Fine(Cached(l, b), limit) && Room(l, top, f) && Quiet(b, low + {a}) && !l.Holds(a)
    requires forall x | x in low :: x < limit
    ensures var r := Evict(l, b, a, now); r.1.Stall? && Fetches(l, b, a, top, low, limit, r.0)
  {
    var k := Chosen(l, a);
    EvictChooses(l, b, a, top, f, limit);
    hide Fine, Look, Level.Holds, Level.Probe, Level.Place, Level.Span, Same, Fetches, Bring, Victim, FirstInvalid,
         Level.Ok, Quiet, Level.Lookup, Level.Ways, Contents;
    if l.Ways(a)[k].valid && l.Ways(a)[k].dirty {
      EvictDirty(l, b, a, k, now, top, low, limit);
    } else {
      EvictClean(l, b, a, k, now, top, low, limit);
    }
  }

  // ---- reads ----

  lemma {:induction false} ReadHit(l: Level, b: Memory, a: nat, now: nat, top: set<nat>, low: set<nat>, limit: nat)
    requires Fine(Cached(l, b), limit) && l.Holds(a) && QuietLevel(l, top) && Quiet(b, low)
    ensures Fetches(l, b, a, top, low, limit, Cached(l.Use(a, now), b))
  {
    FineBelow(l, b, limit);
    UseEffect(l, a, now);
    QuietMore(b, low, low + {a});
    KeptSelf(b);
    var r := l.Use(a, now);
    hide Level.Holds, Level.Probe, Level.InFlight, Level.Dirty, Level.Use, Fits, Lower, Aligned, Same;
    assert forall w: nat :: r.Word(w) == l.Word(w);
    assert Agree(r, b);
  }

  lemma {:induction false} KeptTwice(m: Memory, n: Memory, r: Memory)
    requires Shaped(m) && Shaped(n) && Shaped(r) && Kept(m, n) && Kept(n, r)
    ensures Kept(m, r)
  {
    if m.Cached? { KeptTwice(m.below, n.below, r.below); }
  }

  /** A lower level that changed no cell leaves the top level coherent. */
  lemma {:induction false} OverBelow(l: Level, b: Memory, b1: Memory, low: set<nat>, limit: nat)
    requires Fine(Cached(l, b), limit) && Effect(b, b1, map[], low, low, limit)
    ensures Fine(Cached(l, b1), limit) && Kept(Cached(l, b), Cached(l, b1)) && Quiet(b1, low)
    ensures forall w: nat :: Look(Cached(l, b1), w) == Look(Cached(l, b), w)
  {
    FlightsQuiet(b1, low);
    hide Level.Holds, Level.Probe, Level.InFlight, Level.Dirty, Fits, Lower, Aligned;
    assert Agree(l, b1);
  }

  lemma {:induction false} ReadMiss(l: Level, b: Memory, b1: Memory, n: Memory, r: Memory, a: nat, top: set<nat>,
      low: set<nat>, limit: nat)
    requires Fine(Cached(l, b), limit) && Effect(b, b1, map[], low + {a}, low + {a}, limit)
    requires Fetches(l, b1, a, top, low, limit, n) && Twin(n, r) && ParamsOf(r) == ParamsOf(n)
    ensures Fetches(l, b, a, top, low, limit, r)
  {
    OverBelow(l, b, b1, low + {a}, limit);
    hide Fine, Look, Level.Holds, Level.Probe, Level.InFlight, Same, Flights;
    KeptTwice(Cached(l, b), Cached(l, b1), n);
    Twinned(Cached(l, b), n, r, map[], top + {a}, low + {a}, limit);
  }

  lemma {:induction false} ReadHitKeeps(l: Level, b: Memory, a: nat, now: nat, top: set<nat>, low: set<nat>, limit: nat)
    requires Fine(Cached(l, b), limit) && l.Holds(a) && !l.InFlight(a) && QuietLevel(l, top) && Quiet(b, low)
    ensures var r := Read(Cached(l, b), a, now);
      r.1 == Stall(l.p.readLatency) && Fetches(l, b, a, top, low, limit, r.0)
  {
    LookupProbe(l, a);
    ReadHit(l, b, a, now, top, low, limit);
    var n := Cached(l.Use(a, now), b);
    hide Fine, Look, Level.Holds, Level.Probe, Level.InFlight, Same, Flights, Level.Lookup, Level.Use, Kept, Quiet,
         QuietLevel;
    Twinned(Cached(l, b), n, CountRead(n, 1, 0), map[], top + {a}, low + {a}, limit);
  }

  lemma {:induction false} ReadMissKeeps(l: Level, b: Memory, a: nat, now: nat, top: set<nat>, f: nat, low: set<nat>,
      limit: nat)
    requires Fine(Cached(l, b), limit) && Room(l, top, f) && !l.Holds(a)
    requires forall x | x in low :: x < limit
    requires var r := Read(b, a, now); r.1.Stall? && Effect(b, r.0, map[], low + {a}, low + {a}, limit)
    ensures var r := Read(Cached(l, b), a, now);
        r.1.Stall? && r.1.n >= l.p.readLatency && Fetches(l, b, a, top, low, limit, r.0)
  {
    EvictChooses(l, b, a, top, f, limit);
    var b1 := Read(b, a, now).0;
    OverBelow(l, b, b1, low + {a}, limit);
    EvictKeeps(l, b1, a, now, top, f, low, limit);
    hide Fine, Look, Level.Holds, Level.Probe, Level.InFlight, Same, Flights, Level.Lookup, Level.Use, Kept, Quiet,
         QuietLevel, Chosen, Level.Ways, Effect, Evict;
    var n := Evict(l, b1, a, now).0;
    ReadMiss(l, b, b1, n, CountRead(n, 0, 1), a, top, low, limit);
  }

  /** A read finds room at every level, brings the block in where it was missing, and changes no
      cell, for any one fetch in flight below and any stamps. */
  lemma {:induction false} ReadKeeps(l: Level, b: Memory, a: nat, now: nat, top: set<nat>, low: set<nat>, f: nat,
      limit: nat)
    requires Fine(Cached(l, b), limit) && Room(l, top, f) && Quiet(b, low)
    requires low <= {f} && (forall x | x in low :: x < limit) && (low == {} || a >= limit)
    requires !l.InFlight(a)
    ensures var r := Read(Cached(l, b), a, now); r.1.Stall? && r.1.n >= 1 && Fetches(l, b, a, top, low, limit, r.0)
    decreases b
  {
    ReadLatency(l, b, limit);
    if l.Holds(a) {
      ReadHitKeeps(l, b, a, now, top, low, limit);
    } else {
      FineBelow(l, b, limit);
      BelowReady(l, b, a, low, limit);
      if b.Cached? {
        ReadKeeps(b.level, b.below, a, now, low, low, f, limit);
      } else {
        Unchanged(b, low, low + {a}, limit);
      }
      hide Fine, Look, Level.Holds, Level.Probe, Level.InFlight, Same, Flights, Kept, Quiet, QuietLevel, Effect;
      ReadMissKeeps(l, b, a, now, top, f, low, limit);
    }
  }

  lemma {:induction false} ReadLatency(l: Level, b: Memory, limit: nat)
    requires Fine(Cached(l, b), limit)
    ensures l.p.readLatency >= 1 && l.p.writeLatency >= 1 && (b.Ram? ==> b.readLatency >= 1)
    ensures ParamsOf(b) == ParamsOf(Cached(l, b))[1..] && Lower(ParamsOf(b))
  {
    assert ParamsOf(Cached(l, b))[0] == l.p;
    assert RamOk(Cached(l, b)) && RamOk(b);
    assert WellBuilt(ParamsOf(Cached(l, b)));
  }

  lemma {:induction false} BelowReady(l: Level, b: Memory, a: nat, low: set<nat>, limit: nat)
    requires Fine(Cached(l, b), limit) && Quiet(b, low)
    requires (forall x | x in low :: x < limit) && (low == {} || a >= limit)
    ensures b.Cached? ==> !b.level.InFlight(a) && b.level.p.ways >= 2 && QuietLevel(b.level, low)
  {
    if b.Cached? {
      Tail(ParamsOf(Cached(l, b)), a, map[], low, limit);
      if low != {} {
        LimitApart(ParamsOf(b), limit, a, low);
      }
      NotInFlight(b, a, low);
      assert ParamsOf(b)[0] == b.level.p;
      assert ParamsOf(Cached(l, b))[1..][0] == b.level.p;
    }
  }

  // ---- writes at the top level ----

  lemma {:induction false} AllocatedFlights(r: Memory, a: nat, low: set<nat>)
    requires Coherent(r) && Flights(r, {a}, low + {a})
    ensures Flights(Complete(r, a), {}, low)
  {
    if r.Cached? {
      DoneEffect(r.level, a);
      CompleteQuiet(r.below, a, low);
      hide Look, Level.Holds, Level.Probe, Level.InFlight, Level.Mark;
    }
  }

  /** The read of a write-allocate, completed. */
  lemma {:induction false} Allocated(l: Level, b: Memory, r: Memory, a: nat, low: set<nat>, limit: nat)
    requires Fine(Cached(l, b), limit) && QuietLevel(l, {}) && Quiet(b, low) && a >= limit
    requires (forall x | x in low :: x < limit) && Fetches(l, b, a, {}, low, limit, r)
    ensures var n := Complete(r, a);
      n.Cached? && Effect(Cached(l, b), n, map[], {}, low, limit) && n.level.Holds(a)
      && forall w: nat :: n.level.Holds(w) ==> l.Holds(w) || Same(l, a, w)
  {
    var m := Cached(l, b);
    assert {} + {a} == {a};
    TopQuiet(l, low);
    assert Quiet(m, low);
    AllocatedFlights(r, a, low);
    CompleteKeeps(r, a, limit);
    LimitApart(ParamsOf(m), limit, a, low);
    CompleteKept(m, r, a, low);
    hide Fine, Look, Level.Holds, Level.Probe, Level.InFlight, Kept, Quiet, Same, Complete, Flights;
  }

  lemma {:induction false} TopQuiet(l: Level, low: set<nat>)
    requires l.Shaped() && QuietLevel(l, {})
    ensures QuietLevel(l, low)
  {
  }

  lemma {:induction false} SecondTry(m: Memory, a: nat, d: map<nat, int>, now: nat)
    requires Shaped(m) && m.Cached? && m.level.Lookup(a).Free? && m.level.p.allocate
    requires Read(m, a, now).1.Stall? && Write(Complete(Read(m, a, now).0, a), a, d, now, true).1.Stall?
    ensures var t1 := Read(m, a, now); var t2 := Write(Complete(t1.0, a), a, d, now, true);
      Write(m, a, d, now, false) == (CountWrite(CountRead(t2.0, 0, -1), -1, 1), Stall(t1.1.n + t2.1.n))
  {
    hide Read, Complete, Level.Lookup;
  }

  lemma {:induction false} WriteAllocates(l: Level, b: Memory, a: nat, d: map<nat, int>, now: nat, low: set<nat>,
      f: nat, limit: nat)
    requires Fine(Cached(l, b), limit) && QuietLevel(l, {}) && Quiet(b, low) && !l.Holds(a) && l.p.allocate
    requires low <= {f} && (forall x | x in low :: x < limit) && a >= limit
    requires Within(ParamsOf(Cached(l, b)), a, d)
    ensures var r := Write(Cached(l, b), a, d, now, false);
      r.1.Stall? && r.1.n >= 1 && Effect(Cached(l, b), r.0, d, {a}, low + {a}, limit) && r.0.Cached?
      && forall w: nat :: r.0.level.Holds(w) ==> l.Holds(w) || Same(l, a, w)
  {
    var m := Cached(l, b);
    EvictChooses(l, b, a, {}, f, limit);
    ReadKeeps(l, b, a, now, {}, low, f, limit);
    var m1 := Read(m, a, now).0;
    Allocated(l, b, m1, a, low, limit);
    var n := Complete(m1, a);
    Retry(n, a, d, now, low, limit);
    var w := Write(n, a, d, now, true).0;
    hide Fine, Look, Level.Holds, Level.Probe, Level.InFlight, Kept, Quiet, Same, Complete, Flights, Level.Lookup, Read,
         Write, Effect;
    SecondTry(m, a, d, now);
    Allocates(m, n, w, d, a, low, limit);
  }

  lemma {:induction false} Allocates(m: Memory, n: Memory, w: Memory, d: map<nat, int>, a: nat, low: set<nat>,
      limit: nat)
    requires m.Cached? && Effect(m, n, map[], {}, low, limit) && Effect(n, w, d, {a}, low + {a}, limit)
    requires Shaped(w) && n.Cached? && w.Cached?
    ensures var r := CountWrite(CountRead(w, 0, -1), -1, 1);
      Effect(m, r, d, {a}, low + {a}, limit) && forall x: nat :: r.level.Holds(x) == w.level.Holds(x)
  {
    hide Fine, Look, Level.Holds, Flights, Kept;
    Composed(m, n, w, d, low, {a}, low + {a}, limit);
    Twinned(m, w, CountWrite(CountRead(w, 0, -1), -1, 1), d, {a}, low + {a}, limit);
  }

  /** The second try hits. */
  lemma {:induction false} Retry(n: Memory, a: nat, d: map<nat, int>, now: nat, low: set<nat>, limit: nat)
    requires Fine(n, limit) && n.Cached? && Flights(n, {}, low) && n.level.Holds(a) && a >= limit
    requires (forall x | x in low :: x < limit) && Within(ParamsOf(n), a, d)
    ensures var r := Write(n, a, d, now, true);
      r.1.Stall? && r.1.n >= 1 && Effect(n, r.0, d, {a}, low + {a}, limit) && r.0.Cached?
      && forall w: nat :: r.0.level.Holds(w) == n.level.Holds(w)
  {
    assert !n.level.InFlight(a);
    assert {} + {a} == {a};
    Tail(ParamsOf(n), a, d, low, limit);
    LimitApart(ParamsOf(n), limit, a, low);
    WriteKeeps(n, a, d, now, true, {}, low, limit);
  }

  lemma {:induction false} Composed(m: Memory, n: Memory, r: Memory, d: map<nat, int>, low: set<nat>, top1: set<nat>,
      low1: set<nat>, limit: nat)
    requires Effect(m, n, map[], {}, low, limit) && Effect(n, r, d, top1, low1, limit)
    ensures Effect(m, r, d, top1, low1, limit)
  {
    hide Look, Flights, WellBuilt, Aligned, RamOk, Coherent, DirtyAbove;
    KeptTwice(m, n, r);
  }

  /** A data write changes exactly its cells, allocating or not. */
  lemma {:induction false} StoreKeeps(l: Level, b: Memory, a: nat, d: map<nat, int>, now: nat, low: set<nat>, f: nat,
      limit: nat)
    requires Fine(Cached(l, b), limit) && QuietLevel(l, {}) && Quiet(b, low)
    requires low <= {f} && (forall x | x in low :: x < limit) && a >= limit
    requires Within(ParamsOf(Cached(l, b)), a, d)
    ensures var r := Write(Cached(l, b), a, d, now, false);
      r.1.Stall? && r.1.n >= 1 && Effect(Cached(l, b), r.0, d, {a}, low + {a}, limit) && r.0.Cached?
      && forall w: nat :: r.0.level.Holds(w) ==> l.Holds(w) || Same(l, a, w)
  {
    if l.p.allocate && !l.Holds(a) {
      WriteAllocates(l, b, a, d, now, low, f, limit);
    } else {
      var m := Cached(l, b);
      FineBelow(l, b, limit);
      LimitApart(ParamsOf(b), limit, a, low);
      assert !l.InFlight(a);
      assert {} + {a} == {a};
      WriteKeeps(m, a, d, now, false, {}, low, limit);
    }
  }
}
