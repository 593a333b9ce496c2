/** One cache level: its sets, ghost words for the blocks it holds, and its counters. */
module CacheLevel {
  import opened Wrappers
  import opened Arithmetic
  import opened CacheSet

  datatype Params = Params(level: nat, geo: Geometry, ways: nat, readLatency: nat, writeLatency: nat,
                           writeBack: bool, allocate: bool, lru: bool)

  datatype Stats = Stats(hitR: int, missR: int, hitW: int, missW: int, writebacks: int)

  const NO_STATS := Stats(0, 0, 0, 0, 0)

  /** `words` gives the contents a line with data would have; an entry means something only while
      a valid block covers its address. */
  datatype Level = Level(p: Params, sets: seq<seq<Block>>, words: map<nat, int>, stats: Stats) {

    ghost predicate Shaped() {
      p.geo.Ok() && p.ways > 0 && |sets| == p.geo.sets && forall i | 0 <= i < |sets| :: |sets[i]| == p.ways
    }

    function Ways(a: nat): (ws: seq<Block>)
      requires Shaped()
      ensures |ws| == p.ways
    {
      sets[p.geo.Index(a)]
    }

    function WithWays(a: nat, ws: seq<Block>): (r: Level)
      requires Shaped() && |ws| == p.ways
      ensures r.Shaped() && r.p == p && r.Ways(a) == ws
    {
      this.(sets := sets[p.geo.Index(a) := ws])
    }

    function Lookup(a: nat): Lookup
      requires Shaped()
    {
      Find(p.geo, Ways(a), p.geo.Tag(a))
    }

    function Mark(a: nat, f: Flag): (r: Level)
      requires Shaped()
      ensures r.Shaped() && r.p == p && r.words == words && r.stats == stats
    {
      WithWays(a, SetFlag(p.geo, Ways(a), p.geo.Tag(a), f))
    }

    /** Only LRU stamps a block when it is used; FIFO stamps it when it is brought in. */
    function Touch(a: nat, now: nat): (r: Level)
      requires Shaped()
      ensures r.Shaped() && r.p == p && r.words == words && r.stats == stats
    {
      if p.lru then Mark(a, Reference(now)) else this
    }

    /** A block was used: touch, then done = 0. */
    function Use(a: nat, now: nat): (r: Level)
      requires Shaped()
      ensures r.Shaped() && r.p == p && r.words == words && r.stats == stats
    {
      Touch(a, now).Mark(a, Done(false))
    }

    /** A write that hits: a write-back level keeps it to itself. */
    function Store(a: nat, d: map<nat, int>, now: nat): (r: Level)
      requires Shaped()
      ensures r.Shaped() && r.p == p && r.words == words + d && r.stats == stats
    {
      (if p.writeBack then Mark(a, Flag.Dirty(true)) else this).Use(a, now).(words := words + d)
    }

    function Place(a: nat, k: nat, now: nat): (r: Level)
      requires Shaped() && k < p.ways
      ensures r.Shaped() && r.p == p && r.words == words && r.stats == stats
    {
      WithWays(a, Fill(p.geo, Ways(a), k, a, now))
    }

    /** The block that holds w, if any. */
    function Probe(w: nat): Option<Block>
      requires Shaped()
    {
      var k := FirstHit(p.geo, Ways(w), p.geo.Tag(w));
      if k < p.ways then Some(Ways(w)[k]) else None
    }

    predicate Holds(w: nat)
      requires Shaped()
    {
      Probe(w).Some?
    }

    predicate Dirty(w: nat)
      requires Shaped()
    {
      Probe(w).Some? && Probe(w).value.dirty
    }

    /** Held, but the access that brought or used the block is not completed. */
    predicate InFlight(w: nat)
      requires Shaped()
    {
      Probe(w).Some? && !Probe(w).value.done
    }

    function Word(w: nat): int {
      if w in words then words[w] else 0
    }

    /** The addresses of the block of a. */
    function Span(a: nat): set<nat>
      requires p.geo.Ok()
    {
      set w: nat | w < p.geo.BlockAddr(a) + p.geo.blockSize && p.geo.Reaches(a, w)
    }

    /** Every set keeps the set invariant. */
    ghost predicate Ok() {
      Shaped() && forall i | 0 <= i < p.geo.sets :: SetOk(p.geo, sets[i], i)
    }
  }

  function EmptyLevel(p: Params): Level {
    Level(p, seq(p.geo.sets, _ => seq(p.ways, _ => EMPTY_BLOCK)), map[], NO_STATS)
  }

  predicate Same(l: Level, a: nat, w: nat)
    requires l.p.geo.Ok()
  {
    SameBlock(l.p.geo, a, w)
  }

  lemma {:induction false} InSpan(l: Level, a: nat, w: nat)
    requires l.p.geo.Ok()
    ensures w in l.Span(a) <==> Same(l, a, w)
  {
    BlockFacts(l.p.geo, a);
    BlockFacts(l.p.geo, w);
    SameBlockIff(l.p.geo, a, w);
    if w in l.Span(a) {
      Quotient(w, l.p.geo.Number(a), l.p.geo.blockSize);
    }
  }

  /** Probe finds the block that holds the address, and all addresses of a block agree. */
  lemma {:induction false} ProbeFacts(l: Level, w: nat)
    requires l.Ok() && l.Holds(w)
    ensures var b := l.Probe(w).value; b.valid && b.addr == l.p.geo.BlockAddr(w) && Same(l, b.addr, w)
  {
    var g := l.p.geo;
    var k := FirstHit(g, l.Ways(w), g.Tag(w));
    SameBlockIff(g, l.Ways(w)[k].addr, w);
    assert SetOk(g, l.sets[g.Index(w)], g.Index(w));
    BlockFacts(g, w);
  }

  lemma {:induction false} ProbeSame(l: Level, a: nat, w: nat)
    requires l.Shaped() && Same(l, a, w)
    ensures l.Probe(a) == l.Probe(w)
  {
    SameBlockIff(l.p.geo, a, w);
  }

  /** The way that holds a block is the only one Probe can answer. */
  lemma {:induction false} ProbeWay(l: Level, w: nat, k: nat)
    requires l.Ok() && k < l.p.ways && l.Ways(w)[k].valid && Same(l, l.Ways(w)[k].addr, w)
    ensures l.Probe(w) == Some(l.Ways(w)[k])
  {
    var g := l.p.geo;
    SameBlockIff(g, l.Ways(w)[k].addr, w);
    assert SetOk(g, l.sets[g.Index(w)], g.Index(w));
    var j := FirstHit(g, l.Ways(w), g.Tag(w));
    assert j <= k;
  }

  // ---- what the setters do to the blocks that Probe sees ----

  function Marked(l: Level, a: nat, f: Flag, w: nat): Option<Block>
    requires l.Shaped()
  {
    if Same(l, a, w) && l.Holds(w) then Some(l.Probe(w).value.With(f)) else l.Probe(w)
  }

  /** A setter, other than of the valid flag, changes the block of its address if that is present
      and nothing that Probe can see otherwise. */
  lemma {:induction false} MarkEffect(l: Level, a: nat, f: Flag)
    requires l.Ok() && !f.Valid?
    ensures l.Mark(a, f).Ok()
    ensures forall w: nat :: l.Mark(a, f).Probe(w) == Marked(l, a, f, w)
  {
    var g := l.p.geo;
    var ws := l.Ways(a);
    var i := g.Index(a);
    var m := l.Mark(a, f);
    assert SetOk(g, l.sets[i], i);
    MarkSet(g, ws, i, g.Tag(a), f);
    forall w: nat
      ensures m.Probe(w) == Marked(l, a, f, w)
    {
      SameBlockIff(g, a, w);
      if g.Index(w) == i {
        MarkHit(g, ws, i, g.Tag(a), f, g.Tag(w));
      }
    }
  }

  lemma {:induction false} MarkSet(g: Geometry, ws: seq<Block>, i: nat, tag: nat, f: Flag)
    requires SetOk(g, ws, i) && !f.Valid?
    ensures SetOk(g, SetFlag(g, ws, tag, f), i)
  {
  }

  /** FirstHit looks at the valid flags and addresses only. */
  lemma {:induction false} SameHit(g: Geometry, ws: seq<Block>, r: seq<Block>, t: nat)
    requires g.Ok() && |r| == |ws| && forall j | 0 <= j < |ws| :: r[j].valid == ws[j].valid && r[j].addr == ws[j].addr
    ensures FirstHit(g, r, t) == FirstHit(g, ws, t)
  {
    hide Geometry.Tag;
    var h, k := FirstHit(g, r, t), FirstHit(g, ws, t);
    assert h < |ws| ==> ws[h].valid == r[h].valid;
    assert k < |ws| ==> ws[k].valid == r[k].valid;
  }

  lemma {:induction false} MarkHit(g: Geometry, ws: seq<Block>, i: nat, tag: nat, f: Flag, t: nat)
    requires SetOk(g, ws, i) && !f.Valid?
    ensures var r := SetFlag(g, ws, tag, f);
      FirstHit(g, r, t) == FirstHit(g, ws, t)
      && (FirstHit(g, ws, t) < |ws| ==>
        r[FirstHit(g, ws, t)] == if t == tag then ws[FirstHit(g, ws, t)].With(f) else ws[FirstHit(g, ws, t)])
  {
    HitIsReached(g, ws, i, tag);
    SameHit(g, ws, SetFlag(g, ws, tag, f), t);
    hide FirstHit, SetOk;
  }

  // ---- bringing a block in ----

  function Placed(l: Level, a: nat, k: nat, now: nat, w: nat): Option<Block>
    requires l.Shaped() && k < l.p.ways
  {
    if Same(l, a, w) then Some(Block(l.p.geo.BlockAddr(a), true, false, false, now))
    else if l.Ways(a)[k].valid && Same(l, l.Ways(a)[k].addr, w) then None
    else l.Probe(w)
  }

  /** Filling way k after a miss brings in the block of a and drops what way k held: nothing else. */
  lemma {:induction false} PlaceEffect(l: Level, a: nat, k: nat, now: nat)
    requires l.Ok() && k < l.p.ways && !l.Holds(a)
    requires forall j | 0 <= j < k :: l.Ways(a)[j].valid
    ensures l.Place(a, k, now).Ok()
    ensures forall w: nat :: l.Place(a, k, now).Probe(w) == Placed(l, a, k, now, w)
  {
    var g := l.p.geo;
    var ws := l.Ways(a);
    var i := g.Index(a);
    var m := l.Place(a, k, now);
    assert SetOk(g, l.sets[i], i);
    FillExact(g, ws, i, k, a, now);
    FillOk(g, ws, i, k, a, now);
    forall w: nat
      ensures m.Probe(w) == Placed(l, a, k, now, w)
    {
      SameBlockIff(g, a, w);
      SameBlockIff(g, ws[k].addr, w);
      if g.Index(w) == i {
        PlaceHit(g, ws, i, k, a, now, g.Tag(w));
      }
    }
  }

  lemma {:induction false} PlaceHit(g: Geometry, ws: seq<Block>, i: nat, k: nat, a: nat, now: nat, t: nat)
    requires SetOk(g, ws, i) && k < |ws| && g.Index(a) == i
    requires FirstHit(g, ws, g.Tag(a)) == |ws|
    requires forall j | 0 <= j < k :: ws[j].valid
    ensures var b := Block(g.BlockAddr(a), true, false, false, now);
      var r := ws[k := b];
      var h := FirstHit(g, r, t);
      if t == g.Tag(a) then h == k
      else if ws[k].valid && g.Tag(ws[k].addr) == t then h == |ws|
      else h == FirstHit(g, ws, t) && h != k
  {
    var b := Block(g.BlockAddr(a), true, false, false, now);
    BlockFacts(g, a);
    SameBlockIff(g, g.BlockAddr(a), a);
    var r := ws[k := b];
    assert r[k] == b && g.Tag(b.addr) == g.Tag(a);
    assert forall j | 0 <= j < |ws| && j != k :: r[j] == ws[j];
    FillOk(g, ws, i, k, a, now);
    hide Geometry.Tag, Geometry.BlockAddr;
  }

  /** Completing an access. */
  lemma {:induction false} DoneEffect(l: Level, a: nat)
    requires l.Ok()
    ensures var r := l.Mark(a, Done(true));
      && r.Ok()
      && (forall w: nat :: r.Holds(w) == l.Holds(w) && r.Dirty(w) == l.Dirty(w))
      && (forall w: nat :: r.InFlight(w) == (l.InFlight(w) && !Same(l, a, w)))
  {
    MarkEffect(l, a, Done(true));
    hide SetFlag, FirstHit;
  }

  lemma {:induction false} DirtyEffect(l: Level, a: nat)
    requires l.Ok()
    ensures var r := l.Mark(a, Dirty(true));
      && r.Ok()
      && (forall w: nat :: r.Holds(w) == l.Holds(w) && r.InFlight(w) == l.InFlight(w))
      && (forall w: nat :: r.Dirty(w) == (l.Dirty(w) || (l.Holds(w) && Same(l, a, w))))
  {
    MarkEffect(l, a, Flag.Dirty(true));
    hide SetFlag, FirstHit;
  }

  lemma {:induction false} TouchEffect(l: Level, a: nat, now: nat)
    requires l.Ok()
    ensures var r := l.Touch(a, now);
      && r.Ok()
      && (forall w: nat :: r.Holds(w) == l.Holds(w) && r.InFlight(w) == l.InFlight(w) && r.Dirty(w) == l.Dirty(w))
  {
    MarkEffect(l, a, Reference(now));
    hide SetFlag, FirstHit;
  }

  lemma {:induction false} UseEffect(l: Level, a: nat, now: nat)
    requires l.Ok()
    ensures var r := l.Use(a, now);
      && r.Ok()
      && (forall w: nat :: r.Holds(w) == l.Holds(w) && r.Dirty(w) == l.Dirty(w))
      && (forall w: nat :: r.InFlight(w) == (l.InFlight(w) || (l.Holds(w) && Same(l, a, w))))
  {
    TouchEffect(l, a, now);
    MarkEffect(l.Touch(a, now), a, Done(false));
    hide SetFlag, FirstHit;
  }

  /** Bringing in a block after a miss. `v` is any address of the block that leaves. */
  lemma {:induction false} BringEffect(l: Level, a: nat, k: nat, now: nat)
    requires l.Ok() && k < l.p.ways && !l.Holds(a)
    requires forall j | 0 <= j < k :: l.Ways(a)[j].valid
    ensures var r := l.Place(a, k, now);
      && r.Ok()
      && (forall w: nat :: r.Holds(w) == (Same(l, a, w) || (l.Holds(w) && !Leaves(l, a, k, w))))
      && (forall w: nat :: r.Dirty(w) == (!Same(l, a, w) && l.Dirty(w) && !Leaves(l, a, k, w)))
      && (forall w: nat :: r.InFlight(w) == (Same(l, a, w) || (l.InFlight(w) && !Leaves(l, a, k, w))))
  {
    PlaceEffect(l, a, k, now);
    hide Fill, FirstHit;
  }

  predicate Leaves(l: Level, a: nat, k: nat, w: nat)
    requires l.Shaped() && k < l.p.ways
  {
    l.Ways(a)[k].valid && Same(l, l.Ways(a)[k].addr, w)
  }

  lemma {:induction false} LookupProbe(l: Level, a: nat)
    requires l.Ok()
    ensures l.Lookup(a).Busy? <==> l.InFlight(a)
    ensures l.Lookup(a).Hit? <==> l.Holds(a) && !l.InFlight(a)
  {
  }

  /** The block in way k is the one that Probe finds at its address, and it shares the index of a
      but not its block when a misses. */
  lemma {:induction false} WayHeld(l: Level, a: nat, k: nat)
    requires l.Ok() && k < l.p.ways && l.Ways(a)[k].valid
    ensures var v := l.Ways(a)[k].addr;
      l.Probe(v) == Some(l.Ways(a)[k]) && l.p.geo.Index(v) == l.p.geo.Index(a) && v == l.p.geo.BlockAddr(v)
  {
    var g := l.p.geo;
    assert SetOk(g, l.sets[g.Index(a)], g.Index(a));
    ProbeWay(l, l.Ways(a)[k].addr, k);
  }

  /** In a set where at most one block is in flight, there is room unless that block is the only
      way, and the victim chosen in a full set is done. */
  lemma {:induction false} RoomAndVictim(l: Level, a: nat, flight: set<nat>, f: nat)
    requires l.Ok() && !l.Holds(a)
    requires flight <= {f}
    requires forall w: nat :: l.InFlight(w) ==> exists x :: x in flight && Same(l, x, w)
    requires flight == {} || l.p.ways >= 2
    ensures l.Lookup(a).Free?
    ensures FirstInvalid(l.Ways(a)) == l.p.ways ==> Victim(l.Ways(a)) < l.p.ways && l.Ways(a)[Victim(l.Ways(a))].done
  {
    var g := l.p.geo;
    var ws := l.Ways(a);
    assert SetOk(g, l.sets[g.Index(a)], g.Index(a));
    forall i, j | 0 <= i < j < |ws| && ws[i].valid && ws[j].valid
      ensures ws[i].done || (ws[j].done && flight != {})
    {
      WayHeld(l, a, i);
      WayHeld(l, a, j);
      SameBlockIff(g, ws[i].addr, ws[j].addr);
      if !ws[i].done { assert l.InFlight(ws[i].addr); }
      if !ws[j].done { assert l.InFlight(ws[j].addr); }
    }
    if l.p.ways == 1 && ws[0].valid {
      WayHeld(l, a, 0);
      assert l.InFlight(ws[0].addr) || ws[0].done;
    }
    assert HasRoom(ws) by {
      assert l.p.ways >= 2 || flight == {};
      if ws[0].valid && !ws[0].done {
        WayHeld(l, a, 0);
        assert l.InFlight(ws[0].addr);
        assert !ws[1].valid || ws[1].done;
      }
    }
  }

  /** Blocks and flags depend on the sets alone. */
  lemma {:induction false} SetsOnly(l: Level, r: Level)
    requires l.Ok() && l.p == r.p && l.sets == r.sets
    ensures r.Ok()
    ensures forall w: nat :: r.Probe(w) == l.Probe(w)
    ensures forall w: nat :: r.Holds(w) == l.Holds(w) && r.Dirty(w) == l.Dirty(w) && r.InFlight(w) == l.InFlight(w)
  {
  }

  lemma {:induction false} StoreEffect(l: Level, a: nat, d: map<nat, int>, now: nat)
    requires l.Ok()
    ensures var r := l.Store(a, d, now);
      && r.Ok()
      && (forall w: nat :: r.Holds(w) == l.Holds(w))
      && (forall w: nat :: r.Dirty(w) == (l.Dirty(w) || (l.p.writeBack && l.Holds(w) && Same(l, a, w))))
      && (forall w: nat :: r.InFlight(w) == (l.InFlight(w) || (l.Holds(w) && Same(l, a, w))))
  {
    var l1 := if l.p.writeBack then l.Mark(a, Flag.Dirty(true)) else l;
    if l.p.writeBack { DirtyEffect(l, a); }
    UseEffect(l1, a, now);
    SetsOnly(l1.Use(a, now), l.Store(a, d, now));
    hide SetFlag, FirstHit, Level.Probe, Level.Mark, Level.Use;
  }
}
