/** FIFO levels hold, in every set, the queue of the last blocks that were brought in. */
module FifoQueue {
  import opened CacheSet
  import opened CacheLevel
  import opened Cache
  import opened CacheCoherence
  import opened CacheAccess
  import opened LruStack
  import Recency

  // ---- what one access does to the blocks and stamps of the level ----

  /** A hit changes no stamp; a miss stamps the block that is brought in. */
  ghost predicate Arrived(l: Level, r: Level, a: nat, now: nat) {
    l.Ok() && if l.Holds(a) then Quieted(l, r) else Brought(l, r, a, Chosen(l, a), now)
  }

  lemma {:induction false} QuietThen(l: Level, m: Level, r: Level)
    requires Quieted(l, m) && Quieted(m, r)
    ensures Quieted(l, r)
  {
    hide Ref, Level.Holds, Level.Ok;
  }

  lemma {:induction false} ArrivedThen(l: Level, m: Level, r: Level, a: nat, now: nat)
    requires Arrived(l, m, a, now) && Quieted(m, r)
    ensures Arrived(l, r, a, now)
  {
    if l.Holds(a) { QuietThen(l, m, r); } else { BroughtThen(l, m, r, a, Chosen(l, a), now); }
  }

  lemma {:induction false} UseQuiet(l: Level, a: nat, now: nat)
    requires l.Ok() && !l.p.lru
    ensures Quieted(l, l.Use(a, now))
  {
    MarkRefs(l, a, Done(false));
    hide Level.Mark, Quieted;
  }

  lemma {:induction false} StoreQuiet(l: Level, a: nat, d: map<nat, int>, now: nat)
    requires l.Ok() && !l.p.lru
    ensures Quieted(l, l.Store(a, d, now))
  {
    var l1 := if l.p.writeBack then l.Mark(a, Flag.Dirty(true)) else l;
    if l.p.writeBack { MarkRefs(l, a, Flag.Dirty(true)); } else { SameSets(l, l); }
    UseQuiet(l1, a, now);
    SameSets(l1.Use(a, now), l.Store(a, d, now));
    hide Ref, Level.Holds, Level.Mark, Level.Use, Quieted;
    QuietThen(l, l1, l1.Use(a, now));
    QuietThen(l, l1.Use(a, now), l.Store(a, d, now));
  }

  lemma {:induction false} ReadArrived(l: Level, b: Memory, a: nat, now: nat)
    requires Fine(Cached(l, b), 0) && QuietLevel(l, {}) && Quiet(b, {}) && !l.p.lru
    ensures Arrived(l, Read(Cached(l, b), a, now).0.level, a, now)
  {
    assert !l.InFlight(a);
    LookupProbe(l, a);
    ReadKeeps(l, b, a, now, {}, {}, 0, 0);
    var r := Read(Cached(l, b), a, now).0.level;
    FineBelow(l, b, 0);
    if l.Holds(a) {
      UseQuiet(l, a, now);
      SameSets(l.Use(a, now), r);
      hide Ref, Level.Holds, Level.Mark, Level.Use, Read, Fine, Quieted;
      QuietThen(l, l.Use(a, now), r);
    } else {
      EvictChooses(l, b, a, {}, 0, 0);
      ReadEvicts(l, b, a, now);
      PlaceRefs(l, a, Chosen(l, a), now);
      SameSets(l.Place(a, Chosen(l, a), now), r);
      hide Ref, Level.Holds, Read, Fine, Chosen, Level.Place, Brought, Quieted;
      BroughtThen(l, l.Place(a, Chosen(l, a), now), r, a, Chosen(l, a), now);
    }
  }

  lemma {:induction false} WriteHitQuiet(l: Level, b: Memory, a: nat, now: nat, again: bool)
    requires Fine(Cached(l, b), 0) && QuietLevel(l, {}) && Quiet(b, {}) && !l.p.lru && l.Holds(a)
    requires Write(Cached(l, b), a, map[], now, again).1.Stall?
    ensures Quieted(l, Write(Cached(l, b), a, map[], now, again).0.level)
  {
    assert !l.InFlight(a);
    LookupProbe(l, a);
    WriteHitSets(l, b, a, map[], now, again);
    StoreQuiet(l, a, map[], now);
    var r := Write(Cached(l, b), a, map[], now, again).0.level;
    SameSets(l.Store(a, map[], now), r);
    QuietThen(l, l.Store(a, map[], now), r);
  }

  lemma {:induction false} Finish(m: Memory, r: Memory, a: nat, d: map<nat, int>, now: nat)
    requires Effect(m, r, d, {a}, {a}, 0) && m.Cached? && Arrived(m.level, r.level, a, now)
    ensures var n := Complete(r, a); Fine(n, 0) && Quiet(n, {}) && Arrived(m.level, n.level, a, now)
  {
    CompleteKeeps(r, a, 0);
    FlightsQuiet(r, {a});
    assert {} + {a} == {a};
    CompleteQuiet(r, a, {});
    MarkRefs(r.level, a, Done(true));
    ArrivedThen(m.level, r.level, Complete(r, a).level, a, now);
  }

  lemma {:induction false} WriteMissArrived(m: Memory, a: nat, now: nat)
    requires Fine(m, 0) && m.Cached? && Quiet(m, {}) && !m.level.p.lru && m.level.p.allocate && !m.level.Holds(a)
    ensures Arrived(m.level, Write(m, a, map[], now, false).0.level, a, now)
  {
    EvictChooses(m.level, m.below, a, {}, 0, 0);
    ReadKeeps(m.level, m.below, a, now, {}, {}, 0, 0);
    ReadArrived(m.level, m.below, a, now);
    assert {} + {a} == {a};
    var m1 := Read(m, a, now).0;
    Finish(m, m1, a, map[], now);
    var n := Complete(m1, a);
    Allocated(m.level, m.below, m1, a, {}, 0);
    Retry(n, a, map[], now, {}, 0);
    SecondTry(m, a, map[], now);
    WriteHitQuiet(n.level, n.below, a, now, true);
    var w := Write(n, a, map[], now, true).0;
    var r := Write(m, a, map[], now, false).0;
    FineBelow(w.level, w.below, 0);
    SameSets(w.level, r.level);
    hide Level.Holds, Ref, Complete, Read, Write, Chosen, Quieted, Brought, Fine, Quiet;
    QuietThen(n.level, w.level, r.level);
    BroughtThen(m.level, n.level, r.level, a, Chosen(m.level, a), now);
  }

  lemma {:induction false} ServeWrite(m: Memory, a: nat, now: nat)
    requires Fine(m, 0) && m.Cached? && Quiet(m, {}) && !m.level.p.lru && m.level.p.allocate
    ensures var r := Complete(Write(m, a, map[], now, false).0, a);
      Fine(r, 0) && Quiet(r, {}) && Arrived(m.level, r.level, a, now)
  {
    StoreKeeps(m.level, m.below, a, map[], now, {}, 0, 0);
    assert {} + {a} == {a};
    var w := Write(m, a, map[], now, false).0;
    if m.level.Holds(a) { WriteHitQuiet(m.level, m.below, a, now, false); } else { WriteMissArrived(m, a, now); }
    Finish(m, w, a, map[], now);
  }

  lemma {:induction false} ServeRead(m: Memory, a: nat, now: nat)
    requires Fine(m, 0) && m.Cached? && Quiet(m, {}) && !m.level.p.lru
    ensures var r := Complete(Read(m, a, now).0, a); Fine(r, 0) && Quiet(r, {}) && Arrived(m.level, r.level, a, now)
  {
    ReadKeeps(m.level, m.below, a, now, {}, {}, 0, 0);
    ReadArrived(m.level, m.below, a, now);
    assert {} + {a} == {a};
    Finish(m, Read(m, a, now).0, a, map[], now);
  }

  lemma {:induction false} ServeArrived(m: Memory, x: Access)
    requires FifoReady(m)
    ensures Fine(Serve(m, x), 0) && Quiet(Serve(m, x), {}) && Arrived(m.level, Serve(m, x).level, x.a, x.now)
  {
    if x.write { ServeWrite(m, x.a, x.now); } else { ServeRead(m, x.a, x.now); }
  }

  /** An idle, coherent hierarchy under a first level with FIFO and write-allocate. */
  ghost predicate FifoReady(m: Memory) {
    Fine(m, 0) && m.Cached? && Quiet(m, {}) && !m.level.p.lru && m.level.p.allocate
  }

  // ---- the queue of one set ----

  /** A block that is in the queue leaves it as it is; another is put at the end, and the first leaves a full
      queue. */
  function Arrive(q: seq<nat>, ways: nat, b: nat): seq<nat> {
    if b in q then q else if |q| < ways || q == [] then q + [b] else q[1..] + [b]
  }

  /** The queue of set i after the accesses. */
  function Queue(g: Geometry, ways: nat, xs: seq<Access>, i: nat): seq<nat>
    requires g.Ok()
  {
    if xs == [] then []
    else
      var q := Queue(g, ways, xs[..|xs| - 1], i);
      var a := xs[|xs| - 1].a;
      if g.Index(a) == i then Arrive(q, ways, g.Number(a)) else q
  }

  ghost predicate NoRepeats(q: seq<nat>) { forall j, k | 0 <= j < k < |q| :: q[j] != q[k] }

  ghost predicate Members(q: seq<nat>, held: set<nat>) { forall n: nat :: n in held <==> n in q }

  lemma {:induction false} MembersSize(q: seq<nat>, held: set<nat>)
    requires NoRepeats(q) && Members(q, held)
    ensures |held| == |q|
  {
    if q == [] {
      assert held == {};
    } else {
      var front, last := q[..|q| - 1], q[|q| - 1];
      forall n: nat
        ensures n in held - {last} <==> n in front
      {
        if n in front { var j :| 0 <= j < |front| && front[j] == n; assert q[j] == n; }
        if n in held - {last} { var j :| 0 <= j < |q| && q[j] == n; assert front[j] == n; }
      }
      MembersSize(front, held - {last});
    }
  }

  /** The queue and the set change alike. */
  lemma {:induction false} ArriveMembers(q: seq<nat>, ways: nat, held: set<nat>, b: nat, v: nat)
    requires ways > 0 && NoRepeats(q) && |q| <= ways && Members(q, held)
    requires b !in q && |q| == ways ==> v == q[0]
    ensures var r := Arrive(q, ways, b); NoRepeats(r) && |r| <= ways && Members(r, Recency.Used(held, ways, b, v))
  {
    MembersSize(q, held);
    if b !in q && |q| == ways {
      assert q == [v] + q[1..];
      forall n: nat ensures n in q[1..] <==> n in q && n != v {
        if n in q[1..] { var j :| 0 <= j < |q| - 1 && q[1..][j] == n; assert q[j + 1] == n; }
      }
    }
  }

  // ---- the level holds the queue ----

  /** The stamp of block n. */
  function StampOf(l: Level, n: nat): nat
    requires l.Shaped()
  {
    Ref(l, n * l.p.geo.blockSize)
  }

  /** Stamps grow along the queue. */
  ghost predicate Sorted(l: Level, q: seq<nat>)
    requires l.Shaped()
  {
    forall j, k | 0 <= j < k < |q| :: StampOf(l, q[j]) < StampOf(l, q[k])
  }

  ghost predicate SetIs(l: Level, q: seq<nat>, i: nat)
    requires l.Shaped() && i < l.p.geo.sets
  {
    NoRepeats(q) && |q| <= l.p.ways && Members(q, Held(l, i)) && Sorted(l, q)
  }

  ghost predicate QueueOk(l: Level, xs: seq<Access>) {
    l.Ok()
    && (forall i | 0 <= i < l.p.geo.sets :: SetIs(l, Queue(l.p.geo, l.p.ways, xs, i), i))
    && (forall w: nat :: l.Holds(w) ==> xs != [] && Ref(l, w) <= xs[|xs| - 1].now)
  }

  /** A hit leaves a set as it was. */
  lemma {:induction false} HitKeeps(l: Level, r: Level, q: seq<nat>, i: nat)
    requires Quieted(l, r) && i < l.p.geo.sets && SetIs(l, q, i)
    ensures SetIs(r, q, i)
  {
    forall n: nat
      ensures n in Held(r, i) <==> n in Held(l, i)
    {
      HeldAt(l, i, n);
      HeldAt(r, i, n);
    }
    hide Held, Ref;
  }

  /** The first of a full queue is the victim. */
  lemma {:induction false} VictimIsFirst(l: Level, q: seq<nat>, a: nat)
    requires l.Ok() && QuietLevel(l, {}) && SetIs(l, q, l.p.geo.Index(a)) && |q| == l.p.ways
    ensures Chosen(l, a) < l.p.ways && q != [] && l.p.geo.Number(l.Ways(a)[Chosen(l, a)].addr) == q[0]
  {
    var g := l.p.geo;
    var i := g.Index(a);
    MembersSize(q, Held(l, i));
    ChosenOldest(l, a);
    var k := Chosen(l, a);
    WayHeld(l, a, k);
    var v := l.Ways(a)[k].addr;
    HeldIff(l, v);
    var j :| 0 <= j < |q| && q[j] == g.Number(v);
    HeldAt(l, i, q[0]);
    HeldAt(l, i, q[j]);
    ProbeSame(l, q[j] * g.blockSize, v);
    assert q[0] in Held(l, i);
    assert StampOf(l, q[j]) <= StampOf(l, q[0]);
    hide Held, Ref, Level.Probe;
  }

  /** A miss puts its block at the end of its queue and leaves the other sets alone. */
  lemma {:induction false} MissKeeps(l: Level, r: Level, a: nat, now: nat, q: seq<nat>, i: nat)
    requires l.Ok() && Brought(l, r, a, Chosen(l, a), now) && !l.Holds(a) && QuietLevel(l, {})
    requires i < l.p.geo.sets && SetIs(l, q, i) && forall w: nat :: l.Holds(w) ==> Ref(l, w) < now
    ensures SetIs(r, if i == l.p.geo.Index(a) then Arrive(q, l.p.ways, l.p.geo.Number(a)) else q, i)
  {
    var g := l.p.geo;
    var b := g.Number(a);
    var k := Chosen(l, a);
    HeldIff(l, a);
    AccessUses(l, r, a, now, i);
    if i == g.Index(a) {
      if |q| == l.p.ways { VictimIsFirst(l, q, a); }
      ArriveMembers(q, l.p.ways, Held(l, i), b, g.Number(l.Ways(a)[k].addr));
      StampsSorted(l, r, a, now, q, Arrive(q, l.p.ways, b), i);
    } else {
      StampsSame(l, r, a, now, q, i);
    }
    hide Held, Ref, Arrive, Sorted, Members, NoRepeats, Chosen, QuietLevel, Level.Ok;
  }

  lemma {:induction false} StampAfter(l: Level, r: Level, a: nat, k: nat, now: nat, n: nat, i: nat)
    requires Brought(l, r, a, k, now) && i < l.p.geo.sets && n in Held(r, i)
    ensures StampOf(r, n) == if n == l.p.geo.Number(a) then now else StampOf(l, n)
  {
    HeldAt(r, i, n);
  }

  lemma {:induction false} StampsSame(l: Level, r: Level, a: nat, now: nat, q: seq<nat>, i: nat)
    requires l.Ok() && Brought(l, r, a, Chosen(l, a), now) && i < l.p.geo.sets && i != l.p.geo.Index(a)
    requires Sorted(l, q) && Members(q, Held(r, i))
    ensures Sorted(r, q)
  {
    forall j | 0 <= j < |q|
      ensures StampOf(r, q[j]) == StampOf(l, q[j])
    {
      assert q[j] in Held(r, i);
      StampAfter(l, r, a, Chosen(l, a), now, q[j], i);
      HeldAt(r, i, q[j]);
    }
    hide StampOf, Brought, Held;
  }

  lemma {:induction false} StampsSorted(l: Level, r: Level, a: nat, now: nat, q: seq<nat>, q2: seq<nat>, i: nat)
    requires l.Ok() && Brought(l, r, a, Chosen(l, a), now) && i < l.p.geo.sets
    requires Sorted(l, q) && Members(q, Held(l, i)) && Members(q2, Held(r, i))
    requires var b := l.p.geo.Number(a); b !in q && q2 == Arrive(q, l.p.ways, b)
    requires forall w: nat :: l.Holds(w) ==> Ref(l, w) < now
    ensures Sorted(r, q2)
  {
    var b := l.p.geo.Number(a);
    forall j | 0 <= j < |q2|
      ensures StampOf(r, q2[j]) == if j == |q2| - 1 then now else StampOf(l, q2[j])
      ensures j < |q2| - 1 ==> q2[j] in q && StampOf(l, q2[j]) < now
    {
      assert q2[j] in Held(r, i);
      StampAfter(l, r, a, Chosen(l, a), now, q2[j], i);
      if j < |q2| - 1 { HeldAt(l, i, q2[j]); }
    }
    hide StampOf, Brought, Held;
  }

  // ---- whole traces ----

  /** r is that hierarchy after the accesses. */
  ghost predicate Queued(r: Memory, p: Params, xs: seq<Access>) {
    FifoReady(r) && r.level.p == p && QueueOk(r.level, xs)
  }

  lemma {:induction false} QueueAppend(g: Geometry, ways: nat, xs: seq<Access>, x: Access, i: nat)
    requires g.Ok()
    ensures Queue(g, ways, xs + [x], i) ==
      var q := Queue(g, ways, xs, i); if g.Index(x.a) == i then Arrive(q, ways, g.Number(x.a)) else q
  {
    assert (xs + [x])[..|xs|] == xs;
  }

  lemma {:induction false} SetStep(l: Level, r: Level, xs: seq<Access>, x: Access, i: nat)
    requires QueueOk(l, xs) && QuietLevel(l, {}) && Arrived(l, r, x.a, x.now) && r.p == l.p && i < l.p.geo.sets
    requires xs != [] ==> xs[|xs| - 1].now < x.now
    ensures r.Ok() && SetIs(r, Queue(l.p.geo, l.p.ways, xs + [x], i), i)
  {
    var g := l.p.geo;
    var q := Queue(g, l.p.ways, xs, i);
    QueueAppend(g, l.p.ways, xs, x, i);
    if l.Holds(x.a) {
      HitKeeps(l, r, q, i);
      HeldIff(l, x.a);
      if i == g.Index(x.a) { assert g.Number(x.a) in q; }
    } else {
      MissKeeps(l, r, x.a, x.now, q, i);
    }
    hide Held, Ref, SetIs, Queue;
  }

  lemma {:induction false} StampsBounded(l: Level, r: Level, xs: seq<Access>, x: Access)
    requires QueueOk(l, xs) && Arrived(l, r, x.a, x.now)
    requires xs != [] ==> xs[|xs| - 1].now < x.now
    ensures forall w: nat :: r.Holds(w) ==> Ref(r, w) <= x.now
  {
    hide SetIs, Queue;
  }

  lemma {:induction false} ServeKeepsQueue(n: Memory, p: Params, front: seq<Access>, x: Access)
    requires Queued(n, p, front) && (front != [] ==> front[|front| - 1].now < x.now)
    ensures Queued(Serve(n, x), p, front + [x])
  {
    ServeArrived(n, x);
    var r := Serve(n, x);
    FineBelow(r.level, r.below, 0);
    FineBelow(n.level, n.below, 0);
    assert r.level.p == n.level.p by { assert ParamsOf(r)[0] == ParamsOf(n)[0]; }
    StampsBounded(n.level, r.level, front, x);
    forall i | 0 <= i < r.level.p.geo.sets
      ensures SetIs(r.level, Queue(r.level.p.geo, r.level.p.ways, front + [x], i), i)
    {
      SetStep(n.level, r.level, front, x, i);
    }
    hide Fine, Quiet, Serve, Arrived, Queue, SetIs, Ref, Level.Holds;
  }

  /** In every run of reads and allocating writes, one stamp each, every set of a FIFO level holds exactly the queue
      of the blocks that were brought in: using a block again does not save it. */
  lemma {:induction false} FifoIsQueue(m: Memory, xs: seq<Access>)
    requires FifoReady(m) && Timed(xs) && QueueOk(m.level, [])
    ensures Queued(Serves(m, xs), m.level.p, xs)
    decreases |xs|
  {
    hide FifoReady, Serve, Serves, QueueOk, Timed, Queued;
    TimedFront(xs);
    FifoShaped(m);
    ServesLast(m, xs);
    if xs == [] {
      QueuedStart(m);
    } else {
      var front, x := xs[..|xs| - 1], xs[|xs| - 1];
      FifoIsQueue(m, front);
      assert front + [x] == xs;
      LastTwo(xs);
      ServeKeepsQueue(Serves(m, front), m.level.p, front, x);
    }
  }

  lemma LastTwo(xs: seq<Access>)
    requires Timed(xs)
    ensures |xs| > 1 ==> xs[|xs| - 2].now < xs[|xs| - 1].now
  {
  }

  lemma FifoShaped(m: Memory)
    requires FifoReady(m)
    ensures Shaped(m) && m.Cached?
  {
  }

  lemma QueuedStart(m: Memory)
    requires FifoReady(m) && QueueOk(m.level, [])
    ensures Queued(m, m.level.p, [])
  {
  }

  /** So an address hits exactly when its block is in the queue of its set. */
  lemma {:induction false} HitsInQueue(m: Memory, xs: seq<Access>, a: nat)
    requires FifoReady(m) && Timed(xs) && QueueOk(m.level, [])
    ensures var l := Serves(m, xs).level; var g := m.level.p.geo; var q := Queue(g, m.level.p.ways, xs, g.Index(a));
      l.Shaped() && l.p == m.level.p && (l.Holds(a) <==> g.Number(a) in q)
  {
    FifoIsQueue(m, xs);
    HeldIff(Serves(m, xs).level, a);
    hide Queue, Serves, Fine, Held;
  }

  lemma {:induction false} EmptyQueueOk(l: Level)
    requires l.Ok() && forall w: nat :: !l.Holds(w)
    ensures QueueOk(l, [])
  {
    forall i | 0 <= i < l.p.geo.sets
      ensures SetIs(l, [], i)
    {
      forall n: nat
        ensures n !in Held(l, i)
      {
        HeldAt(l, i, n);
      }
    }
  }
}
