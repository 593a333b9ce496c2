/** The cache hierarchy: reads, writes and evictions that call the level below
    (src/cache/read.c, src/cache/write.c, src/cache/eviction.c, src/cache/cache.c).

    The source writes the level functions out once per level; here one function serves them all,
    and a Memory with no cached level left is the RAM. */
module Cache {
  import opened CacheSet
  import opened CacheLevel

  datatype Memory =
    | Ram(cells: map<nat, int>, readLatency: nat, writeLatency: nat)
    | Cached(level: Level, below: Memory)

  /** Why the simulator calls exit(1), or would not return. */
  datatype Reason = InFlightHit | AlreadyPresent | NoSpace | SecondMiss

  /** The cycles of an access, -1, or no return. */
  datatype Answer = Stall(n: nat) | Hazard | Abort(why: Reason)

  ghost predicate Shaped(m: Memory) {
    m.Cached? ==> m.level.Shaped() && Shaped(m.below)
  }

  function ParamsOf(m: Memory): (r: seq<Params>)
    ensures m.Cached? ==> |r| > 0 && r[0] == m.level.p && r[1..] == ParamsOf(m.below)
  {
    if m.Ram? then [] else [m.level.p] + ParamsOf(m.below)
  }

  /** The value that a read of w would return: from the first level that holds it. */
  function Look(m: Memory, w: nat): int
    requires Shaped(m)
  {
    if m.Ram? then (if w in m.cells then m.cells[w] else 0)
    else if m.level.Holds(w) then m.level.Word(w)
    else Look(m.below, w)
  }

  /** complete_below and the complete_read and complete_write functions: done = 1 at every level. */
  function Complete(m: Memory, a: nat): (r: Memory)
    requires Shaped(m)
    ensures Shaped(r) && ParamsOf(r) == ParamsOf(m) && r.Ram? == m.Ram?
  {
    if m.Ram? then m else Cached(m.level.Mark(a, Done(true)), Complete(m.below, a))
  }

  function CountWriteback(l: Level, b: Memory): Level {
    // eviction.c increments l2_writebacks only when there is an L3
    if l.p.level == 2 && b.Ram? then l
    else l.(stats := l.stats.(writebacks := l.stats.writebacks + 1))
  }

  /** The contents that the block of a has below, and that a line with data would now copy. */
  function Fetched(l: Level, b: Memory, a: nat): map<nat, int>
    requires l.Shaped() && Shaped(b)
  {
    map w | w in l.Span(a) :: Look(b, w)
  }

  function Contents(l: Level, a: nat): map<nat, int>
    requires l.Shaped()
  {
    map w | w in l.Span(a) :: l.Word(w)
  }

  function Bring(l: Level, b: Memory, a: nat, k: nat, now: nat): (r: Memory)
    requires l.Shaped() && Shaped(b) && k < l.p.ways
    ensures Shaped(r) && ParamsOf(r) == [l.p] + ParamsOf(b) && r.Cached?
  {
    Cached(l.Place(a, k, now).(words := l.words + Fetched(l, b, a)), b)
  }

  /** Make room for the block of a at the top level, writing a dirty victim down first, and bring
      the block in, not done yet. */
  function Evict(l: Level, b: Memory, a: nat, now: nat): (r: (Memory, Answer))
    requires l.Shaped() && Shaped(b)
    ensures Shaped(r.0) && ParamsOf(r.0) == [l.p] + ParamsOf(b) && r.0.Cached?
    decreases |ParamsOf(b)| + 1, 0
  {
    var ws := l.Ways(a);
    var k := FirstInvalid(ws);
    match l.Lookup(a)
    case Hit => (Cached(l, b), Abort(AlreadyPresent))
    case Busy => (Cached(l, b), Abort(InFlightHit))
    case Full => (Cached(l, b), Abort(NoSpace))
    case Free =>
      if k < l.p.ways then (Bring(l, b, a, k, now), Stall(0))
      else
        var v := Victim(ws);
        if v == l.p.ways then (Cached(l, b), Abort(NoSpace))
        else if l.p.writeBack && ws[v].dirty then
          var (b1, t) := Write(b, ws[v].addr, Contents(l, ws[v].addr), now, false);
          if t.Abort? then (Cached(l, b1), t)
          else (Bring(CountWriteback(l, b), Complete(b1, ws[v].addr), a, v, now), t)
        else (Bring(l, b, a, v, now), Stall(0))
  }

  function CountRead(m: Memory, hits: int, misses: int): (r: Memory)
    requires Shaped(m) && m.Cached?
    ensures Shaped(r) && ParamsOf(r) == ParamsOf(m) && r.Cached?
  {
    var s := m.level.stats;
    m.(level := m.level.(stats := s.(hitR := s.hitR + hits, missR := s.missR + misses)))
  }

  function CountWrite(m: Memory, hits: int, misses: int): (r: Memory)
    requires Shaped(m) && m.Cached?
    ensures Shaped(r) && ParamsOf(r) == ParamsOf(m) && r.Cached?
  {
    var s := m.level.stats;
    m.(level := m.level.(stats := s.(hitW := s.hitW + hits, missW := s.missW + misses)))
  }

  function Read(m: Memory, a: nat, now: nat): (r: (Memory, Answer))
    requires Shaped(m)
    ensures Shaped(r.0) && ParamsOf(r.0) == ParamsOf(m) && r.0.Ram? == m.Ram?
    decreases |ParamsOf(m)|, 1
  {
    if m.Ram? then (m, Stall(m.readLatency))
    else
      var l, b := m.level, m.below;
      match l.Lookup(a)
      case Busy => (m, Abort(InFlightHit))
      case Hit => (CountRead(Cached(l.Use(a, now), b), 1, 0), Stall(l.p.readLatency))
      case Full => (m, Hazard)
      case Free =>
        var (b1, t1) := Read(b, a, now);
        if !t1.Stall? then (Cached(l, b1), t1)
        else
          var (m2, t2) := Evict(l, b1, a, now);
          if !t2.Stall? then (m2, t2)
          else (CountRead(m2, 0, 1), Stall(l.p.readLatency + t1.n + t2.n))
  }

  /** Write the cells d, all in the block of a. `again` says that this is the second try of a
      write-allocate, which must hit. */
  function Write(m: Memory, a: nat, d: map<nat, int>, now: nat, again: bool): (r: (Memory, Answer))
    requires Shaped(m)
    ensures Shaped(r.0) && ParamsOf(r.0) == ParamsOf(m) && r.0.Ram? == m.Ram?
    decreases |ParamsOf(m)|, if again then 2 else 3
  {
    if m.Ram? then (m.(cells := m.cells + d), Stall(m.writeLatency))
    else
      var l, b := m.level, m.below;
      var found := l.Lookup(a);
      if found.Busy? then (m, Abort(InFlightHit))
      else if found.Hit? then
        if !l.p.writeBack then
          var (b1, t) := Write(b, a, d, now, false);
          if !t.Stall? then (Cached(l, b1), t)
          else (CountWrite(Cached(l.Store(a, d, now), b1), 1, 0), Stall(l.p.writeLatency + t.n))
        else
          (CountWrite(Cached(l.Store(a, d, now), b), 1, 0), Stall(l.p.writeLatency))
      else if !l.p.allocate then
        var (b1, t) := Write(b, a, d, now, false);
        if !t.Stall? then (Cached(l, b1), t)
        else (CountWrite(Cached(l, b1), 0, 1), t)
      else if found.Full? then (m, Hazard)
      else if again then (m, Abort(SecondMiss))
      else
        var (m1, t1) := Read(m, a, now);
        if !t1.Stall? then (m1, t1)
        else
          var (m2, t2) := Write(Complete(m1, a), a, d, now, true);
          if t2.Hazard? then (m2, Abort(NoSpace))
          else if t2.Abort? then (m2, t2)
          else (CountWrite(CountRead(m2, 0, -1), -1, 1), Stall(t1.n + t2.n))
  }
}
