/** What one access keeps: coherence of the copies, room for the block, and blocks in flight. */
module CacheCoherence {
  import opened Arithmetic
  import opened CacheSet
  import opened CacheLevel
  import opened Cache

  // ---- the geometry the caches are configured with ----

  /** Lower blocks are whole numbers of blocks, and no longer than one block of every set. */
  ghost predicate Fits(g: Geometry, ps: seq<Params>) {
    forall i | 0 <= i < |ps| ::
      ps[i].geo.Ok() && g.Ok() && ps[i].geo.blockSize % g.blockSize == 0 && ps[i].geo.blockSize <= g.sets * g.blockSize
  }

  ghost predicate Lower(ps: seq<Params>) {
    forall i | 0 <= i < |ps| :: !ps[i].allocate && ps[i].ways >= 2
  }

  ghost predicate WellBuilt(ps: seq<Params>) {
    |ps| > 0 ==>
      && ps[0].geo.Ok() && ps[0].readLatency >= 1 && ps[0].writeLatency >= 1
      && Fits(ps[0].geo, ps[1..]) && Lower(ps[1..]) && WellBuilt(ps[1..])
  }

  /** The limit between text and data falls on a block boundary of every level. */
  ghost predicate Aligned(ps: seq<Params>, limit: nat) {
    forall i | 0 <= i < |ps| :: ps[i].geo.Ok() && limit % ps[i].geo.blockSize == 0
  }

  ghost predicate RamOk(m: Memory) {
    if m.Ram? then m.readLatency >= 1 && m.writeLatency >= 1 else RamOk(m.below)
  }

  // ---- coherence ----

  /** A block that is not dirty equals the next holder below. */
  ghost predicate Agree(l: Level, b: Memory)
    requires l.Shaped() && Shaped(b)
  {
    forall w: nat :: l.Holds(w) && !l.Dirty(w) ==> l.Word(w) == Look(b, w)
  }

  ghost predicate Coherent(m: Memory) {
    m.Cached? ==>
      && m.level.Ok() && Shaped(m.below) && Coherent(m.below) && Agree(m.level, m.below)
      && (!m.level.p.writeBack ==> forall w: nat :: !m.level.Dirty(w))
  }

  /** Only data is dirty. */
  ghost predicate DirtyAbove(m: Memory, limit: nat)
    requires Shaped(m)
  {
    m.Cached? ==> (forall w: nat :: m.level.Dirty(w) ==> w >= limit) && DirtyAbove(m.below, limit)
  }

  ghost predicate Fine(m: Memory, limit: nat) {
    Shaped(m) && WellBuilt(ParamsOf(m)) && Aligned(ParamsOf(m), limit) && RamOk(m) && Coherent(m)
        && DirtyAbove(m, limit)
  }

  // ---- blocks in flight ----

  ghost predicate QuietLevel(l: Level, flight: set<nat>)
    requires l.Shaped()
  {
    forall w: nat :: l.InFlight(w) ==> exists f :: f in flight && Same(l, f, w)
  }

  /** Only blocks of the given addresses are in flight. */
  ghost predicate Quiet(m: Memory, flight: set<nat>)
    requires Shaped(m)
  {
    m.Cached? ==> QuietLevel(m.level, flight) && Quiet(m.below, flight)
  }

  /** a shares no block, at any level, with the given addresses. */
  ghost predicate Apart(ps: seq<Params>, a: nat, flight: set<nat>) {
    forall i, f | 0 <= i < |ps| && f in flight :: ps[i].geo.Ok() && !SameBlock(ps[i].geo, f, a)
  }

  /** No block in flight before is missing, or done, after. */
  ghost predicate Kept(m: Memory, n: Memory)
    requires Shaped(m) && Shaped(n)
  {
    m.Cached? ==>
      n.Cached? && m.level.p == n.level.p
      && (forall w: nat :: m.level.InFlight(w) ==> n.level.InFlight(w)) && Kept(m.below, n.below)
  }

  /** The cells of a write lie in one block at every level. */
  ghost predicate Within(ps: seq<Params>, a: nat, d: map<nat, int>) {
    forall i, w | 0 <= i < |ps| && w in d :: ps[i].geo.Ok() && SameBlock(ps[i].geo, a, w)
  }

  // ---- geometry lemmas ----

  lemma {:induction false} Nested(g: Geometry, h: Geometry, a: nat, w: nat)
    requires g.Ok() && h.Ok() && h.blockSize % g.blockSize == 0 && SameBlock(g, a, w)
    ensures SameBlock(h, a, w)
  {
    NestedNumber(g, h, a);
    NestedNumber(g, h, w);
  }

  lemma {:induction false} NestedNumber(g: Geometry, h: Geometry, a: nat)
    requires g.Ok() && h.Ok() && h.blockSize % g.blockSize == 0
    ensures h.blockSize / g.blockSize > 0
    ensures h.Number(a) == g.Number(a) / (h.blockSize / g.blockSize)
  {
    var b := g.blockSize;
    var c := h.blockSize / b;
    Divide(h.blockSize, b);
    assert h.blockSize == c * b;
    var n := a / b;
    var q := n / c;
    Divide(a, b);
    Divide(n, c);
    Scale(q * c, n, b);
    Scale(n + 1, q * c + c, b);
    Associate(q, c, b);
    assert (n + 1) * b == n * b + b;
    assert (q * c + c) * b == q * c * b + c * b;
    Quotient(a, q, h.blockSize);
  }

  /** Blocks of one set are a whole number of sets apart. */
  lemma {:induction false} FarApart(g: Geometry, a: nat, v: nat)
    requires g.Ok() && g.Index(a) == g.Index(v) && g.Number(a) < g.Number(v)
    ensures g.Number(a) + g.sets <= g.Number(v)
  {
    BlockFacts(g, a);
    BlockFacts(g, v);
    Distribute(g.Tag(a), 1, g.sets);
    if g.Tag(v) <= g.Tag(a) {
      Scale(g.Tag(v), g.Tag(a), g.sets);
    } else {
      Scale(g.Tag(a) + 1, g.Tag(v), g.sets);
    }
  }

  /** Numbers with one quotient are closer than the divisor. */
  lemma {:induction false} CloseBy(x: nat, y: nat, c: nat)
    requires c > 0 && x / c == y / c
    ensures x < y + c && y < x + c
  {
    Divide(x, c);
    Divide(y, c);
  }

  /** Two blocks of one set are far apart: they never share a lower block. */
  lemma {:induction false} Stride(g: Geometry, h: Geometry, a: nat, v: nat)
    requires g.Ok() && h.Ok() && h.blockSize % g.blockSize == 0 && h.blockSize <= g.sets * g.blockSize
    requires g.Index(a) == g.Index(v) && !SameBlock(g, a, v)
    ensures !SameBlock(h, a, v)
  {
    var c := h.blockSize / g.blockSize;
    NestedNumber(g, h, a);
    NestedNumber(g, h, v);
    Divide(h.blockSize, g.blockSize);
    Cancel(c, g.sets, g.blockSize);
    if g.Number(a) < g.Number(v) { FarApart(g, a, v); } else { FarApart(g, v, a); }
    if SameBlock(h, a, v) { CloseBy(g.Number(a), g.Number(v), c); }
  }

  /** Text and data never share a block. */
  lemma {:induction false} LimitSplits(g: Geometry, limit: nat, f: nat, a: nat)
    requires g.Ok() && limit % g.blockSize == 0 && f < limit <= a
    ensures !SameBlock(g, f, a)
  {
    Divide(limit, g.blockSize);
    BelowMultiple(f, limit / g.blockSize, g.blockSize);
    AboveMultiple(a, limit / g.blockSize, g.blockSize);
  }

  lemma {:induction false} LimitApart(ps: seq<Params>, limit: nat, a: nat, flight: set<nat>)
    requires Aligned(ps, limit) && a >= limit && forall f | f in flight :: f < limit
    ensures Apart(ps, a, flight)
  {
    forall i, f | 0 <= i < |ps| && f in flight
      ensures !SameBlock(ps[i].geo, f, a)
    {
      LimitSplits(ps[i].geo, limit, f, a);
    }
  }

  lemma {:induction false} WithinBelow(g: Geometry, ps: seq<Params>, a: nat, d: map<nat, int>)
    requires g.Ok() && Fits(g, ps) && forall w | w in d :: SameBlock(g, a, w)
    ensures Within(ps, a, d)
  {
    forall i, w | 0 <= i < |ps| && w in d
      ensures SameBlock(ps[i].geo, a, w)
    {
      Nested(g, ps[i].geo, a, w);
    }
  }

  /** A victim and the block that replaces it share no lower block. */
  lemma {:induction false} VictimApart(g: Geometry, ps: seq<Params>, a: nat, v: nat)
    requires g.Ok() && Fits(g, ps) && g.Index(a) == g.Index(v) && !SameBlock(g, a, v)
    ensures Apart(ps, v, {a})
  {
    forall i | 0 <= i < |ps|
      ensures !SameBlock(ps[i].geo, a, v)
    {
      Stride(g, ps[i].geo, a, v);
    }
  }

  // ---- changes that only count ----

  ghost predicate Twin(m: Memory, n: Memory) {
    m.Cached? && n.Cached? && m.below == n.below
    && m.level.p == n.level.p && m.level.sets == n.level.sets && m.level.words == n.level.words
  }

  lemma {:induction false} Recounted(m: Memory, n: Memory, limit: nat)
    requires Twin(m, n) && Fine(m, limit)
    ensures Fine(n, limit)
    ensures forall w: nat ::
        Look(n, w) == Look(m, w) && n.level.Holds(w) == m.level.Holds(w) && n.level.InFlight(w) == m.level.InFlight(w)
  {
    SetsOnly(m.level, n.level);
    hide Level.Probe, Level.Holds, Level.Dirty, Level.InFlight, WellBuilt, Aligned;
    assert forall w: nat :: n.level.Word(w) == m.level.Word(w);
    assert Agree(n.level, n.below);
  }

  // ---- completing an access ----

  lemma {:induction false} CompleteKeeps(m: Memory, a: nat, limit: nat)
    requires Fine(m, limit)
    ensures var r := Complete(m, a);
      Fine(r, limit)
      && (forall w: nat :: Look(r, w) == Look(m, w))
      && (m.Cached? ==> forall w: nat :: r.level.Holds(w) == m.level.Holds(w))
  {
    hide Level.Probe, Level.Holds, Level.Dirty, Level.InFlight, Level.Mark, Fits, Lower, Same;
    if m.Cached? {
      CompleteKeeps(m.below, a, limit);
      DoneEffect(m.level, a);
      var r := Complete(m, a);
      assert forall w: nat :: r.level.Word(w) == m.level.Word(w);
      assert Agree(r.level, r.below);
    }
  }

  lemma {:induction false} CompleteQuiet(m: Memory, a: nat, flight: set<nat>)
    requires Coherent(m) && Quiet(m, flight + {a})
    ensures Quiet(Complete(m, a), flight)
  {
    if m.Cached? {
      CompleteQuiet(m.below, a, flight);
      DoneEffect(m.level, a);
      hide Level.Probe, Level.Holds, Level.Dirty, Level.InFlight, Level.Mark;
    }
  }

  /** Completing the access to `a` completes no block that was in flight before it. */
  lemma {:induction false} CompleteKept(m0: Memory, m: Memory, a: nat, flight: set<nat>)
    requires Shaped(m0) && Coherent(m) && Kept(m0, m) && Quiet(m0, flight) && Apart(ParamsOf(m0), a, flight)
    ensures Kept(m0, Complete(m, a))
  {
    if m0.Cached? {
      CompleteKept(m0.below, m.below, a, flight);
      DoneEffect(m.level, a);
      hide Level.Probe, Level.Holds, Level.Dirty, Level.InFlight, Level.Mark;
    }
  }
}
