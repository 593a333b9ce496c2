/** A cache level as the source stores it: a flat array with one line per word
    (include/cache.h, src/cache/cache.c, src/cache/setters.c, src/cache/eviction.c). */
module CacheArray {
  import opened Arithmetic
  import opened CacheSet
  import opened CacheLevel

  datatype Line = Line(addr: nat, valid: bool, dirty: bool, done: bool, reference: nat) {
    function With(f: Flag): Line {
      match f
      case Valid(v) => this.(valid := v)
      case Dirty(v) => this.(dirty := v)
      case Done(v) => this.(done := v)
      case Reference(n) => this.(reference := n)
    }

    function Block(): Block { CacheSet.Block(addr, valid, dirty, done, reference) }
  }

  // ---- the layout, on the array's contents ----

  /** Blocks are laid out one after the other. */
  lemma {:induction false} Disjoint(b: nat, c: nat, size: nat)
    requires b < c
    ensures b * size + size <= c * size
  {
    Scale(b + 1, c, size);
    assert (b + 1) * size == b * size + size;
  }

  lemma {:induction false} BlockNumber(i: nat, k: nat, j: nat, m: nat, ways: nat)
    requires k < ways && m < ways && (i, k) != (j, m)
    ensures i * ways + k != j * ways + m
  {
    if i < j { Scale(i + 1, j, ways); assert (i + 1) * ways == i * ways + ways; }
    if j < i { Scale(j + 1, i, ways); assert (j + 1) * ways == j * ways + ways; }
  }

  lemma {:induction false} Spread(x: nat, k: nat, size: nat)
    ensures x * size + k * size == (x + k) * size
  {
  }

  function Words(k: nat, size: nat): nat { k * size }

  /** Where way k of set i starts. */
  function Start(p: Params, size: nat, i: nat, k: nat): nat {
    Words(i * p.ways + k, size)
  }

  lemma {:induction false} StartBound(p: Params, size: nat, i: nat, k: nat)
    requires i < p.geo.sets && k < p.ways
    ensures Start(p, size, i, k) + size <= Words(p.geo.sets * p.ways, size)
  {
    Scale(i + 1, p.geo.sets, p.ways);
    assert (i + 1) * p.ways == i * p.ways + p.ways;
    Disjoint(i * p.ways + k, p.geo.sets * p.ways, size);
  }

  lemma {:induction false} StartApart(p: Params, size: nat, i: nat, k: nat, j: nat, m: nat)
    requires k < p.ways && m < p.ways && (i, k) != (j, m)
    ensures Start(p, size, i, k) + size <= Start(p, size, j, m) || Start(p, size, j, m) + size <= Start(p, size, i, k)
  {
    BlockNumber(i, k, j, m, p.ways);
    if i * p.ways + k < j * p.ways + m { Disjoint(i * p.ways + k, j * p.ways + m, size); }
    else { Disjoint(j * p.ways + m, i * p.ways + k, size); }
  }

  ghost predicate Sized(p: Params, size: nat, ls: seq<Line>) {
    p.geo.Ok() && p.ways > 0 && size > 0 && p.geo.blockSize == 4 * size && |ls| == Words(p.geo.sets * p.ways, size)
  }

  /** The words of a block share their flags, and have consecutive addresses once the block is filled:
      calloc leaves every address 0. */
  ghost predicate Shares(p: Params, size: nat, ls: seq<Line>, i: nat, k: nat, j: nat)
    requires Sized(p, size, ls) && i < p.geo.sets && k < p.ways && j < size
  {
    StartBound(p, size, i, k);
    var first, word := ls[Start(p, size, i, k)], ls[Start(p, size, i, k) + j];
    word == first.(addr := word.addr) && (word.addr == first.addr + 4 * j || (first.addr == 0 && word.addr == 0))
  }

  ghost predicate Laid(p: Params, size: nat, ls: seq<Line>) {
    Sized(p, size, ls)
    && forall i, k, j | 0 <= i < p.geo.sets && 0 <= k < p.ways && 0 <= j < size :: Shares(p, size, ls, i, k, j)
  }

  function At(p: Params, size: nat, ls: seq<Line>, i: nat, k: nat): Block
    requires Sized(p, size, ls) && i < p.geo.sets && k < p.ways
  {
    StartBound(p, size, i, k);
    ls[Start(p, size, i, k)].Block()
  }

  function SetsOf(p: Params, size: nat, ls: seq<Line>): (r: seq<seq<Block>>)
    requires Sized(p, size, ls)
    ensures |r| == p.geo.sets && forall i | 0 <= i < p.geo.sets :: |r[i]| == p.ways
    ensures forall i, k | 0 <= i < p.geo.sets && 0 <= k < p.ways :: r[i][k] == At(p, size, ls, i, k)
  {
    seq(p.geo.sets, i requires 0 <= i < p.geo.sets => seq(p.ways, k requires 0 <= k < p.ways => At(p, size, ls, i, k)))
  }

  /** The lines of one block change, each by the same function of its position. */
  ghost predicate OnlyBlock(p: Params, size: nat, ls: seq<Line>, ms: seq<Line>, i: nat, k: nat)
    requires Sized(p, size, ls)
  {
    var s := Start(p, size, i, k);
    |ms| == |ls| && forall x | 0 <= x < |ls| && !(s <= x < s + size) :: ms[x] == ls[x]
  }

  lemma {:induction false} OtherWays(p: Params, size: nat, ls: seq<Line>, ms: seq<Line>, i: nat, k: nat)
    requires Laid(p, size, ls) && i < p.geo.sets && k < p.ways && OnlyBlock(p, size, ls, ms, i, k)
    requires forall j | 0 <= j < size :: Shares(p, size, ms, i, k, j)
    ensures Laid(p, size, ms)
    ensures SetsOf(p, size, ms) == SetsOf(p, size, ls)[i := SetsOf(p, size, ls)[i][k := At(p, size, ms, i, k)]]
  {
    forall a, b, j | 0 <= a < p.geo.sets && 0 <= b < p.ways && 0 <= j < size
      ensures Shares(p, size, ms, a, b, j)
      ensures (a, b) != (i, k) ==> At(p, size, ms, a, b) == At(p, size, ls, a, b)
    {
      StartBound(p, size, a, b);
      if (a, b) != (i, k) {
        StartApart(p, size, a, b, i, k);
        assert Shares(p, size, ls, a, b, j);
      }
    }
    var r, t := SetsOf(p, size, ms), SetsOf(p, size, ls);
    var u := t[i := t[i][k := At(p, size, ms, i, k)]];
    forall a | 0 <= a < p.geo.sets
      ensures r[a] == u[a]
    {
      forall b | 0 <= b < p.ways
        ensures r[a][b] == u[a][b]
      {
        assert 0 < size && Shares(p, size, ls, a, b, 0);
        if (a, b) != (i, k) {
          StartBound(p, size, a, b);
          StartApart(p, size, a, b, i, k);
        }
      }
    }
  }

  /** Setting a flag in every word of way k. */
  ghost predicate Flagged(ls: seq<Line>, ms: seq<Line>, start: nat, size: nat, f: Flag) {
    |ms| == |ls| && start + size <= |ls|
    && forall x | 0 <= x < |ls| :: ms[x] == if start <= x < start + size then ls[x].With(f) else ls[x]
  }

  lemma {:induction false} FlaggedSets(p: Params, size: nat, ls: seq<Line>, ms: seq<Line>, i: nat, k: nat, f: Flag)
    requires Laid(p, size, ls) && i < p.geo.sets && k < p.ways && Flagged(ls, ms, Start(p, size, i, k), size, f)
    ensures Laid(p, size, ms)
    ensures SetsOf(p, size, ms) ==
        SetsOf(p, size, ls)[i := SetsOf(p, size, ls)[i][k := SetsOf(p, size, ls)[i][k].With(f)]]
  {
    forall j | 0 <= j < size
      ensures Shares(p, size, ms, i, k, j)
    {
      StartBound(p, size, i, k);
      assert Shares(p, size, ls, i, k, j);
    }
    OtherWays(p, size, ls, ms, i, k);
  }

  /** There is room at way k or after. */
  ghost predicate RoomFrom(ws: seq<Block>, k: nat) {
    exists i :: k <= i < |ws| && (!ws[i].valid || ws[i].done)
  }

  lemma {:induction false} RoomStep(ws: seq<Block>, k: nat)
    requires k <= |ws|
    ensures RoomFrom(ws, k) <==> k < |ws| && (!ws[k].valid || ws[k].done || RoomFrom(ws, k + 1))
    ensures RoomFrom(ws, 0) <==> HasRoom(ws)
  {
  }

  /** How much to add to a pair of counters. */
  datatype Counts = Counts(hits: int, misses: int)

  class LevelArray {
    const p: Params
    const size: nat          // words per block
    const lines: array<Line>
    var stats: Stats
    ghost var words: map<nat, int>

    /** calloc. */
    constructor (p: Params)
      requires p.geo.Ok() && p.ways > 0 && p.geo.blockSize % 4 == 0
      ensures Valid() && fresh(lines) && this.p == p && Model() == EmptyLevel(p)
    {
      this.p := p;
      size := p.geo.blockSize / 4;
      lines := new Line[p.geo.sets * p.ways * (p.geo.blockSize / 4)](_ => Line(0, false, false, false, 0));
      stats := NO_STATS;
      words := map[];
      new;
      EmptySets(p, size, lines[..]);
    }

    ghost predicate Valid()
      reads this, lines
    {
      Laid(p, size, lines[..])
    }

    /** The level that the array stands for. */
    ghost function Model(): (l: Level)
      requires Valid()
      reads this, lines
      ensures l.Shaped() && l.p == p && l.words == words && l.stats == stats
    {
      Level(p, SetsOf(p, size, lines[..]), words, stats)
    }

    /** Words per set. */
    function Limit(): nat { p.ways * size }

    /** The line `i` words into a set. */
    function LineOf(index: nat, i: nat): Line
      requires index * p.ways * size + i < lines.Length
      reads lines
    {
      lines[index * p.ways * size + i]
    }

    /** A loop over the ways of a set, in steps of one block. */
    ghost predicate Stands(index: nat, i: nat, k: nat) {
      index < p.geo.sets && k <= p.ways && i == Words(k, size)
    }

    lemma {:induction false} Position(index: nat, i: nat, k: nat)
      requires Valid() && Stands(index, i, k)
      ensures k <= p.ways && (i < Limit() <==> k < p.ways)
      ensures k < p.ways ==>
        && index * p.ways * size + i == Start(p, size, index, k) && Start(p, size, index, k) + size <= lines.Length
        && LineOf(index, i).Block() == SetsOf(p, size, lines[..])[index][k]
        && Stands(index, i + size, k + 1)
    {
      if k < p.ways {
        StartBound(p, size, index, k);
        Disjoint(k, p.ways, size);
        Spread(index * p.ways, k, size);
        assert (k + 1) * size == k * size + size;
        assert SetsOf(p, size, lines[..])[index][k] == At(p, size, lines[..], index, k);
      }
    }

    lemma {:induction false} FirstWay(index: nat)
      requires index < p.geo.sets
      ensures Stands(index, 0, 0)
    {
    }

    /** find_block. */
    method FindBlock(a: nat) returns (r: Lookup)
      requires Valid()
      ensures r == Model().Lookup(a)
    {
      r := FindHit(a);
      if r.Free? { r := FindRoom(a); }
      assert Model().Ways(a) == SetsOf(p, size, lines[..])[p.geo.Index(a)];
    }

    /** The first loop of find_block; Free when no valid way matches. */
    method FindHit(a: nat) returns (r: Lookup)
      requires Valid()
      ensures
        var k := FirstHit(p.geo, Model().Ways(a), p.geo.Tag(a));
        r == if k == p.ways then Free else if Model().Ways(a)[k].done then Hit else Busy
    {
      var g := p.geo;
      var index, tag := g.Index(a), g.Tag(a);
      ghost var ws := SetsOf(p, size, lines[..])[index];
      assert Model().Ways(a) == ws;
      hide SetsOf, Start, Geometry.Index, Geometry.Tag, Valid, Model, Stands, Limit, LineOf, Level.Ways;
      var i: nat := 0;
      ghost var k: nat := 0;
      FirstWay(index);
      while i < Limit()
        invariant Stands(index, i, k) && k <= p.ways
        invariant FirstHit(g, ws, tag) == FirstHit(g, ws, tag, k)
        decreases p.ways - k
      {
        Position(index, i, k);
        var line := LineOf(index, i);
        if line.valid && g.Tag(line.addr) == tag && line.done {
          return Hit;
        } else if line.valid && g.Tag(line.addr) == tag && !line.done {
          return Busy;
        }
        i, k := i + size, k + 1;
      }
      Position(index, i, k);
      return Free;
    }

    /** The second loop. */
    method FindRoom(a: nat) returns (r: Lookup)
      requires Valid()
      ensures r == if HasRoom(Model().Ways(a)) then Free else Full
    {
      var index := p.geo.Index(a);
      ghost var ws := SetsOf(p, size, lines[..])[index];
      assert Model().Ways(a) == ws;
      hide SetsOf, Start, Geometry.Index, Geometry.Tag, Valid, Model, Stands, Limit, LineOf, Level.Ways, HasRoom,
           RoomFrom;
      var i: nat := 0;
      ghost var k: nat := 0;
      FirstWay(index);
      RoomStep(ws, 0);
      while i < Limit()
        invariant Stands(index, i, k) && k <= p.ways
        invariant HasRoom(ws) <==> RoomFrom(ws, k)
        decreases p.ways - k
      {
        Position(index, i, k);
        RoomStep(ws, k);
        var line := LineOf(index, i);
        if !line.valid || line.done {
          return Free;
        }
        i, k := i + size, k + 1;
      }
      Position(index, i, k);
      RoomStep(ws, k);
      return Full;
    }

    /** The loop over the words of one block that ends every setter. */
    method FlagWords(start: nat, f: Flag)
      requires start + size <= lines.Length
      modifies lines
      ensures Flagged(old(lines[..]), lines[..], start, size, f)
    {
      var j := 0;
      while j < size
        invariant 0 <= j <= size
        invariant forall x | 0 <= x < lines.Length ::
          lines[x] == if start <= x < start + j then old(lines[x]).With(f) else old(lines[x])
      {
        lines[start + j] := lines[start + j].With(f);
        j := j + 1;
      }
    }

    /** set_valid, set_dirty, set_done and set_reference: every word of the first block whose tag
        matches, valid or not. False stands for the source's -1. */
    method SetFlag(a: nat, f: Flag) returns (found: bool)
      requires Valid()
      modifies lines
      ensures Valid() && Model() == old(Model()).Mark(a, f)
      ensures found <==> FirstMatch(p.geo, old(Model()).Ways(a), p.geo.Tag(a)) < p.ways
    {
      var g := p.geo;
      var index, tag := g.Index(a), g.Tag(a);
      ghost var sets := SetsOf(p, size, lines[..]);
      ghost var ws := sets[index];
      assert Model().Ways(a) == ws;
      var i: nat := 0;
      ghost var k: nat := 0;
      FirstWay(index);
      while i < Limit()
        invariant Stands(index, i, k) && k <= p.ways
        invariant lines[..] == old(lines[..])
        invariant FirstMatch(g, ws, tag) == FirstMatch(g, ws, tag, k)
        decreases p.ways - k
      {
        Position(index, i, k);
        if g.Tag(LineOf(index, i).addr) == tag {
          FlagWords(index * p.ways * size + i, f);
          FlaggedSets(p, size, old(lines[..]), lines[..], index, k, f);
          return true;
        }
        i, k := i + size, k + 1;
      }
      Position(index, i, k);
      return false;
    }

    /** touch; it fails, with exit(1), only for a block that is not there. */
    method Touch(a: nat, now: nat)
      requires Valid()
      modifies lines
      ensures Valid() && Model() == old(Model()).Touch(a, now)
    {
      if p.lru {
        var found := SetFlag(a, Reference(now));
      }
    }

    /** The search for an invalid way that starts evict. */
    method FreeWay(a: nat) returns (i: nat, ghost k: nat)
      requires Valid()
      ensures k == FirstInvalid(Model().Ways(a)) && Stands(p.geo.Index(a), i, k)
    {
      var index := p.geo.Index(a);
      ghost var ws := SetsOf(p, size, lines[..])[index];
      assert Model().Ways(a) == ws;
      i, k := 0, 0;
      FirstWay(index);
      while i < Limit()
        invariant Stands(index, i, k) && k <= p.ways
        invariant FirstInvalid(ws) == FirstInvalid(ws, k)
        decreases p.ways - k
      {
        Position(index, i, k);
        if !LineOf(index, i).valid { return; }
        i, k := i + size, k + 1;
      }
      Position(index, i, k);
    }

    /** The search for the lowest reference, passing over the way at `skip`. */
    method OldestWay(a: nat, skip: nat, ghost skipWay: nat) returns (best: nat, ghost way: nat)
      requires Valid() && Stands(p.geo.Index(a), skip, skipWay)
      ensures way == Oldest(Model().Ways(a), p.ways, skipWay) && Stands(p.geo.Index(a), best, way)
    {
      var index := p.geo.Index(a);
      ghost var ws := SetsOf(p, size, lines[..])[index];
      assert Model().Ways(a) == ws;
      hide SetsOf, Start, Geometry.Index, Geometry.Tag, Valid, Model, Stands, Limit, LineOf, Level.Ways;
      var i: nat := 0;
      ghost var k: nat := 0;
      best, way := Limit(), p.ways;
      LastWay(index);
      var least := 0;
      FirstWay(index);
      while i < Limit()
        invariant Stands(index, i, k) && Stands(index, best, way) && k <= p.ways
        invariant way == Oldest(ws, k, skipWay)
        invariant way < p.ways ==> least == ws[way].reference
        decreases p.ways - k
      {
        Position(index, i, k);
        Position(index, best, way);
        SameWay(index, i, k, skip, skipWay);
        if i != skip {
          var line := LineOf(index, i);
          if best == Limit() || line.reference < least {
            least, best, way := line.reference, i, k;
          }
        }
        i, k := i + size, k + 1;
      }
      Position(index, i, k);
    }

    lemma {:induction false} SameWay(index: nat, i: nat, k: nat, j: nat, m: nat)
      requires Valid() && Stands(index, i, k) && Stands(index, j, m)
      ensures i == j <==> k == m
      ensures k < p.ways ==> i < Limit()
      ensures i <= Limit()
    {
      if k < m { Disjoint(k, m, size); }
      if m < k { Disjoint(m, k, size); }
      if k < p.ways { Disjoint(k, p.ways, size); }
    }

    /** The way to replace in a full set: the oldest, or the next oldest if that one is in flight. */
    method PickVictim(a: nat) returns (i: nat, ghost k: nat)
      requires Valid()
      ensures k == Victim(Model().Ways(a)) && Stands(p.geo.Index(a), i, k)
    {
      var index := p.geo.Index(a);
      LastWay(index);
      i, k := OldestWay(a, Limit(), p.ways);
      Position(index, i, k);
      assert Model().Ways(a) == SetsOf(p, size, lines[..])[index];
      if !LineOf(index, i).done {
        i, k := OldestWay(a, i, k);
      }
    }

    lemma {:induction false} LastWay(index: nat)
      requires index < p.geo.sets
      ensures Stands(index, Limit(), p.ways)
    {
    }

    /** touch, then done = 0. */
    method Use(a: nat, now: nat)
      requires Valid()
      modifies lines
      ensures Valid() && Model() == old(Model()).Use(a, now)
    {
      hide Level.Mark, Level.Touch, LevelArray.Model, LevelArray.Valid;
      Touch(a, now);
      var found := SetFlag(a, Done(false));
    }

    /** A write that hits. */
    method Store(a: nat, ghost d: map<nat, int>, now: nat)
      requires Valid()
      modifies this, lines
      ensures Valid() && Model() == old(Model()).Store(a, d, now)
    {
      if p.writeBack {
        var found := SetFlag(a, Flag.Dirty(true));
      }
      Use(a, now);
      words := words + d;
    }

    /** The counters of the statistics. */
    method Count(onRead: Counts, onWrite: Counts, writebacks: nat)
      requires Valid()
      modifies this
      ensures Valid()
      ensures Model() == old(Model()).(stats := Stats(
        old(stats).hitR + onRead.hits, old(stats).missR + onRead.misses,
        old(stats).hitW + onWrite.hits, old(stats).missW + onWrite.misses, old(stats).writebacks + writebacks))
    {
      stats := Stats(stats.hitR + onRead.hits, stats.missR + onRead.misses,
        stats.hitW + onWrite.hits, stats.missW + onWrite.misses, stats.writebacks + writebacks);
    }

    /** Install, and the words that a line with data would copy along. */
    method Fill(a: nat, i: nat, ghost k: nat, now: nat, ghost copy: map<nat, int>)
      requires Valid() && Stands(p.geo.Index(a), i, k) && k < p.ways
      modifies this, lines
      ensures Valid() && Model() == old(Model()).Place(a, k, now).(words := old(Model()).words + copy)
    {
      Install(a, i, k, now);
      SetWords(copy);
    }

    ghost method SetWords(d: map<nat, int>)
      requires Valid()
      modifies this
      ensures Valid() && Model() == old(Model()).(words := old(Model()).words + d)
    {
      words := words + d;
    }

    /** copy_from_mem, which stores addresses only. */
    method CopyFromMem(addr: nat, start: nat)
      requires start + size <= lines.Length
      modifies lines
      ensures forall x | 0 <= x < lines.Length ::
        lines[x] == if start <= x < start + size then old(lines[x]).(addr := addr + 4 * (x - start)) else old(lines[x])
    {
      var j, a := 0, addr;
      while j < size
        invariant 0 <= j <= size && a == addr + 4 * j
        invariant forall x | 0 <= x < lines.Length ::
          lines[x] == if start <= x < start + j then old(lines[x]).(addr := addr + 4 * (x - start)) else old(lines[x])
      {
        lines[start + j] := lines[start + j].(addr := a);
        a := a + 4;
        j := j + 1;
      }
    }

    /** The end of evict: the block of a goes into the way at `i`, and the setters find it there. */
    method Install(a: nat, i: nat, ghost k: nat, now: nat)
      requires Valid() && Stands(p.geo.Index(a), i, k) && k < p.ways
      modifies lines
      ensures Valid() && Model() == old(Model()).Place(a, k, now)
    {
      var g := p.geo;
      var index := g.Index(a);
      ghost var l := Model();
      ghost var ls := lines[..];
      Position(index, i, k);
      CopyFromMem(g.BlockAddr(a), index * p.ways * size + i);
      CopiedSets(p, size, ls, lines[..], index, k, g.BlockAddr(a));
      assert Model() == l.WithWays(a, l.Ways(a)[k := l.Ways(a)[k].(addr := g.BlockAddr(a))]);
      PlaceIsMarks(l, a, k, now);
      hide Level.Mark, Level.Place, Level.WithWays, Level.Ways, Model, SetsOf, Start, Geometry.Index, Geometry.Tag;
      var found := SetFlag(a, Flag.Valid(true));
      found := SetFlag(a, Reference(now));
      found := SetFlag(a, Flag.Dirty(false));
      found := SetFlag(a, Done(false));
    }
  }

  lemma {:induction false} EmptySets(p: Params, size: nat, ls: seq<Line>)
    requires Sized(p, size, ls) && forall x | 0 <= x < |ls| :: ls[x] == Line(0, false, false, false, 0)
    ensures Laid(p, size, ls) && SetsOf(p, size, ls) == EmptyLevel(p).sets
  {
    forall i, k, j | 0 <= i < p.geo.sets && 0 <= k < p.ways && 0 <= j < size
      ensures Shares(p, size, ls, i, k, j)
    {
      StartBound(p, size, i, k);
    }
    var r, e := SetsOf(p, size, ls), EmptyLevel(p).sets;
    forall i | 0 <= i < p.geo.sets
      ensures r[i] == e[i]
    {
      forall k | 0 <= k < p.ways
        ensures r[i][k] == e[i][k]
      {
        StartBound(p, size, i, k);
      }
    }
  }

  lemma {:induction false} PlaceIsMarks(l: Level, a: nat, k: nat, now: nat)
    requires l.Shaped() && k < l.p.ways
    ensures l.Place(a, k, now) ==
      l.WithWays(a, l.Ways(a)[k := l.Ways(a)[k].(addr := l.p.geo.BlockAddr(a))])
        .Mark(a, Flag.Valid(true)).Mark(a, Reference(now)).Mark(a, Flag.Dirty(false)).Mark(a, Done(false))
  {
    hide SetFlag, Geometry.Index, Geometry.Tag, Geometry.BlockAddr;
    var i := l.p.geo.Index(a);
    WithTwice(l, a);
  }

  lemma {:induction false} WithTwice(l: Level, a: nat)
    requires l.Shaped()
    ensures forall x: seq<Block>, y: seq<Block> | |x| == l.p.ways && |y| == l.p.ways ::
      l.WithWays(a, x).WithWays(a, y) == l.WithWays(a, y)
  {
  }

  lemma {:induction false} CopiedSets(p: Params, size: nat, ls: seq<Line>, ms: seq<Line>, i: nat, k: nat, addr: nat)
    requires Laid(p, size, ls) && i < p.geo.sets && k < p.ways && |ms| == |ls|
    requires var s := Start(p, size, i, k);
      s + size <= |ls|
      && forall x | 0 <= x < |ls| :: ms[x] == if s <= x < s + size then ls[x].(addr := addr + 4 * (x - s)) else ls[x]
    ensures Laid(p, size, ms)
    ensures SetsOf(p, size, ms) ==
        SetsOf(p, size, ls)[i := SetsOf(p, size, ls)[i][k := SetsOf(p, size, ls)[i][k].(addr := addr)]]
  {
    forall j | 0 <= j < size
      ensures Shares(p, size, ms, i, k, j)
    {
      StartBound(p, size, i, k);
      assert Shares(p, size, ls, i, k, j);
    }
    OtherWays(p, size, ls, ms, i, k);
  }
}
