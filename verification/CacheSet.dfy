/** One set of a set-associative cache, block by block: lookup, the flag setters and replacement
    (src/cache/cache.c, src/cache/setters.c, src/cache/eviction.c). */
module CacheSet {
  import opened Arithmetic

  /** The flags that all words of a block share; `addr` is the address of its first word. */
  datatype Block = Block(addr: nat, valid: bool, dirty: bool, done: bool, reference: nat) {
    function With(f: Flag): Block {
      match f
      case Valid(v) => this.(valid := v)
      case Dirty(v) => this.(dirty := v)
      case Done(v) => this.(done := v)
      case Reference(n) => this.(reference := n)
    }
  }

  /** What a setter writes. The source has one function per flag, all with the same loop. */
  datatype Flag = Valid(v: bool) | Dirty(v: bool) | Done(v: bool) | Reference(n: nat)

  const EMPTY_BLOCK := Block(0, false, false, false, 0)

  /** Block size in bytes and number of sets. */
  datatype Geometry = Geometry(blockSize: nat, sets: nat) {
    predicate Ok() { 0 < blockSize && 0 < sets }

    function Number(addr: nat): nat
      requires Ok()
    {
      addr / blockSize
    }

    function Index(addr: nat): (i: nat)
      requires Ok()
      ensures i < sets
    {
      Number(addr) % sets
    }

    function Tag(addr: nat): nat
      requires Ok()
    {
      Number(addr) / sets
    }

    function BlockAddr(addr: nat): nat
      requires Ok()
    {
      Number(addr) * blockSize
    }

    /** w is not before the block of addr. */
    predicate Reaches(addr: nat, w: nat)
      requires Ok()
    {
      BlockAddr(addr) <= w
    }
  }

  predicate SameBlock(g: Geometry, a: nat, b: nat)
    requires g.Ok()
  {
    g.Number(a) == g.Number(b)
  }

  /** The first way at or after i whose tag matches, valid or not; |ws| if there is none. */
  function FirstMatch(g: Geometry, ws: seq<Block>, tag: nat, i: nat := 0): (k: nat)
    requires g.Ok() && i <= |ws|
    ensures i <= k <= |ws|
    ensures k < |ws| ==> g.Tag(ws[k].addr) == tag
    ensures forall j | i <= j < k :: g.Tag(ws[j].addr) != tag
    decreases |ws| - i
  {
    if i == |ws| || g.Tag(ws[i].addr) == tag then i else FirstMatch(g, ws, tag, i + 1)
  }

  /** The first valid way at or after i whose tag matches. */
  function FirstHit(g: Geometry, ws: seq<Block>, tag: nat, i: nat := 0): (k: nat)
    requires g.Ok() && i <= |ws|
    ensures i <= k <= |ws|
    ensures k < |ws| ==> ws[k].valid && g.Tag(ws[k].addr) == tag
    ensures forall j | i <= j < k :: !(ws[j].valid && g.Tag(ws[j].addr) == tag)
    decreases |ws| - i
  {
    if i == |ws| || (ws[i].valid && g.Tag(ws[i].addr) == tag) then i else FirstHit(g, ws, tag, i + 1)
  }

  function FirstInvalid(ws: seq<Block>, i: nat := 0): (k: nat)
    requires i <= |ws|
    ensures i <= k <= |ws|
    ensures k < |ws| ==> !ws[k].valid
    ensures forall j | i <= j < k :: ws[j].valid
    decreases |ws| - i
  {
    if i == |ws| || !ws[i].valid then i else FirstInvalid(ws, i + 1)
  }

  predicate HasRoom(ws: seq<Block>) {
    exists i :: 0 <= i < |ws| && (!ws[i].valid || ws[i].done)
  }

  /** The answers of find_block: 1, exit(1), 0 and -1. */
  datatype Lookup = Hit | Busy | Free | Full

  function Find(g: Geometry, ws: seq<Block>, tag: nat): Lookup
    requires g.Ok()
  {
    var k := FirstHit(g, ws, tag);
    if k < |ws| then (if ws[k].done then Hit else Busy)
    else if HasRoom(ws) then Free
    else Full
  }

  /** The setters: they act on the first matching way and do not look at its valid flag. */
  function SetFlag(g: Geometry, ws: seq<Block>, tag: nat, f: Flag): (r: seq<Block>)
    requires g.Ok()
    ensures |r| == |ws|
  {
    var k := FirstMatch(g, ws, tag);
    if k < |ws| then ws[k := ws[k].With(f)] else ws
  }

  /** The first way, other than `skip`, among the least recently stamped of ws[..i]. */
  function Oldest(ws: seq<Block>, i: nat, skip: nat): (k: nat)
    requires i <= |ws|
    ensures k <= |ws| && (k < |ws| ==> k < i && k != skip)
    ensures k == |ws| ==> i == 0 || (i == 1 && skip == 0)
    ensures k < |ws| ==> forall j | 0 <= j < i && j != skip :: ws[k].reference <= ws[j].reference
  {
    if i == 0 then |ws|
    else
      var k := Oldest(ws, i - 1, skip);
      if i - 1 == skip then k
      else if k == |ws| then i - 1
      else if ws[i - 1].reference < ws[k].reference then i - 1
      else k
  }

  /** The block to replace in a full set: the oldest, or the next oldest if that one is in flight;
      |ws| when there is no next oldest. */
  function Victim(ws: seq<Block>): (k: nat)
    requires |ws| > 0
    ensures k <= |ws|
  {
    var k := Oldest(ws, |ws|, |ws|);
    if ws[k].done then k else Oldest(ws, |ws|, k)
  }

  /** Put the block of `addr` into way k and set its flags through the setters. */
  function Fill(g: Geometry, ws: seq<Block>, k: nat, addr: nat, now: nat): (r: seq<Block>)
    requires g.Ok() && k < |ws|
    ensures |r| == |ws|
  {
    var tag := g.Tag(addr);
    var a := ws[k := ws[k].(addr := g.BlockAddr(addr))];
    SetFlag(g, SetFlag(g, SetFlag(g, SetFlag(g, a, tag, Valid(true)), tag, Reference(now)), tag, Dirty(false)), tag,
        Done(false))
  }

  // ---- the set invariant ----

  /** Valid ways form a prefix, hold whole blocks that belong to this set, and have distinct tags. */
  ghost predicate SetOk(g: Geometry, ws: seq<Block>, index: nat) {
    && g.Ok()
    && (forall i, j | 0 <= i < j < |ws| :: ws[j].valid ==> ws[i].valid)
    && (forall i | 0 <= i < |ws| && ws[i].valid ::
        ws[i].addr == g.BlockAddr(ws[i].addr) && g.Index(ws[i].addr) == index)
    && (forall i, j | 0 <= i < j < |ws| && ws[i].valid && ws[j].valid :: g.Tag(ws[i].addr) != g.Tag(ws[j].addr))
  }

  /** A way that the setters can reach first: its tag matches and no earlier tag does. */
  ghost predicate Reached(g: Geometry, ws: seq<Block>, tag: nat, k: nat)
    requires g.Ok()
  {
    k < |ws| && g.Tag(ws[k].addr) == tag && forall j | 0 <= j < k :: g.Tag(ws[j].addr) != tag
  }

  lemma SetterReaches(g: Geometry, ws: seq<Block>, tag: nat, k: nat, f: Flag)
    requires g.Ok() && Reached(g, ws, tag, k)
    ensures SetFlag(g, ws, tag, f) == ws[k := ws[k].With(f)]
    ensures Reached(g, ws[k := ws[k].With(f)], tag, k)
  {
  }

  /** Block numbers, block addresses, tags and indices determine each other. */
  lemma BlockFacts(g: Geometry, a: nat)
    requires g.Ok()
    ensures SameBlock(g, g.BlockAddr(a), a)
    ensures g.BlockAddr(a) <= a < g.BlockAddr(a) + g.blockSize
    ensures g.Number(a) == g.Tag(a) * g.sets + g.Index(a)
  {
    Divide(a, g.blockSize);
    Divide(g.Number(a), g.sets);
    Quotient(g.BlockAddr(a), g.Number(a), g.blockSize);
  }

  lemma SameBlockIff(g: Geometry, a: nat, b: nat)
    requires g.Ok()
    ensures SameBlock(g, a, b) <==> g.Tag(a) == g.Tag(b) && g.Index(a) == g.Index(b)
    ensures SameBlock(g, a, b) <==> g.BlockAddr(a) == g.BlockAddr(b)
  {
    BlockFacts(g, a);
    BlockFacts(g, b);
  }

  /** After a miss, filling the first invalid way, or any way of a full set: the setters reach
      exactly the block just placed. */
  lemma FillExact(g: Geometry, ws: seq<Block>, index: nat, k: nat, addr: nat, now: nat)
    requires SetOk(g, ws, index) && k < |ws| && g.Index(addr) == index
    requires FirstHit(g, ws, g.Tag(addr)) == |ws|
    requires forall j | 0 <= j < k :: ws[j].valid
    ensures Fill(g, ws, k, addr, now) == ws[k := Block(g.BlockAddr(addr), true, false, false, now)]
  {
    hide SetFlag;
    var tag := g.Tag(addr);
    var b := g.BlockAddr(addr);
    BlockFacts(g, addr);
    SameBlockIff(g, b, addr);
    var a0 := ws[k := ws[k].(addr := b)];
    assert Reached(g, a0, tag, k);
    SetterReaches(g, a0, tag, k, Valid(true));
    var a1 := a0[k := a0[k].With(Valid(true))];
    SetterReaches(g, a1, tag, k, Reference(now));
    var a2 := a1[k := a1[k].With(Reference(now))];
    SetterReaches(g, a2, tag, k, Dirty(false));
    var a3 := a2[k := a2[k].With(Dirty(false))];
    SetterReaches(g, a3, tag, k, Done(false));
  }

  /** And the set invariant is kept. */
  lemma FillOk(g: Geometry, ws: seq<Block>, index: nat, k: nat, addr: nat, now: nat)
    requires SetOk(g, ws, index) && k < |ws| && g.Index(addr) == index
    requires FirstHit(g, ws, g.Tag(addr)) == |ws|
    requires forall j | 0 <= j < k :: ws[j].valid
    ensures SetOk(g, ws[k := Block(g.BlockAddr(addr), true, false, false, now)], index)
  {
    var b := g.BlockAddr(addr);
    BlockFacts(g, addr);
    SameBlockIff(g, b, addr);
    hide FirstHit;
  }

  /** A valid block is the way the setters reach for its tag. */
  lemma HitIsReached(g: Geometry, ws: seq<Block>, index: nat, tag: nat)
    requires SetOk(g, ws, index)
    ensures FirstHit(g, ws, tag) < |ws| ==> FirstMatch(g, ws, tag) == FirstHit(g, ws, tag)
  {
  }
}
