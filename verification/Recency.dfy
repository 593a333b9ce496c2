/** Least recently used replacement in one set, by stack distance: a set of `ways` blocks holds
    exactly the blocks with fewer than `ways` other blocks used since their own last use. */
module Recency {

  /** The last use of block n, or -1. */
  function Last(t: seq<nat>, n: nat): (i: int)
    ensures -1 <= i < |t|
    ensures i >= 0 ==> t[i] == n
    ensures forall j | i < j < |t| :: t[j] != n
  {
    if t == [] then -1
    else if t[|t| - 1] == n then |t| - 1
    else Last(t[..|t| - 1], n)
  }

  /** The blocks used after the last use of n. */
  function Since(t: seq<nat>, n: nat): set<nat> {
    set j | Last(t, n) < j < |t| :: t[j]
  }

  ghost predicate Near(t: seq<nat>, ways: nat, n: nat) {
    Last(t, n) >= 0 && |Since(t, n)| < ways
  }

  /** The stack-distance description of what a set holds. */
  ghost predicate Exact(t: seq<nat>, ways: nat, held: set<nat>) {
    forall n: nat :: n in held <==> Near(t, ways, n)
  }

  lemma LastAppend(t: seq<nat>, b: nat, n: nat)
    ensures Last(t + [b], n) == if n == b then |t| else Last(t, n)
    ensures Since(t + [b], n) == if n == b then {} else Since(t, n) + {b}
  {
    var u := t + [b];
    assert u[..|u| - 1] == t;
    var i := Last(t, n);
    if n != b {
      forall y
        ensures y in Since(u, n) <==> y in Since(t, n) + {b}
      {
        if y in Since(t, n) { var j :| i < j < |t| && t[j] == y; assert u[j] == y; }
        if y == b { assert u[|t|] == b; }
        if y in Since(u, n) { var j :| i < j < |u| && u[j] == y; if j < |t| { assert t[j] == y; } }
      }
    }
  }

  lemma SinceIff(t: seq<nat>, x: nat, y: nat)
    ensures y in Since(t, x) <==> Last(t, y) > Last(t, x)
  {
  }

  /** Blocks used later have smaller distances. */
  lemma Nested(t: seq<nat>, x: nat, y: nat)
    requires Last(t, x) < Last(t, y)
    ensures Since(t, y) + {y} <= Since(t, x) && y !in Since(t, y)
    ensures |Since(t, y)| < |Since(t, x)|
  {
    forall z | z in Since(t, y)
      ensures z in Since(t, x)
    {
      SinceIff(t, y, z);
      SinceIff(t, x, z);
    }
    SinceIff(t, x, y);
    SinceIff(t, y, y);
    Subset(Since(t, y) + {y}, Since(t, x));
  }

  lemma {:induction false} Subset(a: set<nat>, b: set<nat>)
    requires a <= b
    ensures |a| <= |b|
    ensures |a| == |b| ==> a == b
  {
    if a != {} {
      var x :| x in a;
      Subset(a - {x}, b - {x});
    }
  }

  function Used(held: set<nat>, ways: nat, b: nat, victim: nat): set<nat> {
    if b in held then held
    else if |held| < ways then held + {b}
    else held - {victim} + {b}
  }

  /** When some held block is at the last distance that fits, the set is full and that block is the
      least recently used. */
  lemma Deepest(t: seq<nat>, ways: nat, held: set<nat>, n: nat)
    requires Exact(t, ways, held) && |held| <= ways && n in held && |Since(t, n)| == ways - 1
    ensures |held| == ways && held == Since(t, n) + {n}
  {
    forall y | y in Since(t, n)
      ensures y in held
    {
      SinceIff(t, n, y);
      Nested(t, n, y);
      assert Near(t, ways, y);
    }
    SinceIff(t, n, n);
    Subset(Since(t, n) + {n}, held);
  }

  /** The least recently used block of a full set is at that distance. */
  lemma Oldest(t: seq<nat>, ways: nat, held: set<nat>, v: nat)
    requires Exact(t, ways, held) && |held| == ways && v in held
    requires forall h | h in held :: Last(t, v) <= Last(t, h)
    ensures |Since(t, v)| == ways - 1
  {
    forall h | h in held && h != v
      ensures h in Since(t, v)
    {
      assert Near(t, ways, h) && Near(t, ways, v);
      SinceIff(t, v, h);
    }
    Subset(held - {v}, Since(t, v));
    assert Near(t, ways, v);
  }

  /** Using a block, and dropping the least recently used one when a missing block finds no room,
      keeps the description exact. */
  lemma UseKeepsExact(t: seq<nat>, ways: nat, held: set<nat>, b: nat, victim: nat)
    requires ways > 0 && Exact(t, ways, held) && |held| <= ways
    requires b !in held && |held| == ways ==> victim in held && forall h | h in held :: Last(t, victim) <= Last(t, h)
    ensures Exact(t + [b], ways, Used(held, ways, b, victim))
    ensures |Used(held, ways, b, victim)| <= ways
  {
    var u := t + [b];
    var r := Used(held, ways, b, victim);
    forall n: nat
      ensures n in r <==> Near(u, ways, n)
    {
      LastAppend(t, b, n);
      if n != b {
        OtherBlock(t, ways, held, b, victim, n);
      }
    }
  }

  lemma OtherBlock(t: seq<nat>, ways: nat, held: set<nat>, b: nat, victim: nat, n: nat)
    requires ways > 0 && Exact(t, ways, held) && |held| <= ways && n != b
    requires b !in held && |held| == ways ==> victim in held && forall h | h in held :: Last(t, victim) <= Last(t, h)
    ensures n in Used(held, ways, b, victim) <==> Near(t + [b], ways, n)
  {
    LastAppend(t, b, n);
    assert n in held <==> Near(t, ways, n);
    SinceIff(t, n, b);
    if b in Since(t, n) {
      assert Since(t, n) + {b} == Since(t, n);
      if n in held { UsedLater(t, ways, held, n, b); }
    } else if n in held {
      assert |Since(t, n) + {b}| == |Since(t, n)| + 1;
      assert n in Used(held, ways, b, victim) <==> b in held || |held| < ways || n != victim;
      HeldBlock(t, ways, held, b, victim, n);
    } else {
      Subset(Since(t, n), Since(t, n) + {b});
      assert n !in Used(held, ways, b, victim);
    }
  }

  lemma UsedLater(t: seq<nat>, ways: nat, held: set<nat>, n: nat, b: nat)
    requires Exact(t, ways, held) && n in held && b in Since(t, n)
    ensures b in held
  {
    SinceIff(t, n, b);
    Nested(t, n, b);
    assert Near(t, ways, n);
    assert Near(t, ways, b);
  }

  /** A held block not used since b stays exactly if it is not at the last distance. */
  lemma HeldBlock(t: seq<nat>, ways: nat, held: set<nat>, b: nat, victim: nat, n: nat)
    requires ways > 0 && Exact(t, ways, held) && |held| <= ways && n != b && n in held && b !in Since(t, n)
    requires b !in held && |held| == ways ==> victim in held && forall h | h in held :: Last(t, victim) <= Last(t, h)
    ensures (b in held || |held| < ways || n != victim) <==> |Since(t, n)| < ways - 1
  {
    assert Near(t, ways, n);
    SinceIff(t, n, b);
    if b in held {
      assert Near(t, ways, b);
      Nested(t, b, n);
    } else if |held| < ways {
      if |Since(t, n)| == ways - 1 { Deepest(t, ways, held, n); }
    } else if n == victim {
      Oldest(t, ways, held, n);
    } else if |Since(t, n)| == ways - 1 {
      Deepest(t, ways, held, n);
      SinceIff(t, n, victim);
    }
  }
}
