/** Least-significant-digit radix sort by stable passes over eight-bit digits. */
module RadixSpec {
  import opened Arithmetic

  function Base(p: nat): (r: nat)
    ensures r > 0
  {
    if p == 0 then 1 else 256 * Base(p - 1)
  }

  /** (x >> 8 p) & 0xFF. */
  function Digit(x: nat, p: nat): (d: nat)
    ensures d < 256
  {
    x / Base(p) % 256
  }

  /** The low 8 p bits. */
  function Low(x: nat, p: nat): nat { x % Base(p) }

  /** The elements with digit d, in order. */
  function Bucket(s: seq<nat>, p: nat, d: nat): seq<nat> {
    if s == [] then []
    else Bucket(s[..|s| - 1], p, d) + if Digit(s[|s| - 1], p) == d then [s[|s| - 1]] else []
  }

  /** The buckets of the digits below d, one after the other. */
  function Buckets(s: seq<nat>, p: nat, d: nat): seq<nat> {
    if d == 0 then [] else Buckets(s, p, d - 1) + Bucket(s, p, d - 1)
  }

  /** One stable pass. */
  function Pass(s: seq<nat>, p: nat): seq<nat> { Buckets(s, p, 256) }

  /** The passes 0 up to k - 1. */
  function Passes(s: seq<nat>, k: nat): seq<nat> {
    if k == 0 then s else Pass(Passes(s, k - 1), k - 1)
  }

  /** The elements whose low 8 k bits are v, in order. */
  function Select(s: seq<nat>, k: nat, v: nat): seq<nat> {
    if s == [] then []
    else Select(s[..|s| - 1], k, v) + if Low(s[|s| - 1], k) == v then [s[|s| - 1]] else []
  }

  ghost predicate SortedLow(s: seq<nat>, k: nat) {
    forall i, j | 0 <= i < j < |s| :: Low(s[i], k) <= Low(s[j], k)
  }

  // ---- digits ----

  lemma {:induction false} LowDigit(x: nat, p: nat)
    ensures Low(x, p + 1) == Digit(x, p) * Base(p) + Low(x, p) && Low(x, p) < Base(p)
  {
    var b := Base(p);
    var q, r := x / b, x % b;
    var t, d := q / 256, q % 256;
    assert x == q * b + r && q == t * 256 + d;
    assert x == t * (256 * b) + (d * b + r) by {
      assert q * b == t * 256 * b + d * b;
      assert t * 256 * b == t * (256 * b);
    }
    assert d * b + r < 256 * b by { Scale(d, 255, b); }
    Remainder(x, t, 256 * b, d * b + r);
  }

  // ---- one pass is a permutation ----

  function Below(s: seq<nat>, p: nat, d: nat): seq<nat> {
    if s == [] then []
    else Below(s[..|s| - 1], p, d) + if Digit(s[|s| - 1], p) < d then [s[|s| - 1]] else []
  }

  lemma {:induction false} BelowNext(s: seq<nat>, p: nat, d: nat)
    ensures multiset(Below(s, p, d + 1)) == multiset(Below(s, p, d)) + multiset(Bucket(s, p, d))
  {
    if s != [] { BelowNext(s[..|s| - 1], p, d); }
  }

  lemma {:induction false} BelowEnds(s: seq<nat>, p: nat)
    ensures Below(s, p, 0) == [] && Below(s, p, 256) == s
  {
    if s != [] {
      BelowEnds(s[..|s| - 1], p);
      assert s == s[..|s| - 1] + [s[|s| - 1]];
    }
  }

  lemma {:induction false} BucketsBelow(s: seq<nat>, p: nat, d: nat)
    ensures multiset(Buckets(s, p, d)) == multiset(Below(s, p, d))
  {
    hide Bucket, Below;
    if d == 0 {
      BelowEnds(s, p);
    } else {
      var e := d - 1;
      BucketsBelow(s, p, e);
      BelowNext(s, p, e);
      Joined(Buckets(s, p, e), Bucket(s, p, e));
    }
  }

  lemma Joined(a: seq<nat>, b: seq<nat>)
    ensures multiset(a + b) == multiset(a) + multiset(b)
  {
  }

  lemma {:induction false} PassPermutes(s: seq<nat>, p: nat)
    ensures multiset(Pass(s, p)) == multiset(s) && |Pass(s, p)| == |s|
  {
    BucketsBelow(s, p, 256);
    BelowEnds(s, p);
    assert |multiset(Pass(s, p))| == |Pass(s, p)|;
  }

  // ---- one pass sorts one more digit ----

  lemma {:induction false} BucketDigits(s: seq<nat>, p: nat, d: nat)
    ensures forall i | 0 <= i < |Bucket(s, p, d)| :: Digit(Bucket(s, p, d)[i], p) == d
  {
    if s != [] { BucketDigits(s[..|s| - 1], p, d); }
  }

  /** A bucket is in the order of the input: sorted if that is, and within its bounds. */
  lemma {:induction false} BucketSorted(s: seq<nat>, p: nat, d: nat)
    requires SortedLow(s, p)
    ensures SortedLow(Bucket(s, p, d), p)
    ensures s != [] ==> forall i | 0 <= i < |Bucket(s, p, d)| :: Low(Bucket(s, p, d)[i], p) <= Low(s[|s| - 1], p)
  {
    if s != [] {
      var front := s[..|s| - 1];
      BucketSorted(front, p, d);
      assert front != [] ==> Low(front[|front| - 1], p) <= Low(s[|s| - 1], p);
    }
  }

  lemma {:induction false} BucketsSorted(s: seq<nat>, p: nat, d: nat)
    requires SortedLow(s, p)
    ensures SortedLow(Buckets(s, p, d), p + 1)
    ensures forall i | 0 <= i < |Buckets(s, p, d)| :: Digit(Buckets(s, p, d)[i], p) < d
  {
    if d > 0 {
      BucketsSorted(s, p, d - 1);
      BucketSorted(s, p, d - 1);
      BucketDigits(s, p, d - 1);
      var a, b := Buckets(s, p, d - 1), Bucket(s, p, d - 1);
      var c := Buckets(s, p, d);
      forall i, j | 0 <= i < j < |c|
        ensures Low(c[i], p + 1) <= Low(c[j], p + 1)
      {
        LowDigit(c[i], p);
        LowDigit(c[j], p);
        if i < |a| <= j {
          Scale(Digit(c[i], p) + 1, Digit(c[j], p), Base(p));
          assert (Digit(c[i], p) + 1) * Base(p) == Digit(c[i], p) * Base(p) + Base(p);
        } else if i >= |a| {
          assert c[i] == b[i - |a|] && c[j] == b[j - |a|];
        }
      }
    }
  }

  // ---- and keeps the order of equal keys ----

  lemma {:induction false} SelectConcat(a: seq<nat>, b: seq<nat>, k: nat, v: nat)
    ensures Select(a + b, k, v) == Select(a, k, v) + Select(b, k, v)
  {
    if b == [] {
      assert a + b == a;
    } else {
      assert (a + b)[..|a + b| - 1] == a + b[..|b| - 1];
      SelectConcat(a, b[..|b| - 1], k, v);
    }
  }

  /** Elements with equal low digits fall into one bucket. */
  lemma {:induction false} SelectBucket(s: seq<nat>, p: nat, d: nat, v: nat)
    ensures Select(Bucket(s, p, d), p + 1, v) == if d == v / Base(p) then Select(s, p + 1, v) else []
  {
    if s != [] {
      var x := s[|s| - 1];
      SelectBucket(s[..|s| - 1], p, d, v);
      SelectConcat(Bucket(s[..|s| - 1], p, d), if Digit(x, p) == d then [x] else [], p + 1, v);
      LowDigit(x, p);
      if Low(x, p + 1) == v { Remainder(v, Digit(x, p), Base(p), Low(x, p)); }
      SelectOne(x, p + 1, v);
    }
  }

  lemma {:induction false} SelectOne(x: nat, k: nat, v: nat)
    ensures Select([x], k, v) == if Low(x, k) == v then [x] else []
  {
    assert [x][..0] == [];
  }

  lemma SelectNil(k: nat, v: nat)
    ensures Select([], k, v) == []
  {
  }

  lemma {:induction false} SelectBuckets(s: seq<nat>, p: nat, d: nat, v: nat)
    ensures Select(Buckets(s, p, d), p + 1, v) == if v / Base(p) < d then Select(s, p + 1, v) else []
  {
    hide Select, Bucket, Base;
    if d == 0 {
      SelectNil(p + 1, v);
    } else {
      SelectBuckets(s, p, d - 1, v);
      SelectBucket(s, p, d - 1, v);
      SelectConcat(Buckets(s, p, d - 1), Bucket(s, p, d - 1), p + 1, v);
    }
  }

  /** A key of k + 1 digits selects from what its low k digits select. */
  lemma {:induction false} SelectFiner(s: seq<nat>, k: nat, v: nat)
    ensures Select(Select(s, k, v % Base(k)), k + 1, v) == Select(s, k + 1, v)
  {
    if s != [] {
      var x := s[|s| - 1];
      SelectFiner(s[..|s| - 1], k, v);
      SelectConcat(Select(s[..|s| - 1], k, v % Base(k)), if Low(x, k) == v % Base(k) then [x] else [], k + 1, v);
      SelectOne(x, k + 1, v);
      FinerKey(x, k, v);
    }
    hide Base, Low;
  }

  lemma {:induction false} FinerKey(x: nat, k: nat, v: nat)
    ensures Low(x, k + 1) == v ==> Low(x, k) == v % Base(k)
  {
    LowDigit(x, k);
    Remainder(Low(x, k + 1), Digit(x, k), Base(k), Low(x, k));
  }

  lemma {:induction false} SelectNone(s: seq<nat>, k: nat, v: nat)
    requires v >= Base(k)
    ensures Select(s, k, v) == []
  {
    if s != [] { SelectNone(s[..|s| - 1], k, v); }
  }

  lemma {:induction false} PassStable(s: seq<nat>, p: nat, v: nat)
    ensures Select(Pass(s, p), p + 1, v) == Select(s, p + 1, v)
  {
    SelectBuckets(s, p, 256, v);
    if v / Base(p) >= 256 {
      Divide(v, Base(p));
      Scale(256, v / Base(p), Base(p));
      SelectNone(s, p + 1, v);
    }
  }

  /** Elements with equal low bits come in the same order in both. */
  ghost predicate SameOrder(s: seq<nat>, t: seq<nat>, k: nat) {
    forall v: nat :: Select(t, k, v) == Select(s, k, v)
  }

  lemma {:induction false} StableStep(s: seq<nat>, t: seq<nat>, p: nat, q: nat)
    requires SameOrder(s, t, p) && q == p + 1
    ensures SameOrder(s, Pass(t, p), q)
  {
    hide Select, Pass;
    forall v: nat
      ensures Select(Pass(t, p), q, v) == Select(s, q, v)
    {
      PassStable(t, p, v);
      SelectFiner(t, p, v);
      SelectFiner(s, p, v);
      assert Select(t, p, v % Base(p)) == Select(s, p, v % Base(p));
    }
  }

  /** After k passes the sequence is a permutation of the input, sorted by its low 8 k bits, with
      equal keys in input order. */
  lemma {:induction false} PassesSortStably(s: seq<nat>, k: nat)
    ensures multiset(Passes(s, k)) == multiset(s)
    ensures SortedLow(Passes(s, k), k)
    ensures SameOrder(s, Passes(s, k), k)
  {
    hide Pass, SortedLow, SameOrder;
    if k > 0 {
      PassesSortStably(s, k - 1);
      NextPass(s, Passes(s, k - 1), k - 1);
    } else {
      NoPass(s);
    }
  }

  lemma NoPass(s: seq<nat>)
    ensures SortedLow(s, 0) && SameOrder(s, s, 0)
  {
    assert Base(0) == 1;
  }

  lemma {:induction false} NextPass(s: seq<nat>, t: seq<nat>, p: nat)
    requires multiset(t) == multiset(s) && SortedLow(t, p) && SameOrder(s, t, p)
    ensures multiset(Pass(t, p)) == multiset(s) && SortedLow(Pass(t, p), p + 1) && SameOrder(s, Pass(t, p), p + 1)
  {
    PassPermutes(t, p);
    BucketsSorted(t, p, 256);
    PassIs(t, p);
    hide Select, Pass, Buckets, SameOrder, SortedLow;
    StableStep(s, t, p, p + 1);
  }

  lemma PassIs(s: seq<nat>, p: nat)
    ensures Pass(s, p) == Buckets(s, p, 256)
  {
  }

  /** Four passes sort all 32-bit values. */
  lemma {:induction false} FourPassesSort(s: seq<nat>)
    requires forall i | 0 <= i < |s| :: s[i] < 0x1_0000_0000
    ensures multiset(Passes(s, 4)) == multiset(s)
    ensures forall i, j | 0 <= i < j < |s| :: |Passes(s, 4)| == |s| && Passes(s, 4)[i] <= Passes(s, 4)[j]
  {
    var r := Passes(s, 4);
    PassesSortStably(s, 4);
    assert |multiset(r)| == |r| && |multiset(s)| == |s|;
    FourBytes();
    forall i | 0 <= i < |r|
      ensures Low(r[i], 4) == r[i]
    {
      assert r[i] in multiset(r);
      assert r[i] in multiset(s);
      assert exists j :: 0 <= j < |s| && s[j] == r[i];
    }
    hide Passes, Low;
  }

  lemma {:induction false} FourBytes()
    ensures Base(4) == 0x1_0000_0000
  {
    assert Base(1) == 256;
    assert Base(2) == 65536;
    assert Base(3) == 0x100_0000;
  }

  // ---- where one pass puts an element ----

  /** The place of element i: after the smaller digits and the earlier elements of its own. */
  function Place(s: seq<nat>, p: nat, i: nat): nat
    requires i < |s|
  {
    var d := Digit(s[i], p);
    |Buckets(s, p, d)| + |Bucket(s[..i], p, d)|
  }

  /** The bucket of a prefix is a prefix of the bucket. */
  lemma {:induction false} BucketPrefix(s: seq<nat>, p: nat, d: nat, i: nat)
    requires i <= |s|
    ensures Bucket(s[..i], p, d) <= Bucket(s, p, d)
    ensures i < |s| && Digit(s[i], p) == d ==>
      |Bucket(s[..i], p, d)| < |Bucket(s, p, d)| && Bucket(s, p, d)[|Bucket(s[..i], p, d)|] == s[i]
  {
    if i < |s| {
      var front := s[..|s| - 1];
      assert front[..i] == s[..i];
      BucketPrefix(front, p, d, i);
    } else {
      assert s[..i] == s;
    }
  }

  lemma {:induction false} BucketsPrefix(s: seq<nat>, p: nat, d: nat, e: nat)
    requires d <= e
    ensures Buckets(s, p, d) <= Buckets(s, p, e)
    decreases e
  {
    if d < e { BucketsPrefix(s, p, d, e - 1); }
  }

  lemma {:induction false} PassAt(s: seq<nat>, p: nat, i: nat)
    requires i < |s|
    ensures Place(s, p, i) < |s| && |Pass(s, p)| == |s| && Pass(s, p)[Place(s, p, i)] == s[i]
    ensures Place(s, p, i) < |Buckets(s, p, Digit(s[i], p) + 1)|
  {
    var d := Digit(s[i], p);
    BucketPrefix(s, p, d, i);
    BucketsPrefix(s, p, d + 1, 256);
    PassPermutes(s, p);
    var a, b := Buckets(s, p, d), Bucket(s, p, d);
    assert Buckets(s, p, d + 1) == a + b;
    hide Bucket, Digit;
  }

  /** Every place in a bucket is the place of some element. */
  lemma {:induction false} BucketOnto(s: seq<nat>, p: nat, d: nat, r: nat) returns (i: nat)
    requires r < |Bucket(s, p, d)|
    ensures i < |s| && Digit(s[i], p) == d && |Bucket(s[..i], p, d)| == r
  {
    var front := s[..|s| - 1];
    if r < |Bucket(front, p, d)| {
      i := BucketOnto(front, p, d, r);
      assert front[..i] == s[..i];
    } else {
      i := |s| - 1;
    }
  }

  lemma {:induction false} BucketsOnto(s: seq<nat>, p: nat, d: nat, q: nat) returns (i: nat)
    requires q < |Buckets(s, p, d)|
    ensures i < |s| && Place(s, p, i) == q
  {
    if q < |Buckets(s, p, d - 1)| {
      i := BucketsOnto(s, p, d - 1, q);
    } else {
      i := BucketOnto(s, p, d - 1, q - |Buckets(s, p, d - 1)|);
    }
  }

  /** An arrangement that has every element in its place is the pass. */
  lemma {:induction false} PlacedIsPass(s: seq<nat>, p: nat, t: seq<nat>)
    requires |t| == |s| && forall i | 0 <= i < |s| :: Place(s, p, i) < |t| && t[Place(s, p, i)] == s[i]
    ensures t == Pass(s, p)
  {
    PassPermutes(s, p);
    forall q | 0 <= q < |t|
      ensures t[q] == Pass(s, p)[q]
    {
      var i := BucketsOnto(s, p, 256, q);
      PassAt(s, p, i);
    }
  }

  /** Different elements have different places. */
  lemma {:induction false} PlacesDiffer(s: seq<nat>, p: nat, i: nat, j: nat)
    requires i < j < |s|
    ensures Place(s, p, i) != Place(s, p, j)
  {
    var d, e := Digit(s[i], p), Digit(s[j], p);
    PassAt(s, p, i);
    PassAt(s, p, j);
    if d == e {
      assert s[..j][..i] == s[..i];
      BucketPrefix(s[..j], p, d, i);
    } else if d < e {
      BucketsPrefix(s, p, d + 1, e);
    } else {
      BucketsPrefix(s, p, e + 1, d);
    }
    hide Bucket, Buckets, Digit;
  }
}
