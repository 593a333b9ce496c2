/** Hoare quicksort: recursing on both sides (programs/c/quick_sort.c), and only on the smaller one
    (collegereport/demo/experiment_scripts/workloads/qsort.c). */
module QuickSort {
  import opened Arithmetic
  import opened GuestWords

  // ---- segments, from lo up to and not including hi ----

  /** t rearranges s between lo and hi and is s elsewhere. */
  ghost predicate Rearranged(s: seq<nat>, t: seq<nat>, lo: int, hi: int) {
    0 <= lo <= hi <= |s| == |t| && s[..lo] == t[..lo] && s[hi..] == t[hi..]
        && multiset(s[lo..hi]) == multiset(t[lo..hi])
  }

  ghost predicate AtMost(s: seq<nat>, p: nat, lo: int, hi: int) {
    forall k | lo <= k < hi && 0 <= k < |s| :: s[k] <= p
  }

  ghost predicate AtLeast(s: seq<nat>, p: nat, lo: int, hi: int) {
    forall k | lo <= k < hi && 0 <= k < |s| :: s[k] >= p
  }

  ghost predicate Sorted(s: seq<nat>, lo: int, hi: int) {
    forall x, y | 0 <= lo <= x < y < hi <= |s| :: s[x] <= s[y]
  }

  lemma {:induction false} Itself(s: seq<nat>, lo: int, hi: int)
    requires 0 <= lo <= hi <= |s|
    ensures Rearranged(s, s, lo, hi)
  {
  }

  lemma {:induction false} Again(s: seq<nat>, t: seq<nat>, u: seq<nat>, lo: int, hi: int)
    requires Rearranged(s, t, lo, hi) && Rearranged(t, u, lo, hi)
    ensures Rearranged(s, u, lo, hi)
  {
  }

  lemma {:induction false} Outside(s: seq<nat>, t: seq<nat>, lo: int, hi: int)
    requires Rearranged(s, t, lo, hi)
    ensures forall k | 0 <= k < |s| && !(lo <= k < hi) :: t[k] == s[k]
  {
    forall k | 0 <= k < |s| && !(lo <= k < hi)
      ensures t[k] == s[k]
    {
      if k < lo { assert s[..lo][k] == t[..lo][k]; }
      else { assert s[hi..][k - hi] == t[hi..][k - hi]; }
    }
  }

  /** Rearranging a smaller segment rearranges a larger one. */
  lemma {:induction false} Widen(s: seq<nat>, t: seq<nat>, lo: int, hi: int, lo0: int, hi0: int)
    requires Rearranged(s, t, lo, hi) && 0 <= lo0 <= lo && hi <= hi0 <= |s|
    ensures Rearranged(s, t, lo0, hi0)
  {
    Outside(s, t, lo, hi);
    assert s[lo0..hi0] == s[lo0..lo] + s[lo..hi] + s[hi..hi0];
    assert t[lo0..hi0] == t[lo0..lo] + t[lo..hi] + t[hi..hi0];
    assert s[lo0..lo] == t[lo0..lo] && s[hi..hi0] == t[hi..hi0];
    assert s[..lo0] == t[..lo0] && s[hi0..] == t[hi0..];
  }

  /** A rearranged segment has the same members. */
  lemma {:induction false} Member(s: seq<nat>, t: seq<nat>, lo: int, hi: int, k: int) returns (j: int)
    requires Rearranged(s, t, lo, hi) && lo <= k < hi
    ensures lo <= j < hi && s[j] == t[k]
  {
    assert t[lo..hi][k - lo] == t[k];
    assert t[k] in multiset(t[lo..hi]);
    assert t[k] in s[lo..hi];
    var m :| 0 <= m < hi - lo && s[lo..hi][m] == t[k];
    j := lo + m;
  }

  /** Bounds that hold on the segment, or away from it, survive. */
  lemma {:induction false} BoundsKept(s: seq<nat>, t: seq<nat>, lo: int, hi: int, p: nat)
    requires Rearranged(s, t, lo, hi)
    ensures AtMost(s, p, lo, hi) ==> AtMost(t, p, lo, hi)
    ensures AtLeast(s, p, lo, hi) ==> AtLeast(t, p, lo, hi)
  {
    forall k | lo <= k < hi
      ensures AtMost(s, p, lo, hi) ==> t[k] <= p
      ensures AtLeast(s, p, lo, hi) ==> t[k] >= p
    {
      var j := Member(s, t, lo, hi, k);
    }
  }

  function Exchanged(s: seq<nat>, i: int, j: int): (t: seq<nat>)
    requires 0 <= i < |s| && 0 <= j < |s|
    ensures |t| == |s|
  {
    s[i := s[j]][j := s[i]]
  }

  lemma {:induction false} Swapped(s: seq<nat>, i: nat, j: nat, lo: int, hi: int)
    requires 0 <= lo <= i <= j < hi <= |s|
    ensures Rearranged(s, Exchanged(s, i, j), lo, hi)
  {
    var t := Exchanged(s, i, j);
    assert t[lo..hi] == s[lo..hi][i - lo := s[j]][j - lo := s[i]];
    assert s[lo..hi][i - lo] == s[i] && s[lo..hi][j - lo] == s[j];
  }

  // ---- the partition loop ----

  /** The first round starts from the pivot's own place; after a swap the swapped elements stop the
      scans instead. */
  ghost predicate Bracketed(s: seq<nat>, p: nat, lo: int, hi: int, i: int, j: int, m: int) {
    && 0 <= lo <= m < hi <= |s| && lo <= i <= hi && lo - 1 <= j < hi
    && AtMost(s, p, lo, i) && AtLeast(s, p, j + 1, hi)
    && (i <= j ==> (i == lo && j == hi - 1 && s[m] == p) || (lo < i && j < hi - 1))
    && (i > j ==> lo < i && j < hi - 1)
  }

  lemma {:induction false} SwapBrackets(s: seq<nat>, p: nat, lo: int, hi: int, i: int, j: int, m: int)
    requires 0 <= lo <= i <= j < hi <= |s| && lo <= m < hi
    requires AtMost(s, p, lo, i) && AtLeast(s, p, j + 1, hi) && s[i] >= p && s[j] <= p
    ensures Bracketed(Exchanged(s, i, j), p, lo, hi, i + 1, j - 1, m)
  {
  }

  method Swap(v: array<u32>, i: int, j: int)
    requires 0 <= i < v.Length && 0 <= j < v.Length
    modifies v
    ensures v[..] == Exchanged(old(v[..]), i, j)
  {
    var temp := v[i];
    v[i] := v[j];
    v[j] := temp;
  }

  /** while (v[i] < p) i++, which the element at `stop` ends. */
  method ScanUp(v: array<u32>, pivot: u32, i: int, ghost lo: int, ghost stop: int) returns (k: int)
    requires 0 <= lo <= i <= stop < v.Length && v[stop] >= pivot && AtMost(v[..], pivot, lo, i)
    ensures i <= k <= stop && v[k] >= pivot && AtMost(v[..], pivot, lo, k)
  {
    k := i;
    while v[k] < pivot
      invariant i <= k <= stop && AtMost(v[..], pivot, lo, k)
      decreases stop - k
    {
      k := k + 1;
    }
  }

  /** while (v[j] > p) j--, which the element at `stop` ends. */
  method ScanDown(v: array<u32>, pivot: u32, j: int, ghost hi: int, ghost stop: int) returns (k: int)
    requires 0 <= stop <= j < hi <= v.Length && v[stop] <= pivot && AtLeast(v[..], pivot, j + 1, hi)
    ensures stop <= k <= j && v[k] <= pivot && AtLeast(v[..], pivot, k + 1, hi)
  {
    k := j;
    while v[k] > pivot
      invariant stop <= k <= j && AtLeast(v[..], pivot, k + 1, hi)
      decreases k - stop
    {
      k := k - 1;
    }
  }

  /** The loop that both programs share, on the segment from lo to hi - 1. */
  method Partition(v: array<u32>, lo: int, hi: int) returns (i: int, j: int, ghost p: nat)
    requires 0 <= lo && lo + 1 < hi <= v.Length
    modifies v
    ensures Rearranged(old(v[..]), v[..], lo, hi)
    ensures lo < i <= hi && lo - 1 <= j < hi - 1 && j < i
    ensures AtMost(v[..], p, lo, i) && AtLeast(v[..], p, j + 1, hi)
  {
    ghost var m := (lo + hi - 1) / 2;
    var pivot := v[(lo + hi - 1) / 2];
    p := pivot;
    i, j := lo, hi - 1;
    Itself(v[..], lo, hi);
    hide Rearranged, Exchanged;
    while i <= j
      invariant Bracketed(v[..], p, lo, hi, i, j, m)
      invariant Rearranged(old(v[..]), v[..], lo, hi)
      decreases j - i
    {
      ghost var s := v[..];
      ghost var i0 := i;
      i := ScanUp(v, pivot, i, lo, if j < hi - 1 then j + 1 else m);
      j := ScanDown(v, pivot, j, hi, if lo < i0 then i0 - 1 else m);
      if i <= j {
        Swapped(s, i, j, lo, hi);
        SwapBrackets(s, p, lo, hi, i, j, m);
        Again(old(v[..]), s, Exchanged(s, i, j), lo, hi);
        Swap(v, i, j);
        i := i + 1;
        j := j - 1;
      }
    }
  }

  // ---- recursion on both sides ----

  lemma {:induction false} SortedMoved(s: seq<nat>, t: seq<nat>, lo: int, hi: int, lo1: int, hi1: int)
    requires Rearranged(s, t, lo, hi) && Sorted(s, lo1, hi1) && (hi1 <= lo || hi <= lo1)
    ensures Sorted(t, lo1, hi1)
  {
    Outside(s, t, lo, hi);
  }

  /** Two sorted sides around a middle of pivots. */
  lemma {:induction false} Assemble(s: seq<nat>, p: nat, lo: int, hi: int, i: int, j: int)
    requires 0 <= lo < i <= hi <= |s| && lo - 1 <= j < hi - 1 && j < i
    requires AtMost(s, p, lo, i) && AtLeast(s, p, j + 1, hi)
    requires Sorted(s, lo, j + 1) && Sorted(s, i, hi)
    ensures Sorted(s, lo, hi)
  {
  }

  /** Sorting one side keeps the bounds of both. */
  lemma {:induction false} SideKept(s: seq<nat>, t: seq<nat>, p: nat, lo: int, hi: int, i: int, j: int, a: int, b: int)
    requires Rearranged(s, t, a, b) && 0 <= lo < i <= hi <= |s| && lo - 1 <= j < hi - 1 && j < i
    requires AtMost(s, p, lo, i) && AtLeast(s, p, j + 1, hi)
    requires (a == lo && b == j + 1) || (a == i && b == hi)
    ensures AtMost(t, p, lo, i) && AtLeast(t, p, j + 1, hi) && Rearranged(s, t, lo, hi)
  {
    Outside(s, t, a, b);
    BoundsKept(s, t, a, b, p);
    Widen(s, t, a, b, lo, hi);
  }

  /** Sorting both sides of a partitioned segment, one after the other, sorts the segment. */
  lemma {:induction false} SidesSorted(s0: seq<nat>, s1: seq<nat>, s2: seq<nat>, s3: seq<nat>, p: nat, lo: int,
      hi: int, i: int, j: int)
    requires Rearranged(s0, s1, lo, hi) && 0 <= lo < i <= hi <= |s1| && lo - 1 <= j < hi - 1 && j < i
    requires AtMost(s1, p, lo, i) && AtLeast(s1, p, j + 1, hi)
    requires Rearranged(s1, s2, lo, j + 1) && Sorted(s2, lo, j + 1)
    requires |s2| == |s1| && Rearranged(s2, s3, i, hi) && Sorted(s3, i, hi)
    ensures Rearranged(s0, s3, lo, hi) && Sorted(s3, lo, hi)
  {
    Lengths(s1, s2, lo, j + 1);
    Lengths(s2, s3, i, hi);
    hide Rearranged, AtMost, AtLeast, Sorted;
    SideKept(s1, s2, p, lo, hi, i, j, lo, j + 1);
    SideKept(s2, s3, p, lo, hi, i, j, i, hi);
    SortedMoved(s2, s3, i, hi, lo, j + 1);
    Assemble(s3, p, lo, hi, i, j);
    Again(s0, s1, s2, lo, hi);
    Again(s0, s2, s3, lo, hi);
  }

  lemma Lengths(s: seq<nat>, t: seq<nat>, lo: int, hi: int)
    requires Rearranged(s, t, lo, hi)
    ensures |t| == |s|
  {
  }

  /** A segment that is sorted already because it has at most one element. */
  lemma {:induction false} NothingToSort(s: seq<nat>, lo: int, hi: int)
    requires 0 <= lo <= hi <= |s| && hi <= lo + 1
    ensures Rearranged(s, s, lo, hi) && Sorted(s, lo, hi)
  {
  }

  /** programs/c/quick_sort.c, with `right` inclusive as there. */
  method QuickSort(v: array<u32>, left: int, right: int)
    requires 0 <= left <= v.Length && left - 1 <= right < v.Length
    modifies v
    ensures Rearranged(old(v[..]), v[..], left, right + 1) && Sorted(v[..], left, right + 1)
    decreases right - left
  {
    hide Rearranged, AtMost, AtLeast, Sorted;
    if left >= right {
      NothingToSort(v[..], left, right + 1);
      return;
    }
    var hi := right + 1;
    ghost var s0 := v[..];
    var i, j, p := Partition(v, left, hi);
    ghost var s1 := v[..];
    if left < j { QuickSort(v, left, j); } else { NothingToSort(s1, left, j + 1); }
    ghost var s2 := v[..];
    if i < right { QuickSort(v, i, right); } else { NothingToSort(s2, i, hi); }
    SidesSorted(s0, s1, s2, v[..], p, left, hi, i, j);
  }

  // ---- recursion on the smaller side only ----

  /** Only pairs inside the open segment, from lo up to and not including hi, may still be out of order. */
  ghost predicate OrderedAround(s: seq<nat>, lo0: int, hi0: int, lo: int, hi: int) {
    forall x, y | 0 <= lo0 <= x < y < hi0 <= |s| && !(lo <= x && y < hi) :: s[x] <= s[y]
  }

  lemma {:induction false} AroundKept(s: seq<nat>, t: seq<nat>, lo0: int, hi0: int, lo: int, hi: int)
    requires OrderedAround(s, lo0, hi0, lo, hi) && Rearranged(s, t, lo, hi) && 0 <= lo0 <= lo && hi <= hi0 <= |s|
    ensures OrderedAround(t, lo0, hi0, lo, hi)
  {
    Outside(s, t, lo, hi);
    forall x, y | lo0 <= x < y < hi0 && !(lo <= x && y < hi)
      ensures t[x] <= t[y]
    {
      if lo <= x < hi { var j := Member(s, t, lo, hi, x); }
      else if lo <= y < hi { var j := Member(s, t, lo, hi, y); }
    }
  }

  /** After the partition and the sort of one side, only the other side is open. */
  lemma {:induction false} Narrow(s: seq<nat>, p: nat, lo0: int, hi0: int, lo: int, hi: int, i: int, j: int)
    requires 0 <= lo0 <= lo < i <= hi <= hi0 <= |s| && lo - 1 <= j < hi - 1 && j < i
    requires OrderedAround(s, lo0, hi0, lo, hi) && AtMost(s, p, lo, i) && AtLeast(s, p, j + 1, hi)
    ensures Sorted(s, lo, j + 1) ==> OrderedAround(s, lo0, hi0, i, hi)
    ensures Sorted(s, i, hi) ==> OrderedAround(s, lo0, hi0, lo, j + 1)
  {
  }

  /** Depths that fit: a call on n elements recurses at most log2 n deep. */
  ghost predicate Shallow(depth: nat, n: int) {
    Pow2(depth) <= if n < 1 then 1 else n
  }

  lemma {:induction false} Deeper(depth: nat, small: int, n: int)
    requires Shallow(depth, small) && n >= 2 && 2 * small <= n
    ensures Shallow(depth + 1, n)
  {
  }

  lemma {:induction false} NotDeep(n: int)
    ensures Shallow(0, n)
  {
  }

  /** workloads/qsort.c. `depth` counts the recursive calls nested below this one. */
  method SortSmallerSide(v: array<u32>, lo0: int, hi0: int) returns (ghost depth: nat)
    requires 0 <= lo0 <= v.Length && lo0 - 1 <= hi0 < v.Length
    modifies v
    ensures Rearranged(old(v[..]), v[..], lo0, hi0 + 1) && Sorted(v[..], lo0, hi0 + 1)
    ensures Shallow(depth, hi0 - lo0 + 1)
    decreases hi0 - lo0, 0
  {
    var lo, hi := lo0, hi0;
    depth := 0;
    NotDeep(hi0 - lo0 + 1);
    ghost var end := hi0 + 1;
    ghost var s0 := v[..];
    Itself(s0, lo0, end);
    assert OrderedAround(s0, lo0, end, lo, hi + 1);
    hide Rearranged, AtMost, AtLeast, Sorted, OrderedAround, Shallow;
    while lo < hi
      invariant lo0 <= lo && lo - 1 <= hi <= hi0
      invariant Rearranged(s0, v[..], lo0, end) && OrderedAround(v[..], lo0, end, lo, hi + 1)
      invariant Shallow(depth, hi0 - lo0 + 1)
      decreases hi - lo
    {
      ghost var d := 0;
      ghost var s1 := v[..];
      lo, hi, d := SortOneSide(v, lo0, end, lo, hi);
      Again(s0, s1, v[..], lo0, end);
      if d > depth { depth := d; }
    }
    Closed(v[..], lo0, end, lo, hi + 1);
  }

  lemma {:induction false} Closed(s: seq<nat>, lo0: int, hi0: int, lo: int, hi: int)
    requires OrderedAround(s, lo0, hi0, lo, hi) && hi <= lo + 1
    ensures Sorted(s, lo0, hi0)
  {
  }

  /** The body of the outer loop: partition, recurse on the smaller side, keep the other. */
  method SortOneSide(v: array<u32>, ghost lo0: int, ghost end: int, lo: int, hi: int)
    returns (lo1: int, hi1: int, ghost depth: nat)
    requires 0 <= lo0 <= lo < hi < end <= v.Length && OrderedAround(v[..], lo0, end, lo, hi + 1)
    modifies v
    ensures lo <= lo1 && lo1 - 1 <= hi1 <= hi && hi1 - lo1 < hi - lo
    ensures Rearranged(old(v[..]), v[..], lo0, end) && OrderedAround(v[..], lo0, end, lo1, hi1 + 1)
    ensures Shallow(depth, end - lo0)
    decreases hi - lo, -1
  {
    ghost var s1 := v[..];
    var i, j, p := Partition(v, lo, hi + 1);
    ghost var s2 := v[..];
    hide Rearranged, AtMost, AtLeast, Sorted, OrderedAround, Shallow;
    AroundKept(s1, s2, lo0, end, lo, hi + 1);
    Widen(s1, s2, lo, hi + 1, lo0, end);
    if j - lo < hi - i {
      depth := SortLeft(v, lo0, end, lo, hi, i, j, p);
      lo1, hi1 := i, hi;
    } else {
      depth := SortRight(v, lo0, end, lo, hi, i, j, p);
      lo1, hi1 := lo, j;
    }
    Again(s1, s2, v[..], lo0, end);
  }

  method SortLeft(v: array<u32>, ghost lo0: int, ghost end: int, lo: int, ghost hi: int, ghost i: int, j: int,
      ghost p: nat) returns (ghost depth: nat)
    requires 0 <= lo0 <= lo < i <= hi + 1 <= end <= v.Length && lo < hi && lo - 1 <= j < hi && j < i && j - lo < hi - i
    requires OrderedAround(v[..], lo0, end, lo, hi + 1) && AtMost(v[..], p, lo, i) && AtLeast(v[..], p, j + 1, hi + 1)
    modifies v
    ensures Rearranged(old(v[..]), v[..], lo0, end) && OrderedAround(v[..], lo0, end, i, hi + 1)
    ensures Shallow(depth, end - lo0)
    decreases j - lo, 1
  {
    hide Rearranged, AtMost, AtLeast, Sorted, OrderedAround, Shallow;
    depth := SortSmallerSide(v, lo, j);
    LeftDone(old(v[..]), v[..], p, lo0, end, lo, hi + 1, i, j);
    Deeper(depth, j - lo + 1, end - lo0);
    depth := depth + 1;
  }

  method SortRight(v: array<u32>, ghost lo0: int, ghost end: int, ghost lo: int, hi: int, i: int, ghost j: int,
      ghost p: nat) returns (ghost depth: nat)
    requires 0 <= lo0 <= lo < i <= hi + 1 <= end <= v.Length && lo < hi && lo - 1 <= j < hi && j < i && j - lo >= hi - i
    requires OrderedAround(v[..], lo0, end, lo, hi + 1) && AtMost(v[..], p, lo, i) && AtLeast(v[..], p, j + 1, hi + 1)
    modifies v
    ensures Rearranged(old(v[..]), v[..], lo0, end) && OrderedAround(v[..], lo0, end, lo, j + 1)
    ensures Shallow(depth, end - lo0)
    decreases hi - i, 1
  {
    hide Rearranged, AtMost, AtLeast, Sorted, OrderedAround, Shallow;
    depth := SortSmallerSide(v, i, hi);
    RightDone(old(v[..]), v[..], p, lo0, end, lo, hi + 1, i, j);
    Deeper(depth, hi - i + 1, end - lo0);
    depth := depth + 1;
  }

  lemma {:induction false} LeftDone(s: seq<nat>, t: seq<nat>, p: nat, lo0: int, end: int, lo: int, hi: int, i: int,
      j: int)
    requires OrderedAround(s, lo0, end, lo, hi) && Rearranged(s, t, lo, j + 1) && Sorted(t, lo, j + 1)
    requires 0 <= lo0 <= lo < i <= hi <= end <= |s| && lo - 1 <= j < hi - 1 && j < i
    requires AtMost(s, p, lo, i) && AtLeast(s, p, j + 1, hi)
    ensures Rearranged(s, t, lo0, end) && OrderedAround(t, lo0, end, i, hi)
  {
    SideKept(s, t, p, lo, hi, i, j, lo, j + 1);
    AroundKept(s, t, lo0, end, lo, hi);
    Narrow(t, p, lo0, end, lo, hi, i, j);
    Widen(s, t, lo, hi, lo0, end);
  }

  lemma {:induction false} RightDone(s: seq<nat>, t: seq<nat>, p: nat, lo0: int, end: int, lo: int, hi: int, i: int,
      j: int)
    requires OrderedAround(s, lo0, end, lo, hi) && Rearranged(s, t, i, hi) && Sorted(t, i, hi)
    requires 0 <= lo0 <= lo < i <= hi <= end <= |s| && lo - 1 <= j < hi - 1 && j < i
    requires AtMost(s, p, lo, i) && AtLeast(s, p, j + 1, hi)
    ensures Rearranged(s, t, lo0, end) && OrderedAround(t, lo0, end, lo, j + 1)
  {
    SideKept(s, t, p, lo, hi, i, j, i, hi);
    AroundKept(s, t, lo0, end, lo, hi);
    Narrow(t, p, lo0, end, lo, hi, i, j);
    Widen(s, t, lo, hi, lo0, end);
  }
}
