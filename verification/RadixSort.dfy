/** The two radix sorts of the guest programs: placed from the back and copied back
    (programs/c/radix_sort.c), and ping-pong between two arrays
    (collegereport/demo/experiment_scripts/workloads/radix.c). */
module RadixSort {
  import opened GuestWords
  import opened RadixSpec

  /** The first j digits are summed, the others still counts. */
  ghost predicate Summed(count: seq<nat>, s: seq<nat>, p: nat, j: nat) {
    |count| == 256 && forall d | 0 <= d < 256 ::
      count[d] == if d < j then |Buckets(s, p, d + 1)| else |Bucket(s, p, d)|
  }

  ghost predicate Histogram(count: seq<nat>, s: seq<nat>, p: nat) {
    |count| == 256 && forall d | 0 <= d < 256 :: count[d] == |Bucket(s, p, d)|
  }

  /** Where each bucket has got to when the elements from i on are placed from the back, which is
      also where it has got to when those before i are placed from the front. */
  ghost predicate Offsets(count: seq<nat>, s: seq<nat>, p: nat, i: nat)
    requires i <= |s|
  {
    |count| == 256 && forall d | 0 <= d < 256 :: count[d] == |Buckets(s, p, d)| + |Bucket(s[..i], p, d)|
  }

  lemma {:induction false} BucketSnoc(s: seq<nat>, p: nat, d: nat, i: nat)
    requires i < |s|
    ensures Bucket(s[..i + 1], p, d) == Bucket(s[..i], p, d) + if Digit(s[i], p) == d then [s[i]] else []
  {
    assert s[..i + 1][..i] == s[..i];
  }

  method CountDigits(a: array<u32>, p: nat, count: array<nat>)
    requires count.Length == 256
    modifies count
    ensures Histogram(count[..], a[..], p)
  {
    var i := 0;
    while i < 256
      invariant 0 <= i <= 256
      invariant forall d | 0 <= d < i :: count[d] == 0
    {
      count[i] := 0;
      i := i + 1;
    }
    i := 0;
    while i < a.Length
      invariant 0 <= i <= a.Length
      invariant Histogram(count[..], a[..i], p)
    {
      forall d | 0 <= d < 256
        ensures |Bucket(a[..i + 1], p, d)| == |Bucket(a[..i], p, d)| + if Digit(a[i], p) == d then 1 else 0
      {
        assert a[..][..i + 1] == a[..i + 1] && a[..][..i] == a[..i];
        BucketSnoc(a[..], p, d, i);
      }
      count[Digit(a[i], p)] := count[Digit(a[i], p)] + 1;
      i := i + 1;
    }
    assert a[..a.Length] == a[..];
  }

  /** count[i] += count[i - 1]. */
  method SumBefore(count: array<nat>, ghost s: seq<nat>, ghost p: nat)
    requires count.Length == 256 && Histogram(count[..], s, p)
    modifies count
    ensures Offsets(count[..], s, p, |s|)
  {
    assert Buckets(s, p, 0) == [] && Buckets(s, p, 1) == Buckets(s, p, 0) + Bucket(s, p, 0);
    var i := 1;
    while i < 256
      invariant 1 <= i <= 256
      invariant Summed(count[..], s, p, i)
    {
      assert Buckets(s, p, i + 1) == Buckets(s, p, i) + Bucket(s, p, i);
      count[i] := count[i] + count[i - 1];
      i := i + 1;
    }
    assert s[..|s|] == s;
    forall d | 0 <= d < 256
      ensures |Buckets(s, p, d + 1)| == |Buckets(s, p, d)| + |Bucket(s, p, d)|
    {
    }
  }

  ghost predicate PlacedFrom(t: seq<nat>, s: seq<nat>, p: nat, i: nat)
    requires i <= |s| && |t| == |s|
  {
    forall j | i <= j < |s| :: Place(s, p, j) < |t| && t[Place(s, p, j)] == s[j]
  }

  ghost predicate PlacedUpTo(t: seq<nat>, s: seq<nat>, p: nat, i: nat)
    requires i <= |s| && |t| == |s|
  {
    forall j | 0 <= j < i :: Place(s, p, j) < |t| && t[Place(s, p, j)] == s[j]
  }

  lemma {:induction false} PlaceNext(t: seq<nat>, s: seq<nat>, p: nat, i: nat)
    requires i < |s| && |t| == |s|
    ensures Place(s, p, i) < |t|
    ensures PlacedFrom(t, s, p, i + 1) ==> PlacedFrom(t[Place(s, p, i) := s[i]], s, p, i)
    ensures PlacedUpTo(t, s, p, i) ==> PlacedUpTo(t[Place(s, p, i) := s[i]], s, p, i + 1)
  {
    PassAt(s, p, i);
    forall j | 0 <= j < |s| && j != i
      ensures Place(s, p, j) != Place(s, p, i)
    {
      if i < j { PlacesDiffer(s, p, i, j); } else { PlacesDiffer(s, p, j, i); }
    }
    hide Place;
  }

  lemma {:induction false} OffsetsStep(count: seq<nat>, s: seq<nat>, p: nat, i: nat)
    requires i < |s| && |count| == 256
    ensures Offsets(count, s, p, i + 1) ==> var d := Digit(s[i], p);
      count[d] == Place(s, p, i) + 1 && Offsets(count[d := count[d] - 1], s, p, i)
    ensures Offsets(count, s, p, i) ==> var d := Digit(s[i], p);
      count[d] == Place(s, p, i) && Offsets(count[d := count[d] + 1], s, p, i + 1)
  {
    forall d | 0 <= d < 256
      ensures |Bucket(s[..i + 1], p, d)| == |Bucket(s[..i], p, d)| + if Digit(s[i], p) == d then 1 else 0
    {
      BucketSnoc(s, p, d, i);
    }
    hide Bucket, Buckets, Digit;
  }

  /** Stable placement from the back: temp[--count[digit]] = arr[i]. */
  method PlaceFromBack(a: array<u32>, temp: array<u32>, p: nat, count: array<nat>)
    requires count.Length == 256 && temp.Length == a.Length && temp != a && Offsets(count[..], a[..], p, a.Length)
    modifies temp, count
    ensures temp[..] == Pass(a[..], p)
  {
    ghost var s := a[..];
    hide Offsets, PlacedFrom, Place, Digit, Pass;
    var i := a.Length;
    PlacedNone(temp[..], s, p);
    while i > 0
      invariant 0 <= i <= a.Length && a[..] == s
      invariant Offsets(count[..], s, p, i) && PlacedFrom(temp[..], s, p, i)
    {
      i := i - 1;
      OffsetsStep(count[..], s, p, i);
      PlaceNext(temp[..], s, p, i);
      var digit := Digit(a[i], p);
      var place := count[digit] - 1;
      assert place == Place(s, p, i);
      count[digit] := place;
      temp[place] := a[i];
    }
    AllPlaced(temp[..], s, p);
  }

  /** Stable placement from the front: dst[cnt[digit]++] = src[i]. */
  method PlaceFromFront(src: array<u32>, dst: array<u32>, p: nat, cnt: array<nat>)
    requires cnt.Length == 256 && dst.Length == src.Length && dst != src && Offsets(cnt[..], src[..], p, 0)
    modifies dst, cnt
    ensures dst[..] == Pass(src[..], p)
  {
    ghost var s := src[..];
    hide Offsets, PlacedUpTo, Place, Digit, Pass;
    var i := 0;
    PlacedNone(dst[..], s, p);
    while i < src.Length
      invariant 0 <= i <= src.Length && src[..] == s
      invariant Offsets(cnt[..], s, p, i) && PlacedUpTo(dst[..], s, p, i)
    {
      OffsetsStep(cnt[..], s, p, i);
      PlaceNext(dst[..], s, p, i);
      var digit := Digit(src[i], p);
      dst[cnt[digit]] := src[i];
      cnt[digit] := cnt[digit] + 1;
      i := i + 1;
    }
    AllPlaced(dst[..], s, p);
  }

  lemma PlacedNone(t: seq<nat>, s: seq<nat>, p: nat)
    requires |t| == |s|
    ensures PlacedFrom(t, s, p, |s|) && PlacedUpTo(t, s, p, 0)
  {
  }

  lemma {:induction false} AllPlaced(t: seq<nat>, s: seq<nat>, p: nat)
    requires |t| == |s|
    ensures PlacedFrom(t, s, p, 0) || PlacedUpTo(t, s, p, |s|) ==> t == Pass(s, p)
  {
    if PlacedFrom(t, s, p, 0) || PlacedUpTo(t, s, p, |s|) { PlacedIsPass(s, p, t); }
  }

  /** Exclusive prefix sums: each count becomes the sum of those before it. */
  method SumExclusive(cnt: array<nat>, ghost s: seq<nat>, ghost p: nat)
    requires cnt.Length == 256 && Histogram(cnt[..], s, p)
    modifies cnt
    ensures Offsets(cnt[..], s, p, 0)
  {
    NoneBefore(s, p);
    hide Buckets, Bucket;
    var sum, i := 0, 0;
    while i < 256
      invariant 0 <= i <= 256 && sum == |Buckets(s, p, i)|
      invariant forall d | 0 <= d < 256 :: cnt[d] == if d < i then |Buckets(s, p, d)| else |Bucket(s, p, d)|
    {
      NextBucket(s, p, i);
      var c := cnt[i];
      cnt[i] := sum;
      sum := sum + c;
      i := i + 1;
    }
  }

  lemma NextBucket(s: seq<nat>, p: nat, d: nat)
    ensures |Buckets(s, p, d + 1)| == |Buckets(s, p, d)| + |Bucket(s, p, d)|
  {
  }

  lemma NoneBefore(s: seq<nat>, p: nat)
    ensures Buckets(s, p, 0) == []
    ensures forall d: nat :: Bucket(s[..0], p, d) == []
  {
  }

  method CopyBack(arr: array<u32>, temp: array<u32>)
    requires temp.Length == arr.Length && temp != arr
    modifies arr
    ensures arr[..] == temp[..]
  {
    var i := 0;
    while i < arr.Length
      invariant 0 <= i <= arr.Length
      invariant arr[..i] == temp[..i]
    {
      arr[i] := temp[i];
      i := i + 1;
    }
  }

  /** Four passes, each copied back: the array ends as its stable sort. */
  method RadixSortInPlace(arr: array<u32>, temp: array<u32>)
    requires temp.Length == arr.Length && temp != arr
    modifies arr, temp
    ensures arr[..] == Passes(old(arr[..]), 4)
  {
    var count := new nat[256](_ => 0);
    var pass := 0;
    while pass < 4
      invariant 0 <= pass <= 4 && arr[..] == Passes(old(arr[..]), pass)
    {
      CountDigits(arr, pass, count);
      SumBefore(count, arr[..], pass);
      PlaceFromBack(arr, temp, pass, count);
      CopyBack(arr, temp);
      pass := pass + 1;
    }
  }

  /** Four passes between two arrays. After an even number of swaps the result is in the first. */
  method RadixSortPingPong(a: array<u32>, b: array<u32>)
    requires b.Length == a.Length && b != a
    modifies a, b
    ensures a[..] == Passes(old(a[..]), 4)
  {
    var cnt := new nat[256](_ => 0);
    var src, dst := a, b;
    var pass := 0;
    while pass < 4
      invariant 0 <= pass <= 4
      invariant if pass % 2 == 0 then src == a && dst == b else src == b && dst == a
      invariant src[..] == Passes(old(a[..]), pass)
    {
      CountDigits(src, pass, cnt);
      SumExclusive(cnt, src[..], pass);
      PlaceFromFront(src, dst, pass, cnt);
      src, dst := dst, src;
      pass := pass + 1;
    }
  }
}
