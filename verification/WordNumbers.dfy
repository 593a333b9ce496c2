/** The 32-bit words of mathematical integers: sums, residues and order. */
module WordNumbers {
  import opened Arithmetic
  import opened Words
  import opened Alu

  // ---- numbers as words ----

  function Plus(p: Word, q: Word): Word { p + q }

  /** The word of a number: count up from 0, or down. */
  function AsWord(v: int): Word
    decreases if v < 0 then -v else v
  {
    if v == 0 then 0 else if v > 0 then Plus(AsWord(v - 1), 1) else Plus(AsWord(v + 1), 0xFFFF_FFFF)
  }

  function Minus(w: Word): Word { 0 - w }

  lemma Zeros(p: Word)
    ensures Plus(p, 0) == p == Plus(0, p)
  {
  }

  lemma Associates(p: Word, q: Word, r: Word)
    ensures Plus(Plus(p, q), r) == Plus(p, Plus(q, r))
  {
    hide Plus;
    Regrouped(p, q, r);
    Inner(p, q);
    Inner(q, r);
  }

  lemma Regrouped(p: Word, q: Word, r: Word)
    ensures Plus(p + q, r) == Plus(p, q + r)
  {
  }

  lemma Inner(p: Word, q: Word)
    ensures Plus(p, q) == p + q
  {
  }

  lemma Counted(v: int, w: Word)
    requires AsWord(v) == w
    ensures AsWord(v + 1) == Plus(w, 1)
  {
    hide Plus;
    if v < 0 {
      assert w == Plus(AsWord(v + 1), 0xFFFF_FFFF);
      Associates(AsWord(v + 1), 0xFFFF_FFFF, 1);
      AroundTheEnd();
      Zeros(AsWord(v + 1));
    }
  }

  lemma AroundTheEnd()
    ensures Plus(0xFFFF_FFFF, 1) == 0 == Plus(1, 0xFFFF_FFFF)
  {
  }

  lemma {:induction false} CountedDown(v: int)
    ensures AsWord(v - 1) == Plus(AsWord(v), 0xFFFF_FFFF)
  {
    hide Plus;
    if v > 0 {
      assert AsWord(v) == Plus(AsWord(v - 1), 1);
      Associates(AsWord(v - 1), 1, 0xFFFF_FFFF);
      AroundTheEnd();
      Zeros(AsWord(v - 1));
    }
  }

  lemma {:induction false} Sum(a: int, b: int)
    ensures AsWord(a + b) == Plus(AsWord(a), AsWord(b))
    decreases if b < 0 then -b else b
  {
    hide Plus;
    Zeros(AsWord(a));
    if b > 0 {
      Sum(a, b - 1);
      Counted(a + b - 1, AsWord(a + b - 1));
      Associates(AsWord(a), AsWord(b - 1), 1);
    } else if b < 0 {
      Sum(a, b + 1);
      CountedDown(a + b + 1);
      Associates(AsWord(a), AsWord(b + 1), 0xFFFF_FFFF);
    }
  }

  lemma Opposite(v: int)
    ensures AsWord(-v) == Minus(AsWord(v))
  {
    hide AsWord, Plus, Minus;
    var x, y := AsWord(-v), AsWord(v);
    Sum(-v, v);
    UpTo8();
    Associates(x, y, Minus(y));
    Cancels(y);
    Zeros(x);
    Zeros(Minus(y));
  }

  lemma Cancels(w: Word)
    ensures Plus(w, Minus(w)) == 0
  {
  }

  lemma UpTo8()
    ensures AsWord(0) == 0 && AsWord(1) == 1 && AsWord(2) == 2 && AsWord(3) == 3 && AsWord(4) == 4 && AsWord(5) == 5
    ensures AsWord(6) == 6 && AsWord(7) == 7 && AsWord(8) == 8
  {
    Counted(0, 0); Counted(1, 1); Counted(2, 2); Counted(3, 3); Counted(4, 4); Counted(5, 5); Counted(6, 6);
    Counted(7, 7);
    hide AsWord;
  }

  lemma UpTo16()
    ensures AsWord(9) == 9 && AsWord(10) == 10 && AsWord(11) == 11 && AsWord(12) == 12 && AsWord(13) == 13
    ensures AsWord(14) == 14 && AsWord(15) == 15 && AsWord(16) == 16
  {
    UpTo8();
    Counted(8, 8); Counted(9, 9); Counted(10, 10); Counted(11, 11); Counted(12, 12); Counted(13, 13); Counted(14, 14);
    Counted(15, 15);
    hide AsWord;
  }

  lemma UpTo31()
    ensures AsWord(17) == 17 && AsWord(18) == 18 && AsWord(19) == 19 && AsWord(20) == 20 && AsWord(21) == 21
    ensures AsWord(22) == 22 && AsWord(23) == 23 && AsWord(24) == 24 && AsWord(25) == 25 && AsWord(26) == 26
    ensures AsWord(27) == 27 && AsWord(28) == 28 && AsWord(29) == 29 && AsWord(30) == 30 && AsWord(31) == 31
  {
    UpTo16();
    Counted(16, 16); Counted(17, 17); Counted(18, 18); Counted(19, 19); Counted(20, 20);
    Counted(21, 21); Counted(22, 22); Counted(23, 23); Counted(24, 24); Counted(25, 25);
    Counted(26, 26); Counted(27, 27); Counted(28, 28); Counted(29, 29); Counted(30, 30);
    hide AsWord;
  }

  function Two(w: Word): Word { Plus(w, w) }

  /** The cast of a long to int: the number in the range of an int32_t with the same residue. */
  function Wrap(v: int): int { (v + 0x8000_0000) % 0x1_0000_0000 - 0x8000_0000 }

  lemma Doubling(n: nat, w: Word)
    requires AsWord(n) == w
    ensures AsWord(2 * n) == Plus(w, w)
  {
    Sum(n, n);
  }

  // ---- ranges ----

  /** All ones in the low k bits. */
  function Mask(k: nat): Word { if k == 0 then 0 else Twice(Mask(k - 1), 1) }

  function Twice(w: Word, bit: Word): Word { Plus(Two(w), bit) }

  function Bit(n: nat): Word { if n % 2 == 1 then 1 else 0 }

  lemma {:induction false} Halved(n: nat)
    ensures AsWord(n) == Twice(AsWord(n / 2), Bit(n))
  {
    hide Plus, AsWord;
    UpTo8();
    Sum(n / 2, n / 2);
    Sum(n / 2 + n / 2, n % 2);
  }

  predicate Under(v: Word, w: Word) { v < w }

  predicate Room(m: Word) { m <= 0x7FFF_FFFF }

  lemma MaskStep(w: Word, m: Word, bit: Word)
    requires Room(m) && (w == m || Under(w, m)) && (bit == 0 || bit == 1)
    ensures Twice(w, bit) == Twice(m, 1) || Under(Twice(w, bit), Twice(m, 1))
    ensures Under(w, m) || bit == 0 ==> Under(Twice(w, bit), Twice(m, 1))
  {
  }
  lemma Longer(k: nat, m: Word)
    requires Mask(k) == m
    ensures Mask(k + 1) == Twice(m, 1)
  {
    hide Twice;
  }

  lemma NoMask()
    ensures Mask(0) == 0
  {
  }

  lemma ShortMasks()
    ensures Mask(1) == 0x1 && Mask(2) == 0x3 && Mask(3) == 0x7 && Mask(4) == 0xF
    ensures Mask(5) == 0x1F && Mask(6) == 0x3F && Mask(7) == 0x7F && Mask(8) == 0xFF
    ensures Mask(9) == 0x1FF && Mask(10) == 0x3FF && Mask(11) == 0x7FF && Mask(12) == 0xFFF
    ensures Mask(13) == 0x1FFF && Mask(14) == 0x3FFF && Mask(15) == 0x7FFF && Mask(16) == 0xFFFF
  {
    hide Mask;
    NoMask();
    Longer(0, 0x0); Longer(1, 0x1); Longer(2, 0x3); Longer(3, 0x7);
    Longer(4, 0xF); Longer(5, 0x1F); Longer(6, 0x3F); Longer(7, 0x7F);
    Longer(8, 0xFF); Longer(9, 0x1FF); Longer(10, 0x3FF); Longer(11, 0x7FF);
    Longer(12, 0xFFF); Longer(13, 0x1FFF); Longer(14, 0x3FFF); Longer(15, 0x7FFF);
  }

  lemma LongMasks()
    ensures Mask(17) == 0x1FFFF && Mask(18) == 0x3FFFF && Mask(19) == 0x7FFFF && Mask(20) == 0xFFFFF
    ensures Mask(21) == 0x1FFFFF && Mask(22) == 0x3FFFFF && Mask(23) == 0x7FFFFF && Mask(24) == 0xFFFFFF
    ensures Mask(25) == 0x1FFFFFF && Mask(26) == 0x3FFFFFF && Mask(27) == 0x7FFFFFF && Mask(28) == 0xFFFFFFF
    ensures Mask(29) == 0x1FFFFFFF && Mask(30) == 0x3FFFFFFF && Mask(31) == 0x7FFFFFFF && Mask(32) == 0xFFFFFFFF
  {
    hide Mask;
    ShortMasks();
    Longer(16, 0xFFFF); Longer(17, 0x1FFFF); Longer(18, 0x3FFFF); Longer(19, 0x7FFFF);
    Longer(20, 0xFFFFF); Longer(21, 0x1FFFFF); Longer(22, 0x3FFFFF); Longer(23, 0x7FFFFF);
    Longer(24, 0xFFFFFF); Longer(25, 0x1FFFFFF); Longer(26, 0x3FFFFFF); Longer(27, 0x7FFFFFF);
    Longer(28, 0xFFFFFFF); Longer(29, 0x1FFFFFFF); Longer(30, 0x3FFFFFFF); Longer(31, 0x7FFFFFFF);
  }

  lemma MaskSmall(k: nat)
    requires k < 32
    ensures Room(Mask(k))
  {
    hide Mask;
    NoMask();
    ShortMasks();
    LongMasks();
  }

  /** A number of k bits. */
  lemma {:induction false} Below(n: nat, k: nat)
    requires k <= 32 && n < Pow2(k)
    ensures AsWord(n) == Mask(k) || Under(AsWord(n), Mask(k))
    ensures n < Pow2(k) - 1 ==> Under(AsWord(n), Mask(k))
  {
    hide Plus, AsWord, Twice, Bit, Under, Room;
    if k == 0 {
      UpTo8();
    } else {
      Below(n / 2, k - 1);
      MaskSmall(k - 1);
      Halved(n);
      Bits(n);
      MaskStep(AsWord(n / 2), Mask(k - 1), Bit(n));
    }
  }

  lemma Bits(n: nat)
    ensures Bit(n) == if n % 2 == 0 then 0 else 1
  {
  }

  lemma NotLast(n: nat)
    requires n < 0xFFFF_FFFF
    ensures AsWord(n) != 0xFFFF_FFFF
  {
    hide AsWord, Mask;
    assert Pow2(32) == 0x1_0000_0000 by { Powers(); }
    Below(n, 32);
    LongMasks();
  }

  lemma Powers()
    ensures Pow2(32) == 0x1_0000_0000
  {
    assert Pow2(8) == 256;
    assert Pow2(16) == 65536;
    assert Pow2(24) == 0x100_0000;
  }

  /** Counting up is strictly increasing below 2^32. */
  lemma {:induction false} Ordered(a: nat, b: nat)
    requires a < b < 0x1_0000_0000
    ensures Under(AsWord(a), AsWord(b))
  {
    hide AsWord, Under, Plus;
    NotLast(b - 1);
    Counted(b - 1, AsWord(b - 1));
    if a < b - 1 { Ordered(a, b - 1); }
    Increment(AsWord(b - 1));
    Transitive(AsWord(a), AsWord(b - 1), AsWord(b));
  }

  lemma Increment(w: Word)
    ensures w != 0xFFFF_FFFF ==> Under(w, Plus(w, 1))
  {
  }

  lemma Transitive(u: Word, v: Word, w: Word)
    ensures Under(u, v) && Under(v, w) ==> Under(u, w)
  {
  }
  lemma LowPowers()
    ensures AsWord(0x20) == 0x20 && AsWord(0x40) == 0x40
    ensures AsWord(0x80) == 0x80 && AsWord(0x100) == 0x100
    ensures AsWord(0x200) == 0x200 && AsWord(0x400) == 0x400
    ensures AsWord(0x800) == 0x800 && AsWord(0x1000) == 0x1000
    ensures AsWord(0x2000) == 0x2000 && AsWord(0x4000) == 0x4000
    ensures AsWord(0x8000) == 0x8000 && AsWord(0x10000) == 0x10000
    ensures AsWord(0x20000) == 0x20000 && AsWord(0x40000) == 0x40000
  {
    hide AsWord;
    UpTo16();
    Doubling(0x10, 0x10); Doubling(0x20, 0x20); Doubling(0x40, 0x40);
    Doubling(0x80, 0x80); Doubling(0x100, 0x100); Doubling(0x200, 0x200);
    Doubling(0x400, 0x400); Doubling(0x800, 0x800); Doubling(0x1000, 0x1000);
    Doubling(0x2000, 0x2000); Doubling(0x4000, 0x4000); Doubling(0x8000, 0x8000);
    Doubling(0x10000, 0x10000); Doubling(0x20000, 0x20000);
  }

  lemma HighPowers()
    ensures AsWord(0x80000) == 0x80000 && AsWord(0x100000) == 0x100000
    ensures AsWord(0x200000) == 0x200000 && AsWord(0x400000) == 0x400000
    ensures AsWord(0x800000) == 0x800000 && AsWord(0x1000000) == 0x1000000
    ensures AsWord(0x2000000) == 0x2000000 && AsWord(0x4000000) == 0x4000000
    ensures AsWord(0x8000000) == 0x8000000 && AsWord(0x10000000) == 0x10000000
    ensures AsWord(0x20000000) == 0x20000000 && AsWord(0x40000000) == 0x40000000
    ensures AsWord(0x80000000) == 0x80000000 && AsWord(0x100000000) == 0x0
  {
    hide AsWord;
    LowPowers();
    Doubling(0x40000, 0x40000); Doubling(0x80000, 0x80000); Doubling(0x100000, 0x100000);
    Doubling(0x200000, 0x200000); Doubling(0x400000, 0x400000); Doubling(0x800000, 0x800000);
    Doubling(0x1000000, 0x1000000); Doubling(0x2000000, 0x2000000); Doubling(0x4000000, 0x4000000);
    Doubling(0x8000000, 0x8000000); Doubling(0x10000000, 0x10000000); Doubling(0x20000000, 0x20000000);
    Doubling(0x40000000, 0x40000000); Doubling(0x80000000, 0x80000000);
  }

  // ---- signed order ----

  predicate InRange(v: int) { -0x8000_0000 <= v < 0x8000_0000 }

  lemma SignedOrder(a: int, b: int)
    requires InRange(a) && InRange(b)
    ensures SignedLess(AsWord(a), AsWord(b)) <==> a < b
  {
    hide AsWord, Plus, Under, SignedLess;
    HighPowers();
    Sum(a, 0x8000_0000);
    Sum(b, 0x8000_0000);
    Biased(AsWord(a), AsWord(b));
    var x, y := a + 0x8000_0000, b + 0x8000_0000;
    if a < b { Ordered(x, y); } else if b < a { Ordered(y, x); }
    Strict(AsWord(x), AsWord(y));
  }

  lemma Biased(v: Word, w: Word)
    ensures SignedLess(v, w) <==> Under(Plus(v, 0x8000_0000), Plus(w, 0x8000_0000))
  {
    SignFlipped(v);
    SignFlipped(w);
    hide Plus;
  }

  lemma SignFlipped(w: Word)
    ensures Plus(w, 0x8000_0000) == w ^ 0x8000_0000
  {
  }

  lemma Strict(v: Word, w: Word)
    ensures Under(v, w) ==> !Under(w, v) && v != w
  {
  }

  lemma {:induction false} Around(v: int, k: int)
    ensures AsWord(v + k * 0x1_0000_0000) == AsWord(v)
    decreases if k < 0 then -k else k
  {
    hide AsWord;
    HighPowers();
    Zeros(AsWord(v));
    if k > 0 {
      Around(v, k - 1);
      Sum(v + (k - 1) * 0x1_0000_0000, 0x1_0000_0000);
    } else if k < 0 {
      Around(v, k + 1);
      Sum(v + k * 0x1_0000_0000, 0x1_0000_0000);
      Zeros(AsWord(v + k * 0x1_0000_0000));
    }
  }

  lemma WrapIs(v: int)
    ensures AsWord(Wrap(v)) == AsWord(v) && InRange(Wrap(v))
  {
    hide AsWord;
    var k := (v + 0x8000_0000) / 0x1_0000_0000;
    Around(Wrap(v), k);
  }
}
