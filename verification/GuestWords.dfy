/** 32-bit unsigned words of the guest programs as naturals below 2^32, with C's wrap-around and
    bitwise operators written out. */
module GuestWords {
  import opened Arithmetic

  const MODULUS: nat := 0x1_0000_0000
  const TOP_BIT: nat := 0x8000_0000

  type u32 = x: nat | x < MODULUS witness 0

  function Wrap(x: int): u32 { x % MODULUS }

  function Neg(x: u32): u32 { Wrap(MODULUS - x) }

  /** Bitwise or and and, bit by bit. */
  function Or(x: nat, y: nat): nat
    decreases x + y
  {
    if x == 0 && y == 0 then 0
    else 2 * Or(x / 2, y / 2) + (if x % 2 == 1 || y % 2 == 1 then 1 else 0)
  }

  function And(x: nat, y: nat): nat
    decreases x + y
  {
    if x == 0 || y == 0 then 0
    else 2 * And(x / 2, y / 2) + (if x % 2 == 1 && y % 2 == 1 then 1 else 0)
  }

  /** Reading a word as a signed int32_t. */
  function Signed(x: u32): int { if x < TOP_BIT then x else x - MODULUS }

  lemma {:induction false} OrZero(x: nat)
    ensures Or(x, 0) == x && Or(0, x) == x
  {
    if x > 0 { OrZero(x / 2); }
  }

  /** Setting a clear bit above which the other operand may have any bits. */
  lemma {:induction false} OrBit(q: nat, s: nat)
    requires q % (2 * Pow2(s)) == 0
    ensures Or(q, Pow2(s)) == q + Pow2(s)
  {
    if s == 0 {
      OrZero(q / 2);
      assert Pow2(0) == 1;
    } else {
      Halves(q, 2 * Pow2(s - 1));
      OrBit(q / 2, s - 1);
    }
  }

  lemma Halves(q: nat, m: nat)
    requires m > 0 && q % (2 * m) == 0
    ensures q % 2 == 0 && (q / 2) % m == 0
  {
    var k := q / (2 * m);
    assert q == 2 * m * k;
    assert q == 2 * (m * k);
    assert q / 2 == m * k;
    Remainder(q / 2, k, m, 0);
  }

  lemma {:induction false} AndOnes(x: nat, n: nat)
    requires x < Pow2(n)
    ensures And(x, Pow2(n) - 1) == x && And(Pow2(n) - 1, x) == x
  {
    if x > 0 {
      assert Pow2(n) == 2 * Pow2(n - 1);
      AndOnes(x / 2, n - 1);
    }
  }

  lemma {:induction false} Powers()
    ensures Pow2(31) == TOP_BIT && Pow2(32) == MODULUS && Pow2(1) == 2
  {
    assert Pow2(8) == 256;
    Pow2Sum(8, 8);
    Pow2Sum(16, 16);
    assert Pow2(32) == 2 * Pow2(31);
  }

  /** `a & -c` selects a or nothing. */
  lemma {:induction false} Mask(a: u32, c: nat)
    requires c <= 1
    ensures And(a, Neg(c)) == c * a
  {
    Powers();
    AndOnes(a, 32);
  }

  /** x & 1. */
  lemma {:induction false} LowBit(x: nat)
    ensures And(x, 1) == x % 2
  {
    if x > 0 { assert And(x / 2, 0) == 0; }
  }

  /** x & 0x80000000 tests whether doubling x would overflow. */
  lemma {:induction false} TopBitTest(x: u32)
    ensures And(x, TOP_BIT) == 0 <==> x < TOP_BIT
  {
    Powers();
    AndBit(x, 31);
  }

  lemma {:induction false} AndBit(x: nat, s: nat)
    requires x < 2 * Pow2(s)
    ensures And(x, Pow2(s)) == 0 <==> x < Pow2(s)
  {
    if s == 0 {
      LowBit(x);
    } else if x > 0 {
      AndBit(x / 2, s - 1);
    }
  }
}
