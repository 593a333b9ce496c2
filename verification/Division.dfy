/** Division without a divide instruction (essentials/stdlib/__udivsi3.c, __umodsi3.c, __divsi3.c,
    __modsi3.c). */
module Division {
  import opened Arithmetic
  import opened GuestWords

  /** The divisor shifted left s times beside the bit shifted left s times, neither overflowing. */
  ghost predicate Aligned(d: nat, s: nat, divisor: nat, bit: nat) {
    bit == Pow2(s) && divisor == d * bit && divisor < MODULUS && s < 32 && d > 0
  }

  lemma {:induction false} Shift(d: nat, s: nat, divisor: nat, bit: nat)
    requires Aligned(d, s, divisor, bit) && divisor < TOP_BIT
    ensures Wrap(2 * divisor) == 2 * divisor && Wrap(2 * bit) == 2 * bit
    ensures Aligned(d, s + 1, 2 * divisor, 2 * bit) && 0 < 2 * divisor < MODULUS && 0 < 2 * bit < MODULUS
  {
    Associate(d, bit, 2);
    Scale(1, d, 2 * bit);
    Powers();
    Scale(1, d, bit);
    assert s == 31 ==> bit == TOP_BIT;
  }

  /** Shifting both back by one, before bit 0 is reached. */
  lemma {:induction false} ShiftBack(d: nat, s: nat, divisor: nat, bit: nat)
    requires Aligned(d, s, divisor, bit)
    ensures s > 0 ==> Aligned(d, s - 1, divisor / 2, bit / 2) && 2 * (divisor / 2) == divisor && 2 * (bit / 2) == bit
    ensures s == 0 ==> bit / 2 == 0 && divisor == d
  {
    if s > 0 {
      assert bit == 2 * Pow2(s - 1);
      Associate(d, Pow2(s - 1), 2);
    }
  }

  /** One step of the subtract loop: what is still to divide stays below twice the divisor, and
      quotient and rest still make up the dividend. */
  ghost predicate Halfway(n: nat, d: nat, s: nat, q: nat, rest: nat, divisor: nat, bit: nat) {
    Aligned(d, s, divisor, bit) && rest < 2 * divisor && q * d + rest == n && q % (2 * bit) == 0
  }

  lemma {:induction false} Subtract(n: nat, d: nat, s: nat, q: nat, rest: nat, divisor: nat, bit: nat)
    requires Halfway(n, d, s, q, rest, divisor, bit) && n < MODULUS
    ensures var take := rest >= divisor;
      var q1 := if take then Or(q, bit) else q;
      var rest1 := if take then rest - divisor else rest;
      && Aligned(d, s, divisor, bit) && bit > 0
      && q1 * d + rest1 == n && rest1 < divisor && q1 % bit == 0 && q1 < MODULUS
  {
    OrBit(q, s);
    hide Or, Pow2;
    Distribute(q, bit, d);
    Commute(bit, d);
    HalfMultiple(q, bit);
    Quotients(if rest >= divisor then q + bit else q, d, n);
  }

  lemma Commute(x: nat, y: nat)
    ensures x * y == y * x
  {
  }

  lemma {:induction false} HalfMultiple(q: nat, bit: nat)
    requires bit > 0 && q % (2 * bit) == 0
    ensures q % bit == 0 && (q + bit) % bit == 0
  {
    var k := q / (2 * bit);
    Divide(q, 2 * bit);
    Commute(k, 2);
    Associate(k, 2, bit);
    Remainder(q, 2 * k, bit, 0);
    Distribute(2 * k, 1, bit);
    Remainder(q + bit, 2 * k + 1, bit, 0);
  }

  /** A quotient is no larger than what is divided. */
  lemma {:induction false} Quotients(q: nat, d: nat, n: nat)
    requires d > 0
    ensures q * d <= n ==> q <= n
  {
    Scale(1, d, q);
    Commute(q, d);
  }

  ghost predicate Divided(n: nat, d: nat, q: nat, rest: nat) {
    d > 0 && q == n / d && rest == n % d
  }

  lemma {:induction false} Finished(n: nat, d: nat, q: nat, rest: nat)
    requires Divided(n, d, q, rest)
    ensures d > 0 && q == n / d && rest == n % d
  {
  }

  lemma {:induction false} Next(n: nat, d: nat, s: nat, q: nat, rest: nat, divisor: nat, bit: nat)
    requires Aligned(d, s, divisor, bit) && rest < divisor && q * d + rest == n && q % bit == 0 && q < MODULUS
    ensures s > 0 ==> Halfway(n, d, s - 1, q, rest, divisor / 2, bit / 2) && bit / 2 > 0
    ensures s == 0 ==> bit / 2 == 0 && Divided(n, d, q, rest)
  {
    ShiftBack(d, s, divisor, bit);
    if s == 0 { Remainder(n, q, d, rest); }
  }

  lemma {:induction false} Begin(n: nat, d: nat, s: nat, divisor: nat, bit: nat)
    requires Aligned(d, s, divisor, bit) && n < MODULUS && (divisor >= n || divisor >= TOP_BIT)
    ensures Halfway(n, d, s, 0, n, divisor, bit)
  {
    Scale(1, d, bit);
    Remainder(0, 0, 2 * bit, 0);
  }

  lemma {:induction false} Unshifted(d: nat)
    requires 0 < d < MODULUS
    ensures Aligned(d, 0, d, 1)
  {
  }

  /** The results of DIVU and REMU (table 7.1 in section 7.2 of the RISC-V manual). */
  function Divu(a: u32, b: u32): u32 { if b == 0 then MODULUS - 1 else a / b }

  function Remu(a: u32, b: u32): u32 { if b == 0 then a else a % b }

  /** The floor quotient, which is DIVU's result exactly for divisors other than 0. */
  method UDiv(dividend: u32, divisor: u32) returns (quotient: u32)
    ensures quotient == if divisor == 0 then 0 else dividend / divisor
    ensures quotient == Divu(dividend, divisor) <==> divisor != 0
  {
    if divisor == 0 { return 0; }
    quotient := 0;
    var n: nat, d: nat, bit: nat := dividend, divisor, 1;
    ghost var s: nat := 0;
    Unshifted(divisor);
    hide Or, And, Pow2, Aligned, Halfway, Divided, Wrap;
    while d < dividend && And(d, TOP_BIT) == 0
      invariant Aligned(divisor, s, d, bit) && 0 < d < MODULUS && 0 < bit
      decreases MODULUS - d
    {
      TopBitTest(d);
      Shift(divisor, s, d, bit);
      d := Wrap(2 * d);
      bit := Wrap(2 * bit);
      s := s + 1;
    }
    TopBitTest(d);
    Begin(dividend, divisor, s, d, bit);
    while bit != 0
      invariant bit != 0 ==> Halfway(dividend, divisor, s, quotient, n, d, bit)
      invariant bit == 0 ==> Divided(dividend, divisor, quotient, n)
      decreases bit
    {
      Subtract(dividend, divisor, s, quotient, n, d, bit);
      if n >= d {
        n := n - d;
        quotient := Or(quotient, bit);
      }
      Next(dividend, divisor, s, quotient, n, d, bit);
      d := d / 2;
      bit := bit / 2;
      s := if s > 0 then s - 1 else 0;
    }
    Finished(dividend, divisor, quotient, n);
  }

  /** The remainder, which is REMU's result unless a word other than 0 is divided by 0. */
  method UMod(dividend: u32, divisor: u32) returns (rest: u32)
    ensures rest == if divisor == 0 then 0 else dividend % divisor
    ensures rest == Remu(dividend, divisor) <==> divisor != 0 || dividend == 0
  {
    if divisor == 0 { return 0; }
    rest := dividend;
    var d: nat, bit: nat := divisor, 1;
    ghost var s: nat, quotient: nat := 0, 0;
    Unshifted(divisor);
    hide Or, And, Pow2, Aligned, Halfway, Divided, Wrap;
    while d < dividend && And(d, TOP_BIT) == 0
      invariant Aligned(divisor, s, d, bit) && 0 < d < MODULUS && 0 < bit
      decreases MODULUS - d
    {
      TopBitTest(d);
      Shift(divisor, s, d, bit);
      d := Wrap(2 * d);
      bit := Wrap(2 * bit);
      s := s + 1;
    }
    TopBitTest(d);
    Begin(dividend, divisor, s, d, bit);
    while bit != 0
      invariant bit != 0 ==> Halfway(dividend, divisor, s, quotient, rest, d, bit)
      invariant bit == 0 ==> Divided(dividend, divisor, quotient, rest)
      decreases bit
    {
      Subtract(dividend, divisor, s, quotient, rest, d, bit);
      if rest >= d {
        rest := rest - d;
        quotient := Or(quotient, bit);
      }
      Next(dividend, divisor, s, quotient, rest, d, bit);
      d := d / 2;
      bit := bit / 2;
      s := if s > 0 then s - 1 else 0;
    }
    Finished(dividend, divisor, quotient, rest);
  }

  // ---- signed division ----

  function Abs(x: int): nat { if x < 0 then -x else x }

  /** Division that truncates toward zero, and its remainder. */
  function Quo(x: int, y: int): int
    requires y != 0
  {
    if (x < 0) == (y < 0) then Abs(x) / Abs(y) else -(Abs(x) / Abs(y))
  }

  function Rem(x: int, y: int): int
    requires y != 0
  {
    if x < 0 then -(Abs(x) % Abs(y)) else Abs(x) % Abs(y)
  }

  predicate Overflows(a: u32, b: u32) { a == TOP_BIT && b == MODULUS - 1 }

  /** The results of DIV and REM, by the rows of the same table. */
  function Div(a: u32, b: u32): u32 {
    if b == 0 then MODULUS - 1 else if Overflows(a, b) then TOP_BIT else Wrap(Quo(Signed(a), Signed(b)))
  }

  function Mod(a: u32, b: u32): u32 {
    if b == 0 then a else if Overflows(a, b) then 0 else Wrap(Rem(Signed(a), Signed(b)))
  }

  /** The overflow row is what truncating division wraps to. */
  lemma {:induction false} OverflowRow(a: u32, b: u32)
    requires Overflows(a, b)
    ensures Wrap(Quo(Signed(a), Signed(b))) == TOP_BIT && Wrap(Rem(Signed(a), Signed(b))) == 0
  {
  }

  lemma {:induction false} DivIs(a: u32, b: u32)
    ensures Div(a, b) == if b == 0 then MODULUS - 1 else Wrap(Quo(Signed(a), Signed(b)))
  {
    if Overflows(a, b) { OverflowRow(a, b); }
    hide Wrap, Quo;
  }

  lemma {:induction false} ModIs(a: u32, b: u32)
    ensures Mod(a, b) == if b == 0 then a else Wrap(Rem(Signed(a), Signed(b)))
  {
    if Overflows(a, b) { OverflowRow(a, b); }
    hide Wrap, Rem;
  }

  /** The magnitude of a word, as the wrappers compute it: 2^31 for the smallest word too. */
  lemma {:induction false} Magnitude(a: u32)
    ensures Abs(Signed(a)) == if Signed(a) < 0 then Neg(a) else a
  {
  }

  lemma {:induction false} SignedQuotient(x: int, y: int, q: u32)
    requires y != 0 && q == Abs(x) / Abs(y)
    ensures Wrap(Quo(x, y)) == if (x < 0) == (y < 0) then q else Neg(q)
  {
  }

  lemma {:induction false} SignedRest(x: int, y: int, r: u32)
    requires y != 0 && r == Abs(x) % Abs(y)
    ensures Wrap(Rem(x, y)) == if x < 0 then Neg(r) else r
  {
  }

  /** The truncated quotient, which is DIV's result exactly for divisors other than 0. */
  method SDiv(a: u32, b: u32) returns (q: u32)
    ensures q == if b == 0 then 0 else Wrap(Quo(Signed(a), Signed(b)))
    ensures q == Div(a, b) <==> b != 0
  {
    DivIs(a, b);
    hide Div;
    if b == 0 { return 0; }
    var negative := false;
    var ua, ub := a, b;
    if Signed(a) < 0 {
      ua := Neg(a);
      negative := !negative;
    }
    if Signed(b) < 0 {
      ub := Neg(b);
      negative := !negative;
    }
    Magnitude(a);
    Magnitude(b);
    q := UDiv(ua, ub);
    SignedQuotient(Signed(a), Signed(b), q);
    hide Quo, Wrap, Signed;
    if negative { q := Neg(q); }
  }

  /** The remainder, which is REM's result for all words. */
  method SMod(a: u32, b: u32) returns (r: u32)
    ensures r == if b == 0 then a else Wrap(Rem(Signed(a), Signed(b)))
    ensures r == Mod(a, b)
  {
    ModIs(a, b);
    hide Mod, Rem, Wrap, Neg;
    if b == 0 { return a; }
    var negative := false;
    var ua, ub := a, b;
    if Signed(a) < 0 {
      ua := Neg(a);
      negative := true;
    }
    if Signed(b) < 0 {
      ub := Neg(b);
    }
    Magnitude(a);
    Magnitude(b);
    r := UMod(ua, ub);
    SignedRest(Signed(a), Signed(b), r);
    if negative { r := Neg(r); }
  }

  /** What the pair of wrappers promises: quotient and remainder make up the dividend, and the
      remainder is smaller than the divisor and has the dividend's sign. */
  lemma {:induction false} QuoRem(x: int, y: int)
    requires y != 0
    ensures x == Quo(x, y) * y + Rem(x, y)
    ensures Abs(Rem(x, y)) < Abs(y) && (Rem(x, y) != 0 ==> (Rem(x, y) < 0 <==> x < 0))
  {
    Divide(Abs(x), Abs(y));
    var q := Abs(x) / Abs(y);
    SignProduct(q, y);
  }

  lemma SignProduct(q: int, y: int)
    ensures (-q) * (-y) == q * y && (-q) * y == -(q * y) && q * (-y) == -(q * y)
  {
  }

  /** The quotient of two words fits a word exactly when it is not the smallest word over -1. */
  lemma {:induction false} QuotientFits(a: u32, b: u32)
    requires b != 0
    ensures Signed(Wrap(Quo(Signed(a), Signed(b)))) == Quo(Signed(a), Signed(b)) <==>
        !(a == TOP_BIT && b == MODULUS - 1)
    ensures Signed(Wrap(Rem(Signed(a), Signed(b)))) == Rem(Signed(a), Signed(b))
  {
    var x, y := Signed(a), Signed(b);
    QuoRem(x, y);
    QuotientBound(Abs(x), Abs(y));
    WrapFits(Quo(x, y));
    WrapFits(Rem(x, y));
    hide Wrap;
  }

  lemma {:induction false} QuotientBound(n: nat, d: nat)
    requires d > 0
    ensures 0 <= n / d <= n && (d > 1 ==> 2 * (n / d) <= n) && (d == 1 ==> n / d == n)
    ensures 0 <= n % d < d
  {
    Divide(n, d);
    Scale(1, d, n / d);
    if d > 1 { Scale(2, d, n / d); }
    assert d * (n / d) == n / d * d;
  }

  lemma {:induction false} WrapFits(x: int)
    ensures 0 <= x + TOP_BIT && x < TOP_BIT ==> Signed(Wrap(x)) == x
    ensures x == TOP_BIT ==> Signed(Wrap(x)) + TOP_BIT == 0
  {
  }

  /** Modulo 2^32, and so also for the smallest word over -1, where the remainder is 0:
      a == (a / b) * b + a % b. */
  lemma {:induction false} WordIdentity(a: u32, b: u32)
    requires b != 0
    ensures a == Wrap(Wrap(Quo(Signed(a), Signed(b))) * b + Wrap(Rem(Signed(a), Signed(b))))
  {
    var x, y := Signed(a), Signed(b);
    var q, r := Quo(x, y), Rem(x, y);
    QuoRem(x, y);
    var i, j := WrapOff(q), WrapOff(r);
    var k, m := if a < TOP_BIT then 0 else 1, if b < TOP_BIT then 0 else 1;
    hide Quo, Rem, Wrap;
    Recombined(a, b, x, y, q, r, Wrap(q), Wrap(r), i, j, k, m);
  }

  lemma {:induction false} Recombined(a: u32, b: u32, x: int, y: int, q: int, r: int, wq: u32, wr: u32, i: int, j: int,
      k: int, m: int)
    requires x == q * y + r && wq == q + i * MODULUS && wr == r + j * MODULUS && a == x + k * MODULUS
        && b == y + m * MODULUS
    ensures a == Wrap(wq * b + wr)
  {
    var p := q * m + i * y + i * m * MODULUS;
    ProductOff(q, y, i, m);
    assert wq * b + wr == a + (p + j - k) * MODULUS;
    SameWrap(a, p + j - k);
  }

  /** A word that represents x differs from it by a multiple of 2^32. */
  function WrapOff(x: int): (i: int)
    ensures Wrap(x) == x + i * MODULUS
  {
    -(x / MODULUS)
  }

  lemma {:induction false} ProductOff(q: int, y: int, i: int, m: int)
    ensures (q + i * MODULUS) * (y + m * MODULUS) == q * y + (q * m + i * y + i * m * MODULUS) * MODULUS
  {
  }

  lemma {:induction false} SameWrap(a: u32, k: int)
    ensures Wrap(a + k * MODULUS) == a
  {
  }
}
