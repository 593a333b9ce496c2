/** Multiplication without a multiply instruction (essentials/stdlib/__mulsi3.c). */
module Multiplication {
  import opened Arithmetic
  import opened GuestWords
  import opened QuarterTable

  /** Sum and difference have the same parity, so the rounding cancels. */
  lemma {:induction false} QuarterSquares(a: nat, b: nat)
    requires b <= a && a + b <= 510
    ensures QuarterSquare(a + b) == QuarterSquare(a - b) + a * b
  {
    var d := a - b;
    assert (a + b) * (a + b) == d * d + 4 * (a * b) by {
      assert a + b == d + 2 * b;
      assert (d + 2 * b) * (d + 2 * b) == d * d + 4 * (d * b + b * b);
      assert a * b == (d + b) * b == d * b + b * b;
    }
    AddFours(d * d, a * b);
  }

  lemma AddFours(x: nat, k: nat)
    ensures (x + 4 * k) / 4 == x / 4 + k
  {
  }

  lemma {:induction false} Congruent(u: int, v: int, k: int)
    requires u == v + k * MODULUS
    ensures Wrap(u) == Wrap(v)
  {
  }

  lemma {:induction false} WrapOff(x: nat)
    ensures Wrap(x) == x - x / MODULUS * MODULUS
  {
  }

  /** One round: two bits of b are consumed, and what is still owed is unchanged modulo 2^32. */
  lemma {:induction false} Round(result: u32, a: u32, b: nat, x: nat, y: nat)
    requires x == b % 2 && y == b / 2 % 2
    ensures
      var r1 := Wrap(result + x * a);
      var r2 := Wrap(r1 + y * Wrap(2 * a));
      Wrap(r2 + Wrap(4 * a) * (b / 4)) == Wrap(result + a * b)
  {
    var c := b / 4;
    assert b == 4 * c + 2 * y + x;
    var u1 := result + x * a;
    var r1 := Wrap(u1);
    var d2 := Wrap(2 * a);
    var u2 := r1 + y * d2;
    var i1, i2, i3, i4 := u1 / MODULUS, 2 * a / MODULUS, u2 / MODULUS, 4 * a / MODULUS;
    WrapOff(u1);
    WrapOff(2 * a);
    WrapOff(u2);
    WrapOff(4 * a);
    Owed(result, a, c, x, y, r1, d2, Wrap(u2), Wrap(4 * a), i1, i2, i3, i4);
    Congruent(Wrap(u2) + Wrap(4 * a) * c, result + a * b, -(i1 + y * i2 + i3 + i4 * c));
  }

  lemma {:induction false} Owed(result: nat, a: nat, c: nat, x: nat, y: nat, r1: nat, d2: nat, r2: nat, a4: nat,
      i1: nat, i2: nat, i3: nat, i4: nat)
    requires r1 == result + x * a - i1 * MODULUS && d2 == 2 * a - i2 * MODULUS
    requires r2 == r1 + y * d2 - i3 * MODULUS && a4 == 4 * a - i4 * MODULUS
    ensures r2 + a4 * c == result + a * (4 * c + 2 * y + x) + -(i1 + y * i2 + i3 + i4 * c) * MODULUS
  {
    assert y * d2 == 2 * (y * a) - y * i2 * MODULUS;
    assert a4 * c == 4 * (a * c) - i4 * c * MODULUS;
    assert a * (4 * c + 2 * y + x) == 4 * (a * c) + 2 * (y * a) + x * a;
  }

  /** The round as the source computes it, with masks. */
  lemma {:induction false} MaskedRound(result: u32, a: u32, b: u32)
    ensures And(b, 1) <= 1 && And(b / 2, 1) <= 1
    ensures
      var r1 := Wrap(result + And(a, Neg(And(b, 1))));
      var r2 := Wrap(r1 + And(Wrap(2 * a), Neg(And(b / 2, 1))));
      Wrap(r2 + Wrap(4 * a) * (b / 4)) == Wrap(result + a * b)
  {
    LowBit(b);
    LowBit(b / 2);
    Mask(a, b % 2);
    Mask(Wrap(2 * a), b / 2 % 2);
    Round(result, a, b, b % 2, b / 2 % 2);
    hide Wrap, And, Neg;
  }

  lemma {:induction false} Quartered(b: nat, n: nat)
    requires 0 < b && n <= 16 && b < Pow2(32 - 2 * n)
    ensures n < 16 && b / 4 < Pow2(32 - 2 * (n + 1))
  {
    if n == 16 { PowZero(); }
    assert Pow2(32 - 2 * n) == 2 * Pow2(32 - 2 * n - 1);
  }

  /** The low 32 bits of the product, on both paths, in at most 16 rounds. */
  method Multiply(a0: u32, b0: u32) returns (result: u32, ghost rounds: nat)
    ensures result == Wrap(a0 * b0)
    ensures rounds <= 16
  {
    rounds := 0;
    var a: u32, b: u32 := a0, b0;
    var sum := Wrap(a + b);
    if sum < 511 && sum >= a {
      result := Small(a, b);
      return;
    }
    if a < b {
      a, b := b, a;
    }
    Powers();
    ghost var owed := Wrap(a0 * b0);
    assert b0 * a0 == a0 * b0;
    result := 0;
    hide Wrap, And, Neg, Pow2;
    while b != 0
      invariant Wrap(result + a * b) == owed
      invariant rounds <= 16 && b < Pow2(32 - 2 * rounds)
      decreases b
    {
      MaskedRound(result, a, b);
      Quartered(b, rounds);
      result := Wrap(result + And(a, Neg(And(b, 1))));
      result := Wrap(result + And(Wrap(2 * a), Neg(And(b / 2, 1))));
      a, b := Wrap(4 * a), b / 4;
      rounds := rounds + 1;
    }
    Settled(result, a);
  }

  lemma PowZero()
    ensures Pow2(0) == 1
  {
  }

  lemma {:induction false} Settled(result: u32, a: u32)
    ensures Wrap(result + a * 0) == result
  {
  }

  /** Two entries of the table make the product. */
  lemma {:induction false} EntriesMultiply(a: nat, b: nat)
    requires a + b <= 510
    ensures Entry(a + b) == Entry(if a > b then a - b else b - a) + a * b
  {
    EntryIsSquare(a + b);
    EntryIsSquare(if a > b then a - b else b - a);
    hide QuarterSquare, Entry;
    if a > b { QuarterSquares(a, b); } else { QuarterSquares(b, a); }
    assert b * a == a * b;
  }

  lemma NoWrap(a: u32, b: u32)
    requires Wrap(a + b) < 511 && Wrap(a + b) >= a
    ensures a + b <= 510
  {
  }

  lemma {:induction false} SmallProduct(a: u32, b: u32)
    requires a + b <= 510
    ensures Wrap(Entry(a + b) - Entry(if a > b then a - b else b - a)) == Wrap(a * b)
  {
    hide Entry, Wrap;
    EntriesMultiply(a, b);
  }

  /** The quarter-square path. */
  method Small(a: u32, b: u32) returns (r: u32)
    requires Wrap(a + b) < 511 && Wrap(a + b) >= a
    ensures r == Wrap(a * b)
  {
    NoWrap(a, b);
    SmallProduct(a, b);
    hide Entry, Wrap;
    var diff := if a > b then a - b else b - a;
    r := Wrap(Entry(a + b) - Entry(diff));
  }
}
