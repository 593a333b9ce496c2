/** Facts about products, quotients and powers of two that the solver does not find by itself. */
module Arithmetic {

  function Pow2(n: nat): (r: nat)
    ensures r > 0
  {
    if n == 0 then 1 else 2 * Pow2(n - 1)
  }

  lemma Divide(a: nat, b: nat)
    requires 0 < b
    ensures a / b * b <= a < a / b * b + b && a == a / b * b + a % b
  {
  }

  /** The quotient is the only number whose multiple is within one divisor below. */
  lemma {:induction false} Quotient(a: nat, q: nat, b: nat)
    requires 0 < b && q * b <= a < q * b + b
    ensures a / b == q
  {
    Divide(a, b);
    var r := a / b;
    Distribute(r, 1, b);
    Distribute(q, 1, b);
    if r < q { Scale(r + 1, q, b); }
    if r > q { Scale(q + 1, r, b); }
  }

  lemma {:induction false} BelowMultiple(a: nat, n: nat, b: nat)
    requires 0 < b && a < n * b
    ensures a / b < n
  {
    Divide(a, b);
    if n <= a / b { Scale(n, a / b, b); }
  }

  lemma {:induction false} AboveMultiple(a: nat, n: nat, b: nat)
    requires 0 < b && n * b <= a
    ensures n <= a / b
  {
    Divide(a, b);
    Reached(a, a / b, n, b);
  }

  lemma {:induction false} Reached(a: nat, q: nat, n: nat, b: nat)
    requires 0 < b && a < q * b + b && n * b <= a
    ensures n <= q
  {
    Distribute(q, 1, b);
    if q < n { Scale(q + 1, n, b); }
  }

  lemma {:induction false} Cancel(x: nat, y: nat, b: nat)
    requires 0 < b && x * b <= y * b
    ensures x <= y
  {
    Distribute(y, 1, b);
    if y < x { Scale(y + 1, x, b); }
  }

  lemma Scale(x: nat, y: nat, b: nat)
    requires x <= y
    ensures x * b <= y * b
  {
  }

  lemma {:induction false} Remainder(a: nat, q: nat, b: nat, r: nat)
    requires 0 < b && a == q * b + r && r < b
    ensures a % b == r && a / b == q
  {
    Quotient(a, q, b);
    Divide(a, b);
  }

  lemma Associate(x: nat, y: nat, z: nat)
    ensures x * y * z == x * (y * z)
  {
  }

  lemma Distribute(x: nat, y: nat, z: nat)
    ensures (x + y) * z == x * z + y * z
  {
  }

  lemma {:induction false} Pow2Sum(a: nat, b: nat)
    ensures Pow2(a + b) == Pow2(a) * Pow2(b)
  {
    if a > 0 {
      Pow2Sum(a - 1, b);
      assert Pow2(a + b) == 2 * Pow2(a + b - 1);
      Associate(2, Pow2(a - 1), Pow2(b));
    } else {
      assert Pow2(0) == 1;
    }
  }
}
