/** The shifts by which the source cuts an address into tag, index and offset
    (src/cache/cache.c:51-55, 90-97), against the quotients and remainders of the model. */
module CacheBits {
  import opened Arithmetic
  import opened CacheSet

  /** One more than the largest address. */
  function Words(): (r: nat)
    ensures r > 0
  {
    Pow2(32)
  }

  function Over(a: nat, b: nat): nat
    requires b > 0
  {
    a / b
  }

  /** addr << k on 32-bit unsigned words; C defines it for k < 32. */
  function Shl(addr: nat, k: nat): nat
    requires k < 32
  {
    addr * Pow2(k) % Words()
  }

  function Shr(addr: nat, k: nat): nat
    requires k < 32
  {
    Over(addr, Pow2(k))
  }

  function IndexOf(addr: nat, offsetBits: nat, indexBits: nat): nat
    requires 0 < indexBits && 0 < offsetBits && offsetBits + indexBits < 32
  {
    Shr(Shl(addr, 32 - indexBits - offsetBits), 32 - indexBits)
  }

  function TagOf(addr: nat, offsetBits: nat, indexBits: nat): nat
    requires offsetBits + indexBits < 32
  {
    Shr(addr, indexBits + offsetBits)
  }

  function BlockOf(addr: nat, offsetBits: nat): nat
    requires offsetBits < 32
  {
    Shl(Shr(addr, offsetBits), offsetBits)
  }

  /** For powers of two and at least two sets the shifts give exactly the set, tag and first address
      of the block. */
  lemma {:induction false} ShiftsAreGeometry(addr: nat, o: nat, i: nat)
    requires 0 < o && 0 < i && o + i < 32 && addr < Words()
    ensures var g := Geometry(Pow2(o), Pow2(i));
      IndexOf(addr, o, i) == g.Index(addr) && TagOf(addr, o, i) == g.Tag(addr) && BlockOf(addr, o) == g.BlockAddr(addr)
  {
    Splits(o, i);
    Shifts(addr, Pow2(o), Pow2(i), Pow2(32 - i - o), Words());
    BlockFacts(Geometry(Pow2(o), Pow2(i)), addr);
    hide Pow2, Words;
  }

  lemma {:induction false} Shifts(addr: nat, block: nat, sets: nat, rest: nat, words: nat)
    requires block > 0 && sets > 0 && rest > 0 && addr < words && block * rest > 0 && sets * block > 0
        && words == sets * (block * rest)
    ensures addr * rest % words / (block * rest) == addr / block % sets
    ensures addr / (sets * block) == addr / block / sets
    ensures addr / block * block % words == addr / block * block
  {
    var n, t := addr / block, addr % block;
    var q, r := n / sets, n % sets;
    Divide(addr, block);
    Divide(n, sets);
    IndexShift(addr, n, q, r, t, block, sets, rest);
    TagShift(addr, n, q, r, t, block, sets);
    Remainder(n * block, 0, words, n * block);
  }

  lemma {:induction false} Splits(o: nat, i: nat)
    requires o + i < 32
    ensures Pow2(32 - i) == Pow2(o) * Pow2(32 - i - o) && Words() == Pow2(i) * (Pow2(o) * Pow2(32 - i - o))
    ensures Pow2(i + o) == Pow2(i) * Pow2(o)
  {
    hide Pow2;
    Pow2Sum(o, 32 - i - o);
    Pow2Sum(i, 32 - i);
    Pow2Sum(i, o);
  }

  lemma {:induction false} IndexShift(addr: nat, n: nat, q: nat, r: nat, t: nat, block: nat, sets: nat, rest: nat)
    requires block > 0 && sets > 0 && rest > 0 && addr == n * block + t && n == q * sets + r && t < block && r < sets
    requires block * rest > 0 && sets * (block * rest) > 0
    ensures addr * rest % (sets * (block * rest)) / (block * rest) == r
  {
    var m := r * block + t;
    Distribute(q * sets, r, block);
    Associate(q, sets, block);
    assert addr == q * (sets * block) + m;
    Scale(r + 1, sets, block);
    Distribute(r, 1, block);
    assert m + 1 <= sets * block;
    Distribute(q * (sets * block), m, rest);
    Associate(q, sets * block, rest);
    Associate(sets, block, rest);
    assert addr * rest == q * (sets * (block * rest)) + m * rest;
    Scale(m + 1, sets * block, rest);
    Distribute(m, 1, rest);
    Remainder(addr * rest, q, sets * (block * rest), m * rest);
    Distribute(r * block, t, rest);
    Associate(r, block, rest);
    Scale(t + 1, block, rest);
    Distribute(t, 1, rest);
    Remainder(m * rest, r, block * rest, t * rest);
  }

  lemma {:induction false} TagShift(addr: nat, n: nat, q: nat, r: nat, t: nat, block: nat, sets: nat)
    requires block > 0 && sets > 0 && addr == n * block + t && n == q * sets + r && t < block && r < sets
    requires sets * block > 0
    ensures addr / (sets * block) == q
  {
    Distribute(q * sets, r, block);
    Associate(q, sets, block);
    Scale(r + 1, sets, block);
    Distribute(r, 1, block);
    Quotient(addr, q, sets * block);
  }
}
