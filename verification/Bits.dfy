// The unsigned bit operations that the hash table uses on its power-of-two
// bucket count: the mask that picks a bucket and the shift-and-mask ceiling.
module Bits {

  function Pow2(k: nat): (p: nat)
    ensures p > 0
  {
    if k == 0 then 1 else 2 * Pow2(k - 1)
  }

  // C's `a & b` on unsigned operands, bit by bit.
  function And(a: nat, b: nat): (r: nat)
    ensures r <= a && r <= b
    decreases a
  {
    if a == 0 || b == 0 then 0
    else (if a % 2 == 1 && b % 2 == 1 then 1 else 0) + 2 * And(a / 2, b / 2)
  }

  // C's `a >> k` on an unsigned operand.
  function ShiftRight(a: nat, k: nat): nat {
    if k == 0 then a else ShiftRight(a / 2, k - 1)
  }

  lemma MulMono(x: int, y: int, d: int)
    requires x <= y && 0 <= d
    ensures x * d <= y * d
  {
    assert (y - x) * d >= 0;
  }

  lemma DivMod(a: int, d: int)
    requires d > 0
    ensures a == (a / d) * d + a % d && 0 <= a % d < d
  {}

  // Quotient and remainder are unique.
  lemma RemainderIs(a: int, d: int, q: int, r: int)
    requires d > 0 && a == q * d + r && 0 <= r < d
    ensures a / d == q && a % d == r
  {
    DivMod(a, d);
    if a / d >= q + 1 {
      MulMono(q + 1, a / d, d);
    } else if a / d <= q - 1 {
      MulMono(a / d, q - 1, d);
    }
  }

  // Unsigned division, by repeated subtraction.
  function Quotient(a: nat, d: nat): nat
    requires d > 0
  {
    if a < d then 0 else 1 + Quotient(a - d, d)
  }

  lemma OneMore(q: int, d: int)
    ensures (q + 1) * d == q * d + d
  {}

  lemma {:induction false} QuotientIsDivision(a: nat, d: nat)
    requires d > 0
    ensures Quotient(a, d) == a / d
    ensures Quotient(a, d) * d <= a < (Quotient(a, d) + 1) * d
  {
    if a >= d {
      QuotientIsDivision(a - d, d);
      var q := Quotient(a - d, d);
      OneMore(q, d);
      OneMore(q + 1, d);
      RemainderIs(a, d, q + 1, a - (q + 1) * d);
    } else {
      RemainderIs(a, d, 0, a);
    }
  }

  // Masking with 2^k - 1 is the remainder modulo 2^k.
  lemma {:induction false} MaskIsRemainder(a: nat, k: nat)
    ensures And(a, Pow2(k) - 1) == a % Pow2(k)
    decreases k
  {
    if k > 0 {
      MaskIsRemainder(a / 2, k - 1);
      HalveMask(a, Pow2(k - 1));
      HalveRemainder(a, Pow2(k - 1));
    }
  }

  lemma HalveMask(a: nat, p: nat)
    requires p > 0
    ensures And(a, 2 * p - 1) == a % 2 + 2 * And(a / 2, p - 1)
  {
    assert (2 * p - 1) / 2 == p - 1 && (2 * p - 1) % 2 == 1;
  }

  lemma HalveRemainder(a: nat, p: nat)
    requires p > 0
    ensures a % (2 * p) == a % 2 + 2 * (a / 2 % p)
    ensures a / (2 * p) == a / 2 / p
  {
    var q, r := a / 2 / p, a / 2 % p;
    DivMod(a / 2, p);
    assert a == 2 * (q * p + r) + a % 2;
    assert 2 * (q * p) == q * (2 * p);
    RemainderIs(a, 2 * p, q, 2 * r + a % 2);
  }

  // Shifting right by k is the quotient by 2^k.
  lemma {:induction false} ShiftIsQuotient(a: nat, k: nat)
    ensures ShiftRight(a, k) == a / Pow2(k)
    decreases k
  {
    if k > 0 {
      ShiftIsQuotient(a / 2, k - 1);
      HalveRemainder(a, Pow2(k - 1));
    }
  }

  // c is the ceiling of n / b.
  predicate IsCeil(c: int, n: int, b: int) {
    (c - 1) * b < n <= c * b
  }

  // HASH_EXPAND_BUCKETS's (n >> lb) + ((n & (b-1)) ? 1 : 0).
  function IdealChain(n: nat, lb: nat): nat {
    ShiftRight(n, lb) + (if And(n, Pow2(lb) - 1) != 0 then 1 else 0)
  }

  lemma IdealChainIsCeil(n: nat, lb: nat)
    ensures IsCeil(IdealChain(n, lb), n, Pow2(lb))
  {
    MaskIsRemainder(n, lb);
    ShiftIsQuotient(n, lb);
    DivMod(n, Pow2(lb));
  }
}
