/** Integer facts shared by the other modules: products, quotients and powers of two. */
module Arith {

  lemma MulGrows(k: int, d: int)
    requires d > 0
    ensures k >= 1 ==> k * d >= d
    ensures k <= -1 ==> k * d <= -d
  {
  }

  /** Quotient and remainder are the only way to write x as q * d + r with 0 <= r < d. */
  lemma QuotientIs(x: int, d: int, q: int, r: int)
    requires x == q * d + r && 0 <= r < d
    ensures x / d == q && x % d == r
  {
    MulGrows(x / d - q, d);
    assert (x / d - q) * d == r - x % d;
  }

  lemma Regroup(p: int, a: int, b: int)
    ensures p * (a * b) == (p * a) * b
  {
  }

  lemma Distribute(a: int, b: int, c: int)
    ensures (a + b) * c == a * c + b * c
  {
  }

  lemma EvenPlus(a: int, q: int)
    ensures (2 * a + q) % 2 == q % 2
  {
  }

  /** Quotient and remainder rebuild the number. */
  lemma DivisionIs(x: nat, d: nat)
    requires d > 0
    ensures x == (x / d) * d + x % d
  {
  }

  function Pow2(n: nat): (p: nat)
    ensures p > 0
  {
    if n == 0 then 1 else 2 * Pow2(n - 1)
  }

  lemma {:induction false} Pow2Sum(a: nat, b: nat)
    ensures Pow2(a + b) == Pow2(a) * Pow2(b)
  {
    if a > 0 {
      Pow2Sum(a - 1, b);
      Regroup(2, Pow2(a - 1), Pow2(b));
    }
  }

  lemma {:induction false} Pow2Grows(a: nat, b: nat)
    requires a < b
    ensures Pow2(a) < Pow2(b)
  {
    if a + 1 < b {
      Pow2Grows(a, b - 1);
    }
  }
}
