/** C's bitwise operators on unsigned words, and the arithmetic they come to. */
module Bits {
  import opened Arith
  import opened Words

  function And(x: nat, y: nat): nat {
    if x == 0 || y == 0 then 0 else 2 * And(x / 2, y / 2) + (x % 2) * (y % 2)
  }

  function Or(x: nat, y: nat): nat {
    if x == 0 then y
    else if y == 0 then x
    else 2 * Or(x / 2, y / 2) + if x % 2 + y % 2 == 0 then 0 else 1
  }

  function ShiftLeft(x: nat, k: nat): Word {
    (x * Pow2(k)) % 0x1_0000_0000
  }

  function ShiftRight(x: Word, k: nat): Word {
    Quotient(x, Pow2(k));
    x / Pow2(k)
  }

  lemma Quotient(x: nat, d: nat)
    requires d > 0
    ensures 0 <= x / d <= x
  {
    DivisionIs(x, d);
    AtLeastOnce(x / d, d);
  }

  lemma AtLeastOnce(q: nat, d: nat)
    requires d > 0
    ensures q * d >= q
  {
    assert q * (d - 1) >= 0;
  }

  /** The lowest bit of a product or a remainder by an even power. */
  lemma Halves(x: nat, k: nat)
    requires k > 0
    ensures x / Pow2(k) == (x / 2) / Pow2(k - 1)
    ensures x % Pow2(k) == 2 * ((x / 2) % Pow2(k - 1)) + x % 2
  {
    var p, h := Pow2(k - 1), x / 2;
    DivisionIs(h, p);
    var q, r := h / p, h % p;
    Regroup(q, 2, p);
    assert x == q * (2 * p) + (2 * r + x % 2);
    QuotientIs(x, 2 * p, q, 2 * r + x % 2);
  }

  /** A mask of k ones takes the remainder. */
  lemma {:induction false} AndMask(x: nat, k: nat)
    ensures And(x, Pow2(k) - 1) == x % Pow2(k)
  {
    if k > 0 {
      Halves(x, k);
      AndMask(x / 2, k - 1);
      assert (Pow2(k) - 1) / 2 == Pow2(k - 1) - 1 && (Pow2(k) - 1) % 2 == 1;
      if x == 0 {
        QuotientIs(0, Pow2(k), 0, 0);
      } else if k == 1 {
        assert And(x / 2, 0) == 0;
      }
    }
  }

  /** A mask of a single one finds that bit. */
  lemma {:induction false} AndBit(x: nat, k: nat)
    ensures And(x, Pow2(k)) == ((x / Pow2(k)) % 2) * Pow2(k)
  {
    if k == 0 {
      assert And(x / 2, 0) == 0;
    } else {
      Halves(x, k);
      AndBit(x / 2, k - 1);
      assert Pow2(k) / 2 == Pow2(k - 1) && Pow2(k) % 2 == 0;
      var b := (x / Pow2(k)) % 2;
      Regroup(b, 2, Pow2(k - 1));
      if x == 0 {
        QuotientIs(0, Pow2(k), 0, 0);
      }
    }
  }

  /** Fields that do not overlap are joined by adding them. */
  lemma {:induction false} OrDisjoint(a: nat, b: nat, k: nat)
    requires b < Pow2(k)
    ensures Or(a * Pow2(k), b) == a * Pow2(k) + b
  {
    if k > 0 && b > 0 && a > 0 {
      var p := Pow2(k - 1);
      Regroup(a, 2, p);
      var x := a * Pow2(k);
      assert x == 2 * (a * p) && x / 2 == a * p && x % 2 == 0;
      MulGrows(a, Pow2(k));
      OrDisjoint(a, b / 2, k - 1);
    }
  }
}
