/** Bitwise operators on natural numbers, bit by bit, and the facts that turn a
    mask or a shift into division and remainder by a power of two. */
module Bits {

  function Pow2(k: nat): (r: nat)
    ensures r >= 1
  {
    if k == 0 then 1 else 2 * Pow2(k - 1)
  }

  function Shr(a: nat, k: nat): nat
    decreases k
  {
    if k == 0 then a else Shr(a / 2, k - 1)
  }

  function Or(a: nat, b: nat): nat
    decreases a + b
  {
    if a == 0 && b == 0 then 0
    else (if a % 2 == 1 || b % 2 == 1 then 1 else 0) + 2 * Or(a / 2, b / 2)
  }

  function And(a: nat, b: nat): nat
    decreases a + b
  {
    if a == 0 && b == 0 then 0
    else (if a % 2 == 1 && b % 2 == 1 then 1 else 0) + 2 * And(a / 2, b / 2)
  }

  lemma MulGrows(x: nat, d: nat)
    requires x >= 1
    ensures x * d >= d
  {
  }

  lemma {:induction false} DivUnique(a: nat, d: nat, q: nat, r: nat)
    requires d > 0 && r < d && a == q * d + r
    ensures a / d == q && a % d == r
  {
    var q', r' := a / d, a % d;
    assert (q' - q) * d == r - r';
    if q' > q { MulGrows(q' - q, d); } else if q > q' { MulGrows(q - q', d); }
  }

  /** Dividing by twice a number is halving first. */
  lemma {:induction false} DivDouble(a: nat, d: nat)
    requires d > 0
    ensures a / (2 * d) == (a / 2) / d
  {
    var q, r := DivParts(a / 2, d);
    assert q * (2 * d) == 2 * (q * d);
    DivUnique(a, 2 * d, q, 2 * r + a % 2);
  }

  /** Shifting right by k divides by 2^k. */
  lemma {:induction false} ShrIsDiv(a: nat, k: nat)
    ensures Shr(a, k) == a / Pow2(k)
    decreases k
  {
    if k > 0 {
      ShrIsDiv(a / 2, k - 1);
      DivDouble(a, Pow2(k - 1));
    }
  }

  /** Splitting both operands at bit k splits the result at bit k. */
  lemma {:induction false} OrSplit(k: nat, ah: nat, al: nat, bh: nat, bl: nat)
    requires al < Pow2(k) && bl < Pow2(k)
    ensures Or(al, bl) < Pow2(k)
    ensures Or(ah * Pow2(k) + al, bh * Pow2(k) + bl) == Or(ah, bh) * Pow2(k) + Or(al, bl)
  {
    if k > 0 {
      var p := Pow2(k - 1);
      OrSplit(k - 1, ah, al / 2, bh, bl / 2);
      Doubled(ah, p, al);
      Doubled(bh, p, bl);
      Doubled(Or(ah, bh), p, Or(al, bl));
    }
  }

  lemma {:induction false} AndSplit(k: nat, ah: nat, al: nat, bh: nat, bl: nat)
    requires al < Pow2(k) && bl < Pow2(k)
    ensures And(al, bl) < Pow2(k)
    ensures And(ah * Pow2(k) + al, bh * Pow2(k) + bl) == And(ah, bh) * Pow2(k) + And(al, bl)
  {
    if k > 0 {
      var p := Pow2(k - 1);
      AndSplit(k - 1, ah, al / 2, bh, bl / 2);
      Doubled(ah, p, al);
      Doubled(bh, p, bl);
      Doubled(And(ah, bh), p, And(al, bl));
    }
  }

  lemma Doubled(h: nat, p: nat, l: nat)
    ensures (h * (2 * p) + l) / 2 == h * p + l / 2
    ensures (h * (2 * p) + l) % 2 == l % 2
  {
    assert h * (2 * p) == 2 * (h * p);
  }

  lemma OrZero(a: nat)
    ensures Or(a, 0) == a && Or(0, a) == a
  {
    if a > 0 { OrZero(a / 2); }
  }

  lemma AndZero(a: nat)
    ensures And(a, 0) == 0 && And(0, a) == 0
  {
    if a > 0 { AndZero(a / 2); }
  }

  /** A mask of k ones keeps everything below bit k. */
  lemma {:induction false} AndOnes(k: nat, a: nat)
    requires a < Pow2(k)
    ensures And(a, Pow2(k) - 1) == a
  {
    if k > 0 {
      AndOnes(k - 1, a / 2);
    }
  }

  lemma {:induction false} PowAdd(j: nat, k: nat)
    ensures Pow2(j + k) == Pow2(j) * Pow2(k)
  {
    if j > 0 {
      PowAdd(j - 1, k);
      assert 2 * (Pow2(j - 1) * Pow2(k)) == (2 * Pow2(j - 1)) * Pow2(k);
    }
  }

  lemma {:induction false} PowMono(j: nat, k: nat)
    requires j <= k
    ensures Pow2(j) <= Pow2(k)
  {
    if j < k { PowMono(j, k - 1); }
  }

  lemma {:induction false} AndLowParts(k: nat, a: nat, h: nat, l: nat)
    requires l < Pow2(k) && a == h * Pow2(k) + l
    ensures And(a, Pow2(k) - 1) == l
  {
    AndSplit(k, h, l, 0, Pow2(k) - 1);
    AndZero(h);
    AndOnes(k, l);
  }

  lemma {:induction false} AndFieldParts(j: nat, k: nat, a: nat, q: nat, l: nat)
    requires l < Pow2(j) && a == q * Pow2(j) + l
    ensures And(a, (Pow2(k) - 1) * Pow2(j)) == And(q, Pow2(k) - 1) * Pow2(j)
  {
    AndSplit(j, q, l, Pow2(k) - 1, 0);
    AndZero(l);
  }

  /** Splitting a number by a divisor, with the quotient and remainder named. */
  lemma DivParts(a: nat, d: nat) returns (q: nat, r: nat)
    requires d > 0
    ensures q == a / d && r == a % d && r < d && a == q * d + r
  {
    q, r := a / d, a % d;
  }

  /** A mask of k ones keeps the remainder modulo 2^k. */
  lemma {:induction false} AndLow(k: nat, a: nat)
    ensures And(a, Pow2(k) - 1) == a % Pow2(k)
  {
    var q, r := DivParts(a, Pow2(k));
    AndLowParts(k, a, q, r);
  }

  /** A mask of k ones standing at bit j keeps k bits from bit j up. */
  lemma {:induction false} AndField(j: nat, k: nat, a: nat)
    ensures And(a, (Pow2(k) - 1) * Pow2(j)) == (a / Pow2(j)) % Pow2(k) * Pow2(j)
  {
    var q, r := DivParts(a, Pow2(j));
    AndFieldParts(j, k, a, q, r);
    AndLow(k, q);
  }
}
