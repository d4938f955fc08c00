/** The number a word stands for, and what masking with `~(B - 1)` does to it. */
module BitValues {
  import opened Bits
  import opened Powers

  /** The number the bits below `n` stand for. */
  function LowNumber(w: bv64, n: nat): nat
    requires n <= 64
  {
    if n == 0 then 0 else LowNumber(w, n - 1) + if Bit(w, n - 1) then Pow(2, n - 1) else 0
  }

  function Number(w: bv64): nat { LowNumber(w, 64) }

  lemma {:induction false} LowNumberBound(w: bv64, n: nat)
    requires n <= 64
    ensures LowNumber(w, n) < Pow(2, n)
  {
    hide Bit;
    if n > 0 {
      LowNumberBound(w, n - 1);
      assert Pow(2, n) == 2 * Pow(2, n - 1);
    }
  }

  lemma BothSingle(w: bv64, n: bv64, m: bv64)
    requires Single(m)
    ensures Test(w & n, m) <==> Test(w, m) && Test(n, m)
  {}

  lemma AndSingle(w: bv64, n: bv64, m: bv64)
    requires Single(m)
    ensures Test(And(w, n), m) <==> Test(w, m) && Test(n, m)
  {
    hide Test, Single;
    BothSingle(w, n, m);
  }

  lemma AndBit(w: bv64, n: bv64, i: nat)
    requires i < 64
    ensures Bit(And(w, n), i) <==> Bit(w, i) && Bit(n, i)
  {
    hide Mask, Single, Test, And;
    MaskSingle(i);
    AndSingle(w, n, Mask(i));
  }

  /** Masking keeps exactly the bits from `e` upwards. */
  lemma MaskedBit(w: bv64, e: nat, i: nat)
    requires e < 64 && i < 64
    ensures Bit(And(w, Not(Below(e))), i) <==> Bit(w, i) && e <= i
  {
    hide *;
    FromBits(e, i);
    AndBit(w, Not(Below(e)), i);
  }

  /** What is left after masking is a multiple of 2^e, and the low bits make up the rest. */
  lemma {:induction false} MaskedNumber(w: bv64, e: nat, n: nat)
    requires e < 64 && n <= 64
    ensures LowNumber(And(w, Not(Below(e))), n) == LowNumber(w, n) - LowNumber(w, if n < e then n else e)
    ensures LowNumber(And(w, Not(Below(e))), n) % Pow(2, e) == 0
  {
    if n > 0 {
      MaskedNumber(w, e, n - 1);
      MaskedBit(w, e, n - 1);
      hide Bit, Below, And, Not;
      if n > e {
        PowAdd(2, e, n - 1 - e);
        var q, p, k := LowNumber(And(w, Not(Below(e))), n - 1) / Pow(2, e), Pow(2, e), Pow(2, n - 1 - e);
        hide Pow, LowNumber;
        SumOfMultiples(LowNumber(And(w, Not(Below(e))), n - 1), p, k);
      }
    } else {
      assert 0 == 0 * Pow(2, e);
      DivModUnique(0, Pow(2, e), 0, 0);
    }
  }

  lemma SumOfMultiples(x: nat, p: nat, k: nat)
    requires p > 0 && x % p == 0
    ensures (x + p * k) % p == 0
  {
    var q := x / p;
    assert (q + k) * p == q * p + p * k;
    DivModUnique(x + p * k, p, q + k, 0);
  }

  lemma LargestMultiple(x: nat, y: nat, r: nat, p: nat)
    requires p > 0 && x % p == 0 && x + r == y && r < p
    ensures x == y / p * p
  {
    assert x == x / p * p;
    DivModUnique(y, p, x / p, r);
  }

  /** `w & ~(2^e - 1)` is the largest multiple of 2^e that is not above `w`. */
  lemma MaskDropsRemainder(w: bv64, e: nat)
    requires e < 64
    ensures Number(And(w, Not(Below(e)))) == Number(w) / Pow(2, e) * Pow(2, e)
  {
    MaskedNumber(w, e, 64);
    LowNumberBound(w, e);
    hide Bit, Below, And, Not, LowNumber, Pow;
    LargestMultiple(LowNumber(And(w, Not(Below(e))), 64), LowNumber(w, 64), LowNumber(w, e), Pow(2, e));
  }
}
