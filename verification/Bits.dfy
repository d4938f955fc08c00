/** The bits of one `bitarray_t` unit (rts/sys/bitarray.h), a 64-bit word.
    The lemmas here reduce the word operations of the collector to statements
    about single bits, so that no other module reasons about bit vectors. */
module Bits {
  const TOP: bv64 := 0x8000_0000_0000_0000
  const ALL: bv64 := 0xffff_ffff_ffff_ffff

  /** WHICH_BIT: the word whose only set bit is number `i`, that is `1UL << i`. */
  function Mask(i: nat): bv64
    requires i < 64
  {
    if i == 0 then 1 else Mask(i - 1) << 1
  }

  /** `(1UL << e) - 1`, the word whose bits below `e` are set. */
  function Below(e: nat): bv64
    requires e < 64
  {
    Mask(e) - 1
  }

  function Or(w: bv64, m: bv64): bv64 { w | m }

  function And(w: bv64, m: bv64): bv64 { w & m }

  function Not(w: bv64): bv64 { !w }

  predicate Test(w: bv64, m: bv64) { w & m != 0 }

  /** BIT_IS_SET on one unit. */
  predicate Bit(w: bv64, i: nat)
    requires i < 64
  {
    Test(w, Mask(i))
  }

  predicate Single(m: bv64) { m != 0 && m & (m - 1) == 0 }

  predicate Apart(m: bv64, n: bv64) { m & n == 0 }

  // ----- facts about words, left to the solver's bit-vector theory

  lemma ApartSym(a: bv64, b: bv64)
    ensures Apart(a, b) == Apart(b, a)
  {}

  lemma ApartShift(a: bv64, b: bv64)
    requires Apart(a, b)
    ensures Apart(a << 1, b << 1)
  {}

  lemma ApartOne(a: bv64)
    ensures Apart(1, a << 1)
  {}

  lemma SingleShift(m: bv64)
    requires Single(m) && m != TOP
    ensures Single(m << 1) && (m << 1) - 1 == (m - 1) | m
  {}

  lemma AndOr(w: bv64, m: bv64, n: bv64)
    ensures (w | m) & n == (w & n) | (m & n)
  {}

  lemma OrZero(w: bv64, z: bv64)
    requires z == 0
    ensures w | z == w
  {}

  lemma OrOther(w: bv64, m: bv64, n: bv64)
    requires Apart(m, n)
    ensures Test(Or(w, m), n) == Test(w, n)
  {
    AndOr(w, m, n);
    OrZero(w & n, m & n);
  }

  lemma OrSame(w: bv64, m: bv64)
    requires Single(m)
    ensures Test(Or(w, m), m)
  {
    assert (w | m) & m == m;
  }

  lemma Flipped(w: bv64, m: bv64)
    requires Single(m)
    ensures Test(!w, m) <==> !Test(w, m)
  {}

  lemma Complement(w: bv64, m: bv64)
    requires Single(m)
    ensures Test(Not(w), m) <==> !Test(w, m)
  {
    hide Test, Single;
    Flipped(w, m);
  }

  lemma TestUnion(w: bv64, a: bv64, b: bv64)
    requires !Test(w, a) && !Test(w, b)
    ensures !Test(w, Or(a, b))
  {}

  lemma TestWhole(w: bv64)
    requires !Test(w, Or(TOP - 1, TOP))
    ensures w == 0
  {}

  // ----- facts about masks

  lemma {:induction false} MasksApart(i: nat, j: nat)
    requires i < 64 && j < 64 && i != j
    ensures Apart(Mask(i), Mask(j))
  {
    ApartSym(Mask(i), Mask(j));
    if i == 0 {
      ApartOne(Mask(j - 1));
    } else if j == 0 {
      ApartOne(Mask(i - 1));
    } else {
      MasksApart(i - 1, j - 1);
      ApartShift(Mask(i - 1), Mask(j - 1));
    }
  }

  lemma TopMask()
    ensures Mask(63) == TOP
  {
    assert Mask(7) == 0x80;
    assert Mask(14) == 0x4000;
    assert Mask(21) == 0x20_0000;
    assert Mask(28) == 0x1000_0000;
    assert Mask(35) == 0x8_0000_0000;
    assert Mask(42) == 0x400_0000_0000;
    assert Mask(49) == 0x2_0000_0000_0000;
    assert Mask(56) == 0x100_0000_0000_0000;
  }

  lemma NotTop(i: nat)
    requires i < 63
    ensures Mask(i) != TOP
  {
    TopMask();
    MasksApart(i, 63);
  }

  lemma {:induction false} MaskSingle(i: nat)
    requires i < 64
    ensures Single(Mask(i))
    ensures i < 63 ==> Below(i + 1) == Or(Below(i), Mask(i))
  {
    if i > 0 {
      MaskSingle(i - 1);
      NotTop(i - 1);
      SingleShift(Mask(i - 1));
    }
    if i < 63 {
      NotTop(i);
      SingleShift(Mask(i));
    }
  }

  // ----- the operations, bit by bit

  lemma SetSame(w: bv64, i: nat)
    requires i < 64
    ensures Bit(Or(w, Mask(i)), i)
  {
    MaskSingle(i);
    OrSame(w, Mask(i));
  }

  lemma OrOtherAt(w: bv64, m: bv64, j: nat)
    requires j < 64 && Apart(m, Mask(j))
    ensures Bit(Or(w, m), j) == Bit(w, j)
  {
    OrOther(w, m, Mask(j));
  }

  /** `w |= 1UL << i` sets bit `i` and no other. */
  lemma SetBit(w: bv64, i: nat, j: nat)
    requires i < 64 && j < 64
    ensures Bit(Or(w, Mask(i)), j) == (i == j || Bit(w, j))
  {
    hide *;
    if i == j {
      SetSame(w, i);
    } else {
      MasksApart(i, j);
      OrOtherAt(w, Mask(i), j);
    }
  }

  lemma {:induction false} BelowBits(e: nat, i: nat)
    requires e < 64 && i < 64
    ensures Bit(Below(e), i) <==> i < e
  {
    if e > 0 {
      hide *;
      MaskSingle(e - 1);
      BelowBits(e - 1, i);
      SetBit(Below(e - 1), e - 1, i);
    } else {
      ZeroBits(i);
    }
  }

  lemma NotBit(w: bv64, i: nat)
    requires i < 64
    ensures Bit(Not(w), i) <==> !Bit(w, i)
  {
    MaskSingle(i);
    Complement(w, Mask(i));
  }

  /** `~((1UL << e) - 1)` has exactly the bits from `e` upwards. */
  lemma FromBits(e: nat, i: nat)
    requires e < 64 && i < 64
    ensures Bit(Not(Below(e)), i) <==> e <= i
  {
    hide *;
    BelowBits(e, i);
    NotBit(Below(e), i);
  }

  lemma OneBits(i: nat)
    requires i < 64
    ensures Bit(1, i) <==> i == 0
  {
    if i > 0 { MasksApart(0, i); } else { SetSame(0, 0); }
  }

  lemma ZeroBits(i: nat)
    requires i < 64
    ensures !Bit(0, i)
  {}

  lemma {:induction false} NoBitBelow(w: bv64, e: nat)
    requires e < 64
    requires forall k: nat | k < e :: !Bit(w, k)
    ensures !Test(w, Below(e))
  {
    if e > 0 {
      NoBitBelow(w, e - 1);
      MaskSingle(e - 1);
      assert !Bit(w, e - 1);
      TestUnion(w, Below(e - 1), Mask(e - 1));
    }
  }

  /** A word is zero if and only if none of its 64 bits is set. */
  lemma ZeroIffNoBit(w: bv64)
    ensures w == 0 <==> forall i: nat | i < 64 :: !Bit(w, i)
  {
    if forall i: nat | i < 64 :: !Bit(w, i) {
      NoBitBelow(w, 63);
      TopMask();
      assert !Bit(w, 63);
      TestUnion(w, Below(63), Mask(63));
      TestWhole(w);
    }
  }

  /** `__builtin_ffsl(~w)`: one plus the number of the lowest clear bit of `w`,
      or zero when every bit is set. */
  function FfsNot(w: bv64): (o: nat)
    ensures o <= 64
    ensures o == 0 <==> forall i: nat | i < 64 :: Bit(w, i)
    ensures o > 0 ==> !Bit(w, o - 1) && forall i: nat | i < o - 1 :: Bit(w, i)
  {
    FirstClear(w, 0)
  }

  function FirstClear(w: bv64, i: nat): (o: nat)
    requires i <= 64
    ensures o <= 64
    ensures o == 0 <==> forall k: nat | i <= k < 64 :: Bit(w, k)
    ensures o > 0 ==> i < o && !Bit(w, o - 1) && forall k: nat | i <= k < o - 1 :: Bit(w, k)
    decreases 64 - i
  {
    if i == 64 then 0 else if !Bit(w, i) then i + 1 else FirstClear(w, i + 1)
  }

  lemma AllBits(i: nat)
    requires i < 64
    ensures Bit(ALL, i)
  {
    NotBit(0, i);
    assert Not(0) == ALL;
  }

  /** The builtin reports "no bit" on exactly the word whose bits are all set. */
  lemma FfsNotZero(w: bv64)
    ensures FfsNot(w) == 0 <==> w == ALL
  {
    var v := Not(w);
    ZeroIffNoBit(v);
    var o := FfsNot(w);
    if o > 0 {
      NotBit(w, o - 1);
    } else {
      forall i: nat | i < 64
        ensures !Bit(v, i)
      {
        NotBit(w, i);
      }
    }
  }
}
