/** The exponent from which floatToDigits of lib/jhc/Numeric.hs searches, and whether the
    digits it gives begin with a zero. */
module FloatEstimate {
  import opened Powers
  import opened PowersOfTen
  import opened FloatDigits

  /** Zero has no digits. */
  lemma ZeroHasNone(base: nat, x: Float, estimate: int)
    requires base >= 2 && x.f0 == 0
    ensures FloatToDigits(base, x, estimate) == ([], 0)
  {}

  // ----- the first digit

  /** Digits already there stay at the end of the reversed list. */
  lemma {:induction false} GenKeeps(base: nat, ds: seq<int>, rn: nat, s: nat, up: nat, dn: nat)
    requires base >= 2 && s > 0 && up > 0
    ensures var out := Gen(base, ds, rn, s, up, dn); |out| > |ds| && out[|out| - |ds|..] == ds
    decreases if up < s then s - up else 0
  {
    var d, rn' := Quot(rn * base, s), Rem(rn * base, s);
    var up', dn' := up * base, dn * base;
    Grows(base, up);
    hide Quot, Rem;
    assert ([d] + ds)[1..] == ds && ([d + 1] + ds)[1..] == ds;
    if !(rn' < dn') && !(rn' + up' > s) {
      GenKeeps(base, [d] + ds, rn', s, up', dn');
      var out := Gen(base, [d] + ds, rn', s, up', dn');
      assert out[|out| - |ds|..] == out[|out| - |ds| - 1..][1..];
    }
  }

  lemma FirstStep(base: nat, r: nat, s: nat, up: nat, dn: nat, d: nat, rn: nat)
    requires base >= 2 && s > 0 && up > 0 && dn <= r && r * base == d * s + rn && rn < s
    ensures d == 0 ==> rn >= dn * base && ((r + up) * base > s <==> rn + up * base > s)
    ensures d > 0 ==> (r + up) * base > s
  {
    Grows(base, up);
    Distributes(r, up, base);
    MulMono(dn, r, base);
    if d > 0 { MulMono(1, d, s); }
  }

  /** The digit generated first is positive exactly if one exponent less would be too small. */
  lemma FirstOfGen(base: nat, r: nat, s: nat, up: nat, dn: nat)
    requires base >= 2 && s > 0 && up > 0 && dn <= r
    ensures var out := Gen(base, [], r, s, up, dn); |out| > 0 && (out[|out| - 1] > 0 <==> (r + up) * base > s)
  {
    var d, rn' := Quot(r * base, s), Rem(r * base, s);
    FirstStep(base, r, s, up, dn, d, rn');
    GenKeeps(base, [], r, s, up, dn);
    Grows(base, up);
    hide Quot, Rem;
    if !(rn' < dn * base) && !(rn' + up * base > s) {
      GenKeeps(base, [d], rn', s, up * base, dn * base);
      var out := Gen(base, [d], rn', s, up * base, dn * base);
      assert out[|out| - 1] == out[|out| - 1..][0];
      assert [d] + [] == [d];
    } else {
      assert [d] + [] == [d] && [d + 1] + [] == [d + 1];
    }
  }

  lemma {:induction false} ReverseFirst(ds: seq<int>)
    requires ds != []
    ensures Reverse(ds) != [] && Reverse(ds)[0] == ds[|ds| - 1]
  {
    if |ds| > 1 { ReverseFirst(ds[1..]); }
  }

  /** A larger exponent fits as well. */
  lemma FitsNext(base: nat, q: Scaled, n: int)
    requires base >= 2 && Fits(base, q, n)
    ensures Fits(base, q, n + 1)
  {
    if n >= 0 {
      MulMono(1, base, Pow(base, n));
      MulMono(Pow(base, n), Pow(base, n + 1), q.s);
    } else {
      var P := Pow(base, -n - 1);
      MulMono(1, base, P);
      MulMono(P, Pow(base, -n), q.r + q.mUp);
      assert n == -1 ==> P == 1;
    }
  }

  /** What gen starts with tells whether one exponent less would fit. */
  lemma OneLess(base: nat, q: Scaled, k: int)
    requires base >= 2
    ensures var t := ForExponent(base, q, k); (t.r + t.mUp) * base > t.s <==> !Fits(base, q, k - 1)
  {
    var t := ForExponent(base, q, k);
    var v := q.r + q.mUp;
    if k > 0 {
      var P := Pow(base, k - 1);
      assert Pow(base, k) == base * P;
      hide Pow;
      Assoc(q.s, base, P);
      assert q.s * (base * P) == (P * q.s) * base by { Assoc(P, q.s, base); }
      if v <= P * q.s { MulMono(v, P * q.s, base); } else { MulStrict(P * q.s, v, base); }
    } else {
      var P := Pow(base, -k);
      assert Pow(base, -k + 1) == base * P;
      assert k == 0 ==> P == 1;
      hide Pow;
      Distributes(q.r, q.mUp, P);
      Assoc(v, P, base);
      assert (v * P) * base == (base * P) * v;
    }
  }

  /** The first digit is positive, so that there are no leading zeros, if and only if the
      search started at most at the least exponent that fits. */
  lemma FirstDigitIff(base: nat, q: Scaled, k0: int)
    requires base >= 2 && Proper(q)
    ensures var (ds, k) := DigitsOf(base, q, k0);
      && |ds| > 0 && k >= k0
      && (ds[0] > 0 <==> !Fits(base, q, k0 - 1))
      && (ds[0] > 0 || k == k0)
  {
    var k := Fixup(base, q, k0);
    var t := ForExponent(base, q, k);
    ForExponentProper(base, q, k);
    FirstOfGen(base, t.r, t.s, t.mUp, t.mDn);
    ReverseFirst(Gen(base, [], t.r, t.s, t.mUp, t.mDn));
    OneLess(base, q, k);
    hide Gen, Fits, ForExponent, Fixup, Reverse;
    if k > k0 {
      assert !Fits(base, q, k - 1);
      FitsUpTo(base, q, k0 - 1, k - 1);
    }
  }

  lemma {:induction false} FitsUpTo(base: nat, q: Scaled, j: int, n: int)
    requires base >= 2 && j <= n
    ensures Fits(base, q, j) ==> Fits(base, q, n)
    decreases n - j
  {
    if j < n && Fits(base, q, j) {
      FitsNext(base, q, j);
      FitsUpTo(base, q, j + 1, n);
    }
  }

  // ----- the estimate for base ten

  /** r / s is the value that decodeFloat tells. */
  lemma DecodedValue(x: Float)
    requires IsFloat(x)
    ensures var (f, e) := Adjusted(x);
      var q := Scale(x.b, x.p, x.minExp, f, e);
      IsTimes(x.b, q.r, q.s, x.f0, x.e0)
  {
    AdjustedKeepsValue(x);
    var (f, e) := Adjusted(x);
    var q := Scale(x.b, x.p, x.minExp, f, e);
    ScaleMeans(x.b, x.p, x.minExp, f, e);
    SameValue(x.b, q.r, q.s, f, e, x.f0, x.e0);
  }

  lemma SameValue(b: nat, r: nat, s: nat, f: nat, e: int, f0: nat, e0: int)
    requires b >= 2 && e >= e0 && f * Pow(b, e - e0) == f0 && IsTimes(b, r, s, f, e)
    ensures IsTimes(b, r, s, f0, e0)
  {
    var P := Pow(b, e - e0);
    if e0 >= 0 {
      PowAdd(b, e - e0, e0);
      Assoc(f, P, Pow(b, e0));
    } else if e >= 0 {
      PowAdd(b, e, -e0);
      Regrouped(f, Pow(b, e), s, Pow(b, -e0));
    } else {
      PowAdd(b, -e, e - e0);
      Assoc(r, Pow(b, -e), P);
      Swapped(f, s, P);
    }
  }

  lemma Regrouped(f: int, B: int, s: int, C: int)
    ensures (f * B * s) * C == (f * (B * C)) * s
  {
    Assoc(f, B, C);
    assert (f * B * s) * C == ((f * B) * C) * s;
  }

  lemma Swapped(f: int, s: int, P: int)
    ensures (f * s) * P == (f * P) * s
  {}

  /** A mantissa that is not below 2^(p-1) makes a value that is not below 2^(p-1+e0). */
  lemma AtLeastPower(r: nat, s: nat, f0: nat, e0: int, p: nat)
    requires p >= 1 && f0 >= Pow(2, p - 1) && IsTimes(2, r, s, f0, e0)
    ensures var n := p - 1 + e0; if n >= 0 then Pow(2, n) * s <= r else s <= Pow(2, -n) * r
  {
    var n, F := p - 1 + e0, Pow(2, p - 1);
    if e0 >= 0 {
      PowAdd(2, p - 1, e0);
      MulMono(F, f0, Pow(2, e0));
      MulMono(F * Pow(2, e0), f0 * Pow(2, e0), s);
    } else {
      var E := Pow(2, -e0);
      MulMono(F, f0, s);
      if n >= 0 {
        PowAdd(2, n, -e0);
        Divided(Pow(2, n), E, s, r);
      } else {
        PowAdd(2, p - 1, -n);
        Divided2(F, Pow(2, -n), s, r);
      }
    }
  }

  lemma Divided(N: nat, E: nat, s: nat, r: nat)
    requires E > 0 && (N * E) * s <= r * E
    ensures N * s <= r
  {
    assert (N * E) * s == (N * s) * E;
    if N * s > r { MulStrict(r, N * s, E); }
  }

  lemma Divided2(F: nat, M: nat, s: nat, r: nat)
    requires F > 0 && F * s <= r * (F * M)
    ensures s <= M * r
  {
    assert r * (F * M) == (M * r) * F;
    if s > M * r { MulStrict(M * r, s, F); }
  }

  /** So three tenths of that exponent are at most one too high as an estimate, down to an
      exponent of -979. */
  lemma EstimateFits(q: Scaled, n: int)
    requires Proper(q) && n >= -979
    requires if n >= 0 then Pow(2, n) * q.s <= q.r else q.s <= Pow(2, -n) * q.r
    ensures !Fits(10, q, n * 3 / 10 - 1)
  {
    hide Pow, Fits;
    var k := n * 3 / 10;
    if n >= 4 {
      LargeEstimate(q, n, k);
    } else if n >= 0 {
      PositivePower(n, q.s);
      SmallEstimate(q, k);
    } else {
      TwoBelowTen(-n);
      NegativeEstimate(q, -n, 1 - k);
    }
  }

  lemma LargeEstimate(q: Scaled, n: nat, k: nat)
    requires Proper(q) && n >= 4 && k == 3 * n / 10 && Pow(2, n) * q.s <= q.r
    ensures !Fits(10, q, k - 1)
  {
    TenBelowTwo(n);
    assert Pow(10, k) == 10 * Pow(10, k - 1);
    hide Pow;
    MulMono(Pow(10, k - 1), Pow(2, n), q.s);
  }

  lemma NegativeEstimate(q: Scaled, m: nat, K: int)
    requires Proper(q) && K > 0 && q.s <= Pow(2, m) * q.r && Pow(2, m) <= Pow(10, K)
    ensures !Fits(10, q, -K)
  {
    hide Pow;
    MulMono(Pow(2, m), Pow(10, K), q.r);
    Distributes(q.r, q.mUp, Pow(10, K));
    MulStrict(0, q.mUp, Pow(10, K));
  }

  lemma PositivePower(n: nat, s: nat)
    ensures Pow(2, n) * s >= s
  {
    MulMono(1, Pow(2, n), s);
  }

  lemma SmallEstimate(q: Scaled, k: int)
    requires Proper(q) && q.r >= q.s && (k == 0 || k == 1)
    ensures !Fits(10, q, k - 1)
  {
    assert Pow(10, 0) == 1 && Pow(10, 1) == 10;
  }

  /** Where the search starts decides on leading zeros, for every float and base; for radix
      two and base ten that is three tenths of the exponent of the leading bit. */
  lemma LeadingZeroIff(base: nat, x: Float, estimate: int)
    requires base >= 2 && IsFloat(x)
    ensures var (f, e) := Adjusted(x);
      var q := Scale(x.b, x.p, x.minExp, f, e);
      var (ds, k) := FloatToDigits(base, x, estimate);
      var start := if x.b == 2 && base == 10 then (x.p - 1 + x.e0) * 3 / 10 else estimate;
      && |ds| > 0 && k >= start
      && (ds[0] > 0 <==> !Fits(base, q, start - 1))
      && (ds[0] > 0 || k == start)
  {
    AdjustedKeepsValue(x);
    var (f, e) := Adjusted(x);
    ScaleProper(x.b, x.p, x.minExp, f, e);
    var start := if x.b == 2 && base == 10 then (x.p - 1 + x.e0) * 3 / 10 else estimate;
    hide Adjusted, Scale, DigitsOf, Fits;
    FirstDigitIff(base, Scale(x.b, x.p, x.minExp, f, e), start);
  }

  /** For every float of radix two with a full mantissa, not below 2^-979, the digits in base
      ten do not begin with a zero. */
  lemma NoLeadingZero(x: Float, estimate: int)
    requires IsFloat(x) && x.b == 2 && x.f0 >= Pow(2, x.p - 1) && x.p - 1 + x.e0 >= -979
    ensures var ds := FloatToDigits(10, x, estimate).0; |ds| > 0 && ds[0] > 0
  {
    LeadingZeroIff(10, x, estimate);
    AdjustedKeepsValue(x);
    var (f, e) := Adjusted(x);
    var q := Scale(x.b, x.p, x.minExp, f, e);
    ScaleProper(x.b, x.p, x.minExp, f, e);
    DecodedValue(x);
    hide FloatToDigits, Adjusted, Scale, IsTimes, Fits, Pow;
    AtLeastPower(q.r, q.s, x.f0, x.e0, x.p);
    EstimateFits(q, x.p - 1 + x.e0);
  }

  /** Just below, at the power 2^-980, they do, in every format of six digits and more that
      has it, that of double precision included. */
  lemma LeadingZeroBelow(x: Float, estimate: int)
    requires IsFloat(x) && x.b == 2 && x.p >= 6 && x.minExp < x.e0
    requires x.f0 == Pow(2, x.p - 1) && x.p - 1 + x.e0 == -980
    ensures var ds := FloatToDigits(10, x, estimate).0; |ds| > 0 && ds[0] == 0
  {
    LeadingZeroIff(10, x, estimate);
    DigitsReadBack(10, x, estimate);
    hide Pow, FloatToDigits, Fits;
    BelowFits(x.f0, x.p, 295);
  }

  /** What the search starts with fits there, and so does one less. */
  lemma BelowFits(F: nat, p: nat, i: nat)
    requires p >= 6 && F == Pow(2, p - 1) && i == 295
    ensures Fits(10, Scaled(F * 2 * 2, Pow(2, 980 + p) * 2, 2, 1), 0 - i)
  {
    BelowFitsBy(98, F, p, i);
  }

  lemma BelowFitsBy(a: nat, F: nat, p: nat, i: nat)
    requires a == 98 && p >= 6 && F == Pow(2, p - 1) && i == 3 * a + 1
    ensures Pow(10, i) * (F * 2 * 2 + 2) <= Pow(2, 10 * a + p) * 2
  {
    hide Pow;
    Ninety();
    ToRatio(a, 10_2186_9992, 510, 50);
    Thousands(a);
    PowAdd(10, 3 * a, 1);
    Ten();
    PowAdd(2, 10 * a, p);
    PowAdd(2, p - 1, 1);
    PowAdd(2, 5, p - 6);
    SmallPowers(p - 6);
    Enough(Pow(1000, a), Pow(1024, a), F);
    Commutes(Pow(1000, a), 10);
    Commutes(F, 2);
  }

  lemma SmallPowers(k: nat)
    ensures Pow(2, 1) == 2 && Pow(2, 5) == 32 && Pow(2, k) >= 1
  {}

  lemma Enough(T: nat, X: nat, F: nat)
    requires 510 * T <= 50 * X && F >= 32
    ensures (10 * T) * (F * 2 * 2 + 2) <= (X * (2 * F)) * 2
  {
    MulMono(510 * T, 50 * X, F);
    MulMono(32, F, T);
    assert (10 * T) * (F * 2 * 2 + 2) == 40 * (T * F) + 20 * T;
    assert (X * (2 * F)) * 2 == 4 * (X * F) && (510 * T) * F == 510 * (T * F) && (50 * X) * F == 50 * (X * F);
    assert 32 * T <= F * T == T * F;
  }
}
