/** floatToDigits of lib/jhc/Numeric.hs: the digits of a floating point number. */
module FloatDigits {
  import opened Powers

  /** The value r / s, with the distances mUp / s and mDn / s it may be missed by. */
  datatype Scaled = Scaled(r: nat, s: nat, mUp: nat, mDn: nat)

  ghost predicate Proper(q: Scaled) { q.r > 0 && q.s > 0 && q.mUp > 0 && 0 < q.mDn <= q.r }

  // ----- gen

  /** The reversed digits so far, as a number. */
  function RevNum(base: nat, ds: seq<int>): int {
    if ds == [] then 0 else ds[0] + base * RevNum(base, ds[1..])
  }

  function Rem(a: nat, m: nat): (r: nat)
    requires m > 0
    ensures r < m && a == Quot(a, m) * m + r
  {
    a % m
  }

  lemma Grows(base: nat, m: nat)
    requires base >= 2 && m > 0
    ensures m * base > m
  {}

  function Gen(base: nat, ds: seq<int>, rn: nat, s: nat, up: nat, dn: nat): seq<int>
    requires base >= 2 && s > 0 && up > 0
    decreases if up < s then s - up else 0
  {
    var d, rn' := Quot(rn * base, s), Rem(rn * base, s);
    var up', dn' := up * base, dn * base;
    Grows(base, up);
    if rn' < dn' && !(rn' + up' > s) then [d] + ds
    else if !(rn' < dn') && rn' + up' > s then [d + 1] + ds
    else if rn' < dn' && rn' + up' > s then
      if rn' * 2 < s then [d] + ds else [d + 1] + ds
    else Gen(base, [d] + ds, rn', s, up', dn')
  }

  // ----- what gen keeps

  /** After the digits `ds`: what is left of R / S and of the two distances, all scaled by
      base^|ds|. */
  ghost predicate Tracks(base: nat, q: Scaled, ds: seq<int>, rn: int, up: int, dn: int) {
    var P := Pow(base, |ds|);
    && rn == q.r * P - RevNum(base, ds) * q.s
    && up == q.mUp * P && dn == q.mDn * P
  }

  /** N / base^n lies strictly between (r - mDn) / s and (r + mUp) / s. */
  ghost predicate Within(base: nat, q: Scaled, n: nat, N: int) {
    (q.r - q.mDn) * Pow(base, n) < N * q.s < (q.r + q.mUp) * Pow(base, n)
  }

  /** How far N / base^n is from r / s, scaled by s * base^n. */
  function Distance(base: nat, q: Scaled, n: nat, N: int): nat {
    var d := N * q.s - q.r * Pow(base, n);
    if d < 0 then -d else d
  }

  /** No number of `n` digits within the distances is nearer than `V`, nor as near and
      larger. */
  ghost predicate Nearest(base: nat, q: Scaled, n: nat, V: int) {
    forall N | Within(base, q, n, N) :: NoBetter(base, q, n, N, V)
  }

  ghost predicate NoBetter(base: nat, q: Scaled, n: nat, N: int, V: int) {
    Distance(base, q, n, V) < Distance(base, q, n, N) || (Distance(base, q, n, V) == Distance(base, q, n, N) && N <= V)
  }

  lemma TracksNext(base: nat, q: Scaled, ds: seq<int>, rn: nat, up: nat, dn: nat, d: nat, rn': nat)
    requires Tracks(base, q, ds, rn, up, dn) && rn * base == d * q.s + rn'
    ensures Tracks(base, q, [d] + ds, rn', up * base, dn * base)
  {
    var P := Pow(base, |ds|);
    var D := RevNum(base, ds);
    assert Pow(base, |[d] + ds|) == base * P;
    assert ([d] + ds)[1..] == ds;
    assert RevNum(base, [d] + ds) == d + base * D;
    hide Pow, RevNum;
    NextRest(q.r, P, D, q.s, base, d);
    assert (q.mUp * P) * base == q.mUp * (base * P);
    assert (q.mDn * P) * base == q.mDn * (base * P);
  }

  lemma NextRest(R: int, P: int, D: int, S: int, base: int, d: int)
    ensures (R * P - D * S) * base == R * (base * P) - (d + base * D) * S + d * S
  {
    assert (R * P) * base == R * (base * P);
    assert (D * S) * base == (base * D) * S;
    assert (d + base * D) * S == d * S + (base * D) * S;
  }

  /** Where generation goes on, no number of that length is near enough. */
  lemma NoneNearEnough(base: nat, q: Scaled, ds: seq<int>, rn: nat, up: nat, dn: nat, N: int)
    requires Tracks(base, q, ds, rn, up, dn) && dn <= rn && rn + up <= q.s
    ensures !Within(base, q, |ds|, N)
  {
    var P := Pow(base, |ds|);
    var D := RevNum(base, ds);
    hide Pow, RevNum;
    assert (q.r - q.mDn) * P == q.r * P - q.mDn * P;
    assert (q.r + q.mUp) * P == q.r * P + q.mUp * P;
    NoMultipleBetween(q.s, D, N, q.r * P, up, dn);
  }

  lemma NoMultipleBetween(S: int, D: int, N: int, X: int, up: int, dn: int)
    requires S >= 0 && dn <= X - D * S && X - D * S + up <= S
    ensures !(X - dn < N * S < X + up)
  {
    if N <= D {
      MulMono(N, D, S);
    } else {
      MulMono(D + 1, N, S);
      assert (D + 1) * S == D * S + S;
    }
  }

  /** The last digit: near enough, and nothing of that length is nearer. */
  lemma LastDigit(base: nat, q: Scaled, ds: seq<int>, x: int, rn: int, up: int, dn: int)
    requires q.s > 0 && Tracks(base, q, [x] + ds, rn, up, dn) && 0 <= rn < q.s && up > 0 && dn > 0
    requires rn < dn || rn + up > q.s
    ensures var y := if rn < dn && (rn + up <= q.s || rn * 2 < q.s) then x else x + 1;
      && Within(base, q, |ds| + 1, RevNum(base, [y] + ds))
      && Nearest(base, q, |ds| + 1, RevNum(base, [y] + ds))
  {
    var P := Pow(base, |ds| + 1);
    var D := RevNum(base, [x] + ds);
    assert ([x] + ds)[1..] == ds && ([x + 1] + ds)[1..] == ds;
    assert RevNum(base, [x + 1] + ds) == D + 1;
    assert |[x] + ds| == |ds| + 1;
    assert rn == q.r * P - D * q.s && up == q.mUp * P && dn == q.mDn * P;
    hide RevNum, Pow;
    assert (q.r - q.mDn) * P == q.r * P - dn;
    assert (q.r + q.mUp) * P == q.r * P + up;
    assert (D + 1) * q.s == D * q.s + q.s;
    var n := |ds| + 1;
    forall N | Within(base, q, n, N)
      ensures NoBetter(base, q, n, N, if rn < dn && (rn + up <= q.s || rn * 2 < q.s) then D else D + 1)
    {
      NearestOfAll(q.s, D, N, q.r * P, rn, up, dn);
    }
  }

  lemma NearestOfAll(S: int, D: int, N: int, X: int, rn: int, up: int, dn: int)
    requires S > 0 && 0 <= rn < S && rn == X - D * S
    requires X - dn < N * S < X + up
    requires rn < dn || rn + up > S
    ensures (rn < dn && (rn + up <= S || rn * 2 < S)) ==> Abs(D * S - X) < Abs(N * S - X) || N == D
    ensures !(rn < dn && (rn + up <= S || rn * 2 < S)) ==>
      Abs((D + 1) * S - X) < Abs(N * S - X) || (Abs((D + 1) * S - X) == Abs(N * S - X) && N <= D + 1)
  {
    Distributes(D, 1, S);
    if N < D {
      MulStrict(N, D, S);
    } else if N > D + 1 {
      MulStrict(D + 1, N, S);
    }
  }

  function Abs(x: int): int { if x < 0 then -x else x }

  /** A digit is below the base, also after the last one is rounded up. */
  lemma DigitInRange(base: nat, rn: nat, s: nat, up: nat, d: nat, rn': nat)
    requires base >= 2 && up > 0 && rn + up <= s && rn * base == d * s + rn' && rn' < s
    ensures d < base && (rn' + up * base > s ==> d + 1 < base)
  {
    MulMono(rn + up, s, base);
    assert (rn + up) * base == rn * base + up * base;
    Grows(base, up);
    if d >= base { MulMono(base, d, s); }
    if d + 1 >= base { MulMono(base, d + 1, s); assert (d + 1) * s == d * s + s; }
  }

  /** gen: the digits are in range, the number they stand for is within the distances, none
      of fewer digits is, and none of as many digits is nearer. */
  lemma {:induction false} GenCorrect(base: nat, q: Scaled, ds: seq<int>, rn: nat, up: nat, dn: nat)
    requires base >= 2 && Proper(q) && Tracks(base, q, ds, rn, up, dn) && Digits(base, ds)
    requires up > 0 && 0 < dn <= rn && rn + up <= q.s
    ensures var out := Gen(base, ds, rn, q.s, up, dn);
      && |out| > |ds| && Digits(base, out)
      && Within(base, q, |out|, RevNum(base, out))
      && (forall j: nat, N | |ds| <= j < |out| :: !Within(base, q, j, N))
      && Nearest(base, q, |out|, RevNum(base, out))
    decreases if up < q.s then q.s - up else 0
  {
    hide Tracks, Within, Distance, Nearest, RevNum, Pow;
    var d, rn' := Quot(rn * base, q.s), Rem(rn * base, q.s);
    DigitInRange(base, rn, q.s, up, d, rn');
    TracksNext(base, q, ds, rn, up, dn, d, rn');
    Grows(base, up);
    Grows(base, dn);
    hide Quot, Rem;
    forall N
      ensures !Within(base, q, |ds|, N)
    {
      NoneNearEnough(base, q, ds, rn, up, dn, N);
    }
    if rn' < dn * base || rn' + up * base > q.s {
      LastDigit(base, q, ds, d, rn', up * base, dn * base);
    } else {
      GenCorrect(base, q, [d] + ds, rn', up * base, dn * base);
    }
  }

  // ----- fixup

  /** The test of fixup: (r + mUp) / s is at most base^n, for either sign of n. */
  predicate Fits(base: nat, q: Scaled, n: int) {
    if n >= 0 then q.r + q.mUp <= Pow(base, n) * q.s
    else Pow(base, -n) * (q.r + q.mUp) <= q.s
  }

  lemma FitsInTheEnd(base: nat, q: Scaled, n: int)
    requires base >= 2 && q.s > 0 && n >= q.r + q.mUp
    ensures Fits(base, q, n)
  {
    PowExceeds(base, n);
    MulMono(1, q.s, Pow(base, n));
  }

  /** fixup: the first exponent from the estimate on that is large enough. */
  function Fixup(base: nat, q: Scaled, n: int): (k: int)
    requires base >= 2 && q.s > 0
    ensures k >= n && Fits(base, q, k) && forall j | n <= j < k :: !Fits(base, q, j)
    decreases if n < q.r + q.mUp then q.r + q.mUp - n else 0
  {
    if Fits(base, q, n) then n
    else
      assert n < q.r + q.mUp by { if n >= q.r + q.mUp { FitsInTheEnd(base, q, n); } }
      Fixup(base, q, n + 1)
  }

  // ----- floatToDigits

  function Reverse(ds: seq<int>): (r: seq<int>)
    ensures |r| == |ds|
  {
    if ds == [] then [] else Reverse(ds[1..]) + [ds[0]]
  }

  /** The distances scaled for exponent `k`, as gen gets them. */
  function ForExponent(base: nat, q: Scaled, k: int): Scaled {
    if k >= 0 then Scaled(q.r, q.s * Pow(base, k), q.mUp, q.mDn)
    else var bk := Pow(base, -k); Scaled(q.r * bk, q.s, q.mUp * bk, q.mDn * bk)
  }

  lemma ForExponentProper(base: nat, q: Scaled, k: int)
    requires base >= 2 && Proper(q)
    ensures Proper(ForExponent(base, q, k))
  {
    if k >= 0 {
      MulStrict(0, q.s, Pow(base, k));
    } else {
      var bk := Pow(base, -k);
      MulStrict(0, q.r, bk);
      MulStrict(0, q.mUp, bk);
      MulStrict(0, q.mDn, bk);
      MulMono(q.mDn, q.r, bk);
    }
  }

  function DigitsOf(base: nat, q: Scaled, k0: int): (seq<int>, int)
    requires base >= 2 && Proper(q)
  {
    var k := Fixup(base, q, k0);
    var t := ForExponent(base, q, k);
    ForExponentProper(base, q, k);
    (Reverse(Gen(base, [], t.r, t.s, t.mUp, t.mDn)), k)
  }

  lemma {:induction false} RevNumReversed(base: nat, ds: seq<int>)
    ensures Num(base, Reverse(ds)) == RevNum(base, ds)
    ensures Digits(base, ds) ==> Digits(base, Reverse(ds))
  {
    if ds != [] {
      RevNumReversed(base, ds[1..]);
      NumAtEnd(base, Reverse(ds[1..]), ds[0]);
    }
  }

  lemma {:induction false} NumAtEnd(base: nat, ds: seq<int>, d: int)
    ensures Num(base, ds + [d]) == base * Num(base, ds) + d
  {
    if ds == [] {
      assert [] + [d] == [d] && [d][1..] == [];
      assert Num(base, [d]) == d * Pow(base, 0) + Num(base, []);
    } else {
      NumAtEnd(base, ds[1..], d);
      assert (ds + [d])[1..] == ds[1..] + [d];
      var P := Pow(base, |ds| - 1);
      assert Pow(base, |ds|) == base * P;
      assert Num(base, ds) == ds[0] * P + Num(base, ds[1..]);
      assert Num(base, ds + [d]) == ds[0] * Pow(base, |ds|) + Num(base, ds[1..] + [d]);
      hide Pow, Num;
      AtEndStep(ds[0], base, P, Num(base, ds[1..]), d);
    }
  }

  lemma AtEndStep(x: int, base: int, P: int, n: int, d: int)
    ensures x * (base * P) + (base * n + d) == base * (x * P + n) + d
  {
    assert x * (base * P) == base * (x * P);
    assert base * (x * P + n) == base * (x * P) + base * n;
  }

  /** Digit generation may start at the exponent that fixup gives. */
  lemma ReadyToStart(base: nat, q: Scaled, k: int)
    requires base >= 2 && Proper(q) && Fits(base, q, k)
    ensures var t := ForExponent(base, q, k);
            Proper(t) && t.r + t.mUp <= t.s && Tracks(base, t, [], t.r, t.mUp, t.mDn)
  {
    var t := ForExponent(base, q, k);
    ForExponentProper(base, q, k);
    if k < 0 { Distributes(q.r, q.mUp, Pow(base, -k)); }
    assert Pow(base, 0) == 1;
  }

  /** For every number and estimate: with k the exponent that comes out, the digits are in
      range, 0.digits times base^k is within the distances of the value, no shorter list of
      digits is, and none of this length is nearer. */
  lemma DigitsCorrect(base: nat, q: Scaled, k0: int)
    requires base >= 2 && Proper(q)
    ensures var (ds, k) := DigitsOf(base, q, k0);
      var t := ForExponent(base, q, k);
      && |ds| > 0 && Digits(base, ds)
      && Within(base, t, |ds|, Num(base, ds))
      && (forall j: nat, N | j < |ds| :: !Within(base, t, j, N))
      && Nearest(base, t, |ds|, Num(base, ds))
  {
    var k := Fixup(base, q, k0);
    var t := ForExponent(base, q, k);
    hide Fixup, Fits, ForExponent, Proper, Tracks, Within, Nearest, Gen, Digits, RevNum, Num, Pow;
    ReadyToStart(base, q, k);
    StartIsPositive(t);
    GenCorrect(base, t, [], t.r, t.mUp, t.mDn);
    RevNumReversed(base, Gen(base, [], t.r, t.s, t.mUp, t.mDn));
  }

  lemma StartIsPositive(t: Scaled)
    requires Proper(t)
    ensures t.mUp > 0 && 0 < t.mDn <= t.r
  {}

  // ----- from a floating point number to its scaled form

  /** What decodeFloat, floatRadix, floatDigits and floatRange tell: the value is
      f0 * b^e0; below the least exponent the low digits of f0 are zero. */
  datatype Float = Float(b: nat, p: nat, minExp: int, f0: nat, e0: int)

  ghost predicate IsFloat(x: Float) {
    && x.b >= 2 && x.p >= 1 && x.f0 > 0
    && (x.minExp > x.e0 ==> x.f0 % Pow(x.b, x.minExp - x.e0) == 0)
  }

  /** The mantissa and exponent with the exponent raised to the least one. */
  function Adjusted(x: Float): (nat, int)
    requires x.b >= 1
  {
    var n := x.minExp - x.e0;
    if n > 0 then (Quot(x.f0, Pow(x.b, n)), x.e0 + n) else (x.f0, x.e0)
  }

  lemma AdjustedKeepsValue(x: Float)
    requires IsFloat(x)
    ensures var (f, e) := Adjusted(x);
      f > 0 && e == (if x.e0 < x.minExp then x.minExp else x.e0) && f * Pow(x.b, e - x.e0) == x.f0
  {
    var n := x.minExp - x.e0;
    if n > 0 {
      var m := Pow(x.b, n);
      assert x.f0 == (x.f0 / m) * m + x.f0 % m;
      FactorPositive(x.f0 / m, m);
    } else {
      assert x.f0 * 1 == x.f0;
    }
  }

  lemma FactorPositive(q: int, m: int)
    requires q * m > 0 && m > 0
    ensures q > 0
  {
    if q < 1 { MulMono(q, 0, m); }
  }

  /** The four numbers (r, s, mUp, mDn), case by case as in the source. */
  function Scale(b: nat, p: nat, minExp: int, f: nat, e: int): Scaled
    requires p >= 1
  {
    if e >= 0 then
      var be := Pow(b, e);
      if f == Pow(b, p - 1) then Scaled(f * be * b * 2, 2 * b, be * b, b)
      else Scaled(f * be * 2, 2, be, be)
    else if e > minExp && f == Pow(b, p - 1) then Scaled(f * b * 2, Pow(b, -e + 1) * 2, b, 1)
    else Scaled(f * 2, Pow(b, -e) * 2, 1, 1)
  }

  lemma ScaleProper(b: nat, p: nat, minExp: int, f: nat, e: int)
    requires b >= 2 && p >= 1 && f > 0
    ensures Proper(Scale(b, p, minExp, f, e))
  {
    if e >= 0 {
      var be := Pow(b, e);
      hide Pow;
      MulMono(1, f, be);
      MulMono(1, f * be, b);
      MulMono(1, be, b);
    } else {
      MulMono(1, f, b);
    }
  }

  /** `x` over `s` is `n` times b^e. */
  ghost predicate IsTimes(b: nat, x: int, s: int, n: int, e: int) {
    if e >= 0 then x == n * Pow(b, e) * s else x * Pow(b, -e) == n * s
  }

  /** Half the distance to the next number below: a float whose mantissa is least is b
      times nearer to its lower neighbour, unless its exponent is least too. */
  ghost predicate HalfwayDown(b: nat, p: nat, minExp: int, f: nat, e: int, x: int, s: int)
    requires p >= 1
  {
    if f == Pow(b, p - 1) && e > minExp then IsTimes(b, 2 * x, s, 1, e - 1) else IsTimes(b, 2 * x, s, 1, e)
  }

  /** r / s is the value, and mUp / s half the distance to the next number above. */
  lemma ScaleMeans(b: nat, p: nat, minExp: int, f: nat, e: int)
    requires b >= 2 && p >= 1 && f > 0
    ensures var q := Scale(b, p, minExp, f, e);
      IsTimes(b, q.r, q.s, f, e) && IsTimes(b, 2 * q.mUp, q.s, 1, e)
  {
    if e >= 0 {
      var be := Pow(b, e);
      hide Pow;
      TwiceOver(f * be, b);
      TwiceOver(be, b);
    } else {
      var P := Pow(b, -e);
      assert Pow(b, -e + 1) == b * P;
      hide Pow;
      Regroup(f, b, P);
    }
  }

  lemma TwiceOver(x: int, b: int)
    ensures x * b * 2 == x * (2 * b) && 2 * (x * b) == x * (2 * b)
  {}

  lemma Regroup(f: int, b: int, P: int)
    ensures f * b * 2 * P == f * (b * P * 2) && f * 2 * P == f * (P * 2) && 2 * b * P == b * P * 2
  {
    assert f * b * 2 * P == 2 * ((f * b) * P);
    Assoc(f, b, P);
  }

  /** The numbers as the algorithm's authors give them. The source has b for mDn where
      they have b^e, for the least mantissa with an exponent that is not negative. */
  function Published(b: nat, p: nat, minExp: int, f: nat, e: int): Scaled
    requires p >= 1
  {
    var q := Scale(b, p, minExp, f, e);
    if e >= 0 && f == Pow(b, p - 1) then q.(mDn := Pow(b, e)) else q
  }

  /** With the published numbers mDn / s is half the distance to the next number below. */
  lemma PublishedHalfway(b: nat, p: nat, minExp: int, f: nat, e: int)
    requires b >= 2 && p >= 1 && f > 0 && e >= minExp && minExp < 0
    ensures var q := Published(b, p, minExp, f, e); HalfwayDown(b, p, minExp, f, e, q.mDn, q.s)
  {
    if e >= 0 {
      var be := Pow(b, e);
      if e > 0 {
        assert be == b * Pow(b, e - 1);
        TwiceOver(Pow(b, e - 1), b);
      } else {
        assert be == 1 && Pow(b, 1) == b * Pow(b, 0);
      }
    } else {
      assert Pow(b, -e + 1) == b * Pow(b, -e);
    }
  }

  /** The source has the published numbers except for the least mantissa with an exponent
      of zero or of two and more. */
  lemma PublishedIff(b: nat, p: nat, minExp: int, f: nat, e: int)
    requires b >= 2 && p >= 1
    ensures Scale(b, p, minExp, f, e) == Published(b, p, minExp, f, e) <==> !(f == Pow(b, p - 1) && (e == 0 || e >= 2))
  {
    if e == 1 {
      assert Pow(b, 1) == b * Pow(b, 0);
    } else if e >= 2 {
      LargerPower(b, e);
    }
  }

  lemma LargerPower(b: nat, e: nat)
    requires b >= 2 && e >= 2
    ensures Pow(b, e) > b
  {
    PowExceeds(b, e - 1);
    MulStrict(1, Pow(b, e - 1), b);
  }

  /** The distance the source allows below is never more than half the distance to the next
      number there, except for the least mantissa with exponent zero, where it is b times
      that. */
  lemma NotTooFarBelowIff(b: nat, p: nat, minExp: int, f: nat, e: int)
    requires b >= 2 && p >= 1
    ensures Scale(b, p, minExp, f, e).mDn <= Published(b, p, minExp, f, e).mDn <==> !(f == Pow(b, p - 1) && e == 0)
  {
    if e == 1 {
      assert Pow(b, 1) == b * Pow(b, 0);
    } else if e >= 2 {
      LargerPower(b, e);
    }
  }

  // ----- the digits read back as the number

  function FloatToDigits(base: nat, x: Float, estimate: int): (seq<int>, int)
    requires base >= 2 && (x.f0 == 0 || IsFloat(x))
  {
    if x.f0 == 0 then ([], 0)
    else
      AdjustedKeepsValue(x);
      var (f, e) := Adjusted(x);
      ScaleProper(x.b, x.p, x.minExp, f, e);
      var k0 := if x.b == 2 && base == 10 then (x.p - 1 + x.e0) * 3 / 10 else estimate;
      DigitsOf(base, Scale(x.b, x.p, x.minExp, f, e), k0)
  }

  /** A whole number that may be missed by a half is printed exactly. */
  lemma WholeIsExact(base: nat, q: Scaled, f: nat, b: nat, k0: int)
    requires base >= 2 && b >= 2 && f > 0 && q == Scaled(f * b * 2, 2 * b, b, b) && Proper(q)
    ensures var (ds, k) := DigitsOf(base, q, k0); k >= 0 && Num(base, ds) * ForExponent(base, q, k).s == q.r * Pow(base, |ds|)
  {
    var (ds, k) := DigitsOf(base, q, k0);
    var n, N := |ds|, Num(base, ds);
    DigitsCorrect(base, q, k0);
    NotBelowOne(base, q, f, b, k);
    var t := ForExponent(base, q, k);
    if n > k {
      var K := Pow(base, k);
      OwnValueWithin(f, b, K);
      var own := Within(base, t, k, f);
      assert false;
    }
    PowAdd(base, n, k - n);
    hide Pow, Num;
    OnlyWhole(f, b, Pow(base, n), Pow(base, k - n), N);
  }

  lemma NotBelowOne(base: nat, q: Scaled, f: nat, b: nat, k: int)
    requires base >= 2 && b >= 2 && f > 0 && q == Scaled(f * b * 2, 2 * b, b, b) && Fits(base, q, k)
    ensures k >= 0
  {
    MulMono(1, f, b * 2);
    assert f * b * 2 == f * (b * 2);
    if k < 0 { MulMono(1, Pow(base, -k), q.r + q.mUp); }
  }

  lemma OwnValueWithin(f: nat, b: nat, K: nat)
    requires b >= 2 && K > 0
    ensures (f * b * 2 - b) * K < f * (2 * b * K) < (f * b * 2 + b) * K
  {
    var x := f * b * 2;
    assert f * (2 * b * K) == x * K by { assert f * (2 * b * K) == f * (2 * b) * K; assert f * (2 * b) == x; }
    MulStrict(x - b, x, K);
    MulStrict(x, x + b, K);
  }

  lemma OnlyWhole(f: nat, b: nat, P: nat, Q: nat, N: int)
    requires b >= 2 && P > 0
    requires (f * b * 2 - b) * P < N * (2 * b * (P * Q)) < (f * b * 2 + b) * P
    ensures N * (2 * b * (P * Q)) == f * b * 2 * P
  {
    var W := N * Q;
    assert N * (2 * b * (P * Q)) == (2 * W) * (b * P) by { Rearrange(N, b, P, Q); }
    assert (f * b * 2 - b) * P == (2 * f - 1) * (b * P) by { Factor(f, b, P, -1); }
    assert (f * b * 2 + b) * P == (2 * f + 1) * (b * P) by { Factor(f, b, P, 1); }
    assert b * P >= 0;
    if 2 * W <= 2 * f - 1 { MulMono(2 * W, 2 * f - 1, b * P); }
    if 2 * W >= 2 * f + 1 { MulMono(2 * f + 1, 2 * W, b * P); }
    assert W == f;
    assert f * b * 2 * P == (2 * f) * (b * P) by { Factor(f, b, P, 0); }
  }

  lemma Rearrange(N: int, b: int, P: int, Q: int)
    ensures N * (2 * b * (P * Q)) == (2 * (N * Q)) * (b * P)
  {
    assert N * (2 * b * (P * Q)) == 2 * (N * (b * (P * Q)));
    assert b * (P * Q) == (b * P) * Q;
    Assoc(N, Q, b * P);
  }

  lemma Factor(f: int, b: int, P: int, c: int)
    ensures (f * b * 2 + c * b) * P == (2 * f + c) * (b * P)
  {
    assert f * b * 2 + c * b == (2 * f + c) * b;
    Assoc(2 * f + c, b, P);
  }

  /** For every positive float, base and estimate, 0.digits times base^k is strictly nearer
      to the number than half the distance to its neighbour on either side. */
  lemma DigitsReadBack(base: nat, x: Float, estimate: int)
    requires base >= 2 && IsFloat(x)
    ensures var (f, e) := Adjusted(x);
      var (ds, k) := FloatToDigits(base, x, estimate);
      Digits(base, ds) && Within(base, ForExponent(base, Published(x.b, x.p, x.minExp, f, e), k), |ds|, Num(base, ds))
  {
    AdjustedKeepsValue(x);
    var (f, e) := Adjusted(x);
    var q, w := Scale(x.b, x.p, x.minExp, f, e), Published(x.b, x.p, x.minExp, f, e);
    ScaleProper(x.b, x.p, x.minExp, f, e);
    var k0 := if x.b == 2 && base == 10 then (x.p - 1 + x.e0) * 3 / 10 else estimate;
    var (ds, k) := DigitsOf(base, q, k0);
    DigitsCorrect(base, q, k0);
    hide DigitsOf, Within, Nearest, Num, Digits;
    NotTooFarBelowIff(x.b, x.p, x.minExp, f, e);
    if q.mDn <= w.mDn {
      NarrowerWithin(base, q, w, k, |ds|, Num(base, ds));
    } else {
      assert q == Scaled(f * x.b * 2, 2 * x.b, x.b, x.b) && w == q.(mDn := 1);
      WholeIsExact(base, q, f, x.b, k0);
      ExactWithin(base, w, k, |ds|, Num(base, ds));
    }
  }

  lemma NarrowerWithin(base: nat, q: Scaled, w: Scaled, k: int, n: nat, N: int)
    requires base >= 2 && q.mDn <= w.mDn && w == q.(mDn := w.mDn) && Within(base, ForExponent(base, q, k), n, N)
    ensures Within(base, ForExponent(base, w, k), n, N)
  {
    var t, u := ForExponent(base, q, k), ForExponent(base, w, k);
    assert t.mDn <= u.mDn by { if k < 0 { MulMono(q.mDn, w.mDn, Pow(base, -k)); } }
    MulMono(t.r - u.mDn, t.r - t.mDn, Pow(base, n));
  }

  lemma ExactWithin(base: nat, w: Scaled, k: int, n: nat, N: int)
    requires base >= 2 && k >= 0 && w.mDn > 0 && w.mUp > 0 && N * ForExponent(base, w, k).s == w.r * Pow(base, n)
    ensures Within(base, ForExponent(base, w, k), n, N)
  {
    MulStrict(w.r - w.mDn, w.r, Pow(base, n));
    MulStrict(w.r, w.r + w.mUp, Pow(base, n));
  }
}
