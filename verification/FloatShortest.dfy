/** Whether floatToDigits of lib/jhc/Numeric.hs gives the fewest digits that read back as the
    number, and the nearest ones: the distances are those to the real neighbours. */
module FloatShortest {
  import opened Powers
  import opened FloatDigits

  /** `V` has as few digits as any number within the distances, is as near as any of that
      length, and the larger of two that are as near. */
  ghost predicate Best(base: nat, q: Scaled, n: nat, V: int) {
    && Within(base, q, n, V)
    && (forall j: nat, N | j < n :: !Within(base, q, j, N))
    && Nearest(base, q, n, V)
  }

  /** What the first `n` digits leave of r, scaled by base^n: rn of gen. */
  function Left(base: nat, q: Scaled, n: nat): nat
    requires q.s > 0
  {
    Rem(q.r * Pow(base, n), q.s)
  }

  /** The digits, or the digits with the last one raised, are near enough. */
  predicate Stops(base: nat, q: Scaled, n: nat)
    requires q.s > 0
  {
    Left(base, q, n) < q.mDn * Pow(base, n) || Left(base, q, n) + q.mUp * Pow(base, n) > q.s
  }

  ghost predicate FirstStop(base: nat, q: Scaled, n: nat)
    requires q.s > 0
  {
    Stops(base, q, n) && forall j: nat | j < n :: !Stops(base, q, j)
  }

  /** Some number of `n` digits is within the distances exactly where generation with them
      would stop. */
  lemma WithinIffStops(base: nat, q: Scaled, n: nat)
    requires base > 0 && Proper(q)
    ensures (exists N :: Within(base, q, n, N)) <==> Stops(base, q, n)
  {
    var P := Pow(base, n);
    var X, D, R := q.r * P, Quot(q.r * P, q.s), Left(base, q, n);
    MulStrict(0, q.mUp, P);
    MulStrict(0, q.mDn, P);
    hide Proper, Within, Pow, Rem, Quot, Left;
    DigitWithin(base, q, n, D, R);
    forall N
      ensures Within(base, q, n, N) ==> Stops(base, q, n)
    {
      WithinIs(base, q, n, N);
      if !Stops(base, q, n) { NoMultipleBetween(q.s, D, N, X, q.mUp * P, q.mDn * P); }
    }
  }

  /** Which of the two digits that come into question are near enough. */
  lemma DigitWithin(base: nat, q: Scaled, n: nat, D: int, R: int)
    requires q.r * Pow(base, n) == D * q.s + R && 0 <= R < q.s
    requires q.mUp * Pow(base, n) > 0 && q.mDn * Pow(base, n) > 0
    ensures Within(base, q, n, D) <==> R < q.mDn * Pow(base, n)
    ensures Within(base, q, n, D + 1) <==> R + q.mUp * Pow(base, n) > q.s
  {
    WithinIs(base, q, n, D);
    WithinIs(base, q, n, D + 1);
    hide Pow, Within;
    Distributes(D, 1, q.s);
  }

  lemma WithinIs(base: nat, q: Scaled, n: nat, N: int)
    ensures var P := Pow(base, n);
            Within(base, q, n, N) <==> q.r * P - q.mDn * P < N * q.s < q.r * P + q.mUp * P
  {
    var P := Pow(base, n);
    hide Pow;
    Subtracts(q.r, q.mDn, P);
    Distributes(q.r, q.mUp, P);
  }

  lemma Subtracts(a: int, b: int, c: int)
    ensures (a - b) * c == a * c - b * c
  {}

  // ----- two distances below, one the source's and one the real one

  /** At the real first stop, generation with the source's smaller distance goes on, or
      takes the digit that is farther off. */
  predicate Missed(base: nat, t: Scaled, u: Scaled, n: nat)
    requires t.s > 0
  {
    var P := Pow(base, n);
    MissedBy(Left(base, t, n), t.s, t.mUp * P, t.mDn * P, u.mDn * P)
  }

  predicate MissedBy(rn: int, s: int, up: int, dn: int, realDn: int) {
    dn <= rn < realDn && (rn + up <= s || 2 * rn < s)
  }

  lemma WithinWider(base: nat, t: Scaled, u: Scaled, n: nat, N: int)
    requires u == t.(mDn := u.mDn) && t.mDn <= u.mDn && Within(base, t, n, N)
    ensures Within(base, u, n, N)
  {
    MulMono(t.r - u.mDn, t.r - t.mDn, Pow(base, n));
  }

  lemma StopsWider(base: nat, t: Scaled, u: Scaled, n: nat)
    requires u == t.(mDn := u.mDn) && t.mDn <= u.mDn && t.s > 0 && Stops(base, t, n)
    ensures Stops(base, u, n)
  {
    MulMono(t.mDn, u.mDn, Pow(base, n));
  }

  /** The digits that are best for the source's distances are best for the real ones unless
      they were missed. */
  lemma BestIff(base: nat, t: Scaled, u: Scaled, n: nat, V: int, j: nat)
    requires base > 0 && Proper(t) && Proper(u) && u == t.(mDn := u.mDn) && t.mDn <= u.mDn
    requires Best(base, t, n, V) && FirstStop(base, u, j)
    ensures Best(base, u, n, V) <==> !Missed(base, t, u, j)
  {
    FirstStopIs(base, t, n, V);
    WithinWider(base, t, u, n, V);
    forall i: nat | Stops(base, t, i)
      ensures Stops(base, u, i)
    {
      StopsWider(base, t, u, i);
    }
    WithinIffStops(base, u, j);
    if Stops(base, t, j) {
      assert n == j;
      forall i: nat, N | i < n
        ensures !Within(base, u, i, N)
      {
        WithinIffStops(base, u, i);
      }
      hide FirstStop;
      NearestIff(base, t, u, n, V);
    } else {
      var N :| Within(base, u, j, N);
      assert j < n;
    }
  }

  lemma FirstStopIs(base: nat, q: Scaled, n: nat, V: int)
    requires base > 0 && Proper(q) && Best(base, q, n, V)
    ensures FirstStop(base, q, n)
  {
    WithinIffStops(base, q, n);
    forall j: nat | j < n
      ensures !Stops(base, q, j)
    {
      WithinIffStops(base, q, j);
    }
  }

  lemma NearestIff(base: nat, t: Scaled, u: Scaled, n: nat, V: int)
    requires base > 0 && Proper(t) && Proper(u) && u == t.(mDn := u.mDn) && t.mDn <= u.mDn
    requires Stops(base, t, n) && Within(base, t, n, V) && Nearest(base, t, n, V)
    ensures Nearest(base, u, n, V) <==> !Missed(base, t, u, n)
  {
    var P := Pow(base, n);
    var D, R := Quot(t.r * P, t.s), Left(base, t, n);
    MulStrict(0, t.mUp, P);
    MulStrict(0, t.mDn, P);
    MulMono(t.mDn, u.mDn, P);
    hide Proper, Within, Distance, Pow, Rem, Quot, Left, Nearest, MissedBy;
    DigitWithin(base, t, n, D, R);
    DigitWithin(base, u, n, D, R);
    DigitDistances(base, t, n, D, R);
    forall N
      ensures SeenFrom(base, t, u, n, D, R, N)
    {
      FromDigits(base, t, u, n, D, R, N);
    }
    if t.mDn * P <= R { WithinDigits(base, t, n, D, R, V); }
    NearestOfTwo(base, t, u, n, V, D, R, t.mUp * P, t.mDn * P, u.mDn * P);
  }

  /** The digits that come into question decide. */
  lemma NearestOfTwo(base: nat, t: Scaled, u: Scaled, n: nat, V: int, D: int, R: int, up: int, dn: int, realDn: int)
    requires 0 <= R < t.s && dn <= realDn && (R < dn || R + up > t.s)
    requires Within(base, t, n, D) <==> R < dn
    requires Within(base, t, n, D + 1) <==> R + up > t.s
    requires Within(base, u, n, D) <==> R < realDn
    requires Distance(base, t, n, D) == R && Distance(base, t, n, D + 1) == t.s - R
    requires forall N :: SeenFrom(base, t, u, n, D, R, N)
    requires dn <= R ==> V > D && Distance(base, t, n, V) >= t.s - R
    requires Within(base, t, n, V) && Nearest(base, t, n, V)
    ensures Nearest(base, u, n, V) <==> !MissedBy(R, t.s, up, dn, realDn)
  {
    hide Within, Distance;
    assert SeenFrom(base, t, u, n, D, R, V) && SeenFrom(base, t, u, n, D, R, D);
    if MissedBy(R, t.s, up, dn, realDn) {
      assert !NoBetter(base, u, n, D, V);
    } else {
      forall N | Within(base, u, n, N)
        ensures NoBetter(base, u, n, N, V)
      {
        assert SeenFrom(base, t, u, n, D, R, N);
        if N > D { assert NoBetter(base, t, n, N, V); }
        if R < dn { assert NoBetter(base, t, n, D, V); }
        if R + up > t.s { assert NoBetter(base, t, n, D + 1, V); }
      }
    }
  }

  lemma DigitDistances(base: nat, q: Scaled, n: nat, D: int, R: int)
    requires q.r * Pow(base, n) == D * q.s + R && 0 <= R < q.s
    ensures Distance(base, q, n, D) == R && Distance(base, q, n, D + 1) == q.s - R
  {
    hide Pow;
    Distributes(D, 1, q.s);
  }

  /** Numbers within the wider distances, seen from the two digits that come into question. */
  ghost predicate SeenFrom(base: nat, t: Scaled, u: Scaled, n: nat, D: int, R: int, N: int) {
    && (Within(base, u, n, N) && N <= D ==> Within(base, u, n, D) && Distance(base, t, n, N) >= R)
    && (Within(base, u, n, N) && N > D ==> Within(base, t, n, N))
    && Distance(base, u, n, N) == Distance(base, t, n, N)
  }

  lemma FromDigits(base: nat, t: Scaled, u: Scaled, n: nat, D: int, R: int, N: int)
    requires u == t.(mDn := u.mDn) && t.r * Pow(base, n) == D * t.s + R && 0 <= R < t.s
    requires t.mUp * Pow(base, n) > 0 && t.mDn * Pow(base, n) > 0 && u.mDn * Pow(base, n) > 0
    ensures SeenFrom(base, t, u, n, D, R, N)
  {
    WithinIs(base, u, n, N);
    WithinIs(base, u, n, D);
    WithinIs(base, t, n, N);
    hide Within, Pow;
    Distributes(D, 1, t.s);
    if N <= D { MulMono(N, D, t.s); } else { MulMono(D + 1, N, t.s); }
  }

  /** Where the lower digit is not near enough, only larger numbers are. */
  lemma WithinDigits(base: nat, t: Scaled, n: nat, D: int, R: int, V: int)
    requires t.r * Pow(base, n) == D * t.s + R && 0 <= R < t.s
    requires Within(base, t, n, V) && t.mDn * Pow(base, n) <= R
    ensures V > D && Distance(base, t, n, V) >= t.s - R
  {
    WithinIs(base, t, n, V);
    hide Within, Pow;
    Distributes(D, 1, t.s);
    if V <= D { MulMono(V, D, t.s); } else { MulMono(D + 1, V, t.s); }
  }

  lemma {:induction false} FirstStopBelow(base: nat, q: Scaled, n: nat) returns (j: nat)
    requires q.s > 0 && Stops(base, q, n)
    ensures FirstStop(base, q, j) && j <= n
  {
    if i: nat :| i < n && Stops(base, q, i) {
      j := FirstStopBelow(base, q, i);
    } else {
      j := n;
    }
  }

  // ----- floatToDigits

  /** The scaled numbers that gen starts with, and those with the real distances. */
  ghost function Start(base: nat, x: Float, k: int): Scaled
    requires IsFloat(x)
  {
    var (f, e) := Adjusted(x); ForExponent(base, Scale(x.b, x.p, x.minExp, f, e), k)
  }

  ghost function Real(base: nat, x: Float, k: int): Scaled
    requires IsFloat(x)
  {
    var (f, e) := Adjusted(x); ForExponent(base, Published(x.b, x.p, x.minExp, f, e), k)
  }

  /** The digits given are the fewest that read back, and as near as any of that number. */
  ghost predicate Shortest(base: nat, x: Float, estimate: int)
    requires base >= 2 && IsFloat(x)
  {
    var (ds, k) := FloatToDigits(base, x, estimate);
    Best(base, Real(base, x, k), |ds|, Num(base, ds))
  }

  /** They are, if and only if they were not missed at the first place where real digits
      stop. */
  lemma ShortestIff(base: nat, x: Float, estimate: int) returns (j: nat)
    requires base >= 2 && IsFloat(x)
    ensures var k := FloatToDigits(base, x, estimate).1;
      var t, u := Start(base, x, k), Real(base, x, k);
      && t.s > 0 && FirstStop(base, u, j)
      && (Shortest(base, x, estimate) <==> !Missed(base, t, u, j))
  {
    var (f, e) := Adjusted(x);
    AdjustedKeepsValue(x);
    var q, w := Scale(x.b, x.p, x.minExp, f, e), Published(x.b, x.p, x.minExp, f, e);
    ScaleProper(x.b, x.p, x.minExp, f, e);
    PublishedProper(x.b, x.p, x.minExp, f, e);
    var k0 := if x.b == 2 && base == 10 then (x.p - 1 + x.e0) * 3 / 10 else estimate;
    var (ds, k) := DigitsOf(base, q, k0);
    var t, u, n, V := ForExponent(base, q, k), ForExponent(base, w, k), |ds|, Num(base, ds);
    DigitsCorrect(base, q, k0);
    NotTooFarBelowIff(x.b, x.p, x.minExp, f, e);
    ForExponentProper(base, q, k);
    ForExponentProper(base, w, k);
    DownScaled(base, q, w, k);
    DigitsReadBack(base, x, estimate);
    assert FloatToDigits(base, x, estimate) == (ds, k);
    hide DigitsOf, FloatToDigits, ForExponent, Proper, Within, Nearest, Num, Digits, Scale, Published;
    WithinIffStops(base, u, n);
    j := FirstStopBelow(base, u, n);
    if q.mDn <= w.mDn {
      BestIff(base, t, u, n, V, j);
    } else {
      BestNarrower(base, t, u, n, V);
      NeverMissed(base, t, u, j);
    }
  }

  /** What is best for some distance below is best for any smaller one it is within. */
  lemma BestNarrower(base: nat, t: Scaled, u: Scaled, n: nat, V: int)
    requires u == t.(mDn := u.mDn) && u.mDn <= t.mDn
    requires Best(base, t, n, V) && Within(base, u, n, V)
    ensures Best(base, u, n, V)
  {
    forall j: nat, N | j < n
      ensures !Within(base, u, j, N)
    {
      if Within(base, u, j, N) { WithinWider(base, u, t, j, N); }
    }
    hide Within;
    forall N | Within(base, u, n, N)
      ensures NoBetter(base, u, n, N, V)
    {
      WithinWider(base, u, t, n, N);
      assert NoBetter(base, t, n, N, V);
    }
  }

  lemma NeverMissed(base: nat, t: Scaled, u: Scaled, n: nat)
    requires t.s > 0 && u.mDn <= t.mDn
    ensures !Missed(base, t, u, n)
  {
    MulMono(u.mDn, t.mDn, Pow(base, n));
  }

  /** So they are the fewest and the nearest for every float but those of the least mantissa
      with exponent of two and more. */
  lemma ShortestUnlessLeast(base: nat, x: Float, estimate: int)
    requires base >= 2 && IsFloat(x)
    requires var (f, e) := Adjusted(x); !(f == Pow(x.b, x.p - 1) && e >= 2)
    ensures Shortest(base, x, estimate)
  {
    var (f, e) := Adjusted(x);
    var k := FloatToDigits(base, x, estimate).1;
    var q, w := Scale(x.b, x.p, x.minExp, f, e), Published(x.b, x.p, x.minExp, f, e);
    PublishedIff(x.b, x.p, x.minExp, f, e);
    assert w.mDn <= q.mDn by { assert Pow(x.b, 0) == 1; }
    hide FloatToDigits, Scale, Published, Shortest;
    DownScaled(base, q, w, k);
    var j := ShortestIff(base, x, estimate);
    NeverMissed(base, Start(base, x, k), Real(base, x, k), j);
  }

  /** Among those it can fail: 32 = 1 * 2^5 in a format with one digit of mantissa is
      printed as 40, although 30 is nearer and would be read back as well. */
  lemma NotNearest(estimate: int)
    ensures var x := Float(2, 1, -3, 1, 5);
      && IsFloat(x) && FloatToDigits(10, x, estimate) == ([4], 2)
      && Within(10, Real(10, x, 2), 1, 3)
      && Distance(10, Real(10, x, 2), 1, 3) < Distance(10, Real(10, x, 2), 1, 4)
      && !Shortest(10, x, estimate)
  {
    var x := Float(2, 1, -3, 1, 5);
    Powers2();
    Powers10();
    var q := Scale(2, 1, -3, 1, 5);
    assert Adjusted(x) == (1, 5);
    assert q == Scaled(128, 4, 64, 2);
    assert (1 - 1 + 5) * 3 / 10 == 1;
    assert Fixup(10, q, 1) == 2;
    assert ForExponent(10, q, 2) == Scaled(128, 400, 64, 2);
    assert Gen(10, [], 128, 400, 64, 2) == [4];
    assert Reverse([4]) == [4];
    assert Num(10, [4]) == 4;
    assert !NoBetter(10, Real(10, x, 2), 1, 3, 4);
  }

  lemma Powers2()
    ensures Pow(2, 0) == 1 && Pow(2, 5) == 32
  {}

  lemma Powers10()
    ensures Pow(10, 1) == 10 && Pow(10, 2) == 100
  {}

  lemma PublishedProper(b: nat, p: nat, minExp: int, f: nat, e: int)
    requires b >= 2 && p >= 1 && f > 0
    ensures Proper(Published(b, p, minExp, f, e))
  {
    ScaleProper(b, p, minExp, f, e);
    if e >= 0 && f == Pow(b, p - 1) {
      var be := Pow(b, e);
      hide Pow;
      MulMono(1, f, be);
      MulMono(1, b * 2, f * be);
      assert f * be * b * 2 == (b * 2) * (f * be);
    }
  }

  lemma DownScaled(base: nat, q: Scaled, w: Scaled, k: int)
    requires w == q.(mDn := w.mDn)
    ensures var t, u := ForExponent(base, q, k), ForExponent(base, w, k);
            u == t.(mDn := u.mDn) && (q.mDn <= w.mDn ==> t.mDn <= u.mDn) && (w.mDn <= q.mDn ==> u.mDn <= t.mDn)
  {
    if k < 0 {
      var bk := Pow(base, -k);
      if q.mDn <= w.mDn { MulMono(q.mDn, w.mDn, bk); }
      if w.mDn <= q.mDn { MulMono(w.mDn, q.mDn, bk); }
    }
  }
}
