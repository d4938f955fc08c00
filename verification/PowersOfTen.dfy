/** How powers of ten and of two compare. */
module PowersOfTen {
  import opened Powers

  lemma {:induction false} PowTimes(b: nat, m: nat, a: nat)
    ensures Pow(b, m * a) == Pow(Pow(b, m), a)
  {
    if a > 0 {
      PowTimes(b, m, a - 1);
      Distributes(a - 1, 1, m);
      PowAdd(b, m, m * (a - 1));
    }
  }

  lemma {:induction false} PowMono(b: nat, c: nat, n: nat)
    requires 0 < b <= c
    ensures Pow(b, n) <= Pow(c, n)
  {
    if n > 0 {
      PowMono(b, c, n - 1);
      MulMono(b, c, Pow(b, n - 1));
      MulMono(Pow(b, n - 1), Pow(c, n - 1), c);
    }
  }

  lemma Thousands(a: nat)
    ensures Pow(10, 3 * a) == Pow(1000, a) && Pow(2, 10 * a) == Pow(1024, a) && Pow(1000, a) <= Pow(1024, a)
  {
    PowTimes(10, 3, a);
    PowTimes(2, 10, a);
    assert Pow(10, 3) == 1000 && Pow(2, 10) == 1024;
    PowMono(1000, 1024, a);
  }

  /** Three tenths, rounded down, of an exponent of two make an exponent of ten that is not
      larger; for a few that are not zero there is a quarter to spare. */
  lemma FewTenths(c: nat)
    requires c < 10
    ensures Pow(10, 3 * c / 10) <= Pow(2, c)
    ensures c > 0 ==> 5 * Pow(10, 3 * c / 10) <= 4 * Pow(2, c)
  {
    assert Pow(10, 0) == 1 && Pow(10, 1) == 10 && Pow(10, 2) == 100;
    assert Pow(2, 0) == 1 && Pow(2, 1) == 2 && Pow(2, 2) == 4 && Pow(2, 3) == 8 && Pow(2, 4) == 16;
    assert Pow(2, 5) == 32 && Pow(2, 6) == 64 && Pow(2, 7) == 128 && Pow(2, 8) == 256 && Pow(2, 9) == 512;
  }

  lemma TenBelowTwo(n: nat)
    ensures Pow(10, 3 * n / 10) <= Pow(2, n)
  {
    var a, c := n / 10, n % 10;
    assert n == 10 * a + c && 3 * n / 10 == 3 * a + 3 * c / 10;
    Thousands(a);
    FewTenths(c);
    PowAdd(10, 3 * a, 3 * c / 10);
    PowAdd(2, 10 * a, c);
    hide Pow;
    MulMono(Pow(1000, a), Pow(1024, a), Pow(10, 3 * c / 10));
    MulMono(Pow(10, 3 * c / 10), Pow(2, c), Pow(1024, a));
  }

  // ----- powers of 1.024, with eight digits behind the point

  const ONE := 1_0000_0000

  ghost predicate AtMost(n: nat, c: nat) { Pow(1024, n) * ONE <= c * Pow(1000, n) }

  ghost predicate AtLeast(n: nat, c: nat) { c * Pow(1000, n) <= Pow(1024, n) * ONE }

  lemma ProductsBelow(a: nat, b: nat, c: nat, d: nat)
    requires a <= b && c <= d
    ensures a * c <= b * d
  {
    MulMono(a, b, c);
    MulMono(c, d, b);
  }

  lemma Crossed(a: int, x: int, b: int, y: int)
    ensures (a * x) * (b * y) == (a * b) * (x * y)
  {
    assert (a * x) * (b * y) == a * (x * (b * y));
    assert x * (b * y) == b * (x * y);
    Assoc(a, b, x * y);
  }

  lemma AtMostSum(n: nat, k: nat, c: nat, d: nat, e: nat)
    requires AtMost(n, c) && AtMost(k, d) && c * d <= e * ONE
    ensures AtMost(n + k, e)
  {
    PowAdd(1024, n, k);
    PowAdd(1000, n, k);
    var x, y, u, v := Pow(1024, n), Pow(1024, k), Pow(1000, n), Pow(1000, k);
    hide Pow;
    ProductsBelow(x * ONE, c * u, y * ONE, d * v);
    CancelOne(x, y, u, v, c, d);
    MulMono(c * d, e * ONE, u * v);
    RightOne(e, u * v);
  }

  lemma AtLeastSum(n: nat, k: nat, c: nat, d: nat, e: nat)
    requires AtLeast(n, c) && AtLeast(k, d) && e * ONE <= c * d
    ensures AtLeast(n + k, e)
  {
    PowAdd(1024, n, k);
    PowAdd(1000, n, k);
    var x, y, u, v := Pow(1024, n), Pow(1024, k), Pow(1000, n), Pow(1000, k);
    hide Pow;
    ProductsBelow(c * u, x * ONE, d * v, y * ONE);
    CancelOne(x, y, u, v, c, d);
    MulMono(e * ONE, c * d, u * v);
    RightOne(e, u * v);
  }

  lemma CancelOne(x: nat, y: nat, u: nat, v: nat, c: nat, d: nat)
    ensures (x * ONE) * (y * ONE) == ((x * y) * ONE) * ONE && (c * u) * (d * v) == (c * d) * (u * v)
  {
    Crossed(x, ONE, y, ONE);
    Crossed(c, u, d, v);
  }

  lemma RightOne(e: nat, w: nat)
    ensures (e * ONE) * w == (e * w) * ONE
  {}

  lemma RatioStart()
    ensures AtMost(1, 1_0240_0000) && AtLeast(1, 1_0240_0000)
  {
    assert Pow(1024, 1) == 1024 && Pow(1000, 1) == 1000;
  }

  /** 1.024^97 is less than 10, and 1.024^98 between 10.2 and 12.5. */
  lemma Ninety()
    ensures AtMost(97, 9_9792_0443) && AtMost(98, 10_2187_0534) && AtLeast(98, 10_2186_9992)
  {
    hide Pow, AtMost, AtLeast;
    RatioStart();
    AtMostSum(1, 1, 102400000, 102400000, 104857600);
    AtMostSum(2, 1, 104857600, 102400000, 107374183);
    AtMostSum(3, 3, 107374183, 107374183, 115292152);
    AtMostSum(6, 6, 115292152, 115292152, 132922804);
    AtMostSum(12, 12, 132922804, 132922804, 176684719);
    AtMostSum(24, 24, 176684719, 176684719, 312174900);
    AtMostSum(48, 48, 312174900, 312174900, 974531682);
    AtMostSum(96, 1, 974531682, 102400000, 997920443);
    AtMostSum(97, 1, 997920443, 102400000, 1021870534);
    AtLeastSum(1, 1, 102400000, 102400000, 104857600);
    AtLeastSum(2, 1, 104857600, 102400000, 107374182);
    AtLeastSum(3, 3, 107374182, 107374182, 115292149);
    AtLeastSum(6, 6, 115292149, 115292149, 132922796);
    AtLeastSum(12, 12, 132922796, 132922796, 176684696);
    AtLeastSum(24, 24, 176684696, 176684696, 312174818);
    AtLeastSum(48, 1, 312174818, 102400000, 319667013);
    AtLeastSum(49, 49, 319667013, 319667013, 1021869992);
  }

  lemma FromRatio(n: nat, c: nat, i: nat, j: nat)
    requires AtMost(n, c) && j * c <= i * ONE
    ensures j * Pow(1024, n) <= i * Pow(1000, n)
  {
    var u, x := Pow(1000, n), Pow(1024, n);
    hide Pow;
    MulMono(j * c, i * ONE, u);
    MulMono(x * ONE, c * u, j);
    ByParts(i, j, c, u, x);
  }

  lemma ByParts(i: nat, j: nat, c: nat, u: nat, x: nat)
    requires (j * c) * u <= (i * ONE) * u && (x * ONE) * j <= (c * u) * j
    ensures j * x <= i * u
  {
    assert (j * c) * u == (c * u) * j;
    assert (i * ONE) * u == (i * u) * ONE && (x * ONE) * j == (j * x) * ONE;
  }

  lemma ToRatio(n: nat, e: nat, i: nat, j: nat)
    requires AtLeast(n, e) && i * ONE <= j * e
    ensures i * Pow(1000, n) <= j * Pow(1024, n)
  {
    var u, x := Pow(1000, n), Pow(1024, n);
    hide Pow;
    MulMono(i * ONE, j * e, u);
    MulMono(e * u, x * ONE, j);
    assert (j * e) * u == (e * u) * j;
    assert (i * ONE) * u == (i * u) * ONE && (x * ONE) * j == (j * x) * ONE;
  }

  /** Three tenths of an exponent of two, rounded up, and one more make an exponent of ten that
      is not smaller, up to 979. */
  lemma TwoBelowTen(m: nat)
    requires 1 <= m <= 979
    ensures Pow(2, m) <= Pow(10, (3 * m + 9) / 10 + 1)
  {
    var a := (m + 9) / 10;
    var c, K := 10 * a - m, (3 * m + 9) / 10;
    assert 0 <= c < 10 && K + 1 + 3 * c / 10 == 3 * a + 1 && (a == 98 ==> c > 0);
    TwoBelowTenBy(m, K + 1, a, c, 3 * c / 10);
  }

  lemma Ten()
    ensures Pow(10, 1) == 10
  {}

  lemma TwoBelowTenBy(m: nat, k: nat, a: nat, c: nat, d: nat)
    requires m + c == 10 * a && k + d == 3 * a + 1 && c < 10 && d == 3 * c / 10 && a <= 98 && (a == 98 ==> c > 0)
    ensures Pow(2, m) <= Pow(10, k)
  {
    hide Pow;
    Thousands(a);
    FewTenths(c);
    PowAdd(2, m, c);
    PowAdd(10, k, d);
    PowAdd(10, 3 * a, 1);
    Ten();
    UpTo98(a);
    var x, y, u, v := Pow(2, m), Pow(2, c), Pow(10, k), Pow(10, d);
    var q := Pow(1000, a);
    Commutes(q, 10);
    if a <= 97 {
      SmallerFactor(x, y, u, v, 1, 1);
    } else {
      SmallerFactor(x, y, u, v, 5, 4);
    }
  }

  lemma Commutes(q: nat, n: nat)
    ensures q * n == n * q
  {}

  lemma SmallerFactor(x: nat, y: nat, u: nat, v: nat, i: nat, j: nat)
    requires j > 0 && y > 0 && i * v <= j * y && j * (x * y) <= i * (u * v)
    ensures x <= u
  {
    MulStrict(0, j, y);
    MulMono(i * v, j * y, u);
    assert x * (j * y) == j * (x * y) && u * (i * v) == i * (u * v);
    assert u * (j * y) == (j * y) * u;
    CancelFactor(x, u, j * y);
  }

  lemma CancelFactor(x: nat, u: nat, k: nat)
    requires k > 0 && x * k <= u * k
    ensures x <= u
  {
    if x > u { MulStrict(u, x, k); }
  }

  lemma UpTo98(a: nat)
    requires a <= 98
    ensures a <= 97 ==> Pow(1024, a) <= 10 * Pow(1000, a)
    ensures a == 98 ==> 4 * Pow(1024, a) <= 50 * Pow(1000, a)
  {
    Ninety();
    hide Pow, AtMost, AtLeast;
    if a <= 97 {
      BelowTen(a, 97, 9_9792_0443);
    } else {
      FromRatio(a, 10_2187_0534, 50, 4);
    }
  }

  lemma BelowTen(a: nat, n: nat, c: nat)
    requires a <= n && AtMost(n, c) && c <= 10 * ONE
    ensures Pow(1024, a) <= 10 * Pow(1000, a)
  {
    FromRatio(n, c, 10, 1);
    PowAdd(1024, a, n - a);
    PowAdd(1000, a, n - a);
    PowMono(1000, 1024, n - a);
    var x, y, u, v := Pow(1024, a), Pow(1024, n - a), Pow(1000, a), Pow(1000, n - a);
    hide Pow, AtMost;
    Assoc(10, u, v);
    SmallerFactor(x, y, 10 * u, v, 1, 1);
  }
}
