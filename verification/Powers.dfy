/** Powers of natural numbers, and the value of a list of digits. */
module Powers {
  function Pow(b: nat, n: nat): (r: nat)
    ensures b > 0 ==> r > 0
  {
    if n == 0 then 1
    else
      var p := Pow(b, n - 1);
      assert b > 0 ==> b * p > 0;
      b * p
  }

  lemma {:induction false} PowAdd(b: nat, m: nat, n: nat)
    ensures Pow(b, m + n) == Pow(b, m) * Pow(b, n)
  {
    if m > 0 {
      PowAdd(b, m - 1, n);
      Assoc(b, Pow(b, m - 1), Pow(b, n));
    }
  }

  lemma PowersOfTwo()
    ensures Pow(2, 30) == 0x4000_0000 && Pow(2, 32) == 0x1_0000_0000
  {
    assert Pow(2, 5) == 32;
    PowAdd(2, 5, 5);
    PowAdd(2, 10, 10);
    PowAdd(2, 20, 10);
    PowAdd(2, 30, 2);
    assert Pow(2, 2) == 4;
  }

  /** The remainder of a remainder. */
  lemma ModTwice(x: nat, m: nat, n: nat)
    requires m > 0 && n > 0
    ensures m * n > 0 && (x % (m * n)) % n == x % n
  {
    MulStrict(0, m, n);
    RestOfRest(x, m, n, x / (m * n), x % (m * n));
  }

  lemma RestOfRest(x: int, m: int, n: int, q: int, w: int)
    requires n > 0 && x == q * (m * n) + w
    ensures w % n == x % n
  {
    var k, r := w / n, w % n;
    assert w == k * n + r;
    Assoc(q, m, n);
    Distributes(q * m, k, n);
    DivModUnique(x, n, q * m + k, r);
  }

  lemma Distributes(a: int, b: int, c: int)
    ensures (a + b) * c == a * c + b * c
  {}

  lemma Assoc(a: int, b: int, c: int)
    ensures a * (b * c) == (a * b) * c
  {}

  lemma {:induction false} PowSquare(b: nat, n: nat)
    ensures Pow(b * b, n) == Pow(b, 2 * n)
  {
    if n > 0 {
      PowSquare(b, n - 1);
      assert Pow(b, 2 * n) == b * Pow(b, 2 * n - 1);
      assert Pow(b, 2 * n - 1) == b * Pow(b, 2 * n - 2);
      Assoc(b, b, Pow(b, 2 * n - 2));
    }
  }

  /** A power of at least two exceeds its exponent. */
  lemma {:induction false} PowExceeds(b: nat, n: nat)
    requires b >= 2
    ensures Pow(b, n) > n
  {
    if n > 0 {
      PowExceeds(b, n - 1);
      MulMono(2, b, Pow(b, n - 1));
    }
  }

  predicate Digits(base: nat, ds: seq<int>) { forall i | 0 <= i < |ds| :: 0 <= ds[i] < base }

  /** The number a list of digits stands for, most significant first. */
  function Num(base: nat, ds: seq<int>): int {
    if ds == [] then 0 else ds[0] * Pow(base, |ds| - 1) + Num(base, ds[1..])
  }

  lemma {:induction false} NumBound(base: nat, ds: seq<int>)
    requires Digits(base, ds) && base > 0
    ensures 0 <= Num(base, ds) < Pow(base, |ds|)
  {
    if ds != [] {
      NumBound(base, ds[1..]);
      var p := Pow(base, |ds| - 1);
      assert 0 <= ds[0] * p <= (base - 1) * p by { MulMono(0, ds[0], p); MulMono(ds[0], base - 1, p); }
      assert (base - 1) * p + p == base * p;
    }
  }

  lemma MulMono(a: int, b: int, c: int)
    requires a <= b && c >= 0
    ensures a * c <= b * c
  {}

  /** Quotient and remainder are what they add up to. */
  lemma DivModUnique(v: int, m: int, q: int, r: int)
    requires m > 0 && v == q * m + r && 0 <= r < m
    ensures v / m == q && v % m == r
  {
    var q', r' := v / m, v % m;
    assert v == q' * m + r';
    assert (q' + 1) * m == q' * m + m && (q + 1) * m == q * m + m;
    if q' < q { MulMono(q' + 1, q, m); }
    if q < q' { MulMono(q + 1, q', m); }
  }

  function Quot(a: nat, m: nat): (q: nat)
    requires m > 0
    ensures q * m <= a < q * m + m
  {
    a / m
  }

  lemma MulStrict(a: int, b: int, c: int)
    requires a < b && c > 0
    ensures a * c < b * c
  {}

  lemma {:induction false} NumZeros(base: nat, n: nat)
    ensures Num(base, seq(n, _ => 0)) == 0
  {
    if n > 0 {
      assert seq(n, _ => 0)[1..] == seq(n - 1, _ => 0);
      NumZeros(base, n - 1);
    }
  }
}
