/** integerLogBase and roundTo of lib/jhc/Numeric.hs. */
module Numeric {
  import opened Powers

  // ----- integerLogBase

  /** `q` is the floor of `i / m`. */
  ghost predicate IsFloor(q: int, i: int, m: int) { q * m <= i < (q + 1) * m }

  lemma QuotIsFloor(i: nat, m: nat)
    requires m > 0
    ensures IsFloor(Quot(i, m), i, m)
  {
    var q := Quot(i, m);
    assert (q + 1) * m == q * m + m;
  }

  lemma FloorSmaller(q: nat, i: nat, m: nat)
    requires IsFloor(q, i, m) && i >= m >= 2
    ensures 1 <= q < i
  {
    FloorPositive(q, i, m);
    MulMono(2, m, q);
  }

  lemma FloorPositive(q: nat, i: nat, m: nat)
    requires IsFloor(q, i, m) && i >= m
    ensures q >= 1
  {
    if q < 1 { MulMono(q + 1, 1, m); }
  }

  /** doDiv: divide until the rest is smaller than the base, counting. */
  function DoDiv(b: nat, i: nat, l: nat): nat
    requires b >= 2
    decreases i
  {
    if i < b then l
    else
      QuotIsFloor(i, b);
      FloorSmaller(Quot(i, b), i, b);
      DoDiv(b, Quot(i, b), l + 1)
  }

  function Square(b: nat): (r: nat)
    requires b >= 2
    ensures r > b
  {
    MulStrict(1, b, b);
    b * b
  }

  /** The base is squared first to save divisions. */
  function IntegerLogBase(b: nat, i: int): nat
    requires b >= 2
    decreases if i < b then 0 else i - b + 1
  {
    if i < b then 0
    else
      var l := 2 * IntegerLogBase(Square(b), i);
      DoDiv(b, Quot(i, Pow(b, l)), l)
  }

  lemma {:induction false} DoDivFinds(b: nat, i: int, j: nat, l: nat)
    requires b >= 2 && j >= 1 && IsFloor(j, i, Pow(b, l))
    ensures var r := DoDiv(b, j, l); Pow(b, r) <= i < Pow(b, r + 1)
    decreases j
  {
    var p := Pow(b, l);
    assert Pow(b, l + 1) == b * p;
    hide Pow;
    if j < b {
      MulMono(1, j, p);
      MulMono(j + 1, b, p);
    } else {
      QuotIsFloor(j, b);
      FloorSmaller(Quot(j, b), j, b);
      FloorOfFloor(i, j, Quot(j, b), p, b);
      hide IsFloor, Quot;
      DoDivFinds(b, i, Quot(j, b), l + 1);
    }
  }

  lemma FloorOfFloor(i: int, j: int, q: int, p: int, b: int)
    requires p > 0 && IsFloor(j, i, p) && IsFloor(q, j, b)
    ensures IsFloor(q, i, b * p)
  {
    MulMono(q * b, j, p);
    MulMono(j + 1, (q + 1) * b, p);
    Assoc(q, b, p);
    Assoc(q + 1, b, p);
  }

  /** The result is the floor of the logarithm, for every base and every positive number. */
  lemma {:induction false} IntegerLogBaseIsLog(b: nat, i: int)
    requires b >= 2 && i >= 1
    ensures var l := IntegerLogBase(b, i); Pow(b, l) <= i < Pow(b, l + 1)
    decreases if i < b then 0 else i - b + 1
  {
    if i < b {
      assert Pow(b, 1) == b * Pow(b, 0);
    } else {
      IntegerLogBaseIsLog(Square(b), i);
      var h := IntegerLogBase(Square(b), i);
      PowSquare(b, h);
      PowSquare(b, h + 1);
      assert Pow(b, 2 * h) <= i;
      hide Pow, Square;
      var q := Quot(i, Pow(b, 2 * h));
      QuotIsFloor(i, Pow(b, 2 * h));
      FloorPositive(q, i, Pow(b, 2 * h));
      hide IsFloor, Quot;
      DoDivFinds(b, i, q, 2 * h);
    }
  }

  // ----- roundTo

  function ToNat(c: bool): nat { if c then 1 else 0 }

  /** The inner function of roundTo: whether a carry leaves the digits, and `d` digits. */
  function RoundDigits(base: nat, d: nat, xs: seq<int>): (bool, seq<int>)
    decreases |xs|
  {
    if xs == [] then (false, seq(d, _ => 0))
    else if d == 0 then (xs[0] >= base / 2, [])
    else
      var (c, ds) := RoundDigits(base, d - 1, xs[1..]);
      var i' := ToNat(c) + xs[0];
      if i' == base then (true, [0] + ds) else (false, [i'] + ds)
  }

  function RoundTo(base: nat, d: nat, xs: seq<int>): (bool, seq<int>) {
    match RoundDigits(base, d, xs)
    case (false, ds) => (false, ds)
    case (true, ds) => (true, [1] + ds)
  }

  /** `q` is 0.xs times base^d, rounded to the nearest integer with halves going up:
      the floor of that plus one half. */
  ghost predicate Rounded(base: nat, d: nat, xs: seq<int>, q: int) {
    IsFloor(q, 2 * Num(base, xs) * Pow(base, d) + Pow(base, |xs|), 2 * Pow(base, |xs|))
  }

  /** What roundTo promises of its carry and digits. */
  ghost predicate RoundsWell(base: nat, d: nat, xs: seq<int>) {
    var (c, ds) := RoundTo(base, d, xs);
    && |ds| == d + ToNat(c) && Digits(base, ds)
    && Rounded(base, d, xs, Num(base, ds))
  }

  lemma RoundNoDigits(base: nat, xs: seq<int>)
    requires base >= 2 && base % 2 == 0 && xs != [] && Digits(base, xs)
    ensures Rounded(base, 0, xs, if xs[0] >= base / 2 then 1 else 0)
  {
    var B := Pow(base, |xs| - 1);
    var n' := Num(base, xs[1..]);
    NumBound(base, xs[1..]);
    assert Pow(base, |xs|) == base * B && Pow(base, 0) == 1;
    assert Num(base, xs) == xs[0] * B + n';
    hide Pow, Num;
    HalfDecides(base / 2, B, xs[0], n');
    assert 2 * Num(base, xs) * 1 == 2 * Num(base, xs);
  }

  lemma HalfDecides(h: nat, B: int, x: int, n': int)
    requires h > 0 && 0 <= n' < B && 0 <= x < 2 * h
    ensures IsFloor(if x >= h then 1 else 0, 2 * (x * B + n') + 2 * h * B, 2 * (2 * h * B))
  {
    if x >= h {
      MulMono(h, x, B);
      MulMono(x + 1, 2 * h, B);
    } else {
      MulMono(x + 1, h, B);
      MulMono(0, x, B);
    }
    assert (x + 1) * B == x * B + B;
    assert 2 * h * B == 2 * (h * B);
  }

  /** Moving the point: rounding after a leading digit. */
  lemma RoundBehindDigit(base: nat, d: nat, xs: seq<int>, q: int)
    requires base >= 2 && xs != [] && d > 0
    requires Rounded(base, d - 1, xs[1..], q)
    ensures Rounded(base, d, xs, xs[0] * Pow(base, d - 1) + q)
  {
    var B, P, i, n' := Pow(base, |xs| - 1), Pow(base, d - 1), xs[0], Num(base, xs[1..]);
    var x := 2 * n' * P + B;
    var q' := i * P + q;
    assert Num(base, xs) == i * B + n' && Pow(base, d) == base * P && Pow(base, |xs|) == base * B;
    RoundShift(base, B, P, i, n', q);
  }

  lemma RoundShift(base: int, B: int, P: int, i: int, n': int, q: int)
    requires base > 0 && B > 0
    requires IsFloor(q, 2 * n' * P + B, 2 * B)
    ensures IsFloor(i * P + q, 2 * (i * B + n') * (base * P) + base * B, 2 * (base * B))
  {
    var x := 2 * n' * P + B;
    var y := 2 * (i * B + n') * (base * P) + base * B;
    assert y == base * (2 * i * B * P + x) by {
      assert 2 * (i * B + n') * (base * P) == base * (2 * (i * B + n') * P) by { Swap(2 * (i * B + n'), base, P); }
      assert 2 * (i * B + n') * P == 2 * i * B * P + 2 * n' * P by { Spread(i * B, n', P); Flat(i, B, P); }
      Sum3(base, 2 * i * B * P, 2 * n' * P, B);
    }
    var z := 2 * i * B * P + x;
    assert (i * P + q) * (2 * B) <= z < (i * P + q + 1) * (2 * B) by {
      assert (i * P + q) * (2 * B) == 2 * i * B * P + q * (2 * B) by { Expand(i, P, q, B); }
      assert (i * P + q + 1) * (2 * B) == 2 * i * B * P + (q + 1) * (2 * B) by { Expand(i, P, q + 1, B); }
    }
    ScaleUp(base, (i * P + q) * (2 * B), z, (i * P + q + 1) * (2 * B));
    Swap3(i * P + q, base, B);
    Swap3(i * P + q + 1, base, B);
  }

  lemma Swap(a: int, b: int, c: int)
    ensures a * (b * c) == b * (a * c)
  {}

  lemma Spread(a: int, b: int, c: int)
    ensures 2 * (a + b) * c == 2 * a * c + 2 * b * c
  {
    assert 2 * (a + b) == 2 * a + 2 * b;
  }

  lemma Flat(i: int, b: int, c: int)
    ensures 2 * (i * b) * c == 2 * i * b * c
  {
    assert 2 * (i * b) == 2 * i * b;
  }

  lemma Sum3(m: int, a: int, b: int, c: int)
    ensures m * a + m * b + m * c == m * (a + (b + c))
  {}

  lemma Expand(i: int, p: int, q: int, b: int)
    ensures (i * p + q) * (2 * b) == 2 * i * b * p + q * (2 * b)
  {
    assert (i * p) * (2 * b) == 2 * i * b * p;
  }

  lemma ScaleUp(m: int, a: int, b: int, c: int)
    requires m > 0 && a <= b < c
    ensures m * a <= m * b < m * c
  {}

  lemma Swap3(a: int, m: int, b: int)
    ensures a * (2 * (m * b)) == m * (a * (2 * b))
  {}

  /** roundTo on an even base: for every list of digits and every number of places, the
      digits are in range and, carry included, stand for the number rounded. */
  lemma {:induction false} RoundToRounds(base: nat, d: nat, xs: seq<int>)
    requires base >= 2 && base % 2 == 0 && Digits(base, xs)
    ensures RoundsWell(base, d, xs)
  {
    RoundDigitsRounds(base, d, xs);
    var (c, ds) := RoundDigits(base, d, xs);
    assert ([1] + ds)[1..] == ds;
  }

  lemma {:induction false} RoundDigitsRounds(base: nat, d: nat, xs: seq<int>)
    requires base >= 2 && base % 2 == 0 && Digits(base, xs)
    ensures var (c, ds) := RoundDigits(base, d, xs);
      && |ds| == d && Digits(base, ds)
      && Rounded(base, d, xs, ToNat(c) * Pow(base, d) + Num(base, ds))
    decreases |xs|
  {
    if xs == [] {
      NumZeros(base, d);
    } else if d == 0 {
      RoundNoDigits(base, xs);
    } else {
      var (c, ds) := RoundDigits(base, d - 1, xs[1..]);
      RoundDigitsRounds(base, d - 1, xs[1..]);
      var P := Pow(base, d - 1);
      RoundBehindDigit(base, d, xs, ToNat(c) * P + Num(base, ds));
      CarryAbsorbed(base, d, ToNat(c), xs[0], ds);
      hide Rounded, Pow, Num;
    }
  }

  /** A carry into a digit: it stays a digit, or becomes zero and carries on. */
  lemma CarryAbsorbed(base: nat, d: nat, c: nat, x: int, ds: seq<int>)
    requires base >= 2 && d > 0 && |ds| == d - 1 && Digits(base, ds) && 0 <= x < base && c <= 1
    ensures x * Pow(base, d - 1) + (c * Pow(base, d - 1) + Num(base, ds)) ==
      if c + x == base then 1 * Pow(base, d) + Num(base, [0] + ds) else 0 * Pow(base, d) + Num(base, [c + x] + ds)
  {
    var P := Pow(base, d - 1);
    assert Pow(base, d) == base * P;
    assert ([c + x] + ds)[1..] == ds && ([0] + ds)[1..] == ds;
    assert Num(base, [0] + ds) == 0 * P + Num(base, ds);
    assert Num(base, [c + x] + ds) == (c + x) * P + Num(base, ds);
    hide Pow, Num;
    Distributes(c, x, P);
  }

  /** On an odd base half of it, rounded down, counts as a half: one digit then rounds up
      although it stands for less than a half. */
  lemma OddBaseRoundsWrong(base: nat)
    requires base >= 3 && base % 2 == 1
    ensures Digits(base, [base / 2]) && !RoundsWell(base, 0, [base / 2])
  {
    var h := base / 2;
    assert RoundDigits(base, 0, [h]) == (true, []);
    assert [h][1..] == [] && [1][1..] == [] && Num(base, [h]) == h * Pow(base, 0);
    assert Pow(base, 0) == 1 && Pow(base, 1) == base * Pow(base, 0);
    assert Num(base, [1]) == 1 * Pow(base, 0);
  }

  /** roundTo rounds to the nearest, for all digits and places, exactly on even bases. */
  lemma RoundsIffEven(base: nat)
    requires base >= 2
    ensures (forall d: nat, xs | Digits(base, xs) :: RoundsWell(base, d, xs)) <==> base % 2 == 0
  {
    if base % 2 == 0 {
      forall d: nat, xs | Digits(base, xs)
        ensures RoundsWell(base, d, xs)
      {
        RoundToRounds(base, d, xs);
      }
    } else {
      OddBaseRoundsWrong(base);
    }
  }
}
