/** MD5 as sections 3.1 to 3.5 of RFC 1321 define it. */
module Md5Spec {
  import opened Octets

  /** The four registers. */
  datatype Regs = Regs(a: bv32, b: bv32, c: bv32, d: bv32)

  const INIT := Regs(0x67452301, 0xefcdab89, 0x98badcfe, 0x10325476)

  // ----- section 3.4: one block

  function F(x: bv32, y: bv32, z: bv32): bv32 { (x & y) | (!x & z) }

  function G(x: bv32, y: bv32, z: bv32): bv32 { (x & z) | (y & !z) }

  function H(x: bv32, y: bv32, z: bv32): bv32 { x ^ y ^ z }

  function I(x: bv32, y: bv32, z: bv32): bv32 { y ^ (x | !z) }

  /** b + ((a + f + x + t) <<< s). */
  function Set(f: bv32, a: bv32, b: bv32, x: bv32, s: nat, t: bv32): bv32
    requires 0 < s < 32
  {
    Rot(a + f + x + t, s) + b
  }

  /** T[i + 1] of section 3.4 of RFC 1321, round by round. */
  function T1(j: nat): bv32 {
    match j
    case 0 => 0xd76aa478
    case 1 => 0xe8c7b756
    case 2 => 0x242070db
    case 3 => 0xc1bdceee
    case 4 => 0xf57c0faf
    case 5 => 0x4787c62a
    case 6 => 0xa8304613
    case 7 => 0xfd469501
    case 8 => 0x698098d8
    case 9 => 0x8b44f7af
    case 10 => 0xffff5bb1
    case 11 => 0x895cd7be
    case 12 => 0x6b901122
    case 13 => 0xfd987193
    case 14 => 0xa679438e
    case _ => 0x49b40821
  }

  function T2(j: nat): bv32 {
    match j
    case 0 => 0xf61e2562
    case 1 => 0xc040b340
    case 2 => 0x265e5a51
    case 3 => 0xe9b6c7aa
    case 4 => 0xd62f105d
    case 5 => 0x02441453
    case 6 => 0xd8a1e681
    case 7 => 0xe7d3fbc8
    case 8 => 0x21e1cde6
    case 9 => 0xc33707d6
    case 10 => 0xf4d50d87
    case 11 => 0x455a14ed
    case 12 => 0xa9e3e905
    case 13 => 0xfcefa3f8
    case 14 => 0x676f02d9
    case _ => 0x8d2a4c8a
  }

  function T3(j: nat): bv32 {
    match j
    case 0 => 0xfffa3942
    case 1 => 0x8771f681
    case 2 => 0x6d9d6122
    case 3 => 0xfde5380c
    case 4 => 0xa4beea44
    case 5 => 0x4bdecfa9
    case 6 => 0xf6bb4b60
    case 7 => 0xbebfbc70
    case 8 => 0x289b7ec6
    case 9 => 0xeaa127fa
    case 10 => 0xd4ef3085
    case 11 => 0x04881d05
    case 12 => 0xd9d4d039
    case 13 => 0xe6db99e5
    case 14 => 0x1fa27cf8
    case _ => 0xc4ac5665
  }

  function T4(j: nat): bv32 {
    match j
    case 0 => 0xf4292244
    case 1 => 0x432aff97
    case 2 => 0xab9423a7
    case 3 => 0xfc93a039
    case 4 => 0x655b59c3
    case 5 => 0x8f0ccc92
    case 6 => 0xffeff47d
    case 7 => 0x85845dd1
    case 8 => 0x6fa87e4f
    case 9 => 0xfe2ce6e0
    case 10 => 0xa3014314
    case 11 => 0x4e0811a1
    case 12 => 0xf7537e82
    case 13 => 0xbd3af235
    case 14 => 0x2ad7d2bb
    case _ => 0xeb86d391
  }

  /** The word each step takes. */
  function WordIndex(r: nat, j: nat): (k: nat)
    ensures k < 16
  {
    if r == 0 then j % 16 else if r == 1 then (5 * j + 1) % 16 else if r == 2 then (3 * j + 5) % 16 else (7 * j) % 16
  }

  /** How far each step rotates. */
  function Shift(r: nat, j: nat): (s: nat)
    ensures 0 < s < 32
  {
    var q := j % 4;
    if r == 0 then (if q == 0 then 7 else if q == 1 then 12 else if q == 2 then 17 else 22)
    else if r == 1 then (if q == 0 then 5 else if q == 1 then 9 else if q == 2 then 14 else 20)
    else if r == 2 then (if q == 0 then 4 else if q == 1 then 11 else if q == 2 then 16 else 23)
    else (if q == 0 then 6 else if q == 1 then 10 else if q == 2 then 15 else 21)
  }

  function Mixed(r: nat, x: bv32, y: bv32, z: bv32): bv32 {
    if r == 0 then F(x, y, z) else if r == 1 then G(x, y, z) else if r == 2 then H(x, y, z) else I(x, y, z)
  }

  function Constant(r: nat, j: nat): bv32 {
    if r == 0 then T1(j) else if r == 1 then T2(j) else if r == 2 then T3(j) else T4(j)
  }

  /** Step `j` of round `r`: one register is set, and the four change places. */
  function Step(r: nat, j: nat, st: Regs, x: seq<bv32>): Regs
    requires |x| == 16
  {
    Regs(st.d, Set(Mixed(r, st.b, st.c, st.d), st.a, st.b, x[WordIndex(r, j)], Shift(r, j), Constant(r, j)), st.b, st.c)
  }

  function Steps(r: nat, n: nat, st: Regs, x: seq<bv32>): Regs
    requires |x| == 16
  {
    if n == 0 then st else Step(r, n - 1, Steps(r, n - 1, st, x), x)
  }

  /** A block as words, low bytes first. */
  function Words(block: Bytes): (x: seq<bv32>)
    requires |block| == 64
    ensures |x| == 16
  {
    seq(16, (i: nat) requires i < 16 => Word(block[4 * i], block[4 * i + 1], block[4 * i + 2], block[4 * i + 3]))
  }

  function Added(s: Regs, t: Regs): Regs { Regs(Add(s.a, t.a), Add(s.b, t.b), Add(s.c, t.c), Add(s.d, t.d)) }

  /** The four rounds, and the registers added to what they were. */
  function Compress(st: Regs, block: Bytes): Regs
    requires |block| == 64
  {
    var x := Words(block);
    Added(st, Steps(3, 16, Steps(2, 16, Steps(1, 16, Steps(0, 16, st, x), x), x), x))
  }

  /** All whole blocks of a message, in order. */
  function Blocks(m: Bytes, st: Regs): Regs
    decreases |m|
  {
    if |m| < 64 then st else Blocks(m[64..], Compress(st, m[..64]))
  }

  // ----- sections 3.1, 3.2 and 3.5

  function Zeros(n: nat): (z: Bytes)
    ensures |z| == n && forall i | 0 <= i < n :: z[i] == 0
  {
    seq(n, _ => 0)
  }

  /** Padding: a one bit, then the fewest zero bits that make the length 56 modulo 64. */
  function Padding(len: nat): (p: Bytes)
    ensures 1 <= |p| <= 64 && (len + |p|) % 64 == 56
    ensures p[0] == 0x80 && forall i | 1 <= i < |p| :: p[i] == 0
  {
    var z := (55 + 64 - len % 64) % 64;
    assert (len + 1 + z) % 64 == 56;
    [0x80] + Zeros(z)
  }

  function ByteAt(n: nat, i: nat): byte { ((n / Pow256(i)) % 256) as bv8 }

  function Pow256(i: nat): (p: nat)
    ensures p > 0
  {
    if i == 0 then 1 else 256 * Pow256(i - 1)
  }

  /** The length in bits, modulo 2^64, low byte first. */
  function LengthBytes(len: nat): (b: Bytes)
    ensures |b| == 8
  {
    seq(8, (i: nat) => ByteAt((8 * len) % 0x1_0000_0000_0000_0000, i))
  }

  /** The bytes of the registers, low byte first. */
  function Output(st: Regs): (b: Bytes)
    ensures |b| == 16
  {
    WordBytes(st.a) + WordBytes(st.b) + WordBytes(st.c) + WordBytes(st.d)
  }

  function Padded(m: Bytes): Bytes { m + Padding(|m|) + LengthBytes(|m|) }

  function Md5(m: Bytes): Bytes { Output(Blocks(Padded(m), INIT)) }

  lemma LengthFollows(n: nat)
    requires n % 64 == 56
    ensures (n + 8) % 64 == 0
  {}

  /** Padding fills whole blocks. */
  lemma PaddedWhole(m: Bytes)
    ensures |Padded(m)| % 64 == 0
  {
    hide Padding, LengthBytes;
    LengthFollows(|m| + |Padding(|m|)|);
    assert |Padded(m)| == |m| + |Padding(|m|)| + 8;
  }

  /** Whole blocks can be processed separately. */
  lemma {:induction false} BlocksAppend(a: Bytes, b: Bytes, st: Regs)
    requires |a| % 64 == 0
    ensures Blocks(a + b, st) == Blocks(b, Blocks(a, st))
    decreases |a|
  {
    hide Compress;
    if |a| == 0 {
      assert a + b == b;
    } else {
      assert (a + b)[64..] == a[64..] + b && (a + b)[..64] == a[..64];
      BlocksAppend(a[64..], b, Compress(st, a[..64]));
    }
  }
}
