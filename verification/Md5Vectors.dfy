/** MD5 of three messages, as appendix A.5 of RFC 1321 gives them, step by step. */
module Md5Vectors {
  import opened Octets
  import opened Md5Spec
  import opened Md5Process

  // ----- one step on numbers: the mixed word `f` and the register `n` that is set

  ghost predicate Holds(x: seq<bv32>, k: nat, w: bv32) { |x| == 16 && k < 16 && x[k] == w }

  ghost predicate Takes(r: nat, j: nat, k: nat, s: nat, t: bv32) {
    k == WordIndex(r, j) && s == Shift(r, j) && t == Constant(r, j)
  }

  ghost predicate Reached(r: nat, j: nat, st: Regs, x: seq<bv32>, at: Regs) { |x| == 16 && Steps(r, j, st, x) == at }

  lemma Begins(r: nat, st: Regs, x: seq<bv32>)
    requires |x| == 16
    ensures Reached(r, 0, st, x, st)
  {}

  lemma FIs(j: nat, st: Regs, x: seq<bv32>, a: bv32, b: bv32, c: bv32, d: bv32, k: nat, w: bv32, s: nat, t: bv32, f: bv32, n: bv32)
    requires Reached(0, j, st, x, Regs(a, b, c, d)) && Takes(0, j, k, s, t) && Holds(x, k, w)
    requires 0 < s < 32 && F(b, c, d) == f && Set(f, a, b, w, s, t) == n
    ensures Reached(0, j + 1, st, x, Regs(d, n, b, c))
  {
    NextStep(0, j, st, x, Regs(a, b, c, d), k, s, t);
    hide Steps, WordIndex, Shift, Constant, Set;
  }

  lemma GIs(j: nat, st: Regs, x: seq<bv32>, a: bv32, b: bv32, c: bv32, d: bv32, k: nat, w: bv32, s: nat, t: bv32, f: bv32, n: bv32)
    requires Reached(1, j, st, x, Regs(a, b, c, d)) && Takes(1, j, k, s, t) && Holds(x, k, w)
    requires 0 < s < 32 && G(b, c, d) == f && Set(f, a, b, w, s, t) == n
    ensures Reached(1, j + 1, st, x, Regs(d, n, b, c))
  {
    NextStep(1, j, st, x, Regs(a, b, c, d), k, s, t);
    hide Steps, WordIndex, Shift, Constant, Set;
  }

  lemma HIs(j: nat, st: Regs, x: seq<bv32>, a: bv32, b: bv32, c: bv32, d: bv32, k: nat, w: bv32, s: nat, t: bv32, f: bv32, n: bv32)
    requires Reached(2, j, st, x, Regs(a, b, c, d)) && Takes(2, j, k, s, t) && Holds(x, k, w)
    requires 0 < s < 32 && H(b, c, d) == f && Set(f, a, b, w, s, t) == n
    ensures Reached(2, j + 1, st, x, Regs(d, n, b, c))
  {
    NextStep(2, j, st, x, Regs(a, b, c, d), k, s, t);
    hide Steps, WordIndex, Shift, Constant, Set;
  }

  lemma IIs(j: nat, st: Regs, x: seq<bv32>, a: bv32, b: bv32, c: bv32, d: bv32, k: nat, w: bv32, s: nat, t: bv32, f: bv32, n: bv32)
    requires Reached(3, j, st, x, Regs(a, b, c, d)) && Takes(3, j, k, s, t) && Holds(x, k, w)
    requires 0 < s < 32 && I(b, c, d) == f && Set(f, a, b, w, s, t) == n
    ensures Reached(3, j + 1, st, x, Regs(d, n, b, c))
  {
    NextStep(3, j, st, x, Regs(a, b, c, d), k, s, t);
    hide Steps, WordIndex, Shift, Constant, Set;
  }

  lemma Plan1A()
    ensures
      Takes(0, 0, 0, 7, 0xd76aa478) &&
      Takes(0, 1, 1, 12, 0xe8c7b756) &&
      Takes(0, 2, 2, 17, 0x242070db) &&
      Takes(0, 3, 3, 22, 0xc1bdceee)
  {}

  lemma Plan1B()
    ensures
      Takes(0, 4, 4, 7, 0xf57c0faf) &&
      Takes(0, 5, 5, 12, 0x4787c62a) &&
      Takes(0, 6, 6, 17, 0xa8304613) &&
      Takes(0, 7, 7, 22, 0xfd469501)
  {}

  lemma Plan1C()
    ensures
      Takes(0, 8, 8, 7, 0x698098d8) &&
      Takes(0, 9, 9, 12, 0x8b44f7af) &&
      Takes(0, 10, 10, 17, 0xffff5bb1) &&
      Takes(0, 11, 11, 22, 0x895cd7be)
  {}

  lemma Plan1D()
    ensures
      Takes(0, 12, 12, 7, 0x6b901122) &&
      Takes(0, 13, 13, 12, 0xfd987193) &&
      Takes(0, 14, 14, 17, 0xa679438e) &&
      Takes(0, 15, 15, 22, 0x49b40821)
  {}

  lemma Plan2A()
    ensures
      Takes(1, 0, 1, 5, 0xf61e2562) &&
      Takes(1, 1, 6, 9, 0xc040b340) &&
      Takes(1, 2, 11, 14, 0x265e5a51) &&
      Takes(1, 3, 0, 20, 0xe9b6c7aa)
  {}

  lemma Plan2B()
    ensures
      Takes(1, 4, 5, 5, 0xd62f105d) &&
      Takes(1, 5, 10, 9, 0x02441453) &&
      Takes(1, 6, 15, 14, 0xd8a1e681) &&
      Takes(1, 7, 4, 20, 0xe7d3fbc8)
  {}

  lemma Plan2C()
    ensures
      Takes(1, 8, 9, 5, 0x21e1cde6) &&
      Takes(1, 9, 14, 9, 0xc33707d6) &&
      Takes(1, 10, 3, 14, 0xf4d50d87) &&
      Takes(1, 11, 8, 20, 0x455a14ed)
  {}

  lemma Plan2D()
    ensures
      Takes(1, 12, 13, 5, 0xa9e3e905) &&
      Takes(1, 13, 2, 9, 0xfcefa3f8) &&
      Takes(1, 14, 7, 14, 0x676f02d9) &&
      Takes(1, 15, 12, 20, 0x8d2a4c8a)
  {}

  lemma Plan3A()
    ensures
      Takes(2, 0, 5, 4, 0xfffa3942) &&
      Takes(2, 1, 8, 11, 0x8771f681) &&
      Takes(2, 2, 11, 16, 0x6d9d6122) &&
      Takes(2, 3, 14, 23, 0xfde5380c)
  {}

  lemma Plan3B()
    ensures
      Takes(2, 4, 1, 4, 0xa4beea44) &&
      Takes(2, 5, 4, 11, 0x4bdecfa9) &&
      Takes(2, 6, 7, 16, 0xf6bb4b60) &&
      Takes(2, 7, 10, 23, 0xbebfbc70)
  {}

  lemma Plan3C()
    ensures
      Takes(2, 8, 13, 4, 0x289b7ec6) &&
      Takes(2, 9, 0, 11, 0xeaa127fa) &&
      Takes(2, 10, 3, 16, 0xd4ef3085) &&
      Takes(2, 11, 6, 23, 0x04881d05)
  {}

  lemma Plan3D()
    ensures
      Takes(2, 12, 9, 4, 0xd9d4d039) &&
      Takes(2, 13, 12, 11, 0xe6db99e5) &&
      Takes(2, 14, 15, 16, 0x1fa27cf8) &&
      Takes(2, 15, 2, 23, 0xc4ac5665)
  {}

  lemma Plan4A()
    ensures
      Takes(3, 0, 0, 6, 0xf4292244) &&
      Takes(3, 1, 7, 10, 0x432aff97) &&
      Takes(3, 2, 14, 15, 0xab9423a7) &&
      Takes(3, 3, 5, 21, 0xfc93a039)
  {}

  lemma Plan4B()
    ensures
      Takes(3, 4, 12, 6, 0x655b59c3) &&
      Takes(3, 5, 3, 10, 0x8f0ccc92) &&
      Takes(3, 6, 10, 15, 0xffeff47d) &&
      Takes(3, 7, 1, 21, 0x85845dd1)
  {}

  lemma Plan4C()
    ensures
      Takes(3, 8, 8, 6, 0x6fa87e4f) &&
      Takes(3, 9, 15, 10, 0xfe2ce6e0) &&
      Takes(3, 10, 6, 15, 0xa3014314) &&
      Takes(3, 11, 13, 21, 0x4e0811a1)
  {}

  lemma Plan4D()
    ensures
      Takes(3, 12, 4, 6, 0xf7537e82) &&
      Takes(3, 13, 11, 10, 0xbd3af235) &&
      Takes(3, 14, 2, 15, 0x2ad7d2bb) &&
      Takes(3, 15, 9, 21, 0xeb86d391)
  {}

  /** The digits from 1 to 9 and 0, again and again. */
  function Digits(n: nat): (m: Bytes)
    ensures |m| == n
  {
    seq(n, i requires 0 <= i < n => Digit(i))
  }

  function Digit(i: nat): byte {
    match i % 10
    case 0 => 0x31
    case 1 => 0x32
    case 2 => 0x33
    case 3 => 0x34
    case 4 => 0x35
    case 5 => 0x36
    case 6 => 0x37
    case 7 => 0x38
    case 8 => 0x39
    case _ => 0x30
  }

  // ----- the padded message, byte by byte, with `z` bytes of padding

  function ByteOf(m: Bytes, z: nat, i: nat): byte {
    if i < |m| then m[i]
    else if i == |m| then 0x80
    else if i == |m| + z then (8 * |m| % 256) as bv8
    else if i == |m| + z + 1 then (8 * |m| / 256 % 256) as bv8
    else 0
  }

  ghost predicate Pads(m: Bytes, z: nat) { |m| < 0x1000 && 1 <= z <= 64 && (|m| + z) % 64 == 56 }

  /** The words of block `i` of the padded message. */
  function Part(m: Bytes, i: nat): (x: seq<bv32>)
    ensures |x| == 16
  {
    if 64 * i + 64 <= |Padded(m)| then Words(Padded(m)[64 * i..64 * i + 64]) else seq(16, _ => 0)
  }

  lemma PartIs(m: Bytes, z: nat, i: nat)
    requires Pads(m, z) && 64 * i + 64 <= |m| + z + 8
    ensures |Padded(m)| == |m| + z + 8 && Part(m, i) == Words(Padded(m)[64 * i..64 * i + 64])
  {
    PaddedLength(m, z);
    hide Words, Padded;
  }

  lemma PaddedLength(m: Bytes, z: nat)
    requires Pads(m, z)
    ensures |Padding(|m|)| == z && |Padded(m)| == |m| + z + 8 && |Padded(m)| % 64 == 0
  {
    hide Padding, LengthBytes;
    var p := |Padding(|m|)|;
    assert (|m| + p) % 64 == 56;
    SamePadding(|m|, p, z);
    LengthFollows(|m| + z);
  }

  lemma SamePadding(len: nat, p: nat, z: nat)
    requires 1 <= z <= 64 && 1 <= p <= 64 && (len + p) % 64 == 56 && (len + z) % 64 == 56
    ensures p == z
  {}

  lemma LengthByte(n: nat, i: nat)
    requires n < 0x1000 && i < 8
    ensures LengthBytes(n)[i] == if i == 0 then (8 * n % 256) as bv8 else if i == 1 then (8 * n / 256 % 256) as bv8 else 0
  {
    assert Pow256(0) == 1 && Pow256(1) == 256;
    if i >= 2 { Pow256Large(i); }
    Shifted(n, i, Pow256(i));
    hide Pow256;
  }

  /** A length below 2^12 fills two bytes. */
  lemma Shifted(n: nat, i: nat, p: nat)
    requires n < 0x1000 && (i == 0 ==> p == 1) && (i == 1 ==> p == 256) && (i >= 2 ==> p >= 0x1_0000)
    ensures (8 * n) % 0x1_0000_0000_0000_0000 / p == if i == 0 then 8 * n else if i == 1 then 8 * n / 256 else 0
  {
    if i >= 2 { DivModZero(8 * n, p); }
  }

  lemma DivModZero(a: nat, p: nat)
    requires a < p
    ensures a / p == 0
  {}

  lemma {:induction false} Pow256Large(i: nat)
    requires i >= 2
    ensures Pow256(i) >= 0x1_0000
  {
    if i > 2 { Pow256Large(i - 1); } else { assert Pow256(1) == 256; }
  }

  lemma PaddedByte(m: Bytes, z: nat, i: nat)
    requires Pads(m, z) && i < |m| + z + 8
    ensures |Padded(m)| == |m| + z + 8 && Padded(m)[i] == ByteOf(m, z, i)
  {
    PaddedLength(m, z);
    hide Padding, LengthBytes;
    if i >= |m| + z { LengthByte(|m|, i - |m| - z); }
  }

  lemma WordAt(block: Bytes, k: nat, b0: byte, b1: byte, b2: byte, b3: byte, w: bv32)
    requires |block| == 64 && k < 16
    requires block[4 * k] == b0 && block[4 * k + 1] == b1 && block[4 * k + 2] == b2 && block[4 * k + 3] == b3
    requires (b0 as bv32) + ((b1 as bv32) << 8) + ((b2 as bv32) << 16) + ((b3 as bv32) << 24) == w
    ensures Holds(Words(block), k, w)
  {
    WordWritten(b0, b1, b2, b3);
    hide Word;
  }

  lemma WordIs(m: Bytes, z: nat, block: nat, k: nat, b0: byte, b1: byte, b2: byte, b3: byte, w: bv32)
    requires Pads(m, z) && k < 16 && 64 * block + 64 <= |m| + z + 8
    requires var i := 64 * block + 4 * k;
      ByteOf(m, z, i) == b0 && ByteOf(m, z, i + 1) == b1 && ByteOf(m, z, i + 2) == b2 && ByteOf(m, z, i + 3) == b3
    requires (b0 as bv32) + ((b1 as bv32) << 8) + ((b2 as bv32) << 16) + ((b3 as bv32) << 24) == w
    ensures Holds(Part(m, block), k, w)
  {
    var i := 64 * block + 4 * k;
    PaddedByte(m, z, i);
    PaddedByte(m, z, i + 1);
    PaddedByte(m, z, i + 2);
    PaddedByte(m, z, i + 3);
    PartIs(m, z, block);
    hide Padded, ByteOf;
    WordAt(Padded(m)[64 * block..64 * block + 64], k, b0, b1, b2, b3, w);
  }

  /** A word of padding zeros, or behind the low bytes of the length. */
  lemma ZeroWord(m: Bytes, z: nat, block: nat, k: nat)
    requires Pads(m, z) && k < 16 && 64 * block + 64 <= |m| + z + 8
    requires var i := 64 * block + 4 * k; |m| < i && (i + 3 < |m| + z || |m| + z + 1 < i)
    ensures Holds(Part(m, block), k, 0)
  {
    WordIs(m, z, block, k, 0, 0, 0, 0, 0);
  }

  lemma ZeroWords(m: Bytes, z: nat, block: nat, from: nat, to: nat)
    requires Pads(m, z) && to <= 16 && 64 * block + 64 <= |m| + z + 8
    requires |m| < 64 * block + 4 * from && 64 * block + 4 * to <= |m| + z
    ensures forall k: nat | from <= k < to :: Holds(Part(m, block), k, 0)
  {
    forall k: nat | from <= k < to ensures Holds(Part(m, block), k, 0) {
      hide Part, Holds;
      ZeroWord(m, z, block, k);
    }
  }

  /** Every fifth word of the digits is the same. */
  function DigitsWord(q: nat): bv32 {
    match q
    case 0 => 0x34333231
    case 1 => 0x38373635
    case 2 => 0x32313039
    case 3 => 0x36353433
    case _ => 0x30393837
  }

  lemma DigitsHold(block: nat, k: nat, q: nat)
    requires k < 16 && 16 * block + k < 20 && q == (16 * block + k) % 5
    ensures Holds(Part(Digits(80), block), k, DigitsWord(q))
  {
    var m, i := Digits(80), 64 * block + 4 * k;
    Phase(i, (16 * block + k) / 5, q);
    DigitsPads();
    assert forall i: nat | i < 80 :: m[i] == Digit(i);
    var b0, b1, b2, b3 := Digit(i), Digit(i + 1), Digit(i + 2), Digit(i + 3);
    DigitsSum(i, q);
    hide Digit, Digits, Pads, Part, DigitsWord;
    WordIs(m, 40, block, k, b0, b1, b2, b3, DigitsWord(q));
  }

  lemma Phase(i: nat, u: nat, q: nat)
    requires i == 4 * (5 * u + q) && q < 5
    ensures i % 10 == 4 * q % 10 && (i + 1) % 10 == (4 * q + 1) % 10 && (i + 2) % 10 == (4 * q + 2) % 10 && (i + 3) % 10 == (4 * q + 3) % 10
  {
    assert i == 10 * (2 * u) + 4 * q;
    ModTen(2 * u, 4 * q);
    ModTen(2 * u, 4 * q + 1);
    ModTen(2 * u, 4 * q + 2);
    ModTen(2 * u, 4 * q + 3);
  }

  lemma ModTen(a: nat, b: nat)
    ensures (10 * a + b) % 10 == b % 10
  {}

  lemma DigitsSum(i: nat, q: nat)
    requires q < 5
    requires i % 10 == 4 * q % 10 && (i + 1) % 10 == (4 * q + 1) % 10 && (i + 2) % 10 == (4 * q + 2) % 10 && (i + 3) % 10 == (4 * q + 3) % 10
    ensures (Digit(i) as bv32) + ((Digit(i + 1) as bv32) << 8) + ((Digit(i + 2) as bv32) << 16) + ((Digit(i + 3) as bv32) << 24) == DigitsWord(q)
  {
    match q
    case 0 => assert Digit(i) == 0x31 && Digit(i + 1) == 0x32 && Digit(i + 2) == 0x33 && Digit(i + 3) == 0x34;
    case 1 => assert Digit(i) == 0x35 && Digit(i + 1) == 0x36 && Digit(i + 2) == 0x37 && Digit(i + 3) == 0x38;
    case 2 => assert Digit(i) == 0x39 && Digit(i + 1) == 0x30 && Digit(i + 2) == 0x31 && Digit(i + 3) == 0x32;
    case 3 => assert Digit(i) == 0x33 && Digit(i + 1) == 0x34 && Digit(i + 2) == 0x35 && Digit(i + 3) == 0x36;
    case _ => assert Digit(i) == 0x37 && Digit(i + 1) == 0x38 && Digit(i + 2) == 0x39 && Digit(i + 3) == 0x30;
  }

  // ----- blocks and digests

  lemma CompressIs(st: Regs, block: Bytes, x: seq<bv32>, r1: Regs, r2: Regs, r3: Regs, r4: Regs)
    requires |block| == 64 && x == Words(block)
    requires Reached(0, 16, st, x, r1) && Reached(1, 16, r1, x, r2) && Reached(2, 16, r2, x, r3) && Reached(3, 16, r3, x, r4)
    ensures Compress(st, block) == Added(st, r4)
  {
    hide Steps, Words, Added;
  }

  lemma Sums(a: bv32, b: bv32, c: bv32, d: bv32, a': bv32, b': bv32, c': bv32, d': bv32, a'': bv32, b'': bv32, c'': bv32, d'': bv32)
    requires Add(a, a') == a'' && Add(b, b') == b'' && Add(c, c') == c'' && Add(d, d') == d''
    ensures Added(Regs(a, b, c, d), Regs(a', b', c', d')) == Regs(a'', b'', c'', d'')
  {
    hide Add;
  }

  lemma OneBlock(p: Bytes, st: Regs)
    requires |p| == 64
    ensures Blocks(p, st) == Compress(st, p[0..64])
  {
    hide Compress;
    assert p[..64] == p[0..64];
  }

  lemma TwoBlocks(p: Bytes, st: Regs)
    requires |p| == 128
    ensures Blocks(p, st) == Compress(Compress(st, p[0..64]), p[64..128])
  {
    hide Compress;
    assert p[..64] == p[0..64] && p[64..][..64] == p[64..128];
    assert Blocks(p[64..], Compress(st, p[..64])) == Compress(Compress(st, p[..64]), p[64..][..64]);
  }

  lemma BytesAre(w: bv32, b0: byte, b1: byte, b2: byte, b3: byte)
    requires (w & 0xff) as bv8 == b0 && ((w >> 8) & 0xff) as bv8 == b1 && ((w >> 16) & 0xff) as bv8 == b2 && ((w >> 24) & 0xff) as bv8 == b3
    ensures WordBytes(w) == [b0, b1, b2, b3]
  {}

  lemma OutputIs(st: Regs)
    ensures Output(st) == WordBytes(st.a) + WordBytes(st.b) + WordBytes(st.c) + WordBytes(st.d)
  {}

  // ----- The words of the empty message.

  lemma EmptyHolds()
    ensures
      Holds(Part(Ascii(""), 0), 0, 0x00000080) && Holds(Part(Ascii(""), 0), 1, 0x00000000) && Holds(Part(Ascii(""), 0), 2, 0x00000000) && Holds(Part(Ascii(""), 0), 3, 0x00000000) &&
      Holds(Part(Ascii(""), 0), 4, 0x00000000) && Holds(Part(Ascii(""), 0), 5, 0x00000000) && Holds(Part(Ascii(""), 0), 6, 0x00000000) && Holds(Part(Ascii(""), 0), 7, 0x00000000) &&
      Holds(Part(Ascii(""), 0), 8, 0x00000000) && Holds(Part(Ascii(""), 0), 9, 0x00000000) && Holds(Part(Ascii(""), 0), 10, 0x00000000) && Holds(Part(Ascii(""), 0), 11, 0x00000000) &&
      Holds(Part(Ascii(""), 0), 12, 0x00000000) && Holds(Part(Ascii(""), 0), 13, 0x00000000) && Holds(Part(Ascii(""), 0), 14, 0x00000000) && Holds(Part(Ascii(""), 0), 15, 0x00000000)
  {
    var m := Ascii("");
    EmptyPads();
    hide Pads, Part, Holds, Digits;
    WordIs(m, 56, 0, 0, 0x80, 0x00, 0x00, 0x00, 0x00000080);
    ZeroWords(m, 56, 0, 1, 14);
    WordIs(m, 56, 0, 14, 0x00, 0x00, 0x00, 0x00, 0x00000000);
    ZeroWord(m, 56, 0, 15);
  }

  lemma EmptyRound1()
    ensures Reached(0, 16, Regs(0x67452301, 0xefcdab89, 0x98badcfe, 0x10325476), Part(Ascii(""), 0), Regs(0xf56c7cf1, 0xd6819c6a, 0x5aa53f75, 0x374943a7))
  {
    hide Reached, Holds, Takes, Steps, WordIndex, Shift, Constant, Part;
    var x, st := Part(Ascii(""), 0), Regs(0x67452301, 0xefcdab89, 0x98badcfe, 0x10325476);
    EmptyHolds();
    Begins(0, st, x);
    Plan1A();
    FIs(0, st, x, 0x67452301, 0xefcdab89, 0x98badcfe, 0x10325476, 0, 0x00000080, 7, 0xd76aa478, 0x98badcfe, 0xa5202774);
    FIs(1, st, x, 0x10325476, 0xa5202774, 0xefcdab89, 0x98badcfe, 1, 0x00000000, 12, 0xe8c7b756, 0xbd9afb8a, 0xf59592dd);
    FIs(2, st, x, 0x98badcfe, 0xf59592dd, 0xa5202774, 0xefcdab89, 2, 0x00000000, 17, 0x242070db, 0xaf482b54, 0xe7f06b23);
    FIs(3, st, x, 0xefcdab89, 0xe7f06b23, 0xf59592dd, 0xa5202774, 3, 0x00000000, 22, 0xc1bdceee, 0xe5900655, 0x1b163203);
    Plan1B();
    FIs(4, st, x, 0xa5202774, 0x1b163203, 0xe7f06b23, 0xf59592dd, 4, 0x00000000, 7, 0xf57c0faf, 0xe791a2df, 0x32033344);
    FIs(5, st, x, 0xf59592dd, 0x32033344, 0x1b163203, 0xe7f06b23, 5, 0x00000000, 12, 0x4787c62a, 0xd7f27a23, 0x2f35d494);
    FIs(6, st, x, 0xe7f06b23, 0x2f35d494, 0x32033344, 0x1b163203, 6, 0x00000000, 17, 0xa8304613, 0x32033207, 0xf5b158db);
    FIs(7, st, x, 0x1b163203, 0xf5b158db, 0x2f35d494, 0x32033344, 7, 0x00000000, 22, 0xfd469501, 0x27337394, 0x9bc13ce9);
    Plan1C();
    FIs(8, st, x, 0x32033344, 0x9bc13ce9, 0xf5b158db, 0x2f35d494, 8, 0x00000000, 7, 0x698098d8, 0xb5b5d8dd, 0x3893b991);
    FIs(9, st, x, 0x2f35d494, 0x3893b991, 0x9bc13ce9, 0xf5b158db, 9, 0x00000000, 12, 0x8b44f7af, 0xdda178cb, 0xfce4a312);
    FIs(10, st, x, 0xf5b158db, 0xfce4a312, 0x3893b991, 0x9bc13ce9, 10, 0x00000000, 17, 0xffff5bb1, 0x3b81bdf9, 0xe1ef0576);
    FIs(11, st, x, 0x9bc13ce9, 0xe1ef0576, 0xfce4a312, 0x3893b991, 11, 0x00000000, 22, 0x895cd7be, 0xf8f4b993, 0x70768a29);
    Plan1D();
    FIs(12, st, x, 0x3893b991, 0x70768a29, 0xe1ef0576, 0xfce4a312, 12, 0x00000000, 7, 0x6b901122, 0xece62132, 0xf56c7cf1);
    FIs(13, st, x, 0xfce4a312, 0xf56c7cf1, 0x70768a29, 0xe1ef0576, 13, 0x00000000, 12, 0xfd987193, 0x70e70927, 0x374943a7);
    FIs(14, st, x, 0xe1ef0576, 0x374943a7, 0xf56c7cf1, 0x70768a29, 14, 0x00000000, 17, 0xa679438e, 0x757ec8a9, 0x5aa53f75);
    FIs(15, st, x, 0x70768a29, 0x5aa53f75, 0x374943a7, 0xf56c7cf1, 15, 0x00000000, 22, 0x49b40821, 0xb74943a5, 0xd6819c6a);
  }

  lemma EmptyRound2()
    ensures Reached(1, 16, Regs(0xf56c7cf1, 0xd6819c6a, 0x5aa53f75, 0x374943a7), Part(Ascii(""), 0), Regs(0x13707036, 0xa2205f1f, 0x1c31c384, 0xae7813db))
  {
    hide Reached, Holds, Takes, Steps, WordIndex, Shift, Constant, Part;
    var x, st := Part(Ascii(""), 0), Regs(0xf56c7cf1, 0xd6819c6a, 0x5aa53f75, 0x374943a7);
    EmptyHolds();
    Begins(1, st, x);
    Plan2A();
    GIs(0, st, x, 0xf56c7cf1, 0xd6819c6a, 0x5aa53f75, 0x374943a7, 1, 0x00000000, 5, 0xf61e2562, 0x5ea53c72, 0x1c7d7513);
    GIs(1, st, x, 0x374943a7, 0x1c7d7513, 0xd6819c6a, 0x5aa53f75, 6, 0x00000000, 9, 0xc040b340, 0x9c25b51b, 0x7bd57a3a);
    GIs(2, st, x, 0x5aa53f75, 0x7bd57a3a, 0x1c7d7513, 0xd6819c6a, 11, 0x00000000, 14, 0x265e5a51, 0x5afd793b, 0xc095f13a);
    GIs(3, st, x, 0xd6819c6a, 0xc095f13a, 0x7bd57a3a, 0x1c7d7513, 0, 0x00000080, 20, 0xe9b6c7aa, 0x63957b3a, 0xbd782e17);
    Plan2B();
    GIs(4, st, x, 0x1c7d7513, 0xbd782e17, 0xc095f13a, 0x7bd57a3a, 5, 0x00000000, 5, 0xd62f105d, 0xb950ab12, 0x3d1e3e6c);
    GIs(5, st, x, 0x7bd57a3a, 0x3d1e3e6c, 0xbd782e17, 0xc095f13a, 10, 0x00000000, 9, 0x02441453, 0x3d7c3e2d, 0x68b7b3e3);
    GIs(6, st, x, 0xc095f13a, 0x68b7b3e3, 0x3d1e3e6c, 0xbd782e17, 15, 0x00000000, 14, 0xd8a1e681, 0x2836326b, 0xeb41643e);
    GIs(7, st, x, 0xbd782e17, 0xeb41643e, 0x68b7b3e3, 0x3d1e3e6c, 4, 0x00000000, 20, 0xe7d3fbc8, 0x69a1a5af, 0xe422531a);
    Plan2C();
    GIs(8, st, x, 0x3d1e3e6c, 0xe422531a, 0xeb41643e, 0x68b7b3e3, 9, 0x00000000, 5, 0x21e1cde6, 0xe362571e, 0x306ec122);
    GIs(9, st, x, 0x68b7b3e3, 0x306ec122, 0xe422531a, 0xeb41643e, 14, 0x00000000, 9, 0xc33707d6, 0x24625322, 0xd28c77c2);
    GIs(10, st, x, 0xeb41643e, 0xd28c77c2, 0x306ec122, 0xe422531a, 3, 0x00000000, 14, 0xf4d50d87, 0xd04cd322, 0xa3c663da);
    GIs(11, st, x, 0xe422531a, 0xa3c663da, 0xd28c77c2, 0x306ec122, 8, 0x00000000, 20, 0x455a14ed, 0xe2c677c2, 0xa0572807);
    Plan2D();
    GIs(12, st, x, 0x306ec122, 0xa0572807, 0xa3c663da, 0xd28c77c2, 13, 0x00000000, 5, 0xa9e3e905, 0xa146201a, 0x13707036);
    GIs(13, st, x, 0xd28c77c2, 0x13707036, 0xa0572807, 0xa3c663da, 2, 0x00000000, 9, 0xfcefa3f8, 0x03516817, 0xae7813db);
    GIs(14, st, x, 0xa3c663da, 0xae7813db, 0x13707036, 0xa0572807, 7, 0x00000000, 14, 0x676f02d9, 0xb3705033, 0x1c31c384);
    GIs(15, st, x, 0xa0572807, 0x1c31c384, 0xae7813db, 0x13707036, 12, 0x00000000, 20, 0x8d2a4c8a, 0xbc3843cd, 0xa2205f1f);
  }

  lemma EmptyRound3()
    ensures Reached(2, 16, Regs(0x13707036, 0xa2205f1f, 0x1c31c384, 0xae7813db), Part(Ascii(""), 0), Regs(0x3f55edfd, 0xca7d2dbd, 0x68d84ea2, 0x22a31f54))
  {
    hide Reached, Holds, Takes, Steps, WordIndex, Shift, Constant, Part;
    var x, st := Part(Ascii(""), 0), Regs(0x13707036, 0xa2205f1f, 0x1c31c384, 0xae7813db);
    EmptyHolds();
    Begins(2, st, x);
    Plan3A();
    HIs(0, st, x, 0x13707036, 0xa2205f1f, 0x1c31c384, 0xae7813db, 5, 0x00000000, 4, 0xfffa3942, 0x10698f40, 0xdf63eaa1);
    HIs(1, st, x, 0xae7813db, 0xdf63eaa1, 0xa2205f1f, 0x1c31c384, 8, 0x00000000, 11, 0x8771f681, 0x6172763a, 0xc3689f5b);
    HIs(2, st, x, 0x1c31c384, 0xc3689f5b, 0xdf63eaa1, 0xa2205f1f, 11, 0x00000000, 16, 0x6d9d6122, 0xbe2b2ae5, 0x12f3e755);
    HIs(3, st, x, 0xa2205f1f, 0x12f3e755, 0xc3689f5b, 0xdf63eaa1, 14, 0x00000000, 23, 0xfde5380c, 0x0ef892af, 0x004b6669);
    Plan3B();
    HIs(4, st, x, 0xdf63eaa1, 0x004b6669, 0x12f3e755, 0xc3689f5b, 1, 0x00000000, 4, 0xa4beea44, 0xd1d01e67, 0x5f7a9b2e);
    HIs(5, st, x, 0xc3689f5b, 0x5f7a9b2e, 0x004b6669, 0x12f3e755, 4, 0x00000000, 11, 0x4bdecfa9, 0x4dc21a12, 0xabc34e16);
    HIs(6, st, x, 0x12f3e755, 0xabc34e16, 0x5f7a9b2e, 0x004b6669, 7, 0x00000000, 16, 0xf6bb4b60, 0xf4f2b351, 0x91ca4cb7);
    HIs(7, st, x, 0x004b6669, 0x91ca4cb7, 0xabc34e16, 0x5f7a9b2e, 10, 0x00000000, 23, 0xbebfbc70, 0x6573998f, 0xc5dc8c15);
    Plan3C();
    HIs(8, st, x, 0x5f7a9b2e, 0xc5dc8c15, 0x91ca4cb7, 0xabc34e16, 13, 0x00000000, 4, 0x289b7ec6, 0xffd58eb4, 0x4497169d);
    HIs(9, st, x, 0xabc34e16, 0x4497169d, 0xc5dc8c15, 0x91ca4cb7, 0, 0x00000080, 11, 0xeaa127fa, 0x1081d63f, 0x76fd93d4);
    HIs(10, st, x, 0x91ca4cb7, 0x76fd93d4, 0x4497169d, 0xc5dc8c15, 3, 0x00000000, 16, 0xd4ef3085, 0xf7b6095c, 0xfd95f243);
    HIs(11, st, x, 0xc5dc8c15, 0xfd95f243, 0x76fd93d4, 0x4497169d, 6, 0x00000000, 23, 0x04881d05, 0xcfff770a, 0x0fe32453);
    Plan3D();
    HIs(12, st, x, 0x4497169d, 0x0fe32453, 0xfd95f243, 0x76fd93d4, 9, 0x00000000, 4, 0xd9d4d039, 0x848b45c4, 0x3f55edfd);
    HIs(13, st, x, 0x76fd93d4, 0x3f55edfd, 0x0fe32453, 0xfd95f243, 12, 0x00000000, 11, 0xe6db99e5, 0xcd233bed, 0x22a31f54);
    HIs(14, st, x, 0xfd95f243, 0x22a31f54, 0x3f55edfd, 0x0fe32453, 15, 0x00000000, 16, 0x1fa27cf8, 0x1215d6fa, 0x68d84ea2);
    HIs(15, st, x, 0x0fe32453, 0x68d84ea2, 0x22a31f54, 0x3f55edfd, 2, 0x00000000, 23, 0xc4ac5665, 0x752ebc0b, 0xca7d2dbd);
  }

  lemma EmptyRound4()
    ensures Reached(3, 16, Regs(0x3f55edfd, 0xca7d2dbd, 0x68d84ea2, 0x22a31f54), Part(Ascii(""), 0), Regs(0x7246fad3, 0x14e45506, 0xff4ea3eb, 0x6e10a476))
  {
    hide Reached, Holds, Takes, Steps, WordIndex, Shift, Constant, Part;
    var x, st := Part(Ascii(""), 0), Regs(0x3f55edfd, 0xca7d2dbd, 0x68d84ea2, 0x22a31f54);
    EmptyHolds();
    Begins(3, st, x);
    Plan4A();
    IIs(0, st, x, 0x3f55edfd, 0xca7d2dbd, 0x68d84ea2, 0x22a31f54, 0, 0x00000080, 6, 0xf4292244, 0xb7a5a31d, 0x93aa2577);
    IIs(1, st, x, 0x22a31f54, 0x93aa2577, 0xca7d2dbd, 0x68d84ea2, 7, 0x00000000, 10, 0x432aff97, 0x5dd298c2, 0x1688dc85);
    IIs(2, st, x, 0x68d84ea2, 0x1688dc85, 0x93aa2577, 0xca7d2dbd, 14, 0x00000000, 15, 0xab9423a7, 0xa420fbb0, 0xcd85b8cb);
    IIs(3, st, x, 0xca7d2dbd, 0xcd85b8cb, 0x1688dc85, 0x93aa2577, 5, 0x00000000, 21, 0xfc93a039, 0xfb5d264e, 0x561e0689);
    Plan4B();
    IIs(4, st, x, 0x93aa2577, 0x561e0689, 0xcd85b8cb, 0x1688dc85, 12, 0x00000000, 6, 0x655b59c3, 0x32fa9f30, 0x5625a114);
    IIs(5, st, x, 0x1688dc85, 0x5625a114, 0x561e0689, 0xcd85b8cb, 3, 0x00000000, 10, 0x8f0ccc92, 0x2061e1bd, 0x3450f42b);
    IIs(6, st, x, 0xcd85b8cb, 0x3450f42b, 0x5625a114, 0x561e0689, 10, 0x00000000, 15, 0xffeff47d, 0xebd45c6b, 0x392ad0d0);
    IIs(7, st, x, 0x561e0689, 0x392ad0d0, 0x3450f42b, 0x5625a114, 1, 0x00000000, 21, 0x85845dd1, 0x8daa2ad0, 0x1e77fa61);
    Plan4C();
    IIs(8, st, x, 0x5625a114, 0x1e77fa61, 0x392ad0d0, 0x3450f42b, 8, 0x00000000, 6, 0x6fa87e4f, 0xe6d52b25, 0x474a9c8c);
    IIs(9, st, x, 0x3450f42b, 0x474a9c8c, 0x1e77fa61, 0x392ad0d0, 15, 0x00000000, 10, 0xfe2ce6e0, 0xd9a845ce, 0xdfce00bc);
    IIs(10, st, x, 0x392ad0d0, 0xdfce00bc, 0x474a9c8c, 0x1e77fa61, 6, 0x00000000, 15, 0xa3014314, 0xb8849932, 0x36594b14);
    IIs(11, st, x, 0x1e77fa61, 0x36594b14, 0xdfce00bc, 0x474a9c8c, 13, 0x00000000, 21, 0x4e0811a1, 0x61336bcb, 0x30130182);
    Plan4D();
    IIs(12, st, x, 0x474a9c8c, 0x30130182, 0x36594b14, 0xdfce00bc, 4, 0x00000000, 6, 0xf7537e82, 0x066ab4d7, 0x7246fad3);
    IIs(13, st, x, 0xdfce00bc, 0x7246fad3, 0x30130182, 0x36594b14, 11, 0x00000000, 10, 0xbd3af235, 0xcbf5ff79, 0x6e10a476);
    IIs(14, st, x, 0x36594b14, 0x6e10a476, 0x7246fad3, 0x30130182, 2, 0x00000000, 15, 0x2ad7d2bb, 0x9dba04ac, 0xff4ea3eb);
    IIs(15, st, x, 0x30130182, 0xff4ea3eb, 0x6e10a476, 0x7246fad3, 9, 0x00000000, 21, 0xeb86d391, 0x91ef0399, 0x14e45506);
  }

  lemma EmptyBlock()
    ensures |Padded(Ascii(""))| == 64
    ensures Compress(Regs(0x67452301, 0xefcdab89, 0x98badcfe, 0x10325476), Padded(Ascii(""))[0..64]) ==
      Regs(0xd98c1dd4, 0x04b2008f, 0x980980e9, 0x7e42f8ec)
  {
    EmptyRound1();
    EmptyRound2();
    EmptyRound3();
    EmptyRound4();
    hide Steps, Reached, Compress, Added, Padded, Ascii, Digits, Words, Part, Pads;
    EmptyPads();
    PartIs(Ascii(""), 56, 0);
    CompressIs(Regs(0x67452301, 0xefcdab89, 0x98badcfe, 0x10325476), Padded(Ascii(""))[0..64], Part(Ascii(""), 0), Regs(0xf56c7cf1, 0xd6819c6a, 0x5aa53f75, 0x374943a7), Regs(0x13707036, 0xa2205f1f, 0x1c31c384, 0xae7813db), Regs(0x3f55edfd, 0xca7d2dbd, 0x68d84ea2, 0x22a31f54), Regs(0x7246fad3, 0x14e45506, 0xff4ea3eb, 0x6e10a476));
    Sums(0x67452301, 0xefcdab89, 0x98badcfe, 0x10325476,
      0x7246fad3, 0x14e45506, 0xff4ea3eb, 0x6e10a476,
      0xd98c1dd4, 0x04b2008f, 0x980980e9, 0x7e42f8ec);
  }

  lemma EmptyPads()
    ensures |Ascii("")| == 0 && Pads(Ascii(""), 56)
  {}

  lemma Md5Empty()
    ensures Md5(Ascii("")) ==
      [0xd4, 0x1d, 0x8c, 0xd9, 0x8f, 0x00, 0xb2, 0x04, 0xe9, 0x80, 0x09, 0x98, 0xec, 0xf8, 0x42, 0x7e]
  {
    EmptyBlock();
    hide Compress, Padded, Ascii, Blocks, Output;
    OneBlock(Padded(Ascii("")), INIT);
    BytesAre(0xd98c1dd4, 0xd4, 0x1d, 0x8c, 0xd9);
    BytesAre(0x04b2008f, 0x8f, 0x00, 0xb2, 0x04);
    BytesAre(0x980980e9, 0xe9, 0x80, 0x09, 0x98);
    BytesAre(0x7e42f8ec, 0xec, 0xf8, 0x42, 0x7e);
    OutputIs(Regs(0xd98c1dd4, 0x04b2008f, 0x980980e9, 0x7e42f8ec));
  }

  // ----- The words of "abc".

  lemma AbcMark()
    ensures Holds(Part(Ascii("abc"), 0), 0, 0x80636261)
  {
    AbcPads();
    hide Pads, Part, Holds;
    WordIs(Ascii("abc"), 53, 0, 0, 0x61, 0x62, 0x63, 0x80, 0x80636261);
  }

  lemma AbcLength()
    ensures Holds(Part(Ascii("abc"), 0), 14, 0x00000018)
  {
    AbcPads();
    hide Pads, Part, Holds;
    WordIs(Ascii("abc"), 53, 0, 14, 0x18, 0x00, 0x00, 0x00, 0x00000018);
  }

  lemma AbcHolds()
    ensures
      Holds(Part(Ascii("abc"), 0), 0, 0x80636261) && Holds(Part(Ascii("abc"), 0), 1, 0x00000000) && Holds(Part(Ascii("abc"), 0), 2, 0x00000000) && Holds(Part(Ascii("abc"), 0), 3, 0x00000000) &&
      Holds(Part(Ascii("abc"), 0), 4, 0x00000000) && Holds(Part(Ascii("abc"), 0), 5, 0x00000000) && Holds(Part(Ascii("abc"), 0), 6, 0x00000000) && Holds(Part(Ascii("abc"), 0), 7, 0x00000000) &&
      Holds(Part(Ascii("abc"), 0), 8, 0x00000000) && Holds(Part(Ascii("abc"), 0), 9, 0x00000000) && Holds(Part(Ascii("abc"), 0), 10, 0x00000000) && Holds(Part(Ascii("abc"), 0), 11, 0x00000000) &&
      Holds(Part(Ascii("abc"), 0), 12, 0x00000000) && Holds(Part(Ascii("abc"), 0), 13, 0x00000000) && Holds(Part(Ascii("abc"), 0), 14, 0x00000018) && Holds(Part(Ascii("abc"), 0), 15, 0x00000000)
  {
    var m := Ascii("abc");
    AbcPads();
    hide Pads, Part, Holds, Digits;
    AbcMark();
    ZeroWords(m, 53, 0, 1, 14);
    AbcLength();
    ZeroWord(m, 53, 0, 15);
  }

  lemma AbcRound1()
    ensures Reached(0, 16, Regs(0x67452301, 0xefcdab89, 0x98badcfe, 0x10325476), Part(Ascii("abc"), 0), Regs(0xdda9b9a6, 0x72aff2e0, 0xe396856b, 0xa1051895))
  {
    hide Reached, Holds, Takes, Steps, WordIndex, Shift, Constant, Part;
    var x, st := Part(Ascii("abc"), 0), Regs(0x67452301, 0xefcdab89, 0x98badcfe, 0x10325476);
    AbcHolds();
    Begins(0, st, x);
    Plan1A();
    FIs(0, st, x, 0x67452301, 0xefcdab89, 0x98badcfe, 0x10325476, 0, 0x80636261, 7, 0xd76aa478, 0x98badcfe, 0xd6d117b4);
    FIs(1, st, x, 0x10325476, 0xd6d117b4, 0xefcdab89, 0x98badcfe, 1, 0x00000000, 12, 0xe8c7b756, 0xceebcbca, 0x344a8432);
    FIs(2, st, x, 0x98badcfe, 0x344a8432, 0xd6d117b4, 0xefcdab89, 2, 0x00000000, 17, 0x242070db, 0xdfc52fb9, 0x2f6fbd72);
    FIs(3, st, x, 0xefcdab89, 0x2f6fbd72, 0x344a8432, 0xd6d117b4, 3, 0x00000000, 22, 0xc1bdceee, 0xf4da86b6, 0x7ad956f2);
    Plan1B();
    FIs(4, st, x, 0xd6d117b4, 0x7ad956f2, 0x2f6fbd72, 0x344a8432, 4, 0x00000000, 7, 0xf57c0faf, 0x2e4b9472, 0xc73741ef);
    FIs(5, st, x, 0x344a8432, 0xc73741ef, 0x7ad956f2, 0x2f6fbd72, 5, 0x00000000, 12, 0x4787c62a, 0x6a59fcf2, 0x8bac3051);
    FIs(6, st, x, 0x2f6fbd72, 0x8bac3051, 0xc73741ef, 0x7ad956f2, 6, 0x00000000, 17, 0xa8304613, 0xf37546e3, 0x207dc67b);
    FIs(7, st, x, 0x7ad956f2, 0x207dc67b, 0x8bac3051, 0xc73741ef, 7, 0x00000000, 22, 0xfd469501, 0xc72e01d5, 0x928d99f6);
    Plan1C();
    FIs(8, st, x, 0xc73741ef, 0x928d99f6, 0x207dc67b, 0x8bac3051, 8, 0x00000000, 7, 0x698098d8, 0x092da073, 0x854b3712);
    FIs(9, st, x, 0x8bac3051, 0x854b3712, 0x928d99f6, 0x207dc67b, 9, 0x00000000, 12, 0x8b44f7af, 0xa03dd17b, 0x74e2f284);
    FIs(10, st, x, 0x207dc67b, 0x74e2f284, 0x854b3712, 0x928d99f6, 10, 0x00000000, 17, 0xffff5bb1, 0x864f3b72, 0x3020401c);
    FIs(11, st, x, 0x928d99f6, 0x3020401c, 0x74e2f284, 0x854b3712, 11, 0x00000000, 22, 0x895cd7be, 0xb56b7706, 0x5ed49596);
    Plan1D();
    FIs(12, st, x, 0x854b3712, 0x5ed49596, 0x3020401c, 0x74e2f284, 12, 0x00000000, 7, 0x6b901122, 0x30226214, 0xdda9b9a6);
    FIs(13, st, x, 0x74e2f284, 0xdda9b9a6, 0x5ed49596, 0x3020401c, 13, 0x00000000, 12, 0xfd987193, 0x7c80d19e, 0xa1051895);
    FIs(14, st, x, 0x3020401c, 0xa1051895, 0xdda9b9a6, 0x5ed49596, 14, 0x00000018, 17, 0xa679438e, 0xdfd19d86, 0xe396856b);
    FIs(15, st, x, 0x5ed49596, 0xe396856b, 0xa1051895, 0xdda9b9a6, 15, 0x00000000, 22, 0x49b40821, 0xbd2d3885, 0x72aff2e0);
  }

  lemma AbcRound2()
    ensures Reached(1, 16, Regs(0xdda9b9a6, 0x72aff2e0, 0xe396856b, 0xa1051895), Part(Ascii("abc"), 0), Regs(0x790a77fb, 0x726342d3, 0xa62884aa, 0x9f47e4f8))
  {
    hide Reached, Holds, Takes, Steps, WordIndex, Shift, Constant, Part;
    var x, st := Part(Ascii("abc"), 0), Regs(0xdda9b9a6, 0x72aff2e0, 0xe396856b, 0xa1051895);
    AbcHolds();
    Begins(1, st, x);
    Plan2A();
    GIs(0, st, x, 0xdda9b9a6, 0x72aff2e0, 0xe396856b, 0xa1051895, 1, 0x00000000, 5, 0xf61e2562, 0x629795ea, 0x3e9e9126);
    GIs(1, st, x, 0xa1051895, 0x3e9e9126, 0x72aff2e0, 0xe396856b, 6, 0x00000000, 9, 0xc040b340, 0x32bff3a2, 0x4a1d804e);
    GIs(2, st, x, 0xe396856b, 0x4a1d804e, 0x3e9e9126, 0x72aff2e0, 11, 0x00000000, 14, 0x265e5a51, 0x4e1d8146, 0xe25e1652);
    GIs(3, st, x, 0x72aff2e0, 0xe25e1652, 0x4a1d804e, 0x3e9e9126, 0, 0x80636261, 20, 0xe9b6c7aa, 0x621f104a, 0xb5b204e4);
    Plan2B();
    GIs(4, st, x, 0x3e9e9126, 0xb5b204e4, 0xe25e1652, 0x4a1d804e, 5, 0x00000000, 5, 0xd62f105d, 0xa0521654, 0x59a8ffda);
    GIs(5, st, x, 0x4a1d804e, 0x59a8ffda, 0xb5b204e4, 0xe25e1652, 10, 0x00000000, 9, 0x02441453, 0x55a816f6, 0x6d002f1e);
    GIs(6, st, x, 0xe25e1652, 0x6d002f1e, 0x59a8ffda, 0xb5b204e4, 15, 0x00000000, 14, 0xd8a1e681, 0x6d08ff1e, 0xabfc7920);
    GIs(7, st, x, 0xb5b204e4, 0xabfc7920, 0x6d002f1e, 0x59a8ffda, 4, 0x00000000, 20, 0xe7d3fbc8, 0x2da87904, 0x47092c07);
    Plan2C();
    GIs(8, st, x, 0x59a8ffda, 0x47092c07, 0xabfc7920, 0x6d002f1e, 9, 0x00000000, 5, 0x21e1cde6, 0xc7fc7c26, 0xb7f268cf);
    GIs(9, st, x, 0x6d002f1e, 0xb7f268cf, 0x47092c07, 0xabfc7920, 14, 0x00000018, 9, 0xc33707d6, 0xe7f16c07, 0x09388eff);
    GIs(10, st, x, 0xabfc7920, 0x09388eff, 0xb7f268cf, 0x47092c07, 3, 0x00000000, 14, 0xf4d50d87, 0xb1fa4ccf, 0xfe1623b1);
    GIs(11, st, x, 0x47092c07, 0xfe1623b1, 0x09388eff, 0xb7f268cf, 8, 0x00000000, 20, 0x455a14ed, 0xbe1aa6b1, 0x786acb8f);
    Plan2D();
    GIs(12, st, x, 0xb7f268cf, 0x786acb8f, 0xfe1623b1, 0x09388eff, 13, 0x00000000, 5, 0xa9e3e905, 0xfe2eab8f, 0x790a77fb);
    GIs(13, st, x, 0x09388eff, 0x790a77fb, 0x786acb8f, 0xfe1623b1, 2, 0x00000000, 9, 0xfcefa3f8, 0x786aebbf, 0x9f47e4f8);
    GIs(14, st, x, 0xfe1623b1, 0x9f47e4f8, 0x790a77fb, 0x786acb8f, 7, 0x00000000, 14, 0x676f02d9, 0x1942f4f8, 0xa62884aa);
    GIs(15, st, x, 0x786acb8f, 0xa62884aa, 0x9f47e4f8, 0x790a77fb, 12, 0x00000000, 20, 0x8d2a4c8a, 0xa64d84aa, 0x726342d3);
  }

  lemma AbcRound3()
    ensures Reached(2, 16, Regs(0x790a77fb, 0x726342d3, 0xa62884aa, 0x9f47e4f8), Part(Ascii("abc"), 0), Regs(0x7f2e507b, 0x7beb9700, 0x8fae6399, 0x99d9679d))
  {
    hide Reached, Holds, Takes, Steps, WordIndex, Shift, Constant, Part;
    var x, st := Part(Ascii("abc"), 0), Regs(0x790a77fb, 0x726342d3, 0xa62884aa, 0x9f47e4f8);
    AbcHolds();
    Begins(2, st, x);
    Plan3A();
    HIs(0, st, x, 0x790a77fb, 0x726342d3, 0xa62884aa, 0x9f47e4f8, 5, 0x00000000, 4, 0xfffa3942, 0x4b0c2281, 0xb3707ebf);
    HIs(1, st, x, 0x9f47e4f8, 0xb3707ebf, 0x726342d3, 0xa62884aa, 8, 0x00000000, 11, 0x8771f681, 0x673bb8c6, 0x60127b2e);
    HIs(2, st, x, 0xa62884aa, 0x60127b2e, 0xb3707ebf, 0x726342d3, 11, 0x00000000, 16, 0x6d9d6122, 0xa1014742, 0x8d212ff5);
    HIs(3, st, x, 0x726342d3, 0x8d212ff5, 0x60127b2e, 0xb3707ebf, 14, 0x00000018, 23, 0xfde5380c, 0x5e432a64, 0x3b0875c7);
    Plan3B();
    HIs(4, st, x, 0xb3707ebf, 0x3b0875c7, 0x8d212ff5, 0x60127b2e, 1, 0x00000000, 4, 0xa4beea44, 0xd63b211c, 0x21b117b9);
    HIs(5, st, x, 0x60127b2e, 0x21b117b9, 0x3b0875c7, 0x8d212ff5, 4, 0x00000000, 11, 0x4bdecfa9, 0x97984d8b, 0x6e7429d5);
    HIs(6, st, x, 0x8d212ff5, 0x6e7429d5, 0x21b117b9, 0x3b0875c7, 7, 0x00000000, 16, 0xf6bb4b60, 0x74cd4bab, 0x3575227e);
    HIs(7, st, x, 0x3b0875c7, 0x3575227e, 0x6e7429d5, 0x21b117b9, 10, 0x00000000, 23, 0xbebfbc70, 0x7ab01c12, 0x5a2f5ea5);
    Plan3C();
    HIs(8, st, x, 0x21b117b9, 0x5a2f5ea5, 0x3575227e, 0x6e7429d5, 13, 0x00000000, 4, 0x289b7ec6, 0x012e550e, 0x11de1779);
    HIs(9, st, x, 0x6e7429d5, 0x11de1779, 0x5a2f5ea5, 0x3575227e, 0, 0x80636261, 11, 0xeaa127fa, 0x7e846ba2, 0xfadcaa38);
    HIs(10, st, x, 0x3575227e, 0xfadcaa38, 0x11de1779, 0x5a2f5ea5, 3, 0x00000000, 16, 0xd4ef3085, 0xb12de3e4, 0x31c465ca);
    HIs(11, st, x, 0x5a2f5ea5, 0x31c465ca, 0xfadcaa38, 0x11de1779, 6, 0x00000000, 23, 0x04881d05, 0xdac6d88b, 0x4c6124f4);
    Plan3D();
    HIs(12, st, x, 0x11de1779, 0x4c6124f4, 0x31c465ca, 0xfadcaa38, 9, 0x00000000, 4, 0xd9d4d039, 0x8779eb06, 0x7f2e507b);
    HIs(13, st, x, 0xfadcaa38, 0x7f2e507b, 0x4c6124f4, 0x31c465ca, 12, 0x00000000, 11, 0xe6db99e5, 0x028b1145, 0x99d9679d);
    HIs(14, st, x, 0x31c465ca, 0x99d9679d, 0x7f2e507b, 0x4c6124f4, 15, 0x00000000, 16, 0x1fa27cf8, 0xaa961312, 0x8fae6399);
    HIs(15, st, x, 0x4c6124f4, 0x8fae6399, 0x99d9679d, 0x7f2e507b, 2, 0x00000000, 23, 0xc4ac5665, 0x6959547f, 0x7beb9700);
  }

  lemma AbcRound4()
    ensures Reached(3, 16, Regs(0x7f2e507b, 0x7beb9700, 0x8fae6399, 0x99d9679d), Part(Ascii("abc"), 0), Regs(0x310ade8f, 0xc08226b3, 0xe484b9d8, 0x624d8cb2))
  {
    hide Reached, Holds, Takes, Steps, WordIndex, Shift, Constant, Part;
    var x, st := Part(Ascii("abc"), 0), Regs(0x7f2e507b, 0x7beb9700, 0x8fae6399, 0x99d9679d);
    AbcHolds();
    Begins(3, st, x);
    Plan4A();
    IIs(0, st, x, 0x7f2e507b, 0x7beb9700, 0x8fae6399, 0x99d9679d, 0, 0x80636261, 6, 0xf4292244, 0xf041fcfb, 0x7b201df8);
    IIs(1, st, x, 0x99d9679d, 0x7b201df8, 0x7beb9700, 0x8fae6399, 7, 0x00000000, 10, 0x432aff97, 0x009a0afe, 0xf4e8e96e);
    IIs(2, st, x, 0x8fae6399, 0xf4e8e96e, 0x7b201df8, 0x7beb9700, 14, 0x00000018, 15, 0xab9423a7, 0x8fdcf407, 0xb298cefd);
    IIs(3, st, x, 0x7beb9700, 0xb298cefd, 0xf4e8e96e, 0x7b201df8, 5, 0x00000000, 21, 0xfc93a039, 0x42370791, 0x8bf025c4);
    Plan4B();
    IIs(4, st, x, 0x7b201df8, 0x8bf025c4, 0xb298cefd, 0xf4e8e96e, 12, 0x00000000, 6, 0x655b59c3, 0x396ff928, 0x06cc5e8a);
    IIs(5, st, x, 0xf4e8e96e, 0x06cc5e8a, 0x8bf025c4, 0xb298cefd, 3, 0x00000000, 10, 0x8f0ccc92, 0xc41f5a4e, 0x5b0d97aa);
    IIs(6, st, x, 0xb298cefd, 0x5b0d97aa, 0x06cc5e8a, 0x8bf025c4, 10, 0x00000000, 15, 0xffeff47d, 0x79c38131, 0x7d632dd0);
    IIs(7, st, x, 0x8bf025c4, 0x7d632dd0, 0x5b0d97aa, 0x06cc5e8a, 1, 0x00000000, 21, 0x85845dd1, 0xa67e3a5f, 0x3bfa2c27);
    Plan4C();
    IIs(8, st, x, 0x06cc5e8a, 0x3bfa2c27, 0x7d632dd0, 0x5b0d97aa, 8, 0x00000000, 6, 0x6fa87e4f, 0xc29941a7, 0x7f81cc35);
    IIs(9, st, x, 0x5b0d97aa, 0x7f81cc35, 0x3bfa2c27, 0x7d632dd0, 15, 0x00000000, 10, 0xfe2ce6e0, 0xc467f218, 0x094454ab);
    IIs(10, st, x, 0x7d632dd0, 0x094454ab, 0x7f81cc35, 0x3bfa2c27, 6, 0x00000000, 15, 0xa3014314, 0xb2c41bce, 0x4f9dbe3f);
    IIs(11, st, x, 0x3bfa2c27, 0x4f9dbe3f, 0x094454ab, 0x7f81cc35, 13, 0x00000000, 21, 0x4e0811a1, 0xc6bbeb54, 0x7327d604);
    Plan4D();
    IIs(12, st, x, 0x7f81cc35, 0x7327d604, 0x4f9dbe3f, 0x094454ab, 4, 0x00000000, 6, 0xf7537e82, 0xb822416b, 0x310ade8f);
    IIs(13, st, x, 0x094454ab, 0x310ade8f, 0x7327d604, 0x4f9dbe3f, 11, 0x00000000, 10, 0xbd3af235, 0xc24d09cb, 0x624d8cb2);
    IIs(14, st, x, 0x4f9dbe3f, 0x624d8cb2, 0x310ade8f, 0x7327d604, 2, 0x00000000, 15, 0x2ad7d2bb, 0xdfd77374, 0xe484b9d8);
    IIs(15, st, x, 0x7327d604, 0xe484b9d8, 0x624d8cb2, 0x310ade8f, 9, 0x00000000, 21, 0xeb86d391, 0x8cb8354a, 0xc08226b3);
  }

  lemma AbcBlock()
    ensures |Padded(Ascii("abc"))| == 64
    ensures Compress(Regs(0x67452301, 0xefcdab89, 0x98badcfe, 0x10325476), Padded(Ascii("abc"))[0..64]) ==
      Regs(0x98500190, 0xb04fd23c, 0x7d3f96d6, 0x727fe128)
  {
    AbcRound1();
    AbcRound2();
    AbcRound3();
    AbcRound4();
    hide Steps, Reached, Compress, Added, Padded, Ascii, Digits, Words, Part, Pads;
    AbcPads();
    PartIs(Ascii("abc"), 53, 0);
    CompressIs(Regs(0x67452301, 0xefcdab89, 0x98badcfe, 0x10325476), Padded(Ascii("abc"))[0..64], Part(Ascii("abc"), 0), Regs(0xdda9b9a6, 0x72aff2e0, 0xe396856b, 0xa1051895), Regs(0x790a77fb, 0x726342d3, 0xa62884aa, 0x9f47e4f8), Regs(0x7f2e507b, 0x7beb9700, 0x8fae6399, 0x99d9679d), Regs(0x310ade8f, 0xc08226b3, 0xe484b9d8, 0x624d8cb2));
    Sums(0x67452301, 0xefcdab89, 0x98badcfe, 0x10325476,
      0x310ade8f, 0xc08226b3, 0xe484b9d8, 0x624d8cb2,
      0x98500190, 0xb04fd23c, 0x7d3f96d6, 0x727fe128);
  }

  lemma AbcPads()
    ensures |Ascii("abc")| == 3 && Pads(Ascii("abc"), 53)
  {}

  lemma Md5Abc()
    ensures Md5(Ascii("abc")) ==
      [0x90, 0x01, 0x50, 0x98, 0x3c, 0xd2, 0x4f, 0xb0, 0xd6, 0x96, 0x3f, 0x7d, 0x28, 0xe1, 0x7f, 0x72]
  {
    AbcBlock();
    hide Compress, Padded, Ascii, Blocks, Output;
    OneBlock(Padded(Ascii("abc")), INIT);
    BytesAre(0x98500190, 0x90, 0x01, 0x50, 0x98);
    BytesAre(0xb04fd23c, 0x3c, 0xd2, 0x4f, 0xb0);
    BytesAre(0x7d3f96d6, 0xd6, 0x96, 0x3f, 0x7d);
    BytesAre(0x727fe128, 0x28, 0xe1, 0x7f, 0x72);
    OutputIs(Regs(0x98500190, 0xb04fd23c, 0x7d3f96d6, 0x727fe128));
  }

  // ----- The words of the ten digits eight times, first block.

  lemma DigitsAHolds()
    ensures
      Holds(Part(Digits(80), 0), 0, 0x34333231) && Holds(Part(Digits(80), 0), 1, 0x38373635) && Holds(Part(Digits(80), 0), 2, 0x32313039) && Holds(Part(Digits(80), 0), 3, 0x36353433) &&
      Holds(Part(Digits(80), 0), 4, 0x30393837) && Holds(Part(Digits(80), 0), 5, 0x34333231) && Holds(Part(Digits(80), 0), 6, 0x38373635) && Holds(Part(Digits(80), 0), 7, 0x32313039) &&
      Holds(Part(Digits(80), 0), 8, 0x36353433) && Holds(Part(Digits(80), 0), 9, 0x30393837) && Holds(Part(Digits(80), 0), 10, 0x34333231) && Holds(Part(Digits(80), 0), 11, 0x38373635) &&
      Holds(Part(Digits(80), 0), 12, 0x32313039) && Holds(Part(Digits(80), 0), 13, 0x36353433) && Holds(Part(Digits(80), 0), 14, 0x30393837) && Holds(Part(Digits(80), 0), 15, 0x34333231)
  {
    var m := Digits(80);
    DigitsPads();
    hide Pads, Part, Holds, Digits;
    DigitsHold(0, 0, 0);
    DigitsHold(0, 1, 1);
    DigitsHold(0, 2, 2);
    DigitsHold(0, 3, 3);
    DigitsHold(0, 4, 4);
    DigitsHold(0, 5, 0);
    DigitsHold(0, 6, 1);
    DigitsHold(0, 7, 2);
    DigitsHold(0, 8, 3);
    DigitsHold(0, 9, 4);
    DigitsHold(0, 10, 0);
    DigitsHold(0, 11, 1);
    DigitsHold(0, 12, 2);
    DigitsHold(0, 13, 3);
    DigitsHold(0, 14, 4);
    DigitsHold(0, 15, 0);
  }

  lemma DigitsARound1()
    ensures Reached(0, 16, Regs(0x67452301, 0xefcdab89, 0x98badcfe, 0x10325476), Part(Digits(80), 0), Regs(0x5157e49e, 0xaf506a03, 0x27e983a0, 0xffac907e))
  {
    hide Reached, Holds, Takes, Steps, WordIndex, Shift, Constant, Part;
    var x, st := Part(Digits(80), 0), Regs(0x67452301, 0xefcdab89, 0x98badcfe, 0x10325476);
    DigitsAHolds();
    Begins(0, st, x);
    Plan1A();
    FIs(0, st, x, 0x67452301, 0xefcdab89, 0x98badcfe, 0x10325476, 0, 0x34333231, 7, 0xd76aa478, 0x98badcfe, 0xbeb8ff8e);
    FIs(1, st, x, 0x10325476, 0xbeb8ff8e, 0xefcdab89, 0x98badcfe, 1, 0x38373635, 12, 0xe8c7b756, 0xae8aabf8, 0x7d989d89);
    FIs(2, st, x, 0x98badcfe, 0x7d989d89, 0xbeb8ff8e, 0xefcdab89, 2, 0x32313039, 17, 0x242070db, 0xbeddbf88, 0xf8cdf95d);
    FIs(3, st, x, 0xefcdab89, 0xf8cdf95d, 0x7d989d89, 0xbeb8ff8e, 3, 0x36353433, 22, 0xc1bdceee, 0x7eb89f8b, 0x862797b0);
    Plan1B();
    FIs(4, st, x, 0xbeb8ff8e, 0x862797b0, 0xf8cdf95d, 0x7d989d89, 4, 0x30393837, 7, 0xf57c0faf, 0xf99d9919, 0x8c17de9f);
    FIs(5, st, x, 0x7d989d89, 0x8c17de9f, 0x862797b0, 0xf8cdf95d, 5, 0x34333231, 12, 0x4787c62a, 0xf4cfb7d0, 0xc0f32d81);
    FIs(6, st, x, 0xf8cdf95d, 0xc0f32d81, 0x8c17de9f, 0x862797b0, 6, 0x38373635, 17, 0xa8304613, 0x86179eb1, 0xe99fec1b);
    FIs(7, st, x, 0x862797b0, 0xe99fec1b, 0xc0f32d81, 0x8c17de9f, 7, 0x32313039, 22, 0xfd469501, 0xc4933e85, 0xc57e78c1);
    Plan1C();
    FIs(8, st, x, 0x8c17de9f, 0xc57e78c1, 0xe99fec1b, 0xc0f32d81, 8, 0x36353433, 7, 0x698098d8, 0xc19f6d01, 0x7c0aceb7);
    FIs(9, st, x, 0xc0f32d81, 0x7c0aceb7, 0xc57e78c1, 0xe99fec1b, 9, 0x30393837, 12, 0x8b44f7af, 0xc59f6889, 0x8869d2d8);
    FIs(10, st, x, 0xe99fec1b, 0x8869d2d8, 0x7c0aceb7, 0xc57e78c1, 10, 0x34333231, 17, 0xffff5bb1, 0x4d1eea91, 0x5186a8ba);
    FIs(11, st, x, 0xc57e78c1, 0x5186a8ba, 0x8869d2d8, 0x7c0aceb7, 11, 0x38373635, 22, 0x895cd7be, 0x2c08c69d, 0xa5f36f8d);
    Plan1D();
    FIs(12, st, x, 0x7c0aceb7, 0xa5f36f8d, 0x5186a8ba, 0x8869d2d8, 12, 0x32313039, 7, 0x6b901122, 0x098ab8d8, 0x5157e49e);
    FIs(13, st, x, 0x8869d2d8, 0x5157e49e, 0xa5f36f8d, 0x5186a8ba, 13, 0x36353433, 12, 0xfd987193, 0x01d36cac, 0xffac907e);
    FIs(14, st, x, 0x5186a8ba, 0xffac907e, 0x5157e49e, 0xa5f36f8d, 14, 0x30393837, 17, 0xa679438e, 0x5157ef9f, 0x27e983a0);
    FIs(15, st, x, 0xa5f36f8d, 0x27e983a0, 0xffac907e, 0x5157e49e, 15, 0x34333231, 22, 0x49b40821, 0x77bee43e, 0xaf506a03);
  }

  lemma DigitsARound2()
    ensures Reached(1, 16, Regs(0x5157e49e, 0xaf506a03, 0x27e983a0, 0xffac907e), Part(Digits(80), 0), Regs(0xf8bcfbb0, 0x1bf25662, 0x99a0f1b8, 0xd760ed39))
  {
    hide Reached, Holds, Takes, Steps, WordIndex, Shift, Constant, Part;
    var x, st := Part(Digits(80), 0), Regs(0x5157e49e, 0xaf506a03, 0x27e983a0, 0xffac907e);
    DigitsAHolds();
    Begins(1, st, x);
    Plan2A();
    GIs(0, st, x, 0x5157e49e, 0xaf506a03, 0x27e983a0, 0xffac907e, 1, 0x38373635, 5, 0xf61e2562, 0xaf410382, 0x8d18e0e8);
    GIs(1, st, x, 0xffac907e, 0x8d18e0e8, 0xaf506a03, 0x27e983a0, 6, 0x38373635, 9, 0xc040b340, 0x8d18e8a3, 0x07de0df2);
    GIs(2, st, x, 0x27e983a0, 0x07de0df2, 0x8d18e0e8, 0xaf506a03, 11, 0x38373635, 14, 0x265e5a51, 0x075888ea, 0xef223167);
    GIs(3, st, x, 0xaf506a03, 0xef223167, 0x07de0df2, 0x8d18e0e8, 0, 0x34333231, 20, 0xe9b6c7aa, 0x8fc62d72, 0x04280170);
    Plan2B();
    GIs(4, st, x, 0x8d18e0e8, 0x04280170, 0xef223167, 0x07de0df2, 5, 0x34333231, 5, 0xd62f105d, 0xec283175, 0x78929ee0);
    GIs(5, st, x, 0x07de0df2, 0x78929ee0, 0x04280170, 0xef223167, 10, 0x34333231, 9, 0x02441453, 0x680a1070, 0x375c6c2c);
    GIs(6, st, x, 0xef223167, 0x375c6c2c, 0x78929ee0, 0x04280170, 15, 0x34333231, 14, 0xd8a1e681, 0x7c9a9ea0, 0xb18aca50);
    GIs(7, st, x, 0x04280170, 0xb18aca50, 0x375c6c2c, 0x78929ee0, 4, 0x30393837, 20, 0xe7d3fbc8, 0x37ceea4c, 0xad400a91);
    Plan2C();
    GIs(8, st, x, 0x78929ee0, 0xad400a91, 0xb18aca50, 0x375c6c2c, 9, 0x30393837, 5, 0x21e1cde6, 0xa5c28a50, 0xbb45f43f);
    GIs(9, st, x, 0x375c6c2c, 0xbb45f43f, 0xad400a91, 0xb18aca50, 14, 0x30393837, 9, 0xc33707d6, 0xbd40c091, 0xd61f8a0f);
    GIs(10, st, x, 0xb18aca50, 0xd61f8a0f, 0xbb45f43f, 0xad400a91, 3, 0x36353433, 14, 0xf4d50d87, 0x9605fe2f, 0x98ade6b5);
    GIs(11, st, x, 0xad400a91, 0x98ade6b5, 0xd61f8a0f, 0xbb45f43f, 8, 0x36353433, 20, 0x455a14ed, 0xdc1fee35, 0xb70e35a9);
    Plan2D();
    GIs(12, st, x, 0xbb45f43f, 0xb70e35a9, 0x98ade6b5, 0xd61f8a0f, 13, 0x36353433, 5, 0xa9e3e905, 0x9eae64b9, 0xf8bcfbb0);
    GIs(13, st, x, 0xd61f8a0f, 0xf8bcfbb0, 0xb70e35a9, 0x98ade6b5, 2, 0x32313039, 9, 0xfcefa3f8, 0xbfaef3b8, 0xd760ed39);
    GIs(14, st, x, 0x98ade6b5, 0xd760ed39, 0xf8bcfbb0, 0xb70e35a9, 7, 0x32313039, 14, 0x676f02d9, 0xdfb0ef39, 0x99a0f1b8);
    GIs(15, st, x, 0xb70e35a9, 0x99a0f1b8, 0xd760ed39, 0xf8bcfbb0, 12, 0x32313039, 20, 0x8d2a4c8a, 0x9fe0f5b9, 0x1bf25662);
  }

  lemma DigitsARound3()
    ensures Reached(2, 16, Regs(0xf8bcfbb0, 0x1bf25662, 0x99a0f1b8, 0xd760ed39), Part(Digits(80), 0), Regs(0x697032ec, 0xdb4197da, 0xefc2c171, 0xfa597bfc))
  {
    hide Reached, Holds, Takes, Steps, WordIndex, Shift, Constant, Part;
    var x, st := Part(Digits(80), 0), Regs(0xf8bcfbb0, 0x1bf25662, 0x99a0f1b8, 0xd760ed39);
    DigitsAHolds();
    Begins(2, st, x);
    Plan3A();
    HIs(0, st, x, 0xf8bcfbb0, 0x1bf25662, 0x99a0f1b8, 0xd760ed39, 5, 0x34333231, 4, 0xfffa3942, 0x55324ae3, 0x3dbd76ca);
    HIs(1, st, x, 0xd760ed39, 0x3dbd76ca, 0x1bf25662, 0x99a0f1b8, 8, 0x36353433, 11, 0x8771f681, 0xbfefd110, 0xfd056171);
    HIs(2, st, x, 0x99a0f1b8, 0xfd056171, 0x3dbd76ca, 0x1bf25662, 11, 0x38373635, 16, 0x6d9d6122, 0xdb4a41d9, 0xc7ed7c30);
    HIs(3, st, x, 0x1bf25662, 0xc7ed7c30, 0xfd056171, 0x3dbd76ca, 14, 0x30393837, 23, 0xfde5380c, 0x07556b8b, 0xe0162f49);
    Plan3B();
    HIs(4, st, x, 0x3dbd76ca, 0xe0162f49, 0xc7ed7c30, 0xfd056171, 1, 0x38373635, 4, 0xa4beea44, 0xdafe3208, 0x3b32c408);
    HIs(5, st, x, 0xfd056171, 0x3b32c408, 0xe0162f49, 0xc7ed7c30, 4, 0x30393837, 11, 0x4bdecfa9, 0x1cc99771, 0x7338d8b7);
    HIs(6, st, x, 0xc7ed7c30, 0x7338d8b7, 0x3b32c408, 0xe0162f49, 7, 0x32313039, 16, 0xf6bb4b60, 0xa81c33f6, 0x9ef871ad);
    HIs(7, st, x, 0xe0162f49, 0x9ef871ad, 0x7338d8b7, 0x3b32c408, 10, 0x34333231, 23, 0xbebfbc70, 0xd6f26d12, 0x1d4d6f72);
    Plan3C();
    HIs(8, st, x, 0x3b32c408, 0x1d4d6f72, 0x9ef871ad, 0x7338d8b7, 13, 0x36353433, 4, 0x289b7ec6, 0xf08dc668, 0xc661460a);
    HIs(9, st, x, 0x7338d8b7, 0xc661460a, 0x1d4d6f72, 0x9ef871ad, 0, 0x34333231, 11, 0xeaa127fa, 0x45d458d5, 0xd2bf04c9);
    HIs(10, st, x, 0x9ef871ad, 0xd2bf04c9, 0xc661460a, 0x1d4d6f72, 3, 0x36353433, 16, 0xd4ef3085, 0x09932db1, 0xd6d5b879);
    HIs(11, st, x, 0x1d4d6f72, 0xd6d5b879, 0xd2bf04c9, 0xc661460a, 6, 0x38373635, 23, 0x04881d05, 0xc20bfaba, 0x89e3c4d7);
    Plan3D();
    HIs(12, st, x, 0xc661460a, 0x89e3c4d7, 0xd6d5b879, 0xd2bf04c9, 9, 0x30393837, 4, 0xd9d4d039, 0x8d897867, 0x697032ec);
    HIs(13, st, x, 0xd2bf04c9, 0x697032ec, 0x89e3c4d7, 0xd6d5b879, 12, 0x32313039, 11, 0xe6db99e5, 0x36464e42, 0xfa597bfc);
    HIs(14, st, x, 0xd6d5b879, 0xfa597bfc, 0x697032ec, 0x89e3c4d7, 15, 0x34333231, 16, 0x1fa27cf8, 0x1aca8dc7, 0xefc2c171);
    HIs(15, st, x, 0x89e3c4d7, 0xefc2c171, 0xfa597bfc, 0x697032ec, 2, 0x32313039, 23, 0xc4ac5665, 0x7ceb8861, 0xdb4197da);
  }

  lemma DigitsARound4()
    ensures Reached(3, 16, Regs(0x697032ec, 0xdb4197da, 0xefc2c171, 0xfa597bfc), Part(Digits(80), 0), Regs(0x614868eb, 0xb4d33102, 0x5133129b, 0xa09f38a7))
  {
    hide Reached, Holds, Takes, Steps, WordIndex, Shift, Constant, Part;
    var x, st := Part(Digits(80), 0), Regs(0x697032ec, 0xdb4197da, 0xefc2c171, 0xfa597bfc);
    DigitsAHolds();
    Begins(3, st, x);
    Plan4A();
    IIs(0, st, x, 0x697032ec, 0xdb4197da, 0xefc2c171, 0xfa597bfc, 0, 0x34333231, 6, 0xf4292244, 0x302556aa, 0x57b91aca);
    IIs(1, st, x, 0xfa597bfc, 0x57b91aca, 0xdb4197da, 0xefc2c171, 7, 0x32313039, 10, 0x432aff97, 0x8cfca914, 0x210c9ebc);
    IIs(2, st, x, 0xefc2c171, 0x210c9ebc, 0x57b91aca, 0xdb4197da, 14, 0x30393837, 15, 0xab9423a7, 0x7207e477, 0x21efbd88);
    IIs(3, st, x, 0xdb4197da, 0x21efbd88, 0x210c9ebc, 0x57b91aca, 5, 0x34333231, 21, 0xfc93a039, 0x88e36301, 0xcaa25b01);
    Plan4B();
    IIs(4, st, x, 0x57b91aca, 0xcaa25b01, 0x21efbd88, 0x210c9ebc, 12, 0x32313039, 6, 0x655b59c3, 0xff1cc6cb, 0x633d3f7c);
    IIs(5, st, x, 0x210c9ebc, 0x633d3f7c, 0xcaa25b01, 0x21efbd88, 3, 0x36353433, 10, 0x8f0ccc92, 0x359f247e, 0x1a4d3beb);
    IIs(6, st, x, 0x21efbd88, 0x1a4d3beb, 0x633d3f7c, 0xcaa25b01, 10, 0x34333231, 15, 0xffeff47d, 0x5c608083, 0xccaa1524);
    IIs(7, st, x, 0xcaa25b01, 0xccaa1524, 0x1a4d3beb, 0x633d3f7c, 1, 0x38373635, 21, 0x85845dd1, 0xc6a7ee4c, 0x7713f5df);
    Plan4C();
    IIs(8, st, x, 0x633d3f7c, 0x7713f5df, 0xccaa1524, 0x1a4d3beb, 8, 0x36353433, 6, 0x6fa87e4f, 0x3b19e0fb, 0x8448b430);
    IIs(9, st, x, 0x1a4d3beb, 0x8448b430, 0x7713f5df, 0xccaa1524, 15, 0x34333231, 10, 0xfe2ce6e0, 0xc04e0b24, 0x71c93463);
    IIs(10, st, x, 0xccaa1524, 0x71c93463, 0x8448b430, 0x7713f5df, 6, 0x38373635, 15, 0xa3014314, 0x7da58a53, 0x7e294727);
    IIs(11, st, x, 0x7713f5df, 0x7e294727, 0x71c93463, 0x8448b430, 13, 0x36353433, 21, 0x4e0811a1, 0x0e767b8c, 0x660a801d);
    Plan4D();
    IIs(12, st, x, 0x8448b430, 0x660a801d, 0x7e294727, 0x71c93463, 4, 0x30393837, 6, 0xf7537e82, 0x90178cba, 0x614868eb);
    IIs(13, st, x, 0x71c93463, 0x614868eb, 0x660a801d, 0x7e294727, 11, 0x38373635, 10, 0xbd3af235, 0x87d478e6, 0xa09f38a7);
    IIs(14, st, x, 0x7e294727, 0xa09f38a7, 0x614868eb, 0x660a801d, 2, 0x32313039, 15, 0x2ad7d2bb, 0xd8b7170c, 0x5133129b);
    IIs(15, st, x, 0x660a801d, 0x5133129b, 0xa09f38a7, 0x614868eb, 9, 0x30393837, 21, 0xeb86d391, 0x7f28af38, 0xb4d33102);
  }

  lemma DigitsABlock()
    ensures |Padded(Digits(80))| == 128
    ensures Compress(Regs(0x67452301, 0xefcdab89, 0x98badcfe, 0x10325476), Padded(Digits(80))[0..64]) ==
      Regs(0xc88d8bec, 0xa4a0dc8b, 0xe9edef99, 0xb0d18d1d)
  {
    DigitsARound1();
    DigitsARound2();
    DigitsARound3();
    DigitsARound4();
    hide Steps, Reached, Compress, Added, Padded, Ascii, Digits, Words, Part, Pads;
    DigitsPads();
    PartIs(Digits(80), 40, 0);
    CompressIs(Regs(0x67452301, 0xefcdab89, 0x98badcfe, 0x10325476), Padded(Digits(80))[0..64], Part(Digits(80), 0), Regs(0x5157e49e, 0xaf506a03, 0x27e983a0, 0xffac907e), Regs(0xf8bcfbb0, 0x1bf25662, 0x99a0f1b8, 0xd760ed39), Regs(0x697032ec, 0xdb4197da, 0xefc2c171, 0xfa597bfc), Regs(0x614868eb, 0xb4d33102, 0x5133129b, 0xa09f38a7));
    Sums(0x67452301, 0xefcdab89, 0x98badcfe, 0x10325476,
      0x614868eb, 0xb4d33102, 0x5133129b, 0xa09f38a7,
      0xc88d8bec, 0xa4a0dc8b, 0xe9edef99, 0xb0d18d1d);
  }

  // ----- The words of the ten digits eight times, second block.

  lemma DigitsBMark()
    ensures Holds(Part(Digits(80), 1), 4, 0x00000080)
  {
    DigitsPads();
    hide Pads, Part, Holds;
    WordIs(Digits(80), 40, 1, 4, 0x80, 0x00, 0x00, 0x00, 0x00000080);
  }

  lemma DigitsBLength()
    ensures Holds(Part(Digits(80), 1), 14, 0x00000280)
  {
    DigitsPads();
    hide Pads, Part, Holds;
    WordIs(Digits(80), 40, 1, 14, 0x80, 0x02, 0x00, 0x00, 0x00000280);
  }

  lemma DigitsBHolds()
    ensures
      Holds(Part(Digits(80), 1), 0, 0x38373635) && Holds(Part(Digits(80), 1), 1, 0x32313039) && Holds(Part(Digits(80), 1), 2, 0x36353433) && Holds(Part(Digits(80), 1), 3, 0x30393837) &&
      Holds(Part(Digits(80), 1), 4, 0x00000080) && Holds(Part(Digits(80), 1), 5, 0x00000000) && Holds(Part(Digits(80), 1), 6, 0x00000000) && Holds(Part(Digits(80), 1), 7, 0x00000000) &&
      Holds(Part(Digits(80), 1), 8, 0x00000000) && Holds(Part(Digits(80), 1), 9, 0x00000000) && Holds(Part(Digits(80), 1), 10, 0x00000000) && Holds(Part(Digits(80), 1), 11, 0x00000000) &&
      Holds(Part(Digits(80), 1), 12, 0x00000000) && Holds(Part(Digits(80), 1), 13, 0x00000000) && Holds(Part(Digits(80), 1), 14, 0x00000280) && Holds(Part(Digits(80), 1), 15, 0x00000000)
  {
    var m := Digits(80);
    DigitsPads();
    hide Pads, Part, Holds, Digits;
    DigitsHold(1, 0, 1);
    DigitsHold(1, 1, 2);
    DigitsHold(1, 2, 3);
    DigitsHold(1, 3, 4);
    DigitsBMark();
    ZeroWords(m, 40, 1, 5, 14);
    DigitsBLength();
    ZeroWord(m, 40, 1, 15);
  }

  lemma DigitsBRound1()
    ensures Reached(0, 16, Regs(0xc88d8bec, 0xa4a0dc8b, 0xe9edef99, 0xb0d18d1d), Part(Digits(80), 1), Regs(0xdb4ff71c, 0x58b12eab, 0x04396a39, 0x9b6b4960))
  {
    hide Reached, Holds, Takes, Steps, WordIndex, Shift, Constant, Part;
    var x, st := Part(Digits(80), 1), Regs(0xc88d8bec, 0xa4a0dc8b, 0xe9edef99, 0xb0d18d1d);
    DigitsBHolds();
    Begins(0, st, x);
    Plan1A();
    FIs(0, st, x, 0xc88d8bec, 0xa4a0dc8b, 0xe9edef99, 0xb0d18d1d, 0, 0x38373635, 7, 0xd76aa478, 0xb0f1cd9d, 0x353af7cf);
    FIs(1, st, x, 0xb0d18d1d, 0x353af7cf, 0xa4a0dc8b, 0xe9edef99, 1, 0x32313039, 12, 0xe8c7b756, 0xece5dc9b, 0x3a4f735a);
    FIs(2, st, x, 0xe9edef99, 0x3a4f735a, 0x353af7cf, 0xa4a0dc8b, 2, 0x36353433, 17, 0x242070db, 0xb4aaffcb, 0x63356537);
    FIs(3, st, x, 0xa4a0dc8b, 0x63356537, 0x3a4f735a, 0x353af7cf, 3, 0x30393837, 22, 0xc1bdceee, 0x360ff3da, 0x45e88f2c);
    Plan1B();
    FIs(4, st, x, 0x353af7cf, 0x45e88f2c, 0x63356537, 0x3a4f735a, 4, 0x00000080, 7, 0xf57c0faf, 0x7b277576, 0x3527497e);
    FIs(5, st, x, 0x3a4f735a, 0x3527497e, 0x45e88f2c, 0x63356537, 5, 0x00000000, 12, 0x4787c62a, 0x47302d2d, 0xab92660e);
    FIs(6, st, x, 0x63356537, 0xab92660e, 0x3527497e, 0x45e88f2c, 6, 0x00000000, 17, 0xa8304613, 0x656ac92e, 0x948347ae);
    FIs(7, st, x, 0x45e88f2c, 0x948347ae, 0xab92660e, 0x3527497e, 7, 0x00000000, 22, 0xfd469501, 0xa1a64e5e, 0x377c7d0a);
    Plan1C();
    FIs(8, st, x, 0x3527497e, 0x377c7d0a, 0x948347ae, 0xab92660e, 8, 0x00000000, 7, 0x698098d8, 0x9c82470e, 0xcc912f27);
    FIs(9, st, x, 0xab92660e, 0xcc912f27, 0x377c7d0a, 0x948347ae, 9, 0x00000000, 12, 0x8b44f7af, 0x14126d8a, 0x6945a3d5);
    FIs(10, st, x, 0x948347ae, 0x6945a3d5, 0xcc912f27, 0x377c7d0a, 10, 0x00000000, 17, 0xffff5bb1, 0x5e397f0f, 0xae23894d);
    FIs(11, st, x, 0x377c7d0a, 0xae23894d, 0x6945a3d5, 0xcc912f27, 11, 0x00000000, 22, 0x895cd7be, 0x6891a767, 0xb9ede40c);
    Plan1D();
    FIs(12, st, x, 0xcc912f27, 0xb9ede40c, 0xae23894d, 0x6945a3d5, 12, 0x00000000, 7, 0x6b901122, 0xe82183dd, 0xdb4ff71c);
    FIs(13, st, x, 0x6945a3d5, 0xdb4ff71c, 0xb9ede40c, 0xae23894d, 13, 0x00000000, 12, 0xfd987193, 0xbd6dec4d, 0x9b6b4960);
    FIs(14, st, x, 0xae23894d, 0x9b6b4960, 0xdb4ff71c, 0xb9ede40c, 14, 0x00000280, 17, 0xa679438e, 0xbbcfe50c, 0x04396a39);
    FIs(15, st, x, 0xb9ede40c, 0x04396a39, 0x9b6b4960, 0xdb4ff71c, 15, 0x00000000, 22, 0x49b40821, 0xdb6fdd24, 0x58b12eab);
  }

  lemma DigitsBRound2()
    ensures Reached(1, 16, Regs(0xdb4ff71c, 0x58b12eab, 0x04396a39, 0x9b6b4960), Part(Digits(80), 1), Regs(0x8761f38e, 0x67092c33, 0x061bc867, 0x7a516116))
  {
    hide Reached, Holds, Takes, Steps, WordIndex, Shift, Constant, Part;
    var x, st := Part(Digits(80), 1), Regs(0xdb4ff71c, 0x58b12eab, 0x04396a39, 0x9b6b4960);
    DigitsBHolds();
    Begins(1, st, x);
    Plan2A();
    GIs(0, st, x, 0xdb4ff71c, 0x58b12eab, 0x04396a39, 0x9b6b4960, 1, 0x32313039, 5, 0xf61e2562, 0x1c312a39, 0x52c00cae);
    GIs(1, st, x, 0x9b6b4960, 0x52c00cae, 0x58b12eab, 0x04396a39, 6, 0x00000000, 9, 0xc040b340, 0x58800caa, 0xaad2a216);
    GIs(2, st, x, 0x04396a39, 0xaad2a216, 0x52c00cae, 0x58b12eab, 11, 0x00000000, 14, 0x265e5a51, 0x0ad02206, 0xa476af6f);
    GIs(3, st, x, 0x58b12eab, 0xa476af6f, 0xaad2a216, 0x52c00cae, 0, 0x38373635, 20, 0xe9b6c7aa, 0xa852ae3e, 0x50f8de8c);
    Plan2B();
    GIs(4, st, x, 0x52c00cae, 0x50f8de8c, 0xa476af6f, 0xaad2a216, 5, 0x00000000, 5, 0xd62f105d, 0x04f48f6d, 0x0d6e6d91);
    GIs(5, st, x, 0xaad2a216, 0x0d6e6d91, 0x50f8de8c, 0xa476af6f, 10, 0x00000000, 9, 0x02441453, 0x54ee7d81, 0x17d64195);
    GIs(6, st, x, 0xa476af6f, 0x17d64195, 0x0d6e6d91, 0x50f8de8c, 15, 0x00000000, 14, 0xd8a1e681, 0x1dd66195, 0xd5b7a850);
    GIs(7, st, x, 0x50f8de8c, 0xd5b7a850, 0x17d64195, 0x0d6e6d91, 4, 0x00000080, 20, 0xe7d3fbc8, 0x17b62814, 0x043cb080);
    Plan2C();
    GIs(8, st, x, 0x0d6e6d91, 0x043cb080, 0xd5b7a850, 0x17d64195, 9, 0x00000000, 5, 0x21e1cde6, 0xc435a8c0, 0x74f9377e);
    GIs(9, st, x, 0x17d64195, 0x74f9377e, 0x043cb080, 0xd5b7a850, 14, 0x00000280, 9, 0xc33707d6, 0x54b930d0, 0x01f2addd);
    GIs(10, st, x, 0xd5b7a850, 0x01f2addd, 0x74f9377e, 0x043cb080, 3, 0x30393837, 14, 0xf4d50d87, 0x70f1a7fe, 0xe775c8ca);
    GIs(11, st, x, 0x043cb080, 0xe775c8ca, 0x01f2addd, 0x74f9377e, 8, 0x00000000, 20, 0x455a14ed, 0x657388cb, 0xcb00b96e);
    Plan2D();
    GIs(12, st, x, 0x74f9377e, 0xcb00b96e, 0xe775c8ca, 0x01f2addd, 13, 0x00000000, 5, 0xa9e3e905, 0xe705e94e, 0x8761f38e);
    GIs(13, st, x, 0x01f2addd, 0x8761f38e, 0xcb00b96e, 0xe775c8ca, 2, 0x36353433, 9, 0xfcefa3f8, 0x8f61f1ae, 0x7a516116);
    GIs(14, st, x, 0xe775c8ca, 0x7a516116, 0x8761f38e, 0xcb00b96e, 7, 0x00000000, 14, 0x676f02d9, 0x4e616386, 0x061bc867);
    GIs(15, st, x, 0xcb00b96e, 0x061bc867, 0x7a516116, 0x8761f38e, 12, 0x00000000, 20, 0x8d2a4c8a, 0x7e11c016, 0x67092c33);
  }

  lemma DigitsBRound3()
    ensures Reached(2, 16, Regs(0x8761f38e, 0x67092c33, 0x061bc867, 0x7a516116), Part(Digits(80), 1), Regs(0x71123afa, 0x1df7010a, 0xe6a8a386, 0xdc9c8ddb))
  {
    hide Reached, Holds, Takes, Steps, WordIndex, Shift, Constant, Part;
    var x, st := Part(Digits(80), 1), Regs(0x8761f38e, 0x67092c33, 0x061bc867, 0x7a516116);
    DigitsBHolds();
    Begins(2, st, x);
    Plan3A();
    HIs(0, st, x, 0x8761f38e, 0x67092c33, 0x061bc867, 0x7a516116, 5, 0x00000000, 4, 0xfffa3942, 0x1b438542, 0x91044d5d);
    HIs(1, st, x, 0x7a516116, 0x91044d5d, 0x67092c33, 0x061bc867, 8, 0x00000000, 11, 0x8771f681, 0xf016a909, 0x610954eb);
    HIs(2, st, x, 0x061bc867, 0x610954eb, 0x91044d5d, 0x67092c33, 11, 0x00000000, 16, 0x6d9d6122, 0x97043585, 0xc0175fa8);
    HIs(3, st, x, 0x67092c33, 0xc0175fa8, 0x610954eb, 0x91044d5d, 14, 0x00000280, 23, 0xfde5380c, 0x301a461e, 0x2ee1e3fe);
    Plan3B();
    HIs(4, st, x, 0x91044d5d, 0x2ee1e3fe, 0xc0175fa8, 0x610954eb, 1, 0x32313039, 4, 0xa4beea44, 0x8fffe8bd, 0xae26ed7d);
    HIs(5, st, x, 0x610954eb, 0xae26ed7d, 0x2ee1e3fe, 0xc0175fa8, 4, 0x00000080, 11, 0x4bdecfa9, 0x40d0512b, 0x71d8ecea);
    HIs(6, st, x, 0xc0175fa8, 0x71d8ecea, 0xae26ed7d, 0x2ee1e3fe, 7, 0x00000000, 16, 0xf6bb4b60, 0xf11fe269, 0xff4a94dc);
    HIs(7, st, x, 0x2ee1e3fe, 0xff4a94dc, 0x71d8ecea, 0xae26ed7d, 10, 0x00000000, 23, 0xbebfbc70, 0x20b4954b, 0xdbd1bff6);
    Plan3C();
    HIs(8, st, x, 0xae26ed7d, 0xdbd1bff6, 0xff4a94dc, 0x71d8ecea, 13, 0x00000000, 4, 0x289b7ec6, 0x5543c7c0, 0x9c350028);
    HIs(9, st, x, 0x71d8ecea, 0x9c350028, 0xdbd1bff6, 0xff4a94dc, 0, 0x38373635, 11, 0xeaa127fa, 0xb8ae2b02, 0x97e5da92);
    HIs(10, st, x, 0xff4a94dc, 0x97e5da92, 0x9c350028, 0xdbd1bff6, 3, 0x30393837, 16, 0xd4ef3085, 0xd001654c, 0xfacaaf06);
    HIs(11, st, x, 0xdbd1bff6, 0xfacaaf06, 0x97e5da92, 0x9c350028, 6, 0x00000000, 23, 0x04881d05, 0xf11a75bc, 0x56b3692f);
    Plan3D();
    HIs(12, st, x, 0x9c350028, 0x56b3692f, 0xfacaaf06, 0x97e5da92, 9, 0x00000000, 4, 0xd9d4d039, 0x3b9c1cbb, 0x71123afa);
    HIs(13, st, x, 0x97e5da92, 0x71123afa, 0x56b3692f, 0xfacaaf06, 12, 0x00000000, 11, 0xe6db99e5, 0xdd6bfcd3, 0xdc9c8ddb);
    HIs(14, st, x, 0xfacaaf06, 0xdc9c8ddb, 0x71123afa, 0x56b3692f, 15, 0x00000000, 16, 0x1fa27cf8, 0xfb3dde0e, 0xe6a8a386);
    HIs(15, st, x, 0x56b3692f, 0xe6a8a386, 0xdc9c8ddb, 0x71123afa, 2, 0x36353433, 23, 0xc4ac5665, 0x4b2614a7, 0x1df7010a);
  }

  lemma DigitsBRound4()
    ensures Reached(3, 16, Regs(0x71123afa, 0x1df7010a, 0xe6a8a386, 0xdc9c8ddb), Part(Digits(80), 1), Regs(0xda67616b, 0xb12906a0, 0x44ec5a13, 0xc9e47a04))
  {
    hide Reached, Holds, Takes, Steps, WordIndex, Shift, Constant, Part;
    var x, st := Part(Digits(80), 1), Regs(0x71123afa, 0x1df7010a, 0xe6a8a386, 0xdc9c8ddb);
    DigitsBHolds();
    Begins(3, st, x);
    Plan4A();
    IIs(0, st, x, 0x71123afa, 0x1df7010a, 0xe6a8a386, 0xdc9c8ddb, 0, 0x38373635, 6, 0xf4292244, 0xd95fd0a8, 0xd29007e7);
    IIs(1, st, x, 0xdc9c8ddb, 0xd29007e7, 0x1df7010a, 0xe6a8a386, 7, 0x00000000, 10, 0x432aff97, 0xc6205ef5, 0x7241a77e);
    IIs(2, st, x, 0xe6a8a386, 0x7241a77e, 0xd29007e7, 0x1df7010a, 14, 0x00000280, 15, 0xab9423a7, 0x20d9f818, 0xd3248109);
    IIs(3, st, x, 0x1df7010a, 0xd3248109, 0x7241a77e, 0xd29007e7, 5, 0x00000000, 21, 0xfc93a039, 0x8d2e5e67, 0xc8797828);
    Plan4B();
    IIs(4, st, x, 0xd29007e7, 0xc8797828, 0xd3248109, 0x7241a77e, 12, 0x00000000, 6, 0x655b59c3, 0x1edbf9a0, 0x7a504abd);
    IIs(5, st, x, 0x7241a77e, 0x7a504abd, 0xc8797828, 0xd3248109, 3, 0x30393837, 10, 0x8f0ccc92, 0xb6a206d7, 0x211cc65d);
    IIs(6, st, x, 0xd3248109, 0x211cc65d, 0x7a504abd, 0xc8797828, 10, 0x00000000, 15, 0xffeff47d, 0x4dce8d62, 0xa290d6ce);
    IIs(7, st, x, 0xc8797828, 0xa290d6ce, 0x211cc65d, 0x7a504abd, 1, 0x32313039, 21, 0x85845dd1, 0x86a33193, 0x9b31b114);
    Plan4C();
    IIs(8, st, x, 0x7a504abd, 0x9b31b114, 0xa290d6ce, 0x211cc65d, 8, 0x00000000, 6, 0x6fa87e4f, 0x7d636f78, 0x723fd22d);
    IIs(9, st, x, 0x211cc65d, 0x723fd22d, 0x9b31b114, 0xa290d6ce, 15, 0x00000000, 10, 0xfe2ce6e0, 0xe44e4a29, 0xd21d6a3b);
    IIs(10, st, x, 0xa290d6ce, 0xd21d6a3b, 0x723fd22d, 0x9b31b114, 6, 0x00000000, 15, 0xa3014314, 0x84e0bcd6, 0x3d79cf74);
    IIs(11, st, x, 0x9b31b114, 0x3d79cf74, 0xd21d6a3b, 0x723fd22d, 13, 0x00000000, 21, 0x4e0811a1, 0x6fe485cd, 0x4dc4f33d);
    Plan4D();
    IIs(12, st, x, 0x723fd22d, 0x4dc4f33d, 0x3d79cf74, 0xd21d6a3b, 4, 0x00000080, 6, 0xf7537e82, 0x509f3889, 0xda67616b);
    IIs(13, st, x, 0xd21d6a3b, 0xda67616b, 0x4dc4f33d, 0x3d79cf74, 11, 0x00000000, 10, 0xbd3af235, 0x972382d6, 0xc9e47a04);
    IIs(14, st, x, 0x3d79cf74, 0xc9e47a04, 0xda67616b, 0x4dc4f33d, 2, 0x36353433, 15, 0x2ad7d2bb, 0x21981fad, 0x44ec5a13);
    IIs(15, st, x, 0x4dc4f33d, 0x44ec5a13, 0xc9e47a04, 0xda67616b, 9, 0x00000000, 21, 0xeb86d391, 0xac18a493, 0xb12906a0);
  }

  lemma DigitsBBlock()
    ensures |Padded(Digits(80))| == 128
    ensures Compress(Regs(0xc88d8bec, 0xa4a0dc8b, 0xe9edef99, 0xb0d18d1d), Padded(Digits(80))[64..128]) ==
      Regs(0xa2f4ed57, 0x55c9e32b, 0x2eda49ac, 0x7ab60721)
  {
    DigitsBRound1();
    DigitsBRound2();
    DigitsBRound3();
    DigitsBRound4();
    hide Steps, Reached, Compress, Added, Padded, Ascii, Digits, Words, Part, Pads;
    DigitsPads();
    PartIs(Digits(80), 40, 1);
    CompressIs(Regs(0xc88d8bec, 0xa4a0dc8b, 0xe9edef99, 0xb0d18d1d), Padded(Digits(80))[64..128], Part(Digits(80), 1), Regs(0xdb4ff71c, 0x58b12eab, 0x04396a39, 0x9b6b4960), Regs(0x8761f38e, 0x67092c33, 0x061bc867, 0x7a516116), Regs(0x71123afa, 0x1df7010a, 0xe6a8a386, 0xdc9c8ddb), Regs(0xda67616b, 0xb12906a0, 0x44ec5a13, 0xc9e47a04));
    Sums(0xc88d8bec, 0xa4a0dc8b, 0xe9edef99, 0xb0d18d1d,
      0xda67616b, 0xb12906a0, 0x44ec5a13, 0xc9e47a04,
      0xa2f4ed57, 0x55c9e32b, 0x2eda49ac, 0x7ab60721);
  }

  lemma DigitsPads()
    ensures |Digits(80)| == 80 && Pads(Digits(80), 40)
  {}

  lemma Md5Digits()
    ensures Md5(Digits(80)) ==
      [0x57, 0xed, 0xf4, 0xa2, 0x2b, 0xe3, 0xc9, 0x55, 0xac, 0x49, 0xda, 0x2e, 0x21, 0x07, 0xb6, 0x7a]
  {
    DigitsABlock();
    DigitsBBlock();
    hide Compress, Padded, Ascii, Blocks, Output;
    TwoBlocks(Padded(Digits(80)), INIT);
    BytesAre(0xa2f4ed57, 0x57, 0xed, 0xf4, 0xa2);
    BytesAre(0x55c9e32b, 0x2b, 0xe3, 0xc9, 0x55);
    BytesAre(0x2eda49ac, 0xac, 0x49, 0xda, 0x2e);
    BytesAre(0x7ab60721, 0x21, 0x07, 0xb6, 0x7a);
    OutputIs(Regs(0xa2f4ed57, 0x55c9e32b, 0x2eda49ac, 0x7ab60721));
  }
}
