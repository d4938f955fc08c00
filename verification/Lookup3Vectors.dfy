/** Values of the hash that the self-test of src/cbits/lookup3.c lists. */
module Lookup3Vectors {
  import opened Octets
  import opened Lookup3Spec

  const FOUR_SCORE := "Four score and seven years ago"

  // ----- steps on numbers

  lemma LineIs(x: bv32, y: bv32, z: bv32, k: nat, u: bv32, r: bv32, x': bv32, z': bv32)
    requires 0 < k < 32 && Sub(x, z) == u && Rot(z, k) == r && Xor(u, r) == x' && Add(z, y) == z'
    ensures Line(x, y, z, k) == (x', z')
  {
    hide Sub, Rot, Xor, Add;
  }

  lemma FinalLineIs(x: bv32, y: bv32, k: nat, u: bv32, r: bv32, n: bv32)
    requires 0 < k < 32 && Xor(x, y) == u && Rot(y, k) == r && Sub(u, r) == n
    ensures FinalLine(x, y, k) == n
  {
    hide Sub, Rot, Xor;
  }

  lemma StartIs(length: nat, seed: bv32, seed2: bv32, t: Triple)
    requires length < 0x1_0000_0000 && t.a == Add(Add(0xdeadbeef, length as bv32), seed) && t.b == t.a && t.c == Add(t.a, seed2)
    ensures Start(length, seed, seed2) == t
  {
    hide Add;
  }

  lemma SumIs(a: bv32, b: bv32, c: bv32, x: bv32, y: bv32, z: bv32, a': bv32, b': bv32, c': bv32)
    requires Add(a, x) == a' && Add(b, y) == b' && Add(c, z) == c'
    ensures Triple(Add(a, x), Add(b, y), Add(c, z)) == Triple(a', b', c')
  {}

  /** A key of 25 to 36 bytes takes two rounds of mixing. */
  lemma ThreeBlocks(key: Bytes, t: Triple)
    requires 24 < |key| <= 36
    ensures HashFrom(key, t) == Final(AddFrom(Mix(AddFrom(Mix(AddFrom(t, key, 0)), key, 12)), key, 24))
  {
    hide HashFrom, Mix, Final, AddFrom;
    HashOfBlocks(key, t, 2);
    assert BlocksMixed(key, t, 2) == Mix(AddFrom(BlocksMixed(key, t, 1), key, 12));
    assert BlocksMixed(key, t, 1) == Mix(AddFrom(BlocksMixed(key, t, 0), key, 0));
  }

  lemma WordIs(key: Bytes, i: nat, b0: byte, b1: byte, b2: byte, b3: byte, w: bv32)
    requires ByteAt(key, i) == b0 && ByteAt(key, i + 1) == b1 && ByteAt(key, i + 2) == b2 && ByteAt(key, i + 3) == b3
    requires (b0 as bv32) + ((b1 as bv32) << 8) + ((b2 as bv32) << 16) + ((b3 as bv32) << 24) == w
    ensures WordAt(key, i) == w
  {
    WordWritten(b0, b1, b2, b3);
    hide Word;
  }

  lemma CharIs(s: string, i: nat, n: nat, b: byte)
    requires i < |s| && s[i] as int == n && n < 128 && n as bv8 == b
    ensures ByteAt(Ascii(s), i) == b
  {
    hide Ascii;
    AsciiAt(s, i, n);
  }

  lemma TextWord(s: string, i: nat, n0: nat, n1: nat, n2: nat, n3: nat, b0: byte, b1: byte, b2: byte, b3: byte, w: bv32)
    requires i + 4 <= |s| && s[i] as int == n0 && s[i + 1] as int == n1 && s[i + 2] as int == n2 && s[i + 3] as int == n3
    requires n0 < 128 && n1 < 128 && n2 < 128 && n3 < 128
    requires n0 as bv8 == b0 && n1 as bv8 == b1 && n2 as bv8 == b2 && n3 as bv8 == b3
    requires (b0 as bv32) + ((b1 as bv32) << 8) + ((b2 as bv32) << 16) + ((b3 as bv32) << 24) == w
    ensures WordAt(Ascii(s), i) == w
  {
    CharIs(s, i, n0, b0);
    CharIs(s, i + 1, n1, b1);
    CharIs(s, i + 2, n2, b2);
    CharIs(s, i + 3, n3, b3);
    hide Ascii, ByteAt;
    WordIs(Ascii(s), i, b0, b1, b2, b3, w);
  }

  lemma Word0()
    ensures WordAt(Ascii(FOUR_SCORE), 0) == 0x72756f46
  {
    hide Ascii, WordAt, ByteAt;
    TextWord(FOUR_SCORE, 0, 70, 111, 117, 114, 0x46, 0x6f, 0x75, 0x72, 0x72756f46);
  }

  lemma Word4()
    ensures WordAt(Ascii(FOUR_SCORE), 4) == 0x6f637320
  {
    hide Ascii, WordAt, ByteAt;
    TextWord(FOUR_SCORE, 4, 32, 115, 99, 111, 0x20, 0x73, 0x63, 0x6f, 0x6f637320);
  }

  lemma Word8()
    ensures WordAt(Ascii(FOUR_SCORE), 8) == 0x61206572
  {
    hide Ascii, WordAt, ByteAt;
    TextWord(FOUR_SCORE, 8, 114, 101, 32, 97, 0x72, 0x65, 0x20, 0x61, 0x61206572);
  }

  lemma Word12()
    ensures WordAt(Ascii(FOUR_SCORE), 12) == 0x7320646e
  {
    hide Ascii, WordAt, ByteAt;
    TextWord(FOUR_SCORE, 12, 110, 100, 32, 115, 0x6e, 0x64, 0x20, 0x73, 0x7320646e);
  }

  lemma Word16()
    ensures WordAt(Ascii(FOUR_SCORE), 16) == 0x6e657665
  {
    hide Ascii, WordAt, ByteAt;
    TextWord(FOUR_SCORE, 16, 101, 118, 101, 110, 0x65, 0x76, 0x65, 0x6e, 0x6e657665);
  }

  lemma Word20()
    ensures WordAt(Ascii(FOUR_SCORE), 20) == 0x61657920
  {
    hide Ascii, WordAt, ByteAt;
    TextWord(FOUR_SCORE, 20, 32, 121, 101, 97, 0x20, 0x79, 0x65, 0x61, 0x61657920);
  }

  lemma Word24()
    ensures WordAt(Ascii(FOUR_SCORE), 24) == 0x61207372
  {
    hide Ascii, WordAt, ByteAt;
    TextWord(FOUR_SCORE, 24, 114, 115, 32, 97, 0x72, 0x73, 0x20, 0x61, 0x61207372);
  }

  lemma Words28()
    ensures WordAt(Ascii(FOUR_SCORE), 28) == 0x00006f67 && WordAt(Ascii(FOUR_SCORE), 32) == 0x00000000
  {
    var key := Ascii(FOUR_SCORE);
    hide Ascii, WordAt, ByteAt;
    CharIs(FOUR_SCORE, 28, 103, 0x67);
    CharIs(FOUR_SCORE, 29, 111, 0x6f);
    BehindKey(key, 30);
    BehindKey(key, 31);
    WordIs(key, 28, 0x67, 0x6f, 0x00, 0x00, 0x00006f67);
    BehindKey(key, 32);
    BehindKey(key, 33);
    BehindKey(key, 34);
    BehindKey(key, 35);
    WordIs(key, 32, 0x00, 0x00, 0x00, 0x00, 0x00000000);
  }

  lemma KeyWords()
    ensures
      WordAt(Ascii(FOUR_SCORE), 0) == 0x72756f46 &&
      WordAt(Ascii(FOUR_SCORE), 4) == 0x6f637320 &&
      WordAt(Ascii(FOUR_SCORE), 8) == 0x61206572 &&
      WordAt(Ascii(FOUR_SCORE), 12) == 0x7320646e &&
      WordAt(Ascii(FOUR_SCORE), 16) == 0x6e657665 &&
      WordAt(Ascii(FOUR_SCORE), 20) == 0x61657920 &&
      WordAt(Ascii(FOUR_SCORE), 24) == 0x61207372 &&
      WordAt(Ascii(FOUR_SCORE), 28) == 0x00006f67 &&
      WordAt(Ascii(FOUR_SCORE), 32) == 0x00000000
  {
    hide Ascii, WordAt;
    Word0();
    Word4();
    Word8();
    Word12();
    Word16();
    Word20();
    Word24();
    Words28();
  }

  lemma BehindKey(key: Bytes, i: nat)
    requires i >= |key|
    ensures ByteAt(key, i) == 0
  {}

  lemma SeedsNoneFirst()
    ensures Mix(Triple(0x51232e53, 0x4e11322d, 0x3fce247f)) == Triple(0xf859ad7a, 0x04bc57ae, 0x40dddd7e)
  {
    LineIs(0x51232e53, 0x4e11322d, 0x3fce247f, 4, 0x115509d4, 0xfce247f3, 0xedb74e27, 0x8ddf56ac);
    LineIs(0x4e11322d, 0x8ddf56ac, 0xedb74e27, 6, 0x6059e406, 0x6dd389fb, 0x0d8a6dfd, 0x7b96a4d3);
    LineIs(0x8ddf56ac, 0x7b96a4d3, 0x0d8a6dfd, 8, 0x8054e8af, 0x8a6dfd0d, 0x0a3915a2, 0x892112d0);
    LineIs(0x7b96a4d3, 0x892112d0, 0x0a3915a2, 16, 0x715d8f31, 0x15a20a39, 0x64ff8508, 0x935a2872);
    LineIs(0x892112d0, 0x935a2872, 0x64ff8508, 19, 0x24218dc8, 0x284327fc, 0x0c62aa34, 0xf859ad7a);
    LineIs(0x935a2872, 0xf859ad7a, 0x0c62aa34, 4, 0x86f77e3e, 0xc62aa340, 0x40dddd7e, 0x04bc57ae);
    hide Line, FinalLine, Add, Sub, Xor, Rot;
  }

  lemma SeedsNoneSecond()
    ensures Mix(Triple(0x6b7a11e8, 0x7321ce13, 0xa243569e)) == Triple(0x336aded2, 0x059f2642, 0xbd02ebd5)
  {
    LineIs(0x6b7a11e8, 0x7321ce13, 0xa243569e, 4, 0xc936bb4a, 0x243569ea, 0xed03d2a0, 0x156524b1);
    LineIs(0x7321ce13, 0x156524b1, 0xed03d2a0, 6, 0x861dfb73, 0x40f4a83b, 0xc6e95348, 0x0268f751);
    LineIs(0x156524b1, 0x0268f751, 0xc6e95348, 8, 0x4e7bd169, 0xe95348c6, 0xa72899af, 0xc9524a99);
    LineIs(0x0268f751, 0xc9524a99, 0xa72899af, 16, 0x5b405da2, 0x99afa728, 0xc2effa8a, 0x707ae448);
    LineIs(0xc9524a99, 0x707ae448, 0xc2effa8a, 19, 0x0662500f, 0xd456177f, 0xd2344770, 0x336aded2);
    LineIs(0x707ae448, 0x336aded2, 0xd2344770, 4, 0x9e469cd8, 0x2344770d, 0xbd02ebd5, 0x059f2642);
    hide Line, FinalLine, Add, Sub, Xor, Rot;
  }

  lemma SeedsNoneLast()
    ensures Final(Triple(0x948b5244, 0x059f95a9, 0xbd02ebd5)) == Triple(0x9a837816, 0xce7226e6, 0x17770551)
  {
    FinalLineIs(0xbd02ebd5, 0x059f95a9, 14, 0xb89d7e7c, 0xe56a4167, 0xd3333d15);
    FinalLineIs(0x948b5244, 0xd3333d15, 11, 0x47b86f51, 0x99e8ae99, 0xadcfc0b8);
    FinalLineIs(0x059f95a9, 0xadcfc0b8, 25, 0xa8505511, 0x715b9f81, 0x36f4b590);
    FinalLineIs(0xd3333d15, 0x36f4b590, 16, 0xe5c78885, 0xb59036f4, 0x30375191);
    FinalLineIs(0xadcfc0b8, 0x30375191, 4, 0x9df89129, 0x03751913, 0x9a837816);
    FinalLineIs(0x36f4b590, 0x9a837816, 14, 0xac77cd86, 0xde05a6a0, 0xce7226e6);
    FinalLineIs(0x30375191, 0xce7226e6, 24, 0xfe457777, 0xe6ce7226, 0x17770551);
    hide Line, FinalLine, Add, Sub, Xor, Rot;
  }

  /** Both seeds zero. */
  lemma SeedsNone()
    ensures Hash2(Ascii(FOUR_SCORE), 0, 0) == (0x17770551, 0xce7226e6)
  {
    StartIs(30, 0, 0, Triple(0xdeadbf0d, 0xdeadbf0d, 0xdeadbf0d));
    SumIs(0xdeadbf0d, 0xdeadbf0d, 0xdeadbf0d, 0x72756f46, 0x6f637320, 0x61206572, 0x51232e53, 0x4e11322d, 0x3fce247f);
    SumIs(0xf859ad7a, 0x04bc57ae, 0x40dddd7e, 0x7320646e, 0x6e657665, 0x61657920, 0x6b7a11e8, 0x7321ce13, 0xa243569e);
    SumIs(0x336aded2, 0x059f2642, 0xbd02ebd5, 0x61207372, 0x00006f67, 0x00000000, 0x948b5244, 0x059f95a9, 0xbd02ebd5);
    SeedsNoneFirst();
    SeedsNoneSecond();
    SeedsNoneLast();
    KeyWords();
    assert |Ascii(FOUR_SCORE)| == 30;
    hide Start, Add, Mix, Final, WordAt, Ascii, HashFrom;
    ThreeBlocks(Ascii(FOUR_SCORE), Triple(0xdeadbf0d, 0xdeadbf0d, 0xdeadbf0d));
  }

  lemma SecondSeedFirst()
    ensures Mix(Triple(0x51232e53, 0x4e11322d, 0x3fce2480)) == Triple(0x5880bf0f, 0x0507c285, 0x2e1afadd)
  {
    LineIs(0x51232e53, 0x4e11322d, 0x3fce2480, 4, 0x115509d3, 0xfce24803, 0xedb741d0, 0x8ddf56ad);
    LineIs(0x4e11322d, 0x8ddf56ad, 0xedb741d0, 6, 0x6059f05d, 0x6dd0743b, 0x0d898466, 0x7b96987d);
    LineIs(0x8ddf56ad, 0x7b96987d, 0x0d898466, 8, 0x8055d247, 0x8984660d, 0x09d1b44a, 0x89201ce3);
    LineIs(0x7b96987d, 0x89201ce3, 0x09d1b44a, 16, 0x71c4e433, 0xb44a09d1, 0xc58eede2, 0x92f1d12d);
    LineIs(0x89201ce3, 0x92f1d12d, 0xc58eede2, 19, 0xc3912f01, 0x6f162c77, 0xac870376, 0x5880bf0f);
    LineIs(0x92f1d12d, 0x5880bf0f, 0xac870376, 4, 0xe66acdb7, 0xc870376a, 0x2e1afadd, 0x0507c285);
    hide Line, FinalLine, Add, Sub, Xor, Rot;
  }

  lemma SecondSeedSecond()
    ensures Mix(Triple(0xcba1237d, 0x736d38ea, 0x8f8073fd)) == Triple(0xf0a95c6c, 0x6ea72b3e, 0x327297d5)
  {
    LineIs(0xcba1237d, 0x736d38ea, 0x8f8073fd, 4, 0x3c20af80, 0xf8073fd8, 0xc4279058, 0x02edace7);
    LineIs(0x736d38ea, 0x02edace7, 0xc4279058, 6, 0xaf45a892, 0x09e41631, 0xa6a1bea3, 0xc7153d3f);
    LineIs(0x02edace7, 0xc7153d3f, 0xa6a1bea3, 8, 0x5c4bee44, 0xa1bea3a6, 0xfdf54de2, 0x6db6fbe2);
    LineIs(0xc7153d3f, 0x6db6fbe2, 0xfdf54de2, 16, 0xc91fef5d, 0x4de2fdf5, 0x84fd12a8, 0x6bac49c4);
    LineIs(0x6db6fbe2, 0x6bac49c4, 0x84fd12a8, 19, 0xe8b9e93a, 0x954427e8, 0x7dfdced2, 0xf0a95c6c);
    LineIs(0x6bac49c4, 0xf0a95c6c, 0x7dfdced2, 4, 0xedae7af2, 0xdfdced27, 0x327297d5, 0x6ea72b3e);
    hide Line, FinalLine, Add, Sub, Xor, Rot;
  }

  lemma SecondSeedLast()
    ensures Final(Triple(0x51c9cfde, 0x6ea79aa5, 0x327297d5)) == Triple(0x6cd40950, 0xbd371de4, 0xe3607cae)
  {
    FinalLineIs(0x327297d5, 0x6ea79aa5, 14, 0x5cd50d70, 0xe6a95ba9, 0x762bb1c7);
    FinalLineIs(0x51c9cfde, 0x762bb1c7, 11, 0x27e27e19, 0x5d8e3bb1, 0xca544268);
    FinalLineIs(0x6ea79aa5, 0xca544268, 25, 0xa4f3d8cd, 0xd194a884, 0xd35f3049);
    FinalLineIs(0x762bb1c7, 0xd35f3049, 16, 0xa574818e, 0x3049d35f, 0x752aae2f);
    FinalLineIs(0xca544268, 0x752aae2f, 4, 0xbf7eec47, 0x52aae2f7, 0x6cd40950);
    FinalLineIs(0xd35f3049, 0x6cd40950, 14, 0xbf8b3919, 0x02541b35, 0xbd371de4);
    FinalLineIs(0x752aae2f, 0xbd371de4, 24, 0xc81db3cb, 0xe4bd371d, 0xe3607cae);
    hide Line, FinalLine, Add, Sub, Xor, Rot;
  }

  /** The second seed one. */
  lemma SecondSeed()
    ensures Hash2(Ascii(FOUR_SCORE), 0, 1) == (0xe3607cae, 0xbd371de4)
  {
    StartIs(30, 0, 1, Triple(0xdeadbf0d, 0xdeadbf0d, 0xdeadbf0e));
    SumIs(0xdeadbf0d, 0xdeadbf0d, 0xdeadbf0e, 0x72756f46, 0x6f637320, 0x61206572, 0x51232e53, 0x4e11322d, 0x3fce2480);
    SumIs(0x5880bf0f, 0x0507c285, 0x2e1afadd, 0x7320646e, 0x6e657665, 0x61657920, 0xcba1237d, 0x736d38ea, 0x8f8073fd);
    SumIs(0xf0a95c6c, 0x6ea72b3e, 0x327297d5, 0x61207372, 0x00006f67, 0x00000000, 0x51c9cfde, 0x6ea79aa5, 0x327297d5);
    SecondSeedFirst();
    SecondSeedSecond();
    SecondSeedLast();
    KeyWords();
    assert |Ascii(FOUR_SCORE)| == 30;
    hide Start, Add, Mix, Final, WordAt, Ascii, HashFrom;
    ThreeBlocks(Ascii(FOUR_SCORE), Triple(0xdeadbf0d, 0xdeadbf0d, 0xdeadbf0e));
  }

  lemma FirstSeedFirst()
    ensures Mix(Triple(0x51232e54, 0x4e11322e, 0x3fce2480)) == Triple(0x9fb9ade6, 0x89211ba9, 0x3ffff143)
  {
    LineIs(0x51232e54, 0x4e11322e, 0x3fce2480, 4, 0x115509d4, 0xfce24803, 0xedb741d7, 0x8ddf56ae);
    LineIs(0x4e11322e, 0x8ddf56ae, 0xedb741d7, 6, 0x6059f057, 0x6dd075fb, 0x0d8985ac, 0x7b969885);
    LineIs(0x8ddf56ae, 0x7b969885, 0x0d8985ac, 8, 0x8055d102, 0x8985ac0d, 0x09d07d0f, 0x89201e31);
    LineIs(0x7b969885, 0x89201e31, 0x09d07d0f, 16, 0x71c61b76, 0x7d0f09d0, 0x0cc912a6, 0x92f09b40);
    LineIs(0x89201e31, 0x92f09b40, 0x0cc912a6, 19, 0x7c570b8b, 0x95306648, 0xe9676dc3, 0x9fb9ade6);
    LineIs(0x92f09b40, 0x9fb9ade6, 0xe9676dc3, 4, 0xa9892d7d, 0x9676dc3e, 0x3ffff143, 0x89211ba9);
    hide Line, FinalLine, Add, Sub, Xor, Rot;
  }

  lemma FirstSeedSecond()
    ensures Mix(Triple(0x12da1254, 0xf786920e, 0xa1656a63)) == Triple(0xd68042ad, 0x488e0a5d, 0xab16e7b2)
  {
    LineIs(0x12da1254, 0xf786920e, 0xa1656a63, 4, 0x7174a7f1, 0x1656a63a, 0x672201cb, 0x98ebfc71);
    LineIs(0xf786920e, 0x98ebfc71, 0x672201cb, 6, 0x90649043, 0xc88072d9, 0x58e4e29a, 0x000dfe3c);
    LineIs(0x98ebfc71, 0x000dfe3c, 0x58e4e29a, 8, 0x400719d7, 0xe4e29a58, 0xa4e5838f, 0x58f2e0d6);
    LineIs(0x000dfe3c, 0x58f2e0d6, 0xa4e5838f, 16, 0x5b287aad, 0x838fa4e5, 0xd8a7de48, 0xfdd86465);
    LineIs(0x58f2e0d6, 0xfdd86465, 0xd8a7de48, 19, 0x804b028e, 0xf246c53e, 0x720dc7b0, 0xd68042ad);
    LineIs(0xfdd86465, 0xd68042ad, 0x720dc7b0, 4, 0x8bca9cb5, 0x20dc7b07, 0xab16e7b2, 0x488e0a5d);
    hide Line, FinalLine, Add, Sub, Xor, Rot;
  }

  lemma FirstSeedLast()
    ensures Final(Triple(0x37a0b61f, 0x488e79c4, 0xab16e7b2)) == Triple(0x1336f927, 0x6cbea4b3, 0xcd628161)
  {
    FinalLineIs(0xab16e7b2, 0x488e79c4, 14, 0xe3989e76, 0x9e711223, 0x45278c53);
    FinalLineIs(0x37a0b61f, 0x45278c53, 11, 0x72873a4c, 0x3c629a29, 0x3624a023);
    FinalLineIs(0x488e79c4, 0x3624a023, 25, 0x7eaad9e7, 0x466c4940, 0x383e90a7);
    FinalLineIs(0x45278c53, 0x383e90a7, 16, 0x7d191cf4, 0x90a7383e, 0xec71e4b6);
    FinalLineIs(0x3624a023, 0xec71e4b6, 4, 0xda554495, 0xc71e4b6e, 0x1336f927);
    FinalLineIs(0x383e90a7, 0x1336f927, 14, 0x2b086980, 0xbe49c4cd, 0x6cbea4b3);
    FinalLineIs(0xec71e4b6, 0x6cbea4b3, 24, 0x80cf4005, 0xb36cbea4, 0xcd628161);
    hide Line, FinalLine, Add, Sub, Xor, Rot;
  }

  /** The first seed one. */
  lemma FirstSeed()
    ensures Hash2(Ascii(FOUR_SCORE), 1, 0) == (0xcd628161, 0x6cbea4b3)
  {
    StartIs(30, 1, 0, Triple(0xdeadbf0e, 0xdeadbf0e, 0xdeadbf0e));
    SumIs(0xdeadbf0e, 0xdeadbf0e, 0xdeadbf0e, 0x72756f46, 0x6f637320, 0x61206572, 0x51232e54, 0x4e11322e, 0x3fce2480);
    SumIs(0x9fb9ade6, 0x89211ba9, 0x3ffff143, 0x7320646e, 0x6e657665, 0x61657920, 0x12da1254, 0xf786920e, 0xa1656a63);
    SumIs(0xd68042ad, 0x488e0a5d, 0xab16e7b2, 0x61207372, 0x00006f67, 0x00000000, 0x37a0b61f, 0x488e79c4, 0xab16e7b2);
    FirstSeedFirst();
    FirstSeedSecond();
    FirstSeedLast();
    KeyWords();
    assert |Ascii(FOUR_SCORE)| == 30;
    hide Start, Add, Mix, Final, WordAt, Ascii, HashFrom;
    ThreeBlocks(Ascii(FOUR_SCORE), Triple(0xdeadbf0e, 0xdeadbf0e, 0xdeadbf0e));
  }

  /** The empty key is not mixed at all. */
  lemma EmptyKey()
    ensures Hash2([], 0, 0) == (0xdeadbeef, 0xdeadbeef)
    ensures Hash2([], 0, 0xdeadbeef) == (0xbd5b7dde, 0xdeadbeef)
    ensures Hash2([], 0xdeadbeef, 0xdeadbeef) == (0x9c093ccd, 0xbd5b7dde)
  {
    StartIs(0, 0, 0, Triple(0xdeadbeef, 0xdeadbeef, 0xdeadbeef));
    StartIs(0, 0, 0xdeadbeef, Triple(0xdeadbeef, 0xdeadbeef, 0xbd5b7dde));
    StartIs(0, 0xdeadbeef, 0xdeadbeef, Triple(0xbd5b7dde, 0xbd5b7dde, 0x9c093ccd));
    hide Start;
  }

  /** The values with one seed. */
  lemma OneSeed()
    ensures Hash(Ascii(FOUR_SCORE), 0) == 0x17770551 && Hash(Ascii(FOUR_SCORE), 1) == 0xcd628161
  {
    SeedsNone();
    FirstSeed();
    hide Hash2, Ascii;
  }
}
