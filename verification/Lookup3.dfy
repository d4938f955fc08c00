/** The functions of src/cbits/lookup3.c: words, halves or bytes at a time, by alignment. */
module Lookup3 {
  import opened Octets
  import opened Lookup3Spec
  import opened Powers

  /** A word of the padded key, from the bytes there are. */
  lemma WordCases(k: Bytes, len: nat, i: nat)
    requires len <= |k|
    ensures var w := WordAt(k[..len], i);
      && (i + 4 <= len ==> w == Word(k[i], k[i + 1], k[i + 2], k[i + 3]))
      && (i + 3 == len ==> w == Word(k[i], k[i + 1], k[i + 2], 0))
      && (i + 2 == len ==> w == Word(k[i], k[i + 1], 0, 0))
      && (i + 1 == len ==> w == Word(k[i], 0, 0, 0))
      && (i >= len ==> w == 0)
  {
    ShortWord(0, 0, 0, 0);
    hide Word;
  }

  lemma ShortWord(b0: byte, b1: byte, b2: byte, b3: byte)
    ensures Word(b0, b1, b2, 0) == Add(Add(Wide(b0), Shl(Wide(b1), 8)), Shl(Wide(b2), 16))
    ensures Word(b0, b1, 0, 0) == Add(Wide(b0), Shl(Wide(b1), 8))
    ensures Word(b0, 0, 0, 0) == Wide(b0)
    ensures Word(0, 0, 0, 0) == 0
  {
    ZeroByte(8);
    ZeroByte(16);
    ZeroByte(24);
    AddZero(Add(Add(Wide(b0), Shl(Wide(b1), 8)), Shl(Wide(b2), 16)));
    AddZero(Add(Wide(b0), Shl(Wide(b1), 8)));
    AddZero(Wide(b0));
    AddZero(0);
    hide Add, Shl, Wide;
  }

  // ----- the last block

  /** Reading 32 bits at `k + i`. */
  function Read32(k: Bytes, i: nat): bv32
    requires i + 4 <= |k|
  {
    Word(k[i], k[i + 1], k[i + 2], k[i + 3])
  }

  function Read16(k: Bytes, i: nat): bv32
    requires i + 2 <= |k|
  {
    Half(k[i], k[i + 1])
  }

  /** What the last block adds, by how many words it reaches into. */
  lemma OneWord(k: Bytes, len: nat, t: Triple)
    requires len <= |k| && len <= 4
    ensures AddWords(t, k[..len]) == Triple(Add(t.a, WordAt(k[..len], 0)), t.b, t.c)
  {
    WordCases(k, len, 4);
    WordCases(k, len, 8);
    AddZero(t.b);
    AddZero(t.c);
    hide Add, WordAt, Word;
  }

  lemma TwoWords(k: Bytes, len: nat, t: Triple)
    requires len <= |k| && len <= 8
    ensures AddWords(t, k[..len]) == Triple(Add(t.a, WordAt(k[..len], 0)), Add(t.b, WordAt(k[..len], 4)), t.c)
  {
    WordCases(k, len, 8);
    AddZero(t.c);
    hide Add, WordAt, Word;
  }

  /** A word of the key read as 32 bits: whole, or with three, two or one of its bytes. */
  lemma Whole32(k: Bytes, len: nat, i: nat)
    requires i + 4 <= len <= |k|
    ensures Read32(k, i) == WordAt(k[..len], i)
  {
    WordCases(k, len, i);
    hide Word, WordAt;
  }

  lemma Masked32(k: Bytes, len: nat, i: nat)
    requires i < len < i + 4 <= |k|
    ensures And(Read32(k, i), if len == i + 3 then 0xffffff else if len == i + 2 then 0xffff else 0xff) == WordAt(k[..len], i)
  {
    WordCases(k, len, i);
    MaskTakesOff(k[i], k[i + 1], k[i + 2], k[i + 3]);
    hide Word, WordAt, And;
  }

  /** The switch of the 32-bit path: whole words, with what lies behind the key masked off. */
  method Last32(k: Bytes, len: nat, t: Triple) returns (r: Triple)
    requires 1 <= len <= 12 && (len + 3) / 4 * 4 <= |k|
    ensures r == AddWords(t, k[..len])
  {
    hide Read32, Add, And, WordAt;
    var a, b, c := t.a, t.b, t.c;
    if len == 12 {
      Whole32(k, 12, 0);
      Whole32(k, 12, 4);
      Whole32(k, 12, 8);
      c := Add(c, Read32(k, 8));
      b := Add(b, Read32(k, 4));
      a := Add(a, Read32(k, 0));
    } else if len == 11 {
      Whole32(k, 11, 0);
      Whole32(k, 11, 4);
      Masked32(k, 11, 8);
      c := Add(c, And(Read32(k, 8), 0xffffff));
      b := Add(b, Read32(k, 4));
      a := Add(a, Read32(k, 0));
    } else if len == 10 {
      Whole32(k, 10, 0);
      Whole32(k, 10, 4);
      Masked32(k, 10, 8);
      c := Add(c, And(Read32(k, 8), 0xffff));
      b := Add(b, Read32(k, 4));
      a := Add(a, Read32(k, 0));
    } else if len == 9 {
      Whole32(k, 9, 0);
      Whole32(k, 9, 4);
      Masked32(k, 9, 8);
      c := Add(c, And(Read32(k, 8), 0xff));
      b := Add(b, Read32(k, 4));
      a := Add(a, Read32(k, 0));
    } else if len == 8 {
      Whole32(k, 8, 0);
      Whole32(k, 8, 4);
      TwoWords(k, 8, t);
      b := Add(b, Read32(k, 4));
      a := Add(a, Read32(k, 0));
    } else if len == 7 {
      Whole32(k, 7, 0);
      Masked32(k, 7, 4);
      TwoWords(k, 7, t);
      b := Add(b, And(Read32(k, 4), 0xffffff));
      a := Add(a, Read32(k, 0));
    } else if len == 6 {
      Whole32(k, 6, 0);
      Masked32(k, 6, 4);
      TwoWords(k, 6, t);
      b := Add(b, And(Read32(k, 4), 0xffff));
      a := Add(a, Read32(k, 0));
    } else if len == 5 {
      Whole32(k, 5, 0);
      Masked32(k, 5, 4);
      TwoWords(k, 5, t);
      b := Add(b, And(Read32(k, 4), 0xff));
      a := Add(a, Read32(k, 0));
    } else if len == 4 {
      Whole32(k, 4, 0);
      OneWord(k, 4, t);
      a := Add(a, Read32(k, 0));
    } else if len == 3 {
      Masked32(k, 3, 0);
      OneWord(k, 3, t);
      a := Add(a, And(Read32(k, 0), 0xffffff));
    } else if len == 2 {
      Masked32(k, 2, 0);
      OneWord(k, 2, t);
      a := Add(a, And(Read32(k, 0), 0xffff));
    } else {
      Masked32(k, 1, 0);
      OneWord(k, 1, t);
      a := Add(a, And(Read32(k, 0), 0xff));
    }
    r := Triple(a, b, c);
  }

  /** Two halves, the upper one shifted. */
  function Pair16(k: Bytes, i: nat): bv32
    requires i + 4 <= |k|
  {
    Add(Read16(k, i), Shl(Read16(k, i + 2), 16))
  }

  lemma Whole16(k: Bytes, len: nat, i: nat)
    requires i + 4 <= len <= |k|
    ensures Pair16(k, i) == WordAt(k[..len], i)
  {
    WordCases(k, len, i);
    TwoHalves(k[i], k[i + 1], k[i + 2], k[i + 3]);
    hide Word, WordAt, Add, Shl, Half;
  }

  lemma Three16(k: Bytes, len: nat, i: nat, x: bv32)
    requires i + 3 == len <= |k|
    ensures Add(Add(x, Shl(Wide(k[i + 2]), 16)), Read16(k, i)) == Add(x, WordAt(k[..len], i))
  {
    WordCases(k, len, i);
    ShortWord(k[i], k[i + 1], k[i + 2], 0);
    AddAssoc(x, Shl(Wide(k[i + 2]), 16), Half(k[i], k[i + 1]));
    AddSwap(Shl(Wide(k[i + 2]), 16), Half(k[i], k[i + 1]));
    hide WordAt, Add, Shl, Word, Wide;
  }

  lemma Few16(k: Bytes, len: nat, i: nat)
    requires i < len <= |k| && len <= i + 2
    ensures (if len == i + 2 then Read16(k, i) else Wide(k[i])) == WordAt(k[..len], i)
  {
    WordCases(k, len, i);
    ShortWord(k[i], if i + 1 < |k| then k[i + 1] else 0, 0, 0);
    hide WordAt, Add, Shl, Word, Wide;
  }

  /** The switch of the 16-bit path, whose odd cases fall through to the even ones. */
  method Last16(k: Bytes, len: nat, t: Triple) returns (r: Triple)
    requires 1 <= len <= 12 && len <= |k|
    ensures r == AddWords(t, k[..len])
  {
    hide Add, Shl, Wide, Pair16, Read16, WordAt;
    var a, b, c := t.a, t.b, t.c;
    if len == 12 {
      Whole16(k, 12, 0);
      Whole16(k, 12, 4);
      Whole16(k, 12, 8);
      c := Add(c, Pair16(k, 8));
      b := Add(b, Pair16(k, 4));
      a := Add(a, Pair16(k, 0));
    } else if len >= 10 {
      Whole16(k, len, 0);
      Whole16(k, len, 4);
      if len == 11 {
        Three16(k, 11, 8, c);
        c := Add(c, Shl(Wide(k[10]), 16));
      } else {
        Few16(k, 10, 8);
      }
      c := Add(c, Read16(k, 8));
      b := Add(b, Pair16(k, 4));
      a := Add(a, Pair16(k, 0));
    } else if len >= 8 {
      Whole16(k, len, 0);
      Whole16(k, len, 4);
      if len == 9 {
        Few16(k, 9, 8);
        c := Add(c, Wide(k[8]));
      } else {
        TwoWords(k, 8, t);
      }
      b := Add(b, Pair16(k, 4));
      a := Add(a, Pair16(k, 0));
    } else if len >= 6 {
      Whole16(k, len, 0);
      TwoWords(k, len, t);
      if len == 7 {
        Three16(k, 7, 4, b);
        b := Add(b, Shl(Wide(k[6]), 16));
      } else {
        Few16(k, 6, 4);
      }
      b := Add(b, Read16(k, 4));
      a := Add(a, Pair16(k, 0));
    } else if len >= 4 {
      Whole16(k, len, 0);
      if len == 5 {
        Few16(k, 5, 4);
        TwoWords(k, 5, t);
        b := Add(b, Wide(k[4]));
      } else {
        OneWord(k, 4, t);
      }
      a := Add(a, Pair16(k, 0));
    } else if len >= 2 {
      OneWord(k, len, t);
      if len == 3 {
        Three16(k, 3, 0, a);
        a := Add(a, Shl(Wide(k[2]), 16));
      } else {
        Few16(k, 2, 0);
      }
      a := Add(a, Read16(k, 0));
    } else {
      OneWord(k, 1, t);
      Few16(k, 1, 0);
      a := Add(a, Wide(k[0]));
    }
    r := Triple(a, b, c);
  }

  /** The fall-through cases of one word: as many of its bytes as the key has, from the
      highest down. */
  function Downward(k: Bytes, len: nat, i: nat, x: bv32): bv32
    requires len <= |k|
  {
    var r3 := if len >= i + 4 then Add(x, Shl(Wide(k[i + 3]), 24)) else x;
    var r2 := if len >= i + 3 then Add(r3, Shl(Wide(k[i + 2]), 16)) else r3;
    var r1 := if len >= i + 2 then Add(r2, Shl(Wide(k[i + 1]), 8)) else r2;
    if len >= i + 1 then Add(r1, Wide(k[i])) else r1
  }

  lemma DownwardAddsWord(k: Bytes, len: nat, i: nat, x: bv32)
    requires len <= |k|
    ensures Downward(k, len, i, x) == Add(x, WordAt(k[..len], i))
  {
    var b0, b1, b2, b3 := ByteAt(k[..len], i), ByteAt(k[..len], i + 1), ByteAt(k[..len], i + 2), ByteAt(k[..len], i + 3);
    FallThrough(x, b0, b1, b2, b3, len - i);
    hide Add, Shl, Wide, Word;
  }

  /** The switch of the bytewise path, where every case falls through to the next: the
      cases of the third word, */
  method Cases12To9(k: Bytes, len: nat, c0: bv32) returns (c: bv32)
    requires len <= 12 && len <= |k|
    ensures c == Downward(k, len, 8, c0)
  {
    hide Add, Shl, Wide;
    c := c0;
    if len >= 12 { c := Add(c, Shl(Wide(k[11]), 24)); }
    if len >= 11 { c := Add(c, Shl(Wide(k[10]), 16)); }
    if len >= 10 { c := Add(c, Shl(Wide(k[9]), 8)); }
    if len >= 9 { c := Add(c, Wide(k[8])); }
  }

  /** those of the second, */
  method Cases8To5(k: Bytes, len: nat, b0: bv32) returns (b: bv32)
    requires len <= |k|
    ensures b == Downward(k, len, 4, b0)
  {
    hide Add, Shl, Wide;
    b := b0;
    if len >= 8 { b := Add(b, Shl(Wide(k[7]), 24)); }
    if len >= 7 { b := Add(b, Shl(Wide(k[6]), 16)); }
    if len >= 6 { b := Add(b, Shl(Wide(k[5]), 8)); }
    if len >= 5 { b := Add(b, Wide(k[4])); }
  }

  /** and those of the first. */
  method Cases4To1(k: Bytes, len: nat, a0: bv32) returns (a: bv32)
    requires 1 <= len <= |k|
    ensures a == Downward(k, len, 0, a0)
  {
    hide Add, Shl, Wide;
    a := a0;
    if len >= 4 { a := Add(a, Shl(Wide(k[3]), 24)); }
    if len >= 3 { a := Add(a, Shl(Wide(k[2]), 16)); }
    if len >= 2 { a := Add(a, Shl(Wide(k[1]), 8)); }
    a := Add(a, Wide(k[0]));
  }

  method Last8(k: Bytes, len: nat, t: Triple) returns (r: Triple)
    requires 1 <= len <= 12 && len <= |k|
    ensures r == AddWords(t, k[..len])
  {
    DownwardAddsWord(k, len, 0, t.a);
    DownwardAddsWord(k, len, 4, t.b);
    DownwardAddsWord(k, len, 8, t.c);
    hide Add, Downward, WordAt;
    var c := Cases12To9(k, len, t.c);
    var b := Cases8To5(k, len, t.b);
    var a := Cases4To1(k, len, t.a);
    r := Triple(a, b, c);
  }

  lemma FallThrough(x: bv32, b0: byte, b1: byte, b2: byte, b3: byte, n: int)
    requires (n < 4 ==> b3 == 0) && (n < 3 ==> b2 == 0) && (n < 2 ==> b1 == 0) && (n < 1 ==> b0 == 0)
    ensures var r3 := if n >= 4 then Add(x, Shl(Wide(b3), 24)) else x;
      var r2 := if n >= 3 then Add(r3, Shl(Wide(b2), 16)) else r3;
      var r1 := if n >= 2 then Add(r2, Shl(Wide(b1), 8)) else r2;
      var r0 := if n >= 1 then Add(r1, Wide(b0)) else r1;
      r0 == Add(x, Word(b0, b1, b2, b3))
  {
    AddZero(x);
    ZeroByte(8);
    ZeroByte(16);
    ZeroByte(24);
    ZeroWord();
    AddBackwards(x, Wide(b0), Shl(Wide(b1), 8), Shl(Wide(b2), 16), Shl(Wide(b3), 24));
    hide Add, Shl, Wide;
  }

  lemma ZeroWord()
    ensures Word(0, 0, 0, 0) == 0
  {
    ShortWord(0, 0, 0, 0);
  }

  // ----- whole keys

  /** Reading a full block at the front of what is left. */
  lemma BlockStep(k: Bytes, len: nat, t: Triple)
    requires 12 < len <= |k|
    ensures HashFrom(k[..len], t) == HashFrom(k[12..][..len - 12], Mix(Triple(Add(t.a, Read32(k, 0)), Add(t.b, Read32(k, 4)), Add(t.c, Read32(k, 8)))))
  {
    WordCases(k, len, 0);
    WordCases(k, len, 4);
    WordCases(k, len, 8);
    var key := k[..len];
    assert HashFrom(key, t) == HashFrom(key[12..], Mix(AddWords(t, key)));
    hide HashFrom, Add, Word, Mix, WordAt;
    assert key[12..] == k[12..][..len - 12];
  }

  lemma LastBlock(k: Bytes, len: nat, t: Triple)
    requires len <= 12 && len <= |k|
    ensures HashFrom(k[..len], t) == if len == 0 then t else Final(AddWords(t, k[..len]))
  {}

  /** The 32-bit path. It may read to the end of the word the key ends in. */
  method Path32(mem: Bytes, length: nat, t: Triple) returns (r: Triple)
    requires (length + 3) / 4 * 4 <= |mem|
    ensures r == HashFrom(mem[..length], t)
  {
    hide HashFrom, Add, Word, WordAt, Mix, Final;
    var k, len: nat := mem, length;
    r := t;
    while len > 12
      invariant (len + 3) / 4 * 4 <= |k|
      invariant HashFrom(k[..len], r) == HashFrom(mem[..length], t)
    {
      BlockStep(k, len, r);
      r := Mix(Triple(Add(r.a, Read32(k, 0)), Add(r.b, Read32(k, 4)), Add(r.c, Read32(k, 8))));
      len := len - 12;
      k := k[12..];
    }
    LastBlock(k, len, r);
    if len == 0 { return; }
    r := Last32(k, len, r);
    r := Final(r);
  }

  /** The 16-bit path. */
  method Path16(mem: Bytes, length: nat, t: Triple) returns (r: Triple)
    requires length <= |mem|
    ensures r == HashFrom(mem[..length], t)
  {
    hide HashFrom, Add, Word, WordAt, Mix, Final, Half, Shl;
    var k, len: nat := mem, length;
    r := t;
    while len > 12
      invariant len <= |k|
      invariant HashFrom(k[..len], r) == HashFrom(mem[..length], t)
    {
      BlockStep(k, len, r);
      TwoHalves(k[0], k[1], k[2], k[3]);
      TwoHalves(k[4], k[5], k[6], k[7]);
      TwoHalves(k[8], k[9], k[10], k[11]);
      var a := Add(r.a, Add(Read16(k, 0), Shl(Read16(k, 2), 16)));
      var b := Add(r.b, Add(Read16(k, 4), Shl(Read16(k, 6), 16)));
      var c := Add(r.c, Add(Read16(k, 8), Shl(Read16(k, 10), 16)));
      r := Mix(Triple(a, b, c));
      len := len - 12;
      k := k[12..];
    }
    LastBlock(k, len, r);
    if len == 0 { return; }
    r := Last16(k, len, r);
    r := Final(r);
  }

  /** Four bytes added one after the other. */
  method AddByBytes(k: Bytes, i: nat, x: bv32) returns (r: bv32)
    requires i + 4 <= |k|
    ensures r == Add(x, Read32(k, i))
  {
    AddFour(x, Wide(k[i]), Shl(Wide(k[i + 1]), 8), Shl(Wide(k[i + 2]), 16), Shl(Wide(k[i + 3]), 24));
    hide Add, Shl, Wide;
    r := Add(x, Wide(k[i]));
    r := Add(r, Shl(Wide(k[i + 1]), 8));
    r := Add(r, Shl(Wide(k[i + 2]), 16));
    r := Add(r, Shl(Wide(k[i + 3]), 24));
  }

  /** The path for keys at any address. */
  method Path8(mem: Bytes, length: nat, t: Triple) returns (r: Triple)
    requires length <= |mem|
    ensures r == HashFrom(mem[..length], t)
  {
    hide HashFrom, Add, Word, WordAt, Mix, Final;
    var k, len: nat := mem, length;
    r := t;
    while len > 12
      invariant len <= |k|
      invariant HashFrom(k[..len], r) == HashFrom(mem[..length], t)
    {
      BlockStep(k, len, r);
      var a := AddByBytes(k, 0, r.a);
      var b := AddByBytes(k, 4, r.b);
      var c := AddByBytes(k, 8, r.c);
      r := Mix(Triple(a, b, c));
      len := len - 12;
      k := k[12..];
    }
    LastBlock(k, len, r);
    if len == 0 { return; }
    r := Last8(k, len, r);
    r := Final(r);
  }

  /** What may be read of the memory a key stands at: with the key at an address that is a
      multiple of four, the whole of the word it ends in. */
  ghost predicate Readable(mem: Bytes, length: nat, addr: nat, little: bool) {
    length <= |mem| && (little && addr % 4 == 0 ==> (length + 3) / 4 * 4 <= |mem|)
  }

  /** The choice of path, by the byte order of the machine and the address of the key. */
  method AnyPath(mem: Bytes, length: nat, addr: nat, little: bool, t: Triple) returns (r: Triple)
    requires Readable(mem, length, addr, little)
    ensures r == HashFrom(mem[..length], t)
  {
    if little && addr % 4 == 0 {
      r := Path32(mem, length, t);
    } else if little && addr % 2 == 0 {
      r := Path16(mem, length, t);
    } else {
      r := Path8(mem, length, t);
    }
  }

  /** hashlittle: one value per key and seed, at every address, on every machine, and
      whatever stands behind the key. */
  method HashLittle(mem: Bytes, length: nat, initval: bv32, addr: nat, little: bool) returns (h: bv32)
    requires Readable(mem, length, addr, little)
    ensures h == Hash(mem[..length], initval)
  {
    hide HashFrom;
    var x := Add(Add(0xdeadbeef, (length % 0x1_0000_0000) as bv32), initval);
    AddZero(x);
    assert |mem[..length]| == length && Start(length, initval, 0) == Triple(x, x, x);
    hide Add, Start;
    var r := AnyPath(mem, length, addr, little, Triple(x, x, x));
    h := r.c;
  }

  /** hashlittle2: two seeds and two values. */
  method HashLittle2(mem: Bytes, length: nat, pc: bv32, pb: bv32, addr: nat, little: bool) returns (pc': bv32, pb': bv32)
    requires Readable(mem, length, addr, little)
    ensures (pc', pb') == Hash2(mem[..length], pc, pb)
    ensures pb == 0 ==> pc' == Hash(mem[..length], pc)
  {
    var x := Add(Add(0xdeadbeef, (length % 0x1_0000_0000) as bv32), pc);
    assert |mem[..length]| == length && Start(length, pc, pb) == Triple(x, x, Add(x, pb));
    hide HashFrom, Add, Start;
    var r := AnyPath(mem, length, addr, little, Triple(x, x, Add(x, pb)));
    pc', pb' := r.c, r.b;
  }

  // ----- arrays of words

  lemma WordShift(bs: Bytes, i: nat)
    requires 4 <= i && |bs| >= 4
    ensures WordAt(bs, i) == WordAt(bs[4..], i - 4)
  {
    hide Word;
  }

  lemma {:induction false} WordInBytes(ws: seq<bv32>, i: nat)
    requires i < |ws|
    ensures WordAt(AllBytes(ws), 4 * i) == ws[i]
    ensures AllBytes(ws)[4 * i..] == AllBytes(ws[i..])
  {
    if i == 0 {
      WordOfBytes(ws[0]);
      var bs := AllBytes(ws);
      assert forall j: nat | j < 4 :: bs[j] == WordBytes(ws[0])[j];
      hide Word, WordBytes;
    } else {
      WordInBytes(ws[1..], i - 1);
      hide Word, WordBytes;
      var bs := AllBytes(ws);
      assert bs[4..] == AllBytes(ws[1..]);
      WordShift(bs, 4 * i);
      assert bs[4 * i..] == bs[4..][4 * (i - 1)..];
    }
  }

  lemma WordsStep(ws: seq<bv32>, t: Triple)
    requires |ws| > 3
    ensures HashFrom(AllBytes(ws), t) == HashFrom(AllBytes(ws[3..]), Mix(Triple(Add(t.a, ws[0]), Add(t.b, ws[1]), Add(t.c, ws[2]))))
  {
    WordInBytes(ws, 0);
    WordInBytes(ws, 1);
    WordInBytes(ws, 2);
    WordInBytes(ws, 3);
    hide Add, Mix, WordAt, AllBytes;
  }

  lemma WordsLast(ws: seq<bv32>, t: Triple)
    requires |ws| <= 3
    ensures HashFrom(AllBytes(ws), t) == if |ws| == 0 then t else
      Final(Triple(Add(t.a, ws[0]), if |ws| >= 2 then Add(t.b, ws[1]) else t.b, if |ws| == 3 then Add(t.c, ws[2]) else t.c))
  {
    var bs := AllBytes(ws);
    if |ws| > 0 { WordInBytes(ws, 0); }
    if |ws| > 1 { WordInBytes(ws, 1); }
    if |ws| > 2 { WordInBytes(ws, 2); }
    assert bs[..|bs|] == bs;
    WordCases(bs, |bs|, 4);
    WordCases(bs, |bs|, 8);
    AddZero(t.b);
    AddZero(t.c);
    hide Add, Final, WordAt, AllBytes, Word;
  }

  lemma FourTimes(n: nat)
    ensures (n % 0x1_0000_0000) * 4 % 0x1_0000_0000 == (4 * n) % 0x1_0000_0000
  {
    var m := (n % 0x1_0000_0000) * 4;
    DivModUnique(4 * n, 0x1_0000_0000, 4 * (n / 0x1_0000_0000) + m / 0x1_0000_0000, m % 0x1_0000_0000);
  }

  /** hashword: on an array of words, the same as hashlittle on their bytes. */
  method HashWord(ws: seq<bv32>, initval: bv32) returns (h: bv32)
    ensures h == Hash(AllBytes(ws), initval)
  {
    hide HashFrom, Mix, Final, AllBytes;
    FourTimes(|ws|);
    var x := Add(Add(0xdeadbeef, ((|ws| % 0x1_0000_0000) * 4 % 0x1_0000_0000) as bv32), initval);
    AddZero(x);
    var k, t := ws, Triple(x, x, x);
    assert Start(4 * |ws|, initval, 0) == t;
    assert Hash(AllBytes(ws), initval) == HashFrom(AllBytes(ws), t).c;
    hide Add, Start, Hash, Hash2;
    while |k| > 3
      invariant HashFrom(AllBytes(k), t) == HashFrom(AllBytes(ws), Triple(x, x, x))
    {
      WordsStep(k, t);
      t := Mix(Triple(Add(t.a, k[0]), Add(t.b, k[1]), Add(t.c, k[2])));
      k := k[3..];
    }
    WordsLast(k, t);
    var a, b, c := t.a, t.b, t.c;
    if |k| >= 3 { c := Add(c, k[2]); }
    if |k| >= 2 { b := Add(b, k[1]); }
    if |k| >= 1 {
      a := Add(a, k[0]);
      c := Final(Triple(a, b, c)).c;
    }
    h := c;
  }
}
