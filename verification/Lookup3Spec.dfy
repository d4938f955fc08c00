/** The hash of src/cbits/lookup3.c byte by byte, and that its mixing step loses nothing. */
module Lookup3Spec {
  import opened Octets

  /** The internal state. */
  datatype Triple = Triple(a: bv32, b: bv32, c: bv32)

  function Sub(x: bv32, y: bv32): bv32 { x - y }

  function Xor(x: bv32, y: bv32): bv32 { x ^ y }

  // ----- mix

  /** One line of mix: x -= z; x ^= rot(z, k); z += y. */
  function Line(x: bv32, y: bv32, z: bv32, k: nat): (bv32, bv32)
    requires 0 < k < 32
  {
    (Xor(Sub(x, z), Rot(z, k)), Add(z, y))
  }

  function Mix(t: Triple): Triple {
    var (a1, c1) := Line(t.a, t.b, t.c, 4);
    var (b1, a2) := Line(t.b, c1, a1, 6);
    var (c2, b2) := Line(c1, a2, b1, 8);
    var (a3, c3) := Line(a2, b2, c2, 16);
    var (b3, a4) := Line(b2, c3, a3, 19);
    var (c4, b4) := Line(c3, a4, b3, 4);
    Triple(a4, b4, c4)
  }

  /** A line run backwards. */
  function Enil(x: bv32, y: bv32, z: bv32, k: nat): (bv32, bv32)
    requires 0 < k < 32
  {
    var z0 := Sub(z, y);
    (Add(Xor(x, Rot(z0, k)), z0), z0)
  }

  function Unmix(t: Triple): Triple {
    var (c3, b3) := Enil(t.c, t.a, t.b, 4);
    var (b2, a3) := Enil(b3, c3, t.a, 19);
    var (a2, c2) := Enil(a3, b2, c3, 16);
    var (c1, b1) := Enil(c2, a2, b2, 8);
    var (b0, a1) := Enil(b1, c1, a2, 6);
    var (a0, c0) := Enil(a1, b0, c1, 4);
    Triple(a0, b0, c0)
  }

  lemma XorTwice(x: bv32, r: bv32)
    ensures Xor(Xor(x, r), r) == x
  {}

  lemma SubAdd(x: bv32, z: bv32)
    ensures Add(Sub(x, z), z) == x
  {
    calc { Add(Sub(x, z), z); Add(x - z, z); (x - z) + z; x; }
  }

  lemma AddSub(x: bv32, z: bv32)
    ensures Sub(Add(x, z), z) == x
  {
    calc { Sub(Add(x, z), z); Sub(x + z, z); (x + z) - z; x; }
  }

  lemma LineBack(x: bv32, y: bv32, z: bv32, k: nat)
    requires 0 < k < 32
    ensures var (x', z') := Line(x, y, z, k); Enil(x', y, z', k) == (x, z)
  {
    hide Rot, Add, Sub, Xor;
    AddSub(z, y);
    XorTwice(Sub(x, z), Rot(z, k));
    SubAdd(x, z);
  }

  lemma LineForth(x: bv32, y: bv32, z: bv32, k: nat)
    requires 0 < k < 32
    ensures var (x', z') := Enil(x, y, z, k); Line(x', y, z', k) == (x, z)
  {
    hide Rot, Add, Sub, Xor;
    var z0 := Sub(z, y);
    SubAdd(z, y);
    AddSub(Xor(x, Rot(z0, k)), z0);
    XorTwice(x, Rot(z0, k));
  }

  /** mix is a bijection on triples: it has an inverse on both sides. */
  lemma MixBijective(t: Triple)
    ensures Unmix(Mix(t)) == t && Mix(Unmix(t)) == t
  {
    MixBack(t);
    MixForth(t);
  }

  lemma MixBack(t: Triple)
    ensures Unmix(Mix(t)) == t
  {
    hide Line, Enil;
    var (a1, c1) := Line(t.a, t.b, t.c, 4);
    LineBack(t.a, t.b, t.c, 4);
    var (b1, a2) := Line(t.b, c1, a1, 6);
    LineBack(t.b, c1, a1, 6);
    var (c2, b2) := Line(c1, a2, b1, 8);
    LineBack(c1, a2, b1, 8);
    var (a3, c3) := Line(a2, b2, c2, 16);
    LineBack(a2, b2, c2, 16);
    var (b3, a4) := Line(b2, c3, a3, 19);
    LineBack(b2, c3, a3, 19);
    LineBack(c3, a4, b3, 4);
  }

  lemma MixForth(t: Triple)
    ensures Mix(Unmix(t)) == t
  {
    hide Line, Enil;
    var (c3, b3) := Enil(t.c, t.a, t.b, 4);
    LineForth(t.c, t.a, t.b, 4);
    var (b2, a3) := Enil(b3, c3, t.a, 19);
    LineForth(b3, c3, t.a, 19);
    var (a2, c2) := Enil(a3, b2, c3, 16);
    LineForth(a3, b2, c3, 16);
    var (c1, b1) := Enil(c2, a2, b2, 8);
    LineForth(c2, a2, b2, 8);
    var (b0, a1) := Enil(b1, c1, a2, 6);
    LineForth(b1, c1, a2, 6);
    LineForth(a1, b0, c1, 4);
  }

  // ----- final

  /** One line of final: x ^= y; x -= rot(y, k). */
  function FinalLine(x: bv32, y: bv32, k: nat): bv32
    requires 0 < k < 32
  {
    Sub(Xor(x, y), Rot(y, k))
  }

  function Final(t: Triple): Triple {
    var c1 := FinalLine(t.c, t.b, 14);
    var a1 := FinalLine(t.a, c1, 11);
    var b1 := FinalLine(t.b, a1, 25);
    var c2 := FinalLine(c1, b1, 16);
    var a2 := FinalLine(a1, c2, 4);
    var b2 := FinalLine(b1, a2, 14);
    var c3 := FinalLine(c2, b2, 24);
    Triple(a2, b2, c3)
  }

  // ----- the hash of a byte string

  /** Behind the end of the key there is nothing. */
  function ByteAt(key: Bytes, i: nat): byte { if i < |key| then key[i] else 0 }

  function WordAt(key: Bytes, i: nat): bv32 {
    Word(ByteAt(key, i), ByteAt(key, i + 1), ByteAt(key, i + 2), ByteAt(key, i + 3))
  }

  /** The words of a key from `i` on, added to the state. */
  function AddFrom(t: Triple, key: Bytes, i: nat): Triple {
    Triple(Add(t.a, WordAt(key, i)), Add(t.b, WordAt(key, i + 4)), Add(t.c, WordAt(key, i + 8)))
  }

  function AddWords(t: Triple, key: Bytes): Triple { AddFrom(t, key, 0) }

  /** Twelve bytes at a time; the last block, of one to twelve bytes, ends with `final`. */
  function HashFrom(key: Bytes, t: Triple): Triple
    decreases |key|
  {
    if |key| > 12 then HashFrom(key[12..], Mix(AddWords(t, key)))
    else if |key| == 0 then t
    else Final(AddWords(t, key))
  }

  /** The first `n` blocks of twelve bytes, each added and mixed. */
  function BlocksMixed(key: Bytes, t: Triple, n: nat): Triple {
    if n == 0 then t else Mix(AddFrom(BlocksMixed(key, t, n - 1), key, 12 * (n - 1)))
  }

  lemma {:induction false} BlocksBehindFirst(key: Bytes, t: Triple, n: nat)
    requires |key| >= 12
    ensures BlocksMixed(key, t, n + 1) == BlocksMixed(key[12..], Mix(AddWords(t, key)), n)
  {
    hide AddFrom, Mix;
    if n > 0 {
      BlocksBehindFirst(key, t, n - 1);
      SameWords(BlocksMixed(key, t, n), key, 12 * (n - 1));
    }
  }

  lemma SameWords(t: Triple, key: Bytes, i: nat)
    requires |key| >= 12
    ensures AddFrom(t, key[12..], i) == AddFrom(t, key, i + 12)
  {
    hide Word, Add;
  }

  /** All of a key but its last one to twelve bytes is mixed in blocks of twelve; the last
      ones are added and the state goes through `final`. */
  lemma {:induction false} HashOfBlocks(key: Bytes, t: Triple, n: nat)
    requires 12 * n < |key| <= 12 * n + 12
    ensures HashFrom(key, t) == Final(AddFrom(BlocksMixed(key, t, n), key, 12 * n))
  {
    hide HashFrom, AddFrom, AddWords, Mix, Final;
    if n == 0 {
      HashStep(key, t);
    } else {
      HashOfBlocks(key[12..], Mix(AddWords(t, key)), n - 1);
      OneMoreBlock(key, t, n);
    }
  }

  lemma OneMoreBlock(key: Bytes, t: Triple, n: nat)
    requires 0 < 12 * n < |key|
    requires var u, rest := Mix(AddWords(t, key)), key[12..];
      HashFrom(rest, u) == Final(AddFrom(BlocksMixed(rest, u, n - 1), rest, 12 * (n - 1)))
    ensures HashFrom(key, t) == Final(AddFrom(BlocksMixed(key, t, n), key, 12 * n))
  {
    hide *;
    HashStep(key, t);
    BlocksBehindFirst(key, t, n - 1);
    SameWords(BlocksMixed(key, t, n), key, 12 * (n - 1));
  }

  lemma HashStep(key: Bytes, t: Triple)
    requires key != []
    ensures HashFrom(key, t) == if |key| > 12 then HashFrom(key[12..], Mix(AddWords(t, key))) else Final(AddFrom(t, key, 0))
  {
    hide AddFrom, Mix, Final;
  }

  /** The starting state for a length and two seeds; sums are taken modulo 2^32. */
  function Start(length: nat, seed: bv32, seed2: bv32): Triple {
    var x := Add(Add(0xdeadbeef, (length % 0x1_0000_0000) as bv32), seed);
    Triple(x, x, Add(x, seed2))
  }

  /** Both hash values of a key. */
  function Hash2(key: Bytes, seed: bv32, seed2: bv32): (bv32, bv32) {
    var t := HashFrom(key, Start(|key|, seed, seed2));
    (t.c, t.b)
  }

  /** The hash value of a key. */
  function Hash(key: Bytes, seed: bv32): bv32 { Hash2(key, seed, 0).0 }

  // ----- reading a word in pieces

  lemma AddZero(x: bv32)
    ensures Add(x, 0) == x
  {}

  lemma AddAssoc(x: bv32, y: bv32, z: bv32)
    ensures Add(Add(x, y), z) == Add(x, Add(y, z))
  {
    calc { Add(Add(x, y), z); Add(x + y, z); (x + y) + z; x + (y + z); Add(x, y + z); Add(x, Add(y, z)); }
  }

  lemma AddSwap(x: bv32, y: bv32)
    ensures Add(x, y) == Add(y, x)
  {
    calc { Add(x, y); x + y; y + x; Add(y, x); }
  }

  lemma AddFour(a: bv32, w0: bv32, w1: bv32, w2: bv32, w3: bv32)
    ensures Add(Add(Add(Add(a, w0), w1), w2), w3) == Add(a, Add(Add(Add(w0, w1), w2), w3))
  {
    hide Add;
    AddAssoc(a, w0, w1);
    AddAssoc(a, Add(w0, w1), w2);
    AddAssoc(a, Add(Add(w0, w1), w2), w3);
  }

  lemma AddBackwards(a: bv32, w0: bv32, w1: bv32, w2: bv32, w3: bv32)
    ensures Add(Add(Add(Add(a, w3), w2), w1), w0) == Add(a, Add(Add(Add(w0, w1), w2), w3))
  {
    hide Add;
    AddFour(a, w3, w2, w1, w0);
    AddSwap(Add(Add(w3, w2), w1), w0);
    AddSwap(Add(w3, w2), w1);
    AddSwap(w3, w2);
    AddAssoc(w0, w1, Add(w2, w3));
    AddAssoc(Add(w0, w1), w2, w3);
  }

  lemma ZeroByte(n: nat)
    requires n < 32
    ensures Wide(0) == 0 && Shl(0, n) == 0
  {}

  function And(x: bv32, m: bv32): bv32 { x & m }

  /** Masking takes bytes off a word, whatever they were. */
  lemma MaskTakesOff(b0: byte, b1: byte, b2: byte, b3: byte)
    ensures And(Word(b0, b1, b2, b3), 0xffffff) == Word(b0, b1, b2, 0)
    ensures And(Word(b0, b1, b2, b3), 0xffff) == Word(b0, b1, 0, 0)
    ensures And(Word(b0, b1, b2, b3), 0xff) == Word(b0, 0, 0, 0)
  {
    MaskOne(b0, b1, b2, b3);
    MaskTwo(b0, b1, b2, b3);
    MaskThree(b0, b1, b2, b3);
  }

  lemma MaskOne(b0: byte, b1: byte, b2: byte, b3: byte)
    ensures And(Word(b0, b1, b2, b3), 0xffffff) == Word(b0, b1, b2, 0)
  {
    WordWritten(b0, b1, b2, b3);
    WordWritten(b0, b1, b2, 0);
    hide Word;
    calc {
      And(Word(b0, b1, b2, b3), 0xffffff);
      And((b0 as bv32) + ((b1 as bv32) << 8) + ((b2 as bv32) << 16) + ((b3 as bv32) << 24), 0xffffff);
      ((b0 as bv32) + ((b1 as bv32) << 8) + ((b2 as bv32) << 16) + ((b3 as bv32) << 24)) & 0xffffff;
      (b0 as bv32) + ((b1 as bv32) << 8) + ((b2 as bv32) << 16) + ((0 as bv8 as bv32) << 24);
    }
  }

  lemma MaskTwo(b0: byte, b1: byte, b2: byte, b3: byte)
    ensures And(Word(b0, b1, b2, b3), 0xffff) == Word(b0, b1, 0, 0)
  {
    WordWritten(b0, b1, b2, b3);
    WordWritten(b0, b1, 0, 0);
    hide Word;
    calc {
      And(Word(b0, b1, b2, b3), 0xffff);
      And((b0 as bv32) + ((b1 as bv32) << 8) + ((b2 as bv32) << 16) + ((b3 as bv32) << 24), 0xffff);
      ((b0 as bv32) + ((b1 as bv32) << 8) + ((b2 as bv32) << 16) + ((b3 as bv32) << 24)) & 0xffff;
      (b0 as bv32) + ((b1 as bv32) << 8) + ((0 as bv8 as bv32) << 16) + ((0 as bv8 as bv32) << 24);
    }
  }

  lemma MaskThree(b0: byte, b1: byte, b2: byte, b3: byte)
    ensures And(Word(b0, b1, b2, b3), 0xff) == Word(b0, 0, 0, 0)
  {
    WordWritten(b0, b1, b2, b3);
    WordWritten(b0, 0, 0, 0);
    hide Word;
    calc {
      And(Word(b0, b1, b2, b3), 0xff);
      And((b0 as bv32) + ((b1 as bv32) << 8) + ((b2 as bv32) << 16) + ((b3 as bv32) << 24), 0xff);
      ((b0 as bv32) + ((b1 as bv32) << 8) + ((b2 as bv32) << 16) + ((b3 as bv32) << 24)) & 0xff;
      (b0 as bv32) + ((0 as bv8 as bv32) << 8) + ((0 as bv8 as bv32) << 16) + ((0 as bv8 as bv32) << 24);
    }
  }

  /** Two bytes, low byte first. */
  function Half(b0: byte, b1: byte): bv32 { Add(Wide(b0), Shl(Wide(b1), 8)) }

  lemma ShiftedSum(x: bv32, y: bv32)
    ensures (x + y) << 16 == (x << 16) + (y << 16)
  {}

  lemma ShlAdd(x: bv32, y: bv32)
    ensures Shl(Add(x, y), 16) == Add(Shl(x, 16), Shl(y, 16))
  {
    calc {
      Shl(Add(x, y), 16);
      Shl(x + y, 16);
      (x + y) << 16;
      { ShiftedSum(x, y); }
      (x << 16) + (y << 16);
      Add(x << 16, y << 16);
      Add(Shl(x, 16), Shl(y, 16));
    }
  }

  lemma ShlTwice(x: bv32)
    ensures Shl(Shl(x, 8), 16) == Shl(x, 24)
  {
    calc { Shl(Shl(x, 8), 16); Shl(x << 8, 16); (x << 8) << 16; x << 24; Shl(x, 24); }
  }

  lemma TwoHalves(b0: byte, b1: byte, b2: byte, b3: byte)
    ensures Add(Half(b0, b1), Shl(Half(b2, b3), 16)) == Word(b0, b1, b2, b3)
  {
    hide Add, Shl, Wide;
    var h := Half(b0, b1);
    ShlAdd(Wide(b2), Shl(Wide(b3), 8));
    ShlTwice(Wide(b3));
    AddAssoc(h, Shl(Wide(b2), 16), Shl(Wide(b3), 24));
  }

  /** The bytes of an array of words, as a little-endian machine holds them. */
  function AllBytes(ws: seq<bv32>): (b: Bytes)
    ensures |b| == 4 * |ws|
  {
    if ws == [] then [] else WordBytes(ws[0]) + AllBytes(ws[1..])
  }

  lemma WordOfBytes(w: bv32)
    ensures var b := WordBytes(w); Word(b[0], b[1], b[2], b[3]) == w
  {
    WordWritten((w & 0xff) as bv8, ((w >> 8) & 0xff) as bv8, ((w >> 16) & 0xff) as bv8, ((w >> 24) & 0xff) as bv8);
    hide Word;
    calc {
      Word((w & 0xff) as bv8, ((w >> 8) & 0xff) as bv8, ((w >> 16) & 0xff) as bv8, ((w >> 24) & 0xff) as bv8);
      ((w & 0xff) as bv8 as bv32) + ((((w >> 8) & 0xff) as bv8 as bv32) << 8) + ((((w >> 16) & 0xff) as bv8 as bv32) << 16) + ((((w >> 24) & 0xff) as bv8 as bv32) << 24);
      w;
    }
  }
}
