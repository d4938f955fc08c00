/** Bytes and words for the functions that work on bits. */
module Octets {
  type byte = bv8
  type Bytes = seq<byte>

  /** The bytes of a word, low byte first. */
  function WordBytes(w: bv32): (b: Bytes)
    ensures |b| == 4
  {
    [(w & 0xff) as bv8, ((w >> 8) & 0xff) as bv8, ((w >> 16) & 0xff) as bv8, ((w >> 24) & 0xff) as bv8]
  }

  function Add(x: bv32, y: bv32): bv32 { x + y }

  /** x <<< k. */
  function Rot(x: bv32, k: nat): bv32
    requires 0 < k < 32
  {
    (x << k) | (x >> (32 - k))
  }

  function Shl(x: bv32, n: nat): bv32
    requires n < 32
  {
    x << n
  }

  function Wide(b: byte): bv32 { b as bv32 }

  /** Four bytes, low byte first. */
  function Word(b0: byte, b1: byte, b2: byte, b3: byte): bv32 {
    Add(Add(Add(Wide(b0), Shl(Wide(b1), 8)), Shl(Wide(b2), 16)), Shl(Wide(b3), 24))
  }

  /** The bytes of a text in the seven-bit code. */
  function Ascii(s: string): (b: Bytes)
    ensures |b| == |s|
  {
    seq(|s|, i requires 0 <= i < |s| => (s[i] as int % 256) as bv8)
  }

  lemma AsciiAt(s: string, i: nat, n: nat)
    requires i < |s| && s[i] as int == n < 128
    ensures Ascii(s)[i] == n as bv8
  {
    var c := s[i] as int % 256;
    assert c == n;
  }

  lemma WordWritten(b0: byte, b1: byte, b2: byte, b3: byte)
    ensures Word(b0, b1, b2, b3) == (b0 as bv32) + ((b1 as bv32) << 8) + ((b2 as bv32) << 16) + ((b3 as bv32) << 24)
  {
    calc {
      Word(b0, b1, b2, b3);
      Add(Add(Add(Wide(b0), Shl(Wide(b1), 8)), Shl(Wide(b2), 16)), Shl(Wide(b3), 24));
      Add(Add(Add((b0 as bv32), Shl((b1 as bv32), 8)), Shl((b2 as bv32), 16)), Shl((b3 as bv32), 24));
      Add(Add(Add((b0 as bv32), ((b1 as bv32) << 8)), ((b2 as bv32) << 16)), ((b3 as bv32) << 24));
      Add(Add((b0 as bv32) + ((b1 as bv32) << 8), ((b2 as bv32) << 16)), ((b3 as bv32) << 24));
      Add((b0 as bv32) + ((b1 as bv32) << 8) + ((b2 as bv32) << 16), ((b3 as bv32) << 24));
      (b0 as bv32) + ((b1 as bv32) << 8) + ((b2 as bv32) << 16) + ((b3 as bv32) << 24);
    }
  }
}
