/** The append-only string store behind atoms (the allocation half of
    src/StringTable/StringTable_cbits.c). */
module StringArena {
  import opened Common

  newtype byte = x: int | 0 <= x < 256

  type Bytes = seq<byte>

  const NUM_CHUNKS := 256
  const CHUNK_SIZE := 16384
  const MAX_ENTRY_SIZE := 256

  /** CHUNK_INDEX, CHUNK_OFFSET and MAKE_ATOM: eight bits of chunk below fourteen of offset. */
  function ChunkIndex(a: nat): nat { a % 256 }

  function ChunkOffset(a: nat): nat { (a / 256) % 16384 }

  function MakeAtom(ci: nat, co: nat): nat { ci % 256 + 256 * (co % 16384) }

  /** Within the bounds the store keeps, an atom names exactly one place, and only the
      first byte of the first chunk has the number of the empty atom. */
  lemma AtomNamesPlace(ci: nat, co: nat)
    requires ci < NUM_CHUNKS && co < CHUNK_SIZE
    ensures ChunkIndex(MakeAtom(ci, co)) == ci && ChunkOffset(MakeAtom(ci, co)) == co
    ensures MakeAtom(ci, co) < 0x40_0000
    ensures MakeAtom(ci, co) == 0 <==> ci == 0 && co == 0
  {
    var a := MakeAtom(ci, co);
    assert a == ci + 256 * co;
    assert a / 256 == co && a % 256 == ci;
  }

  /** What the length byte leaves of a string. */
  function Stored(cs: Bytes): (s: Bytes)
    ensures |s| <= |cs|
  {
    cs[..|cs| % 256]
  }

  /** Callers let strings of up to 256 bytes through; those of 256 bytes, and only those,
      are stored with length zero and cannot be read back. */
  lemma ReadBackIffLengthFits(cs: Bytes)
    requires |cs| <= MAX_ENTRY_SIZE
    ensures Stored(cs) == cs <==> |cs| < MAX_ENTRY_SIZE
  {}

  /** How many chunks there are, and next_free_offset. */
  datatype Place = Place(chunks: nat, nextFree: nat)

  /** The current chunk may be too short for another string. */
  predicate Short(p: Place) { p.nextFree + 1 > CHUNK_SIZE - MAX_ENTRY_SIZE }

  /** Another string needs a chunk, and there are no more chunks. */
  predicate Full(p: Place) { Short(p) && p.chunks == NUM_CHUNKS }

  /** A chunk is left exactly when a length byte and 256 bytes no longer fit its 16384, and the
      store is full exactly when that is so of the 256th. Otherwise a string stands right
      behind the one before it, and the first one at the start of its chunk. */
  lemma LeftIff(p: Place, cs: Bytes)
    requires p.nextFree <= CHUNK_SIZE
    ensures Full(p) <==> p.chunks == 256 && 16384 - p.nextFree < 1 + 256
    ensures After(p, cs) == if 16384 - p.nextFree < 1 + 256 then Place(p.chunks + 1, 1 + |cs|) else Place(p.chunks, p.nextFree + 1 + |cs|)
    ensures 0 < p.chunks <= 256 && !Full(p) ==>
      ChunkIndex(AtomAt(p)) == After(p, cs).chunks - 1 && ChunkOffset(AtomAt(p)) + 1 + |cs| == After(p, cs).nextFree
  {
    if 0 < p.chunks <= 256 && !Full(p) {
      AtomNamesPlace(Roomy(p).chunks - 1, Roomy(p).nextFree);
    }
  }

  /** Where the next string goes, its atom, and what is free behind it. */
  function Roomy(p: Place): Place { if Short(p) then Place(p.chunks + 1, 0) else p }

  function AtomAt(p: Place): nat { MakeAtom(if Roomy(p).chunks == 0 then 0 else Roomy(p).chunks - 1, Roomy(p).nextFree) }

  function After(p: Place, cs: Bytes): Place { Place(Roomy(p).chunks, Roomy(p).nextFree + |cs| + 1) }

  /** The length byte and the bytes of `s` stand at offset `o`. */
  predicate Stands(chunk: seq<byte>, o: nat, s: Bytes) {
    o + 1 + |s| <= |chunk| && chunk[o] as int == |s| && chunk[o + 1..o + 1 + |s|] == s
  }

  lemma StandsStill(chunk: seq<byte>, chunk': seq<byte>, o: nat, s: Bytes)
    requires Stands(chunk, o, s) && |chunk'| == |chunk| && forall k | o <= k < o + 1 + |s| :: chunk'[k] == chunk[k]
    ensures Stands(chunk', o, s)
  {
    assert chunk'[o + 1..o + 1 + |s|] == chunk[o + 1..o + 1 + |s|];
  }

  lemma StandsNow(chunk: seq<byte>, o: nat, cs: Bytes)
    requires o + 1 + |cs| <= |chunk| && chunk[o] as int == |cs| % 256 && chunk[o + 1..o + 1 + |cs|] == cs
    ensures Stands(chunk, o, Stored(cs))
  {
    assert chunk[o + 1..o + 1 + |cs| % 256] == chunk[o + 1..o + 1 + |cs|][..|cs| % 256];
  }

  class Arena {
    /** stringtable_chunks up to current_chunk, and next_free_offset. */
    var chunks: seq<array<byte>>
    var nextFree: nat
    /** Every atom issued so far, with the bytes it stands for. */
    ghost var text: map<nat, Bytes>

    /** The end of the part of chunk `c` already given out. */
    ghost function End(c: nat): nat
      reads this
    {
      if c + 1 == |chunks| then nextFree else CHUNK_SIZE
    }

    /** The bytes of `s`, length first, stand where atom `a` points. */
    ghost predicate Holds(a: nat, s: Bytes)
      requires forall c | 0 <= c < |chunks| :: chunks[c].Length == CHUNK_SIZE
      reads this, chunks
    {
      var c, o := ChunkIndex(a), ChunkOffset(a);
      && 0 < a < 0x40_0000
      && c < |chunks| && o + 1 + |s| <= End(c) <= CHUNK_SIZE
      && Stands(chunks[c][..], o, s)
    }

    ghost predicate Shape()
      reads this`chunks, this`nextFree, chunks
    {
      && 0 < |chunks| <= NUM_CHUNKS
      && (forall c | 0 <= c < |chunks| :: chunks[c].Length == CHUNK_SIZE)
      && (forall c, d | 0 <= c < d < |chunks| :: chunks[c] != chunks[d])
      && nextFree <= CHUNK_SIZE
      && (|chunks| == 1 ==> nextFree > 0)
      && chunks[0][0] == 0
    }

    ghost predicate Valid()
      reads this, chunks
    {
      Shape() && forall a | a in text :: Holds(a, text[a])
    }

    ghost predicate Known(a: nat)
      reads this
    {
      a == 0 || a in text
    }

    /** The bytes an atom stands for. */
    ghost function TextOf(a: nat): Bytes
      requires Known(a)
      reads this
    {
      if a == 0 then [] else text[a]
    }

    constructor ()
      ensures Valid() && text == map[] && fresh(chunks)
    {
      var first := new byte[CHUNK_SIZE](_ => 0);
      chunks := [first];
      nextFree := 1;
      text := map[];
    }

    /** stringtable_find: ATOM_LEN bytes from ATOM_PTR + 1. */
    method Find(a: nat) returns (s: Bytes)
      requires Valid() && Known(a)
      ensures s == TextOf(a)
    {
      assert a != 0 ==> Holds(a, text[a]);
      var chunk, o := chunks[ChunkIndex(a)], ChunkOffset(a);
      var len := chunk[o] as int;
      s := chunk[o + 1..o + 1 + len];
    }

    function Where(): Place
      reads this
    {
      Place(|chunks|, nextFree)
    }

    /** The first half of add_string: a new chunk when the current one may be too short. */
    method MakeRoom() returns (ok: bool)
      requires Valid()
      modifies this
      ensures ok ==> Valid() && nextFree + 1 + MAX_ENTRY_SIZE <= CHUNK_SIZE && text == old(text)
      ensures ok ==> chunks == old(chunks) || (|chunks| == old(|chunks|) + 1 && chunks[..old(|chunks|)] == old(chunks) && fresh(chunks[old(|chunks|)]))
      ensures ok ==> Where() == Roomy(old(Where()))
      ensures !ok <==> Full(old(Where()))
    {
      if nextFree + 1 > CHUNK_SIZE - MAX_ENTRY_SIZE {
        if |chunks| - 1 >= NUM_CHUNKS - 1 { return false; }
        AddChunk();
      }
      ok := true;
    }

    /** A fresh chunk becomes the current one; what the old ones hold stays readable. */
    method AddChunk()
      requires Valid() && |chunks| < NUM_CHUNKS
      modifies this
      ensures Valid() && text == old(text) && nextFree == 0
      ensures |chunks| == old(|chunks|) + 1 && chunks[..old(|chunks|)] == old(chunks) && fresh(chunks[old(|chunks|)])
    {
      var chunk := new byte[CHUNK_SIZE];
      ghost var was := chunks;
      chunks := chunks + [chunk];
      nextFree := 0;
      assert forall c | 0 <= c < |was| :: chunks[c] == was[c] && was[c] != chunk && was[c].Length == CHUNK_SIZE;
      assert chunks[|was|] == chunk;
      assert Shape();
      forall a | a in text
        ensures Holds(a, text[a])
      {
        hide ChunkIndex, ChunkOffset, Shape, Stands;
        assert old(Holds(a, text[a]));
      }
    }

    /** add_string: the length byte and the bytes go to the next free place. */
    method AddString(cs: Bytes) returns (r: Option<nat>)
      requires Valid() && |cs| <= MAX_ENTRY_SIZE
      modifies this, chunks
      ensures r.Some? ==> Valid() && r.value > 0 && r.value !in old(text) && text == old(text)[r.value := Stored(cs)]
      ensures r.Some? ==> r.value == AtomAt(old(Where())) && Where() == After(old(Where()), cs)
      ensures r.None? <==> Full(old(Where()))
      ensures r.Some? ==> forall c | c in chunks :: c in old(chunks) || fresh(c)
    {
      hide Shape, Holds, MakeAtom, Stored;
      ShapeIs();
      var ok := MakeRoom();
      if !ok { return None; }
      ShapeIs();
      var a := Append(cs);
      r := Some(a);
    }

    /** The second half of add_string. */
    method Append(cs: Bytes) returns (a: nat)
      requires Valid() && |cs| <= MAX_ENTRY_SIZE && nextFree + 1 + MAX_ENTRY_SIZE <= CHUNK_SIZE
      modifies this, chunks
      ensures Valid() && chunks == old(chunks) && nextFree == old(nextFree) + |cs| + 1
      ensures a == MakeAtom(|chunks| - 1, old(nextFree))
      ensures a > 0 && a !in old(text) && text == old(text)[a := Stored(cs)]
    {
      hide MakeAtom, ChunkIndex, ChunkOffset, Stored, Stands, Shape;
      var ci, co := |chunks| - 1, nextFree;
      ShapeIs();
      AtomNamesPlace(ci, co);
      a := MakeAtom(ci, co);
      Fill(cs);
      ShapeIs();
      assert Holds(a, Stored(cs)) && a !in text;
      text := text[a := Stored(cs)];
    }

    lemma ShapeIs()
      requires Shape()
      ensures 0 < |chunks| <= NUM_CHUNKS && (|chunks| == 1 ==> nextFree > 0) && nextFree <= CHUNK_SIZE
      ensures forall c | 0 <= c < |chunks| :: chunks[c].Length == CHUNK_SIZE
    {}

    /** The bytes are written, and everything that stood before stands still, below them. */
    method Fill(cs: Bytes)
      requires Valid() && |cs| <= MAX_ENTRY_SIZE && nextFree + 1 + MAX_ENTRY_SIZE <= CHUNK_SIZE
      modifies this`nextFree, chunks
      ensures Valid() && nextFree == old(nextFree) + |cs| + 1
      ensures Stands(chunks[|chunks| - 1][..], old(nextFree), Stored(cs))
      ensures forall a | a in text :: ChunkIndex(a) < |chunks| - 1 || ChunkOffset(a) < old(nextFree)
    {
      hide ChunkIndex, ChunkOffset, Stored, Stands;
      var chunk, co := chunks[|chunks| - 1], nextFree;
      WriteString(chunk, co, cs);
      nextFree := co + |cs| + 1;
      StandsNow(chunk[..], co, cs);
      forall b | b in text
        ensures Holds(b, text[b]) && (ChunkIndex(b) < |chunks| - 1 || ChunkOffset(b) < co)
      {
        var c, o := ChunkIndex(b), ChunkOffset(b);
        assert old(Holds(b, text[b]));
        StandsStill(old(chunks[c][..]), chunks[c][..], o, text[b]);
      }
    }
  }

  /** The length byte, cut to eight bits, then the bytes; everything else stays. */
  method WriteString(chunk: array<byte>, co: nat, cs: Bytes)
    requires co + 1 + |cs| <= chunk.Length
    modifies chunk
    ensures chunk[co] as int == |cs| % 256
    ensures chunk[co + 1..co + 1 + |cs|] == cs
    ensures forall k | 0 <= k < chunk.Length && !(co <= k < co + 1 + |cs|) :: chunk[k] == old(chunk[k])
  {
    chunk[co] := (|cs| % 256) as byte;
    forall k | 0 <= k < |cs| {
      chunk[co + 1 + k] := cs[k];
    }
  }
}
