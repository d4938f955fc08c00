/** The geometry of a slab block: the entry count and the colour that new_cache
    computes (rts/rts/gc_jgc.c), and the address arithmetic of S_BLOCK and of
    s_set_used_bit. Sizes and offsets are in words of eight bytes; the header is
    that of `struct s_block` on a 64-bit machine. */
module SlabLayout {
  import opened Bits
  import opened Bitmap
  import opened Powers
  import opened BitValues

  const WORD_BYTES: nat := 8
  const BLOCK_BYTES: nat := 4096
  const HEADER_BYTES: nat := 24
  /** The largest objects of which two fit in a block: see TwoEntriesIff. */
  const MAX_SIZE: nat := 169

  /** `num_entries` for a block of `block` bytes with a header of `header` bytes
      and entries of `size` words. */
  function NumEntriesOf(block: nat, header: nat, size: nat): int
    requires header <= block
  {
    (8 * (block - header)) / (8 * WORD_BYTES * size + 1) - 1
  }

  /** `color`: the offset in words of the first entry. */
  function ColorOf(header: nat, entries: nat): nat {
    (header + WORD_BYTES * Units(entries) + WORD_BYTES - 1) / WORD_BYTES
  }

  function NumEntries(size: nat): int { NumEntriesOf(BLOCK_BYTES, HEADER_BYTES, size) }

  function Color(size: nat): int { ColorOf(HEADER_BYTES, if NumEntries(size) < 0 then 0 else NumEntries(size)) }

  lemma DivisorBound(a: nat, d: nat)
    requires d > 0
    ensures (a / d) * d <= a
  {}

  /** For every block size, header size and entry size, header, bitmap and all
      entries fit in the block, whenever there is room for at least one entry. */
  lemma EntriesFit(block: nat, header: nat, size: nat)
    requires header <= block && header % WORD_BYTES == 0
    requires 1 <= size && NumEntriesOf(block, header, size) >= 1
    ensures var n := NumEntriesOf(block, header, size);
            header + WORD_BYTES * Units(n) <= WORD_BYTES * ColorOf(header, n)
    ensures var n := NumEntriesOf(block, header, size);
            WORD_BYTES * (ColorOf(header, n) + n * size) <= block
  {
    var n := NumEntriesOf(block, header, size);
    var bits := 8 * (block - header);
    DivisorBound(bits, 64 * size + 1);
    assert (n + 1) * (64 * size + 1) == 64 * (n * size) + n + 64 * size + 1;
    assert header == 8 * (header / 8);
  }

  /** And for every block, header and entry size as many entries as the estimate allows: a
      bitmap bit and the words of one entry more than the entry count would still have room
      behind the header, those of two more would not. */
  lemma BlockUsed(block: nat, header: nat, size: nat)
    requires header <= block && 1 <= size
    ensures var n := NumEntriesOf(block, header, size);
            (n + 1) * (8 * WORD_BYTES * size + 1) <= 8 * (block - header) < (n + 2) * (8 * WORD_BYTES * size + 1)
  {
    var bits, d, q := 8 * (block - header), 8 * WORD_BYTES * size + 1, NumEntriesOf(block, header, size) + 1;
    assert q == bits / d && bits == q * d + bits % d;
    Distributes(q, 1, d);
  }

  /** Nor is room wasted between header, bitmap and entries: the offset of the first entry is
      the first word behind the bitmap, which has the fewest units with a bit an entry. */
  lemma OffsetTight(header: nat, entries: nat)
    ensures header + WORD_BYTES * Units(entries) <= WORD_BYTES * ColorOf(header, entries) < header + WORD_BYTES * Units(entries) + WORD_BYTES
    ensures entries <= 64 * Units(entries) < entries + 64
  {}

  // ----- addresses

  /** The address, in words, of word `j` of entry `i` in the block at page `page`. */
  function WordOf(block: nat, page: nat, color: nat, size: nat, i: nat, j: nat): nat {
    page * (block / WORD_BYTES) + color + i * size + j
  }

  function EntryWord(page: nat, color: nat, size: nat, i: nat, j: nat): nat {
    WordOf(BLOCK_BYTES, page, color, size, i, j)
  }

  /** The block an address lies in. That S_BLOCK computes it is SBlockIsPage. */
  function PageOf(block: nat, a: nat): nat
    requires block >= WORD_BYTES
  {
    a / (block / WORD_BYTES)
  }

  /** The entry number s_set_used_bit computes: `offset / size`. */
  function IndexOf(block: nat, a: int, color: nat, size: nat): int
    requires size > 0 && block >= WORD_BYTES
  {
    (a % (block / WORD_BYTES) - color) / size
  }

  lemma EntryInside(size: nat, n: nat, i: nat, j: nat)
    requires i < n && j < size
    ensures i * size + j < n * size
  {
    MulMono(i + 1, n, size);
  }

  /** For every block size, header and entry size: each word of each entry lies in its
      block, and the block and the entry number are recovered from its address. */
  lemma AddressRecovered(block: nat, header: nat, page: nat, size: nat, i: nat, j: nat)
    requires header <= block && block % WORD_BYTES == 0 && header % WORD_BYTES == 0
    requires 1 <= size && NumEntriesOf(block, header, size) >= 1
    requires i < NumEntriesOf(block, header, size) && j < size
    ensures block >= WORD_BYTES
    ensures var color := ColorOf(header, NumEntriesOf(block, header, size));
            var a := WordOf(block, page, color, size, i, j);
            PageOf(block, a) == page && IndexOf(block, a, color, size) == i
  {
    var n := NumEntriesOf(block, header, size);
    var color := ColorOf(header, n);
    EntriesFit(block, header, size);
    hide NumEntriesOf, ColorOf;
    MulMono(1, n, size);
    assert block == WORD_BYTES * (block / WORD_BYTES);
    Recovered(block / WORD_BYTES, page, color, size, n, i, j);
  }

  lemma Recovered(words: nat, page: nat, color: nat, size: nat, n: nat, i: nat, j: nat)
    requires color + n * size <= words && i < n && j < size
    ensures var a := page * words + color + i * size + j;
            words > 0 && a / words == page && (a % words - color) / size == i
  {
    EntryInside(size, n, i, j);
    DivModUnique(page * words + color + i * size + j, words, page, color + i * size + j);
    DivModUnique(i * size + j, size, i, j);
  }

  /** `val` is the first word of entry `i`: block and entry can be read back from it. */
  predicate AddressOf(val: nat, page: nat, color: nat, size: nat, i: nat) {
    && PageOf(BLOCK_BYTES, val) == page
    && val % (BLOCK_BYTES / WORD_BYTES) == color + i * size
    && (size > 0 ==> IndexOf(BLOCK_BYTES, val, color, size) == i)
  }

  /** The address s_alloc returns: `(uintptr_t *)pg + pg->color + found * pg->u.pi.size`. */
  method EntryAddress(page: nat, color: nat, size: nat, found: nat) returns (val: nat)
    requires 1 <= size && NumEntries(size) >= 1 && color == Color(size) && found < NumEntries(size)
    ensures AddressOf(val, page, color, size, found)
  {
    val := page * (BLOCK_BYTES / WORD_BYTES) + color + found * size;
    AddressRecovered(BLOCK_BYTES, HEADER_BYTES, page, size, found, 0);
    EntriesFit(BLOCK_BYTES, HEADER_BYTES, size);
    EntryInside(size, NumEntries(size), found, 0);
    hide NumEntriesOf, ColorOf;
    assert val == EntryWord(page, color, size, found, 0);
    DivModUnique(val, BLOCK_BYTES / WORD_BYTES, page, color + found * size);
  }

  /** S_BLOCK: on the address in bytes of any word of any entry, masking with
      `~(BLOCK_SIZE - 1)` gives the address of the block, for every block size that is a
      power of two. */
  lemma SBlockIsPage(shift: nat, header: nat, page: nat, size: nat, i: nat, j: nat, val: bv64)
    requires shift < 64 && header <= Pow(2, shift) && Pow(2, shift) % WORD_BYTES == 0 && header % WORD_BYTES == 0
    requires 1 <= size && NumEntriesOf(Pow(2, shift), header, size) >= 1
    requires i < NumEntriesOf(Pow(2, shift), header, size) && j < size
    requires var block := Pow(2, shift);
             Number(val) == WORD_BYTES * WordOf(block, page, ColorOf(header, NumEntriesOf(block, header, size)), size, i, j)
    ensures Number(And(val, Not(Below(shift)))) == page * Pow(2, shift)
  {
    var block := Pow(2, shift);
    var n := NumEntriesOf(block, header, size);
    var color := ColorOf(header, n);
    EntriesFit(block, header, size);
    EntryInside(size, n, i, j);
    hide NumEntriesOf, ColorOf;
    MaskDropsRemainder(val, shift);
    hide And, Not, Below, Pow, LowNumber, WordOf;
    PageBytes(block, page, color, size, n, i, j);
  }

  lemma PageBytes(block: nat, page: nat, color: nat, size: nat, n: nat, i: nat, j: nat)
    requires block % WORD_BYTES == 0 && WORD_BYTES * (color + n * size) <= block && i < n && j < size
    ensures block > 0 && WORD_BYTES * WordOf(block, page, color, size, i, j) / block * block == page * block
  {
    EntryInside(size, n, i, j);
    var w, x := block / WORD_BYTES, color + i * size + j;
    assert block == 8 * w;
    assert page * (8 * w) == 8 * (page * w);
    DivModUnique(8 * (page * w + x), block, page, 8 * x);
  }

  /** Two different entries share no word, whatever the block size. */
  lemma EntriesDisjoint(block: nat, header: nat, page: nat, i: nat, j: nat, size: nat, page': nat, i': nat, j': nat, size': nat)
    requires header <= block && block % WORD_BYTES == 0 && header % WORD_BYTES == 0
    requires 1 <= size && i < NumEntriesOf(block, header, size) && j < size
    requires 1 <= size' && i' < NumEntriesOf(block, header, size') && j' < size'
    requires page == page' ==> size == size'
    requires WordOf(block, page, ColorOf(header, NumEntriesOf(block, header, size)), size, i, j)
          == WordOf(block, page', ColorOf(header, NumEntriesOf(block, header, size')), size', i', j')
    ensures page == page' && i == i' && j == j'
  {
    AddressRecovered(block, header, page, size, i, j);
    AddressRecovered(block, header, page', size', i', j');
    hide NumEntriesOf, ColorOf, PageOf, IndexOf;
  }

  /** For every size up to the largest, a block holds at least two entries, at most 500,
      and never a multiple of the bitmap unit; colour, size and entry count fit the fields
      that store them. */
  lemma GoodGeometry(size: nat)
    requires 1 <= size <= MAX_SIZE
    ensures 2 <= NumEntries(size) <= 500
    ensures NumEntries(size) % 64 != 0
    ensures Color(size) <= 11 < 256
  {
    if size < 8 {
      assert 32576 / 65 == 501 && 32576 / 129 == 252 && 32576 / 193 == 168 && 32576 / 257 == 126;
      assert 32576 / 321 == 101 && 32576 / 385 == 84 && 32576 / 449 == 72;
    } else {
      QuotientBetween(32576, 64 * size + 1, 3, 64);
    }
  }

  /** Of the sizes the size field can hold, exactly those up to 169 words leave room for
      two entries. */
  lemma TwoEntriesIff(size: nat)
    requires 1 <= size < 256
    ensures NumEntries(size) >= 2 <==> size <= MAX_SIZE
  {
    if size <= MAX_SIZE {
      GoodGeometry(size);
    } else {
      QuotientBetween(32576, 64 * size + 1, 1, 3);
    }
  }

  /** Why two are needed. With one entry, s_alloc leaves the new block in the list of blocks
      with free entries, with the unit `1`, and its next search takes bit 1, which belongs to
      no entry. With none, which is so for 255 words only, already entry 0, which s_alloc
      takes from any new block, is no entry of the block. */
  lemma FewEntriesOverrun(size: nat)
    requires MAX_SIZE < size < 256
    ensures NumEntries(size) == if size < 255 then 1 else 0
    ensures NumEntries(size) == 1 ==> Units(NumEntries(size)) == 1 && FfsNot(1) - 1 == 1 >= NumEntries(size)
  {
    if size < 255 { QuotientBetween(32576, 64 * size + 1, 2, 3); }
    var o := FfsNot(1);
    OneBits(0);
    OneBits(1);
  }

  lemma QuotientBetween(a: nat, d: nat, lo: nat, hi: nat)
    requires d > 0 && lo * d <= a < hi * d
    ensures lo <= a / d < hi
  {
    var q := a / d;
    assert a == q * d + a % d;
    if q < lo {
      MulMono(q + 1, lo, d);
    } else if hi <= q {
      MulMono(hi, q, d);
    }
  }
}
