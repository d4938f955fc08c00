/** A slab block and its used bits (struct s_block of rts/rts/gc_jgc_internal.h). */
module SlabBlock {
  import opened Bits
  import opened Bitmap
  import opened SlabModel

  class Block {
    const page: nat
    const used: array<bv64>
    var link: Block?
    var color: nat
    var numPtrs: nat
    var size: nat
    var numFree: nat
    var nextFree: nat

    /** A block fresh from a megablock: contents undefined, num_free zero. */
    constructor (page: nat)
      ensures this.page == page && numFree == 0 && link == null
      ensures used.Length == UNITS && fresh(used)
    {
      this.page := page;
      numFree := 0;
      link := null;
      used := new bv64[UNITS];
    }

    /** The header and the bitmap are those of `st`. The padding bits of the last unit
        are set unless the whole bitmap is one unit. */
    ghost predicate Is(st: BlockSt)
      reads this, used
    {
      && used.Length == UNITS
      && color == st.color && numPtrs == st.numPtrs && size == st.size && numFree == st.numFree
      && (st.entries != 0 ==> BitsAre(st))
    }

    ghost predicate BitsAre(st: BlockSt)
      reads this, used
    {
      && GoodEntries(st.entries)
      && nextFree < Units(st.entries)
      && Represents(used[..], st.entries, st.marks)
      && (Units(st.entries) > 1 || st.padded ==> Padded(used[..], st.entries))
    }

    /** Which list the block is in is not recorded in the block. */
    lemma IsRelisted(st: BlockSt, place: Place, link: int)
      ensures Is(st) <==> Is(st.(place := place, link := link))
    {}

    /** clear_block_used_bits */
    method Clear(n: nat, ghost st: BlockSt)
      requires Is(st) && GoodEntries(n) && nextFree < Units(n)
      modifies this`numFree, used
      ensures Is(ClearSt(st, n))
    {
      numFree := n;
      ClearUsedBits(used, n);
      ClearedIffPartialUnit(used[..], n);
    }

    /** The write `pg->used[0] = 1` that s_alloc does on a cleared bitmap. With a single
        unit it also clears the padding bits. */
    method TakeFirst(n: nat, ghost st: BlockSt)
      requires Is(st) && Clean(st) && st.entries == n
      modifies this`numFree, used
      ensures Is(st.(numFree := n - 1, marks := {0}, padded := Units(n) > 1))
    {
      ghost var was := used[..];
      used[0] := 1;
      numFree := n - 1;
      assert used[..] == was[0 := 1];
      TookFirst(was, used[..], n);
    }

    /** s_set_used_bit on entry `k`: true if the bit was clear. */
    method Mark(k: nat, ghost st: BlockSt) returns (newly: bool)
      requires Is(st) && Tracks(st) && k < st.entries
      modifies this`numFree, used
      ensures Is(MarkSt(st, k))
      ensures newly <==> k !in st.marks
    {
      newly := !Get(used[..], k);
      MarkTracks(st, k);
      if newly {
        SetBitAt(used, k);
        numFree := numFree - 1;
      }
    }

    /** The branch of s_alloc that finds a clear bit in a block with free entries:
        the entry was free and is below num_entries. It is the first free one when units are
        tried in cyclic order from where the last search ended. */
    method TakeFree(n: nat, ghost st: BlockSt) returns (found: nat)
      requires Is(st) && Tracks(st) && n == st.entries && st.numFree > 0
      modifies this`numFree, this`nextFree, used
      ensures found < n && found !in st.marks
      ensures Is(MarkSt(st, found))
      ensures nextFree == found / 64 && forall k: nat | k < n && k !in st.marks :: NoLater(found, k, old(nextFree), Units(n))
    {
      SomeClear(used[..], n, st.marks);
      hide Represents, Padded, Clean, NoLater, Distance;
      numFree := numFree - 1;
      ghost var was := used[..];
      var next;
      found, next := FindFree(nextFree, Units(n), used);
      nextFree := next;
      FoundIsEntry(was, n, st.marks, found);
      FoundIsMarked(was, used[..], n, st.marks, found);
      FoundIsFirst(was, n, st.marks, found, old(nextFree));
    }
  }

  // ----- lemmas about the bitmaps of blocks

  /** A block with a free entry has a unit that is not all ones. */
  lemma SomeClear(ba: seq<bv64>, n: nat, s: set<nat>)
    requires Represents(ba, n, s) && |s| < n && Units(n) <= |ba|
    ensures exists i: nat | i < Units(n) :: ba[i] != ALL
  {
    if forall k: nat | k < n :: k in s {
      FullSize(s, n);
    }
    var k: nat :| k < n && k !in s;
    assert !Get(ba, k);
    AllBits(k % 64);
    assert ba[k / 64] != ALL;
  }

  /** The bit the search takes belongs to an entry: with several units because the
      padding is set, with one unit because the lowest clear bit is taken. */
  lemma FoundIsEntry(ba: seq<bv64>, n: nat, s: set<nat>, found: nat)
    requires Represents(ba, n, s) && |s| < n && Units(n) <= |ba|
    requires Units(n) > 1 ==> Padded(ba, n)
    requires found < 64 * Units(n) && !Get(ba, found)
    requires forall k: nat | k < found % 64 :: Bit(ba[found / 64], k)
    ensures found < n && found !in s
  {
    if n <= found && Units(n) == 1 {
      forall k: nat | k < n
        ensures k in s
      {
        assert Get(ba, k);
      }
      FullSize(s, n);
    }
  }

  /** Entry `a` comes before `b`, or is it, in the order of the search from unit `from`. */
  predicate NoLater(a: nat, b: nat, from: nat, units: nat) {
    && a / 64 < units && b / 64 < units && from < units
    && (Distance(a / 64, from, units) < Distance(b / 64, from, units) || (a / 64 == b / 64 && a <= b))
  }

  lemma FoundIsFirst(ba: seq<bv64>, n: nat, s: set<nat>, found: nat, from: nat)
    requires Represents(ba, n, s) && Units(n) <= |ba| && found < n && from < Units(n)
    requires forall k: nat | k < found % 64 :: Bit(ba[found / 64], k)
    requires forall i: nat | i < Units(n) && Distance(i, from, Units(n)) < Distance(found / 64, from, Units(n)) :: ba[i] == ALL
    ensures forall k: nat | k < n && k !in s :: NoLater(found, k, from, Units(n))
  {
    forall k: nat | k < n && k !in s
      ensures NoLater(found, k, from, Units(n))
    {
      assert !Get(ba, k);
      AllBits(k % 64);
    }
  }

  lemma FoundIsMarked(was: seq<bv64>, ba: seq<bv64>, n: nat, s: set<nat>, found: nat)
    requires |was| == |ba| && Units(n) <= |ba| && found < n && Represents(was, n, s)
    requires forall j: nat | j < 64 * |ba| :: Get(ba, j) <==> j == found || Get(was, j)
    ensures Represents(ba, n, s + {found}) && (Padded(was, n) ==> Padded(ba, n))
  {}

  lemma TookFirst(was: seq<bv64>, ba: seq<bv64>, n: nat)
    requires |was| == |ba| == UNITS && GoodEntries(n)
    requires Represents(was, n, {}) && Padded(was, n)
    requires ba == was[0 := 1]
    ensures Represents(ba, n, {0}) && (Units(n) > 1 ==> Padded(ba, n))
  {
    forall k: nat | k < n
      ensures Get(ba, k) <==> k in {0}
    {
      OneBits(k % 64);
      assert !Get(was, k);
    }
    forall k: nat | n <= k < 64 * Units(n) && Units(n) > 1
      ensures Get(ba, k)
    {
      assert Get(was, k);
    }
  }
}
