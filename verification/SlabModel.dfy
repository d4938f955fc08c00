/** The arena's bookkeeping as a value (rts/rts/gc_jgc.c): which list every block is
    in, how the lists are linked, and which entries are marked. The class in
    SlabArena.dfy updates its objects in place and is proved to follow this model. */
module SlabModel {
  import opened Bitmap
  import opened SmartPtr
  import SlabLayout

  /** Words of bitmap that always lie inside a block: enough for 500 entries. */
  const UNITS: nat := 8

  predicate GoodEntries(n: nat) { 2 <= n < 64 * UNITS && n % 64 != 0 }

  /** The list a block is linked into: the arena's free list, a list of blocks with a
      free entry, or a list of blocks without one, of cache number `c`. */
  datatype Place = Nowhere | OnFree | Partial(c: nat) | Full(c: nat)

  datatype BlockSt = BlockSt(
    place: Place,
    link: int,         // page of the next block of the list, -1 at the end
    color: nat,
    numPtrs: nat,
    size: nat,
    numFree: nat,
    entries: nat,      // num_entries of the cache it was last given to
    marks: set<nat>,   // entries whose used bit is set
    padded: bool)      // all padding bits of the bitmap are set

  datatype Geometry = Geometry(color: nat, size: nat, numPtrs: nat, entries: nat)

  datatype Slabs = Slabs(
    blocks: seq<BlockSt>,
    free: seq<nat>,
    partial: seq<seq<nat>>,
    full: seq<seq<nat>>,
    caches: seq<Geometry>)

  predicate Held(p: Place) { p.Partial? || p.Full? }

  // ----- intrusive lists (SLIST of rts/sys/queue.h)

  function Next(l: seq<nat>, i: nat): int { if i < |l| then l[i] else -1 }

  ghost predicate NoDup(l: seq<nat>) { forall i, j | 0 <= i < j < |l| :: l[i] != l[j] }

  lemma NextUnseen(l: seq<nat>, i: nat)
    requires NoDup(l) && i < |l|
    ensures l[i] !in l[..i] && l[..i + 1] == l[..i] + [l[i]]
  {}

  /** Following `link` from l[0] visits exactly `l`. */
  ghost predicate Linked(bs: seq<BlockSt>, l: seq<nat>) {
    && NoDup(l)
    && forall i | 0 <= i < |l| :: l[i] < |bs| && bs[l[i]].link == Next(l, i + 1)
  }

  ghost predicate ListOk(bs: seq<BlockSt>, l: seq<nat>, place: Place) {
    && Linked(bs, l)
    && forall i | 0 <= i < |l| :: bs[l[i]].place == place
  }

  /** SLIST_INSERT_HEAD of a block that is in another list or in none. */
  lemma PushKeeps(bs: seq<BlockSt>, l: seq<nat>, place: Place, p: nat, b: BlockSt)
    requires ListOk(bs, l, place) && p < |bs| && bs[p].place != place
    requires b.place == place && b.link == Next(l, 0)
    ensures ListOk(bs[p := b], [p] + l, place)
  {
    var l', bs' := [p] + l, bs[p := b];
    forall i | 0 <= i < |l'|
      ensures l'[i] < |bs'| && bs'[l'[i]].place == place && bs'[l'[i]].link == Next(l', i + 1)
    {
      if i > 0 { assert l'[i] == l[i - 1] && l'[i] != p; }
    }
    forall i, j | 0 <= i < j < |l'|
      ensures l'[i] != l'[j]
    {
      assert l'[j] == l[j - 1];
      if i > 0 { assert l'[i] == l[i - 1]; }
    }
  }

  /** Writing a block that is not in a list leaves the list alone. */
  lemma OtherKeeps(bs: seq<BlockSt>, l: seq<nat>, place: Place, p: nat, b: BlockSt)
    requires ListOk(bs, l, place) && p < |bs| && bs[p].place != place
    ensures ListOk(bs[p := b], l, place)
  {}

  /** Writing fields other than the link and the place leaves every list alone. */
  lemma FieldKeeps(bs: seq<BlockSt>, l: seq<nat>, place: Place, p: nat, b: BlockSt)
    requires ListOk(bs, l, place) && p < |bs|
    requires b.place == bs[p].place && b.link == bs[p].link
    ensures ListOk(bs[p := b], l, place)
  {}

  /** SLIST_REMOVE_HEAD */
  lemma PopKeeps(bs: seq<BlockSt>, l: seq<nat>, place: Place, b: BlockSt)
    requires ListOk(bs, l, place) && l != []
    requires b.place != place
    ensures ListOk(bs[l[0] := b], l[1..], place)
  {
    var l' := l[1..];
    assert forall i | 0 <= i < |l'| :: l'[i] == l[i + 1];
  }

  // ----- the invariant

  /** The geometry new_cache computes for entries of some size. */
  predicate GeometryOk(g: Geometry) {
    && 1 <= g.size <= SlabLayout.MAX_SIZE && g.numPtrs <= g.size
    && g.color == SlabLayout.Color(g.size) && g.entries == SlabLayout.NumEntries(g.size)
    && GoodEntries(g.entries)
  }

  /** num_free counts the clear entry bits. */
  ghost predicate Tracks(b: BlockSt) {
    && GoodEntries(b.entries)
    && (forall k | k in b.marks :: k < b.entries)
    && b.numFree + |b.marks| == b.entries
  }

  /** A block the allocator may reuse without clearing its bitmap again. */
  ghost predicate Clean(b: BlockSt) { Tracks(b) && b.marks == {} && b.padded }

  ghost predicate Fits(b: BlockSt, g: Geometry) {
    && Tracks(b)
    && b.entries == g.entries && b.size == g.size && b.numPtrs == g.numPtrs && b.color == g.color
  }

  /** Block `p` is in exactly the list its place names, or in flight. */
  ghost predicate BlockOk(s: Slabs, p: nat, flying: set<nat>)
    requires p < |s.blocks|
    requires |s.partial| == |s.full| == |s.caches|
  {
    var b := s.blocks[p];
    match b.place
    case Nowhere => p in flying
    case OnFree => p in s.free && Clean(b)
    case Partial(c) => c < |s.caches| && p in s.partial[c] && Fits(b, s.caches[c])
    case Full(c) => c < |s.caches| && p in s.full[c] && Fits(b, s.caches[c])
  }

  ghost predicate Inv(s: Slabs, flying: set<nat>) {
    && |s.partial| == |s.full| == |s.caches|
    && (forall c | 0 <= c < |s.caches| :: GeometryOk(s.caches[c]))
    && (forall p: nat | p < |s.blocks| :: BlockOk(s, p, flying))
    && ListOk(s.blocks, s.free, OnFree)
    && (forall c: nat | c < |s.caches| :: ListOk(s.blocks, s.partial[c], Partial(c)))
    && (forall c: nat | c < |s.caches| :: ListOk(s.blocks, s.full[c], Full(c)))
  }

  /** Between collections a cache's first list holds the blocks with a free entry and
      its second list the blocks without one. */
  ghost predicate Sorted(s: Slabs) {
    && (forall p: nat | p < |s.blocks| && s.blocks[p].place.Partial? :: s.blocks[p].numFree > 0)
    && (forall p: nat | p < |s.blocks| && s.blocks[p].place.Full? :: s.blocks[p].numFree == 0)
  }

  ghost predicate AllPadded(s: Slabs) {
    forall p: nat | p < |s.blocks| && Held(s.blocks[p].place) :: s.blocks[p].padded
  }

  /** The pages of the blocks that caches hold; block_used counts them. */
  ghost function HeldPages(s: Slabs): set<nat> {
    set p: nat | p < |s.blocks| && Held(s.blocks[p].place)
  }

  /** An address s_alloc can have produced: an entry of a held block. */
  predicate InHeap(s: Slabs, a: Addr) {
    a.Entry? && a.page < |s.blocks| && Held(s.blocks[a.page].place) && a.idx < s.blocks[a.page].entries
  }

  /** The entry's used bit is set. */
  predicate IsMarked(s: Slabs, a: Addr) {
    a.Entry? && a.page < |s.blocks| && Held(s.blocks[a.page].place) && a.idx in s.blocks[a.page].marks
  }

  ghost function Allocated(s: Slabs): set<Addr> {
    set p: nat, k | p < |s.blocks| && Held(s.blocks[p].place) && k in s.blocks[p].marks :: Entry(p, k)
  }

  lemma AllocatedIs(s: Slabs)
    ensures forall a: Addr :: a in Allocated(s) <==> IsMarked(s, a)
  {
    forall a: Addr | IsMarked(s, a)
      ensures a in Allocated(s)
    {
      assert a == Entry(a.page, a.idx);
    }
  }

  function NumPtrs(s: Slabs): seq<nat> {
    seq(|s.blocks|, p requires 0 <= p < |s.blocks| => s.blocks[p].numPtrs)
  }

  // ----- what the operations do to one block

  /** BIT_SET of entry `k`, and the new num_free. */
  function MarkSt(b: BlockSt, k: nat): BlockSt {
    if k in b.marks || b.numFree == 0 then b else b.(marks := b.marks + {k}, numFree := b.numFree - 1)
  }

  /** clear_block_used_bits for `n` entries. */
  function ClearSt(b: BlockSt, n: nat): BlockSt {
    b.(entries := n, numFree := n, marks := {}, padded := true)
  }

  /** What s_alloc makes of a free block: the header of the cache, the first entry
      taken, and no promise about the padding of a bitmap of one unit. */
  function StartSt(b: BlockSt, g: Geometry): BlockSt {
    b.(color := g.color, size := g.size, numPtrs := g.numPtrs,
       entries := g.entries, numFree := if g.entries > 0 then g.entries - 1 else 0,
       marks := {0}, padded := Units(g.entries) > 1)
  }

  lemma {:induction false} SubsetSize(s: set<nat>, n: nat)
    requires forall k | k in s :: k < n
    ensures |s| <= n
  {
    if n > 0 {
      var t := s - {n - 1};
      SubsetSize(t, n - 1);
      if n - 1 in s {
        assert s == t + {n - 1};
      } else {
        assert s == t;
      }
    }
  }

  lemma {:induction false} FullSize(s: set<nat>, n: nat)
    requires forall k: nat | k < n :: k in s
    ensures n <= |s|
  {
    if n > 0 {
      FullSize(s - {n - 1}, n - 1);
    }
  }

  /** Marking an entry keeps num_free equal to the number of clear entry bits. */
  lemma MarkTracks(b: BlockSt, k: nat)
    requires Tracks(b) && k < b.entries
    ensures Tracks(MarkSt(b, k)) && MarkSt(b, k).marks == b.marks + {k}
    ensures k !in b.marks ==> b.numFree > 0 && MarkSt(b, k).numFree == b.numFree - 1
  {
    SubsetSize(b.marks + {k}, b.entries);
    if k in b.marks {
      assert b.marks + {k} == b.marks;
    }
  }

  /** num_free is zero exactly when every entry is marked. */
  lemma NoneFreeIffAllMarked(b: BlockSt)
    requires Tracks(b)
    ensures b.numFree == 0 <==> forall k: nat | k < b.entries :: k in b.marks
  {
    if forall k: nat | k < b.entries :: k in b.marks {
      FullSize(b.marks, b.entries);
    } else {
      var k: nat :| k < b.entries && k !in b.marks;
      SubsetSize(b.marks + {k}, b.entries);
    }
  }
}
