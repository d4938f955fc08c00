/** The steps of the allocator and of the sweep on the bookkeeping of SlabModel.dfy,
    and what each of them keeps (rts/rts/gc_jgc.c). */
module SlabSteps {
  import opened SmartPtr
  import opened SlabModel

  // ----- s_set_used_bit

  function MarkEntry(s: Slabs, p: nat, k: nat): Slabs
    requires p < |s.blocks|
  {
    s.(blocks := s.blocks[p := MarkSt(s.blocks[p], k)])
  }

  lemma FieldChangeKeeps(s: Slabs, p: nat, b: BlockSt, flying: set<nat>)
    requires Inv(s, flying) && p < |s.blocks|
    requires b.place == s.blocks[p].place && b.link == s.blocks[p].link
    requires Held(b.place) ==> b.place.c < |s.caches| && Fits(b, s.caches[b.place.c])
    requires b.place == OnFree ==> Clean(b)
    ensures Inv(s.(blocks := s.blocks[p := b]), flying)
  {
    var t := s.(blocks := s.blocks[p := b]);
    FieldKeeps(s.blocks, s.free, OnFree, p, b);
    forall c: nat | c < |s.caches|
      ensures ListOk(s.blocks[p := b], s.partial[c], Partial(c)) && ListOk(s.blocks[p := b], s.full[c], Full(c))
    {
      FieldKeeps(s.blocks, s.partial[c], Partial(c), p, b);
      FieldKeeps(s.blocks, s.full[c], Full(c), p, b);
    }
    forall q: nat | q < |s.blocks|
      ensures BlockOk(t, q, flying)
    {
      assert BlockOk(s, q, flying);
    }
  }

  /** Marking sets one used bit, and keeps the invariant and the padding. */
  lemma MarkEntryKeeps(s: Slabs, a: Addr, flying: set<nat>)
    requires Inv(s, flying) && InHeap(s, a)
    ensures Inv(MarkEntry(s, a.page, a.idx), flying)
    ensures AllPadded(s) ==> AllPadded(MarkEntry(s, a.page, a.idx))
    ensures forall x: Addr :: IsMarked(MarkEntry(s, a.page, a.idx), x) <==> x == a || IsMarked(s, x)
    ensures forall x: Addr :: InHeap(MarkEntry(s, a.page, a.idx), x) <==> InHeap(s, x)
    ensures NumPtrs(MarkEntry(s, a.page, a.idx)) == NumPtrs(s)
    ensures HeldPages(MarkEntry(s, a.page, a.idx)) == HeldPages(s)
  {
    var b := s.blocks[a.page];
    assert BlockOk(s, a.page, flying);
    MarkTracks(b, a.idx);
    FieldChangeKeeps(s, a.page, MarkSt(b, a.idx), flying);
  }

  // ----- clear_used_bits

  /** Every held block cleared for the number of entries of its cache. */
  function ClearAll(s: Slabs): Slabs {
    s.(blocks := seq(|s.blocks|, p requires 0 <= p < |s.blocks| =>
                   if Held(s.blocks[p].place) then ClearSt(s.blocks[p], s.blocks[p].entries) else s.blocks[p]))
  }

  lemma ClearAllKeeps(s: Slabs, flying: set<nat>)
    requires Inv(s, flying)
    ensures Inv(ClearAll(s), flying) && AllPadded(ClearAll(s))
    ensures forall x: Addr :: !IsMarked(ClearAll(s), x)
    ensures forall x: Addr :: InHeap(ClearAll(s), x) <==> InHeap(s, x)
    ensures NumPtrs(ClearAll(s)) == NumPtrs(s)
    ensures HeldPages(ClearAll(s)) == HeldPages(s)
  {
    var t := ClearAll(s);
    forall q: nat | q < |s.blocks|
      ensures BlockOk(t, q, flying)
    {
      assert BlockOk(s, q, flying);
    }
  }

  /** The caches from `n` on cleared. */
  function ClearFrom(s: Slabs, n: nat): Slabs {
    s.(blocks := seq(|s.blocks|, p requires 0 <= p < |s.blocks| =>
                   if Held(s.blocks[p].place) && s.blocks[p].place.c >= n then ClearSt(s.blocks[p], s.blocks[p].entries) else s.blocks[p]))
  }

  /** Clearing the two lists of cache `n` reaches exactly the blocks it holds. */
  lemma ClearStep(s: Slabs, n: nat, bs: seq<BlockSt>)
    requires Inv(s, {}) && n < |s.caches| && |bs| == |s.blocks|
    requires forall p: nat | p < |bs| ::
               bs[p] == if p in s.partial[n] || p in s.full[n]
                        then ClearSt(s.blocks[p], s.caches[n].entries) else ClearFrom(s, n + 1).blocks[p]
    ensures bs == ClearFrom(s, n).blocks
  {
    var t := ClearFrom(s, n);
    forall p: nat | p < |bs|
      ensures bs[p] == t.blocks[p]
    {
      assert BlockOk(s, p, {});
      if p in s.partial[n] { assert s.blocks[p].place == Partial(n); }
      if p in s.full[n] { assert s.blocks[p].place == Full(n); }
    }
  }

  lemma ClearFromFirst(s: Slabs)
    requires Inv(s, {})
    ensures ClearFrom(s, |s.caches|) == s && ClearFrom(s, 0) == ClearAll(s)
  {
    forall p: nat | p < |s.blocks|
      ensures ClearFrom(s, |s.caches|).blocks[p] == s.blocks[p]
    {
      assert BlockOk(s, p, {});
    }
    assert ClearFrom(s, 0).blocks == ClearAll(s).blocks;
    assert ClearFrom(s, |s.caches|).blocks == s.blocks;
  }

  lemma ClearLists(s: Slabs, n: nat)
    requires Inv(s, {}) && n < |s.caches|
    ensures Linked(ClearFrom(s, n + 1).blocks, s.partial[n]) && Linked(ClearFrom(s, n + 1).blocks, s.full[n])
    ensures forall i | 0 <= i < |s.partial[n]| :: ClearFrom(s, n + 1).blocks[s.partial[n][i]] == s.blocks[s.partial[n][i]]
    ensures forall i | 0 <= i < |s.full[n]| :: ClearFrom(s, n + 1).blocks[s.full[n][i]] == s.blocks[s.full[n][i]]
    ensures forall i | 0 <= i < |s.partial[n]| :: s.blocks[s.partial[n][i]].entries == s.caches[n].entries
    ensures forall i | 0 <= i < |s.full[n]| :: s.blocks[s.full[n][i]].entries == s.caches[n].entries && s.full[n][i] !in s.partial[n]
  {
    assert ListOk(s.blocks, s.partial[n], Partial(n)) && ListOk(s.blocks, s.full[n], Full(n));
    forall i | 0 <= i < |s.partial[n]|
      ensures s.blocks[s.partial[n][i]].entries == s.caches[n].entries
    {
      assert BlockOk(s, s.partial[n][i], {});
    }
    forall i | 0 <= i < |s.full[n]|
      ensures s.blocks[s.full[n][i]].entries == s.caches[n].entries
    {
      assert BlockOk(s, s.full[n][i], {});
    }
  }

  // ----- get_free_block

  /** Every link and every list head names a block of memory, or none. */
  ghost predicate LinksInside(s: Slabs) {
    && (forall p: nat | p < |s.blocks| :: -1 <= s.blocks[p].link < |s.blocks|)
    && Next(s.free, 0) < |s.blocks|
    && (forall c: nat | c < |s.partial| :: Next(s.partial[c], 0) < |s.blocks|)
    && (forall c: nat | c < |s.full| :: Next(s.full[c], 0) < |s.blocks|)
  }

  lemma LinksAreInside(s: Slabs)
    requires Inv(s, {})
    ensures LinksInside(s)
  {
    forall p: nat | p < |s.blocks|
      ensures -1 <= s.blocks[p].link < |s.blocks|
    {
      assert BlockOk(s, p, {});
    }
    forall c: nat | c < |s.caches|
      ensures Next(s.partial[c], 0) < |s.blocks| && Next(s.full[c], 0) < |s.blocks|
    {
      assert ListOk(s.blocks, s.partial[c], Partial(c)) && ListOk(s.blocks, s.full[c], Full(c));
    }
  }

  const FRESH := BlockSt(Nowhere, -1, 0, 0, 0, 0, 0, {}, false)

  /** A block carved from a megablock. */
  function NewPage(s: Slabs, b: BlockSt): Slabs { s.(blocks := s.blocks + [b]) }

  lemma NewPageKeeps(s: Slabs, b: BlockSt)
    requires Inv(s, {}) && b.place == Nowhere
    ensures Inv(NewPage(s, b), {|s.blocks|})
    ensures Sorted(s) ==> Sorted(NewPage(s, b))
    ensures forall x: Addr :: IsMarked(NewPage(s, b), x) <==> IsMarked(s, x)
    ensures forall x: Addr :: InHeap(NewPage(s, b), x) <==> InHeap(s, x)
    ensures HeldPages(NewPage(s, b)) == HeldPages(s)
    ensures NumPtrs(s) <= NumPtrs(NewPage(s, b))
  {
    var t := NewPage(s, b);
    forall q: nat | q < |t.blocks|
      ensures BlockOk(t, q, {|s.blocks|})
    {
      if q < |s.blocks| { assert BlockOk(s, q, {}); }
    }
  }

  /** SLIST_REMOVE_HEAD of the arena's free list. */
  function PopFree(s: Slabs): Slabs
    requires s.free != [] && s.free[0] < |s.blocks|
  {
    s.(blocks := s.blocks[s.free[0] := s.blocks[s.free[0]].(place := Nowhere)], free := s.free[1..])
  }

  lemma PopFreeKeeps(s: Slabs)
    requires Inv(s, {}) && s.free != []
    ensures Inv(PopFree(s), {s.free[0]})
    ensures Sorted(s) ==> Sorted(PopFree(s))
    ensures forall x: Addr :: IsMarked(PopFree(s), x) <==> IsMarked(s, x)
    ensures forall x: Addr :: InHeap(PopFree(s), x) <==> InHeap(s, x)
    ensures HeldPages(PopFree(s)) == HeldPages(s)
    ensures NumPtrs(PopFree(s)) == NumPtrs(s)
    ensures Clean(s.blocks[s.free[0]])
  {
    var p, t := s.free[0], PopFree(s);
    var b := t.blocks[p];
    assert BlockOk(s, p, {});
    PopKeeps(s.blocks, s.free, OnFree, b);
    forall c: nat | c < |s.caches|
      ensures ListOk(t.blocks, s.partial[c], Partial(c)) && ListOk(t.blocks, s.full[c], Full(c))
    {
      OtherKeeps(s.blocks, s.partial[c], Partial(c), p, b);
      OtherKeeps(s.blocks, s.full[c], Full(c), p, b);
    }
    forall q: nat | q < |t.blocks|
      ensures BlockOk(t, q, {p})
    {
      assert BlockOk(s, q, {});
      if q != p && q in s.free { assert q in s.free[1..]; }
    }
  }

  // ----- s_alloc

  /** The block in flight becomes the first block of cache `c`, with one entry taken. */
  function Give(s: Slabs, c: nat, p: nat): Slabs
    requires p < |s.blocks| && c < |s.partial| == |s.caches|
  {
    s.(blocks := s.blocks[p := StartSt(s.blocks[p], s.caches[c]).(place := Partial(c), link := Next(s.partial[c], 0))],
       partial := s.partial[c := [p] + s.partial[c]])
  }

  lemma GiveKeeps(s: Slabs, c: nat, p: nat)
    requires Inv(s, {p}) && p < |s.blocks| && s.blocks[p].place == Nowhere && c < |s.caches|
    ensures Inv(Give(s, c, p), {})
    ensures Sorted(s) ==> Sorted(Give(s, c, p))
    ensures forall x: Addr :: IsMarked(Give(s, c, p), x) <==> x == Entry(p, 0) || IsMarked(s, x)
    ensures forall x: Addr | InHeap(s, x) :: InHeap(Give(s, c, p), x)
    ensures InHeap(Give(s, c, p), Entry(p, 0))
    ensures HeldPages(Give(s, c, p)) == HeldPages(s) + {p} && p !in HeldPages(s)
    ensures |NumPtrs(Give(s, c, p))| == |NumPtrs(s)|
    ensures forall q: nat | q < |s.blocks| && q != p :: NumPtrs(Give(s, c, p))[q] == NumPtrs(s)[q]
  {
    var t := Give(s, c, p);
    var b := t.blocks[p];
    OtherKeeps(s.blocks, s.free, OnFree, p, b);
    PushKeeps(s.blocks, s.partial[c], Partial(c), p, b);
    forall d: nat | d < |s.caches|
      ensures ListOk(t.blocks, t.partial[d], Partial(d)) && ListOk(t.blocks, t.full[d], Full(d))
    {
      if d != c { OtherKeeps(s.blocks, s.partial[d], Partial(d), p, b); }
      OtherKeeps(s.blocks, s.full[d], Full(d), p, b);
    }
    forall q: nat | q < |t.blocks|
      ensures BlockOk(t, q, {})
    {
      assert BlockOk(s, q, {p});
    }
  }

  /** The first block of cache `c` moves to the cache's list of full blocks. */
  function FirstToFull(s: Slabs, c: nat): Slabs
    requires c < |s.partial| == |s.full| && s.partial[c] != [] && s.partial[c][0] < |s.blocks|
  {
    var p := s.partial[c][0];
    s.(blocks := s.blocks[p := s.blocks[p].(place := Full(c), link := Next(s.full[c], 0))],
       partial := s.partial[c := s.partial[c][1..]],
       full := s.full[c := [p] + s.full[c]])
  }

  /** An entry taken from the first block of cache `c`; when it was the last free one
      the block moves to the list of full blocks. */
  function TakeFrom(s: Slabs, c: nat, k: nat): Slabs
    requires c < |s.partial| == |s.full| && s.partial[c] != [] && s.partial[c][0] < |s.blocks|
  {
    var t := MarkEntry(s, s.partial[c][0], k);
    if t.blocks[s.partial[c][0]].numFree == 0 then FirstToFull(t, c) else t
  }

  lemma FirstToFullLists(s: Slabs, c: nat, d: nat)
    requires Inv(s, {}) && c < |s.caches| && s.partial[c] != [] && d < |s.caches|
    ensures s.partial[c][0] < |s.blocks|
    ensures var t := FirstToFull(s, c);
            ListOk(t.blocks, t.partial[d], Partial(d)) && ListOk(t.blocks, t.full[d], Full(d)) && ListOk(t.blocks, t.free, OnFree)
  {
    assert ListOk(s.blocks, s.partial[c], Partial(c));
    var p, t := s.partial[c][0], FirstToFull(s, c);
    var b := t.blocks[p];
    OtherKeeps(s.blocks, s.free, OnFree, p, b);
    if d != c {
      OtherKeeps(s.blocks, s.partial[d], Partial(d), p, b);
      OtherKeeps(s.blocks, s.full[d], Full(d), p, b);
    } else {
      PopKeeps(s.blocks, s.partial[c], Partial(c), b);
      PushKeeps(s.blocks, s.full[c], Full(c), p, b);
    }
  }

  lemma Relisted(b: BlockSt, place: Place, link: int)
    ensures Tracks(b) <==> Tracks(b.(place := place, link := link))
  {}

  /** The block that moves. */
  lemma MovedBlock(s: Slabs, c: nat)
    requires Inv(s, {}) && c < |s.caches| && s.partial[c] != []
    ensures s.partial[c][0] < |s.blocks| && s.blocks[s.partial[c][0]].place == Partial(c)
    ensures BlockOk(FirstToFull(s, c), s.partial[c][0], {})
  {
    var p := s.partial[c][0];
    assert ListOk(s.blocks, s.partial[c], Partial(c)) && BlockOk(s, p, {});
    Relisted(s.blocks[p], Full(c), Next(s.full[c], 0));
    hide Inv, ListOk, Tracks, Clean;
  }

  /** Every other block is where it was. */
  lemma UnmovedBlock(s: Slabs, c: nat, q: nat)
    requires |s.partial| == |s.full| == |s.caches| && c < |s.caches| && s.partial[c] != []
    requires s.partial[c][0] < |s.blocks| && q < |s.blocks| && q != s.partial[c][0] && BlockOk(s, q, {})
    ensures BlockOk(FirstToFull(s, c), q, {})
  {
    hide Clean, Fits;
    if q in s.partial[c] { assert q in s.partial[c][1..]; }
  }

  lemma FirstToFullBlock(s: Slabs, c: nat, q: nat)
    requires Inv(s, {}) && c < |s.caches| && s.partial[c] != []
    requires s.partial[c][0] < |s.blocks| && q < |s.blocks|
    ensures BlockOk(FirstToFull(s, c), q, {})
  {
    hide ListOk, BlockOk, GeometryOk;
    if q == s.partial[c][0] { MovedBlock(s, c); } else { UnmovedBlock(s, c, q); }
  }

  lemma FirstToFullKeeps(s: Slabs, c: nat)
    requires Inv(s, {}) && c < |s.caches| && s.partial[c] != []
    ensures s.partial[c][0] < |s.blocks| && Inv(FirstToFull(s, c), {})
  {
    FirstToFullLists(s, c, c);
    var t := FirstToFull(s, c);
    hide ListOk, BlockOk;
    forall d: nat | d < |s.caches|
      ensures ListOk(t.blocks, t.partial[d], Partial(d)) && ListOk(t.blocks, t.full[d], Full(d))
    {
      FirstToFullLists(s, c, d);
    }
    forall q: nat | q < |t.blocks|
      ensures BlockOk(t, q, {})
    {
      FirstToFullBlock(s, c, q);
    }
  }

  /** What is held and marked stays so when a block moves between a cache's lists. */
  lemma FirstToFullSame(s: Slabs, c: nat)
    requires c < |s.partial| == |s.full| && s.partial[c] != [] && s.partial[c][0] < |s.blocks|
    requires s.blocks[s.partial[c][0]].place == Partial(c)
    ensures forall x: Addr :: IsMarked(FirstToFull(s, c), x) <==> IsMarked(s, x)
    ensures forall x: Addr :: InHeap(FirstToFull(s, c), x) <==> InHeap(s, x)
    ensures HeldPages(FirstToFull(s, c)) == HeldPages(s) && NumPtrs(FirstToFull(s, c)) == NumPtrs(s)
  {}

  /** The lists are sorted again, for the block that was filled has moved. */
  lemma TakeFromSorted(s: Slabs, c: nat, k: nat)
    requires Sorted(s) && c < |s.partial| == |s.full| && s.partial[c] != [] && s.partial[c][0] < |s.blocks|
    requires s.blocks[s.partial[c][0]].place == Partial(c)
    ensures Sorted(TakeFrom(s, c, k))
  {}

  lemma TakeFromKeeps(s: Slabs, c: nat, k: nat)
    requires Inv(s, {}) && Sorted(s) && c < |s.caches| && s.partial[c] != []
    requires k < s.caches[c].entries && s.partial[c][0] < |s.blocks| && k !in s.blocks[s.partial[c][0]].marks
    ensures Inv(TakeFrom(s, c, k), {}) && Sorted(TakeFrom(s, c, k))
    ensures var a := Entry(s.partial[c][0], k);
            && InHeap(s, a) && !IsMarked(s, a)
            && forall x: Addr :: IsMarked(TakeFrom(s, c, k), x) <==> x == a || IsMarked(s, x)
    ensures forall x: Addr :: InHeap(TakeFrom(s, c, k), x) <==> InHeap(s, x)
    ensures HeldPages(TakeFrom(s, c, k)) == HeldPages(s)
    ensures NumPtrs(TakeFrom(s, c, k)) == NumPtrs(s)
  {
    MovedBlock(s, c);
    var p := s.partial[c][0];
    assert BlockOk(s, p, {});
    MarkEntryKeeps(s, Entry(p, k), {});
    TakeFromSorted(s, c, k);
    var t := MarkEntry(s, p, k);
    MarkedPlace(s.blocks[p], k);
    hide Inv, Sorted, HeldPages, NumPtrs, FirstToFull, MarkSt, BlockOk;
    if t.blocks[p].numFree == 0 {
      FirstToFullKeeps(t, c);
      FirstToFullSame(t, c);
    }
  }

  lemma MarkedPlace(b: BlockSt, k: nat)
    ensures MarkSt(b, k).place == b.place && MarkSt(b, k).link == b.link
  {}

  lemma MarkingStaysLinked(s: Slabs, p: nat, k: nat, l: seq<nat>)
    requires Linked(s.blocks, l) && p < |s.blocks|
    ensures Linked(MarkEntry(s, p, k).blocks, l)
  {}

  // ----- new_cache

  function AddCache(s: Slabs, g: Geometry): Slabs {
    s.(caches := s.caches + [g], partial := s.partial + [[]], full := s.full + [[]])
  }

  lemma AddCacheKeeps(s: Slabs, g: Geometry)
    requires Inv(s, {}) && GeometryOk(g)
    ensures Inv(AddCache(s, g), {}) && (Sorted(s) ==> Sorted(AddCache(s, g)))
    ensures forall x: Addr :: IsMarked(AddCache(s, g), x) <==> IsMarked(s, x)
    ensures forall x: Addr :: InHeap(AddCache(s, g), x) <==> InHeap(s, x)
    ensures HeldPages(AddCache(s, g)) == HeldPages(s) && NumPtrs(AddCache(s, g)) == NumPtrs(s)
  {
    var t := AddCache(s, g);
    forall q: nat | q < |t.blocks|
      ensures BlockOk(t, q, {})
    {
      assert BlockOk(s, q, {});
    }
  }
}
