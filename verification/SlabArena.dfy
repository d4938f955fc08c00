/** The slab arena as objects updated in place (struct s_arena, struct s_cache and the
    allocator of rts/rts/gc_jgc.c). Each method is proved to do to the objects what a
    function of SlabModel.dfy, SlabSteps.dfy or SlabSweep.dfy says. */
module SlabArena {
  import opened Bitmap
  import opened SmartPtr
  import opened SlabModel
  import opened SlabBlock
  import opened SlabSteps
  import opened SlabSweep
  import opened SlabRace
  import SlabLayout

  /** struct s_cache: the blocks that hold entries of one size and pointer count. */
  class Cache {
    const id: nat
    const geometry: Geometry
    var blocks: Block?
    var fullBlocks: Block?

    constructor (id: nat, geometry: Geometry)
      ensures this.id == id && this.geometry == geometry
      ensures blocks == null && fullBlocks == null
    {
      this.id, this.geometry := id, geometry;
      blocks, fullBlocks := null, null;
    }
  }

  class Arena {
    /** Memory, one block a page: S_BLOCK of an address is the block at its page. */
    var pages: seq<Block>
    var freeBlocks: Block?
    var blockUsed: int
    var blockThreshold: int
    var caches: seq<Cache>
    ghost var s: Slabs
    ghost var Repr: set<object>

    /** The block at a page, or NULL. */
    ghost function Ptr(p: int): Block?
      reads this
    {
      if 0 <= p < |pages| then pages[p] else null
    }

    ghost predicate BlockAgrees(i: nat, st: BlockSt)
      requires i < |pages|
      reads this, pages[i], pages[i].used
    {
      pages[i].page == i && pages[i].Is(st) && pages[i].link == Ptr(st.link)
    }

    ghost predicate BlocksAgree()
      reads this, Repr
    {
      && |pages| == |s.blocks|
      && (forall i | 0 <= i < |pages| :: pages[i] in Repr && pages[i].used in Repr)
      && (forall i | 0 <= i < |pages| :: BlockAgrees(i, s.blocks[i]))
      && (forall i, j | 0 <= i < j < |pages| :: pages[i].used != pages[j].used)
    }

    ghost predicate CachesAgree()
      reads this, Repr
    {
      && |caches| == |s.caches| == |s.partial| == |s.full|
      && (forall c | 0 <= c < |caches| :: caches[c] in Repr)
      && (forall c | 0 <= c < |caches| ::
            && caches[c].id == c && caches[c].geometry == s.caches[c]
            && caches[c].blocks == Ptr(Next(s.partial[c], 0))
            && caches[c].fullBlocks == Ptr(Next(s.full[c], 0)))
    }

    /** The objects are those `s` describes. */
    ghost predicate Agrees()
      reads this, Repr
    {
      this in Repr && BlocksAgree() && CachesAgree() && freeBlocks == Ptr(Next(s.free, 0))
    }

    /** BIT_SET of an entry, if it was clear, with num_free counted down. */
    method MarkIn(p: nat, k: nat) returns (newly: bool)
      requires Agrees() && p < |pages| && Tracks(s.blocks[p]) && k < s.blocks[p].entries
      modifies this`s, Repr - {this}
      ensures Agrees() && s == MarkEntry(old(s), p, k) && (newly <==> k !in old(s).blocks[p].marks)
    {
      hide Block.Is, Tracks, MarkSt;
      ghost var st := s.blocks[p];
      MarkedPlace(st, k);
      assert BlockAgrees(p, st);
      newly := pages[p].Mark(k, st);
      s := MarkEntry(s, p, k);
      forall i | 0 <= i < |pages|
        ensures BlockAgrees(i, s.blocks[i])
      {
        if i != p { assert old(BlockAgrees(i, s.blocks[i])); }
      }
    }

    /** s_set_used_bit: sets the entry's used bit; true if it was clear and the entry
        holds pointers. */
    method SetUsedBit(a: Addr) returns (scan: bool)
      requires Agrees() && InHeap(s, a) && Tracks(s.blocks[a.page])
      modifies this`s, Repr - {this}
      ensures Agrees() && s == MarkEntry(old(s), a.page, a.idx)
      ensures scan <==> !IsMarked(old(s), a) && old(s).blocks[a.page].numPtrs > 0
    {
      assert BlockAgrees(a.page, s.blocks[a.page]);
      var numPtrs := pages[a.page].numPtrs;
      assert numPtrs == s.blocks[a.page].numPtrs;
      hide BlocksAgree, CachesAgree, Tracks;
      var newly := MarkIn(a.page, a.idx);
      scan := newly && numPtrs > 0;
    }

    // ----- clear_used_bits

    method ClearBlock(pg: Block, n: nat)
      requires Agrees() && pg.page < |pages| && pages[pg.page] == pg
      requires GoodEntries(n) && s.blocks[pg.page].entries == n
      modifies this`s, pg, pg.used
      ensures Agrees()
      ensures s == old(s).(blocks := old(s).blocks[pg.page := ClearSt(old(s).blocks[pg.page], n)])
    {
      ghost var st := s.blocks[pg.page];
      pg.Clear(n, st);
      s := s.(blocks := s.blocks[pg.page := ClearSt(st, n)]);
      forall i | 0 <= i < |pages|
        ensures BlockAgrees(i, s.blocks[i])
      {
        if i != pg.page { assert old(BlockAgrees(i, s.blocks[i])); }
      }
    }

    /** SLIST_FOREACH over one list of a cache. */
    method ClearList(head: Block?, n: nat, ghost l: seq<nat>)
      requires Agrees() && GoodEntries(n) && Linked(s.blocks, l) && head == Ptr(Next(l, 0))
      requires forall i | 0 <= i < |l| :: s.blocks[l[i]].entries == n
      modifies this`s, Repr - {this}
      ensures Agrees() && |s.blocks| == |old(s).blocks| && s == old(s).(blocks := s.blocks)
      ensures forall p: nat | p < |s.blocks| ::
                s.blocks[p] == if p in l then ClearSt(old(s).blocks[p], n) else old(s).blocks[p]
    {
      hide Block.Is, GoodEntries;
      var pg := head;
      ghost var i := 0;
      while pg != null
        invariant 0 <= i <= |l| && pg == Ptr(Next(l, i)) && Agrees()
        invariant |s.blocks| == |old(s).blocks| && s == old(s).(blocks := s.blocks)
        invariant forall p: nat | p < |s.blocks| ::
                    s.blocks[p] == if p in l[..i] then ClearSt(old(s).blocks[p], n) else old(s).blocks[p]
        decreases |l| - i
      {
        NextUnseen(l, i);
        assert BlockAgrees(l[i], s.blocks[l[i]]);
        ClearBlock(pg, n);
        assert BlockAgrees(l[i], s.blocks[l[i]]);
        pg := pg.link;
        i := i + 1;
      }
      assert l[..i] == l;
    }

    /** clear_used_bits: every block of every cache. */
    method ClearUsedBits()
      requires Agrees() && Inv(s, {})
      modifies this`s, Repr - {this}
      ensures Agrees() && s == ClearAll(old(s))
    {
      ghost var s0 := s;
      ClearFromFirst(s0);
      var k := |caches|;
      while k > 0
        invariant 0 <= k <= |caches| && Agrees() && s == ClearFrom(s0, k)
      {
        k := k - 1;
        ClearLists(s0, k);
        var sc := caches[k];
        ClearList(sc.blocks, sc.geometry.entries, s.partial[k]);
        ClearList(sc.fullBlocks, sc.geometry.entries, s.full[k]);
        ClearStep(s0, k, s.blocks);
      }
    }

    // ----- s_cleanup_blocks

    /** SLIST_INSERT_HEAD(&sc->full_blocks, pg, link) */
    method InsertFull(sc: Cache, pg: Block)
      requires Agrees() && pg.page < |pages| && pages[pg.page] == pg
      requires sc.id < |caches| && caches[sc.id] == sc
      modifies this`s, sc`fullBlocks, pg`link
      ensures Agrees() && s == Insert(old(s), sc.id, pg.page, Full(sc.id))
    {
      pg.link := sc.fullBlocks;
      sc.fullBlocks := pg;
      s := Insert(s, sc.id, pg.page, Full(sc.id));
      forall i | 0 <= i < |pages|
        ensures BlockAgrees(i, s.blocks[i])
      {
        assert old(BlockAgrees(i, s.blocks[i]));
      }
    }

    /** SLIST_INSERT_HEAD(&sc->blocks, pg, link) */
    method InsertPartial(sc: Cache, pg: Block)
      requires Agrees() && pg.page < |pages| && pages[pg.page] == pg
      requires sc.id < |caches| && caches[sc.id] == sc
      modifies this`s, sc`blocks, pg`link
      ensures Agrees() && s == Insert(old(s), sc.id, pg.page, Partial(sc.id))
    {
      pg.link := sc.blocks;
      sc.blocks := pg;
      s := Insert(s, sc.id, pg.page, Partial(sc.id));
      forall i | 0 <= i < |pages|
        ensures BlockAgrees(i, s.blocks[i])
      {
        assert old(BlockAgrees(i, s.blocks[i]));
      }
    }

    /** SLIST_INSERT_HEAD(&arena->free_blocks, pg, link) */
    method InsertFree(ghost c: nat, pg: Block)
      requires Agrees() && pg.page < |pages| && pages[pg.page] == pg && c < |s.partial|
      modifies this`s, this`freeBlocks, pg`link
      ensures Agrees() && s == Insert(old(s), c, pg.page, OnFree)
    {
      pg.link := freeBlocks;
      freeBlocks := pg;
      s := Insert(s, c, pg.page, OnFree);
      forall i | 0 <= i < |pages|
        ensures BlockAgrees(i, s.blocks[i])
      {
        assert old(BlockAgrees(i, s.blocks[i]));
      }
    }

    /** The body of the sweep loop. */
    method SweepBlock(sc: Cache, pg: Block, best: Block?, freeBest: int, ghost bl: seq<nat>)
      returns (best': Block?, freeBest': int, ghost st: Step)
      requires Agrees() && pg.page < |pages| && pages[pg.page] == pg
      requires sc.id < |caches| && caches[sc.id] == sc
      requires (bl != [] ==> bl[0] < |pages|) && best == Ptr(Next(bl, 0))
      requires s.blocks[pg.page].entries == sc.geometry.entries
      modifies this`s, this`freeBlocks, this`blockUsed, Repr - {this}
      ensures st == Body(old(s), sc.id, pg.page, bl, freeBest)
      ensures Agrees() && s == st.s
      ensures best' == Ptr(Next(st.best, 0)) && freeBest' == st.freeBest
      ensures blockUsed == old(blockUsed) - if st.place == OnFree then 1 else 0
    {
      best', freeBest' := best, freeBest;
      st := Body(s, sc.id, pg.page, bl, freeBest);
      assert BlockAgrees(pg.page, s.blocks[pg.page]);
      if pg.numFree == 0 {
        InsertFull(sc, pg);
      } else if pg.numFree == sc.geometry.entries {
        blockUsed := blockUsed - 1;
        InsertFree(sc.id, pg);
      } else if best == null {
        freeBest', best' := pg.numFree, pg;
      } else if pg.numFree < freeBest {
        assert BlockAgrees(bl[0], s.blocks[bl[0]]);
        best', freeBest' := pg, best.numFree;
        InsertPartial(sc, best);
      } else {
        InsertPartial(sc, pg);
      }
    }

    /** Taking both lists off the cache before they are rebuilt. */
    method TakeLists(sc: Cache) returns (pg: Block?, fpg: Block?)
      requires Agrees() && sc.id < |caches| && caches[sc.id] == sc
      modifies this`s, sc`blocks, sc`fullBlocks
      ensures Agrees() && s == Finish(old(s), sc.id, Unlist(old(s), sc.id), Lists([], [], old(s).free))
      ensures pg == Ptr(Next(old(s).partial[sc.id], 0)) && fpg == Ptr(Next(old(s).full[sc.id], 0))
    {
      pg, fpg := sc.blocks, sc.fullBlocks;
      sc.blocks, sc.fullBlocks := null, null;
      s := Finish(s, sc.id, Unlist(s, sc.id), Lists([], [], s.free));
      forall i | 0 <= i < |pages|
        ensures BlockAgrees(i, s.blocks[i])
      {
        assert old(BlockAgrees(i, s.blocks[i]));
      }
    }

    /** One iteration: the link is read before the block is relinked. */
    method SweepNext(sc: Cache, pg: Block, best: Block?, freeBest: int,
                     ghost s0: Slabs, ghost ls: Lists, ghost done: seq<nat>, ghost todo: seq<nat>, ghost later: seq<nat>, ghost bl: seq<nat>)
      returns (npg: Block?, best': Block?, freeBest': int, ghost ls': Lists, ghost bl': seq<nat>)
      requires Agrees() && Inv(s0, {}) && SweepState(s0, s, sc.id, ls, todo, later, bl)
      requires sc.id < |caches| && caches[sc.id] == sc
      requires todo != [] && pg == Ptr(Next(todo, 0)) && best == Ptr(Next(bl, 0))
      requires RaceAt(s0, sc.id, done, ls, bl, freeBest)
      modifies this`s, this`freeBlocks, this`blockUsed, Repr - {this}
      ensures Agrees() && SweepState(s0, s, sc.id, ls', todo[1..], later, bl')
      ensures RaceAt(s0, sc.id, done + [todo[0]], ls', bl', freeBest')
      ensures npg == Ptr(Next(todo[1..], 0)) && best' == Ptr(Next(bl', 0))
      ensures blockUsed + |Freed(s0, s, sc.id)| == old(blockUsed) + |Freed(s0, old(s), sc.id)|
    {
      hide SweepState, Inv, Body, Block.Is, PutAll, Put, Freed, RaceAt;
      ghost var c := sc.id;
      FrontOfRest(s0, s, c, ls, todo, later, bl);
      CacheGeometry(s0, s, c, ls, todo, later, bl);
      assert BlockAgrees(todo[0], s.blocks[todo[0]]);
      npg := pg.link;
      BodyKeeps(s0, s, c, ls, todo, later, bl, freeBest);
      BodyFrees(s0, s, c, ls, todo, later, bl, freeBest);
      BodyRaces(s0, s, c, ls, todo, later, bl, freeBest, done);
      ghost var st;
      best', freeBest', st := SweepBlock(sc, pg, best, freeBest, bl);
      ls', bl' := PutAll(ls, st), st.best;
    }

    /** The sweep of one cache: one pass over its two lists, relinking every block. The
        winner among the blocks that still have free entries goes to the front. */
    method SweepCache(sc: Cache)
      requires Agrees() && Inv(s, {}) && AllPadded(s)
      requires sc.id < |caches| && caches[sc.id] == sc
      modifies this`s, this`freeBlocks, this`blockUsed, Repr - {this}
      ensures Agrees() && Inv(s, {}) && AllPadded(s)
      ensures CacheSwept(old(s), s, sc.id)
      ensures FrontRaced(old(s), s, sc.id) && OthersKept(old(s), s, sc.id)
      ensures blockUsed == old(blockUsed) - |Freed(old(s), s, sc.id)|
    {
      hide SweepState, AllPadded, Inv, Block.Is, CacheSwept, Unlist, Freed, RaceAt, FrontRaced, OthersKept;
      ghost var s0, c := s, sc.id;
      ghost var todo: seq<nat>, later: seq<nat> := s.partial[c], s.full[c];
      SweepStateStart(s0, c);
      var pg, fpg := TakeLists(sc);
      if pg == null {
        HeadsInside(s0, s, c, Lists([], [], s0.free), todo, later, []);
        assert todo == [];
        pg, fpg := fpg, null;
        StepLater(s0, s, c, Lists([], [], s0.free), later, []);
        todo, later := later, [];
      }
      var best; ghost var freeBest, ls, bl;
      assert todo + later == s0.partial[c] + s0.full[c];
      best, freeBest, ls, bl := SweepLists(sc, pg, fpg, s0, todo, later);
      PutFront(sc, best, freeBest, s0, ls, bl);
    }

    /** The loop over both lists of the cache. */
    method SweepLists(sc: Cache, first: Block?, second: Block?, ghost s0: Slabs, ghost todo0: seq<nat>, ghost later0: seq<nat>)
      returns (best: Block?, ghost freeBest': int, ghost ls: Lists, ghost bl: seq<nat>)
      requires Agrees() && Inv(s0, {}) && SweepState(s0, s, sc.id, Lists([], [], s0.free), todo0, later0, [])
      requires sc.id < |caches| && caches[sc.id] == sc
      requires first == Ptr(Next(todo0, 0)) && second == Ptr(Next(later0, 0)) && (todo0 == [] ==> later0 == [])
      modifies this`s, this`freeBlocks, this`blockUsed, Repr - {this}
      ensures Agrees() && SweepState(s0, s, sc.id, ls, [], [], bl) && best == Ptr(Next(bl, 0))
      ensures RaceAt(s0, sc.id, todo0 + later0, ls, bl, freeBest')
      ensures blockUsed + |Freed(s0, s, sc.id)| == old(blockUsed) + |Freed(s0, old(s), sc.id)|
    {
      hide SweepState, Inv, Block.Is, Freed, RaceAt;
      ghost var c := sc.id;
      ghost var done: seq<nat>, todo: seq<nat>, later: seq<nat> := [], todo0, later0;
      var pg, fpg := first, second;
      var freeBest := 4096;
      best, ls, bl := null, Lists([], [], s0.free), [];
      RaceStart(s0, c, ls, freeBest);
      HeadsInside(s0, s, c, ls, todo, later, bl);
      while pg != null
        invariant Agrees() && SweepState(s0, s, c, ls, todo, later, bl)
        invariant pg == Ptr(Next(todo, 0)) && fpg == Ptr(Next(later, 0)) && best == Ptr(Next(bl, 0))
        invariant todo == [] ==> later == []
        invariant done + (todo + later) == todo0 + later0 && RaceAt(s0, c, done, ls, bl, freeBest)
        invariant (todo != [] ==> todo[0] < |pages|) && (later != [] ==> later[0] < |pages|)
        invariant blockUsed + |Freed(s0, s, c)| == old(blockUsed) + |Freed(s0, old(s), c)|
        decreases |todo| + |later|
      {
        var npg;
        npg, best, freeBest, ls, bl := SweepNext(sc, pg, best, freeBest, s0, ls, done, todo, later, bl);
        VisitedAll(done, todo, later);
        done, todo := done + [todo[0]], todo[1..];
        HeadsInside(s0, s, c, ls, todo, later, bl);
        if npg == null && fpg != null {
          assert todo == [];
          pg, fpg := fpg, null;
          StepLater(s0, s, c, ls, later, bl);
          assert todo + later == later + [];
          todo, later := later, [];
        } else {
          pg := npg;
        }
      }
      assert done == todo0 + later0;
      freeBest' := freeBest;
    }

    /** The candidate, if there is one, becomes the front of the cache's first list. */
    method PutFront(sc: Cache, best: Block?, ghost freeBest: int, ghost s0: Slabs, ghost ls: Lists, ghost bl: seq<nat>)
      requires Agrees() && Inv(s0, {}) && AllPadded(s0)
      requires SweepState(s0, s, sc.id, ls, [], [], bl) && best == Ptr(Next(bl, 0))
      requires sc.id < |caches| && caches[sc.id] == sc
      requires sc.id < |s0.partial| == |s0.full| && RaceAt(s0, sc.id, s0.partial[sc.id] + s0.full[sc.id], ls, bl, freeBest)
      modifies this`s, Repr - {this}
      ensures Agrees() && Inv(s, {}) && AllPadded(s) && CacheSwept(s0, s, sc.id)
      ensures FrontRaced(s0, s, sc.id) && OthersKept(s0, s, sc.id)
      ensures |Freed(s0, s, sc.id)| == |Freed(s0, old(s), sc.id)|
    {
      hide SweepState, AllPadded, Inv, Block.Is, CacheSwept, Freed, RaceAt, FrontRaced, OthersKept;
      ghost var c := sc.id;
      RaceWon(s0, s, c, ls, bl, freeBest);
      HeadsInside(s0, s, c, ls, [], [], bl);
      if best != null {
        LooseBlock(s0, s, c, ls, [], [], bl, bl[0]);
        StepFront(s0, s, c, ls, bl);
        InsertFrees(s0, s, c, bl[0], Partial(c));
        InsertPartial(sc, best);
        SweepStateEnd(s0, s, c, Put(ls, bl[0], Partial(c)));
      } else {
        assert bl == [];
        SweepStateEnd(s0, s, c, ls);
      }
    }

    /** s_cleanup_blocks: the sweep of every cache. Afterwards each block is in exactly
        one list, chosen by its number of free entries, and block_used has dropped by
        the number of blocks returned to the arena. */
    method CleanupBlocks()
      requires Agrees() && Inv(s, {}) && AllPadded(s)
      modifies this`s, this`freeBlocks, this`blockUsed, Repr - {this}
      ensures Agrees() && Inv(s, {}) && SweptFrom(old(s), s, 0)
      ensures forall c: nat | c < |old(s).caches| :: FrontRaced(old(s), s, c)
      ensures blockUsed == old(blockUsed) - |FreedAll(old(s), s)|
    {
      hide Inv, AllPadded, FrontRaced;
      ghost var s0 := s;
      var k := |caches|;
      SweptNone(s0);
      while k > 0
        invariant 0 <= k <= |caches| && Agrees() && Inv(s, {}) && AllPadded(s)
        invariant SweptFrom(s0, s, k) && FrontsFrom(s0, s, k)
        invariant blockUsed == old(blockUsed) - |FreedAll(s0, s)|
      {
        k := k - 1;
        ghost var t := s;
        SweepCache(caches[k]);
        SweptStep(s0, t, s, k);
        FreedStep(s0, t, s, k);
        FrontsStep(s0, t, s, k);
      }
    }

    // ----- get_free_block

    /** SLIST_REMOVE_HEAD(&arena->free_blocks, link) */
    method PopFreeBlock() returns (pg: Block)
      requires Agrees() && freeBlocks != null && Linked(s.blocks, s.free)
      modifies this`s, this`freeBlocks
      ensures old(s).free != [] && old(s).free[0] < |old(s).blocks|
      ensures Agrees() && s == PopFree(old(s)) && pg.page == old(s).free[0] && pages[pg.page] == pg
    {
      pg := freeBlocks;
      LinkedTail(s.blocks, s.free);
      assert BlockAgrees(s.free[0], s.blocks[s.free[0]]);
      freeBlocks := freeBlocks.link;
      s := PopFree(s);
      forall i | 0 <= i < |pages|
        ensures BlockAgrees(i, s.blocks[i])
      {
        assert old(BlockAgrees(i, s.blocks[i]));
      }
    }

    /** Carving the next block from a megablock: memory grows by one page whose contents
        are undefined, and num_free is set to zero. */
    method CarveBlock() returns (pg: Block)
      requires Agrees() && LinksInside(s)
      modifies this`s, this`pages, this`Repr
      ensures fresh(Repr - old(Repr)) && old(Repr) <= Repr
      ensures pages == old(pages) + [pg] && pg.page == |old(pages)| && caches == old(caches)
      ensures Agrees() && |s.blocks| == |old(s).blocks| + 1 && s == NewPage(old(s), s.blocks[|old(s).blocks|])
      ensures s.blocks[pg.page].place == Nowhere && s.blocks[pg.page].numFree == 0 && s.blocks[pg.page].entries == 0
    {
      pg := new Block(|pages|);
      ghost var st := FRESH.(color := pg.color, numPtrs := pg.numPtrs, size := pg.size);
      pages := pages + [pg];
      Repr := Repr + {pg, pg.used};
      s := NewPage(s, st);
      forall i | 0 <= i < |pages|
        ensures BlockAgrees(i, s.blocks[i])
      {
        if i < |old(pages)| { assert old(BlockAgrees(i, s.blocks[i])); }
      }
    }

    // ----- s_alloc

    /** The header s_alloc writes into a block it took from the free list or carved. */
    method WriteHeader(g: Geometry, pg: Block, head: Block?, ghost st: BlockSt)
      requires pg.Is(st)
      modifies pg
      ensures pg.Is(st.(color := g.color, numPtrs := g.numPtrs, size := g.size))
      ensures pg.nextFree == 0 && pg.link == head
    {
      pg.color := g.color;
      pg.numPtrs := g.numPtrs;
      pg.size := g.size;
      pg.nextFree := 0;
      pg.link := head;
    }

    /** Clearing the bitmap is skipped when num_free already is the number of entries:
        then the block came from the free list with a clean bitmap of that length. */
    method StartBitmap(n: nat, pg: Block, ghost st: BlockSt)
      requires pg.Is(st) && GoodEntries(n) && pg.nextFree == 0
      requires Clean(st) || st.numFree == 0
      modifies pg`numFree, pg.used
      ensures pg.Is(st.(entries := n, numFree := n - 1, marks := {0}, padded := Units(n) > 1))
    {
      ghost var now := st;
      if n != pg.numFree {
        pg.Clear(n, st);
        now := ClearSt(st, n);
      }
      pg.TakeFirst(n, now);
    }

    /** Header and bitmap of a block that starts with its first entry taken. */
    method FillBlock(g: Geometry, pg: Block, head: Block?, ghost st: BlockSt)
      requires pg.Is(st) && GoodEntries(g.entries) && (Clean(st) || st.numFree == 0)
      modifies pg, pg.used
      ensures forall place, link :: pg.Is(StartSt(st, g).(place := place, link := link))
      ensures pg.link == head
    {
      WriteHeader(g, pg, head, st);
      StartBitmap(g.entries, pg, st.(color := g.color, numPtrs := g.numPtrs, size := g.size));
      hide Block.Is;
      forall place, link
        ensures pg.Is(StartSt(st, g).(place := place, link := link))
      {
        pg.IsRelisted(StartSt(st, g), place, link);
      }
    }

    /** The branch of s_alloc that starts a block for the cache and takes its first entry. */
    method StartBlock(sc: Cache, pg: Block)
      requires Agrees() && pg.page < |pages| && pages[pg.page] == pg
      requires sc.id < |caches| && caches[sc.id] == sc && GoodEntries(sc.geometry.entries)
      requires Clean(s.blocks[pg.page]) || s.blocks[pg.page].numFree == 0
      modifies this`s, sc`blocks, pg, pg.used
      ensures Agrees() && s == Give(old(s), sc.id, pg.page)
    {
      hide Block.Is, Clean, GoodEntries, StartSt;
      assert BlockAgrees(pg.page, s.blocks[pg.page]);
      FillBlock(sc.geometry, pg, sc.blocks, s.blocks[pg.page]);
      sc.blocks := pg;
      s := Give(s, sc.id, pg.page);
      forall i | 0 <= i < |pages|
        ensures BlockAgrees(i, s.blocks[i])
      {
        assert old(BlockAgrees(i, s.blocks[i]));
      }
    }

    /** The other branch: the lowest clear bit found in the cache's first block. */
    method TakeBit(sc: Cache) returns (found: nat)
      requires Agrees() && sc.id < |caches| && caches[sc.id] == sc
      requires s.partial[sc.id] != [] && s.partial[sc.id][0] < |pages|
      requires var b := s.blocks[s.partial[sc.id][0]]; Fits(b, sc.geometry) && b.numFree > 0
      modifies this`s, sc.blocks, sc.blocks.used
      ensures found < sc.geometry.entries && found !in old(s).blocks[old(s).partial[sc.id][0]].marks
      ensures Agrees() && s == MarkEntry(old(s), old(s).partial[sc.id][0], found)
    {
      hide Block.BitsAre;
      var pg := sc.blocks;
      ghost var p := s.partial[sc.id][0];
      ghost var st := s.blocks[p];
      assert BlockAgrees(p, st);
      found := pg.TakeFree(sc.geometry.entries, st);
      s := MarkEntry(s, p, found);
      forall i | 0 <= i < |pages|
        ensures BlockAgrees(i, s.blocks[i])
      {
        assert old(BlockAgrees(i, s.blocks[i]));
      }
    }

    /** SLIST_REMOVE_HEAD(&sc->blocks, link) */
    method RemoveFirst(sc: Cache)
      requires Agrees() && sc.id < |caches| && caches[sc.id] == sc
      requires s.partial[sc.id] != [] && Linked(s.blocks, s.partial[sc.id])
      modifies this`s, sc`blocks
      ensures Agrees() && s == old(s).(partial := old(s).partial[sc.id := old(s).partial[sc.id][1..]])
    {
      hide Block.Is, Linked;
      ghost var c, l := sc.id, s.partial[sc.id];
      FirstIsIn(s.blocks, l);
      LinkedTail(s.blocks, l);
      assert BlockAgrees(l[0], s.blocks[l[0]]);
      assert sc.blocks == pages[l[0]] && sc.blocks.link == Ptr(Next(l[1..], 0));
      sc.blocks := sc.blocks.link;
      s := s.(partial := s.partial[sc.id := l[1..]]);
      forall i | 0 <= i < |pages|
        ensures BlockAgrees(i, s.blocks[i])
      {
        assert old(BlockAgrees(i, s.blocks[i]));
      }
    }

    /** A block whose last free entry was taken moves to the list of full blocks. */
    method MoveFirstToFull(sc: Cache)
      requires Agrees() && sc.id < |caches| && caches[sc.id] == sc
      requires s.partial[sc.id] != [] && Linked(s.blocks, s.partial[sc.id])
      modifies this`s, sc`blocks, sc`fullBlocks, sc.blocks`link
      ensures old(s).partial[sc.id][0] < |old(s).blocks|
      ensures Agrees() && s == FirstToFull(old(s), sc.id)
    {
      var pg := sc.blocks;
      RemoveFirst(sc);
      InsertFull(sc, pg);
    }

    /** The branch of s_alloc that takes an entry of the cache's first block. A block whose
        last free entry is taken moves to the list of full blocks. */
    method TakeEntry(sc: Cache) returns (found: nat)
      requires Agrees() && sc.id < |caches| && caches[sc.id] == sc
      requires s.partial[sc.id] != [] && s.partial[sc.id][0] < |pages| && Linked(s.blocks, s.partial[sc.id])
      requires var b := s.blocks[s.partial[sc.id][0]]; Fits(b, sc.geometry) && b.numFree > 0
      modifies this`s, sc`blocks, sc`fullBlocks, sc.blocks, sc.blocks.used
      ensures found < sc.geometry.entries && found !in old(s).blocks[old(s).partial[sc.id][0]].marks
      ensures Agrees() && s == TakeFrom(old(s), sc.id, found)
    {
      var pg := sc.blocks;
      found := TakeBit(sc);
      assert BlockAgrees(s.partial[sc.id][0], s.blocks[s.partial[sc.id][0]]);
      if pg.numFree == 0 {
        MarkingStaysLinked(old(s), s.partial[sc.id][0], found, s.partial[sc.id]);
        MoveFirstToFull(sc);
      }
    }

    // ----- caches

    /** new_arena */
    constructor ()
      ensures Agrees() && Inv(s, {}) && Sorted(s) && fresh(Repr)
      ensures s == Slabs([], [], [], [], []) && blockUsed == 0 && blockThreshold == 8
    {
      pages, caches := [], [];
      freeBlocks := null;
      blockUsed, blockThreshold := 0, 8;
      s := Slabs([], [], [], [], []);
      Repr := {this};
    }

    /** new_cache: a cache for entries of `size` words. Both numbers fit the bytes they are
        stored in; of these sizes exactly those for which two entries fit give a geometry the
        allocator can work with. */
    method NewCache(size: nat, numPtrs: nat) returns (sc: Cache)
      requires Agrees() && 1 <= size < 256 && numPtrs < 256
      modifies this`s, this`caches, this`Repr
      ensures Repr == old(Repr) + {sc} && fresh(sc)
      ensures 0 <= SlabLayout.NumEntries(size)
      ensures sc.geometry == Geometry(SlabLayout.Color(size), size, numPtrs, SlabLayout.NumEntries(size))
      ensures GeometryOk(sc.geometry) <==> size <= SlabLayout.MAX_SIZE && numPtrs <= size
      ensures (sc.geometry.entries + 1) * (64 * size + 1) <= 8 * (4096 - 24) < (sc.geometry.entries + 2) * (64 * size + 1)
      ensures caches == old(caches) + [sc] && sc.id == |old(caches)|
      ensures Agrees() && s == AddCache(old(s), sc.geometry)
    {
      var g := ComputeGeometry(size, numPtrs);
      hide GeometryOk, Block.Is, SlabLayout.Color, SlabLayout.NumEntries;
      sc := new Cache(|caches|, g);
      caches := caches + [sc];
      Repr := Repr + {sc};
      s := AddCache(s, g);
      forall i | 0 <= i < |pages|
        ensures BlockAgrees(i, s.blocks[i])
      {
        assert old(BlockAgrees(i, s.blocks[i]));
      }
    }

    /** find_cache: the newest cache for the size and pointer count, made if there is none. */
    method FindCache(size: nat, numPtrs: nat) returns (sc: Cache)
      requires Agrees() && 1 <= size < 256 && numPtrs < 256
      modifies this`s, this`caches, this`Repr
      ensures Agrees() && sc.id < |caches| && caches[sc.id] == sc
      ensures sc.geometry.size == size && sc.geometry.numPtrs == numPtrs
      ensures fresh(Repr - old(Repr)) && old(Repr) <= Repr
      ensures if exists c: nat :: c < |old(s).caches| && old(s).caches[c].size == size && old(s).caches[c].numPtrs == numPtrs
              then s == old(s)
              else s == AddCache(old(s), sc.geometry) && (GeometryOk(sc.geometry) <==> size <= SlabLayout.MAX_SIZE && numPtrs <= size)
    {
      var i := |caches|;
      while i > 0
        invariant 0 <= i <= |caches| && Agrees() && s == old(s) && Repr == old(Repr)
        invariant forall c: nat | i <= c < |caches| :: !(s.caches[c].size == size && s.caches[c].numPtrs == numPtrs)
      {
        i := i - 1;
        if caches[i].geometry.size == size && caches[i].geometry.numPtrs == numPtrs {
          return caches[i];
        }
      }
      sc := NewCache(size, numPtrs);
    }
  }

  /** The numbers new_cache computes. */
  method ComputeGeometry(size: nat, numPtrs: nat) returns (g: Geometry)
    requires 1 <= size < 256
    ensures 0 <= SlabLayout.NumEntries(size)
    ensures g == Geometry(SlabLayout.Color(size), size, numPtrs, SlabLayout.NumEntries(size))
    ensures GeometryOk(g) <==> size <= SlabLayout.MAX_SIZE && numPtrs <= size
    ensures (g.entries + 1) * (64 * size + 1) <= 8 * (4096 - 24) < (g.entries + 2) * (64 * size + 1)
  {
    SlabLayout.BlockUsed(SlabLayout.BLOCK_BYTES, SlabLayout.HEADER_BYTES, size);
    if size <= SlabLayout.MAX_SIZE { SlabLayout.GoodGeometry(size); } else { SlabLayout.FewEntriesOverrun(size); }
    var excess := SlabLayout.BLOCK_BYTES - SlabLayout.HEADER_BYTES;
    var numEntries := (8 * excess) / (8 * SlabLayout.WORD_BYTES * size + 1) - 1;
    var color := (SlabLayout.HEADER_BYTES + SlabLayout.WORD_BYTES * Units(numEntries) + SlabLayout.WORD_BYTES - 1) / SlabLayout.WORD_BYTES;
    g := Geometry(color, size, numPtrs, numEntries);
  }
}
