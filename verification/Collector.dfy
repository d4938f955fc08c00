/** The mark and sweep collector (gc_perform_gc of rts/rts/gc_jgc.c) over the objects of
    SlabArena.dfy, proved against the traversal of HeapMark.dfy. */
module Collector {
  import opened SmartPtr
  import opened HeapGraph
  import opened HeapInvariant
  import opened HeapMark
  import opened SlabModel
  import opened SlabSteps
  import opened SlabSweep
  import opened SlabBlock
  import opened SlabArena
  import opened MarkStack
  import SlabLayout

  /** What marking needs of the arena: every allocated entry lies in a held block. */
  ghost predicate SlabOk(s: Slabs, w: World) {
    && Inv(s, {}) && AllPadded(s)
    && NumPtrs(s) == w.np
    && forall a | a in w.alloc :: InHeap(s, a)
  }

  lemma MarkingKeepsSlabs(s: Slabs, w: World, a: Addr)
    requires SlabOk(s, w) && a in w.alloc
    ensures InHeap(s, a) && Tracks(s.blocks[a.page])
    ensures SlabOk(MarkEntry(s, a.page, a.idx), w)
    ensures Allocated(MarkEntry(s, a.page, a.idx)) == Allocated(s) + {a}
    ensures IsMarked(s, a) <==> a in Allocated(s)
    ensures Scanned(w.np, a) == s.blocks[a.page].numPtrs
    ensures HeldPages(MarkEntry(s, a.page, a.idx)) == HeldPages(s)
  {
    assert BlockOk(s, a.page, {});
    MarkEntryKeeps(s, a, {});
    AllocatedIs(s);
    AllocatedIs(MarkEntry(s, a.page, a.idx));
  }

  class Heap {
    const arena: Arena
    /** The CAFs: the static nodes that start out as thunks. */
    const cafs: set<Addr>
    /** The words of every entry and of every static node. */
    var words: Memory
    var rootStack: seq<Addr>
    /** The garbage collector's view of the stack: gc_stack_base up to gc. */
    var gcStack: seq<Sptr>
    ghost var lazies: set<Addr>
    ghost var live: set<Addr>

    ghost function TheWorld(): World
      reads this, arena
    {
      World(words, NumPtrs(arena.s), lazies, Allocated(arena.s), live)
    }

    /** Everything but the entries of `unwritten`, which have been handed out but not written. */
    ghost function WorldBut(unwritten: set<Addr>): World
      reads this, arena
    {
      TheWorld().(alloc := Allocated(arena.s) - unwritten)
    }

    /** The allocator's part of the invariant, while `flying` blocks are on no list. */
    ghost predicate ArenaValid(flying: set<nat>)
      reads this, arena, arena.Repr
    {
      && this !in arena.Repr
      && arena.Agrees() && Inv(arena.s, flying) && Sorted(arena.s)
      && arena.blockUsed == |HeldPages(arena.s)| + |flying|
    }

    /** Which static nodes are lazy locations never changes. */
    ghost predicate StaticsOk()
      reads this
    {
      forall a: Addr | a.Static? :: a in lazies <==> a in cafs
    }

    ghost predicate HeapValid(unwritten: set<Addr>)
      reads this, arena
    {
      && unwritten <= Allocated(arena.s)
      && StaticsOk()
      && WorldOk(WorldBut(unwritten)) && RootsOk(WorldBut(unwritten), rootStack, gcStack)
    }

    /** What holds between any two steps of the mutator. */
    ghost predicate Valid()
      reads this, arena, arena.Repr
    {
      ArenaValid({}) && HeapValid({})
    }

    /** jhc_alloc_init: no entry is allocated; the static nodes are those the compiled
        program comes with, which point to each other only, and no CAF among them has been
        evaluated. */
    constructor (statics: Memory, cafs: set<Addr>)
      requires forall a | a in statics :: a.Static?
      requires forall a | a in cafs :: a.Static? && a in statics && statics[a] != [] && statics[a][0].Func?
      requires StaticsClosed(statics, cafs)
      ensures Valid() && words == statics && rootStack == [] && gcStack == [] && this.cafs == cafs
    {
      arena := new Arena();
      this.cafs := cafs;
      words := statics;
      rootStack, gcStack := [], [];
      lazies, live := cafs, {};
      new;
      assert WorldBut({}) == TheWorld();
      assert forall a | a in lazies :: IsLazy(Head(words, a)) && Target(Lazy(a)) == {};
    }

    ghost function MarksAt(stack: Stack, seen: set<Addr>): Marks
      requires stack.Valid()
      reads this, arena, stack, stack.Repr
    {
      Marks(words, Allocated(arena.s), stack.Contents(), seen)
    }

    ghost predicate Apart(stack: Stack)
      reads this, arena, stack
    {
      stack.Repr !! arena.Repr && arena !in stack.Repr && this !in arena.Repr && this !in stack.Repr
    }

    ghost predicate Marking(stack: Stack, w: World)
      reads this, arena, arena.Repr, stack, stack.Repr
    {
      arena.Agrees() && SlabOk(arena.s, w) && stack.Valid() && Apart(stack)
    }

    /** gc_add_grey */
    method AddGreyTo(stack: Stack, a: Addr, ghost w: World, ghost seen: set<Addr>)
      requires Marking(stack, w) && stack.Room() >= 1
      requires a.Entry? ==> a in w.alloc
      modifies arena`s, arena.Repr - {arena}, stack.Repr
      ensures Marking(stack, w) && stack.Repr == old(stack.Repr) && stack.Room() >= old(stack.Room()) - 1
      ensures MarksAt(stack, seen) == if a.Entry? then AddGrey(w.np, old(MarksAt(stack, seen)), a) else old(MarksAt(stack, seen))
      ensures HeldPages(arena.s) == old(HeldPages(arena.s))
    {
      hide SlabOk, Inv, AllPadded, Arena.Agrees, Tracks, InHeap, HeldPages, Allocated;
      if a.Entry? {
        MarkingKeepsSlabs(arena.s, w, a);
        var scan := arena.SetUsedBit(a);
        if scan {
          stack.Push(a);
        }
      }
    }

    /** One word of the inner loop of gc_mark_deeper: short-circuited if it points lazily
        at an evaluated location, then followed. */
    method ScanWord(stack: Stack, e: Addr, i: nat, ghost w: World, ghost from: set<Addr>, ghost seen: set<Addr>)
      requires Marking(stack, w) && WorldOk(w) && stack.Room() >= 1
      requires MarkInv(w, from, MarksAt(stack, seen), [e], i) && i < Scanned(w.np, e)
      modifies this`words, arena`s, arena.Repr - {arena}, stack.Repr
      ensures Marking(stack, w) && stack.Repr == old(stack.Repr) && stack.Room() >= old(stack.Room()) - 1
      ensures MarkInv(w, from, MarksAt(stack, seen), [e], i + 1)
      ensures Work(w, MarksAt(stack, seen)) <= old(Work(w, MarksAt(stack, seen)))
      ensures HeldPages(arena.s) == old(HeldPages(arena.s)) && old(Allocated(arena.s)) <= Allocated(arena.s)
    {
      hide SlabOk, MarkInv, WorldOk, Work;
      ghost var g := MarksAt(stack, seen);
      ScanStepKeeps(w, from, g, e, i);
      LiveAllocated(w);
      RewriteSame(g, e, i);
      var p := words[e][i];
      if p.Lazy? && !IsLazy(words[p.loc][0]) {
        p := words[p.loc][0];
        words := words[e := words[e][i := p]];
      }
      assert words == Rewrite(g, e, i).m;
      if IsPtr(p) {
        AddGreyTo(stack, p.loc, w, seen);
      }
    }

    /** gc_mark_deeper */
    method MarkDeeper(stack: Stack, ghost w: World, ghost from: set<Addr>, ghost seen: set<Addr>)
      requires Marking(stack, w) && WorldOk(w)
      requires MarkInv(w, from, MarksAt(stack, seen), [], 0)
      modifies this`words, arena`s, arena.Repr - {arena}, stack.Repr
      ensures Marking(stack, w) && stack.Contents() == [] && fresh(stack.Repr - old(stack.Repr))
      ensures MarkInv(w, from, MarksAt(stack, seen), [], 0)
      ensures HeldPages(arena.s) == old(HeldPages(arena.s)) && old(Allocated(arena.s)) <= Allocated(arena.s)
    {
      hide SlabOk, MarkInv, WorldOk, Work, arena.Agrees;
      while stack.ptr != 0
        invariant Marking(stack, w) && fresh(stack.Repr - old(stack.Repr))
        invariant MarkInv(w, from, MarksAt(stack, seen), [], 0)
        invariant HeldPages(arena.s) == old(HeldPages(arena.s)) && old(Allocated(arena.s)) <= Allocated(arena.s)
        decreases Work(w, MarksAt(stack, seen))
      {
        ghost var g := MarksAt(stack, seen);
        PopGreyKeeps(w, from, g);
        var e := stack.Pop();
        assert MarksAt(stack, seen) == g.(grey := g.grey[..|g.grey| - 1]);
        MarkObject(stack, e, w, from, seen);
      }
    }

    /** The inner loop of gc_mark_deeper: every scanned word of one object. */
    method MarkObject(stack: Stack, e: Addr, ghost w: World, ghost from: set<Addr>, ghost seen: set<Addr>)
      requires Marking(stack, w) && WorldOk(w) && e in w.live
      requires MarkInv(w, from, MarksAt(stack, seen), [e], 0)
      modifies this`words, arena`s, arena.Repr - {arena}, stack.Repr
      ensures Marking(stack, w) && fresh(stack.Repr - old(stack.Repr))
      ensures MarkInv(w, from, MarksAt(stack, seen), [], 0)
      ensures Work(w, MarksAt(stack, seen)) <= old(Work(w, MarksAt(stack, seen)))
      ensures HeldPages(arena.s) == old(HeldPages(arena.s)) && old(Allocated(arena.s)) <= Allocated(arena.s)
    {
      hide SlabOk, MarkInv, WorldOk, Work;
      LiveAllocated(w);
      PageInside(arena.s, w, e);
      var numPtrs := arena.pages[e.page].numPtrs;
      assert arena.BlockAgrees(e.page, arena.s.blocks[e.page]);
      stack.Check(numPtrs);
      var i := 0;
      while i < numPtrs
        invariant 0 <= i <= numPtrs == Scanned(w.np, e)
        invariant Marking(stack, w) && fresh(stack.Repr - old(stack.Repr)) && stack.Room() >= numPtrs - i
        invariant MarkInv(w, from, MarksAt(stack, seen), [e], i)
        invariant Work(w, MarksAt(stack, seen)) <= old(Work(w, MarksAt(stack, seen)))
        invariant HeldPages(arena.s) == old(HeldPages(arena.s)) && old(Allocated(arena.s)) <= Allocated(arena.s)
      {
        ScanWord(stack, e, i, w, from, seen);
        i := i + 1;
      }
      ObjectDone(w, from, MarksAt(stack, seen), e);
    }

    /** One root of the loop over root_stack in gc_perform_gc. */
    method MarkRoot(stack: Stack, i: nat, ghost w: World)
      requires Marking(stack, w) && WorldOk(w) && RootsOk(w, rootStack, gcStack) && stack.Room() >= 1
      requires i < |rootStack| && Seeded(w, rootStack, i, gcStack, 0, MarksAt(stack, {}))
      modifies arena`s, arena.Repr - {arena}, stack.Repr
      ensures Marking(stack, w) && stack.Repr == old(stack.Repr) && stack.Room() >= old(stack.Room()) - 1
      ensures Seeded(w, rootStack, i + 1, gcStack, 0, MarksAt(stack, {}))
      ensures HeldPages(arena.s) == old(HeldPages(arena.s))
    {
      SeedRoot(w, rootStack, i, gcStack, MarksAt(stack, {}));
      LiveAllocated(w);
      hide SlabOk, WorldOk, RootsOk, Seeded, AddGrey;
      AddGreyTo(stack, rootStack[i], w, {});
    }

    /** The loop over root_stack in gc_perform_gc. */
    method MarkRoots(stack: Stack, ghost w: World)
      requires Marking(stack, w) && WorldOk(w) && RootsOk(w, rootStack, gcStack)
      requires MarksAt(stack, {}) == Marks(w.m, {}, [], {})
      modifies arena`s, arena.Repr - {arena}, stack.Repr
      ensures Marking(stack, w) && fresh(stack.Repr - old(stack.Repr))
      ensures Seeded(w, rootStack, |rootStack|, gcStack, 0, MarksAt(stack, {}))
      ensures HeldPages(arena.s) == old(HeldPages(arena.s))
    {
      SeedEmpty(w, rootStack, gcStack);
      hide SlabOk, WorldOk, RootsOk, Seeded;
      stack.Check(|rootStack|);
      var i := 0;
      while i < |rootStack|
        invariant 0 <= i <= |rootStack|
        invariant Marking(stack, w) && fresh(stack.Repr - old(stack.Repr)) && stack.Room() >= |rootStack| - i
        invariant Seeded(w, rootStack, i, gcStack, 0, MarksAt(stack, {}))
        invariant HeldPages(arena.s) == old(HeldPages(arena.s))
      {
        MarkRoot(stack, i, w);
        i := i + 1;
      }
    }

    /** One word of the loop over the stack in gc_perform_gc. An evaluated lazy location is
        marked but not pushed; what it was evaluated to is followed. */
    method MarkStackWord(stack: Stack, i: nat, ghost w: World, ghost seen: set<Addr>) returns (ghost seen': set<Addr>)
      requires Marking(stack, w) && WorldOk(w) && RootsOk(w, rootStack, gcStack) && stack.Room() >= 1
      requires i < |gcStack| && Seeded(w, rootStack, |rootStack|, gcStack, i, MarksAt(stack, seen))
      modifies arena`s, arena.Repr - {arena}, stack.Repr
      ensures Marking(stack, w) && stack.Repr == old(stack.Repr) && stack.Room() >= old(stack.Room()) - 1
      ensures Seeded(w, rootStack, |rootStack|, gcStack, i + 1, MarksAt(stack, seen'))
      ensures HeldPages(arena.s) == old(HeldPages(arena.s))
    {
      ghost var g := MarksAt(stack, seen);
      SeedStack(w, rootStack, gcStack, i, g);
      LiveAllocated(w);
      SeededWords(w, rootStack, gcStack, i, g);
      hide SlabOk, WorldOk, RootsOk, Seeded, AddGrey;
      var p := gcStack[i];
      seen' := seen;
      if p.Lazy? && !IsLazy(words[p.loc][0]) {
        if p.loc.Entry? {
          seen' := AddSeen(g, p.loc).seen;
          MarkSeen(stack, p.loc, w, seen, seen');
        }
        p := words[p.loc][0];
      }
      if IsPtr(p) {
        AddGreyTo(stack, p.loc, w, seen');
      }
    }

    /** s_set_used_bit with its result ignored. */
    method MarkSeen(stack: Stack, a: Addr, ghost w: World, ghost seen: set<Addr>, ghost seen': set<Addr>)
      requires Marking(stack, w) && a in w.alloc && a.Entry? && seen' == AddSeen(MarksAt(stack, seen), a).seen
      modifies arena`s, arena.Repr - {arena}
      ensures Marking(stack, w) && MarksAt(stack, seen') == AddSeen(old(MarksAt(stack, seen)), a)
      ensures HeldPages(arena.s) == old(HeldPages(arena.s))
    {
      hide SlabOk, Inv, AllPadded;
      MarkingKeepsSlabs(arena.s, w, a);
      var _ := arena.SetUsedBit(a);
    }

    /** The loop over the stack in gc_perform_gc. */
    method MarkStackWords(stack: Stack, ghost w: World) returns (ghost seen: set<Addr>)
      requires Marking(stack, w) && WorldOk(w) && RootsOk(w, rootStack, gcStack)
      requires Seeded(w, rootStack, |rootStack|, gcStack, 0, MarksAt(stack, {}))
      modifies arena`s, arena.Repr - {arena}, stack.Repr
      ensures Marking(stack, w) && fresh(stack.Repr - old(stack.Repr))
      ensures Seeded(w, rootStack, |rootStack|, gcStack, |gcStack|, MarksAt(stack, seen))
      ensures HeldPages(arena.s) == old(HeldPages(arena.s))
    {
      hide SlabOk, WorldOk, RootsOk, Seeded;
      seen := {};
      stack.Check(|gcStack|);
      var i := 0;
      while i < |gcStack|
        invariant 0 <= i <= |gcStack|
        invariant Marking(stack, w) && fresh(stack.Repr - old(stack.Repr)) && stack.Room() >= |gcStack| - i
        invariant Seeded(w, rootStack, |rootStack|, gcStack, i, MarksAt(stack, seen))
        invariant HeldPages(arena.s) == old(HeldPages(arena.s))
      {
        seen := MarkStackWord(stack, i, w, seen);
        i := i + 1;
      }
    }

    /** What a collection does, in terms of the heap `w` before it: the used bits are those
        of `g`, the end of a traversal from the roots and the stack. */
    ghost predicate Collected(w: World, g: Marks)
      reads this, arena
    {
      && Finished(w, rootStack, gcStack, g)
      && words == g.m && Allocated(arena.s) == g.marked && NumPtrs(arena.s) == w.np
    }

    /** The marking phase. */
    method MarkAll(ghost w: World) returns (ghost g: Marks)
      requires this !in arena.Repr && arena.Agrees() && SlabOk(arena.s, w)
      requires WorldOk(w) && RootsOk(w, rootStack, gcStack) && words == w.m && Allocated(arena.s) == {}
      modifies this`words, arena`s, arena.Repr - {arena}
      ensures arena.Agrees() && SlabOk(arena.s, w) && Collected(w, g)
      ensures HeldPages(arena.s) == old(HeldPages(arena.s))
    {
      hide SlabOk, WorldOk, RootsOk, Seeded, Finished, MarkInv;
      var stack := new Stack();
      MarkRoots(stack, w);
      ghost var seen := MarkStackWords(stack, w);
      ghost var g0 := MarksAt(stack, seen);
      SeededWords(w, rootStack, gcStack, |gcStack|, g0);
      MarkDeeper(stack, w, Start(w.m, rootStack, gcStack), seen);
      g := MarksAt(stack, seen);
      SeededFinishes(w, rootStack, gcStack, g0, g);
      SlabNp(arena.s, w);
    }

    /** gc_perform_gc, in the middle of an allocation that already counted its block.
        Afterwards the used bits are exactly the entries reachable from the roots and the
        stack, and the evaluated lazy locations on the stack; the heap invariant holds
        again; and block_used dropped by the number of blocks returned to the arena. */
    method PerformGc() returns (ghost g: Marks)
      requires this !in arena.Repr && arena.Agrees() && Inv(arena.s, {})
      requires WorldOk(TheWorld()) && RootsOk(TheWorld(), rootStack, gcStack)
      modifies this`words, this`live, arena`s, arena`freeBlocks, arena`blockUsed, arena.Repr - {arena}
      ensures arena.Agrees() && Inv(arena.s, {}) && Sorted(arena.s)
      ensures WorldOk(TheWorld()) && RootsOk(TheWorld(), rootStack, gcStack)
      ensures Collected(old(TheWorld()), g) && TheWorld() == After(old(TheWorld()), g)
      ensures forall a :: a in Allocated(arena.s) <==> InUse(old(TheWorld()), rootStack, gcStack, a)
      ensures forall a :: a in live <==> old(Reachable(words, NumPtrs(arena.s), Start(words, rootStack, gcStack), a))
      ensures arena.blockUsed - |HeldPages(arena.s)| == old(arena.blockUsed) - old(|HeldPages(arena.s)|)
    {
      hide WorldOk, RootsOk, Inv, Finished, AllPadded, Sorted, SlabOk, SweptFrom, HeldPages, FreedAll, ClearAll, NumPtrs, Allocated;
      ghost var w, s0 := TheWorld(), arena.s;
      arena.ClearUsedBits();
      ClearedSlabs(s0, w);
      g := MarkAll(w);
      ghost var s1 := arena.s;
      SlabParts(s1, w);
      arena.CleanupBlocks();
      SweptSlabs(s1, arena.s);
      live := g.marked - g.seen;
      WorldStaysOk(w, rootStack, gcStack, g);
      MarksAreReachable(w, rootStack, gcStack, g);
      assert TheWorld() == After(w, g);
    }

    // ----- get_free_block

    /** hs_perform_gc: a collection the program asks for. */
    method CollectNow()
      requires Valid()
      modifies this`words, this`live, arena`s, arena`freeBlocks, arena`blockUsed, arena.Repr - {arena}
      ensures Valid() && Collects(old(TheWorld()), rootStack, gcStack, TheWorld())
    {
      ButNothing();
      hide WorldOk, RootsOk, Inv, Sorted, HeldPages, Finished;
      var _ := PerformGc();
      ButNothing();
    }

    /** The collection that get_free_block runs when the block it just counted reaches the
        threshold; the threshold is doubled if nine tenths of it are still in use. */
    method CollectIfDue()
      requires Counting() && HeapValid({})
      modifies this`words, this`live, arena`s, arena`freeBlocks, arena`blockUsed, arena`blockThreshold, arena.Repr - {arena}
      ensures Counting() && HeapValid({})
      ensures if old(arena.blockUsed >= arena.blockThreshold) then Collects(old(TheWorld()), rootStack, gcStack, TheWorld())
              else TheWorld() == old(TheWorld())
      ensures arena.blockThreshold ==
              if old(arena.blockUsed >= arena.blockThreshold) then Raised(arena.blockUsed, old(arena.blockThreshold))
              else old(arena.blockThreshold)
    {
      ButNothing();
      hide WorldOk, RootsOk, Inv, Sorted, HeldPages, Finished;
      if arena.blockUsed >= arena.blockThreshold {
        var _ := PerformGc();
        if arena.blockUsed * 10 >= arena.blockThreshold * 9 {
          arena.blockThreshold := arena.blockThreshold * 2;
        }
        ButNothing();
      }
    }

    lemma ButNothing()
      ensures WorldBut({}) == TheWorld()
    {
      assert Allocated(arena.s) - {} == Allocated(arena.s);
    }

    /** The allocator's part of the invariant while a block is counted but not yet taken. */
    ghost predicate Counting()
      reads this, arena, arena.Repr
    {
      && this !in arena.Repr
      && arena.Agrees() && Inv(arena.s, {}) && Sorted(arena.s)
      && arena.blockUsed == |HeldPages(arena.s)| + 1
    }

    ghost predicate InFlight(pg: Block)
      reads this, arena, arena.Repr
    {
      && ArenaValid({pg.page}) && HeapValid({})
      && pg.page < |arena.pages| && arena.pages[pg.page] == pg
      && arena.s.blocks[pg.page].place == Nowhere
      && (Clean(arena.s.blocks[pg.page]) || arena.s.blocks[pg.page].numFree == 0)
    }

    method ReuseBlock() returns (pg: Block)
      requires Counting() && HeapValid({}) && arena.freeBlocks != null
      modifies arena`s, arena`freeBlocks
      ensures InFlight(pg) && Grown(old(TheWorld()), TheWorld(), {})
    {
      hide WorldOk, RootsOk, Inv, Sorted, HeldPages, Clean;
      ghost var w, s0 := WorldBut({}), arena.s;
      ButNothing();
      FreeLinked(s0);
      pg := arena.PopFreeBlock();
      BlockTaken(s0, arena.s, pg.page);
      AllocationKeepsHeap(w, {});
    }

    method NewBlock() returns (pg: Block)
      requires Counting() && HeapValid({})
      modifies arena`s, arena`pages, arena`Repr
      ensures fresh(arena.Repr - old(arena.Repr)) && old(arena.Repr) <= arena.Repr
      ensures InFlight(pg) && Grown(old(TheWorld()), TheWorld(), {})
    {
      hide WorldOk, RootsOk, Inv, Sorted, HeldPages, Clean, LinksInside;
      ghost var w, s0 := WorldBut({}), arena.s;
      ButNothing();
      LinksAreInside(s0);
      pg := arena.CarveBlock();
      BlockTaken(s0, arena.s, pg.page);
      AllocationKeepsHeap(w, {});
    }

    /** A block that is asked for now is taken only after a collection. */
    predicate Due()
      reads arena
    {
      arena.freeBlocks == null && arena.blockUsed + 1 >= arena.blockThreshold
    }

    /** get_free_block: the block is counted first, then taken from the free list or, after
        a collection if one is due, carved from a megablock. `mid` is the heap just before
        the block is taken. */
    method GetFreeBlock() returns (pg: Block, ghost mid: World)
      requires Valid()
      modifies this`words, this`live, arena`s, arena`freeBlocks, arena`blockUsed, arena`blockThreshold, arena`pages, arena`Repr, arena.Repr - {arena}
      ensures fresh(arena.Repr - old(arena.Repr)) && old(arena.Repr) <= arena.Repr
      ensures InFlight(pg)
      ensures Became(old(TheWorld()), rootStack, gcStack, old(Due()), mid) && Grown(mid, TheWorld(), {})
      ensures arena.blockThreshold ==
              if old(Due()) then Raised(arena.blockUsed, old(arena.blockThreshold)) else old(arena.blockThreshold)
    {
      hide WorldOk, RootsOk, Inv, Sorted, HeldPages, InFlight, Collects, Grown;
      arena.blockUsed := arena.blockUsed + 1;
      if arena.freeBlocks != null {
        mid := TheWorld();
        pg := ReuseBlock();
      } else {
        pg, mid := CarveAfterGc();
      }
    }

    method CarveAfterGc() returns (pg: Block, ghost mid: World)
      requires Counting() && HeapValid({})
      modifies this`words, this`live, arena`s, arena`freeBlocks, arena`blockUsed, arena`blockThreshold, arena`pages, arena`Repr, arena.Repr - {arena}
      ensures fresh(arena.Repr - old(arena.Repr)) && old(arena.Repr) <= arena.Repr
      ensures InFlight(pg)
      ensures Became(old(TheWorld()), rootStack, gcStack, old(arena.blockUsed >= arena.blockThreshold), mid) && Grown(mid, TheWorld(), {})
      ensures arena.blockThreshold ==
              if old(arena.blockUsed >= arena.blockThreshold) then Raised(arena.blockUsed, old(arena.blockThreshold)) else old(arena.blockThreshold)
    {
      hide WorldOk, RootsOk, Inv, Sorted, HeldPages, InFlight, Collects, Grown;
      CollectIfDue();
      mid := TheWorld();
      pg := NewBlock();
    }

    // ----- s_alloc

    /** What s_alloc promises about the entry it returns: it was not in use, its used bit
        is now set, it belongs to a block of the cache, and it has not been written. */
    ghost predicate Handed(a: Addr, g: Geometry)
      reads this, arena, arena.Repr
    {
      && ArenaValid({}) && HeapValid({a})
      && InHeap(arena.s, a) && Fits(arena.s.blocks[a.page], g)
    }

    /** The branch of s_alloc for a cache without a block that has a free entry. */
    method StartEntry(sc: Cache, pg: Block) returns (a: Addr, val: nat)
      requires InFlight(pg) && sc.id < |arena.caches| && arena.caches[sc.id] == sc
      modifies arena`s, arena.Repr - {arena}
      ensures Handed(a, sc.geometry) && Grown(old(TheWorld()), TheWorld(), {a})
      ensures SlabLayout.AddressOf(val, a.page, sc.geometry.color, sc.geometry.size, a.idx)
    {
      hide WorldOk, RootsOk, Inv, Sorted, HeldPages, Fits, Clean, SlabLayout.AddressOf, SlabLayout.NumEntries, SlabLayout.Color;
      ghost var w, s0 := WorldBut({}), arena.s;
      ButNothing();
      GeometryGood(s0, {pg.page}, sc.id);
      arena.StartBlock(sc, pg);
      a := Entry(pg.page, 0);
      val := SlabLayout.EntryAddress(pg.page, sc.geometry.color, sc.geometry.size, 0);
      BlockGiven(s0, sc.id, pg.page);
      AllocationKeepsHeap(w, {a});
    }

    /** The branch of s_alloc for a cache whose first block has a free entry. */
    method NextEntry(sc: Cache) returns (a: Addr, val: nat)
      requires Valid() && sc.id < |arena.caches| && arena.caches[sc.id] == sc && sc.blocks != null
      modifies arena`s, arena.Repr - {arena}
      ensures Handed(a, sc.geometry) && Grown(old(TheWorld()), TheWorld(), {a})
      ensures SlabLayout.AddressOf(val, a.page, sc.geometry.color, sc.geometry.size, a.idx)
    {
      hide WorldOk, RootsOk, Inv, Sorted, HeldPages, Fits, Linked, TakeFrom, NumPtrs, Allocated, SlabLayout.AddressOf, SlabLayout.NumEntries, SlabLayout.Color;
      ghost var w, s0 := WorldBut({}), arena.s;
      ButNothing();
      FirstBlock(s0, sc.id);
      GeometryGood(s0, {}, sc.id);
      var pg := sc.blocks;
      var found := arena.TakeEntry(sc);
      a := Entry(pg.page, found);
      val := SlabLayout.EntryAddress(pg.page, sc.geometry.color, sc.geometry.size, found);
      EntryTaken(s0, sc.id, found);
      AllocationKeepsHeap(w, {a});
    }

    /** s_alloc: over any heap, whether or not a collection runs, the entry handed out is one
        that was not in use, and nothing else becomes allocated. `val` is its address; `mid`
        is the heap after the collection, if one was due, and else the heap before the call. */
    method SAlloc(sc: Cache) returns (a: Addr, val: nat, ghost mid: World)
      requires Valid() && sc.id < |arena.caches| && arena.caches[sc.id] == sc
      modifies this`words, this`live, arena`s, arena`freeBlocks, arena`blockUsed, arena`blockThreshold, arena`pages, arena`Repr, arena.Repr - {arena}
      ensures fresh(arena.Repr - old(arena.Repr)) && old(arena.Repr) <= arena.Repr
      ensures Handed(a, sc.geometry) && !InUse(old(TheWorld()), rootStack, gcStack, a)
      ensures Became(old(TheWorld()), rootStack, gcStack, old(sc.blocks == null && Due()), mid) && Grown(mid, TheWorld(), {a})
      ensures arena.blockThreshold ==
              if old(sc.blocks == null && Due()) then Raised(arena.blockUsed, old(arena.blockThreshold)) else old(arena.blockThreshold)
      ensures SlabLayout.AddressOf(val, a.page, sc.geometry.color, sc.geometry.size, a.idx)
    {
      ghost var w := TheWorld();
      ButNothing();
      hide WorldOk, RootsOk, Inv, Sorted, HeldPages, InFlight, Handed, Became, Grown, InUse, SlabLayout.AddressOf;
      if sc.blocks == null {
        var pg;
        pg, mid := GetFreeBlock();
        ghost var v := TheWorld();
        a, val := StartEntry(sc, pg);
        GrownTwice(mid, v, TheWorld(), {a});
      } else {
        mid := w;
        BecameNothing(w, rootStack, gcStack);
        a, val := NextEntry(sc);
      }
      NotInUse(w, rootStack, gcStack, old(sc.blocks == null && Due()), mid, TheWorld(), a);
    }

    /** The heap invariant survives a step of the allocator that writes no words. */
    lemma AllocationKeepsHeap(w: World, unwritten: set<Addr>)
      requires WorldOk(w) && RootsOk(w, rootStack, gcStack)
      requires w.m == words && w.lazies == lazies && w.live == live && StaticsOk()
      requires Allocated(arena.s) == w.alloc + unwritten && w.alloc !! unwritten
      requires forall a | a in w.alloc :: Scanned(NumPtrs(arena.s), a) == Scanned(w.np, a)
      ensures HeapValid(unwritten) && Grown(w, TheWorld(), unwritten)
    {
      var v := WorldBut(unwritten);
      assert v.alloc == w.alloc;
      AllocationKeeps(w, v, rootStack, gcStack);
    }
  }

  /** The threshold after a collection that left `used` blocks in use. */
  function Raised(used: int, threshold: int): int {
    if used * 10 >= threshold * 9 then threshold * 2 else threshold
  }

  /** After a collection that left less than nine fifths of the threshold in use, less than
      nine tenths of the new threshold are; it stays as it was if that is so already, and
      otherwise is twice as large. */
  lemma RaisedEnough(used: nat, threshold: nat)
    requires 5 * used < 9 * threshold
    ensures 10 * used < 9 * Raised(used, threshold)
    ensures Raised(used, threshold) == threshold <==> 10 * used < 9 * threshold
    ensures Raised(used, threshold) == threshold || Raised(used, threshold) == 2 * threshold
  {}

  lemma FreeLinked(s: Slabs)
    requires Inv(s, {})
    ensures Linked(s.blocks, s.free)
  {}

  lemma GeometryGood(s: Slabs, flying: set<nat>, c: nat)
    requires Inv(s, flying) && c < |s.caches|
    ensures GeometryOk(s.caches[c])
  {}

  /** The first block of a cache's first list has a free entry. */
  lemma FirstBlock(s: Slabs, c: nat)
    requires Inv(s, {}) && Sorted(s) && c < |s.caches|
    ensures Linked(s.blocks, s.partial[c])
    ensures s.partial[c] != [] ==>
              && s.partial[c][0] < |s.blocks|
              && Fits(s.blocks[s.partial[c][0]], s.caches[c]) && s.blocks[s.partial[c][0]].numFree > 0
  {
    assert ListOk(s.blocks, s.partial[c], Partial(c));
    if s.partial[c] != [] { assert BlockOk(s, s.partial[c][0], {}); }
  }

  /** Taking a block off the free list, or carving one, changes nothing the heap sees. */
  lemma BlockTaken(s: Slabs, t: Slabs, p: nat)
    requires Inv(s, {}) && Sorted(s)
    requires || (s.free != [] && p == s.free[0] && p < |s.blocks| && t == PopFree(s))
             || (p == |s.blocks| && |t.blocks| == p + 1 && t == NewPage(s, t.blocks[p])
                 && t.blocks[p].place == Nowhere && t.blocks[p].numFree == 0)
    ensures Inv(t, {p}) && Sorted(t) && p < |t.blocks|
    ensures Allocated(t) == Allocated(s) && HeldPages(t) == HeldPages(s)
    ensures t.blocks[p].place == Nowhere && (Clean(t.blocks[p]) || t.blocks[p].numFree == 0)
    ensures forall a | a in Allocated(s) :: Scanned(NumPtrs(t), a) == Scanned(NumPtrs(s), a)
  {
    AllocatedIs(s);
    AllocatedIs(t);
    if p == |s.blocks| {
      NewPageKeeps(s, t.blocks[p]);
    } else {
      PopFreeKeeps(s);
    }
  }

  lemma BlockGiven(s: Slabs, c: nat, p: nat)
    requires Inv(s, {p}) && Sorted(s) && p < |s.blocks| && s.blocks[p].place == Nowhere && c < |s.caches|
    ensures Inv(Give(s, c, p), {}) && Sorted(Give(s, c, p))
    ensures Entry(p, 0) !in Allocated(s) && Allocated(Give(s, c, p)) == Allocated(s) + {Entry(p, 0)}
    ensures |HeldPages(Give(s, c, p))| == |HeldPages(s)| + 1
    ensures forall a | a in Allocated(s) :: Scanned(NumPtrs(Give(s, c, p)), a) == Scanned(NumPtrs(s), a)
    ensures InHeap(Give(s, c, p), Entry(p, 0)) && Fits(Give(s, c, p).blocks[p], s.caches[c])
  {
    GiveKeeps(s, c, p);
    AllocatedIs(s);
    AllocatedIs(Give(s, c, p));
    assert BlockOk(Give(s, c, p), p, {});
  }

  lemma EntryTaken(s: Slabs, c: nat, k: nat)
    requires Inv(s, {}) && Sorted(s) && c < |s.caches| && s.partial[c] != [] && s.partial[c][0] < |s.blocks|
    requires k < s.caches[c].entries && k !in s.blocks[s.partial[c][0]].marks
    ensures Inv(TakeFrom(s, c, k), {}) && Sorted(TakeFrom(s, c, k))
    ensures Entry(s.partial[c][0], k) !in Allocated(s)
    ensures Allocated(TakeFrom(s, c, k)) == Allocated(s) + {Entry(s.partial[c][0], k)}
    ensures HeldPages(TakeFrom(s, c, k)) == HeldPages(s) && NumPtrs(TakeFrom(s, c, k)) == NumPtrs(s)
    ensures InHeap(TakeFrom(s, c, k), Entry(s.partial[c][0], k))
    ensures Fits(TakeFrom(s, c, k).blocks[s.partial[c][0]], s.caches[c])
  {
    TakeFromKeeps(s, c, k);
    AllocatedIs(s);
    AllocatedIs(TakeFrom(s, c, k));
    assert BlockOk(s, s.partial[c][0], {});
    assert BlockOk(TakeFrom(s, c, k), s.partial[c][0], {});
  }

  lemma SlabNp(s: Slabs, w: World)
    requires SlabOk(s, w)
    ensures NumPtrs(s) == w.np
  {}

  lemma SlabParts(s: Slabs, w: World)
    requires SlabOk(s, w)
    ensures Inv(s, {}) && AllPadded(s)
  {}

  lemma ClearedSlabs(s: Slabs, w: World)
    requires Inv(s, {}) && w.alloc == Allocated(s) && w.np == NumPtrs(s)
    ensures SlabOk(ClearAll(s), w) && Allocated(ClearAll(s)) == {}
    ensures HeldPages(ClearAll(s)) == HeldPages(s)
  {
    ClearAllKeeps(s, {});
    AllocatedIs(s);
    AllocatedIs(ClearAll(s));
    forall a | a in w.alloc
      ensures InHeap(s, a)
    {
      assert BlockOk(s, a.page, {});
    }
  }

  lemma SweptSlabs(s: Slabs, t: Slabs)
    requires Inv(s, {}) && Inv(t, {}) && SweptFrom(s, t, 0)
    ensures Sorted(t) && Allocated(t) == Allocated(s) && NumPtrs(t) == NumPtrs(s)
    ensures |FreedAll(s, t)| == |HeldPages(s)| - |HeldPages(t)|
  {
    SweptAll(s, t);
    AllocatedIs(s);
    AllocatedIs(t);
    assert HeldPages(t) <= HeldPages(s);
    assert HeldPages(s) == HeldPages(t) + FreedAll(s, t);
  }

  lemma SeededWords(w: World, roots: seq<Addr>, stack: seq<Sptr>, k: nat, g: Marks)
    requires Seeded(w, roots, |roots|, stack, k, g)
    ensures g.m == w.m && MarkInv(w, Start(w.m, roots, stack), g, [], 0)
  {}

  lemma LiveAllocated(w: World)
    requires WorldOk(w)
    ensures w.live <= w.alloc
    ensures forall a | a in w.live :: a.Entry?
  {
    forall a | a in w.live
      ensures a.Entry?
    {
      assert ObjectOk(w, a);
    }
  }

  lemma PageInside(s: Slabs, w: World, a: Addr)
    requires SlabOk(s, w) && a in w.alloc
    ensures a.Entry? && a.page < |s.blocks| && Scanned(w.np, a) == s.blocks[a.page].numPtrs
  {}
}
