/** The running program on the collected heap of Collector.dfy: each step of compiled code
    (rts/rts/jhc_rts.c, rts/rts/gc_jgc.h) is a step of the machine of MutatorSpec.dfy. */
module Mutator {
  import opened Common
  import opened SmartPtr
  import opened HeapGraph
  import opened HeapInvariant
  import opened HeapMark
  import opened HeapMutation
  import opened MutatorSpec
  import opened SlabModel
  import opened SlabSteps
  import opened SlabArena
  import opened Collector
  import SlabLayout

  ghost function StateOf(h: Heap): State
    reads h, h.arena
  {
    State(h.TheWorld(), h.rootStack, h.gcStack)
  }

  lemma ValidIs(h: Heap)
    ensures h.HeapValid({}) <==> Ok(h.cafs, StateOf(h))
  {
    h.ButNothing();
  }

  // ----- the stack

  /** gc_frame0: a word is saved where the collector will find it. */
  method Push(h: Heap, o: Operand)
    requires h.Valid() && CanRead(h.cafs, h.gcStack, o)
    modifies h`gcStack
    ensures h.Valid() && h.gcStack == old(h.gcStack) + [Read(h.cafs, old(h.gcStack), o)]
  {
    hide Ok, h.HeapValid, Inv, Sorted, Arena.Agrees, NumPtrs, Allocated, HeldPages;
    ghost var s := StateOf(h);
    ValidIs(h);
    SteppedKeeps(h.cafs, s, DoPush(o));
    h.gcStack := h.gcStack + [Read(h.cafs, h.gcStack, o)];
    ValidIs(h);
  }

  method Pop(h: Heap)
    requires h.Valid() && h.gcStack != []
    modifies h`gcStack
    ensures h.Valid() && h.gcStack == old(h.gcStack[..|h.gcStack| - 1])
  {
    hide Ok, h.HeapValid, Inv, Sorted, Arena.Agrees, NumPtrs, Allocated, HeldPages;
    ghost var s := StateOf(h);
    ValidIs(h);
    SteppedKeeps(h.cafs, s, DoPop);
    h.gcStack := h.gcStack[..|h.gcStack| - 1];
    ValidIs(h);
  }

  // ----- allocation

  lemma HandedScanned(h: Heap, a: Addr, g: Geometry)
    requires h.Handed(a, g)
    ensures Scanned(NumPtrs(h.arena.s), a) == g.numPtrs && a.Entry?
  {}

  lemma CacheAdded(s: Slabs, g: Geometry)
    requires Inv(s, {}) && Sorted(s) && GeometryOk(g)
    ensures Inv(AddCache(s, g), {}) && Sorted(AddCache(s, g))
    ensures Allocated(AddCache(s, g)) == Allocated(s)
    ensures HeldPages(AddCache(s, g)) == HeldPages(s) && NumPtrs(AddCache(s, g)) == NumPtrs(s)
  {
    AddCacheKeeps(s, g);
    AllocatedIs(s);
    AllocatedIs(AddCache(s, g));
  }

  method CacheFor(h: Heap, size: nat, numPtrs: nat) returns (sc: Cache)
    requires h.Valid() && 1 <= size <= SlabLayout.MAX_SIZE && numPtrs <= size
    modifies h.arena`s, h.arena`caches, h.arena`Repr
    ensures fresh(h.arena.Repr - old(h.arena.Repr)) && old(h.arena.Repr) <= h.arena.Repr
    ensures h.Valid() && StateOf(h) == old(StateOf(h))
    ensures sc.id < |h.arena.caches| && h.arena.caches[sc.id] == sc
    ensures sc.geometry.size == size && sc.geometry.numPtrs == numPtrs
  {
    hide WorldOk, RootsOk, Inv, Sorted, HeldPages, Allocated, NumPtrs, AddCache, GeometryOk;
    ghost var s0 := h.arena.s;
    sc := h.arena.FindCache(size, numPtrs);
    if h.arena.s != s0 {
      CacheAdded(s0, sc.geometry);
    }
  }

  /** The fresh object is written before anything else happens, and saved on the stack. */
  method WriteFresh(h: Heap, a: Addr, ws: seq<Sptr>, lazy: bool)
    modifies h`words, h`lazies, h`live, h`gcStack
    ensures StateOf(h) == State(Written(old(h.TheWorld()), a, ws, lazy).(alloc := Allocated(h.arena.s)), h.rootStack, old(h.gcStack) + [PointerTo(a, lazy)])
  {
    h.words := h.words[a := ws];
    h.lazies := if lazy then h.lazies + {a} else h.lazies - {a};
    h.live := h.live + {a};
    h.gcStack := h.gcStack + [PointerTo(a, lazy)];
  }

  lemma WrittenMade(s: State, mid: World, numPtrs: nat, ws: seq<Sptr>, lazy: bool, v: World, a: Addr)
    requires Grown(mid, v, {a}) && a.Entry? && Scanned(v.np, a) == numPtrs
    ensures Made(s, mid, numPtrs, ws, lazy, State(Written(v, a, ws, lazy).(alloc := v.alloc), s.roots, s.stack + [PointerTo(a, lazy)]), a)
  {}

  /** gc_alloc and the initialisation that must follow it. Whatever the heap, and whether or
      not a collection runs, the new object is none that was still in use; its words are the
      given ones; it is saved on the stack; and nothing else changes but by the collection. */
  method NewObject(h: Heap, numPtrs: nat, code: seq<nat>, args: seq<Operand>) returns (a: Addr, val: nat)
    requires h.Valid() && CanNew(h.cafs, h.gcStack, numPtrs, code, args)
    modifies h, h.arena, h.arena.Repr
    ensures fresh(h.arena.Repr - old(h.arena.Repr)) && old(h.arena.Repr) <= h.arena.Repr
    ensures h.Valid() && InHeap(h.arena.s, a)
    ensures NewTo(h.cafs, old(StateOf(h)), numPtrs, code, args, StateOf(h), a)
    ensures !InUse(old(h.TheWorld()), old(h.rootStack), old(h.gcStack), a)
  {
    ghost var s := StateOf(h);
    ValidIs(h);
    hide Ok, WorldOk, RootsOk, Inv, Sorted, HeldPages, Allocated, NumPtrs, Arena.Agrees, Heap.Due, Became, Grown, InUse, InHeap, Fits, NewTo;
    var sc := CacheFor(h, |code| + |args|, numPtrs);
    ghost var due, mid := sc.blocks == null && h.Due(), s.w;
    a, val, mid := h.SAlloc(sc);
    HandedScanned(h, a, sc.geometry);
    ghost var v := h.TheWorld();
    var ws := Words(h.cafs, h.gcStack, code, args);
    WriteFresh(h, a, ws, code != []);
    WrittenMade(s, mid, numPtrs, ws, code != [], v, a);
    NewKeeps(h.cafs, s, due, mid, numPtrs, code, args, StateOf(h), a);
    ValidIs(h);
  }

  // ----- reading

  /** Reading pointer `j` of an object and saving it. */
  method Load(h: Heap, i: nat, j: nat) returns (p: Sptr)
    requires h.Valid() && CanLoad(h.words, NumPtrs(h.arena.s), h.gcStack, i, j)
    modifies h`gcStack
    ensures p == h.words[old(h.gcStack)[i].loc][j]
    ensures h.Valid() && h.gcStack == if p.Func? then old(h.gcStack) else old(h.gcStack) + [p]
  {
    hide Ok, h.HeapValid, Inv, Sorted, Arena.Agrees, NumPtrs, Allocated, HeldPages;
    ghost var s := StateOf(h);
    ValidIs(h);
    SteppedKeeps(h.cafs, s, DoLoad(i, j));
    p := h.words[h.gcStack[i].loc][j];
    if !p.Func? {
      h.gcStack := h.gcStack + [p];
    }
    ValidIs(h);
  }

  /** `follow`: the value of an evaluated lazy location is saved. */
  method FollowWord(h: Heap, i: nat) returns (p: Sptr)
    requires h.Valid() && i < |h.gcStack|
    modifies h`gcStack
    ensures p == Norm(h.words, old(h.gcStack[i]))
    ensures h.Valid() && h.gcStack == old(h.gcStack) + [p]
  {
    hide Ok, h.HeapValid, Inv, Sorted, Arena.Agrees, NumPtrs, Allocated, HeldPages;
    ghost var s := StateOf(h);
    ValidIs(h);
    SteppedKeeps(h.cafs, s, DoFollow(i));
    p := h.gcStack[i];
    if p.Lazy? && !IsLazy(Head(h.words, p.loc)) {
      p := Head(h.words, p.loc);
    }
    h.gcStack := h.gcStack + [p];
    ValidIs(h);
  }

  // ----- writing

  /** Storing into word `j` of an evaluated node. */
  method Store(h: Heap, i: nat, j: nat, o: Operand)
    requires h.Valid() && CanStore(h.cafs, h.words, h.gcStack, i, j, o)
    modifies h`words
    ensures h.Valid()
    ensures var a := h.gcStack[i].loc;
            h.words == old(h.words)[a := old(h.words)[a][j := Read(h.cafs, h.gcStack, o)]]
  {
    hide Ok, h.HeapValid, Inv, Sorted, Arena.Agrees, NumPtrs, Allocated, HeldPages;
    ghost var s := StateOf(h);
    ValidIs(h);
    SteppedKeeps(h.cafs, s, DoStore(i, j, o));
    var a := h.gcStack[i].loc;
    h.words := h.words[a := h.words[a][j := Read(h.cafs, h.gcStack, o)]];
    ValidIs(h);
  }

  /** gc_add_root */
  method Register(h: Heap, p: Sptr)
    modifies h`rootStack
    ensures h.rootStack == Registered(old(h.rootStack), p)
  {
    if IsPtr(p) {
      var nroot := p.loc;
      if nroot.Entry? {
        h.rootStack := h.rootStack + [nroot];
      }
    }
  }

  /** gc_add_root of any pointer: the heap stays valid exactly if what it points to is live,
      thunks included. */
  method AddRoot(h: Heap, p: Sptr)
    requires h.Valid()
    modifies h`rootStack
    ensures h.rootStack == Registered(old(h.rootStack), p)
    ensures h.Valid() <==> Target(p) <= h.live
  {
    RootedPtr(h.WorldBut({}), h.rootStack, h.gcStack, p);
    hide WorldOk, RootsOk;
    Register(h, p);
  }

  /** `update`: the head of a lazy location is overwritten with its value, which for a CAF
      is then registered as a root. */
  method Update(h: Heap, i: nat, o: Operand)
    requires h.Valid() && CanUpdate(h.cafs, h.words, h.gcStack, i, o)
    modifies h`words, h`rootStack
    ensures h.Valid()
    ensures var t, p := h.gcStack[i].loc, Read(h.cafs, h.gcStack, o);
            && h.words == old(h.words)[t := old(h.words)[t][0 := p]]
            && h.rootStack == if t.Static? then Registered(old(h.rootStack), p) else old(h.rootStack)
  {
    hide Ok, h.HeapValid, Inv, Sorted, Arena.Agrees, NumPtrs, Allocated, HeldPages;
    ghost var s := StateOf(h);
    ValidIs(h);
    SteppedKeeps(h.cafs, s, DoUpdate(i, o));
    var t, p := h.gcStack[i].loc, Read(h.cafs, h.gcStack, o);
    h.words := h.words[t := h.words[t][0 := p]];
    if t.Static? {
      Register(h, p);
    }
    ValidIs(h);
  }

  // ----- whole runs

  lemma LivePage(h: Heap, a: Addr)
    requires h.Valid() && a in h.live
    ensures a.Entry? && a.page < |h.arena.pages| && Scanned(NumPtrs(h.arena.s), a) == h.arena.pages[a.page].numPtrs
    ensures a in h.words && Scanned(NumPtrs(h.arena.s), a) <= |h.words[a]|
  {
    AllocatedIs(h.arena.s);
    assert a in Allocated(h.arena.s);
    assert h.arena.BlockAgrees(a.page, h.arena.s.blocks[a.page]);
    assert ObjectOk(h.WorldBut({}), a);
  }

  method TryLoad(h: Heap, i: nat, j: nat)
    requires h.Valid()
    modifies h`gcStack
    ensures h.Valid() && StateOf(h) == Stepped(h.cafs, old(StateOf(h)), DoLoad(i, j))
  {
    hide Ok, WorldOk, RootsOk, Inv, Sorted, Arena.Agrees, NumPtrs, Allocated, HeldPages;
    if CanOpen(h.words, h.gcStack, i) {
      ValidIs(h);
      OpenIsLive(h.cafs, StateOf(h), i);
      LivePage(h, h.gcStack[i].loc);
      if j < h.arena.pages[h.gcStack[i].loc.page].numPtrs {
        var _ := Load(h, i, j);
      }
    }
  }

  method TryRoot(h: Heap, i: nat)
    requires h.Valid()
    modifies h`rootStack
    ensures h.Valid() && StateOf(h) == Stepped(h.cafs, old(StateOf(h)), DoRoot(i))
  {
    if CanRoot(h.words, h.gcStack, i) {
      assert PtrOk(h.WorldBut({}), h.gcStack[i]);
      LiveTarget(h.WorldBut({}), h.gcStack[i]);
      hide h.Valid;
      AddRoot(h, h.gcStack[i]);
    }
  }

  /** The steps that change the stack only. */
  method Look(h: Heap, step: Step)
    requires h.Valid() && (step.DoPush? || step.DoPop? || step.DoLoad? || step.DoFollow?)
    modifies h`gcStack
    ensures h.Valid() && StateOf(h) == Stepped(h.cafs, old(StateOf(h)), step)
  {
    hide h.Valid;
    match step {
      case DoPush(o) => if CanRead(h.cafs, h.gcStack, o) { Push(h, o); }
      case DoPop => if h.gcStack != [] { Pop(h); }
      case DoLoad(i, j) => TryLoad(h, i, j);
      case DoFollow(i) => if i < |h.gcStack| { var _ := FollowWord(h, i); }
    }
  }

  /** The steps that write to memory or to the roots. */
  method Change(h: Heap, step: Step)
    requires h.Valid() && (step.DoStore? || step.DoUpdate? || step.DoRoot?)
    modifies h`words, h`rootStack
    ensures h.Valid() && StateOf(h) == Stepped(h.cafs, old(StateOf(h)), step)
  {
    hide h.Valid;
    match step {
      case DoStore(i, j, o) => if CanStore(h.cafs, h.words, h.gcStack, i, j, o) { Store(h, i, j, o); }
      case DoUpdate(i, o) => if CanUpdate(h.cafs, h.words, h.gcStack, i, o) { Update(h, i, o); }
      case DoRoot(i) => TryRoot(h, i);
    }
  }

  method TryNew(h: Heap, numPtrs: nat, code: seq<nat>, args: seq<Operand>) returns (ghost made: Option<Addr>)
    requires h.Valid()
    modifies h, h.arena, h.arena.Repr
    ensures fresh(h.arena.Repr - old(h.arena.Repr)) && old(h.arena.Repr) <= h.arena.Repr && h.Valid()
    ensures StepTo(h.cafs, old(StateOf(h)), DoNew(numPtrs, code, args), StateOf(h), made)
  {
    hide h.Valid, CanNew, NewTo, InUse;
    made := None;
    if CanNew(h.cafs, h.gcStack, numPtrs, code, args) {
      var a, _ := NewObject(h, numPtrs, code, args);
      made := Some(a);
    }
  }

  /** One step of the program, which is a step of the machine: one the program cannot take
      is skipped. */
  method Take(h: Heap, step: Step) returns (ghost made: Option<Addr>)
    requires h.Valid()
    modifies h, h.arena, h.arena.Repr
    ensures fresh(h.arena.Repr - old(h.arena.Repr)) && old(h.arena.Repr) <= h.arena.Repr && h.Valid()
    ensures StepTo(h.cafs, old(StateOf(h)), step, StateOf(h), made)
  {
    ghost var s := StateOf(h);
    hide *;
    HeapApart(h);
    made := None;
    if step.DoNew? {
      made := TryNew(h, step.numPtrs, step.code, step.args);
    } else if step.DoCollect? {
      h.CollectNow();
      CollectTo(h.cafs, s, h.TheWorld());
      StateIs(h, s);
    } else {
      SteppedTo(h.cafs, s, step);
      if step.DoStore? || step.DoUpdate? || step.DoRoot? {
        Change(h, step);
      } else {
        Look(h, step);
      }
    }
  }

  lemma HeapApart(h: Heap)
    requires h.Valid()
    ensures h !in h.arena.Repr && StateOf(h).roots == h.rootStack && StateOf(h).stack == h.gcStack && StateOf(h).w == h.TheWorld()
  {}

  lemma StateIs(h: Heap, s: State)
    requires h.rootStack == s.roots && h.gcStack == s.stack
    ensures StateOf(h) == s.(w := h.TheWorld())
  {}

  /** Every run of the program is a run of the machine from the heap it starts with to the
      heap it ends with; so the invariant holds after every step, and no object is ever made
      at a place that was still in use. */
  method Run(h: Heap, steps: seq<Step>) returns (ghost trace: seq<State>, ghost made: seq<Option<Addr>>)
    requires h.Valid()
    modifies h, h.arena, h.arena.Repr
    ensures h.Valid() && RunTo(h.cafs, trace, steps, made)
    ensures trace[0] == old(StateOf(h)) && trace[|steps|] == StateOf(h)
    ensures forall n: nat | n <= |steps| :: Ok(h.cafs, trace[n])
    ensures forall n: nat | n < |steps| && made[n].Some? :: !InUse(trace[n].w, trace[n].roots, trace[n].stack, made[n].value)
  {
    hide *;
    BeginsOk(h);
    trace, made := [StateOf(h)], [];
    RunBegins(h.cafs, StateOf(h), steps);
    for n := 0 to |steps|
      invariant h.Valid() && fresh(h.arena.Repr - old(h.arena.Repr)) && old(h.arena.Repr) <= h.arena.Repr
      invariant |trace| == n + 1 && |made| == n && trace[0] == old(StateOf(h)) && trace[n] == StateOf(h)
      invariant Running(h.cafs, trace, steps, made)
    {
      ghost var one := Take(h, steps[n]);
      RunGoesOn(h.cafs, trace, steps, made, StateOf(h), one);
      trace, made := trace + [StateOf(h)], made + [one];
    }
    RunEnds(h.cafs, trace, steps, made);
    RunSafe(h.cafs, trace, steps, made);
  }

  lemma BeginsOk(h: Heap)
    requires h.Valid()
    ensures Ok(h.cafs, StateOf(h))
  {
    ValidIs(h);
  }

  /** No word of memory belongs to two allocated objects. */
  lemma ObjectsApart(s: Slabs, a: Addr, j: nat, b: Addr, k: nat)
    requires Inv(s, {}) && IsMarked(s, a) && IsMarked(s, b)
    requires j < s.blocks[a.page].size && k < s.blocks[b.page].size
    requires SlabLayout.EntryWord(a.page, s.blocks[a.page].color, s.blocks[a.page].size, a.idx, j)
          == SlabLayout.EntryWord(b.page, s.blocks[b.page].color, s.blocks[b.page].size, b.idx, k)
    ensures a == b && j == k
  {
    assert BlockOk(s, a.page, {}) && BlockOk(s, b.page, {});
    hide SlabLayout.WordOf, SlabLayout.NumEntriesOf, SlabLayout.ColorOf;
    SlabLayout.EntriesDisjoint(SlabLayout.BLOCK_BYTES, SlabLayout.HEADER_BYTES,
      a.page, a.idx, j, s.blocks[a.page].size, b.page, b.idx, k, s.blocks[b.page].size);
  }
}
