/** The heap invariant that the header comment of rts/rts/jhc_rts.c documents, made
    explicit, and what it means for a pointer to be safe to hold across a collection. */
module HeapInvariant {
  import opened SmartPtr
  import opened HeapGraph

  /** Everything the collector and the mutator can see.
      `lazies` are the lazy locations (thunks and redirections, the CAFs among them);
      `alloc` are the entries whose used bit is set; `live` are entries whose scanned
      words may all be followed. An evaluated lazy location may be in `alloc` only: the
      collector keeps it without scanning it. */
  datatype World = World(
    m: Memory,
    np: seq<nat>,
    lazies: set<Addr>,
    alloc: set<Addr>,
    live: set<Addr>)

  /** WHNF pointers never target lazy locations; a lazy pointer targets a lazy location
      that is allocated, and whatever the collector would follow in its place is live. */
  ghost predicate PtrOk(w: World, p: Sptr) {
    match p
    case Value(_) => true
    case Func(_) => true
    case Whnf(a) => a !in w.lazies && Target(p) <= w.live
    case Lazy(a) =>
      && a in w.lazies && Target(p) <= w.alloc
      && (if IsLazy(Head(w.m, a)) then Target(p) <= w.live else PtrOkHead(w, Head(w.m, a)))
  }

  /** A redirection is a WHNF value: redirections are never chained. */
  ghost predicate PtrOkHead(w: World, h: Sptr) {
    match h
    case Value(_) => true
    case Whnf(a) => a !in w.lazies && Target(h) <= w.live
    case _ => false
  }

  /** Every scanned word of the object at `a` is safe. */
  ghost predicate ObjectOk(w: World, a: Addr) {
    && a.Entry? && a in w.m && Scanned(w.np, a) <= |w.m[a]|
    && forall j: nat | j < Scanned(w.np, a) :: PtrOk(w, w.m[a][j])
  }

  /** A lazy location starts with a head that is not itself a lazy location. */
  ghost predicate HeadsOk(m: Memory, lazies: set<Addr>) {
    forall a | a in lazies :: a in m && m[a] != [] && !m[a][0].Lazy?
  }

  /** A word of a constant: raw, or a pointer to another constant or to a CAF. */
  ghost predicate StaticWord(lazies: set<Addr>, p: Sptr) {
    match p
    case Value(_) => true
    case Func(_) => true
    case Whnf(a) => a.Static? && a !in lazies
    case Lazy(a) => a.Static? && a in lazies
  }

  /** All words of a static node are such, but the head of a CAF, which is updated. */
  ghost predicate StaticNode(m: Memory, lazies: set<Addr>, a: Addr)
    requires a in m
  {
    forall j: nat | j < |m[a]| && !(j == 0 && a in lazies) :: StaticWord(lazies, m[a][j])
  }

  ghost predicate StaticsClosed(m: Memory, lazies: set<Addr>) {
    forall a | a in m && a.Static? :: StaticNode(m, lazies, a)
  }

  ghost predicate WorldOk(w: World) {
    && w.live <= w.alloc
    && HeadsOk(w.m, w.lazies)
    && StaticsClosed(w.m, w.lazies)
    && (forall a | a in w.live :: ObjectOk(w, a))
    && (forall a | a in w.lazies && a.Static? :: PtrOk(w, Lazy(a)))
  }

  lemma LiveIsEntry(w: World, a: Addr)
    requires WorldOk(w)
    ensures a in w.live ==> a.Entry?
  {
    assert a in w.live ==> ObjectOk(w, a);
  }

  /** Following one normalised edge from a live object stays among live objects. */
  lemma LiveClosed(w: World)
    requires WorldOk(w)
    ensures ClosedUnder(w.m, w.np, w.live)
  {
    forall a, b | a in w.live && Edge(w.m, w.np, a, b)
      ensures b in w.live
    {
      var j: nat :| j < |w.m[a]| && j < Scanned(w.np, a) && b in Target(Norm(w.m, w.m[a][j]));
      assert ObjectOk(w, a) && PtrOk(w, w.m[a][j]);
    }
  }

  /** The collector follows a safe pointer to a live object only, and never to an
      evaluated lazy location. */
  lemma NormTarget(w: World, p: Sptr, b: Addr)
    requires PtrOk(w, p) && b in Target(Norm(w.m, p))
    ensures b in w.live
    ensures b in w.lazies ==> IsLazy(Head(w.m, b))
  {}

  // ----- the roots of a collection

  /** Where the traversal starts: the registered roots and the normalised targets of the
      words on the stack. */
  ghost function Start(m: Memory, roots: seq<Addr>, stack: seq<Sptr>): set<Addr> {
    (set a | a in roots) + (set i, a | 0 <= i < |stack| && a in Target(Norm(m, stack[i])) :: a)
  }

  /** Lazy pointers on the stack whose location has been evaluated. */
  predicate EvaluatedPtr(m: Memory, p: Sptr) {
    p.Lazy? && p.loc.Entry? && !IsLazy(Head(m, p.loc))
  }

  ghost function EvaluatedOnStack(m: Memory, stack: seq<Sptr>): set<Addr> {
    set i | 0 <= i < |stack| && EvaluatedPtr(m, stack[i]) :: stack[i].loc
  }

  /** The roots are live, the stack is safe, and the value of every evaluated CAF is
      registered as a root (gc_add_root). */
  ghost predicate RootsOk(w: World, roots: seq<Addr>, stack: seq<Sptr>) {
    && (forall i | 0 <= i < |roots| :: roots[i] in w.live)
    && (forall i | 0 <= i < |stack| :: PtrOk(w, stack[i]) && !stack[i].Func?)
    && (forall a, b | a in w.lazies && a.Static? && !IsLazy(Head(w.m, a)) && b in Target(Head(w.m, a)) :: b in roots)
  }

  lemma StartLive(w: World, roots: seq<Addr>, stack: seq<Sptr>)
    requires WorldOk(w) && RootsOk(w, roots, stack)
    ensures Start(w.m, roots, stack) <= w.live
    ensures forall a | Reachable(w.m, w.np, Start(w.m, roots, stack), a) :: a in w.live
  {
    var from := Start(w.m, roots, stack);
    forall a | a in from
      ensures a in w.live
    {
      if a !in roots {
        var i :| 0 <= i < |stack| && a in Target(Norm(w.m, stack[i]));
        NormTarget(w, stack[i], a);
      }
    }
    LiveClosed(w);
    forall a | Reachable(w.m, w.np, from, a)
      ensures a in w.live
    {
      ReachInside(w.m, w.np, from, w.live, a);
    }
  }

  /** What a collection has to keep: what can be reached from the roots and the stack, and
      the evaluated lazy locations the stack points to directly. */
  ghost predicate InUse(w: World, roots: seq<Addr>, stack: seq<Sptr>, a: Addr) {
    Reachable(w.m, w.np, Start(w.m, roots, stack), a) || a in EvaluatedOnStack(w.m, stack)
  }

  lemma InUseAllocated(w: World, roots: seq<Addr>, stack: seq<Sptr>)
    requires WorldOk(w) && RootsOk(w, roots, stack)
    ensures forall a | InUse(w, roots, stack, a) :: a in w.alloc
  {
    StartLive(w, roots, stack);
    forall a | a in EvaluatedOnStack(w.m, stack)
      ensures a in w.alloc
    {
      var i :| 0 <= i < |stack| && EvaluatedPtr(w.m, stack[i]) && stack[i].loc == a;
      assert PtrOk(w, stack[i]);
    }
  }

  // ----- changes that keep the invariant

  lemma PtrOkGrows(w: World, v: World, p: Sptr)
    requires PtrOk(w, p) && v.m == w.m && v.lazies == w.lazies && w.live <= v.live && w.alloc <= v.alloc
    ensures PtrOk(v, p)
  {}

  /** Allocation adds blocks, and marks the entries of `added`, which were not in use. */
  ghost predicate Grown(w: World, v: World, added: set<Addr>) {
    && v == w.(np := v.np, alloc := w.alloc + added)
    && w.alloc !! added
    && forall a | a in w.alloc :: Scanned(v.np, a) == Scanned(w.np, a)
  }

  lemma GrownTwice(w: World, v: World, u: World, added: set<Addr>)
    requires Grown(w, v, {}) && Grown(v, u, added)
    ensures Grown(w, u, added)
  {
    assert v.alloc == w.alloc;
  }

  /** The allocator may add blocks, and mark entries nothing points to. */
  lemma AllocationKeeps(w: World, v: World, roots: seq<Addr>, stack: seq<Sptr>)
    requires WorldOk(w) && RootsOk(w, roots, stack)
    requires v == w.(np := v.np, alloc := v.alloc) && w.alloc <= v.alloc
    requires forall a | a in w.live :: Scanned(v.np, a) == Scanned(w.np, a)
    ensures WorldOk(v) && RootsOk(v, roots, stack)
  {
    forall a | a in v.live
      ensures ObjectOk(v, a)
    {
      assert ObjectOk(w, a);
      forall j: nat | j < Scanned(v.np, a)
        ensures PtrOk(v, v.m[a][j])
      {
        PtrOkGrows(w, v, w.m[a][j]);
      }
    }
    forall a | a in v.lazies && a.Static?
      ensures PtrOk(v, Lazy(a))
    {
      PtrOkGrows(w, v, Lazy(a));
    }
    forall i | 0 <= i < |stack|
      ensures PtrOk(v, stack[i])
    {
      PtrOkGrows(w, v, stack[i]);
    }
  }
}
