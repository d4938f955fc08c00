/** What the running program may do to the heap between collections, and why each such
    step keeps the heap invariant. */
module HeapMutation {
  import opened SmartPtr
  import opened HeapGraph
  import opened HeapInvariant

  /** The words of a fresh object are written: a thunk if `lazy`, an evaluated node if not. */
  function Written(w: World, a: Addr, ws: seq<Sptr>, lazy: bool): World {
    w.(m := w.m[a := ws],
       lazies := if lazy then w.lazies + {a} else w.lazies - {a},
       alloc := w.alloc + {a},
       live := w.live + {a})
  }

  /** The pointer the program holds to a fresh object: MKLAZY for a thunk. */
  function PointerTo(a: Addr, lazy: bool): Sptr { if lazy then Lazy(a) else Whnf(a) }

  lemma FreshPtr(w: World, a: Addr, ws: seq<Sptr>, lazy: bool, p: Sptr)
    requires a.Entry? && a !in w.alloc && w.live <= w.alloc && PtrOk(w, p)
    ensures PtrOk(Written(w, a, ws, lazy), p)
  {}

  lemma StaticsUnwritten(w: World, a: Addr, ws: seq<Sptr>, lazy: bool)
    requires StaticsClosed(w.m, w.lazies) && a.Entry?
    ensures StaticsClosed(Written(w, a, ws, lazy).m, Written(w, a, ws, lazy).lazies)
  {
    forall b | b in w.m && b.Static?
      ensures StaticNode(Written(w, a, ws, lazy).m, Written(w, a, ws, lazy).lazies, b)
    {
      assert StaticNode(w.m, w.lazies, b);
    }
  }

  /** Writing a fresh object keeps the invariant, provided its scanned words are safe. */
  lemma WritingKeeps(w: World, a: Addr, ws: seq<Sptr>, lazy: bool, roots: seq<Addr>, stack: seq<Sptr>)
    requires WorldOk(w) && RootsOk(w, roots, stack)
    requires a.Entry? && a !in w.alloc && Scanned(w.np, a) <= |ws|
    requires forall j: nat | j < Scanned(w.np, a) :: PtrOk(w, ws[j])
    requires lazy ==> ws != [] && ws[0].Func?
    ensures WorldOk(Written(w, a, ws, lazy)) && RootsOk(Written(w, a, ws, lazy), roots, stack)
    ensures PtrOk(Written(w, a, ws, lazy), PointerTo(a, lazy))
  {
    var v := Written(w, a, ws, lazy);
    StaticsUnwritten(w, a, ws, lazy);
    forall b | b in v.live
      ensures ObjectOk(v, b)
    {
      if b != a { assert ObjectOk(w, b); }
      forall j: nat | j < Scanned(v.np, b)
        ensures PtrOk(v, v.m[b][j])
      {
        FreshPtr(w, a, ws, lazy, v.m[b][j]);
      }
    }
    forall b | b in v.lazies && b.Static?
      ensures PtrOk(v, Lazy(b))
    {
      FreshPtr(w, a, ws, lazy, Lazy(b));
    }
    forall i | 0 <= i < |stack|
      ensures PtrOk(v, stack[i])
    {
      FreshPtr(w, a, ws, lazy, stack[i]);
    }
  }

  // ----- storing into an evaluated object

  function Stored(w: World, a: Addr, j: nat, p: Sptr): World
    requires a in w.m && j < |w.m[a]|
  {
    w.(m := w.m[a := w.m[a][j := p]])
  }

  lemma StoredPtr(w: World, a: Addr, j: nat, p: Sptr, q: Sptr)
    requires a in w.m && j < |w.m[a]| && a !in w.lazies && PtrOk(w, q)
    ensures PtrOk(Stored(w, a, j, p), q)
  {}

  lemma StaticsUnstored(w: World, a: Addr, j: nat, p: Sptr)
    requires StaticsClosed(w.m, w.lazies) && a in w.m && j < |w.m[a]|
    requires a.Entry? || (a in w.lazies && j == 0)
    ensures StaticsClosed(Stored(w, a, j, p).m, w.lazies)
  {
    forall b | b in w.m && b.Static?
      ensures StaticNode(Stored(w, a, j, p).m, w.lazies, b)
    {
      assert StaticNode(w.m, w.lazies, b);
    }
  }

  /** Storing a safe pointer into an evaluated object keeps the invariant. */
  lemma StoringKeeps(w: World, a: Addr, j: nat, p: Sptr, roots: seq<Addr>, stack: seq<Sptr>)
    requires WorldOk(w) && RootsOk(w, roots, stack) && PtrOk(w, p)
    requires a in w.live && a !in w.lazies && a in w.m && j < |w.m[a]|
    ensures WorldOk(Stored(w, a, j, p)) && RootsOk(Stored(w, a, j, p), roots, stack)
  {
    var v := Stored(w, a, j, p);
    assert ObjectOk(w, a);
    StaticsUnstored(w, a, j, p);
    forall b | b in v.live
      ensures ObjectOk(v, b)
    {
      assert ObjectOk(w, b);
      forall i: nat | i < Scanned(v.np, b)
        ensures PtrOk(v, v.m[b][i])
      {
        StoredPtr(w, a, j, p, v.m[b][i]);
      }
    }
    forall b | b in v.lazies && b.Static?
      ensures PtrOk(v, Lazy(b))
    {
      StoredPtr(w, a, j, p, Lazy(b));
    }
    forall i | 0 <= i < |stack|
      ensures PtrOk(v, stack[i])
    {
      StoredPtr(w, a, j, p, stack[i]);
    }
  }

  // ----- update: a lazy location becomes a redirection to its value

  predicate IsWhnf(p: Sptr) { p.Whnf? || p.Value? }

  lemma UpdatedPtr(w: World, t: Addr, p: Sptr, q: Sptr)
    requires t in w.lazies && t in w.m && w.m[t] != [] && IsWhnf(p) && PtrOk(w, p) && PtrOk(w, q)
    ensures PtrOk(Stored(w, t, 0, p), q)
  {}

  /** Overwriting the head of a thunk with its value keeps the invariant. The value of a
      CAF must be registered as a root as well. */
  lemma UpdatingKeeps(w: World, t: Addr, p: Sptr, roots: seq<Addr>, stack: seq<Sptr>)
    requires WorldOk(w) && RootsOk(w, roots, stack)
    requires t in w.lazies && IsWhnf(p) && PtrOk(w, p)
    requires t.Static? ==> Target(p) <= (set a | a in roots)
    ensures t in w.m && w.m[t] != []
    ensures WorldOk(Stored(w, t, 0, p)) && RootsOk(Stored(w, t, 0, p), roots, stack)
  {
    var v := Stored(w, t, 0, p);
    StaticsUnstored(w, t, 0, p);
    forall b | b in v.live
      ensures ObjectOk(v, b)
    {
      assert ObjectOk(w, b);
      forall i: nat | i < Scanned(v.np, b)
        ensures PtrOk(v, v.m[b][i])
      {
        UpdatedPtr(w, t, p, v.m[b][i]);
      }
    }
    forall b | b in v.lazies && b.Static?
      ensures PtrOk(v, Lazy(b))
    {
      UpdatedPtr(w, t, p, Lazy(b));
    }
    forall i | 0 <= i < |stack|
      ensures PtrOk(v, stack[i])
    {
      UpdatedPtr(w, t, p, stack[i]);
    }
  }

  /** A CAF may be updated without registering its value only if the value is not a
      collected entry: otherwise the invariant is lost. */
  lemma CafNeedsRoot(w: World, t: Addr, p: Sptr, roots: seq<Addr>, stack: seq<Sptr>)
    requires WorldOk(w) && RootsOk(w, roots, stack)
    requires t in w.lazies && t.Static? && IsWhnf(p) && PtrOk(w, p)
    requires t in w.m && w.m[t] != []
    ensures RootsOk(Stored(w, t, 0, p), roots, stack) <==> Target(p) <= set a | a in roots
  {
    if Target(p) <= set a | a in roots {
      UpdatingKeeps(w, t, p, roots, stack);
    } else {
      var v := Stored(w, t, 0, p);
      var b :| b in Target(p) && b !in roots;
      assert t in v.lazies && t.Static? && !IsLazy(Head(v.m, t)) && b in Target(Head(v.m, t));
    }
  }

  // ----- the words of live objects, and values of lazy pointers, are safe to hold

  lemma LoadedPtr(w: World, a: Addr, j: nat)
    requires WorldOk(w) && a in w.live && j < Scanned(w.np, a)
    ensures a in w.m && j < |w.m[a]| && PtrOk(w, w.m[a][j])
  {
    assert ObjectOk(w, a);
  }

  lemma FollowedPtr(w: World, p: Sptr)
    requires PtrOk(w, p)
    ensures PtrOk(w, Norm(w.m, p)) && (p.Lazy? && Norm(w.m, p) != p ==> IsWhnf(Norm(w.m, p)))
  {}

  lemma PushedPtr(w: World, roots: seq<Addr>, stack: seq<Sptr>, p: Sptr)
    requires RootsOk(w, roots, stack) && PtrOk(w, p) && !p.Func?
    ensures RootsOk(w, roots, stack + [p])
  {}

  /** gc_add_root: a pointer into the collected heap is registered. */
  function Registered(roots: seq<Addr>, p: Sptr): seq<Addr> {
    if IsPtr(p) && p.loc.Entry? then roots + [p.loc] else roots
  }

  /** A pointer may be registered exactly if what it points to is live. */
  lemma RootedPtr(w: World, roots: seq<Addr>, stack: seq<Sptr>, p: Sptr)
    requires RootsOk(w, roots, stack)
    ensures RootsOk(w, Registered(roots, p), stack) <==> Target(p) <= w.live
    ensures Target(p) <= set a | a in Registered(roots, p)
  {
    if IsPtr(p) && p.loc.Entry? {
      assert Registered(roots, p)[|roots|] == p.loc;
    }
  }

  /** That is so for every safe pointer but a lazy one whose location has been evaluated. */
  lemma LiveTarget(w: World, p: Sptr)
    requires PtrOk(w, p) && !EvaluatedPtr(w.m, p)
    ensures Target(p) <= w.live
  {}

  /** An update followed by the registration of a CAF's value keeps the invariant. */
  lemma UpdatedRegistered(w: World, t: Addr, p: Sptr, roots: seq<Addr>, stack: seq<Sptr>)
    requires WorldOk(w) && RootsOk(w, roots, stack)
    requires t in w.lazies && IsWhnf(p) && PtrOk(w, p)
    ensures t in w.m && w.m[t] != []
    ensures WorldOk(Stored(w, t, 0, p)) && RootsOk(Stored(w, t, 0, p), if t.Static? then Registered(roots, p) else roots, stack)
  {
    hide WorldOk, RootsOk, PtrOk;
    if t.Static? {
      LiveTarget(w, p);
      RootedPtr(w, roots, stack, p);
    }
    UpdatingKeeps(w, t, p, if t.Static? then Registered(roots, p) else roots, stack);
  }
}
