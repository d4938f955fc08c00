/** A collection preserves the meaning of every pointer the program still holds
    (rts/rts/gc_jgc.c, `follow` of rts/rts/jhc_rts.c). */
module HeapMeaning {
  import opened SmartPtr
  import opened HeapGraph
  import opened HeapInvariant
  import opened HeapMark

  datatype Seen = Nothing | Word(p: Sptr)

  /** What a program observes that starts from the pointer `p` and walks down the words
      numbered in `path`, treating a lazy location that was evaluated exactly as the value
      it was evaluated to. All words of constants can be walked through, and of objects those
      up to num_ptrs; words beyond are raw data. */
  function Observe(m: Memory, np: seq<nat>, p: Sptr, path: seq<nat>): Seen
    decreases |path|
  {
    var q := Norm(m, p);
    if path == [] then Word(q)
    else if !IsPtr(q) || q.loc !in m || path[0] >= |m[q.loc]| then Nothing
    else if q.loc.Static? || path[0] < Scanned(np, q.loc) then Observe(m, np, m[q.loc][path[0]], path[1..])
    else if |path| == 1 then Word(m[q.loc][path[0]])
    else Nothing
  }

  /** Where a walk goes first. */
  lemma ObserveIs(m: Memory, np: seq<nat>, p: Sptr, path: seq<nat>)
    ensures var q := Norm(m, p);
      Observe(m, np, p, path) ==
        if path == [] then Word(q)
        else if !IsPtr(q) || q.loc !in m || path[0] >= |m[q.loc]| then Nothing
        else if q.loc.Static? || path[0] < Scanned(np, q.loc) then Observe(m, np, m[q.loc][path[0]], path[1..])
        else if |path| == 1 then Word(m[q.loc][path[0]])
        else Nothing
  {}

  lemma NormStaysAfter(w: World, roots: seq<Addr>, stack: seq<Sptr>, g: Marks, p: Sptr)
    requires WorldOk(w) && Finished(w, roots, stack, g) && PtrOk(w, p)
    ensures Norm(g.m, p) == Norm(w.m, p) && Norm(g.m, Norm(w.m, p)) == Norm(w.m, p)
    ensures g.m.Keys == w.m.Keys && forall a | a in w.m :: |g.m[a]| == |w.m[a]|
  {
    NormStays(w, g.m, p);
    forall a | a in w.m
      ensures |g.m[a]| == |w.m[a]|
    {
      assert SameObject(w, a, g.m[a]);
    }
  }

  /** Words of constants are safe, and never change. */
  lemma StaticStep(w: World, q: Sptr, j: nat)
    requires WorldOk(w) && PtrOk(w, q) && IsPtr(q) && q.loc.Static? && (q.Lazy? ==> IsLazy(Head(w.m, q.loc)))
    requires q.loc in w.m && j < |w.m[q.loc]|
    ensures PtrOk(w, w.m[q.loc][j]) && StaticWord(w.lazies, w.m[q.loc][j])
  {
    assert StaticNode(w.m, w.lazies, q.loc);
  }

  /** What they lead to is kept: the value of an evaluated CAF is a root. */
  lemma StaticTarget(w: World, roots: seq<Addr>, stack: seq<Sptr>, g: Marks, p: Sptr)
    requires WorldOk(w) && RootsOk(w, roots, stack) && Finished(w, roots, stack, g) && StaticWord(w.lazies, p)
    ensures Target(Norm(w.m, p)) <= g.marked - g.seen
  {
    MarksAreReachable(w, roots, stack, g);
    forall b | b in Target(Norm(w.m, p))
      ensures b in g.marked - g.seen
    {
      assert b in roots && b in Start(w.m, roots, stack);
      ReachStart(w.m, w.np, Start(w.m, roots, stack), b);
    }
  }

  lemma NormOk(w: World, p: Sptr)
    requires PtrOk(w, p)
    ensures var q := Norm(w.m, p); PtrOk(w, q) && (q.Lazy? ==> IsLazy(Head(w.m, q.loc)))
  {}

  lemma {:induction false} ObserveKept(w: World, roots: seq<Addr>, stack: seq<Sptr>, g: Marks, p: Sptr, p': Sptr, path: seq<nat>)
    requires WorldOk(w) && RootsOk(w, roots, stack) && Finished(w, roots, stack, g)
    requires PtrOk(w, p) && Target(Norm(w.m, p)) <= g.marked - g.seen
    requires p' == p || p' == Norm(w.m, p)
    ensures Observe(g.m, w.np, p', path) == Observe(w.m, w.np, p, path)
    decreases |path|
  {
    NormOk(w, p);
    ObserveIs(g.m, w.np, p', path);
    ObserveIs(w.m, w.np, p, path);
    hide WorldOk, RootsOk, PtrOk, Finished, StaticWord, Observe;
    NormStaysAfter(w, roots, stack, g, p);
    var q := Norm(w.m, p);
    if path != [] && IsPtr(q) && q.loc in w.m && path[0] < |w.m[q.loc]| {
      var j := path[0];
      if q.loc.Static? {
        StaticStep(w, q, j);
        StaticTarget(w, roots, stack, g, w.m[q.loc][j]);
        RawWordsKept(w, roots, stack, g, q.loc, j);
        ObserveKept(w, roots, stack, g, w.m[q.loc][j], w.m[q.loc][j], path[1..]);
      } else if j < Scanned(w.np, q.loc) {
        LiveWordsNormal(w, roots, stack, g, q.loc, j);
        ObserveKept(w, roots, stack, g, w.m[q.loc][j], g.m[q.loc][j], path[1..]);
      } else {
        RawWordsKept(w, roots, stack, g, q.loc, j);
      }
    }
  }

  /** Whatever the program can observe through a word on its stack is the same before and
      after the collection. */
  lemma StackMeaningKept(w: World, roots: seq<Addr>, stack: seq<Sptr>, g: Marks, i: nat, path: seq<nat>)
    requires WorldOk(w) && RootsOk(w, roots, stack) && Finished(w, roots, stack, g) && i < |stack|
    ensures Observe(g.m, w.np, stack[i], path) == Observe(w.m, w.np, stack[i], path)
  {
    StackWord(w, roots, stack, g, i);
    ObserveKept(w, roots, stack, g, stack[i], stack[i], path);
  }

  /** And so is whatever it can observe through a CAF, evaluated or not. */
  lemma CafMeaningKept(w: World, roots: seq<Addr>, stack: seq<Sptr>, g: Marks, a: Addr, path: seq<nat>)
    requires WorldOk(w) && RootsOk(w, roots, stack) && Finished(w, roots, stack, g)
    requires a in w.lazies && a.Static?
    ensures Observe(g.m, w.np, Lazy(a), path) == Observe(w.m, w.np, Lazy(a), path)
  {
    StaticTarget(w, roots, stack, g, Lazy(a));
    ObserveKept(w, roots, stack, g, Lazy(a), Lazy(a), path);
  }

  /** For every scanned word of every object that stays live, `follow` gives the same value
      before and after, no thunk's head was altered, and the word does not point lazily at
      an evaluated location any more. */
  lemma FollowKept(w: World, roots: seq<Addr>, stack: seq<Sptr>, g: Marks, a: Addr, j: nat)
    requires WorldOk(w) && Finished(w, roots, stack, g)
    requires a in g.marked - g.seen && j < Scanned(w.np, a)
    ensures a in g.m && a in w.m && j < |g.m[a]| == |w.m[a]|
    ensures Follow(g.m, g.m[a][j]) == Follow(w.m, w.m[a][j])
    ensures g.m[a][j].Lazy? ==> g.m[a][j] == w.m[a][j] && IsLazy(Head(g.m, g.m[a][j].loc))
    ensures forall t | t in w.lazies :: Head(g.m, t) == Head(w.m, t)
  {
    LiveWordsNormal(w, roots, stack, g, a, j);
    forall t | t in w.lazies
      ensures Head(g.m, t) == Head(w.m, t)
    {
      HeadsStay(w, g.m, t);
    }
  }

  /** Words that are not scanned are never written. */
  lemma RawWordsKept(w: World, roots: seq<Addr>, stack: seq<Sptr>, g: Marks, a: Addr, j: nat)
    requires Finished(w, roots, stack, g) && a in w.m && Scanned(w.np, a) <= j < |w.m[a]|
    ensures a in g.m && j < |g.m[a]| && g.m[a][j] == w.m[a][j]
  {
    assert SameObject(w, a, g.m[a]);
  }
}
