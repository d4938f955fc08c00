/** The marking phase (gc_add_grey, gc_mark_deeper and the root loops of
    gc_perform_gc, rts/rts/gc_jgc.c) on memory as a value: what every step keeps, and
    what holds when no grey object is left. */
module HeapMark {
  import opened SmartPtr
  import opened HeapGraph
  import opened HeapInvariant

  /** Memory as rewritten so far, the marked entries, the mark stack, and the evaluated
      lazy locations that were marked without being scanned. */
  datatype Marks = Marks(m: Memory, marked: set<Addr>, grey: seq<Addr>, seen: set<Addr>)

  // ----- memory changes only by short-circuiting scanned words

  ghost predicate ShortCircuited(w: World, m: Memory) {
    && m.Keys == w.m.Keys
    && forall a | a in m :: SameObject(w, a, m[a])
  }

  ghost predicate SameObject(w: World, a: Addr, ws: seq<Sptr>)
    requires a in w.m
  {
    && |ws| == |w.m[a]|
    && forall j: nat | j < |ws| ::
         ws[j] == w.m[a][j] || (a in w.live && j < Scanned(w.np, a) && ws[j] == Norm(w.m, w.m[a][j]))
  }

  /** Heads of lazy locations are never rewritten. */
  lemma HeadsStay(w: World, m: Memory, a: Addr)
    requires WorldOk(w) && ShortCircuited(w, m) && a in w.lazies
    ensures Head(m, a) == Head(w.m, a)
  {
    assert SameObject(w, a, m[a]);
  }

  /** So normalising a safe pointer gives the same result throughout. */
  lemma NormStays(w: World, m: Memory, p: Sptr)
    requires WorldOk(w) && ShortCircuited(w, m) && PtrOk(w, p)
    ensures Norm(m, p) == Norm(w.m, p)
    ensures Norm(m, Norm(w.m, p)) == Norm(w.m, p)
  {
    if p.Lazy? { HeadsStay(w, m, p.loc); }
  }

  // ----- the invariant of the traversal

  ghost predicate Scanning(w: World, g: Marks, a: Addr, n: nat) {
    && a in g.m && n <= |g.m[a]| && a in w.m && n <= |w.m[a]|
    && forall j: nat | j < n :: g.m[a][j] == Norm(w.m, w.m[a][j]) && Target(g.m[a][j]) <= g.marked
  }

  /** `cur` is the object being scanned, if any, and `i` of its words are done. */
  ghost predicate Progress(w: World, g: Marks, cur: seq<Addr>, i: nat, a: Addr) {
    || a in g.grey
    || a in g.seen
    || Scanning(w, g, a, if a in cur then i else Scanned(w.np, a))
  }

  ghost predicate MarkInv(w: World, from: set<Addr>, g: Marks, cur: seq<Addr>, i: nat) {
    && ShortCircuited(w, g.m)
    && g.seen <= g.marked
    && (forall a | a in g.seen :: a in w.alloc && a in w.lazies && !IsLazy(Head(w.m, a)))
    && (forall a | a in g.marked && a !in g.seen :: a in w.live && Reachable(w.m, w.np, from, a))
    && (forall a | a in g.grey :: a in g.marked && a !in g.seen)
    && (forall a | a in cur :: a in g.marked && a !in g.seen)
    && (forall a | a in g.marked :: Progress(w, g, cur, i, a))
  }

  // ----- gc_add_grey

  function AddGrey(np: seq<nat>, g: Marks, b: Addr): Marks {
    if b in g.marked then g
    else g.(marked := g.marked + {b}, grey := if Scanned(np, b) > 0 then g.grey + [b] else g.grey)
  }

  lemma AddGreyKeeps(w: World, from: set<Addr>, g: Marks, cur: seq<Addr>, i: nat, b: Addr)
    requires WorldOk(w) && MarkInv(w, from, g, cur, i)
    requires b in w.live && Reachable(w.m, w.np, from, b) && b !in g.seen
    ensures MarkInv(w, from, AddGrey(w.np, g, b), cur, i)
    ensures b in AddGrey(w.np, g, b).marked
    ensures forall a | a in AddGrey(w.np, g, b).grey :: a in g.grey || Scanned(w.np, a) > 0
  {
    var h := AddGrey(w.np, g, b);
    assert ObjectOk(w, b);
    forall a | a in h.marked
      ensures Progress(w, h, cur, i, a)
    {
      if a in g.marked {
        assert Progress(w, g, cur, i, a);
      }
    }
  }

  // ----- one word of the inner loop of gc_mark_deeper

  function Rewrite(g: Marks, e: Addr, j: nat): Marks
    requires e in g.m && j < |g.m[e]|
  {
    g.(m := g.m[e := g.m[e][j := Norm(g.m, g.m[e][j])]])
  }

  lemma RewriteIs(w: World, g: Marks, e: Addr, j: nat)
    requires WorldOk(w) && ShortCircuited(w, g.m) && e in w.live && j < Scanned(w.np, e)
    ensures ObjectOk(w, e) && e in g.m && |g.m[e]| == |w.m[e]| && j < |g.m[e]|
    ensures Norm(g.m, g.m[e][j]) == Norm(w.m, w.m[e][j])
    ensures ShortCircuited(w, Rewrite(g, e, j).m)
  {
    assert ObjectOk(w, e) && SameObject(w, e, g.m[e]) && PtrOk(w, w.m[e][j]);
    NormStays(w, g.m, w.m[e][j]);
    var h := Rewrite(g, e, j);
    forall a | a in h.m
      ensures SameObject(w, a, h.m[a])
    {
      assert SameObject(w, a, g.m[a]);
    }
  }

  lemma RewriteKeeps(w: World, from: set<Addr>, g: Marks, e: Addr, i: nat)
    requires WorldOk(w) && MarkInv(w, from, g, [e], i) && i < Scanned(w.np, e)
    ensures e in g.m && i < |g.m[e]|
    ensures MarkInv(w, from, Rewrite(g, e, i), [e], i)
    ensures Rewrite(g, e, i).m[e][i] == Norm(w.m, w.m[e][i])
  {
    RewriteIs(w, g, e, i);
    var h := Rewrite(g, e, i);
    forall a | a in h.marked
      ensures Progress(w, h, [e], i, a)
    {
      assert Progress(w, g, [e], i, a);
    }
  }

  /** After the word is rewritten and its target marked, one more word is done. */
  lemma WordDone(w: World, from: set<Addr>, g: Marks, e: Addr, i: nat)
    requires MarkInv(w, from, g, [e], i) && i < Scanned(w.np, e) && e in g.m && i < |g.m[e]|
    requires e in w.m && i < |w.m[e]|
    requires g.m[e][i] == Norm(w.m, w.m[e][i]) && Target(g.m[e][i]) <= g.marked
    ensures MarkInv(w, from, g, [e], i + 1)
  {
    forall a | a in g.marked
      ensures Progress(w, g, [e], i + 1, a)
    {
      assert Progress(w, g, [e], i, a);
    }
  }

  /** The target of a word of a reachable object is reachable, live, and not one of the
      locations that were marked without being scanned. */
  lemma WordTarget(w: World, from: set<Addr>, g: Marks, e: Addr, i: nat, b: Addr)
    requires WorldOk(w) && MarkInv(w, from, g, [e], i) && i < Scanned(w.np, e)
    requires e in w.m && i < |w.m[e]| && b in Target(Norm(w.m, w.m[e][i]))
    ensures b in w.live && Reachable(w.m, w.np, from, b) && b !in g.seen
  {
    assert e in [e];
    assert ObjectOk(w, e) && PtrOk(w, w.m[e][i]);
    NormTarget(w, w.m[e][i], b);
    assert Edge(w.m, w.np, e, b);
    ReachStep(w.m, w.np, from, e, b);
  }

  // ----- termination

  /** Unset bits plus the depth of the mark stack. */
  ghost function Work(w: World, g: Marks): nat { |w.live - g.marked| + |g.grey| }

  lemma AddGreyWork(w: World, g: Marks, b: Addr)
    requires b in w.live
    ensures Work(w, AddGrey(w.np, g, b)) <= Work(w, g)
  {
    if b !in g.marked {
      assert w.live - (g.marked + {b}) == (w.live - g.marked) - {b};
    }
  }

  lemma RewriteSame(g: Marks, e: Addr, j: nat)
    requires e in g.m && j < |g.m[e]|
    ensures Norm(g.m, g.m[e][j]) == g.m[e][j] ==> Rewrite(g, e, j) == g
  {
    if Norm(g.m, g.m[e][j]) == g.m[e][j] {
      assert g.m[e][j := g.m[e][j]] == g.m[e];
      assert Rewrite(g, e, j).m == g.m;
    }
  }

  /** The word itself and everything the target's marking needs, in one step. */
  function ScanStep(np: seq<nat>, g: Marks, e: Addr, i: nat): Marks
    requires e in g.m && i < |g.m[e]|
  {
    var h := Rewrite(g, e, i);
    var p := h.m[e][i];
    if IsPtr(p) && p.loc.Entry? then AddGrey(np, h, p.loc) else h
  }

  lemma ScanStepKeeps(w: World, from: set<Addr>, g: Marks, e: Addr, i: nat)
    requires WorldOk(w) && MarkInv(w, from, g, [e], i) && i < Scanned(w.np, e)
    ensures e in g.m && i < |g.m[e]|
    ensures MarkInv(w, from, ScanStep(w.np, g, e, i), [e], i + 1)
    ensures Work(w, ScanStep(w.np, g, e, i)) <= Work(w, g)
    ensures g.marked <= ScanStep(w.np, g, e, i).marked
    ensures var p := Rewrite(g, e, i).m[e][i]; IsPtr(p) && p.loc.Entry? ==> p.loc in w.live
    ensures g.m[e][i].Lazy? ==> g.m[e][i].loc in g.m && g.m[g.m[e][i].loc] != []
  {
    hide MarkInv;
    RewriteKeeps(w, from, g, e, i);
    InLive(w, from, g, e, i);
    var h := Rewrite(g, e, i);
    var p := h.m[e][i];
    if IsPtr(p) && p.loc.Entry? {
      WordTarget(w, from, h, e, i, p.loc);
      AddGreyKeeps(w, from, h, [e], i, p.loc);
      AddGreyWork(w, h, p.loc);
    }
    WordDone(w, from, ScanStep(w.np, g, e, i), e, i);
  }

  lemma InLive(w: World, from: set<Addr>, g: Marks, e: Addr, i: nat)
    requires WorldOk(w) && MarkInv(w, from, g, [e], i) && i < Scanned(w.np, e)
    ensures e in w.live && e in w.m && i < |w.m[e]| && e in g.m && i < |g.m[e]|
    ensures g.m[e][i].Lazy? ==> g.m[e][i].loc in g.m && g.m[g.m[e][i].loc] != []
  {
    assert e in [e];
    assert ObjectOk(w, e) && SameObject(w, e, g.m[e]) && PtrOk(w, w.m[e][i]);
    if g.m[e][i].Lazy? {
      var t := g.m[e][i].loc;
      assert t in w.lazies && SameObject(w, t, g.m[t]);
    }
  }

  // ----- the outer loop of gc_mark_deeper

  lemma PoppedIs(g: Marks, a: Addr)
    requires g.grey != []
    ensures var k := |g.grey| - 1; a in g.grey <==> a in g.grey[..k] || a == g.grey[k]
  {
    assert g.grey == g.grey[..|g.grey| - 1] + [g.grey[|g.grey| - 1]];
  }

  lemma PopGreyKeeps(w: World, from: set<Addr>, g: Marks)
    requires WorldOk(w) && MarkInv(w, from, g, [], 0) && g.grey != []
    ensures MarkInv(w, from, g.(grey := g.grey[..|g.grey| - 1]), [g.grey[|g.grey| - 1]], 0)
    ensures g.grey[|g.grey| - 1] in w.live
    ensures Work(w, g.(grey := g.grey[..|g.grey| - 1])) < Work(w, g)
  {
    var e, h := g.grey[|g.grey| - 1], g.(grey := g.grey[..|g.grey| - 1]);
    assert e in g.grey;
    hide Reachable;
    forall a | a in h.marked
      ensures Progress(w, h, [e], 0, a)
    {
      PoppedIs(g, a);
      assert Progress(w, g, [], 0, a);
      if a == e { assert ObjectOk(w, a); }
    }
  }

  lemma ObjectDone(w: World, from: set<Addr>, g: Marks, e: Addr)
    requires MarkInv(w, from, g, [e], Scanned(w.np, e))
    ensures MarkInv(w, from, g, [], 0)
  {
    forall a | a in g.marked
      ensures Progress(w, g, [], 0, a)
    {
      assert Progress(w, g, [e], Scanned(w.np, e), a);
    }
  }

  // ----- the stack loop of gc_perform_gc

  /** s_set_used_bit on an evaluated lazy location: marked, not pushed. */
  function AddSeen(g: Marks, t: Addr): Marks {
    if t in g.marked then g else g.(marked := g.marked + {t}, seen := g.seen + {t})
  }

  lemma AddSeenKeeps(w: World, from: set<Addr>, g: Marks, p: Sptr)
    requires MarkInv(w, from, g, [], 0) && PtrOk(w, p) && EvaluatedPtr(w.m, p)
    ensures MarkInv(w, from, AddSeen(g, p.loc), [], 0)
    ensures p.loc in AddSeen(g, p.loc).marked
  {
    var h := AddSeen(g, p.loc);
    forall a | a in h.marked
      ensures Progress(w, h, [], 0, a)
    {
      if a in g.marked { assert Progress(w, g, [], 0, a); }
    }
  }

  // ----- the loops over the roots and the stack

  /** The first `i` roots and the first `k` words of the stack have been dealt with. */
  ghost predicate Covered(w: World, roots: seq<Addr>, i: nat, stack: seq<Sptr>, k: nat, marked: set<Addr>, seen: set<Addr>) {
    && i <= |roots| && k <= |stack|
    && (forall j | 0 <= j < i :: roots[j] in marked - seen)
    && (forall j | 0 <= j < k :: Target(Norm(w.m, stack[j])) <= marked - seen)
    && (forall j | 0 <= j < k && EvaluatedPtr(w.m, stack[j]) :: stack[j].loc in marked)
    && seen <= EvaluatedOnStack(w.m, stack)
  }

  lemma CoveredGrows(w: World, roots: seq<Addr>, i: nat, stack: seq<Sptr>, k: nat, g: Marks, h: Marks)
    requires Covered(w, roots, i, stack, k, g.marked, g.seen)
    requires g.marked <= h.marked && g.marked - g.seen <= h.marked - h.seen
    requires h.seen <= EvaluatedOnStack(w.m, stack)
    ensures Covered(w, roots, i, stack, k, h.marked, h.seen)
  {}

  ghost predicate Seeded(w: World, roots: seq<Addr>, i: nat, stack: seq<Sptr>, k: nat, g: Marks) {
    && MarkInv(w, Start(w.m, roots, stack), g, [], 0)
    && g.m == w.m
    && Covered(w, roots, i, stack, k, g.marked, g.seen)
  }

  lemma SeedEmpty(w: World, roots: seq<Addr>, stack: seq<Sptr>)
    ensures Seeded(w, roots, 0, stack, 0, Marks(w.m, {}, [], {}))
  {}

  lemma RootTarget(w: World, roots: seq<Addr>, stack: seq<Sptr>, i: nat)
    requires WorldOk(w) && RootsOk(w, roots, stack) && i < |roots|
    ensures roots[i].Entry? && roots[i] in w.live && Reachable(w.m, w.np, Start(w.m, roots, stack), roots[i])
  {
    assert ObjectOk(w, roots[i]);
    assert roots[i] in Start(w.m, roots, stack);
    ReachStart(w.m, w.np, Start(w.m, roots, stack), roots[i]);
  }

  lemma SeedRoot(w: World, roots: seq<Addr>, i: nat, stack: seq<Sptr>, g: Marks)
    requires WorldOk(w) && RootsOk(w, roots, stack) && Seeded(w, roots, i, stack, 0, g) && i < |roots|
    requires g.seen == {}
    ensures roots[i].Entry? && roots[i] in w.live
    ensures Seeded(w, roots, i + 1, stack, 0, AddGrey(w.np, g, roots[i]))
  {
    RootTarget(w, roots, stack, i);
    hide MarkInv, WorldOk, RootsOk, Reachable, Start, EvaluatedOnStack, Covered;
    var h := AddGrey(w.np, g, roots[i]);
    AddGreyKeeps(w, Start(w.m, roots, stack), g, [], 0, roots[i]);
    assert g.seen == {} <= EvaluatedOnStack(w.m, stack);
    CoveredGrows(w, roots, i, stack, 0, g, h);
    CoverRoot(w, roots, i, stack, h);
  }

  lemma CoverRoot(w: World, roots: seq<Addr>, i: nat, stack: seq<Sptr>, h: Marks)
    requires i < |roots| && Covered(w, roots, i, stack, 0, h.marked, h.seen) && roots[i] in h.marked && h.seen == {}
    ensures Covered(w, roots, i + 1, stack, 0, h.marked, h.seen)
  {}

  /** What the loop over the stack does for one word: an evaluated location is marked, and
      what is followed in its place is greyed. */
  function SeedWord(np: seq<nat>, g: Marks, p: Sptr): Marks {
    GreyTarget(np, if EvaluatedPtr(g.m, p) then AddSeen(g, p.loc) else g, Norm(g.m, p))
  }

  function GreyTarget(np: seq<nat>, g: Marks, q: Sptr): Marks {
    if IsPtr(q) && q.loc.Entry? then AddGrey(np, g, q.loc) else g
  }

  lemma SeedStack(w: World, roots: seq<Addr>, stack: seq<Sptr>, k: nat, g: Marks)
    requires WorldOk(w) && RootsOk(w, roots, stack) && Seeded(w, roots, |roots|, stack, k, g) && k < |stack|
    ensures Seeded(w, roots, |roots|, stack, k + 1, SeedWord(w.np, g, stack[k]))
    ensures EvaluatedPtr(w.m, stack[k]) ==> stack[k].loc in w.alloc
    ensures var q := Norm(w.m, stack[k]); IsPtr(q) && q.loc.Entry? ==> q.loc in w.live
    ensures stack[k].Lazy? ==> stack[k].loc in w.m && w.m[stack[k].loc] != []
  {
    StackTarget(w, roots, stack, k);
    SeedSeen(w, roots, stack, k, g);
    hide MarkInv, WorldOk, RootsOk, Reachable, PtrOk, Start, EvaluatedOnStack, Covered;
    var h := if EvaluatedPtr(w.m, stack[k]) then AddSeen(g, stack[k].loc) else g;
    SeedGrey(w, roots, stack, k, h);
  }

  lemma SeedSeen(w: World, roots: seq<Addr>, stack: seq<Sptr>, k: nat, g: Marks)
    requires WorldOk(w) && RootsOk(w, roots, stack) && Seeded(w, roots, |roots|, stack, k, g) && k < |stack|
    ensures var h := if EvaluatedPtr(w.m, stack[k]) then AddSeen(g, stack[k].loc) else g;
            Seeded(w, roots, |roots|, stack, k, h) && (EvaluatedPtr(w.m, stack[k]) ==> stack[k].loc in h.marked)
  {
    StackTarget(w, roots, stack, k);
    assert Covered(w, roots, |roots|, stack, k, g.marked, g.seen);
    hide MarkInv, WorldOk, RootsOk, Reachable, PtrOk, Start, Covered;
    if EvaluatedPtr(w.m, stack[k]) {
      var h := AddSeen(g, stack[k].loc);
      AddSeenKeeps(w, Start(w.m, roots, stack), g, stack[k]);
      SeenInside(w, roots, |roots|, stack, k, g);
      CoveredGrows(w, roots, |roots|, stack, k, g, h);
    }
  }

  lemma SeenInside(w: World, roots: seq<Addr>, i: nat, stack: seq<Sptr>, k: nat, g: Marks)
    requires Covered(w, roots, i, stack, k, g.marked, g.seen)
    ensures g.seen <= EvaluatedOnStack(w.m, stack)
  {}

  lemma SeedGrey(w: World, roots: seq<Addr>, stack: seq<Sptr>, k: nat, g: Marks)
    requires WorldOk(w) && RootsOk(w, roots, stack) && Seeded(w, roots, |roots|, stack, k, g) && k < |stack|
    requires EvaluatedPtr(w.m, stack[k]) ==> stack[k].loc in g.marked
    ensures Seeded(w, roots, |roots|, stack, k + 1, GreyTarget(w.np, g, Norm(w.m, stack[k])))
  {
    StackTarget(w, roots, stack, k);
    hide WorldOk, RootsOk, Reachable, PtrOk, Start, EvaluatedOnStack, Covered, MarkInv;
    var q := Norm(w.m, stack[k]);
    var h := GreyTarget(w.np, g, q);
    if IsPtr(q) && q.loc.Entry? {
      NotSeen(w, Start(w.m, roots, stack), g, q.loc);
      AddGreyKeeps(w, Start(w.m, roots, stack), g, [], 0, q.loc);
    }
    SeenInside(w, roots, |roots|, stack, k, g);
    CoveredGrows(w, roots, |roots|, stack, k, g, h);
    CoverWord(w, roots, stack, k, h);
  }

  lemma CoverWord(w: World, roots: seq<Addr>, stack: seq<Sptr>, k: nat, h: Marks)
    requires k < |stack| && Covered(w, roots, |roots|, stack, k, h.marked, h.seen)
    requires Target(Norm(w.m, stack[k])) <= h.marked - h.seen
    requires EvaluatedPtr(w.m, stack[k]) ==> stack[k].loc in h.marked
    ensures Covered(w, roots, |roots|, stack, k + 1, h.marked, h.seen)
  {}

  lemma StackTarget(w: World, roots: seq<Addr>, stack: seq<Sptr>, k: nat)
    requires WorldOk(w) && RootsOk(w, roots, stack) && k < |stack|
    ensures PtrOk(w, stack[k])
    ensures EvaluatedPtr(w.m, stack[k]) ==> stack[k].loc in w.alloc && stack[k].loc in EvaluatedOnStack(w.m, stack)
    ensures stack[k].Lazy? ==> stack[k].loc in w.m && w.m[stack[k].loc] != []
    ensures var q := Norm(w.m, stack[k]);
            IsPtr(q) && q.loc.Entry? ==>
              && q.loc in w.live && Reachable(w.m, w.np, Start(w.m, roots, stack), q.loc)
              && (q.loc in w.lazies ==> IsLazy(Head(w.m, q.loc)))
  {
    var p, q := stack[k], Norm(w.m, stack[k]);
    assert PtrOk(w, p);
    if IsPtr(q) && q.loc.Entry? {
      NormTarget(w, p, q.loc);
      assert q.loc in Start(w.m, roots, stack);
      ReachStart(w.m, w.np, Start(w.m, roots, stack), q.loc);
    }
  }

  lemma NotSeen(w: World, from: set<Addr>, g: Marks, b: Addr)
    requires MarkInv(w, from, g, [], 0)
    requires b in w.lazies ==> IsLazy(Head(w.m, b))
    ensures b !in g.seen
  {}

  // ----- the end of marking

  ghost predicate Finished(w: World, roots: seq<Addr>, stack: seq<Sptr>, g: Marks) {
    && MarkInv(w, Start(w.m, roots, stack), g, [], 0)
    && g.grey == []
    && (forall a | a in Start(w.m, roots, stack) :: a in g.marked && a !in g.seen)
    && (forall a | a in EvaluatedOnStack(w.m, stack) :: a in g.marked)
    && g.seen <= EvaluatedOnStack(w.m, stack)
  }

  /** Marking to the end after seeding everything. */
  lemma SeededFinishes(w: World, roots: seq<Addr>, stack: seq<Sptr>, g: Marks, h: Marks)
    requires Seeded(w, roots, |roots|, stack, |stack|, g)
    requires MarkInv(w, Start(w.m, roots, stack), h, [], 0) && h.grey == []
    requires g.marked <= h.marked && h.seen == g.seen
    ensures Finished(w, roots, stack, h)
  {
    forall a | a in Start(w.m, roots, stack)
      ensures a in h.marked && a !in h.seen
    {
      if a in roots {
        var j :| 0 <= j < |roots| && roots[j] == a;
        assert roots[j] in g.marked - g.seen;
      } else {
        var j :| 0 <= j < |stack| && a in Target(Norm(w.m, stack[j]));
        assert a in g.marked - g.seen;
      }
    }
  }

  lemma ScannedClosed(w: World, from: set<Addr>, g: Marks)
    requires WorldOk(w) && MarkInv(w, from, g, [], 0) && g.grey == []
    ensures ClosedUnder(w.m, w.np, g.marked - g.seen)
  {
    forall a, b | a in g.marked - g.seen && Edge(w.m, w.np, a, b)
      ensures b in g.marked - g.seen
    {
      assert Progress(w, g, [], 0, a);
      var j: nat :| j < |w.m[a]| && j < Scanned(w.np, a) && b in Target(Norm(w.m, w.m[a][j]));
      assert ObjectOk(w, a) && PtrOk(w, w.m[a][j]);
      NormTarget(w, w.m[a][j], b);
      assert b in Target(g.m[a][j]);
    }
  }

  /** When no grey object is left, the used bits are exactly the objects reachable over
      normalised words together with the evaluated lazy locations on the stack. */
  lemma MarksAreReachable(w: World, roots: seq<Addr>, stack: seq<Sptr>, g: Marks)
    requires WorldOk(w) && Finished(w, roots, stack, g)
    ensures forall a :: a in g.marked - g.seen <==> Reachable(w.m, w.np, Start(w.m, roots, stack), a)
    ensures forall a :: a in g.marked <==> InUse(w, roots, stack, a)
  {
    var from := Start(w.m, roots, stack);
    ScannedClosed(w, from, g);
    forall a | Reachable(w.m, w.np, from, a)
      ensures a in g.marked - g.seen
    {
      ReachInside(w.m, w.np, from, g.marked - g.seen, a);
    }
  }

  /** Every scanned word of every object that stays live was short-circuited, so none of
      them points lazily at an evaluated location. */
  lemma LiveWordsNormal(w: World, roots: seq<Addr>, stack: seq<Sptr>, g: Marks, a: Addr, j: nat)
    requires WorldOk(w) && Finished(w, roots, stack, g)
    requires a in g.marked - g.seen && j < Scanned(w.np, a)
    ensures a in g.m && a in w.m && j < |g.m[a]| == |w.m[a]|
    ensures g.m[a][j] == Norm(w.m, w.m[a][j]) && PtrOk(w, w.m[a][j])
    ensures Target(g.m[a][j]) <= g.marked - g.seen
    ensures g.m[a][j].Lazy? ==> IsLazy(Head(g.m, g.m[a][j].loc))
  {
    assert Progress(w, g, [], 0, a);
    assert ObjectOk(w, a) && SameObject(w, a, g.m[a]);
    var p := w.m[a][j];
    assert PtrOk(w, p);
    forall b | b in Target(g.m[a][j])
      ensures b in g.marked - g.seen
    {
      NormTarget(w, p, b);
    }
    if p.Lazy? { HeadsStay(w, g.m, p.loc); }
  }

  /** What the heap looks like to the mutator after the collection. */
  ghost function After(w: World, g: Marks): World {
    w.(m := g.m, alloc := g.marked, live := g.marked - g.seen)
  }

  /** `v` is the heap after a collection of `w`. */
  ghost predicate Collects(w: World, roots: seq<Addr>, stack: seq<Sptr>, v: World) {
    exists g :: Finished(w, roots, stack, g) && v == After(w, g)
  }

  lemma PtrStaysOk(w: World, roots: seq<Addr>, stack: seq<Sptr>, g: Marks, p: Sptr)
    requires WorldOk(w) && Finished(w, roots, stack, g) && PtrOk(w, p)
    requires Target(p) <= g.marked && Target(Norm(w.m, p)) <= g.marked - g.seen
    ensures PtrOk(After(w, g), p)
  {
    if p.Lazy? { HeadsStay(w, g.m, p.loc); }
  }

  lemma HeadsStayOk(w: World, roots: seq<Addr>, stack: seq<Sptr>, g: Marks)
    requires WorldOk(w) && Finished(w, roots, stack, g)
    ensures HeadsOk(g.m, w.lazies) && forall a | a in w.lazies :: Head(g.m, a) == Head(w.m, a)
  {
    forall a | a in w.lazies
      ensures a in g.m && g.m[a] != [] && !g.m[a][0].Lazy? && Head(g.m, a) == Head(w.m, a)
    {
      HeadsStay(w, g.m, a);
      assert SameObject(w, a, g.m[a]);
    }
  }

  lemma StaticsStayClosed(w: World, roots: seq<Addr>, stack: seq<Sptr>, g: Marks)
    requires WorldOk(w) && Finished(w, roots, stack, g)
    ensures StaticsClosed(g.m, w.lazies)
  {
    forall a | a in g.m && a.Static?
      ensures StaticNode(g.m, w.lazies, a)
    {
      LiveIsEntry(w, a);
      assert SameObject(w, a, g.m[a]) && StaticNode(w.m, w.lazies, a);
    }
  }

  lemma ObjectStaysOk(w: World, roots: seq<Addr>, stack: seq<Sptr>, g: Marks, a: Addr)
    requires WorldOk(w) && Finished(w, roots, stack, g) && a in After(w, g).live
    ensures ObjectOk(After(w, g), a)
  {
    var v := After(w, g);
    HeadsStayOk(w, roots, stack, g);
    assert ObjectOk(w, a) && SameObject(w, a, g.m[a]);
    forall j: nat | j < Scanned(v.np, a)
      ensures PtrOk(v, v.m[a][j])
    {
      LiveWordsNormal(w, roots, stack, g, a, j);
    }
  }

  lemma CafStaysOk(w: World, roots: seq<Addr>, stack: seq<Sptr>, g: Marks, a: Addr)
    requires WorldOk(w) && RootsOk(w, roots, stack) && Finished(w, roots, stack, g) && a in w.lazies && a.Static?
    ensures PtrOk(After(w, g), Lazy(a))
  {
    assert PtrOk(w, Lazy(a));
    forall b | b in Target(Norm(w.m, Lazy(a)))
      ensures b in g.marked - g.seen
    {
      assert b in roots && b in Start(w.m, roots, stack);
    }
    PtrStaysOk(w, roots, stack, g, Lazy(a));
  }

  lemma RootsStayOk(w: World, roots: seq<Addr>, stack: seq<Sptr>, g: Marks)
    requires WorldOk(w) && RootsOk(w, roots, stack) && Finished(w, roots, stack, g)
    ensures RootsOk(After(w, g), roots, stack)
  {
    var v := After(w, g);
    HeadsStayOk(w, roots, stack, g);
    forall i | 0 <= i < |stack|
      ensures PtrOk(v, stack[i])
    {
      StackWord(w, roots, stack, g, i);
      PtrStaysOk(w, roots, stack, g, stack[i]);
    }
    forall i | 0 <= i < |roots|
      ensures roots[i] in v.live
    {
      assert roots[i] in Start(w.m, roots, stack);
    }
  }

  /** The heap invariant holds again after a collection. */
  lemma WorldStaysOk(w: World, roots: seq<Addr>, stack: seq<Sptr>, g: Marks)
    requires WorldOk(w) && RootsOk(w, roots, stack) && Finished(w, roots, stack, g)
    ensures WorldOk(After(w, g)) && RootsOk(After(w, g), roots, stack)
  {
    var v := After(w, g);
    hide RootsOk, Finished, ObjectOk, PtrOk, HeadsOk, StaticsClosed;
    HeadsStayOk(w, roots, stack, g);
    StaticsStayClosed(w, roots, stack, g);
    RootsStayOk(w, roots, stack, g);
    forall a | a in v.live
      ensures ObjectOk(v, a)
    {
      ObjectStaysOk(w, roots, stack, g, a);
    }
    forall a | a in v.lazies && a.Static?
      ensures PtrOk(v, Lazy(a))
    {
      CafStaysOk(w, roots, stack, g, a);
    }
  }

  lemma StackWord(w: World, roots: seq<Addr>, stack: seq<Sptr>, g: Marks, i: nat)
    requires RootsOk(w, roots, stack) && Finished(w, roots, stack, g) && i < |stack|
    ensures Target(stack[i]) <= g.marked && Target(Norm(w.m, stack[i])) <= g.marked - g.seen
  {
    var p := stack[i];
    forall b | b in Target(Norm(w.m, p))
      ensures b in g.marked - g.seen
    {
      assert b in Start(w.m, roots, stack);
    }
    if EvaluatedPtr(w.m, p) {
      assert stack[i].loc in EvaluatedOnStack(w.m, stack);
    } else {
      assert Target(p) == {} || Norm(w.m, p) == p;
    }
  }

  // ----- a collection in the middle of an allocation

  /** What an allocation finds: the heap as it was or, if a collection was due, as the
      collection left it. */
  ghost predicate Became(w: World, roots: seq<Addr>, stack: seq<Sptr>, due: bool, mid: World) {
    if due then Collects(w, roots, stack, mid) else mid == w
  }

  lemma BecameNothing(w: World, roots: seq<Addr>, stack: seq<Sptr>)
    ensures Became(w, roots, stack, false, w)
  {}

  lemma NotInUse(w: World, roots: seq<Addr>, stack: seq<Sptr>, due: bool, mid: World, v: World, a: Addr)
    requires WorldOk(w) && RootsOk(w, roots, stack) && Became(w, roots, stack, due, mid) && Grown(mid, v, {a})
    ensures !InUse(w, roots, stack, a)
  {
    hide WorldOk, RootsOk, InUse, Finished;
    InUseAllocated(w, roots, stack);
    if due {
      var g :| Finished(w, roots, stack, g) && mid == After(w, g);
      MarksAreReachable(w, roots, stack, g);
    }
    assert a in {a};
  }
}
