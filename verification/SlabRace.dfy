/** Which block the sweep of a cache leaves at the front of the cache's first list (`best`
    and `free_best` in s_cleanup_blocks, rts/rts/gc_jgc.c). */
module SlabRace {
  import opened SlabModel
  import opened SlabSweep

  /** The free entries of the candidate, and `free_best`. */
  datatype Candidate = Candidate(count: nat, freeBest: nat)

  /** The candidate after blocks with these numbers of free entries were visited, of those
      with some but not all entries free. `free_best` is read from the displaced block. */
  function Race(fs: seq<nat>): Candidate
    requires fs != []
  {
    var n := |fs| - 1;
    if n == 0 then Candidate(fs[0], fs[0])
    else
      var c := Race(fs[..n]);
      if fs[n] < c.freeBest then Candidate(fs[n], c.count) else c
  }

  /** The block with 4 free entries displaces the one with 3. */
  lemma FrontNotFullest()
    ensures Race([5, 3, 4]).count == 4
  {
    assert [5, 3, 4][..2] == [5, 3] && [5, 3][..1] == [5];
    assert Race([5]) == Candidate(5, 5);
    assert Race([5, 3]) == Candidate(3, 5);
  }

  /** The front is one of the blocks visited, and no emptier than the first of them. */
  lemma {:induction false} FrontBound(fs: seq<nat>)
    requires fs != []
    ensures Race(fs).count in fs && Race(fs).freeBest in fs
    ensures Race(fs).count <= fs[0] && Race(fs).freeBest <= fs[0]
  {
    if |fs| > 1 {
      FrontBound(fs[..|fs| - 1]);
    }
  }

  /** The first block with the least number of free entries always becomes the candidate. */
  lemma LeastDisplaces(fs: seq<nat>, k: nat)
    requires k < |fs| && forall i | 0 <= i < k :: fs[k] < fs[i]
    ensures Race(fs[..k + 1]).count == fs[k] <= Race(fs[..k + 1]).freeBest
  {
    if k > 0 {
      var front := fs[..k];
      assert fs[..k + 1][..k] == front;
      FrontBound(front);
    }
  }

  /** `j` is the first place behind `k` with fewer free entries than `d`. */
  ghost predicate FirstBelow(fs: seq<nat>, k: nat, d: nat, j: nat) {
    k < j < |fs| && fs[j] < d && forall i | k < i < j :: fs[i] >= d
  }

  /** The front is a fullest block, one with the least number of free entries, if and only
      if no fuller one is passed over: with `k` the first fullest block visited, the next
      block that has fewer free entries than `free_best` has then, if any, is a fullest one
      as well. */
  lemma FrontFullestIff(fs: seq<nat>, k: nat)
    requires k < |fs|
    requires forall i | 0 <= i < |fs| :: fs[k] <= fs[i]
    requires forall i | 0 <= i < k :: fs[k] < fs[i]
    ensures Race(fs).count == fs[k] <==> forall j: nat | FirstBelow(fs, k, Race(fs[..k + 1]).freeBest, j) :: fs[j] == fs[k]
  {
    var d := Race(fs[..k + 1]).freeBest;
    LeastDisplaces(fs, k);
    FrontBehind(fs, k, |fs|);
    assert fs[..|fs|] == fs;
    if i :| k < i < |fs| && fs[i] < d {
      var j := SomeFirst(fs, k, d, i);
      assert forall i: nat | FirstBelow(fs, k, d, i) :: i == j;
    }
  }

  lemma {:induction false} SomeFirst(fs: seq<nat>, k: nat, d: nat, i: nat) returns (j: nat)
    requires k < i < |fs| && fs[i] < d
    ensures FirstBelow(fs, k, d, j)
  {
    if i' :| k < i' < i && fs[i'] < d {
      j := SomeFirst(fs, k, d, i');
    } else {
      j := i;
    }
  }

  /** What became of the candidate after the first `n` blocks. */
  lemma {:induction false} FrontBehind(fs: seq<nat>, k: nat, n: nat)
    requires k < n <= |fs|
    requires forall i | 0 <= i < |fs| :: fs[k] <= fs[i]
    requires Race(fs[..k + 1]).count == fs[k] <= Race(fs[..k + 1]).freeBest
    ensures var d := Race(fs[..k + 1]).freeBest;
            && (forall j: nat | FirstBelow(fs, k, d, j) && j < n :: Race(fs[..n]) == Candidate(fs[j], fs[k]))
            && ((forall i | k < i < n :: fs[i] >= d) ==> Race(fs[..n]) == Race(fs[..k + 1]))
  {
    if n > k + 1 {
      FrontBehind(fs, k, n - 1);
      assert fs[..n][..n - 1] == fs[..n - 1];
    }
  }

  // ----- the sweep runs the race

  predicate Competes(s: Slabs, c: nat, p: nat) { p < |s.blocks| && Class(s.blocks[p], c) == Partial(c) }

  /** The free entries of the blocks of `l` that compete for the front, in this order. */
  function Counts(s: Slabs, c: nat, l: seq<nat>): seq<nat> {
    if l == [] then []
    else
      var p := l[|l| - 1];
      Counts(s, c, l[..|l| - 1]) + if Competes(s, c, p) then [s.blocks[p].numFree] else []
  }

  lemma CountsMore(s: Slabs, c: nat, l: seq<nat>, p: nat)
    ensures Counts(s, c, l + [p]) == Counts(s, c, l) + if Competes(s, c, p) then [s.blocks[p].numFree] else []
  {
    assert (l + [p])[..|l|] == l;
  }

  lemma RaceMore(fs: seq<nat>, x: nat)
    ensures Race(fs + [x]) ==
            if fs == [] then Candidate(x, x)
            else if x < Race(fs).freeBest then Candidate(x, Race(fs).count) else Race(fs)
  {
    assert (fs + [x])[..|fs|] == fs;
  }

  /** The candidate and `free_best` once the blocks of `done` were visited. */
  ghost predicate RaceAt(s0: Slabs, c: nat, done: seq<nat>, ls: Lists, best: seq<nat>, freeBest: int) {
    var fs := Counts(s0, c, done);
    if fs == [] then best == [] && ls.part == []
    else best != [] && best[0] < |s0.blocks| && Race(fs).count == s0.blocks[best[0]].numFree && Race(fs).freeBest == freeBest
  }

  /** One more block visited of all those to visit. */
  lemma VisitedAll(done: seq<nat>, todo: seq<nat>, later: seq<nat>)
    requires todo != []
    ensures (done + [todo[0]]) + (todo[1..] + later) == done + (todo + later)
  {}

  lemma RaceStart(s0: Slabs, c: nat, ls: Lists, freeBest: int)
    requires ls.part == []
    ensures RaceAt(s0, c, [], ls, [], freeBest)
  {}

  lemma BodyRaces(s0: Slabs, s: Slabs, c: nat, ls: Lists, todo: seq<nat>, later: seq<nat>, best: seq<nat>, freeBest: int, done: seq<nat>)
    requires SweepState(s0, s, c, ls, todo, later, best) && todo != []
    requires RaceAt(s0, c, done, ls, best, freeBest)
    requires todo[0] < |s.blocks| && c < |s.partial| == |s.full| && (best != [] ==> best[0] < |s.blocks|)
    ensures var st := Body(s, c, todo[0], best, freeBest);
            RaceAt(s0, c, done + [todo[0]], PutAll(ls, st), st.best, st.freeBest)
  {
    var p := todo[0];
    assert p in todo;
    LooseBlock(s0, s, c, ls, todo, later, best, p);
    BlockAsBefore(s0, s, c, ls, todo, later, best, p);
    if best != [] {
      assert best[0] in best;
      BlockAsBefore(s0, s, c, ls, todo, later, best, best[0]);
    }
    hide SweepState, RaceAt, Body;
    StepRaces(s0, s, c, ls, p, best, freeBest, done);
  }

  lemma StepRaces(s0: Slabs, s: Slabs, c: nat, ls: Lists, p: nat, best: seq<nat>, freeBest: int, done: seq<nat>)
    requires p < |s.blocks| == |s0.blocks| && c < |s.partial| == |s.full| && (best != [] ==> best[0] < |s.blocks|)
    requires RaceAt(s0, c, done, ls, best, freeBest)
    requires SameButLink(s0.blocks[p], s.blocks[p])
    requires best != [] ==> SameButLink(s0.blocks[best[0]], s.blocks[best[0]])
    ensures var st := Body(s, c, p, best, freeBest);
            RaceAt(s0, c, done + [p], PutAll(ls, st), st.best, st.freeBest)
  {
    var f := s0.blocks[p].numFree;
    assert s.blocks[p].numFree == f && Class(s.blocks[p], c) == Class(s0.blocks[p], c);
    assert best != [] ==> s.blocks[best[0]].numFree == s0.blocks[best[0]].numFree;
    CountsMore(s0, c, done, p);
    hide Race, Counts, Insert, SameButLink;
    var fs := Counts(s0, c, done);
    RaceMore(fs, f);
    assert Counts(s0, c, done + [p]) == if Competes(s0, c, p) then fs + [f] else fs;
  }

  lemma BlockAsBefore(s0: Slabs, s: Slabs, c: nat, ls: Lists, todo: seq<nat>, later: seq<nat>, best: seq<nat>, p: nat)
    requires SweepState(s0, s, c, ls, todo, later, best) && p < |s.blocks|
    ensures p < |s0.blocks| && SameButLink(s0.blocks[p], s.blocks[p])
  {
    assert BlockSwept(s0.blocks[p], s.blocks[p], c, p, ls, Loose(todo, later, best));
  }

  // ----- at the end of the sweep

  /** The first list of cache `c` is headed by the winner among the blocks of both its old
      lists, and is empty only if none of them competed. */
  ghost predicate FrontRaced(s: Slabs, t: Slabs, c: nat) {
    && c < |s.partial| == |s.full| && c < |t.partial|
    && var fs := Counts(s, c, s.partial[c] + s.full[c]);
       if fs == [] then t.partial[c] == []
       else t.partial[c] != [] && t.partial[c][0] < |t.blocks| && t.blocks[t.partial[c][0]].numFree == Race(fs).count
  }

  /** The lists of the other caches are as they were. */
  ghost predicate OthersKept(s: Slabs, t: Slabs, c: nat) {
    && |t.partial| == |s.partial| && |t.full| == |s.full|
    && (forall d: nat | d < |s.partial| && d != c :: t.partial[d] == s.partial[d])
    && (forall d: nat | d < |s.full| && d != c :: t.full[d] == s.full[d])
  }

  lemma RaceWon(s0: Slabs, s: Slabs, c: nat, ls: Lists, best: seq<nat>, freeBest: int)
    requires SweepState(s0, s, c, ls, [], [], best)
    requires RaceAt(s0, c, s0.partial[c] + s0.full[c], ls, best, freeBest)
    ensures best == [] ==> FrontRaced(s0, s, c) && OthersKept(s0, s, c)
    ensures best != [] ==>
              && best[0] < |s.blocks| && c < |s.partial| == |s.full|
              && FrontRaced(s0, Insert(s, c, best[0], Partial(c)), c) && OthersKept(s0, Insert(s, c, best[0], Partial(c)), c)
  {
    if best != [] {
      assert best[0] in best;
      BlockAsBefore(s0, s, c, ls, [], [], best, best[0]);
    }
    hide Race, Counts, Sweeping, Visiting;
  }

  // ----- the sweep of all caches

  /** Caches from `n` on have their winner in front, the lists of the others are unchanged. */
  ghost predicate FrontsFrom(s: Slabs, t: Slabs, n: nat) {
    && |t.partial| == |s.partial| == |s.full| == |t.full|
    && (forall d: nat | n <= d < |s.partial| :: FrontRaced(s, t, d))
    && (forall d: nat | d < n && d < |s.partial| :: t.partial[d] == s.partial[d] && t.full[d] == s.full[d])
  }

  lemma {:induction false} CountsSame(s: Slabs, t: Slabs, c: nat, l: seq<nat>)
    requires |s.blocks| == |t.blocks| && forall p: nat | p < |s.blocks| :: SameButLink(s.blocks[p], t.blocks[p])
    ensures Counts(t, c, l) == Counts(s, c, l)
  {
    if l != [] {
      CountsSame(s, t, c, l[..|l| - 1]);
      var p := l[|l| - 1];
      if p < |s.blocks| { assert SameButLink(s.blocks[p], t.blocks[p]); }
    }
  }

  lemma FrontsStep(s: Slabs, t: Slabs, u: Slabs, n: nat)
    requires SweptFrom(s, t, n + 1) && CacheSwept(t, u, n)
    requires FrontsFrom(s, t, n + 1) && FrontRaced(t, u, n) && OthersKept(t, u, n)
    ensures FrontsFrom(s, u, n)
  {
    hide Race, Counts;
    forall d: nat | n <= d < |s.partial|
      ensures FrontRaced(s, u, d)
    {
      if d == n {
        CountsSame(s, t, n, s.partial[n] + s.full[n]);
      } else {
        assert FrontRaced(s, t, d);
        if t.partial[d] != [] {
          var p := t.partial[d][0];
          assert p < |t.blocks| ==> SameButLink(t.blocks[p], u.blocks[p]);
        }
      }
    }
  }
}
