/** The sweep of one cache (the cache loop of s_cleanup_blocks, rts/rts/gc_jgc.c) on the
    bookkeeping of SlabModel.dfy: every block of the cache's two lists is relinked into
    exactly one of three lists, chosen by its number of free entries. */
module SlabSweep {
  import opened SmartPtr
  import opened SlabModel

  predicate InCache(b: BlockSt, c: nat) { b.place == Partial(c) || b.place == Full(c) }

  /** Where the sweep puts a block of cache `c`. */
  function Class(b: BlockSt, c: nat): Place {
    if b.numFree == 0 then Full(c) else if b.numFree == b.entries then OnFree else Partial(c)
  }

  predicate SameButLink(b0: BlockSt, b: BlockSt) {
    b == b0.(place := b.place, link := b.link)
  }

  /** The three lists being built; `loose` are the blocks of the cache not yet in one. */
  datatype Lists = Lists(part: seq<nat>, full: seq<nat>, free: seq<nat>)

  ghost predicate Listed(ls: Lists, p: nat, place: Place) {
    match place
    case Nowhere => false
    case OnFree => p in ls.free
    case Partial(_) => p in ls.part
    case Full(_) => p in ls.full
  }

  ghost predicate BlockSwept(b0: BlockSt, b: BlockSt, c: nat, p: nat, ls: Lists, loose: set<nat>) {
    && SameButLink(b0, b)
    && (if InCache(b0, c) then
          if p in loose then b.place == Nowhere else b.place == Class(b0, c) && Listed(ls, p, b.place)
        else
          p !in loose && b == b0)
  }

  ghost predicate Sweeping(s0: Slabs, c: nat, bs: seq<BlockSt>, ls: Lists, loose: set<nat>) {
    && |bs| == |s0.blocks|
    && (forall p | p in loose :: p < |bs|)
    && ListOk(bs, ls.part, Partial(c)) && ListOk(bs, ls.full, Full(c)) && ListOk(bs, ls.free, OnFree)
    && (forall p: nat | p < |bs| :: BlockSwept(s0.blocks[p], bs[p], c, p, ls, loose))
    && (forall p | p in s0.free :: p in ls.free)
  }

  // ----- taking the cache's lists off

  function Unlist(s: Slabs, c: nat): seq<BlockSt> {
    seq(|s.blocks|, p requires 0 <= p < |s.blocks| =>
      if InCache(s.blocks[p], c) then s.blocks[p].(place := Nowhere) else s.blocks[p])
  }

  ghost function CachePages(s: Slabs, c: nat): set<nat> {
    set p: nat | p < |s.blocks| && InCache(s.blocks[p], c)
  }

  lemma SweepStart(s: Slabs, c: nat)
    requires Inv(s, {}) && c < |s.caches|
    ensures Sweeping(s, c, Unlist(s, c), Lists([], [], s.free), CachePages(s, c))
    ensures Linked(Unlist(s, c), s.partial[c]) && Linked(Unlist(s, c), s.full[c])
    ensures NoDup(s.partial[c] + s.full[c])
    ensures forall p: nat :: p in CachePages(s, c) <==> p in s.partial[c] + s.full[c]
  {
    var l1, l2 := s.partial[c], s.full[c];
    assert ListOk(s.blocks, l1, Partial(c)) && ListOk(s.blocks, l2, Full(c));
    forall p: nat
      ensures p in CachePages(s, c) <==> p in l1 + l2
    {
      if p in CachePages(s, c) { assert BlockOk(s, p, {}); }
    }
  }

  // ----- relinking one block

  function Put(ls: Lists, p: nat, place: Place): Lists {
    match place
    case Nowhere => ls
    case OnFree => ls.(free := [p] + ls.free)
    case Partial(_) => ls.(part := [p] + ls.part)
    case Full(_) => ls.(full := [p] + ls.full)
  }

  function ListAt(ls: Lists, place: Place): seq<nat> {
    match place
    case Nowhere => []
    case OnFree => ls.free
    case Partial(_) => ls.part
    case Full(_) => ls.full
  }

  /** SLIST_INSERT_HEAD of a loose block into the list of its class. */
  lemma Relink(s0: Slabs, c: nat, bs: seq<BlockSt>, ls: Lists, loose: set<nat>, p: nat)
    requires Sweeping(s0, c, bs, ls, loose) && p in loose
    ensures p < |bs|
    ensures var place := Class(bs[p], c);
            Sweeping(s0, c, bs[p := bs[p].(place := place, link := Next(ListAt(ls, place), 0))], Put(ls, p, place), loose - {p})
  {
    assert BlockSwept(s0.blocks[p], bs[p], c, p, ls, loose);
    var place := Class(bs[p], c);
    var b := bs[p].(place := place, link := Next(ListAt(ls, place), 0));
    var bs', ls', loose' := bs[p := b], Put(ls, p, place), loose - {p};
    if place == Partial(c) { PushKeeps(bs, ls.part, Partial(c), p, b); } else { OtherKeeps(bs, ls.part, Partial(c), p, b); }
    if place == Full(c) { PushKeeps(bs, ls.full, Full(c), p, b); } else { OtherKeeps(bs, ls.full, Full(c), p, b); }
    if place == OnFree { PushKeeps(bs, ls.free, OnFree, p, b); } else { OtherKeeps(bs, ls.free, OnFree, p, b); }
    forall q: nat | q < |bs'|
      ensures BlockSwept(s0.blocks[q], bs'[q], c, q, ls', loose')
    {
      assert BlockSwept(s0.blocks[q], bs[q], c, q, ls, loose);
    }
  }

  /** Relinking a block leaves the lists it is not in as they were. */
  lemma LinkedElsewhere(bs: seq<BlockSt>, l: seq<nat>, p: nat, b: BlockSt)
    requires Linked(bs, l) && p < |bs| && p !in l
    ensures Linked(bs[p := b], l)
  {}

  // ----- what is still to be visited

  /** The blocks not yet in a list are the rest of the cache's first list, the rest of
      its second list, and the candidate for the front, if there is one. */
  ghost predicate Visiting(loose: set<nat>, todo: seq<nat>, later: seq<nat>, best: seq<nat>) {
    && NoDup(todo) && NoDup(later) && |best| <= 1
    && (forall x | x in todo :: x !in later && x !in best)
    && (forall x | x in later :: x !in best)
    && (forall x :: x in loose <==> x in todo || x in later || x in best)
  }

  ghost function Loose(todo: seq<nat>, later: seq<nat>, best: seq<nat>): set<nat> {
    set x | x in todo + later + best
  }

  /** The first block of the rest was put in a list. */
  lemma VisitedOne(loose: set<nat>, todo: seq<nat>, later: seq<nat>, best: seq<nat>)
    requires Visiting(loose, todo, later, best) && todo != []
    ensures Visiting(loose - {todo[0]}, todo[1..], later, best)
  {
    assert forall x | x in todo :: x == todo[0] || x in todo[1..];
  }

  /** The first block of the rest became the candidate; the old one was put in a list. */
  lemma VisitedBest(loose: set<nat>, todo: seq<nat>, later: seq<nat>, best: seq<nat>)
    requires Visiting(loose, todo, later, best) && todo != []
    ensures Visiting(if best == [] then loose else loose - {best[0]}, todo[1..], later, [todo[0]])
  {
    var loose', rest := if best == [] then loose else loose - {best[0]}, todo[1..];
    assert forall x | x in todo :: x == todo[0] || x in rest;
    assert todo[0] !in rest && todo[0] in todo;
    forall x
      ensures x in loose' <==> x in rest || x in later || x in [todo[0]]
    {
      if best != [] && x == best[0] { assert x in best; }
    }
  }

  lemma VisitedFront(best: seq<nat>)
    requires |best| == 1
    ensures Loose([], [], best) == {best[0]} && Loose([], [], []) == {} && Visiting({}, [], [], [])
  {
    assert best == [best[0]];
  }

  lemma LinkedTail(bs: seq<BlockSt>, l: seq<nat>)
    requires Linked(bs, l) && l != []
    ensures Linked(bs, l[1..]) && bs[l[0]].link == Next(l[1..], 0)
  {
    var t := l[1..];
    assert Linked(bs, t) by {
      forall i | 0 <= i < |t|
        ensures t[i] < |bs| && bs[t[i]].link == Next(t, i + 1)
      {
        assert t[i] == l[i + 1] && Next(t, i + 1) == Next(l, i + 2);
      }
    }
    assert bs[l[0]].link == Next(l, 0 + 1);
  }

  lemma FirstIsIn(bs: seq<BlockSt>, l: seq<nat>)
    requires Linked(bs, l) && l != []
    ensures l[0] < |bs|
  {}

  /** SLIST_INSERT_HEAD into the list that `place` names, for cache `c`. */
  function Insert(s: Slabs, c: nat, p: nat, place: Place): Slabs
    requires p < |s.blocks| && c < |s.partial| == |s.full|
  {
    match place
    case Nowhere => s
    case OnFree => s.(blocks := s.blocks[p := s.blocks[p].(place := place, link := Next(s.free, 0))], free := [p] + s.free)
    case Partial(_) => s.(blocks := s.blocks[p := s.blocks[p].(place := place, link := Next(s.partial[c], 0))],
                          partial := s.partial[c := [p] + s.partial[c]])
    case Full(_) => s.(blocks := s.blocks[p := s.blocks[p].(place := place, link := Next(s.full[c], 0))],
                       full := s.full[c := [p] + s.full[c]])
  }

  // ----- the end of the loop

  function Finish(s0: Slabs, c: nat, bs: seq<BlockSt>, ls: Lists): Slabs
    requires c < |s0.partial| == |s0.full|
  {
    s0.(blocks := bs, free := ls.free, partial := s0.partial[c := ls.part], full := s0.full[c := ls.full])
  }

  /** Inserting a loose block into the list of its class is one step of the sweep. */
  lemma InsertRelinks(s0: Slabs, c: nat, s: Slabs, ls: Lists, loose: set<nat>, p: nat)
    requires c < |s0.partial| == |s0.full|
    requires Sweeping(s0, c, s.blocks, ls, loose) && p in loose && s == Finish(s0, c, s.blocks, ls)
    ensures p < |s.blocks|
    ensures var place := Class(s.blocks[p], c);
            var t := Insert(s, c, p, place);
            && t == Finish(s0, c, t.blocks, Put(ls, p, place))
            && Sweeping(s0, c, t.blocks, Put(ls, p, place), loose - {p})
  {
    Relink(s0, c, s.blocks, ls, loose, p);
  }

  /** Sweeping cache `c` put each of its blocks where its class says, kept the order and
      the links of every other list, and lost no block. */
  ghost predicate CacheSwept(s: Slabs, t: Slabs, c: nat) {
    && |t.blocks| == |s.blocks| && t.caches == s.caches
    && forall p: nat | p < |s.blocks| ::
         && SameButLink(s.blocks[p], t.blocks[p])
         && (if InCache(s.blocks[p], c) then t.blocks[p].place == Class(s.blocks[p], c) else t.blocks[p] == s.blocks[p])
  }

  lemma SweepEnd(s0: Slabs, c: nat, bs: seq<BlockSt>, ls: Lists)
    requires Inv(s0, {}) && AllPadded(s0) && c < |s0.caches|
    requires Sweeping(s0, c, bs, ls, {})
    ensures Inv(Finish(s0, c, bs, ls), {}) && AllPadded(Finish(s0, c, bs, ls))
    ensures CacheSwept(s0, Finish(s0, c, bs, ls), c)
  {
    var t := Finish(s0, c, bs, ls);
    forall d: nat | d < |t.caches|
      ensures ListOk(t.blocks, t.partial[d], Partial(d)) && ListOk(t.blocks, t.full[d], Full(d))
    {
      if d != c {
        OtherListsStay(s0, c, bs, ls, s0.partial[d], Partial(d));
        OtherListsStay(s0, c, bs, ls, s0.full[d], Full(d));
      }
    }
    forall p: nat | p < |t.blocks|
      ensures BlockOk(t, p, {})
    {
      assert BlockOk(s0, p, {});
      assert BlockSwept(s0.blocks[p], bs[p], c, p, ls, {});
      SubsetEmpty(s0.blocks[p]);
    }
    forall p: nat | p < |t.blocks| && Held(t.blocks[p].place)
      ensures t.blocks[p].padded
    {
      assert BlockSwept(s0.blocks[p], bs[p], c, p, ls, {});
    }
    forall p: nat | p < |s0.blocks|
      ensures SameButLink(s0.blocks[p], t.blocks[p])
      ensures if InCache(s0.blocks[p], c) then t.blocks[p].place == Class(s0.blocks[p], c) else t.blocks[p] == s0.blocks[p]
    {
      assert BlockSwept(s0.blocks[p], bs[p], c, p, ls, {});
    }
  }

  lemma OtherListsStay(s0: Slabs, c: nat, bs: seq<BlockSt>, ls: Lists, l: seq<nat>, place: Place)
    requires Sweeping(s0, c, bs, ls, {}) && ListOk(s0.blocks, l, place)
    requires place != Partial(c) && place != Full(c)
    ensures ListOk(bs, l, place)
  {
    forall i | 0 <= i < |l|
      ensures bs[l[i]] == s0.blocks[l[i]]
    {
      assert BlockSwept(s0.blocks[l[i]], bs[l[i]], c, l[i], ls, {});
    }
  }

  /** A tracked block all of whose entries are free has no marks. */
  lemma SubsetEmpty(b: BlockSt)
    ensures Tracks(b) && b.numFree == b.entries ==> b.marks == {}
  {}

  // ----- the body of the loop

  /** Where the sweep of cache `c` stands: `ls` are the lists built so far, `todo` and
      `later` what is left of the two old lists, `best` the candidate for the front. */
  ghost predicate SweepState(s0: Slabs, s: Slabs, c: nat, ls: Lists, todo: seq<nat>, later: seq<nat>, best: seq<nat>) {
    && c < |s0.partial| == |s0.full| && c < |s0.caches|
    && s == Finish(s0, c, s.blocks, ls)
    && Sweeping(s0, c, s.blocks, ls, Loose(todo, later, best))
    && Visiting(Loose(todo, later, best), todo, later, best)
    && Linked(s.blocks, todo) && Linked(s.blocks, later)
    && (best != [] ==> best[0] < |s.blocks| && Class(s.blocks[best[0]], c) == Partial(c))
  }

  lemma SweepStateStart(s0: Slabs, c: nat)
    requires Inv(s0, {}) && c < |s0.caches|
    ensures SweepState(s0, Finish(s0, c, Unlist(s0, c), Lists([], [], s0.free)), c, Lists([], [], s0.free), s0.partial[c], s0.full[c], [])
    ensures Freed(s0, Finish(s0, c, Unlist(s0, c), Lists([], [], s0.free)), c) == {}
  {
    SweepStart(s0, c);
    var todo, later := s0.partial[c], s0.full[c];
    assert Loose(todo, later, []) == CachePages(s0, c);
    assert ListOk(s0.blocks, todo, Partial(c)) && ListOk(s0.blocks, later, Full(c));
  }

  /** A block that is put in the list of its class leaves the rest as it was. */
  lemma StepInsert(s0: Slabs, s: Slabs, c: nat, ls: Lists, todo: seq<nat>, later: seq<nat>, best: seq<nat>)
    requires SweepState(s0, s, c, ls, todo, later, best) && todo != []
    ensures todo[0] < |s.blocks| && c < |s.partial| == |s.full|
    ensures var place := Class(s.blocks[todo[0]], c);
            SweepState(s0, Insert(s, c, todo[0], place), c, Put(ls, todo[0], place), todo[1..], later, best)
  {
    var loose, p := Loose(todo, later, best), todo[0];
    InsertRelinks(s0, c, s, ls, loose, p);
    hide Sweeping;
    VisitedOne(loose, todo, later, best);
    assert Loose(todo[1..], later, best) == loose - {p};
    LinkedTail(s.blocks, todo);
    var t := Insert(s, c, p, Class(s.blocks[p], c));
    LinkedElsewhere(s.blocks, todo[1..], p, t.blocks[p]);
    LinkedElsewhere(s.blocks, later, p, t.blocks[p]);
  }

  /** The first block with some but not all entries free becomes the candidate. */
  lemma StepCandidate(s0: Slabs, s: Slabs, c: nat, ls: Lists, todo: seq<nat>, later: seq<nat>)
    requires SweepState(s0, s, c, ls, todo, later, []) && todo != []
    requires todo[0] < |s.blocks| && Class(s.blocks[todo[0]], c) == Partial(c)
    ensures SweepState(s0, s, c, ls, todo[1..], later, [todo[0]])
  {
    var loose := Loose(todo, later, []);
    VisitedBest(loose, todo, later, []);
    assert Loose(todo[1..], later, [todo[0]]) == loose;
    LinkedTail(s.blocks, todo);
  }

  /** A block with fewer free entries than `free_best` displaces the candidate, which is
      put in the list instead. */
  lemma StepDisplace(s0: Slabs, s: Slabs, c: nat, ls: Lists, todo: seq<nat>, later: seq<nat>, best: seq<nat>)
    requires SweepState(s0, s, c, ls, todo, later, best) && todo != [] && best != []
    requires todo[0] < |s.blocks| && Class(s.blocks[todo[0]], c) == Partial(c)
    ensures best[0] < |s.blocks| && c < |s.partial| == |s.full|
    ensures SweepState(s0, Insert(s, c, best[0], Partial(c)), c, Put(ls, best[0], Partial(c)), todo[1..], later, [todo[0]])
  {
    var loose, p := Loose(todo, later, best), best[0];
    assert p in best && todo[0] in todo;
    InsertRelinks(s0, c, s, ls, loose, p);
    VisitedBest(loose, todo, later, best);
    assert Loose(todo[1..], later, [todo[0]]) == loose - {p};
    LinkedTail(s.blocks, todo);
    var t := Insert(s, c, p, Partial(c));
    LinkedElsewhere(s.blocks, todo[1..], p, t.blocks[p]);
    LinkedElsewhere(s.blocks, later, p, t.blocks[p]);
  }

  /** What one turn of the loop leaves: the candidate, its `free_best`, and the block that
      was put in a list, if any, with the list. */
  datatype Step = Step(s: Slabs, best: seq<nat>, freeBest: int, place: Place, put: seq<nat>)

  /** The body of the loop for block `p`, with candidate `best` and its `free_best`. A full
      block goes to the cache's second list, an empty one back to the arena, and any other
      one competes for the front of the first list. `free_best` is read from the displaced
      candidate. */
  function Body(s: Slabs, c: nat, p: nat, best: seq<nat>, freeBest: int): Step
    requires p < |s.blocks| && c < |s.partial| == |s.full|
    requires best != [] ==> best[0] < |s.blocks|
  {
    var b := s.blocks[p];
    if Class(b, c) != Partial(c) then
      Step(Insert(s, c, p, Class(b, c)), best, freeBest, Class(b, c), [p])
    else if best == [] then
      Step(s, [p], b.numFree, Nowhere, [])
    else if b.numFree < freeBest then
      Step(Insert(s, c, best[0], Partial(c)), [p], s.blocks[best[0]].numFree, Partial(c), [best[0]])
    else
      Step(Insert(s, c, p, Partial(c)), best, freeBest, Partial(c), [p])
  }

  function PutAll(ls: Lists, st: Step): Lists {
    if st.put == [] then ls else Put(ls, st.put[0], st.place)
  }

  lemma BodyKeeps(s0: Slabs, s: Slabs, c: nat, ls: Lists, todo: seq<nat>, later: seq<nat>, best: seq<nat>, freeBest: int)
    requires SweepState(s0, s, c, ls, todo, later, best) && todo != []
    ensures todo[0] < |s.blocks| && c < |s.partial| == |s.full|
    ensures best != [] ==> best[0] < |s.blocks|
    ensures var st := Body(s, c, todo[0], best, freeBest);
            SweepState(s0, st.s, c, PutAll(ls, st), todo[1..], later, st.best)
  {
    StepInsert(s0, s, c, ls, todo, later, best);
    var b := s.blocks[todo[0]];
    if Class(b, c) == Partial(c) {
      if best == [] {
        StepCandidate(s0, s, c, ls, todo, later);
      } else if b.numFree < freeBest {
        StepDisplace(s0, s, c, ls, todo, later, best);
      }
    }
  }

  /** The blocks of cache `c` returned to the arena so far. */
  ghost function Freed(s0: Slabs, s: Slabs, c: nat): set<nat> {
    set p: nat | p < |s0.blocks| && p < |s.blocks| && InCache(s0.blocks[p], c) && s.blocks[p].place == OnFree
  }

  lemma InsertFrees(s0: Slabs, s: Slabs, c: nat, p: nat, place: Place)
    requires p < |s.blocks| == |s0.blocks| && c < |s.partial| == |s.full|
    requires InCache(s0.blocks[p], c) && s.blocks[p].place == Nowhere
    ensures |Freed(s0, Insert(s, c, p, place), c)| == |Freed(s0, s, c)| + if place == OnFree then 1 else 0
  {
    var t := Insert(s, c, p, place);
    if place == OnFree {
      assert Freed(s0, t, c) == Freed(s0, s, c) + {p};
    } else {
      assert Freed(s0, t, c) == Freed(s0, s, c);
    }
  }

  lemma LooseBlock(s0: Slabs, s: Slabs, c: nat, ls: Lists, todo: seq<nat>, later: seq<nat>, best: seq<nat>, p: nat)
    requires SweepState(s0, s, c, ls, todo, later, best) && (p in todo || p in best)
    ensures p < |s.blocks| == |s0.blocks| && InCache(s0.blocks[p], c) && s.blocks[p].place == Nowhere
    ensures c < |s.partial| == |s.full|
  {
    assert BlockSwept(s0.blocks[p], s.blocks[p], c, p, ls, Loose(todo, later, best));
  }

  lemma BodyFrees(s0: Slabs, s: Slabs, c: nat, ls: Lists, todo: seq<nat>, later: seq<nat>, best: seq<nat>, freeBest: int)
    requires SweepState(s0, s, c, ls, todo, later, best) && todo != []
    requires todo[0] < |s.blocks| && c < |s.partial| == |s.full| && (best != [] ==> best[0] < |s.blocks|)
    ensures var st := Body(s, c, todo[0], best, freeBest);
            |Freed(s0, st.s, c)| == |Freed(s0, s, c)| + if st.place == OnFree then 1 else 0
  {
    var st := Body(s, c, todo[0], best, freeBest);
    if st.put != [] {
      hide SweepState;
      var p := st.put[0];
      LooseBlock(s0, s, c, ls, todo, later, best, p);
      InsertFrees(s0, s, c, p, st.place);
    }
  }

  /** The block at the front of the rest is one of the cache's. */
  lemma FrontOfRest(s0: Slabs, s: Slabs, c: nat, ls: Lists, todo: seq<nat>, later: seq<nat>, best: seq<nat>)
    requires Inv(s0, {}) && SweepState(s0, s, c, ls, todo, later, best) && todo != []
    ensures todo[0] < |s.blocks| && s.blocks[todo[0]].entries == s0.caches[c].entries
    ensures s.blocks[todo[0]].link == Next(todo[1..], 0)
    ensures best != [] ==> best[0] < |s.blocks|
  {
    var p := todo[0];
    assert p in todo;
    assert BlockSwept(s0.blocks[p], s.blocks[p], c, p, ls, Loose(todo, later, best));
    assert BlockOk(s0, p, {});
    LinkedTail(s.blocks, todo);
  }

  lemma HeadsInside(s0: Slabs, s: Slabs, c: nat, ls: Lists, todo: seq<nat>, later: seq<nat>, best: seq<nat>)
    requires SweepState(s0, s, c, ls, todo, later, best)
    ensures todo != [] ==> todo[0] < |s.blocks|
    ensures later != [] ==> later[0] < |s.blocks|
    ensures best != [] ==> best[0] < |s.blocks|
    ensures |best| <= 1
  {}

  lemma CacheGeometry(s0: Slabs, s: Slabs, c: nat, ls: Lists, todo: seq<nat>, later: seq<nat>, best: seq<nat>)
    requires SweepState(s0, s, c, ls, todo, later, best)
    ensures c < |s.caches| && s.caches == s0.caches && c < |s.partial| == |s.full|
  {}

  lemma StepLater(s0: Slabs, s: Slabs, c: nat, ls: Lists, later: seq<nat>, best: seq<nat>)
    requires SweepState(s0, s, c, ls, [], later, best)
    ensures SweepState(s0, s, c, ls, later, [], best)
  {
    assert Loose([], later, best) == Loose(later, [], best);
  }

  /** The candidate goes to the front, and nothing is loose any more. */
  lemma StepFront(s0: Slabs, s: Slabs, c: nat, ls: Lists, best: seq<nat>)
    requires SweepState(s0, s, c, ls, [], [], best) && best != []
    ensures best[0] < |s.blocks| && c < |s.partial| == |s.full|
    ensures SweepState(s0, Insert(s, c, best[0], Partial(c)), c, Put(ls, best[0], Partial(c)), [], [], [])
  {
    var loose, p := Loose([], [], best), best[0];
    assert p in best;
    InsertRelinks(s0, c, s, ls, loose, p);
    VisitedFront(best);
    assert loose - {p} == Loose([], [], []);
  }

  lemma SweepStateEnd(s0: Slabs, s: Slabs, c: nat, ls: Lists)
    requires Inv(s0, {}) && AllPadded(s0)
    requires SweepState(s0, s, c, ls, [], [], [])
    ensures Inv(s, {}) && AllPadded(s) && CacheSwept(s0, s, c)
  {
    assert Loose([], [], []) == {};
    SweepEnd(s0, c, s.blocks, ls);
  }

  // ----- the sweep of all caches

  /** Caches from `n` on have been swept: the source begins with the newest. */
  ghost predicate SweptFrom(s: Slabs, t: Slabs, n: nat) {
    && |t.blocks| == |s.blocks| && t.caches == s.caches
    && forall p: nat | p < |s.blocks| ::
         && SameButLink(s.blocks[p], t.blocks[p])
         && (if Held(s.blocks[p].place) && s.blocks[p].place.c >= n
             then t.blocks[p].place == Class(s.blocks[p], s.blocks[p].place.c)
             else t.blocks[p] == s.blocks[p])
  }

  lemma SweptNone(s: Slabs)
    requires Inv(s, {})
    ensures SweptFrom(s, s, |s.caches|) && FreedAll(s, s) == {}
  {
    forall p: nat | p < |s.blocks| && Held(s.blocks[p].place)
      ensures s.blocks[p].place.c < |s.caches|
    {
      assert BlockOk(s, p, {});
    }
  }

  lemma SweptStep(s: Slabs, t: Slabs, u: Slabs, n: nat)
    requires SweptFrom(s, t, n + 1) && CacheSwept(t, u, n)
    ensures SweptFrom(s, u, n)
  {
    forall p: nat | p < |s.blocks|
      ensures SameButLink(s.blocks[p], u.blocks[p])
      ensures if Held(s.blocks[p].place) && s.blocks[p].place.c >= n
              then u.blocks[p].place == Class(s.blocks[p], s.blocks[p].place.c)
              else u.blocks[p] == s.blocks[p]
    {
      assert SameButLink(t.blocks[p], u.blocks[p]);
    }
  }

  /** After the sweep the lists are sorted by kind again, exactly the held blocks with a
      marked entry are still held, and the marks are as before. */
  lemma SweptAll(s: Slabs, t: Slabs)
    requires Inv(s, {}) && Inv(t, {}) && SweptFrom(s, t, 0)
    ensures Sorted(t)
    ensures forall x: Addr :: IsMarked(t, x) <==> IsMarked(s, x)
    ensures forall p: nat | p < |s.blocks| :: p in HeldPages(t) <==> p in HeldPages(s) && s.blocks[p].marks != {}
    ensures NumPtrs(t) == NumPtrs(s)
  {
    forall p: nat | p < |s.blocks|
      ensures p in HeldPages(t) <==> p in HeldPages(s) && s.blocks[p].marks != {}
      ensures t.blocks[p].place.Partial? ==> t.blocks[p].numFree > 0
      ensures t.blocks[p].place.Full? ==> t.blocks[p].numFree == 0
      ensures t.blocks[p].numPtrs == s.blocks[p].numPtrs && t.blocks[p].marks == s.blocks[p].marks
    {
      assert BlockOk(s, p, {});
      SubsetEmpty(s.blocks[p]);
      assert SameButLink(s.blocks[p], t.blocks[p]);
    }
  }

  /** The blocks the whole sweep returned to the arena. */
  ghost function FreedAll(s: Slabs, t: Slabs): set<nat> { HeldPages(s) - HeldPages(t) }

  lemma FreedStep(s: Slabs, t: Slabs, u: Slabs, n: nat)
    requires SweptFrom(s, t, n + 1) && CacheSwept(t, u, n)
    ensures FreedAll(s, u) == FreedAll(s, t) + Freed(t, u, n)
    ensures FreedAll(s, t) !! Freed(t, u, n)
  {
    SweptStep(s, t, u, n);
    forall p: nat | p < |s.blocks|
      ensures p in FreedAll(s, u) <==> p in FreedAll(s, t) || p in Freed(t, u, n)
      ensures !(p in FreedAll(s, t) && p in Freed(t, u, n))
    {
      assert SameButLink(s.blocks[p], t.blocks[p]) && SameButLink(t.blocks[p], u.blocks[p]);
    }
  }
}
