/** The list of monolithic blocks (s_monoblock, clear_used_bits and the first loop of
    s_cleanup_blocks, rts/rts/gc_jgc.c): one block for each array too large for a slab. */
module Monoliths {
  /** A block, with bit 0 of its bitmap. */
  class Monolith {
    var link: Monolith?
    var used: bool

    constructor ()
      ensures used && link == null
    {
      link, used := null, true;
    }
  }

  function Next(l: seq<Monolith>, i: nat): Monolith? { if i < |l| then l[i] else null }

  /** Following `link` from `head` visits exactly `l`. */
  ghost predicate Chain(head: Monolith?, l: seq<Monolith>)
    reads l
  {
    && head == Next(l, 0)
    && (forall i, j | 0 <= i < j < |l| :: l[i] != l[j])
    && forall i | 0 <= i < |l| :: l[i].link == Next(l, i + 1)
  }

  ghost function Marks(l: seq<Monolith>): (us: seq<bool>)
    reads l
    ensures |us| == |l|
  {
    seq(|l|, i requires 0 <= i < |l| reads l => l[i].used)
  }

  /** s_monoblock: the new block comes first and is marked. */
  method Add(head: Monolith?, ghost l: seq<Monolith>) returns (b: Monolith)
    requires Chain(head, l)
    ensures fresh(b) && b.used && Chain(b, [b] + l)
  {
    b := new Monolith();
    b.link := head;
  }

  /** SLIST_FOREACH of clear_used_bits. */
  method ClearUsed(head: Monolith?, ghost l: seq<Monolith>)
    requires Chain(head, l)
    modifies l
    ensures Chain(head, l) && forall i | 0 <= i < |l| :: !l[i].used
  {
    var pg := head;
    ghost var i := 0;
    while pg != null
      invariant 0 <= i <= |l| && pg == Next(l, i) && Chain(head, l)
      invariant forall j | 0 <= j < i :: !l[j].used
      decreases |l| - i
    {
      pg.used := false;
      pg := pg.link;
      i := i + 1;
    }
  }

  /** The place of the first marked block, or the length of the list. */
  function FirstUsed(us: seq<bool>): (k: nat)
    ensures k <= |us| && (k < |us| ==> us[k]) && forall i | 0 <= i < k :: !us[i]
  {
    if us == [] || us[0] then 0
    else
      var k := FirstUsed(us[1..]);
      assert forall i | 1 <= i < k + 1 :: us[i] == us[1..][i - 1];
      k + 1
  }

  /** The first loop of s_cleanup_blocks. A marked block is put in the new list before its
      link is followed, so the loop ends with it: the blocks before the first marked one are
      freed, that one is all of the new list, and those behind it are in no list. */
  method Sweep(first: Monolith?, ghost l: seq<Monolith>) returns (head: Monolith?, freed: seq<Monolith>)
    requires Chain(first, l)
    modifies l
    ensures var k := FirstUsed(old(Marks(l)));
            freed == l[..k] && Chain(head, if k < |l| then [l[k]] else [])
    ensures Marks(l) == old(Marks(l))
  {
    head, freed := null, [];
    var pg := first;
    ghost var i, us := 0, Marks(l);
    while pg != null
      invariant 0 <= i <= FirstUsed(us) && Marks(l) == us
      invariant if head == null then pg == Next(l, i) && Chain(first, l)
                else pg == null && i < |l| && i == FirstUsed(us) && head == l[i] && head.link == null
      invariant freed == l[..i]
      decreases |l| - i, head == null
    {
      assert us[i] == l[i].used;
      if pg.used {
        pg.link := head;
        head := pg;
        pg := pg.link;
      } else {
        freed := freed + [pg];
        pg := pg.link;
        i := i + 1;
      }
    }
  }

  /** The marked blocks stay listed and the others are freed, if and only if no block stands
      behind the first marked one. */
  lemma SweptRightIff(us: seq<bool>)
    ensures (forall i | 0 <= i < |us| :: if us[i] then i == FirstUsed(us) else i < FirstUsed(us)) <==> FirstUsed(us) + 1 >= |us|
  {
    var k := FirstUsed(us);
    if k + 1 < |us| { var behind := us[k + 1]; }
  }
}
