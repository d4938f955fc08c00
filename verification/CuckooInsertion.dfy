/** hash_insert and grow_table of src/StringTable/StringTable_cbits.c on values. */
module CuckooInsertion {
  import opened Common
  import opened CuckooModel

  const DEPTH_LIMIT := 512
  /** Beyond this `1 << hsize` leaves the range of int, so growth stops here. */
  const MAX_SIZE := 30

  /** A table, and the entry in hand that has no place in it; NO_ENTRY once it has. */
  datatype Hand = Hand(t: seq<Entry>, out: Entry)

  /** A table and its size. */
  datatype Sized = Sized(hsize: nat, t: seq<Entry>)

  predicate Fits(hsize: nat, t: seq<Entry>) { |t| == 2 * HashSize(hsize) }

  /** The entry in hand takes its slot of bucket `j` of hash `i`, and evicts what stands there. */
  function Turn(hsize: nat, h: Hand, i: nat, j: nat): (r: Hand)
    requires Fits(hsize, h.t) && i < 2
    ensures |r.t| == |h.t|
  {
    if h.out.atom == 0 then h
    else
      var k := SlotOf(hsize, h.out, i, j);
      Hand(h.t[k := h.out], h.t[k])
  }

  /** The first `n` of the four turns of a round. */
  function Turns(hsize: nat, h: Hand, n: nat): (r: Hand)
    requires Fits(hsize, h.t) && n <= 4
    ensures |r.t| == |h.t|
  {
    if n == 0 then h else Turn(hsize, Turns(hsize, h, n - 1), (n - 1) / 2, (n - 1) % 2)
  }

  /** A round tries both buckets of the first hash, then both of the second, each time of the
      entry that is then in hand. */
  lemma RoundOrder(hsize: nat, h: Hand)
    requires Fits(hsize, h.t)
    ensures Turns(hsize, h, 4) == Turn(hsize, Turn(hsize, Turn(hsize, Turn(hsize, h, 0, 0), 0, 1), 1, 0), 1, 1)
  {
    hide Turn;
    assert Turns(hsize, h, 2) == Turn(hsize, Turns(hsize, h, 1), 0, 1);
  }

  /** Once the entry has a place the other turns do nothing. */
  lemma {:induction false} PlacedStays(hsize: nat, h: Hand, n: nat)
    requires Fits(hsize, h.t) && n <= 4 && Turns(hsize, h, n).out.atom == 0
    ensures Turns(hsize, h, 4) == Turns(hsize, h, n)
    decreases 4 - n
  {
    if n < 4 { PlacedStays(hsize, h, n + 1); }
  }

  /** Rounds until the entry in hand has a place, is the one that started, or the limit
      is reached. */
  function Rounds(hsize: nat, h: Hand, start: nat, loop: nat): (r: Hand)
    requires Fits(hsize, h.t)
    ensures |r.t| == |h.t|
    decreases DEPTH_LIMIT - loop
  {
    if loop >= DEPTH_LIMIT then h
    else
      var r := Turns(hsize, h, 4);
      if r.out.atom == 0 || r.out.atom == start then r else Rounds(hsize, r, start, loop + 1)
  }

  /** The first `n` rounds, whatever is in hand. */
  function FirstRounds(hsize: nat, h: Hand, n: nat): (r: Hand)
    requires Fits(hsize, h.t)
    ensures |r.t| == |h.t|
  {
    if n == 0 then h else Turns(hsize, FirstRounds(hsize, h, n - 1), 4)
  }

  /** The rounds stop as soon as the entry in hand has a place or is the one that started,
      and after 512 of them in any case. */
  lemma RoundsStop(hsize: nat, h: Hand, start: nat) returns (n: nat)
    requires Fits(hsize, h.t)
    ensures 1 <= n <= 512 && Rounds(hsize, h, start, 0) == FirstRounds(hsize, h, n)
    ensures n == 512 || Rounds(hsize, h, start, 0).out.atom == 0 || Rounds(hsize, h, start, 0).out.atom == start
    ensures forall k: nat | 1 <= k < n :: FirstRounds(hsize, h, k).out.atom != 0 && FirstRounds(hsize, h, k).out.atom != start
  {
    n := RoundsStopFrom(hsize, h, start, 0);
  }

  lemma {:induction false} RoundsStopFrom(hsize: nat, h: Hand, start: nat, k: nat) returns (n: nat)
    requires Fits(hsize, h.t) && k < 512
    ensures k < n <= 512 && Rounds(hsize, FirstRounds(hsize, h, k), start, k) == FirstRounds(hsize, h, n)
    ensures n == 512 || FirstRounds(hsize, h, n).out.atom == 0 || FirstRounds(hsize, h, n).out.atom == start
    ensures forall i: nat | k < i < n :: FirstRounds(hsize, h, i).out.atom != 0 && FirstRounds(hsize, h, i).out.atom != start
    decreases 512 - k
  {
    hide Turns;
    var r := FirstRounds(hsize, h, k + 1);
    if r.out.atom == 0 || r.out.atom == start || k == 511 {
      n := k + 1;
    } else {
      n := RoundsStopFrom(hsize, h, start, k + 1);
    }
  }

  function Room(hsize: nat): nat { if hsize < MAX_SIZE then MAX_SIZE - hsize else 0 }

  /** hash_insert: what the rounds leave in hand goes into a table grown for it; None if
      the table cannot grow. */
  function Insert(hsize: nat, t: seq<Entry>, x: Entry): (r: Option<Sized>)
    requires Fits(hsize, t)
    ensures r.Some? ==> r.value.hsize >= hsize && Fits(r.value.hsize, r.value.t)
    ensures r.Some? ==> r.value.hsize <= 30 || r.value.hsize == hsize
    decreases Room(hsize), 1, 0
  {
    var h := Rounds(hsize, Hand(t, x), x.atom, 0);
    if h.out.atom == 0 then Some(Sized(hsize, h.t))
    else
      match Grow(hsize, h.t)
      case None => None
      case Some(g) => Insert(g.hsize, g.t, h.out)
  }

  /** grow_table: the entries of the old table are inserted into an empty one of twice the
      size, which may itself grow meanwhile. */
  function Grow(hsize: nat, t: seq<Entry>): (r: Option<Sized>)
    requires Fits(hsize, t)
    ensures r.Some? ==> r.value.hsize > hsize && Fits(r.value.hsize, r.value.t)
    ensures r.Some? ==> r.value.hsize <= 30
    decreases Room(hsize), 0, 0
  {
    if hsize >= MAX_SIZE then None else Refill(Sized(hsize + 1, Empty(hsize + 1)), t)
  }

  function Empty(hsize: nat): (t: seq<Entry>)
    ensures Fits(hsize, t)
  {
    seq(2 * HashSize(hsize), _ => NO_ENTRY)
  }

  /** The entries of `rest`, first to last. */
  function Refill(s: Sized, rest: seq<Entry>): (r: Option<Sized>)
    requires Fits(s.hsize, s.t)
    ensures r.Some? ==> r.value.hsize >= s.hsize && Fits(r.value.hsize, r.value.t)
    ensures r.Some? ==> r.value.hsize <= 30 || r.value.hsize == s.hsize
    decreases Room(s.hsize), 2, |rest|
  {
    if rest == [] then Some(s)
    else if rest[0].atom == 0 then Refill(s, rest[1..])
    else
      match Insert(s.hsize, s.t, rest[0])
      case None => None
      case Some(s') => Refill(s', rest[1..])
  }

  // ----- nothing is lost and every entry has a place of its own

  /** What stands in the table together with what is in hand. */
  ghost function InAll(h: Hand): multiset<Entry> {
    Held(h.t) + if h.out.atom == 0 then multiset{} else multiset{h.out}
  }

  lemma TurnKeeps(hsize: nat, h: Hand, i: nat, j: nat)
    requires TableOk(hsize, h.t) && i < 2 && j < 2
    ensures TableOk(hsize, Turn(hsize, h, i, j).t) && InAll(Turn(hsize, h, i, j)) == InAll(h)
  {
    if h.out.atom != 0 {
      var k := SlotOf(hsize, h.out, i, j);
      PutExchanges(h.t, k, h.out);
      PutKeepsPlaces(hsize, h.t, k, h.out);
      assert SlotOk(hsize, h.t[k], k);
      if h.t[k].atom != 0 { StandingIsHeld(h.t, k); }
    }
  }

  lemma {:induction false} TurnsKeep(hsize: nat, h: Hand, n: nat)
    requires TableOk(hsize, h.t) && n <= 4
    ensures TableOk(hsize, Turns(hsize, h, n).t) && InAll(Turns(hsize, h, n)) == InAll(h)
  {
    if n > 0 {
      TurnsKeep(hsize, h, n - 1);
      TurnKeeps(hsize, Turns(hsize, h, n - 1), (n - 1) / 2, (n - 1) % 2);
    }
  }

  lemma {:induction false} RoundsKeep(hsize: nat, h: Hand, start: nat, loop: nat)
    requires TableOk(hsize, h.t)
    ensures TableOk(hsize, Rounds(hsize, h, start, loop).t) && InAll(Rounds(hsize, h, start, loop)) == InAll(h)
    decreases DEPTH_LIMIT - loop
  {
    hide TableOk, InAll, Turns;
    if loop < DEPTH_LIMIT {
      TurnsKeep(hsize, h, 4);
      RoundsKeep(hsize, Turns(hsize, h, 4), start, loop + 1);
    }
  }

  lemma EmptyHolds(hsize: nat)
    ensures TableOk(hsize, Empty(hsize)) && Held(Empty(hsize)) == multiset{}
  {
    EmptyTable(hsize, Empty(hsize));
  }

  /** Adding to what a table holds: the entries of `t'` are those of `t` and `more`. */
  ghost predicate Added(t: seq<Entry>, more: multiset<Entry>, s: Sized) {
    TableOk(s.hsize, s.t) && Held(s.t) == Held(t) + more
  }

  /** Insertion adds exactly `x` and loses nothing, whatever is evicted and however often the
      table grows on the way. */
  lemma {:induction false} InsertAdds(hsize: nat, t: seq<Entry>, x: Entry)
    requires TableOk(hsize, t) && x.atom != 0 && Insert(hsize, t, x).Some?
    ensures Added(t, multiset{x}, Insert(hsize, t, x).value)
    decreases Room(hsize), 1, 0
  {
    var h := Rounds(hsize, Hand(t, x), x.atom, 0);
    RoundsKeep(hsize, Hand(t, x), x.atom, 0);
    hide TableOk, Rounds;
    if h.out.atom != 0 {
      GrowKeeps(hsize, h.t);
      var g := Grow(hsize, h.t).value;
      InsertAdds(g.hsize, g.t, h.out);
    }
  }

  lemma {:induction false} GrowKeeps(hsize: nat, t: seq<Entry>)
    requires TableOk(hsize, t) && Grow(hsize, t).Some?
    ensures Added(t, multiset{}, Grow(hsize, t).value)
    decreases Room(hsize), 0, 0
  {
    EmptyHolds(hsize + 1);
    assert t[0..] == t;
    hide TableOk, Empty, Held;
    RefillAdds(Sized(hsize + 1, Empty(hsize + 1)), hsize, t, 0);
  }

  lemma AddedTwice(t: seq<Entry>, m: multiset<Entry>, s: Sized, m': multiset<Entry>, s': Sized)
    requires Added(t, m, s) && Added(s.t, m', s')
    ensures Added(t, m + m', s')
  {
    hide TableOk, Held;
  }

  /** The first of the remaining entries is dealt with. */
  lemma RefillStep(s: Sized, t: seq<Entry>, i: nat)
    requires Fits(s.hsize, s.t) && i < |t|
    ensures Refill(s, t[i..]) ==
      if t[i].atom == 0 then Refill(s, t[i + 1..])
      else match Insert(s.hsize, s.t, t[i]) case None => None case Some(s') => Refill(s', t[i + 1..])
  {
    assert t[i..][0] == t[i] && t[i..][1..] == t[i + 1..];
  }

  lemma {:induction false} RefillAdds(s: Sized, hsize: nat, t: seq<Entry>, i: nat)
    requires TableOk(s.hsize, s.t) && TableOk(hsize, t) && i <= |t| && Refill(s, t[i..]).Some?
    ensures Added(s.t, Held(t[i..]), Refill(s, t[i..]).value)
    decreases Room(s.hsize), 2, |t| - i
  {
    if i == |t| {
      NothingHeld(t[i..]);
    } else {
      HeldSplits(hsize, t, i);
      RefillStep(s, t, i);
      hide TableOk, Held, Insert, Refill;
      if t[i].atom == 0 {
        RefillAdds(s, hsize, t, i + 1);
      } else {
        InsertAdds(s.hsize, s.t, t[i]);
        var s' := Insert(s.hsize, s.t, t[i]).value;
        RefillAdds(s', hsize, t, i + 1);
        AddedTwice(s.t, multiset{t[i]}, s', Held(t[i + 1..]), Refill(s', t[i + 1..]).value);
      }
    }
  }

  // ----- giving up

  /** On a table of 0x8000_0000 slots with some of the entries `all`, the rounds for another
      of them leave an entry in hand. */
  ghost predicate Stuck(all: multiset<Entry>, s: Sized, e: Entry) {
    && |s.t| >= 0x8000_0000 && TableOk(s.hsize, s.t) && e.atom != 0
    && Held(s.t) + multiset{e} <= all
    && Rounds(s.hsize, Hand(s.t, e), e.atom, 0).out.atom != 0
  }

  /** Insertion gives up only there. */
  lemma {:induction false} InsertStuck(hsize: nat, t: seq<Entry>, x: Entry) returns (s: Sized, e: Entry)
    requires TableOk(hsize, t) && x.atom != 0 && Insert(hsize, t, x).None?
    ensures Stuck(Held(t) + multiset{x}, s, e)
    decreases Room(hsize), 1, 0
  {
    var h := Rounds(hsize, Hand(t, x), x.atom, 0);
    RoundsKeep(hsize, Hand(t, x), x.atom, 0);
    assert |t| == 2 * HashSize(hsize);
    hide TableOk, Rounds, Held;
    if hsize >= MAX_SIZE {
      LargeTables(hsize);
      s, e := Sized(hsize, t), x;
    } else if Grow(hsize, h.t).None? {
      s, e := GrowStuck(hsize, h.t);
    } else {
      GrowKeeps(hsize, h.t);
      var g := Grow(hsize, h.t).value;
      s, e := InsertStuck(g.hsize, g.t, h.out);
    }
  }

  lemma {:induction false} GrowStuck(hsize: nat, t: seq<Entry>) returns (s: Sized, e: Entry)
    requires TableOk(hsize, t) && hsize < MAX_SIZE && Grow(hsize, t).None?
    ensures Stuck(Held(t), s, e)
    decreases Room(hsize), 0, 0
  {
    EmptyHolds(hsize + 1);
    assert t[0..] == t;
    hide TableOk, Empty, Held, Rounds;
    s, e := RefillStuck(Sized(hsize + 1, Empty(hsize + 1)), hsize, t, 0);
  }

  lemma {:induction false} RefillStuck(s0: Sized, hsize: nat, t: seq<Entry>, i: nat) returns (s: Sized, e: Entry)
    requires TableOk(s0.hsize, s0.t) && TableOk(hsize, t) && i <= |t| && Refill(s0, t[i..]).None?
    ensures Stuck(Held(s0.t) + Held(t[i..]), s, e)
    decreases Room(s0.hsize), 2, |t| - i
  {
    HeldSplits(hsize, t, i);
    RefillStep(s0, t, i);
    hide TableOk, Held, Rounds, Insert, Refill;
    if t[i].atom == 0 {
      s, e := RefillStuck(s0, hsize, t, i + 1);
    } else if Insert(s0.hsize, s0.t, t[i]).None? {
      s, e := InsertStuck(s0.hsize, s0.t, t[i]);
    } else {
      InsertAdds(s0.hsize, s0.t, t[i]);
      s, e := RefillStuck(Insert(s0.hsize, s0.t, t[i]).value, hsize, t, i + 1);
    }
  }

  ghost predicate Hopeless(all: multiset<Entry>) { exists s, e :: Stuck(all, s, e) }

  lemma InsertHopeless(hsize: nat, t: seq<Entry>, x: Entry)
    requires TableOk(hsize, t) && x.atom != 0
    ensures Fits(hsize, t) && (Insert(hsize, t, x).None? ==> Hopeless(Held(t) + multiset{x}))
  {
    hide Insert, Rounds;
    if Insert(hsize, t, x).None? {
      var s, e := InsertStuck(hsize, t, x);
    }
  }
}
