/** Insertion with kicking and growth in place (hash_insert and grow_table of
    src/StringTable/StringTable_cbits.c), proved to do what CuckooInsertion.dfy says. */
module CuckooTable {
  import opened Common
  import opened CuckooModel
  import opened CuckooInsertion

  const INIT_SIZE := 2

  class Table {
    var hsize: nat
    var htable: array<Entry>

    ghost predicate Valid()
      reads this, htable
    {
      TableOk(hsize, htable[..])
    }

    ghost function Entries(): multiset<Entry>
      reads this, htable
    {
      Held(htable[..])
    }

    constructor ()
      ensures Valid() && Entries() == multiset{} && fresh(htable)
      ensures hsize == INIT_SIZE && htable[..] == Empty(INIT_SIZE) && htable.Length == 8
    {
      hsize := INIT_SIZE;
      htable := new Entry[8](_ => NO_ENTRY);
      new;
      NothingHeld(htable[..]);
      assert HashSize(2) == 4;
    }

    /** One turn: `x` goes into its slot, and what was there comes out. */
    method Put(x: Entry, i: nat, j: nat) returns (out: Entry)
      requires Fits(hsize, htable[..]) && x.atom != 0 && i < 2
      modifies htable
      ensures Hand(htable[..], out) == Turn(hsize, Hand(old(htable[..]), x), i, j)
    {
      hide HashSize, HashIndex;
      var k := SlotOf(hsize, x, i, j);
      out := htable[k];
      htable[k] := x;
      assert htable[..] == old(htable[..])[k := x];
    }

    /** One round: the loop over both hashes and both buckets. An entry without a place
        takes the slots it may use, and evicts what stands there. */
    method Kick(x: Entry) returns (out: Entry)
      requires Fits(hsize, htable[..]) && x.atom != 0
      modifies htable
      ensures Hand(htable[..], out) == Turns(hsize, Hand(old(htable[..]), x), 4)
    {
      hide HashSize, Turn;
      out := x;
      ghost var h := Hand(htable[..], x);
      for i := 0 to 2
        invariant out.atom != 0 && Hand(htable[..], out) == Turns(hsize, h, 2 * i)
      {
        for j := 0 to 2
          invariant out.atom != 0 && Hand(htable[..], out) == Turns(hsize, h, 2 * i + j)
        {
          out := Put(out, i, j);
          if out.atom == 0 {
            PlacedStays(hsize, h, 2 * i + j + 1);
            return;
          }
        }
      }
    }

    /** The loop of hash_insert: rounds until nothing is left in hand, or they give up. */
    method Kicks(x: Entry) returns (out: Entry)
      requires Fits(hsize, htable[..]) && x.atom != 0
      modifies htable
      ensures Hand(htable[..], out) == Rounds(hsize, Hand(old(htable[..]), x), x.atom, 0)
    {
      hide HashSize, Turns;
      var start := x.atom;
      out := x;
      var loop := 0;
      while loop < DEPTH_LIMIT
        invariant out.atom != 0 && Fits(hsize, htable[..])
        invariant Rounds(hsize, Hand(htable[..], out), start, loop) == Rounds(hsize, Hand(old(htable[..]), x), start, 0)
        decreases DEPTH_LIMIT - loop
      {
        out := Kick(out);
        if out.atom == 0 || out.atom == start { return; }
        loop := loop + 1;
      }
    }

    /** hash_insert: the table becomes the one of the function, or there is none. */
    method HashInsert(x: Entry) returns (ok: bool)
      requires Fits(hsize, htable[..]) && x.atom != 0
      modifies this, htable
      ensures var r := Insert(old(hsize), old(htable[..]), x);
              if ok then r == Some(Sized(hsize, htable[..])) else r.None?
      ensures htable == old(htable) || fresh(htable)
      decreases Room(hsize), 1
    {
      hide HashSize, Rounds;
      var out := Kicks(x);
      if out.atom == 0 { return true; }
      ok := GrowTable();
      if ok { ok := HashInsert(out); }
    }

    /** grow_table */
    method GrowTable() returns (ok: bool)
      requires Fits(hsize, htable[..])
      modifies this
      ensures var r := Grow(old(hsize), old(htable[..]));
              if ok then r == Some(Sized(hsize, htable[..])) && hsize > old(hsize) else r.None?
      ensures htable == old(htable) || fresh(htable)
      decreases Room(hsize), 0
    {
      if hsize >= MAX_SIZE { return false; }
      var ot := htable;
      ghost var t := ot[..];
      hsize := hsize + 1;
      htable := new Entry[2 * HashSize(hsize)](_ => NO_ENTRY);
      assert htable[..] == Empty(hsize);
      assert t[0..] == t;
      hide HashSize, Insert, Empty;
      var i := 0;
      while i < ot.Length
        invariant 0 <= i <= ot.Length && ot[..] == t && fresh(htable)
        invariant Fits(hsize, htable[..]) && hsize > old(hsize)
        invariant Refill(Sized(hsize, htable[..]), t[i..]) == Grow(old(hsize), t)
      {
        assert t[i..][0] == t[i] && t[i..][1..] == t[i + 1..];
        if ot[i].atom != 0 {
          var placed := HashInsert(ot[i]);
          if !placed { return false; }
        }
        i := i + 1;
      }
      ok := true;
    }
  }
}
