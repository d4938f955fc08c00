/** The two-hash, two-bucket cuckoo table of src/StringTable/StringTable_cbits.c, on values. */
module CuckooModel {
  import opened Powers

  /** struct hentry: both hashes, the atom and the length of its string. */
  datatype Entry = Entry(h0: nat, h1: nat, atom: nat, len: nat)

  /** What calloc leaves in a slot. */
  const NO_ENTRY := Entry(0, 0, 0, 0)

  /** HASHSIZE. */
  function HashSize(hsize: nat): (n: nat)
    ensures n > 0
  {
    if hsize == 0 then 1 else 2 * HashSize(hsize - 1)
  }

  /** `1 << hsize`; at the largest size a table has 0x4000_0000 slots for each hash. */
  lemma {:induction false} HashSizeIs(hsize: nat)
    ensures HashSize(hsize) == Pow(2, hsize)
  {
    if hsize > 0 { HashSizeIs(hsize - 1); }
  }

  lemma {:induction false} HashSizeGrows(hsize: nat, h: nat)
    requires hsize <= h
    ensures HashSize(hsize) <= HashSize(h)
  {
    if hsize < h { HashSizeGrows(hsize, h - 1); }
  }

  lemma LargeTables(hsize: nat)
    requires hsize >= 30
    ensures HashSize(hsize) >= 0x4000_0000
  {
    HashSizeIs(30);
    PowersOfTwo();
    HashSizeGrows(30, hsize);
  }

  /** HASH_INDEX: the sum is taken in 32 bits and masked with HASHSIZE - 1. */
  function HashIndex(hsize: nat, i: nat, x: nat): (k: nat)
    ensures i < 2 ==> k < 2 * HashSize(hsize)
  {
    i * HashSize(hsize) + (x % 0x1_0000_0000) % HashSize(hsize)
  }

  /** Two hash values share a slot exactly if they belong to the same hash and agree modulo
      the size, that is in their lowest `hsize` bits. */
  lemma SlotsMeetIff(hsize: nat, i: nat, x: nat, j: nat, y: nat)
    requires hsize <= 32 && i < 2 && j < 2
    ensures HashIndex(hsize, i, x) == HashIndex(hsize, j, y) <==> i == j && x % HashSize(hsize) == y % HashSize(hsize)
  {
    LowBits(hsize, x);
    LowBits(hsize, y);
    hide HashSize;
    Halves(HashSize(hsize), i, x % HashSize(hsize), j, y % HashSize(hsize));
  }

  lemma Halves(n: nat, i: nat, u: nat, j: nat, v: nat)
    requires i < 2 && j < 2 && u < n && v < n
    ensures i * n + u == j * n + v <==> i == j && u == v
  {
    assert i * n == (if i == 0 then 0 else n) && j * n == (if j == 0 then 0 else n);
  }

  /** The low bits of a number cut to 32 bits are those of the number. */
  lemma LowBits(hsize: nat, x: nat)
    requires hsize <= 32
    ensures (x % 0x1_0000_0000) % HashSize(hsize) == x % HashSize(hsize)
  {
    HashSizeIs(hsize);
    PowAdd(2, 32 - hsize, hsize);
    PowersOfTwo();
    ModTwice(x, Pow(2, 32 - hsize), HashSize(hsize));
  }

  /** FHASH. */
  function HashOf(e: Entry, i: nat): nat { if i == 0 then e.h0 else e.h1 }

  /** The slot of bucket `j` of hash `i`. */
  function SlotOf(hsize: nat, e: Entry, i: nat, j: nat): (k: nat)
    ensures i < 2 ==> k < 2 * HashSize(hsize)
  {
    HashIndex(hsize, i, HashOf(e, i) + j)
  }

  /** The buckets of a hash are neighbours among the slots of that hash, the first one being
      the neighbour of the last. */
  lemma SlotIs(hsize: nat, e: Entry, i: nat, j: nat)
    requires hsize <= 32 && i < 2
    ensures SlotOf(hsize, e, i, j) == i * Pow(2, hsize) + (HashOf(e, i) + j) % Pow(2, hsize)
  {
    LowBits(hsize, HashOf(e, i) + j);
    HashSizeIs(hsize);
    hide HashSize, Pow, HashOf;
  }

  /** The four slots a lookup probes. */
  predicate InCandidate(hsize: nat, e: Entry, k: nat) {
    || k == SlotOf(hsize, e, 0, 0) || k == SlotOf(hsize, e, 0, 1)
    || k == SlotOf(hsize, e, 1, 0) || k == SlotOf(hsize, e, 1, 1)
  }

  predicate SlotOk(hsize: nat, e: Entry, k: nat) {
    if e.atom == 0 then e == NO_ENTRY else InCandidate(hsize, e, k)
  }

  /** Every entry sits in one of its own candidate slots. */
  ghost predicate TableOk(hsize: nat, t: seq<Entry>) {
    |t| == 2 * HashSize(hsize) && forall k: nat | k < |t| :: SlotOk(hsize, t[k], k)
  }

  /** The entries of a table. */
  ghost function Held(t: seq<Entry>): multiset<Entry> { multiset(t)[NO_ENTRY := 0] }

  /** Putting an entry in a free slot adds it; putting it in a taken one trades it for
      the entry there. */
  lemma PutExchanges(t: seq<Entry>, k: nat, x: Entry)
    requires k < |t| && x != NO_ENTRY
    ensures Held(t[k := x]) == Held(t) + multiset{x} - (if t[k] == NO_ENTRY then multiset{} else multiset{t[k]})
  {
    assert multiset(t[k := x]) == multiset(t) - multiset{t[k]} + multiset{x};
  }

  lemma PutKeepsPlaces(hsize: nat, t: seq<Entry>, k: nat, x: Entry)
    requires TableOk(hsize, t) && k < |t| && x.atom != 0 && InCandidate(hsize, x, k)
    ensures TableOk(hsize, t[k := x])
  {}

  lemma HeldSomewhere(t: seq<Entry>, e: Entry)
    requires e in Held(t)
    ensures exists k: nat :: k < |t| && t[k] == e && e != NO_ENTRY
  {
    assert e in multiset(t) && e != NO_ENTRY;
  }

  lemma StandingIsHeld(t: seq<Entry>, k: nat)
    requires k < |t| && t[k] != NO_ENTRY
    ensures t[k] in Held(t)
  {
    assert t[k] in multiset(t);
  }

  lemma NothingHeld(t: seq<Entry>)
    requires forall k: nat | k < |t| :: t[k] == NO_ENTRY
    ensures Held(t) == multiset{}
  {
    if e :| e in Held(t) { HeldSomewhere(t, e); }
  }

  lemma EmptyTable(hsize: nat, t: seq<Entry>)
    requires |t| == 2 * HashSize(hsize) && forall k: nat | k < |t| :: t[k] == NO_ENTRY
    ensures TableOk(hsize, t) && Held(t) == multiset{}
  {
    NothingHeld(t);
  }

  lemma HeldSplits(hsize: nat, t: seq<Entry>, i: nat)
    requires TableOk(hsize, t) && i < |t|
    ensures Held(t[i..]) == Held(t[i + 1..]) + (if t[i].atom == 0 then multiset{} else multiset{t[i]})
  {
    assert SlotOk(hsize, t[i], i);
    assert t[i..] == [t[i]] + t[i + 1..];
  }

  /** The four probes are enough: an entry that stands in the table stands in one of the
      slots of its own hashes. */
  lemma ProbesComplete(hsize: nat, t: seq<Entry>, e: Entry)
    requires TableOk(hsize, t) && e in Held(t)
    ensures exists i: nat, j: nat :: i < 2 && j < 2 && t[SlotOf(hsize, e, i, j)] == e
  {
    HeldSomewhere(t, e);
    var k: nat :| k < |t| && t[k] == e;
    assert SlotOk(hsize, t[k], k);
    assert SlotOf(hsize, e, 0, 0) == k || SlotOf(hsize, e, 0, 1) == k || SlotOf(hsize, e, 1, 0) == k || SlotOf(hsize, e, 1, 1) == k;
  }

  /** Five entries with the same two hashes never fit, at any size: growing cannot end
      when five strings share both hashes. */
  lemma FiveNeverFit(hsize: nat, t: seq<Entry>, es: seq<Entry>)
    requires TableOk(hsize, t) && |es| == 5
    requires forall i, j | 0 <= i < j < 5 :: es[i] != es[j] && es[i].h0 == es[j].h0 && es[i].h1 == es[j].h1
    ensures exists i: nat :: i < 5 && es[i] !in Held(t)
  {
    hide HashSize, HashIndex, TableOk, Held;
    if forall i: nat | i < 5 :: es[i] in Held(t) {
      var at := seq(5, (i: nat) requires i < 5 => Standing(hsize, t, es[i]));
      var slots := [SlotOf(hsize, es[0], 0, 0), SlotOf(hsize, es[0], 0, 1), SlotOf(hsize, es[0], 1, 0), SlotOf(hsize, es[0], 1, 1)];
      forall i: nat | i < 5
        ensures at[i] in slots && t[at[i]] == es[i]
      {
        assert InCandidate(hsize, es[i], at[i]);
      }
      TwoOfFiveMeet(at, slots);
      assert false;
    }
  }

  lemma TwoOfFiveMeet(at: seq<nat>, slots: seq<nat>)
    requires |at| == 5 && |slots| == 4 && forall i: nat | i < 5 :: at[i] in slots
    ensures exists i: nat, j: nat :: i < j < 5 && at[i] == at[j]
  {
    assert at[0] in slots && at[1] in slots && at[2] in slots && at[3] in slots && at[4] in slots;
    assert at[0] == at[1] || at[0] == at[2] || at[0] == at[3] || at[0] == at[4] || at[1] == at[2]
           || at[1] == at[3] || at[1] == at[4] || at[2] == at[3] || at[2] == at[4] || at[3] == at[4];
  }

  ghost function Standing(hsize: nat, t: seq<Entry>, e: Entry): (k: nat)
    requires TableOk(hsize, t) && e in Held(t)
    ensures k < |t| && t[k] == e && InCandidate(hsize, e, k)
  {
    HeldSomewhere(t, e);
    var k: nat :| k < |t| && t[k] == e;
    assert SlotOk(hsize, t[k], k);
    k
  }
}
