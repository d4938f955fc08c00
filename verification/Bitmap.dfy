/** The used-bit array of a slab block and the three in-place operations the
    collector performs on it (rts/rts/gc_jgc.c, rts/sys/bitarray.h). */
module Bitmap {
  import opened Bits

  /** BITARRAY_SIZE(n) */
  function Units(n: nat): nat { (n + 63) / 64 }

  /** BIT_IS_SET(ba, k) */
  predicate Get(ba: seq<bv64>, k: nat)
    requires k < 64 * |ba|
  {
    Bit(ba[k / 64], k % 64)
  }

  /** The first `n` bits of `ba` are exactly the numbers in `s`. */
  ghost predicate Represents(ba: seq<bv64>, n: nat, s: set<nat>) {
    && n <= 64 * |ba|
    && (forall k: nat | k < n :: Get(ba, k) <==> k in s)
    && (forall k | k in s :: k < n)
  }

  /** The bits that follow the first `n` in the last unit are all set. */
  ghost predicate Padded(ba: seq<bv64>, n: nat) {
    && Units(n) <= |ba|
    && forall k: nat | n <= k < 64 * Units(n) :: Get(ba, k)
  }

  /** BIT_SET(ba, k) */
  method SetBitAt(ba: array<bv64>, k: nat)
    requires k < 64 * ba.Length
    modifies ba
    ensures forall j: nat | j < 64 * ba.Length :: Get(ba[..], j) <==> j == k || old(Get(ba[..], j))
  {
    ba[k / 64] := Or(ba[k / 64], Mask(k % 64));
    forall j: nat | j < 64 * ba.Length
      ensures Get(ba[..], j) <==> j == k || old(Get(ba[..], j))
    {
      if j / 64 == k / 64 {
        SetBit(old(ba[k / 64]), k % 64, j % 64);
      }
    }
  }

  /** The bitmap part of clear_block_used_bits. The last unit is written with
      `~((1UL << excess) - 1)`; when `n` is a multiple of 64 the excess is zero
      and that word is all ones, so the bits of the last 64 entries come out set. */
  method ClearUsedBits(ba: array<bv64>, n: nat)
    requires 0 < n <= 64 * ba.Length
    modifies ba
    ensures forall k: nat | k < 64 * Units(n) :: Get(ba[..], k) <==> 64 * (Units(n) - 1) + n % 64 <= k
  {
    var u := Units(n);
    var i := 0;
    while i < u - 1
      invariant 0 <= i <= u - 1
      invariant forall j | 0 <= j < i :: ba[j] == 0
    {
      ba[i] := 0;
      i := i + 1;
    }
    ba[u - 1] := Not(Below(n % 64));
    forall k: nat | k < 64 * u
      ensures Get(ba[..], k) <==> 64 * (u - 1) + n % 64 <= k
    {
      ZeroBits(k % 64);
      FromBits(n % 64, k % 64);
    }
  }

  /** Clearing leaves every entry bit clear exactly when the number of entries
      is not a multiple of the unit size. */
  lemma ClearedIffPartialUnit(ba: seq<bv64>, n: nat)
    requires 0 < n <= 64 * |ba|
    requires forall k: nat | k < 64 * Units(n) :: Get(ba, k) <==> 64 * (Units(n) - 1) + n % 64 <= k
    ensures Represents(ba, n, {}) <==> n % 64 != 0
    ensures n % 64 != 0 ==> Padded(ba, n)
  {
    if n % 64 == 0 {
      assert Get(ba, n - 1);
    }
  }

  /** How many units a cyclic walk over `n` units passes before it gets from
      unit `from` to unit `i`. */
  function Distance(i: nat, from: nat, n: nat): nat
    requires i < n && from < n
  {
    if from <= i then i - from else i + n - from
  }

  method NextUnit(i: nat, n: nat) returns (next: nat)
    requires i < n
    ensures next == if i + 1 < n then i + 1 else 0
  {
    next := (i + 1) % n;
  }

  method LowestClear(w: bv64) returns (o: nat)
    ensures o <= 64
    ensures o == 0 <==> w == ALL
    ensures o > 0 ==> !Bit(w, o - 1) && forall i: nat | i < o - 1 :: Bit(w, i)
  {
    o := FfsNot(w);
    FfsNotZero(w);
  }

  /** bitset_find_free. The caller must know that some unit has a clear bit: the
      source says the search does not end otherwise. Units are tried in cyclic
      order from `nextFree`, and the lowest clear bit of the first unit that has
      one is taken. */
  method FindFree(nextFree: nat, n: nat, ba: array<bv64>) returns (found: nat, next: nat)
    requires nextFree < n <= ba.Length
    requires exists i: nat | i < n :: ba[i] != ALL
    modifies ba
    ensures found < 64 * n && next == found / 64
    ensures !old(Bit(ba[next], found % 64))
    ensures forall k: nat | k < found % 64 :: old(Bit(ba[next], k))
    ensures forall i: nat | i < n && Distance(i, nextFree, n) < Distance(next, nextFree, n) :: old(ba[i]) == ALL
    ensures forall j: nat | j < 64 * ba.Length :: Get(ba[..], j) <==> j == found || old(Get(ba[..], j))
  {
    var i := nextFree;
    var o := LowestClear(ba[i]);
    while o == 0
      invariant i < n && ba[..] == old(ba[..]) && o <= 64 && (o == 0 <==> ba[i] == ALL)
      invariant o > 0 ==> !Bit(ba[i], o - 1) && forall k: nat | k < o - 1 :: Bit(ba[i], k)
      invariant forall k: nat | k < n && Distance(k, nextFree, n) < Distance(i, nextFree, n) :: ba[k] == ALL
      decreases n - Distance(i, nextFree, n)
    {
      ghost var free: nat :| free < n && ba[free] != ALL;
      assert Distance(i, nextFree, n) < Distance(free, nextFree, n);
      i := NextUnit(i, n);
      o := LowestClear(ba[i]);
    }
    found := i * 64 + (o - 1);
    next := i;
    SetBitAt(ba, found);
  }
}
