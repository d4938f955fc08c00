/** The streaming MD5 of src/cbits/md5sum.c: appending in any pieces gives the digest of
    the whole. */
module Md5Stream {
  import opened Octets
  import opened Md5Spec
  import opened Md5Process
  import opened Powers

  const W32 := 0x1_0000_0000
  const W64 := 0x1_0000_0000_0000_0000

  class State {
    /** count[0] and count[1]: the length in bits, low word first. */
    var count0: nat
    var count1: nat
    var abcd: Regs
    const buf: array<byte>
    /** Everything appended so far. */
    ghost var msg: Bytes

    /** The state is that of the message appended so far, however it came in pieces. */
    ghost predicate Valid()
      reads this, buf
    {
      && buf.Length == 64
      && Counted(count0, count1, |msg|)
      && Digested(abcd, msg)
      && buf[..|msg| % 64] == Rest(msg)
    }

    constructor ()
      ensures Valid() && msg == [] && fresh(buf)
    {
      count0 := 0;
      count1 := 0;
      abcd := INIT;
      buf := new byte[64];
      msg := [];
    }

    /** The length in bits, carried over two words. */
    method CountUp(nbytes: nat)
      requires Counted(count0, count1, |msg|) && nbytes < 0x8000_0000
      modifies this`count0, this`count1
      ensures Counted(count0, count1, |msg| + nbytes)
    {
      var nbits := (nbytes * 8) % W32;
      CountCarries(count0, count1, |msg|, nbytes);
      count1 := (count1 + nbytes / 0x2000_0000) % W32;
      count0 := (count0 + nbits) % W32;
      if count0 < nbits { count1 := (count1 + 1) % W32; }
    }

    /** md5_append. */
    method Append(data: Bytes)
      requires Valid() && |data| < 0x8000_0000
      modifies this, buf
      ensures Valid() && msg == old(msg) + data
    {
      hide Counted, Digested, Rest, Blocks, Compress;
      OffsetCounted(count0, count1, |msg|);
      var offset := (count0 / 8) % 64;
      if |data| == 0 {
        assert msg + data == msg;
        return;
      }
      CountUp(|data|);
      var k := 0;
      if offset > 0 {
        k := FillPartial(data, offset);
        if k == |data| && offset + k < 64 { return; }
      } else {
        WholeDigested(abcd, msg);
        assert msg + data[..0] == msg;
      }
      FullBlocks(data, k);
    }

    /** The initial partial block: `copy` bytes go behind what the buffer holds, and if
        that fills it the block is processed. */
    method FillPartial(data: Bytes, offset: nat) returns (copy: nat)
      requires buf.Length == 64 && 0 < offset == |msg| % 64 && 0 < |data|
      requires Digested(abcd, msg) && buf[..offset] == Rest(msg)
      modifies this`abcd, this`msg, buf
      ensures copy == (if offset + |data| > 64 then 64 - offset else |data|)
      ensures offset + copy < 64 ==> msg == old(msg) + data && Digested(abcd, msg) && buf[..|msg| % 64] == Rest(msg)
      ensures offset + copy == 64 ==> msg == old(msg) && abcd == Blocks(msg + data[..copy], INIT) && |msg + data[..copy]| % 64 == 0
    {
      hide Digested, Rest, Blocks, Compress;
      copy := if offset + |data| > 64 then 64 - offset else |data|;
      CopyIn(offset, data[..copy]);
      if offset + copy < 64 {
        StillPartial(abcd, msg, data);
        msg := msg + data;
        return;
      }
      assert buf[..] == buf[..offset + copy];
      BlockFilled(abcd, msg, data[..copy]);
      abcd := Process(abcd, buf[..]);
    }

    /** The full blocks, and the partial one that is left. */
    method FullBlocks(data: Bytes, from: nat)
      requires buf.Length == 64 && from <= |data|
      requires abcd == Blocks(msg + data[..from], INIT) && |msg + data[..from]| % 64 == 0
      requires Counted(count0, count1, |msg| + |data|)
      modifies this`abcd, this`msg, buf
      ensures Valid() && msg == old(msg) + data
    {
      hide Counted, Digested, Rest, Blocks, Compress;
      var p := data[from..];
      ghost var sofar := msg + data[..from];
      assert msg + data == sofar + p;
      while |p| >= 64
        invariant sofar + p == msg + data && |sofar| % 64 == 0 && abcd == Blocks(sofar, INIT)
        invariant msg == old(msg) && Counted(count0, count1, |msg| + |data|)
      {
        OneMoreBlock(sofar, p, abcd);
        abcd := Process(abcd, p[..64]);
        assert sofar + p == (sofar + p[..64]) + p[64..];
        sofar := sofar + p[..64];
        p := p[64..];
      }
      if |p| > 0 { CopyIn(0, p); }
      PartialLeft(abcd, sofar, p);
      msg := msg + data;
      assert buf[..|p|] == p;
    }

    /** memcpy into the buffer. */
    method CopyIn(offset: nat, bs: Bytes)
      requires offset + |bs| <= buf.Length
      modifies buf
      ensures buf[..offset] == old(buf[..offset]) && buf[offset..offset + |bs|] == bs
      ensures buf[..offset + |bs|] == old(buf[..offset]) + bs
    {
      forall i | 0 <= i < |bs| { buf[offset + i] := bs[i]; }
      assert buf[..offset + |bs|] == buf[..offset] + buf[offset..offset + |bs|];
    }

    /** md5_finish: pad to 56 bytes modulo 64 and append the length before padding. */
    method Finish() returns (digest: Bytes)
      requires Valid()
      modifies this, buf
      ensures digest == Md5(old(msg))
    {
      hide Counted, Digested, Rest, Blocks, Compress, CountBytes, LengthBytes, Padding, Output;
      ghost var m := msg;
      var data := CountBytes(count0, count1);
      CountBytesAreLength(count0, count1, |m|);
      var n := ((55 + W32 - count0 / 8) % W32) % 64 + 1;
      PadIsPadding(count0, count1, |m|);
      Append(PAD[..n]);
      Append(data);
      PaddedWhole(m);
      WholeDigested(abcd, msg);
      digest := Output(abcd);
    }
  }

  /** The static array pad. */
  const PAD: Bytes := [0x80] + Zeros(63)

  /** The bytes of the count, low byte of the low word first. */
  function CountBytes(c0: nat, c1: nat): (b: Bytes)
    ensures |b| == 8
  {
    seq(8, (i: nat) requires i < 8 => if i < 4 then ByteAt(c0, i) else ByteAt(c1, i - 4))
  }

  /** md5_data. */
  method Md5Data(data: Bytes) returns (digest: Bytes)
    requires |data| < 0x8000_0000
    ensures digest == Md5(data)
  {
    hide Md5;
    var state := new State();
    state.Append(data);
    assert [] + data == data;
    digest := state.Finish();
  }

  function Joined(pieces: seq<Bytes>): Bytes { if pieces == [] then [] else pieces[0] + Joined(pieces[1..]) }

  lemma JoinedNone()
    ensures Joined([]) == []
  {}

  lemma {:induction false} JoinedMore(pieces: seq<Bytes>, b: Bytes)
    ensures Joined(pieces + [b]) == Joined(pieces) + b
  {
    if pieces == [] {
      assert [] + [b] == [b] && [b][1..] == [];
      assert Joined([b]) == b + Joined([]);
    } else {
      assert (pieces + [b])[1..] == pieces[1..] + [b];
      JoinedMore(pieces[1..], b);
    }
  }

  /** However a message is split, appending the pieces gives the digest of the whole. */
  method Md5Pieces(pieces: seq<Bytes>) returns (digest: Bytes)
    requires forall i | 0 <= i < |pieces| :: |pieces[i]| < 0x8000_0000
    ensures digest == Md5(Joined(pieces))
  {
    hide Md5, State.Valid, Joined;
    var state := new State();
    assert pieces[..0] == [] && Joined([]) == [] by { JoinedNone(); }
    for i := 0 to |pieces|
      invariant state.Valid() && state.msg == Joined(pieces[..i])
      invariant fresh(state) && fresh(state.buf)
    {
      JoinedMore(pieces[..i], pieces[i]);
      assert pieces[..i + 1] == pieces[..i] + [pieces[i]];
      state.Append(pieces[i]);
    }
    assert pieces[..|pieces|] == pieces;
    digest := state.Finish();
  }

  // ----- what the state is of a message

  /** The bytes behind the last whole block. */
  ghost function Rest(m: Bytes): (r: Bytes)
    ensures |r| == |m| % 64
  {
    m[|m| - |m| % 64..]
  }

  /** The registers after the whole blocks. */
  ghost predicate Digested(st: Regs, m: Bytes) { st == Blocks(m[..|m| - |m| % 64], INIT) }

  /** Two words that hold eight times the length modulo 2^64. */
  ghost predicate Counted(c0: nat, c1: nat, len: nat) {
    c0 < W32 && c1 < W32 && c0 + W32 * c1 == (8 * len) % W64
  }

  lemma CountCarries(c0: nat, c1: nat, len: nat, nbytes: nat)
    requires Counted(c0, c1, len) && nbytes < 0x8000_0000
    ensures var nbits := (nbytes * 8) % W32;
      var d0, d1 := (c0 + nbits) % W32, (c1 + nbytes / 0x2000_0000) % W32;
      Counted(d0, if d0 < nbits then (d1 + 1) % W32 else d1, len + nbytes)
  {
    var nbits, hi := (nbytes * 8) % W32, nbytes / 0x2000_0000;
    assert nbytes * 8 == hi * W32 + nbits;
    var t := c0 + nbits;
    var carry := if t >= W32 then 1 else 0;
    assert t % W32 == t - carry * W32;
    assert (t % W32 < nbits) <==> carry == 1;
    SumModulo(c0, c1, len, nbytes, t % W32, hi, carry);
  }

  lemma SumModulo(c0: nat, c1: nat, len: nat, nbytes: nat, d0: nat, hi: nat, carry: nat)
    requires Counted(c0, c1, len) && carry <= 1 && hi < 4 && d0 < W32
    requires c0 + 8 * nbytes == d0 + carry * W32 + hi * W32
    ensures Counted(d0, ((c1 + hi) % W32 + carry) % W32, len + nbytes)
  {
    var c := c1 + hi + carry;
    TwoCarries(c1, hi, carry);
    assert c0 + W32 * c1 + 8 * nbytes == d0 + W32 * c;
    ModAdd(8 * len, 8 * nbytes);
    ModHigh(d0, c);
  }

  lemma TwoCarries(c1: nat, hi: nat, carry: nat)
    ensures ((c1 + hi) % W32 + carry) % W32 == (c1 + hi + carry) % W32
  {
    var x := (c1 + hi) % W32 + carry;
    DivModUnique(c1 + hi + carry, W32, (c1 + hi) / W32 + x / W32, x % W32);
  }

  lemma ModAdd(a: nat, b: nat)
    ensures (a + b) % W64 == (a % W64 + b) % W64
  {
    var x := a % W64 + b;
    DivModUnique(a + b, W64, a / W64 + x / W64, x % W64);
  }

  lemma ModHigh(d0: nat, c: nat)
    requires d0 < W32
    ensures d0 + W32 * (c % W32) == (d0 + W32 * c) % W64
  {
    DivModUnique(d0 + W32 * c, W64, c / W32, d0 + W32 * (c % W32));
  }

  lemma OffsetCounted(c0: nat, c1: nat, len: nat)
    requires Counted(c0, c1, len)
    ensures (c0 / 8) % 64 == len % 64
  {
    var q := (8 * len) / W64;
    assert 8 * len == W64 * q + c0 + W32 * c1;
    hide Counted;
    EightTimes(c0, W32 * q + c1, len);
  }

  lemma EightTimes(c0: nat, x: nat, len: nat)
    requires 8 * len == c0 + W32 * x
    ensures (c0 / 8) % 64 == len % 64
  {
    var z := len - 0x2000_0000 * x;
    DivModUnique(c0, 8, z, 0);
    DivModUnique(len, 64, z / 64 + 0x80_0000 * x, z % 64);
  }

  lemma StillPartial(st: Regs, m: Bytes, data: Bytes)
    requires Digested(st, m) && |m| % 64 + |data| < 64
    ensures Digested(st, m + data) && Rest(m + data) == Rest(m) + data && |m + data| % 64 == |m| % 64 + |data|
  {
    hide Blocks, Compress;
    assert (m + data)[..|m| - |m| % 64] == m[..|m| - |m| % 64];
  }

  lemma BlockFilled(st: Regs, m: Bytes, bs: Bytes)
    requires Digested(st, m) && |m| % 64 + |bs| == 64
    ensures Compress(st, Rest(m) + bs) == Blocks(m + bs, INIT) && |m + bs| % 64 == 0
  {
    hide Blocks, Compress;
    var front := m[..|m| - |m| % 64];
    assert m == front + Rest(m);
    assert m + bs == front + (Rest(m) + bs);
    OneMoreBlock(front, Rest(m) + bs, st);
    assert (Rest(m) + bs)[..64] == Rest(m) + bs;
  }

  lemma OneMoreBlock(sofar: Bytes, p: Bytes, st: Regs)
    requires |sofar| % 64 == 0 && st == Blocks(sofar, INIT) && |p| >= 64
    ensures Compress(st, p[..64]) == Blocks(sofar + p[..64], INIT)
  {
    hide Compress;
    BlocksAppend(sofar, p[..64], INIT);
    assert p[..64][..64] == p[..64] && p[..64][64..] == [];
  }

  lemma PartialLeft(st: Regs, sofar: Bytes, p: Bytes)
    requires |sofar| % 64 == 0 && st == Blocks(sofar, INIT) && |p| < 64
    ensures Digested(st, sofar + p) && Rest(sofar + p) == p && |sofar + p| % 64 == |p|
  {
    hide Blocks, Compress;
    assert (sofar + p)[..|sofar|] == sofar;
  }

  lemma WholeDigested(st: Regs, m: Bytes)
    requires |m| % 64 == 0 && Digested(st, m)
    ensures st == Blocks(m, INIT)
  {
    hide Blocks, Compress;
    assert m[..|m|] == m;
  }

  /** The padding md5_finish appends is the padding of RFC 1321. */
  lemma PadIsPadding(c0: nat, c1: nat, len: nat)
    requires Counted(c0, c1, len)
    ensures c0 / 8 <= W32
    ensures var n := ((55 + W32 - c0 / 8) % W32) % 64 + 1; PAD[..n] == Padding(len)
  {
    OffsetCounted(c0, c1, len);
    var n := ((55 + W32 - c0 / 8) % W32) % 64 + 1;
    PadLength(c0 / 8, len % 64);
    assert n == |Padding(len)|;
  }

  lemma PadLength(c: nat, l: nat)
    requires c % 64 == l && c < W32
    ensures ((55 + W32 - c) % W32) % 64 == (55 + 64 - l) % 64
  {
    var q := c / 64;
    assert c == 64 * q + l;
    if c <= 55 {
      assert (55 + W32 - c) % W32 == 55 - c;
    } else {
      assert (55 + W32 - c) % W32 == 55 + W32 - c;
      assert 55 + W32 - c == 64 * (0x400_0000 - q - 1) + (55 + 64 - l);
    }
  }

  /** The bytes of both words are those of the length in bits, modulo 2^64. */
  lemma CountBytesAreLength(c0: nat, c1: nat, len: nat)
    requires Counted(c0, c1, len)
    ensures CountBytes(c0, c1) == LengthBytes(len)
  {
    var v := (8 * len) % 0x1_0000_0000_0000_0000;
    forall i: nat | i < 8
      ensures ByteAt(v, i) == if i < 4 then ByteAt(c0, i) else ByteAt(c1, i - 4)
    {
      Powers256();
      BytesOfSum(c0, c1, i);
    }
  }

  lemma Powers256()
    ensures Pow256(0) == 1 && Pow256(1) == 0x100 && Pow256(2) == 0x1_0000 && Pow256(3) == 0x100_0000
    ensures Pow256(4) == 0x1_0000_0000 && Pow256(5) == 0x100_0000_0000 && Pow256(6) == 0x1_0000_0000_0000 && Pow256(7) == 0x100_0000_0000_0000
  {
    assert Pow256(0) == 1;
    assert Pow256(1) == 256 * Pow256(0);
    assert Pow256(2) == 256 * Pow256(1);
    assert Pow256(3) == 256 * Pow256(2);
    assert Pow256(4) == 256 * Pow256(3);
    assert Pow256(5) == 256 * Pow256(4);
    assert Pow256(6) == 256 * Pow256(5);
    assert Pow256(7) == 256 * Pow256(6);
  }

  lemma BytesOfSum(c0: nat, c1: nat, i: nat)
    requires c0 < W32 && c1 < W32 && i < 8
    ensures ((c0 + W32 * c1) / Pow256(i)) % 256 == (if i < 4 then (c0 / Pow256(i)) % 256 else (c1 / Pow256(i - 4)) % 256)
  {
    Powers256();
    hide Pow256;
    if i < 4 { LowBytes(c0, c1, i); } else { HighBytes(c0, c1, i); }
  }

  lemma LowBytes(c0: nat, c1: nat, i: nat)
    requires i < 4
    ensures ((c0 + W32 * c1) / Pow256(i)) % 256 == (c0 / Pow256(i)) % 256
  {
    Powers256();
    hide Pow256;
    if i == 0 { Low0(c0, c1); } else if i == 1 { Low1(c0, c1); } else if i == 2 { Low2(c0, c1); } else { Low3(c0, c1); }
  }

  lemma Low0(c0: nat, c1: nat)
    ensures (c0 + W32 * c1) % 256 == c0 % 256
  {
    DropHigh(c0, 0x100_0000 * c1);
  }

  lemma DropHigh(x: int, k: int)
    ensures (x + 256 * k) % 256 == x % 256
  {
    DivModUnique(x + 256 * k, 256, x / 256 + k, x % 256);
  }

  lemma Low1(c0: nat, c1: nat)
    ensures ((c0 + W32 * c1) / 0x100) % 256 == (c0 / 0x100) % 256
  {
    DivModUnique(c0 + W32 * c1, 0x100, c0 / 0x100 + 0x100_0000 * c1, c0 % 0x100);
    DropHigh(c0 / 0x100, 0x1_0000 * c1);
  }

  lemma Low2(c0: nat, c1: nat)
    ensures ((c0 + W32 * c1) / 0x1_0000) % 256 == (c0 / 0x1_0000) % 256
  {
    DivModUnique(c0 + W32 * c1, 0x1_0000, c0 / 0x1_0000 + 0x1_0000 * c1, c0 % 0x1_0000);
    DropHigh(c0 / 0x1_0000, 0x100 * c1);
  }

  lemma Low3(c0: nat, c1: nat)
    ensures ((c0 + W32 * c1) / 0x100_0000) % 256 == (c0 / 0x100_0000) % 256
  {
    DivModUnique(c0 + W32 * c1, 0x100_0000, c0 / 0x100_0000 + 0x100 * c1, c0 % 0x100_0000);
    DropHigh(c0 / 0x100_0000, c1);
  }

  lemma HighBytes(c0: nat, c1: nat, i: nat)
    requires c0 < W32 && 4 <= i < 8
    ensures (c0 + W32 * c1) / Pow256(i) == c1 / Pow256(i - 4)
  {
    Powers256();
    hide Pow256;
    var v := c0 + W32 * c1;
    if i == 4 {
      DivModUnique(v, W32, c1, c0);
    } else if i == 5 {
      DivModUnique(v, 0x100_0000_0000, c1 / 0x100, W32 * (c1 % 0x100) + c0);
    } else if i == 6 {
      DivModUnique(v, 0x1_0000_0000_0000, c1 / 0x1_0000, W32 * (c1 % 0x1_0000) + c0);
    } else {
      DivModUnique(v, 0x100_0000_0000_0000, c1 / 0x100_0000, W32 * (c1 % 0x100_0000) + c0);
    }
  }
}
