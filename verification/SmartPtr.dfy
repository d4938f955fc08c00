/** Smart pointers (rts/rts/jhc_rts.h, rts/rts/jhc_rts.c): the four pointer forms,
    their encoding in the two low bits of a word, and `follow`. */
module SmartPtr {

  /** A location: an entry of a slab block, named by the page of its block and its
      number in the block, or a static node (a constant or a CAF), which the
      collector recognises by its address and never marks. */
  datatype Addr = Entry(page: nat, idx: nat) | Static(k: nat)

  /** sptr_t and fptr_t: a pointer to an evaluated node, a pointer to a lazy
      location, an evaluated raw value, and a code pointer. */
  datatype Sptr = Whnf(loc: Addr) | Lazy(loc: Addr) | Value(bits: nat) | Func(code: nat)

  const P_WHNF: nat := 0
  const P_LAZY: nat := 1
  const P_VALUE: nat := 2
  const P_FUNC: nat := 3

  /** GET_PTYPE */
  function Ptype(p: Sptr): nat {
    match p
    case Whnf(_) => P_WHNF
    case Lazy(_) => P_LAZY
    case Value(_) => P_VALUE
    case Func(_) => P_FUNC
  }

  /** IS_LAZY: the low tag bit. It is set on lazy locations and on code pointers. */
  predicate IsLazy(p: Sptr) { p.Lazy? || p.Func? }

  /** IS_PTR: the high tag bit is clear. */
  predicate IsPtr(p: Sptr) { p.Whnf? || p.Lazy? }

  // ----- the word encoding

  /** TO_SPTR(t, x) on a word-aligned payload. */
  function Tag(t: nat, payload: nat): nat { payload * 4 + t }

  /** GET_PTYPE, IS_LAZY, IS_PTR and FROM_SPTR on the encoded word give back the tag,
      its two bits and the payload; the two words are equal only if both are. */
  lemma TagRoundTrip(t: nat, payload: nat, t': nat, payload': nat)
    requires t < 4 && t' < 4
    ensures var w := Tag(t, payload);
            && w % 4 == t
            && w - w % 4 == 4 * payload
            && w / 4 == payload
            && (w % 2 == 1 <==> t == P_LAZY || t == P_FUNC)
            && ((w / 2) % 2 == 0 <==> t == P_WHNF || t == P_LAZY)
    ensures Tag(t, payload) == Tag(t', payload') ==> t == t' && payload == payload'
  {
    var w := Tag(t, payload);
    assert w / 4 == payload;
    assert (w / 2) == 2 * payload + t / 2;
  }

  /** The word of a pointer, where `at` gives the address of a location in words of eight
      bytes: TO_SPTR on the address, RAW_SET on a raw value, TO_FPTR on code. */
  function Encode(p: Sptr, at: Addr -> nat): nat {
    match p
    case Whnf(a) => Tag(Ptype(p), 2 * at(a))
    case Lazy(a) => Tag(Ptype(p), 2 * at(a))
    case Value(bits) => Tag(Ptype(p), bits)
    case Func(code) => Tag(Ptype(p), code)
  }

  /** The macros decide on the bits of the word what the model decides on the pointer, and
      FROM_SPTR gives the address back. */
  lemma EncodedTests(p: Sptr, at: Addr -> nat)
    ensures var w := Encode(p, at);
            && (IsLazy(p) <==> w % 2 == 1)
            && (IsPtr(p) <==> (w / 2) % 2 == 0)
            && w % 4 == Ptype(p)
            && (IsPtr(p) ==> w - w % 4 == 8 * at(p.loc))
  {
    var payload := match p case Whnf(a) => 2 * at(a) case Lazy(a) => 2 * at(a) case Value(bits) => bits case Func(code) => code;
    assert Encode(p, at) == Tag(Ptype(p), payload);
    TagRoundTrip(Ptype(p), payload, 0, 0);
    hide Encode, Tag;
  }

  /** No two pointers have the same word, if no two locations have the same address. */
  lemma EncodedOnce(p: Sptr, q: Sptr, at: Addr -> nat)
    requires forall a, b | at(a) == at(b) :: a == b
    requires Encode(p, at) == Encode(q, at)
    ensures p == q
  {
    EncodedTests(p, at);
    EncodedTests(q, at);
  }
}
