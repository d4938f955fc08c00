/** Atoms: numbers for strings, equal exactly when the strings are (the lookup half of
    src/StringTable/StringTable_cbits.c). */
module StringTable {
  import opened Common
  import opened StringArena
  import opened CuckooModel
  import opened CuckooInsertion
  import opened CuckooTable

  /** hashlittle, with the seed as second argument. Nothing depends on what it computes. */
  type HashFn = (Bytes, nat) -> nat

  /** The entry an atom of a readable string has in the table. */
  function EntryFor(hash: HashFn, a: nat, s: Bytes): Entry { Entry(hash(s, 0), hash(s, 1), a, |s|) }

  ghost predicate Describes(hash: HashFn, text: map<nat, Bytes>, e: Entry) {
    && e.atom in text && e.len == |text[e.atom]|
    && (text[e.atom] != [] ==> e == EntryFor(hash, e.atom, text[e.atom]))
  }

  /** The table lists the issued atoms, one entry each. */
  ghost predicate Listed(hash: HashFn, text: map<nat, Bytes>, entries: multiset<Entry>) {
    && (forall e | e in entries :: Describes(hash, text, e))
    && (forall a | a in text && text[a] != [] :: EntryFor(hash, a, text[a]) in entries)
    && |entries| == |text|
  }

  /** Different atoms stand for different strings. */
  ghost predicate Injective(text: map<nat, Bytes>) {
    && (forall a, b | a in text && b in text && text[a] == text[b] :: a == b || text[a] == [])
    && (forall a | a in text :: a > 0 && |text[a]| < MAX_ENTRY_SIZE)
  }

  ghost predicate Unused(text: map<nat, Bytes>, cs: Bytes) { forall a | a in text :: text[a] != cs }

  /** A new atom and its entry go in together. */
  lemma ListedGrows(hash: HashFn, text: map<nat, Bytes>, entries: multiset<Entry>, a: nat, cs: Bytes)
    requires Listed(hash, text, entries)
    requires a > 0 && a !in text && 0 < |cs| <= MAX_ENTRY_SIZE
    ensures Listed(hash, text[a := Stored(cs)], entries + multiset{Entry(hash(cs, 0), hash(cs, 1), a, |cs| % 256)})
  {
    var text' := text[a := Stored(cs)];
    var e := Entry(hash(cs, 0), hash(cs, 1), a, |cs| % 256);
    assert Stored(cs) == if |cs| == 256 then [] else cs;
    assert Describes(hash, text', e);
    forall x | x in entries
      ensures Describes(hash, text', x)
    {
      assert Describes(hash, text, x);
    }
    forall b | b in text' && text'[b] != []
      ensures EntryFor(hash, b, text'[b]) in entries + multiset{e}
    {
      if b != a { assert text'[b] == text[b]; }
    }
  }

  lemma StaysInjective(text: map<nat, Bytes>, a: nat, cs: Bytes)
    requires Injective(text) && Unused(text, cs) && a > 0 && a !in text && 0 < |cs| <= MAX_ENTRY_SIZE
    ensures Injective(text[a := Stored(cs)])
  {
    assert Stored(cs) == if |cs| == 256 then [] else cs;
  }

  /** If the slots of both hashes hold no entry of the string, it has no atom. */
  lemma Absent(hash: HashFn, text: map<nat, Bytes>, hsize: nat, t: seq<Entry>, cs: Bytes)
    requires TableOk(hsize, t) && Listed(hash, text, Held(t)) && cs != []
    requires forall i: nat, j: nat | i < 2 && j < 2 :: NotAt(hash, text, hsize, t, cs, i, j)
    ensures Unused(text, cs)
  {
    hide HashSize, HashIndex;
    forall a | a in text
      ensures text[a] != cs
    {
      if text[a] == cs {
        var e := EntryFor(hash, a, cs);
        ProbesComplete(hsize, t, e);
        var i: nat, j: nat :| i < 2 && j < 2 && t[SlotOf(hsize, e, i, j)] == e;
        var seen := NotAt(hash, text, hsize, t, cs, i, j);
        assert false;
      }
    }
  }

  ghost predicate NotAt(hash: HashFn, text: map<nat, Bytes>, hsize: nat, t: seq<Entry>, cs: Bytes, i: nat, j: nat)
    requires TableOk(hsize, t) && i < 2
  {
    var b := t[HashIndex(hsize, i, hash(cs, i) + j)];
    b.atom in text ==> text[b.atom] != cs
  }

  // ----- lookups on values

  /** The string store, the strings of the atoms issued so far, and the table. */
  datatype Store = Store(place: Place, text: map<nat, Bytes>, table: Sized)

  ghost predicate Has(text: map<nat, Bytes>, cs: Bytes) { exists a :: a in text && text[a] == cs }

  function NewEntry(hash: HashFn, a: nat, cs: Bytes): Entry { Entry(hash(cs, 0), hash(cs, 1), a, |cs| % 256) }

  /** stringtable_lookup: the empty atom for the empty string, the atom of a string that has
      one, and for any other the next atom. None is the process exit, when the string has no
      atom and there are no more chunks or the table cannot grow. */
  ghost function Answer(hash: HashFn, s: Store, cs: Bytes): Option<(nat, Store)>
    requires Fits(s.table.hsize, s.table.t)
  {
    if cs == [] then Some((0, s))
    else if Has(s.text, cs) then
      var a :| a in s.text && s.text[a] == cs;
      Some((a, s))
    else if Full(s.place) then None
    else
      var a := AtomAt(s.place);
      match Insert(s.table.hsize, s.table.t, NewEntry(hash, a, cs))
      case None => None
      case Some(table) => Some((a, Store(After(s.place, cs), s.text[a := Stored(cs)], table)))
  }

  /** A run of lookups. */
  ghost function AnswerAll(hash: HashFn, s: Store, strings: seq<Bytes>): (r: Option<(seq<nat>, Store)>)
    requires Fits(s.table.hsize, s.table.t)
    ensures r.Some? ==> Fits(r.value.1.table.hsize, r.value.1.table.t) && |r.value.0| == |strings|
  {
    if strings == [] then Some(([], s))
    else
      var n := |strings| - 1;
      match AnswerAll(hash, s, strings[..n])
      case None => None
      case Some((atoms, s')) =>
        match Answer(hash, s', strings[n])
        case None => None
        case Some((a, s'')) => Some((atoms + [a], s''))
  }

  lemma AnswerAllMore(hash: HashFn, s: Store, strings: seq<Bytes>, n: nat)
    requires Fits(s.table.hsize, s.table.t) && n < |strings|
    ensures AnswerAll(hash, s, strings[..n + 1]) ==
      match AnswerAll(hash, s, strings[..n])
      case None => None
      case Some((atoms, s')) =>
        match Answer(hash, s', strings[n])
        case None => None
        case Some((a, s'')) => Some((atoms + [a], s''))
  {
    assert strings[..n + 1][..n] == strings[..n];
  }

  /** A run that gave up does not recover. */
  lemma {:induction false} AnswerAllStops(hash: HashFn, s: Store, strings: seq<Bytes>, n: nat)
    requires Fits(s.table.hsize, s.table.t) && n <= |strings| && AnswerAll(hash, s, strings[..n]).None?
    ensures AnswerAll(hash, s, strings).None?
    decreases |strings| - n
  {
    if n < |strings| {
      AnswerAllMore(hash, s, strings, n);
      AnswerAllStops(hash, s, strings, n + 1);
    } else {
      assert strings[..n] == strings;
    }
  }

  /** Strings that are empty or have atoms need neither room nor growth: a run over them
      succeeds and changes nothing. */
  lemma {:induction false} KnownAnswered(hash: HashFn, s: Store, strings: seq<Bytes>)
    requires Fits(s.table.hsize, s.table.t)
    requires forall i | 0 <= i < |strings| :: strings[i] == [] || Has(s.text, strings[i])
    ensures AnswerAll(hash, s, strings).Some? && AnswerAll(hash, s, strings).value.1 == s
  {
    if strings != [] { KnownAnswered(hash, s, strings[..|strings| - 1]); }
  }

  /** What a lookup answers for a string without an atom. */
  lemma EnterAnswers(hash: HashFn, s: Store, cs: Bytes)
    requires TableOk(s.table.hsize, s.table.t) && cs != [] && Unused(s.text, cs)
    ensures Fits(s.table.hsize, s.table.t)
    ensures Answer(hash, s, cs) ==
      if Full(s.place) then None
      else
        var a := AtomAt(s.place);
        match Insert(s.table.hsize, s.table.t, NewEntry(hash, a, cs))
        case None => None
        case Some(table) => Some((a, Store(After(s.place, cs), s.text[a := Stored(cs)], table)))
  {
    assert !Has(s.text, cs);
  }

  lemma NewIsFresh(hash: HashFn, a: nat, cs: Bytes)
    ensures NewEntry(hash, a, cs).atom == a
  {}

  /** The string store and the table stay in step. */
  lemma EnteredOk(hash: HashFn, s: Store, a: nat, cs: Bytes, table: Sized)
    requires TableOk(s.table.hsize, s.table.t) && Listed(hash, s.text, Held(s.table.t)) && Injective(s.text) && Unused(s.text, cs)
    requires a > 0 && a !in s.text && 0 < |cs| <= MAX_ENTRY_SIZE
    requires Insert(s.table.hsize, s.table.t, NewEntry(hash, a, cs)) == Some(table)
    ensures TableOk(table.hsize, table.t) && Listed(hash, s.text[a := Stored(cs)], Held(table.t))
    ensures Injective(s.text[a := Stored(cs)])
  {
    hide TableOk, Listed, Injective, Stored, Unused, Insert, Held;
    ListedGrows(hash, s.text, Held(s.table.t), a, cs);
    StaysInjective(s.text, a, cs);
    InsertAdds(s.table.hsize, s.table.t, NewEntry(hash, a, cs));
  }

  lemma KnownSucceeds(hash: HashFn, s: Store, strings: seq<Bytes>)
    requires Fits(s.table.hsize, s.table.t)
    ensures (forall i | 0 <= i < |strings| :: strings[i] == [] || Has(s.text, strings[i])) ==> AnswerAll(hash, s, strings).Some?
  {
    if forall i | 0 <= i < |strings| :: strings[i] == [] || Has(s.text, strings[i]) { KnownAnswered(hash, s, strings); }
  }

  lemma RunStart(hash: HashFn, s: Store, strings: seq<Bytes>)
    requires Fits(s.table.hsize, s.table.t)
    ensures strings[..0] == [] && AnswerAll(hash, s, strings[..0]) == Some(([], s))
  {}

  class Atoms {
    const hash: HashFn
    const arena: Arena
    const table: Table

    ghost predicate Valid()
      reads arena, arena.chunks, table, table.htable
    {
      arena.Valid() && table.Valid() && Listed(hash, arena.text, table.Entries()) && Injective(arena.text)
    }

    ghost function Now(): Store
      reads arena, table, table.htable
    {
      Store(arena.Where(), arena.text, Sized(table.hsize, table.htable[..]))
    }

    constructor (hash: HashFn)
      ensures Valid() && this.hash == hash && arena.text == map[]
      ensures fresh(arena) && fresh(arena.chunks) && fresh(table) && fresh(table.htable)
    {
      this.hash := hash;
      arena := new Arena();
      table := new Table();
    }

    /** Whether slot `b`, of hash `i`, holds the string. */
    method Matches(b: Entry, i: nat, h: nat, cs: Bytes) returns (found: bool)
      requires Valid() && (b.atom != 0 ==> b in table.Entries())
      requires i < 2 && h == hash(cs, i) && cs != []
      ensures found <==> b.atom in arena.text && arena.text[b.atom] == cs
    {
      hide Arena.Valid, Table.Valid, Held;
      if b.atom == 0 { return false; }
      assert Describes(hash, arena.text, b);
      hide Listed;
      if h != HashOf(b, i) || |cs| != b.len { return false; }
      var s := arena.Find(b.atom);
      found := s == cs;
    }

    lemma AtSlot(k: nat)
      requires Valid() && k < table.htable.Length
      ensures table.htable[k].atom != 0 ==> table.htable[k] in table.Entries()
    {
      hide Arena.Valid, HashSize, HashIndex, ChunkIndex, ChunkOffset;
      if table.htable[k].atom != 0 { StandingIsHeld(table.htable[..], k); }
    }

    lemma TableShape()
      requires Valid()
      ensures TableOk(table.hsize, table.htable[..])
    {
      hide Arena.Valid, HashSize, HashIndex;
    }

    /** The probes of stringtable_lookup: four slots tell whether a string has an atom. */
    method Probe(cs: Bytes) returns (r: Option<nat>)
      requires Valid() && cs != []
      ensures r.Some? ==> r.value in arena.text && arena.text[r.value] == cs
      ensures r.None? ==> Unused(arena.text, cs)
    {
      hide Arena.Valid, Table.Valid, HashSize, HashIndex, Injective, Listed, Held, Unused;
      TableShape();
      ghost var t := table.htable[..];
      for i := 0 to 2
        invariant forall i': nat, j: nat | i' < i && j < 2 :: NotAt(hash, arena.text, table.hsize, t, cs, i', j)
      {
        var h := hash(cs, i);
        for j := 0 to 2
          invariant forall j': nat | j' < j :: NotAt(hash, arena.text, table.hsize, t, cs, i, j')
        {
          var b := table.htable[HashIndex(table.hsize, i, h + j)];
          AtSlot(HashIndex(table.hsize, i, h + j));
          var found := Matches(b, i, h, cs);
          if found { return Some(b.atom); }
        }
      }
      Absent(hash, arena.text, table.hsize, t, cs);
      r := None;
    }

    /** The rest of stringtable_lookup: a string that has no atom gets one. */
    method Enter(cs: Bytes) returns (r: Option<nat>)
      requires Valid() && 0 < |cs| <= MAX_ENTRY_SIZE && Unused(arena.text, cs)
      modifies arena, arena.chunks, table, table.htable
      ensures var o := Answer(hash, old(Now()), cs);
              if r.Some? then o == Some((r.value, Now())) else o.None?
      ensures r.None? ==>
        || old(|arena.chunks| == 256 && 16384 - arena.nextFree < 1 + 256)
        || Hopeless(old(table.Entries()) + multiset{NewEntry(hash, AtomAt(old(arena.Where())), cs)})
      ensures r.Some? ==> Valid() && r.value > 0 && r.value !in old(arena.text) && arena.text == old(arena.text)[r.value := Stored(cs)]
      ensures r.Some? ==> (forall c | c in arena.chunks :: c in old(arena.chunks) || fresh(c)) && (table.htable == old(table.htable) || fresh(table.htable))
    {
      hide *;
      ghost var s := Now();
      Parts();
      EnterAnswers(hash, s, cs);
      PlaceIs();
      NewIsFresh(hash, AtomAt(s.place), cs);
      r := arena.AddString(cs);
      if r.None? { return; }
      NewIsFresh(hash, r.value, cs);
      var ok := table.HashInsert(NewEntry(hash, r.value, cs));
      if ok {
        EnteredOk(hash, s, r.value, cs, Sized(table.hsize, table.htable[..]));
      } else {
        InsertHopeless(s.table.hsize, s.table.t, NewEntry(hash, r.value, cs));
        r := None;
      }
      Parts();
    }

    lemma PlaceIs()
      requires Valid()
      ensures table.Entries() == Held(table.htable[..])
      ensures Full(arena.Where()) ==> |arena.chunks| == 256 && 16384 - arena.nextFree < 1 + 256
    {
      hide Listed, Injective, TableOk;
      LeftIff(arena.Where(), []);
    }

    /** What the parts of the state are, and what they must satisfy. */
    lemma Parts()
      ensures Now() == Store(arena.Where(), arena.text, Sized(table.hsize, table.htable[..]))
      ensures Valid() <==>
        && arena.Valid() && TableOk(table.hsize, table.htable[..])
        && Listed(hash, arena.text, Held(table.htable[..])) && Injective(arena.text)
      ensures Valid() ==> Fits(table.hsize, table.htable[..])
    {
      hide Arena.Valid, Listed, Injective, HashSize;
    }

    /** stringtable_lookup. */
    method Lookup(cs: Bytes) returns (r: Option<nat>)
      requires Valid() && |cs| <= MAX_ENTRY_SIZE
      modifies arena, arena.chunks, table, table.htable
      ensures var o := Answer(hash, old(Now()), cs);
              if r.Some? then o == Some((r.value, Now())) else o.None?
      ensures cs == [] ==> r == Some(0)
      ensures old(Has(arena.text, cs)) ==> r.Some?
      ensures r.None? ==>
        || old(|arena.chunks| == 256 && 16384 - arena.nextFree < 1 + 256)
        || Hopeless(old(table.Entries()) + multiset{NewEntry(hash, AtomAt(old(arena.Where())), cs)})
      ensures r.Some? ==> Valid() && Answers(old(arena.text), arena.text, cs, r.value)
      ensures r.Some? ==> (forall c | c in arena.chunks :: c in old(arena.chunks) || fresh(c)) && (table.htable == old(table.htable) || fresh(table.htable))
    {
      if |cs| == 0 { return Some(0); }
      r := Probe(cs);
      if r.Some? { return; }
      r := Enter(cs);
    }

    method InternNext(ghost text0: map<nat, Bytes>, ghost strings: seq<Bytes>, ghost atoms: seq<nat>, cs: Bytes) returns (r: Option<nat>)
      requires Valid() && |cs| <= MAX_ENTRY_SIZE && forall i | 0 <= i < |strings| :: |strings[i]| <= MAX_ENTRY_SIZE
      requires Agree(arena.text, strings, atoms) && Extends(text0, arena.text)
      modifies arena, arena.chunks, table, table.htable
      ensures var o := Answer(hash, old(Now()), cs);
              if r.Some? then o == Some((r.value, Now())) else o.None?
      ensures r.Some? ==> Valid() && Agree(arena.text, strings + [cs], atoms + [r.value]) && Extends(text0, arena.text)
      ensures r.Some? ==> (forall c | c in arena.chunks :: c in old(arena.chunks) || fresh(c)) && (table.htable == old(table.htable) || fresh(table.htable))
    {
      hide Answer, Answers, Agree, Extends, Stored, Arena.Valid, Table.Valid, Listed, Injective, Table.Entries, Has;
      r := Lookup(cs);
      if r.Some? {
        AgreeGrows(old(arena.text), arena.text, strings, atoms, cs, r.value);
        ExtendsFurther(text0, old(arena.text), arena.text, cs, r.value);
      }
    }

    /** Any run of lookups, from any state. Two of the atoms are equal exactly when their
        strings are, an atom is 0 exactly when its string is empty, and after the whole run
        each atom still stands for its string; strings of 256 bytes get a new atom each
        time, and nothing reads them back. The run gives up only where the lookup of some
        string does, and never over strings that are empty or have atoms. */
    method Intern(strings: seq<Bytes>) returns (ok: bool, atoms: seq<nat>)
      requires Valid() && forall i | 0 <= i < |strings| :: |strings[i]| <= MAX_ENTRY_SIZE
      modifies arena, arena.chunks, table, table.htable
      ensures var o := AnswerAll(hash, old(Now()), strings);
              if ok then o == Some((atoms, Now())) else o.None?
      ensures ok ==> Valid() && Agree(arena.text, strings, atoms) && Extends(old(arena.text), arena.text)
      ensures !ok ==>
        && |atoms| < |strings|
        && var o := AnswerAll(hash, old(Now()), strings[..|atoms|]);
           o.Some? && o.value.0 == atoms && Answer(hash, o.value.1, strings[|atoms|]).None?
      ensures (forall i | 0 <= i < |strings| :: strings[i] == [] || Has(old(arena.text), strings[i])) ==> ok
    {
      hide *;
      atoms := [];
      ghost var s := Now();
      Parts();
      AgreeStart(arena.text);
      RunStart(hash, s, strings);
      for n := 0 to |strings|
        invariant Valid() && Agree(arena.text, strings[..n], atoms) && Extends(old(arena.text), arena.text)
        invariant |atoms| == n && AnswerAll(hash, s, strings[..n]) == Some((atoms, Now()))
        invariant forall c | c in arena.chunks :: c in old(arena.chunks) || fresh(c)
        invariant table.htable == old(table.htable) || fresh(table.htable)
      {
        assert forall k | 0 <= k < |arena.chunks| :: arena.chunks[k] in old(arena.chunks) || fresh(arena.chunks[k]);
        AnswerAllMore(hash, s, strings, n);
        var r := InternNext(old(arena.text), strings[..n], atoms, strings[n]);
        if r.None? {
          AnswerAllStops(hash, s, strings, n + 1);
          KnownSucceeds(hash, s, strings);
          return false, atoms;
        }
        assert strings[..n + 1] == strings[..n] + [strings[n]];
        atoms := atoms + [r.value];
      }
      assert strings[..|strings|] == strings;
      ok := true;
    }

    /** atom_append: the atom of the concatenation, if that fits the buffer. */
    method Append(x: nat, y: nat) returns (r: Option<nat>)
      requires Valid() && arena.Known(x) && arena.Known(y)
      requires |arena.TextOf(x)| + |arena.TextOf(y)| <= MAX_ENTRY_SIZE
      modifies arena, arena.chunks, table, table.htable
      ensures x == 0 ==> r == Some(y)
      ensures x != 0 && y == 0 ==> r == Some(x)
      ensures x != 0 && y != 0 ==>
        var o := Answer(hash, old(Now()), old(arena.TextOf(x)) + old(arena.TextOf(y)));
        if r.Some? then o == Some((r.value, Now())) else o.None?
      ensures r.Some? ==> Valid() && Extends(old(arena.text), arena.text) && arena.Known(r.value)
      ensures r.Some? ==> arena.TextOf(r.value) == Stored(old(arena.TextOf(x)) + old(arena.TextOf(y)))
    {
      hide Arena.Valid, Table.Valid, Listed, Table.Entries, Answers, Answer, Has;
      if x == 0 {
        assert [] + arena.TextOf(y) == arena.TextOf(y);
        return Some(y);
      }
      if y == 0 {
        assert arena.TextOf(x) + [] == arena.TextOf(x);
        return Some(x);
      }
      var xs := arena.Find(x);
      var ys := arena.Find(y);
      r := Lookup(xs + ys);
      if r.Some? { AnswerStands(old(arena.text), arena.text, xs + ys, r.value); }
    }

    /** lexigraphic_compare. */
    method LexigraphicCompare(x: nat, y: nat) returns (r: int)
      requires Valid() && arena.Known(x) && arena.Known(y)
      ensures r == Lex(arena.TextOf(x), arena.TextOf(y))
      ensures (x == 0 || arena.text[x] != []) && (y == 0 || arena.text[y] != []) ==> (r == 0 <==> x == y)
    {
      hide Arena.Valid, Table.Valid, Listed, Lex;
      var xs := arena.Find(x);
      var ys := arena.Find(y);
      LexZeroIffEqual(xs, ys);
      r := Lex(xs, ys);
    }
  }

  /** What a lookup answers: the empty atom for the empty string, the atom of a string
      that has one, and otherwise a new atom. No other atom changes. */
  ghost predicate Answers(text: map<nat, Bytes>, text': map<nat, Bytes>, cs: Bytes, a: nat) {
    if cs == [] then a == 0 && text' == text
    else if a in text then text[a] == cs && text' == text
    else a > 0 && text' == text[a := Stored(cs)] && Unused(text, cs)
  }

  /** Every atom keeps its bytes. */
  ghost predicate Extends(text: map<nat, Bytes>, text': map<nat, Bytes>) {
    forall a | a in text :: a in text' && text'[a] == text[a]
  }

  /** What holds of a run of lookups so far. */
  ghost predicate Agree(text: map<nat, Bytes>, strings: seq<Bytes>, atoms: seq<nat>) {
    && |atoms| == |strings|
    && (forall i | 0 <= i < |atoms| :: if strings[i] == [] then atoms[i] == 0 else atoms[i] in text && text[atoms[i]] == Stored(strings[i]))
    && (forall i, j | 0 <= i < j < |atoms| :: atoms[i] == atoms[j] <==> strings[i] == strings[j] && |strings[i]| < MAX_ENTRY_SIZE)
  }

  lemma AgreeStart(text: map<nat, Bytes>)
    ensures Agree(text, [], []) && Extends(text, text)
  {}

  lemma AnswerStands(text: map<nat, Bytes>, text': map<nat, Bytes>, cs: Bytes, a: nat)
    requires Injective(text) && Answers(text, text', cs, a) && |cs| <= MAX_ENTRY_SIZE
    ensures Extends(text, text') && (a == 0 || a in text') && (if a == 0 then [] else text'[a]) == Stored(cs)
  {
    assert |cs| < MAX_ENTRY_SIZE ==> Stored(cs) == cs;
  }

  lemma ExtendsFurther(text0: map<nat, Bytes>, text: map<nat, Bytes>, text': map<nat, Bytes>, cs: Bytes, a: nat)
    requires Extends(text0, text) && Answers(text, text', cs, a)
    ensures Extends(text0, text')
  {}

  lemma AgreeGrows(text: map<nat, Bytes>, text': map<nat, Bytes>, strings: seq<Bytes>, atoms: seq<nat>, cs: Bytes, a: nat)
    requires Agree(text, strings, atoms) && Injective(text) && Injective(text') && Answers(text, text', cs, a)
    requires |cs| <= MAX_ENTRY_SIZE && forall i | 0 <= i < |strings| :: |strings[i]| <= MAX_ENTRY_SIZE
    ensures Agree(text', strings + [cs], atoms + [a])
  {
    assert |cs| < MAX_ENTRY_SIZE ==> Stored(cs) == cs;
    forall i | 0 <= i < |atoms|
      ensures atoms[i] == a <==> strings[i] == cs && |cs| < MAX_ENTRY_SIZE
    {
      assert |strings[i]| < MAX_ENTRY_SIZE ==> Stored(strings[i]) == strings[i];
    }
  }

  // ----- the order of lexigraphic_compare

  /** memcmp on strings of one length, with the difference of the first bytes that differ. */
  function Memcmp(a: Bytes, b: Bytes): int
    requires |a| == |b|
  {
    if a == [] then 0
    else if a[0] != b[0] then a[0] as int - b[0] as int
    else Memcmp(a[1..], b[1..])
  }

  function Lex(a: Bytes, b: Bytes): int {
    var m := if |a| < |b| then |a| else |b|;
    var ret := Memcmp(a[..m], b[..m]);
    if ret != 0 then ret else |a| - |b|
  }

  /** The comparison is decided by the first bytes unless they are equal. */
  lemma LexByFirst(a: Bytes, b: Bytes)
    requires a != [] && b != []
    ensures Lex(a, b) == if a[0] != b[0] then a[0] as int - b[0] as int else Lex(a[1..], b[1..])
  {
    var m := if |a| < |b| then |a| else |b|;
    assert a[..m][1..] == a[1..][..m - 1] && b[..m][1..] == b[1..][..m - 1];
  }

  lemma {:induction false} LexZeroIffEqual(a: Bytes, b: Bytes)
    ensures Lex(a, b) == 0 <==> a == b
  {
    if a != [] && b != [] {
      LexByFirst(a, b);
      LexZeroIffEqual(a[1..], b[1..]);
      assert a == [a[0]] + a[1..] && b == [b[0]] + b[1..];
    }
  }

  /** Comparing the other way round gives the opposite. */
  lemma {:induction false} LexOpposite(a: Bytes, b: Bytes)
    ensures Lex(b, a) == -Lex(a, b)
  {
    if a != [] && b != [] {
      LexByFirst(a, b);
      LexByFirst(b, a);
      LexOpposite(a[1..], b[1..]);
    }
  }

  /** `a` comes before `b`: it is a proper prefix, or has the smaller byte at the first place
      where they differ. */
  ghost predicate Before(a: Bytes, b: Bytes) { exists k: nat :: BeforeAt(a, b, k) }

  ghost predicate BeforeAt(a: Bytes, b: Bytes, k: nat) {
    k <= |a| && k < |b| && a[..k] == b[..k] && (k < |a| ==> a[k] < b[k])
  }

  /** The order is the lexicographic one, prefixes first. */
  lemma {:induction false} LexIsLexicographic(a: Bytes, b: Bytes)
    ensures Lex(a, b) < 0 <==> Before(a, b)
  {
    if a == [] || b == [] {
      if b != [] { assert BeforeAt(a, b, 0); }
    } else {
      LexByFirst(a, b);
      LexIsLexicographic(a[1..], b[1..]);
      if a[0] < b[0] {
        assert BeforeAt(a, b, 0);
      } else if a[0] == b[0] && Before(a[1..], b[1..]) {
        var k: nat :| BeforeAt(a[1..], b[1..], k);
        assert a[..k + 1] == [a[0]] + a[1..][..k] && b[..k + 1] == [b[0]] + b[1..][..k];
        assert BeforeAt(a, b, k + 1);
      }
      if k: nat :| BeforeAt(a, b, k) {
        if k > 0 {
          assert a[0] == a[..k][0] == b[..k][0] == b[0];
          assert a[1..][..k - 1] == a[..k][1..] && b[1..][..k - 1] == b[..k][1..];
          assert BeforeAt(a[1..], b[1..], k - 1);
        }
      }
    }
  }

  lemma {:induction false} LexTransitive(a: Bytes, b: Bytes, c: Bytes)
    requires Lex(a, b) <= 0 && Lex(b, c) <= 0
    ensures Lex(a, c) <= 0
    decreases |a|
  {
    if a != [] && b != [] && c != [] {
      LexByFirst(a, b);
      LexByFirst(b, c);
      LexByFirst(a, c);
      if a[0] == b[0] == c[0] { LexTransitive(a[1..], b[1..], c[1..]); }
    }
  }
}
