/** Equations whose dependencies are discovered while they run (src/FindFixpoint.hs). */
module FixpointSpec {

  /** What an `Ms` action does next: return its result, or read one variable. */
  datatype Act<B> = Done(b: B) | Get(n: nat)

  /** An `Ms` action, by what it does after reading the values `h` so far. Which variable
      is read next may depend on the values read before. */
  type Eqn<!B> = seq<B> -> Act<B>

  /** What a refill of the worklist does with the pending set: the source lists the
      strongly connected components of the known dependencies in reverse. */
  type Order = (set<nat>, seq<set<nat>>) -> seq<nat>

  /** The first `m` values the action reads from the variables `a`. */
  function Hist<B>(e: Eqn<B>, a: seq<B>, m: nat): seq<B> {
    if m == 0 then []
    else
      var h := Hist(e, a, m - 1);
      match e(h)
      case Done(_) => h
      case Get(n) => if n < |a| then h + [a[n]] else h
  }

  predicate Reading<B>(act: Act<B>, len: nat) { act.Get? && act.n < len }

  /** The action returns after exactly `m` reads, all of existing variables. */
  ghost predicate HaltsAt<B>(e: Eqn<B>, a: seq<B>, m: nat) {
    && e(Hist(e, a, m)).Done?
    && forall j: nat | j < m :: Reading(e(Hist(e, a, j)), |a|)
  }

  ghost predicate Halts<B>(e: Eqn<B>, a: seq<B>) { exists m: nat :: HaltsAt(e, a, m) }

  lemma HaltsOnce<B>(e: Eqn<B>, a: seq<B>, m: nat, k: nat)
    requires HaltsAt(e, a, m) && HaltsAt(e, a, k)
    ensures m == k
  {}

  ghost function Steps<B>(e: Eqn<B>, a: seq<B>): (m: nat)
    requires Halts(e, a)
    ensures HaltsAt(e, a, m)
  {
    var m: nat :| HaltsAt(e, a, m); m
  }

  /** An action that is reading after `j` reads has not taken all its steps. */
  lemma StepsAhead<B>(e: Eqn<B>, a: seq<B>, j: nat)
    requires Halts(e, a) && j <= Steps(e, a) && e(Hist(e, a, j)).Get?
    ensures j < Steps(e, a) && Reading(e(Hist(e, a, j)), |a|)
  {}

  lemma StepsDone<B>(e: Eqn<B>, a: seq<B>, j: nat)
    requires Halts(e, a) && j <= Steps(e, a) && e(Hist(e, a, j)).Done?
    ensures j == Steps(e, a)
  {}

  /** The value of the equation when the variables are `a`. */
  ghost function Eval<B>(e: Eqn<B>, a: seq<B>): B
    requires Halts(e, a)
  {
    e(Hist(e, a, Steps(e, a))).b
  }

  /** The variables the equation reads when the variables are `a`, and those of the first
      `m` reads. */
  ghost function Reads<B>(e: Eqn<B>, a: seq<B>): set<nat>
    requires Halts(e, a)
  {
    FirstReads(e, a, Steps(e, a))
  }

  ghost function FirstReads<B>(e: Eqn<B>, a: seq<B>, m: nat): set<nat> {
    set j: nat | j < m && e(Hist(e, a, j)).Get? :: e(Hist(e, a, j)).n
  }

  lemma OneMoreValue<B>(e: Eqn<B>, a: seq<B>, m: nat)
    requires Reading(e(Hist(e, a, m)), |a|)
    ensures Hist(e, a, m + 1) == Hist(e, a, m) + [a[e(Hist(e, a, m)).n]]
  {}

  lemma WhatWasRead<B>(e: Eqn<B>, a: seq<B>)
    requires Halts(e, a)
    ensures var h := Hist(e, a, Steps(e, a)); e(h).Done? && Eval(e, a) == e(h).b && Reads(e, a) == FirstReads(e, a, Steps(e, a))
  {}

  lemma OneMoreRead<B>(e: Eqn<B>, a: seq<B>, m: nat)
    requires e(Hist(e, a, m)).Get?
    ensures FirstReads(e, a, m + 1) == FirstReads(e, a, m) + {e(Hist(e, a, m)).n}
  {
    forall n
      ensures n in FirstReads(e, a, m + 1) <==> n in FirstReads(e, a, m) || n == e(Hist(e, a, m)).n
    {
      if n in FirstReads(e, a, m + 1) {
        var j: nat :| j < m + 1 && e(Hist(e, a, j)).Get? && e(Hist(e, a, j)).n == n;
        assert j < m || j == m;
      }
    }
  }

  ghost predicate AgreeOn<B>(a: seq<B>, a': seq<B>, s: set<nat>) {
    |a| == |a'| && forall n | n in s && n < |a| :: a[n] == a'[n]
  }

  lemma {:induction false} HistStays<B>(e: Eqn<B>, a: seq<B>, a': seq<B>, m: nat)
    requires Halts(e, a) && AgreeOn(a, a', Reads(e, a)) && m <= Steps(e, a)
    ensures Hist(e, a', m) == Hist(e, a, m)
  {
    if m > 0 {
      HistStays(e, a, a', m - 1);
      assert Reading(e(Hist(e, a, m - 1)), |a|);
      assert e(Hist(e, a, m - 1)).n in Reads(e, a);
    }
  }

  /** Changing variables an equation does not read changes neither its value nor what it
      reads, although what it reads depends on values. */
  lemma UnreadIrrelevant<B>(e: Eqn<B>, a: seq<B>, a': seq<B>)
    requires Halts(e, a) && AgreeOn(a, a', Reads(e, a))
    ensures Halts(e, a') && Eval(e, a') == Eval(e, a) && Reads(e, a') == Reads(e, a)
  {
    var m := Steps(e, a);
    forall j: nat | j <= m
      ensures Hist(e, a', j) == Hist(e, a, j)
    {
      HistStays(e, a, a', j);
    }
    assert HaltsAt(e, a', m);
    HaltsOnce(e, a', m, Steps(e, a'));
  }

  // ----- systems of equations

  ghost predicate AllHalt<B(!new)>(eqs: seq<Eqn<B>>) {
    forall i: nat, a {:trigger Halts(eqs[i], a)} | i < |eqs| && |a| == |eqs| :: Halts(eqs[i], a)
  }

  ghost predicate IsFixpoint<B(!new)>(eqs: seq<Eqn<B>>, a: seq<B>)
    requires AllHalt(eqs)
  {
    |a| == |eqs| && forall i: nat | i < |eqs| :: Eval(eqs[i], a) == a[i]
  }

  // ----- the order on values

  ghost predicate Below<B>(leq: (B, B) -> bool, a: seq<B>, b: seq<B>) {
    |a| == |b| && forall i: nat | i < |a| :: leq(a[i], b[i])
  }

  /** A partial order of finite height with bottom `empty`: `height` bounds how often a
      value can still grow. */
  ghost predicate FiniteOrder<B(!new)>(leq: (B, B) -> bool, height: B -> nat, empty: B) {
    && (forall x :: leq(x, x) && leq(empty, x))
    && (forall x, y | leq(x, y) && leq(y, x) :: x == y)
    && (forall x, y, z | leq(x, y) && leq(y, z) :: leq(x, z))
    && (forall x, y | leq(x, y) && x != y :: height(y) < height(x))
  }

  ghost predicate Monotone<B(!new)>(leq: (B, B) -> bool, eqs: seq<Eqn<B>>)
    requires AllHalt(eqs)
  {
    forall i: nat, a, b | i < |eqs| && |a| == |eqs| && Below(leq, a, b) :: leq(Eval(eqs[i], a), Eval(eqs[i], b))
  }

  /** `x` is closed under the equations: no equation evaluates to more than its variable. */
  ghost predicate PreFixpoint<B(!new)>(leq: (B, B) -> bool, eqs: seq<Eqn<B>>, x: seq<B>)
    requires AllHalt(eqs)
  {
    |x| == |eqs| && forall i: nat | i < |eqs| :: leq(Eval(eqs[i], x), x[i])
  }

  ghost predicate IsLeastFixpoint<B(!new)>(leq: (B, B) -> bool, eqs: seq<Eqn<B>>, a: seq<B>)
    requires AllHalt(eqs)
  {
    IsFixpoint(eqs, a) && forall x | PreFixpoint(leq, eqs, x) :: Below(leq, a, x)
  }

  /** There is at most one least fixpoint, so the order in which the worklist is refilled
      does not affect the result. */
  lemma LeastFixpointUnique<B(!new)>(leq: (B, B) -> bool, height: B -> nat, empty: B, eqs: seq<Eqn<B>>, a: seq<B>, b: seq<B>)
    requires AllHalt(eqs) && FiniteOrder(leq, height, empty)
    requires IsLeastFixpoint(leq, eqs, a) && IsLeastFixpoint(leq, eqs, b)
    ensures a == b
  {
    assert PreFixpoint(leq, eqs, a) && PreFixpoint(leq, eqs, b);
    assert Below(leq, a, b) && Below(leq, b, a);
  }

  // ----- how much the variables can still grow

  ghost function TotalHeight<B>(height: B -> nat, a: seq<B>): nat {
    if a == [] then 0 else height(a[0]) + TotalHeight(height, a[1..])
  }

  lemma {:induction false} GrowthBounded<B>(height: B -> nat, a: seq<B>, i: nat, b: B)
    requires i < |a| && height(b) < height(a[i])
    ensures TotalHeight(height, a[i := b]) < TotalHeight(height, a)
  {
    if i == 0 {
      assert a[i := b][1..] == a[1..];
    } else {
      assert a[i := b][1..] == a[1..][i - 1 := b];
      GrowthBounded(height, a[1..], i - 1, b);
    }
  }

  // ----- the worklist

  /** Equation `i` holds, and each variable it reads has recorded it as a reader. */
  ghost predicate Settled<B(!new)>(eqs: seq<Eqn<B>>, a: seq<B>, ref: seq<set<nat>>, i: nat)
    requires AllHalt(eqs) && |a| == |ref| == |eqs| && i < |eqs|
  {
    && Eval(eqs[i], a) == a[i]
    && Recorded(eqs, a, ref, i)
  }

  ghost predicate Recorded<B(!new)>(eqs: seq<Eqn<B>>, a: seq<B>, ref: seq<set<nat>>, i: nat)
    requires AllHalt(eqs) && |a| == |ref| == |eqs| && i < |eqs|
  {
    forall n | n in Reads(eqs[i], a) :: n < |ref| && i in ref[n]
  }

  /** Any index that is neither listed nor pending is settled. */
  ghost predicate WorkInv<B(!new)>(eqs: seq<Eqn<B>>, a: seq<B>, ref: seq<set<nat>>, todo: seq<nat>, pending: set<nat>)
    requires AllHalt(eqs)
  {
    && |a| == |ref| == |eqs|
    && (forall i | i in todo || i in pending :: i < |eqs|)
    && (forall n: nat, i | n < |ref| && i in ref[n] :: i < |eqs|)
    && (forall i: nat | i < |eqs| && i !in todo && i !in pending :: Settled(eqs, a, ref, i))
  }

  /** The reader sets grew by the reader `i` only. */
  ghost predicate RefGrew(ref: seq<set<nat>>, ref': seq<set<nat>>, i: nat) {
    |ref'| == |ref| && forall n: nat | n < |ref| :: ref[n] <= ref'[n] <= ref[n] + {i}
  }

  /** The reader `i` recorded at the variables `s`. */
  function RecordAt(ref: seq<set<nat>>, s: set<nat>, i: nat): (r: seq<set<nat>>)
    ensures |r| == |ref|
  {
    seq(|ref|, n requires 0 <= n < |ref| => if n in s then ref[n] + {i} else ref[n])
  }

  lemma RecordOneMore(ref: seq<set<nat>>, s: set<nat>, n: nat, i: nat)
    requires n < |ref|
    ensures RecordAt(ref, s, i)[n := RecordAt(ref, s, i)[n] + {i}] == RecordAt(ref, s + {n}, i)
  {}

  lemma NothingRead<B>(e: Eqn<B>, a: seq<B>, ref: seq<set<nat>>, i: nat)
    ensures Hist(e, a, 0) == [] && RecordAt(ref, FirstReads(e, a, 0), i) == ref
  {}

  /** All that running an equation changes. */
  lemma RunRecords<B(!new)>(eqs: seq<Eqn<B>>, a: seq<B>, ref: seq<set<nat>>, i: nat)
    requires AllHalt(eqs) && |a| == |ref| == |eqs| && i < |eqs|
    ensures Recorded(eqs, a, RecordAt(ref, Reads(eqs[i], a), i), i)
    ensures RefGrew(ref, RecordAt(ref, Reads(eqs[i], a), i), i)
  {
    assert Halts(eqs[i], a);
    forall n | n in Reads(eqs[i], a)
      ensures n < |ref|
    {
      var j: nat :| j < Steps(eqs[i], a) && eqs[i](Hist(eqs[i], a, j)).Get? && eqs[i](Hist(eqs[i], a, j)).n == n;
    }
  }

  // ----- the worklist on values

  /** What `arr`, `ref` and the arguments of `li` hold. */
  datatype Work<B> = Work(a: seq<B>, ref: seq<set<nat>>, todo: seq<nat>, pending: set<nat>)

  predicate Ended<B>(w: Work<B>) { w.todo == [] && w.pending == {} }

  /** `li (i:rs) s` */
  ghost function ProcessOne<B(!new)>(eqs: seq<Eqn<B>>, w: Work<B>): Work<B>
    requires AllHalt(eqs) && |w.a| == |w.ref| == |eqs| && w.todo != [] && w.todo[0] < |eqs|
  {
    var i := w.todo[0];
    assert Halts(eqs[i], w.a);
    var b, ref := Eval(eqs[i], w.a), RecordAt(w.ref, Reads(eqs[i], w.a), i);
    if b == w.a[i] then Work(w.a, ref, w.todo[1..], w.pending - {i})
    else Work(w.a[i := b], ref, w.todo[1..], ref[i] + (w.pending - {i}))
  }

  /** The worklist while at most `fuel` equations are run. */
  ghost function RunFor<B(!new)>(eqs: seq<Eqn<B>>, order: Order, fuel: nat, w: Work<B>): Work<B>
    requires AllHalt(eqs) && |w.a| == |w.ref| == |eqs|
    decreases fuel, if w.todo == [] && w.pending != {} then 1 else 0
  {
    if Ended(w) || fuel == 0 then w
    else if w.todo == [] then RunFor(eqs, order, fuel, w.(todo := order(w.pending, w.ref), pending := {}))
    else if w.todo[0] >= |eqs| then w
    else RunFor(eqs, order, fuel - 1, ProcessOne(eqs, w))
  }

  lemma RunForIs<B(!new)>(eqs: seq<Eqn<B>>, order: Order, fuel: nat, w: Work<B>)
    requires AllHalt(eqs) && |w.a| == |w.ref| == |eqs| && (w.todo != [] ==> w.todo[0] < |eqs|)
    ensures Ended(w) || fuel == 0 ==> RunFor(eqs, order, fuel, w) == w
    ensures !Ended(w) && fuel > 0 && w.todo == [] ==>
      RunFor(eqs, order, fuel, w) == RunFor(eqs, order, fuel, w.(todo := order(w.pending, w.ref), pending := {}))
    ensures !Ended(w) && fuel > 0 && w.todo != [] ==> RunFor(eqs, order, fuel, w) == RunFor(eqs, order, fuel - 1, ProcessOne(eqs, w))
  {}

  lemma IndicesKept<B(!new)>(eqs: seq<Eqn<B>>, a: seq<B>, ref: seq<set<nat>>, ref': seq<set<nat>>, i: nat, rest: seq<nat>, pending: set<nat>)
    requires AllHalt(eqs) && WorkInv(eqs, a, ref, [i] + rest, pending) && RefGrew(ref, ref', i)
    ensures i < |eqs| && |ref'| == |eqs|
    ensures forall k | k in rest || k in pending :: k < |eqs|
    ensures forall n: nat, k | n < |ref'| && k in ref'[n] :: k < |eqs|
  {
    assert i in [i] + rest;
    forall k | k in rest
      ensures k < |eqs|
    {
      assert k in [i] + rest;
    }
    forall n: nat, k | n < |ref'| && k in ref'[n]
      ensures k < |eqs|
    {
      assert k in ref[n] || k == i;
    }
  }

  /** Running an equation whose value has not changed takes it off the worklist. */
  lemma UnchangedKeeps<B(!new)>(eqs: seq<Eqn<B>>, a: seq<B>, ref: seq<set<nat>>, ref': seq<set<nat>>, i: nat, rest: seq<nat>, pending: set<nat>)
    requires AllHalt(eqs) && WorkInv(eqs, a, ref, [i] + rest, pending)
    requires i < |eqs| && RefGrew(ref, ref', i) && Recorded(eqs, a, ref', i) && Eval(eqs[i], a) == a[i]
    ensures WorkInv(eqs, a, ref', rest, pending - {i})
  {
    IndicesKept(eqs, a, ref, ref', i, rest, pending);
    forall k: nat | k < |eqs| && k !in rest && k !in pending - {i}
      ensures Settled(eqs, a, ref', k)
    {
      if k != i {
        assert k !in [i] + rest;
        assert Settled(eqs, a, ref, k);
      }
    }
  }

  /** Writing a new value and making its recorded readers pending keeps the invariant:
      every other settled equation did not read the variable. */
  lemma ChangedKeeps<B(!new)>(eqs: seq<Eqn<B>>, a: seq<B>, ref: seq<set<nat>>, ref': seq<set<nat>>, i: nat, rest: seq<nat>, pending: set<nat>)
    requires AllHalt(eqs) && WorkInv(eqs, a, ref, [i] + rest, pending)
    requires i < |eqs| && RefGrew(ref, ref', i) && Recorded(eqs, a, ref', i)
    ensures WorkInv(eqs, a[i := Eval(eqs[i], a)], ref', rest, ref'[i] + (pending - {i}))
  {
    var b := Eval(eqs[i], a);
    IndicesKept(eqs, a, ref, ref', i, rest, pending);
    forall k: nat | k < |eqs| && k !in rest && k !in ref'[i] + (pending - {i})
      ensures Settled(eqs, a[i := b], ref', k)
    {
      if k != i {
        assert k !in [i] + rest;
        assert Settled(eqs, a, ref, k);
      }
      assert Recorded(eqs, a, ref', k);
      assert i !in Reads(eqs[k], a);
      UnreadIrrelevant(eqs[k], a, a[i := b]);
    }
  }

  lemma FrontInRange<B(!new)>(eqs: seq<Eqn<B>>, a: seq<B>, ref: seq<set<nat>>, todo: seq<nat>, pending: set<nat>)
    requires AllHalt(eqs) && WorkInv(eqs, a, ref, todo, pending) && todo != []
    ensures todo == [todo[0]] + todo[1..] && todo[0] < |eqs|
  {
    assert todo[0] in todo;
  }

  /** With nothing left to do, every equation evaluates to its stored value. */
  lemma NothingLeft<B(!new)>(eqs: seq<Eqn<B>>, a: seq<B>, ref: seq<set<nat>>)
    requires AllHalt(eqs) && WorkInv(eqs, a, ref, [], {})
    ensures IsFixpoint(eqs, a)
  {
    forall i: nat | i < |eqs|
      ensures Eval(eqs[i], a) == a[i]
    {
      assert Settled(eqs, a, ref, i);
    }
  }

  // ----- approaching the least fixpoint from below

  /** No variable exceeds its equation, nor any set of values closed under the equations. */
  ghost predicate Approaching<B(!new)>(leq: (B, B) -> bool, eqs: seq<Eqn<B>>, a: seq<B>)
    requires AllHalt(eqs)
  {
    && |a| == |eqs|
    && (forall i: nat | i < |eqs| :: leq(a[i], Eval(eqs[i], a)))
    && (forall x | PreFixpoint(leq, eqs, x) :: Below(leq, a, x))
  }

  lemma ApproachStart<B(!new)>(leq: (B, B) -> bool, height: B -> nat, empty: B, eqs: seq<Eqn<B>>, a: seq<B>)
    requires AllHalt(eqs) && FiniteOrder(leq, height, empty) && |a| == |eqs|
    requires forall i: nat | i < |a| :: a[i] == empty
    ensures Approaching(leq, eqs, a)
  {}

  /** A fixpoint approached from below is the least one. */
  lemma ReachedFromBelow<B(!new)>(leq: (B, B) -> bool, eqs: seq<Eqn<B>>, a: seq<B>)
    requires AllHalt(eqs) && Approaching(leq, eqs, a) && IsFixpoint(eqs, a)
    ensures IsLeastFixpoint(leq, eqs, a)
  {}

  /** A step of the worklist either lowers what the variables can still grow, or leaves
      them as they are. */
  lemma StepMeasured<B(!new)>(leq: (B, B) -> bool, height: B -> nat, empty: B, eqs: seq<Eqn<B>>, a: seq<B>, i: nat)
    requires AllHalt(eqs) && FiniteOrder(leq, height, empty) && Monotone(leq, eqs)
    requires Approaching(leq, eqs, a) && i < |eqs|
    ensures Approaching(leq, eqs, a[i := Eval(eqs[i], a)])
    ensures Eval(eqs[i], a) == a[i] ==> a[i := Eval(eqs[i], a)] == a
    ensures Eval(eqs[i], a) != a[i] ==> TotalHeight(height, a[i := Eval(eqs[i], a)]) < TotalHeight(height, a)
  {
    ApproachStep(leq, height, empty, eqs, a, i);
    if Eval(eqs[i], a) != a[i] { GrowthBounded(height, a, i, Eval(eqs[i], a)); }
  }

  lemma ApproachStep<B(!new)>(leq: (B, B) -> bool, height: B -> nat, empty: B, eqs: seq<Eqn<B>>, a: seq<B>, i: nat)
    requires AllHalt(eqs) && FiniteOrder(leq, height, empty) && Monotone(leq, eqs)
    requires Approaching(leq, eqs, a) && i < |eqs|
    ensures Approaching(leq, eqs, a[i := Eval(eqs[i], a)])
    ensures Eval(eqs[i], a) != a[i] ==> height(Eval(eqs[i], a)) < height(a[i])
  {
    var a' := a[i := Eval(eqs[i], a)];
    assert Below(leq, a, a');
    forall k: nat | k < |eqs|
      ensures leq(a'[k], Eval(eqs[k], a'))
    {
      assert leq(Eval(eqs[k], a), Eval(eqs[k], a'));
    }
    forall x | PreFixpoint(leq, eqs, x)
      ensures Below(leq, a', x)
    {
      assert Below(leq, a, x);
      assert leq(Eval(eqs[i], a), Eval(eqs[i], x));
    }
  }
}
