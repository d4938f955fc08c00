/** The worklist solver (`getVal` and `solve` of src/FindFixpoint.hs). */
module FixpointSolver {
  import opened FixpointSpec

  /** Of the order in which the worklist is refilled only this matters. */
  ghost predicate ListsOnce(order: Order) {
    forall s, refs :: (forall x :: x in order(s, refs) <==> x in s) && |order(s, refs)| == |s|
  }

  class Solver<B(==,!new)> {
    const eqs: seq<Eqn<B>>
    const arr: array<B>
    const ref: array<set<nat>>

    ghost predicate Valid()
      reads this
    {
      arr.Length == ref.Length == |eqs| && arr as object != ref && AllHalt(eqs)
    }

    constructor (eqs: seq<Eqn<B>>, empty: B)
      requires AllHalt(eqs)
      ensures Valid() && this.eqs == eqs && fresh(arr) && fresh(ref)
      ensures forall i | 0 <= i < arr.Length :: arr[i] == empty && ref[i] == {}
    {
      this.eqs := eqs;
      arr := new B[|eqs|](_ => empty);
      ref := new set<nat>[|eqs|](_ => {});
    }

    /** getVal: the reader is recorded before the value is read. */
    method GetVal(self: nat, n: nat) returns (b: B)
      requires Valid() && n < |eqs|
      modifies ref
      ensures b == arr[n] && ref[..] == old(ref[..])[n := old(ref[n]) + {self}]
    {
      ref[n] := ref[n] + {self};
      b := arr[n];
    }

    /** Running equation `self`: its value, and every variable it read has recorded it. */
    method RunEquation(self: nat) returns (b: B)
      requires Valid() && self < |eqs|
      modifies ref
      ensures b == Eval(eqs[self], arr[..]) && ref[..] == RecordAt(old(ref[..]), Reads(eqs[self], arr[..]), self)
      ensures Recorded(eqs, arr[..], ref[..], self)
      ensures RefGrew(old(ref[..]), ref[..], self)
    {
      assert |arr[..]| == |eqs| && Halts(eqs[self], arr[..]);
      NothingRead(eqs[self], arr[..], ref[..], self);
      RunsRecord(self, ref[..]);
      hide AllHalt, Halts, HaltsAt, Hist, FirstReads, RecordAt, Recorded, RefGrew, Reads, Eval;
      ghost var e, a, m := eqs[self], arr[..], Steps(eqs[self], arr[..]);
      var h: seq<B> := [];
      ghost var j := 0;
      var act := eqs[self](h);
      while act.Get?
        invariant arr[..] == a && j <= m && h == Hist(e, a, j) && act == e(h)
        invariant ref[..] == RecordAt(old(ref[..]), FirstReads(e, a, j), self)
        decreases m - j
      {
        StepsAhead(e, a, j);
        OneMoreRead(e, a, j);
        RecordOneMore(old(ref[..]), FirstReads(e, a, j), act.n, self);
        OneMoreValue(e, a, j);
        var v := GetVal(self, act.n);
        h := h + [v];
        j := j + 1;
        act := eqs[self](h);
      }
      StepsDone(e, a, j);
      WhatWasRead(e, a);
      b := act.b;
    }

    lemma RunsRecord(self: nat, ref0: seq<set<nat>>)
      requires Valid() && self < |eqs| == |ref0|
      ensures Halts(eqs[self], arr[..])
      ensures Recorded(eqs, arr[..], RecordAt(ref0, Reads(eqs[self], arr[..]), self), self)
      ensures RefGrew(ref0, RecordAt(ref0, Reads(eqs[self], arr[..]), self), self)
    {
      RunRecords(eqs, arr[..], ref0, self);
      assert Halts(eqs[self], arr[..]);
    }

    /** The whole state. */
    ghost function Now(todo: seq<nat>, pending: set<nat>): Work<B>
      reads this, arr, ref
    {
      Work(arr[..], ref[..], todo, pending)
    }

    ghost predicate Working(todo: seq<nat>, pending: set<nat>)
      reads this, arr, ref
    {
      Valid() && WorkInv(eqs, arr[..], ref[..], todo, pending)
    }

    /** What the worklist comes to when at most `fuel` more equations are run. */
    ghost function Left(order: Order, fuel: nat, todo: seq<nat>, pending: set<nat>): Work<B>
      requires Working(todo, pending)
      reads this, arr, ref
    {
      RunFor(eqs, order, fuel, Now(todo, pending))
    }

    lemma LeftIs(order: Order, fuel: nat, todo: seq<nat>, pending: set<nat>)
      requires Working(todo, pending)
      ensures AllHalt(eqs) && |arr[..]| == |ref[..]| == |eqs|
      ensures Left(order, fuel, todo, pending) == RunFor(eqs, order, fuel, Now(todo, pending))
      ensures todo != [] ==> todo == [todo[0]] + todo[1..] && todo[0] < |eqs|
      ensures (todo == [] && pending == {}) || fuel == 0 ==>
        var w := Left(order, fuel, todo, pending); w.a == arr[..] && (Ended(w) <==> todo == [] && pending == {})
      ensures pending != {} && fuel > 0 && todo == [] ==>
        Left(order, fuel, todo, pending) == RunFor(eqs, order, fuel, Now(order(pending, ref[..]), {}))
      ensures fuel > 0 && todo != [] ==>
        Left(order, fuel, todo, pending) == RunFor(eqs, order, fuel - 1, ProcessOne(eqs, Now(todo, pending)))
      ensures todo == [] && pending == {} ==> IsFixpoint(eqs, arr[..])
    {
      if todo != [] {
        FrontInRange(eqs, arr[..], ref[..], todo, pending);
      } else if pending == {} {
        NothingLeft(eqs, arr[..], ref[..]);
      }
      RunForIs(eqs, order, fuel, Now(todo, pending));
      hide RunFor, IsFixpoint, AllHalt, ProcessOne;
    }

    lemma StartsWorking(todo: seq<nat>)
      requires Valid() && todo == seq(|eqs|, i => i)
      requires forall i | 0 <= i < ref.Length :: ref[i] == {}
      ensures Working(todo, {})
    {
      forall i: nat | i < |eqs|
        ensures i in todo
      {
        assert todo[i] == i;
      }
    }

    /** One equation taken from the front of the list: the two branches of `li (i:rs) s`. */
    method Process(i: nat, ghost rest: seq<nat>, pending: set<nat>) returns (pending': set<nat>)
      requires Working([i] + rest, pending)
      requires i < |eqs|
      modifies arr, ref
      ensures Working(rest, pending')
      ensures Now(rest, pending') == ProcessOne(eqs, old(Now([i] + rest, pending)))
      ensures arr[..] == old(arr[..])[i := old(Eval(eqs[i], arr[..]))]
      ensures old(Eval(eqs[i], arr[..]) == arr[i]) ==> pending' == pending - {i}
    {
      ghost var a, r := arr[..], ref[..];
      var b := arr[i];
      var b' := RunEquation(i);
      if b == b' {
        pending' := pending - {i};
        assert a[i := b'] == a;
        UnchangedKeeps(eqs, a, r, ref[..], i, rest, pending);
      } else {
        arr[i] := b';
        pending' := ref[i] + (pending - {i});
        ChangedKeeps(eqs, a, r, ref[..], i, rest, pending);
      }
    }

    /** The refill `li [] s` with a non-empty pending set. */
    method Refill(order: Order, pending: set<nat>) returns (todo: seq<nat>)
      requires Working([], pending) && ListsOnce(order)
      ensures Working(todo, {}) && |todo| == |pending| && todo == order(pending, ref[..])
    {
      todo := order(pending, ref[..]);
    }
  }

  /** What `solve` starts with: every equation listed, no readers known. */
  ghost function Begin<B>(empty: B, n: nat): Work<B> {
    Work(seq(n, _ => empty), seq(n, _ => {}), seq(n, i => i), {})
  }

  /** At most `fuel` equations are run. The solver ends within them exactly if the worklist
      does, and however the equations behave, it then returns values for which every
      equation evaluates to its stored value. */
  method SolveFor<B(==,!new)>(fuel: nat, order: Order, empty: B, vs: seq<Eqn<B>>) returns (done: bool, r: seq<B>)
    requires AllHalt(vs) && ListsOnce(order)
    ensures var w := RunFor(vs, order, fuel, Begin(empty, |vs|)); r == w.a && (done <==> Ended(w))
    ensures done ==> IsFixpoint(vs, r)
  {
    var sv := new Solver(vs, empty);
    var todo: seq<nat> := seq(|vs|, i => i);
    var pending: set<nat> := {};
    var left := fuel;
    sv.StartsWorking(todo);
    ghost var w0 := Begin(empty, |vs|);
    assert sv.Now(todo, pending) == w0;
    hide *;
    while (todo != [] || pending != {}) && left > 0
      invariant sv.Working(todo, pending)
      invariant sv.Left(order, left, todo, pending) == RunFor(vs, order, fuel, w0)
      decreases left, |todo| == 0
    {
      sv.LeftIs(order, left, todo, pending);
      if todo == [] {
        todo := sv.Refill(order, pending);
        pending := {};
      } else {
        pending := sv.Process(todo[0], todo[1..], pending);
        todo := todo[1..];
        left := left - 1;
      }
      sv.LeftIs(order, left, todo, pending);
    }
    sv.LeftIs(order, left, todo, pending);
    done := todo == [] && pending == {};
    r := sv.arr[..];
  }

  /** `solve` on monotone equations over an order of finite height with `empty` at the
      bottom: it ends, and its result is the least fixpoint. The measure is how much the
      variables can still grow, then the length of the list plus twice the size of the
      pending set. */
  method Solve<B(==,!new)>(order: Order, empty: B, vs: seq<Eqn<B>>, ghost leq: (B, B) -> bool, ghost height: B -> nat) returns (r: seq<B>)
    requires AllHalt(vs) && ListsOnce(order)
    requires FiniteOrder(leq, height, empty) && Monotone(leq, vs)
    ensures IsLeastFixpoint(leq, vs, r)
  {
    var sv := new Solver(vs, empty);
    var todo: seq<nat> := seq(|vs|, i => i);
    var pending: set<nat> := {};
    sv.StartsWorking(todo);
    ApproachStart(leq, height, empty, vs, sv.arr[..]);
    hide AllHalt, FiniteOrder, Monotone, Approaching, WorkInv, IsFixpoint, IsLeastFixpoint, TotalHeight, Halts;
    while todo != [] || pending != {}
      invariant sv.Working(todo, pending) && Approaching(leq, vs, sv.arr[..])
      decreases TotalHeight(height, sv.arr[..]), |todo| + 2 * |pending|
    {
      if todo == [] {
        todo := sv.Refill(order, pending);
        pending := {};
      } else {
        FrontInRange(vs, sv.arr[..], sv.ref[..], todo, pending);
        StepMeasured(leq, height, empty, vs, sv.arr[..], todo[0]);
        pending := sv.Process(todo[0], todo[1..], pending);
        todo := todo[1..];
      }
    }
    r := sv.arr[..];
    NothingLeft(vs, r, sv.ref[..]);
    ReachedFromBelow(leq, vs, r);
  }
}
