/** The running program as an abstract machine on collected heaps: what compiled code may
    do (rts/rts/jhc_rts.c, rts/rts/gc_jgc.h), with a collection possible at every
    allocation, and what holds over all its runs. */
module MutatorSpec {
  import opened Common
  import opened SmartPtr
  import opened HeapGraph
  import opened HeapInvariant
  import opened HeapMark
  import opened HeapMeaning
  import opened HeapMutation
  import SlabLayout

  /** The heap, the registered roots, and the collector's view of the stack. */
  datatype State = State(w: World, roots: seq<Addr>, stack: seq<Sptr>)

  /** The heap invariant. Which static nodes are lazy locations never changes: the CAFs. */
  ghost predicate Ok(cafs: set<Addr>, s: State) {
    && WorldOk(s.w) && RootsOk(s.w, s.roots, s.stack)
    && forall a: Addr | a.Static? :: a in s.w.lazies <==> a in cafs
  }

  // ----- the steps

  /** A value the program has at hand: a word of its stack, which the collector sees, or
      one that needs no collecting. */
  datatype Operand = OnStack(i: nat) | Raw(bits: nat) | Constant(k: nat) | Caf(k: nat)

  predicate CanRead(cafs: set<Addr>, stack: seq<Sptr>, o: Operand) {
    match o
    case OnStack(i) => i < |stack|
    case Raw(_) => true
    case Constant(k) => Static(k) !in cafs
    case Caf(k) => Static(k) in cafs
  }

  function Read(cafs: set<Addr>, stack: seq<Sptr>, o: Operand): Sptr
    requires CanRead(cafs, stack, o)
  {
    match o
    case OnStack(i) => stack[i]
    case Raw(bits) => Value(bits)
    case Constant(k) => Whnf(Static(k))
    case Caf(k) => Lazy(Static(k))
  }

  predicate CanReadAll(cafs: set<Addr>, stack: seq<Sptr>, args: seq<Operand>) {
    forall i | 0 <= i < |args| :: CanRead(cafs, stack, args[i])
  }

  /** The words of a new object: the code pointer of a thunk, then the operands. */
  function Words(cafs: set<Addr>, stack: seq<Sptr>, code: seq<nat>, args: seq<Operand>): seq<Sptr>
    requires CanReadAll(cafs, stack, args)
  {
    seq(|code|, i requires 0 <= i < |code| => Func(code[i])) +
    seq(|args|, i requires 0 <= i < |args| && CanRead(cafs, stack, args[i]) => Read(cafs, stack, args[i]))
  }

  datatype Step =
    | DoPush(o: Operand)
    | DoPop
    | DoNew(numPtrs: nat, code: seq<nat>, args: seq<Operand>)
    | DoLoad(i: nat, j: nat)
    | DoFollow(i: nat)
    | DoStore(i: nat, j: nat, o: Operand)
    | DoUpdate(i: nat, o: Operand)
    | DoRoot(i: nat)
    | DoCollect

  /** The object a stack word gives access to: an evaluated node, or a thunk whose code is
      being run. */
  predicate CanOpen(m: Memory, stack: seq<Sptr>, i: nat) {
    i < |stack| &&
    match stack[i]
    case Whnf(a) => a.Entry?
    case Lazy(a) => a.Entry? && IsLazy(Head(m, a))
    case _ => false
  }

  predicate CanNew(cafs: set<Addr>, stack: seq<Sptr>, numPtrs: nat, code: seq<nat>, args: seq<Operand>) {
    && 1 <= |code| + |args| <= SlabLayout.MAX_SIZE && numPtrs <= |code| + |args| && |code| <= 1
    && CanReadAll(cafs, stack, args)
  }

  predicate CanLoad(m: Memory, np: seq<nat>, stack: seq<Sptr>, i: nat, j: nat) {
    CanOpen(m, stack, i) && stack[i].loc in m && j < |m[stack[i].loc]| && j < Scanned(np, stack[i].loc)
  }

  predicate CanStore(cafs: set<Addr>, m: Memory, stack: seq<Sptr>, i: nat, j: nat, o: Operand) {
    && CanOpen(m, stack, i) && stack[i].Whnf? && CanRead(cafs, stack, o)
    && stack[i].loc in m && j < |m[stack[i].loc]|
  }

  predicate CanUpdate(cafs: set<Addr>, m: Memory, stack: seq<Sptr>, i: nat, o: Operand) {
    && i < |stack| && stack[i].Lazy? && CanRead(cafs, stack, o) && IsWhnf(Read(cafs, stack, o))
    && stack[i].loc in m && m[stack[i].loc] != []
  }

  predicate CanRoot(m: Memory, stack: seq<Sptr>, i: nat) { i < |stack| && !EvaluatedPtr(m, stack[i]) }

  /** The steps that neither allocate nor collect. A step the program cannot take is
      skipped. */
  function Stepped(cafs: set<Addr>, s: State, step: Step): State {
    match step
    case DoPush(o) => if CanRead(cafs, s.stack, o) then s.(stack := s.stack + [Read(cafs, s.stack, o)]) else s
    case DoPop => if s.stack != [] then s.(stack := s.stack[..|s.stack| - 1]) else s
    case DoLoad(i, j) =>
      if CanLoad(s.w.m, s.w.np, s.stack, i, j) && !s.w.m[s.stack[i].loc][j].Func? then
        s.(stack := s.stack + [s.w.m[s.stack[i].loc][j]])
      else s
    case DoFollow(i) => if i < |s.stack| then s.(stack := s.stack + [Norm(s.w.m, s.stack[i])]) else s
    case DoStore(i, j, o) =>
      if CanStore(cafs, s.w.m, s.stack, i, j, o) then s.(w := Stored(s.w, s.stack[i].loc, j, Read(cafs, s.stack, o))) else s
    case DoUpdate(i, o) =>
      if CanUpdate(cafs, s.w.m, s.stack, i, o) then
        var t, p := s.stack[i].loc, Read(cafs, s.stack, o);
        State(Stored(s.w, t, 0, p), if t.Static? then Registered(s.roots, p) else s.roots, s.stack)
      else s
    case DoRoot(i) => if CanRoot(s.w.m, s.stack, i) then s.(roots := Registered(s.roots, s.stack[i])) else s
    case _ => s
  }

  /** A new object in the heap `mid` that the allocation found: at a place that was not
      allocated there, with the words `ws`, and saved on the stack. */
  ghost predicate Made(s: State, mid: World, numPtrs: nat, ws: seq<Sptr>, lazy: bool, t: State, a: Addr) {
    && a.Entry? && Scanned(t.w.np, a) == numPtrs
    && Grown(mid, mid.(np := t.w.np, alloc := mid.alloc + {a}), {a})
    && t == State(Written(mid.(np := t.w.np), a, ws, lazy), s.roots, s.stack + [PointerTo(a, lazy)])
  }

  ghost predicate NewTo(cafs: set<Addr>, s: State, numPtrs: nat, code: seq<nat>, args: seq<Operand>, t: State, a: Addr)
    requires CanReadAll(cafs, s.stack, args)
  {
    exists due: bool, mid: World ::
      Became(s.w, s.roots, s.stack, due, mid) && Made(s, mid, numPtrs, Words(cafs, s.stack, code, args), code != [], t, a)
  }

  /** One step; `made` is the object it allocates, if it does. */
  ghost predicate StepTo(cafs: set<Addr>, s: State, step: Step, t: State, made: Option<Addr>) {
    match step
    case DoNew(numPtrs, code, args) =>
      if CanNew(cafs, s.stack, numPtrs, code, args) then made.Some? && NewTo(cafs, s, numPtrs, code, args, t, made.value)
      else made.None? && t == s
    case DoCollect => made.None? && t == s.(w := t.w) && Collects(s.w, s.roots, s.stack, t.w)
    case _ => made.None? && t == Stepped(cafs, s, step)
  }

  lemma SteppedTo(cafs: set<Addr>, s: State, step: Step)
    requires !step.DoNew? && !step.DoCollect?
    ensures StepTo(cafs, s, step, Stepped(cafs, s, step), None)
  {}

  lemma CollectTo(cafs: set<Addr>, s: State, v: World)
    requires Collects(s.w, s.roots, s.stack, v)
    ensures StepTo(cafs, s, DoCollect, s.(w := v), None)
  {}

  // ----- every step keeps the invariant

  lemma OperandOk(cafs: set<Addr>, s: State, o: Operand)
    requires Ok(cafs, s) && CanRead(cafs, s.stack, o)
    ensures PtrOk(s.w, Read(cafs, s.stack, o)) && !Read(cafs, s.stack, o).Func?
  {}

  lemma OpenIsLive(cafs: set<Addr>, s: State, i: nat)
    requires Ok(cafs, s) && CanOpen(s.w.m, s.stack, i)
    ensures s.stack[i].loc in s.w.live && s.stack[i].loc in s.w.m
    ensures s.stack[i].Whnf? ==> s.stack[i].loc !in s.w.lazies
  {
    assert PtrOk(s.w, s.stack[i]);
    assert ObjectOk(s.w, s.stack[i].loc);
  }

  lemma PushKeeps(cafs: set<Addr>, s: State, p: Sptr)
    requires Ok(cafs, s) && PtrOk(s.w, p) && !p.Func?
    ensures Ok(cafs, s.(stack := s.stack + [p]))
  {
    PushedPtr(s.w, s.roots, s.stack, p);
  }

  lemma LoadKeeps(cafs: set<Addr>, s: State, i: nat, j: nat)
    requires Ok(cafs, s)
    ensures Ok(cafs, Stepped(cafs, s, DoLoad(i, j)))
  {
    if CanLoad(s.w.m, s.w.np, s.stack, i, j) {
      OpenIsLive(cafs, s, i);
      LoadedPtr(s.w, s.stack[i].loc, j);
      hide WorldOk, RootsOk, PtrOk;
      if !s.w.m[s.stack[i].loc][j].Func? { PushKeeps(cafs, s, s.w.m[s.stack[i].loc][j]); }
    }
  }

  lemma FollowKeeps(cafs: set<Addr>, s: State, i: nat)
    requires Ok(cafs, s)
    ensures Ok(cafs, Stepped(cafs, s, DoFollow(i)))
  {
    if i < |s.stack| {
      FollowedPtr(s.w, s.stack[i]);
      hide WorldOk, PtrOk;
      PushKeeps(cafs, s, Norm(s.w.m, s.stack[i]));
    }
  }

  lemma StoreKeeps(cafs: set<Addr>, s: State, i: nat, j: nat, o: Operand)
    requires Ok(cafs, s)
    ensures Ok(cafs, Stepped(cafs, s, DoStore(i, j, o)))
  {
    if CanStore(cafs, s.w.m, s.stack, i, j, o) {
      OpenIsLive(cafs, s, i);
      OperandOk(cafs, s, o);
      hide WorldOk, RootsOk, PtrOk;
      StoringKeeps(s.w, s.stack[i].loc, j, Read(cafs, s.stack, o), s.roots, s.stack);
    }
  }

  lemma UpdateKeeps(cafs: set<Addr>, s: State, i: nat, o: Operand)
    requires Ok(cafs, s)
    ensures Ok(cafs, Stepped(cafs, s, DoUpdate(i, o)))
  {
    if CanUpdate(cafs, s.w.m, s.stack, i, o) {
      assert PtrOk(s.w, s.stack[i]);
      OperandOk(cafs, s, o);
      hide WorldOk, RootsOk, PtrOk;
      UpdatedRegistered(s.w, s.stack[i].loc, Read(cafs, s.stack, o), s.roots, s.stack);
    }
  }

  lemma RootKeeps(cafs: set<Addr>, s: State, i: nat)
    requires Ok(cafs, s)
    ensures Ok(cafs, Stepped(cafs, s, DoRoot(i)))
  {
    if CanRoot(s.w.m, s.stack, i) {
      LiveTarget(s.w, s.stack[i]);
      hide WorldOk, PtrOk;
      RootedPtr(s.w, s.roots, s.stack, s.stack[i]);
    }
  }

  lemma SteppedKeeps(cafs: set<Addr>, s: State, step: Step)
    requires Ok(cafs, s)
    ensures Ok(cafs, Stepped(cafs, s, step))
  {
    match step
    case DoPush(o) =>
      if CanRead(cafs, s.stack, o) {
        OperandOk(cafs, s, o);
        PushKeeps(cafs, s, Read(cafs, s.stack, o));
      }
    case DoLoad(i, j) => LoadKeeps(cafs, s, i, j);
    case DoFollow(i) => FollowKeeps(cafs, s, i);
    case DoStore(i, j, o) => StoreKeeps(cafs, s, i, j, o);
    case DoUpdate(i, o) => UpdateKeeps(cafs, s, i, o);
    case DoRoot(i) => RootKeeps(cafs, s, i);
    case _ =>
  }

  lemma CollectKeeps(cafs: set<Addr>, s: State, v: World)
    requires Ok(cafs, s) && Collects(s.w, s.roots, s.stack, v)
    ensures Ok(cafs, s.(w := v))
  {
    hide WorldOk, RootsOk, Finished;
    var g :| Finished(s.w, s.roots, s.stack, g) && v == After(s.w, g);
    WorldStaysOk(s.w, s.roots, s.stack, g);
  }

  /** The heap an allocation finds satisfies the invariant. */
  lemma BecameKeeps(cafs: set<Addr>, s: State, due: bool, mid: World)
    requires Ok(cafs, s) && Became(s.w, s.roots, s.stack, due, mid)
    ensures Ok(cafs, s.(w := mid))
  {
    hide WorldOk, RootsOk;
    if due { CollectKeeps(cafs, s, mid); }
  }

  lemma WordsOk(cafs: set<Addr>, s: State, code: seq<nat>, args: seq<Operand>)
    requires Ok(cafs, s) && CanReadAll(cafs, s.stack, args)
    ensures forall j: nat | j < |Words(cafs, s.stack, code, args)| :: PtrOk(s.w, Words(cafs, s.stack, code, args)[j])
  {
    forall j: nat | j < |Words(cafs, s.stack, code, args)|
      ensures PtrOk(s.w, Words(cafs, s.stack, code, args)[j])
    {
      if j >= |code| { OperandOk(cafs, s, args[j - |code|]); }
    }
  }

  /** The allocator's blocks, and the mark of an entry nothing points to, change nothing. */
  lemma GrownKeeps(cafs: set<Addr>, s: State, np: seq<nat>, a: Addr)
    requires Ok(cafs, s) && Grown(s.w, s.w.(np := np, alloc := s.w.alloc + {a}), {a})
    ensures Ok(cafs, s.(w := s.w.(np := np))) && a !in s.w.alloc
  {
    assert a in {a};
    AllocationKeeps(s.w, s.w.(np := np), s.roots, s.stack);
  }

  lemma MadeKeeps(cafs: set<Addr>, s: State, mid: World, numPtrs: nat, code: seq<nat>, args: seq<Operand>, t: State, a: Addr)
    requires Ok(cafs, s.(w := mid)) && CanNew(cafs, s.stack, numPtrs, code, args)
    requires Made(s, mid, numPtrs, Words(cafs, s.stack, code, args), code != [], t, a)
    ensures Ok(cafs, t)
  {
    var v := mid.(np := t.w.np);
    GrownKeeps(cafs, s.(w := mid), t.w.np, a);
    WordsOk(cafs, s.(w := v), code, args);
    var ws := Words(cafs, s.stack, code, args);
    assert code != [] ==> ws[0].Func?;
    hide WorldOk, RootsOk, PtrOk, Words, Grown;
    WritingKeeps(v, a, ws, code != [], s.roots, s.stack);
    PushedPtr(t.w, s.roots, s.stack, PointerTo(a, code != []));
  }

  /** An allocation, with or without a collection, keeps the invariant. */
  lemma NewKeeps(cafs: set<Addr>, s: State, due: bool, mid: World, numPtrs: nat, code: seq<nat>, args: seq<Operand>, t: State, a: Addr)
    requires Ok(cafs, s) && CanNew(cafs, s.stack, numPtrs, code, args)
    requires Became(s.w, s.roots, s.stack, due, mid) && Made(s, mid, numPtrs, Words(cafs, s.stack, code, args), code != [], t, a)
    ensures Ok(cafs, t) && NewTo(cafs, s, numPtrs, code, args, t, a)
  {
    hide Ok, Made, Became, CanRead;
    BecameKeeps(cafs, s, due, mid);
    MadeKeeps(cafs, s, mid, numPtrs, code, args, t, a);
  }

  /** Every step keeps the invariant. */
  lemma StepKeeps(cafs: set<Addr>, s: State, step: Step, t: State, made: Option<Addr>)
    requires Ok(cafs, s) && StepTo(cafs, s, step, t, made)
    ensures Ok(cafs, t)
  {
    hide Ok, Made, Became, Collects, Stepped;
    SteppedKeeps(cafs, s, step);
    match step
    case DoNew(numPtrs, code, args) =>
      if CanNew(cafs, s.stack, numPtrs, code, args) {
        var due: bool, mid: World :|
          Became(s.w, s.roots, s.stack, due, mid) && Made(s, mid, numPtrs, Words(cafs, s.stack, code, args), code != [], t, made.value);
        NewKeeps(cafs, s, due, mid, numPtrs, code, args, t, made.value);
      }
    case DoCollect => CollectKeeps(cafs, s, t.w);
    case _ =>
  }

  /** An object is never made at a place that is still in use, whether or not a collection
      runs in between; and it is live and has its words. */
  lemma MadeFresh(cafs: set<Addr>, s: State, step: Step, t: State, a: Addr)
    requires Ok(cafs, s) && StepTo(cafs, s, step, t, Some(a))
    ensures !InUse(s.w, s.roots, s.stack, a)
    ensures step.DoNew? && CanReadAll(cafs, s.stack, step.args)
    ensures a in t.w.live && a in t.w.m && t.w.m[a] == Words(cafs, s.stack, step.code, step.args)
    ensures Scanned(t.w.np, a) == step.numPtrs && t.stack == s.stack + [PointerTo(a, step.code != [])]
  {
    hide WorldOk, RootsOk, Became, InUse, Words;
    var due: bool, mid: World :|
      Became(s.w, s.roots, s.stack, due, mid) && Made(s, mid, step.numPtrs, Words(cafs, s.stack, step.code, step.args), step.code != [], t, a);
    NotInUse(s.w, s.roots, s.stack, due, mid, mid.(np := t.w.np, alloc := mid.alloc + {a}), a);
  }

  // ----- whole runs

  /** A run of the machine, with the object each step allocates. */
  ghost predicate RunTo(cafs: set<Addr>, trace: seq<State>, steps: seq<Step>, made: seq<Option<Addr>>) {
    && |trace| == |steps| + 1 && |made| == |steps|
    && forall n | 0 <= n < |steps| :: StepTo(cafs, trace[n], steps[n], trace[n + 1], made[n])
  }

  /** Over every run the invariant holds after every step. */
  lemma {:induction false} RunKeeps(cafs: set<Addr>, trace: seq<State>, steps: seq<Step>, made: seq<Option<Addr>>, n: nat)
    requires RunTo(cafs, trace, steps, made) && Ok(cafs, trace[0]) && n <= |steps|
    ensures Ok(cafs, trace[n])
  {
    hide Ok, StepTo;
    if n > 0 {
      RunKeeps(cafs, trace, steps, made, n - 1);
      assert StepTo(cafs, trace[n - 1], steps[n - 1], trace[n - 1 + 1], made[n - 1]);
      StepKeeps(cafs, trace[n - 1], steps[n - 1], trace[n], made[n - 1]);
    }
  }

  /** And no object is ever made at a place that was still in use. */
  lemma RunFresh(cafs: set<Addr>, trace: seq<State>, steps: seq<Step>, made: seq<Option<Addr>>, n: nat)
    requires RunTo(cafs, trace, steps, made) && Ok(cafs, trace[0]) && n < |steps| && made[n].Some?
    ensures !InUse(trace[n].w, trace[n].roots, trace[n].stack, made[n].value)
  {
    hide Ok, InUse;
    RunKeeps(cafs, trace, steps, made, n);
    assert StepTo(cafs, trace[n], steps[n], trace[n + 1], made[n]);
    MadeFresh(cafs, trace[n], steps[n], trace[n + 1], made[n].value);
  }

  /** Over every run the invariant holds after every step, and no object is ever made at a
      place that was still in use. */
  lemma RunSafe(cafs: set<Addr>, trace: seq<State>, steps: seq<Step>, made: seq<Option<Addr>>)
    requires RunTo(cafs, trace, steps, made) && Ok(cafs, trace[0])
    ensures forall n: nat | n <= |steps| :: Ok(cafs, trace[n])
    ensures forall n: nat | n < |steps| && made[n].Some? :: !InUse(trace[n].w, trace[n].roots, trace[n].stack, made[n].value)
  {
    hide Ok, InUse, StepTo;
    forall n: nat | n <= |steps|
      ensures Ok(cafs, trace[n])
    {
      RunKeeps(cafs, trace, steps, made, n);
    }
    forall n: nat | n < |steps| && made[n].Some?
      ensures !InUse(trace[n].w, trace[n].roots, trace[n].stack, made[n].value)
    {
      RunFresh(cafs, trace, steps, made, n);
    }
  }

  /** A run of the first |made| steps. */
  ghost predicate Running(cafs: set<Addr>, trace: seq<State>, steps: seq<Step>, made: seq<Option<Addr>>) {
    |made| <= |steps| && RunTo(cafs, trace, steps[..|made|], made)
  }

  lemma RunBegins(cafs: set<Addr>, s: State, steps: seq<Step>)
    ensures Running(cafs, [s], steps, [])
  {}

  lemma RunGoesOn(cafs: set<Addr>, trace: seq<State>, steps: seq<Step>, made: seq<Option<Addr>>, t: State, one: Option<Addr>)
    requires |trace| == |made| + 1 && |made| < |steps|
    requires Running(cafs, trace, steps, made) && StepTo(cafs, trace[|made|], steps[|made|], t, one)
    ensures Running(cafs, trace + [t], steps, made + [one])
  {
    hide StepTo;
  }

  lemma RunEnds(cafs: set<Addr>, trace: seq<State>, steps: seq<Step>, made: seq<Option<Addr>>)
    requires Running(cafs, trace, steps, made) && |made| == |steps|
    ensures RunTo(cafs, trace, steps, made)
  {
    assert steps[..|steps|] == steps;
  }

  // ----- allocation and collection are not observed

  /** Nothing that hangs on a live object sees the fresh one. */
  lemma {:induction false} ObserveElsewhere(w: World, np: seq<nat>, a: Addr, ws: seq<Sptr>, lazy: bool, p: Sptr, path: seq<nat>)
    requires WorldOk(w) && Grown(w, w.(np := np, alloc := w.alloc + {a}), {a}) && a.Entry? && PtrOk(w, p)
    ensures Observe(Written(w.(np := np), a, ws, lazy).m, np, p, path) == Observe(w.m, w.np, p, path)
    decreases |path|
  {
    var m := Written(w.(np := np), a, ws, lazy).m;
    var q := Norm(w.m, p);
    assert a in {a};
    assert Norm(m, p) == q;
    if path != [] && IsPtr(q) && q.loc in w.m && path[0] < |w.m[q.loc]| {
      if q.loc.Entry? {
        NormTarget(w, p, q.loc);
        assert ObjectOk(w, q.loc);
      } else {
        NormOk(w, p);
        StaticStep(w, q, path[0]);
      }
      if q.loc.Static? || path[0] < Scanned(w.np, q.loc) {
        ObserveElsewhere(w, np, a, ws, lazy, w.m[q.loc][path[0]], path[1..]);
      }
    }
  }

  lemma BecameUnseen(cafs: set<Addr>, s: State, due: bool, mid: World, o: Operand, path: seq<nat>)
    requires Ok(cafs, s) && Became(s.w, s.roots, s.stack, due, mid) && CanRead(cafs, s.stack, o)
    ensures Observe(mid.m, mid.np, Read(cafs, s.stack, o), path) == Observe(s.w.m, s.w.np, Read(cafs, s.stack, o), path)
  {
    OperandOk(cafs, s, o);
    assert o.Caf? ==> Static(o.k) in s.w.lazies;
    hide WorldOk, RootsOk, PtrOk, Finished, Observe;
    if due {
      var g :| Finished(s.w, s.roots, s.stack, g) && mid == After(s.w, g);
      match o
      case OnStack(i) => StackMeaningKept(s.w, s.roots, s.stack, g, i, path);
      case Caf(k) => CafMeaningKept(s.w, s.roots, s.stack, g, Static(k), path);
      case _ => ObserveKept(s.w, s.roots, s.stack, g, Read(cafs, s.stack, o), Read(cafs, s.stack, o), path);
    }
  }

  /** Whatever the program can observe through anything it has at hand, a word of its
      stack, a constant or a CAF, is the same before and after an allocation, with or
      without a collection, and a collection on request. */
  lemma AllocationUnseen(cafs: set<Addr>, s: State, step: Step, t: State, made: Option<Addr>, o: Operand, path: seq<nat>)
    requires Ok(cafs, s) && StepTo(cafs, s, step, t, made) && (step.DoNew? || step.DoCollect?)
    requires CanRead(cafs, s.stack, o)
    ensures CanRead(cafs, t.stack, o)
    ensures Observe(t.w.m, t.w.np, Read(cafs, t.stack, o), path) == Observe(s.w.m, s.w.np, Read(cafs, s.stack, o), path)
  {
    if step.DoCollect? {
      BecameUnseen(cafs, s, true, t.w, o, path);
    } else if made.Some? {
      var due: bool, mid: World :|
        Became(s.w, s.roots, s.stack, due, mid) && Made(s, mid, step.numPtrs, Words(cafs, s.stack, step.code, step.args), step.code != [], t, made.value);
      assert Read(cafs, t.stack, o) == Read(cafs, s.stack, o);
      hide Observe, Words;
      BecameUnseen(cafs, s, due, mid, o, path);
      BecameKeeps(cafs, s, due, mid);
      OperandOk(cafs, s.(w := mid), o);
      ObserveElsewhere(mid, t.w.np, made.value, Words(cafs, s.stack, step.code, step.args), step.code != [], Read(cafs, s.stack, o), path);
    }
  }
}
