/** Statements put together with the optimising constructors run like the plain ones. */
module COptimise {
  import opened Common
  import opened CStatements
  import opened CFlow
  import opened CPeephole
  import opened CDropped
  import opened CRun

  /** A run from the entry or a label ends with `r`. */
  ghost predicate Yields<S(!new)>(m: Machine<S>, p: seq<Stmt>, at: Option<nat>, s: S, r: Result<S>) {
    exists n: nat :: RunFrom(false, m, p, at, s, n) == Some(r)
  }

  // ----- counting labels as jumps makes no difference to what a run yields

  /** The rest of the run after the first statement, if it does not end or jump. */
  function Next<S>(m: Machine<S>, ss: seq<Stmt>, s: S): (r: Option<(seq<Stmt>, S)>)
    requires ss != []
    ensures r.Some? ==> WeightSeq(r.value.0) < WeightSeq(ss)
  {
    match ss[0]
    case Act(a) => (
      match m.act(a, s)
      case Fall(s') => Some((ss[1..], s'))
      case _ => None)
    case Label(_) => Some((ss[1..], s))
    case Block(b) =>
      WeightAppend(b, ss[1..]);
      assert Weight(ss[0]) == 1 + WeightSeq(b);
      Some((b + ss[1..], s))
    case If(c, t, e) =>
      WeightAppend(t, ss[1..]);
      WeightAppend(e, ss[1..]);
      assert Weight(ss[0]) == 1 + WeightSeq(t) + WeightSeq(e);
      Some(((if m.eval(c, s).0 != 0 then t else e) + ss[1..], m.eval(c, s).1))
    case Switch(c, arms) =>
      var i := Pick(Tags(arms), m.eval(c, s).0);
      if i == |arms| then None
      else
        WeightOfArm(arms, i);
        WeightAppend(arms[i].body, ss[1..]);
        assert Weight(ss[0]) == 1 + WeightArms(arms);
        Some((arms[i].body + ss[1..], m.eval(c, s).1))
    case _ => None
  }

  /** The label the first statement jumps to, if it does. */
  function JumpsTo<S>(m: Machine<S>, ss: seq<Stmt>, s: S): Option<(nat, S)>
    requires ss != []
  {
    match ss[0]
    case Goto(l) => Some((l, s))
    case Act(a) => (
      match m.act(a, s)
      case Leap(l, s') => Some((l, s'))
      case _ => None)
    case _ => None
  }

  /** One step of a run. */
  lemma RunSteps<S>(jl: bool, m: Machine<S>, p: seq<Stmt>, ss: seq<Stmt>, s: S, n: nat)
    requires ss != []
    ensures Next(m, ss, s).Some? ==> var (ss', s') := Next(m, ss, s).value;
      Run(jl, m, p, ss, s, n) == if jl && ss[0].Label? then (if n == 0 then None else Run(jl, m, p, ss', s', n - 1)) else Run(jl, m, p, ss', s', n)
    ensures JumpsTo(m, ss, s).Some? ==> Run(jl, m, p, ss, s, n) == RunJump(jl, m, p, JumpsTo(m, ss, s).value.0, JumpsTo(m, ss, s).value.1, n)
    ensures Next(m, ss, s).None? && JumpsTo(m, ss, s).None? ==> Run(jl, m, p, ss, s, n) == Run(false, m, p, ss, s, 0)
  {}

  lemma {:induction false} MoreFuel<S>(jl: bool, m: Machine<S>, p: seq<Stmt>, ss: seq<Stmt>, s: S, n: nat)
    requires Run(jl, m, p, ss, s, n).Some?
    ensures Run(jl, m, p, ss, s, n + 1) == Run(jl, m, p, ss, s, n)
    decreases n, WeightSeq(ss)
  {
    if ss != [] {
      RunSteps(jl, m, p, ss, s, n);
      RunSteps(jl, m, p, ss, s, n + 1);
      hide Run, Next, JumpsTo;
      if Next(m, ss, s).Some? {
        var (ss', s') := Next(m, ss, s).value;
        MoreFuel(jl, m, p, ss', s', if jl && ss[0].Label? then n - 1 else n);
      } else if JumpsTo(m, ss, s).Some? {
        var (l, s') := JumpsTo(m, ss, s).value;
        if Find(l, p).Some? { MoreFuel(jl, m, p, Find(l, p).value, s', n - 1); }
      }
    }
  }

  lemma {:induction false} CountedToFree<S>(m: Machine<S>, p: seq<Stmt>, ss: seq<Stmt>, s: S, n: nat)
    requires Run(true, m, p, ss, s, n).Some?
    ensures Run(false, m, p, ss, s, n) == Run(true, m, p, ss, s, n)
    decreases n, WeightSeq(ss)
  {
    if ss != [] {
      RunSteps(true, m, p, ss, s, n);
      RunSteps(false, m, p, ss, s, n);
      hide Run, Next, JumpsTo;
      if Next(m, ss, s).Some? {
        var (ss', s') := Next(m, ss, s).value;
        CountedToFree(m, p, ss', s', if ss[0].Label? then n - 1 else n);
        if ss[0].Label? { MoreFuel(false, m, p, ss', s', n - 1); }
      } else if JumpsTo(m, ss, s).Some? {
        var (l, s') := JumpsTo(m, ss, s).value;
        if Find(l, p).Some? { CountedToFree(m, p, Find(l, p).value, s', n - 1); }
      }
    }
  }

  lemma {:induction false} FreeToCounted<S>(m: Machine<S>, p: seq<Stmt>, ss: seq<Stmt>, s: S, n: nat) returns (n': nat)
    requires Run(false, m, p, ss, s, n).Some?
    ensures Run(true, m, p, ss, s, n') == Run(false, m, p, ss, s, n)
    decreases n, WeightSeq(ss)
  {
    n' := n;
    if ss != [] {
      RunSteps(false, m, p, ss, s, n);
      if Next(m, ss, s).Some? {
        var (ss', s') := Next(m, ss, s).value;
        n' := FreeToCounted(m, p, ss', s', n);
        if ss[0].Label? { n' := n' + 1; }
      } else if JumpsTo(m, ss, s).Some? {
        var (l, s') := JumpsTo(m, ss, s).value;
        if Find(l, p).Some? {
          n' := FreeToCounted(m, p, Find(l, p).value, s', n - 1);
          n' := n' + 1;
        }
      }
      RunSteps(true, m, p, ss, s, n');
      hide Run, Next, JumpsTo;
    }
  }

  lemma FromCounted<S(!new)>(m: Machine<S>, p: seq<Stmt>, at: Option<nat>, s: S, n: nat, r: Result<S>)
    requires RunFrom(true, m, p, at, s, n) == Some(r)
    ensures Yields(m, p, at, s, r)
  {
    match at {
      case None => CountedToFree(m, p, p, s, n);
      case Some(l) => if Find(l, p).Some? { CountedToFree(m, p, Find(l, p).value, s, n - 1); }
    }
    assert RunFrom(false, m, p, at, s, n) == Some(r);
  }

  lemma ToCounted<S(!new)>(m: Machine<S>, p: seq<Stmt>, at: Option<nat>, s: S, r: Result<S>) returns (n: nat)
    requires Yields(m, p, at, s, r)
    ensures RunFrom(true, m, p, at, s, n) == Some(r)
  {
    n :| RunFrom(false, m, p, at, s, n) == Some(r);
    match at
    case None => n := FreeToCounted(m, p, p, s, n);
    case Some(l) =>
      if Find(l, p).Some? {
        n := FreeToCounted(m, p, Find(l, p).value, s, n - 1);
        n := n + 1;
      }
  }

  /** Same control flow, in either reading of labels, gives the same results. */
  lemma SameYields<S(!new)>(jl: bool, m: Machine<S>, p: seq<Stmt>, q: seq<Stmt>, at: Option<nat>, s: S, r: Result<S>)
    requires Same(jl, p, q) && Unique(Labels(p))
    ensures Yields(m, p, at, s, r) <==> Yields(m, q, at, s, r)
  {
    hide Same, RunFrom, Unique;
    if jl {
      if Yields(m, p, at, s, r) {
        var n := ToCounted(m, p, at, s, r);
        SameRuns(true, m, p, q, at, s, n);
        FromCounted(m, q, at, s, n, r);
      }
      if Yields(m, q, at, s, r) {
        var n := ToCounted(m, q, at, s, r);
        SameRuns(true, m, p, q, at, s, n);
        FromCounted(m, p, at, s, n, r);
      }
    } else {
      forall n: nat
        ensures RunFrom(false, m, p, at, s, n) == RunFrom(false, m, q, at, s, n)
      {
        SameRuns(false, m, p, q, at, s, n);
      }
    }
  }

  // ----- chains of steps that each keep the control flow

  /** From `a` to `b` in `n` steps, each of which keeps the control flow. */
  ghost predicate Leads(n: nat, a: seq<Stmt>, b: seq<Stmt>) {
    if n == 0 then a == b
    else exists c :: (Same(true, a, c) || Same(false, a, c)) && Leads(n - 1, c, b)
  }

  ghost predicate Equiv(a: seq<Stmt>, b: seq<Stmt>) { exists n: nat :: Leads(n, a, b) }

  lemma EquivStep(jl: bool, a: seq<Stmt>, b: seq<Stmt>)
    requires Same(jl, a, b)
    ensures Equiv(a, b)
  {
    assert Leads(0, b, b);
    assert Leads(1, a, b);
  }

  lemma {:induction false} LeadsOn(n: nat, k: nat, a: seq<Stmt>, b: seq<Stmt>, c: seq<Stmt>)
    requires Leads(n, a, b) && Leads(k, b, c)
    ensures Leads(n + k, a, c)
  {
    hide Same;
    if n > 0 {
      var x :| (Same(true, a, x) || Same(false, a, x)) && Leads(n - 1, x, b);
      LeadsOn(n - 1, k, x, b, c);
      assert Leads(n + k - 1, x, c);
    }
  }

  lemma EquivTrans(a: seq<Stmt>, b: seq<Stmt>, c: seq<Stmt>)
    requires Equiv(a, b) && Equiv(b, c)
    ensures Equiv(a, c)
  {
    var n: nat :| Leads(n, a, b);
    var k: nat :| Leads(k, b, c);
    LeadsOn(n, k, a, b, c);
  }

  /** Contexts that keep sameness keep chains of it. */
  lemma {:induction false} LeadsInside(n: nat, f: seq<Stmt> -> seq<Stmt>, a: seq<Stmt>, b: seq<Stmt>)
    requires forall jl, x, y | Same(jl, x, y) :: Same(jl, f(x), f(y))
    requires Leads(n, a, b)
    ensures Leads(n, f(a), f(b))
  {
    if n > 0 {
      var x :| (Same(true, a, x) || Same(false, a, x)) && Leads(n - 1, x, b);
      LeadsInside(n - 1, f, x, b);
      assert Same(true, f(a), f(x)) || Same(false, f(a), f(x));
    }
  }

  lemma EquivInside(f: seq<Stmt> -> seq<Stmt>, a: seq<Stmt>, b: seq<Stmt>)
    requires forall jl, x, y | Same(jl, x, y) :: Same(jl, f(x), f(y))
    requires Equiv(a, b)
    ensures Equiv(f(a), f(b))
  {
    var n: nat :| Leads(n, a, b);
    LeadsInside(n, f, a, b);
  }

  lemma {:induction false} LeadsYields<S(!new)>(n: nat, m: Machine<S>, p: seq<Stmt>, q: seq<Stmt>, at: Option<nat>, s: S, r: Result<S>)
    requires Leads(n, p, q) && Unique(Labels(p))
    ensures Yields(m, p, at, s, r) <==> Yields(m, q, at, s, r)
    ensures Labels(p) == Labels(q)
  {
    if n > 0 {
      var x :| (Same(true, p, x) || Same(false, p, x)) && Leads(n - 1, x, q);
      if Same(true, p, x) { SameYields(true, m, p, x, at, s, r); } else { SameYields(false, m, p, x, at, s, r); }
      LeadsYields(n - 1, m, x, q, at, s, r);
    }
  }

  // ----- the whole construction

  lemma EquivAppend(a: seq<Stmt>, a': seq<Stmt>, b: seq<Stmt>, b': seq<Stmt>)
    requires Equiv(a, a') && Equiv(b, b')
    ensures Equiv(a + b, a' + b')
  {
    hide Same, Equiv;
    var f := (x: seq<Stmt>) => x + b;
    var g := (x: seq<Stmt>) => a' + x;
    forall jl, x, y | Same(jl, x, y)
      ensures Same(jl, f(x), f(y)) && Same(jl, g(x), g(y))
    {
      SameAppend(jl, x, y, b);
      SamePrepend(jl, x, y, a');
    }
    EquivInside(f, a, a');
    EquivInside(g, b, b');
    EquivTrans(a + b, a' + b, a' + b');
  }

  lemma EquivBlock(b: seq<Stmt>, b': seq<Stmt>)
    requires Equiv(b, b')
    ensures Equiv([Block(b)], [Block(b')])
  {
    hide Same, Equiv;
    var f := (x: seq<Stmt>) => [Block(x)];
    forall jl, x, y | Same(jl, x, y)
      ensures Same(jl, f(x), f(y))
    {
      SameBlock(jl, x, y);
    }
    EquivInside(f, b, b');
  }

  lemma SameRefl(jl: bool, a: seq<Stmt>)
    ensures Same(jl, a, a)
  {}

  lemma EquivIf(c: nat, t: seq<Stmt>, t': seq<Stmt>, e: seq<Stmt>, e': seq<Stmt>)
    requires Equiv(t, t') && Equiv(e, e')
    ensures Equiv([If(c, t, e)], [If(c, t', e')])
  {
    hide Same, Equiv;
    var f := (x: seq<Stmt>) => [If(c, x, e)];
    var g := (x: seq<Stmt>) => [If(c, t', x)];
    forall jl, x, y | Same(jl, x, y)
      ensures Same(jl, f(x), f(y)) && Same(jl, g(x), g(y))
    {
      SameRefl(jl, e);
      SameRefl(jl, t');
      SameIf(jl, c, x, y, e, e);
      SameIf(jl, c, t', t', x, y);
    }
    EquivInside(f, t, t');
    EquivInside(g, e, e');
    EquivTrans([If(c, t, e)], [If(c, t', e)], [If(c, t', e')]);
  }

  /** One case of a switch after the other. */
  lemma EquivArm(c: nat, pre: seq<Arm>, tag: Option<nat>, b: seq<Stmt>, b': seq<Stmt>, post: seq<Arm>)
    requires Equiv(b, b')
    ensures Equiv([Switch(c, pre + [Arm(tag, b)] + post)], [Switch(c, pre + [Arm(tag, b')] + post)])
  {
    hide Same, Equiv;
    var f := (x: seq<Stmt>) => [Switch(c, pre + [Arm(tag, x)] + post)];
    forall jl, x, y | Same(jl, x, y)
      ensures Same(jl, f(x), f(y))
    {
      SameSwitch(jl, c, pre, x, y, tag, post);
    }
    EquivInside(f, b, b');
  }

  lemma EquivLabels(a: seq<Stmt>, b: seq<Stmt>)
    requires Equiv(a, b)
    ensures Labels(a) == Labels(b)
  {
    var n: nat :| Leads(n, a, b);
    LeadsLabels(n, a, b);
  }

  lemma {:induction false} LeadsLabels(n: nat, a: seq<Stmt>, b: seq<Stmt>)
    requires Leads(n, a, b)
    ensures Labels(a) == Labels(b)
  {
    if n > 0 {
      var x :| (Same(true, a, x) || Same(false, a, x)) && Leads(n - 1, x, b);
      LeadsLabels(n - 1, x, b);
    }
  }

  lemma EquivRefl(a: seq<Stmt>)
    ensures Equiv(a, a)
  {
    assert Leads(0, a, a);
  }

  /** A sequence put together with the optimising constructors is equivalent to itself. */
  lemma {:induction false} OptSeqEquiv(ss: seq<Stmt>)
    requires Unique(Labels(ss)) && CleanSeq(ss)
    ensures Equiv(ss, OptSeq(ss))
    decreases ss
  {
    hide Equiv, Same, PairOpt, OptStmt, CleanStmt, CleanCut;
    if ss == [] {
      EquivRefl([]);
    } else {
      UniqueParts(ss);
      OptStmtEquiv(ss[0]);
      OptSeqEquiv(ss[1..]);
      var x, y := OptStmt(ss[0]), OptSeq(ss[1..]);
      EquivAppend([ss[0]], x, ss[1..], y);
      assert [ss[0]] + ss[1..] == ss;
      JoinSame(x, y);
      EquivStep(true, x + y, PairOpt(x, y));
      EquivTrans(ss, x + y, PairOpt(x, y));
    }
  }

  lemma {:induction false} OptStmtEquiv(s: Stmt)
    requires Unique(LabelsOf(s)) && CleanStmt(s)
    ensures Equiv([s], OptStmt(s))
    decreases s
  {
    hide Equiv, Same, PairOpt, SubBlock, Cif, SwitchOf;
    match s
    case Block(b) =>
      OptSeqEquiv(b);
      EquivBlock(b, OptSeq(b));
      SubBlockSame(OptSeq(b));
      EquivStep(false, [Block(OptSeq(b))], SubBlock(OptSeq(b)));
      EquivTrans([s], [Block(OptSeq(b))], SubBlock(OptSeq(b)));
    case If(c, t, e) =>
      UniqueSum(Labels(t), Labels(e));
      OptSeqEquiv(t);
      OptSeqEquiv(e);
      EquivIf(c, t, OptSeq(t), e, OptSeq(e));
      EquivLabels(t, OptSeq(t));
      EquivLabels(e, OptSeq(e));
      CifSame(c, OptSeq(t), OptSeq(e));
      EquivStep(false, [If(c, OptSeq(t), OptSeq(e))], Cif(c, OptSeq(t), OptSeq(e)));
      EquivTrans([s], [If(c, OptSeq(t), OptSeq(e))], Cif(c, OptSeq(t), OptSeq(e)));
    case Switch(c, arms) =>
      OptArmsEquiv(c, [], arms);
      assert [] + arms == arms && [] + OptArms(arms) == OptArms(arms);
      SwitchSame(c, OptArms(arms));
      EquivStep(false, [Switch(c, OptArms(arms))], SwitchOf(c, OptArms(arms)));
      EquivTrans([s], [Switch(c, OptArms(arms))], SwitchOf(c, OptArms(arms)));
    case _ => EquivRefl([s]);
  }

  lemma {:induction false} OptArmsEquiv(c: nat, pre: seq<Arm>, arms: seq<Arm>)
    requires Unique(LabelsOfArms(arms)) && CleanArms(arms)
    ensures Equiv([Switch(c, pre + arms)], [Switch(c, pre + OptArms(arms))])
    ensures LabelsOfArms(OptArms(arms)) == LabelsOfArms(arms)
    decreases arms
  {
    hide Equiv, Same, OptSeq, CleanSeq;
    if arms == [] {
      EquivRefl([Switch(c, pre + arms)]);
    } else {
      var a, b := arms[0], arms[1..];
      var o := OptSeq(a.body);
      UniqueSum(Labels(a.body), LabelsOfArms(b));
      OptSeqEquiv(a.body);
      EquivLabels(a.body, o);
      OptArmsEquiv(c, pre + [Arm(a.tag, o)], b);
      assert OptArms(arms)[0] == Arm(a.tag, o) && OptArms(arms)[1..] == OptArms(b);
      FirstArmEquiv(c, pre, arms, o, OptArms(b));
    }
  }

  lemma FirstArmEquiv(c: nat, pre: seq<Arm>, arms: seq<Arm>, o: seq<Stmt>, rest: seq<Arm>)
    requires arms != [] && Equiv(arms[0].body, o)
    requires Equiv([Switch(c, pre + [Arm(arms[0].tag, o)] + arms[1..])], [Switch(c, pre + [Arm(arms[0].tag, o)] + rest)])
    ensures Equiv([Switch(c, pre + arms)], [Switch(c, pre + ([Arm(arms[0].tag, o)] + rest))])
  {
    hide Equiv;
    var a, b := arms[0], arms[1..];
    EquivArm(c, pre, a.tag, a.body, o, b);
    assert pre + arms == pre + [Arm(a.tag, a.body)] + b;
    assert pre + ([Arm(a.tag, o)] + rest) == pre + [Arm(a.tag, o)] + rest;
    EquivTrans([Switch(c, pre + arms)], [Switch(c, pre + [Arm(a.tag, o)] + b)], [Switch(c, pre + [Arm(a.tag, o)] + rest)]);
  }

  /** What the construction gives has no goto to the next label, and nothing but labels
      after a goto or return. */
  lemma {:induction false} OptSeqBuilt(ss: seq<Stmt>)
    ensures Built(OptSeq(ss))
    decreases ss
  {
    if ss != [] {
      OptStmtBuilt(ss[0]);
      OptSeqBuilt(ss[1..]);
      JoinBuilt(OptStmt(ss[0]), OptSeq(ss[1..]));
    }
  }

  lemma LabelsBuilt(la: seq<Stmt>)
    requires forall x | x in la :: x.Label?
    ensures Built(la)
  {
    forall i | 0 <= i < |la| - 1
      ensures Peep(la[i], la[i + 1]).None?
    {
      assert la[i] in la && la[i + 1] in la;
    }
  }

  lemma OptStmtBuilt(s: Stmt)
    ensures Built(OptStmt(s))
  {
    match s
    case Block(b) =>
      var (st', la) := LabelPull(OptSeq(b));
      LabelsBuilt(la);
      JoinBuilt([Block(st')], la);
    case If(c, t, e) =>
      var (t', la) := LabelPull(OptSeq(t));
      var (e', lb) := LabelPull(OptSeq(e));
      LabelsBuilt(la);
      LabelsBuilt(lb);
      JoinBuilt([If(c, t', e')], la);
      JoinBuilt(PairOpt([If(c, t', e')], la), lb);
    case Switch(c, arms) =>
      PulledBuilt(OptArms(arms));
      var (arms', ls) := PullArms(OptArms(arms));
      JoinBuilt([Switch(c, arms')], ls);
    case _ =>
  }

  lemma {:induction false} PulledBuilt(arms: seq<Arm>)
    ensures Built(PullArms(arms).1)
  {
    if arms != [] {
      PulledBuilt(arms[1..]);
      LabelsBuilt(LabelPull(arms[0].body).1);
      JoinBuilt(LabelPull(arms[0].body).1, PullArms(arms[1..]).1);
    }
  }

  /** The whole construction keeps the meaning of clean bodies. */
  lemma CleanRunsAlike<S(!new)>(m: Machine<S>, p: seq<Stmt>, at: Option<nat>, s: S, r: Result<S>)
    requires Unique(Labels(p)) && CleanSeq(p)
    ensures Yields(m, p, at, s, r) <==> Yields(m, OptSeq(p), at, s, r)
  {
    hide Same, Yields, OptSeq, CleanSeq;
    OptSeqEquiv(p);
    var n: nat :| Leads(n, p, OptSeq(p));
    LeadsYields(n, m, p, OptSeq(p), at, s, r);
  }

  // ----- and of no others

  /** A run stops for want of a label only if the body does not define it. */
  lemma {:induction false} NoLabelMissing<S>(m: Machine<S>, p: seq<Stmt>, ss: seq<Stmt>, s: S, n: nat)
    requires Run(false, m, p, ss, s, n).Some? && Run(false, m, p, ss, s, n).value.NoLabel?
    ensures Find(Run(false, m, p, ss, s, n).value.l, p).None?
    decreases n, WeightSeq(ss)
  {
    if ss != [] {
      RunSteps(false, m, p, ss, s, n);
      if Next(m, ss, s).Some? {
        var (ss', s') := Next(m, ss, s).value;
        hide Run, Next, JumpsTo;
        NoLabelMissing(m, p, ss', s', n);
      } else if JumpsTo(m, ss, s).Some? {
        var (l, s') := JumpsTo(m, ss, s).value;
        hide Next, JumpsTo;
        if Find(l, p).Some? { NoLabelMissing(m, p, Find(l, p).value, s', n - 1); }
      }
    }
  }

  /** A body that defines a label can be entered there, one that does not cannot. */
  lemma EnteredIff<S(!new)>(m: Machine<S>, p: seq<Stmt>, l: nat, s: S)
    ensures Yields(m, p, Some(l), s, NoLabel(l, s)) <==> l !in Labels(p)
  {
    FindIsAfter(false, l, p, End);
    FoundIffPresent(false, l, p, End);
    if l in Labels(p) {
      if n: nat :| RunFrom(false, m, p, Some(l), s, n) == Some(NoLabel(l, s)) {
        NoLabelMissing(m, p, Find(l, p).value, s, n - 1);
      }
    } else {
      assert RunFrom(false, m, p, Some(l), s, 0) == Some(NoLabel(l, s));
    }
  }

  /** The whole construction keeps the meaning, so that from the entry and from every label
      the optimised body yields exactly what the plain one yields, if and only if no label
      stands behind a goto or return where it is dropped. */
  lemma OptimisedRunsAlike<S(!new)>(m: Machine<S>, p: seq<Stmt>, s: S)
    requires Unique(Labels(p))
    ensures (forall at: Option<nat>, r: Result<S> :: Yields(m, p, at, s, r) <==> Yields(m, OptSeq(p), at, s, r)) <==> NothingLost(p)
  {
    hide *;
    NothingLostIsClean(p);
    if NothingLost(p) {
      forall at: Option<nat>, r: Result<S>
        ensures Yields(m, p, at, s, r) <==> Yields(m, OptSeq(p), at, s, r)
      {
        CleanRunsAlike(m, p, at, s, r);
      }
    } else {
      var l := LostLabel(p);
      EnteredIff(m, p, l, s);
      EnteredIff(m, OptSeq(p), l, s);
    }
  }
}
