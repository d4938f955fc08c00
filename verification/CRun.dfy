/** Running C statements step by step, and why equal control flow means equal runs. */
module CRun {
  import opened Common
  import opened CStatements
  import opened CFlow

  /** What drawn text does: go on, jump to a label outside it, or return. */
  datatype Outcome<S> = Fall(s: S) | Leap(l: nat, s: S) | Leave(e: nat, s: S)

  datatype Result<S> = Finished(s: S) | Returned(e: nat, s: S) | NoLabel(l: nat, s: S) | FellOff(s: S)

  /** The meaning of drawn text and of conditions. */
  datatype Machine<!S> = Machine(act: (nat, S) -> Outcome<S>, eval: (nat, S) -> (nat, S))

  function Weight(s: Stmt): (w: nat)
    ensures w > 0
  {
    match s
    case Block(b) => 1 + WeightSeq(b)
    case If(_, t, e) => 1 + WeightSeq(t) + WeightSeq(e)
    case Switch(_, arms) => 1 + WeightArms(arms)
    case _ => 1
  }

  function WeightSeq(ss: seq<Stmt>): nat { if ss == [] then 0 else Weight(ss[0]) + WeightSeq(ss[1..]) }

  function WeightArms(arms: seq<Arm>): nat { if arms == [] then 0 else WeightSeq(arms[0].body) + WeightArms(arms[1..]) }

  lemma {:induction false} WeightAppend(a: seq<Stmt>, b: seq<Stmt>)
    ensures WeightSeq(a + b) == WeightSeq(a) + WeightSeq(b)
  {
    if a == [] {
      assert a + b == b;
    } else {
      assert (a + b)[1..] == a[1..] + b;
      WeightAppend(a[1..], b);
    }
  }

  lemma {:induction false} WeightOfArm(arms: seq<Arm>, i: nat)
    requires i < |arms|
    ensures WeightSeq(arms[i].body) <= WeightArms(arms)
  {
    if i > 0 { WeightOfArm(arms[1..], i - 1); }
  }

  /** What is left to run behind label `l`, wherever inside `ss` it stands. */
  function Find(l: nat, ss: seq<Stmt>): Option<seq<Stmt>>
    decreases ss
  {
    if ss == [] then None
    else
      match FindIn(l, ss[0])
      case Some(r) => Some(r + ss[1..])
      case None => Find(l, ss[1..])
  }

  function FindIn(l: nat, s: Stmt): Option<seq<Stmt>>
    decreases s
  {
    match s
    case Label(m) => if l == m then Some([]) else None
    case Block(b) => Find(l, b)
    case If(_, t, e) => var r := Find(l, t); if r.Some? then r else Find(l, e)
    case Switch(_, arms) => FindArms(l, arms)
    case _ => None
  }

  function FindArms(l: nat, arms: seq<Arm>): Option<seq<Stmt>>
    decreases arms
  {
    if arms == [] then None
    else
      var r := Find(l, arms[0].body);
      if r.Some? then r else FindArms(l, arms[1..])
  }

  /** The case a switch takes: the one with the value, else the default, else none. */
  function IndexOf(tags: seq<Option<nat>>, t: Option<nat>): (i: nat)
    ensures i <= |tags|
  {
    if tags == [] || tags[0] == t then 0 else 1 + IndexOf(tags[1..], t)
  }

  function Pick(tags: seq<Option<nat>>, v: nat): (i: nat)
    ensures i <= |tags|
  {
    var i := IndexOf(tags, Some(v));
    if i < |tags| then i else IndexOf(tags, None)
  }

  ghost predicate FirstWith(tags: seq<Option<nat>>, t: Option<nat>, i: nat) {
    i < |tags| && tags[i] == t && forall j | 0 <= j < i :: tags[j] != t
  }

  lemma {:induction false} IndexOfIsFirst(tags: seq<Option<nat>>, t: Option<nat>)
    ensures if t in tags then FirstWith(tags, t, IndexOf(tags, t)) else IndexOf(tags, t) == |tags|
  {
    if tags != [] && tags[0] != t {
      IndexOfIsFirst(tags[1..], t);
      assert t in tags <==> t in tags[1..];
    }
  }

  lemma PickIs(tags: seq<Option<nat>>, v: nat)
    ensures var i := Pick(tags, v);
      if Some(v) in tags then FirstWith(tags, Some(v), i) else if None in tags then FirstWith(tags, None, i) else i == |tags|
  {
    IndexOfIsFirst(tags, Some(v));
    IndexOfIsFirst(tags, None);
  }

  /** Run `ss` inside the function body `p`, with at most `n` jumps. A label does nothing;
      with `jl` running into one is counted like a jump. */
  function Run<S>(jl: bool, m: Machine<S>, p: seq<Stmt>, ss: seq<Stmt>, s: S, n: nat): Option<Result<S>>
    decreases n, WeightSeq(ss)
  {
    if ss == [] then Some(Finished(s))
    else
      match ss[0]
      case Act(a) => (
        match m.act(a, s)
        case Fall(s') => Run(jl, m, p, ss[1..], s', n)
        case Leap(l, s') => RunJump(jl, m, p, l, s', n)
        case Leave(e, s') => Some(Returned(e, s')))
      case Goto(l) => RunJump(jl, m, p, l, s, n)
      case Label(l) => if !jl then Run(jl, m, p, ss[1..], s, n) else if n == 0 then None else Run(jl, m, p, ss[1..], s, n - 1)
      case Ret(e) => Some(Returned(e, s))
      case Block(b) =>
        WeightAppend(b, ss[1..]);
        assert Weight(ss[0]) == 1 + WeightSeq(b);
        Run(jl, m, p, b + ss[1..], s, n)
      case If(c, t, e) =>
        WeightAppend(t, ss[1..]);
        WeightAppend(e, ss[1..]);
        assert Weight(ss[0]) == 1 + WeightSeq(t) + WeightSeq(e);
        var (v, s') := m.eval(c, s);
        Run(jl, m, p, (if v != 0 then t else e) + ss[1..], s', n)
      case Switch(c, arms) =>
        var (v, s') := m.eval(c, s);
        var i := Pick(Tags(arms), v);
        if i == |arms| then Some(FellOff(s'))
        else
          WeightOfArm(arms, i);
          WeightAppend(arms[i].body, ss[1..]);
          assert Weight(ss[0]) == 1 + WeightArms(arms);
          Run(jl, m, p, arms[i].body + ss[1..], s', n)
  }

  function RunJump<S>(jl: bool, m: Machine<S>, p: seq<Stmt>, l: nat, s: S, n: nat): Option<Result<S>>
    decreases n, 0
  {
    match Find(l, p)
    case None => Some(NoLabel(l, s))
    case Some(k) => if n == 0 then None else Run(jl, m, p, k, s, n - 1)
  }

  /** The same on control flow. */
  function RunFlow<S>(jl: bool, m: Machine<S>, p: seq<Stmt>, f: Flow, s: S, n: nat): Option<Result<S>>
    decreases n, 1, f
  {
    match f
    case End => Some(Finished(s))
    case Jump(l) => FlowJump(jl, m, p, l, s, n)
    case Exit(e) => Some(Returned(e, s))
    case Do(a, next) => (
      match m.act(a, s)
      case Fall(s') => RunFlow(jl, m, p, next, s', n)
      case Leap(l, s') => FlowJump(jl, m, p, l, s', n)
      case Leave(e, s') => Some(Returned(e, s')))
    case Branch(c, t, e) =>
      var (v, s') := m.eval(c, s);
      if v != 0 then RunFlow(jl, m, p, t, s', n) else RunFlow(jl, m, p, e, s', n)
    case Choose(c, tags, arms) =>
      var (v, s') := m.eval(c, s);
      var i := Pick(tags, v);
      if i >= |arms| then Some(FellOff(s')) else RunFlow(jl, m, p, arms[i], s', n)
  }

  function FlowJump<S>(jl: bool, m: Machine<S>, p: seq<Stmt>, l: nat, s: S, n: nat): Option<Result<S>>
    decreases n, 0
  {
    match After(jl, l, p, End)
    case None => Some(NoLabel(l, s))
    case Some(f) => if n == 0 then None else RunFlow(jl, m, p, f, s, n - 1)
  }

  // ----- where a label leads, as statements and as flow

  lemma {:induction false} FindIsAfter(jl: bool, l: nat, ss: seq<Stmt>, k: Flow)
    ensures Find(l, ss).Some? <==> After(jl, l, ss, k).Some?
    ensures Find(l, ss).Some? ==> After(jl, l, ss, k).value == FlowOf(jl, Find(l, ss).value, k)
    decreases ss
  {
    if ss != [] {
      FindInIsAfter(jl, l, ss[0], FlowOf(jl, ss[1..], k));
      FindIsAfter(jl, l, ss[1..], k);
      if FindIn(l, ss[0]).Some? { FlowAppend(jl, FindIn(l, ss[0]).value, ss[1..], k); }
    }
  }

  lemma {:induction false} FindInIsAfter(jl: bool, l: nat, s: Stmt, k: Flow)
    ensures FindIn(l, s).Some? <==> AfterIn(jl, l, s, k).Some?
    ensures FindIn(l, s).Some? ==> AfterIn(jl, l, s, k).value == FlowOf(jl, FindIn(l, s).value, k)
    decreases s
  {
    match s
    case Block(b) => FindIsAfter(jl, l, b, k);
    case If(_, t, e) => FindIsAfter(jl, l, t, k); FindIsAfter(jl, l, e, k);
    case Switch(_, arms) => FindArmsIsAfter(jl, l, arms, k);
    case _ =>
  }

  lemma {:induction false} FindArmsIsAfter(jl: bool, l: nat, arms: seq<Arm>, k: Flow)
    ensures FindArms(l, arms).Some? <==> AfterArms(jl, l, arms, k).Some?
    ensures FindArms(l, arms).Some? ==> AfterArms(jl, l, arms, k).value == FlowOf(jl, FindArms(l, arms).value, k)
    decreases arms
  {
    if arms != [] {
      FindIsAfter(jl, l, arms[0].body, k);
      FindArmsIsAfter(jl, l, arms[1..], k);
    }
  }

  // ----- what is left to run is a part of the body

  /** Each label still ahead leads where it leads in the whole body. */
  ghost predicate Fits(jl: bool, p: seq<Stmt>, ss: seq<Stmt>) {
    && Unique(Labels(ss))
    && forall l :: l in Labels(ss) ==> After(jl, l, ss, End) == After(jl, l, p, End)
  }

  lemma FitsTail(jl: bool, p: seq<Stmt>, ss: seq<Stmt>)
    requires ss != [] && Fits(jl, p, ss)
    ensures Fits(jl, p, ss[1..])
  {
    forall l
      ensures Labels(ss[1..])[l] <= 1
    {
      assert Labels(ss)[l] <= 1;
    }
    forall l | l in Labels(ss[1..])
      ensures After(jl, l, ss[1..], End) == After(jl, l, p, End)
    {
      assert l in Labels(ss) && Labels(ss)[l] <= 1;
      FoundIn(jl, l, ss[0], FlowOf(jl, ss[1..], End));
    }
  }

  /** Going into a part `b` of the first statement. */
  lemma FitsInto(jl: bool, p: seq<Stmt>, ss: seq<Stmt>, b: seq<Stmt>)
    requires ss != [] && Fits(jl, p, ss) && Labels(b) <= LabelsOf(ss[0])
    requires forall l | l in Labels(b) :: After(jl, l, b, FlowOf(jl, ss[1..], End)) == AfterIn(jl, l, ss[0], FlowOf(jl, ss[1..], End))
    ensures Fits(jl, p, b + ss[1..])
  {
    FitsTail(jl, p, ss);
    LabelsAppend(b, ss[1..]);
    forall l
      ensures Labels(b + ss[1..])[l] <= 1
    {
      assert Labels(ss)[l] <= 1;
    }
    forall l | l in Labels(b + ss[1..])
      ensures After(jl, l, b + ss[1..], End) == After(jl, l, p, End)
    {
      AfterAppend(jl, l, b, ss[1..], End);
      FoundIffPresent(jl, l, b, FlowOf(jl, ss[1..], End));
      assert l in Labels(ss) && Labels(ss)[l] <= 1;
      FoundIn(jl, l, ss[0], FlowOf(jl, ss[1..], End));
    }
  }

  lemma {:induction false} ArmLabels(jl: bool, arms: seq<Arm>, i: nat, l: nat, k: Flow)
    requires i < |arms| && Unique(LabelsOfArms(arms))
    ensures Labels(arms[i].body) <= LabelsOfArms(arms)
    ensures l in Labels(arms[i].body) ==> AfterArms(jl, l, arms, k) == After(jl, l, arms[i].body, k)
    ensures FlowArms(jl, arms, k)[i] == FlowOf(jl, arms[i].body, k)
  {
    hide FlowOf, After, Labels, Unique;
    FoundIffPresent(jl, l, arms[0].body, k);
    if i > 0 {
      UniqueSum(Labels(arms[0].body), LabelsOfArms(arms[1..]));
      ArmLabels(jl, arms[1..], i - 1, l, k);
    }
  }

  lemma ArmAsPart(jl: bool, arms: seq<Arm>, i: nat, k: Flow)
    requires i < |arms| && Unique(LabelsOfArms(arms))
    ensures Labels(arms[i].body) <= LabelsOfArms(arms)
    ensures forall l | l in Labels(arms[i].body) :: AfterArms(jl, l, arms, k) == After(jl, l, arms[i].body, k)
    ensures FlowArms(jl, arms, k)[i] == FlowOf(jl, arms[i].body, k)
  {
    hide FlowOf, FlowArms, After, AfterArms, Labels, LabelsOfArms, Unique;
    ArmLabels(jl, arms, i, 0, k);
    forall l | l in Labels(arms[i].body)
      ensures AfterArms(jl, l, arms, k) == After(jl, l, arms[i].body, k)
    {
      ArmLabels(jl, arms, i, l, k);
    }
  }

  /** What stands behind a label fits as well: by induction on where it stands. */
  lemma {:induction false} BehindKeeps(jl: bool, l: nat, x: nat, ss: seq<Stmt>, k: Flow)
    requires Unique(Labels(ss)) && Find(l, ss).Some?
    ensures Labels(Find(l, ss).value) <= Labels(ss)
    ensures x in Labels(Find(l, ss).value) ==> After(jl, x, Find(l, ss).value, k) == After(jl, x, ss, k)
    decreases ss
  {
    UniqueParts(ss);
    var k' := FlowOf(jl, ss[1..], k);
    assert Labels(ss)[x] <= 1;
    FoundIn(jl, x, ss[0], k');
    if FindIn(l, ss[0]).Some? {
      var r := FindIn(l, ss[0]).value;
      BehindInKeeps(jl, l, x, ss[0], k');
      LabelsAppend(r, ss[1..]);
      AfterAppend(jl, x, r, ss[1..], k);
      FoundIffPresent(jl, x, r, k');
    } else {
      BehindKeeps(jl, l, x, ss[1..], k);
    }
  }

  lemma UniqueParts(ss: seq<Stmt>)
    requires Unique(Labels(ss)) && ss != []
    ensures Unique(LabelsOf(ss[0])) && Unique(Labels(ss[1..]))
  {
    forall x
      ensures LabelsOf(ss[0])[x] <= 1 && Labels(ss[1..])[x] <= 1
    {
      assert Labels(ss)[x] <= 1;
    }
  }

  lemma UniqueSum(a: multiset<nat>, b: multiset<nat>)
    requires Unique(a + b)
    ensures Unique(a) && Unique(b)
    ensures forall x | x in a :: x !in b
  {
    forall x
      ensures a[x] <= 1 && b[x] <= 1 && (x in a ==> x !in b)
    {
      assert (a + b)[x] <= 1;
    }
  }

  lemma {:induction false} BehindInKeeps(jl: bool, l: nat, x: nat, s: Stmt, k: Flow)
    requires Unique(LabelsOf(s)) && FindIn(l, s).Some?
    ensures Labels(FindIn(l, s).value) <= LabelsOf(s)
    ensures x in Labels(FindIn(l, s).value) ==> After(jl, x, FindIn(l, s).value, k) == AfterIn(jl, x, s, k)
    decreases s
  {
    match s
    case Block(b) => BehindKeeps(jl, l, x, b, k);
    case If(_, t, e) =>
      UniqueSum(Labels(t), Labels(e));
      FoundIffPresent(jl, x, t, k);
      if Find(l, t).Some? {
        BehindKeeps(jl, l, x, t, k);
      } else {
        BehindKeeps(jl, l, x, e, k);
      }
    case Switch(_, arms) => BehindArmsKeeps(jl, l, x, arms, k);
    case _ =>
  }

  lemma {:induction false} BehindArmsKeeps(jl: bool, l: nat, x: nat, arms: seq<Arm>, k: Flow)
    requires Unique(LabelsOfArms(arms)) && FindArms(l, arms).Some?
    ensures Labels(FindArms(l, arms).value) <= LabelsOfArms(arms)
    ensures x in Labels(FindArms(l, arms).value) ==> After(jl, x, FindArms(l, arms).value, k) == AfterArms(jl, x, arms, k)
    decreases arms
  {
    UniqueSum(Labels(arms[0].body), LabelsOfArms(arms[1..]));
    FoundIffPresent(jl, x, arms[0].body, k);
    if Find(l, arms[0].body).Some? {
      BehindKeeps(jl, l, x, arms[0].body, k);
    } else {
      BehindArmsKeeps(jl, l, x, arms[1..], k);
    }
  }

  lemma BehindFits(jl: bool, l: nat, p: seq<Stmt>)
    requires Unique(Labels(p)) && Find(l, p).Some?
    ensures Fits(jl, p, Find(l, p).value)
  {
    var r := Find(l, p).value;
    forall x
      ensures Labels(r)[x] <= 1 && (x in Labels(r) ==> After(jl, x, r, End) == After(jl, x, p, End))
    {
      BehindKeeps(jl, l, x, p, End);
      assert Labels(p)[x] <= 1;
    }
  }

  // ----- running statements is running their control flow

  lemma {:induction false} RunIsFlow<S>(jl: bool, m: Machine<S>, p: seq<Stmt>, ss: seq<Stmt>, s: S, n: nat)
    requires Unique(Labels(p)) && Fits(jl, p, ss)
    ensures Run(jl, m, p, ss, s, n) == RunFlow(jl, m, p, FlowOf(jl, ss, End), s, n)
    decreases n, WeightSeq(ss), 2
  {
    if ss != [] {
      FitsTail(jl, p, ss);
      match ss[0]
      case Act(a) =>
        match m.act(a, s) {
          case Fall(s') => RunIsFlow(jl, m, p, ss[1..], s', n);
          case Leap(l, s') => JumpIsFlow(jl, m, p, l, s', n);
          case Leave(e, s') =>
        }
      case Goto(l) => JumpIsFlow(jl, m, p, l, s, n);
      case Label(l) => LabelIsFlow(jl, m, p, ss, s, n);
      case Ret(e) =>
      case Block(b) => InsideIsFlow(jl, m, p, ss, b, s, n);
      case If(c, t, e) => IfIsFlow(jl, m, p, ss, s, n);
      case Switch(c, arms) => SwitchIsFlow(jl, m, p, ss, s, n);
    }
  }

  /** Labels lead the same way in a branch as in the whole if. */
  lemma IfAsPart(jl: bool, c: nat, t: seq<Stmt>, e: seq<Stmt>, thn: bool, k: Flow)
    requires Unique(LabelsOf(If(c, t, e)))
    ensures var b := if thn then t else e;
      && Labels(b) <= LabelsOf(If(c, t, e))
      && forall l | l in Labels(b) :: AfterIn(jl, l, If(c, t, e), k) == After(jl, l, b, k)
  {
    hide Labels, After;
    UniqueSum(Labels(t), Labels(e));
    forall l | l in Labels(if thn then t else e)
      ensures AfterIn(jl, l, If(c, t, e), k) == After(jl, l, if thn then t else e, k)
    {
      FoundIffPresent(jl, l, t, k);
    }
  }

  lemma {:induction false} IfIsFlow<S>(jl: bool, m: Machine<S>, p: seq<Stmt>, ss: seq<Stmt>, s: S, n: nat)
    requires Unique(Labels(p)) && Fits(jl, p, ss) && ss != [] && ss[0].If?
    ensures Run(jl, m, p, ss, s, n) == RunFlow(jl, m, p, FlowOf(jl, ss, End), s, n)
    decreases n, WeightSeq(ss), 1
  {
    var If(c, t, e) := ss[0];
    var k := FlowOf(jl, ss[1..], End);
    assert FlowOf(jl, ss, End) == Branch(c, FlowOf(jl, t, k), FlowOf(jl, e, k));
    assert ss[0] == If(c, t, e);
    assert Weight(If(c, t, e)) == 1 + WeightSeq(t) + WeightSeq(e);
    hide FlowOf, After, AfterIn, Labels, LabelsOf, Unique, Fits, Weight, WeightSeq;
    UniqueParts(ss);
    var (v, s') := m.eval(c, s);
    IfAsPart(jl, c, t, e, v != 0, k);
    InsideIsFlow(jl, m, p, ss, if v != 0 then t else e, s', n);
  }

  lemma {:induction false} SwitchIsFlow<S>(jl: bool, m: Machine<S>, p: seq<Stmt>, ss: seq<Stmt>, s: S, n: nat)
    requires Unique(Labels(p)) && Fits(jl, p, ss) && ss != [] && ss[0].Switch?
    ensures Run(jl, m, p, ss, s, n) == RunFlow(jl, m, p, FlowOf(jl, ss, End), s, n)
    decreases n, WeightSeq(ss), 1
  {
    var Switch(c, arms) := ss[0];
    assert FlowOf(jl, ss, End) == Choose(c, Tags(arms), FlowArms(jl, arms, FlowOf(jl, ss[1..], End)));
    assert ss[0] == Switch(c, arms);
    assert Weight(Switch(c, arms)) == 1 + WeightArms(arms);
    assert LabelsOf(Switch(c, arms)) == LabelsOfArms(arms);
    hide FlowOf, FlowArms, After, Labels, LabelsOf, LabelsOfArms, Unique, Fits, Weight, WeightSeq, WeightArms;
    var (v, s') := m.eval(c, s);
    var i := Pick(Tags(arms), v);
    if i < |arms| {
      var k := FlowOf(jl, ss[1..], End);
      UniqueParts(ss);
      ArmAsPart(jl, arms, i, k);
      WeightOfArm(arms, i);
      InsideIsFlow(jl, m, p, ss, arms[i].body, s', n);
    }
  }

  lemma {:induction false} InsideIsFlow<S>(jl: bool, m: Machine<S>, p: seq<Stmt>, ss: seq<Stmt>, b: seq<Stmt>, s: S, n: nat)
    requires Unique(Labels(p)) && Fits(jl, p, ss) && ss != [] && WeightSeq(b) < Weight(ss[0])
    requires Labels(b) <= LabelsOf(ss[0])
    requires forall l | l in Labels(b) :: After(jl, l, b, FlowOf(jl, ss[1..], End)) == AfterIn(jl, l, ss[0], FlowOf(jl, ss[1..], End))
    ensures Run(jl, m, p, b + ss[1..], s, n) == RunFlow(jl, m, p, FlowOf(jl, b, FlowOf(jl, ss[1..], End)), s, n)
    decreases n, WeightSeq(ss), 0
  {
    FitsInto(jl, p, ss, b);
    WeightAppend(b, ss[1..]);
    FlowAppend(jl, b, ss[1..], End);
    RunIsFlow(jl, m, p, b + ss[1..], s, n);
  }

  lemma {:induction false} LabelIsFlow<S>(jl: bool, m: Machine<S>, p: seq<Stmt>, ss: seq<Stmt>, s: S, n: nat)
    requires Unique(Labels(p)) && Fits(jl, p, ss) && ss != [] && ss[0].Label?
    ensures Run(jl, m, p, ss, s, n) == RunFlow(jl, m, p, FlowOf(jl, ss, End), s, n)
    decreases n, WeightSeq(ss), 0
  {
    FitsTail(jl, p, ss);
    var l := ss[0].l;
    assert ss[0] == Label(l) && LabelsOf(Label(l)) == multiset{l};
    assert AfterIn(jl, l, Label(l), FlowOf(jl, ss[1..], End)).Some?;
    assert l in Labels(ss) && After(jl, l, ss, End) == Some(FlowOf(jl, ss[1..], End));
    if !jl {
      RunIsFlow(jl, m, p, ss[1..], s, n);
    } else if n > 0 {
      RunIsFlow(jl, m, p, ss[1..], s, n - 1);
    }
  }

  lemma {:induction false} JumpIsFlow<S>(jl: bool, m: Machine<S>, p: seq<Stmt>, l: nat, s: S, n: nat)
    requires Unique(Labels(p))
    ensures RunJump(jl, m, p, l, s, n) == FlowJump(jl, m, p, l, s, n)
    decreases n, 0
  {
    FindIsAfter(jl, l, p, End);
    if Find(l, p).Some? && n > 0 {
      BehindFits(jl, l, p);
      RunIsFlow(jl, m, p, Find(l, p).value, s, n - 1);
    }
  }

  // ----- equal flow, equal runs

  lemma {:induction false} SameFlowRuns<S>(jl: bool, m: Machine<S>, p: seq<Stmt>, q: seq<Stmt>, f: Flow, s: S, n: nat)
    requires Same(jl, p, q)
    ensures RunFlow(jl, m, p, f, s, n) == RunFlow(jl, m, q, f, s, n)
    decreases n, 1, f
  {
    match f
    case Jump(l) => SameJumps(jl, m, p, q, l, s, n);
    case Do(a, next) => {
      match m.act(a, s)
      case Fall(s') => SameFlowRuns(jl, m, p, q, next, s', n);
      case Leap(l, s') => SameJumps(jl, m, p, q, l, s', n);
      case Leave(e, s') =>
    }
    case Branch(c, t, e) => SameFlowRuns(jl, m, p, q, if m.eval(c, s).0 != 0 then t else e, m.eval(c, s).1, n);
    case Choose(c, tags, arms) =>
      var i := Pick(tags, m.eval(c, s).0);
      if i < |arms| { SameFlowRuns(jl, m, p, q, arms[i], m.eval(c, s).1, n); }
    case _ =>
  }

  lemma {:induction false} SameJumps<S>(jl: bool, m: Machine<S>, p: seq<Stmt>, q: seq<Stmt>, l: nat, s: S, n: nat)
    requires Same(jl, p, q)
    ensures FlowJump(jl, m, p, l, s, n) == FlowJump(jl, m, q, l, s, n)
    decreases n, 0
  {
    assert After(jl, l, p, End) == After(jl, l, q, End);
    match After(jl, l, p, End)
    case None =>
    case Some(f) => if n > 0 { SameFlowRuns(jl, m, p, q, f, s, n - 1); }
  }

  /** A run of the function body from its entry or, with `at`, from a label. */
  function RunFrom<S>(jl: bool, m: Machine<S>, p: seq<Stmt>, at: Option<nat>, s: S, n: nat): Option<Result<S>> {
    match at
    case None => Run(jl, m, p, p, s, n)
    case Some(l) => RunJump(jl, m, p, l, s, n)
  }

  /** Bodies with the same control flow run alike, jump for jump. */
  lemma SameRuns<S>(jl: bool, m: Machine<S>, p: seq<Stmt>, q: seq<Stmt>, at: Option<nat>, s: S, n: nat)
    requires Same(jl, p, q) && Unique(Labels(p))
    ensures RunFrom(jl, m, p, at, s, n) == RunFrom(jl, m, q, at, s, n)
  {
    match at
    case None =>
      RunIsFlow(jl, m, p, p, s, n);
      RunIsFlow(jl, m, q, q, s, n);
      assert FlowOf(jl, p, End) == FlowOf(jl, q, End);
      SameFlowRuns(jl, m, p, q, FlowOf(jl, p, End), s, n);
    case Some(l) =>
      JumpIsFlow(jl, m, p, l, s, n);
      JumpIsFlow(jl, m, q, l, s, n);
      SameJumps(jl, m, p, q, l, s, n);
  }
}
