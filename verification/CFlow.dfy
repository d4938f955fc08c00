/** The control flow of C statements: from the entry and from every label, the tree of
    what happens up to the next jump. */
module CFlow {
  import opened Common
  import opened CStatements

  datatype Flow =
    | End
    | Jump(l: nat)
    | Exit(e: nat)
    | Do(a: nat, next: Flow)
    | Branch(c: nat, thn: Flow, els: Flow)
    | Choose(c: nat, tags: seq<Option<nat>>, arms: seq<Flow>)

  /** The flow of `ss` when `k` follows it. Running into a label is the same as jumping to
      it; with `jl` it is written as that jump, without `jl` as what stands behind it. */
  function FlowOf(jl: bool, ss: seq<Stmt>, k: Flow): Flow
    decreases ss
  {
    if ss == [] then k
    else
      match ss[0]
      case Act(a) => Do(a, FlowOf(jl, ss[1..], k))
      case Goto(l) => Jump(l)
      case Label(l) => if jl then Jump(l) else FlowOf(jl, ss[1..], k)
      case Ret(e) => Exit(e)
      case Block(b) => FlowOf(jl, b, FlowOf(jl, ss[1..], k))
      case If(c, t, e) => Branch(c, FlowOf(jl, t, FlowOf(jl, ss[1..], k)), FlowOf(jl, e, FlowOf(jl, ss[1..], k)))
      case Switch(c, arms) => Choose(c, Tags(arms), FlowArms(jl, arms, FlowOf(jl, ss[1..], k)))
  }

  function Tags(arms: seq<Arm>): (r: seq<Option<nat>>)
    ensures |r| == |arms|
  {
    if arms == [] then [] else [arms[0].tag] + Tags(arms[1..])
  }

  function FlowArms(jl: bool, arms: seq<Arm>, k: Flow): (r: seq<Flow>)
    ensures |r| == |arms|
    decreases arms
  {
    if arms == [] then [] else [FlowOf(jl, arms[0].body, k)] + FlowArms(jl, arms[1..], k)
  }

  /** The flow behind label `l`, wherever inside `ss` it stands. */
  function After(jl: bool, l: nat, ss: seq<Stmt>, k: Flow): Option<Flow>
    decreases ss
  {
    if ss == [] then None
    else
      var here := AfterIn(jl, l, ss[0], FlowOf(jl, ss[1..], k));
      if here.Some? then here else After(jl, l, ss[1..], k)
  }

  function AfterIn(jl: bool, l: nat, s: Stmt, k: Flow): Option<Flow>
    decreases s
  {
    match s
    case Label(m) => if l == m then Some(k) else None
    case Block(b) => After(jl, l, b, k)
    case If(_, t, e) => var r := After(jl, l, t, k); if r.Some? then r else After(jl, l, e, k)
    case Switch(_, arms) => AfterArms(jl, l, arms, k)
    case _ => None
  }

  function AfterArms(jl: bool, l: nat, arms: seq<Arm>, k: Flow): Option<Flow>
    decreases arms
  {
    if arms == [] then None
    else
      var r := After(jl, l, arms[0].body, k);
      if r.Some? then r else AfterArms(jl, l, arms[1..], k)
  }

  lemma {:induction false} FlowAppend(jl: bool, a: seq<Stmt>, b: seq<Stmt>, k: Flow)
    ensures FlowOf(jl, a + b, k) == FlowOf(jl, a, FlowOf(jl, b, k))
  {
    if a == [] {
      assert a + b == b;
    } else {
      assert (a + b)[1..] == a[1..] + b;
      FlowAppend(jl, a[1..], b, k);
    }
  }

  lemma {:induction false} AfterAppend(jl: bool, l: nat, a: seq<Stmt>, b: seq<Stmt>, k: Flow)
    ensures After(jl, l, a + b, k) == (var r := After(jl, l, a, FlowOf(jl, b, k)); if r.Some? then r else After(jl, l, b, k))
  {
    if a == [] {
      assert a + b == b;
    } else {
      assert (a + b)[1..] == a[1..] + b;
      FlowAppend(jl, a[1..], b, k);
      AfterAppend(jl, l, a[1..], b, k);
    }
  }

  /** A label is found exactly where it stands. */
  lemma {:induction false} FoundIffPresent(jl: bool, l: nat, ss: seq<Stmt>, k: Flow)
    ensures After(jl, l, ss, k).Some? <==> l in Labels(ss)
    decreases ss
  {
    if ss != [] {
      FoundIn(jl, l, ss[0], FlowOf(jl, ss[1..], k));
      FoundIffPresent(jl, l, ss[1..], k);
    }
  }

  lemma {:induction false} FoundIn(jl: bool, l: nat, s: Stmt, k: Flow)
    ensures AfterIn(jl, l, s, k).Some? <==> l in LabelsOf(s)
    decreases s
  {
    match s
    case Block(b) => FoundIffPresent(jl, l, b, k);
    case If(_, t, e) => FoundIffPresent(jl, l, t, k); FoundIffPresent(jl, l, e, k);
    case Switch(_, arms) => FoundArms(jl, l, arms, k);
    case _ =>
  }

  lemma {:induction false} FoundArms(jl: bool, l: nat, arms: seq<Arm>, k: Flow)
    ensures AfterArms(jl, l, arms, k).Some? <==> l in LabelsOfArms(arms)
    decreases arms
  {
    if arms != [] {
      FoundIffPresent(jl, l, arms[0].body, k);
      FoundArms(jl, l, arms[1..], k);
    }
  }

  /** The same control flow, from the entry and from every label, whatever follows. */
  ghost predicate Same(jl: bool, a: seq<Stmt>, b: seq<Stmt>) {
    && Labels(a) == Labels(b)
    && (forall k :: FlowOf(jl, a, k) == FlowOf(jl, b, k))
    && (forall l, k :: After(jl, l, a, k) == After(jl, l, b, k))
  }

  // ----- the same flow stays the same in every context

  lemma SameAppend(jl: bool, a: seq<Stmt>, b: seq<Stmt>, c: seq<Stmt>)
    requires Same(jl, a, b)
    ensures Same(jl, a + c, b + c)
  {
    LabelsAppend(a, c);
    LabelsAppend(b, c);
    forall k
      ensures FlowOf(jl, a + c, k) == FlowOf(jl, b + c, k)
    {
      FlowAppend(jl, a, c, k);
      FlowAppend(jl, b, c, k);
    }
    forall l, k
      ensures After(jl, l, a + c, k) == After(jl, l, b + c, k)
    {
      AfterAppend(jl, l, a, c, k);
      AfterAppend(jl, l, b, c, k);
    }
  }

  lemma SamePrepend(jl: bool, a: seq<Stmt>, b: seq<Stmt>, c: seq<Stmt>)
    requires Same(jl, a, b)
    ensures Same(jl, c + a, c + b)
  {
    LabelsAppend(c, a);
    LabelsAppend(c, b);
    forall k
      ensures FlowOf(jl, c + a, k) == FlowOf(jl, c + b, k)
    {
      FlowAppend(jl, c, a, k);
      FlowAppend(jl, c, b, k);
    }
    forall l, k
      ensures After(jl, l, c + a, k) == After(jl, l, c + b, k)
    {
      AfterAppend(jl, l, c, a, k);
      AfterAppend(jl, l, c, b, k);
    }
  }

  lemma SameStmt(jl: bool, s: Stmt, s': Stmt)
    requires LabelsOf(s) == LabelsOf(s')
    requires forall k :: FlowOf(jl, [s], k) == FlowOf(jl, [s'], k)
    requires forall l, k :: AfterIn(jl, l, s, k) == AfterIn(jl, l, s', k)
    ensures Same(jl, [s], [s'])
  {
    assert [s][1..] == [] && [s'][1..] == [];
    forall l, k
      ensures After(jl, l, [s], k) == After(jl, l, [s'], k)
    {
      assert AfterIn(jl, l, s, k) == AfterIn(jl, l, s', k);
    }
  }

  lemma SameBlock(jl: bool, a: seq<Stmt>, b: seq<Stmt>)
    requires Same(jl, a, b)
    ensures Same(jl, [Block(a)], [Block(b)])
  {
    OnlyStmt(jl, Block(a));
    OnlyStmt(jl, Block(b));
    SameStmt(jl, Block(a), Block(b));
  }

  lemma SameIf(jl: bool, c: nat, t: seq<Stmt>, t': seq<Stmt>, e: seq<Stmt>, e': seq<Stmt>)
    requires Same(jl, t, t') && Same(jl, e, e')
    ensures Same(jl, [If(c, t, e)], [If(c, t', e')])
  {
    OnlyStmt(jl, If(c, t, e));
    OnlyStmt(jl, If(c, t', e'));
    SameStmt(jl, If(c, t, e), If(c, t', e'));
  }

  lemma {:induction false} SameArms(jl: bool, pre: seq<Arm>, a: seq<Stmt>, b: seq<Stmt>, tag: Option<nat>, post: seq<Arm>)
    requires Same(jl, a, b)
    ensures var x, y := pre + [Arm(tag, a)] + post, pre + [Arm(tag, b)] + post;
      && Tags(x) == Tags(y) && LabelsOfArms(x) == LabelsOfArms(y)
      && (forall k :: FlowArms(jl, x, k) == FlowArms(jl, y, k))
      && (forall l, k :: AfterArms(jl, l, x, k) == AfterArms(jl, l, y, k))
  {
    var x, y := pre + [Arm(tag, a)] + post, pre + [Arm(tag, b)] + post;
    if pre == [] {
      assert x[1..] == post == y[1..] && x[0].body == a && y[0].body == b;
    } else {
      assert x[1..] == pre[1..] + [Arm(tag, a)] + post && y[1..] == pre[1..] + [Arm(tag, b)] + post;
      SameArms(jl, pre[1..], a, b, tag, post);
    }
  }

  lemma SameSwitch(jl: bool, c: nat, pre: seq<Arm>, a: seq<Stmt>, b: seq<Stmt>, tag: Option<nat>, post: seq<Arm>)
    requires Same(jl, a, b)
    ensures Same(jl, [Switch(c, pre + [Arm(tag, a)] + post)], [Switch(c, pre + [Arm(tag, b)] + post)])
  {
    SameArms(jl, pre, a, b, tag, post);
    var x, y := Switch(c, pre + [Arm(tag, a)] + post), Switch(c, pre + [Arm(tag, b)] + post);
    OnlyStmt(jl, x);
    OnlyStmt(jl, y);
    SameStmt(jl, x, y);
  }

  /** The flow of a single statement, unfolded once. */
  lemma OnlyStmt(jl: bool, s: Stmt)
    ensures Labels([s]) == LabelsOf(s)
    ensures forall l, k :: After(jl, l, [s], k) == AfterIn(jl, l, s, k)
    ensures s.Block? ==> forall k :: FlowOf(jl, [s], k) == FlowOf(jl, s.body, k)
    ensures s.If? ==> forall k :: FlowOf(jl, [s], k) == Branch(s.c, FlowOf(jl, s.thn, k), FlowOf(jl, s.els, k))
    ensures s.Switch? ==> forall k :: FlowOf(jl, [s], k) == Choose(s.c, Tags(s.arms), FlowArms(jl, s.arms, k))
  {
    assert [s][1..] == [];
    forall k
      ensures FlowOf(jl, [s][1..], k) == k
    {}
  }
}
