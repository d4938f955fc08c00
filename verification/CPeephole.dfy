/** The peephole optimisation and the label pulling keep the control flow. */
module CPeephole {
  import opened Common
  import opened CStatements
  import opened CFlow

  // ----- joining

  /** One replacement of two neighbours. */
  lemma PeepSame(a: Stmt, b: Stmt)
    requires Peep(a, b).Some? && (b.Label? || LabelsOf(b) == multiset{})
    ensures Same(true, [a, b], [Peep(a, b).value])
  {
    var ab := Peep(a, b).value;
    TwoStmts(true, a, b);
    OnlyStmt(true, ab);
    assert LabelsOf(a) + LabelsOf(b) == LabelsOf(ab);
    assert [ab][1..] == [];
    forall k
      ensures FlowOf(true, [a, b], k) == FlowOf(true, [ab], k)
    {
      assert FlowOf(true, [ab], k) == if a.Ret? then Exit(a.e) else Jump(a.l);
    }
    forall l, k
      ensures After(true, l, [a, b], k) == After(true, l, [ab], k)
    {
      hide Labels, LabelsOf;
      PeepAfter(a, b, l, k);
    }
  }

  lemma TwoStmts(jl: bool, a: Stmt, b: Stmt)
    ensures Labels([a, b]) == LabelsOf(a) + LabelsOf(b)
    ensures forall k :: FlowOf(jl, [a, b], k) == FlowOf(jl, [a], FlowOf(jl, [b], k))
    ensures forall l, k :: After(jl, l, [a, b], k) == (var r := AfterIn(jl, l, a, FlowOf(jl, [b], k)); if r.Some? then r else AfterIn(jl, l, b, k))
  {
    LabelsAppend([a], [b]);
    assert [a] + [b] == [a, b];
    OnlyStmt(jl, a);
    OnlyStmt(jl, b);
    hide Labels, LabelsOf, FlowOf, After, AfterIn;
    forall l, k
      ensures FlowOf(jl, [a, b], k) == FlowOf(jl, [a], FlowOf(jl, [b], k))
      ensures After(jl, l, [a, b], k) == (var r := AfterIn(jl, l, a, FlowOf(jl, [b], k)); if r.Some? then r else AfterIn(jl, l, b, k))
    {
      FlowAppend(jl, [a], [b], k);
      AfterAppend(jl, l, [a], [b], k);
    }
  }

  lemma PeepAfter(a: Stmt, b: Stmt, l: nat, k: Flow)
    requires Peep(a, b).Some? && (b.Label? || LabelsOf(b) == multiset{})
    ensures After(true, l, [a, b], k) == After(true, l, [Peep(a, b).value], k)
  {
    hide FlowOf;
    TwoStmts(true, a, b);
    OnlyStmt(true, Peep(a, b).value);
    FoundIn(true, l, b, k);
    hide After;
  }

  lemma JoinUnfolds(xs: seq<Stmt>, bs: seq<Stmt>)
    ensures xs != [] && bs != [] && Peep(xs[|xs| - 1], bs[0]).Some? ==>
      PairOpt(xs, bs) == PairOpt(PairOpt(xs[..|xs| - 1], [Peep(xs[|xs| - 1], bs[0]).value]), bs[1..])
    ensures !(xs != [] && bs != [] && Peep(xs[|xs| - 1], bs[0]).Some?) ==> PairOpt(xs, bs) == xs + bs
  {}

  lemma LastStays(xs: seq<Stmt>, x: Stmt)
    requires x.Label? || Jumps(x)
    ensures var r := PairOpt(xs, [x]); r != [] && (if x.Label? then r[|r| - 1] == x else Jumps(r[|r| - 1]))
    decreases |xs|
  {
    if xs != [] && Peep(xs[|xs| - 1], x).Some? {
      var ab := Peep(xs[|xs| - 1], x).value;
      LastStays(xs[..|xs| - 1], ab);
      assert PairOpt(xs, [x]) == PairOpt(PairOpt(xs[..|xs| - 1], [ab]), []);
    }
  }

  /** The result of joining has the flow of the concatenation. */
  lemma {:induction false} JoinSame(xs: seq<Stmt>, bs: seq<Stmt>)
    requires CleanCut(xs, bs)
    ensures Same(true, xs + bs, PairOpt(xs, bs))
    decreases |xs| + |bs|
  {
    JoinUnfolds(xs, bs);
    hide PairOpt;
    if xs != [] && bs != [] && Peep(xs[|xs| - 1], bs[0]).Some? {
      var xs', a, b, bs' := xs[..|xs| - 1], xs[|xs| - 1], bs[0], bs[1..];
      var ab := Peep(a, b).value;
      var front := PairOpt(xs', [ab]);
      PeepSame(a, b);
      SamePrepend(true, [a, b], [ab], xs');
      assert LeadClean([ab]) by { assert [ab][1..] == []; }
      JoinSame(xs', [ab]);
      SameAppend(true, xs' + [a, b], xs' + [ab], bs');
      SameAppend(true, xs' + [ab], front, bs');
      LastStays(xs', ab);
      JoinSame(front, bs');
      assert xs + bs == xs' + [a, b] + bs';
    }
  }

  lemma SingleLabels(s: Stmt)
    ensures Labels([s]) == LabelsOf(s)
  {
    assert [s][1..] == [];
  }

  lemma LabelsLast(xs: seq<Stmt>)
    requires xs != []
    ensures Labels(xs) == Labels(xs[..|xs| - 1]) + LabelsOf(xs[|xs| - 1])
  {
    hide Labels, LabelsOf;
    LabelsAppend(xs[..|xs| - 1], [xs[|xs| - 1]]);
    SingleLabels(xs[|xs| - 1]);
    assert xs == xs[..|xs| - 1] + [xs[|xs| - 1]];
  }

  lemma {:induction false} JoinLabels(xs: seq<Stmt>, bs: seq<Stmt>)
    ensures Labels(PairOpt(xs, bs)) <= Labels(xs) + Labels(bs)
    decreases |xs| + |bs|
  {
    JoinUnfolds(xs, bs);
    if !(xs != [] && bs != [] && Peep(xs[|xs| - 1], bs[0]).Some?) {
      LabelsAppend(xs, bs);
    } else {
      var xs', a, b, bs' := xs[..|xs| - 1], xs[|xs| - 1], bs[0], bs[1..];
      var ab := Peep(a, b).value;
      assert ab == a || ab == b;
      LabelsLast(xs);
      SingleLabels(ab);
      assert Labels(bs) == LabelsOf(b) + Labels(bs');
      hide PairOpt, Labels, LabelsOf, Peep;
      var front := PairOpt(xs', [ab]);
      JoinLabels(xs', [ab]);
      JoinLabels(front, bs');
      Below(Labels(PairOpt(front, bs')), Labels(front), Labels(xs'), LabelsOf(ab), LabelsOf(a), LabelsOf(b), Labels(bs'));
    }
  }

  lemma Below(r: multiset<nat>, front: multiset<nat>, xs': multiset<nat>, ab: multiset<nat>, a: multiset<nat>, b: multiset<nat>, bs': multiset<nat>)
    requires r <= front + bs' && front <= xs' + ab && (ab == a || ab == b)
    ensures r <= (xs' + a) + (b + bs')
  {}

  /** When the unreachable statements do hold a label, joining loses it. */
  lemma {:induction false} UncleanLoses(xs: seq<Stmt>, bs: seq<Stmt>)
    requires !CleanCut(xs, bs)
    ensures |Labels(PairOpt(xs, bs))| < |Labels(xs)| + |Labels(bs)|
    decreases |xs| + |bs|
  {
    JoinUnfolds(xs, bs);
    var xs', a, b, bs' := xs[..|xs| - 1], xs[|xs| - 1], bs[0], bs[1..];
    var front := PairOpt(xs', [a]);
    LabelsLast(xs);
    SingleLabels(a);
    LastStays(xs', a);
    assert PairOpt(xs, bs) == PairOpt(front, bs') && front != [] && Jumps(front[|front| - 1]);
    assert Labels(bs) == LabelsOf(b) + Labels(bs') && (LabelsOf(b) == multiset{} ==> !CleanCut(front, bs'));
    hide PairOpt, Labels, LabelsOf, Peep, CleanCut, LeadClean;
    JoinLabels(xs', [a]);
    SmallerCard(Labels(front), Labels(xs') + Labels([a]));
    if LabelsOf(b) == multiset{} {
      UncleanLoses(front, bs');
    } else {
      JoinLabels(front, bs');
      SmallerCard(Labels(PairOpt(front, bs')), Labels(front) + Labels(bs'));
      assert |LabelsOf(b)| > 0;
    }
  }

  lemma SmallerCard(a: multiset<nat>, b: multiset<nat>)
    requires a <= b
    ensures |a| <= |b|
  {
    assert b == a + (b - a);
  }

  /** Joining keeps the control flow, from the entry and from every label, exactly when
      the statements it drops hold no label. */
  lemma JoinSameIffClean(xs: seq<Stmt>, bs: seq<Stmt>)
    ensures Same(true, xs + bs, PairOpt(xs, bs)) <==> CleanCut(xs, bs)
  {
    if CleanCut(xs, bs) {
      JoinSame(xs, bs);
    } else {
      UncleanLoses(xs, bs);
      LabelsAppend(xs, bs);
    }
  }

  /** If they do hold one and no label is defined twice, some label can no longer be jumped
      to, whatever follows. */
  lemma JoinLosesLabel(xs: seq<Stmt>, bs: seq<Stmt>) returns (l: nat)
    requires Unique(Labels(xs) + Labels(bs)) && !CleanCut(xs, bs)
    ensures forall k :: After(true, l, xs + bs, k).Some? && After(true, l, PairOpt(xs, bs), k).None?
  {
    hide CleanCut, PairOpt, Labels, After;
    UncleanLoses(xs, bs);
    JoinLabels(xs, bs);
    LabelsAppend(xs, bs);
    var o, a := Labels(PairOpt(xs, bs)), Labels(xs) + Labels(bs);
    if a <= o { SmallerCard(a, o); }
    l :| l in a && o[l] < a[l];
    assert a[l] <= 1;
    forall k
      ensures After(true, l, xs + bs, k).Some? && After(true, l, PairOpt(xs, bs), k).None?
    {
      FoundIffPresent(true, l, xs + bs, k);
      FoundIffPresent(true, l, PairOpt(xs, bs), k);
    }
  }

  /** A join that does lose a label: behind the return, the block can be jumped into. */
  lemma JoinMayLose()
    ensures !Same(true, [Ret(0)] + [Block([Label(1), Act(2)])], PairOpt([Ret(0)], [Block([Label(1), Act(2)])]))
  {
    var b := Block([Label(1), Act(2)]);
    assert [b][0] == b && [Ret(0)][|[Ret(0)]| - 1] == Ret(0);
    assert 1 in LabelsOf(b) by { assert Labels(b.body) == LabelsOf(Label(1)) + Labels(b.body[1..]); }
    assert !LeadClean([b]);
    JoinSameIffClean([Ret(0)], [b]);
  }

  // ----- pulling labels out of inner statements

  /** Where a label leads: inside, or, if it was pulled, to what follows. */
  function Otherwise(r: Option<Flow>, l: nat, la: seq<Stmt>, k: Flow): Option<Flow> {
    if r.Some? then r else if l in Labels(la) then Some(k) else None
  }

  lemma {:induction false} LabelsOnlyFlow(la: seq<Stmt>, k: Flow)
    requires forall s | s in la :: s.Label?
    ensures FlowOf(false, la, k) == k
    ensures forall l :: After(false, l, la, k) == if l in Labels(la) then Some(k) else None
  {
    if la != [] {
      assert la[0] in la && forall s | s in la[1..] :: s in la;
      LabelsOnlyFlow(la[1..], k);
    }
  }

  /** What pulling does to a body: the flow stays, and each pulled label leads to what
      follows the body. */
  lemma PulledFlow(st: seq<Stmt>, k: Flow)
    ensures var (st', la) := LabelPull(st);
      && FlowOf(false, st, k) == FlowOf(false, st', k)
      && (forall l :: After(false, l, st, k) == Otherwise(After(false, l, st', k), l, la, k))
      && Labels(st) == Labels(st') + Labels(la)
  {
    var (st', la) := LabelPull(st);
    LabelsAppend(st', la);
    FlowAppend(false, st', la, k);
    LabelsOnlyFlow(la, k);
    forall l
      ensures After(false, l, st, k) == Otherwise(After(false, l, st', k), l, la, k)
    {
      AfterAppend(false, l, st', la, k);
    }
  }

  lemma JoinsLabels(s: Stmt, la: seq<Stmt>)
    requires !Jumps(s)
    ensures PairOpt([s], la) == [s] + la
  {}

  /** A statement followed by pulled labels. */
  lemma WithLabels(s: Stmt, la: seq<Stmt>, k: Flow)
    requires !s.Label? && !s.Act? && forall x | x in la :: x.Label?
    ensures FlowOf(false, [s] + la, k) == FlowOf(false, [s], k)
    ensures forall l :: After(false, l, [s] + la, k) == Otherwise(AfterIn(false, l, s, k), l, la, k)
    ensures Labels([s] + la) == LabelsOf(s) + Labels(la)
  {
    assert [s] + la == [s] + la && ([s] + la)[1..] == la && [s][1..] == [];
    LabelsOnlyFlow(la, k);
    FlowAppend(false, [s], la, k);
  }

  /** When the cases of one statement lead where those of the other lead, or to pulled
      labels, putting the pulled labels behind makes up for the difference. */
  lemma PulledSame(s: Stmt, s': Stmt, la: seq<Stmt>)
    requires !s.Label? && !s'.Label? && !s'.Act? && forall x | x in la :: x.Label?
    requires LabelsOf(s) == LabelsOf(s') + Labels(la)
    requires forall k :: FlowOf(false, [s], k) == FlowOf(false, [s'], k)
    requires forall l, k :: AfterIn(false, l, s, k) == Otherwise(AfterIn(false, l, s', k), l, la, k)
    ensures Same(false, [s], [s'] + la)
  {
    OnlyStmt(false, s);
    WithLabels(s', la, End);
    forall k
      ensures FlowOf(false, [s], k) == FlowOf(false, [s'] + la, k)
    {
      WithLabels(s', la, k);
    }
    forall l, k
      ensures After(false, l, [s], k) == After(false, l, [s'] + la, k)
    {
      WithLabels(s', la, k);
      assert AfterIn(false, l, s, k) == Otherwise(AfterIn(false, l, s', k), l, la, k);
    }
  }

  lemma SubBlockSame(st: seq<Stmt>)
    ensures Same(false, [Block(st)], SubBlock(st))
  {
    var (st', la) := LabelPull(st);
    JoinsLabels(Block(st'), la);
    PulledFlow(st, End);
    assert SubBlock(st) == [Block(st')] + la;
    hide FlowOf, After, Labels, LabelPull, SubBlock, PairOpt;
    forall k
      ensures FlowOf(false, [Block(st)], k) == FlowOf(false, [Block(st')], k)
    {
      PulledFlow(st, k);
      OnlyStmt(false, Block(st));
      OnlyStmt(false, Block(st'));
    }
    forall l, k
      ensures AfterIn(false, l, Block(st), k) == Otherwise(AfterIn(false, l, Block(st'), k), l, la, k)
    {
      PulledFlow(st, k);
    }
    hide AfterIn, LabelsOf;
    PulledSame(Block(st), Block(st'), la);
  }

  lemma CifAfter(c: nat, thn: seq<Stmt>, els: seq<Stmt>, l: nat, k: Flow)
    requires Unique(Labels(thn) + Labels(els))
    ensures var ((thn', la), (els', lb)) := (LabelPull(thn), LabelPull(els));
      AfterIn(false, l, If(c, thn, els), k) == Otherwise(AfterIn(false, l, If(c, thn', els'), k), l, la + lb, k)
  {
    hide FlowOf, LabelPull, Labels, LabelsOf;
    var (thn', la) := LabelPull(thn);
    var (els', lb) := LabelPull(els);
    LabelsAppend(la, lb);
    PulledFlow(thn, k);
    PulledFlow(els, k);
    FoundIffPresent(false, l, thn', k);
    FoundIffPresent(false, l, els', k);
    assert (Labels(thn) + Labels(els))[l] <= 1;
  }

  lemma CifSame(c: nat, thn: seq<Stmt>, els: seq<Stmt>)
    requires Unique(Labels(thn) + Labels(els))
    ensures Same(false, [If(c, thn, els)], Cif(c, thn, els))
  {
    var (thn', la) := LabelPull(thn);
    var (els', lb) := LabelPull(els);
    var s, s' := If(c, thn, els), If(c, thn', els');
    CifJoins(c, thn, els);
    hide Cif, FlowOf, AfterIn, Labels, LabelsOf, PairOpt;
    forall k
      ensures FlowOf(false, [s], k) == FlowOf(false, [s'], k)
    {
      PulledFlow(thn, k);
      PulledFlow(els, k);
      OnlyStmt(false, s);
      OnlyStmt(false, s');
    }
    forall l, k
      ensures AfterIn(false, l, s, k) == Otherwise(AfterIn(false, l, s', k), l, la + lb, k)
    {
      CifAfter(c, thn, els, l, k);
    }
    PulledSame(s, s', la + lb);
  }

  lemma CifJoins(c: nat, thn: seq<Stmt>, els: seq<Stmt>)
    ensures var ((thn', la), (els', lb)) := (LabelPull(thn), LabelPull(els));
      && Cif(c, thn, els) == [If(c, thn', els')] + (la + lb)
      && LabelsOf(If(c, thn, els)) == LabelsOf(If(c, thn', els')) + Labels(la + lb)
  {
    var (thn', la) := LabelPull(thn);
    var (els', lb) := LabelPull(els);
    assert LabelsOf(If(c, thn, els)) == Labels(thn) + Labels(els);
    assert LabelsOf(If(c, thn', els')) == Labels(thn') + Labels(els');
    assert Cif(c, thn, els) == PairOpt(PairOpt([If(c, thn', els')], la), lb);
    hide LabelPull, FlowOf, After, AfterIn, Labels, LabelsOf, Cif, PairOpt;
    JoinsLabels(If(c, thn', els'), la);
    LabelsJoin(If(c, thn', els'), la, lb);
    LabelsAppend(la, lb);
    PulledFlow(thn, End);
    PulledFlow(els, End);
  }

  lemma LabelsJoin(s: Stmt, la: seq<Stmt>, lb: seq<Stmt>)
    requires !Jumps(s) && (forall x | x in la :: x.Label?) && (forall x | x in lb :: x.Label?)
    ensures PairOpt([s] + la, lb) == [s] + (la + lb) && PairOpt(la, lb) == la + lb
  {
    assert [s] + la + lb == [s] + (la + lb);
    if la != [] { assert ([s] + la)[|la|] == la[|la| - 1] && la[|la| - 1] in la; }
  }

  /** Pulling the labels that end the cases of a switch loses none. */
  lemma {:induction false} PulledArmLabels(arms: seq<Arm>)
    ensures var (arms', ls) := PullArms(arms);
      && (forall x | x in ls :: x.Label?)
      && Tags(arms') == Tags(arms) && LabelsOfArms(arms) == LabelsOfArms(arms') + Labels(ls)
  {
    if arms != [] {
      var (b, la) := LabelPull(arms[0].body);
      var (arms', ls) := PullArms(arms[1..]);
      PulledArmLabels(arms[1..]);
      FirstArmPulled(arms, b, la, arms', ls);
      PulledFlow(arms[0].body, End);
      LabelsAppend(la, ls);
    }
  }

  lemma FirstArmPulled(arms: seq<Arm>, b: seq<Stmt>, la: seq<Stmt>, arms': seq<Arm>, ls: seq<Stmt>)
    requires arms != [] && (b, la) == LabelPull(arms[0].body) && (arms', ls) == PullArms(arms[1..])
    requires forall x | x in ls :: x.Label?
    ensures PullArms(arms).0 == [Arm(arms[0].tag, b)] + arms' && PullArms(arms).1 == la + ls
  {
    LabelsJoin(Block([]), la, ls);
  }

  /** Nor does it change where they lead, but that the pulled ones lead to what follows. */
  lemma {:induction false} PulledArms(arms: seq<Arm>, k: Flow)
    requires Unique(LabelsOfArms(arms))
    ensures var (arms', ls) := PullArms(arms);
      && FlowArms(false, arms', k) == FlowArms(false, arms, k)
      && (forall l :: AfterArms(false, l, arms, k) == Otherwise(AfterArms(false, l, arms', k), l, ls, k))
  {
    PulledArmLabels(arms);
    if arms != [] {
      var (b, la) := LabelPull(arms[0].body);
      var (arms', ls) := PullArms(arms[1..]);
      UniqueArms(arms);
      PulledArms(arms[1..], k);
      PulledArmLabels(arms[1..]);
      PulledFlow(arms[0].body, k);
      FirstArmPulled(arms, b, la, arms', ls);
      LabelsAppend(la, ls);
      var r := PullArms(arms);
      assert r.0[1..] == arms' && r.0[0].body == b;
      hide PullArms, LabelPull, FlowOf, After;
      forall l
        ensures AfterArms(false, l, arms, k) == Otherwise(AfterArms(false, l, r.0, k), l, r.1, k)
      {
        FoundIffPresent(false, l, b, k);
        FoundArms(false, l, arms', k);
        assert LabelsOfArms(arms)[l] <= 1;
      }
    }
  }

  lemma UniqueArms(arms: seq<Arm>)
    requires arms != [] && Unique(LabelsOfArms(arms))
    ensures Unique(LabelsOfArms(arms[1..]))
  {
    forall l
      ensures LabelsOfArms(arms[1..])[l] <= 1
    {
      assert LabelsOfArms(arms)[l] <= 1;
    }
  }

  lemma SwitchSame(c: nat, arms: seq<Arm>)
    requires Unique(LabelsOfArms(arms))
    ensures Same(false, [Switch(c, arms)], SwitchOf(c, arms))
  {
    var (arms', ls) := PullArms(arms);
    var s, s' := Switch(c, arms), Switch(c, arms');
    PulledArmLabels(arms);
    JoinsLabels(s', ls);
    forall k
      ensures FlowOf(false, [s], k) == FlowOf(false, [s'], k)
    {
      PulledArms(arms, k);
      OnlyStmt(false, s);
      OnlyStmt(false, s');
    }
    forall l, k
      ensures AfterIn(false, l, s, k) == Otherwise(AfterIn(false, l, s', k), l, ls, k)
    {
      PulledArms(arms, k);
    }
    PulledSame(s, s', ls);
  }
}
