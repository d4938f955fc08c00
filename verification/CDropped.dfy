/** Which labels are lost when a function body is put together with the optimising
    constructors, told from the plain statements. */
module CDropped {
  import opened Common
  import opened CStatements
  import opened CFlow
  import opened CPeephole

  // ----- on plain statements

  /** The label that stands first in the text. */
  function FirstLabel(ss: seq<Stmt>): Option<nat>
    decreases ss
  {
    if ss == [] then None
    else
      var f := FirstIn(ss[0]);
      if f.Some? then f else FirstLabel(ss[1..])
  }

  function FirstIn(s: Stmt): Option<nat>
    decreases s
  {
    match s
    case Label(l) => Some(l)
    case Block(b) => FirstLabel(b)
    case If(_, t, e) => var f := FirstLabel(t); if f.Some? then f else FirstLabel(e)
    case Switch(_, arms) => FirstInArms(arms)
    case _ => None
  }

  function FirstInArms(arms: seq<Arm>): Option<nat>
    decreases arms
  {
    if arms == [] then None
    else
      var f := FirstLabel(arms[0].body);
      if f.Some? then f else FirstInArms(arms[1..])
  }

  /** Nothing but labels, and gotos to the label that comes next. */
  predicate Fades(ss: seq<Stmt>) {
    ss == [] ||
    match ss[0]
    case Label(_) => Fades(ss[1..])
    case Goto(l) => FirstLabel(ss[1..]) == Some(l) && FadesBehind(ss[1..])
    case _ => false
  }

  /** The same from the first label on, or from behind the statement that holds it. */
  predicate FadesBehind(ss: seq<Stmt>) {
    ss == [] || if LabelsOf(ss[0]) == multiset{} then FadesBehind(ss[1..]) else Fades(ss[1..])
  }

  /** Behind a label nothing follows that would not fade. */
  predicate AtEnd(ss: seq<Stmt>)
    decreases ss
  {
    ss == [] ||
    if ss[0].Label? then Fades(ss[1..])
    else if Jumps(ss[0]) then FadesBehind(ss[1..])
    else AtEndIn(ss[0]) && if LabelsOf(ss[0]) == multiset{} then AtEnd(ss[1..]) else Fades(ss[1..])
  }

  predicate AtEndIn(s: Stmt)
    decreases s
  {
    match s
    case Block(b) => AtEnd(b)
    case If(_, t, e) => AtEnd(t) && AtEnd(e)
    case Switch(_, arms) => AtEndArms(arms)
    case _ => true
  }

  predicate AtEndArms(arms: seq<Arm>)
    decreases arms
  {
    arms == [] || (AtEnd(arms[0].body) && AtEndArms(arms[1..]))
  }

  /** Up to the next label, goto or return there is no label but at the end of a statement. */
  predicate Droppable(ss: seq<Stmt>) {
    ss == [] || ss[0].Label? || Jumps(ss[0])
    || (AtEndIn(ss[0]) && (LabelsOf(ss[0]) != multiset{} || Droppable(ss[1..])))
  }

  /** No label is lost: what stands behind a goto or return may be dropped. */
  predicate NothingLost(ss: seq<Stmt>)
    decreases ss
  {
    ss == [] || (NothingLostIn(ss[0]) && NothingLost(ss[1..]) && (Jumps(ss[0]) ==> Droppable(ss[1..])))
  }

  predicate NothingLostIn(s: Stmt)
    decreases s
  {
    match s
    case Block(b) => NothingLost(b)
    case If(_, t, e) => NothingLost(t) && NothingLost(e)
    case Switch(_, arms) => NothingLostArms(arms)
    case _ => true
  }

  predicate NothingLostArms(arms: seq<Arm>)
    decreases arms
  {
    arms == [] || (NothingLost(arms[0].body) && NothingLostArms(arms[1..]))
  }

  // ----- on optimised statements

  predicate AllLabels(o: seq<Stmt>) { forall i | 0 <= i < |o| :: o[i].Label? }

  /** The statements from the first label on. */
  function Behind(o: seq<Stmt>): (w: seq<Stmt>)
    ensures w == [] || w[0].Label?
  {
    if o == [] || o[0].Label? then o else Behind(o[1..])
  }

  /** No label but at the end. */
  predicate Trails(o: seq<Stmt>) {
    o == [] || if o[0].Label? then AllLabels(o) else LabelsOf(o[0]) == multiset{} && Trails(o[1..])
  }

  lemma {:induction false} TrailsIff(x: seq<Stmt>, la: seq<Stmt>)
    requires AllLabels(la) && (x == [] || !x[|x| - 1].Label?)
    ensures Trails(x + la) <==> Labels(x) == multiset{}
    ensures Labels(x) == multiset{} ==> LeadClean(x + la) && Behind(x + la) == la
  {
    if x == [] {
      assert x + la == la;
    } else {
      assert (x + la)[1..] == x[1..] + la;
      if x[0].Label? {
        assert (x + la)[|x| - 1] == x[|x| - 1];
      } else {
        TrailsIff(x[1..], la);
      }
    }
  }

  /** A goto or return in front of `y`: what stands before the first label is dropped, and
      a goto to that label as well. */
  lemma {:induction false} JumpInFront(s: Stmt, y: seq<Stmt>)
    requires Jumps(s)
    ensures var w := Behind(y);
            PairOpt([s], y) == if s.Goto? && w != [] && w[0] == Label(s.l) then w else [s] + w
  {
    assert Built([s]);
    PairOptIsFold([s], y);
    assert [s][1..] == [];
    assert Fold([s][1..], y) == y;
    ConsInFront(s, y);
  }

  lemma {:induction false} ConsInFront(s: Stmt, y: seq<Stmt>)
    requires Jumps(s)
    ensures var w := Behind(y);
            Cons(s, y) == if s.Goto? && w != [] && w[0] == Label(s.l) then w else [s] + w
  {
    if y != [] && !y[0].Label? { ConsInFront(s, y[1..]); }
  }

  // ----- the plain statements tell what the optimised ones look like

  function Heading(w: seq<Stmt>): Option<nat> { if w != [] && w[0].Label? then Some(w[0].l) else None }

  ghost predicate Shaped(ss: seq<Stmt>, o: seq<Stmt>) {
    && (LeadClean(o) <==> Droppable(ss))
    && (AllLabels(o) <==> Fades(ss))
    && (Trails(o) <==> AtEnd(ss))
    && (LeadClean(o) ==> (AllLabels(Behind(o)) <==> FadesBehind(ss)) && FirstLabel(ss) == Heading(Behind(o)))
  }

  /** A statement became `s'` and the labels `la` that were pulled out of it. */
  ghost predicate ShapedStmt(s: Stmt, s': Stmt, la: seq<Stmt>) {
    && AllLabels(la) && !s'.Label? && !Jumps(s')
    && LabelsOf(s) == LabelsOf(s') + Labels(la)
    && (LabelsOf(s') == multiset{} <==> AtEndIn(s))
    && (LabelsOf(s') == multiset{} ==> FirstIn(s) == Heading(la))
  }

  lemma LabelFirst(s: Stmt, r: seq<Stmt>, y: seq<Stmt>)
    requires s.Label? && Shaped(r, y)
    ensures Shaped([s] + r, [s] + y)
  {
    assert ([s] + r)[1..] == r && ([s] + y)[1..] == y;
  }

  lemma JumpFirst(s: Stmt, r: seq<Stmt>, y: seq<Stmt>)
    requires Jumps(s) && Shaped(r, y) && LeadClean(y)
    ensures Shaped([s] + r, PairOpt([s], y))
  {
    var w, ss := Behind(y), [s] + r;
    JumpInFront(s, y);
    assert ss[1..] == r && ([s] + w)[1..] == w;
  }

  lemma {:induction false} LabelsInFront(la: seq<Stmt>, y: seq<Stmt>)
    requires AllLabels(la)
    ensures AllLabels(la + y) <==> AllLabels(y)
    ensures la != [] ==> Labels(la) != multiset{}
  {
    forall i | 0 <= i < |y|
      ensures y[i] == (la + y)[|la| + i]
    {}
  }

  lemma OtherFirst(s: Stmt, s': Stmt, la: seq<Stmt>, r: seq<Stmt>, y: seq<Stmt>)
    requires !s.Label? && !Jumps(s) && ShapedStmt(s, s', la) && Shaped(r, y)
    ensures Shaped([s] + r, [s'] + (la + y))
  {
    var ss, o := [s] + r, [s'] + (la + y);
    assert ss[1..] == r && o[1..] == la + y;
    LabelsInFront(la, y);
    if la == [] {
      assert la + y == y;
    } else {
      assert (la + y)[0] == la[0];
    }
  }

  // ----- the labels of the optimised statements are among those of the plain ones

  lemma SumBelow(a: multiset<nat>, a': multiset<nat>, b: multiset<nat>, b': multiset<nat>)
    requires a <= a' && b <= b'
    ensures a + b <= a' + b' && |a| <= |a'| && |b| <= |b'| && |a + b| == |a| + |b|
  {
    SmallerCard(a, a');
    SmallerCard(b, b');
  }

  /** All of them if the statements are clean, and otherwise fewer. */
  ghost predicate Kept(clean: bool, o: multiset<nat>, p: multiset<nat>) {
    o <= p && if clean then o == p else |o| < |p|
  }

  lemma KeptSum(c: bool, a: multiset<nat>, a': multiset<nat>, d: bool, b: multiset<nat>, b': multiset<nat>)
    requires Kept(c, a, a') && Kept(d, b, b')
    ensures Kept(c && d, a + b, a' + b')
  {
    SumBelow(a, a', b, b');
  }

  lemma PulledLabels(st: seq<Stmt>, c: nat, els: seq<Stmt>, arms: seq<Arm>)
    ensures Labels(SubBlock(st)) == Labels(st)
    ensures Labels(Cif(c, st, els)) == Labels(st) + Labels(els)
    ensures Labels(SwitchOf(c, arms)) == LabelsOfArms(arms)
  {
    SubBlockSame(st);
    SingleLabels(Block(st));
    CifJoins(c, st, els);
    var (st', la) := LabelPull(st);
    var (els', lb) := LabelPull(els);
    LabelsAppend([If(c, st', els')], la + lb);
    SingleLabels(If(c, st', els'));
    var (arms', ls) := PullArms(arms);
    PulledArmLabels(arms);
    JoinsLabels(Switch(c, arms'), ls);
    LabelsAppend([Switch(c, arms')], ls);
    SingleLabels(Switch(c, arms'));
  }

  lemma {:induction false} OptLabels(ss: seq<Stmt>)
    ensures Kept(CleanSeq(ss), Labels(OptSeq(ss)), Labels(ss))
    decreases ss
  {
    if ss != [] {
      var x, y := OptStmt(ss[0]), OptSeq(ss[1..]);
      OptStmtLabels(ss[0]);
      OptLabels(ss[1..]);
      assert CleanSeq(ss) == (CleanStmt(ss[0]) && CleanSeq(ss[1..]) && CleanCut(x, y));
      hide CleanSeq, CleanStmt, OptStmt, PairOpt, Same, CleanCut;
      KeptSum(CleanStmt(ss[0]), Labels(x), LabelsOf(ss[0]), CleanSeq(ss[1..]), Labels(y), Labels(ss[1..]));
      JoinKept(x, y);
      KeptMore(CleanCut(x, y), Labels(PairOpt(x, y)), CleanStmt(ss[0]) && CleanSeq(ss[1..]), Labels(x) + Labels(y), Labels(ss));
    }
  }

  lemma JoinKept(x: seq<Stmt>, y: seq<Stmt>)
    ensures Kept(CleanCut(x, y), Labels(PairOpt(x, y)), Labels(x) + Labels(y))
  {
    hide PairOpt, CleanCut, Labels;
    JoinLabels(x, y);
    LabelsAppend(x, y);
    if CleanCut(x, y) { JoinSame(x, y); } else { UncleanLoses(x, y); }
  }

  lemma KeptMore(c: bool, a: multiset<nat>, d: bool, b: multiset<nat>, e: multiset<nat>)
    requires Kept(c, a, b) && Kept(d, b, e)
    ensures Kept(d && c, a, e)
  {
    SmallerCard(a, b);
    SmallerCard(b, e);
  }

  lemma {:induction false} OptStmtLabels(s: Stmt)
    ensures Kept(CleanStmt(s), Labels(OptStmt(s)), LabelsOf(s))
    decreases s
  {
    hide SubBlock, Cif, SwitchOf;
    match s
    case Block(b) => {
      OptLabels(b);
      PulledLabels(OptSeq(b), 0, [], []);
    }
    case If(c, t, e) => {
      OptLabels(t);
      OptLabels(e);
      KeptSum(CleanSeq(t), Labels(OptSeq(t)), Labels(t), CleanSeq(e), Labels(OptSeq(e)), Labels(e));
      PulledLabels(OptSeq(t), c, OptSeq(e), []);
    }
    case Switch(c, arms) => {
      OptArmsLabels(arms);
      PulledLabels([], c, [], OptArms(arms));
    }
    case _ => SingleLabels(s);
  }

  lemma {:induction false} OptArmsLabels(arms: seq<Arm>)
    ensures Kept(CleanArms(arms), LabelsOfArms(OptArms(arms)), LabelsOfArms(arms))
    decreases arms
  {
    if arms != [] {
      var o := OptSeq(arms[0].body);
      OptLabels(arms[0].body);
      OptArmsLabels(arms[1..]);
      KeptSum(CleanSeq(arms[0].body), Labels(o), Labels(arms[0].body), CleanArms(arms[1..]), LabelsOfArms(OptArms(arms[1..])), LabelsOfArms(arms[1..]));
      assert OptArms(arms)[0].body == o && OptArms(arms)[1..] == OptArms(arms[1..]);
    }
  }

  // ----- the shape of whole bodies

  /** A body, without the labels at its end, and these labels. */
  ghost predicate ShapedBody(b: seq<Stmt>, x: seq<Stmt>, la: seq<Stmt>) {
    && AllLabels(la) && Labels(b) == Labels(x) + Labels(la)
    && (Labels(x) == multiset{} <==> AtEnd(b))
    && (Labels(x) == multiset{} ==> FirstLabel(b) == Heading(la))
  }

  lemma BodyShape(b: seq<Stmt>, o: seq<Stmt>)
    requires Shaped(b, o) && Labels(o) == Labels(b)
    ensures var (x, la) := LabelPull(o); ShapedBody(b, x, la)
  {
    hide AtEnd, FirstLabel, Droppable, Fades, FadesBehind, LeadClean, Trails, Labels;
    var (x, la) := LabelPull(o);
    TrailsIff(x, la);
    LabelsAppend(x, la);
  }

  lemma HeadingFirst(la: seq<Stmt>, lb: seq<Stmt>)
    requires AllLabels(la) && AllLabels(lb)
    ensures AllLabels(la + lb) && Heading(la + lb) == if la != [] then Heading(la) else Heading(lb)
    ensures Heading(la).Some? <==> la != []
  {}

  lemma {:induction false} Shape(ss: seq<Stmt>)
    requires CleanSeq(ss)
    ensures Shaped(ss, OptSeq(ss))
    decreases ss
  {
    if ss != [] {
      var s, r := ss[0], ss[1..];
      var y := OptSeq(r);
      Shape(r);
      assert ss == [s] + r;
      if s.Label? {
        LabelNeverReacts([s], y);
        LabelFirst(s, r, y);
      } else if Jumps(s) {
        assert [s][|[s]| - 1] == s;
        JumpFirst(s, r, y);
      } else {
        var s', la := ShapeStmt(s);
        PlainJoin(s', la, y);
        OtherFirst(s, s', la, r, y);
      }
    }
  }

  /** No goto or return at the end, no reaction. */
  lemma PlainJoin(s: Stmt, la: seq<Stmt>, y: seq<Stmt>)
    requires !Jumps(s) && AllLabels(la)
    ensures PairOpt([s] + la, y) == [s] + (la + y)
  {
    var x := [s] + la;
    assert x[|x| - 1] == s || x[|x| - 1] == la[|la| - 1];
    assert [s] + (la + y) == x + y;
  }

  lemma {:induction false} ShapeStmt(s: Stmt) returns (s': Stmt, la: seq<Stmt>)
    requires CleanStmt(s) && !s.Label? && !Jumps(s)
    ensures ShapedStmt(s, s', la) && OptStmt(s) == [s'] + la
    decreases s
  {
    match s
    case Block(b) => {
      var o := OptSeq(b);
      var (x, l) := LabelPull(o);
      Shape(b);
      OptLabels(b);
      BodyShape(b, o);
      JoinsLabels(Block(x), l);
      s', la := Block(x), l;
    }
    case If(c, t, e) => {
      var (t', l) := LabelPull(OptSeq(t));
      var (e', k) := LabelPull(OptSeq(e));
      Shape(t);
      Shape(e);
      OptLabels(t);
      OptLabels(e);
      BodyShape(t, OptSeq(t));
      BodyShape(e, OptSeq(e));
      CifJoins(c, OptSeq(t), OptSeq(e));
      s', la := If(c, t', e'), l + k;
      IfShape(c, t, e, t', e', l, k);
    }
    case Switch(c, arms) => {
      var (arms', ls) := PullArms(OptArms(arms));
      ShapeArms(arms);
      JoinsLabels(Switch(c, arms'), ls);
      s', la := Switch(c, arms'), ls;
    }
    case Act(_) => s', la := s, [];
  }

  lemma IfShape(c: nat, t: seq<Stmt>, e: seq<Stmt>, t': seq<Stmt>, e': seq<Stmt>, la: seq<Stmt>, lb: seq<Stmt>)
    requires ShapedBody(t, t', la) && ShapedBody(e, e', lb)
    ensures ShapedStmt(If(c, t, e), If(c, t', e'), la + lb)
  {
    HeadingFirst(la, lb);
    LabelsAppend(la, lb);
  }

  /** The same for all cases of a switch. */
  ghost predicate ShapedArms(arms: seq<Arm>, arms': seq<Arm>, ls: seq<Stmt>) {
    && AllLabels(ls) && LabelsOfArms(arms) == LabelsOfArms(arms') + Labels(ls)
    && (LabelsOfArms(arms') == multiset{} <==> AtEndArms(arms))
    && (LabelsOfArms(arms') == multiset{} ==> FirstInArms(arms) == Heading(ls))
  }

  lemma {:induction false} ShapeArms(arms: seq<Arm>)
    requires CleanArms(arms)
    ensures var (arms', ls) := PullArms(OptArms(arms)); ShapedArms(arms, arms', ls)
    decreases arms
  {
    if arms != [] {
      var oa := OptArms(arms);
      var b := arms[0].body;
      assert oa[0] == Arm(arms[0].tag, OptSeq(b)) && oa[1..] == OptArms(arms[1..]);
      var (x, la) := LabelPull(OptSeq(b));
      var (arms', ls) := PullArms(oa[1..]);
      Shape(b);
      OptLabels(b);
      BodyShape(b, OptSeq(b));
      ShapeArms(arms[1..]);
      FirstArmPulled(oa, x, la, arms', ls);
      ArmShape(arms, x, la, arms', ls);
    }
  }

  lemma ArmShape(arms: seq<Arm>, x: seq<Stmt>, la: seq<Stmt>, arms': seq<Arm>, ls: seq<Stmt>)
    requires arms != [] && ShapedBody(arms[0].body, x, la) && ShapedArms(arms[1..], arms', ls)
    ensures ShapedArms(arms, [Arm(arms[0].tag, x)] + arms', la + ls)
  {
    HeadingFirst(la, ls);
    LabelsAppend(la, ls);
    assert ([Arm(arms[0].tag, x)] + arms')[1..] == arms';
  }

  // ----- nothing lost, told from the plain statements

  lemma LastOf(s: Stmt, la: seq<Stmt>)
    requires !Jumps(s) && forall x | x in la :: x.Label?
    ensures var o := [s] + la; !Jumps(o[|o| - 1])
  {
    if la != [] { assert la[|la| - 1] in la; }
  }

  /** What a statement other than a goto or return becomes ends in neither. */
  lemma NoJumpAtEnd(s: Stmt, y: seq<Stmt>)
    requires !Jumps(s)
    ensures CleanCut(OptStmt(s), y)
  {
    hide LabelPull, PullArms, LeadClean, PairOpt, Labels, LabelsOf, LabelsOfArms, OptSeq, OptArms;
    match s
    case Block(b) => {
      var (x, la) := LabelPull(OptSeq(b));
      JoinsLabels(Block(x), la);
      LastOf(Block(x), la);
    }
    case If(c, t, e) => {
      var (t', la) := LabelPull(OptSeq(t));
      var (e', lb) := LabelPull(OptSeq(e));
      CifJoins(c, OptSeq(t), OptSeq(e));
      LastOf(If(c, t', e'), la + lb);
    }
    case Switch(c, arms) => {
      var (arms', ls) := PullArms(OptArms(arms));
      PulledArmLabels(OptArms(arms));
      JoinsLabels(Switch(c, arms'), ls);
      LastOf(Switch(c, arms'), ls);
    }
    case _ =>
  }

  lemma JumpCut(s: Stmt, y: seq<Stmt>)
    requires Jumps(s)
    ensures OptStmt(s) == [s] && (CleanCut(OptStmt(s), y) <==> LeadClean(y))
  {}

  /** The condition on the plain statements is the one on the joins. */
  lemma {:induction false} NothingLostIsClean(ss: seq<Stmt>)
    ensures NothingLost(ss) <==> CleanSeq(ss)
    decreases ss
  {
    hide OptStmt, CleanCut, LeadClean, Droppable, PairOpt, OptSeq, NothingLostIn, CleanStmt, Trails, AllLabels, Behind;
    if ss != [] {
      NothingLostInIsClean(ss[0]);
      NothingLostIsClean(ss[1..]);
      if Jumps(ss[0]) {
        JumpCut(ss[0], OptSeq(ss[1..]));
        if CleanSeq(ss[1..]) { Shape(ss[1..]); }
      } else {
        NoJumpAtEnd(ss[0], OptSeq(ss[1..]));
      }
    }
  }

  lemma {:induction false} NothingLostInIsClean(s: Stmt)
    ensures NothingLostIn(s) <==> CleanStmt(s)
    decreases s
  {
    match s
    case Block(b) => NothingLostIsClean(b);
    case If(_, t, e) => { NothingLostIsClean(t); NothingLostIsClean(e); }
    case Switch(_, arms) => NothingLostArmsIsClean(arms);
    case _ =>
  }

  lemma {:induction false} NothingLostArmsIsClean(arms: seq<Arm>)
    ensures NothingLostArms(arms) <==> CleanArms(arms)
    decreases arms
  {
    if arms != [] {
      NothingLostIsClean(arms[0].body);
      NothingLostArmsIsClean(arms[1..]);
    }
  }

  /** A label that is lost. */
  lemma LostLabel(p: seq<Stmt>) returns (l: nat)
    requires Unique(Labels(p)) && !NothingLost(p)
    ensures l in Labels(p) && l !in Labels(OptSeq(p))
  {
    NothingLostIsClean(p);
    OptLabels(p);
    var o, a := Labels(OptSeq(p)), Labels(p);
    if a <= o { SmallerCard(a, o); }
    l :| l in a && o[l] < a[l];
    assert a[l] <= 1;
  }
}
