/** C statements as the code generator builds them, with the peephole optimisation that
    runs whenever two statements are joined (src/C/Generate.hs). */
module CStatements {
  import opened Common

  /** `Act` is any drawn text (SD): an expression, an assignment, a whole loop. Names,
      expressions and constants are numbers. */
  datatype Stmt =
    | Act(a: nat)
    | Goto(l: nat)
    | Label(l: nat)
    | Ret(e: nat)
    | Block(body: seq<Stmt>)
    | If(c: nat, thn: seq<Stmt>, els: seq<Stmt>)
    | Switch(c: nat, arms: seq<Arm>)

  /** One case of a switch; `None` is the default. */
  datatype Arm = Arm(tag: Option<nat>, body: seq<Stmt>)

  predicate Jumps(s: Stmt) { s.Goto? || s.Ret? }

  /** stmtPairOpt: what two neighbours may be replaced with. */
  function Peep(a: Stmt, b: Stmt): (r: Option<Stmt>)
    ensures r.None? <==> !(Jumps(a) && !b.Label?) && !(a.Goto? && b == Label(a.l))
  {
    if a.Goto? && b.Label? then
      if a.l == b.l then Some(b) else None
    else if a.Ret? && b.Label? then None
    else if Jumps(a) then Some(a)
    else None
  }

  /** pairOpt, which is mappend on statements. */
  function PairOpt(xs: seq<Stmt>, bs: seq<Stmt>): (r: seq<Stmt>)
    ensures |r| <= |xs| + |bs|
    decreases |xs| + |bs|
  {
    if xs == [] || bs == [] then xs + bs
    else
      match Peep(xs[|xs| - 1], bs[0])
      case None => xs + bs
      case Some(ab) => PairOpt(PairOpt(xs[..|xs| - 1], [ab]), bs[1..])
  }

  /** labelPull: the labels at the end of a statement, taken off. */
  function LabelPull(ss: seq<Stmt>): (r: (seq<Stmt>, seq<Stmt>))
    ensures ss == r.0 + r.1 && (forall s | s in r.1 :: s.Label?)
    ensures r.0 == [] || !r.0[|r.0| - 1].Label?
  {
    if ss != [] && ss[|ss| - 1].Label? then
      var (ss', rr) := LabelPull(ss[..|ss| - 1]);
      (ss', rr + [ss[|ss| - 1]])
    else (ss, [])
  }

  /** subBlock, cif and switch': the labels that end an inner statement move behind it. */
  function SubBlock(st: seq<Stmt>): seq<Stmt> {
    var (st', la) := LabelPull(st);
    PairOpt([Block(st')], la)
  }

  function Cif(c: nat, thn: seq<Stmt>, els: seq<Stmt>): seq<Stmt> {
    var (thn', la) := LabelPull(thn);
    var (els', lb) := LabelPull(els);
    PairOpt(PairOpt([If(c, thn', els')], la), lb)
  }

  function PullArms(arms: seq<Arm>): (r: (seq<Arm>, seq<Stmt>))
    ensures |r.0| == |arms|
  {
    if arms == [] then ([], [])
    else
      var (b, l) := LabelPull(arms[0].body);
      var (arms', ls) := PullArms(arms[1..]);
      ([Arm(arms[0].tag, b)] + arms', PairOpt(l, ls))
  }

  function SwitchOf(c: nat, arms: seq<Arm>): seq<Stmt> {
    var (arms', ls) := PullArms(arms);
    PairOpt([Switch(c, arms')], ls)
  }

  /** A whole statement put together from its parts with the functions above. */
  function OptStmt(s: Stmt): seq<Stmt> {
    match s
    case Block(b) => SubBlock(OptSeq(b))
    case If(c, t, e) => Cif(c, OptSeq(t), OptSeq(e))
    case Switch(c, arms) => SwitchOf(c, OptArms(arms))
    case _ => [s]
  }

  function OptSeq(ss: seq<Stmt>): seq<Stmt> {
    if ss == [] then [] else PairOpt(OptStmt(ss[0]), OptSeq(ss[1..]))
  }

  function OptArms(arms: seq<Arm>): (r: seq<Arm>)
    ensures |r| == |arms|
  {
    if arms == [] then [] else [Arm(arms[0].tag, OptSeq(arms[0].body))] + OptArms(arms[1..])
  }

  // ----- the labels of a statement

  function LabelsOf(s: Stmt): multiset<nat> {
    match s
    case Label(l) => multiset{l}
    case Block(b) => Labels(b)
    case If(_, t, e) => Labels(t) + Labels(e)
    case Switch(_, arms) => LabelsOfArms(arms)
    case _ => multiset{}
  }

  function Labels(ss: seq<Stmt>): multiset<nat> {
    if ss == [] then multiset{} else LabelsOf(ss[0]) + Labels(ss[1..])
  }

  function LabelsOfArms(arms: seq<Arm>): multiset<nat> {
    if arms == [] then multiset{} else Labels(arms[0].body) + LabelsOfArms(arms[1..])
  }

  /** No label twice, as C demands of a function body. */
  ghost predicate Unique(ls: multiset<nat>) { forall l :: ls[l] <= 1 }

  lemma {:induction false} LabelsAppend(a: seq<Stmt>, b: seq<Stmt>)
    ensures Labels(a + b) == Labels(a) + Labels(b)
  {
    if a == [] {
      assert a + b == b;
    } else {
      assert (a + b)[1..] == a[1..] + b;
      LabelsAppend(a[1..], b);
    }
  }

  // ----- where joining loses nothing

  /** The statements before the first label hold no labels inside. */
  predicate LeadClean(bs: seq<Stmt>) {
    bs == [] || bs[0].Label? || (LabelsOf(bs[0]) == multiset{} && LeadClean(bs[1..]))
  }

  /** What joining drops as unreachable holds no label that could be reached after all. */
  predicate CleanCut(xs: seq<Stmt>, bs: seq<Stmt>) {
    xs == [] || !Jumps(xs[|xs| - 1]) || LeadClean(bs)
  }

  /** The same at every join inside a statement. */
  predicate CleanStmt(s: Stmt) {
    match s
    case Block(b) => CleanSeq(b)
    case If(_, t, e) => CleanSeq(t) && CleanSeq(e)
    case Switch(_, arms) => CleanArms(arms)
    case _ => true
  }

  predicate CleanSeq(ss: seq<Stmt>) {
    ss == [] || (CleanStmt(ss[0]) && CleanSeq(ss[1..]) && CleanCut(OptStmt(ss[0]), OptSeq(ss[1..])))
  }

  predicate CleanArms(arms: seq<Arm>) {
    arms == [] || (CleanSeq(arms[0].body) && CleanArms(arms[1..]))
  }

  // ----- built values: joining as a fold

  /** No two neighbours that the optimisation would still replace: no goto to the next
      label, and nothing but a label after a goto or return. */
  predicate Built(ss: seq<Stmt>) {
    forall i | 0 <= i < |ss| - 1 :: Peep(ss[i], ss[i + 1]).None?
  }

  lemma TailBuilt(ss: seq<Stmt>)
    requires Built(ss) && ss != []
    ensures Built(ss[1..])
  {
    var t := ss[1..];
    forall i | 0 <= i < |t| - 1
      ensures Peep(t[i], t[i + 1]).None?
    {
      assert Peep(ss[i + 1], ss[i + 1 + 1]).None?;
    }
  }

  lemma FrontBuilt(ss: seq<Stmt>)
    requires Built(ss) && ss != []
    ensures Built(ss[..|ss| - 1])
  {
    var t := ss[..|ss| - 1];
    forall i | 0 <= i < |t| - 1
      ensures Peep(t[i], t[i + 1]).None?
    {
      assert Peep(ss[i], ss[i + 1]).None?;
    }
  }

  /** Put one statement in front of a built one. */
  function Cons(a: Stmt, r: seq<Stmt>): seq<Stmt>
    decreases |r|
  {
    if r == [] || Peep(a, r[0]).None? then [a] + r
    else if r[0].Label? then r
    else Cons(a, r[1..])
  }

  function Fold(xs: seq<Stmt>, z: seq<Stmt>): seq<Stmt> {
    if xs == [] then z else Cons(xs[0], Fold(xs[1..], z))
  }

  lemma {:induction false} ConsAbsorbs(a: Stmt, r0: Stmt, w: seq<Stmt>)
    requires Jumps(a) && !r0.Label?
    ensures Cons(a, Cons(r0, w)) == Cons(a, w)
    decreases |w|
  {
    if w != [] && Peep(r0, w[0]).Some? && !w[0].Label? {
      ConsAbsorbs(a, r0, w[1..]);
      ConsAbsorbs(a, w[0], w[1..]);
      ConsDropsHead(a, w);
    } else if w != [] && Peep(r0, w[0]).Some? {
    } else {
      assert ([r0] + w)[1..] == w;
    }
  }

  lemma ConsDropsHead(a: Stmt, w: seq<Stmt>)
    requires Jumps(a) && w != [] && !w[0].Label?
    ensures Cons(a, w) == Cons(a, w[1..])
  {}

  lemma {:induction false} FoldCons(a: Stmt, r: seq<Stmt>, z: seq<Stmt>)
    ensures Fold(Cons(a, r), z) == Cons(a, Fold(r, z))
    decreases |r|
  {
    if r == [] || Peep(a, r[0]).None? {
      assert ([a] + r)[1..] == r;
    } else if r[0].Label? {
      var w := Fold(r[1..], z);
      assert Fold(r, z) == [r[0]] + w;
    } else {
      FoldCons(a, r[1..], z);
      ConsAbsorbs(a, r[0], Fold(r[1..], z));
    }
  }

  /** Folding is associative, whatever is folded. */
  lemma {:induction false} FoldAssociative(a: seq<Stmt>, b: seq<Stmt>, c: seq<Stmt>)
    ensures Fold(Fold(a, b), c) == Fold(a, Fold(b, c))
  {
    if a != [] {
      FoldAssociative(a[1..], b, c);
      FoldCons(a[0], Fold(a[1..], b), c);
    }
  }

  /** Where the neighbours do not react, folding is concatenation. */
  lemma {:induction false} FoldPlain(xs: seq<Stmt>, z: seq<Stmt>)
    requires Built(xs) && (xs == [] || z == [] || Peep(xs[|xs| - 1], z[0]).None?)
    ensures Fold(xs, z) == xs + z
  {
    if xs == [] {
      assert xs + z == z;
    } else {
      TailBuilt(xs);
      FoldPlain(xs[1..], z);
      assert xs + z == [xs[0]] + (xs[1..] + z);
      if |xs| > 1 { assert (xs[1..] + z)[0] == xs[1] && Peep(xs[0], xs[0 + 1]).None?; }
    }
  }

  lemma {:induction false} FoldAppend(a: seq<Stmt>, b: seq<Stmt>, z: seq<Stmt>)
    ensures Fold(a + b, z) == Fold(a, Fold(b, z))
  {
    if a == [] {
      assert a + b == b;
    } else {
      assert (a + b)[1..] == a[1..] + b;
      FoldAppend(a[1..], b, z);
    }
  }

  /** On a built left part, pairOpt is the fold. */
  lemma {:induction false} PairOptIsFold(xs: seq<Stmt>, bs: seq<Stmt>)
    requires Built(xs)
    ensures PairOpt(xs, bs) == Fold(xs, bs)
    decreases |xs| + |bs|
  {
    if xs == [] || bs == [] || Peep(xs[|xs| - 1], bs[0]).None? {
      FoldPlain(xs, bs);
    } else {
      var xs', a := xs[..|xs| - 1], xs[|xs| - 1];
      var ab := Peep(a, bs[0]).value;
      assert xs == xs' + [a];
      FrontBuilt(xs);
      if xs' != [] { assert Peep(xs[|xs| - 2], xs[|xs| - 2 + 1]).None?; }
      FoldPlain(xs', [ab]);
      PairOptIsFold(xs', [ab]);
      FoldAppend(xs', [a], bs);
      assert PairOpt(xs', [ab]) == xs' + [ab];
      if ab == a {
        PairOptIsFold(xs, bs[1..]);
        FoldAppend(xs', [a], bs[1..]);
      } else {
        assert ab == bs[0] && bs == [ab] + bs[1..];
        LabelNeverReacts(xs' + [ab], bs[1..]);
        FoldPlain(xs', bs);
        assert xs' + [ab] + bs[1..] == xs' + bs;
      }
    }
  }

  lemma LabelNeverReacts(xs: seq<Stmt>, bs: seq<Stmt>)
    requires xs != [] && xs[|xs| - 1].Label?
    ensures PairOpt(xs, bs) == xs + bs
  {}

  /** Joining built statements is associative. */
  lemma JoinAssociative(a: seq<Stmt>, b: seq<Stmt>, c: seq<Stmt>)
    requires Built(a) && Built(b)
    ensures PairOpt(PairOpt(a, b), c) == PairOpt(a, PairOpt(b, c))
  {
    PairOptIsFold(a, b);
    PairOptIsFold(b, c);
    PairOptIsFold(a, PairOpt(b, c));
    FoldAssociative(a, b, c);
    FoldBuilt(a, b);
    PairOptIsFold(PairOpt(a, b), c);
  }

  lemma {:induction false} ConsBuilt(a: Stmt, r: seq<Stmt>)
    requires Built(r)
    ensures Built(Cons(a, r))
    decreases |r|
  {
    if r == [] || Peep(a, r[0]).None? {
      forall i | 0 <= i < |r|
        ensures Peep(([a] + r)[i], ([a] + r)[i + 1]).None?
      {
        if i > 0 { assert Peep(r[i - 1], r[i - 1 + 1]).None?; }
      }
    } else if !r[0].Label? {
      TailBuilt(r);
      ConsBuilt(a, r[1..]);
    }
  }

  lemma {:induction false} FoldBuilt(a: seq<Stmt>, z: seq<Stmt>)
    requires Built(z)
    ensures Built(Fold(a, z))
  {
    if a != [] {
      FoldBuilt(a[1..], z);
      ConsBuilt(a[0], Fold(a[1..], z));
    }
  }

  /** Joining built statements leaves no goto to the next label, and nothing but labels
      after a goto or return. */
  lemma JoinBuilt(a: seq<Stmt>, b: seq<Stmt>)
    requires Built(a) && Built(b)
    ensures Built(PairOpt(a, b))
  {
    PairOptIsFold(a, b);
    FoldBuilt(a, b);
  }
}
