/** The object graph the collector traverses, as a mathematical object: memory is
    a map from locations to the words stored there. */
module HeapGraph {
  import opened SmartPtr

  type Memory = map<Addr, seq<Sptr>>

  /** GETHEAD: the first word of a location. */
  function Head(m: Memory, a: Addr): Sptr {
    if a in m && m[a] != [] then m[a][0] else Func(0)
  }

  /** `follow`: the WHNF value a pointer stands for; a code pointer if the pointer is
      to a thunk that has not been evaluated. */
  function Follow(m: Memory, p: Sptr): Sptr {
    if p.Lazy? then Head(m, p.loc) else p
  }

  /** What the collector replaces a scanned word by: a lazy pointer to a location
      whose head is not lazy becomes that head. */
  function Norm(m: Memory, p: Sptr): Sptr {
    if p.Lazy? && !IsLazy(Head(m, p.loc)) then Head(m, p.loc) else p
  }

  /** The collected location a word points to, if any (IS_PTR and gc_check_heap). */
  function Target(p: Sptr): set<Addr> {
    if IsPtr(p) && p.loc.Entry? then {p.loc} else {}
  }

  /** How many leading words of the object at `a` are scanned: num_ptrs of its block. */
  function Scanned(np: seq<nat>, a: Addr): nat {
    if a.Entry? && a.page < |np| then np[a.page] else 0
  }

  ghost predicate Edge(m: Memory, np: seq<nat>, a: Addr, b: Addr) {
    a in m && exists j: nat :: j < |m[a]| && j < Scanned(np, a) && b in Target(Norm(m, m[a][j]))
  }

  // ----- reachability

  ghost predicate Path(m: Memory, np: seq<nat>, path: seq<Addr>) {
    forall i | 0 <= i < |path| - 1 :: Edge(m, np, path[i], path[i + 1])
  }

  /** `a` can be reached from a member of `from` over normalised slots. */
  ghost predicate Reachable(m: Memory, np: seq<nat>, from: set<Addr>, a: Addr) {
    exists path: seq<Addr> :: path != [] && path[0] in from && path[|path| - 1] == a && Path(m, np, path)
  }

  lemma ReachStart(m: Memory, np: seq<nat>, from: set<Addr>, a: Addr)
    requires a in from
    ensures Reachable(m, np, from, a)
  {
    assert Path(m, np, [a]);
    assert [a][0] in from;
  }

  lemma ReachStep(m: Memory, np: seq<nat>, from: set<Addr>, a: Addr, b: Addr)
    requires Reachable(m, np, from, a) && Edge(m, np, a, b)
    ensures Reachable(m, np, from, b)
  {
    var path :| path != [] && path[0] in from && path[|path| - 1] == a && Path(m, np, path);
    var longer := path + [b];
    assert longer[0] in from && longer[|longer| - 1] == b && Path(m, np, longer);
  }

  ghost predicate ClosedUnder(m: Memory, np: seq<nat>, s: set<Addr>) {
    forall a, b | a in s && Edge(m, np, a, b) :: b in s
  }

  lemma {:induction false} PathStays(m: Memory, np: seq<nat>, s: set<Addr>, path: seq<Addr>, n: nat)
    requires ClosedUnder(m, np, s) && n < |path| && path[0] in s && Path(m, np, path)
    ensures path[n] in s
  {
    if n > 0 {
      PathStays(m, np, s, path, n - 1);
      assert Edge(m, np, path[n - 1], path[n]);
    }
  }

  /** Whatever is reachable from a subset of a closed set lies in the closed set. */
  lemma ReachInside(m: Memory, np: seq<nat>, from: set<Addr>, s: set<Addr>, a: Addr)
    requires ClosedUnder(m, np, s) && from <= s && Reachable(m, np, from, a)
    ensures a in s
  {
    var path :| path != [] && path[0] in from && path[|path| - 1] == a && Path(m, np, path);
    PathStays(m, np, s, path, |path| - 1);
  }
}
