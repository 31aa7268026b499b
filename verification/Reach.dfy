/** `_forward_impact`: a label-correcting worklist that keeps the best decayed impact of each node. */
module Reach {
  import opened Digraph

  // ---- Specification ----

  /** m maps exactly the nodes that a walk of value >= CUT reaches, each to the best such value. */
  ghost predicate IsImpact(g: Graph, root: string, m: map<string, real>) {
    && (forall v :: v in m ==> exists p :: Reaches(g, root, p) && Last(p) == v && Value(g, p) == m[v] >= CUT)
    && (forall p :: Reaches(g, root, p) && Value(g, p) >= CUT ==> Last(p) in m && Value(g, p) <= m[Last(p)])
  }

  lemma BestWalk(g: Graph, root: string, m: map<string, real>, v: string) returns (p: seq<string>)
    requires IsImpact(g, root, m) && v in m
    ensures Reaches(g, root, p) && Last(p) == v && Value(g, p) == m[v] >= CUT
  {
    p :| Reaches(g, root, p) && Last(p) == v && Value(g, p) == m[v] >= CUT;
  }

  lemma ImpactDominates(g: Graph, root: string, m: map<string, real>, p: seq<string>)
    requires IsImpact(g, root, m) && Reaches(g, root, p) && Value(g, p) >= CUT
    ensures Last(p) in m && Value(g, p) <= m[Last(p)]
  {
  }

  lemma ImpactWithin(g: Graph, root: string, m: map<string, real>, m': map<string, real>, v: string)
    requires IsImpact(g, root, m) && IsImpact(g, root, m') && v in m
    ensures v in m' && m[v] <= m'[v]
  {
    var p := BestWalk(g, root, m, v);
    ImpactDominates(g, root, m', p);
  }

  /** The specification determines the result. */
  lemma ImpactUnique(g: Graph, root: string, m: map<string, real>, m': map<string, real>)
    requires IsImpact(g, root, m) && IsImpact(g, root, m')
    ensures m == m'
  {
    forall v | v in m ensures v in m' && m[v] == m'[v] {
      ImpactWithin(g, root, m, m', v);
      ImpactWithin(g, root, m', m, v);
    }
    forall v | v in m' ensures v in m { ImpactWithin(g, root, m', m, v); }
  }

  // ---- What the worklist keeps ----

  type Entry = (string, real)

  /** Each recorded impact is the value of a walk from root that carries CUT. */
  ghost predicate Witnessed(g: Graph, root: string, impact: map<string, real>) {
    forall v :: v in impact ==> exists p :: Reaches(g, root, p) && Last(p) == v && Value(g, p) == impact[v] >= CUT
  }

  /** Entry e was queued for walk p. */
  ghost predicate QueuedFor(g: Graph, root: string, e: Entry, p: seq<string>) {
    IsWalk(g, p) && p[0] == root && Last(p) == e.0 && Value(g, p) == e.1 && |p| <= 6 && Last(p) in g.nodes
  }

  ghost predicate Queued(g: Graph, root: string, frontier: seq<Entry>, paths: seq<seq<string>>) {
    |frontier| == |paths| && forall i :: 0 <= i < |frontier| ==> QueuedFor(g, root, frontier[i], paths[i])
  }

  /** The arc (v, nxt) yields nothing better than what is recorded. */
  ghost predicate Covered(g: Graph, impact: map<string, real>, v: string, x: real, nxt: string)
    requires (v, nxt) in g.arcs
  {
    var nw := Carry(g, x, v, nxt);
    nw < CUT || (nxt in impact && nw <= impact[nxt])
  }

  ghost predicate Relaxed(g: Graph, impact: map<string, real>, v: string, x: real) {
    forall nxt :: (v, nxt) in g.arcs ==> Covered(g, impact, v, x, nxt)
  }

  /** The label (v, x) waits in the frontier, is being expanded, or is relaxed. */
  ghost predicate Handled(g: Graph, impact: map<string, real>, frontier: seq<Entry>, current: set<Entry>, v: string, x: real) {
    (v, x) in frontier || (v, x) in current || Relaxed(g, impact, v, x)
  }

  /** The root with value 1, and every recorded node with its impact, is handled. */
  ghost predicate Closed(g: Graph, root: string, impact: map<string, real>, frontier: seq<Entry>, current: set<Entry>) {
    && Handled(g, impact, frontier, current, root, 1.0)
    && forall v :: v in impact ==> Handled(g, impact, frontier, current, v, impact[v])
  }

  lemma RecordKeepsClosed(g: Graph, root: string, impact: map<string, real>, frontier: seq<Entry>,
                          current: set<Entry>, nxt: string, nw: real)
    requires Closed(g, root, impact, frontier, current)
    requires nxt in impact ==> impact[nxt] < nw
    ensures Closed(g, root, impact[nxt := nw], frontier + [(nxt, nw)], current)
  {
  }

  /** Once the expanded entry is relaxed it no longer needs to be excepted. */
  lemma FinishCurrent(g: Graph, root: string, impact: map<string, real>, frontier: seq<Entry>, node: string, w: real)
    requires Closed(g, root, impact, frontier, {(node, w)}) && Relaxed(g, impact, node, w)
    ensures Closed(g, root, impact, frontier, {})
  {
  }

  /** Taking the head of the frontier makes it the expanded entry. */
  lemma PopKeepsClosed(g: Graph, root: string, impact: map<string, real>, frontier: seq<Entry>)
    requires Closed(g, root, impact, frontier, {}) && frontier != []
    ensures Closed(g, root, impact, frontier[1..], {frontier[0]})
  {
  }

  /** The first n successors of v are covered. */
  ghost predicate CoveredTo(g: Graph, impact: map<string, real>, v: string, x: real, succ: seq<string>, n: nat) {
    n <= |succ| && forall k :: 0 <= k < n ==> (v, succ[k]) in g.arcs && Covered(g, impact, v, x, succ[k])
  }

  lemma SkipCovers(g: Graph, impact: map<string, real>, v: string, x: real, succ: seq<string>, n: nat)
    requires CoveredTo(g, impact, v, x, succ, n) && n < |succ|
    requires (v, succ[n]) in g.arcs && Covered(g, impact, v, x, succ[n])
    ensures CoveredTo(g, impact, v, x, succ, n + 1)
  {
  }

  lemma RecordCovers(g: Graph, impact: map<string, real>, v: string, x: real, succ: seq<string>, n: nat, nw: real)
    requires CoveredTo(g, impact, v, x, succ, n) && n < |succ|
    requires (v, succ[n]) in g.arcs && nw == Carry(g, x, v, succ[n])
    requires succ[n] in impact ==> impact[succ[n]] < nw
    ensures CoveredTo(g, impact[succ[n] := nw], v, x, succ, n + 1)
  {
  }

  /** With nothing left to expand, the record dominates every walk that carries CUT. */
  lemma {:induction false} ClosedIsComplete(g: Graph, root: string, impact: map<string, real>, p: seq<string>)
    requires UnitWeights(g) && Closed(g, root, impact, [], {})
    requires Reaches(g, root, p) && Value(g, p) >= CUT
    ensures Last(p) in impact && Value(g, p) <= impact[Last(p)]
    decreases |p|
  {
    var q := Front(p);
    var u, v := Last(q), Last(p);
    HopDecays(g, p);
    assert IsWalk(g, q) && q[0] == root;
    var x := 1.0;
    if |q| >= 2 {
      ClosedIsComplete(g, root, impact, q);
      x := impact[u];
    } else {
      assert u == root;
    }
    assert Handled(g, impact, [], {}, u, x);
    assert (u, v) in g.arcs by { assert p[|p| - 2] == u; }
    assert Relaxed(g, impact, u, x);
    assert Covered(g, impact, u, x, v);
    CarryMonotone(g, Value(g, q), x, u, v);
  }

  lemma CarryMonotone(g: Graph, a: real, b: real, u: string, v: string)
    requires (u, v) in g.arcs && g.arcs[(u, v)].weight >= 0.0 && a <= b
    ensures Carry(g, a, u, v) <= Carry(g, b, u, v)
  {
  }

  // ---- Termination: a potential over the frontier ----

  ghost function NatPower(b: nat, n: nat): nat { if n == 0 then 1 else b * NatPower(b, n - 1) }

  lemma {:induction false} NatPowerPositive(b: nat, n: nat)
    requires b >= 1
    ensures NatPower(b, n) >= 1
  {
    if n > 0 {
      NatPowerPositive(b, n - 1);
      assert b * NatPower(b, n - 1) >= 1 * NatPower(b, n - 1) by {
        assert (b - 1) * NatPower(b, n - 1) >= 0;
      }
    }
  }

  /** A walk of depth d is worth (degree + 1)^(5 - d), and a walk that is too long to queue nothing. */
  ghost function Worth(degree: nat, length: nat): nat {
    if 1 <= length <= 6 then NatPower(degree + 1, 6 - length) else 0
  }

  ghost function Potential(degree: nat, paths: seq<seq<string>>): nat {
    if paths == [] then 0 else Worth(degree, |paths[0]|) + Potential(degree, paths[1..])
  }

  lemma {:induction false} PotentialAppend(degree: nat, paths: seq<seq<string>>, p: seq<string>)
    ensures Potential(degree, paths + [p]) == Potential(degree, paths) + Worth(degree, |p|)
  {
    if paths == [] {
      assert (paths + [p])[1..] == [];
    } else {
      assert (paths + [p])[1..] == paths[1..] + [p];
      PotentialAppend(degree, paths[1..], p);
    }
  }

  ghost function Times(n: nat, worth: nat): nat { if n == 0 then 0 else Times(n - 1, worth) + worth }

  lemma {:induction false} TimesIsProduct(n: nat, worth: nat)
    ensures Times(n, worth) == n * worth
  {
    if n > 0 { TimesIsProduct(n - 1, worth); }
  }

  lemma FewerThan(children: nat, degree: nat, c: nat)
    requires children <= degree && c >= 1
    ensures children * c < (degree + 1) * c
  {
  }

  /** All children of an entry together are worth less than the entry. */
  lemma ChildrenWorthLess(degree: nat, length: nat, children: nat)
    requires 1 <= length <= 6 && children <= degree
    ensures Times(children, Worth(degree, length + 1)) < Worth(degree, length)
  {
    var c := Worth(degree, length + 1);
    TimesIsProduct(children, c);
    if length < 6 {
      NatPowerPositive(degree + 1, 5 - length);
      FewerThan(children, degree, c);
      assert NatPower(degree + 1, 6 - length) == (degree + 1) * NatPower(degree + 1, 5 - length);
    } else {
      assert NatPower(degree + 1, 0) == 1;
    }
  }

  ghost predicate DegreeBound(g: Graph, degree: nat) {
    forall u :: u in g.succ ==> |g.succ[u]| <= degree
  }

  /** What recording a better value for the successor nxt of `path` does to witnesses and queue. */
  lemma RecordKeepsWalks(g: Graph, root: string, impact: map<string, real>,
                         frontier: seq<Entry>, paths: seq<seq<string>>, node: string, w: real, path: seq<string>,
                         nxt: string, nw: real)
    requires UnitWeights(g) && Witnessed(g, root, impact) && Queued(g, root, frontier, paths)
    requires QueuedFor(g, root, (node, w), path) && (node, nxt) in g.arcs && nxt in g.nodes
    requires nw == Carry(g, w, node, nxt) && nw >= CUT
    ensures |path| <= 5
    ensures Witnessed(g, root, impact[nxt := nw])
    ensures Queued(g, root, frontier + [(nxt, nw)], paths + [path + [nxt]])
  {
    WalkExtend(g, path, nxt);
    FiveHops(g, path + [nxt]);
    assert QueuedFor(g, root, (nxt, nw), path + [nxt]);
  }

  /** What holds while the first n arcs out of `node` have been relaxed. */
  ghost predicate Expanding(g: Graph, root: string, impact: map<string, real>, frontier: seq<Entry>, paths: seq<seq<string>>,
                            node: string, w: real, succ: seq<string>, n: nat) {
    && Witnessed(g, root, impact) && Queued(g, root, frontier, paths)
    && Closed(g, root, impact, frontier, {(node, w)})
    && CoveredTo(g, impact, node, w, succ, n)
  }

  lemma RecordKeepsExpanding(g: Graph, root: string, impact: map<string, real>, frontier: seq<Entry>, paths: seq<seq<string>>,
                             node: string, w: real, path: seq<string>, succ: seq<string>, n: nat, nw: real)
    requires UnitWeights(g) && Expanding(g, root, impact, frontier, paths, node, w, succ, n) && n < |succ|
    requires QueuedFor(g, root, (node, w), path) && (node, succ[n]) in g.arcs && succ[n] in g.nodes
    requires nw == Carry(g, w, node, succ[n]) && nw >= CUT && (succ[n] in impact ==> impact[succ[n]] < nw)
    ensures |path| <= 5
    ensures Expanding(g, root, impact[succ[n] := nw], frontier + [(succ[n], nw)], paths + [path + [succ[n]]], node, w, succ, n + 1)
  {
    RecordKeepsWalks(g, root, impact, frontier, paths, node, w, path, succ[n], nw);
    RecordKeepsClosed(g, root, impact, frontier, {(node, w)}, succ[n], nw);
    RecordCovers(g, impact, node, w, succ, n, nw);
  }

  /** Expand one entry: relax every arc that leaves it. */
  method Expand(g: Graph, root: string, node: string, w: real, ghost path: seq<string>,
                impact0: map<string, real>, frontier0: seq<Entry>,
                ghost paths0: seq<seq<string>>, ghost degree: nat)
    returns (impact: map<string, real>, frontier: seq<Entry>,
             ghost paths: seq<seq<string>>)
    requires UnitWeights(g) && node in g.succ && QueuedFor(g, root, (node, w), path)
    requires forall n :: (node, n) in g.arcs <==> n in g.succ[node]
    requires forall n :: n in g.succ[node] ==> n in g.nodes
    requires Witnessed(g, root, impact0) && Queued(g, root, frontier0, paths0)
    requires Closed(g, root, impact0, frontier0, {(node, w)})
    ensures Witnessed(g, root, impact) && Queued(g, root, frontier, paths)
    ensures Closed(g, root, impact, frontier, {})
    ensures Potential(degree, paths) <= Potential(degree, paths0) + Times(|g.succ[node]|, Worth(degree, |path| + 1))
  {
    impact, frontier, paths := impact0, frontier0, paths0;
    var succ := g.succ[node];
    for i := 0 to |succ|
      invariant Expanding(g, root, impact, frontier, paths, node, w, succ, i)
      invariant Potential(degree, paths) <= Potential(degree, paths0) + Times(i, Worth(degree, |path| + 1))
    {
      var nxt := succ[i];
      var nw := Carry(g, w, node, nxt);
      if nw >= CUT && nw > (if nxt in impact then impact[nxt] else 0.0) {
        RecordKeepsExpanding(g, root, impact, frontier, paths, node, w, path, succ, i, nw);
        PotentialAppend(degree, paths, path + [nxt]);
        impact, frontier := impact[nxt := nw], frontier + [(nxt, nw)];
        paths := paths + [path + [nxt]];
      } else {
        SkipCovers(g, impact, node, w, succ, i);
      }
    }
    assert Relaxed(g, impact, node, w);
    FinishCurrent(g, root, impact, frontier, node, w);
  }

  /**
   * Exact optimality on every finite digraph, cycles included, within (degree + 1)^5 expansions.
   */
  method ForwardImpact(g: Graph, root: string, ghost degree: nat)
    returns (impact: map<string, real>, ghost expansions: nat)
    requires WellFormed(g) && UnitWeights(g) && root in g.nodes && DegreeBound(g, degree)
    ensures IsImpact(g, root, impact)
    ensures expansions <= NatPower(degree + 1, 5)
  {
    impact := map[];
    var frontier: seq<Entry> := [(root, 1.0)];
    ghost var paths := [[root]];
    expansions := 0;
    assert paths[1..] == [];
    while frontier != []
      invariant Witnessed(g, root, impact) && Queued(g, root, frontier, paths)
      invariant Closed(g, root, impact, frontier, {})
      invariant expansions + Potential(degree, paths) <= NatPower(degree + 1, 5)
      decreases Potential(degree, paths)
    {
      var (node, w) := frontier[0];
      ghost var path := paths[0];
      assert QueuedFor(g, root, (node, w), path);
      PopKeepsClosed(g, root, impact, frontier);
      assert |path| <= 6;
      ChildrenWorthLess(degree, |path|, |g.succ[node]|);
      impact, frontier, paths :=
        Expand(g, root, node, w, path, impact, frontier[1..], paths[1..], degree);
      expansions := expansions + 1;
    }
    forall p | Reaches(g, root, p) && Value(g, p) >= CUT
      ensures Last(p) in impact && Value(g, p) <= impact[Last(p)]
    {
      ClosedIsComplete(g, root, impact, p);
    }
  }
}
