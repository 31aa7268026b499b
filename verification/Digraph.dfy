/** Causal edges, the weighted digraph built from them, and walks with decayed value. */
module Digraph {
  import opened Basics

  const DECAY: real := 0.7
  const CUT: real := 0.15

  datatype Edge = Edge(src: string, dst: string, r: real, lag: int, evidence: seq<string>)

  datatype Arc = Arc(weight: real, lag: int)

  /** Nodes and successors in insertion order, and the data of each arc. */
  datatype Graph = Graph(nodes: seq<string>, succ: map<string, seq<string>>, arcs: map<(string, string), Arc>)

  const EMPTY := Graph([], map[], map[])

  ghost predicate NoRepeats<T>(s: seq<T>) { forall i, j :: 0 <= i < j < |s| ==> s[i] != s[j] }

  ghost predicate WellFormed(g: Graph) {
    && NoRepeats(g.nodes)
    && (forall u :: u in g.succ <==> u in g.nodes)
    && (forall u :: u in g.succ ==> NoRepeats(g.succ[u]))
    && (forall u, v :: (u, v) in g.arcs <==> u in g.succ && v in g.succ[u])
    && (forall u, v :: (u, v) in g.arcs ==> v in g.nodes)
    && (forall u, v :: (u, v) in g.arcs ==> g.arcs[(u, v)].weight >= 0.0)
  }

  ghost predicate UnitWeights(g: Graph) {
    forall u, v :: (u, v) in g.arcs ==> 0.0 <= g.arcs[(u, v)].weight <= 1.0
  }

  function AddNode(g: Graph, n: string): (g': Graph)
    requires WellFormed(g)
    ensures WellFormed(g') && g'.arcs == g.arcs
    ensures forall m :: m in g'.nodes <==> m in g.nodes || m == n
  {
    if n in g.nodes then g else Graph(g.nodes + [n], g.succ[n := []], g.arcs)
  }

  /** Add (u, v) with its data, or overwrite the data of the arc if it exists. */
  function PutArc(g: Graph, u: string, v: string, arc: Arc): (g': Graph)
    requires WellFormed(g) && u in g.nodes && v in g.nodes && arc.weight >= 0.0
    ensures WellFormed(g') && g'.nodes == g.nodes && g'.arcs == g.arcs[(u, v) := arc]
  {
    Graph(g.nodes,
          if (u, v) in g.arcs then g.succ else g.succ[u := g.succ[u] + [v]],
          g.arcs[(u, v) := arc])
  }

  /** networkx `add_edge`: adds missing endpoints, then the arc. */
  function AddEdge(g: Graph, e: Edge): (g': Graph)
    requires WellFormed(g)
    ensures WellFormed(g')
    ensures g'.arcs == g.arcs[(e.src, e.dst) := Arc(Abs(e.r), e.lag)]
    ensures forall n :: n in g'.nodes <==> n in g.nodes || n == e.src || n == e.dst
  {
    PutArc(AddNode(AddNode(g, e.src), e.dst), e.src, e.dst, Arc(Abs(e.r), e.lag))
  }

  /** es[i] is the last of the edges from u to v, the one whose data the graph keeps. */
  ghost predicate IsLast(es: seq<Edge>, i: int, u: string, v: string) {
    && 0 <= i < |es| && es[i].src == u && es[i].dst == v
    && forall j :: i < j < |es| ==> es[j].src != u || es[j].dst != v
  }

  ghost predicate Touches(e: Edge, n: string) { e.src == n || e.dst == n }

  ghost predicate NodesOf(nodes: seq<string>, es: seq<Edge>) {
    forall n :: n in nodes <==> exists i :: 0 <= i < |es| && Touches(es[i], n)
  }

  ghost predicate ArcFrom(arc: Arc, es: seq<Edge>, u: string, v: string) {
    exists i :: IsLast(es, i, u, v) && arc == Arc(Abs(es[i].r), es[i].lag)
  }

  ghost predicate ArcsOf(arcs: map<(string, string), Arc>, es: seq<Edge>) {
    && (forall i :: 0 <= i < |es| ==> (es[i].src, es[i].dst) in arcs)
    && (forall u, v :: (u, v) in arcs ==> ArcFrom(arcs[(u, v)], es, u, v))
  }

  /** The arcs are exactly the pairs that occur as edges, each with the data of its last edge. */
  ghost predicate Represents(g: Graph, es: seq<Edge>) {
    WellFormed(g) && NodesOf(g.nodes, es) && ArcsOf(g.arcs, es)
  }

  function AddNew(s: seq<string>, x: string): seq<string> { if x in s then s else s + [x] }

  /** The endpoints, by first appearance. */
  ghost function Appearing(es: seq<Edge>): seq<string> {
    if es == [] then [] else AddNew(AddNew(Appearing(es[..|es| - 1]), es[|es| - 1].src), es[|es| - 1].dst)
  }

  /** The targets of u, by first appearance. */
  ghost function TargetsOf(es: seq<Edge>, u: string): seq<string> {
    if es == [] then []
    else if es[|es| - 1].src == u then AddNew(TargetsOf(es[..|es| - 1], u), es[|es| - 1].dst)
    else TargetsOf(es[..|es| - 1], u)
  }

  function Successors(g: Graph, u: string): seq<string> { if u in g.succ then g.succ[u] else [] }

  /** Nodes, and the successors of each node, are listed in the order the edges bring them in. */
  ghost predicate InOrder(g: Graph, es: seq<Edge>) {
    g.nodes == Appearing(es) && forall u :: Successors(g, u) == TargetsOf(es, u)
  }

  lemma AddNodeOrder(g: Graph, n: string)
    requires WellFormed(g)
    ensures AddNode(g, n).nodes == AddNew(g.nodes, n)
    ensures forall u :: Successors(AddNode(g, n), u) == Successors(g, u)
  {
  }

  lemma PutArcOrder(g: Graph, u: string, v: string, arc: Arc, x: string)
    requires WellFormed(g) && u in g.nodes && v in g.nodes && arc.weight >= 0.0
    ensures Successors(PutArc(g, u, v, arc), x) == if x == u then AddNew(Successors(g, u), v) else Successors(g, x)
  {
  }

  lemma AddEdgeOrder(g: Graph, e: Edge, u: string)
    requires WellFormed(g)
    ensures AddEdge(g, e).nodes == AddNew(AddNew(g.nodes, e.src), e.dst)
    ensures Successors(AddEdge(g, e), u) == if u == e.src then AddNew(Successors(g, u), e.dst) else Successors(g, u)
  {
    var g1 := AddNode(g, e.src);
    AddNodeOrder(g, e.src);
    AddNodeOrder(g1, e.dst);
    PutArcOrder(AddNode(g1, e.dst), e.src, e.dst, Arc(Abs(e.r), e.lag), u);
  }

  lemma OrderExtends(g: Graph, g': Graph, es: seq<Edge>, e: Edge)
    requires InOrder(g, es)
    requires g'.nodes == AddNew(AddNew(g.nodes, e.src), e.dst)
    requires forall u :: Successors(g', u) == if u == e.src then AddNew(Successors(g, u), e.dst) else Successors(g, u)
    ensures InOrder(g', es + [e])
  {
    assert (es + [e])[..|es|] == es;
  }

  lemma AddEdgeKeepsOrder(g: Graph, es: seq<Edge>, e: Edge)
    requires WellFormed(g) && InOrder(g, es)
    ensures InOrder(AddEdge(g, e), es + [e])
  {
    var g' := AddEdge(g, e);
    AddEdgeOrder(g, e, e.src);
    forall u ensures Successors(g', u) == if u == e.src then AddNew(Successors(g, u), e.dst) else Successors(g, u) {
      AddEdgeOrder(g, e, u);
    }
    OrderExtends(g, g', es, e);
  }

  lemma NodesExtend(nodes: seq<string>, nodes': seq<string>, es: seq<Edge>, e: Edge)
    requires NodesOf(nodes, es)
    requires forall n :: n in nodes' <==> n in nodes || n == e.src || n == e.dst
    ensures NodesOf(nodes', es + [e])
  {
    var fs := es + [e];
    assert fs[|es|] == e;
    forall n ensures n in nodes' <==> exists i :: 0 <= i < |fs| && Touches(fs[i], n) {
      if n in nodes {
        var i :| 0 <= i < |es| && Touches(es[i], n);
        assert fs[i] == es[i];
      } else if n in nodes' {
        assert Touches(fs[|es|], n);
      }
      if i :| 0 <= i < |fs| && Touches(fs[i], n) {
        assert i < |es| ==> fs[i] == es[i];
      }
    }
  }

  lemma ArcsExtend(arcs: map<(string, string), Arc>, es: seq<Edge>, e: Edge)
    requires ArcsOf(arcs, es)
    ensures ArcsOf(arcs[(e.src, e.dst) := Arc(Abs(e.r), e.lag)], es + [e])
  {
    var fs, arcs' := es + [e], arcs[(e.src, e.dst) := Arc(Abs(e.r), e.lag)];
    forall u, v | (u, v) in arcs' ensures ArcFrom(arcs'[(u, v)], fs, u, v) {
      if u == e.src && v == e.dst {
        assert IsLast(fs, |es|, u, v);
      } else {
        assert ArcFrom(arcs[(u, v)], es, u, v);
        var i :| IsLast(es, i, u, v) && arcs[(u, v)] == Arc(Abs(es[i].r), es[i].lag);
        assert IsLast(fs, i, u, v);
      }
    }
  }

  lemma RepresentsExtends(g: Graph, es: seq<Edge>, e: Edge)
    requires Represents(g, es)
    ensures Represents(AddEdge(g, e), es + [e])
  {
    NodesExtend(g.nodes, AddEdge(g, e).nodes, es, e);
    ArcsExtend(g.arcs, es, e);
  }

  /** g is the graph of the edges. */
  ghost predicate IsGraphOf(g: Graph, es: seq<Edge>) { Represents(g, es) && InOrder(g, es) }

  lemma NoEdges()
    ensures IsGraphOf(EMPTY, [])
  {
  }

  lemma AddEdgeKeepsGraph(g: Graph, es: seq<Edge>, i: nat)
    requires i < |es| && IsGraphOf(g, es[..i])
    ensures IsGraphOf(AddEdge(g, es[i]), es[..i + 1])
  {
    RepresentsExtends(g, es[..i], es[i]);
    AddEdgeKeepsOrder(g, es[..i], es[i]);
    TakeNext(es, i);
  }

  method BuildGraph(edges: seq<Edge>) returns (g: Graph)
    ensures IsGraphOf(g, edges)
  {
    g := EMPTY;
    NoEdges();
    for i := 0 to |edges|
      invariant IsGraphOf(g, edges[..i])
    {
      AddEdgeKeepsGraph(g, edges, i);
      g := AddEdge(g, edges[i]);
    }
    TakeAll(edges);
  }

  /** Correlations have |r| <= 1, so the graph built from them has weights in [0, 1]. */
  lemma CorrelationsGiveUnitWeights(g: Graph, es: seq<Edge>)
    requires ArcsOf(g.arcs, es)
    requires forall i :: 0 <= i < |es| ==> Abs(es[i].r) <= 1.0
    ensures UnitWeights(g)
  {
  }

  // ---- Walks ----

  ghost predicate IsWalk(g: Graph, p: seq<string>) {
    |p| >= 1 && forall i :: 0 <= i < |p| - 1 ==> (p[i], p[i + 1]) in g.arcs
  }

  function Last(p: seq<string>): string
    requires |p| >= 1
  {
    p[|p| - 1]
  }

  function Front(p: seq<string>): seq<string>
    requires |p| >= 1
  {
    p[..|p| - 1]
  }

  /** What an impact x at u leaves at v. */
  function Carry(g: Graph, x: real, u: string, v: string): real
    requires (u, v) in g.arcs
  {
    x * g.arcs[(u, v)].weight * DECAY
  }

  /** What the arc (u, v) passes back to u of an impact x of v. */
  function Through(g: Graph, u: string, v: string, x: real): real
    requires (u, v) in g.arcs
  {
    g.arcs[(u, v)].weight * DECAY * x
  }

  /** The product of weight * DECAY along the walk. */
  ghost function Value(g: Graph, p: seq<string>): real
    requires IsWalk(g, p)
  {
    if |p| == 1 then 1.0 else Carry(g, Value(g, Front(p)), Last(Front(p)), Last(p))
  }

  /** The sum of lags along the walk. */
  ghost function LagSum(g: Graph, p: seq<string>): int
    requires IsWalk(g, p)
  {
    if |p| == 1 then 0 else LagSum(g, Front(p)) + g.arcs[(Last(Front(p)), Last(p))].lag
  }

  /** A non-empty walk from root. */
  ghost predicate Reaches(g: Graph, root: string, p: seq<string>) {
    |p| >= 2 && IsWalk(g, p) && p[0] == root
  }

  lemma WalkExtend(g: Graph, p: seq<string>, v: string)
    requires IsWalk(g, p) && (Last(p), v) in g.arcs
    ensures IsWalk(g, p + [v]) && Front(p + [v]) == p && Last(p + [v]) == v && (p + [v])[0] == p[0]
    ensures Value(g, p + [v]) == Carry(g, Value(g, p), Last(p), v)
    ensures LagSum(g, p + [v]) == LagSum(g, p) + g.arcs[(Last(p), v)].lag
  {
  }

  lemma ProductUnder(a: real, w: real, b: real)
    requires 0.0 <= a <= b && 0.0 <= w <= 1.0
    ensures 0.0 <= a * w * DECAY <= b * DECAY
  {
  }

  /** Every hop costs at least the factor DECAY. */
  lemma {:induction false} HopDecays(g: Graph, p: seq<string>)
    requires UnitWeights(g) && IsWalk(g, p) && |p| >= 2
    ensures 0.0 <= Value(g, p) <= Value(g, Front(p)) * DECAY
  {
    if |p| > 2 { HopDecays(g, Front(p)); }
    ProductUnder(Value(g, Front(p)), g.arcs[(Last(Front(p)), Last(p))].weight, Value(g, Front(p)));
  }

  lemma {:induction false} ValueBound(g: Graph, p: seq<string>)
    requires UnitWeights(g) && IsWalk(g, p)
    ensures 0.0 <= Value(g, p) <= Power(DECAY, |p| - 1)
  {
    if |p| > 1 {
      ValueBound(g, Front(p));
      HopDecays(g, p);
    }
  }

  lemma {:induction false} UnderOne(g: Graph, p: seq<string>)
    requires UnitWeights(g) && IsWalk(g, p)
    ensures 0.0 <= Value(g, p) <= 1.0
  {
    if |p| > 1 {
      UnderOne(g, Front(p));
      HopDecays(g, p);
    }
  }

  lemma {:induction false} LongWalksFade(n: nat)
    requires n >= 6
    ensures 0.0 < Power(DECAY, n) < CUT
  {
    if n == 6 {
      assert Power(DECAY, 1) == 0.7;
      assert Power(DECAY, 2) == 0.49;
      assert Power(DECAY, 3) == 0.343;
      assert Power(DECAY, 4) == 0.2401;
      assert Power(DECAY, 5) == 0.16807;
      assert Power(DECAY, 6) == 0.117649;
    } else {
      LongWalksFade(n - 1);
    }
  }

  /** No walk that still carries CUT is longer than five hops, cycles or not. */
  lemma FiveHops(g: Graph, p: seq<string>)
    requires UnitWeights(g) && IsWalk(g, p) && Value(g, p) >= CUT
    ensures |p| - 1 <= 5
  {
    ValueBound(g, p);
    if |p| - 1 >= 6 { LongWalksFade(|p| - 1); }
  }

  /** Prepending an arc multiplies the value by weight * DECAY. */
  lemma {:induction false} WalkPrepend(g: Graph, u: string, q: seq<string>)
    requires IsWalk(g, q) && (u, q[0]) in g.arcs
    ensures IsWalk(g, [u] + q)
    ensures Value(g, [u] + q) == Through(g, u, q[0], Value(g, q))
    decreases |q|
  {
    var p := [u] + q;
    forall i | 0 <= i < |p| - 1 ensures (p[i], p[i + 1]) in g.arcs {
      if i > 0 { assert p[i] == q[i - 1] && p[i + 1] == q[i]; }
    }
    if |q| == 1 {
      assert Front(p) == [u] && Last(p) == q[0];
      assert Value(g, [u]) == 1.0;
    } else {
      WalkPrepend(g, u, Front(q));
      assert Front(p) == [u] + Front(q) && Last(p) == Last(q) && Last(Front(p)) == Last(Front(q));
      var w, x, y := g.arcs[(u, q[0])].weight, Value(g, Front(q)), g.arcs[(Last(Front(q)), Last(q))].weight;
      assert (w * DECAY * x) * y * DECAY == w * DECAY * (x * y * DECAY);
    }
  }
}
