/** The graph part of `run_pass`: edges, graph, ranking and blast radius composed, and what the memory files of it. */
module RunPass {
  import opened Basics
  import opened Config
  import opened Digraph
  import opened Reach
  import opened Gate
  import opened EdgeAssembly
  import opened Names
  import opened Sorting
  import RC = RootCauses
  import BR = BlastRadius
  import I = Incidents

  const TOP := 3

  /** Correlations lie in [-1, 1]. */
  ghost predicate UnitCorrelations(p: Pass) {
    && (forall k :: k in p.directed ==> Abs(p.directed[k].r) <= 1.0)
    && (forall k, i :: k in p.profiles && 0 <= i < |p.profiles[k]| ==> Abs(p.profiles[k][i].r) <= 1.0)
  }

  /** The impacts and scores of all nodes, and the full ranking. */
  datatype Ranking = Ranking(impacts: map<string, map<string, real>>, scores: map<string, real>, all: seq<RC.Scored>)

  /** The breadth-first search from the top root: what it found in order, and the same worst first. */
  datatype Search = Search(found: seq<BR.Report>, sorted: seq<BR.Report>, via: BR.Paths, steps: seq<BR.Step>)

  /** The breached pods, or all anomalous ones when none is named. */
  ghost predicate IsSeeds(p: Pass, slo: seq<string>, seeds: seq<string>) {
    if slo != [] then seeds == slo else forall x :: x in seeds <==> x in p.active
  }

  ghost predicate Leads(roots: seq<string>, all: seq<RC.Scored>) {
    |roots| == (if 3 < |all| then 3 else |all|) && forall i :: 0 <= i < |roots| ==> roots[i] == all[i].pod
  }

  /** No root without edges, otherwise the top of the ranking. */
  ghost predicate IsRanked(g: Graph, seeds: seq<string>, onset: map<string, real>, roots: seq<string>, r: Ranking) {
    if g.arcs == map[] then roots == []
    else RC.IsRanking(g, RC.SeedSet(g, seeds), onset, r.impacts, r.scores, r.all) && Leads(roots, r.all)
  }

  ghost predicate Shows(blast: seq<I.Blast>, reports: seq<BR.Report>) {
    |blast| == |reports| && forall i :: 0 <= i < |blast| ==> blast[i] == I.Blast(reports[i].pod, Some(reports[i].eta as real))
  }

  /** The blast radius of the top root, none without a root. */
  ghost predicate IsForetold(g: Graph, roots: seq<string>, round: real -> real, blast: seq<I.Blast>, s: Search) {
    if roots == [] then blast == []
    else
      && BR.IsBlast(g, roots[0], s.sorted, s.via) && BR.InVisitOrder(g, roots[0], s.via, s.found, s.steps)
      && IsStableSort(s.found, s.sorted, BR.ByImpact(round)) && Shows(blast, s.sorted)
  }

  ghost predicate IsGraph(g: Graph, edges: seq<Edge>) { IsGraphOf(g, edges) && UnitWeights(g) }

  // ---- The composition ----

  lemma EdgeBounded(p: Pass, edges: seq<Edge>, e: Edge)
    requires ValidPass(p) && UnitCorrelations(p) && IsAssembly(p, edges) && e in edges
    ensures Abs(e.r) <= 1.0
  {
    if IsSource(p, e) {
      var w, v :| w in p.writers && v in p.pods && SourceEdge(p, w, v) == Some(e);
      WriterBounded(w, v, p.profiles[(w, v)], p.physical, Onset(p.writeOnset, w), Onset(p.onset, v), e);
    } else {
      var i, j :| 0 <= i < j < |p.pods| && PsiEdge(p, p.pods[i], p.pods[j]) == Some(e);
      assert (p.pods[i], p.pods[j]) in p.directed;
    }
  }

  lemma WriterBounded(w: string, v: string, profile: Profile, physical: Witness, ws: Option<real>, vs: Option<real>, e: Edge)
    requires WriterEdge(w, v, profile, physical, ws, vs) == Some(e)
    requires forall i :: 0 <= i < |profile| ==> Abs(profile[i].r) <= 1.0
    ensures Abs(e.r) <= 1.0
  {
    SourceEdgeShape(w, v, profile, physical, ws, vs);
    var i: nat :| PeakAt(profile, LagPoint(e.lag, e.r), i);
  }

  lemma ShortList(s: seq<string>, t: seq<string>)
    requires NoRepeats(s) && forall x :: x in s ==> x in t
    ensures |s| <= |t|
    decreases |s|
  {
    if s != [] {
      var n := |s| - 1;
      var k := IndexOf(t, s[n]);
      forall x | x in s[..n] ensures x in t[..k] + t[k + 1..] { assert x in t; }
      ShortList(s[..n], t[..k] + t[k + 1..]);
    }
  }

  lemma NodesBoundDegree(g: Graph)
    requires WellFormed(g)
    ensures DegreeBound(g, |g.nodes|)
  {
    forall u | u in g.succ ensures |g.succ[u]| <= |g.nodes| {
      forall v | v in g.succ[u] ensures v in g.nodes { assert (u, v) in g.arcs; }
      ShortList(g.succ[u], g.nodes);
    }
  }

  method SortedNames(s: set<string>) returns (names: seq<string>)
    ensures forall x :: x in names <==> x in s
    ensures SortedBy(names, LessEq)
  {
    names := [];
    var todo := s;
    while todo != {}
      invariant todo <= s && forall x :: x in names <==> x in s - todo
      decreases todo
    {
      var x :| x in todo;
      names, todo := names + [x], todo - {x};
    }
    forall a, b, c ensures (LessEq(a, b) || LessEq(b, a)) && (LessEq(a, b) && LessEq(b, c) ==> LessEq(a, c)) { LessEqOrder(a, b, c); }
    SortBySorts(names, LessEq);
    SortByMembers(names, LessEq);
    names := SortBy(names, LessEq);
  }

  method BlastOf(reports: seq<BR.Report>) returns (blast: seq<I.Blast>)
    ensures Shows(blast, reports)
  {
    blast := [];
    for i := 0 to |reports|
      invariant Shows(blast, reports[..i])
    {
      blast := blast + [I.Blast(reports[i].pod, Some(reports[i].eta as real))];
    }
    TakeAll(reports);
  }

  method RootsOf(ranking: seq<RC.Ranked>, ghost all: seq<RC.Scored>, ghost onset: map<string, real>) returns (roots: seq<string>)
    requires RC.TopRows(ranking, all, onset, TOP)
    ensures Leads(roots, all)
  {
    roots := [];
    for i := 0 to |ranking|
      invariant |roots| == i && forall j :: 0 <= j < i ==> roots[j] == all[j].pod
    {
      assert RC.RowFor(ranking[i], all[i], RC.Total(all), onset);
      roots := roots + [ranking[i].pod];
    }
  }

  ghost predicate Bounded(edges: seq<Edge>) { forall i :: 0 <= i < |edges| ==> Abs(edges[i].r) <= 1.0 }

  lemma AssemblyBounded(p: Pass, edges: seq<Edge>)
    requires ValidPass(p) && UnitCorrelations(p) && IsAssembly(p, edges)
    ensures Bounded(edges)
  {
    forall i | 0 <= i < |edges| ensures Abs(edges[i].r) <= 1.0 { EdgeBounded(p, edges, edges[i]); }
  }

  method BuildPassGraph(edges: seq<Edge>) returns (g: Graph)
    requires Bounded(edges)
    ensures IsGraph(g, edges)
  {
    g := BuildGraph(edges);
    CorrelationsGiveUnitWeights(g, edges);
  }

  lemma RankedIsNode(g: Graph, seeds: set<string>, onset: map<string, real>, r: Ranking, i: nat)
    requires RC.IsRanking(g, seeds, onset, r.impacts, r.scores, r.all) && i < |r.all|
    ensures r.all[i].pod in g.nodes
  {
    assert r.all[i] in r.all;
  }

  method RankPass(g: Graph, seeds: seq<string>, onset: map<string, real>) returns (roots: seq<string>, ghost r: Ranking)
    requires WellFormed(g) && UnitWeights(g)
    ensures IsRanked(g, seeds, onset, roots, r)
    ensures roots != [] ==> roots[0] in g.nodes
  {
    NodesBoundDegree(g);
    var ranking;
    ghost var all, impacts, scores;
    ranking, all, impacts, scores := RC.RankRootCauses(g, seeds, onset, TOP, |g.nodes|);
    r := Ranking(impacts, scores, all);
    if ranking == [] {
      return [], r;
    }
    roots := RootsOf(ranking, all, onset);
    RankedIsNode(g, RC.SeedSet(g, seeds), onset, r, 0);
  }

  method ForetellPass(g: Graph, roots: seq<string>, round: real -> real) returns (blast: seq<I.Blast>, ghost s: Search)
    requires WellFormed(g) && (roots != [] ==> roots[0] in g.nodes)
    ensures IsForetold(g, roots, round, blast, s)
  {
    s := Search([], [], map[], []);
    if roots == [] {
      return [], s;
    }
    var sorted;
    ghost var found, via, steps;
    sorted, found, via, steps := BR.BlastRadius(g, roots[0], round);
    s := Search(found, sorted, via, steps);
    blast := BlastOf(sorted);
  }

  /** graph reports the ranking and the blast radius of the graph of the edges. */
  ghost predicate IsAnalysis(edges: seq<Edge>, seeds: seq<string>, onset: map<string, real>, round: real -> real,
                             graph: I.PassGraph, g: Graph, r: Ranking, s: Search) {
    && IsGraph(g, edges)
    && IsRanked(g, seeds, onset, graph.roots, r) && (graph.roots != [] ==> graph.roots[0] in g.nodes)
    && IsForetold(g, graph.roots, round, graph.blast, s)
  }

  method AnalyseEdges(edges: seq<Edge>, seeds: seq<string>, onset: map<string, real>, round: real -> real)
    returns (graph: I.PassGraph, ghost g: Graph, ghost r: Ranking, ghost s: Search)
    requires Bounded(edges)
    ensures graph.edges == edges && IsAnalysis(edges, seeds, onset, round, graph, g, r, s)
  {
    var built := BuildPassGraph(edges);
    var roots, blast;
    roots, r := RankPass(built, seeds, onset);
    blast, s := ForetellPass(built, roots, round);
    graph, g := I.PassGraph(edges, roots, blast), built;
  }

  method SeedPods(p: Pass, slo: seq<string>) returns (seeds: seq<string>)
    ensures IsSeeds(p, slo, seeds)
  {
    if slo != [] {
      return slo;
    }
    seeds := SortedNames(p.active);
  }

  method RunPass(p: Pass, slo: seq<string>, round: real -> real)
    returns (graph: I.PassGraph, ghost g: Graph, ghost seeds: seq<string>, ghost r: Ranking, ghost s: Search)
    requires ValidPass(p) && UnitCorrelations(p)
    ensures IsAssembly(p, graph.edges) && IsSeeds(p, slo, seeds)
    ensures IsAnalysis(graph.edges, seeds, p.onset, round, graph, g, r, s)
  {
    var edges := FormEdges(p);
    AssemblyBounded(p, edges);
    var seedPods := SeedPods(p, slo);
    seeds := seedPods;
    graph, g, r, s := AnalyseEdges(edges, seedPods, p.onset, round);
  }

  // ---- What is filed of a pass ----

  /** A pod of the workload lies at the end of a simple path from root of at most five hops that carries CUT. */
  ghost predicate Explained(g: Graph, root: string, workload: string) {
    exists q :: Reaches(g, root, q) && NoRepeats(q) && |q| <= 6 && Value(g, q) >= CUT && StableWorkload(Last(q)) == workload
  }

  ghost predicate Targeted(edges: seq<Edge>, workload: string) { exists e :: e in edges && StableWorkload(e.dst) == workload }

  lemma ReportExplained(g: Graph, root: string, x: BR.Report, q: seq<string>)
    requires UnitWeights(g) && BR.Follows(g, root, x, q)
    ensures Explained(g, root, StableWorkload(x.pod))
  {
    FiveHops(g, q);
  }

  lemma BlastExplained(g: Graph, roots: seq<string>, round: real -> real, blast: seq<I.Blast>, s: Search, b: I.Blast)
    requires UnitWeights(g) && IsForetold(g, roots, round, blast, s) && b in blast
    ensures roots != [] && Explained(g, roots[0], StableWorkload(b.pod))
  {
    var i := IndexOf(blast, b);
    var x := s.sorted[i];
    assert x in s.sorted;
    ReportExplained(g, roots[0], x, s.via[x.pod]);
  }

  lemma BlastVictimExplained(graph: I.PassGraph, g: Graph, round: real -> real, s: Search, w: string)
    requires UnitWeights(g) && IsForetold(g, graph.roots, round, graph.blast, s) && graph.roots != []
    requires w in I.BlastVictims(graph, StableWorkload(graph.roots[0]))
    ensures Explained(g, graph.roots[0], w)
  {
    var b :| b in graph.blast && StableWorkload(b.pod) == w;
    BlastExplained(g, graph.roots, round, graph.blast, s, b);
  }

  /**
   * Every victim of the filed incident is explained by a path from the top root, or it is the target of an
   * edge and the blast radius names no other workload than the root's.
   */
  lemma VictimExplained(c: MemoryConfig, graph: I.PassGraph, g: Graph, round: real -> real, s: Search, w: string)
    requires UnitWeights(g) && IsForetold(g, graph.roots, round, graph.blast, s)
    requires I.IncidentOf(c, graph).Some? && w in I.IncidentOf(c, graph).value.key.victims
    ensures Explained(g, graph.roots[0], w)
            || (I.BlastVictims(graph, StableWorkload(graph.roots[0])) == {} && Targeted(graph.edges, w))
  {
    var root := StableWorkload(graph.roots[0]);
    assert I.IncidentOf(c, graph).value.key.victims == I.Victims(graph, root);
    if I.BlastVictims(graph, root) != {} {
      BlastVictimExplained(graph, g, round, s, w);
    } else {
      var e :| e in graph.edges && StableWorkload(e.dst) == w;
    }
  }

  /** No two pods on the edges run the same workload, and each has a name. */
  ghost predicate OnePodPerWorkload(edges: seq<Edge>) {
    forall e, f, x, y :: e in edges && f in edges && Touches(e, x) && Touches(f, y) ==>
      x != "" && (StableWorkload(x) == StableWorkload(y) ==> x == y)
  }

  ghost predicate OwnsWrite(edges: seq<Edge>, pod: string) { exists e :: e in edges && IsWrite(e) && e.src == pod }

  /** What the edges of an assembly mean for the graph: each is an arc of its own weight, and a source edge is strong. */
  ghost predicate Carried(p: Pass, edges: seq<Edge>, g: Graph) {
    forall e :: e in edges ==> EdgeCarried(p, g, e)
  }

  ghost predicate EdgeCarried(p: Pass, g: Graph, e: Edge) {
    && (e.src, e.dst) in g.arcs && g.arcs[(e.src, e.dst)].weight == Abs(e.r)
    && (IsWrite(e) ==> e.r >= R_SRC && e.src != e.dst && e.dst in p.active)
  }

  /** The only edge of its pair gives the arc its weight. */
  lemma ArcOfEdge(g: Graph, edges: seq<Edge>, e: Edge)
    requires DistinctBy(edges, Pair) && ArcsOf(g.arcs, edges) && e in edges
    ensures (e.src, e.dst) in g.arcs && g.arcs[(e.src, e.dst)].weight == Abs(e.r)
  {
    var k := IndexOf(edges, e);
    assert ArcFrom(g.arcs[(e.src, e.dst)], edges, e.src, e.dst);
    var i :| IsLast(edges, i, e.src, e.dst) && g.arcs[(e.src, e.dst)] == Arc(Abs(edges[i].r), edges[i].lag);
    assert Pair(edges[i]) == Pair(edges[k]);
  }

  lemma SourceIsStrong(p: Pass, edges: seq<Edge>, e: Edge)
    requires ValidPass(p) && IsAssembly(p, edges) && e in edges && IsWrite(e)
    ensures e.r >= R_SRC && e.src != e.dst && e.dst in p.active
  {
    Marked(p, e);
    var w, v :| w in p.writers && v in p.pods && SourceEdge(p, w, v) == Some(e);
    SourceShape(p, w, v, e);
  }

  lemma AssemblyCarried(p: Pass, edges: seq<Edge>, g: Graph)
    requires ValidPass(p) && IsAssembly(p, edges) && ArcsOf(g.arcs, edges)
    ensures Carried(p, edges, g)
  {
    forall e | e in edges ensures EdgeCarried(p, g, e) {
      ArcOfEdge(g, edges, e);
      if IsWrite(e) { SourceIsStrong(p, edges, e); }
    }
  }

  /** A strong arc out of the root is always followed. */
  lemma ArcReported(g: Graph, roots: seq<string>, round: real -> real, blast: seq<I.Blast>, s: Search, v: string)
    returns (b: I.Blast)
    requires IsForetold(g, roots, round, blast, s) && roots != [] && v != roots[0]
    requires (roots[0], v) in g.arcs && g.arcs[(roots[0], v)].weight >= R_SRC
    ensures b in blast && b.pod == v
  {
    assert Carry(g, 1.0, roots[0], v) >= CUT;
    assert BR.NextLevel(s.via, roots[0], v);
    var x :| x in s.sorted && x.pod == v;
    var i := IndexOf(s.sorted, x);
    b := blast[i];
  }

  lemma TargetIsVictim(p: Pass, graph: I.PassGraph, g: Graph, round: real -> real, s: Search, e: Edge)
    requires Carried(p, graph.edges, g) && IsForetold(g, graph.roots, round, graph.blast, s) && OnePodPerWorkload(graph.edges)
    requires graph.roots != [] && e in graph.edges && IsWrite(e) && e.src == graph.roots[0]
    ensures StableWorkload(e.dst) in I.BlastVictims(graph, StableWorkload(graph.roots[0])) && e.dst in p.active
  {
    assert EdgeCarried(p, g, e);
    var b := ArcReported(g, graph.roots, round, graph.blast, s, e.dst);
    assert Touches(e, e.src) && Touches(e, e.dst);
  }

  /** The verdict is source-rooted exactly when the root pod itself owns a source edge. */
  lemma RootedIff(edges: seq<Edge>, root: string, f: Edge)
    requires OnePodPerWorkload(edges) && f in edges && Touches(f, root)
    ensures I.SourceRooted(StableWorkload(root), edges) <==> OwnsWrite(edges, root)
  {
    if e :| e in edges && I.OwnsSource(StableWorkload(root), e) {
      assert Touches(e, e.src);
      assert IsWrite(e);
    }
    if e :| e in edges && IsWrite(e) && e.src == root { assert I.OwnsSource(StableWorkload(root), e); }
  }

  lemma NodeIsTouched(g: Graph, edges: seq<Edge>, n: string) returns (f: Edge)
    requires NodesOf(g.nodes, edges) && n in g.nodes
    ensures f in edges && Touches(f, n)
  {
    var i :| 0 <= i < |edges| && Touches(edges[i], n);
    f := edges[i];
  }

  /**
   * With one pod per workload an incident is filed exactly when the top root owns a source edge; then every
   * victim is explained, and the anomalous pods at the ends of its source edges are among them.
   */
  lemma FiledIff(c: MemoryConfig, p: Pass, graph: I.PassGraph, g: Graph, round: real -> real, s: Search)
    requires ValidPass(p) && IsAssembly(p, graph.edges)
    requires NodesOf(g.nodes, graph.edges) && ArcsOf(g.arcs, graph.edges) && UnitWeights(g)
    requires (graph.roots != [] ==> graph.roots[0] in g.nodes) && IsForetold(g, graph.roots, round, graph.blast, s)
    requires OnePodPerWorkload(graph.edges)
    ensures I.IncidentOf(c, graph).Some? <==> graph.roots != [] && OwnsWrite(graph.edges, graph.roots[0])
    ensures I.IncidentOf(c, graph).Some? ==> FiledWell(p, graph, g, I.IncidentOf(c, graph).value.key.victims)
  {
    if graph.roots != [] {
      var f := NodeIsTouched(g, graph.edges, graph.roots[0]);
      RootedIff(graph.edges, graph.roots[0], f);
      AssemblyCarried(p, graph.edges, g);
      FiledOfRoot(c, p, graph, g, round, s, f);
    }
  }

  /** All victims are explained, and the target of each source edge of the root is an anomalous one. */
  ghost predicate FiledWell(p: Pass, graph: I.PassGraph, g: Graph, victims: set<string>) {
    graph.roots != []
    && (forall w :: w in victims ==> Explained(g, graph.roots[0], w))
    && (forall e :: e in graph.edges && IsWrite(e) && e.src == graph.roots[0] ==> StableWorkload(e.dst) in victims && e.dst in p.active)
  }

  lemma BlastFiledWell(p: Pass, graph: I.PassGraph, g: Graph, round: real -> real, s: Search)
    requires UnitWeights(g) && Carried(p, graph.edges, g) && OnePodPerWorkload(graph.edges)
    requires graph.roots != [] && IsForetold(g, graph.roots, round, graph.blast, s)
    ensures FiledWell(p, graph, g, I.BlastVictims(graph, StableWorkload(graph.roots[0])))
  {
    var root := StableWorkload(graph.roots[0]);
    forall e | e in graph.edges && IsWrite(e) && e.src == graph.roots[0]
      ensures StableWorkload(e.dst) in I.BlastVictims(graph, root) && e.dst in p.active
    {
      TargetIsVictim(p, graph, g, round, s, e);
    }
    forall w | w in I.BlastVictims(graph, root) ensures Explained(g, graph.roots[0], w) {
      BlastVictimExplained(graph, g, round, s, w);
    }
  }

  /** A source-rooted verdict with a pod in its blast radius is filed with the blast radius as victims. */
  lemma FiledVictims(c: MemoryConfig, graph: I.PassGraph, root: string, w: string)
    requires graph.roots != [] && root == StableWorkload(graph.roots[0]) && graph.edges != []
    requires I.SourceRooted(root, graph.edges) && w in I.BlastVictims(graph, root)
    ensures I.IncidentOf(c, graph).Some? && I.IncidentOf(c, graph).value.key.victims == I.BlastVictims(graph, root)
  {
  }

  lemma OnlySourceRooted(c: MemoryConfig, graph: I.PassGraph)
    requires I.IncidentOf(c, graph).Some?
    ensures graph.roots != [] && I.SourceRooted(StableWorkload(graph.roots[0]), graph.edges)
  {
  }

  lemma FiledWhenOwned(c: MemoryConfig, p: Pass, graph: I.PassGraph, g: Graph, round: real -> real, s: Search)
    requires Carried(p, graph.edges, g) && OnePodPerWorkload(graph.edges)
    requires graph.roots != [] && IsForetold(g, graph.roots, round, graph.blast, s)
    requires OwnsWrite(graph.edges, graph.roots[0]) && I.SourceRooted(StableWorkload(graph.roots[0]), graph.edges)
    ensures I.IncidentOf(c, graph).Some?
    ensures I.IncidentOf(c, graph).value.key.victims == I.BlastVictims(graph, StableWorkload(graph.roots[0]))
  {
    var e :| e in graph.edges && IsWrite(e) && e.src == graph.roots[0];
    TargetIsVictim(p, graph, g, round, s, e);
    FiledVictims(c, graph, StableWorkload(graph.roots[0]), StableWorkload(e.dst));
  }

  lemma FiledOfRoot(c: MemoryConfig, p: Pass, graph: I.PassGraph, g: Graph, round: real -> real, s: Search, f: Edge)
    requires UnitWeights(g) && Carried(p, graph.edges, g) && OnePodPerWorkload(graph.edges) && f in graph.edges
    requires graph.roots != [] && IsForetold(g, graph.roots, round, graph.blast, s)
    requires I.SourceRooted(StableWorkload(graph.roots[0]), graph.edges) <==> OwnsWrite(graph.edges, graph.roots[0])
    ensures I.IncidentOf(c, graph).Some? <==> OwnsWrite(graph.edges, graph.roots[0])
    ensures I.IncidentOf(c, graph).Some? ==> FiledWell(p, graph, g, I.IncidentOf(c, graph).value.key.victims)
  {
    if I.IncidentOf(c, graph).Some? { OnlySourceRooted(c, graph); }
    if OwnsWrite(graph.edges, graph.roots[0]) {
      FiledWhenOwned(c, p, graph, g, round, s);
      BlastFiledWell(p, graph, g, round, s);
    }
  }
}
