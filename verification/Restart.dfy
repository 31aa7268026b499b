/** Pods are renamed at every restart; what the memory learns is keyed by workload and does not notice. */
module Restart {
  import opened Basics
  import opened Config
  import opened Digraph
  import opened Names
  import opened GraphMemory
  import opened MemoryRuns
  import opened Reorder
  import E = EdgeMemory
  import B = Baselines
  import L = CaseLibrary
  import I = Incidents

  type Renaming = string -> string

  function RenameEdge(f: Renaming, e: Edge): Edge { e.(src := f(e.src), dst := f(e.dst)) }

  function RenameEdges(f: Renaming, es: seq<Edge>): (r: seq<Edge>)
    ensures |r| == |es| && forall i :: 0 <= i < |es| ==> r[i] == RenameEdge(f, es[i])
  {
    seq(|es|, i requires 0 <= i < |es| => RenameEdge(f, es[i]))
  }

  function RenameBlasts(f: Renaming, bs: seq<I.Blast>): (r: seq<I.Blast>)
    ensures |r| == |bs| && forall i :: 0 <= i < |bs| ==> r[i] == I.Blast(f(bs[i].pod), bs[i].eta)
  {
    seq(|bs|, i requires 0 <= i < |bs| => I.Blast(f(bs[i].pod), bs[i].eta))
  }

  function RenameRoots(f: Renaming, roots: seq<string>): (r: seq<string>)
    ensures |r| == |roots| && forall i :: 0 <= i < |roots| ==> r[i] == f(roots[i])
  {
    seq(|roots|, i requires 0 <= i < |roots| => f(roots[i]))
  }

  function RenameWindows(f: Renaming, vs: seq<B.Window>): (r: seq<B.Window>)
    ensures |r| == |vs| && forall i :: 0 <= i < |vs| ==> r[i] == (f(vs[i].0), vs[i].1)
  {
    seq(|vs|, i requires 0 <= i < |vs| => (f(vs[i].0), vs[i].1))
  }

  function RenamePair(f: Renaming, pair: set<string>): set<string> { set p | p in pair :: f(p) }

  function RenameShared(f: Renaming, shared: Option<set<set<string>>>): Option<set<set<string>>> {
    if shared.Some? then Some(set pair | pair in shared.value :: RenamePair(f, pair)) else None
  }

  function RenameGraph(f: Renaming, g: I.PassGraph): I.PassGraph {
    I.PassGraph(RenameEdges(f, g.edges), RenameRoots(f, g.roots), RenameBlasts(f, g.blast))
  }

  function RenamePass(f: Renaming, p: PassInput): PassInput {
    PassInput(RenameGraph(f, p.graph), RenameWindows(f, p.vectors), RenameShared(f, p.shared), p.ts)
  }

  ghost predicate KeepsWorkloads(f: Renaming) { forall x :: StableWorkload(f(x)) == StableWorkload(x) }

  predicate NamedAlike(f: Renaming, x: string) { f(x) == "" <==> x == "" }

  /** f renames pods to pods: the empty name stays empty, and no other name becomes so. */
  ghost predicate KeepsNames(f: Renaming) { forall x :: NamedAlike(f, x) }

  /** The verdict has edges and a source-rooted root. */
  ghost predicate Fileable(g: I.PassGraph) {
    g.roots != [] && g.edges != [] && I.SourceRooted(StableWorkload(g.roots[0]), g.edges)
  }

  /** Some blast entry has a name, but its workload has none. */
  ghost predicate ShowsNameless(bs: seq<I.Blast>) { exists b :: b in bs && b.pod != "" && StableWorkload(b.pod) == "" }

  /** The nameless workload is the only victim, with or without such a blast entry. */
  ghost predicate NamelessAnyway(g: I.PassGraph, root: string) {
    I.BlastVictims(g, root) <= {""} && I.TargetVictims(g, root) == {""}
  }

  /** Renaming neither brings in nor removes the nameless victim, or it makes no difference to the incident. */
  ghost predicate Keeps(f: Renaming, g: I.PassGraph) {
    Fileable(g) && StableWorkload(g.roots[0]) != "" ==>
      (ShowsNameless(RenameBlasts(f, g.blast)) <==> ShowsNameless(g.blast)) || NamelessAnyway(g, StableWorkload(g.roots[0]))
  }

  // ---- Edge memory ----

  lemma PairKept(f: Renaming, pair: set<string>)
    requires KeepsWorkloads(f)
    ensures E.Workloads(RenamePair(f, pair)) == E.Workloads(pair)
  {
  }

  lemma PresentKept(f: Renaming, vs: seq<B.Window>)
    requires KeepsWorkloads(f)
    ensures Present(RenameWindows(f, vs)) == Present(vs)
  {
  }

  lemma SeedsKept(c: MemoryConfig, f: Renaming, p: PassInput, k: E.EdgeKey)
    requires KeepsWorkloads(f)
    ensures E.Seeds(c, k, EdgeInputOf(RenamePass(f, p))) <==> E.Seeds(c, k, EdgeInputOf(p))
  {
    PresentKept(f, p.vectors);
    if p.shared.Some? {
      var shared, shared' := p.shared.value, RenameShared(f, p.shared).value;
      if pair :| pair in shared && E.Workloads(pair) == {k.src, k.dst} {
        PairKept(f, pair);
        assert RenamePair(f, pair) in shared';
      }
      if pair' :| pair' in shared' && E.Workloads(pair') == {k.src, k.dst} {
        var pair :| pair in shared && RenamePair(f, pair) == pair';
        PairKept(f, pair);
      }
    }
  }

  lemma ConfirmRowKept(c: MemoryConfig, f: Renaming, row: Option<E.EdgeRow>, e: Edge, ts: real)
    ensures E.ConfirmRow(c, row, RenameEdge(f, e), ts) == E.ConfirmRow(c, row, e, ts)
  {
  }

  lemma {:induction false} ConfirmedKept(c: MemoryConfig, f: Renaming, t: E.Table, live: seq<Edge>, ts: real)
    requires KeepsWorkloads(f)
    ensures E.Confirmed(c, t, RenameEdges(f, live), ts) == E.Confirmed(c, t, live, ts)
  {
    if live != [] {
      var n, e := |live| - 1, live[|live| - 1];
      ConfirmedKept(c, f, t, live[..n], ts);
      assert RenameEdges(f, live)[..n] == RenameEdges(f, live[..n]);
      assert E.KeyOf(c, RenameEdge(f, e)) == E.KeyOf(c, e);
      ConfirmRowKept(c, f, E.Lookup(E.Confirmed(c, t, live[..n], ts), E.KeyOf(c, e)), e, ts);
    }
  }

  lemma LiveKept(c: MemoryConfig, f: Renaming, live: seq<Edge>, k: E.EdgeKey)
    requires KeepsWorkloads(f)
    ensures E.Live(c, k, RenameEdges(f, live)) <==> E.Live(c, k, live)
  {
  }

  lemma EdgesKept(c: MemoryConfig, f: Renaming, t: E.Table, p: PassInput)
    requires KeepsWorkloads(f)
    ensures E.EdgePass(c, t, EdgeInputOf(RenamePass(f, p))) == E.EdgePass(c, t, EdgeInputOf(p))
  {
    var i, i' := EdgeInputOf(p), EdgeInputOf(RenamePass(f, p));
    PresentKept(f, p.vectors);
    forall k ensures E.Seeds(c, k, i') <==> E.Seeds(c, k, i) { SeedsKept(c, f, p, k); }
    assert E.SeedKeys(c, i') == E.SeedKeys(c, i);
    ConfirmedKept(c, f, E.Seeded(c, t, E.SeedKeys(c, i), p.ts), p.graph.edges, p.ts);
    forall k ensures E.Decays(c, k, i') <==> E.Decays(c, k, i) { LiveKept(c, f, p.graph.edges, k); }
  }

  // ---- Baselines ----

  lemma UpdateOneKept(c: MemoryConfig, f: Renaming, t: B.Table, w: B.Window, ts: real)
    requires StableWorkload(f(w.0)) == StableWorkload(w.0)
    ensures B.UpdateOne(c, t, (f(w.0), w.1), ts) == B.UpdateOne(c, t, w, ts)
  {
  }

  lemma {:induction false} BaselinesKept(c: MemoryConfig, f: Renaming, t: B.Table, vs: seq<B.Window>, ts: real)
    requires KeepsWorkloads(f)
    ensures B.Updated(c, t, RenameWindows(f, vs), ts) == B.Updated(c, t, vs, ts)
  {
    if vs != [] {
      var n := |vs| - 1;
      BaselinesKept(c, f, t, vs[..n], ts);
      assert RenameWindows(f, vs)[..n] == RenameWindows(f, vs[..n]);
      UpdateOneKept(c, f, B.Updated(c, t, vs[..n], ts), vs[n], ts);
    }
  }

  // ---- Cases ----

  lemma NamelessWorkload()
    ensures StableWorkload("") == ""
  {
    assert Split("") == [[]];
  }

  lemma BlastVictim(g: I.PassGraph, root: string, w: string)
    ensures w in I.BlastVictims(g, root) <==> w != root && exists b :: b in g.blast && b.pod != "" && StableWorkload(b.pod) == w
  {
    if w in I.BlastVictims(g, root) {
      var b :| b in g.blast && b.pod != "" && StableWorkload(b.pod) != root && StableWorkload(b.pod) == w;
    }
  }

  /** A renaming can only bring in or remove the nameless victim. */
  lemma BlastKept(f: Renaming, g: I.PassGraph, root: string, w: string)
    requires KeepsWorkloads(f) && w != ""
    ensures w in I.BlastVictims(RenameGraph(f, g), root) <==> w in I.BlastVictims(g, root)
  {
    var g' := RenameGraph(f, g);
    NamelessWorkload();
    BlastVictim(g, root, w);
    BlastVictim(g', root, w);
    if b :| b in g.blast && b.pod != "" && StableWorkload(b.pod) == w {
      var i :| 0 <= i < |g.blast| && g.blast[i] == b;
      assert g'.blast[i] in g'.blast && g'.blast[i].pod == f(b.pod);
    }
    if b' :| b' in g'.blast && b'.pod != "" && StableWorkload(b'.pod) == w {
      var i :| 0 <= i < |g'.blast| && g'.blast[i] == b';
      assert g.blast[i] in g.blast && b'.pod == f(g.blast[i].pod);
    }
  }

  lemma TargetVictim(g: I.PassGraph, root: string, w: string)
    ensures w in I.TargetVictims(g, root) <==> w != root && exists i :: 0 <= i < |g.edges| && StableWorkload(g.edges[i].dst) == w
  {
    if w in I.TargetVictims(g, root) {
      var e :| e in g.edges && StableWorkload(e.dst) == w;
      var i :| 0 <= i < |g.edges| && g.edges[i] == e;
    }
    if i :| 0 <= i < |g.edges| && StableWorkload(g.edges[i].dst) == w { assert g.edges[i] in g.edges; }
  }

  lemma TargetsKept(f: Renaming, g: I.PassGraph, root: string)
    requires KeepsWorkloads(f)
    ensures I.TargetVictims(RenameGraph(f, g), root) == I.TargetVictims(g, root)
  {
    var g' := RenameGraph(f, g);
    forall i | 0 <= i < |g.edges| ensures StableWorkload(g'.edges[i].dst) == StableWorkload(g.edges[i].dst) {
      assert g'.edges[i] == RenameEdge(f, g.edges[i]);
    }
    forall w ensures w in I.TargetVictims(g', root) <==> w in I.TargetVictims(g, root) {
      TargetVictim(g, root, w);
      TargetVictim(g', root, w);
    }
  }

  /** Two victim sets that agree except on "" give the same victims exactly when they agree, or only "" is left over. */
  lemma AlmostSame(b: set<string>, b': set<string>, t: set<string>)
    requires forall w :: w != "" ==> (w in b <==> w in b')
    ensures (if b != {} then b else t) == (if b' != {} then b' else t) <==>
            (("" in b <==> "" in b') || (b <= {""} && t == {""}))
  {
    if "" in b <==> "" in b' {
      assert b == b';
    } else if b <= {""} {
      assert b' <= {""};
      assert b == {} || b == {""};
      assert b' == {} || b' == {""};
    } else {
      var w :| w in b && w != "";
      assert w in b';
    }
  }

  lemma VictimsKeptIff(f: Renaming, g: I.PassGraph, root: string)
    requires KeepsWorkloads(f)
    ensures I.Victims(RenameGraph(f, g), root) == I.Victims(g, root) <==>
            root == "" || (ShowsNameless(RenameBlasts(f, g.blast)) <==> ShowsNameless(g.blast)) || NamelessAnyway(g, root)
  {
    var g' := RenameGraph(f, g);
    forall w | w != "" ensures w in I.BlastVictims(g, root) <==> w in I.BlastVictims(g', root) { BlastKept(f, g, root, w); }
    TargetsKept(f, g, root);
    BlastVictim(g, root, "");
    BlastVictim(g', root, "");
    AlmostSame(I.BlastVictims(g, root), I.BlastVictims(g', root), I.TargetVictims(g, root));
  }

  lemma OwnsKept(f: Renaming, e: Edge, root: string)
    requires StableWorkload(f(e.src)) == StableWorkload(e.src)
    ensures I.OwnsSource(root, RenameEdge(f, e)) <==> I.OwnsSource(root, e)
  {
  }

  lemma SourceRootedKept(f: Renaming, es: seq<Edge>, root: string)
    requires KeepsWorkloads(f)
    ensures I.SourceRooted(root, RenameEdges(f, es)) <==> I.SourceRooted(root, es)
  {
    var ds := RenameEdges(f, es);
    if e :| e in es && I.OwnsSource(root, e) {
      var i :| 0 <= i < |es| && es[i] == e;
      OwnsKept(f, e, root);
      assert ds[i] in ds;
    }
    if d :| d in ds && I.OwnsSource(root, d) {
      var i :| 0 <= i < |ds| && ds[i] == d;
      OwnsKept(f, es[i], root);
      assert es[i] in es;
    }
  }

  lemma {:induction false} MotifKept(f: Renaming, es: seq<Edge>)
    requires KeepsWorkloads(f)
    ensures I.Motif(RenameEdges(f, es)) == I.Motif(es)
    ensures I.AllPhysical(RenameEdges(f, es)) == I.AllPhysical(es)
  {
    if es != [] {
      MotifKept(f, es[..|es| - 1]);
      assert RenameEdges(f, es)[..|es| - 1] == RenameEdges(f, es[..|es| - 1]);
    }
  }

  lemma {:induction false} EtasKept(f: Renaming, bs: seq<I.Blast>)
    ensures I.Etas(RenameBlasts(f, bs)) == I.Etas(bs)
  {
    if bs != [] {
      EtasKept(f, bs[1..]);
      assert RenameBlasts(f, bs)[1..] == RenameBlasts(f, bs[1..]);
    }
  }

  lemma {:induction false} LagsKept(f: Renaming, es: seq<Edge>)
    ensures I.PositiveLags(RenameEdges(f, es)) == I.PositiveLags(es)
  {
    if es != [] {
      LagsKept(f, es[1..]);
      assert RenameEdges(f, es)[1..] == RenameEdges(f, es[1..]);
    }
  }

  lemma LeadKept(f: Renaming, g: I.PassGraph)
    ensures I.LeadTime(RenameGraph(f, g)) == I.LeadTime(g)
  {
    EtasKept(f, g.blast);
    LagsKept(f, g.edges);
  }

  /** Two verdicts that agree on everything but the victims hold the same incident exactly when they agree on these. */
  lemma VictimsDecide(c: MemoryConfig, g: I.PassGraph, g': I.PassGraph, root: string)
    requires g.roots != [] && g'.roots != [] && StableWorkload(g.roots[0]) == StableWorkload(g'.roots[0]) == root
    requires g.edges != [] && g'.edges != [] && (I.SourceRooted(root, g'.edges) <==> I.SourceRooted(root, g.edges))
    requires I.Motif(g'.edges) == I.Motif(g.edges) && I.DominantWitness(g'.edges) == I.DominantWitness(g.edges)
    requires I.LeadTime(g') == I.LeadTime(g)
    ensures I.IncidentOf(c, g') == I.IncidentOf(c, g) <==> !I.SourceRooted(root, g.edges) || I.Victims(g', root) == I.Victims(g, root)
  {
  }

  /** A renamed pass holds the same incident exactly when no nameless victim comes or goes. */
  lemma IncidentKeptIff(c: MemoryConfig, f: Renaming, g: I.PassGraph)
    requires KeepsWorkloads(f)
    ensures I.IncidentOf(c, RenameGraph(f, g)) == I.IncidentOf(c, g) <==> Keeps(f, g)
  {
    if g.roots != [] && g.edges != [] {
      var root := StableWorkload(g.roots[0]);
      SourceRootedKept(f, g.edges, root);
      VictimsKeptIff(f, g, root);
      MotifKept(f, g.edges);
      LeadKept(f, g);
      VictimsDecide(c, g, RenameGraph(f, g), root);
    }
  }

  // ---- Passes ----

  /** Renaming the pods of one pass changes nothing the memory stores, exactly when no nameless victim comes or goes. */
  lemma StepKeptIff(c: MemoryConfig, h: L.Hash, f: Renaming, m: Memory, p: PassInput)
    requires KeepsWorkloads(f)
    ensures Step(c, h, m, RenamePass(f, p)) == Step(c, h, m, p) <==> Keeps(f, p.graph)
  {
    EdgesKept(c, f, m.edges, p);
    BaselinesKept(c, f, m.baselines, p.vectors, p.ts);
    IncidentKeptIff(c, f, p.graph);
    LogTells(c, h, m.library, p, RenamePass(f, p));
  }

  /** Passes at one time that hold different incidents are logged differently. */
  lemma LogTells(c: MemoryConfig, h: L.Hash, lib: L.Library, p: PassInput, q: PassInput)
    requires p.ts == q.ts
    ensures StepLibrary(c, h, lib, q) == StepLibrary(c, h, lib, p) <==> I.IncidentOf(c, q.graph) == I.IncidentOf(c, p.graph)
  {
    var x, y := StepLibrary(c, h, lib, p).log, StepLibrary(c, h, lib, q).log;
    var i, j := I.IncidentOf(c, p.graph), I.IncidentOf(c, q.graph);
    assert |x| == |lib.log| + (if i.Some? then 1 else 0) && |y| == |lib.log| + (if j.Some? then 1 else 0);
    if i.Some? && j.Some? && i != j {
      assert x[|lib.log|].incident == i.value && y[|lib.log|].incident == j.value;
    }
  }

  /** The case table after a first pass. */
  ghost function FirstCases(c: MemoryConfig, h: L.Hash, p: PassInput): seq<L.CaseRow> {
    Step(c, h, EMPTY_MEMORY, p).library.cases
  }

  lemma FirstCase(c: MemoryConfig, h: L.Hash, p: PassInput)
    ensures var inc := I.IncidentOf(c, p.graph);
            FirstCases(c, h, p) == if inc.Some? then [L.Opened(h(inc.value.key), inc.value, h(inc.value.key), p.ts)] else []
  {
  }

  /** In the same way the cases that a first pass stores are the same. */
  lemma FirstCasesKeptIff(c: MemoryConfig, h: L.Hash, f: Renaming, p: PassInput)
    requires KeepsWorkloads(f)
    ensures FirstCases(c, h, RenamePass(f, p)) == FirstCases(c, h, p) <==> Keeps(f, p.graph)
  {
    IncidentKeptIff(c, f, p.graph);
    FirstCase(c, h, p);
    FirstCase(c, h, RenamePass(f, p));
    var i, j := I.IncidentOf(c, p.graph), I.IncidentOf(c, RenameGraph(f, p.graph));
    if i.Some? && j.Some? && i != j {
      assert FirstCases(c, h, p)[0].key == i.value.key && FirstCases(c, h, RenamePass(f, p))[0].key == j.value.key;
      assert FirstCases(c, h, p)[0].lead == i.value.lead && FirstCases(c, h, RenamePass(f, p))[0].lead == j.value.lead;
    }
  }

  // ---- Runs ----

  /** q is p after a restart: its pods renamed by f, and listed in whatever order within which each workload's own is kept. */
  ghost predicate Restarted(c: MemoryConfig, f: Renaming, p: PassInput, q: PassInput) {
    KeepsWorkloads(f) && Keeps(f, p.graph) && Reordered(c, RenamePass(f, p), q)
  }

  /** Two runs whose passes differ by restarts only end with equal tables. */
  lemma {:induction false} RestartInvariance(c: MemoryConfig, h: L.Hash, m: Memory, fs: seq<Renaming>,
                                             passes: seq<PassInput>, passes': seq<PassInput>)
    requires |fs| == |passes| == |passes'|
    requires forall i :: 0 <= i < |passes| ==> Restarted(c, fs[i], passes[i], passes'[i])
    ensures Run(c, h, m, passes') == Run(c, h, m, passes)
  {
    if passes != [] {
      var n := |passes| - 1;
      RestartInvariance(c, h, m, fs[..n], passes[..n], passes'[..n]);
      var before := Run(c, h, m, passes[..n]);
      assert Restarted(c, fs[n], passes[n], passes'[n]);
      StepKeptIff(c, h, fs[n], before, passes[n]);
      StepReordered(c, h, before, RenamePass(fs[n], passes[n]), passes'[n]);
    }
  }

  // ---- Which renamings are safe ----

  function RenamePasses(f: Renaming, passes: seq<PassInput>): (r: seq<PassInput>)
    ensures |r| == |passes| && forall i :: 0 <= i < |passes| ==> r[i] == RenamePass(f, passes[i])
  {
    seq(|passes|, i requires 0 <= i < |passes| => RenamePass(f, passes[i]))
  }

  ghost predicate SameRun(c: MemoryConfig, h: L.Hash, f: Renaming, m: Memory, passes: seq<PassInput>) {
    Run(c, h, m, RenamePasses(f, passes)) == Run(c, h, m, passes)
  }

  ghost predicate SameCases(c: MemoryConfig, h: L.Hash, f: Renaming, passes: seq<PassInput>) {
    Run(c, h, EMPTY_MEMORY, RenamePasses(f, passes)).library.cases == Run(c, h, EMPTY_MEMORY, passes).library.cases
  }

  lemma NamesKept(f: Renaming, g: I.PassGraph)
    requires KeepsNames(f) && KeepsWorkloads(f)
    ensures Keeps(f, g)
  {
    var bs, bs' := g.blast, RenameBlasts(f, g.blast);
    if b :| b in bs && b.pod != "" && StableWorkload(b.pod) == "" {
      var i :| 0 <= i < |bs| && bs[i] == b;
      assert NamedAlike(f, b.pod) && bs'[i] in bs';
    }
    if b' :| b' in bs' && b'.pod != "" && StableWorkload(b'.pod) == "" {
      var i :| 0 <= i < |bs'| && bs'[i] == b';
      assert NamedAlike(f, bs[i].pod) && bs[i] in bs;
    }
  }

  lemma {:induction false} SafeRun(c: MemoryConfig, h: L.Hash, f: Renaming, m: Memory, passes: seq<PassInput>)
    requires KeepsWorkloads(f) && KeepsNames(f)
    ensures SameRun(c, h, f, m, passes)
  {
    if passes != [] {
      var n := |passes| - 1;
      SafeRun(c, h, f, m, passes[..n]);
      assert RenamePasses(f, passes)[..n] == RenamePasses(f, passes[..n]);
      NamesKept(f, passes[n].graph);
      StepKeptIff(c, h, f, Run(c, h, m, passes[..n]), passes[n]);
    }
  }

  /** One write edge a -> b with a as the root, and one blast entry x. */
  function TellingPass(x: string): PassInput {
    PassInput(I.PassGraph([Edge("a", "b", 1.0, 0, ["write", "pvc"])], ["a"], [I.Blast(x, None)]), [], None, 0.0)
  }

  lemma WholeName(x: string)
    requires DashFree(x)
    ensures StableWorkload(x) == x
  {
    SplitDashFree(x);
  }

  /** A name that f adds or removes decides whether the telling pass has the nameless victim. */
  lemma TellingPassTells(f: Renaming, x: string)
    requires KeepsWorkloads(f) && !NamedAlike(f, x)
    ensures !Keeps(f, TellingPass(x).graph)
  {
    var g := TellingPass(x).graph;
    NamelessWorkload();
    WholeName("a");
    WholeName("b");
    assert StableWorkload(f(x)) == StableWorkload(x) == "";
    assert g.edges[0] in g.edges && g.edges[0].evidence[0] in g.edges[0].evidence;
    assert I.OwnsSource("a", g.edges[0]);
    assert g.blast[0] in g.blast && RenameBlasts(f, g.blast)[0] in RenameBlasts(f, g.blast);
    assert ShowsNameless(g.blast) <==> x != "";
    assert ShowsNameless(RenameBlasts(f, g.blast)) <==> f(x) != "";
    assert "b" in I.TargetVictims(g, "a");
  }

  lemma OnePass(c: MemoryConfig, h: L.Hash, m: Memory, p: PassInput)
    ensures Run(c, h, m, [p]) == Step(c, h, m, p)
  {
    assert [p][..0] == [];
  }

  lemma UnsafeRun(c: MemoryConfig, h: L.Hash, f: Renaming, x: string) returns (passes: seq<PassInput>)
    requires KeepsWorkloads(f) && !NamedAlike(f, x)
    ensures !SameCases(c, h, f, passes) && !SameRun(c, h, f, EMPTY_MEMORY, passes)
  {
    var p := TellingPass(x);
    passes := [p];
    TellingPassTells(f, x);
    FirstCasesKeptIff(c, h, f, p);
    assert RenamePasses(f, [p]) == [RenamePass(f, p)];
    OnePass(c, h, EMPTY_MEMORY, p);
    OnePass(c, h, EMPTY_MEMORY, RenamePass(f, p));
  }

  /**
   * A workload-keeping renaming leaves every run of every memory as it was, and the cases of every run
   * from the empty memory, exactly when it renames pods to pods.
   */
  lemma RestartSafeIff(c: MemoryConfig, h: L.Hash, f: Renaming)
    requires KeepsWorkloads(f)
    ensures (forall m, passes :: SameRun(c, h, f, m, passes)) <==> KeepsNames(f)
    ensures (forall passes :: SameCases(c, h, f, passes)) <==> KeepsNames(f)
  {
    if KeepsNames(f) {
      forall m, passes ensures SameRun(c, h, f, m, passes) { SafeRun(c, h, f, m, passes); }
      forall passes ensures SameCases(c, h, f, passes) { assert SameRun(c, h, f, EMPTY_MEMORY, passes); }
    } else {
      var x :| !NamedAlike(f, x);
      var passes := UnsafeRun(c, h, f, x);
    }
  }
}
