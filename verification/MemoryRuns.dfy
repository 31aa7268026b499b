/** What holds after every run of `observe`, from the empty memory or from any memory in order. */
module MemoryRuns {
  import opened Basics
  import opened Config
  import opened Digraph
  import opened Names
  import opened Similarity
  import opened GraphMemory
  import E = EdgeMemory
  import B = Baselines
  import L = CaseLibrary
  import I = Incidents

  ghost function Run(c: MemoryConfig, h: L.Hash, m: Memory, passes: seq<PassInput>): Memory {
    if passes == [] then m else Step(c, h, Run(c, h, m, passes[..|passes| - 1]), passes[|passes| - 1])
  }

  function EdgeInputs(passes: seq<PassInput>): seq<E.EdgeInput> { seq(|passes|, i requires 0 <= i < |passes| => EdgeInputOf(passes[i])) }

  /** The edge table of a run depends on the passes' edge inputs only. */
  lemma {:induction false} RunEdges(c: MemoryConfig, h: L.Hash, m: Memory, passes: seq<PassInput>)
    ensures Run(c, h, m, passes).edges == E.EdgeRun(c, m.edges, EdgeInputs(passes))
  {
    if passes != [] {
      RunEdges(c, h, m, passes[..|passes| - 1]);
      assert EdgeInputs(passes)[..|passes| - 1] == EdgeInputs(passes[..|passes| - 1]);
    }
  }

  /** Every edge row obeys its bounds, and the library is separated, grouped, counted and logged. */
  ghost predicate MemoryOk(c: MemoryConfig, h: L.Hash, m: Memory) {
    (forall k :: k in m.edges ==> E.RowOk(c, m.edges[k])) && L.LibraryOk(c, h, m.library)
  }

  lemma EmptyOk(c: MemoryConfig, h: L.Hash)
    ensures MemoryOk(c, h, EMPTY_MEMORY)
  {
  }

  lemma {:induction false} RunKeepsLibrary(c: MemoryConfig, h: L.Hash, m: Memory, passes: seq<PassInput>)
    requires ValidConfig(c) && L.GoodHash(h) && L.LibraryOk(c, h, m.library)
    ensures L.LibraryOk(c, h, Run(c, h, m, passes).library)
  {
    if passes != [] {
      var n := |passes| - 1;
      RunKeepsLibrary(c, h, m, passes[..n]);
      var inc := I.IncidentOf(c, passes[n].graph);
      if inc.Some? { L.PromotionKeeps(c, h, Run(c, h, m, passes[..n]).library, inc.value, passes[n].ts); }
    }
  }

  /** The invariant of every run. */
  lemma RunKeeps(c: MemoryConfig, h: L.Hash, m: Memory, passes: seq<PassInput>)
    requires ValidConfig(c) && L.GoodHash(h) && MemoryOk(c, h, m)
    ensures MemoryOk(c, h, Run(c, h, m, passes))
  {
    var m' := Run(c, h, m, passes);
    RunKeepsLibrary(c, h, m, passes);
    RunEdges(c, h, m, passes);
    forall k | k in m'.edges ensures E.RowOk(c, m'.edges[k]) {
      E.RunKeepsTable(c, m.edges, EdgeInputs(passes), k);
    }
  }

  // ---- What one pass does to a row ----

  /** Some pod of the workload has a window in the pass. */
  ghost predicate Runs(p: PassInput, workload: string) { exists i :: 0 <= i < |p.vectors| && StableWorkload(p.vectors[i].0) == workload }

  lemma PresentMeans(p: PassInput, workload: string)
    ensures workload in EdgeInputOf(p).present <==> Runs(p, workload)
  {
    if workload in EdgeInputOf(p).present {
      var w :| w in p.vectors && StableWorkload(w.0) == workload;
      var i := IndexOf(p.vectors, w);
    }
    if i :| 0 <= i < |p.vectors| && StableWorkload(p.vectors[i].0) == workload { assert p.vectors[i] in p.vectors; }
  }

  lemma StepAt(c: MemoryConfig, h: L.Hash, m: Memory, p: PassInput, k: E.EdgeKey)
    ensures E.Lookup(Step(c, h, m, p).edges, k) == E.KeyPass(c, k, E.Lookup(m.edges, k), EdgeInputOf(p))
  {
    E.PassAt(c, m.edges, EdgeInputOf(p), k);
  }

  /** How many edges of the pass join the workloads of k. */
  ghost function Confirming(c: MemoryConfig, p: PassInput, k: E.EdgeKey): nat { E.Confirmations(c, k, p.graph.edges) }

  /** Two running pods on one disk always have a row; a new one holds the prior, unless the same pass confirms it. */
  lemma BackboneSeeded(c: MemoryConfig, h: L.Hash, m: Memory, p: PassInput, x: string, y: string)
    requires ValidConfig(c) && Runs(p, StableWorkload(x)) && Runs(p, StableWorkload(y))
    requires p.shared.Some? && {x, y} in p.shared.value && Less(StableWorkload(x), StableWorkload(y))
    ensures var k := E.EdgeKey(StableWorkload(x), StableWorkload(y), c.signal);
            var m' := Step(c, h, m, p);
            && k in m'.edges
            && (k !in m.edges && Confirming(c, p, k) == 0 ==>
                  m'.edges[k] == E.EdgeRow(c.prior, 0.0, 0, ["pvc"], 0, false, if c.prior > 0.0 then E.Steady else E.Hidden,
                                           p.ts, p.ts, p.ts, c.prior))
            && (k !in m.edges && Confirming(c, p, k) > 0 ==>
                  m'.edges[k].confidence == E.Grown(c.prior, Power(1.0 - c.alpha, Confirming(c, p, k))))
  {
    var k, i := E.EdgeKey(StableWorkload(x), StableWorkload(y), c.signal), EdgeInputOf(p);
    PresentMeans(p, k.src);
    PresentMeans(p, k.dst);
    assert E.Spans({x, y}, k.src, k.dst);
    StepAt(c, h, m, p, k);
    E.WitnessedPass(c, k, E.Lookup(m.edges, k), i);
  }

  /** A row whose workloads both run without an edge between them decays; one with a workload that does not run is left alone. */
  lemma RowUnconfirmed(c: MemoryConfig, h: L.Hash, m: Memory, p: PassInput, k: E.EdgeKey)
    requires k in m.edges && k.signal == c.signal && Confirming(c, p, k) == 0
    ensures k in Step(c, h, m, p).edges
    ensures var x, x' := m.edges[k], Step(c, h, m, p).edges[k];
            if Runs(p, k.src) && Runs(p, k.dst)
            then x'.confidence == Max(x'.base, Product(x.confidence, 1.0 - c.decay)) && x'.updated == p.ts && E.ShowsState(x', false)
            else x' == x
  {
    PresentMeans(p, k.src);
    PresentMeans(p, k.dst);
    StepAt(c, h, m, p, k);
    E.UnconfirmedPass(c, k, m.edges[k], EdgeInputOf(p));
  }

  /** An edge of the pass always has a row, which shows the last edge between the two workloads. */
  lemma RowConfirmed(c: MemoryConfig, h: L.Hash, m: Memory, p: PassInput, e: Edge)
    requires e in p.graph.edges
    ensures var k := E.EdgeKey(StableWorkload(e.src), StableWorkload(e.dst), c.signal);
            var m' := Step(c, h, m, p);
            var last := E.LastJoining(c, k, p.graph.edges);
            && k in m'.edges && last.Some? && E.ShowsState(m'.edges[k], true)
            && m'.edges[k].r == last.value.r && m'.edges[k].lag == last.value.lag && m'.edges[k].evidence == last.value.evidence
            && m'.edges[k].hits == (if k in m.edges then m.edges[k].hits else 0) + Confirming(c, p, k)
            && m'.edges[k].lastSeen == p.ts
  {
    var k, i := E.EdgeKey(StableWorkload(e.src), StableWorkload(e.dst), c.signal), EdgeInputOf(p);
    var n := IndexOf(p.graph.edges, e);
    assert E.KeyOf(c, p.graph.edges[n]) == k;
    E.LiveMeans(c, k, i.live);
    E.PassAt(c, m.edges, i, k);
    E.StateShown(c, k, E.Lookup(m.edges, k), i);
    E.ConfirmedTells(c, k, E.KeySeeded(c, k, E.Lookup(m.edges, k), i), i.live, i.ts);
  }

  /** After every run from the empty memory a row counts its confirmations, shows the last, and dates what happened. */
  lemma RowIsHistory(c: MemoryConfig, h: L.Hash, passes: seq<PassInput>, k: E.EdgeKey)
    ensures E.Tells(E.Lookup(Run(c, h, EMPTY_MEMORY, passes).edges, k), E.HistoryOf(c, k, EdgeInputs(passes)))
  {
    RunEdges(c, h, EMPTY_MEMORY, passes);
    E.RunAt(c, map[], EdgeInputs(passes), k);
    E.RowTellsHistory(c, k, EdgeInputs(passes));
  }

  /** Learned floors never fall, and rows never disappear. */
  lemma FloorsNeverFall(c: MemoryConfig, h: L.Hash, m: Memory, passes: seq<PassInput>, k: E.EdgeKey)
    requires ValidConfig(c) && k in m.edges && E.RowOk(c, m.edges[k])
    ensures var m' := Run(c, h, m, passes); k in m'.edges && m'.edges[k].base >= m.edges[k].base
  {
    RunEdges(c, h, m, passes);
    E.RunKeepsTable(c, m.edges, EdgeInputs(passes), k);
  }

  /** From the empty memory a row's floor is exactly the peak of its history. */
  lemma FloorIsHistory(c: MemoryConfig, h: L.Hash, passes: seq<PassInput>, k: E.EdgeKey)
    requires ValidConfig(c)
    ensures E.IsPeak(c, k, EdgeInputs(passes), E.Lookup(Run(c, h, EMPTY_MEMORY, passes).edges, k))
  {
    RunEdges(c, h, EMPTY_MEMORY, passes);
    E.RunAt(c, map[], EdgeInputs(passes), k);
    E.BaseIsPeak(c, k, EdgeInputs(passes));
  }

  /** A visible edge whose floor has reached hide is shown for ever. */
  lemma BackboneStaysVisible(c: MemoryConfig, h: L.Hash, m: Memory, passes: seq<PassInput>, k: E.EdgeKey)
    requires ValidConfig(c) && k in m.edges && E.RowOk(c, m.edges[k]) && m.edges[k].visible && m.edges[k].base >= c.hide
    ensures k in Run(c, h, m, passes).edges && Run(c, h, m, passes).edges[k].visible
  {
    RunEdges(c, h, m, passes);
    E.RunAt(c, m.edges, EdgeInputs(passes), k);
    E.StaysVisible(c, k, m.edges[k], EdgeInputs(passes));
  }

  /** Cases are only ever appended, and a stored prototype and its family never change. */
  lemma {:induction false} PrototypesNeverChange(c: MemoryConfig, h: L.Hash, m: Memory, passes: seq<PassInput>)
    ensures L.Extends(m.library.cases, Run(c, h, m, passes).library.cases)
  {
    if passes != [] {
      var n := |passes| - 1;
      PrototypesNeverChange(c, h, m, passes[..n]);
      var inc := I.IncidentOf(c, passes[n].graph);
      if inc.Some? { L.PrototypesFixed(c, h, Run(c, h, m, passes[..n]).library, inc.value, passes[n].ts); }
    }
  }

  /** Any two incidents that one case has absorbed, in any run, are similar to each other. */
  lemma NoDriftEver(c: MemoryConfig, h: L.Hash, passes: seq<PassInput>, o: L.Observation, p: L.Observation)
    requires ValidConfig(c) && L.GoodHash(h)
    requires var log := Run(c, h, EMPTY_MEMORY, passes).library.log; o in log && p in log && o.caseId == p.caseId
    ensures Sim(L.Print(o.incident.key), L.Print(p.incident.key)) >= 2.0 * c.tauMerge - 1.0
  {
    EmptyOk(c, h);
    RunKeepsLibrary(c, h, EMPTY_MEMORY, passes);
    L.NoDrift(c, h, Run(c, h, EMPTY_MEMORY, passes).library, o, p);
  }

  /** After every run each case was first seen at its first observation and last seen at its last. */
  lemma {:induction false} CasesAreDated(c: MemoryConfig, h: L.Hash, passes: seq<PassInput>)
    requires ValidConfig(c) && L.GoodHash(h)
    ensures L.Dated(Run(c, h, EMPTY_MEMORY, passes).library)
  {
    if passes != [] {
      var n := |passes| - 1;
      CasesAreDated(c, h, passes[..n]);
      EmptyOk(c, h);
      RunKeepsLibrary(c, h, EMPTY_MEMORY, passes[..n]);
      StepKeepsDates(c, h, Run(c, h, EMPTY_MEMORY, passes[..n]).library, passes[n]);
    }
  }

  lemma StepKeepsDates(c: MemoryConfig, h: L.Hash, lib: L.Library, p: PassInput)
    requires ValidConfig(c) && L.GoodHash(h) && L.LibraryOk(c, h, lib) && L.Dated(lib)
    ensures L.Dated(StepLibrary(c, h, lib, p))
  {
    var inc := I.IncidentOf(c, p.graph);
    if inc.Some? { L.PromotionKeepsDates(c, h, lib, inc.value, p.ts); }
  }

  ghost function Filings(c: MemoryConfig, passes: seq<PassInput>): nat {
    if passes == [] then 0
    else Filings(c, passes[..|passes| - 1]) + (if I.IncidentOf(c, passes[|passes| - 1].graph).Some? then 1 else 0)
  }

  lemma {:induction false} LogCountsFilings(c: MemoryConfig, h: L.Hash, m: Memory, passes: seq<PassInput>)
    ensures |Run(c, h, m, passes).library.log| == |m.library.log| + Filings(c, passes)
  {
    if passes != [] { LogCountsFilings(c, h, m, passes[..|passes| - 1]); }
  }

  /** Conservation: over all cases, the occurrences add up to the passes that held an incident. */
  lemma OccurrencesConserved(c: MemoryConfig, h: L.Hash, passes: seq<PassInput>)
    requires ValidConfig(c) && L.GoodHash(h)
    ensures L.TotalOccurrences(Run(c, h, EMPTY_MEMORY, passes).library.cases) == Filings(c, passes)
  {
    EmptyOk(c, h);
    RunKeepsLibrary(c, h, EMPTY_MEMORY, passes);
    LogCountsFilings(c, h, EMPTY_MEMORY, passes);
  }

  /** An incident that has been filed before folds, into the case it opened or joined, whenever its key is a prototype. */
  lemma RecurrenceFolds(c: MemoryConfig, h: L.Hash, passes: seq<PassInput>, inc: L.Incident, i: nat)
    requires ValidConfig(c) && L.GoodHash(h)
    requires var cases := Run(c, h, EMPTY_MEMORY, passes).library.cases; i < |cases| && cases[i].key == inc.key
    ensures var cases := Run(c, h, EMPTY_MEMORY, passes).library.cases;
            L.VerdictOf(c, h, cases, inc) == L.Verdict(cases[i].id, L.FamilyOf(cases[i]), L.Recurrence, 1.0)
  {
    EmptyOk(c, h);
    RunKeepsLibrary(c, h, EMPTY_MEMORY, passes);
    L.SameKeyFolds(c, h, Run(c, h, EMPTY_MEMORY, passes).library.cases, inc, i);
  }

  // ---- Which passes one case absorbs ----

  /** Pass i holds the incident of o, and files it under the case of o. */
  ghost predicate FiledAs(c: MemoryConfig, h: L.Hash, passes: seq<PassInput>, i: int, o: L.Observation) {
    && 0 <= i < |passes| && I.IncidentOf(c, passes[i].graph) == Some(o.incident) && o.at == passes[i].ts
    && L.VerdictOf(c, h, Run(c, h, EMPTY_MEMORY, passes[..i]).library.cases, o.incident).caseId == o.caseId
  }

  /** The log of the run holds o. */
  ghost predicate LoggedBy(c: MemoryConfig, h: L.Hash, passes: seq<PassInput>, o: L.Observation) {
    o in Run(c, h, EMPTY_MEMORY, passes).library.log
  }

  /** What a pass adds to the log. */
  ghost function LogEntry(c: MemoryConfig, h: L.Hash, cases: seq<L.CaseRow>, p: PassInput): seq<L.Observation> {
    var inc := I.IncidentOf(c, p.graph);
    if inc.Some? then [L.Observation(p.ts, L.VerdictOf(c, h, cases, inc.value).caseId, inc.value)] else []
  }

  lemma StepLogs(c: MemoryConfig, h: L.Hash, lib: L.Library, p: PassInput)
    ensures StepLibrary(c, h, lib, p).log == lib.log + LogEntry(c, h, lib.cases, p)
  {
  }

  lemma PassLogs(c: MemoryConfig, h: L.Hash, passes: seq<PassInput>)
    requires passes != []
    ensures var n := |passes| - 1;
            var lib := Run(c, h, EMPTY_MEMORY, passes[..n]).library;
            Run(c, h, EMPTY_MEMORY, passes).library.log == lib.log + LogEntry(c, h, lib.cases, passes[n])
  {
    var n := |passes| - 1;
    StepLogs(c, h, Run(c, h, EMPTY_MEMORY, passes[..n]).library, passes[n]);
  }

  lemma LoggedStays(c: MemoryConfig, h: L.Hash, passes: seq<PassInput>, o: L.Observation)
    requires passes != [] && LoggedBy(c, h, passes[..|passes| - 1], o)
    ensures LoggedBy(c, h, passes, o)
  {
    PassLogs(c, h, passes);
  }

  lemma FiledEarlier(c: MemoryConfig, h: L.Hash, passes: seq<PassInput>, i: int, o: L.Observation)
    requires FiledAs(c, h, passes, i, o) && i < |passes| - 1
    ensures FiledAs(c, h, passes[..|passes| - 1], i, o)
  {
    var front := passes[..|passes| - 1];
    assert front[..i] == passes[..i] && front[i] == passes[i];
  }

  lemma FiledLast(c: MemoryConfig, h: L.Hash, passes: seq<PassInput>, o: L.Observation)
    requires FiledAs(c, h, passes, |passes| - 1, o)
    ensures LoggedBy(c, h, passes, o)
  {
    var n := |passes| - 1;
    PassLogs(c, h, passes);
    assert LogEntry(c, h, Run(c, h, EMPTY_MEMORY, passes[..n]).library.cases, passes[n]) == [o];
  }

  lemma {:induction false} FiledIsLogged(c: MemoryConfig, h: L.Hash, passes: seq<PassInput>, i: int, o: L.Observation)
    requires FiledAs(c, h, passes, i, o)
    ensures LoggedBy(c, h, passes, o)
    decreases |passes|
  {
    if i < |passes| - 1 {
      FiledEarlier(c, h, passes, i, o);
      FiledIsLogged(c, h, passes[..|passes| - 1], i, o);
      LoggedStays(c, h, passes, o);
    } else {
      FiledLast(c, h, passes, o);
    }
  }

  /** Two observations of one case have the witness kind of its prototype. */
  lemma SameCaseSameType(c: MemoryConfig, h: L.Hash, lib: L.Library, o: L.Observation, p: L.Observation)
    requires ValidConfig(c) && L.GoodHash(h) && L.LibraryOk(c, h, lib)
    requires o in lib.log && p in lib.log && o.caseId == p.caseId
    ensures KindName(o.incident.key.kind) == KindName(p.incident.key.kind)
  {
    var i :| L.Filed(c, lib.cases, o, i);
    var j :| L.Filed(c, lib.cases, p, j);
    L.IdsDistinct(h, lib.cases, i, j);
  }

  /** Two passes whose dominant physical evidence differs are never filed under one case, in any run. */
  lemma DifferentCouplingsNeverFold(c: MemoryConfig, h: L.Hash, passes: seq<PassInput>, i: int, j: int,
                                    o: L.Observation, p: L.Observation, k: Option<string>, l: Option<string>)
    requires ValidConfig(c) && L.GoodHash(h)
    requires FiledAs(c, h, passes, i, o) && FiledAs(c, h, passes, j, p)
    requires I.IsDominant(passes[i].graph.edges, k) && I.IsDominant(passes[j].graph.edges, l) && KindName(k) != KindName(l)
    ensures o.caseId != p.caseId
  {
    EmptyOk(c, h);
    RunKeepsLibrary(c, h, EMPTY_MEMORY, passes);
    FiledIsLogged(c, h, passes, i, o);
    FiledIsLogged(c, h, passes, j, p);
    FiledKind(c, passes[i].graph, o.incident, k);
    FiledKind(c, passes[j].graph, p.incident, l);
    if o.caseId == p.caseId { SameCaseSameType(c, h, Run(c, h, EMPTY_MEMORY, passes).library, o, p); }
  }

  lemma FiledKind(c: MemoryConfig, g: I.PassGraph, inc: L.Incident, k: Option<string>)
    requires I.IncidentOf(c, g) == Some(inc) && I.IsDominant(g.edges, k)
    ensures inc.key.kind == k
  {
    I.IncidentMeans(c, g);
    I.DominantUnique(g.edges, inc.key.kind, k);
  }

  /** A pass learns every window of a workload, in order, and nothing else. */
  lemma PassLearns(c: MemoryConfig, h: L.Hash, m: Memory, p: PassInput, k: B.BaselineKey)
    ensures B.Lookup(Step(c, h, m, p).baselines, k) ==
            if k.signal == c.signal then B.Learned(c, B.Lookup(m.baselines, k), B.WindowsOf(p.vectors, k.workload), p.ts)
            else B.Lookup(m.baselines, k)
  {
    B.UpdatedAt(c, m.baselines, p.vectors, p.ts, k);
  }

  /** The only pod of a workload teaches it its window, if that has at least twelve samples. */
  lemma OnlyPodTeaches(c: MemoryConfig, h: L.Hash, m: Memory, p: PassInput, i: nat)
    requires ValidConfig(c) && i < |p.vectors|
    requires forall j :: 0 <= j < |p.vectors| && j != i ==> StableWorkload(p.vectors[j].0) != StableWorkload(p.vectors[i].0)
    ensures var k, v := B.BaselineKey(StableWorkload(p.vectors[i].0), c.signal), p.vectors[i].1;
            var x := B.Lookup(Step(c, h, m, p).baselines, k);
            if |v| >= 12 then x.Some? && B.Learns(c, B.Lookup(m.baselines, k), v, p.ts, x.value) else x == B.Lookup(m.baselines, k)
  {
    B.OnlyWindow(c, m.baselines, p.vectors, p.ts, i);
  }

  /** Once a workload has a threshold it always has one. */
  lemma {:induction false} MaturityIsPermanent(c: MemoryConfig, h: L.Hash, m: Memory, passes: seq<PassInput>, workload: string)
    requires B.BaselineThreshold(c, m.baselines, workload).Some?
    ensures B.BaselineThreshold(c, Run(c, h, m, passes).baselines, workload).Some?
  {
    if passes != [] {
      var n := |passes| - 1;
      MaturityIsPermanent(c, h, m, passes[..n], workload);
      B.CountsGrow(c, Run(c, h, m, passes[..n]).baselines, passes[n].vectors, passes[n].ts, B.BaselineKey(workload, c.signal));
    }
  }

  /** However long a storm lasts, it is not learned: the baseline it started from is the baseline it ends with. */
  lemma {:induction false} StormLeavesBaseline(c: MemoryConfig, h: L.Hash, m: Memory, passes: seq<PassInput>, k: B.BaselineKey)
    requires k in m.baselines && B.Mature(c, m.baselines[k])
    requires forall i :: 0 <= i < |passes| ==> B.AllStorm(c, k, m.baselines[k], passes[i].vectors)
    ensures k in Run(c, h, m, passes).baselines && Run(c, h, m, passes).baselines[k] == m.baselines[k]
  {
    if passes != [] {
      var n := |passes| - 1;
      StormLeavesBaseline(c, h, m, passes[..n], k);
      B.StormsSkipped(c, Run(c, h, m, passes[..n]).baselines, passes[n].vectors, passes[n].ts, k);
    }
  }
}
