/** `GraphMemory`: the tables, and the methods that update them, each equal to a step of the specification. */
module GraphMemory {
  import opened Basics
  import opened Config
  import opened Digraph
  import opened Names
  import opened Similarity
  import E = EdgeMemory
  import B = Baselines
  import L = CaseLibrary
  import I = Incidents
  import R = Render

  /** One call of `observe`: the pass output, the pods' windows, the witness's shared pairs if any, and the time. */
  datatype PassInput = PassInput(graph: I.PassGraph, vectors: seq<B.Window>, shared: Option<set<set<string>>>, ts: real)

  datatype Memory = Memory(edges: E.Table, baselines: B.Table, library: L.Library)

  const EMPTY_MEMORY := Memory(map[], map[], L.Library([], []))

  function Present(vectors: seq<B.Window>): set<string> { set w | w in vectors :: StableWorkload(w.0) }

  function EdgeInputOf(p: PassInput): E.EdgeInput { E.EdgeInput(p.graph.edges, p.shared, Present(p.vectors), p.ts) }

  ghost function StepLibrary(c: MemoryConfig, h: L.Hash, library: L.Library, p: PassInput): L.Library {
    var inc := I.IncidentOf(c, p.graph);
    if inc.Some? then L.Promoted(c, h, library, inc.value, p.ts) else library
  }

  ghost function Step(c: MemoryConfig, h: L.Hash, m: Memory, p: PassInput): Memory {
    Memory(E.EdgePass(c, m.edges, EdgeInputOf(p)), B.Updated(c, m.baselines, p.vectors, p.ts), StepLibrary(c, h, m.library, p))
  }

  // ---- Seeding pair by pair ----

  ghost function SeedInput(shared: set<set<string>>, present: set<string>, ts: real): E.EdgeInput {
    E.EdgeInput([], Some(shared), present, ts)
  }

  lemma SeedNext(c: MemoryConfig, done: set<set<string>>, pair: set<string>, present: set<string>, ts: real, a: string, b: string)
    requires E.Workloads(pair) == {a, b} && Less(a, b)
    ensures E.SeedKeys(c, SeedInput(done + {pair}, present, ts)) ==
            E.SeedKeys(c, SeedInput(done, present, ts))
            + (if a in present && b in present then {E.EdgeKey(a, b, c.signal)} else {})
  {
    LessTrichotomy(a, b);
    forall x, y ensures E.Seeds(c, E.EdgeKey(x, y, c.signal), SeedInput(done + {pair}, present, ts)) <==>
      E.Seeds(c, E.EdgeKey(x, y, c.signal), SeedInput(done, present, ts)) || (x == a && y == b && a in present && b in present)
    {
      var k := E.EdgeKey(x, y, c.signal);
      if E.Seeds(c, k, SeedInput(done + {pair}, present, ts)) && !E.Seeds(c, k, SeedInput(done, present, ts)) {
        assert {x, y} == {a, b};
        assert x in {a, b} && y in {a, b};
        LessTrichotomy(x, y);
      }
    }
  }

  lemma SeedNothing(c: MemoryConfig, done: set<set<string>>, pair: set<string>, present: set<string>, ts: real)
    requires |E.Workloads(pair)| != 2
    ensures E.SeedKeys(c, SeedInput(done + {pair}, present, ts)) == E.SeedKeys(c, SeedInput(done, present, ts))
  {
    forall x, y ensures E.Seeds(c, E.EdgeKey(x, y, c.signal), SeedInput(done + {pair}, present, ts)) <==>
      E.Seeds(c, E.EdgeKey(x, y, c.signal), SeedInput(done, present, ts))
    {
      if Less(x, y) {
        LessTrichotomy(x, y);
        assert |{x, y}| == 2;
      }
    }
  }

  /** Seeding a key once more changes nothing, so the order in which pairs are visited does not matter. */
  lemma SeedOneMore(c: MemoryConfig, t: E.Table, keys: set<E.EdgeKey>, k: E.EdgeKey, ts: real)
    ensures var s := E.Seeded(c, t, keys, ts);
            s[k := E.SeedRow(c, E.Lookup(s, k), ts)] == E.Seeded(c, t, keys + {k}, ts)
  {
  }

  lemma TwoWorkloads(s: set<string>, a: string)
    requires |s| == 2 && a in s
    ensures exists b :: b in s - {a} && s == {a, b}
  {
    var rest := s - {a};
    assert |rest| == 1;
    var b :| b in rest;
    assert rest - {b} == {} by { assert |rest - {b}| == 0; }
  }

  // ---- The class ----

  class GraphMemory {
    const c: MemoryConfig
    const h: L.Hash
    var edgeMemory: E.Table
    var baselines: B.Table
    var cases: seq<L.CaseRow>
    var log: seq<L.Observation>

    ghost function State(): Memory
      reads this
    {
      Memory(edgeMemory, baselines, L.Library(cases, log))
    }

    constructor (c: MemoryConfig, h: L.Hash)
      ensures this.c == c && this.h == h && State() == EMPTY_MEMORY
    {
      this.c, this.h := c, h;
      edgeMemory, baselines, cases, log := map[], map[], [], [];
    }

    method UpdateBaselines(vectors: seq<B.Window>, ts: real)
      modifies `baselines
      ensures baselines == B.Updated(c, old(baselines), vectors, ts)
    {
      for i := 0 to |vectors|
        invariant baselines == B.Updated(c, old(baselines), vectors[..i], ts)
      {
        assert vectors[..i + 1][..i] == vectors[..i];
        var (pod, vec) := vectors[i];
        if |vec| >= B.MIN_WINDOW {
          var key := B.KeyOf(c, pod);
          if key !in baselines {
            baselines := baselines[key := B.BaselineRow(B.Median(vec), B.Mad(vec), 1, ts)];
          } else {
            var row := baselines[key];
            if B.Storming(c, row, vec) {
              assert baselines[key := row] == baselines;
            } else {
              baselines := baselines[key := B.BaselineRow(B.Ewma(c.baseAlpha, row.median, B.Median(vec)),
                                                          B.Ewma(c.baseAlpha, row.mad, B.Mad(vec)), row.n + 1, ts)];
            }
          }
        }
      }
      assert vectors[..|vectors|] == vectors;
    }

    /** Insert the key with the prior, or lift its floor to the prior. */
    method SeedKey(key: E.EdgeKey, ts: real)
      modifies `edgeMemory
      ensures edgeMemory == old(edgeMemory)[key := E.SeedRow(c, E.Lookup(old(edgeMemory), key), ts)]
    {
      if key !in edgeMemory {
        edgeMemory := edgeMemory[key := E.EdgeRow(c.prior, 0.0, 0, ["pvc"], 0, false, E.Steady, ts, ts, ts, c.prior)];
      } else if edgeMemory[key].base < c.prior {
        edgeMemory := edgeMemory[key := edgeMemory[key].(base := c.prior)];
      } else {
        assert edgeMemory[key := edgeMemory[key]] == edgeMemory;
      }
    }

    /** The two workloads of a pair in name order, none if the pair does not span exactly two. */
    method OrderedPair(pair: set<string>) returns (wls: Option<(string, string)>)
      ensures wls.None? <==> |E.Workloads(pair)| != 2
      ensures wls.Some? ==> E.Workloads(pair) == {wls.value.0, wls.value.1} && Less(wls.value.0, wls.value.1)
    {
      var names := E.Workloads(pair);
      if |names| != 2 {
        return None;
      }
      var x :| x in names;
      TwoWorkloads(names, x);
      var y :| y in names - {x} && names == {x, y};
      LessTrichotomy(x, y);
      wls := Some(if Less(x, y) then (x, y) else (y, x));
    }

    method SeedPair(pair: set<string>, present: set<string>, ts: real, ghost t0: E.Table, ghost done: set<set<string>>)
      requires edgeMemory == E.Seeded(c, t0, E.SeedKeys(c, SeedInput(done, present, ts)), ts)
      modifies `edgeMemory
      ensures edgeMemory == E.Seeded(c, t0, E.SeedKeys(c, SeedInput(done + {pair}, present, ts)), ts)
    {
      var wls := OrderedPair(pair);
      if wls.None? {
        SeedNothing(c, done, pair, present, ts);
        return;
      }
      var (a, b) := wls.value;
      SeedNext(c, done, pair, present, ts, a, b);
      if a in present && b in present {
        SeedOneMore(c, t0, E.SeedKeys(c, SeedInput(done, present, ts)), E.EdgeKey(a, b, c.signal), ts);
        SeedKey(E.EdgeKey(a, b, c.signal), ts);
      } else {
        assert E.SeedKeys(c, SeedInput(done + {pair}, present, ts)) == E.SeedKeys(c, SeedInput(done, present, ts));
      }
    }

    method SeedStructural(shared: set<set<string>>, present: set<string>, ts: real)
      modifies `edgeMemory
      ensures edgeMemory == E.Seeded(c, old(edgeMemory), E.SeedKeys(c, SeedInput(shared, present, ts)), ts)
    {
      ghost var t0 := edgeMemory;
      ghost var done: set<set<string>> := {};
      var todo := shared;
      assert E.SeedKeys(c, SeedInput({}, present, ts)) == {};
      while todo != {}
        invariant done + todo == shared
        invariant edgeMemory == E.Seeded(c, t0, E.SeedKeys(c, SeedInput(done, present, ts)), ts)
        decreases todo
      {
        var pair :| pair in todo;
        SeedPair(pair, present, ts, t0, done);
        done, todo := done + {pair}, todo - {pair};
      }
      assert done == shared;
    }

    method ConfirmEdge(edge: Edge, ts: real)
      modifies `edgeMemory
      ensures edgeMemory == old(edgeMemory)[E.KeyOf(c, edge) := E.ConfirmRow(c, E.Lookup(old(edgeMemory), E.KeyOf(c, edge)), edge, ts)]
    {
      var key := E.KeyOf(c, edge);
      var prevBase, conf, hits, firstSeen, visible := 0.0, c.alpha, 1, ts, c.alpha >= c.show;
      if key in edgeMemory {
        var row := edgeMemory[key];
        prevBase := row.base;
        conf := row.confidence + c.alpha * (1.0 - row.confidence);
        hits := row.hits + 1;
        firstSeen := row.firstSeen;
        visible := row.visible || conf >= c.show;
        assert conf == E.Raised(row.confidence, c.alpha);
      }
      var base := Max(prevBase, Product(c.floorFrac, conf));
      var state := if visible then E.Active else E.Confirming;
      edgeMemory := edgeMemory[key := E.EdgeRow(conf, edge.r, edge.lag, edge.evidence, hits, visible, state, firstSeen, ts, ts, base)];
    }

    method DecayAbsentEdges(i: E.EdgeInput)
      modifies `edgeMemory
      ensures edgeMemory == E.Decayed(c, old(edgeMemory), i)
    {
      ghost var t0 := edgeMemory;
      var seen := set e | e in i.live :: E.KeyOf(c, e);
      var rows := edgeMemory.Keys;
      while rows != {}
        invariant rows <= t0.Keys && edgeMemory.Keys == t0.Keys
        invariant forall k :: k in t0 ==>
                    edgeMemory[k] == if k !in rows && E.Decays(c, k, i) then E.DecayRow(c, t0[k], i.ts) else t0[k]
        decreases rows
      {
        var k :| k in rows;
        rows := rows - {k};
        assert k in seen <==> k.signal == c.signal && E.Live(c, k, i.live) by { SeenIsLive(i.live, k); }
        if k.signal == c.signal && k !in seen && k.src in i.present && k.dst in i.present {
          var row := edgeMemory[k];
          var conf := Max(row.base, Product(row.confidence, 1.0 - c.decay));
          var visible := row.visible && conf >= c.hide;
          var atFloor := conf <= row.base + E.FLOOR_SLACK && row.base > 0.0;
          var state := if atFloor then E.Steady else if visible then E.Decaying else E.Hidden;
          edgeMemory := edgeMemory[k := row.(confidence := conf, visible := visible, state := state, updated := i.ts)];
        }
      }
    }

    lemma SeenIsLive(live: seq<Edge>, k: E.EdgeKey)
      ensures k in (set e | e in live :: E.KeyOf(c, e)) <==> k.signal == c.signal && E.Live(c, k, live)
    {
    }

    /** The first case of greatest positive similarity. */
    method FindNearest(f: Fingerprint) returns (best: Option<nat>, bestSim: real)
      ensures (best, bestSim) == L.Nearest(cases, f, |cases|)
      ensures best.Some? ==> best.value < |cases|
    {
      best, bestSim := None, 0.0;
      for i := 0 to |cases|
        invariant (best, bestSim) == L.Nearest(cases, f, i)
        invariant best.Some? ==> best.value < i
      {
        var s := Sim(f, L.Print(cases[i].key));
        if s > bestSim {
          best, bestSim := Some(i), s;
        }
      }
    }

    method FoldInto(b: nat, inc: L.Incident, ts: real)
      requires b < |cases|
      modifies `cases
      ensures cases == old(cases)[b := L.Folded(old(cases)[b], inc, ts)]
    {
      var row := cases[b];
      var lead := inc.lead;
      if lead.Some? && row.lead.Some? {
        lead := Some((Product(row.lead.value, row.occurrences as real) + lead.value) / (row.occurrences + 1) as real);
      } else if lead.None? {
        lead := row.lead;
      }
      cases := cases[b := row.(occurrences := row.occurrences + 1, lastSeen := ts, lead := lead)];
    }

    method OpenCase(id: string, inc: L.Incident, family: string, ts: real)
      modifies `cases
      ensures cases == L.InsertOrIgnore(old(cases), L.Opened(id, inc, family, ts))
    {
      if !L.HasId(cases, id) {
        cases := cases + [L.CaseRow(id, inc.key, 1, ts, ts, inc.lead, Some(family))];
      }
    }

    method PromoteCase(graph: I.PassGraph, ts: real) returns (verdict: Option<L.Verdict>)
      modifies `cases, `log
      ensures var inc := I.IncidentOf(c, graph);
              if inc.Some?
              then L.Library(cases, log) == L.Promoted(c, h, L.Library(old(cases), old(log)), inc.value, ts)
                   && verdict == Some(L.VerdictOf(c, h, old(cases), inc.value))
              else cases == old(cases) && log == old(log) && verdict == None
    {
      var found := I.IncidentOf(c, graph);
      if found.None? {
        return None;
      }
      var inc := found.value;
      var best, bestSim := FindNearest(L.Print(inc.key));
      var caseId, family, register;
      if best.Some? && bestSim >= c.tauMerge {
        register, caseId, family := L.Recurrence, cases[best.value].id, L.FamilyOf(cases[best.value]);
        FoldInto(best.value, inc, ts);
      } else {
        caseId := h(inc.key);
        if best.Some? && bestSim >= c.tauFamily {
          register, family := L.Variant, L.FamilyOf(cases[best.value]);
        } else {
          register, family := L.Novel, caseId;
        }
        OpenCase(caseId, inc, family, ts);
      }
      log := log + [L.Observation(ts, caseId, inc)];
      verdict := Some(L.Verdict(caseId, family, register, bestSim));
    }

    method BaselineThreshold(workload: string) returns (threshold: Option<real>)
      ensures threshold == B.BaselineThreshold(c, baselines, workload)
    {
      var key := B.BaselineKey(workload, c.signal);
      if key !in baselines || baselines[key].n < c.baseMinN {
        return None;
      }
      threshold := Some(baselines[key].median + Product(c.devK, Max(baselines[key].mad, c.madFloor)));
    }

    /** Update every table from one pass, and render the edges: live ones, then the held backbone. */
    method Observe(p: PassInput) returns (verdict: Option<L.Verdict>, live: seq<R.Enriched>, held: seq<R.Held>)
      modifies this
      ensures State() == Step(c, h, old(State()), p)
      ensures var inc := I.IncidentOf(c, p.graph);
              verdict == if inc.Some? then Some(L.VerdictOf(c, h, old(cases), inc.value)) else None
      ensures |live| == |p.graph.edges| && forall i :: 0 <= i < |live| ==>
                live[i] == R.Enriched(p.graph.edges[i], E.Lookup(edgeMemory, E.KeyOf(c, p.graph.edges[i])))
      ensures R.IsBackbone(c, edgeMemory, p.graph.edges, p.vectors, held)
    {
      UpdateBaselines(p.vectors, p.ts);
      var present := Present(p.vectors);
      ghost var t0 := edgeMemory;
      if p.shared.Some? {
        SeedStructural(p.shared.value, present, p.ts);
        SameSeeds(p);
      } else {
        assert E.SeedKeys(c, EdgeInputOf(p)) == {};
        assert E.Seeded(c, t0, {}, p.ts) == t0;
      }
      ghost var seeded := edgeMemory;
      assert seeded == E.Seeded(c, t0, E.SeedKeys(c, EdgeInputOf(p)), p.ts);
      for i := 0 to |p.graph.edges|
        invariant edgeMemory == E.Confirmed(c, seeded, p.graph.edges[..i], p.ts)
        invariant baselines == B.Updated(c, old(baselines), p.vectors, p.ts) && cases == old(cases) && log == old(log)
      {
        assert p.graph.edges[..i + 1][..i] == p.graph.edges[..i];
        ConfirmEdge(p.graph.edges[i], p.ts);
      }
      assert p.graph.edges[..|p.graph.edges|] == p.graph.edges;
      DecayAbsentEdges(EdgeInputOf(p));
      verdict := PromoteCase(p.graph, p.ts);
      live := R.RenderLive(c, edgeMemory, p.graph.edges);
      held := R.RenderHeld(c, edgeMemory, p.graph.edges, p.vectors);
    }

    lemma SameSeeds(p: PassInput)
      requires p.shared.Some?
      ensures E.SeedKeys(c, SeedInput(p.shared.value, Present(p.vectors), p.ts)) == E.SeedKeys(c, EdgeInputOf(p))
    {
    }
  }
}
