/** The edge-forming, source-attribution and dedup parts of `run_pass`. */
module EdgeAssembly {
  import opened Basics
  import opened Digraph
  import opened Gate
  import opened Names
  import opened Sorting

  /** The stronger direction between two pods, as `best_directed` reports it. */
  datatype Directed = Directed(forward: bool, r: real, lag: int, profile: Profile)

  /**
   * One pass: the pods in sorted order, what is physically known, the anomalous pods, and the
   * correlations; `writers` are the pods with a write signal in sorted order, none if there is no such signal.
   */
  datatype Pass = Pass(pods: seq<string>, physical: Witness, active: set<string>, onset: map<string, real>,
                       directed: map<(string, string), Directed>,
                       writers: seq<string>, writeOnset: map<string, real>, activity: map<string, real>,
                       profiles: map<(string, string), Profile>)

  ghost predicate ValidPass(p: Pass) {
    && NoRepeats(p.pods) && NoRepeats(p.writers)
    && (forall i, j :: 0 <= i < j < |p.pods| ==> (p.pods[i], p.pods[j]) in p.directed)
    && (forall w, v :: w in p.writers && v in p.pods && v != w ==> (w, v) in p.profiles)
  }

  function Activity(p: Pass, pod: string): real { if pod in p.activity then p.activity[pod] else 0.0 }

  /** The correlation edge between two pods, in its stronger direction. */
  function PsiEdge(p: Pass, a: string, b: string): Option<Edge>
    requires (a, b) in p.directed
  {
    if !p.physical.Couples(a, b) || (a !in p.active && b !in p.active && p.active == {}) then None
    else
      var d := p.directed[(a, b)];
      var (src, dst) := if d.forward then (a, b) else (b, a);
      AcceptEdge(src, dst, d.r, d.lag, d.profile, p.physical, p.onset)
  }

  /** The source edge from writer w to staller v. */
  function SourceEdge(p: Pass, w: string, v: string): Option<Edge>
    requires v != w ==> (w, v) in p.profiles
  {
    if w !in p.writeOnset || v == w || !p.physical.CouplesSource(w, v) then None
    else if v !in p.active || Activity(p, w) <= Activity(p, v) then None
    else WriterEdge(w, v, p.profiles[(w, v)], p.physical, Onset(p.writeOnset, w), Onset(p.onset, v))
  }

  function Pair(e: Edge): set<string> { {e.src, e.dst} }

  /** Dedup preference: a source edge beats a correlation edge, then the larger |r| wins. */
  predicate Preferred(e: Edge, f: Edge) {
    (IsWrite(e) && !IsWrite(f)) || (IsWrite(e) == IsWrite(f) && Abs(e.r) > Abs(f.r))
  }

  // ---- Specification ----

  ghost predicate IsPsi(p: Pass, e: Edge)
    requires ValidPass(p)
  {
    exists i, j :: 0 <= i < j < |p.pods| && PsiEdge(p, p.pods[i], p.pods[j]) == Some(e)
  }

  ghost predicate IsSource(p: Pass, e: Edge)
    requires ValidPass(p)
  {
    exists w, v :: w in p.writers && v in p.pods && SourceEdge(p, w, v) == Some(e)
  }

  /** Some source edge joins the pair. */
  ghost predicate Attributed(p: Pass, pair: set<string>)
    requires ValidPass(p)
  {
    exists s :: IsSource(p, s) && Pair(s) == pair
  }

  /** Source edges, and correlation edges between pairs that no source edge joins; one edge per pair. */
  ghost predicate IsAssembly(p: Pass, edges: seq<Edge>)
    requires ValidPass(p)
  {
    && (forall e :: e in edges <==> IsSource(p, e) || (IsPsi(p, e) && !Attributed(p, Pair(e))))
    && (forall i, j :: 0 <= i < j < |edges| ==> Pair(edges[i]) != Pair(edges[j]))
  }

  lemma PsiShape(p: Pass, a: string, b: string, e: Edge)
    requires (a, b) in p.directed && PsiEdge(p, a, b) == Some(e)
    ensures Pair(e) == {a, b} && !IsWrite(e) && p.physical.Couples(a, b) && e.r >= R_PEAK
  {
  }

  /** A source edge points from a deviating writer into a finding that writes less, over a source coupling. */
  lemma SourceShape(p: Pass, w: string, v: string, e: Edge)
    requires v != w ==> (w, v) in p.profiles
    requires SourceEdge(p, w, v) == Some(e)
    ensures e.src == w && e.dst == v && w != v && Pair(e) == {w, v} && IsWrite(e) && e.r >= R_SRC
    ensures v in p.active && w in p.writeOnset && p.physical.CouplesSource(w, v)
    ensures Activity(p, w) > Activity(p, v)
    ensures v in p.onset ==> p.writeOnset[w] <= p.onset[v] + TEMPORAL_TOL
  {
  }

  /** A pair has at most one source edge, because write activity falls strictly along it. */
  lemma OneSourcePerPair(p: Pass, e: Edge, f: Edge)
    requires ValidPass(p) && IsSource(p, e) && IsSource(p, f) && Pair(e) == Pair(f)
    ensures e == f
  {
  }

  /** Each unordered pair of pods is visited once. */
  lemma SameVisit(pods: seq<string>, i: int, j: int, k: int, l: int)
    requires NoRepeats(pods) && 0 <= i < j < |pods| && 0 <= k < l < |pods| && {pods[i], pods[j]} == {pods[k], pods[l]}
    ensures i == k && j == l
  {
  }

  /** A pair has at most one correlation edge. */
  lemma OnePsiPerPair(p: Pass, e: Edge, f: Edge)
    requires ValidPass(p) && IsPsi(p, e) && IsPsi(p, f) && Pair(e) == Pair(f)
    ensures e == f
  {
    var i, j :| 0 <= i < j < |p.pods| && PsiEdge(p, p.pods[i], p.pods[j]) == Some(e);
    var k, l :| 0 <= k < l < |p.pods| && PsiEdge(p, p.pods[k], p.pods[l]) == Some(f);
    PsiShape(p, p.pods[i], p.pods[j], e);
    PsiShape(p, p.pods[k], p.pods[l], f);
    SameVisit(p.pods, i, j, k, l);
  }

  // ---- Forming the candidate edges ----

  /** The edges that a double loop forms, with the two indices each is formed at. */
  type Formed = (Edge, int, int) -> bool

  /** e is formed before the loops reach (m, n). */
  ghost predicate Before(at: Formed, e: Edge, m: int, n: int) {
    exists i, j :: at(e, i, j) && (i < m || (i == m && j < n))
  }

  /** e is formed before f. */
  ghost predicate Earlier(at: Formed, e: Edge, f: Edge) { exists i, j :: at(f, i, j) && Before(at, e, i, j) }

  ghost predicate InVisitOrder(at: Formed, edges: seq<Edge>) {
    forall m, n :: 0 <= m < n < |edges| ==> Earlier(at, edges[m], edges[n])
  }

  /** edges lists, in visiting order, what is formed before the loops reach (i, j). */
  ghost predicate SoFar(at: Formed, edges: seq<Edge>, i: int, j: int) {
    (forall e :: e in edges <==> Before(at, e, i, j)) && InVisitOrder(at, edges)
  }

  lemma BeforeNext(at: Formed, e: Edge, i: int, j: int)
    ensures Before(at, e, i, j + 1) <==> Before(at, e, i, j) || at(e, i, j)
  {
    if Before(at, e, i, j + 1) {
      var a, b :| at(e, a, b) && (a < i || (a == i && b < j + 1));
    }
    if Before(at, e, i, j) {
      var a, b :| at(e, a, b) && (a < i || (a == i && b < j));
      assert Before(at, e, i, j + 1);
    }
  }

  /** Adding what is formed at (i, j), if anything is. */
  lemma SoFarNext(at: Formed, edges: seq<Edge>, i: int, j: int, edge: Option<Edge>)
    requires SoFar(at, edges, i, j) && forall e :: at(e, i, j) <==> edge == Some(e)
    ensures SoFar(at, if edge.Some? then edges + [edge.value] else edges, i, j + 1)
  {
    forall e ensures Before(at, e, i, j + 1) <==> Before(at, e, i, j) || at(e, i, j) { BeforeNext(at, e, i, j); }
    if edge.Some? {
      forall m | 0 <= m < |edges| ensures Earlier(at, edges[m], edge.value) { assert edges[m] in edges && at(edge.value, i, j); }
    }
  }

  /** Row i ends before column n, and row i + 1 does not start before column m. */
  lemma RowDone(at: Formed, edges: seq<Edge>, i: int, n: int, m: int)
    requires SoFar(at, edges, i, n) && forall e, k, l :: at(e, k, l) ==> l < n && (k == i + 1 ==> m <= l)
    ensures SoFar(at, edges, i + 1, m)
  {
    forall e ensures Before(at, e, i, n) <==> Before(at, e, i + 1, m) {
    }
  }

  /** The correlation edge of the i-th and the j-th pod. */
  ghost predicate PsiAt(p: Pass, e: Edge, i: int, j: int) {
    && 0 <= i < j < |p.pods| && (p.pods[i], p.pods[j]) in p.directed
    && PsiEdge(p, p.pods[i], p.pods[j]) == Some(e)
  }

  ghost function PsiLoops(p: Pass): Formed { (e: Edge, i: int, j: int) => PsiAt(p, e, i, j) }

  lemma AllPsi(p: Pass, e: Edge)
    requires ValidPass(p)
    ensures Before(PsiLoops(p), e, |p.pods|, |p.pods| + 1) <==> IsPsi(p, e)
  {
    if IsPsi(p, e) {
      var i, j :| 0 <= i < j < |p.pods| && PsiEdge(p, p.pods[i], p.pods[j]) == Some(e);
      assert PsiLoops(p)(e, i, j);
    }
  }

  lemma EarlierDiffers(p: Pass, e: Edge, f: Edge)
    requires ValidPass(p) && Earlier(PsiLoops(p), e, f)
    ensures Pair(e) != Pair(f)
  {
    var k, l :| PsiLoops(p)(f, k, l) && Before(PsiLoops(p), e, k, l);
    var i, j :| PsiLoops(p)(e, i, j) && (i < k || (i == k && j < l));
    PsiShape(p, p.pods[i], p.pods[j], e);
    PsiShape(p, p.pods[k], p.pods[l], f);
    if Pair(e) == Pair(f) { SameVisit(p.pods, i, j, k, l); }
  }

  method PsiEdges(p: Pass) returns (edges: seq<Edge>)
    requires ValidPass(p)
    ensures forall e :: e in edges <==> IsPsi(p, e)
    ensures forall i, j :: 0 <= i < j < |edges| ==> Pair(edges[i]) != Pair(edges[j])
    ensures InVisitOrder(PsiLoops(p), edges)
  {
    edges := [];
    ghost var at := PsiLoops(p);
    for i := 0 to |p.pods|
      invariant SoFar(at, edges, i, i + 1)
    {
      for j := i + 1 to |p.pods|
        invariant SoFar(at, edges, i, j)
      {
        var edge := PsiEdge(p, p.pods[i], p.pods[j]);
        SoFarNext(at, edges, i, j, edge);
        if edge.Some? {
          edges := edges + [edge.value];
        }
      }
      RowDone(at, edges, i, |p.pods|, i + 2);
    }
    forall e ensures e in edges <==> IsPsi(p, e) { AllPsi(p, e); }
    forall m, n | 0 <= m < n < |edges| ensures Pair(edges[m]) != Pair(edges[n]) { EarlierDiffers(p, edges[m], edges[n]); }
  }

  /** The source edge from writer i to pod j. */
  ghost predicate SourceAt(p: Pass, e: Edge, i: int, j: int) {
    && 0 <= i < |p.writers| && 0 <= j < |p.pods|
    && (p.pods[j] != p.writers[i] ==> (p.writers[i], p.pods[j]) in p.profiles)
    && SourceEdge(p, p.writers[i], p.pods[j]) == Some(e)
  }

  ghost function SourceLoops(p: Pass): Formed { (e: Edge, i: int, j: int) => SourceAt(p, e, i, j) }

  lemma FormedIsSource(p: Pass, e: Edge)
    requires ValidPass(p) && Before(SourceLoops(p), e, |p.writers|, 0)
    ensures IsSource(p, e)
  {
    var i, j :| SourceLoops(p)(e, i, j) && (i < |p.writers| || (i == |p.writers| && j < 0));
    assert p.writers[i] in p.writers && p.pods[j] in p.pods;
  }

  lemma SourceIsFormed(p: Pass, e: Edge)
    requires ValidPass(p) && IsSource(p, e)
    ensures Before(SourceLoops(p), e, |p.writers|, 0)
  {
    var w, v :| w in p.writers && v in p.pods && SourceEdge(p, w, v) == Some(e);
    var i := IndexOf(p.writers, w);
    var j := IndexOf(p.pods, v);
    Meets(p, e, i, j);
  }

  lemma Meets(p: Pass, e: Edge, i: int, j: int)
    requires 0 <= i < |p.writers| && 0 <= j < |p.pods|
    requires p.pods[j] != p.writers[i] ==> (p.writers[i], p.pods[j]) in p.profiles
    requires SourceEdge(p, p.writers[i], p.pods[j]) == Some(e)
    ensures SourceLoops(p)(e, i, j)
  {
  }

  method SourceEdges(p: Pass) returns (edges: seq<Edge>)
    requires ValidPass(p)
    ensures forall e :: e in edges <==> IsSource(p, e)
    ensures InVisitOrder(SourceLoops(p), edges)
  {
    edges := [];
    ghost var at := SourceLoops(p);
    for i := 0 to |p.writers|
      invariant SoFar(at, edges, i, 0)
    {
      for j := 0 to |p.pods|
        invariant SoFar(at, edges, i, j)
      {
        var edge := SourceEdge(p, p.writers[i], p.pods[j]);
        SoFarNext(at, edges, i, j, edge);
        if edge.Some? {
          edges := edges + [edge.value];
        }
      }
      RowDone(at, edges, i, |p.pods|, 0);
    }
    forall e ensures e in edges <==> IsSource(p, e) {
      if e in edges { FormedIsSource(p, e); }
      if IsSource(p, e) { SourceIsFormed(p, e); }
    }
  }

  // ---- Dedup ----

  /** edges[k] is e, and e is preferred to every earlier edge of its pair. */
  ghost predicate BestAt(edges: seq<Edge>, e: Edge, k: nat) {
    k < |edges| && edges[k] == e && forall j :: 0 <= j < k && Pair(edges[j]) == Pair(e) ==> Preferred(e, edges[j])
  }

  /** chosen holds, for each pair among the edges, the first of those that no other is preferred to. */
  ghost predicate Best(edges: seq<Edge>, chosen: map<set<string>, Edge>) {
    && (forall pair :: pair in chosen ==> Pair(chosen[pair]) == pair && exists k: nat :: BestAt(edges, chosen[pair], k))
    && (forall j :: 0 <= j < |edges| ==> Pair(edges[j]) in chosen && !Preferred(edges[j], chosen[Pair(edges[j])]))
  }

  lemma BestNext(edges: seq<Edge>, chosen: map<set<string>, Edge>, e: Edge)
    requires Best(edges, chosen)
    ensures Best(edges + [e], if Pair(e) !in chosen || Preferred(e, chosen[Pair(e)]) then chosen[Pair(e) := e] else chosen)
  {
    var n, es := |edges|, edges + [e];
    var chosen' := if Pair(e) !in chosen || Preferred(e, chosen[Pair(e)]) then chosen[Pair(e) := e] else chosen;
    forall pair | pair in chosen' ensures Pair(chosen'[pair]) == pair && exists k: nat :: BestAt(es, chosen'[pair], k) {
      if pair in chosen && chosen'[pair] == chosen[pair] {
        var k: nat :| BestAt(edges, chosen[pair], k);
        assert BestAt(es, chosen[pair], k);
      } else {
        assert BestAt(es, e, n);
      }
    }
  }

  method Dedup(edges: seq<Edge>) returns (chosen: map<set<string>, Edge>)
    ensures Best(edges, chosen)
  {
    chosen := map[];
    for i := 0 to |edges|
      invariant Best(edges[..i], chosen)
    {
      var e := edges[i];
      var pair := Pair(e);
      BestNext(edges[..i], chosen, e);
      TakeNext(edges, i);
      if pair !in chosen || Preferred(e, chosen[pair]) {
        chosen := chosen[pair := e];
      }
    }
    TakeAll(edges);
  }

  predicate ByEndpoints(e: Edge, f: Edge) {
    Less(e.src, f.src) || (e.src == f.src && LessEq(e.dst, f.dst))
  }

  lemma ByEndpointsIsPreorder()
    ensures TotalPreorder(ByEndpoints)
  {
    forall a, b, c ensures (ByEndpoints(a, b) || ByEndpoints(b, a)) && (ByEndpoints(a, b) && ByEndpoints(b, c) ==> ByEndpoints(a, c)) {
      LessTrichotomy(a.src, b.src);
      LessTrichotomy(b.src, c.src);
      LessEqOrder(a.dst, b.dst, c.dst);
      if Less(a.src, b.src) && Less(b.src, c.src) { LessTransitive(a.src, b.src, c.src); }
    }
  }

  method Values(chosen: map<set<string>, Edge>) returns (edges: seq<Edge>)
    requires forall pair :: pair in chosen ==> Pair(chosen[pair]) == pair
    ensures forall e :: e in edges <==> Pair(e) in chosen && chosen[Pair(e)] == e
    ensures DistinctBy(edges, Pair)
  {
    edges := [];
    var todo := chosen.Keys;
    while todo != {}
      invariant todo <= chosen.Keys
      invariant forall e :: e in edges <==> Pair(e) in chosen && Pair(e) !in todo && chosen[Pair(e)] == e
      invariant DistinctBy(edges, Pair)
      decreases todo
    {
      var pair :| pair in todo;
      forall k | 0 <= k < |edges| ensures Pair(edges[k]) != pair { assert edges[k] in edges; }
      assert forall e :: e in edges + [chosen[pair]] <==> e in edges || e == chosen[pair];
      edges, todo := edges + [chosen[pair]], todo - {pair};
    }
  }

  /** In a pair, the source edge is chosen if there is one, and the correlation edge otherwise. */
  lemma BestIsAssembled(p: Pass, edges: seq<Edge>, chosen: map<set<string>, Edge>, e: Edge)
    requires ValidPass(p) && Best(edges, chosen)
    requires forall f :: f in edges <==> IsPsi(p, f) || IsSource(p, f)
    ensures (Pair(e) in chosen && chosen[Pair(e)] == e) <==> (IsSource(p, e) || (IsPsi(p, e) && !Attributed(p, Pair(e))))
  {
    var pair := Pair(e);
    if pair in chosen {
      var c := chosen[pair];
      assert c in edges;
      Marked(p, c);
      if Attributed(p, pair) {
        var s :| IsSource(p, s) && Pair(s) == pair;
        assert s in edges && !Preferred(s, c);
        Marked(p, s);
        OneSourcePerPair(p, s, c);
        if IsSource(p, e) { OneSourcePerPair(p, e, c); }
      } else {
        assert !IsSource(p, e) && !IsSource(p, c);
        if IsPsi(p, e) { OnePsiPerPair(p, e, c); }
      }
    } else {
      assert e !in edges;
    }
  }

  /** Source edges are write-marked, correlation edges are not. */
  lemma Marked(p: Pass, e: Edge)
    requires ValidPass(p) && (IsPsi(p, e) || IsSource(p, e))
    ensures IsWrite(e) <==> IsSource(p, e)
    ensures IsWrite(e) <==> !IsPsi(p, e)
  {
    if IsPsi(p, e) {
      var i, j :| 0 <= i < j < |p.pods| && PsiEdge(p, p.pods[i], p.pods[j]) == Some(e);
      PsiShape(p, p.pods[i], p.pods[j], e);
    }
    if IsSource(p, e) {
      var w, v :| w in p.writers && v in p.pods && SourceEdge(p, w, v) == Some(e);
      SourceShape(p, w, v, e);
    }
  }

  method FormEdges(p: Pass) returns (edges: seq<Edge>)
    requires ValidPass(p)
    ensures IsAssembly(p, edges)
    ensures if p.writers == [] then InVisitOrder(PsiLoops(p), edges) else SortedBy(edges, ByEndpoints)
  {
    edges := PsiEdges(p);
    if p.writers == [] {
      return;
    }
    var sources := SourceEdges(p);
    var all := edges + sources;
    var chosen := Dedup(all);
    var kept := Values(chosen);
    forall e ensures e in kept <==> IsSource(p, e) || (IsPsi(p, e) && !Attributed(p, Pair(e))) {
      BestIsAssembled(p, all, chosen, e);
    }
    ByEndpointsIsPreorder();
    SortBySorts(kept, ByEndpoints);
    SortByMembers(kept, ByEndpoints);
    edges := SortBy(kept, ByEndpoints);
    DistinctPermuted(kept, edges, Pair);
  }

  // ---- Consequences ----

  /**
   * Once anything is anomalous, the i-th and the j-th pod are joined when they are coupled and their stronger
   * direction is strong, supported and timely.
   */
  ghost predicate Correlates(p: Pass, i: int, j: int)
    requires ValidPass(p) && 0 <= i < j < |p.pods|
  {
    var a, b := p.pods[i], p.pods[j];
    var d := p.directed[(a, b)];
    && p.active != {}
    && ((a, b) in p.physical.ebpf || (b, a) in p.physical.ebpf || {a, b} in p.physical.shared)
    && d.r >= 0.6 && Supported(d.profile, d.lag)
    && (if d.forward then Timely(p.onset, a, b, d.lag) else Timely(p.onset, b, a, d.lag))
  }

  /** e leads in the stronger direction between the i-th and the j-th pod, with its correlation and lag. */
  ghost predicate ReadsPair(p: Pass, e: Edge, i: int, j: int)
    requires ValidPass(p) && 0 <= i < j < |p.pods|
  {
    var a, b := p.pods[i], p.pods[j];
    var d := p.directed[(a, b)];
    && e.src == (if d.forward then a else b) && e.dst == (if d.forward then b else a)
    && e.r == d.r && e.lag == d.lag && ListsPsi(e.evidence, p.physical, p.onset, e.src, e.dst)
  }

  lemma PsiEdgeMeans(p: Pass, i: int, j: int)
    requires ValidPass(p) && 0 <= i < j < |p.pods|
    ensures var e := PsiEdge(p, p.pods[i], p.pods[j]);
            (e.Some? <==> Correlates(p, i, j)) && (e.Some? ==> ReadsPair(p, e.value, i, j))
  {
    var a, b := p.pods[i], p.pods[j];
    var d := p.directed[(a, b)];
    p.physical.CouplingMeans(a, b);
    if d.forward {
      AcceptedEdge(a, b, d.r, d.lag, d.profile, p.physical, p.onset);
    } else {
      assert {b, a} == {a, b};
      AcceptedEdge(b, a, d.r, d.lag, d.profile, p.physical, p.onset);
    }
    if a in p.active || b in p.active { assert p.active != {}; }
  }

  /** Every unmarked edge of the output is the stronger direction of an admissible pair of pods. */
  lemma UnmarkedEdge(p: Pass, edges: seq<Edge>, e: Edge) returns (i: int, j: int)
    requires ValidPass(p) && IsAssembly(p, edges) && e in edges && !IsWrite(e)
    ensures 0 <= i < j < |p.pods| && Correlates(p, i, j) && ReadsPair(p, e, i, j)
  {
    UnmarkedIsPsi(p, edges, e);
    i, j :| 0 <= i < j < |p.pods| && PsiEdge(p, p.pods[i], p.pods[j]) == Some(e);
    PsiEdgeMeans(p, i, j);
  }

  lemma UnmarkedIsPsi(p: Pass, edges: seq<Edge>, e: Edge)
    requires ValidPass(p) && IsAssembly(p, edges) && e in edges && !IsWrite(e)
    ensures IsPsi(p, e)
  {
    assert IsSource(p, e) || IsPsi(p, e);
    Marked(p, e);
  }

  /** An edge of the output joins the pair, and is a source edge or not, as asked. */
  ghost predicate Joined(edges: seq<Edge>, pair: set<string>, source: bool) {
    exists e :: e in edges && Pair(e) == pair && IsWrite(e) == source
  }

  /** Conversely, an admissible pair is joined by a correlation edge exactly when no source edge joins it. */
  lemma UnmarkedIff(p: Pass, edges: seq<Edge>, i: int, j: int)
    requires ValidPass(p) && IsAssembly(p, edges) && 0 <= i < j < |p.pods|
    ensures var pair := {p.pods[i], p.pods[j]};
            Joined(edges, pair, false) <==> Correlates(p, i, j) && !Joined(edges, pair, true)
  {
    var pair := {p.pods[i], p.pods[j]};
    PsiEdgeMeans(p, i, j);
    if Joined(edges, pair, false) { JoinedIsOnly(p, edges, i, j); }
    if Correlates(p, i, j) && !Joined(edges, pair, true) {
      var e := PsiEdge(p, p.pods[i], p.pods[j]).value;
      CorrelatedIsKept(p, edges, i, j, e);
    }
  }

  lemma JoinedIsOnly(p: Pass, edges: seq<Edge>, i: int, j: int)
    requires ValidPass(p) && IsAssembly(p, edges) && 0 <= i < j < |p.pods|
    requires Joined(edges, {p.pods[i], p.pods[j]}, false)
    ensures PsiEdge(p, p.pods[i], p.pods[j]).Some? && !Joined(edges, {p.pods[i], p.pods[j]}, true)
  {
    var pair := {p.pods[i], p.pods[j]};
    var e :| e in edges && Pair(e) == pair && IsWrite(e) == false;
    var k, l := UnmarkedEdge(p, edges, e);
    assert Pair(e) == {p.pods[k], p.pods[l]};
    SameVisit(p.pods, i, j, k, l);
    PsiEdgeMeans(p, i, j);
    JoinedOnce(edges, pair);
  }

  lemma JoinedOnce(edges: seq<Edge>, pair: set<string>)
    requires DistinctBy(edges, Pair)
    ensures !(Joined(edges, pair, false) && Joined(edges, pair, true))
  {
    if Joined(edges, pair, false) && Joined(edges, pair, true) {
      var e :| e in edges && Pair(e) == pair && IsWrite(e) == false;
      var f :| f in edges && Pair(f) == pair && IsWrite(f) == true;
      OnlyEdgeOfPair(edges, e, f);
    }
  }

  lemma AttributedIsJoined(p: Pass, edges: seq<Edge>, pair: set<string>)
    requires ValidPass(p) && IsAssembly(p, edges) && Attributed(p, pair)
    ensures Joined(edges, pair, true)
  {
    var s :| IsSource(p, s) && Pair(s) == pair;
    Marked(p, s);
    assert s in edges;
  }

  lemma OnlyEdgeOfPair(edges: seq<Edge>, e: Edge, f: Edge)
    requires DistinctBy(edges, Pair) && e in edges && f in edges && Pair(e) == Pair(f)
    ensures e == f
  {
    var i := IndexOf(edges, e);
    var j := IndexOf(edges, f);
  }

  lemma CorrelatedIsKept(p: Pass, edges: seq<Edge>, i: int, j: int, e: Edge)
    requires ValidPass(p) && IsAssembly(p, edges) && 0 <= i < j < |p.pods|
    requires PsiEdge(p, p.pods[i], p.pods[j]) == Some(e) && !Joined(edges, {p.pods[i], p.pods[j]}, true)
    ensures Joined(edges, {p.pods[i], p.pods[j]}, false)
  {
    PsiShape(p, p.pods[i], p.pods[j], e);
    assert IsPsi(p, e);
    if Attributed(p, Pair(e)) { AttributedIsJoined(p, edges, Pair(e)); }
    assert e in edges;
  }

  /** The most a pod wrote in the window, 0 when it has no write signal. */
  ghost predicate OutWrites(p: Pass, w: string, v: string) {
    if w in p.activity then (if v in p.activity then p.activity[w] > p.activity[v] else p.activity[w] > 0.0)
    else v in p.activity && 0.0 > p.activity[v]
  }

  /** The first of the greatest correlations of w's writes with v's stall is pk; it is strong enough and supported. */
  ghost predicate Drives(p: Pass, w: string, v: string, pk: LagPoint) {
    && (w, v) in p.profiles && IsPeak(p.profiles[(w, v)], pk)
    && pk.r >= 0.5 && Supported(p.profiles[(w, v)], pk.lag)
  }

  /** Writer w, which deviated, is the source of the anomaly of v. */
  ghost predicate Sources(p: Pass, w: string, v: string, pk: LagPoint) {
    && w != v && w in p.writers && w in p.writeOnset && v in p.pods && v in p.active && OutWrites(p, w, v)
    && ((w, v) in p.physical.ebpf || (v, w) in p.physical.ebpf || {w, v} in p.physical.shared || {w, v} in p.physical.sameNode)
    && Drives(p, w, v, pk)
    && (v in p.onset ==> p.writeOnset[w] - p.onset[v] <= 10.0)
  }

  ghost predicate ReadsSource(p: Pass, e: Edge, w: string, v: string, pk: LagPoint) {
    && e.src == w && e.dst == v && e.r == pk.r && e.lag == pk.lag
    && ListsSource(e.evidence, p.physical, w, v, w in p.writeOnset && v in p.onset)
  }

  lemma OutWritesMeans(p: Pass, w: string, v: string)
    ensures OutWrites(p, w, v) <==> Activity(p, w) > Activity(p, v)
  {
  }

  lemma SourceEdgeMeans(p: Pass, w: string, v: string, e: Edge)
    requires w in p.writers && v in p.pods && (v != w ==> (w, v) in p.profiles)
    ensures SourceEdge(p, w, v) == Some(e) ==>
              Sources(p, w, v, LagPoint(e.lag, e.r)) && ReadsSource(p, e, w, v, LagPoint(e.lag, e.r))
    ensures forall pk :: Sources(p, w, v, pk) ==> SourceEdge(p, w, v).Some?
  {
    p.physical.CouplingMeans(w, v);
    OutWritesMeans(p, w, v);
    if v != w {
      var profile := p.profiles[(w, v)];
      SourceEdgeShape(w, v, profile, p.physical, Onset(p.writeOnset, w), Onset(p.onset, v));
      forall pk | Sources(p, w, v, pk) ensures SourceEdge(p, w, v).Some? {
        assert profile != [];
        PeakUnique(profile, pk, Peak(profile));
      }
    }
  }

  /** The output has a source edge from w to v exactly when w sources v's anomaly, and the edge reads off how. */
  lemma MarkedIff(p: Pass, edges: seq<Edge>, w: string, v: string)
    requires ValidPass(p) && IsAssembly(p, edges)
    ensures (exists e :: e in edges && IsWrite(e) && e.src == w && e.dst == v) <==> (exists pk :: Sources(p, w, v, pk))
    ensures forall e :: e in edges && IsWrite(e) && e.src == w && e.dst == v ==>
              Sources(p, w, v, LagPoint(e.lag, e.r)) && ReadsSource(p, e, w, v, LagPoint(e.lag, e.r))
  {
    forall e | e in edges && IsWrite(e) && e.src == w && e.dst == v
      ensures Sources(p, w, v, LagPoint(e.lag, e.r)) && ReadsSource(p, e, w, v, LagPoint(e.lag, e.r))
    {
      MarkedReads(p, edges, e);
    }
    if pk :| Sources(p, w, v, pk) { SourceIsKept(p, edges, w, v, pk); }
  }

  lemma MarkedReads(p: Pass, edges: seq<Edge>, e: Edge)
    requires ValidPass(p) && IsAssembly(p, edges) && e in edges && IsWrite(e)
    ensures var pk := LagPoint(e.lag, e.r); Sources(p, e.src, e.dst, pk) && ReadsSource(p, e, e.src, e.dst, pk)
  {
    Marked(p, e);
    var w, v :| w in p.writers && v in p.pods && SourceEdge(p, w, v) == Some(e);
    SourceEdgeMeans(p, w, v, e);
  }

  lemma SourceIsKept(p: Pass, edges: seq<Edge>, w: string, v: string, pk: LagPoint)
    requires ValidPass(p) && IsAssembly(p, edges) && Sources(p, w, v, pk)
    ensures exists e :: e in edges && IsWrite(e) && e.src == w && e.dst == v
  {
    SourceEdgeMeans(p, w, v, Edge(w, v, 0.0, 0, []));
    var e := SourceEdge(p, w, v).value;
    SourceShape(p, w, v, e);
    assert IsSource(p, e);
  }

  /** Sorted output goes by the name of the source, then by the name of the target. */
  lemma EndpointOrder(edges: seq<Edge>, i: nat, j: nat)
    requires SortedBy(edges, ByEndpoints) && DistinctBy(edges, Pair) && i < j < |edges|
    ensures Less(edges[i].src, edges[j].src) || (edges[i].src == edges[j].src && Less(edges[i].dst, edges[j].dst))
  {
    assert ByEndpoints(edges[i], edges[j]);
    LessTrichotomy(edges[i].dst, edges[j].dst);
    assert Pair(edges[i]) != Pair(edges[j]);
  }

  /** An accepted source edge is kept, and displaces every correlation edge of its pair. */
  lemma SourceKeepsPair(p: Pass, edges: seq<Edge>, s: Edge, e: Edge)
    requires ValidPass(p) && IsAssembly(p, edges) && IsSource(p, s)
    ensures s in edges
    ensures e in edges && Pair(e) == Pair(s) ==> e == s
  {
  }

  /** A source edge of the output leads from a to b. */
  ghost predicate SourceLink(edges: seq<Edge>, a: string, b: string) {
    exists e :: e in edges && IsWrite(e) && e.src == a && e.dst == b
  }

  ghost predicate SourcePath(edges: seq<Edge>, path: seq<string>) {
    |path| >= 1 && forall i :: 0 <= i < |path| - 1 ==> SourceLink(edges, path[i], path[i + 1])
  }

  lemma SourceLinkFalls(p: Pass, edges: seq<Edge>, a: string, b: string)
    requires ValidPass(p) && IsAssembly(p, edges) && SourceLink(edges, a, b)
    ensures Activity(p, a) > Activity(p, b)
  {
    var e :| e in edges && IsWrite(e) && e.src == a && e.dst == b;
    Marked(p, e);
    var w, v :| w in p.writers && v in p.pods && SourceEdge(p, w, v) == Some(e);
    SourceShape(p, w, v, e);
  }

  lemma SourcePathFront(edges: seq<Edge>, path: seq<string>)
    requires SourcePath(edges, path) && |path| >= 2
    ensures SourcePath(edges, path[..|path| - 1]) && SourceLink(edges, path[|path| - 2], path[|path| - 1])
  {
    var front := path[..|path| - 1];
    forall i | 0 <= i < |front| - 1 ensures SourceLink(edges, front[i], front[i + 1]) {
      assert SourceLink(edges, path[i], path[i + 1]);
    }
  }

  /** Write activity falls strictly along every path of source edges, so source edges form no cycle. */
  lemma {:induction false} SourceEdgesAcyclic(p: Pass, edges: seq<Edge>, path: seq<string>)
    requires ValidPass(p) && IsAssembly(p, edges) && SourcePath(edges, path) && |path| >= 2
    ensures Activity(p, path[0]) > Activity(p, path[|path| - 1])
    ensures path[0] != path[|path| - 1]
    decreases |path|
  {
    var n := |path|;
    SourcePathFront(edges, path);
    SourceLinkFalls(p, edges, path[n - 2], path[n - 1]);
    if n > 2 { SourceEdgesAcyclic(p, edges, path[..n - 1]); }
  }

  /** With only same-node residence known, every edge is a source edge into a finding. */
  lemma SameNodeOnly(p: Pass, edges: seq<Edge>, e: Edge)
    requires ValidPass(p) && IsAssembly(p, edges) && e in edges
    requires p.physical.ebpf == {} && p.physical.shared == {}
    ensures IsSource(p, e) && IsWrite(e) && e.dst in p.active && {e.src, e.dst} in p.physical.sameNode
  {
  }
}
