/** The edges `_render` shows: live ones enriched from memory, and the held backbone. */
module Render {
  import opened Basics
  import opened Config
  import opened Digraph
  import opened Names
  import opened EdgeMemory
  import opened Baselines

  /** A live edge with its row, if any. */
  datatype Enriched = Enriched(edge: Edge, row: Option<EdgeRow>)

  /** An edge shown from memory between the pods that run now. */
  datatype Held = Held(edge: Edge, row: EdgeRow)

  ghost predicate RunsNowhere(vectors: seq<Window>, workload: string) {
    forall i :: 0 <= i < |vectors| ==> StableWorkload(vectors[i].0) != workload
  }

  lemma RunsNowhereNext(vectors: seq<Window>, workload: string)
    requires vectors != [] && StableWorkload(vectors[|vectors| - 1].0) != workload
    ensures RunsNowhere(vectors, workload) <==> RunsNowhere(vectors[..|vectors| - 1], workload)
  {
    var n := |vectors| - 1;
    if RunsNowhere(vectors[..n], workload) {
      forall i | 0 <= i < |vectors| ensures StableWorkload(vectors[i].0) != workload {
        if i < n { assert vectors[..n][i] == vectors[i]; }
      }
    } else {
      var i :| 0 <= i < n && StableWorkload(vectors[..n][i].0) == workload;
      assert vectors[i] == vectors[..n][i];
    }
  }

  /** The pod that runs a workload now, the last one listed if several do. */
  function CurrentPod(vectors: seq<Window>, workload: string): (pod: Option<string>)
    ensures pod.None? <==> RunsNowhere(vectors, workload)
    ensures pod.Some? ==> StableWorkload(pod.value) == workload
  {
    if vectors == [] then None
    else
      var n := |vectors| - 1;
      if StableWorkload(vectors[n].0) == workload then Some(vectors[n].0)
      else
        RunsNowhereNext(vectors, workload);
        CurrentPod(vectors[..n], workload)
  }

  predicate Eligible(c: MemoryConfig, t: EdgeMemory.Table, k: EdgeKey) {
    k in t && k.signal == c.signal && (t[k].visible || t[k].base > 0.0)
  }

  function Ends(k: EdgeKey): set<string> { {k.src, k.dst} }

  function LivePair(e: Edge): set<string> { {StableWorkload(e.src), StableWorkload(e.dst)} }

  function LivePairs(live: seq<Edge>): set<set<string>> { set e | e in live :: LivePair(e) }

  /** Both workloads run now. */
  predicate Running(vectors: seq<Window>, k: EdgeKey) {
    CurrentPod(vectors, k.src).Some? && CurrentPod(vectors, k.dst).Some?
  }

  function HeldOf(t: EdgeMemory.Table, vectors: seq<Window>, k: EdgeKey): Held
    requires k in t && Running(vectors, k)
  {
    Held(Edge(CurrentPod(vectors, k.src).value, CurrentPod(vectors, k.dst).value, t[k].r, t[k].lag, t[k].evidence), t[k])
  }

  /** k is eligible, not shown live, and no row of its pair is more confident. */
  ghost predicate Strongest(c: MemoryConfig, t: EdgeMemory.Table, live: seq<Edge>, k: EdgeKey) {
    && Eligible(c, t, k) && Ends(k) !in LivePairs(live)
    && forall m :: Eligible(c, t, m) && Ends(m) == Ends(k) ==> t[m].confidence <= t[k].confidence
  }

  ghost predicate ShownFor(c: MemoryConfig, t: EdgeMemory.Table, live: seq<Edge>, vectors: seq<Window>, h: Held, k: EdgeKey) {
    Strongest(c, t, live, k) && Running(vectors, k) && h == HeldOf(t, vectors, k)
  }

  /** The unordered pair of workloads the held edge joins. */
  function HeldPair(h: Held): set<string> { LivePair(h.edge) }

  /**
   * One held edge for each unordered pair that has an eligible row, is not live and runs now:
   * the pair's most confident row, between the current pods.
   */
  ghost predicate IsBackbone(c: MemoryConfig, t: EdgeMemory.Table, live: seq<Edge>, vectors: seq<Window>, held: seq<Held>) {
    && (forall h :: h in held ==> exists k :: ShownFor(c, t, live, vectors, h, k))
    && (forall i, j :: 0 <= i < j < |held| ==> HeldPair(held[i]) != HeldPair(held[j]))
    && (forall k :: Eligible(c, t, k) && Ends(k) !in LivePairs(live) && Running(vectors, k) ==>
          Shown(held, Ends(k)))
  }

  // ---- by_pair ----

  /** byPair names, for each pair among the scanned rows that is eligible and not live, a most confident row. */
  ghost predicate BestPerPair(c: MemoryConfig, t: EdgeMemory.Table, live: seq<Edge>, scanned: set<EdgeKey>, byPair: map<set<string>, EdgeKey>) {
    && (forall p :: p in byPair ==> byPair[p] in scanned && Eligible(c, t, byPair[p]) && Ends(byPair[p]) == p && p !in LivePairs(live))
    && (forall k :: k in scanned && Eligible(c, t, k) && Ends(k) !in LivePairs(live) ==>
          Ends(k) in byPair && t[k].confidence <= t[byPair[Ends(k)]].confidence)
  }

  method GroupByPair(c: MemoryConfig, t: EdgeMemory.Table, live: seq<Edge>) returns (byPair: map<set<string>, EdgeKey>)
    ensures BestPerPair(c, t, live, t.Keys, byPair)
  {
    byPair := map[];
    var livePairs := LivePairs(live);
    var todo := t.Keys;
    while todo != {}
      invariant todo <= t.Keys && BestPerPair(c, t, live, t.Keys - todo, byPair)
      decreases todo
    {
      var k :| k in todo;
      todo := todo - {k};
      assert t.Keys - todo == (t.Keys - (todo + {k})) + {k};
      if Eligible(c, t, k) && Ends(k) !in livePairs {
        if Ends(k) !in byPair || t[k].confidence > t[byPair[Ends(k)]].confidence {
          byPair := byPair[Ends(k) := k];
        }
      }
    }
  }

  lemma HeldJoinsPair(t: EdgeMemory.Table, vectors: seq<Window>, k: EdgeKey)
    requires k in t && Running(vectors, k)
    ensures HeldPair(HeldOf(t, vectors, k)) == Ends(k)
  {
  }

  /** Some held edge joins the pair. */
  ghost predicate Shown(held: seq<Held>, p: set<string>) { exists h :: h in held && HeldPair(h) == p }

  lemma ShownAppended(held: seq<Held>, h: Held, p: set<string>)
    ensures Shown(held + [h], p) <==> Shown(held, p) || HeldPair(h) == p
  {
  }

  /** The held edges of the pairs already visited. */
  ghost predicate HeldFor(c: MemoryConfig, t: EdgeMemory.Table, live: seq<Edge>, vectors: seq<Window>,
                          byPair: map<set<string>, EdgeKey>, todo: set<set<string>>, held: seq<Held>) {
    && (forall h :: h in held ==> HeldPair(h) in byPair && HeldPair(h) !in todo)
    && (forall h :: h in held ==> exists k :: ShownFor(c, t, live, vectors, h, k))
    && (forall i, j :: 0 <= i < j < |held| ==> HeldPair(held[i]) != HeldPair(held[j]))
    && (forall p :: p in byPair && p !in todo && Running(vectors, byPair[p]) ==> Shown(held, p))
  }

  lemma HoldNext(c: MemoryConfig, t: EdgeMemory.Table, live: seq<Edge>, vectors: seq<Window>,
                 byPair: map<set<string>, EdgeKey>, todo: set<set<string>>, held: seq<Held>, p: set<string>)
    requires BestPerPair(c, t, live, t.Keys, byPair) && HeldFor(c, t, live, vectors, byPair, todo, held)
    requires p in todo && p in byPair && Running(vectors, byPair[p])
    ensures HeldFor(c, t, live, vectors, byPair, todo - {p}, held + [HeldOf(t, vectors, byPair[p])])
  {
    var h := HeldOf(t, vectors, byPair[p]);
    HeldJoinsPair(t, vectors, byPair[p]);
    assert ShownFor(c, t, live, vectors, h, byPair[p]);
    forall i | 0 <= i < |held| ensures HeldPair(held[i]) != p { assert held[i] in held; }
    forall q | q in byPair && q !in todo - {p} && Running(vectors, byPair[q]) ensures Shown(held + [h], q) {
      ShownAppended(held, h, q);
    }
  }

  lemma SkipNext(c: MemoryConfig, t: EdgeMemory.Table, live: seq<Edge>, vectors: seq<Window>,
                 byPair: map<set<string>, EdgeKey>, todo: set<set<string>>, held: seq<Held>, p: set<string>)
    requires HeldFor(c, t, live, vectors, byPair, todo, held)
    requires p in todo && p in byPair && !Running(vectors, byPair[p])
    ensures HeldFor(c, t, live, vectors, byPair, todo - {p}, held)
  {
  }

  /** Whether a pair runs now does not depend on which of its two rows is asked. */
  lemma RunningByPair(vectors: seq<Window>, k: EdgeKey, m: EdgeKey)
    requires Ends(k) == Ends(m)
    ensures Running(vectors, k) <==> Running(vectors, m)
  {
  }

  method RenderHeld(c: MemoryConfig, t: EdgeMemory.Table, live: seq<Edge>, vectors: seq<Window>) returns (held: seq<Held>)
    ensures IsBackbone(c, t, live, vectors, held)
  {
    var byPair := GroupByPair(c, t, live);
    held := [];
    var todo := byPair.Keys;
    while todo != {}
      invariant todo <= byPair.Keys && HeldFor(c, t, live, vectors, byPair, todo, held)
      decreases todo
    {
      var p :| p in todo;
      var k := byPair[p];
      if Running(vectors, k) {
        HoldNext(c, t, live, vectors, byPair, todo, held, p);
        held := held + [HeldOf(t, vectors, k)];
      } else {
        SkipNext(c, t, live, vectors, byPair, todo, held, p);
      }
      todo := todo - {p};
    }
    forall k | Eligible(c, t, k) && Ends(k) !in LivePairs(live) && Running(vectors, k)
      ensures Shown(held, Ends(k))
    {
      RunningByPair(vectors, k, byPair[Ends(k)]);
    }
  }

  method RenderLive(c: MemoryConfig, t: EdgeMemory.Table, live: seq<Edge>) returns (shown: seq<Enriched>)
    ensures |shown| == |live|
    ensures forall i :: 0 <= i < |live| ==> shown[i] == Enriched(live[i], EdgeMemory.Lookup(t, EdgeMemory.KeyOf(c, live[i])))
  {
    shown := [];
    for i := 0 to |live|
      invariant |shown| == i
      invariant forall j :: 0 <= j < i ==> shown[j] == Enriched(live[j], EdgeMemory.Lookup(t, EdgeMemory.KeyOf(c, live[j])))
    {
      shown := shown + [Enriched(live[i], EdgeMemory.Lookup(t, EdgeMemory.KeyOf(c, live[i])))];
    }
  }

  /** pod is the last of those listed that run the workload. */
  ghost predicate IsCurrent(vectors: seq<Window>, workload: string, pod: string) {
    exists i :: LastAt(vectors, workload, i) && vectors[i].0 == pod
  }

  ghost predicate LastAt(vectors: seq<Window>, workload: string, i: int) {
    0 <= i < |vectors| && StableWorkload(vectors[i].0) == workload
    && forall j :: i < j < |vectors| ==> StableWorkload(vectors[j].0) != workload
  }

  lemma {:induction false} CurrentAt(vectors: seq<Window>, workload: string) returns (i: int)
    requires CurrentPod(vectors, workload).Some?
    ensures LastAt(vectors, workload, i) && Some(vectors[i].0) == CurrentPod(vectors, workload)
  {
    var n := |vectors| - 1;
    if StableWorkload(vectors[n].0) == workload {
      i := n;
    } else {
      i := CurrentAt(vectors[..n], workload);
      LastAtExtends(vectors, workload, i);
    }
  }

  lemma LastAtExtends(vectors: seq<Window>, workload: string, i: int)
    requires vectors != [] && LastAt(vectors[..|vectors| - 1], workload, i)
    requires StableWorkload(vectors[|vectors| - 1].0) != workload
    ensures LastAt(vectors, workload, i) && vectors[i] == vectors[..|vectors| - 1][i]
  {
    var n := |vectors| - 1;
    var front := vectors[..n];
    assert vectors[i] == front[i];
    forall j | i < j < |vectors| ensures StableWorkload(vectors[j].0) != workload {
      if j < n { assert front[j] == vectors[j]; }
    }
  }

  lemma CurrentPodIsLast(vectors: seq<Window>, workload: string, pod: string)
    ensures CurrentPod(vectors, workload) == Some(pod) <==> IsCurrent(vectors, workload, pod)
  {
    if CurrentPod(vectors, workload).Some? {
      var i := CurrentAt(vectors, workload);
      if j :| LastAt(vectors, workload, j) && vectors[j].0 == pod { assert i == j; }
    }
  }

  /** The row is worth showing: visible, or resting on a floor. */
  ghost predicate Remembered(c: MemoryConfig, t: EdgeMemory.Table, k: EdgeKey) {
    k in t && k.signal == c.signal && (t[k].visible || t[k].base > 0.0)
  }

  /** Some live edge joins the two workloads of k, in whichever direction. */
  ghost predicate ShownLive(live: seq<Edge>, k: EdgeKey) {
    exists e :: e in live && ((StableWorkload(e.src) == k.src && StableWorkload(e.dst) == k.dst)
                              || (StableWorkload(e.src) == k.dst && StableWorkload(e.dst) == k.src))
  }

  lemma ShownLiveMeans(live: seq<Edge>, k: EdgeKey)
    ensures ShownLive(live, k) <==> Ends(k) in LivePairs(live)
  {
    if Ends(k) in LivePairs(live) {
      var e :| e in live && LivePair(e) == Ends(k);
      assert StableWorkload(e.src) in Ends(k) && StableWorkload(e.dst) in Ends(k) && k.src in LivePair(e) && k.dst in LivePair(e);
    }
    if ShownLive(live, k) {
      var e :| e in live && ((StableWorkload(e.src) == k.src && StableWorkload(e.dst) == k.dst)
                             || (StableWorkload(e.src) == k.dst && StableWorkload(e.dst) == k.src));
      assert LivePair(e) == Ends(k);
    }
  }

  /** h shows row k: from the current pod of its first workload to that of its second, with what the row remembers. */
  ghost predicate ShowsRow(t: EdgeMemory.Table, vectors: seq<Window>, h: Held, k: EdgeKey) {
    && k in t && h.row == t[k]
    && IsCurrent(vectors, k.src, h.edge.src) && IsCurrent(vectors, k.dst, h.edge.dst)
    && h.edge.r == t[k].r && h.edge.lag == t[k].lag && h.edge.evidence == t[k].evidence
  }

  /** Every held edge shows a remembered row that is not live, the most confident between its two workloads. */
  lemma HeldShowsRow(c: MemoryConfig, t: EdgeMemory.Table, live: seq<Edge>, vectors: seq<Window>, held: seq<Held>, h: Held)
    returns (k: EdgeKey)
    requires IsBackbone(c, t, live, vectors, held) && h in held
    ensures ShowsRow(t, vectors, h, k) && Remembered(c, t, k) && !ShownLive(live, k)
    ensures forall m :: Remembered(c, t, m) && (m == k || (m.src == k.dst && m.dst == k.src)) ==> t[m].confidence <= h.row.confidence
  {
    k :| ShownFor(c, t, live, vectors, h, k);
    CurrentPodIsLast(vectors, k.src, h.edge.src);
    CurrentPodIsLast(vectors, k.dst, h.edge.dst);
    ShownLiveMeans(live, k);
    forall m | Remembered(c, t, m) && (m == k || (m.src == k.dst && m.dst == k.src)) ensures t[m].confidence <= h.row.confidence {
      assert Eligible(c, t, m) && Ends(m) == Ends(k);
    }
  }

  /** Conversely, a remembered row that is not live and whose workloads run is shown by an edge between them, in one direction. */
  lemma RowIsHeld(c: MemoryConfig, t: EdgeMemory.Table, live: seq<Edge>, vectors: seq<Window>, held: seq<Held>,
                  k: EdgeKey, a: string, b: string) returns (h: Held)
    requires IsBackbone(c, t, live, vectors, held) && Remembered(c, t, k) && !ShownLive(live, k)
    requires IsCurrent(vectors, k.src, a) && IsCurrent(vectors, k.dst, b)
    ensures h in held && HeldPair(h) == {k.src, k.dst} && t[k].confidence <= h.row.confidence
  {
    CurrentPodIsLast(vectors, k.src, a);
    CurrentPodIsLast(vectors, k.dst, b);
    ShownLiveMeans(live, k);
    assert Eligible(c, t, k) && Running(vectors, k) && Shown(held, Ends(k));
    h :| h in held && HeldPair(h) == Ends(k);
    var m :| ShownFor(c, t, live, vectors, h, m);
    HeldJoinsPair(t, vectors, m);
  }

  /** A held edge is never a ghost: both ends run now, between workloads whose pair is not live. */
  lemma NoGhosts(c: MemoryConfig, t: EdgeMemory.Table, live: seq<Edge>, vectors: seq<Window>, held: seq<Held>, h: Held)
    requires IsBackbone(c, t, live, vectors, held) && h in held
    ensures exists i :: 0 <= i < |vectors| && vectors[i].0 == h.edge.src
    ensures exists i :: 0 <= i < |vectors| && vectors[i].0 == h.edge.dst
    ensures HeldPair(h) !in LivePairs(live)
  {
    var k := HeldShowsRow(c, t, live, vectors, held, h);
    var i :| LastAt(vectors, k.src, i) && vectors[i].0 == h.edge.src;
    var j :| LastAt(vectors, k.dst, j) && vectors[j].0 == h.edge.dst;
    var m :| ShownFor(c, t, live, vectors, h, m);
    HeldJoinsPair(t, vectors, m);
  }
}
