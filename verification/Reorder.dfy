/** Restarted pods come back in another order; the memory reads order only within one workload. */
module Reorder {
  import opened Basics
  import opened Config
  import opened Digraph
  import opened Names
  import opened GraphMemory
  import opened Permutations
  import Fairness
  import E = EdgeMemory
  import B = Baselines
  import L = CaseLibrary
  import I = Incidents

  /** What a confirmation reads off an edge besides its key. */
  datatype Reading = Reading(r: real, lag: int, evidence: seq<string>)

  /** The readings of one key, in order. */
  ghost function ReadingsOf(c: MemoryConfig, live: seq<Edge>, k: E.EdgeKey): seq<Reading> {
    if live == [] then []
    else
      var before, e := ReadingsOf(c, live[..|live| - 1], k), live[|live| - 1];
      if E.KeyOf(c, e) == k then before + [Reading(e.r, e.lag, e.evidence)] else before
  }

  /** q lists the content of p in another order, keeping the order within each workload and pair of workloads. */
  ghost predicate Reordered(c: MemoryConfig, p: PassInput, q: PassInput) {
    && q.ts == p.ts && q.shared == p.shared
    && Present(q.vectors) == Present(p.vectors) && (forall w :: B.WindowsOf(q.vectors, w) == B.WindowsOf(p.vectors, w))
    && (forall k :: ReadingsOf(c, q.graph.edges, k) == ReadingsOf(c, p.graph.edges, k))
    && Shuffled(p.graph, q.graph)
  }

  ghost predicate Shuffled(g: I.PassGraph, g': I.PassGraph) {
    g'.roots == g.roots && multiset(g'.edges) == multiset(g.edges) && multiset(g'.blast) == multiset(g.blast)
  }

  // ---- Edge memory ----

  ghost function Confirms(c: MemoryConfig, row: Option<E.EdgeRow>, rs: seq<Reading>, ts: real): Option<E.EdgeRow> {
    if rs == [] then row
    else
      var x := rs[|rs| - 1];
      Some(E.ConfirmRow(c, Confirms(c, row, rs[..|rs| - 1], ts), Edge("", "", x.r, x.lag, x.evidence), ts))
  }

  lemma ConfirmsNext(c: MemoryConfig, row: Option<E.EdgeRow>, rs: seq<Reading>, e: Edge, ts: real)
    ensures Confirms(c, row, rs + [Reading(e.r, e.lag, e.evidence)], ts) == Some(E.ConfirmRow(c, Confirms(c, row, rs, ts), e, ts))
  {
    Snoc(rs, Reading(e.r, e.lag, e.evidence));
  }

  /** Within one pair of workloads the order counts: two readings commute only when they are the same. */
  lemma OrderMatters(c: MemoryConfig, row: Option<E.EdgeRow>, x: Reading, y: Reading, ts: real)
    ensures Confirms(c, row, [x, y], ts) == Confirms(c, row, [y, x], ts) <==> x == y
  {
    assert [x, y][..1] == [x] && [y, x][..1] == [y] && [x][..0] == [] && [y][..0] == [];
  }

  lemma {:induction false} ConfirmsReadings(c: MemoryConfig, k: E.EdgeKey, row: Option<E.EdgeRow>, live: seq<Edge>, ts: real)
    ensures E.KeyConfirmed(c, k, row, live, ts) == Confirms(c, row, ReadingsOf(c, live, k), ts)
    ensures E.Live(c, k, live) <==> ReadingsOf(c, live, k) != []
  {
    if live != [] {
      var front, e := live[..|live| - 1], live[|live| - 1];
      ConfirmsReadings(c, k, row, front, ts);
      E.LiveSplit(c, k, live);
      if E.KeyOf(c, e) == k { ConfirmsNext(c, row, ReadingsOf(c, front, k), e, ts); }
    }
  }

  lemma SameRows(t: E.Table, t': E.Table)
    requires forall k :: E.Lookup(t, k) == E.Lookup(t', k)
    ensures t == t'
  {
    forall k ensures k in t <==> k in t' { assert E.Lookup(t, k) == E.Lookup(t', k); }
    forall k | k in t ensures t[k] == t'[k] { assert E.Lookup(t, k) == E.Lookup(t', k); }
  }

  lemma KeyReordered(c: MemoryConfig, k: E.EdgeKey, row: Option<E.EdgeRow>, p: PassInput, q: PassInput)
    requires Reordered(c, p, q)
    ensures E.KeyPass(c, k, row, EdgeInputOf(q)) == E.KeyPass(c, k, row, EdgeInputOf(p))
  {
    var i, j := EdgeInputOf(p), EdgeInputOf(q);
    assert E.Seeds(c, k, j) <==> E.Seeds(c, k, i);
    var seeded := E.KeySeeded(c, k, row, i);
    ConfirmsReadings(c, k, seeded, p.graph.edges, p.ts);
    ConfirmsReadings(c, k, seeded, q.graph.edges, p.ts);
  }

  lemma EdgesReordered(c: MemoryConfig, t: E.Table, p: PassInput, q: PassInput)
    requires Reordered(c, p, q)
    ensures E.EdgePass(c, t, EdgeInputOf(q)) == E.EdgePass(c, t, EdgeInputOf(p))
  {
    var x, y := E.EdgePass(c, t, EdgeInputOf(q)), E.EdgePass(c, t, EdgeInputOf(p));
    forall k ensures E.Lookup(x, k) == E.Lookup(y, k) {
      E.PassAt(c, t, EdgeInputOf(q), k);
      E.PassAt(c, t, EdgeInputOf(p), k);
      KeyReordered(c, k, E.Lookup(t, k), p, q);
    }
    SameRows(x, y);
  }

  // ---- Baselines ----

  lemma BaselinesReordered(c: MemoryConfig, t: B.Table, p: PassInput, q: PassInput)
    requires Reordered(c, p, q)
    ensures B.Updated(c, t, q.vectors, q.ts) == B.Updated(c, t, p.vectors, p.ts)
  {
    var x, y := B.Updated(c, t, q.vectors, q.ts), B.Updated(c, t, p.vectors, p.ts);
    forall k ensures B.Lookup(x, k) == B.Lookup(y, k) {
      B.UpdatedAt(c, t, q.vectors, q.ts, k);
      B.UpdatedAt(c, t, p.vectors, p.ts, k);
    }
    SameBaselines(x, y);
  }

  lemma SameBaselines(t: B.Table, t': B.Table)
    requires forall k :: B.Lookup(t, k) == B.Lookup(t', k)
    ensures t == t'
  {
    forall k ensures k in t <==> k in t' { assert B.Lookup(t, k) == B.Lookup(t', k); }
    forall k | k in t ensures t[k] == t'[k] { assert B.Lookup(t, k) == B.Lookup(t', k); }
  }

  // ---- Cases ----

  /** What an edge contributes to the incident: its link, its physical evidence and its positive lag. */
  datatype Digest = Digest(links: multiset<(string, string)>, kinds: multiset<string>, lags: multiset<real>)
  {
    function Plus(d: Digest): Digest { Digest(links + d.links, kinds + d.kinds, lags + d.lags) }
  }

  function DigestOf(e: Edge): Digest {
    Digest(multiset{(StableWorkload(e.src), StableWorkload(e.dst))}, multiset(I.Physical(e.evidence)),
           if e.lag > 0 then multiset{e.lag as real} else multiset{})
  }

  ghost function DigestAll(es: seq<Edge>): Digest {
    if es == [] then Digest(multiset{}, multiset{}, multiset{})
    else DigestAll(es[..|es| - 1]).Plus(DigestOf(es[|es| - 1]))
  }

  lemma DigestNext(es: seq<Edge>, e: Edge)
    ensures DigestAll(es + [e]) == DigestAll(es).Plus(DigestOf(e))
  {
    Snoc(es, e);
  }

  lemma PlusSwaps(a: Digest, b: Digest, d: Digest)
    ensures a.Plus(b).Plus(d) == a.Plus(d).Plus(b)
  {
  }

  /** e may be moved to the end. */
  lemma DigestMoves(es: seq<Edge>, rest: seq<Edge>, e: Edge, last: Edge)
    requires DigestAll(es) == DigestAll(rest).Plus(DigestOf(e))
    ensures DigestAll(es + [last]) == DigestAll(rest + [last]).Plus(DigestOf(e))
  {
    DigestNext(es, last);
    DigestNext(rest, last);
    PlusSwaps(DigestAll(rest), DigestOf(e), DigestOf(last));
  }

  lemma DigestLast(es: seq<Edge>)
    requires es != []
    ensures DigestAll(es) == DigestAll(Without(es, |es| - 1)).Plus(DigestOf(es[|es| - 1]))
  {
    RemoveLast(es);
  }

  lemma DigestEarlier(es: seq<Edge>, k: nat)
    requires k < |es| - 1
    requires DigestAll(es[..|es| - 1]) == DigestAll(Without(es[..|es| - 1], k)).Plus(DigestOf(es[k]))
    ensures DigestAll(es) == DigestAll(Without(es, k)).Plus(DigestOf(es[k]))
  {
    var n := |es| - 1;
    RemoveBefore(es, k);
    Unsnoc(es);
    DigestMoves(es[..n], Without(es[..n], k), es[k], es[n]);
  }

  lemma {:induction false} DigestRemove(es: seq<Edge>, k: nat)
    requires k < |es|
    ensures DigestAll(es) == DigestAll(Without(es, k)).Plus(DigestOf(es[k]))
    decreases |es|
  {
    if k == |es| - 1 {
      DigestLast(es);
    } else {
      DigestRemove(es[..|es| - 1], k);
      DigestEarlier(es, k);
    }
  }

  lemma {:induction false} DigestPermuted(es: seq<Edge>, fs: seq<Edge>)
    requires multiset(es) == multiset(fs)
    ensures DigestAll(es) == DigestAll(fs)
    decreases |es|
  {
    if es == [] {
      EmptyPermuted(es, fs);
    } else {
      var k := Locate(es, fs);
      DigestPermuted(es[..|es| - 1], Without(fs, k));
      DigestRemove(fs, k);
    }
  }

  lemma Reassociate<T>(a: seq<T>, b: seq<T>, c: seq<T>)
    ensures a + (b + c) == (a + b) + c
  {
  }

  lemma TailOfSnoc<T>(s: seq<T>, x: T)
    requires s != []
    ensures (s + [x])[1..] == s[1..] + [x] && (s + [x])[0] == s[0]
  {
  }

  function LagOf(e: Edge): seq<real> { if e.lag > 0 then [e.lag as real] else [] }

  lemma {:induction false} LagsNext(es: seq<Edge>, e: Edge)
    ensures I.PositiveLags(es + [e]) == I.PositiveLags(es) + LagOf(e)
  {
    if es == [] {
      assert (es + [e])[1..] == [];
    } else {
      TailOfSnoc(es, e);
      LagsNext(es[1..], e);
      Reassociate(LagOf(es[0]), I.PositiveLags(es[1..]), LagOf(e));
    }
  }

  lemma {:induction false} DigestMeans(es: seq<Edge>)
    ensures DigestAll(es) == Digest(I.Motif(es), multiset(I.AllPhysical(es)), multiset(I.PositiveLags(es)))
  {
    if es != [] {
      DigestMeans(es[..|es| - 1]);
      Unsnoc(es);
      LagsNext(es[..|es| - 1], es[|es| - 1]);
    }
  }

  ghost function EtasAll(bs: seq<I.Blast>): multiset<real> {
    if bs == [] then multiset{}
    else EtasAll(bs[..|bs| - 1]) + (if bs[|bs| - 1].eta.Some? then multiset{bs[|bs| - 1].eta.value} else multiset{})
  }

  lemma {:induction false} EtasRemove(bs: seq<I.Blast>, k: nat)
    requires k < |bs|
    ensures EtasAll(bs) == EtasAll(Without(bs, k)) + (if bs[k].eta.Some? then multiset{bs[k].eta.value} else multiset{})
    decreases |bs|
  {
    var n := |bs| - 1;
    if k == n {
      RemoveLast(bs);
    } else {
      RemoveBefore(bs, k);
      Snoc(Without(bs[..n], k), bs[n]);
      EtasRemove(bs[..n], k);
    }
  }

  lemma {:induction false} EtasPermuted(bs: seq<I.Blast>, bs': seq<I.Blast>)
    requires multiset(bs) == multiset(bs')
    ensures EtasAll(bs) == EtasAll(bs')
    decreases |bs|
  {
    if bs == [] {
      EmptyPermuted(bs, bs');
    } else {
      var k := Locate(bs, bs');
      EtasPermuted(bs[..|bs| - 1], Without(bs', k));
      EtasRemove(bs', k);
    }
  }

  function EtaOf(b: I.Blast): seq<real> { if b.eta.Some? then [b.eta.value] else [] }

  lemma {:induction false} EtasNext(bs: seq<I.Blast>, b: I.Blast)
    ensures I.Etas(bs + [b]) == I.Etas(bs) + EtaOf(b)
  {
    if bs == [] {
      assert (bs + [b])[1..] == [];
    } else {
      TailOfSnoc(bs, b);
      EtasNext(bs[1..], b);
      Reassociate(EtaOf(bs[0]), I.Etas(bs[1..]), EtaOf(b));
    }
  }

  lemma {:induction false} EtasMeans(bs: seq<I.Blast>)
    ensures EtasAll(bs) == multiset(I.Etas(bs))
  {
    if bs != [] {
      EtasMeans(bs[..|bs| - 1]);
      Unsnoc(bs);
      EtasNext(bs[..|bs| - 1], bs[|bs| - 1]);
    }
  }

  lemma MeanPermuted(xs: seq<real>, ys: seq<real>)
    requires multiset(xs) == multiset(ys)
    ensures I.Mean(xs) == I.Mean(ys) && (xs == [] <==> ys == [])
  {
    assert |xs| == |multiset(xs)| == |multiset(ys)| == |ys|;
    Fairness.SumPermuted(xs, ys);
  }

  /** The most frequent kind, first by name among equals, does not depend on the order either. */
  lemma BestKindPermuted(xs: seq<string>, ys: seq<string>)
    requires multiset(xs) == multiset(ys)
    ensures I.BestKind(multiset(xs), xs) == I.BestKind(multiset(ys), ys)
  {
    var counts := multiset(xs);
    I.BestKindIsBest(counts, xs);
    I.BestKindIsBest(counts, ys);
    assert |xs| == |counts| == |ys|;
    var a, b := I.BestKind(counts, xs), I.BestKind(counts, ys);
    if xs != [] {
      assert a.value in counts && b.value in counts;
      assert a.value in ys && b.value in xs;
      LessEqOrder(a.value, b.value, b.value);
    }
  }

  lemma ShuffledMembers<T>(s: seq<T>, t: seq<T>)
    requires multiset(s) == multiset(t)
    ensures forall x :: x in s <==> x in t
    ensures s == [] <==> t == []
  {
    forall x ensures x in s <==> x in t { assert x in s <==> x in multiset(s); }
    assert |s| == |multiset(s)| == |multiset(t)| == |t|;
  }

  lemma LeadShuffled(g: I.PassGraph, g': I.PassGraph)
    requires Shuffled(g, g')
    ensures I.LeadTime(g') == I.LeadTime(g)
  {
    EtasMeans(g.blast);
    EtasMeans(g'.blast);
    EtasPermuted(g.blast, g'.blast);
    MeanPermuted(I.Etas(g.blast), I.Etas(g'.blast));
    DigestMeans(g.edges);
    DigestMeans(g'.edges);
    DigestPermuted(g.edges, g'.edges);
    MeanPermuted(I.PositiveLags(g.edges), I.PositiveLags(g'.edges));
  }

  lemma KeyShuffled(g: I.PassGraph, g': I.PassGraph)
    requires Shuffled(g, g')
    ensures I.Motif(g'.edges) == I.Motif(g.edges) && I.DominantWitness(g'.edges) == I.DominantWitness(g.edges)
  {
    DigestMeans(g.edges);
    DigestMeans(g'.edges);
    DigestPermuted(g.edges, g'.edges);
    BestKindPermuted(I.AllPhysical(g.edges), I.AllPhysical(g'.edges));
  }

  lemma VictimsShuffled(g: I.PassGraph, g': I.PassGraph, root: string)
    requires (forall e :: e in g.edges <==> e in g'.edges) && (forall b :: b in g.blast <==> b in g'.blast)
    ensures I.SourceRooted(root, g'.edges) <==> I.SourceRooted(root, g.edges)
    ensures I.Victims(g', root) == I.Victims(g, root)
  {
    assert I.BlastVictims(g', root) == I.BlastVictims(g, root);
    assert I.TargetVictims(g', root) == I.TargetVictims(g, root);
  }

  lemma IncidentShuffled(c: MemoryConfig, g: I.PassGraph, g': I.PassGraph)
    requires Shuffled(g, g')
    ensures I.IncidentOf(c, g') == I.IncidentOf(c, g)
  {
    ShuffledMembers(g.edges, g'.edges);
    ShuffledMembers(g.blast, g'.blast);
    KeyShuffled(g, g');
    LeadShuffled(g, g');
    if g.roots != [] { VictimsShuffled(g, g', StableWorkload(g.roots[0])); }
    IncidentReads(c, g, g');
  }

  /** What the incident depends on. */
  lemma IncidentReads(c: MemoryConfig, g: I.PassGraph, g': I.PassGraph)
    requires g'.roots == g.roots && (g'.edges == [] <==> g.edges == [])
    requires g.roots != [] ==> var root := StableWorkload(g.roots[0]);
               (I.SourceRooted(root, g'.edges) <==> I.SourceRooted(root, g.edges)) && I.Victims(g', root) == I.Victims(g, root)
    requires I.Motif(g'.edges) == I.Motif(g.edges) && I.DominantWitness(g'.edges) == I.DominantWitness(g.edges)
    requires I.LeadTime(g') == I.LeadTime(g)
    ensures I.IncidentOf(c, g') == I.IncidentOf(c, g)
  {
  }

  /** One pass has the same effect in whatever order its workloads come. */
  lemma StepReordered(c: MemoryConfig, h: L.Hash, m: Memory, p: PassInput, q: PassInput)
    requires Reordered(c, p, q)
    ensures Step(c, h, m, q) == Step(c, h, m, p)
  {
    EdgesReordered(c, m.edges, p, q);
    BaselinesReordered(c, m.baselines, p, q);
    IncidentShuffled(c, p.graph, q.graph);
  }
}
