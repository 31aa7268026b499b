/** What `_promote_case` reads off a pass: the incident, if there is one worth filing. */
module Incidents {
  import opened Basics
  import opened Config
  import opened Digraph
  import opened Names
  import opened CaseLibrary

  datatype Blast = Blast(pod: string, eta: Option<real>)

  /** The accepted edges, the ranked roots and the blast radius of one pass. */
  datatype PassGraph = PassGraph(edges: seq<Edge>, roots: seq<string>, blast: seq<Blast>)

  const SOURCE_EVIDENCE: set<string> := {"write"}
  const NOT_PHYSICAL: set<string> := {"stat", "temporal", "write"}

  predicate OwnsSource(root: string, e: Edge) {
    StableWorkload(e.src) == root && exists ev :: ev in e.evidence && ev in SOURCE_EVIDENCE
  }

  predicate SourceRooted(root: string, edges: seq<Edge>) { exists e :: e in edges && OwnsSource(root, e) }

  /** The workloads of the named blast entries, without the root. */
  function BlastVictims(g: PassGraph, root: string): set<string> {
    set b | b in g.blast && b.pod != "" && StableWorkload(b.pod) != root :: StableWorkload(b.pod)
  }

  /** The workloads of the edge targets, without the root. */
  function TargetVictims(g: PassGraph, root: string): set<string> {
    set e | e in g.edges && StableWorkload(e.dst) != root :: StableWorkload(e.dst)
  }

  function Victims(g: PassGraph, root: string): set<string> {
    if BlastVictims(g, root) != {} then BlastVictims(g, root) else TargetVictims(g, root)
  }

  function Motif(edges: seq<Edge>): multiset<(string, string)> {
    if edges == [] then multiset{}
    else
      var e := edges[|edges| - 1];
      Motif(edges[..|edges| - 1]) + multiset{(StableWorkload(e.src), StableWorkload(e.dst))}
  }

  function Physical(evidence: seq<string>): seq<string> {
    if evidence == [] then []
    else (if evidence[0] in NOT_PHYSICAL then [] else [evidence[0]]) + Physical(evidence[1..])
  }

  function AllPhysical(edges: seq<Edge>): seq<string> {
    if edges == [] then [] else AllPhysical(edges[..|edges| - 1]) + Physical(edges[|edges| - 1].evidence)
  }

  /** More frequent first, ties by name. */
  predicate Outranks(counts: multiset<string>, a: string, b: string) {
    counts[a] > counts[b] || (counts[a] == counts[b] && LessEq(a, b))
  }

  function BestKind(counts: multiset<string>, kinds: seq<string>): Option<string> {
    if kinds == [] then None
    else
      var best := BestKind(counts, kinds[1..]);
      if best.Some? && Outranks(counts, best.value, kinds[0]) then best else Some(kinds[0])
  }

  function DominantWitness(edges: seq<Edge>): Option<string> {
    var kinds := AllPhysical(edges);
    BestKind(multiset(kinds), kinds)
  }

  function Mean(xs: seq<real>): Option<real> {
    if xs == [] then None else Some(Sum(xs) / |xs| as real)
  }

  function Etas(blast: seq<Blast>): seq<real> {
    if blast == [] then []
    else (if blast[0].eta.Some? then [blast[0].eta.value] else []) + Etas(blast[1..])
  }

  function PositiveLags(edges: seq<Edge>): seq<real> {
    if edges == [] then [] else (if edges[0].lag > 0 then [edges[0].lag as real] else []) + PositiveLags(edges[1..])
  }

  /** The mean ETA, or the mean positive lag when no ETA is known. */
  function LeadTime(g: PassGraph): Option<real> {
    if Etas(g.blast) != [] then Mean(Etas(g.blast)) else Mean(PositiveLags(g.edges))
  }

  function IncidentOf(c: MemoryConfig, g: PassGraph): Option<Incident> {
    if g.roots == [] || g.edges == [] then None
    else
      var root := StableWorkload(g.roots[0]);
      if !SourceRooted(root, g.edges) || Victims(g, root) == {} then None
      else Some(Incident(CaseKey(root, Victims(g, root), c.signal, DominantWitness(g.edges), Motif(g.edges)), LeadTime(g)))
  }

  // ---- Properties ----

  lemma {:induction false} BestKindIsBest(counts: multiset<string>, kinds: seq<string>)
    ensures var best := BestKind(counts, kinds);
            && (best.None? <==> kinds == [])
            && (best.Some? ==> best.value in kinds && forall k :: k in kinds ==> Outranks(counts, best.value, k))
  {
    if kinds != [] {
      BestKindIsBest(counts, kinds[1..]);
      var best := BestKind(counts, kinds[1..]);
      LessEqOrder(kinds[0], kinds[0], kinds[0]);
      forall k | k in kinds ensures Outranks(counts, BestKind(counts, kinds).value, k) {
        if k != kinds[0] {
          assert k in kinds[1..];
          LessEqOrder(kinds[0], best.value, k);
        }
      }
    }
  }

  /** The dominant witness is the most frequent physical evidence, the first by name among equals. */
  lemma DominantIsMostFrequent(edges: seq<Edge>)
    ensures var kinds, best := AllPhysical(edges), DominantWitness(edges);
            && (best.None? <==> kinds == [])
            && (best.Some? ==> best.value in kinds && forall k :: k in kinds ==> Outranks(multiset(kinds), best.value, k))
  {
    BestKindIsBest(multiset(AllPhysical(edges)), AllPhysical(edges));
  }

  /** Only a source-rooted verdict is filed: the root owns a source edge, and is never its own victim. */
  lemma FiledIsSourceRooted(c: MemoryConfig, g: PassGraph)
    requires IncidentOf(c, g).Some?
    ensures var k := IncidentOf(c, g).value.key;
            && k.victims != {} && k.stressor !in k.victims
            && exists e :: e in g.edges && StableWorkload(e.src) == k.stressor && "write" in e.evidence
  {
    var root := StableWorkload(g.roots[0]);
    var e :| e in g.edges && OwnsSource(root, e);
    var ev :| ev in e.evidence && ev in SOURCE_EVIDENCE;
  }

  // ---- What an incident records ----

  /** How often the edges list k as evidence. */
  ghost function Listings(edges: seq<Edge>, k: string): nat {
    if edges == [] then 0 else Listings(edges[..|edges| - 1], k) + multiset(edges[|edges| - 1].evidence)[k]
  }

  /** How many edges lead from a pod of workload a to one of workload b. */
  ghost function Links(edges: seq<Edge>, a: string, b: string): nat {
    if edges == [] then 0
    else
      var e := edges[|edges| - 1];
      Links(edges[..|edges| - 1], a, b) + (if StableWorkload(e.src) == a && StableWorkload(e.dst) == b then 1 else 0)
  }

  ghost predicate IsPhysical(k: string) { k != "stat" && k != "temporal" && k != "write" }

  /** kind is the physical evidence listed most often, the first by name among equals, none when there is none. */
  ghost predicate IsDominant(edges: seq<Edge>, kind: Option<string>) {
    match kind
    case None => forall k :: IsPhysical(k) ==> Listings(edges, k) == 0
    case Some(k) => IsPhysical(k) && Listings(edges, k) > 0 && forall l :: IsPhysical(l) ==> ListedNoMore(edges, l, k)
  }

  ghost predicate ListedNoMore(edges: seq<Edge>, l: string, k: string) {
    Listings(edges, l) < Listings(edges, k) || (Listings(edges, l) == Listings(edges, k) && (l == k || Less(k, l)))
  }

  lemma FirstListed(s: seq<string>, k: string)
    requires s != []
    ensures multiset(s)[k] == multiset(s[1..])[k] + (if s[0] == k then 1 else 0)
  {
    assert s == [s[0]] + s[1..];
  }

  lemma {:induction false} PhysicalListings(evidence: seq<string>, k: string)
    ensures multiset(Physical(evidence))[k] == if IsPhysical(k) then multiset(evidence)[k] else 0
  {
    if evidence != [] {
      PhysicalListings(evidence[1..], k);
      FirstListed(evidence, k);
    }
  }

  lemma {:induction false} AllPhysicalListings(edges: seq<Edge>, k: string)
    ensures multiset(AllPhysical(edges))[k] == if IsPhysical(k) then Listings(edges, k) else 0
  {
    if edges != [] {
      AllPhysicalListings(edges[..|edges| - 1], k);
      PhysicalListings(edges[|edges| - 1].evidence, k);
    }
  }

  lemma DominantMeans(edges: seq<Edge>)
    ensures IsDominant(edges, DominantWitness(edges))
  {
    var kinds, best := AllPhysical(edges), DominantWitness(edges);
    DominantIsMostFrequent(edges);
    forall k | IsPhysical(k)
      ensures best.None? ==> Listings(edges, k) == 0
      ensures best.Some? ==> ListedNoMore(edges, k, best.value)
    {
      AllPhysicalListings(edges, k);
      if best.Some? { RankedNoMore(edges, kinds, k, best.value); }
    }
    if best.Some? {
      AllPhysicalListings(edges, best.value);
      assert best.value in multiset(kinds);
    }
  }

  lemma RankedNoMore(edges: seq<Edge>, kinds: seq<string>, l: string, k: string)
    requires kinds == AllPhysical(edges) && IsPhysical(l) && k in kinds
    requires l in kinds ==> Outranks(multiset(kinds), k, l)
    ensures ListedNoMore(edges, l, k)
  {
    AllPhysicalListings(edges, l);
    AllPhysicalListings(edges, k);
    LessTrichotomy(k, l);
    assert k in multiset(kinds);
    if l !in kinds { assert l !in multiset(kinds); }
  }

  lemma {:induction false} MotifCounts(edges: seq<Edge>, a: string, b: string)
    ensures Motif(edges)[(a, b)] == Links(edges, a, b)
  {
    if edges != [] { MotifCounts(edges[..|edges| - 1], a, b); }
  }

  ghost function EtaCount(blast: seq<Blast>): nat {
    if blast == [] then 0 else (if blast[0].eta.Some? then 1 else 0) + EtaCount(blast[1..])
  }

  ghost function EtaTotal(blast: seq<Blast>): real {
    if blast == [] then 0.0 else (if blast[0].eta.Some? then blast[0].eta.value else 0.0) + EtaTotal(blast[1..])
  }

  ghost function LagCount(edges: seq<Edge>): nat {
    if edges == [] then 0 else (if edges[0].lag > 0 then 1 else 0) + LagCount(edges[1..])
  }

  ghost function LagTotal(edges: seq<Edge>): int {
    if edges == [] then 0 else (if edges[0].lag > 0 then edges[0].lag else 0) + LagTotal(edges[1..])
  }

  lemma {:induction false} SumPrepend(x: real, xs: seq<real>)
    ensures Sum([x] + xs) == x + Sum(xs)
  {
    if xs == [] {
      assert ([x] + xs)[..0] == [];
    } else {
      SumPrepend(x, xs[..|xs| - 1]);
      assert ([x] + xs)[..|xs|] == [x] + xs[..|xs| - 1];
    }
  }

  lemma {:induction false} EtasTotal(blast: seq<Blast>)
    ensures |Etas(blast)| == EtaCount(blast) && Sum(Etas(blast)) == EtaTotal(blast)
  {
    if blast != [] {
      EtasTotal(blast[1..]);
      if blast[0].eta.Some? {
        SumPrepend(blast[0].eta.value, Etas(blast[1..]));
      } else {
        assert [] + Etas(blast[1..]) == Etas(blast[1..]);
      }
    }
  }

  lemma {:induction false} LagsTotal(edges: seq<Edge>)
    ensures |PositiveLags(edges)| == LagCount(edges) && Sum(PositiveLags(edges)) == LagTotal(edges) as real
  {
    if edges != [] {
      LagsTotal(edges[1..]);
      if edges[0].lag > 0 {
        SumPrepend(edges[0].lag as real, PositiveLags(edges[1..]));
      } else {
        assert [] + PositiveLags(edges[1..]) == PositiveLags(edges[1..]);
      }
    }
  }

  /** lead is total over count, and unknown when there is nothing to count. */
  ghost predicate IsMean(lead: Option<real>, total: real, count: nat) {
    if count == 0 then lead == None else lead.Some? && Product(lead.value, count as real) == total
  }

  /** The mean of the known ETAs, or of the positive lags when no ETA is known. */
  ghost predicate IsLead(g: PassGraph, lead: Option<real>) {
    if EtaCount(g.blast) > 0 then IsMean(lead, EtaTotal(g.blast), EtaCount(g.blast))
    else IsMean(lead, LagTotal(g.edges) as real, LagCount(g.edges))
  }

  lemma MeanIsMean(xs: seq<real>)
    ensures IsMean(Mean(xs), Sum(xs), |xs|)
  {
  }

  lemma LeadMeans(g: PassGraph)
    ensures IsLead(g, LeadTime(g))
  {
    EtasTotal(g.blast);
    LagsTotal(g.edges);
    MeanIsMean(Etas(g.blast));
    MeanIsMean(PositiveLags(g.edges));
  }

  /** The blast radius names a pod of the workload. */
  ghost predicate Blasted(g: PassGraph, w: string) { exists b :: b in g.blast && b.pod != "" && StableWorkload(b.pod) == w }

  ghost predicate Targeted(g: PassGraph, w: string) { exists e :: e in g.edges && StableWorkload(e.dst) == w }

  /** w is a victim: named by the blast radius, or an edge target when that names nothing but the root. */
  ghost predicate IsVictim(g: PassGraph, root: string, w: string) {
    && w != root
    && (Blasted(g, w) || (Targeted(g, w) && forall x :: Blasted(g, x) ==> x == root))
  }

  lemma VictimsMean(g: PassGraph, root: string, w: string)
    ensures w in Victims(g, root) <==> IsVictim(g, root, w)
  {
    forall x ensures x in BlastVictims(g, root) <==> x != root && Blasted(g, x) {
    }
    if BlastVictims(g, root) != {} {
      var x :| x in BlastVictims(g, root);
      assert Blasted(g, x);
    } else {
      forall x | Blasted(g, x) ensures x == root { assert x !in BlastVictims(g, root); }
    }
  }

  /** The root pod's workload has a source edge. */
  ghost predicate HasSource(g: PassGraph, root: string) {
    exists e :: e in g.edges && StableWorkload(e.src) == root && "write" in e.evidence
  }

  lemma HasSourceMeans(g: PassGraph, root: string)
    ensures SourceRooted(root, g.edges) <==> HasSource(g, root)
  {
    if SourceRooted(root, g.edges) {
      var e :| e in g.edges && OwnsSource(root, e);
      var ev :| ev in e.evidence && ev in SOURCE_EVIDENCE;
      assert ev == "write";
    }
    if HasSource(g, root) {
      var e :| e in g.edges && StableWorkload(e.src) == root && "write" in e.evidence;
      assert "write" in SOURCE_EVIDENCE;
      assert OwnsSource(root, e);
    }
  }

  /** What is filed: the root's workload, its victims, the signal, the dominant witness, the links and the lead. */
  ghost predicate Records(c: MemoryConfig, g: PassGraph, root: string, inc: Incident) {
    && inc.key.stressor == root && inc.key.signal == c.signal
    && (forall w :: w in inc.key.victims <==> IsVictim(g, root, w))
    && IsDominant(g.edges, inc.key.kind)
    && (forall a, b :: inc.key.motif[(a, b)] == Links(g.edges, a, b))
    && IsLead(g, inc.lead)
  }

  /** A pass is filed exactly when it has a source-rooted verdict with a victim, and the incident records it. */
  lemma IncidentMeans(c: MemoryConfig, g: PassGraph)
    ensures var inc := IncidentOf(c, g);
            inc.Some? <==> && g.roots != [] && HasSource(g, StableWorkload(g.roots[0]))
                           && exists w :: IsVictim(g, StableWorkload(g.roots[0]), w)
    ensures IncidentOf(c, g).Some? ==> Records(c, g, StableWorkload(g.roots[0]), IncidentOf(c, g).value)
  {
    if g.roots != [] {
      var root := StableWorkload(g.roots[0]);
      HasSourceMeans(g, root);
      forall w ensures w in Victims(g, root) <==> IsVictim(g, root, w) { VictimsMean(g, root, w); }
      assert Victims(g, root) != {} <==> exists w :: w in Victims(g, root);
      DominantMeans(g.edges);
      forall a, b ensures Motif(g.edges)[(a, b)] == Links(g.edges, a, b) { MotifCounts(g.edges, a, b); }
      LeadMeans(g);
    }
  }

  /** The record is the only one, so two filed passes that look alike hold the same incident. */
  lemma RecordUnique(c: MemoryConfig, g: PassGraph, root: string, x: Incident, y: Incident)
    requires Records(c, g, root, x) && Records(c, g, root, y)
    ensures x == y
  {
    assert x.key.victims == y.key.victims;
    forall l ensures x.key.motif[l] == y.key.motif[l] { assert x.key.motif[(l.0, l.1)] == Links(g.edges, l.0, l.1); }
    assert x.key.motif == y.key.motif;
    DominantUnique(g.edges, x.key.kind, y.key.kind);
    LeadUnique(g, x.lead, y.lead);
  }

  lemma DominantUnique(edges: seq<Edge>, k: Option<string>, l: Option<string>)
    requires IsDominant(edges, k) && IsDominant(edges, l)
    ensures k == l
  {
    if k.Some? && l.Some? {
      assert ListedNoMore(edges, k.value, l.value) && ListedNoMore(edges, l.value, k.value);
      LessTrichotomy(k.value, l.value);
    }
  }

  lemma MeanUnique(x: real, y: real, n: real)
    requires n > 0.0 && Product(x, n) == Product(y, n)
    ensures x == y
  {
  }

  lemma LeadUnique(g: PassGraph, x: Option<real>, y: Option<real>)
    requires IsLead(g, x) && IsLead(g, y)
    ensures x == y
  {
    var n := if EtaCount(g.blast) > 0 then EtaCount(g.blast) else LagCount(g.edges);
    if n > 0 { MeanUnique(x.value, y.value, n as real); }
  }
}
