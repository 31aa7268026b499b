/** The evidence gate: physical witnesses, the three clauses, and the writer-to-staller edge. */
module Gate {
  import opened Basics
  import opened Digraph

  const R_PEAK: real := 0.6
  const R_ADJ: real := 0.4
  const R_SRC: real := 0.5
  const TEMPORAL_TOL: real := 10.0

  const COUPLING_KINDS: set<string> := {"ebpf", "pvc"}
  const SOURCE_COUPLING_KINDS: set<string> := {"ebpf", "pvc", "node"}

  /** Physical relationships between pods; ebpf is directed, the others are unordered pairs. */
  datatype Witness = Witness(ebpf: set<(string, string)>, psi: set<set<string>>, shared: set<set<string>>, sameNode: set<set<string>>)
  {
    function Kinds(src: string, dst: string): seq<string> {
      (if (src, dst) in ebpf || (dst, src) in ebpf then ["ebpf"] else [])
      + (if {src, dst} in psi then ["psi"] else [])
      + (if {src, dst} in shared then ["pvc"] else [])
      + (if {src, dst} in sameNode then ["node"] else [])
    }

    /** The relationship of the given kind holds between the pods. */
    predicate Shows(kind: string, a: string, b: string) {
      || (kind == "ebpf" && ((a, b) in ebpf || (b, a) in ebpf))
      || (kind == "psi" && {a, b} in psi)
      || (kind == "pvc" && {a, b} in shared)
      || (kind == "node" && {a, b} in sameNode)
    }

    lemma KindsMean(a: string, b: string, kind: string)
      ensures kind in Kinds(a, b) <==> Shows(kind, a, b)
    {
    }

    predicate Couples(src: string, dst: string) { exists k :: k in Kinds(src, dst) && k in COUPLING_KINDS }

    predicate CouplesSource(src: string, dst: string) { exists k :: k in Kinds(src, dst) && k in SOURCE_COUPLING_KINDS }

    /** Only a shared disk or a network dependency couples; same-node residence couples a source only. */
    lemma CouplingMeans(a: string, b: string)
      ensures Couples(a, b) <==> (a, b) in ebpf || (b, a) in ebpf || {a, b} in shared
      ensures CouplesSource(a, b) <==> Couples(a, b) || {a, b} in sameNode
    {
    }

    lemma KindsSymmetric(a: string, b: string)
      ensures Kinds(a, b) == Kinds(b, a)
    {
      assert {a, b} == {b, a};
    }

  }

  /** The correlation at each configured lag, in increasing lag order. */
  datatype LagPoint = LagPoint(lag: int, r: real)

  type Profile = seq<LagPoint>

  /** The peak lag occurs, and an adjacent lag also reaches the floor. */
  predicate AdjacentSupport(profile: Profile, lag: int, floor: real) {
    exists i :: 0 <= i < |profile| && profile[i].lag == lag &&
      ((i > 0 && Abs(profile[i - 1].r) >= floor) || (i + 1 < |profile| && Abs(profile[i + 1].r) >= floor))
  }

  /** src does not start after dst, and a lagged edge does not span onsets too far apart. */
  predicate TemporalOk(src: Option<real>, dst: Option<real>, lag: int) {
    src.Some? && dst.Some? ==>
      && src.value <= dst.value + TEMPORAL_TOL
      && (lag > 0 ==> dst.value - src.value <= 4.0 * lag as real + TEMPORAL_TOL)
  }

  function Onset(onset: map<string, real>, pod: string): Option<real> {
    if pod in onset then Some(onset[pod]) else None
  }

  function Temporal(src: Option<real>, dst: Option<real>): seq<string> {
    if src.Some? && dst.Some? then ["temporal"] else []
  }

  function AcceptEdge(src: string, dst: string, r: real, lag: int, profile: Profile, w: Witness, onset: map<string, real>)
    : Option<Edge>
  {
    var ts, td := Onset(onset, src), Onset(onset, dst);
    if r < R_PEAK || !AdjacentSupport(profile, lag, R_ADJ) then None
    else if !w.Couples(src, dst) then None
    else if !TemporalOk(ts, td, lag) then None
    else Some(Edge(src, dst, r, lag, ["stat"] + w.Kinds(src, dst) + Temporal(ts, td)))
  }

  /** The first point of greatest correlation. */
  function Peak(profile: Profile): (p: LagPoint)
    requires profile != []
    ensures p in profile
    ensures IsPeak(profile, p)
  {
    if |profile| == 1 then
      assert PeakAt(profile, profile[0], 0);
      profile[0]
    else
      var m, last := Peak(profile[..|profile| - 1]), profile[|profile| - 1];
      PeakNext(profile, m);
      if last.r > m.r then last else m
  }

  /** Point i of the profile is p: every point before it is lower, and none after it is higher. */
  ghost predicate PeakAt(profile: Profile, p: LagPoint, i: nat) {
    i < |profile| && profile[i] == p && forall j :: 0 <= j < |profile| ==> if j < i then profile[j].r < p.r else profile[j].r <= p.r
  }

  ghost predicate IsPeak(profile: Profile, p: LagPoint) { exists i: nat :: PeakAt(profile, p, i) }

  lemma PeakNext(profile: Profile, m: LagPoint)
    requires |profile| >= 2 && IsPeak(profile[..|profile| - 1], m)
    ensures IsPeak(profile, if profile[|profile| - 1].r > m.r then profile[|profile| - 1] else m)
  {
    var n := |profile| - 1;
    var i: nat :| PeakAt(profile[..n], m, i);
    forall j | 0 <= j < n ensures profile[j] == profile[..n][j] {
    }
    if profile[n].r > m.r {
      assert PeakAt(profile, profile[n], n);
    } else {
      assert PeakAt(profile, m, i);
    }
  }

  function Filtered(kinds: seq<string>): (r: seq<string>)
    ensures forall k :: k in r <==> k in kinds && k in SOURCE_COUPLING_KINDS
  {
    if kinds == [] then []
    else (if kinds[0] in SOURCE_COUPLING_KINDS then [kinds[0]] else []) + Filtered(kinds[1..])
  }

  /** The directed edge from a writer to the pod it stalls. */
  function WriterEdge(src: string, dst: string, profile: Profile, w: Witness, ws: Option<real>, vs: Option<real>): Option<Edge> {
    var kinds := Filtered(w.Kinds(src, dst));
    if kinds == [] || profile == [] then None
    else
      var peak := Peak(profile);
      if peak.r < R_SRC || !AdjacentSupport(profile, peak.lag, R_ADJ) then None
      else if ws.Some? && vs.Some? && ws.value > vs.value + TEMPORAL_TOL then None
      else Some(Edge(src, dst, peak.r, peak.lag, ["write"] + kinds + Temporal(ws, vs)))
  }

  predicate IsWrite(e: Edge) { "write" in e.evidence }

  /** Points i and j are neighbours, i at the lag and j at the floor or beyond. */
  ghost predicate Neighbours(profile: Profile, lag: int, floor: real, i: int, j: int) {
    && 0 <= i < |profile| && 0 <= j < |profile| && (j == i - 1 || j == i + 1)
    && profile[i].lag == lag && (profile[j].r >= floor || -profile[j].r >= floor)
  }

  ghost predicate Supported(profile: Profile, lag: int) { exists i, j :: Neighbours(profile, lag, 0.4, i, j) }

  lemma SupportMeans(profile: Profile, lag: int)
    ensures AdjacentSupport(profile, lag, R_ADJ) <==> Supported(profile, lag)
  {
    if AdjacentSupport(profile, lag, R_ADJ) {
      var i :| 0 <= i < |profile| && profile[i].lag == lag &&
        ((i > 0 && Abs(profile[i - 1].r) >= R_ADJ) || (i + 1 < |profile| && Abs(profile[i + 1].r) >= R_ADJ));
      var j := if i > 0 && Abs(profile[i - 1].r) >= R_ADJ then i - 1 else i + 1;
      assert Abs(profile[j].r) >= R_ADJ;
      assert Neighbours(profile, lag, R_ADJ, i, j);
    }
  }

  /** The cause does not start later than tolerated, nor a lagged effect too long after it. */
  ghost predicate Timely(onset: map<string, real>, src: string, dst: string, lag: int) {
    src in onset && dst in onset ==>
      && onset[src] - onset[dst] <= 10.0
      && (lag > 0 ==> onset[dst] - onset[src] - 10.0 <= 4.0 * lag as real)
  }

  /** What is listed for a correlation edge. */
  ghost predicate ListsPsi(evidence: seq<string>, w: Witness, onset: map<string, real>, src: string, dst: string) {
    && evidence != [] && evidence[0] == "stat"
    && forall k :: k in evidence <==> k == "stat" || w.Shows(k, src, dst) || (k == "temporal" && src in onset && dst in onset)
  }

  /** An accepted correlation edge rests on a real coupling, lists all its evidence, and is never taken for a source edge. */
  lemma AcceptedEdge(src: string, dst: string, r: real, lag: int, profile: Profile, w: Witness, onset: map<string, real>)
    ensures var e := AcceptEdge(src, dst, r, lag, profile, w, onset);
            && (e.Some? <==> r >= R_PEAK && Supported(profile, lag)
                             && ((src, dst) in w.ebpf || (dst, src) in w.ebpf || {src, dst} in w.shared)
                             && Timely(onset, src, dst, lag))
            && (e.Some? ==>
                  && e.value.src == src && e.value.dst == dst && e.value.r == r && e.value.lag == lag && !IsWrite(e.value)
                  && ListsPsi(e.value.evidence, w, onset, src, dst))
  {
    SupportMeans(profile, lag);
    w.CouplingMeans(src, dst);
    var e := AcceptEdge(src, dst, r, lag, profile, w, onset);
    if e.Some? {
      forall k ensures k in e.value.evidence <==>
                         k == "stat" || w.Shows(k, src, dst) || (k == "temporal" && src in onset && dst in onset)
      {
        w.KindsMean(src, dst, k);
      }
    }
  }

  /** What is listed for a source edge; pressure on both pods is no evidence for it. */
  ghost predicate ListsSource(evidence: seq<string>, w: Witness, src: string, dst: string, timed: bool) {
    && evidence != [] && evidence[0] == "write"
    && forall k :: k in evidence <==> k == "write" || (k != "psi" && w.Shows(k, src, dst)) || (k == "temporal" && timed)
  }

  lemma SourceKinds(src: string, dst: string, w: Witness)
    ensures var kinds := Filtered(w.Kinds(src, dst));
            && (forall k :: k in kinds <==> k != "psi" && w.Shows(k, src, dst))
            && (kinds != [] <==> (src, dst) in w.ebpf || (dst, src) in w.ebpf || {src, dst} in w.shared || {src, dst} in w.sameNode)
  {
    var kinds := Filtered(w.Kinds(src, dst));
    forall k ensures k in kinds <==> k != "psi" && w.Shows(k, src, dst) { w.KindsMean(src, dst, k); }
    if kinds != [] { assert kinds[0] in kinds; }
    assert "ebpf" in kinds || "pvc" in kinds || "node" in kinds <==> kinds != [];
  }

  /**
   * A source edge rests on a source coupling, carries the first of the profile's greatest correlations, which is
   * positive, and is marked.
   */
  lemma SourceEdgeShape(src: string, dst: string, profile: Profile, w: Witness, ws: Option<real>, vs: Option<real>)
    ensures var e := WriterEdge(src, dst, profile, w, ws, vs);
            && (e.Some? <==> && ((src, dst) in w.ebpf || (dst, src) in w.ebpf || {src, dst} in w.shared || {src, dst} in w.sameNode)
                             && profile != [] && Peak(profile).r >= R_SRC && Supported(profile, Peak(profile).lag)
                             && (ws.Some? && vs.Some? ==> ws.value - vs.value <= TEMPORAL_TOL))
            && (e.Some? ==>
                  && e.value.src == src && e.value.dst == dst && e.value.r >= R_SRC && IsWrite(e.value)
                  && IsPeak(profile, LagPoint(e.value.lag, e.value.r))
                  && ListsSource(e.value.evidence, w, src, dst, ws.Some? && vs.Some?))
  {
    SourceKinds(src, dst, w);
    if profile != [] { SupportMeans(profile, Peak(profile).lag); }
  }

  lemma PeakUnique(profile: Profile, p: LagPoint, q: LagPoint)
    requires IsPeak(profile, p) && IsPeak(profile, q)
    ensures p == q
  {
    var i: nat :| PeakAt(profile, p, i);
    var j: nat :| PeakAt(profile, q, j);
  }
}
