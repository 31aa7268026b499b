/** `rank_root_causes`: candidates scored by the share of the symptom set they explain. */
module RootCauses {
  import opened Basics
  import opened Digraph
  import opened Reach
  import opened Sorting

  const UPSTREAM_PENALTY: real := 0.5

  datatype Scored = Scored(pod: string, score: real)

  datatype Ranked = Ranked(pod: string, share: real, onset: Option<real>)

  // ---- Specification ----

  /** Something upstream explains n. */
  predicate HasUpstream(g: Graph, n: string) { exists u :: u in g.nodes && (u, n) in g.arcs }

  /** The sum of m over the keys in s. */
  ghost function SumOver(m: map<string, real>, s: set<string>): real
    requires s <= m.Keys
  {
    if s == {} then 0.0 else var x :| x in s; m[x] + SumOver(m, s - {x})
  }

  lemma {:induction false} SumOverExtract(m: map<string, real>, s: set<string>, x: string)
    requires s <= m.Keys && x in s
    ensures SumOver(m, s) == m[x] + SumOver(m, s - {x})
    decreases s
  {
    var y :| y in s && SumOver(m, s) == m[y] + SumOver(m, s - {y});
    if y != x {
      SumOverExtract(m, s - {y}, x);
      SumOverExtract(m, s - {x}, y);
      assert s - {y} - {x} == s - {x} - {y};
    }
  }

  ghost function Score(g: Graph, seeds: set<string>, n: string, impact: map<string, real>): real {
    var explained := SumOver(impact, impact.Keys * seeds);
    var own := if n in seeds && !HasUpstream(g, n) then explained + 1.0 else explained;
    if HasUpstream(g, n) then own * UPSTREAM_PENALTY else own
  }

  predicate OnsetLeq(onset: map<string, real>, a: string, b: string) {
    b !in onset || (a in onset && onset[a] <= onset[b])
  }

  /** Higher score first, ties by earlier onset, a missing onset last. */
  predicate RanksBefore(onset: map<string, real>, a: Scored, b: Scored) {
    a.score > b.score || (a.score == b.score && OnsetLeq(onset, a.pod, b.pod))
  }

  /** The impacts and scores of every node. */
  ghost predicate Assessed(g: Graph, seeds: set<string>, nodes: seq<string>,
                           impacts: map<string, map<string, real>>, scores: map<string, real>) {
    forall n :: n in nodes ==>
      n in impacts && IsImpact(g, n, impacts[n]) && n in scores && scores[n] == Score(g, seeds, n, impacts[n])
  }

  /** `all` lists exactly the nodes with a positive score, each once. */
  ghost predicate ListsScores(scores: map<string, real>, nodes: seq<string>, all: seq<Scored>) {
    && (forall i, j :: 0 <= i < j < |all| ==> all[i].pod != all[j].pod)
    && (forall x :: x in all <==> x.pod in nodes && x.pod in scores && x.score == scores[x.pod] && x.score > 0.0)
  }

  /** The positive scores, in node order. */
  ghost function Positive(scores: map<string, real>, nodes: seq<string>): seq<Scored> {
    if nodes == [] then []
    else
      var before, n := Positive(scores, nodes[..|nodes| - 1]), nodes[|nodes| - 1];
      if n in scores && scores[n] > 0.0 then before + [Scored(n, scores[n])] else before
  }

  lemma {:induction false} PositiveKept(scores: map<string, real>, nodes: seq<string>, n: string, score: real)
    requires n !in nodes
    ensures Positive(scores[n := score], nodes) == Positive(scores, nodes)
  {
    if nodes != [] { PositiveKept(scores, nodes[..|nodes| - 1], n, score); }
  }

  lemma PositiveNext(scores: map<string, real>, nodes: seq<string>, n: string, score: real)
    requires n !in nodes
    ensures Positive(scores[n := score], nodes + [n]) ==
            if score > 0.0 then Positive(scores, nodes) + [Scored(n, score)] else Positive(scores, nodes)
  {
    PositiveKept(scores, nodes, n, score);
    assert (nodes + [n])[..|nodes|] == nodes;
  }

  ghost function Total(all: seq<Scored>): real {
    if all == [] then 0.0 else Total(all[..|all| - 1]) + all[|all| - 1].score
  }

  lemma {:induction false} TotalPositive(all: seq<Scored>)
    requires forall i :: 0 <= i < |all| ==> all[i].score > 0.0
    ensures Total(all) >= 0.0 && (all != [] ==> Total(all) > 0.0)
  {
    if all != [] { TotalPositive(all[..|all| - 1]); }
  }

  /** The seeds on the graph, or every node when there are none. */
  function SeedSet(g: Graph, seeds: seq<string>): set<string> {
    var on := set s | s in seeds && s in g.nodes;
    if on != {} then on else set n | n in g.nodes
  }

  // ---- The scoring loop ----

  method Explain(impact: map<string, real>, seeds: set<string>) returns (sum: real)
    ensures sum == SumOver(impact, impact.Keys * seeds)
  {
    sum := 0.0;
    var todo := impact.Keys * seeds;
    while todo != {}
      invariant todo <= impact.Keys * seeds
      invariant sum + SumOver(impact, todo) == SumOver(impact, impact.Keys * seeds)
      decreases todo
    {
      var s :| s in todo;
      SumOverExtract(impact, todo, s);
      sum := sum + impact[s];
      todo := todo - {s};
    }
  }

  method ScoreNode(g: Graph, seeds: set<string>, n: string, ghost degree: nat)
    returns (explain: real, ghost impact: map<string, real>)
    requires WellFormed(g) && UnitWeights(g) && DegreeBound(g, degree) && n in g.nodes
    ensures IsImpact(g, n, impact) && explain == Score(g, seeds, n, impact)
    ensures forall m :: IsImpact(g, n, m) ==> explain == Score(g, seeds, n, m)
  {
    var imp, _ := ForwardImpact(g, n, degree);
    impact := imp;
    explain := Explain(imp, seeds);
    if n in seeds && !HasUpstream(g, n) {
      explain := explain + 1.0;
    }
    if HasUpstream(g, n) {
      explain := explain * UPSTREAM_PENALTY;
    }
    forall m | IsImpact(g, n, m) ensures m == impact { ImpactUnique(g, n, m, impact); }
  }

  lemma ListsScoresNext(scores: map<string, real>, done: seq<string>, n: string, score: real, all: seq<Scored>)
    requires ListsScores(scores, done, all) && n !in done
    ensures ListsScores(scores[n := score], done + [n], if score > 0.0 then all + [Scored(n, score)] else all)
  {
  }

  /** The first nodes are assessed, and their positive scores listed in node order. */
  ghost predicate Tabled(g: Graph, seeds: set<string>, nodes: seq<string>, impacts: map<string, map<string, real>>,
                         scores: map<string, real>, all: seq<Scored>) {
    Assessed(g, seeds, nodes, impacts, scores) && ListsScores(scores, nodes, all) && all == Positive(scores, nodes)
  }

  lemma AssessedNext(g: Graph, seeds: set<string>, done: seq<string>, n: string, impacts: map<string, map<string, real>>,
                     scores: map<string, real>, impact: map<string, real>, score: real)
    requires Assessed(g, seeds, done, impacts, scores) && n !in done
    requires IsImpact(g, n, impact) && score == Score(g, seeds, n, impact)
    ensures Assessed(g, seeds, done + [n], impacts[n := impact], scores[n := score])
  {
  }

  lemma TabledNext(g: Graph, seeds: set<string>, done: seq<string>, n: string, impacts: map<string, map<string, real>>,
                   scores: map<string, real>, all: seq<Scored>, impact: map<string, real>, score: real)
    requires Tabled(g, seeds, done, impacts, scores, all) && n !in done
    requires IsImpact(g, n, impact) && score == Score(g, seeds, n, impact)
    ensures Tabled(g, seeds, done + [n], impacts[n := impact], scores[n := score],
                   if score > 0.0 then all + [Scored(n, score)] else all)
  {
    AssessedNext(g, seeds, done, n, impacts, scores, impact, score);
    ListsScoresNext(scores, done, n, score, all);
    PositiveNext(scores, done, n, score);
  }

  method ScoreAll(g: Graph, seeds: set<string>, ghost degree: nat)
    returns (all: seq<Scored>, ghost impacts: map<string, map<string, real>>, ghost scores: map<string, real>)
    requires WellFormed(g) && UnitWeights(g) && DegreeBound(g, degree)
    ensures Assessed(g, seeds, g.nodes, impacts, scores) && ListsScores(scores, g.nodes, all)
    ensures all == Positive(scores, g.nodes)
  {
    all, impacts, scores := [], map[], map[];
    for i := 0 to |g.nodes|
      invariant Tabled(g, seeds, g.nodes[..i], impacts, scores, all)
    {
      var n := g.nodes[i];
      ghost var impact;
      var explain;
      explain, impact := ScoreNode(g, seeds, n, degree);
      assert n !in g.nodes[..i];
      TabledNext(g, seeds, g.nodes[..i], n, impacts, scores, all, impact, explain);
      TakeNext(g.nodes, i);
      if explain > 0.0 {
        all := all + [Scored(n, explain)];
      }
      impacts, scores := impacts[n := impact], scores[n := explain];
    }
    TakeAll(g.nodes);
  }

  function ByRank(onset: map<string, real>): (Scored, Scored) -> bool {
    (a: Scored, b: Scored) => RanksBefore(onset, a, b)
  }

  lemma RanksBeforeIsPreorder(onset: map<string, real>)
    ensures TotalPreorder(ByRank(onset))
  {
  }

  lemma ListsScoresPermuted(scores: map<string, real>, nodes: seq<string>, all: seq<Scored>, all': seq<Scored>)
    requires ListsScores(scores, nodes, all) && multiset(all) == multiset(all')
    ensures ListsScores(scores, nodes, all')
  {
    forall x ensures x in all' <==> x in all {
      assert x in all' <==> x in multiset(all');
    }
    var key := (x: Scored) => x.pod;
    assert DistinctBy(all, key);
    DistinctPermuted(all, all', key);
    forall i, j | 0 <= i < j < |all'| ensures all'[i].pod != all'[j].pod {
      assert key(all'[i]) != key(all'[j]);
    }
  }

  /** The row shown for a scored pod: its share of the total, and its onset if it has one. */
  ghost predicate RowFor(r: Ranked, x: Scored, total: real, onset: map<string, real>) {
    && r.pod == x.pod
    && Product(r.share, total) == x.score
    && r.onset == (if x.pod in onset then Some(onset[x.pod]) else None)
  }

  /** The first `top` rows of the full ranking. */
  ghost predicate TopRows(ranking: seq<Ranked>, all: seq<Scored>, onset: map<string, real>, top: nat) {
    && |ranking| == (if top < |all| then top else |all|)
    && forall i :: 0 <= i < |ranking| ==> RowFor(ranking[i], all[i], Total(all), onset)
  }

  method RowOf(x: Scored, total: real, onset: map<string, real>) returns (r: Ranked)
    requires total > 0.0
    ensures RowFor(r, x, total, onset)
  {
    r := Ranked(x.pod, x.score / total, if x.pod in onset then Some(onset[x.pod]) else None);
  }

  method SumScores(all: seq<Scored>) returns (total: real)
    ensures total == Total(all)
  {
    total := 0.0;
    for i := 0 to |all|
      invariant total == Total(all[..i])
    {
      assert all[..i + 1][..i] == all[..i];
      total := total + all[i].score;
    }
    assert all[..|all|] == all;
  }

  method Normalise(all: seq<Scored>, onset: map<string, real>, top: nat) returns (ranking: seq<Ranked>)
    requires forall i :: 0 <= i < |all| ==> all[i].score > 0.0
    ensures TopRows(ranking, all, onset, top)
  {
    var total := SumScores(all);
    TotalPositive(all);
    ranking := [];
    for i := 0 to if top < |all| then top else |all|
      invariant |ranking| == i
      invariant forall j :: 0 <= j < i ==> RowFor(ranking[j], all[j], total, onset)
    {
      var row := RowOf(all[i], total, onset);
      ranking := ranking + [row];
    }
  }

  /** Every node with a positive score is ranked, by score, then by onset, and then as the graph lists it. */
  ghost predicate IsRanking(g: Graph, seeds: set<string>, onset: map<string, real>,
                            impacts: map<string, map<string, real>>, scores: map<string, real>, all: seq<Scored>) {
    && Assessed(g, seeds, g.nodes, impacts, scores)
    && ListsScores(scores, g.nodes, all)
    && IsStableSort(Positive(scores, g.nodes), all, ByRank(onset))
  }

  method RankRootCauses(g: Graph, seeds: seq<string>, onset: map<string, real>, top: nat, ghost degree: nat)
    returns (ranking: seq<Ranked>, ghost all: seq<Scored>,
             ghost impacts: map<string, map<string, real>>, ghost scores: map<string, real>)
    requires WellFormed(g) && UnitWeights(g) && DegreeBound(g, degree)
    ensures g.arcs == map[] ==> ranking == []
    ensures g.arcs != map[] ==> IsRanking(g, SeedSet(g, seeds), onset, impacts, scores, all) && TopRows(ranking, all, onset, top)
  {
    ranking, all, impacts, scores := [], [], map[], map[];
    if g.arcs == map[] {
      return;
    }
    var listed;
    listed, impacts, scores := ScoreAll(g, SeedSet(g, seeds), degree);
    RanksBeforeIsPreorder(onset);
    SortByIsStable(listed, ByRank(onset));
    var ranked := SortBy(listed, ByRank(onset));
    ListsScoresPermuted(scores, g.nodes, listed, ranked);
    assert forall i :: 0 <= i < |ranked| ==> ranked[i] in ranked;
    all := ranked;
    ranking := Normalise(ranked, onset, top);
  }

  // ---- What a score is ----

  /** No arc leads into n. */
  ghost predicate Unexplained(g: Graph, n: string) { forall u :: (u, n) !in g.arcs }

  lemma UnexplainedMeans(g: Graph, n: string)
    requires WellFormed(g)
    ensures Unexplained(g, n) <==> !HasUpstream(g, n)
  {
  }

  lemma SumOverOne(m: map<string, real>, s: string)
    ensures SumOver(m, m.Keys * {s}) == if s in m then m[s] else 0.0
  {
    if s in m {
      assert m.Keys * {s} == {s} && {s} - {s} == {};
      SumOverExtract(m, {s}, s);
    } else {
      assert m.Keys * {s} == {};
    }
  }

  /** The symptoms count one by one. */
  lemma ScoreAdds(g: Graph, seeds: set<string>, s: string, n: string, impact: map<string, real>)
    requires s in seeds
    ensures Score(g, seeds, n, impact) == Score(g, {s}, n, impact) + Score(g, seeds - {s}, n, impact)
  {
    var k := impact.Keys;
    SumOverOne(impact, s);
    assert k * (seeds - {s}) == k * seeds - {s};
    if s in impact {
      SumOverExtract(impact, k * seeds, s);
    } else {
      assert k * seeds - {s} == k * seeds;
    }
  }

  /** p is a best walk from n to s, and carries CUT. */
  ghost predicate IsBestWalk(g: Graph, n: string, s: string, p: seq<string>) {
    && Reaches(g, n, p) && Last(p) == s && Value(g, p) >= CUT
    && forall q :: Reaches(g, n, q) && Last(q) == s ==> Value(g, q) <= Value(g, p)
  }

  lemma BestWalkDecides(g: Graph, n: string, s: string, impact: map<string, real>, p: seq<string>)
    requires IsImpact(g, n, impact) && IsBestWalk(g, n, s, p)
    ensures s in impact && impact[s] == Value(g, p)
  {
    ImpactDominates(g, n, impact, p);
    var q := BestWalk(g, n, impact, s);
  }

  lemma ImpactHasBestWalk(g: Graph, n: string, s: string, impact: map<string, real>) returns (p: seq<string>)
    requires IsImpact(g, n, impact) && s in impact
    ensures IsBestWalk(g, n, s, p)
  {
    p := BestWalk(g, n, impact, s);
    forall q | Reaches(g, n, q) && Last(q) == s ensures Value(g, q) <= Value(g, p) {
      if Value(g, q) >= CUT { ImpactDominates(g, n, impact, q); }
    }
  }

  /** A lone symptom counts at n with its best walk, if one carries CUT, and with 1 when it is n itself and nothing explains it. */
  ghost predicate LoneScore(g: Graph, s: string, n: string, score: real) {
    if n == s && Unexplained(g, n) then score == 1.0
    else if Unexplained(g, n) then LoneReach(g, n, s, score)
    else LoneReach(g, n, s, score + score)
  }

  ghost predicate LoneReach(g: Graph, n: string, s: string, x: real) {
    || (exists p :: IsBestWalk(g, n, s, p) && x == Value(g, p))
    || (x == 0.0 && forall p :: Reaches(g, n, p) && Last(p) == s ==> Value(g, p) < CUT)
  }

  lemma ImpactIsLoneReach(g: Graph, n: string, s: string, impact: map<string, real>)
    requires IsImpact(g, n, impact)
    ensures LoneReach(g, n, s, if s in impact then impact[s] else 0.0)
  {
    if s in impact {
      var p := ImpactHasBestWalk(g, n, s, impact);
      BestWalkDecides(g, n, s, impact, p);
    }
  }

  lemma NotReached(g: Graph, n: string, impact: map<string, real>)
    requires IsImpact(g, n, impact) && Unexplained(g, n)
    ensures n !in impact
  {
    if n in impact {
      var p := BestWalk(g, n, impact, n);
      LastArc(g, p);
    }
  }

  lemma LastArc(g: Graph, p: seq<string>)
    requires IsWalk(g, p) && |p| >= 2
    ensures !Unexplained(g, Last(p))
  {
    assert (p[|p| - 2], p[|p| - 1]) in g.arcs;
  }

  /** With ScoreAdds this fixes the score of every node for every symptom set, by walks alone. */
  lemma LoneSymptomScore(g: Graph, s: string, n: string, impact: map<string, real>)
    requires WellFormed(g) && IsImpact(g, n, impact)
    ensures LoneScore(g, s, n, Score(g, {s}, n, impact))
  {
    UnexplainedMeans(g, n);
    SumOverOne(impact, s);
    ImpactIsLoneReach(g, n, s, impact);
    if n == s && Unexplained(g, n) { NotReached(g, n, impact); }
  }

  /** n is a symptom: it is named, or none of those named is on the graph. */
  predicate IsSymptom(g: Graph, seeds: seq<string>, n: string) {
    n in g.nodes && (n in seeds || forall s :: s in seeds ==> s !in g.nodes)
  }

  lemma SymptomSet(g: Graph, seeds: seq<string>, n: string)
    ensures n in SeedSet(g, seeds) <==> IsSymptom(g, seeds, n)
  {
    var on := set s | s in seeds && s in g.nodes;
    if on == {} {
      forall s | s in seeds ensures s !in g.nodes { assert s !in on; }
    } else {
      var s :| s in on;
    }
  }

  lemma SumNonNegative(g: Graph, n: string, impact: map<string, real>, s: set<string>)
    requires IsImpact(g, n, impact) && s <= impact.Keys
    ensures SumOver(impact, s) >= 0.0
    decreases s
  {
    if s != {} {
      var x :| x in s;
      SumOverExtract(impact, s, x);
      var p := BestWalk(g, n, impact, x);
      SumNonNegative(g, n, impact, s - {x});
    }
  }

  /** A symptom that nothing explains is a candidate for itself, with score at least 1, and exactly 1 when it is the only one. */
  lemma UnexplainedSymptomScores(g: Graph, seeds: set<string>, n: string, impact: map<string, real>)
    requires WellFormed(g) && IsImpact(g, n, impact) && n in seeds && Unexplained(g, n)
    ensures Score(g, seeds, n, impact) >= 1.0
    ensures seeds == {n} ==> Score(g, seeds, n, impact) == 1.0
  {
    UnexplainedMeans(g, n);
    SumNonNegative(g, n, impact, impact.Keys * seeds);
    LoneSymptomScore(g, n, n, impact);
  }

  /** The full ranking lists every symptom that nothing explains. */
  lemma UnexplainedSymptomRanked(g: Graph, seeds: seq<string>, onset: map<string, real>, impacts: map<string, map<string, real>>,
                                 scores: map<string, real>, all: seq<Scored>, n: string)
    returns (i: nat)
    requires WellFormed(g) && IsRanking(g, SeedSet(g, seeds), onset, impacts, scores, all)
    requires IsSymptom(g, seeds, n) && Unexplained(g, n)
    ensures i < |all| && all[i].pod == n && all[i].score >= 1.0
    ensures (forall s :: IsSymptom(g, seeds, s) ==> s == n) ==> all[i].score == 1.0
  {
    SymptomSet(g, seeds, n);
    UnexplainedSymptomScores(g, SeedSet(g, seeds), n, impacts[n]);
    assert Scored(n, scores[n]) in all;
    i := IndexOf(all, Scored(n, scores[n]));
    if forall s :: IsSymptom(g, seeds, s) ==> s == n {
      forall s ensures s in SeedSet(g, seeds) <==> s == n { SymptomSet(g, seeds, s); }
      assert SeedSet(g, seeds) == {n};
    }
  }

  /** With a lone symptom the ranking lists exactly the nodes that explain it, each with its walk. */
  lemma LoneSymptomRanked(g: Graph, s: string, onset: map<string, real>, impacts: map<string, map<string, real>>,
                          scores: map<string, real>, all: seq<Scored>, n: string, x: Scored)
    requires WellFormed(g) && IsRanking(g, {s}, onset, impacts, scores, all) && n in g.nodes && x.pod == n
    ensures x in all <==> x.score > 0.0 && LoneScore(g, s, n, x.score)
  {
    LoneSymptomScore(g, s, n, impacts[n]);
    if LoneScore(g, s, n, x.score) { LoneScoreUnique(g, s, n, x.score, scores[n]); }
  }

  lemma LoneScoreUnique(g: Graph, s: string, n: string, x: real, y: real)
    requires LoneScore(g, s, n, x) && LoneScore(g, s, n, y)
    ensures x == y
  {
  }

  /** A higher score is ranked first, then an earlier onset, a known onset before an unknown one, and then the earlier node. */
  lemma RankOrder(g: Graph, seeds: set<string>, onset: map<string, real>, impacts: map<string, map<string, real>>,
                  scores: map<string, real>, all: seq<Scored>, i: nat, j: nat)
    requires IsRanking(g, seeds, onset, impacts, scores, all) && i < j < |all|
    ensures all[i].score >= all[j].score
    ensures all[i].score == all[j].score && all[j].pod in onset ==> all[i].pod in onset && onset[all[i].pod] <= onset[all[j].pod]
    ensures all[i].score == all[j].score && SameOnset(onset, all[i].pod, all[j].pod) ==>
              exists a, b :: 0 <= a < b < |g.nodes| && g.nodes[a] == all[i].pod && g.nodes[b] == all[j].pod
  {
    assert ByRank(onset)(all[i], all[j]);
    if all[i].score == all[j].score && SameOnset(onset, all[i].pod, all[j].pod) {
      RanksBeforeIsPreorder(onset);
      var a, b := TiesKeepOrder(Positive(scores, g.nodes), all, ByRank(onset), i, j);
      a, b := PositiveFrom(scores, g.nodes, a, b);
    }
  }

  ghost predicate SameOnset(onset: map<string, real>, a: string, b: string) {
    if a in onset then b in onset && onset[a] == onset[b] else b !in onset
  }

  lemma {:induction false} PositiveFrom(scores: map<string, real>, nodes: seq<string>, i: nat, j: nat) returns (a: nat, b: nat)
    requires i < j < |Positive(scores, nodes)|
    ensures a < b < |nodes| && nodes[a] == Positive(scores, nodes)[i].pod && nodes[b] == Positive(scores, nodes)[j].pod
  {
    var front := nodes[..|nodes| - 1];
    if j < |Positive(scores, front)| {
      a, b := PositiveFrom(scores, front, i, j);
    } else {
      a := PositiveOneFrom(scores, front, i);
      b := |nodes| - 1;
    }
  }

  lemma {:induction false} PositiveOneFrom(scores: map<string, real>, nodes: seq<string>, i: nat) returns (a: nat)
    requires i < |Positive(scores, nodes)|
    ensures a < |nodes| && nodes[a] == Positive(scores, nodes)[i].pod
  {
    var front := nodes[..|nodes| - 1];
    if i < |Positive(scores, front)| {
      a := PositiveOneFrom(scores, front, i);
    } else {
      a := |nodes| - 1;
    }
  }

  // ---- A victim does not outrank its cause ----

  /** Impact flows back along the arc (u, v), unless the extra hop takes it under CUT. */
  lemma ImpactThroughArc(g: Graph, u: string, v: string, iu: map<string, real>, iv: map<string, real>, s: string)
    requires IsImpact(g, u, iu) && IsImpact(g, v, iv) && (u, v) in g.arcs && s in iv
    requires Through(g, u, v, iv[s]) >= CUT
    ensures s in iu && Through(g, u, v, iv[s]) <= iu[s]
  {
    var q := BestWalk(g, v, iv, s);
    WalkPrepend(g, u, q);
    ImpactDominates(g, u, iu, [u] + q);
  }

  lemma {:induction false} SumDominates(m: map<string, real>, s: set<string>, m': map<string, real>, s': set<string>)
    requires s <= m.Keys && s' <= m'.Keys && s <= s'
    requires forall x :: x in s ==> m[x] * UPSTREAM_PENALTY <= m'[x]
    requires forall x :: x in s' ==> m'[x] >= 0.0
    ensures SumOver(m, s) * UPSTREAM_PENALTY <= SumOver(m', s')
    decreases s'
  {
    if s' != {} {
      var x :| x in s';
      SumOverExtract(m', s', x);
      if x in s { SumOverExtract(m, s, x); }
      SumDominates(m, s - {x}, m', s' - {x});
      if x !in s { assert s - {x} == s; }
    }
  }

  lemma HalfOrMore(g: Graph, u: string, v: string, x: real)
    requires (u, v) in g.arcs && g.arcs[(u, v)].weight >= 5.0 / 7.0 && x >= 0.0
    ensures x * UPSTREAM_PENALTY <= Through(g, u, v, x)
  {
  }

  lemma ImpactUnderDecay(g: Graph, v: string, iv: map<string, real>, s: string)
    requires UnitWeights(g) && IsImpact(g, v, iv) && s in iv
    ensures CUT <= iv[s] <= DECAY
  {
    var q := BestWalk(g, v, iv, s);
    HopDecays(g, q);
    UnderOne(g, Front(q));
  }

  /** What v explains and u reaches at all, along whatever walk, u explains at least half as well. */
  lemma CauseExplainsHalf(g: Graph, seeds: set<string>, u: string, v: string, iu: map<string, real>, iv: map<string, real>)
    requires UnitWeights(g) && IsImpact(g, u, iu) && IsImpact(g, v, iv)
    requires (u, v) in g.arcs && g.arcs[(u, v)].weight >= 5.0 / 7.0 && iv.Keys * seeds <= iu.Keys
    ensures iv.Keys * seeds <= iu.Keys * seeds
    ensures forall s :: s in iv.Keys * seeds ==> iv[s] * UPSTREAM_PENALTY <= iu[s]
  {
    forall s | s in iv.Keys * seeds ensures s in iu && iv[s] * UPSTREAM_PENALTY <= iu[s] {
      ImpactUnderDecay(g, v, iv, s);
      HalfOrMore(g, u, v, iv[s]);
      if Through(g, u, v, iv[s]) >= CUT {
        ImpactThroughArc(g, u, v, iu, iv, s);
      } else {
        ImpactUnderDecay(g, u, iu, s);
      }
    }
  }

  lemma ArcImpact(g: Graph, u: string, v: string, iu: map<string, real>)
    requires IsImpact(g, u, iu) && (u, v) in g.arcs && g.arcs[(u, v)].weight >= 5.0 / 7.0
    ensures v in iu && iu[v] >= 0.5
  {
    WalkPrepend(g, u, [v]);
    assert Value(g, [v]) == 1.0;
    HalfOrMore(g, u, v, 1.0);
    ImpactDominates(g, u, iu, [u] + [v]);
  }

  lemma ArcIsUpstream(g: Graph, u: string, v: string)
    requires WellFormed(g) && (u, v) in g.arcs
    ensures HasUpstream(g, v) && u in g.nodes && v in g.nodes
  {
  }

  /** What v gains from being a symptom itself is more than half of what v explains of itself. */
  lemma SymptomOutexplained(iu: map<string, real>, iv: map<string, real>, seeds: set<string>, v: string)
    requires v in seeds && v in iu && iu[v] >= 0.5 && (v in iv ==> iv[v] <= DECAY)
    requires forall s :: s in iv.Keys * seeds ==> s in iu && iv[s] * UPSTREAM_PENALTY <= iu[s]
    requires forall s :: s in iu.Keys * seeds ==> iu[s] >= 0.0
    ensures SumOver(iu, iu.Keys * seeds) > SumOver(iv, iv.Keys * seeds) * UPSTREAM_PENALTY
  {
    var su, sv := iu.Keys * seeds, iv.Keys * seeds;
    SumOverExtract(iu, su, v);
    SumDominates(iv, sv - {v}, iu, su - {v});
    if v in sv {
      SumOverExtract(iv, sv, v);
    } else {
      assert sv - {v} == sv;
    }
  }

  /** u explains at least half of what v explains, and more than half when v is itself a symptom. */
  lemma CauseOutexplains(g: Graph, seeds: set<string>, u: string, v: string, iu: map<string, real>, iv: map<string, real>)
    requires UnitWeights(g) && IsImpact(g, u, iu) && IsImpact(g, v, iv)
    requires (u, v) in g.arcs && g.arcs[(u, v)].weight >= 5.0 / 7.0 && iv.Keys * seeds <= iu.Keys
    ensures SumOver(iu, iu.Keys * seeds) >= SumOver(iv, iv.Keys * seeds) * UPSTREAM_PENALTY
    ensures v in seeds ==> SumOver(iu, iu.Keys * seeds) > SumOver(iv, iv.Keys * seeds) * UPSTREAM_PENALTY
  {
    CauseExplainsHalf(g, seeds, u, v, iu, iv);
    forall s | s in iu.Keys * seeds ensures iu[s] >= 0.0 { ImpactUnderDecay(g, u, iu, s); }
    SumDominates(iv, iv.Keys * seeds, iu, iu.Keys * seeds);
    if v in seeds {
      ArcImpact(g, u, v, iu);
      if v in iv { ImpactUnderDecay(g, v, iv, v); }
      SymptomOutexplained(iu, iv, seeds, v);
    }
  }

  /**
   * The cause scores at least as much as a victim whose symptoms it reaches, and strictly more when the
   * victim is itself a symptom.
   */
  lemma VictimScoresNoMore(g: Graph, seeds: set<string>, u: string, v: string, iu: map<string, real>, iv: map<string, real>)
    requires WellFormed(g) && UnitWeights(g) && IsImpact(g, u, iu) && IsImpact(g, v, iv)
    requires !HasUpstream(g, u) && (u, v) in g.arcs && g.arcs[(u, v)].weight >= 5.0 / 7.0
    requires iv.Keys * seeds <= iu.Keys
    ensures Score(g, seeds, u, iu) >= Score(g, seeds, v, iv)
    ensures v in seeds ==> Score(g, seeds, u, iu) > Score(g, seeds, v, iv)
  {
    ArcIsUpstream(g, u, v);
    CauseOutexplains(g, seeds, u, v, iu, iv);
  }

  ghost predicate NotOutranked(g: Graph, u: string, v: string, iu: map<string, real>, iv: map<string, real>, seeds: set<string>) {
    Score(g, seeds, u, iu) >= Score(g, seeds, v, iv)
  }

  /** Whatever the symptoms are, v does not outrank u. */
  ghost predicate NeverOutranked(g: Graph, u: string, v: string, iu: map<string, real>, iv: map<string, real>) {
    forall seeds :: NotOutranked(g, u, v, iu, iv, seeds)
  }

  /** Only what it explains counts for a node that is no seed itself. */
  lemma ScoreOfBystander(g: Graph, seeds: set<string>, n: string, impact: map<string, real>)
    requires n !in seeds
    ensures Score(g, seeds, n, impact) ==
            SumOver(impact, impact.Keys * seeds) * (if HasUpstream(g, n) then UPSTREAM_PENALTY else 1.0)
  {
  }

  /** The single symptom s, which v reaches and u does not, makes v outrank u. */
  lemma MissedSymptom(g: Graph, u: string, v: string, iu: map<string, real>, iv: map<string, real>, s: string)
    requires s in iv && s !in iu && s != u && s != v && iv[s] > 0.0
    requires !HasUpstream(g, u) && HasUpstream(g, v)
    ensures !NotOutranked(g, u, v, iu, iv, {s})
  {
    assert iu.Keys * {s} == {} && iv.Keys * {s} == {s};
    SumOverExtract(iv, {s}, s);
    assert {s} - {s} == {};
    ScoreOfBystander(g, {s}, u, iu);
    ScoreOfBystander(g, {s}, v, iv);
  }

  lemma ReachedHasUpstream(g: Graph, n: string, impact: map<string, real>, s: string)
    requires WellFormed(g) && IsImpact(g, n, impact) && s in impact
    ensures HasUpstream(g, s)
  {
    var p := BestWalk(g, n, impact, s);
    assert (p[|p| - 2], p[|p| - 1]) in g.arcs;
    ArcIsUpstream(g, p[|p| - 2], s);
  }

  lemma MissedIsElsewhere(g: Graph, u: string, v: string, iu: map<string, real>, iv: map<string, real>, s: string)
    requires WellFormed(g) && UnitWeights(g) && IsImpact(g, u, iu) && IsImpact(g, v, iv)
    requires !HasUpstream(g, u) && (u, v) in g.arcs && g.arcs[(u, v)].weight >= 5.0 / 7.0 && s in iv && s !in iu
    ensures s != u && s != v && iv[s] > 0.0
  {
    ArcImpact(g, u, v, iu);
    ReachedHasUpstream(g, v, iv, s);
    ImpactUnderDecay(g, v, iv, s);
  }

  lemma OutrankedOnMissed(g: Graph, u: string, v: string, iu: map<string, real>, iv: map<string, real>, s: string)
    requires WellFormed(g) && UnitWeights(g) && IsImpact(g, u, iu) && IsImpact(g, v, iv)
    requires !HasUpstream(g, u) && (u, v) in g.arcs && g.arcs[(u, v)].weight >= 5.0 / 7.0 && s in iv && s !in iu
    ensures !NeverOutranked(g, u, v, iu, iv)
  {
    MissedIsElsewhere(g, u, v, iu, iv, s);
    ArcIsUpstream(g, u, v);
    MissedSymptom(g, u, v, iu, iv, s);
  }

  lemma ReachingAllSuffices(g: Graph, u: string, v: string, iu: map<string, real>, iv: map<string, real>)
    requires WellFormed(g) && UnitWeights(g) && IsImpact(g, u, iu) && IsImpact(g, v, iv)
    requires !HasUpstream(g, u) && (u, v) in g.arcs && g.arcs[(u, v)].weight >= 5.0 / 7.0 && iv.Keys <= iu.Keys
    ensures NeverOutranked(g, u, v, iu, iv)
  {
    forall seeds ensures NotOutranked(g, u, v, iu, iv, seeds) {
      VictimScoresNoMore(g, seeds, u, v, iu, iv);
    }
  }

  /** A cause is never outranked by its victim, whatever the symptoms, exactly when it reaches all its victim reaches. */
  lemma NeverOutrankedIff(g: Graph, u: string, v: string, iu: map<string, real>, iv: map<string, real>)
    requires WellFormed(g) && UnitWeights(g) && IsImpact(g, u, iu) && IsImpact(g, v, iv)
    requires !HasUpstream(g, u) && (u, v) in g.arcs && g.arcs[(u, v)].weight >= 5.0 / 7.0
    ensures NeverOutranked(g, u, v, iu, iv) <==> iv.Keys <= iu.Keys
  {
    if iv.Keys <= iu.Keys {
      ReachingAllSuffices(g, u, v, iu, iv);
    } else {
      var s :| s in iv && s !in iu;
      OutrankedOnMissed(g, u, v, iu, iv, s);
    }
  }

  lemma HigherScoreFirst(onset: map<string, real>, all: seq<Scored>, i: nat, j: nat)
    requires SortedBy(all, ByRank(onset))
    requires i < |all| && j < |all| && all[i].score > all[j].score
    ensures i < j
  {
  }

  /** In the ranking itself, a symptom that has such a cause never appears without the cause ahead of it. */
  lemma CauseRankedFirst(g: Graph, seeds: set<string>, onset: map<string, real>, impacts: map<string, map<string, real>>,
                         scores: map<string, real>, all: seq<Scored>, u: string, v: string, j: nat)
    returns (i: nat)
    requires WellFormed(g) && UnitWeights(g) && IsRanking(g, seeds, onset, impacts, scores, all)
    requires !HasUpstream(g, u) && (u, v) in g.arcs && g.arcs[(u, v)].weight >= 5.0 / 7.0
    requires u in impacts && v in impacts && v in seeds && impacts[v].Keys * seeds <= impacts[u].Keys
    requires j < |all| && all[j].pod == v
    ensures i < j && all[i].pod == u
  {
    ArcIsUpstream(g, u, v);
    assert all[j] in all && all[j].score == scores[v] > 0.0;
    VictimScoresNoMore(g, seeds, u, v, impacts[u], impacts[v]);
    assert Scored(u, scores[u]) in all;
    i :| 0 <= i < |all| && all[i] == Scored(u, scores[u]);
    HigherScoreFirst(onset, all, i, j);
  }

  // ---- A victim can outrank its cause ----

  /** The pods of a chain u -> v -> a -> s. */
  datatype Chain = Chain(u: string, v: string, a: string, s: string)
  {
    ghost predicate Distinct() { u != v && u != a && u != s && v != a && v != s && a != s }

    /** Three accepted correlations: r = 1, then 0.6 twice. */
    ghost function Edges(): seq<Edge> {
      [Edge(u, v, 1.0, 0, ["stat", "pvc"]), Edge(v, a, 0.6, 0, ["stat", "pvc"]), Edge(a, s, 0.6, 0, ["stat", "pvc"])]
    }

    ghost predicate Hop(x: string, y: string) { (x == u && y == v) || (x == v && y == a) || (x == a && y == s) }

    ghost predicate In(g: Graph) {
      && (u, v) in g.arcs && (v, a) in g.arcs && (a, s) in g.arcs
      && g.arcs[(u, v)].weight == 1.0 && g.arcs[(v, a)].weight == 0.6 && g.arcs[(a, s)].weight == 0.6
      && forall x, y :: (x, y) in g.arcs ==> Hop(x, y)
    }
  }

  lemma ChainIsBuilt(c: Chain, g: Graph)
    requires c.Distinct() && ArcsOf(g.arcs, c.Edges())
    ensures c.In(g)
  {
    var es := c.Edges();
    assert (es[0].src, es[0].dst) in g.arcs && (es[1].src, es[1].dst) in g.arcs && (es[2].src, es[2].dst) in g.arcs;
    forall x, y | (x, y) in g.arcs
      ensures c.Hop(x, y) && g.arcs[(x, y)].weight == (if x == c.u then 1.0 else 0.6)
    {
      var i := ArcOrigin(g, es, x, y);
    }
  }

  lemma ArcOrigin(g: Graph, es: seq<Edge>, x: string, y: string) returns (i: nat)
    requires ArcsOf(g.arcs, es) && (x, y) in g.arcs
    ensures i < |es| && es[i].src == x && es[i].dst == y && g.arcs[(x, y)] == Arc(Abs(es[i].r), es[i].lag)
  {
    assert ArcFrom(g.arcs[(x, y)], es, x, y);
    i :| IsLast(es, i, x, y) && g.arcs[(x, y)] == Arc(Abs(es[i].r), es[i].lag);
  }

  /** From v the symptom is reached with 0.42 * 0.42, from u only with 0.7 times that. */
  lemma ChainValues(c: Chain, g: Graph)
    requires c.Distinct() && c.In(g)
    ensures IsWalk(g, [c.v, c.a, c.s]) && Value(g, [c.v, c.a, c.s]) == 0.1764
    ensures IsWalk(g, [c.u, c.v, c.a, c.s]) && Value(g, [c.u, c.v, c.a, c.s]) == 0.12348
  {
    assert Value(g, [c.s]) == 1.0;
    WalkPrepend(g, c.a, [c.s]);
    assert [c.a] + [c.s] == [c.a, c.s];
    WalkPrepend(g, c.v, [c.a, c.s]);
    assert [c.v] + [c.a, c.s] == [c.v, c.a, c.s];
    WalkPrepend(g, c.u, [c.v, c.a, c.s]);
    assert [c.u] + [c.v, c.a, c.s] == [c.u, c.v, c.a, c.s];
  }

  lemma NoHopFromEnd(c: Chain, g: Graph, p: seq<string>)
    requires c.Distinct() && c.In(g) && IsWalk(g, p) && |p| > 4
    ensures p[3] != c.s
  {
    assert c.Hop(p[3], p[4]);
  }

  lemma ChainWalk(c: Chain, g: Graph, p: seq<string>)
    requires c.Distinct() && c.In(g) && Reaches(g, c.u, p) && Last(p) == c.s
    ensures p == [c.u, c.v, c.a, c.s]
  {
    assert c.Hop(p[0], p[1]);
    assert c.Hop(p[1], p[2]);
    assert c.Hop(p[2], p[3]);
    if |p| > 4 { NoHopFromEnd(c, g, p); }
  }

  lemma ChainHidesSymptom(c: Chain, g: Graph, iu: map<string, real>, iv: map<string, real>)
    requires c.Distinct() && c.In(g) && IsImpact(g, c.u, iu) && IsImpact(g, c.v, iv)
    ensures c.s !in iu && c.s in iv && iv[c.s] > 0.0
  {
    ChainValues(c, g);
    ImpactDominates(g, c.v, iv, [c.v, c.a, c.s]);
    if c.s in iu {
      var p := BestWalk(g, c.u, iu, c.s);
      ChainWalk(c, g, p);
    }
  }

  lemma ChainHead(c: Chain, g: Graph)
    requires c.Distinct() && c.In(g)
    ensures !HasUpstream(g, c.u)
  {
  }

  lemma ChainBlames(c: Chain, g: Graph, iu: map<string, real>, iv: map<string, real>)
    requires c.Distinct() && c.In(g) && IsImpact(g, c.u, iu) && IsImpact(g, c.v, iv)
    requires HasUpstream(g, c.v)
    ensures !NotOutranked(g, c.u, c.v, iu, iv, {c.s})
  {
    ChainHead(c, g);
    ChainHidesSymptom(c, g, iu, iv);
    MissedSymptom(g, c.u, c.v, iu, iv, c.s);
  }

  /** The condition can fail: at the head of the chain the symptom s is too faint, and v outranks its cause u. */
  lemma FaintSymptomBlamesVictim(c: Chain, g: Graph, iu: map<string, real>, iv: map<string, real>)
    requires c.Distinct() && Represents(g, c.Edges()) && IsImpact(g, c.u, iu) && IsImpact(g, c.v, iv)
    ensures Score(g, {c.s}, c.u, iu) < Score(g, {c.s}, c.v, iv)
  {
    ChainIsBuilt(c, g);
    ArcIsUpstream(g, c.u, c.v);
    ChainBlames(c, g, iu, iv);
    assert !NotOutranked(g, c.u, c.v, iu, iv, {c.s});
  }
}
