/** `blast_radius`: breadth-first forward reachability with decay, predicting victims and their ETA. */
module BlastRadius {
  import opened Digraph
  import opened Reach
  import opened Sorting

  datatype Report = Report(pod: string, impact: real, eta: int)

  /** The path along which each node was reached. */
  type Paths = map<string, seq<string>>

  // ---- Specification ----

  /** The report follows the simple path p from root, for its impact and its ETA alike. */
  ghost predicate Follows(g: Graph, root: string, x: Report, p: seq<string>) {
    && Reaches(g, root, p) && NoRepeats(p) && Last(p) == x.pod
    && x.impact == Value(g, p) && x.impact >= CUT
    && x.eta == LagSum(g, p)
  }

  /** v has a path, at most one hop longer than u's. */
  ghost predicate NextLevel(via: Paths, u: string, v: string) {
    u in via && v in via && |via[v]| <= |via[u]| + 1
  }

  /** The arcs out of u, reached with impact x, fade out or lead to a reached node no deeper than the next level. */
  ghost predicate Contained(g: Graph, via: Paths, u: string, x: real) {
    forall v :: (u, v) in g.arcs ==> Carry(g, x, u, v) < CUT || NextLevel(via, u, v)
  }

  /** The reached nodes are the root and the reported pods, each reported once along its path. */
  ghost predicate Sound(g: Graph, root: string, out: seq<Report>, via: Paths) {
    && (forall i, j :: 0 <= i < j < |out| ==> out[i].pod != out[j].pod)
    && root in via && via[root] == [root]
    && (forall x :: x in out ==> x.pod != root && x.pod in via && Follows(g, root, x, via[x.pod]))
    && (forall n :: n in via && n != root ==> exists x :: x in out && x.pod == n)
  }

  /** Nothing that carries CUT escapes, and the paths are breadth-first. */
  ghost predicate IsBlast(g: Graph, root: string, out: seq<Report>, via: Paths) {
    && Sound(g, root, out, via)
    && Contained(g, via, root, 1.0)
    && forall x :: x in out ==> Contained(g, via, x.pod, x.impact)
  }

  /** Worst first, as the rounded impacts compare. */
  function ByImpact(round: real -> real): (Report, Report) -> bool {
    (a: Report, b: Report) => round(a.impact) >= round(b.impact)
  }

  lemma ByImpactIsPreorder(round: real -> real)
    ensures TotalPreorder(ByImpact(round))
  {
  }

  /** The k-th visited pod: the root, and then the reported pods in order. */
  function PodAt(root: string, found: seq<Report>, k: nat): string
    requires k <= |found|
  {
    if k == 0 then root else found[k - 1].pod
  }

  /** The visit a pod was found in, and the arc of that visit which led to it. */
  datatype Step = Step(visit: nat, arc: nat)
  {
    predicate Before(s: Step) { visit < s.visit || (visit == s.visit && arc < s.arc) }
  }

  /** The i-th report was found through the given step, one hop beyond the pod of that visit. */
  ghost predicate FoundBy(g: Graph, root: string, via: Paths, found: seq<Report>, i: nat, s: Step)
    requires i < |found|
  {
    && s.visit <= i
    && var parent := PodAt(root, found, s.visit);
       && s.arc < |Successors(g, parent)| && Successors(g, parent)[s.arc] == found[i].pod
       && parent in via && found[i].pod in via && via[found[i].pod] == via[parent] + [found[i].pod]
  }

  /** Pods are reported visit by visit, and within a visit in the order of the arcs. */
  ghost predicate InVisitOrder(g: Graph, root: string, via: Paths, found: seq<Report>, steps: seq<Step>) {
    && |steps| == |found|
    && (forall i :: 0 <= i < |found| ==> FoundBy(g, root, via, found, i, steps[i]))
    && (forall i, j :: 0 <= i < j < |found| ==> steps[i].Before(steps[j]))
  }

  // ---- What the search keeps ----

  datatype Entry = Entry(pod: string, impact: real, eta: int)

  /** The entry was reached along its path, which stays inside the reached nodes. */
  ghost predicate Along(g: Graph, root: string, via: Paths, e: Entry) {
    && e.pod in via && e.pod in g.nodes
    && var p := via[e.pod];
       && IsWalk(g, p) && p[0] == root && NoRepeats(p) && Last(p) == e.pod
       && e.impact == Value(g, p) && e.eta == LagSum(g, p)
       && forall n :: n in p ==> n in via
  }

  ghost predicate Queued(g: Graph, root: string, via: Paths, frontier: seq<Entry>) {
    forall i :: 0 <= i < |frontier| ==> Along(g, root, via, frontier[i])
  }

  /** Everything reached is at most one level below `level`, and the frontier goes level by level from there. */
  ghost predicate Levelled(via: Paths, frontier: seq<Entry>, level: nat) {
    && (forall n :: n in via ==> |via[n]| <= level + 1)
    && (forall i :: 0 <= i < |frontier| ==> frontier[i].pod in via && level <= |via[frontier[i].pod]|)
    && (forall i, j :: 0 <= i < j < |frontier| ==> |via[frontier[i].pod]| <= |via[frontier[j].pod]|)
  }

  ghost predicate Handled(g: Graph, via: Paths, frontier: seq<Entry>, current: set<Entry>, e: Entry) {
    e in frontier || e in current || Contained(g, via, e.pod, e.impact)
  }

  ghost predicate Closed(g: Graph, root: string, via: Paths, out: seq<Report>, frontier: seq<Entry>, current: set<Entry>) {
    && Handled(g, via, frontier, current, Entry(root, 1.0, 0))
    && forall x :: x in out ==> Handled(g, via, frontier, current, Entry(x.pod, x.impact, x.eta))
  }

  lemma PopKeepsClosed(g: Graph, root: string, via: Paths, out: seq<Report>, frontier: seq<Entry>)
    requires Closed(g, root, via, out, frontier, {}) && frontier != []
    ensures Closed(g, root, via, out, frontier[1..], {frontier[0]})
  {
  }

  lemma PopKeepsLevels(via: Paths, frontier: seq<Entry>, level: nat)
    requires Levelled(via, frontier, level) && frontier != []
    ensures Levelled(via, frontier[1..], |via[frontier[0].pod]|)
  {
  }

  lemma FinishKeepsClosed(g: Graph, root: string, via: Paths, out: seq<Report>, frontier: seq<Entry>, e: Entry)
    requires Closed(g, root, via, out, frontier, {e}) && Contained(g, via, e.pod, e.impact)
    ensures Closed(g, root, via, out, frontier, {})
  {
  }

  lemma ReportKeepsClosed(g: Graph, root: string, via: Paths, out: seq<Report>, frontier: seq<Entry>,
                          current: set<Entry>, e: Entry, p: seq<string>)
    requires Closed(g, root, via, out, frontier, current) && e.pod !in via
    ensures Closed(g, root, via[e.pod := p], out + [Report(e.pod, e.impact, e.eta)], frontier + [e], current)
  {
  }

  lemma ReportKeepsSound(g: Graph, root: string, via: Paths, out: seq<Report>, x: Report, p: seq<string>)
    requires Sound(g, root, out, via) && x.pod !in via && Follows(g, root, x, p)
    ensures Sound(g, root, out + [x], via[x.pod := p])
  {
  }

  lemma ReportKeepsQueued(g: Graph, root: string, via: Paths, frontier: seq<Entry>, n: string, p: seq<string>)
    requires Queued(g, root, via, frontier) && n !in via
    ensures Queued(g, root, via[n := p], frontier)
  {
  }

  lemma ReportKeepsLevels(via: Paths, frontier: seq<Entry>, level: nat, e: Entry, p: seq<string>)
    requires Levelled(via, frontier, level) && e.pod !in via && |p| == level + 1
    ensures Levelled(via[e.pod := p], frontier + [e], level)
  {
  }

  lemma ExtendAlong(g: Graph, root: string, via: Paths, e: Entry, v: string)
    requires Along(g, root, via, e) && (e.pod, v) in g.arcs && v in g.nodes && v !in via
    requires Carry(g, e.impact, e.pod, v) >= CUT
    ensures var e', p := Entry(v, Carry(g, e.impact, e.pod, v), e.eta + g.arcs[(e.pod, v)].lag), via[e.pod] + [v];
            && Along(g, root, via[v := p], e')
            && Follows(g, root, Report(e'.pod, e'.impact, e'.eta), p)
  {
  }

  /** The first n arcs out of u have been followed. */
  ghost predicate FollowedTo(g: Graph, via: Paths, u: string, x: real, succ: seq<string>, n: nat) {
    n <= |succ| && forall k :: 0 <= k < n ==> (u, succ[k]) in g.arcs && (Carry(g, x, u, succ[k]) < CUT || NextLevel(via, u, succ[k]))
  }

  lemma ReportFollows(g: Graph, via: Paths, u: string, x: real, succ: seq<string>, n: nat, p: seq<string>)
    requires FollowedTo(g, via, u, x, succ, n) && n < |succ| && (u, succ[n]) in g.arcs
    requires u in via && succ[n] !in via && |p| == |via[u]| + 1
    ensures FollowedTo(g, via[succ[n] := p], u, x, succ, n + 1)
  {
  }

  lemma SkipFollows(g: Graph, via: Paths, u: string, x: real, succ: seq<string>, n: nat)
    requires FollowedTo(g, via, u, x, succ, n) && n < |succ| && (u, succ[n]) in g.arcs
    requires Carry(g, x, u, succ[n]) < CUT || NextLevel(via, u, succ[n])
    ensures FollowedTo(g, via, u, x, succ, n + 1)
  {
  }

  /** The state of the search while e is expanded. */
  ghost predicate Searching(g: Graph, root: string, via: Paths, out: seq<Report>, frontier: seq<Entry>, current: set<Entry>, level: nat) {
    Sound(g, root, out, via) && Queued(g, root, via, frontier) && Closed(g, root, via, out, frontier, current)
    && Levelled(via, frontier, level)
  }

  lemma ReportKeepsSearching(g: Graph, root: string, via: Paths, out: seq<Report>, frontier: seq<Entry>, e: Entry, v: string)
    requires Along(g, root, via, e) && Searching(g, root, via, out, frontier, {e}, |via[e.pod]|)
    requires (e.pod, v) in g.arcs && v in g.nodes && v !in via && Carry(g, e.impact, e.pod, v) >= CUT
    ensures var e', p := Entry(v, Carry(g, e.impact, e.pod, v), e.eta + g.arcs[(e.pod, v)].lag), via[e.pod] + [v];
            && Searching(g, root, via[v := p], out + [Report(e'.pod, e'.impact, e'.eta)], frontier + [e'], {e}, |via[e.pod]|)
            && Along(g, root, via[v := p], e)
  {
    var e', p := Entry(v, Carry(g, e.impact, e.pod, v), e.eta + g.arcs[(e.pod, v)].lag), via[e.pod] + [v];
    ExtendAlong(g, root, via, e, v);
    ReportKeepsSound(g, root, via, out, Report(e'.pod, e'.impact, e'.eta), p);
    ReportKeepsQueued(g, root, via, frontier, v, p);
    ReportKeepsQueued(g, root, via, [e], v, p);
    assert [e][0] == e;
    ReportKeepsClosed(g, root, via, out, frontier, {e}, e', p);
    ReportKeepsLevels(via, frontier, |via[e.pod]|, e', p);
  }

  function EntryAt(root: string, out: seq<Report>, k: nat): Entry
    requires k <= |out|
  {
    if k == 0 then Entry(root, 1.0, 0) else Entry(out[k - 1].pod, out[k - 1].impact, out[k - 1].eta)
  }

  /** During visit k, after n arcs: the frontier holds exactly the visits still to come. */
  ghost predicate Ordered(g: Graph, root: string, via: Paths, out: seq<Report>, frontier: seq<Entry>, steps: seq<Step>, k: nat, n: nat) {
    && InVisitOrder(g, root, via, out, steps)
    && k <= |out| && |frontier| == |out| - k
    && (forall i :: 0 <= i < |frontier| ==> frontier[i] == EntryAt(root, out, k + 1 + i))
    && (forall i :: 0 <= i < |out| ==> steps[i].Before(Step(k, n)))
  }

  lemma FoundByKept(g: Graph, root: string, via: Paths, out: seq<Report>, i: nat, s: Step, x: Report, p: seq<string>)
    requires i < |out| && FoundBy(g, root, via, out, i, s) && x.pod !in via
    ensures FoundBy(g, root, via[x.pod := p], out + [x], i, s)
  {
    assert PodAt(root, out + [x], s.visit) == PodAt(root, out, s.visit);
  }

  lemma ReportKeepsOrder(g: Graph, root: string, via: Paths, out: seq<Report>, frontier: seq<Entry>, steps: seq<Step>,
                         k: nat, n: nat, x: Report)
    requires Ordered(g, root, via, out, frontier, steps, k, n) && x.pod !in via && PodAt(root, out, k) in via
    requires n < |Successors(g, PodAt(root, out, k))| && Successors(g, PodAt(root, out, k))[n] == x.pod
    ensures Ordered(g, root, via[x.pod := via[PodAt(root, out, k)] + [x.pod]], out + [x],
                    frontier + [Entry(x.pod, x.impact, x.eta)], steps + [Step(k, n)], k, n + 1)
  {
    var u := PodAt(root, out, k);
    var via', out', steps' := via[x.pod := via[u] + [x.pod]], out + [x], steps + [Step(k, n)];
    forall i | 0 <= i < |out'| ensures FoundBy(g, root, via', out', i, steps'[i]) {
      if i < |out| { FoundByKept(g, root, via, out, i, steps[i], x, via[u] + [x.pod]); }
    }
  }

  lemma SkipKeepsOrder(g: Graph, root: string, via: Paths, out: seq<Report>, frontier: seq<Entry>, steps: seq<Step>, k: nat, n: nat)
    requires Ordered(g, root, via, out, frontier, steps, k, n)
    ensures Ordered(g, root, via, out, frontier, steps, k, n + 1)
  {
  }

  /** The next visit is that of the head of the frontier. */
  lemma PopKeepsOrder(g: Graph, root: string, via: Paths, out: seq<Report>, frontier: seq<Entry>, steps: seq<Step>, k: nat, n: nat)
    requires Ordered(g, root, via, out, frontier, steps, k, n) && frontier != []
    ensures Ordered(g, root, via, out, frontier[1..], steps, k + 1, 0) && frontier[0] == EntryAt(root, out, k + 1)
  {
  }

  /** The state while the first n arcs of visit k, that of e, have been followed. */
  ghost predicate Visiting(g: Graph, root: string, via: Paths, out: seq<Report>, frontier: seq<Entry>, steps: seq<Step>,
                           e: Entry, k: nat, n: nat) {
    && Along(g, root, via, e) && Searching(g, root, via, out, frontier, {e}, |via[e.pod]|)
    && FollowedTo(g, via, e.pod, e.impact, Successors(g, e.pod), n)
    && Ordered(g, root, via, out, frontier, steps, k, n) && e == EntryAt(root, out, k)
  }

  lemma SkipKeepsVisiting(g: Graph, root: string, via: Paths, out: seq<Report>, frontier: seq<Entry>, steps: seq<Step>,
                          e: Entry, k: nat, n: nat)
    requires Visiting(g, root, via, out, frontier, steps, e, k, n) && n < |Successors(g, e.pod)|
    requires var v := Successors(g, e.pod)[n]; (e.pod, v) in g.arcs && (v in via || Carry(g, e.impact, e.pod, v) < CUT)
    ensures Visiting(g, root, via, out, frontier, steps, e, k, n + 1)
  {
    var v := Successors(g, e.pod)[n];
    assert v in via ==> NextLevel(via, e.pod, v);
    SkipFollows(g, via, e.pod, e.impact, Successors(g, e.pod), n);
    SkipKeepsOrder(g, root, via, out, frontier, steps, k, n);
  }

  lemma ReportKeepsVisiting(g: Graph, root: string, via: Paths, out: seq<Report>, frontier: seq<Entry>, steps: seq<Step>,
                            e: Entry, k: nat, n: nat, x: Report)
    requires Visiting(g, root, via, out, frontier, steps, e, k, n) && n < |Successors(g, e.pod)|
    requires x.pod == Successors(g, e.pod)[n] && (e.pod, x.pod) in g.arcs && x.pod in g.nodes && x.pod !in via
    requires x.impact == Carry(g, e.impact, e.pod, x.pod) >= CUT && x.eta == e.eta + g.arcs[(e.pod, x.pod)].lag
    ensures e.pod in via
    ensures Visiting(g, root, via[x.pod := via[e.pod] + [x.pod]], out + [x], frontier + [Entry(x.pod, x.impact, x.eta)],
                     steps + [Step(k, n)], e, k, n + 1)
  {
    ReportKeepsSearching(g, root, via, out, frontier, e, x.pod);
    ReportFollows(g, via, e.pod, e.impact, Successors(g, e.pod), n, via[e.pod] + [x.pod]);
    ReportKeepsOrder(g, root, via, out, frontier, steps, k, n, x);
  }

  lemma FinishKeeps(g: Graph, root: string, via: Paths, out: seq<Report>, frontier: seq<Entry>, steps: seq<Step>, e: Entry, k: nat, n: nat)
    requires Visiting(g, root, via, out, frontier, steps, e, k, n) && n == |Successors(g, e.pod)|
    requires forall v :: (e.pod, v) in g.arcs ==> v in Successors(g, e.pod)
    ensures Searching(g, root, via, out, frontier, {}, |via[e.pod]|)
  {
    assert Contained(g, via, e.pod, e.impact);
    FinishKeepsClosed(g, root, via, out, frontier, e);
  }

  /** The visited set grows by graph nodes only, and not at all unless something is queued; e keeps its path p. */
  ghost predicate Grown(g: Graph, seen0: set<string>, frontier0: seq<Entry>, seen: set<string>, frontier: seq<Entry>,
                        via: Paths, e: Entry, p: seq<string>) {
    && seen == via.Keys && seen0 <= seen && (seen == seen0 ==> frontier == frontier0)
    && (forall n :: n in seen && n !in seen0 ==> n in g.nodes)
    && e.pod in via && via[e.pod] == p
  }

  lemma ReportKeepsGrown(g: Graph, seen0: set<string>, frontier0: seq<Entry>, seen: set<string>, frontier: seq<Entry>,
                         via: Paths, e: Entry, p: seq<string>, e': Entry, p': seq<string>)
    requires Grown(g, seen0, frontier0, seen, frontier, via, e, p) && e'.pod !in seen && e'.pod in g.nodes
    ensures Grown(g, seen0, frontier0, seen + {e'.pod}, frontier + [e'], via[e'.pod := p'], e, p)
  {
    assert e'.pod !in seen0 && e'.pod in seen + {e'.pod};
  }

  method Expand(g: Graph, root: string, e: Entry, seen0: set<string>, out0: seq<Report>, frontier0: seq<Entry>,
                ghost via0: Paths, ghost steps0: seq<Step>, ghost visit: nat)
    returns (seen: set<string>, out: seq<Report>, frontier: seq<Entry>, ghost via: Paths, ghost steps: seq<Step>)
    requires e.pod in g.succ && seen0 == via0.Keys
    requires forall n :: (e.pod, n) in g.arcs <==> n in g.succ[e.pod]
    requires forall n :: n in g.succ[e.pod] ==> n in g.nodes
    requires Visiting(g, root, via0, out0, frontier0, steps0, e, visit, 0)
    ensures seen == via.Keys && seen0 <= seen && (seen == seen0 ==> frontier == frontier0)
    ensures forall n :: n in seen && n !in seen0 ==> n in g.nodes
    ensures Searching(g, root, via, out, frontier, {}, |via0[e.pod]|)
    ensures Ordered(g, root, via, out, frontier, steps, visit, |g.succ[e.pod]|)
  {
    seen, out, frontier, via, steps := seen0, out0, frontier0, via0, steps0;
    var succ := g.succ[e.pod];
    for i := 0 to |succ|
      invariant Grown(g, seen0, frontier0, seen, frontier, via, e, via0[e.pod])
      invariant Visiting(g, root, via, out, frontier, steps, e, visit, i)
    {
      var nxt := succ[i];
      var nw := Carry(g, e.impact, e.pod, nxt);
      if nxt in seen || nw < CUT {
        SkipKeepsVisiting(g, root, via, out, frontier, steps, e, visit, i);
      } else {
        var neta := e.eta + g.arcs[(e.pod, nxt)].lag;
        ReportKeepsVisiting(g, root, via, out, frontier, steps, e, visit, i, Report(nxt, nw, neta));
        ReportKeepsGrown(g, seen0, frontier0, seen, frontier, via, e, via0[e.pod], Entry(nxt, nw, neta), via[e.pod] + [nxt]);
        steps := steps + [Step(visit, i)];
        seen, via := seen + {nxt}, via[nxt := via[e.pod] + [nxt]];
        out, frontier := out + [Report(nxt, nw, neta)], frontier + [Entry(nxt, nw, neta)];
      }
    }
    FinishKeeps(g, root, via, out, frontier, steps, e, visit, |succ|);
  }

  /** Between two visits, before the first one for k == -1. */
  ghost predicate Awaiting(g: Graph, root: string, via: Paths, out: seq<Report>, frontier: seq<Entry>, steps: seq<Step>, k: int) {
    if k < 0 then k == -1 && out == [] && steps == [] && frontier == [Entry(root, 1.0, 0)]
    else exists n: nat :: Ordered(g, root, via, out, frontier, steps, k, n)
  }

  lemma NextVisit(g: Graph, root: string, via: Paths, out: seq<Report>, frontier: seq<Entry>, steps: seq<Step>, k: int)
    requires Awaiting(g, root, via, out, frontier, steps, k) && frontier != []
    ensures k + 1 >= 0 && Ordered(g, root, via, out, frontier[1..], steps, k + 1, 0) && frontier[0] == EntryAt(root, out, k + 1)
  {
    if k >= 0 {
      var n: nat :| Ordered(g, root, via, out, frontier, steps, k, n);
      PopKeepsOrder(g, root, via, out, frontier, steps, k, n);
    }
  }

  /** The state between two visits. */
  ghost predicate Waiting(g: Graph, root: string, via: Paths, out: seq<Report>, frontier: seq<Entry>, steps: seq<Step>, level: nat, k: int) {
    Searching(g, root, via, out, frontier, {}, level) && Awaiting(g, root, via, out, frontier, steps, k)
  }

  lemma StartVisit(g: Graph, root: string, via: Paths, out: seq<Report>, frontier: seq<Entry>, steps: seq<Step>, level: nat, k: int)
    requires Waiting(g, root, via, out, frontier, steps, level, k) && frontier != []
    ensures k + 1 >= 0 && Visiting(g, root, via, out, frontier[1..], steps, frontier[0], k + 1, 0)
  {
    assert Along(g, root, via, frontier[0]);
    PopKeepsClosed(g, root, via, out, frontier);
    PopKeepsLevels(via, frontier, level);
    NextVisit(g, root, via, out, frontier, steps, k);
  }

  lemma SearchedIsBlast(g: Graph, root: string, via: Paths, out: seq<Report>)
    requires Sound(g, root, out, via) && Closed(g, root, via, out, [], {})
    ensures IsBlast(g, root, out, via)
  {
  }

  lemma PermutedBlast(g: Graph, root: string, out: seq<Report>, out': seq<Report>, via: Paths)
    requires IsBlast(g, root, out, via) && multiset(out) == multiset(out')
    ensures IsBlast(g, root, out', via)
  {
    forall x ensures x in out' <==> x in out { assert x in out' <==> x in multiset(out'); }
    var key := (x: Report) => x.pod;
    assert DistinctBy(out, key);
    DistinctPermuted(out, out', key);
    forall i, j | 0 <= i < j < |out'| ensures out'[i].pod != out'[j].pod {
      assert key(out'[i]) != key(out'[j]);
    }
  }

  lemma StartSearching(g: Graph, root: string)
    requires root in g.nodes
    ensures Searching(g, root, map[root := [root]], [], [Entry(root, 1.0, 0)], {}, 1)
  {
  }

  /** The pods found breadth first, worst first by rounded impact, as they were found where that ties. */
  method BlastRadius(g: Graph, root: string, round: real -> real)
    returns (sorted: seq<Report>, ghost found: seq<Report>, ghost via: Paths, ghost steps: seq<Step>)
    requires WellFormed(g)
    ensures root !in g.nodes ==> sorted == []
    ensures root in g.nodes ==> IsBlast(g, root, sorted, via) && InVisitOrder(g, root, via, found, steps)
    ensures IsStableSort(found, sorted, ByImpact(round))
  {
    var out: seq<Report> := [];
    via, steps := map[root := [root]], [];
    ByImpactIsPreorder(round);
    if root in g.nodes {
      out, via, steps := Search(g, root);
    }
    found := out;
    SortByIsStable(out, ByImpact(round));
    sorted := SortBy(out, ByImpact(round));
    if root in g.nodes { PermutedBlast(g, root, out, sorted, via); }
  }

  method Search(g: Graph, root: string) returns (out: seq<Report>, ghost via: Paths, ghost steps: seq<Step>)
    requires WellFormed(g) && root in g.nodes
    ensures IsBlast(g, root, out, via) && InVisitOrder(g, root, via, out, steps)
  {
    via, steps := map[root := [root]], [];
    out := [];
    var seen, frontier := {root}, [Entry(root, 1.0, 0)];
    ghost var level: nat, visit: int := 1, -1;
    StartSearching(g, root);
    while frontier != []
      invariant seen == via.Keys && (forall n :: n in seen ==> n in g.nodes)
      invariant Waiting(g, root, via, out, frontier, steps, level, visit)
      decreases (set n | n in g.nodes) - seen, |frontier|
    {
      var e := frontier[0];
      StartVisit(g, root, via, out, frontier, steps, level, visit);
      level, visit := |via[e.pod]|, visit + 1;
      ghost var before := seen;
      seen, out, frontier, via, steps := Expand(g, root, e, seen, out, frontier[1..], via, steps, visit);
      if before != seen {
        var n :| n in seen && n !in before;
        assert n in g.nodes;
      }
    }
    SearchedIsBlast(g, root, via, out);
  }

  /** Pods are found level by level: none before one that is fewer hops away along its path. */
  lemma {:induction false} BreadthFirst(g: Graph, root: string, via: Paths, found: seq<Report>, steps: seq<Step>, a: nat, b: nat)
    requires InVisitOrder(g, root, via, found, steps) && root in via && via[root] == [root] && a <= b <= |found|
    ensures PodAt(root, found, a) in via && PodAt(root, found, b) in via
    ensures 1 <= |via[PodAt(root, found, a)]| <= |via[PodAt(root, found, b)]|
    decreases b
  {
    if a > 0 {
      assert FoundBy(g, root, via, found, a - 1, steps[a - 1]) && FoundBy(g, root, via, found, b - 1, steps[b - 1]);
      assert a < b ==> steps[a - 1].Before(steps[b - 1]);
      BreadthFirst(g, root, via, found, steps, steps[a - 1].visit, steps[b - 1].visit);
    } else if b > 0 {
      assert FoundBy(g, root, via, found, b - 1, steps[b - 1]);
      BreadthFirst(g, root, via, found, steps, 0, steps[b - 1].visit);
    }
  }

  /** The worst hit comes first; where the rounded impacts tie, the pod found first. */
  lemma WorstFirst(round: real -> real, found: seq<Report>, sorted: seq<Report>, i: nat, j: nat)
    requires IsStableSort(found, sorted, ByImpact(round)) && i < j < |sorted|
    ensures round(sorted[i].impact) >= round(sorted[j].impact)
    ensures round(sorted[i].impact) == round(sorted[j].impact) ==>
              exists a, b :: 0 <= a < b < |found| && found[a] == sorted[i] && found[b] == sorted[j]
  {
    assert ByImpact(round)(sorted[i], sorted[j]);
    if round(sorted[i].impact) == round(sorted[j].impact) {
      ByImpactIsPreorder(round);
      var a, b := TiesKeepOrder(found, sorted, ByImpact(round), i, j);
    }
  }

  /** No predicted victim is hit harder than its best explanation allows. */
  lemma BlastWithinImpact(g: Graph, root: string, out: seq<Report>, via: Paths, impact: map<string, real>, x: Report)
    requires IsBlast(g, root, out, via) && IsImpact(g, root, impact) && x in out
    ensures x.pod in impact && CUT <= x.impact <= impact[x.pod]
  {
    ImpactDominates(g, root, impact, via[x.pod]);
  }
}
