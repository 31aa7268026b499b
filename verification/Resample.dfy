/** `build_inputs.to_vectors`: sample-and-hold of per-pod samples onto one shared wall-clock grid. */
module Resample {
  import opened Basics
  import opened Permutations

  datatype Sample = Sample(at: real, value: real)

  const MIN_COVERAGE := 12

  ghost predicate InOrder(pts: seq<Sample>) { forall i, j :: 0 <= i < j < |pts| ==> pts[i].at <= pts[j].at }

  ghost predicate Increasing(grid: seq<real>) { forall i, j :: 0 <= i < j < |grid| ==> grid[i] <= grid[j] }

  // ---- Reference: a search per grid point ----

  /** The last of the first n samples that is no later than limit, or the first sample if there is none. */
  function HeldAmong(pts: seq<Sample>, limit: real, n: nat): (j: nat)
    requires n <= |pts|
    ensures n > 0 ==> j < n
  {
    if n <= 1 then 0 else if pts[n - 1].at <= limit then n - 1 else HeldAmong(pts, limit, n - 1)
  }

  function Held(pts: seq<Sample>, limit: real): nat { HeldAmong(pts, limit, |pts|) }

  /** The held sample's value, when it lies within step of the grid point. */
  function Column(pts: seq<Sample>, gt: real, step: real): Option<real>
    requires pts != []
  {
    var s := pts[Held(pts, gt + step / 2.0)];
    if Abs(s.at - gt) <= step then Some(s.value) else None
  }

  ghost predicate IsHeld(pts: seq<Sample>, limit: real, j: nat) {
    && j < |pts|
    && (j == 0 || pts[j].at <= limit)
    && forall i :: j < i < |pts| ==> pts[i].at > limit
  }

  lemma {:induction false} HeldAmongUnique(pts: seq<Sample>, limit: real, n: nat, j: nat)
    requires j < n <= |pts| && (j == 0 || pts[j].at <= limit)
    requires forall i :: j < i < n ==> pts[i].at > limit
    ensures HeldAmong(pts, limit, n) == j
  {
    if n > 1 && j < n - 1 { HeldAmongUnique(pts, limit, n - 1, j); }
  }

  lemma {:induction false} HeldAmongIsLast(pts: seq<Sample>, limit: real, n: nat)
    requires 0 < n <= |pts|
    ensures var j := HeldAmong(pts, limit, n);
            && (j == 0 || pts[j].at <= limit)
            && forall i :: j < i < n ==> pts[i].at > limit
  {
    if n > 1 && pts[n - 1].at > limit { HeldAmongIsLast(pts, limit, n - 1); }
  }

  /** The search finds the one index that is last among the samples no later than limit. */
  lemma HeldIsLast(pts: seq<Sample>, limit: real, j: nat)
    requires pts != []
    ensures IsHeld(pts, limit, j) <==> j == Held(pts, limit)
  {
    HeldAmongIsLast(pts, limit, |pts|);
    if IsHeld(pts, limit, j) { HeldAmongUnique(pts, limit, |pts|, j); }
  }

  // ---- The two-pointer loop ----

  /** Where the pointer stops is the held sample, which decides the column. */
  lemma PointerHolds(pts: seq<Sample>, gt: real, step: real, j: nat)
    requires InOrder(pts) && j < |pts| && (j > 0 ==> pts[j].at <= gt + step / 2.0)
    requires j + 1 == |pts| || pts[j + 1].at > gt + step / 2.0
    ensures Column(pts, gt, step) == if Abs(pts[j].at - gt) <= step then Some(pts[j].value) else None
  {
    forall i | j < i < |pts| ensures pts[i].at > gt + step / 2.0 {
      if i > j + 1 { assert pts[j + 1].at <= pts[i].at; }
    }
    HeldIsLast(pts, gt + step / 2.0, j);
  }

  /** The pointer never passes a grid point's held sample, so it never has to go back. */
  method FillColumns(pts: seq<Sample>, grid: seq<real>, step: real) returns (vec: array<Option<real>>)
    requires pts != [] && InOrder(pts) && Increasing(grid)
    ensures fresh(vec) && vec.Length == |grid|
    ensures forall k :: 0 <= k < |grid| ==> vec[k] == Column(pts, grid[k], step)
  {
    vec := new Option<real>[|grid|](_ => None);
    var j := 0;
    for k := 0 to |grid|
      invariant j < |pts|
      invariant j > 0 ==> k > 0 && pts[j].at <= grid[k - 1] + step / 2.0
      invariant forall m :: 0 <= m < k ==> vec[m] == Column(pts, grid[m], step)
      invariant forall m :: k <= m < |grid| ==> vec[m] == None
    {
      var gt := grid[k];
      var limit := gt + step / 2.0;
      while j + 1 < |pts| && pts[j + 1].at <= limit
        invariant j < |pts|
        invariant j > 0 ==> pts[j].at <= limit
      {
        j := j + 1;
      }
      PointerHolds(pts, gt, step, j);
      if Abs(pts[j].at - gt) <= step {
        vec[k] := Some(pts[j].value);
      }
    }
  }

  function Grid(latest: real, step: real, n: nat): (grid: seq<real>)
    ensures |grid| == n
  {
    seq(n, k => latest - step * (n - 1 - k) as real)
  }

  lemma GridIncreases(latest: real, step: real, n: nat)
    requires step >= 0.0
    ensures Increasing(Grid(latest, step, n))
  {
  }

  function Coverage(cols: seq<Option<real>>): nat {
    if cols == [] then 0 else Coverage(cols[..|cols| - 1]) + (if cols[|cols| - 1].Some? then 1 else 0)
  }

  function ColumnsOf(pts: seq<Sample>, grid: seq<real>, step: real): (cols: seq<Option<real>>)
    requires pts != []
    ensures |cols| == |grid|
  {
    seq(|grid|, k requires 0 <= k < |grid| => Column(pts, grid[k], step))
  }

  function GapsAsZero(cols: seq<Option<real>>): seq<real> {
    seq(|cols|, k requires 0 <= k < |cols| => if cols[k].Some? then cols[k].value else 0.0)
  }

  /** A pod is kept when its last sample is recent and enough columns are filled. */
  predicate Kept(pts: seq<Sample>, latest: real, step: real, n: nat)
    requires pts != []
  {
    && pts[|pts| - 1].at >= latest - 2.0 * step
    && Coverage(ColumnsOf(pts, Grid(latest, step, n), step)) >= MIN_COVERAGE
  }

  method ToVectors(perPod: map<string, seq<Sample>>, latest: real, step: real, n: nat) returns (out: map<string, seq<real>>)
    requires step >= 0.0
    requires forall p :: p in perPod ==> perPod[p] != [] && InOrder(perPod[p])
    ensures forall p :: p in out <==> p in perPod && Kept(perPod[p], latest, step, n)
    ensures forall p :: p in out ==> out[p] == GapsAsZero(ColumnsOf(perPod[p], Grid(latest, step, n), step))
  {
    out := map[];
    var grid := Grid(latest, step, n);
    GridIncreases(latest, step, n);
    var todo := perPod.Keys;
    while todo != {}
      invariant todo <= perPod.Keys
      invariant forall p :: p in out <==> p in perPod && p !in todo && Kept(perPod[p], latest, step, n)
      invariant forall p :: p in out ==> out[p] == GapsAsZero(ColumnsOf(perPod[p], grid, step))
      decreases todo
    {
      var pod :| pod in todo;
      todo := todo - {pod};
      var pts := perPod[pod];
      if pts[|pts| - 1].at < latest - 2.0 * step {
        continue;
      }
      var vec := FillColumns(pts, grid, step);
      assert vec[..] == ColumnsOf(pts, grid, step);
      if Coverage(vec[..]) >= MIN_COVERAGE {
        out := out[pod := GapsAsZero(vec[..])];
      }
    }
  }

  // ---- Consequences ----

  /** x is what the samples show at the grid point: the last one up to half a step ahead, if it lies within step. */
  ghost predicate ShowsAt(pts: seq<Sample>, gt: real, step: real, x: real) {
    exists j: nat :: IsHeld(pts, gt + step / 2.0, j) && gt - step <= pts[j].at <= gt + step && x == pts[j].value
  }

  /** A column is filled exactly when the samples show something, and with that. */
  lemma FilledColumnIsHeld(pts: seq<Sample>, gt: real, step: real)
    requires pts != []
    ensures forall x :: Column(pts, gt, step) == Some(x) <==> ShowsAt(pts, gt, step, x)
  {
    var limit := gt + step / 2.0;
    var h := Held(pts, limit);
    HeldIsLast(pts, limit, h);
    forall j: nat | IsHeld(pts, limit, j) ensures j == h { HeldIsLast(pts, limit, j); }
  }

  /** The last grid point is the latest sample's, and the others precede it step by step. */
  lemma GridMeans(latest: real, step: real, n: nat, k: nat)
    requires k < n
    ensures k == n - 1 ==> Grid(latest, step, n)[k] == latest
    ensures k < n - 1 ==> Grid(latest, step, n)[k] + step == Grid(latest, step, n)[k + 1]
  {
    assert k == n - 1 ==> step * (n - 1 - k) as real == 0.0;
    assert k < n - 1 ==> step * (n - 1 - k) as real == step * (n - 2 - k) as real + step;
  }

  lemma {:induction false} CoverageCounts(cols: seq<Option<real>>)
    ensures Coverage(cols) == Count(cols, (x: Option<real>) => x.Some?)
  {
    if cols != [] { CoverageCounts(cols[..|cols| - 1]); }
  }

  /** How many of the n grid points the samples show something at. */
  ghost function Shown(pts: seq<Sample>, latest: real, step: real, n: nat): nat
    requires pts != []
  {
    Count(Grid(latest, step, n), (gt: real) => exists x :: ShowsAt(pts, gt, step, x))
  }

  lemma {:induction false} ColumnsCount(pts: seq<Sample>, grid: seq<real>, step: real)
    requires pts != []
    ensures Count(ColumnsOf(pts, grid, step), (x: Option<real>) => x.Some?) == Count(grid, (gt: real) => exists x :: ShowsAt(pts, gt, step, x))
  {
    if grid != [] {
      var n := |grid| - 1;
      ColumnsCount(pts, grid[..n], step);
      assert ColumnsOf(pts, grid, step)[..n] == ColumnsOf(pts, grid[..n], step);
      FilledColumnIsHeld(pts, grid[n], step);
      var col := Column(pts, grid[n], step);
      assert col.Some? ==> ShowsAt(pts, grid[n], step, col.value);
    }
  }

  /** A pod is kept exactly when its last sample is at most two steps old and at least twelve grid points show something. */
  lemma KeptMeans(pts: seq<Sample>, latest: real, step: real, n: nat)
    requires pts != []
    ensures Kept(pts, latest, step, n) <==> latest - pts[|pts| - 1].at <= step + step && Shown(pts, latest, step, n) >= 12
  {
    CoverageCounts(ColumnsOf(pts, Grid(latest, step, n), step));
    ColumnsCount(pts, Grid(latest, step, n), step);
  }

  /** A kept pod's vector holds what its samples show at each grid point, and 0 where they show nothing. */
  lemma VectorMeans(pts: seq<Sample>, grid: seq<real>, step: real, k: nat)
    requires pts != [] && k < |grid|
    ensures var x := GapsAsZero(ColumnsOf(pts, grid, step))[k];
            ShowsAt(pts, grid[k], step, x) || (x == 0.0 && forall y :: !ShowsAt(pts, grid[k], step, y))
  {
    FilledColumnIsHeld(pts, grid[k], step);
  }

  /** A sample within half a step of the grid point always fills the column. */
  lemma NearSampleFills(pts: seq<Sample>, gt: real, step: real, i: nat)
    requires step >= 0.0 && i < |pts| && InOrder(pts)
    requires Abs(pts[i].at - gt) <= step / 2.0
    ensures Column(pts, gt, step).Some?
  {
    var limit := gt + step / 2.0;
    var j := Held(pts, limit);
    HeldIsLast(pts, limit, j);
    assert i <= j;
    assert pts[i].at <= pts[j].at;
  }
}
