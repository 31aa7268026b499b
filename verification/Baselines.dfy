/** The baselines table: each workload's steady-state level, learned slowly and never from a storm. */
module Baselines {
  import opened Basics
  import opened Config
  import opened Names
  import opened Permutations
  import opened Sorting

  datatype BaselineKey = BaselineKey(workload: string, signal: string)

  datatype BaselineRow = BaselineRow(median: real, mad: real, n: nat, updated: real)

  type Table = map<BaselineKey, BaselineRow>

  /** A pod and its signal window. */
  type Window = (string, seq<real>)

  const MIN_WINDOW := 12

  // ---- numpy's median and linear-interpolation percentile ----

  function Sorted(v: seq<real>): (s: seq<real>)
    ensures |s| == |v| && SortedBy(s, Ascending)
  {
    AscendingIsPreorder();
    SortBySorts(v, Ascending);
    SortBy(v, Ascending)
  }

  function Median(v: seq<real>): real
    requires v != []
  {
    var s, h := Sorted(v), |v| / 2;
    if |v| % 2 == 1 then s[h] else (s[h - 1] + s[h]) / 2.0
  }

  /** The point between low and high, a fraction f of the way. */
  function Between(low: real, high: real, f: real): real { low + f * (high - low) }

  /** The value at position pos of a sorted window, interpolated between its neighbours. */
  function At(s: seq<real>, pos: real): real
    requires 0.0 <= pos <= (|s| - 1) as real
  {
    var i := pos.Floor;
    if i + 1 < |s| then Between(s[i], s[i + 1], pos - i as real) else s[i]
  }

  function Quantile(v: seq<real>, q: real): real
    requires v != [] && 0.0 <= q <= 1.0
  {
    ProductBounds(q, (|v| - 1) as real);
    At(Sorted(v), Product(q, (|v| - 1) as real))
  }

  lemma BetweenBounds(low: real, high: real, f: real, g: real)
    requires low <= high && 0.0 <= f <= g <= 1.0
    ensures low <= Between(low, high, f) <= Between(low, high, g) <= high
  {
    ProductNonNegative(f, high - low);
    ProductNonNegative(g - f, high - low);
    ProductNonNegative(1.0 - g, high - low);
  }

  /** At a sorted window's position lies between the neighbours of the position. */
  lemma AtBounds(s: seq<real>, pos: real)
    requires SortedBy(s, Ascending) && 0.0 <= pos <= (|s| - 1) as real
    ensures var i := pos.Floor;
            s[i] <= At(s, pos) && (i + 1 < |s| ==> At(s, pos) <= s[i + 1])
  {
    var i := pos.Floor;
    if i + 1 < |s| {
      assert Ascending(s[i], s[i + 1]);
      BetweenBounds(s[i], s[i + 1], pos - i as real, 1.0);
    }
  }

  lemma AtMonotone(s: seq<real>, p: real, q: real)
    requires SortedBy(s, Ascending) && 0.0 <= p <= q <= (|s| - 1) as real
    ensures At(s, p) <= At(s, q)
  {
    var i, j := p.Floor, q.Floor;
    assert i <= j;
    if i == j {
      if i + 1 < |s| {
        assert Ascending(s[i], s[i + 1]);
        BetweenBounds(s[i], s[i + 1], p - i as real, q - i as real);
      }
    } else {
      AtBounds(s, p);
      AtBounds(s, q);
      if i + 1 < j { assert Ascending(s[i + 1], s[j]); }
    }
  }

  lemma MedianIsHalfway(v: seq<real>)
    requires v != []
    ensures Median(v) == Quantile(v, 0.5)
  {
    var s, n, h := Sorted(v), |v|, |v| / 2;
    var pos := Product(0.5, (n - 1) as real);
    if n % 2 == 1 {
      assert pos == h as real && pos.Floor == h;
      assert h + 1 < n ==> Between(s[h], s[h + 1], 0.0) == s[h];
    } else {
      assert pos == (h - 1) as real + 0.5 && pos.Floor == h - 1;
      assert Between(s[h - 1], s[h], 0.5) == (s[h - 1] + s[h]) / 2.0;
    }
  }

  /** The interpolated percentile is monotone, so no window's median exceeds its 90th percentile. */
  lemma MedianBelowP90(v: seq<real>)
    requires v != []
    ensures Median(v) <= Quantile(v, 0.9)
  {
    MedianIsHalfway(v);
    var m := (|v| - 1) as real;
    ProductBounds(0.5, m);
    ProductBounds(0.9, m);
    assert Product(0.5, m) <= Product(0.9, m);
    AtMonotone(Sorted(v), Product(0.5, m), Product(0.9, m));
  }

  // ---- Learning ----

  function Deviations(v: seq<real>, med: real): (d: seq<real>)
    ensures |d| == |v|
  {
    seq(|v|, i requires 0 <= i < |v| => Abs(v[i] - med))
  }

  function Mad(v: seq<real>): real
    requires v != []
  {
    Median(Deviations(v, Median(v)))
  }

  /** dev_k robust deviations, with the numerical floor on the MAD. */
  function Band(c: MemoryConfig, row: BaselineRow): real { Product(c.devK, Max(row.mad, c.madFloor)) }

  function Threshold(c: MemoryConfig, row: BaselineRow): real { row.median + Band(c, row) }

  predicate Mature(c: MemoryConfig, row: BaselineRow) { row.n >= c.baseMinN }

  predicate Storming(c: MemoryConfig, row: BaselineRow, v: seq<real>)
    requires v != []
  {
    Mature(c, row) && Quantile(v, 0.9) > Threshold(c, row)
  }

  /** (1 - a) * old + a * new. */
  function Ewma(a: real, old_: real, new_: real): real { (1.0 - a) * old_ + a * new_ }

  function Learn(c: MemoryConfig, row: Option<BaselineRow>, v: seq<real>, ts: real): BaselineRow
    requires v != []
  {
    match row
    case None => BaselineRow(Median(v), Mad(v), 1, ts)
    case Some(x) =>
      if Storming(c, x, v) then x
      else BaselineRow(Ewma(c.baseAlpha, x.median, Median(v)), Ewma(c.baseAlpha, x.mad, Mad(v)), x.n + 1, ts)
  }

  function Lookup(t: Table, k: BaselineKey): Option<BaselineRow> { if k in t then Some(t[k]) else None }

  function KeyOf(c: MemoryConfig, pod: string): BaselineKey { BaselineKey(StableWorkload(pod), c.signal) }

  /** Windows under MIN_WINDOW samples are not learned. */
  function UpdateOne(c: MemoryConfig, t: Table, w: Window, ts: real): Table {
    if |w.1| < MIN_WINDOW then t else t[KeyOf(c, w.0) := Learn(c, Lookup(t, KeyOf(c, w.0)), w.1, ts)]
  }

  function Updated(c: MemoryConfig, t: Table, vectors: seq<Window>, ts: real): Table {
    if vectors == [] then t
    else UpdateOne(c, Updated(c, t, vectors[..|vectors| - 1], ts), vectors[|vectors| - 1], ts)
  }

  /** Incident threshold of a workload, none while its baseline is immature. */
  function BaselineThreshold(c: MemoryConfig, t: Table, workload: string): Option<real> {
    var k := BaselineKey(workload, c.signal);
    if k !in t || !Mature(c, t[k]) then None else Some(Threshold(c, t[k]))
  }

  // ---- What median, percentile and spread are ----

  ghost function AtMost(v: seq<real>, x: real): nat { Count(v, (y: real) => y <= x) }

  ghost function AtLeast(v: seq<real>, x: real): nat { Count(v, (y: real) => y >= x) }

  lemma SortedCounts(v: seq<real>, x: real)
    ensures AtMost(Sorted(v), x) == AtMost(v, x) && AtLeast(Sorted(v), x) == AtLeast(v, x)
  {
    AscendingIsPreorder();
    SortBySorts(v, Ascending);
    CountPermuted(Sorted(v), v, (y: real) => y <= x);
    CountPermuted(Sorted(v), v, (y: real) => y >= x);
  }

  /** Where x parts a sorted sequence, the elements on either side count. */
  lemma PartCounts(s: seq<real>, x: real, i: nat)
    requires SortedBy(s, Ascending) && i <= |s|
    requires (i > 0 ==> s[i - 1] <= x)
    ensures AtMost(s, x) >= i
  {
    forall j | 0 <= j < i ensures s[j] <= x {
      if j < i - 1 { assert Ascending(s[j], s[i - 1]); }
    }
    CountStretch(s, (y: real) => y <= x, 0, i);
  }

  lemma PartCountsAbove(s: seq<real>, x: real, i: nat)
    requires SortedBy(s, Ascending) && i <= |s|
    requires (i < |s| ==> s[i] >= x)
    ensures AtLeast(s, x) >= |s| - i
  {
    forall j | i <= j < |s| ensures s[j] >= x {
      if j > i { assert Ascending(s[i], s[j]); }
    }
    CountStretch(s, (y: real) => y >= x, i, |s|);
  }

  /** The q-quantile parts the window at the position q(n - 1). */
  lemma QuantileCounts(v: seq<real>, q: real)
    requires v != [] && 0.0 <= q <= 1.0
    ensures var i := Product(q, (|v| - 1) as real).Floor;
            && 0 <= i < |v|
            && AtMost(v, Quantile(v, q)) >= i + 1
            && AtLeast(v, Quantile(v, q)) >= |v| - 1 - i
            && (Product(q, (|v| - 1) as real) == i as real ==> AtLeast(v, Quantile(v, q)) >= |v| - i)
  {
    ProductBounds(q, (|v| - 1) as real);
    var s, pos, x := Sorted(v), Product(q, (|v| - 1) as real), Quantile(v, q);
    var i := pos.Floor;
    AtBounds(s, pos);
    SortedCounts(v, x);
    PartCounts(s, x, i + 1);
    PartCountsAbove(s, x, i + 1);
    if pos == i as real {
      if i + 1 < |s| { BetweenLow(s[i], s[i + 1]); }
      PartCountsAbove(s, x, i);
    }
  }

  lemma BetweenLow(low: real, high: real)
    ensures Between(low, high, 0.0) == low
  {
  }

  /** At least half of the window lies at the median or below, and at least half at the median or above. */
  lemma MedianCounts(v: seq<real>)
    requires v != []
    ensures 2 * AtMost(v, Median(v)) >= |v| && 2 * AtLeast(v, Median(v)) >= |v|
  {
    MedianIsHalfway(v);
    QuantileCounts(v, 0.5);
    var pos := Product(0.5, (|v| - 1) as real);
    if |v| % 2 == 1 { assert pos == (|v| / 2) as real; } else { assert pos.Floor == |v| / 2 - 1; }
  }

  /** How many samples lie within d of the median, and how many at that distance or beyond. */
  ghost function Within(v: seq<real>, d: real): nat
    requires v != []
  {
    Count(v, (y: real) => Median(v) - d <= y <= Median(v) + d)
  }

  ghost function Beyond(v: seq<real>, d: real): nat
    requires v != []
  {
    Count(v, (y: real) => y <= Median(v) - d || y >= Median(v) + d)
  }

  lemma {:induction false} DeviationsCount(v: seq<real>, med: real, d: real)
    requires d >= 0.0
    ensures AtMost(Deviations(v, med), d) == Count(v, (y: real) => med - d <= y <= med + d)
    ensures AtLeast(Deviations(v, med), d) == Count(v, (y: real) => y <= med - d || y >= med + d)
  {
    if v != [] {
      var front := v[..|v| - 1];
      DeviationsCount(front, med, d);
      assert Deviations(v, med)[..|v| - 1] == Deviations(front, med);
    }
  }

  lemma {:induction false} MedianNonNegative(d: seq<real>)
    requires d != [] && forall i :: 0 <= i < |d| ==> d[i] >= 0.0
    ensures Median(d) >= 0.0
  {
    MedianCounts(d);
    var i := CountSome(d, (y: real) => y <= Median(d));
  }

  /** The spread is the distance from the median that half of the window keeps within, and half keeps out of. */
  lemma SpreadCounts(v: seq<real>)
    requires v != []
    ensures Mad(v) >= 0.0
    ensures 2 * Within(v, Mad(v)) >= |v| && 2 * Beyond(v, Mad(v)) >= |v|
  {
    var d := Deviations(v, Median(v));
    MedianNonNegative(d);
    MedianCounts(d);
    DeviationsCount(v, Median(v), Mad(v));
  }

  function Shifted(v: seq<real>, x: real): (r: seq<real>)
    ensures |r| == |v|
  {
    seq(|v|, i requires 0 <= i < |v| => v[i] + x)
  }

  lemma ShiftedTail(v: seq<real>, x: real)
    requires v != []
    ensures Shifted(v, x)[0] == v[0] + x && Shifted(v, x)[1..] == Shifted(v[1..], x)
  {
  }

  lemma {:induction false} InsertShifted(y: real, s: seq<real>, x: real)
    ensures Insert(y + x, Shifted(s, x), Ascending) == Shifted(Insert(y, s, Ascending), x)
  {
    if s == [] {
      assert Shifted(s, x) == [];
      assert Shifted([y], x) == [y + x];
    } else {
      ShiftedTail(s, x);
      InsertShifted(y, s[1..], x);
    }
  }

  lemma {:induction false} SortShifted(v: seq<real>, x: real)
    ensures SortBy(Shifted(v, x), Ascending) == Shifted(SortBy(v, Ascending), x)
  {
    if v == [] {
      assert Shifted(v, x) == [];
    } else {
      SortShifted(v[1..], x);
      ShiftedTail(v, x);
      InsertShifted(v[0], SortBy(v[1..], Ascending), x);
    }
  }

  /** Moving a window moves its median with it, and leaves its spread alone. */
  lemma ShiftKeepsSpread(v: seq<real>, x: real)
    requires v != []
    ensures Median(Shifted(v, x)) == Median(v) + x && Mad(Shifted(v, x)) == Mad(v)
  {
    SortShifted(v, x);
    assert Deviations(Shifted(v, x), Median(v) + x) == Deviations(v, Median(v));
  }

  /** A window of one value has that value as its median and no spread. */
  lemma ConstantWindow(v: seq<real>, x: real)
    requires v != [] && forall i :: 0 <= i < |v| ==> v[i] == x
    ensures Median(v) == x && Mad(v) == 0.0
  {
    MedianCounts(v);
    var i := CountSome(v, (y: real) => y <= Median(v));
    var j := CountSome(v, (y: real) => y >= Median(v));
    SpreadCounts(v);
    var k := CountSome(v, (y: real) => y <= Median(v) - Mad(v) || y >= Median(v) + Mad(v));
  }

  // ---- Each workload learns on its own ----

  /** The learned windows of one workload, in order. */
  ghost function WindowsOf(vectors: seq<Window>, workload: string): seq<seq<real>> {
    if vectors == [] then []
    else
      var before, w := WindowsOf(vectors[..|vectors| - 1], workload), vectors[|vectors| - 1];
      if |w.1| >= MIN_WINDOW && StableWorkload(w.0) == workload then before + [w.1] else before
  }

  ghost function Learned(c: MemoryConfig, row: Option<BaselineRow>, ws: seq<seq<real>>, ts: real): Option<BaselineRow> {
    if ws == [] then row
    else
      var before, w := Learned(c, row, ws[..|ws| - 1], ts), ws[|ws| - 1];
      if w == [] then before else Some(Learn(c, before, w, ts))
  }

  lemma LearnedNext(c: MemoryConfig, row: Option<BaselineRow>, ws: seq<seq<real>>, w: seq<real>, ts: real)
    requires w != []
    ensures Learned(c, row, ws + [w], ts) == Some(Learn(c, Learned(c, row, ws, ts), w, ts))
  {
    Snoc(ws, w);
  }

  lemma UpdateOneAt(c: MemoryConfig, t: Table, w: Window, ts: real, k: BaselineKey)
    ensures Lookup(UpdateOne(c, t, w, ts), k) ==
            if |w.1| >= MIN_WINDOW && k == KeyOf(c, w.0) then Some(Learn(c, Lookup(t, k), w.1, ts)) else Lookup(t, k)
  {
  }

  /** A baseline row evolves with its own workload's windows only. */
  lemma {:induction false} UpdatedAt(c: MemoryConfig, t: Table, vectors: seq<Window>, ts: real, k: BaselineKey)
    ensures Lookup(Updated(c, t, vectors, ts), k) ==
            if k.signal == c.signal then Learned(c, Lookup(t, k), WindowsOf(vectors, k.workload), ts) else Lookup(t, k)
  {
    if vectors != [] {
      var front, w := vectors[..|vectors| - 1], vectors[|vectors| - 1];
      UpdatedAt(c, t, front, ts, k);
      UpdateOneAt(c, Updated(c, t, front, ts), w, ts, k);
      if |w.1| >= MIN_WINDOW && StableWorkload(w.0) == k.workload {
        LearnedNext(c, Lookup(t, k), WindowsOf(front, k.workload), w.1, ts);
      }
    }
  }

  // ---- What is learned ----

  ghost predicate LiesBetween(x: real, a: real, b: real) { a <= x <= b || b <= x <= a }

  lemma EwmaBetween(a: real, x: real, y: real)
    requires 0.0 <= a <= 1.0
    ensures LiesBetween(Ewma(a, x, y), x, y)
  {
    BetweenBounds(Min(x, y), Max(x, y), if x <= y then a else 1.0 - a, 1.0);
    assert Ewma(a, x, y) == Between(Min(x, y), Max(x, y), if x <= y then a else 1.0 - a);
  }

  /** The window lies above the band of a mature row. */
  ghost predicate IsStorm(c: MemoryConfig, row: BaselineRow, v: seq<real>)
    requires v != []
  {
    && row.n >= c.baseMinN
    && Quantile(v, 0.9) - row.median > Product(c.devK, if row.mad < c.madFloor then c.madFloor else row.mad)
  }

  /** The first window is taken as it is, a storm changes nothing, and any other window moves median and spread toward its own. */
  ghost predicate Learns(c: MemoryConfig, row: Option<BaselineRow>, v: seq<real>, ts: real, x: BaselineRow)
    requires v != []
  {
    match row
    case None => x == BaselineRow(Median(v), Mad(v), 1, ts)
    case Some(r) =>
      if IsStorm(c, r, v) then x == r
      else x.n == r.n + 1 && x.updated == ts
           && LiesBetween(x.median, r.median, Median(v)) && LiesBetween(x.mad, r.mad, Mad(v))
  }

  lemma LearnMeans(c: MemoryConfig, row: Option<BaselineRow>, v: seq<real>, ts: real)
    requires ValidConfig(c) && v != []
    ensures Learns(c, row, v, ts, Learn(c, row, v, ts))
  {
    if row.Some? && !Storming(c, row.value, v) {
      EwmaBetween(c.baseAlpha, row.value.median, Median(v));
      EwmaBetween(c.baseAlpha, row.value.mad, Mad(v));
    }
  }

  /** A window of at least twelve samples is learned into its own workload's row, and nothing else changes. */
  lemma WindowLearned(c: MemoryConfig, t: Table, w: Window, ts: real, k: BaselineKey)
    requires ValidConfig(c)
    ensures var x := Lookup(UpdateOne(c, t, w, ts), k);
            if |w.1| >= 12 && k.signal == c.signal && k.workload == StableWorkload(w.0)
            then x.Some? && Learns(c, Lookup(t, k), w.1, ts, x.value)
            else x == Lookup(t, k)
  {
    UpdateOneAt(c, t, w, ts, k);
    if |w.1| >= 12 { LearnMeans(c, Lookup(t, k), w.1, ts); }
  }

  lemma {:induction false} OthersTeachNothing(c: MemoryConfig, t: Table, vectors: seq<Window>, ts: real, k: BaselineKey)
    requires forall j :: 0 <= j < |vectors| ==> StableWorkload(vectors[j].0) != k.workload
    ensures Lookup(Updated(c, t, vectors, ts), k) == Lookup(t, k)
  {
    if vectors != [] {
      var n := |vectors| - 1;
      OthersTeachNothing(c, t, vectors[..n], ts, k);
      UpdateOneAt(c, Updated(c, t, vectors[..n], ts), vectors[n], ts, k);
    }
  }

  lemma {:induction false} OnlyWindow(c: MemoryConfig, t: Table, vectors: seq<Window>, ts: real, i: nat)
    requires ValidConfig(c) && i < |vectors|
    requires forall j :: 0 <= j < |vectors| && j != i ==> StableWorkload(vectors[j].0) != StableWorkload(vectors[i].0)
    ensures var k, v := BaselineKey(StableWorkload(vectors[i].0), c.signal), vectors[i].1;
            var x := Lookup(Updated(c, t, vectors, ts), k);
            if |v| >= 12 then x.Some? && Learns(c, Lookup(t, k), v, ts, x.value) else x == Lookup(t, k)
  {
    var n, k := |vectors| - 1, BaselineKey(StableWorkload(vectors[i].0), c.signal);
    if i == n {
      OthersTeachNothing(c, t, vectors[..n], ts, k);
      WindowLearned(c, Updated(c, t, vectors[..n], ts), vectors[n], ts, k);
    } else {
      OnlyWindow(c, t, vectors[..n], ts, i);
      UpdateOneAt(c, Updated(c, t, vectors[..n], ts), vectors[n], ts, k);
    }
  }

  /** From old toward new, with a share q of the way still to go. */
  ghost function Toward(old_: real, new_: real, q: real): real { new_ + Product(q, old_ - new_) }

  lemma EwmaToward(a: real, old_: real, new_: real, q: real)
    ensures Ewma(a, Toward(old_, new_, q), new_) == Toward(old_, new_, Product(q, 1.0 - a))
    ensures Toward(old_, new_, 1.0) == old_
  {
  }

  /** None of the windows is a storm for the row it meets, and all have the same median and spread. */
  ghost predicate Steadily(c: MemoryConfig, row: BaselineRow, ws: seq<seq<real>>, ts: real, median: real, mad: real) {
    && (forall i :: 0 <= i < |ws| ==> ws[i] != [] && Median(ws[i]) == median && Mad(ws[i]) == mad)
    && (forall i :: 0 <= i < |ws| ==> Meets(c, row, ws, ts, i))
  }

  ghost predicate Meets(c: MemoryConfig, row: BaselineRow, ws: seq<seq<real>>, ts: real, i: int)
    requires 0 <= i < |ws| && ws[i] != []
  {
    var x := Learned(c, Some(row), ws[..i], ts);
    x.Some? && !IsStorm(c, x.value, ws[i])
  }

  /** n such windows leave the share (1 - a)^n of the way to their median and spread, and count n. */
  lemma {:induction false} LearningClosedForm(c: MemoryConfig, row: BaselineRow, ws: seq<seq<real>>, ts: real, median: real, mad: real)
    requires Steadily(c, row, ws, ts, median, mad)
    ensures var x := Learned(c, Some(row), ws, ts);
            && x.Some? && x.value.n == row.n + |ws|
            && x.value.median == Toward(row.median, median, Power(1.0 - c.baseAlpha, |ws|))
            && x.value.mad == Toward(row.mad, mad, Power(1.0 - c.baseAlpha, |ws|))
  {
    if ws == [] {
      EwmaToward(c.baseAlpha, row.median, median, 1.0);
      EwmaToward(c.baseAlpha, row.mad, mad, 1.0);
    } else {
      var n := |ws| - 1;
      SteadilyFront(c, row, ws, ts, median, mad);
      LearningClosedForm(c, row, ws[..n], ts, median, mad);
      assert Meets(c, row, ws, ts, n);
      LearnsToward(c, row, Learned(c, Some(row), ws[..n], ts).value, ws[n], ts, Power(1.0 - c.baseAlpha, n));
    }
  }

  /** One more window that is not a storm. */
  lemma LearnsToward(c: MemoryConfig, row: BaselineRow, x: BaselineRow, v: seq<real>, ts: real, q: real)
    requires v != [] && !IsStorm(c, x, v)
    requires x.median == Toward(row.median, Median(v), q) && x.mad == Toward(row.mad, Mad(v), q)
    ensures var y := Learn(c, Some(x), v, ts);
            && y.n == x.n + 1
            && y.median == Toward(row.median, Median(v), Product(q, 1.0 - c.baseAlpha))
            && y.mad == Toward(row.mad, Mad(v), Product(q, 1.0 - c.baseAlpha))
  {
    EwmaToward(c.baseAlpha, row.median, Median(v), q);
    EwmaToward(c.baseAlpha, row.mad, Mad(v), q);
  }

  lemma SteadilyFront(c: MemoryConfig, row: BaselineRow, ws: seq<seq<real>>, ts: real, median: real, mad: real)
    requires ws != [] && Steadily(c, row, ws, ts, median, mad)
    ensures Steadily(c, row, ws[..|ws| - 1], ts, median, mad)
  {
    var front := ws[..|ws| - 1];
    forall i | 0 <= i < |front| ensures Meets(c, row, front, ts, i) {
      assert Meets(c, row, ws, ts, i) && front[..i] == ws[..i];
    }
  }

  /** A mature row's threshold lies dev_k spreads above its median, or dev_k floors when the spread is below the floor. */
  lemma ThresholdMeans(c: MemoryConfig, t: Table, workload: string, x: real)
    ensures BaselineThreshold(c, t, workload) == Some(x) <==>
              && BaselineKey(workload, c.signal) in t
              && var row := t[BaselineKey(workload, c.signal)];
                 && row.n >= c.baseMinN
                 && x - row.median == Product(c.devK, if row.mad < c.madFloor then c.madFloor else row.mad)
  {
  }

  // ---- Robustness ----

  lemma EwmaStep(a: real, x: real, y: real, d: real)
    requires 0.0 <= a <= 1.0 && y <= x + d
    ensures Ewma(a, x, y) <= x + Product(a, d)
  {
  }

  /** Once mature, one window raises the learned median by at most base_alpha times the band. */
  lemma MedianRise(c: MemoryConfig, row: BaselineRow, v: seq<real>, ts: real)
    requires ValidConfig(c) && Mature(c, row) && v != []
    ensures Learn(c, Some(row), v, ts).median <= row.median + Product(c.baseAlpha, Band(c, row))
  {
    MedianBelowP90(v);
    ProductNonNegative(c.devK, Max(row.mad, c.madFloor));
    if !Storming(c, row, v) {
      EwmaStep(c.baseAlpha, row.median, Median(v), Band(c, row));
    } else {
      EwmaStep(c.baseAlpha, row.median, row.median, Band(c, row));
    }
  }

  /** Every window of the workload lies above its threshold. */
  ghost predicate AllStorm(c: MemoryConfig, k: BaselineKey, row: BaselineRow, vectors: seq<Window>) {
    forall i :: 0 <= i < |vectors| && KeyOf(c, vectors[i].0) == k && |vectors[i].1| >= MIN_WINDOW ==>
      Quantile(vectors[i].1, 0.9) > Threshold(c, row)
  }

  /** Windows above a mature threshold leave the row as it was. */
  lemma {:induction false} StormsSkipped(c: MemoryConfig, t: Table, vectors: seq<Window>, ts: real, k: BaselineKey)
    requires k in t && Mature(c, t[k]) && AllStorm(c, k, t[k], vectors)
    ensures k in Updated(c, t, vectors, ts) && Updated(c, t, vectors, ts)[k] == t[k]
  {
    if vectors != [] {
      var front := vectors[..|vectors| - 1];
      assert AllStorm(c, k, t[k], front) by {
        forall i | 0 <= i < |front| && KeyOf(c, front[i].0) == k && |front[i].1| >= MIN_WINDOW
          ensures Quantile(front[i].1, 0.9) > Threshold(c, t[k])
        {
          assert front[i] == vectors[i];
        }
      }
      StormsSkipped(c, t, front, ts, k);
    }
  }

  /** A row never disappears, and its update count never falls: maturity is permanent. */
  lemma {:induction false} CountsGrow(c: MemoryConfig, t: Table, vectors: seq<Window>, ts: real, k: BaselineKey)
    requires k in t
    ensures k in Updated(c, t, vectors, ts) && Updated(c, t, vectors, ts)[k].n >= t[k].n
  {
    if vectors != [] { CountsGrow(c, t, vectors[..|vectors| - 1], ts, k); }
  }
}
