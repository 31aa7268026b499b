/** `_gini` and `_fairness`: the Gini index of per-pod stall, per namespace. */
module Fairness {
  import opened Basics
  import opened Sorting
  import opened Names
  import opened Permutations

  function NonNegative(xs: seq<real>): (r: seq<real>)
    ensures forall i :: 0 <= i < |r| ==> r[i] >= 0.0
  {
    if xs == [] then []
    else NonNegative(xs[..|xs| - 1]) + (if xs[|xs| - 1] >= 0.0 then [xs[|xs| - 1]] else [])
  }

  /** The sum of (i + 1) * xs[i]. */
  function RankSum(xs: seq<real>): real {
    if xs == [] then 0.0 else RankSum(xs[..|xs| - 1]) + Product(|xs| as real, xs[|xs| - 1])
  }

  function ClosedForm(cum: real, n: real, total: real): real
    requires n > 0.0 && total != 0.0
  {
    2.0 * cum / (n * total) - (n + 1.0) / n
  }

  /** The sorted closed form of the source, before rounding to three digits. */
  function Gini(xs: seq<real>): real {
    var s := SortBy(NonNegative(xs), Ascending);
    if |s| == 0 || Sum(s) == 0.0 then 0.0 else ClosedForm(RankSum(s), |s| as real, Sum(s))
  }

  // ---- The pairwise definition ----

  /** The sum of |a - y| over ys. */
  ghost function Distance(a: real, ys: seq<real>): real {
    if ys == [] then 0.0 else Distance(a, ys[..|ys| - 1]) + Abs(a - ys[|ys| - 1])
  }

  /** The sum of |x - y| over all x in xs and y in ys. */
  ghost function PairSum(xs: seq<real>, ys: seq<real>): real {
    if xs == [] then 0.0 else PairSum(xs[..|xs| - 1], ys) + Distance(xs[|xs| - 1], ys)
  }

  /** Twice the number of values times their sum, the denominator of the pairwise definition. */
  ghost function Scale(n: real, total: real): real { 2.0 * n * total }

  lemma {:induction false} PairSumSnocRight(xs: seq<real>, ys: seq<real>, y: real)
    ensures PairSum(xs, ys + [y]) == PairSum(xs, ys) + Distance(y, xs)
  {
    if xs != [] {
      var x := xs[|xs| - 1];
      PairSumSnocRight(xs[..|xs| - 1], ys, y);
      Snoc(ys, y);
      assert Abs(x - y) == Abs(y - x);
    }
  }

  lemma PairSumSnoc(xs: seq<real>, x: real)
    ensures PairSum(xs + [x], xs + [x]) == PairSum(xs, xs) + 2.0 * Distance(x, xs)
  {
    PairSumSnocRight(xs, xs, x);
    Snoc(xs, x);
    assert Distance(x, xs + [x]) == Distance(x, xs) + Abs(x - x);
  }

  // ---- The sorted form computes the pair sum ----

  lemma {:induction false} DistanceFromTop(x: real, ys: seq<real>)
    requires forall i :: 0 <= i < |ys| ==> ys[i] <= x
    ensures Distance(x, ys) == Product(|ys| as real, x) - Sum(ys)
  {
    if ys != [] {
      DistanceFromTop(x, ys[..|ys| - 1]);
      ProductNext(|ys| as real - 1.0, x);
    }
  }

  lemma ProductNext(n: real, x: real)
    ensures Product(n + 1.0, x) == Product(n, x) + x
  {
  }

  /** The pair sum of n ascending values whose rank sum is r and sum is t. */
  ghost function SortedForm(r: real, n: real, t: real): real { 4.0 * r - 2.0 * Product(n + 1.0, t) }

  lemma SortedFormNext(r: real, n: real, t: real, x: real)
    ensures SortedForm(r + Product(n + 1.0, x), n + 1.0, t + x) == SortedForm(r, n, t) + 2.0 * (Product(n, x) - t)
  {
  }

  lemma {:induction false} SortedPairSum(s: seq<real>)
    requires SortedBy(s, Ascending)
    ensures PairSum(s, s) == SortedForm(RankSum(s), |s| as real, Sum(s))
  {
    if s != [] {
      var front, x := s[..|s| - 1], s[|s| - 1];
      assert s == front + [x];
      SortedPairSum(front);
      PairSumSnoc(front, x);
      forall i | 0 <= i < |front| ensures front[i] <= x { assert Ascending(s[i], s[|s| - 1]); }
      DistanceFromTop(x, front);
      SortedFormNext(RankSum(front), |front| as real, Sum(front), x);
      assert RankSum(s) == RankSum(front) + Product(|front| as real + 1.0, x);
    }
  }

  // ---- Neither sum depends on the order ----

  lemma {:induction false} SumRemove(s: seq<real>, k: nat)
    requires k < |s|
    ensures Sum(s) == Sum(Without(s, k)) + s[k]
    decreases |s|
  {
    var n := |s| - 1;
    if k == n {
      RemoveLast(s);
    } else {
      RemoveBefore(s, k);
      Snoc(Without(s[..n], k), s[n]);
      SumRemove(s[..n], k);
    }
  }

  lemma {:induction false} DistanceRemove(a: real, s: seq<real>, k: nat)
    requires k < |s|
    ensures Distance(a, s) == Distance(a, Without(s, k)) + Abs(a - s[k])
    decreases |s|
  {
    var n := |s| - 1;
    if k == n {
      RemoveLast(s);
    } else {
      RemoveBefore(s, k);
      Snoc(Without(s[..n], k), s[n]);
      DistanceRemove(a, s[..n], k);
    }
  }

  lemma {:induction false} PairSumRemove(s: seq<real>, t: seq<real>, k: nat)
    requires k < |s|
    ensures PairSum(s, t) == PairSum(Without(s, k), t) + Distance(s[k], t)
    decreases |s|
  {
    var n := |s| - 1;
    if k == n {
      RemoveLast(s);
    } else {
      RemoveBefore(s, k);
      Snoc(Without(s[..n], k), s[n]);
      PairSumRemove(s[..n], t, k);
    }
  }

  lemma {:induction false} SumPermuted(s: seq<real>, t: seq<real>)
    requires multiset(s) == multiset(t)
    ensures Sum(s) == Sum(t)
    decreases |s|
  {
    if s == [] {
      EmptyPermuted(s, t);
    } else {
      var k := Locate(s, t);
      SumPermuted(s[..|s| - 1], Without(t, k));
      SumRemove(t, k);
    }
  }

  lemma {:induction false} DistancePermuted(a: real, s: seq<real>, t: seq<real>)
    requires multiset(s) == multiset(t)
    ensures Distance(a, s) == Distance(a, t)
    decreases |s|
  {
    if s == [] {
      EmptyPermuted(s, t);
    } else {
      var k := Locate(s, t);
      DistancePermuted(a, s[..|s| - 1], Without(t, k));
      DistanceRemove(a, t, k);
    }
  }

  lemma {:induction false} PairSumPermuted(s: seq<real>, t: seq<real>, u: seq<real>, v: seq<real>)
    requires multiset(s) == multiset(t) && multiset(u) == multiset(v)
    ensures PairSum(s, u) == PairSum(t, v)
    decreases |s|
  {
    if s == [] {
      EmptyPermuted(s, t);
    } else {
      var k := Locate(s, t);
      PairSumPermuted(s[..|s| - 1], Without(t, k), u, v);
      PairSumRemove(t, v, k);
      DistancePermuted(s[|s| - 1], u, v);
    }
  }

  lemma ClearFractions(cum: real, n: real, t: real)
    requires n > 0.0 && t != 0.0
    ensures Product(ClosedForm(cum, n, t), Scale(n, t)) == SortedForm(cum, n, t)
  {
  }

  lemma SortedStall(v: seq<real>) returns (s: seq<real>)
    ensures s == SortBy(v, Ascending) && SortedBy(s, Ascending) && |s| == |v| && Sum(s) == Sum(v) && PairSum(s, s) == PairSum(v, v)
  {
    s := SortBy(v, Ascending);
    AscendingIsPreorder();
    SortBySorts(v, Ascending);
    SumPermuted(v, s);
    PairSumPermuted(v, s, v, s);
  }

  /** The sorted closed form is the pairwise definition: mean absolute difference over twice the mean. */
  lemma GiniIsPairwise(xs: seq<real>, v: seq<real>)
    requires v == NonNegative(xs)
    ensures |v| == 0 || Sum(v) == 0.0 ==> Gini(xs) == 0.0
    ensures |v| > 0 && Sum(v) != 0.0 ==> Product(Gini(xs), Scale(|v| as real, Sum(v))) == PairSum(v, v)
  {
    var s := SortedStall(v);
    if |v| > 0 && Sum(v) != 0.0 {
      SortedPairSum(s);
      ClearFractions(RankSum(s), |s| as real, Sum(s));
    }
  }

  // ---- Consequences ----

  /** A value counts when it is not negative. */
  function Kept(x: real): multiset<real> { if x >= 0.0 then multiset{x} else multiset{} }

  lemma NonNegativeLast(s: seq<real>)
    requires s != []
    ensures multiset(NonNegative(s)) == multiset(NonNegative(s[..|s| - 1])) + Kept(s[|s| - 1])
  {
  }

  lemma {:induction false} NonNegativeRemove(s: seq<real>, k: nat)
    requires k < |s|
    ensures multiset(NonNegative(s)) == multiset(NonNegative(Without(s, k))) + Kept(s[k])
    decreases |s|
  {
    var n := |s| - 1;
    NonNegativeLast(s);
    if k == n {
      RemoveLast(s);
    } else {
      RemoveBefore(s, k);
      Snoc(Without(s[..n], k), s[n]);
      NonNegativeLast(Without(s, k));
      NonNegativeRemove(s[..n], k);
    }
  }

  lemma {:induction false} NonNegativePermuted(s: seq<real>, t: seq<real>)
    requires multiset(s) == multiset(t)
    ensures multiset(NonNegative(s)) == multiset(NonNegative(t))
    decreases |s|
  {
    if s == [] {
      EmptyPermuted(s, t);
    } else {
      var k := Locate(s, t);
      NonNegativeLast(s);
      NonNegativePermuted(s[..|s| - 1], Without(t, k));
      NonNegativeRemove(t, k);
    }
  }

  /** Every value that is not negative counts as often as it occurs, and no other. */
  lemma {:induction false} NonNegativeMeans(xs: seq<real>, x: real)
    ensures multiset(NonNegative(xs))[x] == if x < 0.0 then 0 else multiset(xs)[x]
  {
    if xs != [] {
      NonNegativeMeans(xs[..|xs| - 1], x);
      NonNegativeLast(xs);
      Unsnoc(xs);
    }
  }

  lemma SameRatio(x: real, y: real, d: real)
    requires d != 0.0 && Product(x, d) == Product(y, d)
    ensures x == y
  {
  }

  lemma ScaleNonZero(n: real, t: real)
    requires n > 0.0 && t != 0.0
    ensures Scale(n, t) != 0.0
  {
  }

  /** The index does not depend on the order of the values. */
  lemma GiniPermuted(xs: seq<real>, ys: seq<real>)
    requires multiset(xs) == multiset(ys)
    ensures Gini(xs) == Gini(ys)
  {
    var v, w := NonNegative(xs), NonNegative(ys);
    NonNegativePermuted(xs, ys);
    SumPermuted(v, w);
    PairSumPermuted(v, w, v, w);
    assert |v| == |multiset(v)| == |multiset(w)| == |w|;
    GiniIsPairwise(xs, v);
    GiniIsPairwise(ys, w);
    if |v| > 0 && Sum(v) != 0.0 {
      ScaleNonZero(|v| as real, Sum(v));
      SameRatio(Gini(xs), Gini(ys), Scale(|v| as real, Sum(v)));
    }
  }

  lemma {:induction false} SumNonNegative(v: seq<real>)
    requires forall i :: 0 <= i < |v| ==> v[i] >= 0.0
    ensures Sum(v) >= 0.0
    ensures Sum(v) == 0.0 ==> forall i :: 0 <= i < |v| ==> v[i] == 0.0
  {
    if v != [] { SumNonNegative(v[..|v| - 1]); }
  }

  lemma {:induction false} DistanceBounds(x: real, v: seq<real>)
    requires x >= 0.0 && forall i :: 0 <= i < |v| ==> v[i] >= 0.0
    ensures 0.0 <= Distance(x, v) <= Product(|v| as real, x) + Sum(v)
    ensures Distance(x, v) == 0.0 <==> forall i :: 0 <= i < |v| ==> v[i] == x
  {
    if v != [] {
      DistanceBounds(x, v[..|v| - 1]);
      ProductNext(|v| as real - 1.0, x);
      assert v == v[..|v| - 1] + [v[|v| - 1]];
    }
  }

  ghost predicate AllEqual(v: seq<real>) { forall i, j :: 0 <= i < j < |v| ==> v[i] == v[j] }

  /** The largest possible pair sum of n non-negative values with sum t. */
  ghost function Widest(n: real, t: real): real { 2.0 * Product(n - 1.0, t) }

  lemma WidestNext(n: real, t: real, x: real)
    ensures Widest(n + 1.0, t + x) == Widest(n, t) + 2.0 * (Product(n, x) + t)
  {
  }

  lemma {:induction false} PairSumRange(v: seq<real>)
    requires forall i :: 0 <= i < |v| ==> v[i] >= 0.0
    ensures 0.0 <= PairSum(v, v)
    ensures v != [] ==> PairSum(v, v) <= Widest(|v| as real, Sum(v))
  {
    if v != [] {
      var front, x := v[..|v| - 1], v[|v| - 1];
      assert v == front + [x];
      PairSumSnoc(front, x);
      DistanceBounds(x, front);
      PairSumRange(front);
      WidestNext(|front| as real, Sum(front), x);
    }
  }

  lemma {:induction false} PairSumZero(v: seq<real>)
    requires forall i :: 0 <= i < |v| ==> v[i] >= 0.0
    ensures PairSum(v, v) == 0.0 <==> AllEqual(v)
  {
    if v != [] {
      var front, x := v[..|v| - 1], v[|v| - 1];
      assert v == front + [x];
      PairSumSnoc(front, x);
      DistanceBounds(x, front);
      PairSumRange(front);
      PairSumZero(front);
      if AllEqual(v) {
        forall i | 0 <= i < |front| ensures front[i] == x { assert v[i] == v[|v| - 1]; }
        forall i, j | 0 <= i < j < |front| ensures front[i] == front[j] { assert v[i] == v[j]; }
      }
    }
  }

  lemma SignOfProduct(x: real, d: real)
    requires d > 0.0
    ensures (x * d > 0.0 <==> x > 0.0) && (x * d < 0.0 <==> x < 0.0)
  {
  }

  lemma QuotientBounds(g: real, n: real, t: real, p: real)
    requires n >= 1.0 && t > 0.0 && Product(g, Scale(n, t)) == p
    requires 0.0 <= p <= Widest(n, t)
    ensures 0.0 <= g && Product(g, n) <= n - 1.0
    ensures g == 0.0 <==> p == 0.0
  {
    var d, gap := 2.0 * n * t, g * n - (n - 1.0);
    SignOfProduct(g, d);
    assert gap * (2.0 * t) == g * d - 2.0 * (n - 1.0) * t <= 0.0;
    SignOfProduct(gap, 2.0 * t);
  }

  /** The index lies in [0, 1 - 1/n], and is 0 exactly when all values are equal. */
  lemma GiniRange(xs: seq<real>, v: seq<real>)
    requires v == NonNegative(xs)
    ensures v == [] ==> Gini(xs) == 0.0
    ensures v != [] ==> 0.0 <= Gini(xs) && Product(Gini(xs), |v| as real) <= |v| as real - 1.0
    ensures Gini(xs) == 0.0 <==> AllEqual(v)
  {
    SumNonNegative(v);
    GiniIsPairwise(xs, v);
    if v != [] && Sum(v) != 0.0 {
      PairSumRange(v);
      PairSumZero(v);
      QuotientBounds(Gini(xs), |v| as real, Sum(v), PairSum(v, v));
    } else {
      assert Product(0.0, |v| as real) == 0.0;
    }
  }

  // ---- Per namespace ----

  datatype Row = Row(ns: string, gini: real, workloads: nat)

  type Stall = ((string, string), real)

  /** The stall values of one namespace, in order. */
  function ValuesOf(stall: seq<Stall>, ns: string): seq<real> {
    if stall == [] then []
    else ValuesOf(stall[..|stall| - 1], ns) + (if stall[|stall| - 1].0.0 == ns then [stall[|stall| - 1].1] else [])
  }

  predicate ByName(a: Row, b: Row) { LessEq(a.ns, b.ns) }

  lemma ByNameIsPreorder()
    ensures TotalPreorder(ByName)
  {
    forall a, b, c ensures (ByName(a, b) || ByName(b, a)) && (ByName(a, b) && ByName(b, c) ==> ByName(a, c)) {
      LessEqOrder(a.ns, b.ns, c.ns);
    }
  }

  /** byNs holds the non-empty value lists, by namespace. */
  ghost predicate Grouping(stall: seq<Stall>, byNs: map<string, seq<real>>) {
    forall ns :: ValuesOf(stall, ns) == (if ns in byNs then byNs[ns] else []) && (ns in byNs ==> byNs[ns] != [])
  }

  lemma GroupNext(stall: seq<Stall>, x: Stall, byNs: map<string, seq<real>>)
    requires Grouping(stall, byNs)
    ensures Grouping(stall + [x], byNs[x.0.0 := (if x.0.0 in byNs then byNs[x.0.0] else []) + [x.1]])
  {
    Snoc(stall, x);
    forall ns ensures ValuesOf(stall + [x], ns) == ValuesOf(stall, ns) + (if x.0.0 == ns then [x.1] else []) {
    }
  }

  method GroupByNamespace(stall: seq<Stall>) returns (byNs: map<string, seq<real>>)
    ensures forall ns :: ns in byNs <==> ValuesOf(stall, ns) != []
    ensures forall ns :: ns in byNs ==> byNs[ns] == ValuesOf(stall, ns)
  {
    byNs := map[];
    for i := 0 to |stall|
      invariant Grouping(stall[..i], byNs)
    {
      var ns, v := stall[i].0.0, stall[i].1;
      GroupNext(stall[..i], stall[i], byNs);
      assert stall[..i + 1] == stall[..i] + [stall[i]];
      byNs := byNs[ns := (if ns in byNs then byNs[ns] else []) + [v]];
    }
    assert stall[..|stall|] == stall;
  }

  ghost predicate IsRow(stall: seq<Stall>, r: Row) {
    ValuesOf(stall, r.ns) != [] && r == Row(r.ns, Gini(ValuesOf(stall, r.ns)), |ValuesOf(stall, r.ns)|)
  }

  /** One row for each namespace outside todo that occurs. */
  ghost predicate Listed(stall: seq<Stall>, todo: set<string>, rows: seq<Row>) {
    && (forall r :: r in rows <==> r.ns !in todo && IsRow(stall, r))
    && (forall i, j :: 0 <= i < j < |rows| ==> rows[i].ns != rows[j].ns)
  }

  lemma ListNext(stall: seq<Stall>, todo: set<string>, rows: seq<Row>, row: Row)
    requires Listed(stall, todo, rows) && row.ns in todo && IsRow(stall, row)
    ensures Listed(stall, todo - {row.ns}, rows + [row])
  {
  }

  lemma ListPermuted(stall: seq<Stall>, rows: seq<Row>, rows': seq<Row>)
    requires Listed(stall, {}, rows) && multiset(rows) == multiset(rows')
    ensures Listed(stall, {}, rows')
  {
    var key := (r: Row) => r.ns;
    assert DistinctBy(rows, key);
    DistinctPermuted(rows, rows', key);
    forall i, j | 0 <= i < j < |rows'| ensures rows'[i].ns != rows'[j].ns { assert key(rows'[i]) != key(rows'[j]); }
    forall r ensures r in rows' <==> r in rows { assert r in rows' <==> r in multiset(rows'); }
  }

  /** One row per namespace that occurs, in name order, over exactly that namespace's values. */
  method Fairness(stall: seq<Stall>) returns (rows: seq<Row>)
    ensures SortedBy(rows, ByName) && Listed(stall, {}, rows)
  {
    var byNs := GroupByNamespace(stall);
    var todo, listed: seq<Row> := byNs.Keys, [];
    while todo != {}
      invariant todo <= byNs.Keys && Listed(stall, todo, listed)
      decreases todo
    {
      var ns :| ns in todo;
      var row := Row(ns, Gini(byNs[ns]), |byNs[ns]|);
      ListNext(stall, todo, listed, row);
      listed, todo := listed + [row], todo - {ns};
    }
    ByNameIsPreorder();
    SortBySorts(listed, ByName);
    rows := SortBy(listed, ByName);
    ListPermuted(stall, listed, rows);
  }

  /** Rows are listed by name, each namespace once. */
  lemma RowsByName(stall: seq<Stall>, rows: seq<Row>, i: nat, j: nat)
    requires SortedBy(rows, ByName) && Listed(stall, {}, rows) && i < j < |rows|
    ensures Less(rows[i].ns, rows[j].ns)
  {
    assert ByName(rows[i], rows[j]);
    LessTrichotomy(rows[i].ns, rows[j].ns);
  }
}
