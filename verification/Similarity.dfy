/** `_jaccard` and `_case_sim`: structural similarity of incident fingerprints. */
module Similarity {
  import opened Basics

  const W_VICTIMS: real := 0.4
  const W_STRESSORS: real := 0.2
  const W_MOTIF: real := 0.4

  type Link = (string, string)

  datatype Fingerprint = Fingerprint(stressors: set<string>, victims: set<string>, motif: set<Link>,
                                     signal: string, kind: Option<string>)

  /** Set overlap, 1 when both are empty. */
  function Jaccard<T(==)>(a: set<T>, b: set<T>): real {
    if a == {} && b == {} then 1.0
    else
      assert a + b != {};
      |a * b| as real / |a + b| as real
  }

  /** No witness kind and an empty one are the same. */
  function KindName(k: Option<string>): string { if k.Some? then k.value else "" }

  predicate SameType(f: Fingerprint, g: Fingerprint) {
    f.signal == g.signal && KindName(f.kind) == KindName(g.kind)
  }

  function Sim(f: Fingerprint, g: Fingerprint): real {
    if !SameType(f, g) then 0.0
    else W_VICTIMS * Jaccard(f.victims, g.victims)
         + W_STRESSORS * Jaccard(f.stressors, g.stressors)
         + W_MOTIF * Jaccard(f.motif, g.motif)
  }

  // ---- 1 - Jaccard is a metric ----

  ghost function Distance<T>(a: set<T>, b: set<T>): nat { |a - b| + |b - a| }

  /** The share 2t / (k + t) of a difference t between sets of total size k. */
  ghost function Share(t: real, k: real): real
    requires t >= 0.0 && k >= 0.0
  {
    if k + t == 0.0 then 0.0 else 2.0 * t / (k + t)
  }

  lemma SubsetSize<T>(a: set<T>, b: set<T>)
    requires a <= b
    ensures |a| <= |b|
  {
    assert b == a + (b - a);
  }

  lemma DistanceTriangle<T>(a: set<T>, b: set<T>, c: set<T>)
    ensures Distance(a, c) <= Distance(a, b) + Distance(b, c)
    ensures |b| <= |a| + Distance(a, b)
  {
    SubsetSize(a - c, (a - b) + (b - c));
    SubsetSize(c - a, (c - b) + (b - a));
    assert |b| == |b - a| + |a * b|;
    SubsetSize(a * b, a);
  }

  lemma DivideApart(i: real, d: real, u: real)
    requires u > 0.0 && i + d == u
    ensures 1.0 - i / u == 2.0 * d / (2.0 * u)
  {
    var x, y := i / u, 2.0 * d / (2.0 * u);
    assert x * u == i && y * (2.0 * u) == 2.0 * d;
    assert (1.0 - x - y) * u == u - x * u - y * u;
    NoZeroFactor(1.0 - x - y, u);
  }

  lemma NoZeroFactor(p: real, u: real)
    requires u > 0.0 && p * u == 0.0
    ensures p == 0.0
  {
  }

  lemma JaccardDistance<T>(a: set<T>, b: set<T>)
    ensures 1.0 - Jaccard(a, b) == Share(Distance(a, b) as real, (|a| + |b|) as real)
  {
    if a != {} || b != {} {
      var u, d, i := |a + b|, Distance(a, b), |a * b|;
      assert a + b != {} && u > 0;
      assert i + d == u && |a| + |b| + d == 2 * u;
      DivideApart(i as real, d as real, u as real);
    }
  }

  lemma QuotientGrows(p: real, q: real, r: real)
    requires 0.0 <= p <= q && 0.0 < q && 0.0 <= r
    ensures p / q <= (p + r) / (q + r)
  {
    var x, y := p / q, (p + r) / (q + r);
    assert x * q == p && y * (q + r) == p + r;
    assert x <= 1.0;
    assert (y - x) * (q + r) == r - x * r == r * (1.0 - x) >= 0.0;
  }

  lemma ShareGrows(t: real, t': real, k: real)
    requires 0.0 <= t <= t' && 0.0 <= k
    ensures Share(t, k) <= Share(t', k)
  {
    if k + t > 0.0 {
      QuotientGrows(t, k + t, t' - t);
      assert 2.0 * t / (k + t) == 2.0 * (t / (k + t));
      assert 2.0 * t' / (k + t') == 2.0 * (t' / (k + t'));
    } else if k + t' > 0.0 {
      assert 2.0 * t' / (k + t') >= 0.0;
    }
  }

  lemma SmallerDenominator(x: real, d: real, e: real)
    requires 0.0 <= x && 0.0 < d <= e
    ensures 2.0 * x / e <= 2.0 * x / d
  {
  }

  lemma SplitQuotient(x: real, y: real, e: real)
    requires e > 0.0
    ensures 2.0 * (x + y) / e == 2.0 * x / e + 2.0 * y / e
  {
  }

  lemma ShareSplits(x: real, y: real, k: real, k1: real, k2: real)
    requires 0.0 <= x && 0.0 <= y && 0.0 <= k && 0.0 <= k1 && 0.0 <= k2
    requires k1 <= k + y && k2 <= k + x
    ensures Share(x + y, k) <= Share(x, k1) + Share(y, k2)
  {
    var e := k + (x + y);
    if e > 0.0 {
      SplitQuotient(x, y, e);
      PartOfShare(x, e, k1);
      PartOfShare(y, e, k2);
    }
  }

  lemma PartOfShare(x: real, e: real, k: real)
    requires 0.0 <= x && 0.0 < e && 0.0 <= k && k + x <= e
    ensures 2.0 * x / e <= Share(x, k)
  {
    if k + x > 0.0 {
      SmallerDenominator(x, k + x, e);
    } else {
      assert x == 0.0 && 2.0 * x / e == 0.0;
    }
  }

  lemma JaccardTriangle<T>(a: set<T>, b: set<T>, c: set<T>)
    ensures 1.0 - Jaccard(a, c) <= (1.0 - Jaccard(a, b)) + (1.0 - Jaccard(b, c))
  {
    JaccardDistance(a, b);
    JaccardDistance(b, c);
    JaccardDistance(a, c);
    DistanceTriangle(a, b, c);
    DistanceTriangle(c, b, a);
    var x, y, z := Distance(a, b) as real, Distance(b, c) as real, Distance(a, c) as real;
    ShareGrows(z, x + y, (|a| + |c|) as real);
    ShareSplits(x, y, (|a| + |c|) as real, (|a| + |b|) as real, (|b| + |c|) as real);
  }

  lemma JaccardRange<T>(a: set<T>, b: set<T>)
    ensures 0.0 <= Jaccard(a, b) <= 1.0
    ensures Jaccard(a, b) == Jaccard(b, a)
    ensures Jaccard(a, b) == 1.0 <==> a == b
  {
    assert a + b == b + a && a * b == b * a;
    if a != {} || b != {} {
      assert a + b != {} && |a + b| > 0;
      SubsetSize(a * b, a + b);
      QuotientRange(|a * b| as real, |a + b| as real);
      if a == b {
        assert a * b == a && a + b == a;
      } else {
        SmallerSubset(a * b, a + b);
      }
    }
  }

  lemma SmallerSubset<T>(a: set<T>, b: set<T>)
    requires a <= b && a != b
    ensures |a| < |b|
  {
    var x :| x in b && x !in a;
    SubsetSize(a, b - {x});
  }

  lemma QuotientRange(i: real, u: real)
    requires 0.0 <= i <= u && 0.0 < u
    ensures 0.0 <= i / u <= 1.0
    ensures i / u == 1.0 <==> i == u
  {
  }

  // ---- Similarity of fingerprints ----

  /** The same type with the same victims, stressors and motif. */
  predicate SameShape(f: Fingerprint, g: Fingerprint) {
    SameType(f, g) && f.victims == g.victims && f.stressors == g.stressors && f.motif == g.motif
  }

  lemma SimRange(f: Fingerprint, g: Fingerprint)
    ensures 0.0 <= Sim(f, g) <= 1.0
    ensures Sim(f, g) == Sim(g, f)
    ensures Sim(f, g) == 1.0 <==> SameShape(f, g)
  {
    JaccardRange(f.victims, g.victims);
    JaccardRange(f.stressors, g.stressors);
    JaccardRange(f.motif, g.motif);
  }

  /** The share of the union that is common. */
  lemma JaccardCounts<T>(a: set<T>, b: set<T>)
    requires a + b != {}
    ensures Product(Jaccard(a, b), |a + b| as real) == |a * b| as real
  {
    assert |a + b| > 0;
  }

  /** What each feature is worth: 0.4 for the victims, 0.2 for the stressors, 0.4 for the motif, when it is disjoint and the rest agrees. */
  lemma FeatureWorth(f: Fingerprint, g: Fingerprint)
    requires f.signal == g.signal && KindName(f.kind) == KindName(g.kind)
    requires f.victims + g.victims != {} && f.stressors + g.stressors != {} && f.motif + g.motif != {}
    ensures f.victims !! g.victims && f.stressors == g.stressors && f.motif == g.motif ==> Sim(f, g) == 0.6
    ensures f.victims == g.victims && f.stressors !! g.stressors && f.motif == g.motif ==> Sim(f, g) == 0.8
    ensures f.victims == g.victims && f.stressors == g.stressors && f.motif !! g.motif ==> Sim(f, g) == 0.6
  {
    JaccardEnds(f.victims, g.victims);
    JaccardEnds(f.stressors, g.stressors);
    JaccardEnds(f.motif, g.motif);
  }

  lemma JaccardEnds<T>(a: set<T>, b: set<T>)
    requires a + b != {}
    ensures a !! b ==> Jaccard(a, b) == 0.0
    ensures a == b ==> Jaccard(a, b) == 1.0
  {
    JaccardRange(a, b);
    if a !! b {
      assert a * b == {};
      JaccardCounts(a, b);
    }
  }

  /** Incidents of different signals or witness kinds have nothing in common. */
  lemma TypesApart(f: Fingerprint, g: Fingerprint)
    ensures f.signal != g.signal || KindName(f.kind) != KindName(g.kind) ==> Sim(f, g) == 0.0
    ensures f.signal == g.signal && f.kind == g.kind && !(f.victims !! g.victims && f.stressors !! g.stressors && f.motif !! g.motif) ==>
              Sim(f, g) > 0.0
  {
    if f.signal == g.signal && f.kind == g.kind {
      Overlap(f.victims, g.victims);
      Overlap(f.stressors, g.stressors);
      Overlap(f.motif, g.motif);
    }
  }

  lemma Overlap<T>(a: set<T>, b: set<T>)
    ensures Jaccard(a, b) >= 0.0 && (!(a !! b) ==> Jaccard(a, b) > 0.0)
  {
    JaccardRange(a, b);
    if !(a !! b) {
      var x :| x in a && x in b;
      assert x in a * b;
      assert x in a + b && |a * b| > 0 && |a + b| > 0;
      QuotientRange(|a * b| as real, |a + b| as real) by { SubsetSize(a * b, a + b); }
    }
  }

  /** Among fingerprints of one type, 1 - similarity obeys the triangle inequality. */
  lemma SimTriangle(f: Fingerprint, g: Fingerprint, h: Fingerprint)
    requires SameType(f, g) && SameType(g, h)
    ensures 1.0 - Sim(f, h) <= (1.0 - Sim(f, g)) + (1.0 - Sim(g, h))
  {
    JaccardTriangle(f.victims, g.victims, h.victims);
    JaccardTriangle(f.stressors, g.stressors, h.stressors);
    JaccardTriangle(f.motif, g.motif, h.motif);
  }

  /** Two incidents that are both close to one prototype are close to each other. */
  lemma FoldedAreClose(f: Fingerprint, g: Fingerprint, prototype: Fingerprint, tau: real)
    requires tau > 0.0 && Sim(f, prototype) >= tau && Sim(g, prototype) >= tau
    ensures Sim(f, g) >= 2.0 * tau - 1.0
  {
    SimRange(g, prototype);
    SimTriangle(f, prototype, g);
  }
}
