/** Pod and workload names: `str.split`, `str.join`, string order and `stable_workload`. */
module Names {

  const DASH := '-'

  /** Python's `<` on strings: by code point, a proper prefix first. */
  predicate Less(a: string, b: string) {
    b != [] && (a == [] || a[0] < b[0] || (a[0] == b[0] && Less(a[1..], b[1..])))
  }

  predicate LessEq(a: string, b: string) { !Less(b, a) }

  lemma {:induction false} LessTrichotomy(a: string, b: string)
    ensures Less(a, b) || a == b || Less(b, a)
    ensures !(Less(a, b) && Less(b, a))
    ensures !Less(a, a)
  {
    if a != [] && b != [] {
      LessTrichotomy(a[1..], b[1..]);
      assert a == [a[0]] + a[1..] && b == [b[0]] + b[1..];
    }
    if a != [] { LessTrichotomy(a[1..], a[1..]); }
  }

  lemma {:induction false} LessTransitive(a: string, b: string, c: string)
    requires Less(a, b) && Less(b, c)
    ensures Less(a, c)
  {
    if a != [] && a[0] == b[0] == c[0] { LessTransitive(a[1..], b[1..], c[1..]); }
  }

  lemma LessEqOrder(a: string, b: string, c: string)
    ensures LessEq(a, b) || LessEq(b, a)
    ensures LessEq(a, b) && LessEq(b, a) <==> a == b
    ensures LessEq(a, b) && LessEq(b, c) ==> LessEq(a, c)
  {
    LessTrichotomy(a, b);
    LessTrichotomy(b, c);
    LessTrichotomy(a, c);
    if LessEq(a, b) && LessEq(b, c) && Less(c, a) && a != b { LessTransitive(c, a, b); }
  }

  /** a and b agree up to i, where a ends or has the smaller character. */
  ghost predicate PartAt(a: string, b: string, i: nat) {
    && i <= |a| && i < |b| && a[..i] == b[..i]
    && (i == |a| || a[i] < b[i])
  }

  lemma {:induction false} LessMeans(a: string, b: string)
    ensures Less(a, b) <==> exists i: nat :: PartAt(a, b, i)
  {
    if a != [] && b != [] {
      LessMeans(a[1..], b[1..]);
      if a[0] == b[0] {
        if i: nat :| PartAt(a[1..], b[1..], i) { PartLater(a, b, i); }
        if i: nat :| PartAt(a, b, i) {
          assert i > 0;
          PartEarlier(a, b, i - 1);
        }
      } else if Less(a, b) {
        assert PartAt(a, b, 0);
      } else {
        if i: nat :| PartAt(a, b, i) { PartStarts(a, b, i); }
      }
    } else if b != [] {
      assert PartAt(a, b, 0);
    }
  }

  lemma PartStarts(a: string, b: string, i: nat)
    requires PartAt(a, b, i) && a != []
    ensures a[0] == b[0] || (i == 0 && a[0] < b[0])
  {
    if i > 0 { assert a[..i][0] == b[..i][0]; }
  }

  lemma PartLater(a: string, b: string, i: nat)
    requires a != [] && b != [] && a[0] == b[0] && PartAt(a[1..], b[1..], i)
    ensures PartAt(a, b, i + 1)
  {
    assert a[..i + 1] == [a[0]] + a[1..][..i] && b[..i + 1] == [b[0]] + b[1..][..i];
  }

  lemma PartEarlier(a: string, b: string, i: nat)
    requires a != [] && b != [] && PartAt(a, b, i + 1)
    ensures PartAt(a[1..], b[1..], i)
  {
    assert a[1..][..i] == a[..i + 1][1..] && b[1..][..i] == b[..i + 1][1..];
  }

  predicate DashFree(s: string) { DASH !in s }

  /** Put c in front of the first part. */
  function Attach(c: char, parts: seq<string>): (r: seq<string>)
    requires |parts| >= 1
    ensures |r| == |parts|
  {
    [[c] + parts[0]] + parts[1..]
  }

  lemma AttachConcat(c: char, p: seq<string>, q: seq<string>)
    requires |p| >= 1
    ensures Attach(c, p + q) == Attach(c, p) + q
  {
  }

  function Split(s: string): (parts: seq<string>)
    ensures |parts| >= 1
  {
    if s == [] then [[]]
    else if s[0] == DASH then [[]] + Split(s[1..])
    else Attach(s[0], Split(s[1..]))
  }

  function Join(parts: seq<string>): string
    requires |parts| >= 1
  {
    if |parts| == 1 then parts[0] else parts[0] + [DASH] + Join(parts[1..])
  }

  /** Drop the ReplicaSet and pod suffixes. */
  function StableWorkload(pod: string): string {
    var parts := Split(pod);
    if |parts| > 2 then Join(parts[..|parts| - 2]) else pod
  }

  lemma {:induction false} SplitConcat(a: string, b: string)
    ensures Split(a + [DASH] + b) == Split(a) + Split(b)
  {
    if a == [] {
      assert a + [DASH] + b == [DASH] + b;
      assert (a + [DASH] + b)[1..] == b;
    } else {
      SplitConcat(a[1..], b);
      var whole, rest := a + [DASH] + b, a[1..] + [DASH] + b;
      assert whole[0] == a[0] && whole[1..] == rest;
      if a[0] == DASH {
        assert Split(whole) == [[]] + (Split(a[1..]) + Split(b));
      } else {
        AttachConcat(a[0], Split(a[1..]), Split(b));
      }
    }
  }

  lemma {:induction false} SplitDashFree(s: string)
    ensures DashFree(s) <==> |Split(s)| == 1
    ensures DashFree(s) ==> Split(s) == [s]
    ensures forall k :: 0 <= k < |Split(s)| ==> DashFree(Split(s)[k])
  {
    if s != [] {
      SplitDashFree(s[1..]);
      assert s == [s[0]] + s[1..];
    }
  }

  lemma {:induction false} JoinSplit(s: string)
    ensures Join(Split(s)) == s
  {
    if s != [] {
      JoinSplit(s[1..]);
      var rest := Split(s[1..]);
      if s[0] == DASH {
        assert ([[]] + rest)[1..] == rest;
      } else {
        assert ([[s[0]] + rest[0]] + rest[1..])[1..] == rest[1..];
      }
    }
  }

  lemma {:induction false} JoinConcat(p: seq<string>, q: seq<string>)
    requires |p| >= 1 && |q| >= 1
    ensures Join(p + q) == Join(p) + [DASH] + Join(q)
  {
    if |p| == 1 {
      assert (p + q)[1..] == q;
    } else {
      JoinConcat(p[1..], q);
      assert (p + q)[1..] == p[1..] + q;
    }
  }

  /** A restart changes only the two dash-free suffixes, which the workload name drops. */
  lemma StableWorkloadDropsSuffixes(w: string, h1: string, h2: string)
    requires DashFree(h1) && DashFree(h2)
    ensures StableWorkload(w + [DASH] + h1 + [DASH] + h2) == w
  {
    SplitConcat(w + [DASH] + h1, h2);
    SplitConcat(w, h1);
    SplitDashFree(h1);
    SplitDashFree(h2);
    var parts := Split(w + [DASH] + h1 + [DASH] + h2);
    assert parts == Split(w) + [h1, h2];
    assert parts[..|parts| - 2] == Split(w);
    JoinSplit(w);
  }

  /** Conversely every name is either its own workload, or its workload and two dash-free suffixes. */
  lemma StableWorkloadShape(pod: string) returns (h1: string, h2: string)
    ensures if |Split(pod)| <= 2 then StableWorkload(pod) == pod
            else DashFree(h1) && DashFree(h2) && pod == StableWorkload(pod) + [DASH] + h1 + [DASH] + h2
  {
    var parts := Split(pod);
    h1, h2 := [], [];
    if |parts| > 2 {
      var n := |parts|;
      h1, h2 := parts[n - 2], parts[n - 1];
      SplitDashFree(pod);
      JoinSplit(pod);
      JoinConcat(parts[..n - 2], [h1, h2]);
      assert parts == parts[..n - 2] + [h1, h2];
      assert [h1, h2][1..] == [h2];
      assert Join([h1, h2]) == h1 + [DASH] + h2;
      assert pod == StableWorkload(pod) + [DASH] + (h1 + [DASH] + h2);
    }
  }
}
