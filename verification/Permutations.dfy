/** Taking a sequence apart at its end, and out of the middle of a permutation. */
module Permutations {

  lemma Snoc<T>(s: seq<T>, x: T)
    ensures (s + [x])[..|s + [x]| - 1] == s && (s + [x])[|s + [x]| - 1] == x
  {
  }

  lemma Unsnoc<T>(s: seq<T>)
    requires s != []
    ensures s == s[..|s| - 1] + [s[|s| - 1]]
  {
  }

  function Without<T>(s: seq<T>, k: nat): seq<T>
    requires k < |s|
  {
    s[..k] + s[k + 1..]
  }

  /** Removing an element before the last one leaves the last one in place. */
  lemma RemoveBefore<T>(s: seq<T>, k: nat)
    requires k < |s| - 1
    ensures var n := |s| - 1; Without(s, k) == Without(s[..n], k) + [s[n]]
  {
    var n := |s| - 1;
    var r, t := Without(s, k), Without(s[..n], k) + [s[n]];
    forall i | 0 <= i < |r| ensures r[i] == t[i] {
      if i < k { assert t[i] == s[i]; }
    }
  }

  lemma RemoveLast<T>(s: seq<T>)
    requires s != []
    ensures Without(s, |s| - 1) == s[..|s| - 1]
  {
  }

  lemma Taken<T>(s: seq<T>, k: nat)
    requires k < |s|
    ensures multiset(Without(s, k)) == multiset(s) - multiset{s[k]}
  {
    assert s == s[..k] + [s[k]] + s[k + 1..];
    assert multiset(s) == multiset(s[..k]) + multiset{s[k]} + multiset(s[k + 1..]);
  }

  /** Where the last value of s stands in a permutation t of s, and what remains without it. */
  lemma Locate<T>(s: seq<T>, t: seq<T>) returns (k: nat)
    requires multiset(s) == multiset(t) && s != []
    ensures k < |t| && t[k] == s[|s| - 1]
    ensures multiset(s[..|s| - 1]) == multiset(Without(t, k))
  {
    var x := s[|s| - 1];
    assert x in multiset(t);
    k :| 0 <= k < |t| && t[k] == x;
    RemoveLast(s);
    Taken(s, |s| - 1);
    Taken(t, k);
  }

  lemma EmptyPermuted<T>(s: seq<T>, t: seq<T>)
    requires multiset(s) == multiset(t) && s == []
    ensures t == []
  {
    assert |multiset(t)| == |t|;
  }

  // ---- Counting ----

  /** How many elements satisfy q. */
  ghost function Count<T>(s: seq<T>, q: T -> bool): nat {
    if s == [] then 0 else Count(s[..|s| - 1], q) + (if q(s[|s| - 1]) then 1 else 0)
  }

  lemma {:induction false} CountRemove<T>(s: seq<T>, q: T -> bool, k: nat)
    requires k < |s|
    ensures Count(s, q) == Count(Without(s, k), q) + (if q(s[k]) then 1 else 0)
    decreases |s|
  {
    var n := |s| - 1;
    if k == n {
      RemoveLast(s);
    } else {
      RemoveBefore(s, k);
      Snoc(Without(s[..n], k), s[n]);
      CountRemove(s[..n], q, k);
    }
  }

  lemma {:induction false} CountPermuted<T>(s: seq<T>, t: seq<T>, q: T -> bool)
    requires multiset(s) == multiset(t)
    ensures Count(s, q) == Count(t, q)
    decreases |s|
  {
    if s == [] {
      EmptyPermuted(s, t);
    } else {
      var k := Locate(s, t);
      CountPermuted(s[..|s| - 1], Without(t, k), q);
      CountRemove(t, q, k);
    }
  }

  /** When a stretch [m, n) satisfies q, at least its length counts. */
  lemma {:induction false} CountStretch<T>(s: seq<T>, q: T -> bool, m: nat, n: nat)
    requires m <= n <= |s| && forall i :: m <= i < n ==> q(s[i])
    ensures Count(s, q) >= n - m
  {
    if n > m {
      if n == |s| {
        CountStretch(s[..n - 1], q, m, n - 1);
      } else {
        CountStretch(s[..|s| - 1], q, m, n);
      }
    }
  }

  lemma {:induction false} CountSome<T>(s: seq<T>, q: T -> bool) returns (i: nat)
    requires Count(s, q) > 0
    ensures i < |s| && q(s[i])
  {
    if q(s[|s| - 1]) {
      i := |s| - 1;
    } else {
      i := CountSome(s[..|s| - 1], q);
    }
  }
}
