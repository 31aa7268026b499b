/** Python's `sorted(xs, key=...)`: a stable insertion sort under a comparison. */
module Sorting {

  ghost predicate TotalPreorder<T(!new)>(leq: (T, T) -> bool) {
    && (forall a, b :: leq(a, b) || leq(b, a))
    && (forall a, b, c :: leq(a, b) && leq(b, c) ==> leq(a, c))
  }

  ghost predicate SortedBy<T>(s: seq<T>, leq: (T, T) -> bool) {
    forall i, j :: 0 <= i < j < |s| ==> leq(s[i], s[j])
  }

  // An equal element already in `s` stays behind `x`, which is what keeps SortBy stable (SortByIsStable).
  function Insert<T>(x: T, s: seq<T>, leq: (T, T) -> bool): seq<T> {
    if s == [] || leq(x, s[0]) then [x] + s else [s[0]] + Insert(x, s[1..], leq)
  }

  function SortBy<T>(s: seq<T>, leq: (T, T) -> bool): seq<T> {
    if s == [] then [] else Insert(s[0], SortBy(s[1..], leq), leq)
  }

  lemma {:induction false} InsertPermutes<T>(x: T, s: seq<T>, leq: (T, T) -> bool)
    ensures multiset(Insert(x, s, leq)) == multiset(s) + multiset{x}
    ensures |Insert(x, s, leq)| == |s| + 1
  {
    if s == [] || leq(x, s[0]) {
    } else {
      InsertPermutes(x, s[1..], leq);
      assert s == [s[0]] + s[1..];
    }
  }

  lemma {:induction false} InsertSorted<T(!new)>(x: T, s: seq<T>, leq: (T, T) -> bool)
    requires TotalPreorder(leq) && SortedBy(s, leq)
    ensures SortedBy(Insert(x, s, leq), leq)
  {
    if s == [] {
    } else if leq(x, s[0]) {
      forall j | 0 <= j < |s| ensures leq(x, s[j]) {
        if j > 0 { assert leq(s[0], s[j]); }
      }
    } else {
      InsertSorted(x, s[1..], leq);
      InsertPermutes(x, s[1..], leq);
      var t := Insert(x, s[1..], leq);
      forall k | 0 <= k < |t| ensures leq(s[0], t[k]) {
        assert t[k] in multiset(t);
        assert leq(s[0], x);
        if t[k] != x {
          assert t[k] in s[1..];
        }
      }
    }
  }

  lemma {:induction false} SortBySorts<T(!new)>(s: seq<T>, leq: (T, T) -> bool)
    requires TotalPreorder(leq)
    ensures SortedBy(SortBy(s, leq), leq)
    ensures multiset(SortBy(s, leq)) == multiset(s)
    ensures |SortBy(s, leq)| == |s|
  {
    if s != [] {
      SortBySorts(s[1..], leq);
      InsertSorted(s[0], SortBy(s[1..], leq), leq);
      InsertPermutes(s[0], SortBy(s[1..], leq), leq);
      assert s == [s[0]] + s[1..];
    }
  }

  // ---- Stability ----

  ghost predicate Ties<T>(a: T, b: T, leq: (T, T) -> bool) { leq(a, b) && leq(b, a) }

  /** The elements of s that tie with x, in order. */
  ghost function Tied<T>(s: seq<T>, x: T, leq: (T, T) -> bool): seq<T> {
    if s == [] then []
    else if Ties(s[0], x, leq) then [s[0]] + Tied(s[1..], x, leq)
    else Tied(s[1..], x, leq)
  }

  ghost predicate SameTies<T(!new)>(s: seq<T>, t: seq<T>, leq: (T, T) -> bool) {
    forall x :: Tied(s, x, leq) == Tied(t, x, leq)
  }

  /** t is s in order, elements that tie as they stood in s. */
  ghost predicate IsStableSort<T(!new)>(s: seq<T>, t: seq<T>, leq: (T, T) -> bool) {
    SortedBy(t, leq) && multiset(t) == multiset(s) && SameTies(s, t, leq)
  }

  lemma {:induction false} InsertIsStable<T(!new)>(x: T, s: seq<T>, leq: (T, T) -> bool, y: T)
    requires TotalPreorder(leq)
    ensures Tied(Insert(x, s, leq), y, leq) == Tied([x] + s, y, leq)
  {
    assert ([x] + s)[1..] == s;
    if s != [] && !leq(x, s[0]) {
      var rest := Insert(x, s[1..], leq);
      InsertIsStable(x, s[1..], leq, y);
      assert ([s[0]] + rest)[1..] == rest;
      assert ([x] + s[1..])[1..] == s[1..];
      assert !(Ties(x, y, leq) && Ties(s[0], y, leq));
    }
  }

  lemma {:induction false} TiedKept<T(!new)>(s: seq<T>, leq: (T, T) -> bool, y: T)
    requires TotalPreorder(leq)
    ensures Tied(SortBy(s, leq), y, leq) == Tied(s, y, leq)
  {
    if s != [] {
      var rest := SortBy(s[1..], leq);
      TiedKept(s[1..], leq, y);
      InsertIsStable(s[0], rest, leq, y);
      assert ([s[0]] + rest)[1..] == rest;
    }
  }

  lemma SortByIsStable<T(!new)>(s: seq<T>, leq: (T, T) -> bool)
    requires TotalPreorder(leq)
    ensures IsStableSort(s, SortBy(s, leq), leq)
  {
    SortBySorts(s, leq);
    forall x ensures Tied(s, x, leq) == Tied(SortBy(s, leq), x, leq) { TiedKept(s, leq, x); }
  }

  /** Ties keep their order: of two elements that tie, the one listed first stood first. */
  lemma TiesKeepOrder<T(!new)>(s: seq<T>, t: seq<T>, leq: (T, T) -> bool, i: nat, j: nat) returns (a: nat, b: nat)
    requires TotalPreorder(leq) && IsStableSort(s, t, leq) && i < j < |t| && Ties(t[i], t[j], leq)
    ensures a < b < |s| && s[a] == t[i] && s[b] == t[j]
  {
    var x := t[i];
    assert Ties(x, x, leq) && Ties(t[j], x, leq);
    var p, q := TiedAt(t, x, leq, i, j);
    assert Tied(s, x, leq) == Tied(t, x, leq);
    a, b := TiedFrom(s, x, leq, p, q);
  }

  lemma {:induction false} TiedAt<T(!new)>(s: seq<T>, x: T, leq: (T, T) -> bool, i: nat, j: nat) returns (p: nat, q: nat)
    requires i < j < |s| && Ties(s[i], x, leq) && Ties(s[j], x, leq)
    ensures p < q < |Tied(s, x, leq)| && Tied(s, x, leq)[p] == s[i] && Tied(s, x, leq)[q] == s[j]
  {
    if i > 0 {
      p, q := TiedAt(s[1..], x, leq, i - 1, j - 1);
      if Ties(s[0], x, leq) { p, q := p + 1, q + 1; }
    } else {
      p := 0;
      q := TiedOneAt(s[1..], x, leq, j - 1);
      q := q + 1;
    }
  }

  lemma {:induction false} TiedOneAt<T(!new)>(s: seq<T>, x: T, leq: (T, T) -> bool, j: nat) returns (q: nat)
    requires j < |s| && Ties(s[j], x, leq)
    ensures q < |Tied(s, x, leq)| && Tied(s, x, leq)[q] == s[j]
  {
    if j == 0 {
      q := 0;
    } else {
      q := TiedOneAt(s[1..], x, leq, j - 1);
      if Ties(s[0], x, leq) { q := q + 1; }
    }
  }

  lemma {:induction false} TiedFrom<T(!new)>(s: seq<T>, x: T, leq: (T, T) -> bool, p: nat, q: nat) returns (a: nat, b: nat)
    requires p < q < |Tied(s, x, leq)|
    ensures a < b < |s| && s[a] == Tied(s, x, leq)[p] && s[b] == Tied(s, x, leq)[q]
  {
    if Ties(s[0], x, leq) {
      if p > 0 {
        a, b := TiedFrom(s[1..], x, leq, p - 1, q - 1);
        a, b := a + 1, b + 1;
      } else {
        a := 0;
        b := TiedOneFrom(s[1..], x, leq, q - 1);
        b := b + 1;
      }
    } else {
      a, b := TiedFrom(s[1..], x, leq, p, q);
      a, b := a + 1, b + 1;
    }
  }

  lemma {:induction false} TiedOneFrom<T(!new)>(s: seq<T>, x: T, leq: (T, T) -> bool, q: nat) returns (b: nat)
    requires q < |Tied(s, x, leq)|
    ensures b < |s| && s[b] == Tied(s, x, leq)[q]
  {
    if Ties(s[0], x, leq) && q == 0 {
      b := 0;
    } else {
      b := TiedOneFrom(s[1..], x, leq, if Ties(s[0], x, leq) then q - 1 else q);
      b := b + 1;
    }
  }

  lemma {:induction false} TiedMembers<T(!new)>(s: seq<T>, x: T, leq: (T, T) -> bool)
    ensures forall y :: y in Tied(s, x, leq) <==> y in s && Ties(y, x, leq)
  {
    if s != [] { TiedMembers(s[1..], x, leq); }
  }

  lemma SameTiesMembers<T(!new)>(s: seq<T>, t: seq<T>, leq: (T, T) -> bool, x: T)
    requires TotalPreorder(leq) && SameTies(s, t, leq) && x in s
    ensures x in t
  {
    TiedMembers(s, x, leq);
    TiedMembers(t, x, leq);
    assert Ties(x, x, leq);
    assert Tied(s, x, leq) == Tied(t, x, leq);
  }

  lemma HeadIsLeast<T(!new)>(s: seq<T>, leq: (T, T) -> bool, x: T)
    requires TotalPreorder(leq) && SortedBy(s, leq) && x in s
    ensures leq(s[0], x)
  {
    var i :| 0 <= i < |s| && s[i] == x;
    if i == 0 { assert leq(x, x); } else { assert leq(s[0], s[i]); }
  }

  lemma SameHead<T(!new)>(s: seq<T>, t: seq<T>, leq: (T, T) -> bool)
    requires TotalPreorder(leq) && SortedBy(s, leq) && SortedBy(t, leq) && SameTies(s, t, leq) && s != [] && t != []
    ensures s[0] == t[0]
  {
    SameTiesMembers(s, t, leq, s[0]);
    SameTiesMembers(t, s, leq, t[0]);
    HeadIsLeast(s, leq, t[0]);
    HeadIsLeast(t, leq, s[0]);
    assert Tied(s, s[0], leq) == Tied(t, s[0], leq);
    assert Tied(s, s[0], leq)[0] == s[0] && Tied(t, s[0], leq)[0] == t[0];
  }

  lemma SameTail<T(!new)>(s: seq<T>, t: seq<T>, leq: (T, T) -> bool)
    requires SameTies(s, t, leq) && s != [] && t != [] && s[0] == t[0]
    ensures SameTies(s[1..], t[1..], leq)
  {
    forall x ensures Tied(s[1..], x, leq) == Tied(t[1..], x, leq) {
      assert Tied(s, x, leq) == Tied(t, x, leq);
      if Ties(s[0], x, leq) {
        assert Tied(s[1..], x, leq) == Tied(s, x, leq)[1..] && Tied(t[1..], x, leq) == Tied(t, x, leq)[1..];
      }
    }
  }

  lemma SameEmpty<T(!new)>(s: seq<T>, t: seq<T>, leq: (T, T) -> bool)
    requires TotalPreorder(leq) && SameTies(s, t, leq) && t == []
    ensures s == []
  {
    if s != [] { SameTiesMembers(s, t, leq, s[0]); }
  }

  /** The order and the ties determine the result, whatever the algorithm. */
  lemma {:induction false} StableSortUnique<T(!new)>(s: seq<T>, t: seq<T>, leq: (T, T) -> bool)
    requires TotalPreorder(leq) && SortedBy(s, leq) && SortedBy(t, leq) && SameTies(s, t, leq)
    ensures s == t
    decreases |s|
  {
    if s == [] {
      SameEmpty(t, s, leq);
    } else if t == [] {
      SameEmpty(s, t, leq);
    } else {
      SameHead(s, t, leq);
      SameTail(s, t, leq);
      StableSortUnique(s[1..], t[1..], leq);
      assert s == [s[0]] + s[1..] && t == [t[0]] + t[1..];
    }
  }

  // Sorting neither adds nor drops an element.
  lemma SortByMembers<T(!new)>(s: seq<T>, leq: (T, T) -> bool)
    requires TotalPreorder(leq)
    ensures forall x :: x in SortBy(s, leq) <==> x in s
  {
    SortBySorts(s, leq);
    forall x ensures x in SortBy(s, leq) <==> x in s {
      assert x in SortBy(s, leq) <==> x in multiset(SortBy(s, leq));
    }
  }

  predicate Ascending(a: real, b: real) { a <= b }

  lemma AscendingIsPreorder()
    ensures TotalPreorder(Ascending)
  {
  }

  // ---- Distinct keys survive a permutation ----

  ghost predicate DistinctBy<T, K>(s: seq<T>, key: T -> K) {
    forall i, j :: 0 <= i < j < |s| ==> key(s[i]) != key(s[j])
  }

  lemma TwiceIn<T>(s: seq<T>, i: nat, j: nat)
    requires i < j < |s| && s[i] == s[j]
    ensures multiset(s)[s[i]] >= 2
  {
    assert s == s[..i] + [s[i]] + s[i + 1..j] + [s[j]] + s[j + 1..];
  }

  lemma OnceIn<T, K>(s: seq<T>, key: T -> K, x: T)
    requires DistinctBy(s, key)
    ensures multiset(s)[x] <= 1
  {
    if x in s {
      var k :| 0 <= k < |s| && s[k] == x;
      assert s == s[..k] + [x] + s[k + 1..];
      assert x !in s[..k] && x !in s[k + 1..];
    }
  }

  lemma DistinctPermuted<T, K>(s: seq<T>, t: seq<T>, key: T -> K)
    requires DistinctBy(s, key) && multiset(s) == multiset(t)
    ensures DistinctBy(t, key)
  {
    forall i, j | 0 <= i < j < |t| ensures key(t[i]) != key(t[j]) {
      assert t[i] in multiset(t) && t[j] in multiset(t);
      assert t[i] in s && t[j] in s;
      if key(t[i]) == key(t[j]) {
        assert t[i] == t[j];
        TwiceIn(t, i, j);
        OnceIn(s, key, t[i]);
        assert false;
      }
    }
  }
}
