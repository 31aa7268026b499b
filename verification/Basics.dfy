module Basics {

  datatype Option<+T> = None | Some(value: T)

  function Abs(x: real): real { if x < 0.0 then -x else x }

  function Max(a: real, b: real): real { if a >= b then a else b }

  function Min(a: real, b: real): real { if a <= b then a else b }

  function Sum(xs: seq<real>): real { if xs == [] then 0.0 else Sum(xs[..|xs| - 1]) + xs[|xs| - 1] }

  lemma TakeNext<T>(s: seq<T>, i: nat)
    requires i < |s|
    ensures s[..i + 1] == s[..i] + [s[i]]
  {
  }

  lemma IndexOf<T>(s: seq<T>, x: T) returns (i: nat)
    requires x in s
    ensures i < |s| && s[i] == x
  {
    i :| 0 <= i < |s| && s[i] == x;
  }

  lemma TakeAll<T>(s: seq<T>)
    ensures s[..|s|] == s
  {
  }

  /** Named, so that proofs about a formula need not reason about its products. */
  function Product(a: real, b: real): real { a * b }

  lemma ProductNonNegative(a: real, b: real)
    requires 0.0 <= a && 0.0 <= b
    ensures 0.0 <= a * b && 0.0 <= Product(a, b)
  {
  }

  lemma ProductBounds(a: real, b: real)
    requires 0.0 <= a <= 1.0 && 0.0 <= b
    ensures 0.0 <= Product(a, b) <= b && Product(b, a) == Product(a, b)
  {
    ProductNonNegative(a, b);
    ProductNonNegative(1.0 - a, b);
  }

  lemma ProductGrows(a: real, b: real, b': real)
    requires 0.0 <= a && b <= b'
    ensures Product(a, b) <= Product(a, b')
  {
  }

  ghost function Power(b: real, n: nat): real { if n == 0 then 1.0 else Product(Power(b, n - 1), b) }
}
