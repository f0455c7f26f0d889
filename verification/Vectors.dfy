/** Finite real vectors: probability rows and their sums. */
module Vectors {

  /** The sum of the first n entries. */
  function SumTo(v: seq<real>, n: nat): real
    requires n <= |v|
  {
    if n == 0 then 0.0 else SumTo(v, n - 1) + v[n - 1]
  }

  function Sum(v: seq<real>): real {
    SumTo(v, |v|)
  }

  function Product(a: real, b: real): real { a * b }

  /** The entrywise product, so that Sum(Times(w, v)) is an expectation. */
  function Times(w: seq<real>, v: seq<real>): (r: seq<real>)
    requires |w| == |v|
  {
    seq(|w|, i requires 0 <= i < |w| => w[i] * v[i])
  }

  predicate NonNegative(v: seq<real>) {
    forall i | 0 <= i < |v| :: v[i] >= 0.0
  }

  /** A probability row over the token ids 0 .. |v| - 1. */
  predicate IsDist(v: seq<real>) {
    NonNegative(v) && Sum(v) == 1.0
  }

  /** Row lookup; ids outside the vocabulary carry no mass. */
  function At(v: seq<real>, x: nat): real {
    if x < |v| then v[x] else 0.0
  }

  lemma {:induction false} SumToLinear(x: seq<real>, y: seq<real>, z: seq<real>, a: real, b: real, n: nat)
    requires |x| == |y| == |z| && n <= |z|
    requires forall i | 0 <= i < n :: z[i] == a * x[i] + b * y[i]
    ensures SumTo(z, n) == a * SumTo(x, n) + b * SumTo(y, n)
  {
    if n > 0 {
      SumToLinear(x, y, z, a, b, n - 1);
      var sx, sy := SumTo(x, n - 1), SumTo(y, n - 1);
      assert a * (sx + x[n - 1]) == a * sx + a * x[n - 1];
      assert b * (sy + y[n - 1]) == b * sy + b * y[n - 1];
    }
  }

  /** Summation is linear. */
  lemma SumLinear(x: seq<real>, y: seq<real>, z: seq<real>, a: real, b: real)
    requires |x| == |y| == |z|
    requires forall i | 0 <= i < |z| :: z[i] == a * x[i] + b * y[i]
    ensures Sum(z) == a * Sum(x) + b * Sum(y)
  {
    SumToLinear(x, y, z, a, b, |z|);
  }

  lemma SumTimesTwo(a: real, b: real, x: real, y: real)
    ensures Sum(Times([a, b], [x, y])) == Product(a, x) + Product(b, y)
  {
    var v := Times([a, b], [x, y]);
    assert SumTo(v, 2) == SumTo(v, 1) + v[1];
    assert SumTo(v, 1) == SumTo(v, 0) + v[0];
  }

  lemma {:induction false} SumToMonotone(v: seq<real>, m: nat, n: nat)
    requires NonNegative(v) && m <= n <= |v|
    ensures SumTo(v, m) <= SumTo(v, n)
  {
    if m < n { SumToMonotone(v, m, n - 1); }
  }

  lemma SumBoundsEntry(v: seq<real>, i: nat)
    requires NonNegative(v) && i < |v|
    ensures 0.0 <= v[i] <= Sum(v)
  {
    SumToMonotone(v, 0, i);
    SumToMonotone(v, i + 1, |v|);
  }

  lemma {:induction false} ZeroPrefix(v: seq<real>, n: nat)
    requires n <= |v| && forall i | 0 <= i < n :: v[i] == 0.0
    ensures SumTo(v, n) == 0.0
  {
    if n > 0 { ZeroPrefix(v, n - 1); }
  }

  lemma {:induction false} SumToSingle(v: seq<real>, k: nat, n: nat)
    requires n <= |v| && forall i | 0 <= i < |v| && i != k :: v[i] == 0.0
    ensures SumTo(v, n) == if k < n then v[k] else 0.0
  {
    if n > 0 { SumToSingle(v, k, n - 1); }
  }

  lemma {:induction false} SumToBounded(z: seq<real>, x: seq<real>, y: seq<real>, b: real, n: nat)
    requires |x| == |y| == |z| && n <= |z|
    requires forall i | 0 <= i < n :: z[i] <= x[i] + b * y[i]
    ensures SumTo(z, n) <= SumTo(x, n) + Product(b, SumTo(y, n))
  {
    if n > 0 {
      SumToBounded(z, x, y, b, n - 1);
      assert b * (SumTo(y, n - 1) + y[n - 1]) == b * SumTo(y, n - 1) + b * y[n - 1];
    }
  }
}
