/**
 The two readings of a random program agree: the draws that reach an outcome form a box, the volume of the box is the
 weight of the outcome, and the expectation is the sum over all boxes.
 */
module Measure {
  import opened Vectors
  import opened ChoiceTree

  /** The choices that lead from the root of a program to one of its leaves. */
  predicate IsPath<A>(t: Tree<A>, path: seq<nat>) {
    match t
    case Leaf(_) => path == []
    case Draw(_, kids) => path != [] && path[0] < |kids| && IsPath(kids[path[0]], path[1..])
  }

  function End<A>(t: Tree<A>, path: seq<nat>): A
    requires IsPath(t, path)
  {
    match t
    case Leaf(a) => a
    case Draw(_, kids) => End(kids[path[0]], path[1..])
  }

  /** The draws from pos on lie in the box of the path: one interval, of one weight's length, for every choice. */
  ghost predicate InBox<A>(t: Tree<A>, path: seq<nat>, u: Stream, pos: nat)
    requires WellFormed(t) && IsPath(t, path)
  {
    match t
    case Leaf(_) => true
    case Draw(w, kids) =>
      && SumTo(w, path[0]) <= u(pos) < SumTo(w, path[0]) + w[path[0]]
      && InBox(kids[path[0]], path[1..], u, pos + 1)
  }

  /** The volume of the box. */
  function Volume<A>(t: Tree<A>, path: seq<nat>): real
    requires WellFormed(t) && IsPath(t, path)
  {
    match t
    case Leaf(_) => 1.0
    case Draw(w, kids) => w[path[0]] * Volume(kids[path[0]], path[1..])
  }

  /** The choices a program makes on a stream. */
  function Taken<A>(t: Tree<A>, u: Stream, pos: nat): (path: seq<nat>)
    requires WellFormed(t) && Uniform(u)
    ensures IsPath(t, path)
  {
    match t
    case Leaf(_) => []
    case Draw(w, kids) => [Pick(w, u(pos))] + Taken(kids[Pick(w, u(pos))], u, pos + 1)
  }

  /** A program takes a path on exactly the streams in its box, and then ends at the path's leaf after as many draws. */
  lemma {:induction false} BoxIsTaken<A>(t: Tree<A>, path: seq<nat>, u: Stream, pos: nat)
    requires WellFormed(t) && IsPath(t, path) && Uniform(u)
    ensures InBox(t, path, u, pos) <==> Taken(t, u, pos) == path
    ensures InBox(t, path, u, pos) ==> Sample(t, u, pos) == (End(t, path), pos + |path|)
  {
    if t.Draw? {
      var taken := Taken(t, u, pos);
      PickInterval(t.weights, u(pos), path[0]);
      BoxIsTaken(t.kids[path[0]], path[1..], u, pos + 1);
      if taken == path {
        assert taken[1..] == path[1..];
      } else if taken[0] == path[0] {
        assert path == [path[0]] + path[1..];
      }
    }
  }

  // ---------------------------------------------------------------- the expectation as a sum over boxes

  function Prefixed(i: nat, paths: seq<seq<nat>>): (r: seq<seq<nat>>)
    ensures |r| == |paths|
  {
    seq(|paths|, j requires 0 <= j < |paths| => [i] + paths[j])
  }

  /** All paths of a program. */
  function Paths<A>(t: Tree<A>): (r: seq<seq<nat>>)
    ensures forall j | 0 <= j < |r| :: IsPath(t, r[j])
    decreases t, 1, 0
  {
    match t
    case Leaf(_) => [[]]
    case Draw(_, kids) => PathsBelow(t, |kids|)
  }

  function PathsBelow<A>(t: Tree<A>, n: nat): (r: seq<seq<nat>>)
    requires t.Draw? && n <= |t.kids|
    ensures forall j | 0 <= j < |r| :: IsPath(t, r[j]) && r[j][0] < n
    decreases t, 0, n
  {
    if n == 0 then [] else
      var last := Paths(t.kids[n - 1]);
      assert forall j | 0 <= j < |last| :: Prefixed(n - 1, last)[j][1..] == last[j];
      PathsBelow(t, n - 1) + Prefixed(n - 1, last)
  }

  /** Every path occurs. */
  lemma {:induction false} PathsAreAll<A>(t: Tree<A>, path: seq<nat>)
    requires IsPath(t, path)
    ensures path in Paths(t)
    decreases t, 1, 0
  {
    if t.Draw? { PathsBelowAreAll(t, |t.kids|, path); }
  }

  lemma {:induction false} PathsBelowAreAll<A>(t: Tree<A>, n: nat, path: seq<nat>)
    requires t.Draw? && n <= |t.kids| && IsPath(t, path) && path[0] < n
    ensures path in PathsBelow(t, n)
    decreases t, 0, n
  {
    var last := Paths(t.kids[n - 1]);
    if path[0] == n - 1 {
      PathsAreAll(t.kids[n - 1], path[1..]);
      var j :| 0 <= j < |last| && last[j] == path[1..];
      assert Prefixed(n - 1, last)[j] == path;
    } else {
      PathsBelowAreAll(t, n - 1, path);
    }
  }

  /** And none occurs twice. */
  lemma {:induction false} PathsAreDistinct<A>(t: Tree<A>, i: nat, j: nat)
    requires i < j < |Paths(t)|
    ensures Paths(t)[i] != Paths(t)[j]
    decreases t, 1, 0
  {
    PathsBelowAreDistinct(t, |t.kids|, i, j);
  }

  lemma {:induction false} PathsBelowAreDistinct<A>(t: Tree<A>, n: nat, i: nat, j: nat)
    requires t.Draw? && n <= |t.kids| && i < j < |PathsBelow(t, n)|
    ensures PathsBelow(t, n)[i] != PathsBelow(t, n)[j]
    decreases t, 0, n
  {
    var before, last := PathsBelow(t, n - 1), Paths(t.kids[n - 1]);
    if j < |before| {
      PathsBelowAreDistinct(t, n - 1, i, j);
    } else if i >= |before| {
      PathsAreDistinct(t.kids[n - 1], i - |before|, j - |before|);
      assert PathsBelow(t, n)[i][1..] == last[i - |before|] && PathsBelow(t, n)[j][1..] == last[j - |before|];
    }
  }

  /** f at the leaf of a path, weighted by the volume of the path's box. */
  function Share<A>(t: Tree<A>, f: A -> real, path: seq<nat>): real
    requires WellFormed(t)
  {
    if IsPath(t, path) then Volume(t, path) * f(End(t, path)) else 0.0
  }

  function Shares<A>(t: Tree<A>, f: A -> real): seq<nat> -> real
    requires WellFormed(t)
  {
    (path: seq<nat>) => Share(t, f, path)
  }

  function Total(paths: seq<seq<nat>>, share: seq<nat> -> real): real {
    if paths == [] then 0.0 else Total(paths[..|paths| - 1], share) + share(paths[|paths| - 1])
  }

  lemma {:induction false} TotalAppend(a: seq<seq<nat>>, b: seq<seq<nat>>, share: seq<nat> -> real)
    ensures Total(a + b, share) == Total(a, share) + Total(b, share)
  {
    if b == [] {
      assert a + b == a;
    } else {
      assert (a + b)[..|a + b| - 1] == a + b[..|b| - 1];
      TotalAppend(a, b[..|b| - 1], share);
    }
  }

  lemma ProductDistributes(w: real, a: real, b: real)
    ensures Product(w, a + b) == Product(w, a) + Product(w, b)
  {
  }

  lemma {:induction false} TotalScales(i: nat, paths: seq<seq<nat>>, outer: seq<nat> -> real, inner: seq<nat> -> real,
                                       w: real)
    requires forall j | 0 <= j < |paths| :: outer([i] + paths[j]) == Product(w, inner(paths[j]))
    ensures Total(Prefixed(i, paths), outer) == Product(w, Total(paths, inner))
  {
    if paths != [] {
      var n := |paths| - 1;
      TotalScales(i, paths[..n], outer, inner, w);
      assert Prefixed(i, paths)[..n] == Prefixed(i, paths[..n]);
      ProductDistributes(w, Total(paths[..n], inner), inner(paths[n]));
      assert outer([i] + paths[n]) == Product(w, inner(paths[n]));
    }
  }

  /** One more choice in front scales the share by the weight of that choice. */
  lemma StepScales<A>(t: Tree<A>, i: nat, path: seq<nat>, f: A -> real)
    requires WellFormed(t) && t.Draw? && i < |t.kids| && IsPath(t.kids[i], path)
    ensures Share(t, f, [i] + path) == Product(t.weights[i], Share(t.kids[i], f, path))
  {
    assert ([i] + path)[1..] == path;
    var w, v, x := t.weights[i], Volume(t.kids[i], path), f(End(t.kids[i], path));
    assert Volume(t, [i] + path) == w * v && (w * v) * x == w * (v * x);
  }

  lemma KidScales<A>(t: Tree<A>, i: nat, f: A -> real)
    requires WellFormed(t) && t.Draw? && i < |t.kids|
    ensures Total(Prefixed(i, Paths(t.kids[i])), Shares(t, f)) ==
      Product(t.weights[i], Total(Paths(t.kids[i]), Shares(t.kids[i], f)))
  {
    var kid := t.kids[i];
    var paths, outer, inner := Paths(kid), Shares(t, f), Shares(kid, f);
    forall j | 0 <= j < |paths| ensures outer([i] + paths[j]) == Product(t.weights[i], inner(paths[j])) {
      StepScales(t, i, paths[j], f);
    }
    TotalScales(i, paths, outer, inner, t.weights[i]);
  }

  /** The law is the measure: Expect is the sum over all paths of the value at the leaf times the volume of its box. */
  lemma {:induction false} ExpectIsMeasure<A>(t: Tree<A>, f: A -> real)
    requires WellFormed(t)
    ensures Expect(t, f) == Total(Paths(t), Shares(t, f))
    decreases t, 1, 0
  {
    if t.Draw? {
      var e := ExpectKids(t, f);
      forall i | 0 <= i < |t.kids| ensures Times(t.weights, e)[i] == Product(t.weights[i], Expect(t.kids[i], f)) {
        assert e[i] == Expect(t.kids[i], f);
        assert Times(t.weights, e)[i] == Product(t.weights[i], e[i]);
      }
      ExpectBelow(t, |t.kids|, f, Times(t.weights, e));
    } else {
      assert Paths(t) == [[]] && Paths(t)[..0] == [];
      assert Share(t, f, []) == f(t.value);
      assert Shares(t, f)([]) == Share(t, f, []);
    }
  }

  lemma BelowTerm<A>(t: Tree<A>, i: nat, f: A -> real)
    requires WellFormed(t) && t.Draw? && i < |t.kids|
    ensures Total(PathsBelow(t, i + 1), Shares(t, f)) ==
      Total(PathsBelow(t, i), Shares(t, f)) + Product(t.weights[i], Total(Paths(t.kids[i]), Shares(t.kids[i], f)))
  {
    KidScales(t, i, f);
    TotalAppend(PathsBelow(t, i), Prefixed(i, Paths(t.kids[i])), Shares(t, f));
  }

  lemma {:induction false} ExpectBelow<A>(t: Tree<A>, n: nat, f: A -> real, terms: seq<real>)
    requires WellFormed(t) && t.Draw? && n <= |t.kids| == |terms|
    requires forall i | 0 <= i < |terms| :: terms[i] == Product(t.weights[i], Expect(t.kids[i], f))
    ensures SumTo(terms, n) == Total(PathsBelow(t, n), Shares(t, f))
    decreases t, 0, n
  {
    if n > 0 {
      ExpectBelow(t, n - 1, f, terms);
      ExpectIsMeasure(t.kids[n - 1], f);
      BelowTerm(t, n - 1, f);
    } else {
      assert PathsBelow(t, 0) == [];
    }
  }

  // ---------------------------------------------------------------- outcomes that are sure

  /** From position a of one stream and b of the other on, the draws are the same. */
  ghost predicate Alike(u: Stream, a: nat, v: Stream, b: nat) {
    forall n: nat | n >= a :: u(n) == v(n - a + b)
  }

  /** Programs look at nothing but the draws ahead of them. */
  lemma {:induction false} SampleShift<A>(t: Tree<A>, u: Stream, a: nat, v: Stream, b: nat)
    requires WellFormed(t) && Uniform(u) && Uniform(v) && Alike(u, a, v, b)
    ensures Sample(t, u, a).0 == Sample(t, v, b).0
  {
    if t.Draw? {
      assert u(a) == v(a - a + b);
      SampleShift(t.kids[Pick(t.weights, u(a))], u, a + 1, v, b + 1);
    }
  }

  /** What holds on every stream of draws holds in expectation. */
  lemma {:induction false} SureValue<A>(t: Tree<A>, f: A -> real, c: real)
    requires WellFormed(t) && forall u: Stream, pos: nat | Uniform(u) :: f(Sample(t, u, pos).0) == c
    ensures Expect(t, f) == c
    decreases t, 1
  {
    if t.Leaf? {
      var zero: Stream := n => 0.0;
      assert f(Sample(t, zero, 0).0) == c;
    } else {
      var w, e := t.weights, ExpectKids(t, f);
      forall i | 0 <= i < |w| ensures Times(w, e)[i] == c * w[i] + 0.0 * w[i] {
        if w[i] > 0.0 { SureBelow(t, i, f, c); }
      }
      SumLinear(w, w, Times(w, e), c, 0.0);
    }
  }

  /** The draws of u from a position on, with one more in front. */
  function Prepend(x: real, u: Stream, pos: nat): Stream {
    (n: nat) => if n == 0 then x else u(pos + n - 1)
  }

  lemma {:induction false} SureBelow<A>(t: Tree<A>, i: nat, f: A -> real, c: real)
    requires WellFormed(t) && t.Draw? && i < |t.kids| && t.weights[i] > 0.0
    requires forall u: Stream, pos: nat | Uniform(u) :: f(Sample(t, u, pos).0) == c
    ensures Expect(t.kids[i], f) == c
    decreases t, 0
  {
    var w, kid := t.weights, t.kids[i];
    var lo := SumTo(w, i);
    SumToMonotone(w, 0, i);
    SumToMonotone(w, i + 1, |w|);
    forall u: Stream, pos: nat | Uniform(u) ensures f(Sample(kid, u, pos).0) == c {
      var v := Prepend(lo, u, pos);
      PickInterval(w, lo, i);
      assert f(Sample(t, v, 0).0) == c;
      SampleShift(kid, u, pos, v, 1);
    }
    SureValue(kid, f, c);
  }
}
