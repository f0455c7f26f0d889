/**
 Random programs as trees of weighted choices. One tree has two readings: Sample runs it against a stream of uniform
 draws, the way the generator behind torch.rand and torch.multinomial drives the program, and Expect is its law.
 */
module ChoiceTree {
  import opened Vectors

  datatype Tree<A> =
    | Leaf(value: A)
    | Draw(weights: seq<real>, kids: seq<Tree<A>>)

  predicate WellFormed<A>(t: Tree<A>) {
    match t
    case Leaf(_) => true
    case Draw(w, kids) =>
      IsDist(w) && |kids| == |w| && forall i | 0 <= i < |kids| :: WellFormed(kids[i])
  }

  /** Uniform draws: entry n is the n-th number taken from the generator. */
  type Stream = nat -> real

  ghost predicate Uniform(u: Stream) {
    forall n :: 0.0 <= u(n) < 1.0
  }

  /** First index at or after i whose cumulative interval contains x. */
  function PickFrom(w: seq<real>, x: real, i: nat): (k: nat)
    requires NonNegative(w) && i <= |w| && SumTo(w, i) <= x < Sum(w)
    ensures k < |w| && w[k] > 0.0 && SumTo(w, k) <= x < SumTo(w, k + 1)
    decreases |w| - i
  {
    if x < SumTo(w, i + 1) then i else PickFrom(w, x, i + 1)
  }

  /** Inverse-CDF choice: what multinomial returns for the uniform draw x. */
  function Pick(w: seq<real>, x: real): (k: nat)
    requires IsDist(w) && 0.0 <= x < 1.0
    ensures k < |w| && w[k] > 0.0 && SumTo(w, k) <= x < SumTo(w, k + 1)
  {
    PickFrom(w, x, 0)
  }

  /** The draws choosing entry k are exactly an interval of length w[k], so w[k] is the probability of the choice. */
  lemma PickInterval(w: seq<real>, x: real, k: nat)
    requires IsDist(w) && 0.0 <= x < 1.0 && k < |w|
    ensures Pick(w, x) == k <==> SumTo(w, k) <= x < SumTo(w, k) + w[k]
  {
    var p := Pick(w, x);
    if p < k { SumToMonotone(w, p + 1, k); }
    if k < p { SumToMonotone(w, k + 1, p); }
  }

  /** Run the program on the draws from position pos; the result and the next unused position. */
  function Sample<A>(t: Tree<A>, u: Stream, pos: nat): (A, nat)
    requires WellFormed(t) && Uniform(u)
  {
    match t
    case Leaf(a) => (a, pos)
    case Draw(w, kids) => Sample(kids[Pick(w, u(pos))], u, pos + 1)
  }

  function Bind<A, B>(t: Tree<A>, k: A -> Tree<B>): Tree<B> {
    match t
    case Leaf(a) => k(a)
    case Draw(w, kids) => Draw(w, seq(|kids|, i requires 0 <= i < |kids| => Bind(kids[i], k)))
  }

  lemma {:induction false} BindWellFormed<A(!new), B>(t: Tree<A>, k: A -> Tree<B>)
    requires WellFormed(t) && forall a :: WellFormed(k(a))
    ensures WellFormed(Bind(t, k))
  {
    if t.Draw? {
      forall i | 0 <= i < |t.kids| ensures WellFormed(Bind(t.kids[i], k)) { BindWellFormed(t.kids[i], k); }
    }
  }

  /** Running a composed program is running its parts in turn. */
  lemma {:induction false} SampleBind<A(!new), B>(t: Tree<A>, k: A -> Tree<B>, u: Stream, pos: nat)
    requires WellFormed(t) && (forall a :: WellFormed(k(a))) && Uniform(u)
    ensures WellFormed(Bind(t, k))
    ensures var (a, next) := Sample(t, u, pos); Sample(Bind(t, k), u, pos) == Sample(k(a), u, next)
  {
    BindWellFormed(t, k);
    if t.Draw? {
      var i := Pick(t.weights, u(pos));
      SampleBind(t.kids[i], k, u, pos + 1);
    }
  }

  /** The law of a program: the expectation of f over its outcomes. */
  function Expect<A>(t: Tree<A>, f: A -> real): real
    requires WellFormed(t)
  {
    match t
    case Leaf(a) => f(a)
    case Draw(w, kids) => Sum(Times(w, ExpectKids(t, f)))
  }

  function ExpectKids<A>(t: Tree<A>, f: A -> real): (v: seq<real>)
    requires WellFormed(t) && t.Draw?
    ensures |v| == |t.weights|
    decreases t, 0
  {
    seq(|t.kids|, i requires 0 <= i < |t.kids| => Expect(t.kids[i], f))
  }

  /** Every outcome the program can reach satisfies p. */
  ghost predicate AllLeaves<A(!new)>(t: Tree<A>, p: A -> bool) {
    match t
    case Leaf(a) => p(a)
    case Draw(_, kids) => forall i | 0 <= i < |kids| :: AllLeaves(kids[i], p)
  }

  lemma {:induction false} SampleInLeaves<A(!new)>(t: Tree<A>, p: A -> bool, u: Stream, pos: nat)
    requires WellFormed(t) && Uniform(u) && AllLeaves(t, p)
    ensures p(Sample(t, u, pos).0)
  {
    if t.Draw? { SampleInLeaves(t.kids[Pick(t.weights, u(pos))], p, u, pos + 1); }
  }

  lemma {:induction false} BindLeaves<A(!new), B(!new)>(t: Tree<A>, k: A -> Tree<B>, p: A -> bool, r: B -> bool)
    requires AllLeaves(t, p) && forall a | p(a) :: AllLeaves(k(a), r)
    ensures AllLeaves(Bind(t, k), r)
  {
    if t.Draw? {
      forall i | 0 <= i < |t.kids| ensures AllLeaves(Bind(t.kids[i], k), r) { BindLeaves(t.kids[i], k, p, r); }
    }
  }

  /** The law has total mass one, and expectation is affine; only reachable outcomes matter. */
  lemma {:induction false} ExpectAffine<A(!new)>(t: Tree<A>, p: A -> bool, f: A -> real, g: A -> real, a: real, c: real)
    requires WellFormed(t) && AllLeaves(t, p)
    requires forall x | p(x) :: f(x) == Product(a, g(x)) + c
    ensures Expect(t, f) == Product(a, Expect(t, g)) + c
  {
    if t.Draw? {
      var w := t.weights;
      var vf, vg := ExpectKids(t, f), ExpectKids(t, g);
      forall i | 0 <= i < |w| ensures Times(w, vf)[i] == a * Times(w, vg)[i] + c * w[i] {
        ExpectAffine(t.kids[i], p, f, g, a, c);
        assert vf[i] == Product(a, vg[i]) + c;
        assert w[i] * (a * vg[i] + c) == a * (w[i] * vg[i]) + c * w[i];
      }
      SumLinear(Times(w, vg), w, Times(w, vf), a, c);
    }
  }

  /** f averaged over what the continuation k does. */
  ghost function Later<A(!new), B>(k: A -> Tree<B>, f: B -> real): A -> real
    requires forall a :: WellFormed(k(a))
  {
    a => Expect(k(a), f)
  }

  /** The law of a composed program is the iterated expectation. */
  lemma {:induction false} ExpectBind<A(!new), B(!new)>(t: Tree<A>, k: A -> Tree<B>, f: B -> real)
    requires WellFormed(t) && forall a :: WellFormed(k(a))
    ensures WellFormed(Bind(t, k))
    ensures Expect(Bind(t, k), f) == Expect(t, Later(k, f))
  {
    BindWellFormed(t, k);
    if t.Draw? {
      forall i | 0 <= i < |t.kids|
        ensures WellFormed(Bind(t.kids[i], k)) && Expect(Bind(t.kids[i], k), f) == Expect(t.kids[i], Later(k, f))
      {
        ExpectBind(t.kids[i], k, f);
      }
      assert ExpectKids(Bind(t, k), f) == ExpectKids(t, Later(k, f));
    }
  }

  lemma {:induction false} ExpectSame<A(!new)>(t: Tree<A>, f: A -> real, g: A -> real)
    requires WellFormed(t) && forall a :: f(a) == g(a)
    ensures Expect(t, f) == Expect(t, g)
  {
    if t.Draw? {
      forall i | 0 <= i < |t.kids| ensures Expect(t.kids[i], f) == Expect(t.kids[i], g) { ExpectSame(t.kids[i], f, g); }
      assert ExpectKids(t, f) == ExpectKids(t, g);
    }
  }

  /** The law respects an inequality that holds of every outcome. */
  lemma {:induction false} ExpectBounded<A(!new)>(t: Tree<A>, f: A -> real, g: A -> real, h: A -> real, c: real)
    requires WellFormed(t) && forall a :: f(a) <= g(a) + Product(c, h(a))
    ensures Expect(t, f) <= Expect(t, g) + Product(c, Expect(t, h))
  {
    if t.Draw? {
      var w, vf, vg, vh := t.weights, ExpectKids(t, f), ExpectKids(t, g), ExpectKids(t, h);
      forall i | 0 <= i < |w| ensures Times(w, vf)[i] <= Times(w, vg)[i] + c * Times(w, vh)[i] {
        ExpectBounded(t.kids[i], f, g, h, c);
        WeightedBound(w[i], vf[i], vg[i], c, vh[i]);
      }
      SumToBounded(Times(w, vf), Times(w, vg), Times(w, vh), c, |w|);
    }
  }

  lemma WeightedBound(w: real, f: real, g: real, c: real, h: real)
    requires w >= 0.0 && f <= g + Product(c, h)
    ensures w * f <= w * g + c * (w * h)
  {
    assert w * f <= w * (g + c * h);
    assert w * (g + c * h) == w * g + c * (w * h);
  }

  /** The event that the outcome is a. */
  ghost function Is<A>(a: A): A -> real {
    x => if x == a then 1.0 else 0.0
  }

  lemma {:induction false} IsHasMass<A(!new)>(t: Tree<A>, a: A)
    requires WellFormed(t)
    ensures Expect(t, Is(a)) >= 0.0
  {
    if t.Draw? {
      var terms := Times(t.weights, ExpectKids(t, Is(a)));
      forall i | 0 <= i < |terms| ensures terms[i] >= 0.0 { IsHasMass(t.kids[i], a); }
      SumToMonotone(terms, 0, |terms|);
    }
  }

  /** An expectation above 0 is owed to some outcome of positive probability. */
  lemma {:induction false} PositiveOutcome<A(!new)>(t: Tree<A>, f: A -> real) returns (a: A)
    requires WellFormed(t) && Expect(t, f) > 0.0
    ensures f(a) > 0.0 && Expect(t, Is(a)) > 0.0
  {
    if t.Leaf? {
      a := t.value;
    } else {
      var i := PositiveTerm(t.weights, ExpectKids(t, f), |t.weights|);
      a := PositiveOutcome(t.kids[i], f);
      var terms := Times(t.weights, ExpectKids(t, Is(a)));
      forall j | 0 <= j < |terms| ensures terms[j] >= 0.0 { IsHasMass(t.kids[j], a); }
      SumBoundsEntry(terms, i);
      assert terms[i] == t.weights[i] * Expect(t.kids[i], Is(a));
    }
  }

  lemma {:induction false} PositiveTerm(w: seq<real>, e: seq<real>, n: nat) returns (i: nat)
    requires NonNegative(w) && |e| == |w| && n <= |w| && SumTo(Times(w, e), n) > 0.0
    ensures i < |w| && w[i] > 0.0 && e[i] > 0.0
  {
    var x, y := w[n - 1], e[n - 1];
    if x > 0.0 && y > 0.0 { i := n - 1; } else {
      assert x * y <= 0.0;
      i := PositiveTerm(w, e, n - 1);
    }
  }
}
