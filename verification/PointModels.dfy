/**
 Models that leave nothing to chance: the next token depends on the length of the context alone. What the loop does
 with a pair of them is the same on every stream of draws, which gives concrete runs for every setting.
 */
module PointModels {
  import opened Vectors
  import opened ChoiceTree
  import opened LanguageModel
  import opened RejectionSampler
  import opened DraftRunner
  import opened Verifier
  import opened Orchestrator
  import opened Exactness

  /** The row that surely picks x. */
  function Point(x: nat, vocab: nat): (r: seq<real>)
    ensures |r| == vocab
  {
    seq(vocab, z => if z == x then 1.0 else 0.0)
  }

  lemma PointIsDist(x: nat, vocab: nat)
    requires x < vocab
    ensures IsDist(Point(x, vocab))
  {
    SumToSingle(Point(x, vocab), x, vocab);
  }

  /** The model whose next token is given by the length of the context. */
  function ByLength(t: nat -> nat, vocab: nat): seq<nat> -> seq<real> {
    ctx => Point(t(|ctx|), vocab)
  }

  ghost predicate Within(t: nat -> nat, vocab: nat) {
    forall n :: t(n) < vocab
  }

  lemma ByLengthIsModel(t: nat -> nat, vocab: nat)
    requires Within(t, vocab)
    ensures Conditionals(ByLength(t, vocab), vocab)
  {
    forall ctx ensures |ByLength(t, vocab)(ctx)| == vocab && IsDist(ByLength(t, vocab)(ctx)) {
      PointIsDist(t(|ctx|), vocab);
    }
  }

  /** The tokens t gives at lengths n, n + 1, ... */
  function Ahead(t: nat -> nat, n: nat, j: nat): (r: seq<nat>)
    ensures |r| == j
  {
    seq(j, i requires 0 <= i < j => t(n + i))
  }

  lemma AheadAgrees(t: nat -> nat, d: nat -> nat, n: nat, j: nat)
    requires forall m | n <= m < n + j :: t(m) == d(m)
    ensures Ahead(t, n, j) == Ahead(d, n, j)
  {
  }

  lemma {:induction false} DraftPoint(d: nat -> nat, vocab: nat, ctx: seq<nat>, k: nat, i: nat, u: Stream, pos: nat)
    requires Within(d, vocab) && Uniform(u) && i <= k
    ensures WellFormed(DraftTree(ByLength(d, vocab), ctx, k, Ahead(d, |ctx|, i)))
    ensures Sample(DraftTree(ByLength(d, vocab), ctx, k, Ahead(d, |ctx|, i)), u, pos).0 == Ahead(d, |ctx|, k)
    decreases k - i
  {
    var q, drafted := ByLength(d, vocab), Ahead(d, |ctx|, i);
    ByLengthIsModel(d, vocab);
    DraftWellFormed(q, vocab, ctx, k, drafted);
    if i < k {
      var tree, token := DraftTree(q, ctx, k, drafted), d(|ctx| + i);
      assert |ctx + drafted| == |ctx| + i;
      assert tree.weights == Point(token, vocab) && Pick(tree.weights, u(pos)) == token;
      assert drafted + [token] == Ahead(d, |ctx|, i + 1);
      DraftPoint(d, vocab, ctx, k, i + 1, u, pos + 1);
    }
  }

  /** From position i on, the first of k drafted positions at which the models part; k if they do not. */
  function Parting(t: nat -> nat, d: nat -> nat, n: nat, k: nat, i: nat): (a: nat)
    requires i <= k
    ensures i <= a <= k && (a < k ==> t(n + a) != d(n + a))
    ensures forall m | n + i <= m < n + a :: t(m) == d(m)
    decreases k - i
  {
    if i == k || t(n + i) != d(n + i) then i else Parting(t, d, n, k, i + 1)
  }

  /**
   What judging the draft's tokens comes to: everything up to the parting is accepted, and the target's token follows.
   */
  predicate Judged(t: nat -> nat, n: nat, a: nat, r: AcceptResult) {
    r.numAccepted == a && Block(r) == Ahead(t, n, a + 1)
  }

  /** A token the target rules out is rejected, and the target's own token takes its place. */
  lemma RejectPoint(x: nat, y: nat, vocab: nat, coin: real, draw: real)
    requires x < vocab && y < vocab && x != y && 0.0 <= coin < 1.0 && 0.0 <= draw < 1.0
    ensures IsDist(Point(x, vocab)) && IsDist(Point(y, vocab))
    ensures Ratio(Point(x, vocab)[y], Point(y, vocab)[y]) == 0.0
    ensures Pick(ResampleRow(Point(x, vocab), Point(y, vocab)), draw) == x
  {
    PointIsDist(x, vocab);
    PointIsDist(y, vocab);
    RejectionResamples(Point(x, vocab), Point(y, vocab), y, coin, draw);
  }

  lemma TestRejects(x: nat, y: nat, vocab: nat, accepted: seq<nat>, go: Tree<AcceptResult>, u: Stream, pos: nat)
    requires x < vocab && y < vocab && x != y && WellFormed(go) && Uniform(u)
    ensures IsDist(Point(x, vocab)) && IsDist(Point(y, vocab))
    ensures Sample(Test(Point(x, vocab), Point(y, vocab), y, accepted, go), u, pos).0
         == AcceptResult(|accepted|, accepted, Resampled(x))
  {
    RejectPoint(x, y, vocab, u(pos), u(pos + 1));
    SampleTest(Point(x, vocab), Point(y, vocab), y, accepted, go, u, pos);
  }

  lemma TestAccepts(x: nat, vocab: nat, accepted: seq<nat>, go: Tree<AcceptResult>, u: Stream, pos: nat)
    requires x < vocab && WellFormed(go) && Uniform(u)
    ensures IsDist(Point(x, vocab))
    ensures Sample(Test(Point(x, vocab), Point(x, vocab), x, accepted, go), u, pos) == Sample(go, u, pos + 1)
  {
    PointIsDist(x, vocab);
    SampleTest(Point(x, vocab), Point(x, vocab), x, accepted, go, u, pos);
    assert Ratio(1.0, 1.0) == 1.0;
  }

  /** The rows the sampler meets at position i. */
  lemma RowsPoint(t: nat -> nat, d: nat -> nat, vocab: nat, ctx: seq<nat>, k: nat, i: nat)
    requires Within(t, vocab) && Within(d, vocab) && i <= k
    ensures var p, q, tokens := ByLength(t, vocab), ByLength(d, vocab), Ahead(d, |ctx|, k);
      var draft, target := DraftRows(q, ctx, tokens), TargetRows(p, ctx, tokens);
      && Rows(tokens, draft, target) && target[i] == Point(t(|ctx| + i), vocab)
      && (i < k ==> draft[i] == Point(d(|ctx| + i), vocab) && tokens[i] == d(|ctx| + i))
  {
    ByLengthIsModel(t, vocab);
    ByLengthIsModel(d, vocab);
    assert |ctx + Ahead(d, |ctx|, k)[..i]| == |ctx| + i;
  }

  /** The sampler from position i on, for the tokens the draft proposes. */
  ghost function JudgeTree(t: nat -> nat, d: nat -> nat, vocab: nat, ctx: seq<nat>, k: nat, i: nat)
    : (r: Tree<AcceptResult>)
    requires Within(t, vocab) && Within(d, vocab) && i <= k
    ensures WellFormed(r)
  {
    RowsPoint(t, d, vocab, ctx, k, i);
    var p, q, tokens := ByLength(t, vocab), ByLength(d, vocab), Ahead(d, |ctx|, k);
    SamplerTree(tokens, DraftRows(q, ctx, tokens), TargetRows(p, ctx, tokens), i)
  }

  /** Where the models agree the token is accepted. */
  lemma AcceptStep(t: nat -> nat, d: nat -> nat, vocab: nat, ctx: seq<nat>, k: nat, i: nat, u: Stream, pos: nat)
    requires Within(t, vocab) && Within(d, vocab) && Uniform(u) && i < k && t(|ctx| + i) == d(|ctx| + i)
    ensures Sample(JudgeTree(t, d, vocab, ctx, k, i), u, pos) ==
      Sample(JudgeTree(t, d, vocab, ctx, k, i + 1), u, pos + 1)
  {
    RowsPoint(t, d, vocab, ctx, k, i);
    TestAccepts(t(|ctx| + i), vocab, Ahead(d, |ctx|, k)[..i], JudgeTree(t, d, vocab, ctx, k, i + 1), u, pos);
  }

  /** Where they part the token is rejected and the target's own takes its place. */
  lemma RejectStep(t: nat -> nat, d: nat -> nat, vocab: nat, ctx: seq<nat>, k: nat, i: nat, u: Stream, pos: nat)
    requires Within(t, vocab) && Within(d, vocab) && Uniform(u) && i < k && t(|ctx| + i) != d(|ctx| + i)
    ensures Sample(JudgeTree(t, d, vocab, ctx, k, i), u, pos).0
         == AcceptResult(i, Ahead(d, |ctx|, k)[..i], Resampled(t(|ctx| + i)))
  {
    RowsPoint(t, d, vocab, ctx, k, i);
    TestRejects(t(|ctx| + i), d(|ctx| + i), vocab, Ahead(d, |ctx|, k)[..i], JudgeTree(t, d, vocab, ctx, k, i + 1), u,
                pos);
  }

  lemma RejectedBlock(t: nat -> nat, d: nat -> nat, n: nat, k: nat, i: nat)
    requires i < k && forall m | n <= m < n + i :: t(m) == d(m)
    ensures Judged(t, n, i, AcceptResult(i, Ahead(d, n, k)[..i], Resampled(t(n + i))))
  {
    AheadAgrees(t, d, n, i);
    assert Ahead(d, n, k)[..i] == Ahead(d, n, i);
    assert Ahead(t, n, i) + [t(n + i)] == Ahead(t, n, i + 1);
  }

  lemma BonusStep(t: nat -> nat, d: nat -> nat, vocab: nat, ctx: seq<nat>, k: nat, u: Stream, pos: nat)
    requires Within(t, vocab) && Within(d, vocab) && Uniform(u)
    requires forall m | |ctx| <= m < |ctx| + k :: t(m) == d(m)
    ensures Judged(t, |ctx|, k, Sample(JudgeTree(t, d, vocab, ctx, k, k), u, pos).0)
  {
    RowsPoint(t, d, vocab, ctx, k, k);
    var n, x, tokens := |ctx|, t(|ctx| + k), Ahead(d, |ctx|, k);
    PointIsDist(x, vocab);
    SampleEmit(tokens, Point(x, vocab), true, u, pos);
    assert JudgeTree(t, d, vocab, ctx, k, k) == Emit(tokens, Point(x, vocab), true);
    AheadAgrees(t, d, n, k);
    assert tokens + [x] == Ahead(t, n, k + 1);
  }

  lemma {:induction false} JudgePoint(t: nat -> nat, d: nat -> nat, vocab: nat, ctx: seq<nat>, k: nat, i: nat,
                                      u: Stream, pos: nat) returns (a: nat)
    requires Within(t, vocab) && Within(d, vocab) && Uniform(u) && i <= k
    requires forall m | |ctx| <= m < |ctx| + i :: t(m) == d(m)
    ensures a == Parting(t, d, |ctx|, k, i)
    ensures Judged(t, |ctx|, a, Sample(JudgeTree(t, d, vocab, ctx, k, i), u, pos).0)
    decreases k - i
  {
    if i == k {
      a := k;
      BonusStep(t, d, vocab, ctx, k, u, pos);
    } else if t(|ctx| + i) == d(|ctx| + i) {
      a := JudgePoint(t, d, vocab, ctx, k, i + 1, u, pos + 1);
      AcceptStep(t, d, vocab, ctx, k, i, u, pos);
    } else {
      a := i;
      RejectStep(t, d, vocab, ctx, k, i, u, pos);
      RejectedBlock(t, d, |ctx|, k, i);
    }
  }

  /** One step of the loop: the same verdict on every stream of draws. */
  lemma StepPoint(t: nat -> nat, d: nat -> nat, vocab: nat, p: seq<nat> -> seq<real>, q: seq<nat> -> seq<real>,
                  ctx: seq<nat>, k: nat, u: Stream, pos: nat)
    requires Within(t, vocab) && Within(d, vocab) && Uniform(u) && p == ByLength(t, vocab) && q == ByLength(d, vocab)
    requires Conditionals(p, vocab) && Conditionals(q, vocab)
    ensures Judged(t, |ctx|, Parting(t, d, |ctx|, k, 0), Sample(StepTree(p, q, vocab, ctx, k), u, pos).0)
  {
    assert Ahead(d, |ctx|, 0) == [];
    DraftPoint(d, vocab, ctx, k, 0, u, pos);
    SampleBind(DraftTree(q, ctx, k, []), Judge(p, q, vocab, ctx), u, pos);
    var mid := Sample(DraftTree(q, ctx, k, []), u, pos).1;
    var a := JudgePoint(t, d, vocab, ctx, k, 0, u, mid);
  }
}
