/**
 The claim the package is for: whatever the draft model, the output of speculative decoding is distributed as the
 target model's own output.
 */
module Exactness {
  import opened Options
  import opened Vectors
  import opened ChoiceTree
  import opened LanguageModel
  import opened RejectionSampler
  import opened DraftRunner
  import opened Verifier
  import opened Orchestrator

  /** h on the one-token extensions of pre. */
  ghost function Extensions(h: seq<nat> -> real, pre: seq<nat>, n: nat): (v: seq<real>)
    ensures |v| == n
  {
    seq(n, (z: nat) => h(pre + [z]))
  }

  /** h is a martingale for ancestral sampling from p after ctx. */
  ghost predicate Harmonic(p: seq<nat> -> seq<real>, ctx: seq<nat>, h: seq<nat> -> real) {
    forall pre: seq<nat> :: h(pre) == Sum(Times(p(ctx + pre), Extensions(h, pre, |p(ctx + pre)|)))
  }

  /** min(p, q) entrywise: the mass with which a drafted token is proposed and accepted. */
  function Overlap(p: seq<real>, q: seq<real>): (r: seq<real>)
    requires |p| == |q|
    ensures |r| == |p|
  {
    seq(|p|, z requires 0 <= z < |p| => Min(p[z], q[z]))
  }

  /** The residual mass is the total rejection probability of the position. */
  lemma ResidualMass(p: seq<real>, q: seq<real>)
    requires |p| == |q| && IsDist(p) && IsDist(q)
    ensures Sum(Residual(p, q)) == 1.0 - Sum(Overlap(p, q))
  {
    SumLinear(p, Overlap(p, q), Residual(p, q), 1.0, -1.0);
  }

  /** The mass by which q exceeds p, entrywise: where a drafted token is rejected. */
  function Excess(p: seq<real>, q: seq<real>): (r: seq<real>)
    requires |p| == |q|
    ensures |r| == |p|
  {
    seq(|p|, z requires 0 <= z < |p| => q[z] - Min(p[z], q[z]))
  }

  lemma ExcessMass(p: seq<real>, q: seq<real>)
    requires |p| == |q| && IsDist(p) && IsDist(q)
    ensures Sum(Excess(p, q)) == Sum(Residual(p, q))
  {
    SumLinear(q, Overlap(p, q), Excess(p, q), 1.0, -1.0);
    ResidualMass(p, q);
  }

  /**
   A rejection needs p < q at the token, and then the residual has mass: the zero-residual fallback is unreachable,
   and the resampled token has p > q, so it differs from the rejected one.
   */
  lemma RejectionResamples(p: seq<real>, q: seq<real>, token: nat, coin: real, x: real)
    requires |p| == |q| && IsDist(p) && IsDist(q) && token < |p| && 0.0 <= coin < 1.0 && 0.0 <= x < 1.0
    requires q[token] > 0.0 && coin >= Ratio(p[token], q[token])
    ensures p[token] < q[token] && Sum(Residual(p, q)) > 0.0
    ensures var z := Pick(ResampleRow(p, q), x); p[z] > q[z] && z != token
  {
    var res := Residual(p, q);
    ExcessMass(p, q);
    SumBoundsEntry(Excess(p, q), token);
    var z := Pick(ResampleRow(p, q), x);
    assert ResampleRow(p, q)[z] == res[z] / Sum(res);
  }

  /**
   On every stream of draws, a verdict that refuses a token refuses one that the target gives less than the draft, and
   closes with one that the target gives more; a bonus token is one that the target can say.
   */
  lemma {:induction false} ClosingToken(tokens: seq<nat>, draft: seq<seq<real>>, target: seq<seq<real>>, i: nat,
                                         u: Stream, pos: nat)
    requires i <= |tokens| && Rows(tokens, draft, target) && Uniform(u)
    requires forall j | 0 <= j < |tokens| :: tokens[j] < |draft[j]|
    ensures var r := Sample(SamplerTree(tokens, draft, target, i), u, pos).0;
      if r.extra.Bonus? then At(target[|tokens|], r.extra.token) > 0.0 else
        && r.numAccepted < |tokens| && r.extra.token != tokens[r.numAccepted]
        && At(target[r.numAccepted], tokens[r.numAccepted]) < At(draft[r.numAccepted], tokens[r.numAccepted])
        && At(target[r.numAccepted], r.extra.token) > At(draft[r.numAccepted], r.extra.token)
    decreases |tokens| - i
  {
    if i < |tokens| {
      var p, q, token := target[i], draft[i], tokens[i];
      SampleTest(p, q, token, tokens[..i], SamplerTree(tokens, draft, target, i + 1), u, pos);
      ClosingToken(tokens, draft, target, i + 1, u, pos);
      ClosingToken(tokens, draft, target, i + 1, u, pos + 1);
      if At(q, token) != 0.0 && u(pos) >= Ratio(At(p, token), At(q, token)) {
        RejectionResamples(p, q, token, u(pos), u(pos + 1));
      }
    }
  }

  /** The law of a tested token in terms of the laws of its two continuations. */
  function Blend(p: real, q: real, go: real, other: real): real
    requires p >= 0.0 && q >= 0.0
  {
    if q == 0.0 then go else Product(Ratio(p, q), go) + Product(1.0 - Ratio(p, q), other)
  }

  /** What one position of the sampler contributes in expectation, for a token drawn from q and a value per token. */
  lemma PositionLaw(p: seq<real>, q: seq<real>, hs: seq<real>, vs: seq<real>, m: real)
    requires |p| == |q| == |hs| == |vs| && IsDist(p) && IsDist(q)
    requires m == Sum(Times(ResampleRow(p, q), hs))
    requires forall x | 0 <= x < |q| :: vs[x] == Blend(p[x], q[x], hs[x], m)
    ensures Sum(Times(q, vs)) == Sum(Times(p, hs))
  {
    AcceptOrReject(p, q, hs, vs, m);
    RejectedMean(p, q, hs, m);
    OverlapPlusResidual(p, q, hs);
  }

  lemma AcceptOrReject(p: seq<real>, q: seq<real>, hs: seq<real>, vs: seq<real>, m: real)
    requires |p| == |q| == |hs| == |vs| && NonNegative(p) && NonNegative(q)
    requires forall x | 0 <= x < |q| :: vs[x] == Blend(p[x], q[x], hs[x], m)
    ensures Sum(Times(q, vs)) == Sum(Times(Overlap(p, q), hs)) + Sum(Excess(p, q)) * m
  {
    var over, excess := Overlap(p, q), Excess(p, q);
    forall x | 0 <= x < |q| ensures Times(q, vs)[x] == 1.0 * Times(over, hs)[x] + m * excess[x] {
      PositionEntry(p, q, hs, vs, m, x);
    }
    SumLinear(Times(over, hs), excess, Times(q, vs), 1.0, m);
  }

  lemma PositionEntry(p: seq<real>, q: seq<real>, hs: seq<real>, vs: seq<real>, m: real, x: nat)
    requires |p| == |q| == |hs| == |vs| && x < |p| && p[x] >= 0.0 && q[x] >= 0.0 && vs[x] == Blend(p[x], q[x], hs[x], m)
    ensures Times(q, vs)[x] == Times(Overlap(p, q), hs)[x] + m * Excess(p, q)[x]
  {
    PositionTerm(p[x], q[x], hs[x], m);
    assert Times(q, vs)[x] == q[x] * Blend(p[x], q[x], hs[x], m);
    assert Times(Overlap(p, q), hs)[x] == Min(p[x], q[x]) * hs[x];
  }

  lemma OverlapPlusResidual(p: seq<real>, q: seq<real>, hs: seq<real>)
    requires |p| == |q| == |hs|
    ensures Sum(Times(p, hs)) == Sum(Times(Overlap(p, q), hs)) + Sum(Times(Residual(p, q), hs))
  {
    var over, res := Overlap(p, q), Residual(p, q);
    forall x | 0 <= x < |p| ensures Times(p, hs)[x] == 1.0 * Times(over, hs)[x] + 1.0 * Times(res, hs)[x] {
      assert p[x] * hs[x] == over[x] * hs[x] + res[x] * hs[x];
    }
    SumLinear(Times(over, hs), Times(res, hs), Times(p, hs), 1.0, 1.0);
  }

  lemma PositionTerm(p: real, q: real, h: real, m: real)
    requires p >= 0.0 && q >= 0.0
    ensures q * Blend(p, q, h, m) == Min(p, q) * h + m * (q - Min(p, q))
  {
    if q != 0.0 {
      var a := Ratio(p, q);
      assert q * (a * h) == (q * a) * h;
      assert q * ((1.0 - a) * m) == (q - q * a) * m;
    }
  }

  /** Resampling puts exactly the residual's shape on the tokens. */
  lemma MeanOfResample(p: seq<real>, q: seq<real>, hs: seq<real>)
    requires |p| == |q| == |hs| && IsDist(p) && IsDist(q)
    ensures Sum(Residual(p, q)) * Sum(Times(ResampleRow(p, q), hs)) == Sum(Times(Residual(p, q), hs))
  {
    var res, row := Residual(p, q), ResampleRow(p, q);
    var s := Sum(res);
    if s > 0.0 {
      forall z | 0 <= z < |res| ensures Times(res, hs)[z] == s * Times(row, hs)[z] + 0.0 * res[z] {
        assert s * (res[z] / s) == res[z];
        assert s * (row[z] * hs[z]) == (s * row[z]) * hs[z];
      }
      SumLinear(Times(row, hs), res, Times(res, hs), s, 0.0);
    } else {
      SumToMonotone(res, 0, |res|);
      forall z | 0 <= z < |res| ensures Times(res, hs)[z] == 0.0 { SumBoundsEntry(res, z); }
      ZeroPrefix(Times(res, hs), |res|);
    }
  }

  lemma RejectedMean(p: seq<real>, q: seq<real>, hs: seq<real>, m: real)
    requires |p| == |q| == |hs| && IsDist(p) && IsDist(q) && m == Sum(Times(ResampleRow(p, q), hs))
    ensures Sum(Excess(p, q)) * m == Sum(Times(Residual(p, q), hs))
  {
    ExcessMass(p, q);
    MeanOfResample(p, q, hs);
  }

  /** Drafting one token, testing it at once, and drafting the next only if it was accepted. */
  function OneAtATime(p: seq<nat> -> seq<real>, q: seq<nat> -> seq<real>, ghost vocab: nat, ctx: seq<nat>, k: nat,
                      pre: seq<nat>): (t: Tree<AcceptResult>)
    requires Conditionals(p, vocab) && Conditionals(q, vocab) && |pre| <= k
    ensures WellFormed(t)
    decreases k - |pre|
  {
    if |pre| == k then Emit(pre, p(ctx + pre), true) else
      Draw(q(ctx + pre), seq(|q(ctx + pre)|, (x: nat) =>
        Test(p(ctx + pre), q(ctx + pre), x, pre, OneAtATime(p, q, vocab, ctx, k, pre + [x]))))
  }

  lemma ExpectPair<A>(a: real, b: real, heads: Tree<A>, tails: Tree<A>, f: A -> real)
    requires WellFormed(Draw([a, b], [heads, tails]))
    ensures WellFormed(heads) && WellFormed(tails)
    ensures Expect(Draw([a, b], [heads, tails]), f) == Product(a, Expect(heads, f)) + Product(b, Expect(tails, f))
  {
    var t := Draw([a, b], [heads, tails]);
    assert t.kids[0] == heads && t.kids[1] == tails;
    assert ExpectKids(t, f) == [Expect(heads, f), Expect(tails, f)];
    SumTimesTwo(a, b, Expect(heads, f), Expect(tails, f));
  }

  lemma ExpectCoin<A>(a: real, heads: Tree<A>, tails: Tree<A>, f: A -> real)
    requires 0.0 <= a <= 1.0 && WellFormed(heads) && WellFormed(tails)
    ensures Expect(Coin(a, heads, tails), f) == Product(a, Expect(heads, f)) + Product(1.0 - a, Expect(tails, f))
  {
    CoinIsDist(a);
    ExpectPair(a, 1.0 - a, heads, tails, f);
  }

  lemma ExpectTest(p: seq<real>, q: seq<real>, token: nat, accepted: seq<nat>, go: Tree<AcceptResult>,
                   f: AcceptResult -> real)
    requires |p| == |q| && IsDist(p) && IsDist(q) && WellFormed(go)
    ensures Expect(Test(p, q, token, accepted, go), f)
         == Blend(At(p, token), At(q, token), Expect(go, f), Expect(Emit(accepted, ResampleRow(p, q), false), f))
  {
    if At(q, token) != 0.0 {
      ExpectCoin(Ratio(At(p, token), At(q, token)), go, Emit(accepted, ResampleRow(p, q), false), f);
    }
  }

  /** The expected value of a drafted block when positions before i are already accepted. */
  ghost function Score(p: seq<nat> -> seq<real>, q: seq<nat> -> seq<real>, vocab: nat, ctx: seq<nat>,
                       f: AcceptResult -> real, i: nat): seq<nat> -> real
    requires Conditionals(p, vocab) && Conditionals(q, vocab)
  {
    d => if i <= |d| then Expect(SamplerTree(d, DraftRows(q, ctx, d), TargetRows(p, ctx, d), i), f) else 0.0
  }

  /** The expected value of a block that is closed by a rejection right after pre. */
  ghost function Refused(p: seq<nat> -> seq<real>, q: seq<nat> -> seq<real>, vocab: nat, ctx: seq<nat>, pre: seq<nat>,
                         f: AcceptResult -> real): real
    requires Conditionals(p, vocab) && Conditionals(q, vocab)
  {
    Expect(Emit(pre, ResampleRow(p(ctx + pre), q(ctx + pre)), false), f)
  }

  /** Judging position |pre| of a block d that starts with pre ++ [x]. */
  lemma ScoreStep(p: seq<nat> -> seq<real>, q: seq<nat> -> seq<real>, vocab: nat, ctx: seq<nat>,
                  f: AcceptResult -> real, pre: seq<nat>, x: nat, d: seq<nat>)
    requires Conditionals(p, vocab) && Conditionals(q, vocab) && pre + [x] <= d
    ensures Score(p, q, vocab, ctx, f, |pre|)(d) ==
      Blend(At(p(ctx + pre), x), At(q(ctx + pre), x), Score(p, q, vocab, ctx, f, |pre| + 1)(d),
            Refused(p, q, vocab, ctx, pre, f))
  {
    assert d[..|pre|] == pre && d[|pre|] == x;
    var go := SamplerTree(d, DraftRows(q, ctx, d), TargetRows(p, ctx, d), |pre| + 1);
    ExpectTest(p(ctx + pre), q(ctx + pre), x, pre, go, f);
  }

  lemma {:induction false} DraftAllFrom(p: seq<nat> -> seq<real>, q: seq<nat> -> seq<real>, vocab: nat, ctx: seq<nat>,
                                        k: nat, pre: seq<nat>, f: AcceptResult -> real)
    requires Conditionals(p, vocab) && Conditionals(q, vocab) && |pre| <= k
    ensures WellFormed(DraftTree(q, ctx, k, pre))
    ensures Expect(DraftTree(q, ctx, k, pre), Score(p, q, vocab, ctx, f, |pre|))
         == Expect(OneAtATime(p, q, vocab, ctx, k, pre), f)
    decreases k - |pre|
  {
    DraftWellFormed(q, vocab, ctx, k, pre);
    if |pre| == k {
      assert pre[..|pre|] == pre;
    } else {
      var drafts, seqs := DraftTree(q, ctx, k, pre), OneAtATime(p, q, vocab, ctx, k, pre);
      forall x: nat | x < vocab
        ensures Expect(drafts.kids[x], Score(p, q, vocab, ctx, f, |pre|)) == Expect(seqs.kids[x], f)
      {
        DraftAllChild(p, q, vocab, ctx, k, pre, x, f);
      }
      assert ExpectKids(drafts, Score(p, q, vocab, ctx, f, |pre|)) == ExpectKids(seqs, f);
    }
  }

  lemma {:induction false} DraftAllChild(p: seq<nat> -> seq<real>, q: seq<nat> -> seq<real>, vocab: nat, ctx: seq<nat>,
                                         k: nat, pre: seq<nat>, x: nat, f: AcceptResult -> real)
    requires Conditionals(p, vocab) && Conditionals(q, vocab) && |pre| < k && x < vocab
    ensures WellFormed(DraftTree(q, ctx, k, pre + [x]))
    ensures Expect(DraftTree(q, ctx, k, pre + [x]), Score(p, q, vocab, ctx, f, |pre|))
         == Expect(OneAtATime(p, q, vocab, ctx, k, pre).kids[x], f)
    decreases k - |pre|, 0
  {
    var drafts := DraftTree(q, ctx, k, pre + [x]);
    DraftWellFormed(q, vocab, ctx, k, pre + [x]);
    DraftAllFrom(p, q, vocab, ctx, k, pre + [x], f);
    ScoreBlends(p, q, vocab, ctx, k, pre, x, f, drafts);
    TestedChild(p, q, vocab, ctx, k, pre, x, f);
  }

  /** What judging x after pre does to the value of the drafts that start so. */
  lemma ScoreBlends(p: seq<nat> -> seq<real>, q: seq<nat> -> seq<real>, vocab: nat, ctx: seq<nat>, k: nat,
                    pre: seq<nat>, x: nat, f: AcceptResult -> real, drafts: Tree<seq<nat>>)
    requires Conditionals(p, vocab) && Conditionals(q, vocab)
    requires WellFormed(drafts) && AllLeaves(drafts, Drafts(k, pre + [x]))
    ensures Expect(drafts, Score(p, q, vocab, ctx, f, |pre|)) ==
      Blend(At(p(ctx + pre), x), At(q(ctx + pre), x), Expect(drafts, Score(p, q, vocab, ctx, f, |pre| + 1)),
            Refused(p, q, vocab, ctx, pre, f))
  {
    var now, later := Score(p, q, vocab, ctx, f, |pre|), Score(p, q, vocab, ctx, f, |pre| + 1);
    var a, b, other := At(p(ctx + pre), x), At(q(ctx + pre), x), Refused(p, q, vocab, ctx, pre, f);
    forall d | Drafts(k, pre + [x])(d) ensures now(d) == Blend(a, b, later(d), other) {
      ScoreStep(p, q, vocab, ctx, f, pre, x, d);
    }
    ExpectBlend(drafts, Drafts(k, pre + [x]), now, later, a, b, other);
  }

  /** What testing x at once does to the value of drafting one at a time. */
  lemma TestedChild(p: seq<nat> -> seq<real>, q: seq<nat> -> seq<real>, vocab: nat, ctx: seq<nat>, k: nat,
                    pre: seq<nat>, x: nat, f: AcceptResult -> real)
    requires Conditionals(p, vocab) && Conditionals(q, vocab) && |pre| < k && x < vocab
    ensures Expect(OneAtATime(p, q, vocab, ctx, k, pre).kids[x], f) ==
      Blend(At(p(ctx + pre), x), At(q(ctx + pre), x), Expect(OneAtATime(p, q, vocab, ctx, k, pre + [x]), f),
            Refused(p, q, vocab, ctx, pre, f))
  {
    ExpectTest(p(ctx + pre), q(ctx + pre), x, pre, OneAtATime(p, q, vocab, ctx, k, pre + [x]), f);
  }

  /** How much of a tested token's law is that of going on. */
  function Weight(p: real, q: real): real
    requires p >= 0.0 && q >= 0.0
  {
    if q == 0.0 then 1.0 else Ratio(p, q)
  }

  lemma BlendIsAffine(p: real, q: real, go: real, other: real)
    requires p >= 0.0 && q >= 0.0
    ensures Blend(p, q, go, other) == Product(Weight(p, q), go) + Product(1.0 - Weight(p, q), other)
  {
  }

  /** Blending commutes with expectation. */
  lemma ExpectBlend<A(!new)>(t: Tree<A>, inLeaf: A -> bool, now: A -> real, later: A -> real, p: real, q: real,
                             other: real)
    requires WellFormed(t) && AllLeaves(t, inLeaf) && p >= 0.0 && q >= 0.0
    requires forall d | inLeaf(d) :: now(d) == Blend(p, q, later(d), other)
    ensures Expect(t, now) == Blend(p, q, Expect(t, later), other)
  {
    var a := Weight(p, q);
    var c := Product(1.0 - a, other);
    forall d | inLeaf(d) ensures now(d) == Product(a, later(d)) + c { BlendIsAffine(p, q, later(d), other); }
    ExpectAffine(t, inLeaf, now, later, a, c);
    BlendIsAffine(p, q, Expect(t, later), other);
  }

  /** Drafting all k tokens first gives the same law on blocks: the unused drafted suffix sums out to one. */
  lemma DraftAllIsOneAtATime(p: seq<nat> -> seq<real>, q: seq<nat> -> seq<real>, vocab: nat, ctx: seq<nat>, k: nat,
                             f: AcceptResult -> real)
    requires Conditionals(p, vocab) && Conditionals(q, vocab)
    ensures Expect(StepTree(p, q, vocab, ctx, k), f) == Expect(OneAtATime(p, q, vocab, ctx, k, []), f)
  {
    var judge, drafts := Judge(p, q, vocab, ctx), DraftTree(q, ctx, k, []);
    DraftWellFormed(q, vocab, ctx, k, []);
    ExpectBind(drafts, judge, f);
    ExpectSame(drafts, Later(judge, f), Score(p, q, vocab, ctx, f, 0));
    DraftAllFrom(p, q, vocab, ctx, k, [], f);
  }

  /** Sampling a closing token from any row averages h over the extensions. */
  lemma EmitLaw(accepted: seq<nat>, row: seq<real>, bonus: bool, h: seq<nat> -> real)
    requires IsDist(row)
    ensures Expect(Emit(accepted, row, bonus), r => h(Block(r))) == Sum(Times(row, Extensions(h, accepted, |row|)))
  {
    var f := (r: AcceptResult) => h(Block(r));
    var t := Emit(accepted, row, bonus);
    forall z: nat | z < |row| ensures ExpectKids(t, f)[z] == Extensions(h, accepted, |row|)[z] {
      assert t.kids[z] == Leaf(AcceptResult(|accepted|, accepted, Tail(bonus, z)));
      assert Block(t.kids[z].value) == accepted + [z];
    }
    assert ExpectKids(t, f) == Extensions(h, accepted, |row|);
  }

  lemma {:induction false} OneAtATimeHarmonic(p: seq<nat> -> seq<real>, q: seq<nat> -> seq<real>, vocab: nat,
                                              ctx: seq<nat>, k: nat, pre: seq<nat>, h: seq<nat> -> real)
    requires Conditionals(p, vocab) && Conditionals(q, vocab) && |pre| <= k && Harmonic(p, ctx, h)
    ensures Expect(OneAtATime(p, q, vocab, ctx, k, pre), r => h(Block(r))) == h(pre)
    decreases k - |pre|
  {
    if |pre| == k {
      EmitLaw(pre, p(ctx + pre), true, h);
    } else {
      var f := (r: AcceptResult) => h(Block(r));
      var t := OneAtATime(p, q, vocab, ctx, k, pre);
      var hs, row := Extensions(h, pre, vocab), ResampleRow(p(ctx + pre), q(ctx + pre));
      EmitLaw(pre, row, false, h);
      forall x: nat | x < vocab
        ensures ExpectKids(t, f)[x] == Blend(p(ctx + pre)[x], q(ctx + pre)[x], hs[x], Sum(Times(row, hs)))
      {
        OneAtATimeHarmonic(p, q, vocab, ctx, k, pre + [x], h);
        ExpectTest(p(ctx + pre), q(ctx + pre), x, pre, OneAtATime(p, q, vocab, ctx, k, pre + [x]), f);
      }
      PositionLaw(p(ctx + pre), q(ctx + pre), hs, ExpectKids(t, f), Sum(Times(row, hs)));
    }
  }

  /** One speculative step, stopped wherever it happens to stop, is a stopped run of the target model. */
  lemma StepHarmonic(p: seq<nat> -> seq<real>, q: seq<nat> -> seq<real>, vocab: nat, ctx: seq<nat>, k: nat,
                     h: seq<nat> -> real)
    requires Conditionals(p, vocab) && Conditionals(q, vocab) && Harmonic(p, ctx, h)
    ensures Expect(StepTree(p, q, vocab, ctx, k), r => h(Block(r))) == h([])
  {
    DraftAllIsOneAtATime(p, q, vocab, ctx, k, r => h(Block(r)));
    OneAtATimeHarmonic(p, q, vocab, ctx, k, [], h);
  }

  /** The target's probability of continuing c with y: the product of its conditionals along y. */
  ghost function Chain(p: seq<nat> -> seq<real>, c: seq<nat>, y: seq<nat>): real
    decreases |y|
  {
    if y == [] then 1.0 else Product(At(p(c), y[0]), Chain(p, c + [y[0]], y[1..]))
  }

  /** The target's probability that a continuation of input that has already produced pre begins with y. */
  ghost function Hits(p: seq<nat> -> seq<real>, input: seq<nat>, y: seq<nat>): seq<nat> -> real {
    pre => if y <= pre then 1.0
           else if pre <= y then Chain(p, input + pre, y[|pre|..])
           else 0.0
  }

  ghost function Shift(h: seq<nat> -> real, gen: seq<nat>): seq<nat> -> real {
    b => h(gen + b)
  }

  lemma HitsUnfold(p: seq<nat> -> seq<real>, input: seq<nat>, y: seq<nat>, pre: seq<nat>)
    requires pre <= y && |pre| < |y|
    ensures Hits(p, input, y)(pre) == Product(At(p(input + pre), y[|pre|]), Hits(p, input, y)(pre + [y[|pre|]]))
  {
    var next := pre + [y[|pre|]];
    assert next <= y;
    assert y[|pre|..][1..] == y[|next|..];
    AppendAssociates(input, pre, [y[|pre|]]);
    if y <= next {
      assert y == next;
      assert y[|next|..] == [];
    }
    var c, rest := input + pre, y[|pre|..];
    assert Chain(p, c, rest) == Product(At(p(c), rest[0]), Chain(p, c + [rest[0]], rest[1..]));
  }

  /** Once y has begun it stays begun, and once it is missed it stays missed. */
  lemma HitsSettled(p: seq<nat> -> seq<real>, input: seq<nat>, y: seq<nat>, pre: seq<nat>, z: nat)
    requires y <= pre || !(pre <= y) || z != y[|pre|]
    ensures Hits(p, input, y)(pre + [z]) == if y <= pre then 1.0 else 0.0
  {
    assert (pre + [z])[|pre|] == z && (pre + [z])[..|pre|] == pre;
  }

  lemma HitsBegun(p: seq<nat> -> seq<real>, vocab: nat, input: seq<nat>, y: seq<nat>, pre: seq<nat>)
    requires Conditionals(p, vocab) && y <= pre
    ensures Sum(Times(p(input + pre), Extensions(Hits(p, input, y), pre, vocab))) == 1.0
  {
    var row := p(input + pre);
    var v := Times(row, Extensions(Hits(p, input, y), pre, vocab));
    forall z: nat | z < vocab ensures v[z] == row[z] { HitsSettled(p, input, y, pre, z); }
    assert v == row;
  }

  lemma HitsAhead(p: seq<nat> -> seq<real>, vocab: nat, input: seq<nat>, y: seq<nat>, pre: seq<nat>)
    requires Conditionals(p, vocab) && pre <= y && |pre| < |y|
    ensures Hits(p, input, y)(pre) == Sum(Times(p(input + pre), Extensions(Hits(p, input, y), pre, vocab)))
  {
    var row, ext := p(input + pre), Extensions(Hits(p, input, y), pre, vocab);
    var k := y[|pre|];
    forall z: nat | z < vocab && z != k ensures ext[z] == 0.0 { HitsSettled(p, input, y, pre, z); }
    SumTimesSingle(row, ext, k);
    HitsUnfold(p, input, y, pre);
    if k < vocab { assert ext[k] == Hits(p, input, y)(pre + [k]); }
  }

  lemma SumTimesSingle(row: seq<real>, ext: seq<real>, k: nat)
    requires |row| == |ext| && forall z | 0 <= z < |ext| && z != k :: ext[z] == 0.0
    ensures Sum(Times(row, ext)) == if k < |ext| then Product(row[k], ext[k]) else 0.0
  {
    SumToSingle(Times(row, ext), k, |ext|);
  }

  lemma HitsMissed(p: seq<nat> -> seq<real>, vocab: nat, input: seq<nat>, y: seq<nat>, pre: seq<nat>)
    requires Conditionals(p, vocab) && !(y <= pre) && !(pre <= y)
    ensures Sum(Times(p(input + pre), Extensions(Hits(p, input, y), pre, vocab))) == 0.0
  {
    var ext := Extensions(Hits(p, input, y), pre, vocab);
    forall z: nat | z < vocab ensures ext[z] == 0.0 { HitsSettled(p, input, y, pre, z); }
    SumTimesSingle(p(input + pre), ext, vocab);
  }

  lemma HitsHarmonicAt(p: seq<nat> -> seq<real>, vocab: nat, input: seq<nat>, y: seq<nat>, pre: seq<nat>)
    requires Conditionals(p, vocab)
    ensures Hits(p, input, y)(pre) == Sum(Times(p(input + pre), Extensions(Hits(p, input, y), pre, vocab)))
  {
    if y <= pre {
      HitsBegun(p, vocab, input, y, pre);
    } else if pre <= y {
      HitsAhead(p, vocab, input, y, pre);
    } else {
      HitsMissed(p, vocab, input, y, pre);
    }
  }

  lemma HitsHarmonic(p: seq<nat> -> seq<real>, vocab: nat, input: seq<nat>, y: seq<nat>, gen: seq<nat>)
    requires Conditionals(p, vocab)
    ensures Harmonic(p, input + gen, Shift(Hits(p, input, y), gen))
  {
    var h, s := Hits(p, input, y), Shift(Hits(p, input, y), gen);
    forall b: seq<nat> ensures s(b) == Sum(Times(p(input + gen + b), Extensions(s, b, |p(input + gen + b)|))) {
      HitsHarmonicAt(p, vocab, input, y, gen + b);
      AppendAssociates(input, gen, b);
      forall z: nat ensures s(b + [z]) == h((gen + b) + [z]) { AppendAssociates(gen, b, [z]); }
      assert Extensions(s, b, vocab) == Extensions(h, gen + b, vocab);
    }
  }

  /** The event that the output begins with y. */
  ghost function Begins(y: seq<nat>): Output -> real {
    (out: Output) => if y <= out.tokens then 1.0 else 0.0
  }

  /** How likely y becomes when an output is continued by sampling from the target itself. */
  ghost function Continued(p: seq<nat> -> seq<real>, input: seq<nat>, y: seq<nat>): Output -> real {
    (out: Output) => Hits(p, input, y)(out.tokens)
  }

  /**
   From every loop head and with fallback on or off: continuing the output from the target gives y exactly the
   probability that the target itself gives it.
   */
  lemma {:induction false} LoopExact(cfg: Config, p: seq<nat> -> seq<real>, q: seq<nat> -> seq<real>, vocab: nat,
                                     max: nat, input: seq<nat>, gen: seq<nat>, m: Metrics, y: seq<nat>)
    requires Conditionals(p, vocab) && Conditionals(q, vocab)
    requires |y| <= max && EosOnlyLast(cfg.eos, y)
    ensures Expect(LoopTree(cfg, p, q, vocab, max, input + gen, gen, m), Continued(p, input, y)) ==
      Hits(p, input, y)(gen)
    decreases max - |gen|
  {
    if |gen| < max {
      var step, after := StepTree(p, q, vocab, input + gen, cfg.k), After(cfg, p, q, vocab, max, input + gen, gen, m);
      var h, f := Shift(Hits(p, input, y), gen), Continued(p, input, y);
      ExpectBind(step, after, f);
      forall r ensures Later(after, f)(r) == h(Block(r)) {
        StepExact(cfg, p, q, vocab, max, input, gen, m, y, r);
      }
      ExpectSame(step, Later(after, f), r => h(Block(r)));
      HitsHarmonic(p, vocab, input, y, gen);
      StepHarmonic(p, q, vocab, input + gen, cfg.k, h);
      assert gen + [] == gen;
    }
  }

  lemma {:induction false} StepExact(cfg: Config, p: seq<nat> -> seq<real>, q: seq<nat> -> seq<real>, vocab: nat,
                                     max: nat, input: seq<nat>, gen: seq<nat>, m: Metrics, y: seq<nat>, r: AcceptResult)
    requires Conditionals(p, vocab) && Conditionals(q, vocab)
    requires |y| <= max && EosOnlyLast(cfg.eos, y) && |gen| < max
    ensures Expect(AfterStep(cfg, p, q, vocab, max, input + gen, gen, m, r), Continued(p, input, y))
         == Hits(p, input, y)(gen + Block(r))
    decreases max - |gen|, 0
  {
    var block, tally := Block(r), Tally(m, cfg.k, r);
    var added := Cut(cfg.eos, block);
    if HasEos(cfg.eos, added) {
      CutKeepsHits(cfg.eos, p, input, gen, block, y);
    } else if |gen + added| >= max {
      TruncationKeepsHits(p, input, gen + block, max, y);
    } else if !FallsBack(cfg, tally) {
      AppendAssociates(input, gen, block);
      LoopExact(cfg, p, q, vocab, max, input, gen + block, tally, y);
    }
  }

  /** Cutting a block at its first EOS does not change how likely a string with EOS at most last becomes. */
  lemma CutKeepsHits(eos: Option<nat>, p: seq<nat> -> seq<real>, input: seq<nat>, gen: seq<nat>, block: seq<nat>,
                     y: seq<nat>)
    requires EosOnlyLast(eos, y) && HasEos(eos, Cut(eos, block))
    ensures Hits(p, input, y)(gen + Cut(eos, block)) == Hits(p, input, y)(gen + block)
  {
    var c := Cut(eos, block);
    var at := |gen| + |c| - 1;
    assert IsEos(eos, (gen + block)[at]) && IsEos(eos, (gen + c)[at]);
    assert forall i | 0 <= i < |gen + c| :: (gen + c)[i] == (gen + block)[i];
    if gen + c <= y { assert y == gen + c; }
    if gen + block <= y { assert y == gen + block; }
  }

  /** Truncating at a length no smaller than y's does not change how likely y becomes. */
  lemma TruncationKeepsHits(p: seq<nat> -> seq<real>, input: seq<nat>, tokens: seq<nat>, max: nat, y: seq<nat>)
    requires |y| <= max <= |tokens|
    ensures Hits(p, input, y)(tokens[..max]) == Hits(p, input, y)(tokens)
  {
    if tokens[..max] <= y { assert y == tokens[..max]; }
    if tokens <= y { assert y == tokens; }
  }

  /**
   Exactness over the whole run: for every draft model, every number of drafted tokens, wherever the step boundaries
   fall and whether or not the loop falls back, an output continued from the target begins with y with the target's own
   probability of y.
   */
  lemma ContinuedExact(cfg: Config, p: seq<nat> -> seq<real>, q: seq<nat> -> seq<real>, vocab: nat, max: nat,
                       input: seq<nat>, y: seq<nat>)
    requires Conditionals(p, vocab) && Conditionals(q, vocab)
    requires |y| <= max && EosOnlyLast(cfg.eos, y)
    ensures Expect(LoopTree(cfg, p, q, vocab, max, input, [], Metrics(0, 0, 0, 0)), Continued(p, input, y)) ==
      Chain(p, input, y)
  {
    assert input + [] == input;
    LoopExact(cfg, p, q, vocab, max, input, [], Metrics(0, 0, 0, 0), y);
    assert y[0..] == y;
  }

  /**
   Settings under which the loop never falls back: three steps produce three tokens at least, at a rate of 0 at least.
   */
  predicate NeverFallsBack(cfg: Config, max: nat) {
    !cfg.fallback || cfg.minRate <= 0.0 || max <= 3
  }

  /** An output that did not fall back is as long as y or ends in EOS: it is y's beginning only if it is y. */
  lemma NothingToContinue(cfg: Config, max: nat, y: seq<nat>, out: Output)
    requires Accounted(cfg, max, out) && NeverFallsBack(cfg, max) && |y| <= max && EosOnlyLast(cfg.eos, y)
    requires out.tokens <= y
    ensures out.tokens == y
  {
    var tokens := out.tokens;
    if HasEos(cfg.eos, tokens) {
      var i :| 0 <= i < |tokens| && IsEos(cfg.eos, tokens[i]);
      assert IsEos(cfg.eos, y[i]);
    } else {
      RateIsNonNegative(out.metrics);
    }
  }

  lemma ContinuedIsBegins(cfg: Config, p: seq<nat> -> seq<real>, max: nat, input: seq<nat>, y: seq<nat>, out: Output)
    requires Balanced(cfg, max)(out) && NeverFallsBack(cfg, max) && |y| <= max && EosOnlyLast(cfg.eos, y)
    ensures Begins(y)(out) == Continued(p, input, y)(out)
  {
    if out.tokens <= y {
      NothingToContinue(cfg, max, y, out);
      assert Hits(p, input, y)(y) == 1.0;
      assert Begins(y)(out) == 1.0;
      assert Continued(p, input, y)(out) == Hits(p, input, y)(out.tokens);
    } else {
      assert Hits(p, input, y)(out.tokens) == Begins(y)(out);
    }
  }

  lemma RateIsNonNegative(m: Metrics)
    ensures m.AcceptanceRate() >= 0.0
  {
  }

  lemma LawOfOutputs(t: Tree<Output>, cfg: Config, p: seq<nat> -> seq<real>, max: nat, input: seq<nat>, y: seq<nat>)
    requires WellFormed(t) && AllLeaves(t, Balanced(cfg, max))
    requires NeverFallsBack(cfg, max) && |y| <= max && EosOnlyLast(cfg.eos, y)
    ensures Expect(t, Begins(y)) == Expect(t, Continued(p, input, y))
  {
    var f, g := Begins(y), Continued(p, input, y);
    forall out: Output | Balanced(cfg, max)(out) ensures f(out) == Product(1.0, g(out)) + 0.0 {
      ContinuedIsBegins(cfg, p, max, input, y, out);
    }
    ExpectAffine(t, Balanced(cfg, max), f, g, 1.0, 0.0);
  }

  /** With no fallback the output itself begins with y with the target's own probability of y. */
  lemma Exact(cfg: Config, p: seq<nat> -> seq<real>, q: seq<nat> -> seq<real>, vocab: nat, max: nat, input: seq<nat>,
              y: seq<nat>)
    requires Conditionals(p, vocab) && Conditionals(q, vocab) && NeverFallsBack(cfg, max)
    requires |y| <= max && EosOnlyLast(cfg.eos, y)
    ensures Expect(LoopTree(cfg, p, q, vocab, max, input, [], Metrics(0, 0, 0, 0)), Begins(y)) == Chain(p, input, y)
  {
    LoopAccounts(cfg, p, q, vocab, max, input, [], Metrics(0, 0, 0, 0));
    LawOfOutputs(LoopTree(cfg, p, q, vocab, max, input, [], Metrics(0, 0, 0, 0)), cfg, p, max, input, y);
    ContinuedExact(cfg, p, q, vocab, max, input, y);
  }

  /** Neither the draft model, nor K, nor the fallback settings show in the law of a continued output. */
  lemma DraftDoesNotMatter(cfg: Config, cfg': Config, p: seq<nat> -> seq<real>, q: seq<nat> -> seq<real>,
                           q': seq<nat> -> seq<real>, vocab: nat, max: nat, input: seq<nat>, y: seq<nat>)
    requires Conditionals(p, vocab) && Conditionals(q, vocab) && Conditionals(q', vocab) && cfg.eos == cfg'.eos
    requires |y| <= max && EosOnlyLast(cfg.eos, y)
    ensures Expect(LoopTree(cfg, p, q, vocab, max, input, [], Metrics(0, 0, 0, 0)), Continued(p, input, y))
         == Expect(LoopTree(cfg', p, q', vocab, max, input, [], Metrics(0, 0, 0, 0)), Continued(p, input, y))
  {
    ContinuedExact(cfg, p, q, vocab, max, input, y);
    ContinuedExact(cfg', p, q', vocab, max, input, y);
  }
}
