/** speculative/orchestrator.py: the draft, verify, accept loop with its EOS, truncation and fallback exits. */
module Orchestrator {
  import opened Options
  import opened ChoiceTree
  import opened LanguageModel
  import opened RejectionSampler
  import opened DraftRunner
  import opened Verifier

  datatype Config = Config(k: nat, eos: Option<nat>, fallback: bool, minRate: real)

  datatype Metrics = Metrics(accepted: nat, drafted: nat, steps: nat, generated: nat) {
    function AcceptanceRate(): real {
      if drafted == 0 then 0.0 else accepted as real / drafted as real
    }
  }

  datatype Output = Output(tokens: seq<nat>, metrics: Metrics)

  predicate IsEos(eos: Option<nat>, x: nat) {
    eos == Some(x)
  }

  predicate HasEos(eos: Option<nat>, s: seq<nat>) {
    exists i | 0 <= i < |s| :: IsEos(eos, s[i])
  }

  /** EOS stands nowhere but, possibly, at the end. */
  predicate EosOnlyLast(eos: Option<nat>, s: seq<nat>) {
    forall i | 0 <= i < |s| - 1 :: !IsEos(eos, s[i])
  }

  lemma EosCons(eos: Option<nat>, x: nat, s: seq<nat>)
    ensures HasEos(eos, [x] + s) <==> IsEos(eos, x) || HasEos(eos, s)
  {
    if IsEos(eos, x) { assert IsEos(eos, ([x] + s)[0]); }
    if HasEos(eos, s) { var i :| 0 <= i < |s| && IsEos(eos, s[i]); assert IsEos(eos, ([x] + s)[i + 1]); }
    if HasEos(eos, [x] + s) {
      var i :| 0 <= i < |s| + 1 && IsEos(eos, ([x] + s)[i]);
      assert i > 0 ==> IsEos(eos, s[i - 1]);
    }
  }

  /** A block cut right after its first EOS. */
  function Cut(eos: Option<nat>, block: seq<nat>): (c: seq<nat>)
    ensures c <= block && EosOnlyLast(eos, c)
    ensures HasEos(eos, c) == HasEos(eos, block)
    ensures !HasEos(eos, block) ==> c == block
    ensures HasEos(eos, block) ==> c != [] && IsEos(eos, c[|c| - 1])
  {
    if block == [] then []
    else
      EosCons(eos, block[0], block[1..]);
      assert block == [block[0]] + block[1..];
      if IsEos(eos, block[0]) then [block[0]] else
        var rest := Cut(eos, block[1..]);
        EosCons(eos, block[0], rest);
        [block[0]] + rest
  }

  function Judge(p: seq<nat> -> seq<real>, q: seq<nat> -> seq<real>, ghost vocab: nat, ctx: seq<nat>)
    : seq<nat> -> Tree<AcceptResult>
    requires Conditionals(p, vocab) && Conditionals(q, vocab)
  {
    d => SamplerTree(d, DraftRows(q, ctx, d), TargetRows(p, ctx, d), 0)
  }

  /** One pass of draft, verify and accept as a random program: all k tokens are drafted before any is judged. */
  function StepTree(p: seq<nat> -> seq<real>, q: seq<nat> -> seq<real>, ghost vocab: nat, ctx: seq<nat>, k: nat)
    : (t: Tree<AcceptResult>)
    requires Conditionals(p, vocab) && Conditionals(q, vocab)
    ensures WellFormed(t)
  {
    DraftWellFormed(q, vocab, ctx, k, []);
    BindWellFormed(DraftTree(q, ctx, k, []), Judge(p, q, vocab, ctx));
    Bind(DraftTree(q, ctx, k, []), Judge(p, q, vocab, ctx))
  }

  function Tally(m: Metrics, k: nat, r: AcceptResult): Metrics {
    m.(accepted := m.accepted + r.numAccepted, drafted := m.drafted + k, steps := m.steps + 1)
  }

  predicate FallsBack(cfg: Config, m: Metrics) {
    cfg.fallback && m.steps >= 3 && m.AcceptanceRate() < cfg.minRate
  }

  function Finish(tokens: seq<nat>, m: Metrics): Tree<Output> {
    Leaf(Output(tokens, m.(generated := |tokens|)))
  }

  /** The whole loop as a random program, from a state in which gen has been generated and cur is the context. */
  function LoopTree(cfg: Config, p: seq<nat> -> seq<real>, q: seq<nat> -> seq<real>, ghost vocab: nat, max: nat,
                    cur: seq<nat>, gen: seq<nat>, m: Metrics): (t: Tree<Output>)
    requires Conditionals(p, vocab) && Conditionals(q, vocab)
    ensures WellFormed(t)
    decreases max - |gen|, 2
  {
    if |gen| >= max then Finish(gen, m) else
      var after := After(cfg, p, q, vocab, max, cur, gen, m);
      BindWellFormed(StepTree(p, q, vocab, cur, cfg.k), after);
      Bind(StepTree(p, q, vocab, cur, cfg.k), after)
  }

  function After(cfg: Config, p: seq<nat> -> seq<real>, q: seq<nat> -> seq<real>, ghost vocab: nat, max: nat,
                 cur: seq<nat>, gen: seq<nat>, m: Metrics): (k: AcceptResult -> Tree<Output>)
    requires Conditionals(p, vocab) && Conditionals(q, vocab) && |gen| < max
    ensures forall r :: WellFormed(k(r))
    decreases max - |gen|, 1
  {
    (r: AcceptResult) => AfterStep(cfg, p, q, vocab, max, cur, gen, m, r)
  }

  /** What the loop body does with the sampler's verdict. */
  function AfterStep(cfg: Config, p: seq<nat> -> seq<real>, q: seq<nat> -> seq<real>, ghost vocab: nat, max: nat,
                     cur: seq<nat>, gen: seq<nat>, m: Metrics, r: AcceptResult): (t: Tree<Output>)
    requires Conditionals(p, vocab) && Conditionals(q, vocab) && |gen| < max
    ensures WellFormed(t)
    decreases max - |gen|, 0
  {
    var tally := Tally(m, cfg.k, r);
    var added := Cut(cfg.eos, Block(r));
    if HasEos(cfg.eos, added) then Finish(gen + added, tally)
    else if |gen + added| >= max then Finish((gen + added)[..max], tally)
    else if FallsBack(cfg, tally) then Finish(gen + added, tally)
    else LoopTree(cfg, p, q, vocab, max, cur + added, gen + added, tally)
  }

  /** The block the sampler hands over: at most k accepted tokens, counted, and one more, a bonus if all k were. */
  predicate Sound(k: nat, r: AcceptResult) {
    r.numAccepted == |r.accepted| <= k && (r.extra.Bonus? <==> r.numAccepted == k)
  }

  lemma {:induction false} SamplerSound(d: seq<nat>, draft: seq<seq<real>>, target: seq<seq<real>>, i: nat)
    requires i <= |d| && Rows(d, draft, target)
    ensures AllLeaves(SamplerTree(d, draft, target, i), r => Sound(|d|, r))
    decreases |d| - i
  {
    if i < |d| { SamplerSound(d, draft, target, i + 1); }
  }

  /** Step 4 of the loop: accepted tokens one by one, then the closing token, leaving at the first EOS. */
  method Collect(eos: Option<nat>, r: AcceptResult) returns (newTokens: seq<nat>, stopped: bool)
    ensures newTokens == Cut(eos, Block(r)) && stopped == HasEos(eos, newTokens)
  {
    newTokens := [];
    for i := 0 to |r.accepted|
      invariant newTokens == r.accepted[..i] && !HasEos(eos, newTokens)
    {
      assert Block(r)[..i] == r.accepted[..i] && Block(r)[..i + 1] == r.accepted[..i] + [r.accepted[i]];
      newTokens := newTokens + [r.accepted[i]];
      if IsEos(eos, r.accepted[i]) {
        CutAt(eos, Block(r), i);
        assert IsEos(eos, newTokens[i]);
        return newTokens, true;
      }
    }
    newTokens := newTokens + [r.extra.token];
    stopped := IsEos(eos, r.extra.token);
    CutAt(eos, Block(r), |r.accepted|);
  }

  /** Where the first EOS of a block stands. */
  lemma {:induction false} CutAt(eos: Option<nat>, block: seq<nat>, i: nat)
    requires i < |block| && !HasEos(eos, block[..i])
    requires IsEos(eos, block[i]) || i + 1 == |block|
    ensures Cut(eos, block) == block[..i + 1]
  {
    assert forall j | 0 <= j < i :: !IsEos(eos, block[j]) by {
      forall j | 0 <= j < i ensures !IsEos(eos, block[j]) { assert block[..i][j] == block[j]; }
    }
    if i > 0 {
      assert block[1..][..i - 1] == block[..i][1..];
      CutAt(eos, block[1..], i - 1);
    } else if !IsEos(eos, block[0]) {
      assert block[1..] == [];
    }
  }

  /** Every step drafts k tokens, of which some are accepted. */
  predicate Counts(cfg: Config, m: Metrics) {
    m.drafted == cfg.k * m.steps && m.accepted <= m.drafted
  }

  /** What holds at every loop head: each step generated its accepted tokens and one more. */
  predicate LoopState(cfg: Config, gen: seq<nat>, m: Metrics) {
    !HasEos(cfg.eos, gen) && |gen| == m.accepted + m.steps && Counts(cfg, m)
  }

  /** EOS can only be last, and only an EOS exit can overshoot max, by at most k. */
  predicate Fits(cfg: Config, max: nat, tokens: seq<nat>) {
    EosOnlyLast(cfg.eos, tokens) && |tokens| <= (if HasEos(cfg.eos, tokens) then max + cfg.k else max)
  }

  /**
   What holds of every output: it fits, the metrics add up and cover it, and only the fallback exit falls short without
   EOS, with exactly one token a step beyond the accepted ones.
   */
  predicate Accounted(cfg: Config, max: nat, out: Output) {
    && Fits(cfg, max, out.tokens)
    && |out.tokens| <= out.metrics.accepted + out.metrics.steps
    && (|out.tokens| < max && !HasEos(cfg.eos, out.tokens) ==>
          FallsBack(cfg, out.metrics) && |out.tokens| == out.metrics.accepted + out.metrics.steps)
    && out.metrics.generated == |out.tokens| && out.metrics.steps <= max && Counts(cfg, out.metrics)
  }

  function Balanced(cfg: Config, max: nat): Output -> bool {
    out => Accounted(cfg, max, out)
  }

  lemma EosAppend(eos: Option<nat>, a: seq<nat>, b: seq<nat>)
    ensures HasEos(eos, a + b) <==> HasEos(eos, a) || HasEos(eos, b)
    ensures !HasEos(eos, a) && EosOnlyLast(eos, b) ==> EosOnlyLast(eos, a + b)
  {
    if HasEos(eos, a) { var i :| 0 <= i < |a| && IsEos(eos, a[i]); assert IsEos(eos, (a + b)[i]); }
    if HasEos(eos, b) { var i :| 0 <= i < |b| && IsEos(eos, b[i]); assert IsEos(eos, (a + b)[|a| + i]); }
    if HasEos(eos, a + b) {
      var i :| 0 <= i < |a + b| && IsEos(eos, (a + b)[i]);
      if i < |a| { assert IsEos(eos, a[i]); } else { assert IsEos(eos, b[i - |a|]); }
    }
  }

  lemma PrefixHasNoEos(eos: Option<nat>, s: seq<nat>, n: nat)
    requires n <= |s| && !HasEos(eos, s)
    ensures !HasEos(eos, s[..n])
  {
    assert s == s[..n] + s[n..];
    EosAppend(eos, s[..n], s[n..]);
  }

  lemma CountsStep(cfg: Config, m: Metrics, r: AcceptResult)
    requires Counts(cfg, m) && Sound(cfg.k, r)
    ensures Counts(cfg, Tally(m, cfg.k, r))
  {
    assert cfg.k * (m.steps + 1) == cfg.k * m.steps + cfg.k;
  }

  /** What one pass of the body makes of the generated tokens, on each of its exits. */
  lemma BodyFits(cfg: Config, max: nat, gen: seq<nat>, r: AcceptResult)
    requires !HasEos(cfg.eos, gen) && |gen| < max && Sound(cfg.k, r)
    ensures var added := Cut(cfg.eos, Block(r));
      && added != []
      && (HasEos(cfg.eos, added) ==> HasEos(cfg.eos, gen + added) && Fits(cfg, max, gen + added))
      && (!HasEos(cfg.eos, added) ==> !HasEos(cfg.eos, gen + added) && |added| == r.numAccepted + 1)
  {
    EosAppend(cfg.eos, gen, Cut(cfg.eos, Block(r)));
  }

  /** A pass that finds no EOS keeps the loop-head facts, and one that does adds no more than it counts. */
  lemma BodyKeepsLoopState(cfg: Config, max: nat, gen: seq<nat>, m: Metrics, r: AcceptResult)
    requires LoopState(cfg, gen, m) && |gen| < max && Sound(cfg.k, r)
    ensures var added, tally := Cut(cfg.eos, Block(r)), Tally(m, cfg.k, r);
      && Counts(cfg, tally) && tally.steps <= max && |gen + added| <= tally.accepted + tally.steps
      && (!HasEos(cfg.eos, added) ==> LoopState(cfg, gen + added, tally))
  {
    CountsStep(cfg, m, r);
    BodyFits(cfg, max, gen, r);
  }

  lemma NoEosIsOnlyLast(eos: Option<nat>, s: seq<nat>)
    requires !HasEos(eos, s)
    ensures EosOnlyLast(eos, s)
  {
  }

  lemma StepSound(p: seq<nat> -> seq<real>, q: seq<nat> -> seq<real>, vocab: nat, ctx: seq<nat>, k: nat)
    requires Conditionals(p, vocab) && Conditionals(q, vocab)
    ensures AllLeaves(StepTree(p, q, vocab, ctx, k), r => Sound(k, r))
  {
    DraftWellFormed(q, vocab, ctx, k, []);
    forall d: seq<nat> | Drafts(k, [])(d) ensures AllLeaves(Judge(p, q, vocab, ctx)(d), r => Sound(k, r)) {
      SamplerSound(d, DraftRows(q, ctx, d), TargetRows(p, ctx, d), 0);
    }
    BindLeaves(DraftTree(q, ctx, k, []), Judge(p, q, vocab, ctx),
               Drafts(k, []), r => Sound(k, r));
  }

  lemma StepOutcomeSound(p: seq<nat> -> seq<real>, q: seq<nat> -> seq<real>, vocab: nat, ctx: seq<nat>, k: nat,
                         u: Stream, pos: nat)
    requires Conditionals(p, vocab) && Conditionals(q, vocab) && Uniform(u)
    ensures Sound(k, Sample(StepTree(p, q, vocab, ctx, k), u, pos).0)
  {
    StepSound(p, q, vocab, ctx, k);
    SampleInLeaves(StepTree(p, q, vocab, ctx, k), r => Sound(k, r), u, pos);
  }

  /** On every random outcome, from every loop-head state, the loop delivers an accounted output. */
  lemma {:induction false} LoopAccounts(cfg: Config, p: seq<nat> -> seq<real>, q: seq<nat> -> seq<real>, vocab: nat,
                                        max: nat, cur: seq<nat>, gen: seq<nat>, m: Metrics)
    requires Conditionals(p, vocab) && Conditionals(q, vocab)
    requires LoopState(cfg, gen, m) && |gen| <= max
    ensures AllLeaves(LoopTree(cfg, p, q, vocab, max, cur, gen, m), Balanced(cfg, max))
    decreases max - |gen|
  {
    if |gen| >= max {
      NoEosIsOnlyLast(cfg.eos, gen);
    } else {
      StepSound(p, q, vocab, cur, cfg.k);
      forall r | Sound(cfg.k, r)
        ensures AllLeaves(After(cfg, p, q, vocab, max, cur, gen, m)(r), Balanced(cfg, max))
      {
        StepAccounts(cfg, p, q, vocab, max, cur, gen, m, r);
      }
      BindLeaves(StepTree(p, q, vocab, cur, cfg.k), After(cfg, p, q, vocab, max, cur, gen, m),
                 r => Sound(cfg.k, r), Balanced(cfg, max));
    }
  }

  lemma {:induction false} StepAccounts(cfg: Config, p: seq<nat> -> seq<real>, q: seq<nat> -> seq<real>, vocab: nat,
                                        max: nat, cur: seq<nat>, gen: seq<nat>, m: Metrics, r: AcceptResult)
    requires Conditionals(p, vocab) && Conditionals(q, vocab)
    requires LoopState(cfg, gen, m) && |gen| < max && Sound(cfg.k, r)
    ensures AllLeaves(AfterStep(cfg, p, q, vocab, max, cur, gen, m, r), Balanced(cfg, max))
    ensures !HasEos(cfg.eos, Block(r)) ==> LoopState(cfg, gen + Cut(cfg.eos, Block(r)), Tally(m, cfg.k, r))
    decreases max - |gen|, 0
  {
    var tally, added := Tally(m, cfg.k, r), Cut(cfg.eos, Block(r));
    BodyFits(cfg, max, gen, r);
    BodyKeepsLoopState(cfg, max, gen, m, r);
    if HasEos(cfg.eos, added) {
      FinishAccounts(cfg, max, gen + added, tally);
    } else if |gen + added| >= max {
      PrefixHasNoEos(cfg.eos, gen + added, max);
      FinishAccounts(cfg, max, (gen + added)[..max], tally);
    } else if FallsBack(cfg, tally) {
      FinishAccounts(cfg, max, gen + added, tally);
    } else {
      LoopAccounts(cfg, p, q, vocab, max, cur + added, gen + added, tally);
    }
  }

  lemma FinishAccounts(cfg: Config, max: nat, tokens: seq<nat>, m: Metrics)
    requires Counts(cfg, m) && m.steps <= max && EosOnlyLast(cfg.eos, tokens)
    requires |tokens| <= if HasEos(cfg.eos, tokens) then max + cfg.k else max
    requires |tokens| <= m.accepted + m.steps
    requires HasEos(cfg.eos, tokens) || |tokens| == max || (FallsBack(cfg, m) && |tokens| == m.accepted + m.steps)
    ensures Accounted(cfg, max, Output(tokens, m.(generated := |tokens|)))
    ensures AllLeaves(Finish(tokens, m), Balanced(cfg, max))
  {
    assert m.(generated := |tokens|).AcceptanceRate() == m.AcceptanceRate();
  }

  /** Steps 1 to 3 of the loop body: draft, verify, accept. */
  method DraftVerifyAccept<S, T>(k: nat, target: Model<S>, draft: Model<T>, ghost vocab: nat, current: seq<nat>,
                                 u: Stream, pos: nat)
    returns (r: AcceptResult, next: nat)
    requires k >= 1 && |current| > 0 && Uniform(u)
    requires Conditionals(Law(target), vocab) && Conditionals(Law(draft), vocab)
    ensures (r, next) == Sample(StepTree(Law(target), Law(draft), vocab, current, k), u, pos)
    ensures Sound(k, r)
  {
    ghost var p, q := Law(target), Law(draft);
    StepOutcomeSound(p, q, vocab, current, k, u, pos);
    var tokens, draftProbs, mid := Speculate(draft, vocab, current, k, u, pos);
    var targetProbs := Verify(target, current, tokens);
    SampleBind(DraftTree(q, current, k, []), Judge(p, q, vocab, current), u, pos);
    r, next := Call(tokens, draftProbs, targetProbs, u, mid);
  }

  /** One pass of the loop, on the generator's draws: the verdict r decides how the program goes on. */
  lemma LoopStep(cfg: Config, p: seq<nat> -> seq<real>, q: seq<nat> -> seq<real>, vocab: nat, max: nat, cur: seq<nat>,
                 gen: seq<nat>, m: Metrics, r: AcceptResult, u: Stream, pos: nat, next: nat)
    requires Conditionals(p, vocab) && Conditionals(q, vocab) && Uniform(u) && |gen| < max
    requires (r, next) == Sample(StepTree(p, q, vocab, cur, cfg.k), u, pos)
    ensures var tally, all := Tally(m, cfg.k, r), gen + Cut(cfg.eos, Block(r));
      && |gen| < |all|
      && Sample(LoopTree(cfg, p, q, vocab, max, cur, gen, m), u, pos) ==
        (if HasEos(cfg.eos, Cut(cfg.eos, Block(r))) then (Output(all, tally.(generated := |all|)), next)
         else if |all| >= max then (Output(all[..max], tally.(generated := max)), next)
         else if FallsBack(cfg, tally) then (Output(all, tally.(generated := |all|)), next)
         else Sample(LoopTree(cfg, p, q, vocab, max, cur + Cut(cfg.eos, Block(r)), all, tally), u, next))
  {
    SampleBind(StepTree(p, q, vocab, cur, cfg.k), After(cfg, p, q, vocab, max, cur, gen, m), u, pos);
    assert Sample(LoopTree(cfg, p, q, vocab, max, cur, gen, m), u, pos)
        == Sample(AfterStep(cfg, p, q, vocab, max, cur, gen, m, r), u, next);
  }

  lemma RunAccounts(cfg: Config, p: seq<nat> -> seq<real>, q: seq<nat> -> seq<real>, vocab: nat, max: nat,
                    input: seq<nat>, u: Stream, pos: nat)
    requires Conditionals(p, vocab) && Conditionals(q, vocab) && Uniform(u)
    ensures Accounted(cfg, max, Sample(LoopTree(cfg, p, q, vocab, max, input, [], Metrics(0, 0, 0, 0)), u, pos).0)
  {
    LoopAccounts(cfg, p, q, vocab, max, input, [], Metrics(0, 0, 0, 0));
    SampleInLeaves(LoopTree(cfg, p, q, vocab, max, input, [], Metrics(0, 0, 0, 0)), Balanced(cfg, max), u, pos);
  }

  lemma AppendAssociates(a: seq<nat>, b: seq<nat>, c: seq<nat>)
    ensures (a + b) + c == a + (b + c)
  {
  }

  /**
   SpeculativeOrchestrator.generate. The result is the loop program's outcome on the same draws, and on every run:
   the metrics add up, EOS can only be last, and only an EOS exit can overshoot max, by at most k.
   */
  method Generate<S, T>(cfg: Config, target: Model<S>, draft: Model<T>, ghost vocab: nat, input: seq<nat>, max: nat,
                        u: Stream, pos: nat)
    returns (out: Output, next: nat)
    requires cfg.k >= 1 && |input| > 0 && Uniform(u)
    requires Conditionals(Law(target), vocab) && Conditionals(Law(draft), vocab)
    ensures (out, next) ==
      Sample(LoopTree(cfg, Law(target), Law(draft), vocab, max, input, [], Metrics(0, 0, 0, 0)), u, pos)
    ensures Accounted(cfg, max, out)
  {
    var p, q := Law(target), Law(draft);
    var m, generated, current := Metrics(0, 0, 0, 0), [], input;
    next := pos;
    ghost var whole := Sample(LoopTree(cfg, p, q, vocab, max, input, [], m), u, pos);
    RunAccounts(cfg, p, q, vocab, max, input, u, pos);
    while |generated| < max
      invariant current == input + generated && |generated| <= max && LoopState(cfg, generated, m)
      invariant whole == Sample(LoopTree(cfg, p, q, vocab, max, current, generated, m), u, next)
      decreases max - |generated|
    {
      ghost var head := next;
      var r;
      r, next := DraftVerifyAccept(cfg.k, target, draft, vocab, current, u, next);
      LoopStep(cfg, p, q, vocab, max, current, generated, m, r, u, head, next);
      BodyKeepsLoopState(cfg, max, generated, m, r);
      m := Tally(m, cfg.k, r);
      var newTokens, stopped := Collect(cfg.eos, r);
      AppendAssociates(input, generated, newTokens);
      generated := generated + newTokens;
      if stopped {
        return Output(generated, m.(generated := |generated|)), next;
      }
      if |generated| >= max {
        generated := generated[..max];
        break;
      }
      current := current + newTokens;
      if FallsBack(cfg, m) { break; }
    }
    out := Output(generated, m.(generated := |generated|));
  }
}
