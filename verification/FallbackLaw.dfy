/** What the low-acceptance fallback does to the law of the output: exactly which settings leave it the target's own. */
module FallbackLaw {
  import opened Options
  import opened Vectors
  import opened ChoiceTree
  import opened LanguageModel
  import opened RejectionSampler
  import opened Orchestrator
  import opened Exactness
  import opened PointModels
  import opened Measure

  function Always(x: nat): nat -> nat {
    (len: nat) => x
  }

  /** A target that always says o and a draft that always says e: every step rejects its first draft and emits one o. */
  lemma RejectingStep(cfg: Config, o: nat, e: nat, vocab: nat, p: seq<nat> -> seq<real>, q: seq<nat> -> seq<real>,
                      ctx: seq<nat>, u: Stream, pos: nat)
    requires o != e && o < vocab && e < vocab && Uniform(u) && Conditionals(p, vocab) && Conditionals(q, vocab)
    requires p == ByLength(Always(o), vocab) && q == ByLength(Always(e), vocab)
    ensures var r := Sample(StepTree(p, q, vocab, ctx, cfg.k), u, pos).0; r.numAccepted == 0 && Block(r) == [o]
  {
    StepPoint(Always(o), Always(e), vocab, p, q, ctx, cfg.k, u, pos);
    assert Parting(Always(o), Always(e), |ctx|, cfg.k, 0) == 0;
    assert Ahead(Always(o), |ctx|, 1) == [o];
  }

  /** Settings under which a run of rejections falls back at its third step, short of max. */
  predicate FallsBackAtThree(cfg: Config, max: nat) {
    cfg.fallback && cfg.minRate > 0.0 && max >= 4
  }

  function Rejected(cfg: Config, steps: nat): Metrics {
    Metrics(0, cfg.k * steps, steps, 0)
  }

  lemma RejectedRate(cfg: Config, steps: nat)
    ensures Rejected(cfg, steps).AcceptanceRate() == 0.0
  {
    if cfg.k * steps != 0 { assert 0.0 / (cfg.k * steps) as real == 0.0; }
  }

  lemma {:induction false} RejectingRun(cfg: Config, o: nat, e: nat, vocab: nat, max: nat, input: seq<nat>,
                                        p: seq<nat> -> seq<real>, q: seq<nat> -> seq<real>, steps: nat, u: Stream,
                                        pos: nat)
    requires FallsBackAtThree(cfg, max) && o != e && o < vocab && e < vocab && cfg.eos != Some(o) && steps < 3
    requires Uniform(u)
    requires p == ByLength(Always(o), vocab) && q == ByLength(Always(e), vocab)
    requires Conditionals(p, vocab) && Conditionals(q, vocab)
    ensures var gen := Ahead(Always(o), 0, steps);
      |Sample(LoopTree(cfg, p, q, vocab, max, input + gen, gen, Rejected(cfg, steps)), u, pos).0.tokens| == 3
    decreases 3 - steps
  {
    var gen, m, all := Ahead(Always(o), 0, steps), Rejected(cfg, steps), Ahead(Always(o), 0, steps + 1);
    var cur := input + gen;
    RejectingStep(cfg, o, e, vocab, p, q, cur, u, pos);
    var (r, next) := Sample(StepTree(p, q, vocab, cur, cfg.k), u, pos);
    assert gen + [o] == all && cur + [o] == input + all;
    assert Tally(m, cfg.k, r) == Rejected(cfg, steps + 1);
    RejectedRate(cfg, steps + 1);
    OneToken(cfg, p, q, vocab, max, cur, gen, m, r, o, u, pos, next);
    if steps < 2 { RejectingRun(cfg, o, e, vocab, max, input, p, q, steps + 1, u, next); }
  }

  /** A pass of the loop that emits one token, no EOS and short of max. */
  lemma OneToken(cfg: Config, p: seq<nat> -> seq<real>, q: seq<nat> -> seq<real>, vocab: nat, max: nat, cur: seq<nat>,
                 gen: seq<nat>, m: Metrics, r: AcceptResult, o: nat, u: Stream, pos: nat, next: nat)
    requires Conditionals(p, vocab) && Conditionals(q, vocab) && Uniform(u) && |gen| + 1 < max
    requires (r, next) == Sample(StepTree(p, q, vocab, cur, cfg.k), u, pos) && Block(r) == [o] && cfg.eos != Some(o)
    ensures FallsBack(cfg, Tally(m, cfg.k, r)) ==>
      Sample(LoopTree(cfg, p, q, vocab, max, cur, gen, m), u, pos).0.tokens == gen + [o]
    ensures !FallsBack(cfg, Tally(m, cfg.k, r)) ==>
      Sample(LoopTree(cfg, p, q, vocab, max, cur, gen, m), u, pos) ==
      Sample(LoopTree(cfg, p, q, vocab, max, cur + [o], gen + [o], Tally(m, cfg.k, r)), u, next)
  {
    assert !HasEos(cfg.eos, [o]);
    LoopStep(cfg, p, q, vocab, max, cur, gen, m, r, u, pos, next);
  }

  lemma {:induction false} ChainPoint(o: nat, vocab: nat, c: seq<nat>, y: seq<nat>)
    requires o < vocab && forall i | 0 <= i < |y| :: y[i] == o
    ensures Chain(ByLength(Always(o), vocab), c, y) == 1.0
    decreases |y|
  {
    if y != [] {
      ChainPoint(o, vocab, c + [y[0]], y[1..]);
      assert ByLength(Always(o), vocab)(c) == Point(o, vocab);
    }
  }

  /**
   Where it can fall back, some model pair and string show it: the string is sure under the target, and never output.
   */
  lemma FallbackFalsifies(cfg: Config, max: nat, input: seq<nat>)
    returns (p: seq<nat> -> seq<real>, q: seq<nat> -> seq<real>, vocab: nat, y: seq<nat>)
    requires FallsBackAtThree(cfg, max)
    ensures Conditionals(p, vocab) && Conditionals(q, vocab) && |y| <= max && EosOnlyLast(cfg.eos, y)
    ensures Chain(p, input, y) == 1.0
    ensures Expect(LoopTree(cfg, p, q, vocab, max, input, [], Metrics(0, 0, 0, 0)), Begins(y)) == 0.0
  {
    var o := if cfg.eos == Some(0) then 1 else 0;
    var e := 1 - o;
    vocab, y := 2, [o, o, o, o];
    p, q := ByLength(Always(o), vocab), ByLength(Always(e), vocab);
    ByLengthIsModel(Always(o), vocab);
    ByLengthIsModel(Always(e), vocab);
    ChainPoint(o, vocab, input, y);
    var t := LoopTree(cfg, p, q, vocab, max, input, [], Metrics(0, 0, 0, 0));
    forall u: Stream, pos: nat | Uniform(u) ensures Begins(y)(Sample(t, u, pos).0) == 0.0 {
      assert Ahead(Always(o), 0, 0) == [] && input + [] == input && Rejected(cfg, 0) == Metrics(0, 0, 0, 0);
      RejectingRun(cfg, o, e, vocab, max, input, p, q, 0, u, pos);
    }
    SureValue(t, Begins(y), 0.0);
  }

  /**
   The law of the raw output, exactly: it is the target's own for all models, prompts and strings if and only if
   fallback is off, or asks for no positive rate, or fewer than four tokens are wanted. Whatever the settings, the
   output continued from the target has the target's law: Exactness.ContinuedExact.
   */
  lemma RawLawExactly(cfg: Config, max: nat)
    ensures NeverFallsBack(cfg, max) <==>
      forall p: seq<nat> -> seq<real>, q: seq<nat> -> seq<real>, vocab: nat, input: seq<nat>, y: seq<nat> |
        Conditionals(p, vocab) && Conditionals(q, vocab) && |y| <= max && EosOnlyLast(cfg.eos, y) ::
        Expect(LoopTree(cfg, p, q, vocab, max, input, [], Metrics(0, 0, 0, 0)), Begins(y)) == Chain(p, input, y)
  {
    if NeverFallsBack(cfg, max) {
      forall p: seq<nat> -> seq<real>, q: seq<nat> -> seq<real>, vocab: nat, input: seq<nat>, y: seq<nat> |
        Conditionals(p, vocab) && Conditionals(q, vocab) && |y| <= max && EosOnlyLast(cfg.eos, y)
        ensures Expect(LoopTree(cfg, p, q, vocab, max, input, [], Metrics(0, 0, 0, 0)), Begins(y)) == Chain(p, input, y)
      {
        Exact(cfg, p, q, vocab, max, input, y);
      }
    } else {
      var p, q, vocab, y := FallbackFalsifies(cfg, max, [0]);
    }
  }

  // ---------------------------------------------------------------- one model pair, one prompt

  /** The event that the output stops short of max without EOS: the fallback exit. */
  ghost function StopsShort(cfg: Config, max: nat): Output -> real {
    (out: Output) => if |out.tokens| < max && !HasEos(cfg.eos, out.tokens) then 1.0 else 0.0
  }

  lemma EntryIsProbability(p: seq<nat> -> seq<real>, vocab: nat, c: seq<nat>, z: nat)
    requires Conditionals(p, vocab)
    ensures 0.0 <= At(p(c), z) <= 1.0
  {
    if z < vocab { SumBoundsEntry(p(c), z); }
  }

  lemma {:induction false} ChainIsProbability(p: seq<nat> -> seq<real>, vocab: nat, c: seq<nat>, y: seq<nat>)
    requires Conditionals(p, vocab)
    ensures 0.0 <= Chain(p, c, y) <= 1.0
    decreases |y|
  {
    if y != [] {
      EntryIsProbability(p, vocab, c, y[0]);
      ChainIsProbability(p, vocab, c + [y[0]], y[1..]);
      ProductOfProbabilities(At(p(c), y[0]), Chain(p, c + [y[0]], y[1..]));
    }
  }

  lemma ProductOfProbabilities(a: real, b: real)
    requires 0.0 <= a <= 1.0 && 0.0 <= b <= 1.0
    ensures 0.0 <= Product(a, b) <= 1.0
  {
    if a < 1.0 && b > 0.0 {
      assert a * b < 1.0 * b;
      if a > 0.0 { assert a * b > 0.0; }
    }
  }

  /** On every outcome, continuing adds 0 to 1 to y's probability, and 0 unless the output stops short. */
  lemma ContinuingAdds(cfg: Config, p: seq<nat> -> seq<real>, vocab: nat, max: nat, input: seq<nat>, y: seq<nat>,
                       out: Output)
    requires Conditionals(p, vocab) && |y| <= max && EosOnlyLast(cfg.eos, y)
    ensures Begins(y)(out) <= Continued(p, input, y)(out) <= Begins(y)(out) + StopsShort(cfg, max)(out)
  {
    var tokens := out.tokens;
    assert Continued(p, input, y)(out) == Hits(p, input, y)(tokens);
    if tokens <= y && tokens != y {
      ChainIsProbability(p, vocab, input + tokens, y[|tokens|..]);
      assert forall i | 0 <= i < |tokens| :: tokens[i] == y[i];
      assert StopsShort(cfg, max)(out) == 1.0;
    }
  }

  /**
   The raw law of one model pair and prompt falls short of the target's, on every string, by no more than the
   probability of a fallback exit, and never exceeds it.
   */
  lemma RawLawDeficit(cfg: Config, p: seq<nat> -> seq<real>, q: seq<nat> -> seq<real>, vocab: nat, max: nat,
                      input: seq<nat>, y: seq<nat>)
    requires Conditionals(p, vocab) && Conditionals(q, vocab) && |y| <= max && EosOnlyLast(cfg.eos, y)
    ensures var t := LoopTree(cfg, p, q, vocab, max, input, [], Metrics(0, 0, 0, 0));
      Expect(t, Begins(y)) <= Chain(p, input, y) <= Expect(t, Begins(y)) + Expect(t, StopsShort(cfg, max))
  {
    var t := LoopTree(cfg, p, q, vocab, max, input, [], Metrics(0, 0, 0, 0));
    var b, c, s := Begins(y), Continued(p, input, y), StopsShort(cfg, max);
    ContinuedExact(cfg, p, q, vocab, max, input, y);
    forall out ensures b(out) <= c(out) + Product(0.0, s(out)) && c(out) <= b(out) + Product(1.0, s(out)) {
      ContinuingAdds(cfg, p, vocab, max, input, y, out);
    }
    ExpectBounded(t, b, c, s, 0.0);
    ExpectBounded(t, c, b, s, 1.0);
  }

  lemma LikelyToken(row: seq<real>) returns (z: nat)
    requires IsDist(row)
    ensures z < |row| && row[z] > 0.0
  {
    z := Pick(row, 0.0);
  }

  /** The next token a target would add to a short output: at that outcome continuing adds that token's probability. */
  lemma ShortLoses(cfg: Config, p: seq<nat> -> seq<real>, vocab: nat, max: nat, input: seq<nat>, short: Output, z: nat,
                   out: Output)
    requires Conditionals(p, vocab) && |short.tokens| < max && !HasEos(cfg.eos, short.tokens)
    ensures var y := short.tokens + [z];
      Begins(y)(out) <= Continued(p, input, y)(out) + Product(-At(p(input + short.tokens), z), Is(short)(out))
  {
    var y := short.tokens + [z];
    if out == short {
      assert short.tokens <= y && y[|short.tokens|..] == [z];
      assert Chain(p, input + short.tokens, [z]) == Product(At(p(input + short.tokens), z), 1.0);
      assert Continued(p, input, y)(out) == Hits(p, input, y)(short.tokens);
    } else {
      NoEosBefore(cfg.eos, short.tokens, z);
      ContinuingAdds(cfg, p, vocab, max, input, y, out);
    }
  }

  lemma NoEosBefore(eos: Option<nat>, s: seq<nat>, z: nat)
    requires !HasEos(eos, s)
    ensures EosOnlyLast(eos, s + [z])
  {
    forall i | 0 <= i < |s| ensures !IsEos(eos, (s + [z])[i]) { assert (s + [z])[i] == s[i]; }
  }

  /** Where a fallback exit has positive probability, some string is output less often than the target gives it. */
  lemma ShortFalsifies(cfg: Config, p: seq<nat> -> seq<real>, q: seq<nat> -> seq<real>, vocab: nat, max: nat,
                       input: seq<nat>)
    returns (y: seq<nat>)
    requires Conditionals(p, vocab) && Conditionals(q, vocab)
    requires Expect(LoopTree(cfg, p, q, vocab, max, input, [], Metrics(0, 0, 0, 0)), StopsShort(cfg, max)) > 0.0
    ensures |y| <= max && EosOnlyLast(cfg.eos, y)
    ensures Expect(LoopTree(cfg, p, q, vocab, max, input, [], Metrics(0, 0, 0, 0)), Begins(y)) < Chain(p, input, y)
  {
    var t := LoopTree(cfg, p, q, vocab, max, input, [], Metrics(0, 0, 0, 0));
    var short := PositiveOutcome(t, StopsShort(cfg, max));
    var z := LikelyToken(p(input + short.tokens));
    y := short.tokens + [z];
    NoEosBefore(cfg.eos, short.tokens, z);
    var mass := At(p(input + short.tokens), z);
    forall out ensures Begins(y)(out) <= Continued(p, input, y)(out) + Product(-mass, Is(short)(out)) {
      ShortLoses(cfg, p, vocab, max, input, short, z, out);
    }
    ExpectBounded(t, Begins(y), Continued(p, input, y), Is(short), -mass);
    ContinuedExact(cfg, p, q, vocab, max, input, y);
    assert mass * Expect(t, Is(short)) > 0.0;
  }

  /**
   The law of the raw output of one model pair on one prompt, exactly: it is the target's own, on every string, if and
   only if the run has probability 0 of a fallback exit.
   */
  lemma RawLawOfOnePair(cfg: Config, p: seq<nat> -> seq<real>, q: seq<nat> -> seq<real>, vocab: nat, max: nat,
                        input: seq<nat>)
    requires Conditionals(p, vocab) && Conditionals(q, vocab)
    ensures var t := LoopTree(cfg, p, q, vocab, max, input, [], Metrics(0, 0, 0, 0));
      Expect(t, StopsShort(cfg, max)) == 0.0 <==>
        forall y: seq<nat> | |y| <= max && EosOnlyLast(cfg.eos, y) :: Expect(t, Begins(y)) == Chain(p, input, y)
  {
    var t := LoopTree(cfg, p, q, vocab, max, input, [], Metrics(0, 0, 0, 0));
    if Expect(t, StopsShort(cfg, max)) == 0.0 {
      forall y: seq<nat> | |y| <= max && EosOnlyLast(cfg.eos, y) ensures Expect(t, Begins(y)) == Chain(p, input, y) {
        RawLawDeficit(cfg, p, q, vocab, max, input, y);
      }
    } else {
      ShortHasMass(t, cfg, max);
      var y := ShortFalsifies(cfg, p, q, vocab, max, input);
    }
  }

  lemma ShortHasMass(t: Tree<Output>, cfg: Config, max: nat)
    requires WellFormed(t)
    ensures Expect(t, StopsShort(cfg, max)) >= 0.0
  {
    var zero, s := (out: Output) => 0.0, StopsShort(cfg, max);
    SureValue(t, zero, 0.0);
    ExpectBounded(t, zero, s, zero, 0.0);
  }
}
