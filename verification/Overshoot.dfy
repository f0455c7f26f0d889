/**
 Outputs longer than max_new_tokens: the EOS exits skip the truncation. Exactly which settings let that happen, for some
 pair of models, and by how much.
 */
module Overshoot {
  import opened Options
  import opened ChoiceTree
  import opened LanguageModel
  import opened RejectionSampler
  import opened Orchestrator
  import opened PointModels

  const START := Metrics(0, 0, 0, 0)

  // ---------------------------------------------------------------- the runs that overshoot

  /** A target that says o in contexts shorter than until, and e from there on. */
  function Saying(o: nat, e: nat, until: nat): nat -> nat {
    (len: nat) => if len < until then o else e
  }

  /** A draft that says the same, except at one length. */
  function Straying(o: nat, e: nat, until: nat, at: nat): nat -> nat {
    (len: nat) => if len == at || len >= until then e else o
  }

  /** Drafted tokens accepted by a step that starts with g tokens generated, when the draft strays at x. */
  function Accepts(k: nat, x: nat, g: nat): nat {
    if g <= x < g + k then x - g else k
  }

  function Counted(cfg: Config, m: Metrics, a: nat): Metrics {
    m.(accepted := m.accepted + a, drafted := m.drafted + cfg.k, steps := m.steps + 1)
  }

  /** Steps from g lead exactly to last, and the loop does not fall back on the way. */
  predicate Schedule(cfg: Config, x: nat, last: nat, g: nat, m: Metrics)
    decreases last - g
  {
    && g <= last
    && (g == last || var a := Accepts(cfg.k, x, g);
          && g + a + 1 <= last && !FallsBack(cfg, Counted(cfg, m, a))
          && Schedule(cfg, x, last, g + a + 1, Counted(cfg, m, a)))
  }

  /**
   The settings of a run: o is not EOS, the draft strays before the last step or not at all, and EOS ends that step.
   */
  predicate Setting(cfg: Config, o: nat, e: nat, x: nat, last: nat) {
    cfg.eos == Some(e) && o != e && !(last <= x < last + cfg.k)
  }

  lemma ScheduledParting(cfg: Config, o: nat, e: nat, n: nat, x: nat, last: nat, g: nat)
    requires Setting(cfg, o, e, x, last) && g <= last
    ensures var until := n + last + cfg.k;
      Parting(Saying(o, e, until), Straying(o, e, until, n + x), n + g, cfg.k, 0) == Accepts(cfg.k, x, g)
  {
    var until := n + last + cfg.k;
    var t, d := Saying(o, e, until), Straying(o, e, until, n + x);
    var a := Parting(t, d, n + g, cfg.k, 0);
    if g <= x < g + cfg.k {
      assert t(n + x) != d(n + x);
    }
  }

  lemma OnlyLastIsEos(cfg: Config, block: seq<nat>, e: nat)
    requires cfg.eos == Some(e) && block != [] && block[|block| - 1] == e
    requires forall i | 0 <= i < |block| - 1 :: block[i] != e
    ensures HasEos(cfg.eos, block) && Cut(cfg.eos, block) == block
  {
    assert IsEos(cfg.eos, block[|block| - 1]);
    var c := Cut(cfg.eos, block);
    assert IsEos(cfg.eos, c[|c| - 1]) && c[|c| - 1] == block[|c| - 1];
  }

  /** The verdict on every step up to the last: what the draft says is accepted as far as it does not stray. */
  ghost predicate Foreseen(cfg: Config, p: seq<nat> -> seq<real>, q: seq<nat> -> seq<real>, vocab: nat, n: nat, o: nat,
                           e: nat, x: nat, last: nat)
    requires Conditionals(p, vocab) && Conditionals(q, vocab)
  {
    forall cur: seq<nat>, u: Stream, pos: nat | Uniform(u) && n <= |cur| <= n + last ::
      Judged(Saying(o, e, n + last + cfg.k), |cur|, Accepts(cfg.k, x, |cur| - n),
             Sample(StepTree(p, q, vocab, cur, cfg.k), u, pos).0)
  }

  function Target(o: nat, e: nat, vocab: nat, until: nat): seq<nat> -> seq<real> {
    ByLength(Saying(o, e, until), vocab)
  }

  function Draft(o: nat, e: nat, vocab: nat, until: nat, at: nat): seq<nat> -> seq<real> {
    ByLength(Straying(o, e, until, at), vocab)
  }

  lemma PairIsModels(o: nat, e: nat, vocab: nat, until: nat, at: nat)
    requires o < vocab && e < vocab
    ensures Conditionals(Target(o, e, vocab, until), vocab) && Conditionals(Draft(o, e, vocab, until, at), vocab)
  {
    ByLengthIsModel(Saying(o, e, until), vocab);
    ByLengthIsModel(Straying(o, e, until, at), vocab);
  }

  lemma PairVerdict(cfg: Config, o: nat, e: nat, vocab: nat, x: nat, last: nat, n: nat, p: seq<nat> -> seq<real>,
                    q: seq<nat> -> seq<real>, cur: seq<nat>, u: Stream, pos: nat)
    requires Setting(cfg, o, e, x, last) && o < vocab && e < vocab && Uniform(u) && n <= |cur| <= n + last
    requires p == Target(o, e, vocab, n + last + cfg.k) && q == Draft(o, e, vocab, n + last + cfg.k, n + x)
    requires Conditionals(p, vocab) && Conditionals(q, vocab)
    ensures Judged(Saying(o, e, n + last + cfg.k), |cur|, Accepts(cfg.k, x, |cur| - n),
                   Sample(StepTree(p, q, vocab, cur, cfg.k), u, pos).0)
  {
    var until := n + last + cfg.k;
    StepPoint(Saying(o, e, until), Straying(o, e, until, n + x), vocab, p, q, cur, cfg.k, u, pos);
    ScheduledParting(cfg, o, e, n, x, last, |cur| - n);
  }

  lemma PairIsForeseen(cfg: Config, o: nat, e: nat, vocab: nat, x: nat, last: nat, n: nat, p: seq<nat> -> seq<real>,
                       q: seq<nat> -> seq<real>)
    requires Setting(cfg, o, e, x, last) && o < vocab && e < vocab
    requires p == Target(o, e, vocab, n + last + cfg.k) && q == Draft(o, e, vocab, n + last + cfg.k, n + x)
    requires Conditionals(p, vocab) && Conditionals(q, vocab)
    ensures Foreseen(cfg, p, q, vocab, n, o, e, x, last)
  {
    forall cur: seq<nat>, u: Stream, pos: nat | Uniform(u) && n <= |cur| <= n + last
      ensures Judged(Saying(o, e, n + last + cfg.k), |cur|, Accepts(cfg.k, x, |cur| - n),
                     Sample(StepTree(p, q, vocab, cur, cfg.k), u, pos).0)
    {
      PairVerdict(cfg, o, e, vocab, x, last, n, p, q, cur, u, pos);
    }
  }

  lemma MiddleBlock(cfg: Config, o: nat, e: nat, n: nat, last: nat, g: nat, a: nat)
    requires cfg.eos == Some(e) && o != e && g + a + 1 <= last
    ensures var block := Ahead(Saying(o, e, n + last + cfg.k), n + g, a + 1);
      !HasEos(cfg.eos, block) && Cut(cfg.eos, block) == block
  {
    var block := Ahead(Saying(o, e, n + last + cfg.k), n + g, a + 1);
    assert forall i | 0 <= i < |block| :: block[i] == o;
  }

  lemma LastBlock(cfg: Config, o: nat, e: nat, n: nat, last: nat)
    requires cfg.eos == Some(e) && o != e
    ensures var block := Ahead(Saying(o, e, n + last + cfg.k), n + last, cfg.k + 1);
      HasEos(cfg.eos, block) && Cut(cfg.eos, block) == block
  {
    OnlyLastIsEos(cfg, Ahead(Saying(o, e, n + last + cfg.k), n + last, cfg.k + 1), e);
  }

  lemma LoopEnds(cfg: Config, p: seq<nat> -> seq<real>, q: seq<nat> -> seq<real>, vocab: nat, max: nat, cur: seq<nat>,
                 gen: seq<nat>, m: Metrics, r: AcceptResult, block: seq<nat>, u: Stream, pos: nat, next: nat)
    requires Conditionals(p, vocab) && Conditionals(q, vocab) && Uniform(u) && |gen| < max
    requires (r, next) == Sample(StepTree(p, q, vocab, cur, cfg.k), u, pos) && Block(r) == block
    requires HasEos(cfg.eos, block) && Cut(cfg.eos, block) == block
    ensures Sample(LoopTree(cfg, p, q, vocab, max, cur, gen, m), u, pos).0.tokens == gen + block
  {
    LoopStep(cfg, p, q, vocab, max, cur, gen, m, r, u, pos, next);
  }

  lemma LoopGoesOn(cfg: Config, p: seq<nat> -> seq<real>, q: seq<nat> -> seq<real>, vocab: nat, max: nat, cur: seq<nat>,
                   gen: seq<nat>, m: Metrics, r: AcceptResult, u: Stream, pos: nat, next: nat)
    requires Conditionals(p, vocab) && Conditionals(q, vocab) && Uniform(u) && |gen + Block(r)| < max
    requires (r, next) == Sample(StepTree(p, q, vocab, cur, cfg.k), u, pos)
    requires !HasEos(cfg.eos, Block(r)) && !FallsBack(cfg, Tally(m, cfg.k, r))
    ensures Sample(LoopTree(cfg, p, q, vocab, max, cur, gen, m), u, pos)
         == Sample(LoopTree(cfg, p, q, vocab, max, cur + Block(r), gen + Block(r), Tally(m, cfg.k, r)), u, next)
  {
    LoopStep(cfg, p, q, vocab, max, cur, gen, m, r, u, pos, next);
  }

  lemma LastRun(cfg: Config, o: nat, e: nat, vocab: nat, x: nat, last: nat, max: nat, input: seq<nat>,
                p: seq<nat> -> seq<real>, q: seq<nat> -> seq<real>, gen: seq<nat>, m: Metrics, u: Stream, pos: nat)
    requires Setting(cfg, o, e, x, last) && Uniform(u) && last < max <= last + cfg.k
    requires Conditionals(p, vocab) && Conditionals(q, vocab) && Foreseen(cfg, p, q, vocab, |input|, o, e, x, last)
    requires |gen| == last
    ensures |Sample(LoopTree(cfg, p, q, vocab, max, input + gen, gen, m), u, pos).0.tokens| == last + cfg.k + 1
  {
    var cur, n := input + gen, |input|;
    var (r, next) := Sample(StepTree(p, q, vocab, cur, cfg.k), u, pos);
    assert |cur| == n + last && Accepts(cfg.k, x, |cur| - n) == cfg.k;
    var block := Ahead(Saying(o, e, n + last + cfg.k), n + last, cfg.k + 1);
    assert Block(r) == block;
    LastBlock(cfg, o, e, n, last);
    LoopEnds(cfg, p, q, vocab, max, cur, gen, m, r, block, u, pos, next);
  }

  lemma MiddleRun(cfg: Config, o: nat, e: nat, vocab: nat, x: nat, last: nat, max: nat, input: seq<nat>,
                  p: seq<nat> -> seq<real>, q: seq<nat> -> seq<real>, gen: seq<nat>, m: Metrics, u: Stream, pos: nat)
    returns (block: seq<nat>, next: nat)
    requires Setting(cfg, o, e, x, last) && Uniform(u) && last < max <= last + cfg.k
    requires Conditionals(p, vocab) && Conditionals(q, vocab) && Foreseen(cfg, p, q, vocab, |input|, o, e, x, last)
    requires |gen| < last && Schedule(cfg, x, last, |gen|, m)
    ensures |block| == Accepts(cfg.k, x, |gen|) + 1
    ensures Sample(LoopTree(cfg, p, q, vocab, max, input + gen, gen, m), u, pos)
         == Sample(LoopTree(cfg, p, q, vocab, max, input + (gen + block), gen + block,
                            Counted(cfg, m, Accepts(cfg.k, x, |gen|))), u, next)
  {
    var g, a := |gen|, Accepts(cfg.k, x, |gen|);
    var (r, after) := Sample(StepTree(p, q, vocab, input + gen, cfg.k), u, pos);
    block, next := Block(r), after;
    MiddleBlock(cfg, o, e, |input|, last, g, a);
    assert Tally(m, cfg.k, r) == Counted(cfg, m, a);
    AppendAssociates(input, gen, block);
    LoopGoesOn(cfg, p, q, vocab, max, input + gen, gen, m, r, u, pos, next);
  }

  /** Running such a pair from a scheduled loop head: the same length on every stream of draws. */
  lemma {:induction false} ScheduledRun(cfg: Config, o: nat, e: nat, vocab: nat, x: nat, last: nat, max: nat,
                                        input: seq<nat>, p: seq<nat> -> seq<real>, q: seq<nat> -> seq<real>,
                                        gen: seq<nat>, m: Metrics, u: Stream, pos: nat)
    requires Setting(cfg, o, e, x, last) && Uniform(u) && last < max <= last + cfg.k && Schedule(cfg, x, last, |gen|, m)
    requires Conditionals(p, vocab) && Conditionals(q, vocab) && Foreseen(cfg, p, q, vocab, |input|, o, e, x, last)
    ensures |Sample(LoopTree(cfg, p, q, vocab, max, input + gen, gen, m), u, pos).0.tokens| == last + cfg.k + 1
    decreases last - |gen|
  {
    if |gen| == last {
      LastRun(cfg, o, e, vocab, x, last, max, input, p, q, gen, m, u, pos);
    } else {
      var block, next := MiddleRun(cfg, o, e, vocab, x, last, max, input, p, q, gen, m, u, pos);
      var m' := Counted(cfg, m, Accepts(cfg.k, x, |gen|));
      ScheduledRun(cfg, o, e, vocab, x, last, max, input, p, q, gen + block, m', u, next);
    }
  }

  // ---------------------------------------------------------------- the schedules

  /** The acceptance rate of `accepted` tokens out of k a step, or more, is no reason to fall back. */
  predicate RateHolds(cfg: Config, accepted: int, steps: nat) {
    !cfg.fallback || steps < 3 || cfg.minRate * (cfg.k * steps) as real <= accepted as real
  }

  lemma QuotientBound(a: real, d: real, r: real)
    requires d > 0.0
    ensures a / d >= r <==> r * d <= a
  {
    var x := a / d;
    assert x * d == a;
    if x > r { assert (x - r) * d > 0.0; }
    if x < r { assert (r - x) * d > 0.0; }
  }

  lemma RateMeansNoFallback(cfg: Config, m: Metrics)
    requires cfg.k >= 1 && m.steps >= 1 && m.drafted == cfg.k * m.steps && RateHolds(cfg, m.accepted, m.steps)
    ensures !FallsBack(cfg, m)
  {
    if cfg.fallback && m.steps >= 3 {
      DraftedGrows(cfg.k, m.steps, m.steps);
      QuotientBound(m.accepted as real, m.drafted as real, cfg.minRate);
    }
  }

  function AfterFull(cfg: Config, m: Metrics, steps: nat): Metrics {
    m.(accepted := m.accepted + cfg.k * steps, drafted := m.drafted + cfg.k * steps, steps := m.steps + steps)
  }

  lemma AfterOneMore(cfg: Config, m: Metrics, left: nat)
    requires left > 0
    ensures AfterFull(cfg, Counted(cfg, m, cfg.k), left - 1) == AfterFull(cfg, m, left) && AfterFull(cfg, m, 0) == m
  {
    LeftSplits(cfg, left);
  }

  /** The rates of the steps after the first are among the rates of all of them. */
  lemma LaterRates(cfg: Config, m: Metrics, left: nat, j: nat)
    requires 0 < j < left && RateHolds(cfg, m.accepted + cfg.k * (j + 1), m.steps + (j + 1))
    ensures RateHolds(cfg, Counted(cfg, m, cfg.k).accepted + cfg.k * j, Counted(cfg, m, cfg.k).steps + j)
  {
    LeftSplits(cfg, j + 1);
  }

  /** The first of these steps: it accepts everything, and its rate is no reason to fall back. */
  lemma FirstFullStep(cfg: Config, x: nat, last: nat, g: nat, m: Metrics, left: nat)
    requires cfg.k >= 1 && left > 0 && (x < g || g + left * (cfg.k + 1) <= x) && m.drafted == cfg.k * m.steps
    requires g + left * (cfg.k + 1) <= last && RateHolds(cfg, m.accepted + cfg.k * 1, m.steps + 1)
    requires Schedule(cfg, x, last, g + cfg.k + 1, Counted(cfg, m, cfg.k))
    ensures Schedule(cfg, x, last, g, m)
  {
    LeftSplits(cfg, left);
    LeftSplits(cfg, m.steps + 1);
    RateMeansNoFallback(cfg, Counted(cfg, m, cfg.k));
    assert Accepts(cfg.k, x, g) == cfg.k;
  }

  /** Steps that accept everything, at rates that hold, in front of a schedule. */
  lemma {:induction false} FullSteps(cfg: Config, x: nat, last: nat, g: nat, m: Metrics, left: nat)
    requires cfg.k >= 1 && (x < g || g + left * (cfg.k + 1) <= x) && m.drafted == cfg.k * m.steps
    requires Schedule(cfg, x, last, g + left * (cfg.k + 1), AfterFull(cfg, m, left))
    requires forall j | 0 < j <= left :: RateHolds(cfg, m.accepted + cfg.k * j, m.steps + j)
    ensures Schedule(cfg, x, last, g, m)
    decreases left
  {
    if left > 0 {
      var m' := Counted(cfg, m, cfg.k);
      AfterOneMore(cfg, m, left);
      LeftSplits(cfg, left);
      LeftSplits(cfg, m.steps + 1);
      forall j | 0 < j <= left - 1 ensures RateHolds(cfg, m'.accepted + cfg.k * j, m'.steps + j) {
        LaterRates(cfg, m, left, j);
      }
      FullSteps(cfg, x, last, g + cfg.k + 1, m', left - 1);
      FirstFullStep(cfg, x, last, g, m, left);
    } else {
      AfterOneMore(cfg, m, 1);
    }
  }

  lemma LeftSplits(cfg: Config, left: nat)
    requires left > 0
    ensures left * (cfg.k + 1) == (left - 1) * (cfg.k + 1) + (cfg.k + 1) >= cfg.k + 1
    ensures cfg.k * left == cfg.k * (left - 1) + cfg.k
  {
  }

  /** Full steps before the last one of a run that gets as close to max as rates allow. */
  function FullBefore(cfg: Config, max: nat): nat {
    max / (cfg.k + 1)
  }

  /** The most that so many steps can accept without reaching max. */
  function BestAccepted(cfg: Config, max: nat): int {
    cfg.k * FullBefore(cfg, max) - if max % (cfg.k + 1) == 0 then 1 else 0
  }

  /**
   The settings under which some output is longer than max: EOS is in use, something is asked for, and the loop need not
   have fallen back by the time it comes within K of max.
   */
  predicate CanOvershoot(cfg: Config, max: nat) {
    cfg.eos.Some? && max >= 1 && RateHolds(cfg, BestAccepted(cfg, max), FullBefore(cfg, max))
  }

  lemma RateAtMostOne(rate: real, d: real, c: real)
    requires d > 0.0 && rate * d <= c && c <= d
    ensures rate <= 1.0
  {
  }

  lemma RateScales(rate: real, x: real, y: real)
    requires 0.0 <= x <= y
    ensures rate <= 1.0 ==> rate * x <= x
    ensures rate >= 0.0 ==> rate * x <= rate * y
    ensures rate <= 0.0 ==> rate * x <= 0.0
  {
    if rate <= 1.0 { assert (1.0 - rate) * x >= 0.0; }
    if rate >= 0.0 { assert rate * (y - x) >= 0.0; }
    if rate <= 0.0 { assert (-rate) * x >= 0.0; }
  }

  lemma DraftedGrows(k: nat, j: nat, steps: nat)
    requires k >= 1 && j <= steps
    ensures 0 <= k * j <= k * steps && (j >= 1 ==> k * j >= 1)
  {
    assert k * (steps - j) >= 0;
    if j >= 1 { assert k * (j - 1) >= 0; }
  }

  /** Fewer steps at the same rate, in reals: d0 of d drafted, at most best and a accepted. */
  lemma RateCarriesOver(rate: real, d0: real, d: real, a: real, best: real)
    requires 0.0 <= d0 <= d && d > 0.0 && rate * d <= a && a <= d && best >= 0.0 && (a <= best || d0 <= best)
    ensures rate * d0 <= best
  {
    RateAtMostOne(rate, d, a);
    RateScales(rate, d0, d);
  }

  /**
   A rate that holds late, after as many acceptances as there can be or fewer, held all along with every token
   accepted.
   */
  lemma EarlierRates(cfg: Config, accepted: int, steps: nat, j: nat)
    requires RateHolds(cfg, accepted, steps) && accepted <= cfg.k * steps && 0 < j <= steps && cfg.k >= 1
    ensures RateHolds(cfg, cfg.k * j, j)
  {
    if cfg.fallback && j >= 3 {
      DraftedGrows(cfg.k, j, steps);
      var d, a, d0 := (cfg.k * steps) as real, accepted as real, (cfg.k * j) as real;
      RateCarriesOver(cfg.minRate, d0, d, a, d0);
    }
  }

  lemma MaxSplits(cfg: Config, max: nat)
    ensures max == FullBefore(cfg, max) * (cfg.k + 1) + max % (cfg.k + 1)
  {
  }

  /** The schedule of the longest way to stay below max. */
  lemma BestSchedule(cfg: Config, max: nat) returns (x: nat, last: nat)
    requires cfg.k >= 1 && CanOvershoot(cfg, max)
    ensures last < max <= last + cfg.k && !(last <= x < last + cfg.k) && Schedule(cfg, x, last, 0, START)
  {
    var s := FullBefore(cfg, max);
    MaxSplits(cfg, max);
    if max % (cfg.k + 1) != 0 {
      last := s * (cfg.k + 1);
      x := last + cfg.k;
      forall j | 0 < j <= s ensures RateHolds(cfg, START.accepted + cfg.k * j, START.steps + j) {
        EarlierRates(cfg, BestAccepted(cfg, max), s, j);
      }
      FullSteps(cfg, x, last, 0, START, s);
    } else {
      LeftSplits(cfg, s);
      var g := (s - 1) * (cfg.k + 1);
      last, x := max - 1, g + cfg.k - 1;
      var m := AfterFull(cfg, START, s - 1);
      assert Counted(cfg, m, cfg.k - 1).accepted == BestAccepted(cfg, max);
      RateMeansNoFallback(cfg, Counted(cfg, m, cfg.k - 1));
      assert Schedule(cfg, x, last, last, Counted(cfg, m, cfg.k - 1));
      assert Schedule(cfg, x, last, g, m);
      forall j | 0 < j <= s - 1 ensures RateHolds(cfg, START.accepted + cfg.k * j, START.steps + j) {
        EarlierRates(cfg, BestAccepted(cfg, max), s, j);
      }
      FullSteps(cfg, x, last, 0, START, s - 1);
    }
  }

  /** Without fallback the last step can start one short of max. */
  lemma TightSchedule(cfg: Config, max: nat) returns (x: nat)
    requires cfg.k >= 1 && !cfg.fallback && max >= 1
    ensures !(max - 1 <= x < max - 1 + cfg.k) && Schedule(cfg, x, max - 1, 0, START)
  {
    var last := max - 1;
    var s, b := FullBefore(cfg, last), last % (cfg.k + 1);
    MaxSplits(cfg, last);
    if b == 0 {
      x := last + cfg.k;
      FullSteps(cfg, x, last, 0, START, s);
    } else {
      x := b - 1;
      FullSteps(cfg, x, last, b, Counted(cfg, START, b - 1), s);
    }
  }

  // ---------------------------------------------------------------- both halves

  lemma ScheduleOvershoots(cfg: Config, x: nat, last: nat, max: nat, input: seq<nat>)
    returns (p: seq<nat> -> seq<real>, q: seq<nat> -> seq<real>, vocab: nat)
    requires cfg.eos.Some? && last < max <= last + cfg.k && !(last <= x < last + cfg.k)
    requires Schedule(cfg, x, last, 0, START)
    ensures Conditionals(p, vocab) && Conditionals(q, vocab)
    ensures forall u: Stream, pos: nat | Uniform(u) ::
      |Sample(LoopTree(cfg, p, q, vocab, max, input, [], START), u, pos).0.tokens| == last + cfg.k + 1
  {
    var e := cfg.eos.value;
    var o := if e == 0 then 1 else 0;
    vocab := e + 2;
    var until := |input| + last + cfg.k;
    p, q := Target(o, e, vocab, until), Draft(o, e, vocab, until, |input| + x);
    PairIsModels(o, e, vocab, until, |input| + x);
    PairIsForeseen(cfg, o, e, vocab, x, last, |input|, p, q);
    assert input + [] == input;
    forall u: Stream, pos: nat | Uniform(u)
      ensures |Sample(LoopTree(cfg, p, q, vocab, max, input, [], START), u, pos).0.tokens| == last + cfg.k + 1
    {
      ScheduledRun(cfg, o, e, vocab, x, last, max, input, p, q, [], START, u, pos);
    }
  }

  /** The bound max + K of an EOS exit is attained: without fallback, for every prompt and on every stream of draws. */
  lemma OvershootAttained(cfg: Config, max: nat, input: seq<nat>)
    returns (p: seq<nat> -> seq<real>, q: seq<nat> -> seq<real>, vocab: nat)
    requires cfg.k >= 1 && !cfg.fallback && cfg.eos.Some? && max >= 1
    ensures Conditionals(p, vocab) && Conditionals(q, vocab)
    ensures forall u: Stream, pos: nat | Uniform(u) ::
      |Sample(LoopTree(cfg, p, q, vocab, max, input, [], START), u, pos).0.tokens| == max + cfg.k
  {
    var x := TightSchedule(cfg, max);
    p, q, vocab := ScheduleOvershoots(cfg, x, max - 1, max, input);
  }

  lemma ProductGrows(c: nat, a: nat, b: nat)
    requires a <= b
    ensures a * c <= b * c
  {
  }

  lemma StepsToGetClose(k: nat, max: nat, s0: nat, s: nat, accepted: nat)
    requires k >= 1 && s0 * (k + 1) <= max && accepted <= k * s && max <= accepted + s + k
    ensures s0 <= s
  {
    assert k * s + s == s * (k + 1);
    if s0 >= s + 1 { ProductGrows(k + 1, s + 1, s0); }
  }

  /** The counts alone: the longest way takes no more steps, and accepts as much or all there is. */
  lemma BestIsEnough(cfg: Config, max: nat, s: nat, accepted: nat)
    requires cfg.k >= 1 && accepted <= cfg.k * s && accepted + s < max <= accepted + s + cfg.k
    ensures FullBefore(cfg, max) <= s
    ensures accepted <= BestAccepted(cfg, max) || cfg.k * FullBefore(cfg, max) <= BestAccepted(cfg, max)
  {
    var s0 := FullBefore(cfg, max);
    MaxSplits(cfg, max);
    StepsToGetClose(cfg.k, max, s0, s, accepted);
    assert s0 * (cfg.k + 1) == cfg.k * s0 + s0;
  }

  /** If some loop head within K of max has not fallen back, the longest way there need not have either. */
  lemma BestRateHolds(cfg: Config, max: nat, s: nat, accepted: nat)
    requires cfg.k >= 1 && accepted <= cfg.k * s && accepted + s < max <= accepted + s + cfg.k
    requires RateHolds(cfg, accepted, s)
    ensures RateHolds(cfg, BestAccepted(cfg, max), FullBefore(cfg, max))
  {
    BestIsEnough(cfg, max, s, accepted);
    FewerSteps(cfg, FullBefore(cfg, max), BestAccepted(cfg, max), s, accepted);
  }

  lemma FewerSteps(cfg: Config, s0: nat, best: int, s: nat, accepted: nat)
    requires cfg.k >= 1 && s0 <= s && accepted <= cfg.k * s && (accepted <= best || cfg.k * s0 <= best)
    requires RateHolds(cfg, accepted, s)
    ensures RateHolds(cfg, best, s0)
  {
    if cfg.fallback && s0 >= 3 {
      DraftedGrows(cfg.k, s0, s);
      var d0, d, a := (cfg.k * s0) as real, (cfg.k * s) as real, accepted as real;
      RateCarriesOver(cfg.minRate, d0, d, a, best as real);
    }
  }

  lemma NoFallbackMeansRate(cfg: Config, m: Metrics)
    requires cfg.k >= 1 && m.drafted == cfg.k * m.steps && !FallsBack(cfg, m)
    ensures RateHolds(cfg, m.accepted, m.steps)
  {
    if cfg.fallback && m.steps >= 3 {
      DraftedGrows(cfg.k, m.steps, m.steps);
      QuotientBound(m.accepted as real, m.drafted as real, cfg.minRate);
    }
  }

  /** An output is longer than max only where CanOvershoot allows it. */
  function Allowed(cfg: Config, max: nat): Output -> bool {
    (out: Output) => |out.tokens| > max ==> CanOvershoot(cfg, max)
  }

  lemma EosExitAllowed(cfg: Config, max: nat, gen: seq<nat>, m: Metrics, r: AcceptResult)
    requires cfg.k >= 1 && LoopState(cfg, gen, m) && !FallsBack(cfg, m) && |gen| < max && Sound(cfg.k, r)
    requires HasEos(cfg.eos, Cut(cfg.eos, Block(r))) && |gen + Cut(cfg.eos, Block(r))| > max
    ensures CanOvershoot(cfg, max)
  {
    NoFallbackMeansRate(cfg, m);
    BestRateHolds(cfg, max, m.steps, m.accepted);
  }

  lemma {:induction false} LoopAllowed(cfg: Config, p: seq<nat> -> seq<real>, q: seq<nat> -> seq<real>, vocab: nat,
                                       max: nat, cur: seq<nat>, gen: seq<nat>, m: Metrics)
    requires Conditionals(p, vocab) && Conditionals(q, vocab) && cfg.k >= 1
    requires LoopState(cfg, gen, m) && |gen| <= max && !FallsBack(cfg, m)
    ensures AllLeaves(LoopTree(cfg, p, q, vocab, max, cur, gen, m), Allowed(cfg, max))
    decreases max - |gen|, 1
  {
    if |gen| < max {
      StepSound(p, q, vocab, cur, cfg.k);
      var after := After(cfg, p, q, vocab, max, cur, gen, m);
      forall r | Sound(cfg.k, r) ensures AllLeaves(after(r), Allowed(cfg, max)) {
        StepAllowed(cfg, p, q, vocab, max, cur, gen, m, r);
      }
      BindLeaves(StepTree(p, q, vocab, cur, cfg.k), after, r => Sound(cfg.k, r), Allowed(cfg, max));
    }
  }

  lemma {:induction false} StepAllowed(cfg: Config, p: seq<nat> -> seq<real>, q: seq<nat> -> seq<real>, vocab: nat,
                                       max: nat, cur: seq<nat>, gen: seq<nat>, m: Metrics, r: AcceptResult)
    requires Conditionals(p, vocab) && Conditionals(q, vocab) && cfg.k >= 1
    requires LoopState(cfg, gen, m) && |gen| < max && !FallsBack(cfg, m) && Sound(cfg.k, r)
    ensures AllLeaves(AfterStep(cfg, p, q, vocab, max, cur, gen, m, r), Allowed(cfg, max))
    decreases max - |gen|, 0
  {
    var tally, added := Tally(m, cfg.k, r), Cut(cfg.eos, Block(r));
    BodyFits(cfg, max, gen, r);
    BodyKeepsLoopState(cfg, max, gen, m, r);
    if HasEos(cfg.eos, added) {
      if |gen + added| > max { EosExitAllowed(cfg, max, gen, m, r); }
    } else if |gen + added| < max && !FallsBack(cfg, tally) {
      LoopAllowed(cfg, p, q, vocab, max, cur + added, gen + added, tally);
    }
  }

  /**
   The length of the output, exactly: no pair of models, prompt or stream of draws takes it past max_new_tokens if and
   only if EOS is not in use, nothing is asked for, or the settings make the loop fall back before it comes within K of
   max.
   */
  lemma OvershootExactly(cfg: Config, max: nat)
    requires cfg.k >= 1
    ensures !CanOvershoot(cfg, max) <==>
      forall p: seq<nat> -> seq<real>, q: seq<nat> -> seq<real>, vocab: nat, input: seq<nat>, u: Stream, pos: nat |
        Conditionals(p, vocab) && Conditionals(q, vocab) && Uniform(u) ::
        |Sample(LoopTree(cfg, p, q, vocab, max, input, [], START), u, pos).0.tokens| <= max
  {
    if CanOvershoot(cfg, max) {
      var x, last := BestSchedule(cfg, max);
      var p, q, vocab := ScheduleOvershoots(cfg, x, last, max, [0]);
      var zero: Stream := (n: nat) => 0.0;
      assert |Sample(LoopTree(cfg, p, q, vocab, max, [0], [], START), zero, 0).0.tokens| == last + cfg.k + 1;
    } else {
      forall p: seq<nat> -> seq<real>, q: seq<nat> -> seq<real>, vocab: nat, input: seq<nat>, u: Stream, pos: nat |
        Conditionals(p, vocab) && Conditionals(q, vocab) && Uniform(u)
        ensures |Sample(LoopTree(cfg, p, q, vocab, max, input, [], START), u, pos).0.tokens| <= max
      {
        LoopAllowed(cfg, p, q, vocab, max, input, [], START);
        SampleInLeaves(LoopTree(cfg, p, q, vocab, max, input, [], START), Allowed(cfg, max), u, pos);
      }
    }
  }

  /** With fallback off the condition is that EOS is not in use or nothing is asked for. */
  lemma WithoutFallback(cfg: Config, max: nat)
    requires !cfg.fallback
    ensures CanOvershoot(cfg, max) <==> cfg.eos != None && max != 0
  {
  }
}
