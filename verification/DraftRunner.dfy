/** speculative/draft_runner.py: K tokens drafted one at a time over a cached state. */
module DraftRunner {
  import opened ChoiceTree
  import opened LanguageModel

  /** Uncached drafting: extend drafted to k tokens, each drawn from the row of everything before it. */
  function DraftTree(q: seq<nat> -> seq<real>, ctx: seq<nat>, k: nat, drafted: seq<nat>): Tree<seq<nat>>
    decreases k - |drafted|
  {
    if |drafted| >= k then Leaf(drafted) else
      var row := q(ctx + drafted);
      Draw(row, seq(|row|, (x: nat) => DraftTree(q, ctx, k, drafted + [x])))
  }

  /** The row every drafted token was drawn from. */
  function DraftRows(q: seq<nat> -> seq<real>, ctx: seq<nat>, tokens: seq<nat>): (rows: seq<seq<real>>)
    ensures |rows| == |tokens|
  {
    seq(|tokens|, i requires 0 <= i < |tokens| => q(ctx + tokens[..i]))
  }

  /** The full drafts that start with what has been drafted. */
  function Drafts(k: nat, drafted: seq<nat>): seq<nat> -> bool {
    d => |d| == k && drafted <= d
  }

  lemma {:induction false} DraftWellFormed(q: seq<nat> -> seq<real>, vocab: nat, ctx: seq<nat>, k: nat,
                                           drafted: seq<nat>)
    requires Conditionals(q, vocab) && |drafted| <= k
    ensures WellFormed(DraftTree(q, ctx, k, drafted))
    ensures AllLeaves(DraftTree(q, ctx, k, drafted), Drafts(k, drafted))
    decreases k - |drafted|
  {
    if |drafted| < k {
      var t := DraftTree(q, ctx, k, drafted);
      forall x: nat | x < |t.kids|
        ensures WellFormed(t.kids[x]) && AllLeaves(t.kids[x], Drafts(k, drafted))
      {
        DraftWellFormed(q, vocab, ctx, k, drafted + [x]);
        LeavesWeaken(t.kids[x], Drafts(k, drafted + [x]), Drafts(k, drafted));
      }
    }
  }

  lemma {:induction false} LeavesWeaken<A(!new)>(t: Tree<A>, p: A -> bool, r: A -> bool)
    requires AllLeaves(t, p) && forall a | p(a) :: r(a)
    ensures AllLeaves(t, r)
  {
    if t.Draw? {
      forall i | 0 <= i < |t.kids| ensures AllLeaves(t.kids[i], r) { LeavesWeaken(t.kids[i], p, r); }
    }
  }

  /**
   Cached drafting: the whole input once, then only the newest token. It draws what uncached drafting draws, and
   hands back the row of every draw.
   */
  method Speculate<S>(m: Model<S>, ghost vocab: nat, input: seq<nat>, k: nat, u: Stream, pos: nat)
    returns (tokens: seq<nat>, probs: seq<seq<real>>, next: nat)
    requires Conditionals(Law(m), vocab) && Uniform(u) && k >= 1
    ensures WellFormed(DraftTree(Law(m), input, k, []))
    ensures (tokens, next) == Sample(DraftTree(Law(m), input, k, []), u, pos)
    ensures probs == DraftRows(Law(m), input, tokens)
    ensures |tokens| == k
  {
    tokens, probs, next := [], [], pos;
    var cache := m.init;
    var nextInput := input;
    DraftWellFormed(Law(m), vocab, input, k, []);
    assert input + [] == input;
    for step := 0 to k
      invariant |tokens| == |probs| == step
      invariant Absorb(m, cache, nextInput) == Absorb(m, m.init, input + tokens)
      invariant probs == DraftRows(Law(m), input, tokens)
      invariant WellFormed(DraftTree(Law(m), input, k, tokens))
      invariant Sample(DraftTree(Law(m), input, k, []), u, pos) == Sample(DraftTree(Law(m), input, k, tokens), u, next)
    {
      cache := Absorb(m, cache, nextInput);
      var row := m.readout(cache);
      var token := Pick(row, u(next));
      next := next + 1;
      CacheStep(m, input, tokens, token);
      RowsStep(Law(m), input, tokens, token);
      tokens, probs, nextInput := tokens + [token], probs + [row], [token];
    }
  }

  lemma CacheStep<S>(m: Model<S>, input: seq<nat>, tokens: seq<nat>, token: nat)
    ensures Absorb(m, Absorb(m, m.init, input + tokens), [token]) == Absorb(m, m.init, input + (tokens + [token]))
  {
    var before, after := input + tokens, input + (tokens + [token]);
    assert before + [token] == after;
    AbsorbAppend(m, m.init, before, [token]);
  }

  lemma RowsStep(q: seq<nat> -> seq<real>, ctx: seq<nat>, tokens: seq<nat>, token: nat)
    ensures DraftRows(q, ctx, tokens + [token]) == DraftRows(q, ctx, tokens) + [q(ctx + tokens)]
  {
    assert forall i | 0 <= i <= |tokens| :: (tokens + [token])[..i] == tokens[..i];
  }
}
