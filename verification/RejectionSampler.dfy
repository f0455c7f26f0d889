/** speculative/sampler.py: accept or reject drafted tokens, then add one resampled or bonus token. */
module RejectionSampler {
  import opened Vectors
  import opened ChoiceTree

  datatype Extra = Bonus(token: nat) | Resampled(token: nat)

  /** The source's bonus_token and resampled_token fields: the sampler fills exactly one of them. */
  datatype AcceptResult = AcceptResult(numAccepted: nat, accepted: seq<nat>, extra: Extra)

  function Block(r: AcceptResult): seq<nat> {
    r.accepted + [r.extra.token]
  }

  function Min(a: real, b: real): real { if a <= b then a else b }

  /** min(1, p / q), the acceptance probability of a token the draft can propose. */
  function Ratio(p: real, q: real): (a: real)
    requires p >= 0.0 && q > 0.0
    ensures 0.0 <= a <= 1.0
    ensures q * a == Min(p, q)
  {
    assert q * (p / q) == p;
    Min(1.0, p / q)
  }

  /** clamp(target - draft, min = 0). */
  function Residual(p: seq<real>, q: seq<real>): (r: seq<real>)
    requires |p| == |q|
    ensures |r| == |p| && NonNegative(r)
  {
    seq(|p|, z requires 0 <= z < |p| => if p[z] > q[z] then p[z] - q[z] else 0.0)
  }

  function Scale(v: seq<real>, s: real): (r: seq<real>)
    requires s > 0.0
    ensures |r| == |v|
  {
    seq(|v|, z requires 0 <= z < |v| => v[z] / s)
  }

  /** Normalising a non-negative row of positive mass gives a distribution. */
  lemma ScaleIsDist(v: seq<real>)
    requires NonNegative(v) && Sum(v) > 0.0
    ensures IsDist(Scale(v, Sum(v)))
  {
    var s := Sum(v);
    forall z | 0 <= z < |v| ensures Scale(v, s)[z] == (1.0 / s) * v[z] + 0.0 * v[z] && Scale(v, s)[z] >= 0.0 {}
    SumLinear(v, v, Scale(v, s), 1.0 / s, 0.0);
  }

  /** The row resampling draws from on a rejection, with the source's fallback to the target row. */
  function ResampleRow(p: seq<real>, q: seq<real>): (r: seq<real>)
    requires |p| == |q| && IsDist(p)
    ensures |r| == |p| && IsDist(r)
  {
    var res := Residual(p, q);
    if Sum(res) > 0.0 then ScaleIsDist(res); Scale(res, Sum(res)) else p
  }

  /** Target rows for every drafted position and the bonus position; draft rows for the drafted positions. */
  predicate Rows(tokens: seq<nat>, draft: seq<seq<real>>, target: seq<seq<real>>) {
    && |draft| == |tokens| && |target| == |tokens| + 1
    && (forall i | 0 <= i < |draft| :: IsDist(draft[i]) && |draft[i]| == |target[i]|)
    && (forall i | 0 <= i < |target| :: IsDist(target[i]))
  }

  function Tail(bonus: bool, z: nat): Extra { if bonus then Bonus(z) else Resampled(z) }

  /** Draw the closing token of the block. */
  function Emit(accepted: seq<nat>, row: seq<real>, bonus: bool): (t: Tree<AcceptResult>)
    ensures IsDist(row) ==> WellFormed(t)
  {
    Draw(row, seq(|row|, (z: nat) => Leaf(AcceptResult(|accepted|, accepted, Tail(bonus, z)))))
  }

  /** A weighted coin. */
  function Coin<A>(a: real, heads: Tree<A>, tails: Tree<A>): (t: Tree<A>)
    requires 0.0 <= a <= 1.0
    ensures WellFormed(heads) && WellFormed(tails) ==> WellFormed(t)
  {
    CoinIsDist(a);
    Draw([a, 1.0 - a], [heads, tails])
  }

  lemma CoinIsDist(a: real)
    requires 0.0 <= a <= 1.0
    ensures IsDist([a, 1.0 - a])
  {
    var w := [a, 1.0 - a];
    assert SumTo(w, 0) == 0.0;
    assert SumTo(w, 1) == SumTo(w, 0) + w[0];
    assert SumTo(w, 2) == SumTo(w, 1) + w[1];
  }

  /** A coin lands on heads exactly when the uniform draw is below its weight. */
  lemma SampleCoin<A>(a: real, heads: Tree<A>, tails: Tree<A>, u: Stream, pos: nat)
    requires 0.0 <= a <= 1.0 && WellFormed(heads) && WellFormed(tails) && Uniform(u)
    ensures Sample(Coin(a, heads, tails), u, pos) == Sample(if u(pos) < a then heads else tails, u, pos + 1)
  {
    CoinIsDist(a);
    var w := [a, 1.0 - a];
    assert SumTo(w, 0) == 0.0;
    assert SumTo(w, 1) == SumTo(w, 0) + w[0];
  }

  lemma SampleEmit(accepted: seq<nat>, row: seq<real>, bonus: bool, u: Stream, pos: nat)
    requires IsDist(row) && Uniform(u)
    ensures Sample(Emit(accepted, row, bonus), u, pos) ==
      (AcceptResult(|accepted|, accepted, Tail(bonus, Pick(row, u(pos)))), pos + 1)
  {
  }

  /** Testing one drafted token: go on if it is accepted, else close the block with a resampled token. */
  function Test(p: seq<real>, q: seq<real>, token: nat, accepted: seq<nat>, go: Tree<AcceptResult>)
    : (t: Tree<AcceptResult>)
    requires |p| == |q| && IsDist(p) && IsDist(q) && WellFormed(go)
    ensures WellFormed(t)
  {
    if At(q, token) == 0.0 then go else
      Coin(Ratio(At(p, token), At(q, token)), go, Emit(accepted, ResampleRow(p, q), false))
  }

  /** What testing one token does on the draws that are left. */
  lemma SampleTest(p: seq<real>, q: seq<real>, token: nat, accepted: seq<nat>, go: Tree<AcceptResult>, u: Stream,
                   pos: nat)
    requires |p| == |q| && IsDist(p) && IsDist(q) && WellFormed(go) && Uniform(u)
    ensures Sample(Test(p, q, token, accepted, go), u, pos) ==
      if At(q, token) == 0.0 then Sample(go, u, pos)
      else if u(pos) < Ratio(At(p, token), At(q, token)) then Sample(go, u, pos + 1)
      else (AcceptResult(|accepted|, accepted, Resampled(Pick(ResampleRow(p, q), u(pos + 1)))), pos + 2)
  {
    if At(q, token) != 0.0 {
      SampleCoin(Ratio(At(p, token), At(q, token)), go, Emit(accepted, ResampleRow(p, q), false), u, pos);
      SampleEmit(accepted, ResampleRow(p, q), false, u, pos + 1);
    }
  }

  /** The sampler as a random program, from drafted position i on with tokens[..i] accepted. */
  function SamplerTree(tokens: seq<nat>, draft: seq<seq<real>>, target: seq<seq<real>>, i: nat)
    : (t: Tree<AcceptResult>)
    requires i <= |tokens| && Rows(tokens, draft, target)
    ensures WellFormed(t)
    decreases |tokens| - i
  {
    if i == |tokens| then Emit(tokens, target[i], true)
    else Test(target[i], draft[i], tokens[i], tokens[..i], SamplerTree(tokens, draft, target, i + 1))
  }

  /**
   What a verdict says: the accepted tokens are the first drafted ones, the closing token is a bonus exactly when all of
   them were accepted, and a drafted token is refused only if the draft model could propose it.
   */
  predicate Verdict(tokens: seq<nat>, draft: seq<seq<real>>, r: AcceptResult)
    requires |draft| == |tokens|
  {
    && r.numAccepted <= |tokens| && r.accepted == tokens[..r.numAccepted]
    && (r.extra.Bonus? <==> r.numAccepted == |tokens|)
    && (r.extra.Resampled? ==> At(draft[r.numAccepted], tokens[r.numAccepted]) != 0.0)
  }

  function Says(tokens: seq<nat>, draft: seq<seq<real>>): AcceptResult -> bool
    requires |draft| == |tokens|
  {
    (r: AcceptResult) => Verdict(tokens, draft, r)
  }

  /** Every outcome of the sampler, whatever the draws, is such a verdict. */
  lemma {:induction false} SamplerVerdict(tokens: seq<nat>, draft: seq<seq<real>>, target: seq<seq<real>>, i: nat)
    requires i <= |tokens| && Rows(tokens, draft, target)
    ensures AllLeaves(SamplerTree(tokens, draft, target, i), Says(tokens, draft))
    decreases |tokens| - i
  {
    assert tokens[..|tokens|] == tokens;
    if i < |tokens| { SamplerVerdict(tokens, draft, target, i + 1); }
  }

  /** The sampler, drawing from the generator at position pos. */
  method Call(tokens: seq<nat>, draft: seq<seq<real>>, target: seq<seq<real>>, u: Stream, pos: nat)
    returns (r: AcceptResult, next: nat)
    requires Rows(tokens, draft, target) && Uniform(u)
    ensures (r, next) == Sample(SamplerTree(tokens, draft, target, 0), u, pos)
    ensures r.extra.Bonus? <==> r.numAccepted == |tokens|
    ensures Verdict(tokens, draft, r)
  {
    SamplerVerdict(tokens, draft, target, 0);
    SampleInLeaves(SamplerTree(tokens, draft, target, 0), Says(tokens, draft), u, pos);
    var accepted: seq<nat> := [];
    next := pos;
    for i := 0 to |tokens|
      invariant accepted == tokens[..i]
      invariant Sample(SamplerTree(tokens, draft, target, 0), u, pos)
             == Sample(SamplerTree(tokens, draft, target, i), u, next)
    {
      SampleTest(target[i], draft[i], tokens[i], tokens[..i], SamplerTree(tokens, draft, target, i + 1), u, next);
      var token := tokens[i];
      var p, q := At(target[i], token), At(draft[i], token);
      if q == 0.0 {
        accepted := accepted + [token];
        continue;
      }
      var ratio := Ratio(p, q);
      var coin := u(next);
      next := next + 1;
      if coin < ratio {
        accepted := accepted + [token];
      } else {
        var resampled := Resample(target[i], draft[i], u(next));
        next := next + 1;
        return AcceptResult(i, accepted, Resampled(resampled)), next;
      }
    }
    assert accepted == tokens;
    SampleEmit(tokens, target[|tokens|], true, u, next);
    assert SamplerTree(tokens, draft, target, |tokens|) == Emit(tokens, target[|tokens|], true);
    r := AcceptResult(|tokens|, accepted, Bonus(Pick(target[|tokens|], u(next))));
    next := next + 1;
  }

  /** Resample from the normalised residual, or from the target row when the residual has no mass. */
  method Resample(target: seq<real>, draft: seq<real>, x: real) returns (token: nat)
    requires |target| == |draft| && IsDist(target) && 0.0 <= x < 1.0
    ensures token == Pick(ResampleRow(target, draft), x)
  {
    var residual := Residual(target, draft);
    var mass := Sum(residual);
    if mass > 0.0 {
      ScaleIsDist(residual);
      token := Pick(Scale(residual, mass), x);
    } else {
      token := Pick(target, x);
    }
  }
}
