/** speculative/verifier.py: one forward pass over input and draft gives all K + 1 target rows. */
module Verifier {
  import opened LanguageModel

  /** The conditionals a verifier must deliver: row i follows input and the first i drafted tokens. */
  function TargetRows(p: seq<nat> -> seq<real>, ctx: seq<nat>, tokens: seq<nat>): (rows: seq<seq<real>>)
    ensures |rows| == |tokens| + 1
  {
    seq(|tokens| + 1, i requires 0 <= i <= |tokens| => p(ctx + tokens[..i]))
  }

  /** The slice of the forward pass that starts one position before the first drafted token. */
  function Verify<S>(m: Model<S>, input: seq<nat>, tokens: seq<nat>): (rows: seq<seq<real>>)
    requires |input| > 0
    ensures rows == TargetRows(Law(m), input, tokens)
  {
    var logits := ForwardRows(m, m.init, input + tokens);
    var start := |input| - 1;
    var end := start + |tokens| + 1;
    assert forall i | 0 <= i <= |tokens| :: (input + tokens)[..start + i + 1] == input + tokens[..i];
    logits[start..end]
  }
}
