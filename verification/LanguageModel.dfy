/** A causal language model with incremental state: the role past_key_values plays in the source. */
module LanguageModel {
  import opened Vectors

  /** init is the empty cache, step absorbs one token, readout is the softmaxed row for the next position. */
  datatype Model<!S> = Model(init: S, step: (S, nat) -> S, readout: S -> seq<real>)

  /** Feeding tokens one after another into a cached state. */
  function Absorb<S>(m: Model<S>, s: S, ids: seq<nat>): S {
    if ids == [] then s else m.step(Absorb(m, s, ids[..|ids| - 1]), ids[|ids| - 1])
  }

  /** The conditional next-token row after a context. */
  function Cond<S>(m: Model<S>, ctx: seq<nat>): seq<real> {
    m.readout(Absorb(m, m.init, ctx))
  }

  /** The conditionals a model defines. */
  function Law<S>(m: Model<S>): seq<nat> -> seq<real> {
    ctx => Cond(m, ctx)
  }

  /** Next-token rows for every context, over a vocabulary of size vocab. */
  ghost predicate Conditionals(p: seq<nat> -> seq<real>, vocab: nat) {
    forall ctx :: |p(ctx)| == vocab && IsDist(p(ctx))
  }

  /** Absorbing a concatenation is absorbing its parts: what lets a cached state stand for its prefix. */
  lemma {:induction false} AbsorbAppend<S>(m: Model<S>, s: S, a: seq<nat>, b: seq<nat>)
    ensures Absorb(m, s, a + b) == Absorb(m, Absorb(m, s, a), b)
  {
    if b == [] {
      assert a + b == a;
    } else {
      assert (a + b)[..|a + b| - 1] == a + b[..|b| - 1];
      AbsorbAppend(m, s, a, b[..|b| - 1]);
    }
  }

  /** One forward pass: row j is the row for the position after ids[j]. */
  function ForwardRows<S>(m: Model<S>, s: S, ids: seq<nat>): (rows: seq<seq<real>>)
    ensures |rows| == |ids|
    ensures forall j | 0 <= j < |ids| :: rows[j] == m.readout(Absorb(m, s, ids[..j + 1]))
  {
    seq(|ids|, j requires 0 <= j < |ids| => m.readout(Absorb(m, s, ids[..j + 1])))
  }
}
