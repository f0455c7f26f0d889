/** core/inference.py: plain generation, and generation that reuses cached prefix states. */
module Inference {
  import opened Options
  import opened Vectors
  import opened ChoiceTree
  import opened LanguageModel
  import opened KVCache
  import opened CacheRuns

  /** The library's random generator: a stream of uniform draws and the next one to be used. */
  datatype Rng = Rng(draws: Stream, pos: nat)

  datatype Manager<!S> =
    | NotLoaded
    | Loaded(model: Model<S>, tokenize: string -> seq<nat>, detokenize: seq<nat> -> string, eos: nat)

  datatype Request = Request(prompt: string, maxNewTokens: nat, seed: Option<nat>)

  datatype Reply = ModelNotLoaded | Reply(text: string, promptTokens: nat, completionTokens: nat)

  ghost predicate Healthy<S(!new)>(mgr: Manager<S>) {
    mgr.Loaded? ==> forall s :: IsDist(mgr.model.readout(s))
  }

  ghost predicate Seeds(seeds: nat -> Stream) {
    forall n :: Uniform(seeds(n))
  }

  /** torch.manual_seed when the request carries a seed. */
  function Seeded(rng: Rng, seed: Option<nat>, seeds: nat -> Stream): Rng {
    match seed case None => rng case Some(n) => Rng(seeds(n), 0)
  }

  /** Rows that can be sampled from, and draws to sample with. */
  ghost predicate Ready<S(!new)>(m: Model<S>, rng: Rng) {
    (forall s :: IsDist(m.readout(s))) && Uniform(rng.draws)
  }

  /** Sampling from a state: at most n tokens, each from the current row, stopping after EOS. */
  function Decode<S(!new)>(m: Model<S>, s: S, n: nat, eos: nat, rng: Rng): (seq<nat>, Rng)
    requires Ready(m, rng)
  {
    if n == 0 then ([], rng) else
      var token := Pick(m.readout(s), rng.draws(rng.pos));
      var next := rng.(pos := rng.pos + 1);
      if token == eos then ([token], next) else
        var (rest, last) := Decode(m, m.step(s, token), n - 1, eos, next);
        ([token] + rest, last)
  }

  /** model.generate: the given ids followed by the new tokens, starting from a cached state. */
  function LibraryGenerate<S(!new)>(m: Model<S>, past: S, ids: seq<nat>, n: nat, eos: nat, rng: Rng)
    : (r: (seq<nat>, Rng))
    requires Ready(m, rng)
    ensures |ids| <= |r.0| && r.0[..|ids|] == ids
    ensures (r.0[|ids|..], r.1) == Decode(m, Absorb(m, past, ids), n, eos, rng)
  {
    var (tokens, next) := Decode(m, Absorb(m, past, ids), n, eos, rng);
    assert (ids + tokens)[|ids|..] == tokens;
    (ids + tokens, next)
  }

  /** generate: tokenize, seed, run the model on the whole prompt, keep what comes after it. */
  function Generate<S(!new)>(mgr: Manager<S>, req: Request, rng: Rng, seeds: nat -> Stream): (Reply, Rng)
    requires Healthy(mgr) && Uniform(rng.draws) && Seeds(seeds)
  {
    if mgr.NotLoaded? then (ModelNotLoaded, rng) else
      var ids := mgr.tokenize(req.prompt);
      var (output, next) :=
        LibraryGenerate(mgr.model, mgr.model.init, ids, req.maxNewTokens, mgr.eos, Seeded(rng, req.seed, seeds));
      var generated := output[|ids|..];
      (Reply(mgr.detokenize(generated), |ids|, |generated|), next)
  }

  /** The token sampled after those before it, with the next draw. */
  function Choice<S(!new)>(m: Model<S>, s: S, rng: Rng, before: seq<nat>): nat
    requires Ready(m, rng)
  {
    Pick(m.readout(Absorb(m, s, before)), rng.draws(rng.pos + |before|))
  }

  /**
   The tokens are sampled one after another from the model's own rows after state s, each with the next draw, up to the
   limit n or the first EOS.
   */
  ghost predicate Sampled<S(!new)>(m: Model<S>, s: S, n: nat, eos: nat, rng: Rng, tokens: seq<nat>)
    requires Ready(m, rng)
  {
    && |tokens| <= n
    && (forall i | 0 <= i < |tokens| :: tokens[i] == Choice(m, s, rng, tokens[..i]))
    && (forall i | 0 <= i < |tokens| - 1 :: tokens[i] != eos)
    && (|tokens| == n || (tokens != [] && tokens[|tokens| - 1] == eos))
  }

  lemma ChoiceShifts<S(!new)>(m: Model<S>, s: S, rng: Rng, token: nat, before: seq<nat>)
    requires Ready(m, rng)
    ensures Choice(m, s, rng, []) == Pick(m.readout(s), rng.draws(rng.pos))
    ensures Choice(m, s, rng, [token] + before) == Choice(m, m.step(s, token), rng.(pos := rng.pos + 1), before)
  {
    AbsorbAppend(m, s, [token], before);
    assert [token][..0] == [];
  }

  lemma SampledCons<S(!new)>(m: Model<S>, s: S, n: nat, eos: nat, rng: Rng, token: nat, rest: seq<nat>)
    requires Ready(m, rng) && n > 0 && token == Choice(m, s, rng, []) && token != eos
    requires Sampled(m, m.step(s, token), n - 1, eos, rng.(pos := rng.pos + 1), rest)
    ensures Sampled(m, s, n, eos, rng, [token] + rest)
  {
    var tokens := [token] + rest;
    forall i | 0 <= i < |tokens| ensures tokens[i] == Choice(m, s, rng, tokens[..i]) {
      if i == 0 {
        assert tokens[..0] == [];
      } else {
        ChoiceShifts(m, s, rng, token, rest[..i - 1]);
        assert tokens[..i] == [token] + rest[..i - 1];
      }
    }
  }

  lemma SampledLast<S(!new)>(m: Model<S>, s: S, n: nat, eos: nat, rng: Rng)
    requires Ready(m, rng) && n > 0 && eos == Choice(m, s, rng, [])
    ensures Sampled(m, s, n, eos, rng, [eos])
  {
    assert [eos][..0] == [];
  }

  lemma DecodeGoesOn<S(!new)>(m: Model<S>, s: S, n: nat, eos: nat, rng: Rng, token: nat)
    requires Ready(m, rng) && n > 0 && token == Pick(m.readout(s), rng.draws(rng.pos)) && token != eos
    ensures var (rest, last) := Decode(m, m.step(s, token), n - 1, eos, rng.(pos := rng.pos + 1));
      Decode(m, s, n, eos, rng) == ([token] + rest, last)
  {
  }

  /** Decoding samples, and takes one draw for each token. */
  ghost predicate Decodes<S(!new)>(m: Model<S>, s: S, n: nat, eos: nat, rng: Rng)
    requires Ready(m, rng)
  {
    var (tokens, next) := Decode(m, s, n, eos, rng);
    Sampled(m, s, n, eos, rng, tokens) && next == Rng(rng.draws, rng.pos + |tokens|)
  }

  lemma DecodesOn<S(!new)>(m: Model<S>, s: S, n: nat, eos: nat, rng: Rng, token: nat)
    requires Ready(m, rng) && n > 0 && token == Pick(m.readout(s), rng.draws(rng.pos)) && token != eos
    requires Decodes(m, m.step(s, token), n - 1, eos, rng.(pos := rng.pos + 1))
    ensures Decodes(m, s, n, eos, rng)
  {
    ChoiceShifts(m, s, rng, token, []);
    DecodeGoesOn(m, s, n, eos, rng, token);
    SampledCons(m, s, n, eos, rng, token, Decode(m, m.step(s, token), n - 1, eos, rng.(pos := rng.pos + 1)).0);
  }

  lemma {:induction false} DecodeSamples<S(!new)>(m: Model<S>, s: S, n: nat, eos: nat, rng: Rng)
    requires Ready(m, rng)
    ensures Decodes(m, s, n, eos, rng)
  {
    if n > 0 {
      var token := Pick(m.readout(s), rng.draws(rng.pos));
      if token == eos {
        ChoiceShifts(m, s, rng, token, []);
        SampledLast(m, s, n, eos, rng);
      } else {
        DecodeSamples(m, m.step(s, token), n - 1, eos, rng.(pos := rng.pos + 1));
        DecodesOn(m, s, n, eos, rng, token);
      }
    }
  }

  lemma NextToken<S(!new)>(m: Model<S>, s: S, n: nat, eos: nat, rng: Rng, a: seq<nat>, i: nat)
    requires Ready(m, rng) && Sampled(m, s, n, eos, rng, a) && i < |a|
    ensures a[..i + 1] == a[..i] + [Choice(m, s, rng, a[..i])]
  {
  }

  lemma {:induction false} SampledAgree<S(!new)>(m: Model<S>, s: S, n: nat, eos: nat, rng: Rng, a: seq<nat>,
                                                 b: seq<nat>, i: nat)
    requires Ready(m, rng) && Sampled(m, s, n, eos, rng, a) && Sampled(m, s, n, eos, rng, b)
    requires i <= |a| && i <= |b|
    ensures a[..i] == b[..i]
  {
    if i > 0 {
      SampledAgree(m, s, n, eos, rng, a, b, i - 1);
      NextToken(m, s, n, eos, rng, a, i - 1);
      NextToken(m, s, n, eos, rng, b, i - 1);
    }
  }

  lemma NotShorter<S(!new)>(m: Model<S>, s: S, n: nat, eos: nat, rng: Rng, a: seq<nat>, b: seq<nat>)
    requires Ready(m, rng) && Sampled(m, s, n, eos, rng, a) && Sampled(m, s, n, eos, rng, b)
    ensures |a| >= |b|
  {
    if |a| < |b| && a != [] {
      SampledAgree(m, s, n, eos, rng, a, b, |a|);
    }
  }

  /** The state, the limit and the draws decide the tokens. */
  lemma SampledOnce<S(!new)>(m: Model<S>, s: S, n: nat, eos: nat, rng: Rng, a: seq<nat>, b: seq<nat>)
    requires Ready(m, rng) && Sampled(m, s, n, eos, rng, a) && Sampled(m, s, n, eos, rng, b)
    ensures a == b
  {
    NotShorter(m, s, n, eos, rng, a, b);
    NotShorter(m, s, n, eos, rng, b, a);
    SampledAgree(m, s, n, eos, rng, a, b, |a|);
    assert a == a[..|a|] && b == b[..|a|];
  }

  /**
   What a reply reports: the text of the tokens sampled after the whole prompt, the prompt's length and the number of
   those tokens; and the generator is left one draw further for each of them.
   */
  ghost predicate Reports<S(!new)>(mgr: Manager<S>, req: Request, start: Rng, reply: Reply, next: Rng)
    requires mgr.Loaded? && Healthy(mgr) && Uniform(start.draws)
  {
    var ids := mgr.tokenize(req.prompt);
    && reply.Reply? && reply.promptTokens == |ids| && reply.completionTokens <= req.maxNewTokens
    && next.draws == start.draws && next.pos == start.pos + reply.completionTokens
    && exists tokens: seq<nat> | |tokens| == reply.completionTokens ::
      && Sampled(mgr.model, Absorb(mgr.model, mgr.model.init, ids), req.maxNewTokens, mgr.eos, start, tokens)
      && reply.text == mgr.detokenize(tokens)
  }

  /** The generator a request is served with: fresh from its seed, or as it stands. */
  function Start(rng: Rng, seed: Option<nat>, seeds: nat -> Stream): Rng {
    if seed.Some? then Rng(seeds(seed.value), 0) else rng
  }

  /** generate reports such a reply. */
  lemma GenerateReports<S(!new)>(mgr: Manager<S>, req: Request, rng: Rng, seeds: nat -> Stream)
    requires mgr.Loaded? && Healthy(mgr) && Uniform(rng.draws) && Seeds(seeds)
    ensures var (reply, next) := Generate(mgr, req, rng, seeds);
      Reports(mgr, req, Start(rng, req.seed, seeds), reply, next)
  {
    var m, ids, start := mgr.model, mgr.tokenize(req.prompt), Start(rng, req.seed, seeds);
    var (output, next) := LibraryGenerate(m, m.init, ids, req.maxNewTokens, mgr.eos, start);
    DecodeSamples(m, Absorb(m, m.init, ids), req.maxNewTokens, mgr.eos, start);
    var tokens := output[|ids|..];
    assert Sampled(m, Absorb(m, m.init, ids), req.maxNewTokens, mgr.eos, start, tokens);
  }

  /** Two replies to a request from the same start are the same; so a seeded request depends on nothing drawn before. */
  lemma ReportsOnce<S(!new)>(mgr: Manager<S>, req: Request, start: Rng, a: Reply, b: Reply, next: Rng, last: Rng)
    requires mgr.Loaded? && Healthy(mgr) && Uniform(start.draws)
    requires Reports(mgr, req, start, a, next) && Reports(mgr, req, start, b, last)
    ensures a == b && next == last
  {
    var m, ids := mgr.model, mgr.tokenize(req.prompt);
    var s := Absorb(m, m.init, ids);
    var x: seq<nat> :| |x| == a.completionTokens && a.text == mgr.detokenize(x)
      && Sampled(m, s, req.maxNewTokens, mgr.eos, start, x);
    var y: seq<nat> :| |y| == b.completionTokens && b.text == mgr.detokenize(y)
      && Sampled(m, s, req.maxNewTokens, mgr.eos, start, y);
    SampledOnce(m, s, req.maxNewTokens, mgr.eos, start, x, y);
  }

  /** A seeded request gets the same reply whatever was drawn before it. */
  lemma SeedDecides<S(!new)>(mgr: Manager<S>, req: Request, rng: Rng, other: Rng, seeds: nat -> Stream)
    requires mgr.Loaded? && Healthy(mgr) && Uniform(rng.draws) && Uniform(other.draws) && Seeds(seeds)
    requires req.seed.Some?
    ensures Generate(mgr, req, rng, seeds) == Generate(mgr, req, other, seeds)
  {
    var (a, next) := Generate(mgr, req, rng, seeds);
    var (b, last) := Generate(mgr, req, other, seeds);
    GenerateReports(mgr, req, rng, seeds);
    GenerateReports(mgr, req, other, seeds);
    ReportsOnce(mgr, req, Rng(seeds(req.seed.value), 0), a, b, next, last);
  }

  ghost predicate CollisionFree<K(!new)>(hash: seq<nat> -> K) {
    forall a, b :: hash(a) == hash(b) ==> a == b
  }

  /** Every cached entry is the model state of its own key's prefix. */
  ghost predicate Coherent<K, S>(m: Model<S>, hash: seq<nat> -> K, es: seq<Entry<K, S>>) {
    forall i, ids | 0 <= i < |es| && hash(ids) == es[i].key :: es[i].kv == Absorb(m, m.init, ids)
  }

  lemma CoherentGet<K(!new), S>(m: Model<S>, hash: seq<nat> -> K, c: Cache<K, S>, k: K)
    requires Coherent(m, hash, c.entries)
    ensures Coherent(m, hash, GetSpec(c, k).0.entries)
    ensures forall ids | hash(ids) == k && GetSpec(c, k).1.Some? ::
      GetSpec(c, k).1.value.kv == Absorb(m, m.init, ids)
  {
    WithoutSlices(c.entries, k);
    if Has(c.entries, k) {
      var i, es := Find(c.entries, k), GetSpec(c, k).0.entries;
      forall j | 0 <= j < |es|
        ensures es[j] == c.entries[if j < i then j else if j < |es| - 1 then j + 1 else i]
      {
      }
    }
  }

  lemma CoherentWithout<K(!new), S>(m: Model<S>, hash: seq<nat> -> K, es: seq<Entry<K, S>>, k: K)
    requires Coherent(m, hash, es)
    ensures Coherent(m, hash, Without(es, k))
  {
    WithoutSlices(es, k);
  }

  lemma CoherentSuffix<K(!new), S>(m: Model<S>, hash: seq<nat> -> K, kept: seq<Entry<K, S>>, es: seq<Entry<K, S>>)
    requires Coherent(m, hash, es) && Suffix(kept, es)
    ensures Coherent(m, hash, kept)
  {
  }

  lemma CoherentAppend<K(!new), S>(m: Model<S>, hash: seq<nat> -> K, es: seq<Entry<K, S>>, ids: seq<nat>,
                                   e: Entry<K, S>)
    requires CollisionFree(hash) && Coherent(m, hash, es) && e.key == hash(ids) && e.kv == Absorb(m, m.init, ids)
    ensures Coherent(m, hash, es + [e])
  {
  }

  lemma CoherentPut<K(!new), S>(m: Model<S>, hash: seq<nat> -> K, b: Budget, c: Cache<K, S>, ids: seq<nat>,
                                e: Entry<K, S>)
    requires CollisionFree(hash) && Coherent(m, hash, c.entries) && Returns(b, e)
    requires e.key == hash(ids) && e.kv == Absorb(m, m.init, ids)
    ensures Coherent(m, hash, PutSpec(b, c, e).entries)
  {
    if e.bytes <= b.memory {
      var rest := Without(c.entries, e.key);
      CoherentWithout(m, hash, c.entries, e.key);
      KeptIsLongestFit(b, rest, e.bytes);
      CoherentSuffix(m, hash, Kept(b, rest, e.bytes), rest);
      CoherentAppend(m, hash, Kept(b, rest, e.bytes), ids, e);
    }
  }

  lemma CoherentEvict<K(!new), S>(m: Model<S>, hash: seq<nat> -> K, c: Cache<K, S>, needed: int)
    requires Coherent(m, hash, c.entries)
    ensures Coherent(m, hash, EvictSpec(c, needed).entries)
  {
    ShedFreesEnough(c.entries, needed);
  }

  /** Where min(cache_prefix_tokens, prompt_tokens) cuts the prompt: a negative length counts from the end. */
  function SplitPoint(cachePrefixTokens: int, promptTokens: nat): (n: nat)
    ensures n <= promptTokens
    ensures 0 <= cachePrefixTokens ==> n <= cachePrefixTokens && (n == cachePrefixTokens || n == promptTokens)
    ensures cachePrefixTokens < 0 ==> n == 0 || n - promptTokens == cachePrefixTokens
  {
    var len := if cachePrefixTokens <= promptTokens then cachePrefixTokens else promptTokens;
    if len >= 0 then len else if promptTokens + len >= 0 then promptTokens + len else 0
  }

  function KeysOf<K, V>(es: seq<Entry<K, V>>): set<K> {
    set i | 0 <= i < |es| :: es[i].key
  }

  lemma HasKey<K, V>(es: seq<Entry<K, V>>, k: K)
    ensures k in KeysOf(es) <==> Has(es, k)
  {
    HasMeans(es, k);
  }

  /** The entry for this prompt's prefix: its own state under its own key. */
  ghost function PrefixEntry<K(!new), S(!new)>(mgr: Manager<S>, req: Request, cache: KVCacheManager<K, S>,
                                               cachePrefixTokens: int): Entry<K, S>
    requires mgr.Loaded?
  {
    var ids := mgr.tokenize(req.prompt);
    var prefix := ids[..SplitPoint(cachePrefixTokens, |ids|)];
    var kv := Absorb(mgr.model, mgr.model.init, prefix);
    Entry(cache.hash(prefix), kv, |prefix|, cache.sizeOf(kv))
  }

  /** A lookup, and after a miss the store of the entry. */
  function AfterLookup<K(==), V>(b: Budget, c: Cache<K, V>, e: Entry<K, V>): Cache<K, V> {
    var (seen, found) := GetSpec(c, e.key);
    if found.Some? then seen else PutSpec(b, seen, e)
  }

  lemma AfterLookupHas<K, V>(b: Budget, c: Cache<K, V>, e: Entry<K, V>)
    requires Sound(b, c) && Returns(b, e)
    ensures e.key in KeysOf(AfterLookup(b, c, e).entries) <==> e.key in KeysOf(c.entries) || e.bytes <= b.memory
  {
    var after := AfterLookup(b, c, e);
    HasKey(c.entries, e.key);
    HasKey(after.entries, e.key);
    GetSound(b, c, e.key);
    if Has(c.entries, e.key) {
      GetKeepsLookups(c, e.key, e.key);
    } else {
      StoredIsFound(b, GetSpec(c, e.key).0, e);
    }
  }

  /** The put of a cache miss returns for this prompt's prefix. */
  ghost predicate MissReturns<K(!new), S(!new)>(mgr: Manager<S>, req: Request, cache: KVCacheManager<K, S>,
                                                cachePrefixTokens: int)
    requires mgr.Loaded?
  {
    Returns(cache.budget, PrefixEntry(mgr, req, cache, cachePrefixTokens))
  }

  /**
   generate_with_cache. With collision-free keys it answers as generate does and leaves the generator where generate
   leaves it, whether the lookup hits or misses, and it keeps the cache coherent for the next request. A miss stores the
   prefix's state, so that the next lookup of the prefix finds it unless it is oversized.
   */
  method GenerateWithCache<K(!new), S(!new)>(mgr: Manager<S>, req: Request, cache: KVCacheManager?<K, S>,
                                             cachePrefixTokens: Option<int>, rng: Rng, seeds: nat -> Stream)
    returns (reply: Reply, next: Rng)
    requires Healthy(mgr) && Uniform(rng.draws) && Seeds(seeds)
    requires cache != null ==> cache.Valid() && CollisionFree(cache.hash)
    requires cache != null && mgr.Loaded? ==> Coherent(mgr.model, cache.hash, cache.cache)
    requires cache != null && mgr.Loaded? && cachePrefixTokens.Some? ==>
      MissReturns(mgr, req, cache, cachePrefixTokens.value)
    modifies cache
    ensures (reply, next) == Generate(mgr, req, rng, seeds)
    ensures mgr.NotLoaded? ==> reply == ModelNotLoaded && next == rng
    ensures mgr.Loaded? ==>
      Reports(mgr, req, Start(rng, req.seed, seeds), reply, next)
    ensures cache != null && (mgr.NotLoaded? || cachePrefixTokens == None) ==> cache.View() == old(cache.View())
    ensures cache != null && mgr.Loaded? && cachePrefixTokens.Some? ==>
      var entry := PrefixEntry(mgr, req, cache, cachePrefixTokens.value);
      && cache.View() == AfterLookup(cache.budget, old(cache.View()), entry)
      && (entry.key in KeysOf(cache.cache) <==>
            entry.key in KeysOf(old(cache.cache)) || entry.bytes <= cache.budget.memory)
    ensures cache != null ==> cache.Valid()
    ensures cache != null && mgr.Loaded? ==> Coherent(mgr.model, cache.hash, cache.cache)
  {
    if mgr.Loaded? { GenerateReports(mgr, req, rng, seeds); }
    if cache == null || cachePrefixTokens == None {
      var plain := Generate(mgr, req, rng, seeds);
      return plain.0, plain.1;
    }
    if mgr.NotLoaded? {
      return ModelNotLoaded, rng;
    }
    var m := mgr.model;
    var ids := mgr.tokenize(req.prompt);
    var seeded := Seeded(rng, req.seed, seeds);
    var prefixLen := SplitPoint(cachePrefixTokens.value, |ids|);
    var prefix, suffix := ids[..prefixLen], ids[prefixLen..];
    ghost var entry := PrefixEntry(mgr, req, cache, cachePrefixTokens.value);
    AfterLookupHas(cache.budget, cache.View(), entry);
    CoherentGet(m, cache.hash, cache.View(), cache.hash(prefix));
    var cached := cache.Get(prefix);
    var kv;
    if cached.Some? {
      kv := cached.value.kv;
    } else {
      kv := Absorb(m, m.init, prefix);
      CoherentPut(m, cache.hash, cache.budget, cache.View(), prefix, entry);
      cache.Put(prefix, kv);
    }
    assert kv == Absorb(m, m.init, prefix);
    SplitPrompt(m, ids, prefixLen);
    var (output, last) := LibraryGenerate(m, kv, suffix, req.maxNewTokens, mgr.eos, seeded);
    var generated := output[|suffix|..];
    reply, next := Reply(mgr.detokenize(generated), |ids|, |generated|), last;
  }

  lemma SplitPrompt<S>(m: Model<S>, ids: seq<nat>, n: nat)
    requires n <= |ids|
    ensures Absorb(m, Absorb(m, m.init, ids[..n]), ids[n..]) == Absorb(m, m.init, ids)
  {
    AbsorbAppend(m, m.init, ids[..n], ids[n..]);
    assert ids[..n] + ids[n..] == ids;
  }

  // ---------------------------------------------------------------- runs

  /** Operations that only ever store a prefix's own state: what requests, evictions and clears do, in any order. */
  ghost predicate Honest<K(!new), S>(m: Model<S>, hash: seq<nat> -> K, ops: seq<Op<K, S>>) {
    forall i | 0 <= i < |ops| && ops[i].Put? ::
      exists ids :: ops[i].entry.key == hash(ids) && ops[i].entry.kv == Absorb(m, m.init, ids)
  }

  lemma {:induction false} HonestRunCoherent<K(!new), S>(m: Model<S>, hash: seq<nat> -> K, b: Budget,
                                                         ops: seq<Op<K, S>>)
    requires CollisionFree(hash) && Honest(m, hash, ops) && Completed(b, ops)
    ensures Coherent(m, hash, Run(b, ops).entries)
  {
    if ops != [] {
      var front, op := ops[..|ops| - 1], ops[|ops| - 1];
      HonestRunCoherent(m, hash, b, front);
      match op
      case Get(k) => CoherentGet(m, hash, Run(b, front), k);
      case Put(e) =>
        var ids :| e.key == hash(ids) && e.kv == Absorb(m, m.init, ids);
        CoherentPut(m, hash, b, Run(b, front), ids, e);
      case EvictLru(n) => CoherentEvict(m, hash, Run(b, front), n);
      case Clear =>
    }
  }

  /**
   Cache transparency over runs: however the cache operations of concurrent requests, evictions and clears interleave,
   a lookup that hits hands back a state from which the suffix generates exactly what the whole prompt would.
   */
  lemma HitIsTransparent<K(!new), S(!new)>(m: Model<S>, hash: seq<nat> -> K, b: Budget, ops: seq<Op<K, S>>,
                                           ids: seq<nat>, n: nat, maxNew: nat, eos: nat, rng: Rng)
    requires CollisionFree(hash) && Honest(m, hash, ops) && Completed(b, ops) && n <= |ids|
    requires Ready(m, rng)
    requires GetSpec(Run(b, ops), hash(ids[..n])).1.Some?
    ensures var kv := GetSpec(Run(b, ops), hash(ids[..n])).1.value.kv;
      var (cachedOut, cachedRng) := LibraryGenerate(m, kv, ids[n..], maxNew, eos, rng);
      var (wholeOut, wholeRng) := LibraryGenerate(m, m.init, ids, maxNew, eos, rng);
      cachedOut[|ids| - n..] == wholeOut[|ids|..] && cachedRng == wholeRng
  {
    HonestRunCoherent(m, hash, b, ops);
    SplitPrompt(m, ids, n);
  }
}
