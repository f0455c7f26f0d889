# Verified model of the LLM serving system

A Dafny model of the parts of `llm_serving` whose correctness needs an argument over whole runs: speculative decoding,
the Lua token bucket, the prefix KV cache and the pressure handler that shrinks it, the priority queue, batching, the
circuit breaker, and the request pipeline that ties handler, queue, workers, breaker and batch scheduler together.
`dafny verify dfyconfig.toml` checks every proof.

## How the model is built

**Speculative decoding.** A language model is a state folded over tokens with a readout of the next-token row
(`LanguageModel`); its conditionals are arbitrary rows of exact reals. A random program is a finite tree of weighted
draws (`ChoiceTree`) with two readings: `Sample` follows one stream of uniform draws, `Expect` averages over all of them.
`Measure` ties them: the draws that reach an outcome form a box whose volume is the outcome's weight in `Expect`.
The methods `Speculate`, `Verify`, `Call` and `Generate` follow the source loop by loop and are proved to return what
`Sample` returns for the tree that specifies them; `Exactness` then proves the law of that tree. The heart is a martingale
argument: the target's probability that the output will begin with y is preserved by one draft-and-judge position, hence
by a step that stops wherever a rejection happens to fall, hence by the loop on each of its exits, the fallback included.
Where a promise fails, `PointModels` supplies models that leave nothing to chance, so that a concrete run holds on every
stream of draws; `Overshoot` and `FallbackLaw` use them to say exactly which settings keep the promise.

**Token bucket.** The script works on reals; the class stores hashes with an expiry time. The level is shown to be the
least credit over all earlier calls, which gives an if-and-only-if for admission over whole call histories.

**KV cache, inference, pressure.** The ordered dictionary is a sequence in recency order. Every method is proved
against a specification function on it, and the lemmas say what that function means: which entries survive, the accounting,
the order, inclusion between cache sizes, and that cached generation is generation.

**Pipeline.** A transition system on one event loop. A step is a stretch of code between two awaits, of a handler, a
worker, the collector or stop, and a run is any sequence of enabled steps. The breaker, registry and drain steps use the
functions that the classes `CircuitBreaker`, `InferenceWorkerPool` and `BatchScheduler` are proved against. Handler
timeouts and disconnects, failed inference, a refusing breaker and cancellation of workers by stop are all steps.

## Where the code differs from its documentation

- The exits at an EOS token skip the truncation, so the output can exceed `max_new_tokens` by up to K. `OvershootExactly`
  gives the settings under which no models, prompt or draws do it, and `OvershootAttained` reaches max + K for every prompt.
- The low-acceptance fallback ends the loop and nothing continues it. Continued from the target, the output has the target's
  law whatever the settings (`ContinuedExact`); by itself it has that law if and only if fallback is off, or its minimum
  rate is not positive, or at most three tokens are wanted (`RawLawExactly`). For one pair of models and one prompt it has
  that law if and only if a fallback exit has probability 0, and otherwise falls short of it by no more than that probability
  (`RawLawOfOnePair`, `RawLawDeficit`).
- With `rate_limit_bucket_size` below 1 the script still reports `retry_after_ms`, though no wait is ever enough: the hint is
  honoured if and only if the size is at least 1 (`RetryIsHonoured`).
- `record_success` closes an OPEN breaker directly (`LateSuccessCloses`).
- A `failure_threshold` below 1 acts as 1, since it is looked at only after a failure (`HistoryReflected`).
- An oversized `put` returns before it looks at the old entry: a lookup finds what was stored if and only if it was not
  oversized, and an oversized store changes no lookup (`StoredIsFound`).
- With `max_entries` of 0 the second eviction loop of `put` never ends: `put` returns if and only if `max_entries` is at
  least 1 or the entry is oversized (`PutReturnsExactly`).
- A batched request that stops early gets its padding decoded and counted in `completion_tokens` (`EarlyStopIsPadded`).
  Which requests are safe from it whatever the model, by their limits, temperatures and prompts: `BatchAgreesExactly`.
- `half_open_max_calls` below 1 lets a HALF_OPEN breaker refuse for ever. Every state the pipeline reaches can leave
  HALF_OPEN if and only if the setting is at least 1 or there is no worker (`RecoversExactly`), and with at least 1 every
  order of work leaves it (`EveryScheduleFinishes`).

## Model

| member | source | states |
|---|---|---|
| ChoiceTree.PickInterval | src/llm_serving/speculative/sampler.py:103 | A uniform draw picks entry k if and only if it falls in an interval of length w[k], so that w[k] is the probability of the pick that stands for `multinomial`. |
| Measure.BoxIsTaken | src/llm_serving/speculative/sampler.py:88-103 | A random program takes a path on exactly the streams of uniform draws in the path's box, one interval per draw, and then ends at the path's outcome after as many draws. |
| Measure.ExpectIsMeasure | src/llm_serving/speculative/sampler.py:88-103 | The law used in every statement about output distributions is the measure of draws: the expectation is the sum over all paths of the outcome's value times the volume of its box. |
| Measure.SureValue | src/llm_serving/speculative/sampler.py:88-103 | What holds of a program's outcome on every stream of draws holds in expectation. |
| RejectionSampler.Call | src/llm_serving/speculative/sampler.py:64-127 | The accept/reject loop, on every stream of draws, returns the outcome of the sampler's probabilistic program and leaves the generator where that program leaves it; the accepted tokens are the first drafted ones, and the closing token is reported as the bonus token exactly when all K were accepted, else as the resampled one. |
| RejectionSampler.SamplerVerdict | src/llm_serving/speculative/sampler.py:69-127 | The same of every outcome of the program, from any position; and a token is refused only where the draft row gives it mass, so one the draft gives none is always accepted. |
| RejectionSampler.Resample | src/llm_serving/speculative/sampler.py:98-108 | The replacement token is drawn from the normalised positive part of target minus draft, or from the target row if that part has no mass. |
| DraftRunner.Speculate | src/llm_serving/speculative/draft_runner.py:81-110 | Drafting with cached state, one token per pass, draws the same tokens and returns the same rows as drafting from the whole prefix each time. |
| Verifier.Verify | src/llm_serving/speculative/verifier.py:53-76 | Index alignment: row i of the K+1 rows sliced from one forward pass is the target's conditional after the input and the first i drafted tokens. |
| Orchestrator.Collect | src/llm_serving/speculative/orchestrator.py:90-112 | The collected tokens are the sampler's block cut right after its first EOS, and the stop flag says whether there was one. |
| Orchestrator.DraftVerifyAccept | src/llm_serving/speculative/orchestrator.py:76-87 | Draft, verify and accept together are the one-step probabilistic program in which all K tokens are drafted before any is judged; it accepts at most K, and closes with a bonus token exactly when it accepts K. |
| Orchestrator.BodyKeepsLoopState | src/llm_serving/speculative/orchestrator.py:73-125 | A pass without EOS takes one loop head to the next: len(generated) = total_accepted + total_steps, total_drafted = K * total_steps and no EOS in generated; a pass with EOS adds at most what it counts. |
| Orchestrator.Generate | src/llm_serving/speculative/orchestrator.py:67-141 | The loop with all its exits returns the outcome of the loop program on the same draws, keeps the loop-head facts at every head, and on every run the output is accounted: metrics add up, at most max steps, EOS only last, length at most max, or max + K on an EOS exit, and at most total_accepted + total_steps. |
| Orchestrator.LoopAccounts | src/llm_serving/speculative/orchestrator.py:73-141 | From every loop head, every random outcome is an accounted output: metrics add up and cover it, EOS only last, and one that falls short of max without EOS is a fallback exit with exactly total_accepted + total_steps tokens. |
| Orchestrator.StepAccounts | src/llm_serving/speculative/orchestrator.py:90-138 | One pass of the body leaves by one of its exits with an accounted output or, without EOS, keeps the loop-head facts for the next pass. |
| Overshoot.OvershootExactly | src/llm_serving/speculative/orchestrator.py:73-141 | For every setting with K at least 1: some models, prompt and draws take the output past max_new_tokens if and only if EOS is in use, max is positive, and the longest way to come within K of max need not have fallen back, a condition on K, max and the fallback settings alone. |
| Overshoot.OvershootAttained | src/llm_serving/speculative/orchestrator.py:93-112 | The bound is tight: with fallback off and EOS in use, for every K, positive max and prompt there are models whose output has exactly max + K tokens on every stream of draws. |
| Overshoot.WithoutFallback | src/llm_serving/speculative/orchestrator.py:93-119 | With fallback off the condition is that EOS is in use and something is asked for. |
| PointModels.StepPoint | src/llm_serving/speculative/orchestrator.py:76-87 | For models that fix the next token by the length of the context, a step accepts exactly the draft's tokens before the first one the target would not say, and then the target's own, on every stream of draws. |
| Exactness.ResidualMass | src/llm_serving/speculative/sampler.py:98-99 | The residual mass equals the total rejection probability of the position. |
| Exactness.RejectionResamples | src/llm_serving/speculative/sampler.py:88-108 | Rejecting a token means the target gives it less than the draft; then the residual has mass, so the zero-residual fallback is unreachable, and the resampled token has target above draft and is another token. |
| Exactness.ClosingToken | src/llm_serving/speculative/sampler.py:88-127 | On every stream of draws of the whole sampler: a refused token has target below draft, the resampled token has target above draft and is another token, and a bonus token has positive target probability. |
| Exactness.PositionLaw | src/llm_serving/speculative/sampler.py:69-117 | Draw from the draft, accept by the ratio, resample on rejection: the expected value of any function of the token is its mean under the target row. |
| Exactness.DraftAllIsOneAtATime | src/llm_serving/speculative/sampler.py:69-127 | Drafting all K tokens first and then judging gives the same law on emitted blocks as drafting and testing one token at a time. |
| Exactness.OneAtATimeHarmonic | src/llm_serving/speculative/sampler.py:69-127 | From any accepted prefix, the emitted block averages every martingale of the target to its value at that prefix. |
| Exactness.StepHarmonic | src/llm_serving/speculative/orchestrator.py:76-87 | One whole step, stopped wherever it stops, is a stopped run of the target model. |
| Exactness.CutKeepsHits | src/llm_serving/speculative/orchestrator.py:93-112 | Cutting a block at its first EOS does not change how likely a string with EOS at most last becomes. |
| Exactness.TruncationKeepsHits | src/llm_serving/speculative/orchestrator.py:117-119 | Truncating to max_new_tokens does not change how likely a string of at most that length becomes. |
| Exactness.StepExact | src/llm_serving/speculative/orchestrator.py:90-125 | Fallback on or off, whatever block a step emits: the probability that the finished output, continued from the target, begins with y is the target's, given what that block has generated. |
| Exactness.LoopExact | src/llm_serving/speculative/orchestrator.py:73-125 | Fallback on or off, from every loop head: the probability that the finished output, continued from the target, begins with y is the target's probability given what was generated. |
| Exactness.ContinuedExact | src/llm_serving/speculative/orchestrator.py:73-138 | Output-distribution identity for every setting, the default one with fallback included: for every draft model, K, prompt and string y of at most max_new_tokens with EOS only last, an output continued from the target begins with y with probability equal to the product of the target's conditionals along y. |
| Exactness.Exact | src/llm_serving/speculative/orchestrator.py:73-125 | Where the loop cannot fall back (fallback off, minimum rate not positive, or at most three tokens wanted) the output itself begins with y with that probability. |
| FallbackLaw.RawLawExactly | src/llm_serving/speculative/orchestrator.py:127-138 | Those settings are the only ones: the output itself has the target's law for all models, prompts and strings if and only if fallback is off, or the minimum rate is not positive, or at most three tokens are wanted. |
| FallbackLaw.RawLawDeficit | src/llm_serving/speculative/orchestrator.py:127-138 | For every pair of models, prompt, setting and string, the probability that the raw output begins with the string is never above the target's and at most the probability of a fallback exit below it. |
| FallbackLaw.RawLawOfOnePair | src/llm_serving/speculative/orchestrator.py:127-138 | For one pair of models and one prompt, under any setting: the raw output has the target's law on all strings of at most max_new_tokens with EOS only last if and only if a fallback exit has probability 0. |
| FallbackLaw.FallbackFalsifies | src/llm_serving/speculative/orchestrator.py:127-138 | Under any other setting, for every prompt, a pair of models and a string that is certain under the target and has probability 0 of beginning the output. |
| Exactness.DraftDoesNotMatter | src/llm_serving/speculative/__init__.py:3-6 | Two draft models, two values of K and two fallback settings give the same law of the continued output. |
| TokenBucket.TokenBucketRateLimiter.TryConsume | src/llm_serving/queue/rate_limiter.py:32-177 | The script's effect on the stored hashes of all keys and its three decoded answers, for any stored state including an expired or absent key: allowed exactly when the refilled level reaches 1, and a positive retry_after exactly when it does not. |
| TokenBucket.AnswersMean | src/llm_serving/queue/rate_limiter.py:53-72 | A call is answered allowed if and only if a token was there, and if and only if one is taken; retry_after_ms is 0 when allowed and at least 1 when not; remaining is the level left behind, rounded down. |
| TokenBucket.KeysAreIndependent | src/llm_serving/queue/rate_limiter.py:122 | Two API keys share a bucket only if they are the same key. |
| TokenBucket.LevelIsLeastCredit | src/llm_serving/queue/rate_limiter.py:48-59 | At every call the level is the minimum, over all earlier-or-equal calls j, of a full bucket at j plus refill since j minus admissions since j, and the minimum is attained. |
| TokenBucket.AdmissionExactly | src/llm_serving/queue/rate_limiter.py:43-59 | Call n is answered allowed if and only if for every j up to n the number answered allowed in j..n-1 plus one is at most bucket_size + refill_rate * (t_n - t_j). |
| TokenBucket.WindowBound | src/llm_serving/queue/rate_limiter.py:43-59 | In every window of calls the admissions are at most the burst size plus the refill over the window. |
| TokenBucket.TtlCovers | src/llm_serving/queue/rate_limiter.py:62 | The time to live is twice the time to fill an empty bucket, rounded up to a second, and so long enough to fill one. |
| TokenBucket.IdleIsFull | src/llm_serving/queue/rate_limiter.py:43-51 | A bucket idle for its time to live is full, exactly what a fresh key starts with. |
| TokenBucket.ExpiryChangesNothing | src/llm_serving/queue/rate_limiter.py:38-72 | In every run of calls by any keys, the expiring store answers each call as a never-expiring bucket fed only with that key's calls. |
| TokenBucket.DeniedCallsCostNothing | src/llm_serving/queue/rate_limiter.py:48-63 | Deleting any set of denied calls from a run changes no other decision. |
| TokenBucket.RetryIsExact | src/llm_serving/queue/rate_limiter.py:66-70 | With no call in between, a denied caller is answered allowed at a time from retry_after_ms on if and only if bucket_size is at least 1, and never at least 1 ms before that. |
| TokenBucket.RetryIsHonoured | src/llm_serving/queue/rate_limiter.py:66-70 | A denied caller is admitted at every time from the end of retry_after_ms on, with no call in between, if and only if bucket_size is at least 1. |
| TokenBucket.RemainingIsExact | src/llm_serving/queue/rate_limiter.py:54-72 | The remaining tokens a call reports are exactly how many further calls at that moment would be admitted. |
| KVCache.KVCacheManager.Get | src/llm_serving/core/kv_cache.py:134-150 | Returns the binding of the key wherever it stands, and nothing exactly if there is none; moves it to the end, counts a hit exactly if something is returned and else a miss, and keeps the cache sound. |
| KVCache.KVCacheManager.Put | src/llm_serving/core/kv_cache.py:162-201 | Whenever put returns at all, it refines the simple specification: old binding out, longest most-recent suffix that leaves room kept, new entry last; an oversized entry changes nothing; both budgets and the byte total hold afterwards. |
| KVCache.KVCacheManager.MakeRoom | src/llm_serving/core/kv_cache.py:189-197 | Whenever they end, the two eviction loops together keep exactly the suffix the specification keeps, with byte total and eviction count to match. |
| KVCache.PutReturnsExactly | src/llm_serving/core/kv_cache.py:166-197 | The eviction loops of put, turn by turn, from any cache: they end after finitely many turns if and only if max_entries is at least 1, put returns if and only if that holds or the entry is oversized, and where they end is what the specification keeps. |
| KVCache.KVCacheManager.EvictLru | src/llm_serving/core/kv_cache.py:218-221 | Removes exactly the shortest front run of entries that frees the bytes asked for, or everything. |
| KVCache.KVCacheManager.EvictOneLocked | src/llm_serving/core/kv_cache.py:232-244 | Removes the front entry and reports its bytes; nothing happens on an empty cache. |
| KVCache.KVCacheManager.Clear | src/llm_serving/core/kv_cache.py:267-269 | Empties the cache and the byte total and leaves the counters. |
| KVCache.KeptIsLongestFit | src/llm_serving/core/kv_cache.py:189-197 | What survives a fitting put is a suffix in recency order with room for the new entry, and no longer suffix has room. |
| KVCache.ShedFreesEnough | src/llm_serving/core/kv_cache.py:218-221 | Eviction leaves a suffix; it frees the bytes asked for or leaves nothing, and stopping one entry earlier would not have freed them. |
| KVCache.GetSound | src/llm_serving/core/kv_cache.py:136-150 | A lookup keeps distinct keys, the byte total and both budgets. |
| KVCache.PutSound | src/llm_serving/core/kv_cache.py:183-201 | Every store that returns keeps distinct keys, the byte total and both budgets. |
| KVCache.StoredIsFound | src/llm_serving/core/kv_cache.py:136-201 | After a store that returns, a lookup of its key finds that very entry if and only if it was not oversized; an oversized store changes the answer of no lookup. |
| KVCache.GetFinds | src/llm_serving/core/kv_cache.py:136-150 | With distinct keys a lookup returns the key's binding wherever it stands, and nothing if and only if no entry has the key; hit and miss counters move to match. |
| KVCache.GetKeepsLookups | src/llm_serving/core/kv_cache.py:136-147 | A lookup changes the answer of no later lookup, of its own key or another. |
| KVCache.PutKeepsLookups | src/llm_serving/core/kv_cache.py:183-201 | After a store that fits, every other key is found with its old entry if that is in the surviving suffix, and not at all otherwise. |
| KVCache.EvictKeepsLookups | src/llm_serving/core/kv_cache.py:218-221 | After an eviction every key is found with its old entry if that is in the surviving suffix, and not at all otherwise. |
| KVCache.ClearForgets | src/llm_serving/core/kv_cache.py:267-269 | After a clear no key is found and no byte is charged; the three counters stay. |
| KVCache.EvictSound | src/llm_serving/core/kv_cache.py:218-244 | Eviction keeps distinct keys, the byte total and both budgets. |
| CacheRuns.RunSound | src/llm_serving/core/kv_cache.py:136-269 | Over every run of lookups, stores that return, evictions and clears, for any budget: distinct keys, current_memory equal to the sum of entry bytes, both budgets respected. |
| CacheRuns.CountersAddUp | src/llm_serving/core/kv_cache.py:136-269 | Over every run: hit_count is the number of lookups that found something, hit_count plus miss_count the number of lookups, and every entry that came in is still there, was cleared, or is counted in eviction_count. |
| CacheRuns.RunInRecencyOrder | src/llm_serving/core/kv_cache.py:136-201 | Over every run the dictionary order is the order of last use. |
| CacheRuns.GetIncluded | src/llm_serving/core/kv_cache.py:136-150 | One lookup keeps the smaller cache included in the larger one, in order, with no more hits. |
| CacheRuns.PutIncluded | src/llm_serving/core/kv_cache.py:183-201 | One store keeps the smaller cache included in the larger one, whatever either evicts. |
| CacheRuns.LruInclusion | src/llm_serving/core/kv_cache.py:136-201 | On any trace with entries of at most one size and a non-binding memory budget, the cache with fewer entries holds a subset of the larger one's bindings, in the same relative order, and hit_count is monotone in max_entries. |
| Inference.GenerateWithCache | src/llm_serving/core/inference.py:213-314 | Returns what `generate` returns, text, both counts and generator position, on the no-cache, hit and miss paths and for any cache_prefix_tokens, negative ones counting from the end; says outright what that reply is, as `GenerateReports` does; keeps every cached entry the state of its own prefix; and a miss stores that of the prompt's prefix, so that afterwards the prefix is cached unless it was neither there before nor fits. |
| Inference.DecodeSamples | src/llm_serving/core/inference.py:71-83 | Each new token is sampled from the model's row after all tokens before it, with the next draw; there are at most max_new_tokens, and fewer only after an EOS, which stands nowhere else; and that many draws are used. |
| Inference.GenerateReports | src/llm_serving/core/inference.py:63-91 | A reply has the text of the tokens so sampled after the whole prompt, the prompt's token count and the count of those tokens, at most max_new_tokens, and starts from the seed's own stream if there is a seed. |
| Inference.ReportsOnce | src/llm_serving/core/inference.py:63-91 | That description leaves one reply and one generator position only. |
| Inference.SeedDecides | src/llm_serving/core/inference.py:68-69 | With a seed, reply and generator do not depend on what was drawn before. |
| Inference.CoherentGet | src/llm_serving/core/kv_cache.py:136-150 | A lookup keeps the cache coherent, and a hit is the state of the very prefix asked for. |
| Inference.CoherentPut | src/llm_serving/core/kv_cache.py:183-201 | Storing a prefix's own state keeps every entry the state of its own prefix. |
| Inference.CoherentEvict | src/llm_serving/core/kv_cache.py:218-221 | Eviction keeps every entry the state of its own prefix. |
| Inference.HonestRunCoherent | src/llm_serving/core/inference.py:247-286 | Over every interleaving of requests' lookups and stores with evictions and clears, every cached entry is the state of its own key's prefix. |
| Inference.HitIsTransparent | src/llm_serving/core/inference.py:251-271 | After any such interleaving, generating from a hit and the suffix gives the tokens and generator position of generating from the whole prompt. |
| MemoryPressure.WatermarkMonitor.Check | src/llm_serving/profiler/watermark.py:77-100 | CRITICAL exactly from the critical ratio on, HIGH exactly from the high ratio up to it, NORMAL otherwise; stores the level, and reports a transition exactly when the level changed. |
| MemoryPressure.MemoryPressureHandler.ShouldAdmit | src/llm_serving/profiler/pressure.py:57-59 | One observation's whole effect on level, latch, escalation step and cache, with or without a cache attached, and the admission answer. |
| MemoryPressure.MemoryPressureHandler.OnHigh | src/llm_serving/profiler/pressure.py:63-81 | Evicts the escalated share of the cached bytes and counts the entry, only if a cache is attached. |
| MemoryPressure.MemoryPressureHandler.OnCritical | src/llm_serving/profiler/pressure.py:85-90 | Latches rejection and empties the cache, leaving the escalation step. |
| MemoryPressure.HighEntryFrees | src/llm_serving/profiler/pressure.py:66-74 | Each entry into HIGH leaves at most current - floor(ratio * current) cached bytes and a sound cache. |
| MemoryPressure.HighEntryOverRuns | src/llm_serving/profiler/pressure.py:61-81 | After any run of observations, with a cache, an entry into HIGH frees at least a tenth of the cached bytes, rounded down, if it is the first since the last NORMAL, a quarter if the second, a half from the third on; it takes entries from the least recently used end, and no more than that needs. |
| MemoryPressure.OtherEntries | src/llm_serving/profiler/pressure.py:83-96 | After an entry into CRITICAL no key is found and no byte is charged; NORMAL, or a level already held, leaves the cache alone. |
| MemoryPressure.LevelOverRuns | src/llm_serving/profiler/watermark.py:80-89 | The stored level is the last observed one; at CRITICAL the latch is set, at NORMAL latch and escalation are cleared. |
| MemoryPressure.PressureOverRuns | src/llm_serving/profiler/pressure.py:57-96 | Over every run of observations: rejecting if and only if CRITICAL was observed since the last NORMAL, so HIGH does not clear it; with a cache, the escalation step counts the entries into HIGH since the last NORMAL. |
| CircuitBreaker.CircuitBreaker.AllowRequest | src/llm_serving/core/circuit_breaker.py:123-148 | Decision and new state for every stored state and time, including the lazy step from OPEN to HALF_OPEN. |
| CircuitBreaker.CircuitBreaker.RecordSuccess | src/llm_serving/core/circuit_breaker.py:156-171 | A success closes the breaker from every state and clears both counters. |
| CircuitBreaker.CircuitBreaker.RecordFailure | src/llm_serving/core/circuit_breaker.py:180-201 | A failure counts, stamps the time, reopens from HALF_OPEN and trips at the threshold. |
| CircuitBreaker.CircuitBreaker.Reset | src/llm_serving/core/circuit_breaker.py:209-213 | Reset restores the initial state. |
| CircuitBreaker.HistoryReflected | src/llm_serving/core/circuit_breaker.py:123-213 | In every run, for every setting, failure_count is the length of the all-failure suffix since the last reset, the state is CLOSED if and only if that is below the threshold (one below 1 acting as 1), and half_open_calls counts the probes since the breaker tripped. |
| CircuitBreaker.AdmissionExactly | src/llm_serving/core/circuit_breaker.py:97-148 | For every setting a request is admitted if and only if the failure streak is below the threshold (one below 1 acting as 1), or the recovery timeout has passed since the latest failure and fewer than half_open_max_calls probes are out. |
| CircuitBreaker.LateSuccessCloses | src/llm_serving/core/circuit_breaker.py:166-167 | After any history one success leaves the breaker CLOSED with no streak, also from OPEN. |
| CircuitBreaker.ZeroProbesExample | src/llm_serving/core/circuit_breaker.py:132-146 | A concrete breaker with half_open_max_calls 0 that, tripped once, refuses every later request at any time. |
| PriorityQueue.ScoreIsLexicographic | src/llm_serving/queue/priority_queue.py:91 | For timestamps in [0, 1e10) score order is lexicographic order on tier and time. |
| PriorityQueue.PriorityQueue.Enqueue | src/llm_serving/queue/priority_queue.py:112-137 | Adds exactly the request's member under its score and returns the depth after insertion. |
| PriorityQueue.PriorityQueue.Dequeue | src/llm_serving/queue/priority_queue.py:148-165 | Returns nothing if and only if the set is empty; otherwise removes and returns a member of least score. |
| PriorityQueue.NeverOvertaken | src/llm_serving/queue/priority_queue.py:112-165 | No later arrival of the same or a lower tier is dequeued first. |
| PriorityQueue.LeavesAfter | src/llm_serving/queue/priority_queue.py:112-165 | The items dequeued while an item waits are exactly those ahead of it at arrival and the later arrivals of a strictly higher tier. |
| PriorityQueue.WaitsExactly | src/llm_serving/queue/priority_queue.py:112-165 | The number of dequeues an item waits for is the number ahead of it at arrival plus the number of later strictly-higher-tier arrivals before it leaves. |
| Batcher.PrepareAndGenerate | src/llm_serving/core/batcher.py:264-312 | Left padding and masks do not leak: result i is the split output for prompt i alone in its row, at the batch's limit and temperature, for every mix of lengths. It reports prompt i's own length, counts exactly the tokens it hands back, the smaller of limit and batch width, and these are the prompt's own continuation and then padding. |
| Batcher.ResultIsSplit | src/llm_serving/core/inference.py:153-165 | The same of the split that the pipeline's executor stands for, for every batch. |
| Batcher.SingleIsSequential | src/llm_serving/core/inference.py:141-151 | A row's own output: each token is the library's choice after the prompt and the tokens before it, up to the limit or the first EOS. |
| Batcher.PadRow | src/llm_serving/core/batcher.py:277-290 | A padded row has the common width: padding under mask 0, then the prompt under mask 1; so the mask lets exactly the prompt through. |
| Batcher.LeftPad | src/llm_serving/core/batcher.py:275-292 | The padding loop gives every prompt such a row, in order. |
| Batcher.GenerateBatch | src/llm_serving/core/inference.py:133-173 | Result i is row i's part after the padded prompt, cut to request i's own limit, with the unpadded prompt length. |
| Batcher.SinglePrefix | src/llm_serving/core/inference.py:158-160 | Generating to a longer limit and truncating gives what the shorter limit gives. |
| Batcher.RowAgreesExactly | src/llm_serving/core/inference.py:153-165 | For one library, at the batch's temperature, a batched result equals the result of generating alone if and only if the request's own output fills the smaller of its limit and the batch's width. |
| Batcher.BatchAgreesExactly | src/llm_serving/core/batcher.py:267-312 | By what the requests say, before any call: a batched result equals the result of generating alone under every library if and only if the request asks for no token, or has the batch's largest temperature and either asks for one token or shares its prompt with the whole batch. |
| Batcher.BatchIsSingles | src/llm_serving/core/batcher.py:267-312 | At the batch's largest temperature, a request that fills its own limit, asks for at most one token or shares its prompt with the batch gets the tokens and counts of generating its prompt alone. |
| Batcher.EarlyStopIsPadded | src/llm_serving/core/inference.py:153-165 | A concrete batch in which an early stop is returned with a padding token counted as a completion token. |
| Batcher.BatchScheduler.Submit | src/llm_serving/core/batcher.py:147-160 | A submission gets a new waiting future of its own and joins the end of the queue; no other future changes. |
| Batcher.BatchScheduler.Drain | src/llm_serving/core/batcher.py:183-189 | The non-blocking drain moves what the drain specification moves. |
| Batcher.BatchScheduler.ProcessBatch | src/llm_serving/core/batcher.py:229-246 | When the executor is back: each waiting future gets the result in its item's own place if results reach that far, and the exception if they do not or the executor raised; done futures and all other futures stay. |
| Batcher.DrainIsFifo | src/llm_serving/core/batcher.py:183-189 | Draining moves a prefix of the queue in order and stops only at an empty queue or a full batch. |
| WorkerPool.InferenceWorkerPool.RegisterRequest | src/llm_serving/core/worker.py:105-108 | A fresh id joins `_pending` with one waiting future; no other future changes. |
| WorkerPool.InferenceWorkerPool.CancelRequest | src/llm_serving/core/worker.py:116-118 | The id leaves `_pending`; its future, if it waited, is cancelled, and a done one stays; no other future changes. |
| WorkerPool.InferenceWorkerPool.Settle | src/llm_serving/core/worker.py:238-240 | Popping and completing under the done guard gives a waiting future of a pending id that very outcome, leaves a done one, and touches no other. |
| WorkerPool.InferenceWorkerPool.CancelRemaining | src/llm_serving/core/worker.py:147-151 | After the end of stop nothing is pending, every future that waited is cancelled, and every future ever registered is done. |
| WorkerPool.RegistrySteps | src/llm_serving/core/worker.py:105-151 | Every registry operation keeps "absent from `_pending` means done" and changes no future that is done. |
| PipelineSafety.StepRegistered | src/llm_serving/core/worker.py:167-254 | Every step of every actor keeps the registry invariant, changes no done future, and leaves no request behind while it is pending. |
| PipelineSafety.StepDelivered | src/llm_serving/core/batcher.py:229-246 | Every step keeps every item carrying its own registered payload and tier, and every result in a future computed for that id: alone if batching is off, or by a batch that ran, in the place that held the id. |
| PipelineSafety.AllowKeepsUnwedged | src/llm_serving/core/circuit_breaker.py:132-146 | A granted probe is matched by one more outcome owed; a refusal changes neither side. |
| PipelineSafety.StepUnwedged | src/llm_serving/core/worker.py:199-245 | Every step without stop keeps: HALF_OPEN has between 1 and the maximum of probes out, and at least as many workers yet to record. |
| PipelineSafety.NoProbesWedges | src/llm_serving/core/circuit_breaker.py:132-146 | With half_open_max_calls below 1 a breaker that reads HALF_OPEN refuses now and at every later time. |
| PipelineConservation.StepAccounted | src/llm_serving/core/worker.py:167-254 | Every step without stop keeps the ledger of every id: an enqueued request in exactly one of sorted set, a worker's hand, batch queue, current batch, batch outcomes, left behind. |
| PipelineConservation.BatchAnswers | src/llm_serving/core/batcher.py:236-246 | With the accounts in balance, a batch that succeeds gives each item its result from its own place: none is skipped, shared or shifted; where inference raised or handed back too few, the item gets an exception. |
| PipelineConservation.StepOrdered | src/llm_serving/core/batcher.py:168-215 | Every step keeps the batches that ran, the current batch and the queue together equal to the submissions in order, and the batch within its bounds. |
| PipelineConservation.StepStaffed | src/llm_serving/core/worker.py:207-217 | Every step without stop keeps each submission under way awaited by a worker of its own. |
| PipelineConservation.WorkShrinks | src/llm_serving/core/worker.py:167-254 | Every worker or collector step decreases a rank of the work at hand. |
| PipelineConservation.StuckMeansDone | src/llm_serving/core/batcher.py:168-246 | No deadlock: when no worker or collector step is possible, every enqueued request has been left behind by its worker and no outcome is owed to the breaker. |
| PipelineRuns.RunSound | src/llm_serving/core/worker.py:105-254 | Every run of steps keeps all pipeline invariants together and changes no future that is done. |
| PipelineRuns.AbsentMeansDone | src/llm_serving/core/worker.py:105-118 | In every reachable state a registered future absent from `_pending` is done, and so is the future of every request a worker left behind. |
| PipelineRuns.OrphanIsDone | src/llm_serving/core/worker.py:176-183 | The future of a dequeued orphan was already done. |
| PipelineRuns.CompletedOnce | src/llm_serving/core/worker.py:238-254 | A future found done in a reachable state is unchanged after every continuation. |
| PipelineRuns.StopLeavesNoneWaiting | src/llm_serving/core/worker.py:141-151 | After stop, with no later registration, nothing is pending, every future that still waited is cancelled and every other keeps its outcome. |
| PipelineRuns.CorrectDelivery | src/llm_serving/core/batcher.py:231-246 | In every interleaving a future that gets a result gets one computed for the request it was registered for: by a run of its own if batching is off, or in its own place of a batch that ran and held it. |
| PipelineResults.ServeBatch | src/llm_serving/core/batcher.py:231-239 | The executor's method returns, for every batch, the list of results that the pipeline hands out. |
| PipelineResults.ResultIsAlone | src/llm_serving/core/batcher.py:147-246 | Over every run of the pipeline over the scheduler's own results, batching on or off: a request that no other exceeds in temperature, and that fills its limit, asks for at most one token or shares its prompt with all, gets the tokens and counts of generating its own prompt alone for its own max_tokens. |
| PipelineResults.AllResultsAreAlone | src/llm_serving/core/batcher.py:147-246 | If all registered requests share a temperature and fill their own limits, every result ever delivered is that of serving its request alone. |
| PipelineResults.BatchDelivers | src/llm_serving/core/batcher.py:229-246 | After a batch that succeeds, whatever happens next, the waiting future of item i receives the generated result i of that batch when its worker takes it, and for an unpadded request at the largest temperature this is the result of serving it alone. |
| PipelineRuns.OutcomeReachesFuture | src/llm_serving/core/worker.py:219-254 | In every reachable state, when a worker's own inference ends, a still waiting future gets the request's own result, or an exception exactly when inference failed, and the breaker's streak is cleared or extended to match. |
| PipelineRuns.ReplyReachesFuture | src/llm_serving/core/worker.py:175-217 | In every reachable state a dequeued orphan is dropped without asking the breaker; a refused request leaves `_pending`, its waiting future gets the exception and no outcome is recorded; an admitted one is submitted or run, its future untouched. |
| PipelineRuns.HandlerSteps | src/llm_serving/api/router.py:267-304 | In every reachable state: registering leaves a waiting, pending future before the enqueue; a timeout cancels it if it still waits; cancel_request takes the id out of `_pending`. |
| PipelineRuns.EnqueueStep | src/llm_serving/queue/priority_queue.py:112-137 | The pipeline's enqueue adds exactly the member that the class adds, with the request's own tier and payload. |
| PipelineRuns.DequeueStep | src/llm_serving/queue/priority_queue.py:148-165 | The pipeline's dequeue hands a worker a front member and takes out exactly that one. |
| PipelineRuns.BatchAnswerAwaited | src/llm_serving/core/batcher.py:231-246 | In every reachable state without stop, when a batch ends each of its items has the result from its own place, or an exception where inference raised or handed back too few, and a worker awaiting it. |
| PipelineRuns.BatchAnswerArrives | src/llm_serving/core/worker.py:207-254 | Whatever happens after a batch, the worker that takes an item's outcome completes the item's waiting future with the batch's result in its own place, or with an exception where there is none. |
| PipelineRuns.TakenOutcomeReachesFuture | src/llm_serving/core/worker.py:211-254 | In every reachable state a worker that takes a batch outcome completes a still waiting future with that very outcome, and records success or failure to match. |
| PipelineRuns.WaitingIsNotOvertaken | src/llm_serving/queue/priority_queue.py:112-165 | Over runs of the whole pipeline, from a reachable state without stop: while a request stays in the sorted set no worker pops one that it stands ahead of, by tier or by arrival within the tier. |
| PipelineRuns.ExactlyOnePlace | src/llm_serving/core/worker.py:167-254 | In every reachable state without stop each enqueued request is in exactly one place, and while its future waits it is still under way. |
| PipelineRuns.BatchesAreRuns | src/llm_serving/core/batcher.py:168-215 | In every reachable state without stop the collected batch is the contiguous run of submissions after the batches that ran, of 1 to max(1, max_batch_size) items and no more than num_workers. |
| PipelineRuns.EveryScheduleFinishes | src/llm_serving/core/worker.py:167-254 | From every reachable state without stop, worker and collector steps number at most the rank, whatever the order and the inference outcomes; once none is left every enqueued request's future is done and, with half_open_max_calls at least 1, the breaker is not HALF_OPEN. |
| PipelineRuns.ScheduleExists | src/llm_serving/core/worker.py:167-254 | From every such state some sequence of worker and collector steps reaches that end. |
| PipelineRuns.HalfOpenIsOwed | src/llm_serving/core/circuit_breaker.py:132-146 | In every reachable state without stop, HALF_OPEN implies 1 <= half_open_calls <= half_open_max_calls, at least half_open_calls workers between grant and record, and names one. |
| PipelineRuns.WedgedForever | src/llm_serving/core/circuit_breaker.py:142-146 | With half_open_max_calls below 1, once HALF_OPEN with no grant outstanding, no run of any actors ever changes the breaker. |
| PipelineRecovery.FailuresTrip | src/llm_serving/core/worker.py:199-245 | With at least one worker, batching on or off, requests whose inference raises take a quiet reachable pipeline with a CLOSED breaker to a quiet reachable one with an OPEN breaker, for every threshold. |
| PipelineRecovery.WedgeReachable | src/llm_serving/core/circuit_breaker.py:132-201 | With half_open_max_calls below 1 and at least one worker, some run without stop ends HALF_OPEN with no grant outstanding, the state that nothing changes again. |
| PipelineRecovery.RecoversExactly | src/llm_serving/core/circuit_breaker.py:132-201 | Every state that a run without stop reaches has a continuation that leaves HALF_OPEN if and only if half_open_max_calls is at least 1 or there is no worker. |
| PipelineRuns.RequestsStay | src/llm_serving/api/router.py:267-281 | The request an id was registered with never changes. |

## Left out

- PyTorch, HuggingFace, tokenizers and softmax: next-token rows are arbitrary distributions over exact reals, and temperature is part of the row.
- Floating-point rounding: scores near 3e10, `tostring` of tokens and tensor probabilities are exact reals.
- Speculative decoding of an empty prompt or with K below 1: the libraries reject both.
- Inference.GenerateWithCache: asks that the put of a miss returns (`PutReturnsExactly`), and assumes prefix keys without SHA-256 collisions, and a library that, given an empty suffix, continues from the cached state; the real library may refuse an empty forward pass.
- KV entries' creation times, `stats`, logging, and the thread lock of the cache: each locked section is one operation.
- Redis transport, script loading and the fail-open answer of the rate limiter, and several server processes sharing a queue.
- A clock that runs backwards under the token bucket's expiry: calls are in time order where stored times are compared with expiry.
- Batches with sampled tokens: the next token is a function of temperature and unmasked context, so seeds play no part there.
- Callbacks of the watermark monitor other than the pressure handler's: the monitor reports the transition and the handler runs its callback.
- The pipeline as objects sharing a heap: its state is one value, whose breaker, registry and drain parts are the specification functions of the classes.
- Polling an empty queue, which changes nothing, and the worker loop's re-check of its running flag: after stop begins a worker may take more steps in the model than in the code.
- Failure or cancellation of the enqueue after registration: the handler does not unregister on that path, and the enqueue is taken to succeed.
- A pool without circuit breaker, which behaves as one that always allows.
- Cancellation by stop in the breaker's and the conservation theorems: a cancelled worker drops its request and its outcome, which `StopLeavesNoneWaiting` covers on the registry's side.
- Streaming, health endpoints, schemas, middleware, error mapping, configuration, `lifecycle.py`, `loader.py`, `memory_estimator.py`, `tracker.py`, `metrics.py` beyond the counters, and load scripts: input and output, plumbing or easy members.
