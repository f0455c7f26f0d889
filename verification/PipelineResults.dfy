/**
 The pipeline over the batch scheduler's own results: when every request is answered as if it had been served alone.
 */
module PipelineResults {
  import opened WorkerPool
  import opened PriorityQueue
  import opened Pipeline
  import opened PipelineSafety
  import opened PipelineRuns
  import opened Batcher

  type Tokenizer = string -> seq<nat>

  function ItemOf(tokenize: Tokenizer, p: Payload): BatchItem {
    BatchItem(tokenize(p.prompt), p.maxTokens, p.temperature)
  }

  function ItemsOf(tokenize: Tokenizer, ps: seq<Payload>): (items: seq<BatchItem>)
    ensures |items| == |ps| && forall i | 0 <= i < |ps| :: items[i] == ItemOf(tokenize, ps[i])
  {
    seq(|ps|, i requires 0 <= i < |ps| => ItemOf(tokenize, ps[i]))
  }

  /** What PrepareAndGenerate returns for a batch of payloads. */
  function BatchOf(lib: Library, tokenize: Tokenizer, ps: seq<Payload>): (results: seq<Result>)
    ensures |results| == |ps|
  {
    seq(|ps|, i requires 0 <= i < |ps| => ResultOf(lib, ItemsOf(tokenize, ps), i))
  }

  /** The executor's half of the pipeline: generate alone, or prepare and generate a batch. */
  function Serving(lib: Library, tokenize: Tokenizer, breaker: Breaker.Settings, batched: bool, maxBatch: nat,
                   numWorkers: nat)
    : Config<Result>
  {
    Config((p: Payload) => Alone(lib, ItemOf(tokenize, p)), (ps: seq<Payload>) => BatchOf(lib, tokenize, ps),
           breaker, batched, maxBatch, numWorkers)
  }

  /** The executor's method returns what the pipeline's configuration says. */
  method ServeBatch(lib: Library, tokenize: Tokenizer, ps: seq<Payload>) returns (results: seq<Result>)
    requires ps != []
    ensures results == BatchOf(lib, tokenize, ps)
  {
    results := PrepareAndGenerate(lib, ItemsOf(tokenize, ps));
  }

  /** No registered request asks for a higher temperature than this one. */
  ghost predicate Hottest(requests: map<string, Request>, id: string)
    requires id in requests
  {
    forall other | other in requests :: requests[other].payload.temperature <= requests[id].payload.temperature
  }

  /** The request fills its limit, asks for at most one token, or every registered request has its prompt. */
  ghost predicate Unpadded(lib: Library, tokenize: Tokenizer, requests: map<string, Request>, id: string)
    requires id in requests
  {
    var item := ItemOf(tokenize, requests[id].payload);
    || Fills(lib, item)
    || item.maxTokens <= 1
    || forall other | other in requests :: tokenize(requests[other].payload.prompt) == item.prompt
  }

  lemma PlaceIsAlone(lib: Library, tokenize: Tokenizer, requests: map<string, Request>, batch: seq<Item>, i: nat)
    requires i < |batch| && AllOwn(requests, batch)
    requires Hottest(requests, batch[i].requestId) && Unpadded(lib, tokenize, requests, batch[i].requestId)
    ensures BatchOf(lib, tokenize, Payloads(batch))[i] == Alone(lib, ItemOf(tokenize, batch[i].payload))
  {
    var items := ItemsOf(tokenize, Payloads(batch));
    assert Own(requests, batch[i]);
    forall j | 0 <= j < |batch| ensures items[j] == ItemOf(tokenize, batch[j].payload) && Own(requests, batch[j]) {}
    var k :| 0 <= k < |items| && items[k].temperature == MaxTemperature(items);
    assert items[k].temperature <= items[i].temperature;
    BatchIsSingles(lib, items, i);
  }

  lemma RanResultIsAlone(lib: Library, tokenize: Tokenizer, cfg: Config<Result>, requests: map<string, Request>,
                         batch: seq<Item>, id: string, value: Result)
    requires forall ps :: cfg.genBatch(ps) == BatchOf(lib, tokenize, ps)
    requires AllOwn(requests, batch) && id in requests && AnsweredBy(cfg, batch, id, requests[id].payload, value)
    requires Hottest(requests, id) && Unpadded(lib, tokenize, requests, id)
    ensures value == Alone(lib, ItemOf(tokenize, requests[id].payload))
  {
    var i: nat :| i < |batch| && HasAnswer(cfg, batch, i, id, requests[id].payload, value);
    PlaceIsAlone(lib, tokenize, requests, batch, i);
  }

  /**
   Over every run, with batching on or off: if no other request is hotter and the request is not padded, its future,
   once it has a result, has the tokens and counts of generating its own prompt alone for its own max_tokens.
   */
  lemma ResultIsAlone(lib: Library, tokenize: Tokenizer, breaker: Breaker.Settings, batched: bool, maxBatch: nat,
                      numWorkers: nat, s: State<Result>, id: string)
    requires Reachable(Serving(lib, tokenize, breaker, batched, maxBatch, numWorkers), s)
    requires id in s.reg.futures && s.reg.futures[id].Done?
    requires id in s.requests && Hottest(s.requests, id) && Unpadded(lib, tokenize, s.requests, id)
    ensures s.reg.futures[id].value == Alone(lib, ItemOf(tokenize, s.requests[id].payload))
  {
    var cfg := Serving(lib, tokenize, breaker, batched, maxBatch, numWorkers);
    var payload, value := s.requests[id].payload, s.reg.futures[id].value;
    ReachableSound(cfg, s);
    assert FromOwn(cfg, s.ran, id, payload, value);
    if batched || value != cfg.gen(payload) {
      var j :| 0 <= j < |s.ran| && AnsweredBy(cfg, s.ran[j], id, payload, value);
      RanResultIsAlone(lib, tokenize, cfg, s.requests, s.ran[j], id, value);
    }
  }

  /** One temperature and limits that are filled: every result the pipeline ever delivers is the request's own. */
  lemma AllResultsAreAlone(lib: Library, tokenize: Tokenizer, breaker: Breaker.Settings, batched: bool, maxBatch: nat,
                           numWorkers: nat, s: State<Result>)
    requires Reachable(Serving(lib, tokenize, breaker, batched, maxBatch, numWorkers), s)
    requires forall a, b | a in s.requests && b in s.requests ::
      s.requests[a].payload.temperature == s.requests[b].payload.temperature
    requires forall a | a in s.requests :: Fills(lib, ItemOf(tokenize, s.requests[a].payload))
    ensures forall id | id in s.reg.futures && s.reg.futures[id].Done? ::
      id in s.requests && s.reg.futures[id].value == Alone(lib, ItemOf(tokenize, s.requests[id].payload))
  {
    ReachableSound(Serving(lib, tokenize, breaker, batched, maxBatch, numWorkers), s);
    forall id | id in s.reg.futures && s.reg.futures[id].Done?
      ensures id in s.requests && s.reg.futures[id].value == Alone(lib, ItemOf(tokenize, s.requests[id].payload))
    {
      ResultIsAlone(lib, tokenize, breaker, batched, maxBatch, numWorkers, s, id);
    }
  }

  /**
   Results do arrive: after a batch that succeeds, whatever happens next, the worker that takes the outcome of item i
   puts the batch's own result i into the item's future, if that still waits; and for a request that no other exceeds in
   temperature and that is not padded, this is the result of serving it alone.
   */
  lemma BatchDelivers(lib: Library, tokenize: Tokenizer, breaker: Breaker.Settings, maxBatch: nat, numWorkers: nat,
                      s: State<Result>, i: nat, later: seq<Step>, w: nat, now: real)
    requires var cfg := Serving(lib, tokenize, breaker, true, maxBatch, numWorkers);
      && Reachable(cfg, s) && !s.stopping && Enabled(cfg, s, ExecuteDone(true)) && i < |s.batch|
      && Possible(cfg, Next(cfg, s, ExecuteDone(true)), later)
      && var at := Run(cfg, Next(cfg, s, ExecuteDone(true)), later);
      && s.batch[i].requestId !in at.finished && s.batch[i].requestId in at.reg.futures
      && at.reg.futures[s.batch[i].requestId].Waiting?
      && Enabled(cfg, at, TakeOutcome(w, now)) && at.workers[w].item.requestId == s.batch[i].requestId
    ensures var cfg := Serving(lib, tokenize, breaker, true, maxBatch, numWorkers); var id := s.batch[i].requestId;
      var at := Run(cfg, Next(cfg, s, ExecuteDone(true)), later);
      var after := Next(cfg, at, TakeOutcome(w, now)).reg.futures;
      && id in s.requests && id in after
      && after[id] == Done(ResultOf(lib, ItemsOf(tokenize, Payloads(s.batch)), i))
      && (Hottest(s.requests, id) && Unpadded(lib, tokenize, s.requests, id) ==>
            after[id] == Done(Alone(lib, ItemOf(tokenize, s.requests[id].payload))))
  {
    var cfg, id := Serving(lib, tokenize, breaker, true, maxBatch, numWorkers), s.batch[i].requestId;
    ReachableSound(cfg, s);
    BatchAnswerArrives(cfg, s, true, i, later, w, now);
    assert Own(s.requests, s.batch[i]);
    assert cfg.genBatch(Payloads(s.batch)) == BatchOf(lib, tokenize, Payloads(s.batch));
    if Hottest(s.requests, id) && Unpadded(lib, tokenize, s.requests, id) {
      PlaceIsAlone(lib, tokenize, s.requests, s.batch, i);
    }
  }
}
