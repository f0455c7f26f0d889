/** What one step of the pipeline keeps of the breaker, of the future registry and of the payloads under way. */
module PipelineSafety {
  import opened WorkerPool
  import opened PriorityQueue
  import opened Pipeline

  // ---------------------------------------------------------------- the breaker is never wedged

  /** With owed grants outstanding: HALF_OPEN has at least one probe out, and every probe out is owed an outcome. */
  ghost predicate Unwedged(cfg: Breaker.Settings, b: Breaker.Breaker, owed: nat) {
    if b.state == Breaker.HALF_OPEN then 1 <= b.halfOpenCalls <= cfg.halfOpenMaxCalls && b.halfOpenCalls <= owed
    else b.halfOpenCalls == 0
  }

  /** Workers between a granted allow_request and their record call. */
  function Owed<R>(s: State<R>): nat {
    Tally(s.workers, Owes, "")
  }

  lemma AllowKeepsUnwedged(cfg: Breaker.Settings, b: Breaker.Breaker, owed: nat, now: real)
    requires cfg.halfOpenMaxCalls >= 1 && Unwedged(cfg, b, owed)
    ensures var (b', allowed) := Breaker.AllowSpec(cfg, b, now); Unwedged(cfg, b', if allowed then owed + 1 else owed)
  {
  }

  lemma RecordLeavesHalfOpen(cfg: Breaker.Settings, b: Breaker.Breaker, owed: nat, now: real)
    requires Unwedged(cfg, b, owed)
    ensures Breaker.SuccessSpec(b).state != Breaker.HALF_OPEN && Breaker.SuccessSpec(b).halfOpenCalls == 0
    ensures Breaker.FailureSpec(cfg, b, now).state != Breaker.HALF_OPEN
    ensures Breaker.FailureSpec(cfg, b, now).halfOpenCalls == 0
  {
  }

  /** Without room for a single probe, a breaker that reads HALF_OPEN refuses the call and every later one. */
  lemma NoProbesWedges(cfg: Breaker.Settings, b: Breaker.Breaker, now: real, later: real)
    requires cfg.halfOpenMaxCalls < 1 && Breaker.Seen(cfg, b, now) == Breaker.HALF_OPEN
    ensures var (b', allowed) := Breaker.AllowSpec(cfg, b, now);
      && !allowed && b'.state == Breaker.HALF_OPEN && Breaker.AllowSpec(cfg, b', later) == (b', false)
      && (b.state == Breaker.HALF_OPEN ==> b' == b)
  {
  }

  lemma ReplyUnwedged<R>(cfg: Config<R>, s: State<R>, w: nat, item: Item, now: real)
    requires cfg.breaker.halfOpenMaxCalls >= 1 && w < |s.workers| && s.workers[w] == Holding(item)
    requires Unwedged(cfg.breaker, s.breaker, Owed(s))
    ensures var s' := AfterReply(cfg, s, w, item, now); Unwedged(cfg.breaker, s'.breaker, Owed(s'))
  {
    AllowKeepsUnwedged(cfg.breaker, s.breaker, Owed(s), now);
    TallyUpdate(s.workers, Owes, "", w, Polling);
    TallyUpdate(s.workers, Owes, "", w, Submitted(item));
    TallyUpdate(s.workers, Owes, "", w, Running(item));
  }

  lemma SettleUnwedged<R>(cfg: Config<R>, s: State<R>, w: nat, id: string, outcome: Future<R>, now: real)
    requires w < |s.workers| && Unwedged(cfg.breaker, s.breaker, Owed(s))
    ensures var s' := Settle(cfg, s, w, id, outcome, now); Unwedged(cfg.breaker, s'.breaker, Owed(s'))
  {
    RecordLeavesHalfOpen(cfg.breaker, s.breaker, Owed(s), now);
  }

  lemma StepUnwedged<R>(cfg: Config<R>, s: State<R>, step: Step)
    requires cfg.breaker.halfOpenMaxCalls >= 1 && Enabled(cfg, s, step) && !Next(cfg, s, step).stopping
    requires Unwedged(cfg.breaker, s.breaker, Owed(s))
    ensures Unwedged(cfg.breaker, Next(cfg, s, step).breaker, Owed(Next(cfg, s, step)))
  {
    match step
    case Pop(w, k) => TallyUpdate(s.workers, Owes, "", w, Holding(s.zset[k]));
    case Resume(w, now) => ReplyUnwedged(cfg, s, w, s.workers[w].item, now);
    case FinishRun(w, ok, now) =>
      var item := s.workers[w].item;
      SettleUnwedged(cfg, s, w, item.requestId, if ok then Done(cfg.gen(item.payload)) else Raised, now);
    case TakeOutcome(w, now) =>
      var id := s.workers[w].item.requestId;
      SettleUnwedged(cfg, s, w, id, s.outcomes[id], now);
    case _ =>
  }

  // ---------------------------------------------------------------- the future registry

  /**
   Every id ever registered has one future, one that left _pending is done, and a request left behind left _pending.
   */
  ghost predicate Tracked<R>(
    reg: Registry<R>, requests: map<string, Request>, handlers: map<string, Handler>, finished: set<string>)
  {
    && Kept(reg)
    && reg.futures.Keys == requests.Keys == handlers.Keys
    && finished !! reg.pending && finished <= handlers.Keys
  }

  ghost predicate Registered<R>(s: State<R>) {
    Tracked(s.reg, s.requests, s.handlers, s.finished)
  }

  ghost predicate OutcomesDone<R>(s: State<R>) {
    forall id | id in s.outcomes :: IsDone(s.outcomes[id])
  }

  lemma {:induction false} ResolveDone<R>(cfg: Config<R>, outcomes: map<string, Future<R>>, batch: seq<Item>, ok: bool,
                                          n: nat)
    requires n <= |batch| && forall id | id in outcomes :: IsDone(outcomes[id])
    ensures forall id | id in Resolve(cfg, outcomes, batch, ok, n) :: IsDone(Resolve(cfg, outcomes, batch, ok, n)[id])
  {
    if n > 0 { ResolveDone(cfg, outcomes, batch, ok, n - 1); }
  }

  lemma StepOutcomesDone<R>(cfg: Config<R>, s: State<R>, step: Step)
    requires Enabled(cfg, s, step) && OutcomesDone(s)
    ensures OutcomesDone(Next(cfg, s, step))
  {
    if step.ExecuteDone? { ResolveDone(cfg, s.outcomes, s.batch, step.ok, |s.batch|); }
  }

  // ---------------------------------------------------------------- payloads and results

  /** The item carries the payload and the tier its id was registered with. */
  predicate Own(requests: map<string, Request>, x: Item) {
    x.requestId in requests && Request(x.priority, x.payload) == requests[x.requestId]
  }

  ghost predicate AllOwn(requests: map<string, Request>, items: seq<Item>) {
    forall i | 0 <= i < |items| :: Own(requests, items[i])
  }

  ghost predicate WorkersOwn(requests: map<string, Request>, workers: seq<Worker>) {
    forall w | 0 <= w < |workers| :: workers[w].Polling? || workers[w].Stopped? || Own(requests, workers[w].item)
  }

  /** Some place of the batch holds the id with its payload, and the batch's result there is the value. */
  ghost predicate AnsweredBy<R>(cfg: Config<R>, batch: seq<Item>, id: string, payload: Payload, value: R) {
    exists i: nat :: i < |batch| && HasAnswer(cfg, batch, i, id, payload, value)
  }

  ghost predicate HasAnswer<R>(cfg: Config<R>, batch: seq<Item>, i: nat, id: string, payload: Payload, value: R)
    requires i < |batch|
  {
    var results := cfg.genBatch(Payloads(batch));
    batch[i].requestId == id && batch[i].payload == payload && i < |results| && results[i] == value
  }

  /**
   A result computed for the id from its own payload: by a run of its own if batching is off, or by a batch that ran, in
   the place that held the id.
   */
  ghost predicate FromOwn<R>(cfg: Config<R>, ran: seq<seq<Item>>, id: string, payload: Payload, value: R) {
    || (!cfg.batched && value == cfg.gen(payload))
    || exists j :: 0 <= j < |ran| && AnsweredBy(cfg, ran[j], id, payload, value)
  }

  /** Every value among the futures is one computed for its id from the id's own payload. */
  ghost predicate OwnResults<R>(cfg: Config<R>, ran: seq<seq<Item>>, requests: map<string, Request>,
                                futures: map<string, Future<R>>) {
    forall id | id in futures ::
      id in requests && (futures[id].Done? ==> FromOwn(cfg, ran, id, requests[id].payload, futures[id].value))
  }

  ghost predicate RanOwn(requests: map<string, Request>, ran: seq<seq<Item>>) {
    forall j | 0 <= j < |ran| :: AllOwn(requests, ran[j])
  }

  /** Workers run requests themselves only when batching is off. */
  ghost predicate Direct<R>(cfg: Config<R>, workers: seq<Worker>) {
    forall w | 0 <= w < |workers| :: workers[w].Running? ==> !cfg.batched
  }

  ghost predicate Delivered<R>(cfg: Config<R>, s: State<R>) {
    && AllOwn(s.requests, s.zset) && AllOwn(s.requests, s.queue) && AllOwn(s.requests, s.batch)
    && RanOwn(s.requests, s.ran) && WorkersOwn(s.requests, s.workers) && Direct(cfg, s.workers)
    && OwnResults(cfg, s.ran, s.requests, s.outcomes) && OwnResults(cfg, s.ran, s.requests, s.reg.futures)
  }

  lemma AnswerOwn<R>(cfg: Config<R>, ran: seq<seq<Item>>, batch: seq<Item>, ok: bool, i: nat)
    requires i < |batch|
    ensures var a := Answer(cfg, batch, ok, i); a.Done? ==>
      FromOwn(cfg, ran + [batch], batch[i].requestId, batch[i].payload, a.value)
  {
    var a := Answer(cfg, batch, ok, i);
    if a.Done? {
      assert HasAnswer(cfg, batch, i, batch[i].requestId, batch[i].payload, a.value);
      assert AnsweredBy(cfg, batch, batch[i].requestId, batch[i].payload, a.value);
      assert (ran + [batch])[|ran|] == batch;
    }
  }

  lemma FromOwnGrows<R>(cfg: Config<R>, ran: seq<seq<Item>>, batch: seq<Item>, id: string, payload: Payload, value: R)
    requires FromOwn(cfg, ran, id, payload, value)
    ensures FromOwn(cfg, ran + [batch], id, payload, value)
  {
    if cfg.batched || value != cfg.gen(payload) {
      var j :| 0 <= j < |ran| && AnsweredBy(cfg, ran[j], id, payload, value);
      assert (ran + [batch])[j] == ran[j];
    }
  }

  lemma OwnResultsGrow<R>(
    cfg: Config<R>, ran: seq<seq<Item>>, batch: seq<Item>, requests: map<string, Request>,
    futures: map<string, Future<R>>)
    requires OwnResults(cfg, ran, requests, futures)
    ensures OwnResults(cfg, ran + [batch], requests, futures)
  {
    forall id | id in futures && futures[id].Done?
      ensures FromOwn(cfg, ran + [batch], id, requests[id].payload, futures[id].value)
    {
      FromOwnGrows(cfg, ran, batch, id, requests[id].payload, futures[id].value);
    }
  }

  lemma {:induction false} ResolveOwn<R>(cfg: Config<R>, ran: seq<seq<Item>>, requests: map<string, Request>,
                                         outcomes: map<string, Future<R>>, batch: seq<Item>, ok: bool, n: nat)
    requires n <= |batch| && OwnResults(cfg, ran + [batch], requests, outcomes) && AllOwn(requests, batch)
    ensures OwnResults(cfg, ran + [batch], requests, Resolve(cfg, outcomes, batch, ok, n))
  {
    if n > 0 {
      ResolveOwn(cfg, ran, requests, outcomes, batch, ok, n - 1);
      AnswerOwn(cfg, ran, batch, ok, n - 1);
      assert Own(requests, batch[n - 1]);
    }
  }

  lemma ExecuteDelivered<R>(cfg: Config<R>, s: State<R>, ok: bool)
    requires Enabled(cfg, s, ExecuteDone(ok)) && Delivered(cfg, s)
    ensures Delivered(cfg, Next(cfg, s, ExecuteDone(ok)))
  {
    OwnResultsGrow(cfg, s.ran, s.batch, s.requests, s.outcomes);
    OwnResultsGrow(cfg, s.ran, s.batch, s.requests, s.reg.futures);
    ResolveOwn(cfg, s.ran, s.requests, s.outcomes, s.batch, ok, |s.batch|);
  }

  lemma DrainOwn(requests: map<string, Request>, max: nat, batch: seq<Item>, queue: seq<Item>)
    requires AllOwn(requests, batch) && AllOwn(requests, queue)
    ensures var (b, q) := Batcher.DrainSpec(max, batch, queue); AllOwn(requests, b) && AllOwn(requests, q)
  {
    var both := batch + queue;
    var drained := Batcher.DrainSpec(max, batch, queue);
    Batcher.DrainIsFifo(max, batch, queue);
    assert AllOwn(requests, both);
    forall i | 0 <= i < |drained.0| ensures Own(requests, drained.0[i]) { assert drained.0[i] == both[i]; }
    forall i | 0 <= i < |drained.1| ensures Own(requests, drained.1[i]) {
      assert drained.1[i] == both[|drained.0| + i];
    }
  }

  lemma RegisterDelivered<R>(cfg: Config<R>, s: State<R>, id: string, request: Request)
    requires Delivered(cfg, s) && id !in s.requests
    ensures var requests := s.requests[id := request];
      && AllOwn(requests, s.zset) && AllOwn(requests, s.queue) && AllOwn(requests, s.batch)
      && RanOwn(requests, s.ran) && WorkersOwn(requests, s.workers)
      && OwnResults(cfg, s.ran, requests, s.outcomes) && OwnResults(cfg, s.ran, requests, s.reg.futures[id := Waiting])
  {
    var requests := s.requests[id := request];
    forall id' | id' in s.reg.futures && id' != id ensures id' in requests && requests[id'] == s.requests[id'] {}
    forall id' | id' in s.outcomes ensures id' in requests && requests[id'] == s.requests[id'] {}
  }

  lemma OwnUpdate(requests: map<string, Request>, workers: seq<Worker>, w: nat, item: Item)
    requires WorkersOwn(requests, workers) && w < |workers| && Own(requests, item)
    ensures WorkersOwn(requests, workers[w := Polling]) && WorkersOwn(requests, workers[w := Holding(item)])
    ensures WorkersOwn(requests, workers[w := Submitted(item)]) && WorkersOwn(requests, workers[w := Running(item)])
  {
  }

  lemma OwnSettle<R>(cfg: Config<R>, ran: seq<seq<Item>>, requests: map<string, Request>, reg: Registry<R>, id: string,
                     outcome: Future<R>)
    requires OwnResults(cfg, ran, requests, reg.futures)
    requires outcome.Done? ==> id in requests && FromOwn(cfg, ran, id, requests[id].payload, outcome.value)
    ensures OwnResults(cfg, ran, requests, SettleSpec(reg, id, outcome).futures)
  {
  }

  lemma ReplyDelivered<R>(cfg: Config<R>, s: State<R>, w: nat, item: Item, now: real)
    requires Delivered(cfg, s) && w < |s.workers| && Own(s.requests, item)
    ensures Delivered(cfg, AfterReply(cfg, s, w, item, now))
  {
    ReplyShape(cfg, s, w, item, now);
    OwnUpdate(s.requests, s.workers, w, item);
    OwnSettle(cfg, s.ran, s.requests, s.reg, item.requestId, Raised);
  }

  lemma SettleDelivered<R>(cfg: Config<R>, s: State<R>, w: nat, item: Item, outcome: Future<R>, now: real)
    requires Delivered(cfg, s) && w < |s.workers| && Own(s.requests, item)
    requires outcome.Done? ==> FromOwn(cfg, s.ran, item.requestId, item.payload, outcome.value)
    ensures Delivered(cfg, Settle(cfg, s, w, item.requestId, outcome, now))
  {
    OwnUpdate(s.requests, s.workers, w, item);
    OwnSettle(cfg, s.ran, s.requests, s.reg, item.requestId, outcome);
  }

  lemma PopDelivered(requests: map<string, Request>, workers: seq<Worker>, zset: seq<Item>, w: nat, k: nat)
    requires AllOwn(requests, zset) && WorkersOwn(requests, workers) && w < |workers| && k < |zset|
    ensures AllOwn(requests, zset[..k] + zset[k + 1..]) && WorkersOwn(requests, workers[w := Holding(zset[k])])
  {
    OwnUpdate(requests, workers, w, zset[k]);
  }

  lemma HandlerDelivered<R>(cfg: Config<R>, s: State<R>, step: Step)
    requires Enabled(cfg, s, step) && (step.Register? || step.ZAdd? || step.Expire? || step.Unregister?)
    requires Delivered(cfg, s) && Registered(s)
    ensures Delivered(cfg, Next(cfg, s, step))
  {
    match step
    case Register(id, request) => RegisterDelivered(cfg, s, id, request);
    case Unregister(id) => OwnSettle(cfg, s.ran, s.requests, s.reg, id, Cancelled);
    case _ =>
  }

  lemma WorkerDelivered<R>(cfg: Config<R>, s: State<R>, step: Step)
    requires Enabled(cfg, s, step) && (step.Pop? || step.FinishRun? || step.TakeOutcome?)
    requires Delivered(cfg, s)
    ensures Delivered(cfg, Next(cfg, s, step))
  {
    match step
    case Pop(w, k) => PopDelivered(s.requests, s.workers, s.zset, w, k);
    case FinishRun(w, ok, now) =>
      var item := s.workers[w].item;
      SettleDelivered(cfg, s, w, item, if ok then Done(cfg.gen(item.payload)) else Raised, now);
    case TakeOutcome(w, now) =>
      var item := s.workers[w].item;
      SettleDelivered(cfg, s, w, item, s.outcomes[item.requestId], now);
  }

  lemma StepDelivered<R>(cfg: Config<R>, s: State<R>, step: Step)
    requires Enabled(cfg, s, step) && Delivered(cfg, s) && Registered(s)
    ensures Delivered(cfg, Next(cfg, s, step))
  {
    match step
    case Register(_, _) => HandlerDelivered(cfg, s, step);
    case ZAdd(_, _) => HandlerDelivered(cfg, s, step);
    case Expire(_) => HandlerDelivered(cfg, s, step);
    case Unregister(_) => HandlerDelivered(cfg, s, step);
    case Resume(w, now) => ReplyDelivered(cfg, s, w, s.workers[w].item, now);
    case Pop(_, _) => WorkerDelivered(cfg, s, step);
    case FinishRun(_, _, _) => WorkerDelivered(cfg, s, step);
    case TakeOutcome(_, _) => WorkerDelivered(cfg, s, step);
    case Flush => DrainOwn(s.requests, cfg.maxBatch, s.batch, s.queue);
    case ExecuteDone(ok) => ExecuteDelivered(cfg, s, ok);
    case _ =>
  }

  // ---------------------------------------------------------------- one step of the registry

  lemma SettleTracked<R>(
    reg: Registry<R>, requests: map<string, Request>, handlers: map<string, Handler>, finished: set<string>,
    id: string, outcome: Future<R>)
    requires Tracked(reg, requests, handlers, finished) && id in handlers && IsDone(outcome)
    ensures var reg' := SettleSpec(reg, id, outcome);
      Tracked(reg', requests, handlers, finished + {id}) && Completes(reg, reg')
    ensures id !in reg.pending ==> Tracked(reg, requests, handlers, finished + {id})
  {
    RegistrySteps(reg, id, outcome);
  }

  lemma ReplyRegistered<R>(cfg: Config<R>, s: State<R>, w: nat, item: Item, now: real)
    requires Registered(s) && w < |s.workers| && item.requestId in s.handlers
    ensures var s' := AfterReply(cfg, s, w, item, now); Registered(s') && Completes(s.reg, s'.reg)
  {
    SettleTracked(s.reg, s.requests, s.handlers, s.finished, item.requestId, Raised);
  }

  lemma SettleRegistered<R>(cfg: Config<R>, s: State<R>, w: nat, id: string, outcome: Future<R>, now: real)
    requires Registered(s) && w < |s.workers| && id in s.handlers && IsDone(outcome)
    ensures var s' := Settle(cfg, s, w, id, outcome, now); Registered(s') && Completes(s.reg, s'.reg)
  {
    SettleTracked(s.reg, s.requests, s.handlers, s.finished, id, outcome);
  }

  lemma HandlerRegistered<R>(cfg: Config<R>, s: State<R>, step: Step)
    requires Enabled(cfg, s, step) && Registered(s) && (step.Register? || step.Expire? || step.Unregister?)
    ensures Registered(Next(cfg, s, step)) && Completes(s.reg, Next(cfg, s, step).reg)
  {
    RegistrySteps(s.reg, step.id, Cancelled);
  }

  lemma StepRegistered<R>(cfg: Config<R>, s: State<R>, step: Step)
    requires Enabled(cfg, s, step) && Registered(s) && OutcomesDone(s) && WorkersOwn(s.requests, s.workers)
    ensures Registered(Next(cfg, s, step)) && Completes(s.reg, Next(cfg, s, step).reg)
  {
    match step
    case Register(_, _) => HandlerRegistered(cfg, s, step);
    case Expire(_) => HandlerRegistered(cfg, s, step);
    case Unregister(_) => HandlerRegistered(cfg, s, step);
    case Resume(w, now) => ReplyRegistered(cfg, s, w, s.workers[w].item, now);
    case FinishRun(w, ok, now) =>
      var item := s.workers[w].item;
      SettleRegistered(cfg, s, w, item.requestId, if ok then Done(cfg.gen(item.payload)) else Raised, now);
    case TakeOutcome(w, now) =>
      var id := s.workers[w].item.requestId;
      SettleRegistered(cfg, s, w, id, s.outcomes[id], now);
    case StopEnd => RegistrySteps(s.reg, "", Raised);
    case _ =>
  }
}
