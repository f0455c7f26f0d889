/**
 The serving pipeline as a transition system: api/router.py create_completion, queue/priority_queue.py, core/worker.py,
 core/circuit_breaker.py and core/batcher.py on one event loop. A step is a stretch of code between two awaits.
 */
module Pipeline {
  import opened Options
  import opened WorkerPool
  import opened PriorityQueue
  import Breaker = CircuitBreaker
  import Batcher

  /** What inference computes for one request, and the list of results it computes for a batch. */
  datatype Config<!R> = Config(
    gen: Payload -> R, genBatch: seq<Payload> -> seq<R>, breaker: Breaker.Settings,
    batched: bool, maxBatch: nat, numWorkers: nat)

  datatype Request = Request(priority: int, payload: Payload)

  /** Where a worker stands: at dequeue, holding a reply, awaiting its batch future or the executor, or ended. */
  datatype Worker = Polling | Holding(item: Item) | Submitted(item: Item) | Running(item: Item) | Stopped

  /** Where a request handler stands. */
  datatype Handler = Enqueuing | Awaiting | GivingUp | Gone

  datatype Collector = Idle | Gathering | Executing

  /**
   The event loop's whole state: registry and handlers, the sorted set, the workers, the breaker, the batch scheduler,
   and outcomes, the batch futures that are done and not yet taken. The ids enqueued and left behind, and the items
   submitted and the batches ran, are recorded only to state what the runs keep.
   */
  datatype State<R> = State(
    reg: Registry<R>,
    requests: map<string, Request>,
    handlers: map<string, Handler>,
    zset: seq<Item>,
    workers: seq<Worker>,
    breaker: Breaker.Breaker,
    queue: seq<Item>,
    collector: Collector,
    batch: seq<Item>,
    outcomes: map<string, Future<R>>,
    enqueued: set<string>,
    finished: set<string>,
    submitted: seq<Item>,
    ran: seq<seq<Item>>,
    stopping: bool)

  function Initial<R>(cfg: Config<R>): State<R> {
    State(Registry({}, map[]), map[], map[], [], seq(cfg.numWorkers, _ => Polling), Breaker.FRESH,
          [], Idle, [], map[], {}, {}, [], [], false)
  }

  /**
   Handlers: register, the enqueue, a timeout or disconnect, the cancel_request after it, waking with a done future.
   Workers: the queue hands over an item; the reply is acted on; inference ends; a batch future is done.
   Collector: one item gathered; batch full or timed out, and sent; the executor is back. Stop: begun, one worker
   cancelled, all gone.
   */
  datatype Step =
    | Register(id: string, request: Request)
    | ZAdd(id: string, now: real)
    | Expire(id: string)
    | Unregister(id: string)
    | Receive(id: string)
    | Pop(w: nat, k: nat)
    | Resume(w: nat, now: real)
    | FinishRun(w: nat, ok: bool, now: real)
    | Collect
    | Flush
    | ExecuteDone(ok: bool)
    | TakeOutcome(w: nat, now: real)
    | StopBegin
    | StopWorker(w: nat)
    | StopEnd

  function Members(items: seq<Item>): set<Item> {
    set i | 0 <= i < |items| :: items[i]
  }

  predicate At<R>(s: State<R>, id: string, h: Handler) {
    id in s.handlers && s.handlers[id] == h
  }

  ghost predicate Enabled<R>(cfg: Config<R>, s: State<R>, step: Step) {
    match step
    case Register(id, _) => id !in s.handlers
    case ZAdd(id, _) => At(s, id, Enqueuing) && id in s.requests
    case Expire(id) => At(s, id, Awaiting)
    case Unregister(id) => At(s, id, GivingUp)
    case Receive(id) => At(s, id, Awaiting) && id in s.reg.futures && IsDone(s.reg.futures[id])
    case Pop(w, k) =>
      w < |s.workers| && s.workers[w] == Polling && k < |s.zset| && IsFront(Members(s.zset), s.zset[k])
    case Resume(w, _) => w < |s.workers| && s.workers[w].Holding?
    case FinishRun(w, _, _) => w < |s.workers| && s.workers[w].Running?
    case Collect => s.queue != [] && (s.collector == Idle || (s.collector == Gathering && |s.batch| < cfg.maxBatch))
    case Flush => s.collector == Gathering
    case ExecuteDone(_) => s.collector == Executing
    case TakeOutcome(w, _) =>
      w < |s.workers| && s.workers[w].Submitted? && s.workers[w].item.requestId in s.outcomes
    case StopBegin => true
    case StopWorker(w) => s.stopping && w < |s.workers|
    case StopEnd => s.stopping && forall w | 0 <= w < |s.workers| :: s.workers[w] == Stopped
  }

  /** The worker leaves the request behind. */
  function Release<R>(s: State<R>, w: nat, id: string): State<R>
    requires w < |s.workers|
  {
    s.(workers := s.workers[w := Polling], finished := s.finished + {id})
  }

  /** What the worker does with an outcome: record it with the breaker, then settle the future. */
  function Settle<R>(cfg: Config<R>, s: State<R>, w: nat, id: string, outcome: Future<R>, now: real): State<R>
    requires w < |s.workers|
  {
    var recorded :=
      if outcome.Done? then Breaker.SuccessSpec(s.breaker) else Breaker.FailureSpec(cfg.breaker, s.breaker, now);
    Release(s, w, id).(breaker := recorded, reg := SettleSpec(s.reg, id, outcome))
  }

  function Payloads(batch: seq<Item>): seq<Payload> {
    seq(|batch|, i requires 0 <= i < |batch| => batch[i].payload)
  }

  /** What the executor's answer gives item i: its result if the list reaches that far, an exception otherwise. */
  function Answer<R>(cfg: Config<R>, batch: seq<Item>, ok: bool, i: nat): Future<R> {
    Batcher.AnswerAt(if ok then Some(cfg.genBatch(Payloads(batch))) else None, i)
  }

  /** What a batch's answers are: the results, each in its own place, or exceptions where there is none. */
  lemma AnswerMeans<R>(cfg: Config<R>, batch: seq<Item>, ok: bool, i: nat)
    ensures var results := cfg.genBatch(Payloads(batch));
      && (ok && i < |results| ==> Answer(cfg, batch, ok, i) == Done(results[i]))
      && (!ok || |results| <= i ==> Answer(cfg, batch, ok, i) == Raised)
  {
  }

  /** The answers handed out to the first n items, leaving alone every future that is done. */
  function Resolve<R>(cfg: Config<R>, outcomes: map<string, Future<R>>, batch: seq<Item>, ok: bool, n: nat)
    : map<string, Future<R>>
    requires n <= |batch|
  {
    if n == 0 then outcomes else
      var id := batch[n - 1].requestId;
      var rest := Resolve(cfg, outcomes, batch, ok, n - 1);
      if id in rest then rest else rest[id := Answer(cfg, batch, ok, n - 1)]
  }

  /** The granted request goes to the batch scheduler, or straight to the executor. */
  function Begin<R>(cfg: Config<R>, s: State<R>, w: nat, item: Item): State<R>
    requires w < |s.workers|
  {
    if cfg.batched then
      s.(workers := s.workers[w := Submitted(item)], queue := s.queue + [item], submitted := s.submitted + [item])
    else
      s.(workers := s.workers[w := Running(item)])
  }

  /** A worker that has its reply: drop an orphan, or ask the breaker and run or refuse the request. */
  function AfterReply<R>(cfg: Config<R>, s: State<R>, w: nat, item: Item, now: real): State<R>
    requires w < |s.workers|
  {
    var id := item.requestId;
    if id !in s.reg.pending then Release(s, w, id) else
      var (breaker, allowed) := Breaker.AllowSpec(cfg.breaker, s.breaker, now);
      if !allowed then Release(s, w, id).(breaker := breaker, reg := SettleSpec(s.reg, id, Raised))
      else Begin(cfg, s, w, item).(breaker := breaker)
  }

  /**
   Beyond the worker's own move and the submission, a reply changes only the breaker and, by one refusal, the registry.
   */
  lemma ReplyShape<R>(cfg: Config<R>, s: State<R>, w: nat, item: Item, now: real)
    requires w < |s.workers|
    ensures var s' := AfterReply(cfg, s, w, item, now); var left := Release(s, w, item.requestId);
      || (s' == left && item.requestId !in s.reg.pending)
      || s' == left.(breaker := s'.breaker, reg := SettleSpec(s.reg, item.requestId, Raised))
      || s' == Begin(cfg, s, w, item).(breaker := s'.breaker)
  {
  }

  ghost function Next<R>(cfg: Config<R>, s: State<R>, step: Step): State<R>
    requires Enabled(cfg, s, step)
  {
    match step
    case Register(id, request) =>
      s.(reg := RegisterSpec(s.reg, id), requests := s.requests[id := request], handlers := s.handlers[id := Enqueuing])
    case ZAdd(id, now) =>
      s.(zset := s.zset + [Item(id, s.requests[id].priority, now, s.requests[id].payload)],
         handlers := s.handlers[id := Awaiting], enqueued := s.enqueued + {id})
    case Expire(id) => s.(reg := ExpireSpec(s.reg, id), handlers := s.handlers[id := GivingUp])
    case Unregister(id) => s.(reg := SettleSpec(s.reg, id, Cancelled), handlers := s.handlers[id := Gone])
    case Receive(id) => s.(handlers := s.handlers[id := Gone])
    case Pop(w, k) =>
      s.(workers := s.workers[w := Holding(s.zset[k])], zset := s.zset[..k] + s.zset[k + 1..])
    case Resume(w, now) => AfterReply(cfg, s, w, s.workers[w].item, now)
    case FinishRun(w, ok, now) =>
      var item := s.workers[w].item;
      Settle(cfg, s, w, item.requestId, if ok then Done(cfg.gen(item.payload)) else Raised, now)
    case Collect =>
      s.(collector := Gathering, batch := s.batch + [s.queue[0]], queue := s.queue[1..])
    case Flush =>
      var (batch, queue) := Batcher.DrainSpec(cfg.maxBatch, s.batch, s.queue);
      s.(collector := Executing, batch := batch, queue := queue)
    case ExecuteDone(ok) =>
      s.(collector := Idle, batch := [], ran := s.ran + [s.batch],
         outcomes := Resolve(cfg, s.outcomes, s.batch, ok, |s.batch|))
    case TakeOutcome(w, now) =>
      var id := s.workers[w].item.requestId;
      Settle(cfg, s, w, id, s.outcomes[id], now).(outcomes := s.outcomes - {id})
    case StopBegin => s.(stopping := true)
    case StopWorker(w) =>
      var dropped := if s.workers[w].Submitted? then {s.workers[w].item.requestId} - s.outcomes.Keys else {};
      s.(workers := s.workers[w := Stopped], outcomes := s.outcomes + map id | id in dropped :: Cancelled)
    case StopEnd => s.(reg := CancelAllSpec(s.reg))
  }

  ghost predicate Possible<R>(cfg: Config<R>, s: State<R>, steps: seq<Step>)
    decreases |steps|
  {
    steps == [] || (Enabled(cfg, s, steps[0]) && Possible(cfg, Next(cfg, s, steps[0]), steps[1..]))
  }

  ghost function Run<R>(cfg: Config<R>, s: State<R>, steps: seq<Step>): State<R>
    requires Possible(cfg, s, steps)
    decreases |steps|
  {
    if steps == [] then s else Run(cfg, Next(cfg, s, steps[0]), steps[1..])
  }

  // ---------------------------------------------------------------- counting

  function One(b: bool): nat { if b then 1 else 0 }

  /** How often an id occurs among items. */
  function Count(items: seq<Item>, id: string): nat {
    if items == [] then 0 else Count(items[..|items| - 1], id) + One(items[|items| - 1].requestId == id)
  }

  lemma {:induction false} CountAppend(a: seq<Item>, b: seq<Item>, id: string)
    ensures Count(a + b, id) == Count(a, id) + Count(b, id)
  {
    if b == [] {
      assert a + b == a;
    } else {
      assert (a + b)[..|a + b| - 1] == a + b[..|b| - 1];
      CountAppend(a, b[..|b| - 1], id);
    }
  }

  lemma CountOne(x: Item, id: string)
    ensures Count([x], id) == One(x.requestId == id)
  {
    assert [x][..0] == [];
  }

  lemma CountRemove(items: seq<Item>, k: nat, id: string)
    requires k < |items|
    ensures Count(items, id) == Count(items[..k] + items[k + 1..], id) + One(items[k].requestId == id)
  {
    assert items == items[..k] + ([items[k]] + items[k + 1..]);
    CountAppend(items[..k], [items[k]] + items[k + 1..], id);
    CountAppend([items[k]], items[k + 1..], id);
    CountAppend(items[..k], items[k + 1..], id);
    CountOne(items[k], id);
  }

  /** A worker with an id in hand: popped and not yet submitted, or run by the worker itself. */
  predicate InHand(w: Worker, id: string) {
    (w.Holding? || w.Running?) && w.item.requestId == id
  }

  /** A worker awaiting the batch future of an id. */
  predicate Awaits(w: Worker, id: string) {
    w.Submitted? && w.item.requestId == id
  }

  /** A worker between a granted allow_request and its one record call. */
  predicate Owes(w: Worker, id: string) {
    w.Submitted? || w.Running?
  }

  predicate IsHolding(w: Worker, id: string) {
    w.Holding?
  }

  predicate IsSubmitted(w: Worker, id: string) {
    w.Submitted?
  }

  /** How many workers satisfy p. */
  function Tally(ws: seq<Worker>, p: (Worker, string) -> bool, id: string): nat {
    if ws == [] then 0 else Tally(ws[..|ws| - 1], p, id) + One(p(ws[|ws| - 1], id))
  }

  lemma {:induction false} TallyUpdate(ws: seq<Worker>, p: (Worker, string) -> bool, id: string, i: nat, w: Worker)
    requires i < |ws|
    ensures One(p(ws[i], id)) <= Tally(ws, p, id) <= |ws|
    ensures Tally(ws[i := w], p, id) == Tally(ws, p, id) - One(p(ws[i], id)) + One(p(w, id))
  {
    var n := |ws| - 1;
    TallyBound(ws, p, id);
    if i < n {
      TallyUpdate(ws[..n], p, id, i, w);
      assert ws[i := w][..n] == ws[..n][i := w];
    } else {
      assert ws[i := w][..n] == ws[..n];
    }
  }

  lemma {:induction false} TallyBound(ws: seq<Worker>, p: (Worker, string) -> bool, id: string)
    ensures Tally(ws, p, id) <= |ws|
  {
    if ws != [] { TallyBound(ws[..|ws| - 1], p, id); }
  }

  lemma {:induction false} TallyHas(ws: seq<Worker>, p: (Worker, string) -> bool, id: string) returns (i: nat)
    requires Tally(ws, p, id) > 0
    ensures i < |ws| && p(ws[i], id)
  {
    var n := |ws| - 1;
    if p(ws[n], id) { i := n; } else { i := TallyHas(ws[..n], p, id); }
  }
}
