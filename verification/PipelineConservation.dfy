/**
 Where requests are: each enqueued one in exactly one place, batches in submission order, and work that only shrinks.
 */
module PipelineConservation {
  import opened WorkerPool
  import opened PriorityQueue
  import opened Pipeline

  predicate ByWorker(step: Step) {
    step.Pop? || step.Resume? || step.FinishRun? || step.TakeOutcome?
  }

  predicate ByCollector(step: Step) {
    step.Collect? || step.Flush? || step.ExecuteDone?
  }

  /** The steps of workers and collector, as against arrivals, handlers and stop. */
  predicate IsWork(step: Step) {
    ByWorker(step) || ByCollector(step)
  }

  // ---------------------------------------------------------------- every request is in one place

  /** Where one id is: how often in each place, whether its worker awaits a batch, and how far its handler got. */
  datatype Ledger = Ledger(
    zset: nat, hand: nat, awaiting: nat, queue: nat, batch: nat,
    outcome: bool, finished: bool, enqueued: bool, arrived: bool)

  function LedgerOf<R>(s: State<R>, id: string): Ledger {
    Ledger(Count(s.zset, id), Tally(s.workers, InHand, id), Tally(s.workers, Awaits, id),
           Count(s.queue, id), Count(s.batch, id),
           id in s.outcomes, id in s.finished, id in s.enqueued, id in s.handlers && s.handlers[id] != Enqueuing)
  }

  /** An enqueued request is in exactly one place, any other in none, and a submitted one has its worker waiting. */
  predicate Balanced(l: Ledger) {
    && l.zset + l.hand + l.queue + l.batch + One(l.outcome) + One(l.finished) == One(l.enqueued)
    && l.awaiting == l.queue + l.batch + One(l.outcome)
    && l.enqueued == l.arrived
  }

  ghost predicate Accounted<R>(s: State<R>, id: string) {
    Balanced(LedgerOf(s, id))
  }

  ghost predicate Conserved<R>(s: State<R>) {
    forall id: string :: Accounted(s, id)
  }

  lemma {:induction false} ResolveKeys<R>(
    cfg: Config<R>, outcomes: map<string, Future<R>>, batch: seq<Item>, ok: bool, n: nat, id: string)
    requires n <= |batch|
    ensures id in Resolve(cfg, outcomes, batch, ok, n) <==> id in outcomes || Count(batch[..n], id) > 0
  {
    if n > 0 {
      ResolveKeys(cfg, outcomes, batch, ok, n - 1, id);
      assert batch[..n][..n - 1] == batch[..n - 1];
    }
  }

  lemma ResolveAllKeys<R>(cfg: Config<R>, outcomes: map<string, Future<R>>, batch: seq<Item>, ok: bool, id: string)
    ensures id in Resolve(cfg, outcomes, batch, ok, |batch|) <==> id in outcomes || Count(batch, id) > 0
  {
    assert batch[..|batch|] == batch;
    ResolveKeys(cfg, outcomes, batch, ok, |batch|, id);
  }

  /** How the two tallies change when a worker's place does. */
  lemma HandMoves(workers: seq<Worker>, w: nat, v: Worker, id: string)
    requires w < |workers|
    ensures One(InHand(workers[w], id)) <= Tally(workers, InHand, id)
    ensures One(Awaits(workers[w], id)) <= Tally(workers, Awaits, id)
    ensures Tally(workers[w := v], InHand, id) ==
      Tally(workers, InHand, id) - One(InHand(workers[w], id)) + One(InHand(v, id))
    ensures Tally(workers[w := v], Awaits, id) ==
      Tally(workers, Awaits, id) - One(Awaits(workers[w], id)) + One(Awaits(v, id))
  {
    TallyUpdate(workers, InHand, id, w, v);
    TallyUpdate(workers, Awaits, id, w, v);
  }

  lemma ReleaseAccounted<R>(s: State<R>, w: nat, item: Item, id: string)
    requires w < |s.workers| && (s.workers[w] == Holding(item) || s.workers[w] == Running(item)) && Accounted(s, id)
    ensures Accounted(Release(s, w, item.requestId), id)
  {
    HandMoves(s.workers, w, Polling, id);
  }

  lemma SubmitCounts(workers: seq<Worker>, queue: seq<Item>, w: nat, item: Item, id: string)
    requires w < |workers| && workers[w] == Holding(item)
    ensures var workers' := workers[w := Submitted(item)]; var queue' := queue + [item];
      && Tally(workers', InHand, id) + Count(queue', id) == Tally(workers, InHand, id) + Count(queue, id)
      && Tally(workers', Awaits, id) - Count(queue', id) == Tally(workers, Awaits, id) - Count(queue, id)
  {
    HandMoves(workers, w, Submitted(item), id);
    CountAppend(queue, [item], id);
    CountOne(item, id);
  }

  lemma RunCounts(workers: seq<Worker>, w: nat, item: Item, id: string)
    requires w < |workers| && workers[w] == Holding(item)
    ensures Tally(workers[w := Running(item)], InHand, id) == Tally(workers, InHand, id)
    ensures Tally(workers[w := Running(item)], Awaits, id) == Tally(workers, Awaits, id)
  {
    HandMoves(workers, w, Running(item), id);
  }

  lemma BeginAccounted<R>(cfg: Config<R>, s: State<R>, w: nat, item: Item, id: string)
    requires w < |s.workers| && s.workers[w] == Holding(item) && Accounted(s, id)
    ensures Accounted(Begin(cfg, s, w, item), id)
  {
    SubmitCounts(s.workers, s.queue, w, item, id);
    RunCounts(s.workers, w, item, id);
  }

  lemma ReplyAccounted<R>(cfg: Config<R>, s: State<R>, w: nat, item: Item, now: real, id: string)
    requires w < |s.workers| && s.workers[w] == Holding(item) && Accounted(s, id)
    ensures Accounted(AfterReply(cfg, s, w, item, now), id)
  {
    ReplyShape(cfg, s, w, item, now);
    ReleaseAccounted(s, w, item, id);
    BeginAccounted(cfg, s, w, item, id);
  }

  lemma FinishAccounted<R>(cfg: Config<R>, s: State<R>, w: nat, ok: bool, now: real, id: string)
    requires Enabled(cfg, s, FinishRun(w, ok, now)) && Accounted(s, id)
    ensures Accounted(Next(cfg, s, FinishRun(w, ok, now)), id)
  {
    ReleaseAccounted(s, w, s.workers[w].item, id);
  }

  lemma OutcomeAccounted<R>(cfg: Config<R>, s: State<R>, w: nat, now: real, id: string)
    requires Enabled(cfg, s, TakeOutcome(w, now)) && Accounted(s, id)
    ensures Accounted(Next(cfg, s, TakeOutcome(w, now)), id)
  {
    HandMoves(s.workers, w, Polling, id);
  }

  lemma PopAccounted<R>(cfg: Config<R>, s: State<R>, w: nat, k: nat, id: string)
    requires Enabled(cfg, s, Pop(w, k)) && Accounted(s, id)
    ensures Accounted(Next(cfg, s, Pop(w, k)), id)
  {
    HandMoves(s.workers, w, Holding(s.zset[k]), id);
    CountRemove(s.zset, k, id);
  }

  lemma CollectCounts(batch: seq<Item>, queue: seq<Item>, id: string)
    requires queue != []
    ensures Count(batch + [queue[0]], id) + Count(queue[1..], id) == Count(batch, id) + Count(queue, id)
  {
    CountAppend([queue[0]], queue[1..], id);
    assert [queue[0]] + queue[1..] == queue;
    CountAppend(batch, [queue[0]], id);
  }

  lemma FlushCounts(max: nat, batch: seq<Item>, queue: seq<Item>, id: string)
    ensures var (b, q) := Batcher.DrainSpec(max, batch, queue);
      Count(b, id) + Count(q, id) == Count(batch, id) + Count(queue, id)
  {
    var (b, q) := Batcher.DrainSpec(max, batch, queue);
    Batcher.DrainIsFifo(max, batch, queue);
    CountAppend(batch, queue, id);
    CountAppend(b, q, id);
  }

  lemma ZAddAccounted<R>(cfg: Config<R>, s: State<R>, step: Step, id: string)
    requires Enabled(cfg, s, step) && step.ZAdd? && Accounted(s, id)
    ensures Accounted(Next(cfg, s, step), id)
  {
    var item := Item(step.id, s.requests[step.id].priority, step.now, s.requests[step.id].payload);
    CountAppend(s.zset, [item], id);
    CountOne(item, id);
  }

  lemma CollectorAccounted<R>(cfg: Config<R>, s: State<R>, step: Step, id: string)
    requires Enabled(cfg, s, step) && ByCollector(step) && Accounted(s, id)
    ensures Accounted(Next(cfg, s, step), id)
  {
    match step
    case Collect => CollectCounts(s.batch, s.queue, id);
    case Flush => FlushCounts(cfg.maxBatch, s.batch, s.queue, id);
    case ExecuteDone(ok) => ResolveAllKeys(cfg, s.outcomes, s.batch, ok, id);
  }

  lemma StepAccounted<R>(cfg: Config<R>, s: State<R>, step: Step, id: string)
    requires Enabled(cfg, s, step) && !Next(cfg, s, step).stopping && Accounted(s, id)
    ensures Accounted(Next(cfg, s, step), id)
  {
    match step
    case ZAdd(_, _) => ZAddAccounted(cfg, s, step, id);
    case Pop(w, k) => PopAccounted(cfg, s, w, k, id);
    case Resume(w, now) => ReplyAccounted(cfg, s, w, s.workers[w].item, now, id);
    case FinishRun(w, ok, now) => FinishAccounted(cfg, s, w, ok, now, id);
    case TakeOutcome(w, now) => OutcomeAccounted(cfg, s, w, now, id);
    case Collect => CollectorAccounted(cfg, s, step, id);
    case Flush => CollectorAccounted(cfg, s, step, id);
    case ExecuteDone(_) => CollectorAccounted(cfg, s, step, id);
    case _ =>
  }

  lemma StepConserved<R>(cfg: Config<R>, s: State<R>, step: Step)
    requires Enabled(cfg, s, step) && !Next(cfg, s, step).stopping && Conserved(s)
    ensures Conserved(Next(cfg, s, step))
  {
    forall id: string ensures Accounted(Next(cfg, s, step), id) {
      StepAccounted(cfg, s, step, id);
    }
  }

  lemma {:induction false} ResolveAt<R>(
    cfg: Config<R>, outcomes: map<string, Future<R>>, batch: seq<Item>, ok: bool, n: nat, i: nat)
    requires i < n <= |batch| && batch[i].requestId !in outcomes && Count(batch[..n], batch[i].requestId) <= 1
    ensures var after := Resolve(cfg, outcomes, batch, ok, n);
      batch[i].requestId in after && after[batch[i].requestId] == Answer(cfg, batch, ok, i)
  {
    var id := batch[i].requestId;
    assert batch[..n][..n - 1] == batch[..n - 1];
    ResolveKeys(cfg, outcomes, batch, ok, n - 1, id);
    if i < n - 1 {
      CountRemove(batch[..n - 1], i, id);
      ResolveAt(cfg, outcomes, batch, ok, n - 1, i);
    }
  }

  /**
   Each item of a batch gets the result in its own place, or an exception if inference raised or handed back too few: no
   item's outcome is skipped, shared or taken from another row.
   */
  lemma BatchAnswers<R>(cfg: Config<R>, s: State<R>, ok: bool, i: nat)
    requires Enabled(cfg, s, ExecuteDone(ok)) && Conserved(s) && i < |s.batch|
    ensures var after := Next(cfg, s, ExecuteDone(ok)).outcomes; var id := s.batch[i].requestId;
      && id in after && after[id] == Answer(cfg, s.batch, ok, i)
      && (ok && i < |cfg.genBatch(Payloads(s.batch))| ==> after[id] == Done(cfg.genBatch(Payloads(s.batch))[i]))
      && (!ok || |cfg.genBatch(Payloads(s.batch))| <= i ==> after[id] == Raised)
  {
    AnswerMeans(cfg, s.batch, ok, i);
    assert Accounted(s, s.batch[i].requestId);
    CountRemove(s.batch, i, s.batch[i].requestId);
    assert s.batch[..|s.batch|] == s.batch;
    ResolveAt(cfg, s.outcomes, s.batch, ok, |s.batch|, i);
  }

  // ---------------------------------------------------------------- batches are runs of submissions

  function Flat(batches: seq<seq<Item>>): seq<Item> {
    if batches == [] then [] else Flat(batches[..|batches| - 1]) + batches[|batches| - 1]
  }

  /**
   The batches that ran, the current one and the queue are the submissions in order, and a batch has 1 to max items.
   */
  ghost predicate Ordered<R>(cfg: Config<R>, s: State<R>) {
    && s.submitted == Flat(s.ran) + s.batch + s.queue
    && (s.collector == Idle <==> s.batch == [])
    && |s.batch| <= Batcher.Max(1, cfg.maxBatch)
  }

  lemma ReplyOrdered<R>(cfg: Config<R>, s: State<R>, w: nat, item: Item, now: real)
    requires Ordered(cfg, s) && w < |s.workers|
    ensures Ordered(cfg, AfterReply(cfg, s, w, item, now))
  {
    ReplyShape(cfg, s, w, item, now);
    assert Flat(s.ran) + s.batch + s.queue + [item] == Flat(s.ran) + s.batch + (s.queue + [item]);
  }

  lemma FlushOrdered(ran: seq<Item>, max: nat, batch: seq<Item>, queue: seq<Item>)
    ensures var (b, q) := Batcher.DrainSpec(max, batch, queue);
      ran + b + q == ran + batch + queue && |batch| <= |b| <= Batcher.Max(|batch|, max)
  {
    var (b, q) := Batcher.DrainSpec(max, batch, queue);
    Batcher.DrainIsFifo(max, batch, queue);
    assert ran + b + q == ran + (b + q) && ran + batch + queue == ran + (batch + queue);
  }

  lemma RanOrdered(ran: seq<seq<Item>>, batch: seq<Item>, queue: seq<Item>)
    ensures Flat(ran + [batch]) + [] + queue == Flat(ran) + batch + queue
  {
    assert (ran + [batch])[..|ran|] == ran;
  }

  lemma StepOrdered<R>(cfg: Config<R>, s: State<R>, step: Step)
    requires Enabled(cfg, s, step) && Ordered(cfg, s)
    ensures Ordered(cfg, Next(cfg, s, step))
  {
    match step
    case Resume(w, now) => ReplyOrdered(cfg, s, w, s.workers[w].item, now);
    case Collect =>
      assert Flat(s.ran) + (s.batch + [s.queue[0]]) + s.queue[1..] == Flat(s.ran) + s.batch + s.queue;
    case Flush => FlushOrdered(Flat(s.ran), cfg.maxBatch, s.batch, s.queue);
    case ExecuteDone(_) => RanOrdered(s.ran, s.batch, s.queue);
    case _ =>
  }

  /** No worker has ended, and each submission under way is awaited by a worker of its own. */
  ghost predicate Staffed<R>(cfg: Config<R>, s: State<R>) {
    && |s.workers| == cfg.numWorkers
    && (forall w | 0 <= w < |s.workers| :: s.workers[w] != Stopped)
    && Tally(s.workers, IsSubmitted, "") == |s.queue| + |s.batch| + |s.outcomes|
  }

  lemma {:induction false} ResolveSize<R>(cfg: Config<R>, outcomes: map<string, Future<R>>, batch: seq<Item>, ok: bool,
                                          n: nat)
    requires n <= |batch| && forall id: string :: Count(batch[..n], id) + One(id in outcomes) <= 1
    ensures |Resolve(cfg, outcomes, batch, ok, n)| == |outcomes| + n
  {
    if n > 0 {
      var id := batch[n - 1].requestId;
      assert batch[..n][..n - 1] == batch[..n - 1];
      forall id: string ensures Count(batch[..n - 1], id) + One(id in outcomes) <= 1 {
        assert Count(batch[..n - 1], id) <= Count(batch[..n], id);
      }
      ResolveSize(cfg, outcomes, batch, ok, n - 1);
      ResolveKeys(cfg, outcomes, batch, ok, n - 1, id);
      assert Count(batch[..n], id) + One(id in outcomes) <= 1;
    }
  }

  lemma ExecuteDoneSize<R>(cfg: Config<R>, s: State<R>, ok: bool)
    requires Conserved(s)
    ensures |Resolve(cfg, s.outcomes, s.batch, ok, |s.batch|)| == |s.outcomes| + |s.batch|
  {
    assert s.batch[..|s.batch|] == s.batch;
    forall id: string ensures Count(s.batch, id) + One(id in s.outcomes) <= 1 { assert Accounted(s, id); }
    ResolveSize(cfg, s.outcomes, s.batch, ok, |s.batch|);
  }

  /** How the tallies over all requests change when a worker's place does. */
  lemma PlaceMoves(workers: seq<Worker>, w: nat, v: Worker)
    requires w < |workers|
    ensures Tally(workers[w := v], IsSubmitted, "") ==
      Tally(workers, IsSubmitted, "") - One(workers[w].Submitted?) + One(v.Submitted?)
    ensures Tally(workers[w := v], IsHolding, "") ==
      Tally(workers, IsHolding, "") - One(workers[w].Holding?) + One(v.Holding?)
    ensures Tally(workers[w := v], Owes, "") ==
      Tally(workers, Owes, "") - One(workers[w].Submitted? || workers[w].Running?) + One(v.Submitted? || v.Running?)
  {
    TallyUpdate(workers, IsSubmitted, "", w, v);
    TallyUpdate(workers, IsHolding, "", w, v);
    TallyUpdate(workers, Owes, "", w, v);
  }

  lemma ReplyStaffed<R>(cfg: Config<R>, s: State<R>, w: nat, item: Item, now: real)
    requires Staffed(cfg, s) && w < |s.workers| && s.workers[w] == Holding(item)
    ensures Staffed(cfg, AfterReply(cfg, s, w, item, now))
  {
    ReplyShape(cfg, s, w, item, now);
    PlaceMoves(s.workers, w, Polling);
    PlaceMoves(s.workers, w, Submitted(item));
    PlaceMoves(s.workers, w, Running(item));
  }

  lemma OutcomeStaffed<R>(cfg: Config<R>, s: State<R>, w: nat, now: real)
    requires Enabled(cfg, s, TakeOutcome(w, now)) && Staffed(cfg, s)
    ensures Staffed(cfg, Next(cfg, s, TakeOutcome(w, now)))
  {
    PlaceMoves(s.workers, w, Polling);
    var id := s.workers[w].item.requestId;
    assert (s.outcomes - {id}).Keys == s.outcomes.Keys - {id};
  }

  lemma CollectorStaffed<R>(cfg: Config<R>, s: State<R>, step: Step)
    requires Enabled(cfg, s, step) && ByCollector(step) && Staffed(cfg, s) && Conserved(s)
    ensures Staffed(cfg, Next(cfg, s, step))
  {
    match step
    case Collect =>
    case Flush => DrainSize(cfg.maxBatch, s.batch, s.queue);
    case ExecuteDone(ok) => ExecuteDoneSize(cfg, s, ok);
  }

  lemma DrainSize(max: nat, batch: seq<Item>, queue: seq<Item>)
    ensures var (b, q) := Batcher.DrainSpec(max, batch, queue); |b| + |q| == |batch| + |queue| && |b| >= |batch|
  {
    var (b, q) := Batcher.DrainSpec(max, batch, queue);
    Batcher.DrainIsFifo(max, batch, queue);
    assert |b + q| == |batch + queue|;
  }

  lemma StepStaffed<R>(cfg: Config<R>, s: State<R>, step: Step)
    requires Enabled(cfg, s, step) && !Next(cfg, s, step).stopping && Staffed(cfg, s) && Conserved(s)
    ensures Staffed(cfg, Next(cfg, s, step))
  {
    match step
    case Pop(w, k) => PlaceMoves(s.workers, w, Holding(s.zset[k]));
    case Resume(w, now) => ReplyStaffed(cfg, s, w, s.workers[w].item, now);
    case FinishRun(w, _, _) => PlaceMoves(s.workers, w, Polling);
    case TakeOutcome(w, now) => OutcomeStaffed(cfg, s, w, now);
    case Collect => CollectorStaffed(cfg, s, step);
    case Flush => CollectorStaffed(cfg, s, step);
    case ExecuteDone(_) => CollectorStaffed(cfg, s, step);
    case _ =>
  }

  /** No batch is larger than the number of workers, each of whom can have only one submission out. */
  lemma BatchWithinWorkers<R>(cfg: Config<R>, s: State<R>)
    requires Staffed(cfg, s)
    ensures |s.queue| + |s.batch| <= cfg.numWorkers
  {
    TallyBound(s.workers, IsSubmitted, "");
  }

  // ---------------------------------------------------------------- work only shrinks

  /** A bound on the worker and collector steps that the requests at hand can still take. */
  function Rank<R>(s: State<R>): nat {
    7 * |s.zset| + 6 * Tally(s.workers, IsHolding, "") + Tally(s.workers, Owes, "") + 4 * |s.queue| + 2 * |s.batch|
    + One(s.collector == Gathering)
  }

  lemma ReplyShrinks<R>(cfg: Config<R>, s: State<R>, w: nat, item: Item, now: real)
    requires w < |s.workers| && s.workers[w] == Holding(item)
    ensures Rank(AfterReply(cfg, s, w, item, now)) < Rank(s)
  {
    ReplyShape(cfg, s, w, item, now);
    PlaceMoves(s.workers, w, Polling);
    PlaceMoves(s.workers, w, Submitted(item));
    PlaceMoves(s.workers, w, Running(item));
  }

  lemma FlushShrinks<R>(cfg: Config<R>, s: State<R>)
    requires Enabled(cfg, s, Flush)
    ensures Rank(Next(cfg, s, Flush)) < Rank(s)
  {
    DrainSize(cfg.maxBatch, s.batch, s.queue);
  }

  lemma WorkShrinks<R>(cfg: Config<R>, s: State<R>, step: Step)
    requires Enabled(cfg, s, step) && IsWork(step) && Ordered(cfg, s)
    ensures Rank(Next(cfg, s, step)) < Rank(s)
  {
    match step
    case Pop(w, k) => PlaceMoves(s.workers, w, Holding(s.zset[k]));
    case Resume(w, now) => ReplyShrinks(cfg, s, w, s.workers[w].item, now);
    case FinishRun(w, _, _) => PlaceMoves(s.workers, w, Polling);
    case TakeOutcome(w, _) => PlaceMoves(s.workers, w, Polling);
    case Flush => FlushShrinks(cfg, s);
    case Collect =>
    case ExecuteDone(_) =>
  }

  /** Some worker or collector step can be taken. */
  ghost predicate CanWork<R>(cfg: Config<R>, s: State<R>) {
    exists step :: IsWork(step) && Enabled(cfg, s, step)
  }

  lemma QueueEmpty<R>(cfg: Config<R>, s: State<R>)
    requires !CanWork(cfg, s) && s.workers != [] && s.workers[0] == Polling
    ensures s.zset == []
  {
    if s.zset != [] {
      assert s.zset[0] in Members(s.zset);
      var x := FrontExists(Members(s.zset));
      var k: nat :| k < |s.zset| && s.zset[k] == x;
      assert Enabled(cfg, s, Pop(0, k)) && IsWork(Pop(0, k));
      assert false;
    }
  }

  lemma IdleMeansLeft<R>(s: State<R>, id: string)
    requires s.zset == [] && s.queue == [] && s.batch == []
    requires (forall w | 0 <= w < |s.workers| :: s.workers[w] == Polling)
    requires Accounted(s, id)
    ensures id in s.enqueued <==> id in s.finished
  {
    if Tally(s.workers, InHand, id) > 0 { var w := TallyHas(s.workers, InHand, id); }
    if Tally(s.workers, Awaits, id) > 0 { var w := TallyHas(s.workers, Awaits, id); }
  }

  /**
   With no worker or collector step left to take, every worker is idle and every enqueued request has been left behind.
   */
  lemma StuckMeansDone<R>(cfg: Config<R>, s: State<R>)
    requires !CanWork(cfg, s) && Conserved(s) && Staffed(cfg, s) && Ordered(cfg, s) && cfg.numWorkers >= 1
    ensures s.enqueued == s.finished && Tally(s.workers, Owes, "") == 0
  {
    AllPolling(cfg, s);
    QueueEmpty(cfg, s);
    forall id: string ensures id in s.enqueued <==> id in s.finished {
      assert Accounted(s, id);
      IdleMeansLeft(s, id);
    }
    if Tally(s.workers, Owes, "") > 0 { var w := TallyHas(s.workers, Owes, ""); }
  }

  lemma AllPolling<R>(cfg: Config<R>, s: State<R>)
    requires !CanWork(cfg, s) && Conserved(s) && Staffed(cfg, s) && Ordered(cfg, s)
    ensures s.queue == [] && s.batch == [] && forall w | 0 <= w < |s.workers| :: s.workers[w] == Polling
  {
    assert IsWork(Flush) && IsWork(ExecuteDone(true)) && IsWork(Collect);
    assert !Enabled(cfg, s, Flush) && !Enabled(cfg, s, ExecuteDone(true)) && !Enabled(cfg, s, Collect);
    forall w | 0 <= w < |s.workers| ensures s.workers[w] == Polling {
      assert !Enabled(cfg, s, Resume(w, 0.0)) by { assert IsWork(Resume(w, 0.0)); }
      assert !Enabled(cfg, s, FinishRun(w, true, 0.0)) by { assert IsWork(FinishRun(w, true, 0.0)); }
      if s.workers[w].Submitted? {
        var id := s.workers[w].item.requestId;
        assert Accounted(s, id);
        TallyUpdate(s.workers, Awaits, id, w, Polling);
        assert Enabled(cfg, s, TakeOutcome(w, 0.0)) && IsWork(TakeOutcome(w, 0.0));
        assert false;
      }
    }
  }
}
