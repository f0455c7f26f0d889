/** What holds over every run of the pipeline, whatever the interleaving of handlers, workers, collector and stop. */
module PipelineRuns {
  import opened WorkerPool
  import opened PriorityQueue
  import opened Pipeline
  import opened PipelineSafety
  import opened PipelineConservation

  ghost predicate Sound<R>(cfg: Config<R>, s: State<R>) {
    && Registered(s) && OutcomesDone(s) && Delivered(cfg, s) && Ordered(cfg, s)
    && (!s.stopping ==> Conserved(s) && Staffed(cfg, s))
    && (!s.stopping && cfg.breaker.halfOpenMaxCalls >= 1 ==> Unwedged(cfg.breaker, s.breaker, Owed(s)))
  }

  lemma {:induction false} NobodyWorks(ws: seq<Worker>, p: (Worker, string) -> bool, id: string)
    requires forall w | 0 <= w < |ws| :: !p(ws[w], id)
    ensures Tally(ws, p, id) == 0
  {
    if ws != [] { NobodyWorks(ws[..|ws| - 1], p, id); }
  }

  lemma InitialSound<R>(cfg: Config<R>)
    ensures Sound(cfg, Initial(cfg))
  {
    var s := Initial(cfg);
    forall id: string ensures Accounted(s, id) {
      NobodyWorks(s.workers, InHand, id);
      NobodyWorks(s.workers, Awaits, id);
    }
    NobodyWorks(s.workers, IsSubmitted, "");
  }

  lemma StoppingStays<R>(cfg: Config<R>, s: State<R>, step: Step)
    requires Enabled(cfg, s, step)
    ensures Next(cfg, s, step).stopping == (s.stopping || step == StopBegin)
  {
    if step.Resume? { ReplyShape(cfg, s, step.w, s.workers[step.w].item, step.now); }
  }

  lemma StepSound<R>(cfg: Config<R>, s: State<R>, step: Step)
    requires Enabled(cfg, s, step) && Sound(cfg, s)
    ensures Sound(cfg, Next(cfg, s, step)) && Completes(s.reg, Next(cfg, s, step).reg)
  {
    StoppingStays(cfg, s, step);
    StepRegistered(cfg, s, step);
    StepOutcomesDone(cfg, s, step);
    StepDelivered(cfg, s, step);
    StepOrdered(cfg, s, step);
    if !Next(cfg, s, step).stopping {
      StepConserved(cfg, s, step);
      StepStaffed(cfg, s, step);
      if cfg.breaker.halfOpenMaxCalls >= 1 { StepUnwedged(cfg, s, step); }
    }
  }

  /** Every step keeps every invariant, and no step changes a future that is done. */
  lemma {:induction false} RunSound<R>(cfg: Config<R>, s: State<R>, steps: seq<Step>)
    requires Sound(cfg, s) && Possible(cfg, s, steps)
    ensures Sound(cfg, Run(cfg, s, steps)) && Completes(s.reg, Run(cfg, s, steps).reg)
    decreases |steps|
  {
    if steps != [] {
      StepSound(cfg, s, steps[0]);
      RunSound(cfg, Next(cfg, s, steps[0]), steps[1..]);
    }
  }

  ghost predicate Reachable<R(!new)>(cfg: Config<R>, s: State<R>) {
    exists steps :: Possible(cfg, Initial(cfg), steps) && s == Run(cfg, Initial(cfg), steps)
  }

  lemma ReachableSound<R(!new)>(cfg: Config<R>, s: State<R>)
    requires Reachable(cfg, s)
    ensures Sound(cfg, s)
  {
    var steps :| Possible(cfg, Initial(cfg), steps) && s == Run(cfg, Initial(cfg), steps);
    InitialSound(cfg);
    RunSound(cfg, Initial(cfg), steps);
  }

  // ---------------------------------------------------------------- the registry

  /**
   In every reachable state a future absent from _pending is done, and so is that of a request a worker left behind.
   */
  lemma AbsentMeansDone<R(!new)>(cfg: Config<R>, s: State<R>, id: string)
    requires Reachable(cfg, s) && id in s.handlers
    ensures id in s.reg.futures
    ensures id !in s.reg.pending ==> IsDone(s.reg.futures[id])
    ensures id in s.finished ==> IsDone(s.reg.futures[id])
  {
    ReachableSound(cfg, s);
  }

  /** The request a worker drops as an orphan is one whose future was already done. */
  lemma OrphanIsDone<R(!new)>(cfg: Config<R>, s: State<R>, w: nat)
    requires Reachable(cfg, s) && w < |s.workers| && s.workers[w].Holding?
    requires s.workers[w].item.requestId !in s.reg.pending
    ensures var id := s.workers[w].item.requestId; id in s.reg.futures && IsDone(s.reg.futures[id])
  {
    ReachableSound(cfg, s);
  }

  /** A future is completed at most once: from the state that finds it done, no continuation changes it. */
  lemma CompletedOnce<R(!new)>(cfg: Config<R>, s: State<R>, steps: seq<Step>, id: string)
    requires Reachable(cfg, s) && Possible(cfg, s, steps) && id in s.reg.futures && IsDone(s.reg.futures[id])
    ensures var after := Run(cfg, s, steps).reg.futures; id in after && after[id] == s.reg.futures[id]
  {
    ReachableSound(cfg, s);
    RunSound(cfg, s, steps);
  }

  /** After stop, with no later registration, every future ever registered is done: those that waited are cancelled. */
  lemma StopLeavesNoneWaiting<R(!new)>(cfg: Config<R>, s: State<R>, later: seq<Step>, id: string)
    requires Reachable(cfg, s) && Enabled(cfg, s, StopEnd) && Possible(cfg, Next(cfg, s, StopEnd), later)
    requires forall i | 0 <= i < |later| :: !later[i].Register?
    requires id in s.reg.futures
    ensures var end := Run(cfg, Next(cfg, s, StopEnd), later).reg;
      && end.pending == {} && id in end.futures
      && end.futures[id] == if s.reg.futures[id].Waiting? then Cancelled else s.reg.futures[id]
  {
    ReachableSound(cfg, s);
    StepSound(cfg, s, StopEnd);
    RunSound(cfg, Next(cfg, s, StopEnd), later);
    NoneArrive(cfg, Next(cfg, s, StopEnd), later);
  }

  lemma {:induction false} NoneArrive<R>(cfg: Config<R>, s: State<R>, steps: seq<Step>)
    requires Possible(cfg, s, steps) && s.reg.pending == {}
    requires forall i | 0 <= i < |steps| :: !steps[i].Register?
    ensures Run(cfg, s, steps).reg.pending == {}
    decreases |steps|
  {
    if steps != [] {
      if steps[0].Resume? { ReplyShape(cfg, s, steps[0].w, s.workers[steps[0].w].item, steps[0].now); }
      NoneArrive(cfg, Next(cfg, s, steps[0]), steps[1..]);
    }
  }

  // ---------------------------------------------------------------- what the steps do

  /** A handler's steps: a waiting, pending future; its cancellation on a timeout; and none pending afterwards. */
  lemma HandlerSteps<R(!new)>(cfg: Config<R>, s: State<R>, id: string, request: Request)
    requires Reachable(cfg, s)
    ensures Enabled(cfg, s, Register(id, request)) ==>
      var after := Next(cfg, s, Register(id, request)); var reg := after.reg;
      id in reg.pending && id in reg.futures && reg.futures[id].Waiting? && Enabled(cfg, after, ZAdd(id, 0.0))
    ensures Enabled(cfg, s, Expire(id)) ==>
      var reg := Next(cfg, s, Expire(id)).reg;
      && id in s.reg.futures && id in reg.futures && reg.pending == s.reg.pending
      && reg.futures[id] == if s.reg.futures[id].Waiting? then Cancelled else s.reg.futures[id]
    ensures Enabled(cfg, s, Unregister(id)) ==>
      var reg := Next(cfg, s, Unregister(id)).reg;
      && id in s.reg.futures && id in reg.futures && id !in reg.pending
      && reg.futures[id] == if s.reg.futures[id].Waiting? then Cancelled else s.reg.futures[id]
  {
    ReachableSound(cfg, s);
    RegistryEffects(s.reg, id, Cancelled);
  }

  /** The sorted set of the pipeline does what PriorityQueue's Enqueue promises. */
  lemma EnqueueStep<R(!new)>(cfg: Config<R>, s: State<R>, id: string, now: real)
    requires Reachable(cfg, s) && Enabled(cfg, s, ZAdd(id, now))
    ensures id in s.requests
    ensures Members(Next(cfg, s, ZAdd(id, now)).zset) ==
      Members(s.zset) + {Item(id, s.requests[id].priority, now, s.requests[id].payload)}
  {
    MembersAppend(s.zset, Item(id, s.requests[id].priority, now, s.requests[id].payload));
  }

  /** And what its Dequeue promises: one worker holds a front item, and that item alone is gone from the set. */
  lemma DequeueStep<R(!new)>(cfg: Config<R>, s: State<R>, w: nat, k: nat)
    requires Reachable(cfg, s) && !s.stopping && Enabled(cfg, s, Pop(w, k))
    ensures var after := Next(cfg, s, Pop(w, k));
      && w < |after.workers| && after.workers[w].Holding? && IsFront(Members(s.zset), after.workers[w].item)
      && Members(after.zset) == Members(s.zset) - {after.workers[w].item}
  {
    ReachableSound(cfg, s);
    assert Accounted(s, s.zset[k].requestId);
    MembersRemove(s.zset, k);
  }

  lemma MembersConcat(a: seq<Item>, b: seq<Item>)
    ensures Members(a + b) == Members(a) + Members(b)
  {
    forall i | 0 <= i < |b| ensures b[i] in Members(a + b) { assert (a + b)[|a| + i] == b[i]; }
    forall i | 0 <= i < |a| ensures a[i] in Members(a + b) { assert (a + b)[i] == a[i]; }
  }

  lemma MembersOne(x: Item)
    ensures Members([x]) == {x}
  {
    assert [x][0] == x;
  }

  lemma MembersAppend(items: seq<Item>, x: Item)
    ensures Members(items + [x]) == Members(items) + {x}
  {
    MembersConcat(items, [x]);
    MembersOne(x);
  }

  lemma NotCounted(items: seq<Item>, x: Item)
    requires Count(items, x.requestId) == 0
    ensures x !in Members(items)
  {
    if x in Members(items) { CountHas(items, x); }
  }

  lemma MembersSplice(a: seq<Item>, x: Item, b: seq<Item>)
    requires Count(a + b, x.requestId) == 0
    ensures Members(a + b) == Members((a + [x]) + b) - {x}
  {
    NotCounted(a + b, x);
    MembersAppend(a, x);
    MembersConcat(a + [x], b);
    MembersConcat(a, b);
  }

  lemma SplitAt(items: seq<Item>, k: nat) returns (a: seq<Item>, b: seq<Item>)
    requires k < |items|
    ensures a == items[..k] && b == items[k + 1..] && items == (a + [items[k]]) + b
  {
    a, b := items[..k], items[k + 1..];
  }

  lemma MembersRemove(items: seq<Item>, k: nat)
    requires k < |items| && Count(items, items[k].requestId) <= 1
    ensures Members(items[..k] + items[k + 1..]) == Members(items) - {items[k]}
  {
    var a, b := SplitAt(items, k);
    CountRemove(items, k, items[k].requestId);
    MembersSplice(a, items[k], b);
  }

  /**
   What a worker does with a dequeued request: an orphan is dropped and the breaker not asked; a request the breaker
   refuses leaves the pending ones with an exception, and nothing is recorded; an admitted one is submitted or run.
   */
  lemma ReplyReachesFuture<R(!new)>(cfg: Config<R>, s: State<R>, w: nat, now: real)
    requires Reachable(cfg, s) && Enabled(cfg, s, Resume(w, now))
    ensures var item := s.workers[w].item; var s' := Next(cfg, s, Resume(w, now)); var id := item.requestId;
      && id in s.reg.futures
      && (if id !in s.reg.pending then Dropped(s, s', w)
          else if Breaker.AllowSpec(cfg.breaker, s.breaker, now).1 then Admitted(cfg, s, s', w, item)
          else Refused(s, s', w, id))
  {
    ReachableSound(cfg, s);
    assert Own(s.requests, s.workers[w].item);
    ReplyEffects(cfg, s, w, now);
  }

  lemma ReplyEffects<R>(cfg: Config<R>, s: State<R>, w: nat, now: real)
    requires Enabled(cfg, s, Resume(w, now)) && s.workers[w].item.requestId in s.reg.futures
    ensures var item := s.workers[w].item; var s' := AfterReply(cfg, s, w, item, now); var id := item.requestId;
      if id !in s.reg.pending then Dropped(s, s', w)
      else if Breaker.AllowSpec(cfg.breaker, s.breaker, now).1 then Admitted(cfg, s, s', w, item)
      else Refused(s, s', w, id)
  {
  }

  ghost predicate Dropped<R>(s: State<R>, s': State<R>, w: nat) {
    w < |s'.workers| && s'.workers[w] == Polling && s'.reg == s.reg && s'.breaker == s.breaker
  }

  /** The worker awaits its place in the batch queue, or the executor; no future has changed. */
  ghost predicate Admitted<R>(cfg: Config<R>, s: State<R>, s': State<R>, w: nat, item: Item) {
    && w < |s'.workers| && s'.workers[w] == (if cfg.batched then Submitted(item) else Running(item))
    && s'.queue == s.queue + (if cfg.batched then [item] else []) && s'.reg == s.reg
  }

  /** The future, if it still waited, holds the exception; no outcome is recorded. */
  ghost predicate Refused<R>(s: State<R>, s': State<R>, w: nat, id: string)
    requires id in s.reg.futures
  {
    && w < |s'.workers| && s'.workers[w] == Polling && s'.breaker.failures == s.breaker.failures
    && id !in s'.reg.pending && id in s'.reg.futures
    && s'.reg.futures[id] == if s.reg.futures[id].Waiting? then Raised else s.reg.futures[id]
  }

  // ---------------------------------------------------------------- delivery

  lemma {:induction false} RequestsStay<R>(cfg: Config<R>, s: State<R>, steps: seq<Step>, id: string)
    requires Sound(cfg, s) && Possible(cfg, s, steps) && id in s.requests
    ensures var after := Run(cfg, s, steps).requests; id in after && after[id] == s.requests[id]
    decreases |steps|
  {
    if steps != [] {
      if steps[0].Resume? { ReplyShape(cfg, s, steps[0].w, s.workers[steps[0].w].item, steps[0].now); }
      StepSound(cfg, s, steps[0]);
      RequestsStay(cfg, Next(cfg, s, steps[0]), steps[1..], id);
    }
  }

  /**
   A future that gets a result gets one computed from the request it was registered for: by a run of its own if
   batching is off, or in its own place of a batch that ran.
   */
  lemma CorrectDelivery<R(!new)>(cfg: Config<R>, s: State<R>, id: string, request: Request, steps: seq<Step>)
    requires Reachable(cfg, s) && Enabled(cfg, s, Register(id, request))
    requires Possible(cfg, Next(cfg, s, Register(id, request)), steps)
    ensures var end := Run(cfg, Next(cfg, s, Register(id, request)), steps); var futures := end.reg.futures;
      && id in futures
      && (futures[id].Done? ==> FromOwn(cfg, end.ran, id, request.payload, futures[id].value))
  {
    var arrived := Next(cfg, s, Register(id, request));
    ReachableSound(cfg, s);
    StepSound(cfg, s, Register(id, request));
    RunSound(cfg, arrived, steps);
    RequestsStay(cfg, arrived, steps, id);
  }

  /**
   What a waiting handler gets when its worker finishes: the request's own result, or an exception if inference failed.
   */
  lemma OutcomeReachesFuture<R(!new)>(cfg: Config<R>, s: State<R>, w: nat, ok: bool, now: real)
    requires Reachable(cfg, s) && Enabled(cfg, s, FinishRun(w, ok, now))
    ensures var id := s.workers[w].item.requestId; var s' := Next(cfg, s, FinishRun(w, ok, now));
      && id in s.requests && id in s.reg.futures && id in s'.reg.futures
      && (s.reg.futures[id].Waiting? ==>
            s'.reg.futures[id] == if ok then Done(cfg.gen(s.requests[id].payload)) else Raised)
      && s'.breaker.failures == (if ok then 0 else s.breaker.failures + 1)
      && (if ok then s'.breaker.state == Breaker.CLOSED else s'.breaker.lastFailure == now)
  {
    ReachableSound(cfg, s);
    assert Own(s.requests, s.workers[w].item);
  }

  /** A batch's answer for each item stands in the item's own outcome, and a worker is there to take it. */
  lemma BatchAnswerAwaited<R(!new)>(cfg: Config<R>, s: State<R>, ok: bool, i: nat) returns (w: nat)
    requires Reachable(cfg, s) && !s.stopping && Enabled(cfg, s, ExecuteDone(ok)) && i < |s.batch|
    ensures w < |s.workers| && Awaits(s.workers[w], s.batch[i].requestId)
    ensures var after := Next(cfg, s, ExecuteDone(ok)).outcomes; var results := cfg.genBatch(Payloads(s.batch));
      && s.batch[i].requestId in after
      && (ok && i < |results| ==> after[s.batch[i].requestId] == Done(results[i]))
      && (!ok || |results| <= i ==> after[s.batch[i].requestId] == Raised)
  {
    ReachableSound(cfg, s);
    BatchAnswers(cfg, s, ok, i);
    assert Accounted(s, s.batch[i].requestId);
    CountRemove(s.batch, i, s.batch[i].requestId);
    w := TallyHas(s.workers, Awaits, s.batch[i].requestId);
  }

  lemma OutcomeStaysStep<R>(cfg: Config<R>, s: State<R>, step: Step, id: string)
    requires Enabled(cfg, s, step) && id in s.outcomes
    ensures var s' := Next(cfg, s, step);
      && s.finished <= s'.finished
      && (id !in s'.finished ==> id in s'.outcomes && s'.outcomes[id] == s.outcomes[id])
  {
    match step
    case Resume(w, now) => ReplyShape(cfg, s, w, s.workers[w].item, now);
    case ExecuteDone(ok) => ResolveKeeps(cfg, s.outcomes, s.batch, ok, |s.batch|, id);
    case _ =>
  }

  lemma {:induction false} ResolveKeeps<R>(cfg: Config<R>, outcomes: map<string, Future<R>>, batch: seq<Item>, ok: bool,
                                           n: nat, id: string)
    requires n <= |batch| && id in outcomes
    ensures var after := Resolve(cfg, outcomes, batch, ok, n); id in after && after[id] == outcomes[id]
  {
    if n > 0 { ResolveKeeps(cfg, outcomes, batch, ok, n - 1, id); }
  }

  lemma {:induction false} FinishedStays<R>(cfg: Config<R>, s: State<R>, steps: seq<Step>, id: string)
    requires Possible(cfg, s, steps) && id in s.finished
    ensures id in Run(cfg, s, steps).finished
    decreases |steps|
  {
    if steps != [] {
      if steps[0].Resume? { ReplyShape(cfg, s, steps[0].w, s.workers[steps[0].w].item, steps[0].now); }
      FinishedStays(cfg, Next(cfg, s, steps[0]), steps[1..], id);
    }
  }

  /** A batch outcome stays as it is until a worker takes it and leaves the request behind. */
  lemma {:induction false} OutcomeStays<R>(cfg: Config<R>, s: State<R>, steps: seq<Step>, id: string)
    requires Possible(cfg, s, steps) && id in s.outcomes && id !in Run(cfg, s, steps).finished
    ensures var end := Run(cfg, s, steps); id in end.outcomes && end.outcomes[id] == s.outcomes[id]
    decreases |steps|
  {
    if steps != [] {
      var s' := Next(cfg, s, steps[0]);
      OutcomeStaysStep(cfg, s, steps[0], id);
      if id in s'.finished { FinishedStays(cfg, s', steps[1..], id); }
      OutcomeStays(cfg, s', steps[1..], id);
    }
  }

  /**
   A batch's answers arrive: whatever happens after the batch, the worker that takes an item's outcome completes the
   item's future, if it still waits, with the batch's result in the item's own place, or with an exception if there is
   none.
   */
  lemma BatchAnswerArrives<R(!new)>(cfg: Config<R>, s: State<R>, ok: bool, i: nat, later: seq<Step>, w: nat, now: real)
    requires Reachable(cfg, s) && !s.stopping && Enabled(cfg, s, ExecuteDone(ok)) && i < |s.batch|
    requires Possible(cfg, Next(cfg, s, ExecuteDone(ok)), later)
    requires var at := Run(cfg, Next(cfg, s, ExecuteDone(ok)), later);
      && s.batch[i].requestId !in at.finished
      && Enabled(cfg, at, TakeOutcome(w, now)) && at.workers[w].item.requestId == s.batch[i].requestId
    ensures var at := Run(cfg, Next(cfg, s, ExecuteDone(ok)), later); var id := s.batch[i].requestId;
      var results := cfg.genBatch(Payloads(s.batch)); var after := Next(cfg, at, TakeOutcome(w, now)).reg.futures;
      && id in at.reg.futures && id in after
      && (at.reg.futures[id].Waiting? && ok && i < |results| ==> after[id] == Done(results[i]))
      && (at.reg.futures[id].Waiting? && (!ok || |results| <= i) ==> after[id] == Raised)
      && (!at.reg.futures[id].Waiting? ==> after[id] == at.reg.futures[id])
  {
    var done, id := Next(cfg, s, ExecuteDone(ok)), s.batch[i].requestId;
    ReachableSound(cfg, s);
    BatchAnswers(cfg, s, ok, i);
    StepSound(cfg, s, ExecuteDone(ok));
    RunSound(cfg, done, later);
    OutcomeStays(cfg, done, later, id);
    TakenOutcome(cfg, Run(cfg, done, later), w, now);
  }

  lemma TakenOutcome<R>(cfg: Config<R>, s: State<R>, w: nat, now: real)
    requires Sound(cfg, s) && Enabled(cfg, s, TakeOutcome(w, now))
    ensures var id := s.workers[w].item.requestId; var after := Next(cfg, s, TakeOutcome(w, now)).reg.futures;
      && id in s.reg.futures && id in after
      && after[id] == if s.reg.futures[id].Waiting? then s.outcomes[id] else s.reg.futures[id]
  {
    assert Own(s.requests, s.workers[w].item);
  }

  /** What a waiting handler gets when its worker takes the batch outcome: that very outcome. */
  lemma TakenOutcomeReachesFuture<R(!new)>(cfg: Config<R>, s: State<R>, w: nat, now: real)
    requires Reachable(cfg, s) && Enabled(cfg, s, TakeOutcome(w, now))
    ensures var id := s.workers[w].item.requestId; var s' := Next(cfg, s, TakeOutcome(w, now));
      && id in s.reg.futures && id in s'.reg.futures
      && (s.reg.futures[id].Waiting? ==> s'.reg.futures[id] == s.outcomes[id])
      && s'.breaker.failures == if s.outcomes[id].Done? then 0 else s.breaker.failures + 1
  {
    ReachableSound(cfg, s);
    assert Own(s.requests, s.workers[w].item);
  }

  /** The request has been enqueued: its handler is past the enqueue. */
  ghost predicate Past<R>(s: State<R>, id: string) {
    id in s.handlers && s.handlers[id] != Enqueuing
  }

  lemma GoneStaysStep<R>(cfg: Config<R>, s: State<R>, step: Step, x: Item)
    requires Enabled(cfg, s, step) && Past(s, x.requestId)
    ensures Past(Next(cfg, s, step), x.requestId) && (x in Next(cfg, s, step).zset ==> x in s.zset)
  {
    if step.Resume? { ReplyShape(cfg, s, step.w, s.workers[step.w].item, step.now); }
  }

  /** An item that has left the sorted set does not come back. */
  lemma {:induction false} GoneStays<R>(cfg: Config<R>, s: State<R>, steps: seq<Step>, x: Item)
    requires Possible(cfg, s, steps) && Past(s, x.requestId)
    ensures Past(Run(cfg, s, steps), x.requestId) && (x in Run(cfg, s, steps).zset ==> x in s.zset)
    decreases |steps|
  {
    if steps != [] {
      GoneStaysStep(cfg, s, steps[0], x);
      GoneStays(cfg, Next(cfg, s, steps[0]), steps[1..], x);
    }
  }

  lemma {:induction false} CountHas(items: seq<Item>, x: Item)
    requires x in items
    ensures Count(items, x.requestId) >= 1
  {
    var k: nat :| k < |items| && items[k] == x;
    CountRemove(items, k, x.requestId);
  }

  /**
   No overtaking over runs: while a request stays in the sorted set, through whatever everyone does, no worker pops one
   that it stands ahead of, by tier or by arrival within the tier.
   */
  lemma WaitingIsNotOvertaken<R(!new)>(cfg: Config<R>, s: State<R>, before: seq<Step>, w: nat, k: nat, later: seq<Step>,
                                       x: Item)
    requires Reachable(cfg, s) && !s.stopping && Possible(cfg, s, before)
    requires Enabled(cfg, Run(cfg, s, before), Pop(w, k))
    requires Possible(cfg, Next(cfg, Run(cfg, s, before), Pop(w, k)), later)
    requires x in s.zset && x in Run(cfg, Next(cfg, Run(cfg, s, before), Pop(w, k)), later).zset
    requires InRange(x) && InRange(Run(cfg, s, before).zset[k])
    ensures !Before(x, Run(cfg, s, before).zset[k])
  {
    var at := Run(cfg, s, before);
    ReachableSound(cfg, s);
    assert Accounted(s, x.requestId);
    CountHas(s.zset, x);
    GoneStays(cfg, s, before, x);
    GoneStaysStep(cfg, at, Pop(w, k), x);
    GoneStays(cfg, Next(cfg, at, Pop(w, k)), later, x);
    assert x in Members(at.zset);
    ScoreIsLexicographic(x, at.zset[k]);
  }

  // ---------------------------------------------------------------- conservation

  /** Without stop every enqueued request is in exactly one place, and while its future waits it is still under way. */
  lemma ExactlyOnePlace<R(!new)>(cfg: Config<R>, s: State<R>, id: string)
    requires Reachable(cfg, s) && !s.stopping
    ensures Accounted(s, id)
    ensures id in s.enqueued ==> id in s.reg.futures
    ensures var l := LedgerOf(s, id);
      id in s.enqueued && s.reg.futures[id].Waiting? ==> l.zset + l.hand + l.queue + l.batch + One(l.outcome) == 1
  {
    ReachableSound(cfg, s);
    assert Accounted(s, id);
  }

  /**
   Without stop each collected batch is a contiguous run of the submissions, of 1 to max(1, max_batch_size) items and no
   more than there are workers.
   */
  lemma BatchesAreRuns<R(!new)>(cfg: Config<R>, s: State<R>)
    requires Reachable(cfg, s) && !s.stopping
    ensures Flat(s.ran) + s.batch + s.queue == s.submitted
    ensures s.collector != Idle ==> 1 <= |s.batch| <= Batcher.Max(1, cfg.maxBatch) && |s.batch| <= cfg.numWorkers
  {
    ReachableSound(cfg, s);
    BatchWithinWorkers(cfg, s);
  }

  // ---------------------------------------------------------------- progress

  ghost predicate AllWork(steps: seq<Step>) {
    forall i | 0 <= i < |steps| :: IsWork(steps[i])
  }

  lemma WorkKeepsGoing<R>(cfg: Config<R>, s: State<R>, steps: seq<Step>)
    requires Possible(cfg, s, steps) && AllWork(steps) && Sound(cfg, s)
    ensures Run(cfg, s, steps).stopping == s.stopping && |steps| + Rank(Run(cfg, s, steps)) <= Rank(s)
    decreases |steps|
  {
    if steps != [] {
      StoppingStays(cfg, s, steps[0]);
      WorkShrinks(cfg, s, steps[0]);
      StepSound(cfg, s, steps[0]);
      WorkKeepsGoing(cfg, Next(cfg, s, steps[0]), steps[1..]);
    }
  }

  /**
   Whatever order workers and collector move in, and whatever inference answers, they take at most Rank(s) steps; and
   once none is left every enqueued request has its future done and the breaker is not HALF_OPEN.
   */
  lemma EveryScheduleFinishes<R(!new)>(cfg: Config<R>, s: State<R>, work: seq<Step>)
    requires Reachable(cfg, s) && !s.stopping && cfg.numWorkers >= 1
    requires Possible(cfg, s, work) && AllWork(work)
    ensures |work| <= Rank(s)
    ensures var end := Run(cfg, s, work); !CanWork(cfg, end) ==>
      && (forall id | id in end.enqueued :: id in end.reg.futures && IsDone(end.reg.futures[id]))
      && (cfg.breaker.halfOpenMaxCalls >= 1 ==> end.breaker.state != Breaker.HALF_OPEN)
  {
    ReachableSound(cfg, s);
    RunSound(cfg, s, work);
    WorkKeepsGoing(cfg, s, work);
    var end := Run(cfg, s, work);
    if !CanWork(cfg, end) {
      StuckMeansDone(cfg, end);
      forall id | id in end.enqueued ensures id in end.reg.futures && IsDone(end.reg.futures[id]) {
        assert id in end.finished;
      }
    }
  }

  lemma WorkStep<R(!new)>(cfg: Config<R>, s: State<R>) returns (step: Step, s': State<R>)
    requires Sound(cfg, s) && CanWork(cfg, s)
    ensures IsWork(step) && Enabled(cfg, s, step) && s' == Next(cfg, s, step) && Sound(cfg, s') && Rank(s') < Rank(s)
  {
    step :| IsWork(step) && Enabled(cfg, s, step);
    WorkShrinks(cfg, s, step);
    StepSound(cfg, s, step);
    s' := Next(cfg, s, step);
  }

  lemma ScheduleCons<R>(cfg: Config<R>, s: State<R>, step: Step, rest: seq<Step>)
    requires IsWork(step) && Enabled(cfg, s, step) && Possible(cfg, Next(cfg, s, step), rest) && AllWork(rest)
    ensures var work := [step] + rest;
      Possible(cfg, s, work) && Run(cfg, s, work) == Run(cfg, Next(cfg, s, step), rest) && AllWork(work)
  {
    assert ([step] + rest)[1..] == rest;
  }

  /** Such a schedule exists from every state. */
  lemma {:induction false} ScheduleExists<R(!new)>(cfg: Config<R>, s: State<R>) returns (work: seq<Step>)
    requires Sound(cfg, s)
    ensures Possible(cfg, s, work) && AllWork(work) && !CanWork(cfg, Run(cfg, s, work))
    decreases Rank(s)
  {
    work := [];
    if CanWork(cfg, s) {
      var step, s' := WorkStep(cfg, s);
      var rest := ScheduleExists(cfg, s');
      ScheduleCons(cfg, s, step, rest);
      work := [step] + rest;
    }
  }

  // ---------------------------------------------------------------- the breaker

  /**
   Without stop a HALF_OPEN breaker has 1 to max probes out, and at least as many workers granted one and yet to
   record.
   */
  lemma HalfOpenIsOwed<R(!new)>(cfg: Config<R>, s: State<R>) returns (w: nat)
    requires Reachable(cfg, s) && !s.stopping && cfg.breaker.halfOpenMaxCalls >= 1
    requires s.breaker.state == Breaker.HALF_OPEN
    ensures 1 <= s.breaker.halfOpenCalls <= cfg.breaker.halfOpenMaxCalls && s.breaker.halfOpenCalls <= Owed(s)
    ensures w < |s.workers| && Owes(s.workers[w], "")
  {
    ReachableSound(cfg, s);
    w := TallyHas(s.workers, Owes, "");
  }

  /** With half_open_max_calls below 1, once HALF_OPEN with no grant outstanding the breaker never changes again. */
  lemma {:induction false} WedgedForever<R>(cfg: Config<R>, s: State<R>, steps: seq<Step>)
    requires cfg.breaker.halfOpenMaxCalls < 1 && s.breaker.state == Breaker.HALF_OPEN && Owed(s) == 0
    requires Possible(cfg, s, steps)
    ensures Run(cfg, s, steps).breaker == s.breaker
    decreases |steps|
  {
    if steps != [] {
      WedgedStep(cfg, s, steps[0]);
      WedgedForever(cfg, Next(cfg, s, steps[0]), steps[1..]);
    }
  }

  lemma WedgedStep<R>(cfg: Config<R>, s: State<R>, step: Step)
    requires cfg.breaker.halfOpenMaxCalls < 1 && s.breaker.state == Breaker.HALF_OPEN && Owed(s) == 0
    requires Enabled(cfg, s, step)
    ensures Next(cfg, s, step).breaker == s.breaker && Owed(Next(cfg, s, step)) == 0
  {
    match step
    case Pop(w, k) => TallyUpdate(s.workers, Owes, "", w, Holding(s.zset[k]));
    case Resume(w, now) =>
      NoProbesWedges(cfg.breaker, s.breaker, now, now);
      TallyUpdate(s.workers, Owes, "", w, Polling);
    case FinishRun(w, _, _) => TallyUpdate(s.workers, Owes, "", w, Polling);
    case TakeOutcome(w, _) => TallyUpdate(s.workers, Owes, "", w, Polling);
    case StopWorker(w) => TallyUpdate(s.workers, Owes, "", w, Stopped);
    case _ =>
  }
}
