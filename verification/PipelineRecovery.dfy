/**
 Recovery from HALF_OPEN, exactly: with at least one probe allowed every reachable pipeline can leave it, and with none
 some run of failed requests ends in a HALF_OPEN breaker that no step ever changes.
 */
module PipelineRecovery {
  import opened Options
  import opened WorkerPool
  import opened PriorityQueue
  import opened Pipeline
  import opened PipelineSafety
  import opened PipelineRuns

  lemma {:induction false} RunThenStep<R>(cfg: Config<R>, s: State<R>, steps: seq<Step>, last: Step)
    requires Possible(cfg, s, steps) && Enabled(cfg, Run(cfg, s, steps), last)
    ensures Possible(cfg, s, steps + [last])
    ensures Run(cfg, s, steps + [last]) == Next(cfg, Run(cfg, s, steps), last)
    decreases |steps|
  {
    if steps == [] {
      assert ([] + [last])[1..] == [];
    } else {
      assert (steps + [last])[1..] == steps[1..] + [last];
      RunThenStep(cfg, Next(cfg, s, steps[0]), steps[1..], last);
    }
  }

  lemma ReachableStep<R(!new)>(cfg: Config<R>, s: State<R>, step: Step)
    requires Reachable(cfg, s) && Enabled(cfg, s, step)
    ensures Reachable(cfg, Next(cfg, s, step))
  {
    var steps :| Possible(cfg, Initial(cfg), steps) && s == Run(cfg, Initial(cfg), steps);
    RunThenStep(cfg, Initial(cfg), steps, step);
  }

  lemma {:induction false} LongerThanAll(used: set<string>) returns (n: nat)
    ensures forall id | id in used :: |id| < n
  {
    n := 0;
    if used != {} {
      var id :| id in used;
      var m := LongerThanAll(used - {id});
      n := if m <= |id| then |id| + 1 else m;
    }
  }

  /** There is always a request id not yet used. */
  lemma FreshId(used: set<string>) returns (id: string)
    ensures id !in used
  {
    var n := LongerThanAll(used);
    id := seq(n, _ => 'a');
  }

  /** Nothing under way: every worker at its dequeue, and nothing queued, collected or answered. */
  ghost predicate Quiet<R>(cfg: Config<R>, s: State<R>) {
    && !s.stopping && |s.workers| == cfg.numWorkers && (forall w | 0 <= w < |s.workers| :: s.workers[w] == Polling)
    && s.zset == [] && s.queue == [] && s.batch == [] && s.collector == Idle && s.outcomes == map[]
  }

  /** Otherwise quiet, worker 0 stands at worker with the one request under way. */
  ghost predicate BusyWith<R>(cfg: Config<R>, s: State<R>, worker: Worker) {
    s.workers != [] && s.workers[0] == worker && Quiet(cfg, s.(workers := s.workers[0 := Polling]))
  }

  lemma OnlyItemIsFront(item: Item)
    ensures IsFront(Members([item]), item)
  {
    assert [item][0] in Members([item]);
  }

  /** A request arrives and worker 0 pops it. */
  lemma Arrive<R(!new)>(cfg: Config<R>, s: State<R>, now: real) returns (item: Item, s': State<R>)
    requires Reachable(cfg, s) && Quiet(cfg, s) && cfg.numWorkers >= 1
    ensures Reachable(cfg, s') && BusyWith(cfg, s', Holding(item)) && item.requestId in s'.reg.pending
    ensures s'.breaker == s.breaker
  {
    var id := FreshId(s.handlers.Keys);
    var request := Request(0, Payload("", 0, 0.0, None));
    ReachableStep(cfg, s, Register(id, request));
    var arrived := Next(cfg, s, Register(id, request));
    ReachableStep(cfg, arrived, ZAdd(id, now));
    var queued := Next(cfg, arrived, ZAdd(id, now));
    item := Item(id, 0, now, request.payload);
    assert queued.zset == [item];
    OnlyItemIsFront(item);
    ReachableStep(cfg, queued, Pop(0, 0));
    s' := Next(cfg, queued, Pop(0, 0));
    assert s'.workers[0 := Polling] == s.workers;
  }

  /** Batching off: the worker's own inference raises. */
  lemma RunFails<R(!new)>(cfg: Config<R>, s: State<R>, item: Item, now: real) returns (s': State<R>)
    requires Reachable(cfg, s) && BusyWith(cfg, s, Running(item))
    ensures Reachable(cfg, s') && Quiet(cfg, s') && s'.breaker == Breaker.FailureSpec(cfg.breaker, s.breaker, now)
  {
    ReachableStep(cfg, s, FinishRun(0, false, now));
    s' := Next(cfg, s, FinishRun(0, false, now));
  }

  lemma RaisedOutcome<R>(cfg: Config<R>, item: Item)
    ensures Resolve(cfg, map[], [item], false, 1) == map[item.requestId := Raised]
  {
    assert Resolve(cfg, map[], [item], false, 0) == map[];
  }

  /** Batching on: the collector takes the only submission and its batch raises. */
  lemma BatchRaises<R(!new)>(cfg: Config<R>, s: State<R>, item: Item) returns (s': State<R>)
    requires Reachable(cfg, s) && BusyWith(cfg, s.(queue := []), Submitted(item)) && s.queue == [item]
    ensures Reachable(cfg, s') && BusyWith(cfg, s'.(outcomes := map[]), Submitted(item)) && s'.breaker == s.breaker
    ensures s'.outcomes == map[item.requestId := Raised]
  {
    ReachableStep(cfg, s, Collect);
    var gathering := Next(cfg, s, Collect);
    assert gathering.batch == [item] && gathering.queue == [];
    ReachableStep(cfg, gathering, Flush);
    var executing := Next(cfg, gathering, Flush);
    assert executing.batch == [item] && executing.queue == [];
    ReachableStep(cfg, executing, ExecuteDone(false));
    s' := Next(cfg, executing, ExecuteDone(false));
    RaisedOutcome(cfg, item);
  }

  lemma TakeRaised<R(!new)>(cfg: Config<R>, s: State<R>, item: Item, now: real) returns (s': State<R>)
    requires Reachable(cfg, s) && BusyWith(cfg, s.(outcomes := map[]), Submitted(item))
    requires s.outcomes == map[item.requestId := Raised]
    ensures Reachable(cfg, s') && Quiet(cfg, s') && s'.breaker == Breaker.FailureSpec(cfg.breaker, s.breaker, now)
  {
    ReachableStep(cfg, s, TakeOutcome(0, now));
    s' := Next(cfg, s, TakeOutcome(0, now));
    assert s'.outcomes == map[];
  }

  /** From a quiet state with a CLOSED breaker, one request whose inference raises counts one failure. */
  lemma OneFailure<R(!new)>(cfg: Config<R>, s: State<R>) returns (s': State<R>)
    requires Reachable(cfg, s) && Quiet(cfg, s) && cfg.numWorkers >= 1 && s.breaker.state == Breaker.CLOSED
    ensures Reachable(cfg, s') && Quiet(cfg, s') && s'.breaker == Breaker.FailureSpec(cfg.breaker, s.breaker, 0.0)
  {
    var item, held := Arrive(cfg, s, 0.0);
    ReachableStep(cfg, held, Resume(0, 0.0));
    var begun := Next(cfg, held, Resume(0, 0.0));
    assert begun.workers[0 := Polling] == held.workers[0 := Polling];
    if cfg.batched {
      assert begun.queue == [item];
      var raised := BatchRaises(cfg, begun, item);
      s' := TakeRaised(cfg, raised, item, 0.0);
    } else {
      s' := RunFails(cfg, begun, item, 0.0);
    }
  }

  /** Enough failed requests trip the breaker. */
  lemma {:induction false} FailuresTrip<R(!new)>(cfg: Config<R>, s: State<R>) returns (s': State<R>)
    requires Reachable(cfg, s) && Quiet(cfg, s) && cfg.numWorkers >= 1
    requires s.breaker.state == Breaker.CLOSED && s.breaker.failures < Breaker.TripsAt(cfg.breaker)
    ensures Reachable(cfg, s') && Quiet(cfg, s') && s'.breaker.state == Breaker.OPEN
    decreases Breaker.TripsAt(cfg.breaker) - s.breaker.failures
  {
    s' := OneFailure(cfg, s);
    if s'.breaker.state != Breaker.OPEN { s' := FailuresTrip(cfg, s'); }
  }

  /** With no probe allowed, the request after the recovery timeout finds HALF_OPEN, is refused, and leaves it so. */
  lemma RefusedProbe<R(!new)>(cfg: Config<R>, s: State<R>) returns (s': State<R>)
    requires Reachable(cfg, s) && Quiet(cfg, s) && cfg.numWorkers >= 1
    requires s.breaker.state == Breaker.OPEN && cfg.breaker.halfOpenMaxCalls < 1
    ensures Reachable(cfg, s') && Quiet(cfg, s') && s'.breaker.state == Breaker.HALF_OPEN
  {
    var wait := if cfg.breaker.recoveryTimeout >= 0.0 then cfg.breaker.recoveryTimeout else 0.0;
    var now := s.breaker.lastFailure + wait;
    var item, held := Arrive(cfg, s, now);
    NoProbesWedges(cfg.breaker, held.breaker, now, now);
    ReachableStep(cfg, held, Resume(0, now));
    s' := Next(cfg, held, Resume(0, now));
    assert s'.workers == held.workers[0 := Polling];
  }

  /** With no probe allowed, a run without stop reaches HALF_OPEN with no worker owing the breaker an outcome. */
  lemma WedgeReachable<R(!new)>(cfg: Config<R>) returns (s: State<R>)
    requires cfg.numWorkers >= 1 && cfg.breaker.halfOpenMaxCalls < 1
    ensures Reachable(cfg, s) && !s.stopping && s.breaker.state == Breaker.HALF_OPEN && Owed(s) == 0
  {
    s := Initial(cfg);
    assert Possible(cfg, s, []) && Run(cfg, s, []) == s;
    s := FailuresTrip(cfg, s);
    s := RefusedProbe(cfg, s);
    NobodyWorks(s.workers, Owes, "");
  }

  ghost predicate CanLeaveHalfOpen<R(!new)>(cfg: Config<R>, s: State<R>) {
    exists steps :: Possible(cfg, s, steps) && Run(cfg, s, steps).breaker.state != Breaker.HALF_OPEN
  }

  /** Without workers nothing consults the breaker. */
  lemma {:induction false} NoWorkersNoChange<R>(cfg: Config<R>, s: State<R>, steps: seq<Step>)
    requires Possible(cfg, s, steps) && s.workers == []
    ensures Run(cfg, s, steps).breaker == s.breaker
    decreases |steps|
  {
    if steps != [] { NoWorkersNoChange(cfg, Next(cfg, s, steps[0]), steps[1..]); }
  }

  lemma ReachableLeaves<R(!new)>(cfg: Config<R>, s: State<R>)
    requires Reachable(cfg, s) && !s.stopping && (cfg.breaker.halfOpenMaxCalls >= 1 || cfg.numWorkers == 0)
    ensures CanLeaveHalfOpen(cfg, s)
  {
    if cfg.numWorkers == 0 {
      var steps :| Possible(cfg, Initial(cfg), steps) && s == Run(cfg, Initial(cfg), steps);
      NoWorkersNoChange(cfg, Initial(cfg), steps);
      assert Possible(cfg, s, []) && Run(cfg, s, []) == s;
    } else {
      ReachableSound(cfg, s);
      var work := ScheduleExists(cfg, s);
      EveryScheduleFinishes(cfg, s, work);
    }
  }

  /**
   The breaker recovers exactly when half_open_max_calls is at least 1, or there is no worker to consult it: then, and
   only then, every state that a run without stop reaches has a continuation that leaves HALF_OPEN.
   */
  lemma RecoversExactly<R(!new)>(cfg: Config<R>)
    ensures cfg.breaker.halfOpenMaxCalls >= 1 || cfg.numWorkers == 0 <==>
      forall s | Reachable(cfg, s) && !s.stopping :: CanLeaveHalfOpen(cfg, s)
  {
    if cfg.breaker.halfOpenMaxCalls >= 1 || cfg.numWorkers == 0 {
      forall s | Reachable(cfg, s) && !s.stopping ensures CanLeaveHalfOpen(cfg, s) { ReachableLeaves(cfg, s); }
    } else {
      var s := WedgeReachable(cfg);
      forall steps | Possible(cfg, s, steps) ensures Run(cfg, s, steps).breaker == s.breaker {
        WedgedForever(cfg, s, steps);
      }
      assert !CanLeaveHalfOpen(cfg, s);
    }
  }
}
