/** core/worker.py: the registry of futures that request handlers await and workers complete. */
module WorkerPool {

  /** The state of an asyncio future. */
  datatype Future<R> = Waiting | Done(value: R) | Raised | Cancelled

  predicate IsDone<R>(f: Future<R>) {
    !f.Waiting?
  }

  /** The guard every completion in the source goes through: a future that is done stays as it is. */
  function Complete<R>(f: Future<R>, outcome: Future<R>): Future<R> {
    if IsDone(f) then f else outcome
  }

  /** One future per registered id, and the ids still in _pending. */
  datatype Registry<R> = Registry(pending: set<string>, futures: map<string, Future<R>>)

  function RegisterSpec<R>(reg: Registry<R>, id: string): Registry<R> {
    Registry(reg.pending + {id}, reg.futures[id := Waiting])
  }

  /** Pop the id from _pending and, if it was there, complete its future. */
  function SettleSpec<R>(reg: Registry<R>, id: string, outcome: Future<R>): Registry<R> {
    if id in reg.pending && id in reg.futures then
      Registry(reg.pending - {id}, reg.futures[id := Complete(reg.futures[id], outcome)])
    else
      reg.(pending := reg.pending - {id})
  }

  /** asyncio.wait_for gives up: the awaited future is cancelled while the id is still pending. */
  function ExpireSpec<R>(reg: Registry<R>, id: string): Registry<R> {
    if id in reg.futures then reg.(futures := reg.futures[id := Complete(reg.futures[id], Cancelled)]) else reg
  }

  /** The end of stop: every pending future is cancelled and _pending cleared. */
  function CancelAllSpec<R>(reg: Registry<R>): Registry<R> {
    Registry({}, map id | id in reg.futures ::
      if id in reg.pending then Complete(reg.futures[id], Cancelled) else reg.futures[id])
  }

  /** A registered future that is no longer pending is done. */
  ghost predicate Kept<R>(reg: Registry<R>) {
    reg.pending <= reg.futures.Keys && forall id | id in reg.futures && id !in reg.pending :: IsDone(reg.futures[id])
  }

  /** after differs from before only by new futures and by completions of waiting ones. */
  ghost predicate Completes<R>(before: Registry<R>, after: Registry<R>) {
    forall id | id in before.futures ::
      id in after.futures && (IsDone(before.futures[id]) ==> after.futures[id] == before.futures[id])
  }

  /** No future but the one of id has changed. */
  ghost predicate OthersKept<R>(id: string, before: map<string, Future<R>>, after: map<string, Future<R>>) {
    after - {id} == before - {id}
  }

  class InferenceWorkerPool<R> {
    var pending: set<string>
    var futures: map<string, Future<R>>

    function View(): Registry<R>
      reads this
    {
      Registry(pending, futures)
    }

    constructor ()
      ensures View() == Registry({}, map[])
    {
      pending, futures := {}, map[];
    }

    method RegisterRequest(id: string)
      requires id !in futures && Kept(View())
      modifies this
      ensures View() == RegisterSpec(old(View()), id)
      ensures Kept(View()) && Completes(old(View()), View())
      ensures pending == old(pending) + {id} && id in futures && futures[id] == Waiting
      ensures OthersKept(id, old(futures), futures)
    {
      futures := futures[id := Waiting];
      pending := pending + {id};
    }

    method CancelRequest(id: string)
      requires Kept(View())
      modifies this
      ensures View() == SettleSpec(old(View()), id, Cancelled)
      ensures Kept(View()) && Completes(old(View()), View())
      ensures pending == old(pending) - {id} && OthersKept(id, old(futures), futures)
      ensures id in old(futures) && old(futures)[id] == Waiting ==> id in futures && futures[id] == Cancelled
    {
      Settle(id, Cancelled);
    }

    /** self._pending.pop(request_id, None), then completing the future unless it is done. */
    method Settle(id: string, outcome: Future<R>)
      requires Kept(View()) && IsDone(outcome)
      modifies this
      ensures View() == SettleSpec(old(View()), id, outcome)
      ensures Kept(View()) && Completes(old(View()), View())
      ensures pending == old(pending) - {id} && OthersKept(id, old(futures), futures)
      ensures id in old(pending) && old(futures)[id] == Waiting ==> id in futures && futures[id] == outcome
    {
      if id in pending {
        pending := pending - {id};
        if !IsDone(futures[id]) {
          futures := futures[id := outcome];
        }
      }
    }

    /** The tail of stop, once every worker task has ended. */
    method CancelRemaining()
      requires Kept(View())
      modifies this
      ensures View() == CancelAllSpec(old(View()))
      ensures Kept(View()) && Completes(old(View()), View())
      ensures pending == {} && forall id | id in futures :: IsDone(futures[id])
      ensures forall id | id in old(futures) && old(futures)[id] == Waiting :: id in futures && futures[id] == Cancelled
    {
      var todo := pending;
      while todo != {}
        invariant pending == old(pending) && todo <= pending && futures.Keys == old(futures).Keys
        invariant forall id | id in futures ::
          futures[id] == if id in pending - todo then Complete(old(futures)[id], Cancelled) else old(futures)[id]
        decreases todo
      {
        var id :| id in todo;
        if !IsDone(futures[id]) {
          futures := futures[id := Cancelled];
        }
        todo := todo - {id};
      }
      pending := {};
    }
  }

  /**
   What the registry operations do to futures: a fresh id gets a waiting, pending one; settling completes the one of a
   pending id with the outcome; giving up cancels; the end of stop cancels whatever waits.
   */
  lemma RegistryEffects<R>(reg: Registry<R>, id: string, outcome: Future<R>)
    requires Kept(reg)
    ensures var after := RegisterSpec(reg, id);
      && id in after.pending && OthersKept(id, reg.futures, after.futures)
      && id in after.futures && after.futures[id] == Waiting
    ensures var after := SettleSpec(reg, id, outcome);
      && id !in after.pending && OthersKept(id, reg.futures, after.futures)
      && (id in reg.futures && reg.futures[id] == Waiting ==> id in after.futures && after.futures[id] == outcome)
    ensures var after := ExpireSpec(reg, id);
      && after.pending == reg.pending && OthersKept(id, reg.futures, after.futures)
      && (id in reg.futures && reg.futures[id] == Waiting ==> id in after.futures && after.futures[id] == Cancelled)
    ensures var after := CancelAllSpec(reg);
      after.pending == {} && forall other | other in reg.futures && reg.futures[other] == Waiting ::
        other in after.futures && after.futures[other] == Cancelled
  {
  }

  lemma RegistrySteps<R>(reg: Registry<R>, id: string, outcome: Future<R>)
    requires Kept(reg) && IsDone(outcome)
    ensures Kept(SettleSpec(reg, id, outcome)) && Completes(reg, SettleSpec(reg, id, outcome))
    ensures Kept(ExpireSpec(reg, id)) && Completes(reg, ExpireSpec(reg, id))
    ensures Kept(CancelAllSpec(reg)) && Completes(reg, CancelAllSpec(reg))
    ensures id !in reg.futures ==> Kept(RegisterSpec(reg, id)) && Completes(reg, RegisterSpec(reg, id))
  {
  }
}
