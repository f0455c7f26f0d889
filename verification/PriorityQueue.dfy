/** queue/priority_queue.py: tiers and arrival times folded into one sorted-set score. */
module PriorityQueue {
  import opened Options

  const PRIORITY_MULTIPLIER := 10_000_000_000.0

  datatype Payload = Payload(prompt: string, maxTokens: nat, temperature: real, seed: Option<int>)

  /** The JSON member stored in the sorted set. */
  datatype Item = Item(requestId: string, priority: int, enqueuedAt: real, payload: Payload)

  function ComputeScore(priority: int, timestamp: real): real {
    priority as real * PRIORITY_MULTIPLIER + timestamp
  }

  function Score(x: Item): real {
    ComputeScore(x.priority, x.enqueuedAt)
  }

  predicate InRange(x: Item) {
    0.0 <= x.enqueuedAt < PRIORITY_MULTIPLIER
  }

  /** Ahead in the lexicographic order on tier and arrival. */
  predicate Before(x: Item, y: Item) {
    x.priority < y.priority || (x.priority == y.priority && x.enqueuedAt < y.enqueuedAt)
  }

  /** While timestamps stay within one multiplier, score order is lexicographic order. */
  lemma ScoreIsLexicographic(x: Item, y: Item)
    requires InRange(x) && InRange(y)
    ensures Score(x) < Score(y) <==> Before(x, y)
  {
    var d := (y.priority - x.priority) as real;
    assert Score(y) - Score(x) == d * PRIORITY_MULTIPLIER + (y.enqueuedAt - x.enqueuedAt);
  }

  /** What ZPOPMIN may return: a member of least score. */
  ghost predicate IsFront(queue: set<Item>, x: Item) {
    x in queue && forall y | y in queue :: Score(x) <= Score(y)
  }

  lemma {:induction false} FrontExists(queue: set<Item>) returns (x: Item)
    requires queue != {}
    ensures IsFront(queue, x)
  {
    var y :| y in queue;
    x := y;
    if queue != {y} {
      assert queue - {y} != {};
      x := FrontExists(queue - {y});
      if Score(y) < Score(x) { x := y; }
    }
  }

  class PriorityQueue {
    /** The Redis sorted set behind the queue key. */
    var zset: map<Item, real>

    ghost predicate Valid()
      reads this
    {
      forall x | x in zset :: zset[x] == Score(x)
    }

    constructor ()
      ensures Valid() && zset == map[]
    {
      zset := map[];
    }

    method Enqueue(requestId: string, priority: int, payload: Payload, now: real) returns (depth: nat)
      requires Valid()
      modifies this
      ensures Valid()
      ensures zset.Keys == old(zset.Keys) + {Item(requestId, priority, now, payload)}
      ensures depth == |zset|
    {
      var score := ComputeScore(priority, now);
      var member := Item(requestId, priority, now, payload);
      zset := zset[member := score];
      depth := |zset|;
    }

    method Dequeue() returns (item: Option<Item>)
      requires Valid()
      modifies this
      ensures Valid()
      ensures item == None <==> old(zset) == map[]
      ensures item == None ==> zset == old(zset)
      ensures item.Some? ==> IsFront(old(zset.Keys), item.value) && zset.Keys == old(zset.Keys) - {item.value}
    {
      if zset == map[] {
        return None;
      }
      ghost var front := FrontExists(zset.Keys);
      assert front in zset && forall y | y in zset :: zset[front] <= zset[y];
      var x :| x in zset && forall y | y in zset :: zset[x] <= zset[y];
      zset := zset - {x};
      item := Some(x);
    }
  }

  // ---------------------------------------------------------------- runs

  datatype Event = Enq(item: Item) | Deq(item: Item)

  ghost function Queue(es: seq<Event>): set<Item> {
    if es == [] then {} else
      match es[|es| - 1]
      case Enq(x) => Queue(es[..|es| - 1]) + {x}
      case Deq(x) => Queue(es[..|es| - 1]) - {x}
  }

  /** Runs of the queue under a strictly increasing clock: every dequeue takes the front of the queue at that moment. */
  ghost predicate Legal(es: seq<Event>) {
    && (forall i | 0 <= i < |es| && es[i].Enq? :: InRange(es[i].item))
    && (forall i, j | 0 <= i < j < |es| && es[i].Enq? && es[j].Enq? :: es[i].item.enqueuedAt < es[j].item.enqueuedAt)
    && (forall i | 0 <= i < |es| && es[i].Deq? :: IsFront(Queue(es[..i]), es[i].item))
  }

  /** An item is queued after n events exactly when it was enqueued at some i < n and not dequeued since. */
  ghost predicate WaitingSince(es: seq<Event>, x: Item, i: nat, n: nat) {
    i < n <= |es| && es[i] == Enq(x) && forall k | i < k < n :: es[k] != Deq(x)
  }

  lemma {:induction false} QueuedMeansWaiting(es: seq<Event>, x: Item, n: nat) returns (i: nat)
    requires n <= |es| && x in Queue(es[..n])
    ensures WaitingSince(es, x, i, n)
  {
    assert es[..n][..n - 1] == es[..n - 1];
    if es[n - 1] == Enq(x) {
      i := n - 1;
    } else {
      i := QueuedMeansWaiting(es, x, n - 1);
    }
  }

  lemma {:induction false} WaitingMeansQueued(es: seq<Event>, x: Item, i: nat, n: nat)
    requires WaitingSince(es, x, i, n)
    ensures x in Queue(es[..n])
  {
    assert es[..n][..n - 1] == es[..n - 1];
    if i < n - 1 { WaitingMeansQueued(es, x, i, n - 1); }
  }

  /** An item that has left does not come back, so it leaves once. */
  lemma DequeuedOnce(es: seq<Event>, x: Item, j: nat, k: nat)
    requires Legal(es) && j < k < |es| && es[j] == Deq(x)
    ensures es[k] != Deq(x)
  {
    assert x in Queue(es[..j]);
    var a := QueuedMeansWaiting(es, x, j);
    if es[k] == Deq(x) {
      var b := QueuedMeansWaiting(es, x, k);
    }
  }

  /** Of two queued items, the one dequeued first stands before the other in the lexicographic order. */
  lemma FrontIsBefore(es: seq<Event>, x: Item, y: Item, i: nat, k: nat)
    requires Legal(es) && k < |es| && es[k] == Deq(y) && WaitingSince(es, x, i, k) && x != y
    ensures Before(y, x)
  {
    WaitingMeansQueued(es, x, i, k);
    var a := QueuedMeansWaiting(es, y, k);
    assert InRange(x) && InRange(y);
    ScoreIsLexicographic(x, y);
    ScoreIsLexicographic(y, x);
    assert a != i;
    assert x.enqueuedAt != y.enqueuedAt;
  }

  ghost function DequeuedBetween(es: seq<Event>, i: nat, j: nat): set<Item>
    requires i <= j <= |es|
  {
    set k | i <= k < j && es[k].Deq? :: es[k].item
  }

  ghost function AheadAtArrival(es: seq<Event>, x: Item, i: nat): set<Item>
    requires i <= |es|
  {
    set y | y in Queue(es[..i]) && Before(y, x)
  }

  ghost function LaterHigher(es: seq<Event>, x: Item, i: nat, j: nat): set<Item>
    requires i <= j <= |es|
  {
    set k | i < k < j && es[k].Enq? && es[k].item.priority < x.priority :: es[k].item
  }

  /** No item of the same or a lower tier that arrives later leaves first. */
  lemma NeverOvertaken(es: seq<Event>, x: Item, y: Item, i: nat, k: nat, m: nat) returns (j: nat)
    requires Legal(es) && i < k < |es| && es[i] == Enq(x) && es[k] == Enq(y) && x.priority <= y.priority
    requires k < m < |es| && es[m] == Deq(y)
    ensures i < j < m && es[j] == Deq(x)
  {
    if forall j | i < j < m :: es[j] != Deq(x) {
      FrontIsBefore(es, x, y, i, m);
      assert false;
    }
    j :| i < j < m && es[j] == Deq(x);
  }

  /**
   Position, exactly: between its arrival and its departure the items that leave are those ahead of it when it arrived
   and the later arrivals of a strictly higher tier.
   */
  lemma LeavesAfter(es: seq<Event>, x: Item, i: nat, j: nat)
    requires Legal(es) && i < j < |es| && es[i] == Enq(x) && es[j] == Deq(x)
    ensures DequeuedBetween(es, i, j) == AheadAtArrival(es, x, i) + LaterHigher(es, x, i, j)
    ensures AheadAtArrival(es, x, i) !! LaterHigher(es, x, i, j)
  {
    forall k, y | i <= k < j && es[k] == Deq(y) ensures y in AheadAtArrival(es, x, i) + LaterHigher(es, x, i, j) {
      OnlyThese(es, x, y, i, j, k);
    }
    forall y | y in AheadAtArrival(es, x, i) ensures y in DequeuedBetween(es, i, j) && y !in LaterHigher(es, x, i, j) {
      var a := QueuedMeansWaiting(es, y, i);
      MustLeaveFirst(es, x, y, a, i, j);
    }
    forall y | y in LaterHigher(es, x, i, j) ensures y in DequeuedBetween(es, i, j) {
      var a :| i < a < j && es[a] == Enq(y);
      MustLeaveFirst(es, x, y, a, i, j);
    }
  }

  /** Whoever left while x waited was ahead of it already or came later in a higher tier. */
  lemma OnlyThese(es: seq<Event>, x: Item, y: Item, i: nat, j: nat, k: nat)
    requires Legal(es) && i <= k < j < |es| && es[i] == Enq(x) && es[j] == Deq(x) && es[k] == Deq(y)
    ensures y in AheadAtArrival(es, x, i) + LaterHigher(es, x, i, j)
  {
    forall l | i < l < j ensures es[l] != Deq(x) {
      if es[l].Deq? { DequeuedOnce(es, es[l].item, l, j); }
    }
    FrontIsBefore(es, x, y, i, k);
    var a := QueuedMeansWaiting(es, y, k);
    if a < i { WaitingMeansQueued(es, y, a, i); }
  }

  /** Whoever stands before x and arrived before x left, left before x. */
  lemma MustLeaveFirst(es: seq<Event>, x: Item, y: Item, a: nat, i: nat, j: nat)
    requires Legal(es) && i < j < |es| && a < j && a != i && es[a] == Enq(y) && Before(y, x)
    requires es[i] == Enq(x) && es[j] == Deq(x)
    requires a < i ==> WaitingSince(es, y, a, i)
    ensures y in DequeuedBetween(es, i, j)
  {
    if y !in DequeuedBetween(es, i, j) {
      forall k | i <= k < j && es[k].Deq? ensures es[k].item != y {
        assert es[k].item in DequeuedBetween(es, i, j);
      }
      FrontIsBefore(es, y, x, a, j);
      assert false;
    }
  }

  /** How many dequeues happen among the events i .. j - 1. */
  function Departures(es: seq<Event>, i: nat, j: nat): nat
    requires i <= j <= |es|
  {
    if i == j then 0 else Departures(es, i, j - 1) + if es[j - 1].Deq? then 1 else 0
  }

  lemma BetweenStep(es: seq<Event>, i: nat, j: nat)
    requires i < j <= |es|
    ensures DequeuedBetween(es, i, j) == DequeuedBetween(es, i, j - 1) + if es[j - 1].Deq? then {es[j - 1].item} else {}
  {
  }

  ghost predicate LeaveOnce(es: seq<Event>) {
    forall k, l | 0 <= k < l < |es| && es[k].Deq? && es[l].Deq? :: es[k].item != es[l].item
  }

  lemma {:induction false} DeparturesAreDistinct(es: seq<Event>, i: nat, j: nat)
    requires LeaveOnce(es) && i <= j <= |es|
    ensures Departures(es, i, j) == |DequeuedBetween(es, i, j)|
  {
    if i == j {
      assert DequeuedBetween(es, i, j) == {};
    } else {
      DeparturesAreDistinct(es, i, j - 1);
      BetweenStep(es, i, j);
      if es[j - 1].Deq? { assert es[j - 1].item !in DequeuedBetween(es, i, j - 1); }
    }
  }

  /** An item waits for exactly so many departures. */
  lemma WaitsExactly(es: seq<Event>, x: Item, i: nat, j: nat)
    requires Legal(es) && i < j < |es| && es[i] == Enq(x) && es[j] == Deq(x)
    ensures Departures(es, i, j) == |AheadAtArrival(es, x, i)| + |LaterHigher(es, x, i, j)|
  {
    LeavesAfter(es, x, i, j);
    forall k, l | 0 <= k < l < |es| && es[k].Deq? && es[l].Deq? ensures es[k].item != es[l].item {
      DequeuedOnce(es, es[k].item, k, l);
    }
    DeparturesAreDistinct(es, i, j);
  }
}
