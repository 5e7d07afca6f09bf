/**
 Core together with the worker goroutines it starts: one function per atomic
 action, and the agreement between map, queues, workers and WaitGroup that all
 of them keep. Messages are numbers here (positions in the ledger).
 */
module QueuePool {
  import opened Options
  import opened QueueCore

  /** Where a worker goroutine is (queue.go:88-114). */
  datatype WorkerPhase =
    | Ready(n: nat)      // holds message n, handler not yet called
    | Handling(n: nat)   // inside HandleTrigger
    | Returned           // handler returned, lock not yet taken
    | Retired            // unlocked for the last time, deferred Done still to run

  datatype Worker = Worker(q: nat, phase: WorkerPhase)

  /** owner records which worker was started for a queue; next numbers queues and workers. */
  datatype Pool = Pool(core: Core<nat, nat>, workers: map<nat, Worker>, owner: map<nat, nat>, next: nat)

  function EmptyPool(): Pool {
    Pool(Core(false, 0, map[], map[]), map[], map[], 0)
  }

  /** enqueue: the lock region, and the goroutine that `go q.work(m)` starts after it. */
  ghost function PoolEnqueue(p: Pool, key: string, n: nat): (Pool, Verdict<nat, nat>)
    requires PointersValid(p.core)
  {
    var (core, verdict) := EnqueueRegion(p.core, key, n, p.next);
    match verdict
    case Started(q) =>
      (Pool(core, p.workers[p.next + 1 := Worker(q, Ready(n))], p.owner[q := p.next + 1], p.next + 2), verdict)
    case _ =>
      (p.(core := core), verdict)
  }

  function PoolMove(p: Pool, w: nat, phase: WorkerPhase): Pool
    requires w in p.workers
  {
    p.(workers := p.workers[w := Worker(p.workers[w].q, phase)])
  }

  /** work: the lock region after the handler, and where it sends the worker. */
  ghost function PoolFinish(p: Pool, w: nat): (Pool, Option<nat>)
    requires w in p.workers && p.workers[w].q in p.core.heap
  {
    var (core, next) := FinishRegion(p.core, p.workers[w].q);
    (PoolMove(p, w, if next.Some? then Ready(next.value) else Retired).(core := core), next)
  }

  /** The deferred inflight.Done. */
  function PoolDone(p: Pool, w: nat): Pool {
    p.(workers := p.workers - {w}, core := p.core.(inflight := p.core.inflight - 1))
  }

  function PoolStop(p: Pool): Pool {
    p.(core := p.core.(stopped := true))
  }

  // ---------------------------------------------------------------- agreement

  ghost predicate MapEntryOk(c: Core<nat, nat>, k: string)
    requires k in c.queues
  {
    c.queues[k] in c.heap && c.heap[c.queues[k]].key == k && c.heap[c.queues[k]].running
  }

  /** A running queue is in the map under its key and has one live, unretired worker. */
  ghost predicate QueueOk(p: Pool, q: nat)
    requires q in p.core.heap
  {
    && q < p.next
    && q in p.owner
    && (p.core.heap[q].running ==>
          && p.core.heap[q].key in p.core.queues
          && p.core.queues[p.core.heap[q].key] == q
          && p.owner[q] in p.workers
          && p.workers[p.owner[q]].q == q
          && p.workers[p.owner[q]].phase != Retired)
  }

  ghost predicate WorkerOk(p: Pool, w: nat)
    requires w in p.workers
  {
    && w < p.next
    && p.workers[w].q in p.core.heap
    && p.workers[w].q in p.owner
    && p.owner[p.workers[w].q] == w
    && (p.workers[w].phase != Retired ==> p.core.heap[p.workers[w].q].running)
  }

  /** Map, queues, workers and the inflight counter agree. */
  ghost predicate Agreement(p: Pool) {
    && (forall k :: k in p.core.queues ==> MapEntryOk(p.core, k))
    && (forall q :: q in p.core.heap ==> QueueOk(p, q))
    && (forall w :: w in p.workers ==> WorkerOk(p, w))
    && p.core.inflight == |p.workers|
  }

  /** The pool after enqueue has started a worker for a key not in the map. */
  function PoolStart(p: Pool, key: string, n: nat): Pool {
    var q := p.next;
    Pool(Core(p.core.stopped, p.core.inflight + 1, p.core.queues[key := q], p.core.heap[q := Queue(key, true, None)]),
         p.workers[q + 1 := Worker(q, Ready(n))], p.owner[q := q + 1], q + 2)
  }

  /** The pool after enqueue has put message n in the slot of a running queue. */
  function PoolCoalesce(p: Pool, key: string, n: nat): Pool
    requires key in p.core.queues
  {
    p.(core := p.core.(heap := p.core.heap[p.core.queues[key] := Queue(key, true, Some(n))]))
  }

  /**
   The branches of enqueue's region: a key in the map always has a running
   queue, so the region starts a worker exactly when the key is not in the map.
   */
  lemma EnqueueForms(p: Pool, key: string, n: nat)
    requires Agreement(p)
    ensures PointersValid(p.core)
    ensures p.core.stopped ==> PoolEnqueue(p, key, n) == (p, Rejected)
    ensures !p.core.stopped && key !in p.core.queues ==>
              PoolEnqueue(p, key, n) == (PoolStart(p, key, n), Started(p.next))
    ensures !p.core.stopped && key in p.core.queues ==>
              && MapEntryOk(p.core, key)
              && PoolEnqueue(p, key, n)
                 == (PoolCoalesce(p, key, n), Coalesced(p.core.queues[key], p.core.heap[p.core.queues[key]].coalesce))
  {
    forall k | k in p.core.queues ensures p.core.queues[k] in p.core.heap {
      assert MapEntryOk(p.core, k);
    }
    if key in p.core.queues {
      assert MapEntryOk(p.core, key);
    } else {
      var h := p.core.heap[p.next := Queue(key, false, None)];
      assert h[p.next := Queue(key, true, None)] == p.core.heap[p.next := Queue(key, true, None)];
    }
  }

  lemma AgreementStart(p: Pool, key: string, n: nat)
    requires Agreement(p) && key !in p.core.queues
    ensures Agreement(PoolStart(p, key, n))
  {
    var t := PoolStart(p, key, n);
    forall q | q in t.core.heap ensures QueueOk(t, q) {
      assert q in p.core.heap ==> QueueOk(p, q);
    }
    forall w | w in t.workers ensures WorkerOk(t, w) {
      assert w in p.workers ==> WorkerOk(p, w);
    }
    assert forall w :: w in p.workers ==> WorkerOk(p, w);
    forall k | k in t.core.queues ensures MapEntryOk(t.core, k) {
      assert k in p.core.queues ==> MapEntryOk(p.core, k) && QueueOk(p, p.core.queues[k]);
    }
  }

  lemma AgreementCoalesce(p: Pool, key: string, n: nat)
    requires Agreement(p) && key in p.core.queues
    ensures Agreement(PoolCoalesce(p, key, n))
  {
    var t := PoolCoalesce(p, key, n);
    assert MapEntryOk(p.core, key);
    forall q | q in t.core.heap ensures QueueOk(t, q) {
      assert QueueOk(p, q);
    }
    forall w | w in t.workers ensures WorkerOk(t, w) {
      assert WorkerOk(p, w);
    }
    forall k | k in t.core.queues ensures MapEntryOk(t.core, k) {
      assert MapEntryOk(p.core, k);
    }
  }

  lemma AgreementEnqueue(p: Pool, key: string, n: nat)
    requires Agreement(p)
    ensures PointersValid(p.core) && Agreement(PoolEnqueue(p, key, n).0)
  {
    EnqueueForms(p, key, n);
    if !p.core.stopped {
      if key in p.core.queues {
        AgreementCoalesce(p, key, n);
      } else {
        AgreementStart(p, key, n);
      }
    }
  }

  lemma AgreementFinish(p: Pool, w: nat)
    requires Agreement(p) && w in p.workers && p.workers[w].phase == Returned
    ensures p.workers[w].q in p.core.heap && Agreement(PoolFinish(p, w).0)
  {
    assert WorkerOk(p, w);
    assert QueueOk(p, p.workers[w].q);
    var t := PoolFinish(p, w).0;
    assert t.workers.Keys == p.workers.Keys;
    forall q | q in t.core.heap ensures QueueOk(t, q) {
      assert QueueOk(p, q);
    }
    forall v | v in t.workers ensures WorkerOk(t, v) {
      assert WorkerOk(p, v);
    }
    forall k | k in t.core.queues ensures MapEntryOk(t.core, k) {
      assert MapEntryOk(p.core, k);
    }
  }

  lemma AgreementMove(p: Pool, w: nat, phase: WorkerPhase)
    requires Agreement(p) && w in p.workers && p.workers[w].phase != Retired && phase != Retired
    ensures Agreement(PoolMove(p, w, phase))
  {
    var t := PoolMove(p, w, phase);
    assert t.workers.Keys == p.workers.Keys;
    forall q | q in t.core.heap ensures QueueOk(t, q) {
      assert QueueOk(p, q);
    }
    forall v | v in t.workers ensures WorkerOk(t, v) {
      assert WorkerOk(p, v);
    }
  }

  lemma AgreementDone(p: Pool, w: nat)
    requires Agreement(p) && w in p.workers && p.workers[w].phase == Retired
    ensures Agreement(PoolDone(p, w))
  {
    var t := PoolDone(p, w);
    assert t.workers.Keys == p.workers.Keys - {w};
    forall q | q in t.core.heap ensures QueueOk(t, q) {
      assert QueueOk(p, q);
    }
    forall v | v in t.workers ensures WorkerOk(t, v) {
      assert WorkerOk(p, v);
    }
    forall k | k in t.core.queues ensures MapEntryOk(t.core, k) {
      assert MapEntryOk(p.core, k);
    }
  }

  lemma AgreementStop(p: Pool)
    requires Agreement(p)
    ensures Agreement(PoolStop(p))
  {
    var t := PoolStop(p);
    forall q | q in t.core.heap ensures QueueOk(t, q) {
      assert QueueOk(p, q);
    }
    forall v | v in t.workers ensures WorkerOk(t, v) {
      assert WorkerOk(p, v);
    }
    forall k | k in t.core.queues ensures MapEntryOk(t.core, k) {
      assert MapEntryOk(p.core, k);
    }
  }
}
