/** Left alone, and not told to stop, the workers finish every message. */
module QueueIdle {
  import opened Options
  import opened QueueCore
  import opened QueuePool
  import opened QueueLedger
  import opened QueueOrder
  import opened QueueProtocol
  import opened QueueTheorems
  import opened QueueDrain

  /** The queues with a message waiting for their worker. */
  function Slots(p: Pool): set<nat> {
    set q | q in p.core.heap && p.core.heap[q].running && p.core.heap[q].coalesce.Some?
  }

  /** Worker steps left: those of the workers, and three more for each waiting message. */
  function AllWork(p: Pool): nat {
    WorkLeft(p) + 3 * |Slots(p)|
  }

  /** A step that brings no message in and does not stop the process. */
  predicate IsQuiet(step: Step) {
    !step.Enqueue? && step != StopAccepting && step != Restart
  }

  ghost predicate IsQuietRun(s: State, steps: seq<Step>, t: State) {
    IsRun(s, steps, t) && forall i :: 0 <= i < |steps| ==> IsQuiet(steps[i])
  }

  lemma SameHeapSameSlots(p: Pool, t: Pool)
    requires t.core.heap == p.core.heap
    ensures Slots(t) == Slots(p)
  {
  }

  /** A worker that goes on with the waiting message has three more steps to take before it is back here. */
  lemma WorkRises(p: Pool, t: Pool, w: nat, n: nat)
    requires w in p.workers && p.workers[w].phase == Returned
    requires t.workers == p.workers[w := Worker(p.workers[w].q, Ready(n))]
    ensures WorkLeft(t) == WorkLeft(p) + 2
  {
    assert AtLeast(t, 1) == AtLeast(p, 1) && AtLeast(t, 2) == AtLeast(p, 2);
    assert AtLeast(t, 3) == AtLeast(p, 3) + {w} && AtLeast(t, 4) == AtLeast(p, 4) + {w};
    assert w !in AtLeast(p, 3) && w !in AtLeast(p, 4);
  }

  lemma FinishGoesOn(p: Pool, w: nat)
    requires Agreement(p) && !p.core.stopped && w in p.workers && p.workers[w].phase == Returned && p.workers[w].q in p.core.heap
    requires p.core.heap[p.workers[w].q].coalesce.Some?
    ensures AllWork(PoolFinish(p, w).0) + 1 == AllWork(p)
  {
    var q, t := p.workers[w].q, PoolFinish(p, w).0;
    assert WorkerOk(p, w);
    WorkRises(p, t, w, p.core.heap[q].coalesce.value);
    assert q in Slots(p) && Slots(t) == Slots(p) - {q};
  }

  lemma FinishRetires(p: Pool, w: nat)
    requires Agreement(p) && w in p.workers && p.workers[w].phase == Returned && p.workers[w].q in p.core.heap
    requires p.core.heap[p.workers[w].q].coalesce == None
    ensures AllWork(PoolFinish(p, w).0) + 1 == AllWork(p)
  {
    var t := PoolFinish(p, w).0;
    WorkMoves(p, t, w);
    assert Slots(t) == Slots(p);
  }

  lemma QuietWorkerStep(s: State, step: Step)
    requires Agreement(s.pool) && !s.pool.core.stopped && Enabled(s, step) && IsWorkerStep(step)
    ensures AllWork(Apply(s, step).pool) + 1 == AllWork(s.pool)
  {
    match step
    case StartHandler(w) =>
      WorkMoves(s.pool, DoStart(s, w).pool, w);
      SameHeapSameSlots(s.pool, DoStart(s, w).pool);
    case HandlerReturns(w) =>
      WorkMoves(s.pool, PoolMove(s.pool, w, Returned), w);
      SameHeapSameSlots(s.pool, PoolMove(s.pool, w, Returned));
    case Done(w) =>
      WorkMoves(s.pool, PoolDone(s.pool, w), w);
      SameHeapSameSlots(s.pool, PoolDone(s.pool, w));
    case Finish(w) =>
      if s.pool.core.heap[s.pool.workers[w].q].coalesce.Some? {
        FinishGoesOn(s.pool, w);
      } else {
        FinishRetires(s.pool, w);
      }
  }

  lemma QuietOtherStep(s: State, step: Step)
    requires Enabled(s, step) && IsQuiet(step) && !IsWorkerStep(step)
    ensures Apply(s, step).pool == s.pool
  {
  }

  lemma QuietKeepsGoing(s: State, step: Step)
    requires !s.pool.core.stopped && Enabled(s, step) && IsQuiet(step)
    ensures !Apply(s, step).pool.core.stopped
  {
  }

  lemma QuietStep(s: State, step: Step)
    requires Agreement(s.pool) && !s.pool.core.stopped && Enabled(s, step) && IsQuiet(step)
    ensures !Apply(s, step).pool.core.stopped
    ensures AllWork(Apply(s, step).pool) + (if IsWorkerStep(step) then 1 else 0) == AllWork(s.pool)
  {
    QuietKeepsGoing(s, step);
    if IsWorkerStep(step) {
      QuietWorkerStep(s, step);
    } else {
      QuietOtherStep(s, step);
    }
  }

  lemma {:induction false} QuietRun(s: State, steps: seq<Step>, t: State)
    requires Inv(s) && !s.pool.core.stopped && IsQuietRun(s, steps, t)
    ensures Inv(t) && !t.pool.core.stopped && AllWork(t.pool) + WorkerSteps(steps) == AllWork(s.pool)
    decreases |steps|
  {
    if steps != [] {
      assert IsQuiet(steps[0]);
      InvStep(s, steps[0]);
      QuietStep(s, steps[0]);
      QuietRun(Apply(s, steps[0]), steps[1..], t);
    }
  }

  lemma NoWorkersNoSlots(p: Pool)
    requires Agreement(p)
    ensures AllWork(p) == 0 <==> p.workers == map[]
  {
    NoWorkNoWorkers(p);
    if p.workers == map[] {
      forall q | q in p.core.heap ensures !p.core.heap[q].running { assert QueueOk(p, q); }
      assert Slots(p) == {};
    }
  }

  /**
   Every message gets its turn, given that handlers return: from any reachable
   state of a process that has not been told to stop, with nothing more enqueued,
   every run takes at most AllWork worker steps; as long as a worker is left a
   worker step is possible; and once all have been taken every message enqueued is
   completed or superseded.
   */
  lemma QuietFinishes(s: State, seen: set<Pair>, past: seq<Step>, steps: seq<Step>, t: State)
    requires Reached(s, seen, past) && !ToldToStop(past) && IsQuietRun(s, steps, t)
    ensures WorkerSteps(steps) <= AllWork(s.pool)
    ensures t.pool.workers != map[] ==> exists step :: IsWorkerStep(step) && IsQuiet(step) && Enabled(t, step)
    ensures WorkerSteps(steps) == AllWork(s.pool) <==> t.pool.workers == map[]
    ensures |t.ledger.fate| == |t.ledger.log|
    ensures WorkerSteps(steps) == AllWork(s.pool) ==>
              forall n :: 0 <= n < |t.ledger.log| ==> t.ledger.fate[n].Completed? || t.ledger.fate[n].Superseded?
  {
    InvReached(s, seen, past);
    StoppedWhenTold(s, seen, past);
    QuietRun(s, steps, t);
    NoWorkersNoSlots(t.pool);
    IsRunAppend(Boot(seen, []), past, s, steps, t);
    AllAccountedFor(t, seen, past + steps);
    if t.pool.workers != map[] {
      SomeoneCanStep(t, seen, past + steps);
    }
  }

  lemma AllAccountedFor(t: State, seen: set<Pair>, steps: seq<Step>)
    requires Reached(t, seen, steps) && !t.pool.core.stopped
    ensures |t.ledger.fate| == |t.ledger.log|
    ensures t.pool.workers == map[] ==>
              forall n :: 0 <= n < |t.ledger.log| ==> t.ledger.fate[n].Completed? || t.ledger.fate[n].Superseded?
  {
    StoppedWhenTold(t, seen, steps);
    ConservationOfTriggers(t, seen, steps);
  }

  lemma SomeoneCanStep(t: State, seen: set<Pair>, steps: seq<Step>)
    requires Reached(t, seen, steps) && t.pool.workers != map[]
    ensures exists step :: IsWorkerStep(step) && IsQuiet(step) && Enabled(t, step)
  {
    assert t.pool.workers.Keys != {};
    var w :| w in t.pool.workers;
    WorkerCanStep(t, seen, steps, w);
    var step :| IsWorkerStep(step) && step.w == w && Enabled(t, step);
    assert IsQuiet(step);
  }
}
