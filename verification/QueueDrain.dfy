/** Shutdown: what WaitDrain may rely on once StopAccepting has run (bot.go:153-170). */
module QueueDrain {
  import opened Options
  import opened QueueCore
  import opened QueuePool
  import opened QueueLedger
  import opened QueueOrder
  import opened QueueProtocol
  import opened QueueTheorems

  /** A run within one process. */
  ghost predicate IsProcessRun(s: State, steps: seq<Step>, t: State) {
    IsRun(s, steps, t) && Restart !in steps
  }

  /**
   Drain safety, in every reachable state: the WaitGroup counts exactly the live
   workers, the map holds exactly the keys being worked on, and each key has at
   most one worker that has not retired.
   */
  lemma DrainSafety(s: State, seen: set<Pair>, steps: seq<Step>)
    requires Reached(s, seen, steps)
    ensures s.pool.core.inflight == |s.pool.workers| >= 0
    ensures forall w :: w in s.pool.workers ==> s.pool.workers[w].q in s.pool.core.heap
    ensures forall k :: k in s.pool.core.queues <==> exists w :: WorksOn(s.pool, w, k)
    ensures forall k, v, w :: WorksOn(s.pool, v, k) && WorksOn(s.pool, w, k) ==> v == w
  {
    InvReached(s, seen, steps);
    forall w | w in s.pool.workers ensures s.pool.workers[w].q in s.pool.core.heap {
      assert WorkerOk(s.pool, w);
    }
    forall k | k in s.pool.core.queues ensures exists w :: WorksOn(s.pool, w, k) {
      assert MapEntryOk(s.pool.core, k);
      var q := s.pool.core.queues[k];
      assert QueueOk(s.pool, q);
      assert WorksOn(s.pool, s.pool.owner[q], k);
    }
    forall w, k | WorksOn(s.pool, w, k) ensures k in s.pool.core.queues {
      assert WorkerOk(s.pool, w);
      assert QueueOk(s.pool, s.pool.workers[w].q);
    }
    forall k, v, w | WorksOn(s.pool, v, k) && WorksOn(s.pool, w, k) ensures v == w {
      SameKeySameWorker(s.pool, v, w);
    }
  }

  ghost predicate WorksOn(p: Pool, w: nat, key: string) {
    && w in p.workers
    && p.workers[w].phase != Retired
    && p.workers[w].q in p.core.heap
    && p.core.heap[p.workers[w].q].key == key
  }

  // -------------------------------------------------------------- the measure

  /** Worker steps left once stopped: start, return, finish, done. */
  function Rank(phase: WorkerPhase): nat {
    match phase
    case Ready(_) => 4
    case Handling(_) => 3
    case Returned => 2
    case Retired => 1
  }

  function AtLeast(p: Pool, rank: nat): set<nat> {
    set w | w in p.workers && Rank(p.workers[w].phase) >= rank
  }

  function WorkLeft(p: Pool): nat {
    |AtLeast(p, 1)| + |AtLeast(p, 2)| + |AtLeast(p, 3)| + |AtLeast(p, 4)|
  }

  predicate IsWorkerStep(step: Step) {
    step.StartHandler? || step.HandlerReturns? || step.Finish? || step.Done?
  }

  function WorkerSteps(steps: seq<Step>): nat {
    if steps == [] then 0 else (if IsWorkerStep(steps[0]) then 1 else 0) + WorkerSteps(steps[1..])
  }

  lemma WorkMoves(p: Pool, t: Pool, w: nat)
    requires w in p.workers
    requires forall v :: v != w ==> (v in t.workers <==> v in p.workers)
    requires forall v :: v != w && v in p.workers ==> t.workers[v].phase == p.workers[v].phase
    requires if w in t.workers then Rank(t.workers[w].phase) + 1 == Rank(p.workers[w].phase) else Rank(p.workers[w].phase) == 1
    ensures WorkLeft(t) + 1 == WorkLeft(p)
  {
    var r := Rank(p.workers[w].phase);
    forall k: nat | 1 <= k <= 4
      ensures AtLeast(t, k) == if k == r then AtLeast(p, k) - {w} else AtLeast(p, k)
    {
    }
    assert w in AtLeast(p, r);
  }

  lemma WorkSame(p: Pool, t: Pool)
    requires t.workers == p.workers
    ensures WorkLeft(t) == WorkLeft(p)
  {
    forall k: nat ensures AtLeast(t, k) == AtLeast(p, k) { }
  }

  lemma StoppedUses(s: State, step: Step)
    requires s.pool.core.stopped && Enabled(s, step) && step != Restart
    ensures var t := Apply(s, step);
            && t.pool.core.stopped
            && WorkLeft(t.pool) + (if IsWorkerStep(step) then 1 else 0) == WorkLeft(s.pool)
  {
    match step
    case StartHandler(w) => WorkMoves(s.pool, DoStart(s, w).pool, w);
    case HandlerReturns(w) => WorkMoves(s.pool, PoolMove(s.pool, w, Returned), w);
    case Finish(w) => WorkMoves(s.pool, DoFinish(s, w).pool, w);
    case Done(w) => WorkMoves(s.pool, PoolDone(s.pool, w), w);
    case Enqueue(d) => WorkSame(s.pool, DoEnqueue(s, d).pool);
    case CheckStopped(d) => WorkSame(s.pool, DoDispatch(s, step, d).pool);
    case DedupError(d, _) => WorkSame(s.pool, DoDispatch(s, step, d).pool);
    case Dedup(d) => WorkSame(s.pool, DoDispatch(s, step, d).pool);
    case AppendError(d) => WorkSame(s.pool, DoDispatch(s, step, d).pool);
    case AppendDone(d) => WorkSame(s.pool, DoDispatch(s, step, d).pool);
    case StopAccepting => WorkSame(s.pool, PoolStop(s.pool));
    case _ =>
  }

  /** After StopAccepting every worker step uses up one unit of work and nothing adds any. */
  lemma StoppedStep(s: State, seen: set<Pair>, past: seq<Step>, step: Step)
    requires Reached(s, seen, past) && ToldToStop(past) && Enabled(s, step) && step != Restart
    ensures WorkLeft(Apply(s, step).pool) + (if IsWorkerStep(step) then 1 else 0) == WorkLeft(s.pool)
  {
    StoppedWhenTold(s, seen, past);
    StoppedUses(s, step);
  }

  lemma {:induction false} WorkRun(s: State, steps: seq<Step>, t: State)
    requires s.pool.core.stopped && IsProcessRun(s, steps, t)
    ensures t.pool.core.stopped && WorkLeft(t.pool) + WorkerSteps(steps) == WorkLeft(s.pool)
    decreases |steps|
  {
    if steps != [] {
      assert steps[0] in steps;
      StoppedUses(s, steps[0]);
      WorkRun(Apply(s, steps[0]), steps[1..], t);
    }
  }

  /** A worker that is not done can always take its next step. */
  lemma WorkerCanStep(s: State, seen: set<Pair>, steps: seq<Step>, w: nat)
    requires Reached(s, seen, steps) && w in s.pool.workers
    ensures exists step :: IsWorkerStep(step) && step.w == w && Enabled(s, step)
  {
    NothingDangles(s, seen, steps);
    var step := match s.pool.workers[w].phase
      case Ready(_) => StartHandler(w)
      case Handling(_) => HandlerReturns(w)
      case Returned => Finish(w)
      case Retired => Done(w);
    assert Enabled(s, step);
  }

  lemma NoWorkNoWorkers(p: Pool)
    ensures WorkLeft(p) == 0 <==> p.workers == map[]
    ensures WorkLeft(p) >= |p.workers|
  {
    assert AtLeast(p, 1) == p.workers.Keys;
    if p.workers == map[] {
      forall k: nat | k <= 4 ensures AtLeast(p, k) == {} { }
    }
  }

  /**
   Drain termination, given that handlers return: from any reachable state after
   StopAccepting, every run takes at most WorkLeft worker steps (four for each
   worker, fewer for those under way); as long as inflight is not zero a worker
   step is possible; and once all have been taken inflight is zero.
   */
  lemma DrainTerminates(s: State, seen: set<Pair>, past: seq<Step>, steps: seq<Step>, t: State)
    requires Reached(s, seen, past) && ToldToStop(past) && IsProcessRun(s, steps, t)
    ensures WorkerSteps(steps) <= WorkLeft(s.pool) <= 4 * s.pool.core.inflight
    ensures WorkerSteps(steps) == WorkLeft(s.pool) <==> t.pool.core.inflight == 0
    ensures t.pool.core.inflight != 0 ==> exists step :: IsWorkerStep(step) && Enabled(t, step)
  {
    InvReached(s, seen, past);
    StoppedWhenTold(s, seen, past);
    InvRun(s, steps, t);
    WorkRun(s, steps, t);
    NoWorkNoWorkers(t.pool);
    forall k: nat | 1 <= k <= 4 ensures |AtLeast(s.pool, k)| <= |s.pool.workers| {
      SubsetSmaller(AtLeast(s.pool, k), s.pool.workers.Keys);
    }
    if t.pool.core.inflight != 0 {
      assert t.pool.workers.Keys != {};
      var w :| w in t.pool.workers;
      IsRunAppend(Boot(seen, []), past, s, steps, t);
      WorkerCanStep(t, seen, past + steps, w);
    }
  }

  lemma {:induction false} SubsetSmaller<T>(a: set<T>, b: set<T>)
    requires a <= b
    ensures |a| <= |b|
  {
    assert b == a + (b - a);
  }

  lemma {:induction false} IsRunAppend(a: State, xs: seq<Step>, b: State, ys: seq<Step>, c: State)
    requires IsRun(a, xs, b) && IsRun(b, ys, c)
    ensures IsRun(a, xs + ys, c)
    decreases |xs|
  {
    if xs == [] {
      assert xs + ys == ys;
    } else {
      IsRunAppend(Apply(a, xs[0]), xs[1..], b, ys, c);
      assert (xs + ys)[1..] == xs[1..] + ys;
    }
  }

  // ------------------------------------------------------------- after WaitDrain

  /**
   What WaitDrain's success means: once inflight is zero after StopAccepting, no
   later step of the process raises inflight or starts a handler.
   */
  lemma DrainedForGood(s: State, seen: set<Pair>, past: seq<Step>, steps: seq<Step>, t: State)
    requires Reached(s, seen, past) && ToldToStop(past) && s.pool.core.inflight == 0 && IsProcessRun(s, steps, t)
    ensures t.pool.core.inflight == 0 && t.pool.workers == map[]
    ensures t.ledger.started == s.ledger.started && t.handed == s.handed
  {
    InvReached(s, seen, past);
    StoppedWhenTold(s, seen, past);
    DrainedRun(s, steps, t);
  }

  lemma {:induction false} DrainedRun(s: State, steps: seq<Step>, t: State)
    requires Agreement(s.pool) && s.pool.core.stopped && s.pool.core.inflight == 0 && IsProcessRun(s, steps, t)
    ensures t.pool.core.stopped && t.pool.core.inflight == 0 && t.pool.workers == map[]
    ensures t.ledger.started == s.ledger.started && t.handed == s.handed
    decreases |steps|
  {
    assert s.pool.workers.Keys == {};
    if steps != [] {
      assert steps[0] in steps;
      var u := Apply(s, steps[0]);
      DrainedStep(s, steps[0]);
      DrainedRun(u, steps[1..], t);
    }
  }

  lemma DrainedStep(s: State, step: Step)
    requires Agreement(s.pool) && s.pool.core.stopped && s.pool.workers == map[] && Enabled(s, step) && step != Restart
    ensures var t := Apply(s, step);
            t.pool == s.pool && t.ledger.started == s.ledger.started && t.handed == s.handed
  {
    match step
    case Enqueue(d) => EnqueueForms(s.pool, Key(s.dispatchers[d].m), |s.ledger.log|);
    case _ =>
  }

  /** Message n waits in a slot, or was left there. */
  ghost predicate Unstarted(l: Ledger, n: nat)
    requires n < |l.fate|
  {
    l.fate[n].Waiting? || l.fate[n].Abandoned?
  }

  lemma UnstartedStep(s: State, step: Step, n: nat)
    requires Agreement(s.pool) && Fates(s.pool, s.ledger) && s.pool.core.stopped && Enabled(s, step) && step != Restart
    requires n < |s.ledger.fate| && Unstarted(s.ledger, n)
    ensures var t := Apply(s, step);
            t.pool.core.stopped && n < |t.ledger.fate| && Unstarted(t.ledger, n)
  {
    match step
    case Enqueue(d) =>
      EnqueueForms(s.pool, Key(s.dispatchers[d].m), |s.ledger.log|);
      assert Unstarted(DoEnqueue(s, d).ledger, n);
    case HandlerReturns(w) =>
      assert HolderOk(s.pool, s.ledger, w);
    case Finish(w) =>
      assert Unstarted(DoFinish(s, w).ledger, n);
    case _ =>
  }

  lemma {:induction false} UnstartedRun(s: State, steps: seq<Step>, t: State, n: nat)
    requires Inv(s) && s.pool.core.stopped && IsProcessRun(s, steps, t)
    requires n < |s.ledger.fate| && Unstarted(s.ledger, n)
    ensures n < |t.ledger.fate| && Unstarted(t.ledger, n) && n !in t.ledger.started
    decreases |steps|
  {
    if steps == [] {
      assert !Begun(s.pool, s.ledger, n);
    } else {
      assert steps[0] in steps;
      UnstartedStep(s, steps[0], n);
      InvStep(s, steps[0]);
      UnstartedRun(Apply(s, steps[0]), steps[1..], t, n);
    }
  }

  /** No message that is in a slot after StopAccepting is ever started, in any later state of the process. */
  lemma SlotNeverStarted(s: State, seen: set<Pair>, past: seq<Step>, steps: seq<Step>, t: State, n: nat)
    requires Reached(s, seen, past) && ToldToStop(past) && IsProcessRun(s, steps, t)
    requires n < |s.ledger.log| && InSlot(s, n, true)
    ensures n !in t.ledger.started
    ensures InSlot(t, n, true) || InSlot(t, n, false)
    ensures t.pool.core.inflight == 0 ==> InSlot(t, n, false)
  {
    InvReached(s, seen, past);
    StoppedWhenTold(s, seen, past);
    var q :| q in s.pool.core.heap && s.pool.core.heap[q].coalesce == Some(n) && s.pool.core.heap[q].running;
    assert SlotOk(s.pool, s.ledger, q);
    UnstartedRun(s, steps, t, n);
    InvRun(s, steps, t);
    assert FateHolds(t.pool, t.ledger, n);
    if t.ledger.fate[n].Waiting? {
      var at := t.ledger.fate[n].q;
      assert t.pool.core.heap[at].coalesce == Some(n);
      assert QueueOk(t.pool, at);
      assert t.pool.owner[at] in t.pool.workers.Keys;
    } else {
      assert t.pool.core.heap[t.ledger.fate[n].q].coalesce == Some(n);
    }
  }
}
