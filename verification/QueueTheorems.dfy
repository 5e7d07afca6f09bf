/** What holds in every reachable state, and over every run, of the queue protocol. */
module QueueTheorems {
  import opened Options
  import opened QueueCore
  import opened QueuePool
  import opened QueueLedger
  import opened QueueOrder
  import opened QueueProtocol
  import opened QueueDuties
  import opened QueueOnce

  ghost predicate Inv(s: State) {
    && Agreement(s.pool)
    && Fates(s.pool, s.ledger)
    && Order(s.pool, s.ledger)
    && DutiesKept(s)
    && Once(s)
  }

  /** s is reached by some interleaving from a first boot with any dedup table. */
  ghost predicate Reached(s: State, seen: set<Pair>, steps: seq<Step>) {
    IsRun(Boot(seen, []), steps, s)
  }

  /** StopAccepting has been called in this process: no restart since. */
  ghost predicate ToldToStop(steps: seq<Step>) {
    exists i :: 0 <= i < |steps| && steps[i] == StopAccepting && forall j :: i < j < |steps| ==> steps[j] != Restart
  }

  lemma ToldFirst(steps: seq<Step>)
    requires steps != []
    ensures ToldToStop(steps) <==> ToldToStop(steps[1..]) || (steps[0] == StopAccepting && Restart !in steps[1..])
  {
    var rest := steps[1..];
    if i :| 0 <= i < |steps| && steps[i] == StopAccepting && forall j :: i < j < |steps| ==> steps[j] != Restart {
      if i > 0 {
        assert rest[i - 1] == StopAccepting;
      }
    }
    if i :| 0 <= i < |rest| && rest[i] == StopAccepting && forall j :: i < j < |rest| ==> rest[j] != Restart {
      assert steps[i + 1] == StopAccepting;
    }
  }

  lemma {:induction false} StoppedRun(s: State, steps: seq<Step>, t: State)
    requires IsRun(s, steps, t)
    ensures t.pool.core.stopped <==> ToldToStop(steps) || (s.pool.core.stopped && Restart !in steps)
    decreases |steps|
  {
    if steps != [] {
      var u := Apply(s, steps[0]);
      FlagStep(s, steps[0]);
      StoppedRun(u, steps[1..], t);
      ToldFirst(steps);
    }
  }

  lemma FlagStep(s: State, step: Step)
    requires Enabled(s, step)
    ensures Apply(s, step).pool.core.stopped <==> step == StopAccepting || (s.pool.core.stopped && step != Restart)
  {
  }

  /** The process turns work away exactly when it has been told to stop. */
  lemma StoppedWhenTold(s: State, seen: set<Pair>, steps: seq<Step>)
    requires Reached(s, seen, steps)
    ensures s.pool.core.stopped <==> ToldToStop(steps)
  {
    StoppedRun(Boot(seen, []), steps, s);
  }

  lemma EnqueueParts(s: State, d: nat)
    requires d in s.dispatchers && PointersValid(s.pool.core)
    ensures var m, t := s.dispatchers[d].m, DoEnqueue(s, d);
            var (pool, verdict) := PoolEnqueue(s.pool, Key(m), |s.ledger.log|);
            t.pool == pool && t.ledger == LedgerEnqueue(s.ledger, m, verdict, s.pool.next + 1)
  {
  }

  /** Pool and ledger agree, and tell one story in which order is kept. */
  ghost predicate Sound(p: Pool, l: Ledger) {
    Agreement(p) && Fates(p, l) && Order(p, l)
  }

  lemma EnqueueSound(p: Pool, l: Ledger, m: Message)
    requires Sound(p, l)
    ensures PointersValid(p.core)
    ensures var (pool, verdict) := PoolEnqueue(p, Key(m), |l.log|); Sound(pool, LedgerEnqueue(l, m, verdict, p.next + 1))
  {
    AgreementEnqueue(p, Key(m), |l.log|);
    OrderEnqueue(p, l, m);
  }

  lemma EnqueueKeeps(s: State, d: nat)
    requires Sound(s.pool, s.ledger) && Enabled(s, Enqueue(d))
    ensures Sound(DoEnqueue(s, d).pool, DoEnqueue(s, d).ledger)
  {
    EnqueueSound(s.pool, s.ledger, s.dispatchers[d].m);
    EnqueueParts(s, d);
  }

  lemma FinishKeeps(s: State, w: nat)
    requires Agreement(s.pool) && Fates(s.pool, s.ledger) && Order(s.pool, s.ledger) && Enabled(s, Finish(w))
    ensures var t := DoFinish(s, w); Agreement(t.pool) && Fates(t.pool, t.ledger) && Order(t.pool, t.ledger)
  {
    AgreementFinish(s.pool, w);
    OrderFinish(s.pool, s.ledger, w);
  }

  lemma PoolAndLedgerStep(s: State, step: Step)
    requires Agreement(s.pool) && Fates(s.pool, s.ledger) && Order(s.pool, s.ledger) && Enabled(s, step)
    ensures var t := Apply(s, step); Agreement(t.pool) && Fates(t.pool, t.ledger) && Order(t.pool, t.ledger)
  {
    match step
    case Enqueue(d) => EnqueueKeeps(s, d);
    case StartHandler(w) =>
      AgreementMove(s.pool, w, Handling(s.pool.workers[w].phase.n));
      OrderStart(s.pool, s.ledger, w);
    case HandlerReturns(w) =>
      AgreementMove(s.pool, w, Returned);
      OrderReturn(s.pool, s.ledger, w);
    case Finish(w) => FinishKeeps(s, w);
    case Done(w) =>
      AgreementDone(s.pool, w);
      OrderDone(s.pool, s.ledger, w);
    case StopAccepting =>
      AgreementStop(s.pool);
      OrderStop(s.pool, s.ledger);
    case _ =>
  }

  lemma InvStep(s: State, step: Step)
    requires Inv(s) && Enabled(s, step)
    ensures Inv(Apply(s, step))
  {
    PoolAndLedgerStep(s, step);
    DutiesStep(s, step);
    OnceStep(s, step);
  }

  lemma {:induction false} InvRun(s: State, steps: seq<Step>, t: State)
    requires Inv(s) && IsRun(s, steps, t)
    ensures Inv(t)
    decreases |steps|
  {
    if steps != [] {
      InvStep(s, steps[0]);
      InvRun(Apply(s, steps[0]), steps[1..], t);
    }
  }

  lemma InvReached(s: State, seen: set<Pair>, steps: seq<Step>)
    requires Reached(s, seen, steps)
    ensures Inv(s)
  {
    InvRun(Boot(seen, []), steps, s);
  }

  /** The lookups that Enabled and Apply make never fail in a reachable state. */
  lemma NothingDangles(s: State, seen: set<Pair>, steps: seq<Step>)
    requires Reached(s, seen, steps)
    ensures PointersValid(s.pool.core)
    ensures forall w :: w in s.pool.workers ==>
              && s.pool.workers[w].q in s.pool.core.heap
              && (s.pool.workers[w].phase.Ready? || s.pool.workers[w].phase.Handling? ==>
                    s.pool.workers[w].phase.n < |s.ledger.log|)
  {
    InvReached(s, seen, steps);
    forall k | k in s.pool.core.queues ensures s.pool.core.queues[k] in s.pool.core.heap {
      assert MapEntryOk(s.pool.core, k);
    }
    forall w | w in s.pool.workers
      ensures s.pool.workers[w].q in s.pool.core.heap
      ensures s.pool.workers[w].phase.Ready? || s.pool.workers[w].phase.Handling? ==>
                s.pool.workers[w].phase.n < |s.ledger.log|
    {
      assert WorkerOk(s.pool, w) && HolderOk(s.pool, s.ledger, w);
    }
  }

  // ------------------------------------------------------------- conservation

  /** Some worker has message n in hand. */
  ghost predicate InHand(s: State, n: nat) {
    exists w :: w in s.pool.workers && Holds(s.pool.workers[w].phase, n)
  }

  /** Message n sits in the slot of a queue that is running, or of one that was retired. */
  ghost predicate InSlot(s: State, n: nat, running: bool) {
    exists q :: q in s.pool.core.heap && s.pool.core.heap[q].coalesce == Some(n) && s.pool.core.heap[q].running == running
  }

  /**
   Conservation of triggers: the fate of a message, of which it has one, says
   where it is; nothing is dropped before shutdown; and an idle process that
   was not told to stop has finished with every message.
   */
  lemma ConservationOfTriggers(s: State, seen: set<Pair>, steps: seq<Step>)
    requires Reached(s, seen, steps)
    ensures |s.ledger.fate| == |s.ledger.log|
    ensures forall n :: 0 <= n < |s.ledger.log| ==>
              && (s.ledger.fate[n].Running? <==> InHand(s, n))
              && (s.ledger.fate[n].Waiting? <==> InSlot(s, n, true))
              && (s.ledger.fate[n].Abandoned? <==> InSlot(s, n, false))
              && (s.ledger.fate[n].Superseded? <==> n in s.duties.pointerBy)
              && (s.ledger.fate[n].Completed? <==> n in s.ledger.started && !InHand(s, n))
    ensures !ToldToStop(steps) ==>
              forall n :: 0 <= n < |s.ledger.log| ==> !s.ledger.fate[n].Refused? && !s.ledger.fate[n].Abandoned?
    ensures !ToldToStop(steps) && s.pool.workers == map[] ==>
              forall n :: 0 <= n < |s.ledger.log| ==> s.ledger.fate[n].Completed? || s.ledger.fate[n].Superseded?
  {
    InvReached(s, seen, steps);
    StoppedWhenTold(s, seen, steps);
    forall n | 0 <= n < |s.ledger.log|
      ensures s.ledger.fate[n].Running? <==> InHand(s, n)
      ensures s.ledger.fate[n].Waiting? <==> InSlot(s, n, true)
      ensures s.ledger.fate[n].Abandoned? <==> InSlot(s, n, false)
      ensures s.ledger.fate[n].Superseded? <==> n in s.duties.pointerBy
      ensures s.ledger.fate[n].Completed? <==> n in s.ledger.started && !InHand(s, n)
      ensures !s.pool.core.stopped ==> !s.ledger.fate[n].Refused? && !s.ledger.fate[n].Abandoned?
      ensures !s.pool.core.stopped && s.pool.workers == map[] ==> !s.ledger.fate[n].Waiting? && !s.ledger.fate[n].Running?
    {
      assert FateHolds(s.pool, s.ledger, n);
      forall w | w in s.pool.workers && Holds(s.pool.workers[w].phase, n) ensures s.ledger.fate[n] == Running(w) {
        assert HolderOk(s.pool, s.ledger, w);
      }
      forall q | q in s.pool.core.heap && s.pool.core.heap[q].coalesce == Some(n)
        ensures s.ledger.fate[n] == if s.pool.core.heap[q].running then Waiting(q) else Abandoned(q)
      {
        assert SlotOk(s.pool, s.ledger, q);
      }
      if s.ledger.fate[n].Waiting? {
        assert QueueOk(s.pool, s.ledger.fate[n].q);
      }
      if n in s.duties.pointerBy {
        assert PointerOwed(s, n);
      }
      if s.ledger.fate[n].Completed? {
        assert Begun(s.pool, s.ledger, n);
      }
      if n in s.ledger.started && !s.ledger.fate[n].Completed? {
        assert Begun(s.pool, s.ledger, n);
      }
    }
  }

  // ------------------------------------------------------ supersession chains

  /** Follow the back-pointers from message n to the end. */
  ghost function ChainEnd(l: Ledger, n: nat): (e: nat)
    requires n < |l.fate| == |l.log|
    requires forall a :: 0 <= a < |l.fate| && l.fate[a].Superseded? ==> a < l.fate[a].into < |l.log|
    decreases |l.log| - n
  {
    if l.fate[n].Superseded? then ChainEnd(l, l.fate[n].into) else n
  }

  ghost predicate Advancing(l: Ledger) {
    |l.fate| == |l.log| && forall a :: 0 <= a < |l.fate| && l.fate[a].Superseded? ==> a < l.fate[a].into < |l.log|
  }

  lemma FatesAdvance(p: Pool, l: Ledger)
    requires Fates(p, l)
    ensures Advancing(l)
  {
    forall a | 0 <= a < |l.fate| && l.fate[a].Superseded? ensures a < l.fate[a].into < |l.log| {
      assert FateHolds(p, l, a);
    }
  }

  lemma {:induction false} ChainEndKept(p: Pool, l: Ledger, n: nat)
    requires Fates(p, l) && n < |l.log| && Advancing(l)
    ensures var e := ChainEnd(l, n);
            && n <= e < |l.log|
            && Key(l.log[e]) == Key(l.log[n])
            && !l.fate[e].Superseded?
            && (l.fate[n] != Refused ==> l.fate[e] != Refused)
    decreases |l.log| - n
  {
    assert FateHolds(p, l, n);
    if l.fate[n].Superseded? {
      ChainEndKept(p, l, l.fate[n].into);
    }
  }

  /**
   Supersession is sound: back-pointers advance in enqueue order under one key,
   no message is the target of two, at most one record is written for each, a
   record not yet written is owed by exactly the call that superseded it, and
   every chain ends in a message that waits, runs, completed or was left behind
   by shutdown.
   */
  lemma SupersessionChains(s: State, seen: set<Pair>, steps: seq<Step>, n: nat)
    requires Reached(s, seen, steps) && n < |s.ledger.log| == |s.ledger.fate| && s.ledger.fate[n].Superseded?
    ensures n < s.ledger.fate[n].into < |s.ledger.log|
    ensures Key(s.ledger.log[n]) == Key(s.ledger.log[s.ledger.fate[n].into])
    ensures forall m :: 0 <= m < |s.ledger.fate| && s.ledger.fate[m] == s.ledger.fate[n] ==> m == n
    ensures forall i, j :: 0 <= i < j < |s.duties.pointers| ==> s.duties.pointers[i].0 != s.duties.pointers[j].0
    ensures forall i :: 0 <= i < |s.duties.pointers| && s.duties.pointers[i].0 == n ==>
              s.duties.pointers[i].1 == s.ledger.fate[n].into
    ensures (n, s.ledger.fate[n].into) !in s.duties.pointers <==>
              exists d :: CallAt(s, d, PointerDue(n, s.ledger.fate[n].into))
    ensures Advancing(s.ledger)
    ensures var e := ChainEnd(s.ledger, n);
            && n < e < |s.ledger.log|
            && Key(s.ledger.log[e]) == Key(s.ledger.log[n])
            && (s.ledger.fate[e].Waiting? || s.ledger.fate[e].Running? || s.ledger.fate[e].Completed? || s.ledger.fate[e].Abandoned?)
  {
    InvReached(s, seen, steps);
    assert FateHolds(s.pool, s.ledger, n);
    FatesAdvance(s.pool, s.ledger);
    ChainEndKept(s.pool, s.ledger, n);
    ChainEndKept(s.pool, s.ledger, s.ledger.fate[n].into);
    assert PointerOwed(s, n);
    var into := s.ledger.fate[n].into;
    if (n, into) !in s.duties.pointers {
      assert CallAt(s, s.duties.pointerBy[n], PointerDue(n, into));
    }
    forall d | CallAt(s, d, PointerDue(n, into)) ensures (n, into) !in s.duties.pointers {
      assert CallOk(s, d);
    }
    forall m | 0 <= m < |s.ledger.fate| && s.ledger.fate[m] == s.ledger.fate[n] ensures m == n {
    }
  }

  /** Message b is reached from message a along back-pointers. */
  ghost predicate OnChain(l: Ledger, a: nat, b: nat)
    requires Advancing(l) && a < |l.log|
    decreases |l.log| - a
  {
    a == b || (l.fate[a].Superseded? && OnChain(l, l.fate[a].into, b))
  }

  lemma {:induction false} OnChainTarget(l: Ledger, a: nat, b: nat)
    requires Advancing(l) && a < |l.log| && OnChain(l, a, b) && a != b
    ensures exists c :: 0 <= c < |l.fate| && l.fate[c] == Superseded(b)
    decreases |l.log| - a
  {
    if l.fate[a].into != b {
      OnChainTarget(l, l.fate[a].into, b);
    } else {
      assert l.fate[a] == Superseded(b);
    }
  }

  /** Chains with one end are nested, because no message is the target of two. */
  lemma {:induction false} ChainsNest(l: Ledger, a: nat, b: nat)
    requires Advancing(l) && OneEach(l) && a < |l.log| && b < |l.log| && ChainEnd(l, a) == ChainEnd(l, b)
    ensures OnChain(l, a, b) || OnChain(l, b, a)
    decreases |l.log| - a
  {
    if l.fate[a].Superseded? {
      var c := l.fate[a].into;
      ChainsNest(l, c, b);
      if !OnChain(l, c, b) {
        assert OnChain(l, b, c);
        OnChainBack(l, b, a, c);
      }
    } else {
      EndOnChain(l, b);
    }
  }

  lemma {:induction false} EndOnChain(l: Ledger, b: nat)
    requires Advancing(l) && b < |l.log|
    ensures OnChain(l, b, ChainEnd(l, b))
    decreases |l.log| - b
  {
    if l.fate[b].Superseded? {
      EndOnChain(l, l.fate[b].into);
    }
  }

  /** A chain that reaches c, the target of a, starts at c or passes through a. */
  lemma {:induction false} OnChainBack(l: Ledger, b: nat, a: nat, c: nat)
    requires Advancing(l) && OneEach(l) && a < |l.log| && b < |l.log| && OnChain(l, b, c) && l.fate[a] == Superseded(c)
    ensures b == c || OnChain(l, b, a)
    decreases |l.log| - b
  {
    if b != c && b != a {
      assert l.fate[b] != l.fate[a];
      OnChainBack(l, l.fate[b].into, a, c);
    }
  }

  /**
   Acks match bursts: acks posted and acks still owed are together the
   empty-to-full transitions of the slots, and no two of them lead to the same
   run: each coalesced run has at most one ack.
   */
  lemma OneAckPerRun(s: State, seen: set<Pair>, steps: seq<Step>)
    requires Reached(s, seen, steps)
    ensures forall n :: n in s.duties.ackBy <==> n in s.duties.acks || exists d :: CallAt(s, d, AckDue(n))
    ensures forall n, d :: n in s.duties.acks ==> !CallAt(s, d, AckDue(n))
    ensures Distinct(s.duties.acks)
    ensures Advancing(s.ledger)
    ensures forall n :: n in s.duties.ackBy ==> n < |s.ledger.log|
    ensures forall a, b :: a in s.duties.ackBy && b in s.duties.ackBy && ChainEnd(s.ledger, a) == ChainEnd(s.ledger, b) ==> a == b
  {
    InvReached(s, seen, steps);
    FatesAdvance(s.pool, s.ledger);
    forall n | n in s.duties.ackBy
      ensures n < |s.ledger.log| && (n in s.duties.acks || exists d :: CallAt(s, d, AckDue(n)))
    {
      assert AckOwed(s, n);
      if n !in s.duties.acks {
        assert CallAt(s, s.duties.ackBy[n], AckDue(n));
      }
    }
    forall n, d | CallAt(s, d, AckDue(n)) ensures n in s.duties.ackBy && n !in s.duties.acks {
      assert CallOk(s, d) && AckOwed(s, n);
    }
    forall a, b | a in s.duties.ackBy && b in s.duties.ackBy && ChainEnd(s.ledger, a) == ChainEnd(s.ledger, b) ensures a == b {
      ChainsNest(s.ledger, a, b);
      assert AckOwed(s, a) && AckOwed(s, b);
      if a != b {
        if OnChain(s.ledger, a, b) { OnChainTarget(s.ledger, a, b); } else { OnChainTarget(s.ledger, b, a); }
      }
    }
  }

  // ------------------------------------------------------ serial, newest wins

  /** Workers v and w are both inside the handler, for messages of one key. */
  ghost predicate Overlap(s: State, v: nat, w: nat)
    requires v in s.pool.workers && w in s.pool.workers
  {
    var a, b := s.pool.workers[v].phase, s.pool.workers[w].phase;
    && a.Handling? && b.Handling?
    && a.n < |s.ledger.log| && b.n < |s.ledger.log|
    && Key(s.ledger.log[a.n]) == Key(s.ledger.log[b.n])
  }

  /**
   Per key, handler calls never overlap and come in enqueue order, and a message
   that a worker takes from the slot is the newest that enqueue ever saw for its
   key.
   */
  lemma SerialNewestWins(s: State, seen: set<Pair>, steps: seq<Step>)
    requires Reached(s, seen, steps)
    ensures |s.ledger.fate| == |s.ledger.log| && forall i :: 0 <= i < |s.ledger.started| ==> s.ledger.started[i] < |s.ledger.log|
    ensures forall v, w | v in s.pool.workers && w in s.pool.workers && v != w :: !Overlap(s, v, w)
    ensures forall i, j | 0 <= i < j < |s.ledger.started| ::
              (Key(s.ledger.log[s.ledger.started[i]]) == Key(s.ledger.log[s.ledger.started[j]]) ==>
                 s.ledger.started[i] < s.ledger.started[j])
    ensures forall w :: w in s.pool.workers && Enabled(s, Finish(w)) && PoolFinish(s.pool, w).1.Some? ==>
              var n := PoolFinish(s.pool, w).1.value;
              && n < |s.ledger.log|
              && (forall m :: n < m < |s.ledger.log| ==> Key(s.ledger.log[m]) != Key(s.ledger.log[n]))
  {
    InvReached(s, seen, steps);
    forall v, w | v in s.pool.workers && w in s.pool.workers && v != w ensures !Overlap(s, v, w) {
      NoOverlap(s, v, w);
    }
    forall i, j | 0 <= i < j < |s.ledger.started|
                && Key(s.ledger.log[s.ledger.started[i]]) == Key(s.ledger.log[s.ledger.started[j]])
      ensures s.ledger.started[i] < s.ledger.started[j]
    {
      assert SameKey(s.ledger, s.ledger.started[i], s.ledger.started[j]);
    }
    forall w | w in s.pool.workers && Enabled(s, Finish(w)) && PoolFinish(s.pool, w).1.Some?
      ensures var n := PoolFinish(s.pool, w).1.value;
              n < |s.ledger.log| && (forall m :: n < m < |s.ledger.log| ==> Key(s.ledger.log[m]) != Key(s.ledger.log[n]))
    {
      TakesNewest(s, w);
    }
  }

  lemma NoOverlap(s: State, v: nat, w: nat)
    requires Agreement(s.pool) && Fates(s.pool, s.ledger)
    requires v in s.pool.workers && w in s.pool.workers && v != w
    ensures !Overlap(s, v, w)
  {
    if Overlap(s, v, w) {
      assert HolderOk(s.pool, s.ledger, v) && HolderOk(s.pool, s.ledger, w);
      assert FateHolds(s.pool, s.ledger, s.pool.workers[v].phase.n) && FateHolds(s.pool, s.ledger, s.pool.workers[w].phase.n);
      SameKeySameWorker(s.pool, v, w);
    }
  }

  lemma TakesNewest(s: State, w: nat)
    requires Agreement(s.pool) && Fates(s.pool, s.ledger) && Order(s.pool, s.ledger)
    requires Enabled(s, Finish(w)) && PoolFinish(s.pool, w).1.Some?
    ensures var n := PoolFinish(s.pool, w).1.value;
            n < |s.ledger.log| && (forall m :: n < m < |s.ledger.log| ==> Key(s.ledger.log[m]) != Key(s.ledger.log[n]))
  {
    var n := PoolFinish(s.pool, w).1.value;
    assert WorkerOk(s.pool, w) && SlotOk(s.pool, s.ledger, s.pool.workers[w].q);
    forall m | n < m < |s.ledger.log| ensures Key(s.ledger.log[m]) != Key(s.ledger.log[n]) {
      assert FateHolds(s.pool, s.ledger, m);
      assert s.ledger.fate[m] != Refused;
    }
  }

  // ------------------------------------------------------------- at most once

  /**
   At-most-once triggering, over duplicates, failed dedup writes and appends,
   shutdowns and restarts: no (platform, message id) is handed to the handler
   twice, and none that an earlier process had already recorded.
   */
  lemma AtMostOnce(s: State, seen: set<Pair>, steps: seq<Step>)
    requires Reached(s, seen, steps)
    ensures forall i, j :: 0 <= i < j < |s.handed| ==> s.handed[i] != s.handed[j]
    ensures forall p :: p in s.handed ==> p in s.seen && p !in seen
  {
    InvReached(s, seen, steps);
    FirstDedupKept(Boot(seen, []), steps, s, seen);
  }

  /** What was in the first dedup table is never claimed, logged or handed over. */
  ghost predicate OldLeftAlone(s: State, seen: set<Pair>) {
    && seen <= s.seen
    && (forall p :: p in s.handed ==> p !in seen)
    && (forall n :: 0 <= n < |s.ledger.log| ==> PairOf(s.ledger.log[n]) !in seen)
    && (forall d :: Claiming(s.dispatchers, d) ==> PairOf(s.dispatchers[d].m) !in seen)
  }

  lemma OldLeftAloneStep(s: State, step: Step, seen: set<Pair>)
    requires OldLeftAlone(s, seen) && Enabled(s, step)
    ensures OldLeftAlone(Apply(s, step), seen)
  {
    match step
    case CheckStopped(d) => assert OldLeftAlone(DoDispatch(s, step, d), seen);
    case DedupError(d, _) => assert OldLeftAlone(DoDispatch(s, step, d), seen);
    case Dedup(d) => assert OldLeftAlone(DoDispatch(s, step, d), seen);
    case AppendError(d) => assert OldLeftAlone(DoDispatch(s, step, d), seen);
    case AppendDone(d) =>
      assert Claiming(s.dispatchers, d);
      assert OldLeftAlone(DoDispatch(s, step, d), seen);
    case Enqueue(d) =>
      assert Claiming(s.dispatchers, d);
      assert OldLeftAlone(DoEnqueue(s, d), seen);
    case StartHandler(w) => assert OldLeftAlone(DoStart(s, w), seen);
    case _ =>
  }

  lemma {:induction false} FirstDedupKept(s: State, steps: seq<Step>, t: State, seen: set<Pair>)
    requires OldLeftAlone(s, seen) && IsRun(s, steps, t)
    ensures OldLeftAlone(t, seen)
    decreases |steps|
  {
    if steps != [] {
      OldLeftAloneStep(s, steps[0], seen);
      FirstDedupKept(Apply(s, steps[0]), steps[1..], t, seen);
    }
  }
}
