/** Per key, the handler sees messages in the order enqueue saw them, and the slot holds the newest. */
module QueueOrder {
  import opened QueueCore
  import opened QueuePool
  import opened QueueLedger

  ghost predicate SameKey(l: Ledger, i: nat, j: nat)
    requires i < |l.log| && j < |l.log|
  {
    Key(l.log[i]) == Key(l.log[j])
  }

  /** The handler has been called with message n. */
  ghost predicate Begun(p: Pool, l: Ledger, n: nat)
    requires n < |l.fate|
  {
    match l.fate[n]
    case Completed => true
    case Running(w) => w in p.workers && p.workers[w].phase == Handling(n)
    case _ => false
  }

  /** Message n is accepted and the handler may still be called with it. */
  ghost predicate Pending(p: Pool, l: Ledger, n: nat)
    requires n < |l.fate|
  {
    match l.fate[n]
    case Waiting(_) => true
    case Running(w) => w in p.workers && p.workers[w].phase == Ready(n)
    case _ => false
  }

  /** The started list holds exactly the begun messages. */
  ghost predicate StartsMatch(p: Pool, l: Ledger) {
    && (forall i :: 0 <= i < |l.started| ==> l.started[i] < |l.fate| && Begun(p, l, l.started[i]))
    && (forall n :: 0 <= n < |l.fate| && Begun(p, l, n) ==> n in l.started)
  }

  /** Starts with one key are in enqueue order. */
  ghost predicate StartsAscend(l: Ledger)
    requires forall i :: 0 <= i < |l.started| ==> l.started[i] < |l.log|
  {
    forall i, j :: 0 <= i < j < |l.started| && SameKey(l, l.started[i], l.started[j]) ==> l.started[i] < l.started[j]
  }

  /** A pending message is newer than every start with its key. */
  ghost predicate PendingNewer(p: Pool, l: Ledger)
    requires forall i :: 0 <= i < |l.started| ==> l.started[i] < |l.log|
    requires |l.fate| == |l.log|
  {
    forall i, n :: 0 <= i < |l.started| && 0 <= n < |l.fate| && Pending(p, l, n) && SameKey(l, l.started[i], n) ==>
      l.started[i] < n
  }

  /** A waiting message is newer than the running one of its key, and newer ones were refused. */
  ghost predicate WaitingNewest(l: Ledger)
    requires |l.fate| == |l.log|
  {
    forall n, m :: 0 <= n < |l.fate| && 0 <= m < |l.fate| && l.fate[n].Waiting? && SameKey(l, n, m) ==>
      && (l.fate[m].Running? ==> m < n)
      && (n < m ==> l.fate[m] == Refused)
  }

  ghost predicate Order(p: Pool, l: Ledger)
    requires |l.fate| == |l.log|
  {
    StartsMatch(p, l) && StartsAscend(l) && PendingNewer(p, l) && WaitingNewest(l)
  }

  /** One more message at the end of the log keeps the order if no waiting message of its key stays behind. */
  lemma OrderExtend(p: Pool, l: Ledger, t: Pool, u: Ledger)
    requires |l.fate| == |l.log| && Order(p, l)
    requires |u.fate| == |u.log| == |l.log| + 1 && u.log[..|l.log|] == l.log && u.started == l.started
    requires forall n :: 0 <= n < |l.fate| ==> Begun(t, u, n) == Begun(p, l, n)
    requires forall n :: 0 <= n < |l.fate| && Pending(t, u, n) ==> Pending(p, l, n)
    requires forall n :: 0 <= n < |l.fate| && u.fate[n].Waiting? ==>
               l.fate[n].Waiting? && (SameKey(u, n, |l.log|) ==> u.fate[|l.log|] == Refused)
    requires forall n :: 0 <= n < |l.fate| && u.fate[n].Running? ==> l.fate[n].Running?
    requires forall n :: 0 <= n < |l.fate| && l.fate[n] == Refused ==> u.fate[n] == Refused
    requires !Begun(t, u, |l.log|)
    ensures Order(t, u)
  {
    assert forall n, m :: 0 <= n < |l.log| && 0 <= m < |l.log| ==> SameKey(u, n, m) == SameKey(l, n, m);
    forall n | 0 <= n < |u.fate| && Begun(t, u, n) ensures n in u.started {
      assert Begun(p, l, n);
    }
  }

  lemma OrderEnqueue(p: Pool, l: Ledger, m: Message)
    requires Agreement(p) && Fates(p, l) && Order(p, l) && PointersValid(p.core)
    ensures var (t, verdict) := PoolEnqueue(p, Key(m), |l.log|);
            var u := LedgerEnqueue(l, m, verdict, p.next + 1);
            Fates(t, u) && Order(t, u)
  {
    FatesEnqueue(p, l, m);
    EnqueueForms(p, Key(m), |l.log|);
    var (t, verdict) := PoolEnqueue(p, Key(m), |l.log|);
    var u := LedgerEnqueue(l, m, verdict, p.next + 1);
    forall n | 0 <= n < |l.fate|
      ensures Begun(t, u, n) == Begun(p, l, n)
      ensures Pending(t, u, n) ==> Pending(p, l, n)
      ensures u.fate[n].Waiting? ==> l.fate[n].Waiting? && (SameKey(u, n, |l.log|) ==> u.fate[|l.log|] == Refused)
      ensures u.fate[n].Running? ==> l.fate[n].Running?
      ensures l.fate[n] == Refused ==> u.fate[n] == Refused
    {
      EnqueuePointwise(p, l, m, n);
    }
    OrderExtend(p, l, t, u);
  }

  lemma EnqueuePointwise(p: Pool, l: Ledger, m: Message, n: nat)
    requires Agreement(p) && Fates(p, l) && PointersValid(p.core) && n < |l.fate|
    ensures var (t, verdict) := PoolEnqueue(p, Key(m), |l.log|);
            var u := LedgerEnqueue(l, m, verdict, p.next + 1);
            && |u.fate| == |u.log| == |l.log| + 1
            && Begun(t, u, n) == Begun(p, l, n)
            && (Pending(t, u, n) ==> Pending(p, l, n))
            && (u.fate[n].Waiting? ==> l.fate[n].Waiting? && (SameKey(u, n, |l.log|) ==> u.fate[|l.log|] == Refused))
            && (u.fate[n].Running? ==> l.fate[n].Running?)
            && (l.fate[n] == Refused ==> u.fate[n] == Refused)
  {
    EnqueueForms(p, Key(m), |l.log|);
    assert FateHolds(p, l, n);
    if !p.core.stopped {
      if Key(m) in p.core.queues {
        assert SlotOk(p, l, p.core.queues[Key(m)]);
        if l.fate[n].Waiting? {
          assert QueueOk(p, l.fate[n].q);
        }
      } else {
        assert l.fate[n].Running? ==> WorkerOk(p, l.fate[n].w);
        if l.fate[n].Waiting? {
          assert QueueOk(p, l.fate[n].q);
        }
      }
    }
  }

  /** The same, for steps that leave the log and the starts alone. */
  lemma OrderFrame(p: Pool, l: Ledger, t: Pool, u: Ledger)
    requires |l.fate| == |l.log| && Order(p, l)
    requires |u.fate| == |u.log| && u.log == l.log && u.started == l.started
    requires forall n :: 0 <= n < |l.fate| ==> Begun(t, u, n) == Begun(p, l, n)
    requires forall n :: 0 <= n < |l.fate| && Pending(t, u, n) ==> Pending(p, l, n)
    requires forall n :: 0 <= n < |l.fate| && u.fate[n].Waiting? ==> l.fate[n].Waiting?
    requires forall n, m :: 0 <= n < |l.fate| && 0 <= m < |l.fate| && u.fate[n].Waiting? && u.fate[m].Running? && SameKey(l, n, m) ==>
               l.fate[m].Running?
    requires forall n :: 0 <= n < |l.fate| && l.fate[n] == Refused ==> u.fate[n] == Refused
    ensures Order(t, u)
  {
    assert forall n, m :: 0 <= n < |l.log| && 0 <= m < |l.log| ==> SameKey(u, n, m) == SameKey(l, n, m);
    forall n | 0 <= n < |u.fate| && Begun(t, u, n) ensures n in u.started {
      assert Begun(p, l, n);
    }
  }

  lemma OrderFinish(p: Pool, l: Ledger, w: nat)
    requires Agreement(p) && Fates(p, l) && Order(p, l)
    requires w in p.workers && p.workers[w].phase == Returned && p.workers[w].q in p.core.heap
    ensures var (t, next) := PoolFinish(p, w);
            var u := LedgerFinish(l, w, p.workers[w].q, p.core.heap[p.workers[w].q].coalesce, next);
            Fates(t, u) && Order(t, u)
  {
    FatesFinish(p, l, w);
    var (t, next) := PoolFinish(p, w);
    var u := LedgerFinish(l, w, p.workers[w].q, p.core.heap[p.workers[w].q].coalesce, next);
    forall n | 0 <= n < |l.fate|
      ensures Begun(t, u, n) == Begun(p, l, n)
      ensures Pending(t, u, n) ==> Pending(p, l, n)
      ensures u.fate[n].Waiting? ==> l.fate[n].Waiting? && (SlotKey(p, w) == Key(l.log[n]) ==> u.fate == l.fate)
      ensures u.fate[n].Running? && !l.fate[n].Running? ==> SlotKey(p, w) == Key(l.log[n])
      ensures l.fate[n] == Refused ==> u.fate[n] == Refused
    {
      FinishPointwise(p, l, w, n);
    }
    OrderFrame(p, l, t, u);
  }

  ghost function SlotKey(p: Pool, w: nat): string
    requires w in p.workers && p.workers[w].q in p.core.heap
  {
    p.core.heap[p.workers[w].q].key
  }

  lemma FinishPointwise(p: Pool, l: Ledger, w: nat, n: nat)
    requires Agreement(p) && Fates(p, l) && n < |l.fate|
    requires w in p.workers && p.workers[w].phase == Returned && p.workers[w].q in p.core.heap
    ensures var (t, next) := PoolFinish(p, w);
            var u := LedgerFinish(l, w, p.workers[w].q, p.core.heap[p.workers[w].q].coalesce, next);
            && |u.fate| == |u.log| == |l.log|
            && Begun(t, u, n) == Begun(p, l, n)
            && (Pending(t, u, n) ==> Pending(p, l, n))
            && (u.fate[n].Waiting? ==> l.fate[n].Waiting? && (SlotKey(p, w) == Key(l.log[n]) ==> u.fate == l.fate))
            && (u.fate[n].Running? && !l.fate[n].Running? ==> SlotKey(p, w) == Key(l.log[n]))
            && (l.fate[n] == Refused ==> u.fate[n] == Refused)
  {
    var q := p.workers[w].q;
    assert WorkerOk(p, w) && SlotOk(p, l, q) && QueueOk(p, q);
    assert FateHolds(p, l, n);
    if p.core.heap[q].coalesce.Some? {
      assert FateHolds(p, l, p.core.heap[q].coalesce.value);
    }
    if l.fate[n].Waiting? {
      assert QueueOk(p, l.fate[n].q);
    }
  }

  lemma OrderStart(p: Pool, l: Ledger, w: nat)
    requires Agreement(p) && Fates(p, l) && Order(p, l)
    requires w in p.workers && p.workers[w].phase.Ready?
    ensures var t, u := PoolMove(p, w, Handling(p.workers[w].phase.n)), LedgerStart(l, p.workers[w].phase.n);
            Fates(t, u) && Order(t, u)
  {
    FatesStart(p, l, w);
    var n0 := p.workers[w].phase.n;
    var t, u := PoolMove(p, w, Handling(n0)), LedgerStart(l, n0);
    assert HolderOk(p, l, w);
    forall n | 0 <= n < |l.fate| && n != n0
      ensures Begun(t, u, n) == Begun(p, l, n) && (Pending(t, u, n) ==> Pending(p, l, n))
      ensures Pending(t, u, n) && SameKey(l, n0, n) ==> n0 < n
    {
      StartPointwise(p, l, w, n);
    }
    OrderOneStarted(p, l, t, u, n0);
  }

  /** Starting a pending message keeps the order if the pending ones of its key are newer. */
  lemma OrderOneStarted(p: Pool, l: Ledger, t: Pool, u: Ledger, n0: nat)
    requires |l.fate| == |l.log| && Order(p, l) && n0 < |l.fate| && u == LedgerStart(l, n0)
    requires Pending(p, l, n0) && !Begun(p, l, n0) && Begun(t, u, n0) && !Pending(t, u, n0)
    requires forall n :: 0 <= n < |l.fate| && n != n0 ==> Begun(t, u, n) == Begun(p, l, n)
    requires forall n :: 0 <= n < |l.fate| && n != n0 && Pending(t, u, n) ==> Pending(p, l, n) && (SameKey(l, n0, n) ==> n0 < n)
    ensures Order(t, u)
  {
    forall n | 0 <= n < |u.fate| && Begun(t, u, n) ensures n in u.started {
      if n != n0 { assert Begun(p, l, n); } else { assert u.started[|l.started|] == n0; }
    }
    forall i | 0 <= i < |u.started| ensures u.started[i] < |u.fate| && Begun(t, u, u.started[i]) {
      if i < |l.started| { assert Begun(p, l, l.started[i]); }
    }
    assert forall n, m :: 0 <= n < |l.log| && 0 <= m < |l.log| ==> SameKey(u, n, m) == SameKey(l, n, m);
  }

  lemma StartPointwise(p: Pool, l: Ledger, w: nat, n: nat)
    requires Agreement(p) && Fates(p, l) && Order(p, l)
    requires w in p.workers && p.workers[w].phase.Ready? && n < |l.fate| && n != p.workers[w].phase.n
    ensures var n0 := p.workers[w].phase.n;
            var t, u := PoolMove(p, w, Handling(n0)), LedgerStart(l, n0);
            && n0 < |l.log|
            && Begun(t, u, n) == Begun(p, l, n)
            && (Pending(t, u, n) ==> Pending(p, l, n))
            && (Pending(t, u, n) && SameKey(l, n0, n) ==> n0 < n)
  {
    var n0 := p.workers[w].phase.n;
    assert HolderOk(p, l, w) && FateHolds(p, l, n0) && FateHolds(p, l, n);
    if SameKey(l, n0, n) && l.fate[n].Running? {
      SameKeySameWorker(p, w, l.fate[n].w);
    }
  }

  /** Two unretired workers whose queues have one key are one worker. */
  lemma SameKeySameWorker(p: Pool, v: nat, w: nat)
    requires Agreement(p) && v in p.workers && w in p.workers
    requires p.workers[v].phase != Retired && p.workers[w].phase != Retired
    requires p.workers[v].q in p.core.heap && p.workers[w].q in p.core.heap
    requires p.core.heap[p.workers[v].q].key == p.core.heap[p.workers[w].q].key
    ensures v == w
  {
    assert WorkerOk(p, v) && WorkerOk(p, w);
    assert QueueOk(p, p.workers[v].q) && QueueOk(p, p.workers[w].q);
  }

  lemma OrderReturn(p: Pool, l: Ledger, w: nat)
    requires Agreement(p) && Fates(p, l) && Order(p, l)
    requires w in p.workers && p.workers[w].phase.Handling?
    ensures var t, u := PoolMove(p, w, Returned), LedgerReturn(l, p.workers[w].phase.n);
            Fates(t, u) && Order(t, u)
  {
    FatesReturn(p, l, w);
    var t, u := PoolMove(p, w, Returned), LedgerReturn(l, p.workers[w].phase.n);
    assert HolderOk(p, l, w);
    forall n | 0 <= n < |l.fate|
      ensures Begun(t, u, n) == Begun(p, l, n) && (Pending(t, u, n) ==> Pending(p, l, n))
    {
      assert FateHolds(p, l, n);
    }
    OrderFrame(p, l, t, u);
  }

  lemma OrderDone(p: Pool, l: Ledger, w: nat)
    requires Fates(p, l) && Order(p, l) && w in p.workers && p.workers[w].phase == Retired
    ensures Fates(PoolDone(p, w), l) && Order(PoolDone(p, w), l)
  {
    FatesDone(p, l, w);
    forall n | 0 <= n < |l.fate|
      ensures Begun(PoolDone(p, w), l, n) == Begun(p, l, n) && (Pending(PoolDone(p, w), l, n) ==> Pending(p, l, n))
    {
      assert FateHolds(p, l, n);
    }
    OrderFrame(p, l, PoolDone(p, w), l);
  }

  lemma OrderStop(p: Pool, l: Ledger)
    requires Fates(p, l) && Order(p, l)
    ensures Fates(PoolStop(p), l) && Order(PoolStop(p), l)
  {
    FatesStop(p, l);
    OrderFrame(p, l, PoolStop(p), l);
  }
}
