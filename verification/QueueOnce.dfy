/** No (platform, message id) reaches the handler twice, whatever is redelivered, fails or restarts. */
module QueueOnce {
  import opened QueueCore
  import opened QueueLedger
  import opened QueueOrder
  import opened QueueProtocol

  /** The call has won its dedup insert and has not reached enqueue yet. */
  predicate Claiming(calls: map<nat, Dispatcher>, d: nat) {
    d in calls && (calls[d].phase == FirstSeen || calls[d].phase == Accepted)
  }

  /** A claiming call is the only holder of its pair. */
  ghost predicate ClaimOk(s: State, d: nat)
    requires d in s.dispatchers
  {
    var p := PairOf(s.dispatchers[d].m);
    && p in s.seen
    && p !in s.handed
    && (forall n :: 0 <= n < |s.ledger.log| ==> PairOf(s.ledger.log[n]) != p)
    && (forall e :: Claiming(s.dispatchers, e) && e != d ==> PairOf(s.dispatchers[e].m) != p)
  }

  /** A message in the log is the only one with its pair, and was handed over only if started here. */
  ghost predicate LogOk(s: State, n: nat)
    requires n < |s.ledger.log|
  {
    var p := PairOf(s.ledger.log[n]);
    && p in s.seen
    && (p in s.handed ==> n in s.ledger.started)
    && (forall m :: 0 <= m < |s.ledger.log| && m != n ==> PairOf(s.ledger.log[m]) != p)
  }

  ghost predicate Distinct<T>(xs: seq<T>) {
    forall i, j :: 0 <= i < j < |xs| ==> xs[i] != xs[j]
  }

  ghost predicate Once(s: State) {
    && Distinct(s.handed)
    && (forall p :: p in s.handed ==> p in s.seen)
    && (forall n :: 0 <= n < |s.ledger.log| ==> LogOk(s, n))
    && (forall d :: Claiming(s.dispatchers, d) ==> ClaimOk(s, d))
    && (forall d :: d in s.dispatchers ==> d < s.nextCall)
  }

  /** Steps that hand nothing over and claim nothing. */
  lemma OnceFrame(s: State, t: State)
    requires Once(s)
    requires t.handed == s.handed && t.ledger.log == s.ledger.log && t.ledger.started == s.ledger.started
    requires s.seen <= t.seen && t.nextCall >= s.nextCall
    requires forall d :: d in t.dispatchers ==> d < t.nextCall
    requires forall d :: Claiming(t.dispatchers, d) ==> Claiming(s.dispatchers, d) && t.dispatchers[d].m == s.dispatchers[d].m
    ensures Once(t)
  {
    forall n | 0 <= n < |t.ledger.log| ensures LogOk(t, n) { assert LogOk(s, n); }
    forall d | Claiming(t.dispatchers, d) ensures ClaimOk(t, d) { assert ClaimOk(s, d); }
  }

  lemma OnceDedup(s: State, d: nat)
    requires Once(s) && d in s.dispatchers
    ensures Once(DoDispatch(s, Dedup(d), d))
  {
    var t := DoDispatch(s, Dedup(d), d);
    var p := PairOf(s.dispatchers[d].m);
    if p in s.seen {
      OnceFrame(s, t);
    } else {
      forall n | 0 <= n < |t.ledger.log| ensures LogOk(t, n) { assert LogOk(s, n); }
      forall e | Claiming(t.dispatchers, e) ensures ClaimOk(t, e) {
        if e != d { assert ClaimOk(s, e); }
        forall n | 0 <= n < |s.ledger.log| ensures PairOf(s.ledger.log[n]) != p { assert LogOk(s, n); }
        forall c | Claiming(s.dispatchers, c) ensures PairOf(s.dispatchers[c].m) != p { assert ClaimOk(s, c); }
      }
    }
  }

  lemma OnceDispatch(s: State, step: Step, d: nat)
    requires Once(s) && d in s.dispatchers
    requires step.AppendDone? ==> s.dispatchers[d].phase == FirstSeen
    ensures Once(DoDispatch(s, step, d))
  {
    if step.Dedup? {
      assert DoDispatch(s, step, d) == DoDispatch(s, Dedup(d), d);
      OnceDedup(s, d);
    } else {
      OnceFrame(s, DoDispatch(s, step, d));
    }
  }

  /** Reaching enqueue turns a claim into a log entry. */
  lemma OnceEnqueue(s: State, d: nat)
    requires Once(s) && CallAt(s, d, Accepted) && PointersValid(s.pool.core)
    requires forall i :: 0 <= i < |s.ledger.started| ==> s.ledger.started[i] < |s.ledger.log|
    ensures Once(DoEnqueue(s, d))
  {
    var t := DoEnqueue(s, d);
    assert ClaimOk(s, d);
    assert forall e :: Claiming(t.dispatchers, e) ==> e != d && Claiming(s.dispatchers, e) && t.dispatchers[e].m == s.dispatchers[e].m;
    forall n | 0 <= n < |t.ledger.log| ensures LogOk(t, n) {
      if n < |s.ledger.log| { assert LogOk(s, n); }
    }
    forall e | Claiming(t.dispatchers, e) ensures ClaimOk(t, e) { assert ClaimOk(s, e); }
  }

  /** The handler gets a message whose pair was never handed over. */
  lemma OnceStart(s: State, w: nat)
    requires Once(s) && Fates(s.pool, s.ledger) && Order(s.pool, s.ledger) && Enabled(s, StartHandler(w))
    ensures Once(DoStart(s, w))
  {
    var t := DoStart(s, w);
    var n0 := s.pool.workers[w].phase.n;
    assert HolderOk(s.pool, s.ledger, w);
    assert n0 !in s.ledger.started;
    assert LogOk(s, n0);
    var p := PairOf(s.ledger.log[n0]);
    assert t.handed == s.handed + [p] && t.ledger.started[|s.ledger.started|] == n0;
    forall n | 0 <= n < |t.ledger.log| ensures LogOk(t, n) { assert LogOk(s, n); }
    forall e | Claiming(t.dispatchers, e) ensures ClaimOk(t, e) { assert ClaimOk(s, e); }
  }

  lemma OnceStep(s: State, step: Step)
    requires Once(s) && Fates(s.pool, s.ledger) && Order(s.pool, s.ledger) && Enabled(s, step)
    ensures Once(Apply(s, step))
  {
    match step
    case Enqueue(d) => OnceEnqueue(s, d);
    case StartHandler(w) => OnceStart(s, w);
    case CheckStopped(d) => OnceDispatch(s, step, d);
    case DedupError(d, _) => OnceDispatch(s, step, d);
    case Dedup(d) => OnceDispatch(s, step, d);
    case AppendError(d) => OnceDispatch(s, step, d);
    case AppendDone(d) => OnceDispatch(s, step, d);
    case Restart =>
    case _ => OnceFrame(s, Apply(s, step));
  }
}
