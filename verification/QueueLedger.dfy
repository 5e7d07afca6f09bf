/**
 What becomes of every message that reaches enqueue's lock region. The ledger
 is history: the steps write it and nothing in the protocol reads it. Its
 entries are tied to the pool in both directions, so that a message has exactly
 one fate because it is in exactly one place.
 */
module QueueLedger {
  import opened Options
  import opened QueueCore
  import opened QueuePool

  datatype Fate =
    | Running(w: nat)
    | Waiting(q: nat)
    | Completed
    | Superseded(into: nat)
    | Refused            // enqueue saw stopped
    | Abandoned(q: nat)  // left in the slot by a worker retiring during shutdown

  /** Message n is log[n]; started lists the handler starts in order. */
  datatype Ledger = Ledger(log: seq<Message>, fate: seq<Fate>, started: seq<nat>)

  function SetFate(fate: seq<Fate>, n: nat, f: Fate): seq<Fate> {
    if n < |fate| then fate[n := f] else fate
  }

  function LedgerEnqueue(l: Ledger, m: Message, verdict: Verdict<nat, nat>, w: nat): Ledger {
    var n := |l.log|;
    var fate := match verdict
      case Rejected => l.fate + [Refused]
      case Started(_) => l.fate + [Running(w)]
      case Coalesced(q, None) => l.fate + [Waiting(q)]
      case Coalesced(q, Some(prev)) => SetFate(l.fate, prev, Superseded(n)) + [Waiting(q)];
    Ledger(l.log + [m], fate, l.started)
  }

  function LedgerFinish(l: Ledger, w: nat, q: nat, left: Option<nat>, next: Option<nat>): Ledger {
    if next.Some? then l.(fate := SetFate(l.fate, next.value, Running(w)))
    else if left.Some? then l.(fate := SetFate(l.fate, left.value, Abandoned(q)))
    else l
  }

  function LedgerStart(l: Ledger, n: nat): Ledger {
    l.(started := l.started + [n])
  }

  function LedgerReturn(l: Ledger, n: nat): Ledger {
    l.(fate := SetFate(l.fate, n, Completed))
  }

  // -------------------------------------------------------------------- fates

  predicate Holds(phase: WorkerPhase, n: nat) {
    phase == Ready(n) || phase == Handling(n)
  }

  /** Fate n is what the pool shows of message n. */
  ghost predicate FateHolds(p: Pool, l: Ledger, n: nat)
    requires n < |l.fate| == |l.log|
  {
    match l.fate[n]
    case Running(w) =>
      && w in p.workers
      && Holds(p.workers[w].phase, n)
      && p.workers[w].q in p.core.heap
      && p.core.heap[p.workers[w].q].key == Key(l.log[n])
    case Waiting(q) =>
      q in p.core.heap && p.core.heap[q] == Queue(Key(l.log[n]), true, Some(n))
    case Abandoned(q) =>
      p.core.stopped && q in p.core.heap && p.core.heap[q] == Queue(Key(l.log[n]), false, Some(n))
    case Refused =>
      p.core.stopped
    case Superseded(into) =>
      n < into < |l.log| && Key(l.log[n]) == Key(l.log[into]) && l.fate[into] != Refused
    case Completed =>
      true
  }

  ghost predicate HolderOk(p: Pool, l: Ledger, w: nat)
    requires w in p.workers
  {
    var phase := p.workers[w].phase;
    phase.Ready? || phase.Handling? ==> phase.n < |l.fate| && l.fate[phase.n] == Running(w)
  }

  ghost predicate SlotOk(p: Pool, l: Ledger, q: nat)
    requires q in p.core.heap
  {
    var tq := p.core.heap[q];
    tq.coalesce.Some? ==>
      && tq.coalesce.value < |l.fate|
      && l.fate[tq.coalesce.value] == if tq.running then Waiting(q) else Abandoned(q)
  }

  /** Pool and ledger tell the same story. */
  ghost predicate Fates(p: Pool, l: Ledger) {
    && |l.fate| == |l.log|
    && (forall n :: 0 <= n < |l.fate| ==> FateHolds(p, l, n))
    && (forall w :: w in p.workers ==> HolderOk(p, l, w))
    && (forall q :: q in p.core.heap ==> SlotOk(p, l, q))
  }

  lemma FatesRefuse(p: Pool, l: Ledger, m: Message)
    requires Fates(p, l) && p.core.stopped
    ensures Fates(p, LedgerEnqueue(l, m, Rejected, p.next + 1))
  {
    var u := LedgerEnqueue(l, m, Rejected, p.next + 1);
    forall n | 0 <= n < |u.fate| ensures FateHolds(p, u, n) {
      assert n < |l.fate| ==> FateHolds(p, l, n);
    }
    forall w | w in p.workers ensures HolderOk(p, u, w) {
      assert HolderOk(p, l, w);
    }
    forall q | q in p.core.heap ensures SlotOk(p, u, q) {
      assert SlotOk(p, l, q);
    }
  }

  lemma FatesBegin(p: Pool, l: Ledger, m: Message)
    requires Agreement(p) && Fates(p, l) && Key(m) !in p.core.queues
    ensures Fates(PoolStart(p, Key(m), |l.log|), LedgerEnqueue(l, m, Started(p.next), p.next + 1))
  {
    var t, u := PoolStart(p, Key(m), |l.log|), LedgerEnqueue(l, m, Started(p.next), p.next + 1);
    forall n | 0 <= n < |u.fate| ensures FateHolds(t, u, n) {
      if n < |l.fate| {
        assert FateHolds(p, l, n);
        assert p.next in p.core.heap ==> QueueOk(p, p.next);
        assert p.next + 1 in p.workers ==> WorkerOk(p, p.next + 1);
      }
    }
    forall w | w in t.workers ensures HolderOk(t, u, w) {
      assert w in p.workers ==> HolderOk(p, l, w);
    }
    forall q | q in t.core.heap ensures SlotOk(t, u, q) {
      assert q in p.core.heap ==> SlotOk(p, l, q);
    }
  }

  lemma FatesCoalesce(p: Pool, l: Ledger, m: Message)
    requires Agreement(p) && Fates(p, l) && !p.core.stopped && Key(m) in p.core.queues && MapEntryOk(p.core, Key(m))
    ensures var q := p.core.queues[Key(m)];
            Fates(PoolCoalesce(p, Key(m), |l.log|), LedgerEnqueue(l, m, Coalesced(q, p.core.heap[q].coalesce), p.next + 1))
  {
    var q0 := p.core.queues[Key(m)];
    var prev := p.core.heap[q0].coalesce;
    var t, u := PoolCoalesce(p, Key(m), |l.log|), LedgerEnqueue(l, m, Coalesced(q0, prev), p.next + 1);
    assert SlotOk(p, l, q0);
    assert prev.Some? ==> FateHolds(p, l, prev.value);
    forall n | 0 <= n < |u.fate| ensures FateHolds(t, u, n) {
      if n < |l.fate| {
        assert FateHolds(p, l, n);
      }
    }
    forall w | w in t.workers ensures HolderOk(t, u, w) {
      assert HolderOk(p, l, w);
    }
    forall q | q in t.core.heap ensures SlotOk(t, u, q) {
      assert SlotOk(p, l, q);
    }
  }

  lemma FatesEnqueue(p: Pool, l: Ledger, m: Message)
    requires Agreement(p) && Fates(p, l) && PointersValid(p.core)
    ensures var (t, verdict) := PoolEnqueue(p, Key(m), |l.log|);
            Fates(t, LedgerEnqueue(l, m, verdict, p.next + 1))
  {
    EnqueueForms(p, Key(m), |l.log|);
    if p.core.stopped {
      FatesRefuse(p, l, m);
    } else if Key(m) in p.core.queues {
      FatesCoalesce(p, l, m);
    } else {
      FatesBegin(p, l, m);
    }
  }

  lemma FatesFinish(p: Pool, l: Ledger, w: nat)
    requires Agreement(p) && Fates(p, l) && w in p.workers && p.workers[w].phase == Returned && p.workers[w].q in p.core.heap
    ensures var (t, next) := PoolFinish(p, w);
            Fates(t, LedgerFinish(l, w, p.workers[w].q, p.core.heap[p.workers[w].q].coalesce, next))
  {
    var q0 := p.workers[w].q;
    var left := p.core.heap[q0].coalesce;
    var (t, next) := PoolFinish(p, w);
    var u := LedgerFinish(l, w, q0, left, next);
    assert WorkerOk(p, w) && SlotOk(p, l, q0);
    if left.Some? {
      assert FateHolds(p, l, left.value);
    }
    assert t.core.heap == p.core.heap[q0 := Queue(p.core.heap[q0].key, next.Some?, if next.Some? then None else left)];
    FatesFinishFates(p, l, w, t, u);
    forall v | v in t.workers ensures HolderOk(t, u, v) {
      assert HolderOk(p, l, v);
    }
    forall q | q in t.core.heap ensures SlotOk(t, u, q) {
      assert SlotOk(p, l, q);
    }
  }

  lemma FatesFinishFates(p: Pool, l: Ledger, w: nat, t: Pool, u: Ledger)
    requires Agreement(p) && Fates(p, l) && w in p.workers && p.workers[w].phase == Returned && p.workers[w].q in p.core.heap
    requires t == PoolFinish(p, w).0
    requires u == LedgerFinish(l, w, p.workers[w].q, p.core.heap[p.workers[w].q].coalesce, PoolFinish(p, w).1)
    ensures forall n :: 0 <= n < |u.fate| ==> FateHolds(t, u, n)
  {
    var q0 := p.workers[w].q;
    assert WorkerOk(p, w) && SlotOk(p, l, q0);
    forall n | 0 <= n < |u.fate| ensures FateHolds(t, u, n) {
      assert FateHolds(p, l, n);
    }
  }

  lemma FatesStart(p: Pool, l: Ledger, w: nat)
    requires Fates(p, l) && w in p.workers && p.workers[w].phase.Ready?
    ensures Fates(PoolMove(p, w, Handling(p.workers[w].phase.n)), LedgerStart(l, p.workers[w].phase.n))
  {
    var n0 := p.workers[w].phase.n;
    var t, u := PoolMove(p, w, Handling(n0)), LedgerStart(l, n0);
    forall n | 0 <= n < |u.fate| ensures FateHolds(t, u, n) {
      assert FateHolds(p, l, n);
    }
    forall v | v in t.workers ensures HolderOk(t, u, v) {
      assert HolderOk(p, l, v);
    }
    forall q | q in t.core.heap ensures SlotOk(t, u, q) {
      assert SlotOk(p, l, q);
    }
  }

  lemma FatesReturn(p: Pool, l: Ledger, w: nat)
    requires Fates(p, l) && w in p.workers && p.workers[w].phase.Handling?
    ensures Fates(PoolMove(p, w, Returned), LedgerReturn(l, p.workers[w].phase.n))
  {
    assert HolderOk(p, l, w);
    var n0 := p.workers[w].phase.n;
    var t, u := PoolMove(p, w, Returned), LedgerReturn(l, n0);
    forall n | 0 <= n < |u.fate| ensures FateHolds(t, u, n) {
      assert FateHolds(p, l, n);
    }
    forall v | v in t.workers ensures HolderOk(t, u, v) {
      assert HolderOk(p, l, v);
    }
    forall q | q in t.core.heap ensures SlotOk(t, u, q) {
      assert SlotOk(p, l, q);
    }
  }

  lemma FatesDone(p: Pool, l: Ledger, w: nat)
    requires Fates(p, l) && w in p.workers && p.workers[w].phase == Retired
    ensures Fates(PoolDone(p, w), l)
  {
    var t := PoolDone(p, w);
    forall n | 0 <= n < |l.fate| ensures FateHolds(t, l, n) {
      assert FateHolds(p, l, n);
    }
    forall v | v in t.workers ensures HolderOk(t, l, v) {
      assert HolderOk(p, l, v);
    }
    forall q | q in t.core.heap ensures SlotOk(t, l, q) {
      assert SlotOk(p, l, q);
    }
  }

  lemma FatesStop(p: Pool, l: Ledger)
    requires Fates(p, l)
    ensures Fates(PoolStop(p), l)
  {
    var t := PoolStop(p);
    forall n | 0 <= n < |l.fate| ensures FateHolds(t, l, n) {
      assert FateHolds(p, l, n);
    }
    forall v | v in t.workers ensures HolderOk(t, l, v) {
      assert HolderOk(p, l, v);
    }
    forall q | q in t.core.heap ensures SlotOk(t, l, q) {
      assert SlotOk(p, l, q);
    }
  }
}
