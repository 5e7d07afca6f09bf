/** Every superseded message gets one back-pointer, every filled slot one ack. */
module QueueDuties {
  import opened QueueCore
  import opened QueuePool
  import opened QueueLedger
  import opened QueueProtocol

  /** Message n was superseded, and its back-pointer is either still owed or written, not both. */
  ghost predicate PointerOwed(s: State, n: nat)
    requires n in s.duties.pointerBy
  {
    && n < |s.ledger.fate|
    && s.ledger.fate[n].Superseded?
    && (CallAt(s, s.duties.pointerBy[n], PointerDue(n, s.ledger.fate[n].into))
        <==> (n, s.ledger.fate[n].into) !in s.duties.pointers)
  }

  ghost predicate AckOwed(s: State, n: nat)
    requires n in s.duties.ackBy
  {
    && n < |s.ledger.fate|
    && (CallAt(s, s.duties.ackBy[n], AckDue(n)) <==> n !in s.duties.acks)
    && (forall a :: 0 <= a < |s.ledger.fate| ==> s.ledger.fate[a] != Superseded(n))
  }

  ghost predicate CallOk(s: State, d: nat)
    requires d in s.dispatchers
  {
    && d < s.nextCall
    && match s.dispatchers[d].phase
       case PointerDue(prev, into) =>
         prev in s.duties.pointerBy && s.duties.pointerBy[prev] == d && prev < |s.ledger.fate| && s.ledger.fate[prev] == Superseded(into)
       case AckDue(first) =>
         first in s.duties.ackBy && s.duties.ackBy[first] == d
       case _ => true
  }

  /** No message replaced two others. */
  ghost predicate OneEach(l: Ledger) {
    forall a, b :: 0 <= a < b < |l.fate| && l.fate[a].Superseded? ==> l.fate[a] != l.fate[b]
  }

  ghost predicate DutiesKept(s: State) {
    && (forall n :: n in s.duties.pointerBy ==> PointerOwed(s, n))
    && (forall n :: 0 <= n < |s.ledger.fate| && s.ledger.fate[n].Superseded? ==> n in s.duties.pointerBy)
    && (forall n :: n in s.duties.ackBy ==> AckOwed(s, n))
    && (forall d :: d in s.dispatchers ==> CallOk(s, d))
    && (forall i :: 0 <= i < |s.duties.pointers| ==>
          && s.duties.pointers[i].0 in s.duties.pointerBy
          && s.duties.pointers[i].0 < |s.ledger.fate|
          && s.ledger.fate[s.duties.pointers[i].0] == Superseded(s.duties.pointers[i].1))
    && (forall i, j :: 0 <= i < j < |s.duties.pointers| ==> s.duties.pointers[i].0 != s.duties.pointers[j].0)
    && (forall i :: 0 <= i < |s.duties.acks| ==> s.duties.acks[i] in s.duties.ackBy)
    && (forall i, j :: 0 <= i < j < |s.duties.acks| ==> s.duties.acks[i] != s.duties.acks[j])
    && OneEach(s.ledger)
  }

  /** Steps that write neither a duty nor a superseded fate, and add or drop no call that owes something. */
  lemma DutiesFrame(s: State, t: State)
    requires DutiesKept(s)
    requires t.duties == s.duties && t.nextCall >= s.nextCall && |t.ledger.fate| >= |s.ledger.fate|
    requires forall n :: |s.ledger.fate| <= n < |t.ledger.fate| ==> !t.ledger.fate[n].Superseded?
    requires forall n :: 0 <= n < |s.ledger.fate| ==>
               (s.ledger.fate[n].Superseded? <==> t.ledger.fate[n].Superseded?)
               && (s.ledger.fate[n].Superseded? ==> t.ledger.fate[n] == s.ledger.fate[n])
    requires forall d :: d in t.dispatchers ==>
               d < t.nextCall && (t.dispatchers[d].phase.PointerDue? || t.dispatchers[d].phase.AckDue? ==>
                 CallAt(s, d, t.dispatchers[d].phase))
    requires forall d :: d in s.dispatchers && (s.dispatchers[d].phase.PointerDue? || s.dispatchers[d].phase.AckDue?) ==>
               CallAt(t, d, s.dispatchers[d].phase)
    ensures DutiesKept(t)
  {
    forall n | n in t.duties.pointerBy ensures PointerOwed(t, n) { assert PointerOwed(s, n); }
    forall n | n in t.duties.ackBy ensures AckOwed(t, n) { assert AckOwed(s, n); }
    forall d | d in t.dispatchers ensures CallOk(t, d) {
      assert d in s.dispatchers ==> CallOk(s, d);
    }
  }

  lemma PointerWritten(s: State, d: nat)
    requires DutiesKept(s) && Enabled(s, WritePointer(d))
    ensures var t := Apply(s, WritePointer(d));
            && (forall i :: 0 <= i < |s.duties.pointers| ==> s.duties.pointers[i].0 != s.dispatchers[d].phase.prev)
            && (forall n :: n in t.duties.pointerBy ==> PointerOwed(t, n))
  {
    var t := Apply(s, WritePointer(d));
    var phase := s.dispatchers[d].phase;
    assert CallOk(s, d) && PointerOwed(s, phase.prev);
    forall i | 0 <= i < |s.duties.pointers| ensures s.duties.pointers[i].0 != phase.prev {
      assert s.duties.pointers[i] in s.duties.pointers;
    }
    assert t.duties.pointers[|s.duties.pointers|] == (phase.prev, phase.into);
    forall n | n in t.duties.pointerBy ensures PointerOwed(t, n) { assert PointerOwed(s, n); }
  }

  lemma DutiesPointer(s: State, d: nat)
    requires DutiesKept(s) && Enabled(s, WritePointer(d))
    ensures DutiesKept(Apply(s, WritePointer(d)))
  {
    PointerWritten(s, d);
    var t := Apply(s, WritePointer(d));
    assert CallOk(s, d);
    forall n | n in t.duties.ackBy ensures AckOwed(t, n) { assert AckOwed(s, n); }
    forall c | c in t.dispatchers ensures CallOk(t, c) { assert CallOk(s, c); }
  }

  lemma AckPosted(s: State, d: nat)
    requires DutiesKept(s) && Enabled(s, PostAck(d))
    ensures var t := Apply(s, PostAck(d));
            && (forall i :: 0 <= i < |s.duties.acks| ==> s.duties.acks[i] != s.dispatchers[d].phase.first)
            && (forall n :: n in t.duties.ackBy ==> AckOwed(t, n))
  {
    var t := Apply(s, PostAck(d));
    var first := s.dispatchers[d].phase.first;
    assert CallOk(s, d) && AckOwed(s, first);
    forall i | 0 <= i < |s.duties.acks| ensures s.duties.acks[i] != first {
      assert s.duties.acks[i] in s.duties.acks;
    }
    assert t.duties.acks[|s.duties.acks|] == first;
    forall n | n in t.duties.ackBy ensures AckOwed(t, n) { assert AckOwed(s, n); }
  }

  lemma DutiesAck(s: State, d: nat)
    requires DutiesKept(s) && Enabled(s, PostAck(d))
    ensures DutiesKept(Apply(s, PostAck(d)))
  {
    AckPosted(s, d);
    var t := Apply(s, PostAck(d));
    assert CallOk(s, d);
    AckLeaves(s, t, d);
  }

  lemma AckLeaves(s: State, t: State, d: nat)
    requires DutiesKept(s) && d in s.dispatchers && s.dispatchers[d].phase.AckDue?
    requires t.dispatchers == Leave(s.dispatchers, d) && t.ledger == s.ledger && t.nextCall == s.nextCall
    requires t.duties == s.duties.(acks := t.duties.acks)
    ensures forall n :: n in t.duties.pointerBy ==> PointerOwed(t, n)
    ensures forall c :: c in t.dispatchers ==> CallOk(t, c)
  {
    forall n | n in t.duties.pointerBy ensures PointerOwed(t, n) { assert PointerOwed(s, n); }
    forall c | c in t.dispatchers ensures CallOk(t, c) { assert CallOk(s, c); }
  }

  /** Coalescing into a full slot: the message in the slot becomes superseded. */
  ghost predicate Replaces(s: State, t: State, d: nat, prev: nat, q: nat) {
    && CallAt(s, d, Accepted)
    && prev < |s.ledger.fate| == |s.ledger.log| && s.ledger.fate[prev] == Waiting(q)
    && t.dispatchers == s.dispatchers[d := Dispatcher(s.dispatchers[d].m, PointerDue(prev, |s.ledger.log|))]
    && t.nextCall == s.nextCall
    && t.ledger.fate == s.ledger.fate[prev := Superseded(|s.ledger.log|)] + [Waiting(q)]
    && t.duties == s.duties.(pointerBy := s.duties.pointerBy[prev := d])
  }

  /** Every supersession so far is by a message that has been logged. */
  ghost predicate NotYetInto(s: State) {
    forall a :: 0 <= a < |s.ledger.fate| ==> s.ledger.fate[a] != Superseded(|s.ledger.log|)
  }

  lemma FatesNotYetInto(s: State)
    requires Fates(s.pool, s.ledger)
    ensures NotYetInto(s)
  {
    forall a | 0 <= a < |s.ledger.fate| ensures s.ledger.fate[a] != Superseded(|s.ledger.log|) {
      assert FateHolds(s.pool, s.ledger, a);
    }
  }

  lemma ReplacePointers(s: State, t: State, d: nat, prev: nat, q: nat)
    requires DutiesKept(s) && Replaces(s, t, d, prev, q)
    ensures prev !in s.duties.pointerBy
    ensures forall k :: k in t.duties.pointerBy ==> PointerOwed(t, k)
  {
    forall k | k in s.duties.pointerBy ensures k != prev { PointerIsOwed(s, k); }
    forall k | k in t.duties.pointerBy ensures PointerOwed(t, k) {
      if k != prev {
        PointerIsOwed(s, k);
      }
    }
  }

  lemma PointerIsOwed(s: State, n: nat)
    requires DutiesKept(s) && n in s.duties.pointerBy
    ensures PointerOwed(s, n)
  {
  }

  lemma ReplaceRest(s: State, t: State, d: nat, prev: nat, q: nat)
    requires DutiesKept(s) && NotYetInto(s) && Replaces(s, t, d, prev, q) && prev !in s.duties.pointerBy
    ensures forall k :: k in t.duties.ackBy ==> AckOwed(t, k)
    ensures forall c :: c in t.dispatchers ==> CallOk(t, c)
    ensures OneEach(t.ledger)
  {
    forall k | k in t.duties.ackBy ensures AckOwed(t, k) { assert AckOwed(s, k); }
    forall c | c in t.dispatchers ensures CallOk(t, c) { assert CallOk(s, c); }
  }

  lemma DutiesReplace(s: State, t: State, d: nat, prev: nat, q: nat)
    requires DutiesKept(s) && NotYetInto(s) && Replaces(s, t, d, prev, q)
    ensures DutiesKept(t)
  {
    ReplacePointers(s, t, d, prev, q);
    ReplaceRest(s, t, d, prev, q);
  }

  /** Coalescing into an empty slot: an ack is owed. */
  ghost predicate Fills(s: State, t: State, d: nat, q: nat) {
    && CallAt(s, d, Accepted) && |s.ledger.fate| == |s.ledger.log|
    && t.dispatchers == s.dispatchers[d := Dispatcher(s.dispatchers[d].m, AckDue(|s.ledger.log|))]
    && t.nextCall == s.nextCall
    && t.ledger.fate == s.ledger.fate + [Waiting(q)]
    && t.duties == s.duties.(ackBy := s.duties.ackBy[|s.ledger.log| := d])
  }

  lemma FillAcks(s: State, t: State, d: nat, q: nat)
    requires DutiesKept(s) && NotYetInto(s) && Fills(s, t, d, q)
    ensures |s.ledger.log| !in s.duties.ackBy
    ensures forall k :: k in t.duties.ackBy ==> AckOwed(t, k)
  {
    forall k | k in s.duties.ackBy ensures k < |s.ledger.log| { assert AckOwed(s, k); }
    forall k | k in t.duties.ackBy ensures AckOwed(t, k) {
      if k != |s.ledger.log| {
        assert AckOwed(s, k);
      }
    }
  }

  lemma FillRest(s: State, t: State, d: nat, q: nat)
    requires DutiesKept(s) && Fills(s, t, d, q) && |s.ledger.log| !in s.duties.ackBy
    ensures forall k :: k in t.duties.pointerBy ==> PointerOwed(t, k)
    ensures forall c :: c in t.dispatchers ==> CallOk(t, c)
    ensures OneEach(t.ledger)
  {
    forall k | k in t.duties.pointerBy ensures PointerOwed(t, k) { assert PointerOwed(s, k); }
    forall c | c in t.dispatchers ensures CallOk(t, c) { assert CallOk(s, c); }
  }

  lemma DutiesFill(s: State, t: State, d: nat, q: nat)
    requires DutiesKept(s) && NotYetInto(s) && Fills(s, t, d, q)
    ensures DutiesKept(t)
  {
    FillAcks(s, t, d, q);
    FillRest(s, t, d, q);
  }

  /** Refused or started: nothing is owed. */
  lemma DutiesLeave(s: State, t: State, d: nat, f: Fate)
    requires DutiesKept(s) && CallAt(s, d, Accepted) && !f.Superseded?
    requires t.dispatchers == Leave(s.dispatchers, d) && t.nextCall == s.nextCall
    requires t.ledger.fate == s.ledger.fate + [f] && t.duties == s.duties
    ensures DutiesKept(t)
  {
    forall c | c in s.dispatchers ensures c < s.nextCall { assert CallOk(s, c); }
    DutiesFrame(s, t);
  }

  lemma DutiesEnqueueStep(s: State, d: nat)
    requires DutiesKept(s) && Agreement(s.pool) && Fates(s.pool, s.ledger) && Enabled(s, Enqueue(d))
    ensures DutiesKept(DoEnqueue(s, d))
  {
    var key := Key(s.dispatchers[d].m);
    var t := DoEnqueue(s, d);
    EnqueueForms(s.pool, key, |s.ledger.log|);
    if s.pool.core.stopped {
      DutiesLeave(s, t, d, Refused);
    } else if key !in s.pool.core.queues {
      DutiesLeave(s, t, d, Running(s.pool.next + 1));
    } else {
      var q := s.pool.core.queues[key];
      assert SlotOk(s.pool, s.ledger, q);
      FatesNotYetInto(s);
      match s.pool.core.heap[q].coalesce
      case Some(prev) => DutiesReplace(s, t, d, prev, q);
      case None => DutiesFill(s, t, d, q);
    }
  }

  lemma DutiesFinishStep(s: State, w: nat)
    requires DutiesKept(s) && Agreement(s.pool) && Fates(s.pool, s.ledger) && Enabled(s, Finish(w))
    ensures DutiesKept(Apply(s, Finish(w)))
  {
    assert SlotOk(s.pool, s.ledger, s.pool.workers[w].q) && WorkerOk(s.pool, w);
    forall c | c in s.dispatchers ensures c < s.nextCall { assert CallOk(s, c); }
    DutiesFrame(s, DoFinish(s, w));
  }

  lemma DutiesDispatch(s: State, step: Step, d: nat)
    requires DutiesKept(s) && d in s.dispatchers
    requires !s.dispatchers[d].phase.PointerDue? && !s.dispatchers[d].phase.AckDue?
    ensures DutiesKept(DoDispatch(s, step, d))
  {
    forall c | c in s.dispatchers ensures c < s.nextCall { assert CallOk(s, c); }
    DutiesFrame(s, DoDispatch(s, step, d));
  }

  lemma DutiesArrive(s: State, m: Message)
    requires DutiesKept(s)
    ensures DutiesKept(Apply(s, Arrive(m)))
  {
    forall c | c in s.dispatchers ensures c < s.nextCall { assert CallOk(s, c); }
    DutiesFrame(s, Apply(s, Arrive(m)));
  }

  lemma DutiesWorker(s: State, step: Step)
    requires DutiesKept(s) && Agreement(s.pool) && Fates(s.pool, s.ledger) && Enabled(s, step)
    requires step.StartHandler? || step.HandlerReturns? || step.Done? || step.StopAccepting?
    ensures DutiesKept(Apply(s, step))
  {
    if step.HandlerReturns? {
      assert HolderOk(s.pool, s.ledger, step.w);
    }
    forall c | c in s.dispatchers ensures c < s.nextCall { assert CallOk(s, c); }
    DutiesFrame(s, Apply(s, step));
  }

  lemma DutiesStep(s: State, step: Step)
    requires DutiesKept(s) && Agreement(s.pool) && Fates(s.pool, s.ledger) && Enabled(s, step)
    ensures DutiesKept(Apply(s, step))
  {
    match step
    case Arrive(m) => DutiesArrive(s, m);
    case Enqueue(d) => DutiesEnqueueStep(s, d);
    case WritePointer(d) => DutiesPointer(s, d);
    case PostAck(d) => DutiesAck(s, d);
    case Finish(w) => DutiesFinishStep(s, w);
    case CheckStopped(d) => DutiesDispatch(s, step, d);
    case DedupError(d, _) => DutiesDispatch(s, step, d);
    case Dedup(d) => DutiesDispatch(s, step, d);
    case AppendError(d) => DutiesDispatch(s, step, d);
    case AppendDone(d) => DutiesDispatch(s, step, d);
    case Restart =>
    case _ => DutiesWorker(s, step);
  }
}
