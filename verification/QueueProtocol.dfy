/**
 The per-thread queue as a protocol: any number of onMessage calls and workers
 interleave, one step per lock region or other atomic action, over any number
 of restarts of the process.
 */
module QueueProtocol {
  import opened QueueCore
  import opened QueuePool
  import opened QueueLedger

  /** Where an onMessage call is (bot.go:172-218, queue.go:39-82). */
  datatype DispatchPhase =
    | Entered                          // before the unlocked check of stopped
    | Checked                          // before SeenMessage
    | FirstSeen                        // before the transcript append
    | Accepted                         // before enqueue's lock region
    | PointerDue(prev: nat, into: nat) // before the back-pointer record
    | AckDue(first: nat)               // before the ack

  datatype Dispatcher = Dispatcher(m: Message, phase: DispatchPhase)

  /**
   The records and acks that enqueue owes after it unlocks, as history:
   pointers and acks in the order they were issued, and for each superseded
   message, and each message that filled an empty slot, the call that owes it.
   */
  datatype Duties = Duties(
    pointers: seq<(nat, nat)>, pointerBy: map<nat, nat>,
    acks: seq<nat>, ackBy: map<nat, nat>)

  type Pair = (string, string)

  /** seen is the dedup table; handed lists the messages given to the handler by this and all earlier processes. */
  datatype State = State(
    pool: Pool,
    dispatchers: map<nat, Dispatcher>,
    nextCall: nat,
    seen: set<Pair>,
    ledger: Ledger,
    duties: Duties,
    handed: seq<Pair>)

  /** A process that has just started: only the dedup table survives, and the global history. */
  function Boot(seen: set<Pair>, handed: seq<Pair>): State {
    State(EmptyPool(), map[], 0, seen, Ledger([], [], []), Duties([], map[], [], map[]), handed)
  }

  function PairOf(m: Message): Pair {
    (m.platform, m.messageId)
  }

  datatype Step =
    | Arrive(m: Message)
    | CheckStopped(d: nat)
    | DedupError(d: nat, wrote: bool)
    | Dedup(d: nat)
    | AppendError(d: nat)
    | AppendDone(d: nat)
    | Enqueue(d: nat)
    | WritePointer(d: nat)
    | PostAck(d: nat)
    | StartHandler(w: nat)
    | HandlerReturns(w: nat)
    | Finish(w: nat)
    | Done(w: nat)
    | StopAccepting
    | Restart

  predicate CallAt(s: State, d: nat, phase: DispatchPhase) {
    d in s.dispatchers && s.dispatchers[d].phase == phase
  }

  /** The conditions on positions and pointers hold in every reachable state: see QueueTheorems.NothingDangles. */
  ghost predicate Enabled(s: State, step: Step) {
    match step
    case Arrive(_) => true
    case CheckStopped(d) => CallAt(s, d, Entered)
    case DedupError(d, _) => CallAt(s, d, Checked)
    case Dedup(d) => CallAt(s, d, Checked)
    case AppendError(d) => CallAt(s, d, FirstSeen)
    case AppendDone(d) => CallAt(s, d, FirstSeen)
    case Enqueue(d) => CallAt(s, d, Accepted) && PointersValid(s.pool.core)
    case WritePointer(d) => d in s.dispatchers && s.dispatchers[d].phase.PointerDue?
    case PostAck(d) => d in s.dispatchers && s.dispatchers[d].phase.AckDue?
    case StartHandler(w) => w in s.pool.workers && s.pool.workers[w].phase.Ready? && s.pool.workers[w].phase.n < |s.ledger.log|
    case HandlerReturns(w) => w in s.pool.workers && s.pool.workers[w].phase.Handling?
    case Finish(w) => w in s.pool.workers && s.pool.workers[w].phase == Returned && s.pool.workers[w].q in s.pool.core.heap
    case Done(w) => w in s.pool.workers && s.pool.workers[w].phase == Retired
    case StopAccepting => true
    case Restart => true
  }

  function Leave(calls: map<nat, Dispatcher>, d: nat): map<nat, Dispatcher> {
    calls - {d}
  }

  function Advance(calls: map<nat, Dispatcher>, d: nat, phase: DispatchPhase): map<nat, Dispatcher>
    requires d in calls
  {
    calls[d := Dispatcher(calls[d].m, phase)]
  }

  /** Where the call goes once enqueue has unlocked. */
  function AfterEnqueue(calls: map<nat, Dispatcher>, d: nat, n: nat, verdict: Verdict<nat, nat>): map<nat, Dispatcher>
    requires d in calls
  {
    match verdict
    case Coalesced(_, Some(prev)) => Advance(calls, d, PointerDue(prev, n))
    case Coalesced(_, None) => Advance(calls, d, AckDue(n))
    case _ => Leave(calls, d)
  }

  function DutiesEnqueue(u: Duties, d: nat, n: nat, verdict: Verdict<nat, nat>): Duties {
    match verdict
    case Coalesced(_, Some(prev)) => u.(pointerBy := u.pointerBy[prev := d])
    case Coalesced(_, None) => u.(ackBy := u.ackBy[n := d])
    case _ => u
  }

  ghost function DoEnqueue(s: State, d: nat): State
    requires d in s.dispatchers && PointersValid(s.pool.core)
  {
    var m := s.dispatchers[d].m;
    var n := |s.ledger.log|;
    var (pool, verdict) := PoolEnqueue(s.pool, Key(m), n);
    s.(pool := pool,
       dispatchers := AfterEnqueue(s.dispatchers, d, n, verdict),
       ledger := LedgerEnqueue(s.ledger, m, verdict, s.pool.next + 1),
       duties := DutiesEnqueue(s.duties, d, n, verdict))
  }

  ghost function DoFinish(s: State, w: nat): State
    requires w in s.pool.workers && s.pool.workers[w].q in s.pool.core.heap
  {
    var q := s.pool.workers[w].q;
    var (pool, next) := PoolFinish(s.pool, w);
    s.(pool := pool, ledger := LedgerFinish(s.ledger, w, q, s.pool.core.heap[q].coalesce, next))
  }

  ghost function DoStart(s: State, w: nat): State
    requires w in s.pool.workers && s.pool.workers[w].phase.Ready? && s.pool.workers[w].phase.n < |s.ledger.log|
  {
    var n := s.pool.workers[w].phase.n;
    s.(pool := PoolMove(s.pool, w, Handling(n)),
       ledger := LedgerStart(s.ledger, n),
       handed := s.handed + [PairOf(s.ledger.log[n])])
  }

  /** The part of onMessage before enqueue. */
  function DoDispatch(s: State, step: Step, d: nat): State
    requires d in s.dispatchers
  {
    var calls := s.dispatchers;
    var p := PairOf(calls[d].m);
    match step
    case CheckStopped(_) =>
      s.(dispatchers := if s.pool.core.stopped then Leave(calls, d) else Advance(calls, d, Checked))
    case DedupError(_, wrote) =>
      s.(dispatchers := Leave(calls, d), seen := if wrote then s.seen + {p} else s.seen)
    case Dedup(_) =>
      if p in s.seen then s.(dispatchers := Leave(calls, d))
      else s.(dispatchers := Advance(calls, d, FirstSeen), seen := s.seen + {p})
    case AppendError(_) =>
      s.(dispatchers := Leave(calls, d))
    case AppendDone(_) =>
      s.(dispatchers := if calls[d].m.mention then Advance(calls, d, Accepted) else Leave(calls, d))
    case _ => s
  }

  ghost function Apply(s: State, step: Step): State
    requires Enabled(s, step)
  {
    match step
    case Arrive(m) =>
      s.(dispatchers := s.dispatchers[s.nextCall := Dispatcher(m, Entered)], nextCall := s.nextCall + 1)
    case Enqueue(d) => DoEnqueue(s, d)
    case WritePointer(d) =>
      var phase := s.dispatchers[d].phase;
      s.(dispatchers := Leave(s.dispatchers, d),
         duties := s.duties.(pointers := s.duties.pointers + [(phase.prev, phase.into)]))
    case PostAck(d) =>
      s.(dispatchers := Leave(s.dispatchers, d),
         duties := s.duties.(acks := s.duties.acks + [s.dispatchers[d].phase.first]))
    case StartHandler(w) => DoStart(s, w)
    case HandlerReturns(w) =>
      s.(pool := PoolMove(s.pool, w, Returned), ledger := LedgerReturn(s.ledger, s.pool.workers[w].phase.n))
    case Finish(w) => DoFinish(s, w)
    case Done(w) => s.(pool := PoolDone(s.pool, w))
    case StopAccepting => s.(pool := PoolStop(s.pool))
    case Restart => Boot(s.seen, s.handed)
    case CheckStopped(d) => DoDispatch(s, step, d)
    case DedupError(d, _) => DoDispatch(s, step, d)
    case Dedup(d) => DoDispatch(s, step, d)
    case AppendError(d) => DoDispatch(s, step, d)
    case AppendDone(d) => DoDispatch(s, step, d)
  }

  /** t is reached from s by taking steps in order. */
  ghost predicate IsRun(s: State, steps: seq<Step>, t: State)
    decreases |steps|
  {
    if steps == [] then s == t
    else Enabled(s, steps[0]) && IsRun(Apply(s, steps[0]), steps[1..], t)
  }
}
