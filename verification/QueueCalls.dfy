/**
 What becomes of an onMessage call, told by the steps that were taken: which
 calls get as far as enqueue, and what enqueue leaves each of them to do.
 */
module QueueCalls {
  import opened Options
  import opened QueueCore
  import opened QueuePool
  import opened QueueLedger
  import opened QueueProtocol
  import opened QueueTheorems
  import opened QueueDrain

  // ------------------------------------------------------ who reaches enqueue

  /** The messages of the calls that arrive, in order: call d is the d-th of its process. */
  function Arrivals(steps: seq<Step>): seq<Message> {
    if steps == [] then []
    else (if steps[0].Arrive? then [steps[0].m] else []) + Arrivals(steps[1..])
  }

  /** Call d looked at the flag before StopAccepting was called. */
  ghost predicate LetIn(steps: seq<Step>, d: nat) {
    exists i :: 0 <= i < |steps| && steps[i] == CheckStopped(d) && StopAccepting !in steps[..i]
  }

  /** Step i puts pair p in the dedup table: a lookup that ran, or one that failed after writing. */
  predicate Records(ms: seq<Message>, step: Step, p: Pair) {
    && (step.Dedup? || (step.DedupError? && step.wrote))
    && step.d < |ms| && PairOf(ms[step.d]) == p
  }

  ghost predicate Recorded(ms: seq<Message>, steps: seq<Step>, p: Pair) {
    exists i :: 0 <= i < |steps| && Records(ms, steps[i], p)
  }

  /** Call d's lookup ran, and nothing had put its pair in the table before: not at the start, nor since. */
  ghost predicate FoundNew(seen: set<Pair>, ms: seq<Message>, steps: seq<Step>, d: nat)
    requires d < |ms|
  {
    PairOf(ms[d]) !in seen && exists j :: 0 <= j < |steps| && steps[j] == Dedup(d) && !Recorded(ms, steps[..j], PairOf(ms[d]))
  }

  /** Everything that a call needs to reach enqueue. */
  ghost predicate Welcome(seen: set<Pair>, ms: seq<Message>, steps: seq<Step>, d: nat)
    requires d < |ms|
  {
    LetIn(steps, d) && FoundNew(seen, ms, steps, d) && AppendDone(d) in steps && ms[d].mention
  }

  lemma LetInNext(steps: seq<Step>, x: Step, d: nat)
    ensures LetIn(steps + [x], d) <==> LetIn(steps, d) || (x == CheckStopped(d) && StopAccepting !in steps)
  {
    var all := steps + [x];
    assert all[..|steps|] == steps && all[|steps|] == x;
    if i :| 0 <= i < |all| && all[i] == CheckStopped(d) && StopAccepting !in all[..i] {
      if i < |steps| { assert all[..i] == steps[..i] && steps[i] == all[i]; }
    }
    if i :| 0 <= i < |steps| && steps[i] == CheckStopped(d) && StopAccepting !in steps[..i] {
      assert all[..i] == steps[..i] && all[i] == steps[i];
    }
  }

  lemma RecordedNext(ms: seq<Message>, steps: seq<Step>, x: Step, p: Pair)
    ensures Recorded(ms, steps + [x], p) <==> Recorded(ms, steps, p) || Records(ms, x, p)
  {
    var all := steps + [x];
    assert all[|steps|] == x;
    if i :| 0 <= i < |steps| && Records(ms, steps[i], p) {
      assert all[i] == steps[i];
    }
  }

  lemma FoundNewNext(seen: set<Pair>, ms: seq<Message>, steps: seq<Step>, x: Step, d: nat)
    requires d < |ms|
    ensures FoundNew(seen, ms, steps + [x], d) <==>
              FoundNew(seen, ms, steps, d) || (x == Dedup(d) && PairOf(ms[d]) !in seen && !Recorded(ms, steps, PairOf(ms[d])))
  {
    var all, p := steps + [x], PairOf(ms[d]);
    assert all[..|steps|] == steps && all[|steps|] == x;
    if j :| 0 <= j < |all| && all[j] == Dedup(d) && !Recorded(ms, all[..j], p) {
      if j < |steps| { assert all[..j] == steps[..j] && steps[j] == all[j]; }
    }
    if j :| 0 <= j < |steps| && steps[j] == Dedup(d) && !Recorded(ms, steps[..j], p) {
      assert all[..j] == steps[..j] && all[j] == steps[j];
    }
  }

  /** Where call d is fits what its steps so far have shown. */
  ghost predicate CallStory(s: State, seen: set<Pair>, ms: seq<Message>, past: seq<Step>, d: nat)
    requires d < |ms|
  {
    if d >= s.nextCall then d !in s.dispatchers && Untouched(past, d)
    else if d !in s.dispatchers then Enqueue(d) in past <==> Welcome(seen, ms, past, d)
    else
      s.dispatchers[d].m == ms[d]
      && match s.dispatchers[d].phase
         case Entered => Untouched(past, d)
         case Checked => LetIn(past, d) && Dedup(d) !in past && AppendDone(d) !in past && Enqueue(d) !in past
         case FirstSeen => LetIn(past, d) && FoundNew(seen, ms, past, d) && AppendDone(d) !in past && Enqueue(d) !in past
         case Accepted => Welcome(seen, ms, past, d) && Enqueue(d) !in past
         case _ => Welcome(seen, ms, past, d) && Enqueue(d) in past
  }

  ghost predicate Untouched(past: seq<Step>, d: nat) {
    CheckStopped(d) !in past && Dedup(d) !in past && AppendDone(d) !in past && Enqueue(d) !in past
  }

  ghost predicate TableStory(s: State, seen: set<Pair>, ms: seq<Message>, past: seq<Step>) {
    forall p :: p in s.seen <==> p in seen || Recorded(ms, past, p)
  }

  ghost predicate Story(s: State, seen: set<Pair>, ms: seq<Message>, past: seq<Step>) {
    && s.nextCall <= |ms|
    && (s.pool.core.stopped <==> StopAccepting in past)
    && TableStory(s, seen, ms, past)
    && (forall d :: d in s.dispatchers ==> d < |ms|)
    && (forall d: nat :: d < |ms| ==> CallStory(s, seen, ms, past, d))
    && (forall d: nat :: d >= |ms| ==> Enqueue(d) !in past)
  }

  /** The step is one of call d's own. */
  predicate OfCall(step: Step, d: nat) {
    match step
    case CheckStopped(e) => e == d
    case DedupError(e, _) => e == d
    case Dedup(e) => e == d
    case AppendError(e) => e == d
    case AppendDone(e) => e == d
    case Enqueue(e) => e == d
    case WritePointer(e) => e == d
    case PostAck(e) => e == d
    case _ => false
  }

  lemma MembersNext(past: seq<Step>, x: Step, y: Step)
    ensures y in past + [x] <==> y in past || x == y
  {
  }

  /** What the four steps of interest have said of call d after one more step. */
  lemma CallNext(seen: set<Pair>, ms: seq<Message>, past: seq<Step>, x: Step, d: nat)
    requires d < |ms|
    ensures LetIn(past + [x], d) <==> LetIn(past, d) || (x == CheckStopped(d) && StopAccepting !in past)
    ensures FoundNew(seen, ms, past + [x], d) <==>
              FoundNew(seen, ms, past, d) || (x == Dedup(d) && PairOf(ms[d]) !in seen && !Recorded(ms, past, PairOf(ms[d])))
    ensures CheckStopped(d) in past + [x] <==> CheckStopped(d) in past || x == CheckStopped(d)
    ensures Dedup(d) in past + [x] <==> Dedup(d) in past || x == Dedup(d)
    ensures AppendDone(d) in past + [x] <==> AppendDone(d) in past || x == AppendDone(d)
    ensures Enqueue(d) in past + [x] <==> Enqueue(d) in past || x == Enqueue(d)
  {
    LetInNext(past, x, d);
    FoundNewNext(seen, ms, past, x, d);
  }

  lemma NotLetInUnlessLooked(past: seq<Step>, d: nat)
    ensures CheckStopped(d) !in past ==> !LetIn(past, d)
  {
  }

  lemma NotNewUnlessLooked(seen: set<Pair>, ms: seq<Message>, past: seq<Step>, d: nat)
    requires d < |ms|
    ensures Dedup(d) !in past ==> !FoundNew(seen, ms, past, d)
  {
  }

  /** A step that is not call d's leaves it where it was, or brings it in. */
  lemma OthersKeepStory(s: State, seen: set<Pair>, ms: seq<Message>, past: seq<Step>, step: Step, d: nat)
    requires d < |ms| && CallStory(s, seen, ms, past, d) && Enabled(s, step) && step != Restart && !OfCall(step, d)
    requires step.Arrive? ==> s.nextCall < |ms| && ms[s.nextCall] == step.m
    ensures CallStory(Apply(s, step), seen, ms, past + [step], d)
  {
    CallNext(seen, ms, past, step, d);
    if !step.Arrive? {
      OthersLeaveCall(s, step, d);
    }
  }

  lemma OthersLeaveCall(s: State, step: Step, d: nat)
    requires Enabled(s, step) && step != Restart && !OfCall(step, d) && !step.Arrive?
    ensures var t := Apply(s, step);
            && t.nextCall == s.nextCall && (d in t.dispatchers <==> d in s.dispatchers)
            && (d in s.dispatchers ==> t.dispatchers[d] == s.dispatchers[d])
  {
  }

  /** Call d's own steps before enqueue. */
  lemma OwnDispatchKeepsStory(s: State, seen: set<Pair>, ms: seq<Message>, past: seq<Step>, step: Step, d: nat)
    requires d < |ms| && Story(s, seen, ms, past) && Enabled(s, step) && OfCall(step, d)
    requires step.CheckStopped? || step.DedupError? || step.Dedup? || step.AppendError? || step.AppendDone?
    ensures CallStory(Apply(s, step), seen, ms, past + [step], d)
  {
    assert CallStory(s, seen, ms, past, d);
    CallNext(seen, ms, past, step, d);
    NotLetInUnlessLooked(past, d);
    NotNewUnlessLooked(seen, ms, past, d);
    assert PairOf(ms[d]) in s.seen <==> PairOf(ms[d]) in seen || Recorded(ms, past, PairOf(ms[d]));
  }

  /** Call d's enqueue, and what it does after it. */
  lemma OwnEnqueueKeepsStory(s: State, seen: set<Pair>, ms: seq<Message>, past: seq<Step>, step: Step, d: nat)
    requires d < |ms| && CallStory(s, seen, ms, past, d) && Enabled(s, step) && OfCall(step, d)
    requires step.Enqueue? || step.WritePointer? || step.PostAck?
    ensures CallStory(Apply(s, step), seen, ms, past + [step], d)
  {
    CallNext(seen, ms, past, step, d);
  }

  lemma TableKeepsStory(s: State, seen: set<Pair>, ms: seq<Message>, past: seq<Step>, step: Step)
    requires Story(s, seen, ms, past) && Enabled(s, step) && step != Restart
    ensures TableStory(Apply(s, step), seen, ms, past + [step])
  {
    var t := Apply(s, step);
    assert step.Dedup? || step.DedupError? ==> CallStory(s, seen, ms, past, step.d);
    forall p ensures p in t.seen <==> p in seen || Recorded(ms, past + [step], p) {
      RecordedNext(ms, past, step, p);
    }
  }

  lemma StoryStep(s: State, seen: set<Pair>, ms: seq<Message>, past: seq<Step>, step: Step)
    requires Story(s, seen, ms, past) && Enabled(s, step) && step != Restart
    requires step.Arrive? ==> s.nextCall < |ms| && ms[s.nextCall] == step.m
    ensures Story(Apply(s, step), seen, ms, past + [step])
  {
    var t := Apply(s, step);
    TableKeepsStory(s, seen, ms, past, step);
    FlagStep(s, step);
    forall d: nat | d < |ms| ensures CallStory(t, seen, ms, past + [step], d) {
      assert CallStory(s, seen, ms, past, d);
      if !OfCall(step, d) {
        OthersKeepStory(s, seen, ms, past, step, d);
      } else if step.Enqueue? || step.WritePointer? || step.PostAck? {
        OwnEnqueueKeepsStory(s, seen, ms, past, step, d);
      } else {
        OwnDispatchKeepsStory(s, seen, ms, past, step, d);
      }
    }
  }

  lemma ArrivalsStep(s: State, ms: seq<Message>, steps: seq<Step>)
    requires steps != [] && Enabled(s, steps[0]) && Restart !in steps
    requires s.nextCall <= |ms| && ms[s.nextCall..] == Arrivals(steps)
    ensures steps[0] != Restart && Restart !in steps[1..]
    ensures steps[0].Arrive? ==> s.nextCall < |ms| && ms[s.nextCall] == steps[0].m
    ensures var u := Apply(s, steps[0]); u.nextCall <= |ms| && ms[u.nextCall..] == Arrivals(steps[1..])
  {
    assert steps[0] in steps;
    var x, u := steps[0], Apply(s, steps[0]);
    assert Arrivals(steps) == (if x.Arrive? then [x.m] else []) + Arrivals(steps[1..]);
    if x.Arrive? {
      assert ms[s.nextCall..][0] == x.m;
      assert ms[s.nextCall..][1..] == ms[u.nextCall..];
    }
  }

  lemma {:induction false} StoryRun(s: State, seen: set<Pair>, ms: seq<Message>, past: seq<Step>, steps: seq<Step>, t: State)
    requires Story(s, seen, ms, past) && IsProcessRun(s, steps, t) && ms[s.nextCall..] == Arrivals(steps)
    ensures Story(t, seen, ms, past + steps) && t.nextCall == |ms|
    decreases |steps|
  {
    if steps == [] {
      assert past + steps == past;
    } else {
      var x, u := steps[0], Apply(s, steps[0]);
      ArrivalsStep(s, ms, steps);
      StoryStep(s, seen, ms, past, x);
      StoryRun(u, seen, ms, past + [x], steps[1..], t);
      assert past + steps == past + [x] + steps[1..];
    }
  }

  /**
   Which calls get as far as enqueue, over every run of a process that starts with
   the table `seen`: exactly those that looked at the flag before StopAccepting was
   called, whose lookup ran and found a pair that nothing had put in the table, whose
   message the transcript took, and whose message mentions the bot.
   */
  lemma WhoReachesEnqueue(seen: set<Pair>, handed: seq<Pair>, steps: seq<Step>, t: State, d: nat)
    requires IsProcessRun(Boot(seen, handed), steps, t)
    ensures CallAt(t, d, Accepted) || Enqueue(d) in steps <==>
              d < |Arrivals(steps)| && Welcome(seen, Arrivals(steps), steps, d)
    ensures d in t.dispatchers ==> d < |Arrivals(steps)| && t.dispatchers[d].m == Arrivals(steps)[d]
  {
    var s, ms := Boot(seen, handed), Arrivals(steps);
    StoryBegins(seen, handed, ms);
    assert ms[s.nextCall..] == ms;
    StoryRun(s, seen, ms, [], steps, t);
    assert [] + steps == steps;
    if d < |ms| {
      assert CallStory(t, seen, ms, steps, d);
    }
  }

  lemma StoryBegins(seen: set<Pair>, handed: seq<Pair>, ms: seq<Message>)
    ensures Story(Boot(seen, handed), seen, ms, [])
  {
  }

  // ------------------------------------------------------ what enqueue leaves to do

  /** An enqueue after StopAccepting is refused: the call returns, and only the ledger remembers it. */
  ghost predicate TurnedAway(s: State, t: State, d: nat) {
    && d !in t.dispatchers && t.pool == s.pool && t.duties == s.duties
    && t.ledger.fate == s.ledger.fate + [Refused]
  }

  /** The call returns, and a new worker w has its message. */
  ghost predicate StartsWorker(s: State, t: State, d: nat, w: nat)
    requires d in s.dispatchers
  {
    && d !in t.dispatchers && t.duties == s.duties
    && w !in s.pool.workers && w in t.pool.workers && t.pool.workers == s.pool.workers[w := t.pool.workers[w]]
    && WorksOn(t.pool, w, Key(s.dispatchers[d].m))
    && t.pool.workers[w].phase == Ready(|s.ledger.log|)
  }

  /** The slot that worker w will look into. */
  function SlotOf(p: Pool, w: nat): Option<nat>
    requires w in p.workers && p.workers[w].q in p.core.heap
  {
    p.core.heap[p.workers[w].q].coalesce
  }

  /** The message is in w's slot; the call owes an ack if the slot was empty, and otherwise a back-pointer from what was in it. */
  ghost predicate FillsSlot(s: State, t: State, d: nat, w: nat)
    requires d in s.dispatchers && w in s.pool.workers && s.pool.workers[w].q in s.pool.core.heap
  {
    var n := |s.ledger.log|;
    && t.pool.workers == s.pool.workers && t.pool.workers[w].q in t.pool.core.heap && SlotOf(t.pool, w) == Some(n)
    && match SlotOf(s.pool, w)
       case None =>
         && CallAt(t, d, AckDue(n))
         && t.duties == s.duties.(ackBy := s.duties.ackBy[n := d])
       case Some(prev) =>
         && CallAt(t, d, PointerDue(prev, n))
         && t.duties == s.duties.(pointerBy := s.duties.pointerBy[prev := d])
         && prev < |t.ledger.fate| && t.ledger.fate[prev] == Superseded(n)
  }

  /**
   What a call's enqueue leads to, in every reachable state: after StopAccepting
   nothing; before it, a new worker exactly when none works on the key, and
   otherwise the slot of the one that does, with an ack owed for an empty slot and
   a back-pointer for a full one.
   */
  lemma EnqueueOutcome(s: State, seen: set<Pair>, past: seq<Step>, d: nat)
    requires Reached(s, seen, past) && CallAt(s, d, Accepted)
    ensures Enabled(s, Enqueue(d))
    ensures forall w :: w in s.pool.workers ==> s.pool.workers[w].q in s.pool.core.heap
    ensures var t, key := Apply(s, Enqueue(d)), Key(s.dispatchers[d].m);
            && t.ledger.log == s.ledger.log + [s.dispatchers[d].m]
            && (ToldToStop(past) ==> TurnedAway(s, t, d))
            && (!ToldToStop(past) && !(exists w :: WorksOn(s.pool, w, key)) ==> exists w :: StartsWorker(s, t, d, w))
            && (!ToldToStop(past) ==> forall w :: WorksOn(s.pool, w, key) ==> FillsSlot(s, t, d, w))
  {
    InvReached(s, seen, past);
    NothingDangles(s, seen, past);
    StoppedWhenTold(s, seen, past);
    DrainSafety(s, seen, past);
    var t, key := Apply(s, Enqueue(d)), Key(s.dispatchers[d].m);
    EnqueueForms(s.pool, key, |s.ledger.log|);
    if !s.pool.core.stopped {
      if key in s.pool.core.queues {
        forall w | WorksOn(s.pool, w, key) ensures FillsSlot(s, t, d, w) {
          OnMappedQueue(s, w, key);
          EnqueueFills(s, d, w);
        }
      } else {
        NewWorker(s, d);
      }
    }
  }

  /** A worker on a key serves the queue that the map has for it. */
  lemma OnMappedQueue(s: State, w: nat, key: string)
    requires Agreement(s.pool) && WorksOn(s.pool, w, key)
    ensures key in s.pool.core.queues && s.pool.core.queues[key] == s.pool.workers[w].q && MapEntryOk(s.pool.core, key)
  {
    assert WorkerOk(s.pool, w);
    assert QueueOk(s.pool, s.pool.workers[w].q);
    assert MapEntryOk(s.pool.core, key);
  }

  lemma EnqueueFills(s: State, d: nat, w: nat)
    requires Agreement(s.pool) && Fates(s.pool, s.ledger) && Enabled(s, Enqueue(d)) && !s.pool.core.stopped
    requires WorksOn(s.pool, w, Key(s.dispatchers[d].m))
    requires var key := Key(s.dispatchers[d].m);
             key in s.pool.core.queues && s.pool.core.queues[key] == s.pool.workers[w].q && MapEntryOk(s.pool.core, key)
    ensures FillsSlot(s, DoEnqueue(s, d), d, w)
  {
    EnqueueForms(s.pool, Key(s.dispatchers[d].m), |s.ledger.log|);
    assert SlotOk(s.pool, s.ledger, s.pool.workers[w].q);
  }

  lemma NewWorker(s: State, d: nat)
    requires Agreement(s.pool) && Enabled(s, Enqueue(d)) && !s.pool.core.stopped && Key(s.dispatchers[d].m) !in s.pool.core.queues
    ensures exists w :: StartsWorker(s, DoEnqueue(s, d), d, w)
  {
    EnqueueForms(s.pool, Key(s.dispatchers[d].m), |s.ledger.log|);
    NextIsNew(s.pool);
    PoolStarted(s, DoEnqueue(s, d), d);
  }

  lemma PoolStarted(s: State, t: State, d: nat)
    requires d in s.dispatchers && t.pool == PoolStart(s.pool, Key(s.dispatchers[d].m), |s.ledger.log|)
    requires d !in t.dispatchers && t.duties == s.duties && s.pool.next + 1 !in s.pool.workers
    ensures exists w :: StartsWorker(s, t, d, w)
  {
    StartedPool(s.pool, Key(s.dispatchers[d].m), |s.ledger.log|);
    assert StartsWorker(s, t, d, s.pool.next + 1);
  }

  lemma StartedPool(p: Pool, key: string, n: nat)
    ensures var t, w := PoolStart(p, key, n), p.next + 1;
            && w in t.workers && t.workers == p.workers[w := t.workers[w]]
            && WorksOn(t, w, key) && t.workers[w].phase == Ready(n)
  {
  }

  lemma NextIsNew(p: Pool)
    requires Agreement(p)
    ensures p.next + 1 !in p.workers
  {
    assert p.next + 1 in p.workers ==> WorkerOk(p, p.next + 1);
  }

  /**
   No other step of the process puts a message on record as having filled a slot or
   as superseded, and acks and back-pointers go out exactly when the call that owes
   them gets there.
   */
  lemma DutiesOnlyByEnqueue(s: State, step: Step)
    requires Enabled(s, step) && step != Restart && !step.Enqueue?
    ensures var t := Apply(s, step);
            && t.duties.ackBy == s.duties.ackBy && t.duties.pointerBy == s.duties.pointerBy
            && (!step.PostAck? ==> t.duties.acks == s.duties.acks)
            && (forall d, n :: step == PostAck(d) && CallAt(s, d, AckDue(n)) ==>
                  t.duties.acks == s.duties.acks + [n] && d !in t.dispatchers)
            && (forall d, n, into :: step == WritePointer(d) && CallAt(s, d, PointerDue(n, into)) ==>
                  t.duties.pointers == s.duties.pointers + [(n, into)] && d !in t.dispatchers)
            && (!step.WritePointer? ==> t.duties.pointers == s.duties.pointers)
  {
  }

  // ------------------------------------------------------------ handler calls

  function HandlerCalls(steps: seq<Step>): nat {
    if steps == [] then 0 else (if steps[0].StartHandler? then 1 else 0) + HandlerCalls(steps[1..])
  }

  /** The pairs of the messages with these numbers. */
  function PairsOf(log: seq<Message>, ns: seq<nat>): seq<Pair>
    requires forall i :: 0 <= i < |ns| ==> ns[i] < |log|
  {
    seq(|ns|, i requires 0 <= i < |ns| => PairOf(log[ns[i]]))
  }

  /** The handler's calls so far in this process are what it was given since `before`. */
  ghost predicate GivenOut(s: State, before: seq<Pair>) {
    && (forall i :: 0 <= i < |s.ledger.started| ==> s.ledger.started[i] < |s.ledger.log|)
    && s.handed == before + PairsOf(s.ledger.log, s.ledger.started)
  }

  lemma GivenOutStep(s: State, step: Step, before: seq<Pair>)
    requires GivenOut(s, before) && Enabled(s, step) && step != Restart
    ensures GivenOut(Apply(s, step), before)
    ensures |Apply(s, step).ledger.started| == |s.ledger.started| + if step.StartHandler? then 1 else 0
  {
    var t := Apply(s, step);
    assert s.ledger.log <= t.ledger.log && s.ledger.started <= t.ledger.started;
    assert PairsOf(t.ledger.log, s.ledger.started) == PairsOf(s.ledger.log, s.ledger.started);
    if step.StartHandler? {
      assert PairsOf(t.ledger.log, t.ledger.started) ==
        PairsOf(s.ledger.log, s.ledger.started) + [PairOf(s.ledger.log[s.pool.workers[step.w].phase.n])];
    }
  }

  lemma {:induction false} GivenOutRun(s: State, steps: seq<Step>, t: State, before: seq<Pair>)
    requires GivenOut(s, before) && IsProcessRun(s, steps, t)
    ensures GivenOut(t, before) && |t.ledger.started| == |s.ledger.started| + HandlerCalls(steps)
    decreases |steps|
  {
    if steps != [] {
      assert steps[0] in steps;
      GivenOutStep(s, steps[0], before);
      GivenOutRun(Apply(s, steps[0]), steps[1..], t, before);
    }
  }

  /** Each handler call is on record once, in order, with the pair of the message it was given. */
  lemma HandlerCallsRecorded(seen: set<Pair>, handed: seq<Pair>, steps: seq<Step>, t: State)
    requires IsProcessRun(Boot(seen, handed), steps, t)
    ensures |t.ledger.started| == HandlerCalls(steps)
    ensures forall i :: 0 <= i < |t.ledger.started| ==> t.ledger.started[i] < |t.ledger.log|
    ensures t.handed == handed + PairsOf(t.ledger.log, t.ledger.started)
  {
    GivenOutRun(Boot(seen, handed), steps, t, handed);
  }
}
