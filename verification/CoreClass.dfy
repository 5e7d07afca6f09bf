/**
 The bot's Core and its thread queues as the objects they are: enqueue, the end
 of a work round, StopAccepting and Done update fields in place. Each method is
 tied to the function of QueueCore.dfy that the protocol is built from.
 */
module CoreClass {
  import opened Options
  import QueueCore

  type Message = QueueCore.Message

  class ThreadQueue {
    const key: string
    var running: bool
    var coalesce: Option<Message>

    constructor (key: string)
      ensures this.key == key && !running && coalesce == None
    {
      this.key := key;
      running, coalesce := false, None;
    }
  }

  /** The back-pointer record: where it is appended, and the message it points at. */
  datatype BackPointer = BackPointer(platform: string, threadId: string, into: string)

  class Core {
    var stopped: bool
    var inflight: int
    var queues: map<string, ThreadQueue>
    // What enqueue sets going once it has unlocked.
    var spawned: seq<(ThreadQueue, Message)>
    var pointers: seq<BackPointer>
    var acks: seq<string>
    ghost var all: set<ThreadQueue>

    constructor ()
      ensures Valid() && fresh(all)
      ensures View() == QueueCore.Core(false, 0, map[], map[])
      ensures spawned == [] && pointers == [] && acks == []
    {
      stopped, inflight, queues := false, 0, map[];
      spawned, pointers, acks := [], [], [];
      all := {};
    }

    ghost predicate Valid()
      reads this`queues, this`all
    {
      queues.Values <= all && forall k :: k in queues ==> queues[k].key == k
    }

    ghost function View(): QueueCore.Core<ThreadQueue, Message>
      reads this`stopped, this`inflight, this`queues, this`all, all
    {
      QueueCore.Core(stopped, inflight, queues, map q | q in all :: QueueCore.Queue(q.key, q.running, q.coalesce))
    }

    /** The queue under key, allocated if there is none. */
    method QueueFor(key: string) returns (q: ThreadQueue)
      requires Valid()
      modifies this`queues, this`all
      ensures Valid() && q in all && all == old(all) + {q}
      ensures key in old(queues) ==> q == old(queues)[key] && q in old(all) && View() == old(View())
      ensures key !in old(queues) ==>
                && fresh(q)
                && View() == old(View()).(queues := old(queues)[key := q],
                                          heap := old(View()).heap[q := QueueCore.Queue(key, false, None)])
    {
      if key in queues {
        assert queues[key] in queues.Values;
        q := queues[key];
      } else {
        q := new ThreadQueue(key);
        queues := queues[key := q];
        all := all + {q};
        assert View().heap == old(View()).heap[q := QueueCore.Queue(key, false, None)];
      }
    }

    /** enqueue between Lock and Unlock. */
    method EnqueueLocked(m: Message) returns (verdict: QueueCore.Verdict<ThreadQueue, Message>)
      requires Valid()
      modifies this`queues, this`inflight, this`all, all
      ensures Valid() && old(all) <= all && fresh(all - old(all))
      ensures QueueCore.PointersValid(old(View()))
      ensures verdict.Rejected? <==> old(stopped)
      ensures verdict.Rejected? ==> View() == old(View())
      ensures !verdict.Rejected? ==>
                (View(), verdict) == QueueCore.EnqueueRegion(old(View()), QueueCore.Key(m), m, verdict.q)
      ensures !verdict.Rejected? && QueueCore.Key(m) !in old(queues) ==> fresh(verdict.q)
    {
      var key := m.platform + ":" + m.threadId;
      assert forall k :: k in queues ==> queues[k] in queues.Values;
      if stopped {
        return QueueCore.Rejected;
      }
      var q := QueueFor(key);
      verdict := StartOrCoalesce(q, m);
    }

    /** The rest of enqueue's lock region, once the queue is found. */
    method StartOrCoalesce(q: ThreadQueue, m: Message) returns (verdict: QueueCore.Verdict<ThreadQueue, Message>)
      requires Valid() && q in all
      modifies this`inflight, q
      ensures Valid() && all == old(all)
      ensures !old(q.running) ==>
                && verdict == QueueCore.Started(q)
                && View() == old(View()).(inflight := old(inflight) + 1,
                                          heap := old(View()).heap[q := QueueCore.Queue(q.key, true, old(q.coalesce))])
      ensures old(q.running) ==>
                && verdict == QueueCore.Coalesced(q, old(q.coalesce))
                && View() == old(View()).(heap := old(View()).heap[q := QueueCore.Queue(q.key, true, Some(m))])
    {
      if !q.running {
        q.running := true;
        inflight := inflight + 1;
        assert View().heap == old(View()).heap[q := QueueCore.Queue(q.key, true, q.coalesce)];
        return QueueCore.Started(q);
      }
      verdict := QueueCore.Coalesced(q, q.coalesce);
      q.coalesce := Some(m);
      assert View().heap == old(View()).heap[q := QueueCore.Queue(q.key, true, Some(m))];
    }

    /** enqueue: the lock region, then the worker, the back-pointer record or the ack that it calls for. */
    method Enqueue(m: Message) returns (verdict: QueueCore.Verdict<ThreadQueue, Message>)
      requires Valid()
      modifies this, all
      ensures Valid() && old(all) <= all && fresh(all - old(all))
      ensures QueueCore.PointersValid(old(View()))
      ensures verdict.Rejected? <==> old(stopped)
      ensures verdict.Rejected? ==> View() == old(View())
      ensures !verdict.Rejected? ==>
                (View(), verdict) == QueueCore.EnqueueRegion(old(View()), QueueCore.Key(m), m, verdict.q)
      ensures spawned == old(spawned) + if verdict.Started? then [(verdict.q, m)] else []
      ensures pointers == old(pointers) +
                if verdict.Coalesced? && verdict.superseded.Some?
                then [BackPointer(verdict.superseded.value.platform, verdict.superseded.value.threadId, m.platform + ":" + m.messageId)]
                else []
      ensures acks == old(acks) + if verdict.Coalesced? && verdict.superseded.None? then [m.threadId] else []
    {
      verdict := EnqueueLocked(m);
      match verdict
      case Rejected =>
      case Started(q) => spawned := spawned + [(q, m)];
      case Coalesced(_, Some(prev)) =>
        pointers := pointers + [BackPointer(prev.platform, prev.threadId, m.platform + ":" + m.messageId)];
      case Coalesced(_, None) =>
        acks := acks + [m.threadId];
    }

    /** The end of a round of work: the message to go on with, or retirement. */
    method FinishRound(q: ThreadQueue) returns (next: Option<Message>)
      requires Valid() && q in all
      modifies this`queues, q
      ensures Valid() && all == old(all)
      ensures (View(), next) == QueueCore.FinishRegion(old(View()), q)
    {
      if q.coalesce.Some? && !stopped {
        next := q.coalesce;
        q.coalesce := None;
        assert View().heap == old(View()).heap[q := QueueCore.Queue(q.key, q.running, None)];
      } else {
        q.running := false;
        queues := queues - {q.key};
        next := None;
        assert View().heap == old(View()).heap[q := QueueCore.Queue(q.key, false, q.coalesce)];
      }
    }

    /** The deferred Done of a worker that has retired. */
    method Done()
      modifies this`inflight
      ensures View() == old(View()).(inflight := old(inflight) - 1)
    {
      inflight := inflight - 1;
    }

    method StopAccepting()
      modifies this`stopped
      ensures View() == old(View()).(stopped := true)
    {
      stopped := true;
    }

    /**
     The messages that other calls enqueue while a worker of q is inside its
     handler, as far as q is concerned: the newest of q's own ends in the slot.
     */
    method EnqueueAll(q: ThreadQueue, ms: seq<Message>)
      requires Valid() && Serving(q)
      modifies this, all
      ensures Valid() && old(all) <= all && fresh(all - old(all)) && Serving(q)
      ensures stopped == old(stopped)
      ensures q.coalesce == if stopped then old(q.coalesce) else Latest(q.key, ms, old(q.coalesce))
      ensures inflight - |spawned| == old(inflight) - |old(spawned)|
      ensures Keeps(old(queues), queues)
    {
      for i := 0 to |ms|
        invariant Valid() && old(all) <= all && fresh(all - old(all)) && Serving(q)
        invariant stopped == old(stopped)
        invariant q.coalesce == if stopped then old(q.coalesce) else Latest(q.key, ms[..i], old(q.coalesce))
        invariant inflight - |spawned| == old(inflight) - |old(spawned)|
        invariant Keeps(old(queues), queues)
      {
        assert ms[..i + 1][..i] == ms[..i];
        EnqueueBeside(q, ms[i]);
      }
      assert ms[..|ms|] == ms;
    }

    /** One message enqueued while q is served: it fills q's slot if it is q's, and leaves q alone if not. */
    method EnqueueBeside(q: ThreadQueue, m: Message)
      requires Valid() && Serving(q)
      modifies this, all
      ensures Valid() && old(all) <= all && fresh(all - old(all)) && Serving(q)
      ensures stopped == old(stopped)
      ensures q.coalesce == if !stopped && QueueCore.Key(m) == q.key then Some(m) else old(q.coalesce)
      ensures inflight - |spawned| == old(inflight) - |old(spawned)|
      ensures Keeps(old(queues), queues)
    {
      ghost var before := View();
      assert before.heap[q] == QueueCore.Queue(q.key, q.running, q.coalesce);
      var verdict := Enqueue(m);
      assert View().heap[q] == QueueCore.Queue(q.key, q.running, q.coalesce);
      assert View().queues == queues && View().inflight == inflight && View().stopped == stopped;
      if !verdict.Rejected? && QueueCore.Key(m) != q.key && QueueCore.Key(m) in before.queues {
        assert before.queues[QueueCore.Key(m)].key != q.key;
      }
    }

    /** What other calls do while a handler call for q runs. */
    method Meanwhile(q: ThreadQueue, round: Round)
      requires Valid() && Serving(q)
      modifies this, all
      ensures Valid() && old(all) <= all && fresh(all - old(all)) && Serving(q)
      ensures stopped == (old(stopped) || round.stop)
      ensures q.coalesce == if old(stopped) then old(q.coalesce) else Latest(q.key, round.arrivals, old(q.coalesce))
      ensures inflight - |spawned| == old(inflight) - |old(spawned)|
      ensures Keeps(old(queues), queues)
    {
      EnqueueAll(q, round.arrivals);
      if round.stop {
        StopAccepting();
      }
    }

    /** A worker holds q: it is running and in the map. */
    ghost predicate Serving(q: ThreadQueue)
      reads this`queues, this`all, all
    {
      q in all && q.running && q.key in queues && queues[q.key] == q
    }

    /**
     work: rounds[k] says what other calls do while handler call k runs: what
     they enqueue, and whether shutdown then begins. The messages handled are
     returned in order; whatever their number, inflight goes down by one. Only q
     leaves the map, and shutdown has begun afterwards exactly when it had before
     or began during one of the calls.
     */
    method Work(q: ThreadQueue, m: Message, rounds: seq<Round>) returns (handled: seq<Message>)
      requires Valid() && Serving(q)
      modifies this, all
      ensures Valid() && old(all) <= all && fresh(all - old(all))
      ensures handled == Handled(q.key, m, old(q.coalesce), rounds, old(stopped))
      ensures !q.running && q.key !in queues
      ensures inflight - |spawned| == old(inflight) - |old(spawned)| - 1
      ensures Keeps(old(queues) - {q.key}, queues)
      ensures stopped <==> old(stopped) || StopsWithin(rounds, |handled|)
    {
      var current := m;
      var k := 0;
      handled := [];
      ghost var all' := Handled(q.key, m, q.coalesce, rounds, stopped);
      while true
        invariant k <= |rounds| + 1
        invariant Valid() && old(all) <= all && fresh(all - old(all)) && Serving(q)
        invariant handled + Handled(q.key, current, q.coalesce, Rest(rounds, k), stopped) == all'
        invariant inflight - |spawned| == old(inflight) - |old(spawned)|
        invariant k > 0 ==> q.coalesce == None
        invariant Keeps(old(queues) - {q.key}, queues)
        invariant |handled| == k && (stopped <==> old(stopped) || StopsWithin(rounds, k))
        decreases |rounds| + 1 - k
      {
        ghost var slot, was, before := q.coalesce, stopped, handled;
        var next := RunRound(q, RoundAt(rounds, k));
        handled := handled + [current];
        StopsNext(rounds, k);
        HandledOne(q.key, current, slot, rounds, k, was, before);
        if next.None? {
          Done();
          return;
        }
        current := next.value;
        k := k + 1;
      }
    }

    /** One handler call and what follows it: the next message, or retirement. */
    method RunRound(q: ThreadQueue, round: Round) returns (next: Option<Message>)
      requires Valid() && Serving(q)
      modifies this, all
      ensures Valid() && old(all) <= all && fresh(all - old(all))
      ensures next == NextOf(q.key, old(q.coalesce), round, old(stopped))
      ensures next.Some? ==> Serving(q) && q.coalesce == None && !stopped
      ensures next.None? ==> !q.running && q.key !in queues
      ensures inflight - |spawned| == old(inflight) - |old(spawned)|
      ensures stopped == (old(stopped) || round.stop)
      ensures Keeps(if next.Some? then old(queues) else old(queues) - {q.key}, queues)
    {
      Meanwhile(q, round);
      next := FinishServing(q);
    }

    /** FinishRound, in the terms that Work needs. */
    method FinishServing(q: ThreadQueue) returns (next: Option<Message>)
      requires Valid() && Serving(q)
      modifies this`queues, q
      ensures Valid() && all == old(all)
      ensures next == if stopped then None else old(q.coalesce)
      ensures next.Some? ==> Serving(q) && q.coalesce == None
      ensures next.None? ==> !q.running && q.key !in queues
      ensures queues == if next.Some? then old(queues) else old(queues) - {q.key}
    {
      ghost var before := View();
      assert before.heap[q] == QueueCore.Queue(q.key, q.running, q.coalesce);
      next := FinishRound(q);
      assert View().heap[q] == QueueCore.Queue(q.key, q.running, q.coalesce);
      assert View().queues == queues;
    }
  }

  /** Shutdown begins during one of the first n handler calls. */
  ghost predicate StopsWithin(rounds: seq<Round>, n: nat) {
    exists j :: 0 <= j < n && RoundAt(rounds, j).stop
  }

  lemma StopsNext(rounds: seq<Round>, n: nat)
    ensures StopsWithin(rounds, n + 1) <==> StopsWithin(rounds, n) || RoundAt(rounds, n).stop
  {
    if StopsWithin(rounds, n) {
      var j :| 0 <= j < n && RoundAt(rounds, j).stop;
      assert j < n + 1;
    }
  }

  /** What was in the map is still there, under its key. */
  ghost predicate Keeps(was: map<string, ThreadQueue>, now: map<string, ThreadQueue>) {
    forall k :: k in was ==> k in now && now[k] == was[k]
  }

  datatype Round = Round(arrivals: seq<Message>, stop: bool)

  /** The last of ms with this key, or else prev. */
  function Latest(key: string, ms: seq<Message>, prev: Option<Message>): Option<Message> {
    if ms == [] then prev
    else if QueueCore.Key(ms[|ms| - 1]) == key then Some(ms[|ms| - 1])
    else Latest(key, ms[..|ms| - 1], prev)
  }

  function RoundAt(rounds: seq<Round>, k: nat): Round {
    if k < |rounds| then rounds[k] else Round([], false)
  }

  function Rest(rounds: seq<Round>, k: nat): seq<Round> {
    if k < |rounds| then rounds[k..] else []
  }

  /** What a worker takes after a handler call: nothing in shutdown, otherwise the newest that came, or what was in the slot. */
  function NextOf(key: string, slot: Option<Message>, round: Round, stopped: bool): Option<Message> {
    if stopped || round.stop then None else Latest(key, round.arrivals, slot)
  }

  /**
   The messages one worker handles: its own, then what was in the slot when it
   began unless a newer one came, and after each the newest that came meanwhile,
   until none did or shutdown began.
   */
  function Handled(key: string, m: Message, slot: Option<Message>, rounds: seq<Round>, stopped: bool): seq<Message>
    decreases |rounds| + if slot.Some? then 1 else 0
  {
    match NextOf(key, slot, RoundAt(rounds, 0), stopped)
    case None => [m]
    case Some(next) => [m] + Handled(key, next, None, Rest(rounds, 1), false)
  }

  lemma HandledStep(key: string, m: Message, slot: Option<Message>, rounds: seq<Round>, k: nat, stopped: bool)
    ensures var next := NextOf(key, slot, RoundAt(rounds, k), stopped);
            && (next.None? ==> Handled(key, m, slot, Rest(rounds, k), stopped) == [m])
            && (next.Some? ==>
                  Handled(key, m, slot, Rest(rounds, k), stopped) == [m] + Handled(key, next.value, None, Rest(rounds, k + 1), false))
            && (next.Some? && slot.None? ==> k < |rounds|)
  {
    assert RoundAt(Rest(rounds, k), 0) == RoundAt(rounds, k);
    assert Rest(Rest(rounds, k), 1) == Rest(rounds, k + 1);
  }

  /** One round of work takes the next message off what is still to be handled. */
  lemma HandledOne(key: string, m: Message, slot: Option<Message>, rounds: seq<Round>, k: nat, stopped: bool, before: seq<Message>)
    ensures var next, total := NextOf(key, slot, RoundAt(rounds, k), stopped), before + Handled(key, m, slot, Rest(rounds, k), stopped);
            && (next.None? ==> before + [m] == total)
            && (next.Some? ==> (before + [m]) + Handled(key, next.value, None, Rest(rounds, k + 1), false) == total)
            && (next.Some? && slot.None? ==> k < |rounds|)
  {
    HandledStep(key, m, slot, rounds, k, stopped);
    OneMore(before, m, Handled(key, m, slot, Rest(rounds, k), stopped));
  }

  lemma OneMore(before: seq<Message>, m: Message, rest: seq<Message>)
    requires rest != [] && rest[0] == m
    ensures before + rest == (before + [m]) + rest[1..]
  {
  }

  lemma {:induction false} LatestIsNewest(key: string, ms: seq<Message>, prev: Option<Message>, i: nat)
    requires i < |ms| && QueueCore.Key(ms[i]) == key && forall j :: i < j < |ms| ==> QueueCore.Key(ms[j]) != key
    ensures Latest(key, ms, prev) == Some(ms[i])
  {
    if i < |ms| - 1 {
      LatestIsNewest(key, ms[..|ms| - 1], prev, i);
    }
  }

  lemma {:induction false} LatestIsNone(key: string, ms: seq<Message>, prev: Option<Message>)
    ensures (forall j :: 0 <= j < |ms| ==> QueueCore.Key(ms[j]) != key) ==> Latest(key, ms, prev) == prev
    ensures Latest(key, ms, None) == None <==> forall j :: 0 <= j < |ms| ==> QueueCore.Key(ms[j]) != key
    ensures Latest(key, ms, None).Some? ==> QueueCore.Key(Latest(key, ms, None).value) == key
  {
    if ms != [] {
      var front, last := ms[..|ms| - 1], ms[|ms| - 1];
      LatestIsNone(key, front, prev);
      assert forall j :: 0 <= j < |front| ==> front[j] == ms[j];
      LatestNext(key, front, last, prev);
      LatestNext(key, front, last, None);
      assert front + [last] == ms;
    }
  }

  lemma LatestNext(key: string, front: seq<Message>, last: Message, prev: Option<Message>)
    ensures Latest(key, front + [last], prev) == if QueueCore.Key(last) == key then Some(last) else Latest(key, front, prev)
  {
    assert (front + [last])[..|front|] == front;
  }

  /**
   What one worker handles: first its own message, then, as long as shutdown has
   not begun, the newest message that came during the handler call before (or,
   after the first call, what was in the slot before it); it stops at the first
   call after which there is none or shutdown has begun.
   */
  lemma {:induction false} HandledChain(key: string, m: Message, slot: Option<Message>, rounds: seq<Round>, stopped: bool)
    ensures var h := Handled(key, m, slot, rounds, stopped);
            && 0 < |h| <= |rounds| + 2 && h[0] == m
            && (forall j :: 0 <= j < |h| - 1 ==>
                  NextOf(key, if j == 0 then slot else None, RoundAt(rounds, j), stopped) == Some(h[j + 1]))
            && NextOf(key, if |h| == 1 then slot else None, RoundAt(rounds, |h| - 1), stopped) == None
    decreases |rounds| + if slot.Some? then 1 else 0
  {
    match NextOf(key, slot, RoundAt(rounds, 0), stopped)
    case None =>
    case Some(next) =>
      var more := Rest(rounds, 1);
      HandledChain(key, next, None, more, false);
      var h, rest := Handled(key, m, slot, rounds, stopped), Handled(key, next, None, more, false);
      assert h == [m] + rest;
      forall j: nat ensures RoundAt(more, j) == RoundAt(rounds, j + 1) { }
      forall j | 0 <= j < |h| - 1
        ensures NextOf(key, if j == 0 then slot else None, RoundAt(rounds, j), stopped) == Some(h[j + 1])
      {
        if j > 0 {
          assert NextOf(key, None, RoundAt(more, j - 1), false) == Some(rest[j]);
        }
      }
  }
}
