/**
 The state guarded by Core.mu and the two lock regions that change it
 (internal/bot/queue.go): the region of enqueue and the region at the end of
 each round of work.

 Both regions are functions, generic in the type Q of queue references and the
 type M of messages: the class in CoreClass.dfy instantiates them with heap
 objects, the protocol in QueueProtocol.dfy with numbers.
 */
module QueueCore {
  import opened Options

  /** A trigger-bearing message as the adapters deliver it. */
  datatype Message = Message(platform: string, threadId: string, messageId: string, body: string, mention: bool)

  /** The queue key: a plain concatenation, exactly as enqueue builds it. */
  function Key(m: Message): string {
    m.platform + ":" + m.threadId
  }

  /**
   Which messages share a queue. Those of one thread do; and because the key is a
   plain concatenation, so do those of different threads whose platforms differ
   exactly by a colon and what the other thread's id begins with.
   */
  lemma SharedKey(m: Message, n: Message)
    requires |m.platform| <= |n.platform|
    ensures Key(m) == Key(n) <==>
              || (m.platform == n.platform && m.threadId == n.threadId)
              || (&& m.platform + ":" <= n.platform
                  && m.threadId == n.platform[|m.platform| + 1..] + ":" + n.threadId)
  {
    var k := |m.platform|;
    assert Key(m)[..k] == m.platform && Key(m)[k] == ':' && Key(m)[k + 1..] == m.threadId;
    if k == |n.platform| {
      assert Key(n)[..k] == n.platform && Key(n)[k + 1..] == n.threadId;
    } else {
      assert Key(n)[..k] == n.platform[..k] && Key(n)[k] == n.platform[k];
      assert Key(n)[k + 1..] == n.platform[k + 1..] + ":" + n.threadId;
      if Key(m) == Key(n) {
        assert m.platform + ":" == n.platform[..k + 1];
      }
      if m.platform + ":" <= n.platform {
        assert n.platform == m.platform + ":" + n.platform[k + 1..];
        assert Key(n) == m.platform + ":" + (n.platform[k + 1..] + ":" + n.threadId);
      }
    }
  }

  /** Thread ids without a colon keep threads apart, whatever the platforms are: connection ids are minted with a colon in them. */
  lemma ThreadsApart(m: Message, n: Message)
    requires ':' !in m.threadId && ':' !in n.threadId
    ensures Key(m) == Key(n) <==> m.platform == n.platform && m.threadId == n.threadId
  {
    var a, b := if |m.platform| <= |n.platform| then m else n, if |m.platform| <= |n.platform| then n else m;
    SharedKey(a, b);
    if a.platform + ":" <= b.platform {
      var rest := b.platform[|a.platform| + 1..];
      assert (rest + ":" + b.threadId)[|rest|] == ':';
    }
  }

  /** Two different threads with one key: a connection id, and a platform with a colon in the thread id. */
  lemma SharedKeyExample()
    ensures var m, n := Message("wechat", "0a1b2c:u7", "1", "", true), Message("wechat:0a1b2c", "u7", "2", "", true);
            Key(m) == Key(n) && m.platform != n.platform && m.threadId != n.threadId
  {
    var m, n := Message("wechat", "0a1b2c:u7", "1", "", true), Message("wechat:0a1b2c", "u7", "2", "", true);
    assert n.platform == m.platform + ":" + "0a1b2c";
    assert n.platform[|m.platform| + 1..] == "0a1b2c";
    assert m.threadId == "0a1b2c" + ":" + n.threadId;
    SharedKey(m, n);
  }

  datatype Queue<+M> = Queue(key: string, running: bool, coalesce: Option<M>)

  datatype Core<Q, M> = Core(
    stopped: bool,
    inflight: int,
    queues: map<string, Q>,
    heap: map<Q, Queue<M>>)

  /** What the lock region of enqueue leaves to the caller after it unlocks. */
  datatype Verdict<+Q, +M> =
    | Rejected
    | Started(q: Q)
    | Coalesced(q: Q, superseded: Option<M>)

  /** Every reference in the queues map points at a queue. */
  ghost predicate PointersValid<Q, M>(c: Core<Q, M>) {
    forall k :: k in c.queues ==> c.queues[k] in c.heap
  }

  /** enqueue between Lock and Unlock; blank is the queue allocated when the key is unknown. */
  ghost function EnqueueRegion<Q, M>(c: Core<Q, M>, key: string, m: M, blank: Q): (Core<Q, M>, Verdict<Q, M>)
    requires PointersValid(c)
  {
    if c.stopped then
      (c, Rejected)
    else
      var q := if key in c.queues then c.queues[key] else blank;
      var c1 := if key in c.queues then c
                else c.(queues := c.queues[key := blank], heap := c.heap[blank := Queue(key, false, None)]);
      if !c1.heap[q].running then
        (c1.(heap := c1.heap[q := c1.heap[q].(running := true)], inflight := c1.inflight + 1), Started(q))
      else
        (c1.(heap := c1.heap[q := c1.heap[q].(coalesce := Some(m))]), Coalesced(q, c1.heap[q].coalesce))
  }

  /** The region at the end of one round of work: the next message, or retirement. */
  ghost function FinishRegion<Q, M>(c: Core<Q, M>, q: Q): (Core<Q, M>, Option<M>)
    requires q in c.heap
  {
    var tq := c.heap[q];
    if tq.coalesce.Some? && !c.stopped then
      (c.(heap := c.heap[q := tq.(coalesce := None)]), tq.coalesce)
    else
      (c.(heap := c.heap[q := tq.(running := false)], queues := c.queues - {tq.key}), None)
  }
}
