/** What every step of the server manager keeps. */
module ServersInvariants {
  import opened Options
  import opened ServersCore
  import opened ServersProtocol

  /** The call owns a placeholder: its spawn is under way or about to be published. */
  predicate Owning(phase: Phase) {
    phase.Spawning? || phase.Warming? || phase.Killing? || phase.Publishing?
  }

  /** The connection the call is answerable for. */
  function InCare(phase: Phase): Option<nat> {
    match phase
    case Warming(_, c) => Some(c)
    case Killing(_, c) => Some(c)
    case Publishing(_, got) => got
    case _ => None
  }

  ghost predicate ConnEntryOk(s: State, v: string)
    requires v in s.m.conns
  {
    var c := s.m.conns[v];
    && c in s.m.heap && c in s.holder
    && s.m.heap[c].vendor == v
    && s.holder[c] == InMap
    && v !in s.m.pending
    && !s.m.closed
  }

  ghost predicate PendingOk(s: State, v: string)
    requires v in s.m.pending
  {
    var p := s.m.pending[v];
    && p in s.owner && p in s.m.spawns && !s.m.spawns[p].done
    && s.owner[p] in s.acquires
    && s.acquires[s.owner[p]].vendor == v
    && Owning(s.acquires[s.owner[p]].phase)
    && s.acquires[s.owner[p]].phase.p == p
  }

  ghost predicate AcquireOk(s: State, a: nat)
    requires a in s.acquires
  {
    var v, phase := s.acquires[a].vendor, s.acquires[a].phase;
    && a < s.next
    && (Owning(phase) ==> v in s.m.pending && s.m.pending[v] == phase.p && phase.p in s.owner && s.owner[phase.p] == a)
    && (phase.Waiting? ==> phase.p in s.m.spawns && (s.m.spawns[phase.p].done || (v in s.m.pending && s.m.pending[v] == phase.p)))
    && (InCare(phase).Some? ==>
          && InCare(phase).value in s.m.heap && InCare(phase).value in s.holder
          && s.holder[InCare(phase).value] == ByAcquire(a))
    && (phase.Returned? && phase.got.Some? ==> phase.got.value in s.m.heap && s.m.heap[phase.got.value].vendor == v)
  }

  ghost predicate CloserOk(s: State, k: nat)
    requires k in s.closers
  {
    && k < s.next
    && s.m.closed
    && (forall c :: c in s.closers[k].todo ==> c in s.m.heap && c in s.holder && s.holder[c] == ByCloser(k))
    && (s.closers[k].marked.Some? ==>
          && s.closers[k].marked.value in s.m.heap && s.closers[k].marked.value in s.holder
          && s.holder[s.closers[k].marked.value] == ByCloser(k)
          && s.closers[k].marked.value !in s.closers[k].todo)
  }

  /** A connection is closed and killed as its holder's progress says, and killed once in all. */
  ghost predicate ConnOk(s: State, c: nat)
    requires c in s.m.heap
  {
    var conn := s.m.heap[c];
    && c < s.next && c in s.holder
    && match s.holder[c]
       case InMap =>
         conn.vendor in s.m.conns && s.m.conns[conn.vendor] == c && !conn.closed && conn.kills == 0
       case ByAcquire(a) =>
         && a in s.acquires && s.acquires[a].vendor == conn.vendor
         && InCare(s.acquires[a].phase) == Some(c)
         && conn.closed == s.acquires[a].phase.Killing? && conn.kills == 0
       case ByCloser(k) =>
         && k in s.closers
         && conn.kills == 0
         && (if conn.closed then s.closers[k].marked == Some(c) else c in s.closers[k].todo)
       case Gone =>
         conn.closed && conn.kills == 1
  }

  ghost predicate Inv(s: State) {
    && (forall v :: v in s.m.conns ==> ConnEntryOk(s, v))
    && (forall v :: v in s.m.pending ==> PendingOk(s, v))
    && (forall a :: a in s.acquires ==> AcquireOk(s, a))
    && (forall k :: k in s.closers ==> CloserOk(s, k))
    && (forall c :: c in s.m.heap ==> ConnOk(s, c))
    && (forall p :: p in s.m.spawns ==> p < s.next)
  }

  // ------------------------------------------------------------------- acquire

  /** A dead cached connection closed and taken out of the map. */
  function DropStale(s: State, v: string): State
    requires v in s.m.conns && s.m.conns[v] in s.m.heap
  {
    var c := s.m.conns[v];
    s.(m := s.m.(heap := s.m.heap[c := Closed(s.m.heap[c])], conns := s.m.conns - {v}), holder := s.holder[c := Gone])
  }

  /** The call becomes the owner of a new placeholder. */
  function OwnSpawn(s: State, a: nat): State
    requires a in s.acquires
  {
    var p := s.next;
    Move(s, a, Spawning(p)).(next := p + 1, owner := s.owner[p := a],
      m := s.m.(pending := s.m.pending[s.acquires[a].vendor := p], spawns := s.m.spawns[p := Spawn(false, None)]))
  }

  lemma InvDropStale(s: State, v: string)
    requires Inv(s) && v in s.m.conns
    ensures s.m.conns[v] in s.m.heap && Inv(DropStale(s, v))
  {
    assert ConnEntryOk(s, v);
    assert ConnOk(s, s.m.conns[v]);
    var t := DropStale(s, v);
    forall v | v in t.m.conns ensures ConnEntryOk(t, v) { assert ConnEntryOk(s, v); }
    forall v | v in t.m.pending ensures PendingOk(t, v) { assert PendingOk(s, v); }
    forall b | b in t.acquires ensures AcquireOk(t, b) { assert AcquireOk(s, b); }
    forall c | c in t.m.heap ensures ConnOk(t, c) { assert ConnOk(s, c); }
  }

  lemma OwnSpawnAcquires(s: State, a: nat)
    requires Inv(s) && a in s.acquires && s.acquires[a].phase == AtTop
    requires s.acquires[a].vendor !in s.m.conns && s.acquires[a].vendor !in s.m.pending
    ensures forall b :: b in OwnSpawn(s, a).acquires ==> AcquireOk(OwnSpawn(s, a), b)
    ensures forall v :: v in OwnSpawn(s, a).m.pending ==> PendingOk(OwnSpawn(s, a), v)
  {
    var t := OwnSpawn(s, a);
    assert AcquireOk(s, a);
    forall v | v in t.m.pending ensures PendingOk(t, v) { assert v in s.m.pending ==> PendingOk(s, v); }
    forall b | b in t.acquires ensures AcquireOk(t, b) { assert AcquireOk(s, b); }
  }

  lemma InvOwnSpawn(s: State, a: nat)
    requires Inv(s) && a in s.acquires && s.acquires[a].phase == AtTop
    requires s.acquires[a].vendor !in s.m.conns && s.acquires[a].vendor !in s.m.pending
    ensures Inv(OwnSpawn(s, a))
  {
    var t := OwnSpawn(s, a);
    OwnSpawnAcquires(s, a);
    forall v | v in t.m.conns ensures ConnEntryOk(t, v) { assert ConnEntryOk(s, v); }
    forall k | k in t.closers ensures CloserOk(t, k) { assert CloserOk(s, k); }
    forall c | c in t.m.heap ensures ConnOk(t, c) { assert ConnOk(s, c); }
  }

  /** Moves that neither take nor leave a placeholder or a connection. */
  lemma InvMove(s: State, a: nat, phase: Phase)
    requires Inv(s) && a in s.acquires
    requires Owning(phase) == Owning(s.acquires[a].phase) && (Owning(phase) ==> phase.p == s.acquires[a].phase.p)
    requires InCare(phase) == InCare(s.acquires[a].phase) && !phase.Killing? && !s.acquires[a].phase.Killing?
    requires phase.Waiting? ==> s.acquires[a].vendor in s.m.pending && s.m.pending[s.acquires[a].vendor] == phase.p
    requires phase.Returned? && phase.got.Some? ==> phase.got.value in s.m.heap && s.m.heap[phase.got.value].vendor == s.acquires[a].vendor
    ensures Inv(Move(s, a, phase))
  {
    var t := Move(s, a, phase);
    assert AcquireOk(s, a);
    if phase.Waiting? { assert PendingOk(s, s.acquires[a].vendor); }
    forall v | v in t.m.conns ensures ConnEntryOk(t, v) { assert ConnEntryOk(s, v); }
    forall v | v in t.m.pending ensures PendingOk(t, v) { assert PendingOk(s, v); }
    forall b | b in t.acquires ensures AcquireOk(t, b) { assert AcquireOk(s, b); }
    forall k | k in t.closers ensures CloserOk(t, k) { assert CloserOk(s, k); }
    forall c | c in t.m.heap ensures ConnOk(t, c) { assert ConnOk(s, c); }
  }

  lemma InvNext(s: State)
    requires Inv(s)
    ensures Inv(s.(next := s.next + 1))
  {
    var t := s.(next := s.next + 1);
    forall v | v in t.m.conns ensures ConnEntryOk(t, v) { assert ConnEntryOk(s, v); }
    forall v | v in t.m.pending ensures PendingOk(t, v) { assert PendingOk(s, v); }
    forall b | b in t.acquires ensures AcquireOk(t, b) { assert AcquireOk(s, b); }
    forall k | k in t.closers ensures CloserOk(t, k) { assert CloserOk(s, k); }
    forall c | c in t.m.heap ensures ConnOk(t, c) { assert ConnOk(s, c); }
  }

  lemma EnterUses(s: State, a: nat, c: nat)
    requires Enabled(s, Enter(a)) && s.acquires[a].vendor in s.m.conns && s.m.conns[s.acquires[a].vendor] == c && Alive(s.m.heap[c])
    ensures DoEnter(s, a) == Move(s.(next := s.next + 1), a, Returned(Some(c)))
  {
  }

  lemma EnterReplaces(s: State, a: nat)
    requires Enabled(s, Enter(a)) && s.acquires[a].vendor in s.m.conns && !Alive(s.m.heap[s.m.conns[s.acquires[a].vendor]])
    requires s.acquires[a].vendor !in s.m.pending
    ensures DoEnter(s, a) == OwnSpawn(DropStale(s, s.acquires[a].vendor), a)
  {
  }

  lemma EnterAwaits(s: State, a: nat)
    requires Enabled(s, Enter(a)) && s.acquires[a].vendor !in s.m.conns && s.acquires[a].vendor in s.m.pending
    ensures DoEnter(s, a) == Move(s.(next := s.next + 1), a, Waiting(s.m.pending[s.acquires[a].vendor]))
  {
  }

  lemma EnterOwns(s: State, a: nat)
    requires Enabled(s, Enter(a)) && s.acquires[a].vendor !in s.m.conns && s.acquires[a].vendor !in s.m.pending
    ensures DoEnter(s, a) == OwnSpawn(s, a)
  {
  }

  lemma InvEnter(s: State, a: nat)
    requires Inv(s) && Enabled(s, Enter(a))
    ensures Inv(DoEnter(s, a))
  {
    var v := s.acquires[a].vendor;
    if v in s.m.conns {
      assert ConnEntryOk(s, v);
      var c := s.m.conns[v];
      if Alive(s.m.heap[c]) {
        InvNext(s);
        InvMove(s.(next := s.next + 1), a, Returned(Some(c)));
        EnterUses(s, a, c);
      } else {
        InvDropStale(s, v);
        InvOwnSpawn(DropStale(s, v), a);
        EnterReplaces(s, a);
      }
    } else if v in s.m.pending {
      InvNext(s);
      InvMove(s.(next := s.next + 1), a, Waiting(s.m.pending[v]));
      EnterAwaits(s, a);
    } else {
      InvOwnSpawn(s, a);
      EnterOwns(s, a);
    }
  }

  // --------------------------------------------------------------------- spawn

  /** The process of a spawn starts: one more connection, in the call's care. */
  function StartServer(s: State, a: nat, p: nat): State
    requires a in s.acquires
  {
    var c, v := s.next, s.acquires[a].vendor;
    s.(m := s.m.(heap := s.m.heap[c := Conn(v, false, false, 0)]),
       acquires := s.acquires[a := Acquire(v, Warming(p, c))],
       holder := s.holder[c := ByAcquire(a)], next := c + 1)
  }

  lemma InvStart(s: State, a: nat)
    requires Inv(s) && Enabled(s, SpawnStarts(a))
    ensures Inv(StartServer(s, a, s.acquires[a].phase.p))
  {
    var t := StartServer(s, a, s.acquires[a].phase.p);
    assert AcquireOk(s, a);
    forall v | v in t.m.conns ensures ConnEntryOk(t, v) { assert ConnEntryOk(s, v); }
    forall v | v in t.m.pending ensures PendingOk(t, v) { assert PendingOk(s, v); }
    forall b | b in t.acquires ensures AcquireOk(t, b) { assert AcquireOk(s, b); }
    forall k | k in t.closers ensures CloserOk(t, k) { assert CloserOk(s, k); }
    forall d | d in t.m.heap ensures ConnOk(t, d) { assert d in s.m.heap ==> ConnOk(s, d); }
  }

  /** The call in care of c puts the closed flag up. */
  function MarkServer(s: State, a: nat, p: nat, c: nat): State
    requires a in s.acquires && c in s.m.heap
  {
    s.(m := s.m.(heap := s.m.heap[c := s.m.heap[c].(closed := true)]),
       acquires := s.acquires[a := Acquire(s.acquires[a].vendor, Killing(p, c))])
  }

  lemma InvUnhealthy(s: State, a: nat)
    requires Inv(s) && Enabled(s, Unhealthy(a))
    ensures Inv(DoUnhealthy(s, a))
  {
    var Warming(p, c) := s.acquires[a].phase;
    assert AcquireOk(s, a) && ConnOk(s, c);
    assert DoUnhealthy(s, a) == MarkServer(s, a, p, c);
    InvMarkServer(s, a, p, c);
  }

  lemma InvMarkServer(s: State, a: nat, p: nat, c: nat)
    requires Inv(s) && a in s.acquires && s.acquires[a].phase == Warming(p, c) && c in s.m.heap
    ensures Inv(MarkServer(s, a, p, c))
  {
    var t := MarkServer(s, a, p, c);
    assert AcquireOk(s, a) && ConnOk(s, c);
    forall v | v in t.m.conns ensures ConnEntryOk(t, v) { assert ConnEntryOk(s, v); }
    forall v | v in t.m.pending ensures PendingOk(t, v) { assert PendingOk(s, v); }
    forall b | b in t.acquires ensures AcquireOk(t, b) { assert AcquireOk(s, b); }
    forall k | k in t.closers ensures CloserOk(t, k) { assert CloserOk(s, k); }
    forall d | d in t.m.heap ensures ConnOk(t, d) { assert ConnOk(s, d); }
  }

  /** The call gives up c, which is closed and killed by now. */
  function Discard(s: State, a: nat, p: nat, c: nat, conn: Conn): State
    requires a in s.acquires && c in s.m.heap
  {
    s.(m := s.m.(heap := s.m.heap[c := conn]),
       acquires := s.acquires[a := Acquire(s.acquires[a].vendor, Publishing(p, None))],
       holder := s.holder[c := Gone])
  }

  lemma InvDiscard(s: State, a: nat, p: nat, c: nat, conn: Conn)
    requires Inv(s) && a in s.acquires && Owning(s.acquires[a].phase) && s.acquires[a].phase.p == p
    requires InCare(s.acquires[a].phase) == Some(c) && c in s.m.heap
    requires conn.closed && conn.kills == 1 && conn.vendor == s.m.heap[c].vendor
    ensures Inv(Discard(s, a, p, c, conn))
  {
    var t := Discard(s, a, p, c, conn);
    assert AcquireOk(s, a) && ConnOk(s, c);
    forall v | v in t.m.conns ensures ConnEntryOk(t, v) { assert ConnEntryOk(s, v); }
    forall v | v in t.m.pending ensures PendingOk(t, v) { assert PendingOk(s, v); }
    forall b | b in t.acquires ensures AcquireOk(t, b) { assert AcquireOk(s, b); }
    forall k | k in t.closers ensures CloserOk(t, k) { assert CloserOk(s, k); }
    forall d | d in t.m.heap ensures ConnOk(t, d) { assert ConnOk(s, d); }
  }

  lemma InvKillUnhealthy(s: State, a: nat)
    requires Inv(s) && Enabled(s, KillUnhealthy(a))
    ensures Inv(Apply(s, KillUnhealthy(a)))
  {
    var Killing(p, c) := s.acquires[a].phase;
    var conn := s.m.heap[c].(kills := s.m.heap[c].kills + 1);
    assert AcquireOk(s, a) && ConnOk(s, c);
    assert Apply(s, KillUnhealthy(a)) == Discard(s, a, p, c, conn);
    InvDiscard(s, a, p, c, conn);
  }

  /** The placeholder is done and out of the map; a connection that made it is cached. */
  function Settle(s: State, a: nat, p: nat, got: Option<nat>): State
    requires a in s.acquires
  {
    var v := s.acquires[a].vendor;
    s.(m := s.m.(pending := s.m.pending - {v}, spawns := s.m.spawns[p := Spawn(true, got)],
                 conns := if got.Some? then s.m.conns[v := got.value] else s.m.conns),
       acquires := s.acquires[a := Acquire(v, Returned(got))],
       holder := if got.Some? then s.holder[got.value := InMap] else s.holder)
  }

  lemma InvSettleNone(s: State, a: nat, p: nat)
    requires Inv(s) && a in s.acquires && s.acquires[a].phase == Publishing(p, None)
    ensures Inv(Settle(s, a, p, None))
  {
    var t := Settle(s, a, p, None);
    assert AcquireOk(s, a) && PendingOk(s, s.acquires[a].vendor);
    forall v | v in t.m.conns ensures ConnEntryOk(t, v) { assert ConnEntryOk(s, v); }
    forall v | v in t.m.pending ensures PendingOk(t, v) { assert PendingOk(s, v); }
    forall b | b in t.acquires ensures AcquireOk(t, b) { assert AcquireOk(s, b); }
    forall k | k in t.closers ensures CloserOk(t, k) { assert CloserOk(s, k); }
    forall d | d in t.m.heap ensures ConnOk(t, d) { assert ConnOk(s, d); }
  }

  lemma InvSettleSome(s: State, a: nat, p: nat, c: nat)
    requires Inv(s) && a in s.acquires && s.acquires[a].phase == Publishing(p, Some(c)) && !s.m.closed
    ensures Inv(Settle(s, a, p, Some(c)))
  {
    var t := Settle(s, a, p, Some(c));
    assert AcquireOk(s, a) && PendingOk(s, s.acquires[a].vendor) && ConnOk(s, c);
    forall v | v in t.m.conns ensures ConnEntryOk(t, v) { assert v in s.m.conns ==> ConnEntryOk(s, v); }
    forall v | v in t.m.pending ensures PendingOk(t, v) { assert PendingOk(s, v); }
    forall b | b in t.acquires ensures AcquireOk(t, b) { assert AcquireOk(s, b); }
    forall d | d in t.m.heap ensures ConnOk(t, d) { assert ConnOk(s, d); }
  }

  lemma InvPublish(s: State, a: nat)
    requires Inv(s) && Enabled(s, Publish(a))
    ensures Inv(DoPublish(s, a))
  {
    var Publishing(p, got) := s.acquires[a].phase;
    match got
    case None =>
      assert DoPublish(s, a) == Settle(s, a, p, None);
      InvSettleNone(s, a, p);
    case Some(c) =>
      assert AcquireOk(s, a) && ConnOk(s, c);
      if s.m.closed {
        assert DoPublish(s, a) == Settle(Discard(s, a, p, c, Closed(s.m.heap[c])), a, p, None);
        InvDiscard(s, a, p, c, Closed(s.m.heap[c]));
        InvSettleNone(Discard(s, a, p, c, Closed(s.m.heap[c])), a, p);
      } else {
        assert DoPublish(s, a) == Settle(s, a, p, Some(c));
        InvSettleSome(s, a, p, c);
      }
  }

  // --------------------------------------------------------------------- close

  lemma InvClose(s: State)
    requires Inv(s)
    ensures Inv(DoClose(s))
  {
    var t := DoClose(s);
    forall c | c in s.m.conns.Values ensures c in s.m.heap && c in s.holder && s.holder[c] == InMap {
      var v :| v in s.m.conns && s.m.conns[v] == c;
      assert ConnEntryOk(s, v);
    }
    forall v | v in t.m.pending ensures PendingOk(t, v) { assert PendingOk(s, v); }
    forall b | b in t.acquires ensures AcquireOk(t, b) { assert AcquireOk(s, b); }
    forall k | k in t.closers ensures CloserOk(t, k) { assert k in s.closers ==> CloserOk(s, k); }
    forall c | c in t.m.heap ensures ConnOk(t, c) { assert ConnOk(s, c); }
  }

  lemma InvMark(s: State, k: nat, c: nat)
    requires Inv(s) && Enabled(s, CloseMark(k, c))
    ensures Inv(DoMark(s, k, c))
  {
    var t := DoMark(s, k, c);
    assert CloserOk(s, k) && ConnOk(s, c);
    forall v | v in t.m.pending ensures PendingOk(t, v) { assert PendingOk(s, v); }
    forall b | b in t.acquires ensures AcquireOk(t, b) { assert AcquireOk(s, b); }
    forall j | j in t.closers ensures CloserOk(t, j) { assert CloserOk(s, j); }
    forall d | d in t.m.heap ensures ConnOk(t, d) { assert ConnOk(s, d); }
  }

  lemma InvCloseKill(s: State, k: nat)
    requires Inv(s) && Enabled(s, CloseKill(k))
    ensures Inv(Apply(s, CloseKill(k)))
  {
    var t := Apply(s, CloseKill(k));
    assert CloserOk(s, k) && ConnOk(s, s.closers[k].marked.value);
    forall v | v in t.m.pending ensures PendingOk(t, v) { assert PendingOk(s, v); }
    forall b | b in t.acquires ensures AcquireOk(t, b) { assert AcquireOk(s, b); }
    forall j | j in t.closers ensures CloserOk(t, j) { assert CloserOk(s, j); }
    forall c | c in t.m.heap ensures ConnOk(t, c) { assert ConnOk(s, c); }
  }

  lemma InvOther(s: State, step: Step)
    requires Inv(s) && Enabled(s, step) && (step.Call? || step.CloseReturn? || step.Exit?)
    ensures Inv(Apply(s, step))
  {
    var t := Apply(s, step);
    forall v | v in t.m.conns ensures ConnEntryOk(t, v) { assert ConnEntryOk(s, v); }
    forall v | v in t.m.pending ensures PendingOk(t, v) { assert PendingOk(s, v); }
    forall b | b in t.acquires ensures AcquireOk(t, b) { assert b in s.acquires ==> AcquireOk(s, b); }
    forall k | k in t.closers ensures CloserOk(t, k) { assert CloserOk(s, k); }
    forall c | c in t.m.heap ensures ConnOk(t, c) { assert ConnOk(s, c); }
  }

  /** The acquire steps that only move the call. */
  lemma InvQuiet(s: State, step: Step)
    requires Inv(s) && Enabled(s, step)
    requires step.WaitDone? || step.WaitCancelled? || step.SpawnFails? || step.Healthy?
    ensures Inv(Apply(s, step))
  {
    match step
    case WaitDone(a) => InvMove(s, a, if s.m.spawns[s.acquires[a].phase.p].conn.None? then Returned(None) else AtTop);
    case WaitCancelled(a) => InvMove(s, a, Returned(None));
    case SpawnFails(a) => InvMove(s, a, Publishing(s.acquires[a].phase.p, None));
    case Healthy(a) => InvMove(s, a, Publishing(s.acquires[a].phase.p, Some(s.acquires[a].phase.c)));
  }

  lemma StartApplies(s: State, a: nat)
    requires Enabled(s, SpawnStarts(a))
    ensures Apply(s, SpawnStarts(a)) == StartServer(s, a, s.acquires[a].phase.p)
  {
  }

  lemma InvStep(s: State, step: Step)
    requires Inv(s) && Enabled(s, step)
    ensures Inv(Apply(s, step))
  {
    match step
    case Enter(a) => InvEnter(s, a);
    case SpawnStarts(a) => StartApplies(s, a); InvStart(s, a);
    case Unhealthy(a) => InvUnhealthy(s, a);
    case KillUnhealthy(a) => InvKillUnhealthy(s, a);
    case Publish(a) => InvPublish(s, a);
    case CloseCall => InvClose(s);
    case CloseMark(k, c) => InvMark(s, k, c);
    case CloseKill(k) => InvCloseKill(s, k);
    case _ =>
      if step.Call? || step.CloseReturn? || step.Exit? { InvOther(s, step); } else { InvQuiet(s, step); }
  }

  lemma {:induction false} InvRun(s: State, steps: seq<Step>, t: State)
    requires Inv(s) && IsRun(s, steps, t)
    ensures Inv(t)
    decreases |steps|
  {
    if steps != [] {
      InvStep(s, steps[0]);
      InvRun(Apply(s, steps[0]), steps[1..], t);
    }
  }
}
