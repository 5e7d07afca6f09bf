/** What holds in every reachable state, and over every run, of the server manager. */
module ServersTheorems {
  import opened ServersProtocol
  import opened ServersInvariants

  ghost predicate Reached(s: State, steps: seq<Step>) {
    IsRun(Idle(), steps, s)
  }

  lemma InvReached(s: State, steps: seq<Step>)
    requires Reached(s, steps)
    ensures Inv(s)
  {
    InvRun(Idle(), steps, s);
  }

  /** The call is between publishing its placeholder and taking it down, for this vendor. */
  ghost predicate OwnsSpawn(s: State, a: nat, vendor: string) {
    a in s.acquires && s.acquires[a].vendor == vendor && Owning(s.acquires[a].phase)
  }

  /**
   Single flight: a vendor never has both a spawn under way and a cached
   connection, never two calls that spawn for it, and a placeholder in the map
   always has a live owner and is not done.
   */
  lemma SingleFlight(s: State, steps: seq<Step>, vendor: string)
    requires Reached(s, steps)
    ensures !(vendor in s.m.pending && vendor in s.m.conns)
    ensures vendor in s.m.pending <==> exists a :: OwnsSpawn(s, a, vendor)
    ensures forall a, b :: OwnsSpawn(s, a, vendor) && OwnsSpawn(s, b, vendor) ==> a == b
    ensures vendor in s.m.pending ==> s.m.pending[vendor] in s.m.spawns && !s.m.spawns[s.m.pending[vendor]].done
  {
    InvReached(s, steps);
    if vendor in s.m.conns {
      assert ConnEntryOk(s, vendor);
    }
    if vendor in s.m.pending {
      assert PendingOk(s, vendor);
      assert OwnsSpawn(s, s.owner[s.m.pending[vendor]], vendor);
    }
    forall a | OwnsSpawn(s, a, vendor)
      ensures vendor in s.m.pending && s.m.pending[vendor] in s.owner && s.owner[s.m.pending[vendor]] == a
    {
      assert AcquireOk(s, a);
    }
  }

  /** Until Close is called, a vendor has at most one server process that has not been killed. */
  lemma OneServerPerVendor(s: State, steps: seq<Step>, c: nat, d: nat)
    requires Reached(s, steps) && CloseCall !in steps
    requires c in s.m.heap && d in s.m.heap && s.m.heap[c].vendor == s.m.heap[d].vendor
    requires s.m.heap[c].kills == 0 && s.m.heap[d].kills == 0
    ensures c == d
  {
    InvReached(s, steps);
    ClosedWhenCalled(s, steps);
    SingleFlight(s, steps, s.m.heap[c].vendor);
    assert ConnOk(s, c) && ConnOk(s, d);
    forall e | e == c || e == d ensures !s.holder[e].ByCloser? {
    }
    forall e | (e == c || e == d) && s.holder[e].ByAcquire?
      ensures OwnsSpawn(s, s.holder[e].a, s.m.heap[c].vendor)
    {
    }
  }

  /** A cached connection belongs to its vendor, and so does every connection that acquire returns. */
  lemma OwnVendorOnly(s: State, steps: seq<Step>)
    requires Reached(s, steps)
    ensures forall v :: v in s.m.conns ==> s.m.conns[v] in s.m.heap && s.m.heap[s.m.conns[v]].vendor == v
    ensures forall a :: a in s.acquires && s.acquires[a].phase.Returned? && s.acquires[a].phase.got.Some? ==>
              s.acquires[a].phase.got.value in s.m.heap && s.m.heap[s.acquires[a].phase.got.value].vendor == s.acquires[a].vendor
  {
    InvReached(s, steps);
    forall v | v in s.m.conns ensures s.m.conns[v] in s.m.heap && s.m.heap[s.m.conns[v]].vendor == v {
      assert ConnEntryOk(s, v);
    }
    forall a | a in s.acquires && s.acquires[a].phase.Returned? && s.acquires[a].phase.got.Some?
      ensures s.acquires[a].phase.got.value in s.m.heap && s.m.heap[s.acquires[a].phase.got.value].vendor == s.acquires[a].vendor
    {
      assert AcquireOk(s, a);
    }
  }

  /** No acquire waits for nothing: it can move, or the owner of the placeholder it waits on is alive and can move. */
  lemma NobodyStuck(s: State, steps: seq<Step>, a: nat)
    requires Reached(s, steps) && a in s.acquires && !s.acquires[a].phase.Returned?
    ensures exists step :: Enabled(s, step) && (step == Enter(a) || step == WaitDone(a)
              || (exists b :: OwnsSpawn(s, b, s.acquires[a].vendor)
                    && (step == SpawnStarts(b) || step == Healthy(b) || step == KillUnhealthy(b) || step == Publish(b))))
  {
    InvReached(s, steps);
    assert AcquireOk(s, a);
    var v, phase := s.acquires[a].vendor, s.acquires[a].phase;
    if phase.AtTop? {
      assert v in s.m.conns ==> ConnEntryOk(s, v);
      assert Enabled(s, Enter(a));
    } else if phase.Waiting? && s.m.spawns[phase.p].done {
      assert Enabled(s, WaitDone(a));
    } else {
      var b := if phase.Waiting? then s.owner[s.m.pending[v]] else a;
      if phase.Waiting? {
        assert PendingOk(s, v);
      }
      assert OwnsSpawn(s, b, v) && AcquireOk(s, b);
      var at := s.acquires[b].phase;
      var step := if at.Spawning? then SpawnStarts(b) else if at.Warming? then Healthy(b)
                  else if at.Killing? then KillUnhealthy(b) else Publish(b);
      assert Enabled(s, step);
    }
  }

  /** A Close call that has not returned can go on: kill what it has marked, mark another connection, or return. */
  lemma CloserCanStep(s: State, steps: seq<Step>, k: nat)
    requires Reached(s, steps) && k in s.closers
    ensures exists step :: Enabled(s, step) && OfCloser(step, k)
  {
    InvReached(s, steps);
    assert CloserOk(s, k);
    var closer := s.closers[k];
    if closer.marked.Some? {
      assert Enabled(s, CloseKill(k));
    } else if closer.todo != {} {
      var c :| c in closer.todo;
      assert Enabled(s, CloseMark(k, c));
    } else {
      assert Enabled(s, CloseReturn(k));
    }
  }

  /** What a Close call has left to do: two steps for each connection, one for the marked one, and its return. */
  function CloseWork(s: State, k: nat): nat
    requires k in s.closers
  {
    2 * |s.closers[k].todo| + (if s.closers[k].marked.Some? then 1 else 0) + 1
  }

  predicate OfCloser(step: Step, k: nat) {
    step == CloseKill(k) || step == CloseReturn(k) || (step.CloseMark? && step.k == k)
  }

  lemma OthersLeaveCloser(s: State, k: nat, step: Step)
    requires Enabled(s, step) && k in s.closers && k < s.next && !OfCloser(step, k)
    ensures k in Apply(s, step).closers && Apply(s, step).closers[k] == s.closers[k]
  {
  }

  lemma MarkWorks(s: State, k: nat, c: nat)
    requires Enabled(s, CloseMark(k, c))
    ensures k in DoMark(s, k, c).closers && CloseWork(DoMark(s, k, c), k) < CloseWork(s, k)
  {
    assert c in s.closers[k].todo;
    assert DoMark(s, k, c).closers[k].todo == s.closers[k].todo - {c};
  }

  /** What a Close call has left to do goes down with each of its own steps, down to its return, and no other step changes it. */
  lemma CloserWorks(s: State, steps: seq<Step>, k: nat, step: Step)
    requires Reached(s, steps) && k in s.closers && Enabled(s, step)
    ensures var t := Apply(s, step);
            && (k in t.closers <==> step != CloseReturn(k))
            && (k in t.closers ==>
                  if OfCloser(step, k) then CloseWork(t, k) < CloseWork(s, k) else CloseWork(t, k) == CloseWork(s, k))
  {
    InvReached(s, steps);
    assert CloserOk(s, k);
    if !OfCloser(step, k) {
      OthersLeaveCloser(s, k, step);
    } else if step.CloseMark? {
      MarkWorks(s, k, step.c);
    }
  }

  // -------------------------------------------------------------------- shutdown

  lemma RegionKeepsClosed(s: State, step: Step)
    requires Enabled(s, step) && (step.Enter? || step.Publish?)
    ensures Apply(s, step).m.closed == s.m.closed
  {
  }

  lemma RestKeepsClosed(s: State, step: Step)
    requires Enabled(s, step) && !step.Enter? && !step.Publish? && step != CloseCall
    ensures Apply(s, step).m.closed == s.m.closed
  {
  }

  lemma ClosedStep(s: State, step: Step)
    requires Enabled(s, step)
    ensures Apply(s, step).m.closed <==> s.m.closed || step == CloseCall
  {
    if step.Enter? || step.Publish? {
      RegionKeepsClosed(s, step);
    } else if step != CloseCall {
      RestKeepsClosed(s, step);
    }
  }

  lemma {:induction false} ClosedRun(s: State, steps: seq<Step>, t: State)
    requires IsRun(s, steps, t)
    ensures t.m.closed <==> s.m.closed || CloseCall in steps
    decreases |steps|
  {
    if steps != [] {
      ClosedStep(s, steps[0]);
      ClosedRun(Apply(s, steps[0]), steps[1..], t);
      assert CloseCall in steps <==> CloseCall == steps[0] || CloseCall in steps[1..];
    }
  }

  /** The closed flag is up exactly when Close has been called: it never comes down again. */
  lemma ClosedWhenCalled(s: State, steps: seq<Step>)
    requires Reached(s, steps)
    ensures s.m.closed <==> CloseCall in steps
  {
    ClosedRun(Idle(), steps, s);
  }

  /** After a Close call the connection map is empty, in every state from then on. */
  lemma EmptyAfterClose(s: State, steps: seq<Step>)
    requires Reached(s, steps) && CloseCall in steps
    ensures s.m.conns == map[]
  {
    InvReached(s, steps);
    ClosedWhenCalled(s, steps);
    assert forall v :: v !in s.m.conns;
  }

  /**
   No leak across shutdown: once Close was called and every Close and acquire call
   has returned, every server process ever started has been closed, and its kill
   was issued exactly once. In no reachable state was it issued twice.
   */
  lemma NoLeak(s: State, steps: seq<Step>)
    requires Reached(s, steps)
    ensures forall c :: c in s.m.heap ==> s.m.heap[c].kills <= 1 && (s.m.heap[c].kills == 1 ==> s.m.heap[c].closed)
    ensures CloseCall in steps && s.closers == map[] && (forall a :: a in s.acquires ==> s.acquires[a].phase.Returned?) ==>
              forall c :: c in s.m.heap ==> s.m.heap[c].closed && s.m.heap[c].kills == 1
  {
    InvReached(s, steps);
    ClosedWhenCalled(s, steps);
    forall c | c in s.m.heap
      ensures s.m.heap[c].kills <= 1 && (s.m.heap[c].kills == 1 ==> s.m.heap[c].closed)
      ensures CloseCall in steps && s.closers == map[] && (forall a :: a in s.acquires ==> s.acquires[a].phase.Returned?) ==>
                s.m.heap[c].closed && s.m.heap[c].kills == 1
    {
      assert ConnOk(s, c);
      if s.holder[c] == InMap {
        assert ConnEntryOk(s, s.m.heap[c].vendor);
      }
    }
  }
}
