/** What an acquire comes to: what it finds when it looks, and why it returns what it returns. */
module ServersOutcomes {
  import opened Options
  import opened ServersCore
  import opened ServersProtocol
  import opened ServersInvariants
  import opened ServersTheorems

  // ------------------------------------------------------------- exits

  /** A process is known to have exited exactly when it has. */
  ghost predicate ExitsKnown(s: State, steps: seq<Step>) {
    && (forall c :: c in s.m.heap ==> (s.m.heap[c].exited <==> Exit(c) in steps))
    && (forall c: nat :: c !in s.m.heap ==> Exit(c) !in steps)
  }

  /** No other step changes whether a process has exited; one that starts has not. */
  lemma ExitFrame(s: State, x: Step, c: nat)
    requires Enabled(s, x) && x != Exit(c) && (c == s.next ==> c !in s.m.heap)
    ensures var t := Apply(s, x);
            && (c in s.m.heap ==> c in t.m.heap && t.m.heap[c].exited == s.m.heap[c].exited)
            && (c !in s.m.heap && c in t.m.heap ==> !t.m.heap[c].exited)
  {
    if x.Enter? || x.Publish? {
      RegionExits(s, x, c);
    } else {
      RestExits(s, x, c);
    }
  }

  /** The connections are the same, and so is which of their processes have exited. */
  ghost predicate SameExits(m: Manager<nat, nat>, n: Manager<nat, nat>) {
    n.heap.Keys == m.heap.Keys && forall c :: c in m.heap ==> n.heap[c].exited == m.heap[c].exited
  }

  lemma EnterRegionExits(m: Manager<nat, nat>, id: string, p: nat)
    requires id in m.conns ==> m.conns[id] in m.heap
    ensures SameExits(m, EnterRegion(m, id).0) && SameExits(m, AddPlaceholder(EnterRegion(m, id).0, id, p))
  {
  }

  lemma PublishRegionExits(m: Manager<nat, nat>, id: string, p: nat, got: Option<nat>)
    requires got.Some? ==> got.value in m.heap
    ensures SameExits(m, PublishRegion(m, id, p, got).0)
  {
  }

  lemma RegionExits(s: State, x: Step, c: nat)
    requires Enabled(s, x) && (x.Enter? || x.Publish?)
    ensures SameExits(s.m, Apply(s, x).m)
  {
    if x.Enter? {
      EnterRegionExits(s.m, s.acquires[x.a].vendor, s.next);
      match EnterRegion(s.m, s.acquires[x.a].vendor).1
      case Use(_) =>
      case Await(_) =>
      case Own =>
    } else {
      PublishRegionExits(s.m, s.acquires[x.a].vendor, s.acquires[x.a].phase.p, s.acquires[x.a].phase.got);
    }
  }

  lemma RestExits(s: State, x: Step, c: nat)
    requires Enabled(s, x) && x != Exit(c) && !x.Enter? && !x.Publish? && (c == s.next ==> c !in s.m.heap)
    ensures var t := Apply(s, x);
            && (c in s.m.heap ==> c in t.m.heap && t.m.heap[c].exited == s.m.heap[c].exited)
            && (c !in s.m.heap && c in t.m.heap ==> !t.m.heap[c].exited)
  {
  }

  lemma ExitsStep(s: State, steps: seq<Step>, x: Step)
    requires Inv(s) && ExitsKnown(s, steps) && Enabled(s, x)
    ensures ExitsKnown(Apply(s, x), steps + [x])
  {
    var t := Apply(s, x);
    forall c: nat
      ensures c in t.m.heap ==> (t.m.heap[c].exited <==> Exit(c) in steps + [x])
      ensures c !in t.m.heap ==> Exit(c) !in steps + [x]
    {
      assert s.next in s.m.heap ==> ConnOk(s, s.next);
      if x != Exit(c) {
        ExitFrame(s, x, c);
      }
    }
  }

  lemma {:induction false} ExitsRun(s: State, past: seq<Step>, steps: seq<Step>, t: State)
    requires Inv(s) && ExitsKnown(s, past) && IsRun(s, steps, t)
    ensures ExitsKnown(t, past + steps)
    decreases |steps|
  {
    if steps == [] {
      assert past + steps == past;
    } else {
      InvStep(s, steps[0]);
      ExitsStep(s, past, steps[0]);
      ExitsRun(Apply(s, steps[0]), past + [steps[0]], steps[1..], t);
      assert past + steps == past + [steps[0]] + steps[1..];
    }
  }

  // ------------------------------------------------------------- looking

  /** The call has become the owner of a new placeholder for its vendor. */
  predicate NowOwns(s: State, t: State, a: nat, v: string) {
    && a in t.acquires && t.acquires[a].phase.Spawning?
    && v in t.m.pending && t.m.pending[v] == t.acquires[a].phase.p
    && t.acquires[a].phase.p !in s.m.spawns
  }

  /** The call returns the cached connection of v, which is open and whose process runs; nothing else changes. */
  predicate FindsServer(s: State, t: State, a: nat, v: string)
    requires v in s.m.conns
  {
    && a in t.acquires && t.acquires[a].phase == Returned(Some(s.m.conns[v]))
    && t.m == s.m && s.m.conns[v] in s.m.heap && s.m.heap[s.m.conns[v]] == Conn(v, false, false, 0)
  }

  /** The cached connection of v is closed, killed once and out of the map, and the call owns the spawn of its successor. */
  predicate ReplacesServer(s: State, t: State, a: nat, v: string)
    requires v in s.m.conns
  {
    && v !in t.m.conns
    && t.m.heap == s.m.heap[s.m.conns[v] := Conn(v, true, true, 1)]
    && NowOwns(s, t, a, v)
  }

  /**
   What acquire finds when it looks, in every reachable state: it returns the cached
   connection if and only if there is one whose process has not exited, and that one
   is open; one whose process has exited is closed, killed once and taken out, and the
   call spawns; with none cached, the call waits if a spawn is under way and otherwise
   spawns.
   */
  lemma EnterOutcome(s: State, steps: seq<Step>, a: nat)
    requires Reached(s, steps) && a in s.acquires && s.acquires[a].phase == AtTop
    ensures Enabled(s, Enter(a))
    ensures var v, t := s.acquires[a].vendor, Apply(s, Enter(a));
            && a in t.acquires
            && (t.acquires[a].phase.Returned? <==> v in s.m.conns && Exit(s.m.conns[v]) !in steps)
            && (v in s.m.conns && Exit(s.m.conns[v]) !in steps ==> FindsServer(s, t, a, v))
            && (v in s.m.conns && Exit(s.m.conns[v]) in steps ==> ReplacesServer(s, t, a, v))
            && (v !in s.m.conns && v in s.m.pending ==> t.m == s.m && t.acquires[a].phase == Waiting(s.m.pending[v]))
            && (v !in s.m.conns && v !in s.m.pending ==> t.m.heap == s.m.heap && NowOwns(s, t, a, v))
  {
    InvReached(s, steps);
    assert Inv(Idle()) && ExitsKnown(Idle(), []);
    ExitsRun(Idle(), [], steps, s);
    assert [] + steps == steps;
    NextIsNew(s);
    if s.acquires[a].vendor in s.m.conns {
      LookCached(s, a, s.m.conns[s.acquires[a].vendor]);
    } else {
      LookUncached(s, a);
    }
  }

  lemma LookCached(s: State, a: nat, c: nat)
    requires Inv(s) && s.next !in s.m.spawns && a in s.acquires && s.acquires[a].phase == AtTop
    requires s.acquires[a].vendor in s.m.conns && s.m.conns[s.acquires[a].vendor] == c
    ensures Enabled(s, Enter(a)) && c in s.m.heap
    ensures var v, t := s.acquires[a].vendor, Apply(s, Enter(a));
            if s.m.heap[c].exited then ReplacesServer(s, t, a, v) else FindsServer(s, t, a, v)
  {
    var v := s.acquires[a].vendor;
    assert ConnEntryOk(s, v);
    assert ConnOk(s, c);
    if s.m.heap[c].exited {
      EnterReplaces(s, a);
    } else {
      EnterUses(s, a, c);
    }
  }

  lemma LookUncached(s: State, a: nat)
    requires s.next !in s.m.spawns && a in s.acquires && s.acquires[a].phase == AtTop && s.acquires[a].vendor !in s.m.conns
    ensures Enabled(s, Enter(a))
    ensures var v, t := s.acquires[a].vendor, Apply(s, Enter(a));
            && a in t.acquires && !t.acquires[a].phase.Returned?
            && (v in s.m.pending ==> t.m == s.m && t.acquires[a].phase == Waiting(s.m.pending[v]))
            && (v !in s.m.pending ==> t.m.heap == s.m.heap && NowOwns(s, t, a, v))
  {
    if s.acquires[a].vendor in s.m.pending {
      EnterAwaits(s, a);
    } else {
      EnterOwns(s, a);
    }
  }

  // ------------------------------------------------------------- returning

  /** Call a's own spawn came to nothing: no process, an unhealthy one, or one that was healthy too late. */
  predicate SpawnFailed(steps: seq<Step>, a: nat) {
    SpawnFails(a) in steps || Unhealthy(a) in steps || (Healthy(a) in steps && CloseCall in steps)
  }

  /** None of the steps that decide what call a returns has been taken. */
  predicate Undecided(steps: seq<Step>, a: nat) {
    SpawnFails(a) !in steps && Unhealthy(a) !in steps && Healthy(a) !in steps && WaitCancelled(a) !in steps
  }

  /** The call returned nothing, and why. */
  predicate ReturnedNothing(s: State, steps: seq<Step>, a: nat)
    requires a in s.acquires
  {
    WaitCancelled(a) in steps || SpawnFailed(steps, a)
    || exists b :: b in s.acquires && b != a && s.acquires[b].vendor == s.acquires[a].vendor
                   && s.acquires[b].phase == Returned(None) && SpawnFailed(steps, b)
  }

  ghost predicate CallTale(s: State, steps: seq<Step>, a: nat)
    requires a in s.acquires
  {
    match s.acquires[a].phase
    case Killing(_, _) => Unhealthy(a) in steps && Healthy(a) !in steps && WaitCancelled(a) !in steps
    case Publishing(_, None) =>
      (SpawnFails(a) in steps || Unhealthy(a) in steps) && Healthy(a) !in steps && WaitCancelled(a) !in steps
    case Publishing(_, Some(_)) =>
      Healthy(a) in steps && SpawnFails(a) !in steps && Unhealthy(a) !in steps && WaitCancelled(a) !in steps
    case Returned(None) => ReturnedNothing(s, steps, a) && (Healthy(a) in steps ==> CloseCall in steps)
    case Returned(Some(_)) => SpawnFails(a) !in steps && Unhealthy(a) !in steps && WaitCancelled(a) !in steps
    case _ => Undecided(steps, a)
  }

  /** A placeholder that is done holds what its owner returned; one that came to nothing did so because the spawn failed. */
  ghost predicate SpawnTale(s: State, steps: seq<Step>, p: nat)
    requires p in s.m.spawns
  {
    && p in s.owner && s.owner[p] in s.acquires
    && (s.m.spawns[p].done ==>
          && s.acquires[s.owner[p]].phase == Returned(s.m.spawns[p].conn)
          && (s.m.spawns[p].conn.None? ==> SpawnFailed(steps, s.owner[p])))
  }

  ghost predicate WaitTale(s: State, a: nat)
    requires a in s.acquires
  {
    s.acquires[a].phase.Waiting? ==>
      var p := s.acquires[a].phase.p;
      p in s.m.spawns && p in s.owner && s.owner[p] in s.acquires && s.acquires[s.owner[p]].vendor == s.acquires[a].vendor
  }

  ghost predicate Tale(s: State, steps: seq<Step>) {
    && (forall a :: a in s.acquires ==> CallTale(s, steps, a) && WaitTale(s, a))
    && (forall a: nat :: a !in s.acquires ==> Undecided(steps, a))
    && (forall p :: p in s.m.spawns ==> SpawnTale(s, steps, p))
    && (s.m.closed <==> CloseCall in steps)
  }

  predicate OfCall(step: Step, a: nat) {
    match step
    case Enter(b) => b == a
    case WaitDone(b) => b == a
    case WaitCancelled(b) => b == a
    case SpawnFails(b) => b == a
    case SpawnStarts(b) => b == a
    case Healthy(b) => b == a
    case Unhealthy(b) => b == a
    case KillUnhealthy(b) => b == a
    case Publish(b) => b == a
    case _ => false
  }

  /** What no step takes back: calls keep their vendor, those that are not the step's stay where they are, and what is done stays done. */
  ghost predicate Carries(s: State, t: State, step: Step) {
    && (forall b :: b in s.acquires ==> b in t.acquires && t.acquires[b].vendor == s.acquires[b].vendor)
    && (forall b :: b in s.acquires && (s.acquires[b].phase.Returned? || !OfCall(step, b)) ==> t.acquires[b] == s.acquires[b])
    && (forall b :: b in t.acquires && b !in s.acquires ==> t.acquires[b].phase == AtTop)
    && (forall p :: p in s.m.spawns ==> p in t.m.spawns && (s.m.spawns[p].done ==> t.m.spawns[p] == s.m.spawns[p]))
    && (forall p :: p in s.m.spawns && p in s.owner ==> p in t.owner && t.owner[p] == s.owner[p])
  }

  /** Only call a moves, and a placeholder is added or none is touched. */
  lemma EnterShape(s: State, a: nat)
    requires Enabled(s, Enter(a))
    ensures var t := DoEnter(s, a);
            && a in t.acquires && t.acquires == s.acquires[a := t.acquires[a]] && t.acquires[a].vendor == s.acquires[a].vendor
            && ((t.m.spawns == s.m.spawns && t.owner == s.owner)
                || (t.m.spawns == s.m.spawns[s.next := Spawn(false, None)] && t.owner == s.owner[s.next := a]))
  {
    EntryShape(s.m, s.acquires[a].vendor);
    match EnterRegion(s.m, s.acquires[a].vendor).1
    case Use(c) =>
    case Await(p) =>
    case Own =>
  }

  lemma EntryShape(m: Manager<nat, nat>, id: string)
    requires id in m.conns ==> m.conns[id] in m.heap
    ensures EnterRegion(m, id).0.spawns == m.spawns
  {
  }

  lemma EnterCarries(s: State, a: nat)
    requires Enabled(s, Enter(a)) && forall p :: p in s.m.spawns ==> p < s.next
    ensures Carries(s, DoEnter(s, a), Enter(a))
  {
    EnterShape(s, a);
  }

  lemma PublishCarries(s: State, a: nat)
    requires Inv(s) && Enabled(s, Publish(a))
    ensures Carries(s, DoPublish(s, a), Publish(a))
  {
    assert AcquireOk(s, a);
    assert PendingOk(s, s.acquires[a].vendor);
  }

  /** The steps of an acquire outside its lock regions. */
  predicate OfSpawn(step: Step) {
    step.WaitDone? || step.WaitCancelled? || step.SpawnFails? || step.SpawnStarts? || step.Healthy? || step.Unhealthy? || step.KillUnhealthy?
  }

  lemma SpawnShape(s: State, step: Step)
    requires Enabled(s, step) && OfSpawn(step)
    ensures var t, a := Apply(s, step), step.a;
            && t.m.spawns == s.m.spawns && t.owner == s.owner
            && a in t.acquires && t.acquires == s.acquires[a := t.acquires[a]] && t.acquires[a].vendor == s.acquires[a].vendor
            && !s.acquires[a].phase.Returned?
  {
    match step
    case WaitDone(_) =>
    case Unhealthy(_) =>
    case KillUnhealthy(_) =>
    case SpawnStarts(_) =>
    case _ =>
  }

  lemma RestShape(s: State, step: Step)
    requires Enabled(s, step) && !OfSpawn(step) && !step.Enter? && !step.Publish?
    ensures var t := Apply(s, step);
            && t.m.spawns == s.m.spawns && t.owner == s.owner
            && t.acquires == if step.Call? then s.acquires[s.next := Acquire(step.vendor, AtTop)] else s.acquires
  {
  }

  lemma RestCarries(s: State, step: Step)
    requires Enabled(s, step) && !step.Enter? && !step.Publish? && s.next !in s.acquires
    ensures Carries(s, Apply(s, step), step)
  {
    if OfSpawn(step) {
      SpawnShape(s, step);
    } else {
      RestShape(s, step);
    }
  }

  lemma NextIsNew(s: State)
    requires Inv(s)
    ensures s.next !in s.acquires && forall p :: p in s.m.spawns ==> p < s.next
  {
    assert s.next in s.acquires ==> AcquireOk(s, s.next);
  }

  lemma StepCarries(s: State, step: Step)
    requires Inv(s) && Enabled(s, step)
    ensures Carries(s, Apply(s, step), step)
  {
    NextIsNew(s);
    if step.Enter? {
      EnterCarries(s, step.a);
    } else if step.Publish? {
      PublishCarries(s, step.a);
    } else {
      RestCarries(s, step);
    }
  }

  lemma FailedStays(past: seq<Step>, x: Step, a: nat)
    requires SpawnFailed(past, a)
    ensures SpawnFailed(past + [x], a)
  {
  }

  lemma NothingStays(s: State, past: seq<Step>, t: State, x: Step, a: nat)
    requires Carries(s, t, x) && a in s.acquires && ReturnedNothing(s, past, a)
    ensures ReturnedNothing(t, past + [x], a)
  {
    if SpawnFailed(past, a) {
      FailedStays(past, x, a);
    } else if WaitCancelled(a) !in past {
      var b :| b in s.acquires && b != a && s.acquires[b].vendor == s.acquires[a].vendor
               && s.acquires[b].phase == Returned(None) && SpawnFailed(past, b);
      FailedStays(past, x, b);
    }
  }

  /** A call whose turn it is not. */
  lemma OtherTale(s: State, past: seq<Step>, t: State, x: Step, a: nat)
    requires Carries(s, t, x) && a in s.acquires && CallTale(s, past, a) && WaitTale(s, a) && !OfCall(x, a)
    ensures CallTale(t, past + [x], a) && WaitTale(t, a)
  {
    if s.acquires[a].phase == Returned(None) {
      NothingStays(s, past, t, x, a);
    }
  }

  lemma EnterTale(s: State, past: seq<Step>, a: nat)
    requires Inv(s) && Enabled(s, Enter(a)) && CallTale(s, past, a)
    requires forall p :: p in s.m.spawns ==> p in s.owner
    ensures CallTale(DoEnter(s, a), past + [Enter(a)], a) && WaitTale(DoEnter(s, a), a)
  {
    var v := s.acquires[a].vendor;
    assert v in s.m.pending ==> PendingOk(s, v);
  }

  lemma WaitDoneTale(s: State, past: seq<Step>, a: nat)
    requires Enabled(s, WaitDone(a)) && CallTale(s, past, a) && WaitTale(s, a) && SpawnTale(s, past, s.acquires[a].phase.p)
    ensures var t := Apply(s, WaitDone(a)); CallTale(t, past + [WaitDone(a)], a) && WaitTale(t, a)
  {
    var x, b := WaitDone(a), s.owner[s.acquires[a].phase.p];
    var t := Apply(s, x);
    if t.acquires[a].phase == Returned(None) {
      FailedStays(past, x, b);
      assert t.acquires[b].phase == Returned(None);
    }
  }

  lemma PublishTale(s: State, past: seq<Step>, a: nat)
    requires Enabled(s, Publish(a)) && CallTale(s, past, a) && (s.m.closed <==> CloseCall in past)
    ensures var t, p := DoPublish(s, a), s.acquires[a].phase.p;
            && CallTale(t, past + [Publish(a)], a) && WaitTale(t, a)
            && t.m.spawns == s.m.spawns[p := t.m.spawns[p]]
            && t.acquires[a].phase == Returned(t.m.spawns[p].conn)
            && (t.m.spawns[p].conn.None? ==> SpawnFailed(past + [Publish(a)], a))
  {
  }

  lemma SpawnStepTale(s: State, past: seq<Step>, x: Step, a: nat)
    requires Enabled(s, x) && OfCall(x, a) && CallTale(s, past, a) && !x.Enter? && !x.WaitDone? && !x.Publish?
    ensures CallTale(Apply(s, x), past + [x], a) && WaitTale(Apply(s, x), a)
  {
  }

  lemma OwnTale(s: State, past: seq<Step>, x: Step, a: nat)
    requires Inv(s) && Tale(s, past) && Enabled(s, x) && OfCall(x, a)
    ensures CallTale(Apply(s, x), past + [x], a) && WaitTale(Apply(s, x), a)
  {
    assert a in s.acquires && CallTale(s, past, a) && WaitTale(s, a);
    forall p | p in s.m.spawns ensures p in s.owner { assert SpawnTale(s, past, p); }
    if x.Enter? {
      EnterTale(s, past, a);
    } else if x.WaitDone? {
      assert SpawnTale(s, past, s.acquires[a].phase.p);
      WaitDoneTale(s, past, a);
    } else if x.Publish? {
      PublishTale(s, past, a);
    } else {
      SpawnStepTale(s, past, x, a);
    }
  }

  /** A placeholder that the step does not finish. */
  lemma OtherSpawnTale(s: State, past: seq<Step>, t: State, x: Step, p: nat)
    requires Carries(s, t, x) && p in s.m.spawns && SpawnTale(s, past, p) && t.m.spawns[p] == s.m.spawns[p]
    ensures SpawnTale(t, past + [x], p)
  {
    if s.m.spawns[p].done && s.m.spawns[p].conn.None? {
      FailedStays(past, x, s.owner[p]);
    }
  }

  lemma SpawnsTale(s: State, past: seq<Step>, x: Step, p: nat)
    requires Inv(s) && Tale(s, past) && Enabled(s, x) && Carries(s, Apply(s, x), x) && p in Apply(s, x).m.spawns
    ensures SpawnTale(Apply(s, x), past + [x], p)
  {
    var t := Apply(s, x);
    if x.Publish? && p == s.acquires[x.a].phase.p {
      assert CallTale(s, past, x.a) && AcquireOk(s, x.a);
      PublishTale(s, past, x.a);
      assert PendingOk(s, s.acquires[x.a].vendor);
    } else {
      NextIsNew(s);
      SpawnsFrame(s, x, p);
      if p in s.m.spawns {
        assert SpawnTale(s, past, p);
        OtherSpawnTale(s, past, t, x, p);
      }
    }
  }

  /** Only Publish finishes a placeholder, and only Enter makes one. */
  lemma SpawnsFrame(s: State, x: Step, p: nat)
    requires Enabled(s, x) && p in Apply(s, x).m.spawns && !(x.Publish? && p == s.acquires[x.a].phase.p)
    requires s.next !in s.m.spawns
    ensures var t := Apply(s, x);
            if p in s.m.spawns then t.m.spawns[p] == s.m.spawns[p]
            else p in t.owner && t.owner[p] in t.acquires && !t.m.spawns[p].done
  {
    if x.Enter? {
      EnterShape(s, x.a);
    } else if x.Publish? {
      PublishShape(s, x.a);
    } else if OfSpawn(x) {
      SpawnShape(s, x);
    } else {
      RestShape(s, x);
    }
  }

  lemma PublishShape(s: State, a: nat)
    requires Enabled(s, Publish(a))
    ensures var t, p := DoPublish(s, a), s.acquires[a].phase.p; p in t.m.spawns && t.m.spawns == s.m.spawns[p := t.m.spawns[p]]
  {
  }

  lemma TaleStep(s: State, past: seq<Step>, x: Step)
    requires Inv(s) && Tale(s, past) && Enabled(s, x)
    ensures Tale(Apply(s, x), past + [x])
  {
    var t := Apply(s, x);
    StepCarries(s, x);
    ClosedStep(s, x);
    forall a | a in t.acquires ensures CallTale(t, past + [x], a) && WaitTale(t, a) {
      if OfCall(x, a) {
        OwnTale(s, past, x, a);
      } else if a in s.acquires {
        assert CallTale(s, past, a) && WaitTale(s, a);
        OtherTale(s, past, t, x, a);
      } else {
        assert Undecided(past, a);
      }
    }
    forall a: nat | a !in t.acquires ensures Undecided(past + [x], a) {
      assert a !in s.acquires;
    }
    forall p | p in t.m.spawns ensures SpawnTale(t, past + [x], p) {
      SpawnsTale(s, past, x, p);
    }
  }

  lemma {:induction false} TaleRun(s: State, past: seq<Step>, steps: seq<Step>, t: State)
    requires Inv(s) && Tale(s, past) && IsRun(s, steps, t)
    ensures Tale(t, past + steps)
    decreases |steps|
  {
    if steps == [] {
      assert past + steps == past;
    } else {
      InvStep(s, steps[0]);
      TaleStep(s, past, steps[0]);
      TaleRun(Apply(s, steps[0]), past + [steps[0]], steps[1..], t);
      assert past + steps == past + [steps[0]] + steps[1..];
    }
  }

  lemma TaleReached(s: State, steps: seq<Step>)
    requires Reached(s, steps)
    ensures Inv(s) && Tale(s, steps)
  {
    InvReached(s, steps);
    assert Inv(Idle()) && Tale(Idle(), []);
    TaleRun(Idle(), [], steps, s);
    assert [] + steps == steps;
  }

  /**
   Why an acquire returns nothing, over every run: its wait was cancelled, its own
   spawn failed, or it waited for a call of the same vendor whose spawn failed. A
   spawn fails if no process starts, if the process is not healthy, or if it is but
   Close was called. And a call that was cancelled or whose spawn failed never
   returns a connection.
   */
  lemma AcquireOutcome(s: State, steps: seq<Step>, a: nat)
    requires Reached(s, steps) && a in s.acquires && s.acquires[a].phase.Returned?
    ensures s.acquires[a].phase == Returned(None) ==> ReturnedNothing(s, steps, a)
    ensures WaitCancelled(a) in steps || SpawnFails(a) in steps || Unhealthy(a) in steps ==> s.acquires[a].phase == Returned(None)
    ensures Healthy(a) in steps && CloseCall !in steps ==> s.acquires[a].phase.got.Some?
  {
    TaleReached(s, steps);
    assert CallTale(s, steps, a);
  }

  /**
   What a waiter does once the placeholder is done, in every reachable state: it
   looks again exactly when the call that owned it returned a connection, and
   otherwise returns nothing, as that call did.
   */
  lemma WaiterOutcome(s: State, steps: seq<Step>, a: nat)
    requires Reached(s, steps) && Enabled(s, WaitDone(a))
    ensures exists b :: WaitsFor(s, a, b)
    ensures forall b :: WaitsFor(s, a, b) ==>
              && s.acquires[b].phase.Returned? && s.acquires[b].vendor == s.acquires[a].vendor
              && Apply(s, WaitDone(a)).acquires[a].phase == if s.acquires[b].phase.got.Some? then AtTop else Returned(None)
  {
    TaleReached(s, steps);
    var p := s.acquires[a].phase.p;
    assert CallTale(s, steps, a) && WaitTale(s, a) && SpawnTale(s, steps, p);
    assert WaitsFor(s, a, s.owner[p]);
  }

  /** Call a waits on the placeholder that call b published. */
  predicate WaitsFor(s: State, a: nat, b: nat) {
    && a in s.acquires && s.acquires[a].phase.Waiting? && b in s.acquires
    && s.acquires[a].phase.p in s.owner && s.owner[s.acquires[a].phase.p] == b
  }

  /**
   What a spawn comes to: a healthy process is cached and returned, open, unless
   Close has been called; and then, as for an unhealthy one, the connection is
   closed and killed.
   */
  lemma PublishOutcome(s: State, steps: seq<Step>, a: nat, p: nat, c: nat)
    requires Reached(s, steps) && a in s.acquires && s.acquires[a].phase == Publishing(p, Some(c))
    ensures Enabled(s, Publish(a))
    ensures var v, t := s.acquires[a].vendor, Apply(s, Publish(a));
            && c in t.m.heap && v !in t.m.pending
            && (CloseCall !in steps ==>
                  && t.acquires[a].phase == Returned(Some(c)) && v in t.m.conns && t.m.conns[v] == c
                  && !t.m.heap[c].closed && t.m.heap[c].kills == 0)
            && (CloseCall in steps ==>
                  && t.acquires[a].phase == Returned(None) && t.m.conns == map[]
                  && t.m.heap[c].closed && t.m.heap[c].kills == 1)
  {
    TaleReached(s, steps);
    assert AcquireOk(s, a);
    assert ConnOk(s, c);
    if CloseCall in steps {
      EmptyAfterClose(s, steps);
    }
  }
}
