/**
 acquire, spawn and Close as a protocol: any number of calls interleave, one step
 per lock region, process event or kill.
 */
module ServersProtocol {
  import opened Options
  import opened ServersCore

  /** Where an acquire is (server.go:96-189). */
  datatype Phase =
    | AtTop                                // before the first lock region
    | Waiting(p: nat)                      // on another call's placeholder
    | Spawning(p: nat)                     // owns placeholder p, no process yet
    | Warming(p: nat, c: nat)              // process started, not healthy yet
    | Killing(p: nat, c: nat)              // unhealthy: closed flag set, kill not issued yet
    | Publishing(p: nat, got: Option<nat>) // spawn returned
    | Returned(got: Option<nat>)

  datatype Acquire = Acquire(vendor: string, phase: Phase)

  /** A Close call past its lock region: connections still to close, and the one marked but not killed. */
  datatype Closer = Closer(todo: set<nat>, marked: Option<nat>)

  /** Who will close a connection, as history: the map, the acquire that spawned it, a Close call, or it is gone. */
  datatype Holder = InMap | ByAcquire(a: nat) | ByCloser(k: nat) | Gone

  /** owner records which acquire published a placeholder; next numbers everything. */
  datatype State = State(
    m: Manager<nat, nat>,
    acquires: map<nat, Acquire>,
    closers: map<nat, Closer>,
    next: nat,
    owner: map<nat, nat>,
    holder: map<nat, Holder>)

  function Idle(): State {
    State(Manager(map[], map[], false, map[], map[]), map[], map[], 0, map[], map[])
  }

  datatype Step =
    | Call(vendor: string)
    | Enter(a: nat)
    | WaitDone(a: nat)
    | WaitCancelled(a: nat)
    | SpawnFails(a: nat)
    | SpawnStarts(a: nat)
    | Healthy(a: nat)
    | Unhealthy(a: nat)
    | KillUnhealthy(a: nat)
    | Publish(a: nat)
    | CloseCall
    | CloseMark(k: nat, c: nat)
    | CloseKill(k: nat)
    | CloseReturn(k: nat)
    | Exit(c: nat)

  ghost predicate Enabled(s: State, step: Step) {
    match step
    case Call(_) => true
    case Enter(a) =>
      && a in s.acquires && s.acquires[a].phase == AtTop
      && (s.acquires[a].vendor in s.m.conns ==> s.m.conns[s.acquires[a].vendor] in s.m.heap)
    case WaitDone(a) =>
      a in s.acquires && s.acquires[a].phase.Waiting? && s.acquires[a].phase.p in s.m.spawns && s.m.spawns[s.acquires[a].phase.p].done
    case WaitCancelled(a) => a in s.acquires && s.acquires[a].phase.Waiting?
    case SpawnFails(a) => a in s.acquires && s.acquires[a].phase.Spawning?
    case SpawnStarts(a) => a in s.acquires && s.acquires[a].phase.Spawning?
    case Healthy(a) => a in s.acquires && s.acquires[a].phase.Warming?
    case Unhealthy(a) => a in s.acquires && s.acquires[a].phase.Warming? && s.acquires[a].phase.c in s.m.heap
    case KillUnhealthy(a) => a in s.acquires && s.acquires[a].phase.Killing? && s.acquires[a].phase.c in s.m.heap
    case Publish(a) =>
      && a in s.acquires && s.acquires[a].phase.Publishing?
      && (s.acquires[a].phase.got.Some? ==> s.acquires[a].phase.got.value in s.m.heap)
    case CloseCall => true
    case CloseMark(k, c) => k in s.closers && s.closers[k].marked == None && c in s.closers[k].todo && c in s.m.heap
    case CloseKill(k) => k in s.closers && s.closers[k].marked.Some? && s.closers[k].marked.value in s.m.heap
    case CloseReturn(k) => k in s.closers && s.closers[k] == Closer({}, None)
    case Exit(c) => c in s.m.heap
  }

  function Move(s: State, a: nat, phase: Phase): State
    requires a in s.acquires
  {
    s.(acquires := s.acquires[a := Acquire(s.acquires[a].vendor, phase)])
  }

  function SetConn(s: State, c: nat, conn: Conn): State {
    s.(m := s.m.(heap := s.m.heap[c := conn]))
  }

  function Hold(s: State, c: nat, h: Holder): State {
    s.(holder := s.holder[c := h])
  }

  ghost function DoEnter(s: State, a: nat): State
    requires Enabled(s, Enter(a))
  {
    var v := s.acquires[a].vendor;
    var (m, entry) := EnterRegion(s.m, v);
    var s1 := s.(m := m, next := s.next + 1,
                 holder := if v in s.m.conns && v !in m.conns then s.holder[s.m.conns[v] := Gone] else s.holder);
    match entry
    case Use(c) => Move(s1, a, Returned(Some(c)))
    case Await(p) => Move(s1, a, Waiting(p))
    case Own => Move(s1, a, Spawning(s.next)).(m := AddPlaceholder(m, v, s.next), owner := s.owner[s.next := a])
  }

  ghost function DoPublish(s: State, a: nat): State
    requires Enabled(s, Publish(a))
  {
    var Acquire(v, Publishing(p, c)) := s.acquires[a];
    var (m, result) := PublishRegion(s.m, v, p, c);
    var s1 := Move(s.(m := m), a, Returned(result));
    if c.Some? then Hold(s1, c.value, if result.Some? then InMap else Gone) else s1
  }

  ghost function DoClose(s: State): State {
    var (m, taken) := CloseRegion(s.m);
    s.(m := m, next := s.next + 1, closers := s.closers[s.next := Closer(taken, None)],
       holder := map c | c in s.holder :: if c in taken then ByCloser(s.next) else s.holder[c])
  }

  ghost function DoMark(s: State, k: nat, c: nat): State
    requires Enabled(s, CloseMark(k, c))
  {
    var todo := s.closers[k].todo - {c};
    if s.m.heap[c].closed then s.(closers := s.closers[k := Closer(todo, None)])
    else SetConn(s.(closers := s.closers[k := Closer(todo, Some(c))]), c, s.m.heap[c].(closed := true))
  }

  ghost function DoUnhealthy(s: State, a: nat): State
    requires Enabled(s, Unhealthy(a))
  {
    var Warming(p, c) := s.acquires[a].phase;
    if s.m.heap[c].closed then Move(s, a, Publishing(p, None))
    else SetConn(Move(s, a, Killing(p, c)), c, s.m.heap[c].(closed := true))
  }

  ghost function Apply(s: State, step: Step): State
    requires Enabled(s, step)
  {
    match step
    case Call(v) => s.(acquires := s.acquires[s.next := Acquire(v, AtTop)], next := s.next + 1)
    case Enter(a) => DoEnter(s, a)
    case WaitDone(a) =>
      if s.m.spawns[s.acquires[a].phase.p].conn.None? then Move(s, a, Returned(None)) else Move(s, a, AtTop)
    case WaitCancelled(a) => Move(s, a, Returned(None))
    case SpawnFails(a) => Move(s, a, Publishing(s.acquires[a].phase.p, None))
    case SpawnStarts(a) =>
      Hold(SetConn(Move(s, a, Warming(s.acquires[a].phase.p, s.next)), s.next, Conn(s.acquires[a].vendor, false, false, 0)),
           s.next, ByAcquire(a)).(next := s.next + 1)
    case Healthy(a) => Move(s, a, Publishing(s.acquires[a].phase.p, Some(s.acquires[a].phase.c)))
    case Unhealthy(a) => DoUnhealthy(s, a)
    case KillUnhealthy(a) =>
      var Killing(p, c) := s.acquires[a].phase;
      Hold(SetConn(Move(s, a, Publishing(p, None)), c, s.m.heap[c].(kills := s.m.heap[c].kills + 1)), c, Gone)
    case Publish(a) => DoPublish(s, a)
    case CloseCall => DoClose(s)
    case CloseMark(k, c) => DoMark(s, k, c)
    case CloseKill(k) =>
      var c := s.closers[k].marked.value;
      Hold(SetConn(s.(closers := s.closers[k := Closer(s.closers[k].todo, None)]), c, s.m.heap[c].(kills := s.m.heap[c].kills + 1)), c, Gone)
    case CloseReturn(k) => s.(closers := s.closers - {k})
    case Exit(c) => SetConn(s, c, s.m.heap[c].(exited := true))
  }

  ghost predicate IsRun(s: State, steps: seq<Step>, t: State)
    decreases |steps|
  {
    if steps == [] then s == t
    else Enabled(s, steps[0]) && IsRun(Apply(s, steps[0]), steps[1..], t)
  }
}
