/**
 The state of the server manager (internal/opencode/server.go) and the regions
 that run under Servers.mu. C is the type of connection references, P that of
 spawn placeholders; ServersClass.dfy instantiates them with objects,
 ServersProtocol.dfy with numbers.
 */
module ServersCore {
  import opened Options

  /** A connection as close and alive see it; kills counts the kill steps issued for its process. */
  datatype Conn = Conn(vendor: string, closed: bool, exited: bool, kills: nat)

  /** A spawn placeholder: done once its channel is closed, with the connection if the spawn succeeded. */
  datatype Spawn<+C> = Spawn(done: bool, conn: Option<C>)

  datatype Manager<C, P> = Manager(
    conns: map<string, C>,
    pending: map<string, P>,
    closed: bool,
    heap: map<C, Conn>,
    spawns: map<P, Spawn<C>>)

  /** What acquire does after the first lock region. */
  datatype Entry<+C, +P> = Use(c: C) | Await(p: P) | Own

  predicate Alive(c: Conn) {
    !c.closed && !c.exited
  }

  /** serverConn.close run to its end: only the first call kills. */
  function Closed(c: Conn): Conn {
    if c.closed then c else c.(closed := true, kills := c.kills + 1)
  }

  /** The first lock region of acquire, up to the new placeholder when the call is to own the spawn. */
  ghost function EnterRegion<C, P>(m: Manager<C, P>, id: string): (Manager<C, P>, Entry<C, P>)
    requires id in m.conns ==> m.conns[id] in m.heap
  {
    if id in m.conns && Alive(m.heap[m.conns[id]]) then
      (m, Use(m.conns[id]))
    else
      var m1 := if id in m.conns
                then m.(heap := m.heap[m.conns[id] := Closed(m.heap[m.conns[id]])], conns := m.conns - {id})
                else m;
      (m1, if id in m1.pending then Await(m1.pending[id]) else Own)
  }

  /** The owner's placeholder, published in the same region. */
  ghost function AddPlaceholder<C, P>(m: Manager<C, P>, id: string, p: P): Manager<C, P> {
    m.(pending := m.pending[id := p], spawns := m.spawns[p := Spawn(false, None)])
  }

  /** The second lock region of acquire: publish what the spawn returned. */
  ghost function PublishRegion<C, P>(m: Manager<C, P>, id: string, p: P, spawned: Option<C>): (Manager<C, P>, Option<C>)
    requires spawned.Some? ==> spawned.value in m.heap
  {
    var m1 := m.(pending := m.pending - {id});
    var (m2, result) :=
      if spawned.Some? && m.closed then
        (m1.(heap := m1.heap[spawned.value := Closed(m1.heap[spawned.value])]), None)
      else if spawned.Some? then
        (m1.(conns := m1.conns[id := spawned.value]), spawned)
      else
        (m1, None);
    (m2.(spawns := m2.spawns[p := Spawn(true, result)]), result)
  }

  /** The lock region of Close: the connections it takes out are closed after it. */
  ghost function CloseRegion<C, P>(m: Manager<C, P>): (Manager<C, P>, set<C>) {
    (m.(closed := true, conns := map[]), m.conns.Values)
  }
}
