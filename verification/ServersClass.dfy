/** Servers (internal/opencode/server.go): the maps and the flag that acquire and Close update under the lock. */
module ServersClass {
  import opened Options
  import Core = ServersCore
  import opened ClientClass

  function OptionOf(c: ServerConn?): Option<ServerConn> {
    if c == null then None else Some(c)
  }

  /** done stands for the placeholder's closed channel. */
  class PendingSpawn {
    var done: bool
    var conn: ServerConn?

    constructor ()
      ensures !done && conn == null
    {
      done, conn := false, null;
    }

    ghost function View(): Core.Spawn<ServerConn>
      reads this
    {
      Core.Spawn(done, OptionOf(conn))
    }
  }

  class Servers {
    var conns: map<string, ServerConn>
    var pending: map<string, PendingSpawn>
    var closed: bool
    ghost var all: set<ServerConn>
    ghost var spawns: set<PendingSpawn>

    constructor ()
      ensures Valid() && View() == Core.Manager(map[], map[], false, map[], map[])
    {
      conns, pending, closed, all, spawns := map[], map[], false, {}, {};
    }

    ghost predicate Valid()
      reads this, all
    {
      && conns.Values <= all
      && pending.Values <= spawns
      && (forall c :: c in all ==> c.Valid())
    }

    ghost function View(): Core.Manager<ServerConn, PendingSpawn>
      reads this, all, spawns
    {
      Core.Manager(conns, pending, closed, map c | c in all :: c.View(), map p | p in spawns :: p.View())
    }

    /** The cached connection if it is alive; a dead one is closed and taken out. */
    method Cached(id: string) returns (conn: ServerConn?)
      requires Valid()
      modifies this`conns, conns.Values
      ensures Valid()
      ensures id in old(conns) ==> old(conns)[id] in old(all)
      ensures conn != null <==> id in old(conns) && old(!conns[id].closed && !conns[id].exited)
      ensures conn != null ==> conn == old(conns)[id] && View() == old(View())
      ensures conn == null ==>
                if id in old(conns)
                then
                  var c, m := old(conns)[id], old(View());
                  View() == m.(heap := m.heap[c := Core.Closed(m.heap[c])], conns := m.conns - {id})
                else View() == old(View())
    {
      if id !in conns {
        return null;
      }
      conn := conns[id];
      assert conn in conns.Values;
      var alive := conn.IsAlive();
      if !alive {
        conn.Close();
        conns := conns - {id};
        assert View().heap == old(View()).heap[conn := conn.View()];
        conn := null;
      }
    }

    /** acquire's first lock region; p is the new placeholder when the call is to own the spawn. */
    method Enter(id: string) returns (entry: Core.Entry<ServerConn, PendingSpawn>, p: PendingSpawn?)
      requires Valid()
      modifies this`conns, this`pending, this`spawns, conns.Values
      ensures Valid()
      ensures id in old(conns) ==> old(conns)[id] in old(all)
      ensures entry == Core.EnterRegion(old(View()), id).1
      ensures entry.Own? <==> p != null
      ensures p == null ==> View() == Core.EnterRegion(old(View()), id).0
      ensures p != null ==> fresh(p) && View() == Core.AddPlaceholder(Core.EnterRegion(old(View()), id).0, id, p)
    {
      var conn := Cached(id);
      if conn != null {
        return Core.Use(conn), null;
      }
      if id in pending {
        return Core.Await(pending[id]), null;
      }
      p := NewPlaceholder(id);
      entry := Core.Own;
    }

    method NewPlaceholder(id: string) returns (p: PendingSpawn)
      requires Valid()
      modifies this`pending, this`spawns
      ensures Valid() && fresh(p) && View() == Core.AddPlaceholder(old(View()), id, p)
    {
      p := new PendingSpawn();
      pending := pending[id := p];
      spawns := spawns + {p};
      assert View().spawns == old(View()).spawns[p := Core.Spawn(false, None)];
    }

    /** acquire's second lock region: take the placeholder down, cache or discard the connection, wake the waiters. */
    method Publish(id: string, p: PendingSpawn, spawned: ServerConn?) returns (result: ServerConn?)
      requires Valid() && p in spawns && (spawned != null ==> spawned in all)
      modifies this`conns, this`pending, p, spawned
      ensures Valid()
      ensures (View(), OptionOf(result)) == Core.PublishRegion(old(View()), id, p, OptionOf(spawned))
    {
      result := spawned;
      pending := pending - {id};
      ghost var m1 := View();
      assert m1 == old(View()).(pending := old(pending) - {id});
      if result != null {
        result := CacheOrClose(id, result);
      }
      ghost var m2 := View();
      Wake(p, result);
      assert View() == m2.(spawns := m2.spawns[p := Core.Spawn(true, OptionOf(result))]);
    }

    /** The waiters see the outcome and the closed channel. */
    method Wake(p: PendingSpawn, result: ServerConn?)
      requires Valid() && p in spawns
      modifies p
      ensures Valid()
      ensures View() == old(View()).(spawns := old(View()).spawns[p := Core.Spawn(true, OptionOf(result))])
    {
      p.conn := result;
      p.done := true;
      assert View().spawns == old(View()).spawns[p := p.View()];
    }

    /** A spawned connection is cached, or closed when the manager shut down meanwhile. */
    method CacheOrClose(id: string, conn: ServerConn) returns (result: ServerConn?)
      requires Valid() && conn in all
      modifies this`conns, conn
      ensures Valid()
      ensures closed ==>
                result == null && View() == old(View()).(heap := old(View()).heap[conn := Core.Closed(old(conn.View()))])
      ensures !closed ==>
                result == conn && View() == old(View()).(conns := old(conns)[id := conn])
    {
      if closed {
        conn.Close();
        assert View().heap == old(View()).heap[conn := conn.View()];
        return null;
      }
      conns := conns[id := conn];
      return conn;
    }

    /** Close: the flag, an empty map, and then every connection that was in it closed. */
    method Close()
      requires Valid()
      modifies this`conns, this`closed, conns.Values
      ensures Valid() && closed && conns == map[] && pending == old(pending) && all == old(all)
      ensures forall c :: c in all ==> c.View() == if c in old(conns).Values then Core.Closed(old(c.View())) else old(c.View())
    {
      closed := true;
      var todo := conns.Values;
      ghost var done: set<ServerConn> := {};
      conns := map[];
      while todo != {}
        invariant todo !! done && todo + done == old(conns).Values
        invariant Valid() && closed && conns == map[]
        invariant forall c :: c in all ==> c.View() == if c in done then Core.Closed(old(c.View())) else old(c.View())
        decreases todo
      {
        var c :| c in todo;
        c.Close();
        todo := todo - {c};
        done := done + {c};
      }
      assert done == old(conns).Values;
    }
  }
}
