/**
 serverConn and sseListener (internal/opencode/client.go) as the objects they
 are: the listener registry, the bounded channels, and the closed and exited
 flags.
 */
module ClientClass {
  import opened Accumulator
  import Core = ServersCore
  import Stream

  /** A session's channel, holding at most cap events, and its sticky flag. */
  class SseListener {
    const cap: nat
    var ch: seq<Event>
    var dropped: bool

    constructor (cap: nat)
      ensures this.cap == cap && ch == [] && !dropped
    {
      this.cap := cap;
      ch, dropped := [], false;
    }

    /** What the stream protocol sees of this listener. */
    ghost predicate Shows(s: Stream.State)
      reads this`ch, this`dropped
    {
      s.cap == cap && s.chan == ch && s.dropped == dropped
    }

    /** The select in route: the event goes in, or the flag goes up. It never waits. */
    method Offer(ev: Event)
      requires |ch| <= cap
      modifies this
      ensures |ch| <= cap
      ensures old(|ch|) < cap ==> ch == old(ch) + [ev] && dropped == old(dropped)
      ensures old(|ch|) == cap ==> ch == old(ch) && dropped
      ensures forall s :: old(Shows(s)) && s.reader == Stream.Free ==> Shows(Stream.Offered(s, ev))
    {
      if |ch| < cap {
        ch := ch + [ev];
      } else {
        dropped := true;
      }
    }

    method Receive() returns (ev: Event)
      requires ch != []
      modifies this`ch
      ensures [ev] + ch == old(ch)
      ensures forall s :: old(Shows(s)) && s.taker == Stream.Looping ==>
                Shows(Stream.Apply(s, Stream.Take)) && Stream.Apply(s, Stream.Take).taker == Stream.Holding(ev)
    {
      ev := ch[0];
      ch := ch[1..];
    }
  }

  const CHANNEL_CAP: nat := 256

  class ServerConn {
    const vendor: string
    var closed: bool
    var exited: bool
    var cancelled: bool
    var kills: nat
    var listeners: map<string, SseListener>

    constructor (vendor: string)
      ensures this.vendor == vendor && View() == Core.Conn(vendor, false, false, 0) && listeners == map[] && !cancelled
    {
      this.vendor := vendor;
      closed, exited, cancelled, kills, listeners := false, false, false, 0, map[];
    }

    ghost function View(): Core.Conn
      reads this
    {
      Core.Conn(vendor, closed, exited, kills)
    }

    /** Cancelling the context is the last thing close and the reaper do, so it implies their flag. */
    ghost predicate Valid()
      reads this
    {
      cancelled ==> closed || exited
    }

    /** The channels stay within bounds and no two sessions share one. */
    ghost predicate Registry()
      reads this`listeners, listeners.Values
    {
      && (forall sid :: sid in listeners ==> |listeners[sid].ch| <= listeners[sid].cap)
      && (forall a, b :: a in listeners && b in listeners && a != b ==> listeners[a] != listeners[b])
    }

    method Subscribe(sid: string) returns (l: SseListener)
      requires Registry()
      modifies this`listeners
      ensures Registry() && fresh(l) && l.cap == 256 && l.ch == [] && !l.dropped
      ensures listeners == old(listeners)[sid := l]
    {
      l := new SseListener(CHANNEL_CAP);
      listeners := listeners[sid := l];
    }

    method Unsubscribe(sid: string)
      requires Registry()
      modifies this`listeners
      ensures Registry() && listeners == old(listeners) - {sid}
    {
      listeners := listeners - {sid};
    }

    /**
     route: only the listener of the event's session is touched, and the event is
     in its channel or its flag is up; an event of no registered session goes nowhere.
     */
    method Route(sid: string, ev: Event)
      requires Registry()
      modifies listeners.Values
      ensures Registry()
      ensures forall l :: l in listeners.Values && (sid == "" || sid !in listeners || l != listeners[sid]) ==>
                l.ch == old(l.ch) && l.dropped == old(l.dropped)
      ensures sid != "" && sid in listeners ==>
                var l := listeners[sid];
                if old(|l.ch|) < l.cap then l.ch == old(l.ch) + [ev] && l.dropped == old(l.dropped)
                else l.ch == old(l.ch) && l.dropped
      ensures sid != "" && sid in listeners ==>
                forall s :: old(listeners[sid].Shows(s)) && s.reader == Stream.Free ==> listeners[sid].Shows(Stream.Offered(s, ev))
    {
      if sid == "" {
        return;
      }
      if sid in listeners {
        assert listeners[sid] in listeners.Values;
        listeners[sid].Offer(ev);
      }
    }

    method IsAlive() returns (alive: bool)
      requires Valid()
      ensures alive <==> !closed && !exited
    {
      if cancelled {
        return false;
      }
      return !closed && !exited;
    }

    /** close: the first call stops the reader and kills the process, later ones do nothing. */
    method Close()
      requires Valid()
      modifies this`closed, this`cancelled, this`kills
      ensures Valid() && View() == Core.Closed(old(View()))
      ensures closed && kills == (if old(closed) then old(kills) else old(kills) + 1)
      ensures cancelled <==> old(cancelled) || !old(closed)
    {
      if closed {
        return;
      }
      closed := true;
      cancelled := true;
      kills := kills + 1;
    }

    /** The reaper, once the child process has exited. */
    method ChildExited()
      requires Valid()
      modifies this`exited, this`cancelled
      ensures Valid() && View() == old(View()).(exited := true) && cancelled
    {
      exited := true;
      cancelled := true;
    }
  }
}
