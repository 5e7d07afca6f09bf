/**
 One turn of Invoke (internal/opencode/invoker.go:100-285): what it consumes,
 what it hands back, and that what it hands back is what the turn owes.
 */
module Turn {
  import opened Options
  import opened Text
  import opened Accumulator
  import opened Reconcile
  import Stream
  import Delivery

  /** The text of an error: a status line, or what net/http or encoding/json reports; none of them is empty. */
  type ErrorText = s: string | s != "" witness "EOF"

  /** The outcome of the synchronous prompt. */
  datatype Send = Answered(msg: ApiMessage) | Failed(err: ErrorText)

  /** How the event loop ends: the send returned, or runCtx did (a deadline or a cancellation). */
  datatype Exit = SendReturned(send: Send) | ContextDone

  datatype Setup = Ready | NoServer(err: string) | NoSession(err: string)

  datatype Outcome = Success | Timeout | Crash

  datatype Result = Result(
    outcome: Outcome,
    assistantText: string,
    messages: seq<string>,
    streamed: bool,
    stderr: string,
    crashReason: string)

  /** The events up to and including the first session.idle, or all of them. */
  function ThroughIdle(evs: seq<Event>): seq<Event> {
    if evs == [] then []
    else if evs[0] == SessionIdle then [SessionIdle]
    else [evs[0]] + ThroughIdle(evs[1..])
  }

  /** The events of the whole turn: those of the loop, and those of the drain after a send that returned. */
  function Consumed(live: seq<Event>, tail: seq<Event>, sent: bool): seq<Event> {
    if !sent then live
    else if SessionIdle in live then live + tail
    else live + ThroughIdle(tail)
  }

  /**
   What a turn consumes, event by event: all that the loop took; and after a send
   that returned, everything at hand if the loop had seen idle, and otherwise
   everything up to and including the first idle.
   */
  lemma ConsumedReaches(live: seq<Event>, tail: seq<Event>, sent: bool)
    ensures Consumed(live, tail, sent) <= live + tail
    ensures forall i :: 0 <= i < |live + tail| ==> (i < |Consumed(live, tail, sent)| <==> TurnSees(live, tail, sent, i))
  {
    var c, through := Consumed(live, tail, sent), ThroughIdle(tail);
    ThroughIdlePrefix(tail);
    if sent && SessionIdle !in live {
      assert c == live + through;
      forall i | |live| <= i < |live + tail| ensures i < |c| <==> TurnSees(live, tail, sent, i) {
        var k := i - |live|;
        if k < |through| {
          assert forall j :: 0 <= j < k ==> tail[j] != SessionIdle;
        } else {
          assert SessionIdle in tail;
          assert tail[..k][|through| - 1] == through[|through| - 1];
        }
      }
    }
  }

  /** Event i of those that the loop took and those at hand after it is one that the turn takes. */
  predicate TurnSees(live: seq<Event>, tail: seq<Event>, sent: bool, i: nat)
    requires i < |live + tail|
  {
    i < |live| || (sent && (SessionIdle in live || SessionIdle !in tail[..i - |live|]))
  }

  lemma {:induction false} ThroughIdlePrefix(evs: seq<Event>)
    ensures ThroughIdle(evs) <= evs
    ensures SessionIdle !in evs ==> ThroughIdle(evs) == evs
    ensures SessionIdle in evs ==> ThroughIdle(evs) != [] && ThroughIdle(evs)[|ThroughIdle(evs)| - 1] == SessionIdle
    ensures forall i :: 0 <= i < |ThroughIdle(evs)| - 1 ==> evs[i] != SessionIdle
  {
    if evs != [] && evs[0] != SessionIdle {
      ThroughIdlePrefix(evs[1..]);
    }
  }

  /** The error that the first n events leave recorded. */
  function ErrorAll(evs: seq<Event>, n: nat): Option<string>
    requires n <= |evs|
  {
    if n == 0 then None else ErrorAfter(ErrorAll(evs, n - 1), evs[n - 1])
  }

  /** The error of a turn's events is that of the last one that has any. */
  lemma {:induction false} LastErrorStands(evs: seq<Event>, n: nat)
    requires n <= |evs|
    ensures ErrorAll(evs, n).None? <==> forall i :: 0 <= i < n ==> !HasError(evs[i])
    ensures forall i :: 0 <= i < n && HasError(evs[i]) && (forall j :: i < j < n ==> !HasError(evs[j])) ==>
              ErrorAll(evs, n) == Some(ErrorIn(evs[i]))
  {
    if n > 0 {
      LastErrorStands(evs, n - 1);
    }
  }

  /** The accumulator after all the events, with the flag that each one saw. */
  function FoldOf(evs: seq<Event>, lossy: seq<bool>): Acc
    requires |evs| <= |lossy|
  {
    HandleAll(evs, lossy, |evs|)
  }

  /** The accumulator once the turn is over: the events, then the list, or failing that the response. */
  function Collected(a: Acc, exit: Exit, list: Option<seq<ApiMessage>>): Acc {
    match exit
    case ContextDone => a
    case SendReturned(send) =>
      match list
      case Some(msgs) => ReconcileAll(a, msgs)
      case None =>
        if send.Answered? && send.msg.info.role == "assistant"
        then EmitText(a, send.msg.info.id, TextOf(send.msg.parts))
        else a
  }

  function FinalError(err: Option<string>, list: Option<seq<ApiMessage>>): Option<string> {
    if list.Some? then ErrorAfterList(err, list.value) else err
  }

  /** classifyFailure. */
  function FailureText(err: Option<string>, send: Send): string {
    JoinedLines(
      (if err.Some? then ["session error: " + err.value] else [])
      + (if send.Failed? then [send.err] else [])
      + (if send.Answered? && send.msg.info.error.Some? then ["message error: " + send.msg.info.error.value] else []))
  }

  /** The error text of a turn that consumed evs; a turn that did not get its response reports none. */
  function TurnError(evs: seq<Event>, exit: Exit, list: Option<seq<ApiMessage>>): string {
    match exit
    case ContextDone => ""
    case SendReturned(send) => FailureText(FinalError(ErrorAll(evs, |evs|), list), send)
  }

  /** A turn counts as failed exactly when something failed: a failed send, or an error recorded anywhere, is always noticed. */
  lemma FailureNoticed(err: Option<string>, send: Send)
    ensures FailureText(err, send) == "" <==> err.None? && send.Answered? && send.msg.info.error.None?
  {
  }

  lemma JoinOne(x: string)
    ensures JoinedLines([x]) == x
  {
  }

  lemma JoinTwo(x: string, y: string)
    ensures JoinedLines([x, y]) == x + "\n" + y
  {
    assert [x, y][1..] == [y];
  }

  /** What the failure text says: the session's error, then that of the send or of the response, one a line. */
  lemma FailureReads(err: Option<string>, send: Send)
    ensures send.Failed? ==>
              FailureText(err, send) == if err.None? then send.err else "session error: " + err.value + "\n" + send.err
    ensures send.Answered? && send.msg.info.error.None? ==>
              FailureText(err, send) == if err.None? then "" else "session error: " + err.value
    ensures send.Answered? && send.msg.info.error.Some? ==>
              FailureText(err, send) ==
                if err.None? then "message error: " + send.msg.info.error.value
                else "session error: " + err.value + "\n" + ("message error: " + send.msg.info.error.value)
  {
    var x := if err.Some? then "session error: " + err.value else "";
    var y := match send
             case Failed(e) => e
             case Answered(m) => if m.info.error.Some? then "message error: " + m.info.error.value else "";
    JoinOne(x);
    JoinOne(y);
    JoinTwo(x, y);
    FailureParts(err, send, x, y);
  }

  lemma FailureParts(err: Option<string>, send: Send, x: string, y: string)
    requires err.Some? ==> x == "session error: " + err.value
    requires send.Failed? ==> y == send.err
    requires send.Answered? && send.msg.info.error.Some? ==> y == "message error: " + send.msg.info.error.value
    ensures var said := send.Failed? || send.msg.info.error.Some?;
            FailureText(err, send) == JoinedLines(if err.Some? then if said then [x, y] else [x] else if said then [y] else [])
  {
    assert [x] + [y] + [] == [x, y] && [x] + [] + [y] == [x, y] && [x] + [] + [] == [x];
    assert [] + [y] + [] == [y] && [] + [] + [y] == [y];
  }

  /** What Invoke returns once it has a server and a session. */
  ghost predicate Reported(res: Result, failed: Option<string>, acc: Acc, exit: Exit, errText: string) {
    && res.messages == Messages(acc)
    && (res.streamed <==> res.messages != [])
    && (res.messages == [] ==> res.assistantText == "")
    && (res.messages != [] ==> res.assistantText == res.messages[|res.messages| - 1])
    && (res.outcome == Timeout <==> exit == ContextDone)
    && (res.outcome == Success <==> exit != ContextDone && errText == "" && res.messages != [])
    && (failed.Some? <==> res.outcome == Crash && errText != "")
    && (failed.Some? ==> failed.value == res.stderr == errText && res.crashReason == "vendor_error")
    && (res.outcome == Crash && failed.None? ==> res.crashReason == "no_assistant_text")
    && (res.outcome != Crash ==> res.crashReason == "" && res.stderr == "")
  }

  // ---------------------------------------------------- the turn and the stream

  /** The accumulator of the stream protocol is the fold of the taken events, with the flags that were loaded. */
  ghost predicate Traced(s: Stream.State, flags: seq<bool>) {
    var n := Stream.Folded(s);
    && |flags| == n
    && s.acc == HandleAll(s.taken, flags, n)
    && s.err == ErrorAll(s.taken, n)
  }

  lemma {:induction false} FoldPrefix(xs: seq<Event>, ys: seq<Event>, fs: seq<bool>, gs: seq<bool>, n: nat)
    requires n <= |xs| && xs <= ys && n <= |fs| && fs <= gs
    ensures HandleAll(xs, fs, n) == HandleAll(ys, gs, n) && ErrorAll(xs, n) == ErrorAll(ys, n)
  {
    if n > 0 {
      FoldPrefix(xs, ys, fs, gs, n - 1);
    }
  }

  lemma TracedFold(s: Stream.State, flags: seq<bool>, ev: Event, flag: bool, t: Stream.State)
    requires Traced(s, flags) && Stream.Folded(s) < |s.taken| && s.taken[Stream.Folded(s)] == ev
    requires t.taken == s.taken && Stream.Folded(t) == Stream.Folded(s) + 1
    requires t.acc == Handle(s.acc, ev, flag) && t.err == ErrorAfter(s.err, ev)
    ensures Traced(t, flags + [flag])
  {
    FoldPrefix(s.taken, s.taken, flags, flags + [flag], |flags|);
  }

  lemma TracedStep(s: Stream.State, step: Stream.Step, flags: seq<bool>) returns (flags': seq<bool>)
    requires Traced(s, flags) && Stream.TakerOk(s) && Stream.Enabled(s, step)
    ensures Traced(Stream.Apply(s, step), flags')
  {
    var t := Stream.Apply(s, step);
    flags' := flags;
    match step
    case Take =>
      assert s.taken <= t.taken;
      FoldPrefix(s.taken, t.taken, flags, flags, |flags|);
    case Fold =>
      if t.taker == Stream.Looping {
        TracedFold(s, flags, s.taker.ev, true, t);
        flags' := flags + [true];
      }
    case PostLive =>
      TracedFold(s, flags, MessageUpdated(Some(s.taker.info)), false, t);
      flags' := flags + [false];
    case _ =>
      assert t.taken == s.taken && t.acc == s.acc && t.err == s.err && Stream.Folded(t) == Stream.Folded(s);
  }

  lemma {:induction false} TracedRun(s: Stream.State, steps: seq<Stream.Step>, t: Stream.State, flags: seq<bool>)
      returns (flags': seq<bool>)
    requires Stream.Inv(s) && Traced(s, flags) && Stream.IsRun(s, steps, t)
    ensures Traced(t, flags')
    decreases |steps|
  {
    if steps == [] {
      flags' := flags;
    } else {
      Stream.InvStep(s, steps[0]);
      var more := TracedStep(s, steps[0], flags);
      flags' := TracedRun(Stream.Apply(s, steps[0]), steps[1..], t, more);
    }
  }

  function Texts(ps: seq<(string, string)>): seq<string> {
    seq(|ps|, i requires 0 <= i < |ps| => ps[i].1)
  }

  lemma MessagesAreTexts(a: Acc)
    ensures Messages(a) == Texts(Deliveries(a))
  {
  }

  /**
   The turn end to end. Take any run of the live stream, whatever it dropped and
   wherever consumption stopped: the consumed events, folded with the flags that
   were read, then the authoritative list, make the messages of the result
   exactly the non-blank assistant messages of the list, in order. On the
   timeout path they are what was handed on live, a prefix of them.
   */
  lemma TurnDelivers(cap: nat, steps: seq<Stream.Step>, s: Stream.State, list: seq<ApiMessage>, send: Send)
      returns (flags: seq<bool>)
    requires Stream.IsRun(Stream.Subscribed(cap), steps, s) && s.taker == Stream.Stopped
    requires Delivery.Published(s.routed, Assistants(list))
    ensures |flags| == |s.taken| && s.acc == FoldOf(s.taken, flags) && s.err == ErrorAll(s.taken, |s.taken|)
    ensures Messages(Collected(s.acc, SendReturned(send), Some(list))) == Texts(Owed(list))
    ensures Messages(Collected(s.acc, ContextDone, Some(list))) == Texts(Deliveries(s.acc)) <= Texts(Owed(list))
  {
    var s0 := Stream.Subscribed(cap);
    assert Stream.Inv(s0) && Traced(s0, []);
    flags := TracedRun(s0, steps, s, []);
    Delivery.ExactlyOnce(cap, steps, s, list);
    MessagesAreTexts(s.acc);
    MessagesAreTexts(ReconcileAll(s.acc, list));
  }

  /** Seen through Reported: such a turn succeeds exactly when no error was recorded and the list owes something. */
  lemma TurnSucceeds(cap: nat, steps: seq<Stream.Step>, s: Stream.State, list: seq<ApiMessage>, send: Send, res: Result, failed: Option<string>)
    requires Stream.IsRun(Stream.Subscribed(cap), steps, s) && s.taker == Stream.Stopped
    requires Delivery.Published(s.routed, Assistants(list))
    requires Reported(res, failed, Collected(s.acc, SendReturned(send), Some(list)), SendReturned(send),
                      TurnError(s.taken, SendReturned(send), Some(list)))
    ensures res.messages == Texts(Owed(list))
    ensures res.outcome == Success <==>
              && Owed(list) != []
              && (forall i :: 0 <= i < |s.taken| ==> !HasError(s.taken[i]))
              && (forall m :: m in list && m.info.role == "assistant" ==> m.info.error.None?)
              && send.Answered? && send.msg.info.error.None?
  {
    var _ := TurnDelivers(cap, steps, s, list, send);
    FailureNoticed(FinalError(s.err, Some(list)), send);
    LastErrorStands(s.taken, |s.taken|);
    ErrorInList(s.err, list);
  }

  /** The list adds an error exactly when one of its assistant messages records one; it is then that of the first, and one recorded before stands. */
  lemma {:induction false} ErrorInList(err: Option<string>, list: seq<ApiMessage>)
    ensures ErrorAfterList(err, list).None? <==>
              err.None? && forall m :: m in list && m.info.role == "assistant" ==> m.info.error.None?
    ensures err.Some? ==> ErrorAfterList(err, list) == err
    ensures err.None? ==> forall i :: FirstErrorAt(list, i) ==> ErrorAfterList(err, list) == list[i].info.error
  {
    if list != [] {
      var front, last := list[..|list| - 1], list[|list| - 1];
      ErrorInList(err, front);
      assert list == front + [last];
      forall i | FirstErrorAt(list, i) && i < |front| ensures FirstErrorAt(front, i) {
        assert front[i] == list[i] && forall j :: 0 <= j < i ==> front[j] == list[j];
      }
      if err.None? && FirstErrorAt(list, |front|) {
        forall m | m in front && m.info.role == "assistant" ensures m.info.error.None? {
          var j :| 0 <= j < |front| && front[j] == m;
          assert list[j] == m;
        }
      }
    }
  }

  /** Entry i is the first assistant message of the list that records an error. */
  predicate FirstErrorAt(list: seq<ApiMessage>, i: int) {
    && 0 <= i < |list| && list[i].info.role == "assistant" && list[i].info.error.Some?
    && forall j :: 0 <= j < i ==> !(list[j].info.role == "assistant" && list[j].info.error.Some?)
  }

  /** The session error of such a turn: that of the last event that has one, or failing that of the first list entry that has one. */
  ghost predicate SessionFailed(taken: seq<Event>, list: seq<ApiMessage>, e: string) {
    || (exists i :: 0 <= i < |taken| && HasError(taken[i]) && ErrorIn(taken[i]) == e && forall j :: i < j < |taken| ==> !HasError(taken[j]))
    || ((forall i :: 0 <= i < |taken| ==> !HasError(taken[i])) && exists i :: FirstErrorAt(list, i) && list[i].info.error == Some(e))
  }

  /** A session error makes the turn a vendor error that says so, whatever was delivered and however the send went. */
  lemma TurnFails(cap: nat, steps: seq<Stream.Step>, s: Stream.State, list: seq<ApiMessage>, send: Send, res: Result, failed: Option<string>, e: string)
    requires Stream.IsRun(Stream.Subscribed(cap), steps, s) && s.taker == Stream.Stopped
    requires Reported(res, failed, Collected(s.acc, SendReturned(send), Some(list)), SendReturned(send),
                      TurnError(s.taken, SendReturned(send), Some(list)))
    requires SessionFailed(s.taken, list, e)
    ensures res.outcome == Crash && res.crashReason == "vendor_error" && failed == Some(res.stderr)
    ensures "session error: " + e <= res.stderr
  {
    var err := ErrorAll(s.taken, |s.taken|);
    LastErrorStands(s.taken, |s.taken|);
    ErrorInList(err, list);
    assert FinalError(err, Some(list)) == Some(e);
    FailureReads(Some(e), send);
    FailureNoticed(Some(e), send);
  }

  /**
   The turn when the list cannot be read: what was handed on live stands, and an
   assistant response adds its own message unless it is blank or was delivered; a
   failed send and a response of another role add nothing.
   */
  lemma TurnFallback(cap: nat, steps: seq<Stream.Step>, s: Stream.State, send: Send, res: Result, failed: Option<string>)
    requires Stream.IsRun(Stream.Subscribed(cap), steps, s) && s.taker == Stream.Stopped
    requires Reported(res, failed, Collected(s.acc, SendReturned(send), None), SendReturned(send),
                      TurnError(s.taken, SendReturned(send), None))
    ensures send.Failed? || send.msg.info.role != "assistant" ==> res.messages == Messages(s.acc)
    ensures send.Answered? && send.msg.info.role == "assistant" ==>
              res.messages == Messages(s.acc) +
                if Blank(TextOf(send.msg.parts)) || KeyFor(s.acc, send.msg.info.id) in s.acc.delivered then [] else [TextOf(send.msg.parts)]
    ensures res.outcome == Success <==>
              && res.messages != [] && (forall i :: 0 <= i < |s.taken| ==> !HasError(s.taken[i]))
              && send.Answered? && send.msg.info.error.None?
  {
    Stream.InvRun(Stream.Subscribed(cap), steps, s);
    LastErrorStands(s.taken, |s.taken|);
    FailureNoticed(ErrorAll(s.taken, |s.taken|), send);
    if send.Answered? && send.msg.info.role == "assistant" {
      EmitOnce(s.acc, send.msg.info.id, TextOf(send.msg.parts));
    }
  }

  /** If moreover the response is the list's last message, the turn's messages are those handed on live and that one, unless it is among them. */
  lemma FallbackFinal(cap: nat, steps: seq<Stream.Step>, s: Stream.State, list: seq<ApiMessage>, msg: ApiMessage)
    requires Stream.IsRun(Stream.Subscribed(cap), steps, s)
    requires Delivery.Published(s.routed, Assistants(list)) && Assistants(list) != []
    requires msg.info.role == "assistant" && Assistants(list)[|Assistants(list)| - 1] == (msg.info.id, TextOf(msg.parts))
    ensures Messages(Collected(s.acc, SendReturned(Answered(msg)), None)) ==
              Texts(Deliveries(s.acc)) +
                if Blank(TextOf(msg.parts)) || Deliveries(s.acc) == Owed(list) then [] else [TextOf(msg.parts)]
  {
    var last := (msg.info.id, TextOf(msg.parts));
    var d := Deliveries(s.acc);
    Delivery.FallbackDelivers(cap, steps, s, list);
    MessagesAreTexts(EmitText(s.acc, last.0, last.1));
    assert Texts(d + [last]) == Texts(d) + [last.1];
    assert Texts(d + []) == Texts(d) + [];
  }
}
