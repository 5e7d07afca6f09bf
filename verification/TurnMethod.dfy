/** Invoke as the loops it is: events folded in as they come, the drain, the reconcile, and the result. */
module TurnMethod {
  import opened Options
  import opened Text
  import A = Accumulator
  import R = Reconcile
  import opened AccumulatorClass
  import opened Turn

  const MAX_INT: int := 0x7FFF_FFFF_FFFF_FFFF

  /** apiMessage.text. */
  method MessageText(parts: seq<A.ApiPart>) returns (text: string)
    ensures text == A.TextOf(parts)
  {
    text := "";
    for i := 0 to |parts|
      invariant text == A.TextOf(parts[..i])
    {
      assert parts[..i + 1][..i] == parts[..i];
      if parts[i].kind == "text" {
        text := text + parts[i].text;
      }
    }
    assert parts[..|parts|] == parts;
  }

  /** strings.Join(parts, "\n") over at most three parts, as classifyFailure builds them. */
  method ClassifyFailure(err: Option<string>, send: Send) returns (text: string)
    ensures text == FailureText(err, send)
  {
    var parts: seq<string> := [];
    if err.Some? {
      parts := parts + ["session error: " + err.value];
    }
    if send.Failed? {
      parts := parts + [send.err];
    }
    if send.Answered? && send.msg.info.error.Some? {
      parts := parts + ["message error: " + send.msg.info.error.value];
    }
    ghost var first: seq<string> := if err.Some? then ["session error: " + err.value] else [];
    ghost var second: seq<string> := if send.Failed? then [send.err] else [];
    assert parts == first + second
      + (if send.Answered? && send.msg.info.error.Some? then ["message error: " + send.msg.info.error.value] else []);
    text := JoinedLines(parts);
  }

  /** One event folded in; idle says whether it was the turn-end marker. */
  method Consume(acc: MsgAccumulator, evs: seq<A.Event>, lossy: seq<bool>, i: nat, err: Option<string>)
      returns (idle: bool, err': Option<string>)
    requires i < |evs| && i < |lossy| && acc.Valid() && acc.extSeq == 0
    requires acc.View() == A.HandleAll(evs, lossy, i) && err == ErrorAll(evs, i)
    modifies acc
    ensures acc.Valid() && acc.extSeq == 0
    ensures acc.View() == A.HandleAll(evs, lossy, i + 1) && err' == ErrorAll(evs, i + 1)
    ensures idle <==> evs[i] == A.SessionIdle
  {
    if evs[i] == A.SessionIdle {
      return true, err;
    }
    err' := acc.Handle(evs[i], lossy[i], err);
    idle := false;
  }

  /** The authoritative list folded in; an error on it counts unless one was recorded before. */
  method ReconcileList(acc: MsgAccumulator, list: seq<A.ApiMessage>, err: Option<string>) returns (err': Option<string>)
    requires acc.Valid() && acc.extSeq == 0 && |list| < MAX_INT
    modifies acc
    ensures acc.Valid() && acc.View() == R.ReconcileAll(old(acc.View()), list)
    ensures err' == R.ErrorAfterList(err, list)
  {
    err' := err;
    for i := 0 to |list|
      invariant acc.Valid() && acc.extSeq <= i
      invariant acc.View() == R.ReconcileAll(old(acc.View()), list[..i])
      invariant err' == R.ErrorAfterList(err, list[..i])
    {
      var m := list[i];
      assert list[..i + 1][..i] == list[..i];
      if m.info.role == "assistant" {
        if err'.None? && m.info.error.Some? {
          err' := m.info.error;
        }
        var text := MessageText(m.parts);
        acc.EmitText(m.info.id, text);
      }
    }
    assert list[..|list|] == list;
  }

  /** The event loop: live holds the events taken before it ended; lossy is what the flag read at each. */
  method FoldLive(acc: MsgAccumulator, live: seq<A.Event>, lossy: seq<bool>) returns (idleSeen: bool, err: Option<string>)
    requires acc.Valid() && acc.View() == A.EMPTY && |live| <= |lossy|
    modifies acc
    ensures acc.Valid() && acc.extSeq == 0
    ensures acc.View() == A.HandleAll(live, lossy, |live|) && err == ErrorAll(live, |live|)
    ensures idleSeen <==> A.SessionIdle in live
  {
    err := None;
    idleSeen := false;
    for i := 0 to |live|
      invariant acc.Valid() && acc.extSeq == 0
      invariant acc.View() == A.HandleAll(live, lossy, i) && err == ErrorAll(live, i)
      invariant idleSeen <==> A.SessionIdle in live[..i]
    {
      var idle;
      idle, err := Consume(acc, live, lossy, i, err);
      assert live[..i + 1] == live[..i] + [live[i]];
      if idle {
        idleSeen := true;
      }
    }
    assert live[..|live|] == live;
  }

  /** The first k events, the last of which is the only idle among them or which are all, are the drain's. */
  lemma {:induction false} ThroughIdleEnds(evs: seq<A.Event>, k: nat)
    requires k <= |evs|
    requires (k == |evs| && A.SessionIdle !in evs[..k]) || (k > 0 && evs[k - 1] == A.SessionIdle && A.SessionIdle !in evs[..k - 1])
    ensures ThroughIdle(evs) == evs[..k]
  {
    if evs != [] && evs[0] != A.SessionIdle {
      ThroughIdleEnds(evs[1..], k - 1);
      assert evs[..k] == [evs[0]] + evs[1..][..k - 1];
    }
  }

  lemma DrainEnds(all: seq<A.Event>, n: nat, end: nat)
    requires n <= end <= |all|
    requires (end == |all| && A.SessionIdle !in all[n..end])
             || (end > n && all[end - 1] == A.SessionIdle && A.SessionIdle !in all[n..end - 1])
    ensures ThroughIdle(all[n..]) == all[n..end]
  {
    assert all[n..][..end - n] == all[n..end];
    if end > n {
      assert all[n..][..end - n - 1] == all[n..end - 1];
    }
    ThroughIdleEnds(all[n..], end - n);
  }

  /** The drain through session.idle: all holds the loop's events, n of them, and then those at hand. */
  method DrainThroughIdle(acc: MsgAccumulator, all: seq<A.Event>, n: nat, lossy: seq<bool>, err: Option<string>)
      returns (end: nat, err': Option<string>)
    requires acc.Valid() && acc.extSeq == 0 && n <= |all| <= |lossy|
    requires acc.View() == A.HandleAll(all, lossy, n) && err == ErrorAll(all, n)
    modifies acc
    ensures n <= end <= |all| && acc.Valid() && acc.extSeq == 0
    ensures acc.View() == A.HandleAll(all, lossy, end) && err' == ErrorAll(all, end)
    ensures ThroughIdle(all[n..]) == all[n..end]
  {
    err' := err;
    end := n;
    while end < |all|
      invariant n <= end <= |all| && acc.Valid() && acc.extSeq == 0
      invariant acc.View() == A.HandleAll(all, lossy, end) && err' == ErrorAll(all, end)
      invariant A.SessionIdle !in all[n..end]
    {
      var idle;
      idle, err' := Consume(acc, all, lossy, end, err');
      end := end + 1;
      assert all[n..end] == all[n..end - 1] + [all[end - 1]];
      if idle {
        break;
      }
    }
    DrainEnds(all, n, end);
  }

  /** The drain once idle has been seen: the buffered remainder. */
  method DrainRest(acc: MsgAccumulator, all: seq<A.Event>, n: nat, lossy: seq<bool>, err: Option<string>)
      returns (err': Option<string>)
    requires acc.Valid() && acc.extSeq == 0 && n <= |all| <= |lossy|
    requires acc.View() == A.HandleAll(all, lossy, n) && err == ErrorAll(all, n)
    modifies acc
    ensures acc.Valid() && acc.extSeq == 0
    ensures acc.View() == A.HandleAll(all, lossy, |all|) && err' == ErrorAll(all, |all|)
  {
    err' := err;
    for i := n to |all|
      invariant acc.Valid() && acc.extSeq == 0
      invariant acc.View() == A.HandleAll(all, lossy, i) && err' == ErrorAll(all, i)
    {
      var idle;
      idle, err' := Consume(acc, all, lossy, i, err');
    }
  }

  /** The event loop and, after a send that returned, the drain of the events then at hand. */
  method Fold(acc: MsgAccumulator, live: seq<A.Event>, tail: seq<A.Event>, lossy: seq<bool>, sent: bool) returns (err: Option<string>)
    requires acc.Valid() && acc.View() == A.EMPTY && |live| + |tail| <= |lossy|
    modifies acc
    ensures |Consumed(live, tail, sent)| <= |lossy| && acc.Valid() && acc.extSeq == 0
    ensures acc.View() == FoldOf(Consumed(live, tail, sent), lossy)
    ensures err == ErrorAll(Consumed(live, tail, sent), |Consumed(live, tail, sent)|)
  {
    var idleSeen;
    idleSeen, err := FoldLive(acc, live, lossy);
    if sent {
      var all := live + tail;
      FoldPrefix(live, all, lossy, lossy, |live|);
      assert all[|live|..] == tail;
      if idleSeen {
        err := DrainRest(acc, all, |live|, lossy, err);
      } else {
        var end;
        end, err := DrainThroughIdle(acc, all, |live|, lossy, err);
        assert all[..end] == live + all[|live|..end] == Consumed(live, tail, sent);
        FoldPrefix(all[..end], all, lossy, lossy, end);
      }
    }
  }

  method Report(acc: MsgAccumulator) returns (res: Result)
    requires acc.Valid()
    ensures res.messages == A.Messages(acc.View()) && (res.streamed <==> res.messages != [])
    ensures res.assistantText == if res.messages == [] then "" else res.messages[|res.messages| - 1]
    ensures res.outcome == Crash && res.stderr == "" && res.crashReason == ""
  {
    var messages := acc.Messages();
    var n := acc.Count();
    res := Result(Crash, if |messages| > 0 then messages[|messages| - 1] else "", messages, n > 0, "", "");
  }

  /** What the list adds, or failing that the response; list is None where it could not be read. */
  method Collect(acc: MsgAccumulator, send: Send, list: Option<seq<A.ApiMessage>>, err: Option<string>) returns (err': Option<string>)
    requires acc.Valid() && acc.extSeq == 0 && (list.Some? ==> |list.value| < MAX_INT)
    modifies acc
    ensures acc.Valid() && acc.View() == Collected(old(acc.View()), SendReturned(send), list) && err' == FinalError(err, list)
  {
    err' := err;
    if list.Some? {
      err' := ReconcileList(acc, list.value, err);
    } else if send.Answered? && send.msg.info.role == "assistant" {
      var text := MessageText(send.msg.parts);
      acc.EmitText(send.msg.info.id, text);
    }
  }

  /** The result of a turn whose send returned. */
  method Conclude(acc: MsgAccumulator, send: Send, err: Option<string>) returns (res: Result, failed: Option<string>)
    requires acc.Valid()
    ensures Reported(res, failed, acc.View(), SendReturned(send), FailureText(err, send))
  {
    failed := None;
    res := Report(acc);
    var errText := ClassifyFailure(err, send);
    if errText != "" {
      res := res.(stderr := errText, crashReason := "vendor_error");
      failed := Some(errText);
    } else if |res.messages| == 0 {
      res := res.(crashReason := "no_assistant_text");
    } else {
      res := res.(outcome := Success);
    }
  }

  /** A turn that has its server and its session. */
  method RunTurn(acc: MsgAccumulator, live: seq<A.Event>, tail: seq<A.Event>, lossy: seq<bool>,
                 exit: Exit, list: Option<seq<A.ApiMessage>>)
      returns (res: Result, failed: Option<string>)
    requires acc.Valid() && acc.View() == A.EMPTY && |live| + |tail| <= |lossy|
    requires list.Some? ==> |list.value| < MAX_INT
    modifies acc
    ensures acc.Valid() && |Consumed(live, tail, exit.SendReturned?)| <= |lossy|
    ensures acc.View() == Collected(FoldOf(Consumed(live, tail, exit.SendReturned?), lossy), exit, list)
    ensures Reported(res, failed, acc.View(), exit, TurnError(Consumed(live, tail, exit.SendReturned?), exit, list))
  {
    var err := Fold(acc, live, tail, lossy, exit.SendReturned?);
    match exit
    case ContextDone =>
      res := Report(acc);
      res := res.(outcome := Timeout);
      failed := None;
    case SendReturned(send) =>
      err := Collect(acc, send, list, err);
      res, failed := Conclude(acc, send, err);
  }

  method Invoke(acc: MsgAccumulator, setup: Setup, live: seq<A.Event>, tail: seq<A.Event>, lossy: seq<bool>,
                exit: Exit, list: Option<seq<A.ApiMessage>>)
      returns (res: Result, failed: Option<string>)
    requires acc.Valid() && acc.View() == A.EMPTY && |live| + |tail| <= |lossy|
    requires list.Some? ==> |list.value| < MAX_INT
    modifies acc
    ensures acc.Valid() && acc.calls == if acc.hasCallback then res.messages else []
    ensures !setup.Ready? ==>
              && acc.View() == A.EMPTY && failed == Some(setup.err)
              && res == Result(Crash, "", [], false, setup.err, if setup.NoServer? then "server_unavailable" else "session_create_failed")
    ensures setup.Ready? ==>
              && |Consumed(live, tail, exit.SendReturned?)| <= |lossy|
              && acc.View() == Collected(FoldOf(Consumed(live, tail, exit.SendReturned?), lossy), exit, list)
              && Reported(res, failed, acc.View(), exit, TurnError(Consumed(live, tail, exit.SendReturned?), exit, list))
    ensures setup.Ready? && exit.ContextDone? ==> res.outcome == Timeout && failed == None && res.stderr == ""
    ensures setup.Ready? && exit.SendReturned? && failed == None ==>
              if res.messages == [] then res.outcome == Crash && res.crashReason == "no_assistant_text" else res.outcome == Success
  {
    match setup
    case NoServer(e) =>
      res, failed := Result(Crash, "", [], false, e, "server_unavailable"), Some(e);
    case NoSession(e) =>
      res, failed := Result(Crash, "", [], false, e, "session_create_failed"), Some(e);
    case Ready =>
      res, failed := RunTurn(acc, live, tail, lossy, exit, list);
  }
}
