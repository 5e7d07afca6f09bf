/** When messages are still posted live after an event has been lost. */
module StreamLoss {
  import opened Options
  import opened Text
  import opened Accumulator
  import opened Stream
  import opened DeliveryAnyOrder

  /** emitText would hand this completed message on: it has not been delivered, and its text is not blank. */
  predicate Worth(a: Acc, info: Info) {
    info.id !in a.emitted && !Blank(Assemble(a, info.id))
  }

  /** The taker has looked at the flag for a message that is worth posting. */
  predicate AboutToDeliver(s: State) {
    s.taker.Cleared? && Worth(s.acc, s.taker.info)
  }

  /** This step looks at a completion worth posting while the flag is down. */
  predicate ClearsWorth(s: State, step: Step) {
    && step == Fold && s.taker.Holding? && IsCompletion(s.taker.ev) && !s.dropped
    && Worth(s.acc, s.taker.ev.info.value)
  }

  /** Some step of the run does. */
  ghost predicate DeliversOne(s: State, steps: seq<Step>)
    decreases |steps|
  {
    && steps != [] && Enabled(s, steps[0])
    && (ClearsWorth(s, steps[0]) || DeliversOne(Apply(s, steps[0]), steps[1..]))
  }

  /** A post hands its message on exactly when it is worth it. */
  lemma PostHandsOn(s: State)
    requires Inv(s) && s.taker.Cleared?
    ensures var t, d := Apply(s, PostLive), (s.taker.info.id, Assemble(s.acc, s.taker.info.id));
            && t.taker == Looping
            && Deliveries(t.acc) == Deliveries(s.acc) + if Worth(s.acc, s.taker.info) then [d] else []
  {
    EmitOnce(s.acc, s.taker.info.id, Assemble(s.acc, s.taker.info.id));
  }

  lemma OthersHandNothing(s: State, step: Step)
    requires Enabled(s, step) && step != PostLive
    ensures Deliveries(Apply(s, step).acc) == Deliveries(s.acc)
    ensures AboutToDeliver(Apply(s, step)) <==> AboutToDeliver(s) || ClearsWorth(s, step)
  {
    QuietDelivers(s, step);
  }

  lemma DeliveriesGrowStep(s: State, step: Step)
    requires Inv(s) && Enabled(s, step)
    ensures Deliveries(s.acc) <= Deliveries(Apply(s, step).acc)
  {
    if step == PostLive {
      PostHandsOn(s);
    } else {
      QuietDelivers(s, step);
    }
  }

  lemma {:induction false} DeliveriesGrowRun(s: State, steps: seq<Step>, t: State)
    requires Inv(s) && IsRun(s, steps, t)
    ensures Deliveries(s.acc) <= Deliveries(t.acc)
    decreases |steps|
  {
    if steps != [] {
      DeliveriesGrowStep(s, steps[0]);
      InvStep(s, steps[0]);
      DeliveriesGrowRun(Apply(s, steps[0]), steps[1..], t);
    }
  }

  /** Over any run: something is handed on, or about to be, exactly when it was about to be or a step clears something. */
  lemma {:induction false} DeliversIff(s: State, steps: seq<Step>, t: State)
    requires Inv(s) && IsRun(s, steps, t)
    ensures (Deliveries(t.acc) != Deliveries(s.acc) || AboutToDeliver(t)) <==> (AboutToDeliver(s) || DeliversOne(s, steps))
    decreases |steps|
  {
    if steps != [] {
      var u := Apply(s, steps[0]);
      InvStep(s, steps[0]);
      DeliversIff(u, steps[1..], t);
      DeliveriesGrowRun(u, steps[1..], t);
      if steps[0] == PostLive {
        PostHandsOn(s);
      } else {
        OthersHandNothing(s, steps[0]);
      }
    }
  }

  /**
   When a message is still handed on live after an event has been lost: exactly
   when one worth posting had passed its check already, or one is looked at while
   the flag is still down. Every message handed on was completed before the lost
   event.
   */
  lemma DeliveriesAfterLoss(cap: nat, past: seq<Step>, s: State, steps: seq<Step>, t: State)
    requires IsRun(Subscribed(cap), past, s) && s.firstLost.Some? && IsRun(s, steps, t) && !t.taker.Cleared?
    ensures Deliveries(t.acc) != Deliveries(s.acc) <==> AboutToDeliver(s) || DeliversOne(s, steps)
    ensures Deliveries(s.acc) <= Deliveries(t.acc)
    ensures forall d :: d in Deliveries(t.acc) ==>
              exists i :: 0 <= i < |t.posts| && t.posts[i].mid == d.0 && t.posts[i].text == d.1 && t.posts[i].at <= s.firstLost.value
  {
    var s0 := Subscribed(cap);
    assert Inv(s0) && AllPosted(s0);
    AllPostedRun(s0, past, s);
    AllPostedRun(s, steps, t);
    DeliversIff(s, steps, t);
    DeliveriesGrowRun(s, steps, t);
    NothingPostedPastLoss(cap, past, s, steps, t);
    forall d | d in Deliveries(t.acc)
      ensures exists i :: 0 <= i < |t.posts| && t.posts[i].mid == d.0 && t.posts[i].text == d.1 && t.posts[i].at <= s.firstLost.value
    {
      var i :| 0 <= i < |t.posts| && t.posts[i].mid == d.0 && t.posts[i].text == d.1;
      assert t.posts[i] in t.posts;
    }
  }

  /**
   Such a run: a part and the completion of its message fill the channel, the next
   event is lost, and then, before the flag is stored, the message is handed on.
   Its completion is the event right before the lost one.
   */
  lemma DeliveryAfterLossExample() returns (lost: State, t: State, before: seq<Step>, after: seq<Step>)
    ensures IsRun(Subscribed(2), before, lost) && lost.firstLost == Some(2) && Deliveries(lost.acc) == []
    ensures IsRun(lost, after, t) && Deliveries(t.acc) == [("m1", "x")]
    ensures |t.posts| == 1 && t.posts[0].at == 2
  {
    var part := PartUpdated(Some(Part("p1", "m1", "text", "x")));
    var done := MessageUpdated(Some(Info("m1", "assistant", 1, None)));
    before, lost := LoseThird(part, done);
    var mid := FoldFirst(lost, part, done);
    PartFolded("m1", "p1", "x");
    OneCharBlank('x');
    t := PostSecond(mid, done);
    after := [Take, Fold] + [Take, Fold, PostLive];
    RunsJoin(lost, [Take, Fold], mid, [Take, Fold, PostLive], t);
  }

  /** Two events fill the channel and a third is lost. */
  lemma LoseThird(x: Event, y: Event) returns (before: seq<Step>, lost: State)
    ensures IsRun(Subscribed(2), before, lost)
    ensures lost == Subscribed(2).(chan := [x, y], reader := Dropping, routed := [x, y, SessionIdle], firstLost := Some(2))
  {
    before := [Route(x), Route(y), Route(SessionIdle)];
    lost := Apply(Apply(Apply(Subscribed(2), before[0]), before[1]), before[2]);
    RunThree(Subscribed(2), before, lost);
  }

  /** A text part is taken and folded in. */
  lemma FoldFirst(lost: State, x: Event, y: Event) returns (mid: State)
    requires lost.chan == [x, y] && lost.taker == Looping && IsTextPart(x) && lost.taken == []
    ensures IsRun(lost, [Take, Fold], mid)
    ensures mid.chan == [y] && mid.taker == Looping && mid.taken == [x] && mid.dropped == lost.dropped && mid.posts == lost.posts
    ensures mid.acc == AddPart(lost.acc, x.part.value.messageId, x.part.value.id, x.part.value.text)
  {
    mid := Apply(Apply(lost, Take), Fold);
    RunTwo(lost, [Take, Fold], mid);
  }

  /** A completion worth posting is taken, cleared and handed on. */
  lemma PostSecond(mid: State, y: Event) returns (t: State)
    requires mid.chan == [y] && mid.taker == Looping && IsCompletion(y) && !mid.dropped && mid.posts == [] && |mid.taken| == 1
    requires Consistent(mid.acc) && Deliveries(mid.acc) == [] && Worth(mid.acc, y.info.value)
    ensures IsRun(mid, [Take, Fold, PostLive], t)
    ensures Deliveries(t.acc) == [(y.info.value.id, Assemble(mid.acc, y.info.value.id))]
    ensures |t.posts| == 1 && t.posts[0].at == 2
  {
    t := Apply(Apply(Apply(mid, Take), Fold), PostLive);
    RunThree(mid, [Take, Fold, PostLive], t);
    EmitOnce(mid.acc, y.info.value.id, Assemble(mid.acc, y.info.value.id));
  }

  lemma PartFolded(mid: string, pid: string, text: string)
    ensures var a := AddPart(EMPTY, mid, pid, text);
            Assemble(a, mid) == text && Consistent(a) && a.emitted == {} && Deliveries(a) == []
  {
    var a := AddPart(EMPTY, mid, pid, text);
    OneOrder(pid);
    assert OrderOf(a, mid) == [pid] && PartsOf(a, mid) == map[pid := text];
    OneJoined(pid, text);
  }

  lemma OneOrder(pid: string)
    ensures [] + [pid] == [pid]
  {
  }

  lemma OneJoined(pid: string, text: string)
    ensures Joined(map[pid := text], [pid]) == text
  {
    assert [pid][..0] == [];
    assert Joined(map[pid := text], []) + text == text;
  }

  lemma OneCharBlank(c: char)
    requires !IsSpace(c)
    ensures !Blank([c])
  {
    assert c in [c];
  }

  lemma RunTwo(s: State, steps: seq<Step>, t: State)
    requires |steps| == 2
    requires Enabled(s, steps[0]) && Enabled(Apply(s, steps[0]), steps[1])
    requires t == Apply(Apply(s, steps[0]), steps[1])
    ensures IsRun(s, steps, t)
  {
    assert steps[1..][1..] == [];
    assert IsRun(Apply(s, steps[0]), steps[1..], t);
  }

  lemma RunThree(s: State, steps: seq<Step>, t: State)
    requires |steps| == 3
    requires Enabled(s, steps[0]) && Enabled(Apply(s, steps[0]), steps[1])
    requires Enabled(Apply(Apply(s, steps[0]), steps[1]), steps[2])
    requires t == Apply(Apply(Apply(s, steps[0]), steps[1]), steps[2])
    ensures IsRun(s, steps, t)
  {
    assert steps[1..][1..][1..] == [];
    assert IsRun(Apply(Apply(s, steps[0]), steps[1]), steps[1..][1..], t);
    assert IsRun(Apply(s, steps[0]), steps[1..], t);
  }

  lemma {:induction false} RunsJoin(s: State, xs: seq<Step>, t: State, ys: seq<Step>, u: State)
    requires IsRun(s, xs, t) && IsRun(t, ys, u)
    ensures IsRun(s, xs + ys, u)
    decreases |xs|
  {
    if xs == [] {
      assert xs + ys == ys;
    } else {
      RunsJoin(Apply(s, xs[0]), xs[1..], t, ys, u);
      assert (xs + ys)[1..] == xs[1..] + ys;
    }
  }
}
