/** Exactly once, in order, never truncated: the live stream and the reconcile together. */
module Delivery {
  import opened Options
  import opened Text
  import opened Accumulator
  import opened Reconcile
  import opened Stream

  /** The ids completed by the first n events, in order of first completion. */
  function CompletedIds(evs: seq<Event>, n: nat): seq<string>
    requires n <= |evs|
  {
    if n == 0 then []
    else
      var before := CompletedIds(evs, n - 1);
      if IsCompletion(evs[n - 1]) && evs[n - 1].info.value.id !in before then before + [evs[n - 1].info.value.id] else before
  }

  /**
   The events agree with the assistant messages ps of the authoritative list:
   messages complete in list order, none skipped, and the parts published before
   a completion give the text that the list has.
   */
  ghost predicate Published(routed: seq<Event>, ps: seq<(string, string)>) {
    && ProperIds(ps)
    && |CompletedIds(routed, |routed|)| <= |ps|
    && (forall i :: 0 <= i < |CompletedIds(routed, |routed|)| ==> CompletedIds(routed, |routed|)[i] == ps[i].0)
    && (forall n, i :: 0 <= n < |routed| && 0 <= i < |ps| && IsCompletion(routed[n]) && routed[n].info.value.id == ps[i].0 ==>
          TextAt(routed, ps[i].0, n + 1) == ps[i].1)
  }

  lemma {:induction false} CompletedPrefix(xs: seq<Event>, ys: seq<Event>, n: nat)
    requires n <= |xs| && n <= |ys| && forall i :: 0 <= i < n ==> xs[i] == ys[i]
    ensures CompletedIds(xs, n) == CompletedIds(ys, n)
  {
    if n > 0 {
      CompletedPrefix(xs, ys, n - 1);
    }
  }

  lemma {:induction false} CompletedGrows(evs: seq<Event>, m: nat, n: nat)
    requires m <= n <= |evs|
    ensures CompletedIds(evs, m) <= CompletedIds(evs, n)
    ensures (forall i :: m <= i < n ==> !IsCompletion(evs[i])) ==> CompletedIds(evs, m) == CompletedIds(evs, n)
    decreases n
  {
    if m < n {
      CompletedGrows(evs, m, n - 1);
    }
  }

  /** What holds of everything routed held of what had been routed before. */
  lemma PublishedBefore(xs: seq<Event>, ys: seq<Event>, ps: seq<(string, string)>)
    requires Published(ys, ps) && xs <= ys
    ensures Published(xs, ps)
  {
    CompletedPrefix(xs, ys, |xs|);
    CompletedGrows(ys, |xs|, |ys|);
    forall n, i | 0 <= n < |xs| && 0 <= i < |ps| && IsCompletion(xs[n]) && xs[n].info.value.id == ps[i].0
      ensures TextAt(xs, ps[i].0, n + 1) == ps[i].1
    {
      assert ys[n] == xs[n] && xs[..n + 1] == ys[..n + 1];
      TextAtPrefix(xs, ys, ps[i].0, n + 1);
    }
  }

  /** How many events had been taken when the last live post was made. */
  function LastPost(s: State): nat {
    if s.posts == [] then 0 else s.posts[|s.posts| - 1].at
  }

  /** Since the last live post no completion was folded in, unless the flag had been seen. */
  ghost predicate NoneSkipped(s: State) {
    && LastPost(s) <= Folded(s)
    && (!s.sawDrop ==> forall i :: LastPost(s) <= i < Folded(s) ==> !IsCompletion(s.taken[i]))
  }

  /** What has been delivered is what the list owes for the messages completed by the last live post. */
  ghost predicate Delivered(s: State, ps: seq<(string, string)>)
    requires LastPost(s) <= |s.routed|
  {
    var c := |CompletedIds(s.routed, LastPost(s))|;
    c <= |ps| && Deliveries(s.acc) == NonBlank(ps[..c])
  }

  lemma NoneSkippedStep(s: State, step: Step)
    requires TakerOk(s) && NoneSkipped(s) && Enabled(s, step)
    ensures NoneSkipped(Apply(s, step))
  {
  }

  lemma NonBlankPrefix(ps: seq<(string, string)>, c: nat)
    requires c < |ps|
    ensures NonBlank(ps[..c + 1]) == if Blank(ps[c].1) then NonBlank(ps[..c]) else NonBlank(ps[..c]) + [ps[c]]
  {
    assert ps[..c + 1] == ps[..c] + [ps[c]];
    NonBlankSnoc(ps[..c], ps[c]);
  }

  /** When the first c messages are delivered, message i's id is among the delivered ones only if i < c. */
  lemma DeliveredBelow(a: Acc, ps: seq<(string, string)>, c: nat, i: nat)
    requires Consistent(a) && ProperIds(ps) && c <= |ps| && i < |ps| && Deliveries(a) == NonBlank(ps[..c])
    ensures i < c && !Blank(ps[i].1) ==> ps[i].0 in a.emitted
    ensures i >= c ==> ps[i].0 !in a.emitted
  {
    if i < c {
      assert ps[..c][i] == ps[i];
      NonBlankMember(ps[..c], ps[i]);
      if !Blank(ps[i].1) {
        var j :| 0 <= j < |a.delivered| && Deliveries(a)[j] == ps[i];
        assert a.delivered[j] in a.delivered;
      }
    } else {
      forall j | 0 <= j < |a.delivered| ensures a.delivered[j] != ps[i].0 {
        NonBlankMember(ps[..c], Deliveries(a)[j]);
        var k :| 0 <= k < c && ps[..c][k] == Deliveries(a)[j];
        assert ps[k].0 != ps[i].0;
      }
    }
  }

  /** Delivering message i when the first c are delivered: nothing if i < c, one more if i == c. */
  lemma DeliverNext(a: Acc, ps: seq<(string, string)>, c: nat, i: nat)
    requires Consistent(a) && ProperIds(ps) && i <= c <= |ps| && i < |ps| && Deliveries(a) == NonBlank(ps[..c])
    ensures Deliveries(EmitText(a, ps[i].0, ps[i].1)) == NonBlank(ps[..if i < c then c else c + 1])
  {
    EmitOnce(a, ps[i].0, ps[i].1);
    DeliveredBelow(a, ps, c, i);
    if i == c {
      NonBlankPrefix(ps, c);
    }
  }

  /** Where in the list the message completed by event n - 1 stands, and that its text is the list's. */
  lemma CompletionIndex(routed: seq<Event>, ps: seq<(string, string)>, n: nat) returns (i: nat)
    requires Published(routed, ps) && 0 < n <= |routed| && IsCompletion(routed[n - 1])
    ensures var mid, c := routed[n - 1].info.value.id, |CompletedIds(routed, n - 1)|;
            && i <= c && i < |ps|
            && ps[i] == (mid, TextAt(routed, mid, n))
            && |CompletedIds(routed, n)| == if i < c then c else c + 1
  {
    var mid := routed[n - 1].info.value.id;
    CompletedGrows(routed, n, |routed|);
    var ids, all := CompletedIds(routed, n - 1), CompletedIds(routed, n);
    if mid in ids {
      i :| 0 <= i < |ids| && ids[i] == mid;
    } else {
      i := |ids|;
    }
    assert all[i] == mid == CompletedIds(routed, |routed|)[i];
    assert ps[i].0 == mid;
    assert TextAt(routed, ps[i].0, (n - 1) + 1) == ps[i].1;
  }

  lemma ClearedPrefix(s: State)
    requires TakerOk(s) && s.taker.Cleared?
    ensures 0 < |s.taken| <= |s.routed| && s.routed[|s.taken| - 1] == MessageUpdated(Some(s.taker.info))
    ensures forall i :: 0 <= i < |s.taken| ==> s.taken[i] == s.routed[i]
  {
    assert s.taken[..|s.taken|] == s.routed[..|s.taken|];
  }

  lemma ClearedText(s: State)
    requires TakerOk(s) && AccOk(s) && s.taker.Cleared?
    ensures |s.taken| <= |s.routed| && Assemble(s.acc, s.taker.info.id) == TextAt(s.routed, s.taker.info.id, |s.taken|)
  {
    assert Folded(s) == |s.taken| - 1;
    TextOfPrefix(s.acc, s.taken, s.routed, s.taker.info.id);
  }

  /** At a live completion, everything completed before it had been completed by the last post. */
  lemma NoneBetween(s: State)
    requires TakerOk(s) && NoneSkipped(s) && s.taker.Cleared?
    ensures LastPost(s) < |s.taken| <= |s.routed|
    ensures CompletedIds(s.routed, LastPost(s)) == CompletedIds(s.routed, |s.taken| - 1)
  {
    ClearedPrefix(s);
    CompletedGrows(s.routed, LastPost(s), |s.taken| - 1);
  }

  lemma DeliveredPost(s: State, ps: seq<(string, string)>)
    requires Inv(s) && NoneSkipped(s) && s.taker.Cleared? && Published(s.routed, ps)
    requires LastPost(s) <= |s.routed| && Delivered(s, ps)
    ensures |s.taken| <= |s.routed| && Delivered(Apply(s, PostLive), ps)
  {
    var mid, n := s.taker.info.id, |s.taken|;
    ClearedPrefix(s);
    ClearedText(s);
    NoneBetween(s);
    var i := CompletionIndex(s.routed, ps, n);
    var c := |CompletedIds(s.routed, n - 1)|;
    DeliverNext(s.acc, ps, c, i);
    PostApplies(s, ps[i].1);
  }

  lemma PostApplies(s: State, text: string)
    requires Inv(s) && s.taker.Cleared? && text == Assemble(s.acc, s.taker.info.id)
    ensures var t := Apply(s, PostLive);
            t.acc == EmitText(s.acc, s.taker.info.id, text) && LastPost(t) == |s.taken| && t.routed == s.routed
  {
  }

  lemma DeliveredStep(s: State, step: Step, ps: seq<(string, string)>)
    requires Inv(s) && NoneSkipped(s) && Enabled(s, step) && Published(Apply(s, step).routed, ps)
    requires LastPost(s) <= |s.routed| && Delivered(s, ps)
    ensures LastPost(Apply(s, step)) <= |Apply(s, step).routed| && Delivered(Apply(s, step), ps)
  {
    if step == PostLive {
      DeliveredPost(s, ps);
    } else {
      DeliveriesQuiet(s, step);
      RoutedGrows(s, step);
      CompletedPrefix(s.routed, Apply(s, step).routed, LastPost(s));
    }
  }

  lemma DeliveriesQuiet(s: State, step: Step)
    requires Enabled(s, step) && step != PostLive
    ensures Deliveries(Apply(s, step).acc) == Deliveries(s.acc) && LastPost(Apply(s, step)) == LastPost(s)
  {
    var t := Apply(s, step);
    assert t.acc.delivered == s.acc.delivered && t.acc.byId == s.acc.byId;
  }

  lemma RoutedGrows(s: State, step: Step)
    requires Enabled(s, step)
    ensures s.routed <= Apply(s, step).routed
  {
  }

  lemma {:induction false} RoutedGrowsRun(s: State, steps: seq<Step>, t: State)
    requires IsRun(s, steps, t)
    ensures s.routed <= t.routed
    decreases |steps|
  {
    if steps != [] {
      RoutedGrows(s, steps[0]);
      RoutedGrowsRun(Apply(s, steps[0]), steps[1..], t);
    }
  }

  lemma {:induction false} DeliveredRun(s: State, steps: seq<Step>, t: State, ps: seq<(string, string)>)
    requires Inv(s) && NoneSkipped(s) && IsRun(s, steps, t) && Published(t.routed, ps)
    requires LastPost(s) <= |s.routed| && Delivered(s, ps)
    ensures LastPost(t) <= |t.routed| && Delivered(t, ps) && Consistent(t.acc)
    decreases |steps|
  {
    if steps != [] {
      var u := Apply(s, steps[0]);
      RoutedGrowsRun(u, steps[1..], t);
      PublishedBefore(u.routed, t.routed, ps);
      InvStep(s, steps[0]);
      NoneSkippedStep(s, steps[0]);
      DeliveredStep(s, steps[0], ps);
      DeliveredRun(u, steps[1..], t, ps);
    }
  }

  lemma {:induction false} NonBlankOfPrefix(ps: seq<(string, string)>, c: nat)
    requires c <= |ps|
    ensures NonBlank(ps[..c]) <= NonBlank(ps)
    decreases |ps| - c
  {
    if c < |ps| {
      NonBlankPrefix(ps, c);
      NonBlankOfPrefix(ps, c + 1);
    } else {
      assert ps[..c] == ps;
    }
  }

  /**
   The delivery theorem. For every channel capacity, every interleaving of
   routing, dropping, taking and posting, and every point at which the taker
   stops: what was posted live is a prefix of the non-blank assistant messages
   of the authoritative list (all there is on the timeout path), and a
   successful reconcile then leaves exactly those messages delivered, each once
   and in order.
   */
  lemma ExactlyOnce(cap: nat, steps: seq<Step>, s: State, list: seq<ApiMessage>)
    requires IsRun(Subscribed(cap), steps, s) && Published(s.routed, Assistants(list))
    ensures Deliveries(s.acc) <= Owed(list)
    ensures Deliveries(ReconcileAll(s.acc, list)) == Owed(list)
    ensures ProperIds(Owed(list))
  {
    var ps := Assistants(list);
    var s0 := Subscribed(cap);
    assert CompletedIds(s0.routed, 0) == [];
    assert Deliveries(s0.acc) == [] == NonBlank(ps[..0]);
    DeliveredRun(s0, steps, s, ps);
    NonBlankOfPrefix(ps, |CompletedIds(s.routed, LastPost(s))|);
    ReconcileExact(s.acc, list);
    NonBlankProper(ps);
  }

  /** If the list cannot be read, the synchronous response still gets the final message out, and nothing twice. */
  lemma FallbackDelivers(cap: nat, steps: seq<Step>, s: State, list: seq<ApiMessage>)
    requires IsRun(Subscribed(cap), steps, s) && Published(s.routed, Assistants(list)) && Assistants(list) != []
    ensures var last := Assistants(list)[|Assistants(list)| - 1];
            Deliveries(EmitText(s.acc, last.0, last.1)) ==
              Deliveries(s.acc) + if Blank(last.1) || Deliveries(s.acc) == Owed(list) then [] else [last]
  {
    var last := Assistants(list)[|Assistants(list)| - 1];
    ExactlyOnce(cap, steps, s, list);
    InvRun(Subscribed(cap), steps, s);
    FallbackAddsFinal(s.acc, list, last.0, last.1);
  }
}
