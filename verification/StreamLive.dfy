/** What is posted live while nothing has been lost: every completion, as it comes. */
module StreamLive {
  import opened Options
  import opened Text
  import opened Accumulator
  import opened Reconcile
  import opened Stream
  import opened Delivery

  /** The event is an update that completes assistant message mid. */
  predicate Completes(ev: Event, mid: string) {
    match ev
    case MessageUpdated(Some(info)) => info.role == "assistant" && info.completed > 0 && info.id == mid && mid != ""
    case _ => false
  }

  /** The post made when event i had just been taken. */
  predicate PostedAt(posts: seq<Post>, i: nat, mid: string) {
    exists k :: 0 <= k < |posts| && posts[k].at == i + 1 && posts[k].mid == mid
  }

  /** As long as no completion was folded in with the flag up, each one has its post. */
  ghost predicate AllLive(s: State) {
    !s.sawDrop ==> forall i, mid :: 0 <= i < Folded(s) && Completes(s.taken[i], mid) ==> PostedAt(s.posts, i, mid)
  }

  lemma PostedStays(xs: seq<Post>, ys: seq<Post>, i: nat, mid: string)
    requires PostedAt(xs, i, mid) && xs <= ys
    ensures PostedAt(ys, i, mid)
  {
    var k :| 0 <= k < |xs| && xs[k].at == i + 1 && xs[k].mid == mid;
    assert ys[k] == xs[k];
  }

  lemma AllLivePost(s: State)
    requires TakerOk(s) && AllLive(s) && Enabled(s, PostLive)
    ensures AllLive(Apply(s, PostLive))
  {
    var t := Apply(s, PostLive);
    assert t.taken == s.taken && s.posts <= t.posts;
    forall i, mid | !t.sawDrop && 0 <= i < Folded(t) && Completes(t.taken[i], mid) ensures PostedAt(t.posts, i, mid) {
      if i < Folded(s) {
        PostedStays(s.posts, t.posts, i, mid);
      } else {
        assert t.posts[|s.posts|].at == i + 1 && t.posts[|s.posts|].mid == mid;
      }
    }
  }

  lemma AllLiveStep(s: State, step: Step)
    requires TakerOk(s) && AllLive(s) && Enabled(s, step)
    ensures AllLive(Apply(s, step))
  {
    if step == PostLive {
      AllLivePost(s);
    } else {
      var t := Apply(s, step);
      assert t.posts == s.posts && s.taken <= t.taken;
    }
  }

  lemma {:induction false} AllLiveRun(s: State, steps: seq<Step>, t: State)
    requires Inv(s) && NoneSkipped(s) && AllLive(s) && IsRun(s, steps, t)
    ensures Inv(t) && NoneSkipped(t) && AllLive(t)
    decreases |steps|
  {
    if steps != [] {
      InvStep(s, steps[0]);
      NoneSkippedStep(s, steps[0]);
      AllLiveStep(s, steps[0]);
      AllLiveRun(Apply(s, steps[0]), steps[1..], t);
    }
  }

  /**
   Live posts and completions are the same thing until events are lost: every post
   was made at an update that completes its assistant message, and as long as the
   flag is down every such update folded in so far has its post.
   */
  lemma PostsAreCompletions(cap: nat, steps: seq<Step>, s: State)
    requires IsRun(Subscribed(cap), steps, s)
    ensures forall k :: 0 <= k < |s.posts| ==> 0 < s.posts[k].at <= |s.taken| && Completes(s.taken[s.posts[k].at - 1], s.posts[k].mid)
    ensures !s.dropped ==> forall i, mid :: 0 <= i < Folded(s) && Completes(s.taken[i], mid) ==> PostedAt(s.posts, i, mid)
  {
    assert Inv(Subscribed(cap)) && NoneSkipped(Subscribed(cap)) && AllLive(Subscribed(cap));
    AllLiveRun(Subscribed(cap), steps, s);
    forall k | 0 <= k < |s.posts|
      ensures 0 < s.posts[k].at <= |s.taken| && Completes(s.taken[s.posts[k].at - 1], s.posts[k].mid)
    {
      var p := s.posts[k];
      assert Faithful(s, p);
      assert s.taken[p.at - 1] == s.taken[..p.at][p.at - 1] == s.routed[p.at - 1];
    }
  }

  /** So, if the events agree with the list, live delivery keeps up with it: exactly the non-blank messages completed so far. */
  lemma LiveKeepsUp(cap: nat, steps: seq<Step>, s: State, list: seq<ApiMessage>)
    requires IsRun(Subscribed(cap), steps, s) && Published(s.routed, Assistants(list)) && !s.dropped
    ensures var c := |CompletedIds(s.taken, Folded(s))|;
            c <= |Assistants(list)| && Deliveries(s.acc) == NonBlank(Assistants(list)[..c])
  {
    var s0, ps := Subscribed(cap), Assistants(list);
    assert Inv(s0) && NoneSkipped(s0) && AllLive(s0);
    assert CompletedIds(s0.routed, 0) == [];
    assert Deliveries(s0.acc) == [] == NonBlank(ps[..0]);
    AllLiveRun(s0, steps, s);
    DeliveredRun(s0, steps, s, ps);
    TakenInOrder(s);
    CompletedGrows(s.taken, LastPost(s), Folded(s));
    CompletedPrefix(s.taken, s.routed, LastPost(s));
  }

  /** The ids completed by the first n events are those of the completing updates among them, each once. */
  lemma {:induction false} CompletedOnce(evs: seq<Event>, n: nat)
    requires n <= |evs|
    ensures forall mid :: mid in CompletedIds(evs, n) <==> exists i :: 0 <= i < n && Completes(evs[i], mid)
    ensures forall i, j :: 0 <= i < j < |CompletedIds(evs, n)| ==> CompletedIds(evs, n)[i] != CompletedIds(evs, n)[j]
  {
    if n > 0 {
      var k := n - 1;
      CompletedOnce(evs, k);
      forall mid ensures mid in CompletedIds(evs, n) <==> exists i :: 0 <= i < n && Completes(evs[i], mid) {
        assert mid in CompletedIds(evs, n) <==> mid in CompletedIds(evs, k) || Completes(evs[k], mid);
      }
    }
  }
}
