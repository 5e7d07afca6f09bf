/** What delivery keeps when messages complete in any order, or some never do. */
module DeliveryAnyOrder {
  import opened Options
  import opened Text
  import opened Accumulator
  import opened Reconcile
  import opened Stream

  /**
   The events agree with the assistant messages ps of the authoritative list as
   far as they go: what a message says when it completes is what the list has.
   */
  ghost predicate Agrees(routed: seq<Event>, ps: seq<(string, string)>) {
    && ProperIds(ps)
    && forall n :: 0 <= n < |routed| && IsCompletion(routed[n]) ==>
         (routed[n].info.value.id, TextAt(routed, routed[n].info.value.id, n + 1)) in ps
  }

  /** A live post with this id and text was made. */
  predicate WasPosted(posts: seq<Post>, d: (string, string)) {
    exists i :: 0 <= i < |posts| && posts[i].mid == d.0 && posts[i].text == d.1
  }

  /** Every delivery so far is a live post. */
  ghost predicate AllPosted(s: State) {
    forall d :: d in Deliveries(s.acc) ==> WasPosted(s.posts, d)
  }

  lemma WasPostedStays(xs: seq<Post>, ys: seq<Post>, d: (string, string))
    requires WasPosted(xs, d) && xs <= ys
    ensures WasPosted(ys, d)
  {
    var i :| 0 <= i < |xs| && xs[i].mid == d.0 && xs[i].text == d.1;
    assert ys[i] == xs[i];
  }

  lemma PostDelivers(s: State)
    requires Consistent(s.acc) && s.taker.Cleared? && IsCompletion(MessageUpdated(Some(s.taker.info)))
    ensures var t, d := Apply(s, PostLive), (s.taker.info.id, Assemble(s.acc, s.taker.info.id));
            && (Deliveries(t.acc) == Deliveries(s.acc) || Deliveries(t.acc) == Deliveries(s.acc) + [d])
            && WasPosted(t.posts, d) && s.posts <= t.posts
  {
    var t, d := Apply(s, PostLive), (s.taker.info.id, Assemble(s.acc, s.taker.info.id));
    EmitOnce(s.acc, d.0, d.1);
    assert Deliveries(s.acc) + [] == Deliveries(s.acc);
    assert t.posts[|s.posts|].mid == d.0 && t.posts[|s.posts|].text == d.1;
  }

  lemma QuietDelivers(s: State, step: Step)
    requires Enabled(s, step) && step != PostLive
    ensures Deliveries(Apply(s, step).acc) == Deliveries(s.acc) && Apply(s, step).posts == s.posts
  {
    var t := Apply(s, step);
    assert t.acc.delivered == s.acc.delivered && t.acc.byId == s.acc.byId;
  }

  lemma AllPostedStep(s: State, step: Step)
    requires Inv(s) && AllPosted(s) && Enabled(s, step)
    ensures AllPosted(Apply(s, step))
  {
    var t := Apply(s, step);
    if step == PostLive {
      PostDelivers(s);
      forall d | d in Deliveries(t.acc) ensures WasPosted(t.posts, d) {
        if d in Deliveries(s.acc) { WasPostedStays(s.posts, t.posts, d); }
      }
    } else {
      QuietDelivers(s, step);
    }
  }

  lemma {:induction false} AllPostedRun(s: State, steps: seq<Step>, t: State)
    requires Inv(s) && AllPosted(s) && IsRun(s, steps, t)
    ensures Inv(t) && AllPosted(t)
    decreases |steps|
  {
    if steps != [] {
      InvStep(s, steps[0]);
      AllPostedStep(s, steps[0]);
      AllPostedRun(Apply(s, steps[0]), steps[1..], t);
    }
  }

  /** What was delivered live is owed, and says what the list says. */
  lemma DeliveredIsOwed(s: State, list: seq<ApiMessage>, d: (string, string))
    requires Inv(s) && AllPosted(s) && Agrees(s.routed, Assistants(list)) && d in Deliveries(s.acc)
    ensures d in Owed(list)
  {
    var i :| 0 <= i < |s.posts| && s.posts[i].mid == d.0 && s.posts[i].text == d.1;
    assert Faithful(s, s.posts[i]);
    assert IsCompletion(s.routed[s.posts[i].at - 1]);
    var j :| 0 <= j < |s.acc.delivered| && Deliveries(s.acc)[j] == d;
    assert s.acc.delivered[j] in s.acc.delivered;
    NonBlankMember(Assistants(list), d);
  }

  lemma {:induction false} UnsentHas(ps: seq<(string, string)>, sent: set<string>, p: (string, string))
    ensures p in Unsent(ps, sent) <==> p in ps && p.0 !in sent
  {
    if ps != [] {
      UnsentHas(ps[..|ps| - 1], sent, p);
      assert ps == ps[..|ps| - 1] + [ps[|ps| - 1]];
    }
  }

  lemma SentIsSame(a: Acc, owed: seq<(string, string)>, p: (string, string))
    requires Consistent(a) && ProperIds(owed) && (forall d :: d in Deliveries(a) ==> d in owed)
    requires p in owed && p.0 in a.emitted
    ensures p in Deliveries(a)
  {
    var j :| 0 <= j < |a.delivered| && a.delivered[j] == p.0;
    var d := Deliveries(a)[j];
    assert d in Deliveries(a) && d.0 == p.0;
    var x :| 0 <= x < |owed| && owed[x] == d;
    var y :| 0 <= y < |owed| && owed[y] == p;
    assert x == y;
  }

  /** Sequences without repetition that hold the same elements are permutations of each other. */
  lemma {:induction false} SameElements<T>(xs: seq<T>, ys: seq<T>)
    requires (forall i, j :: 0 <= i < j < |xs| ==> xs[i] != xs[j]) && (forall i, j :: 0 <= i < j < |ys| ==> ys[i] != ys[j])
    requires forall x :: x in xs <==> x in ys
    ensures multiset(xs) == multiset(ys)
  {
    forall x ensures multiset(xs)[x] == multiset(ys)[x] {
      Once(xs, x);
      Once(ys, x);
    }
  }

  lemma {:induction false} Once<T>(xs: seq<T>, x: T)
    requires forall i, j :: 0 <= i < j < |xs| ==> xs[i] != xs[j]
    ensures multiset(xs)[x] == if x in xs then 1 else 0
  {
    if xs != [] {
      var front, last := xs[..|xs| - 1], xs[|xs| - 1];
      Once(front, x);
      assert xs == front + [last];
    }
  }

  lemma IdsDiffer(ps: seq<(string, string)>)
    requires ProperIds(ps)
    ensures forall i, j :: 0 <= i < j < |ps| ==> ps[i] != ps[j]
  {
  }

  lemma KeysDiffer(a: Acc)
    requires Consistent(a)
    ensures forall i, j :: 0 <= i < j < |a.delivered| ==> Deliveries(a)[i] != Deliveries(a)[j]
  {
    forall i, j | 0 <= i < j < |a.delivered| ensures Deliveries(a)[i] != Deliveries(a)[j] {
      assert a.delivered[i] != a.delivered[j];
    }
  }

  /** After the reconcile an accumulator that delivered only what is owed has delivered all of it. */
  lemma ReconcileCompletes(a: Acc, list: seq<ApiMessage>)
    requires Consistent(a) && ProperIds(Assistants(list)) && forall d :: d in Deliveries(a) ==> d in Owed(list)
    ensures multiset(Deliveries(ReconcileAll(a, list))) == multiset(Owed(list))
    ensures Deliveries(a) <= Deliveries(ReconcileAll(a, list))
  {
    var b, owed := ReconcileAll(a, list), Owed(list);
    ReconcileAppends(a, list);
    NonBlankProper(Assistants(list));
    forall p ensures p in Deliveries(b) <==> p in owed {
      UnsentHas(owed, a.emitted, p);
      if p in owed && p.0 in a.emitted {
        SentIsSame(a, owed, p);
      }
    }
    KeysDiffer(b);
    IdsDiffer(owed);
    SameElements(Deliveries(b), owed);
  }

  /**
   Delivery without any assumption on the order in which messages complete, or
   that all of them do: for every capacity, interleaving, pattern of drops and
   stopping point, every live post is an owed message with the list's text, and
   after the reconcile the deliveries are a permutation of the owed messages:
   each of them once, none truncated, nothing lost. Live ones come first.
   */
  lemma OnceEach(cap: nat, steps: seq<Step>, s: State, list: seq<ApiMessage>)
    requires IsRun(Subscribed(cap), steps, s) && Agrees(s.routed, Assistants(list))
    ensures forall d :: d in Deliveries(s.acc) ==> d in Owed(list)
    ensures multiset(Deliveries(ReconcileAll(s.acc, list))) == multiset(Owed(list))
    ensures Deliveries(s.acc) <= Deliveries(ReconcileAll(s.acc, list))
  {
    assert Inv(Subscribed(cap)) && AllPosted(Subscribed(cap));
    AllPostedRun(Subscribed(cap), steps, s);
    forall d | d in Deliveries(s.acc) ensures d in Owed(list) {
      DeliveredIsOwed(s, list, d);
    }
    ReconcileCompletes(s.acc, list);
  }
}
