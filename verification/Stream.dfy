/**
 One turn's live stream as a protocol: the SSE reader routes events into the
 session's bounded channel (client.go:199-216) while the Invoke goroutine takes
 them out and folds them in (invoker.go:140-161, 190-212). The reader's failed
 send and its store of the dropped flag are two steps; so are the taker's
 receive, its load of the flag and its post. Where the taker stops is arbitrary.
 */
module Stream {
  import opened Options
  import opened Accumulator

  /** Dropping: the send found the channel full and the flag is not stored yet. */
  datatype Reader = Free | Dropping

  /** Cleared: the taker holds a completion and has loaded the flag as false. */
  datatype Taker = Looping | Holding(ev: Event) | Cleared(info: Info) | Stopped

  /** A live completion given to emitText: message mid was assembled to text after `at` events had been taken. */
  datatype Post = Post(mid: string, text: string, at: nat)

  datatype State = State(
    cap: nat,
    chan: seq<Event>,
    dropped: bool,
    reader: Reader,
    taker: Taker,
    acc: Acc,
    err: Option<string>,
    // History.
    routed: seq<Event>,   // events that reached route for this session, in order
    taken: seq<Event>,    // events received from the channel, in order
    firstLost: Option<nat>,
    sawDrop: bool,        // some completion was folded with the flag loaded as true
    posts: seq<Post>)

  function Subscribed(cap: nat): State {
    State(cap, [], false, Free, Looping, EMPTY, None, [], [], None, false, [])
  }

  datatype Step = Route(ev: Event) | StoreFlag | Take | Fold | PostLive | Stop

  predicate Enabled(s: State, step: Step) {
    match step
    case Route(_) => s.reader == Free
    case StoreFlag => s.reader == Dropping
    case Take => s.taker == Looping && s.chan != []
    case Fold => s.taker.Holding?
    case PostLive => s.taker.Cleared?
    case Stop => s.taker == Looping
  }

  function Apply(s: State, step: Step): State
    requires Enabled(s, step)
  {
    match step
    case Route(ev) =>
      if |s.chan| < s.cap then s.(chan := s.chan + [ev], routed := s.routed + [ev])
      else s.(reader := Dropping, routed := s.routed + [ev],
              firstLost := if s.firstLost.None? then Some(|s.routed|) else s.firstLost)
    case StoreFlag =>
      s.(reader := Free, dropped := true)
    case Take =>
      s.(taker := Holding(s.chan[0]), chan := s.chan[1..], taken := s.taken + [s.chan[0]])
    case Fold =>
      var ev := s.taker.ev;
      if IsCompletion(ev) && !s.dropped then s.(taker := Cleared(ev.info.value))
      else s.(taker := Looping, acc := Handle(s.acc, ev, true), err := ErrorAfter(s.err, ev),
              sawDrop := s.sawDrop || IsCompletion(ev))
    case PostLive =>
      var ev := MessageUpdated(Some(s.taker.info));
      var mid := s.taker.info.id;
      s.(taker := Looping, acc := Handle(s.acc, ev, false), err := ErrorAfter(s.err, ev),
         posts := s.posts + [Post(mid, Assemble(s.acc, mid), |s.taken|)])
    case Stop =>
      s.(taker := Stopped)
  }

  /** The whole of route's select: the event is routed, and if it was lost the flag is stored. */
  function Offered(s: State, ev: Event): State
    requires s.reader == Free
  {
    var t := Apply(s, Route(ev));
    if t.reader == Dropping then Apply(t, StoreFlag) else t
  }

  ghost predicate IsRun(s: State, steps: seq<Step>, t: State)
    decreases |steps|
  {
    if steps == [] then s == t
    else Enabled(s, steps[0]) && IsRun(Apply(s, steps[0]), steps[1..], t)
  }

  // ------------------------------------------------------------------- the flow

  /** How many of the taken events have been folded in. */
  function Folded(s: State): nat {
    if s.taken != [] && (s.taker.Holding? || s.taker.Cleared?) then |s.taken| - 1 else |s.taken|
  }

  /**
   What was taken and what is in the channel are what was routed, up to the first
   loss; and until the flag is stored nothing follows the lost event.
   */
  ghost predicate Flow(s: State) {
    var all := s.taken + s.chan;
    && |s.chan| <= s.cap
    && (match s.firstLost
        case None => all == s.routed && !s.dropped && s.reader == Free
        case Some(k) =>
          && k < |s.routed| && k <= |all|
          && all[..k] == s.routed[..k]
          && (s.dropped || (s.reader == Dropping && |all| == k)))
  }

  ghost predicate TakerOk(s: State) {
    && (s.taker.Holding? ==> s.taken != [] && s.taken[|s.taken| - 1] == s.taker.ev)
    && (s.taker.Cleared? ==>
          && s.taken != [] && s.taken[|s.taken| - 1] == MessageUpdated(Some(s.taker.info))
          && IsCompletion(MessageUpdated(Some(s.taker.info)))
          && s.taken <= s.routed
          && !s.sawDrop)
    && (s.sawDrop ==> s.dropped)
  }

  /** The accumulator holds what the folded events say. */
  ghost predicate AccOk(s: State) {
    Reflects(s.acc, s.taken, Folded(s)) && Consistent(s.acc)
  }

  lemma FlowRoute(s: State, ev: Event)
    requires Flow(s) && TakerOk(s) && Enabled(s, Route(ev))
    ensures Flow(Apply(s, Route(ev))) && TakerOk(Apply(s, Route(ev)))
  {
    var t := Apply(s, Route(ev));
    assert |s.chan| < s.cap ==> t.taken + t.chan == (s.taken + s.chan) + [ev];
  }

  lemma FlowTake(s: State)
    requires Flow(s) && TakerOk(s) && Enabled(s, Take)
    ensures Flow(Apply(s, Take)) && TakerOk(Apply(s, Take))
  {
    var t := Apply(s, Take);
    assert t.taken + t.chan == s.taken + s.chan;
  }

  /** While the flag is down what has been taken is a prefix of what was routed. */
  lemma TakenInOrder(s: State)
    requires Flow(s) && !s.dropped
    ensures s.taken <= s.routed
  {
    var all := s.taken + s.chan;
    assert s.taken == all[..|s.taken|];
    if s.firstLost.Some? {
      assert all == all[..s.firstLost.value];
    }
  }

  lemma FlowStep(s: State, step: Step)
    requires Flow(s) && TakerOk(s) && Enabled(s, step)
    ensures Flow(Apply(s, step)) && TakerOk(Apply(s, step))
  {
    match step
    case Route(ev) => FlowRoute(s, ev);
    case Take => FlowTake(s);
    case Fold =>
      if !s.dropped { TakenInOrder(s); }
    case _ =>
  }

  lemma {:induction false} ReflectsPrefix(a: Acc, xs: seq<Event>, ys: seq<Event>, n: nat)
    requires n <= |xs| && n <= |ys| && (forall i :: 0 <= i < n ==> xs[i] == ys[i]) && Reflects(a, xs, n)
    ensures Reflects(a, ys, n)
  {
    forall mid: string ensures OrderOf(a, mid) == FirstIds(ys, mid, n) {
      FirstIdsPrefix(xs, ys, mid, n);
    }
    forall mid, pid ensures PartOk(a, ys, n, mid, pid) {
      assert PartOk(a, xs, n, mid, pid);
      LastTextPrefix(xs, ys, mid, pid, n);
    }
  }

  lemma {:induction false} FirstIdsPrefix(xs: seq<Event>, ys: seq<Event>, mid: string, n: nat)
    requires n <= |xs| && n <= |ys| && (forall i :: 0 <= i < n ==> xs[i] == ys[i])
    ensures FirstIds(xs, mid, n) == FirstIds(ys, mid, n)
  {
    if n > 0 {
      FirstIdsPrefix(xs, ys, mid, n - 1);
    }
  }

  lemma AccFold(a: Acc, evs: seq<Event>, n: nat, lossy: bool)
    requires n < |evs| && Reflects(a, evs, n) && Consistent(a)
    ensures Reflects(Handle(a, evs[n], lossy), evs, n + 1) && Consistent(Handle(a, evs[n], lossy))
  {
    ReflectsHandle(a, evs, n, lossy);
    HandleConsistent(a, evs[n], lossy);
  }

  lemma AccStep(s: State, step: Step)
    requires TakerOk(s) && AccOk(s) && Enabled(s, step)
    ensures AccOk(Apply(s, step))
  {
    match step
    case Take => AccTake(s);
    case Fold => AccFoldStep(s);
    case PostLive => AccPost(s);
    case _ => assert Apply(s, step).acc == s.acc && Apply(s, step).taken == s.taken && Folded(Apply(s, step)) == Folded(s);
  }

  lemma AccTake(s: State)
    requires AccOk(s) && Enabled(s, Take)
    ensures AccOk(Apply(s, Take))
  {
    var t := Apply(s, Take);
    assert t.taken == s.taken + [s.chan[0]] && t.acc == s.acc && Folded(s) == Folded(t) == |s.taken|;
    ReflectsPrefix(s.acc, s.taken, t.taken, |s.taken|);
  }

  lemma AccFoldStep(s: State)
    requires TakerOk(s) && AccOk(s) && Enabled(s, Fold)
    ensures AccOk(Apply(s, Fold))
  {
    var t := Apply(s, Fold);
    var n := |s.taken| - 1;
    assert Folded(s) == n && t.taken == s.taken && s.taken[n] == s.taker.ev;
    if t.taker.Cleared? {
      assert t.acc == s.acc && Folded(t) == n;
    } else {
      AccFold(s.acc, s.taken, n, true);
      assert t.acc == Handle(s.acc, s.taken[n], true) && Folded(t) == n + 1;
    }
  }

  lemma AccPost(s: State)
    requires TakerOk(s) && AccOk(s) && Enabled(s, PostLive)
    ensures AccOk(Apply(s, PostLive))
  {
    var t := Apply(s, PostLive);
    var n := |s.taken| - 1;
    assert Folded(s) == n && t.taken == s.taken && s.taken[n] == MessageUpdated(Some(s.taker.info));
    AccFold(s.acc, s.taken, n, false);
    assert t.acc == Handle(s.acc, s.taken[n], false) && Folded(t) == n + 1;
  }

  /** What a live post says: everything routed before its completion, and nothing else, went into it. */
  ghost predicate Faithful(s: State, p: Post) {
    && 0 < p.at <= |s.taken| && p.at <= |s.routed|
    && s.taken[..p.at] == s.routed[..p.at]
    && IsCompletion(s.routed[p.at - 1]) && s.routed[p.at - 1].info.value.id == p.mid
    && p.text == TextAt(s.routed, p.mid, p.at)
  }

  ghost predicate PostsOk(s: State) {
    forall i :: 0 <= i < |s.posts| ==> Faithful(s, s.posts[i])
  }

  lemma FaithfulKept(s: State, t: State, p: Post)
    requires Faithful(s, p) && s.taken <= t.taken && s.routed <= t.routed
    ensures Faithful(t, p)
  {
    assert t.taken[..p.at] == s.taken[..p.at];
    assert t.routed[..p.at] == s.routed[..p.at];
    TextAtPrefix(s.routed, t.routed, p.mid, p.at);
  }

  lemma TextOfPrefix(a: Acc, taken: seq<Event>, routed: seq<Event>, mid: string)
    requires taken != [] && taken <= routed && !IsTextPart(taken[|taken| - 1]) && Reflects(a, taken, |taken| - 1)
    ensures Assemble(a, mid) == TextAt(routed, mid, |taken|)
  {
    ReflectsOther(a, a, taken, |taken| - 1);
    AssembleReflects(a, taken, |taken|);
    TextAtPrefix(taken, routed, mid, |taken|);
  }

  /** The text the taker is about to post is the text of everything routed so far up to this completion. */
  lemma PostIsFaithful(s: State, text: string)
    requires TakerOk(s) && AccOk(s) && s.taker.Cleared? && text == Assemble(s.acc, s.taker.info.id)
    ensures Faithful(Apply(s, PostLive), Post(s.taker.info.id, text, |s.taken|))
  {
    assert Folded(s) == |s.taken| - 1;
    TextOfPrefix(s.acc, s.taken, s.routed, s.taker.info.id);
    FaithfulNow(s, text);
  }

  lemma FaithfulNow(s: State, text: string)
    requires TakerOk(s) && s.taker.Cleared? && text == TextAt(s.routed, s.taker.info.id, |s.taken|)
    ensures Faithful(Apply(s, PostLive), Post(s.taker.info.id, text, |s.taken|))
  {
    var n := |s.taken|;
    assert s.taken[..n] == s.routed[..n];
    assert s.routed[n - 1] == s.routed[..n][n - 1] == s.taken[n - 1];
  }

  lemma PostsStep(s: State, step: Step)
    requires TakerOk(s) && AccOk(s) && PostsOk(s) && Enabled(s, step)
    ensures PostsOk(Apply(s, step))
  {
    var t := Apply(s, step);
    HistoryGrows(s, step);
    if step == PostLive {
      PostIsFaithful(s, Assemble(s.acc, s.taker.info.id));
    }
    PostsKept(s, t);
  }

  lemma HistoryGrows(s: State, step: Step)
    requires Enabled(s, step)
    ensures s.taken <= Apply(s, step).taken && s.routed <= Apply(s, step).routed
    ensures if step == PostLive then Apply(s, step).posts == s.posts + [Post(s.taker.info.id, Assemble(s.acc, s.taker.info.id), |s.taken|)]
            else Apply(s, step).posts == s.posts
  {
  }

  lemma PostsKept(s: State, t: State)
    requires PostsOk(s) && s.taken <= t.taken && s.routed <= t.routed && s.posts <= t.posts
    requires forall i :: |s.posts| <= i < |t.posts| ==> Faithful(t, t.posts[i])
    ensures PostsOk(t)
  {
    forall i | 0 <= i < |s.posts| ensures Faithful(t, t.posts[i]) {
      FaithfulKept(s, t, s.posts[i]);
    }
  }

  ghost predicate Inv(s: State) {
    Flow(s) && TakerOk(s) && AccOk(s) && PostsOk(s)
  }

  lemma InvStep(s: State, step: Step)
    requires Inv(s) && Enabled(s, step)
    ensures Inv(Apply(s, step))
  {
    FlowStep(s, step);
    AccStep(s, step);
    PostsStep(s, step);
  }

  lemma {:induction false} InvRun(s: State, steps: seq<Step>, t: State)
    requires Inv(s) && IsRun(s, steps, t)
    ensures Inv(t)
    decreases |steps|
  {
    if steps != [] {
      InvStep(s, steps[0]);
      InvRun(Apply(s, steps[0]), steps[1..], t);
    }
  }

  /**
   No live post is ever truncated: for every capacity and every interleaving, at
   each live post the events taken were exactly a prefix of those routed, ending
   in the message's completion, and the text is the assembly of that prefix.
   */
  lemma NoTruncation(cap: nat, steps: seq<Step>, s: State)
    requires IsRun(Subscribed(cap), steps, s)
    ensures forall p :: p in s.posts ==> Faithful(s, p)
    ensures |s.chan| <= cap
    ensures s.dropped ==> s.firstLost.Some?
  {
    assert Inv(Subscribed(cap));
    InvRun(Subscribed(cap), steps, s);
    CapKept(Subscribed(cap), steps, s);
  }

  lemma {:induction false} CapKept(s: State, steps: seq<Step>, t: State)
    requires IsRun(s, steps, t)
    ensures t.cap == s.cap
    decreases |steps|
  {
    if steps != [] {
      CapKept(Apply(s, steps[0]), steps[1..], t);
    }
  }

  /** The flag is sticky, and once it is stored a post already cleared is the last one of the turn. */
  lemma {:induction false} NoPostAfterFlag(s: State, steps: seq<Step>, t: State)
    requires s.dropped && IsRun(s, steps, t)
    ensures t.dropped
    ensures !s.taker.Cleared? ==> t.posts == s.posts && !t.taker.Cleared?
    ensures s.posts <= t.posts && |t.posts| <= |s.posts| + 1
    decreases |steps|
  {
    if steps != [] {
      NoPostAfterFlag(Apply(s, steps[0]), steps[1..], t);
    }
  }

  // --------------------------------------------------- posts and the lost event

  /** Every post, made or about to be made, is for a completion routed before the first lost event. */
  ghost predicate BeforeLoss(s: State) {
    s.firstLost.Some? ==>
      && (s.taker.Cleared? ==> |s.taken| <= s.firstLost.value)
      && (forall i :: 0 <= i < |s.posts| ==> s.posts[i].at <= s.firstLost.value)
  }

  lemma BeforeLossStep(s: State, step: Step)
    requires Flow(s) && TakerOk(s) && PostsOk(s) && BeforeLoss(s) && Enabled(s, step)
    ensures BeforeLoss(Apply(s, step))
  {
    match step
    case Route(_) =>
      if s.taker.Cleared? { assert |s.taken| <= |s.routed|; }
      forall i | 0 <= i < |s.posts| ensures s.posts[i].at <= |s.routed| { assert Faithful(s, s.posts[i]); }
    case Fold =>
      if s.firstLost.Some? && Apply(s, step).taker.Cleared? { FlagStillDown(s); }
    case _ =>
  }

  /** While the flag is down after a loss, nothing but what was routed before the lost event has been taken. */
  lemma FlagStillDown(s: State)
    requires Flow(s) && s.firstLost.Some? && !s.dropped
    ensures |s.taken| <= s.firstLost.value
  {
  }

  lemma {:induction false} BeforeLossRun(s: State, steps: seq<Step>, t: State)
    requires Inv(s) && BeforeLoss(s) && IsRun(s, steps, t)
    ensures Inv(t) && BeforeLoss(t)
    decreases |steps|
  {
    if steps != [] {
      InvStep(s, steps[0]);
      BeforeLossStep(s, steps[0]);
      BeforeLossRun(Apply(s, steps[0]), steps[1..], t);
    }
  }

  /**
   What a loss does to live posts: no message whose completion is the first lost
   event, or comes after it, is ever posted live, in this state or a later one.
   */
  lemma NothingPostedPastLoss(cap: nat, past: seq<Step>, s: State, steps: seq<Step>, t: State)
    requires IsRun(Subscribed(cap), past, s) && s.firstLost.Some? && IsRun(s, steps, t)
    ensures t.firstLost == s.firstLost
    ensures forall p :: p in t.posts ==> p.at <= s.firstLost.value
  {
    assert Inv(Subscribed(cap)) && BeforeLoss(Subscribed(cap));
    BeforeLossRun(Subscribed(cap), past, s);
    BeforeLossRun(s, steps, t);
    FirstLostKept(s, steps, t);
  }

  lemma {:induction false} FirstLostKept(s: State, steps: seq<Step>, t: State)
    requires s.firstLost.Some? && IsRun(s, steps, t)
    ensures t.firstLost == s.firstLost
    decreases |steps|
  {
    if steps != [] {
      FirstLostKept(Apply(s, steps[0]), steps[1..], t);
    }
  }
}
