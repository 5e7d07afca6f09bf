/**
 The typing nudge (internal/adapter/typing.go) as a protocol: any number of
 overlapping Posts and one keepalive loop interleave. EndPost's decrement and
 its send are two steps; so are the loop's Idle check and its call of fire.
 */
module Typing {
  /** The in-flight counter, and whether the one-slot resume channel is full. */
  datatype Signal = Signal(posting: int, resume: bool)

  const NEW := Signal(0, false)

  function Begin(g: Signal): Signal {
    g.(posting := g.posting + 1)
  }

  function Decrement(g: Signal): Signal {
    g.(posting := g.posting - 1)
  }

  /** The non-blocking send: a full slot stays full. */
  function Nudge(g: Signal): Signal {
    g.(resume := true)
  }

  /** Sending: EndPost has brought the counter to zero and has not sent yet. */
  datatype PostPhase = InFlight | Sending

  /** Checking: before an Idle check. Firing: the check passed and fire has not been called yet. */
  datatype LoopPhase = Checking(cause: Cause) | Waiting | Firing(cause: Cause) | Stopped

  datatype Cause = Start | Tick | Resume

  datatype State = State(g: Signal, posts: map<nat, PostPhase>, loop: LoopPhase)

  function Init(): State {
    State(NEW, map[], Checking(Start))
  }

  datatype Step =
    | BeginPost(p: nat)
    | EndPost(p: nat)
    | Send(p: nat)
    | TickArrives
    | TakeResume
    | CheckIdle
    | Fire
    | Cancel

  predicate Enabled(s: State, step: Step) {
    match step
    case BeginPost(p) => p !in s.posts
    case EndPost(p) => p in s.posts && s.posts[p] == InFlight
    case Send(p) => p in s.posts && s.posts[p] == Sending
    case TickArrives => s.loop == Waiting
    case TakeResume => s.loop == Waiting && s.g.resume
    case CheckIdle => s.loop.Checking?
    case Fire => s.loop.Firing?
    case Cancel => s.loop == Waiting
  }

  function Apply(s: State, step: Step): State
    requires Enabled(s, step)
  {
    match step
    case BeginPost(p) =>
      s.(g := Begin(s.g), posts := s.posts[p := InFlight])
    case EndPost(p) =>
      var g := Decrement(s.g);
      s.(g := g, posts := if g.posting == 0 then s.posts[p := Sending] else s.posts - {p})
    case Send(p) =>
      s.(g := Nudge(s.g), posts := s.posts - {p})
    case TickArrives =>
      s.(loop := Checking(Tick))
    case TakeResume =>
      s.(g := s.g.(resume := false), loop := Checking(Resume))
    case CheckIdle =>
      s.(loop := if s.g.posting == 0 then Firing(s.loop.cause) else Waiting)
    case Fire =>
      s.(loop := Waiting)
    case Cancel =>
      s.(loop := Stopped)
  }

  /** A run: states[0], steps[0], states[1], ... */
  datatype Run = Run(states: seq<State>, steps: seq<Step>)

  ghost predicate IsRun(r: Run) {
    && |r.states| == |r.steps| + 1
    && r.states[0] == Init()
    && forall i :: 0 <= i < |r.steps| ==> Enabled(r.states[i], r.steps[i]) && r.states[i + 1] == Apply(r.states[i], r.steps[i])
  }

  // --------------------------------------------------------------- the counter

  function InFlightPosts(s: State): set<nat> {
    set p | p in s.posts && s.posts[p] == InFlight
  }

  ghost predicate Counted(s: State) {
    s.g.posting == |InFlightPosts(s)|
  }

  lemma CountedStep(s: State, step: Step)
    requires Counted(s) && Enabled(s, step)
    ensures Counted(Apply(s, step))
  {
    var t := Apply(s, step);
    match step
    case BeginPost(p) =>
      assert InFlightPosts(t) == InFlightPosts(s) + {p};
    case EndPost(p) =>
      assert p in InFlightPosts(s) && InFlightPosts(t) == InFlightPosts(s) - {p};
    case _ =>
      assert InFlightPosts(t) == InFlightPosts(s);
  }

  /** The counter is the number of Posts in flight, in every reachable state. */
  lemma {:induction false} CounterCounts(r: Run, n: nat)
    requires IsRun(r) && n <= |r.steps|
    ensures Counted(r.states[n])
  {
    if n == 0 {
      assert InFlightPosts(Init()) == {};
    } else {
      CounterCounts(r, n - 1);
      CountedStep(r.states[n - 1], r.steps[n - 1]);
    }
  }

  // ------------------------------------------------------------ no lost nudge

  /** Some Post has begun by step n, and fire has not been called since with no Post in flight. */
  ghost predicate Overdue(r: Run, n: nat)
    requires IsRun(r) && n <= |r.steps|
  {
    exists b :: 0 <= b < n && r.steps[b].BeginPost? &&
                  forall k :: b < k < n ==> !(r.steps[k] == Fire && r.states[k].g.posting == 0)
  }

  predicate SendDue(s: State) {
    exists p :: p in s.posts && s.posts[p] == Sending
  }

  /** The loop is bound to look again, or to fire, without being woken. */
  predicate LoopWillLook(s: State) {
    s.loop == Checking(Start) || s.loop == Checking(Resume) || s.loop.Firing? || s.loop.Stopped?
  }

  ghost predicate NudgeOk(r: Run, n: nat)
    requires IsRun(r) && n <= |r.steps|
  {
    var s := r.states[n];
    Overdue(r, n) && s.g.posting == 0 ==> s.g.resume || SendDue(s) || LoopWillLook(s)
  }

  lemma OverdueBefore(r: Run, n: nat)
    requires IsRun(r) && n < |r.steps| && Overdue(r, n + 1) && !r.steps[n].BeginPost?
    ensures Overdue(r, n) && !(r.steps[n] == Fire && r.states[n].g.posting == 0)
  {
  }

  lemma NudgeStep(r: Run, n: nat)
    requires IsRun(r) && n < |r.steps| && NudgeOk(r, n) && Counted(r.states[n])
    ensures NudgeOk(r, n + 1)
  {
    var s, t, step := r.states[n], r.states[n + 1], r.steps[n];
    assert Enabled(s, step) && t == Apply(s, step);
    if Overdue(r, n + 1) && t.g.posting == 0 {
      match step
      case BeginPost(p) =>
      case EndPost(p) =>
        assert t.posts[p] == Sending;
      case Send(p) =>
      case Fire =>
        OverdueBefore(r, n);
      case _ =>
        OverdueBefore(r, n);
        assert t.posts == s.posts;
    }
  }

  lemma {:induction false} NudgeRun(r: Run, n: nat)
    requires IsRun(r) && n <= |r.steps|
    ensures NudgeOk(r, n)
  {
    if n > 0 {
      NudgeRun(r, n - 1);
      CounterCounts(r, n - 1);
      NudgeStep(r, n - 1);
    }
  }

  /**
   No lost nudge. In every run: when the loop waits, no Post is in flight, no
   EndPost is between its decrement and its send, and fire has not been called
   with no Post in flight since some Post began, a resume token is pending.
   */
  lemma NoLostNudge(r: Run, n: nat)
    requires IsRun(r) && n <= |r.steps| && Overdue(r, n)
    requires r.states[n].loop == Waiting && r.states[n].posts == map[]
    ensures r.states[n].g.resume
  {
    NudgeRun(r, n);
    CounterCounts(r, n);
    assert InFlightPosts(r.states[n]) == {};
  }

  /** From step m to step n no Post begins and the loop is not cancelled. */
  ghost predicate Undisturbed(r: Run, m: nat, n: nat)
    requires IsRun(r)
  {
    m <= n <= |r.steps| && forall k :: m <= k < n ==> !r.steps[k].BeginPost? && r.steps[k] != Cancel
  }

  /** fire was called between steps m and n with no Post in flight. */
  ghost predicate FiredIdle(r: Run, m: nat, n: nat)
    requires IsRun(r) && n <= |r.steps|
  {
    exists k :: m <= k < n && r.steps[k] == Fire && r.states[k].g.posting == 0
  }

  lemma NoneToEnd(s: State, p: nat)
    requires Counted(s) && s.g.posting == 0
    ensures !Enabled(s, EndPost(p))
  {
    assert p !in InFlightPosts(s);
  }

  lemma {:induction false} StaysIdle(r: Run, m: nat, n: nat)
    requires IsRun(r) && Undisturbed(r, m, n) && r.states[m].g.posting == 0
    ensures r.states[n].g.posting == 0
    decreases n
  {
    if m < n {
      StaysIdle(r, m, n - 1);
      CounterCounts(r, n - 1);
      var s, step := r.states[n - 1], r.steps[n - 1];
      assert Enabled(s, step) && r.states[n] == Apply(s, step);
      if step.EndPost? {
        NoneToEnd(s, step.p);
        assert false;
      }
    }
  }

  /** Up to step n the loop has only waited, or is on its way to fire, or has fired. */
  lemma {:induction false} OnItsWay(r: Run, m: nat, n: nat)
    requires IsRun(r) && Undisturbed(r, m, n) && r.states[m].loop == Waiting && r.states[m].g.posting == 0
    ensures (forall k :: m <= k <= n ==> r.states[k].loop == Waiting) || r.states[n].loop.Checking? || r.states[n].loop.Firing? || FiredIdle(r, m, n)
    decreases n
  {
    if m < n {
      OnItsWay(r, m, n - 1);
      StaysIdle(r, m, n - 1);
      var s, step := r.states[n - 1], r.steps[n - 1];
      assert Enabled(s, step) && r.states[n] == Apply(s, step);
    }
  }

  /** The loop leaves Waiting for a pending token only to fire: a token always can be taken, and it stays until it is. */
  lemma {:induction false} TokenStays(r: Run, m: nat, n: nat)
    requires IsRun(r) && m <= n <= |r.steps| && r.states[m].g.resume && forall k :: m <= k < n ==> r.steps[k] != TakeResume
    ensures r.states[n].g.resume
    ensures r.states[n].loop == Waiting ==> Enabled(r.states[n], TakeResume)
    decreases n
  {
    if m < n {
      TokenStays(r, m, n - 1);
      assert r.states[n] == Apply(r.states[n - 1], r.steps[n - 1]);
    }
  }

  /**
   A nudge fires. In every run, from a state where the loop waits, a token is
   pending and no Post is in flight, and as long as no Post begins and the loop
   is not cancelled: the loop can always go on, and once it has left Waiting and
   come back, fire has been called with no Post in flight.
   */
  lemma NudgeFires(r: Run, m: nat, n: nat)
    requires IsRun(r) && Undisturbed(r, m, n)
    requires r.states[m].loop == Waiting && r.states[m].g.resume && r.states[m].g.posting == 0
    ensures (exists k :: m <= k <= n && r.states[k].loop != Waiting) && r.states[n].loop == Waiting ==> FiredIdle(r, m, n)
    ensures !FiredIdle(r, m, n) ==>
              exists step :: Enabled(r.states[n], step) && (step == TakeResume || step == CheckIdle || step == Fire)
  {
    OnItsWay(r, m, n);
    if !FiredIdle(r, m, n) {
      var s := r.states[n];
      if forall k :: m <= k <= n ==> r.states[k].loop == Waiting {
        forall k | m <= k < n ensures r.steps[k] != TakeResume {
          assert r.states[k + 1] == Apply(r.states[k], r.steps[k]);
        }
        TokenStays(r, m, n);
        assert Enabled(s, TakeResume);
      } else if s.loop.Checking? {
        assert Enabled(s, CheckIdle);
      } else {
        assert Enabled(s, Fire);
      }
    }
  }

  /** Once it is looking, an undisturbed loop with no Post in flight is looking still, on its way to fire, or has fired. */
  lemma {:induction false} LookingFires(r: Run, m: nat, n: nat)
    requires IsRun(r) && Undisturbed(r, m, n) && r.states[m].loop.Checking? && r.states[m].g.posting == 0
    ensures r.states[n].loop.Checking? || r.states[n].loop.Firing? || FiredIdle(r, m, n)
    decreases n
  {
    if m < n {
      LookingFires(r, m, n - 1);
      StaysIdle(r, m, n - 1);
      var s, step := r.states[n - 1], r.steps[n - 1];
      assert Enabled(s, step) && r.states[n] == Apply(s, step);
    }
  }

  /**
   A tick fires. In every run, from a tick that comes with no Post in flight, and as
   long as no Post begins and the loop is not cancelled: before the loop waits again
   fire has been called with no Post in flight, and until then it can always go on.
   */
  lemma TickFires(r: Run, m: nat, n: nat)
    requires IsRun(r) && Undisturbed(r, m, n) && m < n && r.steps[m] == TickArrives && r.states[m].g.posting == 0
    ensures r.states[n].loop == Waiting ==> FiredIdle(r, m, n)
    ensures !FiredIdle(r, m, n) ==> exists step :: Enabled(r.states[n], step) && (step == CheckIdle || step == Fire)
  {
    assert r.states[m + 1] == Apply(r.states[m], r.steps[m]);
    LookingFires(r, m + 1, n);
    if !FiredIdle(r, m, n) {
      var s := r.states[n];
      assert Enabled(s, if s.loop.Checking? then CheckIdle else Fire);
    }
  }

  /** Every tick and every token taken is followed by a look before the loop waits again. */
  lemma {:induction false} WakesToLook(r: Run, m: nat, n: nat)
    requires IsRun(r) && m < n <= |r.steps| && (r.steps[m] == TickArrives || r.steps[m] == TakeResume)
    ensures r.states[n].loop.Checking? || exists k :: m < k < n && r.steps[k] == CheckIdle
    decreases n
  {
    assert r.states[n] == Apply(r.states[n - 1], r.steps[n - 1]);
    if m < n - 1 {
      WakesToLook(r, m, n - 1);
    }
  }

  // ------------------------------------------------------------------ tokens

  /** Step j is the end of Post p, and the last one in flight. */
  predicate LastEnd(r: Run, j: nat, p: nat)
    requires IsRun(r) && j < |r.steps|
  {
    r.steps[j] == EndPost(p) && r.states[j + 1].g.posting == 0
  }

  lemma {:induction false} SendingEnded(r: Run, n: nat, p: nat) returns (j: nat)
    requires IsRun(r) && n <= |r.steps| && p in r.states[n].posts && r.states[n].posts[p] == Sending
    ensures j < n && LastEnd(r, j, p)
  {
    assert n > 0;
    assert r.states[n] == Apply(r.states[n - 1], r.steps[n - 1]);
    if r.steps[n - 1] == EndPost(p) {
      j := n - 1;
    } else {
      j := SendingEnded(r, n - 1, p);
    }
  }

  /**
   No wake-up without a cause: a pending token was sent, and not taken since, by a
   Post whose end brought the counter to zero. So no two tokens are taken without a
   send in between.
   */
  lemma {:induction false} TokenHasCause(r: Run, n: nat) returns (j: nat, k: nat)
    requires IsRun(r) && n <= |r.steps| && r.states[n].g.resume
    ensures j < k < n && r.steps[k].Send? && LastEnd(r, j, r.steps[k].p)
    ensures forall i :: k < i < n ==> r.steps[i] != TakeResume
  {
    assert n > 0;
    var s, step := r.states[n - 1], r.steps[n - 1];
    assert Enabled(s, step) && r.states[n] == Apply(s, step);
    if step.Send? {
      k := n - 1;
      j := SendingEnded(r, k, step.p);
    } else {
      j, k := TokenHasCause(r, n - 1);
    }
  }

  // ----------------------------------------------------- firing during a Post

  /** Post p began between steps c and n and is in flight at n. */
  predicate BegunSince(r: Run, c: nat, n: nat, p: nat)
    requires IsRun(r) && c <= n <= |r.steps|
  {
    p in r.states[n].posts && r.states[n].posts[p] == InFlight && exists k :: c <= k < n && r.steps[k] == BeginPost(p)
  }

  lemma {:induction false} FlightBegan(r: Run, c: nat, n: nat, p: nat)
    requires IsRun(r) && c <= n <= |r.steps|
    requires p in InFlightPosts(r.states[n]) && p !in InFlightPosts(r.states[c])
    ensures BegunSince(r, c, n, p)
    decreases n
  {
    if c < n {
      assert r.states[n] == Apply(r.states[n - 1], r.steps[n - 1]);
      if r.steps[n - 1] != BeginPost(p) {
        FlightBegan(r, c, n - 1, p);
      }
    }
  }

  /** Step c is the Idle check that let the call of fire at step n happen. */
  predicate CheckedAt(r: Run, c: nat, n: nat)
    requires IsRun(r)
  {
    && c < n < |r.steps| && r.steps[c] == CheckIdle && r.steps[n] == Fire
    && forall k :: c < k < n ==> r.steps[k].BeginPost? || r.steps[k].EndPost? || r.steps[k].Send?
  }

  lemma {:induction false} LastCheck(r: Run, n: nat) returns (c: nat)
    requires IsRun(r) && n < |r.steps| && r.states[n].loop.Firing?
    ensures c < n && r.steps[c] == CheckIdle && r.states[c].g.posting == 0
    ensures forall k :: c < k < n ==> r.steps[k].BeginPost? || r.steps[k].EndPost? || r.steps[k].Send?
  {
    assert n > 0;
    assert r.states[n] == Apply(r.states[n - 1], r.steps[n - 1]);
    if r.steps[n - 1] == CheckIdle {
      c := n - 1;
    } else {
      c := LastCheck(r, n - 1);
    }
  }

  /**
   When the indicator fires. Every call of fire follows an Idle check that read
   zero; it happens while a Post is in flight exactly when a Post that began
   after that check has not ended.
   */
  lemma FiresDuringPost(r: Run, n: nat) returns (c: nat)
    requires IsRun(r) && n < |r.steps| && r.steps[n] == Fire
    ensures CheckedAt(r, c, n) && r.states[c].g.posting == 0
    ensures r.states[n].g.posting > 0 <==> exists p :: BegunSince(r, c, n, p)
  {
    assert Enabled(r.states[n], r.steps[n]);
    c := LastCheck(r, n);
    CounterCounts(r, c);
    CounterCounts(r, n);
    var flying := InFlightPosts(r.states[n]);
    if r.states[n].g.posting > 0 {
      assert flying != {};
      var p :| p in flying;
      FlightBegan(r, c, n, p);
    }
    if p :| BegunSince(r, c, n, p) {
      assert p in flying;
    }
  }

  /** A run in which fire is called while a Post is in flight: the Post begins between the check and the call. */
  lemma FiresDuringPostExample() returns (r: Run)
    ensures IsRun(r) && |r.steps| == 3 && r.steps[2] == Fire && r.states[2].g.posting == 1
  {
    var s0 := Init();
    var s1 := Apply(s0, CheckIdle);
    var s2 := Apply(s1, BeginPost(7));
    var s3 := Apply(s2, Fire);
    r := Run([s0, s1, s2, s3], [CheckIdle, BeginPost(7), Fire]);
  }

  /** The loop is stopped exactly when it has been cancelled. */
  lemma {:induction false} StoppedWhenCancelled(r: Run, n: nat)
    requires IsRun(r) && n <= |r.steps|
    ensures r.states[n].loop.Stopped? <==> Cancel in r.steps[..n]
  {
    if n > 0 {
      var k := n - 1;
      StoppedWhenCancelled(r, k);
      assert Enabled(r.states[k], r.steps[k]) && r.states[n] == Apply(r.states[k], r.steps[k]);
      assert r.steps[..n] == r.steps[..k] + [r.steps[k]];
    }
  }

  /** Once the loop has been cancelled it neither looks nor fires again. */
  lemma StoppedForGood(r: Run, m: nat, n: nat)
    requires IsRun(r) && m < n < |r.steps| && r.steps[m] == Cancel
    ensures r.steps[n] != Fire && r.steps[n] != CheckIdle && r.steps[n] != Cancel
  {
    StoppedWhenCancelled(r, n);
    assert r.steps[..n][m] == Cancel;
    assert Enabled(r.states[n], r.steps[n]);
  }
}
