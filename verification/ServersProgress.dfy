/** Left without new calls, every acquire returns. */
module ServersProgress {
  import opened Options
  import opened ServersCore
  import opened ServersProtocol
  import opened ServersInvariants
  import opened ServersTheorems

  /** The call is not on its own: its placeholder is done, and it will look again. */
  predicate Woken(s: State, phase: Phase) {
    phase.Waiting? && phase.p in s.m.spawns && s.m.spawns[phase.p].done
  }

  /** How far a call is from returning or having to wait. A call that owns a spawn never looks again. */
  function Rank(s: State, phase: Phase): nat {
    match phase
    case Waiting(_) => if Woken(s, phase) then 6 else 0
    case AtTop => 5
    case Spawning(_) => 4
    case Warming(_, _) => 3
    case Killing(_, _) => 2
    case Publishing(_, _) => 1
    case Returned(_) => 0
  }

  function Live(s: State): set<nat> {
    set a | a in s.acquires && !s.acquires[a].phase.Returned?
  }

  function Ranked(s: State, k: nat): set<nat> {
    set a | a in s.acquires && Rank(s, s.acquires[a].phase) >= k
  }

  /** The ranks of all calls added up, counting those up to n. */
  function RankSum(s: State, n: nat): nat {
    if n == 0 then 0 else RankSum(s, n - 1) + |Ranked(s, n)|
  }

  /** Steps left to the acquires: what they can do by themselves, and for each return to come the waiters it can wake. */
  function AcquireWork(s: State): nat {
    3 * (|Live(s)| * |Live(s)|) + RankSum(s, 6)
  }

  /** The steps that calls of acquire take. */
  predicate OfAcquire(step: Step) {
    || step.Enter? || step.WaitDone? || step.WaitCancelled? || step.SpawnFails? || step.SpawnStarts?
    || step.Healthy? || step.Unhealthy? || step.KillUnhealthy? || step.Publish?
  }

  function AcquireSteps(steps: seq<Step>): nat {
    if steps == [] then 0 else (if OfAcquire(steps[0]) then 1 else 0) + AcquireSteps(steps[1..])
  }

  // ------------------------------------------------------------ what a step does

  /** A step of call a alone: the other calls stay where they are and are as far as they were. */
  ghost predicate OnlyMoves(s: State, t: State, a: nat) {
    && a in s.acquires && t.acquires.Keys == s.acquires.Keys
    && (forall b :: b in s.acquires && b != a ==>
          t.acquires[b].phase == s.acquires[b].phase && Rank(t, t.acquires[b].phase) == Rank(s, s.acquires[b].phase))
  }

  lemma Smaller(x: set<nat>, y: set<nat>)
    requires x <= y
    ensures |x| <= |y|
  {
    assert y == x + (y - x);
  }

  lemma RankedFalls(s: State, t: State, a: nat, k: nat)
    requires OnlyMoves(s, t, a) && Rank(t, t.acquires[a].phase) <= Rank(s, s.acquires[a].phase)
    ensures |Ranked(t, k)| <= |Ranked(s, k)|
    ensures Rank(t, t.acquires[a].phase) < k <= Rank(s, s.acquires[a].phase) ==> |Ranked(t, k)| < |Ranked(s, k)|
  {
    assert Ranked(t, k) <= Ranked(s, k);
    Smaller(Ranked(t, k), Ranked(s, k));
    if Rank(t, t.acquires[a].phase) < k <= Rank(s, s.acquires[a].phase) {
      assert a in Ranked(s, k) && a !in Ranked(t, k);
      Smaller(Ranked(t, k), Ranked(s, k) - {a});
    }
  }

  lemma {:induction false} RankFalls(s: State, t: State, a: nat, n: nat)
    requires OnlyMoves(s, t, a) && Rank(t, t.acquires[a].phase) <= Rank(s, s.acquires[a].phase)
    ensures RankSum(t, n) <= RankSum(s, n)
    ensures Rank(t, t.acquires[a].phase) < Rank(s, s.acquires[a].phase) <= n ==> RankSum(t, n) < RankSum(s, n)
  {
    if n > 0 {
      RankFalls(s, t, a, n - 1);
      RankedFalls(s, t, a, n);
    }
  }

  lemma SquareFalls(m: nat, n: nat)
    requires m <= n
    ensures m * m <= n * n
    ensures m < n ==> m * m + 2 * n <= n * n + 1
  {
    Squares(m, n);
    if m < n {
      var d := n - 1;
      Squares(m, d);
      assert n * n == d * d + 2 * d + 1;
    }
  }

  lemma Squares(m: nat, n: nat)
    requires m <= n
    ensures m * m <= n * n
  {
    var e := n - m;
    assert n * n == m * m + 2 * (m * e) + e * e;
  }

  /** The call goes down by itself. */
  lemma MovesDown(s: State, t: State, a: nat)
    requires OnlyMoves(s, t, a) && !s.acquires[a].phase.Returned?
    requires Rank(t, t.acquires[a].phase) < Rank(s, s.acquires[a].phase)
    ensures AcquireWork(t) < AcquireWork(s)
  {
    RankFalls(s, t, a, 6);
    Smaller(Live(t), Live(s));
    SquareFalls(|Live(t)|, |Live(s)|);
  }

  /** The call returns, and wakes nobody. */
  lemma ReturnsAlone(s: State, t: State, a: nat)
    requires OnlyMoves(s, t, a) && !s.acquires[a].phase.Returned? && t.acquires[a].phase.Returned?
    ensures AcquireWork(t) < AcquireWork(s)
  {
    RankFalls(s, t, a, 6);
    assert Live(t) == Live(s) - {a} && a in Live(s);
    SquareFalls(|Live(t)|, |Live(s)|);
  }

  /** Returning, call a can bring the others no further than to the highest rank. */
  lemma {:induction false} RankRises(s: State, t: State, a: nat, n: nat)
    requires a in s.acquires && t.acquires.Keys == s.acquires.Keys && t.acquires[a].phase.Returned?
    requires forall b :: b in s.acquires && b != a ==> t.acquires[b].phase == s.acquires[b].phase
    ensures RankSum(t, n) <= RankSum(s, n) + n * |Live(t)|
  {
    if n > 0 {
      RankRises(s, t, a, n - 1);
      assert Ranked(t, n) <= Live(t);
      Smaller(Ranked(t, n), Live(t));
      assert n * |Live(t)| == (n - 1) * |Live(t)| + |Live(t)|;
    }
  }

  /** The call returns, and wakes some of the others. */
  lemma ReturnsWaking(s: State, t: State, a: nat)
    requires a in s.acquires && t.acquires.Keys == s.acquires.Keys
    requires forall b :: b in s.acquires && b != a ==> t.acquires[b].phase == s.acquires[b].phase
    requires !s.acquires[a].phase.Returned? && t.acquires[a].phase.Returned?
    ensures AcquireWork(t) < AcquireWork(s)
  {
    assert Live(t) == Live(s) - {a} && a in Live(s);
    RankRises(s, t, a, 6);
    SquareFalls(|Live(t)|, |Live(s)|);
  }

  // ----------------------------------------------------------------- every step

  /** Where the placeholders that are waited on have not changed, the others are as far as they were. */
  lemma OthersStay(s: State, t: State, a: nat)
    requires Inv(s) && a in s.acquires && t.acquires.Keys == s.acquires.Keys
    requires forall b :: b in s.acquires && b != a ==> t.acquires[b] == s.acquires[b]
    requires forall p :: p in s.m.spawns ==> p in t.m.spawns && t.m.spawns[p] == s.m.spawns[p]
    ensures OnlyMoves(s, t, a)
  {
    forall b | b in s.acquires && b != a ensures Rank(t, t.acquires[b].phase) == Rank(s, s.acquires[b].phase) {
      assert AcquireOk(s, b);
    }
  }

  lemma EnterDown(s: State, a: nat)
    requires Inv(s) && Enabled(s, Enter(a))
    ensures AcquireWork(DoEnter(s, a)) < AcquireWork(s)
  {
    var t, v := DoEnter(s, a), s.acquires[a].vendor;
    assert v in s.m.pending ==> PendingOk(s, v);
    assert v in s.m.conns ==> ConnEntryOk(s, v);
    OthersStay(s, t, a);
    MovesDown(s, t, a);
  }

  lemma MoveDown(s: State, t: State, a: nat)
    requires Inv(s) && a in s.acquires && a in t.acquires && !s.acquires[a].phase.Returned?
    requires t.acquires == s.acquires[a := t.acquires[a]] && t.m.spawns == s.m.spawns
    requires t.acquires[a].phase.Returned? || Rank(t, t.acquires[a].phase) < Rank(s, s.acquires[a].phase)
    ensures AcquireWork(t) < AcquireWork(s)
  {
    OthersStay(s, t, a);
    if t.acquires[a].phase.Returned? {
      ReturnsAlone(s, t, a);
    } else {
      MovesDown(s, t, a);
    }
  }

  lemma PublishDown(s: State, a: nat)
    requires Inv(s) && Enabled(s, Publish(a))
    ensures AcquireWork(DoPublish(s, a)) < AcquireWork(s)
  {
    ReturnsWaking(s, DoPublish(s, a), a);
  }

  lemma WaitDown(s: State, step: Step)
    requires Inv(s) && Enabled(s, step) && (step.WaitDone? || step.WaitCancelled?)
    ensures AcquireWork(Apply(s, step)) < AcquireWork(s)
  {
    MoveDown(s, Apply(s, step), step.a);
  }

  lemma SpawnDown(s: State, step: Step)
    requires Inv(s) && Enabled(s, step) && (step.SpawnFails? || step.SpawnStarts? || step.Healthy?)
    ensures AcquireWork(Apply(s, step)) < AcquireWork(s)
  {
    MoveDown(s, Apply(s, step), step.a);
  }

  lemma UnhealthyDown(s: State, step: Step)
    requires Inv(s) && Enabled(s, step) && (step.Unhealthy? || step.KillUnhealthy?)
    ensures AcquireWork(Apply(s, step)) < AcquireWork(s)
  {
    MoveDown(s, Apply(s, step), step.a);
  }

  /** Every step of an acquire takes from what is left. */
  lemma AcquireStepDown(s: State, step: Step)
    requires Inv(s) && Enabled(s, step) && OfAcquire(step)
    ensures AcquireWork(Apply(s, step)) < AcquireWork(s)
  {
    if step.Enter? {
      EnterDown(s, step.a);
    } else if step.Publish? {
      PublishDown(s, step.a);
    } else if step.WaitDone? || step.WaitCancelled? {
      WaitDown(s, step);
    } else if step.Unhealthy? || step.KillUnhealthy? {
      UnhealthyDown(s, step);
    } else {
      SpawnDown(s, step);
    }
  }

  lemma {:induction false} SameRankSum(s: State, t: State, n: nat)
    requires t.acquires == s.acquires && t.m.spawns == s.m.spawns
    ensures RankSum(t, n) == RankSum(s, n)
  {
    if n > 0 {
      SameRankSum(s, t, n - 1);
      assert Ranked(t, n) == Ranked(s, n);
    }
  }

  lemma OtherStepLeaves(s: State, step: Step)
    requires Enabled(s, step) && !OfAcquire(step) && !step.Call?
    ensures AcquireWork(Apply(s, step)) == AcquireWork(s)
  {
    var t := Apply(s, step);
    assert t.acquires == s.acquires && t.m.spawns == s.m.spawns;
    SameRankSum(s, t, 6);
    assert Live(t) == Live(s);
  }

  lemma {:induction false} WorkRun(s: State, steps: seq<Step>, t: State)
    requires Inv(s) && IsRun(s, steps, t) && forall i :: 0 <= i < |steps| ==> !steps[i].Call?
    ensures AcquireWork(t) + AcquireSteps(steps) <= AcquireWork(s)
    decreases |steps|
  {
    if steps != [] {
      InvStep(s, steps[0]);
      if OfAcquire(steps[0]) {
        AcquireStepDown(s, steps[0]);
      } else {
        OtherStepLeaves(s, steps[0]);
      }
      WorkRun(Apply(s, steps[0]), steps[1..], t);
    }
  }

  lemma {:induction false} RunsJoin(s: State, xs: seq<Step>, t: State, ys: seq<Step>, u: State)
    requires IsRun(s, xs, t) && IsRun(t, ys, u)
    ensures IsRun(s, xs + ys, u)
    decreases |xs|
  {
    if xs == [] {
      assert xs + ys == ys;
    } else {
      RunsJoin(Apply(s, xs[0]), xs[1..], t, ys, u);
      assert (xs + ys)[1..] == xs[1..] + ys;
    }
  }

  /**
   Every acquire returns: from any reachable state, with no new call and whatever
   else happens (servers that exit, Close, failed spawns, cancellations), every run
   takes at most AcquireWork steps of acquire; and as long as a call has not
   returned, such a step is possible.
   */
  lemma AcquiresReturn(s: State, past: seq<Step>, steps: seq<Step>, t: State)
    requires Reached(s, past) && IsRun(s, steps, t) && forall i :: 0 <= i < |steps| ==> !steps[i].Call?
    ensures AcquireSteps(steps) <= AcquireWork(s)
    ensures (exists a :: a in t.acquires && !t.acquires[a].phase.Returned?) ==> exists step :: OfAcquire(step) && Enabled(t, step)
    ensures AcquireSteps(steps) == AcquireWork(s) ==> forall a :: a in t.acquires ==> t.acquires[a].phase.Returned?
  {
    InvReached(s, past);
    WorkRun(s, steps, t);
    RunsJoin(Idle(), past, s, steps, t);
    if a :| a in t.acquires && !t.acquires[a].phase.Returned? {
      SomeAcquireSteps(t, past + steps, a);
    }
  }

  lemma SomeAcquireSteps(t: State, steps: seq<Step>, a: nat)
    requires Reached(t, steps) && a in t.acquires && !t.acquires[a].phase.Returned?
    ensures exists step :: OfAcquire(step) && Enabled(t, step)
    ensures AcquireWork(t) > 0
  {
    NobodyStuck(t, steps, a);
    var step :| Enabled(t, step) && OfAcquire(step);
    assert a in Live(t);
    SquareFalls(0, |Live(t)|);
  }
}
