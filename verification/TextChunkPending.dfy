/** How many bytes are pending after each line, from the lengths of the lines alone. */
module TextChunkPending {
  import opened TextChunk
  import opened TextChunkSplit
  import opened TextChunkUnique
  import opened TextChunkLines

  /**
   The bytes of the current chunk after the first n lines. A line that does not
   fit starts a chunk of its own; one that is too long even then leaves nothing.
   */
  function Pend(ls: seq<Bytes>, maxLen: nat, n: nat): (p: nat)
    requires n <= |ls|
    ensures p <= maxLen
  {
    if n == 0 then 0
    else
      var p, l := Pend(ls, maxLen, n - 1), |ls[n - 1]|;
      var a := l + if n > 1 then 1 else 0;
      if p > 0 && p + a > maxLen then (if l > maxLen then 0 else l)
      else if a > maxLen then 0
      else p + a
  }

  /** Line i starts a chunk because it does not fit in the current one. */
  predicate StartsChunk(ls: seq<Bytes>, maxLen: nat, i: nat)
    requires i < |ls|
  {
    var p := Pend(ls, maxLen, i);
    p > 0 && p + |ls[i]| + (if i > 0 then 1 else 0) > maxLen
  }

  /** What line i adds: the line, after its newline unless it is the first or starts a chunk. */
  function StepOf(ls: seq<Bytes>, maxLen: nat, i: nat): Bytes
    requires i < |ls|
  {
    if i == 0 || StartsChunk(ls, maxLen, i) then ls[i] else [NL] + ls[i]
  }

  lemma PendNext(ls: seq<Bytes>, maxLen: nat, i: nat)
    requires i < |ls|
    ensures Pend(ls, maxLen, i + 1) ==
              if |StepOf(ls, maxLen, i)| > maxLen then 0
              else |StepOf(ls, maxLen, i)| + if StartsChunk(ls, maxLen, i) then 0 else Pend(ls, maxLen, i)
  {
  }

  lemma InAppend(c: Bytes, xs: seq<Bytes>, ys: seq<Bytes>)
    ensures c in xs + ys <==> c in xs || c in ys
  {
  }

  lemma FlushedOne(pending: Bytes, closed: bool, maxLen: nat, out: seq<Bytes>)
    requires pending != [] && maxLen >= 1
    ensures [] in out + OpChunks(Packed(pending, closed, true), maxLen) <==> [] in out
  {
    InAppend([], out, OpChunks(Packed(pending, closed, true), maxLen));
  }

  /** The flush before a line, if there is one; what is pending then is the step alone, or what was pending and the step. */
  lemma BeforeStep(body: Bytes, maxLen: nat, trim: Bytes -> Bytes, plan: seq<Op>, out: seq<Bytes>, pending: Bytes, i: nat)
      returns (plan': seq<Op>, out': seq<Bytes>, pending': Bytes)
    requires maxLen >= 1 && i < |Lines(body)| && Progress(body, maxLen, trim, plan, out, pending, i)
    requires |pending| == Pend(Lines(body), maxLen, i)
    ensures Progress(body, maxLen, trim, plan', out', pending', i + 1)
    ensures StartsChunk(Lines(body), maxLen, i) ==> pending' == StepOf(Lines(body), maxLen, i)
    ensures !StartsChunk(Lines(body), maxLen, i) ==> pending' == pending + StepOf(Lines(body), maxLen, i)
    ensures [] in out' <==> [] in out
  {
    if StartsChunk(Lines(body), maxLen, i) {
      var closed := FenceAfter(Lines(body)[..i], trim).open && |pending| + |CLOSER| <= maxLen;
      var op := Packed(pending, closed, true);
      assert i > 0;
      Flush(body, maxLen, trim, plan, out, pending, i, closed);
      FlushedOne(pending, closed, maxLen, out);
      plan', out', pending' := plan + [op], out + OpChunks(op, maxLen), Lines(body)[i];
    } else {
      TakeLine(body, maxLen, trim, plan, out, pending, i);
      plan', out', pending' := plan, out, pending + StepOf(Lines(body), maxLen, i);
    }
  }

  /** One line: the loop's round in terms of lengths, and whether it brings an empty chunk. */
  lemma PlaceStep(body: Bytes, maxLen: nat, trim: Bytes -> Bytes, plan: seq<Op>, out: seq<Bytes>, pending: Bytes, i: nat)
      returns (plan': seq<Op>, out': seq<Bytes>, pending': Bytes)
    requires maxLen >= 1 && i < |Lines(body)| && Progress(body, maxLen, trim, plan, out, pending, i)
    requires |pending| == Pend(Lines(body), maxLen, i)
    ensures Progress(body, maxLen, trim, plan', out', pending', i + 1)
    ensures |pending'| == Pend(Lines(body), maxLen, i + 1)
    ensures var step := StepOf(Lines(body), maxLen, i);
            [] in out' <==> [] in out || (|step| > maxLen && [] in Texts(HardPieces(step, maxLen)))
  {
    var step := StepOf(Lines(body), maxLen, i);
    PendNext(Lines(body), maxLen, i);
    plan', out', pending' := BeforeStep(body, maxLen, trim, plan, out, pending, i);
    if |step| > maxLen {
      assert pending' == step by {
        if !StartsChunk(Lines(body), maxLen, i) { assert pending == [] && [] + step == step; }
      }
      SplitLine(body, maxLen, trim, plan', out', step, i);
      InAppend([], out', Texts(HardPieces(step, maxLen)));
      plan', out', pending' := plan' + [Hard(step)], out' + OpChunks(Hard(step), maxLen), [];
    }
  }

  /** Some step among the first n lines is hard-split with an empty piece. */
  ghost predicate EmptyBefore(ls: seq<Bytes>, maxLen: nat, n: nat)
    requires maxLen >= 1 && n <= |ls|
  {
    exists i :: 0 <= i < n && |StepOf(ls, maxLen, i)| > maxLen && [] in Texts(HardPieces(StepOf(ls, maxLen, i), maxLen))
  }

  lemma EmptyNext(ls: seq<Bytes>, maxLen: nat, n: nat)
    requires maxLen >= 1 && n < |ls|
    ensures var step := StepOf(ls, maxLen, n);
            EmptyBefore(ls, maxLen, n + 1) <==>
              EmptyBefore(ls, maxLen, n) || (|step| > maxLen && [] in Texts(HardPieces(step, maxLen)))
  {
  }

  lemma NothingYet(body: Bytes, maxLen: nat, trim: Bytes -> Bytes)
    requires maxLen >= 1
    ensures Progress(body, maxLen, trim, [], [], [], 0) && !EmptyBefore(Lines(body), maxLen, 0)
  {
  }

  /** The loop after n lines. */
  lemma {:induction false} GreedyPlan(body: Bytes, maxLen: nat, trim: Bytes -> Bytes, n: nat)
      returns (plan: seq<Op>, out: seq<Bytes>, pending: Bytes)
    requires maxLen >= 1 && n <= |Lines(body)|
    ensures Progress(body, maxLen, trim, plan, out, pending, n)
    ensures |pending| == Pend(Lines(body), maxLen, n)
    ensures [] in out <==> EmptyBefore(Lines(body), maxLen, n)
  {
    if n == 0 {
      NothingYet(body, maxLen, trim);
      plan, out, pending := [], [], [];
    } else {
      var k := n - 1;
      var p, o, rest := GreedyPlan(body, maxLen, trim, k);
      EmptyNext(Lines(body), maxLen, k);
      plan, out, pending := PlaceStep(body, maxLen, trim, p, o, rest, k);
    }
  }

  /** A right plan that covers no more than the body is the beginning of the body's plan. */
  lemma PlanBegins(body: Bytes, maxLen: nat, trim: Bytes -> Bytes, plan: seq<Op>, p: seq<Op>)
    requires PlanOf(body, maxLen, trim, plan) && PlanOk(body, maxLen, trim, p) && |Covered(p)| <= |body|
    ensures |p| <= |plan| && plan[..|p|] == p
  {
    assert p[..|p|] == p && plan[..|plan|] == plan;
    if |plan| < |p| {
      PlansAgree(body, maxLen, trim, plan, p, |plan|);
      PlanCovers(body, maxLen, trim, p);
      CoveredUpto(p, |plan|, |p|);
      assert false;
    }
    PlansAgree(body, maxLen, trim, plan, p, |p|);
  }

  /** Where the plan of Split stands after n lines: k ops are out and Pend bytes are pending. */
  lemma AtLine(body: Bytes, maxLen: nat, trim: Bytes -> Bytes, plan: seq<Op>, n: nat) returns (k: nat, pending: Bytes)
    requires PlanOf(body, maxLen, trim, plan) && n <= |Lines(body)|
    ensures k <= |plan| && Covered(plan[..k]) + pending == UptoLine(body, n)
    ensures |pending| == Pend(Lines(body), maxLen, n)
  {
    var p, out;
    p, out, pending := GreedyPlan(body, maxLen, trim, n);
    k := |p|;
    UptoMonotone(body, n, |Lines(body)|);
    UptoWhole(body);
    assert |Covered(p) + pending| <= |body|;
    PlanBegins(body, maxLen, trim, plan, p);
  }
}
