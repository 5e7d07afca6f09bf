/** Split and its loop as they are (chunk.go:13-82), with the plan as a ghost. */
module TextChunkMethod {
  import opened TextChunk
  import opened TextChunkSplit
  import opened TextChunkTheorems

  /** The fence toggle of one line. */
  method Toggle(fence: Fence, line: Bytes, trim: Bytes -> Bytes) returns (f: Fence)
    ensures f == FenceStep(fence, line, trim)
  {
    f := fence;
    var trimmed := trim(line);
    if FENCE <= trimmed {
      if !fence.open {
        f := Fence(true, trimmed);
      } else if trimmed == FENCE || trimmed == fence.tag {
        f := fence.(open := false);
      }
    }
  }

  lemma FenceNext(ls: seq<Bytes>, i: nat, trim: Bytes -> Bytes)
    requires i < |ls|
    ensures FenceAfter(ls[..i + 1], trim) == FenceStep(FenceAfter(ls[..i], trim), ls[i], trim)
  {
    assert ls[..i + 1][..i] == ls[..i];
  }

  /** One round of the loop: line i goes to the pending text, or out, after a flush if it does not fit. */
  method PlaceLine(body: Bytes, maxLen: nat, ghost trim: Bytes -> Bytes, ghost plan: seq<Op>, out: seq<Bytes>,
                   current: Bytes, line: Bytes, i: nat, inFence: bool)
    returns (out': seq<Bytes>, current': Bytes, ghost plan': seq<Op>)
    requires maxLen >= 1 && i < |Lines(body)| && line == Lines(body)[i] && |current| <= maxLen && (i == 0 ==> current == [])
    requires Progress(body, maxLen, trim, plan, out, current, i)
    requires inFence == FenceAfter(Lines(body)[..i], trim).open
    ensures Progress(body, maxLen, trim, plan', out', current', i + 1)
    ensures |current'| <= maxLen
  {
    out', current', plan' := out, current, plan;
    var addition := if i > 0 then [NL] + line else line;
    if |current| + |addition| > maxLen && |current| > 0 {
      var closed := inFence && |current| + |CLOSER| <= maxLen;
      Flush(body, maxLen, trim, plan, out, current, i, closed);
      out' := out + [current + if closed then CLOSER else []];
      plan' := plan + [Packed(current, closed, true)];
      current' := [];
      addition := line;
    } else {
      TakeLine(body, maxLen, trim, plan, out, current, i);
    }
    if |addition| > maxLen {
      assert current' + addition == addition;
      var pieces := HardSplit(addition, maxLen);
      SplitLine(body, maxLen, trim, plan', out', addition, i);
      out', plan' := out' + pieces, plan' + [Hard(addition)];
    } else {
      assert [] + line == line;
      current' := current' + addition;
    }
  }

  /** The loop over the lines of a body that does not fit in one chunk. */
  method PackLines(body: Bytes, maxLen: nat, trim: Bytes -> Bytes) returns (out: seq<Bytes>, ghost plan: seq<Op>)
    requires maxLen >= 1
    ensures out == Rendered(plan, maxLen) && Covered(plan) == body && PlanOk(body, maxLen, trim, plan)
  {
    out, plan := [], [];
    var current: Bytes := [];
    var fence := Fence(false, []);
    var lines := Lines(body);
    for i := 0 to |lines|
      invariant Progress(body, maxLen, trim, plan, out, current, i)
      invariant |current| <= maxLen && (i == 0 ==> current == [])
      invariant fence == FenceAfter(lines[..i], trim)
    {
      var wasInFence := fence.open;
      fence := Toggle(fence, lines[i], trim);
      FenceNext(lines, i, trim);
      out, current, plan := PlaceLine(body, maxLen, trim, plan, out, current, lines[i], i, wasInFence);
    }
    FlushRest(body, maxLen, trim, plan, out, current);
    if |current| > 0 {
      out, plan := out + [current], plan + [Packed(current, false, false)];
    }
  }

  /**
   Split. Without a cap the body stays whole. With one, no chunk is over it and
   none is lost; the chunks are those of a plan that covers the body exactly and
   whose every op is right where it stands; and the body is the chunks without
   their closers, with at most one newline or space put back after each.
   */
  method Split(body: Bytes, maxLen: int, trim: Bytes -> Bytes) returns (out: seq<Bytes>, ghost plan: seq<Op>)
    ensures maxLen <= 0 ==> out == [body]
    ensures maxLen >= 1 ==> out == Rendered(plan, maxLen) && Covered(plan) == body && PlanOk(body, maxLen, trim, plan)
    ensures maxLen >= 1 ==>
              && (forall c :: c in out ==> |c| <= maxLen && (maxLen >= 2 ==> c != []))
              && (out == [] <==> body == [])
              && out == ChunksOf(Marks(plan, maxLen)) && body == BodyOf(Marks(plan, maxLen))
  {
    if maxLen <= 0 {
      return [body], [];
    }
    out, plan := [], [];
    if |body| <= maxLen {
      WholeBody(body, maxLen, trim);
      if body != [] {
        out, plan := [body], [Packed(body, false, false)];
      }
    } else {
      out, plan := PackLines(body, maxLen, trim);
    }
    SplitLosesOnlySeparators(body, maxLen, trim, plan);
    SplitKeepsToCap(body, maxLen, trim, plan);
  }
}
