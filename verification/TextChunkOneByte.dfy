/** Split under a cap of one byte: which bodies give an empty chunk. */
module TextChunkOneByte {
  import opened TextChunk
  import opened TextChunkSplit
  import opened TextChunkUnique
  import opened TextChunkLines
  import opened TextChunkPending

  /** Line i gives an empty piece: two spaces in a row before its end, or a space in front when its newline is dropped. */
  ghost predicate StrayLine(ls: seq<Bytes>, i: nat)
    requires i < |ls|
  {
    exists q :: StraySpace(StepOf(ls, 1, i), q)
  }

  lemma {:induction false} TextsHold(ps: seq<Piece>)
    ensures [] in Texts(ps) <==> exists k :: 0 <= k < |ps| && ps[k].text == []
  {
    if ps != [] {
      TextsHold(ps[1..]);
      if k :| 0 <= k < |ps| && ps[k].text == [] {
        if k > 0 { assert ps[1..][k - 1].text == []; }
      }
      if k :| 0 <= k < |ps[1..]| && ps[1..][k].text == [] {
        assert ps[k + 1].text == [];
      }
    }
  }

  lemma EmptyPieceIffStray(s: Bytes)
    ensures |s| > 1 && [] in Texts(HardPieces(s, 1)) <==> exists q :: StraySpace(s, q)
  {
    TextsHold(HardPieces(s, 1));
    OneByteEmptyPieces(s);
  }

  /** Whether the chunks of Split hold an empty one, for any cap: whether a hard-split step has an empty piece. */
  lemma EmptyChunk(body: Bytes, maxLen: nat, trim: Bytes -> Bytes, plan: seq<Op>)
    requires PlanOf(body, maxLen, trim, plan)
    ensures [] in Rendered(plan, maxLen) <==> EmptyBefore(Lines(body), maxLen, |Lines(body)|)
  {
    var p, out, pending := GreedyPlan(body, maxLen, trim, |Lines(body)|);
    FlushRest(body, maxLen, trim, p, out, pending);
    if pending != [] {
      PlanUnique(body, maxLen, trim, plan, p + [Packed(pending, false, false)]);
      InAppend([], out, [pending]);
    } else {
      PlanUnique(body, maxLen, trim, plan, p);
    }
  }

  /**
   Which bodies give an empty chunk: under a cap of one byte exactly those with a
   line that has two spaces in a row before its end, or that starts with a space,
   is longer than that space, and follows a pending byte or nothing.
   */
  lemma OneByteSplit(body: Bytes, trim: Bytes -> Bytes, plan: seq<Op>)
    requires PlanOf(body, 1, trim, plan)
    ensures [] in Rendered(plan, 1) <==> exists i :: 0 <= i < |Lines(body)| && StrayLine(Lines(body), i)
  {
    EmptyChunk(body, 1, trim, plan);
    forall i | 0 <= i < |Lines(body)|
      ensures StrayLine(Lines(body), i) <==> |StepOf(Lines(body), 1, i)| > 1 && [] in Texts(HardPieces(StepOf(Lines(body), 1, i), 1))
    {
      EmptyPieceIffStray(StepOf(Lines(body), 1, i));
    }
  }
}
