/** What the plan behind Split promises about its chunks. */
module TextChunkTheorems {
  import opened TextChunk
  import opened TextChunkSplit

  /** One chunk taken apart: what it says of the body, whether a closer was added, and what was dropped after it. */
  datatype Mark = Mark(payload: Bytes, closed: bool, sep: Bytes)

  function ChunkOf(m: Mark): Bytes {
    m.payload + if m.closed then CLOSER else []
  }

  function ChunksOf(ms: seq<Mark>): seq<Bytes> {
    if ms == [] then [] else [ChunkOf(ms[0])] + ChunksOf(ms[1..])
  }

  function BodyOf(ms: seq<Mark>): Bytes {
    if ms == [] then [] else ms[0].payload + ms[0].sep + BodyOf(ms[1..])
  }

  function PieceMarks(ps: seq<Piece>): seq<Mark> {
    if ps == [] then [] else [Mark(ps[0].text, false, if ps[0].spaceDropped then [SP] else [])] + PieceMarks(ps[1..])
  }

  function OpMarks(op: Op, maxLen: nat): seq<Mark>
    requires maxLen >= 1
  {
    match op
    case Packed(payload, closed, newline) => [Mark(payload, closed, if newline then [NL] else [])]
    case Hard(text) => PieceMarks(HardPieces(text, maxLen))
  }

  function Marks(plan: seq<Op>, maxLen: nat): seq<Mark>
    requires maxLen >= 1
  {
    if plan == [] then [] else Marks(plan[..|plan| - 1], maxLen) + OpMarks(plan[|plan| - 1], maxLen)
  }

  lemma {:induction false} ChunksAppend(xs: seq<Mark>, ys: seq<Mark>)
    ensures ChunksOf(xs + ys) == ChunksOf(xs) + ChunksOf(ys)
  {
    if xs == [] {
      assert xs + ys == ys;
    } else {
      ChunksAppend(xs[1..], ys);
      assert (xs + ys)[1..] == xs[1..] + ys;
    }
  }

  lemma {:induction false} BodyAppend(xs: seq<Mark>, ys: seq<Mark>)
    ensures BodyOf(xs + ys) == BodyOf(xs) + BodyOf(ys)
  {
    if xs == [] {
      assert xs + ys == ys;
    } else {
      BodyAppend(xs[1..], ys);
      assert (xs + ys)[1..] == xs[1..] + ys;
      Regroup(xs[0].payload + xs[0].sep, BodyOf(xs[1..]), BodyOf(ys));
    }
  }

  lemma {:induction false} PieceMarksFaithful(ps: seq<Piece>)
    ensures ChunksOf(PieceMarks(ps)) == Texts(ps) && BodyOf(PieceMarks(ps)) == Restored(ps) && |PieceMarks(ps)| == |ps|
    ensures forall k :: 0 <= k < |ps| ==>
              PieceMarks(ps)[k] == Mark(ps[k].text, false, if ps[k].spaceDropped then [SP] else [])
  {
    if ps != [] {
      PieceMarksFaithful(ps[1..]);
      assert PieceMarks(ps)[1..] == PieceMarks(ps[1..]);
      assert ps[0].text + [] == ps[0].text;
      forall k | 0 < k < |ps| ensures PieceMarks(ps)[k] == PieceMarks(ps[1..])[k - 1] && ps[k] == ps[1..][k - 1] { }
    }
  }

  /** A mark is within the cap, drops at most one separator byte, and has a closer only before a dropped newline. */
  ghost predicate MarkOk(m: Mark, maxLen: nat) {
    && |ChunkOf(m)| <= maxLen
    && (m.sep == [] || m.sep == [NL] || m.sep == [SP])
    && (m.closed ==> m.sep == [NL])
    && (maxLen >= 2 ==> ChunkOf(m) != [])
  }

  lemma PackedMark(payload: Bytes, closed: bool, newline: bool, maxLen: nat)
    requires maxLen >= 1 && payload != [] && |payload| + (if closed then |CLOSER| else 0) <= maxLen && (closed ==> newline)
    ensures var op, ms := Packed(payload, closed, newline), OpMarks(Packed(payload, closed, newline), maxLen);
            && ChunksOf(ms) == OpChunks(op, maxLen)
            && BodyOf(ms) == OpText(op)
            && |ms| == 1 && MarkOk(ms[0], maxLen)
  {
    var m := Mark(payload, closed, if newline then [NL] else []);
    assert [m][1..] == [];
    assert m.payload + m.sep + [] == m.payload + m.sep;
    assert [ChunkOf(m)] + [] == [ChunkOf(m)];
  }

  lemma HardMarks(text: Bytes, maxLen: nat)
    requires maxLen >= 1
    ensures var ms := OpMarks(Hard(text), maxLen);
            && ChunksOf(ms) == OpChunks(Hard(text), maxLen)
            && BodyOf(ms) == text
            && (forall k :: 0 <= k < |ms| ==> MarkOk(ms[k], maxLen))
  {
    var ps := HardPieces(text, maxLen);
    HardPiecesRestore(text, maxLen);
    PieceMarksFaithful(ps);
    if maxLen >= 2 {
      HardPiecesNonEmpty(text, maxLen);
    }
    forall k | 0 <= k < |ps| ensures MarkOk(PieceMarks(ps)[k], maxLen) {
      assert ChunkOf(PieceMarks(ps)[k]) == ps[k].text;
    }
  }

  lemma OpMarksFaithful(body: Bytes, maxLen: nat, trim: Bytes -> Bytes, before: Bytes, op: Op)
    requires maxLen >= 1 && OpOk(body, maxLen, trim, before, op)
    ensures var ms := OpMarks(op, maxLen);
            && ChunksOf(ms) == OpChunks(op, maxLen)
            && BodyOf(ms) == OpText(op)
            && (forall k :: 0 <= k < |ms| ==> MarkOk(ms[k], maxLen))
  {
    match op
    case Packed(payload, closed, newline) => PackedMark(payload, closed, newline, maxLen);
    case Hard(text) => HardMarks(text, maxLen);
  }

  /**
   Split loses only separators and keeps to the cap: taking the closers off the
   chunks and putting back at most one newline or space after each gives the
   body; no chunk, closer included, is over the cap; and from a cap of two no
   chunk is empty.
   */
  lemma {:induction false} SplitLosesOnlySeparators(body: Bytes, maxLen: nat, trim: Bytes -> Bytes, plan: seq<Op>)
    requires maxLen >= 1 && PlanOk(body, maxLen, trim, plan)
    ensures ChunksOf(Marks(plan, maxLen)) == Rendered(plan, maxLen)
    ensures BodyOf(Marks(plan, maxLen)) == Covered(plan)
    ensures forall k :: 0 <= k < |Marks(plan, maxLen)| ==> MarkOk(Marks(plan, maxLen)[k], maxLen)
    decreases |plan|
  {
    if plan != [] {
      var front, last := plan[..|plan| - 1], plan[|plan| - 1];
      forall k | 0 <= k < |front| ensures OpOk(body, maxLen, trim, Covered(front[..k]), front[k]) {
        assert front[..k] == plan[..k];
      }
      SplitLosesOnlySeparators(body, maxLen, trim, front);
      OpMarksFaithful(body, maxLen, trim, Covered(front), last);
      ChunksAppend(Marks(front, maxLen), OpMarks(last, maxLen));
      BodyAppend(Marks(front, maxLen), OpMarks(last, maxLen));
    }
  }

  lemma {:induction false} ChunkIsMarked(ms: seq<Mark>)
    ensures |ChunksOf(ms)| == |ms|
    ensures forall k :: 0 <= k < |ms| ==> ChunksOf(ms)[k] == ChunkOf(ms[k])
  {
    if ms != [] {
      ChunkIsMarked(ms[1..]);
    }
  }

  /** Every chunk of a split body, closer included, is within the cap, and a body that is not empty has a chunk. */
  lemma SplitKeepsToCap(body: Bytes, maxLen: nat, trim: Bytes -> Bytes, plan: seq<Op>)
    requires maxLen >= 1 && PlanOk(body, maxLen, trim, plan) && Covered(plan) == body
    ensures forall c :: c in Rendered(plan, maxLen) ==> |c| <= maxLen && (maxLen >= 2 ==> c != [])
    ensures body != [] <==> Rendered(plan, maxLen) != []
  {
    SplitLosesOnlySeparators(body, maxLen, trim, plan);
    ChunkIsMarked(Marks(plan, maxLen));
    forall c | c in Rendered(plan, maxLen) ensures |c| <= maxLen && (maxLen >= 2 ==> c != []) {
      var k :| 0 <= k < |Rendered(plan, maxLen)| && Rendered(plan, maxLen)[k] == c;
      assert MarkOk(Marks(plan, maxLen)[k], maxLen);
    }
    if plan != [] {
      assert OpOk(body, maxLen, trim, Covered(plan[..|plan| - 1]), plan[|plan| - 1]);
      var last := plan[|plan| - 1];
      if last.Hard? {
        HardPiecesRestore(last.text, maxLen);
        PieceMarksFaithful(HardPieces(last.text, maxLen));
      }
    }
  }
}
