/** Bodies on which Split does not do what its comment says (chunk.go:9-12). */
module TextChunkExamples {
  import opened TextChunk
  import opened TextChunkSplit
  import opened TextChunkUnique
  import opened TextChunkLines
  import opened TextChunkFences

  const A: byte := 97
  const B: byte := 98

  /** A plan of two ops. */
  lemma TwoOps(body: Bytes, maxLen: nat, trim: Bytes -> Bytes, a: Op, b: Op)
    requires maxLen >= 1 && OpOk(body, maxLen, trim, [], a) && OpOk(body, maxLen, trim, OpText(a), b)
    requires OpText(a) + OpText(b) == body
    ensures PlanOf(body, maxLen, trim, [a, b])
    ensures Rendered([a, b], maxLen) == OpChunks(a, maxLen) + OpChunks(b, maxLen)
    ensures Covered([a, b][..0]) == [] && Covered([a, b][..1]) == OpText(a)
  {
    OneOp(body, maxLen, trim, a);
    PlanAppend(body, maxLen, trim, [a], b);
    Two(a, b);
  }

  lemma Two(a: Op, b: Op)
    ensures [a] + [b] == [a, b] && [a, b][..1] == [a] && [a, b][..0] == []
  {
  }

  lemma OneOp(body: Bytes, maxLen: nat, trim: Bytes -> Bytes, a: Op)
    requires maxLen >= 1 && OpOk(body, maxLen, trim, [], a)
    ensures PlanOk(body, maxLen, trim, [a]) && Covered([a]) == OpText(a) && Rendered([a], maxLen) == OpChunks(a, maxLen)
  {
    assert Covered([]) == [] && Rendered([], maxLen) == [];
    PlanAppend(body, maxLen, trim, [], a);
    NothingBefore(a, maxLen);
  }

  lemma NothingBefore(a: Op, maxLen: nat)
    requires maxLen >= 1
    ensures [] + [a] == [a] && [] + OpText(a) == OpText(a) && [] + OpChunks(a, maxLen) == OpChunks(a, maxLen)
  {
  }

  lemma LastOk(body: Bytes, maxLen: nat, trim: Bytes -> Bytes, before: Bytes, pending: Bytes)
    requires pending != [] && |pending| <= maxLen && before + pending == body
    ensures OpOk(body, maxLen, trim, before, Packed(pending, false, false))
  {
    assert Lines(body)[..|Lines(body)|] == Lines(body);
  }

  // ------------------------------------------------------ a line of exactly the cap

  const TWO_LINES: Bytes := [A, A, A, NL, B, B]

  lemma TwoLines()
    ensures Lines(TWO_LINES) == [[A, A, A], [B, B]]
    ensures Join(Lines(TWO_LINES)[..1]) == [A, A, A] && Join(Lines(TWO_LINES)[..2]) == TWO_LINES
  {
    var ls := [[A, A, A], [B, B]];
    assert ls[..1] == [[A, A, A]] && ls[..2] == ls;
    assert Join(ls) == TWO_LINES;
    LinesJoin(ls);
  }

  lemma TwoLinesPlan(trim: Bytes -> Bytes)
    ensures var plan := [Hard([A, A, A]), Hard([NL, B, B])];
            && PlanOf(TWO_LINES, 2, trim, plan)
            && Rendered(plan, 2) == [[A, A], [A], [NL, B], [B]]
            && Covered(plan[..1]) == [A, A, A]
  {
    var x, y := [A, A, A], [NL, B, B];
    TwoLines();
    assert [] + x == x && x + y == TWO_LINES && y == [NL] + [B, B];
    SplitLineOk(TWO_LINES, 2, trim, [], x, 0);
    SplitLineOk(TWO_LINES, 2, trim, x, y, 1);
    TwoOps(TWO_LINES, 2, trim, Hard(x), Hard(y));
    ThreeBytes(A, A, A);
    ThreeBytes(NL, B, B);
    Four([A, A], [A], [NL, B], [B]);
  }

  lemma Four(a: Bytes, b: Bytes, c: Bytes, d: Bytes)
    ensures [a, b] + [c, d] == [a, b, c, d]
  {
  }

  lemma ThreeBytes(x: byte, y: byte, z: byte)
    requires x != SP && y != SP && z != SP
    ensures Texts(HardPieces([x, y, z], 2)) == [[x, y], [z]]
  {
    var s := [x, y, z];
    assert s[..2] == [x, y] && s[2..] == [z];
    assert LastSpace([x, y]) == -1;
    HardPiecesUnfold(s, 2);
    var ps := HardPieces(s, 2);
    assert ps[1..] == [Piece([z], false)];
    assert Texts(ps) == [ps[0].text] + Texts(ps[1..]);
    assert Texts([Piece([z], false)]) == [[z]] + Texts([]);
  }

  /** A line of two bytes under a cap of two is cut in two, with its newline in front: it follows a hard-split line. */
  lemma ExactLineCut(trim: Bytes -> Bytes, plan: seq<Op>)
    requires PlanOf(TWO_LINES, 2, trim, plan)
    ensures |Lines(TWO_LINES)| == 2 && |Lines(TWO_LINES)[1]| == 2 && LineCut(TWO_LINES, plan, 1)
    ensures Rendered(plan, 2) == [[A, A], [A], [NL, B], [B]]
  {
    TwoLines();
    TwoLinesPlan(trim);
    PlanUnique(TWO_LINES, 2, trim, plan, [Hard([A, A, A]), Hard([NL, B, B])]);
    SecondLineCut(plan);
  }

  lemma SecondLineCut(plan: seq<Op>)
    requires |plan| == 2 && plan[1] == Hard([NL, B, B]) && Covered(plan[..1]) == [A, A, A]
    ensures 1 < |Lines(TWO_LINES)| && LineCut(TWO_LINES, plan, 1)
  {
    TwoLines();
    assert [A, A, A] + [NL, B, B] == TWO_LINES;
  }

  // ------------------------------------------------------------------- a cut block

  const HEAD: Bytes := [A, NL] + FENCE
  const BLOCK: Bytes := HEAD + [NL] + FENCE

  lemma BlockLines()
    ensures Lines(BLOCK) == [[A], FENCE, FENCE]
    ensures UptoLine(BLOCK, 1) == [A] && UptoLine(BLOCK, 2) == HEAD && UptoLine(BLOCK, 3) == BLOCK
  {
    var ls := [[A], FENCE, FENCE];
    assert ls[..1] == [[A]] && ls[..2] == [[A], FENCE] && ls[..3] == ls;
    assert [[A], FENCE][..1] == [[A]];
    assert Join([[A]]) == [A];
    assert Join([[A], FENCE]) == HEAD;
    assert Join(ls) == BLOCK;
    LinesJoin(ls);
  }

  lemma BlockFences(trim: Bytes -> Bytes)
    requires trim([A]) == [A] && trim(FENCE) == FENCE
    ensures FencedBlock(BLOCK, trim, 1, 2) && FenceAfter(Lines(BLOCK)[..2], trim).open
  {
    BlockLines();
    var ls := Lines(BLOCK);
    assert ls[..0] == [];
    assert !(FENCE <= [A]);
    FenceGoesOn(ls, 0, trim);
    FenceGoesOn(ls, 1, trim);
    FenceGoesOn(ls, 2, trim);
  }

  lemma BlockPlan(trim: Bytes -> Bytes)
    requires trim([A]) == [A] && trim(FENCE) == FENCE
    ensures var plan := [Packed(HEAD, false, true), Packed(FENCE, false, false)];
            PlanOf(BLOCK, 7, trim, plan) && Rendered(plan, 7) == [HEAD, FENCE] && Covered(plan[..0]) == []
  {
    BlockLines();
    BlockFences(trim);
    assert [] + HEAD == HEAD;
    FlushOk(BLOCK, 7, trim, [], HEAD, 2, false);
    LastOk(BLOCK, 7, trim, HEAD + [NL], FENCE);
    TwoOps(BLOCK, 7, trim, Packed(HEAD, false, true), Packed(FENCE, false, false));
    NoCloser(HEAD);
    NoCloser(FENCE);
  }

  lemma NoCloser(x: Bytes)
    ensures OpText(Packed(x, false, false)) == x
    ensures forall newline :: OpChunks(Packed(x, false, newline), 7) == [x]
  {
    assert x + [] == x;
  }

  /** A block of seven bytes under a cap of seven is cut, because a line before it is in its chunk; nor is there room for a closer. */
  lemma BlockCut(trim: Bytes -> Bytes, plan: seq<Op>)
    requires trim([A]) == [A] && trim(FENCE) == FENCE && PlanOf(BLOCK, 7, trim, plan)
    ensures FencedBlock(BLOCK, trim, 1, 2) && |FENCE + [NL] + FENCE| == 7
    ensures !Whole(BLOCK, plan, 1, 2) && Rendered(plan, 7) == [HEAD, FENCE]
  {
    BlockLines();
    BlockFences(trim);
    BlockPlan(trim);
    PlanUnique(BLOCK, 7, trim, plan, [Packed(HEAD, false, true), Packed(FENCE, false, false)]);
    HeadHolds(plan);
    KeptTogether(BLOCK, 7, trim, plan, 0, 1, 2);
  }

  lemma HeadHolds(plan: seq<Op>)
    requires plan != [] && plan[0] == Packed(HEAD, false, true) && Covered(plan[..0]) == []
    ensures 1 < |Lines(BLOCK)| && ChunkHas(BLOCK, plan, 0, 1, 1)
  {
    BlockLines();
    LineEndAt(BLOCK, 2);
    assert [] + HEAD == HEAD;
    assert Lines(HEAD) == Lines(BLOCK)[..2];
  }

  // ---------------------------------------------------------------- an empty chunk

  lemma OneLine(l: Bytes)
    requires NL !in l
    ensures Lines(l) == [l]
  {
    assert Join([l]) == l;
    LinesJoin([l]);
  }

  /** Two spaces under a cap of one byte: the first chunk is empty. */
  lemma EmptyChunkExample(trim: Bytes -> Bytes, plan: seq<Op>)
    requires PlanOf([SP, SP], 1, trim, plan)
    ensures Rendered(plan, 1) == [[], [SP]]
  {
    SpacesPlan(trim);
    PlanUnique([SP, SP], 1, trim, plan, [Hard([SP, SP])]);
  }

  lemma SpacesPlan(trim: Bytes -> Bytes)
    ensures PlanOf([SP, SP], 1, trim, [Hard([SP, SP])]) && Rendered([Hard([SP, SP])], 1) == [[], [SP]]
  {
    var body := [SP, SP];
    OneLine(body);
    assert Lines(body)[..1] == [body] && Join([body]) == body && [] + body == body;
    SplitLineOk(body, 1, trim, [], body, 0);
    OneOp(body, 1, trim, Hard(body));
    SpacesPieces();
  }

  lemma SpacesPieces()
    ensures Texts(HardPieces([SP, SP], 1)) == [[], [SP]]
  {
    EmptyPieceExample();
    var ps := [Piece([], true), Piece([SP], false)];
    assert ps[1..] == [Piece([SP], false)];
    assert Texts(ps) == [[]] + Texts(ps[1..]);
    assert Texts(ps[1..]) == [[SP]] + Texts([]);
  }
}
