/** What the fence state means, and when a fenced block stays in one chunk. */
module TextChunkFences {
  import opened Options
  import opened TextChunk
  import opened TextChunkSplit
  import opened TextChunkUnique
  import opened TextChunkLines
  import opened TextChunkPending
  import opened TextChunkConditions

  // ---------------------------------------------------------- the state's meaning

  predicate Marks(l: Bytes, trim: Bytes -> Bytes) {
    FENCE <= trim(l)
  }

  /** The line ends a block that a line opened as `tag`: it is bare, or the same as the opening line. */
  predicate Ends(l: Bytes, tag: Bytes, trim: Bytes -> Bytes) {
    Marks(l, trim) && (trim(l) == FENCE || trim(l) == tag)
  }

  /** The first fence line from i on, or the number of lines. */
  function NextMark(ls: seq<Bytes>, i: nat, trim: Bytes -> Bytes): (o: nat)
    requires i <= |ls|
    ensures i <= o <= |ls|
    decreases |ls| - i
  {
    if i == |ls| || Marks(ls[i], trim) then i else NextMark(ls, i + 1, trim)
  }

  /** The first line from i on that ends a block opened as `tag`, or the number of lines. */
  function NextEnd(ls: seq<Bytes>, i: nat, tag: Bytes, trim: Bytes -> Bytes): (c: nat)
    requires i <= |ls|
    ensures i <= c <= |ls|
    decreases |ls| - i
  {
    if i == |ls| || Ends(ls[i], tag, trim) then i else NextEnd(ls, i + 1, tag, trim)
  }

  /**
   The lines read forward, block by block: a fence line opens a block and the next
   line that ends it closes it. The line that opens the last block, if that block
   is never closed.
   */
  function OpenBlock(ls: seq<Bytes>, i: nat, trim: Bytes -> Bytes): (o: Option<nat>)
    requires i <= |ls|
    ensures o.Some? ==> i <= o.value < |ls|
    decreases |ls| - i
  {
    var o := NextMark(ls, i, trim);
    if o == |ls| then None
    else
      var c := NextEnd(ls, o + 1, trim(ls[o]), trim);
      if c == |ls| then Some(o) else OpenBlock(ls, c + 1, trim)
  }

  lemma {:induction false} MarkIsNext(ls: seq<Bytes>, i: nat, trim: Bytes -> Bytes)
    requires i <= |ls|
    ensures var o := NextMark(ls, i, trim);
            (o < |ls| ==> Marks(ls[o], trim)) && forall k :: i <= k < o ==> !Marks(ls[k], trim)
    decreases |ls| - i
  {
    if i < |ls| && !Marks(ls[i], trim) {
      MarkIsNext(ls, i + 1, trim);
    }
  }

  lemma {:induction false} EndIsNext(ls: seq<Bytes>, i: nat, tag: Bytes, trim: Bytes -> Bytes)
    requires i <= |ls|
    ensures var c := NextEnd(ls, i, tag, trim);
            (c < |ls| ==> Ends(ls[c], tag, trim)) && forall k :: i <= k < c ==> !Ends(ls[k], tag, trim)
    decreases |ls| - i
  {
    if i < |ls| && !Ends(ls[i], tag, trim) {
      EndIsNext(ls, i + 1, tag, trim);
    }
  }

  lemma FenceGoesOn(ls: seq<Bytes>, i: nat, trim: Bytes -> Bytes)
    requires i < |ls|
    ensures FenceAfter(ls[..i + 1], trim) == FenceStep(FenceAfter(ls[..i], trim), ls[i], trim)
  {
    assert ls[..i + 1][..i] == ls[..i];
  }

  lemma {:induction false} ClosedThrough(ls: seq<Bytes>, i: nat, o: nat, trim: Bytes -> Bytes)
    requires i <= o <= |ls| && forall k :: i <= k < o ==> !Marks(ls[k], trim)
    ensures FenceAfter(ls[..o], trim) == FenceAfter(ls[..i], trim)
    decreases o
  {
    if i < o {
      ClosedThrough(ls, i, o - 1, trim);
      FenceGoesOn(ls, o - 1, trim);
    }
  }

  lemma {:induction false} OpenThrough(ls: seq<Bytes>, i: nat, c: nat, tag: Bytes, trim: Bytes -> Bytes)
    requires i <= c <= |ls| && FenceAfter(ls[..i], trim) == Fence(true, tag)
    requires forall k :: i <= k < c ==> !Ends(ls[k], tag, trim)
    ensures FenceAfter(ls[..c], trim) == Fence(true, tag)
    decreases c
  {
    if i < c {
      OpenThrough(ls, i, c - 1, tag, trim);
      FenceGoesOn(ls, c - 1, trim);
    }
  }

  lemma Opening(f: Fence, l: Bytes, trim: Bytes -> Bytes)
    requires !f.open && Marks(l, trim)
    ensures FenceStep(f, l, trim) == Fence(true, trim(l))
  {
  }

  lemma Closing(tag: Bytes, l: Bytes, trim: Bytes -> Bytes)
    requires Ends(l, tag, trim)
    ensures FenceStep(Fence(true, tag), l, trim) == Fence(false, tag)
  {
  }

  /** From a closed fence the next fence line opens a block. */
  lemma BlockOpens(ls: seq<Bytes>, i: nat, o: nat, trim: Bytes -> Bytes)
    requires i <= o < |ls| && !FenceAfter(ls[..i], trim).open && o == NextMark(ls, i, trim)
    ensures FenceAfter(ls[..o + 1], trim) == Fence(true, trim(ls[o]))
  {
    MarkIsNext(ls, i, trim);
    ClosedThrough(ls, i, o, trim);
    FenceGoesOn(ls, o, trim);
    Opening(FenceAfter(ls[..o], trim), ls[o], trim);
  }

  /** An open block stays open to the next line that ends it, and is closed after that. */
  lemma BlockCloses(ls: seq<Bytes>, i: nat, c: nat, tag: Bytes, trim: Bytes -> Bytes)
    requires i <= c <= |ls| && FenceAfter(ls[..i], trim) == Fence(true, tag) && c == NextEnd(ls, i, tag, trim)
    ensures FenceAfter(ls[..c], trim) == Fence(true, tag)
    ensures c < |ls| ==> !FenceAfter(ls[..c + 1], trim).open
  {
    EndIsNext(ls, i, tag, trim);
    OpenThrough(ls, i, c, tag, trim);
    if c < |ls| {
      FenceGoesOn(ls, c, trim);
      Closing(tag, ls[c], trim);
    }
  }

  /** With no fence line to come a closed fence stays closed. */
  lemma NoneOpens(ls: seq<Bytes>, i: nat, trim: Bytes -> Bytes)
    requires i <= |ls| && !FenceAfter(ls[..i], trim).open && NextMark(ls, i, trim) == |ls|
    ensures !FenceAfter(ls[..|ls|], trim).open
  {
    MarkIsNext(ls, i, trim);
    ClosedThrough(ls, i, |ls|, trim);
  }

  lemma OpenBlockIs(ls: seq<Bytes>, i: nat, o: nat, c: nat, trim: Bytes -> Bytes)
    requires i <= o < c <= |ls| && o == NextMark(ls, i, trim) && c == NextEnd(ls, o + 1, trim(ls[o]), trim)
    ensures OpenBlock(ls, i, trim) == if c == |ls| then Some(o) else OpenBlock(ls, c + 1, trim)
  {
  }

  lemma {:induction false} FenceFrom(ls: seq<Bytes>, i: nat, trim: Bytes -> Bytes)
    requires i <= |ls| && !FenceAfter(ls[..i], trim).open
    ensures FenceAfter(ls[..|ls|], trim).open <==> OpenBlock(ls, i, trim).Some?
    ensures OpenBlock(ls, i, trim).Some? ==> FenceAfter(ls[..|ls|], trim).tag == trim(ls[OpenBlock(ls, i, trim).value])
    decreases |ls| - i
  {
    var o := NextMark(ls, i, trim);
    if o == |ls| {
      NoneOpens(ls, i, trim);
    } else {
      var c := NextEnd(ls, o + 1, trim(ls[o]), trim);
      BlockOpens(ls, i, o, trim);
      BlockCloses(ls, o + 1, c, trim(ls[o]), trim);
      OpenBlockIs(ls, i, o, c, trim);
      if c < |ls| {
        FenceFrom(ls, c + 1, trim);
      }
    }
  }

  /**
   What the fence state says: after some lines the fence is open exactly when,
   reading them block by block, the last block is never closed, and then the tag
   is the trimmed line that opened it.
   */
  lemma FenceIsOpenBlock(ls: seq<Bytes>, trim: Bytes -> Bytes)
    ensures FenceAfter(ls, trim).open <==> OpenBlock(ls, 0, trim).Some?
    ensures OpenBlock(ls, 0, trim).Some? ==> FenceAfter(ls, trim).tag == trim(ls[OpenBlock(ls, 0, trim).value])
  {
    assert ls[..0] == [] && ls[..|ls|] == ls;
    FenceFrom(ls, 0, trim);
  }

  // ----------------------------------------------------------------- whole blocks

  /** Line o opens a fenced block and line c closes it. */
  ghost predicate FencedBlock(body: Bytes, trim: Bytes -> Bytes, o: nat, c: nat) {
    && o < c < |Lines(body)|
    && !FenceAfter(Lines(body)[..o], trim).open
    && (forall j :: o < j <= c ==> FenceAfter(Lines(body)[..j], trim).open)
    && !FenceAfter(Lines(body)[..c + 1], trim).open
  }

  /**
   When Split keeps a fenced block in one chunk: exactly when the block fits in the
   chunk that its opening line goes to, which is the current one if that line
   still fits there. That the block would fit in a chunk of its own is not enough.
   An opening line is not empty, because TrimSpace leaves nothing of an empty line.
   */
  lemma FencedBlockWhole(body: Bytes, maxLen: nat, trim: Bytes -> Bytes, plan: seq<Op>, o: nat, c: nat)
    requires PlanOf(body, maxLen, trim, plan) && FencedBlock(body, trim, o, c) && trim([]) == []
    ensures Whole(body, plan, o, c) <==> Fits(Lines(body), maxLen, o, c)
  {
    OpensWithMark(body, trim, o, c);
    LinesTogether(body, maxLen, trim, plan, o, c);
  }

  lemma OpensWithMark(body: Bytes, trim: Bytes -> Bytes, o: nat, c: nat)
    requires FencedBlock(body, trim, o, c)
    ensures Marks(Lines(body)[o], trim)
  {
    FenceGoesOn(Lines(body), o, trim);
    assert FenceAfter(Lines(body)[..o + 1], trim).open;
  }

  /** A chunk that ends inside a block ends before a dropped newline, and gets a closer exactly when there is room for it. */
  lemma CutBlockCloser(body: Bytes, maxLen: nat, trim: Bytes -> Bytes, plan: seq<Op>, k: nat, o: nat, c: nat)
    requires PlanOf(body, maxLen, trim, plan) && k < |plan| && plan[k].Packed? && FencedBlock(body, trim, o, c)
    requires o < |Lines(Covered(plan[..k]) + plan[k].payload)| <= c
    ensures plan[k].newline && (plan[k].closed <==> |plan[k].payload| + 4 <= maxLen)
  {
    OpAt(body, maxLen, trim, plan, k);
    assert FenceAfter(Lines(body)[..|Lines(Covered(plan[..k]) + plan[k].payload)|], trim).open;
  }

  lemma LastReplaced(ls: seq<Bytes>, x: Bytes)
    ensures var all := ls + [[]]; all[|all| - 1] == [] && all[|all| - 1 := x] == ls + [x]
  {
  }

  /** Bytes without a newline put after a newline are one more line. */
  lemma OneMoreLine(text: Bytes, line: Bytes)
    requires NL !in line
    ensures Lines((text + [NL]) + line) == Lines(text) + [line]
  {
    var base := text + [NL];
    assert base[..|base| - 1] == text;
    LinesAppend(base, line);
    LastReplaced(Lines(text), line);
    LastReplaced(Lines(text), [] + line);
    NothingInFront(line);
  }

  lemma NothingInFront(line: Bytes)
    ensures [] + line == line
  {
  }

  /** The newline and the bare fence that a closer is made of. */
  lemma CloserParts(text: Bytes)
    ensures text + CLOSER == (text + [NL]) + FENCE && NL !in FENCE
  {
  }

  lemma BareFenceEnds(ls: seq<Bytes>, trim: Bytes -> Bytes)
    requires trim(FENCE) == FENCE && FenceAfter(ls, trim).open
    ensures !FenceAfter(ls + [FENCE], trim).open
  {
    assert (ls + [FENCE])[..|ls|] == ls;
  }

  /** The closer is one more line, bare of any tag, and it ends whatever block is open where it is put. */
  lemma CloserCloses(text: Bytes, trim: Bytes -> Bytes)
    requires trim(FENCE) == FENCE && FenceAfter(Lines(text), trim).open
    ensures Lines(text + CLOSER) == Lines(text) + [FENCE]
    ensures !FenceAfter(Lines(text + CLOSER), trim).open
  {
    CloserParts(text);
    OneMoreLine(text, FENCE);
    BareFenceEnds(Lines(text), trim);
  }
}
