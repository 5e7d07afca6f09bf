/** The plan behind Split: whole lines packed greedily, fences closed at the cuts, long lines hard-split. */
module TextChunkSplit {
  import opened TextChunk

  /**
   How a chunk, or a run of chunks, comes about: whole lines packed into one
   chunk (with a closing fence marker added, with the newline after it dropped),
   or the pieces of a hard split.
   */
  datatype Op =
    | Packed(payload: Bytes, closed: bool, newline: bool)
    | Hard(text: Bytes)

  function OpChunks(op: Op, maxLen: nat): seq<Bytes>
    requires maxLen >= 1
  {
    match op
    case Packed(payload, closed, _) => [payload + if closed then CLOSER else []]
    case Hard(text) => Texts(HardPieces(text, maxLen))
  }

  /** The part of the body that the op accounts for. */
  function OpText(op: Op): Bytes {
    match op
    case Packed(payload, _, newline) => payload + if newline then [NL] else []
    case Hard(text) => text
  }

  function Rendered(plan: seq<Op>, maxLen: nat): seq<Bytes>
    requires maxLen >= 1
  {
    if plan == [] then [] else Rendered(plan[..|plan| - 1], maxLen) + OpChunks(plan[|plan| - 1], maxLen)
  }

  function Covered(plan: seq<Op>): Bytes {
    if plan == [] then [] else Covered(plan[..|plan| - 1]) + OpText(plan[|plan| - 1])
  }

  /** The text ends where one of the body's lines ends. */
  ghost predicate AtLineEnd(body: Bytes, text: Bytes) {
    |Lines(text)| <= |Lines(body)| && Lines(text) == Lines(body)[..|Lines(text)|]
  }

  /**
   What makes an op right where it stands, after the text `before`.
   Packed: it ends at a line end; a newline is dropped exactly when another line
   follows, and then that line would not have fit; the marker is there exactly
   when the fence is open at that point and the marker fits.
   Hard: one line, with the newline before it if that is not accounted for yet,
   and too long for a chunk.
   */
  ghost predicate OpOk(body: Bytes, maxLen: nat, trim: Bytes -> Bytes, before: Bytes, op: Op) {
    match op
    case Packed(payload, closed, newline) =>
      var lines, i := Lines(body), |Lines(before + payload)|;
      && payload != []
      && |payload| + (if closed then |CLOSER| else 0) <= maxLen
      && AtLineEnd(body, before + payload)
      && (if newline
          then i < |lines|
            && |payload| + 1 + |lines[i]| > maxLen
            && (closed <==> FenceAfter(lines[..i], trim).open && |payload| + |CLOSER| <= maxLen)
          else i == |lines| && !closed)
    case Hard(text) =>
      var line := Lines(before + text)[|Lines(before + text)| - 1];
      && |text| > maxLen
      && AtLineEnd(body, before + text)
      && (text == line || text == [NL] + line)
  }

  ghost predicate PlanOk(body: Bytes, maxLen: nat, trim: Bytes -> Bytes, plan: seq<Op>) {
    forall k :: 0 <= k < |plan| ==> OpOk(body, maxLen, trim, Covered(plan[..k]), plan[k])
  }

  /** The chunks so far are those of a right plan, and with what is pending they reach the end of line i. */
  ghost predicate Progress(body: Bytes, maxLen: nat, trim: Bytes -> Bytes, plan: seq<Op>, out: seq<Bytes>, pending: Bytes, i: nat)
    requires maxLen >= 1 && i <= |Lines(body)|
  {
    && out == Rendered(plan, maxLen)
    && PlanOk(body, maxLen, trim, plan)
    && Covered(plan) + pending == if i == 0 then [] else Join(Lines(body)[..i])
  }

  lemma PlanAppend(body: Bytes, maxLen: nat, trim: Bytes -> Bytes, plan: seq<Op>, op: Op)
    requires PlanOk(body, maxLen, trim, plan) && OpOk(body, maxLen, trim, Covered(plan), op)
    ensures PlanOk(body, maxLen, trim, plan + [op]) && Covered(plan + [op]) == Covered(plan) + OpText(op)
    ensures maxLen >= 1 ==> Rendered(plan + [op], maxLen) == Rendered(plan, maxLen) + OpChunks(op, maxLen)
  {
    var more := plan + [op];
    assert more[..|plan|] == plan;
    forall k | 0 <= k < |more| ensures OpOk(body, maxLen, trim, Covered(more[..k]), more[k]) {
      if k < |plan| {
        assert more[..k] == plan[..k];
        assert OpOk(body, maxLen, trim, Covered(plan[..k]), plan[k]);
      }
    }
  }

  lemma LineEndAt(body: Bytes, i: nat)
    requires 1 <= i <= |Lines(body)|
    ensures Lines(Join(Lines(body)[..i])) == Lines(body)[..i]
    ensures AtLineEnd(body, Join(Lines(body)[..i]))
  {
    JoinLines(body);
    var ls := Lines(body)[..i];
    forall j | 0 <= j < |ls| ensures NL !in ls[j] { assert ls[j] == Lines(body)[j]; }
    LinesJoin(ls);
  }

  lemma JoinNext(ls: seq<Bytes>, i: nat)
    requires 0 < i < |ls|
    ensures Join(ls[..i + 1]) == Join(ls[..i]) + [NL] + ls[i]
  {
    assert ls[..i + 1][..i] == ls[..i];
  }

  lemma Regroup(a: Bytes, b: Bytes, c: Bytes)
    ensures a + (b + c) == (a + b) + c
  {
  }

  /** A pending text reaches the end of the next line by taking that line, after a newline unless it is the first. */
  lemma TakeLine(body: Bytes, maxLen: nat, trim: Bytes -> Bytes, plan: seq<Op>, out: seq<Bytes>, pending: Bytes, i: nat)
    requires maxLen >= 1 && i < |Lines(body)| && Progress(body, maxLen, trim, plan, out, pending, i)
    ensures var line := Lines(body)[i];
            Progress(body, maxLen, trim, plan, out, pending + if i > 0 then [NL] + line else line, i + 1)
  {
    var ls := Lines(body);
    if i == 0 {
      assert Covered(plan) == [] && pending == [] && ls[..1] == [ls[0]];
      assert [] + ls[0] == ls[0];
    } else {
      JoinNext(ls, i);
      Regroup(Covered(plan), pending, [NL] + ls[i]);
      Regroup(Covered(plan) + pending, [NL], ls[i]);
    }
  }

  lemma FlushOk(body: Bytes, maxLen: nat, trim: Bytes -> Bytes, before: Bytes, pending: Bytes, i: nat, closed: bool)
    requires 0 < i < |Lines(body)| && before + pending == Join(Lines(body)[..i])
    requires 0 < |pending| <= maxLen && |pending| + 1 + |Lines(body)[i]| > maxLen
    requires closed <==> FenceAfter(Lines(body)[..i], trim).open && |pending| + |CLOSER| <= maxLen
    ensures OpOk(body, maxLen, trim, before, Packed(pending, closed, true))
  {
    LineEndAt(body, i);
    assert |Lines(before + pending)| == i;
  }

  /** Flushing the pending lines because the next one does not fit. */
  lemma Flush(body: Bytes, maxLen: nat, trim: Bytes -> Bytes, plan: seq<Op>, out: seq<Bytes>, pending: Bytes, i: nat, closed: bool)
    requires maxLen >= 1 && 0 < i < |Lines(body)| && Progress(body, maxLen, trim, plan, out, pending, i)
    requires 0 < |pending| <= maxLen && |pending| + 1 + |Lines(body)[i]| > maxLen
    requires closed <==> FenceAfter(Lines(body)[..i], trim).open && |pending| + |CLOSER| <= maxLen
    ensures var op := Packed(pending, closed, true);
            Progress(body, maxLen, trim, plan + [op], out + OpChunks(op, maxLen), Lines(body)[i], i + 1)
  {
    var op := Packed(pending, closed, true);
    FlushOk(body, maxLen, trim, Covered(plan), pending, i, closed);
    PlanAppend(body, maxLen, trim, plan, op);
    JoinNext(Lines(body), i);
    Regroup(Covered(plan), pending, [NL]);
  }

  lemma SplitLineOk(body: Bytes, maxLen: nat, trim: Bytes -> Bytes, before: Bytes, addition: Bytes, i: nat)
    requires i < |Lines(body)| && before + addition == Join(Lines(body)[..i + 1])
    requires |addition| > maxLen && (addition == Lines(body)[i] || addition == [NL] + Lines(body)[i])
    ensures OpOk(body, maxLen, trim, before, Hard(addition))
  {
    LineEndAt(body, i + 1);
    assert |Lines(before + addition)| == i + 1;
  }

  lemma NothingPending(body: Bytes, maxLen: nat, trim: Bytes -> Bytes, plan: seq<Op>, out: seq<Bytes>, i: nat)
    requires maxLen >= 1 && 0 < i <= |Lines(body)| && PlanOk(body, maxLen, trim, plan)
    requires out == Rendered(plan, maxLen) && Covered(plan) == Join(Lines(body)[..i])
    ensures Progress(body, maxLen, trim, plan, out, [], i)
  {
    assert Covered(plan) + [] == Covered(plan);
  }

  /** Hard-splitting a line that is too long. */
  lemma SplitLine(body: Bytes, maxLen: nat, trim: Bytes -> Bytes, plan: seq<Op>, out: seq<Bytes>, addition: Bytes, i: nat)
    requires maxLen >= 1 && i < |Lines(body)| && Progress(body, maxLen, trim, plan, out, addition, i + 1)
    requires |addition| > maxLen && (addition == Lines(body)[i] || addition == [NL] + Lines(body)[i])
    ensures Progress(body, maxLen, trim, plan + [Hard(addition)], out + OpChunks(Hard(addition), maxLen), [], i + 1)
  {
    var op := Hard(addition);
    SplitLineOk(body, maxLen, trim, Covered(plan), addition, i);
    PlanAppend(body, maxLen, trim, plan, op);
    NothingPending(body, maxLen, trim, plan + [op], out + OpChunks(op, maxLen), i + 1);
  }

  /** The last chunk. */
  lemma FlushRest(body: Bytes, maxLen: nat, trim: Bytes -> Bytes, plan: seq<Op>, out: seq<Bytes>, pending: Bytes)
    requires maxLen >= 1 && Progress(body, maxLen, trim, plan, out, pending, |Lines(body)|) && |pending| <= maxLen
    ensures pending == [] ==> Covered(plan) == body
    ensures pending != [] ==>
              var more := plan + [Packed(pending, false, false)];
              PlanOk(body, maxLen, trim, more) && out + [pending] == Rendered(more, maxLen) && Covered(more) == body
  {
    JoinLines(body);
    assert Lines(body)[..|Lines(body)|] == Lines(body);
    if pending != [] {
      PlanAppend(body, maxLen, trim, plan, Packed(pending, false, false));
      assert pending + [] == pending;
    } else {
      assert Covered(plan) + [] == Covered(plan);
    }
  }

  lemma WholeBody(body: Bytes, maxLen: nat, trim: Bytes -> Bytes)
    requires 1 <= maxLen && |body| <= maxLen
    ensures body == [] ==> Rendered([], maxLen) == [] && Covered([]) == body
    ensures body != [] ==>
              var plan := [Packed(body, false, false)];
              Rendered(plan, maxLen) == [body] && Covered(plan) == body && PlanOk(body, maxLen, trim, plan)
  {
    if body != [] {
      var op := Packed(body, false, false);
      WholeOk(body, maxLen, trim);
      PlanAppend(body, maxLen, trim, [], op);
      assert [] + [op] == [op] && body + [] == body && [] + body == body;
    }
  }

  lemma WholeOk(body: Bytes, maxLen: nat, trim: Bytes -> Bytes)
    requires 0 < |body| <= maxLen
    ensures OpOk(body, maxLen, trim, [], Packed(body, false, false))
  {
    assert [] + body == body;
  }
}
