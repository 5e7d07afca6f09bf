/** Which lines Split hard-splits and which it keeps together, from the lengths of the lines and the cap. */
module TextChunkConditions {
  import opened TextChunk
  import opened TextChunkSplit
  import opened TextChunkUnique
  import opened TextChunkLines
  import opened TextChunkPending

  // ------------------------------------------------------------ hard-split lines

  /** With nothing pending after i lines, an op starts at the newline before line i. */
  lemma LeftWhenNonePends(body: Bytes, maxLen: nat, trim: Bytes -> Bytes, plan: seq<Op>, i: nat)
    requires PlanOf(body, maxLen, trim, plan) && 0 < i < |Lines(body)| && Pend(Lines(body), maxLen, i) == 0
    ensures NewlineLeft(body, plan, i)
  {
    var k, pending := AtLine(body, maxLen, trim, plan, i);
    assert Covered(plan[..k]) + [] == Covered(plan[..k]);
    MoreToCover(body, plan, k, i);
  }

  lemma BodyGoesOn(body: Bytes, i: nat)
    requires i < |Lines(body)| && (i > 0 || Lines(body)[i] != [])
    ensures |body| > |UptoLine(body, i)|
  {
    NextUpto(body, i);
    UptoMonotone(body, i + 1, |Lines(body)|);
    UptoWhole(body);
  }

  /** Where less than the body is covered, an op follows. */
  lemma MoreToCover(body: Bytes, plan: seq<Op>, k: nat, i: nat)
    requires Covered(plan) == body && k <= |plan| && i < |Lines(body)|
    requires |Covered(plan[..k])| <= |UptoLine(body, i)| && (i > 0 || Lines(body)[i] != [])
    ensures k < |plan|
  {
    BodyGoesOn(body, i);
    assert plan[..|plan|] == plan;
  }

  /** What op k does when it starts with some bytes of the lines before line i pending: it packs them, with their line end. */
  lemma PendingIsPacked(body: Bytes, maxLen: nat, trim: Bytes -> Bytes, before: Bytes, op: Op, pending: Bytes, i: nat) returns (j: nat)
    requires maxLen >= 1 && OpOk(body, maxLen, trim, before, op)
    requires 0 < i <= |Lines(body)| && 0 < |pending| <= maxLen && before + pending == UptoLine(body, i)
    ensures op.Packed? && i <= j <= |Lines(body)| && j == |Lines(before + op.payload)| && before + op.payload == UptoLine(body, j)
    ensures op.newline <==> j < |Lines(body)|
  {
    j := EndsAt(body, maxLen, trim, before, op);
    if j > i {
      LongerReach(body, before, pending, Upto(op), i, j);
    } else if j == i {
      SameReach(before, pending, Upto(op));
    } else {
      UptoMonotone(body, j, i);
      LengthOf(before, Upto(op));
      LengthOf(before, pending);
    }
    if op.Packed? {
      PackedReach(body, maxLen, trim, before, op, pending, i);
    }
  }

  /** With something pending after i lines no op starts at the newline before line i. */
  lemma TakenWhenSomePends(body: Bytes, maxLen: nat, trim: Bytes -> Bytes, plan: seq<Op>, i: nat, m: nat)
    requires PlanOf(body, maxLen, trim, plan) && 0 < i < |Lines(body)| && Pend(Lines(body), maxLen, i) > 0 && m < |plan|
    ensures Covered(plan[..m]) != UptoLine(body, i)
  {
    var k, pending := AtLine(body, maxLen, trim, plan, i);
    LengthOf(Covered(plan[..k]), pending);
    MoreToCover(body, plan, k, i);
    if m <= k {
      CoveredPrefix(plan, m, k);
    } else {
      OpAt(body, maxLen, trim, plan, k);
      var j := PendingIsPacked(body, maxLen, trim, Covered(plan[..k]), plan[k], pending, i);
      CoveredNext(plan, k);
      NewlineOrNot(Covered(plan[..k]), plan[k]);
      CoveredPrefix(plan, k + 1, m);
      UptoMonotone(body, i, j);
    }
  }

  /** An op starts at the newline before a line exactly when nothing is pending there. */
  lemma LeftIffNonePends(body: Bytes, maxLen: nat, trim: Bytes -> Bytes, plan: seq<Op>, i: nat)
    requires PlanOf(body, maxLen, trim, plan) && 0 < i < |Lines(body)|
    ensures NewlineLeft(body, plan, i) <==> Pend(Lines(body), maxLen, i) == 0
  {
    if Pend(Lines(body), maxLen, i) == 0 {
      LeftWhenNonePends(body, maxLen, trim, plan, i);
    } else {
      forall m | 0 <= m < |plan| ensures Covered(plan[..m]) != UptoLine(body, i) {
        TakenWhenSomePends(body, maxLen, trim, plan, i, m);
      }
    }
  }

  /**
   Which lines Split hard-splits: exactly those over the cap, and those of exactly
   the cap, other than the first, before which nothing is pending.
   */
  lemma HardSplitLines(body: Bytes, maxLen: nat, trim: Bytes -> Bytes, plan: seq<Op>, i: nat)
    requires PlanOf(body, maxLen, trim, plan) && i < |Lines(body)|
    ensures LineCut(body, plan, i) <==>
              || |Lines(body)[i]| > maxLen
              || (|Lines(body)[i]| == maxLen && i > 0 && Pend(Lines(body), maxLen, i) == 0)
  {
    CutIffNewlineLeft(body, maxLen, trim, plan, i);
    if i > 0 {
      LeftIffNonePends(body, maxLen, trim, plan, i);
    }
  }

  // --------------------------------------------------------- lines kept together

  /** A hard-split line is in no packed chunk. */
  lemma CutNotPacked(body: Bytes, maxLen: nat, trim: Bytes -> Bytes, plan: seq<Op>, o: nat, m: nat)
    requires PlanOf(body, maxLen, trim, plan) && o < |Lines(body)| && Lines(body)[o] != [] && LineCut(body, plan, o) && m < |plan|
    ensures !ChunkHas(body, plan, m, o, o)
  {
    var k: nat :| k < |plan| && plan[k].Hard? && Covered(plan[..k]) + plan[k].text == UptoLine(body, o + 1);
    CutApart(body, maxLen, trim, plan, o, k, m);
  }

  lemma CutApart(body: Bytes, maxLen: nat, trim: Bytes -> Bytes, plan: seq<Op>, o: nat, k: nat, m: nat)
    requires maxLen >= 1 && PlanOk(body, maxLen, trim, plan) && o < |Lines(body)| && Lines(body)[o] != []
    requires k < |plan| && plan[k].Hard? && Covered(plan[..k]) + plan[k].text == UptoLine(body, o + 1) && m < |plan|
    ensures !ChunkHas(body, plan, m, o, o)
  {
    if m > k {
      AfterCut(body, plan, o, k, m);
    } else if m < k && ChunkHas(body, plan, m, o, o) {
      HardNotEmpty(body, maxLen, trim, plan, k);
      BeforeCut(body, plan, o, k, m);
      PackedCovers(body, maxLen, trim, plan, m, o);
      assert false;
    }
  }

  lemma AfterCut(body: Bytes, plan: seq<Op>, o: nat, k: nat, m: nat)
    requires o < |Lines(body)| && Lines(body)[o] != [] && k < m <= |plan|
    requires plan[k].Hard? && Covered(plan[..k]) + plan[k].text == UptoLine(body, o + 1)
    ensures |Covered(plan[..m])| > StartOf(body, o)
  {
    CoveredNext(plan, k);
    CoveredPrefix(plan, k + 1, m);
    NextUpto(body, o);
  }

  lemma BeforeCut(body: Bytes, plan: seq<Op>, o: nat, k: nat, m: nat)
    requires o < |Lines(body)| && m < k < |plan| && plan[k].Hard? && plan[k].text != []
    requires Covered(plan[..k]) + plan[k].text == UptoLine(body, o + 1)
    ensures |Covered(plan[..m + 1])| < |UptoLine(body, o + 1)|
  {
    LengthOf(Covered(plan[..k]), plan[k].text);
    CoveredPrefix(plan, m + 1, k);
  }

  lemma HardNotEmpty(body: Bytes, maxLen: nat, trim: Bytes -> Bytes, plan: seq<Op>, k: nat)
    requires maxLen >= 1 && PlanOk(body, maxLen, trim, plan) && k < |plan| && plan[k].Hard?
    ensures plan[k].text != []
  {
    OpAt(body, maxLen, trim, plan, k);
    OpCovers(body, maxLen, trim, Covered(plan[..k]), plan[k]);
  }

  lemma PackedCovers(body: Bytes, maxLen: nat, trim: Bytes -> Bytes, plan: seq<Op>, m: nat, o: nat)
    requires maxLen >= 1 && PlanOk(body, maxLen, trim, plan) && o < |Lines(body)| && m < |plan| && ChunkHas(body, plan, m, o, o)
    ensures |Covered(plan[..m + 1])| >= |UptoLine(body, o + 1)|
  {
    OpAt(body, maxLen, trim, plan, m);
    var j := EndsAt(body, maxLen, trim, Covered(plan[..m]), plan[m]);
    UptoMonotone(body, o + 1, j);
    CoveredNext(plan, m);
    NewlineOrNot(Covered(plan[..m]), plan[m]);
  }

  /** The bytes of lines o to c, with the newlines between them. */
  function SpanOf(ls: seq<Bytes>, o: nat, c: nat): nat
    requires o <= c < |ls|
  {
    |ls[c]| + if o == c then 0 else SpanOf(ls, o, c - 1) + 1
  }

  lemma {:induction false} SpanAtLeast(ls: seq<Bytes>, o: nat, c: nat)
    requires o <= c < |ls|
    ensures SpanOf(ls, o, c) >= |ls[o]|
    decreases c
  {
    if o < c {
      SpanAtLeast(ls, o, c - 1);
    }
  }

  /** Where line i - 1 ends, by lengths. */
  function EndAt(ls: seq<Bytes>, i: nat): nat
    requires i <= |ls|
  {
    if i == 0 then 0 else EndAt(ls, i - 1) + (if i == 1 then 0 else 1) + |ls[i - 1]|
  }

  lemma {:induction false} EndAtIsLength(body: Bytes, i: nat)
    requires i <= |Lines(body)|
    ensures |UptoLine(body, i)| == EndAt(Lines(body), i)
  {
    if i > 0 {
      var k := i - 1;
      EndAtIsLength(body, k);
      NextUpto(body, k);
    }
  }

  lemma {:induction false} SpanByEnds(ls: seq<Bytes>, o: nat, c: nat)
    requires o <= c < |ls|
    ensures EndAt(ls, c + 1) == EndAt(ls, o) + (if o == 0 then 0 else 1) + SpanOf(ls, o, c)
    decreases c
  {
    if o < c {
      SpanByEnds(ls, o, c - 1);
    }
  }

  lemma SpanReaches(body: Bytes, o: nat, c: nat)
    requires o <= c < |Lines(body)|
    ensures |UptoLine(body, c + 1)| == StartOf(body, o) + SpanOf(Lines(body), o, c)
  {
    var ls, next := Lines(body), c + 1;
    EndAtIsLength(body, next);
    StartByEnds(body, o);
    var end, start := EndAt(ls, next), EndAt(ls, o);
    assert end == start + (if o == 0 then 0 else 1) + SpanOf(ls, o, c) by { SpanByEnds(ls, o, c); }
  }

  lemma StartByEnds(body: Bytes, o: nat)
    requires o < |Lines(body)|
    ensures StartOf(body, o) == EndAt(Lines(body), o) + if o == 0 then 0 else 1
  {
    EndAtIsLength(body, o);
  }

  /** A line that is packed, by lengths: its chunk starts with it, or with what was pending. */
  lemma PackedAt(body: Bytes, maxLen: nat, trim: Bytes -> Bytes, plan: seq<Op>, o: nat) returns (k: nat)
    requires PlanOf(body, maxLen, trim, plan) && o < |Lines(body)| && Lines(body)[o] != []
    requires Pend(Lines(body), maxLen, o + 1) > 0
    ensures k < |plan| && ChunkHas(body, plan, k, o, o)
    ensures |Covered(plan[..k])| == |UptoLine(body, o + 1)| - Pend(Lines(body), maxLen, o + 1)
  {
    var pending;
    k, pending := AtLine(body, maxLen, trim, plan, o + 1);
    LengthOf(Covered(plan[..k]), pending);
    NextUpto(body, o);
    StillPending(body, plan, k, o, pending);
    OpAt(body, maxLen, trim, plan, k);
    var j := PendingIsPacked(body, maxLen, trim, Covered(plan[..k]), plan[k], pending, o + 1);
    PendNext(Lines(body), maxLen, o);
  }

  lemma StillPending(body: Bytes, plan: seq<Op>, k: nat, o: nat, pending: Bytes)
    requires Covered(plan) == body && k <= |plan| && o < |Lines(body)| && pending != []
    requires Covered(plan[..k]) + pending == UptoLine(body, o + 1)
    ensures k < |plan|
  {
    assert plan[..|plan|] == plan;
    UptoMonotone(body, o + 1, |Lines(body)|);
    UptoWhole(body);
    LengthOf(Covered(plan[..k]), pending);
  }

  /** Lines o to c fit in the chunk that line o goes to: the current one, or one that it starts. */
  predicate Fits(ls: seq<Bytes>, maxLen: nat, o: nat, c: nat)
    requires o <= c < |ls|
  {
    var p, lead, span := Pend(ls, maxLen, o), if o == 0 then 0 else 1, SpanOf(ls, o, c);
    || p + lead + span <= maxLen
    || (p > 0 && p + lead + |ls[o]| > maxLen && span <= maxLen)
  }

  /**
   Which lines Split keeps in one chunk: lines o to c, the first of them not empty,
   exactly when they fit in the current chunk, or when the first does not and they
   fit in a chunk of their own.
   */
  lemma LinesTogether(body: Bytes, maxLen: nat, trim: Bytes -> Bytes, plan: seq<Op>, o: nat, c: nat)
    requires PlanOf(body, maxLen, trim, plan) && o <= c < |Lines(body)| && Lines(body)[o] != []
    ensures Whole(body, plan, o, c) <==> Fits(Lines(body), maxLen, o, c)
  {
    var ls := Lines(body);
    SpanReaches(body, o, c);
    SpanAtLeast(ls, o, c);
    PendNext(ls, maxLen, o);
    if Pend(ls, maxLen, o + 1) > 0 {
      var k := PackedAt(body, maxLen, trim, plan, o);
      KeptTogether(body, maxLen, trim, plan, k, o, c);
      NextUpto(body, o);
    } else {
      HardSplitLines(body, maxLen, trim, plan, o);
      forall m | 0 <= m < |plan| ensures !ChunkHas(body, plan, m, o, c) {
        CutNotPacked(body, maxLen, trim, plan, o, m);
      }
    }
  }
}
