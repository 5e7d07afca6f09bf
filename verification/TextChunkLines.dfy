/** Which lines are hard-split, and which runs of lines stay in one chunk. */
module TextChunkLines {
  import opened TextChunk
  import opened TextChunkSplit
  import opened TextChunkUnique

  /** The text up to the end of line i - 1. */
  function UptoLine(body: Bytes, i: nat): Bytes
    requires i <= |Lines(body)|
  {
    if i == 0 then [] else Join(Lines(body)[..i])
  }

  /** Where line i starts. */
  function StartOf(body: Bytes, i: nat): nat
    requires i < |Lines(body)|
  {
    |UptoLine(body, i)| + if i == 0 then 0 else 1
  }

  lemma LineFollows(body: Bytes, i: nat)
    requires i < |Lines(body)|
    ensures UptoLine(body, i + 1) == UptoLine(body, i) + (if i == 0 then [] else [NL]) + Lines(body)[i]
  {
    if i == 0 {
      assert Lines(body)[..1] == [Lines(body)[0]];
      assert [] + [] + Lines(body)[0] == Lines(body)[0];
    } else {
      JoinNext(Lines(body), i);
    }
  }

  // ------------------------------------------------------------ hard-split lines

  /** What a line adds to the text so far: the line, after its newline if that is not accounted for. */
  ghost predicate IsStep(body: Bytes, before: Bytes, i: nat, step: Bytes) {
    && i < |Lines(body)| && step != []
    && before + step == UptoLine(body, i + 1)
    && (step == Lines(body)[i] || step == [NL] + Lines(body)[i])
  }

  lemma StepHasOneLine(body: Bytes, before: Bytes, i: nat, step: Bytes)
    requires IsStep(body, before, i, step)
    ensures NL !in step[1..]
  {
    JoinLines(body);
    if step == [NL] + Lines(body)[i] {
      assert step[1..] == Lines(body)[i];
    }
  }

  /** From one place, what reaches a later line end holds a newline after the earlier one, and the line after it. */
  lemma LongerReach(body: Bytes, before: Bytes, x: Bytes, y: Bytes, i: nat, j: nat)
    requires 0 < i < j <= |Lines(body)| && x != []
    requires before + x == UptoLine(body, i) && before + y == UptoLine(body, j)
    ensures |y| >= |x| + 1 + |Lines(body)[i]| && NL in y[1..]
  {
    var more := JoinGoesOn(Lines(body), i, j);
    var gap := [NL] + Lines(body)[i] + more;
    SameTail(before, x, y, gap);
    GapShows(x, y, gap);
  }

  lemma SameReach(before: Bytes, x: Bytes, y: Bytes)
    requires before + x == before + y
    ensures x == y
  {
    SameTail(before, x, y, []);
    assert x + [] == x;
  }

  /** A text from where a step starts to the end of some line takes all of the step. */
  lemma ReachesStep(body: Bytes, before: Bytes, text: Bytes, j: nat, i: nat, step: Bytes)
    requires 0 < j <= |Lines(body)| && before + text == UptoLine(body, j) && text != []
    requires IsStep(body, before, i, step)
    ensures j >= i + 1
    ensures j == i + 1 ==> text == step
    ensures j > i + 1 ==> |text| > |step| && NL in text[1..]
  {
    StepHasOneLine(body, before, i, step);
    if j < i + 1 {
      LongerReach(body, before, text, step, j, i + 1);
      assert false;
    }
    if j > i + 1 {
      LongerReach(body, before, step, text, i + 1, j);
    } else {
      SameReach(before, text, step);
    }
  }

  lemma OpTakesStep(body: Bytes, maxLen: nat, trim: Bytes -> Bytes, before: Bytes, op: Op, i: nat, step: Bytes) returns (j: nat)
    requires maxLen >= 1 && OpOk(body, maxLen, trim, before, op) && IsStep(body, before, i, step)
    ensures i + 1 <= j <= |Lines(body)| && before + Upto(op) == UptoLine(body, j)
    ensures j == i + 1 ==> Upto(op) == step
    ensures j > i + 1 ==> |Upto(op)| > |step|
    ensures op.Hard? ==> j == i + 1
    ensures op.Hard? <==> |Upto(op)| > maxLen
  {
    j := EndsAt(body, maxLen, trim, before, op);
    ReachesStep(body, before, Upto(op), j, i, step);
  }

  /**
   When a line is hard-split: a right op that starts where line i's step does is
   a hard split exactly when the step is over the cap. So a line of exactly the
   cap is hard-split exactly when its newline is still to be accounted for.
   */
  lemma HardSplitStep(body: Bytes, maxLen: nat, trim: Bytes -> Bytes, before: Bytes, op: Op, i: nat, step: Bytes)
    requires maxLen >= 1 && OpOk(body, maxLen, trim, before, op) && IsStep(body, before, i, step)
    ensures op.Hard? <==> |step| > maxLen
    ensures op.Hard? ==> op.text == step
    ensures |Lines(body)[i]| == maxLen ==> (op.Hard? <==> step == [NL] + Lines(body)[i])
  {
    var j := OpTakesStep(body, maxLen, trim, before, op, i, step);
  }

  // ------------------------------------------------------------ the plan of Split

  /** A right plan for the whole body, of which there is one. */
  ghost predicate PlanOf(body: Bytes, maxLen: nat, trim: Bytes -> Bytes, plan: seq<Op>) {
    maxLen >= 1 && PlanOk(body, maxLen, trim, plan) && Covered(plan) == body
  }

  /** Line i is hard-split. */
  ghost predicate LineCut(body: Bytes, plan: seq<Op>, i: nat)
    requires i < |Lines(body)|
  {
    exists k :: 0 <= k < |plan| && plan[k].Hard? && Covered(plan[..k]) + plan[k].text == UptoLine(body, i + 1)
  }

  /** An op starts right at the newline before line i. */
  ghost predicate NewlineLeft(body: Bytes, plan: seq<Op>, i: nat)
    requires i < |Lines(body)|
  {
    i > 0 && exists k :: 0 <= k < |plan| && Covered(plan[..k]) == UptoLine(body, i)
  }

  lemma {:induction false} CoveredPrefix(plan: seq<Op>, i: nat, j: nat)
    requires i <= j <= |plan|
    ensures Covered(plan[..i]) <= Covered(plan[..j])
    decreases j
  {
    if i < j {
      CoveredPrefix(plan, i, j - 1);
      CoveredNext(plan, j - 1);
    }
  }

  /** The op that covers the byte before offset x. */
  lemma {:induction false} FindOp(plan: seq<Op>, n: nat, x: nat) returns (k: nat)
    requires n <= |plan| && 0 < x <= |Covered(plan[..n])|
    ensures k < n && |Covered(plan[..k])| < x <= |Covered(plan[..k + 1])|
    decreases n
  {
    assert Covered(plan[..0]) == [];
    k := n - 1;
    if x <= |Covered(plan[..n - 1])| {
      k := FindOp(plan, n - 1, x);
    }
  }

  lemma NextUpto(body: Bytes, j: nat)
    requires j < |Lines(body)|
    ensures UptoLine(body, j) <= UptoLine(body, j + 1)
    ensures |UptoLine(body, j + 1)| == StartOf(body, j) + |Lines(body)[j]|
  {
    LineFollows(body, j);
  }

  lemma UptoMonotone(body: Bytes, i: nat, j: nat)
    requires i <= j <= |Lines(body)|
    ensures UptoLine(body, i) <= UptoLine(body, j)
    ensures 0 < i < j ==> |UptoLine(body, i)| < |UptoLine(body, j)|
  {
    if 0 < i < j {
      var more := JoinGoesOn(Lines(body), i, j);
    }
  }

  lemma UptoWhole(body: Bytes)
    ensures UptoLine(body, |Lines(body)|) == body
  {
    JoinLines(body);
    assert Lines(body)[..|Lines(body)|] == Lines(body);
  }

  /** An op starts at the beginning of the body, at a line end, or after the newline there. */
  lemma StartsAt(body: Bytes, maxLen: nat, trim: Bytes -> Bytes, plan: seq<Op>, k: nat) returns (p: nat)
    requires PlanOf(body, maxLen, trim, plan) && k <= |plan|
    ensures p <= |Lines(body)|
    ensures k == 0 ==> p == 0 && Covered(plan[..k]) == []
    ensures k > 0 ==> p > 0 && (Covered(plan[..k]) == UptoLine(body, p) || Covered(plan[..k]) == UptoLine(body, p) + [NL])
  {
    if k == 0 {
      p := 0;
    } else {
      OpAt(body, maxLen, trim, plan, k - 1);
      p := EndsAt(body, maxLen, trim, Covered(plan[..k - 1]), plan[k - 1]);
      CoveredNext(plan, k - 1);
      NewlineOrNot(Covered(plan[..k - 1]), plan[k - 1]);
    }
  }

  lemma NewlineOrNot(before: Bytes, op: Op)
    ensures before + OpText(op) == before + Upto(op) + if op.Packed? && op.newline then [NL] else []
  {
    if op.Packed? && !op.newline {
      assert op.payload + [] == op.payload;
    }
  }

  /** What covers the last byte of line i reaches at least its end. */
  lemma EndPast(body: Bytes, before: Bytes, op: Op, j: nat, i: nat)
    requires i < |Lines(body)| && Lines(body)[i] != [] && 0 < j <= |Lines(body)|
    requires before + Upto(op) == UptoLine(body, j) && |before + OpText(op)| >= |UptoLine(body, i + 1)|
    ensures j >= i + 1
  {
    NewlineOrNot(before, op);
    NextUpto(body, i);
    if j <= i {
      UptoMonotone(body, j, i);
    }
  }

  /** What starts at a line end before the last byte of line i starts no later than line i. */
  lemma StartBefore(body: Bytes, start: Bytes, p: nat, i: nat)
    requires i < |Lines(body)| && p <= |Lines(body)| && |start| < |UptoLine(body, i + 1)|
    requires if p == 0 then start == [] else start == UptoLine(body, p) || start == UptoLine(body, p) + [NL]
    ensures |start| <= StartOf(body, i)
  {
    if p > i {
      UptoMonotone(body, i + 1, p);
    } else {
      UptoMonotone(body, p, i);
    }
  }

  lemma LastByteOf(body: Bytes, plan: seq<Op>, i: nat) returns (k: nat)
    requires Covered(plan) == body && i < |Lines(body)| && Lines(body)[i] != []
    ensures k < |plan| && |Covered(plan[..k])| < |UptoLine(body, i + 1)| <= |Covered(plan[..k]) + OpText(plan[k])|
  {
    NextUpto(body, i);
    UptoMonotone(body, i + 1, |Lines(body)|);
    UptoWhole(body);
    assert plan[..|plan|] == plan;
    k := FindOp(plan, |plan|, |UptoLine(body, i + 1)|);
    CoveredNext(plan, k);
  }

  /** Every line that is not empty lies within one op. */
  lemma OpOfLine(body: Bytes, maxLen: nat, trim: Bytes -> Bytes, plan: seq<Op>, i: nat) returns (k: nat, j: nat)
    requires PlanOf(body, maxLen, trim, plan) && i < |Lines(body)| && Lines(body)[i] != []
    ensures k < |plan| && i + 1 <= j <= |Lines(body)|
    ensures OpOk(body, maxLen, trim, Covered(plan[..k]), plan[k])
    ensures Covered(plan[..k]) + Upto(plan[k]) == UptoLine(body, j)
    ensures |Covered(plan[..k])| <= StartOf(body, i)
  {
    k := LastByteOf(body, plan, i);
    OpAt(body, maxLen, trim, plan, k);
    j := EndsAt(body, maxLen, trim, Covered(plan[..k]), plan[k]);
    EndPast(body, Covered(plan[..k]), plan[k], j, i);
    var p := StartsAt(body, maxLen, trim, plan, k);
    StartBefore(body, Covered(plan[..k]), p, i);
  }

  /** The part of a text that ends where a shorter text ends. */
  lemma Middle(before: Bytes, text: Bytes, whole: Bytes, upto: Bytes) returns (step: Bytes)
    requires before + text == whole && upto <= whole && |before| <= |upto|
    ensures before + step == upto && step <= text && |step| == |upto| - |before|
  {
    step := text[..|upto| - |before|];
    assert (before + text)[..|upto|] == before + step;
  }

  /** A text that starts at or before line i and ends at line j or later holds all of line i, and ends with it if it is one line. */
  lemma HoldsLine(body: Bytes, before: Bytes, text: Bytes, i: nat, j: nat)
    requires i < j <= |Lines(body)| && before + text == UptoLine(body, j) && |before| <= StartOf(body, i) && Lines(body)[i] != []
    ensures |text| >= |Lines(body)[i]|
    ensures NL !in text[1..] ==> j == i + 1
  {
    NextUpto(body, i);
    UptoMonotone(body, i + 1, j);
    var step := Middle(before, text, UptoLine(body, j), UptoLine(body, i + 1));
    if j > i + 1 {
      LongerReach(body, before, step, text, i + 1, j);
    }
  }

  /** What a hard op takes. */
  lemma HardEnds(body: Bytes, maxLen: nat, trim: Bytes -> Bytes, before: Bytes, op: Op) returns (j: nat)
    requires maxLen >= 1 && OpOk(body, maxLen, trim, before, op) && op.Hard?
    ensures 0 < j <= |Lines(body)| && before + op.text == UptoLine(body, j) && |op.text| > maxLen
    ensures op.text == Lines(body)[j - 1] || op.text == [NL] + Lines(body)[j - 1]
  {
    j := EndsAt(body, maxLen, trim, before, op);
    assert Lines(before + op.text)[j - 1] == Lines(body)[j - 1];
  }

  /** A line over the cap is hard-split. */
  lemma LongLineCut(body: Bytes, maxLen: nat, trim: Bytes -> Bytes, plan: seq<Op>, i: nat)
    requires PlanOf(body, maxLen, trim, plan) && i < |Lines(body)| && |Lines(body)[i]| > maxLen
    ensures LineCut(body, plan, i)
  {
    var k, j := OpOfLine(body, maxLen, trim, plan, i);
    HoldsLine(body, Covered(plan[..k]), Upto(plan[k]), i, j);
    LongIsCut(body, maxLen, trim, plan, i, k, j);
  }

  lemma LongIsCut(body: Bytes, maxLen: nat, trim: Bytes -> Bytes, plan: seq<Op>, i: nat, k: nat, j: nat)
    requires maxLen >= 1 && k < |plan| && OpOk(body, maxLen, trim, Covered(plan[..k]), plan[k])
    requires i < j <= |Lines(body)| && Covered(plan[..k]) + Upto(plan[k]) == UptoLine(body, j)
    requires |Upto(plan[k])| > maxLen && (NL !in Upto(plan[k])[1..] ==> j == i + 1)
    ensures LineCut(body, plan, i)
  {
    var _ := EndsAt(body, maxLen, trim, Covered(plan[..k]), plan[k]);
    assert plan[k].Hard?;
  }

  lemma StepHead(body: Bytes, before: Bytes, i: nat)
    requires i < |Lines(body)| && before + ([NL] + Lines(body)[i]) == UptoLine(body, i + 1)
    ensures i > 0 && before == UptoLine(body, i)
  {
    LineFollows(body, i);
    if i > 0 {
      Regroup(UptoLine(body, i), [NL], Lines(body)[i]);
      SameHead(before, UptoLine(body, i), [NL] + Lines(body)[i]);
    }
  }

  lemma SameHead(x: Bytes, y: Bytes, tail: Bytes)
    requires x + tail == y + tail
    ensures x == y
  {
    assert |x| == |y|;
    assert (x + tail)[..|x|] == x && (y + tail)[..|y|] == y;
  }

  lemma SameLine(body: Bytes, i: nat, j: nat)
    requires 0 < i <= |Lines(body)| && 0 < j <= |Lines(body)| && UptoLine(body, i) == UptoLine(body, j)
    ensures i == j
  {
    UptoMonotone(body, if i < j then i else j, if i < j then j else i);
  }

  /** A hard-split line is over the cap, or of exactly the cap with its newline still to be accounted for. */
  lemma CutLineIsLong(body: Bytes, maxLen: nat, trim: Bytes -> Bytes, plan: seq<Op>, i: nat, k: nat)
    requires maxLen >= 1 && PlanOk(body, maxLen, trim, plan) && i < |Lines(body)| && k < |plan| && plan[k].Hard?
    requires Covered(plan[..k]) + plan[k].text == UptoLine(body, i + 1)
    ensures |Lines(body)[i]| > maxLen || (|Lines(body)[i]| == maxLen && NewlineLeft(body, plan, i))
  {
    OpAt(body, maxLen, trim, plan, k);
    var j := HardEnds(body, maxLen, trim, Covered(plan[..k]), plan[k]);
    SameLine(body, i + 1, j);
    if plan[k].text == [NL] + Lines(body)[i] {
      StepHead(body, Covered(plan[..k]), i);
    }
  }

  lemma LeftLineCut(body: Bytes, maxLen: nat, trim: Bytes -> Bytes, plan: seq<Op>, i: nat, k: nat)
    requires maxLen >= 1 && PlanOk(body, maxLen, trim, plan) && 0 < i < |Lines(body)| && k < |plan|
    requires Covered(plan[..k]) == UptoLine(body, i) && |Lines(body)[i]| >= maxLen
    ensures LineCut(body, plan, i)
  {
    var before, step := Covered(plan[..k]), [NL] + Lines(body)[i];
    LineFollows(body, i);
    Regroup(before, [NL], Lines(body)[i]);
    OpAt(body, maxLen, trim, plan, k);
    HardSplitStep(body, maxLen, trim, before, plan[k], i, step);
  }

  /**
   Which lines are hard-split, by the plan: exactly those over the cap, and those
   of exactly the cap at whose newline an op starts.
   */
  lemma CutIffNewlineLeft(body: Bytes, maxLen: nat, trim: Bytes -> Bytes, plan: seq<Op>, i: nat)
    requires PlanOf(body, maxLen, trim, plan) && i < |Lines(body)|
    ensures LineCut(body, plan, i) <==>
              |Lines(body)[i]| > maxLen || (|Lines(body)[i]| == maxLen && NewlineLeft(body, plan, i))
  {
    if k :| 0 <= k < |plan| && plan[k].Hard? && Covered(plan[..k]) + plan[k].text == UptoLine(body, i + 1) {
      CutLineIsLong(body, maxLen, trim, plan, i, k);
    }
    if |Lines(body)[i]| > maxLen {
      LongLineCut(body, maxLen, trim, plan, i);
    } else if |Lines(body)[i]| == maxLen && i > 0 {
      if k :| 0 <= k < |plan| && Covered(plan[..k]) == UptoLine(body, i) {
        LeftLineCut(body, maxLen, trim, plan, i, k);
      }
    }
  }

  // --------------------------------------------------------- lines kept together

  /** Lines o to c are in the chunk that op k packs. */
  ghost predicate ChunkHas(body: Bytes, plan: seq<Op>, k: nat, o: nat, c: nat)
    requires k < |plan| && o <= c < |Lines(body)|
  {
    && plan[k].Packed?
    && |Covered(plan[..k])| <= StartOf(body, o)
    && c + 1 <= |Lines(Covered(plan[..k]) + plan[k].payload)|
  }

  /** Lines o to c are in one chunk. */
  ghost predicate Whole(body: Bytes, plan: seq<Op>, o: nat, c: nat)
    requires o <= c < |Lines(body)|
  {
    exists k :: 0 <= k < |plan| && ChunkHas(body, plan, k, o, c)
  }

  /** A packed chunk reaches the end of a line exactly when the text from its start to there fits the cap. */
  lemma PackedReach(body: Bytes, maxLen: nat, trim: Bytes -> Bytes, before: Bytes, op: Op, text: Bytes, j: nat)
    requires maxLen >= 1 && OpOk(body, maxLen, trim, before, op) && op.Packed?
    requires 0 < j <= |Lines(body)| && before + text == UptoLine(body, j)
    ensures j <= |Lines(before + op.payload)| <==> |text| <= maxLen
  {
    var i := EndsAt(body, maxLen, trim, before, op);
    if j <= i {
      UptoMonotone(body, j, i);
    } else {
      LongerReach(body, before, op.payload, text, i, j);
    }
  }

  /** A packed op that drops no newline is the last. */
  lemma LastOp(body: Bytes, maxLen: nat, trim: Bytes -> Bytes, plan: seq<Op>, k: nat)
    requires PlanOf(body, maxLen, trim, plan) && k < |plan| && plan[k].Packed? && !plan[k].newline
    ensures k + 1 == |plan|
  {
    OpAt(body, maxLen, trim, plan, k);
    var j := EndsAt(body, maxLen, trim, Covered(plan[..k]), plan[k]);
    CoveredNext(plan, k);
    NewlineOrNot(Covered(plan[..k]), plan[k]);
    UptoWhole(body);
    PlanCovers(body, maxLen, trim, plan);
    CoveredUpto(plan, k + 1, |plan|);
    assert plan[..|plan|] == plan;
  }

  /** Where the op after a packed one starts. */
  lemma AfterPacked(body: Bytes, maxLen: nat, trim: Bytes -> Bytes, plan: seq<Op>, k: nat)
    requires maxLen >= 1 && PlanOk(body, maxLen, trim, plan) && k < |plan| && plan[k].Packed? && plan[k].newline
    ensures var j := |Lines(Covered(plan[..k]) + plan[k].payload)|;
            0 < j <= |Lines(body)| && |Covered(plan[..k + 1])| == |UptoLine(body, j)| + 1
  {
    OpAt(body, maxLen, trim, plan, k);
    var j := EndsAt(body, maxLen, trim, Covered(plan[..k]), plan[k]);
    CoveredNext(plan, k);
  }

  /** A line is in at most one packed chunk. */
  lemma OneChunk(body: Bytes, maxLen: nat, trim: Bytes -> Bytes, plan: seq<Op>, k: nat, m: nat, o: nat)
    requires PlanOf(body, maxLen, trim, plan) && k < m < |plan| && o < |Lines(body)|
    requires ChunkHas(body, plan, k, o, o)
    ensures !ChunkHas(body, plan, m, o, o)
  {
    if !plan[k].newline {
      LastOp(body, maxLen, trim, plan, k);
      assert false;
    } else {
      AfterPacked(body, maxLen, trim, plan, k);
      CoveredPrefix(plan, k + 1, m);
      NextUpto(body, o);
      UptoMonotone(body, o + 1, |Lines(Covered(plan[..k]) + plan[k].payload)|);
    }
  }

  lemma OnlyChunk(body: Bytes, maxLen: nat, trim: Bytes -> Bytes, plan: seq<Op>, k: nat, o: nat, c: nat)
    requires PlanOf(body, maxLen, trim, plan) && k < |plan| && o <= c < |Lines(body)| && ChunkHas(body, plan, k, o, o)
    ensures Whole(body, plan, o, c) <==> ChunkHas(body, plan, k, o, c)
  {
    if m :| 0 <= m < |plan| && ChunkHas(body, plan, m, o, c) {
      if k < m { OneChunk(body, maxLen, trim, plan, k, m, o); assert false; }
      if m < k { OneChunk(body, maxLen, trim, plan, m, k, o); assert false; }
    }
  }

  /**
   Which lines stay together: if line o is in the packed chunk k, lines o to c are
   in one chunk exactly when the text from the start of chunk k to the end of line
   c fits the cap.
   */
  lemma KeptTogether(body: Bytes, maxLen: nat, trim: Bytes -> Bytes, plan: seq<Op>, k: nat, o: nat, c: nat)
    requires PlanOf(body, maxLen, trim, plan) && k < |plan| && o <= c < |Lines(body)| && ChunkHas(body, plan, k, o, o)
    ensures Whole(body, plan, o, c) <==> |UptoLine(body, c + 1)| - |Covered(plan[..k])| <= maxLen
  {
    OnlyChunk(body, maxLen, trim, plan, k, o, c);
    StartsWithin(plan, k);
    var text := TextThrough(body, Covered(plan[..k]), o, c);
    OpAt(body, maxLen, trim, plan, k);
    ChunkReach(body, maxLen, trim, plan, k, o, c, text);
  }

  lemma ChunkReach(body: Bytes, maxLen: nat, trim: Bytes -> Bytes, plan: seq<Op>, k: nat, o: nat, c: nat, text: Bytes)
    requires maxLen >= 1 && k < |plan| && OpOk(body, maxLen, trim, Covered(plan[..k]), plan[k])
    requires o <= c < |Lines(body)| && ChunkHas(body, plan, k, o, o) && Covered(plan[..k]) + text == UptoLine(body, c + 1)
    ensures ChunkHas(body, plan, k, o, c) <==> |UptoLine(body, c + 1)| - |Covered(plan[..k])| <= maxLen
  {
    PackedReach(body, maxLen, trim, Covered(plan[..k]), plan[k], text, c + 1);
    LengthOf(Covered(plan[..k]), text);
  }

  lemma LengthOf(x: Bytes, y: Bytes)
    ensures |x + y| == |x| + |y|
  {
  }

  lemma TextThrough(body: Bytes, before: Bytes, o: nat, c: nat) returns (text: Bytes)
    requires o <= c < |Lines(body)| && before <= body && |before| <= StartOf(body, o)
    ensures before + text == UptoLine(body, c + 1)
  {
    UptoMonotone(body, c + 1, |Lines(body)|);
    UptoWhole(body);
    NextUpto(body, o);
    UptoMonotone(body, o + 1, c + 1);
    text := Between(before, UptoLine(body, c + 1), body);
  }

  lemma StartsWithin(plan: seq<Op>, k: nat)
    requires k <= |plan|
    ensures Covered(plan[..k]) <= Covered(plan)
  {
    CoveredPrefix(plan, k, |plan|);
    assert plan[..|plan|] == plan;
  }

  lemma Between(before: Bytes, upto: Bytes, body: Bytes) returns (text: Bytes)
    requires before <= body && upto <= body && |before| <= |upto|
    ensures before + text == upto
  {
    text := upto[|before|..];
    assert before == body[..|before|] == upto[..|before|];
  }
}
