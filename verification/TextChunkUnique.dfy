/** A body has only one right plan, so what Split promises leaves no choice of chunks. */
module TextChunkUnique {
  import opened TextChunk
  import opened TextChunkSplit

  /** The part of the op before the newline it drops. */
  function Upto(op: Op): Bytes {
    match op
    case Packed(payload, _, _) => payload
    case Hard(text) => text
  }

  lemma {:induction false} JoinGoesOn(ls: seq<Bytes>, i: nat, j: nat) returns (more: Bytes)
    requires 0 < i < j <= |ls|
    ensures Join(ls[..j]) == Join(ls[..i]) + ([NL] + ls[i] + more)
    decreases j
  {
    JoinNext(ls, j - 1);
    if i == j - 1 {
      more := [];
      assert [NL] + ls[i] + more == [NL] + ls[i];
      assert Join(ls[..j]) == Join(ls[..i]) + ([NL] + ls[i]);
    } else {
      var front := JoinGoesOn(ls, i, j - 1);
      more := front + [NL] + ls[j - 1];
      assert Join(ls[..i]) + ([NL] + ls[i] + front) + [NL] + ls[j - 1] == Join(ls[..i]) + ([NL] + ls[i] + more);
    }
  }

  /** Where an op ends, and what is joined up to there. */
  lemma EndsAt(body: Bytes, maxLen: nat, trim: Bytes -> Bytes, before: Bytes, op: Op) returns (j: nat)
    requires maxLen >= 1 && OpOk(body, maxLen, trim, before, op)
    ensures 0 < j <= |Lines(body)| && j == |Lines(before + Upto(op))| && before + Upto(op) == Join(Lines(body)[..j])
    ensures Upto(op) != []
    ensures op.Packed? ==> |Upto(op)| <= maxLen && (op.newline <==> j < |Lines(body)|)
    ensures op.Packed? && j < |Lines(body)| ==> |Upto(op)| + 1 + |Lines(body)[j]| > maxLen
    ensures op.Hard? ==> |Upto(op)| > maxLen && NL !in Upto(op)[1..]
  {
    var text := before + Upto(op);
    j := |Lines(text)|;
    JoinLines(text);
  }

  /** An op that ends earlier than another from the same place cannot be right as well. */
  lemma NoEarlierEnd(body: Bytes, maxLen: nat, trim: Bytes -> Bytes, before: Bytes, a: Op, b: Op)
    requires maxLen >= 1 && OpOk(body, maxLen, trim, before, a) && OpOk(body, maxLen, trim, before, b)
    ensures |Lines(before + Upto(a))| >= |Lines(before + Upto(b))|
  {
    var i := EndsAt(body, maxLen, trim, before, a);
    var j := EndsAt(body, maxLen, trim, before, b);
    if i < j {
      var more := JoinGoesOn(Lines(body), i, j);
      var gap := [NL] + Lines(body)[i] + more;
      SameTail(before, Upto(a), Upto(b), gap);
      GapShows(Upto(a), Upto(b), gap);
      assert false;
    }
  }

  lemma GapShows(x: Bytes, y: Bytes, gap: Bytes)
    requires x != [] && gap != [] && gap[0] == NL && y == x + gap
    ensures NL in y[1..]
  {
    assert y[1..][|x| - 1] == NL;
  }

  lemma SameTail(before: Bytes, x: Bytes, y: Bytes, gap: Bytes)
    requires before + y == before + x + gap
    ensures y == x + gap
  {
    assert (before + y)[|before|..] == y;
    assert (before + x + gap)[|before|..] == x + gap;
  }

  /** From one place there is one right op. */
  lemma NextOp(body: Bytes, maxLen: nat, trim: Bytes -> Bytes, before: Bytes, a: Op, b: Op)
    requires maxLen >= 1 && OpOk(body, maxLen, trim, before, a) && OpOk(body, maxLen, trim, before, b)
    ensures a == b
  {
    NoEarlierEnd(body, maxLen, trim, before, a, b);
    NoEarlierEnd(body, maxLen, trim, before, b, a);
    var _ := EndsAt(body, maxLen, trim, before, a);
    var _ := EndsAt(body, maxLen, trim, before, b);
    SameTail(before, Upto(a), Upto(b), []);
    assert Upto(a) + [] == Upto(a);
  }

  lemma OpAt(body: Bytes, maxLen: nat, trim: Bytes -> Bytes, p: seq<Op>, k: nat)
    requires PlanOk(body, maxLen, trim, p) && k < |p|
    ensures OpOk(body, maxLen, trim, Covered(p[..k]), p[k])
  {
  }

  lemma OneMore(p: seq<Op>, q: seq<Op>, k: nat)
    requires k < |p| && k < |q| && p[..k] == q[..k] && p[k] == q[k]
    ensures p[..k + 1] == q[..k + 1]
  {
    assert p[..k + 1] == p[..k] + [p[k]] && q[..k + 1] == q[..k] + [q[k]];
  }

  lemma {:induction false} PlansAgree(body: Bytes, maxLen: nat, trim: Bytes -> Bytes, p: seq<Op>, q: seq<Op>, k: nat)
    requires maxLen >= 1 && PlanOk(body, maxLen, trim, p) && PlanOk(body, maxLen, trim, q)
    requires k <= |p| && k <= |q|
    ensures p[..k] == q[..k]
  {
    if k > 0 {
      PlansAgree(body, maxLen, trim, p, q, k - 1);
      OpAt(body, maxLen, trim, p, k - 1);
      OpAt(body, maxLen, trim, q, k - 1);
      NextOp(body, maxLen, trim, Covered(p[..k - 1]), p[k - 1], q[k - 1]);
      OneMore(p, q, k - 1);
    }
  }

  lemma OpCovers(body: Bytes, maxLen: nat, trim: Bytes -> Bytes, before: Bytes, op: Op)
    requires maxLen >= 1 && OpOk(body, maxLen, trim, before, op)
    ensures OpText(op) != []
  {
    var _ := EndsAt(body, maxLen, trim, before, op);
  }

  lemma CoveredNext(p: seq<Op>, k: nat)
    requires k < |p|
    ensures Covered(p[..k + 1]) == Covered(p[..k]) + OpText(p[k])
  {
    assert p[..k + 1][..k] == p[..k];
  }

  ghost predicate Covering(p: seq<Op>) {
    forall k :: 0 <= k < |p| ==> OpText(p[k]) != []
  }

  /** Every op of a right plan covers something. */
  lemma PlanCovers(body: Bytes, maxLen: nat, trim: Bytes -> Bytes, p: seq<Op>)
    requires maxLen >= 1 && PlanOk(body, maxLen, trim, p)
    ensures Covering(p)
  {
    forall k | 0 <= k < |p| ensures OpText(p[k]) != [] {
      OpAt(body, maxLen, trim, p, k);
      OpCovers(body, maxLen, trim, Covered(p[..k]), p[k]);
    }
  }

  lemma CoveredGrows(p: seq<Op>, k: nat)
    requires Covering(p) && k < |p|
    ensures |Covered(p[..k + 1])| > |Covered(p[..k])|
  {
    CoveredNext(p, k);
  }

  lemma {:induction false} CoveredUpto(p: seq<Op>, i: nat, j: nat)
    requires Covering(p) && i <= j <= |p|
    ensures |Covered(p[..j])| >= |Covered(p[..i])| + (j - i)
    decreases j
  {
    if i < j {
      var k := j - 1;
      CoveredUpto(p, i, k);
      CoveredGrows(p, k);
    }
  }

  /**
   The plan of a body is unique: with a cap there is only one way to cover the
   body with ops that are right where they stand, and so only one list of chunks
   that Split may return.
   */
  lemma PlanUnique(body: Bytes, maxLen: nat, trim: Bytes -> Bytes, p: seq<Op>, q: seq<Op>)
    requires maxLen >= 1 && PlanOk(body, maxLen, trim, p) && PlanOk(body, maxLen, trim, q)
    requires Covered(p) == body && Covered(q) == body
    ensures p == q && Rendered(p, maxLen) == Rendered(q, maxLen)
  {
    var k := if |p| <= |q| then |p| else |q|;
    PlansAgree(body, maxLen, trim, p, q, k);
    PlanCovers(body, maxLen, trim, p);
    PlanCovers(body, maxLen, trim, q);
    CoveredUpto(p, k, |p|);
    CoveredUpto(q, k, |q|);
    assert p[..|p|] == p && q[..|q|] == q;
  }
}
