/**
 The text chunker (internal/adapter/textchunk/chunk.go). Bodies are byte strings,
 as len and slicing treat them there. strings.TrimSpace, used only to recognise
 fence lines, is a parameter: everything below holds whatever it returns.
 */
module TextChunk {
  newtype byte = i: int | 0 <= i < 256

  type Bytes = seq<byte>

  const NL: byte := 10
  const SP: byte := 32
  const TICK: byte := 96
  const FENCE: Bytes := [TICK, TICK, TICK]
  const CLOSER: Bytes := [NL, TICK, TICK, TICK]

  // -------------------------------------------------------------------- lines

  /** strings.Split(b, "\n"). */
  function Lines(b: Bytes): (ls: seq<Bytes>)
    ensures |ls| >= 1
  {
    if b == [] then [[]]
    else
      var front := Lines(b[..|b| - 1]);
      if b[|b| - 1] == NL then front + [[]]
      else front[|front| - 1 := front[|front| - 1] + [b[|b| - 1]]]
  }

  function Join(ls: seq<Bytes>): Bytes
    requires ls != []
  {
    if |ls| == 1 then ls[0] else Join(ls[..|ls| - 1]) + [NL] + ls[|ls| - 1]
  }

  /** Splitting into lines and joining them again gives the text back, and no line holds a newline. */
  lemma {:induction false} JoinLines(b: Bytes)
    ensures Join(Lines(b)) == b
    ensures forall i :: 0 <= i < |Lines(b)| ==> NL !in Lines(b)[i]
  {
    if b != [] {
      var front, ls := Lines(b[..|b| - 1]), Lines(b);
      JoinLines(b[..|b| - 1]);
      if b[|b| - 1] == NL {
        assert ls[..|front|] == front;
      } else {
        assert ls[..|front| - 1] == front[..|front| - 1];
        if |front| > 1 {
          assert Join(front) + [b[|b| - 1]] == Join(front[..|front| - 1]) + [NL] + (front[|front| - 1] + [b[|b| - 1]]);
        }
      }
    }
  }

  /** The lines of a text up to the end of one of its lines are the lines up to there. */
  lemma {:induction false} LinesJoin(ls: seq<Bytes>)
    requires ls != [] && forall i :: 0 <= i < |ls| ==> NL !in ls[i]
    ensures Lines(Join(ls)) == ls
  {
    var front, last := ls[..|ls| - 1], ls[|ls| - 1];
    if |ls| == 1 {
      LinesAppend([], last);
      assert [] + last == last;
      assert ls == [last];
      assert [[]][0 := [] + last] == [last];
    } else {
      LinesJoin(front);
      var base := Join(front) + [NL];
      assert base[..|base| - 1] == Join(front);
      assert Lines(base) == front + [[]];
      LinesAppend(base, last);
      assert [] + last == last;
      assert (front + [[]])[|front| := [] + last] == ls;
      assert base + last == Join(ls);
    }
  }

  /** Bytes without a newline go to the last line. */
  lemma {:induction false} LinesAppend(b: Bytes, tail: Bytes)
    requires NL !in tail
    ensures var ls := Lines(b); Lines(b + tail) == ls[|ls| - 1 := ls[|ls| - 1] + tail]
  {
    var ls := Lines(b);
    if tail == [] {
      assert b + tail == b;
      assert ls[|ls| - 1] + tail == ls[|ls| - 1];
    } else {
      var front, last := tail[..|tail| - 1], tail[|tail| - 1];
      LinesAppend(b, front);
      assert (b + tail)[..|b + tail| - 1] == b + front;
      assert last in tail;
      assert ls[|ls| - 1] + front + [last] == ls[|ls| - 1] + tail;
    }
  }

  // -------------------------------------------------------------------- fences

  datatype Fence = Fence(open: bool, tag: Bytes)

  function FenceStep(f: Fence, line: Bytes, trim: Bytes -> Bytes): Fence {
    var trimmed := trim(line);
    if !(FENCE <= trimmed) then f
    else if !f.open then Fence(true, trimmed)
    else if trimmed == FENCE || trimmed == f.tag then f.(open := false)
    else f
  }

  /** The fence state after some lines. */
  function FenceAfter(ls: seq<Bytes>, trim: Bytes -> Bytes): Fence {
    if ls == [] then Fence(false, []) else FenceStep(FenceAfter(ls[..|ls| - 1], trim), ls[|ls| - 1], trim)
  }

  // ---------------------------------------------------------------- hard splits

  /** strings.LastIndex(s, " "). */
  function LastSpace(s: Bytes): (r: int)
    ensures -1 <= r < |s|
    ensures r >= 0 ==> s[r] == SP
    ensures forall i :: r < i < |s| ==> s[i] != SP
  {
    if s == [] then -1 else if s[|s| - 1] == SP then |s| - 1 else LastSpace(s[..|s| - 1])
  }

  /** A piece of a hard split, and whether a space after it was dropped. */
  datatype Piece = Piece(text: Bytes, spaceDropped: bool)

  function Cut(s: Bytes, maxLen: nat): (cut: nat)
    requires |s| > maxLen >= 1
    ensures cut <= maxLen
    ensures cut == maxLen || (s[cut] == SP && cut >= maxLen / 2)
  {
    var at := LastSpace(s[..maxLen]);
    if at < maxLen / 2 then maxLen else at
  }

  /** Where the text goes on after the first piece: past the cut, and past one space there. */
  function Resume(s: Bytes, maxLen: nat): (at: nat)
    requires |s| > maxLen >= 1
    ensures 0 < at <= |s|
  {
    var cut := Cut(s, maxLen);
    if s[cut] == SP then cut + 1 else cut
  }

  function FirstPiece(s: Bytes, maxLen: nat): Piece
    requires |s| > maxLen >= 1
  {
    var cut := Cut(s, maxLen);
    Piece(s[..cut], s[cut] == SP)
  }

  function HardPieces(s: Bytes, maxLen: nat): seq<Piece>
    requires maxLen >= 1
    decreases |s|
  {
    if |s| <= maxLen then
      if s == [] then [] else [Piece(s, false)]
    else
      [FirstPiece(s, maxLen)] + HardPieces(s[Resume(s, maxLen)..], maxLen)
  }

  function Texts(ps: seq<Piece>): seq<Bytes> {
    if ps == [] then [] else [ps[0].text] + Texts(ps[1..])
  }

  function Restored(ps: seq<Piece>): Bytes {
    if ps == [] then [] else ps[0].text + (if ps[0].spaceDropped then [SP] else []) + Restored(ps[1..])
  }

  lemma HardPiecesUnfold(s: Bytes, maxLen: nat)
    requires |s| > maxLen >= 1
    ensures var ps, rest := HardPieces(s, maxLen), HardPieces(s[Resume(s, maxLen)..], maxLen);
            |ps| == |rest| + 1 && ps[0] == FirstPiece(s, maxLen) && ps[1..] == rest
  {
  }

  lemma FirstPieceRestores(s: Bytes, maxLen: nat)
    requires |s| > maxLen >= 1
    ensures var p := FirstPiece(s, maxLen);
            && p.text + (if p.spaceDropped then [SP] else []) + s[Resume(s, maxLen)..] == s
            && |p.text| <= maxLen
            && (!p.spaceDropped ==> |p.text| == maxLen)
  {
  }

  /**
   A hard split loses only spaces, at most one after each piece; no piece is over
   the cap; and a cut that drops no space is a full piece or the end.
   */
  lemma {:induction false} HardPiecesRestore(s: Bytes, maxLen: nat)
    requires maxLen >= 1
    ensures var ps := HardPieces(s, maxLen);
            && Restored(ps) == s
            && (forall k :: 0 <= k < |ps| ==> |ps[k].text| <= maxLen)
            && (forall k :: 0 <= k < |ps| - 1 && !ps[k].spaceDropped ==> |ps[k].text| == maxLen)
            && (s != [] ==> ps != [])
    decreases |s|
  {
    if |s| > maxLen {
      var ps, rest := HardPieces(s, maxLen), s[Resume(s, maxLen)..];
      HardPiecesRestore(rest, maxLen);
      HardPiecesUnfold(s, maxLen);
      FirstPieceRestores(s, maxLen);
      forall k | 0 < k < |ps| ensures ps[k] == HardPieces(rest, maxLen)[k - 1] { }
    }
  }

  /** Where in the text piece k begins. */
  function PieceStart(ps: seq<Piece>, k: nat): nat
    requires k <= |ps|
  {
    |Restored(ps[..k])|
  }

  /** The text has a space in its second half; half is where that begins. */
  ghost predicate SpaceInHalf(w: Bytes, half: nat) {
    exists i :: half <= i < |w| && w[i] == SP
  }

  /** Byte n is the last space of the text. */
  ghost predicate IsLastSpace(w: Bytes, n: nat) {
    n < |w| && w[n] == SP && forall i :: n < i < |w| ==> w[i] != SP
  }

  /** Piece p is what a hard split cuts off the next maxLen bytes w, with byte c after them. */
  ghost predicate CutsWindow(w: Bytes, c: byte, p: Piece) {
    if SpaceInHalf(w, |w| / 2) then |w| / 2 <= |p.text| && IsLastSpace(w, |p.text|) && p == Piece(w[..|p.text|], true)
    else p == Piece(w, c == SP)
  }

  /**
   Piece p is what a hard split takes at `from`: the rest, if it fits the cap; else,
   if the next maxLen bytes have a space in their second half, what is before the last
   such space, which is dropped; else all of them, and a space right after is dropped.
   */
  ghost predicate CutRight(s: Bytes, maxLen: nat, from: nat, p: Piece)
    requires from <= |s|
  {
    if |s| - from <= maxLen then p == Piece(s[from..], false)
    else CutsWindow(s[from..from + maxLen], s[from + maxLen], p)
  }

  lemma FirstCutRight(s: Bytes, maxLen: nat)
    requires |s| > maxLen >= 1
    ensures CutRight(s, maxLen, 0, FirstPiece(s, maxLen))
  {
    var w, cut := s[..maxLen], Cut(s, maxLen);
    assert s[0..0 + maxLen] == w;
    if SpaceInHalf(w, maxLen / 2) {
      var i :| maxLen / 2 <= i < |w| && w[i] == SP;
      assert LastSpace(w) >= i && cut == LastSpace(w);
      assert w[..cut] == s[..cut] && s[cut] == w[cut];
    } else {
      assert cut == maxLen;
    }
  }

  /** Piece k is cut right where it begins. */
  ghost predicate PieceRight(s: Bytes, maxLen: nat, ps: seq<Piece>, k: nat)
    requires k < |ps|
  {
    PieceStart(ps, k) <= |s| && CutRight(s, maxLen, PieceStart(ps, k), ps[k])
  }

  /** The pieces are cut right, one after the other, and make up the text. */
  ghost predicate PiecesRight(s: Bytes, maxLen: nat, ps: seq<Piece>) {
    Restored(ps) == s && forall k :: 0 <= k < |ps| ==> PieceRight(s, maxLen, ps, k)
  }

  lemma PieceStartShifted(ps: seq<Piece>, k: nat)
    requires 0 < k <= |ps|
    ensures PieceStart(ps, k) == |ps[0].text| + (if ps[0].spaceDropped then 1 else 0) + PieceStart(ps[1..], k - 1)
  {
    assert ps[..k][1..] == ps[1..][..k - 1];
  }

  lemma SameWindow(s: Bytes, rest: Bytes, skip: nat, maxLen: nat, from: nat)
    requires skip <= |s| && rest == s[skip..] && from <= |rest|
    ensures rest[from..] == s[skip + from..]
    ensures |rest| - from > maxLen ==>
              rest[from..from + maxLen] == s[skip + from..skip + from + maxLen] && rest[from + maxLen] == s[skip + from + maxLen]
  {
  }

  lemma CutShifted(s: Bytes, rest: Bytes, skip: nat, maxLen: nat, from: nat, p: Piece)
    requires skip <= |s| && rest == s[skip..] && from <= |rest| && CutRight(rest, maxLen, from, p)
    ensures CutRight(s, maxLen, skip + from, p)
  {
    SameWindow(s, rest, skip, maxLen, from);
  }

  lemma NextPiece(ps: seq<Piece>, tail: seq<Piece>, k: nat, skip: nat)
    requires 0 < k < |ps| && tail == ps[1..] && skip == |ps[0].text| + if ps[0].spaceDropped then 1 else 0
    ensures PieceStart(ps, k) == skip + PieceStart(tail, k - 1) && ps[k] == tail[k - 1]
  {
    PieceStartShifted(ps, k);
  }

  lemma MovedPiece(s: Bytes, maxLen: nat, ps: seq<Piece>, k: nat, at: nat, p: Piece)
    requires k < |ps| && p == ps[k] && at == PieceStart(ps, k) && at <= |s| && CutRight(s, maxLen, at, p)
    ensures PieceRight(s, maxLen, ps, k)
  {
  }

  /** A piece after the first is cut right in the whole text if it is in what follows the first. */
  lemma LaterPieceRight(s: Bytes, rest: Bytes, skip: nat, maxLen: nat, ps: seq<Piece>, tail: seq<Piece>, k: nat)
    requires 0 < k < |ps| && tail == ps[1..] && skip == |ps[0].text| + if ps[0].spaceDropped then 1 else 0
    requires skip <= |s| && rest == s[skip..] && PieceRight(rest, maxLen, tail, k - 1)
    ensures PieceRight(s, maxLen, ps, k)
  {
    var from, p := PieceStart(tail, k - 1), tail[k - 1];
    CutShifted(s, rest, skip, maxLen, from, p);
    NextPiece(ps, tail, k, skip);
    MovedPiece(s, maxLen, ps, k, skip + from, p);
  }

  lemma PiecesGoOn(s: Bytes, skip: nat, maxLen: nat, ps: seq<Piece>)
    requires ps != [] && skip <= |s| && skip == |ps[0].text| + if ps[0].spaceDropped then 1 else 0
    requires Restored(ps) == s && CutRight(s, maxLen, 0, ps[0]) && PiecesRight(s[skip..], maxLen, ps[1..])
    ensures PiecesRight(s, maxLen, ps)
  {
    var rest, tail := s[skip..], ps[1..];
    forall k | 0 <= k < |ps| ensures PieceRight(s, maxLen, ps, k) {
      if k > 0 {
        assert PieceRight(rest, maxLen, tail, k - 1);
        LaterPieceRight(s, rest, skip, maxLen, ps, tail, k);
      }
    }
  }

  /** A hard split cuts at word boundaries: in the second half of the cap at the last space there, and only failing that at the cap. */
  lemma {:induction false} HardPiecesCut(s: Bytes, maxLen: nat)
    requires maxLen >= 1
    ensures PiecesRight(s, maxLen, HardPieces(s, maxLen))
    decreases |s|
  {
    HardPiecesRestore(s, maxLen);
    if |s| > maxLen {
      var skip := Resume(s, maxLen);
      HardPiecesCut(s[skip..], maxLen);
      HardPiecesUnfold(s, maxLen);
      FirstCutRight(s, maxLen);
      PiecesGoOn(s, skip, maxLen, HardPieces(s, maxLen));
    } else {
      assert s[0..] == s;
    }
  }

  lemma {:induction false} TextsAt(ps: seq<Piece>)
    ensures |Texts(ps)| == |ps| && forall k :: 0 <= k < |ps| ==> Texts(ps)[k] == ps[k].text
  {
    if ps != [] {
      TextsAt(ps[1..]);
    }
  }

  /** With room for two bytes no piece is empty. */
  lemma {:induction false} HardPiecesNonEmpty(s: Bytes, maxLen: nat)
    requires maxLen >= 2
    ensures forall k :: 0 <= k < |HardPieces(s, maxLen)| ==> HardPieces(s, maxLen)[k].text != []
    decreases |s|
  {
    if |s| > maxLen {
      var ps, rest := HardPieces(s, maxLen), s[Resume(s, maxLen)..];
      HardPiecesNonEmpty(rest, maxLen);
      HardPiecesUnfold(s, maxLen);
      forall k | 0 < k < |ps| ensures ps[k] == HardPieces(rest, maxLen)[k - 1] { }
    }
  }

  /** A space that a one-byte hard split meets at the front of what is left, with more to come. */
  predicate StraySpace(s: Bytes, i: int) {
    0 <= i < |s| - 1 && s[i] == SP && (i == 0 || s[i - 1] == SP)
  }

  /**
   With a cap of one byte a piece can be empty: exactly when the text, not at its
   very end, starts with a space or has two spaces in a row.
   */
  lemma {:induction false} OneByteEmptyPieces(s: Bytes)
    ensures (exists k :: 0 <= k < |HardPieces(s, 1)| && HardPieces(s, 1)[k].text == []) <==> exists i :: StraySpace(s, i)
    decreases |s|
  {
    if |s| > 1 {
      var ps, tail := HardPieces(s, 1), HardPieces(s[Resume(s, 1)..], 1);
      HardPiecesUnfold(s, 1);
      assert s[..1][0] == s[0];
      if s[0] == SP {
        assert StraySpace(s, 0);
        assert ps[0].text == [];
      } else {
        OneByteEmptyPieces(s[Resume(s, 1)..]);
        OneByteStep(s, Resume(s, 1));
        assert ps[0].text == [s[0]];
        forall k | 0 < k < |ps| ensures ps[k] == tail[k - 1] { }
        if k :| 0 <= k < |tail| && tail[k].text == [] {
          assert ps[k + 1].text == [];
        }
      }
    }
  }

  lemma OneByteStep(s: Bytes, skip: nat)
    requires |s| > 1 && s[0] != SP && skip == if s[1] == SP then 2 else 1
    ensures (exists i :: StraySpace(s, i)) <==> exists i :: StraySpace(s[skip..], i)
  {
    if i :| StraySpace(s, i) {
      assert i != 0 && i != 1;
      assert StraySpace(s[skip..], i - skip);
    }
    if i :| StraySpace(s[skip..], i) {
      assert StraySpace(s, i + skip);
    }
  }

  /** Such a text exists: two spaces under a one-byte cap give an empty first piece. */
  lemma EmptyPieceExample()
    ensures HardPieces([SP, SP], 1) == [Piece([], true), Piece([SP], false)]
  {
    assert Cut([SP, SP], 1) == 0 by {
      assert [SP, SP][..1] == [SP];
    }
    assert HardPieces([SP], 1) == [Piece([SP], false)];
  }

  /** The strings are the texts of pieces that are cut right and make up the text. */
  ghost predicate SplitRight(s: Bytes, maxLen: nat, out: seq<Bytes>) {
    exists ps: seq<Piece> :: PiecesRight(s, maxLen, ps) && |out| == |ps| && forall k :: 0 <= k < |ps| ==> out[k] == ps[k].text
  }

  lemma HardSplitRight(s: Bytes, maxLen: nat)
    requires maxLen >= 1
    ensures SplitRight(s, maxLen, Texts(HardPieces(s, maxLen)))
  {
    HardPiecesCut(s, maxLen);
    TextsAt(HardPieces(s, maxLen));
  }

  /** What has been put out and what is left make up the split of s. */
  ghost predicate SplitSoFar(s: Bytes, maxLen: nat, out: seq<Bytes>, rest: Bytes)
    requires maxLen >= 1
  {
    out + Texts(HardPieces(rest, maxLen)) == Texts(HardPieces(s, maxLen))
  }

  /** strings.TrimPrefix(s, " "). */
  function DropSpace(s: Bytes): Bytes {
    if s != [] && s[0] == SP then s[1..] else s
  }

  /** One round of the loop takes the first piece off what is left. */
  lemma HardRound(s: Bytes, maxLen: nat, before: seq<Bytes>, was: Bytes, cut: nat)
    requires |was| > maxLen >= 1 && cut == Cut(was, maxLen) && SplitSoFar(s, maxLen, before, was)
    ensures |DropSpace(was[cut..])| < |was| && SplitSoFar(s, maxLen, before + [was[..cut]], DropSpace(was[cut..]))
  {
    HardPiecesUnfold(was, maxLen);
    var rest := DropSpace(was[cut..]);
    assert rest == was[Resume(was, maxLen)..];
    var tail := Texts(HardPieces(rest, maxLen));
    assert Texts(HardPieces(was, maxLen)) == [was[..cut]] + tail;
  }

  lemma HardEnd(s: Bytes, maxLen: nat, out: seq<Bytes>, rest: Bytes)
    requires maxLen >= 1 && |rest| <= maxLen && SplitSoFar(s, maxLen, out, rest)
    ensures var all := if rest != [] then out + [rest] else out; all == Texts(HardPieces(s, maxLen)) && SplitRight(s, maxLen, all)
  {
    HardSplitRight(s, maxLen);
    assert rest != [] ==> Texts(HardPieces(rest, maxLen)) == [rest] + Texts([]);
  }

  method HardSplit(s: Bytes, maxLen: nat) returns (out: seq<Bytes>)
    requires maxLen >= 1
    ensures out == Texts(HardPieces(s, maxLen)) && SplitRight(s, maxLen, out)
  {
    out := [];
    var rest := s;
    assert SplitSoFar(s, maxLen, out, rest);
    while |rest| > maxLen
      invariant SplitSoFar(s, maxLen, out, rest)
      decreases |rest|
    {
      var cut := LastSpace(rest[..maxLen]);
      if cut < maxLen / 2 {
        cut := maxLen;
      }
      HardRound(s, maxLen, out, rest, cut);
      out := out + [rest[..cut]];
      rest := rest[cut..];
      if rest[0] == SP {
        rest := rest[1..];
      }
    }
    HardEnd(s, maxLen, out, rest);
    if rest != [] {
      out := out + [rest];
    }
  }
}
