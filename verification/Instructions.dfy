/**
 The operator's block in AGENTS.md (internal/memory/instructions.go): extracting
 and replacing the text between two markers. A char stands for a byte here; the
 markers and the newline are ASCII.
 */
module Instructions {
  const START := "<!-- espur:user-instructions:start -->"
  const END := "<!-- espur:user-instructions:end -->"

  predicate OccursAt(s: string, sub: string, i: int) {
    0 <= i <= |s| - |sub| && s[i..i + |sub|] == sub
  }

  predicate Contains(s: string, sub: string) {
    exists i :: 0 <= i <= |s| && OccursAt(s, sub, i)
  }

  /** strings.Index: the first occurrence at or after from, or -1. */
  function IndexFrom(s: string, sub: string, from: nat): (r: int)
    requires from <= |s|
    ensures r == -1 || (from <= r && OccursAt(s, sub, r))
    ensures forall i :: from <= i && (r == -1 || i < r) ==> !OccursAt(s, sub, i)
    decreases |s| - from
  {
    if OccursAt(s, sub, from) then from
    else if from == |s| then -1
    else IndexFrom(s, sub, from + 1)
  }

  function TrimLeft(s: string): string {
    if s != [] && s[0] == '\n' then TrimLeft(s[1..]) else s
  }

  function TrimRight(s: string): string {
    if s != [] && s[|s| - 1] == '\n' then TrimRight(s[..|s| - 1]) else s
  }

  /** strings.Trim(s, "\n"). */
  function Trim(s: string): string {
    TrimRight(TrimLeft(s))
  }

  function Extract(agents: string): string {
    var i := IndexFrom(agents, START, 0);
    if i < 0 then ""
    else
      var rest := agents[i + |START|..];
      var j := IndexFrom(rest, END, 0);
      if j < 0 then "" else Trim(rest[..j])
  }

  function Block(body: string): string {
    START + "\n" + Trim(body) + "\n" + END
  }

  function Replace(agents: string, body: string): string {
    var i := IndexFrom(agents, START, 0);
    if i < 0 then
      (if agents != [] && agents[|agents| - 1] == '\n' then agents else agents + "\n") + "\n" + Block(body) + "\n"
    else
      var j := IndexFrom(agents[i..], END, 0);
      if j < 0 then agents[..i] + Block(body) + "\n"
      else agents[..i] + Block(body) + agents[i + j + |END|..]
  }

  // ------------------------------------------------------------------ markers

  /** Neither marker overlaps the other or itself, and neither holds a newline. */
  lemma Markers()
    ensures START[0] == '<' && END[0] == '<'
    ensures forall k :: 0 < k < |START| ==> START[k] != '<'
    ensures forall k :: 0 < k < |END| ==> END[k] != '<'
    ensures '\n' !in START && '\n' !in END
    ensures |START| == 38 && |END| == 36 && START[..|END|] != END
  {
    assert START[29] == 's' && END[29] == 'e';
  }

  /** A marker occurs only where a '<' is. */
  lemma OccursAtBracket(s: string, sub: string, i: int)
    requires (sub == START || sub == END) && OccursAt(s, sub, i)
    ensures s[i] == '<' && forall k :: i < k < i + |sub| ==> s[k] != '<' && s[k] != '\n'
  {
    Markers();
    assert s[i..i + |sub|][0] == s[i];
    forall k | i < k < i + |sub| ensures s[k] != '<' && s[k] != '\n' {
      assert s[i..i + |sub|][k - i] == s[k] == sub[k - i];
      assert sub[k - i] in sub;
    }
  }

  lemma NoBracketNoMarker(s: string, sub: string, i: nat)
    requires (sub == START || sub == END) && i < |s| && s[i] != '<'
    ensures !OccursAt(s, sub, i)
  {
    if OccursAt(s, sub, i) {
      OccursAtBracket(s, sub, i);
      assert false;
    }
  }

  /** The first start marker of a text that had none before it. */
  lemma FirstStart(pre: string, tail: string)
    requires !Contains(pre, START)
    ensures IndexFrom(pre + START + tail, START, 0) == |pre|
  {
    var s := pre + START + tail;
    assert OccursAt(s, START, |pre|);
    forall i | 0 <= i < |pre| ensures !OccursAt(s, START, i) {
      if OccursAt(s, START, i) {
        OccursAtBracket(s, START, i);
        Markers();
        assert s[|pre|] == START[0] == '<';
        assert i + |START| <= |pre|;
        assert s[i..i + |START|] == pre[i..i + |START|];
        assert OccursAt(pre, START, i);
      }
    }
  }

  /** The first end marker after a text that has none. */
  lemma FirstEnd(mid: string, tail: string)
    requires !Contains(mid, END)
    ensures IndexFrom(mid + END + tail, END, 0) == |mid|
  {
    var s := mid + END + tail;
    assert OccursAt(s, END, |mid|);
    forall i | 0 <= i < |mid| ensures !OccursAt(s, END, i) {
      if OccursAt(s, END, i) {
        OccursAtBracket(s, END, i);
        Markers();
        assert s[|mid|] == END[0] == '<';
        assert i + |END| <= |mid|;
        assert s[i..i + |END|] == mid[i..i + |END|];
        assert OccursAt(mid, END, i);
      }
    }
  }

  /** No end marker begins inside a start marker. */
  lemma NoEndInStart(rest: string, i: nat)
    requires i < |START|
    ensures !OccursAt(START + rest, END, i)
  {
    Markers();
    var s := START + rest;
    if i == 0 {
      assert s[..|END|] == START[..|END|];
    } else {
      assert s[i] == START[i];
      NoBracketNoMarker(s, END, i);
    }
  }

  lemma OccursShifted(pre: string, rest: string, sub: string, i: nat)
    ensures OccursAt(pre + rest, sub, |pre| + i) <==> OccursAt(rest, sub, i)
  {
    var s := pre + rest;
    if i + |sub| <= |rest| {
      assert s[|pre| + i..|pre| + i + |sub|] == rest[i..i + |sub|];
    }
  }

  /** Searching for the end marker from the start marker on finds the first one after the start marker. */
  lemma EndAfterStart(rest: string)
    ensures IndexFrom(START + rest, END, 0)
         == if IndexFrom(rest, END, 0) < 0 then -1 else |START| + IndexFrom(rest, END, 0)
  {
    var j, k := IndexFrom(START + rest, END, 0), IndexFrom(rest, END, 0);
    if 0 <= j < |START| {
      NoEndInStart(rest, j);
    }
    if j >= |START| {
      OccursShifted(START, rest, END, j - |START|);
    }
    if k >= 0 {
      OccursShifted(START, rest, END, k);
    }
  }

  // ----------------------------------------------------------------- trimming

  lemma {:induction false} TrimLeftKeeps(s: string, i: nat)
    ensures |TrimLeft(s)| <= |s| && TrimLeft(s) == s[|s| - |TrimLeft(s)|..]
    ensures i < |s| - |TrimLeft(s)| ==> s[i] == '\n'
    ensures TrimLeft(s) != [] ==> TrimLeft(s)[0] != '\n'
  {
    if s != [] && s[0] == '\n' {
      TrimLeftKeeps(s[1..], if i > 0 then i - 1 else 0);
    }
  }

  lemma {:induction false} TrimRightKeeps(s: string, i: nat)
    ensures |TrimRight(s)| <= |s| && TrimRight(s) == s[..|TrimRight(s)|]
    ensures |TrimRight(s)| <= i < |s| ==> s[i] == '\n'
    ensures TrimRight(s) != [] ==> TrimRight(s)[|TrimRight(s)| - 1] != '\n'
  {
    if s != [] && s[|s| - 1] == '\n' {
      TrimRightKeeps(s[..|s| - 1], i);
    }
  }

  /** Trimming leaves a middle part of the text, and takes off only newlines. */
  lemma TrimShape(s: string) returns (from: nat)
    ensures from + |Trim(s)| <= |s| && Trim(s) == s[from..from + |Trim(s)|]
    ensures forall i :: 0 <= i < |s| && !(from <= i < from + |Trim(s)|) ==> s[i] == '\n'
    ensures Trim(s) != [] ==> Trim(s)[0] != '\n' && Trim(s)[|Trim(s)| - 1] != '\n'
  {
    TrimLeftKeeps(s, 0);
    var left := TrimLeft(s);
    from := |s| - |left|;
    TrimRightKeeps(left, 0);
    forall i | 0 <= i < |s| && !(from <= i < from + |Trim(s)|) ensures s[i] == '\n' {
      if i < from { TrimLeftKeeps(s, i); } else { TrimRightKeeps(left, i - from); }
    }
  }

  lemma TrimIsFixed(s: string)
    requires s == [] || (s[0] != '\n' && s[|s| - 1] != '\n')
    ensures Trim(s) == s
  {
  }

  lemma TrimTwice(s: string)
    ensures Trim(Trim(s)) == Trim(s)
  {
    var _ := TrimShape(s);
    TrimIsFixed(Trim(s));
  }

  lemma TrimSkips(s: string)
    ensures TrimLeft("\n" + s) == TrimLeft(s) && TrimRight(s + "\n") == TrimRight(s)
  {
    assert ("\n" + s)[1..] == s;
    assert (s + "\n")[..|s|] == s;
  }

  /** Newlines put around a trimmed text come off again. */
  lemma TrimWrapped(s: string)
    requires s == [] || (s[0] != '\n' && s[|s| - 1] != '\n')
    ensures Trim("\n" + s + "\n") == s
  {
    assert "\n" + s + "\n" == "\n" + (s + "\n");
    TrimSkips(s + "\n");
    TrimSkips(s);
    if s == [] {
      assert s + "\n" == "\n" + s;
    }
  }

  lemma OccursInSlice(s: string, sub: string, lo: nat, hi: nat, i: nat)
    requires lo <= i && i + |sub| <= hi <= |s|
    ensures OccursAt(s, sub, i) <==> OccursAt(s[lo..hi], sub, i - lo)
  {
    var from, slice, part := i - lo, s[lo..hi], s[i..i + |sub|];
    var other := slice[from..from + |sub|];
    assert |other| == |part|;
    forall k | 0 <= k < |sub| ensures other[k] == part[k] {
      assert other[k] == slice[from + k] == s[i + k] == part[k];
    }
    assert other == part;
  }

  /** An occurrence of a marker has no newline in it, so it lies within what newlines surround. */
  lemma MarkerWithin(s: string, sub: string, lo: nat, hi: nat, i: nat)
    requires sub == START || sub == END
    requires lo <= hi <= |s| && forall i :: 0 <= i < |s| && !(lo <= i < hi) ==> s[i] == '\n'
    requires OccursAt(s, sub, i)
    ensures lo <= i && i + |sub| <= hi
  {
    OccursAtBracket(s, sub, i);
    Markers();
    assert s[i + |sub| - 1] != '\n';
  }

  /** Newlines around a text neither add nor remove a marker. */
  lemma ContainsInside(s: string, sub: string, lo: nat, hi: nat)
    requires sub == START || sub == END
    requires lo <= hi <= |s| && forall i :: 0 <= i < |s| && !(lo <= i < hi) ==> s[i] == '\n'
    ensures Contains(s[lo..hi], sub) <==> Contains(s, sub)
  {
    if i :| 0 <= i <= hi - lo && OccursAt(s[lo..hi], sub, i) {
      OccursInSlice(s, sub, lo, hi, lo + i);
    }
    if i :| 0 <= i <= |s| && OccursAt(s, sub, i) {
      MarkerWithin(s, sub, lo, hi, i);
      OccursInSlice(s, sub, lo, hi, i);
    }
  }

  lemma TrimContains(s: string)
    ensures Contains(Trim(s), END) <==> Contains(s, END)
    ensures Contains("\n" + Trim(s) + "\n", END) <==> Contains(s, END)
  {
    var from := TrimShape(s);
    var t := Trim(s);
    var w := "\n" + t + "\n";
    ContainsInside(s, END, from, from + |t|);
    ContainsInside(w, END, 1, 1 + |t|);
    assert w[1..1 + |t|] == t;
  }

  // ------------------------------------------------------------- the layouts

  /** The three layouts of the file: no start marker, a start marker without an end, and a marked block. */
  datatype Layout =
    | Legacy(text: string)
    | Corrupt(pre: string, rest: string)
    | Marked(pre: string, mid: string, post: string)

  function Render(l: Layout): string {
    match l
    case Legacy(text) => text
    case Corrupt(pre, rest) => pre + START + rest
    case Marked(pre, mid, post) => pre + START + mid + END + post
  }

  lemma Cut(a: string, sub: string, i: nat)
    requires OccursAt(a, sub, i)
    ensures a == a[..i] + (sub + a[i + |sub|..])
  {
  }

  lemma Regroup(pre: string, s: string, mid: string, e: string, post: string)
    ensures pre + s + mid + e + post == pre + s + (mid + e + post)
    ensures pre + s + mid + e + post == pre + (s + (mid + (e + post)))
  {
  }

  lemma Regroup2(pre: string, s: string, mid: string, e: string, post: string)
    ensures pre + (s + (mid + e)) + post == pre + s + mid + e + post
  {
  }

  lemma Regroup3(x: string, e: string, post: string)
    ensures x + e + post == x + (e + post)
  {
  }

  lemma Pieces(pre: string, s: string, rest: string)
    ensures var a := pre + s + rest; a[..|pre|] == pre && a[|pre|..] == s + rest && a[|pre| + |s|..] == rest
  {
  }

  /** The first start marker opens the block, and the first end marker after it closes it. */
  predicate Proper(l: Layout) {
    match l
    case Legacy(text) => !Contains(text, START)
    case Corrupt(pre, rest) => !Contains(pre, START) && !Contains(rest, END)
    case Marked(pre, mid, _) => !Contains(pre, START) && !Contains(mid, END)
  }

  /** The layout of a file with a first start marker, by what comes before and after that marker. */
  function ParseRest(pre: string, rest: string): Layout {
    var j := IndexFrom(rest, END, 0);
    if j < 0 then Corrupt(pre, rest) else Marked(pre, rest[..j], rest[j + |END|..])
  }

  function Parse(a: string): Layout {
    var i := IndexFrom(a, START, 0);
    if i < 0 then Legacy(a) else ParseRest(a[..i], a[i + |START|..])
  }

  lemma NoneBefore(s: string, sub: string)
    ensures var i := IndexFrom(s, sub, 0); !Contains(if i < 0 then s else s[..i], sub) || sub == []
  {
    var i := IndexFrom(s, sub, 0);
    var head := if i < 0 then s else s[..i];
    forall k | 0 <= k <= |head| && sub != [] ensures !OccursAt(head, sub, k) {
      if k + |sub| <= |head| {
        if i >= 0 { OccursInSlice(s, sub, 0, i, k); }
        assert !OccursAt(s, sub, k);
      }
    }
  }

  lemma MarkedRenders(pre: string, rest: string, j: nat)
    requires OccursAt(rest, END, j)
    ensures Render(Marked(pre, rest[..j], rest[j + |END|..])) == pre + START + rest
  {
    Cut(rest, END, j);
    Regroup(pre, START, rest[..j], END, rest[j + |END|..]);
    Regroup3(rest[..j], END, rest[j + |END|..]);
  }

  lemma RestRenders(pre: string, rest: string)
    requires !Contains(pre, START)
    ensures Render(ParseRest(pre, rest)) == pre + START + rest && Proper(ParseRest(pre, rest))
  {
    NoneBefore(rest, END);
    var j := IndexFrom(rest, END, 0);
    if j >= 0 {
      MarkedRenders(pre, rest, j);
    }
  }

  /** Every file is the rendering of exactly one proper layout. */
  lemma ParseRenders(a: string)
    ensures Render(Parse(a)) == a && Proper(Parse(a))
  {
    NoneBefore(a, START);
    var i := IndexFrom(a, START, 0);
    if i >= 0 {
      var rest := a[i + |START|..];
      Cut(a, START, i);
      Regroup3(a[..i], START, rest);
      RestRenders(a[..i], rest);
    }
  }

  lemma NoOccurrence(s: string, sub: string)
    ensures IndexFrom(s, sub, 0) < 0 <==> !Contains(s, sub)
  {
    if IndexFrom(s, sub, 0) >= 0 {
      assert OccursAt(s, sub, IndexFrom(s, sub, 0));
    }
  }

  lemma RenderParses(l: Layout)
    requires Proper(l)
    ensures Parse(Render(l)) == l
  {
    match l
    case Legacy(text) =>
      NoOccurrence(text, START);
    case Corrupt(pre, rest) =>
      FirstStart(pre, rest);
      Pieces(pre, START, rest);
      NoOccurrence(rest, END);
    case Marked(pre, mid, post) =>
      var rest := mid + END + post;
      Regroup(pre, START, mid, END, post);
      FirstStart(pre, rest);
      Pieces(pre, START, rest);
      FirstEnd(mid, post);
      Pieces(mid, END, post);
  }

  /** The text an operator sees in each layout. */
  lemma ExtractByLayout(l: Layout)
    requires Proper(l)
    ensures Extract(Render(l)) == if l.Marked? then Trim(l.mid) else ""
  {
    RenderParses(l);
  }

  /** The layout after saving b: everything outside the block is kept byte for byte. */
  function Saved(l: Layout, b: string): Layout {
    var mid := "\n" + Trim(b) + "\n";
    match l
    case Legacy(text) =>
      Marked(text + (if text != [] && text[|text| - 1] == '\n' then "\n" else "\n\n"), mid, "\n")
    case Corrupt(pre, _) => Marked(pre, mid, "\n")
    case Marked(pre, _, post) => Marked(pre, mid, post)
  }

  lemma BlockParts(b: string)
    ensures Block(b) == START + (("\n" + Trim(b) + "\n") + END)
  {
    Regroup([], START, "\n", Trim(b), "\n" + END);
  }

  lemma LegacySaved(text: string, mid: string, nl: bool)
    ensures (if nl then text else text + "\n") + "\n" + (START + (mid + END)) + "\n"
         == (text + (if nl then "\n" else "\n\n")) + START + mid + END + "\n"
  {
    assert "\n" + "\n" == "\n\n";
    Regroup3(text, "\n", "\n");
    Regroup2(text + (if nl then "\n" else "\n\n"), START, mid, END, "\n");
  }

  lemma MarkedEnds(pre: string, mid: string, post: string)
    requires Proper(Marked(pre, mid, post))
    ensures var a := Render(Marked(pre, mid, post));
            && IndexFrom(a, START, 0) == |pre| && a[..|pre|] == pre
            && IndexFrom(a[|pre|..], END, 0) == |START| + |mid|
            && a[|pre| + (|START| + |mid|) + |END|..] == post
  {
    var rest := mid + END + post;
    Regroup(pre, START, mid, END, post);
    FirstStart(pre, rest);
    Pieces(pre, START, rest);
    FirstEnd(mid, post);
    EndAfterStart(rest);
    Pieces(pre + START + mid, END, post);
  }

  lemma ReplaceByLayout(l: Layout, b: string)
    requires Proper(l)
    ensures Replace(Render(l), b) == Render(Saved(l, b))
  {
    var mid := "\n" + Trim(b) + "\n";
    BlockParts(b);
    match l
    case Legacy(text) =>
      NoOccurrence(text, START);
      LegacySaved(text, mid, text != [] && text[|text| - 1] == '\n');
    case Corrupt(pre, rest) =>
      FirstStart(pre, rest);
      Pieces(pre, START, rest);
      NoOccurrence(rest, END);
      EndAfterStart(rest);
      Regroup2(pre, START, mid, END, "\n");
    case Marked(pre, was, post) =>
      MarkedEnds(pre, was, post);
      Regroup2(pre, START, mid, END, post);
  }

  /**
   Where the block goes, byte for byte: between what stood before the start marker
   and after the end marker; over everything after a start marker that has no end;
   and otherwise after the whole file and an empty line.
   */
  lemma SavesInPlace(pre: string, mid: string, post: string, b: string)
    requires !Contains(pre, START) && !Contains(mid, END)
    ensures var block := "\n" + Trim(b) + "\n";
            && Replace(pre + START + mid + END + post, b) == pre + START + block + END + post
            && Replace(pre + START + mid, b) == pre + START + block + END + "\n"
            && Replace(pre, b) == pre + (if pre != [] && pre[|pre| - 1] == '\n' then "\n" else "\n\n") + START + block + END + "\n"
  {
    ReplaceByLayout(Marked(pre, mid, post), b);
    ReplaceByLayout(Corrupt(pre, mid), b);
    ReplaceByLayout(Legacy(pre), b);
  }

  lemma SavedIsProper(l: Layout, b: string)
    requires Proper(l)
    ensures Proper(Saved(l, b)) <==> !Contains(b, END)
    ensures !Contains(Saved(l, b).pre, START)
  {
    TrimContains(b);
    if l.Legacy? {
      var pre := Saved(l, b).pre;
      ContainsInside(pre, START, 0, |l.text|);
      assert pre[..|l.text|] == l.text;
    }
  }

  // --------------------------------------------------------------- lens laws

  /** A block whose text t holds an end marker at k, as a later search reads it: the block ends there. */
  function CutShort(pre: string, t: string, k: nat, post: string): Layout
    requires OccursAt(t, END, k)
  {
    Marked(pre, "\n" + t[..k], t[k + |END|..] + "\n" + END + post)
  }

  lemma CutShortIsProper(pre: string, t: string, k: nat, post: string)
    requires !Contains(pre, START) && Contains(t, END) && k == IndexFrom(t, END, 0)
    ensures Proper(CutShort(pre, t, k, post))
  {
    NoneBefore(t, END);
    NoEndAfterNewline(t[..k]);
  }

  lemma NoEndAfterNewline(x: string)
    ensures Contains("\n" + x, END) <==> Contains(x, END)
  {
    var mid := "\n" + x;
    ContainsInside(mid, END, 1, |mid|);
    assert mid[1..|mid|] == x;
  }

  lemma CutShortIsSame(pre: string, t: string, k: nat, post: string)
    requires OccursAt(t, END, k)
    ensures Render(CutShort(pre, t, k, post)) == Render(Marked(pre, "\n" + t + "\n", post))
  {
    Cut(t, END, k);
    SameText(pre, START, t[..k], END, t[k + |END|..], post);
  }

  /** What a file reads as once b, which holds an end marker, has been saved. */
  lemma SavedWithEnd(l: Layout, b: string) returns (k: nat)
    requires Proper(l) && Contains(b, END)
    ensures OccursAt(Trim(b), END, k)
    ensures Parse(Render(Saved(l, b))) == CutShort(Saved(l, b).pre, Trim(b), k, Saved(l, b).post)
  {
    SavedIsProper(l, b);
    TrimContains(b);
    var t := Trim(b);
    NoOccurrence(t, END);
    k := IndexFrom(t, END, 0);
    var s := Saved(l, b);
    CutShortIsProper(s.pre, t, k, s.post);
    CutShortIsSame(s.pre, t, k, s.post);
    RenderParses(CutShort(s.pre, t, k, s.post));
  }

  lemma SameText(pre: string, s: string, x: string, e: string, y: string, post: string)
    ensures pre + s + ("\n" + (x + (e + y)) + "\n") + e + post == pre + s + ("\n" + x) + e + (y + "\n" + e + post)
  {
  }

  /** What is saved is what is read, trimmed, exactly when it holds no end marker. */
  lemma ReadsWhatWasSaved(a: string, b: string)
    ensures Extract(Replace(a, b)) == Trim(b) <==> !Contains(b, END)
  {
    var l := Parse(a);
    ParseRenders(a);
    ReplaceByLayout(l, b);
    SavedIsProper(l, b);
    var s := Saved(l, b);
    if Contains(b, END) {
      var k := SavedWithEnd(l, b);
      TrimSkips(Trim(b)[..k]);
      var x := Trim(b)[..k];
      TrimLeftKeeps(x, 0);
      TrimRightKeeps(TrimLeft(x), 0);
    } else {
      ExtractByLayout(s);
      var _ := TrimShape(b);
      TrimWrapped(Trim(b));
    }
  }

  /** A second save overwrites the first, exactly when the first held no end marker. */
  lemma LastSaveWins(a: string, b: string, c: string)
    ensures Replace(Replace(a, b), c) == Replace(a, c) <==> !Contains(b, END)
  {
    var l := Parse(a);
    ParseRenders(a);
    ReplaceByLayout(l, b);
    ReplaceByLayout(l, c);
    SavedIsProper(l, b);
    var s := Saved(l, b);
    if Contains(b, END) {
      var k := SavedWithEnd(l, b);
      var l' := Parse(Render(s));
      ParseRenders(Render(s));
      ReplaceByLayout(l', c);
      assert |Render(Saved(l', c))| > |Render(Saved(l, c))|;
    } else {
      ReplaceByLayout(s, c);
    }
  }

  /** A block that holds its text between exactly one newline on each side. */
  predicate Framed(mid: string) {
    && |mid| >= 2 && mid[0] == '\n' && mid[|mid| - 1] == '\n'
    && (|mid| == 2 || (mid[1] != '\n' && mid[|mid| - 2] != '\n'))
  }

  lemma FramedIsFixed(mid: string)
    ensures Framed(mid) <==> mid == "\n" + Trim(mid) + "\n"
  {
    var _ := TrimShape(mid);
    if Framed(mid) {
      var s := mid[1..|mid| - 1];
      assert mid == "\n" + s + "\n";
      TrimWrapped(s);
    }
  }

  lemma SameMid(pre: string, s: string, x: string, y: string, tail: string)
    ensures pre + s + x + tail == pre + s + y + tail <==> x == y
  {
    var a, b := pre + s + x + tail, pre + s + y + tail;
    if a == b {
      assert a[|pre + s|..|a| - |tail|] == x && b[|pre + s|..|b| - |tail|] == y;
    }
  }

  /** Saving what was read leaves the file alone exactly when its block is there and framed. */
  lemma ResaveUnchanged(a: string)
    ensures Replace(a, Extract(a)) == a <==> Parse(a).Marked? && Framed(Parse(a).mid)
  {
    var l := Parse(a);
    ParseRenders(a);
    ExtractByLayout(l);
    ReplaceByLayout(l, Extract(a));
    var s := Saved(l, Extract(a));
    match l
    case Legacy(text) =>
      assert |Render(s)| > |text|;
    case Corrupt(pre, rest) =>
      assert Trim("") == "";
      SavedIsProper(l, "");
      NoOccurrence("", END);
      RenderParses(s);
    case Marked(pre, mid, post) =>
      TrimTwice(mid);
      FramedIsFixed(mid);
      MarkedSame(pre, "\n" + Trim(mid) + "\n", mid, post);
  }

  lemma MarkedSame(pre: string, x: string, y: string, post: string)
    ensures Render(Marked(pre, x, post)) == Render(Marked(pre, y, post)) <==> x == y
  {
    SameMid(pre, START, x, y, END + post);
    Regroup3(pre + START + x, END, post);
    Regroup3(pre + START + y, END, post);
  }

  /** Once a text without an end marker has been saved, saving what is read changes nothing. */
  lemma ResaveAfterSave(a: string, b: string)
    requires !Contains(b, END)
    ensures var r := Replace(a, b); Replace(r, Extract(r)) == r
  {
    ReadsWhatWasSaved(a, b);
    LastSaveWins(a, b, Trim(b));
    TrimTwice(b);
  }

  /** The seed's own empty block is not framed: its first save, even of nothing, adds a newline. */
  lemma FreshSeed(head: string)
    requires !Contains(head, START)
    ensures var seed := head + START + "\n" + END + "\n";
            Extract(seed) == "" && Replace(seed, "") == head + START + "\n\n" + END + "\n" != seed
  {
    var l := Marked(head, "\n", "\n");
    ContainsInside("\n", END, 0, 0);
    assert !Contains("", END);
    assert "\n"[0..0] == "";
    RenderParses(l);
    ExtractByLayout(l);
    ReplaceByLayout(l, "");
    TrimSkips("");
    assert "\n" + "" == "\n";
    assert Trim("") == "";
    assert "\n" + "" + "\n" == "\n\n";
  }

  /** A text that holds the end marker: it does not read back, and a second save does not overwrite it. */
  lemma EndMarkerExample()
    ensures Trim(END) == END && Extract(Replace("", END)) != END
    ensures Replace(Replace("", END), "") != Replace("", "")
  {
    assert END[|END| - 1] == '>' && END[0] == '<';
    TrimIsFixed(END);
    assert OccursAt(END, END, 0);
    ReadsWhatWasSaved("", END);
    LastSaveWins("", END, "");
  }
}
