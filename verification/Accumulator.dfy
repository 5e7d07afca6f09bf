/**
 The assistant-message accumulator (internal/opencode/invoker.go:301-409) as
 functions on values, and what its state means in terms of the events alone.
 */
module Accumulator {
  import opened Options
  import opened Text

  datatype Part = Part(id: string, messageId: string, kind: string, text: string)

  /** error is None where the raw JSON is absent, blank or null. */
  datatype Info = Info(id: string, role: string, completed: int, error: Option<string>)

  datatype Event =
    | PartUpdated(part: Option<Part>)
    | MessageUpdated(info: Option<Info>)
    | SessionError(error: Option<string>)
    | SessionIdle

  datatype ApiPart = ApiPart(kind: string, text: string)
  datatype ApiMessage = ApiMessage(info: Info, parts: seq<ApiPart>)

  /** The text of a message in the authoritative list. */
  function TextOf(parts: seq<ApiPart>): string {
    if parts == [] then ""
    else TextOf(parts[..|parts| - 1]) + if parts[|parts| - 1].kind == "text" then parts[|parts| - 1].text else ""
  }

  /** The text is made of the texts of the text parts, each in its place; other parts add nothing. */
  lemma {:induction false} TextInPlace(before: seq<ApiPart>, p: ApiPart, after: seq<ApiPart>)
    ensures TextOf([]) == "" && TextOf(before + [p] + after) == TextOf(before) + (if p.kind == "text" then p.text else "") + TextOf(after)
    decreases |after|
  {
    if after == [] {
      assert before + [p] + after == before + [p];
      TextSnoc(before, p);
    } else {
      var front, last := after[..|after| - 1], after[|after| - 1];
      TextInPlace(before, p, front);
      assert before + [p] + after == (before + [p] + front) + [last];
      assert after == front + [last];
      TextSnoc(before + [p] + front, last);
      TextSnoc(front, last);
    }
  }

  lemma TextSnoc(front: seq<ApiPart>, p: ApiPart)
    ensures TextOf(front + [p]) == TextOf(front) + if p.kind == "text" then p.text else ""
  {
    assert (front + [p])[..|front|] == front;
  }

  datatype Acc = Acc(
    parts: map<string, map<string, string>>,
    order: map<string, seq<string>>,
    emitted: set<string>,
    delivered: seq<string>,
    byId: map<string, string>,
    extSeq: nat)

  const EMPTY := Acc(map[], map[], {}, [], map[], 0)

  function OrderOf(a: Acc, mid: string): seq<string> {
    if mid in a.order then a.order[mid] else []
  }

  function PartsOf(a: Acc, mid: string): map<string, string> {
    if mid in a.parts then a.parts[mid] else map[]
  }

  function AddPart(a: Acc, mid: string, pid: string, text: string): Acc {
    a.(parts := a.parts[mid := PartsOf(a, mid)[pid := text]],
       order := if pid in PartsOf(a, mid) then a.order else a.order[mid := OrderOf(a, mid) + [pid]])
  }

  /** The texts of the parts named, in order; a missing part reads as "". */
  function Joined(texts: map<string, string>, pids: seq<string>): string {
    if pids == [] then ""
    else
      var pid := pids[|pids| - 1];
      Joined(texts, pids[..|pids| - 1]) + if pid in texts then texts[pid] else ""
  }

  function Assemble(a: Acc, mid: string): string {
    Joined(PartsOf(a, mid), OrderOf(a, mid))
  }

  function KeyFor(a: Acc, mid: string): string {
    if mid == "" then "__ext_" + Decimal(a.extSeq) else mid
  }

  function EmitText(a: Acc, mid: string, text: string): Acc {
    var key := KeyFor(a, mid);
    var a1 := if mid == "" then a.(extSeq := a.extSeq + 1) else a;
    if key in a1.emitted || Blank(text) then a1 else Record(a1, key, text)
  }

  function Record(a: Acc, key: string, text: string): Acc {
    a.(emitted := a.emitted + {key}, delivered := a.delivered + [key], byId := a.byId[key := text])
  }

  /** The completions that are posted live while the stream is healthy. */
  predicate IsCompletion(ev: Event) {
    && ev.MessageUpdated? && ev.info.Some?
    && ev.info.value.role == "assistant" && ev.info.value.completed > 0 && ev.info.value.id != ""
  }

  predicate IsTextPart(ev: Event) {
    ev.PartUpdated? && ev.part.Some? && ev.part.value.kind == "text" && ev.part.value.messageId != ""
  }

  function Handle(a: Acc, ev: Event, lossy: bool): Acc {
    if IsTextPart(ev) then AddPart(a, ev.part.value.messageId, ev.part.value.id, ev.part.value.text)
    else if IsCompletion(ev) && !lossy then EmitText(a, ev.info.value.id, Assemble(a, ev.info.value.id))
    else a
  }

  /** The error that the event leaves recorded for the turn. */
  function ErrorAfter(err: Option<string>, ev: Event): Option<string> {
    match ev
    case MessageUpdated(Some(info)) => if info.error.Some? then info.error else err
    case SessionError(e) => if e.Some? then e else err
    case _ => err
  }

  /** The event says that something went wrong: the session reports an error, or a message update records one. */
  predicate HasError(ev: Event) {
    || (ev.SessionError? && ev.error.Some?)
    || (ev.MessageUpdated? && ev.info.Some? && ev.info.value.error.Some?)
  }

  function ErrorIn(ev: Event): string
    requires HasError(ev)
  {
    if ev.SessionError? then ev.error.value else ev.info.value.error.value
  }

  /** The delivered texts, in delivery order. */
  function Messages(a: Acc): seq<string> {
    seq(|a.delivered|, i requires 0 <= i < |a.delivered| => if a.delivered[i] in a.byId then a.byId[a.delivered[i]] else "")
  }

  function Deliveries(a: Acc): seq<(string, string)> {
    seq(|a.delivered|, i requires 0 <= i < |a.delivered| =>
      (a.delivered[i], if a.delivered[i] in a.byId then a.byId[a.delivered[i]] else ""))
  }

  // -------------------------------------------------------- delivery bookkeeping

  /** emitted, delivered and byId agree, and no key is delivered twice. */
  ghost predicate Consistent(a: Acc) {
    && (forall k :: k in a.delivered <==> k in a.emitted)
    && a.byId.Keys == a.emitted
    && (forall i, j :: 0 <= i < j < |a.delivered| ==> a.delivered[i] != a.delivered[j])
    && (forall k :: k in a.emitted ==> !Blank(a.byId[k]))
  }

  lemma EmitIsRecord(a: Acc, key: string, text: string)
    requires key != "" && key !in a.emitted && !Blank(text)
    ensures EmitText(a, key, text) == Record(a, key, text)
  {
  }

  lemma RecordConsistent(a: Acc, key: string, text: string)
    requires Consistent(a) && key !in a.emitted && !Blank(text)
    ensures Consistent(Record(a, key, text))
  {
    var b := Record(a, key, text);
    assert b.delivered[|a.delivered|] == key;
    forall i | 0 <= i < |a.delivered| ensures a.delivered[i] != key {
      assert a.delivered[i] in a.delivered;
    }
    forall k ensures k in b.delivered <==> k in b.emitted {
      assert k in b.delivered <==> k in a.delivered || k == key;
    }
  }

  lemma RecordDelivers(a: Acc, key: string, text: string)
    requires Consistent(a) && key !in a.emitted
    ensures Deliveries(Record(a, key, text)) == Deliveries(a) + [(key, text)]
    ensures Messages(Record(a, key, text)) == Messages(a) + [text]
  {
    var b := Record(a, key, text);
    forall i | 0 <= i < |a.delivered| ensures Deliveries(b)[i] == Deliveries(a)[i] && Messages(b)[i] == Messages(a)[i] {
      assert a.delivered[i] in a.delivered;
    }
  }

  /**
   One call of emitText: nothing, or one new message at the end, never a blank
   one and never one whose key was delivered before.
   */
  lemma EmitOnce(a: Acc, mid: string, text: string)
    requires Consistent(a)
    ensures var b := EmitText(a, mid, text);
            && Consistent(b)
            && b.parts == a.parts && b.order == a.order
            && var more := if KeyFor(a, mid) in a.emitted || Blank(text) then [] else [(KeyFor(a, mid), text)];
            && Deliveries(b) == Deliveries(a) + more
            && Messages(b) == Messages(a) + (if more == [] then [] else [text])
            && b.emitted == a.emitted + (if more == [] then {} else {KeyFor(a, mid)})
  {
    var key := KeyFor(a, mid);
    var a1 := if mid == "" then a.(extSeq := a.extSeq + 1) else a;
    assert Deliveries(a1) == Deliveries(a) && Messages(a1) == Messages(a);
    if key !in a.emitted && !Blank(text) {
      RecordConsistent(a1, key, text);
      RecordDelivers(a1, key, text);
    } else {
      assert Deliveries(a1) == Deliveries(a) + [];
      assert Messages(a1) == Messages(a) + [];
    }
  }

  lemma HandleConsistent(a: Acc, ev: Event, lossy: bool)
    requires Consistent(a)
    ensures Consistent(Handle(a, ev, lossy))
  {
    if !IsTextPart(ev) && IsCompletion(ev) && !lossy {
      EmitOnce(a, ev.info.value.id, Assemble(a, ev.info.value.id));
    }
  }

  /** Synthetic keys of different id-less messages differ. */
  lemma SyntheticKeysDiffer(m: nat, n: nat)
    ensures "__ext_" + Decimal(m) == "__ext_" + Decimal(n) ==> m == n
  {
    DecimalReadsBack(m);
    DecimalReadsBack(n);
    var p := "__ext_";
    assert (p + Decimal(m))[|p|..] == Decimal(m);
    assert (p + Decimal(n))[|p|..] == Decimal(n);
  }

  // ------------------------------------------- the meaning of the accumulated text

  /** Event i is the first that carries a text part with its part id for message mid. */
  predicate IsFirst(evs: seq<Event>, mid: string, i: nat)
    requires i < |evs|
  {
    && IsTextPart(evs[i]) && evs[i].part.value.messageId == mid
    && forall j :: 0 <= j < i && IsTextPart(evs[j]) && evs[j].part.value.messageId == mid ==>
         evs[j].part.value.id != evs[i].part.value.id
  }

  /** The text that the last event about part pid among the first n gave it. */
  function LastText(evs: seq<Event>, mid: string, pid: string, n: nat): string
    requires n <= |evs|
  {
    if n == 0 then ""
    else if IsTextPart(evs[n - 1]) && evs[n - 1].part.value.messageId == mid && evs[n - 1].part.value.id == pid
    then evs[n - 1].part.value.text
    else LastText(evs, mid, pid, n - 1)
  }

  /** An event about the part after which there is no other among the first n decides its text. */
  lemma {:induction false} LastTextIsLast(evs: seq<Event>, n: nat, i: nat)
    requires i < n <= |evs| && IsTextPart(evs[i])
    requires forall j :: i < j < n && IsTextPart(evs[j]) ==>
               evs[j].part.value.messageId != evs[i].part.value.messageId || evs[j].part.value.id != evs[i].part.value.id
    ensures LastText(evs, evs[i].part.value.messageId, evs[i].part.value.id, n) == evs[i].part.value.text
  {
    if i < n - 1 {
      LastTextIsLast(evs, n - 1, i);
    }
  }

  /** Over the first k events: each part first seen there, with the last text it got in the first n. */
  function TextUpTo(evs: seq<Event>, mid: string, k: nat, n: nat): string
    requires k <= n <= |evs|
  {
    if k == 0 then ""
    else TextUpTo(evs, mid, k - 1, n) + if IsFirst(evs, mid, k - 1) then LastText(evs, mid, evs[k - 1].part.value.id, n) else ""
  }

  /** The text of message mid after n events: first-seen order, last value of each part. */
  function TextAt(evs: seq<Event>, mid: string, n: nat): string
    requires n <= |evs|
  {
    TextUpTo(evs, mid, n, n)
  }

  /** The part ids first seen in the first n events, in that order. */
  function FirstIds(evs: seq<Event>, mid: string, n: nat): seq<string>
    requires n <= |evs|
  {
    if n == 0 then []
    else FirstIds(evs, mid, n - 1) + if IsFirst(evs, mid, n - 1) then [evs[n - 1].part.value.id] else []
  }

  /** The accumulator's parts and order are those of the first n events. */
  ghost predicate Reflects(a: Acc, evs: seq<Event>, n: nat)
    requires n <= |evs|
  {
    && (forall mid :: OrderOf(a, mid) == FirstIds(evs, mid, n))
    && (forall mid, pid :: PartOk(a, evs, n, mid, pid))
  }

  ghost predicate PartOk(a: Acc, evs: seq<Event>, n: nat, mid: string, pid: string)
    requires n <= |evs|
  {
    && (pid in PartsOf(a, mid) <==> pid in OrderOf(a, mid))
    && (pid in PartsOf(a, mid) ==> PartsOf(a, mid)[pid] == LastText(evs, mid, pid, n))
  }

  lemma {:induction false} SeenIffFirstId(evs: seq<Event>, mid: string, pid: string, n: nat)
    requires n <= |evs|
    ensures pid in FirstIds(evs, mid, n) <==>
              exists j :: 0 <= j < n && IsTextPart(evs[j]) && evs[j].part.value.messageId == mid && evs[j].part.value.id == pid
  {
    if n > 0 {
      SeenIffFirstId(evs, mid, pid, n - 1);
      if IsTextPart(evs[n - 1]) && evs[n - 1].part.value.messageId == mid && evs[n - 1].part.value.id == pid
         && !IsFirst(evs, mid, n - 1) {
        assert exists j :: 0 <= j < n - 1 && IsTextPart(evs[j]) && evs[j].part.value.messageId == mid && evs[j].part.value.id == pid;
      }
    }
  }

  lemma ReflectsHandle(a: Acc, evs: seq<Event>, n: nat, lossy: bool)
    requires n < |evs| && Reflects(a, evs, n)
    ensures Reflects(Handle(a, evs[n], lossy), evs, n + 1)
  {
    if IsTextPart(evs[n]) {
      ReflectsAddPart(a, evs, n);
    } else {
      ReflectsOther(a, Handle(a, evs[n], lossy), evs, n);
    }
  }

  lemma ReflectsOther(a: Acc, b: Acc, evs: seq<Event>, n: nat)
    requires n < |evs| && Reflects(a, evs, n) && !IsTextPart(evs[n]) && b.parts == a.parts && b.order == a.order
    ensures Reflects(b, evs, n + 1)
  {
    var next := n + 1;
    forall mid: string ensures OrderOf(b, mid) == FirstIds(evs, mid, next) {
      assert FirstIds(evs, mid, next) == FirstIds(evs, mid, n) + [];
    }
    forall mid, pid ensures PartOk(b, evs, next, mid, pid) {
      assert PartOk(a, evs, n, mid, pid);
    }
  }

  lemma SeenIffHeld(a: Acc, evs: seq<Event>, n: nat)
    requires n < |evs| && Reflects(a, evs, n) && IsTextPart(evs[n])
    ensures var p := evs[n].part.value; p.id in PartsOf(a, p.messageId) <==> !IsFirst(evs, p.messageId, n)
  {
    var p := evs[n].part.value;
    SeenIffFirstId(evs, p.messageId, p.id, n);
    assert PartOk(a, evs, n, p.messageId, p.id);
  }

  lemma OrderAddPart(a: Acc, b: Acc, evs: seq<Event>, n: nat, mid: string)
    requires n < |evs| && Reflects(a, evs, n) && IsTextPart(evs[n])
    requires var p := evs[n].part.value; b == AddPart(a, p.messageId, p.id, p.text)
    ensures OrderOf(b, mid) == FirstIds(evs, mid, n + 1)
  {
    SeenIffHeld(a, evs, n);
    assert mid != evs[n].part.value.messageId ==> !IsFirst(evs, mid, n);
  }

  lemma PartAddPart(a: Acc, b: Acc, evs: seq<Event>, n: nat, mid: string, pid: string)
    requires n < |evs| && Reflects(a, evs, n) && IsTextPart(evs[n])
    requires var p := evs[n].part.value; b == AddPart(a, p.messageId, p.id, p.text)
    ensures PartOk(b, evs, n + 1, mid, pid)
  {
    assert PartOk(a, evs, n, mid, pid);
    var p := evs[n].part.value;
    assert PartOk(a, evs, n, p.messageId, p.id);
  }

  lemma ReflectsAddPart(a: Acc, evs: seq<Event>, n: nat)
    requires n < |evs| && Reflects(a, evs, n) && IsTextPart(evs[n])
    ensures var p := evs[n].part.value; Reflects(AddPart(a, p.messageId, p.id, p.text), evs, n + 1)
  {
    var p := evs[n].part.value;
    var b := AddPart(a, p.messageId, p.id, p.text);
    var next := n + 1;
    forall mid: string ensures OrderOf(b, mid) == FirstIds(evs, mid, next) {
      OrderAddPart(a, b, evs, n, mid);
    }
    forall mid, pid ensures PartOk(b, evs, next, mid, pid) {
      PartAddPart(a, b, evs, n, mid, pid);
    }
  }

  /** Joining the first-seen ids of the first k events is the reference text. */
  lemma {:induction false} JoinedIsText(a: Acc, evs: seq<Event>, mid: string, k: nat, n: nat)
    requires k <= n <= |evs| && Reflects(a, evs, n)
    ensures Joined(PartsOf(a, mid), FirstIds(evs, mid, k)) == TextUpTo(evs, mid, k, n)
  {
    if k > 0 {
      JoinedIsText(a, evs, mid, k - 1, n);
      var ids := FirstIds(evs, mid, k - 1);
      if IsFirst(evs, mid, k - 1) {
        var pid := evs[k - 1].part.value.id;
        assert FirstIds(evs, mid, k) == ids + [pid];
        assert (ids + [pid])[..|ids|] == ids;
        SeenIffFirstId(evs, mid, pid, n);
        assert PartOk(a, evs, n, mid, pid);
      } else {
        assert FirstIds(evs, mid, k) == ids;
      }
    }
  }

  /** The accumulator after the first n events, with the lossy flag each handling saw. */
  function HandleAll(evs: seq<Event>, lossy: seq<bool>, n: nat): Acc
    requires n <= |evs| && n <= |lossy|
  {
    if n == 0 then EMPTY else Handle(HandleAll(evs, lossy, n - 1), evs[n - 1], lossy[n - 1])
  }

  lemma ReflectsNext(a: Acc, b: Acc, evs: seq<Event>, n: nat, lossy: bool)
    requires n < |evs| && Reflects(a, evs, n) && b == Handle(a, evs[n], lossy)
    ensures Reflects(b, evs, n + 1)
  {
    ReflectsHandle(a, evs, n, lossy);
  }

  lemma EmptyReflects(evs: seq<Event>)
    ensures Reflects(EMPTY, evs, 0)
  {
  }

  lemma HandleAllNext(evs: seq<Event>, lossy: seq<bool>, k: nat)
    requires k < |evs| && k < |lossy|
    ensures HandleAll(evs, lossy, k + 1) == Handle(HandleAll(evs, lossy, k), evs[k], lossy[k])
  {
  }

  lemma {:induction false} HandleAllReflects(evs: seq<Event>, lossy: seq<bool>, n: nat)
    requires n <= |evs| && n <= |lossy|
    ensures Reflects(HandleAll(evs, lossy, n), evs, n)
  {
    if n == 0 {
      EmptyReflects(evs);
    } else {
      var k := n - 1;
      HandleAllReflects(evs, lossy, k);
      HandleAllNext(evs, lossy, k);
      ReflectsNext(HandleAll(evs, lossy, k), HandleAll(evs, lossy, k + 1), evs, k, lossy[k]);
    }
  }

  lemma {:induction false} HandleAllConsistent(evs: seq<Event>, lossy: seq<bool>, n: nat)
    requires n <= |evs| && n <= |lossy|
    ensures Consistent(HandleAll(evs, lossy, n))
  {
    if n > 0 {
      HandleAllConsistent(evs, lossy, n - 1);
      HandleConsistent(HandleAll(evs, lossy, n - 1), evs[n - 1], lossy[n - 1]);
    }
  }

  /**
   Accumulator refinement: after any events, however lossy, assembling a message
   gives each of its parts' last text, in the order the parts were first seen;
   and the delivered ids are duplicate-free and agree with emitted and byId.
   */
  lemma AssembleIsText(evs: seq<Event>, lossy: seq<bool>, n: nat)
    requires n <= |evs| && n <= |lossy|
    ensures Consistent(HandleAll(evs, lossy, n))
    ensures forall mid :: Assemble(HandleAll(evs, lossy, n), mid) == TextAt(evs, mid, n)
  {
    HandleAllReflects(evs, lossy, n);
    HandleAllConsistent(evs, lossy, n);
    AssembleReflects(HandleAll(evs, lossy, n), evs, n);
  }

  lemma AssembleReflects(a: Acc, evs: seq<Event>, n: nat)
    requires n <= |evs| && Reflects(a, evs, n)
    ensures forall mid :: Assemble(a, mid) == TextAt(evs, mid, n)
  {
    forall mid ensures Assemble(a, mid) == TextAt(evs, mid, n) {
      JoinedIsText(a, evs, mid, n, n);
    }
  }

  // ------------------------------------------------------------------ prefixes

  /** Text depends only on the events it is taken over. */
  lemma {:induction false} TextAtPrefix(xs: seq<Event>, ys: seq<Event>, mid: string, n: nat)
    requires n <= |xs| && n <= |ys| && xs[..n] == ys[..n]
    ensures TextAt(xs, mid, n) == TextAt(ys, mid, n)
  {
    assert forall i :: 0 <= i < n ==> xs[i] == xs[..n][i] == ys[..n][i] == ys[i];
    TextUpToPrefix(xs, ys, mid, n, n);
  }

  lemma {:induction false} TextUpToPrefix(xs: seq<Event>, ys: seq<Event>, mid: string, k: nat, n: nat)
    requires k <= n <= |xs| && n <= |ys| && forall i :: 0 <= i < n ==> xs[i] == ys[i]
    ensures TextUpTo(xs, mid, k, n) == TextUpTo(ys, mid, k, n)
  {
    if k > 0 {
      TextUpToPrefix(xs, ys, mid, k - 1, n);
      if IsFirst(xs, mid, k - 1) {
        LastTextPrefix(xs, ys, mid, xs[k - 1].part.value.id, n);
      }
    }
  }

  lemma {:induction false} LastTextPrefix(xs: seq<Event>, ys: seq<Event>, mid: string, pid: string, n: nat)
    requires n <= |xs| && n <= |ys| && forall i :: 0 <= i < n ==> xs[i] == ys[i]
    ensures LastText(xs, mid, pid, n) == LastText(ys, mid, pid, n)
  {
    if n > 0 {
      LastTextPrefix(xs, ys, mid, pid, n - 1);
    }
  }
}
