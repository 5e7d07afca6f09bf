/** The reconcile against the authoritative message list (invoker.go:214-233). */
module Reconcile {
  import opened Options
  import opened Text
  import opened Accumulator

  /** One (id, text) pair per assistant message of the list. */
  function Assistants(list: seq<ApiMessage>): seq<(string, string)> {
    if list == [] then []
    else
      var m := list[|list| - 1];
      Assistants(list[..|list| - 1]) + if m.info.role == "assistant" then [(m.info.id, TextOf(m.parts))] else []
  }

  /** The pairs worth posting. */
  function NonBlank(ps: seq<(string, string)>): seq<(string, string)> {
    if ps == [] then []
    else NonBlank(ps[..|ps| - 1]) + if Blank(ps[|ps| - 1].1) then [] else [ps[|ps| - 1]]
  }

  /** What the turn owes the user: the non-blank assistant messages of the list, in order. */
  function Owed(list: seq<ApiMessage>): seq<(string, string)> {
    NonBlank(Assistants(list))
  }

  /** What one entry of the list is owed for. */
  function OwedFor(m: ApiMessage): seq<(string, string)> {
    if m.info.role == "assistant" && !Blank(TextOf(m.parts)) then [(m.info.id, TextOf(m.parts))] else []
  }

  /** Each entry of the list is owed for in its place: an assistant message whose text is not blank, and no other. */
  lemma {:induction false} OwedInPlace(before: seq<ApiMessage>, m: ApiMessage, after: seq<ApiMessage>)
    ensures Owed([]) == [] && Owed(before + [m] + after) == Owed(before) + OwedFor(m) + Owed(after)
    decreases |after|
  {
    if after == [] {
      assert before + [m] + after == before + [m];
      OwedSnoc(before, m);
    } else {
      var front, last := after[..|after| - 1], after[|after| - 1];
      OwedInPlace(before, m, front);
      assert before + [m] + after == (before + [m] + front) + [last];
      assert after == front + [last];
      OwedSnoc(before + [m] + front, last);
      OwedSnoc(front, last);
    }
  }

  lemma OwedSnoc(front: seq<ApiMessage>, m: ApiMessage)
    ensures Owed(front + [m]) == Owed(front) + OwedFor(m)
  {
    assert (front + [m])[..|front|] == front;
    var ps, last := Assistants(front), (m.info.id, TextOf(m.parts));
    if m.info.role == "assistant" {
      assert (ps + [last])[..|ps|] == ps;
    } else {
      assert ps + [] == ps;
    }
  }

  function ReconcileAll(a: Acc, list: seq<ApiMessage>): Acc {
    if list == [] then a
    else
      var b := ReconcileAll(a, list[..|list| - 1]);
      var m := list[|list| - 1];
      if m.info.role == "assistant" then EmitText(b, m.info.id, TextOf(m.parts)) else b
  }

  /** The first error recorded on an assistant message, if none was recorded before. */
  function ErrorAfterList(err: Option<string>, list: seq<ApiMessage>): Option<string> {
    if list == [] then err
    else
      var e := ErrorAfterList(err, list[..|list| - 1]);
      var m := list[|list| - 1];
      if m.info.role == "assistant" && e.None? then m.info.error else e
  }

  /** The ids of a list that opencode could have produced: present and different. */
  ghost predicate ProperIds(ps: seq<(string, string)>) {
    && (forall i :: 0 <= i < |ps| ==> ps[i].0 != "")
    && (forall i, j :: 0 <= i < j < |ps| ==> ps[i].0 != ps[j].0)
  }

  function Unsent(ps: seq<(string, string)>, sent: set<string>): seq<(string, string)> {
    if ps == [] then []
    else Unsent(ps[..|ps| - 1], sent) + if ps[|ps| - 1].0 in sent then [] else [ps[|ps| - 1]]
  }

  // ---------------------------------------------------------------- any list

  /** Whatever the list: what was delivered stays, in place, and every real assistant message ends up delivered. */
  lemma {:induction false} NothingLost(a: Acc, list: seq<ApiMessage>)
    requires Consistent(a)
    ensures var b := ReconcileAll(a, list);
            && Consistent(b)
            && Deliveries(a) <= Deliveries(b)
            && (forall i :: 0 <= i < |list| && list[i].info.role == "assistant" && list[i].info.id != "" && !Blank(TextOf(list[i].parts)) ==>
                  list[i].info.id in b.emitted)
  {
    if list != [] {
      var front, m := list[..|list| - 1], list[|list| - 1];
      NothingLost(a, front);
      var b := ReconcileAll(a, front);
      EmitOnce(b, m.info.id, TextOf(m.parts));
      forall i | 0 <= i < |list| && list[i].info.role == "assistant" && list[i].info.id != "" && !Blank(TextOf(list[i].parts))
        ensures list[i].info.id in ReconcileAll(a, list).emitted
      {
        if i < |front| {
          assert front[i] == list[i];
        }
      }
    }
  }

  // ------------------------------------------------------- message by message

  predicate Usable(m: ApiMessage) {
    m.info.role == "assistant" && !Blank(TextOf(m.parts))
  }

  /** How many numbers for made-up keys the list uses up. */
  function IdLess(list: seq<ApiMessage>): nat {
    if list == [] then 0
    else IdLess(list[..|list| - 1])
         + if list[|list| - 1].info.role == "assistant" && list[|list| - 1].info.id == "" then 1 else 0
  }

  /** The key that message i of the list is delivered under. */
  function KeyAt(a: Acc, list: seq<ApiMessage>, i: nat): string
    requires i < |list|
  {
    if list[i].info.id == "" then "__ext_" + Decimal(a.extSeq + IdLess(list[..i])) else list[i].info.id
  }

  /** Some usable message of the list has this key. */
  ghost predicate Keyed(a: Acc, list: seq<ApiMessage>, key: string) {
    exists j :: 0 <= j < |list| && Usable(list[j]) && KeyAt(a, list, j) == key
  }

  /** Reconciling message i adds it to the deliveries, where it stays to the end. */
  ghost predicate Adds(a: Acc, list: seq<ApiMessage>, i: nat)
    requires i < |list|
  {
    && Deliveries(ReconcileAll(a, list[..i + 1])) ==
         Deliveries(ReconcileAll(a, list[..i])) + [(KeyAt(a, list, i), TextOf(list[i].parts))]
    && Deliveries(ReconcileAll(a, list[..i + 1])) <= Deliveries(ReconcileAll(a, list))
  }

  lemma {:induction false} NumbersUsed(a: Acc, list: seq<ApiMessage>)
    ensures ReconcileAll(a, list).extSeq == a.extSeq + IdLess(list)
  {
    if list != [] {
      NumbersUsed(a, list[..|list| - 1]);
    }
  }

  lemma KeyAtPrefix(a: Acc, list: seq<ApiMessage>, n: nat, j: nat)
    requires j < n <= |list|
    ensures list[..n][j] == list[j] && KeyAt(a, list[..n], j) == KeyAt(a, list, j)
  {
    assert list[..n][..j] == list[..j];
  }

  lemma KeyedNext(a: Acc, list: seq<ApiMessage>, n: nat, key: string)
    requires n < |list|
    ensures Keyed(a, list[..n + 1], key) <==> Keyed(a, list[..n], key) || (Usable(list[n]) && KeyAt(a, list, n) == key)
  {
    var next := list[..n + 1];
    KeyAtPrefix(a, list, n + 1, n);
    forall j | 0 <= j < n ensures next[j] == list[..n][j] && KeyAt(a, next, j) == KeyAt(a, list[..n], j) {
      KeyAtPrefix(a, list, n + 1, j);
      KeyAtPrefix(a, list, n, j);
    }
  }

  /** One message more: its effect on the deliveries and on the keys that are taken. */
  lemma ReconcileOne(a: Acc, list: seq<ApiMessage>, n: nat)
    requires n < |list| && Consistent(ReconcileAll(a, list[..n]))
    ensures var b, c, key := ReconcileAll(a, list[..n]), ReconcileAll(a, list[..n + 1]), KeyAt(a, list, n);
            && Consistent(c)
            && Deliveries(c) == Deliveries(b) + (if Usable(list[n]) && key !in b.emitted then [(key, TextOf(list[n].parts))] else [])
            && c.emitted == b.emitted + (if Usable(list[n]) then {key} else {})
  {
    var b := ReconcileAll(a, list[..n]);
    assert list[..n + 1][..n] == list[..n];
    NumbersUsed(a, list[..n]);
    if list[n].info.role == "assistant" {
      assert KeyFor(b, list[n].info.id) == KeyAt(a, list, n);
      EmitOnce(b, list[n].info.id, TextOf(list[n].parts));
    } else {
      assert Deliveries(b) + [] == Deliveries(b);
    }
  }

  /** The keys taken after the first n messages: those taken before, and those of the usable messages. */
  lemma {:induction false} KeysTaken(a: Acc, list: seq<ApiMessage>, n: nat, key: string)
    requires Consistent(a) && n <= |list|
    ensures Consistent(ReconcileAll(a, list[..n]))
    ensures key in ReconcileAll(a, list[..n]).emitted <==> key in a.emitted || Keyed(a, list[..n], key)
  {
    if n > 0 {
      KeysTaken(a, list, n - 1, key);
      ReconcileOne(a, list, n - 1);
      KeyedNext(a, list, n - 1, key);
    }
  }

  lemma DeliveriesGrowOne(a: Acc, list: seq<ApiMessage>, n: nat)
    requires Consistent(a) && n < |list|
    ensures Deliveries(ReconcileAll(a, list[..n])) <= Deliveries(ReconcileAll(a, list[..n + 1]))
  {
    KeysTaken(a, list, n, "");
    ReconcileOne(a, list, n);
  }

  lemma {:induction false} DeliveriesGrow(a: Acc, list: seq<ApiMessage>, m: nat, n: nat)
    requires Consistent(a) && m <= n <= |list|
    ensures Deliveries(ReconcileAll(a, list[..m])) <= Deliveries(ReconcileAll(a, list[..n]))
    decreases n
  {
    if m < n {
      var k := n - 1;
      DeliveriesGrow(a, list, m, k);
      DeliveriesGrowOne(a, list, k);
      PrefixTrans(Deliveries(ReconcileAll(a, list[..m])), Deliveries(ReconcileAll(a, list[..k])), Deliveries(ReconcileAll(a, list[..k + 1])));
    }
  }

  lemma PrefixTrans<T>(x: seq<T>, y: seq<T>, z: seq<T>)
    requires x <= y <= z
    ensures x <= z
  {
  }

  /**
   For every list, whatever its ids: a usable message is delivered if and only if
   its key was not delivered before the reconcile and no earlier usable message
   of the list has it.
   */
  lemma DeliveredIffNew(a: Acc, list: seq<ApiMessage>, i: nat)
    requires Consistent(a) && i < |list| && Usable(list[i])
    ensures Adds(a, list, i) <==> KeyAt(a, list, i) !in a.emitted && !Keyed(a, list[..i], KeyAt(a, list, i))
  {
    KeysTaken(a, list, i, KeyAt(a, list, i));
    ReconcileOne(a, list, i);
    DeliveriesGrow(a, list, i + 1, |list|);
    assert list[..|list|] == list;
  }

  lemma {:induction false} IdLessGrows(list: seq<ApiMessage>, i: nat, j: nat)
    requires i < j <= |list| && list[i].info.role == "assistant" && list[i].info.id == ""
    ensures IdLess(list[..i]) < IdLess(list[..j])
    decreases j
  {
    assert list[..j][..j - 1] == list[..j - 1];
    if i < j - 1 {
      IdLessGrows(list, i, j - 1);
    }
  }

  /**
   A message without an id still gets out: if it is usable it is delivered if and
   only if no real id, delivered live or earlier in the list, is the key made up
   for it.
   */
  lemma IdLessDelivered(a: Acc, list: seq<ApiMessage>, i: nat)
    requires Consistent(a) && i < |list| && Usable(list[i]) && list[i].info.id == ""
    ensures Adds(a, list, i) <==>
              && KeyAt(a, list, i) !in a.emitted
              && forall j :: 0 <= j < i && Usable(list[j]) && list[j].info.id != "" ==> list[j].info.id != KeyAt(a, list, i)
  {
    var key := KeyAt(a, list, i);
    DeliveredIffNew(a, list, i);
    forall j | 0 <= j < i ensures list[..i][j] == list[j] && KeyAt(a, list[..i], j) == KeyAt(a, list, j) {
      KeyAtPrefix(a, list, i, j);
    }
    forall j | 0 <= j < i && Usable(list[j]) && list[j].info.id == "" ensures KeyAt(a, list, j) != key {
      IdLessGrows(list, j, i);
      SyntheticKeysDiffer(a.extSeq + IdLess(list[..j]), a.extSeq + IdLess(list[..i]));
    }
    forall j | 0 <= j < i && Usable(list[j]) && list[j].info.id != "" && list[j].info.id == key ensures Keyed(a, list[..i], key) {
      assert KeyAt(a, list[..i], j) == key;
    }
  }

  // -------------------------------------------------------------- proper lists

  lemma {:induction false} NonBlankMember(ps: seq<(string, string)>, p: (string, string))
    ensures p in NonBlank(ps) <==> p in ps && !Blank(p.1)
  {
    if ps != [] {
      NonBlankMember(ps[..|ps| - 1], p);
      assert ps == ps[..|ps| - 1] + [ps[|ps| - 1]];
    }
  }

  lemma {:induction false} NonBlankProper(ps: seq<(string, string)>)
    requires ProperIds(ps)
    ensures ProperIds(NonBlank(ps))
  {
    if ps != [] {
      var front, last := ps[..|ps| - 1], ps[|ps| - 1];
      NonBlankProper(front);
      forall i | 0 <= i < |NonBlank(front)| ensures NonBlank(front)[i].0 != last.0 {
        NonBlankMember(front, NonBlank(front)[i]);
      }
    }
  }

  lemma {:induction false} UnsentMember(ps: seq<(string, string)>, sent: set<string>, p: (string, string))
    requires p in Unsent(ps, sent)
    ensures p in ps
  {
    var front := ps[..|ps| - 1];
    if p in Unsent(front, sent) {
      UnsentMember(front, sent, p);
      assert p in front;
    }
  }

  /** Reconciling appends exactly the owed messages whose ids were not delivered. */
  lemma {:induction false} ReconcileAppends(a: Acc, list: seq<ApiMessage>)
    requires Consistent(a) && ProperIds(Assistants(list))
    ensures Consistent(ReconcileAll(a, list))
    ensures Deliveries(ReconcileAll(a, list)) == Deliveries(a) + Unsent(Owed(list), a.emitted)
  {
    if list == [] {
      assert Deliveries(a) + [] == Deliveries(a);
    } else {
      var front, m := list[..|list| - 1], list[|list| - 1];
      var ps := Assistants(front);
      forall i | 0 <= i < |ps| ensures Assistants(list)[i] == ps[i] { }
      ReconcileAppends(a, front);
      if m.info.role == "assistant" {
        var last := (m.info.id, TextOf(m.parts));
        assert Assistants(list) == ps + [last];
        AppendOne(a, ReconcileAll(a, front), ps, last);
      } else {
        assert Assistants(list) == ps;
      }
    }
  }

  lemma AppendOne(a: Acc, b: Acc, ps: seq<(string, string)>, last: (string, string))
    requires Consistent(a) && Consistent(b) && ProperIds(ps + [last])
    requires Deliveries(b) == Deliveries(a) + Unsent(NonBlank(ps), a.emitted)
    ensures Consistent(EmitText(b, last.0, last.1))
    ensures Deliveries(EmitText(b, last.0, last.1)) == Deliveries(a) + Unsent(NonBlank(ps + [last]), a.emitted)
  {
    assert (ps + [last])[|ps|].0 != "";
    EmitOnce(b, last.0, last.1);
    LastIsNew(a, b, ps, last);
    OneMoreUnsent(ps, last, a.emitted);
    var more := if last.0 in a.emitted || Blank(last.1) then [] else [last];
    assert Deliveries(EmitText(b, last.0, last.1)) == Deliveries(b) + more;
    Regroup(Deliveries(a), Unsent(NonBlank(ps), a.emitted), more);
  }

  lemma Regroup<T>(a: seq<T>, b: seq<T>, c: seq<T>)
    ensures (a + b) + c == a + (b + c)
  {
  }

  lemma OneMoreUnsent(ps: seq<(string, string)>, last: (string, string), sent: set<string>)
    ensures Unsent(NonBlank(ps + [last]), sent)
         == Unsent(NonBlank(ps), sent) + if last.0 in sent || Blank(last.1) then [] else [last]
  {
    NonBlankSnoc(ps, last);
    UnsentSnoc(NonBlank(ps), last, sent);
    assert Unsent(NonBlank(ps), sent) + [] == Unsent(NonBlank(ps), sent);
  }

  lemma NonBlankSnoc(ps: seq<(string, string)>, last: (string, string))
    ensures NonBlank(ps + [last]) == if Blank(last.1) then NonBlank(ps) else NonBlank(ps) + [last]
  {
    assert (ps + [last])[..|ps|] == ps;
  }

  lemma UnsentSnoc(ps: seq<(string, string)>, last: (string, string), sent: set<string>)
    ensures Unsent(ps + [last], sent) == if last.0 in sent then Unsent(ps, sent) else Unsent(ps, sent) + [last]
  {
    assert (ps + [last])[..|ps|] == ps;
  }

  lemma LastIdNew(ps: seq<(string, string)>, last: (string, string), p: (string, string))
    requires ProperIds(ps + [last]) && p in ps
    ensures p.0 != last.0
  {
    var j :| 0 <= j < |ps| && ps[j] == p;
    assert (ps + [last])[j].0 != (ps + [last])[|ps|].0;
  }

  /** A last message with an id of its own is delivered already only if it was before the reconcile. */
  lemma LastIsNew(a: Acc, b: Acc, ps: seq<(string, string)>, last: (string, string))
    requires Consistent(a) && Consistent(b) && ProperIds(ps + [last])
    requires Deliveries(b) == Deliveries(a) + Unsent(NonBlank(ps), a.emitted)
    ensures last.0 in b.emitted <==> last.0 in a.emitted
  {
    var k := |a.delivered|;
    if last.0 in a.emitted {
      var i :| 0 <= i < k && a.delivered[i] == last.0;
      assert Deliveries(b)[i] == Deliveries(a)[i];
      assert b.delivered[i] in b.delivered;
    }
    if last.0 in b.emitted {
      var i :| 0 <= i < |b.delivered| && b.delivered[i] == last.0;
      if i < k {
        assert Deliveries(b)[i] == Deliveries(a)[i];
        assert a.delivered[i] in a.delivered;
      } else {
        var p := Unsent(NonBlank(ps), a.emitted)[i - k];
        assert Deliveries(b)[i] == p;
        UnsentMember(NonBlank(ps), a.emitted, p);
        NonBlankMember(ps, p);
        LastIdNew(ps, last, p);
        assert false;
      }
    }
  }

  lemma {:induction false} UnsentAfterPrefix(ps: seq<(string, string)>, k: nat, sent: set<string>)
    requires k <= |ps| && forall i :: 0 <= i < |ps| ==> (ps[i].0 in sent <==> i < k)
    ensures Unsent(ps, sent) == ps[k..]
  {
    if ps != [] {
      var front := ps[..|ps| - 1];
      if k == |ps| {
        UnsentAfterPrefix(front, k - 1, sent);
      } else {
        UnsentAfterPrefix(front, k, sent);
        assert ps[k..] == front[k..] + [ps[|ps| - 1]];
      }
    }
  }

  lemma DeliveredOnly(a: Acc, owed: seq<(string, string)>, i: nat)
    requires Consistent(a) && ProperIds(owed) && Deliveries(a) <= owed && i < |owed|
    ensures owed[i].0 in a.emitted <==> i < |a.delivered|
  {
    forall j | 0 <= j < |a.delivered| ensures a.delivered[j] == owed[j].0 {
      assert owed[j] == Deliveries(a)[j];
    }
    if i < |a.delivered| {
      assert a.delivered[i] in a.delivered;
    }
  }

  /**
   Exactly what makes a reconcile right: the deliveries after it are the owed
   messages, each once and in order, if and only if the deliveries before it
   were a prefix of them.
   */
  lemma ReconcileExact(a: Acc, list: seq<ApiMessage>)
    requires Consistent(a) && ProperIds(Assistants(list))
    ensures Deliveries(ReconcileAll(a, list)) == Owed(list) <==> Deliveries(a) <= Owed(list)
  {
    ReconcileAppends(a, list);
    var owed, k := Owed(list), |a.delivered|;
    if Deliveries(a) <= owed {
      NonBlankProper(Assistants(list));
      forall i | 0 <= i < |owed| ensures owed[i].0 in a.emitted <==> i < k {
        DeliveredOnly(a, owed, i);
      }
      UnsentAfterPrefix(owed, k, a.emitted);
      assert owed == owed[..k] + owed[k..];
    }
  }

  /** When the list is unavailable the synchronous response adds at most its own message, at the end. */
  lemma FallbackAddsFinal(a: Acc, list: seq<ApiMessage>, id: string, text: string)
    requires Consistent(a) && ProperIds(Assistants(list)) && Deliveries(a) <= Owed(list)
    requires Assistants(list) != [] && Assistants(list)[|Assistants(list)| - 1] == (id, text)
    ensures Deliveries(EmitText(a, id, text)) ==
              Deliveries(a) + if Blank(text) || Deliveries(a) == Owed(list) then [] else [(id, text)]
  {
    EmitOnce(a, id, text);
    var ps, owed := Assistants(list), Owed(list);
    NonBlankProper(ps);
    assert NonBlank(ps) == NonBlank(ps[..|ps| - 1]) + if Blank(text) then [] else [(id, text)];
    if !Blank(text) {
      assert owed[|owed| - 1] == (id, text);
      if id in a.emitted {
        var j :| 0 <= j < |a.delivered| && a.delivered[j] == id;
        assert owed[j] == Deliveries(a)[j];
        assert j == |owed| - 1;
      }
      if Deliveries(a) == owed {
        assert a.delivered[|owed| - 1] == id;
        assert a.delivered[|owed| - 1] in a.delivered;
      }
    }
  }
}
