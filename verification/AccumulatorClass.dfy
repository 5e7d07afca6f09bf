/** msgAccumulator as the object it is: maps, a slice and a counter updated in place. */
module AccumulatorClass {
  import opened Options
  import opened Text
  import A = Accumulator

  class MsgAccumulator {
    const hasCallback: bool
    var parts: map<string, map<string, string>>
    var order: map<string, seq<string>>
    var emitted: map<string, bool>
    var delivered: seq<string>
    var byId: map<string, string>
    var extSeq: int
    /** The texts onMessage has been called with, in call order. */
    var calls: seq<string>

    constructor (hasCallback: bool)
      ensures Valid() && View() == A.EMPTY && this.hasCallback == hasCallback && calls == []
    {
      this.hasCallback := hasCallback;
      parts, order, emitted, delivered, byId, extSeq, calls := map[], map[], map[], [], map[], 0, [];
      new;
      assert (set k | k in emitted && emitted[k]) == {};
    }

    ghost predicate Valid()
      reads this
    {
      && extSeq >= 0
      && A.Consistent(View())
      && (forall k :: k in emitted ==> emitted[k])
      && calls == if hasCallback then A.Messages(View()) else []
    }

    ghost function View(): A.Acc
      reads this
    {
      A.Acc(parts, order, emitted.Keys, delivered, byId, if extSeq >= 0 then extSeq else 0)
    }

    /** The map and slice updates of addPart. */
    method StorePart(mid: string, pid: string, text: string)
      modifies this`parts, this`order
      ensures View() == A.AddPart(old(View()), mid, pid, text)
    {
      if mid !in parts {
        parts := parts[mid := map[]];
      }
      if pid !in parts[mid] {
        order := order[mid := (if mid in order then order[mid] else []) + [pid]];
      }
      parts := parts[mid := parts[mid][pid := text]];
    }

    method AddPart(mid: string, pid: string, text: string)
      requires Valid()
      modifies this`parts, this`order
      ensures Valid() && View() == A.AddPart(old(View()), mid, pid, text)
    {
      StorePart(mid, pid, text);
      assert A.Messages(View()) == A.Messages(old(View()));
    }

    method Assemble(mid: string) returns (text: string)
      requires Valid()
      ensures text == A.Assemble(View(), mid)
    {
      text := "";
      var pids := if mid in order then order[mid] else [];
      for i := 0 to |pids|
        invariant text == A.Joined(A.PartsOf(View(), mid), pids[..i])
      {
        assert pids[..i + 1][..i] == pids[..i];
        if mid in parts && pids[i] in parts[mid] {
          text := text + parts[mid][pids[i]];
        }
      }
      assert pids[..|pids|] == pids;
    }

    /** The three assignments that record text under key. */
    method Record(key: string, text: string)
      requires forall k :: k in emitted ==> emitted[k]
      modifies this`emitted, this`delivered, this`byId
      ensures View() == A.Record(old(View()), key, text)
      ensures forall k :: k in emitted ==> emitted[k]
    {
      emitted := emitted[key := true];
      delivered := delivered + [key];
      byId := byId[key := text];
      assert emitted.Keys == old(emitted).Keys + {key};
    }

    /** Record text under key and hand it to the callback. */
    method Deliver(key: string, text: string)
      requires Valid() && key !in emitted && !Blank(text) && key != ""
      modifies this`emitted, this`delivered, this`byId, this`calls
      ensures Valid() && View() == A.EmitText(old(View()), key, text)
    {
      ghost var before := View();
      Record(key, text);
      A.RecordConsistent(before, key, text);
      A.RecordDelivers(before, key, text);
      A.EmitIsRecord(before, key, text);
      if hasCallback {
        calls := calls + [text];
      }
    }

    /** The key a message is delivered under; an id-less one uses up a number. */
    method TakeKey(mid: string) returns (key: string)
      requires Valid() && extSeq < 0x7FFF_FFFF_FFFF_FFFF
      modifies this`extSeq
      ensures Valid() && key == A.KeyFor(old(View()), mid) && key != ""
      ensures View() == if mid == "" then old(View()).(extSeq := old(View()).extSeq + 1) else old(View())
      ensures extSeq <= old(extSeq) + 1
    {
      key := mid;
      if mid == "" {
        var n := Itoa(extSeq);
        key := "__ext_" + n;
        extSeq := extSeq + 1;
      }
      assert A.Messages(View()) == A.Messages(old(View()));
    }

    /** extSeq is a 64-bit int: it counts list entries, so the bound is the type's. */
    method EmitText(mid: string, text: string)
      requires Valid() && extSeq < 0x7FFF_FFFF_FFFF_FFFF
      modifies this
      ensures Valid() && View() == A.EmitText(old(View()), mid, text)
      ensures extSeq <= old(extSeq) + 1
    {
      var key := TakeKey(mid);
      var blank := IsBlank(text);
      if (key in emitted && emitted[key]) || blank {
        return;
      }
      Deliver(key, text);
    }

    /**
     One event folded in; lossy is what the listener's flag reads at that moment. A
     text part of a message is stored, a completed assistant message is handed on
     unless events were lost, and an error stands until another one comes.
     */
    method Handle(ev: A.Event, lossy: bool, err: Option<string>) returns (err': Option<string>)
      requires Valid() && extSeq < 0x7FFF_FFFF_FFFF_FFFF
      modifies this
      ensures Valid() && View() == A.Handle(old(View()), ev, lossy) && err' == A.ErrorAfter(err, ev)
      ensures match ev
              case PartUpdated(Some(p)) =>
                View() == if p.kind == "text" && p.messageId != "" then A.AddPart(old(View()), p.messageId, p.id, p.text) else old(View())
              case MessageUpdated(Some(info)) =>
                View() == if info.role == "assistant" && info.completed > 0 && info.id != "" && !lossy
                          then A.EmitText(old(View()), info.id, A.Assemble(old(View()), info.id)) else old(View())
              case _ => View() == old(View())
      ensures match ev
              case MessageUpdated(Some(info)) => err' == if info.error.Some? then info.error else err
              case SessionError(Some(e)) => err' == Some(e)
              case _ => err' == err
      ensures extSeq <= old(extSeq) + 1
    {
      err' := err;
      match ev
      case PartUpdated(part) =>
        if part.Some? && part.value.kind == "text" && part.value.messageId != "" {
          AddPart(part.value.messageId, part.value.id, part.value.text);
        }
      case MessageUpdated(info) =>
        if info.Some? && info.value.role == "assistant" && info.value.completed > 0 && info.value.id != "" && !lossy {
          var text := Assemble(info.value.id);
          EmitText(info.value.id, text);
        }
        if info.Some? && info.value.error.Some? {
          err' := info.value.error;
        }
      case SessionError(e) =>
        if e.Some? {
          err' := e;
        }
      case SessionIdle =>
    }

    method Count() returns (n: nat)
      ensures n == |A.Messages(View())|
    {
      n := |delivered|;
    }

    method Messages() returns (out: seq<string>)
      requires Valid()
      ensures out == A.Messages(View())
    {
      out := [];
      for i := 0 to |delivered|
        invariant out == A.Messages(View())[..i]
      {
        assert delivered[i] in delivered;
        out := out + [byId[delivered[i]]];
      }
    }
  }

  /** strings.TrimSpace(s) == "", by scanning. */
  method IsBlank(s: string) returns (blank: bool)
    ensures blank == Blank(s)
  {
    for i := 0 to |s|
      invariant forall k :: 0 <= k < i ==> IsSpace(s[k])
    {
      if !IsSpace(s[i]) {
        assert s[i] in s;
        return false;
      }
    }
    return true;
  }
}
