/**
 The dedup table (internal/store/dedup.go) and onMessage (internal/bot/bot.go)
 as the methods they are.
 */
module OnMessage {
  import opened Options
  import QueueCore
  import opened CoreClass

  type Pair = (string, string)

  /** How a statement on the table can go; a failed one may still have been written. */
  datatype Access = Ran | Broke(wrote: bool)

  class Db {
    /** When each (platform, message id) was first seen. */
    var seenAt: map<Pair, int>

    constructor ()
      ensures seenAt == map[]
    {
      seenAt := map[];
    }

    /** INSERT OR IGNORE: a pair that is there keeps its time. first is None on an error. */
    method SeenMessage(platform: string, messageId: string, now: int, access: Access) returns (first: Option<bool>)
      modifies this
      ensures first == if access.Broke? then None else Some((platform, messageId) !in old(seenAt))
      ensures seenAt == if access == Broke(false) || (platform, messageId) in old(seenAt) then old(seenAt)
                        else old(seenAt)[(platform, messageId) := now]
    {
      var isNew := (platform, messageId) !in seenAt;
      if isNew && access != Broke(false) {
        seenAt := seenAt[(platform, messageId) := now];
      }
      first := if access.Broke? then None else Some(isNew);
    }

    /** Rows older than the cutoff go, and the error of the statement is passed on; no caller uses this yet. */
    method PurgeDedupOlderThan(cutoff: int, access: Access) returns (ok: bool)
      modifies this
      ensures ok <==> access == Ran
      ensures access == Broke(false) ==> seenAt == old(seenAt)
      ensures access != Broke(false) ==> forall p :: p in seenAt <==> p in old(seenAt) && old(seenAt)[p] >= cutoff
      ensures forall p :: p in seenAt ==> p in old(seenAt) && seenAt[p] == old(seenAt)[p]
    {
      if access != Broke(false) {
        seenAt := map p | p in seenAt && seenAt[p] >= cutoff :: seenAt[p];
      }
      ok := access == Ran;
    }
  }

  /**
   onMessage run without interruption. transcript collects the user records. The
   message reaches enqueue exactly when the process accepts work, the table
   answers that it is new, the transcript takes it and it mentions the bot; its
   pair is in the table afterwards unless it was turned away at the door or the
   table broke before writing. An accepted message leaves exactly one of three
   things behind: the worker started for it, the back-pointer from the message it
   superseded, or the ack of its thread; any other message leaves none.
   */
  method OnMessage(core: Core, db: Db, m: Message, now: int, access: Access, appendOk: bool)
      returns (verdict: Option<QueueCore.Verdict<ThreadQueue, Message>>, recorded: bool)
    requires core.Valid()
    modifies core, core.all, db
    ensures core.Valid() && fresh(core.all - old(core.all))
    ensures verdict.Some? <==>
              !old(core.stopped) && access == Ran && (m.platform, m.messageId) !in old(db.seenAt) && appendOk && m.mention
    ensures verdict.Some? ==>
              && QueueCore.PointersValid(old(core.View())) && !verdict.value.Rejected?
              && (core.View(), verdict.value)
                 == QueueCore.EnqueueRegion(old(core.View()), QueueCore.Key(m), m, verdict.value.q)
    ensures verdict.None? ==> core.View() == old(core.View())
    ensures core.spawned == old(core.spawned) +
              if verdict.Some? && verdict.value.Started? then [(verdict.value.q, m)] else []
    ensures core.pointers == old(core.pointers) +
              if verdict.Some? && verdict.value.Coalesced? && verdict.value.superseded.Some?
              then [BackPointer(verdict.value.superseded.value.platform, verdict.value.superseded.value.threadId,
                                m.platform + ":" + m.messageId)]
              else []
    ensures core.acks == old(core.acks) +
              if verdict.Some? && verdict.value.Coalesced? && verdict.value.superseded.None? then [m.threadId] else []
    ensures recorded <==> !old(core.stopped) && access == Ran && (m.platform, m.messageId) !in old(db.seenAt) && appendOk
    ensures db.seenAt.Keys == old(db.seenAt.Keys)
                              + if old(core.stopped) || access == Broke(false) then {} else {(m.platform, m.messageId)}
  {
    verdict, recorded := None, false;
    if core.stopped {
      return;
    }
    var first := db.SeenMessage(m.platform, m.messageId, now, access);
    if first != Some(true) || !appendOk {
      return;
    }
    recorded := true;
    if !m.mention {
      return;
    }
    var v := core.Enqueue(m);
    verdict := Some(v);
  }
}
