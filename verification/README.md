# Espur: a verified model of message handling, streaming and shutdown

Espur answers chat messages by driving an `opencode` server. This project models
the parts of it whose correctness depends on interleavings, on loss, or on text
surgery, and proves what they promise. `dafny verify dfyconfig.toml` checks it all.

There are six components. Where the source updates objects in place, a class with
the same fields and methods models them, and each method is tied to a function on
values. Where several goroutines share state, a transition system is built from
those same functions, one step per lock region or atomic action, and the theorems
are about every reachable state and every run of it.

**Per-thread queue** (`QueueCore`, `QueuePool`, `QueueLedger`, `QueueOrder`,
`QueueProtocol`, `QueueDuties`, `QueueOnce`, `QueueTheorems`, `QueueDrain`,
`QueueIdle`, `QueueCalls`; classes in `CoreClass`, `OnMessage`). Any number of `onMessage` calls and workers
interleave, with `StopAccepting` and process restarts at any point. The gap between
`onMessage`'s unlocked look at `stopped` and the look under the lock is a gap between
two steps, and so is the gap between retiring a queue and the deferred `Done`. A ledger
records the fate of each message as history; nothing in the protocol reads it.
Queues are keyed by the concatenated string the code builds, and `SharedKey` says
exactly when two threads share a queue because of that.

**Live stream and reconcile** (`Text`, `Accumulator`, `Reconcile`, `Stream`,
`StreamLoss`, `StreamLive`, `Delivery`, `DeliveryAnyOrder`, `Turn`; classes and loops in
`AccumulatorClass`, `TurnMethod`, `ClientClass`). The SSE reader and the `Invoke` goroutine are two processes with a
bounded channel between them; the reader's failed send and its store of the dropped
flag are two steps, and the taker may stop anywhere. `Delivery.Published` is the
assumption about opencode: messages complete in list order, none is skipped, and the
parts routed before a completion give the text that the list has. Under it the turn
delivers exactly what the list owes, in order; if messages may complete in any order,
or not at all, still each of them once (`OnceEach`). Without any of it,
`ReconcileExact` says exactly when a reconcile comes out right, and `NothingLost` holds for every list.

**Server manager** (`ServersCore`, `ServersProtocol`, `ServersInvariants`,
`ServersTheorems`, `ServersProgress`, `ServersOutcomes`; classes in `ServersClass`, `ClientClass`). Any number of `acquire`
and `Close` calls interleave with processes that start, fail, and exit. Each
connection has a holder who is answerable for closing it; that is the invariant that
rules out leaks.

**Text chunker** (`TextChunk`, `TextChunkSplit`, `TextChunkTheorems`,
`TextChunkUnique`, `TextChunkLines`, `TextChunkPending`, `TextChunkConditions`,
`TextChunkFences`, `TextChunkOneByte`, `TextChunkExamples`; the loops in
`TextChunkMethod`). `Split` returns a ghost plan that accounts for every byte of the body; the plan says what
makes each chunk right where it stands, so losing a byte, breaking the cap, cutting a
line early or adding a closer in the wrong place would each contradict it. There is
only one such plan for a body (`PlanUnique`).

**Instruction block** (`Instructions`). Every file has exactly one of three layouts.
Extract and Replace are shown to be reading and writing a layout, and the lens laws
follow with their exact conditions.

**Typing indicator** (`Typing`, `TypingClass`). Any number of overlapping Posts and
one keepalive loop; `EndPost`'s decrement and send are two steps, and so are the
loop's Idle check and its call of `fire`.

## What turned out not to hold

Each of these is stated in the project with its exact condition and with an input or
a run that shows it.

- "Never while a Post is in flight" (`internal/adapter/typing.go:66-68`): a Post can
  begin between the Idle check and the call of `fire`. Condition
  `Typing.FiresDuringPost`, run `Typing.FiresDuringPostExample`.
- No live post after an event has been dropped (`internal/opencode/invoker.go:340-344`):
  the reader's failed send and its store of the flag are two steps, and a message
  completed before the lost event is still handed on in between. Condition
  `StreamLoss.DeliveriesAfterLoss`: a message that is new and not blank had passed its
  check already, or is looked at while the flag is down. No message completed at or
  after the lost event ever is (`Stream.NothingPostedPastLoss`); the run in
  `StreamLoss.DeliveryAfterLossExample` hands one on whose completion is the event right
  before the lost one.
- Reading the operator's text back after saving it, and overwriting it with a second
  save, fail exactly for a text that holds the end marker: the file is then read as
  ending at that marker. Conditions `Instructions.ReadsWhatWasSaved` and `LastSaveWins`,
  input `Instructions.EndMarkerExample`.
- Saving what was just read can change the file: the seed puts the two markers on
  adjacent lines (`internal/memory/seed.go:65-67`) and the first save adds an empty
  line. Condition `Instructions.ResaveUnchanged`, input `Instructions.FreshSeed`.
- Only lines longer than the cap are hard-split (`internal/adapter/textchunk/chunk.go:11-12`):
  a line of exactly the cap is too, when it is not the first and nothing is pending
  before it, because its newline is then counted with it. Condition
  `TextChunkConditions.HardSplitLines`, input `TextChunkExamples.ExactLineCut`.
- A fenced block is never cut (`internal/adapter/textchunk/chunk.go:10-11`): it stays
  whole exactly when it fits in the current chunk, or its opening line does not fit
  there and the block fits in a chunk of its own. Condition
  `TextChunkFences.FencedBlockWhole`, on the lengths of the lines and the cap, and for a
  block that would fit in a chunk of its own and is cut, `TextChunkExamples.BlockCut`.
- No chunk is empty: with a cap of one byte some are. Condition
  `TextChunkOneByte.OneByteSplit` (`TextChunk.OneByteEmptyPieces` for a hard split alone),
  input `TextChunkExamples.EmptyChunkExample`; from a cap of two none is.
- One queue per thread (`internal/bot/queue.go:10-12`): two threads share a queue when
  one platform is the other's platform, a colon and what the other thread id begins
  with. Condition `QueueCore.SharedKey`, input `QueueCore.SharedKeyExample`. It takes a
  colon in a thread id (`QueueCore.ThreadsApart`); Discord's ids have none, and no
  adapter here is known to produce such a pair.

## Model

| member | source | states |
|---|---|---|
| QueueCore.SharedKey | internal/bot/queue.go:40 | Two messages share a queue key if and only if they are of one thread, or the platforms differ by a colon and what the other thread id begins with. |
| QueueCore.ThreadsApart | internal/bot/queue.go:40 | If the thread ids have no colon, messages share a key exactly when platform and thread agree, whatever the platforms are. |
| QueueCore.SharedKeyExample | internal/bot/queue.go:40 | Two different threads with one key. |
| CoreClass.Core.QueueFor | internal/bot/queue.go:46-50 | The known queue of the key, or a fresh idle one that is put in the map; nothing else changes. |
| CoreClass.Core.EnqueueLocked | internal/bot/queue.go:40-61 | The lock region of enqueue: refused with nothing changed exactly when stopped, and otherwise the whole new state and verdict of the region the protocol uses. |
| CoreClass.Core.StartOrCoalesce | internal/bot/queue.go:51-61 | An idle queue starts running and is counted once; a running one gets the message in its slot and gives up what was there. |
| CoreClass.Core.Enqueue | internal/bot/queue.go:39-82 | After unlocking: one worker when started, one back-pointer record under the superseded message's thread when its slot was full, one ack when it was empty. |
| CoreClass.Core.FinishRound | internal/bot/queue.go:98-113 | The end of a round: the slot's message if there is one and shutdown has not begun, otherwise the queue stops running and leaves the map. |
| CoreClass.Core.Done | internal/bot/queue.go:89 | The counter goes down by one and nothing else changes. |
| CoreClass.Core.StopAccepting | internal/bot/bot.go:153-157 | The flag is up and nothing else changes. |
| CoreClass.Core.Work | internal/bot/queue.go:88-114 | The loop of a worker, from any state of its slot, with anything enqueued and shutdown begun during its handler calls: what it handles, that its queue and no other leaves the map, that shutdown has begun afterwards exactly when it had before or began during one of the calls, and that the counter goes down by one however many messages it handled. |
| CoreClass.HandledChain | internal/bot/queue.go:90-113 | A worker handles its own message and then, each time, the newest of its key that came during the call before (after the first call also one that was in the slot already); it stops at the first call after which there is none or shutdown has begun. |
| CoreClass.LatestIsNewest | internal/bot/queue.go:58-60 | Of several messages put in the slot during one call, the last one of the key is what is left. |
| CoreClass.LatestIsNone | internal/bot/queue.go:58-60 | The slot keeps what it had when none of the key came, and an empty one stays empty exactly then. |
| OnMessage.Db.SeenMessage | internal/store/dedup.go:14-23 | First time exactly when the pair was not in the table; a pair that is there keeps its row; an error tells nothing, and may or may not have written. |
| OnMessage.Db.PurgeDedupOlderThan | internal/store/dedup.go:29-33 | Exactly the rows older than the cutoff go, unless the statement fails without running; its error is passed on. |
| OnMessage.OnMessage | internal/bot/bot.go:172-218 | The message reaches enqueue if and only if work is accepted, the table says it is new, the append succeeds and the bot is mentioned; an accepted one leaves exactly its worker, its back-pointer record or its ack, any other leaves none; what is recorded and what is in the table afterwards. |
| QueuePool.EnqueueForms | internal/bot/queue.go:41-61 | In every agreeing state a worker starts exactly when the key is not in the map. |
| QueueLedger.FatesEnqueue | internal/bot/queue.go:39-82 | After enqueue every message still has the one fate that the queues and workers show. |
| QueueTheorems.InvStep | internal/bot/queue.go:39-114 | Every step keeps the whole invariant: agreement, fates, order, duties and at-most-once. |
| QueueTheorems.NothingDangles | internal/bot/queue.go:46-108 | In every reachable state the references and message positions that the steps look up exist. |
| QueueTheorems.StoppedWhenTold | internal/bot/bot.go:153-157 | Over every run with restarts the process turns work away if and only if StopAccepting was called since its last restart. |
| QueueCalls.WhoReachesEnqueue | internal/bot/bot.go:172-217 | Over every run of a process, told by its steps alone: a call reaches enqueue if and only if it looked at the flag before StopAccepting was called, its lookup ran and nothing had put its pair in the table, the transcript took its message, and the message mentions the bot. |
| QueueCalls.EnqueueOutcome | internal/bot/queue.go:39-82 | In every reachable state: after StopAccepting an enqueue is refused and changes nothing; before it, a new worker holds the message exactly when none works on the key, and otherwise the message is in that worker's slot and the call owes an ack for an empty slot, a back-pointer for a full one. |
| QueueCalls.DutiesOnlyByEnqueue | internal/bot/queue.go:58-81 | No other step puts a message on record as a fill or as superseded; an ack or a back-pointer goes out exactly when the call that owes it gets there. |
| QueueCalls.HandlerCallsRecorded | internal/bot/queue.go:90-97 | Each handler call is on record once, in order, with the pair of its message. |
| QueueTheorems.ConservationOfTriggers | internal/bot/queue.go:39-114 | Each enqueued message is in exactly one of five places; none is dropped before shutdown; an idle process not told to stop has completed or superseded all of them. |
| QueueTheorems.SupersessionChains | internal/bot/queue.go:58-77 | Back-pointers advance in enqueue order under one key, at most one is written per message, one not yet written is owed by the call that superseded it, and every chain ends in a message that waits, runs, completed or was left by shutdown. |
| QueueTheorems.OneAckPerRun | internal/bot/queue.go:58-81 | Acks posted and acks owed are together the empty-to-full transitions of the slots, and no two lead to the same coalesced run. |
| QueueTheorems.SerialNewestWins | internal/bot/queue.go:51-108 | Per key, handler calls never overlap and come in enqueue order, and the message taken from the slot is the newest ever enqueued for its key. |
| QueueTheorems.AtMostOnce | internal/bot/bot.go:172-218 | Over redeliveries, failed writes and appends, shutdowns and restarts, no (platform, message id) is handed to the handler twice, nor one that the table held at first. |
| QueueDrain.DrainSafety | internal/bot/queue.go:33-57 | The counter is the number of live workers, those whose Done is still due included; the map holds exactly the keys being worked on; one unretired worker per key. |
| QueueDrain.StoppedStep | internal/bot/queue.go:98-113 | In a run that has called StopAccepting, a worker step uses up exactly one unit of the measure and no other step adds any. |
| QueueDrain.WorkerCanStep | internal/bot/queue.go:88-114 | Every live worker can take its next step in every reachable state. |
| QueueIdle.QuietFinishes | internal/bot/queue.go:88-114 | As long as StopAccepting has not been called and with nothing more enqueued, the worker steps left are bounded, one is possible as long as a worker is left, and when all are taken every message is completed or superseded. |
| QueueDrain.DrainTerminates | internal/bot/bot.go:159-170 | From any state of a run that has called StopAccepting at most four worker steps per worker remain; as long as the counter is not zero one is possible; when all are taken it is zero. |
| QueueDrain.DrainedForGood | internal/bot/queue.go:33-38 | Once StopAccepting was called and the counter is at zero, no later step of the process raises it or starts a handler. |
| QueueDrain.SlotNeverStarted | internal/bot/queue.go:99-103 | A message in a slot at any time after StopAccepting is never started, and is in a slot in every later state. |
| Text.DecimalReadsBack | internal/opencode/invoker.go:408-420 | Reading a numeral back gives the number. |
| Text.Itoa | internal/opencode/invoker.go:408-420 | For every non-negative 64-bit int the buffer is large enough and the result is its numeral. |
| Accumulator.EmitOnce | internal/opencode/invoker.go:382-396 | One call of emitText delivers nothing, or one message at the end that is not blank and whose key was not delivered; emitted, seq and byID go on agreeing. |
| Accumulator.SyntheticKeysDiffer | internal/opencode/invoker.go:383-386 | The keys made up for different id-less messages differ. |
| Accumulator.TextInPlace | internal/opencode/client.go:383-391 | A message's text is made of the texts of its text parts, each in its place; other parts add nothing. |
| Accumulator.SeenIffFirstId | internal/opencode/invoker.go:366-368 | A part id is in the order list exactly when some event carried it for that message. |
| Accumulator.LastTextIsLast | internal/opencode/invoker.go:362-370 | The last event about a part decides its text. |
| Accumulator.AssembleIsText | internal/opencode/invoker.go:362-378 | After any events, however lossy, assemble gives each part's last text in first-seen order, and delivered ids are duplicate-free and agree with emitted and byID. |
| AccumulatorClass.MsgAccumulator.constructor | internal/opencode/invoker.go:321-330 | A new accumulator is empty and its callback has not been called. |
| AccumulatorClass.MsgAccumulator.AddPart | internal/opencode/invoker.go:362-370 | The map and order updates are those of the value function; deliveries and callbacks are untouched. |
| AccumulatorClass.MsgAccumulator.Assemble | internal/opencode/invoker.go:372-378 | The loop computes the join of the parts in order. |
| AccumulatorClass.MsgAccumulator.TakeKey | internal/opencode/invoker.go:383-386 | The message's id, or a made-up key that uses up one number. |
| AccumulatorClass.MsgAccumulator.EmitText | internal/opencode/invoker.go:382-396 | The whole new state, and that the callback trace is the list of delivered messages whenever there is a callback. |
| AccumulatorClass.MsgAccumulator.Handle | internal/opencode/invoker.go:333-360 | By kind of event: a text part of a message is stored, a completed assistant message with an id is handed on unless the stream is lossy, an error on an update or of the session replaces the one recorded, and nothing else changes. |
| AccumulatorClass.MsgAccumulator.Count | internal/opencode/invoker.go:398 | The number of delivered messages. |
| AccumulatorClass.MsgAccumulator.Messages | internal/opencode/invoker.go:400-406 | The delivered texts in delivery order. |
| AccumulatorClass.IsBlank | internal/opencode/invoker.go:387 | True exactly when every character is white space. |
| Reconcile.NothingLost | internal/opencode/invoker.go:217-228 | For every list: what was delivered stays in place, and the id of every non-blank assistant message that has one is among the delivered. |
| Reconcile.OwedInPlace | internal/opencode/invoker.go:217-228 | The list owes, for each of its entries in its place, an assistant message whose text is not blank, and nothing else. |
| Reconcile.DeliveredIffNew | internal/opencode/invoker.go:217-228 | For every list, whatever its ids: a non-blank assistant message is delivered if and only if its key was not delivered before the reconcile and no earlier such message of the list has it. |
| Reconcile.IdLessDelivered | internal/opencode/invoker.go:380-396 | A non-blank message without an id is delivered if and only if no real id, delivered live or earlier in the list, is the key made up for it. |
| Reconcile.ReconcileAppends | internal/opencode/invoker.go:217-228 | Reconciling appends exactly the owed messages whose ids were not delivered, in list order. |
| Reconcile.ReconcileExact | internal/opencode/invoker.go:217-228 | The deliveries after a reconcile are the owed messages, each once and in order, if and only if those before it were a prefix of them. |
| Reconcile.FallbackAddsFinal | internal/opencode/invoker.go:229-233 | With no list, the response adds its message at the end unless it is blank or everything was delivered. |
| Stream.NoTruncation | internal/opencode/invoker.go:339-351 | At each live post the events taken are exactly a prefix of those routed, ending in the completion, and the text is the assembly of that prefix; the channel stays within its capacity. |
| Stream.NothingPostedPastLoss | internal/opencode/client.go:209-215 | Once an event has been lost, no message whose completion is that event or comes after it is ever posted live, in this or any later state. |
| StreamLoss.DeliveriesAfterLoss | internal/opencode/invoker.go:348-396 | From a lost state on, messages are handed on live if and only if one that is new and not blank had passed its check already or is looked at while the flag is down; each of them was completed before the lost event. |
| StreamLoss.DeliveryAfterLossExample | internal/opencode/client.go:209-215 | A run in which a message is handed on after a loss, its completion being the event right before the lost one. |
| Stream.NoPostAfterFlag | internal/opencode/client.go:212 | The dropped flag is sticky, and after it is stored only a post that had already passed its check is still made. |
| Delivery.CompletionIndex | internal/opencode/invoker.go:348-351 | Where a completed message stands in the list, and that its live text is the list's. |
| Delivery.ExactlyOnce | internal/opencode/invoker.go:141-233 | For every capacity, interleaving, pattern of drops and stopping point: live posts are a prefix of the list's non-blank assistant messages, and after a reconcile the deliveries are exactly those messages, each once and in order. |
| StreamLive.PostsAreCompletions | internal/opencode/invoker.go:339-360 | Every live post is made at an update that completes its assistant message; and as long as the flag is down every such update folded in has its post. |
| StreamLive.LiveKeepsUp | internal/opencode/invoker.go:339-360 | While nothing has been flagged as lost, what was delivered live is exactly the non-blank messages of the list completed so far. |
| DeliveryAnyOrder.OnceEach | internal/opencode/invoker.go:141-233 | With no assumption on the order in which messages complete, or that all do: live posts are owed messages with the list's text, and after a reconcile the deliveries are a permutation of the owed messages, the live ones first. |
| Delivery.FallbackDelivers | internal/opencode/invoker.go:229-233 | If the list cannot be read, the response still gets the final message out, and nothing twice. |
| Turn.ThroughIdlePrefix | internal/opencode/invoker.go:185-202 | The drain takes the events up to and including the first session.idle, or all of them. |
| Turn.ConsumedReaches | internal/opencode/invoker.go:148-212 | An event at hand is taken if and only if the loop took it, or the send returned and either the loop had seen idle or no idle precedes it in the drain. |
| Turn.LastErrorStands | internal/opencode/invoker.go:352-358 | A turn's events leave no error recorded exactly when none of them is a session error or an update with one; otherwise the last such event's. |
| Turn.FailureNoticed | internal/opencode/invoker.go:273-285 | The failure text is empty exactly when the send succeeded and neither the session nor the response recorded an error: a failed send is always noticed. |
| Turn.FailureReads | internal/opencode/invoker.go:273-285 | What the failure text says for each combination of a recorded error, a failed send and a failed response. |
| Turn.ErrorInList | internal/opencode/invoker.go:217-225 | The list adds an error exactly when one of its assistant messages records one and none was recorded before; it is then that of the first, and one recorded before stands. |
| Turn.TurnDelivers | internal/opencode/invoker.go:141-239 | Any run of the live stream, seen as the fold that Invoke performs, followed by the list gives exactly the owed texts as the result's messages; on the timeout path they are exactly those handed on live, a prefix of the owed ones. |
| Turn.TurnSucceeds | internal/opencode/invoker.go:235-261 | Such a turn is a success exactly when the list owes something, the send succeeded, no event taken is a session error or an update with an error, and no list entry and no response records one. |
| Turn.TurnFails | internal/opencode/invoker.go:214-254 | The error of the last event that has one, or failing that of the first list entry that has one, makes the turn a vendor error whose text begins with it, whatever was delivered. |
| Turn.TurnFallback | internal/opencode/invoker.go:229-261 | When the list cannot be read: what was handed on live stands, an assistant response adds its own text unless it is blank or was delivered, a failed send or another role adds nothing; and exactly when that turn is a success. |
| Turn.FallbackFinal | internal/opencode/invoker.go:229-233 | If that response is the list's last message, the turn's messages are the live ones and it, unless it is among them. |
| TurnMethod.MessageText | internal/opencode/client.go:383-391 | The text parts of a message, in order. |
| TurnMethod.ClassifyFailure | internal/opencode/invoker.go:273-285 | The error parts joined by newlines. |
| TurnMethod.FoldLive | internal/opencode/invoker.go:148-161 | The event loop folds in every event it takes and remembers whether idle came. |
| TurnMethod.DrainThroughIdle | internal/opencode/invoker.go:190-202 | The drain folds in exactly the events through the first idle. |
| TurnMethod.DrainRest | internal/opencode/invoker.go:203-212 | After idle the drain folds in all that is buffered. |
| TurnMethod.ReconcileList | internal/opencode/invoker.go:217-228 | The loop over the list is the reconcile, and records the first error if there was none. |
| TurnMethod.Collect | internal/opencode/invoker.go:214-233 | The list if it could be read, otherwise an assistant response to a send that succeeded. |
| TurnMethod.Conclude | internal/opencode/invoker.go:235-261 | The result of a turn whose send returned: messages, last message, streamed, outcome, reason and error. |
| TurnMethod.RunTurn | internal/opencode/invoker.go:134-262 | Loop, drain, reconcile and result together, on both exits of the loop. |
| TurnMethod.Invoke | internal/opencode/invoker.go:100-262 | The result for every setup failure, event feed, exit and list, with the callback called once per delivered message in order. |
| ClientClass.SseListener.Offer | internal/opencode/client.go:209-215 | The event goes into the channel, or the flag goes up; it never waits, and it is the stream protocol's routing step. |
| ClientClass.SseListener.Receive | internal/opencode/invoker.go:151 | The oldest event leaves the channel, as in the stream protocol's taking step. |
| ClientClass.ServerConn.Subscribe | internal/opencode/client.go:187-191 | A fresh empty listener of capacity 256 is registered; the others stay. |
| ClientClass.ServerConn.Unsubscribe | internal/opencode/client.go:192-196 | Only that session's listener goes. |
| ClientClass.ServerConn.Route | internal/opencode/client.go:199-216 | Only the listener of the event's session is touched, and it has the event or its flag is up. |
| ClientClass.ServerConn.IsAlive | internal/opencode/client.go:309-316 | Alive exactly when neither closed nor exited, on the fields. |
| ClientClass.ServerConn.Close | internal/opencode/client.go:319-331 | The first call closes, stops the reader and kills once; later ones change nothing. |
| ClientClass.ServerConn.ChildExited | internal/opencode/client.go:298-304 | The exit is recorded and the reader stopped. |
| ServersClass.Servers.Cached | internal/opencode/server.go:103-111 | The cached connection exactly when it is neither closed nor exited; another one is closed and taken out. |
| ServersClass.Servers.Enter | internal/opencode/server.go:102-131 | acquire's first lock region: use, wait, or own a fresh placeholder, with the whole new state. |
| ServersClass.Servers.Publish | internal/opencode/server.go:135-147 | acquire's second lock region: placeholder down, connection cached or closed after shutdown, waiters woken. |
| ServersClass.Servers.CacheOrClose | internal/opencode/server.go:137-144 | A spawned connection is cached, or closed if the manager shut down meanwhile. |
| ServersClass.Servers.Close | internal/opencode/server.go:193-205 | The flag is up, the map empty, exactly the connections that were in it closed, the placeholders left. |
| ServersInvariants.InvStep | internal/opencode/server.go:96-205 | Every step keeps: each connection has one holder answerable for closing it, and each placeholder one live owner. |
| ServersTheorems.SingleFlight | internal/opencode/server.go:112-136 | A vendor never has a spawn under way and a cached connection, never two spawn owners, and has a placeholder exactly when it has an owner. |
| ServersTheorems.OneServerPerVendor | internal/opencode/server.go:96-154 | Until Close is called a vendor has at most one server process not yet killed. |
| ServersTheorems.OwnVendorOnly | internal/opencode/server.go:18-24 | A cached or returned connection belongs to the vendor it was asked for. |
| ServersOutcomes.EnterOutcome | internal/opencode/server.go:102-131 | In every reachable state an acquire that looks returns the cached connection if and only if there is one whose process has not exited, and that one is open; one whose process has exited is closed, killed once and taken out, and the call owns the new spawn; with none cached it waits if a spawn is under way and spawns otherwise. |
| ServersOutcomes.WaiterOutcome | internal/opencode/server.go:112-126 | A waiter whose placeholder is done looks again exactly when the call it waited for returned a connection, and otherwise returns nothing. |
| ServersOutcomes.PublishOutcome | internal/opencode/server.go:135-154 | A healthy server is cached and returned, open, unless Close was called; then it is closed and killed and the map is empty. |
| ServersOutcomes.AcquireOutcome | internal/opencode/server.go:96-189 | Over every run an acquire returns nothing only if it was cancelled, its spawn failed or was healthy only with Close called, or it waited for such a call; and a failed, unhealthy or cancelled one never returns a connection. |
| ServersTheorems.NobodyStuck | internal/opencode/server.go:112-126 | An acquire that has not returned can move, or the owner it waits for can. |
| ServersProgress.AcquiresReturn | internal/opencode/server.go:96-154 | With no new call, whatever else happens, the steps left to the acquires are bounded, one is possible as long as a call has not returned, and when they are used up every acquire has returned. |
| ServersTheorems.CloserCanStep | internal/opencode/server.go:193-205 | A Close call that has not returned can go on. |
| ServersTheorems.CloserWorks | internal/opencode/server.go:193-205 | What a Close call has left to do goes down with each of its steps until it returns, and no other call changes it. |
| ServersTheorems.ClosedWhenCalled | internal/opencode/server.go:193-195 | The closed flag is up exactly when Close has been called, over every run. |
| ServersTheorems.EmptyAfterClose | internal/opencode/server.go:133-144 | After a Close call the connection map is empty in every state. |
| ServersTheorems.NoLeak | internal/opencode/server.go:193-205 | Once Close was called and all Close and acquire calls have returned, every server ever started is closed and was killed exactly once; no kill is ever issued twice. |
| TextChunk.JoinLines | internal/adapter/textchunk/chunk.go:36 | Lines joined again give the text, and no line holds a newline. |
| TextChunk.LinesJoin | internal/adapter/textchunk/chunk.go:36 | Newline-free lines joined and split again are the same lines. |
| TextChunk.HardPiecesRestore | internal/adapter/textchunk/chunk.go:84-98 | A hard split loses at most one space after each piece, keeps to the cap, and cuts short only at a space. |
| TextChunk.HardPiecesCut | internal/adapter/textchunk/chunk.go:84-98 | Each piece of a hard split, where it starts: the rest if it fits; else what is before the last space in the second half of the next maxLen bytes, that space dropped; else all of them, a space right after dropped. |
| TextChunk.HardPiecesNonEmpty | internal/adapter/textchunk/chunk.go:84-98 | From a cap of two no piece is empty. |
| TextChunk.OneByteEmptyPieces | internal/adapter/textchunk/chunk.go:87-92 | With a cap of one some piece is empty exactly when the text, not at its very end, starts with a space or has two in a row. |
| TextChunk.EmptyPieceExample | internal/adapter/textchunk/chunk.go:87-92 | Two spaces under a cap of one give an empty piece. |
| TextChunk.HardSplit | internal/adapter/textchunk/chunk.go:84-98 | The shrinking loop ends for every cap, and its pieces are each cut at the last space of the second half of the cap, or at the cap if there is none, and make up the text. |
| TextChunkFences.FenceIsOpenBlock | internal/adapter/textchunk/chunk.go:42-52 | After some lines the fence is open exactly when, reading the lines block by block from the front (a fence line opens a block, the next bare or repeated one closes it), the last block is never closed; the tag is then the line that opened it. |
| TextChunkConditions.LinesTogether | internal/adapter/textchunk/chunk.go:53-78 | Lines, the first of them not empty, are in one chunk if and only if they fit in the current chunk with what is pending, or the first does not fit there and they fit in a chunk of their own; by lengths alone. |
| TextChunkFences.FencedBlockWhole | internal/adapter/textchunk/chunk.go:42-78 | A fenced block is in one chunk if and only if it fits, by that condition on the lengths of the lines and the cap. |
| TextChunkFences.CutBlockCloser | internal/adapter/textchunk/chunk.go:64-70 | A chunk that ends inside a block has a closer exactly when there is room for it. |
| TextChunkFences.CloserCloses | internal/adapter/textchunk/chunk.go:64-70 | The closer is one more line and ends whatever block is open where it is put. |
| TextChunkExamples.BlockCut | internal/adapter/textchunk/chunk.go:9-12 | A block of seven bytes under a cap of seven that is cut, without a closer. |
| TextChunkMethod.PlaceLine | internal/adapter/textchunk/chunk.go:53-78 | One round of the loop extends the plan by a line: packed, flushed with or without a closer, or hard-split. |
| TextChunkMethod.PackLines | internal/adapter/textchunk/chunk.go:23-81 | The loop and the last flush produce the chunks of a right plan that covers the body. |
| TextChunkMethod.Split | internal/adapter/textchunk/chunk.go:13-82 | No splitting without a cap; otherwise the chunks of a plan that covers the body exactly and in which each chunk ends at a line end, is cut only where the next line does not fit, and has a closer exactly where the fence is open and there is room; no chunk over the cap; the body back from the chunks. |
| TextChunkTheorems.SplitLosesOnlySeparators | internal/adapter/textchunk/chunk.go:36-98 | Taking the closers off the chunks and putting back at most one newline or space after each gives the body. |
| TextChunkTheorems.SplitKeepsToCap | internal/adapter/textchunk/chunk.go:57-98 | Every chunk, closer included, is within the cap; from a cap of two none is empty; a body has a chunk exactly when it is not empty. |
| TextChunkUnique.PlanUnique | internal/adapter/textchunk/chunk.go:36-82 | A body has only one plan that covers it with chunks that are right where they stand, so the contract of Split determines its result. |
| TextChunkLines.HardSplitStep | internal/adapter/textchunk/chunk.go:53-77 | What takes a line, with its newline or without, is a hard split exactly when the two together are over the cap; so a line of exactly the cap is hard-split exactly when its newline is counted with it. |
| TextChunkPending.AtLine | internal/adapter/textchunk/chunk.go:36-79 | After any number of lines the plan of Split has put out whole ops up to `Pend` bytes before the end of those lines, `Pend` being computed from the lengths of the lines and the cap alone. |
| TextChunkConditions.HardSplitLines | internal/adapter/textchunk/chunk.go:53-77 | The lines that are hard-split are exactly those over the cap, and those of exactly the cap, other than the first, before which nothing is pending. |
| TextChunkExamples.ExactLineCut | internal/adapter/textchunk/chunk.go:9-12 | A line of two bytes under a cap of two that is hard-split, and the four chunks of its body. |
| TextChunkLines.KeptTogether | internal/adapter/textchunk/chunk.go:57-78 | Lines are in one chunk exactly when the text from the start of the first one's chunk to the end of the last fits the cap. |
| TextChunkOneByte.OneByteSplit | internal/adapter/textchunk/chunk.go:53-98 | Under a cap of one a body has an empty chunk exactly when some line, with its newline where that is counted, starts with a space or has two in a row before its end. |
| TextChunkOneByte.EmptyChunk | internal/adapter/textchunk/chunk.go:53-98 | For any cap, Split gives an empty chunk exactly when some line that is hard-split, with its newline where that is counted, has an empty piece. |
| TextChunkExamples.EmptyChunkExample | internal/adapter/textchunk/chunk.go:53-98 | Split of two spaces under a cap of one gives an empty chunk and a space. |
| Instructions.IndexFrom | internal/memory/instructions.go:11-16 | The first occurrence, or none. |
| Instructions.TrimShape | internal/memory/instructions.go:20 | Trimming leaves a middle part and takes off only newlines, all of them. |
| Instructions.ParseRenders | internal/memory/instructions.go:33-48 | Every file is the rendering of a proper layout. |
| Instructions.RenderParses | internal/memory/instructions.go:33-48 | A proper layout is the only one of its file. |
| Instructions.ExtractByLayout | internal/memory/instructions.go:10-21 | Extract reads the trimmed middle of a marked block, and nothing in the other layouts. |
| Instructions.ReplaceByLayout | internal/memory/instructions.go:29-49 | Replace rewrites only the block: in each of the three layouts all bytes before the start marker and after the end marker are kept. |
| Instructions.SavesInPlace | internal/memory/instructions.go:29-49 | Where a saved block goes, byte for byte: between what stood around the old one, over everything after a start marker that has no end, or after the whole file and an empty line. |
| Instructions.ReadsWhatWasSaved | internal/memory/instructions.go:10-49 | What is read after a save is the saved text trimmed if and only if it holds no end marker. |
| Instructions.LastSaveWins | internal/memory/instructions.go:29-49 | A second save overwrites the first if and only if the first held no end marker. |
| Instructions.ResaveUnchanged | internal/memory/instructions.go:10-49 | Saving what was read leaves the file alone if and only if its block is there and framed by exactly one newline on each side. |
| Instructions.ResaveAfterSave | internal/memory/instructions.go:10-49 | After saving a text without an end marker, saving what is read changes nothing. |
| Instructions.FreshSeed | internal/memory/seed.go:59-67 | The seed reads as empty, and its first save, even of nothing, adds a newline. |
| Instructions.EndMarkerExample | internal/memory/instructions.go:10-49 | The end marker saved as text does not read back, and a second save does not overwrite it. |
| TypingClass.TypingState.BeginPost | internal/adapter/typing.go:49 | One more Post is counted; the channel is untouched. |
| TypingClass.TypingState.Nudge | internal/adapter/typing.go:56-59 | A token is pending afterwards and the channel never holds two. |
| TypingClass.TypingState.EndPost | internal/adapter/typing.go:54-61 | One Post less, and a token exactly when it was the last. |
| TypingClass.TypingState.Idle | internal/adapter/typing.go:64 | True exactly when no Post is counted. |
| Typing.CounterCounts | internal/adapter/typing.go:47-55 | In every run the counter is the number of Posts in flight. |
| Typing.NoLostNudge | internal/adapter/typing.go:51-97 | When the loop waits, no Post is in flight or between decrement and send, and fire has not been called with none in flight since some Post began, a token is pending. |
| Typing.NudgeFires | internal/adapter/typing.go:90-94 | In every run, from a state where the loop waits, a token is pending and no Post is in flight, and while no Post begins and the loop is not cancelled: the loop can always go on, and once it has left its wait and come back fire has been called with no Post in flight. |
| Typing.TickFires | internal/adapter/typing.go:86-89 | In every run, after a tick that comes with no Post in flight, and while no Post begins and the loop is not cancelled, fire is called with no Post in flight before the loop waits again, and until then the loop can go on. |
| Typing.WakesToLook | internal/adapter/typing.go:86-94 | Every tick and every token taken is followed by an Idle check before the loop waits again. |
| Typing.TokenHasCause | internal/adapter/typing.go:54-61 | A pending token was sent, and not taken since, by a Post whose end brought the counter to zero. |
| Typing.StoppedWhenCancelled | internal/adapter/typing.go:81-85 | The loop is stopped exactly when it has been cancelled. |
| Typing.FiresDuringPost | internal/adapter/typing.go:86-94 | Every call of fire follows a check that read zero, and happens during a Post if and only if a Post that began after that check has not ended. |
| Typing.FiresDuringPostExample | internal/adapter/typing.go:74-76 | A run in which fire is called during a Post. |
| Typing.StoppedForGood | internal/adapter/typing.go:81-85 | Once cancelled the loop neither looks nor fires again. |

## Left out

- HTTP, JSON decoding, child processes, signals, timers and SSE reconnects are nondeterministic successes, failures and stopping points. The stream theorems speak of the events that reach `route`.
- `GET /message` returns at most 200 messages (`internal/opencode/client.go:112-117`); a list here is whatever it returns.
- Delivery.ExactlyOnce: assumes `Published`, which is about opencode and not about this code; `DeliveryAnyOrder.OnceEach` assumes less, and `Reconcile.ReconcileExact` and `Reconcile.NothingLost` need no such assumption.
- TurnMethod.Invoke: the interleaving of the loop with the reader is in `Stream`; here the events taken, and what the flag read at each, are parameters. `Turn.TurnDelivers` joins the two. Duration, ExitCode and Stdout of the result are left out.
- Turn.FailureNoticed: takes it that an error has a text; `sendMessage` returns status lines and the errors of net/http and encoding/json, none of which is empty (`internal/opencode/client.go:99-177`).
- TurnMethod.ReconcileList: the list is shorter than the largest 64-bit int, as every Go slice is, so that the counter behind made-up keys cannot wrap.
- CoreClass.Core.Work: what other goroutines do during a handler call is a parameter, and a panic in the handler is not modelled. `QueueProtocol` has the interleavings.
- OnMessage.OnMessage: run without interruption; its interleavings with enqueue, shutdown and other calls are the dispatcher steps of `QueueProtocol`.
- QueueTheorems.AtMostOnce: with `PurgeDedupOlderThan` in use it would not hold, since a purged pair is new again; no caller uses it.
- QueueTheorems.SupersessionChains: the record is written or still owed; that appending it can fail is ignored by the code, and a failed append counts as written here.
- QueueDrain.DrainTerminates: takes it that each handler call returns; `AbortInFlight` and the execution contexts are left out.
- ServersClass.Servers.Close: closes the connections one after another; in `ServersProtocol` other calls run in between.
- ServersTheorems.NoLeak: counts the kill steps issued; that SIGTERM and SIGKILL end a process group is not part of this model, nor is the `testConn` path.
- TextChunkMethod.Split: strings.TrimSpace is a parameter, and everything holds whatever it returns, but that `FencedBlockWhole` uses that it returns nothing for an empty line. "The minimum number of pieces" is not claimed: greedy packing does not aim at it.
- Typing.NoLostNudge: one loop per TypingState, as both adapters use it. The counter is unbounded, where the code's has 32 bits. RunTypingLoop is the loop phases of the protocol and not a method, because each of its rounds depends on what runs beside it.
- The vendor pool behind HandleTrigger, context assembly, the transcript and the reply path: opaque steps that return.
- The shutdown sequence of cmd/espur: signal plumbing; only that StopAccepting precedes WaitDrain is used.
- internal/connman, the web UI, secrets, the other tables, and the Discord and WeChat adapters beyond TypingState.
