# AuraChat: a verified model of the chat server

AuraChat is an epoll chat server with a file-backed store and a streaming AI
assistant. This project models its stateful parts in Dafny and proves what they
promise over every run.

The parts, each with its modules:

- **Wire format** (`Wire`, `ClientReceiver`). Packets are a packed 16-byte header
  of four little-endian words and a body. The server's frame loop rejects bad
  headers; the client's loop drops single bytes until it finds the magic word.
- **Reactor thread** (`TimerQueue`, `Reactor`, `ReactorProofs`, `ReactorTheorems`,
  `ReactorDelivery`, `ReactorAddressing`, `ReactorEvents`, `WorkerLoop`). Connections, heartbeat timers,
  the ordered timer set, the context pool, the functor queue, epoll registrations and
  the kernel's descriptor table change together. `Reactor.Step` describes each loop-thread action as a
  function of the state; `WorkerLoop.Worker` is the program text, whose methods
  call back into each other, each proved to perform one of those actions. Actions
  interleave freely with those of other threads, with any clock that does not go
  back and any descriptor the kernel may hand out.
- **File-backed store** (`Store`, `StorePersistence`, `StoreUsers`, `StoreFriends`,
  `StoreAnswers`, `StoreDelivery`, `StoreBatches`, `DbWriter`). Users, friend requests, friend pairs, the message
  log, the submission queue and its batches, and the JSON files that mirror them.
  `Store.Step` gives the commands; `DbWriter.BatchWriter` is the program text.
- **AI streaming** (`AiScheduler`, `AiStream`, `LlamaClient`). The request queue and
  table of active streams, the cutting of streamed text into frames with a local
  fallback, the event-stream line splitter and the JSON escaping of prompts.
- **Small protocols** (`ThreadPool`, `RateLimit`, `Sessions`). Draining the task pool
  at shutdown, the fixed-window rate limit, and the session table in 1024 buckets.

The strongest statements:

- `ReactorTheorems.ClientSeesAcceptedPackets`: in every state any run of the
  reactor can reach, for every connection, every part of its written bytes that
  has got through and every way the client's reads cut it, the client has handed
  on a prefix of the packets the connection accepted, unchanged and in order, and
  all of them once nothing is buffered or in transit.
- `ReactorDelivery.QueueToClient`: of all packets queued for the connection's context
  the accepted ones are those that fitted its buffer when they ran. Unless a close
  was queued the client has a prefix of all queued packets, in queueing order, and all
  of them once queues, buffer and transit are empty; `ReactorAddressing.PacketReachesItsConnection` says when
  that context is still the connection's.
- `ReactorProofs.StepKeepsInv`, `ReactorTheorems.LifecycleInvariant`,
  `ClosedExactlyOnce`, `ContextsAreExclusive`, `HeartbeatNeverTooEarly`,
  `HeartbeatNeverTooLate`: the reactor's tables agree in every run.
- `ReactorEvents.ClosedExactlyWhen`, `OpenedExactlyWhen`, `OthersAreKept`: for every
  event, which connection it closes or opens and why, and that it changes nothing of
  the others.
- `StoreDelivery.OfflineMessagesExactlyOnceInOrder`: per recipient, delivered
  messages followed by stored, batched and queued ones are the messages submitted
  while offline, as sequences.
- `StorePersistence.RestartTransparency`: restarts on quiet queues change no answer
  and no state.

Two places where the repository's documentation says something else than its code:
it calls the timer a timing wheel, while include/timer.h keeps an ordered set; and
it promises a switch to file storage when the database connection is lost, while
src/db_writer.cpp:10-16 decides once, at construction. The model follows the code
and starts in file mode.

What a body, a file, a clock or a socket does outside the program is an input:
message bodies are bytes, password hashes are strings, the results of `read` and
`write`, clock readings, descriptor numbers, container orders and the files that
can be opened for writing are parameters.

## Findings

Where a natural property fails, the code was kept and the exact condition proved, with
an instance unless the failure is already stated for all inputs.

- Accepting a friend request from a negative uid marks it in memory without
  saving; disk then differs from memory. `StorePersistence.AcceptMirrors` gives
  the condition, `NegativeRequesterIsNotSaved` an instance.
- Login marks without a bound, but only if its query found something; it then marks
  whatever is undelivered by then (`StoreDelivery.LoginMarks`). While only logins mark
  and nothing restarts between query and mark, it marks what it sent exactly if it
  sent nothing, or nobody else logged in as the same user and nothing was stored for
  that user in between (`LoginGap`). What was stored is lost (`LoginGapLoses`, instance
  `LoginLosesLateMessage`). Marking up to the last queried id would be precise
  (`MarkIsPrecise`).
- Overlapping logins of one user deliver twice: what a login sends is sent again before
  its mark exactly if another query for the user comes in between
  (`StoreDelivery.SentTwice`, instance `OverlappingLoginsSendTwice`).
- Crossing friend requests can both be accepted, giving two entries
  (`StoreFriends.CrossingRequestsBothAccepted`); two is the most. Entries and
  pending requests of a pair stay at most one exactly as long as no request is entered
  while its reverse is pending (`UniqueUnlessCrossing`); then no entry is doubled
  (`FriendsAreUnique`). An entry is doubled exactly by accepting a request whose pair
  is in the list (`DoubledIffAcceptedTwice`).
- A queued packet names a context, not a connection. When its functor runs, whoever
  has the context then gets it, if there is room for it, and nobody if the context is
  idle. A connection that has the context is the one the packet was queued for exactly
  if the context was not released and acquired again in between
  (`ReactorAddressing.PacketReachesItsConnection`, instance
  `RecycledContextTakesPacket`).
- A poll timeout is cast to `int`; beyond its range the poll can outlast the
  earliest timer (`TimerQueue.SleepsNoLongerThanEarliest`, instance
  `LongHeartbeatOversleeps`).
- A worker's destructor closes its connections but not descriptors that were
  accepted and never added (`ReactorTheorems.ShutdownLeavesOnlyUnadded`, instance
  `AcceptedThenShutDown`).
- A negative rate-limit window switches a positive limit off
  (`RateLimit.NegativeWindowLimitsNothing`).
- Escaped prompts are valid JSON exactly if they hold no control characters other
  than the three that are escaped (`LlamaClient.EscapedIsValidIffPrintable`, instance
  `ControlCharacterBreaksBody`).
- A task pool of no workers drains only if it was given nothing
  (`ThreadPool.NoWorkersNeverDrain`).
- The reactor ignores whether the pool took a frame's task (src/connection.cpp:71-73).
  Every task handed over runs exactly if the queue is never found above its limit
  (`ThreadPool.EveryTaskRunsUnlessFull`); a burst that gets there loses one
  (`BurstLosesTask`).
- The handler's exception on a lost connection is swallowed by the chunk parser
  (include/llama_client.h:148), so a request goes on after its connection is gone and
  sends again if it finds the descriptor open, on completion too.
  `AiStream.SilentAfterLoss` says exactly when the whole request stays silent;
  `TextSentAfterLoss` and `CompletionAfterLoss` are instances.

## Model

| member | source | states |
|---|---|---|
| `Wire.HeaderOfEncoded` | src/worker.cpp:66-69 | the header of an encoded packet, whatever follows it, reads back as magic, exact body length, command and sequence number |
| `Wire.EncodedOfHeader` | include/protocol.h:7-14 | a buffer that starts with a whole frame starts with the encoding of that frame |
| `Wire.BytesOfPacket` | src/worker.cpp:66-69 | the bytes of one packet, written out |
| `Wire.ServerStep` | src/connection.cpp:58-68 | one turn of the server's frame loop consumes at least a header and at most the buffer |
| `Wire.ServerParseComplete` | src/connection.cpp:58-74 | frames within the body limit followed by a residue parse to exactly those frames, that residue and its verdict |
| `Wire.ServerParseSound` | src/connection.cpp:58-74 | every buffer is its parsed frames' encodings plus a residue the loop cannot consume, and the residue decides the verdict |
| `Wire.ServerVerdict` | src/connection.cpp:58-64 | a stream is rejected exactly if what is left has a whole header with a wrong magic word or a length above 65535; otherwise its header or frame is not complete |
| `Wire.ServerResidueBounded` | src/connection.cpp:58-64 | a kept residue is shorter than one maximal frame |
| `Wire.ServerParseAppend` | src/connection.cpp:58-74 | parsing a longer stream continues the parse of the shorter one; a rejection is final |
| `Wire.ServerChunkingIrrelevant` | src/connection.cpp:44-75 | for every stream and every cut into reads, frames, residue and verdict are those of one whole parse |
| `Wire.ClientStep` | chat_client.cpp:336-343 | one turn of the client's loop consumes at least one byte and at most the buffer |
| `Wire.ClientParseConserves` | chat_client.cpp:336-351 | dropped bytes and frames put back together are the input up to the residue |
| `Wire.ClientResidue` | chat_client.cpp:336-343 | what the client keeps is less than a header or the start of an incomplete frame; it breaks down exactly at a length that wraps |
| `Wire.ClientResynchronises` | chat_client.cpp:338-338 | bytes that start no frame are dropped one by one, and decoding goes on as if they had not been there |
| `Wire.ClientFindsPackets` | chat_client.cpp:335-351 | packets behind such bytes are all handed on, for every cut |
| `Wire.NoMagicWithoutFirstByte` | chat_client.cpp:338-338 | bytes other than the first of the magic word start no frame |
| `Wire.StrayByteIsDropped` | chat_client.cpp:338-338 | an instance: a zero byte in front of a packet |
| `Wire.ClientParseAppend` | chat_client.cpp:335-351 | the resynchronising parse of a longer stream continues that of the shorter one |
| `Wire.ClientChunkingIrrelevant` | chat_client.cpp:335-351 | client decoding is the same for every cut of every stream |
| `Wire.ClientParsePrefix` | chat_client.cpp:336-343 | on a prefix of encoded packets the client decodes a prefix of them, drops nothing and keeps only the cut frame |
| `Wire.ServerAndClientAgree` | chat_client.cpp:336-351 | where the server accepts a stream, the client reads the same frames and residue |
| `Wire.ClientReceivesPrefix` | chat_client.cpp:322-353 | any received prefix in any cut yields a prefix of the packets, and all bytes yield all packets |
| `ClientReceiver.Receiver.constructor` | chat_client.cpp:323-324 | the client starts with an empty buffer |
| `ClientReceiver.Receiver.Receive` | chat_client.cpp:335-351 | one receive and its inner loop resume the parse with the new bytes |
| `TimerQueue.Insert` | include/timer.h:27-34 | insertion keeps strict order and all nodes, and adds a node with a new key |
| `TimerQueue.Remove` | include/timer.h:35-40 | erasing removes exactly the node with the key and keeps order |
| `TimerQueue.RemoveFront` | include/timer.h:41-46 | popping the first node is erasing it by key, and erasing it again changes nothing |
| `TimerQueue.NewestGoesLast` | include/timer.h:12-20 | a node that expires no earlier than all others and is newer goes last, so equal expiries fire oldest first |
| `TimerQueue.RemoveInserted` | include/timer.h:27-40 | erasing a node undoes inserting it |
| `TimerQueue.SleepsNoLongerThanEarliest` | include/timer.h:51-55 | the poll ends in time for every node exactly if the remaining time survives the cast to int |
| `TimerQueue.ShortWaitsWake` | include/timer.h:51-55 | remaining times that fit an int never make the poll oversleep |
| `TimerQueue.SleepsUntilEarliest` | include/timer.h:51-55 | the timeout is the time left to the earliest node whenever that fits an int, zero if it is due, endless without nodes |
| `TimerQueue.LongHeartbeatOversleeps` | include/timer.h:51-55 | an instance: a heartbeat of 2147484 seconds makes the poll wait for ever |
| `TimerQueue.Timer.constructor` | include/timer.h:22-22 | no timers, counter zero |
| `TimerQueue.Timer.AddTimer` | include/timer.h:27-34 | the node expires the given time after the tick, carries the next id and is inserted |
| `TimerQueue.Timer.DelTimer` | include/timer.h:35-40 | erases the node with the key if there is one and says so |
| `TimerQueue.Timer.PopDue` | include/timer.h:41-45 | takes the earliest node if due; otherwise no node is due |
| `Reactor.WriteLoop` | src/connection.cpp:78-83 | a write pass takes at most the buffer and counts as flushed exactly if it took all |
| `ReactorProofs.StartKeepsTimers` | src/worker.cpp:85-91 | restarting a heartbeat keeps timer nodes and table in bijection |
| `ReactorProofs.AttachShape` | src/connection.cpp:13-20 | a new connection changes one context: the last free one, or a new one when the pool is empty |
| `ReactorProofs.AcquireKeepsPool` | src/worker.cpp:19-24 | taking a context, pooled or new, keeps free and used indices a partition of the pool |
| `ReactorProofs.ReleaseKeepsPool` | src/worker.cpp:26-30 | so does giving one back |
| `ReactorProofs.AddKeepsBooks` | src/connection.cpp:13-20 | counting a new connection keeps count and accepted, closed and open descriptors balanced |
| `ReactorProofs.CloseKeepsBooks` | src/connection.cpp:112-116 | so does closing one |
| `ReactorProofs.CloseRestoresInv` | src/connection.cpp:101-117 | closing re-establishes the whole invariant even if only the closed connection's streams were in disarray |
| `ReactorProofs.CloseKeepsInv` | src/worker.cpp:73-79 | closing by descriptor keeps the invariant |
| `ReactorProofs.TimerCheckKeepsInv` | include/timer.h:41-50 | a timer check, firing or not, keeps the invariant |
| `ReactorProofs.RunAddKeepsInv` | src/worker.cpp:49-54 | adding a queued descriptor keeps the invariant |
| `ReactorProofs.AcceptKeepsInv` | src/worker.cpp:45-47 | accepting a descriptor that is not open keeps the invariant |
| `ReactorProofs.PushKeepsInv` | src/event_loop.cpp:48-51 | queueing a send or close keeps the invariant |
| `ReactorProofs.SwapKeepsInv` | src/event_loop.cpp:63-66 | swapping the queue out keeps the invariant |
| `ReactorProofs.TaskUpdateKeepsInv` | include/session_manager.h:24-25 | a business task writing to a context in use keeps the invariant |
| `ReactorProofs.SendKeepsInv` | src/connection.cpp:88-99 | sending keeps the invariant |
| `ReactorProofs.WriteKeepsInv` | src/connection.cpp:77-86 | every pattern of partial writes keeps the invariant |
| `ReactorProofs.ReadKeepsInv` | src/connection.cpp:44-75 | every read pass, with its dispatches or its close, keeps the invariant |
| `ReactorProofs.InitEstablishesInv` | src/worker.cpp:8-17 | a new worker satisfies the invariant |
| `ReactorProofs.StepKeepsInv` | src/event_loop.cpp:33-46 | every action of the loop and of other threads keeps the invariant |
| `ReactorProofs.RunKeepsInv` | src/event_loop.cpp:33-46 | every run keeps the invariant |
| `ReactorTheorems.LifecycleInvariant` | src/worker.cpp:49-99 | same descriptors in all tables, timer set equal to the heartbeat table, contexts carry their descriptor, count equals connections |
| `ReactorTheorems.ClosingUndoesOpening` | src/connection.cpp:101-117 | closing undoes opening: tables, timer set, free list and count are as before, the context is reset again or unused |
| `ReactorTheorems.ClosedExactlyOnce` | src/connection.cpp:101-117 | accepts of a descriptor exceed its closes by one while open and equal them otherwise; open means connected or queued, never both |
| `ReactorTheorems.ShutdownLeavesOnlyUnadded` | src/connection.cpp:22-25 | after the destructor the count is zero and only never-added descriptors are open |
| `ReactorTheorems.AcceptedThenShutDown` | src/worker.cpp:40-47 | an instance: a descriptor accepted just before shutdown stays open |
| `ReactorTheorems.ContextsAreExclusive` | src/worker.cpp:19-30 | no shared contexts; free indices distinct, in range, and exactly the pooled contexts not in use |
| `ReactorTheorems.AcquiredContextIsReset` | include/context.h:23-27 | every new connection gets an unused context in reset state; only pooled ones have an owner |
| `ReactorTheorems.HeartbeatNeverTooEarly` | src/worker.cpp:85-91 | a connection closed by its timer had no bytes read for a whole interval |
| `ReactorTheorems.HeartbeatNeverTooLate` | include/timer.h:41-50 | a quiet check leaves no overdue connection; a firing one removes one overdue connection and one node |
| `ReactorTheorems.PollWakesForEveryTimer` | src/worker.cpp:35-36 | with an interval that fits an int no poll outlasts any heartbeat |
| `ReactorTheorems.SendBufferStateMachine` | src/connection.cpp:77-99 | writing iff bytes waiting iff EPOLLOUT requested; the cap holds; written plus waiting bytes encode the accepted packets |
| `ReactorTheorems.AcceptedWholeOrDroppedWhole` | src/connection.cpp:88-99 | a packet is appended whole with an exact length word, or refused whole with a close queued, exactly by the cap |
| `ReactorTheorems.ClientSeesAcceptedPackets` | src/worker.cpp:60-71 | the client hands on a prefix of the accepted packets for every transit and cut, and all when nothing is pending |
| `ReactorTheorems.ClosedConnectionDeliveredPrefix` | src/connection.cpp:101-117 | a closed connection delivered a prefix of what it accepted |
| `ReactorTheorems.ServerDispatchesWholeStreamParse` | src/connection.cpp:58-74 | dispatched frames are those of one parse of all received bytes; the rest is buffered and short |
| `ReactorTheorems.FunctorsAreFifo` | src/event_loop.cpp:48-67 | over any run functors execute in queueing order, each once |
| `ReactorDelivery.AcceptedFollowQueueOrder` | src/worker.cpp:56-71 | while a connection stays, it accepts exactly the packets for its context that fitted when their functors ran, in order; one that did not fit queued a close |
| `ReactorDelivery.AllFitOrRefused` | src/connection.cpp:90-93 | every packet that ran fitted or was refused; the fitting ones keep their order and are all exactly if none was refused |
| `ReactorDelivery.QueuedRunOrWait` | src/event_loop.cpp:48-67 | the packets queued for a context are those that ran, in order, followed by those still waiting |
| `ReactorDelivery.QueueToClient` | src/event_loop.cpp:48-67 | the client hands on a prefix of the queued packets that fitted; unless a close was queued, a prefix of all queued packets, and all of them once queues, buffer and transit are empty |
| `ReactorDelivery.ReadPassDecides` | src/connection.cpp:44-75 | a pass closes exactly if it ends in end of file or an error or one parse of everything received rejects; it dispatches that parse's frames unless it failed; a connection that stays is due an interval after its last bytes |
| `ReactorDelivery.FailedPassCloses` | src/connection.cpp:52-55 | a failed pass closes, counts out and dispatches nothing |
| `ReactorAddressing.StepKeepsOrReleases` | src/worker.cpp:26-30 | through every action a context keeps its connection or is free afterwards |
| `ReactorAddressing.StaysUnlessReacquired` | src/worker.cpp:19-24 | a context in use at the end of a run is its first connection's exactly if it was not acquired again |
| `ReactorAddressing.PacketReachesItsConnection` | src/worker.cpp:56-71 | a queued packet reaches the connection it was queued for exactly if its context was not acquired again before it ran; an idle context drops it, and nobody else gets it |
| `ReactorAddressing.RecycledContextTakesPacket` | src/worker.cpp:60-64 | an instance where another connection gets it |
| `ReactorEvents.WriteLoopDecides` | src/connection.cpp:78-83 | a write loop writes what the socket takes, up to all it has, and breaks exactly if a write fails before that |
| `ReactorEvents.WritePassDecides` | src/connection.cpp:77-86 | a write pass moves the socket's share out of the buffer, closes exactly if a write fails with bytes left, and otherwise keeps EPOLLOUT exactly if bytes are left |
| `ReactorEvents.CheckCloses` | include/timer.h:41-50 | a timer check closes exactly the connection whose heartbeat is due and earliest |
| `ReactorEvents.ClosedExactlyWhen` | src/connection.cpp:35-86 | the events that close a connection, with the exact condition of each |
| `ReactorEvents.OpenedExactlyWhen` | src/worker.cpp:49-54 | a descriptor becomes a connection exactly when its functor runs |
| `ReactorEvents.OthersAreKept` | src/worker.cpp:49-99 | an event that is not about a connection changes nothing of it |
| `ReactorEvents.QueuedExactly` | src/worker.cpp:45-83 | what each event queues: what another thread hands over, or the close of a connection whose packet does not fit |
| `ReactorEvents.TaskWrites` | src/business.cpp:20-24 | a business task's write is what the context holds, buffers untouched |
| `WorkerLoop.Worker.constructor` | src/worker.cpp:8-17 | a worker with a full pool |
| `WorkerLoop.Worker.Acquire` | src/worker.cpp:19-24 | takes the last free context or makes an unpooled one |
| `WorkerLoop.Worker.Release` | src/worker.cpp:26-30 | resets and returns a pooled context, ignores an unpooled one |
| `WorkerLoop.Worker.CancelHeartbeatTimer` | src/worker.cpp:93-99 | removes table entry and node |
| `WorkerLoop.Worker.StartHeartbeatTimer` | src/worker.cpp:85-91 | replaces the heartbeat by one that expires an interval after the tick |
| `WorkerLoop.Worker.Construct` | src/connection.cpp:13-20 | the constructor's effect on pool, context and count |
| `WorkerLoop.Worker.AddConnectionInLoop` | src/worker.cpp:49-54 | performs the opening action |
| `WorkerLoop.Worker.CloseImpl` | src/connection.cpp:105-117 | every table's new value when a connection is torn down |
| `WorkerLoop.Worker.DoForceClose` | src/connection.cpp:101-103 | tears down once; a second call does nothing |
| `WorkerLoop.Worker.Destroy` | src/connection.cpp:22-25 | closes and counts down only what was not closed before |
| `WorkerLoop.Worker.DestroyOne` | src/connection.cpp:22-25 | a connection that leaves the table unclosed is closed and counted out |
| `WorkerLoop.Worker.DestroyConnections` | src/worker.cpp:40-43 | destroying what is left in the table, in any container order, performs the shutdown |
| `WorkerLoop.Worker.ForceCloseInLoop` | src/worker.cpp:73-79 | the chain erase, tear down, destroy performs the closing action |
| `WorkerLoop.Worker.CheckTimer` | include/timer.h:41-50 | pop, callback and nested cancel perform the timer action; firing shrinks the timer set |
| `WorkerLoop.Worker.DrainTimers` | src/worker.cpp:36-36 | the pass terminates, closes only overdue connections and leaves none overdue at its last check |
| `WorkerLoop.Worker.SendOn` | src/connection.cpp:88-99 | all of the packet or none, arming EPOLLOUT on the first |
| `WorkerLoop.Worker.SendPacketInLoop` | src/worker.cpp:60-71 | performs the sending action |
| `WorkerLoop.Worker.EraseSent` | src/connection.cpp:79-80 | moves written bytes out of the buffer |
| `WorkerLoop.Worker.HandleWrite` | src/connection.cpp:77-86 | performs the write action for every pattern of results |
| `WorkerLoop.Worker.BytesReceived` | src/connection.cpp:48-51 | buffers the bytes and restarts the heartbeat |
| `WorkerLoop.Worker.DrainSocket` | src/connection.cpp:46-56 | performs the read loop |
| `WorkerLoop.Worker.DispatchAll` | src/connection.cpp:58-74 | hands on the whole frames of the buffer and reports a rejection |
| `WorkerLoop.CutFrames` | src/connection.cpp:58-74 | the frame loop computes the parse of the buffer |
| `WorkerLoop.Worker.HandleRead` | src/connection.cpp:44-75 | performs the read action |
| `WorkerLoop.Worker.QueueInLoop` | src/event_loop.cpp:48-51 | appends a functor |
| `WorkerLoop.Worker.QueueAddConnection` | src/worker.cpp:45-47 | hands over an accepted descriptor |
| `WorkerLoop.Worker.RunOne` | src/event_loop.cpp:66-66 | performs the action of the oldest functor |
| `WorkerLoop.Worker.DoPendingFunctors` | src/event_loop.cpp:63-67 | runs exactly the functors queued before the swap, in order |
| `Store.Stored` | src/db_writer.cpp:530-533 | a batch gets consecutive ids |
| `Store.FindRequest` | src/db_writer.cpp:281-287 | the first pending request with that id and acceptor |
| `StorePersistence.LoadAfterSave` | src/db_writer.cpp:408-507 | loading after saving gives back every table and counter, whatever was on disk |
| `StorePersistence.SaveRestoresMirror` | src/db_writer.cpp:459-507 | rewriting the one file that is out of date makes disk equal memory |
| `StorePersistence.AcceptMirrors` | src/db_writer.cpp:277-296 | accepting keeps disk equal to memory exactly unless the requester is negative |
| `StorePersistence.NegativeRequesterIsNotSaved` | src/db_writer.cpp:284-288 | an instance where it does not |
| `StorePersistence.StepMirrors` | src/db_writer.cpp:115-401 | every command of the server leaves disk equal to memory |
| `StorePersistence.RunMirrors` | src/db_writer.cpp:408-507 | so does every run |
| `StorePersistence.RestartIsInvisible` | src/db_writer.cpp:408-457 | a restart loses only what was not stored |
| `StorePersistence.RestartTransparency` | src/db_writer.cpp:408-457 | dropping restarts on quiet queues changes neither answers nor state |
| `StorePersistence.GenuineRestartsFindMirror` | src/db_writer.cpp:459-507 | every restart of a run finds the files up to date while the server writes them |
| `StorePersistence.AnswersAreIssuedIds` | src/db_writer.cpp:115-124 | a non-negative answer is the id issued |
| `StorePersistence.IdsNeverReissued` | src/db_writer.cpp:120-121 | over any run with restarts uids, request ids and message ids strictly ascend |
| `StoreUsers.RunKeepsUsers` | src/db_writer.cpp:117-122 | users only grow and never share a name |
| `StoreUsers.VerifyByName` | src/db_writer.cpp:149-154 | the check accepts exactly the stored password hash of that user |
| `StoreUsers.RegisteredUserLogsIn` | src/db_writer.cpp:115-155 | after any later commands and restarts a registered user logs in with its password hash only and gets its uid |
| `StoreAnswers.RunKeepsNumbers` | src/db_writer.cpp:120-252 | uids and request ids strictly ascend along their lists and names stay unique, over any run with restarts |
| `StoreAnswers.EmptyIsNumbered` | include/db_writer.h:69-75 | an empty store satisfies that |
| `StoreAnswers.RegisterDecides` | src/db_writer.cpp:115-125 | a taken name is refused with -2, any other gets the next uid |
| `StoreAnswers.VerifyDecides` | src/db_writer.cpp:149-155 | the uid of the user with this name and hash, or -1 if there is none |
| `StoreAnswers.NameDecides` | src/db_writer.cpp:325-327 | the name of the one user with the uid, or a placeholder |
| `StoreAnswers.AddDecides` | src/db_writer.cpp:239-253 | -2 between friends, -3 for a repeated pending request, else the next id with sender, recipient and message kept |
| `StoreAnswers.AcceptDecides` | src/db_writer.cpp:277-296 | accepting changes exactly the pending request with this id for the acceptor, answers its requester and adds the pair |
| `StoreAnswers.AcceptRefuses` | src/db_writer.cpp:281-288 | without such a request nothing changes and the answer is -1 |
| `StoreAnswers.RequestThenAccept` | src/db_writer.cpp:239-296 | a request entered once can be accepted under its id after any commands and restarts, by its recipient, unless it was before |
| `StoreAnswers.EntryShows` | src/db_writer.cpp:317-330 | a new pair shows at the end of both users' lists and in no other |
| `StoreAnswers.FriendsAnswered` | src/db_writer.cpp:317-331 | the list answered is those friends in order, each with its name |
| `StoreAnswers.UnreadableFilesAreEmpty` | src/db_writer.cpp:411-417 | files that are missing or do not parse are an empty store |
| `StoreAnswers.UnwrittenIsForgotten` | src/db_writer.cpp:459-507 | a run during which no file opens leaves the files as they were |
| `StoreAnswers.OldUsersFile` | src/db_writer.cpp:419-426 | a users file as it stands on disk |
| `StoreAnswers.OldFriendsFile` | src/db_writer.cpp:428-434 | a friends file as it stands on disk |
| `StoreAnswers.OldRequestsFile` | src/db_writer.cpp:436-444 | a requests file, with defaults for message and status |
| `StoreAnswers.OldMessagesFile` | src/db_writer.cpp:446-453 | a messages file, where an absent mark means delivered |
| `StoreFriends.AddKeepsFriends` | src/db_writer.cpp:239-253 | a new request keeps conservation and the bounds |
| `StoreFriends.AcceptKeepsFriends` | src/db_writer.cpp:277-296 | accepting keeps conservation and the bounds |
| `StoreFriends.RunConservesFriends` | src/db_writer.cpp:239-296 | friend entries are the accepted requests' endpoints, one pending request per ordered pair, at most two entries and requests per pair |
| `StoreFriends.RunConservesFriendsAcrossRestarts` | src/db_writer.cpp:239-296 | the same with restarts in the run |
| `StoreFriends.EmptyStoreConserves` | include/db_writer.h:69-75 | an empty store satisfies them |
| `StoreFriends.CrossingRequestsBothAccepted` | src/db_writer.cpp:244-249 | the bound of two is reached |
| `StoreFriends.AddKeepsAtMostOne` | src/db_writer.cpp:244-249 | a request keeps every pair unique exactly if it does not cross a pending one |
| `StoreFriends.StepKeepsAtMostOne` | src/db_writer.cpp:239-296 | so does each command; no other command can break it |
| `StoreFriends.UniqueUnlessCrossing` | src/db_writer.cpp:239-296 | over any run pairs stay unique all the way exactly if no request is entered while its reverse is pending |
| `StoreFriends.FriendsAreUnique` | src/db_writer.cpp:290-292 | then no pair is in the friend list twice |
| `StoreFriends.StepKeepsNoDoubles` | src/db_writer.cpp:277-296 | a command leaves no doubled entry exactly if there was none and it accepts no pair that is in the list |
| `StoreFriends.DoubledIffAcceptedTwice` | src/db_writer.cpp:277-296 | the same over any run, restarts included |
| `StoreFriends.RunGrowsRequests` | src/db_writer.cpp:281-287 | requests keep their place and content, and status moves only from pending to accepted |
| `StoreFriends.FriendsAreSymmetric` | src/db_writer.cpp:316-330 | the friend relation is symmetric with multiplicity |
| `StoreDelivery.StoredKeepsEnvelopes` | src/db_writer.cpp:530-533 | storing a batch changes nothing but ids |
| `StoreDelivery.MarkAllEmpties` | src/db_writer.cpp:394-401 | marking everything of one user leaves others untouched |
| `StoreDelivery.StepKeepsIds` | src/db_writer.cpp:531-532 | ids strictly ascend along the log |
| `StoreDelivery.StepBalances` | src/business.cpp:43-60 | each command balances owed, submitted and delivered messages |
| `StoreDelivery.DeliveredIsAnswered` | src/business.cpp:44-57 | what a login hands on is the query's result |
| `StoreDelivery.OfflineMessagesExactlyOnceInOrder` | src/db_writer.cpp:517-535 | owed plus submitted equals delivered plus still owed, as sequences, over every run, restarts on quiet queues included |
| `StoreDelivery.FromEmptyStore` | src/business.cpp:116-122 | delivered, stored, batched and queued messages are the submitted ones in order |
| `StoreDelivery.ExactlyOnceAcrossRestarts` | src/db_writer.cpp:408-457 | the same for a server started in an empty directory and restarted whenever its queue is empty |
| `StoreDelivery.MarkIsPrecise` | src/db_writer.cpp:394-401 | marking up to the last queried id changes exactly the queried entries after any flushes and other users' commands, and leaves what came later to query |
| `StoreDelivery.MarkChanges` | src/db_writer.cpp:397-398 | a mark changes exactly the recipient's undelivered entries up to the id |
| `StoreDelivery.LoginMarks` | src/business.cpp:44-58 | whatever happens between query and mark, login marks nothing if it sent nothing and otherwise all that is undelivered by then |
| `StoreDelivery.LoginGap` | src/business.cpp:44-58 | it marks exactly what it sent if and only if it sent nothing, or nobody logged in as the user and nothing was stored for it in the gap |
| `StoreDelivery.SentTwice` | src/business.cpp:44-57 | what it sent goes out again before the mark exactly if there is another query for the user |
| `StoreDelivery.OverlappingLoginsSendTwice` | src/business.cpp:44-58 | an instance of that |
| `StoreDelivery.LoginGapLoses` | src/business.cpp:44-58 | owed plus submitted is what logins in the gap delivered or else what was sent, plus what was lost, plus what is still owed; lost is what came late if anything was sent |
| `StoreDelivery.LoginLosesLateMessage` | src/business.cpp:44-58 | an instance that loses a message |
| `StoreBatches.TakeDecides` | src/db_writer.cpp:522-525 | with no batch in hand the writer takes the oldest hundred submissions, or all |
| `StoreBatches.WriteDecides` | src/db_writer.cpp:527-534 | storing appends the batch with consecutive ids and forgets it |
| `StoreBatches.RoundsStoreOldest` | src/db_writer.cpp:517-535 | after n rounds the oldest hundred times n submissions are in the log, in order, and the rest waits |
| `StoreBatches.EnoughRoundsStoreAll` | src/db_writer.cpp:517-535 | enough rounds store everything |
| `StoreBatches.NoMessageIsLost` | src/db_writer.cpp:25-28 | log, batch and queue are all messages ever sent, online or not, in order and unaltered |
| `DbWriter.BuildArray` | src/db_writer.cpp:462-466 | the array written holds every entry in order |
| `DbWriter.ReadArray` | src/db_writer.cpp:422-426 | the loop reads every entry or fails as a whole |
| `DbWriter.BatchWriter.constructor` | include/db_writer.h:69-75 | empty tables before the files are read |
| `DbWriter.BatchWriter.LoadFileData` | src/db_writer.cpp:408-457 | reads all tables and counters from the files, or fails when one does not convert |
| `DbWriter.BatchWriter.Start` | src/db_writer.cpp:10-16 | a store that holds what the files hold, or none when one does not convert |
| `DbWriter.BatchWriter.SaveUsersFile` | src/db_writer.cpp:459-471 | rewrites the users file if it opens |
| `DbWriter.BatchWriter.SaveFriendsFile` | src/db_writer.cpp:473-481 | rewrites the friends file if it opens |
| `DbWriter.BatchWriter.SaveFriendReqsFile` | src/db_writer.cpp:483-494 | rewrites the requests file if it opens |
| `DbWriter.BatchWriter.SaveMessagesFile` | src/db_writer.cpp:496-507 | rewrites the messages file if it opens |
| `DbWriter.BatchWriter.RegisterUser` | src/db_writer.cpp:116-125 | performs the register command |
| `DbWriter.BatchWriter.VerifyLogin` | src/db_writer.cpp:149-155 | answers the password check |
| `DbWriter.BatchWriter.LookUpName` | src/db_writer.cpp:325-327 | the username or a placeholder |
| `DbWriter.BatchWriter.AddFriendRequest` | src/db_writer.cpp:240-253 | performs the request command |
| `DbWriter.BatchWriter.AcceptFriendRequest` | src/db_writer.cpp:278-296 | performs the accept command |
| `DbWriter.BatchWriter.GetFriends` | src/db_writer.cpp:317-331 | lists the other ends of the user's pairs with names |
| `DbWriter.BatchWriter.QueryOfflineMessages` | src/db_writer.cpp:173-188 | lists the undelivered messages in log order |
| `DbWriter.BatchWriter.MarkDelivered` | src/db_writer.cpp:395-401 | performs the mark command |
| `DbWriter.BatchWriter.DeliverAtLogin` | src/business.cpp:43-60 | performs login's delivery |
| `DbWriter.BatchWriter.Submit` | src/db_writer.cpp:25-28 | appends to the queue |
| `DbWriter.BatchWriter.TakeBatch` | src/db_writer.cpp:522-525 | takes the oldest submissions, at most one hundred |
| `DbWriter.BatchWriter.WriteBatch` | src/db_writer.cpp:527-534 | gives ids, appends, saves and clears the batch |
| `AiScheduler.StepKeepsInv` | src/ai_manager.cpp:46-117 | every submit, cancel, scheduling turn and ending keeps conservation and the bounds |
| `AiScheduler.SchedulerConserves` | src/ai_manager.cpp:67-117 | over any interleaving requests leave in acceptance order, once each; active and pending stay bounded; timeouts are real |
| `AiScheduler.SubmitDecides` | src/ai_manager.cpp:31-62 | a request is taken exactly if its context has an owner and an idle descriptor and at most a thousand wait; it goes to the end |
| `AiScheduler.ScheduleDecides` | src/ai_manager.cpp:90-104 | with room the oldest request leaves: timed out exactly from thirty-one seconds on, else dispatched exactly with a descriptor, where it then streams |
| `AiScheduler.FatesFollowTurns` | src/ai_manager.cpp:79-117 | over any run each turn with room takes one request in order, and its clock and descriptor alone decide its fate |
| `AiScheduler.TurnsTakeOldest` | src/ai_manager.cpp:90-92 | while the table has room, as many of the oldest requests leave as there are turns |
| `AiScheduler.CancelRemovesUser` | src/ai_manager.cpp:67-77 | exactly the user's entries go, nothing else changes |
| `AiScheduler.FinishRemovesDescriptor` | src/ai_manager.cpp:197-201 | exactly the descriptor's entry goes, nothing else changes |
| `AiScheduler.StreamsUntilDisturbed` | src/ai_manager.cpp:67-104 | a dispatched request streams until its user cancels, its stream ends or another is dispatched on its descriptor |
| `AiScheduler.InitConserves` | include/ai_manager.h:35-36 | an empty scheduler satisfies them |
| `AiScheduler.Manager.constructor` | src/ai_manager.cpp:15-22 | starts empty |
| `AiScheduler.Manager.SubmitStreamRequest` | src/ai_manager.cpp:31-65 | performs the submit action |
| `AiScheduler.Manager.CancelRequest` | src/ai_manager.cpp:67-77 | removes exactly the user's entries |
| `AiScheduler.Manager.ScheduleOnce` | src/ai_manager.cpp:90-104 | performs one scheduling turn |
| `AiScheduler.Manager.FinishStream` | src/ai_manager.cpp:197-201 | frees the descriptor's entry |
| `AiStream.HandleDeltas` | src/ai_manager.cpp:145-167 | flushed frames and buffer together are the streamed text; frames numbered without gaps; the buffer stays small on an open connection |
| `AiStream.FlushedInTime` | src/ai_manager.cpp:145-167 | text is sent exactly if the connection is there and it makes fifty bytes, waited eighty milliseconds or ends a line; as one frame, and the clock starts anew |
| `AiStream.SilentIffNeverDue` | src/ai_manager.cpp:145-167 | lost connection or not, the handler sends no more frames exactly if no piece of text finds the connection open and the buffer due |
| `AiStream.TextSentAfterLoss` | src/ai_manager.cpp:145-167 | an instance: text sent after the connection was lost |
| `AiStream.SendFallback` | src/ai_manager.cpp:186-195 | sends the fallback piece by piece |
| `AiStream.FallbackIsComplete` | src/ai_manager.cpp:188-193 | on an open connection the pieces add up to the text and the final one is last |
| `AiStream.FallbackPieceSizes` | src/ai_manager.cpp:188-190 | pieces are fifteen bytes, the final one at most that |
| `AiStream.FallbackStaysNumbered` | src/ai_manager.cpp:188-193 | numbering has no gaps even if the connection comes and goes |
| `AiStream.SilentAfterLoss` | src/ai_manager.cpp:143-195 | after text that found the connection lost, the whole request sends nothing more exactly if no later text finds it open with the buffer due and it does not complete on an open descriptor |
| `AiStream.CompletionAfterLoss` | src/ai_manager.cpp:168-175 | an instance: text sent on completion after the loss |
| `AiStream.ProcessStream` | src/ai_manager.cpp:119-195 | success delivers the whole text, failure a flushed prefix missing under fifty bytes and then the whole fallback; at most one last frame, at the end |
| `LlamaClient.SplitConserves` | include/llama_client.h:116-119 | lines and rest put back together are the text |
| `LlamaClient.SplitCutsEverywhere` | include/llama_client.h:116-119 | no line and no carried rest holds a line feed |
| `LlamaClient.SplitAppend` | include/llama_client.h:114-119 | splitting more text continues with the carried rest |
| `LlamaClient.StreamContext.WriteCallback` | include/llama_client.h:110-129 | a callback hands on the payloads of its complete lines and carries the rest |
| `LlamaClient.PayloadMeaning` | include/llama_client.h:120-126 | a payload is what stands between the prefix and the end of the line, an optional carriage return included, unless it is the end marker |
| `LlamaClient.StreamIgnoresChunking` | include/llama_client.h:110-129 | payloads do not depend on how the response is cut into callbacks |
| `LlamaClient.EventsArrive` | include/llama_client.h:110-129 | events written by a service arrive in order and unchanged, for every cut and either line ending |
| `LlamaClient.EscapeLoop` | include/llama_client.h:153-166 | the loop computes the escaped string |
| `LlamaClient.EscapeRoundTrip` | include/llama_client.h:153-166 | decoding an escaped string gives it back, for every string |
| `LlamaClient.EscapeLeavesPlainText` | include/llama_client.h:153-166 | text without the five special characters is unchanged |
| `LlamaClient.EscapeOfSpecials` | include/llama_client.h:153-166 | what each of the five becomes |
| `LlamaClient.ScannerStopsAtClosingQuote` | include/llama_client.h:61-64 | a scanner stops exactly at the closing quote |
| `LlamaClient.EscapedIsValidIffPrintable` | include/llama_client.h:153-166 | the result is valid JSON exactly without other control characters |
| `LlamaClient.ControlCharacterBreaksBody` | include/llama_client.h:153-166 | an instance: a prompt of one control character |
| `ThreadPool.StepKeepsInv` | include/thread_pool.h:14-37 | every step of any thread keeps the task books |
| `ThreadPool.StartedInOrder` | include/thread_pool.h:20-20 | tasks start in acceptance order and the queue stays bounded |
| `ThreadPool.DrainedAtShutdown` | include/thread_pool.h:27-31 | when all workers returned nothing is queued and every accepted task ran exactly once |
| `ThreadPool.EveryTaskRunsUnlessFull` | src/connection.cpp:70-73 | at shutdown what ran and what was refused is what was handed over; all of it ran, in order, exactly if the queue was never found above its limit |
| `ThreadPool.BurstLosesTask` | include/thread_pool.h:32-34 | an instance for every running pool: a burst to two above the limit loses its last task |
| `ThreadPool.NoWorkersNeverDrain` | include/thread_pool.h:11-12 | a pool without workers drains only if given nothing |
| `ThreadPool.ShutdownMakesProgress` | include/thread_pool.h:18-22 | after the stop some worker can always move until all returned |
| `ThreadPool.WorkerStepsUseUpWork` | include/thread_pool.h:18-22 | worker steps use up remaining work, so shutdown ends |
| `RateLimit.Limiter.constructor` | include/context.h:20-21 | no window, nothing counted |
| `RateLimit.Limiter.Check` | src/business.cpp:17-24 | performs one admission |
| `RateLimit.BoundInWindow` | src/business.cpp:20-24 | at most the limit passes within one window |
| `RateLimit.RateLimitBound` | src/business.cpp:16-33 | in any interval at most the limit times the full windows in it plus two passes |
| `RateLimit.PassesIffBelowLimit` | src/business.cpp:16-33 | a CHAT passes exactly if fewer CHATs than the limit came before it in its window, the window being defined by the times alone |
| `RateLimit.OneWindowPassesLimit` | src/business.cpp:20-24 | in one window everything passes until the limit is reached |
| `RateLimit.AcceptedArePassed` | src/business.cpp:20-24 | the numbers bounded are the numbers of these verdicts |
| `RateLimit.NegativeWindowLimitsNothing` | src/business.cpp:19-24 | a negative window lets everything through |
| `Sessions.SectionAgrees` | include/session_manager.h:14-42 | a critical section on the split table answers and changes as on a flat map |
| `Sessions.ShardedIsFlat` | include/session_manager.h:14-50 | however the sections of all threads interleave, all answers are those of a flat map |
| `Sessions.EmptyTableAgrees` | include/session_manager.h:49-49 | empty buckets are an empty map |
| `Sessions.SessionManager.constructor` | include/session_manager.h:49-49 | nobody is bound |
| `Sessions.SessionManager.Bind` | include/session_manager.h:14-28 | binds the user, marks the context and queues the close of an old open session |
| `Sessions.SessionManager.Unbind` | include/session_manager.h:30-35 | removes exactly that user |
| `Sessions.SessionManager.Get` | include/session_manager.h:37-42 | the user's session or none |

## Left out

- MySQL branches, SQL text, protobuf, curl, logging, sockets and epoll calls: bodies are bytes, their results inputs.
- JSON text: files hold trees; number widths, text encoding and files of shapes the program never writes are not modelled.
- Failing or partial file writes beyond a file that cannot be opened.
- Integer overflow of uids, request ids, message ids, timer ids and counters; the offline theorem asks that message ids fit an int.
- `search_users`, `get_pending_requests` and `get_username`: these read-only listings are not modelled.
- What a close does to the session table, the cancelling of AI requests on close, and which login stays bound.
- Contexts and connections as heap objects: a context is a cell named by its index, a connection a record; sharing is sharing the index. Update in place is modelled, pointer aliasing is not.
- Pool tasks that touch a context after its release, and events for a connection that closed itself in the same dispatch.
- Which connection a close queued by descriptor number hits after the number was reused.
- One clock reading per read or added connection stands for the two the program takes.
- Frames buffered in a read pass that ends in end of file: they are dropped, and the model says only that a prefix was dispatched.
- The client's console, waits and heartbeat thread; the loop after a length word that wraps is undefined in the program and only marked as such.
- Data races of the rate limiter: its steps are taken one after the other.
- Flushing the queue at shutdown, a bound on concurrently running AI tasks, the wording of fallback texts, hash strength and configuration parsing.
- AiScheduler.Manager.CancelRequest: states the table entry by entry, and takes the container's order as an input.
