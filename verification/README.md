# Ownership, cancellation and buffers of the NNG bindings

This project models the two Rust bindings to NNG in this repository, `anng` (futures) and `nng`
(callbacks), and proves what they rest on: that a message handed between the program, an `nng_aio`, NNG
and a recovery stash is never lost, duplicated or freed under somebody's feet, whatever the interleaving
of NNG's threads with dropped futures; what that means for request/reply and survey sessions; and the
laws of the `Message` buffer, the error conversions and the URL text forms.

`dafny verify dfyconfig.toml` checks everything.

## How it is built

- `Endpoints.dfy` is the cancellation-safe protocol of one `anng` endpoint as a machine: one `Aio`, the
  `recovered_msg` beside it, the `Notify` permit, and NNG's side of the operation. Each step of the code,
  of NNG's threads, of the tokio runtime and of dropping a future is a label. Every `unreachable!`,
  failing `expect` and failing `debug_assert` on these paths is a transition to `Panicked`, the arms of
  `try_recv_msg` for results it does not foresee included.
- `EndpointRuns.dfy` states the properties of all runs of one endpoint, `Fleet.dfy` those of any number
  of endpoints sharing one program, one NNG and one heap, `Requesters.dfy` and `Repliers.dfy` those of
  protocol sessions.
- `Contexts.dfy` and `Protocols.dfy` are the same code as objects: fields that methods update, with NNG
  interfering between any two steps. The object keeps, as a ghost, the run of labels it has taken, and
  its invariant says that replaying this run gives exactly its fields. So each method is proved to be a
  path of the machine, and the theorems about runs hold of it.
- `SharedAio.dfy` is the callback AIO of `nng`: the four-state word, any number of threads and handles,
  callbacks that restart operations. `LastDrop.dfy` is its end: whether the drop of the last handle
  returns, and which message it leaves behind.
- `Buffers.dfy`, `Growth.dfy` and `Messages.dfy` are the `Message` buffer: what each operation does,
  what holds over runs, the cost of growing, and the class whose methods do it in place.
- `Urls.dfy`, `Decimals.dfy` and `Errors.dfy` are the text forms of addresses and the error tables.

## What NNG and the runtime are assumed to do

NNG is an environment that may do anything these contracts allow.

- A started operation completes at any time, with success or any error. Cancelling and waiting ends with
  the operation completed and its callback returned; the callback is called once per operation.
- A successful send takes the message; the pointer in the `nng_aio` may stay behind or be cleared. A failed
  send leaves message and pointer alone. A successful receive takes the oldest queued message into the
  slot; a failed one changes nothing.
- The operation of a future that the program keeps completes in the end. Whether it keeps it is the
  parameter `kept` of the methods of `Contexts.dfy` and `Protocols.dfy` that wait.
- A non-blocking receive returns any code, and takes a message only on success.
- NNG may discard what it has queued for an endpoint. It does so when it accepts a new request or survey;
  answers arrive only for the current request and while its window is open; a receive reports
  `ETIMEDOUT` or `ESTATE` only when the window is closed and nothing of it is queued.
- NNG routes a reply to the request it handed out last, and accepting a reply uses that up.
- `Notify` holds at most one permit. Dropping a `Notified` that was already picked gives the permit back.
- Atomic accesses are sequentially consistent steps.
- `nng_aio_stop` returns when no operation runs and no callback is executing.
- `nng_msg_reserve` does nothing when the capacity suffices and otherwise sets it exactly.

## Where the code and its documentation differ

- `request` documents that an incoming reply to a dropped reply future is discarded
  (`anng/src/protocols/reqrep0.rs:283-285`). A reply that wins the race against the drop is stashed, and
  since sending does not clear the stash, the next request's reply future returns it. The same holds for
  surveys, whose late responses are documented as discarded (`anng/src/protocols/survey0.rs:217-218`).
  `Requesters.DroppedReplyAnswersNextRequest` builds that run, `Requesters.FirstReplyIsOwnIffStashWasEmpty`
  says exactly when the first reply is the right one.
- `SurveyResponses::next` ends on `ETIMEDOUT` and `ESTATE`, `try_next` only on `ESTATE`.
- The abstract socket encoding writes `%` literally, so it can be decoded exactly for names without that
  byte: `Urls.PercentRoundTrip`, `Urls.PercentCollision`.
- The growth rule is described as going to the next power of two of the capacity. A capacity that already
  is a power of two is its own next power of two, so it may grow by a single byte; the amortised bound
  still holds: `Growth.PowerOfTwoMayGrowByOne`, `Growth.TwoPerClass`, `Growth.AmortisedGrowth`.
- Converting an error to `io::Error` calls `EINTR` impossible. The other two `unreachable!` arms are
  unreachable by construction; this one rests on NNG alone: `Errors.OnlyInterruptIsUnreachable`.
- `truncate_front` moves the read cursor with the data, `prepend` does not:
  `Buffers.PrependShiftsUnderTheCursor` says what a reader then sees, and
  `Buffers.PrependIsSeenIffNothingWasRead` that it is the new bytes only at the start of the body.
- `try_recv_msg` calls all results but five impossible. Which they are, and that a run panics exactly on
  one of the others, is `EndpointRuns.PanicsIffUnforeseen`; that they do not occur rests on NNG.
- `ErrorKind::from_nng_err` keeps of a system error only its `io::ErrorKind`, so two codes of one kind
  (EPERM and EACCES, for example) become one error: `Errors.ReadBackIffNoKindIsShared`,
  `Errors.PermissionErrorsCollide`.
- A comment in `Inner::drop` says a callback that has started just returns when the last handle is gone.
  That is so for a callback that has not taken its own handle yet. When the last handle is dropped inside
  the user callback, the drop waits for that very callback. `LastDrop.DropInsideCallbackHappens` is a run
  that gets there (the program sleeps and drops its handle, then the callback drops its own), and
  `LastDrop.DropReturnsIffOutsideCallback` says that a drop can return exactly outside a callback.

## Model

| member | source | states |
|---|---|---|
| Endpoints.StepInv | anng/src/aio.rs:99-282 | every step of the future, of NNG and of dropping the future keeps the invariant: permit, callback count, flag, slot pointer, real owner, stash and the log agree with the program counter |
| Endpoints.NngKeepsControl | anng/src/aio.rs:421-427 | arrivals, completions and callbacks keep the permit and the callback count in step with the phase; the permit goes to a parked waiter or is stored |
| Endpoints.FutureKeepsControl | anng/src/aio.rs:105-137 | the code's steps, the drop at the await included, leave exactly one notification to eat while an operation runs and none when it is over |
| Endpoints.NngKeepsStorage | anng/src/aio.rs:139-166 | a completion racing anything leaves slot pointer and real owner as the kind of operation and its result say |
| Endpoints.FutureKeepsStorage | anng/src/aio.rs:224-282 | `set_message`, `take_message` and the cancel table never leave a flag, pointer or owned message in an AIO that no operation uses |
| Endpoints.StepMoves | anng/src/context.rs:112-216 | how each step moves the stash, the AIO slot and NNG's queue, and that no other step touches them; the stash is empty whenever the guard fills it |
| Endpoints.StepRefinesQueue | anng/src/context.rs:112-216 | forward simulation of an atomic queue: a step appends the arriving message, takes the head, lets NNG cut off its tail, or changes nothing visible |
| Endpoints.StepPanicsIffUnforeseen | anng/src/context.rs:127-162 | from the invariant a step panics if and only if it is a try-receive that finds the stash empty and gets a result its match declares impossible; no other `unreachable!`, `expect` or assertion can be hit |
| EndpointRuns.ExecInv | anng/src/aio.rs:99-282 | the invariant holds after every run |
| EndpointRuns.ReceiveIsAQueue | anng/src/context.rs:112-216 | in every run of arrivals, receives, try-receives, sends, dropped futures and races, arrivals == deliveries ++ stash ++ slot ++ NNG queue |
| EndpointRuns.StashPersists | anng/src/context.rs:194-196 | the stash is never overwritten; only a receive or dropping the endpoint empties it |
| EndpointRuns.NextReceiveReturnsStash | anng/src/context.rs:165-171 | whatever happens in between, the next receive returns the stashed message and starts no NNG operation |
| EndpointRuns.PanicsIffUnforeseen | anng/src/aio.rs:127-137 | a run ends in a panic if and only if one of its try-receives found the stash empty and got a result that `try_recv_msg` declares impossible; so none reaches an `unreachable!`, failing `expect` or assertion of `wait`, its guards, `set_message`, `send_msg` or `recv_msg` |
| EndpointRuns.IdleBetweenCalls | anng/src/aio.rs:91-98 | between calls, and after a panic too, there is no permit, flag, pointer, owned message or running operation |
| EndpointRuns.FlagMatchesKind | anng/src/aio.rs:139-166 | while an operation is in progress `msg_was_set` holds exactly for a send, NNG works on that kind, and at most one callback is outstanding |
| EndpointRuns.AwaitEndsAfterOwnCallback | anng/src/aio.rs:171-194 | both ways out of the await are passed only after the callback of that very operation |
| EndpointRuns.CancelTableFollowsKind | anng/src/aio.rs:139-166 | deciding by the flag is deciding by the kind of operation, in all four cases, with the message where the kind wants it |
| EndpointRuns.TowardsDescends | anng/src/aio.rs:106-137 | in every busy state some step brings the operation closer to its end |
| EndpointRuns.CanAlwaysFinish | anng/src/aio.rs:91-98 | no deadlock: every run that has neither panicked nor closed the endpoint can be continued to one that ends the operation and leaves the endpoint idle |
| Fleet.StepConserves | anng/src/aio.rs:99-282 | a step of one endpoint neither creates, loses nor duplicates a message, counting what crosses its boundary by the pointer the code really uses |
| Fleet.OnlyDroppedFailedSendsAreFreed | anng/src/aio.rs:139-166 | but for closing and NNG's own discards, a step frees a message if and only if it ends a failed send whose future was dropped, and it frees that send's message; cancelling a receive frees nothing |
| Fleet.ClosingAndDiscardsFree | anng/src/context.rs:71-76 | closing frees exactly the stash and the queue, a discard exactly the queue |
| Fleet.OnlyReturnsReachTheUser | anng/src/context.rs:88-216 | the program gets a message exactly from a receive that returns it or back from a failed send, and NNG gets one exactly by a successful send |
| Fleet.HistoryInv | anng/src/aio.rs:99-282 | over every history of any number of endpoints each message that exists is counted once over all places |
| Fleet.ExactlyOnePlace | anng/src/aio.rs:99-282 | each message has exactly one owner among program, one AIO, one stash, one NNG queue, NNG and freed; never an AIO that is idle or gone |
| Fleet.UnbornIsNowhere | anng/src/message.rs:189-197 | a message is in no place before it is created or received |
| Requesters.SessionKeeps | anng/src/protocols/reqrep0.rs:342-367 | over every session the accepted answers belong to the current request except at most the first, and exactly if the stash was full |
| Requesters.FirstReplyIsOwnIffStashWasEmpty | anng/src/protocols/reqrep0.rs:342-367 | the first message received after a request was accepted answers that request if and only if the stash was empty then |
| Requesters.StreamYieldsAnswersInOrder | anng/src/protocols/survey0.rs:353-379 | from an empty stash, received answers followed by the backlog are exactly what NNG accepted for this survey, in order and once each, despite dropped `next` futures |
| Requesters.EndOfStreamIsFinal | anng/src/protocols/survey0.rs:353-406 | after any step that reports the end to the caller, no receive yields a message until another survey is accepted |
| Requesters.EndsAreTheStreams | anng/src/protocols/survey0.rs:364-400 | the results that end the stream here are those for which the code of `next` and of `try_next` answers with the end |
| Requesters.StreamCanEnd | anng/src/protocols/survey0.rs:364-368 | a reachable session in which a survey was accepted and its stream has reported the end |
| Requesters.DroppedReplyAnswersNextRequest | anng/src/protocols/reqrep0.rs:283-285 | counterexample to the documented discard: for any two requests a reachable session whose second reply future returns the reply to the first |
| Requesters.RequestSucceeds | anng/src/protocols/reqrep0.rs:342-356 | from every resting state a request can be sent with success; its stash is not cleared |
| Requesters.ReplyRacesDrop | anng/src/protocols/reqrep0.rs:359-364 | a reply that arrives before the reply future is dropped ends up in the stash |
| Repliers.SessionKeeps | anng/src/protocols/reqrep0.rs:514-545 | over every session the request somebody on this side holds and has not answered is the one NNG routes to |
| Repliers.AtMostOneReplyAndToItsRequest | anng/src/protocols/reqrep0.rs:668-683 | over any session each request gets at most one successful reply, routed to the request whose responder was used, which a receive had returned |
| Repliers.FailedReplyGivesResponderBack | anng/src/protocols/reqrep0.rs:673-682 | a failed reply returns its responder, whose request NNG still expects an answer to, and any message may be sent again; a successful one uses it up |
| Repliers.DroppedReplyUsesResponderUp | anng/src/protocols/reqrep0.rs:668-672 | dropping a reply uses the responder up, whatever became of the message |
| Repliers.ReceiveGivesResponder | anng/src/protocols/reqrep0.rs:514-545 | a receive that returns a request returns a usable responder for it, and any other receive none |
| Repliers.AcceptedReplyIsRouted | anng/src/protocols/reqrep0.rs:673-678 | what NNG routes is the message of the running reply, to the pending request, and only when it accepts it |
| Repliers.ResponderIsLive | anng/src/protocols/reqrep0.rs:668-683 | a responder the program holds is still good: its request is pending in NNG and unanswered |
| Repliers.DroppedReceiveIsResumed | anng/src/protocols/reqrep0.rs:514-545 | a request captured by a dropped `receive` is what the next `receive` or `try_receive` returns, still pending, without another NNG receive |
| Contexts.ContextfulSocket.SetMessage | anng/src/aio.rs:224-255 | needs the slot empty when the flag is unset, as the debug assertion says; stores the message, sets the flag, and returns the old pointer only if the flag was set |
| Contexts.ContextfulSocket.TakeMessage | anng/src/aio.rs:259-282 | empties the slot and clears the flag exactly when there was a message |
| Contexts.ContextfulSocket.NngCallsBack | anng/src/aio.rs:421-427 | a registered waiter is woken and no permit stored; without one the permit is stored |
| Contexts.ContextfulSocket.NngSends | anng/src/context.rs:97 | success takes the message, with or without a stale pointer and a discarded queue; failure leaves message, pointer and queue alone; both are a step of the machine |
| Contexts.ContextfulSocket.NngReceives | anng/src/context.rs:175 | success moves the oldest queued message into the slot; failure changes neither slot nor queue |
| Contexts.ContextfulSocket.NngAioWait | anng/src/aio.rs:114 | after the wait nothing runs and no callback is executing; stash, flag and deliveries are as before |
| Contexts.ContextfulSocket.PollNotified | anng/src/aio.rs:171-176 | the first poll is ready exactly if a permit was stored, which it takes; otherwise it registers the waiter |
| Contexts.ContextfulSocket.NngWakes | anng/src/aio.rs:421-427 | when the operation of a suspended future completes, its callback wakes the waiter |
| Contexts.ContextfulSocket.PollWokenWaiter | anng/src/aio.rs:175 | polling a woken waiter ends the await and stores no permit |
| Contexts.ContextfulSocket.DropNotified | anng/src/aio.rs:105-111 | dropping a waiter that was already picked gives the permit back, and keeps a stored one |
| Contexts.ContextfulSocket.Await | anng/src/aio.rs:171-177 | the await ends notified or dropped, whatever NNG does meanwhile, with stash and deliveries untouched; a future that is kept is notified |
| Contexts.ContextfulSocket.Decide | anng/src/aio.rs:139-166 | the match on flag and result is the cancel step of the machine; stash and deliveries stay |
| Contexts.ContextfulSocket.EatNotification | anng/src/aio.rs:121-137 | the fresh `Notified` is ready in every execution; afterwards no permit is left |
| Contexts.ContextfulSocket.CancelWait | anng/src/aio.rs:104-168 | the guard of `wait` ends with the operation over, the stash and deliveries untouched, and nothing owned after a send |
| Contexts.ContextfulSocket.Settle | anng/src/aio.rs:182-221 | after the notification `wait` returns NNG's result of this operation; a sent message has left the slot |
| Contexts.ContextfulSocket.Wait | anng/src/aio.rs:99-221 | `wait` returns, or is dropped, only with the AIO no longer busy, along a path of the machine; a future that is kept returns the result |
| Contexts.ContextfulSocket.StageMessage | anng/src/context.rs:93 | `set_message` inside `send_msg` returns None in every execution, and the AIO owns the message |
| Contexts.ContextfulSocket.StartStaged | anng/src/context.rs:97 | the send starts with the AIO owning the staged message |
| Contexts.ContextfulSocket.SendSucceeds | anng/src/context.rs:100-101 | after success the future returns with stash and deliveries as before |
| Contexts.ContextfulSocket.SendFails | anng/src/context.rs:102-108 | the `expect` on `take_message` succeeds and yields the message the AIO owns |
| Contexts.ContextfulSocket.SendMsg | anng/src/context.rs:88-110 | a failed send gives the same message and error back, a dropped one leaves the AIO idle, one that is kept is never dropped, and the stash and deliveries stay as they were |
| Contexts.ContextfulSocket.TakeStash | anng/src/context.rs:168-171 | a stashed message is the next delivery; queue and AIO are not touched |
| Contexts.ContextfulSocket.StartReceive | anng/src/context.rs:173-175 | a receive starts only with an empty stash |
| Contexts.ContextfulSocket.ReceiveFails | anng/src/context.rs:210 | a failed receive delivers nothing and leaves the stash empty |
| Contexts.ContextfulSocket.TakeReceived | anng/src/context.rs:212-215 | the `expect` after a successful receive holds and the message is the next delivery |
| Contexts.ContextfulSocket.StashReceived | anng/src/context.rs:186-201 | the guard of `recv_msg` moves the message in the slot, if any, to the stash, empties the slot and delivers nothing |
| Contexts.ContextfulSocket.RecvMsg | anng/src/context.rs:165-216 | the stash first and without NNG; else one message, an error or, unless the future is kept, a drop; in every case accepted == delivered ++ stash ++ queue and the AIO is idle |
| Contexts.ContextfulSocket.TryRecvMsg | anng/src/context.rs:112-163 | the stash first, then the queue without waiting; would-block exactly on EAGAIN, an error only on three other codes, a panic exactly on those the match does not handle; accepted == delivered ++ stash ++ queue in every case |
| Contexts.ContextfulSocket.NngTryRecv | anng/src/lib.rs:311-351 | the head of the queue exactly on success, would-block exactly on EAGAIN, an error only on ETIMEDOUT, ENOTSUP and ESTATE, a panic on every other code |
| Contexts.ContextfulSocket.FinishReceive | anng/src/lib.rs:374-405 | the three outcomes of `wait` become delivery, error, or the guard, and each is one step of the machine |
| Contexts.ContextfulSocket.RestingState | anng/src/lib.rs:353-405 | between calls the endpoint is idle and nothing NNG accepted is missing |
| Protocols.Request | anng/src/protocols/reqrep0.rs:342-356 | sends and keeps deliveries and a stashed older reply; a failed send returns the request and the error |
| Protocols.Responder.Reply | anng/src/protocols/reqrep0.rs:668-683 | on failure the same responder and message come back for a retry; the context is at rest in every case |
| Protocols.Receive | anng/src/protocols/reqrep0.rs:514-528 | a delivered request comes with a fresh unsent responder for the same context; a stashed one without an NNG operation; no request means NNG's error, or the dropped future |
| Protocols.TryReceive | anng/src/protocols/reqrep0.rs:532-545 | a queued or stashed request with a fresh responder; nothing exactly on EAGAIN; otherwise the error or the panic of the result code |
| Protocols.Next | anng/src/protocols/survey0.rs:353-379 | an item exactly when one message was delivered; the end only on ETIMEDOUT or ESTATE, any other error passed on as `wait` built it; a dropped call delivers nothing |
| Protocols.TryNext | anng/src/protocols/survey0.rs:389-406 | an item exactly when one message was delivered, not-yet exactly on EAGAIN, the end exactly on ESTATE, any other error passed on |
| SharedAio.StepInv | nng/src/aio.rs:165-211 | every interleaved step of any thread, callback, NNG or drop keeps the invariant on word, holder, slot, handles and callbacks |
| SharedAio.AtMostOneHolder | nng/src/aio.rs:260-404 | at most one thread is between winning the word and storing Inactive, none while NNG runs an operation; no step panics or touches a freed AIO |
| SharedAio.CallbackReportsItsOperation | nng/src/aio.rs:173-208 | a callback observes the word of the operation NNG ran, never Inactive, and up to the call of user code reports that kind of result with the code the operation ended with: an error carries it, any other outcome means success; it reads only a message the AIO owns |
| SharedAio.ClaimsIffInactive | nng/src/aio.rs:265-404 | in every run a send, receive, sleep or timeout update claims the AIO if and only if the word is Inactive; otherwise it changes nothing but, for a send, handing the message back |
| SharedAio.StepFlow | nng/src/aio.rs:331-404 | which steps move messages between claimed, taken by NNG, returned, received and abandoned, and by how much |
| SharedAio.EverySendHasOneFate | nng/src/aio.rs:331-350 | over every run each message given to a send is rejected, bounced once, consumed, abandoned or still under way, counted exactly; received messages are handed out once |
| LastDrop.HandlesAddUp | nng/src/aio.rs:120-124 | over any run the handles that threads hold are the first one, plus clones and upgraded weak pointers, less drops; the AIO is alive while any is left |
| LastDrop.DropBeginsWithLastHandle | nng/src/aio.rs:510-537 | `Inner::drop` has begun if and only if no handle is left |
| LastDrop.DropReturnsIffOutsideCallback | nng/src/aio.rs:510-537 | in every state after the last handle was dropped, some continuation frees the AIO if and only if the drop was not made inside a callback |
| LastDrop.DropInsideCallbackNeverReturns | nng/src/aio.rs:518-529 | after a drop inside a callback no continuation frees the AIO |
| LastDrop.DropReturns | nng/src/aio.rs:518-534 | after a drop outside all callbacks the running operation can end, then each callback, which finds the weak pointer dead or leaves user code, and then the drop |
| LastDrop.DropInsideCallbackHappens | nng/src/aio.rs:204-210 | a reachable state in which the last handle is dropped inside a callback |
| LastDrop.AtMostOneIsLeftBehind | nng/src/aio.rs:510-537 | over any run at most one message is left behind, and none before the AIO is freed |
| LastDrop.FreeingLosesWhatIsUnderWay | nng/src/aio.rs:528-530 | freeing leaves behind exactly the message under way: an outgoing one if and only if the callback of a failed send found no handle, an incoming one if and only if that of a successful receive did |
| LastDrop.LastDropLosesItsFailedSend | nng/src/aio.rs:165-171 | the message lost is the one whose send was under way when the last handle was dropped, exactly if that send fails, and NNG has it otherwise; received messages not yet read, and later ones, are left behind; nothing is handed out any more |
| Growth.NextPow2Spec | anng/src/message.rs:531-533 | the recursive definition is the least power of two not below n: n itself, or twice the one below |
| Growth.NewCapacityBounds | anng/src/message.rs:525-540 | a reallocation ends at no less than required, below twice that, and within usize |
| Growth.NewCapacityIsExact | anng/src/message.rs:528-538 | the new capacity is the least power of two not below the old one, or all of usize where that does not fit, and exactly what is required where that is more |
| Growth.NewCapacityMovesClass | anng/src/message.rs:525-540 | each reallocation reaches a higher power-of-two class, or leaves a power of two inside its class, or fills the address space |
| Growth.AmortisedGrowth | anng/src/message.rs:35-41 | from any initial capacity, writes of N bytes copy fewer than 6N bytes in at most 2(floor(log2 N) + 1) reallocations, for every usize width |
| Growth.BillCountsMoves | anng/src/message.rs:525-540 | the counted cost is the number of bytes in the buffer at each write that changes the capacity, and the counted reallocations are those writes |
| Growth.TwoPerClass | anng/src/message.rs:525-540 | at most two reallocations start from capacities of one size class |
| Growth.PowerOfTwoMayGrowByOne | anng/src/message.rs:531-534 | a full power-of-two buffer may grow by one byte |
| Buffers.CursorWithinBody | anng/src/message.rs:985-1006 | in every run of the whole interface the cursor stays within the body, `chunk` does not panic and has `remaining` bytes |
| Buffers.BodyFitsCapacity | anng/src/message.rs:242-287 | in every run of the whole interface the body fits the capacity, and a fresh message has room for the size asked for |
| Buffers.AllocatedSizes | anng/src/message.rs:46-67 | the documented headroom: 32 bytes below 1024, none for powers of two from there up, and never anything else |
| Buffers.ReadsFollowWrites | anng/src/message.rs:953-1006 | in runs of writes, advances and compactions the bytes read, then those in `chunk`, are the bytes written |
| Buffers.CompactionIsInvisible | anng/src/message.rs:603-626 | deleting every `truncate_front(remaining())` from a run changes nothing the reader can observe, panics included |
| Buffers.CloneFromIsClone | anng/src/message.rs:143-170 | from any target state `clone_from` ends with the header, body and cursor of `clone` |
| Buffers.TruncationSeenByReader | anng/src/message.rs:561-582 | `truncate` cuts what the reader has left at the new end of the body |
| Buffers.FrontTruncationSeenByReader | anng/src/message.rs:603-626 | `truncate_front` leaves the reader the last `len` bytes of what it had left |
| Buffers.PrependShiftsUnderTheCursor | anng/src/message.rs:694-713 | what a reader sees after a prepend: the last of the prepended and already read bytes, then what it had left |
| Buffers.PrependIsSeenIffNothingWasRead | anng/src/message.rs:694-713 | a prepend shows the reader the new bytes, whatever they are, if and only if the cursor is at the start |
| Buffers.TruncateUndoesWrite | anng/src/message.rs:561-582 | truncating back after a write restores header, body and cursor |
| Buffers.TruncateFrontUndoesPrepend | anng/src/message.rs:603-626 | truncating the front back after a prepend restores the body, and the whole message if and only if nothing was read or prepended |
| Buffers.HeaderTruncatesUndoWrites | anng/src/message.rs:628-671 | each header truncation takes off what the header writer at its end put on, and leaves it when asked for its length from the other end |
| Buffers.HeaderOpsLeaveTheBody | anng/src/message.rs:628-759 | deleting all header operations from any run changes neither body, capacity, cursor nor whether it panics |
| Buffers.WritesFollowGrowth | anng/src/message.rs:953-978 | lengths and capacities of a message that is written to are those of the growth rule, so the bounds are the message's |
| Messages.Message.Reserve | anng/src/message.rs:525-540 | ends with room for `additional` bytes; header, body and what a reader has left are unchanged; the capacity is that of the growth rule |
| Messages.Message.WithCapacity | anng/src/message.rs:242-263 | an empty message with the documented initial capacity |
| Messages.Message.Clone | anng/src/message.rs:144-161 | header, body, capacity and cursor of the source |
| Messages.Message.HeaderTruncate | anng/src/message.rs:628-646 | the header becomes its own prefix of at most that length; body, capacity and reader are untouched |
| Messages.Message.HeaderTruncateFront | anng/src/message.rs:648-671 | the header becomes its own suffix of at most that length; body, capacity and reader are untouched |
| Messages.Message.Prepend | anng/src/message.rs:694-713 | puts the bytes before the body without moving the cursor or touching the header |
| Messages.Message.WriteHeader | anng/src/message.rs:715-736 | the old header is a prefix and the bytes the rest; body, capacity and reader are untouched |
| Messages.Message.PrependHeader | anng/src/message.rs:738-759 | the bytes are a prefix and the old header the rest; body, capacity and reader are untouched |
| Messages.Message.Clear | anng/src/message.rs:781-785 | an empty message with the old capacity and nothing left to read |
| Messages.Message.Perform | anng/src/message.rs:469-1005 | each step of a script, made by its method on the object, is the step that the theorems about runs speak of, panics included |
| Messages.Message.ReserveExact | anng/src/message.rs:469-485 | the capacity suffices afterwards and is untouched if it did before; header, body and what a reader has left are unchanged |
| Messages.Message.Write | anng/src/message.rs:953-978 | appends all bytes after reserving for them; a reader sees them after what it had left |
| Messages.Message.Truncate | anng/src/message.rs:561-582 | keeps the first bytes and a valid cursor valid; what a reader has left is cut at its end |
| Messages.Message.TruncateFront | anng/src/message.rs:603-626 | keeps the last bytes; the reader has the last `len` of what it had left |
| Messages.Message.SetLen | anng/src/message.rs:878-905 | truncates, or extends by whatever the memory holds; the cursor is within the body afterwards even if it was not before |
| Messages.Message.Advance | anng/src/message.rs:994-1005 | drops that many bytes from what the reader has left, or fails and changes nothing exactly when there are fewer |
| Messages.Message.CloneFrom | anng/src/message.rs:163-169 | the in-place copy has the source's header, body and unread bytes |
| Urls.EncodeName | anng/src/pipes.rs:212-218 | the loop computes the encoding of the whole name |
| Urls.EncodedIsGraphic | anng/src/pipes.rs:203-219 | the encoding is ASCII graphic and between n and 3n characters long |
| Urls.OctetText | anng/src/pipes.rs:213-217 | a graphic byte stands for itself, any other becomes a percent sign and two lower-case hex digits, high half first |
| Urls.PercentRoundTrip | anng/src/pipes.rs:203-219 | percent-decoding (section 2.1 of RFC 3986) restores the name if and only if it has no '%' byte |
| Urls.PercentCollision | anng/src/pipes.rs:213-217 | against section 2.4 of RFC 3986 every byte that needs encoding shares its URL text with a three-byte name |
| Urls.DecodedLength | anng/src/pipes.rs:203-219 | decoding never gives a longer name, and a strictly shorter one as soon as '%' occurs |
| Urls.FromNng | anng/src/pipes.rs:158-237 | no URL exactly for a scheme that is not UTF-8 or an unspecified address, the panic exactly for a family that is not supported, else scheme, separator and the text of the address |
| Urls.OctetsInOrder | anng/src/pipes.rs:180-182 | the octets of two addresses compare lexicographically as the addresses do |
| Urls.DottedText | anng/src/pipes.rs:183 | an address is printed as four decimal numbers with dots between them |
| Urls.TextAfterScheme | anng/src/pipes.rs:194-230 | the text after the separator is the IPC path, the inproc name or the encoded abstract name |
| Urls.FirstSepIsFirst | anng/src/pipes.rs:150-153 | the separator found is an occurrence, and none comes before it |
| Urls.SchemeOfPrinted | anng/src/pipes.rs:146-154 | `scheme` returns the scheme a URL was printed with if and only if that scheme has no separator of its own |
| Urls.TcpUrlRoundTrip | anng/src/pipes.rs:255-282 | for every IPv4 address, port and accepted scheme the printed URL parses to that address and port |
| Urls.TcpSchemes | anng/src/pipes.rs:266-267 | exactly tcp and tls+tcp, each with nothing, 4 or 6 after it, are accepted |
| Urls.ParseErrors | anng/src/pipes.rs:260-274 | malformed exactly without a separator, an unexpected scheme exactly when what precedes the first one is not accepted |
| Urls.ReadsExactlySpellings | anng/src/pipes.rs:276-281 | a text is read as an address and a port if and only if it is that address as printed, a colon, and digits of that value |
| Urls.ParsesExactlySpellings | anng/src/pipes.rs:255-282 | a URL with an accepted scheme parses to exactly the address its text spells, and otherwise that very text is refused |
| Urls.ReadPrintedV4 | anng/src/pipes.rs:276 | the address parser reads every printed IPv4 address and port back |
| Urls.FirstSepAfter | anng/src/pipes.rs:150-153 | the first separator of a printed URL is the one after the scheme, or lies wholly inside the scheme: it cannot straddle its end |
| Urls.OctetsRoundTrip | anng/src/pipes.rs:180-182 | four octets are the octets of the address put together from them |
| Urls.ReadV4Sound | anng/src/pipes.rs:276-281 | nothing but a printed address is read as one; only the port may carry leading zeros |
| Urls.BitsRoundTrip | anng/src/pipes.rs:180-182 | an address is its four octets put together again |
| Decimals.ValueOfPrint | anng/src/pipes.rs:183 | a printed number is digits only, not empty, and reads back as itself |
| Decimals.LastDigit | anng/src/pipes.rs:183 | the last character is the digit of the remainder by ten, those before it print the quotient |
| Decimals.ReadPrinted | anng/src/pipes.rs:276 | the number reader takes exactly a printed number off the front of a text |
| Errors.ReadBackIffNoKindIsShared | nng-sys/src/lib.rs:234-277 | for any table of OS error kinds, a code can be read back from its `ErrorKind` if and only if it is not a system code or no other system code has the same kind |
| Errors.OnlySystemCodesCollide | nng-sys/src/lib.rs:267-275 | two codes are classified alike only if both are system codes of one kind |
| Errors.PermissionErrorsCollide | nng-sys/src/lib.rs:270-274 | with EPERM and EACCES of one kind, as in the standard library, neither can be read back |
| Errors.PayloadIsWithoutFlag | nng-sys/src/lib.rs:267-269 | a code is the transport's exactly from the flag's value up, and its payload is the rest, below the flag |
| Errors.OtherCodesAreKept | nng-sys/src/lib.rs:275 | an unknown code without flags is kept as it is and converts to the other kind |
| Errors.WaitErrorNormalForm | anng/src/aio.rs:202-220 | an error built by `wait` is never an operation error carrying ETIMEDOUT or ECANCELED; those codes, and only those, become the outer variants |
| Errors.OnlyInterruptIsUnreachable | anng/src/aio.rs:356-416 | over all codes, converting `wait`'s error to `io::Error` reaches an `unreachable!` arm exactly for EINTR |
| Errors.IoKindsByGroup | anng/src/aio.rs:356-416 | which codes lead to each `io::ErrorKind` that several lead to, and that all remaining ones lead to the other kind |
| Errors.IoKindsOfOneCode | anng/src/aio.rs:356-416 | each of the fifteen further kinds comes from exactly one code |
| Errors.IoKindOfFlagged | anng/src/aio.rs:409-412 | a system code converts to the kind of the table, a transport code to the other kind |
| Errors.TryRecvErrorsConvert | anng/src/context.rs:127-162 | every error `try_recv_msg` lets out converts without panicking, and stems from one of three codes |
| Errors.TryRecvAgreesWithWait | anng/src/context.rs:127-162 | a message exactly on success, an error on exactly three codes, and that error is the one `wait` would build |
| Errors.TryRecvHandles | anng/src/context.rs:127-162 | the results that do not panic are exactly those the endpoint machine calls handled |
| Errors.StreamEnds | anng/src/protocols/survey0.rs:364-401 | `next` ends the stream exactly on ETIMEDOUT and ESTATE, `try_next` exactly on ESTATE |
| Errors.StreamPassesOtherErrorsOn | anng/src/protocols/survey0.rs:374-404 | every other error is passed on as it is, by `next` and by `try_next` |
| Errors.TryNextAnswers | anng/src/protocols/survey0.rs:389-400 | `try_next` yields an item exactly on success, not-yet exactly on EAGAIN, the end exactly on ESTATE |

## Left out

- NNG's own code, transports, timers, resending and topic matching: they appear only as the contracts above.
- Weak memory orderings: atomic accesses are sequentially consistent steps.
- Futures leaked with `mem::forget` and the raw handle setters of the `ffi-module` feature: they bypass the busy rule by construction.
- `Aio::wait` of `nng` and blocking inside a callback: waiting changes no state here; `cancel` is one of the ways an operation completes.
- SharedAio is a step relation over values and not a class: its fields are shared by threads that interleave between any two accesses, which a sequential object cannot show.
- Out-of-memory, tracing, runtime flavour and the warning a dropped `Responder` logs.
- Contexts.ContextfulSocket.SendMsg: stands for both `Context::send_msg` and `Socket::send_msg`, whose statements are the same; likewise for the receives.
- Messages.Message.Reserve: length plus additional bytes is assumed to fit into usize, where the source's addition would otherwise overflow; the same for `Write` and `CloneFrom`.
- Messages.Message.Prepend: allocation failure is not modelled; the same for the header writers.
- Messages.Message.WithCapacity: the capacity follows the documented allocation rule, an NNG detail that the growth bounds do not use.
- `chunk_mut`, `advance_mut` and the headroom inside the capacity: they depend on a memory layout that is not part of this model.
- Which `io::ErrorKind` an OS code stands for: the standard library's table, a parameter of the error functions.
- Urls.FromNng: the text of an IPv6 address is the standard library's, and that of IPC and inproc names the result of `to_string_lossy`; both are taken as given.
- Dialers, listeners, options, durations, handle equality and address tables: single-branch code.
- bus0, pair1, pipeline0 and pubsub0: thin calls into the endpoint modelled here.
- Fairness: `EndpointRuns.CanAlwaysFinish` says an operation can end from every state, not that a scheduler lets it.
