# CoroRPC in Dafny

A model of the state machines of CoroRPC, a C++17 RPC framework, with proofs about all of their inputs, runs or
interleavings. `dafny verify dfyconfig.toml` checks everything.

How the source is mirrored:

- Objects that update their fields in place are classes with the same methods and loops: the frame decoder over its
  buffer, the coroutine scheduler, the intrusive timer list, the deadline heap, the timer wheel, the I/O manager with its
  timer nodes on that wheel, and the multiplexed connection with its recycled call entries. Their methods are proved
  against functions on values through an abstraction of the object's state. A driver without side effects then runs a
  whole script on the objects (`ReadConnection`, `Execute`, `ExecutePass`, `RunTimers`, `Serve`, `Converse`) and is proved
  to give what the specification gives for that script. `Serve` composes manager, wheel, heap and lists; `Converse`
  composes decoder and connection.
- Concurrent protocols are step machines: the task pool, the request lifecycle of the server, the circuit breaker, the
  inbox queue, the dispatcher cache and the registry. One step is one atomic access or one mutex section, any thread may
  move next, and memory is sequentially consistent. A run is any finite sequence of steps, and a step that is not enabled
  changes nothing.
- What the operations do is also said without naming them. For whole runs: every outcome of the scheduler is read off the
  calls before it and their outcomes (`EveryCallExplained`), and every end of a wait, result of a call, reply of the
  server, answer of the dispatcher or claim of the registry goes back to a step that calls for it (`WaitsEndAsCalled`,
  `ResultsAreEarned`, `RepliesAreJustified`, `AnswersAreRegistrations`, `PublishedIsAcknowledged`). For lock-free and
  asynchronous code: what a call or round does from start to end when it is left alone (`AllocateAlone`, `FreeAlone`,
  `ReclaimAlone`, `AllowAlone`, `RecordAlone`, `PushAlone`, `PopAlone`, `RoundAlone`). For formats: every byte by its
  position (`FrameBytes`, `EnvelopeBytes`).
- Bytes are numbers below 256, and the wire formats are modelled to the byte. Counters of the circuit breaker have their
  16 and 30 bits. Clocks, kernel events, network results and thread choices are arbitrary inputs.

The files, by component:

| component | files |
|---|---|
| shared | `Results`, `Sequences` |
| metadata envelope and frames | `Bytes`, `RpcMetadata`, `Frame`, `FrameDecoder` |
| coroutine scheduler on shared stacks | `PrivateStacks` (reference machine), `SchedulerHistory`, `SharedStacks`, `CoroutineScheduler` |
| lock-free task pool | `TaskPool`, `ReclaimRuns` |
| timers | `TimerList`, `DeadlineHeap`, `TimerWheel` (with the reference `AlarmClocks`), `TimerRuns`, `KeyedTimers` |
| I/O waits | `IoWaits`, `WaitOutcomes`, `IoManager` |
| server requests and idempotency | `ServerRequests`, `IdempotentAnswers`, `CancelledAnswers`, `ServerReplies`, `IdempotencyKeys` |
| client circuit breaker | `CircuitBreaker`, `BreakerCalls` |
| multiplexed client connection | `MultiplexedCalls`, `CallIdentity`, `ConnectionDrain`, `CallOutcomes`, `MultiplexedConnection`, `ConnectionRuns` |
| inbox, dispatcher, registry | `MpscQueue`, `ServiceDispatcher`, `ServiceRegistry`, `RegistryRuns` |

Ten promises do not hold of the code without a condition. For each the model has an input that breaks it and the exact
condition under which it holds:

- A request with an idempotency key can be answered for another body. A cancel drops a pending record whose handler run
  is still under way, a second request makes a new record under the key, and the first run resolves it: with its response
  (`OtherBodyAnswered`), or with its failure, so that a request nobody cancelled is told CANCELLED (`OtherBodyFailed`); or
  it overwrites the settled record, and a third request is answered from the cache (`OtherBodyCached`).
  `ResolvesOwnBodyExactly` gives the condition for the end of one run, `OwnBodyExactly` for everything that happens.
- A request can be told CANCELLED for another one of the same key and body that shares its run, is cancelled and has not
  started (`BystanderCancelled`). `CancelledExactly`: nobody is told wrongly if and only if no run that ends as cancelled
  finds a request that is not cancelled waiting under its key.
- A call can be given the answer to an earlier call's request (`IdAnswered`), or have an earlier call's request written in
  its name (`IdReused`), if callers choose request ids. `ReuseExactly`: a call is safe from that whatever happens next if
  and only if no request under its id is queued or unanswered when it starts. With ids left to the connection none is
  (`UnchosenNeverCross`).
- A draining connection can be left open with nothing to do (`DrainCanStall`): the writer only asks whether the drain is
  over after it has written something. `DrainStallsExactly`: that is so if and only if at some step the writer found
  nothing but requests of finished calls, and nothing has closed the connection since.
- Adding a scheduled timer with a changed deadline that has been reached is refused, but the node stays in slot and heap
  under the new deadline. After `RefuseSecond` the heap is out of order and the wheel names 10 as its next deadline, with
  a timer of deadline 1 still scheduled. `RefusedMisKeys`: the heap is still in order, and what it names still the earliest deadline, if
  and only if the node is its first.
- A poll can sleep without limit while a timer is pending (`SleepUnseen`): a deadline cut to 2^64 - 1 is also what the
  wheel reports for no deadline. `PollWait`: this is so if and only if neither bound nor flush limits the sleep and
  2^64 - 1 is the earliest deadline pending.
- The breaker's in-flight field counts its probes if the probe limit fits 16 bits (`ProbesAreCounted`), and loses count if
  it does not (`WideLimitLosesCount`); the option check lets both through.
- As many successful probes as the limit asks for need not close the breaker (`WrappedStaysHalfOpen`): the success field has
  16 bits too. `ClosesExactly`: the last probe outstanding closes it if and only if the successes modulo 2^16 reach the
  limit with it.
- Data fed to the decoder while a reservation is open can leave it out of order (`FeedInReservation`). `CommitWritable`: a
  commit does so if and only if it counts bytes beyond the buffer.
- Different names can share a dispatcher entry. `SharedExactly` says which names do, and `CollideExactly` that two services
  can if and only if one is the other followed by a newline and anything.

## Model

| member | source | states |
|---|---|---|
| `RpcMetadata.EncodedSize` | rpc_src/protocol/rpc_metadata.cpp:75-94 | fields within their limits never reach the 32-bit size limit, so that refusal is dead |
| `RpcMetadata.Append` | rpc_src/protocol/rpc_metadata.cpp:96-116 | succeeds exactly when every field fits, keeps what was already in the output, and adds as many bytes as the size function announced |
| `RpcMetadata.DecodeEncoded` | rpc_src/protocol/rpc_metadata.cpp:96-170 | an encoded envelope, followed by anything, decodes to the fields it was made from |
| `RpcMetadata.EncodeDecoded` | rpc_src/protocol/rpc_metadata.cpp:133-170 | whatever decodes starts with exactly the encoding of the fields it decoded to |
| `RpcMetadata.EnvelopeBytes` | rpc_src/protocol/rpc_metadata.cpp:75-116 | metadata is encoded if and only if each of its four fields has at most 65536 bytes; byte by byte the envelope is 82 77 49 0, the timeout and the four sizes with their most significant byte first, and the four fields |
| `Bytes.GetPut` | rpc_src/protocol/frame.cpp:12-65 | a value that fits a width reads back from the bytes written for it |
| `Bytes.PutGet` | rpc_src/protocol/frame.cpp:12-65 | any bytes are those written for the value they read as |
| `Bytes.PutAt` | rpc_src/protocol/frame.cpp:12-44 | byte i of a number of w bytes is its digit of weight 256 to the power w - 1 - i: the most significant byte comes first |
| `Frame.EncodesExactly` | rpc_src/protocol/frame.cpp:88-118 | a frame is encoded if and only if its type is 1 to 5, both parts have a 32-bit length, and a request or response has a non-zero id |
| `Frame.FrameBytes` | rpc_src/protocol/frame.cpp:12-118 | every byte of an encoded frame by its position: magic, version and header size as literals, flags, id and sizes digit by digit, then metadata and body |
| `Frame.FastPathAgrees` | rpc_src/protocol/frame.cpp:120-151 | the request fast path refuses exactly what the generic path refuses, and otherwise gives the same bytes |
| `Frame.ParseBuiltHeader` | rpc_src/protocol/frame.cpp:286-339 | a header built from valid fields parses to those fields if the sizes are within the limits, and is rejected as over limit if not |
| `Frame.RebuildParsedHeader` | rpc_src/protocol/frame.cpp:286-339 | an accepted header is byte for byte the one that would be built from what it parsed to |
| `Frame.FirstEncoded` | rpc_src/protocol/frame.cpp:88-118 | an encoded frame, with anything behind it, is the first frame of the stream if and only if it respects the limits |
| `Frame.EncodeFirst` | rpc_src/protocol/frame.cpp:236-272 | the first frame of a stream encodes to the very bytes it occupied |
| `Frame.StreamRoundTrip` | rpc_src/protocol/frame.cpp:88-118 | a stream of encoded frames parses back to those frames, and parsing goes on behind them as if it started there |
| `Frame.ReencodeParsed` | rpc_src/protocol/frame.cpp:236-339 | re-encoding all frames of a stream gives exactly the bytes consumed |
| `Frame.ParseResumes` | rpc_src/protocol/frame.cpp:236-272 | the reference parser may be restarted behind any whole frames without changing frames, length or verdict |
| `Frame.ParseMonotone` | rpc_src/protocol/frame.cpp:236-272 | more bytes never change the frames already found |
| `FrameDecoder.Decoder.constructor` | rpc_src/protocol/frame.cpp:153-161 | a new decoder is in agreement with the reference parser on the empty stream, and its buffer limit holds one maximal frame |
| `FrameDecoder.Decoder.Feed` | rpc_src/protocol/frame.cpp:163-190 | accepts exactly when there is room, with or without an open reservation, and then the stream grows by the input; a refusal fails the decoder and leaves the stream |
| `FrameDecoder.Decoder.PrepareWritable` | rpc_src/protocol/frame.cpp:192-208 | a reservation is given exactly when the decoder has not failed, none is open, the size is not zero and there is room |
| `FrameDecoder.Decoder.CommitWritable` | rpc_src/protocol/frame.cpp:210-221 | exactly the committed part of the open reservation enters the stream; committing more than was reserved, or without a reservation, fails the decoder; and the decoder is in order afterwards if and only if the commit failed or its bytes are in the buffer, which they are unless others were fed since the reservation |
| `FrameDecoder.FeedInReservation` | rpc_src/protocol/frame.cpp:163-221 | a byte fed between a reservation of the whole buffer and its commit leaves the decoder counting more bytes than the buffer has |
| `FrameDecoder.Decoder.CompactBuffer` | rpc_src/protocol/frame.cpp:341-354 | the unread bytes move to the front unchanged |
| `FrameDecoder.Decoder.EnsureWritable` | rpc_src/protocol/frame.cpp:356-379 | succeeds exactly within the buffer limit, and a grown buffer starts with the bytes of the old one |
| `FrameDecoder.Decoder.DecodeHeader` | rpc_src/protocol/frame.cpp:286-339 | a rejected header is malformed for the reference parser, with the same error; an accepted one keeps decoder and parser in agreement |
| `FrameDecoder.Decoder.NextView` | rpc_src/protocol/frame.cpp:236-272 | after need-more all frames of the stream have been produced and the rest is incomplete; after an error all before the malformed frame have been, with the parser's own error |
| `FrameDecoder.Decoder.ProducedIsPrefix` | rpc_src/protocol/frame.cpp:236-272 | the frames produced are a prefix of those of the stream, and the rest of the stream holds the others |
| `FrameDecoder.Decoder.Reset` | rpc_src/protocol/frame.cpp:274-284 | a reset decoder starts over on an empty stream |
| `FrameDecoder.MalformedForGood` | rpc_src/protocol/frame.cpp:236-339 | a malformed stream stays malformed and yields nothing further, whatever arrives |
| `FrameDecoder.Drain` | rpc_src/transport/multiplexed_connection.cpp:349-372 | draining produces all frames of the stream, and leaves less than one maximal frame in the buffer or a malformed stream |
| `FrameDecoder.Receive` | rpc_src/transport/multiplexed_connection.cpp:330-348 | one read commits exactly the bytes that arrived in the reservation |
| `FrameDecoder.ReadOnce` | rpc_src/transport/multiplexed_connection.cpp:330-372 | with default limits the fixed reservation is never refused after a drain |
| `FrameDecoder.ReadConnection` | rpc_src/transport/multiplexed_connection.cpp:330-372 | however the bytes are cut into reads, the frames delivered are those of the whole input, and decoding stops early exactly when the input is malformed |
| `CoroutineScheduler.Execute` | rpc_src/runtime/coroutine_scheduler.cpp:112-498 | for every script of creations, nested resumes, turns, stack writes, yields and finishes, on any number of shared stacks, every outcome is that of the machine with a private stack per routine, and is the one that the calls before it and their outcomes call for; so a routine finds exactly the bytes it last wrote |
| `CoroutineScheduler.ExecutePass` | rpc_src/runtime/coroutine_scheduler.cpp:173-190 | after any script, a pass without limit runs exactly the routines then ready, in the order they became so |
| `CoroutineScheduler.Scheduler.constructor` | rpc_src/runtime/coroutine_scheduler.cpp:54-98 | starts in agreement with the empty private-stack machine |
| `CoroutineScheduler.Scheduler.SaveSharedStack` | rpc_src/runtime/coroutine_scheduler.cpp:392-418 | the snapshot is the bytes from the saved pointer to the top; the range guard never fires |
| `CoroutineScheduler.Scheduler.PrepareSharedStack` | rpc_src/runtime/coroutine_scheduler.cpp:361-390 | the occupant alone is evicted, the slot changes hands, and the bytes to restore are those of the snapshot |
| `CoroutineScheduler.Scheduler.ContextSwitch` | rpc_src/runtime/coroutine_scheduler.cpp:217-232 | the registers of the routine left are stored, the restore bytes land on the stack of the one entered, and its own pointer is loaded |
| `CoroutineScheduler.Scheduler.Switch` | rpc_src/runtime/coroutine_scheduler.cpp:361-418 | after any switch every live routine still has its stack bytes, in its slot or its snapshot, and the one entered has them at its stack pointer |
| `CoroutineScheduler.Scheduler.EnterRoutine` | rpc_src/runtime/coroutine_scheduler.cpp:192-253 | entering a routine that is not running makes it running, on top of the call stack, with all data as before |
| `CoroutineScheduler.Scheduler.Acquire` | rpc_src/runtime/coroutine_pool.cpp:12-38 | the search from the back finds the routine the specification picks |
| `CoroutineScheduler.Scheduler.Create` | rpc_src/runtime/coroutine_scheduler.cpp:112-162 | creation does to routines and pool what the private-stack machine does, with the same new routine |
| `CoroutineScheduler.Scheduler.Reuse` | rpc_src/runtime/coroutine_pool.cpp:12-38 | the reused routine leaves the pool by swap-removal and starts with an empty stack |
| `CoroutineScheduler.Scheduler.Fresh` | rpc_src/runtime/coroutine_scheduler.cpp:112-162 | a new routine gets an unused identity and agrees with an empty cell |
| `CoroutineScheduler.Scheduler.Spawn` | rpc_src/runtime/coroutine_runtime.cpp:162-173 | a spawned routine is counted as live, READY and last in the queue |
| `CoroutineScheduler.Scheduler.MakeReady` | rpc_src/runtime/coroutine_scheduler.cpp:265-283 | a waiting routine becomes READY and is queued once; any other is refused |
| `CoroutineScheduler.Scheduler.Resume` | rpc_src/runtime/coroutine_runtime.cpp:80-120 | a queued routine is ignored, an unresumable one refused, any other gets control with the bytes the private-stack machine has for it; which states and bytes these are is `EveryCallExplained` |
| `CoroutineScheduler.Scheduler.RunNext` | rpc_src/runtime/coroutine_scheduler.cpp:173-190 | one turn takes the front of the ready queue and gives it control |
| `CoroutineScheduler.Scheduler.RunReady` | rpc_src/runtime/coroutine_scheduler.cpp:173-190 | a pass is a run of the private-stack machine that ends at its limit or with an empty queue; without limit, and if no routine runs a pass of its own, it runs exactly the routines queued when it began, in order, and leaves what was queued meanwhile |
| `CoroutineScheduler.Scheduler.Work` | rpc_src/runtime/coroutine_scheduler.cpp:361-418 | stack writes of the running routine change its own image and nobody else's |
| `CoroutineScheduler.Scheduler.Yield` | rpc_src/runtime/coroutine_scheduler.cpp:285-298 | giving control up returns it to the resumer, who finds exactly what it had |
| `CoroutineScheduler.Scheduler.YieldCurrent` | rpc_src/runtime/coroutine_scheduler.cpp:440-478 | the terminate guards are not reached, and the caller is back in control with its data |
| `CoroutineScheduler.Scheduler.Suspend` | rpc_src/runtime/coroutine_scheduler.cpp:440-478 | a yielding routine waits, or is queued again if it yielded as READY |
| `CoroutineScheduler.Scheduler.FinishRoutine` | rpc_src/runtime/coroutine_scheduler.cpp:480-498 | the slot of a finished routine is vacated and the routine is pooled or forgotten, leaving all others intact |
| `CoroutineScheduler.Scheduler.Finish` | rpc_src/runtime/coroutine_runtime.cpp:319-330 | a finished routine leaves the live count and goes to the pool if there is room |
| `PrivateStacks.CreateKeepsInv` | rpc_src/runtime/coroutine_scheduler.cpp:112-162 | creation keeps the invariant and never disturbs a routine that somebody holds a handle to |
| `PrivateStacks.RunningCanYield` | rpc_src/runtime/coroutine_scheduler.cpp:440-478 | the guards before a switch back fail exactly when nothing is running |
| `PrivateStacks.StepKeepsInv` | rpc_src/runtime/coroutine_scheduler.cpp:173-283 | after any event a routine is READY exactly when it is queued once, RUNNING exactly when it is once on the call stack, pooled only when finished, and the live count is the number of started, unfinished routines |
| `PrivateStacks.RunKeepsInv` | rpc_src/runtime/coroutine_scheduler.cpp:173-283 | the same after every run from the start |
| `PrivateStacks.QueueIsFifo` | rpc_src/runtime/coroutine_scheduler.cpp:420-428 | over any run, what was taken off the queue followed by what is left equals what was there followed by what was added |
| `PrivateStacks.PassRunsTheSnapshot` | rpc_src/runtime/coroutine_scheduler.cpp:173-190 | over any events the first routines taken are those queued at the start, in order, and the queue cannot run empty before all of them have been taken |
| `SchedulerHistory.EveryCallExplained` | rpc_src/runtime/coroutine_scheduler.cpp:112-498 | over every script, each outcome read off the earlier calls and outcomes alone: a resume enters a routine that is new or waits for a timer or an event, ignores a READY one and refuses any other; a turn enters the front of the queue; MakeReady takes exactly waiting routines; a yield goes back to the resumer or to root; a write needs someone in charge and a stack that holds it; creation reuses a finished routine without handles whose stack is large enough, and makes a new one only if there is none |
| `SchedulerHistory.FindsItsOwnImage` | rpc_src/runtime/coroutine_scheduler.cpp:217-232 | whatever gave it control, a routine finds what it last wrote while in charge since it was created, or nothing if it wrote nothing |
| `SharedStacks.CopyRestores` | rpc_src/runtime/coroutine_scheduler.cpp:392-418 | copying a snapshot back puts the routine's bytes where its pointer expects them |
| `SharedStacks.EvictedKept` | rpc_src/runtime/coroutine_scheduler.cpp:361-418 | an evicted routine's bytes are intact in its snapshot |
| `SharedStacks.BystanderKept` | rpc_src/runtime/coroutine_scheduler.cpp:361-390 | a routine of another slot, or off its slot, is untouched by what happens to slot k |
| `SharedStacks.SlotSwitchKeeps` | rpc_src/runtime/coroutine_scheduler.cpp:361-418 | a switch that takes over a slot keeps every live routine's bytes |
| `SharedStacks.PlainSwitchKeeps` | rpc_src/runtime/coroutine_scheduler.cpp:440-478 | a switch without eviction keeps every live routine's bytes |
| `TaskPool.StepKeepsInv` | rpc_src/memory/task_pool.h:124-232 | every atomic step of every thread keeps the invariant: lists are the chains their heads start, each task has one place, and no validated task is in a batch past its scan |
| `TaskPool.RunKeepsInv` | rpc_src/memory/task_pool.h:124-232 | any interleaving of any number of threads keeps it |
| `TaskPool.ExactlyOnePlace` | rpc_src/memory/task_pool.h:124-232 | each task is in exactly one of: one owner, one thread's hands, its bucket's free list, its bucket's retired list, one reclaimer's batch; and in a list at most once |
| `TaskPool.PopInstallsSuccessor` | rpc_src/memory/task_pool.h:143-155 | when the head compare-and-swap succeeds, the next pointer read earlier is still the task's successor in the free list |
| `TaskPool.PopIsExact` | rpc_src/memory/task_pool.h:124-157 | a successful pop removes exactly the first task of that bucket and leaves every other bucket alone |
| `TaskPool.ValidateMoves` | rpc_src/memory/task_pool.h:143-146 | finding the task still at the head after publishing the hazard keeps the pool invariant, which from then on says that no scan of that task can miss the hazard |
| `TaskPool.ValidatedIsStable` | rpc_src/memory/task_pool.h:143-155 | no step by any thread puts a validated task back into a free list or changes its link there |
| `TaskPool.ReusedUnseen` | rpc_src/memory/task_pool.h:221-232 | a task pushed back for reuse is validated by no thread |
| `TaskPool.PassedOver` | rpc_src/memory/task_pool.h:59-68 | a record the scan passes over is not that of any thread that validated the task: such a thread's record is still ahead of the scan |
| `TaskPool.AllocateIsExclusive` | rpc_src/memory/task_pool.h:124-157 | a task becomes owned only by the return of one allocation, from a state in which nobody owned it |
| `TaskPool.LinkKeeps` | rpc_src/memory/task_pool.h:205-219 | the successful push compare-and-swap keeps the pool invariant |
| `TaskPool.TakeKeeps` | rpc_src/memory/task_pool.h:221-232 | the exchange that turns a whole retired list into one batch keeps the pool invariant |
| `TaskPool.StartFreeKeeps` | rpc_src/memory/task_pool.h:159-171 | the start of a free, which takes the task from its owner, keeps the pool invariant |
| `TaskPool.AttachKeeps` | rpc_src/memory/task_pool.h:85-110 | a thread that starts using the pool keeps the pool invariant |
| `TaskPool.AdoptKeeps` | rpc_src/memory/task_pool.h:32-52 | adopting an inactive hazard record keeps the pool invariant |
| `TaskPool.NewRecordKeeps` | rpc_src/memory/task_pool.h:32-52 | appending a hazard record, also during a scan, keeps the pool invariant |
| `TaskPool.DetachKeeps` | rpc_src/memory/task_pool.h:54-57 | giving a hazard record back keeps the pool invariant |
| `ReclaimRuns.ScanVerdict` | rpc_src/memory/task_pool.h:59-68 | whatever other threads do during a scan, its task goes to the free list only if no record of the bucket named it throughout, and to the retired list only if some record of the bucket did name it at some moment |
| `ReclaimRuns.ReclaimAlone` | rpc_src/memory/task_pool.h:221-232 | a thread left alone in the reclaimer ends with every task of the list it took in the free list, in reverse, except those a record of the bucket names, which are retired again |
| `ReclaimRuns.SortedOut` | rpc_src/memory/task_pool.h:221-232 | a task of the list is freed if and only if no record of the bucket names it, and each task goes to one of the two lists |
| `ReclaimRuns.AllocateAlone` | rpc_src/memory/task_pool.h:124-157 | an allocation left alone gives out the first free task, else the longest retired one no record names, and makes a new task only if records name all retired tasks of the bucket |
| `ReclaimRuns.FreeAlone` | rpc_src/memory/task_pool.h:159-171 | a free left alone retires its task, and every thirty-second one in a bucket reclaims the bucket, this task included |
| `TimerLists.TimerList.PushBack` | rpc_src/runtime/timer_wheel.cpp:10-28 | links a free node last and refuses one that is in a list, changing nothing then |
| `TimerLists.TimerList.Remove` | rpc_src/runtime/timer_wheel.cpp:30-55 | unlinks the node from anywhere in the doubly linked list, keeping the order of the rest |
| `TimerLists.TimerList.PopFront` | rpc_src/runtime/timer_wheel.cpp:57-65 | takes the first node, or none from an empty list |
| `TimerLists.TimerList.SpliceBack` | rpc_src/runtime/timer_wheel.cpp:67-89 | appends the other list in order, relabels its nodes and leaves it empty |
| `TimerLists.TimerList.Relabel` | rpc_src/runtime/timer_wheel.cpp:67-89 | every node of the other list names this one |
| `DeadlineHeaps.DeadlineHeap.Swap` | rpc_src/runtime/timer_wheel.cpp:211-216 | exchanges two entries and keeps every back-index right |
| `DeadlineHeaps.DeadlineHeap.SiftUp` | rpc_src/runtime/timer_wheel.cpp:218-230 | restores the heap above a misplaced entry, with the same entries |
| `DeadlineHeaps.DeadlineHeap.SiftDown` | rpc_src/runtime/timer_wheel.cpp:232-253 | restores the heap below a misplaced entry, with the same entries |
| `DeadlineHeaps.DeadlineHeap.Insert` | rpc_src/runtime/timer_wheel.cpp:174-183 | adds exactly the node, or nothing if it is in already |
| `DeadlineHeaps.DeadlineHeap.Remove` | rpc_src/runtime/timer_wheel.cpp:185-209 | removes exactly the node from any position, heap order and back-indices intact |
| `DeadlineHeaps.DeadlineHeap.Next` | rpc_src/runtime/timer_wheel.cpp:162-166 | names the deadline of the first node, none exactly when the heap is empty, and the least one if the heap is in order |
| `DeadlineHeaps.FirstIsLeast` | rpc_src/runtime/timer_wheel.cpp:162-172 | nothing in a heap comes before its first entry |
| `DeadlineHeaps.FilledOrder` | rpc_src/runtime/timer_wheel.cpp:185-209 | after the last entry fills the hole, one of the two sifts applies, and which one is what the code tests |
| `WheelTime.SlotDistinguishes` | rpc_src/runtime/timer_wheel.cpp:101-116 | two distances within one turn share a slot only if they are equal |
| `WheelTime.SlotTurns` | rpc_src/runtime/timer_wheel.cpp:134-160 | after the wheel has turned, a remaining timer is still in the slot its remaining distance calls for |
| `AlarmClocks.DueExactly` | rpc_src/runtime/timer_wheel.cpp:101-116 | read off the script alone: an alarm is pending exactly if its last arming was for a later time and has not come up since, and it comes up at the earlier of its deadline and one turn less a tick, but at least a tick, after arming |
| `AlarmClocks.AnswersExactly` | rpc_src/runtime/timer_wheel.cpp:101-166 | an arming is accepted exactly if its deadline is ahead of the time reached, an advance gives out exactly the alarms of the script that come up by then, and asking names the least deadline pending |
| `AlarmClocks.NeverLate` | rpc_src/runtime/timer_wheel.cpp:134-160 | once time has reached now, whatever is still pending has its deadline after now |
| `AlarmClocks.NeverEarly` | rpc_src/runtime/timer_wheel.cpp:101-116 | an alarm armed at most slot count - 1 ahead never goes off before its deadline |
| `AlarmClocks.AskedExactly` | rpc_src/runtime/timer_wheel.cpp:162-166 | in every run, asking for the next deadline names the least one pending, still ahead, and none exactly if nothing is pending |
| `TimerWheels.RowIsDue` | rpc_src/runtime/timer_wheel.cpp:101-116 | a slot holds exactly the timers due at the tick it comes up |
| `TimerWheels.DrainedIsDue` | rpc_src/runtime/timer_wheel.cpp:134-160 | the slots visited hold exactly the timers due by then |
| `TimerWheels.DrainedInOrder` | rpc_src/runtime/timer_wheel.cpp:134-160 | timers come out in the order they are due |
| `TimerWheels.TimedTurned` | rpc_src/runtime/timer_wheel.cpp:134-160 | turning the wheel after the drain keeps slot and due time consistent for what is left |
| `TimerWheels.TimerWheel.constructor` | rpc_src/runtime/timer_wheel.cpp:91-99 | an empty wheel at its start time |
| `TimerWheels.TimerWheel.Add` | rpc_src/runtime/timer_wheel.cpp:101-116 | refuses exactly the deadlines already reached and then changes nothing; otherwise the node, scheduled or not before and also if its deadline was changed meanwhile, is due at the earlier of its deadline and max(1, slots - 1) ticks from now |
| `TimerWheels.TimerWheel.RefusedMisKeys` | rpc_src/runtime/timer_wheel.cpp:101-116 | a scheduled node refused under a changed deadline leaves the heap in order, and its first deadline the earliest, if and only if the node is the first; and it comes out only after that deadline |
| `TimerWheels.RefuseSecond` | rpc_src/runtime/timer_wheel.cpp:101-116 | two timers scheduled for 10 and 20, the second refused under deadline 1: the heap is out of order and the wheel names 10 |
| `TimerWheels.TimerWheel.Reschedule` | rpc_src/runtime/timer_wheel.cpp:101-116 | changing the deadline of a node and adding it moves exactly that node, and all of slots, heap and count are consistent again |
| `TimerWheels.TimerWheel.Remove` | rpc_src/runtime/timer_wheel.cpp:118-132 | takes the node out of slot list, heap and count, and nothing else |
| `TimerWheels.TimerWheel.ExpireRow` | rpc_src/runtime/timer_wheel.cpp:146-155 | the inner loop takes the nodes of a slot out of heap and count |
| `TimerWheels.TimerWheel.ExpireSteps` | rpc_src/runtime/timer_wheel.cpp:141-157 | the outer loop empties the visited slots, in order, into the expired list |
| `TimerWheels.TimerWheel.Advance` | rpc_src/runtime/timer_wheel.cpp:134-160 | moves exactly what is due by now, in order, and leaves slot lists, heap, count and time consistent; time never goes back |
| `TimerWheels.TimerWheel.NextDeadline` | rpc_src/runtime/timer_wheel.cpp:162-166 | names what the heap has first; on a wheel in order, the least deadline of all scheduled nodes, and none exactly when nothing is scheduled |
| `TimerRuns.RunTimers` | rpc_src/runtime/timer_wheel.cpp:91-166 | the linked, hashed wheel with its heap answers every script of arming, arming again with another deadline, disarming, passing time and asking exactly as the reference alarm clock does; a pending timer is disarmed before it is given a deadline already reached |
| `TimerRuns.Timers.Pass` | rpc_src/runtime/timer_wheel.cpp:134-160 | passing time gives out exactly the timers that are due, each once |
| `KeyedTimers.KeyedTimers.Arm` | rpc_src/runtime/io_manager.cpp:189-196 | a node made on first use and armed under a key changes the alarm clock of the keys as arming does, and no other node's deadline |
| `KeyedTimers.KeyedTimers.Pass` | rpc_src/runtime/io_manager.cpp:456-458 | the keys of the nodes that come out are exactly the due ones, each once |
| `KeyedTimers.KeyedTimers.NextDeadline` | rpc_src/runtime/io_manager.cpp:420-431 | the wheel's next deadline is the least of all keys pending |
| `IoWaits.RunConsistent` | rpc_src/runtime/io_manager.cpp:143-515 | in every state of every run fd slots, wait operations, routine states and timers are mutually consistent |
| `IoWaits.WaitsAgree` | rpc_src/runtime/io_manager.cpp:143-275 | a routine is in WAIT_IO exactly when it has a wait, which holds its own fd slot and, exactly if it has a deadline, a timer for that deadline still ahead of the clock; it is in WAIT_TIMER exactly when its timer is pending |
| `IoWaits.EndsOnce` | rpc_src/runtime/io_manager.cpp:338-379 | no wait is completed twice, whatever readiness, timeouts and cancellations coincide |
| `IoWaits.TimelyEnds` | rpc_src/runtime/io_manager.cpp:361-379 | a timeout is reported at or after its deadline only, and when a poll ends no open wait has passed its deadline |
| `WaitOutcomes.WaitsEndAsCalled` | rpc_src/runtime/io_manager.cpp:210-515 | in every run an operation ends exactly the open waits it calls for: a poll ends one as ready if and only if it has an event for its descriptor with input, error, hang-up or read hang-up for a reader, output, error or hang-up for a writer; as timed out if there is no such event and its deadline has been reached; only a cancellation of its routine or descriptor ends it as cancelled |
| `WaitOutcomes.PollWakesExactly` | rpc_src/runtime/io_manager.cpp:403-479 | a poll makes ready, once each, exactly the routines whose wait has an event or is overdue, the sleepers whose time has come and, from the flush instant on, the routines queued for the flush that still wait |
| `WaitOutcomes.AwaitBeginsExactly` | rpc_src/runtime/io_manager.cpp:143-174 | a wait begins, for the descriptor, direction and 64-bit saturated deadline asked for, if and only if its routine runs, the timeout is not zero, no open wait has that side of the descriptor, the deadline is ahead and the kernel agrees |
| `WaitOutcomes.SleepBeginsExactly` | rpc_src/runtime/io_manager.cpp:176-196 | a routine sleeps, until the 64-bit saturated deadline asked for, if and only if it runs, the time is not zero and the deadline is ahead of the wheel |
| `WaitOutcomes.StatesMoveExactly` | rpc_src/runtime/io_manager.cpp:104-515 | in every run every operation takes every routine to the state that its state and the operation call for |
| `WaitOutcomes.FlushQueueMovesExactly` | rpc_src/runtime/io_manager.cpp:104-135 | a routine is queued for the flush from its request to the first poll at or after the flush instant |
| `WaitOutcomes.ResumeReturnsExactly` | rpc_src/runtime/io_manager.cpp:143-174 | resuming a ready routine returns from its wait that has ended and not been returned from, with the result it ended with, and from no other |
| `IoWaits.NothingOverdue` | rpc_src/runtime/io_manager.cpp:403-479 | once the clock has passed now, every open wait has its deadline after now |
| `IoWaits.CompleteKeeps` | rpc_src/runtime/io_manager.cpp:338-359 | completing a pending wait, in or out of its slot, keeps descriptor slots, waits, routine states and timers consistent |
| `IoWaits.KeyKeeps` | rpc_src/runtime/io_manager.cpp:361-379 | handling one expired timer, due or clamped, keeps descriptor slots, waits, routine states and timers consistent, with one loose timer less |
| `IoWaits.AwaitKeeps` | rpc_src/runtime/io_manager.cpp:143-174 | a wait, refused on whichever ground or accepted, keeps descriptor slots, waits, routine states and timers consistent |
| `IoWaits.SleepKeeps` | rpc_src/runtime/io_manager.cpp:176-196 | a sleep, refused or accepted, keeps descriptor slots, waits, routine states and timers consistent |
| `IoWaits.PrepareKeeps` | rpc_src/runtime/io_manager.cpp:198-208 | waking a sleeper before its time keeps descriptor slots, waits, routine states and timers consistent |
| `IoWaits.CancelKeeps` | rpc_src/runtime/io_manager.cpp:210-219 | cancelling a routine's wait keeps descriptor slots, waits, routine states and timers consistent |
| `IoWaits.CancelFdKeeps` | rpc_src/runtime/io_manager.cpp:489-515 | closing a descriptor with none, one or both sides waiting keeps descriptor slots, waits, routine states and timers consistent |
| `IoWaits.EventsKeep` | rpc_src/runtime/io_manager.cpp:316-336 | any list of events, stale ones included, keeps descriptor slots, waits, routine states and timers consistent; which waits it ends is `WaitsEndAsCalled` |
| `IoWaits.PollKeeps` | rpc_src/runtime/io_manager.cpp:403-479 | a poll with any events and any order of expired timers keeps descriptor slots, waits, routine states and timers consistent |
| `IoWaits.NextFlush` | rpc_src/runtime/io_manager.cpp:381-401 | the next flush is after now and at most one interval later |
| `IoManagers.FirstAfter` | rpc_src/runtime/io_manager.cpp:381-401 | it is the first point after now on the grid of the interval |
| `IoManagers.PollTimeout` | rpc_src/runtime/io_manager.cpp:403-431 | the sleep is unlimited exactly when there is no bound, flush or deadline, never passes any of the three, and ends at one of them or after 2^31 - 1 milliseconds |
| `IoManagers.IoManager.PollWait` | rpc_src/runtime/io_manager.cpp:403-431 | a poll never sleeps past its bound or the next flush, nor past any pending deadline unless the earliest is 2^64 - 1; it sleeps without limit if and only if there is no bound, no flush and no deadline to be seen; a limited sleep ends at one of these or after 2^31 - 1 milliseconds |
| `IoManagers.SleepUnseen` | rpc_src/runtime/io_manager.cpp:176-196 | after a sleep of 2^64 - 2 milliseconds a poll without bound has no limit, with the timer pending |
| `IoManagers.NodeNoted` | rpc_src/runtime/io_manager.cpp:240-275 | a timer node made for a wait is right whether the wait comes about or is taken back |
| `IoManagers.IoManager.Register` | rpc_src/runtime/io_manager.cpp:143-174 | a wait whose deadline the wheel refuses, or whose registration fails, leaves timers, slots and waits as they were; an accepted one has its slot and its node on the wheel |
| `IoManagers.IoManager.CompleteKey` | rpc_src/runtime/io_manager.cpp:361-379 | an expired node ends its wait or sleep or goes back on the wheel, and the deadline in the node decides which as the deadline of the wait or sleep would |
| `IoManagers.IoManager.Poll` | rpc_src/runtime/io_manager.cpp:403-479 | one poll of manager and wheel is the specified poll, with its expired timers in the order in which the wheel gave them out; what that ends and wakes is `WaitsEndAsCalled` and `PollWakesExactly` |
| `IoManagers.IoManager.Flush` | rpc_src/runtime/io_manager.cpp:381-401 | the loop that advances the flush time reaches the specified instant, and the queue is woken once |
| `IoManagers.Serve` | rpc_src/runtime/io_manager.cpp:104-515 | whatever routines, kernel events and clock do, manager, wheel, heap and slot lists together go through a consistent run, the log has every wait ended at most once and on time, and every operation ends exactly the waits it calls for |
| `ServerRequests.StepKeepsInv` | rpc_src/transport/rpc_server.cpp:1401-1898 | every mutex section of shards, workers and connections keeps the invariant |
| `ServerRequests.RunKeepsInv` | rpc_src/transport/rpc_server.cpp:1401-1898 | any interleaving of them keeps it |
| `ServerRequests.InflightIsExact` | rpc_src/transport/rpc_server.cpp:1387-1399 | the in-flight count equals the admitted, uncompleted requests including inline ones and never exceeds its limit; an open connection's map is exactly its uncompleted requests |
| `ServerRequests.ReleasedOnce` | rpc_src/transport/rpc_server.cpp:1752-1898 | whichever step ends a request, exactly it is released and the count drops by one, and it never comes back |
| `ServerRequests.AnsweredOnce` | rpc_src/transport/rpc_server.cpp:1772-1794 | no request is answered twice |
| `ServerRequests.CacheIsSound` | rpc_src/transport/rpc_server.cpp:1542-1603 | the cache is within its capacity; all waiters of a record have its key and body; every pending record has waiters and a run outstanding |
| `ServerRequests.NobodyIsLost` | rpc_src/transport/rpc_server.cpp:1796-1839 | an uncompleted keyed request waits in its key's pending record or is about to be finished |
| `ServerRequests.PruneOk` | rpc_src/transport/rpc_server.cpp:2085-2097 | pruning keeps pending records, and leaves a full cache only if all of it is pending |
| `IdempotentAnswers.PrunesOldest` | rpc_src/transport/rpc_server.cpp:2085-2097 | of a cache that is just full it drops exactly the settled record that has been queued longest, if there is one |
| `ServerRequests.PruneIdempotencyCache` | rpc_src/transport/rpc_server.cpp:2085-2097 | the pruning loop computes the specified cache and queue |
| `ServerRequests.RefusedOnlyWhenPending` | rpc_src/transport/rpc_server.cpp:1542-1603 | a new key is turned away only when the cache is full of pending records |
| `ServerRequests.AnswersMatch` | rpc_src/transport/rpc_server.cpp:1796-1826 | a response, or the failure of a run, comes from a run for the same key, and for the same body unless that run had lost its record |
| `ServerReplies.PostsExactly` | rpc_src/transport/rpc_server.cpp:1542-1869 | exactly the steps that call for a reply hand it out: a look-up that meets another body, the settled record of the same body or a cache full of pending records; the end of a run, to all who wait for it; a cancellation, to its request |
| `ServerReplies.SendsExactly` | rpc_src/transport/rpc_server.cpp:1772-1794 | a reply is sent exactly when it is taken to an unfinished request of an open connection, and a late request is told DEADLINE_EXCEEDED instead |
| `ServerReplies.RepliesAreJustified` | rpc_src/transport/rpc_server.cpp:1505-1898 | over every interleaving each reply handed out, sent or cached goes back to a step that justifies it: ALREADY_EXISTS to a look-up that met another body, RESOURCE_EXHAUSTED to one that met a full cache, CANCELLED to a cancellation of that request, DEADLINE_EXCEEDED to its lateness, a response or failure to the end of that run |
| `ServerReplies.DuplicateWaits` | rpc_src/transport/rpc_server.cpp:1550-1565 | a duplicate of a request being worked on joins the waiters and starts no run |
| `ServerReplies.FirstLeads` | rpc_src/transport/rpc_server.cpp:1570-1585 | the first request for a key starts a run and a record of its body if and only if fewer records are pending than the cache holds |
| `ServerReplies.EndSettles` | rpc_src/transport/rpc_server.cpp:1796-1826 | the end of a run settles the record under its key with the reply of the run, or removes it if the run failed |
| `ServerReplies.AcquiresExactly` | rpc_src/transport/rpc_server.cpp:1387-1399 | a request of an open connection is taken up, as it is, if and only if fewer are in flight than the limit |
| `ServerReplies.AdmitsExactly` | rpc_src/transport/rpc_server.cpp:741-750 | a request is admitted if and only if its open connection has room and no unfinished request of that id; a refused one leaves the in-flight count |
| `IdempotentAnswers.TaintNeedsEmptying` | rpc_src/transport/rpc_server.cpp:1841-1898 | runs lose their records only to a cancel or abandon that empties a pending record |
| `IdempotentAnswers.RunsDoNotOverlap` | rpc_src/transport/rpc_server.cpp:1542-1603 | without such a step, runs for one key never overlap |
| `IdempotentAnswers.ResolvesOwnBodyExactly` | rpc_src/transport/rpc_server.cpp:1796-1826 | the end of a run, with a response or with a failure, keeps everything sent, posted or stored one for its own body if and only if the record under the run's key has that body, or is settled and dropped by this very end |
| `IdempotentAnswers.OwnBodyExactly` | rpc_src/transport/rpc_server.cpp:1710-1898 | every response and every failure of a run is for its own body at every moment if and only if no run, ending with either, finds under its key a record of another body that is pending or that it does not drop |
| `IdempotentAnswers.OwnBodyAnswered` | rpc_src/transport/rpc_server.cpp:1710-1898 | then every request given the response or the failure of a run is given that of a run for its own key and body |
| `IdempotentAnswers.GentleIsCareful` | rpc_src/transport/rpc_server.cpp:1841-1898 | runs in which no cancel or abandon empties a pending record are of that kind |
| `IdempotentAnswers.OtherBodyAnswered` | rpc_src/transport/rpc_server.cpp:1841-1869 | with such a cancel a reachable run answers a request with the response for another body |
| `IdempotentAnswers.OtherBodyFailed` | rpc_src/transport/rpc_server.cpp:1710-1727 | a reachable run tells a request CANCELLED with the failure of a run for another body, while its own run goes on without a record |
| `IdempotentAnswers.OtherBodyCached` | rpc_src/transport/rpc_server.cpp:1542-1603 | a reachable run overwrites a settled record and answers a later request from the cache with the response for another body |
| `CancelledAnswers.EndDeserved` | rpc_src/transport/rpc_server.cpp:1796-1826 | the end of a run tells nobody wrongly that it was cancelled if and only if the run did not end as cancelled or everyone waiting under its key is |
| `CancelledAnswers.CancelledExactly` | rpc_src/transport/rpc_server.cpp:1710-1898 | the same for every moment of a whole run, as an equivalence |
| `CancelledAnswers.BystanderCancelled` | rpc_src/transport/rpc_server.cpp:1841-1869 | a reachable run tells a request CANCELLED because of another that shared its key, body and run |
| `IdempotencyKeys.SplitPart` | rpc_src/transport/rpc_server.cpp:86-91 | a length-prefixed part reads back as itself whatever bytes it holds |
| `IdempotencyKeys.BuildInjective` | rpc_src/transport/rpc_server.cpp:93-103 | two requests share a key string only if scope, service, method and key are all equal |
| `BreakerWords.UnpackPack` | rpc_src/transport/rpc_client.cpp:24-67 | each field of the packed word reads back cut to its width, and the word fits 64 bits |
| `BreakerWords.PackInjective` | rpc_src/transport/rpc_client.cpp:24-67 | words within the widths and less than 2^30 generations apart are equal only if all fields are |
| `BreakerWords.SameGeneration` | rpc_src/transport/rpc_client.cpp:24-67 | generations less than 2^30 apart have the same 30-bit field only if they are the same |
| `CircuitBreakers.StepKeepsInv` | rpc_src/transport/rpc_client.cpp:730-894 | every load, store and compare-and-swap of every thread keeps the invariant while nothing outstanding is 2^30 generations old |
| `CircuitBreakers.RunInv` | rpc_src/transport/rpc_client.cpp:730-894 | it holds in every state of every run |
| `CircuitBreakers.ProbesAreCounted` | rpc_src/transport/rpc_client.cpp:730-828 | the half-open in-flight field is the number of unrecorded permits of the current generation and within the limit, and the success field the number of successes recorded in it, cut to 16 bits |
| `CircuitBreakers.OpenedOnce` | rpc_src/transport/rpc_client.cpp:871-894 | each generation is opened at most once |
| `CircuitBreakers.StaleIsInert` | rpc_src/transport/rpc_client.cpp:778-828 | recording a permit of another generation never changes the control word |
| `CircuitBreakers.NothingBeforeReopening` | rpc_src/transport/rpc_client.cpp:730-776 | an open breaker is left only by a call at or after the reopening time, and then with one probe |
| `CircuitBreakers.ClosingIsEarned` | rpc_src/transport/rpc_client.cpp:778-828 | the breaker closes only with no probe outstanding and as many successes as the limit asks for |
| `CircuitBreakers.ClosesExactly` | rpc_src/transport/rpc_client.cpp:778-828 | a step closes a half-open breaker if and only if it records the only probe outstanding and the successes modulo 2^16, with this one, reach the limit |
| `CircuitBreakers.WrappedStaysHalfOpen` | rpc_src/transport/rpc_client.cpp:778-828 | with a limit of 2 a reachable breaker is half-open with no probe outstanding after 65537 successes |
| `CircuitBreakers.WideLimitLosesCount` | rpc_src/transport/rpc_client.cpp:730-776 | with a limit that does not fit 16 bits, a reachable state has 65536 probes and a field that reads zero |
| `BreakerCalls.AllowAlone` | rpc_src/transport/rpc_client.cpp:730-776 | a call alone is admitted when the breaker is closed; when it is open and its time has come, as the one probe of the next generation; and when it is half-open with fewer probes out than the limit; otherwise it is turned away and nothing changes |
| `BreakerCalls.RecordAlone` | rpc_src/transport/rpc_client.cpp:778-894 | recording alone: a permit of an earlier generation changes nothing; a failed probe, or a tripped window, opens the next generation until now plus the interval; the last probe closes the breaker if the successes reach the limit; any other gives up its place and counts its success |
| `MultiplexedCalls.StepKeepsInv` | rpc_src/transport/multiplexed_connection.cpp:133-515 | every operation of callers, reader, writer and closing keeps the invariant |
| `MultiplexedCalls.RunKeepsInv` | rpc_src/transport/multiplexed_connection.cpp:133-515 | so does every run |
| `MultiplexedCalls.AccountsBalance` | rpc_src/transport/multiplexed_connection.cpp:203-276 | the byte counter is the total of the queued frames and within its limit, pending calls are within theirs, and what was pushed is what left followed by what is queued |
| `MultiplexedCalls.PeerReadsWhatWasSent` | rpc_src/transport/multiplexed_connection.cpp:381-423 | a peer that parses the bytes written gets exactly the frames kept, in queue order |
| `MultiplexedCalls.CancelFollowsRequest` | rpc_src/transport/multiplexed_connection.cpp:496-515 | a cancellation is written only after the request it names |
| `MultiplexedCalls.OwnResponse` | rpc_src/transport/multiplexed_connection.cpp:326-379 | whatever the peer sends, a successful result carries a response with its own request id |
| `MultiplexedCalls.BigBatchIsOneFrame` | rpc_src/transport/multiplexed_connection.cpp:381-423 | a batch over 64 KiB is a single frame |
| `MultiplexedCalls.FillKeeps` | rpc_src/transport/multiplexed_connection.cpp:381-423 | filling a batch stops exactly when nothing more fits, and keeps the invariant |
| `CallOutcomes.StartExactly` | rpc_src/transport/multiplexed_connection.cpp:133-245 | the answer to a call, check by check; an accepted one queues the caller's flags, metadata and body under its id behind all others, and a refused one queues nothing |
| `CallOutcomes.RequestsAreCallers` | rpc_src/transport/multiplexed_connection.cpp:133-245 | over every run the requests queued are those accepted, in order, as their callers wrote them |
| `CallOutcomes.StepEnds` | rpc_src/transport/multiplexed_connection.cpp:245-486 | an unfinished call is ended by exactly these steps: a response under its id, with that response; anything else from the peer; its own wake-up, as timed out; a short write, a failure or a close |
| `CallOutcomes.ResultsAreEarned` | rpc_src/transport/multiplexed_connection.cpp:133-486 | every result a caller gets goes back to such a step, taken while its call was unfinished, with that status and that response as it arrived |
| `CallOutcomes.ReturnQueues` | rpc_src/transport/multiplexed_connection.cpp:245-262 | a caller that gives up has a cancellation queued if and only if its request was handed to the socket, the connection is not closing and 32 bytes fit |
| `CallOutcomes.FillSends` | rpc_src/transport/multiplexed_connection.cpp:381-423 | a call counts as sent from the first gathering that writes a request under its id |
| `CallOutcomes.GatherTakesAll` | rpc_src/transport/multiplexed_connection.cpp:381-423 | a gathering takes frames until the queue is empty or the next would make the batch larger than 65536 bytes |
| `CallOutcomes.PhaseExactly` | rpc_src/transport/multiplexed_connection.cpp:278-306 | which step closes the connection and which begins its drain |
| `CallIdentities.CallsReturnOnce` | rpc_src/transport/multiplexed_connection.cpp:203-276 | every accepted call is either waiting or has returned, and returns at most once |
| `CallIdentities.OnlyFinishedDropped` | rpc_src/transport/multiplexed_connection.cpp:381-423 | a frame is dropped only if the very call it belongs to has finished, though the writer compares ids |
| `CallIdentities.OutcomeIsFinal` | rpc_src/transport/multiplexed_connection.cpp:446-465 | once a call is completed, whatever callers, reader, writer and closing do later, that outcome is what its caller gets |
| `CallIdentities.NeverCrossed` | rpc_src/transport/multiplexed_connection.cpp:203-276 | with a peer that answers each request at most once, and no id given to a call while a request under it is queued or unanswered, no request is written for a finished call and every successful result answers its own request |
| `CallIdentities.ReuseExactly` | rpc_src/transport/multiplexed_connection.cpp:203-276 | a newly accepted call stays so whatever happens next if and only if no request under its id was queued or unanswered |
| `CallIdentities.IdReused` | rpc_src/transport/multiplexed_connection.cpp:381-423 | a reused id lets a request be written after its call has returned |
| `CallIdentities.IdAnswered` | rpc_src/transport/multiplexed_connection.cpp:349-372 | a reused id lets an honest answer to the first call complete the second |
| `CallIdentities.UnchosenNeverCross` | rpc_src/transport/multiplexed_connection.cpp:588-596 | if callers leave the ids to the connection, fewer than 2^64 - 1 steps never mix up two calls |
| `CallIdentities.StepFresh` | rpc_src/transport/multiplexed_connection.cpp:588-596 | an id handed out by the counter is above those of all calls before, so none under it is outstanding |
| `ConnectionDrains.ClosedIsFinal` | rpc_src/transport/multiplexed_connection.cpp:289-306 | once closed, the queue is empty, every call completed, and nothing is written or accepted any more |
| `ConnectionDrains.RunSettled` | rpc_src/transport/multiplexed_connection.cpp:425-486 | failing or closing completes every unfinished call and empties the queue, in every run |
| `ConnectionDrains.StallsExactly` | rpc_src/transport/multiplexed_connection.cpp:381-423 | a step leaves a draining connection open with nothing to do if and only if it is a gathering that finds only requests while no call is unfinished |
| `ConnectionDrains.StallStays` | rpc_src/transport/multiplexed_connection.cpp:381-423 | such a connection stays so under every step but a close or a failure |
| `ConnectionDrains.DrainStallsExactly` | rpc_src/transport/multiplexed_connection.cpp:278-287 | the same for whole runs, as an equivalence |
| `ConnectionDrains.DrainCanStall` | rpc_src/transport/multiplexed_connection.cpp:381-423 | a run in which that happens |
| `MultiplexedConnections.MultiplexedConnection.AcquirePendingCall` | rpc_src/transport/multiplexed_connection.cpp:541-550 | a new call gets a blank entry that no other call uses |
| `MultiplexedConnections.MultiplexedConnection.ReleasePendingCall` | rpc_src/transport/multiplexed_connection.cpp:552-566 | a released entry is blank, and in the pool once at most and in no call's use |
| `MultiplexedConnections.MultiplexedConnection.Return` | rpc_src/transport/multiplexed_connection.cpp:245-276 | the result handed back is the outcome the specification gives that call, read from its entry before the entry leaves the map and is blanked for reuse |
| `ConnectionRuns.Perform` | rpc_src/transport/multiplexed_connection.cpp:203-276 | after every step the pointers that waiting callers keep are exactly the entries in use, each under its caller's id, although entries are recycled |
| `MultiplexedConnections.MultiplexedConnection.GatherBatch` | rpc_src/transport/multiplexed_connection.cpp:381-423 | the writer's loop over encoded frames takes the batch the specification fills, and drops what it drops |
| `MultiplexedConnections.MultiplexedConnection.CompleteEach` | rpc_src/transport/multiplexed_connection.cpp:467-486 | the loop over the collected ids completes exactly the unfinished calls, in place |
| `MultiplexedConnections.MultiplexedConnection.HasUnfinishedPending` | rpc_src/transport/multiplexed_connection.cpp:568-578 | the search finds an unfinished call exactly if there is one |
| `ConnectionRuns.Take` | rpc_src/transport/multiplexed_connection.cpp:349-372 | the reader takes the next frame of the bytes received, stops at a malformed one or one that is no response, and otherwise waits for more |
| `ConnectionRuns.DeliversInOrder` | rpc_src/transport/multiplexed_connection.cpp:326-379 | what the connection is given are the first frames of all bytes received, however they were cut up |
| `ConnectionRuns.Converse` | rpc_src/transport/multiplexed_connection.cpp:133-515 | for every script of calls, arriving bytes, writes and closings, decoder buffer, recycled entries and encoded queue together give the bytes written and the results of the specification run |
| `MpscQueue.StepKeepsInv` | rpc_src/runtime/mpsc_queue.h:21-58 | every atomic step of producers and consumer keeps stack, drained list and half-reversed list properly linked, in an order that no step but push and pop changes |
| `MpscQueue.Fifo` | rpc_src/runtime/mpsc_queue.h:21-58 | in every run the nodes pushed, in compare-and-swap order, are the nodes popped followed by the nodes inside |
| `MpscQueue.PopsOldest` | rpc_src/runtime/mpsc_queue.h:30-41 | a pop takes the oldest node, and reports nothing only if the queue was empty when it took the stack |
| `MpscQueue.TurnOrder` | rpc_src/runtime/mpsc_queue.h:48-58 | one turn of the reversal loop keeps the order of the whole |
| `MpscQueue.PushAlone` | rpc_src/runtime/mpsc_queue.h:21-28 | a producer left alone gets its node into the queue behind all others |
| `MpscQueue.PopAlone` | rpc_src/runtime/mpsc_queue.h:30-58 | a consumer left alone gets the oldest node, and nothing only if there is none |
| `ServiceDispatcher.StepKeepsInv` | rpc_src/transport/service_dispatcher.cpp:13-155 | published tables are never rewritten, and every cache entry and answer is what some version at least as new as its generation holds |
| `ServiceDispatcher.RunKeepsInv` | rpc_src/transport/service_dispatcher.cpp:13-155 | the same in every run |
| `ServiceDispatcher.LookupsAreCurrent` | rpc_src/transport/service_dispatcher.cpp:127-155 | every lookup, cached or not, answers from a table no older than the generation it read |
| `ServiceDispatcher.UpdatesAreCounted` | rpc_src/transport/service_dispatcher.cpp:13-72 | a lookup reads a generation that counts every update that has returned before it starts, also while another is under way |
| `ServiceDispatcher.LaterLookupsSeeUpdates` | rpc_src/transport/service_dispatcher.cpp:13-155 | once an update has returned, every lookup that starts later answers, cached or not, from its table or a newer one |
| `ServiceDispatcher.TableIsRegistrations` | rpc_src/transport/service_dispatcher.cpp:13-72 | after every run the table holds exactly what the registrations and removals accepted left in it: the first needs both names and a free entry, the second a taken one |
| `ServiceDispatcher.AnswersAreRegistrations` | rpc_src/transport/service_dispatcher.cpp:127-155 | every lookup, cached or not, gives the handler registered under that name at some moment not before the last update that had returned when it began |
| `ServiceDispatcher.LookupAlone` | rpc_src/transport/service_dispatcher.cpp:127-155 | a lookup with no update under way gives what is registered now |
| `ServiceDispatcher.SharedExactly` | rpc_src/transport/service_dispatcher.cpp:157-160 | two names share an entry if and only if they are equal or one service runs on, after a newline, into the other's method |
| `ServiceDispatcher.CollideExactly` | rpc_src/transport/service_dispatcher.cpp:157-160 | two services have colliding methods if and only if one is the other followed by a newline and anything |
| `ServiceRegistry.StepKeepsInv` | rpc_src/discovery/zookeeper_service_registry.cpp:63-552 | every mutex section and completion, of any generation, keeps the invariant |
| `ServiceRegistry.RunInv` | rpc_src/discovery/zookeeper_service_registry.cpp:63-552 | it holds after every run |
| `ServiceRegistry.OneLiveOperation` | rpc_src/discovery/zookeeper_service_registry.cpp:225-552 | a round is on exactly while there is an operation or continuation of the current generation, and there is never a second one |
| `ServiceRegistry.StaleIsInert` | rpc_src/discovery/zookeeper_service_registry.cpp:278-552 | operations of older generations change neither the round nor its outcome |
| `ServiceRegistry.RoundIsBounded` | rpc_src/discovery/zookeeper_service_registry.cpp:265-504 | a round of n services sees at most 1 + 5n completions |
| `ServiceRegistry.PublishedIsCurrent` | rpc_src/discovery/zookeeper_service_registry.cpp:529-552 | published means that every current service was created or set with its current data in this generation, and its path is on record for removal |
| `ServiceRegistry.EndReportsExactly` | rpc_src/discovery/zookeeper_service_registry.cpp:506-552 | a round that ends reports success if and only if every service was acknowledged in that round |
| `ServiceRegistry.EndIsExact` | rpc_src/discovery/zookeeper_service_registry.cpp:529-552 | the index and failure flag at the end of a round say exactly whether every service was acknowledged |
| `RegistryRuns.ServicesAreWanted` | rpc_src/discovery/zookeeper_service_registry.cpp:63-225 | in every run the services worked on are those of the last non-empty request before a stop, unless withdrawn since |
| `RegistryRuns.PublishedIsAcknowledged` | rpc_src/discovery/zookeeper_service_registry.cpp:265-552 | a registry that claims to have published has, in its current generation, an answer of ZooKeeper for every service asked for last that its node was created or set with the data asked for |
| `RegistryRuns.RoundAlone` | rpc_src/discovery/zookeeper_service_registry.cpp:265-552 | a round left alone issues the root operation and, service by service, those for its node, its providers node and its endpoint, and for an endpoint that is there a query and a write, with the data asked for; no others; and ends by reporting success |

## Left out

- C++ weak memory orders: all interleavings are sequentially consistent.
- Context-switch assembly, mapped stacks, sanitizer hooks, and bytes a routine writes between the capture of its stack pointer and the switch.
- Exceptions thrown by coroutine entries, the routines' own code, owner-thread checks and pre-warming of pools.
- The constructor check that a wheel has at least one slot, and that a flush interval is positive, appear as preconditions.
- 64-bit wrap-around of identifiers, generations, sequence counters and clock values, and the 32-bit width of `int` sizes outside the wire formats. Request identifiers of the connection do go round.
- epoll registration and its failure while a wait is being completed, the eventfd, and the system calls themselves: readiness arrives as any list of events, and registration of a new wait may succeed or fail.
- CoroutineScheduler.Scheduler.ContextSwitch: the stack pointer of the root context is not modelled.
- IoManagers.IoManager.Poll: all expired nodes are taken off their list before the first is handled, where the source takes them one by one; handling one never touches another.
- TimerRuns.RunTimers: arming a pending timer with a deadline that has been reached disarms it first; what the wheel does otherwise is `RefusedMisKeys`.
- The breaker's window of recent results, whose update is not atomic with the generation check: whether a failure trips the breaker is an arbitrary input.
- CircuitBreakers.RunInv: runs are those in which no outstanding permit or loaded word is 2^30 or more generations old, and each permit is recorded at most once.
- Liveness under interference: that the writer is scheduled, or that a lock-free loop gets through while other threads keep moving.
- Server shutdown and draining, worker executors, metrics, rate limits and deadlines inside handlers. A response may arrive after its deadline, and then the request is told so.
- The scope guard `CoScope` and its semaphore mode, whose count can reach zero more than once before a join.
- Service discovery on the client, route caching, shard picking, retries and load balancing.
- The ZooKeeper client, its JSON encoding and path strings: answers are arbitrary, an acknowledged creation always names its path, and a path is known by its service.
- ServiceRegistry.RoundIsBounded: counts completions for a registry that is started once; it does not say that ZooKeeper answers.
- Recycling of the connection's encode buffers, its metrics, and the two other ways to start a call: attaching or connecting a socket, and the request encoder that `FastPathAgrees` covers.
- CallIdentities.ReuseExactly: the peer is honest, as its run predicate says; against any peer there is `MultiplexedCalls.OwnResponse`.
