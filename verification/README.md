# A model of the agent-task back end

The back end runs agent tasks. Executions wait in a bounded dispatch queue, dispatcher workers spawn
them on a runtime, and services record executions, assignments, agents and deliverables in a store.
This project models the parts whose correctness depends on the order in which things happen and
proves what they keep, for every input and every interleaving.

Two forms are used throughout.

- **Step systems.** Where goroutines or requests interleave, a `System` value holds the shared state
  and each participant's program counter, and a `Step` is one mutex section, channel operation, atomic
  operation or store call. A run is any sequence of steps; a step that is not enabled changes nothing.
  The main results hold in every state that a run can reach.
- **Classes.** Each source object is a class with its fields. A method says what the new state is,
  through the functions the step system is made of, so the object and the step system cannot drift apart.

`log`, `fate`, `origin`, `at`, `registered`, `spawned`, `signalled` and `sends` fields record history for
the specification; the source has no counterpart of them.

| module | what it models |
|---|---|
| `Specs` | ids, worker specs, worker statuses |
| `DispatchQueue` | the in-memory dispatch queue object and its atomic sections |
| `Dispatcher`, `DispatcherSafety`, `DispatcherCounts`, `DispatcherRetries`, `DispatcherDrain`, `DispatcherRuns`, `DispatcherVerdicts`, `DispatcherOrigins` | N workers, producers, Close and Stop over one queue; the last three have the results |
| `DispatcherPool` | the Dispatcher object |
| `Deliverables`, `DeliverableHistory`, `VersionList` | append-only deliverables and their version listing |
| `Pagination`, `AgentPages` | keyset pagination |
| `RateLimiter` | the token bucket with its sweep |
| `EventBus` | ring buffers and replay |
| `MockRuntime`, `ProcessOutput` | how a worker's one result is made and delivered |
| `AgentFactory` | spawn, tracking, shutdown |
| `Assignments`, `AssignmentRaces`, `AssignmentTasks` | assignment rows, index and history: call by call, interleaved, and one task among others |
| `Lifecycle` | the execution state machine |
| `Agents` | optimistic concurrency |
| `Printing` | numbers, sizes and handles as text |

## Where the code and its own documentation differ

The model follows the code; a lemma gives the input.

- The queue's contract says that Close lets consumers drain it. An Enqueue that passed the closed check
  before Close can still send after the last worker left: `DispatcherRuns.LateEnqueueIsStranded`, and
  `DispatcherRuns.CloseDrains` shows that such a spec, and no other, is left behind.
- A comment in the mock runtime says that the dispatch queue enforces uniqueness at the item level. It
  enforces none: with an ExecutionID enqueued again before it is settled a spec can be lost
  (`DispatcherRuns.SharedIdLosesASpec`).
- `WithTx` of the in-memory store is documented as atomic; it takes no lock and undoes nothing
  (`Deliverables`, `Assignments`). `DeliverableHistory.TransactionIsVisible` shows the window, and
  `DeliverableHistory.HistoryIsExact` that the uniqueness key on versions is enough all the same.
  For assignments there is no such key: `AssignmentRaces.RaceLosesTheAssignee` loses an assignee, and
  `AssignmentTasks.AssigneeAgreesExactly` says when that happens.
- The sweep of the rate limiter is meant to free memory only. That is so exactly when Burst is at most
  29 times RequestsPerMinute (`RateLimiter.SweepUnseenExactly`); above that it also breaks the limiter's rate
  (`RateLimiter.RateBoundExactly`).
- Agent pages are ordered for stability. A cursor whose agent no longer matches the filter silently starts
  over (`AgentPages.LostCursorStartsOver`); `AgentPages.WalkAscendsExactly` says when that does harm.
- A client that replays from the bus relies on increasing ids; a publisher that sets its own id can
  break that (`EventBus.PresetIdHidesAnEvent`), and `EventBus.PublishKeepsResumable` says exactly when.
- The factory tracks one process per agent: a second SpawnAgent for the same agent drops the first
  process from the map, and Shutdown never signals it (`AgentFactory.OrphansAreTheDisplaced`). The
  runtime's Close remains as the backstop.
- The lifecycle comments call the review action the only path into completed. A PATCH from review to
  completed is accepted too (`Lifecycle.PatchesCompleteWithoutReview`); `Lifecycle.CompletedExactly` says
  what does complete a row. And since rows are created as assigned and only a PATCH moves one to
  running, a worker that completes does not advance its execution without one
  (`Lifecycle.OnlyAPatchStartsAnExecution`, `Lifecycle.DriveIsTakenExactly`).
- Capability rewrites are documented as optimistic; `SetCapabilities` checks no version, and such a call
  can undo a plain update (`Agents.CapabilityRewriteLosesARename`); `Agents.CapabilityCommitLosesNothingExactly`
  says exactly when it does not.
- `intToString` prints the least int64 as "-" (`Printing.ParseOfPrint`).

## Model

| member | source | states |
|---|---|---|
| `DispatchQueue.InMemoryQueue.Enqueue` | src/internal/dispatch/queue.go:248-276 | Which of the five returns happens when, and that only an accepted spec changes the queue, at its end |
| `DispatchQueue.InMemoryQueue.Dequeue` | src/internal/dispatch/queue.go:280-312 | The oldest pending spec comes out and is in flight; pending specs are still handed out after Close |
| `DispatchQueue.InMemoryQueue.Ack` | src/internal/dispatch/queue.go:318-327 | Succeeds exactly for specs in flight and removes just that one |
| `DispatchQueue.InMemoryQueue.Nack` | src/internal/dispatch/queue.go:335-387 | Unknown, dropped, retried, given up on ctx or blocked: when each happens, and the whole queue after it; a retry is the same spec with one more attempt, at the end of the channel |
| `DispatchQueue.InMemoryQueue.Close` | src/internal/dispatch/queue.go:392-405 | Idempotent; marks and signals the close and touches nothing else |
| `DispatcherRuns.EverySpecInOnePlace` | src/internal/dispatch/queue.go:248-387 | In every run in which no Enqueue begins with an ExecutionID that is waiting or unsettled, whatever ids are used again after that: channel, workers' hands, in-flight map, acked and dead letters together hold an id as often as it was accepted, the first three at most once; the channel stays within its size, dropped counts the dead letters, and no Ack or Nack meets an unknown spec |
| `DispatcherRuns.ClashesExactly` | src/internal/dispatch/queue.go:248-276 | That condition first fails at a step if and only if the step begins an Enqueue with an id that waits in Enqueue already or is in exactly one of channel, worker's hand and in-flight map |
| `DispatcherRuns.SpawnsAreBounded` | src/internal/dispatch/dispatcher.go:138-241 | In any such run a spec accepted with attempt a is spawned at most max(1, maxAttempts - a + 1) times before its id is accepted again |
| `DispatcherRuns.DeadLettersAreExhausted` | src/internal/dispatch/queue.go:343-386 | Until Close, a spec is dead-lettered only after exactly that many Spawn calls |
| `DispatcherRuns.CountersBalance` | src/internal/dispatch/dispatcher.go:138-257 | Spawned is completed plus failed plus cancelled plus workers mid-run; failed plus cancelled is retries plus dropped plus failed Nacks plus workers still to record; completed and dropped agree with the queue |
| `DispatcherRuns.RetryFindsRoom` | src/internal/dispatch/queue.go:360-378 | In every run a retry's send finds room while at most bufferSize specs are neither acked nor dead-lettered, whatever the other workers do |
| `DispatcherRuns.RetriesBlockExactly` | src/internal/dispatch/queue.go:360-378 | In every run, when each of n workers has a retry in hand and ctx is alive: a send finds room if and only if fewer than bufferSize + n specs are neither acked nor dead-lettered, and otherwise, and only then, no sequence of steps without Stop moves any worker |
| `DispatcherRuns.FullBufferBlocksRetry` | src/internal/dispatch/queue.go:360-378 | Such a run exists for every buffer size of at least one: a lone worker fails a spec while the producer fills the buffer, and only Stop can move it again |
| `DispatcherRuns.WorkIsFinite` | src/internal/dispatch/queue.go:352-386 | Attempts are conserved: those granted on acceptance are spent (one by a retry, all that are left by an Ack, a drop or a Nack given up on ctx) or still held by a spec that is pending or with a worker; so these settling steps are no more than the attempts spent |
| `DispatcherRuns.CloseDrains` | src/internal/dispatch/queue.go:280-312 | Once all workers have left after Close with ctx alive, everything accepted under an id is acked or dead-lettered if and only if none of it was accepted after the last worker left; what was had been sent after Close and is in the channel |
| `DispatcherRuns.LateEnqueueIsStranded` | src/internal/dispatch/queue.go:248-276 | A run in which such a spec is in the channel, and stays there however the run goes on |
| `DispatcherRuns.SharedIdLosesASpec` | src/internal/dispatch/queue.go:318-350 | With one ExecutionID enqueued again while it is running, a failed spec is neither retried nor dead-lettered |
| `DispatcherVerdicts.VerdictsAreCounted` | src/internal/dispatch/dispatcher.go:152-241 | In every run Completed is the number of Waits that came back with completed, Cancelled the number that came back with cancelled or gave up on a cancelled context or after Stop, and Failed the number of all other ends of Spawn and Wait |
| `DispatcherVerdicts.AcksAreCompletions` | src/internal/dispatch/dispatcher.go:205-241 | In every run an id is acked as often as a worker that ran it ended as completed, less the one whose Ack is still ahead |
| `DispatcherVerdicts.AckFollowsCompletion` | src/internal/dispatch/dispatcher.go:205-241 | A worker about to ack has just seen that spec's process end as completed and done nothing since, and the id has not been accepted again in between |
| `DispatcherOrigins.SpecsAreAccepted` | src/internal/dispatch/queue.go:335-387 | In every run, with shared ids or not, each spec in the channel, with a worker, in the in-flight map or dead-lettered is an accepted one with every field but the attempt unchanged, and the attempt no lower |
| `DispatcherOrigins.LiveSpecsAreTheLatest` | src/internal/dispatch/queue.go:335-387 | In a run as for `EverySpecInOnePlace` an unsettled spec goes back in that way to the latest acceptance of its id |
| `DispatcherOrigins.DeadLettersAreTheirOwn` | src/internal/dispatch/queue.go:343-350 | And each dead letter goes back to an acceptance that no other dead letter goes back to |
| `DispatcherOrigins.AcceptedBeganBeforeClose` | src/internal/dispatch/queue.go:248-276 | In every run only a valid spec whose Enqueue began before Close waits or has been accepted, late as its send may be |
| `DispatcherOrigins.ChannelIsFirstInFirstOut` | src/internal/dispatch/queue.go:248-312 | In every run the specs come out of the channel in the order in which they and the retries were sent |
| `DispatcherPool.Pool.Start` | src/internal/dispatch/dispatcher.go:75-97 | Refuses fewer than one worker, launches n loops once |
| `DispatcherPool.Pool.Stop` | src/internal/dispatch/dispatcher.go:269-302 | Idempotent; cancels the loops, keeps the counters, and returns once the loops have ended or its ctx is over |
| `DispatcherPool.Pool.RecordNackResult` | src/internal/dispatch/dispatcher.go:248-257 | Counts a drop or a retry, and nothing for any other return |
| `DispatcherPool.Pool.CountOutcome` | src/internal/dispatch/dispatcher.go:152-241 | Completed goes up for a worker that ended as completed and for no other; Cancelled for one that ended as cancelled and for a Wait that gave up on a cancelled context or after Stop; Failed for all else; and only a completed worker is to be acked |
| `DispatcherPool.Pool.HandleSpec` | src/internal/dispatch/dispatcher.go:138-241 | The spec is acked if its worker completed, dead-lettered if the queue is closed or its attempts are used up, and else sent again with the next attempt unless that send is given up or would block; counters, queue and worker are as after that worker's steps of the step system in a row |
| `Deliverables.MemoryStore.Create` | src/internal/store/memory.go:821-829 | Adds a row unless its id is taken |
| `Deliverables.MemoryStore.Insert` | src/internal/store/memory.go:952-970 | Adds a version unless that number exists for the deliverable |
| `Deliverables.MemoryStore.Update` | src/internal/store/memory.go:931-939 | Overwrites an existing main row and no other |
| `Deliverables.MemoryStore.UpdateDeliverable` | src/internal/service/deliverable.go:303-376 | One PUT by itself: not found and conflict, exactly when; else the row with the request's title and content and the next version, and a version row with the same; and that this is three store calls of the interleaved system in a row |
| `DeliverableHistory.HistoryIsExact` | src/internal/service/deliverable.go:144-376 | Under any interleaving of PUTs and creators: at most one request between Insert and Update, the versions are exactly 1 to the main row's (plus the next in that window, minus 1 while the creator's is pending), the main row equals its version, and its number is one plus the PUTs that succeeded |
| `DeliverableHistory.NoPutIsLost` | src/internal/service/deliverable.go:303-376 | Every successful PUT has a version of its own that still carries the text of the row it was answered with |
| `DeliverableHistory.PutStoresItsText` | src/internal/service/deliverable.go:329-376 | In every run a PUT that succeeded has stored the title and content that its request brought, as a version row of its own and, while its version is current, in the main row, whose task and agent stay |
| `DeliverableHistory.CreateStoresItsText` | src/internal/service/deliverable.go:144-184 | And a create that succeeded has stored its deliverable's title and content as version 1 |
| `DeliverableHistory.EveryVersionWasBrought` | src/internal/service/deliverable.go:144-376 | Conversely every version row was written by one of the requests, for its deliverable, with that request's title and content |
| `DeliverableHistory.InsertSucceedsExactly` | src/internal/store/memory.go:952-970 | A PUT's Insert succeeds if and only if the row it read is current and nobody is between Insert and Update |
| `DeliverableHistory.UpdateAndFirstVersionSucceed` | src/internal/service/deliverable.go:144-184 | After a PUT's Insert its Update cannot fail, and a creator's first version cannot be refused |
| `DeliverableHistory.RunAppends` | src/internal/store/memory.go:931-970 | However a run goes on, no version row changes or goes and no main row goes back |
| `DeliverableHistory.TransactionIsVisible` | src/internal/store/memory.go:156-158 | A run in which others can see a version whose main row is not yet written |
| `VersionList.VersionStore.InsertVersion` | src/internal/store/memory.go:952-970 | Keeps the per-deliverable index of row ids exact beside the table |
| `VersionList.VersionStore.ListVersions` | src/internal/store/memory.go:972-997 | Through that index, exactly the deliverable's rows, newest first |
| `VersionList.ListingCountsDown` | src/internal/store/memory.go:972-997 | On a history of versions 1 to n the listing is n down to 1 |
| `Pagination.RowStore.CutInPlace` | src/internal/store/memory.go:726-740 | The in-place compaction over `filtered[:0]` keeps exactly the rows below the cursor, in order |
| `Pagination.RowStore.Filtered` | src/internal/store/memory.go:711-724 | Whatever the map order, each matching row once and no other |
| `Pagination.RowStore.List` | src/internal/store/memory.go:696-777 | A page and its cursor are cut from the one descending listing of the rows the request has still to see |
| `Pagination.RestMeans` | src/internal/store/memory.go:696-748 | What a request has still to see is exactly the rows that meet each filter given and come after its cursor's row, if that has a timestamp, by descending time and then descending id |
| `Pagination.ListingUnique` | src/internal/store/memory.go:743-748 | A set of rows has one such listing only |
| `Pagination.CursorSplits` | src/internal/store/memory.go:854-926 | If a page's last row has an id and a timestamp, what its cursor leaves is exactly what the page left |
| `Pagination.CursorLeadsOnExactly` | src/internal/store/memory.go:696-777 | On any table, the cursor of a page that is not the last leads to exactly the rows after it if and only if the page's last row has an id and a timestamp |
| `Pagination.WalkIsExact` | src/internal/store/memory.go:696-777 | Where pages end in such rows, following the cursors gives exactly the matching rows in (time DESC, id DESC) order, and ends if and only if enough pages are asked for |
| `Pagination.WalkIsCompleteExactly` | src/internal/store/memory.go:696-777 | On any table, following the cursors from the first page ends with all the matching rows in order if and only if each page that is not the last ends in a row with an id and a timestamp |
| `Pagination.WalkDescends` | src/internal/store/memory.go:854-926 | While rows are added and statuses change, the concatenated pages stay strictly descending |
| `Pagination.WalkUnderInserts` | src/internal/store/memory.go:854-926 | In that case no row comes twice, and a row there throughout that keeps matching comes exactly once if the walk ends |
| `Pagination.UnpointableRepeatsThePage` | src/internal/store/memory.go:706-709 | A first page that ends in a row without them is served again for its own cursor |
| `AgentPages.List` | src/internal/store/memory.go:449-487 | The page that begins after the first match with the cursor's id, or at the top if none has it, of 50 or up to 200 matches, and the next cursor |
| `AgentPages.LostCursorStartsOver` | src/internal/store/memory.go:449-458 | The first page is served again if and only if the cursor's agent is no longer listed |
| `AgentPages.WalkAscendsExactly` | src/internal/store/memory.go:404-491 | Whoever joins or leaves the list between requests, the pages of a walk together are strictly ascending, with no agent twice, if and only if at each request the cursor's agent is still listed or no listed agent comes before it |
| `AgentPages.WalkMeets` | src/internal/store/memory.go:404-491 | An agent listed throughout is met if the walk comes to its end |
| `AgentPages.RetiredCursorRepeatsAnAgent` | src/internal/store/memory.go:449-458 | A walk that shows an agent twice because the cursor's agent retired |
| `RateLimiter.RateLimit.Handle` | src/internal/middleware/middleware.go:297-328 | One request's answer and the key's new bucket, refilled at RPM / 60 tokens a second up to RPM + Burst, with a full one for a new key |
| `RateLimiter.RateLimit.SweepIdle` | src/internal/middleware/middleware.go:282-295 | Deletes exactly the buckets idle for more than 30 minutes |
| `RateLimiter.SweepUnseenExactly` | src/internal/middleware/middleware.go:279-316 | The limiter that sweeps answers every trace of requests and sweeps like the one that never deletes, if and only if Burst is at most 29 RequestsPerMinute |
| `RateLimiter.TokensStayInBounds` | src/internal/middleware/middleware.go:279-316 | On every trace tokens stay between 0 and RPM + Burst |
| `RateLimiter.RemainingIsExact` | src/internal/middleware/middleware.go:297-328 | When a request is admitted with n remaining, exactly n more of that key are admitted at that moment |
| `RateLimiter.RateBound` | src/internal/middleware/middleware.go:279-328 | If Burst is at most 29 RequestsPerMinute: in any stretch of T seconds of any trace a key is admitted at most max(0, RPM + Burst) + T * RPM / 60 times |
| `RateLimiter.RateBoundExactly` | src/internal/middleware/middleware.go:279-328 | That bound holds of every key in every stretch of every trace if and only if Burst is at most 29 RequestsPerMinute; above that, draining a bucket, the sweep half an hour later and draining the new bucket exceed it |
| `EventBus.RingBuffer.Push` | src/internal/events/bus.go:234-240 | The array ring, its head and its full flag keep holding the last events of the log, with the new one at the end |
| `EventBus.RingBuffer.Last` | src/internal/events/bus.go:245-271 | The backward index loop returns the last min(n, size, count) events of the log, oldest first |
| `EventBus.MemoryBus.Publish` | src/internal/events/bus.go:131-153 | Appends the event to its project's log, with the next id and the publish time where it has none |
| `EventBus.MemoryBus.Last` | src/internal/events/bus.go:208-219 | The last min(n, 200) events of that project's log; nothing for n at most 0 or an unknown project |
| `EventBus.EventsAreAsPublished` | src/internal/events/bus.go:131-153 | After any sequence of publishes the log has their events in order, with project and payload as given, the id and time given or else the bus's count from 1 and the clock's time |
| `EventBus.ReplayIsExact` | src/internal/events/bus.go:131-271 | For every project log with increasing ids, whoever gave them: keeping the events newer than the last one seen yields all of them if and only if at most min(n, 200) were missed |
| `EventBus.ResumableExactly` | src/internal/events/bus.go:78-86 | The events newer than the one last seen are those published after it, whichever it was, if and only if the ids increase |
| `EventBus.PublishKeepsResumable` | src/internal/events/bus.go:131-153 | A publish keeps a project's log so if and only if the id it gives or keeps is above the project's last one |
| `EventBus.RunIsResumableExactly` | src/internal/events/bus.go:131-153 | After any sequence of publishes a project's log is so if and only if each of its events was ahead when it was published |
| `EventBus.BusIdsAreResumable` | src/internal/events/bus.go:133-136 | With ids given by the bus alone it always is |
| `EventBus.PresetIdHidesAnEvent` | src/internal/events/bus.go:133-136 | After any event whose own id is not below the bus's next one, the event published next without an id is in no replay, of any window, for a consumer that saw the first |
| `MockRuntime.Runtime.Spawn` | src/internal/aion/mock.go:146-171 | Refuses a closed runtime and an invalid spec; otherwise the next handle names a new worker |
| `MockRuntime.Runtime.PushResult` | src/internal/aion/mock.go:252-257 | Only the winner of the swap puts a result in the slot |
| `MockRuntime.Runtime.RunWorker` | src/internal/aion/mock.go:175-214 | The goroutine by itself is its three steps of the step system |
| `MockRuntime.Runtime.Terminate` | src/internal/aion/mock.go:218-247 | The script's outcome, result and error message; no outcome is read as completed, and a non-terminal one is coerced to failed and named in the message |
| `MockRuntime.Runtime.Cancel` | src/internal/aion/mock.go:297-326 | By itself its four steps; unknown handles are reported and change nothing |
| `MockRuntime.Runtime.Wait` | src/internal/aion/mock.go:261-293 | When it returns the result, an error or blocks, and its steps |
| `MockRuntime.Runtime.Close` | src/internal/aion/mock.go:330-352 | Takes effect once and cancels every listed worker |
| `MockRuntime.ResultAtMostOnce` | src/internal/aion/mock.go:146-326 | Under any interleaving of runners, Cancel, Close and Wait a worker's result is sent at most once and returned by at most one Wait; it is terminal, has that worker's handle and ExecutionID, and has the script's result and message, unless the worker was cancelled or the runtime closed: then it may be cancelled, without a result and with the message of that cause |
| `MockRuntime.SendNeverBlocks` | src/internal/aion/mock.go:252-257 | Whoever won the swap finds the one-slot channel empty |
| `MockRuntime.ResultIsNeverLost` | src/internal/aion/mock.go:175-293 | Once the goroutine has ended and no Cancel is about to send, the result is either in the channel or returned |
| `ProcessOutput.ProcessWorker.PumpStdout` | src/internal/aion/process.go:209-290 | The scan loop leaves the verdict on the last well-formed frame, with its times, once |
| `ProcessOutput.LastFrameDecides` | src/internal/aion/process.go:233-283 | A worker always ends terminal, completed exactly if its last frame is a result and cancelled exactly if its last frame says so |
| `ProcessOutput.LastFrameIsTold` | src/internal/aion/process.go:233-283 | The last frame alone gives the result its start time, body and error message; without a frame the message says that there was no output |
| `AgentFactory.Factory.SpawnAgent` | src/internal/agentfactory/agent_factory.go:188-269 | Its reply in every case, and that by itself it is its steps of the step system |
| `AgentFactory.Factory.Track` | src/internal/agentfactory/agent_factory.go:238-256 | The second section: tracked, or signalled when Shutdown came in between |
| `AgentFactory.Factory.Shutdown` | src/internal/agentfactory/agent_factory.go:342-386 | Takes effect once, empties the map, signals exactly the non-zero PIDs in it, then closes the runtime and passes on its error |
| `AgentFactory.EveryProcessInOnePlace` | src/internal/agentfactory/agent_factory.go:198-386 | Under any interleaving a started process is in exactly one of a call's hand, the map, Shutdown's copy, the signalled and the displaced ones |
| `AgentFactory.OrphansAreTheDisplaced` | src/internal/agentfactory/agent_factory.go:198-386 | Once all calls have returned nothing is tracked, and a process was signalled if and only if no later registration of its agent displaced it |
| `AgentFactory.NoOrphans` | src/internal/agentfactory/agent_factory.go:198-386 | With distinct agents every started process was signalled |
| `AgentFactory.RespawnLeavesAnOrphan` | src/internal/agentfactory/agent_factory.go:255 | Two spawns for one agent leave the first process unsignalled |
| `Assignments.OneActivePerTask` | src/internal/store/memory.go:1524-1605 | Over any order of creates and updates by any callers, the index maps a task to a row exactly when that row is the task's active one, and there is at most one |
| `Assignments.AssignmentService.Create` | src/internal/store/memory.go:1524-1559 | Adds an active row and its index entry, unless the task has one; the errors, which change nothing |
| `Assignments.AssignmentService.Update` | src/internal/store/memory.go:1567-1605 | Overwrites the row and keeps the index in step; refuses a second active row for the task |
| `Assignments.AssignmentService.GetActiveByTask` | src/internal/store/memory.go:1622-1635 | The row the index names |
| `Assignments.AssignmentService.AppendEvent` | src/internal/store/memory.go:1452-1480 | Adds the event at the end of its task's history |
| `Assignments.AssignmentService.AssignTaskToAgent` | src/internal/service/assignment.go:106-330 | Each refusal exactly when, changing nothing; else the active row is superseded as of now, the new row is active in its place, one event of the same row, agent and time is added, and the task has that agent |
| `Assignments.HistoryReplays` | src/internal/service/assignment.go:189-330 | After any sequence of calls one by one, each task's assignee, active row and last event name one agent, earlier rows are superseded as of the next event, rows and events pair one to one, and the actions are assign, then reassign |
| `Assignments.SequentialCallsSucceed` | src/internal/service/assignment.go:189-330 | Calls one by one never meet the race error; one that passes the checks writes, and repeating it adds nothing |
| `Assignments.PatchKeepsReplayExactly` | src/internal/service/task.go:128-130 | After any sequence of calls, UpdateTask keeps a task's history replayable if and only if it does not change the assignee; if it does, assigning the new assignee writes nothing and answers with another agent's row |
| `AssignmentRaces.RowsAndEventsPair` | src/internal/service/assignment.go:233-295 | Under any interleaving of calls and UpdateTask the index is exact, every event names a row of its task and agent, no row has two events, and a row without one has a call about to append it |
| `AssignmentRaces.CallAloneIsAtomic` | src/internal/service/assignment.go:106-330 | Six steps of a call with nothing in between are the one-call function |
| `AssignmentRaces.RaceIsToldExactly` | src/internal/service/assignment.go:246-295 | In every run a call that comes to create its row is answered with the race conflict if and only if the task has an active row again |
| `AssignmentRaces.RaceLosesTheAssignee` | src/internal/service/assignment.go:306-315 | Whatever the task, agents and ids: two calls at once can both succeed and leave the assignee at the superseded row's agent |
| `AssignmentTasks.LoneTaskReplays` | src/internal/service/assignment.go:189-330 | In any run in which the calls on a task do not overlap each other and UpdateTask leaves its assignee alone, the task's history replays to its state whenever none of them is running, whatever calls on other tasks do meanwhile |
| `AssignmentTasks.AssigneeIsLastWritten` | src/internal/service/assignment.go:306-315 | In every run a task's assignee is the agent of its last write, by a call or by UpdateTask |
| `AssignmentTasks.AssigneeAgreesExactly` | src/internal/service/assignment.go:306-315 | In every run the assignee is the active row's agent if and only if the last write gave that agent; when the task's rows are of different agents and no patch came last, if and only if the last write was by the call that created the active row |
| `Lifecycle.ExecutionService.UpdateStatus` | src/internal/store/memory.go:785-806 | Status, completion time and error message after an unchecked write |
| `Lifecycle.ExecutionService.CreateExecution` | src/internal/service/execution.go:321-394 | A new row is assigned; when the spawn succeeds the row is saved again and a pending worker row added, and when it fails the row stays |
| `Lifecycle.ExecutionService.UpdateExecutionStatus` | src/internal/service/execution.go:535-559 | Same status is a no-op, an edge of the table is taken, anything else is refused |
| `Lifecycle.ExecutionService.ReviewExecution` | src/internal/service/execution.go:599-641 | Only from review; accept completes, reject needs a reason and fails |
| `Lifecycle.ExecutionService.CancelExecution` | src/internal/service/execution.go:652-671 | Fails a non-terminal row with the operator's reason |
| `Lifecycle.ExecutionService.DriveWorker` | src/internal/service/execution.go:693-771 | The worker row as running and then ended, with its time, message and result, and the attempted transition, for each outcome of Wait |
| `Lifecycle.HistoryIsAPath` | src/internal/service/execution.go:231-266 | Over any sequence of calls a row starts as assigned, moves along the table's edges only, enters completed only from review and never by driveWorker, and never leaves a terminal status |
| `Lifecycle.CompletedExactly` | src/internal/service/execution.go:535-641 | In every run a row is completed if and only if, while it was in review, a call accepted it or patched it to completed |
| `Lifecycle.FailedExactly` | src/internal/service/execution.go:535-771 | In every run a row is failed if and only if, before it had ended, a cancel came, a reject with a reason while it was in review, a patch to failed, or the end of a worker that did not complete |
| `Lifecycle.FailureIsRecorded` | src/internal/store/memory.go:785-806 | A failed row keeps the error message that such a call brought, spelled out for each of them, and its time until the second save of CreateExecution |
| `Lifecycle.CompletionIsRecorded` | src/internal/store/memory.go:785-806 | A completed row keeps its time likewise, and has no message unless a patch brought one |
| `Lifecycle.WorkerRowIsRecorded` | src/internal/service/execution.go:693-771 | The worker row keeps what the last start or end of driveWorker told it: running; or completed with the result; or failed with the message |
| `Lifecycle.RepliesExactly` | src/internal/service/execution.go:535-671 | In every run, which of not found, invalid transition, reason required and done a patch, decision or cancel is answered with, by the row's status |
| `Lifecycle.DoneMeansMoved` | src/internal/service/execution.go:535-671 | A patch, decision or cancel answered with done leaves its row in the status asked for, a patch with its message and time, and no other row changes; any other answer, and nothing has changed |
| `Lifecycle.PatchesCompleteWithoutReview` | src/internal/service/execution.go:535-559 | Three patches take a new row to completed without any review action |
| `Lifecycle.TerminalIsForever` | src/internal/service/execution.go:231-266 | A row completed or failed at one point of a run is so at every later one |
| `Lifecycle.SoundAlways` | src/internal/store/memory.go:785-806 | In every run a row has a completion time if and only if its status is terminal |
| `Lifecycle.OnlyAPatchStartsAnExecution` | src/internal/service/execution.go:321-333 | A row is in running, review or completed only if a client's PATCH moved it to running earlier |
| `Lifecycle.DriveIsTakenExactly` | src/internal/service/execution.go:726-771 | In every run, when driveWorker's transition is taken; and that without a PATCH to running a worker's completion changes no execution row |
| `Lifecycle.UndisturbedRunKeepsTerminals` | src/internal/service/execution.go:535-559 | With read and write apart, a schedule in which each write finds the status that was read keeps to the table |
| `Lifecycle.WriteLeavesTheTableExactly` | src/internal/service/execution.go:535-559 | In any schedule of overlapping calls, CreateExecution's second save among them: a call's write leaves the table if and only if another call has written the row since its read and the last such write is neither to its target nor to a status from which the table allows it; when it takes a row out of a terminal status, and when it puts the completion time out of step with the status |
| `Lifecycle.ScheduleKeepsTheTableExactly` | src/internal/service/execution.go:535-559 | Every step of a schedule of overlapping calls moves a row along an edge of the table or not at all, if and only if no write to the row is overtaken in that way |
| `Lifecycle.SaveUndoesAStart` | src/internal/service/execution.go:361-369 | The second save of CreateExecution can be overtaken so: it puts an execution that a client has moved to running back to assigned |
| `Lifecycle.RaceLeavesATerminalState` | src/internal/service/execution.go:599-671 | An accept can be overtaken so by a cancel: it turns a failed execution into a completed one |
| `Agents.AgentService.StoreUpdate` | src/internal/store/memory.go:493-513 | Commits exactly when the versions agree, and takes the version up by one |
| `Agents.AgentService.SetCapabilities` | src/internal/store/memory.go:529-539 | Writes whatever the version |
| `Agents.AgentService.SoftDelete` | src/internal/store/memory.go:515-527 | Retires and takes the version up by one |
| `Agents.AgentService.UpdateAgent` | src/internal/service/agent.go:270-365 | The reply of one call by itself in every case; a commit gives the row each field of the request and leaves the others, one version on or two |
| `Agents.OneCommitPerVersion` | src/internal/service/agent.go:270-365 | Under any interleaving at most one of the plain calls that carry the same version commits |
| `Agents.VersionsOnlyGrow` | src/internal/store/memory.go:493-539 | Every step leaves an agent alone or takes its version up by one |
| `Agents.PlainCommitLosesNothing` | src/internal/service/agent.go:353-364 | In every run a plain call commits if and only if the version it carries is current; it then changes the fields of the request in the row as it is, which is not retired |
| `Agents.SetCapabilitiesOverwritesExactly` | src/internal/service/agent.go:313-335 | In every run the first write of a capability call goes through whatever the version; it overwrites the capabilities that another call set since its first read, if one did, and otherwise those it had read, and in the first case the row's version is past the one it carries |
| `Agents.CapabilityCommitLosesNothingExactly` | src/internal/service/agent.go:313-352 | In every run, when the last write of a capability call commits; and that it then loses nothing if and only if the fields left out of the request are as at its first read, as they are while SetCapabilities was the only write since |
| `Agents.CapabilityRewriteLosesARename` | src/internal/service/agent.go:313-352 | A run in which it loses a concurrent role change with the same version |
| `Printing.IntToString` | src/internal/service/errors.go:176-197 | Decimal text, with every index inside the 20-byte buffer for every int64 |
| `Printing.ParseOfPrint` | src/internal/service/errors.go:176-197 | Parsing the text gives the number back if and only if it is not the least int64 |
| `Printing.PrintIsInjective` | src/internal/service/errors.go:176-197 | Different numbers print differently |
| `Printing.PadTwo` | src/internal/service/errors.go:199-204 | A leading zero below ten |
| `Printing.FormatBytes` | src/internal/service/errors.go:151-174 | The text in each of the five size ranges |
| `Printing.FractionIsFloorOfHundredths` | src/internal/service/errors.go:161-170 | Two fraction digits, and the digits read as one number are the size in hundredths of a unit rounded down |
| `Printing.PidRoundTrips` | src/internal/agentfactory/agent_factory.go:396-411 | The PID of a printed process handle parses back if and only if it is not negative |
| `Printing.MockHandlesHaveNoPid` | src/internal/agentfactory/agent_factory.go:396-400 | No mock handle parses |

## Left out

Not modelled:

- HTTP handlers, routing, CORS, JSON binding, logging, authentication, webhooks and the frontend.
- The Postgres stores and migrations, Docker, real subprocesses, pipes and operating-system signals. A signal is the PID's entry in `signalled`, whether or not it was delivered.
- Real clocks, randomness and UUID generation: times are arguments, and new ids and PIDs are fresh.
- Cross-tenant checks and request validation ahead of the store calls. Eligibility of an agent, and validity of an agent update, are arguments.
- The legacy mock execution goroutine, which writes a status without consulting the table.
- Subscriptions of the event bus: channel sends happen outside the lock. The uint64 wrap of its id counter.
- Task boards, capability catalogues and scores, configuration, JSON overrides of an agent's runtime, and the plain CRUD stores.
- `RegisterScript` and `SetDefaultScript` of the mock runtime: the script a worker gets is an argument of its creation.
- Scanner limits of the process runtime, and its stderr.
- Notes and author of assignment events, and created_at and created_by of version rows: written once and not read by the code modelled.
- Filtering and sorting of the agent list, which are as in `Pagination`; `AgentPages` starts from the matches in list order.
- `joinStrings` and the error constructors.

Modelled with a limit:

- DispatchQueue.InMemoryQueue.constructor: buffer sizes below one are not modelled; a Go channel of size 0 hands over without buffering, and a negative size panics.
- DispatcherRuns.EverySpecInOnePlace: assumes that no Enqueue begins with an ExecutionID that is waiting or unsettled, which Enqueue does not check; an id that was refused, given up, acked or dead-lettered may come again. `DispatcherRuns.SharedIdLosesASpec` shows what can happen otherwise.
- DispatcherPool.Pool.Stop: whether the loops end before Stop's ctx does is an argument.
- RateLimiter.RateLimit.Handle: tokens and seconds are reals; float64 rounding is not modelled.
- RateLimiter.TokensStayInBounds: with a negative Burst beyond RPM the lower end is that negative maximum.
- MockRuntime.Runtime.Cancel: closing cancelCh is one step; the source checks and closes in two, and two Cancels at once could both close it.
- MockRuntime.Runtime.Spawn: a closed runtime is seen at entry only, as in the source, so a worker can be added after Close.
- ProcessOutput.ProcessWorker.PumpStdout: the error text after a non-terminal frame is that frame's type; how fmt quotes it is not modelled.
- Lifecycle.HistoryIsAPath: each service call is atomic per row; the rows from `UndisturbedRunKeepsTerminals` to `RaceLeavesATerminalState` say what the source's separate read and write add.
- Lifecycle.WriteLeavesTheTableExactly: a call reads the status once, before its write; that review and cancel look at it once before that, and that the memory store hands out the live row, so that two looks at it may differ, is not modelled.
- Lifecycle.ExecutionService.CreateExecution: whether the runtime's Spawn succeeds is an argument; store errors other than a taken id cannot happen in memory.
- AgentFactory.Factory.Shutdown: whether the runtime's Close fails is an argument.
- Assignments.AssignmentService.AssignTaskToAgent: the in-place change of the shared task's required capabilities is not modelled.
- Assignments.HistoryReplays: calls one by one; `AssignmentTasks.LoneTaskReplays` needs that for the task's own calls only, and `AssignmentRaces.RaceLosesTheAssignee` shows that it fails without.
- Printing.PidRoundTrips: strconv.Atoi is modelled for base-ten texts with an optional sign.
