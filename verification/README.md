# Verified models of the mobile clients, their BFF, the exec bridge and the ticket worker

This project models the stateful and algorithmic core of the repository in Dafny and proves what
that code promises. `dafny verify dfyconfig.toml` checks all of it. Objects whose methods change
their fields are classes with the same fields, loops are loops, and code made of expressions is
functions; each method is tied to a function or a predicate, and the theorems are about those.
Concurrency is modelled as steps: every handler, promise continuation or delivery is one step, and
the main theorems hold after every sequence of enabled steps.

**Gantt view** (`DependencyGraph`, `Gantt`, `GanttTheory`, `GanttDates`). Kahn's algorithm with
its in-place indegree, queue and depth updates, for every dependency list (duplicates, unknown ids
and self-edges included). Without repeated ids the result is a permutation; `hasCycle` is exact;
the prefix is exactly the tasks not on or behind a cycle, in one determined order; depth is the
longest walk through tasks off the cycles. The documentation comment says the order "falls back to
source" on a cycle; the code keeps the placed prefix and appends only the rest in source order,
and the model follows the code. A finding: with repeated ids the flag is not to be trusted
(`FlagTrustedIff`, `RepeatHidesCycle`). A bar overruns the chart by at most one day, and
`BarOverrunsIff` says exactly when.

**Offline sync** (`ChangeLog`, `Sync`, `SyncProtocol`). The event service writes and announces,
notices arrive at least once and in any order, a pull reads its watermark, then its pages one by
one with writes racing it. A removed event still mirrored always has its latest archive notice
undelivered or logged past the cursor; once all are delivered one quiet pull converges.
`PullItemsAre` says exactly which changes one pull sends, `RowIffNotice` which notices are logged.

**Mutation replay** (`Mutations`, `MutationResults`, `MutationTheory`). In-batch and durable
idempotency; what each entry is answered and what is stored for it (`FreshResult`, `OtherResult`,
`RowsAfter`). Splitting a batch is *not* always invisible: `SplitUnobservableIff` gives the exact
condition (the second part repeats no key the first settled without storing it; `SplitShows` is
such a pair), and `ForgottenAreErrors` says which keys those are with a store and a user. A key
takes effect at most once as long as no save is lost; `LandingsBalance` counts exactly what a
failing store costs.

**Android chat** (`ChatStore`, `ChatProtocol`). Sends, acks, failures, repeated deliveries, deletes
and reloads. Each server message is one confirmed row, and the acked list does not depend on the
interleaving. A finding: with two identical sends a failed one can lose its retry row
(`FailedSendCanVanish`); `RowConsumedIff` and `FailShowsIff` say exactly when.

**iOS chat** (`ChatSession`). The reducers keep time order and distinct ids, events are idempotent.
A finding: a history load that already holds the sent message leaves the optimistic copy pending,
and its own echo no longer confirms it (`HistoryStrandsPending`, exact condition `EchoConfirmsIff`);
`PendingRowGoesIff` says what can still take it away, among it a later message of the same author
and text, which it then shows under that message's id (`StrandedTakesNext`).

**Exec bridge** (`RunSpec`, `RunOutput`, `RunLines`, `RunEnds`, `RunConn`, `ExecBridge`,
`RunStream`, `TextLines`, `Sse`). The run as a reaction to output chunks, timers, cancel, abort
and close; the store that emits and fans out, whose `Valid()` ties every run to its lifecycle and
every connection to its run; the SSE wire and the relay's read loop, end to end (`RelayRecovers`).
`StdoutTells` and `StderrTells` say which event a line becomes, `CloseTells` how a run ends. A
finding: the read loop renormalises line ends of the tail it keeps, which leaves events and tail
as they should be at every moment exactly when the stream has no `\r\r\n` (`ChunkingInvisibleIff`,
`DoubleCrMatters`); the daemon's own frames have none.

**QR image** (`Crc32`, `QrRaster`, `Png`). The table-driven CRC is the bit-serial register of
section 3.4 of RFC 2083; the painted buffer and the chunk container decode back to the matrix. A
finding: a matrix with a row longer than its height can paint into the right quiet zone
(`QuietZoneIff`, `RaggedRowShows`); the square matrices of the QR encoder cannot.

**401 handling** (`ApiClient`, `ApiRuns`, `AuthInterceptor`, `AuthRuns`). Bounded retries and a
refresh shared by all waiting requests, in every interleaving; the outcome of a request is read
off the replies it got (`OutcomeTells`, `ResultTells`). Findings: a refresh answer that arrives
after a logout writes the session back (`ClearedSticksIff`, `LogoutLastsIff`, with runs that do
it), and a refresh function that throws before returning its promise leaves an already settled
promise in the slot, after which no request is ever retried (`SpentIff`, `RetryPossibleIff`,
`ThrowingRefreshStrands`). The Android client's own refresh function is asynchronous and does not
throw that way.

**Ticket worker** (`FailureLimiter`, `SenderNetwork`, `FormFields`, `Checkout`, `CheckoutTells`).
The purging limiter answers like one that keeps all history until its overflow clear, whose exact
trigger is `OverflowIff`; the IPv6 key is the /64 for every hexadecimal spelling (section 2.2 of
RFC 4291). A finding: spellings that end in a dotted quad get that key only under the condition of
`DottedKeyIff`. The checkout form is accepted exactly when the caps, the buyer's details and the
custom fields allow it.

## Model

| member | source | states |
|---|---|---|
| Gantt.DependencyOrderOf | apps/mo1-ios/src/gantt.ts:50-88 | for every list, repeated ids included, the rows are exactly the listed ids: those of the queue run, then the missing ones in source order, and the flag says that the run fell short; without repeated ids it is a Kahn-placed prefix followed by the stuck tasks in source order, `hasCycle` iff the counted edges have a cycle, and every depth is the longest walk through tasks off the cycles |
| Gantt.ReadLines | apps/mo1-ios/src/gantt.ts:54-63 | the indegree map and successor lists hold exactly the edges between known, different tasks, with duplicates, in line order |
| Gantt.Seed | apps/mo1-ios/src/gantt.ts:69 | the first queue is the tasks without counted predecessors, in source order |
| Gantt.Process | apps/mo1-ios/src/gantt.ts:72-79 | consuming one successor list keeps queue, counters and depths in step: for every list the queue is the roots and then each task once its last entry is consumed; without repeated ids depths stay real walk lengths |
| Gantt.QueuedFits | apps/mo1-ios/src/gantt.ts:69-82 | for every list, repeated ids included, no id is queued more often than it is listed; equally many means a permutation, which is what the length comparison relies on |
| Gantt.Drain | apps/mo1-ios/src/gantt.ts:71-80 | the loop ends for every list, having served the queue first in, first out until it was empty; without repeated ids the placed tasks are exactly those not on or behind a cycle, at their final depth |
| Gantt.RunTopological | apps/mo1-ios/src/gantt.ts:71-80 | without repeated ids, serving the queue first in, first out puts every placed task behind all its predecessors |
| Gantt.NextUnplaced | apps/mo1-ios/src/gantt.ts:74-78 | without repeated ids, the target of an entry being consumed has not been placed, so depths are final when a task leaves the queue |
| Gantt.AppendRest | apps/mo1-ios/src/gantt.ts:82-84 | the missing tasks follow in source order, so that no id is lost |
| Gantt.MissingIsStuck | apps/mo1-ios/src/gantt.ts:82-84 | once the tasks off every cycle are placed, the missing ones are exactly the tasks on or behind a cycle, in source order |
| Gantt.PlacedIffClear | apps/mo1-ios/src/gantt.ts:71-82 | a task is placed iff no cycle leads to it |
| Gantt.CycleIffUnplaced | apps/mo1-ios/src/gantt.ts:82-87 | comparing lengths detects a cycle: the edges have one iff fewer tasks were placed than given |
| Gantt.DepthIsLongest | apps/mo1-ios/src/gantt.ts:65-80 | the in-place maximum ends at the length of the longest walk, for placed and for stuck tasks |
| DependencyGraph.WaitingIsBehindCycle | apps/mo1-ios/src/gantt.ts:71-82 | if every waiting task waits on a waiting task, each one is on or behind a cycle (pigeonhole on a backward walk) |
| DependencyGraph.PlacedNotBehindCycle | apps/mo1-ios/src/gantt.ts:71-80 | no task of a topologically ordered list is on or behind a cycle |
| DependencyGraph.WalkWithinDepth | apps/mo1-ios/src/gantt.ts:75 | no walk through processed tasks is longer than the recorded depth of its end |
| DependencyGraph.FedCount | apps/mo1-ios/src/gantt.ts:74-78 | consumed and unconsumed entries of a task always add up to its indegree |
| GanttTheory.OrderIsDetermined | apps/mo1-ios/src/gantt.ts:44-49 | the contract leaves one order: any two placements of the same tasks and lines are equal |
| GanttTheory.RowsAreDetermined | apps/mo1-ios/src/gantt.ts:50-88 | for any list, repeated ids included, one order and one flag meet the contract |
| GanttTheory.PlacedTimes | apps/mo1-ios/src/gantt.ts:69-79 | a root is placed as often as it is listed, another task at most once, namely iff the consumed lists name it as often as its lines do |
| GanttTheory.FlagTrustedIff | apps/mo1-ios/src/gantt.ts:82-87 | for lists without repeated ids, and lists of one id only, the flag is right whatever the lines are; for every other list some line raises it without a cycle |
| GanttTheory.RepeatHidesCycle | apps/mo1-ios/src/gantt.ts:71-87 | with a root listed twice the flag misses a cycle behind it, because each copy consumes the successor list again |
| GanttTheory.ReleasedInFreeingOrder | apps/mo1-ios/src/gantt.ts:72-78 | rows past the roots appear in the order in which their last dependency clears |
| GanttTheory.AcyclicPredecessorsFirst | apps/mo1-ios/src/gantt.ts:34-36 | without a cycle every predecessor of a row comes before it |
| GanttTheory.DepthGrowsAlongEdge | apps/mo1-ios/src/gantt.ts:37-38 | depth strictly increases along every edge out of a task off the cycles |
| GanttTheory.DepthZeroIff | apps/mo1-ios/src/gantt.ts:37-38 | depth 0 iff every counted predecessor is on or behind a cycle |
| GanttTheory.DepthZeroAcyclicIff | apps/mo1-ios/src/gantt.ts:37-38 | on an acyclic graph, depth 0 iff there is no counted predecessor |
| GanttDates.DateRangeOf | apps/mo1-ios/src/gantt.ts:91-100 | start and end are scheduled dates that no later-seen date beats (a first date that does not parse is never displaced), with the clamped rounded span |
| GanttDates.WindowHolds | apps/mo1-ios/src/gantt.ts:91-100 | when all dates parse, every scheduled row lies in the window |
| GanttDates.RoundSum | apps/mo1-ios/src/gantt.ts:18-23 | two roundings exceed the rounding of the sum by at most one, and exactly when both remainders round up and together stay under a day and a half |
| GanttDates.NearestDay | apps/mo1-ios/src/gantt.ts:18-23 | rounding gives the nearest day, the later of two |
| GanttDates.BarTells | apps/mo1-ios/src/gantt.ts:161-164 | length and place of any bar, unscheduled and unparsed ones included |
| GanttDates.BarWithinWindow | apps/mo1-ios/src/gantt.ts:161-164 | offset is at least 0 and offset plus duration at most totalDays + 1 |
| GanttDates.BarOverrunsIff | apps/mo1-ios/src/gantt.ts:161-164 | any bar overruns iff its lead and length are in the case of `RoundSum` and its end rounds to the same day as the end of the chart |
| GanttDates.MiddleBarOverruns | apps/mo1-ios/src/gantt.ts:161-164 | a bar that does not end the chart can overrun it |
| GanttDates.WholeDaysFit | apps/mo1-ios/src/gantt.ts:161-164 | a bar whose length is a whole number of days never overruns |
| ChangeLog.ArchivedIsDelete | apps/mo3-mobile-bff/src/change-log.ts:64-86 | an archived notice of a named event, action or task becomes exactly that entity's delete row; an unnamed one no row |
| ChangeLog.DeleteIsArchived | apps/mo3-mobile-bff/src/change-log.ts:174-180 | nothing but a subscribed archived notice becomes a delete row |
| ChangeLog.RowIffNotice | apps/mo3-mobile-bff/src/change-log.ts:64-86 | a subscribed notice named domain.verb becomes the row of the entity its payload names under domainId, a delete exactly for archived and an upsert otherwise; no other envelope becomes a row |
| ChangeLog.D1ChangeLog.Append | apps/mo3-mobile-bff/src/change-log.ts:142-160 | one row per envelope id: a redelivery changes nothing, a new one is added past every number in use |
| ChangeLog.D1ChangeLog.IngestEvent | apps/mo3-mobile-bff/src/change-log.ts:174-180 | unsubscribed or malformed envelopes are acknowledged without a row; the answer says whether there was something to append |
| ChangeLog.D1ChangeLog.HeadSeq | apps/mo3-mobile-bff/src/change-log.ts:114-117 | the head is the largest number in the log, 0 when empty |
| ChangeLog.D1ChangeLog.DeletesSince | apps/mo3-mobile-bff/src/change-log.ts:119-130 | the delete rows of the half-open window, ascending |
| ChangeLog.DeletesInMembers | apps/mo3-mobile-bff/src/change-log.ts:119-130 | a row is returned iff it is logged, a delete, and in the window |
| Sync.FetchAllPages | apps/mo3-mobile-bff/src/sync.ts:101-113 | the items of the cursor chain up to its end or the page bound |
| Sync.DrainCompleteIff | apps/mo3-mobile-bff/src/sync.ts:95-113 | for every source, following the chain further would add nothing iff no page past the bound holds an item |
| Sync.BuildSync | apps/mo3-mobile-bff/src/sync.ts:162-186 | the change list: upserts of the three snapshots, then, with a cursor and a grown head, the tombstones of the window that are not live again |
| Sync.PullItemsAre | apps/mo3-mobile-bff/src/sync.ts:162-186 | exactly which changes a pull sends: every snapshot row as an upsert and no other; the delete of an event or task exactly when it was logged after the cursor, no later than the watermark, and the snapshot does not have it; never one of the inbox, and none without a cursor |
| Sync.PutsFirst | apps/mo3-mobile-bff/src/sync.ts:162-186 | all upserts come before all tombstones |
| Sync.ApplyDrops | apps/mo3-mobile-bff/src/sync.ts:173-186 | applying the tombstones removes exactly the rows buried in the window and not in the snapshot |
| Sync.AfterPullIs | apps/mo3-mobile-bff/src/sync.ts:162-186 | a mirrored event survives a pull iff the snapshot has it, or the mirror had it and the window holds no tombstone for it; snapshot data wins |
| SyncProtocol.SyncSafety | apps/mo3-mobile-bff/src/sync.ts:136-188 | in every run a mirrored event that is no longer live has its latest archive notice undelivered or logged past the cursor |
| SyncProtocol.SyncConverges | apps/mo3-mobile-bff/src/sync.ts:136-140 | from any reachable state with all notices delivered, one quiet pull makes the mirror equal to the live set |
| SyncProtocol.QuietPullExact | apps/mo3-mobile-bff/src/sync.ts:168-186 | a quiet pull over the whole live set is exact iff every stale row has its tombstone in the window |
| SyncProtocol.StepKeeps | apps/mo3-mobile-bff/src/sync.ts:136-188 | every step, including a delivery or an archive between two pages of a pull, keeps the protocol invariant |
| SyncProtocol.FinishKeeps | apps/mo3-mobile-bff/src/sync.ts:188 | storing the watermark read before the fan-out is what keeps later tombstones ahead of the cursor |
| SyncProtocol.OwedSplits | apps/mo3-mobile-bff/src/sync.ts:145 | at the start of a pull an owed tombstone is past the head or inside the window, never lost between |
| Mutations.ApplyMutations | apps/mo3-mobile-bff/src/mutations.ts:96-162 | one request in terms of the replay: results, downstream calls and stored table; a body without an array is rejected and changes nothing, a rejected `get` or `save` rejects the request and leaves what was done |
| MutationResults.RouteIff | apps/mo3-mobile-bff/src/mutations.ts:62-83 | which request each operation is forwarded as: service, path, body and key; what is refused, and with which error |
| MutationResults.FreshResult | apps/mo3-mobile-bff/src/mutations.ts:139-151 | a key that is neither repeated nor stored is forwarded after everything sent so far; its result is applied with the resource, conflict or error with the error, exactly as the service answered |
| MutationResults.OtherResult | apps/mo3-mobile-bff/src/mutations.ts:118-137 | a repeated key is a duplicate with the detail of its first result, a stored one with the stored detail; no service is called |
| MutationResults.MalformedResult | apps/mo3-mobile-bff/src/mutations.ts:107-116 | an entry that is no object or lacks key or operation is an error of its own and leaves everything else alone |
| MutationResults.RowsAfter | apps/mo3-mobile-bff/src/mutations.ts:153-157 | a row is stored exactly for a fresh applied or conflicting mutation, with a user and without a row before; it is the result the client reads |
| MutationResults.RejectedIff | apps/mo3-mobile-bff/src/mutations.ts:128-157 | with a store that can fail, a request is rejected exactly when a lookup fails for the first mutation of some key, or a save for one that was applied or a conflict |
| Mutations.D1MutationStore.Save | apps/mo3-mobile-bff/src/mutation-store.ts:47-62 | first writer wins: a stored key is never overwritten |
| MutationTheory.FirstSaveWins | apps/mo3-mobile-bff/src/mutation-store.ts:34-62 | after any sequence of saves a lookup returns the row that was there before, else the first outcome saved under the key |
| MutationTheory.RoutesApart | apps/mo3-mobile-bff/src/mutations.ts:62-83 | the service and path a mutation reaches determine its operation and its row |
| MutationTheory.ResultsAlign | apps/mo3-mobile-bff/src/mutations.ts:106-161 | results line up one to one with the inputs, by key |
| MutationTheory.OneDispatchPerBatch | apps/mo3-mobile-bff/src/mutations.ts:120-126 | inside one request no key is dispatched twice |
| MutationTheory.SplitUnobservableIff | apps/mo3-mobile-bff/src/mutations.ts:106-161 | two requests give the results of one joint request iff the second repeats no forgotten key; then calls and stored table also agree |
| MutationTheory.SplitShows | apps/mo3-mobile-bff/src/mutations.ts:106-161 | a refused update sent again in the next request reads differently than sent again in the same one |
| MutationTheory.ForgottenAreErrors | apps/mo3-mobile-bff/src/mutations.ts:153-157 | with a store and a user the forgotten keys are exactly those that ended in an error |
| MutationTheory.AppliedAtMostOnce | apps/mo3-mobile-bff/src/mutations.ts:128-157 | over any sequence of requests only the last dispatch of a key can have been applied or rejected as a conflict, and then the key is stored |
| MutationTheory.AnsweredIsReplay | apps/mo3-mobile-bff/src/mutations.ts:128-161 | with a store that can fail, a request that is answered at all is answered as if it had worked |
| MutationTheory.LandingsBalance | apps/mo3-mobile-bff/src/mutations.ts:128-157 | over any sequence of requests, with `get` and `save` rejecting anywhere, a key takes effect once for its stored outcome plus once for every outcome whose save was lost |
| MutationTheory.LostSaveRepeats | apps/mo3-mobile-bff/src/mutations.ts:155-157 | a lost save makes a re-sent mutation take effect twice |
| MutationTheory.StoredNeverDispatched | apps/mo3-mobile-bff/src/mutations.ts:128-137 | a stored key is never dispatched again and keeps its outcome |
| ChatStore.SendSettles | apps/mo2-android/src/chat.ts:102-123 | a send settled at once: acked, the channel has gained the server's message and nothing else, unless realtime had brought it; failed, it has gained one failed row |
| ChatStore.ChatRepository.Promote | apps/mo2-android/src/chat.ts:176-188 | the ack drops, replaces or appends, depending on whether the message is already confirmed and the local row still there |
| ChatStore.ChatRepository.Mark | apps/mo2-android/src/chat.ts:190-197 | only the first row with that local id changes state |
| ChatStore.ChatRepository.UpsertFromRealtime | apps/mo2-android/src/chat.ts:200-212 | a known server id changes nothing; otherwise the first author-and-body match is promoted or a row appended |
| ChatStore.RealtimeEffect | apps/mo2-android/src/chat.ts:200-212 | a message not yet confirmed takes the place of the first optimistic row by its author with its body, or is appended; every other row stays in place, in particular those by others or with another body |
| ChatStore.ChatRepository.Remove | apps/mo2-android/src/chat.ts:214-222 | the first row with that id goes; an unknown channel stays unknown |
| ChatProtocol.LoadForgetsSends | apps/mo2-android/src/chat.ts:88-95 | after a reload the list is the page, confirmed; a send in flight leaves no row to retry when it fails, and its ack adds the message unless the page had it |
| ChatStore.ChatRepository.ApplyRealtimeEvent | apps/mo2-android/src/chat.ts:133-158 | an event changes its own channel only, as its kind says; a created event delivered again changes nothing |
| ChatStore.RemoveTwiceIff | apps/mo2-android/src/chat.ts:214-222 | deleting twice is deleting once iff no second row goes by that id |
| ChatProtocol.DeleteTwice | apps/mo2-android/src/chat.ts:133-149 | in every reachable state a deletion delivered twice is delivered once |
| ChatProtocol.OneRowPerMessage | apps/mo2-android/src/chat.ts:102-212 | in every run a message announced, acked or loaded and not removed since is exactly one confirmed row with the server's content, and there is no other confirmed row |
| ChatProtocol.AckedListConverges | apps/mo2-android/src/chat.ts:102-212 | once every send is acked the list is those messages once each, whatever the interleaving |
| ChatProtocol.StepKeeps | apps/mo2-android/src/chat.ts:87-222 | every send, ack, failure, delivery, delete and reload keeps rows distinct and tied to sends and server messages |
| ChatProtocol.FailShowsIff | apps/mo2-android/src/chat.ts:117-123 | a failed POST leaves a failed row iff its optimistic row is still there |
| ChatProtocol.RowConsumedIff | apps/mo2-android/src/chat.ts:200-212 | an optimistic row goes exactly with its own ack, a reload, or a new message whose first match it is |
| ChatProtocol.FailedSendCanVanish | apps/mo2-android/src/chat.ts:203-207 | with two identical sends the failed one can have no row left to retry |
| ChatSession.LoadHistoryOf | apps/mo1-ios/src/chat.ts:51-67 | the merge loop keeps the first of equal ids, present messages first, and sorts |
| ChatSession.HistoryMembers | apps/mo1-ios/src/chat.ts:51-67 | a history load keeps every message and adds, as sent, the first entry of each id that is not there; nothing else |
| ChatSession.SortedFacts | apps/mo1-ios/src/chat.ts:45-48 | sorting yields time order, the same messages, and ties in insertion order |
| ChatSession.Session.OnEvent | apps/mo1-ios/src/chat.ts:233-239 | an event keeps the list in time order with distinct ids, and delivering it again changes nothing |
| ChatSession.Session.Send | apps/mo1-ios/src/chat.ts:242-253 | the list gains exactly one message, pending, or failed when the socket is missing or throws, and stays in time order with distinct ids |
| ChatSession.OpKeepsTidy | apps/mo1-ios/src/chat.ts:50-149 | each operation keeps time order and distinct ids |
| ChatSession.RunsStayTidy | apps/mo1-ios/src/chat.ts:50-149 | so does every sequence of operations with fresh local ids |
| ChatSession.EventIdempotent | apps/mo1-ios/src/chat.ts:103-149 | applying any event twice is applying it once |
| ChatSession.CreatedEffect | apps/mo1-ios/src/chat.ts:117-139 | a created event changes nothing iff its id is known; else it confirms exactly the first matching pending message or adds exactly one |
| ChatSession.CreatedAdds | apps/mo1-ios/src/chat.ts:117-139 | a created event with a new id adds the server's message, as sent; the first pending message with its author and body gives way to it and nothing else does |
| ChatSession.FailTells | apps/mo1-ios/src/chat.ts:91-101 | only a pending message of that local id turns to failed, in place |
| ChatSession.EchoConfirmsIff | apps/mo1-ios/src/chat.ts:118-129 | the echo leaves its pending message behind iff its id is already listed |
| ChatSession.FailedRowGoesIff | apps/mo1-ios/src/chat.ts:113-149 | a failed message survives every event but the deletion of its own id: an echo never confirms it |
| ChatSession.HistoryStrandsPending | apps/mo1-ios/src/chat.ts:51-67 | a history load before the echo leaves the optimistic copy pending next to the sent message |
| ChatSession.PendingRowGoesIff | apps/mo1-ios/src/chat.ts:113-149 | a pending message goes exactly by a deletion of its id or by a created event with an unknown id whose first match it is |
| ChatSession.StrandedTakesNext | apps/mo1-ios/src/chat.ts:119-128 | the stranded copy is then confirmed under the id of that later message |
| RunSpec.RunLifecycle | commander/daemon/src/runner.ts:160-349 | in every run: active iff running, exactly one terminal status once not, and succeeded iff closed with code 0 and not cancelled, timed out or aborted |
| RunSpec.ReactKeeps | commander/daemon/src/runner.ts:160-349 | every input, in any order the runtime allows, keeps the lifecycle invariant |
| RunSpec.EmittedTerminals | commander/daemon/src/runner.ts:311-349 | an input settles the run at most once, with exit code and terminal status as its last two events |
| RunEnds.BeginsWith | commander/daemon/src/runner.ts:110-141 | a run says first that it runs, or the spawn error and that it failed; one recorded without a spawn its message and that it failed |
| RunEnds.CloseTells | commander/daemon/src/runner.ts:311-350 | a close adds the last output, stdout first, then why the run was killed (the last timer to fire, else a cancel), then the exit code, then the status: succeeded exactly for exit code 0 of a run that was not killed |
| RunEnds.AbortTells | commander/daemon/src/runner.ts:173-191 | an aborted run says so, without an exit code, as failed, and its child's close adds nothing |
| RunEnds.OthersTell | commander/daemon/src/runner.ts:150-171 | notes and child errors are one event each, timers and cancels only mark the run |
| RunOutput.StderrReassembles | commander/daemon/src/runner.ts:290-323 | under any chunking the stderr events are the lines of the raw stderr, the unfinished one added at close unless aborted |
| RunOutput.StdoutReassembles | commander/daemon/src/runner.ts:276-288 | under any chunking the stdout events are the non-blank lines of the raw stdout, parsed when they are JSON |
| RunLines.StdoutTells | commander/daemon/src/runner.ts:283-292 | whatever the chunking, there is one stdout event per finished line that is not blank, in order, with the line's text between its outer white space: parsed when that is JSON, raw otherwise |
| RunLines.RelaysOnce | commander/daemon/src/runner.ts:352-360 | which leaves no choice of events |
| RunLines.StderrTells | commander/daemon/src/runner.ts:296-304 | the child's stderr events are its finished lines unchanged and in order, with the last one added at close unless it is empty |
| RunOutput.LinesRejoin | commander/daemon/src/runner.ts:290-323 | those lines joined by line ends, with the unfinished rest, are the raw text |
| TextLines.LinesSplit | commander/daemon/src/runner.ts:281-287 | more text only extends the unfinished line |
| ExecBridge.RunStore.Emit | commander/daemon/src/runner.ts:88-93 | an event goes to the log of its run and to that run's listeners, nowhere else |
| ExecBridge.RunStore.Start | commander/daemon/src/runner.ts:96-119 | a new run is running with one event, or failed with error and status when the spawn throws; no connection hears of it, and the store stays in order |
| ExecBridge.RunStore.SpawnClaude | commander/daemon/src/runner.ts:198-274 | a pending run becomes running, or failed with error and status |
| ExecBridge.RunStore.Fail | commander/daemon/src/runner.ts:122-138 | a run that could not be spawned is recorded as failed: error, then status |
| ExecBridge.RunStore.OnStdout | commander/daemon/src/runner.ts:279-288 | one chunk handled as the run specification says, and every new event delivered in order |
| ExecBridge.RunStore.OnStderr | commander/daemon/src/runner.ts:292-301 | the same for stderr |
| ExecBridge.RunStore.OnTimer | commander/daemon/src/runner.ts:258-271 | a timer marks the run timed out, with its kind, and emits nothing |
| ExecBridge.RunStore.OnError | commander/daemon/src/runner.ts:303-309 | a child error is one error event; the run is not settled by it |
| ExecBridge.RunStore.OnClose | commander/daemon/src/runner.ts:311-349 | flush, kill reason, exit code and status, in that order; nothing after an abort |
| ExecBridge.RunStore.Cancel | commander/daemon/src/runner.ts:160-166 | signals iff the run is active, and only marks it |
| ExecBridge.RunStore.Note | commander/daemon/src/runner.ts:150-153 | a note is one event of that run |
| ExecBridge.RunStore.AbortAll | commander/daemon/src/runner.ts:173-191 | every live run, and no other, is settled as failed; its ids are returned; each connection receives exactly its run's events |
| ExecBridge.RunStore.OpenStream | commander/daemon/src/server.ts:271-282 | a new connection holds the history; it is ended at once iff the run had settled, subscribed otherwise |
| ExecBridge.RunStore.CloseStream | commander/daemon/src/server.ts:284-287 | a closed request keeps what it holds and nothing emitted later reaches it; the store stays in order |
| RunConn.HandleKeeps | commander/daemon/src/runner.ts:88-93 | whatever input one run handles, every run of the store stays in order and every connection holds exactly what its run has emitted for it |
| RunConn.DeliverOk | commander/daemon/src/server.ts:277-282 | delivering events keeps a connection at the event list through the terminal status, a prefix of it once it has left, or the history it found |
| RunStream.StreamComplete | commander/daemon/src/server.ts:261-282 | joining at any moment of any run: the event list so far while it runs, then exactly the list through the terminal status; a late joiner gets the history |
| RunStream.EarlyLeaver | commander/daemon/src/server.ts:284-287 | a connection that leaves holds a prefix of that |
| RunStream.RelayRecovers | commander/daemon/src/relay-agent.ts:366-376 | for a connection that joins any run at any moment and stays, with pings anywhere and the stream cut anywhere, the relay yields exactly the run's events through the terminal status, or the history when the run had settled |
| Sse.DrainSse | commander/daemon/src/relay-agent.ts:162-175 | the loop over the blocks: joined data fields of the complete blocks, and the unfinished tail |
| Sse.ReadLoop | commander/daemon/src/relay-agent.ts:368-376 | the read loop is the fold of draining over the chunks |
| Sse.DrainStep | commander/daemon/src/relay-agent.ts:366-376 | draining a part, then its tail with the rest, is draining the whole (no `\r\r\n`) |
| Sse.ChunkingInvisible | commander/daemon/src/relay-agent.ts:366-376 | for a stream without `\r\r\n` every chunking yields the events and tail of draining it whole |
| Sse.ChunkingInvisibleIff | commander/daemon/src/relay-agent.ts:366-376 | the loop is at every moment where draining everything received at once would be, however the stream was cut, iff the stream has no `\r\r\n` |
| Sse.RenormaliseIff | commander/daemon/src/relay-agent.ts:164 | renormalising a kept tail is invisible at every cut iff the stream has no `\r\r\n` |
| Sse.DoubleCrMatters | commander/daemon/src/relay-agent.ts:164 | with one, a cut changes the data of an event |
| Sse.SseRoundTrip | commander/daemon/src/server.ts:268-283 | framed events and pings, cut anywhere, drain to exactly the events in order |
| Sse.DataLinesBack | commander/daemon/src/relay-agent.ts:166-172 | the data of an event keeps its line ends: the lines of the data are the texts of the data lines |
| Sse.ChunkResponse | commander/daemon/src/relay-agent.ts:151-159 | the parts join to the body, all but the last are full, at least one exists, and only the last says there is no more |
| Crc32.BuildTable | apps/lp-conference-next/worker/ticket-pass.ts:57-61 | entry n is n shifted eight times through the feedback polynomial |
| Crc32.TableEntry | apps/lp-conference-next/worker/ticket-pass.ts:58-60 | the inner loop shifts its index eight times |
| Crc32.ShiftNXor | apps/lp-conference-next/worker/ticket-pass.ts:59 | shifting is linear over xor |
| Crc32.SerialIsShift | apps/lp-conference-next/worker/ticket-pass.ts:65 | feeding bits one by one equals mixing the byte in first and shifting |
| Crc32.ByteStep | apps/lp-conference-next/worker/ticket-pass.ts:65 | eight serial steps are one table step |
| Crc32.Crc32Of | apps/lp-conference-next/worker/ticket-pass.ts:63-67 | the table walk returns the bit-serial CRC of section 3.4 of RFC 2083 for every byte sequence |
| Crc32.IendCrc | apps/lp-conference-next/worker/ticket-pass.ts:57-67 | the CRC of the empty end chunk is AE426082 |
| QrRaster.PaintRow | apps/lp-conference-next/worker/ticket-pass.ts:91-97 | a row gets filter byte 0, exactly its dark pixels cleared, padding left at 1, and no byte outside the row touched |
| QrRaster.Raster | apps/lp-conference-next/worker/ticket-pass.ts:89-98 | the same for every row of the whole buffer |
| QrRaster.ModuleBlock | apps/lp-conference-next/worker/ticket-pass.ts:85-97 | module (r, c) is the block of six by six pixels four modules in from the top and the left |
| QrRaster.QuietZoneIff | apps/lp-conference-next/worker/ticket-pass.ts:93-96 | the quiet zone is white iff no row reaches past the height of the matrix into the right margin with a dark module |
| QrRaster.RaggedRowShows | apps/lp-conference-next/worker/ticket-pass.ts:93-96 | a matrix with one row of two modules paints into the quiet zone |
| QrRaster.SquareIsClean | apps/lp-conference-next/worker/ticket-pass.ts:49-55 | a square matrix never does |
| Png.PngChunk | apps/lp-conference-next/worker/ticket-pass.ts:69-77 | the buffer is length, type, data and the CRC of type and data |
| Png.ChunkRoundTrip | apps/lp-conference-next/worker/ticket-pass.ts:69-77 | a reader that checks the CRC gets type and data back and goes on right behind the chunk (section 3.2 of RFC 2083) |
| Png.ChunkFields | apps/lp-conference-next/worker/ticket-pass.ts:69-77 | length, type, data and the CRC over type and data stand at their places (section 3.2 of RFC 2083) |
| Png.Assemble | apps/lp-conference-next/worker/ticket-pass.ts:110-116 | the copied parts are their concatenation |
| Png.MatrixToPng | apps/lp-conference-next/worker/ticket-pass.ts:85-117 | the file is signature, header, compressed raster and end, over a raster that is right for the matrix |
| Png.FileRoundTrip | apps/lp-conference-next/worker/ticket-pass.ts:99-116 | a reader that insists on the three zero method bytes gets dimensions, bit depth, colour type and the compressed data back |
| Png.FileEnds | apps/lp-conference-next/worker/ticket-pass.ts:99-109 | the file starts with the signature and a 13-byte header chunk and ends with the end chunk (section 3.1 of RFC 2083) |
| Png.QrRoundTrip | apps/lp-conference-next/worker/ticket-pass.ts:85-117 | the decoded image is dark exactly where the scaled, bordered matrix is (section 2.3 of RFC 2083) |
| ApiClient.Request | apps/mo1-ios/src/api-client.ts:157-207 | it sends again after every answer that does not end the request and only then: after each retryable answer while retries are left, and after the one 401 a granted refresh cures; at most maxRetries + 2 sends and one refresh; the outcome is the last answer's, and giving up on a retryable one takes all retries |
| ApiClient.MobileApiClient.EnsureRefreshed | apps/mo1-ios/src/api-client.ts:210-217 | a refresh in flight is joined; otherwise one starts, with a call iff a token is stored |
| ApiClient.MobileApiClient.OnAnswer | apps/mo1-ios/src/api-client.ts:171-205 | each kind of answer finishes, backs off, joins the refresh or expires the session |
| ApiClient.MobileApiClient.OnResume | apps/mo1-ios/src/api-client.ts:190-196 | a woken request is sent again or expires the session |
| ApiClient.MobileApiClient.OnRefreshAnswers | apps/mo1-ios/src/api-client.ts:212-241 | the granted token is stored, the slot emptied and every waiter woken with the same answer |
| ApiClient.SingleFlight | apps/mo1-ios/src/api-client.ts:209-217 | in every interleaving at most one refresh call is out, no request exceeds maxRetries + 2 sends, and the expired callback finds the store empty |
| ApiRuns.OutcomeTells | apps/mo1-ios/src/api-client.ts:157-207 | in every interleaving a request returned iff its last reply is a success, expired iff it is a 401, gave up on a retryable reply only after all retries, and every reply before was retryable or the one 401 it was refreshed for |
| ApiClient.StepProgress | apps/mo1-ios/src/api-client.ts:157-207 | every step about a request lowers its measure and no other step touches it |
| ApiClient.BoundedWork | apps/mo1-ios/src/api-client.ts:157-207 | no run spends more steps on a request than its remaining retries and unused refresh allow |
| ApiClient.NeverStuck | apps/mo1-ios/src/api-client.ts:157-207 | an unfinished request always has its next step |
| ApiClient.ClearedSticksIff | apps/mo1-ios/src/api-client.ts:194-240 | a cleared store stays empty until the next login iff no refresh call is out |
| ApiClient.LateAnswerSignsIn | apps/mo1-ios/src/api-client.ts:194-240 | from a fresh client: login, a 401, logout, and the late refresh answer stores its token |
| AuthInterceptor.AuthInterceptor.RefreshOnce | apps/mo2-android/src/auth-interceptor.ts:40-56 | joins a promise in the slot, answers `false` without a refresh token, else starts the one call; a call that throws leaves a settled promise in the slot |
| AuthInterceptor.AuthInterceptor.OnSettle | apps/mo2-android/src/auth-interceptor.ts:20-36 | a settled send ends the request, or asks for the refresh after the first 401 and logs out after the second |
| AuthInterceptor.AuthInterceptor.OnResume | apps/mo2-android/src/auth-interceptor.ts:25-31 | after the refresh: retry once, or clear the session and call back |
| AuthInterceptor.AuthInterceptor.OnRefreshSettles | apps/mo2-android/src/auth-interceptor.ts:45-53 | tokens are stored on a grant, the slot is emptied, all waiters get the same answer |
| AuthInterceptor.SharedRefresh | apps/mo2-android/src/auth-interceptor.ts:20-61 | in every run: at most one refresh call, out iff somebody awaits it, one or two counted sends per request, and every logout callback finds the session cleared |
| AuthRuns.ResultTells | apps/mo2-android/src/auth-interceptor.ts:20-37 | in every run a request is answered, thrown back or logged out iff its last reply is a success, another failure or a 401; a second send follows a 401 and a granted refresh |
| AuthRuns.ExpiryTells | apps/mo2-android/src/auth-interceptor.ts:24-61 | a first 401 waits on a refresh iff one is out or can start, else is refused at once; a second one clears both tokens, then calls back |
| AuthRuns.GrantStores | apps/mo2-android/src/auth-interceptor.ts:44-56 | a grant stores both its tokens, a denial none; the slot is freed and exactly the waiting requests are told |
| AuthInterceptor.StepKeeps | apps/mo2-android/src/auth-interceptor.ts:20-61 | every step keeps that invariant |
| AuthInterceptor.StepProgress | apps/mo2-android/src/auth-interceptor.ts:20-37 | every step about a request brings it nearer its end, and an unfinished one always has such a step |
| AuthInterceptor.SpentIff | apps/mo2-android/src/auth-interceptor.ts:44-55 | the slot ends up holding a settled promise iff some refresh threw before returning one |
| AuthInterceptor.RetryPossibleIff | apps/mo2-android/src/auth-interceptor.ts:24-31 | a request on its first send can still be retried under some future iff the slot is not spent |
| AuthInterceptor.ThrowingRefreshStrands | apps/mo2-android/src/auth-interceptor.ts:44-55 | from a fresh client: after one throwing refresh a user with good tokens is logged out by the next 401 without a refresh call |
| AuthInterceptor.LogoutLastsIff | apps/mo2-android/src/auth-interceptor.ts:45-61 | a logout lasts until the next sign-in iff no refresh call is out |
| AuthInterceptor.LateGrantSignsIn | apps/mo2-android/src/auth-interceptor.ts:45-61 | from a fresh client: signing out while a refresh is out, its grant signs in again |
| FailureLimiter.FailureLimiter.Blocked | apps/lp-conference-next/worker/tickets.ts:1604-1607 | with a clock that goes forward and until the clear fires, the answer is that of the fixed-window counter over every failure so far |
| FailureLimiter.FailureLimiter.Fail | apps/lp-conference-next/worker/tickets.ts:1608-1617 | counts in the open window or opens one, then purges and, if still over the cap, clears; the cap holds afterwards |
| FailureLimiter.FailureLimiter.Purge | apps/lp-conference-next/worker/tickets.ts:1614 | the purge loop keeps exactly the keys with an open window |
| FailureLimiter.NeverOverCap | apps/lp-conference-next/worker/tickets.ts:1613-1616 | no history leaves more than 10,000 keys |
| FailureLimiter.BlockedIsExact | apps/lp-conference-next/worker/tickets.ts:1604-1617 | while the clear has not fired every answer is the one of a counter that never purges |
| FailureLimiter.BlockedTells | apps/lp-conference-next/worker/tickets.ts:1604-1612 | a key is blocked iff its last window, counted from the failure that opened it, is open and holds at least max failures |
| FailureLimiter.FailTells | apps/lp-conference-next/worker/tickets.ts:1608-1617 | what one failure leaves under each key, by the number of keys and of open windows |
| FailureLimiter.OverflowIff | apps/lp-conference-next/worker/tickets.ts:1613-1616 | the first clear fires iff more than the cap of keys have an open window by the full history |
| FailureLimiter.WindowOpens | apps/lp-conference-next/worker/tickets.ts:1611-1612 | a window opened at a failure of its key and counts every failure since |
| SenderNetwork.KeyIsPrefix | apps/lp-conference-next/worker/tickets.ts:404-412 | every hexadecimal spelling (case, leading zeros, place of `::`) gets the key of its top 64 bits |
| SenderNetwork.SameKeyIff | apps/lp-conference-next/worker/tickets.ts:400-412 | two such spellings share a key iff their addresses share the top 64 bits |
| SenderNetwork.ColonFreeKeepsApart | apps/lp-conference-next/worker/tickets.ts:405 | text without a colon is its own key and nothing else gets that key |
| SenderNetwork.DottedKeyIff | apps/lp-conference-next/worker/tickets.ts:404-412 | a spelling with a dotted tail gets the key of its /64 iff it elides zeros and all but the last two groups right of the gap are zero |
| SenderNetwork.DottedDiffers | apps/lp-conference-next/worker/tickets.ts:404-412 | 1:2::3:4:5:1.2.3.4 does not get the key of its /64 |
| SenderNetwork.SecondPairDropped | apps/lp-conference-next/worker/tickets.ts:406-408 | what follows a second "::" does not count |
| SenderNetwork.LoopbackKey | apps/lp-conference-next/worker/tickets.ts:404-412 | ::1 is in 0:0:0:0::/64 |
| Checkout.ReadQuantities | apps/lp-conference-next/worker/tickets.ts:340-365 | the loop over the types: lines, total, and one error per bad type |
| CheckoutTells.AskedTells | apps/lp-conference-next/worker/tickets.ts:343-349 | up to three digits are a quantity of their decimal value, nothing when zero or absent; any other text is refused |
| Checkout.ParseCheckoutForm | apps/lp-conference-next/worker/tickets.ts:333-396 | accepts iff no spam, no type is garbled or over its cap, the total is 1 to 20, and name, e-mail and every custom field are fine; then items and answers are the ones asked for; otherwise each error, and no other, with its problem |
| Checkout.CartAcceptedIff | apps/lp-conference-next/worker/tickets.ts:340-369 | the cart raises no error iff it is acceptable |
| FormFields.CheckFields | apps/lp-conference-next/worker/tickets.ts:376-394 | the loop over the custom fields: normalised answers, and one error per field that is missing, too long or invalid |
| FormFields.FieldTells | apps/lp-conference-next/worker/tickets.ts:377-392 | when an answer is missing, too long or invalid, with the check its field type gets |
| FormFields.NormalTells | apps/lp-conference-next/worker/tickets.ts:380-383 | a ticked box is sent on as one fixed text, everything else as it came |
| FormFields.CalendarTells | packages/types/src/lp.ts:367-368 | leap years by their count, months of 31 and 30 days in turn |
| FormFields.EmailShape | packages/types/src/lp.ts:344 | the e-mail expression accepts exactly user@domain.tld with three non-empty parts free of white space and at signs |
| FormFields.DateIffWritten | packages/types/src/lp.ts:366-370 | a date is accepted iff formatting the calendar day it names gives it back |
| FormFields.MultiselectIff | packages/types/src/lp.ts:358-362 | joining the ticks and splitting them again loses nothing: the answer passes iff every tick is an option and none is ticked twice |
| Checkout.LineProblemIff | apps/lp-conference-next/worker/tickets.ts:350-363 | the chain of branches names a problem iff the quantity is over the cap |
| Checkout.MessageNamesCap | apps/lp-conference-next/worker/tickets.ts:355-361 | whichever "too many" message is chosen, the number it names is the cap |
| CheckoutTells.MessageTells | apps/lp-conference-next/worker/tickets.ts:350-363 | which message a refused quantity gets: gone, for another coupon's type, coupon required, not on offer, or too many by the limit that is the cap |
| CheckoutTells.CartTells | apps/lp-conference-next/worker/tickets.ts:366-370 | empty iff nothing is asked for, too many iff above 20 |
| CheckoutTells.BuyerTells | apps/lp-conference-next/worker/tickets.ts:372-375 | a name of 1 to 100 characters and an address user@domain.tld of up to 254, else the message for what is wrong |
| Checkout.CapBounds | apps/lp-conference-next/worker/tickets.ts:160-183 | a quantity within the cap is within stock, per-order limit, order limit and coupon uses, and on offer |
| Checkout.CapIsTight | apps/lp-conference-next/worker/tickets.ts:160-183 | conversely every such quantity is within the cap |
| Checkout.AcceptedCart | apps/lp-conference-next/worker/tickets.ts:340-369 | an accepted cart is non-empty, totals at most 20, every line is sellable, and with a coupon it is one line of the coupon's type |
| Checkout.SellableRaisesNone | apps/lp-conference-next/worker/tickets.ts:340-363 | a quantity raises an error on its type iff its line is not sellable |

## Left out

- Gantt.DependencyOrderOf: with repeated ids the depths are promised to exist only; there the flag can be wrong in both directions (`FlagTrustedIff`, `RepeatHidesCycle`).
- GanttDates.RoundSum: days are exact quotients of integer milliseconds; the source rounds a floating-point quotient, which can differ from it next to a half day over spans of many millennia.
- GanttDates.DateRangeOf: a date is the result of parsing it (a number of milliseconds, or none); the ISO 8601 text itself is not modelled.
- Sync.BuildSync: the base64 and JSON of the cursor, the page-size clamp, the `since` hint and the server time are not modelled; the cursor is the sequence number it carries, and a version 1 cursor counts as 0.
- SyncProtocol.SyncConverges: stated for events; a reassigned task or a removed inbox item leaves no tombstone, so the task and inbox mirrors need not converge.
- SyncProtocol.SyncSafety: the client that applies the change list is not in the repository; it is taken to apply entries in list order and to start from an empty mirror on a pull without a cursor. A notice the queue gives up on counts as undelivered.
- ChangeLog.D1ChangeLog.Append: rows carry number, envelope id, entity and operation; the columns the pull does not read (actor, times, payload) are dropped.
- Mutations.ApplyMutations: two requests running at the same time are not modelled; downstream services are one oracle that may depend on everything sent so far.
- MutationTheory.AppliedAtMostOnce: for a store that works; what a failing one costs is counted by `LandingsBalance`.
- ChatProtocol.AckedListConverges: one channel with fresh local ids disjoint from server ids; the channel list, listeners and error values of a send are left out.
- ChatSession.RunsStayTidy: `createdAt` is the parsed time; text that does not parse would make the sort's order unspecified.
- ChatSession.Session.Send: the socket is a flag saying whether transmitting works; tickets, reconnects and `onChange` are left out.
- RunSpec.RunLifecycle: prompts, images, environment and timer durations, in the messages too, are left out; a timer may fire whenever it is armed, and a kill may or may not be followed by close. Which task a run belongs to is not modelled, so nothing is said about one live run per task.
- ExecBridge.RunStore.Emit: run record, active entry and line buffers are one value per run id; sharing of those objects, timestamps and the mirror sink are not captured. The origin tag on stderr events and the join position of a connection are bookkeeping of the model.
- ExecBridge.RunStore.OpenStream: writes after the response has ended are dropped, as the HTTP layer does; keep-alive pings appear only on the wire (`Sse`).
- RunStream.RelayRecovers: the JSON of an event is a parameter that has no line ends and is not empty; byte decoding, the WebSocket, backoff and route checks of the relay are left out.
- Sse.ChunkingInvisible: sufficient only; `ChunkingInvisibleIff` is exact for events and tail at every moment. Events alone can survive a `\r\r\n` that ends a comment line or falls into a block that is never finished.
- Sse.ChunkResponse: the JSON around each part, with id and status, is left out.
- Png.MatrixToPng: the compressor is a parameter, and `QrRoundTrip` assumes a decompressor that undoes it; the QR encoder is not modelled.
- Png.QrRoundTrip: image sides and compressed length below 2^32, the range of the format's length fields.
- ApiClient.MobileApiClient.OnRefreshAnswers: storing the token and emptying the slot are one step; in the source the slot is emptied one microtask later, and a request joining in between gets the same answer. Backoff delays, headers and bodies are left out.
- AuthInterceptor.SharedRefresh: a session store that throws is not modelled.
- FailureLimiter.BlockedIsExact: for a clock that never goes back; times are integers.
- SenderNetwork.SameKeyIff: lower-casing covers ASCII letters, the only ones in a well-formed address; zone suffixes and texts that are no address keep the code's result but little is proved about them (`ColonFreeKeepsApart`, `SecondPairDropped`).
- Checkout.ParseCheckoutForm: message texts are problem values, trimming happens before, and text length counts characters where the source counts UTF-16 units.
- Task worktrees, push providers, deep links, view rendering, token checks, route lists and board phases: policy tables, foreign calls or easy branches.
