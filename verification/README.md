# CoC2 verification

A Dafny model of the kernels of CoC2, a small fleet controller: a server that keeps
tasks and transfers in SQLite and talks to agents over WebSockets. Each file
models one kernel and proves what it is for.

| file | models |
|---|---|
| Chunks.dfy | the chunk assembler and the byte accounting of a transfer's receiving end |
| Transfers.dfy | chunked file transfer with resume, from the sending pump to the finished file, over any number of attempts |
| TaskStore.dfy | the tasks and task_results tables, one statement or transaction at a time, and retention |
| TaskHistory.dfy | what each statement writes, and where the columns of a row come from |
| Reaper.dfy | the pass that finalizes tasks without a result, alone and amid everything else |
| Dispatch.dfy | how tasks reach agents: creations, sessions, replay, requeue and the release sweep, interleaved |
| Release.dfy | what becomes of deferred tasks and of what was sent, over the same runs |
| ReleaseTimer.dfy | the scheduler that aims one timer at the next deferred task |
| TimeText.dfy | RFC3339Nano text compared as bytes |
| TimeParse.dfy | reading that text back, and the calendar |
| ReleaseText.dfy | the scheduler's two store reads, decided on that text |
| AgentDedup.dfy | the agent's running set, result cache and admission |
| TransferStatus.dfy | a transfer's status, audit persistence and completion hook |
| EventStore.dfy | the plugin event store |
| Utf8.dfy | truncation of UTF-8 text |
| RuntimePool.dfy | the JavaScript runtime pool |
| Sessions.dfy | the stored online flag over overlapping sessions |
| Common.dfy | what they share |

Objects the source updates in place (the assembler, the store, the agent client, a
transfer's state, the event store, the runtime pool) are classes; each method is
proved against a function or relation on the object's value, and the theorems are
about those. What runs concurrently is a step system: one step per store statement
or transaction and one per lock section, in any order, with theorems over whole
runs. Time is a logical clock in nanoseconds; identifiers are only compared.

Where code and its own comments disagree, the code is followed:

- `terminalTaskStates` calls the terminal states ones "a task can never leave". An upsert
  over an existing id leaves them, and so do `CancelTask`'s two writes, which do not
  repeat its check: a task canceled while queued can overwrite a result that landed
  meanwhile, and even where the state is already canceled, the result's stderr and
  completion time. Nothing else does (`TaskStore.TerminalChangedExactlyBy`,
  `TaskStore.ClimbsExactlyUnless`, with `TaskStore.UpsertReopens` and
  `TaskStore.SplitCancelOverwrites` as runs).
- A late cancel request on a row that was requeued meanwhile leaves it in flight without
  a dispatch time, and the reaper skips such rows (`TaskStore.TimedExactlyUnless`).
- The agent's dispatch handler looks at its cache and at its running set in separate lock
  sections. A task that finishes in between is started a second time
  (`AgentDedup.StartedTwice`); `AgentDedup.AdmittedAgainExactly` says exactly when.
- `unregister` says its teardown "must not clear the live session's flag", but writes the
  flag after the lock: a write decided before a reconnect and made after it does
  (`Sessions.SplitUnregisterMarksLiveAgentOffline`); `Sessions.OnlineFlagExactly` says
  exactly when the flag is wrong.
- `requeueTasks` gives tasks back "as immediately available", which takes a deferred task's
  release time away and so hides it from the release sweep. If a superseded session does
  so after the current one has read its queue, the task stays unsent though its agent is
  online (`Release.RequeueStrandsTask`); there is no other way for it to be stranded
  (`Release.StrandedOnlyByRequeue`).
- A cancel request on an upload can be overwritten by the pump when it reaches the end
  of the file, and is then never due for the grace reaper
  (`TransferStatus.CancelOverwrittenByPump`).
- `release_at <= now` is decided on text whose byte order is not always time order; on
  every whole second, everything due later within that second counts as due
  (`TimeText.WholeSecondReleasesEarly`).
- `arm` is meant never to aim at a task that is already due. Decided on text, a task due
  on a whole second is not ready for the rest of that second and yet the next release, so
  that the timer fires at once, over and over, until the second is over
  (`ReleaseText.WholeSecondSpins`); `ReleaseText.SpinsExactly` says exactly when.

## Model

| member | source | states |
|---|---|---|
| Chunks.ChunkCount | internal/common/chunk.go:112-119 | the least number of chunks that carries size bytes; zero exactly for an empty file or a non-positive chunk size |
| Chunks.ChunkAssembler.constructor | internal/common/chunk.go:30-41 | starts empty at chunk 0; a non-positive limit becomes 256 |
| Chunks.ChunkAssembler.Write | internal/common/chunk.go:43-71 | does to assembler and destination what `Feed` says, short writes included; `FeedKeepsMeaning` says what that means |
| Chunks.ChunkAssembler.Flush | internal/common/chunk.go:73-85 | the write-out loop equals the recursive `FlushFrom`, also when a write fails in the middle |
| Chunks.ChunkAssembler.Resume | internal/common/chunk.go:92-96 | sets the next expected chunk and nothing else |
| Chunks.ChunkAssembler.Finish | internal/common/chunk.go:98-110 | succeeds exactly when nothing is buffered and, for a positive total, that many chunks are contiguous |
| Chunks.FlushKeepsMeaning | internal/common/chunk.go:73-85 | flushing never changes which chunks are held; it fails exactly when the unbroken run of chunks is longer than the disk has room for, and then leaves what was there followed by a torn run of them |
| Chunks.FeedKeepsMeaning | internal/common/chunk.go:43-71 | the assembler represents the set of received chunks: duplicate means before the resume point or already received, out-of-order means not the next one with maxPending waiting behind the gap, a failed write means the next one with too little room for the run it completes, accepted means it joins the set, refused means nothing changes; the buffer lies strictly above the gap |
| Chunks.FeedAllKeepsMeaning | internal/agent/client.go:757-774 | after a whole delivery the assembler represents exactly the chunks delivered; after a failed one the file is what it was, followed by a torn run of chunks that arrived |
| Chunks.DeliveryAcceptedExactly | internal/common/chunk.go:43-71 | a delivery is accepted exactly when its numbers are not below the resume point, do not repeat and never ask for more than maxPending places behind the gap, and the unbroken run they make fits on the disk |
| Chunks.FinishDecides | internal/common/chunk.go:98-110 | in terms of the received set, Finish succeeds exactly when no chunk waits behind the gap and the gap lies at or past a positive total |
| Chunks.DeliveryLeavesExactly | internal/agent/client.go:757-774 | whatever arrives, the file is what was there followed by the unbroken run of the chunks before the first one out of order, cut where the disk ends |
| Chunks.OrderIndependent | internal/common/chunk.go:21-28 | any two accepted deliveries of the same chunks leave the same file, the same next number and the same buffer |
| Chunks.BufferBounded | internal/common/chunk.go:66-70 | never more than maxPending chunks are buffered |
| Chunks.FeedConserves | internal/agent/client.go:769-773 | every accepted byte is on disk or in the buffer, exactly once |
| Chunks.Receiver.constructor | internal/agent/client.go:718-730 | starts at the resume offset with the chunk number and the chunk count that belong to it |
| Chunks.Receiver.HandleChunk | internal/agent/client.go:757-774 | one chunk through the assembler; the first refusal ends the transfer; while it lives, the received counter equals bytes written plus bytes buffered |
| Transfers.ResumeOffset | internal/common/resume.go:9-28 | the largest chunk-aligned offset within the part file, 0 when there is none |
| Transfers.Pump | internal/server/transfer.go:241-299 | the pump sends exactly the rest of the file from the clamped offset, numbered from there, and counts up to the file's size |
| Transfers.RemainingPieces | internal/agent/client.go:834-928 | from an aligned offset the pump sends exactly the pieces of the source from there to the end |
| Transfers.SendsTheRest | internal/server/transfer.go:258-299 | from any position, aligned or not, the chunks carry the rest of the file byte for byte and are full except for the last |
| Transfers.AttemptKeepsPrefix | internal/agent/client.go:670-730 | one attempt, with any arrivals of what was sent and a disk that may fail at any byte, keeps the part file a prefix of the source and completes only with the whole source |
| Transfers.CompletesExactly | internal/common/chunk.go:98-119 | an attempt completes exactly when the completion message and every chunk sent arrive, none arrives twice or while 256 others wait behind the gap, and the disk has room for the rest of the file |
| Transfers.UndisturbedAttemptCompletes | internal/agent/client.go:670-730 | from any interrupted state, one attempt whose chunks arrive in order, with room on the disk, delivers the source |
| Transfers.EndsExactly | internal/agent/client.go:948-968 | how every attempt ends: interrupted, or refused by a chunk or the disk, it keeps the source up to the first gap in what arrived or the end of the disk; finished with chunks missing it keeps the same or nothing; otherwise it is the source |
| Transfers.InterruptionKeepsGround | internal/common/resume.go:9-28 | an interrupted attempt keeps at least what it resumed from, and the next one resumes no earlier |
| Transfers.ResumesAtTheGap | internal/common/resume.go:9-49 | an attempt cut off without refusals leaves the source up to its first gap, and the next sends exactly the chunks from there on |
| Transfers.ResumedTransfersDeliver | internal/common/resume.go:9-49 | over any number of interrupted, refused and resumed attempts, any chunk sizes and any arrival orders, the part file stays a prefix and every completed attempt delivers exactly the source |
| TaskStore.StatesAgreeWithResults | internal/server/store.go:671-761 | in every interleaving of all store steps, upserts over existing ids, split cancel writes and retention included, a task in a terminal state has a result with that same status |
| TaskStore.PruneRemovesOnlyHistory | internal/server/retention.go:16-62 | a prune removes exactly the terminal tasks older than the cutoff (where text misorders the two, exactly the ones that are younger), leaves every other row and its result as they were, and leaves no result without a task |
| TaskStore.ExpiredMeaning | internal/server/retention.go:23-30 | the text comparison prunes a terminal task by age, except in the misordered family, where it errs by less than a second |
| TaskStore.DisciplinedRunSound | internal/server/store.go:602-608 | in every disciplined run each dispatched or cancel_requested row carries a dispatch time and no unknown state occurs |
| TaskStore.StatesOnlyClimb | internal/server/store.go:704-761 | along every disciplined run a state only climbs queued, dispatched, cancel_requested, terminal; a terminal row and its result never change while the row exists; a removed id does not come back |
| TaskStore.AtMostThreeChanges | internal/server/store.go:704-715 | each task changes state at most three times in any disciplined run |
| TaskStore.ClimbsBetween | internal/server/store.go:671-761 | the climb holds between any two points of a disciplined run |
| TaskStore.GoneForGood | internal/server/retention.go:30-30 | a task present at two points of a disciplined run was present in between |
| TaskStore.TerminalChangedExactlyBy | internal/server/store.go:474-490 | in every run, the steps that change a terminal task's row or its result while the row stays are exactly an upsert of its id, a late cancel-request write, and a late canceled write that is not the very same cancellation |
| TaskStore.TerminalKept | internal/server/store.go:704-761 | in every run, however undisciplined, a terminal task and its result stay as they are until pruned, and then the task stays away, as long as none of those three writes touches its id |
| TaskStore.ClimbsExactlyUnless | internal/server/store.go:1085-1123 | exactly which steps take a state down or change a terminal task: upserts of a task not queued, late cancel writes, results with a lower status, cancels of an unknown state |
| TaskStore.TimedExactlyUnless | internal/server/store.go:1117-1123 | exactly which steps bring a row in flight without a dispatch time |
| TaskStore.UpsertReopens | internal/server/client.go:330-339 | a requeue of a finished task sets it back to queued and leaves its result behind |
| TaskStore.SplitCancelOverwrites | internal/server/store.go:1085-1123 | a task read as queued, then run to success, is overwritten as canceled by the late write, status and all |
| TaskStore.Store.Add | internal/server/store.go:467-490 | inserts the row as queued, or resets an existing one, release time and dispatch time included |
| TaskStore.Store.Mark | internal/server/store.go:602-608 | only a queued row becomes dispatched, and gets its dispatch time |
| TaskStore.Store.Final | internal/server/store.go:671-702 | guarded by the expected state, sets state and result together and reports whether it did |
| TaskStore.Store.Save | internal/server/store.go:717-761 | applies a result exactly when its task is non-terminal and belongs to the reporting agent |
| TaskStore.Store.Cancel | internal/server/store.go:1085-1123 | without interruption: queued becomes canceled with a result, terminal stays, anything else becomes cancel_requested; the state reported is the state the row has |
| TaskStore.Store.PruneAudits | internal/server/retention.go:20-62 | tasks first, then orphaned results; the counts are the numbers of expired tasks and of results left without a task |
| TaskHistory.OthersUntouched | internal/server/store.go:474-761 | a statement about one task leaves every other row and result as it is |
| TaskHistory.AddDecides | internal/server/store.go:474-490 | an upsert leaves the row queued with the task and release time given and no dispatch time |
| TaskHistory.MarkDecides | internal/server/store.go:602-608 | a queued row becomes dispatched at the time given, every other column kept; any other row stays |
| TaskHistory.SaveDecides | internal/server/store.go:717-761 | a result lands exactly on an open task of the reporting agent, as reported, every other column kept; otherwise nothing changes |
| TaskHistory.CancelDecides | internal/server/store.go:1085-1123 | a cancel closes a queued task with a result saying so, turns a dispatched one into cancel_requested and nothing else, and leaves a finished one alone |
| TaskHistory.VerdictsDecide | internal/server/store.go:659-702 | the reaper's verdicts fall on a dispatched or cancel_requested row only, each with its message and time, keeping a result's other columns |
| TaskHistory.LateWritesDecide | internal/server/store.go:1094-1121 | CancelTask's writes on whatever the row has become, and the orphan result one leaves where the row is gone |
| TaskHistory.ForeignResultIgnored | internal/server/store.go:717-735 | a result from an agent other than the task's own changes nothing at any point of any run |
| TaskHistory.RowComesFromAdd | internal/server/store.go:474-490 | in every run, a row's task and release time are those of the last upsert of its id |
| TaskHistory.DispatchTimeComesFromMark | internal/server/store.go:602-608 | in every run, a dispatch time is the time of the mark that took the row out of the queue, with no upsert since |
| TaskHistory.MarkedForGood | internal/server/store.go:602-608 | in a disciplined run, a task taken out of the queue at d carries d for as long as it exists |
| TaskHistory.OutcomeComesFrom | internal/server/store.go:659-761 | in every run, a terminal state was given by the task's own agent, by the reaper's verdict on a row in flight, or by a cancel, and has stood since with its result; success only by the agent's report |
| Reaper.ReapRow | internal/server/reaper.go:141-166 | a scanned row is finalized exactly when its deadline has come, and the flag says so |
| Reaper.ReapScanned | internal/server/reaper.go:140-168 | the loop over a scan finalizes exactly its overdue rows and counts them |
| Reaper.ReapTimedOutTasks | internal/server/reaper.go:131-169 | a pass turns the store into itself with every overdue row finalized and returns how many there were |
| Reaper.NothingOverdueRemains | internal/server/reaper.go:145-167 | after a pass nothing overdue remains; each overdue task became canceled or timeout according to its state, with a result saying so; all other rows and results are untouched |
| Reaper.ReapedAmidRun | internal/server/store.go:659-702 | amid any disciplined run, a task scanned in flight and later reaped ends pruned or finalized unless a cancel request came in between; a result that landed first is never overwritten |
| Reaper.PassAmidRun | internal/server/reaper.go:134-169 | a whole pass amid any disciplined run returns the number of rows its own writes changed; a write that changed no row changed nothing; every row scanned as overdue ends as in `ReapedAmidRun` |
| Reaper.OverdueExactly | internal/server/reaper.go:141-152 | in a disciplined run, a task taken out of the queue at d is overdue exactly when it is still in flight and its timeout and 30 seconds have gone by since d |
| Reaper.CanceledTaskEndsCanceled | internal/server/reaper.go:153-166 | a task canceled in flight that gets no result is canceled, not timed out, after any later pass past its deadline, whatever runs in between |
| Dispatch.NeverBeforeRelease | internal/server/hub.go:790-884 | in every run, through the inline, replay and sweep paths and after requeues that clear release times, no task is put on a connection before its release time, or on one of another agent |
| Dispatch.PendingAreDue | internal/server/store.go:492-565 | what PendingTasks and ReadyQueuedTasks return is due by the release time it was created with, also after a requeue |
| Dispatch.NoImmediateTaskStranded | internal/server/hub.go:809-918 | for every interleaving of any number of creations, registrations, lost connections, failed sends and requeues: once all have finished, every immediate task of an agent with a session was put on a connection of that agent, unless canceled |
| Dispatch.ConnectionKeepsNotLost | internal/server/client.go:75-98 | each step of a connection, from publishing to requeueing, leaves every immediate task delivered, canceled, or queued and in somebody's hands |
| Release.SweepReleasesDue | internal/server/hub.go:852-884 | a sweep deals before its end with every task queued at its read whose release time has come: it puts it on a connection of its own agent, finds that agent offline, or fails to send on a connection going away |
| Release.ReadTakesHold | internal/server/store.go:536-544 | a sweep's read takes hold of a due task exactly when it is settled, or queued with its release time still on it, or the connection side has it |
| Release.NoDeferredTaskStranded | internal/server/hub.go:840-884 | a deferred task waiting past its release when a sweep reads is, once everything has finished, on a connection of its own agent, canceled, or its agent is offline |
| Release.StrandedOnlyByRequeue | internal/server/client.go:330-339 | a due task of an online agent left unsent had been given back by a failed replay before the sweep's read, while its agent's current session was past its own read |
| Release.RequeueStrandsTask | internal/server/client.go:330-339 | a run from the start in which that happens |
| Release.SentIsNotSentAgain | internal/server/hub.go:869-884 | once everything has finished, a task that was sent and never given back is queued no more |
| Release.CanceledIsNotTakenUp | internal/server/store.go:492-565 | no reconnect and no sweep takes up a canceled task, unless a failed replay gave it back |
| Release.ClosedIsNotTakenUp | internal/server/store.go:492-565 | a finished, canceled or pruned task is out of both queries' reach, and other rows stay |
| Release.DeferredExactly | internal/server/hub.go:796-825 | a creation defers its task exactly when it names a release time still ahead, and inserts it queued with that time |
| ReleaseTimer.ReleaseSleep | internal/server/reaper.go:30-40 | exactly the time to the release, zero once it has come |
| ReleaseTimer.StepKeepsSafe | internal/server/reaper.go:69-128 | each step of the loop, of a caller and of the clock keeps every queued deferred task offered or covered |
| ReleaseTimer.NoWakeupLost | internal/server/hub.go:796-838 | in every run, unless a store read of the last arm pass failed, every queued future task is covered by its caller's pending nudge, a wake token, an arm pass that will see it, or a timer aimed no later than its release plus the time that arm pass took |
| ReleaseTimer.NeverSleepsPastDue | internal/server/reaper.go:63-94 | while the loop sleeps with nothing on its way, a task no ready scan has returned is late by less than the last arm pass took, and not at all if the clock stood still |
| ReleaseTimer.ArmNeverSpins | internal/server/store.go:567-600 | arming never sets a zero sleep, aims at the next release exactly, and at an hour ahead when there is none |
| ReleaseTimer.BackstopCatchesUp | internal/server/reaper.go:107-109 | whatever was missed, the backstop sweep offers every task due by then and no other |
| ReleaseTimer.OneWakePerNudge | internal/server/hub.go:827-838 | a nudge wakes the loop at most once |
| ReleaseTimer.QueuedUntilItLeaves | internal/server/store.go:583-588 | a deferral is in the queue with its release time until it leaves |
| ReleaseTimer.BlindOnlyAfterFailure | internal/server/reaper.go:83-93 | only a failed store read makes the scheduler blind |
| TimeText.TextOrder | internal/server/store.go:1239-1244 | byte order of two printed UTC times is time order, except exactly when they share a second and one trimmed fraction begins the other, where it is reversed; equal text means equal time |
| TimeText.FieldsOrder | internal/server/store.go:579-588 | the calendar order of the printed fields is the order of seconds on the time line |
| TimeText.FractionOrder | internal/server/store.go:1239-1244 | within one second, byte order is time order unless one trimmed fraction begins the other |
| TimeText.DueDecision | internal/server/store.go:502-505 | release_at <= now is right exactly outside that family, wrong by less than a second inside it, and never wrong for equally many fraction digits (section 5.1 of RFC 3339) |
| TimeText.WholeSecondReleasesEarly | internal/server/store.go:542-544 | at every whole second, everything due later within that second is taken as due |
| TimeParse.ReadsBack | internal/server/store.go:1228-1244 | every time that is printed is read back as it was, to the nanosecond |
| TimeParse.DaysClosedForm | internal/server/store.go:1239-1244 | the calendar behind the instants has the Gregorian leap days |
| ReleaseText.ReadsSplitTheQueue | internal/server/store.go:536-600 | on text, every queued deferral is either in the ready scan or a candidate for the next release, never both; there is no next release exactly when all are ready |
| ReleaseText.NextWithinSecond | internal/server/store.go:583-600 | the least text is less than a second after the earliest release that is not ready, and no later than it outside the misordered family |
| ReleaseText.AimedWithinSecond | internal/server/reaper.go:69-94 | the timer so aimed fires less than a second after any release that is not ready |
| ReleaseText.SpinsExactly | internal/server/reaper.go:63-94 | arm sets a zero sleep exactly when text misorders the next release and the clock, which takes a shared second |
| ReleaseText.WholeSecondSpins | internal/server/store.go:573-578 | a task due on a whole second makes arm set zero sleeps all through the rest of that second |
| ReleaseText.SpinEndsWithTheSecond | internal/server/store.go:542-544 | once the clock shows a later second, the ready scan returns the task |
| AgentDedup.Client.PruneResults | internal/agent/client.go:1084-1090 | removes exactly the entries older than 10 minutes |
| AgentDedup.Client.Oldest | internal/agent/client.go:563-570 | finds an entry no other is older than |
| AgentDedup.Client.CacheResult | internal/agent/client.go:553-576 | prunes, inserts, and cuts down to 256 by removing the oldest |
| AgentDedup.Client.CachedResult | internal/agent/client.go:578-587 | finds an entry exactly when it is there and not too old |
| AgentDedup.Client.TryReserve | internal/agent/client.go:385-401 | a slot exactly for an id not running while fewer than 16 run |
| AgentDedup.Client.Unregister | internal/agent/client.go:540-544 | gives the slot up |
| AgentDedup.Client.Dispatch | internal/agent/client.go:277-309 | answers from the cache, ignores, starts or refuses, in that order, and caches a refusal |
| AgentDedup.CachingRemembers | internal/agent/client.go:553-576 | whoever caching a result pushes out is too old or has 256 newer results |
| AgentDedup.Bounded | internal/agent/client.go:396-400 | at most 16 tasks run and at most 256 results are kept in every reachable state |
| AgentDedup.AnswersExactly | internal/agent/client.go:277-309 | in every reachable state a dispatch is answered from the cache exactly while its result is at most 10 minutes old, ignored exactly while its task runs, refused exactly while 16 others run, and started otherwise |
| AgentDedup.AtMostOnce | internal/agent/client.go:277-309 | an id that was started or refused is started again by a handler whose checks are one step only if its result was cached and more than 10 minutes have passed since, or 256 other results were cached after it |
| AgentDedup.AdmittedAgainExactly | internal/agent/client.go:285-294 | with the handler's lock sections apart, in every run, a reservation starts an answered and unforgotten id exactly when its result was cached after the handler's look at the cache and it has given up its slot since; a reservation never finds its id running |
| AgentDedup.RefusalIsCached | internal/agent/client.go:294-309 | a dispatch that finds 16 others running is refused, and the refusal is cached as its answer |
| AgentDedup.StartedTwice | internal/agent/client.go:389-437 | a run from the start in which a task finishes between the two looks and is started a second time with its answer in the cache |
| TransferStatus.FirstTerminalWins | internal/server/transfer.go:440-461 | in any interleaving of the guarded lock sections a transfer settles at most once, fires transfer_done exactly then, keeps that status, and a requested cancel only turns terminal |
| TransferStatus.ExceptionsExactly | internal/server/transfer.go:194-224 | exactly which sections overwrite a settled status, fire again, or drop a requested cancel |
| TransferStatus.FirstVerdictStands | internal/server/transfer.go:440-461 | a live transfer that guarded sections settle has the verdict of the first of them that could settle it, and fired exactly that: failed for an error or a stall, canceled for the finalizer, as reported for a confirmation |
| TransferStatus.SettlesWithVerdict | internal/server/transfer.go:528-568 | a guarded section settles a live transfer exactly when it has a verdict, a stall only after 10 minutes, and with that verdict |
| TransferStatus.VerdictSettles | internal/server/transfer.go:787-807 | once a section that always settles has run, the transfer is settled |
| TransferStatus.OutcomesAreEarned | internal/server/transfer.go:440-461 | success only by the agent's confirmation, canceled only by the finalizer or the agent's word, failed only by an error, a stall or the agent's word |
| TransferStatus.StatusComesFrom | internal/server/transfer.go:194-224 | in every run, guarded or not, each status was brought by one of the sections that bring it |
| TransferStatus.SectionBrings | internal/server/transfer.go:301-374 | each section brings its status to every live transfer without a requested cancel, and no section brings another |
| TransferStatus.BytesAreCounted | internal/server/transfer.go:280-281 | in every run, the byte count grows by exactly the chunks handled |
| TransferStatus.OffsetIsSet | internal/server/transfer.go:251-253 | from a resume on, the byte count is the offset and every chunk since |
| TransferStatus.CancelNeverDangles | internal/server/transfer.go:809-833 | through any guarded sections, from 30 seconds after a cancel request on, the transfer is settled or due for the grace reaper, which settles it |
| TransferStatus.StampedExactlyUnless | internal/server/transfer.go:736-742 | a requested cancel carries its time through every section, except exactly when an agent reports cancel_requested as an outcome |
| TransferStatus.StampComesFromRequest | internal/server/transfer.go:736-742 | in every run, the time of a request is the time of a cancelTransfer |
| TransferStatus.CancelDueExactly | internal/server/transfer.go:809-833 | the grace reaper takes a request exactly from 30 seconds after it on |
| TransferStatus.CancelAlwaysSettles | internal/server/transfer.go:809-833 | however a transfer came to be cancel_requested, the request has a time, and from 30 seconds after it on, through any guarded sections, the transfer is settled or due for the grace reaper |
| TransferStatus.CancelOverwrittenByPump | internal/server/transfer.go:301-304 | a pump reaching the end of the file after a cancel request hides the request: through any guarded sections that follow, unless the operator asks again, the transfer is never due for the grace reaper |
| TransferStatus.StalledMeansIdle | internal/server/transfer.go:548-568 | with audit writes succeeding, a transfer is reaped as stalled only if it handled no chunk for 10 minutes less a second |
| TransferStatus.UnrecordedProgressBounded | internal/server/transfer.go:686-694 | after every chunk, less than 1 MiB and less than a second of progress is unrecorded |
| TransferStatus.RecordedExactly | internal/server/transfer.go:686-694 | a chunk is recorded exactly when nothing was before, or at least 1 MiB or a second would go unrecorded |
| TransferStatus.StatusChangesAreRecorded | internal/server/transfer.go:663-684 | a new status is recorded with the section that brings it, except the pump's last, which is recorded next |
| TransferStatus.RecordComesFromSection | internal/server/transfer.go:663-684 | in every run, a recorded time is that of a section whose audit write succeeded |
| TransferStatus.TransferState.PersistLocked | internal/server/transfer.go:663-684 | records time and bytes, unless the write fails |
| TransferStatus.TransferState.RunPrologue | internal/server/transfer.go:194-224 | runs only if no cancel was requested; nothing else is checked |
| TransferStatus.TransferState.HandleChunk | internal/server/transfer.go:280-285 | counts the chunk and records it when due |
| TransferStatus.TransferState.AwaitRemote | internal/server/transfer.go:301-303 | overwrites any status, without an audit write |
| TransferStatus.TransferState.PersistTransfer | internal/server/transfer.go:657-661 | the audit write in its own lock section |
| TransferStatus.TransferState.HandleStart | internal/server/transfer.go:364-374 | overwrites any status but cancel_requested |
| TransferStatus.TransferState.HandleDone | internal/server/transfer.go:440-461 | an upload's confirmation settles a transfer that is not settled |
| TransferStatus.TransferState.FinishDownload | internal/server/transfer.go:478-526 | settles whatever the status was |
| TransferStatus.TransferState.FinishWithError | internal/server/transfer.go:528-543 | settles as failed unless settled |
| TransferStatus.TransferState.ReapStalled | internal/server/transfer.go:548-568 | settles as failed unless settled or recorded within 10 minutes |
| TransferStatus.TransferState.RequestCancel | internal/server/transfer.go:730-749 | records a first cancel request on an unsettled transfer |
| TransferStatus.TransferState.FinalizeCanceled | internal/server/transfer.go:787-807 | settles as canceled unless settled |
| EventStore.FitIsLongestSuffix | internal/server/plugin_event.go:338-344 | dropping from the front keeps the longest most recent suffix that fits |
| EventStore.UnexpiredExactly | internal/server/plugin_event.go:323-336 | exactly the events no older than the time to live stay |
| EventStore.WithoutExactly | internal/server/plugin_event.go:346-353 | exactly the events under other ids stay |
| EventStore.PermitExactly | internal/server/plugin_event.go:276-285 | the plugin joins those allowed to see that one event, and nothing else changes |
| EventStore.Store.constructor | internal/server/plugin_event.go:243-250 | starts as the empty list |
| EventStore.Store.EvictExpired | internal/server/plugin_event.go:323-336 | leaves exactly the unexpired events, stale slots or not |
| EventStore.Store.EvictOverCap | internal/server/plugin_event.go:338-344 | leaves exactly what fits |
| EventStore.Store.Drop | internal/server/plugin_event.go:346-353 | removes one event and its bytes, and leaves its slot in the queue |
| EventStore.Store.Add | internal/server/plugin_event.go:252-274 | the list becomes the longest most recent suffix that fits of the unexpired events and the new one; the byte counter is their total and at most the cap |
| EventStore.Store.Allow | internal/server/plugin_event.go:276-285 | adds the plugin to that one event |
| EventStore.Store.Get | internal/server/plugin_event.go:287-304 | returns the payload exactly for a listed, unexpired event handed to that plugin, and drops an expired one |
| Utf8.BoundaryIff | internal/server/plugin_event.go:193-202 | in valid UTF-8 a prefix is valid exactly where the next byte is no continuation byte |
| Utf8.TruncateBytes | internal/server/plugin_event.go:191-202 | for every valid UTF-8 string the longest valid prefix of at most n bytes, at most 3 bytes short of n; the flag is true exactly when bytes were dropped |
| RuntimePool.PoolConservation | internal/server/plugin_javascript.go:339-380 | in every interleaving of calls, tokens equal idle runtimes plus runtimes held or being made and never exceed 8, no runtime is in two places, giving a token back never blocks, and a release never finds the pool full |
| RuntimePool.ReleasedExactly | internal/server/plugin_javascript.go:365-380 | in every interleaving, a reusable runtime goes to the back of the idle ones, and one that is not is never seen again |
| RuntimePool.AcquiredExactly | internal/server/plugin_javascript.go:342-363 | a call gets the runtime idle longest or a new one, makes one only while fewer than 8 are out, and nobody else's changes |
| RuntimePool.StepConserves | internal/server/plugin_javascript.go:342-380 | each single step keeps the token count and finds its token |
| RuntimePool.StepKeepsExclusive | internal/server/plugin_javascript.go:342-380 | each single step keeps every runtime in one place |
| RuntimePool.Plugin.constructor | internal/server/plugin_javascript.go:109-121 | the first runtime is idle and has its token |
| RuntimePool.Plugin.Acquire | internal/server/plugin_javascript.go:339-363 | succeeds exactly with an idle runtime or with room and a runtime that can be made; on failure the pool is as before |
| RuntimePool.Plugin.Release | internal/server/plugin_javascript.go:365-380 | puts the runtime back or frees its token; the full-pool branch is unreachable |
| RuntimePool.Plugin.Execute | internal/server/plugin_javascript.go:203-263 | every path of a call returns exactly what it acquired: back in the pool after a clean call, dropped with its token after a failed one |
| Sessions.OnlineFlagExactly | internal/server/hub.go:886-950 | however sessions of an agent overlap and however far apart their decisions and writes lie, once all is settled the stored flag is wrong exactly when a session that decided before the current one entered the map wrote after it did, and nothing has set the flag since; without a current session it is never wrong |
| Sessions.OnlineFlagSettles | internal/server/hub.go:886-950 | with unregister's decision and write in one step, once each session is torn down or is the current one, the stored flag is true exactly when the agent is in the client map |
| Sessions.TouchRepairs | internal/server/hub.go:920-924 | any session's touch puts the flag up, late writes or not |
| Sessions.NewestIsCurrent | internal/server/hub.go:886-943 | in every run, the map's entry is the session that entered it last, exactly as long as that session is not torn down |
| Sessions.SplitUnregisterMarksLiveAgentOffline | internal/server/hub.go:934-950 | with the decision and the flag write apart, a reconnect in between ends up marked offline |

## Left out

- Transfers.ResumedTransfersDeliver: assumes that the source file does not change, that a read returns a full chunk except at the end of the file, and that one attempt at a time writes a part file.
- Transfers.AttemptKeepsPrefix: stat errors and directories in place of a part file end an attempt before it starts and are not modelled.
- TaskStore.StatesOnlyClimb: holds for fresh ids, an uninterrupted CancelTask and statuses an agent can produce; `ClimbsExactlyUnless` and `TerminalChangedExactlyBy` say exactly what happens otherwise.
- Reaper.ReapTimedOutTasks: store errors, on which the source logs and goes on, are not modelled; the order of the scan does not matter and is left open.
- Dispatch.NoImmediateTaskStranded: store errors on the dispatch paths are not modelled; a send can fail only on a connection that is going away, as sendMessage does short of a marshalling error.
- Dispatch.NeverBeforeRelease: is over ordered time; `TimeText.DueDecision` bounds what comparing text adds.
- ReleaseTimer.NoWakeupLost: is over ordered time, and so is `ReleaseTimer.ArmNeverSpins`; `ReleaseText` says what comparing text adds.
- Sessions.OnlineFlagSettles: takes unregister's decision and flag write as one step; `OnlineFlagExactly` does not.
- AgentDedup.AtMostOnce: takes the dispatch handler's checks as one step, which `AdmittedAgainExactly` does not; both take the clock as strictly increasing and the read loop as handling one dispatch at a time; an agent restart, which empties both structures, is not modelled.
- EventStore.Store.Add: takes the clock reading and the lock section as one step, so that entry times do not decrease, and the generated id as new.
- TransferStatus.FirstTerminalWins: is about the guarded sections; `ExceptionsExactly` lists the rest.
- TimeText.TextOrder: is for the years 0000 to 9999, where the year prints as four digits.
- RuntimePool.PoolConservation: is about tokens and runtimes; interrupts, and the broken flag's unsynchronized reads, are not modelled.
- RuntimePool.Plugin.Acquire: does not wait for a runtime to come back; waiting is the other callers' steps in `PoolConservation`.
- HTTP routing, middleware, TLS, WebSocket framing and keepalive, peer credentials, protobuf and JSON codecs.
- TimeParse.ReadsBack: is about the layout the store prints; the offsets and longer fractions time.Parse also takes are not modelled.
- SQLite itself, schema and migrations; the transfer_audit and oplog rows that retention also deletes.
- Checksums, renames, process groups and shell execution.
- Plugin decisions and triggers, hint projections, the operation log summarizer, tag matching, groups, the CLI, configuration, logging, host information and metrics.
- How long anything takes in real time.
