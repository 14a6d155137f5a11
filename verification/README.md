# Verification of the agent harness

This project models the parts of the harness whose correctness does not show in any single function, and proves
properties of the model with Dafny 4.11. `dafny verify dfyconfig.toml` checks everything.

## What is modelled

**The durable event log and live traces.** `EventLog` has any number of open transactions that append events, commit
or roll back; an append holds the cursor row to the end of its transaction, and the log is serialisable. `TraceStore`
has the tables of runs, steps and artifacts beside the log, with a repository method as one step. `TraceRows` and
`TraceWrites` take these methods apart into their statements and interleave those; `RowsAndEvents`, `CallRaces` and
`FinishedSteps` say what then still holds, and exactly when. `TraceClient` is the snapshot with its four separate reads
and the browser's reducer; `EventStream` the server-sent event loop, and its module `LiveMerge` the page that is fed by
breaking connections and overlapping replays; `ConcurrentReads` puts both beside interleaved calls. `EventRepo` and
`TraceRepo` are the repository objects whose methods perform the steps.

**The leased job queue.** `JobQueue` is the table of jobs as a state machine over runs of any length: enqueue, claim
with recovery of expired leases, fenced finalisation, retry with backoff. `JobRepo` is the repository object, with the
values a worker finalises with, and `JobOutcomes` says over runs what each of these leaves in a row. `Schedules` and
`ScheduleRepo` put drift-triggered generation on top of it, and `TriggerScores` says which scores trigger a job.

**Prompt byte budgets.** `Utf8` encodes and decodes text as in RFC 3629 and cuts it; `Json` serialises values with the
escapes of section 7 of RFC 8259 and counts the bytes of the text; `JsonText` shows that the text determines the
value. `PromptProjection` selects and shortens parts of a context pack and fills lists greedily; `PromptBudget`
compacts tool observations, `CompactionBytes` says how many bytes that leaves in terms of the entries' sizes, and
`HistoryBytes` what this means for inspection histories. `ContextView` is the view of a context pack, `Lossless` says
which parts are shown whole and `ContextLoss` which packs; `ViewContents` and `CompactionContents` say of a view and of
a compaction, from their fields alone, which items of the input they contain, in what form, and why others are left
out. `PromptPayload` is the code that tries a change and takes it back. `InspectionRequest` adds up a request.

**The inspection loop, source excerpts and evidence.** `Inspection` runs the model's tool calls turn by turn, with the
model's answers as a script of any length, and `CallRecords` says what its records and requests tell. `SourceExcerpt`
reads a bounded, redacted range of lines, and `RedactedExcerpts` says what an excerpt shows of each line, and that it
says nothing about credentials. `Evidence` collects what a context pack makes citable and verifies citations;
`EvidenceSources` says which sources these are.

**The layout of trace groups.** `ContextDepth` is the memoised recursion for the depth of a context pack,
`TraceLayout` the packing of one band, `TraceGroups` the bands below each other, `GroupLayout` the whole layout and
what its positions alone say about order, columns and bands, with coordinates as real numbers.

Each stateful component comes twice: as functions on values, about which the properties are proved for every run,
and as a class whose methods change their fields as the source does and are proved to compute those functions.

## What was found

- `compact_tool_observation` can exceed `max_bytes`: two empty lists are added without a size check and cost 42 bytes.
  `PromptBudget.CompactedIsBounded` says that it never exceeds the limit (or its own counters) by more,
  `CompactionBytes.CompactedFitsExactly` when the result fits, in the sizes of the entries, and
  `HistoryBytes.HistoryOvershoots` that for every budget from 254 on there is an inspection with one refused call whose
  history exceeds it by 25 bytes before compaction and by 42 after. Compaction makes a history larger exactly if it
  saves fewer than 17 bytes (`CompactionGrowsExactly`). `InspectionRequest.RequestIsTotal` shows that the reserve of
  1,200 bytes absorbs this: the two guards of the request builder never fire, and only the fixed part of the briefing
  can be too large.
- A view that is not marked as truncated need not show its whole pack. `ContextLoss.UnmarkedViewIsWholeExactly` gives
  the condition on the pack; `LongPurposeIsCutUnmarked` is a pack whose purpose is cut and
  `PromptContentVanishesUnmarked` one whose `prompt_content` is dropped, both without the mark. The mark speaks of the
  lists, drift, attention profile, tool inspection and unknown keys only (`ContextView.FlagIsExact`), or of a view with
  fewer bytes than its pack.
- A mark of a run or a step that changes no column sends no update and takes no row lock. If another change of the row
  comes between its read-back and its event, the last event about the row carries what the row was before: every live
  page shows a run or a step as running whose row says that it finished (`CallRaces.SilentMarkHidesTheOther`).
  `CallRaces.TogetherExactly` says that this is the only way in which rows and last events part,
  `RowsAndEvents.SilentExactly` which marks are silent, and `RowsAndEvents.RowsStayLastEvents` that without them every
  interleaving keeps all that the trace store keeps.
- The check of `mark_step_activity` for finished steps is made on a row that it has not locked. If the step finishes
  between the check and the write, the activity changes the finished row unless it is silent
  (`FinishedSteps.StaleCheckReopens`). `FinishedSteps.FinishedStepsStay` and `GuardExactly` say exactly when finished
  steps are left alone: when the check would pass again at the write, or the row has what would be written.
- The identical-call check of the inspection loop compares serialised signatures. `JsonText.DumpsIsInjective` shows
  that this is the same as comparing tool names and arguments.

## Assumptions

- In `TraceStore` each trace method is one atomic step; `TraceWrites` drops this assumption.
- An update sends the columns whose assigned value differs from the value read, waits for the row's lock and keeps it to
  the end of the transaction; reads see committed rows and the transaction's own writes. An insertion waits for
  uncommitted ones with the same key, and does not go through if a committed row has it.
- Each job method is one atomic step. `mark_succeeded` and `mark_failed` read the row without a lock
  (src/ooh/db/repos/jobs.py:135 and 181), so this is assumed rather than shown.
- Row locks are held to the end of the transaction, a violated unique constraint aborts it, and a query sees one
  committed state. The cursor row exists.
- Identifiers, times, redaction matches, tool outcomes, and the rows a query may return when several are equally early
  are inputs. Times of schedule actions increase strictly.

## Model

| member | source | states |
|---|---|---|
| EventLog.CommittedIdsAreGapless | src/ooh/db/repos/execution_events.py:102-127 | after every interleaving of begins, appends, commits and rollbacks the committed ids are 1 .. last_event_id in commit order |
| EventLog.NothingAppearsBehindAReader | src/ooh/db/repos/execution_events.py:109-127 | an event that becomes visible after a reader looked has a larger id than everything the reader saw, and what it saw stays |
| EventLog.EveryScheduleSerialises | src/ooh/db/connection.py:20-29 | the committed log of any interleaving is that of its committed transactions run one after the other in commit order |
| EventReads.RunEventsAfterMembers | src/ooh/db/repos/execution_events.py:36-54 | a cursor read has exactly the run's committed events with larger ids |
| EventReads.RunEventsAfterIncreasing | src/ooh/db/repos/execution_events.py:48-50 | a cursor read is strictly increasing in id |
| EventReads.RunEventsAfterSplit | src/ooh/db/repos/execution_events.py:36-54 | reading on from the last id of a page continues it without gap or overlap |
| EventReads.LatestIdIsGreatest | src/ooh/db/repos/execution_events.py:76-83 | the latest id of a run is the greatest of its committed events, and 0 if there is none |
| EventRepo.ExecutionEventRepo.BeginTx | src/ooh/db/connection.py:20-22 | opens a transaction and changes nothing that others see |
| EventRepo.ExecutionEventRepo.AppendExecutionEvent | src/ooh/db/repos/execution_events.py:102-132 | takes the next id under the cursor lock in its own transaction; an unscoped event or a held lock changes nothing |
| EventRepo.ExecutionEventRepo.CommitTx | src/ooh/db/connection.py:20-29 | makes the transaction's events and cursor visible at once and releases the lock |
| EventRepo.ExecutionEventRepo.RollbackTx | src/ooh/db/connection.py:20-29 | drops the transaction's events and its cursor value |
| EventRepo.ExecutionEventRepo.ListForAgentRun | src/ooh/db/repos/execution_events.py:36-54 | returns the first `limit` of the run's events behind the cursor, and rejects bad cursors |
| EventRepo.ExecutionEventRepo.LatestIdForAgentRun | src/ooh/db/repos/execution_events.py:76-83 | returns the greatest id of the run's committed events |
| TraceStore.RunKeepsValid | src/ooh/db/repos/agent_traces.py:76-330 | every sequence of operations keeps the tables and the log consistent, and only appends to the log |
| TraceStore.TablesAreTheLastEvents | src/ooh/db/repos/agent_traces.py:384-435 | in every reachable state each run, step and artifact row is the payload of its last event, and there is no row without one |
| TraceStore.StepsFormAForest | src/ooh/db/repos/agent_traces.py:142-202 | no step is its own ancestor, a lineage stays in one run, and below a step with a context pack all have that pack, whose repository is the run's |
| RowsAndEvents.RowsStayLastEvents | src/ooh/db/repos/agent_traces.py:76-330 | however the statements of any number of calls interleave, if no mark is silent then each committed row is the payload of its last committed event and all other invariants of the store hold |
| RowsAndEvents.CommitKeepsRowsExactly | src/ooh/db/repos/agent_traces.py:234-243 | a commit leaves rows and last events together exactly if the call wrote or the row is still the one it read back |
| RowsAndEvents.SilentExactly | src/ooh/db/repos/agent_traces.py:114-301 | which marks set every column to the value it has: a start or activity of what runs, has been started and shows that activity; a finish repeated at the same time with the same outcome |
| CallRaces.WholeCallIsOneStep | src/ooh/db/repos/agent_traces.py:76-330 | a call that nothing interleaves with, accepted or refused, is one step of the trace store |
| CallRaces.SilentMarkHidesTheOther | src/ooh/db/repos/agent_traces.py:258-270 | if any other change of the row overtakes a silent mark, the last event about the row carries what it was before |
| CallRaces.TogetherExactly | src/ooh/db/repos/agent_traces.py:114-301 | once a call has read its row, rows and last events stay together on every schedule without a further silent mark exactly if the call is not silent |
| FinishedSteps.FinishedStepsStay | src/ooh/db/repos/agent_traces.py:252-270 | on every schedule on which no activity is written to a finished row that lacks what it writes, no activity ever changes a finished step |
| FinishedSteps.GuardExactly | src/ooh/db/repos/agent_traces.py:255-261 | where an activity is about to be written, it and all that follows without a late write leave finished steps alone exactly if it is not late itself |
| FinishedSteps.LateCommitExactly | src/ooh/db/repos/agent_traces.py:258-270 | the commit of an activity changes a finished row exactly if a column it writes has another value there |
| FinishedSteps.StaleCheckReopens | src/ooh/db/repos/agent_traces.py:252-261 | if the step finishes between check and write, the row stays as the finish left it exactly if the activity is silent |
| TraceRepo.AgentTraceRepo.CreateRun | src/ooh/db/repos/agent_traces.py:76-90 | inserts the run and appends its event in one step |
| TraceRepo.AgentTraceRepo.MarkRunRunning | src/ooh/db/repos/agent_traces.py:114-126 | the run is running from its first start on, with its event; an unknown run changes nothing |
| TraceRepo.AgentTraceRepo.MarkRunFinished | src/ooh/db/repos/agent_traces.py:128-140 | the run has the status and its finishing time, with its event; an unknown run changes nothing |
| TraceRepo.AgentTraceRepo.CheckPack | src/ooh/db/repos/agent_traces.py:142-177 | finds the obstacle of the context-pack rules, if there is one |
| TraceRepo.AgentTraceRepo.CreateStep | src/ooh/db/repos/agent_traces.py:142-202 | inserts the step with its event exactly if no parent or pack rule is violated |
| TraceRepo.AgentTraceRepo.MarkStepRunning | src/ooh/db/repos/agent_traces.py:220-243 | the step is running from its first start on, with its event; an unknown step changes nothing |
| TraceRepo.AgentTraceRepo.MarkStepActivity | src/ooh/db/repos/agent_traces.py:245-270 | sets a step running with the activity and its event, or refuses a step that has finished |
| TraceRepo.AgentTraceRepo.MarkStepFinished | src/ooh/db/repos/agent_traces.py:272-301 | the step has the status, its finishing time and the summaries given, with its event; an unknown step changes nothing |
| TraceRepo.AgentTraceRepo.CreateArtifact | src/ooh/db/repos/agent_traces.py:303-330 | inserts the artifact of a known step and appends its event in one step |
| TraceRepo.AgentTraceRepo.ListStepsForRun | src/ooh/db/repos/agent_traces.py:204-211 | lists exactly the run's steps, by sequence |
| TraceRepo.AgentTraceRepo.ListArtifactsForRun | src/ooh/db/repos/agent_traces.py:341-349 | lists exactly the run's artifacts, in the order of the query |
| TraceClient.ApplyEventUpserts | frontend/src/App.tsx:2838-2866 | one event changes exactly the row it carries |
| TraceClient.ReplayKeepsTheLast | frontend/src/App.tsx:2868-2881 | replayed events leave for every row what the last of them carries, or what was there |
| TraceClient.StepListingIsUnique | src/ooh/db/repos/agent_traces.py:204-211 | a run has one listing of its steps |
| TraceClient.SnapshotThenReplayConverges | src/ooh/services/traces.py:50-60 | cursor first, then run, steps and artifacts at later points while writers commit: replaying what is behind the cursor shows the current tables |
| TraceClient.TerminalSnapshotIsFinal | frontend/src/App.tsx:2909-2931 | a snapshot whose run row is terminal and is followed by no event already shows the final tables |
| ConcurrentReads.SnapshotAmongCallsConverges | src/ooh/services/traces.py:50-60 | snapshot and replay converge also if the four reads lie anywhere between the statements of concurrent calls, none of them a silent mark |
| ConcurrentReads.LiveClientAmongCallsConverges | frontend/src/App.tsx:2838-2907 | so does a page that has nothing left to receive |
| ConcurrentReads.TerminalSnapshotAmongCallsIsFinal | frontend/src/App.tsx:2909-2931 | a terminal snapshot followed by no event of the run shows the final tables, also among concurrent calls |
| EventStream.ResolveResumeEventId | src/ooh/api/routes/traces.py:278-279 | a connection starts behind both the query parameter and Last-Event-ID, and at one of them |
| EventStream.ReadPage | src/ooh/api/routes/traces.py:243-250 | a page continues what was sent |
| EventStream.CloseOrContinue | src/ooh/api/routes/traces.py:252-263 | reads the status after an empty page and, if the run is over, one more page; the stream closes exactly if that one is empty too |
| EventStream.IterExecutionEventSse | src/ooh/api/routes/traces.py:230-268 | every read is a page or, exactly after an empty page, the status, each of the next state; a page sends the lesser of its size and of what that state holds unsent; the loop closes exactly at an empty page after a terminal status, and ends otherwise only when the client leaves between iterations or no state is left |
| EventStream.StreamAgentRunEvents | src/ooh/api/routes/traces.py:92-124 | the same for a connection in pages of 500: what was sent is strictly increasing and the first so many of the run's events behind the resume point; when it closes it is all of them, and the run was over before the last read |
| EventStream.FinishedRunCloses | src/ooh/api/routes/traces.py:242-263 | of a finished run whose log rests, a loop with reads and iterations enough sends all events and closes by itself |
| EventStream.TerminalEventWasSent | src/ooh/api/routes/traces.py:252-263 | the event of the terminal commit is among those sent |
| LiveMerge.ConnectionDelivers | src/ooh/api/routes/traces.py:230-250 | until it breaks, a connection delivers by the rule by which the loop yields: what came and what is behind its position are together the events behind its start |
| LiveMerge.DeliveredIsYielded | src/ooh/api/routes/traces.py:230-268 | what a connection delivers is the front of what the loop yields for it |
| LiveMerge.EachEventOnceInOrder | frontend/src/App.tsx:2838-2907 | through any deliveries, reconnects and overlapping replays the page applies each event once and in order |
| LiveMerge.LiveClientConverges | frontend/src/App.tsx:2838-2907 | a page that has nothing left to receive shows the tables as they are |
| JobQueue.FencedFinaliseIsExact | src/ooh/db/repos/jobs.py:258-270 | a finalisation with (worker, attempt) passes the fence exactly while the row is the one that claim left |
| JobQueue.AcceptedFinaliseHasItsClaim | src/ooh/db/repos/jobs.py:258-270 | an accepted fenced finalisation belongs to one claim, the job's latest |
| JobQueue.AttemptIsIssuedOnce | src/ooh/db/repos/jobs.py:98-105 | no two claims hand out the same attempt of a job |
| JobQueue.AttemptIsFinalisedOnce | src/ooh/db/repos/jobs.py:124-216 | each attempt is finalised at most once |
| JobQueue.OverIsForever | src/ooh/db/repos/jobs.py:79-216 | a job that succeeded, failed or was cancelled never changes again |
| JobQueue.SucceedsAtMostOnce | src/ooh/db/repos/jobs.py:124-165 | a job succeeds at most once |
| JobQueue.ReachableJobs | src/ooh/db/repos/jobs.py:79-256 | attempts stay within bounds, lock fields are set exactly while running, waiting jobs have attempts left, the last event tells the status, at most 2 * max_attempts changes |
| JobQueue.EveryChangeUsesFuel | src/ooh/db/repos/jobs.py:79-256 | a measure of at most 2 * max_attempts decreases with every claim, recovery and finalisation |
| JobQueue.EnqueueIsIdempotent | src/ooh/db/repos/jobs.py:289-312 | enqueueing a key again changes nothing, and one job has the key |
| JobRepo.JobRepo.EnqueueJob | src/ooh/db/repos/jobs.py:277-340 | the new row and event, or the job that has the key, or an error |
| JobRepo.JobRepo.RecoverExpiredLeases | src/ooh/db/repos/jobs.py:218-256 | recovers up to `limit` expired jobs, the earliest leases first, and no others |
| JobRepo.JobRepo.ClaimNext | src/ooh/db/repos/jobs.py:68-122 | recovers, then claims an oldest claimable job that is not locked |
| JobRepo.JobRepo.ValidateLeaseOwner | src/ooh/db/repos/jobs.py:258-270 | finds the obstacle of the fence, if there is one |
| JobRepo.JobRepo.MarkSucceeded | src/ooh/db/repos/jobs.py:124-166 | passes the fence and leaves the row SUCCEEDED with the metadata, no error and no lock, recorded in an event, or changes nothing and says why |
| JobRepo.JobRepo.MarkFailed | src/ooh/db/repos/jobs.py:168-216 | retries with backoff or fails the job and records it, or fails unchanged with the fence's obstacle |
| JobRepo.WorkerFinalisesItsOwnClaim | src/ooh/worker/runner.py:66-85 | a worker's finalisation takes effect exactly while its claim stands, and changes nothing otherwise |
| JobOutcomes.SucceededExactly | src/ooh/db/repos/jobs.py:124-166 | in every run a job is SUCCEEDED exactly if an accepted success of it came before |
| JobOutcomes.SuccessStays | src/ooh/db/repos/jobs.py:144-151 | from an accepted success on the row is SUCCEEDED, with its metadata and without an error |
| JobOutcomes.FailureLeaves | src/ooh/db/repos/jobs.py:190-216 | an accepted failure leaves RETRY_WAIT exactly if a retry was asked for and attempts are left, due after min(300, 2^attempt) seconds, and FAILED otherwise, with the first 1000 characters of the error |
| JobOutcomes.ClaimLeaves | src/ooh/db/repos/jobs.py:68-122 | a claim takes a job that was due, or whose lease had expired, and leaves it RUNNING with the next attempt, the worker, the time and the end of the lease |
| JobOutcomes.ClaimTakesAnOldest | src/ooh/db/repos/jobs.py:78-96 | while an unlocked job is due a claim takes a job, and none that was created later |
| JobOutcomes.RecoveryLeaves | src/ooh/db/repos/jobs.py:218-256 | recovery takes running jobs with expired leases only, and leaves them FAILED exactly if no attempts are left, and else queued |
| JobOutcomes.NewJobsAreQueued | src/ooh/db/repos/jobs.py:277-340 | a job appears only by an enqueue, queued with no attempts made |
| Schedules.EvaluatedAtMostOnce | src/ooh/db/repos/repository_schedules.py:106-208 | over any interleaving, with stale snapshots and aborts, a schedule evaluates an event at most once |
| Schedules.TriggersAndJobsInBijection | src/ooh/db/repos/repository_schedules.py:132-193 | matched evaluations and trigger jobs are in bijection |
| Schedules.DisabledWindowsAreNotReplayed | src/ooh/db/repos/repository_schedules.py:61-65 | an event recorded while its schedule was disabled is never evaluated |
| Schedules.EligibleEventsAreEvaluated | src/ooh/db/repos/repository_schedules.py:113-129 | under a schedule that stays enabled, undisturbed ticks of any positive batch size evaluate every eligible event |
| Schedules.TriggerKeyIsInjective | src/ooh/db/repos/repository_schedules.py:151 | keys of different schedules or events differ |
| ScheduleRepo.RepositoryScheduleRepo.Upsert | src/ooh/db/repos/repository_schedules.py:33-95 | inserts or updates the schedule with its event; enabling starts a new window |
| ScheduleRepo.RepositoryScheduleRepo.Evaluate | src/ooh/db/repos/repository_schedules.py:132-207 | adds the one evaluation of the event, matched exactly if its score lies within the limits of its schedule, with a job exactly if it matched; fails on a violated constraint |
| ScheduleRepo.RepositoryScheduleRepo.EvaluatePending | src/ooh/db/repos/repository_schedules.py:97-209 | evaluates the first candidates by time and identifier up to the limit, as the tick of the state machine does, each matched exactly if its score lies within the limits, or nothing at all |
| TriggerScores.TriggersFollowTheScore | src/ooh/db/repos/repository_schedules.py:132-218 | in every run an evaluated event has a trigger job exactly if its score lay within the limits its schedule had at the tick that evaluated it |
| TriggerScores.EvaluatedEventsWereEligible | src/ooh/db/repos/repository_schedules.py:113-141 | only complete events recorded under an enabled schedule since it was last enabled are evaluated |
| TriggerScores.RoomyTickEvaluatesAll | src/ooh/db/repos/repository_schedules.py:113-151 | an undisturbed tick with room for all events leaves none of these unevaluated |
| TriggerScores.TickTakesTheOldest | src/ooh/db/repos/repository_schedules.py:113-132 | a tick takes the oldest eligible events first, and leaves one out only if it has its limit |
| TriggerScores.UpsertSetsTheLimits | src/ooh/db/repos/repository_schedules.py:33-95 | an upsert sets the limits of its schedule and no other, and starts a window when it creates or enables it |
| Utf8.DecodeEncode | src/ooh/agent/prompt_budget.py:190-198 | decoding an encoding gives the text back |
| Utf8.DecodePrefix | src/ooh/agent/prompt_budget.py:197 | decoding a byte prefix of an encoding drops exactly a partial last character |
| Utf8.WholeCharsAreLongest | src/ooh/agent/prompt_budget.py:197 | what is left is the longest prefix of whole characters that fits |
| Utf8.DecodeShrinks | src/ooh/agent/prompt_budget.py:196-197 | decoding any bytes with errors ignored never yields more bytes |
| Utf8.TruncateTextBytesIsExact | src/ooh/agent/prompt_budget.py:190-198 | the result fits; fitting text is unchanged; otherwise the longest whole-character prefix and the marker, or a part of the marker up to 15 bytes |
| Utf8.TruncateToBytesIsExact | src/ooh/agent/tools/common.py:467-473 | the result is the longest whole-character prefix that fits |
| Json.SizeCountsBytes | src/ooh/agent/prompt_budget.py:179-187 | the structural size of every value is the number of UTF-8 bytes of its text |
| Json.NewFieldSize | src/ooh/agent/prompt_budget.py:201-211 | what a new field adds to the bytes of an object |
| Json.AppendedItemSize | src/ooh/agent/prompt_budget.py:214-228 | what an appended item adds to the bytes of a list |
| JsonText.DumpsIsInjective | src/ooh/agent/repository_inspection.py:417-423 | two values with the same serialised text are equal |
| PromptProjection.ScalarMappingShowsTheFirst | src/ooh/agent/prompt_budget.py:392-406 | at most 12 scalar items are shown, and one is left out only if that many come before it |
| PromptProjection.GreedyFits | src/ooh/agent/prompt_budget.py:214-228 | filling a list keeps a payload within its limit, and adds nothing to one that exceeds it |
| PromptProjection.GreedyKeepsFirst | src/ooh/agent/prompt_budget.py:112-154 | entries are kept from the front, each in full if it fits and else in brief, up to the first that fits in neither form |
| PromptProjection.GreedyFlag | src/ooh/agent/prompt_budget.py:112-156 | the flag stays down exactly if every entry was kept in full with its whole text |
| PromptBudget.CompactedIsBounded | src/ooh/agent/prompt_budget.py:321-383 | a compacted observation exceeds its limit, or its counters, by 42 bytes at most |
| CompactionBytes.TakenIsLargest | src/ooh/agent/prompt_budget.py:214-228 | a list is filled with the most entries from the front whose bytes fit |
| CompactionBytes.CompactedSize | src/ooh/agent/prompt_budget.py:321-383 | the bytes of a compaction, computed from the sizes of its counters and entries |
| CompactionBytes.CompactedFitsExactly | src/ooh/agent/prompt_budget.py:349-383 | it fits exactly if the observation did or counters, kept failures and duplicates and two empty lists do; without failures and duplicates that is the counters and 42 bytes |
| HistoryBytes.CompactionGrowsExactly | src/ooh/agent/prompt_budget.py:321-383 | compacting an inspection history makes it larger exactly if the entries left out or shortened save fewer than 17 bytes |
| HistoryBytes.HistoryOvershoots | src/ooh/agent/prompt_budget.py:349-364 | for every budget from 254 on there is a history of one call of an unknown tool that exceeds it by 25 bytes, and by 42 once compacted |
| PromptBudget.CompactedKeepsTheFirst | src/ooh/agent/prompt_budget.py:321-383 | failures, duplicates and calls are each kept from the front as far as they fit, and the counters stay |
| PromptBudget.CallIsBounded | src/ooh/agent/prompt_budget.py:363-380 | the text of a call's result is within its share, and whole if it was |
| CompactionContents.CountersAreShown | src/ooh/agent/prompt_budget.py:324-335 | besides its lists a compaction has exactly the five counters that are not null, and its mark |
| CompactionContents.FailuresAreTheFirst | src/ooh/agent/prompt_budget.py:336-347 | the failures shown are the first, by five fields; one is left out only if there was no room for it on top of the counters |
| CompactionContents.DuplicatesAreTheFirst | src/ooh/agent/prompt_budget.py:349-360 | the duplicates shown are the first for which there was room on top of counters and failures |
| CompactionContents.CallsAreTheFirst | src/ooh/agent/prompt_budget.py:362-383 | the calls shown are the first for which there was room on top of all else, each with its result cut to its share and its first 8 evidence references |
| ContextView.ProjectionFitsExactly | src/ooh/agent/prompt_budget.py:39-160 | the projection fits exactly if its base does |
| ContextView.ViewFailsExactly | src/ooh/agent/prompt_budget.py:27-167 | with sufficient limits a view fails exactly if its base exceeds max_bytes, and otherwise used_bytes is the size of its text and within max_bytes |
| ContextView.ListsKeepTheFirst | src/ooh/agent/prompt_budget.py:87-156 | each list is what filling it on top of the parts before it keeps; `ViewContents` says which items these are |
| ViewContents.ItemsInOrder | src/ooh/agent/prompt_budget.py:409-418 | the objects, or texts, of a list are found in its order, and other items are passed over |
| ViewContents.RefsAreTheFirst | src/ooh/agent/prompt_budget.py:87-94 | the view shows the first source references, at most 24, each by exactly its type and URI; one is left out only if there was no room for it on top of the parts before |
| ViewContents.FilesAreTheFirst | src/ooh/agent/prompt_budget.py:112-127 | the view shows the first files, at most 10, each with exactly the seven fields and its excerpt of at most 1400 bytes if there was room for that, and else without the excerpt; one is left out only if there was room for neither |
| ViewContents.GuidanceIsTheFirst | src/ooh/agent/prompt_budget.py:129-156 | the same for guidance: at most 6 items, two fields, excerpts of at most 1000 bytes |
| ViewContents.ProfileIsShown | src/ooh/agent/prompt_budget.py:72-85 | drift (with its first 12 changed files) and attention profile (with its first 8 focus areas and their first 12 globs) are shown exactly if the pack has them and there was room |
| ViewContents.InspectionIsShown | src/ooh/agent/prompt_budget.py:96-111 | the compacted tool inspection is shown exactly if the pack has one and there was room |
| ViewContents.BaseIsShown | src/ooh/agent/prompt_budget.py:39-54 | every view shows version, type, purpose up to 500 bytes, repository, snapshot and the first 12 scalars of the summary, and nothing under unknown keys |
| ContextView.FlagIsExact | src/ooh/agent/prompt_budget.py:56-156 | the flag of the projection stays down exactly if there are no unknown keys and the compacted drift, profile, tool inspection and every entry of the lists are there uncut |
| ContextView.UnmarkedViewKeepsItsParts | src/ooh/agent/prompt_budget.py:158-167 | a view is not marked as truncated exactly if those parts are there and it has no fewer bytes than its pack |
| ContextLoss.UnmarkedViewIsWholeExactly | src/ooh/agent/prompt_budget.py:27-167 | a view that is not marked shows its whole pack exactly if the pack is one whose every field is shown whole, a condition on the pack alone |
| ContextLoss.LongPurposeIsCutUnmarked | src/ooh/agent/prompt_budget.py:42-46 | a purpose of 501 bytes is cut, and the view of 654 bytes is not marked |
| ContextLoss.PromptContentVanishesUnmarked | src/ooh/agent/prompt_budget.py:56-70 | in a pack with no other field `prompt_content` is not shown, and the loss is unmarked exactly if it has at most 134 bytes |
| ContextLoss.BaseSize | src/ooh/agent/prompt_budget.py:39-54 | the bytes of the base projection, 140 and those of its six values |
| Lossless.ScalarMappingIsWhole | src/ooh/agent/prompt_budget.py:392-406 | a mapping of scalars is shown whole exactly if it has at most 12 items, each short and flat |
| Lossless.DriftIsWhole | src/ooh/agent/prompt_budget.py:282-302 | drift is shown whole exactly if it has only the selected fields, within their limits |
| Lossless.ProfileIsWhole | src/ooh/agent/prompt_budget.py:305-318 | an attention profile is shown whole exactly if it has only the selected fields, within their limits |
| Lossless.EntryIsWhole | src/ooh/agent/prompt_budget.py:231-279 | a file or guidance entry is shown whole exactly if it has only the selected fields and its excerpt is short |
| ContextView.ExcerptIsBounded | src/ooh/agent/prompt_budget.py:231-279 | an excerpt is within its limit, and its entry counts as cut exactly if the text was too long |
| PromptPayload.Payload.TrySet | src/ooh/agent/prompt_budget.py:201-211 | sets the field if the payload then fits, and otherwise restores it exactly |
| PromptPayload.Payload.TryAppend | src/ooh/agent/prompt_budget.py:214-228 | appends if the payload then fits, and otherwise restores it exactly |
| PromptPayload.Payload.AppendWhile | src/ooh/agent/prompt_budget.py:88-92 | fills the list with the items up to the first that does not fit |
| PromptPayload.Payload.AppendExcerpts | src/ooh/agent/prompt_budget.py:113-154 | fills the list with entries in full or in brief, and reports what was lost |
| PromptPayload.CollectScalars | src/ooh/agent/prompt_budget.py:392-406 | collects the first scalar items in key order |
| PromptPayload.CompactToolObservation | src/ooh/agent/prompt_budget.py:321-383 | computes the compaction that the lemmas of `PromptBudget` and `CompactionContents` are about |
| PromptPayload.BuildPromptContextView | src/ooh/agent/prompt_budget.py:27-167 | computes the view that the lemmas of `ContextView` and `ViewContents` are about |
| InspectionRequest.HistoryIsBounded | src/ooh/agent/repository_inspection.py:300-313 | however long the inspection, its history exceeds its budget by 42 bytes at most |
| InspectionRequest.RequestIsTotal | src/ooh/agent/repository_inspection.py:300-343 | the context room is at least 1115 bytes, the request fails exactly if the base projection exceeds it, and the prompt never exceeds its budget |
| CallRecords.RequestReads | src/ooh/agent/repository_inspection.py:300-343 | a request has the view of the pack that fits what the history leaves, and the history that fits what instructions, tools and the reserve leave, in this order |
| CallRecords.MessageIsInjective | src/ooh/agent/repository_inspection.py:334-336 | equal user messages have equal views and equal histories |
| Inspection.SignatureIsInjective | src/ooh/agent/repository_inspection.py:417-423 | signatures are equal only for the same tool with the same arguments |
| Inspection.InspectionRun.HandleCall | src/ooh/agent/repository_inspection.py:177-279 | runs the call unless an equal one was run or refused before, and classifies it |
| Inspection.InspectionRun.HandleTurn | src/ooh/agent/repository_inspection.py:127-280 | one model call and its tool calls in order |
| Inspection.Inspect | src/ooh/agent/repository_inspection.py:102-280 | every request is built from the state before its turn; the loop ends with the first answer that asks for no call |
| Inspection.EveryRunAccounts | src/ooh/agent/repository_inspection.py:113-280 | executed + failed + duplicate calls equal the calls requested, none was run twice, sequence numbers increase, parents are the branch parent or earlier steps |
| CallRecords.EveryCallIsRecorded | src/ooh/agent/repository_inspection.py:177-279 | in every run what was executed is a result that the tool returned for a requested call, what failed is its error, and every requested call has a record |
| SourceExcerpt.ReadLines | src/ooh/agent/tools/common.py:330-357 | reads the redacted lines that fit and a part of the next; fails exactly if a line with a NUL is reached |
| SourceExcerpt.ReadSourceExcerpt | src/ooh/agent/tools/common.py:295-384 | the errors, the empty excerpt, and the excerpt of what fits |
| RedactedExcerpts.CredentialsDoNotShow | src/ooh/agent/tools/common.py:340-357 | files that differ only in the text of credential-looking lines without a NUL have the same answer, excerpt or error |
| RedactedExcerpts.LinesAreShown | src/ooh/agent/tools/common.py:341-357 | each line shown is the notice if its line looks like a credential and else the line without its line end; only the last may be cut, and then to a front part of that |
| RedactedExcerpts.ContentIsTheLines | src/ooh/agent/tools/common.py:359-375 | the content is the text of the lines shown, joined |
| SourceExcerpt.ExcerptIsBounded | src/ooh/agent/tools/common.py:328-375 | content within max_bytes, lines within max_lines and numbered consecutively from start_line |
| SourceExcerpt.FlagIsExact | src/ooh/agent/tools/common.py:359-370 | truncated is false exactly if the excerpt is the complete redacted range up to min(end_line, line_count) |
| Evidence.FirstMentionDecidesType | src/ooh/agent/evidence.py:215-235 | the first mention of a source decides its type |
| Evidence.FirstMentionDecidesHash | src/ooh/agent/evidence.py:215-235 | the first mention that has a hash decides the hash |
| Evidence.AvailableRefs.Add | src/ooh/agent/evidence.py:215-235 | keeps the collection what the mentions so far make available |
| Evidence.CollectAvailableEvidenceRefs | src/ooh/agent/evidence.py:148-212 | collects what all mentions of the context pack, in order, make available |
| EvidenceSources.AvailableExactly | src/ooh/agent/evidence.py:148-212 | a source is available exactly if a source reference, an included file or guidance item, a tool call's reference, the drift event or the attention profile names it |
| EvidenceSources.ListsMention | src/ooh/agent/evidence.py:151-175 | what each reference, file and guidance item says about its source: type, URI and hash, and from which fields |
| Evidence.VerifyGeneratedTestEvidence | src/ooh/agent/evidence.py:50-145 | computes the verification the lemmas are about |
| Evidence.VerificationCounts | src/ooh/agent/evidence.py:50-145 | accepted and rejected add up to the citations, plus one if they are missing; valid exactly if all citations agree with what is available |
| EvidenceSources.RejectionSaysWhy | src/ooh/agent/evidence.py:71-132 | each issue is reported exactly for the citations whose first broken rule it names |
| EvidenceSources.ListedInOrder | src/ooh/agent/evidence.py:140-144 | the available sources are listed once each, by URI |
| Evidence.AcceptedAreSound | src/ooh/agent/evidence.py:88-134 | accepted references agree with what is available, hash included |
| Evidence.VerificationIsIdempotent | src/ooh/agent/evidence.py:134-145 | verifying the payload of a valid result again gives the same result |
| Evidence.CollectedIsReadable | src/ooh/agent/evidence.py:148-260 | what is collected reads the same when it is cited |
| ContextDepth.DepthFinder.ContextDepth | frontend/src/App.tsx:1377-1395 | terminates for every relation; without cycles the result and everything remembered is the length of the longest chain of predecessors |
| ContextDepth.DepthsExistExactly | frontend/src/App.tsx:1377-1395 | every pack has a longest chain of predecessors exactly if none is its own proper ancestor |
| ContextDepth.DeeperThanPredecessors | frontend/src/App.tsx:1387-1392 | a pack is deeper than each of its predecessors |
| TraceLayout.BandIsApart | frontend/src/App.tsx:1426-1446 | no two groups of a band come closer than the gap |
| TraceLayout.ShortestColumn | frontend/src/App.tsx:1431-1439 | finds the first of the shortest columns |
| TraceLayout.PlaceBand | frontend/src/App.tsx:1426-1446 | gives the first groups a column each and every other the shortest, below what is there |
| TraceGroups.PredecessorsAreParents | frontend/src/App.tsx:1354-1375 | a pack precedes another exactly if a step of the other has its parent step in it |
| TraceGroups.ParentContextIsOfParent | frontend/src/App.tsx:1354-1375 | the pack a step follows is that of its parent step, if it is another one and has a block |
| TraceGroups.SortIsInOrder | frontend/src/App.tsx:1421-1425 | a band is ordered by the first sequence number of its groups |
| TraceGroups.DeeperIsBelow | frontend/src/App.tsx:1397-1447 | a group of a greater depth lies strictly below |
| TraceGroups.LayoutIsApart | frontend/src/App.tsx:1397-1447 | no two groups overlap |
| TraceGroups.BelowNeedsNoCycles | frontend/src/App.tsx:1397-1447 | a layout with every group strictly below its predecessors shows that there are no cycles |
| GroupLayout.BandOrder | frontend/src/App.tsx:1421-1425 | the sorted groups of a depth are all of that depth, by first sequence number and, among equal ones, as they came |
| GroupLayout.WidestIsWidest | frontend/src/App.tsx:1404-1405 | the widest band has as many groups as the depth with most of them |
| GroupLayout.GroupStands | frontend/src/App.tsx:1426-1446 | a group is centred in its column; the first ones start a column each, and every other continues the first of the shortest |
| GroupLayout.TopBegins | frontend/src/App.tsx:1412-1447 | a band begins 144 below the lowest group of smaller depth, or where the layout begins |
| GroupLayout.LayoutTraceGroupBlocks | frontend/src/App.tsx:1340-1450 | for any blocks, steps and column count no two groups overlap, every group lies strictly below its predecessors exactly if no pack is its own proper ancestor, and the groups of each depth stand, in order, in exactly min(max(1, columns asked for), size of the widest band, size of this band) columns: the first side by side at the top of the band, every other below the first of the shortest columns |

## Left out

- Row deletion, cascades, foreign keys and the creation of the cursor row: mechanics of the database.
- EventStream.IterExecutionEventSse: the stream of a run; the stream of a repository is the same loop without the check for the run's end, over events of another scope.
- EventStream: heartbeats, the retry hint and waiting send no events and are not modelled; reads are a sequence of states.
- TraceClient: the order of artifacts inside one group is not compared, because the snapshot orders by time and the reducer by arrival; groups are compared as sets.
- LiveMerge.LiveClientConverges: says what the page shows once nothing is left to receive; a page that saw a terminal run event stops listening, and later events of that run reach it only by replay.
- TraceWrites: deadlocks, timeouts and violated constraints end in a rollback, which may happen at any point; whether every call ends is not stated.
- JobQueue: payloads are opaque text, and `has_active_repository_job` only reads.
- JobRepo: `process_once` is modelled by the fence values of its finalisations; the work between claim and finalisation is not.
- Schedules: the contents of trigger payloads and generation plans; that times increase strictly from action to action is assumed.
- Utf8: text with lone surrogates, whose encoding fails, cannot be written down in the model.
- Json: objects are maps from text, so keys that are no strings are left out; `True`, `1` and `1.0` are different values here but equal in Python.
- PromptPayload.CollectScalars: Dafny functions cannot call methods, so the projection uses the function that this method is proved to compute.
- PromptProjection: entries are compacted before the list is filled rather than one by one in between, which changes nothing.
- Inspection: deadlines, observers, temperatures and traces of arguments; a call's outcome is given with the call. `signature` of a duplicate is determined by its name and arguments and not stored.
- SourceExcerpt: path checks, opening and decoding the file, and the evidence reference of an excerpt; whether a line looks like a credential is an input.
- Evidence: a payload whose `evidence_refs` cannot be iterated, which raises a `TypeError`, and the texts of messages.
- GroupLayout.LayoutTraceGroupBlocks: groups are assumed to have distinct ids, non-negative sizes and at least one step.
- Drift scoring, structural indexing, test generation, answer judging, ingestion, model providers, routes other than the event stream, and rendering: I/O, library behaviour, or easier members.
