# Verified models of the agent runtime's stateful components

A Dafny model of the parts of the runtime whose correctness is a claim about whole runs: the
write-ahead action ledger and its dispatch cycle, the execution manifest and the per-session turn
numbers, the message splitter, the JSONL session store, the history sanitizer, the gateway's rate
limiter, the dedupe cache, the debouncer, and the provider cooldown tracker with its fallback chain.
`dafny verify dfyconfig.toml` checks everything.

## How the model is built

Each component has a value-level specification (what one step does to its state), code in the form
of the original (classes with mutable fields, loops over sequences and maps) proved against that
specification, and theorems about every run of it. Concurrent protocols are step relations: a run is
any list of steps, and a step that is not possible where it stands is skipped, so a theorem about all
lists is a theorem about all interleavings.

| files | what they model |
|---|---|
| `numbers.dfy` | minimum and maximum |
| `actor.dfy` | the single-writer actor behind a read-write lock that both SQLite stores use: producers, cancellations, guarded readers, the writer, `Close` |
| `ledger.dfy`, `manifest.dfy` | the tables of the two stores, their writes with the schema's constraint checks, their queries |
| `dispatch.dfy` | Prepare, run, Commit or Abort with any number of dispatches, outside writers, faults and crashes; and one dispatch as the code performs it |
| `turns.dfy` | the turn number allocator under concurrent first uses and restarts |
| `stores.dfy` | the stores on their actors, and the join of orphaned intents with manifests |
| `runes.dfy`, `search.dfy`, `split.dfy`, `split_plans.dfy`, `split_theorems.dfy`, `split_limits.dfy` | the message splitter, where it cuts, what its runs keep, and when it ends |
| `memory.dfy` | the session store with interruptions between its writes, against a plain sequence |
| `sanitize.dfy`, `sanitize_theorems.dfy`, `sanitize_order.dfy`, `sanitize_exact.dfy` | the two passes, the grammar of their results, and exactly what they keep |
| `ratelimit.dfy`, `dedupe.dfy`, `debounce.dfy` | the three small caches against their event logs |
| `cooldown.dfy`, `fallback.dfy` | backoff arithmetic, tracker states, accounting of attempts |

Assumptions:

- Methods that hold a mutex are atomic. Clock readings do not go back in lock order, and are positive
  (the zero time is 0); acceptances in the dedupe cache happen at different readings.
- An appended log line lands whole or not at all, and replacing a file is one step.
- Identifiers a store generates are new to its tables and to the writes under way.
- Other chains that share a cooldown tracker, and outsiders that write to the ledger, act at any moment.
- All turns are numbered by the one process that has the manifest open.
- I/O failures, crashes, cancellations, the clock, generated identifiers, the error classifier and the
  loopback check are inputs of the steps and methods.

## What was found

- The splitter does not end on every message. With `maxLen` from 5 to 9, or with a fence header
  longer than `maxLen - 7` runes, the last-resort branch can rebuild a text that is no shorter.
  `SplitLimits.StuckRunsForever` gives such messages for every `maxLen >= 5`, and
  `SplitLimits.HeaderBoundIsExact` says which bound on header lengths is safe.
- The rate bound fails when the lockout is shorter than the window, because a refusal clears the
  recorded requests (`pkg/gateway/ratelimit.go:77-81`). `RateLimitRuns.RateBoundIsExact` is the exact condition.
- Interrupting `Compact` between its two writes shows truncated messages again. The comment at
  `pkg/memory/jsonl.go:424-428` says the next `Compact` corrects this; it does not, because the skip
  is then 0 and `Compact` returns at once (`SessionRuns.InterruptedCompactSticks`).
- The comment at `pkg/actionlog/actionlog.go:625-626` says that a Prepare whose context is done before
  the writer picks the operation up writes nothing. That holds exactly for calls that give up before
  their operation is accepted (`Actor.CancelledSendNeverWrites`); an accepted operation is executed
  all the same, even if it was still queued (`Actor.CancelledWaitStillWrites`).
- A reused commit identifier is reported as `ErrAlreadyFinalized` even when the intent has no
  finalization (`LedgerTheorems.ReusedCommitIdMisreported`). The error is truthful exactly when a
  commit identifier in use comes with a finalized intent (`LedgerTheorems.FinalizeOutcome`).
- A debounced message can be delivered before its own timer has run out. This is possible exactly when,
  at its submission, some timer of its key has fired without having flushed, or is armed without being the
  timer of the stored entry (`DebounceRuns.EarlyDeliveryIsExact`). `StaleTimerTakesNewer` and
  `OrphanTimerTakesNewer` show both ways; the first leaves behind the timer for the second.
- The cooldown tracker is shared by all fallback chains (`pkg/agent/loop.go:120-122`), so a success that
  another chain marks ends the rest of a provider that has just failed here. Within a minute of its failure
  it is called again exactly when the last mark about it in between is a success
  (`FallbackTheorems.FailedProviderRests`).
- A `MaxTurn` lookup that fails can make later Begins collide, as the comment at
  `pkg/agent/loop.go:2479-2482` expects. A Begin is rejected exactly when its number was recorded
  for its session before the last restart (`TurnTheorems.CollisionIsExact`), and never when no lookup for that
  session has failed (`TurnTheorems.BeginNeverCollides`).

## Model

| member | source | states |
|---|---|---|
| `Actor.RunInv` | pkg/actionlog/actionlog.go:323-345 | in every state of every interleaving the executed, in-hand and queued operations are the accepted ones, each once and in order; replies are sent for exactly the executed ones; the fence around `closedFlag` holds; waiting calls wait for different operations |
| `Actor.ExitedMeansAllDone` | pkg/actionlog/actionlog.go:323-345 | before `done` closes every accepted operation has been executed and answered exactly once, in acceptance order |
| `Actor.ExecutedIsPrefix` | pkg/actionlog/actionlog.go:323-345 | at any moment, so also at a crash, the executed operations are the first accepted ones |
| `Actor.WaitingCallsAnswered` | pkg/actionlog/actionlog.go:331-339 | once the writer is gone every call still waiting can take the reply to its own operation |
| `Actor.CancelledWaitStillWrites` | pkg/actionlog/actionlog.go:625-642 | a call that gives up after its operation was accepted does not take it back: it is still executed, whatever follows |
| `Actor.CancelledSendNeverWrites` | pkg/actionlog/actionlog.go:604-642 | a call that gives up before its operation is accepted writes nothing, whatever follows |
| `Actor.NothingAcceptedAfterClosed` | pkg/actionlog/actionlog.go:604-619 | after `closedFlag` is set no operation enters the queue, and the flag stays set |
| `Actor.GrantedWriteOutcome` | pkg/actionlog/actionlog.go:604-619 | from every reachable state a write call that is given the lock is refused exactly when `closedFlag` is set; otherwise it can send as soon as there is room, its own operation is appended to the accepted ones, and the call waits for that one |
| `Actor.GrantedReadOutcome` | pkg/execmanifest/execmanifest.go:896-903 | a guarded read is refused under the same condition, and otherwise reads an open database until it ends |
| `Actor.CallKeepsOperation` | pkg/actionlog/actionlog.go:604-642 | in every interleaving a call sends, and waits for the execution of, the very operation it was made with |
| `Actor.DatabaseOutlivesWork` | pkg/actionlog/actionlog.go:762-780 | the database is open during every write and every guarded read, and closes only after the last accepted operation was answered |
| `Actor.WriterNeverBlocksOnReply` | pkg/actionlog/actionlog.go:323-345 | the reply buffer has room whenever the writer sends |
| `Actor.FencedKept` | pkg/execmanifest/execmanifest.go:896-931 | every step keeps the fence: no sender or reader holds the lock once the flag is set, the queue is empty when the writer has exited, and the database closes after that |
| `Actor.CloseMakesProgress` | pkg/actionlog/actionlog.go:762-780 | while a Close is pending no step adds work for it, and every step of a lock holder, the writer or Close removes some |
| `Actor.CloseNeedsBoundedHelp` | pkg/actionlog/actionlog.go:762-780 | however steps interleave, a pending Close is done after a bounded number of such steps |
| `Actor.CloseIsNeverStuck` | pkg/actionlog/actionlog.go:762-780 | a pending Close always has such a step to wait for |
| `Actor.CloseIsComplete` | pkg/actionlog/actionlog.go:762-780 | when a Close has returned the database is closed, the writer gone and every accepted operation executed and answered; a further Close changes nothing |
| `Actor.CloseRunsItsCourse` | pkg/actionlog/actionlog.go:762-780 | a waiting Close gets its turn, the first one sets the flag, waits for the writer and closes the database |
| `Actor.WriterMoves` | pkg/actionlog/actionlog.go:323-345 | the writer is only ever idle on an empty queue before Close |
| `Ledger.LedgerDB.DoPrepare` | pkg/actionlog/actionlog.go:366-410 | updates the tables and answers as the specification `Handle` says; `PrepareOutcome` says what that is, `TablesOverRuns` what it keeps |
| `Ledger.LedgerDB.DoCommit` | pkg/actionlog/actionlog.go:420-450 | the same for a Commit; `FinalizeOutcome` says when it succeeds |
| `Ledger.LedgerDB.DoAbort` | pkg/actionlog/actionlog.go:455-480 | the same for an Abort, which shares the uniqueness rule with Commit |
| `Ledger.LedgerDB.InsertFinal` | pkg/actionlog/actionlog.go:537-562 | exactly which finalizations are written and which error each other one gets; refused ones leave the table alone |
| `Ledger.LedgerDB.RecoverOrphans` | pkg/actionlog/actionlog.go:698-734 | returns the rows in the order of the specification `OrphanIds`, which `OrphansAreUnfinalized` characterises |
| `LedgerTheorems.TablesOverRuns` | pkg/actionlog/actionlog.go:246-264 | over every sequence of writes identifiers are unique, every finalization refers to an intent, no intent has two, and earlier rows stay as they are |
| `LedgerTheorems.HandleKeepsSound` | pkg/actionlog/actionlog.go:246-264 | each single write keeps the schema's rules, whichever Commit and Abort calls race |
| `LedgerTheorems.PrepareOutcome` | pkg/actionlog/actionlog.go:366-410 | a Prepare succeeds exactly with all five fields present, no fault and a new identifier; then exactly one row is added, with the caller's fields and the time of the write; each error is told exactly and changes nothing |
| `LedgerTheorems.FinalizeOutcome` | pkg/actionlog/actionlog.go:420-480 | a finalization succeeds exactly for a named, known, unfinalized intent with a new commit identifier and no fault, and then adds the caller's status and detail for it; each error is told exactly; "already finalized" is truthful exactly if a commit identifier in use comes with a finalized intent; a failed one changes nothing |
| `LedgerTheorems.ReusedCommitIdMisreported` | pkg/actionlog/actionlog.go:537-562 | a concrete run in which "already finalized" is reported for an intent that is not |
| `LedgerTheorems.OrphansAreUnfinalized` | pkg/actionlog/actionlog.go:698-734 | the orphan query lists exactly the unfinalized intents, each once, ordered by time and then by insertion |
| `LedgerTheorems.RowsAreComplete` | pkg/actionlog/actionlog.go:366-400 | over every run each intent row has all five required fields |
| `Manifest.ManifestDB.DoBegin` | pkg/execmanifest/execmanifest.go:340-388 | updates the tables and answers as the specification `Handle` says; `BeginOutcome` says what that is, `TablesOverRuns` what it keeps |
| `Manifest.ManifestDB.DoRecordCall` | pkg/execmanifest/execmanifest.go:394-424 | the same for a recorded provider call, with `RecordCallOutcome` |
| `ManifestTheorems.TablesOverRuns` | pkg/execmanifest/execmanifest.go:239-259 | over every sequence of writes a turn and a trace are recorded at most once, a provider call at most once and only under a recorded trace, and earlier rows stay |
| `ManifestTheorems.BeginOutcome` | pkg/execmanifest/execmanifest.go:340-388 | a Begin is Ok exactly for present fields, no fault, a new trace and a new turn; then exactly one row is added, with the caller's session, turn and payload under the returned identifier; each error is told exactly and changes nothing |
| `ManifestTheorems.RecordCallOutcome` | pkg/execmanifest/execmanifest.go:394-424 | a provider call is recorded exactly for present fields, no fault, a recorded trace and a new number, and then as it was given; each error is told exactly and changes nothing |
| `ManifestTheorems.RecordedForGood` | pkg/execmanifest/execmanifest.go:340-388 | what a Begin was answered Ok for is in the tables as it was given after every later write |
| `ManifestTheorems.MaxTurnIsMaximum` | pkg/execmanifest/execmanifest.go:682-698 | `MaxTurn` is a recorded turn of the session or 0, and no recorded turn of it is larger |
| `Stores.LedgerContents` | pkg/actionlog/actionlog.go:323-356 | in every interleaving the ledger's tables are the replay of a prefix of the accepted writes, only ever extended, and of all of them once Close has closed the database |
| `Stores.ManifestContents` | pkg/execmanifest/execmanifest.go:306-338 | the same for the manifest store |
| `Recovery.GetIsExact` | pkg/execmanifest/execmanifest.go:615-639 | a lookup succeeds exactly for a recorded trace, and returns its only row with exactly its calls in ascending order |
| `Recovery.LookupOutcome` | pkg/execmanifest/execmanifest.go:615-639 | each of the four ways a lookup can end, exactly: failed, closed, not found, found |
| `Recovery.RecoverOrphans` | pkg/acs/acs.go:257-295 | every unfinalized intent is returned once and in the query's order, with its manifest exactly when the lookup found one; a store that closes during the join fails the whole call with `ErrClosed` |
| `Recovery.AttachedIffRecorded` | pkg/acs/acs.go:266-293 | when stores are open and readable, the join attaches a manifest exactly when the trace is recorded, and then that trace with exactly its calls |
| `DispatchCall.DispatchTool` | pkg/acs/dispatch.go:94-198 | the tool is called exactly once on every path; only a side-effecting, synchronous tool with a ledger, a trace and hashable arguments touches the ledger; then rows and report follow from the tool's own result as `Accounts` states |
| `DispatchCall.RunWrapped` | pkg/acs/dispatch.go:137-198 | the prepare, run and finalize cycle performs the two writes of the specification `Alone` |
| `DispatchCall.AloneAccounts` | pkg/acs/dispatch.go:137-198 | in terms of the tool's fields: no intent is written exactly when Prepare is refused, faulty, incomplete or not new; with both writes the added row is committed with the result hash exactly when the result is not nil, no error and without `Err`, otherwise aborted with `Err`, else the model's text, else the fixed text; the report says which |
| `DispatchCall.WrappedIntentIsComplete` | pkg/acs/dispatch.go:121-137 | a wrapped request of a named tool never fails for a missing field, and a missing principal is recorded as unknown |
| `DispatchCall.AloneIsARun` | pkg/acs/dispatch.go:137-198 | what one dispatch does on its own it also does as a run of the step relation, from any reachable state |
| `DispatchTheorems.RunInv` | pkg/acs/dispatch.go:94-198 | in every state of every interleaving issued intents belong to the dispatch that holds them, tickets are answered to their own callers, and an intent nobody else asks to finalize is finalized with its tool's outcome only |
| `DispatchTheorems.CrashRecovery` | pkg/acs/dispatch.go:137-198 | in every state, so after a crash at any point and whoever reconciles orphans, a dispatch that got an intent has its row and either exactly one finalization or a place in the orphan list; the finalization has the tool's outcome as long as nobody else has asked to finalize that intent |
| `DispatchTheorems.CrashTakesWhatIsInFlight` | pkg/acs/dispatch.go:137-198 | a crash is possible in every state and takes what is in flight, nothing of the tables or of what was reported |
| `DispatchTheorems.RefusalsAreReported` | pkg/acs/dispatch.go:144-163 | a refused or cancelled Prepare lets the tool run without an intent; a refused or cancelled finalization is reported as an error; the submitted write stays where it is |
| `DispatchTheorems.DisturbedByName` | pkg/actionlog/actionlog.go:645-676 | an intent counts as disturbed exactly when somebody other than its dispatch has submitted a finalization naming it after it was issued |
| `DispatchTheorems.ReportsAreTrue` | pkg/acs/dispatch.go:94-198 | `Committed` means a committed row and a successful tool; not committed without an error means an aborted row and a failed tool; a finished dispatch called its tool once |
| `DispatchTheorems.ToolRunsAtMostOnce` | pkg/acs/dispatch.go:137-156 | no dispatch calls its tool twice, and one that holds an intent identifier has the intent row |
| `DispatchTheorems.TablesOnlyGrow` | pkg/actionlog/actionlog.go:246-264 | over every run, crashes included, rows neither change nor vanish |
| `TurnTheorems.RunInv` | pkg/agent/loop.go:2467-2497 | counters count up from their seeds, cover every row of this process and every number handed out, and seeds cover every earlier row of sessions without a failed lookup, under concurrent first uses and restarts |
| `TurnTheorems.NumbersIncrease` | pkg/agent/loop.go:2467-2497 | the numbers handed out for a session within one process count up by one from its seed, even when a lookup failed |
| `TurnTheorems.NumbersContinueRecord` | pkg/agent/loop.go:2467-2497 | in every interleaving the first number of a session in a process is exactly one more than its largest turn recorded before the restart, and only a failed lookup of that session can make it 1 instead |
| `TurnTheorems.NewNumberExceedsRecorded` | pkg/agent/loop.go:2467-2497 | while no lookup for its session has failed, a new number exceeds every turn recorded for it, whatever fails for other sessions |
| `TurnTheorems.BeginNeverCollides` | pkg/agent/loop.go:2387-2459 | while no lookup for its session has failed, no Begin is rejected as already recorded, across restarts, concurrent turns and failures of other sessions |
| `TurnTheorems.CollisionIsExact` | pkg/agent/loop.go:2387-2497 | over every run, failed lookups included, a Begin is rejected as already recorded exactly when its number was recorded for its session before the last restart |
| `TurnTheorems.FailedSeedCollides` | pkg/agent/loop.go:2472-2485 | from any state, the turn that seeds its session after a failed lookup gets number 1 and collides exactly when turn 1 is recorded |
| `TurnTheorems.FirstTurnContinues` | pkg/agent/loop.go:2467-2497 | a first turn with a successful lookup gets the number after the largest recorded one, and its Begin is accepted |
| `Search.FindLastNewlineInRange` | pkg/channels/split.go:188-196 | returns the specification `LastIn`, which `LastInIsLast` characterises |
| `Search.FindLastSpaceInRange` | pkg/channels/split.go:200-208 | the same for spaces and tabs |
| `Search.LastInIsLast` | pkg/channels/split.go:188-208 | what both searches return is the last hit of their window, or says that there is none |
| `Search.FindNewlineFrom` | pkg/channels/split.go:177-184 | returns the specification `FirstNewline`, which `FirstNewlineIsFirst` characterises |
| `Search.FirstNewlineIsFirst` | pkg/channels/split.go:177-184 | it returns the first newline, or there is none |
| `Search.FindNextClosingCodeBlockInRange` | pkg/channels/split.go:166-173 | returns the specification `FenceEnd`, which `FenceEndIsFirst` characterises |
| `Search.FenceEndIsFirst` | pkg/channels/split.go:166-173 | it stops after the first fence, or there is none |
| `Search.FindLastUnclosedCodeBlockInRange` | pkg/channels/split.go:144-162 | the loop that toggles on every fence, stepping over it, returns the fence `OpenFence` leaves unpaired |
| `Search.OpenFenceIsParity` | pkg/channels/split.go:144-162 | for the one way to read the fences of a range from left to right, the scan finds the last of them when their number is odd and nothing when it is even |
| `Search.FencesAreUnique` | pkg/channels/split.go:144-162 | there is only one such reading: fences three runes apart, every fence of the range at or inside one of them |
| `Search.EveryRangeHasFences` | pkg/channels/split.go:144-162 | and there is one for every range |
| `Split.PlanNext` | pkg/channels/split.go:39-66 | the searches of one pass arrive at the plan `Decide`, which stays inside the text and the limit |
| `Split.PlanInBlock` | pkg/channels/split.go:64-123 | the searches inside an unclosed block arrive at the plan `DecideInBlock` |
| `Split.DecideInBlock` | pkg/channels/split.go:64-123 | the plan stays inside the text and the limit and only repeats a header that starts with the fence |
| `Split.Decide` | pkg/channels/split.go:31-123 | every plan stays inside the text and within `maxLen`, and a reopening leaves five runes for the closing fence |
| `Split.EffectiveLimit` | pkg/channels/split.go:25-40 | the preferred chunk size is positive, at most `maxLen`, and leaves room for the closing fence from `maxLen` 10 on |
| `SplitPlans.EffectiveLimitIs` | pkg/channels/split.go:25-40 | the room for closing a block is a tenth of the limit, at least 50 runes and at most half of it |
| `SplitPlans.NaturalEndIsBest` | pkg/channels/split.go:42-49 | a chunk naturally ends at the last newline of the last 200 runes, else at the last space or tab of the last 100, and at the limit only if there is neither |
| `SplitPlans.PlanFollowsFences` | pkg/channels/split.go:52-66 | after an even number of fences the chunk ends at its natural end; after an odd number it is extended to the next closing fence exactly if that is within `maxLen`, and only otherwise is the open block split or put off |
| `SplitPlans.PlanInOpenBlock` | pkg/channels/split.go:79-123 | more than 20 runes into a block the chunk ends at the last newline after the header, else at the limit, and reopens the block; otherwise it ends before the block, unless the block starts within 20 runes with no break before it |
| `SplitPlans.HeaderIsLine` | pkg/channels/split.go:67-78 | the header is the fence's line without trailing whitespace, or the bare fence when no newline follows |
| `SplitPlans.ReopenEmits` | pkg/channels/split.go:91-97 | closing a block emits what was read without trailing blanks and a fence on its own line, and leaves the header on its own line before the rest |
| `SplitPlans.CutEmits` | pkg/channels/split.go:130-136 | a cut emits what was read unchanged and goes on at the next rune that is not blank |
| `Split.HeaderIsFence` | pkg/channels/split.go:67-79 | a reopened header begins with the fence, holds no newline and is no longer than the line it comes from |
| `Split.CodeBlockBuffer` | pkg/channels/split.go:25-29 | the buffer leads to the effective limit |
| `Split.SkipLeadingBlanks` | pkg/channels/split.go:131-136 | the loop stops at the first rune that is not blank |
| `Split.NextChunk` | pkg/channels/split.go:31-135 | one iteration appends one chunk and leaves the text and position of the step relation |
| `Split.SplitMessage` | pkg/channels/split.go:13-137 | defined on exactly the messages on which the loop ends, it returns the chunks of the run that ends |
| `Split.SplitRunes` | pkg/channels/split.go:31-137 | the loop follows the run of the step relation to its end |
| `Split.RunsAgree` | pkg/channels/split.go:31-137 | a message has at most one result |
| `SplitTheorems.ChunksFit` | pkg/channels/split.go:25-135 | for every positive limit every chunk of every run, ended or not, has between one and `maxLen` runes |
| `SplitTheorems.ContentConserved` | pkg/channels/split.go:31-137 | without injected fences and reopened headers, and up to whitespace, the chunks of a finished run are the message |
| `SplitTheorems.StepCarries` | pkg/channels/split.go:31-137 | each iteration, rebuilds included, keeps the visible runes emitted plus those unread |
| `SplitTheorems.InjectionsLinked` | pkg/channels/split.go:80-123 | for limits of 8 and more, the chunk after an injected closing fence starts with a fence, and reopened runes occur only there or where a reopened header itself was cut |
| `SplitTheorems.BetterNotEarlier` | pkg/channels/split.go:80-90 | the second newline search never lands before the natural split point |
| `SplitTheorems.ReopenShrinks` | pkg/channels/split.go:64-123 | closing and reopening a block consumes more runes than the header it puts back |
| `SplitTheorems.RebuiltHeaders` | pkg/channels/split.go:93-97 | rebuilding the text keeps every header within the bound |
| `SplitTheorems.StepShrinks` | pkg/channels/split.go:31-137 | under that bound the number of unread runes falls in every iteration and the bound survives it |
| `SplitTheorems.ProgressiveRunEnds` | pkg/channels/split.go:31-137 | the splitter ends when `maxLen <= 4`, or when `maxLen >= 10` and every header that ends in a newline has at most `maxLen - 7` runes |
| `SplitLimits.StuckAgain` | pkg/channels/split.go:101-123 | the last resort turns such a message into another of the same kind |
| `SplitLimits.StuckRunsForever` | pkg/channels/split.go:101-123 | on those messages no number of iterations reaches the end |
| `SplitLimits.HeaderBoundIsExact` | pkg/channels/split.go:13-137 | all messages with headers of at most `bound` runes are split in finite time exactly when `maxLen <= 4` or `bound <= maxLen - 7` |
| `SessionStore.JSONLStore.ReadMessages` | pkg/memory/jsonl.go:131-176 | blank lines do not count, skipped and undecodable lines are left out, order is kept |
| `SessionStore.JSONLStore.CountLines` | pkg/memory/jsonl.go:181-200 | the number of lines that are not blank |
| `SessionStore.JSONLStore.GetHistory` | pkg/memory/jsonl.go:270-290 | the visible history of a session |
| `SessionStore.JSONLStore.AddMsg` | pkg/memory/jsonl.go:218-268 | the files after an append interrupted anywhere, and that other sessions' files are as they were |
| `SessionStore.JSONLStore.TruncateHistory` | pkg/memory/jsonl.go:327-361 | the same for a truncation, whose count is taken from the log |
| `SessionStore.JSONLStore.SetHistory` | pkg/memory/jsonl.go:363-395 | the same for a replacement, metadata first |
| `SessionStore.JSONLStore.CompactHistory` | pkg/memory/jsonl.go:402-439 | the same for a compaction, metadata first |
| `SessionStore.SanitizeKey` | pkg/memory/jsonl.go:92-97 | a file name has no path separator or colon and keeps every other character |
| `SessionRuns.CompactKeepsHistory` | pkg/memory/jsonl.go:402-439 | a completed compaction never changes the history, even with undecodable lines |
| `SessionRuns.InterruptedCompactSticks` | pkg/memory/jsonl.go:402-439 | after an interrupted compaction further ones do nothing, and the history is the old one exactly if no truncated line held a message |
| `SessionRuns.TruncateKeepsLastLines` | pkg/memory/jsonl.go:327-361 | truncation keeps the last `keepLast` active lines whatever the stored count says |
| `SessionRuns.TruncateKeepsLastMessages` | pkg/memory/jsonl.go:327-361 | it leaves a suffix of the history, and exactly the last `keepLast` messages when every active line decodes |
| `SessionRuns.RunRefines` | pkg/memory/jsonl.go:218-439 | over every run with interruptions anywhere the skip never passes the line count and the expected lines end the active ones |
| `SessionRuns.ExpectedIsVisible` | pkg/memory/jsonl.go:218-439 | the expected history is a suffix of what `GetHistory` returns, and equal to it while no interruption has shown truncated lines again |
| `SessionRuns.StoreRefinesSequence` | pkg/memory/jsonl.go:218-439 | every run shows the plain sequence of messages as a suffix, an interrupted replacement counting as not done, and exactly that sequence when nothing was interrupted |
| `SessionRuns.LinesAppend` | pkg/memory/jsonl.go:131-200 | a line counts exactly when it is not blank, and adds a message at the end exactly when it decodes |
| `SessionRuns.CountIsKept` | pkg/memory/jsonl.go:218-439 | while nothing is interrupted the stored count is the number of lines of the log |
| `Sanitize.FirstPass` | pkg/agent/context.go:638-693 | the loop computes the specification `Pass1`, which `Pass1IsGreedy` characterises |
| `Sanitize.SearchAssistant` | pkg/agent/context.go:654-668 | the backward search finds whether the nearest non-tool message calls tools |
| `Sanitize.CollectResults` | pkg/agent/context.go:703-719 | the expected ids are marked exactly when the run answers them |
| `Sanitize.AllFound` | pkg/agent/context.go:722-736 | true exactly when no expected id is left unmarked |
| `Sanitize.PassOneGroup` | pkg/agent/context.go:703-757 | one call with its run is kept without repeats, or dropped whole |
| `Sanitize.KeepFirstResults` | pkg/agent/context.go:745-755 | the first result per id of a run, in order |
| `Sanitize.SecondPass` | pkg/agent/context.go:699-759 | the index loop that skips and deduplicates groups computes the specification `Pass2`, which `SanitizedIsSurvivors` characterises |
| `Sanitize.SanitizeHistoryForProvider` | pkg/agent/context.go:633-762 | returns the sanitized history that the theorems below are about, also for an empty one |
| `SanitizeTheorems.Pass1Chains` | pkg/agent/context.go:638-693 | after the first pass there is no system message, tool messages stand in the run of a call, and calls follow a user or tool message |
| `SanitizeTheorems.GroupBoundary` | pkg/agent/context.go:722-741 | dropping or keeping a whole group leaves the next call with a valid predecessor |
| `SanitizeTheorems.SanitizedIsWellFormed` | pkg/agent/context.go:633-762 | every result is well-formed: no system message, tool messages only in runs, every called id answered in its run, no id twice in a run, every call after a user or tool message |
| `SanitizeTheorems.FixpointsAreWellFormed` | pkg/agent/context.go:633-762 | the histories left unchanged are exactly the well-formed ones |
| `SanitizeTheorems.SanitizingIsIdempotent` | pkg/agent/context.go:633-762 | sanitizing twice is sanitizing once |
| `SanitizeOrder.SanitizingOnlyDeletes` | pkg/agent/context.go:633-762 | the result is an order-preserving subsequence of the input |
| `SanitizeOrder.PlainMessagesSurvive` | pkg/agent/context.go:633-762 | user messages, assistant messages without calls and messages of other roles all survive in order |
| `SanitizeExact.Pass1IsGreedy` | pkg/agent/context.go:638-693 | the first pass keeps a message exactly when the history kept so far is still chained with it |
| `SanitizeExact.DedupKeepsFirst` | pkg/agent/context.go:745-755 | of the results for one id exactly the first is kept |
| `SanitizeExact.SanitizedIsSurvivors` | pkg/agent/context.go:699-759 | of what the first pass kept, exactly these stay, in order: calls with every id answered in their run, the first result per id in the run of such a call, and all messages that are neither |
| `RateLimit.RateLimiter.Allow` | pkg/gateway/ratelimit.go:43-85 | grants or refuses as the specification `Admit` says, which `AnswersAgreeWithLog` ties to the log, and changes only that key's entry; loopback requests are granted without a trace |
| `RateLimit.RateLimiter.Prune` | pkg/gateway/ratelimit.go:113-136 | exactly the entries without a current lockout or recent request go |
| `RateLimit.RateLimiter.HasRecent` | pkg/gateway/ratelimit.go:124-130 | whether any timestamp is later than the cutoff |
| `RateLimitRuns.AdmitKeeps` | pkg/gateway/ratelimit.go:60-84 | one request keeps the bound and the fact that an entry remembers the latest grants |
| `RateLimitRuns.RunKeeps` | pkg/gateway/ratelimit.go:55-136 | that invariant over every run of requests and prunes, for lockouts of at least a window |
| `RateLimitRuns.ShortLockoutBreaksBound` | pkg/gateway/ratelimit.go:77-81 | a run that exceeds the bound for every shorter lockout |
| `RateLimitRuns.RateBoundIsExact` | pkg/gateway/ratelimit.go:43-136 | at most `MaxAttempts` grants per key in every half-open window of every run, exactly when the lockout lasts a window or there is nothing to limit |
| `RateLimitLog.AnswersAgreeWithLog` | pkg/gateway/ratelimit.go:43-136 | in every run and for every configuration a request is granted exactly when the full log of its key says so: no lockout is in force, which only a refusal outside a lockout starts, and fewer than `MaxAttempts` grants since the last such refusal lie in the window |
| `RateLimitLog.AdmitFollowsLog` | pkg/gateway/ratelimit.go:55-84 | one request keeps the filtered and pruned entry in agreement with the log |
| `RateLimitLog.KeysTellApart` | pkg/gateway/ratelimit.go:43-50 | requests share an entry only when scope and address are both the same, for scopes without a colon |
| `RateLimitLog.PruneKeepsLive` | pkg/gateway/ratelimit.go:113-136 | a key stays in the table exactly while its lockout is not over or a granted request lies in the window |
| `Dedupe.DedupeCache.Check` | pkg/infra/dedupe.go:44-63 | the answer is true exactly when the key was accepted less than a ttl ago and fewer than `maxSize` other keys were accepted since; the cache never holds more than `maxSize` entries afterwards |
| `Dedupe.DedupeCache.constructor` | pkg/infra/dedupe.go:28-40 | an empty cache agrees with an empty log; a ttl or size that is not positive is replaced by the default |
| `Dedupe.DedupeCache.Prune` | pkg/infra/dedupe.go:74-96 | expired entries go, then the oldest ones down to the limit and no further |
| `Dedupe.DedupeCache.RemoveExpired` | pkg/infra/dedupe.go:75-80 | exactly the entries that have reached the ttl go |
| `Dedupe.DedupeCache.OldestKey` | pkg/infra/dedupe.go:83-93 | the scan finds an entry that is nowhere older |
| `Dedupe.AcceptanceAgrees` | pkg/infra/dedupe.go:44-96 | inserting and pruning brings the entries to what the longer log demands |
| `Dedupe.HitIsDuplicate` | pkg/infra/dedupe.go:50-53 | the map lookup answers the question about the log |
| `Dedupe.SurvivorIsDuplicate` | pkg/infra/dedupe.go:74-96 | a surviving key has fewer than `maxSize` keys accepted after it |
| `Dedupe.DuplicateSurvives` | pkg/infra/dedupe.go:74-96 | a live key with that few keys after it survives |
| `DedupeLog.SinceShrinks` | pkg/infra/dedupe.go:82-95 | keys accepted later have strictly fewer successors |
| `Debounce.Debouncer.Submit` | pkg/infra/debounce.go:39-67 | replaces the stored message and stops its timer, ignores submissions after `Stop`, and hands the message on at once only without a delay |
| `Debounce.Debouncer.Flush` | pkg/infra/debounce.go:81-93 | takes whatever the key stores at that moment, at most once, even for a stale timer |
| `Debounce.Debouncer.Stop` | pkg/infra/debounce.go:70-79 | the timers of all entries are stopped and every entry is gone |
| `DebounceRuns.RunInv` | pkg/infra/debounce.go:39-93 | over all timer races no entry is stranded, stored messages are the latest of their keys with the bodies they came with, taken ones were, in increasing order and once each, and none is lost before `Stop` |
| `DebounceRuns.NothingAfterStop` | pkg/infra/debounce.go:70-93 | after `Stop` nothing is taken or stored, whatever timers still fire |
| `DebounceRuns.StopCancelsPending` | pkg/infra/debounce.go:70-79 | `Stop` cancels exactly the armed timers of stored entries |
| `DebounceRuns.StoredIsDelivered` | pkg/infra/debounce.go:81-93 | a stored message's own timer can still deliver it |
| `DebounceRuns.StaleTimerTakesNewer` | pkg/infra/debounce.go:51-57 | a run in which a timer that fired before a resubmission takes the newer message |
| `DebounceRuns.OrphanTimerTakesNewer` | pkg/infra/debounce.go:51-67 | a run in which an armed timer without an entry takes the next message, although none had fired at its submission |
| `DebounceRuns.EarlyDeliveryIsExact` | pkg/infra/debounce.go:39-93 | from every reachable state, some continuation delivers the next message of a key by another timer than its own exactly when a timer of the key has fired, or is armed without being the stored entry's |
| `DebounceRuns.OwnTimerForGood` | pkg/infra/debounce.go:39-93 | otherwise no continuation at all does, whatever is submitted, fires or stops |
| `Cooldown.StandardSchedule` | pkg/providers/cooldown.go:183-190 | 1, 5, 25, then 60 minutes, for any count |
| `Cooldown.BillingSchedule` | pkg/providers/cooldown.go:198-207 | 5, 10, 20, then 24 hours, for any count |
| `Cooldown.CooldownTracker.MarkFailure` | pkg/providers/cooldown.go:42-66 | updates the provider's entry as the specification `Failed` says and no other entry; `RunIsSound` and `FailureBlocks` say what that keeps |
| `Cooldown.CooldownTracker.MarkSuccess` | pkg/providers/cooldown.go:69-83 | clears a known provider's counts and cooldowns and creates no entry for an unknown one |
| `Cooldown.CooldownTracker.IsAvailable` | pkg/providers/cooldown.go:86-109 | availability as a fact about the provider's entry |
| `Cooldown.CooldownTracker.CooldownRemaining` | pkg/providers/cooldown.go:112-139 | the remaining cooldown as a fact about the entry |
| `CooldownRuns.RunIsSound` | pkg/providers/cooldown.go:42-83 | in every reachable state the error count is the sum of the counts per reason, and cooldowns end within 24 hours of the last failure |
| `CooldownRuns.AvailableIffNothingRemains` | pkg/providers/cooldown.go:86-139 | a provider is available exactly when no cooldown remains, and becomes available exactly when it is over |
| `CooldownRuns.AvailableWithinADay` | pkg/providers/cooldown.go:42-139 | a provider is available again 24 hours after its last failure |
| `CooldownRuns.FailuresBackOff` | pkg/providers/cooldown.go:42-66 | after any streak of failures, for any mix of reasons and among events of other providers, a provider is available exactly when both its standard cooldown and its billing suspension are over, each by its schedule |
| `CooldownRuns.TrackerFollowsLog` | pkg/providers/cooldown.go:42-83 | in every run the counts and expiries of a provider are those its full log gives: a success clears them, and a failure more than 24 hours after the one before starts counting anew |
| `CooldownRuns.AvailabilityIsExact` | pkg/providers/cooldown.go:42-109 | so in every run a provider is available exactly when the standard cooldown and the billing suspension computed from its log are over |
| `CooldownRuns.OnlyOwnEventsMatter` | pkg/providers/cooldown.go:42-83 | marks on one provider do not affect another |
| `CooldownRuns.FailureBlocks` | pkg/providers/cooldown.go:42-109 | a failure takes its provider out for at least a minute, for five hours when it was about billing |
| `Fallback.Execute` | pkg/providers/fallback.go:101-228 | the result, the calls made and the tracker at the end are those of the specification, with the marks of other chains on the shared tracker before each check and during each call |
| `Fallback.TryCandidates` | pkg/providers/fallback.go:114-228 | the loop follows the specification from the first candidate to its verdict |
| `Fallback.OneRound` | pkg/providers/fallback.go:114-222 | one candidate is skipped or called once, and the tracker marked after what others marked meanwhile |
| `Fallback.OthersMark` | pkg/agent/loop.go:120-122 | the marks of other chains on the tracker they share |
| `FallbackTheorems.EligibleReasons` | pkg/providers/types.go:138-184 | the six reasons that are both retriable and fallback-eligible |
| `FallbackTheorems.AttemptsAccountForCandidates` | pkg/providers/fallback.go:101-228 | an exhausted chain carries exactly one attempt per candidate, in order, skipped ones for a cooldown and the others for an eligible reason; a successful one accounts for every earlier candidate |
| `FallbackTheorems.ChainStopsWhenItMust` | pkg/providers/fallback.go:114-228 | the chain goes on after a round exactly when it was not cancelled and its provider was cooling down or failed for an eligible reason; it stops at the first other round, `Cancelled`, `Aborted`, `Refused` or `Success` each under its exact condition, and is exhausted exactly when every round goes on |
| `FallbackTheorems.RoundMarksOnce` | pkg/providers/fallback.go:148-222 | beside the marks of other chains a response clears the called provider, an eligible failure blocks it for a minute at least, and nothing else changes |
| `FallbackTheorems.CallsInOrder` | pkg/providers/fallback.go:101-228 | calls are made in candidate order, at most one per candidate, each to a provider available at that moment on the shared tracker |
| `FallbackTheorems.CallsAreExact` | pkg/providers/fallback.go:114-142 | a candidate is called exactly when its round is not cancelled before the check and its provider is available then |
| `FallbackTheorems.FailedProviderRests` | pkg/providers/fallback.go:101-228 | within a minute of its failure a provider listed again is called again exactly when, of all marks any chain made on it in between, the last is a success |
| `FallbackTheorems.RestsUnlessOthersSucceed` | pkg/providers/fallback.go:101-228 | in a round that takes place, a provider that failed less than a minute ago is called again only if another chain marked it successful meanwhile |

## Left out

- SQLite, the write-ahead log, checkpoints, DSNs and error-string matching: tables are sequences of rows with the constraint checks written out, hashes are opaque, `external_ids` and the timestamps no query reads are omitted.
- Both stores, `Dispatch` under concurrency and the turn allocator share state between goroutines, so they are step relations on values; the order in which Go's scheduler picks steps is left open.
- ProgressiveRunEnds: the condition is exact as a bound on header lengths (`HeaderBoundIsExact`), not message by message; some messages with longer headers also end.
- CrashRecovery: promises no status for an intent that somebody else has asked to finalize, for example an operator reconciling orphans, because the status may then be theirs.
- The ledger's own `RecoverOrphans` does not take the state lock; a query that finds the database closed is an unreadable ledger here.
- Fence balance chunk by chunk: a hard split can fall inside a run of backticks.
- Invalid UTF-8 in `SplitMessage`, which the conversion to runes replaces: messages are sequences of runes from the start.
- The fallback `msgEnd <= start` at `pkg/channels/split.go:127-129` and the condition `totalLen > msgEnd` at line 59: the first never applies and the second always holds.
- Torn lines, lines longer than the scanner's 10 MB limit, session keys whose file names coincide, the lock shards, the summary and the timestamps of the session metadata.
- The rate limiter's in-place filter reuses the slice's memory; here the kept timestamps are a new sequence.
- A kept tool result that answers no call of its assistant: the sanitizer leaves such ids inside a run.
- The debouncer's callback runs after the lock is released, so deliveries of different timers may overlap; what is ordered is the taking.
- A tool that panics inside a dispatch is a crash of the process here.
- The bundle's `Close`, which closes the ledger and then the manifest, and its mapping of closed errors, apart from their part in recovery.
- `ExecuteImage`, candidate resolution, the error classifier, attempt durations and error texts.
- `forceCompression`, the system-prompt cache, channels, the bus, providers, configuration and the command line.
