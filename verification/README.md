# Proofs about tmact

tmact drives coding agents that run in terminal panes. This project models the parts of
it that have to be right without a lock, across crashes or over a long run, and proves
what they promise:

- **the ask/reply mailbox**: independent processes share a directory of write-once
  message files, a close marker, a waiter marker, acknowledgements and a read cursor.
  `MailboxDirectory` holds the directory and the file-level routines, one atomic file
  operation per step; `MailboxProcesses` puts any number of repliers, closers, waiters,
  follow-up senders and pollers into one interleaved state machine in which any process
  may stop for good anywhere; `MailboxInvariant` is the inductive invariant;
  `MailboxAnswers`, `MailboxPolling` and `MailboxHandoff` hold the theorems about every
  state of every run; `MailboxRuns` builds concrete runs from loads, posts, waits and
  follow-ups, and `MailboxWitnesses` uses it for the exceptions.
  `MailboxStore` is the same store as one process runs it: loops and retries over a
  directory that the others change between any two operations;
- **the loop scheduler**: `LoopTrace` says what a run does and what every run must
  respect, `LoopRunner` is the runner with the fields it updates, `LoopCalendar` and
  `CalendarConfig` are the calendar gate, `UsagePace` the arithmetic behind the quota gate;
- **the incremental log index**: `SessionLines` reads logs line by line, `LogIndex`
  scans with a cache, over any history of files, lost indexes and failed saves, and is
  compared with a scan that has none;
- **reversible skill deployment**: `SkillDeploy`, stopped before any step on disk;
- **fast forms of simple things**: `CaptureCursor` (incremental pane capture),
  `LogSearch` (bounded newest-first search);
- **keys sent to a pane**: `DispatchKeys`, over anything a pane may show;
- **credential requests**: `CredentialRegistry`, a monitor over heap entries;
- **shell words**: `ShellWords`, the printers and the splitter that reads them back.
  Quoting follows section 2.2.2 of the POSIX.1-2017 Shell Command Language.

Several properties hold only under a condition the code does not check. For each of them
the condition is stated below with its lemma, and the lemma in the second place is a run
or an input at which the property fails:

- An accepted answer is lost to a timeout exactly when the asker's last read stops at a
  half-written file with a lower number (`NoAcceptedAnswerIsLost`,
  `HalfWrittenFileLosesAnAnswer`). A wait that ends because the thread looks closed can
  miss a final reply that lands between the listing and the look at the close marker
  (`FinalReplyMissedByClosedExit`).
- `Post` reports success without having written anything once 100 numbers in a row were
  taken: the guard after the retry loop compares two values that are always equal
  (`PostSucceedsExactlyBelowTheRetryLimit`, `ReplyVanishes`).
- A follow-up whose sender saw the waiter's marker again is taken by that waiter, once it
  has left without being cancelled, exactly when the waiter's question is older, the thread
  was not closed, no older follow-up stands before it and its last read was not blocked by
  a half-written file below it (`SeenWaiterTakesItExactly`; `OlderFollowUpIsTaken`, `HalfWrittenFileHidesFollowUp`,
  and `UnwrittenQuestionStrandsFollowUp` for a waiter whose question is not older).
  A waiter that was cancelled may leave it behind (`CancelledWaiterMissesFollowUp`).
- A follow-up can be delivered both by the mailbox and by the pane when the recheck finds
  the waiter marker stale (`StaleMarkerDeliversTwice`; the comment in the code speaks of a
  missing marker only). When the recheck finds it absent, a double delivery has one of
  three causes (`AbsentMarkerMeansOneDelivery`), and each occurs: some sender had removed
  the marker as stale (`SecondSenderMakesMarkerAbsent`), the sender's reload was blocked by
  a half-written file (`BlockedReloadDeliversTwice`), or the question of the waiter that
  took the follow-up was never written (`UnwrittenQuestionDeliversTwice`). That one of them
  holds does not imply two deliveries.
- The log index overlooks a rewrite exactly when it keeps the size and the time, or grows
  and keeps the last 4096 bytes of what was indexed (`WhatGoesUnnoticed`,
  `RewriteGoesUnreported`).
- An apply leaves the manifest torn, so that no rollback ever completes, exactly when it is
  stopped while the manifest is being rewritten for some swap that it reaches (`Apply`,
  `StopWhileRewriting`).
- After rows have scrolled out of a capture, new output that repeats the old rows can be
  swallowed without a reset (`KnownRowsThenExtra`, `ScrolledRepeatIsSwallowed`).
- `--run-dir` followed by an empty argument takes the next non-empty word as the directory
  (`RunDirIsRecovered`, `EmptyRunDirTakesNextWord`).
- While waiting for a new agent, a trust screen that comes back after it was answered does
  not restart the settle window (`Pane.WaitReady`, `SettledAcrossTrustScreen`).

Times are integers (nanoseconds in the loop and the registry), quota percentages are
reals, hashes are taken to be injective, a file is absent, half-written or complete.

## Model

| member | source | states |
|---|---|---|
| `MailboxAnswers.MessagesAreNumberedOneToN` | internal/askreply/store.go:378-400 | in every state of every run the message files are exactly 1..n, each holding its own number, under any number of concurrent posters |
| `MailboxAnswers.MessagesAreWriteOnce` | internal/askreply/store.go:800-804 | a message file is never removed, reused or rewritten, and stays complete once complete |
| `MailboxAnswers.PostSucceedsExactlyBelowTheRetryLimit` | internal/askreply/store.go:386-412 | a successful Post holds file k with exactly its message if and only if fewer than 100 creates collided |
| `MailboxAnswers.SuccessfulPostsHaveDistinctNumbers` | internal/askreply/store.go:386-400 | two successful posts never share a number |
| `MailboxAnswers.ExhaustedRetriesReportSuccess` | internal/askreply/store.go:386-400 | after 100 collisions Post says success and the directory is unchanged |
| `MailboxWitnesses.ReplyVanishes` | internal/askreply/store.go:386-412 | a reachable run in which a reply that was never written is reported posted under another writer's number |
| `MailboxAnswers.NextFromReadsInOrder` | internal/askreply/store.go:657-668 | nextFrom over a loaded thread is the lowest-numbered matching file below the point where the read ended |
| `MailboxAnswers.NoAcceptedAnswerIsLost` | internal/askreply/store.go:401-511 | whatever was accepted at k is not lost: a wait returns a number at most k, and one that gave up by deadline or cancel failed if and only if its re-read was blocked by a half-written file below k |
| `MailboxWitnesses.HalfWrittenFileLosesAnAnswer` | internal/askreply/store.go:698-703 | a reachable run in which a half-written lower file loses an accepted answer to a cancel |
| `MailboxWitnesses.FinalReplyMissedByClosedExit` | internal/askreply/store.go:469-475 | a reachable run in which the direct closed exit misses an accepted final reply |
| `MailboxInvariant.NextKeepsInv` | internal/askreply/store.go:279-298 | every step of every process keeps the directory gapless and write-once and every process's claims about it true |
| `MailboxInvariant.RunsKeepInv` | internal/askreply/store.go:279-298 | the invariant holds in every state of every run |
| `MailboxPolling.PollingHandsOverEveryAnswerOnce` | cmd/tmact/mcp_ask.go:85-132 | pollers that follow one another, each stopped anywhere, have handed over every answer up to the cursor, each at most once, in ascending order; one is missing only if a poller moved the cursor to it and has not handed it over |
| `MailboxHandoff.SeenWaiterTakesItExactly` | internal/askreply/store.go:511-559 | any number of senders and waiters: a waiter whose marker was seen at the recheck and that left without a cancel has taken the follow-up if and only if its question is older, the thread was not closed, no older follow-up and no half-written file stands before it |
| `MailboxHandoff.FollowUpIsNeverStranded` | cmd/tmact/ask_reply_cmd.go:416-486 | any number of senders and waiters: a sent follow-up went through the pane, or was acknowledged, or the answerer posted a complete message since, or the thread is closed, or it was promised a waiter that is named with the reason why it still owes it |
| `MailboxHandoff.AbsentMarkerMeansOneDelivery` | cmd/tmact/ask_reply_cmd.go:430-450 | any number of senders, waiters one after the other: when the recheck found the marker absent and the pane was chosen, the follow-up is not acknowledged as well, unless a sender had removed as stale the marker seen first or the taker's, the reload was blocked by a half-written file, or the taker's question was never written |
| `MailboxHandoff.RunsKeepHandoff` | internal/askreply/store.go:511-566 | markers, promises, acknowledgements and senders fit together in every state of every run with any number of waiters and senders |
| `MailboxHandoff.RunsKeepSuccession` | internal/askreply/store.go:511-566 | with waiters one after the other, a registered waiter has its marker unless a sender removed it, and every sender that missed a marker knows who may still take its follow-up |
| `MailboxWitnesses.StaleMarkerDeliversTwice` | internal/askreply/store.go:643-655 | a reachable run in which a stale marker leads to two deliveries |
| `MailboxWitnesses.SecondSenderMakesMarkerAbsent` | internal/askreply/store.go:643-655 | a reachable run in which a second sender removes the marker as stale and the first, finding it absent, delivers twice |
| `MailboxWitnesses.BlockedReloadDeliversTwice` | cmd/tmact/ask_reply_cmd.go:440-449 | a reachable run in which the reload misses a later waiter's question behind a half-written file and the follow-up is delivered twice |
| `MailboxWitnesses.UnwrittenQuestionDeliversTwice` | cmd/tmact/ask_reply_cmd.go:440-449 | a reachable run in which a later waiter has left no question and the follow-up is delivered twice |
| `MailboxWitnesses.OlderFollowUpIsTaken` | internal/askreply/store.go:657-668 | a reachable run with two senders in which the waiter takes the older follow-up and the other stays |
| `MailboxWitnesses.HalfWrittenFileHidesFollowUp` | internal/askreply/store.go:698-703 | a reachable run in which the waiter leaves at its deadline without reading a follow-up behind a half-written file |
| `MailboxWitnesses.CancelledWaiterMissesFollowUp` | internal/askreply/store.go:511-559 | a reachable run in which a cancelled waiter listed the messages before the follow-up was written and still shows its marker afterwards |
| `MailboxWitnesses.UnwrittenQuestionStrandsFollowUp` | internal/askreply/store.go:511-559 | a reachable run in which the waiter whose marker is seen listens only above the follow-up |
| `MailboxStore.OthersAreForeign` | internal/askreply/store.go:800-804 | any step of any other process is one the store's routines are prepared for |
| `MailboxStore.Store.ReadMessages` | internal/askreply/store.go:670-712 | reads the listed files in order without a gap, up to the first that was half-written when listed, whatever the others do meanwhile |
| `MailboxStore.Store.LoadThread` | internal/askreply/store.go:279-298 | a consistent prefix of the messages, then the close marker |
| `MailboxStore.Store.Post` | internal/askreply/store.go:324-413 | each outcome with what then holds of the directory: exactly its message at its number, or nothing written, or written after the close |
| `MailboxStore.Store.Allocate` | internal/askreply/store.go:379-397 | the retry loop takes the next free number or runs through 100 taken ones |
| `MailboxStore.Store.Close` | internal/askreply/store.go:421-440 | the exclusive create has one winner and the thread is closed either way |
| `MailboxStore.Store.AwaitAnswer` | internal/askreply/store.go:455-485 | of all answers accepted meanwhile, the call returns one numbered no higher, unless it was blocked by a half-written file below or saw the thread closed |
| `MailboxStore.Store.CloseOrReadAnswer` | internal/askreply/store.go:487-505 | close first and read afterwards: failure if and only if blocked below every accepted answer |
| `LoopRunner.Runner.Run` | internal/loop/runner.go:119-284 | for any sequence of cycles the trace keeps every promise of a run, however it ends, and the run ends exhausted only when every schedule is used up |
| `LoopRunner.Runner.RunCycle` | internal/loop/runner.go:161-283 | a cycle that may work leaves nothing due but what waits for an idle pane; one that may not starts nothing; it ends the run only for the cause it names: over budget only if nothing more fits or a flow that may start now does not, exhausted just when all schedules are used up |
| `LoopRunner.Runner.MaybeRunAction` | internal/loop/runner.go:368-416 | the input is sent exactly when due, not skipped and idle if required; counters follow |
| `LoopRunner.Runner.MaybeRunFlow` | internal/loop/runner.go:418-502 | a flow starts exactly when due, not skipped, idle if required and covered by the budget, and runs all its steps in order or the run ends |
| `LoopRunner.Runner.RunSteps` | internal/loop/runner.go:472-485 | steps 0, 1, ... in order up to the first that is not sent, and the end only after the last |
| `LoopRunner.Runner.EvaluateQuota` | internal/loop/runner.go:551-628 | the decision is that of a reading less than one refresh interval old, fetched at most once per interval |
| `LoopRunner.Runner.Observe` | internal/loop/runner.go:173-185 | idle means that every observation in the trailing idle span, this one included, showed the same filtered text |
| `LoopRunner.Runner.AnswerCapacityPrompt` | internal/loop/runner.go:187-201 | Enter on the capacity prompt at most once until a cycle without a prompt |
| `LoopRunner.AppendKeepsTraceOk` | internal/loop/runner.go:220-259 | an event that fits keeps all promises: budget, runs per schedule, spacing, gates, idle evidence, flow order, fetch spacing |
| `LoopRunner.CompleteMeansUsedUp` | internal/loop/runner.go:312-324 | schedulesComplete holds if and only if every schedule has run as often as it ever may |
| `LoopTrace.NoCatchUpBurst` | internal/loop/runner.go:408-414 | any span of length L holds at most L/every + 1 runs of one schedule, whatever was closed, skipped or paused |
| `LoopTrace.GapsAddUp` | internal/loop/runner.go:408-414 | runs i and j of a schedule are at least (j - i) times `every` apart |
| `LoopCalendar.NextOpen` | internal/loop/calendar.go:224-247 | the least open instant at or after t, always found, for every valid calendar of fixed offset |
| `LoopCalendar.OpenUntil` | internal/loop/calendar.go:199-206 | the end of the window around t; the calendar is open throughout [t, end) |
| `LoopCalendar.OpenWindow` | internal/loop/calendar.go:208-220 | a window containing t if and only if the calendar is open at t |
| `CalendarConfig.CompileCalendar` | internal/loop/calendar.go:117-172 | accepted if and only if zone, weekdays and windows are as required and disjoint, and then open exactly at the listed weekdays and windows; each error is reported for what it says |
| `CalendarConfig.OrderWindows` | internal/loop/calendar.go:158-168 | sorting and comparing neighbours finds exactly the lists in which two windows overlap |
| `CalendarConfig.ClocksAreMinutes` | internal/loop/calendar.go:174-188 | a clock text denotes a whole minute and no two texts denote the same one |
| `UsagePace.PaceIsLinear` | internal/agentusage/pace.go:39-84 | with time elapsed: lasts until reset if and only if the delta is not positive, else the estimate lies before the reset and usage is exactly 100 there |
| `UsagePace.PaceIsAbsent` | internal/agentusage/pace.go:39-56 | exactly when no assessment is given |
| `UsagePace.HeadroomMeansBelowHundred` | internal/loop/runner.go:613-623 | the headroom gate passes if and only if linear extrapolation stays strictly below 100 at the reset |
| `SessionLines.StreamFrom` | internal/sessionlog/stream.go:27-69 | the reader's loop from an offset gives the records and statistics of the rest of the log |
| `SessionLines.ReadingDistributes` | internal/sessionlog/stream.go:27-69 | reading up to the end of a line and later the rest is reading the whole |
| `SessionLines.OpenLineDoesNotDistribute` | internal/logstats/logstats.go:329-332 | without the newline it is not, which is why an append needs one |
| `LogIndex.Index.ScanAll` | internal/logstats/logstats.go:214-307 | after any history of appends, rewrites, deletions, lost indexes and failed saves in which every change shows against the last world that could be saved, each scan reports what a scan from an empty cache would |
| `LogIndex.HistoryIsFresh` | internal/logstats/logstats.go:214-307 | the same of the saved index itself: before every round it mirrors the last world that could be saved |
| `LogIndex.CachedScanIsFresh` | internal/logstats/logstats.go:229-307 | one scan: records and statistics equal those of a scan from an empty cache, and the new index mirrors the files scanned |
| `LogIndex.HarmlessChangesShow` | internal/logstats/logstats.go:329-332 | unchanged files and readable appends always show |
| `LogIndex.RewriteGoesUnreported` | internal/logstats/logstats.go:434-437 | two scans between which a file was rewritten with size and time kept: the second still reports the old content |
| `LogIndex.Index.Scan` | internal/logstats/logstats.go:214-307 | report and new index are those of the cached scan from what was loaded; the counters balance; the index is saved if it changed, and the status tells unchanged, updated, rebuilt or not saved |
| `LogIndex.Index.ScanSource` | internal/logstats/logstats.go:249-289 | each source moves exactly its counters and is served, extended, read again or forgotten |
| `LogIndex.Index.IndexSource` | internal/logstats/logstats.go:309-327 | the entry is the old one extended or that of a full read; a failed append contributes nothing |
| `LogIndex.Index.ParseSourceFrom` | internal/logstats/logstats.go:334-375 | the entry of a read from an offset, or what was read before it failed |
| `LogIndex.Index.RemoveInactive` | internal/logstats/logstats.go:290-296 | exactly the files not discovered are forgotten and counted |
| `LogIndex.AppendedIsWhole` | internal/logstats/logstats.go:315-321 | old records and statistics plus those of the delta are those of the whole file |
| `LogIndex.WhatGoesUnnoticed` | internal/logstats/logstats.go:377-437 | exactly which changes size, time and tail do not give away |
| `LogIndex.TailIsExactForSmallFiles` | internal/logstats/logstats.go:390-407 | up to 4096 bytes the tail check recognises exactly the appends |
| `LogIndex.AppendsAreRecognised` | internal/logstats/logstats.go:329-388 | an append is never taken for a rewrite |
| `LogIndex.SavedIndexIsAccepted` | internal/logstats/logstats.go:470-490 | whatever files do between scans, what a scan saves passes the validation of the next load |
| `LogIndex.BalanceKept` | internal/logstats/logstats.go:246-287 | each way to deal with a source keeps hits + misses + stat failures = discovered and misses = appended + rebuilt + stream failures |
| `SkillDeploy.Stage.Apply` | scripts/deploy-skills.py:50-66 | stopped anywhere the originals stay recoverable; it completes if and only if no copy is in the way and it is not stopped, and then every destination equals its source; the manifest is torn if and only if it was stopped at a tearing point it reaches |
| `SkillDeploy.Stage.Rollback` | scripts/deploy-skills.py:67-75 | completed, every destination holds its original and the stage is clean; uninterrupted, it completes if and only if the manifest is not torn |
| `SkillDeploy.Stage.Live` | scripts/deploy-skills.py:50-75 | after any history of applies and rollbacks stopped anywhere, one completed rollback restores every destination |
| `SkillDeploy.Stage.StopWhileRewriting` | scripts/deploy-skills.py:62-63 | stopped inside the rewrite for swap k, the first k destinations stay replaced however often a rollback is tried |
| `SkillDeploy.Stage.SwapOne` | scripts/deploy-skills.py:57-65 | one swap, stopped before any of its steps |
| `SkillDeploy.Stage.PutBack` | scripts/deploy-skills.py:69-74 | one original moved back, stopped before any of its steps |
| `CaptureCursor.IncrementalCapture` | cmd/tmact/capture_cursor.go:65-109 | which reset or delta, in terms of the longest cursor suffix found, its number of occurrences and the history size |
| `CaptureCursor.NewCursor` | cmd/tmact/capture_cursor.go:37-63 | the cursor holds the hashes of the last 128 rows |
| `CaptureCursor.SplitRows` | cmd/tmact/capture_cursor.go:151-166 | the splitting loop yields the rows |
| `CaptureCursor.RowsMakeTheText` | cmd/tmact/capture_cursor.go:151-166 | the rows joined are the text and none is empty |
| `CaptureCursor.NothingIsLostOrRepeated` | cmd/tmact/capture_cursor.go:65-109 | after more output the delta is exactly that output, or an ambiguity reset just when the remembered rows occur elsewhere too |
| `CaptureCursor.KnownRowsThenExtra` | cmd/tmact/capture_cursor.go:83-108 | the delta is exactly the new rows if and only if the kept rows are the longest and only occurrence, and all of them unless the history grew |
| `CaptureCursor.ScrolledRepeatIsSwallowed` | cmd/tmact/capture_cursor.go:83-108 | a capture whose new rows are not reported and no reset is declared |
| `CaptureCursor.HashesLoseNothing` | cmd/tmact/capture_cursor.go:168-183 | without collisions comparing hashes is comparing rows |
| `LogSearch.Search` | internal/logsearch/search.go:77-141 | the result is all matches sorted newest first, cut at the limit |
| `LogSearch.KeepNewest` | internal/logsearch/search.go:235-249 | the slots hold the newest of all matches so far, never more than the limit |
| `LogSearch.HeldIsTheTop` | internal/logsearch/search.go:116-139 | sorting what was held is sorting everything and taking the first |
| `LogSearch.NewerIsAStrictOrder` | internal/logsearch/search.go:251-262 | a strict total order on distinct sequence numbers with zero timestamps oldest |
| `LogSearch.NewestFirstSorts` | internal/logsearch/search.go:136-136 | the reference sort is sorted and keeps exactly the matches |
| `DispatchKeys.Pane.SubmitQueued` | internal/dispatch/queue.go:40-99 | Enter only right after seeing a draft and no question, pastes only into an empty box, at most six of each, success only on an empty box after Enter, refusals only for what was seen |
| `DispatchKeys.Pane.AwaitDraft` | internal/dispatch/queue.go:56-77 | the first bounded loop: no Enter at all, a paste repeated only into an empty box of an agent that does not ask |
| `DispatchKeys.Pane.ConfirmQueued` | internal/dispatch/queue.go:79-98 | the second bounded loop: Enter repeated only while the draft stays and nothing asks |
| `DispatchKeys.Pane.SubmitPrompt` | internal/dispatch/submit.go:26-80 | Enter only while the prompt sits in the box, a second paste only when it is nowhere, at most six keys in all |
| `DispatchKeys.Pane.WaitReady` | internal/dispatch/ready.go:12-86 | how any sequence of looks ends, and whether a trust screen was answered; nothing is sent but at most one such answer; success only after looks that found the agent ready for the settle time |
| `DispatchKeys.Pane.TakeTurn` | internal/dispatch/ready.go:15-85 | what one look makes of the wait: an end with its cause, an answer, or a settle window that goes on, starts or is given up |
| `DispatchKeys.SettledAcrossTrustScreen` | internal/dispatch/ready.go:37-42 | looks at which the wait succeeds although the trust screen came back inside the settle window |
| `DispatchKeys.Pane.LeaveAgent` | internal/dispatch/restart.go:37-92 | /exit at most once, into the clean box of the very agent; Enter only once /exit is in the box; success only at a shell in the same pane |
| `DispatchKeys.Pane.Restart` | internal/dispatch/restart.go:15-92 | the launcher is pasted only right after seeing a shell in that pane, the prompt only after the new agent was seen settled |
| `DispatchKeys.Pane.SettleExisting` | internal/dispatch/run.go:377-413 | success only when every sample found the agent calm, and no key is sent |
| `CredentialRegistry.Registry.Create` | internal/credreq/registry.go:100-141 | a new pending request, or the one already pending under the name; at most one per name |
| `CredentialRegistry.Registry.Submit` | internal/credreq/registry.go:171-186 | succeeds if and only if pending and stored; a failed store leaves it pending; nothing else changes |
| `CredentialRegistry.Registry.Decline` | internal/credreq/registry.go:188-198 | succeeds if and only if pending; nothing else changes |
| `CredentialRegistry.Registry.Expire` | internal/credreq/registry.go:229-235 | expires a pending request only |
| `CredentialRegistry.Registry.Resolve` | internal/credreq/registry.go:237-244 | the done signal is closed exactly once, when the request leaves pending |
| `CredentialRegistry.Registry.Prune` | internal/credreq/registry.go:246-253 | drops exactly what was resolved long enough ago, never a pending request |
| `CredentialRegistry.Registry.WaitEnds` | internal/credreq/registry.go:207-214 | a wait that ends by the signal never returns a pending request |
| `CredentialRegistry.Registry.Serve` | internal/credreq/registry.go:100-253 | under any sequence of calls a resolved request never changes again and the registry stays consistent |
| `ShellWords.SplitUndoesPrinting` | cmd/tmact/loop_lifecycle_cmd.go:291-334 | splitting printed arguments gives back exactly the non-empty ones, for all strings and both printers |
| `ShellWords.ScanQuoted` | cmd/tmact/ask_reply_cmd.go:711-719 | a printed argument is read back as that argument whatever follows |
| `ShellWords.ScanEscaped` | internal/dispatch/run.go:560-562 | the single-quoted form with its escaped quotes is read back literally |
| `ShellWords.SplitShellWords` | cmd/tmact/loop_lifecycle_cmd.go:291-334 | the byte loop computes the words |
| `ShellWords.RunDirFromLoopStartCommand` | cmd/tmact/loop_lifecycle_cmd.go:277-289 | the scan finds the first directory named |
| `ShellWords.RunDirIsRecovered` | cmd/tmact/loop_lifecycle_cmd.go:277-289 | the directory of a printed start command is recovered if and only if it is not empty or only empty words follow; otherwise the next non-empty word is taken |
| `ShellWords.EmptyRunDirTakesNextWord` | cmd/tmact/loop_lifecycle_cmd.go:277-289 | a start command at which that happens |
| `ShellWords.RunDirAfterEqualsIsRecovered` | cmd/tmact/loop_lifecycle_cmd.go:277-289 | the --run-dir=dir form is always recovered |

## Left out

- MailboxProcesses: the two processes that span several commands (the follow-up hand-off of cmd/tmact/ask_reply_cmd.go and the poller of cmd/tmact/mcp_ask.go) and AwaitPrompt are steps of the state machine on values, not classes, because their properties are about interleavings with other processes.
- MailboxHandoff.FollowUpIsNeverStranded: a waiter that was stopped while its marker is still seen, or is still under way, owes the follow-up for as long as the run says nothing else; nothing is claimed about when a waiter moves.
- MailboxHandoff.AbsentMarkerMeansOneDelivery: waiters follow one another, at most one under way at a time, because the marker is one file and a second waiter overwrites it; the three causes of a double delivery are necessary, not sufficient.
- MailboxPolling.PollingHandsOverEveryAnswerOnce: at most one poller is alive at a time, because the cursor is read and then written; a poller that stops between moving the cursor and handing over leaves one answer unhanded, which the invariant names.
- MailboxStore.Store.AwaitAnswer: ends after a given number of polls, which stands for the context's own end; an early return because the thread is seen closed carries no promise about accepted answers.
- Errors of file operations other than an existing, missing or half-written file, permissions, fsync and JSON are not modelled; a directory listing is one atomic step, and processes on one machine share one clock that does not run backwards.
- Create, Extend by several askers, Cancel and the loading of a request file are not modelled beyond what polling needs.
- LoopRunner.Runner.Run: fed a finite sequence of cycles; log lines, heartbeats, the dry run, delays after an action, and peer targets are left out, and a quota reading is the fetched value of one provider.
- LoopTrace.NoCatchUpBurst: about decision times, since the clock is sampled once per cycle; idle evidence additionally needs a clock that does not run backwards.
- LoopCalendar.NextOpen: fixed offsets only; across a daylight-saving gap or overlap the earliest instant can be missed.
- CalendarConfig.CompileCalendar: white space and letter case are ASCII.
- UsagePace: reals instead of floating point.
- LogIndex.Index.ScanAll: besides showing, a changed file must not fail where the cache would not have read it or would have read less of it (`ReadAlike`); a file that fails in the middle of an append contributes nothing where a fresh scan would contribute what it read. Files do not change during one scan except as such a failure, and a scan that cannot save reports nothing to its caller.
- SessionLines: normalising one line is an arbitrary function of the line, because what the parser carries from line to line (session, directory, model) does not reach the indexed record.
- SkillDeploy: destinations are given as distinct existing directories, as the check before the first change guarantees; symbolic links and the digest comparison at the end are left out.
- CaptureCursor: the encoding of a cursor and its size limit; a cursor is the decoded value.
- LogSearch.Search: filters and the query are one arbitrary predicate on records; coverage counters are left out.
- DispatchKeys.Pane.WaitReady: ends after a given number of looks, which stands for the deadline; cancellation by a context is left out, and what counts as a trust screen, a draft or a runtime is whatever a look says.
- DispatchKeys: that a dry run sends no key is not claimed; the trust answer for an existing session does not depend on it. Model routing and the steps reported to the user are left out.
- CredentialRegistry.Registry.Create: the identifier is one no listed request has; a wait is its two halves around the blocking select, and Pending's listing order is left out.
- ShellWords: characters are bytes and surrounding white space is ASCII.
- Panes, HTTP, peers, MCP framing, pane classification, prompt detection, model routing, pricing and the frontend are not part of this model.
- The start lock of the loop command is not claimed to exclude two starters.
