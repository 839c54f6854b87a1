# Verified models of the YUA backend

Dafny models of six parts of the backend, each with proofs of what it is for:

- **The agent run.** `AgentRun` is the executor as a transition system: the program counter names
  the await it is suspended at, and every input either resumes it or is something from outside
  (stop, interrupt, pause, resume, approval answer, time-out, clean-up, feedback), in any order.
  `AgentExecutor` and `SessionManager` are the two objects as classes; `AgentExecutor.Drive`
  proves that the objects reach exactly the states of the transition system on every input
  sequence, so the statements of `AgentProtocol`, `AgentApproval`, `AgentConsent`, `AgentEvents`,
  `AgentBudget`, `AgentEnding` and `AgentProgress` about all runs are statements about the objects.
  `AgentStream` follows one client of the event stream across broken connections.
- **Credit adjustment.** `CreditAdjust` runs any number of requests at once, query by query, each
  in its own transaction with a lock on its key, and any query may fail. `CreditLaws` proves
  exactly-once. `CreditSerial` says when the tables are those of whole adjustments made one after
  the other, each reading its balance itself; a run may leave other tables, because the balance is
  read without a lock. The computed balance is any function within a stated error of the exact sum,
  as double precision is; `CreditRounding` and `CreditBalance` prove when the stored balances add up
  all the same. `CreditAccounts` says whose balance that is, row by row, in terms of user and
  workspace. `CreditHandler` is the handler as a method on the tables.
- **User memory.** `MemoryDoc` is the Markdown editor, `MemoryExport` the export parser, and
  `MemoryImport` the loop that feeds one to the other. `MemoryFacts` says what one append writes,
  `MemoryLaws` what it changes and what it leaves alone, and `ExportLines` what the lines of an
  export are read as.
- **Document slices.** `Slicer` is `sliceBySection`.
- **Rate limits.** `EngineLimiter` and `RateLimit`, on every trace of call times.
- **Library paging.** `LibraryPaging` and `PagingLaws`: following the cursors against the plain
  sorted list. `FileEdit` is the string part of the `file_edit` tool.

`Text`, `Traces` and `Wrappers` hold what several parts share: string operations, runs of a state
machine along its inputs, and optional values.

Where the code does not always do what is hoped for, the exact condition under which it does is
proved, in both directions:

| expected | holds exactly if |
|---|---|
| appending the same fact twice is appending it once | the fact is blank or the section name is one line (`MemoryLaws.AppendTwice`) |
| filtering the buffer by number gives all later events | no more than 500 events lie behind the number (`AgentTypes.ReplayIsExact`) |
| a client that reconnects misses no event | its number is that of a recorded event no more than 500 back, or that of the frame that closed an ended stream with nothing recorded since (`AgentStream.ReconnectIsExact`, `ClosingFrameHidesNext`) |
| a run records the done event | it ends, without failing, while its session is registered (`AgentEvents.DoneIsRecordedOnce`, `AgentProgress.DoneCanBeMissing`) |
| the rate limiter never answers that a pattern is suspicious | the clock is never set back by more than 899500 ms (`RateLimit.SuspiciousExactlyWhen`) |
| iterations never exceed the limit | the limit is whole or not positive; requests may send a fraction (`AgentProgress.WholeLimitsHold`) |
| a stopped run starts no further iteration | it is not suspended in a pause when the stop is noted; at most one more starts (`AgentProgress.InterruptedRunEnds`, `StoppedRunStarts`) |
| a hard stop runs no further tool | the run does not wait for an approval that was granted or can still be; at most one more runs (`AgentProgress.HardStopEndsTools`, `StoppedRunCommits`) |
| the tables of a run are those of whole adjustments in commit order | every commit would have stored the same with the balance its account had at that commit (`CreditSerial.RunIsSerial`, `CreditBalance.DebitsOverlap`) |
| a commit keeps the newest balance of its user in its workspace equal to the total of the amounts | its row gets the greatest id of theirs and the balance it read is still the newest, less what rounding adds (`CreditBalance.CommitKeepsSum`) |
| the stored balance moves by the stored amount, however the sum rounds | the digits after the fourth decimal stay away from a half by the stated error; amounts of four decimals do (`CreditRounding.StoredBalanceMoves`, `CreditBalance.HalfDebitDrifts`, `HalfCreditDrifts`) |
| paging yields the plain list for every page size | every row is followed by one that its cursor lets through (`PagingLaws.PagingIsRight`, `TiesBreakPaging`) |
| a printed cursor reads back | source and id are not empty and hold no bar (`PagingLaws.ParsePrint`) |
| a single edit is undone by the reverse edit of what it wrote, which for a new text free of patterns is the new text | what it wrote is not empty and occurs once in the result, and the old text holds no pattern that is read in its place (`FileEdit.Undo`) |
| a single edit writes what replacing all would write | the new text holds no pattern that is read in its place (`FileEdit.SingleAgainstAll`) |
| replacing all changes the length by count times the difference | not both file and old text are empty with a new text that is not (`FileEdit.ReplaceAllLength`) |

A pause that suspends a run comes from the executor's own `interrupt`, which the repository's routes
call with a hard interrupt only; the pause route writes the session status and does not reach the
executor.

Three comments in the code say something else than the code does, and the models follow the code.
The export parser's and the editor's scrubbing removes `#`s only where they are the first
characters. The library query sorts by time descending and by source and id ascending, while its
cursor comparison takes all three in one direction; this is why rows created at the same instant
break paging. The rate limiter takes more than twenty fast requests for an attack, but the sixth one
already starts a ban, and the branch for an attack needs a clock set back by more than 899500 ms.

## Model

| member | source | states |
|---|---|---|
| AgentProtocol.EveryCallIsWellFormed | src/agent/agent-executor.ts:401-568 | in every run, whatever happens outside, each LLM call is sent a history whose roles alternate, start and end with the user, and whose every tool use is answered in order by one result in the next message |
| AgentProtocol.ToolOverKeeps | src/agent/agent-executor.ts:480-555 | the end of one tool, by rejection or with a result, keeps the answers so far in step with the tools of the reply |
| AgentApproval.OnlyPermittedCallsRun | src/agent/agent-executor.ts:480-509 | in every run, a command that publishes, a write to a sensitive file, a commit and a checkout run only if the action minted for that very call was granted before, or an earlier action for the same tool was granted for good; without an input none of these tools runs |
| AgentApproval.OnlyTheseAreAsked | src/agent/agent-executor.ts:1079-1103 | in every run the user is asked about no other call |
| AgentApproval.NextToolWaits | src/agent/agent-executor.ts:463-509 | the next tool of a reply fails the run, waits for the user, or starts at once, each exactly under its condition on name, input and standing approvals |
| AgentConsent.AskedCallsRunOnYes | src/agent/agent-executor.ts:483-498 | in every run, a call the user was asked about runs only after a yes to that very question, and never if the answer is a no |
| AgentConsent.GoodForAll | src/agent/agent-executor.ts:482-501 | in every run, once a call has run on a yes for good, its tool is not asked about again |
| AgentApproval.AnswersAreTakenOnce | src/agent/agent-executor.ts:1109-1150 | in every run action ids are minted once and answered at most once, no call runs twice, and a session that waits for approval has a pending approval that is not answered yet |
| AgentApproval.RespondKeeps | src/agent/agent-session-manager.ts:288-315 | taking an answer keeps all of that, whether or not the executor still waits for it |
| AgentEvents.ToolCallIsClosedFirst | src/agent/agent-executor.ts:463-555 | in every run, the first event after a tool call that opens or closes anything is the result with the same id |
| AgentEvents.DoneIsRecordedOnce | src/agent/agent-executor.ts:570-581 | a run has recorded the done event exactly once if it has ended, without failing, while its session was registered, and never otherwise; the event comes right after the final status that agrees with its reason, with the true iteration and token counts |
| AgentProgress.DoneCanBeMissing | src/agent/agent-executor.ts:570-581 | a run from its very start that is stopped, whose session is cleaned up while the model answers, and that ends without failing and without a done event |
| AgentEvents.EverythingIsClosed | src/agent/agent-executor.ts:414-568 | a run that has ended, without failing, while its session was registered has recorded start and end of every iteration, as many as it counted, and one result for every tool call |
| AgentEnding.FinalReplyEndsRun | src/agent/agent-executor.ts:451-458 | in every run, once a reply ends the turn or uses no tool, the model is not called, the user not asked and no tool run any more |
| AgentEnding.EndsForAReason | src/agent/agent-executor.ts:405-458 | a run that has ended without failing was interrupted, has reached a limit, or has had such a reply |
| AgentEnding.FailsWhen | src/agent/agent-executor.ts:634-670 | a call that fails is tried again exactly if the failure is a passing one and fewer than three attempts were made; otherwise the run fails and says so |
| AgentEnding.BlocksInOrder | src/agent/agent-executor.ts:437-443 | the tools of a reply are its tool uses in order, the texts recorded are its text blocks in order, and nothing else |
| AgentEnding.ToolIsReported | src/agent/agent-executor.ts:511-555 | a tool that is done is reported with its outcome, behind a warning if its output held a secret, and answered with it |
| AgentEnding.RejectionIsReported | src/agent/agent-executor.ts:484-498 | a tool the user said no to is reported and answered as an error |
| AgentBudget.CallsStayWithinLimits | src/agent/agent-executor.ts:628-666 | every LLM call of every run is one of at most three attempts of its iteration, no two share iteration and attempt, and none starts once a token budget is spent |
| AgentBudget.LoopTopDecides | src/agent/agent-executor.ts:404-418 | the head of the loop, limit by limit: an interrupt ends it without a word, the first limit reached ends it with its message, a pause suspends it, and otherwise one more iteration starts with its first call |
| AgentBudget.OvershootIsOneReply | src/agent/agent-executor.ts:427-431 | the token totals are the sums over all replies, and without the last reply they are within the budgets |
| AgentProgress.WorkIsBounded | src/agent/agent-executor.ts:401-568 | the executor is resumed at most seven times an iteration and twice a tool, plus three, whatever happens outside |
| AgentProgress.NeverStuck | src/agent/agent-executor.ts:1109-1211 | an executor that has not finished can go on, or a resume lets it leave its pause, or the time-out lets it leave its wait for approval |
| AgentProgress.IterationsAreLimited | src/agent/agent-executor.ts:1181-1186 | the last iteration started was below the limit |
| AgentProgress.WholeLimitsHold | src/routes/yuan-agent-router.ts:133-136 | whatever the token budgets, no run exceeds the iteration limit if and only if the limit is whole or not positive |
| AgentProgress.InterruptedRunEnds | src/agent/agent-executor.ts:401-409 | once an interrupt is noted, the rest of the run starts at most one more iteration whatever happens, and some continuation starts one if and only if the run is suspended in a pause |
| AgentProgress.StoppedRunStarts | src/agent/agent-executor.ts:1207-1211 | a run from its very start in which a stopped executor is resumed out of a pause and starts an iteration |
| AgentProgress.HardStopEndsTools | src/agent/agent-executor.ts:463-509 | once a hard interrupt is noted and no soft one replaces it, the rest of the run announces no tool and runs at most one more whatever happens, and some continuation runs one if and only if the executor waits for an approval that was granted or can still be |
| AgentProgress.StoppedRunCommits | src/agent/agent-executor.ts:480-509 | a run from its very start in which a commit waits for approval, the run is stopped, and the commit runs once approved |
| AgentExecutor.Drive | src/agent/agent-executor.ts:386-600 | fed any inputs, executor and session manager are in the state the transition system reaches on them |
| AgentExecutor.AgentExecutor.Interrupt | src/agent/agent-executor.ts:608-619 | pause, resume and interrupt move the fields and the session status, and wake a suspended run on resume |
| AgentExecutor.AgentExecutor.ShouldTerminate | src/agent/agent-executor.ts:1179-1202 | the loop ends exactly if an interrupt is noted or a limit is reached, and a limit is announced only without an interrupt |
| AgentExecutor.AgentExecutor.EmitDeltas | src/agent/agent-executor.ts:437-443 | every text block of a reply, and nothing else, is recorded in order |
| AgentExecutor.AgentExecutor.NextTool | src/agent/agent-executor.ts:463-511 | a hard interrupt or the end of the tools ends the batch; otherwise the tool is announced and then fails the run, waits or runs, as `AgentApproval.NextToolWaits` says |
| AgentExecutor.AgentExecutor.RequestApproval | src/agent/agent-executor.ts:1109-1150 | a fresh action id is put into the pending slot and awaited; without a session the answer is already no |
| AgentTypes.ReplayIsExact | src/agent/agent-session-manager.ts:226-247 | filtering the buffer by sequence number gives exactly the later events if and only if no more than 500 events lie behind |
| AgentTypes.PushAndShift | src/agent/agent-session-manager.ts:240-244 | pushing an event and shifting out the oldest of a full buffer leaves the last 500 events, numbered to the end |
| SessionManager.AgentSession.Emit | src/agent/agent-session-manager.ts:226-247 | the buffer stays the last 500 events of the full history, and the listeners get the event with its number |
| SessionManager.AgentSessionManager.CreateSession | src/agent/agent-session-manager.ts:125-165 | the new session is registered and the per-user index stays the exact inverse of the session map |
| SessionManager.AgentSessionManager.IdsOf | src/agent/agent-session-manager.ts:175-177 | the index entry of a user holds exactly the ids of that user's sessions |
| SessionManager.AgentSessionManager.ListSessions | src/agent/agent-session-manager.ts:175-184 | the result holds exactly the user's sessions, each once, newest first |
| SessionManager.AgentSessionManager.GetActiveCount | src/agent/agent-session-manager.ts:188-199 | the count is that of a scan of all sessions |
| SessionManager.AgentSessionManager.GetDailyRunCount | src/agent/agent-session-manager.ts:203-215 | the count is that of a scan of all sessions for the UTC day |
| SessionManager.AgentSessionManager.UpdateStatus | src/agent/agent-session-manager.ts:251-269 | status, error and status event of the one session change, and the index is kept |
| SessionManager.AgentSessionManager.SetPendingApproval | src/agent/agent-session-manager.ts:273-286 | the slot is filled, the session waits, and the request is recorded |
| SessionManager.AgentSessionManager.ResolveApproval | src/agent/agent-session-manager.ts:288-315 | an answer is taken exactly if it is for the pending action, is then handed on, and cannot be taken again; any other changes nothing |
| SessionManager.AgentSessionManager.StopSession | src/agent/agent-session-manager.ts:335-345 | a stop is taken exactly if the session has not ended, and the stop signal goes out before the status moves |
| SessionManager.AgentSessionManager.CleanupSession | src/agent/agent-session-manager.ts:349-370 | an ended session is removed from map and index, and any other is kept |
| SessionManager.ReplayTo | src/routes/yuan-agent-router.ts:215-224 | a reconnecting client is sent the buffered events above its last number, in order |
| AgentStream.OpenStream | src/routes/yuan-agent-router.ts:184-289 | a new stream has every later event once, in order and with its number, from the client's number or from 500 back; that of an ended session then closes with one frame numbered like the next event, any other goes on live |
| AgentStream.ConnectTakes | src/routes/yuan-agent-router.ts:215-288 | a connecting client takes the frames of that stream one by one, as many as reach it, and the stream stays open exactly if all do and the session has not ended |
| AgentStream.ReconnectIsExact | src/routes/yuan-agent-router.ts:215-288 | a reconnecting client has received exactly the recorded events if and only if its number was that of a recorded event no more than 500 back, or of a closing frame with nothing recorded since |
| AgentStream.NothingIsMissed | src/routes/yuan-agent-router.ts:215-288 | over any recordings, endings and connections that break between any two frames, a client whose connections are all made with such a number has received the first events, each once and in order, and all of them while its stream is open |
| AgentStream.ClosingFrameHidesNext | src/routes/yuan-agent-router.ts:273-288 | a client that has seen the closing frame misses the event recorded next, the only one behind it |
| CreditLaws.ExactlyOnce | src/routes/admin-router.ts:1648-1742 | after any interleaving keys, ledger rows and outbox rows are in bijection, every key carries the answer that goes with its row, no client was told that a request is in progress or must be retried, and every answer given is stored |
| CreditLaws.SameKeySameRow | src/routes/admin-router.ts:1658-1684 | two clients told of an adjustment under one key sent the same payload and were told of the same row |
| CreditLaws.NothingIsTakenBack | src/routes/admin-router.ts:1648-1742 | along any run ledger and outbox only grow at the end, stored answers stay and given answers stay |
| CreditSerial.RunIsSerial | src/routes/admin-router.ts:1645-1742 | the tables of any run are those of whole adjustments in commit order, each reading its balance itself, if and only if every commit would have stored the same with the balance its account had at that commit; for an amount of four decimals that is the balance it was made with |
| CreditLaws.StepIsAdjust | src/routes/admin-router.ts:1648-1742 | given the balance it read, a commit changes the tables as the adjustment in one step would; a replay and a refusal answer as the whole adjustment would and leave the tables, as every other query does |
| CreditLaws.ReplayChangesNothing | src/routes/admin-router.ts:1672-1684 | a request whose key is stored changes nothing: the same payload gets the stored answer, another one is refused |
| CreditLaws.RefusalLeavesNoKey | src/routes/admin-router.ts:1697-1700 | a transaction that ends without committing leaves the tables as they were and lets another one with its key through |
| CreditRounding.StoredBalanceMoves | src/routes/admin-router.ts:1695-1726 | the stored balance moves by the stored amount under every arithmetic within the stated error if and only if the digits of the amount after the fourth decimal stay that far from a half |
| CreditRounding.FourDecimalsAreClear | src/db/migrations/2026-03-13-unified-saas-admin-phase1.sql:114-115 | they do for every amount of no more than four decimals |
| CreditAccounts.ReadsNewest | src/routes/admin-router.ts:1686-1700 | in every run, a transaction reads the balance of the committed row with the greatest id among those of its own user in its own workspace, or 0 if there is none, and is refused exactly if that does not suffice |
| CreditAccounts.OnceIsOutcome | src/routes/admin-router.ts:1686-1742 | on tables that belong together, a new request reads that balance and is refused below zero, fails if a money column cannot hold a number, and otherwise adds one row with the new balance, one outbox entry and one key |
| CreditAccounts.BadRequestsAre | src/routes/admin-router.ts:1608-1632 | a request is refused at once, with nothing touched, exactly if key, user, workspace, amount or reason is not as the checks want it |
| CreditAccounts.OthersKeep | src/routes/admin-router.ts:1686-1694 | an adjustment of another user or another workspace changes neither the newest balance nor the total |
| CreditAccounts.CommitAgainstNewest | src/routes/admin-router.ts:1686-1694 | what a commit of a run is held against is the newest balance of its user in its workspace among the rows committed before it |
| CreditBalance.CommitKeepsSum | src/routes/admin-router.ts:1686-1726 | for the rows of any user in any workspace: a commit of theirs keeps the newest balance equal to the total of the amounts if and only if its row gets the greatest id of these rows and the balance it read, plus what rounding adds, is that total; rounding adds nothing to a clear amount; a commit of another user or another workspace changes neither |
| CreditBalance.SerialBalance | src/routes/admin-router.ts:1686-1726 | when the balances of one user in one workspace are read one transaction at a time, the tables are those of whole adjustments in commit order, and where the amounts of a user in a workspace have four decimals, the balance of the row with the greatest id is their total, with no prefix below zero |
| CreditBalance.DebitsOverlap | src/routes/admin-router.ts:1686-1700 | a run in which two debits read the same balance and both commit: the amounts add up to less than nothing, and whole adjustments in that order would have left other tables |
| CreditBalance.HalfDebitDrifts | src/db/migrations/2026-03-13-unified-saas-admin-phase1.sql:114-115 | a debit of 0.00005 after a credit of 1 leaves the balance at 1 and the sum below it, even when computed exactly |
| CreditBalance.HalfCreditDrifts | src/routes/admin-router.ts:1695-1696 | a credit of 0.00005 after one of 0.0012, added as doubles are, leaves the balance at 0.0012 and the sum at 0.0013 |
| CreditHandler.Database.Post | src/routes/admin-router.ts:1607-1768 | whichever query fails, the call does all of the adjustment or nothing of it; only the entry after the commit can fail with the adjustment in place |
| CreditHandler.AttemptIsOutcome | src/routes/admin-router.ts:1645-1768 | a new request, fault by fault, against the newest balance of its user in its workspace: what is left in the tables and what is answered |
| CreditHandler.AttemptAgain | src/routes/admin-router.ts:1658-1684 | a request whose key has a row, fault by fault: nothing changes, the same payload is answered with the stored row, and another one is refused |
| CreditHandler.AnswersAreInOrder | src/routes/admin-router.ts:1645-1742 | every attempt is answered, on the tables that the ones before it have left |
| CreditHandler.AttemptKeepsMatched | src/routes/admin-router.ts:1645-1742 | tables that belong together stay so, wherever the call fails |
| CreditHandler.RetriesRecordOnce | src/routes/admin-router.ts:1648-1684 | however often a request is sent and wherever each attempt fails, at most one row comes of it, and every attempt answered with a row is answered with the stored one |
| MemoryDoc.Sanitize | src/routes/memory-md-helpers.ts:25-29 | what is left of a fact is one line without carriage returns |
| MemoryDoc.FindPlace | src/routes/memory-md-helpers.ts:39-73 | the one-pass scan finds the bullet in the section, or the place below the section's last heading and last line that is not blank, or that there is no section |
| MemoryDoc.AppendToSection | src/routes/memory-md-helpers.ts:17-75 | the loop-and-splice editor computes the document that the laws of `MemoryFacts` and `MemoryLaws` are about |
| MemoryFacts.FactIsWritten | src/routes/memory-md-helpers.ts:25-74 | a fact on one line that does not start with `#` is written as it is, less the white space around it, behind "- " unless it starts with a dash: below a new heading at the end if the section is missing, otherwise as the last line of the section unless the section holds the line up to case and outer white space, and exactly then the document stays as it is |
| MemoryFacts.HeadingLines | src/routes/memory-md-helpers.ts:35-38 | a line is a heading of a section exactly if it is `##`, white space, the name up to case, and nothing but white space behind it |
| MemoryFacts.FactOfLines | src/routes/memory-md-helpers.ts:25-32 | a fact on several lines is written as one line with a blank between each two |
| MemoryFacts.NewlinesAreOneBlank | src/routes/memory-md-helpers.ts:27-27 | in any fact a run of newlines is as good as one blank |
| MemoryFacts.ReturnsAreDropped | src/routes/memory-md-helpers.ts:26-26 | in any fact a carriage return is as good as nothing |
| MemoryFacts.HashesAreDropped | src/routes/memory-md-helpers.ts:28-28 | the `#`s a fact starts with are dropped with the white space behind them, once |
| MemoryFacts.BlankIsDropped | src/routes/memory-md-helpers.ts:30-30 | a fact of nothing but white space changes nothing |
| MemoryLaws.AppendToExisting | src/routes/memory-md-helpers.ts:44-74 | the document is unchanged exactly if the section holds the bullet; otherwise it gains exactly that line, in the section, after its last line that is not blank |
| MemoryLaws.AppendToMissing | src/routes/memory-md-helpers.ts:62-66 | every old line stays in place and exactly one H2 is added, with the bullet below it |
| MemoryLaws.OtherSectionsAreKept | src/routes/memory-md-helpers.ts:39-74 | the lines of every differently named section stay as they were, but for one blank line at the end of the document |
| MemoryLaws.DistinctNames | src/routes/memory-md-helpers.ts:35-38 | two trimmed names share a heading line if and only if they are equal up to case |
| MemoryLaws.SaysIsKept | src/routes/memory-md-helpers.ts:39-74 | whatever is appended to whichever section, nothing the document said before is lost |
| MemoryLaws.SaysAfterAppend | src/routes/memory-md-helpers.ts:54-74 | after an append to a section with a one-line name the document says the fact |
| MemoryLaws.AppendTwice | src/routes/memory-md-helpers.ts:7-15 | a second append of the same fact changes nothing if and only if the fact is blank or the section name is one line |
| MemoryImport.Import | src/routes/memory-md-router.ts:171-193 | the import loop with its counters computes the fold of appends up to the first one over the size cap |
| MemoryImport.ImportIsFold | src/routes/memory-md-router.ts:171-193 | that is one append after the other up to the first that changes the document and makes it larger than the cap; the counts are those of the appends that changed it, of those that did not, and of the rest |
| MemoryImport.ImportOutcome | src/routes/memory-md-router.ts:176-193 | every fact counted as added or skipped is settled in the result, the counts add up to all facts, and the first one cut off still does not fit |
| MemoryImport.ImportTwice | src/routes/memory-md-router.ts:176-193 | after an import the document says every fact that was not cut off, and importing again changes nothing, counts included |
| MemoryExport.MapCategory | src/routes/memory-md-helpers.ts:127-133 | the first category that matches the trimmed name wins, and none exactly if none matches |
| MemoryExport.ParseDate | src/routes/memory-md-helpers.ts:149-156 | a date is never empty and made of characters of the line |
| MemoryExport.ParseRows | src/routes/memory-md-helpers.ts:158-239 | the one-pass parser returns exactly the entries the lines give, in input order: a content line with the section and category of the nearest heading above it, each section and lower-case text only where it comes first; and the names of the headings without a section, once each, where they come first |
| MemoryExport.KeyOfFact | src/routes/memory-md-helpers.ts:225-227 | two entries have the same duplicate key exactly if section and lower-case text agree |
| MemoryExport.KeyGiven | src/routes/memory-md-helpers.ts:225-227 | the key of an entry is in the seen set exactly if an earlier line gave that entry |
| MemoryExport.ParseText | src/routes/memory-md-helpers.ts:158-239 | the same from the lines of a text, every entry one line, not empty, and at most 2000 characters |
| ExportLines.HeadingIsRead | src/routes/memory-md-helpers.ts:170-186 | a line is skipped exactly if it is blank, and is a heading exactly if the header pattern matches what is left of it after trimming; its section is that of the first category that matches the name |
| ExportLines.DatedLineIsRead | src/routes/memory-md-helpers.ts:194-235 | a line with a date in front gives its text behind "[date] ", cut to 2000 characters, with its date and tags |
| ExportLines.PlainLineIsRead | src/routes/memory-md-helpers.ts:203-235 | any other line gives its text, without the mark of a list, cut to 2000 characters |
| ExportLines.DateIsRead | src/routes/memory-md-helpers.ts:149-156 | the date is what stands before the first bar, unless that is blank or "unknown" in any case |
| ExportLines.TagsAreRead | src/routes/memory-md-helpers.ts:200-202 | the tags are what stands between the commas, trimmed, in order, blank ones left out |
| MemoryExport.EntriesAreBounded | src/routes/memory-md-helpers.ts:210-223 | every entry specified for a text is one line, not empty, and at most 2000 characters |
| MemoryExport.ExportTwice | src/routes/memory-md-helpers.ts:78-80 | importing the entries parsed from one text again leaves the document as the first import left it |
| FileEdit.SingleEdit | src/agent/agent-executor.ts:776-792 | a single edit goes through exactly if the old text is not empty and occurs once, overlaps counted, and is refused as not found exactly if it does not occur |
| FileEdit.Undo | src/agent/agent-executor.ts:774-796 | what the new text is read as, the new text itself if it is free of patterns, replaces the only occurrence; the reverse edit of that restores the file if and only if it is not empty, occurs once in the result, and the old text is not read as a pattern in its place; it is refused as ambiguous exactly if one of the first two fails |
| FileEdit.PlainExactly | src/agent/agent-executor.ts:796-796 | a new text is written as it is wherever it goes if and only if it is free of replacement patterns |
| FileEdit.PatternIsRead | src/agent/agent-executor.ts:796-796 | each pattern is read as a dollar sign, the match, the text before it or the text after it, and reading goes on behind it |
| FileEdit.SingleAgainstAll | src/agent/agent-executor.ts:794-796 | where a single edit goes through, it and replacing all write the same file if and only if the new text is not read as a pattern in its place |
| FileEdit.DollarsAreRead | src/agent/agent-executor.ts:794-796 | an input on which they write different files |
| FileEdit.SplitRestores | src/agent/agent-executor.ts:794-795 | the pieces hold no match, and joining them with the old text restores the file |
| FileEdit.ReplaceAllStep | src/agent/agent-executor.ts:794-801 | replacing all replaces the first match and then those in the text behind it, and counts each |
| FileEdit.ReplaceAllNothing | src/agent/agent-executor.ts:794-801 | with nothing to look for, the new text is put between every two characters |
| FileEdit.ReplaceAllLength | src/agent/agent-executor.ts:794-801 | replacing all changes the length by the reported count times the difference of the texts, with one exception |
| FileEdit.ReplaceAllFinds | src/agent/agent-executor.ts:776-801 | replacing all goes through exactly if the old text occurs, and then counts at least one unless it is empty |
| Slicer.SliceBySection | src/routes/chat-upload.router.ts:176-509 | the nested scans answer with the first way that finds the label, in the order of the code, and with its exact lines: the PDF page, the line number and 20 lines around it, the section of the first heading with the title, 10 lines around the first key, the block of code and 3 lines more, 15 lines around its name, 10 lines around the row within its sheet or the sheet, the sheet, the slide, 15 lines around the passage or the label itself, and at last the first 3000 characters |
| Slicer.LinesBeforeAre | src/routes/chat-upload.router.ts:210-214 | the line number of a page counts the lines of the pages before it put below each other |
| Slicer.FindBlockEnd | src/routes/chat-upload.router.ts:314-328 | the walk down a code block ends where the maximal run ends |
| Slicer.MatchedSlices | src/routes/chat-upload.router.ts:176-509 | every matched slice that is not a PDF page has its first line not above its last, both in the file, and exactly those lines as text |
| Slicer.FallbackIsTop | src/routes/chat-upload.router.ts:500-508 | the fallback is a prefix of the text and its last line lies in the file |
| Slicer.HeaderSectionsNest | src/routes/chat-upload.router.ts:243-273 | any two Markdown sections of a file are nested or disjoint |
| Slicer.HeaderSectionEnds | src/routes/chat-upload.router.ts:249-272 | a section starts at the first heading with the title and ends before the next one of its level or higher, or with the file |
| Slicer.BlockIsMaximal | src/routes/chat-upload.router.ts:314-328 | a code block is exactly the longest run of following lines that are blank or indented deeper |
| Slicer.SheetRowStaysInSheet | src/routes/chat-upload.router.ts:363-406 | the slice lies in the block of its sheet and holds the row if the sheet has it; otherwise it is the whole block |
| Slicer.AroundHoldsTheLine | src/routes/chat-upload.router.ts:483-498 | the excerpt around the first matching line holds that line |
| EngineLimiter.Limiter.Check | src/middleware/engine-limiter.ts:37-116 | only the state of the named engine of the named instance moves, and the wait reported is the rest of the delay |
| EngineLimiter.Limiter.GetInstanceState | src/middleware/engine-limiter.ts:22-32 | a new instance is entered with fresh engines and a known one is returned as it is |
| EngineLimiter.DelayedExactlyWhen | src/middleware/engine-limiter.ts:63-109 | in any traffic a gen59, quantum or hpe call is admitted if and only if 1500, 300 or 300 ms have passed since the last admitted call for that engine of that instance, or since zero |
| EngineLimiter.OmegaExactlyWhen | src/middleware/engine-limiter.ts:78-94 | in any traffic an omega call is admitted if and only if it is one of the first twenty of its window, which starts with a call more than 60 seconds after the start of the one before |
| EngineLimiter.OmegaRefusedWhenBusy | src/middleware/engine-limiter.ts:78-94 | an omega call is refused only if the one twenty calls before it was made no more than 60 seconds ago |
| EngineLimiter.AdmittedApart | src/middleware/engine-limiter.ts:63-109 | admitted gen59 calls are at least 1500 ms apart, admitted quantum and hpe calls at least 300 ms |
| EngineLimiter.OmegaWindow | src/middleware/engine-limiter.ts:78-94 | at most 20 of the omega calls counted in one window are admitted |
| EngineLimiter.OmegaAnyMinute | src/middleware/engine-limiter.ts:78-94 | at most 40 omega calls are admitted in any 60 seconds |
| EngineLimiter.Serve | src/middleware/engine-limiter.ts:13-116 | in any traffic each call is admitted exactly if it would be with all other instances and engines absent |
| RateLimit.Limiter.Check | src/middleware/rate-limit.ts:27-114 | the two tables move as the key's state machine says, and no other key is touched |
| RateLimit.AdmittedApart | src/middleware/rate-limit.ts:60-107 | two admitted requests of a key are at least 500 ms apart |
| RateLimit.AdmittedExactlyWhen | src/middleware/rate-limit.ts:43-107 | while the clock does not run backwards, a request is answered with the ban if and only if one started less than 60 s ago, and is admitted if and only if none did, 500 ms have passed since zero, and none was admitted within the last 500 ms |
| RateLimit.SixthFastRequestBans | src/middleware/rate-limit.ts:65-92 | five requests within 500 ms of an admitted one are turned away and the sixth starts a ban |
| RateLimit.BannedForAMinute | src/middleware/rate-limit.ts:43-79 | for 60 s after a ban starts every request of the key is answered with the ban |
| RateLimit.SuspiciousExactlyWhen | src/middleware/rate-limit.ts:43-99 | with a clock that can be set back by some number of milliseconds and no further, the branch for suspicious patterns can be reached if and only if that number is more than 899500 |
| RateLimit.NeverSuspicious | src/middleware/rate-limit.ts:65-99 | while the clock does not run backwards at all, the fast-request count stays at 6 or below as well |
| RateLimit.Serve | src/middleware/rate-limit.ts:24-114 | in any traffic each call is answered as at its place in the trace of its own key, so the laws of one trace hold for the calls of each key |
| RateLimit.ServedApart | src/middleware/rate-limit.ts:60-107 | two calls of one key admitted in any traffic are at least 500 ms apart |
| LibraryPaging.SortSorts | src/db/library-queries.ts:81-81 | the list order is a strict order on rows with different keys, and sorting establishes it |
| LibraryPaging.FilterSort | src/db/library-queries.ts:76-83 | filtering before sorting is filtering after it |
| PagingLaws.ListingFacts | src/db/library-queries.ts:33-83 | the plain list is sorted and holds exactly the rows of the table that the tab shows |
| PagingLaws.QueryIs | src/db/library-queries.ts:45-87 | a query returns rows of the tab that the cursor lets through, newest first and at one instant by source and id, no more than asked for, and what it leaves out comes after as many as were asked for |
| PagingLaws.QueryIsPart | src/db/library-queries.ts:60-87 | a query with a cursor returns the first rows of the plain list that are past it |
| LibraryPaging.WalkFollows | src/routes/library-router.ts:84-139 | a walk collects the pages along the chain of cursors up to the first that names no other, and is done exactly if it comes to that one |
| PagingLaws.ParsePrint | src/routes/library-router.ts:84-139 | a printed cursor reads back as the row's position, to the millisecond, exactly if source and id are not empty and hold no bar |
| PagingLaws.PagingIsRight | src/routes/library-router.ts:84-139 | following the cursors ends and yields the plain list, for every page size, if and only if every row is followed by one that its cursor lets through |
| PagingLaws.DistinctMillisSuffice | src/routes/library-router.ts:84-139 | it does when creation times differ by millisecond and the rows can be named |
| PagingLaws.TabIsWalked | src/db/library-queries.ts:33-111 | under the condition above, walking a tab yields exactly its rows that the query matches, and without a query a tab lists as many rows as its count says |
| PagingLaws.TiesBreakPaging | src/db/library-queries.ts:71-81 | it does not for any list with two neighbours created at the same instant |

## Left out

- Tool bodies, processes, files, the LLM client, database and cache drivers, HTTP,
  logging and audit entries are results that come from outside; audit calls of the executor and the
  checkpoints do not throw.
- Regular expressions and letter case are function parameters with the facts that are needed stated
  as predicates (`SoundFold`, `SoundPatterns`, `SoundHost`); the largest-fence search before the
  export parser is not modelled. Of a tool's input the executor model has what the approval patterns
  find in it. Strings are sequences of characters, not of UTF-16 units.
- Hashes are taken as injective and ids as fresh. Action ids are numbers, and a ledger key is the
  idempotency key itself.
- Session fields that only report (`updatedAt`, `iterations`, `tokenUsage`) are not kept.
- Ended sessions can be revived: an interrupt signal or an answer writes the status without a check.
  A stop while paused does not release the wait. Neither is assumed away, and no statement says
  otherwise.
- Stops before the executor exists are not heard by it. An answer after the time-out is recorded
  while the tool stays rejected.
- The daily run count counts registered sessions only and so is no quota.
- The route's own status writes for pause and resume are inputs; its request checks are not modelled.
- Queries on the credit tables are steps of their own, and what a failing query leaves is undone by
  the rollback; a user or workspace id that is not an integer is a failing query. No key expires
  while a run lasts.
- The computed balance is any function whose result is within a hundred-thousandth of the exact sum
  wherever the columns can hold both numbers, which covers the roundings of double precision there;
  which sums a processor rounds which way is not modelled.
- CreditBalance.SerialBalance: assumes that balances of one account are read one transaction at a
  time, because the balance is read without a lock; `CreditBalance.DebitsOverlap` shows that it fails
  otherwise, and `CreditBalance.CommitKeepsSum` gives the exact condition for each commit.
- CreditHandler.Database.Post: a rollback that fails itself is not modelled.
- FileEdit.Undo: speaks of the reverse edit of what was written; `FileEdit.SingleAgainstAll` says
  when that is the new text.
- MemoryLaws.OtherSectionsAreKept: assumes a section name of one line, because a name with a line
  break puts headings of its own into the document.
- MemoryImport.ImportTwice: assumes section names of one line, as the parser's are;
  `MemoryLaws.AppendTwice` shows that no other name settles.
- PagingLaws.PagingIsRight: speaks of a table that does not change while it is walked, as cursors
  cannot promise more.
- Slicer.MatchedSlices: says nothing about the line numbers of PDF pages, which the code calls
  approximate.
- The 8 KB cut made by the caller of the slicer and the 30 s page cache of the library are not
  modelled; a limit in the library request is a whole number.
- EngineLimiter.Limiter.Check: instance and engine names that are properties of every JavaScript
  object are not modelled, nor is the answer after an exception.
- RateLimit.Limiter.Check: the way the key is put together from address and route is not modelled.
- The other routes, controllers and engines of the backend are not part of this model.
