# Danxbot verification

Danxbot dispatches coding agents, watches them, forwards what they say, and keeps its configuration and its
secrets in shape. This project models the parts of it in which many observers share state or in which a
transformation must not lose anything, and proves what they keep:

- **Ending a dispatched job** (`Lifecycle`, `LifecycleInvariants`, `LifecycleTheorems`, `LifecycleOutcomes`,
  `JobMonitor`, `RecoverChain`): self-stop, cancel, timers, process close and error, and the API-error handlers race to
  end one job. Handlers are tasks with a program counter; a step runs one handler from one await to the next.
- **Detecting API errors** (`ErrorDetector`, `RateLimitClock`): the confirmation window as a timed machine against a
  declarative specification, and the wall-clock arithmetic behind a reset time.
- **Tailing session logs** (`TextLines`, `SessionLog`, `SessionEntries`, `SessionLogTail`, `PollGuard`,
  `PollProgress`): an incremental tailer, its sub-agent files, and who may poll when.
- **Forwarding events** (`ForwardedEvents`, `DurableQueue`, `EventForwarder`, `QueueDisk`, `ForwarderHistory`,
  `ForwarderDelivery`, `ForwarderOrder`, `ForwarderLosses`): usage forwarded once per response, a disk queue at the level
  of its text, and every history of overlapping drains and of crashes, down to how much of a write reached the disk.
- **Configuration** (`ListsFile`, `ListEdits`, `ListHistory`, `ListsMigration`, `SettingsJson`, `SettingsAgents`,
  `SettingsRoster`, `Settings`, `SettingsReading`, `SettingsStore`, `WriteQueue`): the list taxonomy
  and its edits, settings split over two files, and the writers' queue and lock.
- **The halt flag** (`CriticalFlag`): read fail-closed, with throttles that clear themselves.
- **Secrets and text** (`ShellText`, `PutCommand`, `PushSecrets`, `PushPool`, `JsonScan`): quoting and its inverse, the
  diff filter and the worker pool, and the brace scan.

What changes state in the source is a class here, or a transition system where handlers interleave; each method is
proved equal to a specification function, and the theorems are about those functions. I/O, clocks and other parties are
parameters or nondeterministic steps. Time stamps, JSON and YAML codecs, time zones and the collation of ids are abstract
functions with the laws that are used of them stated as predicates (`DurableQueue.Faithful`, `QueueDisk.OnlyWholeLinesDecode`,
`CriticalFlag.Faithful`, `Settings.OkDefaults`).

## Where the code falls short of the promise

Each is a lemma with a concrete or general failing family, next to the theorem that says when the promise does hold.

- The close handler checks `running`, awaits a drain and then writes without checking again
  (`LifecycleTheorems.LateCloseWriteEndsTheJobTwice`, `WrittenOnceIffClosesGuarded`).
- A job ended while a recover handler records its count is resumed all the same (`RecoverChain.CanceledJobIsResumed`,
  `ResumesBackedIffUncontended`).
- The stop route accepts every signal, the recover and rate-limit ones too, so a job can become `recovered` or `throttled`
  from outside with nothing behind it (`RecoverChain.OutsideSignalsNeedNothing`, `RecoveredEarnedIff`, `ThrottledFlaggedIff`).
- A null usage on the first line of a message hides the real one (`ForwardedEvents.NullFirstHidesTheUsage`,
  `ForwardedIffFirstUsageIsReal`).
- The queue loses batches in three ways, and in no other (`ForwarderDelivery.AlwaysKeptIff`): a batch appended to an
  unfinished line is lost, and so is the batch of that line if only its line break is missing
  (`ForwarderLosses.AppendToUnfinishedLineLoses`, `BatchAfterCutLineIsLost`); a rewrite cut short loses what it had not
  yet written (`CutRewriteLosesBatch`); and a drain that ends while another has written a batch it has not read removes
  that batch (`RewriteLosesLateBatch`, `OverlappingDrainLosesLateBatch`).
- Overlapping drains can deliver out of order and twice, even without a crash (`ForwarderLosses.OverlapBreaksOrder`); one
  drain at a time never delivers first copies out of order (`ForwarderOrder.SerialFirstDeliveriesInOrder`).
- A settings write to the drift file alone, in the same millisecond as the contract file's stamp, does not surface
  (`SettingsStore.WriteSurfacesIff`).
- A lock file found stale is unlinked without looking again, so a process inside can lose its lock file: one that outlives
  the stale age, and also one that has just created its own after another's grew stale (`WriteQueue.StaleLockIsShared`,
  `FreshHolderIsEvicted`, `AlwaysExclusiveIff`).
- The comment on `parsePutParameterCommand` promises an exact inverse; the command is collapsed after the value has been
  quoted, so runs of white space in a secret become one space, in the parser and in the store alike
  (`PutCommand.ParseReturnsTheValueIff`).
- Around an offset change a valid reset time can be refused: because it is more than 24 hours away, with or without a
  roll-over to the next day, or, though only hours away, because the roll-over stays on the same wall day and so behind now,
  which a comment in the code calls unreachable (`RateLimitClock.LateResetIsRefused`, `FarResetIsRefused`,
  `NearResetIsRefused`, `AcceptedIff`).
- A settings patch whose preparation mode is present but undefined gives no value for it, and yet changes it from `separate`
  to `combined` (`SettingsStore.PrepModeChangesIff`).

## Model

| member | source | states |
|---|---|---|
| LifecycleTheorems.WrittenOnceIffClosesGuarded | src/agent/process-utils.ts:163-219 | Over every interleaving: a job leaves `running` by a terminal write, and is written at most once exactly in the runs in which every close handler, back from its drain, finds the job still running (it does not look again) |
| LifecycleTheorems.OneStatus | src/agent/attach-monitoring-stack.ts:354-412 | In those runs the status is `running` up to some moment and one and the same ended status ever after |
| LifecycleTheorems.OneCallback | src/agent/agent-stop.ts:70-104 | In those runs `onComplete` fires at most once, whichever of self-stop, cancel, timers, close, error and API error race |
| LifecycleTheorems.OneRow | src/agent/agent-cleanup.ts:125-194 | In those runs whatever row is finalized is the projection of the status the job keeps |
| LifecycleTheorems.OneEnding | src/agent/attach-monitoring-stack.ts:354-475 | The three together: one status for good, one callback, a row that agrees with it |
| LifecycleTheorems.EveryRun | src/agent/attach-monitoring-stack.ts:414-475 | In every run, guarded or not: one cleanup body, at most one finalize, one callback and one PUT a handler, cleanup only after the job has ended, and the terminal PUT of self-stop and cancel only after finalize unless the drain failed |
| LifecycleTheorems.PutAfterFinalize | src/agent/launcher.ts:188-214 | A terminal PUT in the log of a tracked job has a finalize before it |
| LifecycleTheorems.LateCloseWriteEndsTheJobTwice | src/agent/process-utils.ts:168-193 | A reachable run in which a cancel lands during the close handler's drain: the canceled job becomes completed and announces its end twice |
| LifecycleOutcomes.EveryEnding | src/agent/agent-stop.ts:56-83 | After any run that leaves the job running, whatever comes next: it becomes `completed` exactly when a stop found a handle and carried the completed signal or a close handler came back with exit 0, and likewise `canceled`, `failed`, `timeout`, `recovered` and `throttled` by exactly the observers that mean them, spelled out per step; otherwise it stays `running` |
| LifecycleOutcomes.LateCloseOutcome | src/agent/process-utils.ts:168-193 | A close handler back from its drain gives the status of its exit code whatever the job has become meanwhile |
| LifecycleOutcomes.RecoveryIsNumbered | src/agent/attach-monitoring-stack.ts:519-643 | A recovery is numbered one past the last and recorded first when there is a row; up to the third it is continued under its number, past the third the halt flag comes first and the job fails |
| LifecycleOutcomes.RowsAreLiteral | src/agent/agent-cleanup.ts:125-194 | In guarded runs a row is finalized as completed only for a completed job, and so on, row by row |
| LifecycleOutcomes.SettledIsFinalized | src/agent/agent-cleanup.ts:125-194 | Once the teardown of a tracked job has settled, its row has been finalized unless the drain failed |
| LifecycleOutcomes.EndingsAreAnnounced | src/agent/agent-stop.ts:96-103 | In every run each handler that gave the job its status and has returned has called back, has reported the status exactly when a PUT is configured for it, and has the teardown under way |
| LifecycleOutcomes.StopReachesItsEnd | src/agent/agent-stop.ts:84-103 | After any run in which a stop awaits its process tree's end, six more steps bring it to its own: the callback is made and the planned resume, if any, posted under its number |
| LifecycleInvariants.RunKeepsInv | src/agent/attach-monitoring-stack.ts:354-475 | The state invariant behind these (what each task knows at each await, which events may be in the log) holds in every run |
| LifecycleInvariants.RunKeepsOrder | src/agent/agent-cleanup.ts:125-194 | In every run the log stays in order: drain, finalize, callbacks and PUTs come once each and in the order of the teardown |
| JobMonitor.AgentJob.JobStop | src/agent/agent-stop.ts:70-104 | The stop handler's first segment, as field updates with its own case per signal, is exactly the lifecycle step `CallStop` |
| JobMonitor.AgentJob.CancelJob | src/agent/launcher.ts:188-214 | Cancelling, as field updates, is the lifecycle's cancel step |
| JobMonitor.AgentJob.OnClose | src/agent/process-utils.ts:163-219 | The close handler's first segment is the lifecycle step for a closed process |
| JobMonitor.AgentJob.HandleApiErrorRecover | src/agent/attach-monitoring-stack.ts:519-643 | The recover handler's first segment is the lifecycle step for a confirmed stream-idle error |
| JobMonitor.AgentJob.HandleRateLimitThrottle | src/agent/attach-monitoring-stack.ts:666-738 | The throttle handler is the lifecycle step for a confirmed rate limit |
| JobMonitor.AgentJob.RunCleanup | src/agent/agent-cleanup.ts:125-194 | The shared teardown body is the lifecycle's cleanup step |
| JobMonitor.AgentJob.Perform | src/agent/attach-monitoring-stack.ts:354-475 | Every lifecycle step, performed on the mutable job, gives exactly the state the transition system says |
| RecoverChain.RecoveredEarnedIff | src/agent/attach-monitoring-stack.ts:519-643 | In every run: each handler that made the job `recovered` has planned the resume that continues its chain, exactly when no stop from outside found the job running with a handle and carried the recover signal |
| RecoverChain.ThrottledFlaggedIff | src/agent/attach-monitoring-stack.ts:666-738 | In every run: each `throttled` in the log comes right after a throttle flag, exactly when no stop from outside found the job running with a handle and carried the rate-limit signal |
| RecoverChain.StatusProvenance | src/agent/attach-monitoring-stack.ts:519-738 | So, unless stopped from outside with the very signal, a job that is `recovered` had a recover context and a planned count in (inherited, cap], and one that is `throttled` had a context and wrote its flag |
| RecoverChain.OutsideSignalsNeedNothing | src/worker/dispatch.ts:1181-1207 | After any run that leaves a job with a handle running, whatever its context and count, the stop route makes it `recovered` with no resume planned, or `throttled` with no flag written for it |
| RecoverChain.ResumesBackedIffUncontended | src/agent/attach-monitoring-stack.ts:519-643 | Every handler that will post a resume has itself made the job `recovered` exactly in the runs in which nothing ended the job while a count was being recorded |
| RecoverChain.CanceledJobIsResumed | src/agent/attach-monitoring-stack.ts:570-620 | A reachable run in which a job cancelled during that await is resumed all the same |
| RecoverChain.OneResume | src/agent/attach-monitoring-stack.ts:519-643 | With guarded closes and uncontended recovers a resume is posted at most once, and only for a job that ends `recovered` |
| RecoverChain.ChainIsBounded | src/agent/attach-monitoring-stack.ts:87 | Along any chain of resumes the inherited count strictly increases and never exceeds the cap, so a chain has at most three recovery links, whatever runs its jobs have |
| ErrorDetector.DetectorRefinesSpecification | src/agent/api-error-detector.ts:163-294 | The detector fires exactly the confirmed windows, each one window after the synthetic entry that opened it, with strictly increasing epochs; a window is open or confirmed by a declarative timed definition that does not mention the detector's fields and says which entries arm, which clear, and that a sub-agent's do neither |
| ErrorDetector.OneFirePerEpoch | src/agent/api-error-detector.ts:251-294 | Two confirmed windows never share an epoch and never overlap |
| ErrorDetector.ApiErrorDetector.HandleEntry | src/agent/api-error-detector.ts:203-249 | An entry updates the fields exactly as the timed transition function says |
| ErrorDetector.ApiErrorDetector.ArmOrIgnore | src/agent/api-error-detector.ts:251-294 | Arming is ignored while a confirmation is pending or the epoch has fired |
| ErrorDetector.ApiErrorDetector.OnTimer | src/agent/api-error-detector.ts:258-290 | A due timer fires at most once, at its deadline, unless stopped or the epoch has fired |
| RateLimitClock.AcceptedIff | src/agent/api-error-detector.ts:360-436 | In any zone: a text names an instant exactly when its time is valid, its zone is known, and the offsets at now, of today's conversion and of the rolled-over one leave a wait in (0, 24 h]; `WaitMs` says which offsets in which case |
| RateLimitClock.RefusalNeedsOffsetChange | src/agent/api-error-detector.ts:402-435 | A valid text in a known zone is refused only if the offset differs between now, today's conversion, a day after it and the rolled-over conversion |
| RateLimitClock.SteadyOffsetResume | src/agent/api-error-detector.ts:360-436 | Where the offset does not change for a day to either side, and the length of the offset itself, a valid text always gives the least instant strictly after now at which the wall reads that time |
| RateLimitClock.ResumeIsWithinADay | src/agent/api-error-detector.ts:404-435 | In any zone the instant named lies in (now, now + 24 h], and the wall reads the requested time then exactly when the offset of the conversion used is, up to whole days, the one in force there |
| RateLimitClock.WallClockToUtcReads | src/agent/api-error-detector.ts:490-528 | The conversion lands on the wall time asked for exactly when the refined offset agrees, up to whole days, with the one in force at the result |
| RateLimitClock.ClassifiedResumeIsWithinADay | src/agent/api-error-detector.ts:313-358 | A text classified as a rate limit names an instant after now and at most 24 h on |
| RateLimitClock.ClassifiedIff | src/agent/api-error-detector.ts:313-358 | A text is classified as a rate limit exactly when it speaks of one and names a valid time in a known zone with a wait in (0, 24 h], and then with exactly that wait; otherwise it is a plain recover |
| RateLimitClock.LateResetIsRefused | src/agent/api-error-detector.ts:425-435 | The first guard after a roll-over: on a day of 25 hours 7:20 am, asked a millisecond after it, is refused as 24 h 59 min away |
| RateLimitClock.NearResetIsRefused | src/agent/api-error-detector.ts:402-435 | The second guard: on that day 12:20 am, asked at 9 pm, rolls over to the same wall day, lies behind now and is refused, although the wall reads it 4 h 20 min later |
| RateLimitClock.FarResetIsRefused | src/agent/api-error-detector.ts:425-435 | The first guard without a roll-over: on that day 11:59 pm, asked at midnight, is refused as 24 h 59 min away |
| SessionLog.EveryChunkingIsOnePass | src/agent/session-log-watcher.ts:683-700 | Reading a file in any chunks, cut at any characters, gives the entries, in order and once each, that one pass over it gives, and leaves in the buffer exactly the unterminated tail |
| SessionLog.FeedTwice | src/agent/session-log-watcher.ts:683-700 | Two reads one after the other are one read of both texts |
| SessionLog.ParentAnnouncesOnce | src/agent/session-log-watcher.ts:718-750 | A parent stream synthesizes at most one announcement, and none once an init of either kind has been seen |
| SessionLog.DeltasAddUp | src/agent/session-log-watcher.ts:210-218 | Where all time stamps are dates, the deltas of the entries add up to the time between the first and the last; synthesized announcements take none |
| SessionLog.SubagentsNeverAnnounce | src/agent/session-log-watcher.ts:718-726 | A sub-agent stream never synthesizes an announcement |
| SessionEntries.EntriesAreWhatLinesSay | src/agent/session-log-watcher.ts:210-334 | Over one pass of any text the entries are, in line order, exactly what the lines say: an assistant line with a message gives its content, its non-empty message id and usage; a user line whose array holds a tool result gives that array; init and result lines give their session, model or subtype; other lines give nothing; the announcement comes right before the line that introduces the session; each entry has its line's time stamp, or the clock's, and the time since the entry before |
| TextLines.LinesPartitionTheText | src/agent/session-log-watcher.ts:683-700 | The finished lines, each with its line break, and the rest are the text |
| TextLines.LinesOfAppend | src/agent/session-log-watcher.ts:683-690 | Cutting a text anywhere, the rest completes the line that was cut |
| SessionLogTail.SessionLogWatcher.ProcessText | src/agent/session-log-watcher.ts:683-700 | The buffer loop leaves the tail where feeding the text to its stream would, and speaks only for that tail |
| SessionLogTail.SessionLogWatcher.HandleRawEntry | src/agent/session-log-watcher.ts:718-763 | Converting one entry, with the synthesized init and the session flags, is the pass function's step |
| SessionLogTail.SessionLogWatcher.RefreshLineage | src/agent/session-log-watcher.ts:643-657 | A lineage keeps what it knows and takes up the agent type and the parent session once they are known |
| SessionLogTail.SessionLogWatcher.PollFile | src/agent/session-log-watcher.ts:532-589 | Whatever a poll finds of a file that only grew, the tail still equals one pass over what it has read, and its offset moved by exactly the characters read |
| SessionLogTail.SessionLogWatcher.PollSubagent | src/agent/session-log-watcher.ts:513-529 | Polling one sub-agent file leaves every other tail, and the parent's, equal to one pass over its own file |
| SessionLogTail.SessionLogWatcher.AdoptSubagent | src/agent/session-log-watcher.ts:595-627 | A new sub-agent file is tailed from its start, once |
| SessionLogTail.SessionLogWatcher.Poll | src/agent/session-log-watcher.ts:513-529 | After any poll, stopped midway or not, every tail equals one pass over what it has read; unless stopped, every file, those that appeared included, has been read as far as the poll found it |
| PollGuard.AtMostOneBody | src/agent/session-log-watcher.ts:513-529 | Under any mix of ticks, start, drain and stop at most one poll body is under way, and the flag says whether one is |
| PollGuard.DrainSeesEverything | src/agent/session-log-watcher.ts:431-441 | When a drain returns, every byte the file held at its call has been read, if the watcher ran on and the drain's own reads succeeded in full |
| PollGuard.RunKeepsInv | src/agent/session-log-watcher.ts:390-441 | What each suspended task knows of offsets and file length holds in every run |
| PollProgress.PollReadsTheFile | src/agent/session-log-watcher.ts:513-567 | After any run, a tick or drain that finds the file known, the watcher running and nobody polling brings the offset to the end of the file in the steps of one body, whatever was there |
| PollProgress.WaitingDrainReadsTheFile | src/agent/session-log-watcher.ts:431-441 | A drain called while another body is at work waits it out and then reads to the end of the file itself |
| PollProgress.BodyEnds | src/agent/session-log-watcher.ts:513-529 | From any moment the body under way ends after a bounded number of its own steps, lowers the flag, and leaves every other task alone |
| PollProgress.IdleTick | src/agent/session-log-watcher.ts:513-516 | A tick while another polls, with no file known or after a stop reads nothing |
| PollProgress.StartFindsTheFile | src/agent/session-log-watcher.ts:390-403 | A start on a stopped watcher sets it running and searches; what it finds is tailed from its start, or from its end if asked to |
| PollProgress.StopIsQuiet | src/agent/session-log-watcher.ts:406-412 | A stop changes nothing but that the watcher runs |
| ForwardedEvents.TotalIsOnePerMessage | src/agent/laravel-forwarder.ts:403-424 | Forwarded usage adds up to the first usage of each distinct message id plus every usage without an id |
| ForwardedEvents.ForwardedOncePerMessage | src/agent/laravel-forwarder.ts:403-424 | An entry's usage is forwarded in exactly one event if it is the first of its message (or has no id) and is not null, and in none otherwise |
| ForwardedEvents.OneCarrierPerEntry | src/agent/laravel-forwarder.ts:108-120 | The usage is in the first text event, else the first tool call, else an added thinking event, and nowhere else |
| ForwardedEvents.OtherEventsAreUntouched | src/agent/laravel-forwarder.ts:229-309 | Apart from usages and the events that exist only to carry one, forwarding is what it would be without deduplication |
| ForwardedEvents.UserEvents | src/agent/laravel-forwarder.ts:292-305 | A user entry gives, in block order, exactly one tool result event for each tool result block, with its id and the entry's lineage, and nothing else |
| ForwardedEvents.AssistantEvents | src/agent/laravel-forwarder.ts:242-287 | Apart from a thinking event added for a usage with nowhere to go, an assistant entry gives, in block order, exactly one agent event with the text of each non-empty text block and one tool call with name and id of each named tool use block, all with its lineage |
| ForwardedEvents.InitEvents | src/agent/laravel-forwarder.ts:229-241 | An init entry gives one session event with its id; entries of other types give none |
| ForwardedEvents.MessageUsageIsAnyLines | src/agent/laravel-forwarder.ts:403-424 | Where the lines of one response agree, the usage counted for a message is the one on any of its lines |
| ForwardedEvents.ForwardedIffFirstUsageIsReal | src/agent/laravel-forwarder.ts:403-424 | Each message has one first line, and its usage is forwarded exactly when that line's usage is not null |
| ForwardedEvents.NullFirstHidesTheUsage | src/agent/laravel-forwarder.ts:411-424 | A null usage on the first line of a message hides the real one on the next |
| ForwardedEvents.ComputeAssistantEvents | src/agent/laravel-forwarder.ts:262-287 | The loop over content blocks and the usage written in place give the specified events |
| DurableQueue.PeekOfText | src/agent/event-queue.ts:80-98 | What is rewritten is what is read back |
| DurableQueue.AppendAddsTheBatch | src/agent/event-queue.ts:33-36 | On a file of finished lines an append adds exactly the batch, last |
| DurableQueue.AppendToUnfinishedLine | src/agent/event-queue.ts:33-36 | On a file that ends in an unfinished line an append keeps what could be read and adds the batch exactly when that line held no batch and the glued line decodes to the new one |
| DurableQueue.TornLineHidesNothing | src/agent/event-queue.ts:43-64 | A torn last line leaves the batches before it readable |
| DurableQueue.EventQueue.Enqueue | src/agent/event-queue.ts:33-36 | Appends the encoded batch as a line; nothing for an empty batch |
| DurableQueue.EventQueue.PeekAll | src/agent/event-queue.ts:43-64 | Reads exactly the decodable lines, in order, skipping the others |
| DurableQueue.EventQueue.Retain | src/agent/event-queue.ts:80-98 | Leaves exactly the given batches, in a file of finished lines, or no file for none |
| EventForwarder.PostEventsWithRetry | src/agent/laravel-forwarder.ts:154-188 | The outcome is that of the first attempt that is not a reason to retry |
| EventForwarder.FirstAnswerDecides | src/agent/laravel-forwarder.ts:154-188 | A batch waits exactly when every attempt failed; otherwise the first 2xx or 4xx after failures only decides |
| EventForwarder.DrainQueue | src/agent/laravel-forwarder.ts:195-223 | Resolves the longest prefix of pending batches that need not wait and keeps exactly the rest, in order; an empty queue is left as it is |
| EventForwarder.LaravelForwarder.DrainAndSend | src/agent/laravel-forwarder.ts:346-386 | Whatever the file held: resolved batches followed by the queue are what the file gives with the batch in memory appended, the longest prefix that need not wait resolved; on a file of finished lines that is the old queue followed by the batch |
| EventForwarder.LaravelForwarder.Consume | src/agent/laravel-forwarder.ts:426-446 | Events join the batch as `UserEvents`, `AssistantEvents` and `InitEvents` say, usages already seen taken out; a batch of ten or more goes through the queue, whatever its file held, a smaller one leaves it alone and always has a timer |
| QueueDisk.PeekOfDisk | src/agent/event-queue.ts:43-64 | Whatever appends and crashes left in the file, what is read from its text is exactly the batches whose lines are whole and hold nothing else, in order |
| QueueDisk.ShortRewriteLoses | src/agent/event-queue.ts:80-98 | A rewrite cut by a crash leaves readable exactly the batches whose encodings had been written out, all of them when at most the last line break is missing |
| ForwarderHistory.RunRefines | src/agent/laravel-forwarder.ts:195-223 | In every run the numbered batches stand for the code's own texts: the file's text and what each drain has in hand are the code's, and what the file gives is what the numbered disk calls readable |
| ForwarderDelivery.AlwaysKeptIff | src/agent/laravel-forwarder.ts:346-386 | In every history of consume, overlapping drains, crashes in the middle of writes and replays: each batch whose line was written stays resolved or readable, at every moment, exactly when no step appends to an unfinished line that matters, rewrites the file over unresolved batches written since the drain read it, or is a rewrite cut before the end of its last unresolved batch |
| ForwarderDelivery.StepKeepsIff | src/agent/event-queue.ts:33-107 | From any moment at which every batch is kept, in any run, a step keeps every batch exactly when it is harmless |
| ForwarderOrder.SerialFirstDeliveriesInOrder | src/agent/laravel-forwarder.ts:195-223 | One drain at a time, in every history of consume, crashes, also in the middle of a write, and replays, whatever is lost: each batch resolved for the first time was written after all resolved before it |
| ForwarderOrder.FirstDeliveriesInOrder | src/agent/laravel-forwarder.ts:195-223 | In the histories that keep every batch, drains overlapping or not, the same holds, and a batch is resolved only after every batch written before it |
| ForwarderOrder.AlwaysContiguousIff | src/agent/laravel-forwarder.ts:195-223 | One drain at a time, in every history of crashes and replays: at every moment what can be read is a contiguous suffix of what was written, with all before it resolved, exactly when each append starts a line and each rewrite is whole, but for cut writes that touch nothing unresolved and leave no hole |
| ForwarderOrder.ConsumedIsConserved | src/agent/laravel-forwarder.ts:426-466 | Without crashes, one drain at a time, whenever none is under way: the batches resolved, each once, then those read from the file, then what is in memory are exactly what was consumed |
| ForwarderLosses.AppendToUnfinishedLineLoses | src/agent/event-queue.ts:33-36 | From any reachable moment an append to an unfinished line loses the new batch, and the batch of that line if it lacked only its line break |
| ForwarderLosses.BatchAfterCutLineIsLost | src/agent/laravel-forwarder.ts:346-386 | A first batch cut anywhere while it is appended, even with only its line break missing, and a second one appended: neither can be read nor was sent, although the first could be read before if it was complete |
| ForwarderLosses.UnreadableFileSurvivesReplay | src/agent/laravel-forwarder.ts:195-201 | A file that gives no batch, such as a torn line alone, is left as it is by a replay |
| ForwarderLosses.CutRewriteLosesBatch | src/agent/event-queue.ts:80-98 | A run in which a batch has to wait and a crash cuts the rewrite: it is lost unless its line was complete |
| ForwarderLosses.RewriteLosesLateBatch | src/agent/laravel-forwarder.ts:218-222 | From any reachable moment the rewrite or removal of the file loses every unresolved batch written since that drain read it |
| ForwarderLosses.OverlappingDrainLosesLateBatch | src/agent/laravel-forwarder.ts:440-444 | A run of two overlapping drains, whatever the first one's post gives: the second batch is in the file the moment before the first drain ends and gone after, and was never sent |
| ForwarderLosses.OverlapBreaksOrder | src/agent/laravel-forwarder.ts:440-444 | A run of three overlapping drains without a crash or a failed answer: the third batch is resolved before the second, and the first twice |
| ListsFile.ValidateLists | src/lists-file.ts:316-395 | Reports exactly the faults that are true of the file, each as its own diagnostic |
| ListsFile.AcceptedIffNoFault | src/lists-file.ts:305-315 | There is no fault exactly when shapes, distinct and untombstoned ids, non-negative orders and one default among at least one list per type all hold |
| ListsFile.HexColorIs | src/lists-file.ts:82-86 | A colour is a hash sign and three or six hexadecimal digits of either case |
| ListsFile.ReadReturnsWhatWasWritten | src/lists-file.ts:265-287 | A file of well-shaped lists reads back as it was written |
| ListsFile.FileIsReadAs | src/lists-file.ts:265-302 | Whatever a file holds, what is read are, in order, exactly the entries with all their parts and either a proper colour or none, each with its own parts and, for a missing colour, the seed's colour of its type; and exactly the non-empty buried ids |
| ListEdits.CreateKeeps | src/lists-file.ts:599-641 | Creating with a fresh id keeps a file well formed, whatever was asked |
| ListEdits.UpdateKeeps | src/lists-file.ts:682-728 | An accepted patch keeps a file well formed, promotions demoting the previous default |
| ListEdits.DeleteKeeps | src/lists-file.ts:777-819 | An accepted delete keeps a file well formed and buries the id |
| ListEdits.DeleteReassigns | src/lists-file.ts:790-818 | The reassignment target is the one default of its type afterwards, and the least sibling by order and id if the default itself was deleted |
| ListEdits.SwapKeeps | src/lists-file.ts:833-873 | An accepted swap keeps a file well formed |
| ListEdits.CreateResult | src/lists-file.ts:599-680 | Refused exactly when, field by field, a name or type is missing or wrong or an order, default or colour given is; the new list comes last with the fields asked for, else with an order one past the last of its type, the colour of the type's default and no default; of the others only a default of the type may change, by losing its place |
| ListEdits.UpdateResult | src/lists-file.ts:682-754 | Refused exactly when, field by field, the patch is ill-formed, the list unknown, or its default taken away; otherwise in the one list named each of name, order, default and colour is what the patch gives, or as before where it gives none, identity and type stay, and only a demoted default changes besides |
| ListEdits.DeleteResult | src/lists-file.ts:777-819 | Refused exactly for an unknown id or the last of a type; otherwise exactly that list goes, the rest keep their places, and only the reassignment target may become default |
| ListEdits.SwapResult | src/lists-file.ts:833-877 | Refused exactly for an empty or repeated id, an unknown list, or lists of two types; otherwise the two lists named take each other's order and nothing else changes |
| ListEdits.SwapTwiceIsIdentity | src/lists-file.ts:833-873 | Swapping twice changes nothing |
| ListEdits.SwapKeepsOrders | src/lists-file.ts:864-872 | A swap keeps the multiset of orders |
| ListHistory.AcceptedIffWellformed | src/lists-file.ts:316-395 | The validator accepts exactly the well-formed files |
| ListHistory.EveryHistoryIsAccepted | src/lists-file.ts:231-244 | Every history of edits from the seed, with fresh ids, stays accepted |
| ListHistory.SeedIs | src/lists-file.ts:222-244 | The seed, list by list: name, type, order, default and colour |
| ListHistory.EditsTakeEffect | src/lists-file.ts:599-877 | After any history a refused edit leaves the file as it is; a created list is there under its name and type, an updated one has taken the patch, a deleted one is gone and buried, two swapped ones have each other's order |
| ListHistory.DeletedIsNeverRevived | src/lists-file.ts:811-818 | A deleted id never names a list again, however the history goes on |
| ListHistory.TypesNeverChange | src/lists-file.ts:682-728 | A list that is there before and after a stretch of history has the same type |
| ListHistory.EveryHistoryReadsBack | src/lists-file.ts:265-287 | Every history's file reads back as it was written |
| ListsMigration.MigrateListsFile | src/lists-file-migrate-blocked.ts:61-127 | Migrates exactly when there is a blocked list with an id and the result is accepted; otherwise leaves the file alone |
| ListsMigration.MigrationIsComplete | src/lists-file-migrate-blocked.ts:84-112 | A valid seven-type file becomes an accepted six-type one; no blocked list is left, all their ids are buried and old tombstones stay |
| ListsMigration.Buried | src/lists-file-migrate-blocked.ts:100-104 | Afterwards exactly the old tombstones and the removed ids are buried |
| ListsMigration.RerunChangesNothing | src/lists-file-migrate-blocked.ts:96-98 | Running the migration again, on any file, changes nothing |
| Settings.NormalizeIsIdempotent | src/settings-file.ts:1163-1212 | Reading what is written for a value that was read gives that value, whatever the file first held |
| Settings.NormalizedIsCanonical | src/settings-file.ts:1163-1212 | Every value read keeps the caps and shapes: at most five agents with distinct well-formed names, seven levels in order, a threshold of at least one, a known writer |
| SettingsReading.SettingsAreReadAs | src/settings-file.ts:1163-1245 | Whatever JSON the file holds, each section is read as its own law says, field by field: toggles, agents, effort levels, threshold, preparation mode, display, meta block |
| SettingsReading.AgentIsReadAs | src/settings-file.ts:1040-1079 | An agent record is readable exactly when its texts, type, capabilities and schedule are, and is then read field by field: known capabilities in order, windows in order, strikes as written if they are well counted and none otherwise, a broken state only if complete |
| SettingsReading.WordsAre | src/settings-file.ts:844-866 | The words for capabilities, strike statuses, evaluator states and efforts are exactly those of the source |
| SettingsReading.WindowIs | src/settings-file.ts:820-825 | A text is a schedule window exactly when it is two times of day, from 00:00 to 23:59, with a dash between |
| Settings.NormalizeEffortLevels | src/settings-file.ts:1119-1139 | One pass over the list gives, for each of the seven levels in order, the first entry that names it, or the built-in |
| Settings.LegacyToggleIsCarriedOver | src/settings-file.ts:1176-1192 | A poller toggle under the legacy name is read, written under the new name alone, and read again unchanged |
| Settings.LevelsReadBack | src/settings-file.ts:1119-1139 | Levels that were read are read back |
| SettingsAgents.AgentReadsBack | src/settings-file.ts:1040-1079 | A record that was read is read back unchanged from what is written for it |
| SettingsAgents.AgentIsCanonical | src/settings-file.ts:1040-1079 | Every record read has capabilities, a schedule in a real zone, strikes within bounds and no empty optional text |
| SettingsRoster.NormalizeAgents | src/settings-file.ts:1081-1107 | The loop takes readable records under well-formed names, in order, until five |
| SettingsRoster.RosterReadsBack | src/settings-file.ts:1081-1107 | A roster that was read is read back unchanged, in its order |
| SettingsRoster.MergedAgents | src/settings-file.ts:1435-1438 | Name by name: agents a patch does not name survive even at the cap; named ones become what the patch says or go; new ones are added while there is room; nothing else appears |
| SettingsStore.WriteReadsBack | src/settings-file.ts:1390-1551 | After any write, read from both files, each patched field has its normalized patch value (display by section) and every other field its previous value |
| SettingsStore.UnnamedAgentsSurvive | src/settings-file.ts:1435-1438 | On-disk agents that a patch does not name are read back unchanged after the write, even when the roster is full |
| SettingsStore.NamedAgentsAreMerged | src/settings-file.ts:1435-1438 | After any write of both files, name by name: no agents in the patch leave all as they were; one the patch names is read as the patch says, or is gone if that cannot be read, and a new one may be missing only when the roster holds five |
| SettingsStore.MutateReadsBack | src/settings-file.ts:1807-1870 | Rewriting the agents map changes the agents, to what can be read of the new map, and nothing else but the meta block |
| SettingsStore.MutateStamps | src/settings-file.ts:1807-1870 | Rewriting the agents map stamps the contract file with the time and the writer |
| SettingsStore.WriteSurfacesIff | src/settings-file.ts:1247-1258 | Whatever file or files a write goes to, its stamp is the meta block read afterwards exactly when the file that is not written does not outdo it: a contract write also wins a tie, a drift write only a later date, and any stamp with a date beats one without |
| SettingsStore.PrepModeChangesIff | src/settings-file.ts:1454-1459 | For every patch and both files: the preparation mode read after a write differs from the one before exactly when the patch gives the other mode, or has the field undefined while the mode was `separate` |
| SettingsStore.Store.WriteSettings | src/settings-file.ts:1390-1412 | Writes the contract file, the drift file or both by what the patch touches, stamps the contract file when it touches nothing, and returns the merged reading |
| SettingsStore.Store.MutateAgents | src/settings-file.ts:1807-1870 | Rewrites only the contract file |
| WriteQueue.OneAtATimeInOrder | src/settings-file.ts:1368-1388 | In each process writes of one path begin in the order in which they were enqueued, rejected or not, one at a time, and the map entry is gone only when none is unfinished |
| WriteQueue.AlwaysExclusiveIff | src/lists-file.ts:529-577 | Over processes that may die anywhere: whoever is inside owns the lock file, at every moment, exactly in the runs in which no unlink removes the lock file of a process that is inside |
| WriteQueue.MutualExclusion | src/settings-file.ts:1634-1684 | In every run in which no unlink does, no two processes are inside at once |
| WriteQueue.LockIffInside | src/lists-file.ts:529-577 | In every run in which nobody dies and no unlink evicts, the lock file is there exactly while some process is inside, and that process made it |
| WriteQueue.TryingGetsIn | src/lists-file.ts:533-549 | Hence, where nobody is inside, whoever tries gets in with a lock file of its own |
| WriteQueue.BodyEnds | src/lists-file.ts:540-546 | In every run a process inside that releases leaves no lock file and its write settled as the body ended; one that gives up leaves the lock file alone and its write rejected |
| WriteQueue.NextWriteBegins | src/lists-file.ts:438-450 | In every run, once the writes before it have settled, rejected or not, the next write of a living process can begin, and tries for the lock |
| WriteQueue.EntryGoes | src/lists-file.ts:444-450 | In every run cleaning up after the last write removes the map entry, and after an earlier one leaves the later one's |
| WriteQueue.StaleIff | src/lists-file.ts:550-560 | A process decides to unlink exactly when the lock file it finds is more than 30 seconds old |
| WriteQueue.TwoWritesInTurn | src/lists-file.ts:529-577 | Two processes write one after the other: the second gets in |
| WriteQueue.EvictionIsShared | src/lists-file.ts:550-560 | At the first unlink that does, one step more and two are inside |
| WriteQueue.NoStaleLockEvictsNobody | src/lists-file.ts:550-560 | Runs in which no lock file is found past the stale age are such runs |
| WriteQueue.FreshHolderIsEvicted | src/lists-file.ts:550-560 | Whenever two processes try while the lock file is stale, the one that takes it over can be evicted at once, with a fresh lock file, by an unlink the other decided on the stale one |
| WriteQueue.AbandonedMomentIsReached | src/lists-file.ts:529-577 | Such a moment is reachable: a holder dies inside, and two others wait until its lock file is stale |
| WriteQueue.StaleLockIsShared | src/lists-file.ts:529-577 | Whenever a holder's lock outlives the stale age while another process tries, both can end up inside |
| WriteQueue.StaleMomentIsReached | src/lists-file.ts:529-577 | Such a moment is reachable with two processes and one write each |
| WriteQueue.PathQueue.EnqueueWrite | src/lists-file.ts:438-452 | Chains on the current entry and becomes the entry |
| WriteQueue.PathQueue.Finally | src/lists-file.ts:444-450 | Removes the entry only if it is still this write |
| CriticalFlag.AbsentOnlyWhenExpired | src/critical-failure.ts:308-352 | Whatever the file holds, a read takes it for absent exactly when it is a complete throttle payload whose deadline parses and has passed |
| CriticalFlag.WrittenIsReadBackIff | src/critical-failure.ts:359-404 | What was written is read back, empty optionals dropped, exactly when its required texts are filled in and, for a throttle, its deadline parses and is still to come |
| CriticalFlag.ReadReturns | src/critical-failure.ts:202-352 | A read of any file returns what a well-formed halt or a throttle still to come says, field by field, and for anything else a stand-in that halts, spelled out |
| CriticalFlag.RequestIsReadBack | src/critical-failure.ts:359-404 | An accepted request with its texts filled in is read back as asked, each field of the request in its place, for a throttle until its deadline |
| CriticalFlag.ThrottleGoesIff | src/critical-failure.ts:308-352 | Over any reads the throttle's file is gone exactly when one at or past the deadline could remove it |
| CriticalFlag.ThrottleHaltsAtMostADay | src/critical-failure.ts:308-352 | For a throttle made from a classified rate limit, over any reads in time order, a read halts exactly until the reset, which is at most 24 h after the error |
| CriticalFlag.FlagFile.ReadFlag | src/critical-failure.ts:308-352 | Returns the payload, the fail-closed stand-in or nothing, and removes only an expired throttle |
| CriticalFlag.FlagFile.WriteFlag | src/critical-failure.ts:359-404 | Refuses exactly a throttle without a deadline or a deadline without a throttle, leaving the file alone |
| CriticalFlag.FlagFile.ClearFlag | src/critical-failure.ts:414-427 | Removes the file and says whether there was one |
| ShellText.QuotedArgvSplitsBack | src/agent/claude-invocation.ts:250-252 | Any argument list, each quoted and joined by spaces, is split back by a POSIX shell into exactly that list |
| ShellText.QuotedReadsAs | src/agent/claude-invocation.ts:250-252 | A quoted value is read by a POSIX shell as one word, the value, whatever characters it holds |
| ShellText.SpecialIsRefused | src/agent/claude-invocation.ts:250-252 | What makes the shell's reading a strict one: any line with an operator, expansion or line end outside quotes, or an expansion or escape in double quotes, has no reading here |
| ShellText.UnescapeEscape | deploy/secrets.ts:302 | Escaping quotes is undone by replacing escaped quotes from the left |
| PutCommand.ParseInvertsBuild | deploy/secrets.ts:291-304 | Taking a built command apart gives the name and the value with each run of white space collapsed to one space |
| PutCommand.ParseReturnsTheValueIff | deploy/secrets.ts:291-304 | The value itself comes back exactly when it holds no run of white space and none but spaces |
| PutCommand.ShellReadsPutCommand | deploy/secrets.ts:119-123 | A POSIX shell splits the built command into exactly the intended arguments, the value again collapsed |
| PutCommand.CollapseIsIdentityIff | deploy/exec.ts:173-176 | Collapsing changes exactly the texts that hold a run of white space or white space other than a space |
| PutCommand.PutCommandIs | deploy/exec.ts:173-176 | Of the whole command line collapsing changes only the value, and drops the gap of an absent profile |
| PushSecrets.FilterUnchangedPuts | deploy/secrets.ts:313-332 | Keeps, in order, exactly the commands that cannot be taken apart or whose value differs from what is known, and reports, in order, the paths of exactly the others |
| PushSecrets.FilteredAreChanged | deploy/secrets.ts:313-332 | On built commands the filter keeps exactly the puts whose collapsed value differs from what is known and skips exactly the names of the others, both in order |
| PushSecrets.RunFollowsTheShell | deploy/secrets.ts:119-123 | What a put does to the store is what the shell's reading of its text says |
| PushPool.FilteredPoolEqualsSequentialPush | deploy/exec.ts:104-145 | With distinct paths and a truthful partial reading, any interleaving of the pool over the filtered puts, none failing, leaves the store as running every put in sequence would |
| PushPool.EachClaimedOnce | deploy/exec.ts:119-138 | At every moment each command has been claimed at most once, in order, and none has ended twice; there are as many workers, with one command each, as the limit allows and the commands need, and at least one; at the end each has been claimed once and has ended once |
| PushPool.RunsSettle | deploy/exec.ts:119-138 | While not settled some worker can move whatever fails, and a run has settled exactly after two moves for each command and one for each worker |
| PushPool.FailuresLeave | deploy/exec.ts:119-145 | Whatever fails, the store is the old one with exactly the puts applied that have written, and every failure has been counted |
| PushPool.FetchedIsTrueSubset | deploy/secrets.ts:384-418 | Whatever batches fail and in whatever order answers arrive, what was read is true of the store and holds every name that some batch answered |
| PushPool.BuildBatches | deploy/secrets.ts:342-359 | The names are split, in order, into batches of at most ten |
| JsonScan.FirstObjectIsExact | src/agent/parse-json-response.ts:19-56 | For every JSON object text, every prefix without an opening brace and every suffix, the scan returns exactly that object, whatever braces, quotes and escapes its strings hold |
| JsonScan.BracesInStrings | src/agent/parse-json-response.ts:19-56 | A sample in plain text: braces, an escaped quote and a hexadecimal escape in strings, an array and a nested object, with text around |
| JsonScan.ExtractJson | src/agent/parse-json-response.ts:19-56 | The loop over depth, string and escape flags computes the specified first object |
| JsonScan.ValueIsNeutral | src/agent/parse-json-response.ts:30-52 | Scanning any JSON value inside an object changes neither depth nor flags and never closes the object |

## Left out

- LifecycleTheorems.OneEnding: holds in the runs whose close writes are guarded; the close handler's check and write are two steps here, as in the code, so it is false of all runs, and `WrittenOnceIffClosesGuarded` says exactly when it holds.
- LifecycleTheorems.EveryRun: the PUT follows finalize only where the drain did not throw; a failed drain skips finalize in the code too.
- ErrorDetector.DetectorRefinesSpecification: timers are ideal, running exactly when due and before an entry of the same instant; late timers are not modelled.
- RateLimitClock.SteadyOffsetResume: assumes an offset of whole seconds; the civil calendar is a day index and the regular expression over the error text is given by what it extracts.
- SessionLogTail.SessionLogWatcher.Poll: the parent file is append-only and stays; rediscovery after it disappears, and a sub-agent file that is deleted and tailed anew, are not modelled, nor is a character split over two reads.
- SessionLogTail.SessionLogWatcher.HandleRawEntry: wall-clock readings are indexed by line, so that two readings of one file can be compared; summaries and the numeric fields of result entries are left out.
- PollGuard.DrainSeesEverything: one parent file, whose discovery may succeed more than once; nothing is said of a drain that never returns.
- ForwardedEvents.TotalIsOnePerMessage: one counter of the usage record; tool inputs and result texts, and their truncation, are left out.
- ForwarderDelivery.AlwaysKeptIff: one append, one read of the file and one rewrite that no crash cuts are each a single step; a read or an append that lands between the truncation and the write of another drain's rewrite is not modelled, nor is a queue directory removed mid-run.
- ForwarderOrder.AlwaysContiguousIff: one drain at a time; overlapping drains can leave holes, and `AlwaysKeptIff` covers those histories.
- ForwarderOrder.ConsumedIsConserved: with overlapping drains a batch can be sent twice; that each is resolved or readable is then `AlwaysKeptIff`.
- EventForwarder.LaravelForwarder.DrainAndSend: I/O errors that the code swallows are not modelled.
- ListsFile.ValidateLists: a null entry makes the code throw a TypeError instead of the batched error; here it is reported as malformed. Either way the file is refused.
- ListHistory.EveryHistoryIsAccepted: edits come one at a time; two writers who read before either writes are not modelled. Orders are real numbers without rounding.
- SettingsStore.WriteReadsBack: the meta block is compared only by `WriteSurfacesIff`; numbers beyond the double range and undefined values nested inside a display section or an agent record are not modelled.
- WriteQueue.MutualExclusion: writing the lock file's contents after creating it, timeouts and back-off delays are not modelled apart from giving up.
- CriticalFlag.FlagFile.ReadFlag: an unreadable file and invalid JSON are one case; the path in the stand-in's detail text is left out.
- PutCommand.ParseInvertsBuild: profile, region and parameter name are words of plain characters (or no profile), as AWS allows them; the value is any text.
- PutCommand.ShellReadsPutCommand: the shell is the part that reads plain words, quotes, backslashes and blanks; expansions and operators do not occur in these commands and are refused by the model.
- PushPool.FilteredPoolEqualsSequentialPush: no put fails and nobody else writes the store; dry runs and log labels are left out.
- JsonScan.FirstObjectIsExact: the scan only; the code-fence expression and the attempt to parse the whole text first are left out.
- Spawn-time failure paths, which write the status without a guard: the lifecycle begins after a successful spawn.
- File system, network, child processes, systemd, terminals, AWS and SSH themselves: parameters and steps that succeed or fail.
- Log-rate limiting, dashboards, Slack and Trello clients, prompt texts, compose rendering, configuration field checks and boot wiring: plumbing or one-branch checks.
- Collecting secrets from env files and merging overrides into them: a few map updates with nothing to prove beyond their text.
