# DontPortForward, modelled in Dafny

DontPortForward lets a user run shell commands on their own machines from a
web page, with no open inbound port. A Python agent on each device watches
a cloud document store for command documents, runs each one in a shell,
streams its output back into the document, and mirrors a shared folder from
cloud storage. A Next.js web client writes the commands, shows their output,
suggests commands from a per-user Markov chain, and edits the device's
configuration.

This project models the control logic of both sides and proves its
properties:

- the agent (agent/main.py and agent/retry.py):
  - `FileSyncer`, the shared-folder mirror (file_sync.dfy);
  - `CommandExecutor`, the per-command worker with its throttled output flush and kill flag (executor.dfy);
  - `Agent`, the main loop with its active and sleep modes, the watch, exclusive command start and reaping (agent_controller.dfy);
  - `with_retry` and the `retry_on_network_error` wrapper (agent_retry.dfy);
- the web client (web/app/...):
  - the Markov chain of commands, `utils/markov.ts` (markov.dfy);
  - the command-suggestion hook with its reducer, chain cache and merge, `hooks/useCommandSuggestions.ts` (suggestions.dfy);
  - the command input's keyboard state machine, `components/console/CommandInput.tsx` (command_input.dfy);
  - the bounded toast queue with its timers, `components/ui/Toast.tsx` (toast.dfy);
  - the configuration editor and the diff it saves, `components/config/ConfigView.tsx` (config_view.dfy);
  - `withRetry` and `isNetworkError`, `utils/retry.ts` (web_retry.dfy);
  - `getLastLines` (text.dfy), `getRelativeTime` and `formatUptime` (time.dfy), and `isDeviceConnected` (device.dfy);
  - the storage and database path builders, `constants/storage.ts` and `constants/firestore.ts` (paths.dfy).

Shared helpers live in wrappers.dfy (Option), math.dfy (powers of two),
strings.dfy (ASCII whitespace, trimming, splitting, lower case, numerals)
and js.dfy (`Array.prototype.slice` and the stable descending `sort`).

Code that changes state step by step is modelled in the same form. Each
class (`FileSyncer`, `CommandExecutor`, `Agent`, `ToastProvider`,
`ChainStore`, `CommandInputState`, `ConfigEditor`) keeps the source's fields.
Its loops carry invariants, and each method is proved against a
specification function of the old state. The properties are proved as
lemmas about those functions. The cloud services, the child process, the
reader threads, the clock and randomness are inputs: oracle functions or
parameters that say what each call returns or how each attempt ends.
The effects the code has on them are recorded in logs: the updates written
to a command document, the signals sent to the process, the `time.sleep`
arguments, the `clearTimeout` calls, and the watch subscriptions.

## Model

| member | source | states |
|---|---|---|
| AgentRetry.WithRetry | agent/retry.py:69-116 | the loop's outcome, number of calls and sleeps are exactly the run `WithRetryRun` defines attempt by attempt |
| AgentRetry.RetryOnNetworkError | agent/retry.py:42-64 | the decorator's wrapper loop yields exactly `DecoratedRun`: like `with_retry` without suppression, and the RuntimeError when the loop runs zero times |
| AgentRetry.RunFromCalls | agent/retry.py:97-104 | from attempt k at most `max_retries - k` calls are made (at least one when any attempt remains), one sleep fewer than calls, the i-th sleep being `retry_delay * 2**(k+i)` |
| AgentRetry.WithRetryCallsAndSleeps | agent/retry.py:97-104 | `func` is called between 1 and `max_retries` times, one fewer sleep than calls, sleep i lasts `retry_delay * 2**i` |
| AgentRetry.WithRetryNoAttempts | agent/retry.py:97-116 | with `max_retries <= 0` nothing is called, nothing slept, and None is returned |
| AgentRetry.FirstSuccessReturned | agent/retry.py:98-99 | after listed failures on attempts k..j-1, a success on attempt j is returned as is, after j-k+1 calls |
| AgentRetry.OtherNotRetried | agent/retry.py:110-114 | an exception outside `exceptions` ends the run on that call: re-raised, or None when `suppress_final_error` |
| AgentRetry.AllListedFrom | agent/retry.py:100-109 | listed failures from attempt k to the end: `max_retries - k` calls, the last exception re-raised or suppressed, sleeps summing to `retry_delay * (2**(max_retries-1) - 2**k)` |
| AgentRetry.AllListedShape | agent/retry.py:100-109 | listed failures from attempt k to the end: `max_retries - k` calls and the last exception re-raised (None when suppressed) |
| AgentRetry.AllListedSleeps | agent/retry.py:101-104 | listed failures from attempt k to the end: the sleeps sum to `retry_delay * 2**(max_retries-1) - retry_delay * 2**k` |
| AgentRetry.ListedStep | agent/retry.py:100-104 | a listed failure before the last attempt adds one call and the sleep `retry_delay * 2**k`, then continues with the next attempt |
| AgentRetry.WithRetryAllListed | agent/retry.py:100-109 | when every attempt raises a listed exception: exactly `max_retries` calls, the last exception re-raised (None when suppressed), total wait `retry_delay * (2**(max_retries-1) - 1)` |
| AgentRetry.DecoratedNeverSuppresses | agent/retry.py:48-64 | the decorated call raises the RuntimeError exactly when `max_retries <= 0`, and whenever it returns, it returns a value of `func` |
| AgentRetry.NeverNoneUnsuppressed | agent/retry.py:48-61 | without suppression, a run with attempts left never returns None and never reaches the RuntimeError |
| WebRetry.FetchMessageIsNetworkError | web/app/utils/retry.ts:6-14 | an error whose message contains "fetch" ("Failed to fetch") is a network error |
| WebRetry.CapitalizedMessageIsNotNetworkError | web/app/utils/retry.ts:11-12 | the message test is case-sensitive: "Network Error" with no code is not a network error |
| WebRetry.WithRetry | web/app/utils/retry.ts:19-36 | the loop's outcome, number of calls and waits are exactly the run `WithRetryRun` defines |
| WebRetry.RunFromShape | web/app/utils/retry.ts:23-35 | from attempt k: no call and "Retry failed" past the end, otherwise 1 to `maxRetries - k` calls, never "Retry failed", one wait fewer than calls, wait i being `2**(k+i) * 1000` ms |
| WebRetry.WithRetryCallsAndWaits | web/app/utils/retry.ts:23-35 | 1 to `maxRetries` calls, "Retry failed" exactly when `maxRetries <= 0` (then no call), waits `2**i * 1000` ms, one fewer than calls |
| WebRetry.SettledAt | web/app/utils/retry.ts:24-32 | after network errors on attempts k..j-1, attempt j settles the run when it resolves, fails with a non-network error, or is the last attempt |
| WebRetry.FirstResolvedReturned | web/app/utils/retry.ts:25 | the first resolved value, after network errors only, is what `withRetry` resolves to, after j+1 calls |
| WebRetry.NonNetworkRethrown | web/app/utils/retry.ts:27-31 | a rejection that is not a network error is rethrown at once, after j+1 calls |
| WebRetry.AllNetworkErrorsRethrowLast | web/app/utils/retry.ts:27-31 | network errors on every attempt: `maxRetries` calls, then the last error is rethrown |
| AgentRetry.RunFrom | agent/retry.py:97-116 | the attempt loop from attempt k: a success returns its value; a listed exception before the last attempt sleeps `retry_delay * 2**k` and tries again; a listed exception on the last attempt, or any other exception, is raised, or gives `None` when suppressed; with no attempt left the result is `None` |
| WebRetry.IsNetworkError | web/app/utils/retry.ts:6-14 | a network error has the code `storage/network-request-failed`, `unavailable` or `deadline-exceeded`, or a message containing `network` or `fetch`, compared case-sensitively |
| WebRetry.RunFrom | web/app/utils/retry.ts:23-35 | the loop from attempt k: a resolved call returns its value; a network error before the last attempt waits `2^k * 1000` ms and tries again; any other rejection, or one on the last attempt, is rethrown; with no attempt left it throws `Retry failed` |
| AgentController.StartWatchingIdempotent | agent/main.py:411-415 | starting the watch when it is held does nothing; afterwards it is held |
| AgentController.StopWatchingIdempotent | agent/main.py:417-421 | stopping the watch when it is not held does nothing; afterwards it is not held |
| AgentController.StartWatchingConsistent | agent/main.py:411-415 | `start_watching` keeps the watch flag consistent with the subscription log (alternating, starting with a subscription) |
| AgentController.StopWatchingConsistent | agent/main.py:417-421 | `stop_watching` keeps the watch flag consistent with the subscription log |
| AgentController.StartCommandExclusive | agent/main.py:497-504 | an id already running is left alone; otherwise exactly that id is added with its data and its executor started, other entries unchanged |
| AgentController.StartCommandTwice | agent/main.py:498-500 | a second start of the same id before it is reaped does nothing |
| AgentController.OnSnapshotStarts | agent/main.py:488-495 | after a snapshot the running ids are the earlier ones plus the added ones, earlier entries keep their data, the activity time is `now` iff a document was added, the watch is untouched |
| AgentController.AddedIdsLast | agent/main.py:489-490 | the ids added by a list of changes are those of all but the last change plus the last one's when it is ADDED |
| AgentController.TickReaps | agent/main.py:455-459 | after an iteration exactly the executors whose thread is alive remain, with their data, and none was started |
| AgentController.TickActiveMode | agent/main.py:461-474 | in active mode the watch is dropped iff no executor is alive and the idle time exceeds 300 s; otherwise an active heartbeat (when its write succeeds) and a 10 s sleep |
| AgentController.TickSleepMode | agent/main.py:475-482 | in sleep mode a pending command resets the activity time to the wake-up clock and takes the watch; otherwise a sleep heartbeat and a 60 s sleep |
| AgentController.TickHeartbeatMode | agent/main.py:431-445 | a heartbeat sent in an iteration reports `active` iff the watch is held |
| AgentController.TickConsistent | agent/main.py:452-482 | one iteration keeps the watch flag consistent with the subscription log |
| AgentController.ListenConsistent | agent/main.py:447-482 | over any run of `listen_for_commands` the listener is never subscribed twice without an unsubscription in between |
| AgentController.RoundsConsistent | agent/main.py:452-495 | any sequence of snapshots and iterations keeps the watch consistent with its log |
| AgentController.Agent.constructor | agent/main.py:338-345 | a new agent holds no watch and no command, with the activity clock at `now` |
| AgentController.Agent.StartWatchingM | agent/main.py:411-415 | the new state is `StartWatching` of the old |
| AgentController.Agent.StopWatchingM | agent/main.py:417-421 | the new state is `StopWatching` of the old |
| AgentController.Agent.SendHeartbeat | agent/main.py:431-445 | the new state is `Heartbeat` of the old: the mode is logged iff the write succeeds |
| AgentController.Agent.StartCommandM | agent/main.py:497-504 | the new state is `StartCommand` of the old |
| AgentController.Agent.OnCommandSnapshot | agent/main.py:488-495 | the loop over the changes leaves the state `OnSnapshot` defines |
| AgentController.Agent.ReapFinished | agent/main.py:455-459 | the reaping loop leaves exactly the executors whose thread is alive, everything else unchanged |
| AgentController.Agent.TickM | agent/main.py:452-482 | one loop iteration leaves the state `Tick` defines |
| AgentController.Agent.ListenForCommands | agent/main.py:447-482 | the loop leaves the state `Listen` defines, and keeps the watch consistent with its log |
| AgentController.StartWatching | agent/main.py:411-415 | `start_watching` subscribes only when no watch is held |
| AgentController.StopWatching | agent/main.py:417-421 | `stop_watching` unsubscribes only when a watch is held |
| AgentController.StartCommand | agent/main.py:497-504 | an id already running is left alone; otherwise its executor is recorded with the command's data and started |
| AgentController.OnSnapshot | agent/main.py:488-495 | each added change, in order, moves the activity time to the snapshot's time and starts its command; modified and removed changes are ignored |
| AgentController.FirstAddedSome | agent/main.py:488-495 | some change adds an id exactly when there is a first change that adds it |
| AgentController.NewIdsSpec | agent/main.py:488-504 | the executors a snapshot starts are exactly the added ids not already running, each started once |
| AgentController.Tick | agent/main.py:452-482 | one iteration: reap; a running executor refreshes the activity time; with the watch held, drop it after more than 300 s idle with nothing running, else heartbeat and sleep 10 s; without it, take the watch back when a command is pending, else heartbeat and sleep 60 s |
| Executor.FlushWrites | agent/main.py:279-315 | a flush writes one update iff it is due (forced or more than 1 s since the last successful flush), there is output or error text, and the write succeeds or fails with a size-limit message; it sets the stop flag exactly when the size guard fires, moves the flush clock only on success, and leaves buffers and signals alone |
| Executor.FlushThrottled | agent/main.py:282-306 | after a successful unforced flush at time t, every unforced flush up to one second later writes nothing |
| Executor.FlushWritesEverything | agent/main.py:292-305 | a successful write carries the whole output and error text captured so far |
| Executor.LoopKeepsHistory | agent/main.py:223-242 | the run loop only appends to the updates, signals and buffers, and never clears a set stop flag |
| Executor.LoopUndisturbed | agent/main.py:223-244 | without a kill request or a size-limit failure the loop runs until the process exits: no signal, the exit code is the return code, and every stdout line read is in the buffer |
| Executor.KillEndsLoop | agent/main.py:224-231 | a kill request seen at a check ends the loop there: `terminate()`, then `kill()` when the wait times out (return code None), and nothing written |
| Executor.FinishIs | agent/main.py:244-277 | the steps after the loop are the forced flush, the final update computed from the flag after that flush, and the cleanup terminate |
| Executor.FinishSteps | agent/main.py:244-277 | after the loop: exactly one final update follows the forced flush, at most one signal is added, and the flag and buffers are those after the flush |
| Executor.RunWritesProcessingFirst | agent/main.py:179-184 | `processing` is the first update of every run, at least one more update follows, and earlier updates stay |
| Executor.RunRestart | agent/main.py:186-192 | a restart command writes `processing`, then the restart notice as `completed`, and the agent exits |
| Executor.RunMissingCommand | agent/main.py:194-271 | a missing or empty command string ends `completed` with "No command string provided" and no process |
| Executor.RunFinalStatus | agent/main.py:253-263 | the last update of a spawned command carries the status and the return code, `cancelled` iff the stop flag is set and `completed` otherwise; the flag is never cleared |
| Executor.FinalStatus | agent/main.py:254-261 | the final update holds the return code and `cancelled` iff the flag is set, `completed` otherwise, and the error text when cancelled |
| Executor.RunUndisturbed | agent/main.py:205-263 | without a kill request or a size-limit failure a spawned command ends `completed` with the exit code, no error text and no signal, its output buffer holding every line read |
| Executor.RunKilledAtStart | agent/main.py:224-261 | a kill request before the first check: the process is terminated, the command ends `cancelled` with the earlier error followed by "Command cancelled by user." |
| Executor.RunSpawned | agent/main.py:197-263 | a spawned command runs the loop and then the steps after it |
| Executor.CommandExecutor.constructor | agent/main.py:140-151 | empty buffers, the stop flag clear, the flush clock at `now` |
| Executor.CommandExecutor.FlushOutput | agent/main.py:279-315 | the new state is `Flush` of the old |
| Executor.CommandExecutor.OnDocUpdate | agent/main.py:317-334 | the stop flag becomes set iff some snapshot has `kill_signal` exactly True; nothing else changes |
| Executor.CommandExecutor.Receive | agent/main.py:153-168 | the lines read are appended to the buffers, and the snapshots handled |
| Executor.CommandExecutor.Run | agent/main.py:170-277 | the new state is `RunSpec` of the old |
| Executor.CommandExecutor.RunLoop | agent/main.py:223-244 | the loop's final state and return code are those `LoopFrom` defines |
| Executor.CommandExecutor.UpdateDoc | agent/main.py:263 | one update is appended to the document's log, nothing else changes |
| Executor.CommandExecutor.SendSignal | agent/main.py:226-277 | one signal is appended to the process's log, nothing else changes |
| Executor.CommandExecutor.Finalize | agent/main.py:244-277 | the new state is `Finish` of the loop's end |
| Executor.Flush | agent/main.py:279-315 | a due flush with some output writes the joined output and error and records the time; a failed write is dropped, unless its message names a size limit, which writes the truncation note with status `completed` and sets the stop flag |
| Executor.LoopFrom | agent/main.py:223-244 | each iteration takes the new lines and kill signals; a stop request terminates the process, and kills it when the 5 s wait times out; otherwise the loop ends when the process exits, and flushes on every turn before that |
| Executor.Finish | agent/main.py:244-277 | after the loop: a forced flush, then the final status update, with the cancellation message when stopped, and a last `terminate` for a process still alive after a kill |
| Executor.RunSpec | agent/main.py:170-277 | `run()`: the processing update first; a restart command writes its update and exits; a missing or empty command, or a spawn that raised, writes `completed` with that error; otherwise the loop and the finish |
| FileSync.Basename | agent/main.py:85 | the basename contains no '/' |
| FileSync.BasenameIsSuffix | agent/main.py:85 | the basename is a suffix of the blob name |
| FileSync.BasenameAfterSlash | agent/main.py:85-115 | the name after the last '/' is the basename, whatever directories precede it |
| FileSync.PassKeepsLocal | agent/main.py:84-109 | the download loop never forgets a local file and never makes one older |
| FileSync.PassUntouched | agent/main.py:84-109 | a name no blob of the listing carries is neither downloaded nor changed |
| FileSync.AllOkNotAborted | agent/main.py:103-129 | if every download succeeds, the loop is not cut short by an exception |
| FileSync.CoversStep | agent/main.py:84-109 | a folder that keeps every entry (never older) and holds one more blob covers the listing so far plus that blob |
| FileSync.StepCovers | agent/main.py:84-109 | one blob step that does not raise keeps every entry, never older, and leaves that blob's name at least as new as the blob |
| FileSync.StepUntouched | agent/main.py:84-109 | a blob step for another name leaves a name's entry and whether it was downloaded as they were |
| FileSync.PassCovers | agent/main.py:84-109 | after a download loop that did not raise, every mirrored name is present locally, no older than any blob carrying it, even when basenames repeat |
| FileSync.PassFromUntouched | agent/main.py:84-109 | the blobs after position k that do not carry a name leave its entry and download as they were after blob k-1 |
| FileSync.DownloadedAt | agent/main.py:91-109 | with distinct basenames and successful downloads, blob i is downloaded iff its name is non-empty and it is missing locally or strictly newer remotely, and its local copy then carries the remote time |
| FileSync.DownloadedIff | agent/main.py:91-109 | the same decision for every blob of the listing at once |
| FileSync.EmptyNeverDownloaded | agent/main.py:86 | a blob with an empty basename (a directory marker) is skipped |
| FileSync.CoveredPassIsIdle | agent/main.py:92-103 | a folder that already has every mirrored name at least as new as its blobs makes the loop download and change nothing |
| FileSync.ListingFailureChangesNothing | agent/main.py:81-129 | a listing that raised leaves the folder as it was |
| FileSync.CycleMirrors | agent/main.py:81-126 | after a cycle whose downloads did not raise, every mirrored name is present, any other surviving name is one whose removal failed, and surviving files are as the download loop left them |
| FileSync.AbortedCycleDeletesNothing | agent/main.py:103-129 | an exception in the download loop skips every removal: the cycle only adds and refreshes files |
| FileSync.SecondCycleIsIdle | agent/main.py:78-126 | a second cycle over the same listing downloads nothing, and changes nothing if the first cycle's removals all succeeded |
| FileSync.CyclesRun | agent/main.py:78-134 | one cycle runs per turn up to and including the first turn in which the stop is requested |
| FileSync.NoStopSleepsTenEach | agent/main.py:132-134 | without a stop request every cycle is followed by ten one-second sleeps |
| FileSync.SleptPerCycle | agent/main.py:78-134 | every cycle run but the last is followed by the full ten seconds of sleep, and the last by at most ten |
| FileSync.FileSyncer.constructor | agent/main.py:66-72 | the mirror starts with the given folder and the stop flag clear |
| FileSync.FileSyncer.Stop | agent/main.py:136-137 | the stop flag is set and nothing else changes |
| FileSync.FileSyncer.DownloadAll | agent/main.py:84-109 | the blob loop leaves the folder, the downloads and the abort flag that `DownloadPass` defines |
| FileSync.FileSyncer.DeleteMissing | agent/main.py:115-126 | the removal loop leaves exactly the local names the listing has or whose removal failed |
| FileSync.FileSyncer.Cycle | agent/main.py:79-129 | one cycle leaves the folder `CycleLocal` defines and reports the downloads; a failed listing changes nothing |
| FileSync.FileSyncer.Run | agent/main.py:74-134 | the loop leaves the folder `RunLocal` defines, sleeps the seconds `SecondsSlept` counts, and ends stopped iff some turn requested the stop; a mirror already stopped does nothing |
| FileSync.AbortIsFinal | agent/main.py:103-129 | once a download raised, the rest of the listing is skipped |
| FileSync.Step | agent/main.py:91-109 | one blob: skipped after an abort, for an empty basename or when the local copy is as new; otherwise downloaded and stamped with the remote time, or the pass aborts when the download raised |
| FileSync.DownloadPass | agent/main.py:84-109 | the download loop over the listing, blob by blob, in listing order |
| FileSync.DeletePass | agent/main.py:115-126 | a local name survives when the listing has it or its removal raised |
| FileSync.CycleLocal | agent/main.py:79-129 | a failed listing changes nothing; an aborted download pass skips the removals; otherwise the downloads, then the removals |
| Markov.EmptyChain | web/app/utils/markov.ts:23-28 | the empty chain has no transitions and no command counts |
| Markov.Lookup | web/app/utils/markov.ts:88-141 | a record yields a value under a key iff the key is one of its keys |
| Markov.BumpCount | web/app/utils/markov.ts:54 | `(counts[k] \|\| 0) + 1` counts k once more and leaves every other key's count alone |
| Markov.BumpKeys | web/app/utils/markov.ts:54 | bumping k adds k to the keys and no other key |
| Markov.BumpTotal | web/app/utils/markov.ts:54 | bumping a key raises the sum of the counts by one |
| Markov.BumpUnique | web/app/utils/markov.ts:54 | bumping keeps the keys of a record distinct |
| Markov.BumpPairCount | web/app/utils/markov.ts:62-78 | bumping the transition (a, b), creating `transitions[a]` when missing, counts it once more and leaves every other transition's count alone |
| Markov.BumpPairKeys | web/app/utils/markov.ts:62-75 | bumping a transition from a adds a to the tokens with successors and nothing else |
| Markov.BumpPairUnique | web/app/utils/markov.ts:62-78 | bumping a transition keeps the keys distinct at both levels |
| Markov.TokenizeShape | web/app/utils/markov.ts:33-39 | tokens are non-empty and whitespace-free, a blank command has none, and joining them with single spaces gives the same non-space text, which tokenizes back to the same tokens |
| Markov.JoinEnds | web/app/utils/markov.ts:127-138 | joining non-empty whitespace-free tokens gives a string that neither starts nor ends with whitespace |
| Markov.Pairs | web/app/utils/markov.ts:59-79 | a command with n tokens contributes n transitions: from `__START__` to the first token and between consecutive tokens |
| Markov.BumpAllCounts | web/app/utils/markov.ts:59-79 | bumping a list of transitions raises each count by its number of occurrences in the list |
| Markov.BumpAllUnique | web/app/utils/markov.ts:59-79 | bumping a list of transitions keeps every record's keys distinct |
| Markov.AddCommandToChain | web/app/utils/markov.ts:44-82 | the returned chain is `AddCommand` of the given one |
| Markov.BumpTransitions | web/app/utils/markov.ts:59-79 | the start transition and the loop over consecutive tokens bump exactly the command's transitions, in order |
| Markov.AddBlankCommand | web/app/utils/markov.ts:45-46 | a blank or whitespace-only command returns the chain unchanged |
| Markov.AddCommandCounts | web/app/utils/markov.ts:45-54 | adding a command counts its trimmed form once more, leaves every other count alone and raises the total by one |
| Markov.AddCommandTransitions | web/app/utils/markov.ts:57-79 | adding a command raises each transition count by its number of occurrences among `__START__`-to-first and consecutive token pairs |
| Markov.AddCommandWellFormed | web/app/utils/markov.ts:44-82 | adding a command keeps every record free of duplicate keys |
| Markov.Keys | web/app/utils/markov.ts:95 | the keys of a record, in order, one per entry |
| Markov.MemberKey | web/app/utils/markov.ts:92 | an entry of a record has its key among the record's keys |
| Markov.MemberCount | web/app/utils/markov.ts:92-141 | in a record with distinct keys an entry's value is the count looked up under its key |
| Markov.SuccUnique | web/app/utils/markov.ts:88 | in a well-formed chain the successors of a token have distinct keys |
| Markov.LookupAt | web/app/utils/markov.ts:88 | a value found under a key is an entry of the record |
| Markov.NextTokensSpec | web/app/utils/markov.ts:87-96 | an unseen token has no next tokens; otherwise `min(limit, n)` of its `n` recorded successors (all of them when `limit` reaches `n`), each a recorded successor; over a well-formed chain they are distinct, in non-increasing order of count, and no successor left out followed more often than one kept |
| Markov.Commands | web/app/utils/markov.ts:166 | the commands of the scored suggestions, in order |
| Markov.DirectMatches | web/app/utils/markov.ts:114-121 | the loop over recorded commands pushes exactly what `Direct` defines |
| Markov.CompleteLast | web/app/utils/markov.ts:124-145 | the loop over the candidates for the last token pushes exactly what `Complete` defines |
| Markov.ExtendInput | web/app/utils/markov.ts:149-158 | the loop over the likely next tokens pushes exactly what `Extend` defines |
| Markov.GetSuggestions | web/app/utils/markov.ts:101-167 | the result is `Suggestions` of the chain, the input and the limit |
| Markov.CollectCandidates | web/app/utils/markov.ts:109-160 | the three strategies, run in order on a non-blank input, push exactly `Candidates` |
| Markov.OfferKeeps | web/app/utils/markov.ts:116-156 | pushing an allowed suggestion unless seen keeps the seen set equal to the commands pushed, with no command twice |
| Markov.CommandSetAppend | web/app/utils/markov.ts:117-118 | pushing a suggestion adds exactly its command to the commands pushed |
| Markov.DistinctAppend | web/app/utils/markov.ts:116-118 | pushing a command not yet pushed keeps the commands distinct |
| Markov.AllowedAppend | web/app/utils/markov.ts:118 | pushing an allowed suggestion keeps every suggestion allowed |
| Markov.DirectKeeps | web/app/utils/markov.ts:114-121 | strategy 1 pushes only recorded commands that extend the input (ignoring case) without being it, none twice |
| Markov.CompleteKeeps | web/app/utils/markov.ts:135-145 | strategy 2 pushes only the input with its last token replaced by a different successor that extends it, none twice |
| Markov.ExtendKeeps | web/app/utils/markov.ts:150-158 | strategy 3 pushes only the input followed by a successor of its last token, none twice |
| Markov.CandidatesAllowed | web/app/utils/markov.ts:109-160 | every candidate is a direct match, a completion or an extension of the input, and no command is pushed twice |
| Markov.PermutationDistinct | web/app/utils/markov.ts:163-164 | sorting the candidates keeps their commands distinct |
| Markov.TwiceCounted | web/app/utils/markov.ts:163-164 | an element present at two positions occurs at least twice |
| Markov.AtMostOnce | web/app/utils/markov.ts:163-164 | in a list with distinct commands each element occurs at most once |
| Markov.SuggestionsSpec | web/app/utils/markov.ts:101-167 | blank input gives nothing; otherwise at most `limit` distinct suggestions, each a direct match, a completion or an extension of the input |
| Markov.TopAllowed | web/app/utils/markov.ts:163-166 | the first `limit` of a reordering of distinct allowed candidates are at most `limit`, distinct and allowed |
| Markov.SuggestionsRanked | web/app/utils/markov.ts:162-166 | the suggestions are the first `limit` candidates after a sort by non-increasing score that permutes them |
| Markov.AddCommandCount | web/app/utils/markov.ts:44-54 | recording a non-blank command raises `getCommandCount` by one; a blank one changes nothing |
| Markov.EmptyChainSpec | web/app/utils/markov.ts:23-28 | the empty chain counts no command, has no next token, is well formed and suggests nothing |
| Markov.Tokenize | web/app/utils/markov.ts:33-39 | the trimmed command split on runs of whitespace, with no empty token |
| Markov.AddCommand | web/app/utils/markov.ts:44-82 | a blank command changes nothing; otherwise its trimmed form is counted once more and every consecutive token pair, starting from START, once more |
| Markov.NextTokens | web/app/utils/markov.ts:87-96 | the successors of a token, most frequent first, cut to `limit`; none for a token never seen |
| Markov.TopKeysShape | web/app/utils/markov.ts:92-95 | `min(limit, n)` of the `n` recorded successors are kept, all of them when `limit` reaches `n` |
| Markov.TopKeysOrdered | web/app/utils/markov.ts:92-95 | over a record without duplicate keys the successors kept are distinct and in non-increasing order of count |
| Markov.TopKeysMostFrequent | web/app/utils/markov.ts:92-95 | no successor left out has a higher count than one kept |
| Markov.UniqueOnce | web/app/utils/markov.ts:92 | in a record without duplicate keys no entry occurs twice |
| Markov.Candidates | web/app/utils/markov.ts:109-160 | the suggestions of the three strategies in the order pushed, each command at most once with its first score |
| Markov.DirectSeen | web/app/utils/markov.ts:114-121 | strategy 1 marks seen every recorded command that extends the input without being it |
| Markov.CompleteSeen | web/app/utils/markov.ts:135-145 | strategy 2 marks seen the completion by every fetched successor that extends the last token without being it |
| Markov.ExtendSeen | web/app/utils/markov.ts:150-158 | strategy 3 marks seen the extension by every fetched next token |
| Markov.CandidatesComplete | web/app/utils/markov.ts:109-160 | every direct match, every completion by one of the 20 fetched successors of the previous token, and, when strategy 3 runs, every extension by one of the 10 fetched next tokens is a candidate |
| Markov.Suggestions | web/app/utils/markov.ts:101-167 | nothing for blank input; otherwise the candidates ranked by score, cut to `limit` |
| Markov.RankedTop | web/app/utils/markov.ts:162-166 | ranking distinct candidates and keeping `limit` keeps `min(limit, n)` of them, all when `limit` reaches `n`, and none left out scores higher than one kept |
| Markov.SuggestionsTop | web/app/utils/markov.ts:101-167 | for non-blank input, `min(limit, n)` suggestions from the `n` candidates, all of them when `limit` reaches `n`, and no candidate left out scores higher than one suggested |
| Markov.CommandCount | web/app/utils/markov.ts:206-208 | the sum of the command counts |
| Js.SliceIndex | web/app/utils/text.ts:10 | a `slice` index: negative ones count from the end, and the result is clamped to [0, length] |
| Js.SliceTake | web/app/utils/markov.ts:94 | `slice(0, limit)` with `limit >= 0` keeps the first `limit` elements, all of them when there are fewer |
| Js.SlicePrefix | web/app/utils/markov.ts:94 | `slice(0, limit)` always yields a prefix |
| Js.Insert | web/app/utils/markov.ts:93 | inserting adds exactly that element |
| Js.InsertSorted | web/app/utils/markov.ts:93 | inserting into a list in non-increasing order keeps it in that order |
| Js.SortDesc | web/app/utils/markov.ts:93 | the sort keeps the length |
| Js.SortDescCorrect | web/app/utils/markov.ts:93 | `sort((a, b) => b - a)` orders by non-increasing key and permutes its input |
| Js.SortDescSorted | web/app/utils/markov.ts:93 | the sort orders by non-increasing key |
| Js.SortDescPermutes | web/app/utils/markov.ts:93 | the sort permutes its input |
| Js.PermutationMember | web/app/utils/markov.ts:93 | an element of a permutation is an element of the original |
| Strings.TrimStart | web/app/utils/markov.ts:36 | leading whitespace is dropped, and only whitespace: the result is a suffix starting with a non-space |
| Strings.TrimEnd | web/app/utils/markov.ts:36 | trailing whitespace is dropped, and only whitespace: the result is a prefix ending with a non-space |
| Strings.Trim | web/app/utils/markov.ts:36 | `trim()` neither starts nor ends with whitespace, and is empty iff the string is all whitespace |
| Strings.TrimOfTrimmed | web/app/utils/markov.ts:36-45 | a string with no whitespace at either end is its own trim |
| Strings.TrimIdempotent | web/app/utils/markov.ts:36-45 | trimming twice is trimming once |
| Strings.Lower | web/app/utils/markov.ts:115-137 | lower-casing keeps the length |
| Strings.ContainsAt | agent/main.py:310 | an occurrence of `sub` at some position is found by the substring test |
| Strings.NotContainsWithoutFirst | web/app/utils/retry.ts:11-12 | a string missing the first character of `sub` does not contain `sub` |
| Strings.IndexOf | web/app/utils/text.ts:8 | the first position of a character: it is there and not before |
| Strings.Split | web/app/utils/text.ts:8 | `split('\n')` yields at least one piece, none containing the separator |
| Strings.JoinSplit | web/app/utils/text.ts:8-10 | joining the pieces of a split with the separator gives back the string |
| Strings.SplitJoin | web/app/utils/text.ts:8-10 | splitting the join of separator-free pieces gives back the pieces |
| Strings.SplitAfterFree | web/app/utils/text.ts:8 | splitting at the first separator after a separator-free piece yields that piece, then the pieces of the rest |
| Strings.IndexOfAfterFree | web/app/utils/text.ts:8 | the first separator after a separator-free piece is found right after it |
| Strings.JoinAppend | web/app/utils/text.ts:10 | the join of a list is the join of its front, the separator and the join of its back |
| Strings.TakeWord | web/app/utils/markov.ts:37 | the longest whitespace-free prefix, followed by whitespace or the end |
| Strings.Words | web/app/utils/markov.ts:35-38 | every token is non-empty and whitespace-free |
| Strings.WordsEmpty | web/app/utils/markov.ts:35-38 | a string has no tokens iff it is all whitespace |
| Strings.TakeWordOfWord | web/app/utils/markov.ts:37 | a whitespace-free word followed by whitespace or the end is the first token |
| Strings.WordsOfJoin | web/app/utils/markov.ts:35-38 | tokenizing words joined by single spaces gives back the words |
| Strings.WordsAfterWord | web/app/utils/markov.ts:37 | a word followed by a space: that word, then the tokens of the rest |
| Strings.Squeeze | web/app/utils/markov.ts:37 | the non-whitespace characters of a string contain no whitespace |
| Strings.SqueezeAppend | web/app/utils/markov.ts:37 | the non-whitespace characters of a concatenation are those of each part |
| Strings.SqueezeNoSpace | web/app/utils/markov.ts:37 | a whitespace-free string is its own non-whitespace text |
| Strings.Concat | agent/main.py:292-300 | `"".join(buffer)` is empty iff every piece is |
| Strings.SqueezeIsConcatOfWords | web/app/utils/markov.ts:35-38 | the non-whitespace text is the concatenation of the tokens |
| Strings.SqueezeJoin | web/app/utils/markov.ts:127 | joining whitespace-free words with spaces has their concatenation as non-whitespace text |
| Strings.JoinWordsKeepsText | web/app/utils/markov.ts:35-38 | joining the tokens with single spaces keeps every non-whitespace character in order, only collapsing whitespace runs |
| Strings.DigitChar | web/app/utils/time.ts:28 | a digit character denotes its digit |
| Strings.NatToString | web/app/utils/time.ts:28 | the decimal notation of a natural number is a non-empty string of digits |
| Strings.NatToStringRoundTrip | web/app/utils/time.ts:28 | reading back the decimal notation of n gives n |
| Strings.IntToString | web/app/utils/time.ts:64 | the notation of an integer is never empty |
| Text.NoText | web/app/utils/text.ts:7 | missing or empty text gives the empty string |
| Text.ShortText | web/app/utils/text.ts:9 | text with at most `maxLines` lines comes back unchanged |
| Text.LastLinesOf | web/app/utils/text.ts:8-10 | the last k lines joined by newlines are a suffix of the text and split back into exactly those lines |
| Text.LongText | web/app/utils/text.ts:6-11 | with a positive bound and more lines than it, the result is a suffix of the text with exactly `maxLines` lines, the last ones |
| Text.LongIs | web/app/utils/text.ts:10 | with a positive bound and more lines than it, the result is the join of the last `maxLines` lines |
| Text.SliceFromEnd | web/app/utils/text.ts:10 | `slice(-m)` with 0 < m < length keeps the last m elements |
| Text.ZeroBound | web/app/utils/text.ts:9-10 | a bound of 0 keeps the whole text, since `slice(-0)` is `slice(0)` |
| Text.NegativeBound | web/app/utils/text.ts:9-10 | a negative bound -m drops the first m lines instead, and can leave nothing |
| Time.RelativeBuckets | web/app/utils/time.ts:22-31 | each label covers one range of elapsed seconds (below 30, 30-59, minutes, hours, days), the ranges do not overlap, and the counts are the floored whole units in range |
| Time.NeverForFalsy | web/app/utils/time.ts:9 | a missing timestamp or the number 0 gives "Never"; a Date at instant 0 does not |
| Time.NumeralInjective | web/app/utils/time.ts:28-31 | different counts have different numerals |
| Time.RenderInjective | web/app/utils/time.ts:27-31 | different labels read differently |
| Time.JsRem | web/app/utils/time.ts:62-63 | JavaScript's remainder takes the sign of the dividend and is smaller than the divisor in size |
| Time.UptimeUnknown | web/app/utils/time.ts:58 | a missing or zero boot time is "Unknown" |
| Time.UptimeParts | web/app/utils/time.ts:57-65 | for a boot time in the past, hours are 0-23 and minutes 0-59, and days, hours and minutes make up the uptime to within a minute |
| Time.HourRemainder | web/app/utils/time.ts:63 | the remainder by an hour is determined by any split into whole hours and a rest below an hour |
| Time.UptimeFuture | web/app/utils/time.ts:59-63 | a boot time in the future gives negative days and non-positive hours and minutes |
| Connectivity.IsDeviceConnected | web/app/utils/device.ts:7-12 | a device without `lastSeen` is offline; otherwise online iff its heartbeat is less than 300000 ms old |
| Connectivity.ExactlyFiveMinutes | web/app/utils/device.ts:10-11 | a heartbeat exactly five minutes old is stale, one a millisecond newer is not |
| Connectivity.Monotone | web/app/utils/device.ts:10-11 | a later heartbeat, or an earlier clock, never makes a device less connected |
| Paths.SharedFileInFolder | web/app/constants/storage.ts:2-8 | a shared file's path is the folder path, a slash and the name, and starts with the prefix the agent lists |
| Paths.UploadLandsUnderName | web/app/constants/storage.ts:6-8 | a file uploaded under a slash-free name is mirrored by the agent under that same name |
| Paths.PathShapes | web/app/constants/firestore.ts:6-16 | a command document sits in its device's commands collection under the device document; documents have an even number of segments, collections an odd one |
| Paths.DocumentPathsInjective | web/app/constants/firestore.ts:10-12 | different devices or command ids give different document paths |
| Js.TopOfSorted | web/app/utils/markov.ts:92-95 | the first `n` after a descending sort are `min(n, size)` elements of the list, all when `n` reaches its size, and no element left out has a higher key than one kept |
| Text.GetLastLines | web/app/utils/text.ts:6-11 | missing or empty text gives the empty string; text of at most `maxLines` lines (10 by default) is returned as it is; longer text keeps its last `maxLines` lines |
| Time.GetRelativeTime | web/app/utils/time.ts:6-32 | `Never` for a falsy timestamp; otherwise `Just now` below 30 s, then seconds, minutes, hours and days ago, each floored |
| Time.FormatUptime | web/app/utils/time.ts:57-65 | `Unknown` for a missing or zero boot time; otherwise the floored days, hours of the day and minutes of the hour since boot |
| Paths.SharedFolderPath | web/app/constants/storage.ts:2-4 | `agents/<device>/shared` |
| Paths.SharedFilePath | web/app/constants/storage.ts:6-8 | `agents/<device>/shared/<file>` |
| Paths.CommandsCollectionPath | web/app/constants/firestore.ts:6-8 | the segments `devices`, the device id, `commands` |
| Paths.CommandDocumentPath | web/app/constants/firestore.ts:10-12 | the commands collection's segments followed by the command id |
| Paths.DeviceDocumentPath | web/app/constants/firestore.ts:14-16 | the segments `devices` and the device id |
| Toasts.KindOrDefault | web/app/components/ui/Toast.tsx:44 | the kind given, or "info" when none is |
| Toasts.Filter | web/app/components/ui/Toast.tsx:36 | filtering never lengthens the list |
| Toasts.EmptyQueueValid | web/app/components/ui/Toast.tsx:32-33 | the initial empty list with no timers satisfies the queue invariant |
| Toasts.PushList | web/app/components/ui/Toast.tsx:47-61 | after `toast` the list holds at most three toasts, the new one last, after the previous ones, less the oldest exactly when the list was full |
| Toasts.PushTimers | web/app/components/ui/Toast.tsx:50-64 | the new timer is filed under the new id; on overflow the evicted toast's truthy timer is cleared and deleted; every other timer is kept |
| Toasts.PushOrderIrrelevant | web/app/components/ui/Toast.tsx:47-64 | running the list updater before or after the new timer is filed gives the same queue while the new id differs from the evicted one |
| Toasts.FilterMember | web/app/components/ui/Toast.tsx:36 | a toast survives `filter(t => t.id !== id)` iff it was there with another id |
| Toasts.FilterAppend | web/app/components/ui/Toast.tsx:36 | filtering distributes over concatenation, so the survivors keep their order |
| Toasts.FilterNone | web/app/components/ui/Toast.tsx:36 | filtering out an id no toast has keeps the list |
| Toasts.RemoveAt | web/app/components/ui/Toast.tsx:36 | with distinct ids, removing a shown toast drops exactly its position |
| Toasts.OthersHaveOtherIds | web/app/components/ui/Toast.tsx:36 | with distinct ids, no toast before or after a position has the id of the one there |
| Toasts.RemoveSpec | web/app/components/ui/Toast.tsx:35-42 | `removeToast(id)` keeps exactly the toasts with another id, clears and deletes a truthy timer under `id`, and touches no other timer |
| Toasts.RemoveUnknown | web/app/components/ui/Toast.tsx:35-42 | removing an id with neither toast nor timer changes nothing |
| Toasts.FilterDistinct | web/app/components/ui/Toast.tsx:36 | filtering keeps the ids distinct |
| Toasts.HasIdFilter | web/app/components/ui/Toast.tsx:36 | after filtering out `id` an id is shown iff it was shown before and is not `id` |
| Toasts.RemoveValid | web/app/components/ui/Toast.tsx:35-42 | `removeToast` keeps the invariant: at most three toasts, distinct ids, one truthy timer per toast shown |
| Toasts.HasIdAppend | web/app/components/ui/Toast.tsx:48 | after appending a toast an id is shown iff it was shown before or is the new one's |
| Toasts.AppendDistinct | web/app/components/ui/Toast.tsx:48 | appending a toast with a fresh id keeps the ids distinct |
| Toasts.DropFirst | web/app/components/ui/Toast.tsx:51 | dropping the first of distinct ids removes exactly that id |
| Toasts.PushValid | web/app/components/ui/Toast.tsx:44-65 | `toast` keeps the invariant when the new id is fresh and the handle truthy |
| Toasts.ToastProvider.constructor | web/app/components/ui/Toast.tsx:32-33 | the provider starts with no toast, no timer and nothing cleared |
| Toasts.ToastProvider.ClearTimerOf | web/app/components/ui/Toast.tsx:37-57 | a truthy timer under the id is cleared and deleted, otherwise nothing changes |
| Toasts.ToastProvider.ShowToast | web/app/components/ui/Toast.tsx:44-65 | the new state is `Push` of the old |
| Toasts.ToastProvider.RemoveToast | web/app/components/ui/Toast.tsx:35-42 | the new state is `Remove` of the old |
| Toasts.Push | web/app/components/ui/Toast.tsx:44-65 | `toast`: append the new toast, drop the oldest when over three and clear its timer, then record the new timer |
| Toasts.Remove | web/app/components/ui/Toast.tsx:35-42 | `removeToast`: filter out the id and clear its timer, if it has one |
| ConfigView.ToNumber | web/app/components/config/ConfigView.tsx:139 | `Number(value)` is always a number or NaN |
| ConfigView.ParseNumber | web/app/components/config/ConfigView.tsx:139 | a trimmed numeral parses to a number or NaN |
| ConfigView.NumeralTrimmed | web/app/components/config/ConfigView.tsx:139 | an integer's decimal notation has no surrounding whitespace |
| ConfigView.NumberOfNumeral | web/app/components/config/ConfigView.tsx:139 | `Number` of an integer's decimal notation is that integer, so a number typed into a field is saved as its value |
| ConfigView.ParseNumeral | web/app/components/config/ConfigView.tsx:139 | the parser reads back any signed integer's notation |
| ConfigView.AllKeysListed | web/app/components/config/ConfigView.tsx:28-86 | every configurable key is among `CONFIG_FIELDS` |
| ConfigView.FromDeviceSpec | web/app/components/config/ConfigView.tsx:88-97 | every field gets the device's value unless that is null or undefined, and then the default (30, 60, 60, 60, 50000, empty string); the result is never nullish |
| ConfigView.Written | web/app/components/config/ConfigView.tsx:138-142 | number fields are written as a number or NaN; the text field as `null` when falsy and as its value otherwise |
| ConfigView.UpdatesOfSpec | web/app/components/config/ConfigView.tsx:133-144 | the loop writes a key iff it is among the fields visited, defined and `!==` the device's value, converted by its type |
| ConfigView.UpdatesSpec | web/app/components/config/ConfigView.tsx:133-144 | the same for the whole `CONFIG_FIELDS` list |
| ConfigView.HasChangedIffWritten | web/app/components/config/ConfigView.tsx:259 | a field card is marked changed exactly when saving would write that field |
| ConfigView.SaveAfterLoad | web/app/components/config/ConfigView.tsx:88-144 | saving right after loading writes exactly the fields the device lacks or holds as null or NaN: numbers as their default, the startup file as null |
| ConfigView.SaveAfterLoadComplete | web/app/components/config/ConfigView.tsx:88-146 | for a device with every field present and not NaN, saving right after loading writes nothing |
| ConfigView.ChangeSpec | web/app/components/config/ConfigView.tsx:120-126 | `handleChange` sets its own field, marks the form changed and keeps every other field |
| ConfigView.ResetSpec | web/app/components/config/ConfigView.tsx:159-163 | `handleReset` restores the device's values and clears the changed flag, so a change followed by a reset is a reset; without a device nothing happens |
| ConfigView.SaveSpec | web/app/components/config/ConfigView.tsx:128-157 | without a device nothing happens; an update is written iff the diff is non-empty; a rejected write raises the error toast and keeps the changed flag; otherwise the form is clean; the local values are kept |
| ConfigView.LoadOnce | web/app/components/config/ConfigView.tsx:107-113 | the first effect on its own: the first device seen loads the form and clears the changed flag; a later device record does not reload it while `initialized` stays set; no device changes nothing |
| ConfigView.SavedValuesReload | web/app/components/config/ConfigView.tsx:88-147 | applying the writes of a save right after load to the device record reloads to the same form, except a text field holding NaN |
| ConfigView.ConfigEditor.constructor | web/app/components/config/ConfigView.tsx:101-104 | the editor starts empty, clean, uninitialised and not saving |
| ConfigView.ConfigEditor.DeviceEffect | web/app/components/config/ConfigView.tsx:107-113 | the new state is `OnDevice` of the old |
| ConfigView.ConfigEditor.DeviceIdEffect | web/app/components/config/ConfigView.tsx:116-118 | only `initialized` is reset |
| ConfigView.ConfigEditor.HandleChange | web/app/components/config/ConfigView.tsx:120-126 | the new state is `OnChange` of the old |
| ConfigView.ConfigEditor.HandleReset | web/app/components/config/ConfigView.tsx:159-163 | the new state is `OnReset` of the old |
| ConfigView.ConfigEditor.HandleSave | web/app/components/config/ConfigView.tsx:128-157 | state, write and toast are `OnSave` of the old state; `saving` is false at the end when there is a device |
| ConfigView.ComputeUpdates | web/app/components/config/ConfigView.tsx:133-144 | the loop builds exactly `Updates` of the local form and the device |
| ConfigView.FromDevice | web/app/components/config/ConfigView.tsx:88-97 | the six fields from the device record, each defaulted when null or undefined |
| ConfigView.Updates | web/app/components/config/ConfigView.tsx:133-144 | the diff the save loop builds over `CONFIG_FIELDS` |
| ConfigView.HasChanged | web/app/components/config/ConfigView.tsx:259 | a card is changed when its value is defined and `!==` the device's |
| ConfigView.OnDevice | web/app/components/config/ConfigView.tsx:107-113 | the first effect: with a device and an uninitialised form, load the form, mark it initialised and clean |
| ConfigView.OnDeviceIdChange | web/app/components/config/ConfigView.tsx:116-118 | the second effect clears `initialized` |
| ConfigView.OnChange | web/app/components/config/ConfigView.tsx:120-126 | `handleChange` sets one field and marks the form changed |
| ConfigView.OnReset | web/app/components/config/ConfigView.tsx:159-163 | `handleReset` reloads the device's values when there is a device |
| ConfigView.OnSave | web/app/components/config/ConfigView.tsx:128-157 | `handleSave`: nothing without a device; the diff is written when non-empty, and a rejected write raises the error toast |
| ConfigView.MountAsWritten | web/app/components/config/ConfigView.tsx:106-118 | on the first render both effects run in order, so the id effect's reset follows the load |
| ConfigView.MountAsWrittenDiscardsEdits | web/app/components/config/ConfigView.tsx:106-118 | as written, after mounting with a device an edit is discarded by the next device record: the form reloads and is marked clean |
| ConfigView.Mount | web/app/components/config/ConfigView.tsx:106-118 | mounting with the reset kept to actual id changes: only the load takes effect |
| ConfigView.SwitchDevice | web/app/components/config/ConfigView.tsx:106-118 | a later change of device id: the reset, then the load of the new record |
| ConfigView.MountLoadsOnce | web/app/components/config/ConfigView.tsx:106-118 | with the corrected mount the form loads once per device id: edits survive every later record of the same device, and switching the id loads the new record into a clean form |
| CommandSuggestions.GetOrLoadSpec | web/app/hooks/useCommandSuggestions.ts:39-48 | without a user: an empty chain and no change; a cached chain is returned as it is; otherwise the saved chain (or an empty one) is loaded into the cache; a second call then returns the same chain and changes nothing |
| CommandSuggestions.ChangeToSameUser | web/app/hooks/useCommandSuggestions.ts:61-62 | `CHANGE_USER` to the user already held returns the state unchanged |
| CommandSuggestions.AddCommandReduces | web/app/hooks/useCommandSuggestions.ts:68-74 | `ADD_COMMAND` without a user changes nothing; with one, the chain becomes `addCommandToChain` of the old, the user is kept, the new chain is written to cache and storage so that loading the user returns it, and other users' cached chains are kept |
| CommandSuggestions.RecordCommandSpec | web/app/hooks/useCommandSuggestions.ts:122-125 | `recordCommand` dispatches nothing exactly when there is no user or the command is blank; the trimmed command it dispatches adds to the chain exactly as the command itself |
| CommandSuggestions.AddAllCount | web/app/hooks/useCommandSuggestions.ts:128 | every non-blank command recorded raises `getCommandCount` by one |
| CommandSuggestions.EnoughHistoryAfterFive | web/app/hooks/useCommandSuggestions.ts:128-131 | starting from an empty chain, `hasEnoughHistory` holds exactly when at least five non-blank commands were recorded |
| CommandSuggestions.DedupeMember | web/app/hooks/useCommandSuggestions.ts:147-152 | the first loop keeps exactly the Markov suggestions other than the input |
| CommandSuggestions.DedupeDistinct | web/app/hooks/useCommandSuggestions.ts:147-152 | ... and each of them once |
| CommandSuggestions.FallbacksMember | web/app/hooks/useCommandSuggestions.ts:158-163 | the filter keeps exactly the fallback commands that start with the input ignoring case, differ from it and were not seen |
| CommandSuggestions.FallbacksDistinct | web/app/hooks/useCommandSuggestions.ts:158-163 | a fallback list without repeats gives matches without repeats |
| CommandSuggestions.FillShape | web/app/hooks/useCommandSuggestions.ts:156-170 | the results stay in front; matches are added only when there is room, never beyond `maxSuggestions`, in their order |
| CommandSuggestions.CombinedSpec | web/app/hooks/useCommandSuggestions.ts:141-170 | entries after the Markov results are fallback matches not among the Markov suggestions; no entry is the input; no repeats when the fallback list has none |
| CommandSuggestions.CombinedDistinct | web/app/hooks/useCommandSuggestions.ts:142-162 | the `seen` set makes the results and the matches disjoint, so their concatenation has no repeats |
| CommandSuggestions.MergeSpec | web/app/hooks/useCommandSuggestions.ts:141-172 | at most `maxSuggestions` entries: the deduplicated Markov suggestions first, in order, then fallback matches only once those are exhausted; none is the input; distinct when the fallback list is |
| CommandSuggestions.ForInputSpec | web/app/hooks/useCommandSuggestions.ts:134-173 | blank input gives nothing; otherwise at most `maxSuggestions` entries, none the trimmed input, each a Markov suggestion for it or a fallback command extending it, distinct when the fallback list is |
| CommandSuggestions.SliceFill | web/app/hooks/useCommandSuggestions.ts:156-172 | cutting the topped-up list to `maxSuggestions` keeps the results in front and as many of the matches as fit after them, in order: `min(maxSuggestions, results + matches)` entries |
| CommandSuggestions.MergeFill | web/app/hooks/useCommandSuggestions.ts:141-172 | the merged list is the deduplicated Markov suggestions topped up with the fallback matches, in order, to `maxSuggestions` entries, or all of both when there are fewer |
| CommandSuggestions.ForInputFill | web/app/hooks/useCommandSuggestions.ts:134-173 | for non-blank input the result keeps the deduplicated Markov suggestions up to `maxSuggestions` and supplements them with the matching fallback commands in order: `min(maxSuggestions, results + matches)` entries |
| CommandSuggestions.MergeAllowed | web/app/hooks/useCommandSuggestions.ts:145-170 | every entry is a Markov suggestion or a fallback command that extends the input |
| CommandSuggestions.DedupeSuggestions | web/app/hooks/useCommandSuggestions.ts:141-152 | the loop yields `Dedupe` of the Markov suggestions, and `seen` is exactly the set of what it pushed |
| CommandSuggestions.AppendAll | web/app/hooks/useCommandSuggestions.ts:166-169 | the loop pushes every match in order and adds each to `seen` |
| CommandSuggestions.AddFallbacks | web/app/hooks/useCommandSuggestions.ts:156-170 | the fallback step yields `Fill` of the results with the filtered fallback matches |
| CommandSuggestions.ChainStore.constructor | web/app/hooks/useCommandSuggestions.ts:37 | the cache starts empty, in front of the given storage |
| CommandSuggestions.ChainStore.GetOrLoadChain | web/app/hooks/useCommandSuggestions.ts:39-48 | cache and chain returned are `GetOrLoad` of the old store |
| CommandSuggestions.ChainStore.ChainReducer | web/app/hooks/useCommandSuggestions.ts:59-78 | store and state afterwards are `Reduce` of the old |
| CommandSuggestions.ChainStore.GetSuggestionsForInput | web/app/hooks/useCommandSuggestions.ts:134-173 | blank input returns nothing and touches no cache; otherwise the cache is that of `GetOrLoad` and the result is `ForInput` of the user's chain |
| CommandSuggestions.Load | web/app/utils/markov.ts:172-188 | `loadChainFromStorage`: the saved chain, or an empty one when none is saved |
| CommandSuggestions.GetOrLoad | web/app/hooks/useCommandSuggestions.ts:39-48 | no user gives an empty chain; a cached chain is returned; otherwise the saved chain is loaded into the cache |
| CommandSuggestions.Reduce | web/app/hooks/useCommandSuggestions.ts:59-78 | `CHANGE_USER` to another user fetches that user's chain; `ADD_COMMAND` with a user records the command and saves the chain to the cache and to storage; `CHANGE_USER` to the current user and `ADD_COMMAND` without a user change nothing |
| CommandSuggestions.Merge | web/app/hooks/useCommandSuggestions.ts:141-172 | the deduplicated Markov suggestions, then the fallbacks that fit, cut to `maxSuggestions` |
| CommandSuggestions.ForInput | web/app/hooks/useCommandSuggestions.ts:134-173 | nothing for blank input; otherwise the merge of the chain's suggestions for the trimmed input with the fallbacks |
| CommandInput.KeysIgnoredWhenNotShown | web/app/components/console/CommandInput.tsx:34-43 | while the list is empty or dismissed, every key leaves the state unchanged |
| CommandInput.ArrowKeys | web/app/components/console/CommandInput.tsx:45-50 | ArrowDown advances the highlight but never past the last suggestion; ArrowUp moves it back and gives -1 from 0 or -1; neither changes the text or dismisses the list |
| CommandInput.AcceptAndDismiss | web/app/components/console/CommandInput.tsx:51-59 | Tab/Enter with a highlight take that suggestion as the text and dismiss the list, with none highlighted they do nothing; Escape only dismisses |
| CommandInput.SubmitSpec | web/app/components/console/CommandInput.tsx:62-72 | blank text or a disabled input emits nothing and changes nothing; otherwise the non-empty trimmed text is emitted, the text cleared and the list dismissed |
| CommandInput.ChangeKeepsIndexInRange | web/app/components/console/CommandInput.tsx:36-40 | typing resets the highlight to -1, which is in range |
| CommandInput.KeyKeepsIndexInRange | web/app/components/console/CommandInput.tsx:42-60 | keys keep the highlight at -1 or above and below the number of suggestions shown, so `suggestions[suggestionIndex]` is defined whenever Tab or Enter reads it, as long as the suggestion function does not change between renders |
| CommandInput.SubmitKeepsIndexInRange | web/app/components/console/CommandInput.tsx:62-72 | submitting keeps the highlight in range |
| CommandInput.SelectKeepsIndexInRange | web/app/components/console/CommandInput.tsx:74-77 | clicking a suggestion keeps the highlight in range |
| CommandInput.CommandInputState.constructor | web/app/components/console/CommandInput.tsx:19-21 | the input starts empty, with no highlight and the list not dismissed |
| CommandInput.CommandInputState.HandleInputChange | web/app/components/console/CommandInput.tsx:36-40 | the new state is `OnChange` of the old, and the highlight stays in range |
| CommandInput.CommandInputState.HandleKeyDown | web/app/components/console/CommandInput.tsx:42-60 | the new state is `OnKey` of the old with the suggestions of the old text; the default action is prevented exactly for arrows and for Tab/Enter with a highlight, while the list is shown |
| CommandInput.CommandInputState.HandleSubmit | web/app/components/console/CommandInput.tsx:62-72 | state and emitted command are `OnSubmit` of the old state |
| CommandInput.CommandInputState.SelectSuggestion | web/app/components/console/CommandInput.tsx:74-77 | the new state is `OnSelect` of the old |
| CommandInput.OnChange | web/app/components/console/CommandInput.tsx:36-40 | typing sets the text, clears the highlight and shows the list again |
| CommandInput.OnKey | web/app/components/console/CommandInput.tsx:42-60 | keys act only while the list is shown: the arrows move the highlight within the list, Tab and Enter take the highlighted suggestion, Escape dismisses |
| CommandInput.OnSubmit | web/app/components/console/CommandInput.tsx:62-72 | blank text or a disabled input does nothing; otherwise the trimmed text is emitted, the text cleared and the list dismissed |
| CommandInput.OnSelect | web/app/components/console/CommandInput.tsx:74-77 | a click takes the suggestion as the text and dismisses the list |

## Left out

- Remote services: Firestore reads, writes and listeners, cloud-storage listings and downloads, `SERVER_TIMESTAMP`, `updateDoc`, and the browser's `localStorage`. They become maps, event sequences and oracles. Failure is modelled where the model has an input for it: the flush's write, the heartbeat, the pending-commands poll, the listing, each download and removal, and the configuration save. The writes named in the next two lines always succeed in the model, and their failure paths are not modelled.
- Executor.RunSpec: the `processing` update (agent/main.py:181), the final status update (agent/main.py:263) and the size guard's update (agent/main.py:311) always succeed. In the source each sits inside the `try` of `run()`, so a raising write lands in the handler at agent/main.py:265-271, which writes status `completed` with the exception's text as the error. The model has no such path.
- CommandSuggestions.Reduce: `saveChainToStorage` (web/app/utils/markov.ts:193-200) always stores the chain. In the source a `setItem` that throws is caught and logged, and storage keeps the previous entry.
- Threads and concurrency: the reader threads, the kill listener and the snapshot callbacks run inside the run loop, as batches of events delivered between two checks of `poll()`. `is_alive()` is an input. Interleavings inside one iteration are not modelled.
- Process control: `subprocess.Popen`, `poll`, `terminate`, `wait(timeout=5)`, `kill` and `os._exit` are an oracle. Signals and the exit are recorded, not performed.
- The loops `FileSyncer.run`, `CommandExecutor.run` and `listen_for_commands` run forever or until a flag changes. They are modelled over a finite sequence of turns or rounds given as input, so properties hold for every finite prefix of a run.
- Floating-point time: `time.time()`, `blob.updated.timestamp()`, `Date.now()` and the float retry delays become integers (agent seconds; web milliseconds) or reals (the agent's sleep arguments).
- agent/api.py and wrapper/launcher.py are not part of this model. Nor are `register`, `get_git_info`, `collect_stats` and `get_ip_address` in agent/main.py, which only gather host information over the operating system.
- Markov.AddCommandToChain: the source copies the chain shallowly, so its inner transition records are shared with the argument and changed in place. The model returns a new value and does not claim that the argument is left alone, nor does it model that aliasing.
- JavaScript objects list integer-like keys first, in numeric order. The model keeps every record in insertion order, which differs for tokens such as `10` or `2`.
- `Array.prototype.sort` is modelled as a stable insertion sort on the descending count. Ties keep insertion order, as a stable sort must.
- `loadChainFromStorage` and `saveChainToStorage` serialise to JSON in browser storage. The model keeps the chains themselves in a map by user. A user with nothing saved loads an empty chain, and so does an entry that does not parse or lacks either field; that case is not modelled separately.
- React scheduling: StrictMode's double calls, deferred state updaters and re-renders are not modelled. Each handler's updates apply at once and in order.
- The render-time `CHANGE_USER` dispatch of `useCommandSuggestions` and the per-render `effectiveFallback` choice are not modelled. The user and the fallback list are parameters; `SUGGESTED_COMMANDS_LINUX` and `SUGGESTED_COMMANDS_WINDOWS` are not part of this model.
- ConfigView.ConfigEditor.HandleSave: states `saving` only at its final value. The `await` between setting and clearing it, and the renders that see it set, are not modelled.
- ConfigView.ToNumber: covers `undefined`, `null`, integers, NaN and strings holding an optionally signed run of decimal digits. Fractions, exponents, hexadecimal and `Infinity` are read as NaN, because numbers are integers here.
- The toast provider's unmount cleanup (web/app/components/ui/Toast.tsx:68-72) and the fallback `useToast` outside a provider only log or clear timers on teardown. They are not modelled.
- The toast id (clock plus random digits) and the handle `setTimeout` returns are parameters; the timer's firing is the caller's later call of `RemoveToast`.
- Time.RelativeBuckets: a string timestamp passed to `new Date(...)` is not modelled. Timestamps are absent, numbers or objects holding their millisecond value.
- `formatDate` depends on the locale through `toLocaleString`, and is left out.
- Whitespace and case are ASCII only: `trim`, `strip`, `\s` and `toLowerCase` ignore the other Unicode characters they treat.
- CommandSuggestions.MergeSpec: distinctness of the result is proved only when the fallback list has no repeats. A fallback list with a repeated command can yield that command twice, because the filter runs before anything is added to `seen`.
- Presentation-only components, the icons, the API explorer panels, `LogOutput`, the swipe gestures, the console and shared-folder views, and build scripts are not part of this model.
- Markov.AddCommand: records are lists of string keys, and every key behaves alike. The source keeps them in plain objects `{}`, where keys such as `constructor`, `toString` or `__proto__` resolve through `Object.prototype` (a count added to a function's text, a prototype replaced). That behaviour is not modelled.
- Executor.CancelledError: trims with the same ASCII whitespace as the web side. Python's `strip()` at agent/main.py:260 also removes the separators `\x1c` to `\x1f` and non-ASCII spaces; the model keeps them.
- Executor.CancelledError: the document's `error` field is absent or a string. A document holding `error: None`, or a non-string, makes the concatenation at agent/main.py:260 raise `TypeError`, which the handler at agent/main.py:265-271 catches. That path is not modelled.
- AgentRetry.RunFrom: `time.sleep` accepts any delay. With a negative `retry_delay` the source's `time.sleep` raises `ValueError` inside the handler, and that error ends the call; the model records the negative sleep and retries.
- AgentRetry.RunFrom: every failure is an `Exception`, listed or not. A `BaseException` that is not one (such as `KeyboardInterrupt` or `SystemExit`) and is not in `exceptions` passes both handlers at agent/retry.py:100 and agent/retry.py:110 and escapes `with_retry` even under `suppress_final_error`, and likewise the decorator at agent/retry.py:50-62; the outcome type has no such case.
- FileSync.Step: a failed download leaves the folder as it was. In the source `download_to_filename` can leave a partial file behind, with a fresh modification time, so a later cycle may never replace it.
- CommandInput.KeyKeepsIndexInRange: holds while the suggestion function stays the same between renders. When the hook's function changes (a new user or a new chain), the list can shrink under a kept highlight; the model does not follow that.

## Findings

| source | as written | input that shows it | evidently intended | confidence | as-written member | corrected member |
|---|---|---|---|---|---|---|
| web/app/components/config/ConfigView.tsx:106-118 | on mount both effects run; the id effect's `setInitialized(false)` follows the load's `setInitialized(true)`, so `initialized` stays false | mount with a device record, edit a field, then any new record of the same device (a heartbeat rewrites it every 10 s): the form reloads and the edit is lost | the form loads once per device id, as the comment at line 106 says, and the reset applies only when the id changes | not executed | ConfigView.MountAsWritten, ConfigView.MountAsWrittenDiscardsEdits | ConfigView.Mount, ConfigView.SwitchDevice, ConfigView.MountLoadsOnce |
