# Verified models of the workflow server

This project models, in Dafny, the parts of the server that carry state, loops or
protocols of their own, and proves what they promise. Each part stands alone.

* **Workflow chain runner.** Runs of chained workflows are driven by one goroutine
  each. `ChainRun` is one goroutine as a step machine (one store access, orchestrator
  call or branch per step); `ChainSystem` puts any number of goroutines beside calls of
  `Start` and `Cancel` (with the mutex, the registry and the unlocked reads kept
  apart), handoffs to pending steps, crashes at any point and the sweep at startup.
  Every theorem is about `Play(Boot(), actions)` for an arbitrary sequence of actions.
  `ChainRunner.Runner` is the program itself, an object whose methods rewrite the store
  and the registry; every method proves that what it did is a sequence of actions of
  the system, with arbitrary actions of the others in between.
* **Login rate limiter.** A bucket per key, compacted in place, against the full
  history of accepted calls.
* **Terminal input capture.** Escape stripping, control bytes, the line splitter, and
  the goroutine's loop, against a reference that reads one key at a time.
* **Stored passwords.** The PHC string format with its decimals and unpadded base64
  (sections 3.2 and 4 of RFC 4648); the key derivation is a parameter.
* **Artifact tree.** Storing and deleting files in a directory tree, against a plain
  map from keys to contents.
* **Listing of system agent runs.** The newest rows of three sources that were already
  cut to their newest rows.

What the chain runner is assumed to work on: writes to the store succeed; reads,
opening the store, `orch.Start` and polls may fail; `GetNextPendingStep` returns the
pending step of lowest position; `GetActiveRuns` returns the runs in status "running".
A `ListRunSteps` that fails returns the rows read so far, and the wind-downs overlook the
error, so they may discard only part of the steps.

The marks on a `Job` say what has happened to a run. `clean` and `spoiled` record what
Start found when it wrote "running" (no failed or canceled step; a failed or canceled
step before a pending one). `working` says that nobody has written a final status since,
`orphaned` that the goroutine was lost meanwhile (a crash, or `failRun` could not open
the store), `unlisted` that the last listing for a wind-down left out a step it should
have discarded, and `raced` that Start or Cancel wrote over a status other than
"pending". Every Start sets all but `spoiled` and `raced` anew.

Some of what one would like to promise depends on how Start and Cancel are used, because
both read the status outside the lock that guards the registry:

* The steps of a run, and its launches, are in order, and "completed" means that every
  step is, for every run that is given to Start at most once (`StartedOnceIsSafe`), with
  any racing of Cancel, crashes and failing reads. Both callers in the repository
  (be/internal/api/handlers_workflow_chain_runs.go:48 and
  be/internal/scheduler/scheduler_dispatch.go:93) call Start once, right after the run is
  created, so no run of theirs gets out of order. With two calls on one run it can:
  `StepsOutOfOrder` and `CompletedOverCanceled` are such runs. `OrderBreaksExactly` names
  the one action that breaks the order of the steps, the start of a step while the row of
  an earlier one is not completed, and `LaunchOrderBreaksExactly` the one that breaks the
  order of the launches, a launch under the same condition. `InOrderThroughout` and
  `LaunchedInOrderThroughout` say that the order is kept if and only if that action never
  happens.
* A terminal status can be left again, for instance by a Start that read "pending" before
  a Cancel wrote (`CanceledRunRestarts`). `FinalityBreaksExactly` lists the actions that
  do it, and `FinalThroughout` says that a status stays if and only if none of them
  happens. `UndisturbedIsSafe` is the special case in which no status changes between a
  read of Start or Cancel and the write that relies on it.
* A run whose context is canceled ends "canceled" only if its goroutine still looks at the
  context: `VerdictExactly` tells the verdict of every goroutine from its looks and from
  what failed. For a run canceled in the middle of a step the row of that step tells it
  (`StruckVerdict`): "failed" if the step's workflow had ended without success, "canceled"
  in every other case.
* A failed run keeps pending steps exactly if the listing left them out
  (`TerminalExact`, `FailedRunKeepsPending`), and a run stays "running" without a
  goroutine exactly if it is orphaned (`RunningIsRegistered`, `RunningWithoutGoroutine`).
* A ticket or instructions handed to a pending step are what it is launched with, through
  crashes, sweeps and restarts, if no goroutine is between `GetNextPendingStep` reading the
  row and the mark "running" (`HandedIsLaunched`). In that window (`HandoffWindow`) they
  are stored but not launched (`HandoffIsLost`). A step that was read without the ticket it
  requires is not launched at all but fails (`MissingTicketFails`), every other is launched
  (`LaunchedUnlessMissing`).
* `cancelRun` never stops a live instance: by the time it lists the steps, its own
  goroutine has settled the running one (`NoInstanceIsStopped`).

The comment in the password code lists an empty first field and the version among what
is expected; the code looks at neither (`VersionIsIgnored`), and the model follows the
code. The comment on `FailAllRunning` speaks of shutdown; recovery is proved for a sweep
without live goroutines.

## Model

| member | source | states |
|---|---|---|
| ChainRun.NextPending | be/internal/repo/workflow_chain_run.go:201-213 | the step selected is pending and every step before it is not; none is selected only if none is pending |
| ChainPreservation.ExecKeeps | be/internal/chainrunner/loop.go:15-177 | every atomic action of a goroutine, a call, a crash or a sweep keeps the invariant of the lock, the registry, the calls in flight and every run |
| ChainPreservation.ReachableInv | be/internal/chainrunner/chainrunner.go:45-164 | the invariant holds after every sequence of actions |
| ChainTheorems.MutualExclusion | be/internal/chainrunner/chainrunner.go:62-79 | in every interleaving at most one goroutine per run is alive |
| ChainTheorems.RegisteredExactly | be/internal/chainrunner/loop.go:16-20 | a run is in the registry exactly from its goroutine's registration to the deferred delete; with the lock free, exactly while a goroutine is alive |
| ChainTheorems.EmptyRegistryIsIdle | be/internal/chainrunner/chainrunner.go:121-133 | with the lock free the registry is empty if and only if no goroutine is alive |
| ChainTheorems.RunningIsRegistered | be/internal/chainrunner/chainrunner.go:62-76 | with the lock free a run in status "running" has a goroutine that has not ended its work if and only if it is not orphaned, a mark that every Start takes away |
| ChainTheorems.StepsInOrder | be/internal/chainrunner/loop.go:32-70 | in every reachable state, also in the middle of a wind-down or sweep and after crashes, the steps are completed ones, then at most one running or failed one, then pending and canceled ones, and the launches were in order, unless a Start found a failed or canceled step together with a pending one |
| ChainTheorems.ShapedMatches | be/internal/chainrunner/loop.go:32-70 | the shape used by the other theorems is the regular expression completed* (running or failed)? (pending or canceled)*, in both directions |
| ChainTheorems.TerminalExact | be/internal/chainrunner/loop.go:143-177 | for every run: "completed" means every step completed if and only if none had failed or was canceled when Start wrote; "failed", and "canceled" once the work is over, leave the steps wound down if and only if the listing left nothing out and the order was kept; a run canceled before its start keeps every step pending |
| ChainTheorems.CanceledAtWork | be/internal/chainrunner/chainrunner.go:100-105 | a run at work is in another status than "running" only if a Cancel wrote "canceled" over it |
| ChainTheorems.SweepLeavesNoneRunning | be/internal/chainrunner/chainrunner.go:147-163 | when a sweep whose query worked ends without a crash no run is "running" |
| ChainTheorems.PositionIsCurrent | be/internal/chainrunner/loop.go:79-141 | from the handoff check to the step's outcome the run's current position is that of its one running step |
| ChainTheorems.CompletedWasObserved | be/internal/chainrunner/loop.go:124-137 | a completed step's instance was observed finished and successful |
| ChainTheorems.InOrderMatches | be/internal/chainrunner/loop.go:32-70 | launches in order, as the other theorems use it, says that before every launch in the history every earlier step's instance was observed finished and successful, in both directions |
| ChainTheorems.NeverWithoutTicket | be/internal/chainrunner/loop.go:96-112 | a ticket step that requires a handoff is never launched with an empty ticket, and the request names the step's own workflow and scope |
| ChainTheorems.StoredIsWhatWasSent | be/internal/chainrunner/loop.go:106-122 | the ticket and instructions stored with an instance are those sent in the call of the orchestrator that returned this instance |
| ChainTheorems.NoInstanceIsStopped | be/internal/chainrunner/loop.go:146-156 | the arm of cancelRun that stops a running instance is not reached in any run |
| ChainTheorems.CancelOvershoot | be/internal/chainrunner/chainrunner.go:83-111 | after the cancel function was called at most one more launch happens; if a step was executing then, no later step is launched, the run is never "completed", and once the goroutine has written its verdict it is "failed" or "canceled" |
| ChainOnce.StruckNeverCompletes | be/internal/chainrunner/chainrunner.go:83-111 | a run given to Start at most once whose context was canceled while a step was executing is "completed" in no later state, also after its goroutine is gone |
| ChainVerdicts.VerdictExactly | be/internal/chainrunner/loop.go:31-71 | the verdict of every goroutine: "canceled" if and only if at a look at the context, between steps or after a step's error, it found it done; "failed" if and only if opening the store or reading the next step failed, an instance ended without success, or a step ended in an error with the context alive; "completed" if and only if it found no step pending; once written it is the status, unless a Cancel wrote "canceled" over it |
| ChainVerdicts.StruckVerdict | be/internal/chainrunner/loop.go:55-70 | a run whose context was canceled while a step was executed ends "failed" if and only if the row of that step is failed and has an instance, and "canceled" otherwise |
| ChainVerdicts.CancelReaches | be/internal/chainrunner/chainrunner.go:83-111 | the cancel function cancels the goroutine's context for good, and the first call settles which step the verdict is told from |
| ChainVerdicts.ReplyIsStored | be/internal/chainrunner/loop.go:114-122 | the instance that orch.Start returned is the one the step's row holds while it is watched and afterwards |
| ChainProgress.OneMoreLaunch | be/internal/chainrunner/chainrunner.go:83-111 | between any two states of a canceled goroutine the history grows by at most one launch |
| ChainWrites.OrderBreaksExactly | be/internal/chainrunner/loop.go:40-83 | steps in order get out of order by an action if and only if it starts a step while an earlier one is not completed |
| ChainWrites.InOrderThroughout | be/internal/chainrunner/loop.go:40-83 | over any run of the system the steps are always in order if and only if no such step is ever started |
| ChainLaunches.ObservedIsCompleted | be/internal/chainrunner/loop.go:124-137 | when a goroutine is about to launch a step, an earlier step's instance was observed finished and successful if and only if its row is completed |
| ChainLaunches.LaunchOrderBreaksExactly | be/internal/chainrunner/loop.go:106-114 | launches in order get out of order by an action if and only if it launches a step while the row of an earlier one is not completed |
| ChainLaunches.LaunchedInOrderThroughout | be/internal/chainrunner/loop.go:91-124 | after any run of the system every launch was preceded by the observation of every earlier step if and only if no step was ever launched while the row of an earlier one was not completed |
| ChainLaunches.InOrderLaunches | be/internal/chainrunner/loop.go:91-124 | a run whose steps were always in order was launched in order |
| ChainWrites.FinalityBreaksExactly | be/internal/chainrunner/chainrunner.go:68-105 | a terminal status changes by an action if and only if it is a write of Start, a write of Cancel over another status, or the goroutine's write of a verdict that differs from it; and the exact actions that still change a step's status |
| ChainWrites.FinalThroughout | be/internal/chainrunner/chainrunner.go:68-105 | over any continuation a terminal status stays, alone or with its steps' statuses, if and only if no such action happens |
| ChainOnce.StartedOnceIsSafe | be/internal/api/handlers_workflow_chain_runs.go:47-52 | for a run given to Start at most once: order of steps and launches in every reachable state, "completed" means every step completed, and wound down if and only if the listing left nothing out |
| ChainHandoff.LaunchedAsHanded | be/internal/chainrunner/loop.go:40-112 | a step is launched with the workflow, scope, ticket and instructions its row had when GetNextPendingStep read it, or the run's initial instructions where it had none |
| ChainHandoff.HandoffWindow | be/internal/chainrunner/loop.go:40-83 | a step in execution can still be handed something if and only if its goroutine has read the row and not yet marked it running |
| ChainHandoff.HandedIsLaunched | be/internal/repo/workflow_chain_run_step.go:24-66 | a ticket or instructions handed to a pending step that no goroutine has read and not yet marked are what every later launch of it carries, unless the same is handed over again, through crashes, sweeps and restarts; empty instructions stand for the run's initial ones |
| ChainHandoff.HandoffIsLost | be/internal/chainrunner/loop.go:79-112 | a ticket or instructions handed over in that window are stored but the step is launched with the row read before |
| ChainHandoff.MissingTicketFails | be/internal/chainrunner/loop.go:101-104 | a step read without the ticket it requires is never launched by that goroutine, whatever is handed over from then on, and ends failed |
| ChainHandoff.LaunchedUnlessMissing | be/internal/chainrunner/loop.go:91-114 | a step read with the ticket it requires, or requiring none, is launched with what its row asked for |
| ChainProgress.OutcomesAreFinal | be/internal/chainrunner/loop.go:124-140 | a step's outcome is never rewritten and no step becomes pending again, races, crashes and sweeps included |
| ChainRaces.UndisturbedIsSafe | be/internal/chainrunner/chainrunner.go:53-105 | if no status changes between a read of Start or Cancel and the write that relies on it: order, "completed" means every step completed, wound down if and only if the listing left nothing out, and finality |
| ChainRaces.UndisturbedIsUnraced | be/internal/chainrunner/chainrunner.go:53-105 | under the same condition no run is ever raced |
| ChainRaces.CanceledRunRestarts | be/internal/chainrunner/chainrunner.go:53-76 | a reachable state where a run is "canceled" and a later one where it is "running" |
| ChainRaces.StepsOutOfOrder | be/internal/chainrunner/chainrunner.go:53-76 | with two calls of Start on one run, a reachable state where a step runs after a failed one, and one where it has been launched |
| ChainRaces.CompletedOverCanceled | be/internal/chainrunner/loop.go:46-52 | with two calls of Start on one run, a reachable state where it is "completed" over a failed and a canceled step |
| ChainRaces.FailedRunKeepsPending | be/internal/chainrunner/loop.go:162-177 | after a single call of Start and without a race, a reachable state where a failed run keeps a pending step |
| ChainRaces.RunningWithoutGoroutine | be/internal/chainrunner/loop.go:162-166 | after a single call of Start, a reachable state with an empty registry and no goroutine in which the run is "running" |
| ChainTermination.WorkLowersRank | be/internal/chainrunner/loop.go:32-141 | every action of a goroutine but a fruitless poll lowers a rank made of its pending steps and its place |
| ChainTermination.GoroutineTerminates | be/internal/chainrunner/loop.go:32-177 | besides fruitless polls a goroutine makes at most 11 actions per step and 18 more, whatever the others do |
| ChainRunner.Runner.Start | be/internal/chainrunner/chainrunner.go:46-81 | succeeds if and only if the store can be opened and read and the run exists, is pending and unregistered; it becomes "running" and registered for a new goroutine; otherwise nothing changes |
| ChainRunner.Runner.Cancel | be/internal/chainrunner/chainrunner.go:84-111 | fires the context of a registered run, writes "canceled" on a pending unregistered one, and changes nothing otherwise |
| ChainRunner.Runner.IsRunning | be/internal/chainrunner/chainrunner.go:114-119 | true if and only if a goroutine of the run is alive |
| ChainRunner.Runner.WaitAll | be/internal/chainrunner/chainrunner.go:122-133 | when it returns before the deadline no goroutine is alive |
| ChainRunner.Runner.FailAllRunning | be/internal/chainrunner/chainrunner.go:137-164 | the store afterwards is the swept store, also where listings break off, reached by actions of the system |
| ChainRunner.RecoveryCleans | be/internal/chainrunner/chainrunner.go:153-163 | after the sweep no run is "running"; a run it failed keeps a pending or running step if and only if the listing broke off before one; completed and failed steps, histories and other runs stay; a second sweep changes nothing |
| ChainRunner.Runner.RunLoop | be/internal/chainrunner/loop.go:22-71 | every access is an action of the system under arbitrary interference, the loop ends, and what it leaves is terminal (or orphaned) with the ending its status promises and the verdict it has taken a turn to; for a run canceled during a step the one the step's row tells |
| ChainRunner.Runner.RunGoroutine | be/internal/chainrunner/loop.go:15-71 | with the deferred function: at the end the goroutine is gone, the lock is free, the run is not registered, and its work is over unless it was orphaned |
| ChainRunner.Runner.StepError | be/internal/chainrunner/loop.go:56-65 | after a step's error the run ends "canceled" if the context is done, and otherwise "failed" (or orphaned) |
| ChainRunner.Runner.AwaitLock | be/internal/chainrunner/loop.go:16-20 | a goroutine that waits for the lock gets it free: each move of the holder brings the release nearer |
| ChainRunner.Runner.ExecuteStep | be/internal/chainrunner/loop.go:73-141 | its accesses are actions of the system, and the step is left completed on success, failed or canceled with an error, and failed otherwise |
| ChainRunner.Runner.PollInstance | be/internal/chainrunner/chainrunner.go:177-201 | reports success only for a finished instance, and "not finished" only when the context is canceled |
| RateLimit.RateBucket.Prune | be/internal/api/auth_ratelimit.go:19-26 | compacting the array in place leaves exactly the attempts after the cutoff, in order |
| RateLimit.RateBucket.TryAcquire | be/internal/api/auth_ratelimit.go:18-33 | decision and new attempts as functions of the old ones |
| RateLimit.LoginRateLimiter.TryAcquire | be/internal/api/auth_ratelimit.go:46-55 | the decision depends on the key's own attempts, and no other key's attempts change |
| RateLimitTheory.BucketIsRecentHistory | be/internal/api/auth_ratelimit.go:18-33 | the pruned bucket is the full accepted history cut at the window, and never longer than 5 |
| RateLimitTheory.DecidesOnFullHistory | be/internal/api/auth_ratelimit.go:18-33 | a call is accepted if and only if fewer than 5 accepted calls lie in (now - window, now] of the whole history |
| RateLimitTheory.AcceptedObeys | be/internal/api/auth_ratelimit.go:27-32 | any six accepted calls span at least a window |
| RateLimitTheory.ObeysMeansAtMostMax | be/internal/api/auth_ratelimit.go:9-12 | this says exactly that no half-open interval of window length holds more than 5 |
| RateLimitTheory.GreedyIsOptimal | be/internal/api/auth_ratelimit.go:18-33 | no selection of the calls that obeys the limit is larger than what the limiter accepts |
| RateLimitTheory.RetryAfterBounds | be/internal/api/auth_ratelimit.go:27-30 | on rejection retryAfter lies in (0, window] |
| RateLimitTheory.RetryAfterIsExact | be/internal/api/auth_ratelimit.go:27-30 | after a rejection, whatever calls come before the promised instant, a call is accepted if and only if it comes at or after it |
| RateLimitTheory.KeysAreIndependent | be/internal/api/auth_ratelimit.go:46-55 | in any interleaving what is remembered for a key is what its own calls leave |
| RateLimitTheory.AcceptedIndependently | be/internal/api/auth_ratelimit.go:46-55 | in any interleaving the calls accepted on a key are those its own calls alone would have got accepted |
| RateLimitTheory.EveryKeyKeepsTheLimit | be/internal/api/auth_ratelimit.go:46-55 | in any interleaving the calls accepted on a key keep the limit in every half-open interval of window length, and no legal selection of its calls is larger |
| RateLimitTheory.EveryKeyDecidesOnFullHistory | be/internal/api/auth_ratelimit.go:46-55 | in any interleaving a call is accepted if and only if fewer than 5 accepted calls on its key lie in its window |
| InputText.EscapeLenIsExact | be/internal/api/pty_input_capture.go:11-14 | the matcher finds the one prefix in the language of the expression, if and only if there is one |
| InputText.StripIsLeftmost | be/internal/api/pty_input_capture.go:19-19 | a sequence in front is removed and a byte that begins none is kept, told by the language alone |
| InputText.RenderPrintable | be/internal/api/pty_input_capture.go:24-41 | printable bytes stay, BEL gets its symbol, every other control byte its caret notation |
| InputText.SanitizeInput | be/internal/api/pty_input_capture.go:18-45 | the loop renders every byte left after stripping, in order |
| InputText.SanitizeFromLeft | be/internal/api/pty_input_capture.go:18-45 | from left to right: an escape sequence in front goes, any other first byte comes out in front of the rest, as itself, as the bell symbol or in caret notation |
| InputText.CapIsPrefix | be/internal/api/pty_input_capture.go:71-77 | an entry is the text itself up to 4096 bytes, and beyond that its first 4096 bytes and the ellipsis |
| InputText.RecordsText | be/internal/api/pty_input_capture.go:79-82 | text is recorded if and only if it is not a run of white space characters of Unicode |
| InputText.SanitizedIsClean | be/internal/api/pty_input_capture.go:16-45 | no byte below 0x20 but tab, LF and CR, no 0x7f, at most three times the length |
| InputText.SanitizeIsIdempotent | be/internal/api/pty_input_capture.go:16-45 | sanitizing twice is sanitizing once, even where stripping joins bytes to a new sequence |
| InputText.RecordsAscii | be/internal/api/pty_input_capture.go:79-82 | ASCII text is recorded if and only if it has a byte that is not white space |
| InputCapture.SplitLines | be/internal/api/pty_input_capture.go:49-69 | the loop yields the lines and the remainder of the unique parse |
| InputCapture.SplitIsParse | be/internal/api/pty_input_capture.go:47-69 | the data is the lines interleaved with CR, LF, CR LF or LF CR, then the remainder; no piece holds a line ending and mixed pairs are always taken whole |
| InputCapture.ParseIsUnique | be/internal/api/pty_input_capture.go:47-69 | there is no other such parse |
| InputCapture.CaptureSession.Receive | be/internal/api/handlers_pty.go:195-219 | a chunk records the entries of the lines it completes and leaves the remainder buffered |
| InputCapture.CaptureSession.Tick | be/internal/api/handlers_pty.go:200-205 | a pause records what is buffered, if it is worth it, and empties the buffer |
| CaptureTheory.ScheduleIsKeys | be/internal/api/handlers_pty.go:207-230 | any schedule of chunks and pauses leaves the lines with content and the buffer that its keys leave one by one |
| CaptureTheory.ChunkIndependence | be/internal/api/handlers_pty.go:207-230 | the recorded entries and the final buffer depend on the bytes and pauses only, not on the chunks |
| CaptureTheory.WholeStream | be/internal/api/handlers_pty.go:207-219 | a stream in chunks is recorded as if it had come at once, also where a CR LF pair is cut |
| CaptureCuts.CutsThatChangeLines | be/internal/api/pty_input_capture.go:60-66 | for any state and any cut: the lines change if and only if the cut is behind an unpaired CR or LF that an odd number of alternating CR and LF follow, and then by one empty line at the cut |
| CaptureTheory.LinesDependOnChunks | be/internal/api/pty_input_capture.go:60-66 | the shortest such cut |
| CaptureTheory.EntriesOfSolid | be/internal/api/pty_input_capture.go:79-82 | the extra empty lines are what is not recorded |
| CaptureTheory.CaptureConserves | be/internal/api/handlers_pty.go:190-230 | pieces and buffer together are the bytes received without CR and LF, and the buffer holds no line ending |
| CaptureTheory.ClosedConserves | be/internal/api/handlers_pty.go:210-213 | once the channel is closed every such byte has gone into a piece |
| CaptureTheory.EntriesAreClean | be/internal/api/pty_input_capture.go:71-82 | every recorded entry is free of control bytes and at most 4096 bytes plus the ellipsis |
| CaptureTheory.EntryPerPiece | be/internal/api/handlers_pty.go:195-219 | each piece is recorded by itself, in order: its sanitized, capped text if that is worth recording, else nothing |
| CaptureTheory.TextIsRecorded | be/internal/api/handlers_pty.go:195-219 | a line of printable text, typed into an empty buffer and ended, is recorded as it was typed |
| Base64.DecodeEncode | be/internal/auth/password.go:60-68 | decoding undoes encoding, for all data |
| Base64.DecodeAccepts | be/internal/auth/password.go:60-68 | text decodes if and only if, line endings apart, it is digits and leaves no digit alone |
| Base64.CharIsInAlphabet | be/internal/auth/password.go:35-41 | the digits are the standard alphabet in its order |
| Base64.EncodeIsNumbers | be/internal/auth/password.go:35-41 | four digits stand for the same number as three bytes, and zero bits fill up the last digit |
| Base64.DecodeIsNumbers | be/internal/auth/password.go:60-68 | what is decoded stands for the numbers of the digits, line endings apart |
| Base64.LineEndingsAreSkipped | be/internal/auth/password.go:60-68 | a line ending anywhere in the text makes no difference, and nothing else is skipped |
| Password.ParseFormat | be/internal/auth/password.go:36-68 | a printed hash reads back as the costs, salt and key printed, for all of them |
| Password.FormatIsInjective | be/internal/auth/password.go:36-42 | no two hashes print alike |
| Password.HashThenVerify | be/internal/auth/password.go:28-76 | a stored hash accepts a password if and only if it derives the same key, and always the one it was made from |
| PasswordLaws.VerifyExactly | be/internal/auth/password.go:47-76 | for every text: malformed if and only if it is not six dollar-free fields, the second "argon2id", the fourth readable costs, the last two base64; accepted if and only if the password derives the key of the last field with the salt and costs of the others |
| PasswordLaws.ParsesExactly | be/internal/auth/password.go:48-68 | a text is read if and only if it is such fields joined |
| PasswordLaws.ScanCostsExactly | be/internal/auth/password.go:54-58 | costs are readable if and only if they are the three numbers behind "m=", ",t=" and ",p=", with white space in front, by the weight of their digits and within 32, 32 and 8 bits |
| PasswordLaws.HashText | be/internal/auth/password.go:28-42 | what is stored is "$argon2id$v=19$m=65536,t=3,p=2$", the salt, "$" and the key derived with these costs |
| PasswordLaws.PrintIsDecimal | be/internal/auth/password.go:36-42 | numbers are printed as their decimal digits without leading zeros |
| Password.CanonicalForm | be/internal/auth/password.go:47-76 | any accepted way to write a hash checks passwords as its printed form does |
| Password.VersionIsIgnored | be/internal/auth/password.go:48-52 | the text before the first dollar sign and the version have no influence |
| Password.TextAfterCostsIsIgnored | be/internal/auth/password.go:54-58 | nor has text after the parallelism |
| Password.FieldsJoin | be/internal/auth/password.go:48-48 | the fields joined by dollar signs are the text, and hold none |
| Password.FieldsOfJoin | be/internal/auth/password.go:48-48 | any dollar-free fields joined split into the same fields |
| ArtifactStore.InternalFS.Put | be/internal/artifact/internalfs.go:39-69 | on a reliable file system it succeeds if and only if the source can be read, no file lies on the way and the key is no directory; success stores the data, also over a file, makes directories on the way where there was nothing, and changes nothing else; failure takes nothing away and leaves no temporary file |
| ArtifactStore.InternalFS.Delete | be/internal/artifact/internalfs.go:75-88 | succeeds on a file and on an empty directory; removes it and exactly the directories strictly below the root that held nothing else; the climb ends |
| ArtifactTree.PutThenDelete | be/internal/artifact/internalfs.go:39-88 | storing under a new key and deleting it restores the tree if and only if the root was there and the nearest existing directory is the root or not empty |
| ArtifactTree.PutThenDeleteRestores | be/internal/artifact/internalfs.go:39-88 | with no empty directory below the root, if and only if the root was there |
| ArtifactTree.DirsAloneLeaveEmpty | be/internal/artifact/internalfs.go:42-54 | a store that fails after making directories leaves an empty one below the root if and only if it had to make one there |
| ArtifactTree.ClimbIsModest | be/internal/artifact/internalfs.go:80-86 | climbing removes directories only, only strictly below the root, and changes nothing else |
| ArtifactTree.RunKeeps | be/internal/artifact/internalfs.go:39-88 | over any run of operations the tree stays well formed, the root stays and no empty directory appears below it |
| ArtifactTree.RunIsStore | be/internal/artifact/internalfs.go:39-88 | over any run each key holds what was last stored under it and not deleted |
| ArtifactTree.SucceedsExactly | be/internal/artifact/internalfs.go:39-88 | a store succeeds if and only if nothing on the way is a file and the key is no directory; a delete if and only if the key is a file or an empty directory |
| ArtifactTree.StoringOverwrites | be/internal/artifact/internalfs.go:65-65 | a key that holds a file can be stored again and then holds the new data |
| ArtifactTree.PutFileExactly | be/internal/artifact/internalfs.go:39-69 | place by place what a store makes of the tree |
| ArtifactTree.DeleteFileExactly | be/internal/artifact/internalfs.go:75-88 | place by place what a delete takes away: the file, and a directory below the root if and only if everything in it lay on the way |
| SystemAgentRuns.List | be/internal/api/handlers_system_agent_runs.go:17-87 | the listed times are the newest of the sessions' and rotations' times and the folds' fold times, at most 1 to 200 of them and 50 by default; every row is a session, a rotation or a fold with its own columns and time; what is not listed is no newer than what is |
| SystemAgentRuns.ListingIsNewest | be/internal/api/handlers_system_agent_runs.go:41-87 | it is the newest rows of the three uncut tables together, at the precision at which each source gives the newest rows of its own, exact or for instance a second; it is in exact order, and every row comes from a source |
| SystemAgentRuns.TimesAreDetermined | be/internal/api/handlers_system_agent_runs.go:84-87 | at a given precision the times listed are the same for every order of equal times |

## Left out

- Orchestrator, repositories, service and console packages: the chain runner's calls into them are actions with arbitrary replies.
- Failing store writes in the chain runner: they are assumed to succeed.
- Handing a ticket or instructions over: any pending step may receive them, which covers the one the handoff tools pick.
- FailAllRunning beside live goroutines at shutdown: a goroutine may rewrite steps after the sweep, so recovery is proved for startup only.
- ChainRunner.Runner.Start: the method runs without interruption; interleavings of its steps are in the system's theorems.
- ChainRunner.Runner.Cancel: likewise without interruption.
- ChainRunner.Runner.PollInstance: the number of polls is finite but arbitrary; an instance that never finishes keeps its goroutine waiting.
- ChainTheorems.LaunchedInOrder: a corollary under the condition on Start that StepsInOrder has; the exact condition is in ChainLaunches.LaunchedInOrderThroughout.
- ChainProgress.TerminalIsFinal: a corollary for runs without races; the exact condition is in ChainWrites.FinalThroughout.
- ChainRunner.Runner.WaitAll: the deadline is a number of rounds.
- ChainRunner.Runner.AwaitLock: between the last check and the goroutine's own lock only the holder of the lock moves; that a mutex is fair to the one who waits is not modelled.
- WebSocket broadcasts and logging of the chain runner.
- The order in which two calls on one key of the rate limiter read the clock: it is read under the lock, so the times are taken to be nondecreasing.
- Dropped input when the capture channel is full, and the timer: chunks and pauses come in any order.
- The sharing of one backing array between the capture buffer and its remainder: both are values.
- Argon2 itself, the randomness of salts and constant-time comparison: the key derivation is a function that may refuse its costs.
- Password.HashThenVerify: does not say that different passwords derive different keys, which is a matter of Argon2.
- Concurrent operations on the artifact tree, permissions, and keys that are empty or hold "." or "..": keys are nonempty sequences of segments.
- ArtifactTree.RunIsStore: is about operations that succeed or fail for reasons in the tree; a file system that fails on its own is in the contracts of Put and Delete.
- The queries behind the listing: each source returns the newest rows of its table at some precision. A query that orders timestamps as RFC 3339 text whose trailing zeros are trimmed does so to the second, since rows within one second may be ordered, and cut, differently; the listing is then the newest rows to the second.
- The "since" filter of the listing, which the queries apply.
- HTTP handlers, routes, middleware and the predicates for authorization: short case distinctions.
