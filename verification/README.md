# Wrenyard verification

A Dafny model of the state machines, transformations and measurements that the rest of
Wrenyard relies on, with proofs about every input and every run. `dafny verify
dfyconfig.toml` checks all of it.

The modules follow the source files. Where the source updates variables, there is a class
with those fields, one method for every handler or loop, and a pure specification that each
method is proved against; the theorems are about the specification, over runs of any length.
Everything the code cannot decide (whether a process dies, a write fails, a reply comes) is
an argument of a step, so a theorem covers every way it can go.

- `SessionSpec`, `SessionRuns`, `SessionOutcomes`, `ProcessSession`, `EventQueue`: a spawned
  process. Spawn, close, exit, timers, cancel, stream faults and queue overflow race into one
  outcome, told from the list of actions alone, that is published once, in order, after the
  process tree and the files were dealt with.
- `Utf8`, `BufferTail`: the byte tails of the result, and the rune boundary they start at.
- `OwnedFiles`: files written for a run and taken back.
- `GenerationWindows`, `TokenizerGeneration`: streaming windows and the tokens in them,
  against the union of half-open intervals. The tokenizer is a function parameter.
- `WindowsQuoting`, `DesktopExec`: printers, with the reference parsers of the C runtime and
  of the Desktop Entry Specification (sections 4 and 7), and their round trips.
- `SubscriptionEconomics`: sampled instants that stand for every millisecond of a horizon.
- `SemVer`, `Lexicographic`: the version grammar and section 11 of SemVer 2.0.0.
- `IpcSpec`, `IpcClient`: newline-delimited JSON-RPC behind a version handshake.
- `LedgerSpec`, `LedgerRelay`: subscriptions to an append-only ledger.
- `QuitSpec`, `QuitController`: draining, stopping, cancelling and exiting.
- `SupervisorSpec`, `SupervisorRuns`, `DaemonSupervisor`: serialised starts and limited restarts.
- `StatsCache`: a generation-fenced, single-flight cache.
- `ModelIds`: wire names of models and the way back.
- `Wrappers`, `Strings`: a missing value, and what JavaScript's string functions share.

## Where the code and its documentation part

The model follows the code; each of these is proved, with the exact condition.

- A rune cut short at the end of a stream is not dropped from the result, although the
  comment at packages/execution/src/session.ts:225 says both ends are (`CleanExactlyWhen`).
- A start frame is not guaranteed before a terminal frame: a run that is cancelled before
  its spawn event publishes error and exit only (`StartFrameExactlyWhen`).
- An error reply whose message cannot be made a string takes its request out of the pending
  map and raises before the request is rejected: the request is never settled, by nothing
  (`AllAccountedExactlyWhen`, `UnprintableErrorLosesRequest`).
- Such a reply, a JSON `null` frame, or an id that cannot be made a number raises in
  `handleFrame` although malformed frames are said to be ignored; the frames behind it wait
  in the buffer for the next chunk, so the outcome depends on the chunking exactly then,
  for every client (`ChunkIndependentExactlyWhen`).
- Owned files are compared as spelled: two spellings of one file are accepted, and a
  rollback can leave the first data behind (`RollsBackExactlyWhen`).
- A horizon that crosses the end of the JavaScript date range samples no transitions and
  can miss a peak (`SamplesReachExactlyWhen`). It is then answered with a higher score than
  the last peak within it: widening a horizon never helps exactly when the wide one misses
  no peak (`WideningNeverHelpsExactlyWhen`, `CrossingWeekScoresHigher`).
- A model name that every object inherits, such as `constructor`, is answered without
  numbers (`ResolveSubscriptionEconomics`).
- A program name with a quote does not survive the Windows command line
  (`CommandLineSurvivesExactlyWhen`).
- A start while a restart is waiting, followed by another crash, replaces the only reference
  to the armed timer; a later stop cannot clear it and the daemon comes back
  (`LeaksSomewhereExactlyWhen`, `StoppedDaemonComesBack`). A stop during a start's probe does
  not stop that start, and a stop while a user's restart waits for its own stop, or is about
  to go on behind it, does not stop that restart (`RestartOutlivesStop`). A stop stops the
  daemon exactly when it meets none of the three (`StopStopsExactlyWhen`).
- A quit dialog that cannot open makes the drain stop a daemon that is still busy
  (`StopsUnaskedExactlyWhen`, `FailingDialogStopsBusyDaemon`).
- A registered model id that trimming or the provider's own prefix changes can be answered
  once and not again (`FixedPointExactlyWhen`).

## Model

| member | source | states |
|---|---|---|
| OutputTail.BufferTail.Push | packages/execution/src/session.ts:684-705 | However a stream is chunked, the tail afterwards holds exactly the last `maxBytes` bytes of everything pushed |
| OutputTail.BufferTail.DecodableTail | packages/execution/src/session.ts:708-712 | What is decoded is the last bytes of the stream without the continuation bytes the cut orphaned |
| OutputTail.Utf8BoundaryAfter | packages/execution/src/session.ts:724-731 | Looking at four bytes finds the first byte that can start a rune, or the end |
| OutputTail.ResultIsLongestSuffix | packages/execution/src/session.ts:684-731 | For every text and every limit, the decoded tail is the longest suffix of whole runes whose encoding fits |
| OutputTail.FirstKeptIsLongest | packages/execution/src/session.ts:693-711 | The suffix named there fits, and every longer suffix of runes does not |
| OutputTail.TailOfText | packages/execution/src/session.ts:684-731 | The tail of a stream that ends inside a rune: the longest whole-rune run that fits beside the cut rune, and the cut rune itself |
| OutputTail.CleanExactlyWhen | packages/execution/src/session.ts:222-228 | A result decodes cleanly if and only if the stream ends on a rune, or the limit is below the cut rune; the promise to drop a partial rune at both ends is false of the code |
| OutputTail.TrailingCutIsKept | packages/execution/src/session.ts:222-228 | Concrete stream: the euro sign cut after two bytes stays, undecodable, in the 2 MiB tail |
| OutputTail.DecodesFromFirstStart | packages/execution/src/session.ts:724-731 | Of any bytes, text or not: decoding starts at the first byte that can start a rune if that is one of the first four, and otherwise nothing is decoded |
| Utf8.RoundTrip | packages/execution/src/session.ts:708-712 | Strict UTF-8 decoding (section 3 of RFC 3629) inverts encoding on every text |
| Utf8.CutRuneDoesNotDecode | packages/execution/src/session.ts:715-723 | No text followed by a cut rune decodes |
| EventQueues.EventQueue.Push | packages/execution/src/session.ts:739-748 | An ordinary value is refused exactly when the queue is closed, or holds all but the two reserved slots with nobody waiting; otherwise it goes to the longest waiter or to the end |
| EventQueues.EventQueue.ForcePush | packages/execution/src/session.ts:749-754 | A terminal value is taken in whenever the queue is open |
| EventQueues.EventQueue.Close | packages/execution/src/session.ts:755-759 | Closing ends every waiter and keeps what is queued |
| EventQueues.EventQueue.Next | packages/execution/src/session.ts:760-771 | The iterator hands out the oldest value, parks on an empty open queue and ends on an empty closed one |
| EventQueues.DrainDeliversEverything | packages/execution/src/session.ts:760-771 | Pulling as often as there are queued values hands out every accepted value in order |
| SessionRuns.EveryRun | packages/execution/src/session.ts:238-291 | Over every interleaving of native events, timers, caller actions and cleanups: FIFO delivery, at most 64 queued, at most one start frame, and a stream that ends in error? exit only after the tree and the files were dealt with |
| SessionSpec.RunKeepsInv | packages/execution/src/session.ts:139-503 | The invariant of every reachable session, over runs of any length |
| SessionRuns.NoSilentFailure | packages/execution/src/session.ts:238-266 | A clean end is reported only for a tree confirmed gone; an unconfirmed tree is always in the error frame; files are released as a success only after exit code zero; cancel succeeds only on a published run whose tree is gone |
| SessionRuns.OutcomeIsFinal | packages/execution/src/session.ts:238-240 | The first settlement is final, and nothing that happens after publication adds an event |
| SessionRuns.EveryFrameIsDelivered | packages/execution/src/session.ts:230-232 | No terminal frame is dropped: from any published state, draining the queue delivers every accepted frame, the exit last |
| SessionRuns.StartComesFirst | packages/execution/src/session.ts:281-291 | When output follows the start, the start frame leads the stream, and a stream without it carries no output |
| SessionRuns.StartFrameExactlyWhen | packages/execution/src/session.ts:286-290 | A published stream has the start frame if and only if some action of the run confirmed the start before any action settled the run: it is not promised before every terminal frame |
| SessionSpec.SilentMeansNoText | packages/execution/src/session.ts:259-260 | A report is left out exactly when its joined message is empty |
| SessionSpec.ReportIsJoined | packages/execution/src/session.ts:258-258 | A report tells the fault and what is left, those of the two that have text, joined in this order |
| SessionRuns.CancelledBeforeStart | packages/execution/src/session.ts:311-315 | Concrete run: cancelling right after the launch publishes error and exit without a start frame |
| SessionOutcomes.RunIsTold | packages/execution/src/session.ts:139-503 | Over every run: while a session runs, its child, its timers, its streams, its queue and its promises are what the list of actions says: first exit, last error, first attachment, every chunk in order |
| SessionOutcomes.RunsOnExactlyWhen | packages/execution/src/session.ts:238-240 | Over every run: a session runs if and only if no action so far had a verdict; which action has one, and which, is a function of the actions before it |
| SessionOutcomes.OutcomeIsVerdict | packages/execution/src/session.ts:238-280 | The first verdict is the outcome, whatever follows: its exit facts, its success, its message, and everything each stream had produced by then |
| SessionOutcomes.VerdictIsPublished | packages/execution/src/session.ts:244-264 | Consumers see the verdict: the last frame delivered tells its exit facts, the error frame its message, and the files are released as its success |
| SessionOutcomes.SettledFeedIsQuiet | packages/execution/src/session.ts:238-240 | Nothing that happens to a settled session touches what consumers see but their own pulls, the publication, and a late spawn, which only notes a start |
| SessionOutcomes.ExitIsPublished | packages/execution/src/session.ts:273-276 | A close, a replayed exit or a drain that ends a run is told as the native event reported it, the drain as the first exit event did: in the result and the last frame, a success if and only if the code is zero, with no fault; unless the start frame overflows or the child never ran |
| SessionOutcomes.ExitIsNoted | packages/execution/src/session.ts:428-473 | The child of a reported exit is known to have ended, and how |
| SessionOutcomes.CleanupGoesOn | packages/execution/src/session.ts:250-257 | A settled session notes the end of termination and releases its files as the settled success, rolled back if nothing started |
| SessionOutcomes.PublishTells | packages/execution/src/session.ts:258-264 | Publishing adds the report of the fault and of what is left, if that has any text, and the exit; it closes the queue and rejects a start that never came |
| SessionOutcomes.CancelAnswers | packages/execution/src/session.ts:311-322 | A cancel is taken once there is a child, settles the run, and returns with success if and only if the tree is confirmed gone |
| SessionOutcomes.TimersStop | packages/execution/src/session.ts:241-242 | Settling clears the timers, and none is armed again but by attaching |
| ProcessSessions.ProcessSession.Settle | packages/execution/src/session.ts:238-242 | The first outcome is kept, with the decoded tails of that moment; timers are cleared and termination begins once |
| ProcessSessions.ProcessSession.Fail | packages/execution/src/session.ts:277-280 | A failure settles with the tails and exit facts known by then |
| ProcessSessions.ProcessSession.FinishExit | packages/execution/src/session.ts:273-276 | An exit settles as a success exactly for code zero |
| ProcessSessions.ProcessSession.Accept | packages/execution/src/session.ts:267-272 | A frame that a full queue refuses ends the run with the overflow fault |
| ProcessSessions.ProcessSession.ConfirmStarted | packages/execution/src/session.ts:282-291 | The first confirmation alone emits the start frame and resolves the start |
| ProcessSessions.ProcessSession.OnAttach | packages/execution/src/session.ts:383-493 | A process that ended during preparation is replayed, then an early abort is honoured, then the timers are armed |
| ProcessSessions.ProcessSession.OnLaunchFailure | packages/execution/src/session.ts:364-371 | A launch that fails settles with empty tails and no exit facts |
| ProcessSessions.ProcessSession.OnSpawn | packages/execution/src/session.ts:417-420 | The spawn event confirms the start |
| ProcessSessions.ProcessSession.OnError | packages/execution/src/session.ts:421-427 | An error fails the run only before start and close, and is remembered for the close |
| ProcessSessions.ProcessSession.OnClose | packages/execution/src/session.ts:428-438 | A close publishes the start it overtook, then the remembered error if there are no exit facts, or else the exit |
| ProcessSessions.ProcessSession.OnExit | packages/execution/src/session.ts:446-450 | The first exit stores its facts and arms the drain timer |
| ProcessSessions.ProcessSession.OnDrainTimer | packages/execution/src/session.ts:450-460 | The drain timer finishes the run with the stored facts unless it is over |
| ProcessSessions.ProcessSession.ApplyStdout | packages/execution/src/session.ts:330-334 | Output goes to the tail and to the queue until the run is terminal |
| ProcessSessions.ProcessSession.ApplyStderr | packages/execution/src/session.ts:335-339 | Diagnostics do the same on their own stream |
| ProcessSessions.ProcessSession.OnProvenanceFailure | packages/execution/src/session.ts:395-397 | A provenance record that fails starts termination first |
| ProcessSessions.ProcessSession.OnProvenanceTerminated | packages/execution/src/session.ts:398-398 | and fails the run after termination was attempted |
| ProcessSessions.ProcessSession.OnTimeout | packages/execution/src/session.ts:482-486 | The timeout fails a run that is not terminal |
| ProcessSessions.ProcessSession.OnStartupTimeout | packages/execution/src/session.ts:488-493 | The startup timer fails a run that never reported, with the control error if there is one |
| ProcessSessions.ProcessSession.Cancel | packages/execution/src/session.ts:311-322 | The first cancel fails the run; later ones join it |
| ProcessSessions.ProcessSession.Write | packages/execution/src/session.ts:294-299 | Writing to a missing input fails the run, and writing after the input is closed does nothing |
| ProcessSessions.ProcessSession.CloseInput | packages/execution/src/session.ts:300-304 | Input is closed once, and not after the end |
| ProcessSessions.ProcessSession.NextEvent | packages/execution/src/session.ts:760-771 | One pull of a consumer takes exactly the oldest event |
| ProcessSessions.ProcessSession.OnTreeEnded | packages/execution/src/session.ts:199-215 | Termination ends once, confirmed or with its reason |
| ProcessSessions.ProcessSession.CleanupOwnedResources | packages/execution/src/session.ts:216-220 | Files are released once, after the tree, and rolled back when the run never started |
| ProcessSessions.ProcessSession.Publish | packages/execution/src/session.ts:244-265 | Error if anything is to report, then exit, then the queue closes, the result resolves and a pending start rejects |
| ProcessSessions.ProcessSession.OnCancelReturn | packages/execution/src/session.ts:315-318 | Cancel returns after the result, and fails when the tree is not confirmed gone |
| OwnedFiles.MaterializeFiles | packages/execution/src/session.ts:586-612 | Unacceptable paths change nothing; otherwise all files are written and owned, or, wherever the operations fail, everything written is rolled back |
| OwnedFiles.CheckPaths | packages/execution/src/session.ts:588-594 | Accepted exactly when no path is empty, holds a NUL, is relative or comes twice, as spelled |
| OwnedFiles.CleanupFiles | packages/execution/src/session.ts:615-626 | The cleanup loop does what the specification of one release says of every owned file |
| OwnedFiles.RollbackIsIdentity | packages/execution/src/session.ts:586-626 | For every failure point, a partial write included, writing and rolling back is the identity on file contents, for paths that name different files and whenever nothing named again was changed |
| OwnedFiles.RollsBackExactlyWhen | packages/execution/src/session.ts:586-626 | Rolling back is the identity at every failure point if and only if no file that two accepted spellings name is changed by a write before its last |
| OwnedFiles.TwoSpellingsLeaveData | packages/execution/src/session.ts:588-626 | Concrete pair: two spellings of one new file are accepted, and a rollback leaves the first data behind |
| OwnedFiles.CleanupRestores | packages/execution/src/session.ts:615-626 | Every released file gets its initial content back and no other file changes |
| OwnedFiles.WriteAllSucceedsExactlyWhen | packages/execution/src/session.ts:595-611 | Writing succeeds if and only if no operation of a file fails |
| OwnedFiles.WrittenFiles | packages/execution/src/session.ts:596-606 | A successful write owns every file under its own path and policy and touches no other file |
| OwnedFiles.WrittenData | packages/execution/src/session.ts:596-606 | A successful write leaves every file with the data written to it last |
| OwnedFiles.RunEndRestores | packages/execution/src/session.ts:614-625 | After a run that may have changed any file, a released file has its content from before the run and every other file keeps what the run left |
| OwnedFiles.WritingStopsAt | packages/execution/src/session.ts:595-611 | Writing that fails at a file has done what writing only the files before it does; a failed write leaves that file owned, with what the write left |
| OwnedFiles.SnapshotsAreBefore | packages/execution/src/session.ts:596-606 | Every snapshot is what its file held just before it was written |
| OwnedFiles.CleanupGoesOn | packages/execution/src/session.ts:615-626 | Whatever restores fail, cleanup goes on: a file ends with the snapshot of the last record released for it, or with what that failed restore left |
| TokenizerGenerations.TokenizerGeneration.Observe | packages/metrics/src/index.ts:89-104 | One delta: ignored when empty, poisoning when its time is unusable, or else appended to its channel |
| TokenizerGenerations.TokenizerGeneration.Measure | packages/metrics/src/index.ts:118-144 | The loops compute the specified measurement |
| TokenizerGenerations.TokenizerGeneration.Attribute | packages/metrics/src/index.ts:133-141 | Each window is given exactly the tokens of the blocks inside it |
| GenerationWindows.Merge | packages/metrics/src/index.ts:125-130 | The merge loop computes the left fold that specifies it |
| GenerationWindows.WindowsAreTheUnion | packages/metrics/src/index.ts:121-130 | Windows are sorted, strictly apart, at least 100 ms long, cover exactly the union of the spans, and each span lies in one of them |
| GenerationWindows.CanonicalIsUnique | packages/metrics/src/index.ts:121-130 | A set of instants has only one sorted, separated list of intervals |
| GenerationWindows.WindowsDependOnUnion | packages/metrics/src/index.ts:121-130 | Spans with the same union have the same windows, in whatever order and number they come |
| GenerationWindows.TotalIsSizeOfUnion | packages/metrics/src/index.ts:220-226 | The summed window lengths are the number of milliseconds in the union |
| TokenizerGenerations.PoisonedExactlyWhen | packages/metrics/src/index.ts:89-108 | A generation is poisoned if and only if a nonempty delta has no positive time or comes out of order |
| TokenizerGenerations.BlockIsChannel | packages/metrics/src/index.ts:96-102 | A channel's block is its concatenated text with its first and last arrival |
| TokenizerGenerations.MeasureIgnoresOrder | packages/metrics/src/index.ts:118-144 | The order in which channels first spoke does not change the measurement |
| TokenizerGenerations.MeasureIgnoresSplitting | packages/metrics/src/index.ts:72-83 | Two observations that agree on each channel's text, beginning and end measure the same, however split and interleaved |
| TokenizerGenerations.WindowTokensSum | packages/metrics/src/index.ts:133-143 | Window tokens sum to the total |
| TokenizerGenerations.MeasuredWindowsAreExact | packages/metrics/src/index.ts:118-132 | The windows of a measurement cover exactly the union of the qualifying blocks, whose size is the measured time |
| TokenizerGenerations.MeasurementIsExact | packages/metrics/src/index.ts:118-144 | Every qualifying block lies in exactly one window, and the tokens are positive, safe and the sum of the windows |
| TokenizerGenerations.MeasuredExactlyWhen | packages/metrics/src/index.ts:118-144 | There is a measurement if and only if some block opens a window and the tokens of the blocks inside windows are positive and safe; it reports just those tokens, and each window those of the blocks inside it |
| TokenizerGenerations.TpsGenerationCollector.Observe | packages/metrics/src/index.ts:192-198 | A delta after the completion is not measured |
| TokenizerGenerations.TpsGenerationCollector.TakeSample | packages/metrics/src/index.ts:220-226 | A sample exists only for a completed response that never failed, and measures what came before the completion |
| TokenizerGenerations.LateDeltasDoNotCount | packages/metrics/src/index.ts:193-197 | No later delta or completion changes the sample of a completed response |
| TokenizerGenerations.SampleExactlyWhen | packages/metrics/src/index.ts:220-226 | Over every response: there is a sample if and only if it completed and never failed, every delta before the completion came in order with a positive time, and those are measurable; its time is the number of milliseconds its windows cover |
| WindowsQuoting.QuoteWindowsArgument | packages/execution/src/windows-owned-launch.ts:182-193 | The character loop computes the specified quoting |
| WindowsQuoting.ArgumentsSurvive | packages/execution/src/windows-owned-launch.ts:205-207 | For every list of arguments, splitting the joined quoted list by the C runtime rules gives back exactly that list, under either rule for doubled quotes |
| WindowsQuoting.QuotedIsRead | packages/execution/src/windows-owned-launch.ts:182-193 | One quoted argument is read back whole, whatever follows it on the line |
| WindowsQuoting.CommandLineSurvivesExactlyWhen | packages/execution/src/windows-owned-launch.ts:195-208 | The whole command line is read back if and only if the program name holds no quote |
| WindowsQuoting.EscapingInverts | packages/execution/src/windows-owned-launch.ts:195-197 | Escaping the quotes of a program name loses nothing of it and leaves no quote without a backslash |
| DesktopExec.PassesAreOneEscape | apps/desktop/src/linux-autostart.ts:40-45 | The chained replacements equal one escape of every character |
| DesktopExec.PathSurvives | apps/desktop/src/linux-autostart.ts:36-47 | Refused exactly for an empty path or a line break; every other path comes back through key-file unescape, unquoting and field codes |
| DesktopExec.PathSurvivesEitherOrder | apps/desktop/src/linux-autostart.ts:36-47 | and also through a launcher that expands field codes first |
| SubscriptionEconomics.SampleInstants | packages/providers/src/subscription-economics.ts:92-105 | The loops collect exactly the end points and every transition of a day between them |
| SubscriptionEconomics.RepresentativeIsAsHigh | packages/providers/src/subscription-economics.ts:92-120 | Every millisecond has a sample that costs at least as much |
| SubscriptionEconomics.SamplesGiveWorst | packages/providers/src/subscription-economics.ts:126-132 | The dearest sample is the dearest of every millisecond of the horizon |
| SubscriptionEconomics.SamplesReachExactlyWhen | packages/providers/src/subscription-economics.ts:90-105 | The samples reach the maximum if and only if the horizon keeps within the range of JavaScript dates, begins past it, at a peak, or after its last peak |
| SubscriptionEconomics.CrossingHorizonMissesPeaks | packages/providers/src/subscription-economics.ts:96-98 | Concrete horizon that crosses the range and misses its peaks |
| SubscriptionEconomics.LastPeak | packages/providers/src/subscription-economics.ts:110-113 | Where the last peak of the range of dates lies |
| SubscriptionEconomics.ResolveDomestic | packages/providers/src/subscription-economics.ts:122-155 | The score and coefficients of a domestic plan are those of the dearest sample of the horizon, which is its dearest millisecond unless the horizon misses a peak; a name that every object inherits is answered without numbers |
| SubscriptionEconomics.ResolveSubscriptionEconomics | packages/providers/src/subscription-economics.ts:194-206 | Refusals, and the answer for each provider, over every input the guards admit; the answer is without numbers if and only if the model is a name that every JavaScript object inherits |
| SubscriptionEconomics.DearerIsLessEfficient | packages/providers/src/subscription-economics.ts:133-133 | A dearer multiplier never raises the score |
| SubscriptionEconomics.WideningNeverHelps | packages/providers/src/subscription-economics.ts:126-133 | A horizon that misses no peak is never answered with a higher score than a horizon within it |
| SubscriptionEconomics.WideningNeverHelpsExactlyWhen | packages/providers/src/subscription-economics.ts:90-133 | For every known model and every horizon: no horizon within it is answered with a lower score if and only if it misses no peak, or the model is answered without numbers |
| SubscriptionEconomics.CrossingWeekScoresHigher | packages/providers/src/subscription-economics.ts:96-98 | Concrete pair: an admitted week across the end of the dates is answered with 0.5, the last peak within it with 0 |
| SubscriptionEconomics.AnswerNumbers | packages/providers/src/subscription-economics.ts:133-154 | Every domestic answer with numbers: each coefficient is the plan's own times the multiplier of the dearest sample, and the score is what the largest share of the standard price leaves |
| SubscriptionEconomics.GoNumbers | packages/providers/src/subscription-economics.ts:158-178 | Every Go answer with numbers: the rates of its model, and a score that leaves just the subscription of the monthly allowance |
| SemVer.ParseOfText | packages/protocol/src/update-feed.ts:124-129 | Every well-formed version is found again in its text |
| SemVer.ParseExactlyWhen | packages/protocol/src/update-feed.ts:128-145 | A string is a version if and only if it is the text of a well-formed one, and then of only one |
| SemVer.GrammarIsPattern | packages/protocol/src/update-feed.ts:128-129 | The grammar is the pattern of the source: a number is zero or digits led by none, and a prerelease identifier is a number or digits, a letter or hyphen, and any of these |
| SemVer.CompareVersions | packages/protocol/src/update-feed.ts:157-194 | The loops compute the comparison of the parsed versions, and fail exactly for strings that are no versions |
| SemVer.ComparePrereleaseParts | packages/protocol/src/update-feed.ts:175-193 | The part loop is the lexicographic comparison of identifiers |
| SemVer.ValueIsInjective | packages/protocol/src/update-feed.ts:185-188 | Without leading zeros, equal numbers are equal texts |
| SemVer.VersionsAreOrdered | packages/protocol/src/update-feed.ts:157-194 | Antisymmetric, transitive, and zero exactly for the same numbers and prerelease |
| SemVer.ComparisonIsPrecedence | packages/protocol/src/update-feed.ts:152-194 | Negative exactly when section 11 of SemVer 2.0.0, written declaratively, puts the left version first |
| Lexicographic.LexIsBelow | packages/protocol/src/update-feed.ts:178-193 | A lexicographic comparison decides at the first difference, the shorter list first |
| IpcSpec.EveryRun | packages/control/src/index.ts:155-460 | Over every run: each issued request is pending, settled or lost, in exactly one of them, settled at most once, by a frame with its id; ids are never reused; only the ping is written before a reply with the right version; a closed client has nothing pending |
| IpcSpec.AllAccountedExactlyWhen | packages/control/src/index.ts:423-441 | Over every run: every issued request is pending or settled if and only if no frame that was handled broke a pending one, by an error message that cannot be made a string |
| IpcSpec.UnprintableErrorLosesRequest | packages/control/src/index.ts:427-439 | Concrete frame: such an error reply takes its request out of the pending map and raises before the rejection, and a close does not reject it either |
| IpcSpec.LostForGood | packages/control/src/index.ts:427-439 | A request lost in that way is never settled, by no reply, timeout or close |
| IpcSpec.RunIsMonotone | packages/control/src/index.ts:344-357 | Settlements are never taken back, and after closing nothing is written, settled or lost |
| IpcSpec.HandlesExactlyTheFrames | packages/control/src/index.ts:397-406 | While none raises, exactly the newline-terminated frames are handled, in order, and exactly the unterminated rest is kept |
| IpcSpec.SplitText | packages/control/src/index.ts:397-406 | When nothing raises early, handling a text in two parts is handling it at once |
| IpcSpec.ChunkIndependentExactlyWhen | packages/control/src/index.ts:397-441 | For every client, whatever its buffer holds: the outcome is the same for every way of cutting a text into at least one chunk if and only if no frame that raises at its turn, for what is pending then, has a complete frame behind it |
| IpcSpec.TextEnds | packages/control/src/index.ts:397-441 | Over every text: a pending request is ended by the first reached frame that carries its id, resolved or refused with just that frame, and stays pending when there is none; no other request is touched |
| IpcSpec.TimeoutEnds | packages/control/src/index.ts:371-386 | A timeout rejects the request it was armed for, if it is pending, and touches no other |
| IpcSpec.ClosingEnds | packages/control/src/index.ts:444-459 | Closing an open client or losing its socket rejects every pending request, oldest first, and writes nothing |
| IpcSpec.RequestQueues | packages/control/src/index.ts:188-193 | Asking queues the call behind the others; the first to ask an open client puts the ping on the wire |
| IpcSpec.FailedWritesNothing | packages/control/src/index.ts:338-341 | A client whose handshake failed drops its waiting calls, and one that still waits for it keeps them |
| IpcSpec.PingDecides | packages/control/src/index.ts:322-341 | The reply to the ping decides: the right version opens the client, and anything else that settled the ping closes it and rejects what is pending |
| IpcSpec.ReadyWritesAll | packages/control/src/index.ts:351-394 | Behind the handshake the waiting calls are written in the order they came, each pending under an id of its own; one that cannot be written only spends its id |
| IpcSpec.HandshakeOpens | packages/control/src/index.ts:317-349 | From a pending ping: its reply with the right version opens the client, and then every waiting call goes out |
| IpcClients.IpcClient.Request | packages/control/src/index.ts:188-194 | A request queues behind the handshake, which the first one starts |
| IpcClients.IpcClient.SendRequest | packages/control/src/index.ts:351-395 | A new id, pending and on the wire, unless the client is closed; an id is spent on parameters that cannot be written as JSON |
| IpcClients.IpcClient.ResumeHandshake | packages/control/src/index.ts:322-342 | Ready on a reply with the right version, closed and failed on anything else |
| IpcClients.IpcClient.HandleFrame | packages/control/src/index.ts:408-442 | A frame settles only the pending request with its id, and raises for null, for an id that is no number, and after removing a request whose error cannot be built |
| IpcClients.IpcClient.HandleData | packages/control/src/index.ts:397-406 | The newline loop takes the specified step on every chunk |
| IpcClients.IpcClient.SettlePending | packages/control/src/index.ts:452-459 | Every pending request is rejected, oldest first, and none stays |
| IpcClients.IpcClient.FailClosed | packages/control/src/index.ts:344-349 | Failing closes once |
| IpcClients.IpcClient.Close | packages/control/src/index.ts:310-315 | Closing closes once |
| IpcClients.IpcClient.Timeout | packages/control/src/index.ts:367-381 | A timeout settles only its own pending request |
| LedgerRelays.NoGapsNoDuplicates | apps/desktop/src/session/ipc.ts:344-486 | Under any interleaving of appends, pages, failures, retries, subscriptions and resets, an opening result followed by what its poll pushed is the ledger segment from its start to its cursor, and each window has at most one live subscription |
| LedgerRelays.AbortedStaysSilent | apps/desktop/src/session/ipc.ts:406-413 | An aborted subscription never hands over anything again, and an opening result never changes once handed out |
| LedgerRelays.ResubscribedIsSilent | apps/desktop/src/session/ipc.ts:460-468 | After a window subscribes again, its old subscription hands over nothing, whatever happens later |
| LedgerRelays.ResetIsSilent | apps/desktop/src/session/ipc.ts:801-804 | After a reset no earlier subscription hands over anything, whatever happens later |
| LedgerRelays.AbortedExactlyWhen | apps/desktop/src/session/ipc.ts:344-349 | A live subscription is aborted if and only if its window opens another or is destroyed, its opening fails, or the relay is reset or closed: a poll outlives every failed page |
| LedgerRelays.OpeningIsComplete | apps/desktop/src/session/ipc.ts:470-481 | An opening that ends on a page with the true last number holds everything behind its start |
| LedgerRelays.ResumedWhereItStopped | apps/desktop/src/session/ipc.ts:455-460 | A subscription that starts at the cursor of an earlier one continues it without gap or overlap |
| LedgerRelays.PollMoves | apps/desktop/src/session/ipc.ts:411-419 | A page takes a live poll on by exactly the events heard, the first ones behind its cursor, and changes nothing else |
| LedgerRelays.OpeningMoves | apps/desktop/src/session/ipc.ts:471-477 | A page takes a live opening on by all the events served, and ends it if and only if the cursor reaches the last number |
| LedgerRelays.PagesHandOver | apps/desktop/src/session/ipc.ts:409-419 | Any number of pages hands over exactly as many of the events behind the cursor as were served and heard |
| LedgerRelays.PagesReachTheEnd | apps/desktop/src/session/ipc.ts:409-419 | Pages that reach the end, with every event heard, have handed over the whole ledger behind the start of the subscription |
| LedgerRelays.OpeningEnds | apps/desktop/src/session/ipc.ts:471-480 | An opening ends with everything behind its start as soon as one page holds all that is behind its cursor |
| LedgerRelays.OpenSubscribes | apps/desktop/src/session/ipc.ts:460-468 | Opening makes one live subscription at the given cursor and leaves those of other windows as they were; a closed relay makes none |
| LedgerRelays.AppendAdds | packages/features/session/src/ledger/store.ts:286-330 | An append adds one event behind all others of its session and changes no other session |
| LedgerSpec.PageIsSegment | apps/desktop/src/session/ipc.ts:376-380 | A page behind a cursor is the segment up to its own last event |
| LedgerSpec.SegmentsJoin | apps/desktop/src/session/ipc.ts:455-481 | Adjacent segments join without gap or overlap |
| LedgerRelays.SessionRelay.StopPoll | apps/desktop/src/session/ipc.ts:344-349 | A stop aborts its subscription and frees the window only if it is still its own |
| LedgerRelays.SessionRelay.OpenLedger | apps/desktop/src/session/ipc.ts:460-468 | Opening stops the previous subscription of the window and registers the new one |
| LedgerRelays.SessionRelay.DrainPage | apps/desktop/src/session/ipc.ts:470-477 | An opening page extends the result, moves the cursor and ends the loop at the last number |
| LedgerRelays.SessionRelay.PushPage | apps/desktop/src/session/ipc.ts:414-419 | Events are pushed one by one and the cursor moves with each, also when a listener raises midway |
| LedgerRelays.SessionRelay.TakePage | apps/desktop/src/session/ipc.ts:410-413 | A page is dropped when its subscription was aborted meanwhile |
| LedgerRelays.SessionRelay.FailPage | apps/desktop/src/session/ipc.ts:431-449 | A failed page ends an opening and is retried by a poll |
| LedgerRelays.SessionRelay.StopAll | apps/desktop/src/session/ipc.ts:802-809 | Every owned subscription is stopped |
| LedgerRelays.SessionRelay.ResetPolls | apps/desktop/src/session/ipc.ts:801-804 | A reset stops every subscription and forgets all windows |
| LedgerRelays.SessionRelay.Close | apps/desktop/src/session/ipc.ts:805-809 | Closing stops every subscription once |
| QuitSpec.EveryEffectIsAllowed | apps/desktop/src/quit-controller.ts:92-182 | Over every interleaving, each effect had before it what it needs: one exit at most and after it nothing but noted requests, no exit while a cancellation is open or a dialog shows, no dialog after finishing begins, only a supervised daemon stopped or cancelled, cancelled only after a request to end by force |
| QuitSpec.StopsOnlyWhenIdle | apps/desktop/src/quit-controller.ts:119-143 | At every graceful stop the daemon has reported that it is idle if and only if neither a bypass nor a dialog that could not open came first |
| QuitSpec.StepStopsUnaskedExactlyWhen | apps/desktop/src/quit-controller.ts:119-164 | A step stops a daemon without an idle report if and only if no finish has begun, the daemon is owned, and it is a bypassing request or an awaited status that is not idle while the dialog cannot open |
| QuitSpec.StopsUnaskedExactlyWhen | apps/desktop/src/quit-controller.ts:119-164 | Over every run: a daemon is stopped without an idle report if and only if some action is such a step |
| QuitSpec.FailingDialogStopsBusyDaemon | apps/desktop/src/quit-controller.ts:126-164 | Concrete run: a dialog that cannot open stops a daemon that never reported idle |
| QuitSpec.FinishCompletes | apps/desktop/src/quit-controller.ts:102-117 | A finish that has begun exits as soon as what it waits for returns |
| QuitSpec.NothingAfterExit | apps/desktop/src/quit-controller.ts:93-93 | A settled controller shows no further effect |
| QuitSpec.ForceIsHeeded | apps/desktop/src/quit-controller.ts:94-98 | Asked by force before the exit, a supervised daemon is cancelled, at once or as the escalation of a graceful stop, and the exit waits for it |
| QuitSpec.IdleReportStops | apps/desktop/src/quit-controller.ts:136-139 | An idle report in the drain stops a supervised daemon gracefully and cancels nothing |
| QuitSpec.ConnectedQuitExits | apps/desktop/src/quit-controller.ts:155-159 | In connected mode a quit exits at once and touches no daemon |
| QuitSpec.FirstRequestDrains | apps/desktop/src/quit-controller.ts:154-165 | The first request with a supervised daemon asks it to drain and shows nothing yet; if the system has said that it shuts down, it is cancelled instead |
| QuitSpec.DrainReplyDecides | apps/desktop/src/quit-controller.ts:119-142 | The awaited answer decides: idle stops, busy blocks behind a dialog that polls, and without a dialog the daemon is stopped all the same |
| QuitSpec.BlockedQuitLooksAgain | apps/desktop/src/quit-controller.ts:129-142 | Over every run: while the dialog blocks, the next look finds out; an idle daemon is stopped, and a busy one keeps the quit blocked and is looked at again |
| QuitControllers.QuitController.Finish | apps/desktop/src/quit-controller.ts:92-110 | The guards, the escalation of a graceful stop, and the teardown that is begun |
| QuitControllers.QuitController.AfterTeardown | apps/desktop/src/quit-controller.ts:111-117 | Exit waits for a cancellation that was started meanwhile |
| QuitControllers.QuitController.RequestQuit | apps/desktop/src/quit-controller.ts:146-166 | Bypass, repeated request, connected mode, shutdown and drain |
| QuitControllers.QuitController.OnDrainReply | apps/desktop/src/quit-controller.ts:119-128 | Idle finishes, a late reply does nothing, anything else blocks with a dialog |
| QuitControllers.QuitController.OnTimer | apps/desktop/src/quit-controller.ts:129-130 | A timer reads the status only while the dialog blocks |
| QuitControllers.QuitController.OnPollReply | apps/desktop/src/quit-controller.ts:131-140 | Idle finishes, anything else arms the timer again |
| QuitControllers.QuitController.HandleSecondInstance | apps/desktop/src/quit-controller.ts:177-181 | A second instance focuses exactly while an open dialog blocks the shell |
| SupervisorSpec.AtMostThreePerWindow | apps/desktop/src/daemon-supervisor.ts:334-349 | Over every run, no window of five minutes holds more than three automatic restarts since the last user restart |
| SupervisorSpec.PruningIsExact | apps/desktop/src/daemon-supervisor.ts:335-337 | Pruning at each crash forgets nothing that a later crash would count |
| SupervisorSpec.RefusedExactlyWhenFull | apps/desktop/src/daemon-supervisor.ts:337-340 | A crash is refused if and only if the window that ends now already holds three restarts |
| SupervisorSpec.OnlyCrashesRestart | apps/desktop/src/daemon-supervisor.ts:312-332 | Only an unexpected, unclean exit of the current child, after its start and outside a stop or disposal, schedules a restart |
| SupervisorSpec.DelayFollowsWindow | apps/desktop/src/daemon-supervisor.ts:341-348 | An accepted crash restarts after one, five or fifteen seconds by the number of restarts in the window that ends now, on a timer the supervisor knows |
| SupervisorSpec.EveryRunHasOneChild | apps/desktop/src/daemon-supervisor.ts:119-131 | Overlapping starts never spawn two: at most one child that was not killed or released is alive |
| SupervisorSpec.LeaksExactlyWhen | apps/desktop/src/daemon-supervisor.ts:344-347 | A crash loses a timer if and only if it is accepted while an earlier restart is waiting |
| SupervisorSpec.LeaksSomewhereExactlyWhen | apps/desktop/src/daemon-supervisor.ts:344-347 | Over every run: a timer is lost at some point if and only if some crash is accepted while an earlier restart is waiting |
| SupervisorSpec.NoLeakWithoutOverlap | apps/desktop/src/daemon-supervisor.ts:344-347 | Without such an overlap no run loses a timer |
| SupervisorSpec.StopStopsExactlyWhen | apps/desktop/src/daemon-supervisor.ts:140-167 | In every reachable state, with or without a child: once a stop begins nothing but a new request spawns a daemon, through the wait and after it, if and only if no start is probing and, unless the supervisor is disposed, no timer was lost and no restart waits for its own stop or is about to go on behind it |
| SupervisorSpec.RestartOutlivesStop | apps/desktop/src/daemon-supervisor.ts:133-149 | Concrete run: a stop that comes while a restart waits for its own stop does not keep that restart from starting the daemon again |
| SupervisorSpec.RunKeepsTimers | apps/desktop/src/daemon-supervisor.ts:344-348 | Over every run, a timer the supervisor knows is armed |
| SupervisorSpec.StoppedDaemonComesBack | apps/desktop/src/daemon-supervisor.ts:140-149 | Concrete run: start during a waiting restart, crash, stop, and the lost timer starts the daemon again |
| SupervisorRuns.ReachedIsTidy | apps/desktop/src/daemon-supervisor.ts:119-349 | Over every run: one child, only spawned children known, a starting flag only during a launch, and only timers that were armed |
| SupervisorRuns.StartBringsUp | apps/desktop/src/daemon-supervisor.ts:119-131 | A start without a child brings a new one up, and touches neither timers nor limiter |
| SupervisorRuns.NothingToStart | apps/desktop/src/daemon-supervisor.ts:192-213 | A start that finds the daemon reachable, or nothing to launch, changes nothing |
| SupervisorRuns.FailedLaunch | apps/desktop/src/daemon-supervisor.ts:288-310 | A launch that fails gives its child up: its exit is only noted and restarts nothing |
| SupervisorRuns.ExitWhileLaunched | apps/desktop/src/daemon-supervisor.ts:312-318 | A child that ends while it is launched restarts nothing |
| SupervisorRuns.CrashArms | apps/desktop/src/daemon-supervisor.ts:334-349 | An accepted crash leaves no child and one more timer, which fires if and only if its delay has passed |
| SupervisorRuns.CrashComesBack | apps/desktop/src/daemon-supervisor.ts:334-349 | A crashed daemon comes back as a new child that is up |
| SupervisorRuns.RecordIsWindow | apps/desktop/src/daemon-supervisor.ts:335-343 | After every crash the record holds exactly the restarts of the window that ends now |
| SupervisorRuns.ExitLeavesDown | apps/desktop/src/daemon-supervisor.ts:312-340 | A refused crash, a clean exit and an exit that was asked for leave no child and arm nothing |
| SupervisorRuns.OtherExit | apps/desktop/src/daemon-supervisor.ts:312-316 | The exit of a child that is not the current one is only noted |
| SupervisorRuns.StopBringsDown | apps/desktop/src/daemon-supervisor.ts:140-167 | A stop that succeeds leaves no child and no known timer; one that fails leaves the child, and its later exit restarts nothing |
| SupervisorRuns.RestartBringsUp | apps/desktop/src/daemon-supervisor.ts:133-137 | A restart takes the daemon down and brings a new one up with an empty record; when its stop fails it goes no further |
| SupervisorRuns.RestartFromDown | apps/desktop/src/daemon-supervisor.ts:133-137 | A restart without a child goes on at once |
| SupervisorRuns.DisposalLetsGo | apps/desktop/src/daemon-supervisor.ts:180-190 | Disposal lets the child go and clears the known timer |
| SupervisorRuns.DisposedNeverSpawns | apps/desktop/src/daemon-supervisor.ts:119-131 | Over every run: a disposed supervisor spawns nothing again, whatever it is asked, unless a start was probing |
| DaemonSupervisors.DesktopDaemonSupervisor.Start | apps/desktop/src/daemon-supervisor.ts:119-131 | A start joins one under way and does nothing with a child or after disposal |
| DaemonSupervisors.DesktopDaemonSupervisor.OnProbe | apps/desktop/src/daemon-supervisor.ts:192-216 | A probe spawns one child or ends the start |
| DaemonSupervisors.DesktopDaemonSupervisor.OnLaunch | apps/desktop/src/daemon-supervisor.ts:276-310 | A failed launch abandons only its own child |
| DaemonSupervisors.DesktopDaemonSupervisor.Prune | apps/desktop/src/daemon-supervisor.ts:335-336 | The filter keeps the times within the window |
| DaemonSupervisors.DesktopDaemonSupervisor.ScheduleRestart | apps/desktop/src/daemon-supervisor.ts:334-349 | Refused at three, or else recorded and delayed by how many there are |
| DaemonSupervisors.DesktopDaemonSupervisor.OnProcessExit | apps/desktop/src/daemon-supervisor.ts:312-332 | Only an unexpected exit of the current child, after its start, schedules a restart |
| DaemonSupervisors.DesktopDaemonSupervisor.OnTimer | apps/desktop/src/daemon-supervisor.ts:344-347 | A due timer forgets the known one and starts |
| DaemonSupervisors.DesktopDaemonSupervisor.Stop | apps/desktop/src/daemon-supervisor.ts:140-150 | A stop clears the known timer and waits for the child if there is one |
| DaemonSupervisors.DesktopDaemonSupervisor.OnShutdown | apps/desktop/src/daemon-supervisor.ts:151-167 | A child that did not exit is kept, and the restart that waited for this stop goes no further |
| DaemonSupervisors.DesktopDaemonSupervisor.Restart | apps/desktop/src/daemon-supervisor.ts:133-135 | A user restart begins with a stop of its own, which clears the known timer |
| DaemonSupervisors.DesktopDaemonSupervisor.OnRestartResumes | apps/desktop/src/daemon-supervisor.ts:135-137 | Once that stop has succeeded it forgets the recorded times and starts |
| DaemonSupervisors.DesktopDaemonSupervisor.Dispose | apps/desktop/src/daemon-supervisor.ts:180-190 | Disposal clears the timer and releases the child |
| StatsCaches.EveryRun | apps/desktop/src/main.ts:879-931 | Over every interleaving, what callers get and what the cache remembers are functions of the settlements alone; failures are counted since the last success of the generation; at most one read of a generation is unfinished |
| StatsCaches.SuccessIsOfThisGeneration | apps/desktop/src/main.ts:897-925 | Every success, fresh or stale, carries a snapshot read and settled in the generation current when it is handed out |
| StatsCaches.CallJoinsCurrent | apps/desktop/src/main.ts:886-895 | A caller always joins an unfinished read of the current generation |
| StatsCaches.PhaseIsTold | apps/desktop/src/main.ts:899-928 | Over every run: how far a read has come is what the actions say, answered by its first reply and ended by its final handler behind that |
| StatsCaches.EndedFreesSlot | apps/desktop/src/main.ts:926-928 | Over every run: a read that was answered and whose final handler ran no longer holds the slot |
| StatsCaches.CallBeginsExactlyWhen | apps/desktop/src/main.ts:886-930 | Over every run: a call begins a new read if and only if every read of the current generation has ended; otherwise it joins the one that has not |
| StatsCaches.SettlesExactlyWhen | apps/desktop/src/main.ts:899-925 | Over every run: the first reply to a read is settled as the history before it says, in the generation the read was begun in, and nothing else is |
| StatsCaches.SwitchDiscards | apps/desktop/src/main.ts:886-903 | A switch leaves every read behind it in an earlier generation |
| StatsCaches.StatsCache.ReadStatsForShell | apps/desktop/src/main.ts:886-931 | The call fences, joins or begins a read |
| StatsCaches.StatsCache.OnReply | apps/desktop/src/main.ts:897-925 | A reply is discarded, remembered, or answered from the last good snapshot |
| StatsCaches.StatsCache.OnFinally | apps/desktop/src/main.ts:926-928 | A finished read frees the slot only if it is still its own |
| ModelIds.ResolveHistoricalOfferedModelId | packages/providers/src/catalog.ts:77-108 | The loops answer the one registered id a spelling stands for, and nothing when there is none or more than one |
| ModelIds.Matches | packages/providers/src/catalog.ts:92-106 | The collected set is the set of all registered ids that claim the name |
| ModelIds.ResolveUpstreamModel | packages/providers/src/runtime.ts:388-389 | The wire name is the binding of the first offering with that id, or the id |
| ModelIds.WireNameIsFirstBinding | packages/providers/src/runtime.ts:388-389 | The wire name is what the first offering with that id declares, and the id itself when that declares none or there is no such offering |
| ModelIds.TrimIsCore | packages/providers/src/catalog.ts:84-84 | Trimming takes away spaces at both ends, every one there and nothing else |
| ModelIds.InvertsExactlyWhen | packages/providers/src/catalog.ts:77-108 | A wire name leads back to its id if and only if, trimmed and unprefixed, it is that id, or is unregistered and claimed by that id alone |
| ModelIds.FixedPointExactlyWhen | packages/providers/src/catalog.ts:84-108 | A registered id that is trimmed and without the provider's own prefix answers itself, whatever claims it; any other does if and only if what trimming and the prefix leave is a nonempty unregistered name that it alone claims |
| ModelIds.OwnPrefixIsNoFixedPoint | packages/providers/src/catalog.ts:86-88 | Concrete provider: an id that begins with the provider's own prefix is answered once and then lost |
| ModelIds.OwnPrefixCanBeFixedPoint | packages/providers/src/catalog.ts:86-99 | Concrete provider: such an id answers itself when its own binding claims what the prefix leaves |
| ModelIds.OrderIsIrrelevant | packages/providers/src/catalog.ts:63-68 | The answer does not depend on the order of declarations |
| ModelIds.QualifiedIsBare | packages/providers/src/catalog.ts:85-88 | A name qualified with the provider's own id is looked up like the bare name |

## Left out

- Electron windows, menus, trays, cards and IPC registration: wiring without decisions of its own.
- Real spawning, signals, process groups, `/proc`, PowerShell and run markers: the outcome of tree termination, of the run home's cleanup and of the provenance record are arguments of steps; stdin writes only tell whether the sink is there.
- The guards at the head of `startProcess`, before anything is spawned (session.ts:107-137): an early abort or a marker that cannot be written cleans up and throws.
- `ProcessSession` groups the closure variables of `startProcess` into the records `Child`, `Timers` and `Ending`; aliasing between them does not occur in the source.
- Listeners registered once are modelled as events that may come again: more runs than the source has.
- Which file a path names is a parameter that does not change during a run; directories made by `mkdir` stay behind after a rollback; only file contents are modelled, and a restore that fails may leave any content.
- Lone surrogates in JavaScript strings, and the U+FFFD a lenient decoder writes for bytes that do not decode: decoding is strict and partial here.
- OwnedFiles.MaterializeFiles: does not promise the disk as it was when two spellings name one file that a write before the last changed, because the code does not restore it.
- Floating point: multipliers are quarters, scores are reals and SemVer numbers are exact integers, beyond 2^53 too; a measured sum is compared with the largest safe integer as the source does.
- The o200k tokenizer and JSON parsing are function parameters; `countTPSTokens` never fails here.
- `sampleTiming`, which copies a measurement into one of two record shapes, and the model and price tables outside the two domestic models and the four Go models.
- Arguments that cross-spawn already joined (`windowsVerbatimArguments`) and the rest of the Windows launcher.
- The IPC client's promises, payload parameters and timer durations: requests are names, and a request may time out at any moment while it is pending.
- The relay's live-call snapshots, recipients beyond the subscribing window, delays between retries and sockets; the ledger's numbers only have to increase, and sending to a window does not raise.
- LedgerRelays.SessionRelay.TakePage: subscriptions are records in a table indexed by their number, where the source mutates `PollState` objects; a page is one step, taken when it arrives.
- The quit controller's dialog updates and focus, a dialog that raises when it is updated or closed, and a `forceCancel` that raises before it returns a promise.
- The supervisor's connectivity monitor, state texts and log files; of `DaemonProcess` (apps/daemon/lib/supervisor.mjs) only which exits are expected.
- SupervisorSpec.EveryRunHasOneChild: children that were killed after a failed start or released by disposal may still be alive; the supervisor no longer waits for them.
- A statistics read that rejects instead of returning a failure.
- The credential-dependent part of `resolveUpstreamModel` and the fixed Kimi name table: the model covers the registered offerings.
- Liveness under fair scheduling: only `FinishCompletes` says how a teardown ends.
- `RpcConnection` in client-protocol.ts and the desktop quota controller's freshness after a reset: neither keeps the property its shape suggests.
- DesktopExec, WindowsQuoting: sections of the specifications that the printers never use, such as unquoted Exec arguments and field codes other than `%%`.
