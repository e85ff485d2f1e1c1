# s7cmd: a verified model

`s7cmd batch-run` runs a script of S3 commands, one per line, in sequence or with several workers,
from a script read in full or streamed. `s7cmd mv` copies an object and deletes the source. This
project models these two and three smaller pieces (redaction of credentials in logged lines,
verified replacement of an output file, tag-string parsing), and proves what they guarantee.

`dafny verify dfyconfig.toml` checks everything.

## How the model is laid out

- `ExitCodes`, `Summary`, `Lines`: exit-code severity, stop-worthiness, the summary and progress
  counters, prepared lines and their dispatch. A dispatch is a function of the position and the
  command; it returns a code or panics.
- `SequentialExecutor`: the two sequential loops as methods, against a declarative account of where
  a run stops and what it reports. The interrupt flag is a set of positions at which it reads true.
- `WorkerPool`, `ParallelExecutor`, `StreamingExecutor`, `SpawnRange`, `StreamingMatches`: the two
  parallel executors as step systems, what their schedules can do with one script, and that the two
  do the same. The spawn loop is a program counter that stops at every flag read, channel receive
  and semaphore wait; a task runs, gets its code, increments the failure counter, compares what it
  got back with the threshold, ticks the progress counters, gives its permit back and is joined. A
  task may also die outside the caught dispatch, before it has its code or at its tick. SIGINT may
  arrive at any point. The theorems are over every interleaving.
- `Utf8`, `LineReader`, `ScriptConsumers`, `ScriptText`, `ChunkedPrepare`, `Pipeline`: from bytes to
  prepared lines: the capped line reader over arbitrary refills, the three consumers of it, what a
  script's text becomes, the threaded preparation, and the whole of a run. Shell splitting, argument
  parsing and validation are arbitrary functions of their input.
- `Redact`, `Tagging`, `VerifiedOutput`: the smaller pieces.
- `VersionedStore`, `MoveKeys`, `Move`, `MoveRuns`, `MoveTwoNames`, `MoveInterrupts`, `MoveClients`: a
  store of buckets without versioning, with it, and with it suspended; key resolution and the
  self-move guard; and `mv` as a step system with the Ctrl-C handler, failing workers, failing
  requests and other clients interleaved. The transfer engine is its contract: it reads one version,
  writes one content, and reports the id of the version it read. Which bucket an endpoint and a
  bucket name lead to is any function of the two.

## Where the code and its documentation differ

The model follows the code in each case.

- `executor.rs:258-262` says no new command is spawned once N failures have been recorded. The
  parallel loop does not look at the cancel flag again after waiting for a permit (or, streaming,
  for a line), so one more line can be spawned, and lines already spawned still run.
  `SpawnRange.SpawnedIff` gives the numbers of lines that occur, from the sequential one to just past
  the line after the (N + workers - 1)-th stop-worthy one, every one of them;
  `SpawnRange.OvershootsIff` says that more lines than in sequence can be spawned exactly when the
  sequential run stops short of the script's end.
- `executor.rs:475-478` and `523-524` promise identical semantics of streaming and read-all modes.
  Without a signal the parallel executors keep that promise (`StreamingMatches.StreamingAsReadAll`,
  `ReadAllAsStreaming`), and so do the sequential ones. The commands differ in that a read error ends
  read-all mode with nothing run, and streaming mode after the lines before it
  (`Pipeline.RunReadAll`, `Pipeline.RunStreaming`).
- The exit code of a parallel run can depend on the schedule, in two ways. The severity fold keeps the
  first of equally ranked codes, and 101, 130 and every other odd code share a rank; and with a
  threshold the schedule decides which lines are run at all. `SpawnRange.ExitCodeDeterminedIff` says
  of every script, threshold and number of workers exactly when all schedules report one code;
  `SpawnRange.ThresholdLetsTheCodeVary` is a script that under the default options and two workers
  ends with 101 or with 1. `ExitCodes.ExitCodeOrderFreeIff` is the condition for one list of recorded
  codes, and by `SpawnRange.NoThresholdDeterminedIff` that for a script under `--continue-on-error`.
- The repository's `README.md:620` says a SIGINT that lands while the spawn loop waits lets one more
  line start. The code looks at the flag again after the wait; what is left is the moment between
  that look and the spawn (`ParallelExecutor.AfterInterruptNoSpawn`).
- `mv.rs:61-77` compares endpoints and bucket names as text, so two spellings of one endpoint, or a
  bucket's own name and an alias of it, get past the self-move guard. `Move.DataFollowsRun` and
  `Move.SuccessMeansMoved` give the exact condition under which a move then loses what it wrote:
  source and target are one object, versioning is off or suspended, and the version read is the
  `null` one (`Move.Clobbers`). `MoveTwoNames.TwiceNamedMoveLosesTheObject` is such a run for any two
  names, ending with exit 0. Where no bucket goes by two names (`Move.NamesTell`) the guard stops every
  such move, and `Move.NothingIsLost` holds.
- `mod.rs:406-408` expects the reader to end by finding the receiver gone. Every way out of the
  executors first drains the channel to its closing, so that branch is never taken
  (`StreamingExecutor.ReachableBounds`).
- `get_object_annotation.rs:383` prints the metadata after the rename; when that fails for a reason
  other than a closed pipe the command ends in an error although the output file has been replaced,
  with content that passed its checks. `VerifiedOutput.RunGetObjectAnnotation` gives the exact condition and
  `ErrorAfterReplacement` an instance.
- The Ctrl-C flag of `ctrl_c_handler.rs` belongs to the process and is never cleared: after one
  interrupt every later `mv` of the same process that starts copying ends with 130
  (`MoveInterrupts.StaleFlagCancels`), and so deletes nothing.
- A token such as `--name=my-access-key`, whose flag is no secret, still counts as a secret flag
  because the whole token is searched, and the token after it is masked (`Redact.NameMasksNext`).
  `Redact.MaskedAfterPlainFlagIff` says which masked positions come about in this way: exactly those
  after a `--flag=value` token in which only the value names a secret.

## Model

| member | source | states |
|---|---|---|
| ExitCodes.WorstIsLeftmostMaximum | src/batch_run/executor.rs:294-314 | folding `worse_of` from 0 picks the leftmost code of greatest severity |
| ExitCodes.ReportedCodeIs | src/batch_run/executor.rs:294-314 | the fold is 1 exactly when 1 occurs; 2, 3 or 4 exactly when it occurs and none before it in that order does; and with none of the four the first code that is not 0 |
| ExitCodes.ExitZeroIffAllZero | src/batch_run/executor.rs:308-314 | the folded exit code is 0 exactly when every recorded code is 0 |
| ExitCodes.CompletionOrderKeepsSeverity | src/batch_run/executor.rs:442-456 | two join orders of the same codes give the same severity and counters, and the same code unless it is one outside 0-4 |
| ExitCodes.ExitCodeOrderFreeIff | src/batch_run/executor.rs:294-314 | for one list of recorded codes, the fold is independent of their order exactly when the worst code is one of 0-4 or all failures share one code |
| ExitCodes.AnotherOrder | src/batch_run/executor.rs:305-314 | otherwise any failing code of the run is reported by some order |
| ExitCodes.TallyByMultiset | src/batch_run/summary.rs:20-27 | each recorded code lands in one bucket, and the buckets depend only on how often each code occurs |
| ExitCodes.StopWorthyByTally | src/batch_run/executor.rs:281-287 | the stop-worthy codes of a run are those counted failed, plus the warnings unless `--continue-on-warning` |
| Summaries.Summary.Record | src/batch_run/summary.rs:15-27 | one counter goes up, and the counters that the stop policy looks at go up exactly when the code is stop-worthy, with and without `--continue-on-warning` |
| Summaries.Progress.Tick | src/batch_run/progress.rs:66-80 | the second set of counters moves as the summary's does, and a shown bar by as much as its counters |
| SequentialExecutor.DispatchedIsTheStop | src/batch_run/executor.rs:341-363 | the number of lines run is the one count with no interrupt and fewer than T stop-worthy codes before it, at which the script ends, the interrupt is seen or T is reached |
| SequentialExecutor.RunSequential | src/batch_run/executor.rs:322-368 | exit code, summary, progress counters, bar position and final bar state of a run over a read script |
| SequentialExecutor.RunSequentialStreaming | src/batch_run/executor.rs:480-521 | over a channel: the result of the same codes and interrupt positions in read-all mode, and the channel is drained |
| Lines.ExecuteLine | src/batch_run/executor.rs:125-167 | running a line yields 2 when it is invalid, 101 when its command panics, and otherwise what the command returned |
| SequentialExecutor.ReturnedCodesAreReported | src/batch_run/executor.rs:341-363 | a run over lines that yield given codes reports the result of those codes |
| SequentialExecutor.ExitZeroIffAllReturnZero | src/batch_run/executor.rs:322-368 | whatever the options, an uninterrupted run exits 0 exactly when every line of the script is a command that returned 0 |
| SequentialExecutor.DrainAsSkipped | src/batch_run/executor.rs:508-514 | every line left in the channel is counted skipped once |
| SequentialExecutor.SequentialRunAccounts | src/batch_run/executor.rs:341-363 | the report is the worst code and tally of the lines run plus the lines never run, which exist only after an interrupt or a reached threshold |
| SequentialExecutor.NeverPastThreshold | src/batch_run/executor.rs:355-362 | at most T stop-worthy lines run |
| SequentialExecutor.FailureShows | src/batch_run/executor.rs:67-92 | a run with an invalid line or a panicking command does not exit 0 and counts a failure, whatever the options, and by default goes no further |
| SequentialExecutor.NoThresholdRunsAll | src/batch_run/executor.rs:341-363 | uninterrupted under `--continue-on-error`, the report is the worst code and the tally of the whole script |
| SequentialExecutor.SuccessMeansClean | src/batch_run/executor.rs:341-363 | an uninterrupted run that exits 0 ran every line, all with code 0 |
| WorkerPool.PermitsKept | src/batch_run/executor.rs:384-439 | free permits, tasks alive and the spawner's own permit add up to the workers |
| WorkerPool.TicketsKept | src/batch_run/executor.rs:429-436 | the counter, the counts tasks got back from it and the cancel flag stay consistent through every task step |
| WorkerPool.RunBeforeCancel | src/batch_run/executor.rs:429-436 | until the flag is up, the stop-worthy lines run are fewer than the threshold plus the tasks alive |
| WorkerPool.WorkKeeps | src/batch_run/executor.rs:426-455 | every task step and join keeps all of the pool's invariants: permits, counts, order, tick log, join log |
| WorkerPool.JoinedPrefixNoMilder | src/batch_run/executor.rs:442-456 | once all tasks are joined, no prefix of the spawned lines has a worse code than the one reported |
| WorkerPool.DeadTaskIsError | src/batch_run/executor.rs:449-453 | once all tasks are joined and one of them has died, the reported code is 1 |
| ParallelExecutor.ReachableIsSound | src/batch_run/executor.rs:370-473 | the invariant holds in every state of every interleaving |
| ParallelExecutor.ReachableBounds | src/batch_run/executor.rs:398-441 | at most `workers` tasks alive, spawned lines are a prefix of the script, stop-worthy lines at most threshold plus workers, all but those of tasks that died before having a code |
| ParallelExecutor.AfterCancelAtMostOne | src/batch_run/executor.rs:403-418 | after the cancel flag is up at most one more line is spawned, and none unless the check came first |
| SpawnRange.SpawnedAtMost | src/batch_run/executor.rs:398-440 | in every state of every run without dying tasks, interrupted or not, the lines spawned end with the one after the (threshold + workers - 1)-th stop-worthy line at the latest |
| SpawnRange.SomeRun | src/batch_run/executor.rs:398-456 | for every number of lines from the sequential one to that bound some finished run spawns just those, with any of them the first to be joined |
| SpawnRange.SpawnedIff | src/batch_run/executor.rs:398-440 | so the numbers of lines that undisturbed runs spawn are exactly that range |
| SpawnRange.OvershootsIff | src/batch_run/executor.rs:258-262 | more lines than in sequence can be spawned exactly when the sequential run stops short of the end of the script |
| SpawnRange.OvershootIsMet | src/batch_run/executor.rs:398-441 | for every threshold and every number of workers some undisturbed run spawns exactly threshold plus workers failing lines |
| SpawnRange.ExitCodeDeterminedIff | src/batch_run/executor.rs:398-456 | all undisturbed schedules report one exit code exactly when the longest run is no more severe than the sequential one and, at the severity shared by all codes outside 0-4, holds one failure code only |
| SpawnRange.NoThresholdDeterminedIff | src/batch_run/executor.rs:442-456 | under `--continue-on-error` that is when the fold of the script's codes does not depend on their order |
| SpawnRange.ThresholdLetsTheCodeVary | src/batch_run/executor.rs:398-456 | a script that ends with 101 or 1, by schedule, with the default threshold and two workers, although its codes fold to 1 in any order |
| ParallelExecutor.AfterInterruptNoSpawn | src/batch_run/executor.rs:410-418 | after an interrupt nothing is spawned, except a line whose re-check had passed |
| ParallelExecutor.InterruptEndsLoop | src/batch_run/executor.rs:398-402 | an interrupt before a line's first check ends the loop without a permit taken or a line spawned |
| ParallelExecutor.FinishedAccounts | src/batch_run/executor.rs:442-462 | at the end each spawned line is recorded once, with its code, or with 1 when its task died, and the four counters add up to the script |
| ParallelExecutor.FinishedTallies | src/batch_run/executor.rs:437-462 | without a crashed task the progress counters are the tally of the spawned prefix, and the summary that plus the unspawned lines |
| ParallelExecutor.DispatchesAtLeastSequential | src/batch_run/executor.rs:398-440 | uninterrupted, every schedule spawns at least the prefix the sequential loop runs |
| ParallelExecutor.AtLeastAsSevere | src/batch_run/executor.rs:442-456 | its exit code is at least as severe as the sequential one |
| ParallelExecutor.NoThresholdSameReport | src/batch_run/executor.rs:370-473 | with `--continue-on-error`, no interrupt and no dead task, counters and severity equal those of the sequential run |
| ParallelExecutor.SameSuccess | src/batch_run/executor.rs:370-473 | whatever the threshold, uninterrupted parallel and sequential runs exit 0 on the same scripts, dead tasks aside |
| ParallelExecutor.DeadTaskExitsOne | src/batch_run/executor.rs:449-453 | a run in which a task died exits 1 |
| ParallelExecutor.StepDecreases | src/batch_run/executor.rs:398-455 | every executor step lowers a measure, a signal leaves it |
| ParallelExecutor.SchedulesAreBounded | src/batch_run/executor.rs:398-455 | no interleaving has more executor steps than the measure of its start |
| ParallelExecutor.NeverStuck | src/batch_run/executor.rs:398-455 | with a worker, some executor step is possible in every unfinished state |
| Pipeline.BatchNeverStuck | src/batch_run/executor.rs:649-657 | `resolve_workers` gives a worker for every `--parallel`, so no unfinished read-all run is stuck |
| Pipeline.StreamNeverStuck | src/batch_run/executor.rs:649-657 | nor any unfinished streaming run |
| StreamingExecutor.ReachableIsSound | src/batch_run/executor.rs:527-634 | the invariant of reader, channel, spawn loop and tasks holds in every state of every interleaving |
| StreamingExecutor.ReachableBounds | src/batch_run/executor.rs:546-603 | the same permit and overshoot bounds, and the reader never finds its receiver gone |
| StreamingExecutor.AfterCancelAtMostOne | src/batch_run/executor.rs:551-565 | after the cancel flag is up at most one more line is spawned |
| StreamingExecutor.AfterInterruptNoSpawn | src/batch_run/executor.rs:566-577 | after an interrupt nothing is spawned, except a line whose re-check had passed |
| StreamingExecutor.InterruptEndsLoop | src/batch_run/executor.rs:546-550 | an interrupt before the loop's first check ends it without a line taken to be run |
| StreamingExecutor.FinishedAccounts | src/batch_run/executor.rs:546-619 | every line sent is run and recorded once, with its code, or with 1 when its task died, or counted skipped once, in script order, and the channel ends empty |
| StreamingExecutor.FinishedTallies | src/batch_run/executor.rs:595-619 | without a crashed task both sets of counters are the tally of the spawned lines, plus the dropped ones |
| StreamingExecutor.DispatchesAtLeastSequential | src/batch_run/executor.rs:546-603 | uninterrupted, the whole script is sent and at least the sequential prefix is spawned |
| StreamingExecutor.AtLeastAsSevere | src/batch_run/executor.rs:605-620 | the exit code is at least as severe as the sequential one |
| StreamingExecutor.NoThresholdSameReport | src/batch_run/executor.rs:527-634 | with `--continue-on-error`, no interrupt and no dead task, counters and severity equal those of the sequential run of the script |
| StreamingExecutor.SameSuccess | src/batch_run/executor.rs:527-634 | whatever the threshold, uninterrupted streaming runs in parallel and in sequence exit 0 on the same scripts, dead tasks aside |
| StreamingExecutor.DeadTaskExitsOne | src/batch_run/executor.rs:613-617 | a streaming run in which a task died has 1 as its worst code |
| StreamingExecutor.FinalCodeZeroIff | src/batch_run/mod.rs:409-419 | the command exits 0 exactly when every recorded code is 0 and the reader did not fail, and otherwise with the worst code or, after a failed reader, at least 1 |
| StreamingExecutor.SchedulesAreBounded | src/batch_run/executor.rs:546-619 | no interleaving has more reader and executor steps than the measure of its start |
| StreamingExecutor.NeverStuck | src/batch_run/executor.rs:546-619 | with a worker, reader or executor can move in every unfinished state |
| StreamingMatches.StreamingAsReadAll | src/batch_run/executor.rs:523-634 | every uninterrupted streaming run ends with the tasks, counters, join order and exit code of some read-all run of the same lines |
| StreamingMatches.ReadAllAsStreaming | src/batch_run/executor.rs:523-634 | and every uninterrupted read-all run with those of some streaming run |
| StreamingMatches.StreamSpawnedIff | src/batch_run/executor.rs:546-603 | so streaming runs spawn exactly the numbers of lines that read-all runs spawn |
| StreamingMatches.StreamCodeDeterminedIff | src/batch_run/executor.rs:546-620 | and all of them report one worst code under exactly the condition of read-all mode |
| Utf8.DecodeEncode | src/batch_run/parser.rs:121-123 | decoding undoes encoding, for every text (section 3 of RFC 3629) |
| Utf8.EncodeDecode | src/batch_run/parser.rs:121-123 | bytes that decode are the encoding of what they decode to: no other byte sequence is accepted |
| LineReader.ReadLineCapped | src/batch_run/parser.rs:101-135 | result and position depend on the bytes only, not on the refills; memory stays within the cap plus one buffer |
| ScriptText.TextLineReadsBack | src/batch_run/parser.rs:114-133 | a line of text closed by a newline or the end of the script reads as itself up to 16384 octets, and is too long beyond |
| ScriptText.ScriptReadsBack | src/batch_run/parser.rs:60-135 | the octets of any lines of at most 16384 octets, each closed by a newline, the last one or not, read back as those lines |
| LineReader.RejectedIff | src/batch_run/mod.rs:511-555 | a line is refused exactly when it is over 16 KiB, no encoding of any text, or cut off by an I/O error |
| ScriptConsumers.ReadAll | src/batch_run/parser.rs:60-89 | the parsed lines of the whole script, or the read error with its physical line number |
| ScriptConsumers.NumbersArePhysical | src/batch_run/parser.rs:62-80 | line numbers are physical, in order, each with its raw text |
| ScriptText.TokenizeLineIs | src/batch_run/parser.rs:39-52 | nothing for white space, for a first visible `#`, or for no words; else `s7cmd` and the words of the trimmed line, or an error |
| ScriptText.PresentIffNotBlank | src/batch_run/parser.rs:39-80 | a physical line is kept exactly when it is not white space, no comment and not without words |
| ScriptText.PreparedIs | src/batch_run/mod.rs:565-607 | number and raw text carry over; the four kinds of invalid line and their reasons, and the command, come from the stage that produced them |
| ScriptText.CommandsComeFromTheirLines | src/batch_run/mod.rs:565-607 | every command of a script is the parse of the words of its own physical line behind `s7cmd`, found valid under that line's number and text |
| ScriptConsumers.CheckFormatLines | src/batch_run/mod.rs:119-199 | an issue is reported exactly when read-all would fail or prepare a line that is not a command |
| ScriptConsumers.StreamingReader | src/batch_run/mod.rs:454-509 | sent lines, result and flag are those of `ReadingOf`: the prepared lines before the first signal, cut where the receiver is gone, with the flag set by a signal only |
| ScriptConsumers.UninterruptedReading | src/batch_run/mod.rs:465-508 | with no signal and a live receiver, that is all read-all prepares, with read-all's error and line number |
| ScriptConsumers.SentIsPrefix | src/batch_run/mod.rs:465-508 | whatever cuts it short, an initial part of what read-all prepares, in order |
| ChunkedPrepare.ChunksCover | src/batch_run/mod.rs:632-637 | the chunks put together are the input, none empty, none too large, at most as many as workers |
| ChunkedPrepare.FullBeforeLast | src/batch_run/mod.rs:632-637 | all chunks but the last are full |
| ChunkedPrepare.DivCeilCovers | src/batch_run/mod.rs:632 | rounding up covers the input, and one less would not |
| ChunkedPrepare.ForkJoin | src/batch_run/mod.rs:639-652 | threads finishing in any order, joined in submission order, give the plain map |
| ChunkedPrepare.ParseAndValidate | src/batch_run/mod.rs:619-653 | the result is the plain map of `try_prepare`, for every input and processor count |
| Pipeline.SameLines | src/batch_run/mod.rs:454-509 | line for line, the streaming executor is fed what read-all mode runs |
| Pipeline.ModesAgree | src/batch_run/mod.rs:242-431 | uninterrupted, with `--continue-on-error` and no dead task, every schedule of either parallel mode reports the same counters and severity for a script, whatever the other options |
| Pipeline.BatchSucceedsIff | src/batch_run/executor.rs:370-473 | an uninterrupted parallel run exits 0 exactly when every line is a command that returned 0 and no task died |
| Pipeline.StreamSucceedsIff | src/batch_run/executor.rs:527-634 | the same of a streaming run over the text of a script |
| Pipeline.ParallelMeans | src/batch_run/executor.rs:649-657 | `--parallel n` keeps at most n commands running; 0 means the number of processors, or 1 |
| Pipeline.ErrorFlagsMean | src/batch_run/mod.rs:306-309 | `--continue-on-error` runs all lines; else a run leaves lines out only with as many failures as `--max-errors` says, 1 by default, warnings counting unless `--continue-on-warning` is given |
| Pipeline.RunReadAll | src/batch_run/mod.rs:253-338 | from bytes to exit code in sequence: the sequential result of the prepared script, or 1 with nothing run when it cannot be read; uninterrupted, 0 exactly when it can be read and every line is a command that returned 0 |
| Pipeline.RunStreaming | src/batch_run/mod.rs:343-431 | the same for streaming: the sequential result of the lines sent, all of them without a signal, lifted to 1 after a read error; uninterrupted, 0 exactly when reading went well and every line sent returned 0 |
| Redact.RedactTokens | src/batch_run/redact.rs:76-110 | the lookahead loop masks position by position, or leaves the line alone |
| Redact.RedactWhitespace | src/batch_run/redact.rs:119-146 | the carried-flag loop computes the same function |
| Redact.Redacted | src/batch_run/redact.rs:76-146 | the output is aligned with the input, position by position |
| Redact.UnmaskedIff | src/batch_run/redact.rs:109 | a line is left alone exactly when no position holds a secret value |
| Redact.RedactTwice | src/batch_run/redact.rs:76-146 | redacting twice is redacting once |
| Redact.VerdictStays | src/batch_run/redact.rs:76-146 | a redacted line gets the verdict of the original |
| Redact.SecretsDoNotShow | src/batch_run/redact.rs:39-49 | lines that differ only in secret values are masked alike with the same verdict, and are the same line when left alone |
| Redact.SecretFlagIff | src/batch_run/redact.rs:29-37 | a flag is secret exactly when `access-key`, `session-token` or `sse-c-key` occurs in it |
| Redact.CredentialFlagsAreSecret | src/batch_run/redact.rs:24-37 | so are `--source-session-token`, `--target-sse-c-key-md5` and every flag formed like them |
| Redact.JoinedWordsSplit | src/batch_run/redact.rs:145 | the words of a redacted line without spaces of their own can be told apart again |
| Redact.MaskedAfterPlainFlagIff | src/batch_run/redact.rs:92-99 | a position is masked after a token whose flag is no secret exactly when that token is an unmasked `--flag=value` in which only the value names a secret |
| Redact.WholeTokenSecretIff | src/batch_run/redact.rs:34-37 | searched whole, a `flag=value` token is a secret flag exactly when its flag is one or its value names a secret |
| Redact.NameMasksNext | src/batch_run/redact.rs:92-99 | `--name=my-access-key x` is such a line, with `****` for `x` |
| VersionedStore.WrittenSurvivesIff | src/util_bin/cli/mv.rs:23-43 | what is written over a version that is then deleted survives, and is what a plain read returns, exactly with versioning or when that version is not the `null` one |
| VersionedStore.PlainDeleteHides | src/util_bin/cli/mv.rs:144-147 | a delete without a version id hides the key in every mode and takes away at most its `null` version |
| VersionedStore.DeleteKeepsValid | src/util_bin/cli/mv.rs:144-147 | a delete, marker or permanent, keeps the store well-formed |
| MoveKeys.KeysAreThoseNamed | src/util_bin/cli/mod.rs:657-706 | the source key is the one named, and so is the target key when the target names no directory |
| MoveKeys.DirectoryTakesTheName | src/util_bin/cli/mod.rs:668-702 | a directory-style prefix, the empty one, or a local directory takes the source's file name under it |
| MoveKeys.TrailingPartsIgnored | src/util_bin/cli/mod.rs:668-671 | a separator or a `.` component at the end of a key does not change its file name, and a key that ends in `..` has none |
| MoveKeys.DirectoryTargetResolves | src/util_bin/cli/mod.rs:668-688 | a directory-style target always resolves, to the source's own name under it |
| MoveKeys.GuardRejectsIff | src/util_bin/cli/mv.rs:46-98 | the guard rejects exactly one name of a bucket and endpoint on both sides, one key, and no version asked for but `null` |
| Move.ReachableIsSound | src/util_bin/cli/mv.rs:16-162 | the invariant of flow, handler and store holds in every state of every interleaving |
| Move.DataFollowsRun | src/util_bin/cli/mv.rs:16-162 | at every moment the target holds what was written, before the delete always and after it exactly when the copy did not replace the version it read; till then the source has that version, with the same exception |
| Move.NothingIsLost | src/util_bin/cli/mv.rs:16-162 | where no bucket goes by two names: at every moment the version read is at the source, or the target holds what was written, which is the content read unless a warning was overridden |
| Move.SuccessMeansMoved | src/util_bin/cli/mv.rs:129-155 | success of a real move: the version read is gone from the source, and the target holds the content exactly when the copy did not replace it, which takes two names of one bucket |
| MoveRuns.MovedWhereAsked | src/util_bin/cli/mv.rs:16-162 | success of a real move: the content is at the prefix or path the user named, and the version read gone from the source named |
| MoveRuns.MovedIntoDirectory | src/util_bin/cli/mv.rs:16-162 | and of a move into a directory: under the source's file name there |
| MoveRuns.UndisturbedMoveSucceeds | src/util_bin/cli/mv.rs:100-155 | every move that passes the checks, finds its source and is not disturbed can end with 0, with an accepted warning too |
| MoveRuns.UndisturbedDryRunSucceeds | src/util_bin/cli/mv.rs:135-142 | an undisturbed dry run ends with 0 |
| MoveRuns.PromotionPasses | src/util_bin/cli/mv.rs:84-90 | publishing an older version under its own key passes the checks |
| MoveRuns.PassesIff | src/util_bin/cli/mod.rs:210-223 | a move passes the checks exactly when both ends make sense together, a target key can be resolved and the guard does not object |
| MoveRuns.RejectedMoveExitsOne | src/util_bin/cli/mv.rs:16-21 | every other move ends with 1, with nothing written or deleted |
| MoveTwoNames.TwiceNamedMoveLosesTheObject | src/util_bin/cli/mv.rs:61-77 | for any two different names of one bucket without versioning, by endpoint or by bucket name, a run that exits 0 and leaves nothing |
| Move.GuardStopsClobbering | src/util_bin/cli/mv.rs:46-98 | where no bucket goes by two names, the guard stops every move whose copy would replace the version it reads |
| Move.WriteKeepsSource | src/util_bin/cli/mv.rs:46-98 | otherwise the copy itself never destroys the version it read |
| Move.EraseKeepsTargetIff | src/util_bin/cli/mv.rs:129-148 | the delete, with an explicit, a captured or no version id, spares what the copy wrote exactly when the copy did not replace the version read |
| Move.DryRunChangesNothing | src/util_bin/cli/mv.rs:135-142 | a dry run deletes and writes nothing |
| MoveInterrupts.DeleteOnlyThroughGates | src/util_bin/cli/mv.rs:100-147 | one delete at most, only after an uncancelled successful copy without an unaccepted warning, on every way there through gate 4 with the token uncancelled, never in a run that ends with 130 |
| MoveInterrupts.DeletePassedGateFour | src/util_bin/cli/mv.rs:123-127 | every run that deletes has a step at which gate 4 finds the token uncancelled |
| MoveInterrupts.CancelledTokenStopsDelete | src/util_bin/cli/mv.rs:123-127 | a token cancelled by anyone at any moment before that step means no delete and no success, in every continuation |
| MoveInterrupts.FlagForcesCancelled | src/util_bin/cli/mod.rs:581-587 | with the flag up before the phase reads it, exit 130 and no delete, whatever became of copy and token |
| MoveInterrupts.SignalDuringCopyIs130 | src/util_bin/cli/ctrl_c_handler.rs:38-43 | a signal during the copy whose handler has stored the flag makes exit 130 and no delete |
| MoveInterrupts.StaleFlagCancels | src/util_bin/cli/ctrl_c_handler.rs:21-30 | the same for a flag left by an earlier interrupt |
| MoveInterrupts.FlagBeforeToken | src/util_bin/cli/ctrl_c_handler.rs:38-43 | a handler about to cancel the token has stored the flag |
| MoveInterrupts.RealFailureIsError | src/util_bin/cli/mod.rs:600-626 | a copy that failed for its own reasons ends with 1 when no signal came, even with the token cancelled |
| MoveRuns.CancelledMoveIs130 | src/util_bin/cli/mv.rs:100-127 | a cancelled copy, or a finished one with the token cancelled before gate 4, ends with 130 |
| MoveRuns.FailedCopyExits | src/util_bin/cli/mod.rs:581-626 | from any state of the copy: a cancelled copy ends with 130, a failed one without a signal with 1, and nothing is deleted |
| MoveRuns.DeleteNamesTheVersion | src/util_bin/cli/mv.rs:129-147 | the delete names the version asked for, and only without one the version the copy reports |
| MoveRuns.UnacceptedWarningIsError | src/util_bin/cli/mv.rs:115-121 | without a signal a warning that was not accepted ends with 1 and the source in place |
| MoveClients.OnlyTheVersionReadGoes | src/util_bin/cli/mv.rs:129-148 | with versioning, `mv` removes no version but the one it read |
| MoveClients.OthersVersionsSurvive | src/util_bin/cli/mv.rs:129-148 | over whole runs with other clients, a version nobody else deletes by id is still there or was the one read |
| MoveClients.OverwriteOutlivesMove | src/util_bin/cli/mv.rs:129-148 | with versioning, a concurrent overwrite of the source survives the rest of the run |
| MoveClients.WrittenOutlivesMove | src/util_bin/cli/mv.rs:16-21 | with versioning at the target, what the copy wrote survives the rest of the run and all other clients, unless one deletes that version |
| MoveClients.OverwriteSurvivesDeleteIff | src/util_bin/cli/mv.rs:129-148 | an overwrite just before the delete survives it exactly with versioning, or suspended with a version other than `null` read, whatever else other clients did |
| MoveClients.DeleteRemovesExactly | src/util_bin/cli/mv.rs:129-148 | in any bucket and among other clients, the delete takes away the version read and no other |
| VerifiedOutput.PassesIff | src/util_bin/cli/get_object_annotation.rs:90-140 | bytes pass exactly when no promise of the response is broken, and are verified exactly when one was kept |
| VerifiedOutput.ApplicableIff | src/util_bin/cli/get_object_annotation.rs:311-316 | what is checked is the promise of the response, with its checksum exactly when that is not composite |
| VerifiedOutput.ReadPayload | src/util_bin/cli/get_object_annotation.rs:322-336 | the payload read is the body, refused exactly when over 1 MiB or cut off, held within the cap plus one chunk |
| VerifiedOutput.VerifySavedFile | src/util_bin/cli/get_object_annotation.rs:150-173 | succeeds exactly when the file on disk is readable and passes |
| VerifiedOutput.WriteVerifiedOutput | src/util_bin/cli/get_object_annotation.rs:184-228 | under any faults the file shows its old content or passing bytes at every moment, an error leaves it untouched, and success means no fault and passing bytes on disk |
| VerifiedOutput.RunGetObjectAnnotation | src/util_bin/cli/get_object_annotation.rs:248-398 | the output file is replaced exactly when payload and bytes on disk have the length, ETag and, unless it is composite, the checksum that the response promises; the one error with a replaced file is a failure to print the metadata |
| VerifiedOutput.ErrorAfterReplacement | src/util_bin/cli/get_object_annotation.rs:383 | such a run |
| Tagging.ParseTaggingToTags | src/util_bin/cli/tagging.rs:15-35 | the loop computes the tags of all pairs in order, or the first error |
| Tagging.DecodeEncodePercent | src/util_bin/cli/tagging.rs:26-31 | percent-decoding undoes percent-encoding of any octets (section 2.1 of RFC 3986) |
| Tagging.ParseUndoesEncoding | src/util_bin/cli/tagging.rs:15-35 | parsing an encoded tag list gives the list back, for every list, every safe choice of characters kept and either digit case |
| Tagging.ParseUndoesStandardEncoding | src/util_bin/cli/tagging.rs:15-35 | the same with the unreserved characters of section 2.3 of RFC 3986 kept |
| Tagging.PlainSideKept | src/util_bin/cli/tagging.rs:26-31 | a side without `%` stands for itself, `+` and later `=` included |
| Tagging.PairCutAtFirstEquals | src/util_bin/cli/tagging.rs:20-31 | a pair is cut at its first `=` only, a missing value is empty, and an undecodable key is reported before the value |
| Tagging.TripletOfSlash | src/util_bin/cli/tagging.rs:26-31 | `%2F` and `%2f` both stand for a slash |
| Tagging.StrayPercentKept | src/util_bin/cli/tagging.rs:26-31 | a side without a well-formed triplet stands for itself, stray `%` included |

## Left out

- ParallelExecutor.AtLeastAsSevere: compares severity, not code; which codes the schedules of a script report is in `SpawnRange`.
- SpawnRange.SpawnedIff: is about runs that no signal and no dying task disturbs, as are the other equivalences of `SpawnRange`.
- StreamingMatches.StreamingAsReadAll: is about uninterrupted runs; after a signal streaming may drop a line it holds, and the reader may stop early.
- ParallelExecutor.ReachableBounds: leaves aside tasks that died before having a code; they are recorded as exit 1 but never reach the failure counter, so no bound holds of them.
- ParallelExecutor.AfterInterruptNoSpawn: is about spawning; a task spawned before the interrupt may be polled for the first time after it.
- StreamingExecutor.NeverStuck: takes the reader to deliver its next line, end or error sooner or later; a standard input that stays open keeps the real command waiting.
- StreamingExecutor.FinalCodeZeroIff: a failed reader lifts the code to at least 1 numerically, not by severity, as the program does.
- Pipeline.RunStreaming: the executor starts while the reader is still at work in the program; the interleaving of the two is in `StreamingExecutor`.
- LineReader.ReadLineCapped: one method stands for the blocking and the async copy, which are the same statements on an exclusively borrowed reader; where the reader stands after an over-long line is not stated.
- Redact.RedactTokens: starts from the tokens; shell splitting and the raw-substring shortcut of `redact_secrets` are not modelled, and quoting can hide a flag from the shortcut.
- Redact.RedactWhitespace: starts from the words; splitting at white space is not modelled.
- Move.NothingIsLost: holds where no bucket goes by two names, which `Move.DataFollowsRun` does not assume, and without other clients; what they cannot destroy is stated in `MoveClients.OthersVersionsSurvive`.
- MoveClients.OthersVersionsSurvive: other clients do not change a bucket's versioning mode.
- SequentialExecutor.RunSequential: a position and a command have one outcome, so commands of a script that influence each other do so only through their position.
- Integer widths: counters are unbounded, `u64` overflow after 2^64 lines is not modelled, and saturating subtraction is written out.
- Tokio, semaphores, atomics and `JoinSet` are atomic steps; a task's failure to join is modelled as a task that dies while running or at its tick.
- A script file that cannot be opened, and a panic of the reader task or of a preparation thread.
- The argument parser, validation rules, shell splitting and the wording of errors: arbitrary functions, or left out.
- The transfer engines, storage factories and SDK calls: one copy contract and one store.
- The captured version id is taken from the transfer contract: that of the version read, or none in a bucket without versioning.
- Local paths are Unix paths and `is_dir` an oracle; non-UTF-8 paths are left out.
- Checksum and MD5 arithmetic, and which checksum of a response is preferred, are given functions of the bytes.
- `urlencoding::decode` is not part of the repository; malformed triplets are kept as they are, as that library documents.
- Progress-bar drawing, tracing, elapsed time, summary formats, transfer indicators: display only.
- The `get-*`, `put-*`, `delete-*` and `head-*` wrappers, command routing and the pipe-safe printers: one branch each.
