/** Script lines as the executors receive them, and what running one of them yields. */
module Lines {
  import opened Basics
  import opened ExitCodes

  datatype InvalidKind = Tokenize | Parse | Empty | Validate

  /** A parsed subcommand with its arguments; what it does is the dispatcher's business. */
  datatype Command = Command(name: string, args: seq<string>)

  datatype PreparedLineKind = Cmd(cmd: Command) | Invalid(kind: InvalidKind, reason: string)

  datatype PreparedLine = PreparedLine(lineNo: nat, raw: string, kind: PreparedLineKind)

  const EXIT_CODE_INVALID_LINE: ExitCode := 2
  const EXIT_CODE_PANIC: ExitCode := 101

  /** A dispatched command returns an exit code or panics; the panic is caught at the line. */
  datatype DispatchOutcome = Returned(code: ExitCode) | Panicked

  /** Outcome of dispatching a command at a given position of the script. */
  type Dispatch = (nat, Command) -> DispatchOutcome

  /** What running a line may yield: 2 for an invalid one, 101 for a panic, else the code returned. */
  predicate Yields(line: PreparedLine, at: nat, dispatch: Dispatch, code: ExitCode) {
    || (line.kind.Invalid? && code == 2)
    || (line.kind.Cmd? && dispatch(at, line.kind.cmd) == Panicked && code == 101)
    || (line.kind.Cmd? && dispatch(at, line.kind.cmd) == Returned(code))
  }

  function ExecuteLine(line: PreparedLine, at: nat, dispatch: Dispatch): (code: ExitCode)
    ensures Yields(line, at, dispatch, code)
  {
    match line.kind
    case Invalid(_, _) => EXIT_CODE_INVALID_LINE
    case Cmd(cmd) =>
      match dispatch(at, cmd) {
        case Returned(code) => code
        case Panicked => EXIT_CODE_PANIC
      }
  }

  function CodesOf(lines: seq<PreparedLine>, dispatch: Dispatch): (codes: seq<ExitCode>)
    ensures |codes| == |lines|
    ensures forall i :: 0 <= i < |lines| ==> codes[i] == ExecuteLine(lines[i], i, dispatch)
  {
    seq(|lines|, i requires 0 <= i < |lines| => ExecuteLine(lines[i], i, dispatch))
  }

  datatype ExecutorOptions = ExecutorOptions(
    workers: nat,
    errorThreshold: Option<nat>,
    continueOnWarning: bool)

  /** `--parallel 0` means one worker per processor, at least one. */
  function ResolveWorkers(parallel: nat, availableParallelism: Option<nat>): nat {
    if parallel == 0 then
      match availableParallelism { case Some(n) => n case None => 1 }
    else parallel
  }

  /** No flag stops at the first failure, `--max-errors` at the N-th, `--continue-on-error` never. */
  function ErrorThreshold(continueOnError: bool, maxErrors: Option<nat>): Option<nat> {
    if continueOnError then None
    else Some(match maxErrors { case Some(n) => n case None => 1 })
  }

  datatype BatchRunArgs = BatchRunArgs(
    parallel: nat,
    continueOnError: bool,
    maxErrors: Option<nat>,
    continueOnWarning: bool)

  function OptionsFrom(args: BatchRunArgs, availableParallelism: Option<nat>): ExecutorOptions {
    ExecutorOptions(
      ResolveWorkers(args.parallel, availableParallelism),
      ErrorThreshold(args.continueOnError, args.maxErrors),
      args.continueOnWarning)
  }

  /** The number of stop-worthy codes that stops a run: the threshold is only tested after one of them. */
  function StopAfter(threshold: nat): nat { Max(1, threshold) }

  /** Whether `failCount` stop-worthy codes trip the threshold. */
  predicate Tripped(failCount: nat, opts: ExecutorOptions) {
    opts.errorThreshold.Some? && failCount >= StopAfter(opts.errorThreshold.value)
  }

  predicate ThresholdReached(codes: seq<ExitCode>, opts: ExecutorOptions) {
    Tripped(StopWorthyCount(codes, opts.continueOnWarning), opts)
  }
}
