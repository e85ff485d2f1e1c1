/** The sequential loops, over a prepared script and over a channel. */
module SequentialExecutor {
  import opened Basics
  import opened ExitCodes
  import opened Lines
  import opened Summaries

  /**
   * `n` lines are dispatched: no line before the n-th was preceded by an interrupt or by a
   * tripped threshold, and the run ends there for one of the three reasons there are.
   */
  ghost predicate NoStopBefore(codes: seq<ExitCode>, interrupted: iset<nat>, opts: ExecutorOptions, n: nat) {
    n <= |codes| && forall k: nat :: k < n ==> k !in interrupted && !ThresholdReached(codes[..k], opts)
  }

  ghost predicate StopsAt(codes: seq<ExitCode>, interrupted: iset<nat>, opts: ExecutorOptions, n: nat) {
    && NoStopBefore(codes, interrupted, opts, n)
    && (n == |codes| || n in interrupted || ThresholdReached(codes[..n], opts))
  }

  function FailWeight(code: ExitCode, opts: ExecutorOptions): nat {
    if IsStopWorthy(code, opts.continueOnWarning) then 1 else 0
  }

  /** The first position at or after `from` where a run that has `failCount` failures so far stops. */
  function StopPoint(codes: seq<ExitCode>, interrupted: iset<nat>, opts: ExecutorOptions,
                     from: nat, failCount: nat): (n: nat)
    requires from <= |codes|
    ensures from <= n <= |codes|
    decreases |codes| - from
  {
    if from == |codes| || from in interrupted || Tripped(failCount, opts) then from
    else StopPoint(codes, interrupted, opts, from + 1, failCount + FailWeight(codes[from], opts))
  }

  function Dispatched(codes: seq<ExitCode>, interrupted: iset<nat>, opts: ExecutorOptions): (n: nat)
    ensures n <= |codes|
  {
    StopPoint(codes, interrupted, opts, 0, 0)
  }

  /** `Dispatched` is the only count that meets the declarative description. */
  lemma DispatchedIsTheStop(codes: seq<ExitCode>, interrupted: iset<nat>, opts: ExecutorOptions)
    ensures StopsAt(codes, interrupted, opts, Dispatched(codes, interrupted, opts))
    ensures forall n: nat :: StopsAt(codes, interrupted, opts, n) ==> n == Dispatched(codes, interrupted, opts)
  {
    StopPointStops(codes, interrupted, opts, 0);
  }

  lemma {:induction false} StopPointStops(codes: seq<ExitCode>, interrupted: iset<nat>, opts: ExecutorOptions,
                                          from: nat)
    requires NoStopBefore(codes, interrupted, opts, from)
    ensures StopsAt(codes, interrupted, opts,
                    StopPoint(codes, interrupted, opts, from, StopWorthyCount(codes[..from], opts.continueOnWarning)))
    decreases |codes| - from
  {
    if from < |codes| && from !in interrupted && !ThresholdReached(codes[..from], opts) {
      PrefixSnoc(codes, from, opts.continueOnWarning);
      StopPointStops(codes, interrupted, opts, from + 1);
    }
  }

  /** What a loop has accumulated. */
  datatype Account = Account(worst: ExitCode, failCount: nat, counts: Counts)

  function Note(a: Account, code: ExitCode, opts: ExecutorOptions): Account {
    Account(WorseOf(a.worst, code), a.failCount + FailWeight(code, opts), Bump(a.counts, code))
  }

  function AccountOf(codes: seq<ExitCode>, k: nat, opts: ExecutorOptions): Account
    requires k <= |codes|
  {
    if k == 0 then Account(0, 0, NO_COUNTS) else Note(AccountOf(codes, k - 1, opts), codes[k - 1], opts)
  }

  lemma PrefixSnoc(codes: seq<ExitCode>, k: nat, cow: bool)
    requires k < |codes|
    ensures StopWorthyCount(codes[..k+1], cow)
            == StopWorthyCount(codes[..k], cow) + if IsStopWorthy(codes[k], cow) then 1 else 0
  {
    FoldPrefix(codes, k, cow);
    FoldPrefix(codes, k + 1, cow);
  }

  lemma {:induction false} AccountMeaning(codes: seq<ExitCode>, k: nat, opts: ExecutorOptions)
    requires k <= |codes|
    ensures AccountOf(codes, k, opts)
            == Account(WorstOf(codes[..k]), StopWorthyCount(codes[..k], opts.continueOnWarning), TallyOf(codes[..k]))
  {
    FoldPrefix(codes, k, opts.continueOnWarning);
    if k > 0 {
      AccountMeaning(codes, k - 1, opts);
      FoldPrefix(codes, k - 1, opts.continueOnWarning);
    }
  }

  /** Exit code and counters of a finished run. */
  datatype RunResult = RunResult(worst: ExitCode, counts: Counts)

  /** A run that dispatched the first `n` lines and left the others out. */
  function ResultOf(codes: seq<ExitCode>, n: nat, opts: ExecutorOptions): RunResult
    requires n <= |codes|
  {
    RunResult(AccountOf(codes, n, opts).worst, AddSkipped(AccountOf(codes, n, opts).counts, |codes| - n))
  }

  function SequentialResult(codes: seq<ExitCode>, interrupted: iset<nat>, opts: ExecutorOptions): RunResult {
    ResultOf(codes, Dispatched(codes, interrupted, opts), opts)
  }

  /** The account grows by one code, on a line that is neither interrupted nor past the threshold. */
  ghost predicate RunsOn(accounts: seq<Account>, k: nat,
                         codes: seq<ExitCode>, interrupted: iset<nat>, opts: ExecutorOptions)
    requires k + 1 < |accounts| && k < |codes|
  {
    && k !in interrupted && !Tripped(accounts[k].failCount, opts)
    && accounts[k + 1] == Note(accounts[k], codes[k], opts)
  }

  /** The accounts a run goes through, up to the one it stops with. */
  ghost predicate Course(accounts: seq<Account>, codes: seq<ExitCode>, interrupted: iset<nat>, opts: ExecutorOptions) {
    var n := |accounts| - 1;
    && 0 <= n == Dispatched(codes, interrupted, opts)
    && accounts[0] == Account(0, 0, NO_COUNTS) && accounts[n] == AccountOf(codes, n, opts)
    && (forall k :: 0 <= k < n ==> RunsOn(accounts, k, codes, interrupted, opts))
    && (n == |codes| || n in interrupted || Tripped(accounts[n].failCount, opts))
  }

  lemma CourseOf(codes: seq<ExitCode>, interrupted: iset<nat>, opts: ExecutorOptions) returns (accounts: seq<Account>)
    ensures Course(accounts, codes, interrupted, opts)
  {
    var n := Dispatched(codes, interrupted, opts);
    accounts := seq(n + 1, k requires 0 <= k <= n => AccountOf(codes, k, opts));
    StopPointStops(codes, interrupted, opts, 0);
    AccountMeaning(codes, n, opts);
    forall k | 0 <= k < n ensures RunsOn(accounts, k, codes, interrupted, opts) {
      AccountMeaning(codes, k, opts);
      assert !ThresholdReached(codes[..k], opts);
    }
  }

  ghost predicate Holds(a: Account, worst: ExitCode, failCount: nat, summary: Summary, progress: Progress)
    reads summary, progress
  {
    worst == a.worst && failCount == a.failCount && summary.Tally() == progress.Tally() == a.counts
  }

  /** What both loops do with a line's code; `stop` tells them to leave. */
  method RecordOutcome(code: ExitCode, opts: ExecutorOptions, worst: ExitCode, failCount: nat,
                       summary: Summary, progress: Progress, ghost a: Account)
    returns (worst': ExitCode, failCount': nat, stop: bool)
    requires Holds(a, worst, failCount, summary, progress) && !Tripped(failCount, opts)
    modifies summary, progress
    ensures Holds(Note(a, code, opts), worst', failCount', summary, progress)
    ensures stop <==> Tripped(failCount', opts)
    ensures progress.shown ==> progress.position == old(progress.position) + 1
  {
    progress.Tick(code);
    summary.Record(code);
    worst', failCount', stop := WorseOf(worst, code), failCount, false;
    if IsStopWorthy(code, opts.continueOnWarning) {
      failCount' := failCount + 1;
      if opts.errorThreshold.Some? && failCount' >= opts.errorThreshold.value {
        stop := true;
      }
    }
  }

  /** Read-all mode: the whole script is at hand. `interrupted` holds the positions at which the flag reads true. */
  method RunSequential(lines: seq<PreparedLine>, opts: ExecutorOptions, dispatch: Dispatch,
                          interrupted: iset<nat>, showBar: bool)
    returns (worst: ExitCode, summary: Summary, progress: Progress)
    ensures fresh(summary) && fresh(progress)
    ensures var codes := CodesOf(lines, dispatch);
            && RunResult(worst, summary.Tally()) == SequentialResult(codes, interrupted, opts)
            && progress.Tally() == AccountOf(codes, Dispatched(codes, interrupted, opts), opts).counts
            && (showBar ==> progress.position == Dispatched(codes, interrupted, opts))
    ensures progress.state == if summary.Tally().skipped > 0 then Abandoned else Finished
  {
    ghost var accounts := CourseOf(CodesOf(lines, dispatch), interrupted, opts);
    ghost var n := |accounts| - 1;
    progress := new Progress(showBar);
    summary := new Summary();
    worst := 0;
    var failCount := 0;
    var idx := 0;
    while idx < |lines|
      invariant idx <= n && fresh(summary) && fresh(progress)
      invariant Holds(accounts[idx], worst, failCount, summary, progress) && !Tripped(failCount, opts)
      invariant progress.shown == showBar && (showBar ==> progress.position == idx)
      decreases |lines| - idx
    {
      assert idx < n ==> RunsOn(accounts, idx, CodesOf(lines, dispatch), interrupted, opts);
      if idx in interrupted {
        summary.Skip(|lines| - idx);
        break;
      }
      var code := ExecuteLine(lines[idx], idx, dispatch);
      var stop;
      worst, failCount, stop := RecordOutcome(code, opts, worst, failCount, summary, progress, accounts[idx]);
      if stop {
        summary.Skip(|lines| - (idx + 1));
        assert idx + 1 < n ==> RunsOn(accounts, idx + 1, CodesOf(lines, dispatch), interrupted, opts);
        break;
      }
      idx := idx + 1;
    }
    progress.FinishOrAbandon(summary);
  }

  /** The receiving end of the reader's channel: what the reader delivers before closing it, and how much was taken. */
  class Receiver {
    const sent: seq<PreparedLine>
    var taken: nat

    ghost predicate Valid()
      reads this
    {
      taken <= |sent|
    }

    /** `line` is the one received after `received` others, if there is one. */
    ghost predicate Holding(line: Option<PreparedLine>, received: nat)
      reads this
    {
      if received < |sent| then line == Some(sent[received]) && taken == received + 1
      else line == None && taken == received == |sent|
    }

    constructor (sent: seq<PreparedLine>)
      ensures Valid() && this.sent == sent && taken == 0
    {
      this.sent, taken := sent, 0;
    }

    /** The next line, or nothing once the channel is closed and drained. */
    method Recv() returns (line: Option<PreparedLine>)
      requires Valid()
      modifies this
      ensures Valid()
      ensures if old(taken) == |sent| then line == None && taken == old(taken)
              else line == Some(sent[old(taken)]) && taken == old(taken) + 1
    {
      if taken == |sent| {
        line := None;
      } else {
        line := Some(sent[taken]);
        taken := taken + 1;
      }
    }
  }

  method DrainAsSkipped(rx: Receiver, summary: Summary)
    requires rx.Valid()
    modifies rx, summary
    ensures rx.Valid() && rx.taken == |rx.sent|
    ensures summary.Tally() == AddSkipped(old(summary.Tally()), |rx.sent| - old(rx.taken))
  {
    var line := rx.Recv();
    ghost var drained := 0;
    while line.Some?
      invariant rx.Valid()
      invariant rx.taken == old(rx.taken) + drained + if line.Some? then 1 else 0
      invariant line.None? ==> rx.taken == |rx.sent|
      invariant summary.Tally() == AddSkipped(old(summary.Tally()), drained)
      decreases |rx.sent| - rx.taken, if line.Some? then 1 else 0
    {
      summary.Skip(1);
      drained := drained + 1;
      line := rx.Recv();
    }
  }

  /** Streaming mode: same result as read-all mode on the lines the channel delivers, and the channel is drained. */
  method RunSequentialStreaming(rx: Receiver, opts: ExecutorOptions, dispatch: Dispatch, interrupted: iset<nat>)
    returns (worst: ExitCode, summary: Summary)
    requires rx.Valid() && rx.taken == 0
    modifies rx
    ensures fresh(summary) && rx.taken == |rx.sent|
    ensures RunResult(worst, summary.Tally()) == SequentialResult(CodesOf(rx.sent, dispatch), interrupted, opts)
  {
    ghost var codes := CodesOf(rx.sent, dispatch);
    ghost var accounts := CourseOf(codes, interrupted, opts);
    ghost var n := |accounts| - 1;
    var progress := new Progress(false);
    summary := new Summary();
    worst := 0;
    var failCount := 0;
    var received := 0;
    var line := rx.Recv();
    while line.Some?
      invariant received <= n && fresh(summary) && fresh(progress) && rx.Holding(line, received)
      invariant Holds(accounts[received], worst, failCount, summary, progress) && !Tripped(failCount, opts)
      decreases |codes| - received
    {
      assert received < n ==> RunsOn(accounts, received, codes, interrupted, opts);
      if received in interrupted {
        summary.Skip(1);
        DrainAsSkipped(rx, summary);
        break;
      }
      var code := ExecuteLine(line.value, received, dispatch);
      var stop;
      worst, failCount, stop := RecordOutcome(code, opts, worst, failCount, summary, progress, accounts[received]);
      if stop {
        DrainAsSkipped(rx, summary);
        assert received + 1 < n ==> RunsOn(accounts, received + 1, codes, interrupted, opts);
        break;
      }
      received := received + 1;
      line := rx.Recv();
    }
    progress.FinishOrAbandon(summary);
  }

  /** What a sequential run reports, and why it ended before the last line when it did. */
  lemma SequentialRunAccounts(codes: seq<ExitCode>, interrupted: iset<nat>, opts: ExecutorOptions, done: seq<ExitCode>)
    requires done == codes[..Dispatched(codes, interrupted, opts)]
    ensures SequentialResult(codes, interrupted, opts)
            == RunResult(WorstOf(done), AddSkipped(TallyOf(done), |codes| - |done|))
    ensures |done| < |codes| ==> |done| in interrupted || ThresholdReached(done, opts)
  {
    AccountMeaning(codes, Dispatched(codes, interrupted, opts), opts);
    StopPointStops(codes, interrupted, opts, 0);
  }

  /** A sequential run never executes more stop-worthy lines than its threshold. */
  lemma NeverPastThreshold(codes: seq<ExitCode>, interrupted: iset<nat>, opts: ExecutorOptions)
    requires opts.errorThreshold.Some?
    ensures StopWorthyCount(codes[..Dispatched(codes, interrupted, opts)], opts.continueOnWarning)
            <= StopAfter(opts.errorThreshold.value)
  {
    StopPointStops(codes, interrupted, opts, 0);
    var n := Dispatched(codes, interrupted, opts);
    if n > 0 {
      PrefixSnoc(codes, n - 1, opts.continueOnWarning);
      assert !ThresholdReached(codes[..n-1], opts);
    }
  }

  /** A line that never gets to return a code of its own. */
  predicate FailsToRun(line: PreparedLine, at: nat, dispatch: Dispatch) {
    line.kind.Invalid? || dispatch(at, line.kind.cmd).Panicked?
  }

  /**
   * An invalid line or a panicking command within a run shows: the exit code is not 0, a failure is
   * counted whatever the options, and by default the run goes no further.
   */
  lemma FailureShows(lines: seq<PreparedLine>, dispatch: Dispatch, interrupted: iset<nat>, opts: ExecutorOptions,
                     i: nat)
    requires i < Dispatched(CodesOf(lines, dispatch), interrupted, opts) && FailsToRun(lines[i], i, dispatch)
    ensures var codes := CodesOf(lines, dispatch);
            && SequentialResult(codes, interrupted, opts).worst != 0
            && SequentialResult(codes, interrupted, opts).counts.failed > 0
            && (opts.errorThreshold == ErrorThreshold(false, None) ==> Dispatched(codes, interrupted, opts) == i + 1)
  {
    var codes := CodesOf(lines, dispatch);
    var n := Dispatched(codes, interrupted, opts);
    var done := codes[..n];
    SequentialRunAccounts(codes, interrupted, opts, done);
    assert done[i] == codes[i] && codes[i] in done;
    ExitZeroIffAllZero(done);
    OneStopWorthy(done, n, i, true);
    StopWorthyByTally(done, n, true);
    if opts.errorThreshold.Some? && i + 1 < n {
      StopPointStops(codes, interrupted, opts, 0);
      OneStopWorthy(codes[..i+1], i + 1, i, opts.continueOnWarning);
      assert !ThresholdReached(codes[..i+1], opts);
    }
  }

  /** Uninterrupted and without a threshold a run dispatches the whole script, whatever the other options. */
  lemma NoThresholdRunsAll(codes: seq<ExitCode>, opts: ExecutorOptions)
    requires opts.errorThreshold.None?
    ensures Dispatched(codes, iset{}, opts) == |codes|
    ensures SequentialResult(codes, iset{}, opts) == RunResult(WorstOf(codes), TallyOf(codes))
  {
    DispatchedIsTheStop(codes, iset{}, opts);
    AccountMeaning(codes, |codes|, opts);
    assert codes[..|codes|] == codes;
  }

  /** An uninterrupted run that exits 0 ran every line, all of them cleanly. */
  lemma SuccessMeansClean(codes: seq<ExitCode>, opts: ExecutorOptions)
    requires SequentialResult(codes, iset{}, opts).worst == 0
    ensures forall code :: code in codes ==> code == 0
  {
    var n := Dispatched(codes, iset{}, opts);
    var ran := codes[..n];
    AccountMeaning(codes, n, opts);
    DispatchedIsTheStop(codes, iset{}, opts);
    ExitZeroIffAllZero(ran);
    CleanNeverTrips(ran, |ran|, opts.continueOnWarning);
    assert codes[..|codes|] == codes;
  }

  lemma {:induction false} CleanNeverTrips(codes: seq<ExitCode>, k: nat, cow: bool)
    requires k <= |codes| && forall code :: code in codes ==> code == 0
    ensures StopWorthyTo(codes, k, cow) == 0
  {
    if k > 0 {
      CleanNeverTrips(codes, k - 1, cow);
      assert codes[k - 1] in codes;
    }
  }

  /** Every line is a command that ran and returned 0. */
  predicate AllReturnZero(lines: seq<PreparedLine>, dispatch: Dispatch) {
    forall i :: 0 <= i < |lines| ==> lines[i].kind.Cmd? && dispatch(i, lines[i].kind.cmd) == DispatchOutcome.Returned(0)
  }

  /** Whatever the options, an uninterrupted run exits 0 exactly when every line ran and returned 0. */
  lemma ExitZeroIffAllReturnZero(lines: seq<PreparedLine>, dispatch: Dispatch, opts: ExecutorOptions)
    ensures SequentialResult(CodesOf(lines, dispatch), iset{}, opts).worst == 0 <==> AllReturnZero(lines, dispatch)
  {
    var codes := CodesOf(lines, dispatch);
    assert forall i :: 0 <= i < |lines| ==> Yields(lines[i], i, dispatch, codes[i]);
    if SequentialResult(codes, iset{}, opts).worst == 0 {
      SuccessMeansClean(codes, opts);
      assert forall i :: 0 <= i < |codes| ==> codes[i] in codes;
    }
    if AllReturnZero(lines, dispatch) {
      var done := codes[..Dispatched(codes, iset{}, opts)];
      SequentialRunAccounts(codes, iset{}, opts, done);
      assert forall code :: code in done ==> code in codes;
      ExitZeroIffAllZero(done);
    }
  }

  /** Commands that return are reported by the codes they return. */
  lemma ReturnedCodesAreReported(lines: seq<PreparedLine>, dispatch: Dispatch, codes: seq<ExitCode>,
                                 interrupted: iset<nat>, opts: ExecutorOptions)
    requires |codes| == |lines|
    requires forall i :: 0 <= i < |lines| ==> Yields(lines[i], i, dispatch, codes[i])
    ensures SequentialResult(CodesOf(lines, dispatch), interrupted, opts) == SequentialResult(codes, interrupted, opts)
  {
    assert forall i :: 0 <= i < |lines| ==> Yields(lines[i], i, dispatch, CodesOf(lines, dispatch)[i]);
    assert CodesOf(lines, dispatch) == codes;
  }

  /** `--max-errors n` lets a run count as many failures, warnings among them unless they are let pass, and no more. */
  lemma ThresholdCounts(codes: seq<ExitCode>, opts: ExecutorOptions, done: seq<ExitCode>)
    requires done == codes[..Dispatched(codes, iset{}, opts)] && opts.errorThreshold.Some?
    ensures StopWorthyIn(TallyOf(done), opts.continueOnWarning) <= StopAfter(opts.errorThreshold.value)
    ensures |done| < |codes| ==>
              StopWorthyIn(TallyOf(done), opts.continueOnWarning) == StopAfter(opts.errorThreshold.value)
  {
    NeverPastThreshold(codes, iset{}, opts);
    SequentialRunAccounts(codes, iset{}, opts, done);
    StopWorthyByTally(done, |done|, opts.continueOnWarning);
  }
}
