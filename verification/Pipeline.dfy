/** Script, executors and exit code together: the modes of `batch-run` run the same lines. */
module Pipeline {
  import opened Basics
  import opened ExitCodes
  import opened Lines
  import opened LineReader
  import opened ScriptConsumers
  import opened ChunkedPrepare
  import opened SequentialExecutor
  import opened WorkerPool
  import Par = ParallelExecutor
  import Str = StreamingExecutor

  /** The streaming reader's view of the first `k` physical lines. */
  function EntriesTo(lines: seq<string>, k: nat, tools: Tools, dispatch: Dispatch): seq<Str.Entry>
    requires k <= |lines|
  {
    if k == 0 then []
    else
      var before := EntriesTo(lines, k - 1, tools, dispatch);
      var line := ParseLine(k, lines[k - 1], tools);
      var at := |ParsedTo(lines, k - 1, tools)|;
      before + [if line == [] then Str.Blank else Str.Prepared(ExecuteLine(TryPrepare(line[0], tools), at, dispatch))]
  }

  lemma {:induction false} EntriesCount(lines: seq<string>, k: nat, tools: Tools, dispatch: Dispatch)
    requires k <= |lines|
    ensures |EntriesTo(lines, k, tools, dispatch)| == k
  {
    if k > 0 { EntriesCount(lines, k - 1, tools, dispatch); }
  }

  lemma {:induction false} LineCodesAgree(a: seq<Str.Entry>, b: seq<Str.Entry>, n: nat)
    requires n <= |a| && n <= |b| && forall i :: 0 <= i < n ==> a[i] == b[i]
    ensures Str.LineCodes(a, n) == Str.LineCodes(b, n)
  {
    if n > 0 { LineCodesAgree(a, b, n - 1); }
  }

  /** What read-all mode hands to its executor. */
  function ReadAllCodes(lines: seq<string>, k: nat, tools: Tools, dispatch: Dispatch): seq<ExitCode>
    requires k <= |lines|
  {
    CodesOf(PrepareAll(ParsedTo(lines, k, tools), tools), dispatch)
  }

  lemma CodesSnoc(before: seq<ParsedLine>, last: ParsedLine, tools: Tools, dispatch: Dispatch)
    ensures CodesOf(PrepareAll(before + [last], tools), dispatch)
            == CodesOf(PrepareAll(before, tools), dispatch) + [ExecuteLine(TryPrepare(last, tools), |before|, dispatch)]
  {
  }

  /** Line for line, streaming mode runs what read-all mode runs. */
  lemma {:induction false} SameLines(lines: seq<string>, k: nat, tools: Tools, dispatch: Dispatch)
    requires k <= |lines|
    ensures |EntriesTo(lines, k, tools, dispatch)| == k
    ensures Str.LineCodes(EntriesTo(lines, k, tools, dispatch), k) == ReadAllCodes(lines, k, tools, dispatch)
  {
    EntriesCount(lines, k, tools, dispatch);
    if k > 0 {
      SameLines(lines, k - 1, tools, dispatch);
      LineCodesAgree(EntriesTo(lines, k, tools, dispatch), EntriesTo(lines, k - 1, tools, dispatch), k - 1);
      var before, last := ParsedTo(lines, k - 1, tools), ParseLine(k, lines[k - 1], tools);
      if last != [] {
        assert last == [last[0]];
        CodesSnoc(before, last[0], tools, dispatch);
      } else {
        assert before + last == before;
      }
    }
  }

  /**
   * End to end: whatever the modes' schedules and workers, uninterrupted runs of one readable script
   * under `--continue-on-error` report the same counters and the same severity.
   */
  lemma ModesAgree(lines: seq<string>, tools: Tools, dispatch: Dispatch, args: BatchRunArgs, args': BatchRunArgs,
                   available: Option<nat>, p: Par.State, s: Str.State)
    requires args.continueOnError && args'.continueOnError
    requires var c := Par.Config(ReadAllCodes(lines, |lines|, tools, dispatch), OptionsFrom(args, available));
             Par.Reachable(p, c) && p.pc.Done? && !p.interrupt && NoneDied(p.pool)
    requires var c := Str.Config(EntriesTo(lines, |lines|, tools, dispatch), Str.Eof, OptionsFrom(args', available));
             Str.Reachable(s, c) && s.pc.Done? && !s.interrupt && NoneDied(s.pool)
    ensures p.pool.summary == s.pool.summary
    ensures SeverityRank(p.pool.worst) == SeverityRank(s.pool.worst)
    ensures SeverityRank(p.pool.worst) != 1 ==> p.pool.worst == s.pool.worst
  {
    SameLines(lines, |lines|, tools, dispatch);
    var codes := ReadAllCodes(lines, |lines|, tools, dispatch);
    var opts, opts' := OptionsFrom(args, available), OptionsFrom(args', available);
    Par.NoThresholdSameReport(p, Par.Config(codes, opts));
    Str.NoThresholdSameReport(s, Str.Config(EntriesTo(lines, |lines|, tools, dispatch), Str.Eof, opts'));
    NoThresholdRunsAll(codes, opts);
    NoThresholdRunsAll(codes, opts');
  }

  /** Whatever `--parallel` says, an unfinished read-all run can move: there is a worker on every machine. */
  lemma BatchNeverStuck(codes: seq<ExitCode>, args: BatchRunArgs, available: Option<nat>, p: Par.State)
    returns (a: Par.Action)
    requires available.Some? ==> available.value > 0
    requires Par.Reachable(p, Par.Config(codes, OptionsFrom(args, available))) && !p.pc.Done?
    ensures Par.Enabled(p, a) && !a.Sigint?
  {
    a := Par.NeverStuck(p, Par.Config(codes, OptionsFrom(args, available)));
  }

  /** ... and so can a streaming run, by itself or its reader. */
  lemma StreamNeverStuck(c: Str.Config, args: BatchRunArgs, available: Option<nat>, s: Str.State)
    returns (a: Str.Action)
    requires available.Some? ==> available.value > 0
    requires c.opts == OptionsFrom(args, available) && Str.Reachable(s, c) && !s.pc.Done?
    ensures Str.Enabled(s, a) && !a.Sigint? && !a.ReaderCtrlC?
  {
    a := Str.NeverStuck(s, c);
  }

  /** A parallel batch exits 0 exactly when every line of the script is a command that returned 0. */
  lemma BatchSucceedsIff(lines: seq<PreparedLine>, dispatch: Dispatch, opts: ExecutorOptions, p: Par.State)
    requires Par.Reachable(p, Par.Config(CodesOf(lines, dispatch), opts)) && p.pc.Done? && !p.interrupt
    ensures p.pool.worst == 0 <==> AllReturnZero(lines, dispatch) && NoneDied(p.pool)
  {
    var c := Par.Config(CodesOf(lines, dispatch), opts);
    ExitZeroIffAllReturnZero(lines, dispatch, opts);
    if NoneDied(p.pool) { Par.SameSuccess(p, c); } else { Par.DeadTaskExitsOne(p, c); }
  }

  /** ... and so does a streaming one. */
  lemma StreamSucceedsIff(lines: seq<string>, tools: Tools, dispatch: Dispatch, opts: ExecutorOptions, s: Str.State)
    requires var c := Str.Config(EntriesTo(lines, |lines|, tools, dispatch), Str.Eof, opts);
             Str.Reachable(s, c) && s.pc.Done? && !s.interrupt
    ensures s.pool.worst == 0
            <==> AllReturnZero(PrepareAll(ParsedLines(lines, tools), tools), dispatch) && NoneDied(s.pool)
  {
    var c := Str.Config(EntriesTo(lines, |lines|, tools, dispatch), Str.Eof, opts);
    SameLines(lines, |lines|, tools, dispatch);
    ExitZeroIffAllReturnZero(PrepareAll(ParsedLines(lines, tools), tools), dispatch, opts);
    if NoneDied(s.pool) { Str.SameSuccess(s, c); } else { Str.DeadTaskExitsOne(s, c); }
  }

  // ---- What the flags of the command mean ----

  /** `--parallel n` keeps at most `n` commands running, `n` being the number of processors when it is 0. */
  lemma ParallelMeans(codes: seq<ExitCode>, args: BatchRunArgs, available: Option<nat>, p: Par.State)
    requires Par.Reachable(p, Par.Config(codes, OptionsFrom(args, available)))
    ensures args.parallel > 0 ==>
              CountAll(p.pool.tasks, Holding, OptionsFrom(args, available)) <= args.parallel
              == OptionsFrom(args, available).workers
    ensures args.parallel == 0 && available.Some? ==> OptionsFrom(args, available).workers == available.value
    ensures args.parallel == 0 && available.None? ==> OptionsFrom(args, available).workers == 1
  {
    Par.ReachableBounds(p, Par.Config(codes, OptionsFrom(args, available)));
  }

  /** The failures at which a sequential run stops: the first by default, the n-th with `--max-errors n`. */
  function StopsAtFailure(args: BatchRunArgs): nat {
    match args.maxErrors
    case None => 1
    case Some(n) => if n == 0 then 1 else n
  }

  /**
   * `--continue-on-error` runs everything; otherwise a run that leaves lines out has counted just as
   * many failures as allowed, warnings among them unless `--continue-on-warning` lets them pass.
   */
  lemma ErrorFlagsMean(codes: seq<ExitCode>, args: BatchRunArgs, available: Option<nat>, done: seq<ExitCode>)
    requires done == codes[..Dispatched(codes, iset{}, OptionsFrom(args, available))]
    ensures args.continueOnError ==> done == codes
    ensures var t := TallyOf(done);
            var failures := t.failed + if args.continueOnWarning then 0 else t.warning;
            && (!args.continueOnError ==> failures <= StopsAtFailure(args))
            && (!args.continueOnError && |done| < |codes| ==> failures == StopsAtFailure(args))
  {
    var opts := OptionsFrom(args, available);
    if args.continueOnError {
      NoThresholdRunsAll(codes, opts);
      assert codes[..|codes|] == codes;
    } else {
      ThresholdCounts(codes, opts, done);
    }
  }

  // ---- The two commands with one worker ----

  /** Every line of a readable script, prepared. */
  function PreparedScript(script: Script, tools: Tools): seq<PreparedLine> {
    PrepareAll(ParsedLines(script.lines, tools), tools)
  }

  /** Read-all mode: a script that cannot be read to its end exits 1 with nothing run. */
  method RunReadAll(reader: BufReader, tools: Tools, opts: ExecutorOptions, dispatch: Dispatch,
                    interrupted: iset<nat>, availableParallelism: Option<nat>, showBar: bool)
    returns (code: ExitCode, report: Option<Counts>)
    requires reader.Valid() && reader.pos == 0
    modifies reader`pos, reader`filled
    ensures var script := ScriptFrom(reader.source, 0, reader.end);
            var r := SequentialResult(CodesOf(PreparedScript(script, tools), dispatch), interrupted, opts);
            && (if script.error.Some? then code == 1 && report == None else code == r.worst && report == Some(r.counts))
            && (interrupted == iset{} ==>
                  (code == 0 <==> script.error.None? && AllReturnZero(PreparedScript(script, tools), dispatch)))
  {
    var parsed := ReadAll(reader, tools);
    if parsed.Err? {
      return 1, None;
    }
    var prepared := ParseAndValidate(parsed.value, availableParallelism, tools);
    var worst, summary, _ := RunSequential(prepared, opts, dispatch, interrupted, showBar);
    ExitZeroIffAllReturnZero(prepared, dispatch, opts);
    return worst, Some(summary.Tally());
  }

  /**
   * Streaming mode: the reader never waits for the executor, so its whole output can be taken
   * first. A script that cannot be read to its end has the lines before the error run, and never
   * exits 0; read to its end without a signal it reports what read-all mode reports.
   */
  method RunStreaming(reader: BufReader, tools: Tools, opts: ExecutorOptions, dispatch: Dispatch,
                      interrupted: iset<nat>, ctrlC: iset<nat>)
    returns (code: ExitCode, report: Counts, ghost sent: seq<PreparedLine>)
    requires reader.Valid() && reader.pos == 0
    modifies reader`pos, reader`filled
    ensures var script := ScriptFrom(reader.source, 0, reader.end);
            var reading := ReadingOf(script, ctrlC, None, tools);
            var r := SequentialResult(CodesOf(sent, dispatch), interrupted, opts);
            && sent == reading.sent <= PreparedScript(script, tools)
            && (ctrlC == iset{} ==>
                  sent == PreparedScript(script, tools) && (reading.result.Err? <==> script.error.Some?))
            && report == r.counts
            && code == (if reading.result.Err? && r.worst < 1 then 1 else r.worst)
            && (interrupted == iset{} ==> (code == 0 <==> reading.result.Ok? && AllReturnZero(sent, dispatch)))
  {
    ghost var script := ScriptFrom(reader.source, 0, reader.end);
    SentIsPrefix(script, ctrlC, None, tools);
    UninterruptedReading(script, tools);
    var tx := new Sender(None);
    var read, _ := StreamingReader(reader, tx, ctrlC, tools);
    sent := tx.sent;
    var rx := new Receiver(tx.sent);
    var worst, summary := RunSequentialStreaming(rx, opts, dispatch, interrupted);
    ExitZeroIffAllReturnZero(sent, dispatch, opts);
    return if read.Err? && worst < 1 then 1 else worst, summary.Tally(), sent;
  }
}
