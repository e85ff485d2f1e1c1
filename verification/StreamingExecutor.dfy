/**
 * Streaming mode with several workers: the script reader, the channel, the spawn loop, the tasks
 * and the SIGINT handler as one step system.
 */
module StreamingExecutor {
  import opened Basics
  import opened ExitCodes
  import opened Lines
  import opened WorkerPool
  import Seq = SequentialExecutor

  /** What the reader meets: a blank or comment, or a line that will yield `code` when run. */
  datatype Entry = Blank | Prepared(code: ExitCode)

  /** How reading ends when nothing interrupts it. */
  datatype Ending = Eof | ReadError

  datatype Config = Config(script: seq<Entry>, ending: Ending, opts: ExecutorOptions)

  /** A line in the channel; `id` is its position among the lines sent. */
  datatype Sent = Sent(id: nat, code: ExitCode)

  datatype ReaderState = Reading | AtEof | Failed | CtrlC | ReceiverDropped

  datatype Point =
    | AtInterruptCheck
    | AtFailCheck
    | AtRecv
    | AtAcquire(line: Sent)
    | AtRecheck(line: Sent)
    | AtSpawn(line: Sent)
    | Draining
    | Joining
    | Done

  /** `dropped` lists the lines counted skipped without being run. */
  datatype State = State(
    pc: Point,
    reader: ReaderState,
    read: nat,
    sent: nat,
    queue: seq<Sent>,
    dropped: seq<nat>,
    interrupt: bool,
    pool: Pool)

  datatype Action = SpawnerStep | TaskStep(work: WorkAction) | ReaderStep | ReaderCtrlC | Sigint

  function Init(c: Config): State {
    State(AtInterruptCheck, Reading, 0, 0, [], [], false, NewPool(c.opts.workers))
  }

  predicate Enabled(s: State, a: Action) {
    match a
    case SpawnerStep =>
      && !s.pc.Done?
      && (s.pc.AtRecv? || s.pc.Draining? ==> s.queue != [] || !s.reader.Reading?)
      && (s.pc.AtAcquire? ==> s.pool.permits > 0)
      && (s.pc.Joining? ==> AllJoined(s.pool))
    case TaskStep(w) => CanWork(s.pool, w) && (w.Join? ==> s.pc.Joining?)
    case ReaderStep => s.reader.Reading?
    case ReaderCtrlC => s.reader.Reading?
    case Sigint => true
  }

  /** A line in hand or in the channel is counted skipped. */
  function Drop(s: State, line: Sent): State {
    s.(dropped := s.dropped + [line.id], pool := s.pool.(summary := AddSkipped(s.pool.summary, 1)))
  }

  function SpawnerNext(s: State): State
    requires Enabled(s, SpawnerStep)
  {
    match s.pc
    case AtInterruptCheck => s.(pc := if s.interrupt then Draining else AtFailCheck)
    case AtFailCheck => s.(pc := if s.pool.failCancel then Draining else AtRecv)
    case AtRecv =>
      if s.queue == [] then s.(pc := Draining) else s.(pc := AtAcquire(s.queue[0]), queue := s.queue[1..])
    case AtAcquire(line) => s.(pc := AtRecheck(line), pool := s.pool.(permits := s.pool.permits - 1))
    case AtRecheck(line) =>
      if s.interrupt
      then Drop(s.(pc := Draining, pool := s.pool.(permits := s.pool.permits + 1)), line)
      else s.(pc := AtSpawn(line))
    case AtSpawn(line) => s.(pc := AtInterruptCheck, pool := Spawn(s.pool, line.id, line.code))
    case Draining =>
      if s.queue == [] then s.(pc := Joining) else Drop(s, s.queue[0]).(queue := s.queue[1..])
    case Joining => s.(pc := Done)
    case Done => s
  }

  /** One turn of the reader: end of script, a skipped line, or a line sent to a receiver that exists until `Done`. */
  function ReaderNext(s: State, c: Config): State
    requires s.reader.Reading?
  {
    if s.read >= |c.script| then s.(reader := if c.ending.Eof? then AtEof else Failed)
    else
      match c.script[s.read]
      case Blank => s.(read := s.read + 1)
      case Prepared(code) =>
        if s.pc.Done? then s.(reader := ReceiverDropped)
        else s.(read := s.read + 1, sent := s.sent + 1, queue := s.queue + [Sent(s.sent, code)])
  }

  function Step(s: State, a: Action, c: Config): State
    requires Enabled(s, a)
  {
    match a
    case SpawnerStep => SpawnerNext(s)
    case TaskStep(w) => s.(pool := Work(s.pool, w, c.opts))
    case ReaderStep => ReaderNext(s, c)
    case ReaderCtrlC => s.(interrupt := true, reader := CtrlC)
    case Sigint => s.(interrupt := true)
  }

  function Exec(s: State, schedule: seq<Action>, c: Config): Option<State>
    decreases |schedule|
  {
    if schedule == [] then Some(s)
    else if Enabled(s, schedule[0]) then Exec(Step(s, schedule[0], c), schedule[1..], c)
    else None
  }

  ghost predicate Reachable(s: State, c: Config) {
    exists schedule :: Exec(Init(c), schedule, c) == Some(s)
  }

  // ---- The lines a script holds ----

  /** Outcomes of the lines among the first `n` entries. */
  function LineCodes(script: seq<Entry>, n: nat): seq<ExitCode>
    requires n <= |script|
  {
    if n == 0 then []
    else
      match script[n - 1]
      case Blank => LineCodes(script, n - 1)
      case Prepared(code) => LineCodes(script, n - 1) + [code]
  }

  function AllCodes(c: Config): seq<ExitCode> { LineCodes(c.script, |c.script|) }

  lemma {:induction false} LinesGrow(script: seq<Entry>, m: nat, n: nat)
    requires m <= n <= |script|
    ensures LineCodes(script, m) <= LineCodes(script, n)
  {
    if m < n { LinesGrow(script, m, n - 1); }
  }

  // ---- What every reachable state satisfies ----

  function Held(pc: Point): nat { if pc.AtRecheck? || pc.AtSpawn? then 1 else 0 }

  predicate LineInHand(pc: Point) { pc.AtAcquire? || pc.AtRecheck? || pc.AtSpawn? }

  function InHand(pc: Point): nat { if LineInHand(pc) then 1 else 0 }

  predicate LoopLeft(pc: Point) { pc.Draining? || pc.Joining? || pc.Done? }

  /** The channel holds the last lines sent, in order. */
  predicate QueueInOrder(s: State, c: Config) {
    && |s.queue| <= s.sent <= |AllCodes(c)|
    && forall k :: 0 <= k < |s.queue| ==>
         s.queue[k].id == s.sent - |s.queue| + k && s.queue[k].code == AllCodes(c)[s.queue[k].id]
  }

  /** Lines sent = lines spawned, then the line in hand, then the lines dropped, then the channel. */
  predicate Conserved(s: State, c: Config) {
    && |s.pool.tasks| + InHand(s.pc) + |s.dropped| + |s.queue| == s.sent <= |AllCodes(c)|
    && (LineInHand(s.pc) ==> s.dropped == [] && s.pc.line.id == |s.pool.tasks|
                             && s.pc.line.code == AllCodes(c)[|s.pool.tasks|])
    && (!LoopLeft(s.pc) ==> s.dropped == [])
    && forall k :: 0 <= k < |s.dropped| ==> s.dropped[k] == |s.pool.tasks| + k
  }

  predicate ReaderSound(s: State, c: Config) {
    && s.read <= |c.script| && s.sent == |LineCodes(c.script, s.read)|
    && !s.reader.ReceiverDropped?
    && (s.reader.AtEof? || s.reader.Failed? ==>
          s.read == |c.script| && (s.reader.AtEof? <==> c.ending.Eof?))
    && (s.reader.CtrlC? ==> s.interrupt)
    && (s.pc.Joining? || s.pc.Done? ==> !s.reader.Reading? && s.queue == [])
  }

  predicate EndsForAReason(s: State) {
    && (LoopLeft(s.pc) ==> s.interrupt || s.pool.failCancel || (!s.reader.Reading? && s.dropped == [] && s.queue == []))
    && (s.pc.Done? ==> AllJoined(s.pool))
  }

  predicate PastFailCheck(pc: Point) { pc.AtRecv? || LineInHand(pc) }

  predicate Overshoot(s: State, c: Config) {
    c.opts.errorThreshold.Some? && s.pool.failCancel ==>
      CountAll(s.pool.tasks, StopWorthyRun, c.opts) + (if PastFailCheck(s.pc) then 1 else 0)
      <= Limit(c.opts) + c.opts.workers
  }

  predicate Sound(s: State, c: Config) {
    && PoolSound(s.pool, AllCodes(c), Held(s.pc), |s.dropped|, c.opts)
    && QueueInOrder(s, c) && Conserved(s, c) && ReaderSound(s, c) && EndsForAReason(s) && Overshoot(s, c)
  }

  lemma InitSound(c: Config)
    ensures Sound(Init(c), c)
  {
  }

  lemma SpawnKeepsSound(s: State, c: Config)
    requires s.pc.AtSpawn? && Sound(s, c)
    ensures Sound(SpawnerNext(s), c)
  {
    SpawnKeeps(s.pool, AllCodes(c), 0, c.opts);
    CountSnoc(s.pool.tasks, Task(s.pc.line.id, s.pc.line.code, Running), StopWorthyRun, c.opts);
  }

  lemma ChecksKeepSound(s: State, c: Config)
    requires (s.pc.AtInterruptCheck? || s.pc.AtFailCheck?) && Sound(s, c)
    ensures Sound(SpawnerNext(s), c)
  {
    assert SpawnerNext(s).pool == s.pool;
  }

  lemma RecvKeepsSound(s: State, c: Config)
    requires s.pc.AtRecv? && Enabled(s, SpawnerStep) && Sound(s, c)
    ensures Sound(SpawnerNext(s), c)
  {
    assert SpawnerNext(s).pool == s.pool;
  }

  lemma AcquireKeepsSound(s: State, c: Config)
    requires s.pc.AtAcquire? && s.pool.permits > 0 && Sound(s, c)
    ensures Sound(SpawnerNext(s), c)
  {
    PermitMoves(s.pool, AllCodes(c), 0, 1, c.opts);
  }

  lemma RecheckKeepsSound(s: State, c: Config)
    requires s.pc.AtRecheck? && Sound(s, c)
    ensures Sound(SpawnerNext(s), c)
  {
    if s.interrupt {
      PermitMoves(s.pool, AllCodes(c), 1, 0, c.opts);
      SkipKeeps(s.pool.(permits := s.pool.permits + 1), AllCodes(c), 0, 0, 1, c.opts);
    }
  }

  lemma DrainKeepsSound(s: State, c: Config)
    requires s.pc.Draining? && Enabled(s, SpawnerStep) && Sound(s, c)
    ensures Sound(SpawnerNext(s), c)
  {
    if s.queue != [] {
      SkipKeeps(s.pool, AllCodes(c), 0, |s.dropped|, 1, c.opts);
    }
  }

  lemma FinishKeepsSound(s: State, c: Config)
    requires s.pc.Joining? && AllJoined(s.pool) && Sound(s, c)
    ensures Sound(SpawnerNext(s), c)
  {
    assert SpawnerNext(s).pool == s.pool;
  }

  lemma SpawnerKeeps(s: State, c: Config)
    requires Enabled(s, SpawnerStep) && Sound(s, c)
    ensures Sound(SpawnerNext(s), c)
  {
    match s.pc
    case AtInterruptCheck => ChecksKeepSound(s, c);
    case AtFailCheck => ChecksKeepSound(s, c);
    case AtRecv => RecvKeepsSound(s, c);
    case AtAcquire(_) => AcquireKeepsSound(s, c);
    case AtRecheck(_) => RecheckKeepsSound(s, c);
    case AtSpawn(_) => SpawnKeepsSound(s, c);
    case Draining => DrainKeepsSound(s, c);
    case Joining => FinishKeepsSound(s, c);
  }

  lemma SendKeepsSound(s: State, code: ExitCode, c: Config)
    requires s.reader.Reading? && Sound(s, c) && s.read < |c.script| && c.script[s.read] == Prepared(code)
    ensures Sound(s.(read := s.read + 1, sent := s.sent + 1, queue := s.queue + [Sent(s.sent, code)]), c)
  {
    LinesGrow(c.script, s.read + 1, |c.script|);
    assert AllCodes(c)[s.sent] == LineCodes(c.script, s.read + 1)[s.sent] == code;
  }

  /** At the end of the script, and on a blank line, only the reader moves. */
  lemma ReaderMovesAlone(s: State, c: Config)
    requires s.reader.Reading? && Sound(s, c)
    requires s.read < |c.script| ==> c.script[s.read].Blank?
    ensures Sound(ReaderNext(s, c), c)
  {
    assert ReaderNext(s, c).pool == s.pool;
  }

  lemma ReaderKeeps(s: State, c: Config)
    requires s.reader.Reading? && Sound(s, c)
    ensures Sound(ReaderNext(s, c), c)
  {
    if s.read < |c.script| && c.script[s.read].Prepared? {
      SendKeepsSound(s, c.script[s.read].code, c);
    } else {
      ReaderMovesAlone(s, c);
    }
  }

  lemma TaskKeepsOvershoot(s: State, w: WorkAction, c: Config)
    requires CanWork(s.pool, w) && Overshoot(s, c)
    requires PermitsBalance(s.pool, Held(s.pc), c.opts) && TicketsSound(s.pool, c.opts)
    ensures Overshoot(s.(pool := Work(s.pool, w, c.opts)), c)
  {
    RunNeverGrows(s.pool, w, c.opts);
    if c.opts.errorThreshold.Some? && !s.pool.failCancel {
      RunBeforeCancel(s.pool, c.opts);
    }
  }

  lemma TaskKeeps(s: State, w: WorkAction, c: Config)
    requires CanWork(s.pool, w) && Sound(s, c)
    ensures Sound(s.(pool := Work(s.pool, w, c.opts)), c)
  {
    WorkKeeps(s.pool, w, AllCodes(c), Held(s.pc), |s.dropped|, c.opts);
    TaskStepFacts(s.pool, w, c.opts);
    TaskKeepsOvershoot(s, w, c);
  }

  lemma StepKeeps(s: State, a: Action, c: Config)
    requires Enabled(s, a) && Sound(s, c)
    ensures Sound(Step(s, a, c), c)
  {
    match a
    case SpawnerStep => SpawnerKeeps(s, c);
    case TaskStep(w) => TaskKeeps(s, w, c);
    case ReaderStep => ReaderKeeps(s, c);
    case _ =>
  }

  lemma {:induction false} ExecKeeps(s: State, schedule: seq<Action>, c: Config)
    requires Sound(s, c) && Exec(s, schedule, c).Some?
    ensures Sound(Exec(s, schedule, c).value, c)
    decreases |schedule|
  {
    if schedule != [] {
      StepKeeps(s, schedule[0], c);
      ExecKeeps(Step(s, schedule[0], c), schedule[1..], c);
    }
  }

  lemma ReachableIsSound(s: State, c: Config)
    requires Reachable(s, c)
    ensures Sound(s, c)
  {
    var schedule :| Exec(Init(c), schedule, c) == Some(s);
    InitSound(c);
    ExecKeeps(Init(c), schedule, c);
  }

  lemma {:induction false} ExecSnoc(s: State, schedule: seq<Action>, a: Action, c: Config)
    requires Exec(s, schedule, c).Some? && Enabled(Exec(s, schedule, c).value, a)
    ensures Exec(s, schedule + [a], c) == Some(Step(Exec(s, schedule, c).value, a, c))
    decreases |schedule|
  {
    if schedule == [] {
      assert [] + [a] == [a];
      assert Exec(Step(s, a, c), [], c) == Some(Step(s, a, c));
    } else {
      ExecSnoc(Step(s, schedule[0], c), schedule[1..], a, c);
      assert (schedule + [a])[0] == schedule[0] && (schedule + [a])[1..] == schedule[1..] + [a];
    }
  }

  lemma Then(s: State, a: Action, c: Config) returns (s': State)
    requires Reachable(s, c) && Enabled(s, a)
    ensures Reachable(s', c) && s' == Step(s, a, c)
  {
    s' := Step(s, a, c);
    var schedule :| Exec(Init(c), schedule, c) == Some(s);
    ExecSnoc(Init(c), schedule, a, c);
  }

  // ---- Safety ----

  lemma ReachableBounds(s: State, c: Config)
    requires Reachable(s, c)
    ensures CountAll(s.pool.tasks, Holding, c.opts) <= c.opts.workers
    ensures c.opts.errorThreshold.Some? ==>
              CountAll(s.pool.tasks, StopWorthyRun, c.opts) <= Limit(c.opts) + c.opts.workers
    ensures !s.reader.ReceiverDropped?
  {
    ReachableIsSound(s, c);
    if c.opts.errorThreshold.Some? && !s.pool.failCancel { RunBeforeCancel(s.pool, c.opts); }
  }

  lemma {:induction false} AfterCancelAtMostOne(s: State, schedule: seq<Action>, c: Config)
    requires s.pool.failCancel && Exec(s, schedule, c).Some?
    ensures var s' := Exec(s, schedule, c).value;
            && s'.pool.failCancel
            && |s'.pool.tasks| <= |s.pool.tasks| + (if PastFailCheck(s.pc) then 1 else 0)
    decreases |schedule|
  {
    if schedule != [] { AfterCancelAtMostOne(Step(s, schedule[0], c), schedule[1..], c); }
  }

  lemma {:induction false} AfterInterruptNoSpawn(s: State, schedule: seq<Action>, c: Config)
    requires s.interrupt && Exec(s, schedule, c).Some?
    ensures var s' := Exec(s, schedule, c).value;
            && s'.interrupt
            && |s'.pool.tasks| <= |s.pool.tasks| + (if s.pc.AtSpawn? then 1 else 0)
    decreases |schedule|
  {
    if schedule != [] { AfterInterruptNoSpawn(Step(s, schedule[0], c), schedule[1..], c); }
  }

  /** An interrupt that comes before the loop's first check ends it: no line is taken to be run, no permit, no spawn. */
  lemma {:induction false} InterruptEndsLoop(s: State, schedule: seq<Action>, c: Config)
    requires s.interrupt && (s.pc.AtInterruptCheck? || LoopLeft(s.pc)) && Exec(s, schedule, c).Some?
    ensures var s' := Exec(s, schedule, c).value;
            && |s'.pool.tasks| == |s.pool.tasks|
            && (s'.pc.AtInterruptCheck? || LoopLeft(s'.pc))
    decreases |schedule|
  {
    if schedule != [] {
      if schedule[0].TaskStep? { TaskStepFacts(s.pool, schedule[0].work, c.opts); }
      InterruptEndsLoop(Step(s, schedule[0], c), schedule[1..], c);
    }
  }

  /**
   * At the end the channel is empty and the reader gone; of the lines sent, a first part was run
   * and recorded once each, all the others were dropped once each, and the counters add up to them.
   */
  lemma FinishedAccounts(s: State, c: Config)
    requires Reachable(s, c) && s.pc.Done?
    ensures s.queue == [] && !s.reader.Reading? && !s.reader.ReceiverDropped?
    ensures |s.pool.tasks| + |s.dropped| == s.sent <= |AllCodes(c)|
    ensures InScriptOrder(s.pool.tasks, AllCodes(c))
    ensures Distinct(s.pool.order) && |s.pool.order| == |s.pool.recorded| == |s.pool.tasks|
    ensures forall i :: i in s.pool.order <==> 0 <= i < |s.pool.tasks|
    ensures forall k :: 0 <= k < |s.dropped| ==> s.dropped[k] == |s.pool.tasks| + k
    ensures forall k :: 0 <= k < |s.pool.order| ==>
              && s.pool.order[k] < |s.pool.tasks|
              && s.pool.recorded[k] == (if s.pool.tasks[s.pool.order[k]].phase == Joined(Completed)
                                        then AllCodes(c)[s.pool.order[k]] else 1)
    ensures s.pool.worst == WorstOf(s.pool.recorded)
    ensures s.pool.summary == AddSkipped(TallyOf(s.pool.recorded), |s.dropped|)
    ensures s.pool.summary.Total() == s.sent
    ensures s.reader.AtEof? || s.reader.Failed? ==> s.sent == |AllCodes(c)|
    ensures s.reader.CtrlC? ==> s.interrupt
  {
    ReachableIsSound(s, c);
    DistinctCoverLength(s.pool.order, |s.pool.tasks|);
    TallyByMultiset(s.pool.recorded);
  }

  lemma FinishedTallies(s: State, c: Config)
    requires Reachable(s, c) && s.pc.Done? && NoneDied(s.pool)
    ensures |s.pool.tasks| <= |AllCodes(c)|
    ensures multiset(s.pool.recorded) == multiset(AllCodes(c)[..|s.pool.tasks|])
    ensures s.pool.progress == TallyOf(AllCodes(c)[..|s.pool.tasks|])
    ensures s.pool.summary == AddSkipped(s.pool.progress, |s.dropped|)
  {
    ReachableIsSound(s, c);
    var ran := AllCodes(c)[..|s.pool.tasks|];
    FullLog(s.pool.order, s.pool.recorded, JoinView(s.pool.tasks), ran);
    FullLog(s.pool.ticks, s.pool.ticked, TickView(s.pool.tasks), ran);
    CompletionOrderKeepsSeverity(s.pool.recorded, ran);
    CompletionOrderKeepsSeverity(s.pool.ticked, ran);
  }

  /** A run in which a task died exits 1. */
  lemma DeadTaskExitsOne(s: State, c: Config)
    requires Reachable(s, c) && s.pc.Done? && !NoneDied(s.pool)
    ensures s.pool.worst == 1
  {
    ReachableIsSound(s, c);
    DeadTaskIsError(s.pool);
  }

  // ---- Against the sequential run ----

  lemma CancelMeansThreshold(s: State, c: Config)
    requires Sound(s, c) && s.pool.failCancel
    ensures ThresholdReached(AllCodes(c)[..|s.pool.tasks|], c.opts)
  {
    var n := |s.pool.tasks|;
    CountWithin(s.pool.tasks, n, Tallied, StopWorthy, c.opts);
    StopWorthyTasks(s.pool.tasks, n, AllCodes(c), c.opts);
    FoldPrefix(AllCodes(c), n, c.opts.continueOnWarning);
  }

  /** Uninterrupted, at least the lines a sequential streaming run would dispatch are spawned. */
  lemma DispatchesAtLeastSequential(s: State, c: Config)
    requires Reachable(s, c) && s.pc.Done? && !s.interrupt
    ensures s.sent == |AllCodes(c)|
    ensures Seq.Dispatched(AllCodes(c), iset{}, c.opts) <= |s.pool.tasks|
  {
    ReachableIsSound(s, c);
    Seq.DispatchedIsTheStop(AllCodes(c), iset{}, c.opts);
    if |s.pool.tasks| < s.sent {
      CancelMeansThreshold(s, c);
    }
  }

  /** ... so the exit code is at least as severe. */
  lemma AtLeastAsSevere(s: State, c: Config)
    requires Reachable(s, c) && s.pc.Done? && !s.interrupt
    ensures SeverityRank(Seq.SequentialResult(AllCodes(c), iset{}, c.opts).worst) <= SeverityRank(s.pool.worst)
  {
    DispatchesAtLeastSequential(s, c);
    ReachableIsSound(s, c);
    var n := Seq.Dispatched(AllCodes(c), iset{}, c.opts);
    Seq.AccountMeaning(AllCodes(c), n, c.opts);
    JoinedPrefixNoMilder(s.pool, AllCodes(c), n);
  }

  /** Where no task died and all lines ran, the report is that of the whole script. */
  lemma AllRunReport(s: State, c: Config)
    requires Reachable(s, c) && s.pc.Done? && NoneDied(s.pool) && |s.pool.tasks| == |AllCodes(c)|
    ensures s.pool.summary == TallyOf(AllCodes(c))
    ensures SeverityRank(s.pool.worst) == SeverityRank(WorstOf(AllCodes(c)))
    ensures SeverityRank(s.pool.worst) != 1 ==> s.pool.worst == WorstOf(AllCodes(c))
  {
    var codes := AllCodes(c);
    assert codes[..|codes|] == codes;
    FinishedTallies(s, c);
    FinishedAccounts(s, c);
    CompletionOrderKeepsSeverity(s.pool.recorded, codes);
  }

  /** With no threshold, every schedule reports what the sequential streaming run reports on the script. */
  lemma NoThresholdSameReport(s: State, c: Config)
    requires Reachable(s, c) && s.pc.Done? && !s.interrupt && NoneDied(s.pool) && c.opts.errorThreshold.None?
    ensures var r := Seq.SequentialResult(AllCodes(c), iset{}, c.opts);
            && s.pool.summary == r.counts
            && SeverityRank(s.pool.worst) == SeverityRank(r.worst)
            && (SeverityRank(r.worst) != 1 ==> s.pool.worst == r.worst)
  {
    Seq.NoThresholdRunsAll(AllCodes(c), c.opts);
    DispatchesAtLeastSequential(s, c);
    FinishedAccounts(s, c);
    AllRunReport(s, c);
  }

  /**
   * Whatever the threshold, an uninterrupted run in which no task dies succeeds exactly when the
   * sequential one does.
   */
  lemma SameSuccess(s: State, c: Config)
    requires Reachable(s, c) && s.pc.Done? && !s.interrupt && NoneDied(s.pool)
    ensures s.pool.worst == 0 <==> Seq.SequentialResult(AllCodes(c), iset{}, c.opts).worst == 0
  {
    AtLeastAsSevere(s, c);
    if Seq.SequentialResult(AllCodes(c), iset{}, c.opts).worst == 0 {
      Seq.SuccessMeansClean(AllCodes(c), c.opts);
      FinishedTallies(s, c);
      SameMembers(s.pool.recorded, AllCodes(c)[..|s.pool.tasks|]);
      FinishedAccounts(s, c);
      assert forall code :: code in AllCodes(c)[..|s.pool.tasks|] ==> code in AllCodes(c);
      ExitZeroIffAllZero(s.pool.recorded);
    }
  }

  // ---- Exit code of the whole command ----

  /** A failed reader lifts the code to at least 1, numerically. */
  function FinalCode(worst: ExitCode, reader: ReaderState): ExitCode {
    if reader.Failed? && worst < 1 then 1 else worst
  }

  /** The command exits 0 exactly when every recorded line did and the script was read without error. */
  lemma FinalCodeZeroIff(s: State, c: Config)
    requires Reachable(s, c) && s.pc.Done?
    ensures FinalCode(s.pool.worst, s.reader) == 0
            <==> (forall code :: code in s.pool.recorded ==> code == 0) && !s.reader.Failed?
    ensures FinalCode(s.pool.worst, s.reader) == s.pool.worst || (s.reader.Failed? && s.pool.worst < 1)
    ensures s.reader.Failed? && s.pool.worst < 1 ==> FinalCode(s.pool.worst, s.reader) == 1
  {
    FinishedAccounts(s, c);
    ExitZeroIffAllZero(s.pool.recorded);
  }

  // ---- Progress ----

  function PointWeight(pc: Point): nat {
    match pc
    case AtInterruptCheck => 6
    case AtFailCheck => 5
    case AtRecv => 4
    case AtAcquire(_) => 16
    case AtRecheck(_) => 15
    case AtSpawn(_) => 14
    case Draining => 3
    case Joining => 2
    case Done => 0
  }

  function Measure(s: State, c: Config): nat
    requires s.read <= |c.script|
  {
    15 * (|c.script| - s.read) + (if s.reader.Reading? then 1 else 0) + 13 * |s.queue|
    + PointWeight(s.pc) + Remaining(s.pool.tasks, |s.pool.tasks|)
  }

  lemma StepDecreases(s: State, a: Action, c: Config)
    requires s.read <= |c.script| && Enabled(s, a)
    ensures Step(s, a, c).read <= |c.script|
    ensures !a.Sigint? ==> Measure(Step(s, a, c), c) < Measure(s, c)
    ensures a.Sigint? ==> Measure(Step(s, a, c), c) == Measure(s, c)
  {
    match a
    case SpawnerStep =>
      if s.pc.AtSpawn? { SpawnAddsSix(s.pool, s.pc.line.id, s.pc.line.code); }
    case TaskStep(w) => WorkDecreases(s.pool, w, c.opts);
    case _ =>
  }

  function OwnSteps(schedule: seq<Action>): nat {
    if schedule == [] then 0 else (if schedule[0].Sigint? then 0 else 1) + OwnSteps(schedule[1..])
  }

  /** Reader and executor steps of any schedule are bounded by the script's length. */
  lemma {:induction false} SchedulesAreBounded(s: State, schedule: seq<Action>, c: Config)
    requires s.read <= |c.script| && Exec(s, schedule, c).Some?
    ensures OwnSteps(schedule) <= Measure(s, c)
    decreases |schedule|
  {
    if schedule != [] {
      StepDecreases(s, schedule[0], c);
      SchedulesAreBounded(Step(s, schedule[0], c), schedule[1..], c);
    }
  }

  /** With a worker, the reader or the executor can move in every reachable unfinished state. */
  lemma NeverStuck(s: State, c: Config) returns (a: Action)
    requires Reachable(s, c) && !s.pc.Done? && c.opts.workers > 0
    ensures Enabled(s, a) && !a.Sigint? && !a.ReaderCtrlC?
  {
    ReachableIsSound(s, c);
    a := if s.reader.Reading? then ReaderStep else SpawnerStep;
    if s.pc.AtAcquire? && s.pool.permits == 0 {
      var i := PermitsComeBack(s.pool, c.opts);
      a := TaskStep(Advance(i));
    } else if s.pc.Joining? && !AllJoined(s.pool) {
      var i := FirstUnjoined(s.pool);
      a := TaskStep(if s.pool.tasks[i].phase.Ended? then Join(i) else Advance(i));
    }
  }
}
