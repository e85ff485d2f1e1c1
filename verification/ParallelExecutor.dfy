/**
 * The parallel executor over a prepared script, as a step system. The spawn loop, every task and
 * the SIGINT handler interleave freely; the loads of the two flags, the wait for a permit and the
 * spawn are separate steps, which only adds interleavings to those of the single-threaded LocalSet.
 */
module ParallelExecutor {
  import opened Basics
  import opened ExitCodes
  import opened Lines
  import opened WorkerPool
  import Seq = SequentialExecutor

  /** Where the spawn loop is; `line` is the one taken from the script and not spawned yet. */
  datatype Point =
    | LoopHead
    | AtInterruptCheck(line: nat)
    | AtFailCheck(line: nat)
    | AtAcquire(line: nat)
    | AtRecheck(line: nat)
    | AtSpawn(line: nat)
    | Joining
    | Done

  /** `next` is the position of the script iterator. */
  datatype State = State(pc: Point, next: nat, spawned: nat, interrupt: bool, pool: Pool)

  datatype Action = SpawnerStep | TaskStep(work: WorkAction) | Sigint

  /** What a run is about: the outcome of each line, and the options. */
  datatype Config = Config(codes: seq<ExitCode>, opts: ExecutorOptions)

  function Init(c: Config): State {
    State(LoopHead, 0, 0, false, NewPool(c.opts.workers))
  }

  predicate Enabled(s: State, a: Action) {
    match a
    case SpawnerStep =>
      && !s.pc.Done?
      && (s.pc.AtAcquire? ==> s.pool.permits > 0)
      && (s.pc.Joining? ==> AllJoined(s.pool))
    case TaskStep(w) => CanWork(s.pool, w) && (w.Join? ==> s.pc.Joining?)
    case Sigint => true
  }

  function SpawnerNext(s: State, c: Config): State
    requires Enabled(s, SpawnerStep)
  {
    match s.pc
    case LoopHead =>
      if s.next >= |c.codes| then s.(pc := Joining) else s.(pc := AtInterruptCheck(s.next), next := s.next + 1)
    case AtInterruptCheck(line) => s.(pc := if s.interrupt then Joining else AtFailCheck(line))
    case AtFailCheck(line) => s.(pc := if s.pool.failCancel then Joining else AtAcquire(line))
    case AtAcquire(line) => s.(pc := AtRecheck(line), pool := s.pool.(permits := s.pool.permits - 1))
    case AtRecheck(line) =>
      if s.interrupt
      then s.(pc := Joining, pool := s.pool.(permits := s.pool.permits + 1))
      else s.(pc := AtSpawn(line))
    case AtSpawn(line) =>
      var code := if line < |c.codes| then c.codes[line] else 0;
      s.(pc := LoopHead, spawned := s.spawned + 1, pool := Spawn(s.pool, line, code))
    case Joining =>
      s.(pc := Done, pool := s.pool.(summary := AddSkipped(s.pool.summary, SaturatingSub(|c.codes|, s.spawned))))
    case Done => s
  }

  function SaturatingSub(a: nat, b: nat): nat { if b <= a then a - b else 0 }

  function Step(s: State, a: Action, c: Config): State
    requires Enabled(s, a)
  {
    match a
    case SpawnerStep => SpawnerNext(s, c)
    case TaskStep(w) => s.(pool := Work(s.pool, w, c.opts))
    case Sigint => s.(interrupt := true)
  }

  /** The state after a schedule, if every action of it was enabled. */
  function Exec(s: State, schedule: seq<Action>, c: Config): Option<State>
    decreases |schedule|
  {
    if schedule == [] then Some(s)
    else if Enabled(s, schedule[0]) then Exec(Step(s, schedule[0], c), schedule[1..], c)
    else None
  }

  // ---- What every reachable state satisfies ----

  function Held(pc: Point): nat { if pc.AtRecheck? || pc.AtSpawn? then 1 else 0 }

  function Unrun(s: State, c: Config): nat { if s.pc.Done? then SaturatingSub(|c.codes|, s.spawned) else 0 }

  predicate LineInHand(pc: Point) { !pc.LoopHead? && !pc.Joining? && !pc.Done? }

  /** The spawned lines are a prefix of the script, and the line in hand is the one after it. */
  predicate SpawnsPrefix(s: State, c: Config) {
    && s.spawned == |s.pool.tasks| <= s.next <= |c.codes|
    && (s.pc.LoopHead? ==> s.next == s.spawned)
    && (LineInHand(s.pc) ==> s.pc.line == s.spawned && s.next == s.spawned + 1)
  }

  /** The loop ends early only for an interrupt or for the tripped threshold. */
  predicate EndsForAReason(s: State, c: Config) {
    && (s.pc.Joining? || s.pc.Done? ==> s.spawned == |c.codes| || s.interrupt || s.pool.failCancel)
    && (s.pc.Done? ==> AllJoined(s.pool))
  }

  predicate PastFailCheck(pc: Point) { pc.AtAcquire? || pc.AtRecheck? || pc.AtSpawn? }

  /** Stop-worthy lines run (but for those that died before having a code), plus the one spawn that may still follow. */
  predicate Overshoot(s: State, c: Config) {
    c.opts.errorThreshold.Some? && s.pool.failCancel ==>
      CountAll(s.pool.tasks, StopWorthyRun, c.opts) + (if PastFailCheck(s.pc) then 1 else 0)
      <= Limit(c.opts) + c.opts.workers
  }

  predicate Sound(s: State, c: Config) {
    && PoolSound(s.pool, c.codes, Held(s.pc), Unrun(s, c), c.opts)
    && SpawnsPrefix(s, c)
    && EndsForAReason(s, c)
    && Overshoot(s, c)
  }

  lemma SpawnKeepsSound(s: State, c: Config)
    requires s.pc.AtSpawn? && Sound(s, c)
    ensures Sound(SpawnerNext(s, c), c)
  {
    SpawnKeeps(s.pool, c.codes, 0, c.opts);
    CountSnoc(s.pool.tasks, Task(s.spawned, c.codes[s.spawned], Running), StopWorthyRun, c.opts);
  }

  lemma FinishKeepsSound(s: State, c: Config)
    requires s.pc.Joining? && AllJoined(s.pool) && Sound(s, c)
    ensures Sound(SpawnerNext(s, c), c)
  {
    SkipKeeps(s.pool, c.codes, 0, 0, SaturatingSub(|c.codes|, s.spawned), c.opts);
  }

  lemma ChecksKeepSound(s: State, c: Config)
    requires (s.pc.LoopHead? || s.pc.AtInterruptCheck? || s.pc.AtFailCheck?) && Sound(s, c)
    ensures Sound(SpawnerNext(s, c), c)
  {
    assert SpawnerNext(s, c).pool == s.pool;
  }

  lemma AcquireKeepsSound(s: State, c: Config)
    requires s.pc.AtAcquire? && s.pool.permits > 0 && Sound(s, c)
    ensures Sound(SpawnerNext(s, c), c)
  {
    PermitMoves(s.pool, c.codes, 0, 1, c.opts);
  }

  lemma RecheckKeepsSound(s: State, c: Config)
    requires s.pc.AtRecheck? && Sound(s, c)
    ensures Sound(SpawnerNext(s, c), c)
  {
    PermitMoves(s.pool, c.codes, 1, 0, c.opts);
  }

  lemma SpawnerKeeps(s: State, c: Config)
    requires Enabled(s, SpawnerStep) && Sound(s, c)
    ensures Sound(SpawnerNext(s, c), c)
  {
    match s.pc
    case AtAcquire(_) => AcquireKeepsSound(s, c);
    case AtRecheck(_) => RecheckKeepsSound(s, c);
    case AtSpawn(_) => SpawnKeepsSound(s, c);
    case Joining => FinishKeepsSound(s, c);
    case _ => ChecksKeepSound(s, c);
  }

  lemma TaskKeepsOvershoot(s: State, w: WorkAction, c: Config)
    requires CanWork(s.pool, w) && Overshoot(s, c)
    requires PermitsBalance(s.pool, Held(s.pc), c.opts) && TicketsSound(s.pool, c.opts)
    ensures Overshoot(s.(pool := Work(s.pool, w, c.opts)), c)
  {
    RunNeverGrows(s.pool, w, c.opts);
    if c.opts.errorThreshold.Some? && !s.pool.failCancel {
      RunBeforeCancel(s.pool, c.opts);
    }
  }

  lemma TaskKeeps(s: State, w: WorkAction, c: Config)
    requires CanWork(s.pool, w) && Sound(s, c)
    ensures Sound(s.(pool := Work(s.pool, w, c.opts)), c)
  {
    WorkKeeps(s.pool, w, c.codes, Held(s.pc), Unrun(s, c), c.opts);
    TaskStepFacts(s.pool, w, c.opts);
    TaskKeepsOvershoot(s, w, c);
  }

  lemma StepKeeps(s: State, a: Action, c: Config)
    requires Enabled(s, a) && Sound(s, c)
    ensures Sound(Step(s, a, c), c)
  {
    match a
    case SpawnerStep => SpawnerKeeps(s, c);
    case TaskStep(w) => TaskKeeps(s, w, c);
    case Sigint =>
  }

  lemma {:induction false} ExecKeeps(s: State, schedule: seq<Action>, c: Config)
    requires Sound(s, c) && Exec(s, schedule, c).Some?
    ensures Sound(Exec(s, schedule, c).value, c)
    decreases |schedule|
  {
    if schedule != [] {
      StepKeeps(s, schedule[0], c);
      ExecKeeps(Step(s, schedule[0], c), schedule[1..], c);
    }
  }

  /** `s` is reached by some interleaving. */
  ghost predicate Reachable(s: State, c: Config) {
    exists schedule :: Exec(Init(c), schedule, c) == Some(s)
  }

  lemma ReachableIsSound(s: State, c: Config)
    requires Reachable(s, c)
    ensures Sound(s, c)
  {
    var schedule :| Exec(Init(c), schedule, c) == Some(s);
    ExecKeeps(Init(c), schedule, c);
  }

  // ---- Safety ----

  /** In every reachable state: permits, spawn order and the overshoot bound. */
  lemma ReachableBounds(s: State, c: Config)
    requires Reachable(s, c)
    ensures CountAll(s.pool.tasks, Holding, c.opts) <= c.opts.workers
    ensures s.spawned <= |c.codes| && InScriptOrder(s.pool.tasks, c.codes)
    ensures c.opts.errorThreshold.Some? ==>
              CountAll(s.pool.tasks, StopWorthyRun, c.opts) <= Limit(c.opts) + c.opts.workers
  {
    ReachableIsSound(s, c);
    if c.opts.errorThreshold.Some? && !s.pool.failCancel { RunBeforeCancel(s.pool, c.opts); }
  }

  /** Once the cancel flag is up, at most one more line is spawned, and only if its check came first. */
  lemma {:induction false} AfterCancelAtMostOne(s: State, schedule: seq<Action>, c: Config)
    requires s.pool.failCancel && Exec(s, schedule, c).Some?
    ensures var s' := Exec(s, schedule, c).value;
            && s'.pool.failCancel
            && s'.spawned <= s.spawned + (if PastFailCheck(s.pc) then 1 else 0)
    decreases |schedule|
  {
    if schedule != [] { AfterCancelAtMostOne(Step(s, schedule[0], c), schedule[1..], c); }
  }

  lemma {:induction false} ExecSnoc(s: State, schedule: seq<Action>, a: Action, c: Config)
    requires Exec(s, schedule, c).Some? && Enabled(Exec(s, schedule, c).value, a)
    ensures Exec(s, schedule + [a], c) == Some(Step(Exec(s, schedule, c).value, a, c))
    decreases |schedule|
  {
    if schedule == [] {
      assert [] + [a] == [a];
      assert Exec(Step(s, a, c), [], c) == Some(Step(s, a, c));
    } else {
      ExecSnoc(Step(s, schedule[0], c), schedule[1..], a, c);
      assert (schedule + [a])[0] == schedule[0] && (schedule + [a])[1..] == schedule[1..] + [a];
    }
  }

  lemma Then(s: State, a: Action, c: Config) returns (s': State)
    requires Reachable(s, c) && Enabled(s, a)
    ensures Reachable(s', c) && s' == Step(s, a, c)
  {
    s' := Step(s, a, c);
    var schedule :| Exec(Init(c), schedule, c) == Some(s);
    ExecSnoc(Init(c), schedule, a, c);
  }

  /** Once the interrupt is set, nothing is spawned, except a line whose re-check had already passed. */
  lemma {:induction false} AfterInterruptNoSpawn(s: State, schedule: seq<Action>, c: Config)
    requires s.interrupt && Exec(s, schedule, c).Some?
    ensures var s' := Exec(s, schedule, c).value;
            && s'.interrupt
            && s'.spawned <= s.spawned + (if s.pc.AtSpawn? then 1 else 0)
    decreases |schedule|
  {
    if schedule != [] { AfterInterruptNoSpawn(Step(s, schedule[0], c), schedule[1..], c); }
  }

  /** An interrupt that comes before a line's first check ends the loop: it takes no permit and spawns nothing. */
  lemma {:induction false} InterruptEndsLoop(s: State, schedule: seq<Action>, c: Config)
    requires s.interrupt && (s.pc.LoopHead? || s.pc.AtInterruptCheck? || s.pc.Joining? || s.pc.Done?)
    requires Exec(s, schedule, c).Some?
    ensures var s' := Exec(s, schedule, c).value;
            && s'.spawned == s.spawned
            && (s'.pc.LoopHead? || s'.pc.AtInterruptCheck? || s'.pc.Joining? || s'.pc.Done?)
    decreases |schedule|
  {
    if schedule != [] { InterruptEndsLoop(Step(s, schedule[0], c), schedule[1..], c); }
  }

  /**
   * At the end every spawned line is recorded exactly once, the others are counted skipped,
   * and the four counters add up to the script.
   */
  lemma FinishedAccounts(s: State, c: Config)
    requires Reachable(s, c) && s.pc.Done?
    ensures Distinct(s.pool.order) && forall i :: i in s.pool.order <==> 0 <= i < s.spawned
    ensures |s.pool.order| == |s.pool.recorded| == s.spawned <= |c.codes|
    ensures forall k :: 0 <= k < s.spawned ==>
              && s.pool.order[k] < s.spawned
              && s.pool.order[k] < |s.pool.tasks|
              && s.pool.recorded[k] == (if s.pool.tasks[s.pool.order[k]].phase == Joined(Completed)
                                        then c.codes[s.pool.order[k]] else 1)
    ensures s.pool.worst == WorstOf(s.pool.recorded)
    ensures s.pool.summary == AddSkipped(TallyOf(s.pool.recorded), |c.codes| - s.spawned)
    ensures s.pool.summary.Total() == |c.codes|
  {
    ReachableIsSound(s, c);
    DistinctCoverLength(s.pool.order, s.spawned);
    TallyByMultiset(s.pool.recorded);
  }

  /** Where no task died, both sets of counters are the tally of the lines run. */
  lemma FinishedTallies(s: State, c: Config)
    requires Reachable(s, c) && s.pc.Done? && NoneDied(s.pool)
    ensures s.spawned <= |c.codes|
    ensures multiset(s.pool.recorded) == multiset(c.codes[..s.spawned])
    ensures s.pool.progress == TallyOf(c.codes[..s.spawned])
    ensures s.pool.summary == AddSkipped(s.pool.progress, |c.codes| - s.spawned)
  {
    ReachableIsSound(s, c);
    var ran := c.codes[..s.spawned];
    FullLog(s.pool.order, s.pool.recorded, JoinView(s.pool.tasks), ran);
    FullLog(s.pool.ticks, s.pool.ticked, TickView(s.pool.tasks), ran);
    CompletionOrderKeepsSeverity(s.pool.recorded, ran);
    CompletionOrderKeepsSeverity(s.pool.ticked, ran);
  }

  /** A run in which a task died exits 1. */
  lemma DeadTaskExitsOne(s: State, c: Config)
    requires Reachable(s, c) && s.pc.Done? && !NoneDied(s.pool)
    ensures s.pool.worst == 1
  {
    ReachableIsSound(s, c);
    DeadTaskIsError(s.pool);
  }

  // ---- Against the sequential run ----

  /** The prefix the sequential executor dispatches with the same outcomes and no interrupt. */
  function SequentialPrefix(c: Config): (n: nat)
    ensures n <= |c.codes|
  {
    Seq.Dispatched(c.codes, iset{}, c.opts)
  }

  /** A raised cancel flag means the spawned prefix holds a threshold's worth of stop-worthy lines. */
  lemma CancelMeansThreshold(s: State, c: Config)
    requires Sound(s, c) && s.pool.failCancel
    ensures ThresholdReached(c.codes[..s.spawned], c.opts)
  {
    CountWithin(s.pool.tasks, s.spawned, Tallied, StopWorthy, c.opts);
    StopWorthyTasks(s.pool.tasks, s.spawned, c.codes, c.opts);
    FoldPrefix(c.codes, s.spawned, c.opts.continueOnWarning);
  }

  /** Uninterrupted, every schedule dispatches at least what the sequential executor dispatches. */
  lemma DispatchesAtLeastSequential(s: State, c: Config)
    requires Reachable(s, c) && s.pc.Done? && !s.interrupt
    ensures SequentialPrefix(c) <= s.spawned
  {
    ReachableIsSound(s, c);
    Seq.DispatchedIsTheStop(c.codes, iset{}, c.opts);
    if s.spawned < |c.codes| {
      CancelMeansThreshold(s, c);
    }
  }

  /** ... so its exit code is at least as severe. */
  lemma AtLeastAsSevere(s: State, c: Config)
    requires Reachable(s, c) && s.pc.Done? && !s.interrupt
    ensures SeverityRank(Seq.SequentialResult(c.codes, iset{}, c.opts).worst) <= SeverityRank(s.pool.worst)
  {
    DispatchesAtLeastSequential(s, c);
    ReachableIsSound(s, c);
    Seq.AccountMeaning(c.codes, SequentialPrefix(c), c.opts);
    JoinedPrefixNoMilder(s.pool, c.codes, SequentialPrefix(c));
  }

  /** With no threshold every schedule reports what the sequential run reports, up to the choice among odd codes. */
  lemma NoThresholdSameReport(s: State, c: Config)
    requires Reachable(s, c) && s.pc.Done? && !s.interrupt && NoneDied(s.pool) && c.opts.errorThreshold.None?
    ensures var r := Seq.SequentialResult(c.codes, iset{}, c.opts);
            && s.pool.summary == r.counts
            && SeverityRank(s.pool.worst) == SeverityRank(r.worst)
            && (SeverityRank(r.worst) != 1 ==> s.pool.worst == r.worst)
  {
    Seq.NoThresholdRunsAll(c.codes, c.opts);
    DispatchesAtLeastSequential(s, c);
    FinishedAccounts(s, c);
    assert c.codes[..|c.codes|] == c.codes;
    FinishedTallies(s, c);
    CompletionOrderKeepsSeverity(s.pool.recorded, c.codes);
  }

  /**
   * Whatever the threshold, an uninterrupted batch in which no task dies succeeds in parallel exactly
   * when it does in sequence.
   */
  lemma SameSuccess(s: State, c: Config)
    requires Reachable(s, c) && s.pc.Done? && !s.interrupt && NoneDied(s.pool)
    ensures s.pool.worst == 0 <==> Seq.SequentialResult(c.codes, iset{}, c.opts).worst == 0
  {
    AtLeastAsSevere(s, c);
    if Seq.SequentialResult(c.codes, iset{}, c.opts).worst == 0 {
      Seq.SuccessMeansClean(c.codes, c.opts);
      FinishedTallies(s, c);
      SameMembers(s.pool.recorded, c.codes[..s.spawned]);
      FinishedAccounts(s, c);
      assert forall code :: code in c.codes[..s.spawned] ==> code in c.codes;
      ExitZeroIffAllZero(s.pool.recorded);
    }
  }

  // ---- Progress ----

  function PointWeight(pc: Point): nat {
    match pc
    case LoopHead => 3
    case AtInterruptCheck(_) => 14
    case AtFailCheck(_) => 13
    case AtAcquire(_) => 12
    case AtRecheck(_) => 11
    case AtSpawn(_) => 10
    case Joining => 1
    case Done => 0
  }

  /** Steps still possible at most: twelve for every line not taken, and those of the tasks. */
  function Measure(s: State, c: Config): nat
    requires s.next <= |c.codes|
  {
    12 * (|c.codes| - s.next) + PointWeight(s.pc) + Remaining(s.pool.tasks, |s.pool.tasks|)
  }

  lemma StepDecreases(s: State, a: Action, c: Config)
    requires SpawnsPrefix(s, c) && Enabled(s, a)
    ensures Step(s, a, c).next <= |c.codes|
    ensures !a.Sigint? ==> Measure(Step(s, a, c), c) < Measure(s, c)
    ensures a.Sigint? ==> Measure(Step(s, a, c), c) == Measure(s, c)
  {
    match a
    case SpawnerStep =>
      if s.pc.AtSpawn? { SpawnAddsSix(s.pool, s.pc.line, c.codes[s.pc.line]); }
    case TaskStep(w) => WorkDecreases(s.pool, w, c.opts);
    case Sigint =>
  }

  function OwnSteps(schedule: seq<Action>): nat {
    if schedule == [] then 0 else (if schedule[0].Sigint? then 0 else 1) + OwnSteps(schedule[1..])
  }

  /** No schedule has more executor steps than a fixed multiple of the script's length. */
  lemma {:induction false} SchedulesAreBounded(s: State, schedule: seq<Action>, c: Config)
    requires Sound(s, c) && Exec(s, schedule, c).Some?
    ensures OwnSteps(schedule) <= Measure(s, c)
    decreases |schedule|
  {
    if schedule != [] {
      StepKeeps(s, schedule[0], c);
      StepDecreases(s, schedule[0], c);
      SchedulesAreBounded(Step(s, schedule[0], c), schedule[1..], c);
    }
  }

  /** With a worker, some executor step is possible in every reachable unfinished state. */
  lemma NeverStuck(s: State, c: Config) returns (a: Action)
    requires Reachable(s, c) && !s.pc.Done? && c.opts.workers > 0
    ensures Enabled(s, a) && !a.Sigint?
  {
    ReachableIsSound(s, c);
    a := SpawnerStep;
    if s.pc.AtAcquire? && s.pool.permits == 0 {
      var i := PermitsComeBack(s.pool, c.opts);
      a := TaskStep(Advance(i));
    } else if s.pc.Joining? && !AllJoined(s.pool) {
      var i := FirstUnjoined(s.pool);
      a := TaskStep(if s.pool.tasks[i].phase.Ended? then Join(i) else Advance(i));
    }
  }
}
