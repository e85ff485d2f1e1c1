/**
 * Which lines an uninterrupted parallel run dispatches, and which exit codes it can report: the
 * numbers of lines spawned by the schedules of one script, and the condition under which every
 * schedule reports the same code. Runs with a dying task are left aside.
 */
module SpawnRange {
  import opened Basics
  import opened ExitCodes
  import opened Lines
  import opened WorkerPool
  import opened ParallelExecutor

  /** A finished run that no signal and no dying task disturbed. */
  ghost predicate FinishedRun(s: State, c: Config) {
    Reachable(s, c) && s.pc.Done? && !s.interrupt && NoneDied(s.pool)
  }

  // ---- How many lines ----

  /** The shortest prefix from `from` on with `k` stop-worthy lines, the whole script when there is none. */
  function PrefixWith(codes: seq<ExitCode>, cow: bool, k: nat, from: nat): (n: nat)
    requires from <= |codes|
    ensures from <= n <= |codes| && (n < |codes| ==> StopWorthyTo(codes, n, cow) >= k)
    ensures forall m :: from <= m < n ==> StopWorthyTo(codes, m, cow) < k
    decreases |codes| - from
  {
    if from == |codes| || StopWorthyTo(codes, from, cow) >= k then from else PrefixWith(codes, cow, k, from + 1)
  }

  /** One line more than the prefix that keeps every worker busy with a failure past the last but one allowed. */
  function LastPossible(c: Config): (n: nat)
    ensures n <= |c.codes|
  {
    if c.opts.errorThreshold.None? then |c.codes|
    else Min(|c.codes|, PrefixWith(c.codes, c.opts.continueOnWarning, Limit(c.opts) + c.opts.workers - 1, 0) + 1)
  }

  function Bad(c: Config, n: nat): nat
    requires n <= |c.codes|
  {
    StopWorthyTo(c.codes, n, c.opts.continueOnWarning)
  }

  lemma {:induction false} BadGrows(c: Config, m: nat, n: nat)
    requires m <= n <= |c.codes|
    ensures Bad(c, m) <= Bad(c, n)
  {
    if m < n { BadGrows(c, m, n - 1); }
  }

  /** After `n` lines there is room for another one: not all workers can be busy with failures to come. */
  predicate Room(c: Config, n: nat)
    requires n <= |c.codes|
  {
    c.opts.errorThreshold.Some? && n > 0 ==> Bad(c, n - 1) + 1 < Limit(c.opts) + c.opts.workers
  }

  lemma RoomIff(c: Config, n: nat)
    requires n <= |c.codes| && c.opts.workers > 0 && c.opts.errorThreshold.Some?
    ensures Room(c, n) <==> n <= PrefixWith(c.codes, c.opts.continueOnWarning, Limit(c.opts) + c.opts.workers - 1, 0)
  {
    var p := PrefixWith(c.codes, c.opts.continueOnWarning, Limit(c.opts) + c.opts.workers - 1, 0);
    if p < n { BadGrows(c, p, n - 1); }
  }

  // ---- No schedule spawns more ----

  lemma RunIsStopWorthy(s: State, c: Config)
    requires Sound(s, c) && NoneDied(s.pool)
    ensures CountAll(s.pool.tasks, StopWorthyRun, c.opts) == Bad(c, s.spawned)
  {
    CountWithin(s.pool.tasks, s.spawned, StopWorthy, StopWorthyRun, c.opts);
    CountWithin(s.pool.tasks, s.spawned, StopWorthyRun, StopWorthy, c.opts);
    StopWorthyTasks(s.pool.tasks, s.spawned, c.codes, c.opts);
  }

  /** While the flag is down, and past the check that saw it down, there is room for the next line. */
  predicate Spaced(s: State, c: Config)
    requires s.spawned <= |c.codes|
  {
    NoneDied(s.pool) ==>
      && (!s.pool.failCancel || PastFailCheck(s.pc) ==> Room(c, s.spawned))
      && (s.spawned > 0 ==> Room(c, s.spawned - 1))
  }

  /** The spawner holds a permit, so while the flag is down some worker is free of failures to come. */
  lemma RoomAfterSpawn(s: State, c: Config)
    requires Sound(s, c) && s.pc.AtSpawn? && NoneDied(s.pool) && !s.pool.failCancel
    ensures Room(c, s.spawned + 1)
  {
    if c.opts.errorThreshold.Some? {
      RunIsStopWorthy(s, c);
      RunBeforeCancel(s.pool, c.opts);
    }
  }

  lemma DeathsStay(p: Pool, w: WorkAction, opts: ExecutorOptions)
    requires CanWork(p, w) && NoneDied(Work(p, w, opts))
    ensures NoneDied(p)
  {
    var p' := Work(p, w, opts);
    forall i | 0 <= i < |p.tasks|
      ensures var phase := p.tasks[i].phase; phase.Ended? || phase.Joined? ==> phase.fate.Completed?
    {
      assert i != w.task ==> p'.tasks[i] == p.tasks[i];
      assert p'.tasks[w.task].phase.Ended? || p'.tasks[w.task].phase.Joined? ==> p'.tasks[w.task].phase.fate.Completed?;
    }
  }

  lemma SpawnKeepsSpaced(s: State, c: Config)
    requires s.pc.AtSpawn? && Sound(s, c) && Spaced(s, c)
    ensures Spaced(SpawnerNext(s, c), c)
  {
    var s' := SpawnerNext(s, c);
    if NoneDied(s'.pool) {
      assert forall i :: 0 <= i < |s.pool.tasks| ==> s'.pool.tasks[i] == s.pool.tasks[i];
      assert NoneDied(s.pool);
      if !s.pool.failCancel { RoomAfterSpawn(s, c); }
    }
  }

  /** The spawner's other steps spawn nothing, and leave the flag and the tasks. */
  lemma SpawnerKeepsSpaced(s: State, c: Config)
    requires !s.pc.AtSpawn? && Enabled(s, SpawnerStep) && s.spawned <= |c.codes| && Spaced(s, c)
    ensures var s' := SpawnerNext(s, c); s'.spawned == s.spawned && Spaced(s', c)
  {
    var s' := SpawnerNext(s, c);
    assert s'.pool.tasks == s.pool.tasks && s'.pool.failCancel == s.pool.failCancel && s'.spawned == s.spawned;
    assert PastFailCheck(s'.pc) ==> PastFailCheck(s.pc) || !s.pool.failCancel;
  }

  lemma TaskKeepsSpaced(s: State, w: WorkAction, c: Config)
    requires CanWork(s.pool, w) && s.spawned <= |c.codes| && Spaced(s, c)
    ensures Spaced(s.(pool := Work(s.pool, w, c.opts)), c)
  {
    TaskStepFacts(s.pool, w, c.opts);
    if NoneDied(Work(s.pool, w, c.opts)) { DeathsStay(s.pool, w, c.opts); }
  }

  lemma StepKeepsSpaced(s: State, a: Action, c: Config)
    requires Enabled(s, a) && Sound(s, c) && Spaced(s, c) && Step(s, a, c).spawned <= |c.codes|
    ensures Spaced(Step(s, a, c), c)
  {
    match a
    case SpawnerStep => if s.pc.AtSpawn? { SpawnKeepsSpaced(s, c); } else { SpawnerKeepsSpaced(s, c); }
    case TaskStep(w) => TaskKeepsSpaced(s, w, c);
    case Sigint =>
  }

  lemma {:induction false} ExecKeepsSpaced(s: State, schedule: seq<Action>, c: Config)
    requires Sound(s, c) && Spaced(s, c) && Exec(s, schedule, c).Some?
    ensures Sound(Exec(s, schedule, c).value, c) && Spaced(Exec(s, schedule, c).value, c)
    decreases |schedule|
  {
    if schedule != [] {
      StepKeeps(s, schedule[0], c);
      StepKeepsSpaced(s, schedule[0], c);
      ExecKeepsSpaced(Step(s, schedule[0], c), schedule[1..], c);
    }
  }

  /** Interrupted or not, finished or not, no run spawns more than the last possible line. */
  lemma SpawnedAtMost(s: State, c: Config)
    requires Reachable(s, c) && NoneDied(s.pool) && c.opts.workers > 0
    ensures s.spawned <= LastPossible(c)
  {
    var schedule :| Exec(Init(c), schedule, c) == Some(s);
    ExecKeepsSpaced(Init(c), schedule, c);
    if c.opts.errorThreshold.Some? && s.spawned > 0 { RoomIff(c, s.spawned - 1); }
  }

  // ---- Every number in the range is reached ----

  /** The loop takes a line, passes both checks and waits for a permit. */
  lemma Park(s: State, c: Config) returns (s': State)
    requires Reachable(s, c) && s.pc.LoopHead? && !s.interrupt && !s.pool.failCancel && s.next < |c.codes|
    ensures Reachable(s', c) && s' == s.(pc := AtAcquire(s.next), next := s.next + 1)
  {
    s' := Then(s, SpawnerStep, c);
    s' := Then(s', SpawnerStep, c);
    s' := Then(s', SpawnerStep, c);
  }

  /** A permit is free: the line is spawned without another look at the cancel flag. */
  lemma Unpark(s: State, c: Config) returns (s': State)
    requires Reachable(s, c) && s.pc.AtAcquire? && s.pool.permits > 0 && !s.interrupt && s.pc.line < |c.codes|
    ensures Reachable(s', c)
    ensures s' == s.(pc := LoopHead, spawned := s.spawned + 1,
                     pool := Spawn(s.pool.(permits := s.pool.permits - 1), s.pc.line, c.codes[s.pc.line]))
  {
    s' := Then(s, SpawnerStep, c);
    s' := Then(s', SpawnerStep, c);
    s' := Then(s', SpawnerStep, c);
  }

  /** Whether the pool's counter reaches the threshold with this task's failure. */
  predicate Trips(p: Pool, i: nat, opts: ExecutorOptions)
    requires i < |p.tasks|
  {
    && IsStopWorthy(p.tasks[i].code, opts.continueOnWarning)
    && opts.errorThreshold.Some? && p.failCount + 1 >= opts.errorThreshold.value
  }

  /** A running task gets its code; a stop-worthy one is counted and the count compared. */
  lemma RunTask(s: State, i: nat, c: Config) returns (s': State)
    requires Reachable(s, c) && i < |s.pool.tasks| && s.pool.tasks[i].phase.Running?
    ensures Reachable(s', c)
    ensures s' == s.(pool := SetPhase(s.pool, i, Ticking).(
                       failCount := s.pool.failCount + One(s.pool.tasks[i], StopWorthy, c.opts),
                       failCancel := s.pool.failCancel || Trips(s.pool, i, c.opts)))
  {
    s' := Then(s, TaskStep(Advance(i)), c);
    s' := Then(s', TaskStep(Advance(i)), c);
    if s'.pool.tasks[i].phase.Counted? {
      s' := Then(s', TaskStep(Advance(i)), c);
    }
  }

  /** What a task that runs to its end changes, its tick aside. */
  predicate TaskDone(p: Pool, i: nat, p': Pool, opts: ExecutorOptions)
    requires i < |p.tasks|
  {
    && p'.tasks == p.tasks[i := p.tasks[i].(phase := Ended(Completed))] && p'.permits == p.permits + 1
    && p'.failCount == p.failCount + One(p.tasks[i], StopWorthy, opts)
    && p'.failCancel == (p.failCancel || Trips(p, i, opts))
    && p'.order == p.order && p'.recorded == p.recorded
  }

  lemma FinishTask(s: State, i: nat, c: Config) returns (s': State)
    requires Reachable(s, c) && i < |s.pool.tasks| && s.pool.tasks[i].phase.Running?
    ensures Reachable(s', c) && s' == s.(pool := s'.pool) && TaskDone(s.pool, i, s'.pool, c.opts)
  {
    s' := RunTask(s, i, c);
    s' := Then(s', TaskStep(Advance(i)), c);
    s' := Then(s', TaskStep(Advance(i)), c);
  }

  /** A stop-worthy line that would trip the threshold is kept running. */
  predicate Waits(c: Config, i: nat)
    requires i < |c.codes|
  {
    && c.opts.errorThreshold.Some? && IsStopWorthy(c.codes[i], c.opts.continueOnWarning)
    && Bad(c, i) + 1 >= Limit(c.opts)
  }

  /** The failures among the first `n` lines that are let end. */
  function Let(c: Config, n: nat): nat
    requires n <= |c.codes|
  {
    if c.opts.errorThreshold.None? then Bad(c, n) else Min(Bad(c, n), Limit(c.opts) - 1)
  }

  /** At the head of the loop with `n` lines spawned, all over but those that would trip the threshold. */
  predicate Shape(s: State, c: Config, n: nat) {
    && s.pc.LoopHead? && !s.interrupt && !s.pool.failCancel
    && s.next == s.spawned == |s.pool.tasks| == n <= |c.codes|
    && s.pool.failCount == Let(c, n) && s.pool.permits + Bad(c, n) == c.opts.workers + Let(c, n)
    && (forall i :: 0 <= i < n ==>
          s.pool.tasks[i] == Task(i, c.codes[i], if Waits(c, i) then Running else Ended(Completed)))
    && s.pool.recorded == []
  }

  lemma SpawnOne(s: State, c: Config, n: nat) returns (s': State)
    requires Reachable(s, c) && Shape(s, c, n) && n < |c.codes| && s.pool.permits > 0
    ensures Reachable(s', c) && Shape(s', c, n + 1)
  {
    s' := Park(s, c);
    s' := Unpark(s', c);
    if !Waits(c, n) {
      s' := FinishTask(s', n, c);
    }
  }

  lemma {:induction false} AtHead(c: Config, n: nat) returns (s: State)
    requires n <= |c.codes| && c.opts.workers > 0 && Room(c, n)
    ensures Reachable(s, c) && Shape(s, c, n)
    decreases n
  {
    if n == 0 {
      s := Init(c);
      assert Exec(s, [], c) == Some(s);
    } else {
      if n > 1 { BadGrows(c, n - 2, n - 1); }
      s := AtHead(c, n - 1);
      s := SpawnOne(s, c, n - 1);
    }
  }

  /** With as many failures as the threshold, one of them is kept running. */
  lemma {:induction false} SomeWaits(c: Config, n: nat) returns (i: nat)
    requires n <= |c.codes| && c.opts.errorThreshold.Some? && Bad(c, n) >= Limit(c.opts)
    ensures i < n && Waits(c, i)
    decreases n
  {
    if IsStopWorthy(c.codes[n - 1], c.opts.continueOnWarning) { i := n - 1; } else { i := SomeWaits(c, n - 1); }
  }

  /** Tasks that run or ran to their end, none of them joined. */
  predicate NoneJoined(p: Pool) {
    && p.recorded == []
    && forall i :: 0 <= i < |p.tasks| ==> p.tasks[i].phase.Running? || p.tasks[i].phase == Ended(Completed)
  }

  /** The loop has spawned `n` lines and will spawn no more. */
  predicate AboutToLeave(s: State, c: Config, n: nat) {
    && s.pc.LoopHead? && !s.interrupt && NoneJoined(s.pool)
    && s.next == s.spawned == n <= |c.codes| && (n == |c.codes| || s.pool.failCancel)
  }

  lemma LowerBoundTrips(c: Config, n: nat)
    requires SequentialPrefix(c) <= n < |c.codes|
    ensures c.opts.errorThreshold.Some? && Bad(c, n) >= Limit(c.opts)
  {
    Seq.DispatchedIsTheStop(c.codes, iset{}, c.opts);
    FoldPrefix(c.codes, SequentialPrefix(c), c.opts.continueOnWarning);
    BadGrows(c, SequentialPrefix(c), n);
  }

  /** The flag goes up just before the loop looks at it again. */
  lemma StopsAtOnce(c: Config, n: nat) returns (s: State)
    requires c.opts.workers > 0 && SequentialPrefix(c) <= n <= |c.codes| && Room(c, n)
    ensures Reachable(s, c) && AboutToLeave(s, c, n)
  {
    s := AtHead(c, n);
    if n < |c.codes| {
      LowerBoundTrips(c, n);
      var i := SomeWaits(c, n);
      s := FinishTask(s, i, c);
    }
  }

  /** The flag goes up while the loop waits for a permit: that line still runs. */
  lemma StopsOneLate(c: Config, n: nat) returns (s: State)
    requires c.opts.workers > 0 && c.opts.errorThreshold.Some?
    requires 0 < n <= |c.codes| && Room(c, n - 1) && !Room(c, n)
    ensures Reachable(s, c) && AboutToLeave(s, c, n)
  {
    s := AtHead(c, n - 1);
    s := Park(s, c);
    var i := SomeWaits(c, n - 1);
    s := FinishTask(s, i, c);
    s := Unpark(s, c);
  }

  lemma Leaving(c: Config, n: nat) returns (s: State)
    requires c.opts.workers > 0 && SequentialPrefix(c) <= n <= LastPossible(c)
    ensures Reachable(s, c) && AboutToLeave(s, c, n)
  {
    if Room(c, n) {
      s := StopsAtOnce(c, n);
    } else {
      RoomIff(c, n);
      RoomIff(c, n - 1);
      s := StopsOneLate(c, n);
    }
  }

  /** The remaining tasks run to their end. */
  lemma {:induction false} EndTasks(s: State, c: Config, n: nat, k: nat) returns (s': State)
    requires Reachable(s, c) && AboutToLeave(s, c, n) && k <= |s.pool.tasks|
    ensures Reachable(s', c) && AboutToLeave(s', c, n) && |s'.pool.tasks| == |s.pool.tasks|
    ensures forall i :: 0 <= i < k ==> s'.pool.tasks[i].phase == Ended(Completed)
    decreases k
  {
    s' := s;
    if k > 0 {
      s' := EndTasks(s, c, n, k - 1);
      if s'.pool.tasks[k - 1].phase.Running? { s' := FinishTask(s', k - 1, c); }
    }
  }

  /** Joining: every task has ended or is joined, and `n` lines were spawned. */
  predicate Collecting(s: State, n: nat) {
    && s.pc.Joining? && !s.interrupt && s.spawned == n == |s.pool.tasks|
    && forall i :: 0 <= i < n ==>
         s.pool.tasks[i].phase == Ended(Completed) || s.pool.tasks[i].phase == Joined(Completed)
  }

  lemma Leave(s: State, c: Config, n: nat) returns (s': State)
    requires Reachable(s, c) && AboutToLeave(s, c, n) && |s.pool.tasks| == n
    requires forall i :: 0 <= i < n ==> s.pool.tasks[i].phase == Ended(Completed)
    ensures Reachable(s', c) && Collecting(s', n) && s'.pool == s.pool
  {
    s' := Then(s, SpawnerStep, c);
    if n < |c.codes| {
      s' := Then(s', SpawnerStep, c);
      s' := Then(s', SpawnerStep, c);
    }
  }

  lemma JoinOne(s: State, c: Config, n: nat, i: nat) returns (s': State)
    requires Reachable(s, c) && Collecting(s, n) && i < n && s.pool.tasks[i].phase.Ended?
    ensures Reachable(s', c) && Collecting(s', n) && s'.pool.recorded == s.pool.recorded + [s.pool.tasks[i].code]
    ensures s'.pool.tasks == s.pool.tasks[i := s.pool.tasks[i].(phase := Joined(Completed))]
  {
    s' := Then(s, TaskStep(Join(i)), c);
  }

  lemma {:induction false} JoinRest(s: State, c: Config, n: nat, k: nat) returns (s': State)
    requires Reachable(s, c) && Collecting(s, n) && k <= n
    ensures Reachable(s', c) && Collecting(s', n) && s.pool.recorded <= s'.pool.recorded
    ensures forall i :: 0 <= i < k ==> s'.pool.tasks[i].phase.Joined?
    decreases k
  {
    s' := s;
    if k > 0 {
      s' := JoinRest(s, c, n, k - 1);
      if s'.pool.tasks[k - 1].phase.Ended? { s' := JoinOne(s', c, n, k - 1); }
    }
  }

  /** Every number in the range is the number of lines of some run, with any of them the first to be joined. */
  lemma SomeRun(c: Config, n: nat, first: nat) returns (s: State)
    requires c.opts.workers > 0 && SequentialPrefix(c) <= n <= LastPossible(c) && (n > 0 ==> first < n)
    ensures FinishedRun(s, c) && s.spawned == n == |s.pool.recorded|
    ensures n > 0 ==> s.pool.recorded[0] == c.codes[first]
  {
    s := Leaving(c, n);
    ReachableIsSound(s, c);
    s := EndTasks(s, c, n, n);
    s := Leave(s, c, n);
    if n > 0 {
      ReachableIsSound(s, c);
      s := JoinOne(s, c, n, first);
    }
    s := JoinRest(s, c, n, n);
    s := Then(s, SpawnerStep, c);
    FinishedAccounts(s, c);
  }

  /** The numbers of lines that undisturbed runs of a script spawn: all from the sequential one to the last possible. */
  lemma SpawnedIff(c: Config, n: nat)
    requires c.opts.workers > 0
    ensures (exists s :: FinishedRun(s, c) && s.spawned == n) <==> SequentialPrefix(c) <= n <= LastPossible(c)
  {
    forall s | FinishedRun(s, c) && s.spawned == n ensures SequentialPrefix(c) <= n <= LastPossible(c) {
      DispatchesAtLeastSequential(s, c);
      SpawnedAtMost(s, c);
    }
    if SequentialPrefix(c) <= n <= LastPossible(c) { var s := SomeRun(c, n, 0); }
  }

  /** Some run spawns a line after the threshold-th failure exactly when there is one left to spawn. */
  lemma OvershootsIff(c: Config)
    requires c.opts.workers > 0
    ensures (exists s :: FinishedRun(s, c) && s.spawned > SequentialPrefix(c)) <==> SequentialPrefix(c) < |c.codes|
  {
    var n := SequentialPrefix(c);
    if n < |c.codes| {
      LowerBoundTrips(c, n);
      FewestBeforeLimit(c);
      RoomIff(c, n);
      var s := SomeRun(c, n + 1, 0);
    }
    forall s | FinishedRun(s, c) && s.spawned > n ensures n < |c.codes| { SpawnedAtMost(s, c); }
  }

  /** Before its last line the sequential prefix is below the threshold. */
  lemma FewestBeforeLimit(c: Config)
    requires c.opts.errorThreshold.Some?
    ensures var n := SequentialPrefix(c); n > 0 ==> Bad(c, n - 1) < Limit(c.opts)
  {
    var n := SequentialPrefix(c);
    Seq.DispatchedIsTheStop(c.codes, iset{}, c.opts);
    if n > 0 {
      assert !ThresholdReached(c.codes[..n-1], c.opts);
      FoldPrefix(c.codes, n - 1, c.opts.continueOnWarning);
    }
  }

  // ---- Which exit codes ----

  /** Every schedule reports the same exit code. */
  ghost predicate CodeDetermined(c: Config) {
    forall s, s' :: FinishedRun(s, c) && FinishedRun(s', c) ==> s.pool.worst == s'.pool.worst
  }

  /** The lines past the sequential prefix add no severity, and one code stands for it. */
  ghost predicate OneVerdict(c: Config) {
    var fewest, most := c.codes[..SequentialPrefix(c)], c.codes[..LastPossible(c)];
    && SeverityRank(WorstOf(fewest)) == SeverityRank(WorstOf(most))
    && (SeverityRank(WorstOf(most)) != 1 || OneFailureCode(most))
  }

  /** What a run reports is the worst of the lines it spawned, in the order it joined them. */
  lemma ReportOf(s: State, c: Config)
    requires FinishedRun(s, c)
    ensures s.spawned <= |c.codes| && multiset(s.pool.recorded) == multiset(c.codes[..s.spawned])
    ensures s.pool.worst == WorstOf(s.pool.recorded)
    ensures SeverityRank(s.pool.worst) == SeverityRank(WorstOf(c.codes[..s.spawned]))
    ensures SeverityRank(s.pool.worst) != 1 ==> s.pool.worst == WorstOf(c.codes[..s.spawned])
    ensures s.pool.worst == 0 || s.pool.worst in c.codes[..s.spawned]
  {
    FinishedTallies(s, c);
    FinishedAccounts(s, c);
    CompletionOrderKeepsSeverity(s.pool.recorded, c.codes[..s.spawned]);
    SameMembers(s.pool.recorded, c.codes[..s.spawned]);
    WorstBounds(s.pool.recorded, 0);
  }

  lemma LongerPrefixNoMilder(codes: seq<ExitCode>, m: nat, n: nat)
    requires m <= n <= |codes|
    ensures SeverityRank(WorstOf(codes[..m])) <= SeverityRank(WorstOf(codes[..n]))
    ensures forall code :: code in codes[..m] ==> code in codes[..n]
  {
    forall code | code in codes[..m] ensures code in codes[..n] {
      var i :| 0 <= i < m && codes[..m][i] == code;
      assert codes[..n][i] == code;
    }
    MoreCodesNoMilder(codes[..m], codes[..n]);
  }

  /** Every run reports the severity of the longest one, and its code where that is the only failure. */
  lemma VerdictOf(s: State, c: Config)
    requires c.opts.workers > 0 && FinishedRun(s, c) && OneVerdict(c)
    ensures SeverityRank(s.pool.worst) == SeverityRank(WorstOf(c.codes[..LastPossible(c)]))
    ensures s.pool.worst == 0 || s.pool.worst in c.codes[..LastPossible(c)]
  {
    DispatchesAtLeastSequential(s, c);
    SpawnedAtMost(s, c);
    ReportOf(s, c);
    LongerPrefixNoMilder(c.codes, SequentialPrefix(c), s.spawned);
    LongerPrefixNoMilder(c.codes, s.spawned, LastPossible(c));
  }

  lemma OneVerdictDetermines(c: Config)
    requires c.opts.workers > 0 && OneVerdict(c)
    ensures CodeDetermined(c)
  {
    forall s, s' | FinishedRun(s, c) && FinishedRun(s', c) ensures s.pool.worst == s'.pool.worst {
      VerdictOf(s, c);
      VerdictOf(s', c);
    }
  }

  /** A code of the rank shared by 101, 130 and the like is reported by the run that joins it first. */
  lemma FirstJoinedReports(s: State, c: Config)
    requires FinishedRun(s, c) && s.pool.recorded != [] && s.pool.recorded[0] != 0
    requires s.spawned <= |c.codes| && SeverityRank(WorstOf(c.codes[..s.spawned])) == 1
    ensures s.pool.worst == s.pool.recorded[0]
  {
    ReportOf(s, c);
    SameMembers(s.pool.recorded, c.codes[..s.spawned]);
    forall k | 0 <= k < |s.pool.recorded| ensures SeverityRank(s.pool.recorded[k]) <= 1 {
      WorstBounds(s.pool.recorded, s.pool.recorded[k]);
    }
    WorstFrom(s.pool.recorded, 0);
  }

  lemma DeterminedHasOneVerdict(c: Config)
    requires c.opts.workers > 0 && CodeDetermined(c)
    ensures OneVerdict(c)
  {
    var m, n := SequentialPrefix(c), LastPossible(c);
    var most := c.codes[..n];
    RangeIsNotEmpty(c);
    var short := SomeRun(c, m, 0);
    var long := SomeRun(c, n, 0);
    ReportOf(short, c);
    ReportOf(long, c);
    if SeverityRank(WorstOf(most)) == 1 {
      forall a, b | a in most && b in most && a != 0 && b != 0 ensures a == b {
        var i :| 0 <= i < n && most[i] == a;
        var j :| 0 <= j < n && most[j] == b;
        var s := SomeRun(c, n, i);
        var s' := SomeRun(c, n, j);
        FirstJoinedReports(s, c);
        FirstJoinedReports(s', c);
      }
    }
  }

  lemma RangeIsNotEmpty(c: Config)
    requires c.opts.workers > 0
    ensures SequentialPrefix(c) <= LastPossible(c)
  {
    var n := SequentialPrefix(c);
    if c.opts.errorThreshold.Some? {
      FewestBeforeLimit(c);
      RoomIff(c, n);
    }
  }

  /**
   * Every schedule of a script reports the same exit code exactly when the lines that only some of
   * them run add no severity and, at the severity that 101, 130 and other odd codes share, one code
   * is all there is.
   */
  lemma ExitCodeDeterminedIff(c: Config)
    requires c.opts.workers > 0
    ensures CodeDetermined(c) <==> OneVerdict(c)
  {
    if OneVerdict(c) { OneVerdictDetermines(c); }
    if CodeDetermined(c) { DeterminedHasOneVerdict(c); }
  }

  /** Without a threshold that is the condition on the order of the script's codes alone. */
  lemma NoThresholdDeterminedIff(c: Config)
    requires c.opts.workers > 0 && c.opts.errorThreshold.None?
    ensures CodeDetermined(c) <==> OrderFree(c.codes)
  {
    Seq.NoThresholdRunsAll(c.codes, c.opts);
    assert c.codes[..|c.codes|] == c.codes;
    ExitCodeDeterminedIff(c);
    ExitCodeOrderFreeIff(c.codes);
  }

  /** Two failures, the first of an odd code, under the default threshold and two workers. */
  const PANIC_THEN_ERROR := Config([101, 0, 0, 1], ExecutorOptions(2, Some(1), false))

  lemma PanicThenErrorRange()
    ensures SequentialPrefix(PANIC_THEN_ERROR) == 1 && LastPossible(PANIC_THEN_ERROR) == 4
  {
    var c := PANIC_THEN_ERROR;
    assert Bad(c, 0) == 0 && Bad(c, 1) == 1 && Bad(c, 2) == 1 && Bad(c, 3) == 1;
    RoomIff(c, 4);
    FewestBeforeLimit(c);
    var n := SequentialPrefix(c);
    if n < 4 { LowerBoundTrips(c, n); }
  }

  lemma PanicThenErrorWorst()
    ensures WorstOf(PANIC_THEN_ERROR.codes[..1]) == 101 && WorstOf(PANIC_THEN_ERROR.codes[..4]) == 1
  {
    WorstFrom(PANIC_THEN_ERROR.codes[..1], 0);
    WorstFrom(PANIC_THEN_ERROR.codes[..4], 3);
  }

  /** Its runs report 101 or 1, by schedule, although its four codes give 1 in any order. */
  lemma ThresholdLetsTheCodeVary() returns (s: State, s': State)
    ensures FinishedRun(s, PANIC_THEN_ERROR) && FinishedRun(s', PANIC_THEN_ERROR)
    ensures s.pool.worst == 101 && s'.pool.worst == 1 && OrderFree(PANIC_THEN_ERROR.codes)
  {
    var c := PANIC_THEN_ERROR;
    PanicThenErrorRange();
    PanicThenErrorWorst();
    s := SomeRun(c, 1, 0);
    s' := SomeRun(c, 4, 0);
    ReportOf(s, c);
    ReportOf(s', c);
    FirstJoinedReports(s, c);
    assert c.codes[..4] == c.codes;
    ExitCodeOrderFreeIff(c.codes);
  }

  // ---- The overshoot bound is met ----

  /** A script of failing lines, as many as the bound, under `--max-errors t` with `w` workers. */
  function AllFailing(t: nat, w: nat): Config {
    Config(seq(t + w, _ => 1), ExecutorOptions(w, ErrorThreshold(false, Some(t)), false))
  }

  lemma {:induction false} AllBad(t: nat, w: nat, n: nat)
    requires n <= t + w
    ensures Bad(AllFailing(t, w), n) == n
  {
    if n > 0 { AllBad(t, w, n - 1); }
  }

  /** For every threshold and every number of workers some run takes the overshoot to its bound. */
  lemma OvershootIsMet(t: nat, w: nat) returns (s: State)
    requires t > 0 && w > 0
    ensures FinishedRun(s, AllFailing(t, w)) && s.pool.failCancel
    ensures s.spawned == |s.pool.tasks| == t + w
    ensures CountAll(s.pool.tasks, StopWorthyRun, AllFailing(t, w).opts)
            == Limit(AllFailing(t, w).opts) + AllFailing(t, w).opts.workers == t + w
  {
    var c := AllFailing(t, w);
    AllFailingRange(t, w);
    s := SomeRun(c, t + w, 0);
    ReachableIsSound(s, c);
    AllBad(t, w, t + w);
    RunIsStopWorthy(s, c);
    if !s.pool.failCancel { RunBeforeCancel(s.pool, c.opts); }
  }

  lemma AllFailingRange(t: nat, w: nat)
    requires t > 0 && w > 0
    ensures SequentialPrefix(AllFailing(t, w)) <= LastPossible(AllFailing(t, w)) == t + w
  {
    var c := AllFailing(t, w);
    AllBad(t, w, t + w - 2);
    RoomIff(c, t + w - 1);
    RangeIsNotEmpty(c);
  }
}
