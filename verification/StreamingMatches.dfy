/**
 * The streaming executor and the read-all executor with several workers, uninterrupted: each run of
 * one is matched, step for step, by a run of the other that ends with the same tasks, counters,
 * join order and exit code.
 */
module StreamingMatches {
  import opened Basics
  import opened ExitCodes
  import opened Lines
  import opened WorkerPool
  import opened SpawnRange
  import Par = ParallelExecutor
  import Str = StreamingExecutor

  /** Read-all mode on the lines of the streamed script. */
  function ReadAllConfig(c: Str.Config): Par.Config { Par.Config(Str.AllCodes(c), c.opts) }

  /** The pools agree; until the end streaming has counted skipped what it dropped, read-all nothing. */
  predicate PoolsMatch(p: Par.State, s: Str.State) {
    && !p.interrupt && !s.interrupt && p.spawned == |s.pool.tasks|
    && s.pool == p.pool.(summary := if s.pc.Done? then p.pool.summary else AddSkipped(p.pool.summary, |s.dropped|))
  }

  lemma WorkMatches(p: Pool, w: WorkAction, n: nat, opts: ExecutorOptions)
    requires CanWork(p, w)
    ensures var q := p.(summary := AddSkipped(p.summary, n));
            && CanWork(q, w)
            && Work(q, w, opts) == Work(p, w, opts).(summary := AddSkipped(Work(p, w, opts).summary, n))
  {
  }

  lemma ThenTask(p: Par.State, s: Str.State, w: WorkAction, c: Str.Config) returns (p': Par.State)
    requires Par.Reachable(p, ReadAllConfig(c)) && PoolsMatch(p, s)
    requires Str.Enabled(s, Str.TaskStep(w)) && (s.pc.Joining? ==> p.pc.Joining?)
    ensures Par.Reachable(p', ReadAllConfig(c)) && p'.pc == p.pc && PoolsMatch(p', Str.Step(s, Str.TaskStep(w), c))
  {
    TaskStepFacts(s.pool, w, c.opts);
    WorkMatches(p.pool, w, |s.dropped|, c.opts);
    p' := Par.Then(p, Par.TaskStep(w), ReadAllConfig(c));
  }

  // ---- A streaming run as a read-all run ----

  /**
   * Read-all stays at the head of its loop until streaming has passed the fail check, and takes the
   * next line then, if the script has one.
   */
  predicate PointsMatch(p: Par.State, s: Str.State, c: Str.Config) {
    var n := |s.pool.tasks|;
    match s.pc
    case AtInterruptCheck => p.pc.LoopHead?
    case AtFailCheck => p.pc.LoopHead?
    case AtRecv => if n < |Str.AllCodes(c)| then p.pc == Par.AtAcquire(n) else p.pc.LoopHead?
    case AtAcquire(_) => p.pc == Par.AtAcquire(n)
    case AtRecheck(_) => p.pc == Par.AtRecheck(n)
    case AtSpawn(_) => p.pc == Par.AtSpawn(n)
    case Draining => p.pc.Joining?
    case Joining => p.pc.Joining?
    case Done => p.pc.Done?
  }

  ghost predicate Matched(p: Par.State, s: Str.State, c: Str.Config) {
    Par.Reachable(p, ReadAllConfig(c)) && PoolsMatch(p, s) && PointsMatch(p, s, c)
  }

  ghost predicate Follows(p: Par.State, s: Str.State, c: Str.Config) {
    Str.Reachable(s, c) && Matched(p, s, c)
  }

  lemma FollowFailCheck(p: Par.State, s: Str.State, c: Str.Config) returns (p': Par.State)
    requires Follows(p, s, c) && s.pc.AtFailCheck?
    ensures Matched(p', Str.SpawnerNext(s), c)
  {
    Str.ReachableIsSound(s, c);
    Par.ReachableIsSound(p, ReadAllConfig(c));
    p' := p;
    if |s.pool.tasks| < |Str.AllCodes(c)| {
      p' := Par.Then(p', Par.SpawnerStep, ReadAllConfig(c));
      p' := Par.Then(p', Par.SpawnerStep, ReadAllConfig(c));
      p' := Par.Then(p', Par.SpawnerStep, ReadAllConfig(c));
    } else if s.pool.failCancel {
      p' := Par.Then(p', Par.SpawnerStep, ReadAllConfig(c));
    }
  }

  /** An empty channel means the end of the script to a reader that no signal stopped. */
  lemma FollowRecv(p: Par.State, s: Str.State, c: Str.Config) returns (p': Par.State)
    requires Follows(p, s, c) && s.pc.AtRecv? && Str.Enabled(s, Str.SpawnerStep)
    ensures Matched(p', Str.SpawnerNext(s), c)
  {
    Str.ReachableIsSound(s, c);
    Par.ReachableIsSound(p, ReadAllConfig(c));
    p' := p;
    if s.queue == [] {
      p' := Par.Then(p, Par.SpawnerStep, ReadAllConfig(c));
    }
  }

  /** With a line in hand the two loops move together. */
  lemma FollowLine(p: Par.State, s: Str.State, c: Str.Config) returns (p': Par.State)
    requires Follows(p, s, c) && Str.LineInHand(s.pc) && Str.Enabled(s, Str.SpawnerStep)
    ensures Matched(p', Str.SpawnerNext(s), c)
  {
    Str.ReachableIsSound(s, c);
    p' := Par.Then(p, Par.SpawnerStep, ReadAllConfig(c));
  }

  /** What streaming drained one by one, read-all counts skipped in one go. */
  lemma FollowEnd(p: Par.State, s: Str.State, c: Str.Config) returns (p': Par.State)
    requires Follows(p, s, c) && s.pc.Joining? && Str.Enabled(s, Str.SpawnerStep)
    ensures Matched(p', Str.SpawnerNext(s), c)
  {
    Str.ReachableIsSound(s, c);
    p' := Par.Then(p, Par.SpawnerStep, ReadAllConfig(c));
  }

  lemma FollowSpawner(p: Par.State, s: Str.State, c: Str.Config) returns (p': Par.State)
    requires Follows(p, s, c) && Str.Enabled(s, Str.SpawnerStep)
    ensures Matched(p', Str.SpawnerNext(s), c)
  {
    match s.pc
    case AtInterruptCheck => p' := p;
    case AtFailCheck => p' := FollowFailCheck(p, s, c);
    case AtRecv => p' := FollowRecv(p, s, c);
    case Draining => p' := p;
    case Joining => p' := FollowEnd(p, s, c);
    case _ => p' := FollowLine(p, s, c);
  }

  /** The reader moves alone, and is gone before the end. */
  lemma FollowReader(p: Par.State, s: Str.State, c: Str.Config)
    requires Follows(p, s, c) && s.reader.Reading?
    ensures Matched(p, Str.ReaderNext(s, c), c)
  {
    Str.ReachableIsSound(s, c);
    assert Str.ReaderNext(s, c).pool == s.pool && Str.ReaderNext(s, c).pc == s.pc;
  }

  lemma FollowStep(p: Par.State, s: Str.State, a: Str.Action, c: Str.Config) returns (p': Par.State)
    requires Follows(p, s, c) && Str.Enabled(s, a) && !Str.Step(s, a, c).interrupt
    ensures Follows(p', Str.Step(s, a, c), c)
  {
    var s' := Str.Then(s, a, c);
    match a
    case SpawnerStep => p' := FollowSpawner(p, s, c);
    case TaskStep(w) => p' := ThenTask(p, s, w, c);
    case ReaderStep =>
      p' := p;
      FollowReader(p, s, c);
    case _ => p' := p;
  }

  lemma {:induction false} FollowRun(p: Par.State, s: Str.State, schedule: seq<Str.Action>, c: Str.Config)
    returns (p': Par.State)
    requires Follows(p, s, c) && Str.Exec(s, schedule, c).Some? && !Str.Exec(s, schedule, c).value.interrupt
    ensures Follows(p', Str.Exec(s, schedule, c).value, c)
    decreases |schedule|
  {
    if schedule == [] {
      p' := p;
    } else {
      var s' := Str.Step(s, schedule[0], c);
      if s'.interrupt { Str.AfterInterruptNoSpawn(s', schedule[1..], c); }
      p' := FollowStep(p, s, schedule[0], c);
      p' := FollowRun(p', s', schedule[1..], c);
    }
  }

  /** Whatever the reader's pace, an uninterrupted streaming run ends as some read-all run does. */
  lemma StreamingAsReadAll(s: Str.State, c: Str.Config) returns (p: Par.State)
    requires Str.Reachable(s, c) && s.pc.Done? && !s.interrupt
    ensures Par.Reachable(p, ReadAllConfig(c)) && p.pc.Done? && !p.interrupt && p.pool == s.pool
    ensures p.spawned == |s.pool.tasks|
  {
    var schedule :| Str.Exec(Str.Init(c), schedule, c) == Some(s);
    p := Par.Init(ReadAllConfig(c));
    assert Par.Exec(p, [], ReadAllConfig(c)) == Some(p);
    assert Str.Exec(Str.Init(c), [], c) == Some(Str.Init(c));
    p := FollowRun(p, Str.Init(c), schedule, c);
  }

  // ---- A read-all run as a streaming run ----

  /** The reader runs first, to the end of the script. */
  lemma {:induction false} ReadFirst(c: Str.Config, n: nat) returns (s: Str.State)
    requires n <= |c.script|
    ensures Str.Reachable(s, c) && s.read == n && s.reader.Reading?
    ensures s.pc.AtInterruptCheck? && !s.interrupt && s.dropped == [] && s.pool == NewPool(c.opts.workers)
    decreases n
  {
    if n == 0 {
      s := Str.Init(c);
      assert Str.Exec(s, [], c) == Some(s);
    } else {
      s := ReadFirst(c, n - 1);
      Str.ReachableIsSound(s, c);
      s := Str.Then(s, Str.ReaderStep, c);
    }
  }

  /** Streaming stays before its checks while read-all takes a line, and drains when read-all leaves its loop. */
  predicate PointsMatchBack(p: Par.State, s: Str.State) {
    match p.pc
    case LoopHead => s.pc.AtInterruptCheck?
    case AtInterruptCheck(_) => s.pc.AtInterruptCheck?
    case AtFailCheck(_) => s.pc.AtFailCheck?
    case AtAcquire(_) => s.pc.AtAcquire?
    case AtRecheck(_) => s.pc.AtRecheck?
    case AtSpawn(_) => s.pc.AtSpawn?
    case Joining => s.pc.Joining?
    case Done => s.pc.Done?
  }

  ghost predicate MatchedBack(p: Par.State, s: Str.State, c: Str.Config) {
    Str.Reachable(s, c) && !s.reader.Reading? && PoolsMatch(p, s) && PointsMatchBack(p, s)
  }

  ghost predicate Leads(p: Par.State, s: Str.State, c: Str.Config) {
    && Par.Reachable(p, ReadAllConfig(c)) && Str.Reachable(s, c)
    && !s.reader.Reading? && PoolsMatch(p, s)
  }

  lemma {:induction false} Drain(p: Par.State, s: Str.State, c: Str.Config) returns (s': Str.State)
    requires Leads(p, s, c) && s.pc.Draining?
    ensures Leads(p, s', c) && s'.pc.Joining?
    decreases |s.queue|
  {
    s' := Str.Then(s, Str.SpawnerStep, c);
    if s.queue != [] { s' := Drain(p, s', c); }
  }

  /** One check of an uninterrupted run. */
  lemma LeadCheck(p: Par.State, s: Str.State, c: Str.Config) returns (s': Str.State)
    requires Leads(p, s, c) && (s.pc.AtInterruptCheck? || s.pc.AtFailCheck?)
    ensures Leads(p, s', c) && s'.pool == s.pool && s'.queue == s.queue
    ensures s.pc.AtInterruptCheck? ==> s'.pc.AtFailCheck?
    ensures s.pc.AtFailCheck? ==> if s.pool.failCancel then s'.pc.Draining? else s'.pc.AtRecv?
  {
    s' := Str.Then(s, Str.SpawnerStep, c);
  }

  lemma LeadRecv(p: Par.State, s: Str.State, c: Str.Config) returns (s': Str.State)
    requires Leads(p, s, c) && s.pc.AtRecv?
    ensures Leads(p, s', c) && s'.pool == s.pool
    ensures if s.queue == [] then s'.pc.Draining? else s'.pc.AtAcquire?
  {
    s' := Str.Then(s, Str.SpawnerStep, c);
  }

  /** Before a line is taken the channel holds the lines of the script that no task has. */
  lemma QueueHoldsRest(p: Par.State, s: Str.State, c: Str.Config)
    requires Leads(p, s, c) && (s.pc.AtInterruptCheck? || s.pc.AtFailCheck? || s.pc.AtRecv?)
    ensures |s.queue| + |s.pool.tasks| == |Str.AllCodes(c)|
  {
    Str.ReachableIsSound(s, c);
  }

  /** From the head of the loop streaming finds the script used up, or the flag raised. */
  lemma LeadOut(p: Par.State, s: Str.State, c: Str.Config) returns (s': Str.State)
    requires Leads(p, s, c) && s.pc.AtInterruptCheck?
    requires s.pool.failCancel || |s.pool.tasks| == |Str.AllCodes(c)|
    ensures Leads(p, s', c) && s'.pc.Joining?
  {
    QueueHoldsRest(p, s, c);
    s' := LeadCheck(p, s, c);
    s' := LeadCheck(p, s', c);
    if s'.pc.AtRecv? { s' := LeadRecv(p, s', c); }
    s' := Drain(p, s', c);
  }

  lemma LeadFailCheck(p: Par.State, s: Str.State, c: Str.Config) returns (s': Str.State)
    requires Leads(p, s, c) && p.pc.AtFailCheck? && s.pc.AtFailCheck?
    ensures MatchedBack(Par.SpawnerNext(p, ReadAllConfig(c)), s', c)
  {
    Par.ReachableIsSound(p, ReadAllConfig(c));
    QueueHoldsRest(p, s, c);
    s' := LeadCheck(p, s, c);
    if s'.pc.AtRecv? { s' := LeadRecv(p, s', c); } else { s' := Drain(p, s', c); }
  }

  lemma LeadTogether(p: Par.State, s: Str.State, c: Str.Config) returns (s': Str.State)
    requires Leads(p, s, c) && PointsMatchBack(p, s) && Par.Enabled(p, Par.SpawnerStep)
    requires !p.pc.LoopHead? && !p.pc.AtFailCheck?
    ensures MatchedBack(Par.SpawnerNext(p, ReadAllConfig(c)), s', c)
  {
    Str.ReachableIsSound(s, c);
    Par.ReachableIsSound(p, ReadAllConfig(c));
    s' := Str.Then(s, Str.SpawnerStep, c);
  }

  lemma LeadSpawner(p: Par.State, s: Str.State, c: Str.Config) returns (s': Str.State)
    requires Leads(p, s, c) && PointsMatchBack(p, s) && Par.Enabled(p, Par.SpawnerStep)
    ensures MatchedBack(Par.SpawnerNext(p, ReadAllConfig(c)), s', c)
  {
    Par.ReachableIsSound(p, ReadAllConfig(c));
    match p.pc
    case LoopHead => if p.next < |Str.AllCodes(c)| { s' := s; } else { s' := LeadOut(p, s, c); }
    case AtFailCheck(_) => s' := LeadFailCheck(p, s, c);
    case _ => s' := LeadTogether(p, s, c);
  }

  lemma LeadTask(p: Par.State, s: Str.State, w: WorkAction, c: Str.Config) returns (s': Str.State)
    requires Leads(p, s, c) && PointsMatchBack(p, s) && Par.Enabled(p, Par.TaskStep(w))
    ensures MatchedBack(Par.Step(p, Par.TaskStep(w), ReadAllConfig(c)), s', c)
  {
    TaskStepFacts(p.pool, w, c.opts);
    WorkMatches(p.pool, w, |s.dropped|, c.opts);
    s' := Str.Then(s, Str.TaskStep(w), c);
  }

  lemma LeadStep(p: Par.State, s: Str.State, a: Par.Action, c: Str.Config) returns (s': Str.State)
    requires Leads(p, s, c) && PointsMatchBack(p, s)
    requires Par.Enabled(p, a) && !Par.Step(p, a, ReadAllConfig(c)).interrupt
    ensures var p' := Par.Step(p, a, ReadAllConfig(c)); Leads(p', s', c) && PointsMatchBack(p', s')
  {
    var p' := Par.Then(p, a, ReadAllConfig(c));
    match a
    case SpawnerStep => s' := LeadSpawner(p, s, c);
    case TaskStep(w) => s' := LeadTask(p, s, w, c);
    case Sigint => s' := s;
  }

  lemma {:induction false} LeadRun(p: Par.State, s: Str.State, schedule: seq<Par.Action>, c: Str.Config)
    returns (s': Str.State)
    requires Leads(p, s, c) && PointsMatchBack(p, s)
    requires Par.Exec(p, schedule, ReadAllConfig(c)).Some?
    requires !Par.Exec(p, schedule, ReadAllConfig(c)).value.interrupt
    ensures var p' := Par.Exec(p, schedule, ReadAllConfig(c)).value; Leads(p', s', c) && PointsMatchBack(p', s')
    decreases |schedule|
  {
    if schedule == [] {
      s' := s;
    } else {
      var p' := Par.Step(p, schedule[0], ReadAllConfig(c));
      if p'.interrupt { Par.AfterInterruptNoSpawn(p', schedule[1..], ReadAllConfig(c)); }
      s' := LeadStep(p, s, schedule[0], c);
      s' := LeadRun(p', s', schedule[1..], c);
    }
  }

  /** Every uninterrupted read-all run ends as some streaming run of the same script does. */
  lemma ReadAllAsStreaming(p: Par.State, c: Str.Config) returns (s: Str.State)
    requires Par.Reachable(p, ReadAllConfig(c)) && p.pc.Done? && !p.interrupt
    ensures Str.Reachable(s, c) && s.pc.Done? && !s.interrupt && s.pool == p.pool
  {
    var schedule :| Par.Exec(Par.Init(ReadAllConfig(c)), schedule, ReadAllConfig(c)) == Some(p);
    s := ReadFirst(c, |c.script|);
    s := Str.Then(s, Str.ReaderStep, c);
    var start := Par.Init(ReadAllConfig(c));
    assert Par.Exec(start, [], ReadAllConfig(c)) == Some(start);
    s := LeadRun(start, s, schedule, c);
  }

  // ---- What that gives for streaming ----

  ghost predicate FinishedStream(s: Str.State, c: Str.Config) {
    Str.Reachable(s, c) && s.pc.Done? && !s.interrupt && NoneDied(s.pool)
  }

  /** The numbers of lines that uninterrupted streaming runs of a script spawn are those of read-all mode. */
  lemma StreamSpawnedIff(c: Str.Config, n: nat)
    requires c.opts.workers > 0
    ensures (exists s :: FinishedStream(s, c) && |s.pool.tasks| == n)
            <==> Par.SequentialPrefix(ReadAllConfig(c)) <= n <= LastPossible(ReadAllConfig(c))
  {
    forall s | FinishedStream(s, c) && |s.pool.tasks| == n
      ensures Par.SequentialPrefix(ReadAllConfig(c)) <= n <= LastPossible(ReadAllConfig(c))
    {
      var p := StreamingAsReadAll(s, c);
      assert FinishedRun(p, ReadAllConfig(c)) && p.spawned == n;
      SpawnedIff(ReadAllConfig(c), n);
    }
    if Par.SequentialPrefix(ReadAllConfig(c)) <= n <= LastPossible(ReadAllConfig(c)) {
      var p := SomeRun(ReadAllConfig(c), n, 0);
      Par.ReachableIsSound(p, ReadAllConfig(c));
      var s := ReadAllAsStreaming(p, c);
      assert FinishedStream(s, c) && |s.pool.tasks| == n;
    }
  }

  ghost predicate StreamCodeDetermined(c: Str.Config) {
    forall s, s' :: FinishedStream(s, c) && FinishedStream(s', c) ==> s.pool.worst == s'.pool.worst
  }

  /** Every streaming schedule reports the same worst code under the condition of read-all mode. */
  lemma StreamCodeDeterminedIff(c: Str.Config)
    requires c.opts.workers > 0
    ensures StreamCodeDetermined(c) <==> OneVerdict(ReadAllConfig(c))
  {
    var d := ReadAllConfig(c);
    ExitCodeDeterminedIff(d);
    if CodeDetermined(d) {
      forall s, s' | FinishedStream(s, c) && FinishedStream(s', c) ensures s.pool.worst == s'.pool.worst {
        var p := StreamingAsReadAll(s, c);
        var p' := StreamingAsReadAll(s', c);
        assert FinishedRun(p, d) && FinishedRun(p', d);
      }
    }
    if StreamCodeDetermined(c) {
      forall p, p' | FinishedRun(p, d) && FinishedRun(p', d) ensures p.pool.worst == p'.pool.worst {
        var s := ReadAllAsStreaming(p, c);
        var s' := ReadAllAsStreaming(p', c);
        assert FinishedStream(s, c) && FinishedStream(s', c);
      }
    }
  }
}
