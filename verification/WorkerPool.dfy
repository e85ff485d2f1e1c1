/**
 * The part the two parallel executors share: spawned tasks, the permits they hold, the failure
 * counter and cancel flag they set, the progress counters they tick, and the join results.
 * Every atomic step of a task is one action; any interleaving of actions is a run.
 */
module WorkerPool {
  import opened Basics
  import opened ExitCodes
  import opened Lines

  /**
   * Where a task stands: executing its line, holding its exit code, past `fetch_add` with the
   * count it got back, waiting to tick, ticked with the permit still held, ended, or joined.
   * A task may die outside the caught dispatch: before it has its code, or at its tick.
   */
  datatype Phase =
    | Running
    | Returned
    | Counted(ticket: nat)
    | Ticking
    | Releasing
    | Ended(fate: Fate)
    | Joined(fate: Fate)

  datatype Fate = Completed | DiedRunning | DiedTicking

  /** `code` is what running the line yields; it plays no role before `Returned`. */
  datatype Task = Task(line: nat, code: ExitCode, phase: Phase)

  /** `ticks`/`ticked` and `order`/`recorded` are the histories behind the two sets of counters. */
  datatype Pool = Pool(
    permits: nat,
    failCount: nat,
    failCancel: bool,
    tasks: seq<Task>,
    progress: Counts,
    ticks: seq<nat>,
    ticked: seq<ExitCode>,
    summary: Counts,
    worst: ExitCode,
    order: seq<nat>,
    recorded: seq<ExitCode>)

  function NewPool(workers: nat): Pool {
    Pool(workers, 0, false, [], NO_COUNTS, [], [], NO_COUNTS, 0, [], [])
  }

  datatype WorkAction = Advance(task: nat) | Crash(task: nat) | Join(task: nat)

  predicate CanWork(p: Pool, a: WorkAction) {
    && a.task < |p.tasks|
    && var phase := p.tasks[a.task].phase;
       match a
       case Advance(_) => !phase.Ended? && !phase.Joined?
       case Crash(_) => phase.Running? || phase.Ticking?
       case Join(_) => phase.Ended?
  }

  function SetPhase(p: Pool, i: nat, phase: Phase): Pool
    requires i < |p.tasks|
  {
    p.(tasks := p.tasks[i := p.tasks[i].(phase := phase)])
  }

  /** A task that died is recorded as exit 1. */
  function RecordedCode(code: ExitCode, fate: Fate): ExitCode { if fate.Completed? then code else 1 }

  /** The exit code is in hand; a stop-worthy one is added to the failure count. */
  function Classify(p: Pool, i: nat, opts: ExecutorOptions): Pool
    requires i < |p.tasks|
  {
    if IsStopWorthy(p.tasks[i].code, opts.continueOnWarning)
    then SetPhase(p, i, Counted(p.failCount + 1)).(failCount := p.failCount + 1)
    else SetPhase(p, i, Ticking)
  }

  /** The count that came back is compared with the threshold. */
  function CompareCount(p: Pool, i: nat, ticket: nat, opts: ExecutorOptions): Pool
    requires i < |p.tasks|
  {
    var trip := opts.errorThreshold.Some? && ticket >= opts.errorThreshold.value;
    SetPhase(p, i, Ticking).(failCancel := p.failCancel || trip)
  }

  function Tick(p: Pool, i: nat): Pool
    requires i < |p.tasks|
  {
    var code := p.tasks[i].code;
    SetPhase(p, i, Releasing).(progress := Bump(p.progress, code), ticks := p.ticks + [i], ticked := p.ticked + [code])
  }

  /** The task is over and its permit goes back. */
  function End(p: Pool, i: nat, fate: Fate): Pool
    requires i < |p.tasks|
  {
    SetPhase(p, i, Ended(fate)).(permits := p.permits + 1)
  }

  function JoinTask(p: Pool, i: nat, fate: Fate): Pool
    requires i < |p.tasks|
  {
    var code := RecordedCode(p.tasks[i].code, fate);
    SetPhase(p, i, Joined(fate)).(
      summary := Bump(p.summary, code), worst := WorseOf(p.worst, code),
      order := p.order + [i], recorded := p.recorded + [code])
  }

  function Work(p: Pool, a: WorkAction, opts: ExecutorOptions): Pool
    requires CanWork(p, a)
  {
    match a
    case Crash(i) => End(p, i, if p.tasks[i].phase.Running? then DiedRunning else DiedTicking)
    case Join(i) => JoinTask(p, i, p.tasks[i].phase.fate)
    case Advance(i) =>
      match p.tasks[i].phase {
        case Running => SetPhase(p, i, Phase.Returned)
        case Returned => Classify(p, i, opts)
        case Counted(ticket) => CompareCount(p, i, ticket, opts)
        case Ticking => Tick(p, i)
        case _ => End(p, i, Completed)
      }
  }

  /** The spawner hands the permit it acquired to a new task. */
  function Spawn(p: Pool, line: nat, code: ExitCode): Pool {
    p.(tasks := p.tasks + [Task(line, code, Running)])
  }

  predicate AllJoined(p: Pool) {
    forall i :: 0 <= i < |p.tasks| ==> p.tasks[i].phase.Joined?
  }

  predicate NoneDied(p: Pool) {
    forall i :: 0 <= i < |p.tasks| ==>
      var phase := p.tasks[i].phase; phase.Ended? || phase.Joined? ==> phase.fate.Completed?
  }

  // ---- Counting tasks ----

  datatype Kind = Holding | Tallied | Past | AtCount | LateAtCount(limit: nat) | StopWorthy | StopWorthyRun

  /** Only a task that dies before it has its code never reaches the failure counter. */
  predicate ReachesCounter(t: Task) { t.phase != Ended(DiedRunning) && t.phase != Joined(DiedRunning) }

  predicate Is(t: Task, kind: Kind, opts: ExecutorOptions) {
    var bad := IsStopWorthy(t.code, opts.continueOnWarning);
    match kind
    case Holding => !t.phase.Ended? && !t.phase.Joined?
    case Tallied => bad && !t.phase.Running? && !t.phase.Returned?
    case Past =>
      bad && (t.phase.Ticking? || t.phase.Releasing? || t.phase.Ended? || t.phase.Joined?) && ReachesCounter(t)
    case AtCount => t.phase.Counted?
    case LateAtCount(limit) => t.phase.Counted? && t.phase.ticket >= limit
    case StopWorthy => bad
    case StopWorthyRun => bad && ReachesCounter(t)
  }

  function One(t: Task, kind: Kind, opts: ExecutorOptions): nat { if Is(t, kind, opts) then 1 else 0 }

  /** How many of the first `n` tasks are of a kind. */
  function Count(tasks: seq<Task>, n: nat, kind: Kind, opts: ExecutorOptions): nat
    requires n <= |tasks|
  {
    if n == 0 then 0 else Count(tasks, n - 1, kind, opts) + One(tasks[n - 1], kind, opts)
  }

  function CountAll(tasks: seq<Task>, kind: Kind, opts: ExecutorOptions): nat {
    Count(tasks, |tasks|, kind, opts)
  }

  lemma {:induction false} CountSame(a: seq<Task>, b: seq<Task>, n: nat, kind: Kind, opts: ExecutorOptions)
    requires n <= |a| && n <= |b| && forall k :: 0 <= k < n ==> a[k] == b[k]
    ensures Count(a, n, kind, opts) == Count(b, n, kind, opts)
  {
    if n > 0 { CountSame(a, b, n - 1, kind, opts); }
  }

  lemma {:induction false} CountUpdate(tasks: seq<Task>, n: nat, i: nat, t: Task, kind: Kind, opts: ExecutorOptions)
    requires i < n <= |tasks|
    ensures Count(tasks[i := t], n, kind, opts) + One(tasks[i], kind, opts)
            == Count(tasks, n, kind, opts) + One(t, kind, opts)
  {
    if n - 1 == i {
      CountSame(tasks[i := t], tasks, i, kind, opts);
    } else {
      CountUpdate(tasks, n - 1, i, t, kind, opts);
    }
  }

  lemma CountSnoc(tasks: seq<Task>, t: Task, kind: Kind, opts: ExecutorOptions)
    ensures CountAll(tasks + [t], kind, opts) == CountAll(tasks, kind, opts) + One(t, kind, opts)
  {
    CountSame(tasks + [t], tasks, |tasks|, kind, opts);
  }

  /** If every task of kind `a` is of kind `b` or `c`, there are no more of `a` than of the two together. */
  lemma {:induction false} CountCover(tasks: seq<Task>, n: nat, a: Kind, b: Kind, c: Kind, opts: ExecutorOptions)
    requires n <= |tasks|
    requires forall k :: 0 <= k < n && Is(tasks[k], a, opts) ==> Is(tasks[k], b, opts) || Is(tasks[k], c, opts)
    ensures Count(tasks, n, a, opts) <= Count(tasks, n, b, opts) + Count(tasks, n, c, opts)
  {
    if n > 0 { CountCover(tasks, n - 1, a, b, c, opts); }
  }

  lemma {:induction false} CountWithin(tasks: seq<Task>, n: nat, a: Kind, b: Kind, opts: ExecutorOptions)
    requires n <= |tasks|
    requires forall k :: 0 <= k < n && Is(tasks[k], a, opts) ==> Is(tasks[k], b, opts)
    ensures Count(tasks, n, a, opts) <= Count(tasks, n, b, opts)
  {
    if n > 0 { CountWithin(tasks, n - 1, a, b, opts); }
  }

  lemma {:induction false} CountNone(tasks: seq<Task>, n: nat, kind: Kind, opts: ExecutorOptions)
    requires n <= |tasks| && Count(tasks, n, kind, opts) == 0
    ensures forall k :: 0 <= k < n ==> !Is(tasks[k], kind, opts)
  {
    if n > 0 { CountNone(tasks, n - 1, kind, opts); }
  }

  // ---- Permits ----

  /** No permit is lost or minted: free ones, those of live tasks and the spawner's make up the workers. */
  predicate PermitsBalance(p: Pool, held: nat, opts: ExecutorOptions) {
    p.permits + CountAll(p.tasks, Holding, opts) + held == opts.workers
  }

  lemma PermitsKept(p: Pool, a: WorkAction, held: nat, opts: ExecutorOptions)
    requires CanWork(p, a) && PermitsBalance(p, held, opts)
    ensures PermitsBalance(Work(p, a, opts), held, opts)
  {
    CountUpdate(p.tasks, |p.tasks|, a.task, Work(p, a, opts).tasks[a.task], Holding, opts);
  }

  // ---- Failure counter and cancel flag ----

  /** A task at its comparison holds a count already issued, for a stop-worthy code. */
  predicate TicketIssued(t: Task, failCount: nat, opts: ExecutorOptions) {
    t.phase.Counted? ==> 1 <= t.phase.ticket <= failCount && IsStopWorthy(t.code, opts.continueOnWarning)
  }

  predicate TicketsSound(p: Pool, opts: ExecutorOptions) {
    && (forall i :: 0 <= i < |p.tasks| ==> TicketIssued(p.tasks[i], p.failCount, opts))
    && p.failCount <= CountAll(p.tasks, Tallied, opts)
    && CountAll(p.tasks, Past, opts) + CountAll(p.tasks, AtCount, opts) <= p.failCount
    && (p.failCancel ==> Tripped(p.failCount, opts))
    && (opts.errorThreshold.Some? && !p.failCancel ==>
          p.failCount < Limit(opts) + CountAll(p.tasks, LateAtCount(Limit(opts)), opts))
  }

  function Limit(opts: ExecutorOptions): nat {
    if opts.errorThreshold.Some? then StopAfter(opts.errorThreshold.value) else 0
  }

  /** Replacing one task moves each count by what that task contributes. */
  lemma CountsMove(tasks: seq<Task>, i: nat, t: Task, opts: ExecutorOptions)
    requires i < |tasks|
    ensures CountAll(tasks[i := t], Tallied, opts) + One(tasks[i], Tallied, opts)
            == CountAll(tasks, Tallied, opts) + One(t, Tallied, opts)
    ensures CountAll(tasks[i := t], Past, opts) + One(tasks[i], Past, opts)
            == CountAll(tasks, Past, opts) + One(t, Past, opts)
    ensures CountAll(tasks[i := t], AtCount, opts) + One(tasks[i], AtCount, opts)
            == CountAll(tasks, AtCount, opts) + One(t, AtCount, opts)
    ensures CountAll(tasks[i := t], LateAtCount(Limit(opts)), opts) + One(tasks[i], LateAtCount(Limit(opts)), opts)
            == CountAll(tasks, LateAtCount(Limit(opts)), opts) + One(t, LateAtCount(Limit(opts)), opts)
  {
    CountUpdate(tasks, |tasks|, i, t, Tallied, opts);
    CountUpdate(tasks, |tasks|, i, t, Past, opts);
    CountUpdate(tasks, |tasks|, i, t, AtCount, opts);
    CountUpdate(tasks, |tasks|, i, t, LateAtCount(Limit(opts)), opts);
  }

  /** A step that leaves the counter and flag alone and moves no task into or out of the counted ones. */
  lemma NeutralStep(p: Pool, i: nat, phase: Phase, opts: ExecutorOptions)
    requires TicketsSound(p, opts) && i < |p.tasks|
    requires !p.tasks[i].phase.Counted? && !phase.Counted?
    requires var t, t' := p.tasks[i], p.tasks[i].(phase := phase);
             One(t, Tallied, opts) <= One(t', Tallied, opts) && One(t', Past, opts) <= One(t, Past, opts)
    ensures TicketsSound(SetPhase(p, i, phase), opts)
  {
    CountsMove(p.tasks, i, p.tasks[i].(phase := phase), opts);
  }

  lemma ClassifyTickets(p: Pool, i: nat, opts: ExecutorOptions)
    requires TicketsSound(p, opts) && i < |p.tasks| && p.tasks[i].phase.Returned?
    ensures TicketsSound(Classify(p, i, opts), opts)
  {
    if IsStopWorthy(p.tasks[i].code, opts.continueOnWarning) {
      CountsMove(p.tasks, i, p.tasks[i].(phase := Counted(p.failCount + 1)), opts);
    } else {
      NeutralStep(p, i, Ticking, opts);
    }
  }

  lemma CompareTickets(p: Pool, i: nat, opts: ExecutorOptions)
    requires TicketsSound(p, opts) && i < |p.tasks| && p.tasks[i].phase.Counted?
    ensures TicketsSound(CompareCount(p, i, p.tasks[i].phase.ticket, opts), opts)
  {
    assert TicketIssued(p.tasks[i], p.failCount, opts);
    CountsMove(p.tasks, i, p.tasks[i].(phase := Ticking), opts);
  }

  lemma TicketsKept(p: Pool, a: WorkAction, opts: ExecutorOptions)
    requires CanWork(p, a) && TicketsSound(p, opts)
    ensures TicketsSound(Work(p, a, opts), opts)
  {
    match a
    case Crash(i) => NeutralStep(p, i, Ended(if p.tasks[i].phase.Running? then DiedRunning else DiedTicking), opts);
    case Join(i) => NeutralStep(p, i, Joined(p.tasks[i].phase.fate), opts);
    case Advance(i) =>
      match p.tasks[i].phase {
        case Running => NeutralStep(p, i, Phase.Returned, opts);
        case Returned => ClassifyTickets(p, i, opts);
        case Counted(_) => CompareTickets(p, i, opts);
        case Ticking => NeutralStep(p, i, Releasing, opts);
        case _ => NeutralStep(p, i, Ended(Completed), opts);
      }
  }

  /** Until the flag is set, fewer than the threshold's worth of failures have come through past the counter. */
  lemma PastBelowThreshold(p: Pool, opts: ExecutorOptions)
    requires TicketsSound(p, opts) && opts.errorThreshold.Some? && !p.failCancel
    ensures CountAll(p.tasks, Past, opts) < Limit(opts)
  {
    CountWithin(p.tasks, |p.tasks|, LateAtCount(Limit(opts)), AtCount, opts);
  }

  /** ... so the stop-worthy tasks run are below the threshold plus the permits in use. */
  lemma RunBeforeCancel(p: Pool, opts: ExecutorOptions)
    requires TicketsSound(p, opts) && opts.errorThreshold.Some? && !p.failCancel
    ensures CountAll(p.tasks, StopWorthyRun, opts)
            < Limit(opts) + CountAll(p.tasks, Holding, opts)
  {
    PastBelowThreshold(p, opts);
    CountCover(p.tasks, |p.tasks|, StopWorthyRun, Past, Holding, opts);
  }

  /** No task step adds to the stop-worthy tasks run. */
  lemma RunNeverGrows(p: Pool, a: WorkAction, opts: ExecutorOptions)
    requires CanWork(p, a)
    ensures CountAll(Work(p, a, opts).tasks, StopWorthyRun, opts) <= CountAll(p.tasks, StopWorthyRun, opts)
  {
    CountUpdate(p.tasks, |p.tasks|, a.task, Work(p, a, opts).tasks[a.task], StopWorthyRun, opts);
  }

  /** A task step raises the cancel flag or leaves it, and finds nothing to do once all are joined. */
  lemma TaskStepFacts(p: Pool, w: WorkAction, opts: ExecutorOptions)
    requires CanWork(p, w)
    ensures p.failCancel ==> Work(p, w, opts).failCancel
    ensures |Work(p, w, opts).tasks| == |p.tasks| && !AllJoined(p)
  {
  }

  // ---- Histories ----

  /** `order` lists, once each, the positions that have a value, and `values` are those values in that order. */
  predicate Logs(order: seq<nat>, values: seq<ExitCode>, view: seq<Option<ExitCode>>) {
    && |values| == |order| && Distinct(order)
    && (forall k :: 0 <= k < |order| ==> order[k] < |view| && view[order[k]] == Some(values[k]))
    && (forall i :: 0 <= i < |view| && view[i].Some? ==> i in order)
  }

  lemma LogSnoc(order: seq<nat>, values: seq<ExitCode>, view: seq<Option<ExitCode>>, i: nat, v: ExitCode)
    requires Logs(order, values, view) && i < |view| && view[i] == None
    ensures Logs(order + [i], values + [v], view[i := Some(v)])
  {
  }

  lemma LogGrow(order: seq<nat>, values: seq<ExitCode>, view: seq<Option<ExitCode>>)
    requires Logs(order, values, view)
    ensures Logs(order, values, view + [None])
  {
  }

  /** Once every position has a value, the log holds exactly those values. */
  lemma FullLog(order: seq<nat>, values: seq<ExitCode>, view: seq<Option<ExitCode>>, full: seq<ExitCode>)
    requires Logs(order, values, view)
    requires |full| == |view| && forall i :: 0 <= i < |view| ==> view[i] == Some(full[i])
    ensures multiset(values) == multiset(full)
  {
    forall k ensures k in order <==> 0 <= k < |full| {}
    DistinctCoverLength(order, |full|);
    PermutedValues(order, full, values);
  }

  // ---- Progress counters ----

  function TickOf(t: Task): Option<ExitCode> {
    if t.phase.Releasing? || t.phase == Ended(Completed) || t.phase == Joined(Completed) then Some(t.code) else None
  }

  function TickView(tasks: seq<Task>): (v: seq<Option<ExitCode>>)
    ensures |v| == |tasks| && forall i :: 0 <= i < |tasks| ==> v[i] == TickOf(tasks[i])
  {
    seq(|tasks|, i requires 0 <= i < |tasks| => TickOf(tasks[i]))
  }

  lemma TickViewUpdate(tasks: seq<Task>, i: nat, t: Task)
    requires i < |tasks|
    ensures TickView(tasks[i := t]) == TickView(tasks)[i := TickOf(t)]
    ensures TickOf(t) == TickOf(tasks[i]) ==> TickView(tasks[i := t]) == TickView(tasks)
  {
  }

  predicate TicksSound(p: Pool) {
    p.progress == TallyOf(p.ticked) && Logs(p.ticks, p.ticked, TickView(p.tasks))
  }

  lemma TickLogs(p: Pool, i: nat)
    requires i < |p.tasks| && p.tasks[i].phase.Ticking? && TicksSound(p)
    ensures TicksSound(Tick(p, i))
  {
    TickViewUpdate(p.tasks, i, p.tasks[i].(phase := Releasing));
    FoldSnoc(p.ticked, p.tasks[i].code, false);
    LogSnoc(p.ticks, p.ticked, TickView(p.tasks), i, p.tasks[i].code);
  }

  lemma TicksKept(p: Pool, a: WorkAction, opts: ExecutorOptions)
    requires CanWork(p, a) && TicksSound(p)
    ensures TicksSound(Work(p, a, opts))
  {
    if a.Advance? && p.tasks[a.task].phase.Ticking? {
      TickLogs(p, a.task);
    } else {
      TickViewUpdate(p.tasks, a.task, Work(p, a, opts).tasks[a.task]);
    }
  }

  // ---- Join results ----

  function JoinOf(t: Task): Option<ExitCode> {
    if t.phase.Joined? then Some(RecordedCode(t.code, t.phase.fate)) else None
  }

  function JoinView(tasks: seq<Task>): (v: seq<Option<ExitCode>>)
    ensures |v| == |tasks| && forall i :: 0 <= i < |tasks| ==> v[i] == JoinOf(tasks[i])
  {
    seq(|tasks|, i requires 0 <= i < |tasks| => JoinOf(tasks[i]))
  }

  lemma JoinViewUpdate(tasks: seq<Task>, i: nat, t: Task)
    requires i < |tasks|
    ensures JoinView(tasks[i := t]) == JoinView(tasks)[i := JoinOf(t)]
    ensures JoinOf(t) == JoinOf(tasks[i]) ==> JoinView(tasks[i := t]) == JoinView(tasks)
  {
  }

  /** `base` lines were counted skipped without being run. */
  predicate Folded(p: Pool, base: nat) {
    p.summary == AddSkipped(TallyOf(p.recorded), base) && p.worst == WorstOf(p.recorded)
  }

  predicate JoinsSound(p: Pool, base: nat) {
    Folded(p, base) && Logs(p.order, p.recorded, JoinView(p.tasks))
  }

  lemma JoinFolds(p: Pool, i: nat, fate: Fate, base: nat)
    requires i < |p.tasks| && Folded(p, base)
    ensures Folded(JoinTask(p, i, fate), base)
  {
    FoldSnoc(p.recorded, RecordedCode(p.tasks[i].code, fate), false);
  }

  lemma JoinLogs(p: Pool, i: nat, fate: Fate)
    requires i < |p.tasks| && !p.tasks[i].phase.Joined? && Logs(p.order, p.recorded, JoinView(p.tasks))
    ensures var p' := JoinTask(p, i, fate); Logs(p'.order, p'.recorded, JoinView(p'.tasks))
  {
    JoinViewUpdate(p.tasks, i, p.tasks[i].(phase := Joined(fate)));
    LogSnoc(p.order, p.recorded, JoinView(p.tasks), i, RecordedCode(p.tasks[i].code, fate));
  }

  /** Only a join touches the results. */
  lemma ResultsUntouched(p: Pool, a: WorkAction, opts: ExecutorOptions)
    requires CanWork(p, a) && !a.Join?
    ensures var p' := Work(p, a, opts);
            && p'.summary == p.summary && p'.worst == p.worst && p'.order == p.order && p'.recorded == p.recorded
            && JoinView(p'.tasks) == JoinView(p.tasks)
  {
    JoinViewUpdate(p.tasks, a.task, Work(p, a, opts).tasks[a.task]);
  }

  lemma JoinsKept(p: Pool, a: WorkAction, base: nat, opts: ExecutorOptions)
    requires CanWork(p, a) && JoinsSound(p, base)
    ensures JoinsSound(Work(p, a, opts), base)
  {
    match a
    case Join(i) =>
      JoinFolds(p, i, p.tasks[i].phase.fate, base);
      JoinLogs(p, i, p.tasks[i].phase.fate);
    case _ =>
      ResultsUntouched(p, a, opts);
  }

  // ---- The whole pool ----

  /** Task `i` runs line `i` of `codes`. */
  predicate InScriptOrder(tasks: seq<Task>, codes: seq<ExitCode>) {
    |tasks| <= |codes| && forall i :: 0 <= i < |tasks| ==> tasks[i].line == i && tasks[i].code == codes[i]
  }

  lemma {:induction false} StopWorthyTasks(tasks: seq<Task>, n: nat, codes: seq<ExitCode>, opts: ExecutorOptions)
    requires InScriptOrder(tasks, codes) && n <= |tasks|
    ensures Count(tasks, n, StopWorthy, opts) == StopWorthyTo(codes, n, opts.continueOnWarning)
  {
    if n > 0 { StopWorthyTasks(tasks, n - 1, codes, opts); }
  }

  /** `held` permits are with the spawner, `base` lines were skipped unrun, `codes` are the lines' outcomes. */
  predicate PoolSound(p: Pool, codes: seq<ExitCode>, held: nat, base: nat, opts: ExecutorOptions) {
    && PermitsBalance(p, held, opts) && TicketsSound(p, opts) && TicksSound(p) && JoinsSound(p, base)
    && InScriptOrder(p.tasks, codes)
  }

  lemma OrderKept(p: Pool, a: WorkAction, codes: seq<ExitCode>, opts: ExecutorOptions)
    requires CanWork(p, a) && InScriptOrder(p.tasks, codes)
    ensures InScriptOrder(Work(p, a, opts).tasks, codes) && |Work(p, a, opts).tasks| == |p.tasks|
  {
  }

  lemma WorkKeeps(p: Pool, a: WorkAction, codes: seq<ExitCode>, held: nat, base: nat, opts: ExecutorOptions)
    requires CanWork(p, a) && PoolSound(p, codes, held, base, opts)
    ensures PoolSound(Work(p, a, opts), codes, held, base, opts)
  {
    PermitsKept(p, a, held, opts);
    TicketsKept(p, a, opts);
    TicksKept(p, a, opts);
    JoinsKept(p, a, base, opts);
    OrderKept(p, a, codes, opts);
  }

  lemma SpawnCounts(p: Pool, t: Task, opts: ExecutorOptions)
    requires t.phase.Running? && TicketsSound(p, opts)
    ensures TicketsSound(p.(tasks := p.tasks + [t]), opts)
  {
    CountSnoc(p.tasks, t, Tallied, opts);
    CountSnoc(p.tasks, t, Past, opts);
    CountSnoc(p.tasks, t, AtCount, opts);
    CountSnoc(p.tasks, t, LateAtCount(Limit(opts)), opts);
  }

  lemma SpawnLogs(p: Pool, t: Task, base: nat)
    requires t.phase.Running? && TicksSound(p) && JoinsSound(p, base)
    ensures TicksSound(p.(tasks := p.tasks + [t])) && JoinsSound(p.(tasks := p.tasks + [t]), base)
  {
    LogGrow(p.ticks, p.ticked, TickView(p.tasks));
    LogGrow(p.order, p.recorded, JoinView(p.tasks));
    assert TickView(p.tasks + [t]) == TickView(p.tasks) + [None];
    assert JoinView(p.tasks + [t]) == JoinView(p.tasks) + [None];
  }

  lemma SpawnKeeps(p: Pool, codes: seq<ExitCode>, base: nat, opts: ExecutorOptions)
    requires PoolSound(p, codes, 1, base, opts) && |p.tasks| < |codes|
    ensures PoolSound(Spawn(p, |p.tasks|, codes[|p.tasks|]), codes, 0, base, opts)
  {
    var t := Task(|p.tasks|, codes[|p.tasks|], Running);
    CountSnoc(p.tasks, t, Holding, opts);
    SpawnCounts(p, t, opts);
    SpawnLogs(p, t, base);
  }

  /** The spawner takes a permit or gives it back. */
  lemma PermitMoves(p: Pool, codes: seq<ExitCode>, held: nat, held': nat, opts: ExecutorOptions)
    requires PoolSound(p, codes, held, 0, opts) && p.permits + held >= held'
    ensures PoolSound(p.(permits := p.permits + held - held'), codes, held', 0, opts)
  {
  }

  /** Counting lines skipped touches nothing but that counter. */
  lemma SkipKeeps(p: Pool, codes: seq<ExitCode>, held: nat, base: nat, n: nat, opts: ExecutorOptions)
    requires PoolSound(p, codes, held, base, opts)
    ensures PoolSound(p.(summary := AddSkipped(p.summary, n)), codes, held, base + n, opts)
  {
  }

  /** Once all are joined, the reported severity covers every prefix of the lines spawned. */
  lemma JoinedPrefixNoMilder(p: Pool, codes: seq<ExitCode>, n: nat)
    requires InScriptOrder(p.tasks, codes) && Logs(p.order, p.recorded, JoinView(p.tasks)) && AllJoined(p)
    requires p.worst == WorstOf(p.recorded) && n <= |p.tasks|
    ensures SeverityRank(WorstOf(codes[..n])) <= SeverityRank(p.worst)
  {
    var w := WorstOf(codes[..n]);
    WorstBounds(codes[..n], w);
    if w != 0 {
      var i :| 0 <= i < n && codes[..n][i] == w;
      assert JoinView(p.tasks)[i].Some?;
      var k :| 0 <= k < |p.order| && p.order[k] == i;
      assert p.recorded[k] in p.recorded;
      WorstBounds(p.recorded, p.recorded[k]);
    }
  }

  /** A task that died makes the reported code 1, whatever the others returned. */
  lemma DeadTaskIsError(p: Pool)
    requires AllJoined(p) && Logs(p.order, p.recorded, JoinView(p.tasks)) && p.worst == WorstOf(p.recorded)
    requires !NoneDied(p)
    ensures p.worst == 1
  {
    var i :| 0 <= i < |p.tasks| && !p.tasks[i].phase.fate.Completed?;
    assert JoinView(p.tasks)[i] == Some(1);
    var k :| 0 <= k < |p.order| && p.order[k] == i;
    assert p.recorded[k] in p.recorded;
    ReportedCodeIs(p.recorded);
  }

  // ---- Termination ----

  /** Steps a task still has to take, the join included. */
  function StepsLeft(phase: Phase): nat {
    match phase
    case Running => 6
    case Returned => 5
    case Counted(_) => 4
    case Ticking => 3
    case Releasing => 2
    case Ended(_) => 1
    case Joined(_) => 0
  }

  function Remaining(tasks: seq<Task>, n: nat): nat
    requires n <= |tasks|
  {
    if n == 0 then 0 else Remaining(tasks, n - 1) + StepsLeft(tasks[n - 1].phase)
  }

  lemma {:induction false} RemainingSame(a: seq<Task>, b: seq<Task>, n: nat)
    requires n <= |a| && n <= |b| && forall k :: 0 <= k < n ==> a[k] == b[k]
    ensures Remaining(a, n) == Remaining(b, n)
  {
    if n > 0 { RemainingSame(a, b, n - 1); }
  }

  lemma {:induction false} RemainingUpdate(tasks: seq<Task>, n: nat, i: nat, t: Task)
    requires i < n <= |tasks|
    ensures Remaining(tasks[i := t], n) + StepsLeft(tasks[i].phase) == Remaining(tasks, n) + StepsLeft(t.phase)
  {
    if n - 1 == i {
      RemainingSame(tasks[i := t], tasks, i);
    } else {
      RemainingUpdate(tasks, n - 1, i, t);
    }
  }

  lemma WorkDecreases(p: Pool, a: WorkAction, opts: ExecutorOptions)
    requires CanWork(p, a)
    ensures var p' := Work(p, a, opts);
            |p'.tasks| == |p.tasks| && Remaining(p'.tasks, |p'.tasks|) < Remaining(p.tasks, |p.tasks|)
  {
    RemainingUpdate(p.tasks, |p.tasks|, a.task, Work(p, a, opts).tasks[a.task]);
  }

  lemma SpawnAddsSix(p: Pool, line: nat, code: ExitCode)
    ensures var p' := Spawn(p, line, code); Remaining(p'.tasks, |p'.tasks|) == Remaining(p.tasks, |p.tasks|) + 6
  {
    RemainingSame(Spawn(p, line, code).tasks, p.tasks, |p.tasks|);
  }

  /** If no permit is free and the spawner holds none, some task can move. */
  lemma PermitsComeBack(p: Pool, opts: ExecutorOptions) returns (i: nat)
    requires PermitsBalance(p, 0, opts) && p.permits == 0 && opts.workers > 0
    ensures CanWork(p, Advance(i))
  {
    i := SomeHolder(p, |p.tasks|, opts);
  }

  lemma {:induction false} SomeHolder(p: Pool, n: nat, opts: ExecutorOptions) returns (i: nat)
    requires n <= |p.tasks| && Count(p.tasks, n, Holding, opts) > 0
    ensures i < |p.tasks| && Is(p.tasks[i], Holding, opts)
  {
    i := n - 1;
    if !Is(p.tasks[i], Holding, opts) { i := SomeHolder(p, n - 1, opts); }
  }

  lemma FirstUnjoined(p: Pool) returns (i: nat)
    requires !AllJoined(p)
    ensures i < |p.tasks| && !p.tasks[i].phase.Joined?
  {
    i :| 0 <= i < |p.tasks| && !p.tasks[i].phase.Joined?;
  }
}
