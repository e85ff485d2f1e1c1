/**
 * `mv` as a step system: the copy, the cancellation tail of the copy phase, the four gates and the
 * source delete, interleaved with the Ctrl-C handler, failing workers and other clients of the
 * store. The transfer engine is its contract: it reads one version of the source, writes one
 * content to the target, and reports the version id it read.
 */
module Move {
  import opened Basics
  import opened VersionedStore
  import opened MoveKeys

  // ---- The world ----

  /** A bucket of a service. */
  datatype Place = Place(service: string, bucket: string)

  datatype World = World(buckets: map<Place, Bucket>, files: map<string, string>)

  /**
   * A move: its options, the local directories, the bucket that an endpoint and a bucket name lead to,
   * the world and the process-wide flag it starts with. Two spellings of an endpoint, or a bucket's own
   * name and an alias of it, may lead to one bucket.
   */
  datatype Job = Job(
    config: MoveConfig,
    isDir: string -> bool,
    locate: (Option<string>, string) -> Place,
    world: World,
    flag: bool)

  function SourcePlace(j: Job): Place
    requires j.config.source.S3?
  {
    j.locate(j.config.sourceEndpoint, j.config.source.bucket)
  }

  function TargetPlace(j: Job): Place
    requires j.config.target.S3?
  {
    j.locate(j.config.targetEndpoint, j.config.target.bucket)
  }

  /** A local file reads as a `null` version. */
  function ReadSource(w: World, j: Job, key: string): Option<Version> {
    match j.config.source
    case S3(_, _) =>
      if SourcePlace(j) in w.buckets then Read(w.buckets[SourcePlace(j)], key, j.config.versionId) else None
    case Local(_) => if key in w.files then Some(Version(Null, Data(w.files[key]))) else None
    case Stdio => None
  }

  function WriteTarget(w: World, j: Job, key: string, content: string): World {
    match j.config.target
    case S3(_, _) =>
      if TargetPlace(j) in w.buckets
      then w.(buckets := w.buckets[TargetPlace(j) := Put(w.buckets[TargetPlace(j)], key, content)])
      else w
    case Local(_) => w.(files := w.files[key := content])
    case Stdio => w
  }

  function DeleteSource(w: World, j: Job, key: string, id: Option<VersionId>): World {
    match j.config.source
    case S3(_, _) =>
      if SourcePlace(j) in w.buckets
      then w.(buckets := w.buckets[SourcePlace(j) := Delete(w.buckets[SourcePlace(j)], key, id)])
      else w
    case Local(_) => w.(files := w.files - {key})
    case Stdio => w
  }

  /** A plain read of the target returns what the copy wrote: that version, or those bytes in a file. */
  ghost predicate TargetHolds(w: World, j: Job, key: string, content: string) {
    match j.config.target
    case S3(_, _) =>
      && TargetPlace(j) in w.buckets && TargetPlace(j) in j.world.buckets
      && Read(w.buckets[TargetPlace(j)], key, None)
         == Some(Version(PutId(j.world.buckets[TargetPlace(j)]), Data(content)))
    case Local(_) => key in w.files && w.files[key] == content
    case Stdio => false
  }

  /** Whether the version read is still there. */
  ghost predicate SourceHas(w: World, j: Job, key: string, v: Version) {
    match j.config.source
    case S3(_, _) => SourcePlace(j) in w.buckets && v in Versions(w.buckets[SourcePlace(j)], key)
    case Local(_) => key in w.files && v == Version(Null, Data(w.files[key]))
    case Stdio => false
  }

  ghost predicate ValidWorld(w: World) {
    forall p :: p in w.buckets ==> Valid(w.buckets[p])
  }

  // ---- The steps ----

  datatype Transfer = Copied(captured: Option<VersionId>) | CopyFailed(cancellation: bool)

  datatype Exit = Success | Cancelled | Error

  /** `ExitStatus::code`, and 1 for an error. */
  function ExitCode(e: Exit): int {
    match e case Success => 0 case Cancelled => 130 case Error => 1
  }

  datatype Point =
    | Begin | AtRead | AtWrite | AtCopyEnd
    | AtFlag | AtToken
    | Gate1 | Gate2 | Gate3 | Gate4
    | AtDelete
    | Finished(exit: Exit)

  /** The Ctrl-C handler: not installed, waiting, about to store the flag, about to cancel the token, gone. */
  datatype Handler = Absent | Listening | Storing | Cancelling | Gone

  datatype State = State(
    pc: Point,
    world: World,
    flag: bool,
    token: bool,
    handler: Handler,
    keys: (string, string),
    read: Option<Version>,
    written: Option<string>,
    warning: bool,
    transfer: Option<Transfer>,
    cancelled: bool,
    deletes: nat,
    erased: bool,
    foreign: bool)

  datatype WriterOp =
    | PutObject(place: Place, key: string, content: string)
    | DeleteObject(place: Place, key: string, id: Option<VersionId>)
    | SetFile(path: string, now: Option<string>)

  datatype Action =
    | Start
    | CopyRead
    | CopyWrite(content: string, warns: bool)
    | CopyDone(captured: Option<VersionId>)
    | CopyFails(cancellation: bool)
    | DryPhase(outcome: Transfer)
    | Decide
    | DeleteCall(ok: bool, effect: bool)
    | WorkerCancel
    | Sigint | HandlerStore | HandlerCancel | HandlerQuit
    | Writer(op: WriterOp)

  function Init(j: Job): State {
    State(Begin, j.world, j.flag, false, Absent, ("", ""), None, None, false, None, false, 0, false, false)
  }

  /** The checks before anything is transferred; the resolved keys when they pass. */
  function Prepare(j: Job): Option<(string, string)> {
    var c := j.config;
    if c.source.Stdio? || c.target.Stdio? then None
    else if CheckNotSelfMove(c, j.isDir).Err? then None
    else if c.source.Local? && c.target.Local? then None
    else if c.source.Local? && j.isDir(c.source.path) then None
    else
      match ExtractKeys(c, j.isDir)
      case Err(_) => None
      case Ok(keys) => Some(keys)
  }

  predicate Copying(pc: Point) { pc.AtRead? || pc.AtWrite? || pc.AtCopyEnd? }

  /** The version id a finished copy reports: that of the version read, or none without versioning. */
  predicate CapturedFits(j: Job, read: Version, captured: Option<VersionId>) {
    match j.config.source
    case S3(_, _) =>
      || captured == Some(read.id)
      || (captured == None && SourcePlace(j) in j.world.buckets && j.world.buckets[SourcePlace(j)].mode.Unversioned?)
    case _ => captured == None
  }

  predicate CanTake(s: State, a: Action, j: Job) {
    match a
    case Start => s.pc.Begin?
    case CopyRead => s.pc.AtRead? && !j.config.dryRun && ReadSource(s.world, j, s.keys.0).Some?
    case CopyWrite(content, warns) =>
      && s.pc.AtWrite? && s.read.Some?
      && (j.config.target.S3? ==> TargetPlace(j) in s.world.buckets)
      && (!warns ==> s.read.value.body == Data(content))
    case CopyDone(captured) => s.pc.AtCopyEnd? && s.read.Some? && CapturedFits(j, s.read.value, captured)
    case CopyFails(cancellation) => Copying(s.pc) && !j.config.dryRun && (cancellation ==> s.token)
    case DryPhase(outcome) =>
      s.pc.AtRead? && j.config.dryRun && (outcome.Copied? ==> outcome.captured.None?)
      && (outcome.CopyFailed? && outcome.cancellation ==> s.token)
    case Decide =>
      s.pc.AtFlag? || s.pc.AtToken? || s.pc.Gate1? || s.pc.Gate2? || s.pc.Gate3? || s.pc.Gate4?
    case DeleteCall(ok, effect) => s.pc.AtDelete? && (ok ==> effect)
    case WorkerCancel => Copying(s.pc)
    case Sigint => s.handler.Listening?
    case HandlerStore => s.handler.Storing?
    case HandlerCancel => s.handler.Cancelling?
    case HandlerQuit => s.handler.Listening? && s.token
    case Writer(_) => true
  }

  /** A cancelled token alone is not a user cancellation: a failure with another cause is reported as one. */
  function IsUserCancellation(tokenCancelled: bool, t: Option<Transfer>): bool {
    tokenCancelled && (t.Some? && t.value.CopyFailed? ==> t.value.cancellation)
  }

  function CapturedId(t: Option<Transfer>): Option<VersionId> {
    if t.Some? && t.value.Copied? then t.value.captured else None
  }

  /** The explicit version wins over the captured one. */
  function DeleteId(s: State, j: Job): Option<VersionId> {
    if j.config.versionId.Some? then j.config.versionId else CapturedId(s.transfer)
  }

  /** Where a decision leads: the two reads of the cancellation tail, then the four gates. */
  function DecidedPoint(s: State, j: Job): Point {
    match s.pc
    case AtFlag => if s.flag then Gate1 else AtToken
    case AtToken => Gate1
    case Gate1 => if s.cancelled then Finished(Cancelled) else Gate2
    case Gate2 => if s.transfer.Some? && s.transfer.value.CopyFailed? then Finished(Error) else Gate3
    case Gate3 => if s.warning && !j.config.noFailOnVerifyError then Finished(Error) else Gate4
    case _ => if s.token then Finished(Cancelled) else if j.config.dryRun then Finished(Success) else AtDelete
  }

  /** What the copy phase reports as cancelled: the flag takes precedence over the token. */
  function DecidedCancelled(s: State): bool {
    match s.pc
    case AtFlag => s.flag || s.cancelled
    case AtToken => IsUserCancellation(s.token, s.transfer)
    case _ => s.cancelled
  }

  function Decision(s: State, j: Job): State
    requires CanTake(s, Decide, j)
  {
    s.(pc := DecidedPoint(s, j), cancelled := DecidedCancelled(s))
  }

  function WriterEffect(w: World, op: WriterOp): World {
    match op
    case PutObject(p, key, content) =>
      if p in w.buckets then w.(buckets := w.buckets[p := Put(w.buckets[p], key, content)]) else w
    case DeleteObject(p, key, id) =>
      if p in w.buckets then w.(buckets := w.buckets[p := Delete(w.buckets[p], key, id)]) else w
    case SetFile(path, now) =>
      w.(files := if now.Some? then w.files[path := now.value] else w.files - {path})
  }

  function Step(s: State, a: Action, j: Job): State
    requires CanTake(s, a, j)
  {
    match a
    case Start =>
      if Prepare(j).None? then s.(pc := Finished(Error))
      else s.(pc := AtRead, keys := Prepare(j).value, handler := Listening)
    case CopyRead => s.(pc := AtWrite, read := ReadSource(s.world, j, s.keys.0))
    case CopyWrite(content, warns) =>
      s.(pc := AtCopyEnd, world := WriteTarget(s.world, j, s.keys.1, content),
         written := Some(content), warning := warns)
    case CopyDone(captured) => s.(pc := AtFlag, transfer := Some(Copied(captured)))
    case CopyFails(cancellation) => s.(pc := AtFlag, transfer := Some(CopyFailed(cancellation)))
    case DryPhase(outcome) => s.(pc := AtFlag, transfer := Some(outcome))
    case Decide => Decision(s, j)
    case DeleteCall(ok, effect) =>
      s.(pc := Finished(if ok then Success else Error),
         deletes := s.deletes + 1,
         erased := effect,
         world := if effect then DeleteSource(s.world, j, s.keys.0, DeleteId(s, j)) else s.world)
    case WorkerCancel => s.(token := true)
    case Sigint => s.(handler := Storing)
    case HandlerStore => s.(flag := true, handler := Cancelling)
    case HandlerCancel => s.(token := true, handler := Gone)
    case HandlerQuit => s.(handler := Gone)
    case Writer(op) => s.(world := WriterEffect(s.world, op), foreign := true)
  }

  function Exec(s: State, schedule: seq<Action>, j: Job): Option<State>
    decreases |schedule|
  {
    if schedule == [] then Some(s)
    else if CanTake(s, schedule[0], j) then Exec(Step(s, schedule[0], j), schedule[1..], j)
    else None
  }

  ghost predicate Reachable(s: State, j: Job) {
    exists schedule :: Exec(Init(j), schedule, j) == Some(s)
  }

  // ---- What every reachable state satisfies ----

  predicate PhaseOver(pc: Point) {
    pc.AtFlag? || pc.AtToken? || pc.Gate1? || pc.Gate2? || pc.Gate3? || pc.Gate4? || pc.AtDelete?
  }

  /** The delete is only reached through all four gates. */
  predicate GatesPassed(s: State, j: Job) {
    && !s.cancelled && s.transfer.Some? && s.transfer.value.Copied?
    && (s.warning ==> j.config.noFailOnVerifyError)
  }

  predicate Control(s: State, j: Job) {
    && (s.pc.Begin? ==> s.handler.Absent? && s.keys == ("", ""))
    && (!s.pc.Begin? && !s.pc.Finished? ==> Prepare(j) == Some(s.keys))
    && (s.pc.Begin? || Copying(s.pc) ==> s.transfer.None? && !s.cancelled)
    && (PhaseOver(s.pc) ==> s.transfer.Some?)
    && (s.pc.AtFlag? || s.pc.AtToken? ==> !s.cancelled)
    && (s.pc.Gate3? || s.pc.Gate4? ==> !s.cancelled && s.transfer.value.Copied?)
    && (s.pc.Gate4? ==> GatesPassed(s, j))
    && (s.pc.AtDelete? ==> GatesPassed(s, j) && !j.config.dryRun)
    && (s.pc.Gate2? ==> !s.cancelled)
    && s.deletes == (if s.pc.Finished? && s.deletes > 0 then 1 else 0)
    && (s.deletes == 1 ==>
          GatesPassed(s, j) && !j.config.dryRun && Prepare(j) == Some(s.keys) && !s.pc.exit.Cancelled?)
    && (s.pc == Finished(Success) && !j.config.dryRun ==> s.deletes == 1 && s.erased)
    && (s.erased ==> s.deletes == 1)
    && (s.handler.Cancelling? ==> s.flag)
  }

  predicate CopyFacts(s: State, j: Job) {
    && (s.pc.Begin? || s.pc.AtRead? ==> s.read.None? && s.written.None?)
    && (s.pc.AtWrite? ==> s.read.Some? && s.written.None?)
    && (s.pc.AtCopyEnd? ==> s.read.Some? && s.written.Some?)
    && (s.transfer.Some? && s.transfer.value.Copied? && !j.config.dryRun ==>
          s.read.Some? && s.written.Some? && CapturedFits(j, s.read.value, s.transfer.value.captured))
    && (j.config.dryRun ==> s.read.None? && s.written.None?)
    && (s.read.Some? ==> s.read.value.body.Data? && Prepare(j) == Some(s.keys))
    && (s.read.Some? && j.config.versionId.Some? && j.config.source.S3? ==> s.read.value.id == j.config.versionId.value)
    && (s.written.Some? ==> s.read.Some?)
    && (s.written.Some? && !s.warning ==> s.read.value.body == Data(s.written.value))
  }

  /** Without other clients the world is the initial one, plus the copy, minus the source once erased. */
  ghost predicate Accounted(s: State, j: Job) {
    !s.foreign ==>
      && (s.read.Some? ==> ReadSource(j.world, j, s.keys.0) == s.read)
      && (s.written.Some? && j.config.target.S3? ==> TargetPlace(j) in j.world.buckets)
      && s.world == AfterErase(s, j)
  }

  function AfterWrite(s: State, j: Job): World {
    if s.written.Some? then WriteTarget(j.world, j, s.keys.1, s.written.value) else j.world
  }

  function AfterErase(s: State, j: Job): World {
    if s.erased then DeleteSource(AfterWrite(s, j), j, s.keys.0, DeleteId(s, j)) else AfterWrite(s, j)
  }

  ghost predicate Sound(s: State, j: Job) { Control(s, j) && CopyFacts(s, j) && Accounted(s, j) }

  lemma DecideKeepsControl(s: State, j: Job)
    requires CanTake(s, Decide, j) && Control(s, j)
    ensures Control(Decision(s, j), j)
  {
    match s.pc
    case AtFlag =>
    case AtToken =>
    case Gate1 =>
    case Gate2 =>
    case _ =>
  }

  /** The decisions touch neither the world nor what was copied. */
  lemma DecideTouchesNothing(s: State, j: Job)
    requires CanTake(s, Decide, j)
    ensures var s' := Decision(s, j);
            && s' == s.(pc := s'.pc, cancelled := s'.cancelled)
            && !s'.pc.Begin? && !Copying(s'.pc)
  {
  }

  lemma DecideKeeps(s: State, j: Job)
    requires CanTake(s, Decide, j) && Sound(s, j)
    ensures Sound(Step(s, Decide, j), j)
  {
    DecideKeepsControl(s, j);
    DecideTouchesNothing(s, j);
  }

  lemma CopyKeeps(s: State, a: Action, j: Job)
    requires a.CopyRead? || a.CopyWrite? || a.CopyDone? || a.CopyFails? || a.DryPhase?
    requires CanTake(s, a, j) && Sound(s, j)
    ensures Sound(Step(s, a, j), j)
  {
  }

  lemma DeleteKeeps(s: State, ok: bool, effect: bool, j: Job)
    requires CanTake(s, DeleteCall(ok, effect), j) && Sound(s, j)
    ensures Sound(Step(s, DeleteCall(ok, effect), j), j)
  {
  }

  lemma EnvironmentKeeps(s: State, a: Action, j: Job)
    requires a.WorkerCancel? || a.Sigint? || a.HandlerStore? || a.HandlerCancel? || a.HandlerQuit? || a.Writer?
    requires CanTake(s, a, j) && Sound(s, j)
    ensures Sound(Step(s, a, j), j)
  {
    var s' := Step(s, a, j);
    assert s' == s.(world := s'.world, flag := s'.flag, token := s'.token,
                    handler := s'.handler, foreign := s'.foreign) by {
      match a
      case WorkerCancel =>
      case Sigint =>
      case HandlerStore =>
      case HandlerCancel =>
      case HandlerQuit =>
      case Writer(_) =>
    }
  }

  lemma StartKeeps(s: State, j: Job)
    requires CanTake(s, Start, j) && Sound(s, j)
    ensures Sound(Step(s, Start, j), j)
  {
  }

  lemma StepKeeps(s: State, a: Action, j: Job)
    requires CanTake(s, a, j) && Sound(s, j)
    ensures Sound(Step(s, a, j), j)
  {
    match a
    case Start => StartKeeps(s, j);
    case Decide => DecideKeeps(s, j);
    case DeleteCall(ok, effect) => DeleteKeeps(s, ok, effect, j);
    case CopyRead => CopyKeeps(s, a, j);
    case CopyWrite(_, _) => CopyKeeps(s, a, j);
    case CopyDone(_) => CopyKeeps(s, a, j);
    case CopyFails(_) => CopyKeeps(s, a, j);
    case DryPhase(_) => CopyKeeps(s, a, j);
    case _ => EnvironmentKeeps(s, a, j);
  }

  lemma {:induction false} ExecKeeps(s: State, schedule: seq<Action>, j: Job)
    requires Sound(s, j) && Exec(s, schedule, j).Some?
    ensures Sound(Exec(s, schedule, j).value, j)
    decreases |schedule|
  {
    if schedule != [] {
      StepKeeps(s, schedule[0], j);
      ExecKeeps(Step(s, schedule[0], j), schedule[1..], j);
    }
  }

  lemma ReachableIsSound(s: State, j: Job)
    requires Reachable(s, j)
    ensures Sound(s, j)
  {
    var schedule :| Exec(Init(j), schedule, j) == Some(s);
    ExecKeeps(Init(j), schedule, j);
  }

  lemma {:induction false} ExecSnoc(s: State, schedule: seq<Action>, a: Action, j: Job)
    requires Exec(s, schedule, j).Some? && CanTake(Exec(s, schedule, j).value, a, j)
    ensures Exec(s, schedule + [a], j) == Some(Step(Exec(s, schedule, j).value, a, j))
    decreases |schedule|
  {
    if schedule == [] {
      assert [] + [a] == [a];
      assert Exec(Step(s, a, j), [], j) == Some(Step(s, a, j));
    } else {
      ExecSnoc(Step(s, schedule[0], j), schedule[1..], a, j);
      assert (schedule + [a])[0] == schedule[0] && (schedule + [a])[1..] == schedule[1..] + [a];
    }
  }

  lemma Then(s: State, a: Action, j: Job) returns (s': State)
    requires Reachable(s, j) && CanTake(s, a, j)
    ensures Reachable(s', j) && s' == Step(s, a, j)
  {
    s' := Step(s, a, j);
    var schedule :| Exec(Init(j), schedule, j) == Some(s);
    ExecSnoc(Init(j), schedule, a, j);
  }

  // ---- Data survives ----

  predicate OnePlace(j: Job) { j.config.source.S3? && j.config.target.S3? && SourcePlace(j) == TargetPlace(j) }

  /** Source and target are one object. */
  predicate SameObject(j: Job, keys: (string, string)) { OnePlace(j) && keys.0 == keys.1 }

  /** The copy replaces the version it reads: the `null` version of an object moved onto itself, versioning off. */
  predicate Clobbers(j: Job, keys: (string, string), v: Version) {
    && SameObject(j, keys) && v.id.Null?
    && TargetPlace(j) in j.world.buckets && !j.world.buckets[TargetPlace(j)].mode.Enabled?
  }

  /** One bucket is not named in two ways: by endpoint, or by bucket name. */
  predicate NamesTell(j: Job) {
    OnePlace(j) ==>
      j.config.sourceEndpoint == j.config.targetEndpoint && j.config.source.bucket == j.config.target.bucket
  }

  /** Where names tell buckets apart, no move that clobbers its source gets past the guard. */
  lemma GuardStopsClobbering(j: Job, keys: (string, string), v: Version)
    requires Prepare(j) == Some(keys) && NamesTell(j)
    requires ReadSource(j.world, j, keys.0) == Some(v)
    ensures !Clobbers(j, keys, v)
  {
  }

  /** The copy itself leaves the version it read alone, unless it clobbers it. */
  lemma WriteKeepsSource(j: Job, keys: (string, string), v: Version, content: string)
    requires ValidWorld(j.world) && Prepare(j) == Some(keys) && ReadSource(j.world, j, keys.0) == Some(v)
    requires !Clobbers(j, keys, v)
    ensures SourceHas(WriteTarget(j.world, j, keys.1, content), j, keys.0, v)
  {
    if j.config.source.S3? && j.config.target.S3? && SourcePlace(j) == TargetPlace(j) {
      assert ValidKey(j.world.buckets[SourcePlace(j)], Versions(j.world.buckets[SourcePlace(j)], keys.0));
    }
  }

  lemma WriteReachesTarget(j: Job, keys: (string, string), content: string)
    requires Prepare(j) == Some(keys) && (j.config.target.S3? ==> TargetPlace(j) in j.world.buckets)
    ensures TargetHolds(WriteTarget(j.world, j, keys.1, content), j, keys.1, content)
  {
    if j.config.target.S3? { PutThenRead(j.world.buckets[TargetPlace(j)], keys.1, content); }
  }

  /** The delete is aimed at the version read. */
  predicate AimsAt(j: Job, v: Version, id: Option<VersionId>) {
    if j.config.versionId.Some? then id == j.config.versionId else CapturedFits(j, v, id)
  }

  lemma EraseInOnePlace(j: Job, keys: (string, string), content: string, id: Option<VersionId>)
    requires OnePlace(j) && TargetPlace(j) in j.world.buckets
    ensures var b := j.world.buckets[TargetPlace(j)];
            TargetHolds(DeleteSource(WriteTarget(j.world, j, keys.1, content), j, keys.0, id), j, keys.1, content)
            <==> Read(Delete(Put(b, keys.1, content), keys.0, id), keys.1, None)
                 == Some(Version(PutId(b), Data(content)))
  {
  }

  lemma EraseElsewhere(j: Job, keys: (string, string), content: string, id: Option<VersionId>)
    requires Prepare(j) == Some(keys) && !OnePlace(j) && (j.config.target.S3? ==> TargetPlace(j) in j.world.buckets)
    ensures TargetHolds(DeleteSource(WriteTarget(j.world, j, keys.1, content), j, keys.0, id), j, keys.1, content)
  {
    WriteReachesTarget(j, keys, content);
  }

  /** Deleting the version read leaves the target as written exactly when the copy did not clobber it. */
  lemma EraseKeepsTargetIff(j: Job, keys: (string, string), v: Version, content: string, id: Option<VersionId>)
    requires ValidWorld(j.world) && Prepare(j) == Some(keys) && ReadSource(j.world, j, keys.0) == Some(v)
    requires j.config.target.S3? ==> TargetPlace(j) in j.world.buckets
    requires AimsAt(j, v, id)
    ensures TargetHolds(DeleteSource(WriteTarget(j.world, j, keys.1, content), j, keys.0, id), j, keys.1, content)
            <==> !Clobbers(j, keys, v)
  {
    if OnePlace(j) {
      var b := j.world.buckets[TargetPlace(j)];
      EraseInOnePlace(j, keys, content, id);
      if keys.0 == keys.1 {
        WrittenSurvivesIff(b, keys.0, v, content, id);
      } else {
        PutThenRead(b, keys.1, content);
        OtherKeyUntouched(Put(b, keys.1, content), keys.1, content, keys.0, id);
      }
    } else {
      EraseElsewhere(j, keys, content, id);
    }
  }

  /** ... and takes that version away from the source. */
  lemma EraseEmptiesSource(w: World, j: Job, key: string, v: Version, id: Option<VersionId>)
    requires AimsAt(j, v, id) && v.body.Data?
    requires j.config.versionId.Some? && j.config.source.S3? ==> v.id == j.config.versionId.value
    requires j.config.source.S3? && SourcePlace(j) in w.buckets && w.buckets[SourcePlace(j)].mode.Unversioned? ==>
               v.id.Null?
    requires j.config.source.S3? && SourcePlace(j) in j.world.buckets && SourcePlace(j) in w.buckets ==>
               w.buckets[SourcePlace(j)].mode == j.world.buckets[SourcePlace(j)].mode
    ensures !SourceHas(DeleteSource(w, j, key, id), j, key, v)
  {
    if j.config.source.S3? && SourcePlace(j) in w.buckets {
      DeleteTakesAway(w.buckets[SourcePlace(j)], key, v, id);
    }
  }

  /**
   * Every run without other clients, whatever fails or interrupts: before the delete the target
   * holds what was written, if anything was, and the source still has the version read unless the
   * copy clobbered it; after the delete the target holds what was written exactly when it did not.
   */
  lemma DataFollowsRun(s: State, j: Job)
    requires Reachable(s, j) && ValidWorld(j.world) && !s.foreign
    ensures s.written.None? ==> s.world == j.world
    ensures s.written.Some? && !s.erased ==> TargetHolds(s.world, j, s.keys.1, s.written.value)
    ensures s.read.Some? && !s.erased && !Clobbers(j, s.keys, s.read.value) ==>
              SourceHas(s.world, j, s.keys.0, s.read.value)
    ensures s.erased ==>
              && s.read.Some? && s.written.Some?
              && (TargetHolds(s.world, j, s.keys.1, s.written.value) <==> !Clobbers(j, s.keys, s.read.value))
  {
    ReachableIsSound(s, j);
    if s.written.Some? {
      WriteReachesTarget(j, s.keys, s.written.value);
      if s.erased {
        EraseKeepsTargetIff(j, s.keys, s.read.value, s.written.value, DeleteId(s, j));
      } else if !Clobbers(j, s.keys, s.read.value) {
        WriteKeepsSource(j, s.keys, s.read.value, s.written.value);
      }
    }
  }

  /** Where names tell buckets apart, the data is always at the source, or written to the target as read. */
  lemma NothingIsLost(s: State, j: Job)
    requires Reachable(s, j) && ValidWorld(j.world) && !s.foreign && NamesTell(j)
    ensures s.read.Some? && !s.erased ==> SourceHas(s.world, j, s.keys.0, s.read.value)
    ensures s.erased ==>
              && s.read.Some? && s.written.Some? && TargetHolds(s.world, j, s.keys.1, s.written.value)
              && (s.read.value.body == Data(s.written.value) || (s.warning && j.config.noFailOnVerifyError))
  {
    ReachableIsSound(s, j);
    DataFollowsRun(s, j);
    if s.read.Some? { GuardStopsClobbering(j, s.keys, s.read.value); }
  }

  /**
   * Exit 0 of a real move: the version read has left the source, and the target holds the content,
   * unless the move clobbered its source under a second name.
   */
  lemma SuccessMeansMoved(s: State, j: Job)
    requires Reachable(s, j) && ValidWorld(j.world) && !s.foreign
    requires s.pc == Finished(Success) && !j.config.dryRun
    ensures Prepare(j) == Some(s.keys) && ReadSource(j.world, j, s.keys.0) == s.read && s.read.Some? && s.written.Some?
    ensures !SourceHas(s.world, j, s.keys.0, s.read.value)
    ensures TargetHolds(s.world, j, s.keys.1, s.written.value) <==> !Clobbers(j, s.keys, s.read.value)
    ensures Clobbers(j, s.keys, s.read.value) ==> !NamesTell(j)
    ensures !j.config.noFailOnVerifyError ==> s.read.value.body == Data(s.written.value)
  {
    ReachableIsSound(s, j);
    DataFollowsRun(s, j);
    if NamesTell(j) { GuardStopsClobbering(j, s.keys, s.read.value); }
    if j.config.source.S3? {
      var b := j.world.buckets[SourcePlace(j)];
      assert ValidKey(b, Versions(b, s.keys.0));
    }
    EraseEmptiesSource(AfterWrite(s, j), j, s.keys.0, s.read.value, DeleteId(s, j));
  }

  /** A dry run changes nothing. */
  lemma DryRunChangesNothing(s: State, j: Job)
    requires Reachable(s, j) && j.config.dryRun
    ensures s.deletes == 0 && (!s.foreign ==> s.world == j.world)
  {
    ReachableIsSound(s, j);
  }
}
