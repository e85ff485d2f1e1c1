/** `mv` when nothing is in its way: that it goes through, and where it puts what it moved. */
module MoveRuns {
  import opened Basics
  import opened VersionedStore
  import opened MoveKeys
  import opened Move
  import opened MoveInterrupts

  // ---- Where the content lies ----

  /** After a real move the content is at the key the user named, and the version read gone from the source named. */
  lemma MovedWhereAsked(s: State, j: Job)
    requires Reachable(s, j) && ValidWorld(j.world) && !s.foreign && NamesTell(j)
    requires s.pc == Finished(Success) && !j.config.dryRun
    ensures s.read.Some? && s.written.Some?
    ensures j.config.source.S3? ==> !SourceHas(s.world, j, j.config.source.prefix, s.read.value)
    ensures j.config.source.Local? ==> !SourceHas(s.world, j, j.config.source.path, s.read.value)
    ensures j.config.target.S3? && !DirectoryStyle(j.config.target.prefix) ==>
              TargetHolds(s.world, j, j.config.target.prefix, s.written.value)
    ensures j.config.target.Local? && !j.isDir(j.config.target.path) && !EndsWithSlash(j.config.target.path) ==>
              TargetHolds(s.world, j, j.config.target.path, s.written.value)
    ensures !j.config.noFailOnVerifyError ==> s.read.value.body == Data(s.written.value)
  {
    SuccessMeansMoved(s, j);
    KeysAreThoseNamed(j.config, j.isDir, s.keys);
  }

  /** A move into a directory puts the content under the source's file name there. */
  lemma MovedIntoDirectory(s: State, j: Job, dir: string, name: string)
    requires Reachable(s, j) && ValidWorld(j.world) && !s.foreign && NamesTell(j)
    requires s.pc == Finished(Success) && !j.config.dryRun
    requires PlainName(name) && DirectoryStyle(dir)
    requires match j.config.source
             case S3(_, prefix) => prefix == dir + name
             case Local(path) => path == dir + name
             case Stdio => false
    ensures s.written.Some?
    ensures j.config.target.S3? && DirectoryStyle(j.config.target.prefix) ==>
              TargetHolds(s.world, j, j.config.target.prefix + name, s.written.value)
    ensures j.config.target.Local? && EndsWithSlash(j.config.target.path) ==>
              TargetHolds(s.world, j, j.config.target.path + name, s.written.value)
    ensures j.config.target.Local? && j.isDir(j.config.target.path) && !DirectoryStyle(j.config.target.path) ==>
              TargetHolds(s.world, j, j.config.target.path + "/" + name, s.written.value)
  {
    SuccessMeansMoved(s, j);
    KeysAreThoseNamed(j.config, j.isDir, s.keys);
    DirectoryTakesTheName(j.config, j.isDir, s.keys, dir, name);
  }

  // ---- An undisturbed move goes through ----

  lemma ReadsNoSignal(s: State, j: Job) returns (s': State)
    requires Reachable(s, j) && s.pc.AtFlag? && !s.flag && !s.token && !s.cancelled
    ensures Reachable(s', j) && s' == s.(pc := Gate2, cancelled := false)
  {
    s' := Then(s, Decide, j);
    s' := Then(s', Decide, j);
    s' := Then(s', Decide, j);
  }

  lemma PassesLastGates(s: State, j: Job) returns (s': State)
    requires Reachable(s, j) && s.pc.Gate2? && !s.token && (s.warning ==> j.config.noFailOnVerifyError)
    requires s.transfer.Some? && s.transfer.value.Copied?
    ensures Reachable(s', j) && s' == s.(pc := if j.config.dryRun then Finished(Success) else AtDelete)
  {
    s' := Then(s, Decide, j);
    s' := Then(s', Decide, j);
    s' := Then(s', Decide, j);
  }

  /** Without a signal and with no warning but an accepted one, the copy is followed by the delete. */
  lemma PassesGates(s: State, j: Job) returns (s': State)
    requires Reachable(s, j) && s.pc.AtFlag? && !s.flag && !s.token && !s.cancelled
    requires s.transfer.Some? && s.transfer.value.Copied? && (s.warning ==> j.config.noFailOnVerifyError)
    ensures Reachable(s', j)
    ensures s' == s.(pc := if j.config.dryRun then Finished(Success) else AtDelete, cancelled := false)
  {
    s' := ReadsNoSignal(s, j);
    s' := PassesLastGates(s', j);
  }

  /** The copy of a move that passes the checks, with a warning or without. */
  lemma Copies(j: Job, keys: (string, string), v: Version, content: string, warns: bool) returns (s: State)
    requires Prepare(j) == Some(keys) && !j.config.dryRun && ReadSource(j.world, j, keys.0) == Some(v)
    requires j.config.target.S3? ==> TargetPlace(j) in j.world.buckets
    requires !warns ==> v.body == Data(content)
    ensures Reachable(s, j) && s.pc.AtFlag? && s.keys == keys && s.read == Some(v) && s.written == Some(content)
    ensures s.warning == warns && s.flag == j.flag && !s.token && !s.cancelled && !s.foreign && s.deletes == 0
    ensures s.transfer.Some? && s.transfer.value.Copied?
  {
    s := Init(j);
    assert Exec(s, [], j) == Some(s);
    s := Then(s, Start, j);
    s := Then(s, CopyRead, j);
    s := Then(s, CopyWrite(content, warns), j);
    s := Then(s, CopyDone(if j.config.source.S3? then Some(v.id) else None), j);
  }

  /** A move that passes the checks, finds its source and is not disturbed ends with exit 0. */
  lemma UndisturbedMoveSucceeds(j: Job, keys: (string, string), v: Version, content: string, warns: bool)
    returns (s: State)
    requires Prepare(j) == Some(keys) && !j.config.dryRun && ReadSource(j.world, j, keys.0) == Some(v)
    requires j.config.target.S3? ==> TargetPlace(j) in j.world.buckets
    requires if warns then j.config.noFailOnVerifyError else v.body == Data(content)
    requires !j.flag
    ensures Reachable(s, j) && s.pc == Finished(Success) && ExitCode(s.pc.exit) == 0 && !s.foreign
    ensures s.keys == keys && s.read == Some(v) && s.written == Some(content) && s.deletes == 1
  {
    s := Copies(j, keys, v, content, warns);
    s := PassesGates(s, j);
    s := Then(s, DeleteCall(true, true), j);
  }

  /** An undisturbed dry run ends with exit 0. */
  lemma UndisturbedDryRunSucceeds(j: Job, keys: (string, string)) returns (s: State)
    requires Prepare(j) == Some(keys) && j.config.dryRun && !j.flag
    ensures Reachable(s, j) && s.pc == Finished(Success) && ExitCode(s.pc.exit) == 0 && s.world == j.world
  {
    s := Init(j);
    assert Exec(s, [], j) == Some(s);
    s := Then(s, Start, j);
    s := Then(s, DryPhase(Copied(None)), j);
    s := PassesGates(s, j);
  }

  /** Publishing an older version under its own key passes the checks. */
  lemma PromotionPasses(j: Job, n: nat)
    requires j.config.source.S3? && j.config.target == j.config.source && !DirectoryStyle(j.config.source.prefix)
    requires j.config.versionId == Some(Id(n))
    ensures Prepare(j) == Some((j.config.source.prefix, j.config.source.prefix))
  {
  }

  // ---- Exit codes ----

  /** The copy succeeded, or was cancelled, and the token is up before gate 4 has let the run through. */
  predicate Cancelling(s: State, j: Job) {
    && s.token && s.deletes == 0 && s.transfer.Some?
    && (s.transfer.value.Copied? ==> (s.warning ==> j.config.noFailOnVerifyError) && !s.pc.AtDelete?)
    && (s.transfer.value.CopyFailed? ==> s.transfer.value.cancellation && (s.pc.Gate1? ==> s.cancelled))
    && (PhaseOver(s.pc) || s.pc == Finished(Cancelled))
    && (s.transfer.value.CopyFailed? ==> s.pc.AtFlag? || s.pc.AtToken? || s.pc.Gate1? || s.pc.Finished?)
  }

  lemma CancellingStays(s: State, a: Action, j: Job)
    requires Cancelling(s, j) && CanTake(s, a, j)
    ensures Cancelling(Step(s, a, j), j)
  {
  }

  /** Such a run ends with exit 130. */
  lemma {:induction false} CancelledMoveIs130(s: State, schedule: seq<Action>, j: Job)
    requires Cancelling(s, j) && Exec(s, schedule, j).Some?
    ensures var s' := Exec(s, schedule, j).value; s'.pc.Finished? ==> ExitCode(s'.pc.exit) == 130
    decreases |schedule|
  {
    if schedule != [] {
      CancellingStays(s, schedule[0], j);
      CancelledMoveIs130(Step(s, schedule[0], j), schedule[1..], j);
    }
  }

  /** Verification warned, the user did not accept that, and no one has cancelled. */
  predicate Warned(s: State, j: Job) {
    && s.deletes == 0 && !s.flag && !s.token && !s.cancelled && s.warning && !j.config.noFailOnVerifyError
    && s.transfer.Some? && s.transfer.value.Copied?
    && (s.pc.AtFlag? || s.pc.AtToken? || s.pc.Gate1? || s.pc.Gate2? || s.pc.Gate3? || s.pc == Finished(Error))
  }

  lemma WarnedStays(s: State, a: Action, j: Job)
    requires Warned(s, j) && CanTake(s, a, j) && !a.HandlerStore? && !a.HandlerCancel?
    ensures Warned(Step(s, a, j), j)
  {
  }

  /** Without a signal such a run ends with exit 1, the source not deleted. */
  lemma {:induction false} UnacceptedWarningIsError(s: State, schedule: seq<Action>, j: Job)
    requires Warned(s, j) && NoSignal(schedule) && Exec(s, schedule, j).Some?
    ensures var s' := Exec(s, schedule, j).value;
            s'.deletes == 0 && (s'.pc.Finished? ==> ExitCode(s'.pc.exit) == 1)
    decreases |schedule|
  {
    if schedule != [] {
      assert schedule[0] in schedule;
      WarnedStays(s, schedule[0], j);
      UnacceptedWarningIsError(Step(s, schedule[0], j), schedule[1..], j);
    }
  }

  /** A copy that ends cancelled makes exit 130, one that fails otherwise exit 1 if no signal comes. */
  lemma FailedCopyExits(s: State, cancellation: bool, schedule: seq<Action>, j: Job)
    requires Reachable(s, j) && CanTake(s, CopyFails(cancellation), j)
    requires !cancellation ==> !s.flag && NoSignal(schedule)
    requires Exec(Step(s, CopyFails(cancellation), j), schedule, j).Some?
    ensures var s' := Exec(Step(s, CopyFails(cancellation), j), schedule, j).value;
            && s'.deletes == 0
            && (s'.pc.Finished? ==> ExitCode(s'.pc.exit) == if cancellation then 130 else 1)
  {
    ReachableIsSound(s, j);
    var s1 := Step(s, CopyFails(cancellation), j);
    if cancellation {
      CancelledMoveIs130(s1, schedule, j);
      CancelledTokenStopsDelete(s1, schedule, j);
    } else {
      RealFailureIsError(s1, schedule, j);
    }
  }

  /** The delete is aimed at the version asked for, and only without one at the version the copy reports. */
  lemma DeleteNamesTheVersion(s: State, ok: bool, j: Job)
    requires CanTake(s, DeleteCall(ok, true), j)
    ensures var s' := Step(s, DeleteCall(ok, true), j);
            && (j.config.versionId.Some? ==> s'.world == DeleteSource(s.world, j, s.keys.0, j.config.versionId))
            && (j.config.versionId.None? && s.transfer.Some? && s.transfer.value.Copied? ==>
                  s'.world == DeleteSource(s.world, j, s.keys.0, s.transfer.value.captured))
  {
  }

  // ---- Moves rejected before anything is transferred ----

  /** Standard streams, two local paths, a local directory as the source, or a bucket without a key. */
  predicate Senseless(j: Job) {
    || j.config.source.Stdio? || j.config.target.Stdio?
    || (j.config.source.Local? && (j.config.target.Local? || j.isDir(j.config.source.path)))
    || (j.config.source.S3? && j.config.source.prefix == [])
  }

  /** A move passes the checks exactly when it makes sense, its target has a key and the guard lets it through. */
  lemma PassesIff(j: Job)
    ensures Prepare(j).Some?
            <==> !Senseless(j) && ExtractKeys(j.config, j.isDir).Ok? && CheckNotSelfMove(j.config, j.isDir).Ok?
    ensures Prepare(j).Some? ==> ExtractKeys(j.config, j.isDir) == Ok(Prepare(j).value)
  {
  }

  predicate Rejected(s: State) {
    (s.pc.Begin? || s.pc == Finished(Error)) && s.deletes == 0 && s.written.None? && !s.erased
  }

  /** Any other move ends with exit 1 and touches nothing. */
  lemma {:induction false} RejectedMoveExitsOne(s: State, schedule: seq<Action>, j: Job)
    requires Prepare(j).None? && Rejected(s) && Exec(s, schedule, j).Some?
    ensures var s' := Exec(s, schedule, j).value;
            && Rejected(s') && (s'.pc.Finished? ==> ExitCode(s'.pc.exit) == 1)
            && (!s'.foreign ==> s'.world == s.world && !s.foreign)
    decreases |schedule|
  {
    if schedule != [] { RejectedMoveExitsOne(Step(s, schedule[0], j), schedule[1..], j); }
  }
}
