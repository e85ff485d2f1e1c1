/** `mv` under Ctrl-C, failing workers and cancelled tokens: what is deleted, and with which exit code. */
module MoveInterrupts {
  import opened Basics
  import opened VersionedStore
  import opened MoveKeys
  import opened Move

  /** The token is cancelled before the delete is decided. */
  predicate TokenUp(s: State) {
    s.token && s.deletes == 0 && !s.pc.Begin? && !s.pc.AtDelete? && s.pc != Finished(Success)
  }

  lemma TokenUpStays(s: State, a: Action, j: Job)
    requires TokenUp(s) && CanTake(s, a, j)
    ensures TokenUp(Step(s, a, j))
  {
  }

  /**
   * A token cancelled at any moment before gate 4 has let the run through, by the handler or by a
   * failing worker, leaves the source undeleted and never ends in success.
   */
  lemma {:induction false} CancelledTokenStopsDelete(s: State, schedule: seq<Action>, j: Job)
    requires TokenUp(s) && Exec(s, schedule, j).Some?
    ensures var s' := Exec(s, schedule, j).value; s'.deletes == 0 && s'.pc != Finished(Success)
    decreases |schedule|
  {
    if schedule != [] {
      TokenUpStays(s, schedule[0], j);
      CancelledTokenStopsDelete(Step(s, schedule[0], j), schedule[1..], j);
    }
  }

  lemma NoDeleteDecided(s: State, j: Job)
    requires s.deletes == 0 && CanTake(s, Decide, j)
    requires !(s.pc.Gate4? && !s.token && !j.config.dryRun)
    ensures Decision(s, j).deletes == 0 && !Decision(s, j).pc.AtDelete?
  {
  }

  lemma NoDeleteYet(s: State, a: Action, j: Job)
    requires s.deletes == 0 && !s.pc.AtDelete? && CanTake(s, a, j)
    requires !(s.pc.Gate4? && a.Decide? && !s.token && !j.config.dryRun)
    ensures Step(s, a, j).deletes == 0 && !Step(s, a, j).pc.AtDelete?
  {
    if a.Decide? { NoDeleteDecided(s, j); }
  }

  /** Step `i` of a run takes it through gate 4, where the token is found uncancelled. */
  predicate OpensGateFour(s: State, schedule: seq<Action>, i: nat, j: Job) {
    && i < |schedule| && schedule[i] == Decide && Exec(s, schedule[..i], j).Some?
    && var g := Exec(s, schedule[..i], j).value;
       g.pc.Gate4? && !g.token && !j.config.dryRun
  }

  /** In every run that deletes there is a moment at which gate 4 found the token uncancelled. */
  lemma {:induction false} DeletePassedGateFour(s: State, schedule: seq<Action>, j: Job) returns (i: nat)
    requires s.deletes == 0 && !s.pc.AtDelete?
    requires Exec(s, schedule, j).Some? && Exec(s, schedule, j).value.deletes > 0
    ensures OpensGateFour(s, schedule, i, j)
    decreases |schedule|
  {
    var a := schedule[0];
    if s.pc.Gate4? && a.Decide? && !s.token && !j.config.dryRun {
      i := 0;
    } else {
      NoDeleteYet(s, a, j);
      i := DeletePassedGateFour(Step(s, a, j), schedule[1..], j);
      i := i + 1;
      assert schedule[..i][0] == a && schedule[..i][1..] == schedule[1..][..i-1];
    }
  }

  /**
   * One delete at most, only after an uncancelled, successful copy, on every way there through gate 4
   * with the token uncancelled, and never in a run reported as interrupted.
   */
  lemma DeleteOnlyThroughGates(s: State, j: Job)
    requires Reachable(s, j)
    ensures s.deletes <= 1
    ensures s.deletes == 1 ==>
              && s.transfer.Some? && s.transfer.value.Copied? && !s.cancelled
              && (s.warning ==> j.config.noFailOnVerifyError) && !j.config.dryRun
    ensures s.deletes == 1 ==> forall schedule | Exec(Init(j), schedule, j) == Some(s) ::
                                 exists i :: OpensGateFour(Init(j), schedule, i, j)
    ensures s.pc == Finished(Cancelled) ==> s.deletes == 0
    ensures s.pc == Finished(Success) ==> j.config.dryRun || s.deletes == 1
  {
    ReachableIsSound(s, j);
    forall schedule | s.deletes == 1 && Exec(Init(j), schedule, j) == Some(s)
      ensures exists i :: OpensGateFour(Init(j), schedule, i, j)
    {
      var i := DeletePassedGateFour(Init(j), schedule, j);
    }
  }

  /** On the way to exit 130: the flag was up before it was read, and nothing has been deleted. */
  predicate Doomed(s: State) {
    && s.deletes == 0
    && (((Copying(s.pc) || s.pc.AtFlag?) && s.flag) || (s.pc.Gate1? && s.cancelled) || s.pc == Finished(Cancelled))
  }

  lemma DoomedStays(s: State, a: Action, j: Job)
    requires Doomed(s) && CanTake(s, a, j)
    ensures Doomed(Step(s, a, j))
  {
  }

  /**
   * With the flag up before the phase reads it, the run ends with exit 130 and no delete, whatever
   * became of the copy and of the token.
   */
  lemma {:induction false} FlagForcesCancelled(s: State, schedule: seq<Action>, j: Job)
    requires Doomed(s) && Exec(s, schedule, j).Some?
    ensures var s' := Exec(s, schedule, j).value;
            s'.deletes == 0 && (s'.pc.Finished? ==> ExitCode(s'.pc.exit) == 130)
    decreases |schedule|
  {
    if schedule != [] {
      DoomedStays(s, schedule[0], j);
      FlagForcesCancelled(Step(s, schedule[0], j), schedule[1..], j);
    }
  }

  /** A signal during the copy, once its handler has stored the flag, makes exit 130 and no delete. */
  lemma SignalDuringCopyIs130(s: State, schedule: seq<Action>, j: Job)
    requires Reachable(s, j) && Copying(s.pc) && s.handler.Listening?
    requires Exec(Step(Step(s, Sigint, j), HandlerStore, j), schedule, j).Some?
    ensures var s' := Exec(Step(Step(s, Sigint, j), HandlerStore, j), schedule, j).value;
            s'.deletes == 0 && (s'.pc.Finished? ==> ExitCode(s'.pc.exit) == 130)
  {
    ReachableIsSound(s, j);
    FlagForcesCancelled(Step(Step(s, Sigint, j), HandlerStore, j), schedule, j);
  }

  /** The flag is process-wide and never cleared: once up, every later move that starts copying ends with exit 130. */
  lemma StaleFlagCancels(s: State, schedule: seq<Action>, j: Job)
    requires Reachable(s, j) && s.pc.AtRead? && s.flag
    requires Exec(s, schedule, j).Some? && Exec(s, schedule, j).value.pc.Finished?
    ensures ExitCode(Exec(s, schedule, j).value.pc.exit) == 130 && Exec(s, schedule, j).value.deletes == 0
  {
    ReachableIsSound(s, j);
    FlagForcesCancelled(s, schedule, j);
  }

  /** A handler that has cancelled the token has stored the flag before. */
  lemma FlagBeforeToken(s: State, j: Job)
    requires Reachable(s, j) && CanTake(s, HandlerCancel, j)
    ensures s.flag
  {
    ReachableIsSound(s, j);
  }

  predicate NoSignal(schedule: seq<Action>) {
    forall a :: a in schedule ==> !a.Sigint? && !a.HandlerStore? && !a.HandlerCancel?
  }

  /** The copy has failed for its own reasons and no signal has come. */
  predicate Failing(s: State) {
    && s.deletes == 0 && !s.flag && s.transfer == Some(CopyFailed(false))
    && (s.pc.AtFlag? || s.pc.AtToken? || (s.pc.Gate1? && !s.cancelled) || s.pc.Gate2? || s.pc == Finished(Error))
  }

  lemma FailingStays(s: State, a: Action, j: Job)
    requires Failing(s) && CanTake(s, a, j) && !a.HandlerStore?
    ensures Failing(Step(s, a, j))
  {
  }

  /** A copy that failed for its own reasons is reported as an error, cancelled token or not, when no signal came. */
  lemma {:induction false} RealFailureIsError(s: State, schedule: seq<Action>, j: Job)
    requires Failing(s) && NoSignal(schedule)
    requires Exec(s, schedule, j).Some?
    ensures var s' := Exec(s, schedule, j).value;
            s'.deletes == 0 && (s'.pc.Finished? ==> ExitCode(s'.pc.exit) == 1)
    decreases |schedule|
  {
    if schedule != [] {
      assert schedule[0] in schedule;
      FailingStays(s, schedule[0], j);
      RealFailureIsError(Step(s, schedule[0], j), schedule[1..], j);
    }
  }
}
