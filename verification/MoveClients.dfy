/** `mv` among other clients of the store: which versions it takes away. */
module MoveClients {
  import opened Basics
  import opened VersionedStore
  import opened MoveKeys
  import opened Move

  /** The one change a step makes to the store, the move's own steps included. */
  function StoreOp(s: State, a: Action, j: Job): Option<WriterOp>
    requires CanTake(s, a, j)
  {
    match a
    case Writer(op) => Some(op)
    case CopyWrite(content, _) =>
      if j.config.target.S3? then Some(PutObject(TargetPlace(j), s.keys.1, content))
      else if j.config.target.Local? then Some(SetFile(s.keys.1, Some(content)))
      else None
    case DeleteCall(_, effect) =>
      if !effect then None
      else if j.config.source.S3? then Some(DeleteObject(SourcePlace(j), s.keys.0, DeleteId(s, j)))
      else if j.config.source.Local? then Some(SetFile(s.keys.0, None))
      else None
    case _ => None
  }

  lemma StepIsStoreOp(s: State, a: Action, j: Job)
    requires CanTake(s, a, j)
    ensures var op := StoreOp(s, a, j);
            Step(s, a, j).world == if op.Some? then WriterEffect(s.world, op.value) else s.world
  {
  }

  /** Bucket `p` after an operation: as it was, or put to, or deleted from. */
  function BucketEffect(b: Bucket, p: Place, op: WriterOp): Bucket {
    match op
    case PutObject(q, key, content) => if q == p then Put(b, key, content) else b
    case DeleteObject(q, key, id) => if q == p then Delete(b, key, id) else b
    case SetFile(_, _) => b
  }

  lemma OpOnBuckets(w: World, op: WriterOp)
    ensures WriterEffect(w, op).buckets.Keys == w.buckets.Keys
    ensures forall p :: p in w.buckets ==> WriterEffect(w, op).buckets[p] == BucketEffect(w.buckets[p], p, op)
  {
  }

  lemma BucketStaysSound(b: Bucket, p: Place, op: WriterOp)
    requires Valid(b)
    ensures var b' := BucketEffect(b, p, op); Valid(b') && b'.mode == b.mode && b'.nextId >= b.nextId
  {
    match op
    case PutObject(q, key, content) => PutKeepsValid(b, key, content);
    case DeleteObject(q, key, id) => DeleteKeepsValid(b, key, id);
    case SetFile(_, _) =>
  }

  /** With versioning on, only a delete naming a version removes it. */
  lemma VersionStays(b: Bucket, p: Place, op: WriterOp, key: string, v: Version)
    requires b.mode.Enabled? && v in Versions(b, key)
    requires op != DeleteObject(p, key, Some(v.id))
    ensures v in Versions(BucketEffect(b, p, op), key)
  {
    match op
    case PutObject(q, k, content) => EnabledOnlyGrows(b, k, content, key, v);
    case DeleteObject(q, k, id) => EnabledOnlyGrows(b, k, "", key, v);
    case SetFile(_, _) =>
  }

  /** Buckets stay, keep their versioning mode, and use up ids in order. */
  ghost predicate StoreSound(w: World, j: Job) {
    && w.buckets.Keys == j.world.buckets.Keys
    && forall p :: p in w.buckets ==> Valid(w.buckets[p]) && w.buckets[p].mode == j.world.buckets[p].mode
  }

  lemma StepKeepsStore(s: State, a: Action, j: Job)
    requires CanTake(s, a, j) && StoreSound(s.world, j)
    ensures StoreSound(Step(s, a, j).world, j)
    ensures forall p :: p in s.world.buckets ==> Step(s, a, j).world.buckets[p].nextId >= s.world.buckets[p].nextId
  {
    StepIsStoreOp(s, a, j);
    var op := StoreOp(s, a, j);
    if op.Some? {
      OpOnBuckets(s.world, op.value);
      forall p | p in s.world.buckets
        ensures var b' := BucketEffect(s.world.buckets[p], p, op.value);
                Valid(b') && b'.mode == s.world.buckets[p].mode && b'.nextId >= s.world.buckets[p].nextId
      {
        BucketStaysSound(s.world.buckets[p], p, op.value);
      }
    }
  }

  /** The id read from an S3 source is a used one. */
  ghost predicate ReadIdUsed(s: State, j: Job) {
    s.read.Some? && j.config.source.S3? ==>
      && SourcePlace(j) in s.world.buckets
      && (s.read.value.id.Null? || s.read.value.id.n < s.world.buckets[SourcePlace(j)].nextId)
      && (s.world.buckets[SourcePlace(j)].mode.Unversioned? ==> s.read.value.id.Null?)
  }

  lemma OnlyTheCopyReads(s: State, a: Action, j: Job)
    requires CanTake(s, a, j) && !a.Start? && !a.CopyRead?
    ensures Step(s, a, j).read == s.read && Step(s, a, j).keys == s.keys
  {
    if a.Decide? { DecideTouchesNothing(s, j); }
  }

  lemma StepKeepsReadId(s: State, a: Action, j: Job)
    requires CanTake(s, a, j) && StoreSound(s.world, j) && ReadIdUsed(s, j)
    ensures ReadIdUsed(Step(s, a, j), j)
  {
    StepKeepsStore(s, a, j);
    if a.CopyRead? {
      if j.config.source.S3? {
        var b := s.world.buckets[SourcePlace(j)];
        assert ValidKey(b, Versions(b, s.keys.0));
      }
    } else if a.Start? {
    } else {
      OnlyTheCopyReads(s, a, j);
    }
  }

  ghost predicate HasVersion(w: World, p: Place, key: string, v: Version) {
    p in w.buckets && v in Versions(w.buckets[p], key)
  }

  /** The version this move read, at the place it read it. */
  predicate IsTheOneRead(s: State, j: Job, p: Place, key: string, v: Version) {
    j.config.source.S3? && p == SourcePlace(j) && key == s.keys.0 && s.read.Some? && v.id == s.read.value.id
  }

  /** On a bucket with versioning, the move's own steps remove no version but the one read. */
  lemma OnlyTheVersionReadGoes(s: State, a: Action, j: Job, p: Place, key: string, v: Version)
    requires CanTake(s, a, j) && Sound(s, j) && StoreSound(s.world, j)
    requires HasVersion(s.world, p, key, v) && s.world.buckets[p].mode.Enabled?
    requires a != Writer(DeleteObject(p, key, Some(v.id)))
    ensures HasVersion(Step(s, a, j).world, p, key, v) || IsTheOneRead(s, j, p, key, v)
  {
    StepIsStoreOp(s, a, j);
    var op := StoreOp(s, a, j);
    if op.Some? {
      OpOnBuckets(s.world, op.value);
      if op.value == DeleteObject(p, key, Some(v.id)) {
        DeleteAimsAtRead(s, a, j);
      } else {
        VersionStays(s.world.buckets[p], p, op.value, key, v);
      }
    }
  }

  /** On a bucket with versioning the delete names the version read: the explicit one, or the captured one. */
  lemma DeleteAimsAtRead(s: State, a: Action, j: Job)
    requires CanTake(s, a, j) && Sound(s, j) && a.DeleteCall? && j.config.source.S3?
    requires SourcePlace(j) in j.world.buckets && j.world.buckets[SourcePlace(j)].mode.Enabled?
    ensures s.read.Some? && DeleteId(s, j) == Some(s.read.value.id)
  {
  }

  /** Once the copy has read, the version read and the keys are fixed. */
  lemma ReadStaysOneStep(s: State, a: Action, j: Job)
    requires CanTake(s, a, j) && CopyFacts(s, j) && s.read.Some?
    ensures Step(s, a, j).read == s.read && Step(s, a, j).keys == s.keys
  {
    if !a.Start? && !a.CopyRead? { OnlyTheCopyReads(s, a, j); }
  }

  /** Over a whole run every version other clients leave alone is still there, or was the one read. */
  lemma {:induction false} OthersVersionsSurvive(s: State, schedule: seq<Action>, j: Job,
                                                 p: Place, key: string, v: Version)
    requires Sound(s, j) && StoreSound(s.world, j) && Exec(s, schedule, j).Some?
    requires p in j.world.buckets && j.world.buckets[p].mode.Enabled?
    requires HasVersion(s.world, p, key, v) || IsTheOneRead(s, j, p, key, v)
    requires Writer(DeleteObject(p, key, Some(v.id))) !in schedule
    ensures var s' := Exec(s, schedule, j).value;
            HasVersion(s'.world, p, key, v) || IsTheOneRead(s', j, p, key, v)
    decreases |schedule|
  {
    if schedule != [] {
      var a := schedule[0];
      StepKeeps(s, a, j);
      StepKeepsStore(s, a, j);
      if IsTheOneRead(s, j, p, key, v) {
        ReadStaysOneStep(s, a, j);
      } else {
        OnlyTheVersionReadGoes(s, a, j, p, key, v);
      }
      OthersVersionsSurvive(Step(s, a, j), schedule[1..], j, p, key, v);
    }
  }

  lemma {:induction false} ExecKeepsStore(s: State, schedule: seq<Action>, j: Job)
    requires StoreSound(s.world, j) && ReadIdUsed(s, j) && Exec(s, schedule, j).Some?
    ensures var s' := Exec(s, schedule, j).value; StoreSound(s'.world, j) && ReadIdUsed(s', j)
    decreases |schedule|
  {
    if schedule != [] {
      StepKeepsStore(s, schedule[0], j);
      StepKeepsReadId(s, schedule[0], j);
      ExecKeepsStore(Step(s, schedule[0], j), schedule[1..], j);
    }
  }

  lemma {:induction false} ReadStays(s: State, schedule: seq<Action>, j: Job)
    requires Sound(s, j) && s.read.Some? && Exec(s, schedule, j).Some?
    ensures Exec(s, schedule, j).value.read == s.read && Exec(s, schedule, j).value.keys == s.keys
    decreases |schedule|
  {
    if schedule != [] {
      StepKeeps(s, schedule[0], j);
      ReadStaysOneStep(s, schedule[0], j);
      ReadStays(Step(s, schedule[0], j), schedule[1..], j);
    }
  }

  /**
   * A client overwrites the source between the copy's read and its delete: on a bucket with
   * versioning the new version outlives the move, however the rest of the run goes.
   */
  lemma OverwriteOutlivesMove(s: State, content: string, schedule: seq<Action>, j: Job, s1: State, v: Version)
    requires Reachable(s, j) && ValidWorld(j.world) && s.read.Some? && j.config.source.S3?
    requires SourcePlace(j) in j.world.buckets && j.world.buckets[SourcePlace(j)].mode.Enabled?
    requires s1 == Step(s, Writer(PutObject(SourcePlace(j), s.keys.0, content)), j) && Exec(s1, schedule, j).Some?
    requires SourcePlace(j) in s.world.buckets ==> v == Version(PutId(s.world.buckets[SourcePlace(j)]), Data(content))
    requires Writer(DeleteObject(SourcePlace(j), s.keys.0, Some(v.id))) !in schedule
    ensures HasVersion(s1.world, SourcePlace(j), s.keys.0, v)
    ensures HasVersion(Exec(s1, schedule, j).value.world, SourcePlace(j), s.keys.0, v)
  {
    var start :| Exec(Init(j), start, j) == Some(s);
    ReachableIsSound(s, j);
    ExecKeepsStore(Init(j), start, j);
    var a := Writer(PutObject(SourcePlace(j), s.keys.0, content));
    StepKeeps(s, a, j);
    StepKeepsStore(s, a, j);
    OthersVersionsSurvive(s1, schedule, j, SourcePlace(j), s.keys.0, v);
    ReadStays(s1, schedule, j);
  }

  /**
   * The copy writes to a bucket with versioning: what it wrote outlives the move and everything other
   * clients do, unless one of them deletes that very version.
   */
  lemma WrittenOutlivesMove(s: State, content: string, warns: bool, schedule: seq<Action>, j: Job,
                            s1: State, v: Version)
    requires Reachable(s, j) && ValidWorld(j.world) && CanTake(s, CopyWrite(content, warns), j)
    requires j.config.target.S3? && TargetPlace(j) in j.world.buckets && j.world.buckets[TargetPlace(j)].mode.Enabled?
    requires s1 == Step(s, CopyWrite(content, warns), j) && Exec(s1, schedule, j).Some?
    requires v == Version(PutId(s.world.buckets[TargetPlace(j)]), Data(content))
    requires Writer(DeleteObject(TargetPlace(j), s.keys.1, Some(v.id))) !in schedule
    ensures HasVersion(s1.world, TargetPlace(j), s.keys.1, v)
    ensures HasVersion(Exec(s1, schedule, j).value.world, TargetPlace(j), s.keys.1, v)
  {
    var start :| Exec(Init(j), start, j) == Some(s);
    ReachableIsSound(s, j);
    ExecKeepsStore(Init(j), start, j);
    StepKeeps(s, CopyWrite(content, warns), j);
    StepKeepsStore(s, CopyWrite(content, warns), j);
    OthersVersionsSurvive(s1, schedule, j, TargetPlace(j), s.keys.1, v);
    ReadStays(s1, schedule, j);
  }

  /** About to delete, whatever other clients did: the aim is the version read, in a well-formed bucket. */
  lemma AboutToDelete(s: State, j: Job)
    requires Reachable(s, j) && ValidWorld(j.world) && s.pc.AtDelete? && j.config.source.S3?
    ensures s.read.Some? && SourcePlace(j) in s.world.buckets && Valid(s.world.buckets[SourcePlace(j)])
    ensures var mode := s.world.buckets[SourcePlace(j)].mode;
            || DeleteId(s, j) == Some(s.read.value.id)
            || (DeleteId(s, j) == None && mode.Unversioned? && s.read.value.id.Null?)
    ensures var b := s.world.buckets[SourcePlace(j)];
            b.mode.Enabled? ==> s.read.value.id != PutId(b)
  {
    var start :| Exec(Init(j), start, j) == Some(s);
    ReachableIsSound(s, j);
    ExecKeepsStore(Init(j), start, j);
  }

  /** The delete takes away the version read and no other. */
  lemma DeleteRemovesExactly(s: State, j: Job, ok: bool, v: Version)
    requires Reachable(s, j) && ValidWorld(j.world) && s.pc.AtDelete? && j.config.source.S3?
    requires HasVersion(s.world, SourcePlace(j), s.keys.0, v)
    ensures s.read.Some?
    ensures HasVersion(Step(s, DeleteCall(ok, true), j).world, SourcePlace(j), s.keys.0, v) <==> v.id != s.read.value.id
  {
    AboutToDelete(s, j);
    DeleteRemovesOnly(s.world.buckets[SourcePlace(j)], s.keys.0, v, s.read.value.id, DeleteId(s, j));
  }

  /**
   * Another client overwrites the source just before the delete: the new version survives exactly with
   * versioning, or with versioning suspended when the version read is not the `null` one.
   */
  lemma OverwriteSurvivesDeleteIff(s: State, j: Job, ok: bool, content: string, s1: State, v: Version)
    requires Reachable(s, j) && ValidWorld(j.world) && s.pc.AtDelete? && j.config.source.S3?
    requires SourcePlace(j) in s.world.buckets && v == Version(PutId(s.world.buckets[SourcePlace(j)]), Data(content))
    requires s1 == Step(s, Writer(PutObject(SourcePlace(j), s.keys.0, content)), j)
    ensures s.read.Some?
    ensures HasVersion(Step(s1, DeleteCall(ok, true), j).world, SourcePlace(j), s.keys.0, v)
            <==> s.world.buckets[SourcePlace(j)].mode.Enabled? || !s.read.value.id.Null?
  {
    AboutToDelete(s, j);
    var a := Writer(PutObject(SourcePlace(j), s.keys.0, content));
    var s2 := Then(s, a, j);
    DeleteRemovesExactly(s2, j, ok, v);
  }
}
