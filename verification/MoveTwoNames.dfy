/** Moves of an object onto itself under a second name of its bucket, which the self-move guard does not see. */
module MoveTwoNames {
  import opened Basics
  import opened VersionedStore
  import opened MoveKeys
  import opened Move
  import opened MoveRuns

  const HOME := Place("home", "b")
  const ORIGINAL := Version(Null, Data("d"))
  const ONE_OBJECT := World(map[HOME := Bucket(Unversioned, 0, map["k" := [ORIGINAL]])], map[])
  const NO_OBJECT := World(map[HOME := Bucket(Unversioned, 0, map["k" := []])], map[])

  /** `mv s3://from.1/k s3://to.1/k` through endpoints `from.0` and `to.0`, all leading to one bucket. */
  function NamedTwice(from: (Option<string>, string), to: (Option<string>, string)): Job {
    Job(MoveConfig(S3(from.1, "k"), S3(to.1, "k"), from.0, to.0, None, false, false),
        _ => false, (_, _) => HOME, ONE_OBJECT, false)
  }

  lemma RewriteOriginal(from: (Option<string>, string), to: (Option<string>, string))
    ensures WriteTarget(ONE_OBJECT, NamedTwice(from, to), "k", "d") == ONE_OBJECT
    ensures DeleteSource(ONE_OBJECT, NamedTwice(from, to), "k", None) == NO_OBJECT
  {
    var b := ONE_OBJECT.buckets[HOME];
    assert Drop([ORIGINAL], Null) == [];
    assert Put(b, "k", "d").keys["k"] == [] + [ORIGINAL] == [ORIGINAL];
    assert Put(b, "k", "d").keys == b.keys;
    assert Delete(b, "k", None).keys == map["k" := []];
    assert WriteTarget(ONE_OBJECT, NamedTwice(from, to), "k", "d").buckets == ONE_OBJECT.buckets;
    assert DeleteSource(ONE_OBJECT, NamedTwice(from, to), "k", None).buckets == NO_OBJECT.buckets;
  }

  /** The run of such a move up to `pc`, the object copied onto itself. */
  function CopiedOver(j: Job, pc: Point): State {
    Init(j).(pc := pc, handler := Listening, keys := ("k", "k"),
             read := Some(ORIGINAL), written := Some("d"), transfer := Some(Copied(None)))
  }

  lemma TwiceNamedCopies(from: (Option<string>, string), to: (Option<string>, string)) returns (s: State)
    requires from != to
    ensures var j := NamedTwice(from, to); Reachable(s, j) && s == CopiedOver(j, AtFlag)
  {
    var j := NamedTwice(from, to);
    s := Init(j);
    assert Exec(s, [], j) == Some(s);
    assert Prepare(j) == Some(("k", "k"));
    s := Then(s, Start, j);
    s := Then(s, CopyRead, j);
    s := Then(s, CopyWrite("d", false), j);
    RewriteOriginal(from, to);
    s := Then(s, CopyDone(None), j);
  }

  /**
   * Any two names that lead to one bucket without versioning, be it the endpoints that differ or the
   * bucket names: the move exits 0 and leaves nothing at all.
   */
  lemma TwiceNamedMoveLosesTheObject(from: (Option<string>, string), to: (Option<string>, string)) returns (s: State)
    requires from != to
    ensures Reachable(s, NamedTwice(from, to)) && ValidWorld(ONE_OBJECT) && !s.foreign && !s.warning
    ensures s.pc == Finished(Success) && s.world == NO_OBJECT
  {
    var j := NamedTwice(from, to);
    s := TwiceNamedCopies(from, to);
    s := PassesGates(s, j);
    RewriteOriginal(from, to);
    s := Then(s, DeleteCall(true, true), j);
  }
}
