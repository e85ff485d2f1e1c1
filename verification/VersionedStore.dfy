/** A small S3 store: buckets without versioning, with it, and with it suspended. */
module VersionedStore {
  import opened Basics

  /** `Null` is the `null` version of objects written without versioning. */
  datatype VersionId = Null | Id(n: nat)

  datatype Body = Data(content: string) | DeleteMarker

  datatype Version = Version(id: VersionId, body: Body)

  datatype Mode = Unversioned | Enabled | Suspended

  /** Versions of a key are oldest first; ids below `nextId` may have been used. */
  datatype Bucket = Bucket(mode: Mode, nextId: nat, keys: map<string, seq<Version>>)

  function Versions(b: Bucket, key: string): seq<Version> {
    if key in b.keys then b.keys[key] else []
  }

  predicate DistinctIds(vs: seq<Version>) {
    forall i, j :: 0 <= i < j < |vs| ==> vs[i].id != vs[j].id
  }

  /** Ids are used once and handed out in order; without versioning there is only a `null` object. */
  ghost predicate Valid(b: Bucket) {
    forall key :: ValidKey(b, Versions(b, key))
  }

  predicate ValidKey(b: Bucket, vs: seq<Version>) {
    && DistinctIds(vs)
    && (forall v :: v in vs ==> v.id.Null? || v.id.n < b.nextId)
    && (b.mode.Unversioned? ==> forall v :: v in vs ==> v.id.Null? && v.body.Data?)
  }

  function Drop(vs: seq<Version>, id: VersionId): (r: seq<Version>)
    ensures forall v :: v in r <==> v in vs && v.id != id
  {
    if vs == [] then []
    else
      var last := vs[|vs|-1];
      assert vs == vs[..|vs|-1] + [last];
      if last.id == id then Drop(vs[..|vs|-1], id) else Drop(vs[..|vs|-1], id) + [last]
  }

  lemma {:induction false} DropKeepsDistinct(vs: seq<Version>, id: VersionId)
    requires DistinctIds(vs)
    ensures DistinctIds(Drop(vs, id))
  {
    if vs != [] {
      var init, last := vs[..|vs|-1], vs[|vs|-1];
      DropKeepsDistinct(init, id);
      assert forall v :: v in Drop(init, id) ==> v in init && v.id != last.id;
    }
  }

  /** The newest version stays newest when another one is dropped. */
  lemma DropKeepsLast(vs: seq<Version>, id: VersionId)
    requires vs != [] && vs[|vs|-1].id != id
    ensures var r := Drop(vs, id); r != [] && r[|r|-1] == vs[|vs|-1]
  {
  }

  function SetVersions(b: Bucket, key: string, vs: seq<Version>): Bucket {
    b.(keys := b.keys[key := vs])
  }

  /** A new version where versioning is on; elsewhere the `null` version is replaced. */
  function Put(b: Bucket, key: string, content: string): Bucket {
    var vs := Versions(b, key);
    match b.mode
    case Enabled => SetVersions(b, key, vs + [Version(Id(b.nextId), Data(content))]).(nextId := b.nextId + 1)
    case _ => SetVersions(b, key, Drop(vs, Null) + [Version(Null, Data(content))])
  }

  /** The id the next put gives. */
  function PutId(b: Bucket): VersionId { if b.mode.Enabled? then Id(b.nextId) else Null }

  /** With an id, that version is gone for good; without one, versioned buckets get a delete marker. */
  function Delete(b: Bucket, key: string, id: Option<VersionId>): Bucket {
    var vs := Versions(b, key);
    match id
    case Some(v) => SetVersions(b, key, Drop(vs, v))
    case None =>
      match b.mode {
        case Enabled => SetVersions(b, key, vs + [Version(Id(b.nextId), DeleteMarker)]).(nextId := b.nextId + 1)
        case Suspended => SetVersions(b, key, Drop(vs, Null) + [Version(Null, DeleteMarker)])
        case Unversioned => SetVersions(b, key, Drop(vs, Null))
      }
  }

  /** The newest version, or the one asked for, when it is not a delete marker. */
  function Read(b: Bucket, key: string, id: Option<VersionId>): (r: Option<Version>)
    ensures r.Some? ==> r.value in Versions(b, key) && r.value.body.Data? && (id.Some? ==> r.value.id == id.value)
  {
    match id
    case None => Newest(Versions(b, key))
    case Some(v) => Find(Versions(b, key), v)
  }

  function Newest(vs: seq<Version>): Option<Version> {
    if vs != [] && vs[|vs|-1].body.Data? then Some(vs[|vs|-1]) else None
  }

  function Find(vs: seq<Version>, id: VersionId): (r: Option<Version>)
    ensures r.Some? ==> r.value in vs && r.value.body.Data? && r.value.id == id
  {
    if vs == [] then None
    else if vs[0].id == id && vs[0].body.Data? then Some(vs[0])
    else Find(vs[1..], id)
  }

  lemma PutKeepsValid(b: Bucket, key: string, content: string)
    requires Valid(b)
    ensures Valid(Put(b, key, content))
  {
    var b' := Put(b, key, content);
    DropKeepsDistinct(Versions(b, key), Null);
    forall k ensures ValidKey(b', Versions(b', k)) {
      assert ValidKey(b, Versions(b, k));
      if k == key { assert ValidKey(b, Versions(b, key)); }
    }
  }

  lemma DeleteKeepsValid(b: Bucket, key: string, id: Option<VersionId>)
    requires Valid(b)
    ensures Valid(Delete(b, key, id))
  {
    var b' := Delete(b, key, id);
    DropKeepsDistinct(Versions(b, key), if id.Some? then id.value else Null);
    forall k ensures ValidKey(b', Versions(b', k)) {
      assert ValidKey(b, Versions(b, k));
      if k == key { assert ValidKey(b, Versions(b, key)); }
    }
  }

  /** What was put is what a plain read then returns. */
  lemma PutThenRead(b: Bucket, key: string, content: string)
    ensures Read(Put(b, key, content), key, None) == Some(Version(PutId(b), Data(content)))
  {
  }

  /** A plain delete hides the key in every mode, and takes away at most the `null` version. */
  lemma PlainDeleteHides(b: Bucket, key: string)
    requires Valid(b)
    ensures Read(Delete(b, key, None), key, None) == None
    ensures forall v :: v in Versions(b, key) && !v.id.Null? ==> v in Versions(Delete(b, key, None), key)
  {
    assert ValidKey(b, Versions(b, key));
    var rest := Versions(Delete(b, key, None), key);
    if b.mode.Unversioned? && rest != [] { assert rest[|rest|-1] in Versions(b, key); }
  }

  /** In a versioned bucket no put and no plain delete removes a version. */
  lemma EnabledOnlyGrows(b: Bucket, key: string, content: string, k: string, v: Version)
    requires b.mode.Enabled? && v in Versions(b, k)
    ensures v in Versions(Put(b, key, content), k)
    ensures v in Versions(Delete(b, key, None), k)
  {
  }

  /**
   * A key is written, by another client or by the copy itself, and then a version it had before is
   * deleted, under its id or plainly where there is no versioning. What was written survives, and
   * is what a plain read returns, exactly when the two do not share the `null` id.
   */
  lemma WrittenSurvivesIff(b: Bucket, key: string, v: Version, content: string, id: Option<VersionId>)
    requires Valid(b) && v in Versions(b, key)
    requires id == Some(v.id) || (id == None && b.mode.Unversioned?)
    ensures var after := Delete(Put(b, key, content), key, id);
            var written := Version(PutId(b), Data(content));
            && (written in Versions(after, key) <==> b.mode.Enabled? || !v.id.Null?)
            && (Read(after, key, None) == Some(written) <==> b.mode.Enabled? || !v.id.Null?)
  {
    assert ValidKey(b, Versions(b, key));
    var put := Put(b, key, content);
    var written := Version(PutId(b), Data(content));
    assert written in Versions(put, key) && Versions(put, key)[|Versions(put, key)| - 1] == written;
    if b.mode.Enabled? || !v.id.Null? { DropKeepsLast(Versions(put, key), v.id); }
  }

  lemma OtherKeyUntouched(b: Bucket, key: string, content: string, other: string, id: Option<VersionId>)
    requires other != key
    ensures Versions(Put(b, other, content), key) == Versions(b, key)
    ensures Versions(Delete(b, other, id), key) == Versions(b, key)
  {
  }

  /** Deleting under the id read, or plainly where there is no versioning, takes that version away. */
  lemma DeleteTakesAway(b: Bucket, key: string, v: Version, id: Option<VersionId>)
    requires v.body.Data? && (id == Some(v.id) || (id == None && b.mode.Unversioned? && v.id.Null?))
    ensures v !in Versions(Delete(b, key, id), key)
  {
  }

  /** A delete aimed at a version removes it and no other, also without an id where there is only the `null` one. */
  lemma DeleteRemovesOnly(b: Bucket, key: string, v: Version, aim: VersionId, id: Option<VersionId>)
    requires Valid(b) && v in Versions(b, key)
    requires id == Some(aim) || (id == None && b.mode.Unversioned? && aim.Null?)
    ensures v in Versions(Delete(b, key, id), key) <==> v.id != aim
  {
    assert ValidKey(b, Versions(b, key));
  }
}
