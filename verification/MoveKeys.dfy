/** Key resolution and the self-move guard of `mv`. Paths are those of a Unix system. */
module MoveKeys {
  import opened Basics
  import opened VersionedStore

  datatype StoragePath = S3(bucket: string, prefix: string) | Local(path: string) | Stdio

  datatype MoveConfig = MoveConfig(
    source: StoragePath,
    target: StoragePath,
    sourceEndpoint: Option<string>,
    targetEndpoint: Option<string>,
    versionId: Option<VersionId>,
    dryRun: bool,
    noFailOnVerifyError: bool)

  datatype KeyError = SourceKeyRequired | TargetKeyRequired

  predicate EndsWithSlash(s: string) { s != [] && s[|s|-1] == '/' }

  function AfterLastSlash(s: string): string {
    if s == [] || s[|s|-1] == '/' then [] else AfterLastSlash(s[..|s|-1]) + [s[|s|-1]]
  }

  /** The path without trailing separators and `.` components, which do not name a file. */
  function TrimTail(s: string): string
    decreases |s|
  {
    if EndsWithSlash(s) then TrimTail(s[..|s|-1])
    else if s == "." then ""
    else if |s| >= 2 && s[|s|-2..] == "/." then TrimTail(s[..|s|-1])
    else s
  }

  /** The final component of a path, nothing when it ends in `..` or has none. */
  function FileName(s: string): Option<string> {
    var name := AfterLastSlash(TrimTail(s));
    if name == "" || name == ".." then None else Some(name)
  }

  function BaseName(key: string): string {
    match FileName(key) { case Some(name) => name case None => key }
  }

  function JoinPath(dir: string, name: string): string {
    if name != [] && name[0] == '/' then name
    else if dir == [] || EndsWithSlash(dir) then dir + name
    else dir + "/" + name
  }

  /** `isDir` answers for existing local directories. */
  function ExtractKeys(c: MoveConfig, isDir: string -> bool): Result<(string, string), KeyError> {
    if c.source.S3? && c.source.prefix == [] then Err(SourceKeyRequired)
    else
      var sourceKey := match c.source { case S3(_, prefix) => prefix case Local(path) => path case Stdio => "" };
      var base := BaseName(sourceKey);
      match c.target
      case S3(_, prefix) =>
        if prefix == [] || EndsWithSlash(prefix)
        then if base == [] then Err(TargetKeyRequired) else Ok((sourceKey, prefix + base))
        else Ok((sourceKey, prefix))
      case Local(path) =>
        if isDir(path) || EndsWithSlash(path) then Ok((sourceKey, JoinPath(path, base))) else Ok((sourceKey, path))
      case Stdio => Ok((sourceKey, ""))
  }

  /** A key without slashes, and not `.` or `..`, is its own base name. */
  lemma {:induction false} PlainAfterSlash(name: string)
    requires forall i :: 0 <= i < |name| ==> name[i] != '/'
    ensures AfterLastSlash(name) == name
  {
    if name != [] { PlainAfterSlash(name[..|name|-1]); }
  }

  lemma {:induction false} AfterSlashOf(dir: string, name: string)
    requires forall i :: 0 <= i < |name| ==> name[i] != '/'
    ensures AfterLastSlash(dir + "/" + name) == name
  {
    var s := dir + "/" + name;
    if name != [] {
      assert s[..|s|-1] == dir + "/" + name[..|name|-1];
      AfterSlashOf(dir, name[..|name|-1]);
    } else {
      assert s[|s|-1] == '/';
    }
  }

  /** Nothing, or a path ending in a separator. */
  predicate DirectoryStyle(s: string) { s == [] || EndsWithSlash(s) }

  /** A file name proper. */
  predicate PlainName(name: string) {
    name != [] && name != "." && name != ".." && forall i :: 0 <= i < |name| ==> name[i] != '/'
  }

  /** A key that ends in such a name keeps it when trimmed. */
  lemma PlainEnding(dir: string, name: string)
    requires PlainName(name) && DirectoryStyle(dir)
    ensures TrimTail(dir + name) == dir + name
  {
    var key := dir + name;
    assert key[|key|-1] == name[|name|-1];
    if |name| == 1 {
      assert key != ".";
      assert |key| >= 2 ==> key[|key|-2..][1] == name[0] != '.';
    } else {
      assert key[|key|-2..][0] == name[|name|-2];
    }
  }

  lemma BaseNameIs(dir: string, name: string)
    requires PlainName(name) && DirectoryStyle(dir)
    ensures BaseName(dir + name) == name
  {
    PlainEnding(dir, name);
    if dir == [] {
      assert dir + name == name;
      PlainAfterSlash(name);
    } else {
      assert dir + name == dir[..|dir|-1] + "/" + name;
      AfterSlashOf(dir[..|dir|-1], name);
    }
  }

  /** A separator at the end, and a `.` component, do not change the file name; `..` has none. */
  lemma TrailingPartsIgnored(s: string)
    ensures FileName(s + "/") == FileName(s) && FileName(s + "/.") == FileName(s)
    ensures DirectoryStyle(s) ==> FileName(s + "..") == None
  {
    var slash, dot := s + "/", s + "/.";
    assert slash[..|slash|-1] == s && slash[|slash|-1] == '/';
    assert dot[..|dot|-1] == slash && dot[|dot|-2..] == "/.";
    if DirectoryStyle(s) {
      var up := s + "..";
      assert up[|up|-2..] == ".." && up[|up|-1] == '.';
      assert ".."[..1] == ".";
      if s == [] {
        assert up == "..";
        PlainAfterSlash("..");
      } else {
        assert up == s[..|s|-1] + "/" + "..";
        AfterSlashOf(s[..|s|-1], "..");
      }
    }
  }

  /** The source key is the source's; a target that names no directory is the target key. */
  lemma KeysAreThoseNamed(c: MoveConfig, isDir: string -> bool, keys: (string, string))
    requires ExtractKeys(c, isDir) == Ok(keys)
    ensures c.source.S3? ==> keys.0 == c.source.prefix != []
    ensures c.source.Local? ==> keys.0 == c.source.path
    ensures c.target.S3? && !DirectoryStyle(c.target.prefix) ==> keys.1 == c.target.prefix
    ensures c.target.Local? && !isDir(c.target.path) && !EndsWithSlash(c.target.path) ==> keys.1 == c.target.path
  {
  }

  /** A target that names a directory, the empty prefix included, takes the source's file name under it. */
  lemma DirectoryTakesTheName(c: MoveConfig, isDir: string -> bool, keys: (string, string), dir: string, name: string)
    requires ExtractKeys(c, isDir) == Ok(keys) && keys.0 == dir + name && PlainName(name) && DirectoryStyle(dir)
    ensures c.target.S3? && DirectoryStyle(c.target.prefix) ==> keys.1 == c.target.prefix + name
    ensures c.target.Local? && EndsWithSlash(c.target.path) ==> keys.1 == c.target.path + name
    ensures c.target.Local? && isDir(c.target.path) && !DirectoryStyle(c.target.path) ==>
              keys.1 == c.target.path + "/" + name
  {
    BaseNameIs(dir, name);
  }

  /** So `mv s3://b/dir/f s3://b2/dir2/` always resolves, and `mv s3://b/dir/f s3://b/dir/` aims at `f` itself. */
  lemma DirectoryTargetResolves(c: MoveConfig, isDir: string -> bool, dir: string, name: string)
    requires PlainName(name) && DirectoryStyle(dir)
    requires c.source.S3? && c.source.prefix == dir + name
    requires c.target.S3? && DirectoryStyle(c.target.prefix)
    ensures ExtractKeys(c, isDir) == Ok((c.source.prefix, c.target.prefix + name))
  {
    BaseNameIs(dir, name);
  }

  datatype GuardError = SelfMove | Keys(error: KeyError)

  /** Rejects a move of an object onto itself; an explicit version other than `null` is a promotion. */
  function CheckNotSelfMove(c: MoveConfig, isDir: string -> bool): Result<(), GuardError> {
    if !c.source.S3? || !c.target.S3? then Ok(())
    else if c.source.bucket != c.target.bucket then Ok(())
    else if c.sourceEndpoint != c.targetEndpoint then Ok(())
    else
      match ExtractKeys(c, isDir)
      case Err(e) => Err(Keys(e))
      case Ok((sourceKey, targetKey)) =>
        if sourceKey != targetKey then Ok(())
        else if c.versionId.Some? && !c.versionId.value.Null? then Ok(())
        else Err(SelfMove)
  }

  /** What the guard rejects: one bucket and endpoint by name, one key, and no version other than `null` asked for. */
  lemma GuardRejectsIff(c: MoveConfig, isDir: string -> bool, keys: (string, string))
    requires ExtractKeys(c, isDir) == Ok(keys)
    ensures CheckNotSelfMove(c, isDir).Err?
            <==> && c.source.S3? && c.target.S3? && c.source.bucket == c.target.bucket
                 && c.sourceEndpoint == c.targetEndpoint && keys.0 == keys.1
                 && (c.versionId == None || c.versionId == Some(Null))
  {
  }
}
