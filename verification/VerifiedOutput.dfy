/**
 * Fetching an annotation into a file: bounded read, integrity check, and replacement of the output
 * file by write, re-read, verify, rename. Every disk operation may fail, and what lands in the
 * temporary file is arbitrary. Checksum arithmetic is a given function of the bytes.
 */
module VerifiedOutput {
  import opened Basics
  import opened Utf8

  // ---- Integrity ----

  /** The additional checksum of a response; an unsupported algorithm cannot be recomputed. */
  datatype Checksum = Checksum(supported: bool, matches: seq<Byte> -> bool)

  /** What a response promises about its payload; the ETag comparison may not apply. */
  datatype Promise = Promise(
    contentLength: Option<int>,
    etagMatches: seq<Byte> -> Option<bool>,
    checksum: Option<Checksum>)

  datatype IntegrityCheck = Verified | Unverifiable

  datatype Error =
    | LengthMismatch | EtagMismatch | UnsupportedChecksum | ChecksumMismatch
    | BodyError | TooLarge | DiskError | OutputError

  function CheckIntegrity(bytes: seq<Byte>, p: Promise): Result<IntegrityCheck, Error> {
    if p.contentLength.Some? && p.contentLength.value != |bytes| then Err(LengthMismatch)
    else
      var etag := p.etagMatches(bytes);
      if etag == Some(false) then Err(EtagMismatch)
      else
        var verified := etag == Some(true);
        match p.checksum
        case None => Ok(if verified then Verified else Unverifiable)
        case Some(c) =>
          if !c.supported then Err(UnsupportedChecksum)
          else if c.matches(bytes) then Ok(Verified)
          else Err(ChecksumMismatch)
  }

  predicate Passes(bytes: seq<Byte>, p: Promise) { CheckIntegrity(bytes, p).Ok? }

  /** Bytes pass exactly when no promise is broken, and count as verified exactly when one was kept. */
  lemma PassesIff(bytes: seq<Byte>, p: Promise)
    ensures Passes(bytes, p)
            <==> && (p.contentLength == None || p.contentLength == Some(|bytes|))
                 && p.etagMatches(bytes) != Some(false)
                 && (p.checksum.Some? ==> p.checksum.value.supported && p.checksum.value.matches(bytes))
    ensures CheckIntegrity(bytes, p) == Ok(Verified)
            <==> Passes(bytes, p) && (p.checksum.Some? || p.etagMatches(bytes) == Some(true))
  {
  }

  // ---- Bounded read ----

  /** 1 MiB. */
  const MAX_PAYLOAD: nat := 1024 * 1024

  function Longest(chunks: seq<seq<Byte>>): nat {
    if chunks == [] then 0 else Max(|chunks[0]|, Longest(chunks[1..]))
  }

  lemma {:induction false} LongestBound(chunks: seq<seq<Byte>>, i: nat)
    requires i < |chunks|
    ensures |chunks[i]| <= Longest(chunks)
  {
    if i > 0 { LongestBound(chunks[1..], i - 1); }
  }

  /** The body arrives in chunks and may break off; it is refused as soon as the cap is passed. */
  method ReadPayload(chunks: seq<seq<Byte>>, breaksOff: bool) returns (r: Result<seq<Byte>, Error>, ghost peak: nat)
    ensures |Flatten(chunks)| > MAX_PAYLOAD ==> r == Err(TooLarge)
    ensures |Flatten(chunks)| <= MAX_PAYLOAD ==> r == if breaksOff then Err(BodyError) else Ok(Flatten(chunks))
    ensures peak <= MAX_PAYLOAD + Longest(chunks)
  {
    var payload: seq<Byte> := [];
    peak := 0;
    for i := 0 to |chunks|
      invariant payload == Flatten(chunks[..i]) && |payload| <= MAX_PAYLOAD
      invariant peak <= MAX_PAYLOAD
    {
      assert chunks[..i+1] == chunks[..i] + [chunks[i]];
      FlattenSnoc(chunks[..i], chunks[i]);
      payload := payload + chunks[i];
      peak := Max(peak, |payload|);
      if |payload| > MAX_PAYLOAD {
        assert chunks == chunks[..i+1] + chunks[i+1..];
        FlattenConcat(chunks[..i+1], chunks[i+1..]);
        LongestBound(chunks, i);
        return Err(TooLarge), peak;
      }
    }
    assert chunks[..|chunks|] == chunks;
    r := if breaksOff then Err(BodyError) else Ok(payload);
  }

  // ---- The disk ----

  type Files = map<string, seq<Byte>>

  function At(files: Files, path: string): Option<seq<Byte>> {
    if path in files then Some(files[path]) else None
  }

  /** `history` records the files after every change. */
  class Disk {
    var files: Files
    ghost var history: seq<Files>

    constructor (files: Files)
      ensures this.files == files && history == []
    {
      this.files, history := files, [];
    }

    method Write(path: string, bytes: seq<Byte>)
      modifies this
      ensures files == old(files)[path := bytes] && history == old(history) + [files]
    {
      files := files[path := bytes];
      history := history + [files];
    }

    method Remove(path: string)
      modifies this
      ensures files == old(files) - {path} && history == old(history) + [files]
    {
      files := files - {path};
      history := history + [files];
    }

    /** One atomic change of the directory. */
    method Rename(from: string, to: string)
      requires from in files && from != to
      modifies this
      ensures files == (old(files) - {from})[to := old(files)[from]] && history == old(history) + [files]
    {
      files := (files - {from})[to := files[from]];
      history := history + [files];
    }
  }

  /** Which operations fail, what becomes of bytes on their way to the disk, and whether a removal fails. */
  datatype Faults = Faults(
    create: bool, write: bool, flush: bool, reread: bool, persist: bool,
    land: seq<Byte> -> seq<Byte>, cleanup: bool)

  predicate DiskFault(f: Faults) { f.create || f.write || f.flush || f.reread || f.persist }

  /** Every state passed through shows `path` with its old content or with bytes that keep the promise. */
  ghost predicate OldOrGood(states: seq<Files>, path: string, before: Option<seq<Byte>>, p: Promise) {
    forall k :: 0 <= k < |states| ==>
      At(states[k], path) == before || (path in states[k] && Passes(states[k][path], p))
  }

  /** The temporary file is dropped on an error; dropping it may itself fail silently. */
  method DropTemp(disk: Disk, tmp: string, faults: Faults)
    modifies disk
    ensures disk.files == if faults.cleanup then old(disk.files) else old(disk.files) - {tmp}
    ensures disk.history == old(disk.history) || disk.history == old(disk.history) + [disk.files]
  {
    if !faults.cleanup {
      disk.Remove(tmp);
    }
  }

  /** `tmp` is the fresh name the temporary file gets in the directory of `outfile`. */
  method WriteVerifiedOutput(disk: Disk, outfile: string, tmp: string, payload: seq<Byte>, p: Promise, faults: Faults)
    returns (r: Result<(), Error>)
    requires tmp !in disk.files && tmp != outfile && disk.history == []
    modifies disk
    ensures OldOrGood(disk.history, outfile, At(old(disk.files), outfile), p)
    ensures r.Err? ==> r.error != OutputError && At(disk.files, outfile) == At(old(disk.files), outfile)
    ensures r.Err? ==> disk.files - {tmp} == old(disk.files) && (!faults.cleanup ==> disk.files == old(disk.files))
    ensures r.Ok? ==> disk.files == old(disk.files)[outfile := faults.land(payload)]
    ensures r.Ok? <==> !DiskFault(faults) && Passes(faults.land(payload), p)
  {
    if faults.create {
      return Err(DiskError);
    }
    disk.Write(tmp, []);
    r := FillTemp(disk, tmp, payload, p, faults);
    if r.Ok? && faults.persist {
      r := Err(DiskError);
    }
    if r.Err? {
      DropTemp(disk, tmp, faults);
      return;
    }
    disk.Rename(tmp, outfile);
    assert disk.files == old(disk.files)[outfile := faults.land(payload)];
  }

  /** Writes, flushes and verifies; whatever is on disk is what gets verified. */
  method FillTemp(disk: Disk, tmp: string, payload: seq<Byte>, p: Promise, faults: Faults)
    returns (r: Result<(), Error>)
    requires tmp in disk.files
    modifies disk
    ensures disk.files == old(disk.files)[tmp := faults.land(payload)]
    ensures disk.history == old(disk.history) + [disk.files]
    ensures r.Ok? <==> !faults.write && !faults.flush && !faults.reread && Passes(faults.land(payload), p)
    ensures r != Err(OutputError)
  {
    disk.Write(tmp, faults.land(payload));
    if faults.write {
      return Err(DiskError);
    }
    if faults.flush {
      return Err(DiskError);
    }
    r := VerifySavedFile(disk, tmp, p, faults);
  }

  /** Re-reads the temporary file and checks what is really on disk. */
  method VerifySavedFile(disk: Disk, tmp: string, p: Promise, faults: Faults) returns (r: Result<(), Error>)
    requires tmp in disk.files
    ensures r.Ok? <==> !faults.reread && Passes(disk.files[tmp], p)
    ensures r != Err(OutputError)
  {
    if faults.reread {
      return Err(DiskError);
    }
    var check := CheckIntegrity(disk.files[tmp], p);
    r := if check.Err? then Err(check.error) else Ok(());
  }

  // ---- The command ----

  datatype Fetch =
    | NotFound
    | Failed
    | Fetched(chunks: seq<seq<Byte>>, breaksOff: bool, promise: Promise, composite: bool)

  datatype Outcome = Success | Missing

  /** Standard output: whether writing the payload fails, or the metadata for a reason other than a closed pipe. */
  datatype OutputFaults = OutputFaults(payload: bool, metadata: bool)

  /** A composite checksum covers parts, not the payload, and is left aside. */
  function Applicable(promise: Promise, composite: bool): Promise {
    if composite then promise.(checksum := None) else promise
  }

  /** What a response promises of its payload; a composite checksum is no part of that. */
  predicate KeepsPromise(bytes: seq<Byte>, promise: Promise, composite: bool) {
    && (promise.contentLength == None || promise.contentLength == Some(|bytes|))
    && promise.etagMatches(bytes) != Some(false)
    && (promise.checksum.Some? && !composite ==>
          promise.checksum.value.supported && promise.checksum.value.matches(bytes))
  }

  lemma ApplicableIff(bytes: seq<Byte>, promise: Promise, composite: bool)
    ensures Passes(bytes, Applicable(promise, composite)) <==> KeepsPromise(bytes, promise, composite)
  {
    PassesIff(bytes, Applicable(promise, composite));
  }

  /** A whole payload of at most 1048576 octets that keeps the response's promise. */
  predicate GoodFetch(fetch: Fetch) {
    && fetch.Fetched? && !fetch.breaksOff && |Flatten(fetch.chunks)| <= 1048576
    && KeepsPromise(Flatten(fetch.chunks), fetch.promise, fetch.composite)
  }

  /** ... and that the disk took unharmed. */
  predicate GoodWrite(fetch: Fetch, faults: Faults) {
    && GoodFetch(fetch) && !DiskFault(faults)
    && KeepsPromise(faults.land(Flatten(fetch.chunks)), fetch.promise, fetch.composite)
  }

  /** Every state passed through shows `path` with its old content or with bytes that keep the promise. */
  ghost predicate OldOrKept(states: seq<Files>, path: string, before: Option<seq<Byte>>,
                            promise: Promise, composite: bool) {
    forall k :: 0 <= k < |states| ==>
      At(states[k], path) == before || (path in states[k] && KeepsPromise(states[k][path], promise, composite))
  }

  lemma OldOrGoodIsKept(states: seq<Files>, path: string, before: Option<seq<Byte>>, promise: Promise, composite: bool)
    requires OldOrGood(states, path, before, Applicable(promise, composite))
    ensures OldOrKept(states, path, before, promise, composite)
  {
    forall k | 0 <= k < |states| && path in states[k]
      ensures Passes(states[k][path], Applicable(promise, composite))
              <==> KeepsPromise(states[k][path], promise, composite)
    {
      ApplicableIff(states[k][path], promise, composite);
    }
  }

  /**
   * `outfile` is `None` for standard output. The output file is replaced exactly when the fetch and
   * the write are good; the metadata is printed after that, so a failure to print it is the one
   * error that comes with a replaced file.
   */
  method RunGetObjectAnnotation(disk: Disk, fetch: Fetch, outfile: Option<string>, tmp: string,
                                faults: Faults, out: OutputFaults)
    returns (r: Result<Outcome, Error>, stdout: seq<Byte>)
    requires tmp !in disk.files && outfile != Some(tmp) && disk.history == []
    modifies disk
    ensures outfile.Some? && fetch.Fetched? ==>
              OldOrKept(disk.history, outfile.value, At(old(disk.files), outfile.value),
                        fetch.promise, fetch.composite)
    ensures outfile.None? || !fetch.Fetched? ==> disk.files == old(disk.files)
    ensures outfile.Some? && GoodWrite(fetch, faults) ==>
              && disk.files == old(disk.files)[outfile.value := faults.land(Flatten(fetch.chunks))]
              && r == if out.metadata then Err(OutputError) else Ok(Success)
    ensures outfile.Some? && !GoodWrite(fetch, faults) ==>
              && At(disk.files, outfile.value) == At(old(disk.files), outfile.value)
              && r != Ok(Success) && r != Err(OutputError)
    ensures outfile.None? ==> (r == Ok(Success) <==> GoodFetch(fetch) && !out.payload)
    ensures outfile.None? && r == Ok(Success) ==> stdout == Flatten(fetch.chunks)
    ensures r == Ok(Missing) <==> fetch.NotFound?
  {
    stdout := [];
    match fetch {
      case NotFound => return Ok(Missing), stdout;
      case Failed => return Err(BodyError), stdout;
      case Fetched(chunks, breaksOff, promise, composite) =>
        var p := Applicable(promise, composite);
        var payload, _ := ReadPayload(chunks, breaksOff);
        if payload.Err? { return Err(payload.error), stdout; }
        var check := CheckIntegrity(payload.value, p);
        ApplicableIff(payload.value, promise, composite);
        if check.Err? { return Err(check.error), stdout; }
        if outfile.None? {
          if out.payload { return Err(OutputError), stdout; }
          return Ok(Success), payload.value;
        }
        ApplicableIff(faults.land(payload.value), promise, composite);
        var written := WriteVerifiedOutput(disk, outfile.value, tmp, payload.value, p, faults);
        OldOrGoodIsKept(disk.history, outfile.value, At(old(disk.files), outfile.value), promise, composite);
        if written.Err? { return Err(written.error), stdout; }
        if out.metadata { return Err(OutputError), stdout; }
        r := Ok(Success);
    }
  }

  /** A run that ends in an error with the old content gone: only the metadata could not be printed. */
  method ErrorAfterReplacement() returns (disk: Disk, r: Result<Outcome, Error>)
    ensures fresh(disk) && r == Err(OutputError) && disk.files == map["out" := [2]]
  {
    disk := new Disk(map["out" := [1]]);
    var promise := Promise(Some(1), _ => None, None);
    var faults := Faults(false, false, false, false, false, bytes => bytes, false);
    var body: seq<seq<Byte>> := [[2]];
    assert body[1..] == [];
    assert Flatten(body) == [2];
    var result, _ := RunGetObjectAnnotation(disk, Fetched(body, false, promise, false), Some("out"), "tmp", faults,
                                            OutputFaults(false, true));
    r := result;
  }
}
