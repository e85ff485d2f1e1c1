/** Phase two of read-all mode: preparing the parsed lines, fanned out over threads when there are many. */
module ChunkedPrepare {
  import opened Basics
  import opened Lines
  import opened ScriptConsumers

  const PARALLEL_THRESHOLD: nat := 256

  function DivCeil(a: nat, b: nat): nat
    requires b > 0
  {
    if a % b == 0 then a / b else a / b + 1
  }

  /** `count` successive takes of `size` lines, without the empty ones. */
  function TakeChunks(lines: seq<ParsedLine>, size: nat, count: nat): seq<seq<ParsedLine>>
    decreases count
  {
    if count == 0 then []
    else
      var n := Min(size, |lines|);
      (if n == 0 then [] else [lines[..n]]) + TakeChunks(lines[n..], size, count - 1)
  }

  /** Enough takes lose nothing, repeat nothing and keep the order; no chunk is empty or too large. */
  lemma {:induction false} ChunksCover(lines: seq<ParsedLine>, size: nat, count: nat)
    requires |lines| <= size * count
    ensures Flatten(TakeChunks(lines, size, count)) == lines
    ensures |TakeChunks(lines, size, count)| <= count
    ensures forall c :: c in TakeChunks(lines, size, count) ==> 0 < |c| <= size
    decreases count
  {
    if count > 0 {
      var n := Min(size, |lines|);
      assert |lines| - n <= size * (count - 1) by {
        assert size * count == size * (count - 1) + size;
        if n < size { assert 0 <= size * (count - 1); }
      }
      ChunksCover(lines[n..], size, count - 1);
      var rest := TakeChunks(lines[n..], size, count - 1);
      if n > 0 {
        assert ([lines[..n]] + rest)[1..] == rest;
        assert lines[..n] + lines[n..] == lines;
      }
    }
  }

  lemma DivCeilCovers(total: nat, workers: nat)
    requires workers > 0
    ensures total <= DivCeil(total, workers) * workers
    ensures total > 0 ==> DivCeil(total, workers) > 0 && (DivCeil(total, workers) - 1) * workers < total
  {
    assert total == total / workers * workers + total % workers;
  }

  lemma PrepareConcat(a: seq<ParsedLine>, b: seq<ParsedLine>, tools: Tools)
    ensures PrepareAll(a + b, tools) == PrepareAll(a, tools) + PrepareAll(b, tools)
  {
  }

  /**
   * The threads finish in any order (`pending` picks arbitrarily); joining them in submission order
   * gives what one pass over the whole list gives.
   */
  method ParseAndValidate(parsed: seq<ParsedLine>, availableParallelism: Option<nat>, tools: Tools)
    returns (out: seq<PreparedLine>)
    ensures out == PrepareAll(parsed, tools)
  {
    var total := |parsed|;
    if total < PARALLEL_THRESHOLD {
      return PrepareAll(parsed, tools);
    }
    var workers := Min(match availableParallelism { case Some(n) => n case None => 1 }, total);
    if workers <= 1 {
      return PrepareAll(parsed, tools);
    }
    var chunkSize := DivCeil(total, workers);
    DivCeilCovers(total, workers);
    ChunksCover(parsed, chunkSize, workers);
    out := ForkJoin(TakeChunks(parsed, chunkSize, workers), tools);
  }

  method ForkJoin(chunks: seq<seq<ParsedLine>>, tools: Tools) returns (out: seq<PreparedLine>)
    ensures out == PrepareAll(Flatten(chunks), tools)
  {
    var results := new Option<seq<PreparedLine>>[|chunks|](_ => None);
    var pending := set i | i in Iota(|chunks|);
    forall i | 0 <= i < |chunks| ensures i in pending { assert Iota(|chunks|)[i] == i; }
    while pending != {}
      invariant forall i :: i in pending ==> 0 <= i < |chunks|
      invariant forall i :: 0 <= i < |chunks| && i !in pending ==> results[i] == Some(PrepareAll(chunks[i], tools))
      decreases pending
    {
      var i :| i in pending;
      results[i] := Some(PrepareAll(chunks[i], tools));
      pending := pending - {i};
    }
    out := [];
    var joined := 0;
    while joined < |chunks|
      invariant joined <= |chunks|
      invariant forall i :: 0 <= i < |chunks| ==> results[i] == Some(PrepareAll(chunks[i], tools))
      invariant out == PrepareAll(Flatten(chunks[..joined]), tools)
    {
      assert chunks[..joined+1] == chunks[..joined] + [chunks[joined]];
      FlattenSnoc(chunks[..joined], chunks[joined]);
      PrepareConcat(Flatten(chunks[..joined]), chunks[joined], tools);
      out := out + results[joined].value;
      joined := joined + 1;
    }
    assert chunks[..joined] == chunks;
  }

  predicate FullButLast(chunks: seq<seq<ParsedLine>>, size: nat) {
    forall k :: 0 <= k < |chunks| - 1 ==> |chunks[k]| == size
  }

  /** The fan-out's shape: at most `workers` chunks, none empty, all but the last of full size. */
  lemma {:induction false} FullBeforeLast(lines: seq<ParsedLine>, size: nat, count: nat)
    requires size > 0 && |lines| <= size * count
    ensures FullButLast(TakeChunks(lines, size, count), size)
    decreases count
  {
    if count > 0 && |lines| > size {
      assert |lines| - size <= size * (count - 1) by { assert size * count == size * (count - 1) + size; }
      FullBeforeLast(lines[size..], size, count - 1);
      var rest := TakeChunks(lines[size..], size, count - 1);
      var chunks := [lines[..size]] + rest;
      forall k | 0 <= k < |chunks| - 1 ensures |chunks[k]| == size {
        assert k > 0 ==> chunks[k] == rest[k - 1];
      }
    } else if count > 0 {
      var n := Min(size, |lines|);
      NothingLeft(size, count - 1);
      assert lines[n..] == [];
    }
  }

  lemma {:induction false} NothingLeft(size: nat, count: nat)
    ensures TakeChunks([], size, count) == []
    decreases count
  {
    if count > 0 {
      var none: seq<ParsedLine> := [];
      assert none[0..] == none;
      NothingLeft(size, count - 1);
    }
  }
}
