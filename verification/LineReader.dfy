/**
 * The capped line reader over a buffered byte source. The blocking and the async copies in the
 * program are the same loop; both own the reader for the whole call, so one method models both.
 */
module LineReader {
  import opened Basics
  import opened Utf8

  /** Longest line accepted, newline excluded: 16 KiB. */
  const MAX_LINE_LEN: nat := 16 * 1024

  const NEWLINE: Byte := 0x0A

  datatype ReadError = TooLong | NotUtf8 | Io

  /** What follows the last byte: end of file, or an I/O error on the next refill. */
  datatype StreamEnd = Eof | Failure

  type LineResult = Result<Option<string>, ReadError>

  /**
   * A buffered reader: the bytes from `pos` to `filled` are in its buffer. A refill delivers any
   * non-zero number of bytes up to the capacity.
   */
  class BufReader {
    const source: seq<Byte>
    const end: StreamEnd
    const capacity: nat
    var pos: nat
    var filled: nat

    ghost predicate Valid()
      reads this
    {
      pos <= filled <= |source| && filled - pos <= capacity && capacity > 0
    }

    constructor (source: seq<Byte>, end: StreamEnd, capacity: nat)
      requires capacity > 0
      ensures Valid() && this.source == source && this.end == end && this.capacity == capacity && pos == 0
    {
      this.source, this.end, this.capacity := source, end, capacity;
      pos, filled := 0, 0;
    }

    /** The buffer, refilled when it is used up, and empty exactly at end of file. */
    method FillBuf() returns (r: Result<seq<Byte>, ReadError>)
      requires Valid()
      modifies this`filled
      ensures Valid()
      ensures pos == |source| ==> r == if end.Eof? then Ok([]) else Err(Io)
      ensures pos < |source| ==> pos < filled && r == Ok(source[pos..filled])
    {
      if pos == filled {
        if pos == |source| {
          return if end.Eof? then Ok([]) else Err(Io);
        }
        var n :| 0 < n <= capacity && pos + n <= |source| by {
          assert 0 < 1 <= capacity && pos + 1 <= |source|;
        }
        filled := pos + n;
      }
      r := Ok(source[pos..filled]);
    }

    method Consume(n: nat)
      requires Valid() && pos + n <= filled
      modifies this`pos
      ensures Valid() && pos == old(pos) + n
    {
      pos := pos + n;
    }
  }

  /** Position of the first newline at or after `from`, the end of the source when there is none. */
  function LineEnd(source: seq<Byte>, from: nat): (n: nat)
    requires from <= |source|
    ensures from <= n <= |source| && (n < |source| ==> source[n] == NEWLINE)
    ensures forall i :: from <= i < n ==> source[i] != NEWLINE
    decreases |source| - from
  {
    if from == |source| || source[from] == NEWLINE then from else LineEnd(source, from + 1)
  }

  lemma LineEndUnique(source: seq<Byte>, from: nat, n: nat)
    requires from <= n <= |source| && (n < |source| ==> source[n] == NEWLINE)
    requires forall i :: from <= i < n ==> source[i] != NEWLINE
    ensures LineEnd(source, from) == n
  {
    assert !(n < LineEnd(source, from)) && !(LineEnd(source, from) < n);
  }

  function DecodeLine(b: seq<Byte>): LineResult {
    match Decode(b)
    case Some(text) => Ok(Some(text))
    case None => Err(NotUtf8)
  }

  /** The result of reading a line at `from` of an unbuffered source. */
  function LineSpec(source: seq<Byte>, from: nat, end: StreamEnd): LineResult
    requires from <= |source|
  {
    var n := LineEnd(source, from);
    if n - from > MAX_LINE_LEN then Err(TooLong)
    else if n == |source| && end.Failure? then Err(Io)
    else if from == |source| then Ok(None)
    else DecodeLine(source[from..n])
  }

  /** Where the next line starts: past the newline, or at the end. */
  function NextLine(source: seq<Byte>, from: nat): (n: nat)
    requires from <= |source|
    ensures from <= n <= |source| && (from < |source| ==> from < n)
  {
    Min(LineEnd(source, from) + 1, |source|)
  }

  /** A line is rejected exactly when it is too long, not UTF-8, or cut off by an I/O error. */
  lemma RejectedIff(source: seq<Byte>, from: nat, end: StreamEnd)
    requires from <= |source|
    ensures var n := LineEnd(source, from);
            LineSpec(source, from, end).Err? <==>
              || n - from > MAX_LINE_LEN
              || (n == |source| && end.Failure?)
              || forall text :: Encode(text) != source[from..n]
  {
    var line := source[from..LineEnd(source, from)];
    forall text | Encode(text) == line ensures Decode(line) == Some(text) { DecodeEncode(text); }
    if Decode(line).Some? { EncodeDecode(line); }
    if from == |source| { assert Encode([]) == line; }
  }

  /** The offset of the newline in `b`, its length when there is none. */
  function NewlinePosition(b: seq<Byte>): (n: nat)
    ensures n <= |b| && (n < |b| ==> b[n] == NEWLINE)
    ensures forall i :: 0 <= i < n ==> b[i] != NEWLINE
  {
    LineEnd(b, 0)
  }

  /**
   * Reads one line. The result and the new position depend on the bytes alone, not on how they are
   * delivered, and the line buffer never holds more than the cap plus one buffer.
   */
  method ReadLineCapped(reader: BufReader) returns (r: LineResult, ghost peak: nat)
    requires reader.Valid()
    modifies reader`pos, reader`filled
    ensures reader.Valid()
    ensures r == LineSpec(reader.source, old(reader.pos), reader.end)
    ensures r.Ok? || r.error.NotUtf8? ==> reader.pos == NextLine(reader.source, old(reader.pos))
    ensures peak <= MAX_LINE_LEN + reader.capacity
  {
    ghost var start, n := reader.pos, LineEnd(reader.source, reader.pos);
    var buf: seq<Byte> := [];
    peak := 0;
    while true
      invariant reader.Valid() && start <= reader.pos <= n
      invariant buf == reader.source[start..reader.pos]
      invariant |buf| <= MAX_LINE_LEN && peak <= MAX_LINE_LEN + reader.capacity
      decreases |reader.source| - reader.pos
    {
      ghost var pos := reader.pos;
      var filled := reader.FillBuf();
      if filled.Err? {
        return Err(filled.error), peak;
      }
      var available := filled.value;
      if available == [] {
        return if buf == [] then Ok(None) else DecodeLine(buf), peak;
      }
      var idx := NewlinePosition(available);
      peak := Max(peak, |buf| + idx);
      SliceExtends(reader.source, start, pos, reader.filled, idx);
      buf := buf + available[..idx];
      LineEndInBuffer(reader.source, start, pos, reader.filled, idx);
      if idx < |available| {
        reader.Consume(idx + 1);
        if |buf| > MAX_LINE_LEN {
          return Err(TooLong), peak;
        }
        return DecodeLine(buf), peak;
      }
      reader.Consume(idx);
      if |buf| > MAX_LINE_LEN {
        return Err(TooLong), peak;
      }
    }
  }

  lemma SliceExtends(source: seq<Byte>, a: nat, b: nat, c: nat, k: nat)
    requires a <= b <= b + k <= c <= |source|
    ensures source[a..b] + source[b..c][..k] == source[a..b + k]
  {
  }

  /** The search of one buffer finds the end of the line, or that it lies past the buffer. */
  lemma LineEndInBuffer(source: seq<Byte>, start: nat, pos: nat, filled: nat, idx: nat)
    requires start <= pos <= filled <= |source| && pos <= LineEnd(source, start)
    requires idx == NewlinePosition(source[pos..filled])
    ensures pos + idx == Min(LineEnd(source, start), filled)
  {
    assert forall i :: pos <= i < pos + idx ==> source[i] == source[pos..filled][i - pos];
    if pos + idx < filled { LineEndUnique(source, start, pos + idx); }
  }
}
