/** From the text of a script to its commands: lines read back as written, and commands are what their lines say. */
module ScriptText {
  import opened Basics
  import opened Utf8
  import opened Lines
  import opened LineReader
  import opened ScriptConsumers

  // ---- Lines read back ----

  /** `tail` is what the source holds from `from` on. */
  predicate Rest(source: seq<Byte>, from: nat, tail: seq<Byte>) { from <= |source| && source[from..] == tail }

  lemma TextHoldsNoNewline(source: seq<Byte>, from: nat, text: string, after: seq<Byte>)
    requires '\n' !in text && Rest(source, from, Encode(text) + after)
    requires after == [] || after[0] == 0x0A
    ensures LineEnd(source, from) == from + |Encode(text)|
    ensures source[from..from + |Encode(text)|] == Encode(text)
  {
    var n := from + |Encode(text)|;
    assert source[from..n] == source[from..][..|Encode(text)|];
    forall i | from <= i < n ensures source[i] != NEWLINE {
      assert source[i] == source[from..n][i - from];
      if source[i] == NEWLINE { AsciiOctets(text, NEWLINE); }
    }
    assert after != [] ==> source[n] == source[from..][|Encode(text)|];
    LineEndUnique(source, from, n);
  }

  /**
   * A line of text, closed by a newline or by the end of the script, reads as itself when it has at
   * most 16384 octets and is refused when it has more.
   */
  lemma TextLineReadsBack(source: seq<Byte>, from: nat, text: string, after: seq<Byte>, end: StreamEnd)
    requires '\n' !in text && Rest(source, from, Encode(text) + after)
    requires if after == [] then text != [] && end.Eof? else after[0] == 0x0A
    ensures LineSpec(source, from, end) == if |Encode(text)| > 16384 then Err(TooLong) else Ok(Some(text))
    ensures NextLine(source, from) == from + |Encode(text)| + Min(1, |after|)
  {
    TextHoldsNoNewline(source, from, text, after);
    DecodeEncode(text);
    if text != [] { assert Encode(text) == EncodeChar(text[0]) + Encode(text[1..]); }
  }

  /** Lines as octets, each closed by a newline. */
  function Written(lines: seq<string>): seq<Byte> {
    if lines == [] then [] else Encode(lines[0]) + ([0x0A] + Written(lines[1..]))
  }

  predicate PlainText(line: string) { '\n' !in line && |Encode(line)| <= 16384 }

  lemma FirstLineReadsBack(source: seq<Byte>, from: nat, line: string, tail: seq<Byte>) returns (next: nat)
    requires PlainText(line) && Rest(source, from, Encode(line) + ([0x0A] + tail))
    ensures Rest(source, next, tail) && from < |source|
    ensures LineSpec(source, from, Eof) == Ok(Some(line)) && NextLine(source, from) == next
  {
    TextLineReadsBack(source, from, line, [0x0A] + tail, Eof);
    next := from + |Encode(line)| + 1;
    assert source[next..] == source[from..][|Encode(line)| + 1..];
  }

  lemma LastLineReadsBack(source: seq<Byte>, from: nat, last: string)
    requires PlainText(last) && Rest(source, from, Encode(last))
    ensures ScriptFrom(source, from, Eof) == Script(if last == [] then [] else [last], None)
  {
    assert ScriptFrom(source, |source|, Eof) == Script([], None);
    if last != [] {
      assert Encode(last) + [] == Encode(last);
      TextLineReadsBack(source, from, last, [], Eof);
      assert Encode(last) == EncodeChar(last[0]) + Encode(last[1..]);
    }
  }

  /** A script reads back as the lines written; the last one needs no newline unless it is empty. */
  lemma {:induction false} ScriptReadsBack(source: seq<Byte>, from: nat, lines: seq<string>, last: string)
    requires PlainText(last) && forall line :: line in lines ==> PlainText(line)
    requires Rest(source, from, Written(lines) + Encode(last))
    ensures ScriptFrom(source, from, Eof) == Script(lines + if last == [] then [] else [last], None)
    decreases |lines|
  {
    if lines == [] {
      assert Written(lines) + Encode(last) == Encode(last);
      LastLineReadsBack(source, from, last);
    } else {
      assert PlainText(lines[0]);
      var tail := Written(lines[1..]) + Encode(last);
      assert Written(lines) + Encode(last) == Encode(lines[0]) + ([0x0A] + tail);
      var next := FirstLineReadsBack(source, from, lines[0], tail);
      ScriptReadsBack(source, next, lines[1..], last);
      ScriptStep(source, from, lines[0], next);
      assert [lines[0]] + lines[1..] == lines;
    }
  }

  lemma ScriptStep(source: seq<Byte>, from: nat, line: string, next: nat)
    requires from < |source| && LineSpec(source, from, Eof) == Ok(Some(line)) && NextLine(source, from) == next
    ensures var rest := ScriptFrom(source, next, Eof);
            ScriptFrom(source, from, Eof) == Script([line] + rest.lines, rest.error)
  {
  }

  // ---- Which lines are kept ----

  predicate AllWhitespace(s: string) { forall i :: 0 <= i < |s| ==> IsWhitespace(s[i]) }

  /** `core` is `s` without the white space at its two ends. */
  ghost predicate TrimsTo(s: string, core: string) {
    && (core != [] ==> !IsWhitespace(core[0]) && !IsWhitespace(core[|core|-1]))
    && exists a, b :: s == a + core + b && AllWhitespace(a) && AllWhitespace(b)
  }

  lemma {:induction false} TrimStartCuts(s: string) returns (a: string)
    ensures s == a + TrimStart(s) && AllWhitespace(a)
    ensures TrimStart(s) != [] ==> !IsWhitespace(TrimStart(s)[0])
  {
    a := [];
    if s != [] && IsWhitespace(s[0]) {
      var a' := TrimStartCuts(s[1..]);
      a := [s[0]] + a';
    }
  }

  lemma {:induction false} TrimEndCuts(s: string) returns (b: string)
    ensures s == TrimEnd(s) + b && AllWhitespace(b)
    ensures TrimEnd(s) != [] ==> !IsWhitespace(TrimEnd(s)[|TrimEnd(s)|-1])
    decreases |s|
  {
    b := [];
    if s != [] && IsWhitespace(s[|s|-1]) {
      var b' := TrimEndCuts(s[..|s|-1]);
      b := b' + [s[|s|-1]];
    }
  }

  lemma TrimTrims(s: string)
    ensures TrimsTo(s, Trim(s))
  {
    var a := TrimStartCuts(s);
    var b := TrimEndCuts(TrimStart(s));
    assert s == a + Trim(s) + b;
    if Trim(s) != [] { assert TrimStart(s)[0] == Trim(s)[0]; }
  }

  /** The first character that is not white space is `#`. */
  ghost predicate IsComment(s: string) {
    exists i :: 0 <= i < |s| && s[i] == '#' && forall k :: 0 <= k < i ==> IsWhitespace(s[k])
  }

  lemma CoreShowsStart(s: string, a: string, core: string, b: string)
    requires s == a + core + b && AllWhitespace(a) && AllWhitespace(b)
    requires core != [] ==> !IsWhitespace(core[0])
    ensures core == [] <==> AllWhitespace(s)
    ensures core != [] && core[0] == '#' <==> IsComment(s)
  {
    assert forall k :: 0 <= k < |a| ==> s[k] == a[k];
    if core != [] {
      assert s[|a|] == core[0];
    } else {
      assert s == a + b;
      assert !IsWhitespace('#');
    }
  }

  lemma TrimShowsStart(s: string)
    ensures Trim(s) == [] <==> AllWhitespace(s)
    ensures Trim(s) != [] && Trim(s)[0] == '#' <==> IsComment(s)
  {
    TrimTrims(s);
    var a, b :| s == a + Trim(s) + b && AllWhitespace(a) && AllWhitespace(b);
    CoreShowsStart(s, a, Trim(s), b);
  }

  /** What is skipped: blank lines, comments, and lines in which shell splitting finds no word. */
  ghost predicate Skipped(line: string, tools: Tools) {
    AllWhitespace(line) || IsComment(line) || tools.shlex(Trim(line)) == Some([])
  }

  /** Every other line is split by the shell rules and put behind the program's name, or is malformed. */
  lemma TokenizeLineIs(line: string, tools: Tools)
    ensures TokenizeLine(line, tools) == Ok(None) <==> Skipped(line, tools)
    ensures !Skipped(line, tools) ==>
              match tools.shlex(Trim(line))
              case None => TokenizeLine(line, tools).Err?
              case Some(words) => TokenizeLine(line, tools) == Ok(Some(["s7cmd"] + words))
  {
    TrimShowsStart(line);
    if IsComment(line) { assert !AllWhitespace(line) by { assert !IsWhitespace('#'); } }
  }

  ghost predicate HasLine(parsed: seq<ParsedLine>, n: nat) {
    exists i :: 0 <= i < |parsed| && parsed[i].lineNo == n
  }

  lemma HasLineConcat(a: seq<ParsedLine>, b: seq<ParsedLine>, n: nat)
    ensures HasLine(a + b, n) <==> HasLine(a, n) || HasLine(b, n)
  {
    if HasLine(a, n) {
      var i :| 0 <= i < |a| && a[i].lineNo == n;
      assert (a + b)[i].lineNo == n;
    }
    if HasLine(b, n) {
      var i :| 0 <= i < |b| && b[i].lineNo == n;
      assert (a + b)[|a| + i].lineNo == n;
    }
    if HasLine(a + b, n) {
      var i :| 0 <= i < |a + b| && (a + b)[i].lineNo == n;
      assert i < |a| ==> a[i].lineNo == n;
      assert i >= |a| ==> b[i - |a|].lineNo == n;
    }
  }

  /** A physical line is present exactly when it is not skipped. */
  lemma {:induction false} PresentIffNotBlank(lines: seq<string>, k: nat, n: nat, tools: Tools)
    requires 1 <= n && k <= |lines|
    ensures HasLine(ParsedTo(lines, k, tools), n) <==> n <= k && !Skipped(lines[n - 1], tools)
  {
    if k > 0 {
      TokenizeLineIs(lines[k - 1], tools);
      PresentIffNotBlank(lines, k - 1, n, tools);
      var last := ParseLine(k, lines[k - 1], tools);
      HasLineConcat(ParsedTo(lines, k - 1, tools), last, n);
      assert last != [] ==> last[0].lineNo == k;
    }
  }

  // ---- What a kept line becomes ----

  /** Number and raw text carry over; the command is the parser's, unless one of the four stages objects. */
  lemma PreparedIs(parsed: ParsedLine, tools: Tools)
    ensures var line := TryPrepare(parsed, tools);
            && line.lineNo == parsed.lineNo && line.raw == parsed.raw
            && (line.kind.Invalid? && line.kind.kind.Tokenize? <==> parsed.kind.TokenizeError?)
    ensures parsed.kind.Argv? ==>
              var line, outcome := TryPrepare(parsed, tools), tools.parse(parsed.kind.argv);
              && (line.kind.Invalid? && line.kind.kind.Parse? <==> outcome.Rejected?)
              && (line.kind.Invalid? && line.kind.kind.Empty? <==> outcome == Parsed(None))
              && (forall command :: line.kind == Cmd(command) <==>
                    outcome == Parsed(Some(command)) && tools.validate(parsed.lineNo, parsed.raw, command).None?)
    ensures var line := TryPrepare(parsed, tools);
            line.kind.Invalid? && !line.kind.kind.Empty? ==>
              line.kind.reason == match parsed.kind
                                  case TokenizeError(reason) => reason
                                  case Argv(argv) =>
                                    match tools.parse(argv)
                                    case Rejected(reason) => reason
                                    case Parsed(Some(command)) =>
                                      tools.validate(parsed.lineNo, parsed.raw, command).value
                                    case Parsed(None) => ""
  {
  }

  /** A command that is run is what its own physical line says: split, parsed and found valid. */
  ghost predicate SaidBy(line: PreparedLine, lines: seq<string>, tools: Tools) {
    && 1 <= line.lineNo <= |lines| && line.raw == lines[line.lineNo - 1] && !Skipped(line.raw, tools)
    && (line.kind.Cmd? ==>
          && tools.shlex(Trim(line.raw)).Some?
          && tools.parse(["s7cmd"] + tools.shlex(Trim(line.raw)).value) == Parsed(Some(line.kind.cmd))
          && tools.validate(line.lineNo, line.raw, line.kind.cmd).None?)
  }

  lemma {:induction false} CommandsComeFromTheirLines(lines: seq<string>, k: nat, tools: Tools, i: nat)
    requires k <= |lines| && i < |ParsedTo(lines, k, tools)|
    ensures SaidBy(PrepareAll(ParsedTo(lines, k, tools), tools)[i], lines, tools)
  {
    var last := ParseLine(k, lines[k - 1], tools);
    if i < |ParsedTo(lines, k - 1, tools)| {
      CommandsComeFromTheirLines(lines, k - 1, tools, i);
    } else {
      assert ParsedTo(lines, k, tools)[i] == last[0];
      TokenizeLineIs(lines[k - 1], tools);
      PreparedIs(last[0], tools);
    }
  }
}
