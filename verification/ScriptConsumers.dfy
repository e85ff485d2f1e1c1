/**
 * The three consumers of the line reader: read-all, the streaming reader and the format check.
 * Shell splitting, argument parsing and validation are given functions of their input.
 */
module ScriptConsumers {
  import opened Basics
  import opened Utf8
  import opened Lines
  import opened LineReader

  /** Outcome of the argument parser; an error carries its one-line summary. */
  datatype ParseOutcome = Rejected(reason: string) | Parsed(command: Option<Command>)

  datatype Tools = Tools(
    shlex: string -> Option<seq<string>>,
    parse: seq<string> -> ParseOutcome,
    validate: (nat, string, Command) -> Option<string>)

  // ---- One line ----

  /** The Unicode White_Space property. */
  predicate IsWhitespace(c: char) {
    var v := c as int;
    || 0x09 <= v <= 0x0D || v == 0x20 || v == 0x85 || v == 0xA0 || v == 0x1680 || 0x2000 <= v <= 0x200A
    || v == 0x2028 || v == 0x2029 || v == 0x202F || v == 0x205F || v == 0x3000
  }

  function TrimStart(s: string): string {
    if s != [] && IsWhitespace(s[0]) then TrimStart(s[1..]) else s
  }

  function TrimEnd(s: string): string {
    if s != [] && IsWhitespace(s[|s|-1]) then TrimEnd(s[..|s|-1]) else s
  }

  function Trim(s: string): string { TrimEnd(TrimStart(s)) }

  /** The argument vector, nothing for a blank line or a comment, an error for malformed quoting. */
  function TokenizeLine(line: string, tools: Tools): Result<Option<seq<string>>, string> {
    var trimmed := Trim(line);
    if trimmed == [] || trimmed[0] == '#' then Ok(None)
    else
      match tools.shlex(trimmed)
      case None => Err("malformed quoting")
      case Some(tokens) => if tokens == [] then Ok(None) else Ok(Some(["s7cmd"] + tokens))
  }

  datatype ParsedLineKind = Argv(argv: seq<string>) | TokenizeError(reason: string)

  datatype ParsedLine = ParsedLine(lineNo: nat, raw: string, kind: ParsedLineKind)

  function BuildPreparedKind(lineNo: nat, raw: string, kind: ParsedLineKind, tools: Tools): PreparedLineKind {
    match kind
    case TokenizeError(reason) => Invalid(Tokenize, reason)
    case Argv(argv) =>
      match tools.parse(argv)
      case Rejected(reason) => Invalid(Parse, reason)
      case Parsed(None) => Invalid(Empty, "empty command")
      case Parsed(Some(command)) =>
        match tools.validate(lineNo, raw, command)
        case Some(reason) => Invalid(Validate, reason)
        case None => Cmd(command)
  }

  function TryPrepare(parsed: ParsedLine, tools: Tools): PreparedLine {
    PreparedLine(parsed.lineNo, parsed.raw, BuildPreparedKind(parsed.lineNo, parsed.raw, parsed.kind, tools))
  }

  function PrepareAll(parsed: seq<ParsedLine>, tools: Tools): (r: seq<PreparedLine>)
    ensures |r| == |parsed| && forall i :: 0 <= i < |parsed| ==> r[i] == TryPrepare(parsed[i], tools)
  {
    seq(|parsed|, i requires 0 <= i < |parsed| => TryPrepare(parsed[i], tools))
  }

  // ---- A whole script ----

  /** The lines of a source up to its end or its first read error. */
  datatype Script = Script(lines: seq<string>, error: Option<ReadError>)

  function ScriptFrom(source: seq<Byte>, from: nat, end: StreamEnd): Script
    requires from <= |source|
    decreases |source| - from
  {
    match LineSpec(source, from, end)
    case Err(e) => Script([], Some(e))
    case Ok(None) => Script([], None)
    case Ok(Some(line)) =>
      if from == |source| then Script([], None)
      else
        var rest := ScriptFrom(source, NextLine(source, from), end);
        Script([line] + rest.lines, rest.error)
  }

  /** The rest of a script `k` lines in, and what reading one more line does to it. */
  ghost predicate RestAt(source: seq<Byte>, pos: nat, end: StreamEnd, script: Script, k: nat) {
    && k <= |script.lines| && pos <= |source|
    && ScriptFrom(source, pos, end) == Script(script.lines[k..], script.error)
  }

  lemma NextRest(source: seq<Byte>, pos: nat, end: StreamEnd, script: Script, k: nat)
    requires RestAt(source, pos, end, script, k)
    ensures match LineSpec(source, pos, end)
            case Err(e) => k == |script.lines| && script.error == Some(e)
            case Ok(None) => k == |script.lines| && script.error == None
            case Ok(Some(text)) =>
              k < |script.lines| && text == script.lines[k]
              && RestAt(source, NextLine(source, pos), end, script, k + 1)
  {
    assert LineSpec(source, |source|, end) == Ok(None) || LineSpec(source, |source|, end) == Err(Io);
    if LineSpec(source, pos, end).Ok? && LineSpec(source, pos, end).value.Some? {
      assert script.lines[k..][0] == script.lines[k] && script.lines[k..][1..] == script.lines[k+1..];
    }
  }

  /** What physical line `n`, counted from 1, contributes: nothing when blank or a comment. */
  function ParseLine(n: nat, line: string, tools: Tools): seq<ParsedLine> {
    match TokenizeLine(line, tools)
    case Ok(None) => []
    case Ok(Some(argv)) => [ParsedLine(n, line, Argv(argv))]
    case Err(reason) => [ParsedLine(n, line, TokenizeError(reason))]
  }

  /** The parsed lines among the first `k` physical lines. */
  function ParsedTo(lines: seq<string>, k: nat, tools: Tools): seq<ParsedLine>
    requires k <= |lines|
  {
    if k == 0 then [] else ParsedTo(lines, k - 1, tools) + ParseLine(k, lines[k - 1], tools)
  }

  function ParsedLines(lines: seq<string>, tools: Tools): seq<ParsedLine> { ParsedTo(lines, |lines|, tools) }

  ghost predicate Numbered(p: seq<ParsedLine>, lines: seq<string>, k: nat)
    requires k <= |lines|
  {
    && (forall i :: 0 <= i < |p| ==> 1 <= p[i].lineNo <= k && p[i].raw == lines[p[i].lineNo - 1])
    && (forall i, j :: 0 <= i < j < |p| ==> p[i].lineNo < p[j].lineNo)
  }

  lemma NumberedSnoc(p: seq<ParsedLine>, last: ParsedLine, lines: seq<string>, k: nat)
    requires 1 <= k <= |lines| && Numbered(p, lines, k - 1)
    requires last.lineNo == k && last.raw == lines[k - 1]
    ensures Numbered(p + [last], lines, k)
  {
  }

  /** Line numbers are physical: in increasing order, each naming its raw text. */
  lemma {:induction false} NumbersArePhysical(lines: seq<string>, k: nat, tools: Tools)
    requires k <= |lines|
    ensures Numbered(ParsedTo(lines, k, tools), lines, k)
  {
    if k > 0 {
      NumbersArePhysical(lines, k - 1, tools);
      var last := ParseLine(k, lines[k - 1], tools);
      if last != [] {
        assert last == [last[0]];
        NumberedSnoc(ParsedTo(lines, k - 1, tools), last[0], lines, k);
      }
    }
  }

  /** A read error and the number of the physical line it met. */
  datatype ScriptError = ScriptError(lineNo: nat, cause: ReadError)

  method ReadAll(reader: BufReader, tools: Tools) returns (r: Result<seq<ParsedLine>, ScriptError>)
    requires reader.Valid() && reader.pos == 0
    modifies reader`pos, reader`filled
    ensures var script := ScriptFrom(reader.source, 0, reader.end);
            r == match script.error
                 case None => Ok(ParsedLines(script.lines, tools))
                 case Some(e) => Err(ScriptError(|script.lines| + 1, e))
  {
    ghost var script := ScriptFrom(reader.source, 0, reader.end);
    var out: seq<ParsedLine> := [];
    var lineNo: nat := 0;
    while true
      invariant reader.Valid() && RestAt(reader.source, reader.pos, reader.end, script, lineNo)
      invariant out == ParsedTo(script.lines, lineNo, tools)
      decreases |script.lines| - lineNo
    {
      NextRest(reader.source, reader.pos, reader.end, script, lineNo);
      lineNo := lineNo + 1;
      var line, _ := ReadLineCapped(reader);
      match line {
        case Err(e) => return Err(ScriptError(lineNo, e));
        case Ok(None) => return Ok(out);
        case Ok(Some(text)) =>
          match TokenizeLine(text, tools) {
            case Ok(None) =>
            case Ok(Some(argv)) => out := out + [ParsedLine(lineNo, text, Argv(argv))];
            case Err(reason) => out := out + [ParsedLine(lineNo, text, TokenizeError(reason))];
          }
      }
    }
  }

  /** Whether every line of a script is read and comes out as a command. */
  ghost predicate Clean(script: Script, tools: Tools) {
    && script.error.None?
    && forall line :: line in PrepareAll(ParsedLines(script.lines, tools), tools) ==> line.kind.Cmd?
  }

  /** `--check-format`: whether an issue was found, stopping at the first one. */
  method CheckFormatLines(reader: BufReader, tools: Tools) returns (hasIssue: bool)
    requires reader.Valid() && reader.pos == 0
    modifies reader`pos, reader`filled
    ensures hasIssue <==> !Clean(ScriptFrom(reader.source, 0, reader.end), tools)
  {
    ghost var script := ScriptFrom(reader.source, 0, reader.end);
    var lineNo: nat := 0;
    while true
      invariant reader.Valid() && RestAt(reader.source, reader.pos, reader.end, script, lineNo)
      invariant AllCommands(script.lines, lineNo, tools)
      decreases |script.lines| - lineNo
    {
      NextRest(reader.source, reader.pos, reader.end, script, lineNo);
      lineNo := lineNo + 1;
      var line, _ := ReadLineCapped(reader);
      if line.Err? { return true; }
      if line.value.None? {
        CleanWhenAllCommands(script, tools);
        return false;
      }
      var bad := HasIssue(lineNo, line.value.value, tools);
      if bad {
        NotCleanWhenBad(script, lineNo, tools);
        return true;
      }
    }
  }

  /** The stages one line goes through, up to the first that objects. */
  method HasIssue(lineNo: nat, text: string, tools: Tools) returns (bad: bool)
    ensures bad <==> !GoodLine(lineNo, text, tools)
  {
    var tokens := TokenizeLine(text, tools);
    if tokens == Ok(None) { return false; }
    if tokens.Err? { return true; }
    var cli := tools.parse(tokens.value.value);
    if cli.Rejected? { return true; }
    if cli.command.None? { return true; }
    return tools.validate(lineNo, text, cli.command.value).Some?;
  }

  /** Whether physical line `n` prepares to commands only. */
  predicate GoodLine(n: nat, line: string, tools: Tools) {
    var p := ParseLine(n, line, tools);
    p == [] || TryPrepare(p[0], tools).kind.Cmd?
  }

  predicate AllCommands(lines: seq<string>, k: nat, tools: Tools)
    requires k <= |lines|
  {
    k == 0 || (AllCommands(lines, k - 1, tools) && GoodLine(k, lines[k - 1], tools))
  }

  lemma {:induction false} OneBadLine(lines: seq<string>, k: nat, n: nat, tools: Tools)
    requires 1 <= n <= k <= |lines| && !GoodLine(n, lines[n - 1], tools)
    ensures !AllCommands(lines, k, tools)
  {
    if n < k { OneBadLine(lines, k - 1, n, tools); }
  }

  predicate AllCmd(p: seq<ParsedLine>, tools: Tools) {
    forall i :: 0 <= i < |p| ==> TryPrepare(p[i], tools).kind.Cmd?
  }

  lemma AllCmdConcat(a: seq<ParsedLine>, b: seq<ParsedLine>, tools: Tools)
    ensures AllCmd(a + b, tools) <==> AllCmd(a, tools) && AllCmd(b, tools)
  {
    assert forall i :: 0 <= i < |a| ==> (a + b)[i] == a[i];
    assert forall i :: 0 <= i < |b| ==> (a + b)[|a| + i] == b[i];
  }

  lemma {:induction false} AllCommandsMeaning(lines: seq<string>, k: nat, tools: Tools)
    requires k <= |lines|
    ensures AllCommands(lines, k, tools) <==> AllCmd(ParsedTo(lines, k, tools), tools)
  {
    if k > 0 {
      AllCommandsMeaning(lines, k - 1, tools);
      AllCmdConcat(ParsedTo(lines, k - 1, tools), ParseLine(k, lines[k - 1], tools), tools);
    }
  }

  lemma CleanWhenAllCommands(script: Script, tools: Tools)
    requires script.error.None?
    ensures Clean(script, tools) <==> AllCommands(script.lines, |script.lines|, tools)
  {
    AllCommandsMeaning(script.lines, |script.lines|, tools);
    var prepared := PrepareAll(ParsedLines(script.lines, tools), tools);
    assert forall i :: 0 <= i < |prepared| ==> prepared[i] in prepared;
  }

  lemma NotCleanWhenBad(script: Script, n: nat, tools: Tools)
    requires 1 <= n <= |script.lines|
    ensures !GoodLine(n, script.lines[n - 1], tools) ==> !Clean(script, tools)
  {
    if script.error.None? && !GoodLine(n, script.lines[n - 1], tools) {
      CleanWhenAllCommands(script, tools);
      OneBadLine(script.lines, |script.lines|, n, tools);
    }
  }

  // ---- Streaming ----

  /** The sending end of the channel; a send fails once the receiver is gone. */
  class Sender {
    var sent: seq<PreparedLine>
    const capacity: Option<nat>

    constructor (capacity: Option<nat>)
      ensures sent == [] && this.capacity == capacity
    {
      sent, this.capacity := [], capacity;
    }

    method Send(line: PreparedLine) returns (ok: bool)
      modifies this
      ensures ok <==> (capacity.None? || old(|sent|) < capacity.value)
      ensures sent == if ok then old(sent) + [line] else old(sent)
    {
      ok := capacity.None? || |sent| < capacity.value;
      if ok { sent := sent + [line]; }
    }
  }

  /** The first turn in `from..n` at which the signal arm is taken, `n` when there is none. */
  function FirstSignal(ctrlC: iset<nat>, from: nat, n: nat): (k: nat)
    requires from <= n
    ensures from <= k <= n && (k < n ==> k in ctrlC) && forall j: nat :: from <= j < k ==> j !in ctrlC
    decreases n - from
  {
    if from == n || from in ctrlC then from else FirstSignal(ctrlC, from + 1, n)
  }

  /** What a receiver takes that is gone after `capacity` lines. */
  function Accepted(lines: seq<PreparedLine>, capacity: Option<nat>): seq<PreparedLine> {
    if capacity.Some? && capacity.value < |lines| then lines[..capacity.value] else lines
  }

  /** What the reader sends, its result, and whether it sets the interrupt flag. */
  datatype Reading = Reading(sent: seq<PreparedLine>, result: Result<(), ScriptError>, interrupt: bool)

  /**
   * The reader delivers the lines before the first signal; a receiver gone earlier ends it quietly,
   * a signal sets the flag, and otherwise the verdict is read-all's.
   */
  function ReadingOf(script: Script, ctrlC: iset<nat>, capacity: Option<nat>, tools: Tools): Reading {
    var turns := |script.lines|;
    var k := FirstSignal(ctrlC, 0, turns + 1);
    var offered := PrepareAll(ParsedTo(script.lines, Min(k, turns), tools), tools);
    var sent := Accepted(offered, capacity);
    if |sent| < |offered| then Reading(sent, Ok(()), false)
    else if k <= turns then Reading(sent, Ok(()), true)
    else
      match script.error
      case None => Reading(sent, Ok(()), false)
      case Some(e) => Reading(sent, Err(ScriptError(turns + 1, e)), false)
  }

  /** `n` physical lines in, before any signal, all of what they prepare has been taken. */
  ghost predicate Sending(script: Script, ctrlC: iset<nat>, capacity: Option<nat>, tools: Tools,
                          n: nat, sent: seq<PreparedLine>) {
    && n <= |script.lines| && n <= FirstSignal(ctrlC, 0, |script.lines| + 1)
    && sent == PrepareAll(ParsedTo(script.lines, n, tools), tools)
    && (capacity.Some? ==> |sent| <= capacity.value)
  }

  lemma EndsBySignal(script: Script, ctrlC: iset<nat>, capacity: Option<nat>, tools: Tools,
                     n: nat, sent: seq<PreparedLine>)
    requires Sending(script, ctrlC, capacity, tools, n, sent) && n in ctrlC
    ensures ReadingOf(script, ctrlC, capacity, tools) == Reading(sent, Ok(()), true)
  {
  }

  lemma EndsWithScript(script: Script, ctrlC: iset<nat>, capacity: Option<nat>, tools: Tools, sent: seq<PreparedLine>)
    requires Sending(script, ctrlC, capacity, tools, |script.lines|, sent) && |script.lines| !in ctrlC
    ensures ReadingOf(script, ctrlC, capacity, tools)
            == Reading(sent, match script.error {
                               case None => Ok(())
                               case Some(e) => Err(ScriptError(|script.lines| + 1, e)) }, false)
  {
  }

  lemma EndsByRefusal(script: Script, ctrlC: iset<nat>, capacity: Option<nat>, tools: Tools,
                      n: nat, sent: seq<PreparedLine>)
    requires Sending(script, ctrlC, capacity, tools, n, sent) && n !in ctrlC && n < |script.lines|
    requires Refused(sent, n + 1, script.lines[n], capacity, tools)
    ensures ReadingOf(script, ctrlC, capacity, tools) == Reading(sent, Ok(()), false)
  {
    var stop := Min(FirstSignal(ctrlC, 0, |script.lines| + 1), |script.lines|);
    assert n + 1 <= stop;
    CutShort(script.lines, n + 1, stop, tools);
    AcceptedPart(sent, PrepareAll(ParsedTo(script.lines, stop, tools), tools));
  }

  lemma AcceptedPart(sent: seq<PreparedLine>, offered: seq<PreparedLine>)
    requires |sent| < |offered| && sent == offered[..|sent|]
    ensures Accepted(offered, Some(|sent|)) == sent
  {
  }

  /** What has been sent after one more line, when it is not refused. */
  function SentAfter(sent: seq<PreparedLine>, n: nat, text: string, tools: Tools): seq<PreparedLine> {
    var line := ParseLine(n, text, tools);
    if line == [] then sent else sent + [TryPrepare(line[0], tools)]
  }

  /** Whether the line is refused because the receiver is gone. */
  predicate Refused(sent: seq<PreparedLine>, n: nat, text: string, capacity: Option<nat>, tools: Tools) {
    ParseLine(n, text, tools) != [] && capacity.Some? && |sent| >= capacity.value
  }

  lemma SendingOn(script: Script, ctrlC: iset<nat>, capacity: Option<nat>, tools: Tools,
                  n: nat, sent: seq<PreparedLine>)
    requires Sending(script, ctrlC, capacity, tools, n, sent) && n !in ctrlC && n < |script.lines|
    requires !Refused(sent, n + 1, script.lines[n], capacity, tools)
    ensures Sending(script, ctrlC, capacity, tools, n + 1, SentAfter(sent, n + 1, script.lines[n], tools))
  {
    var line := ParseLine(n + 1, script.lines[n], tools);
    if line != [] { PreparedStep(script.lines, n + 1, line[0].kind, tools); }
  }

  /** Why the reader stops. */
  datatype Stop = Signalled | Exhausted(error: Option<ScriptError>) | ReceiverGone

  /** `n` physical lines were taken, and this is what came next. */
  ghost predicate StoppedAt(stop: Stop, script: Script, ctrlC: iset<nat>, capacity: Option<nat>, tools: Tools,
                            n: nat, sent: seq<PreparedLine>) {
    && Sending(script, ctrlC, capacity, tools, n, sent)
    && match stop
       case Signalled => n in ctrlC
       case Exhausted(error) =>
         && n == |script.lines| && n !in ctrlC
         && error == (if script.error.Some? then Some(ScriptError(n + 1, script.error.value)) else None)
       case ReceiverGone =>
         n !in ctrlC && n < |script.lines| && Refused(sent, n + 1, script.lines[n], capacity, tools)
  }

  /** Streaming mode's reader. `ctrlC` holds the turns at which the signal arm is taken. */
  method StreamingReader(reader: BufReader, tx: Sender, ctrlC: iset<nat>, tools: Tools)
    returns (r: Result<(), ScriptError>, interrupt: bool)
    requires reader.Valid() && reader.pos == 0 && tx.sent == []
    modifies reader`pos, reader`filled, tx
    ensures Reading(tx.sent, r, interrupt)
            == ReadingOf(ScriptFrom(reader.source, 0, reader.end), ctrlC, tx.capacity, tools)
  {
    var stop, n := ReadAndSend(reader, tx, ctrlC, tools);
    ghost var script := ScriptFrom(reader.source, 0, reader.end);
    match stop {
      case Signalled =>
        EndsBySignal(script, ctrlC, tx.capacity, tools, n, tx.sent);
        return Ok(()), true;
      case Exhausted(error) =>
        EndsWithScript(script, ctrlC, tx.capacity, tools, tx.sent);
        return if error.Some? then Err(error.value) else Ok(()), false;
      case ReceiverGone =>
        EndsByRefusal(script, ctrlC, tx.capacity, tools, n, tx.sent);
        return Ok(()), false;
    }
  }

  /** The reader's loop: the signal first, then a line. */
  method ReadAndSend(reader: BufReader, tx: Sender, ctrlC: iset<nat>, tools: Tools)
    returns (stop: Stop, ghost n: nat)
    requires reader.Valid() && reader.pos == 0 && tx.sent == []
    modifies reader`pos, reader`filled, tx
    ensures StoppedAt(stop, ScriptFrom(reader.source, 0, reader.end), ctrlC, tx.capacity, tools, n, tx.sent)
  {
    ghost var script := ScriptFrom(reader.source, 0, reader.end);
    var lineNo: nat := 0;
    while true
      invariant reader.Valid() && RestAt(reader.source, reader.pos, reader.end, script, lineNo)
      invariant Sending(script, ctrlC, tx.capacity, tools, lineNo, tx.sent)
      decreases |script.lines| - lineNo
    {
      if lineNo in ctrlC {
        return Signalled, lineNo;
      }
      NextRest(reader.source, reader.pos, reader.end, script, lineNo);
      var line, _ := ReadLineCapped(reader);
      lineNo := lineNo + 1;
      if line.Err? {
        return Exhausted(Some(ScriptError(lineNo, line.error))), lineNo - 1;
      }
      if line.value.None? {
        return Exhausted(None), lineNo - 1;
      }
      ghost var before := tx.sent;
      var ok := Forward(tx, lineNo, line.value.value, tools);
      if !ok {
        return ReceiverGone, lineNo - 1;
      }
      SendingOn(script, ctrlC, tx.capacity, tools, lineNo - 1, before);
    }
  }

  /** Prepares and sends one line; a blank one or a comment is passed over. */
  method Forward(tx: Sender, lineNo: nat, text: string, tools: Tools) returns (ok: bool)
    modifies tx
    ensures ok <==> !Refused(old(tx.sent), lineNo, text, tx.capacity, tools)
    ensures tx.sent == if ok then SentAfter(old(tx.sent), lineNo, text, tools) else old(tx.sent)
  {
    var kind;
    match TokenizeLine(text, tools) {
      case Ok(None) => return true;
      case Ok(Some(argv)) => kind := Argv(argv);
      case Err(reason) => kind := TokenizeError(reason);
    }
    ok := tx.Send(TryPrepare(ParsedLine(lineNo, text, kind), tools));
  }

  /** Uninterrupted, streaming mode sends what read-all prepares, with read-all's verdict. */
  lemma UninterruptedReading(script: Script, tools: Tools)
    ensures ReadingOf(script, iset{}, None, tools)
            == Reading(PrepareAll(ParsedLines(script.lines, tools), tools),
                       match script.error {
                         case None => Ok(())
                         case Some(e) => Err(ScriptError(|script.lines| + 1, e)) },
                       false)
  {
    assert FirstSignal(iset{}, 0, |script.lines| + 1) == |script.lines| + 1;
  }

  /** Whatever happens, what is sent is an initial part of what read-all prepares. */
  lemma SentIsPrefix(script: Script, ctrlC: iset<nat>, capacity: Option<nat>, tools: Tools)
    ensures ReadingOf(script, ctrlC, capacity, tools).sent <= PrepareAll(ParsedLines(script.lines, tools), tools)
  {
    var k := Min(FirstSignal(ctrlC, 0, |script.lines| + 1), |script.lines|);
    PreparedPrefix(script.lines, k, tools);
    AcceptedIsPrefix(PrepareAll(ParsedTo(script.lines, k, tools), tools), capacity);
  }

  lemma AcceptedIsPrefix(offered: seq<PreparedLine>, capacity: Option<nat>)
    ensures Accepted(offered, capacity) <= offered
  {
  }

  lemma PreparedStep(lines: seq<string>, n: nat, kind: ParsedLineKind, tools: Tools)
    requires 1 <= n <= |lines| && ParseLine(n, lines[n - 1], tools) == [ParsedLine(n, lines[n - 1], kind)]
    ensures PrepareAll(ParsedTo(lines, n, tools), tools)
            == PrepareAll(ParsedTo(lines, n - 1, tools), tools) + [TryPrepare(ParsedLine(n, lines[n - 1], kind), tools)]
  {
  }

  lemma {:induction false} ParsedGrows(lines: seq<string>, m: nat, n: nat, tools: Tools)
    requires m <= n <= |lines|
    ensures ParsedTo(lines, m, tools) <= ParsedTo(lines, n, tools)
  {
    if m < n { ParsedGrows(lines, m, n - 1, tools); }
  }

  lemma PreparedPrefix(lines: seq<string>, k: nat, tools: Tools)
    requires k <= |lines|
    ensures PrepareAll(ParsedTo(lines, k, tools), tools) <= PrepareAll(ParsedLines(lines, tools), tools)
  {
    ParsedGrows(lines, k, |lines|, tools);
  }

  /** A send that fails while `m` lines in leaves exactly the lines sent before. */
  lemma CutShort(lines: seq<string>, m: nat, n: nat, tools: Tools)
    requires 1 <= m <= n <= |lines| && ParseLine(m, lines[m - 1], tools) != []
    ensures var before := PrepareAll(ParsedTo(lines, m - 1, tools), tools);
            var all := PrepareAll(ParsedTo(lines, n, tools), tools);
            |before| < |all| && before == all[..|before|]
  {
    ParsedGrows(lines, m, n, tools);
    ParsedGrows(lines, m - 1, m, tools);
  }
}
