/** Masking of credential values in a tokenized line, by lookahead and by carried flag. */
module Redact {
  import opened Basics
  import opened Text

  const REDACTED: string := "****"

  predicate Contains(s: string, part: string) {
    |part| <= |s| && (s[..|part|] == part || (s != [] && Contains(s[1..], part)))
  }

  function TrimDashes(s: string): string {
    if s != [] && s[0] == '-' then TrimDashes(s[1..]) else s
  }

  const SECRET_FLAG_SUBSTRINGS: seq<string> := ["access-key", "session-token", "sse-c-key"]

  /** Whether one of the names of credential arguments occurs. */
  predicate NamesSecret(s: string) {
    exists n :: 0 <= n < |SECRET_FLAG_SUBSTRINGS| && Contains(s, SECRET_FLAG_SUBSTRINGS[n])
  }

  /** A flag, without any `=value`, that names a credential argument. */
  predicate IsSecretFlag(flag: string) { NamesSecret(TrimDashes(flag)) }

  predicate IsFlag(token: string) { token != [] && token[0] == '-' }

  /** Offset of the first `=`, the length when there is none. */
  function FindEquals(s: string): (n: nat)
    ensures n <= |s| && (n < |s| ==> s[n] == '=')
    ensures forall i :: 0 <= i < n ==> s[i] != '='
  {
    if s == [] || s[0] == '=' then 0 else 1 + FindEquals(s[1..])
  }

  /** `--flag=value` with a secret flag. */
  predicate EqualsForm(token: string) {
    var eq := FindEquals(token);
    IsFlag(token) && eq < |token| && IsSecretFlag(token[..eq])
  }

  /** A secret flag whose value is the next token. */
  predicate Opens(token: string) { !EqualsForm(token) && IsFlag(token) && IsSecretFlag(token) }

  /** Whether position `i` is the value of the secret flag before it. */
  predicate IsValue(tokens: seq<string>, i: nat)
    requires i <= |tokens|
  {
    i > 0 && !IsValue(tokens, i - 1) && Opens(tokens[i - 1])
  }

  function MaskEquals(token: string): string { token[..FindEquals(token)] + "=" + REDACTED }

  function RedactAt(tokens: seq<string>, i: nat): string
    requires i < |tokens|
  {
    if IsValue(tokens, i) then REDACTED
    else if EqualsForm(tokens[i]) then MaskEquals(tokens[i])
    else tokens[i]
  }

  /** The first `k` tokens redacted, position by position. */
  function RedactedTo(tokens: seq<string>, k: nat): (out: seq<string>)
    requires k <= |tokens|
    ensures |out| == k && forall i :: 0 <= i < k ==> out[i] == RedactAt(tokens, i)
  {
    if k == 0 then [] else RedactedTo(tokens, k - 1) + [RedactAt(tokens, k - 1)]
  }

  function Redacted(tokens: seq<string>): (out: seq<string>)
    ensures |out| == |tokens| && forall i :: 0 <= i < |tokens| ==> out[i] == RedactAt(tokens, i)
  {
    RedactedTo(tokens, |tokens|)
  }

  predicate MaskedTo(tokens: seq<string>, k: nat)
    requires k <= |tokens|
  {
    k > 0 && (MaskedTo(tokens, k - 1) || HoldsSecret(tokens, k - 1))
  }

  predicate HoldsSecret(tokens: seq<string>, i: nat)
    requires i < |tokens|
  {
    IsValue(tokens, i) || EqualsForm(tokens[i])
  }

  function JoinSpaces(words: seq<string>): string {
    if words == [] then "" else if |words| == 1 then words[0] else words[0] + " " + JoinSpaces(words[1..])
  }

  /** The line to log in place of the tokens, nothing when no value was masked. */
  function RedactedLine(tokens: seq<string>): Option<string> {
    if MaskedTo(tokens, |tokens|) then Some(JoinSpaces(Redacted(tokens))) else None
  }

  /** Index lookahead: a secret flag consumes the token after it. */
  method RedactTokens(tokens: seq<string>) returns (r: Option<string>)
    ensures r == RedactedLine(tokens)
  {
    var out: seq<string> := [];
    var masked := false;
    var i := 0;
    while i < |tokens|
      invariant i <= |tokens| && (i < |tokens| ==> !IsValue(tokens, i))
      invariant out == RedactedTo(tokens, i) && masked == MaskedTo(tokens, i)
    {
      var token := tokens[i];
      var eq := FindEquals(token);
      if IsFlag(token) && eq < |token| && IsSecretFlag(token[..eq]) {
        out := out + [token[..eq] + "=" + REDACTED];
        masked := true;
        i := i + 1;
        continue;
      }
      if IsFlag(token) && IsSecretFlag(token) {
        out := out + [token];
        if i + 1 < |tokens| {
          assert IsValue(tokens, i + 1);
          out := out + [REDACTED];
          masked := true;
          i := i + 2;
          continue;
        }
        i := i + 1;
        continue;
      }
      out := out + [token];
      i := i + 1;
    }
    r := if masked then Some(JoinSpaces(out)) else None;
  }

  /** Carried flag: a secret flag makes the next word a value. */
  method RedactWhitespace(words: seq<string>) returns (r: Option<string>)
    ensures r == RedactedLine(words)
  {
    var out: seq<string> := [];
    var masked := false;
    var expectValue := false;
    for k := 0 to |words|
      invariant expectValue == IsValue(words, k)
      invariant out == RedactedTo(words, k) && masked == MaskedTo(words, k)
    {
      var word := words[k];
      if expectValue {
        out := out + [REDACTED];
        masked := true;
        expectValue := false;
        continue;
      }
      var eq := FindEquals(word);
      if IsFlag(word) && eq < |word| && IsSecretFlag(word[..eq]) {
        out := out + [word[..eq] + "=" + REDACTED];
        masked := true;
        continue;
      }
      if IsFlag(word) && IsSecretFlag(word) {
        out := out + [word];
        expectValue := true;
        continue;
      }
      out := out + [word];
    }
    r := if masked then Some(JoinSpaces(out)) else None;
  }

  // ---- What the masking guarantees ----

  lemma FindEqualsUnique(s: string, n: nat)
    requires n <= |s| && (n < |s| ==> s[n] == '=') && forall i :: 0 <= i < n ==> s[i] != '='
    ensures FindEquals(s) == n
  {
    assert !(n < FindEquals(s)) && !(FindEquals(s) < n);
  }

  /** A masked `--flag=value` is still one, with the same flag, and masks to itself. */
  lemma MaskEqualsStable(token: string)
    requires EqualsForm(token)
    ensures var m := MaskEquals(token);
            && EqualsForm(m) && MaskEquals(m) == m
            && m[..FindEquals(m)] == token[..FindEquals(token)]
  {
    var eq := FindEquals(token);
    var m := MaskEquals(token);
    assert m[..eq] == token[..eq];
    FindEqualsUnique(m, eq);
    assert m[0] == token[0];
  }

  /** Masking does not move the value positions. */
  lemma {:induction false} ValuesStay(tokens: seq<string>, i: nat)
    requires i <= |tokens|
    ensures IsValue(Redacted(tokens), i) == IsValue(tokens, i)
  {
    if i > 0 {
      ValuesStay(tokens, i - 1);
      if !IsValue(tokens, i - 1) && EqualsForm(tokens[i - 1]) { MaskEqualsStable(tokens[i - 1]); }
    }
  }

  /** Redacting twice is redacting once. */
  lemma RedactTwice(tokens: seq<string>)
    ensures Redacted(Redacted(tokens)) == Redacted(tokens)
  {
    var once := Redacted(tokens);
    forall i | 0 <= i < |tokens| ensures RedactAt(once, i) == once[i] {
      ValuesStay(tokens, i);
      if !IsValue(tokens, i) && EqualsForm(tokens[i]) { MaskEqualsStable(tokens[i]); }
    }
  }

  lemma {:induction false} VerdictStays(tokens: seq<string>, k: nat)
    requires k <= |tokens|
    ensures MaskedTo(Redacted(tokens), k) == MaskedTo(tokens, k)
  {
    if k > 0 {
      VerdictStays(tokens, k - 1);
      ValuesStay(tokens, k - 1);
      if !IsValue(tokens, k - 1) && EqualsForm(tokens[k - 1]) { MaskEqualsStable(tokens[k - 1]); }
    }
  }

  /** Two lines that differ at most in the values of secret flags. */
  predicate SameButSecrets(a: seq<string>, b: seq<string>) {
    && |a| == |b|
    && forall i :: 0 <= i < |a| ==>
         || a[i] == b[i]
         || IsValue(a, i)
         || (EqualsForm(a[i]) && EqualsForm(b[i]) && a[i][..FindEquals(a[i])] == b[i][..FindEquals(b[i])])
  }

  lemma {:induction false} SecretsDoNotMoveValues(a: seq<string>, b: seq<string>, i: nat)
    requires SameButSecrets(a, b) && i <= |a|
    ensures IsValue(a, i) == IsValue(b, i)
  {
    if i > 0 { SecretsDoNotMoveValues(a, b, i - 1); }
  }

  lemma {:induction false} SecretsDoNotMoveVerdict(a: seq<string>, b: seq<string>, k: nat)
    requires SameButSecrets(a, b) && k <= |a|
    ensures MaskedTo(a, k) == MaskedTo(b, k)
    ensures !MaskedTo(a, k) ==> a[..k] == b[..k]
  {
    if k > 0 {
      SecretsDoNotMoveVerdict(a, b, k - 1);
      SecretsDoNotMoveValues(a, b, k - 1);
      assert a[..k] == a[..k-1] + [a[k-1]] && b[..k] == b[..k-1] + [b[k-1]];
    }
  }

  /**
   * What is logged carries no information about the secret values: the two lines are masked alike, or
   * are left alone and are the same line.
   */
  lemma SecretsDoNotShow(a: seq<string>, b: seq<string>)
    requires SameButSecrets(a, b)
    ensures Redacted(a) == Redacted(b)
    ensures RedactedLine(a) == RedactedLine(b)
    ensures RedactedLine(a) == None ==> a == b
  {
    forall i | 0 <= i < |a| ensures RedactAt(a, i) == RedactAt(b, i) { SecretsDoNotMoveValues(a, b, i); }
    SecretsDoNotMoveVerdict(a, b, |a|);
    assert a[..|a|] == a && b[..|b|] == b;
  }

  /** A line is left alone exactly when it has no secret value to mask. */
  lemma {:induction false} UnmaskedIff(tokens: seq<string>, k: nat)
    requires k <= |tokens|
    ensures !MaskedTo(tokens, k) <==> forall i :: 0 <= i < k ==> !HoldsSecret(tokens, i)
  {
    if k > 0 { UnmaskedIff(tokens, k - 1); }
  }

  // ---- Masked though the flag is no secret ----

  predicate OccursAt(s: string, part: string, k: int) {
    0 <= k <= |s| - |part| && forall i :: 0 <= i < |part| ==> s[k + i] == part[i]
  }

  lemma OccursInFront(s: string, part: string)
    ensures OccursAt(s, part, 0) <==> |part| <= |s| && s[..|part|] == part
  {
  }

  lemma OccursThrough(s: string, part: string, n: nat)
    requires n < |s|
    ensures forall k :: OccursAt(s, part, k) && k <= n < k + |part| ==> part[n - k] == s[n]
  {
    forall k | OccursAt(s, part, k) && k <= n < k + |part| ensures part[n - k] == s[n] {
      assert s[k + (n - k)] == part[n - k];
    }
  }

  lemma {:induction false} ContainsIff(s: string, part: string)
    ensures Contains(s, part) <==> exists k :: OccursAt(s, part, k)
  {
    OccursInFront(s, part);
    if !OccursAt(s, part, 0) && s != [] {
      ContainsIff(s[1..], part);
      if k :| OccursAt(s[1..], part, k) { assert OccursAt(s, part, k + 1); }
      if k :| k > 0 && OccursAt(s, part, k) { assert OccursAt(s[1..], part, k - 1); }
    }
  }

  /** A name without `=` does not reach across one. */
  lemma ContainsAcross(flag: string, value: string, part: string)
    requires part != [] && forall i :: 0 <= i < |part| ==> part[i] != '='
    ensures Contains(flag + "=" + value, part) <==> Contains(flag, part) || Contains(value, part)
  {
    var s := flag + "=" + value;
    ContainsIff(s, part);
    ContainsIff(flag, part);
    ContainsIff(value, part);
    OccursAcross(flag, value, part);
  }

  lemma OccursAcross(flag: string, value: string, part: string)
    requires part != [] && forall i :: 0 <= i < |part| ==> part[i] != '='
    ensures (exists k :: OccursAt(flag + "=" + value, part, k))
            <==> (exists k :: OccursAt(flag, part, k)) || (exists k :: OccursAt(value, part, k))
  {
    var s := flag + "=" + value;
    OccursThrough(s, part, |flag|);
    if k :| OccursAt(flag, part, k) { assert OccursAt(s, part, k); }
    if k :| OccursAt(value, part, k) { assert OccursAt(s, part, |flag| + 1 + k); }
    if k :| OccursAt(s, part, k) {
      if k + |part| <= |flag| {
        assert OccursAt(flag, part, k);
      } else {
        assert OccursAt(value, part, k - |flag| - 1);
      }
    }
  }

  lemma {:induction false} TrimDashesOfPair(flag: string, value: string)
    ensures TrimDashes(flag + "=" + value) == TrimDashes(flag) + "=" + value
  {
    var s := flag + "=" + value;
    if flag != [] && flag[0] == '-' {
      TrimDashesOfPair(flag[1..], value);
      assert s[1..] == flag[1..] + "=" + value;
    }
  }

  lemma SecretNamesHoldNoEquals(n: nat)
    requires n < |SECRET_FLAG_SUBSTRINGS|
    ensures var part := SECRET_FLAG_SUBSTRINGS[n]; part != [] && forall i :: 0 <= i < |part| ==> part[i] != '='
  {
  }

  lemma NamesSecretAcross(flag: string, value: string)
    ensures NamesSecret(flag + "=" + value) <==> NamesSecret(flag) || NamesSecret(value)
  {
    forall n | 0 <= n < |SECRET_FLAG_SUBSTRINGS|
      ensures Contains(flag + "=" + value, SECRET_FLAG_SUBSTRINGS[n])
              <==> Contains(flag, SECRET_FLAG_SUBSTRINGS[n]) || Contains(value, SECRET_FLAG_SUBSTRINGS[n])
    {
      SecretNamesHoldNoEquals(n);
      ContainsAcross(flag, value, SECRET_FLAG_SUBSTRINGS[n]);
    }
  }

  /** A whole `flag=value` token counts as a secret flag when its flag does, or when its value names a secret. */
  lemma WholeTokenSecretIff(flag: string, value: string)
    ensures IsSecretFlag(flag + "=" + value) <==> IsSecretFlag(flag) || NamesSecret(value)
  {
    TrimDashesOfPair(flag, value);
    NamesSecretAcross(TrimDashes(flag), value);
  }

  /** The token up to its first `=`. */
  function FlagPart(token: string): string { token[..FindEquals(token)] }

  /**
   * The positions masked after a token whose flag is no secret: those after a `--flag=value` token,
   * itself no masked value, in which only the value names a secret.
   */
  lemma MaskedAfterPlainFlagIff(tokens: seq<string>, i: nat)
    requires 0 < i <= |tokens|
    ensures var before := tokens[i - 1];
            IsValue(tokens, i) && !IsSecretFlag(FlagPart(before))
            <==> && !IsValue(tokens, i - 1) && IsFlag(before) && !IsSecretFlag(FlagPart(before))
                 && FindEquals(before) < |before| && NamesSecret(before[FindEquals(before)+1..])
  {
    var before := tokens[i - 1];
    var eq := FindEquals(before);
    if eq < |before| {
      WholeTokenSecretIff(before[..eq], before[eq+1..]);
      assert before == before[..eq] + "=" + before[eq+1..];
    } else {
      assert FlagPart(before) == before;
    }
  }

  /** So the token after `flag=value` is masked whenever only the value names a secret. */
  lemma PlainFlagMasksNext(flag: string, value: string, next: string)
    requires IsFlag(flag) && !IsSecretFlag(flag) && FindEquals(flag) == |flag| && NamesSecret(value)
    ensures var token := flag + "=" + value;
            Redacted([token, next]) == [token, REDACTED]
  {
    var token := flag + "=" + value;
    FindEqualsUnique(token, |flag|);
    assert token[..|flag|] == flag && token[|flag|+1..] == value;
    MaskedAfterPlainFlagIff([token, next], 1);
  }

  /** In `--name=my-access-key x` the `x` is masked. */
  lemma NameMasksNext(x: string)
    ensures Redacted(["--name" + "=" + "my-access-key", x]) == ["--name" + "=" + "my-access-key", "****"]
  {
    var flag, value := "--name", "my-access-key";
    assert TrimDashes("name") == "name" && "-name"[1..] == "name" && "--name"[1..] == "-name";
    assert forall n :: 0 <= n < |SECRET_FLAG_SUBSTRINGS| ==> !Contains("name", SECRET_FLAG_SUBSTRINGS[n]);
    FindEqualsUnique(flag, |flag|);
    assert OccursAt(value, SECRET_FLAG_SUBSTRINGS[0], 3);
    ContainsIff(value, SECRET_FLAG_SUBSTRINGS[0]);
    PlainFlagMasksNext(flag, value, x);
  }

  // ---- Which flags are secret ----

  lemma {:induction false} TrimDashesCuts(s: string) returns (n: nat)
    ensures n <= |s| && TrimDashes(s) == s[n..]
    ensures forall i :: 0 <= i < n ==> s[i] == '-'
  {
    n := 0;
    if s != [] && s[0] == '-' {
      n := TrimDashesCuts(s[1..]);
      n := n + 1;
    }
  }

  /** A name that does not begin with a dash is not cut by dropping the leading ones. */
  lemma TrimKeepsNames(s: string, part: string)
    requires part != [] && part[0] != '-'
    ensures Contains(TrimDashes(s), part) <==> exists k :: OccursAt(s, part, k)
  {
    var n := TrimDashesCuts(s);
    ContainsIff(TrimDashes(s), part);
    if k :| OccursAt(s[n..], part, k) { assert OccursAt(s, part, n + k); }
    if k :| OccursAt(s, part, k) {
      assert s[k + 0] == part[0];
      assert OccursAt(s[n..], part, k - n);
    }
  }

  ghost predicate Mentions(s: string, part: string) { exists k :: OccursAt(s, part, k) }

  /** A flag is secret exactly when one of the three names occurs in it, wherever that is. */
  lemma SecretFlagIff(flag: string)
    ensures IsSecretFlag(flag)
            <==> Mentions(flag, "access-key") || Mentions(flag, "session-token") || Mentions(flag, "sse-c-key")
  {
    assert SECRET_FLAG_SUBSTRINGS[0] == "access-key";
    assert SECRET_FLAG_SUBSTRINGS[1] == "session-token";
    assert SECRET_FLAG_SUBSTRINGS[2] == "sse-c-key";
    forall n | 0 <= n < |SECRET_FLAG_SUBSTRINGS|
      ensures Contains(TrimDashes(flag), SECRET_FLAG_SUBSTRINGS[n]) <==> Mentions(flag, SECRET_FLAG_SUBSTRINGS[n])
    {
      TrimKeepsNames(flag, SECRET_FLAG_SUBSTRINGS[n]);
    }
  }

  /** `--source-session-token`, `--target-sse-c-key-md5`, `--target-secret-access-key` and their like. */
  lemma CredentialFlagsAreSecret(side: string, tail: string)
    ensures IsSecretFlag("--" + side + "access-key" + tail)
    ensures IsSecretFlag("--" + side + "session-token" + tail)
    ensures IsSecretFlag("--" + side + "sse-c-key" + tail)
  {
    assert OccursAt("--" + side + "access-key" + tail, "access-key", 2 + |side|);
    assert OccursAt("--" + side + "session-token" + tail, "session-token", 2 + |side|);
    assert OccursAt("--" + side + "sse-c-key" + tail, "sse-c-key", 2 + |side|);
    SecretFlagIff("--" + side + "access-key" + tail);
    SecretFlagIff("--" + side + "session-token" + tail);
    SecretFlagIff("--" + side + "sse-c-key" + tail);
  }

  // ---- The line put together again ----

  /** The words of a redacted line can be told apart at its spaces, if none of them holds one. */
  lemma {:induction false} JoinedWordsSplit(words: seq<string>)
    requires words != [] && forall word :: word in words ==> ' ' !in word
    ensures Split(JoinSpaces(words), ' ') == words
  {
    var head := words[0];
    assert head in words;
    if |words| > 1 {
      JoinedWordsSplit(words[1..]);
      SplitHead(head, JoinSpaces(words[1..]), ' ');
      assert JoinSpaces(words) == head + [' '] + JoinSpaces(words[1..]);
      assert words == [head] + words[1..];
    } else {
      SplitHead(head, "", ' ');
      assert words == [head];
    }
  }
}
