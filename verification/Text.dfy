/** Cutting text at a separator. */
module Text {
  function IndexOf(s: string, c: char): (n: nat)
    ensures n <= |s| && (n < |s| ==> s[n] == c)
    ensures forall i :: 0 <= i < n ==> s[i] != c
  {
    if s == [] || s[0] == c then 0 else 1 + IndexOf(s[1..], c)
  }

  lemma IndexOfUnique(s: string, c: char, n: nat)
    requires n <= |s| && (n < |s| ==> s[n] == c) && forall i :: 0 <= i < n ==> s[i] != c
    ensures IndexOf(s, c) == n
  {
    assert !(n < IndexOf(s, c)) && !(IndexOf(s, c) < n);
  }

  /** The parts between separators, at least one. */
  function Split(s: string, sep: char): (parts: seq<string>)
    ensures parts != []
    decreases |s|
  {
    var n := IndexOf(s, sep);
    if n == |s| then [s] else [s[..n]] + Split(s[n+1..], sep)
  }

  /** A part without the separator comes off whole. */
  lemma SplitHead(head: string, rest: string, sep: char)
    requires forall i :: 0 <= i < |head| ==> head[i] != sep
    ensures Split(head, sep) == [head]
    ensures Split(head + [sep] + rest, sep) == [head] + Split(rest, sep)
  {
    IndexOfUnique(head, sep, |head|);
    var s := head + [sep] + rest;
    IndexOfUnique(s, sep, |head|);
    assert s[..|head|] == head && s[|head|+1..] == rest;
  }
}
