/** Exit-code policy of `batch-run`: severity ranking, stop-worthiness, summary buckets. */
module ExitCodes {
  import opened Basics

  /** A 32-bit code in the program; nothing below depends on its width. */
  type ExitCode = int

  function SeverityRank(code: ExitCode): nat {
    match code
    case 0 => 0
    case 1 => 5
    case 2 => 4
    case 3 => 3
    case 4 => 2
    case _ => 1
  }

  /** Ties keep `a`, the accumulator. */
  function WorseOf(a: ExitCode, b: ExitCode): ExitCode {
    if SeverityRank(b) > SeverityRank(a) then b else a
  }

  predicate IsStopWorthy(code: ExitCode, continueOnWarning: bool) {
    match code
    case 0 => false
    case 130 => false
    case 3 => !continueOnWarning
    case 4 => !continueOnWarning
    case _ => true
  }

  /** The accumulator after folding `WorseOf` over the first `k` codes, starting at 0. */
  function WorstTo(codes: seq<ExitCode>, k: nat): ExitCode
    requires k <= |codes|
  {
    if k == 0 then 0 else WorseOf(WorstTo(codes, k - 1), codes[k - 1])
  }

  function WorstOf(codes: seq<ExitCode>): ExitCode { WorstTo(codes, |codes|) }

  function StopWorthyTo(codes: seq<ExitCode>, k: nat, continueOnWarning: bool): nat
    requires k <= |codes|
  {
    if k == 0 then 0
    else StopWorthyTo(codes, k - 1, continueOnWarning)
         + if IsStopWorthy(codes[k - 1], continueOnWarning) then 1 else 0
  }

  function StopWorthyCount(codes: seq<ExitCode>, continueOnWarning: bool): nat {
    StopWorthyTo(codes, |codes|, continueOnWarning)
  }

  /** The four counters shared by the summary line and the progress bar. */
  datatype Counts = Counts(ok: nat, failed: nat, warning: nat, skipped: nat) {
    function Total(): nat { ok + failed + warning + skipped }
  }

  const NO_COUNTS := Counts(0, 0, 0, 0)

  function Bump(c: Counts, code: ExitCode): Counts {
    match code
    case 0 => c.(ok := c.ok + 1)
    case 3 => c.(warning := c.warning + 1)
    case 4 => c.(warning := c.warning + 1)
    case 130 => c.(skipped := c.skipped + 1)
    case _ => c.(failed := c.failed + 1)
  }

  function TallyTo(codes: seq<ExitCode>, k: nat): Counts
    requires k <= |codes|
  {
    if k == 0 then NO_COUNTS else Bump(TallyTo(codes, k - 1), codes[k - 1])
  }

  function TallyOf(codes: seq<ExitCode>): Counts { TallyTo(codes, |codes|) }

  function AddSkipped(c: Counts, n: nat): Counts { c.(skipped := c.skipped + n) }

  /** The folds only look at the codes folded. */
  lemma {:induction false} FoldAgree(a: seq<ExitCode>, b: seq<ExitCode>, k: nat, cow: bool)
    requires k <= |a| && k <= |b| && forall i :: 0 <= i < k ==> a[i] == b[i]
    ensures WorstTo(a, k) == WorstTo(b, k) && TallyTo(a, k) == TallyTo(b, k)
    ensures StopWorthyTo(a, k, cow) == StopWorthyTo(b, k, cow)
  {
    if k > 0 { FoldAgree(a, b, k - 1, cow); }
  }

  lemma FoldPrefix(codes: seq<ExitCode>, k: nat, cow: bool)
    requires k <= |codes|
    ensures WorstOf(codes[..k]) == WorstTo(codes, k) && TallyOf(codes[..k]) == TallyTo(codes, k)
    ensures StopWorthyCount(codes[..k], cow) == StopWorthyTo(codes, k, cow)
  {
    FoldAgree(codes[..k], codes, k, cow);
  }

  lemma FoldSnoc(codes: seq<ExitCode>, code: ExitCode, cow: bool)
    ensures WorstOf(codes + [code]) == WorseOf(WorstOf(codes), code)
    ensures TallyOf(codes + [code]) == Bump(TallyOf(codes), code)
    ensures StopWorthyCount(codes + [code], cow)
            == StopWorthyCount(codes, cow) + if IsStopWorthy(code, cow) then 1 else 0
  {
    FoldAgree(codes + [code], codes, |codes|, cow);
  }

  /** The tally is a function of how often each code occurs, and every code lands in one bucket. */
  lemma {:induction false} TallyByMultiset(codes: seq<ExitCode>)
    ensures var m := multiset(codes);
            var t := TallyOf(codes);
            && t.ok == m[0] && t.warning == m[3] + m[4] && t.skipped == m[130]
            && t.Total() == |codes|
  {
    if codes != [] {
      var init, last := codes[..|codes|-1], codes[|codes|-1];
      TallyByMultiset(init);
      assert codes == init + [last];
      FoldSnoc(init, last, false);
    }
  }

  /** What a tally says about the stop policy: failures, and warnings unless they are let pass. */
  function StopWorthyIn(c: Counts, continueOnWarning: bool): nat {
    c.failed + if continueOnWarning then 0 else c.warning
  }

  /** The buckets and the stop policy agree: the stop-worthy codes are those counted failed, or warned about. */
  lemma {:induction false} StopWorthyByTally(codes: seq<ExitCode>, k: nat, continueOnWarning: bool)
    requires k <= |codes|
    ensures StopWorthyTo(codes, k, continueOnWarning) == StopWorthyIn(TallyTo(codes, k), continueOnWarning)
  {
    if k > 0 { StopWorthyByTally(codes, k - 1, continueOnWarning); }
  }

  lemma {:induction false} OneStopWorthy(codes: seq<ExitCode>, k: nat, i: nat, continueOnWarning: bool)
    requires i < k <= |codes| && IsStopWorthy(codes[i], continueOnWarning)
    ensures StopWorthyTo(codes, k, continueOnWarning) > 0
  {
    if i < k - 1 { OneStopWorthy(codes, k - 1, i, continueOnWarning); }
  }

  /** `first` indexes the leftmost code of greatest severity among the first `k`. */
  ghost predicate FirstWorst(codes: seq<ExitCode>, k: nat, first: int) {
    && 0 <= first < k <= |codes|
    && (forall j :: 0 <= j < k ==> SeverityRank(codes[j]) <= SeverityRank(codes[first]))
    && (forall j :: 0 <= j < first ==> SeverityRank(codes[j]) < SeverityRank(codes[first]))
  }

  /** The fold picks the leftmost code of greatest severity, and 0 when there is none. */
  lemma {:induction false} WorstIsLeftmostMaximum(codes: seq<ExitCode>, k: nat) returns (first: int)
    requires 0 < k <= |codes|
    ensures FirstWorst(codes, k, first) && WorstTo(codes, k) == codes[first]
  {
    first := 0;
    if k > 1 {
      first := WorstIsLeftmostMaximum(codes, k - 1);
      if SeverityRank(codes[k - 1]) > SeverityRank(codes[first]) {
        first := k - 1;
      }
    }
  }

  lemma WorstFrom(codes: seq<ExitCode>, first: int)
    requires FirstWorst(codes, |codes|, first)
    ensures WorstOf(codes) == codes[first]
  {
    var f := WorstIsLeftmostMaximum(codes, |codes|);
    assert !(f < first) && !(first < f);
  }

  lemma WorstBounds(codes: seq<ExitCode>, c: ExitCode)
    ensures c in codes ==> SeverityRank(c) <= SeverityRank(WorstOf(codes))
    ensures WorstOf(codes) == 0 || WorstOf(codes) in codes
  {
    if codes != [] { var f := WorstIsLeftmostMaximum(codes, |codes|); }
  }

  /** A batch exits 0 exactly when every recorded code is 0. */
  lemma ExitZeroIffAllZero(codes: seq<ExitCode>)
    ensures WorstOf(codes) == 0 <==> forall c :: c in codes ==> c == 0
  {
    WorstBounds(codes, WorstOf(codes));
    forall c | c in codes && WorstOf(codes) == 0 ensures c == 0 { WorstBounds(codes, c); }
  }

  /** The order of severity: 1, then 2, 3 and 4, then every other failure, the first of them. */
  lemma ReportedCodeIs(codes: seq<ExitCode>)
    ensures WorstOf(codes) == 1 <==> 1 in codes
    ensures WorstOf(codes) == 2 <==> 2 in codes && 1 !in codes
    ensures WorstOf(codes) == 3 <==> 3 in codes && 1 !in codes && 2 !in codes
    ensures WorstOf(codes) == 4 <==> 4 in codes && 1 !in codes && 2 !in codes && 3 !in codes
    ensures !(0 <= WorstOf(codes) <= 4) <==>
              && (exists i :: 0 <= i < |codes| && codes[i] != 0)
              && 1 !in codes && 2 !in codes && 3 !in codes && 4 !in codes
    ensures !(0 <= WorstOf(codes) <= 4) ==>
              exists i :: 0 <= i < |codes| && codes[i] == WorstOf(codes) && forall k :: 0 <= k < i ==> codes[k] == 0
  {
    WorstBounds(codes, 1);
    WorstBounds(codes, 2);
    WorstBounds(codes, 3);
    WorstBounds(codes, 4);
    ExitZeroIffAllZero(codes);
    if codes != [] {
      var first := WorstIsLeftmostMaximum(codes, |codes|);
    }
  }

  /** Recording more codes never makes the reported severity milder. */
  lemma MoreCodesNoMilder(fewer: seq<ExitCode>, more: seq<ExitCode>)
    requires forall c :: c in fewer ==> c in more
    ensures SeverityRank(WorstOf(fewer)) <= SeverityRank(WorstOf(more))
  {
    WorstBounds(fewer, 0);
    WorstBounds(more, WorstOf(fewer));
  }

  lemma SameMembers(a: seq<ExitCode>, b: seq<ExitCode>)
    requires multiset(a) == multiset(b)
    ensures forall c :: c in a <==> c in b
    ensures |a| == |b|
  {
    forall c ensures c in a <==> c in b { assert c in a <==> c in multiset(a); }
    assert |a| == |multiset(a)|;
  }

  /**
   * Two completion orders of the same codes report the same severity, and the same code
   * unless that severity is the one shared by all codes outside 0-4.
   */
  lemma CompletionOrderKeepsSeverity(a: seq<ExitCode>, b: seq<ExitCode>)
    requires multiset(a) == multiset(b)
    ensures SeverityRank(WorstOf(a)) == SeverityRank(WorstOf(b))
    ensures SeverityRank(WorstOf(a)) != 1 ==> WorstOf(a) == WorstOf(b)
    ensures TallyOf(a) == TallyOf(b)
  {
    SameMembers(a, b);
    MoreCodesNoMilder(a, b);
    MoreCodesNoMilder(b, a);
    TallyByMultiset(a);
    TallyByMultiset(b);
  }

  ghost predicate OrderFree(codes: seq<ExitCode>) {
    forall p: seq<ExitCode> :: multiset(p) == multiset(codes) ==> WorstOf(p) == WorstOf(codes)
  }

  /** Whether no two non-zero codes of the run differ. */
  ghost predicate OneFailureCode(codes: seq<ExitCode>) {
    forall c, d :: c in codes && d in codes && c != 0 && d != 0 ==> c == d
  }

  /**
   * The exit code is independent of the completion order exactly when the worst code is one of
   * 0-4, or all failures share one code.
   */
  lemma ExitCodeOrderFreeIff(codes: seq<ExitCode>)
    ensures OrderFree(codes) <==> SeverityRank(WorstOf(codes)) != 1 || OneFailureCode(codes)
  {
    var w := WorstOf(codes);
    WorstBounds(codes, 0);
    if SeverityRank(w) != 1 || OneFailureCode(codes) {
      forall p: seq<ExitCode> | multiset(p) == multiset(codes) ensures WorstOf(p) == w {
        CompletionOrderKeepsSeverity(codes, p);
        SameMembers(codes, p);
        WorstBounds(p, 0);
      }
    } else {
      var c, d :| c in codes && d in codes && c != 0 && d != 0 && c != d;
      AnotherOrder(codes, if c == w then d else c);
    }
  }

  /** Any mildest-ranked failure code of the run can be the one reported. */
  lemma AnotherOrder(codes: seq<ExitCode>, other: ExitCode)
    requires SeverityRank(WorstOf(codes)) == 1 && other in codes && other != 0
    ensures exists p: seq<ExitCode> :: multiset(p) == multiset(codes) && WorstOf(p) == other
  {
    var j :| 0 <= j < |codes| && codes[j] == other;
    var p := MoveToFront(codes, j);
    SameMembers(p, codes);
    forall k | 0 <= k < |p| ensures SeverityRank(p[k]) <= 1 { WorstBounds(codes, p[k]); }
    WorstFrom(p, 0);
  }
}
