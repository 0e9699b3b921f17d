// The deterministic risk score of a run (risk_score.go).
module RiskScore {
  import opened Text
  import opened TextLines
  import opened Paths
  import opened Sets

  /** A finding of the review: what its two severity entries hold, if they are there. */
  datatype BotFinding = BotFinding(severity: Option<string>, capitalised: Option<string>)

  datatype Review = Review(
    status: string, verdict: string, findings: seq<BotFinding>, priorities: nat,
    rationale: string, fallback: bool, confidence: int)

  datatype Factor = SecurityGate | SecurityCritical | SecurityHigh | SecurityMedium | BugbotBlocker | BugbotFindings
    | BugbotVerdict | SensitivePaths | LargeDiff | MediumDiff | DegradedInput

  datatype RiskEvidence = RiskEvidence(
    review: Review, securityFail: bool, severities: seq<string>, files: seq<string>, degraded: seq<string>)

  // ----- What counts -----

  /** fmt.Sprint of a map entry: an absent one reads "<nil>". */
  function Sprint(v: Option<string>): string {
    if v.Some? then v.value else "<nil>"
  }

  function SeverityOf(f: BotFinding): string {
    var s := ToLower(TrimSpace(Sprint(f.severity)));
    if s == "" then ToLower(TrimSpace(Sprint(f.capitalised))) else s
  }

  predicate IsBlocking(f: BotFinding) {
    SeverityOf(f) in ["blocker", "critical", "high"]
  }

  /** hasBlockerOrHighFinding */
  predicate HasBlocker(r: Review) {
    exists i :: 0 <= i < |r.findings| && IsBlocking(r.findings[i])
  }

  /** A finding that has only the capitalised entry is never read: the lookup
      falls back on it when the other one is there and blank. */
  lemma CapitalisedEntryReadExactly(f: BotFinding, other: Option<string>)
    requires ToLower(TrimSpace(Sprint(other))) != ToLower(TrimSpace(Sprint(f.capitalised)))
    ensures SeverityOf(f) != SeverityOf(f.(capitalised := other)) <==> f.severity.Some? && TrimSpace(f.severity.value) == ""
  {
    TrimmedIsFixed("<nil>");
    assert f.severity.Some? ==> |ToLower(TrimSpace(f.severity.value))| == |TrimSpace(f.severity.value)|;
    assert |ToLower("<nil>")| == 5;
  }

  predicate IsCritical(s: string) {
    ToLower(s) == "critical" || ToLower(s) == "blocker"
  }

  predicate IsHigh(s: string) {
    ToLower(s) == "high"
  }

  predicate IsMedium(s: string) {
    ToLower(s) == "medium"
  }

  function CountOf(ss: seq<string>, p: string -> bool): nat {
    if ss == [] then 0 else CountOf(ss[..|ss| - 1], p) + (if p(ss[|ss| - 1]) then 1 else 0)
  }

  predicate Mentions(s: string, part: string) {
    Index(s, part) >= 0
  }

  function Sensitivity(path: string): nat {
    var lf := ToLower(path);
    if Mentions(lf, ".github/workflows") || HasSuffix(lf, "dockerfile") || Mentions(lf, "docker-compose") || HasPrefix(Base(lf), ".") then 1
    else if Mentions(lf, "migration") || Mentions(lf, "/auth") || Mentions(lf, "secret") || Mentions(lf, "credential")
         || Mentions(lf, "permission") || Mentions(lf, "rbac") then 1
    else if HasSuffix(lf, ".env") || HasSuffix(lf, ".pem") || HasSuffix(lf, ".key") then 2
    else 0
  }

  function SumOver(files: seq<string>, weight: string -> nat): nat {
    if files == [] then 0 else SumOver(files[..|files| - 1], weight) + weight(files[|files| - 1])
  }

  function TotalSensitivity(files: seq<string>): nat {
    SumOver(files, Sensitivity)
  }

  function Min(a: nat, b: nat): nat {
    if a < b then a else b
  }

  // ----- The score as a sum -----

  function SecurityPoints(ev: RiskEvidence): nat {
    (if ev.securityFail then 35 else 0)
    + Min(40, 20 * CountOf(ev.severities, IsCritical))
    + Min(25, 10 * CountOf(ev.severities, IsHigh))
    + Min(10, 3 * CountOf(ev.severities, IsMedium))
  }

  function ReviewPoints(r: Review): nat {
    (if HasBlocker(r) then 20 else if EqualFold(r.status, "findings") then 12 else 0)
    + (if EqualFold(r.verdict, "request_changes") then 10 else 0)
  }

  function DiffPoints(files: seq<string>, degraded: bool): nat {
    Min(25, 8 * TotalSensitivity(files))
    + (if |files| > 40 then 15 else if |files| > 20 then 8 else 0)
    + (if degraded then 10 else 0)
  }

  function Total(ev: RiskEvidence): nat {
    SecurityPoints(ev) + ReviewPoints(ev.review) + DiffPoints(ev.files, ev.degraded != [])
  }

  function Score(ev: RiskEvidence): (s: nat)
    ensures s <= 100
  {
    Min(100, Total(ev))
  }

  datatype Scored = Scored(factor: Factor, points: nat)

  function SumOf(fs: seq<Scored>): nat {
    if fs == [] then 0 else SumOf(fs[..|fs| - 1]) + fs[|fs| - 1].points
  }

  method Add(factors: seq<Scored>, f: Factor, points: nat) returns (more: seq<Scored>)
    ensures SumOf(more) == SumOf(factors) + points
    ensures forall x :: x in more ==> x in factors || (x == Scored(f, points) && points > 0)
    ensures forall x :: x in factors ==> x in more
    ensures points > 0 ==> Scored(f, points) in more
  {
    if points == 0 {
      return factors;
    }
    more := factors + [Scored(f, points)];
    assert more[..|factors|] == factors;
  }

  method CountSeverities(ss: seq<string>) returns (crit: nat, high: nat, med: nat)
    ensures crit == CountOf(ss, IsCritical) && high == CountOf(ss, IsHigh) && med == CountOf(ss, IsMedium)
  {
    crit, high, med := 0, 0, 0;
    for i := 0 to |ss|
      invariant crit == CountOf(ss[..i], IsCritical) && high == CountOf(ss[..i], IsHigh) && med == CountOf(ss[..i], IsMedium)
    {
      TakeSnoc(ss, i);
      var low := ToLower(ss[i]);
      if low == "critical" || low == "blocker" {
        crit := crit + 1;
      } else if low == "high" {
        high := high + 1;
      } else if low == "medium" {
        med := med + 1;
      }
    }
    TakeAll(ss);
  }

  method CountSensitive(files: seq<string>) returns (sensitive: nat)
    ensures sensitive == TotalSensitivity(files)
  {
    sensitive := 0;
    for i := 0 to |files|
      invariant sensitive == SumOver(files[..i], Sensitivity)
    {
      TakeSnoc(files, i);
      sensitive := sensitive + Sensitivity(files[i]);
    }
    TakeAll(files);
  }

  method AddSecurity(ev: RiskEvidence) returns (factors: seq<Scored>)
    ensures SumOf(factors) == SecurityPoints(ev) && forall x :: x in factors ==> x.points > 0
  {
    var crit, high, med := CountSeverities(ev.severities);
    factors := Add([], SecurityGate, if ev.securityFail then 35 else 0);
    factors := Add(factors, SecurityCritical, Min(40, crit * 20));
    factors := Add(factors, SecurityHigh, Min(25, high * 10));
    factors := Add(factors, SecurityMedium, Min(10, med * 3));
  }

  method AddReview(r: Review, before: seq<Scored>) returns (factors: seq<Scored>)
    requires forall x :: x in before ==> x.points > 0
    ensures SumOf(factors) == SumOf(before) + ReviewPoints(r) && forall x :: x in factors ==> x.points > 0
  {
    factors := before;
    if HasBlocker(r) {
      factors := Add(factors, BugbotBlocker, 20);
    } else if EqualFold(r.status, "findings") {
      factors := Add(factors, BugbotFindings, 12);
    }
    if EqualFold(r.verdict, "request_changes") {
      factors := Add(factors, BugbotVerdict, 10);
    }
  }

  method AddDiff(ev: RiskEvidence, before: seq<Scored>) returns (factors: seq<Scored>)
    requires forall x :: x in before ==> x.points > 0
    ensures SumOf(factors) == SumOf(before) + DiffPoints(ev.files, ev.degraded != []) && forall x :: x in factors ==> x.points > 0
  {
    var sensitive := CountSensitive(ev.files);
    factors := Add(before, SensitivePaths, Min(25, sensitive * 8));
    if |ev.files| > 40 {
      factors := Add(factors, LargeDiff, 15);
    } else if |ev.files| > 20 {
      factors := Add(factors, MediumDiff, 8);
    }
    if |ev.degraded| > 0 {
      factors := Add(factors, DegradedInput, 10);
    }
  }

  /** computeRiskScore; the files are those the diff touches. */
  method ComputeRiskScore(ev: RiskEvidence) returns (score: nat, factors: seq<Scored>)
    ensures score == Score(ev)
    ensures SumOf(factors) == Total(ev)
    ensures forall x :: x in factors ==> x.points > 0
  {
    factors := AddSecurity(ev);
    factors := AddReview(ev.review, factors);
    factors := AddDiff(ev, factors);
    score := AddUp(factors);
    if score > 100 {
      score := 100;
    }
  }

  method AddUp(factors: seq<Scored>) returns (score: nat)
    ensures score == SumOf(factors)
  {
    score := 0;
    for i := 0 to |factors|
      invariant score == SumOf(factors[..i])
    {
      assert factors[..i + 1][..i] == factors[..i];
      score := score + factors[i].points;
    }
    assert factors[..|factors|] == factors;
  }

  // ----- More evidence never lowers the score -----

  /** The findings and reasons of the one are among those of the other. */
  ghost predicate Riskier(a: RiskEvidence, b: RiskEvidence) {
    && (a.securityFail ==> b.securityFail)
    && multiset(a.severities) <= multiset(b.severities)
    && (HasBlocker(a.review) ==> HasBlocker(b.review))
    && a.review.status == b.review.status && a.review.verdict == b.review.verdict
    && a.files == b.files && (a.degraded != [] ==> b.degraded != [])
  }

  lemma {:induction false} CountWithout(ss: seq<string>, i: nat, p: string -> bool)
    requires i < |ss|
    ensures CountOf(ss, p) == CountOf(ss[..i] + ss[i + 1..], p) + (if p(ss[i]) then 1 else 0)
    decreases |ss|
  {
    var n := |ss| - 1;
    var rest := ss[..i] + ss[i + 1..];
    if i == n {
      assert rest == ss[..n];
    } else {
      CountWithout(ss[..n], i, p);
      assert rest[|rest| - 1] == ss[n] && rest[..|rest| - 1] == ss[..n][..i] + ss[..n][i + 1..];
    }
  }

  lemma {:induction false} CountGrows(a: seq<string>, b: seq<string>, p: string -> bool)
    requires multiset(a) <= multiset(b)
    ensures CountOf(a, p) <= CountOf(b, p)
    decreases |a|
  {
    if a != [] {
      var i := DropShared(b, a);
      CountWithout(b, i, p);
      CountGrows(a[..|a| - 1], b[..i] + b[i + 1..], p);
    }
  }

  /** The score lies between 0 and 100 and never falls when a security or review
      finding, a gate failure or a degraded reason is added. */
  lemma MoreEvidenceMoreRisk(a: RiskEvidence, b: RiskEvidence)
    requires Riskier(a, b)
    ensures 0 <= Score(a) <= Score(b) <= 100
    ensures Total(a) <= Total(b)
  {
    SecurityGrows(a, b);
    assert ReviewPoints(a.review) <= ReviewPoints(b.review);
  }

  lemma SecurityGrows(a: RiskEvidence, b: RiskEvidence)
    requires Riskier(a, b)
    ensures SecurityPoints(a) <= SecurityPoints(b)
  {
    CountGrows(a.severities, b.severities, IsCritical);
    CountGrows(a.severities, b.severities, IsHigh);
    CountGrows(a.severities, b.severities, IsMedium);
  }

  // ----- What each piece of evidence adds -----

  lemma CountSnoc(ss: seq<string>, s: string, p: string -> bool)
    ensures CountOf(ss + [s], p) == CountOf(ss, p) + (if p(s) then 1 else 0)
  {
    assert (ss + [s])[..|ss|] == ss;
  }

  /** How many findings of a kind still add: the first so many in full, and where
      the cap cuts one, that much of it. */
  function Marginal(before: nat, each: nat, cap: nat): nat {
    if (before + 1) * each <= cap then each
    else if before * each < cap then cap - before * each
    else 0
  }

  /** One more security finding adds 20 up to 40 for critical or blocker, 10 up to
      25 for high, 3 up to 10 for medium, and nothing for any other. */
  lemma {:induction false} OneMoreFinding(ev: RiskEvidence, severity: string)
    ensures Total(ev.(severities := ev.severities + [severity])) == Total(ev) +
            match ToLower(severity)
            case "critical" => Marginal(CountOf(ev.severities, IsCritical), 20, 40)
            case "blocker" => Marginal(CountOf(ev.severities, IsCritical), 20, 40)
            case "high" => Marginal(CountOf(ev.severities, IsHigh), 10, 25)
            case "medium" => Marginal(CountOf(ev.severities, IsMedium), 3, 10)
            case _ => 0
  {
    CountSnoc(ev.severities, severity, IsCritical);
    CountSnoc(ev.severities, severity, IsHigh);
    CountSnoc(ev.severities, severity, IsMedium);
  }

  /** A failed gate adds 35 points, a degraded input 10, a verdict of
      request_changes 10, a status of findings 12, and a blocking finding 20 in
      place of those 12. */
  lemma {:induction false} EachFlagAdds(ev: RiskEvidence, reason: string, f: BotFinding)
    requires !ev.securityFail && ev.degraded == [] && ev.review.findings == []
    requires ToLower(ev.review.verdict) != "request_changes" && ToLower(ev.review.status) != "findings"
    requires SeverityOf(f) in {"blocker", "critical", "high"}
    ensures Total(ev.(securityFail := true)) == Total(ev) + 35
    ensures Total(ev.(degraded := [reason])) == Total(ev) + 10
    ensures Total(ev.(review := ev.review.(verdict := "request_changes"))) == Total(ev) + 10
    ensures Total(ev.(review := ev.review.(status := "findings"))) == Total(ev) + 12
    ensures Total(ev.(review := ev.review.(findings := [f]))) == Total(ev) + 20
    ensures Total(ev.(review := ev.review.(status := "findings", findings := [f]))) == Total(ev) + 20
  {
    assert ToLower("request_changes") == "request_changes" && ToLower("findings") == "findings";
    assert IsBlocking([f][0]);
    assert HasBlocker(ev.review.(findings := [f])) && HasBlocker(ev.review.(status := "findings", findings := [f]));
    assert !HasBlocker(ev.review);
  }

  // ----- Which paths are sensitive -----

  const WORDS: seq<string> := [
    ".github/workflows", "docker-compose", "migration", "/auth", "secret", "credential", "permission", "rbac"]

  const KEY_FILES: seq<string> := [".env", ".pem", ".key"]

  /** A hidden file; the empty path reads like one. */
  predicate IsHidden(low: string) {
    low == "" || HasPrefix(LastNamed(Split(low, '/')), ".")
  }

  lemma {:induction false} HiddenBase(low: string)
    ensures HasPrefix(Base(low), ".") <==> IsHidden(low)
  {
    LastSegmentIs(low);
  }

  /** Two points for a key file, one for a path that holds one of the words
      anywhere, ends in dockerfile or is hidden, whether a key file or not, and
      none for any other; all in any case of letters. */
  lemma {:induction false} SensitiveExactly(path: string)
    ensures var low := ToLower(path);
            var marked := (exists w :: w in WORDS && Contains(low, w)) || HasSuffix(low, "dockerfile") || IsHidden(low);
            var key := exists w :: w in KEY_FILES && HasSuffix(low, w);
            Sensitivity(path) == if marked then 1 else if key then 2 else 0
  {
    HiddenBase(ToLower(path));
    WordsAre(ToLower(path));
  }

  lemma {:induction false} WordsAre(low: string)
    ensures (exists w :: w in WORDS && Contains(low, w)) <==>
              || Contains(low, ".github/workflows") || Contains(low, "docker-compose") || Contains(low, "migration")
              || Contains(low, "/auth") || Contains(low, "secret") || Contains(low, "credential")
              || Contains(low, "permission") || Contains(low, "rbac")
    ensures (exists w :: w in KEY_FILES && HasSuffix(low, w)) <==>
              HasSuffix(low, ".env") || HasSuffix(low, ".pem") || HasSuffix(low, ".key")
  {
    OneOfThem(low);
    assert KEY_FILES[0] in KEY_FILES && KEY_FILES[1] in KEY_FILES && KEY_FILES[2] in KEY_FILES;
  }

  lemma {:induction false} OneOfThem(low: string)
    ensures (exists w :: w in WORDS && Contains(low, w)) <==> exists i :: 0 <= i < 8 && Contains(low, WORDS[i])
  {
    if w :| w in WORDS && Contains(low, w) {
      var i :| 0 <= i < |WORDS| && WORDS[i] == w;
      assert Contains(low, WORDS[i]);
    }
    if i :| 0 <= i < 8 && Contains(low, WORDS[i]) {
      assert WORDS[i] in WORDS;
    }
  }

  lemma {:induction false} FoldedParts(a: string, w: string, b: string)
    ensures ToLower(a + w + b) == ToLower(a) + ToLower(w) + ToLower(b)
  {
  }

  /** So a word counts wherever it stands. */
  lemma {:induction false} WordsCountAnywhere(a: string, w: string, b: string)
    requires ToLower(w) in WORDS
    ensures Sensitivity(a + w + b) == 1
  {
    var low := ToLower(a + w + b);
    FoldedParts(a, w, b);
    assert low[|a|..|a| + |w|] == ToLower(w);
    assert OccursAt(low, ToLower(w), |a|);
    SensitiveExactly(a + w + b);
  }
}
