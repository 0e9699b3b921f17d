// Whether a review approves a pull request (approval_policy.go), and how a run
// gathers the evidence for it (run_graph.go).
module Approval {
  import opened Text
  import opened RiskScore
  import opened RunStatus

  datatype Event = Approve | RequestChanges | Comment

  datatype Policy = Policy(require: seq<string>, minSeverity: string, maxRisk: int, onFail: string)

  datatype Evidence = Evidence(
    autoApprove: bool, review: Review, securityFail: bool, severities: seq<string>,
    bugbotOK: bool, securityOK: bool, degraded: seq<string>, cloudPending: bool,
    policy: Option<Policy>, policyHonesty: string, minScore: int, riskScore: int)

  // ----- Severities -----

  function Rank(s: string): nat {
    if s == "low" then 1 else if s == "medium" then 2 else if s == "high" then 3
    else if s == "critical" then 4 else if s == "blocker" then 5 else 0
  }

  function RankOf(s: string): nat {
    Rank(ToLower(TrimSpace(s)))
  }

  /** severityAtLeast: a severity nobody knows blocks nothing. */
  predicate AtLeast(have: string, want: string) {
    Rank(ToLower(have)) >= Rank(ToLower(want)) && Rank(ToLower(want)) > 0
  }

  lemma LowerTwice(s: string)
    ensures ToLower(ToLower(s)) == ToLower(s)
  {
  }

  /** The rank of the finding found so far, and that no earlier one has more. */
  ghost predicate HighestOf(severities: seq<string>, n: nat, best: string)
    requires n <= |severities|
  {
    && (forall k :: 0 <= k < n ==> RankOf(severities[k]) <= Rank(best))
    && (best != "" ==> ToLower(best) == best && exists k :: 0 <= k < n && best == ToLower(TrimSpace(severities[k])))
  }

  method HighestSecuritySeverity(severities: seq<string>) returns (best: string)
    ensures HighestOf(severities, |severities|, best)
  {
    best := "";
    var bestRank := 0;
    for i := 0 to |severities|
      invariant bestRank == Rank(best) && HighestOf(severities, i, best)
    {
      var s := ToLower(TrimSpace(severities[i]));
      LowerTwice(TrimSpace(severities[i]));
      if Rank(s) > bestRank {
        best, bestRank := s, Rank(s);
      }
    }
  }

  lemma HighestVetoes(severities: seq<string>, best: string, want: string)
    requires HighestOf(severities, |severities|, best)
    ensures AtLeast(best, want) <==> SeverityVeto(severities, want)
  {
    if best == "" {
      assert ToLower("") == "";
    }
  }

  // ----- The confidence veto -----

  predicate Says(text: string, word: string) {
    EqualFold(TrimSpace(text), word)
  }

  /** confidenceWhyIsActionable */
  predicate Actionable(r: Review) {
    || r.fallback || HasBlocker(r) || r.findings != [] || r.priorities > 0 || TrimSpace(r.rationale) != ""
    || Says(r.verdict, "request_changes") || Says(r.verdict, "needs_context")
    || ToLower(TrimSpace(r.status)) in ["findings", "error"]
  }

  /** calibrateConfidenceForVeto */
  method CalibrateConfidence(r: Review, minScore: int) returns (c: Review, raised: bool)
    ensures raised <==> minScore > 0 && r.confidence < minScore && !Actionable(r)
    ensures raised ==> c.confidence == minScore && c.rationale != "" && c == r.(confidence := minScore, rationale := c.rationale)
    ensures !raised ==> c == r
  {
    if minScore <= 0 || r.confidence >= minScore || Actionable(r) {
      return r, false;
    }
    c := r.(confidence := minScore);
    if TrimSpace(r.rationale) == "" {
      c := c.(rationale := "No findings or merge-blocker priorities; confidence raised to the auto-approve veto threshold.");
    }
    return c, true;
  }

  // ----- The decision -----

  /** Nothing is decided: the answer is a comment. */
  predicate Abstains(ev: Evidence) {
    || ev.degraded != [] || ev.cloudPending || !ev.autoApprove
    || ToLower(TrimSpace(ev.review.status)) in ["skipped", "error"]
  }

  predicate ConfidenceVeto(ev: Evidence) {
    ev.minScore > 0 && ev.review.confidence < ev.minScore && Actionable(ev.review)
  }

  predicate ReviewVeto(r: Review) {
    || HasBlocker(r) || ToLower(r.verdict) == "request_changes" || Says(r.verdict, "needs_context")
    || ToLower(TrimSpace(r.status)) == "findings"
  }

  function MinSeverity(p: Option<Policy>): string {
    if p.Some? && p.value.minSeverity != "" then p.value.minSeverity else "high"
  }

  predicate SeverityVeto(severities: seq<string>, want: string) {
    Rank(ToLower(want)) > 0 && exists i :: 0 <= i < |severities| && RankOf(severities[i]) >= Rank(ToLower(want))
  }

  predicate HardVeto(ev: Evidence) {
    ConfidenceVeto(ev) || ReviewVeto(ev.review) || ev.securityFail || SeverityVeto(ev.severities, MinSeverity(ev.policy))
  }

  predicate Unmet(req: string, ev: Evidence) {
    var r := ToLower(TrimSpace(req));
    (r == "security" && !ev.securityOK) || (r in ["bugbot", "review", "ai"] && !ev.bugbotOK)
  }

  predicate PolicyVeto(p: Policy, ev: Evidence) {
    (p.maxRisk > 0 && ev.riskScore > p.maxRisk) || exists i :: 0 <= i < |p.require| && Unmet(p.require[i], ev)
  }

  function FailEvent(p: Policy): Event {
    if EqualFold(p.onFail, "REQUEST_CHANGES") then RequestChanges else Comment
  }

  function Decision(ev: Evidence): Event {
    if Abstains(ev) then Comment
    else if HardVeto(ev) then RequestChanges
    else if ev.policy.Some? && PolicyVeto(ev.policy.value, ev) then FailEvent(ev.policy.value)
    else if ev.policy.None? && ev.policyHonesty != "" then Comment
    else Approve
  }

  method EvaluateApproval(ev: Evidence) returns (event: Event, body: Review)
    ensures event == Decision(ev)
    ensures event == Approve ==> ev.autoApprove && (ev.minScore > 0 ==> body.confidence >= ev.minScore)
  {
    if |ev.degraded| > 0 {
      return Comment, ev.review;
    }
    if ev.cloudPending {
      return Comment, ev.review;
    }
    if !ev.autoApprove {
      return Comment, ev.review;
    }
    var status := ToLower(TrimSpace(ev.review.status));
    if status == "skipped" || status == "error" {
      return Comment, ev.review;
    }
    var raised: bool;
    body, raised := CalibrateConfidence(ev.review, ev.minScore);
    if ev.minScore > 0 && body.confidence < ev.minScore {
      return RequestChanges, body;
    }
    var rejected := ReviewRejects(body);
    if rejected {
      return RequestChanges, body;
    }
    if ev.securityFail {
      return RequestChanges, body;
    }
    var vetoed := SecurityVeto(ev);
    if vetoed {
      return RequestChanges, body;
    }
    if ev.policy.Some? {
      var failed := PolicyFails(ev.policy.value, ev);
      if failed {
        return FailEvent(ev.policy.value), body;
      }
    } else if ev.policyHonesty != "" {
      return Comment, body;
    }
    return Approve, body;
  }

  method ReviewRejects(r: Review) returns (rejected: bool)
    ensures rejected <==> ReviewVeto(r)
  {
    if HasBlocker(r) || ToLower(r.verdict) == "request_changes" {
      return true;
    }
    if EqualFold(TrimSpace(r.verdict), "needs_context") {
      return true;
    }
    return ToLower(TrimSpace(r.status)) == "findings";
  }

  method SecurityVeto(ev: Evidence) returns (vetoed: bool)
    ensures vetoed <==> SeverityVeto(ev.severities, MinSeverity(ev.policy))
  {
    var minSev := "high";
    if ev.policy.Some? && ev.policy.value.minSeverity != "" {
      minSev := ev.policy.value.minSeverity;
    }
    var best := HighestSecuritySeverity(ev.severities);
    HighestVetoes(ev.severities, best, minSev);
    vetoed := AtLeast(best, minSev);
  }

  method PolicyFails(p: Policy, ev: Evidence) returns (failed: bool)
    ensures failed <==> PolicyVeto(p, ev)
  {
    if p.maxRisk > 0 && ev.riskScore > p.maxRisk {
      return true;
    }
    for i := 0 to |p.require|
      invariant forall k :: 0 <= k < i ==> !Unmet(p.require[k], ev)
    {
      if Unmet(p.require[i], ev) {
        return true;
      }
    }
    return false;
  }

  // ----- Worse evidence never approves -----

  /** A review with the same status and verdict and at least the same concerns. */
  ghost predicate WorseReview(a: Review, b: Review) {
    && a.status == b.status && a.verdict == b.verdict && b.confidence <= a.confidence
    && (forall f :: f in a.findings ==> f in b.findings)
    && (a.fallback ==> b.fallback) && a.priorities <= b.priorities
    && (TrimSpace(a.rationale) != "" ==> TrimSpace(b.rationale) != "")
  }

  /** A policy that requires and blocks at least as much. One that could not be
      read is as strict as can be. */
  ghost predicate StricterPolicy(a: Evidence, b: Evidence) {
    || (b.policy.None? && b.policyHonesty != "")
    || (&& (a.policy.None? ==> a.policyHonesty == "")
        && Stricter(MinSeverity(a.policy), MinSeverity(b.policy))
        && (a.policy.Some? ==>
              && b.policy.Some?
              && (forall r :: r in a.policy.value.require ==> r in b.policy.value.require)
              && (a.policy.value.maxRisk > 0 ==> 0 < b.policy.value.maxRisk <= a.policy.value.maxRisk)))
  }

  predicate Stricter(a: string, b: string) {
    Rank(ToLower(a)) > 0 ==> 0 < Rank(ToLower(b)) <= Rank(ToLower(a))
  }

  ghost predicate Worse(a: Evidence, b: Evidence) {
    && (b.autoApprove ==> a.autoApprove) && WorseReview(a.review, b.review)
    && (a.securityFail ==> b.securityFail) && (forall s :: s in a.severities ==> s in b.severities)
    && (b.bugbotOK ==> a.bugbotOK) && (b.securityOK ==> a.securityOK)
    && (b.degraded == [] ==> a.degraded == []) && (a.cloudPending ==> b.cloudPending)
    && StricterPolicy(a, b) && a.minScore <= b.minScore && a.riskScore <= b.riskScore
  }

  lemma BlockersStay(a: Review, b: Review)
    requires forall f :: f in a.findings ==> f in b.findings
    ensures HasBlocker(a) ==> HasBlocker(b)
    ensures a.findings != [] ==> b.findings != []
  {
    if HasBlocker(a) {
      var i :| 0 <= i < |a.findings| && IsBlocking(a.findings[i]);
      assert a.findings[i] in b.findings;
    }
    if a.findings != [] {
      assert a.findings[0] in b.findings;
    }
  }

  lemma SeveritiesStay(a: seq<string>, b: seq<string>, want: string, stricter: string)
    requires (forall s :: s in a ==> s in b) && Stricter(want, stricter)
    ensures SeverityVeto(a, want) ==> SeverityVeto(b, stricter)
  {
    if SeverityVeto(a, want) {
      var i :| 0 <= i < |a| && RankOf(a[i]) >= Rank(ToLower(want));
      assert a[i] in b;
      var j :| 0 <= j < |b| && b[j] == a[i];
      assert RankOf(b[j]) >= Rank(ToLower(stricter));
    }
  }

  lemma ConcernsStay(a: Review, b: Review)
    requires WorseReview(a, b)
    ensures Actionable(a) ==> Actionable(b)
    ensures ReviewVeto(a) ==> ReviewVeto(b)
  {
    BlockersStay(a, b);
  }

  lemma HardVetoStays(a: Evidence, b: Evidence)
    requires Worse(a, b) && !(b.policy.None? && b.policyHonesty != "")
    ensures HardVeto(a) ==> HardVeto(b)
  {
    ConcernsStay(a.review, b.review);
    SeveritiesStay(a.severities, b.severities, MinSeverity(a.policy), MinSeverity(b.policy));
  }

  lemma PolicyVetoStays(a: Evidence, b: Evidence)
    requires Worse(a, b) && !(b.policy.None? && b.policyHonesty != "") && a.policy.Some?
    ensures b.policy.Some? && (PolicyVeto(a.policy.value, a) ==> PolicyVeto(b.policy.value, b))
  {
    var p, q := a.policy.value, b.policy.value;
    if exists i :: 0 <= i < |p.require| && Unmet(p.require[i], a) {
      var i :| 0 <= i < |p.require| && Unmet(p.require[i], a);
      assert p.require[i] in q.require;
      var j :| 0 <= j < |q.require| && q.require[j] == p.require[i];
      assert Unmet(q.require[j], b);
    }
  }

  /** Adding findings, concerns, degraded reasons, a gate failure or policy
      requirements, raising the threshold or the risk, never turns a result that
      is no approval into one, calibration included. */
  lemma WorseEvidenceNeverApproves(a: Evidence, b: Evidence)
    requires Worse(a, b) && Decision(b) == Approve
    ensures Decision(a) == Approve
  {
    HardVetoStays(a, b);
    if a.policy.Some? {
      PolicyVetoStays(a, b);
    }
  }

  /** A policy's minimum severity blocks at least what the default "high" blocks
      exactly when it is one of "low", "medium" and "high": a policy can relax the
      veto, and a severity nobody knows turns it off. */
  lemma MinSeverityTightensExactly(want: string)
    ensures (forall ss :: SeverityVeto(ss, "high") ==> SeverityVeto(ss, want)) <==> 1 <= Rank(ToLower(want)) <= 3
  {
    LowerTwice("high");
    assert ToLower("high") == "high";
    TrimmedIsFixed("high");
    if forall ss :: SeverityVeto(ss, "high") ==> SeverityVeto(ss, want) {
      assert RankOf(["high"][0]) == 3;
      assert SeverityVeto(["high"], "high");
    }
    forall ss | 1 <= Rank(ToLower(want)) <= 3 && SeverityVeto(ss, "high") ensures SeverityVeto(ss, want) {
      SeveritiesStay(ss, ss, "high", want);
    }
  }

  // ----- A run's own evidence -----

  datatype RunInputs = RunInputs(
    bugbot: Status, security: Status, autoApprove: bool, watched: int, review: Review, gateFail: bool,
    severities: seq<string>, cloudPending: bool, policy: Option<Policy>, policyHonesty: string)

  const DEFAULT_VETO: int := 70

  /** A watched score that is not set stands for the default. */
  function VetoThreshold(autoApprove: bool, watched: int): int {
    if autoApprove && watched <= 0 then DEFAULT_VETO else watched
  }

  predicate Incomplete(s: Status) {
    s == Failed || s == Error
  }

  function DegradedOf(i: RunInputs): seq<string> {
    (if Incomplete(i.bugbot) then ["bugbot incomplete"] else [])
    + (if Incomplete(i.security) then ["security incomplete"] else [])
  }

  /** The run does not say which files were touched, so none count. */
  function RiskOf(i: RunInputs): RiskEvidence {
    RiskEvidence(i.review, i.gateFail, i.severities, [], DegradedOf(i))
  }

  function EvidenceOf(i: RunInputs): Evidence {
    Evidence(i.autoApprove, i.review, i.gateFail, i.severities, i.bugbot == Completed, i.security == Completed,
             DegradedOf(i), i.cloudPending, i.policy, i.policyHonesty, VetoThreshold(i.autoApprove, i.watched),
             Score(RiskOf(i)))
  }

  datatype ApprovalOutcome = NotReady | NoReviewerInput | Decided(event: Event)

  method RunApprovalAgent(i: RunInputs) returns (o: ApprovalOutcome)
    ensures o.NotReady? <==> !Terminal(i.bugbot) || !Terminal(i.security)
    ensures o.NoReviewerInput? <==> i.bugbot == Failed && i.security == Failed
    ensures o.Decided? ==> o.event == Decision(EvidenceOf(i))
  {
    if !Terminal(i.bugbot) || !Terminal(i.security) {
      return NotReady;
    }
    if i.bugbot == Failed && i.security == Failed {
      return NoReviewerInput;
    }
    var minScore := i.watched;
    if i.autoApprove && minScore <= 0 {
      minScore := DEFAULT_VETO;
    }
    var degraded: seq<string> := [];
    if i.bugbot == Failed || i.bugbot == Error {
      degraded := degraded + ["bugbot incomplete"];
    }
    if i.security == Failed || i.security == Error {
      degraded := degraded + ["security incomplete"];
    }
    assert degraded == DegradedOf(i);
    var risk, _ := ComputeRiskScore(RiskEvidence(i.review, i.gateFail, i.severities, [], degraded));
    var event, _ := EvaluateApproval(
      Evidence(i.autoApprove, i.review, i.gateFail, i.severities, i.bugbot == Completed, i.security == Completed,
               degraded, i.cloudPending, i.policy, i.policyHonesty, minScore, risk));
    return Decided(event);
  }

  /** The same run with more against it. */
  ghost predicate WorseRun(a: RunInputs, b: RunInputs) {
    && (b.bugbot == Completed ==> a.bugbot == Completed) && (b.security == Completed ==> a.security == Completed)
    && (Incomplete(a.bugbot) ==> Incomplete(b.bugbot)) && (Incomplete(a.security) ==> Incomplete(b.security))
    && (b.autoApprove ==> a.autoApprove) && WorseReview(a.review, b.review)
    && (a.gateFail ==> b.gateFail) && multiset(a.severities) <= multiset(b.severities)
    && (a.cloudPending ==> b.cloudPending)
    && StricterPolicy(EvidenceOf(a), EvidenceOf(b))
    && VetoThreshold(a.autoApprove, a.watched) <= VetoThreshold(b.autoApprove, b.watched)
  }

  lemma MembersStay(a: seq<string>, b: seq<string>)
    requires multiset(a) <= multiset(b)
    ensures forall s :: s in a ==> s in b
  {
    forall s | s in a ensures s in b {
      assert s in multiset(a);
      assert s in multiset(b);
    }
  }

  /** From the agents' results to the event, the risk score recomputed: a run with
      more against it is approved only if the one with less would have been. */
  lemma {:induction false} WorseRunNeverApproves(a: RunInputs, b: RunInputs)
    requires WorseRun(a, b) && Decision(EvidenceOf(b)) == Approve
    ensures Decision(EvidenceOf(a)) == Approve
  {
    MembersStay(a.severities, b.severities);
    BlockersStay(a.review, b.review);
    MoreEvidenceMoreRisk(RiskOf(a), RiskOf(b));
    WorseEvidenceNeverApproves(EvidenceOf(a), EvidenceOf(b));
  }

  /** Raising the watched score raises the threshold exactly when it does not
      leave the default for a positive score below it. */
  lemma RaisingWatchedScore(autoApprove: bool, low: int, high: int)
    requires low <= high
    ensures VetoThreshold(autoApprove, low) <= VetoThreshold(autoApprove, high) <==>
            !(autoApprove && low <= 0 && 0 < high < DEFAULT_VETO)
  {
  }

  /** There a higher watched score approves what an unset one refused: exactly the
      runs that the default alone vetoes, for a confidence with a reason behind it. */
  lemma WatchedScoreBelowDefault(i: RunInputs, high: int)
    requires i.autoApprove && i.watched <= 0 && 0 < high < DEFAULT_VETO
    requires Decision(EvidenceOf(i.(watched := high))) == Approve
    ensures Decision(EvidenceOf(i)) != Approve <==> Actionable(i.review) && i.review.confidence < DEFAULT_VETO
  {
    var e, f := EvidenceOf(i), EvidenceOf(i.(watched := high));
    assert e == f.(minScore := DEFAULT_VETO);
  }

  /** What is there when no review was recorded. */
  const NO_REVIEW: Review := Review("", "", [], 0, "", false, 0)

  /** The policy asks for a review. */
  predicate RequiresReview(p: Policy) {
    exists i :: 0 <= i < |p.require| && ToLower(TrimSpace(p.require[i])) in ["bugbot", "review", "ai"]
  }

  predicate RequiresSecurity(p: Policy) {
    exists i :: 0 <= i < |p.require| && ToLower(TrimSpace(p.require[i])) == "security"
  }

  /** The rest of the evidence has nothing against it. */
  predicate OtherwiseClear(i: RunInputs) {
    && i.autoApprove && !i.cloudPending && !i.gateFail
    && !SeverityVeto(i.severities, MinSeverity(i.policy))
    && (i.policy.None? ==> i.policyHonesty == "")
    && (i.policy.Some? ==>
          && (i.policy.value.maxRisk <= 0 || Score(RiskOf(i)) <= i.policy.value.maxRisk)
          && (RequiresSecurity(i.policy.value) ==> i.security == Completed))
  }

  lemma UnmetExactly(p: Policy, ev: Evidence)
    ensures (exists k :: 0 <= k < |p.require| && Unmet(p.require[k], ev)) <==>
              (RequiresReview(p) && !ev.bugbotOK) || (RequiresSecurity(p) && !ev.securityOK)
  {
    forall k | 0 <= k < |p.require| && Unmet(p.require[k], ev)
      ensures (RequiresReview(p) && !ev.bugbotOK) || (RequiresSecurity(p) && !ev.securityOK)
    {
    }
    if RequiresReview(p) && !ev.bugbotOK {
      var k :| 0 <= k < |p.require| && ToLower(TrimSpace(p.require[k])) in ["bugbot", "review", "ai"];
      assert Unmet(p.require[k], ev);
    }
    if RequiresSecurity(p) && !ev.securityOK {
      var k :| 0 <= k < |p.require| && ToLower(TrimSpace(p.require[k])) == "security";
      assert Unmet(p.require[k], ev);
    }
  }

  /** Without any review a run is approved exactly when the review was cancelled
      or skipped, not failed, no policy asks for one, security did not fail and
      nothing else objects: the confidence of zero is raised to the threshold. */
  lemma {:induction false} ApprovedWithoutReviewExactly(i: RunInputs)
    requires Terminal(i.bugbot) && i.bugbot != Completed && Terminal(i.security) && i.review == NO_REVIEW
    ensures Decision(EvidenceOf(i)) == Approve <==>
              && i.bugbot in {Cancelled, Skipped} && !Incomplete(i.security)
              && (i.policy.Some? ==> !RequiresReview(i.policy.value))
              && OtherwiseClear(i)
  {
    assert ToLower("") == "" && TrimSpace("") == "";
    assert !HasBlocker(NO_REVIEW) && !Actionable(NO_REVIEW) && !ReviewVeto(NO_REVIEW);
    if i.policy.Some? {
      UnmetExactly(i.policy.value, EvidenceOf(i));
    }
  }

  // ----- Each veto alone is enough -----

  /** A finding reported with one of the three blocking severities. */
  predicate Blocks(severity: string) {
    ToLower(TrimSpace(severity)) in {"blocker", "critical", "high"}
  }

  lemma BlockerAdded(r: Review, severity: string, other: Option<string>, findings: seq<BotFinding>)
    requires Blocks(severity) && BotFinding(Some(severity), other) in findings
    ensures HasBlocker(r.(findings := findings))
  {
    var i :| 0 <= i < |findings| && findings[i] == BotFinding(Some(severity), other);
    SeverityIsRead(findings[i], severity);
    assert IsBlocking(findings[i]);
  }

  lemma SeverityIsRead(f: BotFinding, severity: string)
    requires f.severity == Some(severity) && Blocks(severity)
    ensures SeverityOf(f) == ToLower(TrimSpace(severity))
  {
    assert TrimSpace(severity) != "" by {
      assert ToLower("") == "";
    }
  }

  /** Nothing that abstains stands in the way of a decision. */
  predicate Decides(ev: Evidence) {
    && ev.autoApprove && ev.degraded == [] && !ev.cloudPending
    && ToLower(TrimSpace(ev.review.status)) !in ["skipped", "error"]
  }

  /** Of an evidence that decides, each of these alone asks for changes, whatever
      the rest says: a blocking finding, a verdict of request_changes or
      needs_context, a status of findings, a failed security gate, a security
      finding of at least the minimum severity, and a confidence below the
      threshold with findings or a rationale behind it. */
  lemma {:induction false} EachVetoRejects(ev: Evidence, severity: string, other: Option<string>)
    requires Decides(ev)
    requires || (Blocks(severity) && BotFinding(Some(severity), other) in ev.review.findings)
             || ToLower(ev.review.verdict) in {"request_changes", "needs_context"}
             || ToLower(ev.review.status) == "findings"
             || ev.securityFail
             || (severity in ev.severities && 0 < Rank(ToLower(MinSeverity(ev.policy))) <= RankOf(severity))
             || (ev.review.confidence < ev.minScore && ev.minScore > 0
                 && (ev.review.findings != [] || TrimSpace(ev.review.rationale) != "" || ev.review.priorities > 0
                     || ev.review.fallback))
    ensures Decision(ev) == RequestChanges
  {
    if Blocks(severity) && BotFinding(Some(severity), other) in ev.review.findings {
      BlockerAdded(ev.review, severity, other, ev.review.findings);
      assert ev.review.(findings := ev.review.findings) == ev.review;
    } else if ToLower(ev.review.verdict) == "needs_context" {
      FoldIsTrimmed(ev.review.verdict, "needs_context");
    } else if ToLower(ev.review.status) == "findings" {
      FoldIsTrimmed(ev.review.status, "findings");
    } else if severity in ev.severities && 0 < Rank(ToLower(MinSeverity(ev.policy))) <= RankOf(severity) {
      var i :| 0 <= i < |ev.severities| && ev.severities[i] == severity;
      assert SeverityVeto(ev.severities, MinSeverity(ev.policy));
    }
  }

  lemma FoldIsTrimmed(s: string, word: string)
    requires ToLower(s) == word && word in {"needs_context", "findings", "request_changes"}
    ensures TrimSpace(s) == s && EqualFold(s, word)
  {
    assert s[0] == word[0] || s[0] + ' ' == word[0];
    assert forall i :: 0 <= i < |s| ==> LowerChar(s[i]) == word[i];
    TrimmedIsFixed(s);
    LowerTwice(s);
  }

  /** Where none of it is there and no policy objects, the run is approved. */
  lemma {:induction false} NothingAgainstIsApproved(ev: Evidence)
    requires Decides(ev) && ev.review.findings == [] && !ev.securityFail
    requires ToLower(TrimSpace(ev.review.verdict)) !in {"request_changes", "needs_context"}
    requires ToLower(TrimSpace(ev.review.status)) != "findings"
    requires forall i :: 0 <= i < |ev.severities| ==> RankOf(ev.severities[i]) < Rank(ToLower(MinSeverity(ev.policy)))
    requires || ev.review.confidence >= ev.minScore
             || (ev.review.priorities == 0 && TrimSpace(ev.review.rationale) == "" && !ev.review.fallback)
    requires if ev.policy.None? then ev.policyHonesty == ""
             else ev.policy.value.require == [] && (ev.policy.value.maxRisk <= 0 || ev.riskScore <= ev.policy.value.maxRisk)
    ensures Decision(ev) == Approve
  {
    if ToLower(ev.review.verdict) == "request_changes" {
      FoldIsTrimmed(ev.review.verdict, "request_changes");
    }
    LowerWords();
  }

  /** So an approval turns into a request for changes as soon as one is added. */
  lemma {:induction false} EachVetoTurnsApproval(ev: Evidence, severity: string, other: Option<string>)
    requires Decision(ev) == Approve && Blocks(severity)
    ensures Decision(ev.(review := ev.review.(findings := ev.review.findings + [BotFinding(Some(severity), other)]))) == RequestChanges
    ensures Decision(ev.(review := ev.review.(verdict := "request_changes"))) == RequestChanges
    ensures Decision(ev.(review := ev.review.(verdict := "needs_context"))) == RequestChanges
    ensures Decision(ev.(review := ev.review.(status := "findings"))) == RequestChanges
    ensures Decision(ev.(securityFail := true)) == RequestChanges
    ensures 0 < Rank(ToLower(MinSeverity(ev.policy))) <= RankOf(severity) ==>
              Decision(ev.(severities := ev.severities + [severity])) == RequestChanges
  {
    LowerWords();
    EachVetoRejects(ev.(review := ev.review.(findings := ev.review.findings + [BotFinding(Some(severity), other)])), severity, other);
    EachVetoRejects(ev.(review := ev.review.(verdict := "request_changes")), severity, other);
    EachVetoRejects(ev.(review := ev.review.(verdict := "needs_context")), severity, other);
    EachVetoRejects(ev.(review := ev.review.(status := "findings")), severity, other);
    EachVetoRejects(ev.(securityFail := true), severity, other);
    if 0 < Rank(ToLower(MinSeverity(ev.policy))) <= RankOf(severity) {
      EachVetoRejects(ev.(severities := ev.severities + [severity]), severity, other);
    }
  }

  lemma LowerWords()
    ensures ToLower("request_changes") == "request_changes" && ToLower("needs_context") == "needs_context"
    ensures ToLower("findings") == "findings" && TrimSpace("findings") == "findings"
  {
    TrimmedIsFixed("findings");
  }

  /** The abstentions come first: with any of them the answer is a comment, never
      a request for changes, whatever else the evidence holds. */
  lemma {:induction false} EachAbstentionComments(ev: Evidence, reason: string)
    ensures reason in ev.degraded ==> Decision(ev) == Comment
    ensures Decision(ev.(autoApprove := false)) == Comment
    ensures Decision(ev.(cloudPending := true)) == Comment
    ensures ToLower(TrimSpace(ev.review.status)) in {"skipped", "error"} ==> Decision(ev) == Comment
  {
  }

  /** A policy turns an approval into the event it names for a failure as soon as
      it asks for a review or a security run that did not complete, or the risk
      exceeds its maximum; one that cannot be read turns it into a comment. */
  lemma {:induction false} PolicyTurnsApproval(ev: Evidence, p: Policy)
    requires Decision(ev) == Approve && ev.policy == Some(p)
    ensures RequiresReview(p) ==>
              Decision(ev.(bugbotOK := false)) == if EqualFold(p.onFail, "REQUEST_CHANGES") then RequestChanges else Comment
    ensures RequiresSecurity(p) ==>
              Decision(ev.(securityOK := false)) == if EqualFold(p.onFail, "REQUEST_CHANGES") then RequestChanges else Comment
    ensures p.maxRisk > 0 ==>
              Decision(ev.(riskScore := p.maxRisk + 1)) == if EqualFold(p.onFail, "REQUEST_CHANGES") then RequestChanges else Comment
    ensures p.minSeverity == "" ==> forall why :: why != "" ==> Decision(ev.(policy := None, policyHonesty := why)) == Comment
  {
    UnmetExactly(p, ev.(bugbotOK := false));
    UnmetExactly(p, ev.(securityOK := false));
  }
}
