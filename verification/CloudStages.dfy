// The cloud autofix pipeline: bounded attempts of patch, gate, capture, optional
// verify, re-gate and land on a working tree (agent_cloud.go). Foreign steps (git,
// the patch agent, the verify run, GitHub) may fail, and the agent and the verify
// run may leave any tree behind; what they do is an input of the attempt.
module CloudStages {
  import opened Text
  import opened CloudDiff
  import opened PatchGate
  import opened FileTrees
  import opened GitDiffs
  import opened TextLines
  import opened DiffLaws
  import opened DiffRender
  import opened Paths

  datatype Mode = Suggest | Branch

  /** The authorization of a job and the settings of its run. */
  datatype Settings = Settings(mode: Mode, allowlist: seq<string>, runTests: bool, caps: Caps, attempt: int)

  datatype LandEnv = LandEnv(
    abortFirst: bool, pushAllowed: bool, checkoutOk: bool, branchOk: bool, applies: bool,
    commitOk: bool, changed: bool, abortLate: bool, pushOk: bool, prOk: bool)

  datatype AttemptEnv = AttemptEnv(
    abort: bool, authorized: bool,
    base: Tree, checkoutOk: bool, branchOk: bool, skippedAI: bool, mock: bool, note: string,
    materializeOk: bool, hostFallback: bool,
    tracked: Option<seq<string>>,   // what git lists before the agent runs
    agentTree: Tree, liveTree: Tree,   // what the agent leaves in its sandbox and outside
    agentOk: bool, syncOk: bool,
    diffOk: bool, captureOk: bool,
    posted: bool,                   // the proposal of suggest mode
    docker: bool, verifiedTree: Tree, verifyOk: bool, rediffOk: bool, recaptureOk: bool,
    land: LandEnv)

  datatype Status = Failed | GateDenied | Completed | SuggestPosted | VerifyFailed | Cancelled | Refused

  /** One call of the gate: the tree and the index it was made on, what git showed
      of them, the list it applied, and the verdict. */
  datatype Judged = Judged(tree: Tree, index: Tree, listing: Option<seq<Entry>>, allow: seq<string>, accepted: bool)

  datatype AttemptOut = AttemptOut(status: Status, branch: nat, pushed: Option<Tree>, gates: seq<Judged>)

  // ----- Settings -----

  method FindingPaths(files: seq<string>) returns (out: seq<string>)
    ensures forall p :: p in out <==> p in AllowSet(files)
    ensures forall i, j :: 0 <= i < j < |out| ==> out[i] != out[j]
    ensures forall i :: 0 <= i < |out| ==> out[i] != "" && Trimmed(out[i])
  {
    out := [];
    for k := 0 to |files|
      invariant forall p :: p in out <==> p in AllowSet(files[..k])
      invariant forall i, j :: 0 <= i < j < |out| ==> out[i] != out[j]
      invariant forall i :: 0 <= i < |out| ==> out[i] != "" && Trimmed(out[i])
    {
      TakeSnoc(files, k);
      AllowSetSnoc(files[..k], files[k]);
      TrimSpaceLaws(files[k]);
      var p := TrimSpace(files[k]);
      if p != "" && p !in out {
        out := out + [p];
      }
    }
    TakeAll(files);
  }

  function MaxIterations(configured: int): (n: int)
    ensures 1 <= n <= 3
  {
    if configured < 1 then 1 else if configured > 3 then 3 else configured
  }

  /** The number in the name of the branch an iteration works on. */
  function BranchNumber(attempt: int, iteration: int): int {
    var a := if attempt < 1 then 1 else attempt;
    if iteration > 1 then a * 10 + iteration else a
  }

  /** The iterations of one attempt use different branches, and two attempts of a
      job share one exactly when the first iteration of the one is numbered like
      a retry of the other: attempt 12 and the second iteration of attempt 1. */
  lemma BranchesCollideExactly(a: int, i: int, b: int, j: int)
    requires a >= 1 && b >= 1 && 1 <= i <= 3 && 1 <= j <= 3
    ensures BranchNumber(a, i) == BranchNumber(b, j) <==>
            || (a == b && i == j)
            || (i == 1 && j > 1 && a == 10 * b + j)
            || (j == 1 && i > 1 && b == 10 * a + i)
  {
  }

  // ----- The working tree -----

  const NOTE: string := ".opa-review-autofix.md"

  predicate Smoke(e: AttemptEnv) {
    e.skippedAI || e.mock
  }

  /** What the patch stage leaves behind when it goes well: a note in a smoke run,
      what the agent left on a live tree, or its sandbox synced back over the live
      tree, which the agent's box can write to as well. */
  ghost function PatchedTree(e: AttemptEnv): Tree {
    if Smoke(e) then e.base[NOTE := Written(e.base, NOTE, Regular(e.note, 420))]
    else if !e.materializeOk then e.agentTree
    else SyncOf(e.agentTree, e.liveTree, e.tracked)
  }

  predicate PatchOk(e: AttemptEnv) {
    || Smoke(e)
    || (e.agentOk && if e.materializeOk then e.tracked.Some? && e.syncOk else e.hostFallback)
  }

  /** A captured patch takes the base to the tree it was captured from. */
  datatype Patch = Patch(base: Tree, target: Tree)

  predicate IsEmpty(p: Patch) {
    ChangedPaths(p.base, p.target) == {}
  }

  /** A checkout: the commit it was made from, git's index and the files. */
  class Worktree {
    const head: Tree
    var index: Tree
    const root: Directory

    constructor (base: Tree)
      ensures fresh(root) && root.files == base && head == Plain(base) && index == head
    {
      head, index := Plain(base), Plain(base);
      root := new Directory(base);
    }
  }

  method ListPaths(t: Tree) returns (walk: seq<string>)
    ensures forall rel :: rel in walk <==> rel in t
    ensures forall i, j :: 0 <= i < j < |walk| ==> walk[i] != walk[j]
  {
    walk := [];
    var todo := t.Keys;
    while todo != {}
      invariant todo <= t.Keys && forall rel :: rel in walk <==> rel in t && rel !in todo
      invariant forall i, j :: 0 <= i < j < |walk| ==> walk[i] != walk[j]
      decreases |todo|
    {
      var rel :| rel in todo;
      walk := walk + [rel];
      todo := todo - {rel};
    }
  }

  /** cloud.patch: the agent works on a copy without .git, or on the live tree. */
  method CloudPatch(wt: Worktree, e: AttemptEnv) returns (ok: bool)
    requires wt.root.files == e.base
    modifies wt.root
    ensures ok <==> PatchOk(e)
    ensures ok ==> wt.root.files == PatchedTree(e)
  {
    if e.skippedAI || e.mock {
      wt.root.files := wt.root.files[NOTE := Written(wt.root.files, NOTE, Regular(e.note, 420))];
      return true;
    }
    if !e.materializeOk {
      if !e.hostFallback {
        return false;
      }
      wt.root.files := e.agentTree;
      return e.agentOk;
    }
    if e.tracked.None? {
      return false;
    }
    var sandbox := new Directory(wt.index);
    sandbox.files, wt.root.files := e.agentTree, e.liveTree;
    if !e.agentOk || !e.syncOk {
      return false;
    }
    var walk := ListPaths(sandbox.files);
    SyncSandboxTreeToPrimary(sandbox, wt.root, e.tracked, walk);
    return true;
  }

  ghost predicate JudgedRight(j: Judged, head: Tree, caps: Caps) {
    && (j.listing.Some? ==> Shows(j.listing.value, head, j.index, j.tree))
    && (j.accepted <==> j.listing.Some? && Accepts(Changes(ListingText(j.listing.value)), AllowSet(j.allow), caps))
  }

  /** gitUnifiedDiff, parseCloudDiffChanges and gateCloudDiff on the tree as it is
      now; a diff that cannot be had is an empty one. */
  method Gate(wt: Worktree, readable: bool, allow: seq<string>, caps: Caps) returns (j: Judged)
    requires caps.maxFiles > 0 && caps.maxLines > 0
    ensures JudgedRight(j, wt.head, caps) && (j.listing.Some? <==> readable)
    ensures j.tree == Plain(wt.root.files) && j.index == wt.index && j.allow == allow
  {
    var tree := Plain(wt.root.files);
    if !readable {
      return Judged(tree, wt.index, None, allow, false);
    }
    var listing := GitUnifiedDiff(wt.head, wt.index, tree);
    var changes := ParseCloudDiffChanges(ListingText(listing));
    var verdict := GateCloudDiff(changes, allow, caps, caps);
    j := Judged(tree, wt.index, Some(listing), allow, verdict.Accepted?);
  }

  /** captureValidatedPatch: stage everything and take the diff to the commit. */
  method CaptureValidatedPatch(wt: Worktree) returns (patch: Patch)
    modifies wt
    ensures wt.index == Plain(wt.root.files) && patch == Patch(wt.head, wt.index)
  {
    wt.index := Plain(wt.root.files);
    patch := Patch(wt.head, wt.index);
  }

  // ----- What an attempt does, seen from outside -----

  function FirstAllow(e: AttemptEnv, s: Settings): seq<string> {
    if Smoke(e) then [] else s.allowlist
  }

  predicate Patched(e: AttemptEnv) {
    (e.checkoutOk || e.mock) && e.branchOk && PatchOk(e) && e.diffOk
  }

  predicate Gated(e: AttemptEnv, s: Settings) {
    Patched(e) && (Smoke(e) || s.allowlist != [])
  }

  ghost predicate FirstJudged(e: AttemptEnv, s: Settings, j: Judged) {
    && j.listing.Some?
    && j.tree == Plain(PatchedTree(e)) && j.index == Plain(e.base) && j.allow == FirstAllow(e, s)
  }

  ghost predicate SecondJudged(e: AttemptEnv, s: Settings, j: Judged, first: Judged) {
    && (j.listing.Some? <==> e.rediffOk)
    && j.tree == Plain(e.verifiedTree) && j.index == first.tree && j.allow == s.allowlist
  }

  ghost predicate Changed(e: AttemptEnv, t: Tree) {
    ChangedPaths(Plain(e.base), t) != {}
  }

  /** Something was captured after the first gate. */
  ghost predicate Captured(e: AttemptEnv, gates: seq<Judged>) {
    gates != [] && gates[0].accepted && e.captureOk && Changed(e, gates[0].tree)
  }

  predicate Verified(e: AttemptEnv, s: Settings) {
    s.mode == Branch && s.runTests && e.docker && e.verifyOk
  }

  ghost predicate ReachesLand(e: AttemptEnv, s: Settings, gates: seq<Judged>) {
    && Captured(e, gates) && s.mode == Branch
    && (s.runTests ==> |gates| == 2 && gates[1].accepted && e.recaptureOk)
  }

  predicate Commits(l: LandEnv, mock: bool) {
    !l.abortFirst && l.pushAllowed && (l.checkoutOk || mock) && l.branchOk && l.applies
  }

  /** The last tree the gate looked at. */
  function LastTree(gates: seq<Judged>): Tree
    requires gates != []
  {
    gates[|gates| - 1].tree
  }

  ghost predicate Pushes(e: AttemptEnv, s: Settings, gates: seq<Judged>) {
    && ReachesLand(e, s, gates) && Changed(e, LastTree(gates))
    && Commits(e.land, e.mock) && e.land.commitOk && !e.mock && !e.land.abortLate && e.land.pushOk
  }

  ghost predicate Denied(e: AttemptEnv, gates: seq<Judged>) {
    Patched(e) && (gates == [] || !gates[|gates| - 1].accepted)
  }

  ghost predicate Completes(e: AttemptEnv, s: Settings, gates: seq<Judged>) {
    || (gates != [] && gates[0].accepted && e.captureOk && !Changed(e, gates[0].tree))
    || (&& ReachesLand(e, s, gates) && Changed(e, LastTree(gates)) && Commits(e.land, e.mock)
        && (if e.land.commitOk then e.mock || (!e.land.abortLate && e.land.pushOk && e.land.prOk) else !e.land.changed))
  }

  /** The gate's calls of one attempt: on the patched tree, and once more on what
      the verify run left. */
  ghost predicate GatedInOrder(e: AttemptEnv, s: Settings, gates: seq<Judged>) {
    && |gates| <= 2 && (forall j :: j in gates ==> JudgedRight(j, Plain(e.base), s.caps))
    && (gates != [] <==> Gated(e, s))
    && (gates != [] ==> FirstJudged(e, s, gates[0]))
    && (|gates| == 2 <==> Captured(e, gates) && Verified(e, s))
    && (|gates| == 2 ==> SecondJudged(e, s, gates[1], gates[0]))
  }

  /** Everything the caller learns from one attempt. */
  ghost predicate Attempted(e: AttemptEnv, s: Settings, iteration: int, r: AttemptOut) {
    && r.branch == BranchNumber(s.attempt, iteration)
    && GatedInOrder(e, s, r.gates)
    && (r.pushed.Some? <==> Pushes(e, s, r.gates))
    && (r.pushed.Some? ==> r.pushed.value == LastTree(r.gates))
    && (r.status.GateDenied? <==> Denied(e, r.gates))
    && (r.status.SuggestPosted? <==> Captured(e, r.gates) && s.mode == Suggest && e.posted)
    && (r.status.VerifyFailed? <==> Captured(e, r.gates) && s.mode == Branch && s.runTests && e.docker && !e.verifyOk)
    && (r.status.Completed? <==> Completes(e, s, r.gates))
    && !r.status.Refused?
  }

  // ----- The pipeline -----

  method LandValidatedPatch(patch: Patch, l: LandEnv, mock: bool) returns (status: Status, pushed: Option<Tree>)
    ensures pushed.Some? <==> !IsEmpty(patch) && Commits(l, mock) && l.commitOk && !mock && !l.abortLate && l.pushOk
    ensures pushed.Some? ==> pushed.value == patch.target
    ensures status.Completed? <==>
            && !IsEmpty(patch) && Commits(l, mock)
            && (if l.commitOk then mock || (!l.abortLate && l.pushOk && l.prOk) else !l.changed)
    ensures status in {Failed, Completed, Cancelled}
  {
    pushed := None;
    if l.abortFirst {
      return Cancelled, None;
    }
    if !l.pushAllowed {
      return Failed, None;
    }
    if !l.checkoutOk && !mock {
      return Failed, None;
    }
    if !l.branchOk {
      return Failed, None;
    }
    if IsEmpty(patch) || !l.applies {
      return Failed, None;
    }
    if !l.commitOk {
      return if l.changed then Failed else Completed, None;
    }
    if mock {
      return Completed, None;
    }
    if l.abortLate {
      return Cancelled, None;
    }
    if !l.pushOk {
      return Failed, None;
    }
    pushed := Some(patch.target);
    status := if l.prOk then Completed else Failed;
  }

  /** cloud.patch, the first gate and the capture: why the attempt stops, if it
      does, and otherwise the patch of the tree that was gated. */
  method PatchStage(wt: Worktree, e: AttemptEnv, s: Settings)
      returns (stop: Option<Status>, patch: Patch, gates: seq<Judged>)
    requires s.caps.maxFiles > 0 && s.caps.maxLines > 0
    requires wt.root.files == e.base && wt.head == Plain(e.base) && wt.index == wt.head
    modifies wt, wt.root
    ensures |gates| <= 1 && (gates != [] <==> Gated(e, s)) && (gates != [] ==> FirstJudged(e, s, gates[0]))
    ensures forall j :: j in gates ==> JudgedRight(j, Plain(e.base), s.caps)
    ensures stop.None? <==> Captured(e, gates)
    ensures stop.None? ==> patch == Patch(wt.head, gates[0].tree) && wt.index == gates[0].tree
    ensures stop == Some(GateDenied) <==> Denied(e, gates)
    ensures stop == Some(Completed) <==> gates != [] && gates[0].accepted && e.captureOk && !Changed(e, gates[0].tree)
    ensures stop.Some? ==> stop.value in {Failed, GateDenied, Completed}
  {
    patch, gates := Patch(wt.head, wt.head), [];
    if (!e.checkoutOk && !e.mock) || !e.branchOk {
      return Some(Failed), patch, gates;
    }
    var ok := CloudPatch(wt, e);
    if !ok || !e.diffOk {
      return Some(Failed), patch, gates;
    }
    var gateAllow := s.allowlist;
    if e.skippedAI || e.mock {
      gateAllow := [];
    } else if |gateAllow| == 0 {
      return Some(GateDenied), patch, gates;
    }
    var j := Gate(wt, true, gateAllow, s.caps);
    gates := [j];
    if !j.accepted {
      return Some(GateDenied), patch, gates;
    }
    if !e.captureOk {
      return Some(Failed), patch, gates;
    }
    patch := CaptureValidatedPatch(wt);
    stop := if IsEmpty(patch) then Some(Completed) else None;
  }

  /** cloud.verify, the second gate and the second capture. */
  method VerifyStage(wt: Worktree, e: AttemptEnv, s: Settings, captured: Patch)
      returns (stop: Option<Status>, patch: Patch, gates: seq<Judged>)
    requires s.caps.maxFiles > 0 && s.caps.maxLines > 0 && s.mode == Branch && wt.head == Plain(e.base)
    modifies wt, wt.root
    ensures forall j :: j in gates ==> JudgedRight(j, Plain(e.base), s.caps)
    ensures gates == [] || (|gates| == 1 && (gates[0].listing.Some? <==> e.rediffOk)
                            && gates[0].tree == Plain(e.verifiedTree) && gates[0].index == old(wt.index) && gates[0].allow == s.allowlist)
    ensures gates != [] <==> Verified(e, s)
    ensures stop.None? <==> !s.runTests || (gates != [] && gates[0].accepted && e.recaptureOk)
    ensures stop.None? ==> patch == if s.runTests then Patch(wt.head, gates[0].tree) else captured
    ensures stop == Some(VerifyFailed) <==> s.runTests && e.docker && !e.verifyOk
    ensures stop == Some(GateDenied) <==> gates != [] && !gates[0].accepted
    ensures stop.Some? ==> stop.value in {Failed, GateDenied, VerifyFailed}
  {
    patch, gates := captured, [];
    if !s.runTests {
      return None, patch, gates;
    }
    if !e.docker {
      return Some(Failed), patch, gates;
    }
    wt.root.files := e.verifiedTree;
    if !e.verifyOk {
      return Some(VerifyFailed), patch, gates;
    }
    var again := Gate(wt, e.rediffOk, s.allowlist, s.caps);
    gates := [again];
    if !again.accepted {
      return Some(GateDenied), patch, gates;
    }
    if !e.recaptureOk {
      return Some(Failed), patch, gates;
    }
    patch := CaptureValidatedPatch(wt);
    stop := None;
  }

  /** The gate's calls so far and those of the verify stage. */
  lemma {:induction false} GatesJoin(e: AttemptEnv, s: Settings, first: seq<Judged>, again: seq<Judged>)
    requires |first| == 1 && Gated(e, s) && FirstJudged(e, s, first[0]) && Captured(e, first)
    requires forall j :: j in first || j in again ==> JudgedRight(j, Plain(e.base), s.caps)
    requires |again| <= 1 && (again != [] <==> Verified(e, s)) && (again != [] ==> SecondJudged(e, s, again[0], first[0]))
    ensures GatedInOrder(e, s, first + again) && Captured(e, first + again)
    ensures again == [] ==> first + again == first
    ensures again != [] ==> LastTree(first + again) == again[0].tree && (first + again)[1] == again[0]
  {
    assert forall j :: j in first + again ==> j in first || j in again;
  }

  /** From the capture on: suggest, or verify and land. */
  method LandStage(wt: Worktree, e: AttemptEnv, s: Settings, captured: Patch, first: seq<Judged>)
      returns (status: Status, pushed: Option<Tree>, gates: seq<Judged>)
    requires s.caps.maxFiles > 0 && s.caps.maxLines > 0
    requires |first| == 1 && Gated(e, s) && FirstJudged(e, s, first[0]) && Captured(e, first)
    requires forall j :: j in first ==> JudgedRight(j, Plain(e.base), s.caps)
    requires wt.head == Plain(e.base) && wt.index == first[0].tree && captured == Patch(wt.head, first[0].tree)
    modifies wt, wt.root
    ensures GatedInOrder(e, s, gates) && Captured(e, gates)
    ensures pushed.Some? <==> Pushes(e, s, gates)
    ensures pushed.Some? ==> pushed.value == LastTree(gates)
    ensures status.GateDenied? <==> !gates[|gates| - 1].accepted
    ensures status.SuggestPosted? <==> s.mode == Suggest && e.posted
    ensures status.VerifyFailed? <==> s.mode == Branch && s.runTests && e.docker && !e.verifyOk
    ensures status.Completed? <==> Completes(e, s, gates)
    ensures !status.Refused?
  {
    gates := first;
    if s.mode == Suggest {
      GatesJoin(e, s, first, []);
      return if e.posted then SuggestPosted else Failed, None, gates;
    }
    var stop, validatedPatch, again := VerifyStage(wt, e, s, captured);
    GatesJoin(e, s, first, again);
    gates := first + again;
    if stop.Some? {
      return stop.value, None, gates;
    }
    status, pushed := LandValidatedPatch(validatedPatch, e.land, e.mock);
  }

  method RunOneCloudAttempt(e: AttemptEnv, s: Settings, iteration: int) returns (r: AttemptOut)
    requires s.caps.maxFiles > 0 && s.caps.maxLines > 0
    requires iteration >= 1
    ensures Attempted(e, s, iteration, r)
  {
    var branchAttempt := s.attempt;
    if branchAttempt < 1 {
      branchAttempt := 1;
    }
    var branch := branchAttempt;
    if iteration > 1 {
      branch := branchAttempt * 10 + iteration;
    }
    var wt := new Worktree(e.base);
    var stop, captured, gates := PatchStage(wt, e, s);
    if stop.Some? {
      return AttemptOut(stop.value, branch, None, gates);
    }
    var status, pushed, all := LandStage(wt, e, s, captured, gates);
    r := AttemptOut(status, branch, pushed, all);
  }

  predicate Retryable(st: Status) {
    !st.Completed? && !st.SuggestPosted? && !st.GateDenied?
  }

  /** The attempts of one run and how it ended: each but the last is retryable, and
      the run stops at an abort, a refusal, a final status or the last iteration. */
  ghost predicate Staged(envs: seq<AttemptEnv>, s: Settings, attempts: seq<AttemptOut>, status: Status) {
    var n := |attempts|;
    && n <= |envs|
    && (forall i :: 0 <= i < n ==> Attempted(envs[i], s, i + 1, attempts[i]) && !envs[i].abort && envs[i].authorized)
    && (forall i :: 0 <= i < n - 1 ==> Retryable(attempts[i].status))
    && (|| (n < |envs| && envs[n].abort && status == Cancelled && (n > 0 ==> Retryable(attempts[n - 1].status)))
        || (n < |envs| && !envs[n].authorized && status == Refused && (n > 0 ==> Retryable(attempts[n - 1].status)))
        || (n > 0 && status == attempts[n - 1].status && (n == |envs| || !Retryable(status))))
  }

  method RunCloudStages(envs: seq<AttemptEnv>, s: Settings) returns (attempts: seq<AttemptOut>, status: Status)
    requires 1 <= |envs| <= 3   // as many iterations as MaxIterations allows
    requires s.caps.maxFiles > 0 && s.caps.maxLines > 0
    ensures Staged(envs, s, attempts, status)
  {
    attempts := [];
    var i := 0;
    while true
      invariant i < |envs| && |attempts| == i
      invariant forall k :: 0 <= k < i ==>
        Attempted(envs[k], s, k + 1, attempts[k]) && !envs[k].abort && envs[k].authorized && Retryable(attempts[k].status)
      decreases |envs| - i
    {
      if envs[i].abort {
        return attempts, Cancelled;
      }
      if !envs[i].authorized {
        return attempts, Refused;
      }
      var r := RunOneCloudAttempt(envs[i], s, i + 1);
      attempts := attempts + [r];
      if r.status.Completed? || r.status.SuggestPosted? {
        return attempts, r.status;
      }
      if r.status.GateDenied? {
        return attempts, GateDenied;
      }
      if i + 1 < |envs| {
        i := i + 1;
        continue;
      }
      return attempts, r.status;
    }
  }

  // ----- What may land -----

  /** Whatever the agent and the verify run did to the tree, what an attempt
      pushes is the tree the last gate accepted, never in suggest mode and never
      the base. Each changed path is shown by git, and where the gate reads that
      under the path, the path is not denied and on the list it applied. */
  lemma PushedIsGated(e: AttemptEnv, s: Settings, iteration: int, r: AttemptOut, p: string)
    requires Attempted(e, s, iteration, r) && r.pushed.Some?
    ensures s.mode == Branch && r.gates != [] && ChangedPaths(Plain(e.base), r.pushed.value) != {}
    ensures var last := r.gates[|r.gates| - 1];
            && last.accepted && last.listing.Some? && last.tree == r.pushed.value
            && Shows(last.listing.value, Plain(e.base), last.index, r.pushed.value)
            && (p in ChangedPaths(Plain(e.base), r.pushed.value) ==>
                  exists i :: 0 <= i < |last.listing.value| && PathOf(last.listing.value[i]) == p
                              && (!last.listing.value[i].Quoted? && SeenRight(last.listing.value[i]) ==>
                                    Allowed(p, AllowSet(last.allow))))
  {
    var last := r.gates[|r.gates| - 1];
    assert JudgedRight(last, Plain(e.base), s.caps);
    if p in ChangedPaths(Plain(e.base), r.pushed.value) {
      var i := GatedPath(last.listing.value, Plain(e.base), last.index, last.tree, AllowSet(last.allow), s.caps, p);
    }
  }

  /** When the gate reads every entry under its own path, the pushed tree differs
      from the base in at most MaxFiles paths, none denied, all on the list, and
      nothing in .github or .opa is touched. */
  lemma {:induction false} PushedIsWithinLimits(e: AttemptEnv, s: Settings, iteration: int, r: AttemptOut)
    requires Attempted(e, s, iteration, r) && r.pushed.Some?
    requires r.gates != [] && r.gates[|r.gates| - 1].listing.Some? && AllSeen(r.gates[|r.gates| - 1].listing.value)
    ensures var changed := ChangedPaths(Plain(e.base), r.pushed.value);
            && 0 < |changed| <= s.caps.maxFiles
            && (forall p :: p in changed ==> Allowed(p, AllowSet(r.gates[|r.gates| - 1].allow)))
            && forall p :: p in changed ==> !InConfigDir(p)
  {
    var last := r.gates[|r.gates| - 1];
    PushedIsGated(e, s, iteration, r, "");
    assert JudgedRight(last, Plain(e.base), s.caps);
    GatedTree(last.listing.value, Plain(e.base), last.index, last.tree, AllowSet(last.allow), s.caps);
    forall p | p in ChangedPaths(Plain(e.base), r.pushed.value) ensures !InConfigDir(p) {
      AllowedIsOutside(p);
    }
  }

  lemma AllowedIsOutside(p: string)
    ensures DeniedPath(p).None? ==> !InConfigDir(p)
  {
    if InConfigDir(p) {
      ConfigIsDenied(p);
    }
  }

  /** git's index and the tree at the gate before a push. */
  ghost function LastIndex(e: AttemptEnv, s: Settings): Tree {
    Plain(if s.runTests then PatchedTree(e) else e.base)
  }

  ghost function FinalTree(e: AttemptEnv, s: Settings): Tree {
    Plain(if s.runTests then e.verifiedTree else PatchedTree(e))
  }

  lemma {:induction false} LastGateIs(e: AttemptEnv, s: Settings, iteration: int, r: AttemptOut)
    requires Attempted(e, s, iteration, r) && r.pushed.Some?
    ensures r.gates != [] && r.pushed.value == FinalTree(e, s)
    ensures var last := r.gates[|r.gates| - 1];
            && last.index == LastIndex(e, s) && last.tree == FinalTree(e, s)
            && last.allow == if s.runTests then s.allowlist else FirstAllow(e, s)
  {
  }

  lemma {:induction false} PushedIsSeen(e: AttemptEnv, s: Settings, iteration: int, r: AttemptOut, index: Tree, tree: Tree)
    requires Attempted(e, s, iteration, r) && r.gates != [] && r.gates[|r.gates| - 1].listing.Some?
    requires r.gates[|r.gates| - 1].index == index && r.gates[|r.gates| - 1].tree == tree
    requires Unmistaken(Plain(e.base), index, tree)
    ensures AllSeen(r.gates[|r.gates| - 1].listing.value)
  {
    var last := r.gates[|r.gates| - 1];
    assert last in r.gates;
    UnmistakenIsSeen(last.listing.value, Plain(e.base), index, tree);
  }

  /** When an agent made the patch and the trees cannot be mistaken, everything
      pushed is on the finding allowlist, not denied, and within the file cap. */
  lemma {:induction false} AgentStaysOnAllowlist(e: AttemptEnv, s: Settings, iteration: int, r: AttemptOut)
    requires Attempted(e, s, iteration, r) && r.pushed.Some? && !Smoke(e)
    requires Unmistaken(Plain(e.base), LastIndex(e, s), FinalTree(e, s))
    requires forall i :: 0 <= i < |s.allowlist| ==> TrimSpace(s.allowlist[i]) != ""
    ensures var changed := ChangedPaths(Plain(e.base), r.pushed.value);
            changed <= AllowSet(s.allowlist) && 0 < |changed| <= s.caps.maxFiles
            && forall p :: p in changed ==> DeniedPath(p).None? && !InConfigDir(p)
  {
    LastGateIs(e, s, iteration, r);
    PushedIsGated(e, s, iteration, r, "");
    PushedIsSeen(e, s, iteration, r, LastIndex(e, s), r.pushed.value);
    PushedIsWithinLimits(e, s, iteration, r);
    assert TrimSpace(s.allowlist[0]) in AllowSet(s.allowlist);
  }

  // ----- Runs without an agent -----

  /** A run without an agent and without tests ignores the allowlist: whatever
      can happen under one list can happen under any other. */
  lemma SmokeIgnoresAllowlist(e: AttemptEnv, s: Settings, other: seq<string>, iteration: int, r: AttemptOut)
    requires Smoke(e) && !s.runTests
    ensures Attempted(e, s, iteration, r) <==> Attempted(e, s.(allowlist := other), iteration, r)
  {
  }

  /** The gate before a push applied the finding allowlist exactly when an agent
      made the patch or tests ran, or there was no list. */
  lemma ListIsAppliedExactly(e: AttemptEnv, s: Settings, iteration: int, r: AttemptOut)
    requires Attempted(e, s, iteration, r) && r.pushed.Some?
    ensures r.gates != []
    ensures r.gates[|r.gates| - 1].allow == s.allowlist <==> !Smoke(e) || s.runTests || s.allowlist == []
  {
  }

  /** What a run without an agent and without tests pushes is its note, so it stays
      on the allowlist exactly when the note is on it. */
  lemma {:induction false} SmokePushesTheNote(e: AttemptEnv, s: Settings, iteration: int, r: AttemptOut)
    requires Attempted(e, s, iteration, r) && r.pushed.Some? && Smoke(e) && !s.runTests
    ensures ChangedPaths(Plain(e.base), r.pushed.value) == {NOTE}
    ensures ChangedPaths(Plain(e.base), r.pushed.value) <= AllowSet(s.allowlist) <==> NOTE in AllowSet(s.allowlist)
  {
    var changed := ChangedPaths(Plain(e.base), r.pushed.value);
    assert r.pushed.value == Plain(PatchedTree(e)) && changed != {};
    assert !IsGitPath(NOTE);
    forall p | p in changed ensures p == NOTE {
      assert ChangedPath(Plain(e.base), r.pushed.value, p);
    }
    assert NOTE in changed by {
      var p :| p in changed;
    }
  }

  /** A run without an agent on an empty repository, and a land that gets as far as
      the push and the pull request are said to. */
  function NoteEnv(note: string, pushOk: bool, prOk: bool): AttemptEnv {
    AttemptEnv(false, true, map[], true, true, true, false, note, true, false, None, map[], map[], true, true, true, true,
               true, true, map[], true, true, true,
               LandEnv(false, true, true, true, true, true, true, false, pushOk, prOk))
  }

  function NoteTree(note: string): Tree {
    map[NOTE := Regular(note, 420)]
  }

  function NoteOut(note: string, pushOk: bool, prOk: bool, branch: nat): AttemptOut {
    AttemptOut(if pushOk && prOk then Completed else Failed, branch, if pushOk then Some(NoteTree(note)) else None,
               [Judged(NoteTree(note), map[], Some([NoteEntry(note)]), [], true)])
  }

  function NoteLines(note: string): nat {
    Min(|Lines(note)|, 50)
  }

  function NoteEntry(note: string): Entry {
    Untracked(NOTE, "100644", NoteLines(note))
  }

  lemma {:induction false} NoteIsShown(note: string)
    ensures Shows([NoteEntry(note)], map[], map[], NoteTree(note))
  {
    NoteIsAllowed(NOTE);
    NewNoteIsShown(NOTE, note);
  }

  lemma {:induction false} NewNoteIsShown(path: string, note: string)
    requires PlainPath(path) && ' ' !in path
    ensures Shows([Untracked(path, "100644", NoteLines(note))], map[], map[], map[path := Regular(note, 420)])
  {
    NewFileIsShown(path, Regular(note, 420), NoteLines(note));
  }

  lemma LockfileLengths(name: string)
    requires |name| > 17
    ensures name !in LOCKFILES
  {
  }

  lemma {:induction false} DashedIsAllowed(p: string)
    requires |p| > 17 && Trimmed(p) && ToLower(p) == p && '/' !in p && p[1] == 'o' && p[4] == '-'
    ensures DeniedPath(p).None?
  {
    TrimmedIsFixed(p);
    NoSlashIn(p);
    LockfileLengths(p);
    assert "./"[1] == '/' && ".github/"[1] == 'g' && ".opa/"[4] == '/';
  }

  lemma {:induction false} NoteLetters(p: string)
    requires p == NOTE
    ensures |p| > 17 && p[0] == '.' && p[1] == 'o' && p[4] == '-'
    ensures forall i :: 0 <= i < |p| ==> p[i] in {'.', '-'} || 'a' <= p[i] <= 'z'
  {
  }

  lemma {:induction false} NoteIsAllowed(p: string)
    requires p == NOTE
    ensures DeniedPath(p).None? && PlainPath(p) && IsWord(p) && TrimSpace(p) == p && ' ' !in p
  {
    NoteLetters(p);
    assert ToLower(p) == p;
    DashedIsAllowed(p);
    TrimmedIsFixed(p);
  }

  lemma {:induction false} OctalSnoc(s: string, c: char, t: string)
    requires t == s + [c]
    ensures OctalValue(t) == 8 * OctalValue(s) + Digit(c)
  {
    assert t[..|s|] == s;
  }

  lemma {:induction false} OctalPlainMode()
    ensures OctalValue("100644") == 33188
  {
    OctalSnoc("", '1', "1");
    OctalSnoc("1", '0', "10");
    OctalSnoc("10", '0', "100");
    OctalSnoc("100", '6', "1006");
    OctalSnoc("1006", '4', "10064");
    OctalSnoc("10064", '4', "100644");
  }

  lemma {:induction false} PlainModeIsNoExec()
    ensures !IsExecMode("100644")
  {
    OctalPlainMode();
    ExecModeExactly("100644");
  }

  lemma {:induction false} NoteIsAccepted(note: string, caps: Caps)
    requires caps.maxFiles > 0 && NoteLines(note) <= caps.maxLines
    ensures Accepts(Changes(ListingText([NoteEntry(note)])), {}, caps)
  {
    NoteIsAllowed(NOTE);
    NewFileIsAccepted(NOTE, NoteLines(note), caps);
  }

  lemma {:induction false} NewFileIsAccepted(path: string, lines: nat, caps: Caps)
    requires DeniedPath(path).None? && PlainPath(path) && IsWord(path) && TrimSpace(path) == path
    requires caps.maxFiles > 0 && lines <= caps.maxLines && lines <= 50
    ensures Accepts(Changes(ListingText([Untracked(path, "100644", lines)])), {}, caps)
  {
    var e, c := Untracked(path, "100644", lines), Change(path, lines, 0, "100644", false);
    UntrackedRead(path, lines);
    ListingRead([e]);
    ChangesSnoc([], EntryBlock(e));
    assert BlocksIn([e]) == [] + [EntryBlock(e)] && Changes(ListingText([e])) == [c];
    PlainModeIsNoExec();
    OneChangeAccepted(c, caps);
  }

  lemma {:induction false} OneChangeAccepted(c: Change, caps: Caps)
    requires Landable(c, {}) && Weight(c) <= caps.maxLines && caps.maxFiles > 0
    ensures Accepts([c], {}, caps)
  {
    TouchedSnoc([], c);
    LandableSnoc([], {}, c);
    LinesSnoc([], c);
    assert [] + [c] == [c] && TouchedPaths([]) == {};
  }

  lemma {:induction false} NoteTrees(note: string, pushOk: bool, prOk: bool)
    ensures var e := NoteEnv(note, pushOk, prOk);
            && Plain(e.base) == map[] && Plain(PatchedTree(e)) == NoteTree(note)
            && ChangedPaths(map[], NoteTree(note)) != {}
  {
    var e := NoteEnv(note, pushOk, prOk);
    assert PatchedTree(e) == NoteTree(note);
    assert NOTE[1] == 'o' && ".git"[1] == 'g' && ".git/"[1] == 'g';
    assert !IsGitPath(NOTE);
    assert NOTE in ChangedPaths(map[], NoteTree(note));
  }

  lemma {:induction false} NoteGates(s: Settings, note: string, pushOk: bool, prOk: bool, j: Judged)
    requires !s.runTests && s.caps.maxFiles > 0 && NoteLines(note) <= s.caps.maxLines
    requires j == Judged(NoteTree(note), map[], Some([NoteEntry(note)]), [], true)
    ensures GatedInOrder(NoteEnv(note, pushOk, prOk), s, [j]) && Captured(NoteEnv(note, pushOk, prOk), [j])
  {
    NoteTrees(note, pushOk, prOk);
    NoteIsShown(note);
    NoteIsAccepted(note, s.caps);
    assert AllowSet([]) == {};
    assert JudgedRight(j, map[], s.caps);
  }

  lemma {:induction false} NoteAttempt(s: Settings, iteration: int, note: string, pushOk: bool, prOk: bool, branch: nat)
    requires s.mode == Branch && !s.runTests && s.caps.maxFiles > 0 && NoteLines(note) <= s.caps.maxLines
    requires branch == BranchNumber(s.attempt, iteration)
    ensures Attempted(NoteEnv(note, pushOk, prOk), s, iteration, NoteOut(note, pushOk, prOk, branch))
  {
    NoteTrees(note, pushOk, prOk);
    NoteGates(s, note, pushOk, prOk, NoteOut(note, pushOk, prOk, branch).gates[0]);
  }

  /** A run without an agent and without tests does push off the allowlist. */
  lemma {:induction false} SmokePushesOffList(s: Settings, note: string, branch: nat)
    requires s.mode == Branch && !s.runTests && s.caps.maxFiles > 0 && NoteLines(note) <= s.caps.maxLines
    requires NOTE !in AllowSet(s.allowlist) && branch == BranchNumber(s.attempt, 1)
    ensures var e, r := NoteEnv(note, true, true), NoteOut(note, true, true, branch);
            && e.skippedAI && !e.mock && Attempted(e, s, 1, r) && r.pushed.Some?
            && !(ChangedPaths(Plain(e.base), r.pushed.value) <= AllowSet(s.allowlist))
  {
    NoteAttempt(s, 1, note, true, true, branch);
    SmokePushesTheNote(NoteEnv(note, true, true), s, 1, NoteOut(note, true, true, branch));
  }

  // ----- How often a run pushes -----

  ghost predicate AllPass(e: AttemptEnv, gates: seq<Judged>) {
    forall i :: 0 <= i < |gates| ==> gates[i].accepted && ChangedPaths(Plain(e.base), gates[i].tree) != {}
  }

  lemma {:induction false} LandsExactly(e: AttemptEnv, s: Settings, gates: seq<Judged>)
    requires GatedInOrder(e, s, gates)
    ensures ReachesLand(e, s, gates) && Changed(e, LastTree(gates)) <==>
              && gates != [] && e.captureOk && s.mode == Branch
              && (s.runTests ==> e.docker && e.verifyOk && e.recaptureOk)
              && |gates| == (if s.runTests then 2 else 1) && AllPass(e, gates)
  {
    if AllPass(e, gates) && gates != [] {
      assert gates[0].accepted && Changed(e, gates[0].tree);
    }
    if ReachesLand(e, s, gates) && Changed(e, LastTree(gates)) && s.runTests {
      assert AllPass(e, gates);
    }
  }

  /** What a push takes, all of it, and that nothing more is needed: a checkout and
      a branch; a patch, the agent's or a note's; every gate passed with something
      changed, two of them where tests run; branch mode; a verify run in docker;
      and landing without an abort, a missing permission or a failing command. */
  lemma {:induction false} PushedExactly(e: AttemptEnv, s: Settings, iteration: int, r: AttemptOut)
    requires Attempted(e, s, iteration, r)
    ensures r.pushed.Some? <==>
              && !e.mock && e.checkoutOk && e.branchOk && s.mode == Branch
              && (e.skippedAI || (e.agentOk && if e.materializeOk then e.tracked.Some? && e.syncOk else e.hostFallback))
              && (e.skippedAI || s.allowlist != []) && e.diffOk && e.captureOk
              && (s.runTests ==> e.docker && e.verifyOk && e.recaptureOk)
              && |r.gates| == (if s.runTests then 2 else 1) && AllPass(e, r.gates)
              && !e.land.abortFirst && !e.land.abortLate && e.land.pushAllowed && e.land.checkoutOk && e.land.branchOk
              && e.land.applies && e.land.commitOk && e.land.pushOk
  {
    LandsExactly(e, s, r.gates);
  }

  /** An attempt completes exactly when it pushed and opened its pull request, when
      a mock one committed, or when there was nothing to land: an accepted patch
      that changes nothing, or a commit git refuses with nothing changed. */
  lemma {:induction false} CompletedExactly(e: AttemptEnv, s: Settings, iteration: int, r: AttemptOut)
    requires Attempted(e, s, iteration, r)
    ensures r.status.Completed? <==>
              || (r.pushed.Some? && e.land.prOk)
              || (r.gates != [] && r.gates[0].accepted && e.captureOk && ChangedPaths(Plain(e.base), r.gates[0].tree) == {})
              || (&& ReachesLand(e, s, r.gates) && ChangedPaths(Plain(e.base), LastTree(r.gates)) != {} && Commits(e.land, e.mock)
                  && if e.mock then e.land.commitOk || !e.land.changed else !e.land.commitOk && !e.land.changed)
  {
  }

  /** A proposal is posted exactly in suggest mode, for an accepted patch that
      changes something; a verify run fails an attempt in branch mode only. */
  lemma {:induction false} SuggestedExactly(e: AttemptEnv, s: Settings, iteration: int, r: AttemptOut)
    requires Attempted(e, s, iteration, r)
    ensures r.status.SuggestPosted? <==>
              && s.mode == Suggest && e.posted && e.captureOk
              && |r.gates| == 1 && r.gates[0].accepted && ChangedPaths(Plain(e.base), r.gates[0].tree) != {}
    ensures r.status.VerifyFailed? <==>
              && s.mode == Branch && s.runTests && e.docker && !e.verifyOk && e.captureOk
              && |r.gates| == 1 && r.gates[0].accepted && ChangedPaths(Plain(e.base), r.gates[0].tree) != {}
  {
  }

  /** It is denied exactly when a gate refused the last diff it was shown, or an
      agent's patch came without an allowlist; and then nothing was pushed. */
  lemma {:induction false} AttemptDeniedExactly(e: AttemptEnv, s: Settings, iteration: int, r: AttemptOut)
    requires Attempted(e, s, iteration, r)
    ensures r.status.GateDenied? <==>
              || (r.gates != [] && !r.gates[|r.gates| - 1].accepted)
              || (&& s.allowlist == [] && !e.skippedAI && !e.mock && e.checkoutOk && e.branchOk && e.agentOk && e.diffOk
                  && if e.materializeOk then e.tracked.Some? && e.syncOk else e.hostFallback)
    ensures r.status.GateDenied? ==> r.pushed.None?
  {
  }

  /** What the first gate is shown of a path outside .git: on the live tree what the
      agent left there; else the sandbox's file, and none where git tracks one that
      the sandbox lacks; without an agent the base's, but for the note. */
  lemma {:induction false} FirstGateIsShown(e: AttemptEnv, s: Settings, iteration: int, r: AttemptOut, p: string)
    requires Attempted(e, s, iteration, r) && r.gates != [] && Split(p, '/')[0] != ".git"
    ensures var tree, agent := r.gates[0].tree, !e.skippedAI && !e.mock;
            && (agent && !e.materializeOk ==> (p in tree <==> p in e.agentTree) && (p in tree ==> tree[p] == e.agentTree[p]))
            && (agent && e.materializeOk && p in e.agentTree && e.agentTree[p].Regular? ==>
                  p in tree && tree[p].Regular? && tree[p].content == e.agentTree[p].content)
            && (agent && e.materializeOk && p !in e.agentTree && e.tracked.Some? && p in e.tracked.value ==> p !in tree)
            && (!agent && p != NOTE ==> (p in tree <==> p in e.base) && (p in tree ==> tree[p] == e.base[p]))
  {
    GitPathExactly(p);
    if !Smoke(e) && e.materializeOk {
      GitIsSpared(e.agentTree, e.liveTree, e.tracked, p);
    }
  }

  /** An attempt that pushed is tried again exactly when its pull request could
      not be created. */
  lemma PushIsRetriedExactly(e: AttemptEnv, s: Settings, iteration: int, r: AttemptOut)
    requires Attempted(e, s, iteration, r) && r.pushed.Some?
    ensures Retryable(r.status) <==> !e.land.prOk
    ensures r.status.Completed? <==> e.land.prOk
  {
  }

  /** So after a push a run goes on exactly when the pull request failed, an
      iteration is left, and that one is neither aborted nor refused. */
  lemma {:induction false} GoesOnAfterPushExactly(envs: seq<AttemptEnv>, s: Settings, attempts: seq<AttemptOut>, status: Status, i: nat)
    requires Staged(envs, s, attempts, status) && i < |attempts| && attempts[i].pushed.Some?
    ensures i + 1 < |attempts| <==> !envs[i].land.prOk && i + 1 < |envs| && !envs[i + 1].abort && envs[i + 1].authorized
  {
    PushIsRetriedExactly(envs[i], s, i + 1, attempts[i]);
  }

  ghost predicate PushesOnce(attempts: seq<AttemptOut>) {
    forall i, j :: 0 <= i < j < |attempts| && attempts[i].pushed.Some? ==> attempts[j].pushed.None?
  }

  /** A run pushes at most once exactly when no attempt that pushed and failed to
      open its pull request is followed by one that gets as far as the push. */
  lemma {:induction false} PushesOnceExactly(envs: seq<AttemptEnv>, s: Settings, attempts: seq<AttemptOut>, status: Status)
    requires Staged(envs, s, attempts, status)
    ensures PushesOnce(attempts) <==>
              forall i, j :: 0 <= i < j < |attempts| && attempts[i].pushed.Some? && !envs[i].land.prOk ==>
                !Pushes(envs[j], s, attempts[j].gates)
    ensures (forall i :: 0 <= i < |attempts| && attempts[i].pushed.Some? ==> envs[i].land.prOk) ==> PushesOnce(attempts)
  {
    forall i | 0 <= i < |attempts| - 1 && attempts[i].pushed.Some? ensures !envs[i].land.prOk {
      GoesOnAfterPushExactly(envs, s, attempts, status, i);
    }
    forall j | 0 <= j < |attempts| ensures attempts[j].pushed.Some? <==> Pushes(envs[j], s, attempts[j].gates) {
      assert Attempted(envs[j], s, j + 1, attempts[j]);
    }
  }

  /** Both happen: a second push after a failed pull request, and a failed pull
      request whose retry does not get as far. */
  lemma {:induction false} SecondPush(s: Settings, note: string, first: nat, second: nat, again: bool)
    requires s.mode == Branch && !s.runTests && s.caps.maxFiles > 0 && NoteLines(note) <= s.caps.maxLines
    requires first == BranchNumber(s.attempt, 1) && second == BranchNumber(s.attempt, 2)
    ensures var envs := [NoteEnv(note, true, false), NoteEnv(note, again, true)];
            var attempts := [NoteOut(note, true, false, first), NoteOut(note, again, true, second)];
            && Staged(envs, s, attempts, if again then Completed else Failed)
            && attempts[0].pushed.Some? && (attempts[1].pushed.Some? <==> again) && (PushesOnce(attempts) <==> !again)
            && attempts[0].branch != attempts[1].branch
  {
    NoteAttempt(s, 1, note, true, false, first);
    NoteAttempt(s, 2, note, again, true, second);
    var attempts := [NoteOut(note, true, false, first), NoteOut(note, again, true, second)];
    assert attempts[0].pushed.Some? && (attempts[1].pushed.Some? <==> again);
  }

  /** Only completion is at most once; the attempts work on different branches. */
  lemma OnlyTheLastCompletes(envs: seq<AttemptEnv>, s: Settings, attempts: seq<AttemptOut>, status: Status)
    requires Staged(envs, s, attempts, status) && |envs| <= 3
    ensures forall i :: 0 <= i < |attempts| && attempts[i].status.Completed? ==> i == |attempts| - 1
    ensures forall i, j :: 0 <= i < j < |attempts| ==> attempts[i].branch != attempts[j].branch
  {
  }
}
