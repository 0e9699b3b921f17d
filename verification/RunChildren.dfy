// Planning, listing and selecting the children of a run (agents_run.go,
// run_graph.go).
module RunChildren {
  import opened AgentKinds
  import opened RunStatus

  /** A planned child's id is a hash of its run, the commit and its kind; ids
      given out elsewhere are arbitrary. */
  datatype JobId = Planned(run: nat, sha: string, kind: Kind) | Assigned(n: nat)

  datatype Parent = NoParent | ChildOf(run: nat)

  datatype Job = Job(id: JobId, parent: Parent, kind: Kind, status: Status)

  // ----- Planning -----

  datatype Policy = Policy(
    checks: seq<string>, checkupEnabled: bool, cloudEnabled: bool, autofixMode: string,
    sandboxDocker: bool, skipBugbot: bool)

  predicate WantsORAReview(checks: seq<string>) {
    "ora:review" in checks || "ai_review" in checks
  }

  predicate WantsLegacySecurityScan(checks: seq<string>) {
    "secrets" in checks || "sast" in checks || "iac" in checks || "sbom" in checks || "container" in checks
  }

  predicate CloudOn(p: Policy) {
    p.cloudEnabled && p.autofixMode != "" && p.autofixMode != "off"
  }

  /** The kinds a PR run gets. */
  predicate Wanted(p: Policy, k: Kind) {
    match k
    case Prepare => true
    case Security => WantsLegacySecurityScan(p.checks) || WantsORAReview(p.checks)
    case Bugbot => WantsORAReview(p.checks)
    case Checkup => p.checkupEnabled
    case Approval => WantsORAReview(p.checks)
    case Cloud => true
    case _ => false
  }

  predicate SkippedAtPlanning(p: Policy, k: Kind) {
    || (k == Security && !WantsLegacySecurityScan(p.checks))
    || (k == Bugbot && p.skipBugbot)
    || (k == Checkup && !p.sandboxDocker)
    || (k == Cloud && !CloudOn(p))
  }

  ghost predicate OneChildPerKind(children: seq<Job>) {
    forall i, j :: 0 <= i < j < |children| ==> children[i].kind != children[j].kind
  }

  ghost predicate HasKind(children: seq<Job>, k: Kind) {
    exists i :: 0 <= i < |children| && children[i].kind == k
  }

  function AppendIf(kinds: seq<Kind>, wanted: bool, k: Kind): seq<Kind> {
    if wanted then kinds + [k] else kinds
  }

  function ReviewKinds(p: Policy): seq<Kind> {
    AppendIf(AppendIf([Prepare], Wanted(p, Security), Security), Wanted(p, Bugbot), Bugbot)
  }

  function PlannedKinds(p: Policy): seq<Kind> {
    AppendIf(AppendIf(AppendIf(ReviewKinds(p), Wanted(p, Checkup), Checkup), Wanted(p, Approval), Approval), true, Cloud)
  }

  ghost predicate Distinct<T>(s: seq<T>) {
    forall i, j :: 0 <= i < j < |s| ==> s[i] != s[j]
  }

  lemma AppendIfLaws(kinds: seq<Kind>, wanted: bool, k: Kind)
    requires Distinct(kinds) && k !in kinds
    ensures Distinct(AppendIf(kinds, wanted, k))
    ensures forall x :: x in AppendIf(kinds, wanted, k) <==> x in kinds || (wanted && x == k)
  {
  }

  lemma ReviewKindsLaws(p: Policy)
    ensures Distinct(ReviewKinds(p))
    ensures forall k :: k in ReviewKinds(p) <==> k in {Prepare, Security, Bugbot} && Wanted(p, k)
  {
    AppendIfLaws([Prepare], Wanted(p, Security), Security);
    AppendIfLaws(AppendIf([Prepare], Wanted(p, Security), Security), Wanted(p, Bugbot), Bugbot);
  }

  lemma PlannedKindsLaws(p: Policy)
    ensures Distinct(PlannedKinds(p))
    ensures forall k :: k in PlannedKinds(p) <==> Wanted(p, k)
  {
    ReviewKindsLaws(p);
    var k3 := AppendIf(ReviewKinds(p), Wanted(p, Checkup), Checkup);
    AppendIfLaws(ReviewKinds(p), Wanted(p, Checkup), Checkup);
    AppendIfLaws(k3, Wanted(p, Approval), Approval);
    AppendIfLaws(AppendIf(k3, Wanted(p, Approval), Approval), true, Cloud);
  }

  function PlannedChild(run: nat, sha: string, p: Policy, k: Kind): Job {
    Job(Planned(run, sha, k), ChildOf(run), k, if SkippedAtPlanning(p, k) then Skipped else Queued)
  }

  function Plan(run: nat, sha: string, p: Policy): seq<Job> {
    PlanOf(run, sha, p, PlannedKinds(p))
  }

  function PlanOf(run: nat, sha: string, p: Policy, kinds: seq<Kind>): seq<Job> {
    seq(|kinds|, i requires 0 <= i < |kinds| => PlannedChild(run, sha, p, kinds[i]))
  }

  method PlanChild(run: nat, sha: string, p: Policy, k: Kind) returns (child: Job)
    ensures child == PlannedChild(run, sha, p, k)
  {
    child := Job(Planned(run, sha, k), ChildOf(run), k, Queued);
    if k == Security && !WantsLegacySecurityScan(p.checks) {
      child := child.(status := Skipped);
    }
    if k == Bugbot && p.skipBugbot {
      child := child.(status := Skipped);
    }
    if k == Checkup && !p.sandboxDocker {
      child := child.(status := Skipped);
    }
    if k == Cloud && !CloudOn(p) {
      child := child.(status := Skipped);
    }
  }

  method PlanRunChildren(run: nat, sha: string, p: Policy) returns (out: seq<Job>)
    ensures out == Plan(run, sha, p)
  {
    var kinds := [Prepare];
    if WantsLegacySecurityScan(p.checks) || WantsORAReview(p.checks) {
      kinds := kinds + [Security];
    }
    if WantsORAReview(p.checks) {
      kinds := kinds + [Bugbot];
    }
    if p.checkupEnabled {
      kinds := kinds + [Checkup];
    }
    if WantsORAReview(p.checks) {
      kinds := kinds + [Approval];
    }
    kinds := kinds + [Cloud];
    out := [];
    for i := 0 to |kinds|
      invariant |out| == i
      invariant forall j :: 0 <= j < i ==> out[j] == PlannedChild(run, sha, p, kinds[j])
    {
      var child := PlanChild(run, sha, p, kinds[i]);
      out := out + [child];
    }
  }

  /** A plan has exactly the wanted kinds, each of them once. */
  lemma PlanCoversPolicy(run: nat, sha: string, p: Policy)
    ensures OneChildPerKind(Plan(run, sha, p))
    ensures forall k :: HasKind(Plan(run, sha, p), k) <==> Wanted(p, k)
    ensures forall j :: j in Plan(run, sha, p) ==> j == PlannedChild(run, sha, p, j.kind)
  {
    var kinds := PlannedKinds(p);
    var plan := Plan(run, sha, p);
    PlannedKindsLaws(p);
    assert forall i :: 0 <= i < |plan| ==> plan[i].kind == kinds[i];
    forall k | k in kinds ensures HasKind(plan, k) {
      var i :| 0 <= i < |kinds| && kinds[i] == k;
      assert plan[i].kind == k;
    }
  }

  // ----- Selecting -----

  /** childByKind: the first child of that kind in the listing. */
  function FirstOfKind(children: seq<Job>, k: Kind): (r: seq<Job>)
    ensures r == [] <==> !HasKind(children, k)
    ensures r != [] ==> |r| == 1 && r[0] in children && r[0].kind == k
  {
    if children == [] then []
    else if children[0].kind == k then
      assert HasKind(children, k);
      [children[0]]
    else
      var rest := FirstOfKind(children[1..], k);
      assert HasKind(children[1..], k) ==> HasKind(children, k) by {
        if HasKind(children[1..], k) {
          var i :| 0 <= i < |children[1..]| && children[1..][i].kind == k;
          assert children[i + 1].kind == k;
        }
      }
      assert HasKind(children, k) ==> HasKind(children[1..], k) by {
        if HasKind(children, k) {
          var i :| 0 <= i < |children| && children[i].kind == k;
          assert children[1..][i - 1].kind == k;
        }
      }
      rest
  }

  method ChildByKind(children: seq<Job>, k: Kind) returns (r: seq<Job>)
    ensures r == FirstOfKind(children, k)
  {
    for i := 0 to |children|
      invariant FirstOfKind(children, k) == FirstOfKind(children[i..], k)
    {
      if children[i].kind == k {
        return [children[i]];
      }
    }
    return [];
  }

  predicate DependencyMet(dep: Job, d: Kind) {
    Terminal(dep.status) && (d == Prepare ==> dep.status in {Completed, Skipped})
  }

  method AgentChildReady(children: seq<Job>, k: Kind) returns (ok: bool)
    ensures ok <==> forall d :: d in DependsOn(k) ==>
                      FirstOfKind(children, d) != [] && DependencyMet(FirstOfKind(children, d)[0], d)
  {
    var deps := DependsOn(k);
    if |deps| == 0 {
      return true;
    }
    for i := 0 to |deps|
      invariant forall j :: 0 <= j < i ==>
        FirstOfKind(children, deps[j]) != [] && DependencyMet(FirstOfKind(children, deps[j])[0], deps[j])
    {
      var dep := ChildByKind(children, deps[i]);
      if dep == [] || !Terminal(dep[0].status) {
        assert deps[i] in deps;
        return false;
      }
      if deps[i] == Prepare && dep[0].status != Completed && dep[0].status != Skipped {
        assert deps[i] in deps;
        return false;
      }
    }
    return true;
  }

  /** readyChildren looks dependencies up in a map in which the last child of a
      kind wins. */
  function LastOfKind(children: seq<Job>): map<Kind, Job> {
    if children == [] then map[]
    else LastOfKind(children[..|children| - 1])[children[|children| - 1].kind := children[|children| - 1]]
  }

  predicate Selectable(byKind: map<Kind, Job>, c: Job) {
    && Startable(c.status)
    && forall d :: d in DependsOn(c.kind) ==> d in byKind && DependencyMet(byKind[d], d)
  }

  function Selected(byKind: map<Kind, Job>, children: seq<Job>): seq<Job> {
    if children == [] then []
    else
      var last := children[|children| - 1];
      Selected(byKind, children[..|children| - 1]) + (if Selectable(byKind, last) then [last] else [])
  }

  method ReadyChildren(children: seq<Job>) returns (ready: seq<Job>)
    ensures ready == Selected(LastOfKind(children), children)
  {
    var byKind: map<Kind, Job> := map[];
    for i := 0 to |children|
      invariant byKind == LastOfKind(children[..i])
    {
      byKind := byKind[children[i].kind := children[i]];
      assert children[..i + 1][..i] == children[..i];
    }
    assert children[..|children|] == children;
    ready := [];
    for i := 0 to |children|
      invariant ready == Selected(byKind, children[..i])
    {
      var c := children[i];
      assert children[..i + 1][..i] == children[..i];
      if c.status != Queued && c.status != Waiting && c.status != Unset {
        continue;
      }
      var deps := DependsOn(c.kind);
      var ok := true;
      var j := 0;
      while j < |deps|
        invariant 0 <= j <= |deps|
        invariant forall l :: 0 <= l < j ==> deps[l] in byKind && DependencyMet(byKind[deps[l]], deps[l])
        invariant ok
      {
        var d := deps[j];
        if d !in byKind || !Terminal(byKind[d].status) {
          ok := false;
          assert d in deps;
          break;
        }
        if d == Prepare && byKind[d].status != Completed && byKind[d].status != Skipped {
          ok := false;
          assert d in deps;
          break;
        }
        j := j + 1;
      }
      if ok {
        ready := ready + [c];
      }
    }
  }

  lemma {:induction false} LastOfKindIs(children: seq<Job>, k: Kind)
    requires OneChildPerKind(children)
    ensures k in LastOfKind(children) <==> HasKind(children, k)
    ensures k in LastOfKind(children) ==> FirstOfKind(children, k) == [LastOfKind(children)[k]]
    decreases |children|
  {
    if children != [] {
      var n := |children| - 1;
      LastOfKindIs(children[..n], k);
      assert children == children[..n] + [children[n]];
      FirstOfKindConcat(children[..n], [children[n]], k);
      assert HasKind(children, k) <==> FirstOfKind(children, k) != [];
      if children[n].kind == k {
        assert !HasKind(children[..n], k);
      }
    }
  }

  lemma {:induction false} FirstOfKindConcat(a: seq<Job>, b: seq<Job>, k: Kind)
    ensures FirstOfKind(a + b, k) == if FirstOfKind(a, k) != [] then FirstOfKind(a, k) else FirstOfKind(b, k)
    decreases |a|
  {
    if a == [] {
      assert a + b == b;
    } else {
      assert (a + b)[1..] == a[1..] + b;
      FirstOfKindConcat(a[1..], b, k);
    }
  }

  lemma {:induction false} SelectedIn(byKind: map<Kind, Job>, children: seq<Job>, c: Job)
    ensures c in Selected(byKind, children) <==> c in children && Selectable(byKind, c)
    decreases |children|
  {
    if children != [] {
      var n := |children| - 1;
      SelectedIn(byKind, children[..n], c);
      assert children == children[..n] + [children[n]];
    }
  }

  /** With one child per kind the parent loop's selection and the worker's own
      readiness test agree on every startable child. */
  lemma SelectionAgreesWithReadiness(children: seq<Job>, c: Job)
    requires OneChildPerKind(children) && c in children
    ensures c in Selected(LastOfKind(children), children) <==>
            && Startable(c.status)
            && forall d :: d in DependsOn(c.kind) ==>
                 FirstOfKind(children, d) != [] && DependencyMet(FirstOfKind(children, d)[0], d)
  {
    SelectedIn(LastOfKind(children), children, c);
    forall d {
      LastOfKindIs(children, d);
    }
  }

  /** Without that, they can contradict each other: two prepares, the first one
      failed, and the loop would keep spawning a child that always declines. */
  lemma DuplicateKindsDisagree(run: nat)
    ensures var bad := Job(Assigned(0), ChildOf(run), Prepare, Failed);
            var good := Job(Assigned(1), ChildOf(run), Prepare, Completed);
            var c := Job(Assigned(2), ChildOf(run), Security, Queued);
            var children := [bad, good, c];
            && c in Selected(LastOfKind(children), children)
            && !DependencyMet(FirstOfKind(children, Prepare)[0], Prepare)
  {
    var bad := Job(Assigned(0), ChildOf(run), Prepare, Failed);
    var good := Job(Assigned(1), ChildOf(run), Prepare, Completed);
    var c := Job(Assigned(2), ChildOf(run), Security, Queued);
    var children := [bad, good, c];
    SelectedIn(LastOfKind(children), children, c);
    assert children[..2][..1] == [bad];
    assert children[..2] == [bad, good];
  }

  // ----- The store of live jobs -----

  /** Every live job sits under its own id, and a planned id tells the truth. */
  ghost predicate IdsFaithful(live: map<JobId, Job>) {
    forall id :: id in live ==>
      && live[id].id == id
      && (id.Planned? ==> live[id].parent == ChildOf(id.run) && live[id].kind == id.kind)
  }

  ghost predicate Scans(scan: seq<JobId>, keys: set<JobId>) {
    && (forall id :: id in scan <==> id in keys)
    && (forall i, j :: 0 <= i < j < |scan| ==> scan[i] != scan[j])
  }

  function Present(live: map<JobId, Job>, ids: seq<JobId>): seq<Job> {
    if ids == [] then []
    else
      var last := ids[|ids| - 1];
      Present(live, ids[..|ids| - 1]) + (if last in live then [live[last]] else [])
  }

  function Orphans(live: map<JobId, Job>, ids: seq<JobId>, scan: seq<JobId>, run: nat): seq<Job> {
    if scan == [] then []
    else
      var last := scan[|scan| - 1];
      Orphans(live, ids, scan[..|scan| - 1], run) +
      (if last in live && live[last].parent == ChildOf(run) && last !in ids then [live[last]] else [])
  }

  /** The recorded children that exist, then every other live child of the run
      in whatever order the live map is walked. */
  function Listed(live: map<JobId, Job>, ids: seq<JobId>, scan: seq<JobId>, run: nat): seq<Job> {
    Present(live, ids) + Orphans(live, ids, scan, run)
  }

  function Ids(jobs: seq<Job>): seq<JobId> {
    seq(|jobs|, i requires 0 <= i < |jobs| => jobs[i].id)
  }

  lemma {:induction false} ListedIn(live: map<JobId, Job>, ids: seq<JobId>, scan: seq<JobId>, run: nat, j: Job)
    requires IdsFaithful(live)
    ensures j in Present(live, ids) <==> j.id in ids && j.id in live && live[j.id] == j
    ensures j in Orphans(live, ids, scan, run) <==>
            j.id in scan && j.id in live && live[j.id] == j && j.parent == ChildOf(run) && j.id !in ids
  {
    PresentIn(live, ids, j);
    OrphansIn(live, ids, scan, run, j);
  }

  lemma {:induction false} PresentIn(live: map<JobId, Job>, ids: seq<JobId>, j: Job)
    requires IdsFaithful(live)
    ensures j in Present(live, ids) <==> j.id in ids && j.id in live && live[j.id] == j
    decreases |ids|
  {
    if ids != [] {
      PresentIn(live, ids[..|ids| - 1], j);
      assert ids == ids[..|ids| - 1] + [ids[|ids| - 1]];
    }
  }

  lemma {:induction false} OrphansIn(live: map<JobId, Job>, ids: seq<JobId>, scan: seq<JobId>, run: nat, j: Job)
    requires IdsFaithful(live)
    ensures j in Orphans(live, ids, scan, run) <==>
            j.id in scan && j.id in live && live[j.id] == j && j.parent == ChildOf(run) && j.id !in ids
    decreases |scan|
  {
    if scan != [] {
      OrphansIn(live, ids, scan[..|scan| - 1], run, j);
      assert scan == scan[..|scan| - 1] + [scan[|scan| - 1]];
    }
  }

  class JobStore {
    var live: map<JobId, Job>
    var childIds: map<nat, seq<JobId>>  // the parent row's child_ids

    ghost predicate Valid()
      reads this
    {
      IdsFaithful(live)
    }

    function Recorded(run: nat): seq<JobId>
      reads this
    {
      if run in childIds then childIds[run] else []
    }

    method LoadRecorded(ids: seq<JobId>) returns (out: seq<Job>, seen: set<JobId>)
      ensures out == Present(live, ids)
      ensures forall id :: id in seen <==> id in live && id in ids
    {
      out, seen := [], {};
      for i := 0 to |ids|
        invariant out == Present(live, ids[..i])
        invariant forall id :: id in seen <==> id in live && id in ids[..i]
      {
        assert ids[..i + 1] == ids[..i] + [ids[i]];
        if ids[i] in live {
          out := out + [live[ids[i]]];
          seen := seen + {ids[i]};
        }
      }
      assert ids[..|ids|] == ids;
    }

    method AppendOrphans(run: nat, ids: seq<JobId>, seen: set<JobId>, scan: seq<JobId>) returns (out: seq<Job>)
      requires forall id :: id in scan ==> id in live
      requires forall id :: id in seen <==> id in live && id in ids
      ensures out == Orphans(live, ids, scan, run)
    {
      out := [];
      for i := 0 to |scan|
        invariant out == Orphans(live, ids, scan[..i], run)
      {
        assert scan[..i + 1] == scan[..i] + [scan[i]];
        var j := live[scan[i]];
        if j.parent == ChildOf(run) && scan[i] !in seen {
          out := out + [j];
        }
      }
      assert scan[..|scan|] == scan;
    }

    method ListRunChildren(run: nat, scan: seq<JobId>) returns (out: seq<Job>)
      requires Scans(scan, live.Keys)
      ensures out == Listed(live, Recorded(run), scan, run)
    {
      var ids := if run in childIds then childIds[run] else [];
      var recorded, seen := LoadRecorded(ids);
      var orphans := AppendOrphans(run, ids, seen, scan);
      out := recorded + orphans;
    }

    method CollectKinds(existing: seq<Job>) returns (have: set<Kind>, ids: seq<JobId>)
      ensures have == KindsOf(existing) && ids == Ids(existing)
    {
      have, ids := {}, [];
      for i := 0 to |existing|
        invariant have == KindsOf(existing[..i])
        invariant ids == Ids(existing[..i])
      {
        assert existing[..i + 1] == existing[..i] + [existing[i]];
        KindsOfAppend(existing[..i], existing[i]);
        have := have + {existing[i].kind};
        ids := ids + [existing[i].id];
      }
      assert existing[..|existing|] == existing;
    }

    method StoreMissing(planned: seq<Job>, have0: set<Kind>) returns (ids: seq<JobId>)
      requires OneChildPerKind(planned)
      modifies `live
      ensures live == AddAll(old(live), Missing(planned, have0))
      ensures ids == Ids(Missing(planned, have0))
    {
      var have := have0;
      ids := [];
      ghost var before, done: seq<Job> := live, [];
      for i := 0 to |planned|
        invariant done == planned[..i] && have == have0 + KindsOf(done)
        invariant live == AddAll(before, Missing(done, have0)) && ids == Ids(Missing(done, have0))
      {
        var c := planned[i];
        NotYet(planned, i);
        KindsOfAppend(done, c);
        MissingAppend(done, c, have0, before);
        done := done + [c];
        if c.kind in have {
          continue;
        }
        if c.id !in live {
          live := live[c.id := c];
        }
        ids := ids + [c.id];
        have := have + {c.kind};
      }
      assert planned[..|planned|] == planned;
    }

    /** Fills in the kinds a PR run lacks and records every child it has; an issue
        run, planned when it is enqueued, is left alone. */
    method EnsureRunChildren(run: nat, issueRun: bool, sha: string, p: Policy, scan: seq<JobId>)
      requires Scans(scan, live.Keys)
      modifies this
      ensures live == if issueRun then old(live) else EnsuredLive(old(live), old(Recorded(run)), scan, run, sha, p)
      ensures Recorded(run) ==
              if issueRun then old(Recorded(run)) else EnsuredIds(old(live), old(Recorded(run)), scan, run, sha, p)
      ensures forall r :: r != run ==> Recorded(r) == old(Recorded(r))
    {
      var existing := ListRunChildren(run, scan);
      if issueRun {
        return;
      }
      var planned := PlanRunChildren(run, sha, p.(skipBugbot := false));
      PlanCoversPolicy(run, sha, p.(skipBugbot := false));
      var have, ids := CollectKinds(existing);
      var added := StoreMissing(planned, have);
      if |existing| == 0 || |added| > 0 {
        childIds := childIds[run := ids + added];
      }
    }
  }

  lemma NotYet(planned: seq<Job>, i: nat)
    requires OneChildPerKind(planned) && i < |planned|
    ensures planned[..i + 1] == planned[..i] + [planned[i]] && !HasKind(planned[..i], planned[i].kind)
  {
  }

  lemma MissingAppend(planned: seq<Job>, c: Job, have: set<Kind>, live: map<JobId, Job>)
    ensures var before, after := Missing(planned, have), Missing(planned + [c], have);
            && Ids(after) == Ids(before) + (if c.kind in have then [] else [c.id])
            && AddAll(live, after) ==
                 if c.kind in have || c.id in AddAll(live, before) then AddAll(live, before)
                 else AddAll(live, before)[c.id := c]
  {
    assert (planned + [c])[..|planned|] == planned;
    var before, after := Missing(planned, have), Missing(planned + [c], have);
    if c.kind in have {
      assert after == before;
    } else {
      assert after == before + [c];
      assert after[..|after| - 1] == before;
    }
  }

  lemma KindsOfAppend(children: seq<Job>, c: Job)
    ensures KindsOf(children + [c]) == KindsOf(children) + {c.kind}
  {
    var all := children + [c];
    forall k | k in KindsOf(children) + {c.kind} ensures k in KindsOf(all) {
      if k == c.kind {
        assert all[|children|].kind == k;
      } else {
        var i :| 0 <= i < |children| && children[i].kind == k;
        assert all[i].kind == k;
      }
    }
  }

  function KindsOf(children: seq<Job>): (r: set<Kind>)
    ensures forall k :: k in r <==> HasKind(children, k)
  {
    set i | 0 <= i < |children| :: children[i].kind
  }

  function Missing(planned: seq<Job>, have: set<Kind>): seq<Job> {
    if planned == [] then []
    else
      var last := planned[|planned| - 1];
      Missing(planned[..|planned| - 1], have) + (if last.kind in have then [] else [last])
  }

  function AddAll(live: map<JobId, Job>, jobs: seq<Job>): map<JobId, Job> {
    if jobs == [] then live
    else
      var rest := AddAll(live, jobs[..|jobs| - 1]);
      var last := jobs[|jobs| - 1];
      if last.id in rest then rest else rest[last.id := last]
  }

  function MissingFrom(live: map<JobId, Job>, ids: seq<JobId>, scan: seq<JobId>, run: nat, sha: string, p: Policy): seq<Job> {
    Missing(Plan(run, sha, p.(skipBugbot := false)), KindsOf(Listed(live, ids, scan, run)))
  }

  function EnsuredLive(live: map<JobId, Job>, ids: seq<JobId>, scan: seq<JobId>, run: nat, sha: string, p: Policy): map<JobId, Job> {
    AddAll(live, MissingFrom(live, ids, scan, run, sha, p))
  }

  function EnsuredIds(live: map<JobId, Job>, ids: seq<JobId>, scan: seq<JobId>, run: nat, sha: string, p: Policy): seq<JobId> {
    var before := Listed(live, ids, scan, run);
    var missing := MissingFrom(live, ids, scan, run, sha, p);
    if before == [] || missing != [] then Ids(before) + Ids(missing) else ids
  }

  lemma {:induction false} MissingIn(planned: seq<Job>, have: set<Kind>, j: Job)
    ensures j in Missing(planned, have) <==> j in planned && j.kind !in have
    decreases |planned|
  {
    if planned != [] {
      MissingIn(planned[..|planned| - 1], have, j);
      assert planned == planned[..|planned| - 1] + [planned[|planned| - 1]];
    }
  }

  lemma {:induction false} MissingOncePerKind(planned: seq<Job>, have: set<Kind>)
    requires OneChildPerKind(planned)
    ensures OneChildPerKind(Missing(planned, have))
    decreases |planned|
  {
    if planned != [] {
      var n := |planned| - 1;
      MissingOncePerKind(planned[..n], have);
      forall i | 0 <= i < |Missing(planned[..n], have)|
        ensures Missing(planned[..n], have)[i].kind != planned[n].kind
      {
        MissingIn(planned[..n], have, Missing(planned[..n], have)[i]);
      }
    }
  }

  lemma {:induction false} AddAllIs(live: map<JobId, Job>, jobs: seq<Job>)
    requires forall i :: 0 <= i < |jobs| ==> jobs[i].id !in live
    requires forall i, j :: 0 <= i < j < |jobs| ==> jobs[i].id != jobs[j].id
    ensures forall id :: id in live ==> id in AddAll(live, jobs) && AddAll(live, jobs)[id] == live[id]
    ensures forall i :: 0 <= i < |jobs| ==> jobs[i].id in AddAll(live, jobs) && AddAll(live, jobs)[jobs[i].id] == jobs[i]
    ensures forall id :: id in AddAll(live, jobs) && id !in live ==>
              exists i :: 0 <= i < |jobs| && jobs[i].id == id
    decreases |jobs|
  {
    if jobs != [] {
      AddAllIs(live, jobs[..|jobs| - 1]);
    }
  }

  /** Everything a run owns is listed, so a planned id that is taken belongs to
      a kind the run already has. */
  lemma MissingIdsAreFree(live: map<JobId, Job>, ids: seq<JobId>, scan: seq<JobId>, run: nat, sha: string, p: Policy)
    requires IdsFaithful(live) && Scans(scan, live.Keys)
    ensures var missing := MissingFrom(live, ids, scan, run, sha, p);
            && (forall i :: 0 <= i < |missing| ==> missing[i].id !in live)
            && (forall i :: 0 <= i < |missing| ==>
                  missing[i] == PlannedChild(run, sha, p.(skipBugbot := false), missing[i].kind))
            && (forall i, j :: 0 <= i < j < |missing| ==> missing[i].id != missing[j].id)
            && OneChildPerKind(missing)
  {
    var plan := Plan(run, sha, p.(skipBugbot := false));
    var before := Listed(live, ids, scan, run);
    var missing := MissingFrom(live, ids, scan, run, sha, p);
    PlanCoversPolicy(run, sha, p.(skipBugbot := false));
    MissingOncePerKind(plan, KindsOf(before));
    forall id | id in live && id.Planned? && id.run == run ensures id.kind in KindsOf(before) {
      ListedIn(live, ids, scan, run, live[id]);
      InHasKind(before, live[id]);
    }
    forall i | 0 <= i < |missing|
      ensures missing[i].id !in live
      ensures missing[i] == PlannedChild(run, sha, p.(skipBugbot := false), missing[i].kind)
    {
      MissingIn(plan, KindsOf(before), missing[i]);
    }
  }

  lemma {:induction false} PresentOf(live: map<JobId, Job>, jobs: seq<Job>)
    requires forall i :: 0 <= i < |jobs| ==> jobs[i].id in live && live[jobs[i].id] == jobs[i]
    ensures Present(live, Ids(jobs)) == jobs
    decreases |jobs|
  {
    if jobs != [] {
      var n := |jobs| - 1;
      PresentOf(live, jobs[..n]);
      assert Ids(jobs)[..n] == Ids(jobs[..n]);
    }
  }

  lemma {:induction false} NoOrphans(live: map<JobId, Job>, ids: seq<JobId>, scan: seq<JobId>, run: nat)
    requires forall id :: id in live && live[id].parent == ChildOf(run) ==> id in ids
    ensures Orphans(live, ids, scan, run) == []
    decreases |scan|
  {
    if scan != [] {
      NoOrphans(live, ids, scan[..|scan| - 1], run);
    }
  }

  /** A listing that holds the same jobs, each of them once. */
  ghost predicate SameChildren(a: seq<Job>, b: seq<Job>) {
    && (forall j :: j in a <==> j in b)
    && Distinct(a) && Distinct(b)
  }

  lemma {:induction false} OrphansDistinct(live: map<JobId, Job>, ids: seq<JobId>, scan: seq<JobId>, run: nat)
    requires IdsFaithful(live) && Distinct(scan)
    ensures Distinct(Orphans(live, ids, scan, run))
    decreases |scan|
  {
    if scan != [] {
      var n := |scan| - 1;
      OrphansDistinct(live, ids, scan[..n], run);
      if scan[n] in live {
        OrphansIn(live, ids, scan[..n], run, live[scan[n]]);
      }
    }
  }

  /** Walking the live map in another order lists the same children. */
  lemma ListingOrderIrrelevant(live: map<JobId, Job>, ids: seq<JobId>, scan: seq<JobId>, next: seq<JobId>, run: nat)
    requires IdsFaithful(live) && Scans(scan, live.Keys) && Scans(next, live.Keys)
    requires OneChildPerKind(Listed(live, ids, scan, run))
    ensures SameChildren(Listed(live, ids, scan, run), Listed(live, ids, next, run))
    ensures OneChildPerKind(Listed(live, ids, next, run))
  {
    var a, b := Listed(live, ids, scan, run), Listed(live, ids, next, run);
    forall j ensures j in a <==> j in b {
      if j in a || j in b {
        ListedIn(live, ids, scan, run, j);
        ListedIn(live, ids, next, run, j);
      }
    }
    var n := |Present(live, ids)|;
    OrphansDistinct(live, ids, next, run);
    forall i, k | 0 <= i < k < |b| ensures b[i] != b[k] {
      if k < n {
        assert b[i] == a[i] && b[k] == a[k];
      } else if i < n {
        PresentIn(live, ids, b[i]);
        OrphansIn(live, ids, next, run, b[k]);
      } else {
        assert b[i] == Orphans(live, ids, next, run)[i - n];
        assert b[k] == Orphans(live, ids, next, run)[k - n];
      }
    }
    forall i, k | 0 <= i < k < |b| ensures b[i].kind != b[k].kind {
      assert b[i] in a && b[k] in a;
      var x :| 0 <= x < |a| && a[x] == b[i];
      var y :| 0 <= y < |a| && a[y] == b[k];
      assert x != y;
    }
  }

  /** ensureRunChildren on a run that has one child per kind: it keeps every
      existing child as it is, adds exactly the wanted kinds that were missing,
      still has one child per kind, and doing it again changes nothing. */
  lemma EnsureCompletesOnce(live: map<JobId, Job>, ids: seq<JobId>, scan: seq<JobId>, next: seq<JobId>,
                            run: nat, sha: string, p: Policy)
    requires IdsFaithful(live) && Scans(scan, live.Keys)
    requires OneChildPerKind(Listed(live, ids, scan, run))
    requires Scans(next, EnsuredLive(live, ids, scan, run, sha, p).Keys)
    ensures var live' := EnsuredLive(live, ids, scan, run, sha, p);
            var ids' := EnsuredIds(live, ids, scan, run, sha, p);
            var before, after := Listed(live, ids, scan, run), Listed(live', ids', next, run);
            && IdsFaithful(live')
            && (forall id :: id in live ==> id in live' && live'[id] == live[id])
            && OneChildPerKind(after)
            && (forall j :: j in before ==> j in after)
            && (forall j :: j in after && j !in before ==>
                  j == PlannedChild(run, sha, p.(skipBugbot := false), j.kind) && !HasKind(before, j.kind))
            && (forall k :: HasKind(after, k) <==> HasKind(before, k) || Wanted(p, k))
            && EnsuredLive(live', ids', next, run, sha, p) == live'
            && EnsuredIds(live', ids', next, run, sha, p) == ids'
  {
    var q := p.(skipBugbot := false);
    var plan := Plan(run, sha, q);
    var before := Listed(live, ids, scan, run);
    var missing := MissingFrom(live, ids, scan, run, sha, p);
    var live' := EnsuredLive(live, ids, scan, run, sha, p);
    var ids' := EnsuredIds(live, ids, scan, run, sha, p);
    var after := Listed(live', ids', next, run);
    MissingIdsAreFree(live, ids, scan, run, sha, p);
    AddAllIs(live, missing);
    EnsuredListing(live, ids, scan, next, run, sha, p);
    forall j ensures j in missing <==> j in plan && !HasKind(before, j.kind) {
      MissingIn(plan, KindsOf(before), j);
    }
    PlanCoversPolicy(run, sha, q);
    KindsAfterEnsure(plan, before, missing, after, p);
    NothingMissing(plan, after);
  }

  lemma NothingMissing(plan: seq<Job>, children: seq<Job>)
    requires forall j :: j in plan ==> HasKind(children, j.kind)
    ensures Missing(plan, KindsOf(children)) == []
  {
    var none := Missing(plan, KindsOf(children));
    if none != [] {
      MissingIn(plan, KindsOf(children), none[0]);
    }
  }

  lemma KindsAfterEnsure(plan: seq<Job>, before: seq<Job>, missing: seq<Job>, after: seq<Job>, p: Policy)
    requires forall k :: HasKind(plan, k) <==> Wanted(p, k)
    requires forall j :: j in missing <==> j in plan && !HasKind(before, j.kind)
    requires forall j :: j in after <==> j in before || j in missing
    ensures forall k :: HasKind(after, k) <==> HasKind(before, k) || Wanted(p, k)
    ensures forall j :: j in plan ==> HasKind(after, j.kind)
  {
    forall j | j in plan ensures HasKind(plan, j.kind) {
      InHasKind(plan, j);
    }
    forall j | j in after ensures HasKind(before, j.kind) || Wanted(p, j.kind) {
      if j in before {
        InHasKind(before, j);
      } else {
        InHasKind(plan, j);
      }
    }
    forall j | j in before ensures HasKind(after, j.kind) {
      InHasKind(after, j);
    }
    forall j | j in plan && !HasKind(before, j.kind) ensures HasKind(after, j.kind) {
      InHasKind(after, j);
    }
  }

  lemma InHasKind(children: seq<Job>, j: Job)
    requires j in children
    ensures HasKind(children, j.kind)
  {
    var i :| 0 <= i < |children| && children[i] == j;
  }

  /** Recording every child of a run, once each, makes the listing that record. */
  lemma RelistAll(live: map<JobId, Job>, all: seq<Job>, next: seq<JobId>, run: nat)
    requires forall i :: 0 <= i < |all| ==> all[i].id in live && live[all[i].id] == all[i]
    requires forall id :: id in live && live[id].parent == ChildOf(run) ==> live[id] in all && live[id].id == id
    ensures Listed(live, Ids(all), next, run) == all
  {
    PresentOf(live, all);
    forall id | id in live && live[id].parent == ChildOf(run) ensures id in Ids(all) {
      var k :| 0 <= k < |all| && all[k] == live[id];
      assert Ids(all)[k] == id;
    }
    NoOrphans(live, Ids(all), next, run);
  }

  lemma JoinedKinds(a: seq<Job>, b: seq<Job>)
    requires OneChildPerKind(a) && OneChildPerKind(b) && forall k :: 0 <= k < |b| ==> !HasKind(a, b[k].kind)
    ensures OneChildPerKind(a + b)
  {
    assert forall i :: 0 <= i < |a| ==> HasKind(a, a[i].kind);
  }

  /** When the row is rewritten the listing is the old one with the new
      children behind it, however the live map is walked. */
  lemma {:induction false} RecordedListing(live: map<JobId, Job>, ids: seq<JobId>, scan: seq<JobId>, next: seq<JobId>,
                        run: nat, sha: string, p: Policy)
    requires IdsFaithful(live) && Scans(scan, live.Keys)
    requires OneChildPerKind(Listed(live, ids, scan, run))
    ensures var before := Listed(live, ids, scan, run);
            var missing := MissingFrom(live, ids, scan, run, sha, p);
            && Listed(EnsuredLive(live, ids, scan, run, sha, p), Ids(before) + Ids(missing), next, run)
               == before + missing
            && OneChildPerKind(before + missing)
  {
    var before := Listed(live, ids, scan, run);
    var missing := MissingFrom(live, ids, scan, run, sha, p);
    var live' := EnsuredLive(live, ids, scan, run, sha, p);
    var all := before + missing;
    MissingIdsAreFree(live, ids, scan, run, sha, p);
    AddAllIs(live, missing);
    forall j ensures j in before <==> j.id in live && live[j.id] == j && (j.id in ids || j.parent == ChildOf(run)) {
      ListedIn(live, ids, scan, run, j);
    }
    assert forall i :: 0 <= i < |before| ==> before[i] in before;
    assert Ids(before) + Ids(missing) == Ids(all);
    RelistAll(live', all, next, run);
    forall k | 0 <= k < |missing| ensures !HasKind(before, missing[k].kind) {
      MissingIn(Plan(run, sha, p.(skipBugbot := false)), KindsOf(before), missing[k]);
    }
    JoinedKinds(before, missing);
  }

  lemma PrepareIsPlanned(run: nat, sha: string, p: Policy, before: seq<Job>)
    ensures before != [] || Missing(Plan(run, sha, p.(skipBugbot := false)), KindsOf(before)) != []
  {
    var q := p.(skipBugbot := false);
    var plan := Plan(run, sha, q);
    PlanCoversPolicy(run, sha, q);
    assert HasKind(plan, Prepare);
    var i :| 0 <= i < |plan| && plan[i].kind == Prepare;
    MissingIn(plan, KindsOf(before), plan[i]);
  }

  lemma EnsuredListing(live: map<JobId, Job>, ids: seq<JobId>, scan: seq<JobId>, next: seq<JobId>,
                       run: nat, sha: string, p: Policy)
    requires IdsFaithful(live) && Scans(scan, live.Keys)
    requires OneChildPerKind(Listed(live, ids, scan, run))
    requires Scans(next, EnsuredLive(live, ids, scan, run, sha, p).Keys)
    ensures var live' := EnsuredLive(live, ids, scan, run, sha, p);
            var after := Listed(live', EnsuredIds(live, ids, scan, run, sha, p), next, run);
            && IdsFaithful(live')
            && OneChildPerKind(after)
            && (forall j :: j in after <==>
                  j in Listed(live, ids, scan, run) || j in MissingFrom(live, ids, scan, run, sha, p))
            && after != []
  {
    var before := Listed(live, ids, scan, run);
    var missing := MissingFrom(live, ids, scan, run, sha, p);
    var live' := EnsuredLive(live, ids, scan, run, sha, p);
    MissingIdsAreFree(live, ids, scan, run, sha, p);
    AddAllIs(live, missing);
    if before == [] || missing != [] {
      RecordedListing(live, ids, scan, next, run, sha, p);
      PrepareIsPlanned(run, sha, p, before);
    } else {
      ListingOrderIrrelevant(live, ids, scan, next, run);
      assert before[0] in Listed(live', ids, next, run);
    }
  }

  // ----- The plan, told by the watch's checks -----

  predicate HasAs(children: seq<Job>, k: Kind, s: Status) {
    exists i :: 0 <= i < |children| && children[i].kind == k && children[i].status == s
  }

  predicate HasPlanned(run: nat, sha: string, p: Policy, k: Kind, s: Status) {
    HasAs(Plan(run, sha, p), k, s)
  }

  lemma {:induction false} HasAsOf(children: seq<Job>, k: Kind, s: Status, own: Status)
    requires forall j :: j in children && j.kind == k ==> j.status == own
    ensures HasAs(children, k, s) <==> HasKind(children, k) && s == own
  {
    if HasKind(children, k) {
      var i :| 0 <= i < |children| && children[i].kind == k;
      assert children[i] in children;
    }
    if HasAs(children, k, s) {
      var i :| 0 <= i < |children| && children[i].kind == k && children[i].status == s;
      assert children[i] in children;
    }
  }

  lemma {:induction false} PlannedAs(run: nat, sha: string, p: Policy, k: Kind, s: Status)
    ensures HasPlanned(run, sha, p, k, s) <==> Wanted(p, k) && s == if SkippedAtPlanning(p, k) then Skipped else Queued
  {
    PlanCoversPolicy(run, sha, p);
    HasAsOf(Plan(run, sha, p), k, s, if SkippedAtPlanning(p, k) then Skipped else Queued);
  }

  /** Each of the older scan checks brings a security child that runs; a review
      check alone brings one that is skipped, and a review and an approval. Every
      plan has a prepare that runs and a cloud child, which runs exactly when
      autofix is on. */
  lemma {:induction false} PlanReadsChecks(run: nat, sha: string, p: Policy, check: string)
    ensures HasPlanned(run, sha, p, Prepare, Queued)
    ensures check in {"secrets", "sast", "iac", "sbom", "container"} && check in p.checks ==>
              HasPlanned(run, sha, p, Security, Queued)
    ensures check in {"ora:review", "ai_review"} && check in p.checks ==>
              && HasPlanned(run, sha, p, Approval, Queued)
              && HasPlanned(run, sha, p, Bugbot, if p.skipBugbot then Skipped else Queued)
              && (HasPlanned(run, sha, p, Security, Skipped) || HasPlanned(run, sha, p, Security, Queued))
    ensures (forall c :: c in p.checks ==> c in {"ora:review", "ai_review"}) && p.checks != [] ==>
              HasPlanned(run, sha, p, Security, Skipped)
    ensures p.checks == [] ==> forall k, s :: k in {Security, Bugbot, Approval} ==> !HasPlanned(run, sha, p, k, s)
    ensures HasPlanned(run, sha, p, Cloud, if p.cloudEnabled && p.autofixMode !in {"", "off"} then Queued else Skipped)
    ensures HasPlanned(run, sha, p, Checkup, if p.sandboxDocker then Queued else Skipped) <==> p.checkupEnabled
  {
    forall k, s ensures HasPlanned(run, sha, p, k, s) <==> Wanted(p, k) && s == if SkippedAtPlanning(p, k) then Skipped else Queued {
      PlannedAs(run, sha, p, k, s);
    }
    if p.checks != [] {
      assert p.checks[0] in p.checks;
    }
  }

  /** A child that is added later is queued, or skipped as the policy says, but the
      switch that skips the review at planning is not looked at again. */
  lemma {:induction false} AddedLater(live: map<JobId, Job>, ids: seq<JobId>, scan: seq<JobId>, run: nat, sha: string, p: Policy, k: Kind)
    requires IdsFaithful(live) && Scans(scan, live.Keys) && Wanted(p, k) && !HasKind(Listed(live, ids, scan, run), k)
    ensures var id, after := Planned(run, sha, k), EnsuredLive(live, ids, scan, run, sha, p);
            && id !in live && id in after && after[id].kind == k && after[id].parent == ChildOf(run)
            && (k in {Prepare, Bugbot, Approval} ==> after[id].status == Queued)
            && (k in {Security, Checkup, Cloud} ==> after[id].status == if SkippedAtPlanning(p, k) then Skipped else Queued)
  {
    var later := p.(skipBugbot := false);
    var plan, missing := Plan(run, sha, later), MissingFrom(live, ids, scan, run, sha, p);
    PlanCoversPolicy(run, sha, later);
    assert Wanted(later, k);
    var i :| 0 <= i < |plan| && plan[i].kind == k;
    MissingIn(plan, KindsOf(Listed(live, ids, scan, run)), plan[i]);
    MissingIdsAreFree(live, ids, scan, run, sha, p);
    AddAllIs(live, missing);
    var j :| 0 <= j < |missing| && missing[j] == plan[i];
    assert missing[j] == PlannedChild(run, sha, later, k);
  }
}
