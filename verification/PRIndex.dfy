// One run in flight per pull request: enqueueing, superseding and pruning
// (agents_run.go, scm_orchestrator.go).
module PRIndex {
  import opened Text
  import opened RunStatus
  import opened Decimals

  datatype Kind = Run | Continuous | Cloud | OtherKind

  /** A draining job has been asked to end on its own. */
  datatype PRJob = PRJob(repo: string, pr: int, sha: string, status: Status, parent: string, kind: Kind, started: int, draining: bool)

  type Jobs = map<string, PRJob>

  predicate InFlight(s: Status) {
    s in {Queued, Waiting, Running}
  }

  // ----- Keys -----

  function IndexKey(repo: string, pr: int): string {
    ToLower(TrimSpace(repo)) + "#" + (if pr < 0 then "" else Decimal(pr))
  }

  lemma HashAt(a: string, d: string)
    requires '#' !in d
    ensures var s := a + "#" + d; s[|a|] == '#' && (forall k :: |a| < k < |s| ==> s[k] != '#') && s[..|a|] == a && s[|a| + 1..] == d
  {
    var s := a + "#" + d;
    forall k | |a| < k < |s| ensures s[k] != '#' {
      assert s[k] == d[k - |a| - 1];
      assert d[k - |a| - 1] in d;
    }
  }

  lemma LastHash(a: string, d: string, b: string, e: string)
    requires '#' !in d && '#' !in e && a + "#" + d == b + "#" + e
    ensures a == b && d == e
  {
    HashAt(a, d);
    HashAt(b, e);
    assert |a| == |b|;
  }

  /** Two pull requests share a key exactly when they share the repository, up
      to case and white space around it, and the number. */
  lemma IndexKeyInjective(r: string, m: nat, s: string, n: nat)
    ensures IndexKey(r, m) == IndexKey(s, n) <==> ToLower(TrimSpace(r)) == ToLower(TrimSpace(s)) && m == n
  {
    if IndexKey(r, m) == IndexKey(s, n) {
      LastHash(ToLower(TrimSpace(r)), Decimal(m), ToLower(TrimSpace(s)), Decimal(n));
      DecimalInjective(m, n);
    }
  }

  // ----- Jobs in flight -----

  predicate OfPR(j: PRJob, repo: string, pr: int) {
    j.pr == pr && EqualFold(j.repo, repo)
  }

  predicate TopInFlight(j: PRJob) {
    j.parent == "" && InFlight(j.status)
  }

  predicate SameSHA(a: string, b: string) {
    EqualFold(TrimSpace(a), TrimSpace(b))
  }

  predicate Counts(jobs: Jobs, id: string, repo: string, pr: int) {
    id in jobs && OfPR(jobs[id], repo, pr) && TopInFlight(jobs[id])
  }

  ghost predicate AtMostOne(jobs: Jobs, repo: string, pr: int) {
    forall a, b :: Counts(jobs, a, repo, pr) && Counts(jobs, b, repo, pr) ==> a == b
  }

  /** At most one top-level job in flight for every pull request. */
  ghost predicate OnePerPR(jobs: Jobs) {
    forall repo, pr :: pr > 0 && repo != "" ==> AtMostOne(jobs, repo, pr)
  }

  /** What superseding stops: everything in flight for the pull request but the
      jobs already on the new commit. */
  predicate Superseded(j: PRJob, repo: string, pr: int, keep: string) {
    OfPR(j, repo, pr) && InFlight(j.status) && (TrimSpace(keep) == "" || !SameSHA(j.sha, keep))
  }

  function Cancel(j: PRJob): PRJob {
    j.(status := Cancelled)
  }

  /** A cloud child under way may be about to push: it is drained, not cancelled. */
  predicate Drains(j: PRJob) {
    j.parent != "" && j.kind == Cloud && j.status in {Running, Waiting}
  }

  function Stopped(j: PRJob): PRJob {
    if Drains(j) then j.(draining := true) else Cancel(j)
  }

  function AfterSupersede(jobs: Jobs, repo: string, pr: int, sha: string): Jobs {
    if TrimSpace(repo) == "" || pr <= 0 then jobs
    else map id | id in jobs :: if Superseded(jobs[id], TrimSpace(repo), pr, sha) then Stopped(jobs[id]) else jobs[id]
  }

  predicate OnCommit(jobs: Jobs, id: string, repo: string, pr: int, sha: string) {
    Counts(jobs, id, repo, pr) && SameSHA(jobs[id].sha, sha)
  }

  /** A run for the pull request is already on the commit. */
  ghost predicate UnderWay(jobs: Jobs, repo: string, pr: int, sha: string) {
    && pr > 0 && TrimSpace(repo) != "" && TrimSpace(sha) != ""
    && exists id :: OnCommit(jobs, id, TrimSpace(repo), pr, TrimSpace(sha))
  }

  /** The commit is stored trimmed for a pull request, the repository as given. */
  function NewRun(repo: string, pr: int, sha: string, admitted: bool, now: int): PRJob {
    PRJob(repo, pr, if pr > 0 then TrimSpace(sha) else sha, if admitted then Queued else Skipped, "", Run, now, false)
  }

  ghost function AfterEnqueue(jobs: Jobs, repo: string, pr: int, sha: string, id: string, admitted: bool, now: int): Jobs {
    if UnderWay(jobs, repo, pr, sha) then jobs
    else AfterSupersede(jobs, repo, pr, sha)[id := NewRun(repo, pr, sha, admitted, now)]
  }

  function AfterContinuous(jobs: Jobs, repo: string, pr: int, sha: string, id: string, now: int): Jobs {
    AfterSupersede(jobs, repo, pr, sha)[id := PRJob(repo, pr, sha, Queued, "", Continuous, now, false)]
  }

  // ----- Pruning -----

  predicate Prunable(j: PRJob) {
    j.pr > 0 && TopInFlight(j)
  }

  function KeyOf(j: PRJob): string {
    IndexKey(j.repo, j.pr)
  }

  /** For each key with a job in flight, one that was started last. */
  ghost predicate NewestOf(jobs: Jobs, kept: map<string, string>) {
    && (forall k :: k in kept ==> kept[k] in jobs && Prunable(jobs[kept[k]]) && KeyOf(jobs[kept[k]]) == k)
    && (forall id :: id in jobs && Prunable(jobs[id]) ==>
          KeyOf(jobs[id]) in kept && jobs[id].started <= jobs[kept[KeyOf(jobs[id])]].started)
  }

  ghost function AfterPrune(jobs: Jobs, kept: map<string, string>): Jobs
    requires NewestOf(jobs, kept)
  {
    map id | id in jobs :: if Prunable(jobs[id]) && kept[KeyOf(jobs[id])] != id then Cancel(jobs[id]) else jobs[id]
  }

  function Remembered(index: map<string, string>, jobs: Jobs, kept: map<string, string>): map<string, string>
    requires forall k :: k in kept ==> kept[k] in jobs
  {
    map k | k in index.Keys + kept.Keys && (k in index || Indexed(jobs[kept[k]])) ::
      if k in kept && Indexed(jobs[kept[k]]) then kept[k] else index[k]
  }

  predicate Indexed(j: PRJob) {
    j.kind == Run && j.repo != ""
  }

  predicate InGroup(groups: map<string, seq<string>>, key: string, id: string) {
    key in groups && id in groups[key]
  }

  /** Each group is the jobs in flight under its key, or some of them. */
  ghost predicate Grouped(jobs: Jobs, groups: map<string, seq<string>>) {
    && (forall k :: k in groups ==> groups[k] != [])
    && (forall k, id :: InGroup(groups, k, id) ==> id in jobs && Prunable(jobs[id]) && KeyOf(jobs[id]) == k)
  }

  lemma AddToGroup(jobs: Jobs, groups: map<string, seq<string>>, id: string)
    requires Grouped(jobs, groups) && id in jobs && Prunable(jobs[id])
    ensures var key := KeyOf(jobs[id]);
            var more := groups[key := (if key in groups then groups[key] else []) + [id]];
            && Grouped(jobs, more) && InGroup(more, key, id)
            && forall k, x :: InGroup(groups, k, x) ==> InGroup(more, k, x)
  {
    var key := KeyOf(jobs[id]);
    var group := if key in groups then groups[key] else [];
    var more := groups[key := group + [id]];
    assert forall x :: x in group + [id] <==> x in group || x == id;
    forall k, x | InGroup(more, k, x) ensures InGroup(groups, k, x) || (k == key && x == id) {
    }
  }

  /** The newest of each group dealt with so far. */
  ghost predicate Picked(jobs: Jobs, groups: map<string, seq<string>>, kept: map<string, string>) {
    && Grouped(jobs, groups)
    && (forall id :: id in jobs && Prunable(jobs[id]) ==> InGroup(groups, KeyOf(jobs[id]), id))
    && (forall k :: k in kept ==> InGroup(groups, k, kept[k]))
    && (forall k, id :: k in kept && InGroup(groups, k, id) ==> jobs[id].started <= jobs[kept[k]].started)
  }

  ghost predicate HalfPruned(before: Jobs, now: Jobs, kept: map<string, string>) {
    && now.Keys == before.Keys
    && forall id :: id in now ==>
         now[id] == if Prunable(before[id]) && KeyOf(before[id]) in kept && kept[KeyOf(before[id])] != id
                    then Cancel(before[id]) else before[id]
  }

  lemma HalfKeepsRows(before: Jobs, now: Jobs, kept: map<string, string>, group: seq<string>)
    requires HalfPruned(before, now, kept)
    ensures forall id :: id in before ==> id in now && now[id].started == before[id].started
  {
  }

  lemma GroupMembers(jobs: Jobs, groups: map<string, seq<string>>, kept: map<string, string>, key: string)
    requires Picked(jobs, groups, kept) && key in groups
    ensures groups[key] != [] && forall i :: 0 <= i < |groups[key]| ==> groups[key][i] in jobs
    ensures forall id :: id in jobs ==> (id in groups[key] <==> Prunable(jobs[id]) && KeyOf(jobs[id]) == key)
  {
    forall id | id in jobs ensures id in groups[key] <==> Prunable(jobs[id]) && KeyOf(jobs[id]) == key {
      assert id in groups[key] ==> InGroup(groups, key, id);
    }
    forall i | 0 <= i < |groups[key]| ensures groups[key][i] in jobs {
      assert InGroup(groups, key, groups[key][i]);
    }
  }

  lemma PickOne(before: Jobs, groups: map<string, seq<string>>, kept: map<string, string>, key: string, newest: string)
    requires Picked(before, groups, kept) && InGroup(groups, key, newest)
    requires forall id :: InGroup(groups, key, id) ==> before[id].started <= before[newest].started
    ensures Picked(before, groups, kept[key := newest])
  {
  }

  lemma PruneOneGroup(before: Jobs, now: Jobs, group: seq<string>, kept: map<string, string>, key: string, newest: string, after: Jobs)
    requires HalfPruned(before, now, kept) && key !in kept && newest in group && newest in before
    requires forall id :: id in before ==> (id in group <==> Prunable(before[id]) && KeyOf(before[id]) == key)
    requires after == map id | id in now :: if id in group && id != newest then Cancel(now[id]) else now[id]
    ensures HalfPruned(before, after, kept[key := newest]) && after[newest] == before[newest]
  {
  }

  lemma RememberOne(index: map<string, string>, jobs: Jobs, kept: map<string, string>, key: string, newest: string)
    requires (forall k :: k in kept ==> kept[k] in jobs) && newest in jobs && key !in kept
    ensures Remembered(index, jobs, kept[key := newest]) ==
            if Indexed(jobs[newest]) then Remembered(index, jobs, kept)[key := newest] else Remembered(index, jobs, kept)
  {
  }

  lemma AllPicked(jobs: Jobs, groups: map<string, seq<string>>, kept: map<string, string>, now: Jobs)
    requires Picked(jobs, groups, kept) && kept.Keys == groups.Keys && HalfPruned(jobs, now, kept)
    ensures NewestOf(jobs, kept) && now == AfterPrune(jobs, kept)
  {
  }

  lemma NonePicked(jobs: Jobs, groups: map<string, seq<string>>, index: map<string, string>)
    requires Grouped(jobs, groups) && forall id :: id in jobs && Prunable(jobs[id]) ==> InGroup(groups, KeyOf(jobs[id]), id)
    ensures Picked(jobs, groups, map[]) && HalfPruned(jobs, jobs, map[]) && index == Remembered(index, jobs, map[])
  {
  }

  lemma SupersedeTrimmed(jobs: Jobs, repo: string, pr: int, sha: string)
    ensures AfterSupersede(jobs, repo, pr, TrimSpace(sha)) == AfterSupersede(jobs, repo, pr, sha)
  {
    TrimSpaceLaws(sha);
  }

  // ----- The index and the jobs -----

  class PRRuns {
    var jobs: Jobs
    var index: map<string, string>

    constructor ()
      ensures jobs == map[] && index == map[]
    {
      jobs, index := map[], map[];
    }

    method FindInFlightPRRunForSHA(repoRaw: string, pr: int, shaRaw: string, scan: seq<string>) returns (found: Option<string>)
      requires forall id :: id in scan <==> id in jobs
      ensures found.Some? <==> UnderWay(jobs, repoRaw, pr, shaRaw)
      ensures found.Some? ==> OnCommit(jobs, found.value, TrimSpace(repoRaw), pr, TrimSpace(shaRaw))
      ensures found.Some? ==> forall id :: OnCommit(jobs, id, TrimSpace(repoRaw), pr, TrimSpace(shaRaw)) ==>
                jobs[id].started <= jobs[found.value].started
    {
      var repo, sha := TrimSpace(repoRaw), TrimSpace(shaRaw);
      if repo == "" || pr <= 0 || sha == "" {
        return None;
      }
      found := None;
      for i := 0 to |scan|
        invariant found.Some? ==> OnCommit(jobs, found.value, repo, pr, sha)
        invariant forall k :: 0 <= k < i && OnCommit(jobs, scan[k], repo, pr, sha) ==>
          found.Some? && jobs[scan[k]].started <= jobs[found.value].started
      {
        var j := jobs[scan[i]];
        if !OfPR(j, repo, pr) || j.parent != "" || !InFlight(j.status) {
          continue;
        }
        if !SameSHA(j.sha, sha) {
          continue;
        }
        if found.None? || j.started >= jobs[found.value].started {
          found := Some(scan[i]);
        }
      }
    }

    /** supersedeInFlightPRJobs, without the cascade below the jobs it cancels. */
    method SupersedeInFlightPRJobs(repoRaw: string, pr: int, sha: string, scan: seq<string>)
      requires forall id :: id in scan <==> id in jobs
      modifies `jobs
      ensures jobs == AfterSupersede(old(jobs), repoRaw, pr, sha)
    {
      var repo := TrimSpace(repoRaw);
      if repo == "" || pr <= 0 {
        return;
      }
      ghost var before := jobs;
      for i := 0 to |scan|
        invariant jobs.Keys == before.Keys
        invariant forall id :: id in jobs ==>
          jobs[id] == if id in scan[..i] && Superseded(before[id], repo, pr, sha) then Stopped(before[id]) else before[id]
      {
        TakeSnoc(scan, i);
        var id := scan[i];
        if Superseded(jobs[id], repo, pr, sha) {
          if jobs[id].parent != "" && jobs[id].kind == Cloud && (jobs[id].status == Running || jobs[id].status == Waiting) {
            jobs := jobs[id := jobs[id].(draining := true)];
          } else {
            jobs := jobs[id := Cancel(jobs[id])];
          }
        }
      }
      TakeAll(scan);
    }

    method RememberPRRun(repo: string, pr: int, run: string)
      modifies `index
      ensures index == if repo == "" || pr <= 0 || run == "" then old(index) else old(index)[IndexKey(repo, pr) := run]
    {
      if repo == "" || pr <= 0 || run == "" {
        return;
      }
      index := index[IndexKey(repo, pr) := run];
    }

    /** enqueuePRRun. The children of the run have a parent and are not listed. */
    method EnqueuePRRun(repo: string, pr: int, shaRaw: string, id: string, admitted: bool, now: int, scan: seq<string>)
        returns (run: string)
      requires id !in jobs && id != "" && forall x :: x in scan <==> x in jobs
      modifies this
      ensures jobs == AfterEnqueue(old(jobs), repo, pr, shaRaw, id, admitted, now)
      ensures if UnderWay(old(jobs), repo, pr, shaRaw)
              then OnCommit(old(jobs), run, TrimSpace(repo), pr, TrimSpace(shaRaw)) else run == id
      ensures index == if pr > 0 && repo != "" && run != "" && (admitted || run != id)
                       then old(index)[IndexKey(repo, pr) := run] else old(index)
    {
      var sha := shaRaw;
      if pr > 0 {
        sha := TrimSpace(sha);
        TrimSpaceLaws(shaRaw);
        if sha != "" {
          var existing := FindInFlightPRRunForSHA(repo, pr, sha, scan);
          if existing.Some? {
            RememberPRRun(repo, pr, existing.value);
            return existing.value;
          }
        }
        SupersedeInFlightPRJobs(repo, pr, sha, scan);
        SupersedeTrimmed(old(jobs), repo, pr, shaRaw);
      }
      jobs := jobs[id := PRJob(repo, pr, sha, if admitted then Queued else Skipped, "", Run, now, false)];
      if admitted && pr > 0 {
        RememberPRRun(repo, pr, id);
      }
      return id;
    }

    /** enqueueSCMJob, the continuous path: it looks for no job on the same commit. */
    method EnqueueSCMJob(repo: string, pr: int, sha: string, id: string, now: int, scan: seq<string>)
      requires id !in jobs && forall x :: x in scan <==> x in jobs
      modifies `jobs
      ensures jobs == AfterContinuous(old(jobs), repo, pr, sha, id, now)
    {
      if pr > 0 {
        SupersedeInFlightPRJobs(repo, pr, sha, scan);
      }
      jobs := jobs[id := PRJob(repo, pr, sha, Queued, "", Continuous, now, false)];
    }

    /** The first loop of pruneSupersededInFlightPRRuns: the jobs in flight by key. */
    method GroupByKey(scan: seq<string>) returns (groups: map<string, seq<string>>)
      requires forall x :: x in scan <==> x in jobs
      ensures Grouped(jobs, groups) && forall id :: id in jobs && Prunable(jobs[id]) ==> InGroup(groups, KeyOf(jobs[id]), id)
    {
      groups := map[];
      for i := 0 to |scan|
        invariant Grouped(jobs, groups)
        invariant forall j :: 0 <= j < i && Prunable(jobs[scan[j]]) ==> InGroup(groups, KeyOf(jobs[scan[j]]), scan[j])
      {
        var id := scan[i];
        var j := jobs[id];
        if j.pr <= 0 || j.parent != "" || !InFlight(j.status) {
          continue;
        }
        var key := IndexKey(j.repo, j.pr);
        var group := if key in groups then groups[key] else [];
        AddToGroup(jobs, groups, id);
        groups := groups[key := group + [id]];
      }
    }

    method NewestInGroup(group: seq<string>) returns (newest: string)
      requires group != [] && forall i :: 0 <= i < |group| ==> group[i] in jobs
      ensures newest in group && forall i :: 0 <= i < |group| ==> jobs[group[i]].started <= jobs[newest].started
    {
      newest := group[0];
      for i := 1 to |group|
        invariant newest in group
        invariant forall j :: 0 <= j < i ==> jobs[group[j]].started <= jobs[newest].started
      {
        if jobs[group[i]].started >= jobs[newest].started {
          newest := group[i];
        }
      }
    }

    method CancelRest(group: seq<string>, newest: string)
      requires forall i :: 0 <= i < |group| ==> group[i] in jobs
      modifies `jobs
      ensures jobs == map id | id in old(jobs) :: if id in group && id != newest then Cancel(old(jobs)[id]) else old(jobs)[id]
    {
      ghost var before := jobs;
      for i := 0 to |group|
        invariant jobs.Keys == before.Keys
        invariant forall id :: id in jobs ==>
          jobs[id] == if id in group[..i] && id != newest then Cancel(before[id]) else before[id]
      {
        TakeSnoc(group, i);
        if group[i] != newest {
          jobs := jobs[group[i] := Cancel(jobs[group[i]])];
        }
      }
      TakeAll(group);
    }

    /** One group: its newest job stays, the rest are cancelled. */
    method PruneGroup(ghost before: Jobs, ghost remembered: map<string, string>, groups: map<string, seq<string>>,
                      kept: map<string, string>, key: string) returns (newest: string)
      requires Picked(before, groups, kept) && key in groups && key !in kept
      requires HalfPruned(before, jobs, kept) && index == Remembered(remembered, before, kept)
      modifies this
      ensures newest in before && Picked(before, groups, kept[key := newest])
      ensures HalfPruned(before, jobs, kept[key := newest])
      ensures index == Remembered(remembered, before, kept[key := newest])
    {
      var group := groups[key];
      HalfKeepsRows(before, jobs, kept, group);
      GroupMembers(before, groups, kept, key);
      newest := NewestInGroup(group);
      ghost var now := jobs;
      CancelRest(group, newest);
      PruneOneGroup(before, now, group, kept, key, newest, jobs);
      PickOne(before, groups, kept, key, newest);
      RememberOne(remembered, before, kept, key, newest);
      if jobs[newest].kind == Run && jobs[newest].repo != "" {
        index := index[key := newest];
      }
    }

    /** pruneSupersededInFlightPRRuns, over the keys in any order. */
    method PruneSupersededInFlightPRRuns(scan: seq<string>) returns (kept: map<string, string>)
      requires forall x :: x in scan <==> x in jobs
      modifies this
      ensures NewestOf(old(jobs), kept) && jobs == AfterPrune(old(jobs), kept)
      ensures index == Remembered(old(index), old(jobs), kept)
    {
      var groups := GroupByKey(scan);
      ghost var before, remembered := jobs, index;
      kept := map[];
      NonePicked(jobs, groups, index);
      var todo := groups.Keys;
      while todo != {}
        invariant todo <= groups.Keys && kept.Keys == groups.Keys - todo
        invariant Picked(before, groups, kept) && HalfPruned(before, jobs, kept)
        invariant index == Remembered(remembered, before, kept)
        decreases |todo|
      {
        var key :| key in todo;
        todo := todo - {key};
        var newest := PruneGroup(before, remembered, groups, kept, key);
        kept := kept[key := newest];
      }
      AllPicked(before, groups, kept, jobs);
    }
  }

  // ----- Over whole runs -----

  /** A new run leaves one job in flight for its pull request, itself or the one
      it found on the commit, and touches no other pull request. */
  lemma EnqueueKeepsOne(jobs: Jobs, repo: string, pr: int, sha: string, id: string, admitted: bool, now: int)
    requires OnePerPR(jobs) && id !in jobs && Trimmed(repo)
    ensures OnePerPR(AfterEnqueue(jobs, repo, pr, sha, id, admitted, now))
  {
    var after := AfterEnqueue(jobs, repo, pr, sha, id, admitted, now);
    if !UnderWay(jobs, repo, pr, sha) {
      forall r, p | p > 0 && r != "" ensures AtMostOne(after, r, p) {
        forall a, b | Counts(after, a, r, p) && Counts(after, b, r, p) ensures a == b {
          assert AtMostOne(jobs, r, p);
          if a != id {
            SurvivorWasThere(jobs, repo, pr, sha, a, r, p);
          }
          if b != id {
            SurvivorWasThere(jobs, repo, pr, sha, b, r, p);
          }
        }
      }
    }
  }

  /** What an enqueue leaves alone: every job of another pull request or another
      repository, every job that is over, everything when a run is already on the
      commit, and jobs on the commit in any case. */
  lemma {:induction false} EnqueueSpares(jobs: Jobs, repo: string, pr: int, sha: string, id: string, admitted: bool, now: int, x: string)
    requires id !in jobs && x in jobs
    requires || jobs[x].pr != pr || !EqualFold(jobs[x].repo, TrimSpace(repo))
             || jobs[x].status !in {Queued, Waiting, Running}
             || UnderWay(jobs, repo, pr, sha)
             || (TrimSpace(sha) != "" && EqualFold(TrimSpace(jobs[x].sha), TrimSpace(sha)))
    ensures var after := AfterEnqueue(jobs, repo, pr, sha, id, admitted, now); x in after && after[x] == jobs[x]
  {
  }

  /** What it stops: the other jobs in flight for the pull request. A cloud child
      under way is asked to drain and stays in flight, all others are cancelled. */
  lemma {:induction false} EnqueueStops(jobs: Jobs, repo: string, pr: int, sha: string, id: string, admitted: bool, now: int, x: string)
    requires id !in jobs && x in jobs && pr > 0 && TrimSpace(repo) != "" && !UnderWay(jobs, repo, pr, sha)
    requires jobs[x].pr == pr && EqualFold(jobs[x].repo, TrimSpace(repo)) && jobs[x].status in {Queued, Waiting, Running}
    requires TrimSpace(sha) == "" || !EqualFold(TrimSpace(jobs[x].sha), TrimSpace(sha))
    ensures var after := AfterEnqueue(jobs, repo, pr, sha, id, admitted, now);
            && x in after
            && after[x] == if jobs[x].parent != "" && jobs[x].kind == Cloud && jobs[x].status in {Running, Waiting}
                           then jobs[x].(draining := true) else jobs[x].(status := Cancelled)
  {
  }

  /** What it adds: one run on the trimmed commit, queued if it was admitted. */
  lemma {:induction false} EnqueueAdds(jobs: Jobs, repo: string, pr: int, sha: string, id: string, admitted: bool, now: int)
    requires id !in jobs
    ensures var after := AfterEnqueue(jobs, repo, pr, sha, id, admitted, now);
            && after.Keys == jobs.Keys + (if UnderWay(jobs, repo, pr, sha) then {} else {id})
            && (id in after ==>
                  && after[id].repo == repo && after[id].pr == pr && after[id].parent == "" && after[id].kind == Run
                  && after[id].status == (if admitted then Queued else Skipped)
                  && (pr > 0 ==> after[id].sha == TrimSpace(sha)))
  {
  }

  lemma SurvivorWasThere(jobs: Jobs, repo: string, pr: int, sha: string, a: string, r: string, p: int)
    requires Counts(AfterSupersede(jobs, repo, pr, sha), a, r, p) && Trimmed(repo)
    requires !UnderWay(jobs, repo, pr, sha)
    ensures Counts(jobs, a, r, p)
    ensures pr > 0 && repo != "" ==> p != pr || !EqualFold(r, repo)
  {
    TrimSpaceLaws(sha);
    TrimmedIsFixed(repo);
    assert pr > 0 && repo != "" && TrimSpace(sha) != "" ==> !OnCommit(jobs, a, repo, pr, TrimSpace(sha));
  }

  /** Two different commits, one after the other, leave at most one run in flight
      exactly for a repository name that is trimmed and not empty: any other is
      stored as given but looked up trimmed, or not at all. */
  lemma TwoCommitsOneRunExactly(repo: string, pr: int, now: int)
    requires pr > 0
    ensures var jobs := AfterEnqueue(AfterEnqueue(map[], repo, pr, "a", "1", true, now), repo, pr, "b", "2", true, now);
            AtMostOne(jobs, repo, pr) <==> Trimmed(repo) && repo != ""
  {
    TrimmedIsFixed("a");
    TrimmedIsFixed("b");
    TrimSpaceLaws(repo);
    var once := AfterEnqueue(map[], repo, pr, "a", "1", true, now);
    assert once == map["1" := NewRun(repo, pr, "a", true, now)];
    if Trimmed(repo) && repo != "" {
      EnqueueKeepsOne(map[], repo, pr, "a", "1", true, now);
      EnqueueKeepsOne(once, repo, pr, "b", "2", true, now);
    } else {
      if repo != "" {
        NeverFound(repo, TrimSpace(repo));
      }
      var jobs := AfterEnqueue(once, repo, pr, "b", "2", true, now);
      assert Counts(jobs, "1", repo, pr) && Counts(jobs, "2", repo, pr);
    }
  }

  lemma NeverFound(raw: string, trimmed: string)
    requires trimmed == TrimSpace(raw) && !Trimmed(raw)
    ensures !EqualFold(raw, trimmed)
  {
    var k := TrimLeftIs(raw);
    TrimRightIs(TrimLeft(raw));
    assert |trimmed| <= |raw|;
    assert |trimmed| == |raw| ==> trimmed == raw;
    TrimSpaceLaws(raw);
  }

  /** Asking again for a commit that is under way changes no job. */
  lemma ReenqueueChangesNothing(jobs: Jobs, repo: string, pr: int, sha: string, id: string, id2: string, now: int, later: int)
    requires pr > 0 && Trimmed(repo) && repo != "" && TrimSpace(sha) != "" && id !in jobs
    ensures var once := AfterEnqueue(jobs, repo, pr, sha, id, true, now);
            AfterEnqueue(once, repo, pr, sha, id2, true, later) == once
  {
    var once := AfterEnqueue(jobs, repo, pr, sha, id, true, now);
    TrimSpaceLaws(sha);
    TrimmedIsFixed(repo);
    assert OnCommit(once, id, repo, pr, TrimSpace(sha)) || UnderWay(jobs, repo, pr, sha);
  }

  /** What the continuous path adds: a queued top-level job with the pull request
      and the commit as given, which anything that starts it looks up by kind. */
  lemma {:induction false} ContinuousAdds(jobs: Jobs, repo: string, pr: int, sha: string, id: string, now: int, x: string)
    requires id !in jobs
    ensures var after := AfterContinuous(jobs, repo, pr, sha, id, now);
            && after.Keys == jobs.Keys + {id}
            && after[id].repo == repo && after[id].pr == pr && after[id].sha == sha
            && TopInFlight(after[id]) && after[id].status == Queued && after[id].kind == Continuous
            && after[id].started == now && !after[id].draining
            && (x in jobs && !(jobs[x].pr == pr && EqualFold(jobs[x].repo, TrimSpace(repo))) ==> after[x] == jobs[x])
  {
  }

  /** The continuous path leaves at most one job in flight per pull request
      exactly when none was already on its commit: that one is spared and joined by
      a second. */
  lemma {:induction false} ContinuousKeepsOneExactly(jobs: Jobs, repo: string, pr: int, sha: string, id: string, now: int)
    requires OnePerPR(jobs) && id !in jobs && Trimmed(repo)
    ensures OnePerPR(AfterContinuous(jobs, repo, pr, sha, id, now)) <==> !UnderWay(jobs, repo, pr, sha)
  {
    var after := AfterContinuous(jobs, repo, pr, sha, id, now);
    TrimSpaceLaws(sha);
    TrimmedIsFixed(repo);
    if UnderWay(jobs, repo, pr, sha) {
      var x :| OnCommit(jobs, x, repo, pr, TrimSpace(sha));
      assert Counts(after, x, repo, pr) && Counts(after, id, repo, pr);
      assert !AtMostOne(after, repo, pr);
    } else {
      forall r, p, a, b | p > 0 && r != "" && Counts(after, a, r, p) && Counts(after, b, r, p) ensures a == b {
        assert AtMostOne(jobs, r, p);
        if a != id {
          SurvivorWasThere(jobs, repo, pr, sha, a, r, p);
        }
        if b != id {
          SurvivorWasThere(jobs, repo, pr, sha, b, r, p);
        }
      }
    }
  }

  ghost predicate ReposTrimmed(jobs: Jobs) {
    forall id :: id in jobs ==> Trimmed(jobs[id].repo)
  }

  /** From any jobs, pruning leaves exactly one job in flight under each index key
      that had any, one of those started last; so it never cancels the only one. */
  lemma PruneLeavesOne(jobs: Jobs, kept: map<string, string>)
    requires NewestOf(jobs, kept)
    ensures var after := AfterPrune(jobs, kept);
            forall id :: id in jobs && Prunable(jobs[id]) ==>
              var n := kept[KeyOf(jobs[id])];
              && n in after && Prunable(after[n]) && KeyOf(after[n]) == KeyOf(jobs[id])
              && jobs[id].started <= after[n].started
              && forall o :: o in after && Prunable(after[o]) && KeyOf(after[o]) == KeyOf(jobs[id]) ==> o == n
  {
  }

  /** Pruning takes a job out of flight only, and only a top-level one of a pull
      request, for another of the same index key that started no earlier. */
  lemma {:induction false} PruneSpares(jobs: Jobs, kept: map<string, string>, x: string)
    requires NewestOf(jobs, kept) && x in jobs
    ensures var after := AfterPrune(jobs, kept);
            && after.Keys == jobs.Keys
            && (after[x] == jobs[x] || after[x] == jobs[x].(status := Cancelled))
            && (after[x] != jobs[x] ==>
                  && jobs[x].pr > 0 && jobs[x].parent == "" && InFlight(jobs[x].status)
                  && exists y :: y in jobs && y != x && after[y] == jobs[y] && TopInFlight(jobs[y])
                                 && KeyOf(jobs[y]) == KeyOf(jobs[x]) && jobs[x].started <= jobs[y].started)
  {
    if Prunable(jobs[x]) {
      var y := kept[KeyOf(jobs[x])];
      assert y in jobs && Prunable(jobs[y]) && KeyOf(jobs[y]) == KeyOf(jobs[x]);
    }
  }

  /** Afterwards the index leads to each run still in flight that has a repository,
      and what it said of pull requests with nothing in flight stays. */
  lemma {:induction false} PruneRemembers(index: map<string, string>, jobs: Jobs, kept: map<string, string>, k: string)
    requires NewestOf(jobs, kept)
    ensures var after, r := AfterPrune(jobs, kept), Remembered(index, jobs, kept);
            && (forall x :: x in after && Prunable(after[x]) && after[x].kind == Run && after[x].repo != "" ==>
                  KeyOf(after[x]) in r && r[KeyOf(after[x])] == x)
            && ((forall x :: x in after && Prunable(after[x]) ==> KeyOf(after[x]) != k) ==>
                  (k in r <==> k in index) && (k in index ==> r[k] == index[k]))
  {
    var after := AfterPrune(jobs, kept);
    if k in kept {
      assert Prunable(after[kept[k]]) && KeyOf(after[kept[k]]) == k;
    }
  }

  /** With trimmed names that is one for each pull request. */
  lemma PruneKeepsOne(jobs: Jobs, kept: map<string, string>)
    requires NewestOf(jobs, kept) && ReposTrimmed(jobs)
    ensures OnePerPR(AfterPrune(jobs, kept))
  {
    var after := AfterPrune(jobs, kept);
    forall repo, pr, a, b | pr > 0 && repo != "" && Counts(after, a, repo, pr) && Counts(after, b, repo, pr) ensures a == b {
      SameKey(jobs[a], jobs[b]);
    }
  }

  lemma SameKey(a: PRJob, b: PRJob)
    requires Trimmed(a.repo) && Trimmed(b.repo) && a.pr > 0 && b.pr > 0
    ensures KeyOf(a) == KeyOf(b) <==> OfPR(a, b.repo, b.pr)
  {
    TrimmedIsFixed(a.repo);
    TrimmedIsFixed(b.repo);
    IndexKeyInjective(a.repo, a.pr, b.repo, b.pr);
  }

  datatype Step =
    | Enqueue(repo: string, pr: int, sha: string, id: string, admitted: bool, now: int)
    | Continue(repo: string, pr: int, sha: string, id: string, now: int)   // enqueueSCMJob
    | AddChild(id: string, job: PRJob)
    | Move(id: string, status: Status)
    | Prune(kept: map<string, string>)
    | Retry(id: string)

  /** Only a retry puts a job back into flight, and a child has a parent. */
  ghost predicate Enabled(jobs: Jobs, step: Step) {
    match step
    case Enqueue(repo, pr, sha, id, _, _) => id !in jobs && Trimmed(repo)
    case Continue(repo, pr, sha, id, _) => id !in jobs && Trimmed(repo)
    case AddChild(id, job) => id !in jobs && job.parent != "" && Trimmed(job.repo)
    case Move(id, status) => id in jobs && (InFlight(status) ==> InFlight(jobs[id].status))
    case Prune(kept) => NewestOf(jobs, kept)
    case Retry(id) => id in jobs
  }

  /** What a retry of a top-level job and the continuous path should find: no
      other job in flight for the pull request, or none on the commit. */
  ghost predicate Careful(jobs: Jobs, step: Step)
    requires Enabled(jobs, step)
  {
    match step
    case Retry(id) =>
      jobs[id].parent == "" && jobs[id].pr > 0 && jobs[id].repo != "" ==>
        forall other :: other in jobs && other != id ==> !Counts(jobs, other, jobs[id].repo, jobs[id].pr)
    case Continue(repo, pr, sha, _, _) => !UnderWay(jobs, repo, pr, sha)
    case _ => true
  }

  ghost function Apply(jobs: Jobs, step: Step): Jobs
    requires Enabled(jobs, step)
  {
    match step
    case Enqueue(repo, pr, sha, id, admitted, now) => AfterEnqueue(jobs, repo, pr, sha, id, admitted, now)
    case Continue(repo, pr, sha, id, now) => AfterContinuous(jobs, repo, pr, sha, id, now)
    case AddChild(id, job) => jobs[id := job]
    case Move(id, status) => jobs[id := jobs[id].(status := status)]
    case Prune(kept) => AfterPrune(jobs, kept)
    case Retry(id) => jobs[id := jobs[id].(status := Queued)]
  }

  /** A retry asks nothing about the pull request: it leaves at most one job in
      flight exactly when no other one was. */
  lemma {:induction false} RetryKeepsOneExactly(jobs: Jobs, id: string)
    requires OnePerPR(jobs) && id in jobs
    ensures OnePerPR(Apply(jobs, Retry(id))) <==> Careful(jobs, Retry(id))
  {
    var after, j := Apply(jobs, Retry(id)), jobs[id];
    if Careful(jobs, Retry(id)) {
      forall repo, pr, a, b | pr > 0 && repo != "" && Counts(after, a, repo, pr) && Counts(after, b, repo, pr) ensures a == b {
        assert AtMostOne(jobs, repo, pr);
        assert a != id ==> Counts(jobs, a, repo, pr) && (b == id ==> Counts(jobs, a, j.repo, j.pr));
        assert b != id ==> Counts(jobs, b, repo, pr) && (a == id ==> Counts(jobs, b, j.repo, j.pr));
      }
    } else {
      var other :| other in jobs && other != id && Counts(jobs, other, j.repo, j.pr);
      assert Counts(after, other, j.repo, j.pr) && Counts(after, id, j.repo, j.pr);
      assert !AtMostOne(after, j.repo, j.pr);
    }
  }

  /** Retrying the run that a newer commit superseded. */
  lemma SupersededRunReturns(repo: string, pr: int, now: int)
    requires pr > 0 && Trimmed(repo) && repo != ""
    ensures var jobs := AfterEnqueue(AfterEnqueue(map[], repo, pr, "a", "1", true, now), repo, pr, "b", "2", true, now);
            && OnePerPR(jobs) && Enabled(jobs, Retry("1"))
            && Counts(Apply(jobs, Retry("1")), "1", repo, pr) && Counts(Apply(jobs, Retry("1")), "2", repo, pr)
  {
    TrimmedIsFixed("a");
    TrimmedIsFixed("b");
    TrimmedIsFixed(repo);
    EnqueueKeepsOne(map[], repo, pr, "a", "1", true, now);
    var once := AfterEnqueue(map[], repo, pr, "a", "1", true, now);
    EnqueueKeepsOne(once, repo, pr, "b", "2", true, now);
  }

  lemma MoveKeepsOne(jobs: Jobs, id: string, job: PRJob)
    requires OnePerPR(jobs) && (TopInFlight(job) ==> id in jobs && jobs[id] == job.(status := jobs[id].status) && TopInFlight(jobs[id]))
    ensures OnePerPR(jobs[id := job])
  {
    var after := jobs[id := job];
    forall repo, pr | pr > 0 && repo != "" ensures AtMostOne(after, repo, pr) {
      assert AtMostOne(jobs, repo, pr);
      forall a | Counts(after, a, repo, pr) ensures Counts(jobs, a, repo, pr) {
      }
    }
  }

  ghost predicate ValidRun(jobs: Jobs, steps: seq<Step>)
    decreases |steps|
  {
    steps == [] || (Enabled(jobs, steps[0]) && ValidRun(Apply(jobs, steps[0]), steps[1..]))
  }

  ghost function After(jobs: Jobs, steps: seq<Step>): Jobs
    requires ValidRun(jobs, steps)
    decreases |steps|
  {
    if steps == [] then jobs else After(Apply(jobs, steps[0]), steps[1..])
  }

  ghost predicate CarefulRun(jobs: Jobs, steps: seq<Step>)
    requires ValidRun(jobs, steps)
    decreases |steps|
  {
    steps == [] || (Careful(jobs, steps[0]) && CarefulRun(Apply(jobs, steps[0]), steps[1..]))
  }

  lemma StepKeepsOne(jobs: Jobs, step: Step)
    requires OnePerPR(jobs) && ReposTrimmed(jobs) && Enabled(jobs, step) && Careful(jobs, step)
    ensures OnePerPR(Apply(jobs, step)) && ReposTrimmed(Apply(jobs, step))
  {
    match step
    case Enqueue(repo, pr, sha, id, admitted, now) => EnqueueKeepsOne(jobs, repo, pr, sha, id, admitted, now);
    case Continue(repo, pr, sha, id, now) => ContinuousKeepsOneExactly(jobs, repo, pr, sha, id, now);
    case AddChild(id, job) => MoveKeepsOne(jobs, id, job);
    case Move(id, status) => MoveKeepsOne(jobs, id, jobs[id].(status := status));
    case Prune(kept) => PruneKeepsOne(jobs, kept);
    case Retry(id) => RetryKeepsOneExactly(jobs, id);
  }

  /** In every run of enqueues on both paths, status changes, prunes and retries,
      the continuous enqueues and the retries being careful, each pull request of a
      named repository has at most one top-level job in flight. */
  lemma {:induction false} OneInFlightAlways(jobs: Jobs, steps: seq<Step>)
    requires OnePerPR(jobs) && ReposTrimmed(jobs) && ValidRun(jobs, steps) && CarefulRun(jobs, steps)
    ensures OnePerPR(After(jobs, steps))
    decreases |steps|
  {
    if steps != [] {
      StepKeepsOne(jobs, steps[0]);
      OneInFlightAlways(Apply(jobs, steps[0]), steps[1..]);
    }
  }
}
