// Exact conditions: which plans come to an end, which children never run, what a
// retry takes away, and for which kinds the per-kind limit is enforced.
module RunOutcomes {
  import opened AgentKinds
  import opened RunStatus
  import opened RunScheduler
  import opened RunProgress
  import RunChildren

  // ----- Children that can never run -----

  /** A dependency was never planned, or prepare ended badly. */
  predicate Blocked(status: map<Child, Status>, c: Child) {
    exists d :: d in DependsOn(c.kind) &&
      (Child(c.run, d) !in status ||
       (d == Prepare && Terminal(status[Child(c.run, d)]) && status[Child(c.run, d)] !in {Completed, Skipped}))
  }

  /** Nobody cancels or retries the child, or retries its prepare. */
  predicate LeavesAlone(step: Step, c: Child) {
    step != Cancel(c) && step != Retry(c) && step != Retry(Child(c.run, Prepare))
  }

  lemma BlockedHasNoBody(s: State, c: Child, w: nat)
    requires DepsHeld(s.workers, s.status) && Blocked(s.status, c)
    requires w in s.workers && s.workers[w].child == c
    ensures s.workers[w].phase.Checking? || s.workers[w].phase.Gone?
  {
    assert WorkerDeps(s.status, s.workers[w]);
  }

  /** The only writes to a status are a worker's to its own child, past the
      slot, and those of a cancel and a retry. */
  lemma StatusWrites(conc: int, s: State, step: Step, c: Child)
    requires Enabled(conc, s, step) && c in s.status && step != Cancel(c) && step != Retry(c)
    requires step.Recheck? || step.SelfStatus? || step.Settle? ==> s.workers[step.w].child in s.status
    requires step.Recheck? || step.SelfStatus? || step.Settle? ==> s.workers[step.w].child != c
    ensures Apply(conc, s, step).status.Keys == s.status.Keys
    ensures Apply(conc, s, step).status[c] == s.status[c]
  {
  }

  lemma BlockedStays(conc: int, s: State, step: Step, c: Child)
    requires Inv(conc, s) && Enabled(conc, s, step) && LeavesAlone(step, c)
    requires c in s.status && Blocked(s.status, c)
    ensures Apply(conc, s, step).status.Keys == s.status.Keys
    ensures Apply(conc, s, step).status[c] == s.status[c]
  {
    if (step.Recheck? || step.SelfStatus? || step.Settle?) && s.workers[step.w].child == c {
      BlockedHasNoBody(s, c, step.w);
      assert false;
    }
    StatusWrites(conc, s, step, c);
  }

  lemma PrepareStays(conc: int, s: State, step: Step, c: Child)
    requires Inv(conc, s) && Enabled(conc, s, step) && LeavesAlone(step, c)
    requires Child(c.run, Prepare) in s.status && Terminal(s.status[Child(c.run, Prepare)])
    ensures var prepare := Child(c.run, Prepare);
            prepare in Apply(conc, s, step).status && Apply(conc, s, step).status[prepare] == s.status[prepare]
  {
    if !step.Retry? {
      StepKeepsTerminal(conc, s, step);
    }
  }

  lemma {:induction false} BlockedStep(conc: int, s: State, step: Step, c: Child)
    requires Inv(conc, s) && Enabled(conc, s, step) && LeavesAlone(step, c)
    requires c in s.status && Blocked(s.status, c)
    ensures var t := Apply(conc, s, step); c in t.status && t.status[c] == s.status[c] && Blocked(t.status, c)
  {
    BlockedStays(conc, s, step, c);
    var prepare := Child(c.run, Prepare);
    if prepare in s.status && Terminal(s.status[prepare]) {
      PrepareStays(conc, s, step, c);
    }
  }

  /** Whatever else happens, a blocked child keeps its status until someone
      cancels or retries it, or retries the prepare that blocks it. */
  lemma {:induction false} BlockedNeverRuns(conc: int, s: State, steps: seq<Step>, c: Child)
    requires Inv(conc, s) && ValidRun(conc, s, steps) && CarefulRun(conc, s, steps)
    requires forall i :: 0 <= i < |steps| ==> LeavesAlone(steps[i], c)
    requires c in s.status && Blocked(s.status, c)
    ensures c in After(conc, s, steps).status && After(conc, s, steps).status[c] == s.status[c]
    decreases |steps|
  {
    if steps != [] {
      BlockedStep(conc, s, steps[0], c);
      StepKeepsInv(conc, s, steps[0]);
      BlockedNeverRuns(conc, Apply(conc, s, steps[0]), steps[1..], c);
    }
  }

  // ----- Which plans finish -----

  function PlannedStatus(run: nat, p: RunChildren.Policy): map<Child, Status> {
    map k | k in RunChildren.PlannedKinds(p) ::
      Child(run, k) := if RunChildren.SkippedAtPlanning(p, k) then Skipped else Queued
  }

  /** A process that picks up a run just planned. */
  function PlannedState(run: nat, p: RunChildren.Policy): State {
    State(PlannedStatus(run, p), {}, map[], map[], multiset{}, multiset{})
  }

  /** A run that came to a standstill with no prepare that ended badly. Bodies
      may have failed, skipped themselves, been cancelled and been retried. */
  ghost predicate Exhausted(conc: int, s: State, steps: seq<Step>) {
    && ValidRun(conc, s, steps) && RetriesPlanned(s.status, steps)
    && Stalled(conc, After(conc, s, steps))
    && forall c :: c in s.status ==> !PrepareFailed(After(conc, s, steps).status, c.run)
  }

  predicate AllOver(status: map<Child, Status>) {
    forall c :: c in status ==> Terminal(status[c])
  }

  /** Every exhausted run of a plan ends with every child over if and only if the
      watch policy wants the review or autofix is off: an enabled cloud child waits
      for a bugbot that a policy without review never plans. */
  lemma PlanFinishesExactly(conc: int, run: nat, p: RunChildren.Policy)
    ensures (forall steps :: Exhausted(conc, PlannedState(run, p), steps) ==>
               AllOver(After(conc, PlannedState(run, p), steps).status))
            <==> RunChildren.WantsORAReview(p.checks) || !RunChildren.CloudOn(p)
  {
    var s := PlannedState(run, p);
    if RunChildren.WantsORAReview(p.checks) || !RunChildren.CloudOn(p) {
      PlannedIsClosed(run, p);
      forall steps | Exhausted(conc, s, steps) ensures AllOver(After(conc, s, steps).status) {
        FreshInv(conc, s);
        StandstillIsTheEnd(conc, s, steps);
        RunKeepsKeys(conc, s, steps);
      }
    } else {
      var steps := ExhaustedRunExists(conc, run, p);
      CloudWaitsForever(conc, run, p, steps);
    }
  }

  lemma CloudWaitsForever(conc: int, run: nat, p: RunChildren.Policy, steps: seq<Step>)
    requires !RunChildren.WantsORAReview(p.checks) && RunChildren.CloudOn(p)
    requires ValidRun(conc, PlannedState(run, p), steps) && CarefulRun(conc, PlannedState(run, p), steps)
    requires forall i :: 0 <= i < |steps| ==> LeavesAlone(steps[i], Child(run, Cloud))
    ensures !AllOver(After(conc, PlannedState(run, p), steps).status)
  {
    var s, c := PlannedState(run, p), Child(run, Cloud);
    FreshInv(conc, s);
    RunChildren.PlannedKindsLaws(p);
    assert Cloud in RunChildren.PlannedKinds(p) && Bugbot !in RunChildren.PlannedKinds(p);
    assert Bugbot in DependsOn(Cloud) && Child(run, Bugbot) !in s.status;
    BlockedNeverRuns(conc, s, steps, c);
  }

  /** Such runs exist for every plan, by the parent loop alone. */
  lemma {:induction false} ExhaustedRunExists(conc: int, run: nat, p: RunChildren.Policy) returns (steps: seq<Step>)
    ensures Exhausted(conc, PlannedState(run, p), steps) && CarefulRun(conc, PlannedState(run, p), steps)
    ensures forall i :: 0 <= i < |steps| ==> !steps[i].Cancel? && !steps[i].Retry?
  {
    var s := PlannedState(run, p);
    FreshInv(conc, s);
    RunChildren.PlannedKindsLaws(p);
    var t := StandstillIsReachable(conc, s);
    steps :| ValidRun(conc, s, steps) && LoopRun(conc, s, steps) && After(conc, s, steps) == t;
    LoopRunIsPlain(conc, s, steps);
    RetrylessIsCareful(conc, s, steps);
  }

  /** However it goes, a plan costs at most one body per child and per retry. */
  lemma PlanCostsOneBodyEach(conc: int, run: nat, p: RunChildren.Policy, steps: seq<Step>)
    requires ValidRun(conc, PlannedState(run, p), steps)
    ensures var t := After(conc, PlannedState(run, p), steps);
            |t.bodies| <= |RunChildren.PlannedKinds(p)| + |t.retries|
  {
    var s := PlannedState(run, p);
    var t := After(conc, s, steps);
    assert Reachable(conc, t);
    BodiesCountedByRetries(conc, t);
    RunKeepsKeys(conc, s, steps);
    RunChildren.PlannedKindsLaws(p);
    PlannedCount(run, p);
  }

  lemma PlannedCount(run: nat, p: RunChildren.Policy)
    ensures |PlannedStatus(run, p)| <= |RunChildren.PlannedKinds(p)|
  {
    var kinds := RunChildren.PlannedKinds(p);
    AtMostListed(run, kinds, PlannedStatus(run, p).Keys);
  }

  lemma {:induction false} AtMostListed(run: nat, kinds: seq<Kind>, keys: set<Child>)
    requires forall c :: c in keys ==> c.run == run && c.kind in kinds
    ensures |keys| <= |kinds|
    decreases |kinds|
  {
    if kinds == [] {
      assert keys == {};
    } else {
      AtMostListed(run, kinds[1..], keys - {Child(run, kinds[0])});
    }
  }

  lemma {:induction false} RunKeepsKeys(conc: int, s: State, steps: seq<Step>)
    requires ValidRun(conc, s, steps) && Core(conc, s)
    ensures After(conc, s, steps).status.Keys == s.status.Keys
    decreases |steps|
  {
    if steps != [] {
      StepKeepsCore(conc, s, steps[0]);
      if !steps[0].Retry? {
        StepKeepsTerminal(conc, s, steps[0]);
      }
      RunKeepsKeys(conc, Apply(conc, s, steps[0]), steps[1..]);
    }
  }

  lemma {:induction false} PlannedIsClosed(run: nat, p: RunChildren.Policy)
    requires RunChildren.WantsORAReview(p.checks) || !RunChildren.CloudOn(p)
    ensures Closed(PlannedStatus(run, p))
  {
    var status := PlannedStatus(run, p);
    RunChildren.PlannedKindsLaws(p);
    forall c, d | c in status && !Terminal(status[c]) && d in DependsOn(c.kind)
      ensures Child(c.run, d) in status
    {
      assert c.kind in RunChildren.PlannedKinds(p) && c.run == run;
      assert d in RunChildren.PlannedKinds(p);
    }
  }

  lemma {:induction false} LoopRunIsPlain(conc: int, s: State, steps: seq<Step>)
    requires ValidRun(conc, s, steps) && LoopRun(conc, s, steps)
    ensures forall i :: 0 <= i < |steps| ==> !steps[i].Cancel? && !steps[i].Retry?
    decreases |steps|
  {
    if steps != [] {
      LoopRunIsPlain(conc, Apply(conc, s, steps[0]), steps[1..]);
      assert forall i :: 0 < i < |steps| ==> steps[i] == steps[1..][i - 1];
    }
  }

  // ----- The limit that is enforced -----

  function With(s: State, w: nat, c: Child, p: Phase): State {
    s.(workers := s.workers[w := Worker(c, p)])
  }

  lemma CheckMoves(conc: int, s: State, w: nat, c: Child, n: nat)
    requires Reachable(conc, With(s, w, c, Checking(n))) && Ready(s.status, c) && n <= |DependsOn(c.kind)|
    ensures Reachable(conc, With(s, w, c, if n == |DependsOn(c.kind)| then Admitted else Checking(n + 1)))
  {
    var t := With(s, w, c, Checking(n));
    ReachableStep(conc, t, CheckDep(w));
    assert n < |DependsOn(c.kind)| ==> DependsOn(c.kind)[n] in DependsOn(c.kind);
    var u := With(s, w, c, if n == |DependsOn(c.kind)| then Admitted else Checking(n + 1));
    assert Apply(conc, t, CheckDep(w)).workers == u.workers;
    assert Apply(conc, t, CheckDep(w)) == u;
  }

  lemma {:induction false} ChecksPass(conc: int, s: State, w: nat, c: Child, n: nat)
    requires Reachable(conc, With(s, w, c, Checking(n))) && Ready(s.status, c) && n <= |DependsOn(c.kind)|
    ensures Reachable(conc, With(s, w, c, Admitted))
    decreases |DependsOn(c.kind)| - n
  {
    CheckMoves(conc, s, w, c, n);
    if n < |DependsOn(c.kind)| {
      ChecksPass(conc, s, w, c, n + 1);
    }
  }

  function Occupying(s: State, w: nat, c: Child): State {
    With(s, w, c, Slotted).(
      processing := s.processing + {c},
      inUse := s.inUse[PoolOf(c.kind) := Used(s.inUse, PoolOf(c.kind)) + 1])
  }

  /** A worker on a ready, unclaimed child gets a free slot. */
  lemma WorkerGetsSlot(conc: int, s: State, w: nat, c: Child)
    requires Reachable(conc, s) && w !in s.workers && c in s.status
    requires Ready(s.status, c) && c !in s.processing
    requires Used(s.inUse, PoolOf(c.kind)) < Capacity(PoolOf(c.kind), conc)
    ensures Reachable(conc, Occupying(s, w, c))
  {
    ReachableStep(conc, s, Spawn(w, c));
    assert Apply(conc, s, Spawn(w, c)) == With(s, w, c, Checking(0));
    ChecksPass(conc, s, w, c, 0);
    ClaimAndAcquire(conc, s, w, c);
  }

  function Holding(s: State, w: nat, c: Child): State {
    With(s, w, c, Claimed).(processing := s.processing + {c})
  }

  lemma TakesClaim(conc: int, s: State, w: nat, c: Child)
    requires Reachable(conc, With(s, w, c, Admitted)) && c !in s.processing
    ensures Reachable(conc, Holding(s, w, c))
  {
    var admitted := With(s, w, c, Admitted);
    ReachableStep(conc, admitted, Claim(w));
    assert Apply(conc, admitted, Claim(w)).workers == Holding(s, w, c).workers;
  }

  lemma ClaimAndAcquire(conc: int, s: State, w: nat, c: Child)
    requires Reachable(conc, With(s, w, c, Admitted)) && c !in s.processing
    requires Used(s.inUse, PoolOf(c.kind)) < Capacity(PoolOf(c.kind), conc)
    ensures Reachable(conc, Occupying(s, w, c))
  {
    TakesClaim(conc, s, w, c);
    var claimed := Holding(s, w, c);
    ReachableStep(conc, claimed, Acquire(w));
    assert Apply(conc, claimed, Acquire(w)).workers == Occupying(s, w, c).workers;
  }

  // ----- What a retry takes away -----

  /** A worker past its slot starts the body of an open child. */
  function Started(s: State, w: nat, c: Child): State {
    With(Occupying(s, w, c), w, c, Executing).(status := s.status[c := Running], bodies := s.bodies + multiset{c})
  }

  lemma WorkerStarts(conc: int, s: State, w: nat, c: Child)
    requires Reachable(conc, s) && w !in s.workers && c in s.status && !Terminal(s.status[c])
    requires Ready(s.status, c) && c !in s.processing
    requires Used(s.inUse, PoolOf(c.kind)) < Capacity(PoolOf(c.kind), conc)
    ensures Reachable(conc, Started(s, w, c))
  {
    WorkerGetsSlot(conc, s, w, c);
    var slotted := Occupying(s, w, c);
    ReachableStep(conc, slotted, Recheck(w));
    assert Apply(conc, slotted, Recheck(w)).workers == Started(s, w, c).workers;
  }

  /** A body under way keeps running when its prepare is retried. */
  lemma RetryUnderABody(conc: int) returns (s: State, w: nat)
    ensures Reachable(conc, s) && Phased(s, w, Executing)
    ensures s.workers[w].child == Child(0, Bugbot) && Child(0, Prepare) in s.status && s.status[Child(0, Prepare)] == Queued
  {
    var c, prepare := Child(0, Bugbot), Child(0, Prepare);
    var boot := State(map[prepare := Completed, c := Queued], {}, map[], map[], multiset{}, multiset{});
    assert Fresh(boot) && ValidRun(conc, boot, []) && After(conc, boot, []) == boot;
    w := 0;
    WorkerStarts(conc, boot, w, c);
    var started := Started(boot, w, c);
    ReachableStep(conc, started, Retry(prepare));
    s := Apply(conc, started, Retry(prepare));
  }

  /** The body returns and its worker leaves. */
  lemma WorkerLeaves(conc: int, s: State, w: nat) returns (t: State)
    requires Reachable(conc, s) && Phased(s, w, Executing) && s.workers[w].child in s.status
    requires s.status[s.workers[w].child] == Running
    ensures Reachable(conc, t) && t.bodies == s.bodies && t.retries == s.retries
    ensures t.status == s.status[s.workers[w].child := Completed]
    ensures t.processing == s.processing - {s.workers[w].child} && t.workers.Keys == s.workers.Keys
    ensures Used(t.inUse, PoolOf(s.workers[w].child.kind)) == Used(s.inUse, PoolOf(s.workers[w].child.kind)) - 1
  {
    var p := PoolOf(s.workers[w].child.kind);
    ReachableCore(conc, s);
    assert Used(s.inUse, p) == |Occupants(s.workers, p)| && w in Occupants(s.workers, p);
    ReachableStep(conc, s, Return(w, false));
    var returned := Apply(conc, s, Return(w, false));
    ReachableStep(conc, returned, Settle(w));
    var settled := Apply(conc, returned, Settle(w));
    ReachableStep(conc, settled, ReleaseSlot(w));
    var unslotted := Apply(conc, settled, ReleaseSlot(w));
    ReachableStep(conc, unslotted, ReleaseClaim(w));
    t := Apply(conc, unslotted, ReleaseClaim(w));
  }

  /** One prepare, tried n times so far. */
  ghost predicate Tried(s: State, n: nat, now: Status) {
    var c := Child(0, Prepare);
    && s.status == map[c := now] && s.processing == {} && Used(s.inUse, KindPool(Prepare)) == 0
    && s.bodies == multiset{}[c := n]
  }

  lemma {:induction false} TryOnce(conc: int, s: State, n: nat) returns (t: State)
    requires Reachable(conc, s) && Tried(s, n, Queued)
    ensures Reachable(conc, t) && Tried(t, n + 1, Completed) && t.retries == s.retries
  {
    var c := Child(0, Prepare);
    var w := FreshWorker(s.workers.Keys);
    WorkerStarts(conc, s, w, c);
    t := WorkerLeaves(conc, Started(s, w, c), w);
  }

  /** The bound on bodies is attained: with n retries a body can run n + 1 times. */
  lemma {:induction false} EveryRetryCanRunAgain(conc: int, n: nat) returns (s: State)
    ensures Reachable(conc, s) && Tried(s, n + 1, Completed)
    ensures s.retries == multiset{}[Child(0, Prepare) := n]
    decreases n
  {
    var c := Child(0, Prepare);
    var queued: State;
    if n == 0 {
      queued := State(map[c := Queued], {}, map[], map[], multiset{}, multiset{});
      assert Fresh(queued) && ValidRun(conc, queued, []) && After(conc, queued, []) == queued;
    } else {
      var before := EveryRetryCanRunAgain(conc, n - 1);
      ReachableStep(conc, before, Retry(c));
      queued := Apply(conc, before, Retry(c));
    }
    s := TryOnce(conc, queued, n);
  }

  // ----- The limits of the issue kinds -----

  /** Two issue runs that have just reached kind k. */
  function TwoIssueRuns(k: Kind): State {
    var done := map[
      Child(0, IssuePrepare) := Completed, Child(1, IssuePrepare) := Completed,
      Child(0, IssueInvestigate) := Completed, Child(1, IssueInvestigate) := Completed,
      Child(0, IssuePublish) := Completed, Child(1, IssuePublish) := Completed];
    State(done[Child(0, k) := Queued][Child(1, k) := Queued], {}, map[], map[], multiset{}, multiset{})
  }

  lemma TwoIssueRunsStart(conc: int, k: Kind)
    requires !IsPRKind(k)
    ensures Reachable(conc, TwoIssueRuns(k))
    ensures Ready(TwoIssueRuns(k).status, Child(0, k)) && Ready(TwoIssueRuns(k).status, Child(1, k))
  {
    var s := TwoIssueRuns(k);
    assert Fresh(s) && ValidRun(conc, s, []) && After(conc, s, []) == s;
  }

  lemma TwoWorkersFit(conc: int, s: State, a: Child, b: Child) returns (t: State)
    requires Reachable(conc, s) && Fresh(s) && a != b && a.kind == b.kind
    requires a in s.status && b in s.status && Ready(s.status, a) && Ready(s.status, b)
    requires Capacity(PoolOf(a.kind), conc) >= 2
    ensures Reachable(conc, t)
    ensures Slots(t, a.kind) == {0, 1}
  {
    WorkerGetsSlot(conc, s, 0, a);
    var t1 := Occupying(s, 0, a);
    assert t1.processing == {a} && Used(t1.inUse, PoolOf(b.kind)) == 1;
    WorkerGetsSlot(conc, t1, 1, b);
    t := Occupying(t1, 1, b);
    assert t.workers == map[0 := Worker(a, Slotted), 1 := Worker(b, Slotted)];
  }

  lemma TwoIssueWorkers(conc: int, k: Kind) returns (t: State)
    requires !IsPRKind(k) && ProcessConcurrency(conc) >= 2
    ensures Reachable(conc, t) && |Slots(t, k)| > KindConcurrency(k, conc)
  {
    TwoIssueRunsStart(conc, k);
    t := TwoWorkersFit(conc, TwoIssueRuns(k), Child(0, k), Child(1, k));
  }

  /** The kinds of a PR run never exceed their own limit. The issue kinds have
      no channel: they share the process-wide one, and their own limit of one is
      only kept when the process concurrency is one. */
  lemma KindLimitHoldsExactly(conc: int, k: Kind)
    ensures (forall s :: Reachable(conc, s) ==> |Slots(s, k)| <= KindConcurrency(k, conc))
            <==> IsPRKind(k) || ProcessConcurrency(conc) == 1
  {
    forall s | Reachable(conc, s) ensures |Slots(s, k)| <= Capacity(PoolOf(k), conc) {
      SlotBound(conc, s, k);
    }
    if !IsPRKind(k) && ProcessConcurrency(conc) >= 2 {
      var t := TwoIssueWorkers(conc, k);
    }
  }

  // ----- How many run at once -----

  /** The most workers of a kind that are ever past their slot together. */
  function MostAtOnce(k: Kind, configured: int): nat {
    if k in {Prepare, Approval, Cloud} then 2
    else if configured < 1 then 1 else if configured > 4 then 4 else configured
  }

  const KINDS: set<Kind> := {Prepare, Security, Bugbot, Checkup, Approval, Cloud,
                             IssuePrepare, IssueInvestigate, IssuePublish, IssueImplement}

  lemma EveryKind(d: Kind)
    ensures d in KINDS
  {
    match d
    case Prepare =>
    case Security =>
    case Bugbot =>
    case Checkup =>
    case Approval =>
    case Cloud =>
    case IssuePrepare =>
    case IssueInvestigate =>
    case IssuePublish =>
    case IssueImplement =>
  }

  /** As many runs as asked for that have just reached kind k. */
  function RunsAt(k: Kind, n: nat): State {
    var children := set r, d | 0 <= r < n && d in KINDS :: Child(r, d);
    State(map c | c in children :: if c.kind == k then Queued else Completed, {}, map[], map[], multiset{}, multiset{})
  }

  lemma RunsAreReady(k: Kind, n: nat, r: nat)
    requires r < n
    ensures var s := RunsAt(k, n); Child(r, k) in s.status && Ready(s.status, Child(r, k))
  {
    var s, c := RunsAt(k, n), Child(r, k);
    forall d: Kind ensures Child(r, d) in s.status && s.status[Child(r, d)] == if d == k then Queued else Completed {
      EveryKind(d);
    }
    forall d | d in DependsOn(k) ensures DepOk(s.status, c, d) {
      assert d != k;
    }
  }

  /** One worker on each of the first m runs, past its slot. */
  ghost predicate Filled(s: State, k: Kind, n: nat, m: nat) {
    && s.status == RunsAt(k, n).status && Used(s.inUse, PoolOf(k)) == m
    && (forall w: nat :: w in s.workers <==> w < m)
    && (forall w :: w in s.workers ==> s.workers[w] == Worker(Child(w, k), Slotted))
    && (forall c :: c in s.processing ==> c.run < m)
  }

  lemma {:induction false} FillOne(before: State, k: Kind, n: nat, m: nat)
    requires Filled(before, k, n, m)
    ensures Filled(Occupying(before, m, Child(m, k)), k, n, m + 1)
  {
  }

  lemma {:induction false} FillSlots(conc: int, k: Kind, n: nat, m: nat) returns (s: State)
    requires m <= n && n <= Capacity(PoolOf(k), conc)
    ensures Reachable(conc, s) && Filled(s, k, n, m)
    decreases m
  {
    if m == 0 {
      s := RunsAt(k, n);
      assert Fresh(s) && ValidRun(conc, s, []) && After(conc, s, []) == s;
    } else {
      var before := FillSlots(conc, k, n, m - 1);
      RunsAreReady(k, n, m - 1);
      assert m - 1 !in before.workers && Child(m - 1, k) !in before.processing;
      WorkerGetsSlot(conc, before, m - 1, Child(m - 1, k));
      FillOne(before, k, n, m - 1);
      s := Occupying(before, m - 1, Child(m - 1, k));
    }
  }

  lemma CountTo(s: set<nat>, n: nat)
    requires forall w: nat :: w in s <==> w < n
    ensures |s| == n
    decreases n
  {
    if n > 0 {
      CountTo(s - {n - 1}, n - 1);
    }
  }

  lemma MostIsCapacity(k: Kind, conc: int)
    ensures MostAtOnce(k, conc) == Capacity(PoolOf(k), conc)
  {
  }

  /** No reachable state has more workers of a kind past their slot than that many,
      and one has exactly as many: two prepares, approvals or cloud children, and
      of every other kind as many as the process is configured for, one to four. */
  lemma {:induction false} MostAtOnceExactly(conc: int, k: Kind) returns (s: State)
    ensures Reachable(conc, s) && |Slots(s, k)| == MostAtOnce(k, conc)
    ensures forall t :: Reachable(conc, t) ==> |Slots(t, k)| <= MostAtOnce(k, conc)
  {
    var n := MostAtOnce(k, conc);
    MostIsCapacity(k, conc);
    s := FillSlots(conc, k, n, n);
    forall w: nat ensures w in Slots(s, k) <==> w < n {
      assert w in s.workers ==> s.workers[w] == Worker(Child(w, k), Slotted);
    }
    CountTo(Slots(s, k), n);
    forall t | Reachable(conc, t) ensures |Slots(t, k)| <= n {
      SlotBound(conc, t, k);
    }
  }

  // ----- Lists of children and the step relation -----

  /** The step relation's view of a run's listing. */
  ghost predicate Represents(status: map<Child, Status>, run: nat, children: seq<RunChildren.Job>) {
    forall k ::
      && (Child(run, k) in status <==> RunChildren.HasKind(children, k))
      && (RunChildren.HasKind(children, k) ==>
            status[Child(run, k)] == RunChildren.FirstOfKind(children, k)[0].status)
  }

  /** The worker's readiness test over the listing is readiness over the map,
      and with one child per kind the parent loop selects accordingly. */
  lemma ListingAgreesWithMap(status: map<Child, Status>, run: nat, children: seq<RunChildren.Job>, c: RunChildren.Job)
    requires Represents(status, run, children)
    requires RunChildren.OneChildPerKind(children) && c in children
    ensures c in RunChildren.Selected(RunChildren.LastOfKind(children), children) <==>
            Startable(status[Child(run, c.kind)]) && Ready(status, Child(run, c.kind))
  {
    RunChildren.SelectionAgreesWithReadiness(children, c);
    RunChildren.InHasKind(children, c);
    assert RunChildren.FirstOfKind(children, c.kind)[0] == c by {
      var f := RunChildren.FirstOfKind(children, c.kind)[0];
      var i :| 0 <= i < |children| && children[i] == c;
      var j :| 0 <= j < |children| && children[j] == f;
      assert i == j;
    }
    forall d | d in DependsOn(c.kind)
      ensures DepOk(status, Child(run, c.kind), d) <==>
              RunChildren.FirstOfKind(children, d) != [] &&
              RunChildren.DependencyMet(RunChildren.FirstOfKind(children, d)[0], d)
    {
    }
  }
}
