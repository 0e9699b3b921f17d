// The run-graph scheduler as a step relation: any number of workers, each
// carrying one child through readiness check, claim, slot, recheck, body and
// release, interleaved with cancels and retries (run_graph.go,
// run_semaphores.go, scm_orchestrator.go).
module RunScheduler {
  import opened AgentKinds
  import opened RunStatus
  import opened Sets

  /** A child is identified by its run and its kind: its id is an (injective)
      hash of exactly those two. */
  datatype Child = Child(run: nat, kind: Kind)

  /** How far one call of processAgentChild has come. Checking(n) has seen the
      first n dependencies satisfied; each of them is read in a step of its own. */
  datatype Phase =
    | Checking(next: nat) | Admitted | Claimed | Slotted
    | Executing | Returned(failed: bool) | Settled | Unslotted | Gone

  datatype Worker = Worker(child: Child, phase: Phase)

  datatype State = State(
    status: map<Child, Status>,
    processing: set<Child>,
    inUse: map<Pool, nat>,
    workers: map<nat, Worker>,
    bodies: multiset<Child>,   // every body ever started, counted
    retries: multiset<Child>)  // every retry ever asked for, counted

  datatype Step =
    | Spawn(w: nat, c: Child)
    | CheckDep(w: nat)
    | Claim(w: nat)
    | Acquire(w: nat)
    | Recheck(w: nat)
    | SelfStatus(w: nat, to: Status)
    | Return(w: nat, failed: bool)
    | Settle(w: nat)
    | ReleaseSlot(w: nat)
    | ReleaseClaim(w: nat)
    | Cancel(c: Child)
    | Retry(c: Child)

  /** The statuses a body may give its own job before it returns. */
  function SelfStatuses(k: Kind): set<Status> {
    match k
    case Approval => {Skipped, Cancelled}
    case Cloud => {Skipped}
    case Checkup => {Skipped}
    case IssueImplement => {Skipped}
    case _ => {}
  }

  predicate Holds(p: Phase) {
    p.Claimed? || p.Slotted? || p.Executing? || p.Returned? || p.Settled? || p.Unslotted?
  }

  predicate PastSlot(p: Phase) {
    p.Slotted? || p.Executing? || p.Returned? || p.Settled?
  }

  predicate InBody(p: Phase) {
    p.Executing? || p.Returned?
  }

  function Used(inUse: map<Pool, nat>, p: Pool): nat {
    if p in inUse then inUse[p] else 0
  }

  /** A dependency lets its dependents run: it exists, it is over, and prepare
      moreover ended well. */
  predicate DepOk(status: map<Child, Status>, c: Child, d: Kind) {
    var dep := Child(c.run, d);
    && dep in status
    && Terminal(status[dep])
    && (d == Prepare ==> status[dep] in {Completed, Skipped})
  }

  predicate Ready(status: map<Child, Status>, c: Child) {
    forall d :: d in DependsOn(c.kind) ==> DepOk(status, c, d)
  }

  predicate Phased(s: State, w: nat, p: Phase) {
    w in s.workers && s.workers[w].phase == p
  }

  predicate Enabled(conc: int, s: State, step: Step) {
    match step
    case Spawn(w, c) => w !in s.workers && c in s.status
    case CheckDep(w) =>
      && w in s.workers && s.workers[w].phase.Checking?
    case Claim(w) => Phased(s, w, Admitted)
    case Acquire(w) =>
      && Phased(s, w, Claimed)
      && var p := PoolOf(s.workers[w].child.kind);
      Used(s.inUse, p) < Capacity(p, conc)
    case Recheck(w) => Phased(s, w, Slotted) && s.workers[w].child in s.status
    case SelfStatus(w, to) =>
      && Phased(s, w, Executing)
      && to in SelfStatuses(s.workers[w].child.kind)
    case Return(w, failed) => Phased(s, w, Executing)
    case Settle(w) =>
      && w in s.workers && s.workers[w].phase.Returned?
      && s.workers[w].child in s.status
    case ReleaseSlot(w) =>
      && Phased(s, w, Settled)
      && Used(s.inUse, PoolOf(s.workers[w].child.kind)) > 0
    case ReleaseClaim(w) => Phased(s, w, Unslotted)
    case Cancel(c) => c in s.status && s.status[c] in {Queued, Waiting, Running}
    case Retry(c) => c in s.status
  }

  function Moved(s: State, w: nat, p: Phase): State
    requires w in s.workers
  {
    s.(workers := s.workers[w := s.workers[w].(phase := p)])
  }

  /** What one atomic step does. */
  function Apply(conc: int, s: State, step: Step): State
    requires Enabled(conc, s, step)
  {
    match step
    case Spawn(w, c) => s.(workers := s.workers[w := Worker(c, Checking(0))])
    case CheckDep(w) =>
      var c, n := s.workers[w].child, s.workers[w].phase.next;
      var deps := DependsOn(c.kind);
      if n >= |deps| then Moved(s, w, Admitted)
      else if DepOk(s.status, c, deps[n]) then Moved(s, w, Checking(n + 1))
      else Moved(s, w, Gone)
    case Claim(w) =>
      var c := s.workers[w].child;
      if c in s.processing then Moved(s, w, Gone)
      else Moved(s, w, Claimed).(processing := s.processing + {c})
    case Acquire(w) =>
      var p := PoolOf(s.workers[w].child.kind);
      Moved(s, w, Slotted).(inUse := s.inUse[p := Used(s.inUse, p) + 1])
    case Recheck(w) =>
      var c := s.workers[w].child;
      if Terminal(s.status[c]) then Moved(s, w, Settled)
      else Moved(s, w, Executing).(status := s.status[c := Running], bodies := s.bodies + multiset{c})
    case SelfStatus(w, to) => s.(status := s.status[s.workers[w].child := to])
    case Return(w, failed) => Moved(s, w, Returned(failed))
    case Settle(w) =>
      var c := s.workers[w].child;
      var before := s.status[c];
      var final :=
        if before == Cancelled then Cancelled
        else if s.workers[w].phase.failed then Failed
        else if before == Skipped then Skipped
        else Completed;
      Moved(s, w, Settled).(status := s.status[c := final])
    case ReleaseSlot(w) =>
      var p := PoolOf(s.workers[w].child.kind);
      Moved(s, w, Unslotted).(inUse := s.inUse[p := s.inUse[p] - 1])
    case ReleaseClaim(w) =>
      Moved(s, w, Gone).(processing := s.processing - {s.workers[w].child})
    case Cancel(c) => s.(status := s.status[c := Cancelled])
    case Retry(c) => s.(status := s.status[c := Queued], retries := s.retries + multiset{c})
  }

  // ----- Runs -----

  /** A process that has just started: no worker, no claim, no slot taken. The
      statuses are whatever the persisted rows say. */
  predicate Fresh(s: State) {
    && s.workers == map[]
    && s.processing == {}
    && s.inUse == map[]
    && s.bodies == multiset{}
    && s.retries == multiset{}
  }

  ghost predicate ValidRun(conc: int, s: State, steps: seq<Step>)
    decreases |steps|
  {
    steps == [] || (Enabled(conc, s, steps[0]) && ValidRun(conc, Apply(conc, s, steps[0]), steps[1..]))
  }

  ghost function After(conc: int, s: State, steps: seq<Step>): State
    requires ValidRun(conc, s, steps)
    decreases |steps|
  {
    if steps == [] then s else After(conc, Apply(conc, s, steps[0]), steps[1..])
  }

  /** The worker has seen c satisfied and has not left. */
  predicate Relies(v: Worker, c: Child) {
    && v.child.run == c.run && c.kind in DependsOn(v.child.kind)
    && match v.phase
       case Checking(n) => exists i :: 0 <= i < n && i < |DependsOn(v.child.kind)| && DependsOn(v.child.kind)[i] == c.kind
       case Gone => false
       case _ => true
  }

  /** A retry while no worker relies on the child; any other step. */
  predicate Careful(s: State, step: Step) {
    step.Retry? ==> forall w :: w in s.workers ==> !Relies(s.workers[w], step.c)
  }

  ghost predicate CarefulRun(conc: int, s: State, steps: seq<Step>)
    requires ValidRun(conc, s, steps)
    decreases |steps|
  {
    steps == [] || (Careful(s, steps[0]) && CarefulRun(conc, Apply(conc, s, steps[0]), steps[1..]))
  }

  predicate NoRetries(steps: seq<Step>) {
    forall i :: 0 <= i < |steps| ==> !steps[i].Retry?
  }

  ghost predicate Reachable(conc: int, s: State) {
    exists s0, steps :: Fresh(s0) && ValidRun(conc, s0, steps) && After(conc, s0, steps) == s
  }

  ghost predicate CarefullyReachable(conc: int, s: State) {
    exists s0, steps :: Fresh(s0) && ValidRun(conc, s0, steps) && CarefulRun(conc, s0, steps) && After(conc, s0, steps) == s
  }

  lemma {:induction false} RunAppend(conc: int, s: State, steps: seq<Step>, step: Step)
    requires ValidRun(conc, s, steps) && Enabled(conc, After(conc, s, steps), step)
    ensures ValidRun(conc, s, steps + [step])
    ensures After(conc, s, steps + [step]) == Apply(conc, After(conc, s, steps), step)
    decreases |steps|
  {
    if steps == [] {
      assert [] + [step] == [step];
      var t := Apply(conc, s, step);
      assert ValidRun(conc, t, []) && After(conc, t, []) == t;
      assert [step][1..] == [];
    } else {
      RunAppend(conc, Apply(conc, s, steps[0]), steps[1..], step);
      assert (steps + [step])[1..] == steps[1..] + [step];
    }
  }

  lemma ReachableStep(conc: int, s: State, step: Step)
    requires Reachable(conc, s) && Enabled(conc, s, step)
    ensures Reachable(conc, Apply(conc, s, step))
  {
    var s0, steps :| Fresh(s0) && ValidRun(conc, s0, steps) && After(conc, s0, steps) == s;
    RunAppend(conc, s0, steps, step);
    assert ValidRun(conc, s0, steps + [step]);
  }

  // ----- The inductive invariant -----

  function Occupants(workers: map<nat, Worker>, p: Pool): set<nat> {
    set w | w in workers && PastSlot(workers[w].phase) && PoolOf(workers[w].child.kind) == p
  }

  ghost predicate ClaimsExact(workers: map<nat, Worker>, processing: set<Child>) {
    && (forall w :: w in workers && Holds(workers[w].phase) ==> workers[w].child in processing)
    && (forall v, w :: v in workers && w in workers && v != w
                       && Holds(workers[v].phase) && Holds(workers[w].phase) ==>
          workers[v].child != workers[w].child)
    && (forall c :: c in processing ==> exists w :: HolderOf(workers, w, c))
  }

  predicate HolderOf(workers: map<nat, Worker>, w: nat, c: Child) {
    w in workers && Holds(workers[w].phase) && workers[w].child == c
  }

  ghost predicate SlotsExact(conc: int, workers: map<nat, Worker>, inUse: map<Pool, nat>) {
    forall p :: Used(inUse, p) == |Occupants(workers, p)| <= Capacity(p, conc)
  }

  predicate BodyOf(workers: map<nat, Worker>, w: nat, c: Child) {
    w in workers && InBody(workers[w].phase) && workers[w].child == c
  }

  /** A body runs on a job that says so, unless it was cancelled or retried or
      gave itself a status. A child whose every start so far is used up, its
      first and one for each retry, is over or still running. */
  ghost predicate BodiesExact(workers: map<nat, Worker>, status: map<Child, Status>, bodies: multiset<Child>, retries: multiset<Child>) {
    && (forall w :: w in workers ==> workers[w].child in status)
    && (forall w :: w in workers && InBody(workers[w].phase) ==>
          status[workers[w].child] in {Running, Queued, Cancelled} + SelfStatuses(workers[w].child.kind))
    && (forall c :: c in bodies ==> c in status)
    && (forall c :: c in status ==> bodies[c] <= 1 + retries[c])
    && (forall c :: c in status && bodies[c] == 1 + retries[c] ==>
          Terminal(status[c]) || exists w :: BodyOf(workers, w, c))
  }

  ghost predicate WorkerDeps(status: map<Child, Status>, w: Worker) {
    match w.phase
    case Checking(n) =>
      && n <= |DependsOn(w.child.kind)|
      && forall i :: 0 <= i < n ==> DepOk(status, w.child, DependsOn(w.child.kind)[i])
    case Gone => true
    case _ => Ready(status, w.child)
  }

  ghost predicate DepsHeld(workers: map<nat, Worker>, status: map<Child, Status>) {
    forall w :: w in workers ==> WorkerDeps(status, workers[w])
  }

  /** What every step keeps. */
  ghost predicate Core(conc: int, s: State) {
    && ClaimsExact(s.workers, s.processing)
    && SlotsExact(conc, s.workers, s.inUse)
    && BodiesExact(s.workers, s.status, s.bodies, s.retries)
  }

  /** What every careful step keeps. */
  ghost predicate Inv(conc: int, s: State) {
    Core(conc, s) && DepsHeld(s.workers, s.status)
  }

  /** What is over stays over, and with the very same status where the body
      does not set one itself (prepare among them). */
  ghost predicate StatusesStable(a: map<Child, Status>, b: map<Child, Status>) {
    && a.Keys == b.Keys
    && (forall c :: c in a && Terminal(a[c]) ==> Terminal(b[c]))
    && (forall c :: c in a && Terminal(a[c]) && SelfStatuses(c.kind) == {} ==> b[c] == a[c])
  }

  lemma WriteKeepsTerminal(status: map<Child, Status>, c: Child, to: Status)
    requires c in status
    requires Terminal(status[c]) ==> Terminal(to) && (SelfStatuses(c.kind) == {} ==> to == status[c])
    ensures StatusesStable(status, status[c := to])
  {
  }

  lemma {:induction false} StepKeepsTerminal(conc: int, s: State, step: Step)
    requires Enabled(conc, s, step) && !step.Retry? && BodiesExact(s.workers, s.status, s.bodies, s.retries)
    ensures StatusesStable(s.status, Apply(conc, s, step).status)
  {
    var t := Apply(conc, s, step);
    match step
    case Cancel(c) => WriteKeepsTerminal(s.status, c, t.status[c]);
    case SelfStatus(w, to) => WriteKeepsTerminal(s.status, s.workers[w].child, to);
    case Settle(w) => WriteKeepsTerminal(s.status, s.workers[w].child, t.status[s.workers[w].child]);
    case Recheck(w) =>
      if !Terminal(s.status[s.workers[w].child]) {
        WriteKeepsTerminal(s.status, s.workers[w].child, Running);
      }
    case _ =>
  }

  // Claims: a worker that moves without taking or dropping its claim, one that
  // takes a free claim, one that drops its own.

  lemma MoveKeepsClaims(workers: map<nat, Worker>, processing: set<Child>, w: nat, v: Worker)
    requires ClaimsExact(workers, processing)
    requires if w in workers
             then v.child == workers[w].child && Holds(v.phase) == Holds(workers[w].phase)
             else !Holds(v.phase)
    ensures ClaimsExact(workers[w := v], processing)
  {
    var after := workers[w := v];
    forall c | c in processing ensures exists u :: HolderOf(after, u, c) {
      var u :| HolderOf(workers, u, c);
      assert HolderOf(after, u, c);
    }
  }

  lemma TakeKeepsClaims(workers: map<nat, Worker>, processing: set<Child>, w: nat, v: Worker)
    requires ClaimsExact(workers, processing)
    requires w in workers && !Holds(workers[w].phase) && v.child !in processing && Holds(v.phase)
    ensures ClaimsExact(workers[w := v], processing + {v.child})
  {
    var after := workers[w := v];
    forall c | c in processing + {v.child} ensures exists u :: HolderOf(after, u, c) {
      if c == v.child {
        assert HolderOf(after, w, c);
      } else {
        var u :| HolderOf(workers, u, c);
        assert HolderOf(after, u, c);
      }
    }
  }

  lemma DropKeepsClaims(workers: map<nat, Worker>, processing: set<Child>, w: nat, v: Worker)
    requires ClaimsExact(workers, processing)
    requires w in workers && Holds(workers[w].phase) && v.child == workers[w].child && !Holds(v.phase)
    ensures ClaimsExact(workers[w := v], processing - {v.child})
  {
    var after := workers[w := v];
    forall c | c in processing - {v.child} ensures exists u :: HolderOf(after, u, c) {
      var u :| HolderOf(workers, u, c);
      assert HolderOf(after, u, c);
    }
  }

  lemma StepKeepsClaims(conc: int, s: State, step: Step)
    requires Enabled(conc, s, step) && ClaimsExact(s.workers, s.processing)
    ensures ClaimsExact(Apply(conc, s, step).workers, Apply(conc, s, step).processing)
  {
    var t := Apply(conc, s, step);
    match step
    case SelfStatus(w, to) =>
    case Cancel(c) =>
    case Retry(c) =>
    case Claim(w) =>
      if s.workers[w].child in s.processing {
        MoveKeepsClaims(s.workers, s.processing, w, t.workers[w]);
      } else {
        TakeKeepsClaims(s.workers, s.processing, w, t.workers[w]);
      }
    case ReleaseClaim(w) =>
      DropKeepsClaims(s.workers, s.processing, w, t.workers[w]);
    case _ =>
      MoveKeepsClaims(s.workers, s.processing, step.w, t.workers[step.w]);
  }

  // Slots: the counter of a pool is the number of workers past its slot.

  lemma OccupantsUpdate(workers: map<nat, Worker>, w: nat, v: Worker, p: Pool)
    ensures Occupants(workers[w := v], p) ==
            Occupants(workers, p) - {w} +
            (if PastSlot(v.phase) && PoolOf(v.child.kind) == p then {w} else {})
  {
  }

  lemma MoveKeepsSlots(conc: int, workers: map<nat, Worker>, inUse: map<Pool, nat>, w: nat, v: Worker)
    requires SlotsExact(conc, workers, inUse)
    requires if w in workers
             then v.child == workers[w].child && PastSlot(v.phase) == PastSlot(workers[w].phase)
             else !PastSlot(v.phase)
    ensures SlotsExact(conc, workers[w := v], inUse)
  {
    forall p ensures Occupants(workers[w := v], p) == Occupants(workers, p) {
      OccupantsUpdate(workers, w, v, p);
    }
  }

  lemma AcquireKeepsSlots(conc: int, workers: map<nat, Worker>, inUse: map<Pool, nat>, w: nat, v: Worker)
    requires SlotsExact(conc, workers, inUse)
    requires w in workers && !PastSlot(workers[w].phase) && PastSlot(v.phase)
    requires Used(inUse, PoolOf(v.child.kind)) < Capacity(PoolOf(v.child.kind), conc)
    ensures SlotsExact(conc, workers[w := v], inUse[PoolOf(v.child.kind) := Used(inUse, PoolOf(v.child.kind)) + 1])
  {
    var q := PoolOf(v.child.kind);
    forall p ensures Occupants(workers[w := v], p) == Occupants(workers, p) + (if p == q then {w} else {}) {
      OccupantsUpdate(workers, w, v, p);
    }
    var after := inUse[q := Used(inUse, q) + 1];
    forall p ensures Used(after, p) == |Occupants(workers[w := v], p)| <= Capacity(p, conc) {
      assert Used(inUse, p) == |Occupants(workers, p)| <= Capacity(p, conc);
      assert w !in Occupants(workers, p);
    }
  }

  lemma ReleaseKeepsSlots(conc: int, workers: map<nat, Worker>, inUse: map<Pool, nat>, w: nat, v: Worker)
    requires SlotsExact(conc, workers, inUse)
    requires w in workers && PastSlot(workers[w].phase) && !PastSlot(v.phase) && v.child == workers[w].child
    requires Used(inUse, PoolOf(v.child.kind)) > 0
    ensures SlotsExact(conc, workers[w := v], inUse[PoolOf(v.child.kind) := Used(inUse, PoolOf(v.child.kind)) - 1])
  {
    var q := PoolOf(v.child.kind);
    forall p ensures Occupants(workers[w := v], p) == Occupants(workers, p) - (if p == q then {w} else {}) {
      OccupantsUpdate(workers, w, v, p);
    }
    var after := inUse[q := Used(inUse, q) - 1];
    forall p ensures Used(after, p) == |Occupants(workers[w := v], p)| <= Capacity(p, conc) {
      assert Used(inUse, p) == |Occupants(workers, p)| <= Capacity(p, conc);
      assert w in Occupants(workers, q);
    }
  }

  lemma StepKeepsSlots(conc: int, s: State, step: Step)
    requires Enabled(conc, s, step) && SlotsExact(conc, s.workers, s.inUse)
    ensures SlotsExact(conc, Apply(conc, s, step).workers, Apply(conc, s, step).inUse)
  {
    var t := Apply(conc, s, step);
    match step
    case SelfStatus(w, to) =>
    case Cancel(c) =>
    case Retry(c) =>
    case Acquire(w) => AcquireKeepsSlots(conc, s.workers, s.inUse, w, t.workers[w]);
    case ReleaseSlot(w) => ReleaseKeepsSlots(conc, s.workers, s.inUse, w, t.workers[w]);
    case _ => MoveKeepsSlots(conc, s.workers, s.inUse, step.w, t.workers[step.w]);
  }

  // Bodies.

  lemma MoveKeepsBodies(s: State, w: nat, v: Worker)
    requires BodiesExact(s.workers, s.status, s.bodies, s.retries)
    requires v.child in s.status
    requires if w in s.workers
             then v.child == s.workers[w].child && InBody(v.phase) == InBody(s.workers[w].phase)
             else !InBody(v.phase)
    ensures BodiesExact(s.workers[w := v], s.status, s.bodies, s.retries)
  {
    var after := s.workers[w := v];
    forall c | c in s.status && s.bodies[c] == 1 + s.retries[c] && !Terminal(s.status[c])
      ensures exists u :: BodyOf(after, u, c)
    {
      var u :| BodyOf(s.workers, u, c);
      assert BodyOf(after, u, c);
    }
  }

  lemma EndKeepsBodies(s: State, c: Child, to: Status)
    requires BodiesExact(s.workers, s.status, s.bodies, s.retries)
    requires c in s.status && Terminal(to) && to in {Cancelled} + SelfStatuses(c.kind)
    ensures BodiesExact(s.workers, s.status[c := to], s.bodies, s.retries)
  {
  }

  lemma RetryKeepsBodies(s: State, c: Child)
    requires BodiesExact(s.workers, s.status, s.bodies, s.retries) && c in s.status
    ensures BodiesExact(s.workers, s.status[c := Queued], s.bodies, s.retries + multiset{c})
  {
  }

  lemma StartKeepsBodies(s: State, w: nat)
    requires ClaimsExact(s.workers, s.processing) && BodiesExact(s.workers, s.status, s.bodies, s.retries)
    requires Phased(s, w, Slotted) && !Terminal(s.status[s.workers[w].child])
    ensures var c := s.workers[w].child;
            BodiesExact(s.workers[w := Worker(c, Executing)], s.status[c := Running], s.bodies + multiset{c}, s.retries)
  {
    var c := s.workers[w].child;
    var workers := s.workers[w := Worker(c, Executing)];
    forall u | u in s.workers && InBody(s.workers[u].phase) ensures s.workers[u].child != c {
      assert Holds(s.workers[u].phase) && Holds(s.workers[w].phase) && u != w;
    }
    assert s.bodies[c] < 1 + s.retries[c];
    assert BodyOf(workers, w, c);
    forall d | d in s.status && d != c && s.bodies[d] == 1 + s.retries[d] && !Terminal(s.status[d])
      ensures exists u :: BodyOf(workers, u, d)
    {
      var u :| BodyOf(s.workers, u, d);
      assert BodyOf(workers, u, d);
    }
  }

  lemma SettleKeepsBodies(s: State, w: nat, final: Status)
    requires ClaimsExact(s.workers, s.processing) && BodiesExact(s.workers, s.status, s.bodies, s.retries)
    requires w in s.workers && s.workers[w].phase.Returned? && Terminal(final)
    ensures var c := s.workers[w].child;
            BodiesExact(s.workers[w := Worker(c, Settled)], s.status[c := final], s.bodies, s.retries)
  {
    var c := s.workers[w].child;
    var workers := s.workers[w := Worker(c, Settled)];
    forall u | u in workers && InBody(workers[u].phase) ensures workers[u].child != c {
      assert Holds(s.workers[u].phase) && Holds(s.workers[w].phase) && u != w;
    }
    forall d | d in s.status && d != c && s.bodies[d] == 1 + s.retries[d] && !Terminal(s.status[d])
      ensures exists u :: BodyOf(workers, u, d)
    {
      var u :| BodyOf(s.workers, u, d);
      assert BodyOf(workers, u, d);
    }
  }

  lemma PlainMoveKeepsBodies(conc: int, s: State, step: Step)
    requires Enabled(conc, s, step) && (step.CheckDep? || step.Claim? || step.Acquire? || step.Return? || step.ReleaseSlot? || step.ReleaseClaim?)
    requires BodiesExact(s.workers, s.status, s.bodies, s.retries)
    ensures var t := Apply(conc, s, step); BodiesExact(t.workers, t.status, t.bodies, t.retries)
  {
    var t := Apply(conc, s, step);
    MoveKeepsBodies(s, step.w, t.workers[step.w]);
  }

  lemma StepKeepsBodies(conc: int, s: State, step: Step)
    requires Enabled(conc, s, step)
    requires ClaimsExact(s.workers, s.processing) && BodiesExact(s.workers, s.status, s.bodies, s.retries)
    ensures var t := Apply(conc, s, step); BodiesExact(t.workers, t.status, t.bodies, t.retries)
  {
    var t := Apply(conc, s, step);
    match step
    case Cancel(c) => EndKeepsBodies(s, c, Cancelled);
    case Retry(c) => RetryKeepsBodies(s, c);
    case SelfStatus(w, to) => EndKeepsBodies(s, s.workers[w].child, to);
    case Settle(w) => SettleKeepsBodies(s, w, t.status[s.workers[w].child]);
    case Recheck(w) =>
      if Terminal(s.status[s.workers[w].child]) {
        MoveKeepsBodies(s, w, t.workers[w]);
      } else {
        StartKeepsBodies(s, w);
      }
    case Spawn(w, c) => MoveKeepsBodies(s, w, t.workers[w]);
    case _ => PlainMoveKeepsBodies(conc, s, step);
  }

  // Dependencies: what was satisfied stays satisfied.

  lemma StableDeps(a: map<Child, Status>, b: map<Child, Status>, w: Worker)
    requires StatusesStable(a, b) && WorkerDeps(a, w)
    ensures WorkerDeps(b, w)
  {
    forall d | DepOk(a, w.child, d) ensures DepOk(b, w.child, d) {
    }
  }

  lemma CheckedAll(status: map<Child, Status>, w: Worker)
    requires WorkerDeps(status, w) && w.phase.Checking? && w.phase.next == |DependsOn(w.child.kind)|
    ensures Ready(status, w.child)
  {
    forall d | d in DependsOn(w.child.kind) ensures DepOk(status, w.child, d) {
      var i :| 0 <= i < |DependsOn(w.child.kind)| && DependsOn(w.child.kind)[i] == d;
    }
  }

  lemma MoveKeepsDeps(conc: int, s: State, step: Step)
    requires Enabled(conc, s, step) && !step.SelfStatus? && !step.Cancel? && !step.Retry?
    requires DepsHeld(s.workers, s.status)
    ensures WorkerDeps(s.status, Apply(conc, s, step).workers[step.w])
  {
    if !step.Spawn? {
      var w := s.workers[step.w];
      assert WorkerDeps(s.status, w);
      if w.phase.Checking? && w.phase.next == |DependsOn(w.child.kind)| {
        CheckedAll(s.status, w);
      }
    }
  }

  lemma AllStableDeps(workers: map<nat, Worker>, a: map<Child, Status>, b: map<Child, Status>)
    requires StatusesStable(a, b) && DepsHeld(workers, a)
    ensures DepsHeld(workers, b)
  {
    forall w | w in workers ensures WorkerDeps(b, workers[w]) {
      StableDeps(a, b, workers[w]);
    }
  }

  lemma {:induction false} StepKeepsDeps(conc: int, s: State, step: Step)
    requires Enabled(conc, s, step) && !step.Retry?
    requires BodiesExact(s.workers, s.status, s.bodies, s.retries) && DepsHeld(s.workers, s.status)
    ensures DepsHeld(Apply(conc, s, step).workers, Apply(conc, s, step).status)
  {
    var t := Apply(conc, s, step);
    assert DepsHeld(t.workers, s.status) by {
      if !step.SelfStatus? && !step.Cancel? {
        MoveKeepsDeps(conc, s, step);
        assert t.workers == s.workers[step.w := t.workers[step.w]];
      }
    }
    assert StatusesStable(s.status, t.status) by {
      StepKeepsTerminal(conc, s, step);
    }
    AllStableDeps(t.workers, s.status, t.status);
  }

  lemma RetriedDep(status: map<Child, Status>, v: Worker, c: Child)
    requires WorkerDeps(status, v) && c in status
    ensures WorkerDeps(status[c := Queued], v) <==> !Relies(v, c)
  {
    var after := status[c := Queued];
    assert !DepOk(after, v.child, c.kind) || v.child.run != c.run;
    assert forall d :: DepOk(status, v.child, d) && Child(v.child.run, d) != c ==> DepOk(after, v.child, d);
  }

  /** The single readiness test is enough for exactly the careful steps: a retry
      of a child that some worker has seen satisfied takes it away again. */
  lemma {:induction false} DependenciesHeldExactly(conc: int, s: State, step: Step)
    requires Inv(conc, s) && Enabled(conc, s, step)
    ensures DepsHeld(Apply(conc, s, step).workers, Apply(conc, s, step).status) <==> Careful(s, step)
  {
    if step.Retry? {
      forall w | w in s.workers
        ensures WorkerDeps(s.status[step.c := Queued], s.workers[w]) <==> !Relies(s.workers[w], step.c)
      {
        RetriedDep(s.status, s.workers[w], step.c);
      }
    } else {
      StepKeepsDeps(conc, s, step);
    }
  }

  lemma StepKeepsCore(conc: int, s: State, step: Step)
    requires Enabled(conc, s, step) && Core(conc, s)
    ensures Core(conc, Apply(conc, s, step))
  {
    StepKeepsClaims(conc, s, step);
    StepKeepsSlots(conc, s, step);
    StepKeepsBodies(conc, s, step);
  }

  lemma StepKeepsInv(conc: int, s: State, step: Step)
    requires Enabled(conc, s, step) && Careful(s, step) && Inv(conc, s)
    ensures Inv(conc, Apply(conc, s, step))
  {
    StepKeepsCore(conc, s, step);
    DependenciesHeldExactly(conc, s, step);
  }

  lemma {:induction false} RunKeepsCore(conc: int, s: State, steps: seq<Step>)
    requires ValidRun(conc, s, steps) && Core(conc, s)
    ensures Core(conc, After(conc, s, steps))
    ensures NoRetries(steps) ==> StatusesStable(s.status, After(conc, s, steps).status)
    decreases |steps|
  {
    if steps != [] {
      StepKeepsCore(conc, s, steps[0]);
      if NoRetries(steps) {
        StepKeepsTerminal(conc, s, steps[0]);
      }
      RunKeepsCore(conc, Apply(conc, s, steps[0]), steps[1..]);
    }
  }

  lemma {:induction false} RunKeepsInv(conc: int, s: State, steps: seq<Step>)
    requires ValidRun(conc, s, steps) && CarefulRun(conc, s, steps) && Inv(conc, s)
    ensures Inv(conc, After(conc, s, steps))
    decreases |steps|
  {
    if steps != [] {
      StepKeepsInv(conc, s, steps[0]);
      RunKeepsInv(conc, Apply(conc, s, steps[0]), steps[1..]);
    }
  }

  lemma {:induction false} RetrylessIsCareful(conc: int, s: State, steps: seq<Step>)
    requires ValidRun(conc, s, steps) && NoRetries(steps)
    ensures CarefulRun(conc, s, steps)
    decreases |steps|
  {
    if steps != [] {
      RetrylessIsCareful(conc, Apply(conc, s, steps[0]), steps[1..]);
    }
  }

  lemma FreshInv(conc: int, s: State)
    requires Fresh(s)
    ensures Inv(conc, s)
  {
    forall p ensures Occupants(s.workers, p) == {} {
    }
  }

  lemma ReachableCore(conc: int, s: State)
    requires Reachable(conc, s)
    ensures Core(conc, s)
  {
    var s0, steps :| Fresh(s0) && ValidRun(conc, s0, steps) && After(conc, s0, steps) == s;
    FreshInv(conc, s0);
    RunKeepsCore(conc, s0, steps);
  }

  lemma CarefullyReachableInv(conc: int, s: State)
    requires CarefullyReachable(conc, s)
    ensures Inv(conc, s)
  {
    var s0, steps :| Fresh(s0) && ValidRun(conc, s0, steps) && CarefulRun(conc, s0, steps) && After(conc, s0, steps) == s;
    FreshInv(conc, s0);
    RunKeepsInv(conc, s0, steps);
  }

  // ----- What holds in every reachable state -----

  /** Readiness is tested before the claim and never again, yet a body only
      ever runs with every dependency present and over, as long as nobody retries
      a child that a worker relies on. */
  lemma RunningBodyHasItsDependencies(conc: int, s: State, w: nat)
    requires CarefullyReachable(conc, s)
    requires w in s.workers && InBody(s.workers[w].phase)
    ensures forall d :: d in DependsOn(s.workers[w].child.kind) ==>
              var dep := Child(s.workers[w].child.run, d);
              && dep in s.status && Terminal(s.status[dep])
              && (d == Prepare ==> s.status[dep] in {Completed, Skipped})
  {
    CarefullyReachableInv(conc, s);
  }

  /** The test runApprovalAgent makes for a cloud child still at work. */
  predicate ApprovalSeesPendingAutofix(s: State, run: nat) {
    Child(run, Cloud) in s.status && !Terminal(s.status[Child(run, Cloud)])
  }

  /** The refusal runApprovalAgent makes for missing or unfinished input. */
  predicate ApprovalRefusesInput(s: State, run: nat) {
    || Child(run, Bugbot) !in s.status || !Terminal(s.status[Child(run, Bugbot)])
    || Child(run, Security) !in s.status || !Terminal(s.status[Child(run, Security)])
  }

  /** Hence two branches of the approval body are dead when the graph runs it. */
  lemma ApprovalBranchesUnreachable(conc: int, s: State, w: nat)
    requires CarefullyReachable(conc, s)
    requires w in s.workers && InBody(s.workers[w].phase) && s.workers[w].child.kind == Approval
    ensures !ApprovalSeesPendingAutofix(s, s.workers[w].child.run)
    ensures !ApprovalRefusesInput(s, s.workers[w].child.run)
  {
    RunningBodyHasItsDependencies(conc, s, w);
    assert DependsOn(Approval) == [Bugbot, Security, Cloud];
    assert Bugbot in DependsOn(Approval) && Security in DependsOn(Approval) && Cloud in DependsOn(Approval);
  }

  lemma AtMostOneClaimant(conc: int, s: State, v: nat, w: nat)
    requires Reachable(conc, s)
    requires v in s.workers && w in s.workers && s.workers[v].child == s.workers[w].child
    requires Holds(s.workers[v].phase) && Holds(s.workers[w].phase)
    ensures v == w
  {
    ReachableCore(conc, s);
  }

  /** However often a child is spawned, its body starts at most once while the
      process lives and once more for each retry of it; so a run costs at most one
      body per child and one per retry. */
  lemma BodiesCountedByRetries(conc: int, s: State)
    requires Reachable(conc, s)
    ensures forall c :: s.bodies[c] <= 1 + s.retries[c]
    ensures |s.bodies| <= |s.status| + |s.retries|
  {
    ReachableCore(conc, s);
    forall c ensures s.bodies[c] <= 1 + s.retries[c] {
      assert c in s.bodies ==> c in s.status;
    }
    assert forall c :: c in s.bodies ==> c in s.status.Keys;
    Counted(s.bodies, s.status.Keys, s.retries);
  }

  lemma Counted(bodies: multiset<Child>, keys: set<Child>, retries: multiset<Child>)
    requires forall c :: c in bodies ==> c in keys && bodies[c] <= 1 + retries[c]
    ensures |bodies| <= |keys| + |retries|
  {
    var bound := multiset(keys) + retries;
    assert bodies <= bound;
    var rest := bound - bodies;
    assert bound == bodies + rest;
    assert |bound| == |multiset(keys)| + |retries|;
    assert |bound| == |bodies| + |rest|;
  }

  /** The workers of one kind that are past the slot. */
  function Slots(s: State, k: Kind): set<nat> {
    set w | w in s.workers && PastSlot(s.workers[w].phase) && s.workers[w].child.kind == k
  }

  lemma SlotBound(conc: int, s: State, k: Kind)
    requires Reachable(conc, s)
    ensures |Slots(s, k)| <= Capacity(PoolOf(k), conc)
  {
    ReachableCore(conc, s);
    assert Slots(s, k) <= Occupants(s.workers, PoolOf(k));
    SubsetSize(Slots(s, k), Occupants(s.workers, PoolOf(k)));
  }
}
