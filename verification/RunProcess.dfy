// The imperative side of the scheduler: the tables one process keeps, the code
// that changes them, and processAgentChild from its spawn to its return while
// any other steps happen in between.
module RunProcess {
  import opened AgentKinds
  import opened RunStatus
  import opened RunScheduler
  import opened RunVerdicts

  datatype CancelResult = CancelOk | CancelNotFound | CancelConflict

  /** How one call of processAgentChild ends. StillWaiting stands before a full
      channel when it is no longer followed. */
  datatype Outcome = NotReady(seen: nat) | AlreadyClaimed | StillWaiting | Over | Ran

  datatype Option = None | Some(outcome: Outcome)

  // ----- The steps of one worker -----

  /** A step in which the worker itself moves on. */
  predicate Moves(step: Step, w: nat) {
    !step.Cancel? && !step.Retry? && !step.SelfStatus? && step.w == w
  }

  function MovesOf(steps: seq<Step>, w: nat): seq<Step> {
    if steps == [] then []
    else
      var last := steps[|steps| - 1];
      MovesOf(steps[..|steps| - 1], w) + (if Moves(last, w) then [last] else [])
  }

  lemma MovesSnoc(steps: seq<Step>, step: Step, w: nat)
    ensures MovesOf(steps + [step], w) == MovesOf(steps, w) + (if Moves(step, w) then [step] else [])
  {
    assert (steps + [step])[..|steps|] == steps;
  }

  function Checks(w: nat, n: nat): seq<Step> {
    seq(n, _ => CheckDep(w))
  }

  /** What the worker does once it holds the claim. */
  function Served(w: nat, r: Outcome, fails: bool): seq<Step> {
    match r
    case Over => [Acquire(w), Recheck(w), ReleaseSlot(w), ReleaseClaim(w)]
    case Ran => [Acquire(w), Recheck(w), Return(w, fails), Settle(w), ReleaseSlot(w), ReleaseClaim(w)]
    case _ => []
  }

  /** What the worker does, step by step, for each way the call can end. */
  function Script(w: nat, c: Child, r: Outcome, fails: bool): seq<Step> {
    match r
    case NotReady(seen) => [Spawn(w, c)] + Checks(w, seen + 1)
    case _ => [Spawn(w, c)] + Checks(w, |DependsOn(c.kind)| + 1) + [Claim(w)] + Served(w, r, fails)
  }

  lemma {:induction false} MovesAreSteps(steps: seq<Step>, w: nat)
    ensures forall x :: x in MovesOf(steps, w) ==> x in steps
    decreases |steps|
  {
    if steps != [] {
      MovesAreSteps(steps[..|steps| - 1], w);
    }
  }

  lemma {:induction false} ReturnIsThere(steps: seq<Step>, w: nat, c: Child, fails: bool, before: seq<Step>)
    requires MovesOf(steps, w) == before + Script(w, c, Ran, fails)
    ensures Return(w, fails) in steps
  {
    MovesAreSteps(steps, w);
    var served := Served(w, Ran, fails);
    assert served[2] == Return(w, fails);
    assert Return(w, fails) in served && Return(w, fails) in Script(w, c, Ran, fails);
    assert Return(w, fails) in MovesOf(steps, w);
  }

  lemma StepKeepsWorker(conc: int, s: State, step: Step, w: nat)
    requires Enabled(conc, s, step) && !Moves(step, w) && w in s.workers
    ensures w in Apply(conc, s, step).workers && Apply(conc, s, step).workers[w] == s.workers[w]
  {
  }

  lemma StepKeepsDone(conc: int, s: State, step: Step, c: Child)
    requires Enabled(conc, s, step) && Core(conc, s) && !step.Retry?
    requires c in s.status && Terminal(s.status[c]) && Ready(s.status, c)
    ensures var t := Apply(conc, s, step); c in t.status && Terminal(t.status[c]) && Ready(t.status, c)
  {
    StepKeepsTerminal(conc, s, step);
    StableDeps(s.status, Apply(conc, s, step).status, Worker(c, Admitted));
  }

  /** Where a worker's own step takes it. */
  predicate Leads(step: Step, k: Kind, was: Phase, now: Phase) {
    match step
    case Spawn(_, _) => now == Checking(0)
    case CheckDep(_) =>
      && was.Checking?
      && (now == Gone || now == if was.next < |DependsOn(k)| then Checking(was.next + 1) else Admitted)
    case Claim(_) => now == Claimed || now == Gone
    case Acquire(_) => now == Slotted
    case Recheck(_) => now == Executing || now == Settled
    case Return(_, failed) => now == Returned(failed)
    case Settle(_) => now == Settled
    case ReleaseSlot(_) => now == Unslotted
    case ReleaseClaim(_) => now == Gone
    case _ => false
  }

  /** Where a worker stands before it. */
  predicate Stands(step: Step, p: Phase) {
    match step
    case CheckDep(_) => p.Checking?
    case Claim(_) => p == Admitted
    case Recheck(_) => p == Slotted
    case Return(_, _) => p == Executing
    case Settle(_) => p.Returned?
    case ReleaseSlot(_) => p == Settled
    case ReleaseClaim(_) => p == Unslotted
    case _ => false
  }

  lemma StandingEnables(conc: int, s: State, step: Step)
    requires !step.Cancel? && !step.Retry? && Core(conc, s)
    requires step.w in s.workers && Stands(step, s.workers[step.w].phase)
    ensures Enabled(conc, s, step)
  {
    if step.ReleaseSlot? {
      var p := PoolOf(s.workers[step.w].child.kind);
      assert Used(s.inUse, p) == |Occupants(s.workers, p)| && step.w in Occupants(s.workers, p);
    }
  }

  lemma OwnStepLeads(conc: int, s: State, step: Step, c: Child)
    requires Enabled(conc, s, step) && (exists w :: Moves(step, w)) && Core(conc, s)
    requires c == if step.Spawn? then step.c else s.workers[step.w].child
    ensures var t := Apply(conc, s, step);
            && step.w in t.workers && t.workers[step.w].child == c
            && Leads(step, c.kind, (if step.Spawn? then Gone else s.workers[step.w].phase), t.workers[step.w].phase)
  {
  }

  lemma OwnStepSettles(conc: int, s: State, step: Step)
    requires Enabled(conc, s, step) && (step.Recheck? || step.Settle?)
    ensures var t, c := Apply(conc, s, step), s.workers[step.w].child;
            step.w in t.workers && (t.workers[step.w].phase == Settled ==> c in t.status && Terminal(t.status[c]))
  {
  }

  class Process {
    const concurrency: int
    var status: map<Child, Status>     // the live rows' status column
    var processing: set<Child>         // scmProcessing
    var inUse: map<Pool, nat>          // how full each channel is
    var workers: map<nat, Worker>      // the goroutines in processAgentChild
    ghost var bodies: multiset<Child>
    ghost var retries: multiset<Child>
    ghost const initial: State
    ghost var history: seq<Step>       // every step since the process started

    constructor (concurrency: int, rows: map<Child, Status>)
      ensures this.concurrency == concurrency && Valid() && history == []
      ensures Snapshot() == State(rows, {}, map[], map[], multiset{}, multiset{})
    {
      this.concurrency := concurrency;
      status, processing, inUse, workers, bodies, retries := rows, {}, map[], map[], multiset{}, multiset{};
      initial, history := State(rows, {}, map[], map[], multiset{}, multiset{}), [];
    }

    ghost function Snapshot(): State
      reads this
    {
      State(status, processing, inUse, workers, bodies, retries)
    }

    /** The tables are those after the steps so far. */
    ghost predicate Valid()
      reads this
    {
      && Fresh(initial) && ValidRun(concurrency, initial, history)
      && After(concurrency, initial, history) == Snapshot()
    }

    lemma ValidIsReachable()
      requires Valid()
      ensures Reachable(concurrency, Snapshot()) && Core(concurrency, Snapshot())
      ensures NoRetries(history) ==> Inv(concurrency, Snapshot())
    {
      ReachableCore(concurrency, Snapshot());
      if NoRetries(history) {
        RetrylessIsCareful(concurrency, initial, history);
        CarefullyReachableInv(concurrency, Snapshot());
      }
    }

    /** Without retries the child is over and what it waited for is too. */
    ghost predicate Done(c: Child)
      reads this
    {
      NoRetries(history) ==> c in status && Terminal(status[c]) && Ready(status, c)
    }

    ghost method Note(before: State, step: Step)
      requires Fresh(initial) && ValidRun(concurrency, initial, history)
      requires After(concurrency, initial, history) == before && Enabled(concurrency, before, step)
      requires Snapshot() == Apply(concurrency, before, step)
      modifies `history
      ensures Valid() && history == old(history) + [step]
    {
      RunAppend(concurrency, initial, history, step);
      history := history + [step];
    }

    // ----- One step each -----

    method Move(w: nat, p: Phase)
      requires w in workers
      modifies `workers
      ensures workers == old(workers)[w := old(workers)[w].(phase := p)]
    {
      workers := workers[w := workers[w].(phase := p)];
    }

    /** go processSCMJob(id) */
    method StartWorker(w: nat, c: Child)
      requires w !in workers && c in status
      modifies this
      ensures Snapshot() == Apply(concurrency, old(Snapshot()), Spawn(w, c)) && history == old(history)
    {
      workers := workers[w := Worker(c, Checking(0))];
    }

    /** One turn of the loop in agentChildReady. */
    method CheckNextDependency(w: nat)
      requires Enabled(concurrency, Snapshot(), CheckDep(w))
      modifies this
      ensures Snapshot() == Apply(concurrency, old(Snapshot()), CheckDep(w)) && history == old(history)
    {
      var c := workers[w].child;
      var deps := DependsOn(c.kind);
      var n := workers[w].phase.next;
      if n >= |deps| {
        Move(w, Admitted);
        return;
      }
      var dep := Child(c.run, deps[n]);
      if dep !in status || !Terminal(status[dep]) {
        Move(w, Gone);
        return;
      }
      if deps[n] == Prepare && status[dep] != Completed && status[dep] != Skipped {
        Move(w, Gone);
        return;
      }
      Move(w, Checking(n + 1));
    }

    /** scmProcessing.LoadOrStore */
    method LoadOrStoreClaim(w: nat) returns (loaded: bool)
      requires Enabled(concurrency, Snapshot(), Claim(w))
      modifies this
      ensures Snapshot() == Apply(concurrency, old(Snapshot()), Claim(w)) && history == old(history)
      ensures loaded <==> workers[w].phase == Gone
    {
      loaded := workers[w].child in processing;
      if loaded {
        Move(w, Gone);
      } else {
        processing := processing + {workers[w].child};
        Move(w, Claimed);
      }
    }

    /** acquireKindSlot, once the channel has room. */
    method AcquireKindSlot(w: nat)
      requires Enabled(concurrency, Snapshot(), Acquire(w))
      modifies this
      ensures Snapshot() == Apply(concurrency, old(Snapshot()), Acquire(w)) && history == old(history)
    {
      var p := PoolOf(workers[w].child.kind);
      inUse := inUse[p := (if p in inUse then inUse[p] else 0) + 1];
      Move(w, Slotted);
    }

    /** The recheck of the status and, if the child is still open, the start of
        its body. */
    method RecheckAndStart(w: nat) returns (started: bool)
      requires Enabled(concurrency, Snapshot(), Recheck(w))
      modifies this
      ensures Snapshot() == Apply(concurrency, old(Snapshot()), Recheck(w)) && history == old(history)
      ensures started <==> !Terminal(old(status)[old(workers)[w].child])
    {
      var c := workers[w].child;
      match status[c] {
        case Cancelled => started := false;
        case Completed => started := false;
        case Failed => started := false;
        case Error => started := false;
        case Skipped => started := false;
        case _ => started := true;
      }
      if !started {
        Move(w, Settled);
        return;
      }
      status := status[c := Running];
      bodies := bodies + multiset{c};
      Move(w, Executing);
    }

    method ReturnFromBody(w: nat, failed: bool)
      requires Enabled(concurrency, Snapshot(), Return(w, failed))
      modifies this
      ensures Snapshot() == Apply(concurrency, old(Snapshot()), Return(w, failed)) && history == old(history)
    {
      Move(w, Returned(failed));
    }

    /** The cancel check after the body and the terminal status. */
    method SettleStatus(w: nat)
      requires Enabled(concurrency, Snapshot(), Settle(w))
      modifies this
      ensures Snapshot() == Apply(concurrency, old(Snapshot()), Settle(w)) && history == old(history)
    {
      var c := workers[w].child;
      if status[c] == Cancelled {
        status := status[c := Cancelled];
      } else if workers[w].phase.failed {
        status := status[c := Failed];
      } else if status[c] != Skipped {
        status := status[c := Completed];
      } else {
        status := status[c := Skipped];
      }
      Move(w, Settled);
    }

    method ReleaseKindSlot(w: nat)
      requires Enabled(concurrency, Snapshot(), ReleaseSlot(w))
      modifies this
      ensures Snapshot() == Apply(concurrency, old(Snapshot()), ReleaseSlot(w)) && history == old(history)
    {
      var p := PoolOf(workers[w].child.kind);
      inUse := inUse[p := inUse[p] - 1];
      Move(w, Unslotted);
    }

    method DropClaim(w: nat)
      requires Enabled(concurrency, Snapshot(), ReleaseClaim(w))
      modifies this
      ensures Snapshot() == Apply(concurrency, old(Snapshot()), ReleaseClaim(w)) && history == old(history)
    {
      processing := processing - {workers[w].child};
      Move(w, Gone);
    }

    /** cancelSCMJobWithReason on a child: only queued, waiting and running jobs
        change; a cancelled one is left as it is, any other is a conflict. */
    method CancelChild(c: Child) returns (r: CancelResult)
      modifies this
      ensures r == if c !in old(status) then CancelNotFound
                   else if old(status)[c] in {Queued, Waiting, Running, Cancelled} then CancelOk
                   else CancelConflict
      ensures history == old(history)
      ensures Snapshot() ==
              if Enabled(concurrency, old(Snapshot()), Cancel(c))
              then Apply(concurrency, old(Snapshot()), Cancel(c))
              else old(Snapshot())
    {
      if c !in status {
        return CancelNotFound;
      }
      match status[c] {
        case Queued => status := status[c := Cancelled]; return CancelOk;
        case Waiting => status := status[c := Cancelled]; return CancelOk;
        case Running => status := status[c := Cancelled]; return CancelOk;
        case Cancelled => return CancelOk;
        case _ => return CancelConflict;
      }
    }

    // ----- Any step, and steps of others -----

    /** The steps up to the start of a body. */
    method PerformEarly(step: Step)
      requires Enabled(concurrency, Snapshot(), step)
      requires step.Spawn? || step.CheckDep? || step.Claim? || step.Acquire? || step.Recheck?
      modifies this
      ensures Snapshot() == Apply(concurrency, old(Snapshot()), step) && history == old(history)
    {
      match step {
        case Spawn(w, c) => StartWorker(w, c);
        case CheckDep(w) => CheckNextDependency(w);
        case Claim(w) => var _ := LoadOrStoreClaim(w);
        case Acquire(w) => AcquireKindSlot(w);
        case Recheck(w) => var _ := RecheckAndStart(w);
      }
    }

    method PerformLate(step: Step)
      requires Enabled(concurrency, Snapshot(), step) && Core(concurrency, Snapshot())
      requires !(step.Spawn? || step.CheckDep? || step.Claim? || step.Acquire? || step.Recheck?)
      modifies this
      ensures Snapshot() == Apply(concurrency, old(Snapshot()), step) && history == old(history)
    {
      match step {
        case SelfStatus(w, to) => status := status[workers[w].child := to];
        case Return(w, failed) => ReturnFromBody(w, failed);
        case Settle(w) => SettleStatus(w);
        case ReleaseSlot(w) => ReleaseKindSlot(w);
        case ReleaseClaim(w) => DropClaim(w);
        case Cancel(c) => var _ := CancelChild(c);
        case Retry(c) =>
          status := status[c := Queued];
          retries := retries + multiset{c};
      }
    }

    method Perform(step: Step)
      requires Valid() && Enabled(concurrency, Snapshot(), step)
      modifies this
      ensures Valid() && history == old(history) + [step]
      ensures Snapshot() == Apply(concurrency, old(Snapshot()), step)
    {
      ghost var before := Snapshot();
      ValidIsReachable();
      if step.Spawn? || step.CheckDep? || step.Claim? || step.Acquire? || step.Recheck? {
        PerformEarly(step);
      } else {
        PerformLate(step);
      }
      Note(before, step);
    }

    /** The state without its counters, which no guard looks at. */
    function Tables(): State
      reads this
    {
      State(status, processing, inUse, workers, multiset{}, multiset{})
    }

    /** Whatever others do meanwhile: of the given steps those that are possible
        when their turn comes and do not move the worker. */
    method Interfere(others: seq<Step>, w: nat, ghost c: Child)
      requires Valid() && w in workers && workers[w].child == c
      modifies this
      ensures Valid() && w in workers && workers[w] == old(workers)[w]
      ensures MovesOf(history, w) == MovesOf(old(history), w)
      ensures old(Done(c)) ==> Done(c)
    {
      for i := 0 to |others|
        invariant Valid() && w in workers && workers[w] == old(workers)[w]
        invariant MovesOf(history, w) == MovesOf(old(history), w)
        invariant old(Done(c)) ==> Done(c)
      {
        if !Moves(others[i], w) && Enabled(concurrency, Tables(), others[i]) {
          Disturb(others[i], w, c);
        }
      }
    }

    method Disturb(step: Step, w: nat, ghost c: Child)
      requires Valid() && w in workers && workers[w].child == c
      requires Enabled(concurrency, Snapshot(), step) && !Moves(step, w)
      modifies this
      ensures Valid() && w in workers && workers[w] == old(workers)[w]
      ensures MovesOf(history, w) == MovesOf(old(history), w)
      ensures old(Done(c)) ==> Done(c)
    {
      ValidIsReachable();
      StepKeepsWorker(concurrency, Snapshot(), step, w);
      StillDone(step, c);
      MovesSnoc(history, step, w);
      Perform(step);
    }

    lemma StillDone(step: Step, c: Child)
      requires Valid() && Enabled(concurrency, Snapshot(), step)
      ensures var t := Apply(concurrency, Snapshot(), step);
              Done(c) ==> NoRetries(history + [step]) ==> c in t.status && Terminal(t.status[c]) && Ready(t.status, c)
    {
      ValidIsReachable();
      if NoRetries(history + [step]) {
        assert (history + [step])[|history|] == step;
        assert forall i :: 0 <= i < |history| ==> (history + [step])[i] == history[i];
        if Done(c) {
          StepKeepsDone(concurrency, Snapshot(), step, c);
        }
      }
    }

    /** A step of the worker's own. */
    method Advance(step: Step, w: nat, c: Child)
      requires Valid() && Moves(step, w) && Enabled(concurrency, Snapshot(), step)
      requires c == if step.Spawn? then step.c else workers[w].child
      modifies this
      ensures Valid() && w in workers && workers[w].child == c
      ensures Leads(step, c.kind, if step.Spawn? then Gone else old(workers)[w].phase, workers[w].phase)
      ensures (step.Recheck? || step.Settle?) && workers[w].phase == Settled ==> c in status && Terminal(status[c])
      ensures MovesOf(history, w) == MovesOf(old(history), w) + [step]
      ensures old(Done(c)) ==> Done(c)
    {
      ValidIsReachable();
      OwnStepLeads(concurrency, Snapshot(), step, c);
      if step.Recheck? || step.Settle? {
        OwnStepSettles(concurrency, Snapshot(), step);
      }
      StillDone(step, c);
      MovesSnoc(history, step, w);
      Perform(step);
    }

    /** A step of the worker's own after whatever the others do. */
    method Proceed(step: Step, w: nat, c: Child, others: seq<Step>)
      requires Valid() && Moves(step, w) && w in workers && workers[w].child == c && Stands(step, workers[w].phase)
      modifies this
      ensures Valid() && w in workers && workers[w].child == c && Leads(step, c.kind, old(workers)[w].phase, workers[w].phase)
      ensures (step.Recheck? || step.Settle?) && workers[w].phase == Settled ==> Done(c)
      ensures MovesOf(history, w) == MovesOf(old(history), w) + [step]
      ensures old(Done(c)) ==> Done(c)
    {
      Interfere(others, w, c);
      ValidIsReachable();
      StandingEnables(concurrency, Snapshot(), step);
      Advance(step, w, c);
      if (step.Recheck? || step.Settle?) && workers[w].phase == Settled {
        SettledIsDone(w, c);
      }
    }

    lemma SettledIsDone(w: nat, c: Child)
      requires Valid() && w in workers && workers[w] == Worker(c, Settled) && c in status && Terminal(status[c])
      ensures Done(c)
    {
      ValidIsReachable();
      assert NoRetries(history) ==> WorkerDeps(status, workers[w]);
    }

    // ----- processAgentChild -----

    /** agentChildReady, dependency by dependency. */
    method AgentChildReady(w: nat, c: Child, others: nat -> seq<Step>) returns (ready: bool, n: nat)
      requires Valid() && w in workers && workers[w] == Worker(c, Checking(0))
      modifies this
      ensures Valid() && w in workers && workers[w] == Worker(c, if ready then Admitted else Gone)
      ensures n <= |DependsOn(c.kind)| && (ready ==> n == |DependsOn(c.kind)|)
      ensures MovesOf(history, w) == MovesOf(old(history), w) + Checks(w, n + 1)
    {
      n := 0;
      while true
        invariant Valid() && w in workers && workers[w] == Worker(c, Checking(n)) && n <= |DependsOn(c.kind)|
        invariant MovesOf(history, w) == MovesOf(old(history), w) + Checks(w, n)
        decreases |DependsOn(c.kind)| - n
      {
        Proceed(CheckDep(w), w, c, others(n));
        assert Checks(w, n) + [CheckDep(w)] == Checks(w, n + 1);
        if workers[w].phase == Admitted {
          return true, n;
        }
        if workers[w].phase == Gone {
          return false, n;
        }
        n := n + 1;
      }
    }

    /** acquireKindSlot blocks while the channel is full; we follow it for the
        given number of turns. */
    method AwaitSlot(w: nat, c: Child, others: nat -> seq<Step>, patience: nat) returns (taken: bool)
      requires Valid() && w in workers && workers[w] == Worker(c, Claimed)
      modifies this
      ensures Valid() && w in workers && workers[w] == Worker(c, if taken then Slotted else Claimed)
      ensures MovesOf(history, w) == MovesOf(old(history), w) + (if taken then [Acquire(w)] else [])
    {
      for i := 0 to patience
        invariant Valid() && w in workers && workers[w] == Worker(c, Claimed)
        invariant MovesOf(history, w) == MovesOf(old(history), w)
      {
        Interfere(others(i), w, c);
        if Enabled(concurrency, Tables(), Acquire(w)) {
          Advance(Acquire(w), w, c);
          return true;
        }
      }
      return false;
    }

    /** The recheck, the body and the final status. */
    method RunBody(w: nat, c: Child, others: nat -> seq<Step>, fails: bool) returns (ran: bool)
      requires Valid() && w in workers && workers[w] == Worker(c, Slotted)
      modifies this
      ensures Valid() && w in workers && workers[w] == Worker(c, Settled) && Done(c)
      ensures MovesOf(history, w) == MovesOf(old(history), w) + [Recheck(w)] + (if ran then [Return(w, fails), Settle(w)] else [])
    {
      Proceed(Recheck(w), w, c, others(0));
      ran := workers[w].phase == Executing;
      if ran {
        Proceed(Return(w, fails), w, c, others(1));
        Proceed(Settle(w), w, c, others(2));
      }
    }

    /** The deferred releases. */
    method Leave(w: nat, c: Child, others: nat -> seq<Step>)
      requires Valid() && w in workers && workers[w] == Worker(c, Settled) && Done(c)
      modifies this
      ensures Valid() && w in workers && workers[w] == Worker(c, Gone) && Done(c)
      ensures MovesOf(history, w) == MovesOf(old(history), w) + [ReleaseSlot(w), ReleaseClaim(w)]
    {
      Proceed(ReleaseSlot(w), w, c, others(0));
      Proceed(ReleaseClaim(w), w, c, others(1));
    }

    /** The spawn and the readiness test. */
    method SpawnAndCheck(w: nat, c: Child, others: nat -> seq<Step>) returns (ready: bool, n: nat)
      requires Valid() && w !in workers && c in status
      modifies this
      ensures Valid() && w in workers && workers[w] == Worker(c, if ready then Admitted else Gone)
      ensures n <= |DependsOn(c.kind)| && (ready ==> n == |DependsOn(c.kind)|)
      ensures MovesOf(history, w) == MovesOf(old(history), w) + ([Spawn(w, c)] + Checks(w, n + 1))
    {
      Advance(Spawn(w, c), w, c);
      ready, n := AgentChildReady(w, c, others);
    }

    /** The readiness test and the claim. */
    method Enter(w: nat, c: Child, others: nat -> nat -> seq<Step>) returns (stop: Option)
      requires Valid() && w !in workers && c in status
      modifies this
      ensures Valid() && w in workers && workers[w] == Worker(c, if stop.None? then Claimed else Gone)
      ensures stop.Some? ==> stop.outcome.AlreadyClaimed? || (stop.outcome.NotReady? && stop.outcome.seen <= |DependsOn(c.kind)|)
      ensures MovesOf(history, w) ==
              MovesOf(old(history), w) + Script(w, c, if stop.None? then StillWaiting else stop.outcome, false)
    {
      var ready, n := SpawnAndCheck(w, c, others(0));
      if !ready {
        return Some(NotReady(n));
      }
      Proceed(Claim(w), w, c, others(1)(0));
      stop := if workers[w].phase == Gone then Some(AlreadyClaimed) else None;
    }

    /** From the claim to the return. */
    method Serve(w: nat, c: Child, others: nat -> nat -> seq<Step>, patience: nat, fails: bool) returns (r: Outcome)
      requires Valid() && w in workers && workers[w] == Worker(c, Claimed)
      modifies this
      ensures Valid() && w in workers && workers[w] == Worker(c, if r.StillWaiting? then Claimed else Gone)
      ensures r.StillWaiting? || ((r.Over? || r.Ran?) && Done(c))
      ensures MovesOf(history, w) == MovesOf(old(history), w) + Served(w, r, fails)
    {
      var taken := AwaitSlot(w, c, others(2), patience);
      if !taken {
        return StillWaiting;
      }
      var ran := RunBody(w, c, others(3), fails);
      Leave(w, c, others(4));
      r := if ran then Ran else Over;
    }

    /** One call from its spawn to its return, with anything the others do in
        between: all steps together are one valid run, in which the worker's own
        are exactly those of the way the call ends. Without retries, a call that
        found the child over or ran it leaves it over and its dependencies met, and
        after a body the child is cancelled, failed, skipped or completed by what the
        body returned and what was said last while it ran. */
    method ProcessAgentChild(w: nat, c: Child, others: nat -> nat -> seq<Step>, patience: nat, fails: bool) returns (r: Outcome)
      requires Valid() && w !in workers && c in status
      modifies this
      ensures Valid() && w in workers && workers[w] == Worker(c, if r.StillWaiting? then Claimed else Gone)
      ensures MovesOf(history, w) == MovesOf(old(history), w) + Script(w, c, r, fails)
      ensures r.NotReady? ==> r.seen <= |DependsOn(c.kind)|
      ensures r.Over? || r.Ran? ==> Done(c)
      ensures r.Ran? && NoRetries(history) && fails ==>
                status[c] == if LastWord(history, w, c) == [Cancelled] then Cancelled else Failed
      ensures r.Ran? && NoRetries(history) && !fails ==>
                status[c] == if LastWord(history, w, c) == [Cancelled] then Cancelled
                             else if LastWord(history, w, c) == [Skipped] then Skipped else Completed
    {
      var stop := Enter(w, c, others);
      if stop.Some? {
        Unserved(w, c, stop.outcome, fails);
        return stop.outcome;
      }
      r := Serve(w, c, others, patience, fails);
      Joined(w, c, r, fails);
      RanIsJudged(w, c, r, fails, MovesOf(old(history), w));
    }

    /** Whoever ran a body has the verdict on it. */
    lemma RanIsJudged(w: nat, c: Child, r: Outcome, fails: bool, before: seq<Step>)
      requires Valid() && w in workers && workers[w].child == c && (r.Ran? ==> workers[w].phase == Gone)
      requires MovesOf(history, w) == before + Script(w, c, r, fails)
      ensures r.Ran? && NoRetries(history) ==> c in status && status[c] == Verdict(LastWord(history, w, c), fails)
    {
      if r.Ran? && NoRetries(history) {
        ReturnIsThere(history, w, c, fails, before);
        VerdictExactly(concurrency, initial, history, w, fails);
        RunTold(concurrency, initial, history, w);
      }
    }

    lemma Unserved(w: nat, c: Child, r: Outcome, fails: bool)
      requires r.NotReady? || r.AlreadyClaimed?
      ensures Script(w, c, r, fails) == Script(w, c, r, false)
    {
    }

    lemma Joined(w: nat, c: Child, r: Outcome, fails: bool)
      requires !r.NotReady?
      ensures Script(w, c, r, fails) == Script(w, c, StillWaiting, false) + Served(w, r, fails)
    {
    }
  }
}
