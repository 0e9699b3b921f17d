// Progress of the run graph: workers never block each other for good, the work
// per spawn is bounded, and a run that has come to a standstill is over unless
// prepare ended badly, whatever failed, was cancelled or was retried on the way.
module RunProgress {
  import opened AgentKinds
  import opened RunStatus
  import opened RunScheduler
  import opened Sets

  // ----- Workers do not deadlock -----

  /** The step a worker is waiting to take. */
  function OwnStep(s: State, w: nat): Step
    requires w in s.workers && s.workers[w].phase != Gone
  {
    match s.workers[w].phase
    case Checking(_) => CheckDep(w)
    case Admitted => Claim(w)
    case Claimed => Acquire(w)
    case Slotted => Recheck(w)
    case Executing => Return(w, false)
    case Returned(_) => Settle(w)
    case Settled => ReleaseSlot(w)
    case Unslotted => ReleaseClaim(w)
  }

  predicate IsOwnStep(step: Step) {
    !step.Spawn? && !step.SelfStatus? && !step.Cancel? && !step.Retry?
  }

  /** A worker blocks only at a full pool, and then one inside it can move. */
  lemma NoDeadlock(conc: int, s: State, w: nat) returns (u: nat)
    requires Core(conc, s)
    requires w in s.workers && s.workers[w].phase != Gone
    ensures u in s.workers && s.workers[u].phase != Gone && Enabled(conc, s, OwnStep(s, u))
  {
    var p := PoolOf(s.workers[w].child.kind);
    assert Used(s.inUse, p) == |Occupants(s.workers, p)|;
    if s.workers[w].phase == Claimed && Used(s.inUse, p) >= Capacity(p, conc) {
      u :| u in Occupants(s.workers, p);
    } else {
      u := w;
    }
    assert Used(s.inUse, PoolOf(s.workers[u].child.kind)) == |Occupants(s.workers, PoolOf(s.workers[u].child.kind))|;
    if s.workers[u].phase == Settled {
      assert u in Occupants(s.workers, PoolOf(s.workers[u].child.kind));
    }
  }

  // ----- Workers finish -----

  function Fuel(w: Worker): nat {
    match w.phase
    case Checking(n) => 9 + (if n <= |DependsOn(w.child.kind)| then |DependsOn(w.child.kind)| - n else 0)
    case Admitted => 8
    case Claimed => 7
    case Slotted => 6
    case Executing => 5
    case Returned(_) => 4
    case Settled => 3
    case Unslotted => 2
    case Gone => 0
  }

  ghost function TotalFuel(workers: map<nat, Worker>, ws: set<nat>): nat
    requires ws <= workers.Keys
  {
    if ws == {} then 0
    else
      var w :| w in ws;
      Fuel(workers[w]) + TotalFuel(workers, ws - {w})
  }

  lemma {:induction false} FuelSplit(workers: map<nat, Worker>, ws: set<nat>, w: nat)
    requires ws <= workers.Keys && w in ws
    ensures TotalFuel(workers, ws) == Fuel(workers[w]) + TotalFuel(workers, ws - {w})
    decreases |ws|
  {
    var v :| v in ws && TotalFuel(workers, ws) == Fuel(workers[v]) + TotalFuel(workers, ws - {v});
    if v != w {
      FuelSplit(workers, ws - {v}, w);
      FuelSplit(workers, ws - {w}, v);
      assert ws - {v} - {w} == ws - {w} - {v};
    }
  }

  lemma {:induction false} FuelFrame(a: map<nat, Worker>, b: map<nat, Worker>, ws: set<nat>)
    requires ws <= a.Keys && ws <= b.Keys
    requires forall w :: w in ws ==> a[w] == b[w]
    ensures TotalFuel(a, ws) == TotalFuel(b, ws)
    decreases |ws|
  {
    if ws != {} {
      var w :| w in ws;
      FuelSplit(a, ws, w);
      FuelSplit(b, ws, w);
      FuelFrame(a, b, ws - {w});
    }
  }

  lemma OwnStepMoves(conc: int, s: State, step: Step)
    requires Enabled(conc, s, step) && IsOwnStep(step)
    ensures var t, w := Apply(conc, s, step), step.w;
            w in s.workers && t.workers == s.workers[w := t.workers[w]] && t.workers[w].child == s.workers[w].child
  {
  }

  lemma OwnFuelDrops(conc: int, s: State, step: Step)
    requires Enabled(conc, s, step) && IsOwnStep(step)
    ensures step.w in s.workers && Fuel(Apply(conc, s, step).workers[step.w]) < Fuel(s.workers[step.w])
  {
    OwnStepMoves(conc, s, step);
  }

  ghost function Fuels(s: State): nat {
    TotalFuel(s.workers, s.workers.Keys)
  }

  /** Every step a worker takes brings it nearer to its end. */
  lemma OwnStepBurnsFuel(conc: int, s: State, step: Step)
    requires Enabled(conc, s, step) && IsOwnStep(step)
    ensures Apply(conc, s, step).workers.Keys == s.workers.Keys
    ensures Fuels(Apply(conc, s, step)) < Fuels(s)
  {
    var t, w := Apply(conc, s, step), step.w;
    OwnStepMoves(conc, s, step);
    OwnFuelDrops(conc, s, step);
    FuelSplit(s.workers, s.workers.Keys, w);
    FuelSplit(t.workers, t.workers.Keys, w);
    FuelFrame(s.workers, t.workers, s.workers.Keys - {w});
  }

  /** A new worker has at most twelve steps before it. */
  lemma SpawnAddsFuel(conc: int, s: State, w: nat, c: Child)
    requires Enabled(conc, s, Spawn(w, c))
    ensures Fuels(Apply(conc, s, Spawn(w, c))) <= Fuels(s) + 12
  {
    var t := Apply(conc, s, Spawn(w, c));
    assert t.workers.Keys - {w} == s.workers.Keys;
    FuelSplit(t.workers, t.workers.Keys, w);
    FuelFrame(s.workers, t.workers, s.workers.Keys);
  }

  function OwnSteps(steps: seq<Step>): nat {
    if steps == [] then 0 else (if IsOwnStep(steps[0]) then 1 else 0) + OwnSteps(steps[1..])
  }

  function Spawns(steps: seq<Step>): nat {
    if steps == [] then 0 else (if steps[0].Spawn? then 1 else 0) + Spawns(steps[1..])
  }

  /** Over any run the workers take at most twelve steps for each spawn, on top
      of what was left to do at its start: the work never goes on by itself. */
  lemma {:induction false} WorkIsBounded(conc: int, s: State, steps: seq<Step>)
    requires ValidRun(conc, s, steps)
    ensures OwnSteps(steps) + Fuels(After(conc, s, steps)) <= Fuels(s) + 12 * Spawns(steps)
    decreases |steps|
  {
    if steps != [] {
      if IsOwnStep(steps[0]) {
        OwnStepBurnsFuel(conc, s, steps[0]);
      } else if steps[0].Spawn? {
        SpawnAddsFuel(conc, s, steps[0].w, steps[0].c);
      }
      WorkIsBounded(conc, Apply(conc, s, steps[0]), steps[1..]);
    }
  }

  // ----- Some child can always be started -----

  predicate Known(s: Status) {
    Startable(s) || s == Running || Terminal(s)
  }

  predicate Quiet(s: State) {
    forall w :: w in s.workers ==> s.workers[w].phase == Gone
  }

  /** A job that says it is running has a body to show for it. */
  ghost predicate NoOrphanRunning(workers: map<nat, Worker>, status: map<Child, Status>) {
    forall c :: c in status ==>
      Known(status[c]) && (status[c] == Running ==> exists w :: BodyOf(workers, w, c))
  }

  /** Whatever an unfinished child waits for is part of the plan. */
  predicate Closed(status: map<Child, Status>) {
    forall c, d :: c in status && !Terminal(status[c]) && d in DependsOn(c.kind) ==> Child(c.run, d) in status
  }

  predicate EndedBadly(s: Status) {
    s in {Failed, Error, Cancelled}
  }

  /** The prepare of the child's run is over and did not end well. */
  predicate PrepareFailed(status: map<Child, Status>, run: nat) {
    Child(run, Prepare) in status && EndedBadly(status[Child(run, Prepare)])
  }

  lemma {:induction false} LowestRanked(status: map<Child, Status>, c: Child) returns (m: Child)
    requires c in status && !Terminal(status[c]) && Closed(status)
    ensures m in status && !Terminal(status[m]) && m.run == c.run
    ensures forall d :: d in DependsOn(m.kind) ==> Child(m.run, d) in status && Terminal(status[Child(m.run, d)])
    decreases Rank(c.kind)
  {
    if d :| d in DependsOn(c.kind) && !Terminal(status[Child(c.run, d)]) {
      m := LowestRanked(status, Child(c.run, d));
    } else {
      m := c;
    }
  }

  /** What the parent loop would start. */
  predicate Selectable(status: map<Child, Status>, c: Child) {
    c in status && Startable(status[c]) && Ready(status, c)
  }

  /** The rank argument: among the unfinished children of a quiet run one has
      all it waits for, and the parent loop will pick it, unless prepare failed. */
  lemma SomeChildReady(s: State, c: Child) returns (m: Child)
    requires Quiet(s) && NoOrphanRunning(s.workers, s.status) && Closed(s.status)
    requires c in s.status && !Terminal(s.status[c])
    ensures m.run == c.run
    ensures Selectable(s.status, m) || PrepareFailed(s.status, c.run)
  {
    m := LowestRanked(s.status, c);
    if !PrepareFailed(s.status, c.run) {
      forall d | d in DependsOn(m.kind) ensures DepOk(s.status, m, d) {
        assert d == Prepare ==> Child(m.run, d) == Child(c.run, Prepare);
      }
    }
  }

  // ----- Every run keeps what that argument needs -----

  predicate DepsPlanned(status: map<Child, Status>, c: Child) {
    forall d :: d in DependsOn(c.kind) ==> Child(c.run, d) in status
  }

  /** No retry opens a child whose dependencies were never planned. */
  predicate RetriesPlanned(status: map<Child, Status>, steps: seq<Step>) {
    forall i :: 0 <= i < |steps| && steps[i].Retry? ==> DepsPlanned(status, steps[i].c)
  }

  lemma {:induction false} StepKeepsClosed(conc: int, s: State, step: Step)
    requires Enabled(conc, s, step) && Core(conc, s) && Closed(s.status)
    requires step.Retry? ==> DepsPlanned(s.status, step.c)
    ensures Closed(Apply(conc, s, step).status)
    ensures Apply(conc, s, step).status.Keys == s.status.Keys
  {
    if !step.Retry? {
      StepKeepsTerminal(conc, s, step);
    }
  }

  /** A standstill: no worker can step and the parent loop starts nothing. */
  predicate Stalled(conc: int, s: State) {
    && (forall w :: w in s.workers && s.workers[w].phase != Gone ==> !Enabled(conc, s, OwnStep(s, w)))
    && (forall c :: c in s.status ==> !Selectable(s.status, c))
  }

  lemma StalledIsQuiet(conc: int, s: State)
    requires Core(conc, s) && Stalled(conc, s)
    ensures Quiet(s)
  {
    if w :| w in s.workers && s.workers[w].phase != Gone {
      var u := NoDeadlock(conc, s, w);
      assert false;
    }
  }

  lemma {:induction false} RunKeepsProgress(conc: int, s: State, steps: seq<Step>)
    requires ValidRun(conc, s, steps) && Core(conc, s)
    requires NoOrphanRunning(s.workers, s.status)
    ensures Core(conc, After(conc, s, steps)) && NoOrphanRunning(After(conc, s, steps).workers, After(conc, s, steps).status)
    ensures Closed(s.status) && RetriesPlanned(s.status, steps) ==> Closed(After(conc, s, steps).status)
    decreases |steps|
  {
    if steps != [] {
      StepKeepsCore(conc, s, steps[0]);
      StepKeepsRunning(conc, s, steps[0]);
      if Closed(s.status) && RetriesPlanned(s.status, steps) {
        StepKeepsClosed(conc, s, steps[0]);
        assert forall i :: 0 <= i < |steps| - 1 ==> steps[1..][i] == steps[i + 1];
      }
      RunKeepsProgress(conc, Apply(conc, s, steps[0]), steps[1..]);
    }
  }

  /** Progress, for every run whatever failed, was cancelled, skipped itself or
      was retried on the way: when it has come to a standstill, every child is
      over, but for those of a run whose prepare ended badly. */
  lemma StandstillIsTheEnd(conc: int, s: State, steps: seq<Step>)
    requires ValidRun(conc, s, steps) && Core(conc, s) && NoOrphanRunning(s.workers, s.status)
    requires Closed(s.status) && RetriesPlanned(s.status, steps)
    requires Stalled(conc, After(conc, s, steps))
    ensures var t := After(conc, s, steps);
            forall c :: c in t.status ==> Terminal(t.status[c]) || PrepareFailed(t.status, c.run)
  {
    var t := After(conc, s, steps);
    RunKeepsProgress(conc, s, steps);
    StalledIsQuiet(conc, t);
    forall c | c in t.status && !Terminal(t.status[c]) ensures PrepareFailed(t.status, c.run) {
      var m := SomeChildReady(t, c);
    }
  }

  // ----- Driving a run to its end -----

  lemma MoveKeepsRunning(workers: map<nat, Worker>, status: map<Child, Status>, w: nat, v: Worker)
    requires NoOrphanRunning(workers, status)
    requires w in workers ==> v.child == workers[w].child && (InBody(workers[w].phase) ==> InBody(v.phase))
    ensures NoOrphanRunning(workers[w := v], status)
  {
    var after := workers[w := v];
    forall c | c in status && status[c] == Running ensures exists u :: BodyOf(after, u, c) {
      var u :| BodyOf(workers, u, c);
      assert BodyOf(after, u, c);
    }
  }

  lemma SettleKeepsRunning(s: State, w: nat, final: Status)
    requires ClaimsExact(s.workers, s.processing) && NoOrphanRunning(s.workers, s.status)
    requires w in s.workers && s.workers[w].phase.Returned? && Terminal(final)
    ensures var c := s.workers[w].child;
            NoOrphanRunning(s.workers[w := Worker(c, Settled)], s.status[c := final])
  {
    var c := s.workers[w].child;
    var after := s.workers[w := Worker(c, Settled)];
    forall d | d in s.status && d != c && s.status[d] == Running ensures exists u :: BodyOf(after, u, d) {
      var u :| BodyOf(s.workers, u, d);
      assert BodyOf(after, u, d);
    }
  }

  lemma StartKeepsRunning(s: State, w: nat)
    requires NoOrphanRunning(s.workers, s.status) && Phased(s, w, Slotted)
    ensures var c := s.workers[w].child;
            NoOrphanRunning(s.workers[w := Worker(c, Executing)], s.status[c := Running])
  {
    var c := s.workers[w].child;
    MoveKeepsRunning(s.workers, s.status, w, Worker(c, Executing));
    assert BodyOf(s.workers[w := Worker(c, Executing)], w, c);
  }

  lemma SetKeepsRunning(s: State, c: Child, to: Status)
    requires NoOrphanRunning(s.workers, s.status) && Known(to) && to != Running
    ensures NoOrphanRunning(s.workers, s.status[c := to])
  {
  }

  lemma StepKeepsRunning(conc: int, s: State, step: Step)
    requires Enabled(conc, s, step)
    requires ClaimsExact(s.workers, s.processing) && NoOrphanRunning(s.workers, s.status)
    ensures NoOrphanRunning(Apply(conc, s, step).workers, Apply(conc, s, step).status)
  {
    var t := Apply(conc, s, step);
    match step
    case Cancel(c) => SetKeepsRunning(s, c, Cancelled);
    case Retry(c) => SetKeepsRunning(s, c, Queued);
    case SelfStatus(w, to) => SetKeepsRunning(s, s.workers[w].child, to);
    case Settle(w) => SettleKeepsRunning(s, w, t.status[s.workers[w].child]);
    case Recheck(w) =>
      if Terminal(s.status[s.workers[w].child]) {
        MoveKeepsRunning(s.workers, s.status, w, t.workers[w]);
      } else {
        StartKeepsRunning(s, w);
      }
    case _ => MoveKeepsRunning(s.workers, s.status, step.w, t.workers[step.w]);
  }

  /** Every spawn in the run is one the parent loop would make. */
  ghost predicate LoopRun(conc: int, s: State, steps: seq<Step>)
    requires ValidRun(conc, s, steps)
    decreases |steps|
  {
    steps == [] || (
      && !steps[0].Cancel? && !steps[0].SelfStatus? && !steps[0].Retry?
      && (steps[0].Spawn? ==> Selectable(s.status, steps[0].c))
      && LoopRun(conc, Apply(conc, s, steps[0]), steps[1..]))
  }

  ghost predicate CanReach(conc: int, s: State, t: State) {
    exists steps :: ValidRun(conc, s, steps) && LoopRun(conc, s, steps) && After(conc, s, steps) == t
  }

  lemma ReachSelf(conc: int, s: State)
    ensures CanReach(conc, s, s)
  {
    assert ValidRun(conc, s, []) && LoopRun(conc, s, []) && After(conc, s, []) == s;
  }

  lemma ReachStep(conc: int, s: State, step: Step, t: State)
    requires Enabled(conc, s, step) && !step.Cancel? && !step.SelfStatus? && !step.Retry?
    requires step.Spawn? ==> Selectable(s.status, step.c)
    requires CanReach(conc, Apply(conc, s, step), t)
    ensures CanReach(conc, s, t)
  {
    var rest :| ValidRun(conc, Apply(conc, s, step), rest) && LoopRun(conc, Apply(conc, s, step), rest)
                && After(conc, Apply(conc, s, step), rest) == t;
    var steps := [step] + rest;
    assert steps[1..] == rest;
    assert ValidRun(conc, s, steps) && LoopRun(conc, s, steps);
  }

  /** No prepare has ended badly, and none is about to. */
  predicate PrepareSound(workers: map<nat, Worker>, status: map<Child, Status>) {
    && (forall c :: c in status && c.kind == Prepare ==> !EndedBadly(status[c]))
    && (forall w :: w in workers && workers[w].child.kind == Prepare ==> workers[w].phase != Returned(true))
  }

  ghost predicate Drivable(conc: int, s: State) {
    && Inv(conc, s)
    && NoOrphanRunning(s.workers, s.status)
    && PrepareSound(s.workers, s.status)
  }

  predicate Driving(step: Step) {
    !step.Cancel? && !step.SelfStatus? && !step.Retry? && !(step.Return? && step.failed)
  }

  lemma MoveKeepsPrepare(workers: map<nat, Worker>, status: map<Child, Status>, w: nat, v: Worker, to: Status)
    requires PrepareSound(workers, status)
    requires v.phase != Returned(true)
    requires v.child in status && (v.child.kind == Prepare ==> !EndedBadly(to))
    ensures PrepareSound(workers[w := v], status[v.child := to])
  {
  }

  lemma DrivingStepMoves(conc: int, s: State, step: Step, c: Child)
    requires Enabled(conc, s, step) && Driving(step)
    requires c == if step.Spawn? then step.c else s.workers[step.w].child
    requires c in s.status && (c.kind == Prepare ==> !EndedBadly(s.status[c]))
    requires step.Settle? && c.kind == Prepare ==> s.workers[step.w].phase == Returned(false)
    ensures var t, w := Apply(conc, s, step), step.w;
            && w in t.workers && t.workers[w].child == c && t.workers[w].phase != Returned(true)
            && t.workers == s.workers[w := t.workers[w]] && t.status == s.status[c := t.status[c]]
            && (c.kind == Prepare ==> !EndedBadly(t.status[c]))
  {
  }

  lemma StepKeepsPrepare(conc: int, s: State, step: Step)
    requires Enabled(conc, s, step) && PrepareSound(s.workers, s.status)
    requires Driving(step)
    requires forall w :: w in s.workers ==> s.workers[w].child in s.status
    ensures PrepareSound(Apply(conc, s, step).workers, Apply(conc, s, step).status)
  {
    var c := if step.Spawn? then step.c else s.workers[step.w].child;
    DrivingStepMoves(conc, s, step, c);
    var t, w := Apply(conc, s, step), step.w;
    MoveKeepsPrepare(s.workers, s.status, w, t.workers[w], t.status[c]);
  }

  /** The steps that drive a run keep it drivable. */
  lemma {:induction false} DrivingStep(conc: int, s: State, step: Step)
    requires Drivable(conc, s) && Enabled(conc, s, step)
    requires Driving(step)
    ensures Drivable(conc, Apply(conc, s, step))
  {
    StepKeepsInv(conc, s, step);
    StepKeepsRunning(conc, s, step);
    StepKeepsPrepare(conc, s, step);
  }

  function Open(status: map<Child, Status>): set<Child> {
    set c | c in status && !Terminal(status[c])
  }

  lemma OpenShrinks(conc: int, s: State, step: Step)
    requires Enabled(conc, s, step) && !step.Retry? && Inv(conc, s)
    ensures Open(Apply(conc, s, step).status) <= Open(s.status)
  {
    StepKeepsTerminal(conc, s, step);
  }

  /** Let every worker run out. */
  lemma {:induction false} WorkersRunOut(conc: int, s: State) returns (t: State)
    requires Drivable(conc, s)
    ensures CanReach(conc, s, t) && Drivable(conc, t) && Quiet(t)
    ensures Open(t.status) <= Open(s.status)
    decreases Fuels(s)
  {
    if w :| w in s.workers && s.workers[w].phase != Gone {
      var u := NoDeadlock(conc, s, w);
      var step := OwnStep(s, u);
      OwnStepBurnsFuel(conc, s, step);
      DrivingStep(conc, s, step);
      OpenShrinks(conc, s, step);
      t := WorkersRunOut(conc, Apply(conc, s, step));
      ReachStep(conc, s, step, t);
    } else {
      t := s;
      ReachSelf(conc, s);
    }
  }

  /** A worker on c that will get through: its readiness, claim and slot cannot
      be denied because nobody else is about. */
  ghost predicate Alone(s: State, w: nat, c: Child) {
    && w in s.workers && s.workers[w].child == c
    && (forall v :: v in s.workers && v != w ==> s.workers[v].phase == Gone)
    && (s.workers[w].phase == Gone ==> c in s.status && Terminal(s.status[c]))
    && ((s.workers[w].phase == Settled || s.workers[w].phase == Unslotted) ==> c in s.status && Terminal(s.status[c]))
    && Ready(s.status, c)
  }

  lemma StableReady(a: map<Child, Status>, b: map<Child, Status>, c: Child)
    requires StatusesStable(a, b) && Ready(a, c)
    ensures Ready(b, c)
  {
    StableDeps(a, b, Worker(c, Admitted));
  }

  lemma AloneEnabled(conc: int, s: State, w: nat, c: Child)
    requires Inv(conc, s) && Alone(s, w, c) && s.workers[w].phase != Gone
    ensures Enabled(conc, s, OwnStep(s, w))
  {
    var u := NoDeadlock(conc, s, w);
    assert u == w;
  }

  lemma {:induction false} AloneStep(conc: int, s: State, w: nat, c: Child)
    requires Drivable(conc, s) && Alone(s, w, c) && s.workers[w].phase != Gone
    ensures Enabled(conc, s, OwnStep(s, w))
    ensures Alone(Apply(conc, s, OwnStep(s, w)), w, c)
  {
    AloneEnabled(conc, s, w, c);
    var step := OwnStep(s, w);
    OwnStepMoves(conc, s, step);
    AloneProceeds(conc, s, w, c);
    StepKeepsTerminal(conc, s, step);
    AloneAfter(s, Apply(conc, s, step), w, c);
  }

  lemma AloneAfter(s: State, t: State, w: nat, c: Child)
    requires Alone(s, w, c) && StatusesStable(s.status, t.status)
    requires w in t.workers && t.workers == s.workers[w := t.workers[w]] && t.workers[w].child == c
    requires t.workers[w].phase in {Gone, Settled, Unslotted} ==> c in t.status && Terminal(t.status[c])
    ensures Alone(t, w, c)
  {
    StableReady(s.status, t.status, c);
  }

  lemma AloneProceeds(conc: int, s: State, w: nat, c: Child)
    requires Inv(conc, s) && Alone(s, w, c) && s.workers[w].phase != Gone
    requires Enabled(conc, s, OwnStep(s, w))
    ensures var t := Apply(conc, s, OwnStep(s, w));
            t.workers[w].phase in {Gone, Settled, Unslotted} ==> c in t.status && Terminal(t.status[c])
  {
    assert WorkerDeps(s.status, s.workers[w]);
    match s.workers[w].phase
    case Admitted =>
      forall v ensures !HolderOf(s.workers, v, c) {
      }
      assert c !in s.processing;
    case Checking(n) =>
      if n < |DependsOn(c.kind)| {
        assert DepOk(s.status, c, DependsOn(c.kind)[n]);
      }
    case _ =>
  }

  lemma {:induction false} AloneRunsOut(conc: int, s: State, w: nat, c: Child) returns (t: State)
    requires Drivable(conc, s) && Alone(s, w, c)
    ensures CanReach(conc, s, t) && Drivable(conc, t) && Quiet(t)
    ensures Open(t.status) <= Open(s.status) && c in t.status && Terminal(t.status[c])
    decreases Fuels(s)
  {
    if s.workers[w].phase == Gone {
      t := s;
      ReachSelf(conc, s);
    } else {
      var step := OwnStep(s, w);
      AloneStep(conc, s, w, c);
      OwnStepBurnsFuel(conc, s, step);
      DrivingStep(conc, s, step);
      OpenShrinks(conc, s, step);
      t := AloneRunsOut(conc, Apply(conc, s, step), w, c);
      ReachStep(conc, s, step, t);
    }
  }

  lemma {:induction false} FreshWorker(ws: set<nat>) returns (w: nat)
    ensures w !in ws
    ensures forall v :: v in ws ==> v < w
    decreases |ws|
  {
    if ws == {} {
      w := 0;
    } else {
      var v :| v in ws;
      var u := FreshWorker(ws - {v});
      assert ws == (ws - {v}) + {v};
      w := if u > v then u else v + 1;
    }
  }

  lemma SpawnIsAlone(conc: int, s: State, w: nat, m: Child)
    requires Quiet(s) && w !in s.workers && m in s.status && !Terminal(s.status[m]) && Ready(s.status, m)
    ensures Alone(Apply(conc, s, Spawn(w, m)), w, m)
  {
  }

  /** One round: the loop picks a ready child and its worker runs out. */
  lemma OneRound(conc: int, s: State, m: Child) returns (t: State)
    requires Drivable(conc, s) && Quiet(s) && Selectable(s.status, m)
    ensures CanReach(conc, s, t) && Drivable(conc, t) && Quiet(t)
    ensures |Open(t.status)| < |Open(s.status)|
  {
    var w := FreshWorker(s.workers.Keys);
    var step := Spawn(w, m);
    DrivingStep(conc, s, step);
    SpawnIsAlone(conc, s, w, m);
    t := AloneRunsOut(conc, Apply(conc, s, step), w, m);
    ReachStep(conc, s, step, t);
    assert m in Open(s.status) && m !in Open(t.status);
    SubsetSize(Open(t.status), Open(s.status) - {m});
  }

  lemma {:induction false} QuietRunsOut(conc: int, s: State) returns (t: State)
    requires Drivable(conc, s) && Quiet(s)
    ensures CanReach(conc, s, t) && Stalled(conc, t) && Drivable(conc, t)
    decreases |Open(s.status)|
  {
    if m :| m in s.status && Selectable(s.status, m) {
      var next := OneRound(conc, s, m);
      t := QuietRunsOut(conc, next);
      ReachTrans(conc, s, next, t);
    } else {
      t := s;
      ReachSelf(conc, s);
    }
  }

  lemma {:induction false} ReachTrans(conc: int, a: State, b: State, c: State)
    requires CanReach(conc, a, b) && CanReach(conc, b, c)
    ensures CanReach(conc, a, c)
  {
    var steps :| ValidRun(conc, a, steps) && LoopRun(conc, a, steps) && After(conc, a, steps) == b;
    ReachVia(conc, a, steps, c);
  }

  lemma {:induction false} ReachVia(conc: int, a: State, steps: seq<Step>, c: State)
    requires ValidRun(conc, a, steps) && LoopRun(conc, a, steps) && CanReach(conc, After(conc, a, steps), c)
    ensures CanReach(conc, a, c)
    decreases |steps|
  {
    if steps != [] {
      ReachVia(conc, Apply(conc, a, steps[0]), steps[1..], c);
      ReachStep(conc, a, steps[0], c);
    }
  }

  /** The parent loop alone, with no cancel, no retry and no failing body, brings
      any run to a standstill with no failed prepare. */
  lemma {:induction false} StandstillIsReachable(conc: int, s: State) returns (t: State)
    requires Drivable(conc, s)
    ensures CanReach(conc, s, t) && Stalled(conc, t) && Drivable(conc, t)
  {
    var q := WorkersRunOut(conc, s);
    t := QuietRunsOut(conc, q);
    ReachTrans(conc, s, q, t);
  }
}
