// What the bodies of a run leave behind: the status each worker settles on, told
// by the steps of the run alone, and what it means for dependents and the fold.
module RunVerdicts {
  import opened AgentKinds
  import opened RunStatus
  import opened RunScheduler

  // ----- What was said while a body ran -----

  /** The last thing said about the child since the worker started its body: a
      cancel, or a status the body gave its own job. */
  function LastWord(steps: seq<Step>, w: nat, c: Child): seq<Status> {
    if steps == [] then []
    else
      match steps[|steps| - 1]
      case Recheck(v) => if v == w then [] else LastWord(steps[..|steps| - 1], w, c)
      case SelfStatus(v, to) => if v == w then [to] else LastWord(steps[..|steps| - 1], w, c)
      case Cancel(d) => if d == c then [Cancelled] else LastWord(steps[..|steps| - 1], w, c)
      case _ => LastWord(steps[..|steps| - 1], w, c)
  }

  /** The status a body ends with: cancelled if that was the last word, else failed
      if it returned an error, else skipped if it said so, else completed. */
  function Verdict(word: seq<Status>, failed: bool): Status {
    if word == [Cancelled] then Cancelled
    else if failed then Failed
    else if word == [Skipped] then Skipped
    else Completed
  }

  predicate Finished(p: Phase) {
    p.Settled? || p.Unslotted? || p.Gone?
  }

  predicate NoBody(workers: map<nat, Worker>, c: Child) {
    forall v :: v in workers ==> !BodyOf(workers, v, c)
  }

  predicate Silent(steps: seq<Step>, w: nat) {
    Return(w, true) !in steps && Return(w, false) !in steps
  }

  /** How far the worker's story has come after the steps. */
  ghost predicate Told(s: State, steps: seq<Step>, w: nat) {
    if w !in s.workers then Silent(steps, w)
    else
      var c, p := s.workers[w].child, s.workers[w].phase;
      c in s.status &&
      if p.Executing? then Silent(steps, w) && Speaks(s.status[c], LastWord(steps, w, c))
      else if p.Returned? then
        Return(w, p.failed) in steps && Return(w, !p.failed) !in steps && Speaks(s.status[c], LastWord(steps, w, c))
      else if Finished(p) then
        forall failed :: Return(w, failed) in steps ==>
          && Return(w, !failed) !in steps && NoBody(s.workers, c)
          && s.status[c] == Verdict(LastWord(steps, w, c), failed)
      else Silent(steps, w)
  }

  predicate Speaks(status: Status, word: seq<Status>) {
    status == (if word == [] then Running else word[0]) && |word| <= 1
    && (word != [] ==> word[0] in {Cancelled, Skipped})
  }

  lemma WordSnoc(steps: seq<Step>, step: Step, w: nat, c: Child)
    ensures LastWord(steps + [step], w, c) ==
            match step
            case Recheck(v) => if v == w then [] else LastWord(steps, w, c)
            case SelfStatus(v, to) => if v == w then [to] else LastWord(steps, w, c)
            case Cancel(d) => if d == c then [Cancelled] else LastWord(steps, w, c)
            case _ => LastWord(steps, w, c)
  {
    assert (steps + [step])[..|steps|] == steps;
  }

  lemma SaidSnoc(steps: seq<Step>, step: Step)
    ensures forall x :: x in steps + [step] <==> x in steps || x == step
  {
  }

  // ----- Each step goes on with the story -----

  predicate IsOwn(step: Step, w: nat) {
    !step.Cancel? && !step.Retry? && step.w == w
  }

  lemma SelfStatusesAreTwo(k: Kind)
    ensures SelfStatuses(k) <= {Skipped, Cancelled}
  {
  }

  /** Before its body a worker says nothing, and so after leaving early. */
  lemma {:induction false} EarlyTold(conc: int, s: State, steps: seq<Step>, step: Step, w: nat)
    requires Enabled(conc, s, step) && IsOwn(step, w) && (step.CheckDep? || step.Claim? || step.Acquire?)
    requires Told(s, steps, w)
    ensures Told(Apply(conc, s, step), steps + [step], w)
  {
    SaidSnoc(steps, step);
  }

  lemma {:induction false} RecheckTold(conc: int, s: State, steps: seq<Step>, w: nat)
    requires Enabled(conc, s, Recheck(w)) && Told(s, steps, w)
    ensures Told(Apply(conc, s, Recheck(w)), steps + [Recheck(w)], w)
  {
    SaidSnoc(steps, Recheck(w));
    WordSnoc(steps, Recheck(w), w, s.workers[w].child);
  }

  lemma {:induction false} SelfStatusTold(conc: int, s: State, steps: seq<Step>, w: nat, to: Status)
    requires Enabled(conc, s, SelfStatus(w, to)) && Told(s, steps, w)
    ensures Told(Apply(conc, s, SelfStatus(w, to)), steps + [SelfStatus(w, to)], w)
  {
    SaidSnoc(steps, SelfStatus(w, to));
    WordSnoc(steps, SelfStatus(w, to), w, s.workers[w].child);
    SelfStatusesAreTwo(s.workers[w].child.kind);
  }

  lemma {:induction false} ReturnTold(conc: int, s: State, steps: seq<Step>, w: nat, failed: bool)
    requires Enabled(conc, s, Return(w, failed)) && Told(s, steps, w)
    ensures Told(Apply(conc, s, Return(w, failed)), steps + [Return(w, failed)], w)
  {
    SaidSnoc(steps, Return(w, failed));
    WordSnoc(steps, Return(w, failed), w, s.workers[w].child);
  }

  lemma {:induction false} ReleaseTold(conc: int, s: State, steps: seq<Step>, step: Step, w: nat)
    requires Enabled(conc, s, step) && IsOwn(step, w) && (step.ReleaseSlot? || step.ReleaseClaim?)
    requires Told(s, steps, w)
    ensures Told(Apply(conc, s, step), steps + [step], w)
  {
    var t, c := Apply(conc, s, step), s.workers[w].child;
    SaidSnoc(steps, step);
    WordSnoc(steps, step, w, c);
    if NoBody(s.workers, c) {
      forall v | v in t.workers ensures !BodyOf(t.workers, v, c) {
        assert !BodyOf(s.workers, v, c);
      }
    }
  }

  lemma {:induction false} SpawnTold(conc: int, s: State, steps: seq<Step>, step: Step, w: nat)
    requires Enabled(conc, s, step) && Core(conc, s) && IsOwn(step, w) && step.Spawn?
    requires Told(s, steps, w)
    ensures Told(Apply(conc, s, step), steps + [step], w)
  {
    SaidSnoc(steps, step);
  }

  /** The final status is the verdict on what was said. */
  lemma {:induction false} SettleTold(conc: int, s: State, steps: seq<Step>, step: Step, w: nat)
    requires Enabled(conc, s, step) && Core(conc, s) && step == Settle(w)
    requires Told(s, steps, w)
    ensures Told(Apply(conc, s, step), steps + [step], w)
  {
    var c := s.workers[w].child;
    var t := Apply(conc, s, step);
    WordSnoc(steps, step, w, c);
    SaidSnoc(steps, step);
    forall v | v in t.workers ensures !BodyOf(t.workers, v, c) {
      if v != w && BodyOf(s.workers, v, c) {
        assert Holds(s.workers[v].phase) && Holds(s.workers[w].phase);
        assert false;
      }
    }
  }

  /** A status is written by a worker in its body, at its recheck or its end, by a
      cancel and by a retry. */
  lemma OtherStepWrites(conc: int, s: State, step: Step, w: nat, c: Child)
    requires Enabled(conc, s, step) && Core(conc, s) && !IsOwn(step, w) && !step.Retry?
    requires w in s.workers && s.workers[w].child == c && c in s.status
    requires InBody(s.workers[w].phase)
    ensures var t := Apply(conc, s, step);
            && w in t.workers && t.workers[w] == s.workers[w] && c in t.status
            && t.status[c] == if step == Cancel(c) then Cancelled else s.status[c]
  {
    if (step.Recheck? || step.SelfStatus? || step.Settle?) && s.workers[step.w].child == c {
      assert Holds(s.workers[step.w].phase) && Holds(s.workers[w].phase);
      assert false;
    }
  }

  /** A child that is over with no body about stays as it is without a retry. */
  lemma OverStays(conc: int, s: State, step: Step, c: Child)
    requires Enabled(conc, s, step) && !step.Retry?
    requires c in s.status && Terminal(s.status[c]) && NoBody(s.workers, c)
    ensures var t := Apply(conc, s, step);
            c in t.status && t.status[c] == s.status[c] && NoBody(t.workers, c)
  {
    var t := Apply(conc, s, step);
    if step.SelfStatus? || step.Settle? {
      assert !BodyOf(s.workers, step.w, c);
    }
    forall v | v in t.workers ensures !BodyOf(t.workers, v, c) {
      assert v in s.workers ==> !BodyOf(s.workers, v, c);
    }
  }

  lemma {:induction false} BodyGoesOn(conc: int, s: State, steps: seq<Step>, step: Step, w: nat)
    requires Enabled(conc, s, step) && Core(conc, s) && !IsOwn(step, w) && !step.Retry?
    requires Told(s, steps, w) && w in s.workers && InBody(s.workers[w].phase)
    ensures Told(Apply(conc, s, step), steps + [step], w)
  {
    SaidSnoc(steps, step);
    WordSnoc(steps, step, w, s.workers[w].child);
    OtherStepWrites(conc, s, step, w, s.workers[w].child);
  }

  lemma {:induction false} VerdictStays(conc: int, s: State, steps: seq<Step>, step: Step, w: nat)
    requires Enabled(conc, s, step) && !IsOwn(step, w) && !step.Retry?
    requires Told(s, steps, w) && w in s.workers && Finished(s.workers[w].phase) && !Silent(steps, w)
    ensures Told(Apply(conc, s, step), steps + [step], w)
  {
    SaidSnoc(steps, step);
    WordSnoc(steps, step, w, s.workers[w].child);
    OverStays(conc, s, step, s.workers[w].child);
    OthersStand(conc, s, step, w);
  }

  lemma OthersStand(conc: int, s: State, step: Step, w: nat)
    requires Enabled(conc, s, step) && !IsOwn(step, w)
    ensures w in s.workers ==> w in Apply(conc, s, step).workers && Apply(conc, s, step).workers[w] == s.workers[w]
    ensures w !in s.workers ==> w !in Apply(conc, s, step).workers
  {
  }

  lemma KeysStay(conc: int, s: State, step: Step)
    requires Enabled(conc, s, step)
    ensures s.status.Keys <= Apply(conc, s, step).status.Keys
  {
  }

  lemma {:induction false} SilenceStays(conc: int, s: State, steps: seq<Step>, step: Step, w: nat)
    requires Enabled(conc, s, step) && !IsOwn(step, w) && Told(s, steps, w) && Silent(steps, w)
    requires w in s.workers ==> !InBody(s.workers[w].phase)
    ensures Told(Apply(conc, s, step), steps + [step], w)
  {
    SaidSnoc(steps, step);
    OthersStand(conc, s, step, w);
    KeysStay(conc, s, step);
  }

  lemma {:induction false} StepTold(conc: int, s: State, steps: seq<Step>, step: Step, w: nat)
    requires Enabled(conc, s, step) && Core(conc, s) && !step.Retry? && Told(s, steps, w)
    ensures Told(Apply(conc, s, step), steps + [step], w)
  {
    if !IsOwn(step, w) {
      if w in s.workers && InBody(s.workers[w].phase) {
        BodyGoesOn(conc, s, steps, step, w);
      } else if Silent(steps, w) {
        SilenceStays(conc, s, steps, step, w);
      } else {
        VerdictStays(conc, s, steps, step, w);
      }
    } else {
      match step
      case Spawn(_, _) => SpawnTold(conc, s, steps, step, w);
      case Recheck(_) => RecheckTold(conc, s, steps, w);
      case SelfStatus(_, to) => SelfStatusTold(conc, s, steps, w, to);
      case Return(_, failed) => ReturnTold(conc, s, steps, w, failed);
      case Settle(_) => SettleTold(conc, s, steps, step, w);
      case ReleaseSlot(_) => ReleaseTold(conc, s, steps, step, w);
      case ReleaseClaim(_) => ReleaseTold(conc, s, steps, step, w);
      case _ => EarlyTold(conc, s, steps, step, w);
    }
  }

  // ----- Over whole runs -----

  lemma {:induction false} RunFront(conc: int, s: State, steps: seq<Step>)
    requires ValidRun(conc, s, steps) && steps != []
    ensures var front, last := steps[..|steps| - 1], steps[|steps| - 1];
            && ValidRun(conc, s, front) && Enabled(conc, After(conc, s, front), last)
            && After(conc, s, steps) == Apply(conc, After(conc, s, front), last)
    decreases |steps|
  {
    var rest := steps[1..];
    if rest == [] {
      assert steps[..|steps| - 1] == [];
    } else {
      RunFront(conc, Apply(conc, s, steps[0]), rest);
      assert steps[..|steps| - 1][1..] == rest[..|rest| - 1];
    }
  }

  lemma {:induction false} FrontTold(conc: int, s: State, steps: seq<Step>, w: nat)
    requires Fresh(s) && ValidRun(conc, s, steps) && steps != [] && NoRetries(steps)
    requires ValidRun(conc, s, steps[..|steps| - 1]) && Told(After(conc, s, steps[..|steps| - 1]), steps[..|steps| - 1], w)
    ensures Told(After(conc, s, steps), steps, w)
  {
    var front, last := steps[..|steps| - 1], steps[|steps| - 1];
    RunFront(conc, s, steps);
    FreshInv(conc, s);
    RunKeepsCore(conc, s, front);
    StepTold(conc, After(conc, s, front), front, last, w);
    assert steps == front + [last];
  }

  lemma NoRetriesFront(steps: seq<Step>)
    requires steps != [] && NoRetries(steps)
    ensures NoRetries(steps[..|steps| - 1])
  {
  }

  lemma {:induction false} RunTold(conc: int, s: State, steps: seq<Step>, w: nat)
    requires Fresh(s) && ValidRun(conc, s, steps) && NoRetries(steps)
    ensures Told(After(conc, s, steps), steps, w)
    decreases |steps|
  {
    if steps != [] {
      NoRetriesFront(steps);
      RunFront(conc, s, steps);
      RunTold(conc, s, steps[..|steps| - 1], w);
      FrontTold(conc, s, steps, w);
    }
  }

  /** Over every run without retries: once a worker is past its body, the child has
      the verdict on it, whatever happened before, meanwhile and since. It failed
      exactly if the body returned an error and the last word was no cancel. */
  lemma {:induction false} VerdictExactly(conc: int, s: State, steps: seq<Step>, w: nat, failed: bool)
    requires Fresh(s) && ValidRun(conc, s, steps) && NoRetries(steps) && Return(w, failed) in steps
    ensures var t := After(conc, s, steps);
            && w in t.workers && t.workers[w].child in t.status
            && (Finished(t.workers[w].phase) ==>
                  var c, now := t.workers[w].child, t.status[t.workers[w].child];
                  && (now == Cancelled <==> LastWord(steps, w, c) == [Cancelled])
                  && (now == Failed <==> failed && LastWord(steps, w, c) != [Cancelled])
                  && (now == Skipped <==> !failed && LastWord(steps, w, c) == [Skipped])
                  && now in {Cancelled, Failed, Skipped, Completed})
  {
    RunTold(conc, s, steps, w);
  }

  /** A body may skip its own job exactly when it is that of an approval, a cloud,
      a checkup or an implementation, and cancel it only as an approval; it then
      ends with that status. */
  lemma {:induction false} OwnWordExactly(conc: int, s: State, w: nat, word: Status)
    requires Phased(s, w, Executing) && s.workers[w].child in s.status && word in {Skipped, Cancelled}
    ensures var steps, c := [SelfStatus(w, word), Return(w, false), Settle(w)], s.workers[w].child;
            && (ValidRun(conc, s, steps) <==>
                  || (word == Skipped && c.kind in {Approval, Cloud, Checkup, IssueImplement})
                  || (word == Cancelled && c.kind == Approval))
            && (ValidRun(conc, s, steps) ==> After(conc, s, steps).status == s.status[c := word])
  {
    var steps := [SelfStatus(w, word), Return(w, false), Settle(w)];
    if Enabled(conc, s, steps[0]) {
      var a := Apply(conc, s, steps[0]);
      var b := Apply(conc, a, Return(w, false));
      assert steps[1..] == [Return(w, false), Settle(w)] && steps[1..][1..] == [Settle(w)] && [Settle(w)][1..] == [];
      assert ValidRun(conc, b, [Settle(w)]) && ValidRun(conc, a, steps[1..]);
      assert After(conc, b, [Settle(w)]) == Apply(conc, b, Settle(w));
      assert After(conc, a, steps[1..]) == After(conc, b, [Settle(w)]);
      assert After(conc, s, steps) == After(conc, a, steps[1..]);
    }
  }

  // ----- What a failed body means -----

  predicate PrepareEndedBadly(status: map<Child, Status>, run: nat) {
    Child(run, Prepare) in status && status[Child(run, Prepare)] in {Failed, Error, Cancelled}
  }

  predicate WaitsForPrepare(k: Kind) {
    k in {Security, Bugbot, Checkup}
  }

  lemma BadPrepareKeepsOut(s: State, c: Child, w: nat)
    requires DepsHeld(s.workers, s.status) && PrepareEndedBadly(s.status, c.run) && WaitsForPrepare(c.kind)
    requires w in s.workers && s.workers[w].child == c
    ensures s.workers[w].phase.Checking? || s.workers[w].phase.Gone?
  {
    assert WorkerDeps(s.status, s.workers[w]) && !DepOk(s.status, c, Prepare) && Prepare in DependsOn(c.kind);
  }

  lemma {:induction false} BadPrepareStops(conc: int, s: State, step: Step, c: Child)
    requires Inv(conc, s) && Enabled(conc, s, step) && !step.Retry?
    requires PrepareEndedBadly(s.status, c.run) && WaitsForPrepare(c.kind)
    ensures Apply(conc, s, step).bodies[c] == s.bodies[c]
    ensures PrepareEndedBadly(Apply(conc, s, step).status, c.run)
  {
    StepKeepsTerminal(conc, s, step);
    if step.Recheck? && s.workers[step.w].child == c {
      BadPrepareKeepsOut(s, c, step.w);
    }
  }

  lemma {:induction false} NothingStartsAfterBadPrepare(conc: int, s: State, steps: seq<Step>, c: Child)
    requires Inv(conc, s) && ValidRun(conc, s, steps) && NoRetries(steps)
    requires PrepareEndedBadly(s.status, c.run) && WaitsForPrepare(c.kind)
    ensures After(conc, s, steps).bodies[c] == s.bodies[c]
    decreases |steps|
  {
    if steps != [] {
      BadPrepareStops(conc, s, steps[0], c);
      StepKeepsInv(conc, s, steps[0]);
      NothingStartsAfterBadPrepare(conc, Apply(conc, s, steps[0]), steps[1..], c);
    }
  }

  /** Once the body of a prepare has returned an error and its worker has settled,
      no security, bugbot or checkup body of that run starts any more. */
  lemma {:induction false} FailedPrepareStopsRun(conc: int, s: State, w: nat, steps: seq<Step>, c: Child)
    requires Inv(conc, s) && Enabled(conc, s, Settle(w))
    requires s.workers[w].phase == Returned(true) && s.workers[w].child == Child(c.run, Prepare)
    requires WaitsForPrepare(c.kind) && NoRetries(steps) && ValidRun(conc, Apply(conc, s, Settle(w)), steps)
    ensures After(conc, Apply(conc, s, Settle(w)), steps).bodies[c] == s.bodies[c]
  {
    StepKeepsInv(conc, s, Settle(w));
    NothingStartsAfterBadPrepare(conc, Apply(conc, s, Settle(w)), steps, c);
  }

  /** The children's statuses, in the order of a listing. */
  function StatusesOf(status: map<Child, Status>, children: seq<Child>): seq<Status>
    requires forall c :: c in children ==> c in status
  {
    seq(|children|, i requires 0 <= i < |children| => status[children[i]])
  }

  /** A drained run in which a body failed, and whose child was not cancelled, ends
      completed with errors, unless the run itself was cancelled. */
  lemma {:induction false} FailedBodyShows(conc: int, s: State, steps: seq<Step>, w: nat, children: seq<Child>, parent: Status)
    requires Fresh(s) && ValidRun(conc, s, steps) && NoRetries(steps) && Return(w, true) in steps
    requires var t := After(conc, s, steps);
             && w in t.workers && Finished(t.workers[w].phase) && t.workers[w].child in children
             && LastWord(steps, w, t.workers[w].child) != [Cancelled]
             && forall c :: c in children ==> c in t.status && Terminal(t.status[c])
    ensures Folded(StatusesOf(After(conc, s, steps).status, children), parent) == CompletedWithErrors
    ensures parent != Cancelled ==> FinalStatus(StatusesOf(After(conc, s, steps).status, children), parent) == CompletedWithErrors
  {
    var t := After(conc, s, steps);
    VerdictExactly(conc, s, steps, w, true);
    var statuses := StatusesOf(t.status, children);
    var i :| 0 <= i < |children| && children[i] == t.workers[w].child;
    assert statuses[i] == Failed;
    forall x | x in statuses ensures Terminal(x) {
      var k :| 0 <= k < |statuses| && statuses[k] == x;
      assert children[k] in children;
    }
    DrainedRunOutcome(statuses, parent);
  }
}
