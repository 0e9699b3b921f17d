// Job statuses and the fold of a run's children into the status of the run
// (agents_run.go, run_graph.go).
module RunStatus {

  datatype Status =
    | Unset | Queued | Waiting | Running
    | Completed | Failed | Error | Cancelled | Skipped
    | CompletedWithErrors
    | Other(text: string)

  predicate Terminal(s: Status) {
    s in {Completed, Failed, Error, Cancelled, Skipped}
  }

  predicate Startable(s: Status) {
    s in {Unset, Queued, Waiting}
  }

  /** What the run reports, told by which statuses occur among its children. */
  ghost function Folded(children: seq<Status>, parent: Status): Status {
    if children == [] then parent
    else if Running in children || Waiting in children then Running
    else if Queued in children || Unset in children then Queued
    else if exists i :: 0 <= i < |children| && !Terminal(children[i]) then parent
    else if Failed in children || Error in children then CompletedWithErrors
    else if parent == Cancelled then Cancelled
    else Completed
  }

  method FoldRunStatus(children: seq<Status>, parent: Status) returns (r: Status)
    ensures r == Folded(children, parent)
  {
    if |children| == 0 {
      return parent;
    }
    var anyRunning, anyFailed, anyQueued, allTerminal := false, false, false, true;
    for i := 0 to |children|
      invariant anyRunning <==> Running in children[..i] || Waiting in children[..i]
      invariant anyQueued <==> Queued in children[..i] || Unset in children[..i]
      invariant anyFailed <==> Failed in children[..i] || Error in children[..i]
      invariant allTerminal <==> forall j :: 0 <= j < i ==> Terminal(children[j])
    {
      assert children[..i + 1] == children[..i] + [children[i]];
      match children[i] {
        case Running => anyRunning := true; allTerminal := false;
        case Waiting => anyRunning := true; allTerminal := false;
        case Queued => anyQueued := true; allTerminal := false;
        case Unset => anyQueued := true; allTerminal := false;
        case Failed => anyFailed := true;
        case Error => anyFailed := true;
        case Cancelled =>
        case Completed =>
        case Skipped =>
        case _ => allTerminal := false;
      }
    }
    assert children[..|children|] == children;
    if anyRunning {
      return Running;
    }
    if anyQueued {
      return Queued;
    }
    if !allTerminal {
      return parent;
    }
    if anyFailed {
      return CompletedWithErrors;
    }
    if parent == Cancelled {
      return Cancelled;
    }
    return Completed;
  }

  /** The order in which the children are listed does not matter. */
  lemma FoldIgnoresOrder(a: seq<Status>, b: seq<Status>, parent: Status)
    requires multiset(a) == multiset(b)
    ensures Folded(a, parent) == Folded(b, parent)
  {
    assert |a| == |multiset(a)| == |multiset(b)| == |b|;
    forall s ensures s in a <==> s in b {
      assert s in multiset(a) <==> s in multiset(b);
    }
    assert forall i :: 0 <= i < |a| ==> a[i] in b;
    assert forall i :: 0 <= i < |b| ==> b[i] in a;
  }

  /** finalizePRRun: a run cancelled in the meantime stays cancelled. */
  ghost function FinalStatus(children: seq<Status>, parent: Status): Status {
    if parent == Cancelled then Cancelled else Folded(children, parent)
  }

  /** A fully drained run that is still running ends in one of two ways, told
      apart exactly by a failed or errored child. A child that was cancelled on
      its own does not show. A cancelled run ends cancelled. */
  lemma DrainedRunOutcome(children: seq<Status>, parent: Status)
    requires children != []
    requires forall s :: s in children ==> Terminal(s)
    ensures Folded(children, parent) in {Completed, CompletedWithErrors, Cancelled}
    ensures Folded(children, parent) == CompletedWithErrors <==> Failed in children || Error in children
    ensures Folded(children, parent) == Cancelled <==>
              parent == Cancelled && Failed !in children && Error !in children
    ensures FinalStatus(children, parent) == Cancelled <==> parent == Cancelled
  {
    assert children[0] in children;
  }

  /** While something is still to do, a live run never folds to an end. */
  lemma UndrainedRunStaysOpen(children: seq<Status>, s: Status)
    requires s in children && (s == Running || Startable(s))
    ensures Folded(children, Running) in {Running, Queued}
    ensures Folded(children, Running) == Running <==> Running in children || Waiting in children
  {
  }
}
