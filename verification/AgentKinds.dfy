// The agent taxonomy: which kinds exist, what each waits for, and how many
// bodies of each kind may run at once (agents_kinds.go, run_semaphores.go).
module AgentKinds {

  /** The kinds that run as a child of a PR run or of an issue run. */
  datatype Kind =
    | Prepare | Security | Bugbot | Checkup | Approval | Cloud
    | IssuePrepare | IssueInvestigate | IssuePublish | IssueImplement

  function DependsOn(k: Kind): seq<Kind> {
    match k
    case Prepare => []
    case Security => [Prepare]
    case Bugbot => [Prepare]
    case Checkup => [Prepare]
    case Approval => [Bugbot, Security, Cloud]
    case Cloud => [Bugbot, Security]
    case IssuePrepare => []
    case IssueInvestigate => [IssuePrepare]
    case IssuePublish => [IssueInvestigate]
    case IssueImplement => [IssuePublish]
  }

  /** A rank that every dependency edge lowers, so the relation has no cycle. */
  function Rank(k: Kind): nat {
    match k
    case Prepare => 0
    case Security => 1
    case Bugbot => 1
    case Checkup => 1
    case Cloud => 2
    case Approval => 3
    case IssuePrepare => 0
    case IssueInvestigate => 1
    case IssuePublish => 2
    case IssueImplement => 3
  }

  predicate IsPRKind(k: Kind) {
    k in {Prepare, Security, Bugbot, Checkup, Approval, Cloud}
  }

  function Clamp(n: int, lo: int, hi: int): int {
    if n < lo then lo else if n > hi then hi else n
  }

  /** The process-wide concurrency, read from the environment and clamped. */
  function ProcessConcurrency(configured: int): nat {
    Clamp(configured, 1, 4)
  }

  function KindConcurrency(k: Kind, configured: int): nat {
    match k
    case Prepare => 2
    case Security => Clamp(ProcessConcurrency(configured), 1, 4)
    case Bugbot => Clamp(ProcessConcurrency(configured), 1, 4)
    case Checkup => Clamp(ProcessConcurrency(configured), 1, 4)
    case Approval => 2
    case Cloud => 2
    case _ => 1
  }

  /** The channel a kind queues on. Kinds without a channel of their own all
      share the process-wide one. */
  datatype Pool = KindPool(kind: Kind) | ProcessPool

  function PoolOf(k: Kind): Pool {
    if IsPRKind(k) then KindPool(k) else ProcessPool
  }

  function Capacity(p: Pool, configured: int): nat {
    match p
    case KindPool(k) => KindConcurrency(k, configured)
    case ProcessPool => ProcessConcurrency(configured)
  }
}
