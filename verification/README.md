# Review runs, connector bindings and patch gates: a verified model

The service this models runs reviews of pull requests as a graph of agents,
binds GitHub App installations to tenants, and lets AI patches through a gate
before they land. The project states what those parts keep under every
interleaving, every run of requests and every input, and proves it in Dafny.
`dafny verify dfyconfig.toml` checks all of it.

- **Run graph** (`AgentKinds`, `RunStatus`, `RunScheduler`, `RunProgress`,
  `RunOutcomes`, `RunVerdicts`, `RunChildren`, `RunProcess`). Any number of workers step through
  readiness check, claim, slot, recheck, body, settle and release while others
  cancel and retry. Safety is an inductive invariant; progress says what every run
  that has come to a standstill looks like, whatever happened on the way. The
  recheck with the set-running, the cancel check with the final status write, a
  cancel and the status write of a retry are one step each.
- **Connectors** (`Connectors`, `Bindings`, `ConnectorHub`). Callback, claim, finish-install,
  webhook provision, remint and delete as steps on the live rows, the claim nonces
  and the install intents, with theorems over whole runs. Minted tokens are fresh
  and their hash is injective.
- **Cloud autofix** (`TextLines`, `CloudDiff`, `DiffLaws`, `DiffRender`, `GitDiffs`,
  `PatchGate`, `CloudStages`, `FileTrees`, `AutofixRate`). Diff parsing and its laws,
  the gate, the bounded attempts on a working tree, the sync of the sandbox, and the
  hourly limit. The agent and the verify run may leave any tree behind; what the gate
  judges is the text git shows of the tree as it then is, git being free to choose
  the hunks. Diffs hold no renames.
- **Secrets** (`Secrets`), **checkup plans** (`Intake`, `PHPStan`, `CheckupPolicy`,
  `CheckupPlans`, `Paths`), **pull request summary** (`PRSummary`), **output
  redaction** (`Redaction`), **one run per pull request** (`Decimals`, `PRIndex`),
  **review units** (`ReviewUnits`, `StableSort`), **risk and approval** (`RiskScore`,
  `Approval`).
- `Text` and `Sets` hold the string and set operations these share.

Code that updates state in place is a method or a class, proved equal to a
specification function; the properties are lemmas about those functions. A walk
over a map takes the order of the walk as a parameter, so every claim holds for
every order.

## Findings

Where the code falls short of its comments or of what one would expect of it, the
model follows the code, and a lemma gives the exact condition.

- `ensureGitHubAppConnector` says a pending row without a nonce always gets one
  (scm_connectors.go:1898-1901). It renders a missing entry as `<nil>`, which is not
  blank, so that never happens (`Connectors.NonceRepairUnreachable`), although a
  failed mint leaves such rows (`Connectors.MissingNonceIsKept`).
- The concurrency limit of one for issue kinds is not enforced when the process
  allows more (`RunOutcomes.KindLimitHoldsExactly`).
- A plan with a cloud child but no review child never finishes on its own
  (`RunOutcomes.PlanFinishesExactly`).
- A retry from the dashboard asks nothing of the run. The single readiness test is
  enough exactly when no worker relies on the retried child
  (`RunScheduler.DependenciesHeldExactly`, `RunOutcomes.RetryUnderABody`), each retry
  allows one more body (`RunOutcomes.EveryRetryCanRunAgain`), and a superseded run
  can come back beside the newer one (`PRIndex.RetryKeepsOneExactly`,
  `PRIndex.SupersededRunReturns`).
- The gate's parser can read a file under another path: an added line that looks like
  a file line takes the name over, and where only the header names the file its path
  ends at a space (`GitDiffs.AddedLineIsMisjudged`, `GitDiffs.DeletionIsMisjudged`).
  Every file is judged under its own path exactly when neither happens
  (`GitDiffs.EveryPathSeenExactly`), and whatever git shows of them the trees are read
  right exactly when they leave no room for it (`GitDiffs.AlwaysSeenExactly`).
- A cap of zero stands for the default, so lowering a cap to zero can widen the gate
  (`PatchGate.ShrinkingCapsExactly`), and an allowlist of blanks is none
  (`PatchGate.BlankListWidens`).
- A push without an agent went through the allowlist exactly when tests ran or there
  is none (`CloudStages.ListIsAppliedExactly`); otherwise it is the run's own note, on
  the list or not (`CloudStages.SmokePushesTheNote`, `CloudStages.SmokePushesOffList`).
- A secret that starts or ends with a star, or holds three in a row, can be put together again
  by the redaction of another one (`Redaction.StarSafeExactly`).
- A run whose review was cancelled or skipped can be approved: the confidence of zero
  is raised to the threshold (`Approval.ApprovedWithoutReviewExactly`).
- An attempt that pushed is retried exactly when its pull request could not be
  created (`CloudStages.PushIsRetriedExactly`), so one run can push twice
  (`CloudStages.SecondPush`, `CloudStages.PushesOnceExactly`).
- Syncing the sandbox keeps the mode of overwritten files
  (`FileTrees.SyncCopiesExactly`).
- The checkup policy is not always a projection: removing `--error-format` can
  uncover `-c` or take a needed flag along, and cleaning a directory can uncover
  white space (`CheckupPlans.PolicyTwice`, `CheckupPlans.UnstableExamples`).
- A narrative with an end marker leaks into the text outside the fence, and a lone
  marker outside breaks the round trip (`PRSummary.OutsideSurvivesExactly`); after an
  early end marker every upsert adds another fence (`PRSummary.EarlyEndPilesUp`).
- The continuous path can leave two jobs in flight for a pull request
  (`PRIndex.ContinuousKeepsOneExactly`), and so can a repository name that is empty
  or not trimmed (`PRIndex.TwoCommitsOneRunExactly`).
- A review child that is added after planning runs even where the plan would have
  skipped it (`RunChildren.AddedLater`).
- A key file that is also hidden, such as `.env` itself, or holds one of the sensitive
  words counts less than one that is not (`RiskScore.SensitiveExactly`).
- Setting a watched score between 1 and 69 lowers the veto threshold, whose default
  is 70 (`Approval.WatchedScoreBelowDefault`), and a policy's minimum severity can
  relax the veto (`Approval.MinSeverityTightensExactly`).

## Model

| member | source | states |
|---|---|---|
| `RunScheduler.RunningBodyHasItsDependencies` | run_graph.go:298-328 | In every state reached by any interleaving of workers, cancels and retries of children no worker relies on, a child whose body executes has all its dependency kinds present and terminal, and prepare moreover completed or skipped, although readiness is tested before the claim only |
| `RunScheduler.DependenciesHeldExactly` | scm_orchestrator.go:1106-1150 | A step keeps every worker's dependencies exactly when it is no retry of a child that some worker has seen satisfied |
| `RunOutcomes.RetryUnderABody` | scm_orchestrator.go:1134-1141 | A reachable state in which a body executes while its prepare, retried, is queued |
| `RunScheduler.ApprovalBranchesUnreachable` | run_graph.go:699-701 | When the graph runs the approval body, retries being careful, neither its refusal for unfinished input nor its pending_autofix branch (run_graph.go:750-752) can be taken |
| `RunScheduler.AtMostOneClaimant` | run_graph.go:307-310 | Across any number of duplicate spawns at most one worker holds the claim on a child |
| `RunScheduler.BodiesCountedByRetries` | run_graph.go:315-333 | However often a child is spawned, its body starts at most once in the life of a process and once more for each retry of it; so no more bodies start than there are children and retries |
| `RunOutcomes.EveryRetryCanRunAgain` | scm_orchestrator.go:1106-1150 | The bound is attained: for every n there is a run in which a child retried n times has run n + 1 times |
| `RunScheduler.SlotBound` | run_semaphores.go:14-58 | The workers past the slot for a kind never exceed the capacity of the channel the kind queues on |
| `RunScheduler.RunKeepsCore` | run_graph.go:298-377 | Claims, slots and body counts stay exact over every valid run, retries included; without a retry terminal statuses are stable over the whole run |
| `RunScheduler.RunKeepsInv` | run_graph.go:298-377 | The whole inductive invariant (claims, slots and bodies exact, dependencies held) survives every run whose retries are careful |
| `RunScheduler.StepKeepsTerminal` | run_graph.go:360-376 | No step but a retry takes a status out of the terminal ones, and a kind that sets no status of its own (prepare, security, bugbot) keeps the terminal status it has: the stability the single readiness test rests on |
| `RunProgress.NoDeadlock` | run_semaphores.go:40-58 | Whenever some worker has not left, some worker can step: one blocked at a full channel implies one inside it that can move |
| `RunProgress.OwnStepBurnsFuel` | run_graph.go:298-377 | Every own step of a worker lowers a bounded measure |
| `RunProgress.WorkIsBounded` | run_graph.go:298-377 | Over any run, with anything else in between, the workers take at most twelve steps per spawn beyond what was left to do at its start |
| `RunProgress.SomeChildReady` | agents_run.go:385-416 | With no worker about and every dependency planned, any child still open implies one of its run that the parent loop would start, by a rank on the dependency relation, unless prepare ended badly |
| `RunProgress.RunKeepsProgress` | run_graph.go:298-377 | Every run, with failed and cancelled bodies, statuses bodies give themselves and retries, keeps what that needs: no job says it is running without a body, and the plan stays closed under dependencies |
| `RunProgress.StandstillIsTheEnd` | run_graph.go:61-96 | In a plan closed under dependencies, whatever failed, skipped itself, was cancelled or, with its dependencies planned, retried on the way: when no worker can step and the loop starts nothing, every child is terminal except in a run whose prepare ended badly |
| `RunProgress.StandstillIsReachable` | run_graph.go:61-96 | The parent loop alone brings any run to such a standstill with no failed prepare |
| `RunOutcomes.BlockedNeverRuns` | agents_run.go:265-269 | A child whose dependency was never planned, or whose prepare ended badly, keeps its status over every run that neither cancels nor retries it nor retries its prepare |
| `RunOutcomes.PlanFinishesExactly` | agents_run.go:250-302 | Every run of a fresh plan that came to a standstill with no prepare that ended badly has all children terminal, exactly when the policy wants ORA review or cloud is off |
| `RunOutcomes.PlanCostsOneBodyEach` | run_graph.go:61-96 | However such a run goes, it starts at most one body per planned child and per retry |
| `RunOutcomes.KindLimitHoldsExactly` | run_semaphores.go:14-58 | The limit of a kind holds in all reachable states exactly for the kinds of a PR run, or when the process concurrency is one: the issue kinds share one channel |
| `RunOutcomes.MostAtOnceExactly` | run_semaphores.go:14-58 | For each kind the most workers ever past their slot together, over all reachable states: two for prepare, approval and cloud, for every other kind as many as the process is configured for, one to four; and a state that has them |
| `RunOutcomes.ListingAgreesWithMap` | run_graph.go:379-397 | Over a listing with one child per kind, the parent loop selects a child exactly when the step relation calls it startable and ready |
| `RunVerdicts.VerdictExactly` | run_graph.go:360-376 | Over every run without retries: a child whose body returned and whose worker settled is cancelled exactly when the last word on it during the body was a cancel, failed exactly when the body failed and it was not, skipped when the body skipped itself, else completed |
| `RunVerdicts.OwnWordExactly` | run_graph.go:687-705 | A body may skip its own job exactly as an approval, cloud, checkup or implementation, and cancel it only as an approval; it then ends with that status |
| `RunVerdicts.FailedPrepareStopsRun` | run_graph.go:379-397 | Once a prepare body has returned an error and its worker has settled, no security, bugbot or checkup body of that run starts over any run without retries |
| `RunVerdicts.FailedBodyShows` | agents_run.go:453-491 | A drained run in which a body failed without being cancelled folds to completed_with_errors, and ends so unless the run was cancelled |
| `RunStatus.FoldRunStatus` | agents_run.go:453-491 | The loop over the children computes the fold told by which statuses occur |
| `RunStatus.FoldIgnoresOrder` | agents_run.go:453-491 | The fold does not depend on the order of the children |
| `RunStatus.DrainedRunOutcome` | run_graph.go:220-224 | With all children terminal a run ends completed, completed_with_errors or cancelled, completed_with_errors exactly when some child failed or errored, and a cancelled run stays cancelled |
| `RunStatus.UndrainedRunStaysOpen` | agents_run.go:453-491 | While a child is running or startable, a live run does not fold to an end; it folds to running exactly when some child is running or waiting |
| `RunChildren.PlanRunChildren` | agents_run.go:250-302 | The loop yields the planned children of the policy, in the plan's order |
| `RunChildren.PlanCoversPolicy` | agents_run.go:250-302 | A plan has exactly the wanted kinds, each once, with the status the policy gives it |
| `RunChildren.PlanReadsChecks` | agents_run.go:250-302 | Which kinds a plan has and which of them start skipped, read off the list of checks and the switches |
| `RunChildren.AgentChildReady` | run_graph.go:379-397 | The worker's readiness test answers exactly whether every dependency has a first child that meets it |
| `RunChildren.ReadyChildren` | agents_run.go:385-416 | The parent's selection returns exactly the startable children whose dependencies, looked up by last child per kind, are met |
| `RunChildren.SelectionAgreesWithReadiness` | agents_run.go:385-416 | With one child per kind the two readiness tests agree |
| `RunChildren.DuplicateKindsDisagree` | agents_run.go:361-368 | Without it they contradict each other: a failed and a completed prepare make the loop select a child that the worker declines |
| `RunChildren.JobStore.ListRunChildren` | agents_run.go:323-359 | The listing is the recorded children that exist and then every other live child of the run |
| `RunChildren.ListingOrderIrrelevant` | agents_run.go:323-359 | Walking the live map in another order lists the same children |
| `RunChildren.JobStore.EnsureRunChildren` | agents_run.go:497-538 | The live map and the recorded ids after the call, both unchanged for an issue run, and no other run's record touched |
| `RunChildren.EnsureCompletesOnce` | agents_run.go:497-538 | On a run with one child per kind the call keeps every child, adds exactly the missing wanted kinds, keeps one child per kind, and is idempotent |
| `RunChildren.AddedLater` | agents_run.go:497-538 | A missing child is added queued, or skipped as the policy says, but the switch that skips the review at planning is not looked at again |
| `RunProcess.Process.ProcessAgentChild` | run_graph.go:298-377 | One call from its spawn to its return, with any steps of others in between: all steps together are one valid run of the relation the safety lemmas are about; the worker's own are exactly the protocol of the way the call ended, none skipped or doubled; it ends with claim and slot given back, or waiting at a full channel; and without retries a call that found its child over or ran it leaves it over with its dependencies met; the status a body leaves behind is told by what it returned and by the last cancel or status of its own during it |
| `RunProcess.Process.AgentChildReady` | run_graph.go:379-397 | The readiness loop, interrupted between any two dependencies, reads one more dependency per turn and stops at the first unmet one or past the last |
| `RunProcess.Process.RecheckAndStart` | run_graph.go:315-333 | The body starts exactly when the recheck finds the child open, and the tables are those of the recheck step |
| `RunProcess.Process.CancelChild` | scm_orchestrator.go:630-682 | Queued, waiting and running children become cancelled, a cancelled one stays as it is, any other is a conflict |
| `Connectors.RowsOfAnyRun` | scm_connectors.go:370-475 | After every run of handlers there is at most one non-deleted row per installation; pending rows have no organization and are unclaimed, active ones are usable and claimed |
| `Connectors.StepKeepsInv` | scm_connectors.go:480-503 | Every handler keeps the inductive invariant on rows, tokens and intents |
| `Connectors.BinderNeverChanges` | scm_connectors.go:370-388 | Once a row is active, over every run without a delete of it, it stays active for the same organization, project, scope, user and installation |
| `Bindings.BinderIsNamed` | scm_connectors.go:345-476 | Over every run, each active row was activated by a callback, claim or finish-install that names its organization, project, scope and user, and has kept them ever since |
| `Bindings.ClaimBinds` | scm_connectors.go:663-699 | A granted claim makes the row that of the session: its organization and the organization scope, or for a personal session its user and the user scope; its project, or the default for a blank one or the catch-all; other installations are unchanged, and the token is used up |
| `Bindings.ClaimGrantedExactly` | scm_connectors.go:569-624 | A claim is granted exactly to a session with a tenant that shows the token of a pending row, and changes nothing otherwise |
| `Bindings.FinishBinds` | scm_connectors.go:707-829 | A finish-install that settles on a row makes it that of the session; otherwise no row changes |
| `Bindings.FinishWithIdExactly` | scm_connectors.go:707-768 | With an installation id it binds exactly when that installation has a pending row |
| `Bindings.InstallBindsExactly` | scm_connectors.go:769-829 | From the announced intent through the webhook to the finish without an id: with nothing else pending the new row is bound to the session exactly when the webhook came no earlier than two minutes before the announcement and the finish within forty-five after |
| `Bindings.RememberedIsFoundExactly` | scm_install_intent.go:41-89 | A remembered intent is found by the same session for forty-five minutes and no longer, with what it named |
| `Bindings.ConsumedIsGone` | scm_install_intent.go:91-106 | A consumed intent is gone for its session |
| `Bindings.AccountIsNamed` | scm_connectors.go:1902-1958 | A webhook names the account on a row without a name, keeps whose the row is, and touches no other installation |
| `Bindings.DeleteExactly` | scm_connectors.go:1070-1169 | In every reachable store a delete takes exactly an active row away, for a request that may; a pending one is refused |
| `Bindings.CallbackThenClaim` | scm_connectors.go:345-476 | A callback without a tenant, for an installation without an active row, leaves a pending one that exactly the token it minted claims |
| `Connectors.SingleUse` | scm_connectors.go:592-615 | Over every run no claim token activates a row twice and no install intent is consumed twice or after its expiry |
| `Connectors.DeadTokenStaysDead` | scm_connectors.go:592-615 | A token no pending row accepts is refused after every further run |
| `Connectors.LostNonceIsDead` | scm_connectors.go:1993-2043 | Whatever step takes a nonce off its row makes the earlier token dead |
| `Connectors.RemintReplacesNonce` | scm_connectors.go:1993-2043 | A granted remint stores a token never used before and kills the row's earlier one |
| `Connectors.FinishWithoutIdExactly` | scm_connectors.go:769-818 | Without an installation id the handler binds exactly when there is an unexpired intent and exactly one candidate; otherwise no row changes and every unexpired intent stays |
| `Connectors.NonceRepairUnreachable` | scm_connectors.go:1912-1930 | In every run the repair of a row without a nonce never happens, and a remint is granted exactly to a forced request whose prior token, if named, is current |
| `Connectors.MissingNonceIsKept` | scm_connectors.go:1912-1958 | A webhook whose mint fails leaves a pending row without a nonce; the next webhook, able to mint, leaves it so, and a remint without force is told a token was issued |
| `ConnectorHub.Hub.FindConnectorByInstallation` | scm_orchestrator.go:467-493 | The imperative handler equals its step: the lookup returns the row the specification finds, whatever the order of the walk |
| `ConnectorHub.Hub.SoftDeleteOtherInstallConnectors` | scm_connectors.go:480-503 | The imperative handler equals its step: the walk deletes exactly the other non-deleted rows of the installation |
| `ConnectorHub.Hub.HandleCallback` | scm_connectors.go:345-476 | The imperative handler equals its step: the store after a setup callback; it is an error, and changes nothing, exactly when a callback that names no tenant and finds no active row cannot mint a nonce |
| `ConnectorHub.Hub.HandleConnectorClaim` | scm_connectors.go:569-624 | The imperative handler equals its step: the store after a claim, and its outcome; a granted claim makes the row the caller's, organization, project, scope and user, and changes no other installation |
| `ConnectorHub.Hub.EnsureGitHubAppConnector` | scm_connectors.go:1902-1958 | The imperative handler equals its step: the store after a webhook provision |
| `ConnectorHub.Hub.HandleIssueClaimToken` | scm_connectors.go:1965-2050 | The imperative handler equals its step: the store after a remint and its outcome; a granted remint that cannot mint is an error and changes nothing |
| `ConnectorHub.Hub.HandleConnectorDelete` | scm_connectors.go:1136-1169 | The imperative handler equals its step: the store after a delete |
| `ConnectorHub.Hub.HandleFinishInstall` | scm_connectors.go:707-829 | The imperative handler equals its step: the store after a finish-install; a row it binds becomes the caller's, and no other installation changes |
| `ConnectorHub.Hub.ListCandidates` | scm_connectors.go:833-879 | The imperative handler equals its step: the matching pending rows, each once |
| `ConnectorHub.Hub.PruneInstallIntents` | scm_install_intent.go:70-76 | The imperative handler equals its step: exactly the expired intents go |
| `ConnectorHub.Hub.RememberInstallIntent` | scm_install_intent.go:41-68 | The imperative handler equals its step: the intents after remembering one |
| `ConnectorHub.Hub.PeekInstallIntent` | scm_install_intent.go:78-89 | The imperative handler equals its step: the intents and the answer of a peek |
| `ConnectorHub.Hub.ConsumeInstallIntent` | scm_install_intent.go:91-106 | The imperative handler equals its step: the intents and the answer of a consume |
| `CloudDiff.ParseCloudDiffChanges` | agents_authz.go:369-418 | The line loop computes, for every header block with a path, its last named path, its counts of added and removed lines, its last mode and whether any mode is a submodule's |
| `CloudDiff.ParseDiffFiles` | scm_ai_review.go:338-373 | The line loop computes the preamble unit and one unit per header block with a path, id and full text |
| `DiffLaws.ParseOfConcat` | agents_authz.go:369-418 | Two diffs one after the other, the second starting with a header at the start of a line, parse to the concatenation of their parses |
| `DiffLaws.LaterLinesWin` | agents_authz.go:369-418 | Lines added to a block add to its counts, replace its mode and path where they name one, and never take a submodule back |
| `DiffLaws.ParsersAgree` | scm_ai_review.go:338-373 | The paths of the gate's parser are the ids of the review's parser minus the preamble unit, which is there exactly when the first line is no header |
| `DiffLaws.ChunksCoverDiff` | scm_ai_review.go:338-373 | The chunks concatenate to the diff plus a newline exactly when every header block has a path |
| `DiffRender.RenderThenParse` | agents_authz.go:369-418 | Rendering a list of file diffs, deleted, binary and mode-only ones among them, and parsing it gives the list back exactly when every path is one word, no added text starts with ++ and no removed text with -- |
| `DiffRender.ReadUnderItsPathExactly` | scm_ai_review.go:375-386 | A file's block is read under its own path, white space trimmed, exactly when no added line takes the name over and, where only the header names it (deleted, binary, mode-only), the path is one word |
| `PatchGate.GateCloudDiff` | agents_authz.go:317-366 | Accepts exactly when the diff is non-empty, every counted change is landable and the distinct paths and lines are within the effective caps |
| `PatchGate.DeniedExactly` | agents_authz.go:281-297 | For every path, trimmed and without one leading ./: denied exactly when nothing is left, its first segment is .github or .opa, or its last one is the name of a lock file, in any case of letters |
| `PatchGate.RefusedAlways` | agents_authz.go:317-366 | A diff with a counted change below .github or .opa, a lock file, a submodule or an executable is refused for every allowlist and all caps |
| `PatchGate.RefusedByLimits` | agents_authz.go:317-366 | So is a diff with a change off a non-empty allowlist or of more lines than the cap, or with more files than the cap |
| `PatchGate.AcceptanceIsMonotone` | agents_authz.go:317-366 | Acceptance survives taking changes out in any order, a laxer allowlist and higher caps |
| `PatchGate.VerdictIgnoresOrder` | agents_authz.go:317-366 | The verdict is the same for every order of the changes |
| `PatchGate.ShrinkingCapsExactly` | agents_authz.go:318-320 | With defaults of at least one, shrinking a call's positive caps never turns a refusal into an acceptance, for all diffs and allowlists, exactly when they stay positive or the defaults are no wider than they were |
| `PatchGate.StricterListExactly` | agents_authz.go:324-355 | Another allowlist never turns a refusal into an acceptance, for all diffs and caps, exactly when it still names something and names no more of the paths that can be let through |
| `PatchGate.ExecModeExactly` | agents_authz.go:299-312 | An octal mode counts as executable exactly when one of its last three digits is odd |
| `CloudStages.FindingPaths` | agent_cloud.go:644-659 | The allowlist is the distinct, trimmed, non-blank paths of the findings |
| `CloudStages.RunOneCloudAttempt` | agent_cloud.go:192-391 | On a working tree that the agent and the verify run may change in any way: the gate is called on the patched tree and, after verify, on what that left, each time on what git shows of it then; exact conditions for pushing, completing, denial, a posted suggestion and a failed verify; what is pushed is the tree of the last call |
| `CloudStages.PushedExactly` | agent_cloud.go:192-501 | Everything a push takes, and that nothing more is needed: each failed step, refused gate, missing permission, abort or switch alone prevents it |
| `CloudStages.CompletedExactly` | agent_cloud.go:395-501 | An attempt completes exactly when it pushed and opened its pull request, when a mock one committed, or when there was nothing to land |
| `CloudStages.SuggestedExactly` | agent_cloud.go:310-365 | A proposal is posted exactly in suggest mode for an accepted patch that changes something; a verify run fails an attempt exactly in branch mode with tests |
| `CloudStages.AttemptDeniedExactly` | agent_cloud.go:276-320 | An attempt is denied exactly when a gate refused the last diff it was shown or an agent's patch came without an allowlist, and then pushes nothing |
| `CloudStages.FirstGateIsShown` | agent_cloud.go:230-309 | What the first gate is shown of a path outside .git is what the agent left on the live tree, or in its sandbox, tracked files missing there being gone; without an agent it is the base, but for the note |
| `CloudStages.LandValidatedPatch` | agent_cloud.go:395-501 | A push happens exactly under its conditions and pushes the patch's target; an empty patch never lands |
| `CloudStages.RunCloudStages` | agent_cloud.go:114-190 | At most as many attempts as allowed, every one but the last retryable, and the final status explained by the last attempt, an abort or a refusal |
| `GitDiffs.GitUnifiedDiff` | agents_authz.go:476-520 | The listing shows every path in which the tree differs from the commit, tracked, staged or untracked, with hunks git may choose |
| `GitDiffs.OwnerDecides` | agents_authz.go:299-312 | The mode git shows for a file is executable exactly when its owner may execute it |
| `GitDiffs.ListingRead` | agents_authz.go:369-418 | Parsing the listing's text yields one block per entry, in order, the separating newlines changing nothing |
| `GitDiffs.EveryPathSeenExactly` | agents_authz.go:369-418 | Every entry of a listing is judged under its own path exactly when no added line takes over a name and every path that only a header or git status names is one word |
| `GitDiffs.AlwaysSeenExactly` | agents_authz.go:369-418 | Whatever git shows of a commit, an index and a tree, every path is judged as itself exactly when each listed path is one plain word and no file shown with its lines has one that reads like a file line of another path |
| `GitDiffs.AddedLineIsMisjudged` | agents_authz.go:403-408 | For any two paths there are trees that differ in the first only and a listing of them that the gate accepts for an allowlist of the second |
| `GitDiffs.DeletionIsMisjudged` | scm_ai_review.go:375-386 | A deleted file with a path of two words is judged, and accepted, under the second word |
| `CloudStages.PushedIsGated` | agent_cloud.go:276-391 | Whatever the agent and the verify run did, the pushed tree is the one the last gate accepted, never in suggest mode and never the base; every changed path has an entry in what that gate read, and where it is read under its path, the path is not denied and on the list the gate applied |
| `CloudStages.PushedIsWithinLimits` | agent_cloud.go:276-391 | When every entry is read under its own path, the pushed tree differs from the base in at least one and at most MaxFiles paths, none denied, all on that list; nothing in .github or .opa is touched |
| `CloudStages.AgentStaysOnAllowlist` | agent_cloud.go:293-306 | With an agent's patch and trees that cannot be mistaken, everything pushed is on the finding allowlist, not denied, and at most MaxFiles paths, and nothing in .github or .opa is touched |
| `CloudStages.SmokeIgnoresAllowlist` | agent_cloud.go:293-295 | Whatever a mock or AI-skipped run without tests can do under one allowlist it can do under any other |
| `CloudStages.ListIsAppliedExactly` | agent_cloud.go:293-306 | The gate before a push applied the finding allowlist exactly when an agent made the patch, tests ran, or the list is empty |
| `CloudStages.SmokePushesTheNote` | agent_cloud.go:235-244 | What a run without an agent and without tests pushes differs from the base in its note only, so it stays on the allowlist exactly when the note is on it |
| `CloudStages.SmokePushesOffList` | agent_cloud.go:235-244 | In branch mode without tests, for every note and every allowlist without it there is an AI-skipped run that pushes outside the list |
| `CloudStages.PushIsRetriedExactly` | agent_cloud.go:150-172 | An attempt that pushed is retryable exactly when its pull request could not be created, and completed otherwise |
| `CloudStages.GoesOnAfterPushExactly` | agent_cloud.go:124-172 | After a push a run goes on exactly when the pull request failed, an iteration is left, and that one is neither aborted nor refused |
| `CloudStages.PushesOnceExactly` | agent_cloud.go:114-190 | A run pushes at most once exactly when no attempt that pushed and failed to open its pull request is followed by one that gets as far as the push; so always when every pull request opens |
| `CloudStages.SecondPush` | agent_cloud.go:114-190 | Two runs whose first pull request fails: one pushes a second time, on another branch, the other does not get as far |
| `CloudStages.OnlyTheLastCompletes` | agent_cloud.go:114-190 | Only the last attempt completes; attempts use different branches |
| `CloudStages.BranchesCollideExactly` | agent_cloud.go:214-222 | Two branch numbers coincide exactly for the same attempt and iteration, or when one attempt is numbered like a retry of the other |
| `FileTrees.CopyTreeFiles` | job_tree.go:39-76 | The copy takes every regular file outside .git, keeps the mode of a file that was there, and counts the files |
| `FileTrees.SyncSandboxTreeToPrimary` | job_tree.go:158-185 | Copy, then removal of the tracked files the sandbox lacks |
| `FileTrees.SyncCopiesContents` | job_tree.go:158-185 | Afterwards both trees have the same files and contents exactly when git tracks every primary file the sandbox lacks |
| `FileTrees.SyncCopiesExactly` | job_tree.go:69-71 | They are equal exactly when moreover no file both sides had differs in mode |
| `FileTrees.GitIsSpared` | job_tree.go:39-76 | Whatever the sandbox holds, the sync neither brings nor changes anything whose first segment is .git; other regular files come along, and tracked ones the sandbox lacks go |
| `AutofixRate.Window.Compact` | agents_authz.go:55-61 | The in-place compaction leaves exactly the timestamps after the cutoff, in order |
| `AutofixRate.Window.Authorize` | agents_authz.go:88-155 | Granted exactly when nothing before or after the rate check refuses and, for a counted call, fewer than max of all recorded authorizations, pruned or not, lie in the hour before the check; recorded by the clock at the end, only when granted |
| `AutofixRate.PruneTwice` | agents_authz.go:55-61 | Pruning by an earlier cutoff first loses nothing a later check counts |
| `AutofixRate.AtMostMaxPerHour` | agents_authz.go:46-76 | With a non-decreasing clock every half-open hour holds at most max recorded authorizations |
| `AutofixRate.NextAfterExactlyAnHour` | agents_authz.go:57-58 | For every max: after max recorded calls at once the next is recorded exactly from an hour later on, so a closed hour can hold one more |
| `AutofixRate.GrantedExactly` | agents_authz.go:88-155 | A counted call is granted exactly when its other tests pass and fewer than max of all recorded calls lie in the hour before; an uncounted one asks for the other tests alone, and is not recorded |
| `Secrets.StorageKeyRoundTrip` | cred_scope.go:417-442 | A storage key of a plain logical key parses back; a blank user is stored as _ |
| `Secrets.StorageKeyInjective` | cred_scope.go:417-431 | Storage keys coincide exactly for the same key, scope and, for user keys, user |
| `Secrets.NewestRowDecides` | cred_secrets.go:116-201 | The newest row matching the query decides; a tombstone is final except one of exactly the project asked for, which leaves the decision to the newest org-wide row; the second pass and the legacy lookup find nothing more |
| `Secrets.Isolation` | cred_secrets.go:262-277 | For arbitrary rows and queries a non-admin resolve returns only a row the caller may see: never an admin row or another user's, no organization's row for a blank one, and no other organization's when one is named |
| `Secrets.ResolvesExactly` | cred_secrets.go:262-277 | A job that is no admin one finds its user's live secret, else its organization's, and nothing exactly when there is neither |
| `Secrets.OrgSecretIsInherited` | cred_secrets.go:262-277 | After a write at organization scope every job of that organization whose user has no live secret of its own resolves to the value written |
| `Secrets.OwnSecretWins` | cred_secrets.go:262-277 | After a write at user scope that user's jobs resolve to it, whatever organization rows there are |
| `Secrets.DeletedOwnFallsBack` | cred_secrets.go:262-277 | Deleting it gives back what the organization's rows say |
| `Secrets.AdminSecretsStayApart` | cred_secrets.go:262-277 | After an admin write an admin query reads that value, and no other query changes |
| `Secrets.OldRowScope` | cred_scope.go:417-442 | A row without a scope entry has the scope its key is stored under, an unmarked key being the organization's where the row names one and an admin's otherwise |
| `Secrets.OldRowIsInheritedExactly` | cred_secrets.go:116-201 | A row from before there was a scope is inherited by an organization's jobs exactly when it names the organization |
| `Secrets.SecretLog.Persist` | cred_secrets.go:37-73 | The log grows by exactly the written row, or not at all for a user scope without a user |
| `Secrets.ReadAfterWrite` | cred_secrets.go:116-201 | After a write the same query reads the value back; after a delete it finds nothing, or for a project what the newest org-wide row says |
| `Secrets.WritesAreIsolated` | cred_secrets.go:116-201 | A write of another organization, user, scope or key changes no result |
| `Intake.TakenFits` | checkup_policy.go:143-270 | For a list taken in under a cap, without repeated keys, with refusals: what is kept is legal, within the cap and has unique keys, each item is what one raw item became, and every missing one has a recorded drop |
| `Intake.KeptAsWhole` | checkup_policy.go:143-270 | A list already within the envelope is kept as a whole exactly when every item is kept as it is |
| `CheckupPolicy.StepsFitEnvelope` | checkup_policy.go:193-270 | The kept steps number at most 20 with unique ids, allowlisted binaries, bounded timeouts, legal post-conditions and contained directories; each stems from one raw step, and every missing step has a recorded drop |
| `CheckupPolicy.RefusedExactly` | checkup_policy.go:193-270 | A step is refused exactly without a command, for a command that reads like a shell's, for a tool that is not allowed, or for a post-condition that asks for nothing known or lacks what it needs |
| `CheckupPolicy.LegalStepIsKept` | checkup_policy.go:193-270 | A legal step of a tool other than phpstan with a clean directory goes through untouched |
| `CheckupPolicy.KeptStepIs` | checkup_policy.go:193-270 | A kept step keeps its command unless it is phpstan, its time limit up to half an hour or ten minutes for none, and its id, trimmed, or its number |
| `CheckupPolicy.SafeRelExactly` | checkup_policy.go:359-368 | An artifact path is safe exactly when it is relative, names something, and leads nowhere above where it starts |
| `CheckupPolicy.IntersectSteps` | checkup_policy.go:193-270 | The loop yields the kept steps and drops of the specification |
| `CheckupPolicy.KeptTwice` | checkup_policy.go:215-269 | A kept step passes a second time unchanged exactly when its phpstan flags survive the rewrite without uncovering -c and its cleaned directory is trimmed |
| `CheckupPolicy.LegalIsFixed` | checkup_policy.go:310-357 | Normalizing a legal post-condition changes nothing |
| `CheckupPlans.IntersectSpecWithPolicy` | checkup_policy.go:73-278 | The plan is the one of the specification, and the drops of both loops and of a denied image are recorded |
| `CheckupPlans.PolicyFitsEnvelope` | checkup_policy.go:73-278 | Whatever the plan, the output satisfies the envelope and has no steps without an allowed image |
| `CheckupPlans.PlanKeeps` | checkup_policy.go:73-278 | A plan keeps its source, a positive version and an allowed image, trimmed, gets the default for a blank one, and without an allowed one loses its steps but not its services |
| `CheckupPlans.ServicesFitEnvelope` | checkup_policy.go:143-191 | At most 6 services with unique clean keys, allowed images, bounded timeouts; a missing one has a recorded drop |
| `CheckupPlans.PolicyTwice` | checkup_policy.go:73-278 | Re-applying the policy changes nothing exactly when every kept step was stable, or, without an allowed image, when the default image is not allowed either |
| `CheckupPlans.StablePlanTwice` | checkup_policy.go:73-278 | Read off the raw plan alone: with an allowed image and every raw step stable, kept or not, the second pass changes nothing |
| `CheckupPlans.UnstableExamples` | checkup_phpstan.go:128-146 | Three inputs that a second pass changes |
| `CheckupPlans.SanitizedTwice` | checkup_policy.go:370-383 | A sanitized key is empty or clean, and a clean key stays as it is |
| `PHPStan.NormalizePHPStanArgv` | checkup_phpstan.go:83-148 | The flag scans and the skip-next loop compute the rewritten arguments of the specification |
| `PHPStan.NormalisedYields` | checkup_phpstan.go:83-148 | The result always asks for checkstyle, and says analyse and --no-progress exactly when no --error-format swallows them |
| `PHPStan.NormalisedTwice` | checkup_phpstan.go:83-148 | Rewriting is idempotent exactly under the same condition |
| `PHPStan.OthersAreKept` | checkup_phpstan.go:83-148 | Arguments without an error format are all kept in order, with exactly what is missing of analyse, --no-progress and the checkstyle format added |
| `PHPStan.VendorIsUsed` | checkup_phpstan.go:83-148 | A phpstan that is not below vendor/bin already is replaced by the one that is, and any other command stays |
| `PHPStan.ArgvStable` | checkup_policy.go:290-308 | An accepted phpstan argv, rewritten, is refused as a shell string exactly when stripping uncovered -c, and is left alone exactly when its flags survived |
| `PHPStan.LooksLikeShellExactly` | checkup_policy.go:280-308 | A command reads like a shell's exactly when it is one argument with a blank, a line break or one of ; & |, when with further arguments its last segment names an interpreter, a downloader, a container tool or a wrapper in any case of letters, or when its second of three arguments is -c or -lc |
| `Paths.CleanTwice` | checkup_policy.go:237 | Cleaning a path is idempotent |
| `Paths.CleanLeadsToTheSamePlace` | checkup_policy.go:237 | Walked segment by segment, a cleaned path leads to the same place as the path |
| `Paths.EscapesExactly` | checkup_policy.go:237 | A relative path escapes, once cleaned, exactly when the walk ends above where it started |
| `Paths.BetweenSlashesExactly` | scm_ai_review.go:281-297 | A name between two slashes occurs in a path exactly when it is a segment with others before and behind it |
| `PRSummary.SplitOfFenced` | pr_summary.go:55-71 | A body with a fence splits into the trimmed text around it and the hash in it |
| `PRSummary.OutsideSurvivesExactly` | pr_summary.go:55-79 | For a text without a complete fence of its own, what is outside after splice and split is that text, trimmed, exactly when it holds no lone marker and the narrative no end marker |
| `PRSummary.EarlyEndPilesUp` | pr_summary.go:55-60 | With an end marker before any start marker outside, every upsert adds another fence and takes the whole body for text outside |
| `PRSummary.UpsertsKeepOutside` | pr_summary.go:20-53 | Any sequence of upserts keeps the text outside and never reports a human edit on its own output |
| `PRSummary.UpsertShowsNarrative` | pr_summary.go:20-53 | An accepted upsert writes the narrative, trimmed, or the stock line for a blank one, into the fence |
| `PRSummary.RefusesEditsExactly` | pr_summary.go:32-38 | After an edit around the fence an upsert refuses exactly when the hash of the text outside differs |
| `Redaction.RedactJobOutput` | agents_launch.go:260-279 | The two loops replace every long enough secret in order |
| `Redaction.CleanTextIsKept` | agents_launch.go:260-279 | A text in which no long enough secret occurs is left as it is |
| `Redaction.OnlyTheSecretGoes` | agents_launch.go:260-279 | Around the first occurrence of a secret the text is kept, and stars stand in its place |
| `Redaction.NoSecretLeft` | agents_launch.go:260-279 | Whatever the number and order of secrets, none of at least eight characters that three stars cannot be part of occurs in the output |
| `Redaction.StarFreeIsSafe` | agents_launch.go:260-279 | A secret without a star is such a one |
| `Redaction.StarSafeExactly` | agents_launch.go:260-279 | A trimmed secret of at least eight characters is gone from every output, whatever the text and the other secrets, exactly when it neither starts nor ends with a star nor holds three in a row |
| `Decimals.Itoa` | run_skip.go:45-57 | Writes the exact decimal within the twenty-byte buffer for every value below 2^63, and nothing for a negative one |
| `PRIndex.IndexKeyInjective` | agents_run.go:19-21 | Index keys coincide exactly for the same repository up to case and white space and the same number |
| `PRIndex.PRRuns.EnqueuePRRun` | agents_run.go:179-248 | The jobs and the index after an enqueue, and that a run already on the commit is returned |
| `PRIndex.PRRuns.SupersedeInFlightPRJobs` | scm_orchestrator.go:781-860 | Exactly the in-flight jobs of the pull request on other commits are stopped: cloud children under way are drained, all others cancelled |
| `PRIndex.PRRuns.PruneSupersededInFlightPRRuns` | agents_run.go:82-141 | One newest job per key is kept, all others in flight cancelled, the index remembers the kept runs |
| `PRIndex.OneInFlightAlways` | agents_run.go:179-248 | In every run of enqueues with trimmed repository names, continuous enqueues of commits not under way, status changes, prunes and retries with nothing else in flight, each pull request of a named repository has at most one top-level job in flight |
| `PRIndex.RetryKeepsOneExactly` | scm_orchestrator.go:1106-1150 | A retry keeps at most one job in flight per pull request exactly when no other one of its pull request was in flight |
| `PRIndex.SupersededRunReturns` | scm_orchestrator.go:1134-1141 | Retrying a run that a newer commit superseded leaves both in flight |
| `PRIndex.TwoCommitsOneRunExactly` | agents_run.go:144-177 | Two commits one after the other leave at most one run in flight exactly for a repository name that is trimmed and not empty |
| `PRIndex.ReenqueueChangesNothing` | agents_run.go:193-203 | Enqueueing the same commit again changes no job |
| `PRIndex.EnqueueSpares` | agents_run.go:179-248 | An enqueue changes no job of another pull request or repository, no job on its own commit and none that is over |
| `PRIndex.EnqueueStops` | agents_run.go:179-248 | Of its pull request it cancels every job in flight on another commit, but for cloud children under way, which are drained and stay in flight |
| `PRIndex.EnqueueAdds` | agents_run.go:179-248 | It adds one top-level run on the trimmed commit, queued or, when not admitted, skipped |
| `PRIndex.PruneLeavesOne` | agents_run.go:82-141 | From any jobs, pruning leaves exactly one in flight under each index key that had any, of maximal start time |
| `PRIndex.PruneSpares` | agents_run.go:82-141 | Pruning takes a job out of flight only, and only a top-level one of a pull request, for another under the same key that started no earlier; every other job is as it was |
| `PRIndex.PruneRemembers` | agents_run.go:82-141 | Afterwards the index leads to each run still in flight, and keeps what it said of keys with nothing in flight |
| `PRIndex.PRRuns.EnqueueSCMJob` | scm_orchestrator.go:495-522 | The jobs after a continuous enqueue: other commits superseded for a pull request, one job added, no look for one on the same commit |
| `PRIndex.ContinuousAdds` | scm_orchestrator.go:495-522 | A continuous enqueue adds one queued top-level job as given and changes no job of another pull request |
| `PRIndex.ContinuousKeepsOneExactly` | scm_orchestrator.go:495-522 | The continuous path leaves at most one in flight per pull request exactly when none was already on its commit |
| `ReviewUnits.SplitDiffIntoReviewUnits` | scm_ai_review.go:299-321 | The units are those of the specification |
| `ReviewUnits.SkippedExactly` | scm_ai_review.go:281-297 | A file is left out exactly when its last segment, in any case of letters, is a lock file's name or ends like a picture, font, binary or generated code, or an inner segment is vendor or node_modules |
| `ReviewUnits.FileIsAUnit` | scm_ai_review.go:299-321 | When there is room, every file that is not left out is a unit of its own with its text, cut only past the limit |
| `ReviewUnits.UnitsAreBounded` | scm_ai_review.go:299-321 | No unit is longer than the limit and the note that it was cut |
| `ReviewUnits.KeptInOrder` | scm_ai_review.go:299-321 | Files keep their order |
| `ReviewUnits.PackageInOrder` | scm_ai_review.go:388-433 | The paths and texts of a package keep the order of its files, and it looks like user interface as soon as one of them does |
| `ReviewUnits.PackageExactly` | scm_ai_review.go:435-451 | A file at the top belongs to the root package, one below a directory to that, or, where the directory is one of seven that only hold packages, to what follows in it |
| `ReviewUnits.PackageHoldsText` | scm_ai_review.go:388-433 | The text of a package holds that of each of its files |
| `ReviewUnits.GroupUnitsByPackage` | scm_ai_review.go:388-433 | The bucket maps and the sort compute one unit per chosen package with the package's whole paths |
| `ReviewUnits.PathsPreserved` | scm_ai_review.go:299-321 | At most maxUnits units; the multiset of paths is that of all kept files when the packages fit, and never more |
| `ReviewUnits.LargestPackagesKept` | scm_ai_review.go:414-420 | Each kept package is at least as large as each dropped one |
| `StableSort.SortIsStable` | scm_ai_review.go:415-417 | The sort keeps the order of packages of the same size |
| `RiskScore.ComputeRiskScore` | risk_score.go:32-114 | The score is the capped sum of the recorded factors' points |
| `RiskScore.MoreEvidenceMoreRisk` | risk_score.go:32-114 | The score stays within 0 and 100 and never falls when findings, a gate failure or degraded reasons are added |
| `RiskScore.OneMoreFinding` | risk_score.go:32-114 | One more security finding adds 20 up to 40, 10 up to 25 or 3 up to 10 points by its severity, and nothing for any other |
| `RiskScore.EachFlagAdds` | risk_score.go:32-114 | A failed gate adds 35 points, degraded input 10, a verdict of request_changes 10, a status of findings 12, a blocking finding 20 in place of those |
| `RiskScore.SensitiveExactly` | risk_score.go:80-96 | A path counts once when it holds one of the words anywhere, ends in dockerfile or is hidden, twice when it is a key file and none of that, else not at all, in any case of letters |
| `RiskScore.WordsCountAnywhere` | risk_score.go:80-96 | One of the sensitive words counts wherever it stands in a path, in any case of letters |
| `RiskScore.CapitalisedEntryReadExactly` | scm_ai_review.go:668-680 | The capitalised severity entry is read exactly when the other one is present and blank |
| `Approval.EvaluateApproval` | approval_policy.go:93-242 | The event is the decision told by abstention, hard vetoes, policy vetoes and an unreadable policy; an approval has confidence at the threshold |
| `Approval.HighestVetoes` | approval_policy.go:330-347 | Comparing the highest severity vetoes exactly when some finding reaches a known minimum |
| `Approval.EachVetoRejects` | approval_policy.go:93-242 | Each single veto is enough: whatever else a run that does not abstain says, a blocking finding, a verdict of request_changes or needs_context, a status of findings, a failed gate, a security finding at the minimum or too low a confidence gives request_changes |
| `Approval.EachVetoTurnsApproval` | approval_policy.go:93-242 | So each of them, added to evidence that is approved, turns it into request_changes |
| `Approval.EachAbstentionComments` | approval_policy.go:93-242 | Each abstention (a degraded input, a pending cloud child, auto-approve off, a review skipped or in error) turns any decision into a comment |
| `Approval.NothingAgainstIsApproved` | approval_policy.go:93-242 | With no abstention, no veto and no policy against it, a run is approved |
| `Approval.PolicyTurnsApproval` | approval_policy.go:93-242 | An unmet requirement or too high a risk turns an approval into what the policy says, and an unreadable policy into a comment |
| `Approval.WorseEvidenceNeverApproves` | approval_policy.go:93-242 | More findings, concerns, degraded reasons, requirements, a stricter policy, a higher threshold or risk never turn a result that is no approval into one, calibration included |
| `Approval.WorseRunNeverApproves` | run_graph.go:717-784 | The same from the agents' results on, with the risk score recomputed |
| `Approval.MinSeverityTightensExactly` | approval_policy.go:185-194 | A policy's minimum severity blocks at least what the default does exactly when it is low, medium or high |
| `Approval.RunApprovalAgent` | run_graph.go:687-784 | Not ready, no reviewer input, or the decision on the gathered evidence |
| `Approval.ApprovedWithoutReviewExactly` | run_graph.go:731-776 | Without any recorded review a run is approved exactly when the review was cancelled or skipped, no policy asks for one, security did not fail and nothing else objects |
| `Approval.RaisingWatchedScore` | run_graph.go:723-729 | Raising the watched score raises the threshold exactly when it does not leave the default for a positive score below 70 |
| `Approval.WatchedScoreBelowDefault` | run_graph.go:723-729 | There a run approved with the higher watched score is refused without one exactly for a confidence below 70 with a reason behind it |

## Left out

- GitHub, OAM and ClickHouse calls, docker, git subprocesses, AES, JWT and SHA: only their effect on a tree, a log or a step appears; hashes are injective or parameters.
- Request parsing, status codes, JSON and the permission checks of the connector handlers: inputs come already trimmed, and whether a delete is allowed is a parameter.
- Persistence and boot hydration of connectors, `github_pat` connectors and watches: only the live map is modelled, its rows as values, so aliasing between the map and a caller is not captured.
- The names of the catch-all tenant and the default project come from a package that is not part of this model; two distinct strings stand for them.
- Finish-install reads the clock once; peeking and consuming an intent use the same time.
- The two-hour deadline and the polling interval of the parent loop, and the drain flags that cancelling a cloud child sets.
- The cascade of a cancel to the children of a job (scm_orchestrator.go:686-705): children are cancelled as steps of their own in the run graph, and superseding a run is modelled without it.
- String case is folded for ASCII only, and lengths count characters, not bytes.
- The LIMIT of the secret queries: the matching row is taken to be among the rows fetched; a failing query is not modelled.
- Check-then-record of the rate limit by concurrent callers: an authorization is one step; windows of different repositories are independent.
- A hard stop caused by the gate's name appearing in the text of an unrelated error (agent_cloud.go:157); the texts of errors and honesty notes in general.
- Lines landed: untracked files count at most fifty lines in the diff, so no bound on landed lines is claimed.
- CheckupPlans.IntersectSpecWithPolicy: environment maps and secret names are not modelled, because they are filters of one key at a time.
- ConnectorHub.Hub.ListCandidates: rows read from the database are not modelled, because only the live map is.
- CloudStages.RunOneCloudAttempt: an agent that damages git's own files shows only as a diff or capture that fails, because git's metadata is not modelled.
- CloudStages.LandValidatedPatch: whether the patch applies is an input; applied, it gives the tree it was captured from.
- GitDiffs.EveryPathSeenExactly: paths that git puts in quotes (control, non-ASCII and quote characters, backslashes) may show as any text, and nothing is claimed of them; ignore rules and renames are not modelled.
- What a retry changes besides the status: the actor, the force flag and the kind of rows that have none.
- Review stacks, which set waiting jobs back to queued.
- Glob matching of image names: which images are allowed is a parameter.
- Symbolic links as targets of a copy, and a path that is a file on one side and a directory on the other.
- Which paths look like user interface: a parameter of the review units.
- Prompts, markdown, dashboards and the review's own AI calls.
- DiffLaws.ParseOfConcat: a header glued to an unfinished last line is no header, and that case is not classified.
