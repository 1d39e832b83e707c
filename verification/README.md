# NewsDeck: a verified model of its ingestion core and its autonomous loop

This project models the parts of the NewsDeck repository that keep state over unbounded input, runs or
time, and proves what they promise: the worker's batch de-duplication and persistence of articles, the
policy that classifies and gates pull requests (`tooling/loop`), and the local runner that works issues
unattended (`tooling/local-runner`). `dafny verify dfyconfig.toml` checks everything.

## The modules

- `Grouping`, `Collapsing`, `Articles`: articles of one batch are grouped by shared canonical URL or
  content hash. `Grouping` says what a group is (chains of shared keys) and folds candidates into roots;
  `Collapsing` is the imperative union-find with path compression over mutable maps, proved against it;
  `Articles` adds the store (a class whose only constraint is a unique canonical URL), other writers that
  add rows between any two steps, the batch lookup, the inserts and the recovery from a lost race.
- `Globs`, `Policies`, `Diffs`, `Risks`, `ControlPlanes`, `Loosenings`: the path matcher and its
  segment-to-regular-expression compiler, cumulative verification tiers, the unified-diff parser, risk
  classification under one or two policies, the comparison of a proposed policy with the one in force, and when a
  proposal can lower the risk of a later change, reported or not.
- `Reviews`, `MergeGates`, `Evaluations`: aggregation and de-duplication of review findings, the merge decision,
  the retry loop that iterates the decision against its own recorded state, and the composition of risk,
  weakened protections and gate that evaluates one pull request.
- `Selection`: which issue comes next, and whole runs of select-and-close over the dependency graph.
- `Budgets`, `Journals`, `Verification`, `Rounds`, `Working`, `Driving`, `Resuming`, `Sessions`, `Runners`: the unattended
  runner.
  `Budgets.Budget` holds two pruned arrays and a monotone clock and is proved against full logs nobody
  keeps. `Rounds`, `Working`, `Driving`, `Resuming` and `Sessions` give one coding round, one issue, one scheduling
  step, any number of them and a whole session as functions of what the outside world answers, including exceptions at every call;
  `Runners.Runner` is the class that performs them step by step, with its journal saved in place.
- `FeedText`: the feed parser's text sanitiser. `Text` and `Options` are helpers.

Agents, git, the GitHub host, command execution, regular-expression detectors and lower-casing are
parameters: functions or records of answers, unconstrained, so each result holds for all of them.  The
clock is one too, asked only never to go back.

## Where the code and its comments differ

The model follows the code. Each point names the lemmas that give an input and the exact condition.

- A run that is in flight without a pull request is reported as one "the next cycle will resume"
  (`orchestrator.ts:970-976`). The unattended loop only calls `runOnce` when nothing is in flight, so it never
  does: `Runners.Runner.RunUnattended` shows the journal, the logs and the history stay exactly as they were, and
  `Driving.StrandedIsResumable` that a single `runOnce` would have resumed it. `Driving.StrandedIffCutShort` says
  which calls must throw to leave a run there, `Driving.ThrowingInstallStrands` gives answers that do.
- For the same reason the fix round promised for red checks and the resolution promised for a conflict
  (`orchestrator.ts:1020-1064`) never start in an unattended session: `Sessions.RedIsNeverFixed` shows the CI rounds
  being used up one by one without a coding round, `Sessions.ConflictIsNeverResolved` a conflict staying as it is.
- Raising a retry limit beyond double is called a visible, non-blocking note (`control-plane.ts:217-229`), but it
  stops the merge for a person: `Evaluations.RetryLimitsAskAPersonIff` says exactly when, and
  `Evaluations.SomeRetryProposalStopsIff` that the schema leaves room for such a proposal exactly when some limit in
  force is at most 4.
- `findWeakenedProtections` says it finds every way a policy is weaker (`control-plane.ts:127`). The default risk, the
  size limits, the escalation lists and the control plane are not compared at all
  (`ControlPlanes.UncomparedFieldsAreNotReported`): each can be given up without a finding, by a policy the schema
  accepts, and some change drops (`Loosenings.EachProtectionCanGoUnreported`). Moving a path pattern to a lower level is
  not reported either (`ControlPlanes.RetieringIsNotReported`) and can take a change from high to low risk
  (`Loosenings.RetieringLowersTheRisk`). A whole policy is harmless when it keeps every protection
  (`Loosenings.KeptProtectionsKeepTheRisk`), and exactly when it lowers the risk of no change of at most one file and
  keeps what is too big for the policy in force high (`Loosenings.NeverLowersIff`); where size limits and default are
  not relaxed, exactly when it lowers that of no single file (`Loosenings.SingleFilesDecide`). Changing `inherits` can
  drop steps unreported (`ControlPlanes.ChainsDecideCoverage`, `ControlPlanes.LostChainLosesAStep`).
- A merge decision does not imply a passing risk gate (`MergeGates.MergePassesRiskGateIff`,
  `MergeGates.ApprovedWeakeningFailsRiskGate`).
- "Rounds already spent stay spent" (`orchestrator.ts:375-377`) holds of rounds the agent answered, and is not all there
  is to it. The last round handed out is handed out again exactly when its call threw and it was not round 0 of a claim
  (`Resuming.RoundIsRepeatedIff`); an agent that keeps throwing is invoked as often as its run is resumed
  (`Resuming.ResumptionsAreUnbounded`, `Resuming.OneIssueIsHandedOutForever`). Only the hourly budget bounds that, and
  only in an unattended session. Round 0 of a claim counts as spent even if nothing was answered, and with it every round
  on record from an earlier claim: the issue may be blocked without a single answered round
  (`Resuming.UnansweredFirstRoundIsSpent`).
- A claim takes over the counters its issue's record still holds (`orchestrator.ts:523-537`). An issue blocked for its
  last red check and put back in the queue is blocked again at the first red it sees
  (`Resuming.RequeuedRunSurvivesNoRed`); `Resuming.RedBlocksIff` says how many reds a run survives from any counter.
- `conflictRounds` is compared with its limit but no step ever moves it (`Resuming.StepKeepsConflicts`): a conflict can
  be taken up at every resumption or at none (`Resuming.ConflictIsTakenUpAlwaysOrNever`), and so more often than the
  limit allows (`Resuming.ConflictLimitIsExceeded`, `Resuming.OneConflictIsTakenUpForever`).
- A claim is recorded against the daily limit only if no exception ended its work (`orchestrator.ts:256-273`,
  `Sessions.TakenIsRecorded`; `Driving.EndsUncutIff` says when that is, from the answers). Claims can go by unrecorded, as many
  as failures are tolerated in a row (`Sessions.UnrecordedClaims`), which exceeds the daily limit where more of them are
  tolerated than issues a day (`Sessions.UntoldClaimsExceedTheDay`; the defaults of 8 and 20 do not). Publications that
  cannot be announced go by without end (`Sessions.UnrecordedPublications`), and exceed any daily limit, the defaults
  included (`Sessions.PublicationsExceedTheDay`).
- "One issue giving up is not the loop giving up" (`orchestrator.ts:284-288`) keeps an issue from being claimed again
  only if the host could be told of it. Saved as blocked while the telling threw, it can be claimed in the next cycle
  (`Sessions.UntoldCycle`, `Sessions.RetakenIffNeverLeft`).
- A removed or added line whose text starts with two more of its own sign is read as a header and lost, and a path that
  holds ` b/` is read as another one unless a rename repeats it (`Diffs.RoundTrip`).

## Model

| member | source | states |
|---|---|---|
| `Grouping.RootsAreComponents` | apps/worker/src/modules/articles/service.ts:70-125 | two indexes have one root exactly when a chain of shared URLs or hashes connects them |
| `Grouping.RootIsEarliest` | apps/worker/src/modules/articles/service.ts:87-98 | the root is the smallest index of its component |
| `Grouping.DuplicateIffEarlierConnected` | apps/worker/src/modules/articles/service.ts:111-122 | an index is reported as a duplicate exactly when an earlier candidate is connected to it |
| `Grouping.DuplicateIsExact` | apps/worker/src/modules/articles/service.ts:97-122 | every duplicate entry names its component's earliest index and a key that two of its members share |
| `Grouping.RepresentativesAscend` | apps/worker/src/modules/articles/service.ts:111-116 | representatives come in ascending order |
| `Collapsing.CompressionKeepsRoots` | apps/worker/src/modules/articles/service.ts:79-85 | path compression changes no root |
| `Collapsing.LinkRedirectsRoots` | apps/worker/src/modules/articles/service.ts:90-98 | linking two roots redirects exactly the loser's component |
| `Collapsing.Collapser.Find` | apps/worker/src/modules/articles/service.ts:79-85 | terminates on any links and interleaving, returns the root, keeps every root while compressing |
| `Collapsing.Collapser.Union` | apps/worker/src/modules/articles/service.ts:90-98 | after it the maps represent the joined grouping, earlier root winning, reason recorded |
| `Collapsing.Collapser.Add` | apps/worker/src/modules/articles/service.ts:100-109 | one candidate joined by URL, then by hash, to the latest holders of those keys |
| `Collapsing.Collapser.Resolve` | apps/worker/src/modules/articles/service.ts:111-122 | representatives listed and every entry resolved to its final root |
| `Collapsing.CollapseInBatchDuplicates` | apps/worker/src/modules/articles/service.ts:70-125 | the imperative whole equals the declarative grouping |
| `Collapsing.MembersAreTheComponent` | apps/worker/src/modules/articles/service.ts:163-173 | a representative's members are its connected component |
| `Collapsing.GroupMembersByRepresentative` | apps/worker/src/modules/articles/service.ts:163-173 | every representative is mapped to exactly its component |
| `Articles.ArticleStore.FindMatches` | apps/worker/src/modules/articles/repository.ts:38-57 | the rows sharing a URL or hash with a query, all of them and no others |
| `Articles.ArticleStore.Insert` | apps/worker/src/modules/articles/repository.ts:59-64 | appends one row, or fails and changes nothing: on a stored canonical URL exactly, unless the database itself breaks |
| `Articles.FindMatchAnswers` | apps/worker/src/modules/articles/service.ts:127-139 | a match by URL is preferred, one by hash comes second, none means no shared key |
| `Articles.FindGroupMatch` | apps/worker/src/modules/articles/service.ts:149-161 | a match of the first member that has one; none only if no member has |
| `Articles.ResolveGroup` | apps/worker/src/modules/articles/service.ts:209-246 | existing, inserted or lost race, each with the row that explains it, under any interference |
| `Articles.NoConflictWhenQuiet` | apps/worker/src/modules/articles/service.ts:227-231 | without other writers no insert conflicts |
| `Articles.DedupeAndPersist` | apps/worker/src/modules/articles/service.ts:190-268 | on every interleaving and whenever the database breaks: URLs unique, rows only added, every new row owed to an unmatched component or written by others; without an exception, one outcome per candidate |
| `Articles.InsertedIffNewComponent` | apps/worker/src/modules/articles/service.ts:190-268 | a quiet run inserts exactly the earliest candidate of each component no stored row shares a key with |
| `Articles.ExistingNamesASharer` | apps/worker/src/modules/articles/service.ts:211-245 | every existing outcome, races included, names a stored row that shares a key with its component |
| `Articles.RunCountsComponents` | apps/worker/src/modules/articles/service.ts:259-268 | the three counts add up to the batch, inserted plus existing to the number of components |
| `Articles.QuietRunKeepsKeysUnique` | apps/worker/src/modules/articles/service.ts:190-268 | a store without shared URLs or hashes stays so |
| `Articles.RerunInsertsNothing` | apps/worker/src/modules/articles/service.ts:190-268 | the same batch again, whatever others write during and between the runs, finds every component by the lookup and repeats the duplicate entries |
| `Articles.RerunChangesNothing` | apps/worker/src/modules/articles/service.ts:190-268 | after any run, lost races included, a quiet rerun leaves the store alone |
| `Globs.MatchIffSplits` | tooling/loop/src/glob.ts:24-41 | backtracking succeeds exactly when the items fall into one fitting block per piece |
| `Globs.MatchConcatenates` | tooling/loop/src/glob.ts:24-41 | a concatenated pattern matches exactly the concatenations of matches |
| `Globs.SegmentToRegExp` | tooling/loop/src/glob.ts:14-22 | the source text built character by character |
| `Globs.BodyReadsBack` | tooling/loop/src/glob.ts:14-22 | read as a regular expression, the built text is the segment's own pieces: no escape is missing |
| `Globs.RegExpAcceptsTheSegment` | tooling/loop/src/glob.ts:14-22 | the expression accepts exactly the wildcard language of the segment |
| `Globs.MatchSegments` | tooling/loop/src/glob.ts:24-41 | the search loop answers the declarative match |
| `Globs.MatchGlob` | tooling/loop/src/glob.ts:44-54 | whole paths, normalised, match segment by segment |
| `Globs.TrailingGlobstar` | tooling/loop/src/glob.ts:28-34 | a final `**` matches every path that extends a match, including no further segment |
| `Globs.PlainPatternMatches` | tooling/loop/src/glob.ts:14-41 | a pattern without wildcards matches itself and nothing else |
| `Globs.DirectoryMatches` | tooling/loop/src/glob.ts:24-41 | a plain directory and a globstar match exactly the paths inside it |
| `Policies.StepsExtendTheInherited` | tooling/loop/src/policy.ts:144-160 | the inherited tier's steps are a prefix and no name occurs twice |
| `Policies.StepsAreDemands` | tooling/loop/src/policy.ts:144-160 | a step is listed exactly when some tier on the chain demands it |
| `Policies.EndsWithinTwo` | tooling/loop/src/policy.ts:148-150 | with three levels, inheritance ends within two steps or never |
| `Policies.CollectIgnoresFuel` | tooling/loop/src/policy.ts:148-156 | the bound on the recursion does not show in the result |
| `Policies.StepCollector.Collect` | tooling/loop/src/policy.ts:144-160 | the recursive closure over `seen` and `steps` computes those steps |
| `Diffs.ParseUnifiedDiff` | tooling/loop/src/diff.ts:36-78 | the line loop equals the recursive reading |
| `Diffs.HeaderReads` | tooling/loop/src/diff.ts:26-42 | a printed file header is read back with the new path exactly when the old one holds no separator |
| `Diffs.RoundTrip` | tooling/loop/src/diff.ts:36-78 | a printed diff parses to its own files exactly when no changed line reads as a header and no path but a rename's holds the separator |
| `Diffs.PrintedDiffReads` | tooling/loop/src/diff.ts:36-78 | what any printed diff parses to, lost lines included |
| `Diffs.DiffsConcatenate` | tooling/loop/src/diff.ts:36-78 | concatenated diffs parse to concatenated files |
| `Diffs.TotalsAdd` | tooling/loop/src/diff.ts:18-24 | line totals add up |
| `Risks.ClassifyRisk` | tooling/loop/src/risk.ts:42-93 | the loops over rules, labels and escalations compute the risk, its reasons and what of the control plane is reached |
| `Risks.FindEscalations` | tooling/loop/src/risk.ts:149-207 | one high reason per exceeded limit, destructive migration, removed export and major upgrade |
| `Risks.AssessControlPlane` | tooling/loop/src/control-plane.ts:39-84 | which files reach the control plane, and whether any of them bears policy |
| `Risks.ReachingTheControlPlaneIsHigh` | tooling/loop/src/risk.ts:74-82 | reaching it under either policy is high risk, and a policy-bearing change always reaches it |
| `Risks.RiskIsHighestReason` | tooling/loop/src/risk.ts:42-93 | the risk is the highest of its listed reasons |
| `Risks.RiskIsHighestJustified` | tooling/loop/src/risk.ts:42-93 | the risk is the highest level some input calls for |
| `Risks.RiskNeverDrops` | tooling/loop/src/risk.ts:42-207 | adding whole files, labels or path rules never lowers it |
| `Risks.RiskIgnoresOrder` | tooling/loop/src/risk.ts:42-207 | the order of files, labels and rules does not matter |
| `Risks.ProposedPolicyCannotLowerRisk` | tooling/loop/src/risk.ts:117-147 | under a proposed policy the answer is never below the base policy's, and still its highest reason |
| `ControlPlanes.FindWeakenedProtections` | tooling/loop/src/control-plane.ts:134-234 | the findings are exactly the weakenings, kind by kind |
| `ControlPlanes.FindUnsafeWorkflowChanges` | tooling/loop/src/control-plane.ts:237-259 | exactly the unsafe constructs added to workflow files |
| `ControlPlanes.NoFindingsCover` | tooling/loop/src/control-plane.ts:149-189 | no finding and kept chains mean steps and reviewers cover the old ones at every level |
| `ControlPlanes.ChainsDecideCoverage` | tooling/loop/src/control-plane.ts:158-178 | comparing tiers' own steps protects a level exactly when its chain is kept |
| `ControlPlanes.LostChainLosesAStep` | tooling/loop/src/control-plane.ts:158-178 | whenever a chain loses a level, a step can be lost unreported |
| `ControlPlanes.UncomparedFieldsAreNotReported` | tooling/loop/src/control-plane.ts:134-234 | policies that agree where they are compared differ unreported, whatever their default risk, size limits, escalation lists and control planes |
| `ControlPlanes.RetieringIsNotReported` | tooling/loop/src/control-plane.ts:191-209 | a rewrite of path rules is unreported exactly when every pattern is still listed at some level, whatever level that is |
| `Loosenings.RetieringLowersTheRisk` | tooling/loop/src/control-plane.ts:191-209 | for every plain pattern, accepted policies whose unreported difference takes a change from high to low risk |
| `Loosenings.EachProtectionCanGoUnreported` | tooling/loop/src/control-plane.ts:127-234 | for each protection besides the path rules, accepted policies that give it up unreported and a change whose risk drops |
| `Loosenings.NeverLowersIff` | tooling/loop/src/risk.ts:42-207 | a policy lowers the risk of no change exactly when it lowers that of none of at most one file and keeps what is too big for the other high |
| `Loosenings.SingleFilesDecide` | tooling/loop/src/risk.ts:42-207 | with limits and default not relaxed, it lowers the risk of no change exactly when it lowers that of no single file |
| `Loosenings.RaisedFileLimitLowersTheRisk` | tooling/loop/src/risk.ts:149-160 | a raised limit on changed files lowers the risk of some change for every file that is not high on its own and removes nothing |
| `Loosenings.KeptProtectionsKeepTheRisk` | tooling/loop/src/risk.ts:42-207 | under glob matching, a policy that takes no protection away keeps the risk of every change |
| `ControlPlanes.RetryLimitsWeakenIff` | tooling/loop/src/control-plane.ts:212-234 | a change of retry limits is reported exactly when one more than doubles |
| `ControlPlanes.WorkflowFilesAreSearched` | tooling/loop/src/control-plane.ts:240-245 | under glob matching, constructs are looked for exactly inside the workflow directory |
| `Reviews.DedupeByKey` | tooling/loop/src/aggregate.ts:125-138 | the insertion-ordered map keeps one finding per key |
| `Reviews.DedupeHasDistinctKeys` | tooling/loop/src/aggregate.ts:125-138 | no key is left twice |
| `Reviews.KeptIsStrongest` | tooling/loop/src/aggregate.ts:125-138 | every kept finding is the first of the most severe with its key |
| `Reviews.NothingIsLost` | tooling/loop/src/aggregate.ts:125-138 | every key survives, at no lower severity |
| `Reviews.DedupeKeepsTheVerdict` | tooling/loop/src/aggregate.ts:91-103 | a blocking finding is left exactly when one was raised |
| `Reviews.AggregateIsPessimistic` | tooling/loop/src/aggregate.ts:52-111 | blocked and approve as conditions on the raw reviews, both directions |
| `Reviews.AggregateIgnoresOrder` | tooling/loop/src/aggregate.ts:52-111 | the verdict is invariant under permuting the reviews |
| `Reviews.DeterministicFindingsOnlyTighten` | tooling/loop/src/review.ts:145-168 | merged deterministic findings never move the verdict toward approval |
| `MergeGates.MergesIffMayMerge` | tooling/loop/src/merge-gate.ts:135-273 | the gate merges exactly under an explicit fail-closed condition on its raw inputs |
| `MergeGates.DispatchesIff` | tooling/loop/src/merge-gate.ts:226-256 | a fix is dispatched exactly when there is work an agent can do and a retry left |
| `MergeGates.DecisionIgnoresReviewOrder` | tooling/loop/src/merge-gate.ts:135-273 | the decision does not depend on the order of reviews |
| `MergeGates.DeterministicFindingsNeverMerge` | tooling/loop/src/merge-gate.ts:135-273 | deterministic findings never turn another answer into a merge |
| `MergeGates.MergePassesRiskGateIff` | tooling/loop/src/merge-gate.ts:163-169 | when a merge also passes the risk gate |
| `MergeGates.ApprovedWeakeningFailsRiskGate` | tooling/loop/src/merge-gate.ts:168-224 | a change approved by its reviewer and a person that merges with a failing risk gate |
| `MergeGates.RoundSpendsOneAttempt` | tooling/loop/src/state.ts:109-136 | an attempt is spent exactly when a fix is dispatched |
| `MergeGates.RetriesAreBounded` | tooling/loop/bin/evaluate-pr.ts:136-176 | over any rounds: attempts equal dispatched fixes and stay within the limit, history is the last 25 entries of a log that never goes back |
| `MergeGates.SpentRetriesStaySpent` | tooling/loop/src/merge-gate.ts:231-239 | once spent, no later round dispatches |
| `Evaluations.FindWeakened` | tooling/loop/bin/evaluate-pr.ts:127-133 | everything the proposed policy or the diff weakens, and nothing else |
| `Evaluations.Evaluate` | tooling/loop/bin/evaluate-pr.ts:112-152 | risk, required reviews, weakened protections and gate composed, all read off the policy in force |
| `Evaluations.PersonIsAskedIff` | tooling/loop/bin/evaluate-pr.ts:120-152 | a person is asked for exactly on hold, for a fork, or for a weakening nobody approved |
| `Evaluations.WeakeningNeedsAPerson` | tooling/loop/bin/evaluate-pr.ts:127-152 | what weakens anything never merges without an approval |
| `Evaluations.RetryLimitsAskAPersonIff` | tooling/loop/src/merge-gate.ts:218-224 | a change of retry limits alone stops for a person exactly when one more than doubles and nobody approved |
| `Evaluations.SomeRetryProposalStopsIff` | tooling/loop/src/control-plane.ts:217-229 | some change of retry limits the schema accepts stops for a person exactly when a limit in force is at most 4 |
| `Evaluations.ProposalNeverHelps` | tooling/loop/bin/evaluate-pr.ts:108-133 | what merges with a proposed policy merges without it, exactly if the reviews suffice for the risk without it |
| `Selection.PriorityRank` | tooling/loop/src/eligibility.ts:71-79 | the first priority label an issue carries, or past the end |
| `Selection.NoReasonsIffEligible` | tooling/loop/src/eligibility.ts:94-143 | no reason is listed exactly for an eligible issue |
| `Selection.SelectionIsLeastAvailable` | tooling/loop/src/eligibility.ts:144-182 | the selected issue is the least eligible open one by rank and number |
| `Selection.SelectionIgnoresOrder` | tooling/loop/src/eligibility.ts:94-182 | the choice does not depend on the order of the backlog |
| `Selection.AcyclicDrains` | tooling/loop/src/eligibility.ts:161-182 | over known acyclic dependencies, n open issues drain in n rounds |
| `Selection.DependenciesCloseFirst` | tooling/loop/src/eligibility.ts:110-135 | every drained issue comes after all its dependencies |
| `Selection.UndrainedIsCounted` | tooling/loop/src/eligibility.ts:161-182 | a run that leaves an open issue out is shorter than the number of open issues |
| `Selection.DrainsIffAcyclic` | tooling/loop/src/eligibility.ts:94-182 | a workable backlog drains exactly when its open dependencies have no cycle |
| `Budgets.Budget.RecordInvocation` | tooling/local-runner/src/budget.ts:36-38 | appends one time stamp to the full log |
| `Budgets.Budget.RecordIssue` | tooling/local-runner/src/budget.ts:41-43 | appends one time stamp to the full log |
| `Budgets.Budget.Prune` | tooling/local-runner/src/budget.ts:51-59 | what stays is in its window, and the full logs are unchanged |
| `Budgets.Budget.Check` | tooling/local-runner/src/budget.ts:68-105 | the verdict over the pruned arrays is the verdict over everything that ever happened |
| `Budgets.DroppingKeepsCounts` | tooling/local-runner/src/budget.ts:45-59 | dropping never changes what a later window counts |
| `Budgets.CheckedBatchStaysSpaced` | tooling/local-runner/src/budget.ts:61-105 | a bounded batch after a check that found room keeps every limit + batch events a window apart |
| `Budgets.SpacedBoundsWindows` | tooling/local-runner/src/budget.ts:45-48 | spacing bounds every rolling window |
| `Journals.UpsertKeepsSound` | tooling/local-runner/src/journal.ts:82-86 | a save for the one issue at hand keeps issues unique, one run in flight, at the head, out of the cap's reach |
| `Journals.LaterSaveWins` | tooling/local-runner/src/journal.ts:82-86 | of two saves for one issue only the later shows, cap included |
| `Journals.SoundIsExclusive` | tooling/local-runner/src/orchestrator.ts:141-145 | a run in flight is the head and the only one |
| `Verification.VerifySteps` | tooling/local-runner/src/verify.ts:77-159 | the step loop with its continues and its break equals the recursive reading |
| `Verification.GreenIffAllSettled` | tooling/local-runner/src/verify.ts:77-159 | green exactly when every kept step passes or does not apply, each on record, in order |
| `Verification.StopsAtTheFirstFailure` | tooling/local-runner/src/verify.ts:143-155 | nothing runs after a failure, and that failure is the one reported |
| `Verification.NotApplicableIff` | tooling/local-runner/src/verify.ts:92-100 | under glob matching, a step has nothing to say exactly when no changed file fits one of its patterns |
| `Rounds.GatherIsFullIff` | tooling/local-runner/src/orchestrator.ts:882-911 | a full set of reviews is exactly the first usable answer of every pass within its retries |
| `Rounds.SettlesIffSafe` | tooling/local-runner/src/orchestrator.ts:616-763 | a round settles exactly when its change is verified in full, fully and favourably reviewed, at no less than the base risk |
| `Rounds.FavourableRoundIsSafe` | tooling/local-runner/src/orchestrator.ts:616-763 | answers that make a round safe to publish, whatever its change and labels |
| `Rounds.AsksAgainIff` | tooling/local-runner/src/orchestrator.ts:694-758 | another round is asked for exactly when one is left and a failed step or an objecting full set of reviews leaves something to fix |
| `Rounds.InterruptedIff` | tooling/local-runner/src/orchestrator.ts:616-735 | a round is cut short exactly when the agent, the diff, a step or a reviewer threw before anything else ended it |
| `Rounds.RoundIsOnRecord` | tooling/local-runner/src/orchestrator.ts:633-735 | the record keeps the last hundred attempts of everything that happened, in order, and the assessed risk |
| `Rounds.AnsweredRoundIsSpent` | tooling/local-runner/src/orchestrator.ts:633-642 | the round counter moves exactly when the agent answered |
| `Rounds.SpentAtMost` | tooling/local-runner/src/orchestrator.ts:616-735 | a round costs one coding call and at most every reviewer at every retry |
| `Working.PublishedIffSafe` | tooling/local-runner/src/orchestrator.ts:501-835 | an issue awaits review exactly when some round was safe to publish after others that only asked for another, and push and pull request worked |
| `Working.WorkEndsOneOfThreeWays` | tooling/local-runner/src/orchestrator.ts:501-835 | blocked, awaiting review or cut short, from the answers, and when telling the host is what throws |
| `Working.LastAnsweredIsOnRecord` | tooling/local-runner/src/orchestrator.ts:616-642 | the last round handed out is on record exactly when the agent answered it |
| `Working.ReusesThePullRequest` | tooling/local-runner/src/orchestrator.ts:778-807 | an open pull request is reused, whatever creating one would answer; otherwise the created one is recorded |
| `Working.WorkKeepsCounters` | tooling/local-runner/src/orchestrator.ts:501-835 | how work may change a record: never the CI or conflict counters, and in progress only when cut short |
| `Working.WorkSpentAtMost` | tooling/local-runner/src/orchestrator.ts:595-646 | one attempt invokes models at most (rounds left) x (1 + reviewers x retries) times |
| `Working.AscendsMeans` | tooling/local-runner/src/orchestrator.ts:633-642 | what the invariant kept by every step (`Driving.Accounted`) says of the rounds the agent answered: strictly increasing, all below the bound |
| `Driving.NextIsExclusive` | tooling/local-runner/src/orchestrator.ts:359-403 | work is only taken with nothing else in flight, and a resumption goes on after the last spent round |
| `Driving.RedsAreSpent` | tooling/local-runner/src/orchestrator.ts:1040-1065 | every red CI observation spends a round and the last one blocks the issue |
| `Driving.ActionTellsTheRecord` | tooling/local-runner/src/orchestrator.ts:970-1111 | finished, blocked, one CI round more or untouched: the reported action and the saved record agree |
| `Driving.RedIsResumedIffARoundIsLeft` | tooling/local-runner/src/orchestrator.ts:456-484 | a red run is resumed exactly when driving it would leave a round to spend |
| `Driving.ClaimsAreNotSkipped` | tooling/local-runner/src/orchestrator.ts:388-403 | an issue the session gave up on is not claimed |
| `Driving.StrandedIsResumable` | tooling/local-runner/src/orchestrator.ts:970-977 | driving leaves a run without pull request as it is, although it could be resumed |
| `Driving.StrandedIffCutShort` | tooling/local-runner/src/orchestrator.ts:537-790 | a claim without a pull request ends up stranded exactly when one of the calls that can cut work short threw |
| `Driving.ThrowingInstallStrands` | tooling/local-runner/src/orchestrator.ts:585-590 | answers that strand every such claim |
| `Driving.EndsUncutIff` | tooling/local-runner/src/orchestrator.ts:544-568 | work ends without an exception exactly when no call cut it short and the host could be told how it ended |
| `Resuming.RoundIsRepeatedIff` | tooling/local-runner/src/orchestrator.ts:372-378 | a resumption hands out again the last round handed out exactly when the call for it threw and it was not round 0 of a claim |
| `Resuming.UnansweredFirstRoundIsSpent` | tooling/local-runner/src/orchestrator.ts:377 | round 0 of a claim is not handed out again though its call threw; exactly when no round is left beside those on record, no answers get the issue another |
| `Resuming.OneIssueIsHandedOutForever` | tooling/local-runner/src/orchestrator.ts:363-385 | one issue claimed from an empty journal and invoked for at every resumption |
| `Resuming.RedBlocksIff` | tooling/local-runner/src/orchestrator.ts:1040-1065 | over any moves, a run's counter is the one it started with and every red since, and a red blocks exactly when they reach the limit |
| `Resuming.RequeuedRunSurvivesNoRed` | tooling/local-runner/src/orchestrator.ts:523-537 | an issue blocked for its last red and claimed again is blocked at the first red |
| `Resuming.ResumptionsAreUnbounded` | tooling/local-runner/src/orchestrator.ts:363-385 | an agent that keeps throwing is invoked once per resumption, however many there are |
| `Resuming.StepKeepsConflicts` | tooling/local-runner/src/orchestrator.ts:359-1116 | no step raises or resets the conflict counter of any record |
| `Resuming.ConflictIsTakenUpAlwaysOrNever` | tooling/local-runner/src/orchestrator.ts:434-454 | while a run is in flight a conflict can be taken up at every resumption or at none, by the counter at the claim |
| `Resuming.ConflictLimitIsExceeded` | tooling/local-runner/src/orchestrator.ts:434-454 | a conflict below the limit is taken up any number of times |
| `Resuming.OneConflictIsTakenUpForever` | tooling/local-runner/src/orchestrator.ts:434-454 | a new pull request and answers for which that happens |
| `Driving.PublishedHeadIsSafe` | tooling/local-runner/src/orchestrator.ts:765-808 | what a claim leaves awaiting review reached its push safely |
| `Runners.Runner.GatherReviews` | tooling/local-runner/src/orchestrator.ts:882-911 | the nested loops gather those reviews and record each invocation |
| `Runners.Runner.PlayRound` | tooling/local-runner/src/orchestrator.ts:616-763 | one round: its verdict, the record saved, the invocations recorded |
| `Runners.Runner.PlayRounds` | tooling/local-runner/src/orchestrator.ts:616-763 | the bounded loop, with rounds only going up |
| `Runners.Runner.WorkIssue` | tooling/local-runner/src/orchestrator.ts:501-835 | the journal differs by exactly one record, the one the answers call for |
| `Runners.Runner.RunOnce` | tooling/local-runner/src/orchestrator.ts:359-410 | resumes or claims as it should, and a resumption never hands out an answered round again |
| `Runners.Runner.Advance` | tooling/local-runner/src/orchestrator.ts:957-1130 | moves the one open pull request by one step and counts reds |
| `Runners.Runner.TakeIssue` | tooling/local-runner/src/orchestrator.ts:245-273 | ceiling, then budget, then work, then the recorded claim; rolling limits kept |
| `Runners.Runner.RunCycle` | tooling/local-runner/src/orchestrator.ts:197-304 | one cycle as a function of its answers and the budget's, failures tolerated included |
| `Runners.Runner.RunUnattended` | tooling/local-runner/src/orchestrator.ts:168-307 | over any session: rolling limits and ceiling hold for recorded claims, a claim is recorded exactly when no exception ended its work, nothing left to a person is retaken, nothing unsafe is published, a stranded run is never touched |
| `Sessions.FailuresAreConsecutive` | tooling/local-runner/src/orchestrator.ts:197-300 | a cycle that threw adds to the count, one that got through clears it, too many in a row end the session |
| `Sessions.SessionToleratesFailures` | tooling/local-runner/src/backoff.ts:21-42 | a session that goes on has at most the tolerated number of failures in a row |
| `Sessions.SkippedIffLeft` | tooling/local-runner/src/orchestrator.ts:228-238 | the skip list is exactly what the host was told to leave to a person |
| `Sessions.HistoryIsProper` | tooling/local-runner/src/orchestrator.ts:168-307 | over any session nothing left to a person is claimed again and nothing is published unsafely |
| `Sessions.RetakenIffNeverLeft` | tooling/local-runner/src/orchestrator.ts:284-288 | an issue given up on can be claimed in the next cycle exactly when the host was never told to leave it to a person |
| `Sessions.UntoldCycle` | tooling/local-runner/src/orchestrator.ts:544-568 | a cycle that blocks an issue in the journal without skipping it or recording its claim |
| `Sessions.TakenIsRecorded` | tooling/local-runner/src/orchestrator.ts:270-283 | what is taken and recorded are exactly the claims whose work no exception ended |
| `Sessions.UnrecordedClaims` | tooling/local-runner/src/orchestrator.ts:256-273 | as many claims as failures are tolerated in a row go by unrecorded |
| `Sessions.UntoldClaimsExceedTheDay` | tooling/local-runner/src/orchestrator.ts:256-273 | where more failures are tolerated than issues a day, which the defaults do not, more claims than that with an empty claim log |
| `Sessions.UnrecordedPublications` | tooling/local-runner/src/orchestrator.ts:808-825 | a session that publishes and cannot say so claims without end, and no claim is ever recorded |
| `Sessions.PublicationsExceedTheDay` | tooling/local-runner/src/orchestrator.ts:808-825 | for any daily limit and tolerance, answers under which more issues than that are published and no check over the claim log sees it |
| `Sessions.RedIsNeverFixed` | tooling/local-runner/src/orchestrator.ts:241-304 | over a session that only sees red, CI rounds are used up while coding rounds and attempts on record stay as they were |
| `Sessions.ConflictIsNeverResolved` | tooling/local-runner/src/orchestrator.ts:241-304 | over a session that only sees a conflict nothing changes |
| `FeedText.StripReplacesATag` | apps/worker/src/lib/feed-parser.ts:327-329 | a tag becomes one space, text before it stays, the rest is stripped on its own |
| `FeedText.CleanIsTidy` | apps/worker/src/lib/feed-parser.ts:331-334 | the cleaned text is tidy at both ends and holds exactly the visible characters outside tags |
| `FeedText.SanitizedIsTidy` | apps/worker/src/lib/feed-parser.ts:331-335 | no tag, single spaces, none in front, bounded length, and cleaning is a fixpoint |
| `FeedText.SanitizingAgain` | apps/worker/src/lib/feed-parser.ts:331-335 | sanitising again changes nothing exactly when truncation left no space at the end |

## Left out

- All effects: the `gh` CLI, git, processes, files, Redis, Postgres, HTTP and queues; they are answers given as parameters.
- Texts: messages, reasons' wording, Markdown, comments, labels the runner writes, branch and worktree names, time stamps in records.
- Reading and writing JSON, schema validation, SHA-256, `canonicalizeUrl`, entity decoding and the parsing of dependency blocks and of the sticky state comment.
- Regular-expression detectors (destructive SQL, removed exports, major upgrades, policy signals, unsafe workflow constructs, transient errors): uninterpreted predicates.
- Risk monotonicity is over whole added files; more lines in one file can lower the risk, because a re-added export clears an escalation.
- Cyclic `inherits`: the source's recursion would not end, so the step functions ask for a chain that does.
- Articles.ArticleStore.Insert: identifiers are a counter, and other writers add rows but never change or delete them, so the rethrow of service.ts:238 cannot occur.
- Content-hash uniqueness under other writers: nothing enforces it.
- The waiting times of `Backoff`; only its consecutive-failure limit is modelled.
- The lock file, `Budget.snapshot`, the run summary, dry runs and the workflow-side scripts around the gate.
- An unreadable journal, which the source replaces by an empty one, and a second runner on the same journal.
- Runners.Runner.PlayRound: an agent's answer and the journal save after it are one step, so a crash between the two is counted as no answer.
- `detectRecurrence`, issue orchestration, the API and the web application.
