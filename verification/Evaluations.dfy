/**
 How the pull-request workflow composes its parts: the risk under both policies, the reviews that risk
 asks for, the weakened protections, and the gate that decides on them.
 */
module Evaluations {
  import opened Options
  import opened Policies
  import opened ControlPlanes
  import opened MergeGates
  import Diffs
  import Reviews
  import Risks

  datatype PullRequest = PullRequest(
    base: LoopPolicy, proposed: Option<LoopPolicy>, files: seq<Diffs.DiffFile>, labels: seq<string>, d: Risks.Detectors,
    unsafe: (nat, string) -> bool, reviews: seq<Reviews.ReviewResult>, deterministic: seq<Reviews.Finding>,
    checks: seq<CheckState>, requiredChecks: seq<string>, humanApprovals: nat, isFork: bool, isDraft: bool)

  const HUMAN_HOLD_LABEL := "needs:human"

  /** A person put the pull request on hold. */
  predicate Held(pr: PullRequest) {
    HUMAN_HOLD_LABEL in pr.labels
  }

  /** Without a proposed policy the policy in force is compared with itself, and only the diff can weaken it. */
  function ProposalOf(pr: PullRequest): Proposal {
    Proposal(pr.base, if pr.proposed.Some? then pr.proposed.value else pr.base, pr.files, pr.d, pr.unsafe)
  }

  ghost predicate IsWeakening(w: Weakening, pr: PullRequest) {
    Weakens(w, ProposalOf(pr)) && (pr.proposed.None? ==> w.UnsafeWorkflow?)
  }

  ghost predicate Weakened(pr: PullRequest) {
    exists w :: IsWeakening(w, pr)
  }

  method FindWeakened(pr: PullRequest) returns (found: seq<Weakening>)
    ensures forall w :: w in found <==> IsWeakening(w, pr)
    ensures |found| > 0 <==> Weakened(pr)
  {
    var workflows := FindUnsafeWorkflowChanges(ProposalOf(pr));
    if pr.proposed.None? {
      found := workflows;
    } else {
      var policy := FindWeakenedProtections(ProposalOf(pr));
      found := policy + workflows;
    }
    if |found| > 0 { assert found[0] in found; }
  }

  function RiskLevelOf(pr: PullRequest): RiskLevel {
    Risks.ClassifyMonotonic(pr.files, pr.labels, pr.base, pr.proposed, pr.d).risk
  }

  /** What the gate is asked: everything is read off the policy in force, none of it off the proposed one. */
  function GateInputOf(pr: PullRequest, attempts: nat, weakened: nat): GateInput {
    GateInput(
      Reviews.WithDeterministic(pr.reviews, pr.deterministic, pr.base.blockingSeverity),
      ReviewersForRisk(pr.base, RiskLevelOf(pr)), pr.checks, pr.requiredChecks, attempts, pr.base.retry.maxReviewAttempts,
      pr.humanApprovals, pr.isFork, pr.isDraft, pr.base.blockingSeverity, weakened, Held(pr), None)
  }

  method Evaluate(pr: PullRequest, attempts: nat, lower: string -> string) returns (outcome: GateOutcome, ghost weakened: nat)
    ensures weakened > 0 <==> Weakened(pr)
    ensures outcome == DecideMerge(GateInputOf(pr, attempts, weakened), lower)
  {
    var found := FindWeakened(pr);
    weakened := |found|;
    outcome := DecideMerge(GateInputOf(pr, attempts, |found|), lower);
  }

  /** A person is asked for exactly a held pull request, a fork, or a weakening nobody approved. */
  lemma {:induction false} PersonIsAskedIff(pr: PullRequest, attempts: nat, weakened: nat, lower: string -> string)
    requires weakened > 0 <==> Weakened(pr)
    ensures DecideMerge(GateInputOf(pr, attempts, weakened), lower).decision == HumanApprovalRequired <==>
              !pr.isDraft && (Held(pr) || pr.isFork || (Weakened(pr) && pr.humanApprovals == 0))
  {
  }

  /** A change that weakens anything never merges without a person's approval. */
  lemma {:induction false} WeakeningNeedsAPerson(pr: PullRequest, attempts: nat, weakened: nat, lower: string -> string)
    requires (weakened > 0 <==> Weakened(pr)) && Weakened(pr)
    requires DecideMerge(GateInputOf(pr, attempts, weakened), lower).decision == AutoMerge
    ensures pr.humanApprovals > 0
  {
    MergesIffMayMerge(GateInputOf(pr, attempts, weakened), lower);
  }

  /** A proposal that only changes retry limits stops for a person exactly when one more than doubles and nobody approved it. */
  lemma {:induction false} RetryLimitsAskAPersonIff(pr: PullRequest, attempts: nat, weakened: nat, lower: string -> string)
    requires pr.proposed.Some? && pr.proposed.value == pr.base.(retry := pr.proposed.value.retry)
    requires !AddsUnsafeConstruct(ProposalOf(pr)) && (weakened > 0 <==> Weakened(pr))
    requires !pr.isDraft && !Held(pr) && !pr.isFork
    ensures DecideMerge(GateInputOf(pr, attempts, weakened), lower).decision == HumanApprovalRequired <==>
              pr.humanApprovals == 0 && DoublesALimit(ProposalOf(pr))
  {
    RetryLimitsWeakenIff(ProposalOf(pr));
    PersonIsAskedIff(pr, attempts, weakened, lower);
    if w :| Weakens(w, ProposalOf(pr)) { assert IsWeakening(w, pr); }
  }

  /** The least value that more than doubles a limit. */
  function Doubled(r: Retry, limit: Limit): Retry {
    match limit
    case CodingFixRounds => r.(codingFixRounds := r.codingFixRounds * 2 + 1)
    case ReviewFixRounds => r.(reviewFixRounds := r.reviewFixRounds * 2 + 1)
    case CiFixRounds => r.(ciFixRounds := r.ciFixRounds * 2 + 1)
  }

  /** An acceptable proposal that changes retry limits only, and that a person is asked for. */
  ghost predicate RetryProposalStops(pr: PullRequest, attempts: nat, retry: Retry, lower: string -> string) {
    var proposing := pr.(proposed := Some(pr.base.(retry := retry)));
    && AcceptedRetry(retry)
    && DecideMerge(GateInputOf(proposing, attempts, if Weakened(proposing) then 1 else 0), lower).decision == HumanApprovalRequired
  }

  lemma {:induction false} DoublingStops(pr: PullRequest, attempts: nat, limit: Limit, lower: string -> string)
    requires AcceptedRetry(pr.base.retry) && LimitOf(pr.base, limit) * 2 < MAX_ROUNDS && !pr.isDraft && pr.humanApprovals == 0
    ensures RetryProposalStops(pr, attempts, Doubled(pr.base.retry, limit), lower)
  {
    var proposing := pr.(proposed := Some(pr.base.(retry := Doubled(pr.base.retry, limit))));
    assert IsWeakening(LimitDoubled(limit), proposing);
    PersonIsAskedIff(proposing, attempts, 1, lower);
  }

  lemma {:induction false} StoppingDoubles(pr: PullRequest, attempts: nat, retry: Retry, lower: string -> string) returns (limit: Limit)
    requires !pr.isDraft && !Held(pr) && !pr.isFork && !AddsUnsafeConstruct(ProposalOf(pr)) && RetryProposalStops(pr, attempts, retry, lower)
    ensures LimitOf(pr.base, limit) * 2 < MAX_ROUNDS
  {
    var proposing := pr.(proposed := Some(pr.base.(retry := retry)));
    forall path, k ensures !Weakens(UnsafeWorkflow(path, k), ProposalOf(proposing)) {
      assert !Weakens(UnsafeWorkflow(path, k), ProposalOf(pr));
    }
    RetryLimitsAskAPersonIff(proposing, attempts, if Weakened(proposing) then 1 else 0, lower);
    limit :| LimitOf(ProposalOf(proposing).head, limit) > LimitOf(pr.base, limit) * 2;
  }

  /**
   Some change of retry limits that the schema accepts stops for a person exactly when a limit in force is low
   enough to be more than doubled within the schema's maximum.
   */
  lemma {:induction false} SomeRetryProposalStopsIff(pr: PullRequest, attempts: nat, lower: string -> string)
    requires AcceptedRetry(pr.base.retry) && !pr.isDraft && !Held(pr) && !pr.isFork && pr.humanApprovals == 0
    requires !AddsUnsafeConstruct(ProposalOf(pr))
    ensures (exists retry :: RetryProposalStops(pr, attempts, retry, lower)) <==> exists limit :: LimitOf(pr.base, limit) * 2 < MAX_ROUNDS
  {
    if limit :| LimitOf(pr.base, limit) * 2 < MAX_ROUNDS { DoublingStops(pr, attempts, limit, lower); }
    if retry :| RetryProposalStops(pr, attempts, retry, lower) { var _ := StoppingDoubles(pr, attempts, retry, lower); }
  }

  /**
   Proposing a policy never helps: what merges with it merges without it, but for reviews the lower risk
   without it may ask for.
   */
  lemma {:induction false} ProposalNeverHelps(pr: PullRequest, attempts: nat, weakened: nat, alone: PullRequest, weakenedAlone: nat, lower: string -> string)
    requires alone == pr.(proposed := None)
    requires (weakened > 0 <==> Weakened(pr)) && (weakenedAlone > 0 <==> Weakened(alone))
    requires DecideMerge(GateInputOf(pr, attempts, weakened), lower).decision == AutoMerge
    ensures AtLeastRisk(RiskLevelOf(pr), RiskLevelOf(alone))
    ensures DecideMerge(GateInputOf(alone, attempts, weakenedAlone), lower).decision == AutoMerge <==>
              |pr.reviews| >= ReviewersForRisk(pr.base, RiskLevelOf(alone))
  {
    Risks.ProposedPolicyCannotLowerRisk(pr.files, pr.labels, pr.base, pr.proposed, pr.d);
    if w :| IsWeakening(w, alone) { assert IsWeakening(w, pr); }
    MergesIffMayMerge(GateInputOf(pr, attempts, weakened), lower);
    MergesIffMayMerge(GateInputOf(alone, attempts, weakenedAlone), lower);
  }
}
