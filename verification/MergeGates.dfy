/**
 The merge gate: what may happen to a pull request, and the retry loop that iterates the gate
 against the state it recorded.
 */
module MergeGates {
  import opened Options
  import opened Policies
  import opened Reviews

  datatype GateDecision = AutoMerge | HumanApprovalRequired | ChangesRequested | Stopped | Waiting

  datatype CheckConclusion = Success | Failure | Pending | Skipped | Neutral | Cancelled | TimedOut | Missing

  datatype CheckState = CheckState(name: string, conclusion: CheckConclusion)

  datatype TierVerification = TierVerification(ok: bool, unavailable: seq<string>, failed: seq<string>)

  datatype GateInput = GateInput(
    reviews: seq<ReviewResult>, requiredReviewers: nat, checks: seq<CheckState>, requiredChecks: seq<string>,
    reviewAttempts: nat, maxReviewAttempts: nat, humanApprovals: nat, isFork: bool, isDraft: bool,
    blockingSeverity: Severity, weakened: nat, humanHold: bool, tier: Option<TierVerification>)

  datatype GateOutcome = GateOutcome(
    decision: GateDecision, riskGatePasses: bool, reviewGatePasses: bool, shouldDispatchFix: bool, review: ReviewResult)

  const SELF_PUBLISHED_CHECKS := ["loop/risk-gate", "loop/review-gate"]

  function WithoutSelfPublishedChecks(names: seq<string>): seq<string> {
    if names == [] then []
    else (if names[0] in SELF_PUBLISHED_CHECKS then [] else [names[0]]) + WithoutSelfPublishedChecks(names[1..])
  }

  /** The first reported state of a check; a check nobody reported is missing. */
  function Observed(checks: seq<CheckState>, name: string): CheckState {
    if checks == [] then CheckState(name, Missing)
    else if checks[0].name == name then checks[0]
    else Observed(checks[1..], name)
  }

  function RequiredCheckStates(input: GateInput): seq<CheckState> {
    var names := WithoutSelfPublishedChecks(input.requiredChecks);
    seq(|names|, i requires 0 <= i < |names| => Observed(input.checks, names[i]))
  }

  predicate AnyOf(states: seq<CheckState>, conclusions: set<CheckConclusion>) {
    exists i | 0 <= i < |states| :: states[i].conclusion in conclusions
  }

  const FAILING := {Failure, TimedOut, Cancelled}
  const PENDING := {Pending, Missing}

  function DecideMerge(input: GateInput, lower: string -> string): GateOutcome {
    var required := RequiredCheckStates(input);
    var failing, pending := AnyOf(required, FAILING), AnyOf(required, PENDING);
    var review := AggregateReviews(input.reviews, input.requiredReviewers, input.blockingSeverity, lower);
    var reviewGate := review.status == Approve;
    var unavailable := input.tier.Some? && input.tier.value.unavailable != [];
    var tierFailed := input.tier.Some? && input.tier.value.failed != [];
    var tierOk := input.tier.None? || input.tier.value.ok;
    var riskGate := !(input.isFork || input.weakened > 0 || !tierOk);
    var retriesExhausted := input.reviewAttempts >= input.maxReviewAttempts;
    var needsWork := !reviewGate || failing || tierFailed;
    var decision :=
      if input.isDraft then Waiting
      else if input.humanHold then HumanApprovalRequired
      else if input.isFork then HumanApprovalRequired
      else if input.weakened > 0 && input.humanApprovals == 0 then HumanApprovalRequired
      else if review.status == Blocked then Stopped
      else if needsWork && retriesExhausted then Stopped
      else if unavailable then Stopped
      else if failing || tierFailed || !reviewGate then ChangesRequested
      else if pending then Waiting
      else AutoMerge;
    GateOutcome(decision, riskGate, reviewGate, decision == ChangesRequested, review)
  }

  // ---------------------------------------------------------------- What each answer means

  /** Nothing a person or the change itself raised takes the pull request out of the loop's hands. */
  predicate InTheLoop(input: GateInput) {
    !input.isDraft && !input.humanHold && !input.isFork && (input.weakened == 0 || input.humanApprovals > 0)
  }

  /** A check the ruleset requires, other than the two the gate publishes itself. */
  predicate Requires(input: GateInput, name: string) {
    name in input.requiredChecks && name != "loop/risk-gate" && name != "loop/review-gate"
  }

  /** `state` is what the host first reported for `name`, or nothing was reported and it is missing. */
  ghost predicate Reported(checks: seq<CheckState>, name: string, conclusion: CheckConclusion) {
    || (conclusion == Missing && forall i | 0 <= i < |checks| :: checks[i].name != name)
    || (exists i :: 0 <= i < |checks| && checks[i] == CheckState(name, conclusion) && forall j | 0 <= j < i :: checks[j].name != name)
  }

  ghost predicate EveryReviewApproves(input: GateInput) {
    && |input.reviews| >= input.requiredReviewers
    && (forall v | v in input.reviews :: v.status == Approve)
    && !RaisesBlocking(input.reviews, input.blockingSeverity)
  }

  /** The fail-closed condition, stated on the raw inputs and on findings before de-duplication. */
  ghost predicate MayMerge(input: GateInput) {
    && InTheLoop(input)
    && EveryReviewApproves(input)
    && (forall name | Requires(input, name) :: exists c :: Reported(input.checks, name, c) && c !in FAILING && c !in PENDING)
    && (input.tier.Some? ==> input.tier.value.unavailable == [] && input.tier.value.failed == [])
  }

  lemma {:induction false} ObservedIsReported(checks: seq<CheckState>, name: string, c: CheckConclusion)
    ensures Reported(checks, name, c) <==> Observed(checks, name).conclusion == c
    ensures Observed(checks, name).name == name
  {
    if checks != [] {
      var rest := checks[1..];
      ObservedIsReported(rest, name, c);
      if checks[0].name == name {
        assert checks[0] == CheckState(name, checks[0].conclusion);
      } else {
        if i :| 0 <= i < |rest| && rest[i] == CheckState(name, c) && forall j | 0 <= j < i :: rest[j].name != name {
          assert checks[i + 1] == rest[i];
          forall j | 0 <= j < i + 1 ensures checks[j].name != name { if j > 0 { assert checks[j] == rest[j - 1]; } }
        }
        if i :| 0 <= i < |checks| && checks[i] == CheckState(name, c) && forall j | 0 <= j < i :: checks[j].name != name {
          assert rest[i - 1] == checks[i];
          forall j | 0 <= j < i - 1 ensures rest[j].name != name { assert rest[j] == checks[j + 1]; }
        }
      }
    }
  }

  lemma {:induction false} RequiredNames(names: seq<string>, name: string)
    ensures name in WithoutSelfPublishedChecks(names) <==> name in names && name != "loop/risk-gate" && name != "loop/review-gate"
  {
    if names != [] {
      assert names == [names[0]] + names[1..];
      RequiredNames(names[1..], name);
    }
  }

  lemma {:induction false} AnyRequired(input: GateInput, conclusions: set<CheckConclusion>)
    ensures AnyOf(RequiredCheckStates(input), conclusions) <==>
              exists name :: Requires(input, name) && Observed(input.checks, name).conclusion in conclusions
  {
    var names := WithoutSelfPublishedChecks(input.requiredChecks);
    var states := RequiredCheckStates(input);
    if i :| 0 <= i < |states| && states[i].conclusion in conclusions {
      RequiredNames(input.requiredChecks, names[i]);
      assert Requires(input, names[i]);
    }
    if name :| Requires(input, name) && Observed(input.checks, name).conclusion in conclusions {
      RequiredNames(input.requiredChecks, name);
      var i :| 0 <= i < |names| && names[i] == name;
      assert states[i].conclusion in conclusions;
    }
  }

  lemma {:induction false} ChecksPass(input: GateInput)
    ensures !AnyOf(RequiredCheckStates(input), FAILING) && !AnyOf(RequiredCheckStates(input), PENDING) <==>
              forall name | Requires(input, name) :: exists c :: Reported(input.checks, name, c) && c !in FAILING && c !in PENDING
  {
    AnyRequired(input, FAILING);
    AnyRequired(input, PENDING);
    forall name, c ensures Reported(input.checks, name, c) <==> Observed(input.checks, name).conclusion == c {
      ObservedIsReported(input.checks, name, c);
    }
    forall name ensures (exists c :: Reported(input.checks, name, c) && c !in FAILING && c !in PENDING)
                        <==> Observed(input.checks, name).conclusion !in FAILING && Observed(input.checks, name).conclusion !in PENDING {
      assert Reported(input.checks, name, Observed(input.checks, name).conclusion);
    }
  }

  /** The gate merges exactly under the fail-closed condition. */
  lemma {:induction false} MergesIffMayMerge(input: GateInput, lower: string -> string)
    ensures DecideMerge(input, lower).decision == AutoMerge <==> MayMerge(input)
  {
    AggregateIsPessimistic(input.reviews, input.requiredReviewers, input.blockingSeverity, lower);
    ChecksPass(input);
  }

  /**
   A merge does not imply a passing risk gate: it passes exactly when nothing was weakened, approved by a
   person or not, and tier verification, if given, calls itself ok.
   */
  lemma {:induction false} MergePassesRiskGateIff(input: GateInput, lower: string -> string)
    requires DecideMerge(input, lower).decision == AutoMerge
    ensures DecideMerge(input, lower).riskGatePasses <==> input.weakened == 0 && (input.tier.Some? ==> input.tier.value.ok)
  {
    MergesIffMayMerge(input, lower);
  }

  /** A change with one weakened protection, approved by its reviewer and by one person, merges with a failing risk gate. */
  lemma {:induction false} ApprovedWeakeningFailsRiskGate(lower: string -> string)
    ensures var input := GateInput([ReviewResult(Approve, [])], 1, [], [], 0, 1, 1, false, false, Major, 1, false, None);
            DecideMerge(input, lower).decision == AutoMerge && !DecideMerge(input, lower).riskGatePasses
  {
    MergesIffMayMerge(GateInput([ReviewResult(Approve, [])], 1, [], [], 0, 1, 1, false, false, Major, 1, false, None), lower);
  }

  /** Work an agent could do: an objection that is not a blocked review, a failing check, or a failed tier step. */
  ghost predicate HasFixableObjection(input: GateInput) {
    || !EveryReviewApproves(input)
    || (exists name, c :: Requires(input, name) && Reported(input.checks, name, c) && c in FAILING)
    || (input.tier.Some? && input.tier.value.failed != [])
  }

  /** A fix round is dispatched exactly when there is such work, enough usable reviews, the tools to verify it, and a retry left. */
  lemma {:induction false} DispatchesIff(input: GateInput, lower: string -> string)
    ensures DecideMerge(input, lower).shouldDispatchFix <==> DecideMerge(input, lower).decision == ChangesRequested
    ensures DecideMerge(input, lower).decision == ChangesRequested <==>
              && InTheLoop(input)
              && |input.reviews| >= input.requiredReviewers && (forall v | v in input.reviews :: v.status != Blocked)
              && (input.tier.Some? ==> input.tier.value.unavailable == [])
              && input.reviewAttempts < input.maxReviewAttempts
              && HasFixableObjection(input)
  {
    AggregateIsPessimistic(input.reviews, input.requiredReviewers, input.blockingSeverity, lower);
    AnyRequired(input, FAILING);
    forall name, c ensures Reported(input.checks, name, c) <==> Observed(input.checks, name).conclusion == c {
      ObservedIsReported(input.checks, name, c);
    }
  }

  /** Permuting the reviews changes no part of the answer but the order of the reported findings. */
  lemma {:induction false} DecisionIgnoresReviewOrder(input: GateInput, shuffled: seq<ReviewResult>, lower: string -> string)
    requires multiset(input.reviews) == multiset(shuffled)
    ensures var a, b := DecideMerge(input, lower), DecideMerge(input.(reviews := shuffled), lower);
            && a.decision == b.decision && a.riskGatePasses == b.riskGatePasses
            && a.reviewGatePasses == b.reviewGatePasses && a.shouldDispatchFix == b.shouldDispatchFix
  {
    AggregateIgnoresOrder(input.reviews, shuffled, input.requiredReviewers, input.blockingSeverity, lower);
    assert RequiredCheckStates(input.(reviews := shuffled)) == RequiredCheckStates(input);
  }

  /** Deterministic findings never turn another answer into a merge, nor a failing review gate into a passing one. */
  lemma {:induction false} DeterministicFindingsNeverMerge(input: GateInput, deterministic: seq<Finding>, lower: string -> string)
    ensures var merged := input.(reviews := WithDeterministic(input.reviews, deterministic, input.blockingSeverity));
            && (DecideMerge(merged, lower).decision == AutoMerge ==> DecideMerge(input, lower).decision == AutoMerge)
            && (DecideMerge(merged, lower).reviewGatePasses ==> DecideMerge(input, lower).reviewGatePasses)
  {
    var merged := input.(reviews := WithDeterministic(input.reviews, deterministic, input.blockingSeverity));
    DeterministicFindingsOnlyTighten(input.reviews, deterministic, input.requiredReviewers, input.blockingSeverity, lower);
    assert RequiredCheckStates(merged) == RequiredCheckStates(input);
  }

  // ---------------------------------------------------------------- The retry loop

  datatype FindingRecord = FindingRecord(severity: Severity, file: Option<string>, description: string, category: string)

  datatype HistoryEntry = HistoryEntry(
    at: string, headSha: string, attempt: nat, reviewStatus: ReviewStatus, decision: GateDecision, findings: seq<FindingRecord>)

  datatype LoopState = LoopState(
    issue: Option<nat>, reviewAttempts: nat, lastReviewStatus: Option<ReviewStatus>, lastDecision: Option<GateDecision>,
    history: seq<HistoryEntry>)

  const HISTORY_LIMIT := 25
  const MAX_RETAINED_FINDINGS := 10

  function InitialState(issue: Option<nat>): LoopState {
    LoopState(issue, 0, None, None, [])
  }

  /** JavaScript's `slice(-n)`. */
  function Last<T>(s: seq<T>, n: nat): seq<T> {
    if |s| <= n then s else s[|s| - n..]
  }

  function First<T>(s: seq<T>, n: nat): seq<T> {
    if |s| <= n then s else s[..n]
  }

  function RecordRound(state: LoopState, headSha: string, reviewStatus: ReviewStatus, decision: GateDecision, at: string,
                       findings: seq<FindingRecord>): LoopState
  {
    LoopState(
      state.issue,
      if decision == ChangesRequested then state.reviewAttempts + 1 else state.reviewAttempts,
      Some(reviewStatus), Some(decision),
      Last(state.history + [HistoryEntry(at, headSha, state.reviewAttempts, reviewStatus, decision, First(findings, MAX_RETAINED_FINDINGS))],
           HISTORY_LIMIT))
  }

  /** What one evaluation of the pull request observes; everything may differ from round to round. */
  datatype Observation = Observation(
    gate: GateInput, deterministic: seq<Finding>, issue: Option<nat>, headSha: string, at: string)

  function ToRecord(f: Finding): FindingRecord {
    FindingRecord(f.severity, f.file, First(f.description, 320), f.category)
  }

  function ToRecords(findings: seq<Finding>): seq<FindingRecord> {
    if findings == [] then [] else [ToRecord(findings[0])] + ToRecords(findings[1..])
  }

  /** One round: the gate reads the recorded attempts, and its decision is recorded. */
  function Evaluate(state: LoopState, o: Observation, limit: nat, lower: string -> string): (GateOutcome, LoopState) {
    var input := o.gate.(
      reviews := WithDeterministic(o.gate.reviews, o.deterministic, o.gate.blockingSeverity),
      reviewAttempts := state.reviewAttempts, maxReviewAttempts := limit);
    var outcome := DecideMerge(input, lower);
    var retained :=
      if outcome.decision == ChangesRequested then ToRecords(BlockingFindings(outcome.review.findings, input.blockingSeverity)) else [];
    (outcome, RecordRound(state.(issue := o.issue), o.headSha, outcome.review.status, outcome.decision, o.at, retained))
  }

  datatype Trace = Trace(state: LoopState, dispatched: nat, log: seq<HistoryEntry>)

  /** A whole life of a pull request: every round evaluated in turn, with the log nobody truncates kept beside the state. */
  function Run(issue: Option<nat>, rounds: seq<Observation>, limit: nat, lower: string -> string): Trace {
    if rounds == [] then Trace(InitialState(issue), 0, [])
    else
      var before := Run(issue, rounds[..|rounds| - 1], limit, lower);
      var (outcome, state) := Evaluate(before.state, rounds[|rounds| - 1], limit, lower);
      Trace(state, before.dispatched + (if outcome.shouldDispatchFix then 1 else 0), before.log + [state.history[|state.history| - 1]])
  }

  ghost predicate Ascending(log: seq<HistoryEntry>) {
    forall i, j | 0 <= i < j < |log| :: log[i].attempt <= log[j].attempt
  }

  lemma {:induction false} LastSnoc<T>(s: seq<T>, x: T, n: nat)
    requires n > 0
    ensures Last(Last(s, n) + [x], n) == Last(s + [x], n)
  {
  }

  /** One round: an attempt is spent exactly when a fix is dispatched, and only while one is left. */
  lemma {:induction false} RoundSpendsOneAttempt(state: LoopState, o: Observation, limit: nat, lower: string -> string, outcome: GateOutcome, next: LoopState)
    requires (outcome, next) == Evaluate(state, o, limit, lower)
    ensures next.history != [] && next.history[|next.history| - 1].attempt == state.reviewAttempts
    ensures next.history == Last(state.history + [next.history[|next.history| - 1]], HISTORY_LIMIT)
    ensures outcome.shouldDispatchFix ==> state.reviewAttempts < limit && next.reviewAttempts == state.reviewAttempts + 1
    ensures !outcome.shouldDispatchFix ==> next.reviewAttempts == state.reviewAttempts
  {
  }

  lemma {:induction false} AscendingSnoc(log: seq<HistoryEntry>, entry: HistoryEntry, bound: nat)
    requires Ascending(log) && entry.attempt == bound && forall i | 0 <= i < |log| :: log[i].attempt <= bound
    ensures Ascending(log + [entry]) && forall i | 0 <= i < |log + [entry]| :: (log + [entry])[i].attempt <= bound
  {
  }

  /**
   Whatever the rounds observe, fixes are dispatched at most `limit` times, the attempt counter
   counts exactly them, and the kept history is the last 25 entries of a log whose attempts never
   go back.
   */
  lemma {:induction false} RetriesAreBounded(issue: Option<nat>, rounds: seq<Observation>, limit: nat, lower: string -> string)
    ensures var t := Run(issue, rounds, limit, lower);
            && t.state.reviewAttempts == t.dispatched <= limit
            && t.state.history == Last(t.log, HISTORY_LIMIT) && |t.log| == |rounds|
            && Ascending(t.log) && forall i | 0 <= i < |t.log| :: t.log[i].attempt <= t.dispatched
  {
    if rounds != [] {
      var before := Run(issue, rounds[..|rounds| - 1], limit, lower);
      var o := rounds[|rounds| - 1];
      RetriesAreBounded(issue, rounds[..|rounds| - 1], limit, lower);
      var (outcome, state) := Evaluate(before.state, o, limit, lower);
      RoundSpendsOneAttempt(before.state, o, limit, lower, outcome, state);
      var entry := state.history[|state.history| - 1];
      LastSnoc(before.log, entry, HISTORY_LIMIT);
      AscendingSnoc(before.log, entry, before.dispatched);
    }
  }

  /** Once the retries are spent no later round dispatches a fix, however many rounds follow. */
  lemma {:induction false} SpentRetriesStaySpent(issue: Option<nat>, rounds: seq<Observation>, n: nat, limit: nat, lower: string -> string)
    requires n <= |rounds| && Run(issue, rounds[..n], limit, lower).dispatched == limit
    ensures Run(issue, rounds, limit, lower).dispatched == limit
  {
    RetriesAreBounded(issue, rounds, limit, lower);
    if n < |rounds| {
      var before := rounds[..|rounds| - 1];
      assert before[..n] == rounds[..n];
      SpentRetriesStaySpent(issue, before, n, limit, lower);
    } else {
      assert rounds[..n] == rounds;
    }
  }
}