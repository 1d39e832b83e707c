/**
 One round of the local runner: a coding agent's change is committed, classified, verified to the
 depth its risk demands and reviewed independently.  Everything outside the runner (the agents, git,
 the machine that runs the steps) is a record of what it answered; an answer may also be an exception.
 */
module Rounds {
  import opened Options
  import opened Policies
  import opened Journals
  import opened Text
  import Diffs
  import Risks
  import Reviews
  import Verification

  datatype Answer<T> = Threw | Gave(value: T)

  datatype CommitOutcome = Committed | NothingToShow | CommitFailed

  datatype ReviewAttempt = Usable(review: Reviews.ReviewResult) | Unusable | ReviewThrew

  /** What one round hears; `review(pass)(attempt)` is whichever reviewer stands for that pass. */
  datatype Round = Round(
    coded: Answer<bool>, commit: CommitOutcome, diff: Answer<string>, changed: seq<string>, proposed: Option<LoopPolicy>,
    machine: Answer<Verification.Machine>, review: nat -> nat -> ReviewAttempt)

  datatype Setup = Setup(
    policy: LoopPolicy, detectors: Risks.Detectors, lower: string -> string, reviewers: nat,
    codingRounds: nat, reviewerRetries: nat, ciRounds: nat, conflictRounds: nat, maxIssues: nat, maxFailures: nat) {

    /** The configured minimums, and a policy whose tiers can be collected. */
    predicate Usable() {
      codingRounds > 0 && ciRounds > 0 && forall level :: Ends(policy.tiers, level, 2)
    }
  }

  datatype RoundEnd = Interrupted | Blocks | Again | Settles

  // ---------------------------------------------------------------- Independent reviews

  datatype Pass = Heard(review: Reviews.ReviewResult) | Missing | Broken

  /** One review pass: attempts until one is usable, at most `limit` of them. */
  function RunPass(review: nat -> ReviewAttempt, attempt: nat, limit: nat): Pass
    decreases limit - attempt
  {
    if attempt >= limit then Missing
    else match review(attempt)
      case Usable(v) => Heard(v)
      case ReviewThrew => Broken
      case Unusable => RunPass(review, attempt + 1, limit)
  }

  function PassAttempts(review: nat -> ReviewAttempt, attempt: nat, limit: nat): nat
    decreases limit - attempt
  {
    if attempt >= limit then 0 else 1 + (if review(attempt) == Unusable then PassAttempts(review, attempt + 1, limit) else 0)
  }

  function PassOf(s: Setup, r: Round, pass: nat): Pass {
    if s.reviewers == 0 then Missing else RunPass(r.review(pass), 0, s.reviewerRetries)
  }

  /** The usable reviews of the first `required` passes; a missing one is absent, not counted. */
  function Gather(s: Setup, r: Round, required: nat): Answer<seq<Reviews.ReviewResult>> {
    if required == 0 then Gave([])
    else
      var before := Gather(s, r, required - 1);
      if before.Threw? then Threw
      else match PassOf(s, r, required - 1)
        case Heard(v) => Gave(before.value + [v])
        case Missing => before
        case Broken => Threw
  }

  /** Reviewer invocations those passes cost. */
  function GatherAttempts(s: Setup, r: Round, required: nat): nat {
    if required == 0 then 0
    else
      GatherAttempts(s, r, required - 1)
      + (if s.reviewers == 0 || Gather(s, r, required - 1).Threw? then 0 else PassAttempts(r.review(required - 1), 0, s.reviewerRetries))
  }

  // ---------------------------------------------------------------- The judgement

  function AssessedRisk(s: Setup, labels: seq<string>, r: Round): RiskLevel
    requires r.diff.Gave?
  {
    Risks.ClassifyMonotonic(Diffs.ParseLines(Split(r.diff.value, '\n'), None), labels, s.policy, r.proposed, s.detectors).risk
  }

  function ChangeScope(r: Round): Verification.Scope {
    Verification.Scope(Some(r.changed), None)
  }

  function Verified(s: Setup, risk: RiskLevel, r: Round): Verification.VerificationOutcome
    requires s.Usable() && r.machine.Gave?
  {
    Verification.Outcome(Verification.RunSteps(r.machine.value, ChangeScope(r), StepsForRisk(s.policy.tiers, risk)))
  }

  function Combine(s: Setup, usable: seq<Reviews.ReviewResult>): Reviews.ReviewStatus {
    Reviews.AggregateReviews(usable, |usable|, s.policy.blockingSeverity, s.lower).status
  }

  /** An objection asks for another round, and gives up when this was the last one. */
  function Retry(last: bool): RoundEnd {
    if last then Blocks else Again
  }

  function JudgeReviews(s: Setup, required: nat, r: Round, last: bool): RoundEnd {
    match Gather(s, r, required)
    case Threw => Interrupted
    case Gave(usable) =>
      if |usable| < required then Blocks
      else match Combine(s, usable)
        case Blocked => Blocks
        case RequestChanges => Retry(last)
        case Approve => Settles
  }

  /** A classified change is verified, and a green one reviewed. */
  function JudgeChange(s: Setup, risk: RiskLevel, r: Round, last: bool): RoundEnd
    requires s.Usable() && r.machine.Gave?
  {
    var v := Verified(s, risk, r);
    if v.unavailable != [] then Blocks
    else if !v.ok then Retry(last)
    else JudgeReviews(s, ReviewersForRisk(s.policy, risk), r, last)
  }

  /** The change reached verification. */
  predicate Classified(r: Round) {
    r.coded == Gave(true) && r.commit == Committed && r.diff.Gave?
  }

  function Judge(s: Setup, labels: seq<string>, r: Round, last: bool): RoundEnd
    requires s.Usable()
  {
    if r.coded.Threw? then Interrupted
    else if !r.coded.value || r.commit != Committed then Blocks
    else if r.diff.Threw? || r.machine.Threw? then Interrupted
    else JudgeChange(s, AssessedRisk(s, labels, r), r, last)
  }

  // ---------------------------------------------------------------- What the round leaves on record

  function Note(ok: bool): AttemptOutcome {
    if ok then Ok else Failed
  }

  function Coded(record: RunRecord, round: nat, ok: bool): RunRecord {
    AppendAttempt(record.(fixRounds := round), Attempt(if round == 0 then Implement else Fix, Note(ok)))
  }

  function Checked(record: RunRecord, risk: RiskLevel, ok: bool): RunRecord {
    AppendAttempt(record.(risk := Some(risk)), Attempt(Verify, Note(ok)))
  }

  function Reviewed(record: RunRecord, full: bool): RunRecord {
    AppendAttempt(record, Attempt(Review, Note(full)))
  }

  function SavedChange(s: Setup, risk: RiskLevel, r: Round, record: RunRecord): RunRecord
    requires s.Usable() && r.machine.Gave?
  {
    var ok := Verified(s, risk, r).ok;
    var checked := Checked(record, risk, ok);
    var reviews := Gather(s, r, ReviewersForRisk(s.policy, risk));
    if !ok || reviews.Threw? then checked else Reviewed(checked, |reviews.value| == ReviewersForRisk(s.policy, risk))
  }

  /** The last record the round saves. */
  function SavedAfter(s: Setup, labels: seq<string>, r: Round, round: nat, record: RunRecord): RunRecord
    requires s.Usable()
  {
    if r.coded.Threw? then record
    else
      var coded := Coded(record, round, r.coded.value);
      if !Classified(r) || r.machine.Threw? then coded else SavedChange(s, AssessedRisk(s, labels, r), r, coded)
  }

  function SpentOnReviews(s: Setup, risk: RiskLevel, r: Round): nat
    requires s.Usable() && r.machine.Gave?
  {
    if Verified(s, risk, r).ok then GatherAttempts(s, r, ReviewersForRisk(s.policy, risk)) else 0
  }

  /** Model invocations the round starts. */
  function Spent(s: Setup, labels: seq<string>, r: Round): nat
    requires s.Usable()
  {
    1 + (if Classified(r) && r.machine.Gave? then SpentOnReviews(s, AssessedRisk(s, labels, r), r) else 0)
  }

  /** Only the round counter, the risk and the attempts of a record change while its rounds go by. */
  ghost predicate KeepsCounters(before: RunRecord, after: RunRecord) {
    && after.issue == before.issue && after.status == before.status && after.pullRequest == before.pullRequest
    && after.ciRounds == before.ciRounds && after.conflictRounds == before.conflictRounds
  }

  /** A round is spent exactly when the coding agent answered it, which every round that asks for another was. */
  lemma {:induction false} AnsweredRoundIsSpent(s: Setup, labels: seq<string>, r: Round, round: nat, record: RunRecord, last: bool)
    requires s.Usable()
    ensures SavedAfter(s, labels, r, round, record).fixRounds == if r.coded.Gave? then round else record.fixRounds
    ensures KeepsCounters(record, SavedAfter(s, labels, r, round, record))
    ensures Judge(s, labels, r, last) == Again ==> r.coded.Gave? && !last
  {
  }

  // ---------------------------------------------------------------- When a change may be published

  /** The first usable attempt of a pass, within the retries it is given. */
  ghost predicate HeardWithin(review: nat -> ReviewAttempt, from: nat, limit: nat, v: Reviews.ReviewResult) {
    exists k :: from <= k < limit && review(k) == Usable(v) && forall j | from <= j < k :: review(j) == Unusable
  }

  lemma {:induction false} PassHears(review: nat -> ReviewAttempt, attempt: nat, limit: nat, v: Reviews.ReviewResult)
    ensures RunPass(review, attempt, limit) == Heard(v) <==> HeardWithin(review, attempt, limit, v)
    decreases limit - attempt
  {
    if attempt < limit && review(attempt) == Unusable {
      PassHears(review, attempt + 1, limit, v);
      if HeardWithin(review, attempt + 1, limit, v) {
        var k :| attempt + 1 <= k < limit && review(k) == Usable(v) && forall j | attempt + 1 <= j < k :: review(j) == Unusable;
        assert forall j | attempt <= j < k :: review(j) == Unusable;
      }
      if HeardWithin(review, attempt, limit, v) {
        var k :| attempt <= k < limit && review(k) == Usable(v) && forall j | attempt <= j < k :: review(j) == Unusable;
        assert k != attempt;
      }
    } else if attempt < limit && HeardWithin(review, attempt, limit, v) {
      var k :| attempt <= k < limit && review(k) == Usable(v) && forall j | attempt <= j < k :: review(j) == Unusable;
      assert k > attempt ==> review(attempt) == Unusable;
    }
  }

  /** Each review is the first usable answer of its own pass. */
  ghost predicate FullyReviewed(s: Setup, r: Round, required: nat, usable: seq<Reviews.ReviewResult>) {
    && |usable| == required && (required > 0 ==> s.reviewers > 0)
    && forall i | 0 <= i < required :: HeardWithin(r.review(i), 0, s.reviewerRetries, usable[i])
  }

  ghost predicate NobodyObjects(s: Setup, usable: seq<Reviews.ReviewResult>) {
    (forall v: Reviews.ReviewResult | v in usable :: v.status == Reviews.Approve) && !Reviews.RaisesBlocking(usable, s.policy.blockingSeverity)
  }

  lemma {:induction false} GatherIsFullIff(s: Setup, r: Round, required: nat, usable: seq<Reviews.ReviewResult>)
    ensures (Gather(s, r, required) == Gave(usable) && |usable| == required) <==> FullyReviewed(s, r, required, usable)
    ensures Gather(s, r, required).Gave? ==> |Gather(s, r, required).value| <= required
  {
    if required > 0 {
      var before := Gather(s, r, required - 1);
      GatherIsFullIff(s, r, required - 1, []);
      if |usable| == required {
        var init, last := usable[..required - 1], usable[required - 1];
        GatherIsFullIff(s, r, required - 1, init);
        PassHears(r.review(required - 1), 0, s.reviewerRetries, last);
        assert usable == init + [last];
      }
    }
  }

  /**
   What a round must show before its change may leave the machine: every step of the tier recorded in
   order as passed or not applicable, as many usable reviews as the tier asks for, none of them objecting,
   all at a risk no lower than the base policy's.
   */
  ghost predicate SafeToPublish(s: Setup, labels: seq<string>, r: Round)
    requires s.Usable()
  {
    && Classified(r) && r.machine.Gave?
    && var risk := AssessedRisk(s, labels, r);
    && AtLeastRisk(risk, Risks.RiskOf(Diffs.ParseLines(Split(r.diff.value, '\n'), None), labels, s.policy, s.detectors))
    && Verification.AllSettled(r.machine.value, ChangeScope(r), StepsForRisk(s.policy.tiers, risk), Verified(s, risk, r).steps)
    && exists usable :: FullyReviewed(s, r, ReviewersForRisk(s.policy, risk), usable) && NobodyObjects(s, usable)
  }

  lemma {:induction false} VerifiedIffSettled(s: Setup, risk: RiskLevel, r: Round)
    requires s.Usable() && r.machine.Gave?
    ensures Verified(s, risk, r).ok <==>
              Verification.AllSettled(r.machine.value, ChangeScope(r), StepsForRisk(s.policy.tiers, risk), Verified(s, risk, r).steps)
    ensures Verified(s, risk, r).ok ==> Verified(s, risk, r).unavailable == []
  {
    Verification.GreenIffAllSettled(r.machine.value, ChangeScope(r), StepsForRisk(s.policy.tiers, risk));
    Verification.UnrestrictedKeepsAll(ChangeScope(r), StepsForRisk(s.policy.tiers, risk));
  }

  /** The reviews settle a round exactly when every pass was heard and nobody objects. */
  lemma {:induction false} ReviewsSettleIff(s: Setup, required: nat, r: Round, last: bool)
    ensures JudgeReviews(s, required, r, last) == Settles <==>
            exists usable :: FullyReviewed(s, r, required, usable) && NobodyObjects(s, usable)
  {
    var gathered := Gather(s, r, required);
    if gathered.Gave? {
      GatherIsFullIff(s, r, required, gathered.value);
      Reviews.AggregateIsPessimistic(gathered.value, |gathered.value|, s.policy.blockingSeverity, s.lower);
    }
    if usable :| FullyReviewed(s, r, required, usable) { GatherIsFullIff(s, r, required, usable); }
  }

  /** A round settles, and only a settled round is pushed, exactly when it is safe to publish. */
  lemma {:induction false} SettlesIffSafe(s: Setup, labels: seq<string>, r: Round, last: bool)
    requires s.Usable()
    ensures Judge(s, labels, r, last) == Settles <==> SafeToPublish(s, labels, r)
  {
    if Classified(r) && r.machine.Gave? {
      var risk := AssessedRisk(s, labels, r);
      Risks.ProposedPolicyCannotLowerRisk(Diffs.ParseLines(Split(r.diff.value, '\n'), None), labels, s.policy, r.proposed, s.detectors);
      VerifiedIffSettled(s, risk, r);
      ReviewsSettleIff(s, ReviewersForRisk(s.policy, risk), r, last);
    }
  }

  /** A machine on which every command succeeds, and nothing is out of scope. */
  const WILLING := Verification.Machine(_ => true, _ => 0, _ => Verification.ExecResult(0, false), (_, _) => true)

  /** A round whose change is committed, passes every step, and is approved by every reviewer at once. */
  function FavourableRound(diff: string, changed: seq<string>): Round {
    Round(Gave(true), Committed, Gave(diff), changed, None, Gave(WILLING),
          (_: nat) => (_: nat) => Usable(Reviews.ReviewResult(Reviews.Approve, [])))
  }

  lemma {:induction false} EverythingSettles(scope: Verification.Scope, steps: seq<TierStep>)
    ensures Verification.Outcome(Verification.RunSteps(WILLING, scope, steps)).ok
  {
    Verification.GreenIffAllSettled(WILLING, scope, steps);
  }

  lemma {:induction false} EveryReviewerApproves(s: Setup, diff: string, changed: seq<string>, required: nat)
    requires s.reviewers > 0 && s.reviewerRetries > 0
    ensures exists usable :: FullyReviewed(s, FavourableRound(diff, changed), required, usable) && NobodyObjects(s, usable)
  {
    var r, approval := FavourableRound(diff, changed), Reviews.ReviewResult(Reviews.Approve, []);
    var usable: seq<Reviews.ReviewResult> := seq(required, _ => approval);
    forall i: nat | i < required ensures HeardWithin(r.review(i), 0, s.reviewerRetries, usable[i]) {
      assert r.review(i)(0) == Usable(approval);
    }
    assert forall v | v in usable :: v == approval;
    assert FullyReviewed(s, r, required, usable) && NobodyObjects(s, usable);
  }

  /** Whatever the change and its labels are, such a round is safe to publish. */
  lemma {:induction false} FavourableRoundIsSafe(s: Setup, labels: seq<string>, diff: string, changed: seq<string>)
    requires s.Usable() && s.reviewers > 0 && s.reviewerRetries > 0
    ensures SafeToPublish(s, labels, FavourableRound(diff, changed))
  {
    var r := FavourableRound(diff, changed);
    var risk := AssessedRisk(s, labels, r);
    Risks.ProposedPolicyCannotLowerRisk(Diffs.ParseLines(Split(diff, '\n'), None), labels, s.policy, r.proposed, s.detectors);
    EverythingSettles(ChangeScope(r), StepsForRisk(s.policy.tiers, risk));
    VerifiedIffSettled(s, risk, r);
    EveryReviewerApproves(s, diff, changed, ReviewersForRisk(s.policy, risk));
  }

  /** Some review objects, but none could not reach a verdict. */
  ghost predicate SomebodyObjects(s: Setup, usable: seq<Reviews.ReviewResult>) {
    (forall v: Reviews.ReviewResult | v in usable :: v.status != Reviews.Blocked) && !NobodyObjects(s, usable)
  }

  lemma {:induction false} ReviewsAskAgainIff(s: Setup, required: nat, r: Round, last: bool)
    ensures JudgeReviews(s, required, r, last) == Again <==>
            !last && exists usable :: FullyReviewed(s, r, required, usable) && SomebodyObjects(s, usable)
  {
    var gathered := Gather(s, r, required);
    if gathered.Gave? {
      GatherIsFullIff(s, r, required, gathered.value);
      Reviews.AggregateIsPessimistic(gathered.value, |gathered.value|, s.policy.blockingSeverity, s.lower);
    }
    if usable :| FullyReviewed(s, r, required, usable) && SomebodyObjects(s, usable) { GatherIsFullIff(s, r, required, usable); }
  }

  /** A step failed and none was unavailable: something an agent can fix on this machine. */
  ghost predicate Fixable(s: Setup, risk: RiskLevel, r: Round)
    requires s.Usable() && r.machine.Gave?
  {
    var results := Verified(s, risk, r).steps;
    && (exists i :: 0 <= i < |results| && results[i].outcome == Verification.Failed)
    && forall i | 0 <= i < |results| :: results[i].outcome != Verification.Unavailable
  }

  lemma {:induction false} FixableIff(s: Setup, risk: RiskLevel, r: Round)
    requires s.Usable() && r.machine.Gave?
    ensures Fixable(s, risk, r) <==> Verified(s, risk, r).unavailable == [] && !Verified(s, risk, r).ok
  {
    var results := Verified(s, risk, r).steps;
    Verification.NamesWithNone(results, Verification.Failed);
    Verification.NamesWithNone(results, Verification.Unavailable);
  }

  /** Another round is asked for exactly when one is left and either the steps or a full set of reviews leave something to fix. */
  lemma {:induction false} AsksAgainIff(s: Setup, labels: seq<string>, r: Round, last: bool)
    requires s.Usable()
    ensures Judge(s, labels, r, last) == Again <==>
              && !last && Classified(r) && r.machine.Gave?
              && var risk := AssessedRisk(s, labels, r);
                 || Fixable(s, risk, r)
                 || (&& Verification.AllSettled(r.machine.value, ChangeScope(r), StepsForRisk(s.policy.tiers, risk), Verified(s, risk, r).steps)
                     && exists usable :: FullyReviewed(s, r, ReviewersForRisk(s.policy, risk), usable) && SomebodyObjects(s, usable))
  {
    if Classified(r) && r.machine.Gave? {
      var risk := AssessedRisk(s, labels, r);
      FixableIff(s, risk, r);
      VerifiedIffSettled(s, risk, r);
      ReviewsAskAgainIff(s, ReviewersForRisk(s.policy, risk), r, last);
    }
  }

  // ---------------------------------------------------------------- Which call cut a round short

  /** Attempts of a pass that answered nothing usable, and then one that threw. */
  ghost predicate BrokenWithin(review: nat -> ReviewAttempt, from: nat, limit: nat) {
    exists k :: from <= k < limit && review(k) == ReviewThrew && forall j | from <= j < k :: review(j) == Unusable
  }

  lemma {:induction false} PassBreaks(review: nat -> ReviewAttempt, attempt: nat, limit: nat)
    ensures RunPass(review, attempt, limit) == Broken <==> BrokenWithin(review, attempt, limit)
    decreases limit - attempt
  {
    if attempt < limit && review(attempt) == Unusable {
      PassBreaks(review, attempt + 1, limit);
      if BrokenWithin(review, attempt + 1, limit) {
        var k :| attempt + 1 <= k < limit && review(k) == ReviewThrew && forall j | attempt + 1 <= j < k :: review(j) == Unusable;
        assert forall j | attempt <= j < k :: review(j) == Unusable;
      }
      if BrokenWithin(review, attempt, limit) {
        var k :| attempt <= k < limit && review(k) == ReviewThrew && forall j | attempt <= j < k :: review(j) == Unusable;
        assert k != attempt;
      }
    } else if attempt < limit && BrokenWithin(review, attempt, limit) {
      var k :| attempt <= k < limit && review(k) == ReviewThrew && forall j | attempt <= j < k :: review(j) == Unusable;
      assert k > attempt ==> review(attempt) == Unusable;
    }
  }

  ghost predicate ReviewsThrow(s: Setup, r: Round, required: nat) {
    s.reviewers > 0 && exists pass: nat :: pass < required && BrokenWithin(r.review(pass), 0, s.reviewerRetries)
  }

  lemma {:induction false} GatherThrewIff(s: Setup, r: Round, required: nat)
    ensures Gather(s, r, required).Threw? <==> ReviewsThrow(s, r, required)
  {
    if required > 0 {
      GatherThrewIff(s, r, required - 1);
      PassBreaks(r.review(required - 1), 0, s.reviewerRetries);
      if s.reviewers > 0 && BrokenWithin(r.review(required - 1), 0, s.reviewerRetries) { assert ReviewsThrow(s, r, required); }
    }
  }

  /** The agent, the diff, a step or a reviewer threw, before anything else ended the round. */
  ghost predicate RoundThrows(s: Setup, labels: seq<string>, r: Round)
    requires s.Usable()
  {
    || r.coded.Threw?
    || (r.coded == Gave(true) && r.commit == Committed && (r.diff.Threw? || r.machine.Threw?))
    || (&& Classified(r) && r.machine.Gave?
        && var risk := AssessedRisk(s, labels, r);
           && Verification.AllSettled(r.machine.value, ChangeScope(r), StepsForRisk(s.policy.tiers, risk), Verified(s, risk, r).steps)
           && ReviewsThrow(s, r, ReviewersForRisk(s.policy, risk)))
  }

  lemma {:induction false} InterruptedIff(s: Setup, labels: seq<string>, r: Round, last: bool)
    requires s.Usable()
    ensures Judge(s, labels, r, last) == Interrupted <==> RoundThrows(s, labels, r)
  {
    if Classified(r) && r.machine.Gave? {
      var risk := AssessedRisk(s, labels, r);
      VerifiedIffSettled(s, risk, r);
      GatherThrewIff(s, r, ReviewersForRisk(s.policy, risk));
    }
  }

  // ---------------------------------------------------------------- What is on record afterwards

  function ChangePhases(s: Setup, risk: RiskLevel, r: Round): seq<Attempt>
    requires s.Usable() && r.machine.Gave?
  {
    var required := ReviewersForRisk(s.policy, risk);
    var reviews := Gather(s, r, required);
    [Attempt(Verify, Note(Verified(s, risk, r).ok))]
    + if !Verified(s, risk, r).ok || reviews.Threw? then [] else [Attempt(Review, Note(|reviews.value| == required))]
  }

  /** What happened in a round, phase by phase. */
  function Phases(s: Setup, labels: seq<string>, r: Round, round: nat): seq<Attempt>
    requires s.Usable()
  {
    if r.coded.Threw? then []
    else
      [Attempt(if round == 0 then Implement else Fix, Note(r.coded.value))]
      + if !Classified(r) || r.machine.Threw? then [] else ChangePhases(s, AssessedRisk(s, labels, r), r)
  }

  function LastAttempts(all: seq<Attempt>): seq<Attempt> {
    if |all| <= MAX_ATTEMPTS then all else all[|all| - MAX_ATTEMPTS..]
  }

  lemma {:induction false} AppendsToTheLast(record: RunRecord, all: seq<Attempt>, a: Attempt)
    requires record.attempts == LastAttempts(all)
    ensures AppendAttempt(record, a).attempts == LastAttempts(all + [a])
  {
  }

  lemma {:induction false} ChangeIsOnRecord(s: Setup, risk: RiskLevel, r: Round, record: RunRecord, all: seq<Attempt>)
    requires s.Usable() && r.machine.Gave? && record.attempts == LastAttempts(all)
    ensures SavedChange(s, risk, r, record).attempts == LastAttempts(all + ChangePhases(s, risk, r))
    ensures SavedChange(s, risk, r, record).risk == Some(risk)
  {
    var v, required := Verified(s, risk, r), ReviewersForRisk(s.policy, risk);
    var a, reviews := Attempt(Verify, Note(v.ok)), Gather(s, r, required);
    AppendsToTheLast(record.(risk := Some(risk)), all, a);
    if v.ok && reviews.Gave? {
      var b := Attempt(Review, Note(|reviews.value| == required));
      AppendsToTheLast(Checked(record, risk, v.ok), all + [a], b);
      assert all + [a] + [b] == all + ([a] + [b]);
    } else {
      assert [a] + [] == [a];
    }
  }

  /** The record keeps the last hundred of everything that happened, in order, and the risk it was verified at. */
  lemma {:induction false} RoundIsOnRecord(s: Setup, labels: seq<string>, r: Round, round: nat, record: RunRecord, all: seq<Attempt>)
    requires s.Usable() && record.attempts == LastAttempts(all)
    ensures SavedAfter(s, labels, r, round, record).attempts == LastAttempts(all + Phases(s, labels, r, round))
    ensures Classified(r) && r.machine.Gave? ==> SavedAfter(s, labels, r, round, record).risk == Some(AssessedRisk(s, labels, r))
  {
    if r.coded.Threw? {
      assert all + [] == all;
    } else {
      var coded, a := Coded(record, round, r.coded.value), Attempt(if round == 0 then Implement else Fix, Note(r.coded.value));
      AppendsToTheLast(record.(fixRounds := round), all, a);
      if Classified(r) && r.machine.Gave? {
        var risk := AssessedRisk(s, labels, r);
        ChangeIsOnRecord(s, risk, r, coded, all + [a]);
        assert all + [a] + ChangePhases(s, risk, r) == all + ([a] + ChangePhases(s, risk, r));
      } else {
        assert [a] + [] == [a];
      }
    }
  }

  // ---------------------------------------------------------------- What a round can cost

  function MostReviewers(s: Setup): nat {
    var t := s.policy.tiers;
    var lower := if t.low.reviewers >= t.medium.reviewers then t.low.reviewers else t.medium.reviewers;
    if lower >= t.high.reviewers then lower else t.high.reviewers
  }

  /** One coding call and, for the most demanding tier, every reviewer at every retry. */
  function RoundCost(s: Setup): nat {
    1 + MostReviewers(s) * s.reviewerRetries
  }

  lemma {:induction false} PassAttemptsAtMost(review: nat -> ReviewAttempt, attempt: nat, limit: nat)
    requires attempt <= limit
    ensures PassAttempts(review, attempt, limit) <= limit - attempt
    decreases limit - attempt
  {
    if attempt < limit { PassAttemptsAtMost(review, attempt + 1, limit); }
  }

  lemma {:induction false} GatherAttemptsAtMost(s: Setup, r: Round, required: nat)
    ensures GatherAttempts(s, r, required) <= required * s.reviewerRetries
  {
    if required > 0 {
      GatherAttemptsAtMost(s, r, required - 1);
      PassAttemptsAtMost(r.review(required - 1), 0, s.reviewerRetries);
      assert required * s.reviewerRetries == (required - 1) * s.reviewerRetries + s.reviewerRetries;
    }
  }

  lemma {:induction false} MoreCostsMore(a: nat, b: nat, c: nat)
    requires a <= b
    ensures a * c <= b * c
  {
  }

  lemma {:induction false} SpentAtMost(s: Setup, labels: seq<string>, r: Round)
    requires s.Usable()
    ensures 1 <= Spent(s, labels, r) <= RoundCost(s)
  {
    if Classified(r) {
      var required := ReviewersForRisk(s.policy, AssessedRisk(s, labels, r));
      GatherAttemptsAtMost(s, r, required);
      MoreCostsMore(required, MostReviewers(s), s.reviewerRetries);
    }
  }
}
