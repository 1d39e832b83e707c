/**
 The local runner: it claims an issue, works on it, drives its pull request, and does so unattended
 cycle after cycle, within a budget and with a journal that survives restarts.
 */
module Runners {
  import opened Options
  import opened Policies
  import opened Journals
  import opened Rounds
  import opened Working
  import opened Budgets
  import opened Driving
  import opened Sessions
  import Diffs
  import Risks
  import Reviews
  import Selection
  import Verification

  /** `n` events were logged, none before `since`. */
  ghost predicate Grew(before: seq<int>, after: seq<int>, n: nat, since: int) {
    && |after| == |before| + n && before <= after
    && forall i | |before| <= i < |after| :: after[i] >= since
  }

  lemma {:induction false} GrewFurther(a: seq<int>, b: seq<int>, c: seq<int>, m: nat, n: nat, t: int, u: int)
    requires Grew(a, b, m, t) && Grew(b, c, n, u) && t <= u
    ensures Grew(a, c, m + n, t)
  {
    forall i | |a| <= i < |c| ensures c[i] >= t { assert i < |b| ==> c[i] == b[i]; }
  }

  /** A batch of at most `batch` events after a check that found room keeps the log spaced. */
  lemma {:induction false} BatchStaysSpaced(log: seq<int>, after: seq<int>, n: nat, limit: nat, batch: nat, window: int, t: int, since: int)
    requires limit > 0 && Ascending(after) && Spaced(log, limit - 1 + batch, window) && CountSince(log, t - window) < limit
    requires Grew(log, after, n, since) && n <= batch && t <= since
    ensures Spaced(after, limit - 1 + batch, window)
  {
    var added := after[|log|..];
    assert after == log + added;
    CheckedBatchStaysSpaced(log, added, limit, batch, window, t);
  }

  lemma {:induction false} OneStaysSpaced(log: seq<int>, event: int, after: seq<int>, limit: nat, window: int, t: int)
    requires limit > 0 && Ascending(after) && Spaced(log, limit, window) && CountSince(log, t - window) < limit
    requires after == log + [event] && t <= event
    ensures Spaced(after, limit, window)
  {
    BatchStaysSpaced(log, after, 1, limit, 1, window, t, t);
  }

  lemma {:induction false} SpacedWindows(log: seq<int>, limit: nat, batch: nat, window: int)
    requires Ascending(log) && batch > 0 && (limit > 0 ==> Spaced(log, limit - 1 + batch, window))
    ensures limit > 0 ==> AtMostPerWindow(log, limit - 1 + batch, window)
  {
    if limit > 0 { SpacedBoundsWindows(log, limit - 1 + batch, window); }
  }

  datatype Taken = Halt(reason: StopReason) | Ran(end: OnceEnd)

  class Runner {
    const setup: Setup
    const selection: Selection.SelectionPolicy
    const budget: Budget
    var journal: seq<RunRecord>
    /** Rounds the coding agent answered since the issue at hand was claimed. */
    ghost var given: seq<nat>

    /** Red checks seen on its pull request since then. */
    ghost var reds: nat

    ghost predicate Valid()
      reads this, budget, budget.clock
    {
      setup.Usable() && budget.Valid() && Accounted(setup, journal, given, reds)
    }

    /** A restart reads the journal another runner left; what happened since the claim is handed on with it. */
    constructor (setup: Setup, selection: Selection.SelectionPolicy, budget: Budget, journal: seq<RunRecord>, ghost given: seq<nat>, ghost reds: nat)
      requires setup.Usable() && budget.Valid() && Accounted(setup, journal, given, reds)
      ensures Valid() && this.setup == setup && this.selection == selection && this.budget == budget && this.journal == journal
      ensures this.given == given && this.reds == reds
    {
      this.setup, this.selection, this.budget, this.journal := setup, selection, budget, journal;
      this.given, this.reds := given, reds;
    }

    /** Since a moment with these logs and this clock, `n` invocations were recorded and nothing else. */
    ghost predicate Invoked(log: seq<int>, issues: seq<int>, last: int, n: nat)
      reads this, budget, budget.clock
    {
      && budget.Valid() && last <= budget.clock.last
      && budget.IssueLog() == issues && Grew(log, budget.InvocationLog(), n, last)
    }

    method Invoke(ghost log: seq<int>, ghost issues: seq<int>, ghost last: int, ghost n: nat)
      requires Invoked(log, issues, last, n)
      modifies budget`invocations, budget.clock
      ensures Invoked(log, issues, last, n + 1)
    {
      ghost var before, t := budget.InvocationLog(), budget.clock.last;
      budget.RecordInvocation();
      GrewFurther(log, before, budget.InvocationLog(), n, 1, last, t);
    }

    method RunReviewer(review: nat -> ReviewAttempt, ghost log: seq<int>, ghost issues: seq<int>, ghost last: int, ghost n: nat) returns (p: Pass)
      requires Invoked(log, issues, last, n)
      modifies budget`invocations, budget.clock
      ensures p == RunPass(review, 0, setup.reviewerRetries)
      ensures Invoked(log, issues, last, n + PassAttempts(review, 0, setup.reviewerRetries))
    {
      var attempt := 0;
      while attempt < setup.reviewerRetries
        invariant 0 <= attempt <= setup.reviewerRetries
        invariant RunPass(review, attempt, setup.reviewerRetries) == RunPass(review, 0, setup.reviewerRetries)
        invariant attempt + PassAttempts(review, attempt, setup.reviewerRetries) == PassAttempts(review, 0, setup.reviewerRetries)
        invariant Invoked(log, issues, last, n + attempt)
      {
        Invoke(log, issues, last, n + attempt);
        match review(attempt)
        case Usable(v) => return Heard(v);
        case ReviewThrew => return Broken;
        case Unusable =>
        attempt := attempt + 1;
      }
      p := Missing;
    }

    /** Each pass is another reviewer object; when there are fewer, the last one stands in. */
    method GatherReviews(r: Round, required: nat, ghost log: seq<int>, ghost issues: seq<int>, ghost last: int, ghost n: nat)
      returns (g: Answer<seq<Reviews.ReviewResult>>)
      requires Invoked(log, issues, last, n)
      modifies budget`invocations, budget.clock
      ensures g == Gather(setup, r, required)
      ensures Invoked(log, issues, last, n + GatherAttempts(setup, r, required))
    {
      var usable := [];
      for index := 0 to required
        invariant Gather(setup, r, index) == Gave(usable)
        invariant Invoked(log, issues, last, n + GatherAttempts(setup, r, index))
      {
        if setup.reviewers == 0 { continue; }
        var p := RunReviewer(r.review(index), log, issues, last, n + GatherAttempts(setup, r, index));
        if p.Broken? {
          GatherBreaks(r, index + 1, required);
          return Threw;
        }
        if p.Heard? { usable := usable + [p.review]; }
      }
      g := Gave(usable);
    }

    lemma {:induction false} GatherBreaks(r: Round, some: nat, all: nat)
      requires some <= all && Gather(setup, r, some).Threw?
      ensures Gather(setup, r, all).Threw? && GatherAttempts(setup, r, all) == GatherAttempts(setup, r, some)
    {
      if some < all { GatherBreaks(r, some, all - 1); }
    }

    method Save(record: RunRecord, ghost base: seq<RunRecord>, ghost previous: RunRecord)
      requires journal == UpsertRun(base, previous) && record.issue == previous.issue
      modifies `journal
      ensures journal == UpsertRun(base, record)
    {
      LaterSaveWins(base, previous, record, journal);
      journal := UpsertRun(journal, record);
    }

    method Assess(labels: seq<string>, r: Round) returns (risk: RiskLevel)
      requires r.diff.Gave?
      ensures risk == AssessedRisk(setup, labels, r)
    {
      var files := Diffs.ParseUnifiedDiff(r.diff.value);
      risk := Risks.ClassifyMonotonic(files, labels, setup.policy, r.proposed, setup.detectors).risk;
    }

    method VerifyChange(risk: RiskLevel, r: Round) returns (v: Verification.VerificationOutcome)
      requires setup.Usable() && r.machine.Gave?
      ensures v == Verified(setup, risk, r)
    {
      var steps := ComputeSteps(setup.policy.tiers, risk);
      v := Verification.VerifySteps(r.machine.value, ChangeScope(r), steps);
    }

    method ReviewRound(required: nat, r: Round, final: bool, record: RunRecord,
                       ghost base: seq<RunRecord>, ghost log: seq<int>, ghost issues: seq<int>, ghost last: int, ghost n: nat)
      returns (end: RoundEnd, saved: RunRecord)
      requires journal == UpsertRun(base, record) && Invoked(log, issues, last, n)
      modifies `journal, budget`invocations, budget.clock
      ensures end == JudgeReviews(setup, required, r, final)
      ensures saved == if Gather(setup, r, required).Threw? then record else Reviewed(record, |Gather(setup, r, required).value| == required)
      ensures journal == UpsertRun(base, saved)
      ensures Invoked(log, issues, last, n + GatherAttempts(setup, r, required))
    {
      var reviews := GatherReviews(r, required, log, issues, last, n);
      if reviews.Threw? { return Interrupted, record; }
      var usable := reviews.value;
      saved := Reviewed(record, |usable| == required);
      Save(saved, base, record);
      if |usable| < required { return Blocks, saved; }
      match Combine(setup, usable)
      case Blocked => end := Blocks;
      case RequestChanges => end := if final then Blocks else Again;
      case Approve => end := Settles;
    }

    method CheckChange(risk: RiskLevel, r: Round, final: bool, record: RunRecord,
                       ghost base: seq<RunRecord>, ghost log: seq<int>, ghost issues: seq<int>, ghost last: int, ghost n: nat)
      returns (end: RoundEnd, saved: RunRecord)
      requires setup.Usable() && r.machine.Gave? && journal == UpsertRun(base, record) && Invoked(log, issues, last, n)
      modifies `journal, budget`invocations, budget.clock
      ensures end == JudgeChange(setup, risk, r, final)
      ensures saved == SavedChange(setup, risk, r, record)
      ensures journal == UpsertRun(base, saved)
      ensures Invoked(log, issues, last, n + SpentOnReviews(setup, risk, r))
    {
      VerifiedIffSettled(setup, risk, r);
      var v := VerifyChange(risk, r);
      saved := Checked(record, risk, v.ok);
      Save(saved, base, record);
      if v.unavailable != [] { return Blocks, saved; }
      if !v.ok { return if final then Blocks else Again, saved; }
      end, saved := ReviewRound(ReviewersForRisk(setup.policy, risk), r, final, saved, base, log, issues, last, n);
    }

    method PlayRound(labels: seq<string>, r: Round, round: nat, record: RunRecord,
                     ghost base: seq<RunRecord>, ghost log: seq<int>, ghost issues: seq<int>, ghost last: int, ghost n: nat)
      returns (end: RoundEnd, saved: RunRecord)
      requires setup.Usable() && journal == UpsertRun(base, record) && Invoked(log, issues, last, n)
      modifies `journal, `given, budget`invocations, budget.clock
      ensures end == Judge(setup, labels, r, round + 1 >= setup.codingRounds)
      ensures saved == SavedAfter(setup, labels, r, round, record)
      ensures journal == UpsertRun(base, saved)
      ensures Invoked(log, issues, last, n + Spent(setup, labels, r))
      ensures given == if r.coded.Gave? then old(given) + [round] else old(given)
    {
      Invoke(log, issues, last, n);
      if r.coded.Threw? { return Interrupted, record; }
      saved := Coded(record, round, r.coded.value);
      Save(saved, base, record);
      given := given + [round];
      if !r.coded.value { return Blocks, saved; }
      if r.commit != Committed { return Blocks, saved; }
      if r.diff.Threw? { return Interrupted, saved; }
      var risk := Assess(labels, r);
      if r.machine.Threw? { return Interrupted, saved; }
      end, saved := CheckChange(risk, r, round + 1 >= setup.codingRounds, saved, base, log, issues, last, n + 1);
    }

    /** The next round of a course, after rounds that were all given to the agent before it. */
    method PlayNext(labels: seq<string>, rounds: nat -> Round, round: nat, record: RunRecord, ghost c: Course,
                    ghost base: seq<RunRecord>, ghost log: seq<int>, ghost issues: seq<int>, ghost last: int, ghost n: nat, ghost earlier: seq<nat>)
      returns (end: RoundEnd, saved: RunRecord)
      requires setup.Usable() && journal == UpsertRun(base, record) && Invoked(log, issues, last, n)
      requires Runs(c, setup, labels, rounds) && Ascends(given, round) && Ascends(given, record.fixRounds + 1) && earlier <= given
      modifies `journal, `given, budget`invocations, budget.clock
      ensures end == c.verdict(round) && saved == c.saved(round)(record) && (end == Again ==> round + 1 < setup.codingRounds)
      ensures journal == UpsertRun(base, saved) && Invoked(log, issues, last, n + c.spent(round))
      ensures earlier <= given && Ascends(given, round + 1) && Ascends(given, saved.fixRounds + 1)
    {
      AnsweredRoundIsSpent(setup, labels, rounds(round), round, record, round + 1 >= setup.codingRounds);
      AscendsFurther(given, round);
      end, saved := PlayRound(labels, rounds(round), round, record, base, log, issues, last, n);
      assert c.saved(round)(record) == saved;
    }

    /** The bounded loop of rounds.  Rounds given to the coding agent only ever go up. */
    method PlayRounds(labels: seq<string>, rounds: nat -> Round, start: nat, record: RunRecord, ghost c: Course, ghost stop: nat,
                      ghost base: seq<RunRecord>, ghost log: seq<int>, ghost issues: seq<int>, ghost last: int, ghost earlier: seq<nat>)
      returns (end: RoundEnd, saved: RunRecord)
      requires setup.Usable() && journal == UpsertRun(base, record) && Invoked(log, issues, last, 0)
      requires start < setup.codingRounds && stop == LastRound(c, start, setup.codingRounds)
      requires Runs(c, setup, labels, rounds)
      requires Ascends(given, start) && Ascends(given, record.fixRounds + 1) && earlier <= given
      modifies `journal, `given, budget`invocations, budget.clock
      ensures end == c.verdict(stop)
      ensures saved == RecordThrough(c, record, start, stop + 1)
      ensures journal == UpsertRun(base, saved)
      ensures Invoked(log, issues, last, SpentThrough(c, start, stop + 1))
      ensures earlier <= given && Ascends(given, setup.codingRounds) && Ascends(given, saved.fixRounds + 1)
    {
      var round := start;
      saved := record;
      while true
        invariant start <= round < setup.codingRounds
        invariant LastRound(c, round, setup.codingRounds) == stop
        invariant saved == RecordThrough(c, record, start, round) && journal == UpsertRun(base, saved)
        invariant Invoked(log, issues, last, SpentThrough(c, start, round))
        invariant earlier <= given && Ascends(given, round) && Ascends(given, saved.fixRounds + 1)
        decreases setup.codingRounds - round
      {
        end, saved := PlayNext(labels, rounds, round, saved, c, base, log, issues, last, SpentThrough(c, start, round), earlier);
        if end != Again { return; }
        round := round + 1;
      }
    }

    /** Marks the issue as one that needs a person. */
    method Abandon(w: WorkAnswers, record: RunRecord, ghost base: seq<RunRecord>) returns (end: WorkEnd, saved: RunRecord)
      requires journal == UpsertRun(base, record)
      modifies `journal
      ensures (saved, end) == GiveUp(w, record) && journal == UpsertRun(base, saved)
    {
      saved := record.(status := Blocked);
      Save(saved, base, record);
      end := if w.told then GaveUp else Cut;
    }

    /** Pushes a settled change and puts it before a reviewer, reusing the pull request the branch already has. */
    method DeliverChange(w: WorkAnswers, record: RunRecord, ghost base: seq<RunRecord>) returns (end: WorkEnd, saved: RunRecord)
      requires journal == UpsertRun(base, record)
      modifies `journal
      ensures (saved, end) == Deliver(w, record) && journal == UpsertRun(base, saved)
    {
      if !w.pushed {
        end, saved := Abandon(w, record, base);
        return;
      }
      if w.existing.Threw? { return Cut, record; }
      var pullRequest;
      if w.existing.value.Some? {
        pullRequest, end := w.existing.value.value, Updated;
      } else {
        if w.created.Threw? { return Cut, record; }
        pullRequest, end := w.created.value, Opened;
      }
      saved := Published(record, pullRequest);
      Save(saved, base, record);
      if !w.handedOver { end := Cut; }
    }

    method CloseRounds(w: WorkAnswers, verdict: RoundEnd, record: RunRecord, ghost base: seq<RunRecord>) returns (end: WorkEnd, saved: RunRecord)
      requires journal == UpsertRun(base, record)
      modifies `journal
      ensures (saved, end) == Conclude(w, verdict, record) && journal == UpsertRun(base, saved)
    {
      if verdict == Interrupted { return Cut, record; }
      if verdict == Settles {
        end, saved := DeliverChange(w, record, base);
      } else {
        end, saved := Abandon(w, record, base);
      }
    }

    method WorkClaimed(labels: seq<string>, w: WorkAnswers, record: RunRecord, start: nat, ghost c: Course,
                       ghost base: seq<RunRecord>, ghost log: seq<int>, ghost issues: seq<int>, ghost last: int, ghost earlier: seq<nat>)
      returns (end: WorkEnd, saved: RunRecord)
      requires setup.Usable() && journal == UpsertRun(base, record) && Invoked(log, issues, last, 0) && Runs(c, setup, labels, w.rounds)
      requires Ascends(given, start) && Ascends(given, setup.codingRounds) && Ascends(given, record.fixRounds + 1) && earlier <= given
      modifies `journal, `given, budget`invocations, budget.clock
      ensures (saved, end) == Work(c, w, record, start, setup.codingRounds) && journal == UpsertRun(base, saved)
      ensures Invoked(log, issues, last, WorkSpent(c, w, start, setup.codingRounds))
      ensures earlier <= given && Ascends(given, setup.codingRounds) && Ascends(given, saved.fixRounds + 1)
    {
      if !w.prepared {
        end, saved := Abandon(w, record, base);
        return;
      }
      if w.installed.Threw? { return Cut, record; }
      if !w.installed.value || start >= setup.codingRounds {
        end, saved := Abandon(w, record, base);
        return;
      }
      ghost var stop := LastRound(c, start, setup.codingRounds);
      var verdict;
      verdict, saved := PlayRounds(labels, w.rounds, start, record, c, stop, base, log, issues, last, earlier);
      end, saved := CloseRounds(w, verdict, saved, base);
    }

    /** One issue, end to end, up to the pull request. */
    method WorkIssue(issue: nat, labels: seq<string>, w: WorkAnswers, start: nat, ghost c: Course, ghost earlier: seq<nat>) returns (end: WorkEnd)
      requires setup.Usable() && budget.Valid() && Runs(c, setup, labels, w.rounds)
      requires Ascends(given, start) && Ascends(given, setup.codingRounds) && earlier <= given
      requires Ascends(given, Claimed(journal, issue).fixRounds + 1)
      modifies `journal, `given, budget`invocations, budget.clock
      ensures !w.claimed ==> end == Cut && journal == old(journal) && given == old(given)
      ensures w.claimed ==>
                var done := Work(c, w, Claimed(old(journal), issue), start, setup.codingRounds);
                end == done.1 && journal == UpsertRun(old(journal), done.0) && Ascends(given, done.0.fixRounds + 1)
      ensures Invoked(old(budget.InvocationLog()), old(budget.IssueLog()), old(budget.clock.last),
                      if w.claimed then WorkSpent(c, w, start, setup.codingRounds) else 0)
      ensures earlier <= given && Ascends(given, setup.codingRounds)
    {
      if !w.claimed { return Cut; }
      ghost var base, log, issues, last := journal, budget.InvocationLog(), budget.IssueLog(), budget.clock.last;
      var record := Claimed(journal, issue);
      journal := UpsertRun(journal, record);
      var saved;
      end, saved := WorkClaimed(labels, w, record, start, c, base, log, issues, last, earlier);
    }

    /** A claim starts the rounds afresh; a resumption continues the ones already given. */
    method TakeWork(work: Next, w: WorkAnswers, ghost c: Course) returns (outcome: WorkEnd)
      requires Valid() && work.Take? && Exclusive(journal, work.issue)
      requires Runs(c, setup, work.labels, w.rounds) && Bounded(c, setup.codingRounds, RoundCost(setup))
      requires if work.claims then work.start == 0 && !HeadInFlight(journal) else
                 HeadInFlight(journal) && work.start == journal[0].fixRounds + 1 && Claimed(journal, work.issue) == journal[0].(status := InProgress)
      modifies this, budget`invocations, budget.clock
      ensures Valid()
      ensures !w.claimed ==> outcome == Cut && journal == old(journal)
      ensures w.claimed ==>
                var done := Work(c, w, Claimed(old(journal), work.issue), work.start, setup.codingRounds);
                outcome == done.1 && journal == UpsertRun(old(journal), done.0)
      ensures Invoked(old(budget.InvocationLog()), old(budget.IssueLog()), old(budget.clock.last),
                      if w.claimed then WorkSpent(c, w, work.start, setup.codingRounds) else 0)
      ensures !work.claims ==> old(given) <= given && reds == old(reds)
    {
      if work.claims { given, reds := [], 0; }
      ghost var runs := journal;
      outcome := WorkIssue(work.issue, work.labels, w, work.start, c, given);
      if w.claimed {
        ghost var done := Work(c, w, Claimed(runs, work.issue), work.start, setup.codingRounds).0;
        WorkKeepsCounters(c, w, Claimed(runs, work.issue), work.start, setup.codingRounds, RoundCost(setup));
        SaveKeepsAccount(setup, runs, done, given, reds);
      }
    }

    /** Takes one issue through the local phase, if there is one to resume or to claim. */
    method RunOnce(a: OnceAnswers, skip: seq<nat>, ghost next: Next) returns (end: OnceEnd)
      requires Valid() && next == NextWork(setup, selection.(skip := skip), journal, a)
      modifies this, budget`invocations, budget.clock
      ensures Valid()
      ensures (journal, end) == After(setup, next, old(journal), a.work)
      ensures Invoked(old(budget.InvocationLog()), old(budget.IssueLog()), old(budget.clock.last), SpentOn(setup, next, a.work))
      ensures !(next.Take? && next.claims) ==> old(given) <= given && reds == old(reds)
    {
      var work := NextWork(setup, selection.(skip := skip), journal, a);
      if work.Stop? { return work.end; }
      NextIsExclusive(setup, selection.(skip := skip), journal, a, work);
      CourseRuns(setup, work.labels, a.work.rounds);
      CoursesAreBounded(setup, work.labels, a.work.rounds);
      var outcome := TakeWork(work, a.work, CourseOf(setup, work.labels, a.work.rounds));
      end := if outcome == Cut then Broke else Worked(work.issue, outcome);
    }

    /** Moves the open pull request, of which there is at most one, forward by one step. */
    method Advance(a: PullAnswers) returns (end: Answer<Option<(nat, Action)>>)
      requires Valid()
      modifies `journal, `reds
      ensures Valid()
      ensures !HeadInFlight(old(journal)) ==> end == Gave(None) && journal == old(journal) && reds == old(reds)
      ensures HeadInFlight(old(journal)) ==>
                var record, action := old(journal)[0], Drive(setup, old(journal)[0], a);
                && journal == (if Driven(setup, record, a) == record then old(journal) else UpsertRun(old(journal), Driven(setup, record, a)))
                && end == (if action.Threw? then Threw else Gave(Some((record.issue, action.value))))
                && reds == (if SeesRed(record, a) then old(reds) + 1 else old(reds))
      ensures reds == setup.ciRounds && reds != old(reds) ==> journal != [] && journal[0].status == Blocked
    {
      InFlightIsHead(journal);
      var outstanding := InFlight(journal);
      if outstanding == [] { return Gave(None); }
      var record := outstanding[0];
      var after := Driven(setup, record, a);
      RedsAreSpent(setup, journal, given, reds, a, after);
      if after != record { journal := UpsertRun(journal, after); }
      if SeesRed(record, a) { reds := reds + 1; }
      var action := Drive(setup, record, a);
      end := if action.Threw? then Threw else Gave(Some((record.issue, action.value)));
    }

    // -------------------------------------------------------------- Unattended

    /** Claims and invocations so far are spaced as the limits ask, batch by checked batch. */
    ghost predicate Paced()
      reads this, budget
    {
      && (budget.limits.perHour > 0 ==> Spaced(budget.InvocationLog(), budget.limits.perHour - 1 + WorstCase(setup), HOUR))
      && (budget.limits.perDay > 0 ==> Spaced(budget.IssueLog(), budget.limits.perDay, DAY))
    }

    lemma {:induction false} InvocationsStayPaced(log: seq<int>, t: int, since: int, n: nat)
      requires budget.Valid() && Grew(log, budget.InvocationLog(), n, since) && n <= WorstCase(setup) && t <= since
      requires budget.limits.perHour > 0 ==>
                 Spaced(log, budget.limits.perHour - 1 + WorstCase(setup), HOUR) && CountSince(log, t - HOUR) < budget.limits.perHour
      ensures budget.limits.perHour > 0 ==> Spaced(budget.InvocationLog(), budget.limits.perHour - 1 + WorstCase(setup), HOUR)
    {
      if budget.limits.perHour > 0 {
        BatchStaysSpaced(log, budget.InvocationLog(), n, budget.limits.perHour, WorstCase(setup), HOUR, t, since);
      }
    }

    /** Records a claim after a check at time `t` found room for it. */
    method ClaimOne(ghost issues: seq<int>, ghost t: int)
      requires budget.Valid() && budget.IssueLog() == issues && t <= budget.clock.last
      requires budget.limits.perDay > 0 ==> Spaced(issues, budget.limits.perDay, DAY) && CountSince(issues, t - DAY) < budget.limits.perDay
      modifies budget`issues, budget.clock
      ensures budget.Valid() && budget.InvocationLog() == old(budget.InvocationLog()) && |budget.IssueLog()| == |issues| + 1
      ensures budget.limits.perDay > 0 ==> Spaced(budget.IssueLog(), budget.limits.perDay, DAY)
    {
      budget.RecordIssue();
      if budget.limits.perDay > 0 { OneStaysSpaced(issues, budget.clock.last, budget.IssueLog(), budget.limits.perDay, DAY, t); }
    }

    /** The budget's verdict on these logs, at instants from `since` on. */
    ghost predicate Judged(spent: Option<BudgetKind>, log: seq<int>, issues: seq<int>, since: int)
      reads this, budget
    {
      exists t1, t2, t3 :: since <= t1 <= t2 <= t3 && spent == Verdict(budget.limits, budget.startedAt, log, issues, t1, t2, t3)
    }

    /** Takes new work while nothing is in flight, unless a ceiling or the budget forbids it. */
    method TakeIssue(a: OnceAnswers, skip: seq<nat>, taken: nat, ghost next: Next) returns (t: Taken, ghost spent: Option<BudgetKind>)
      requires Valid() && Paced() && !HeadInFlight(journal) && next == NextWork(setup, selection.(skip := skip), journal, a)
      modifies this, budget, budget.clock
      ensures Valid() && Paced()
      ensures t == Halt(MaxIssuesReached) <==> setup.maxIssues > 0 && taken >= setup.maxIssues
      ensures t != Halt(MaxIssuesReached) ==>
                && Judged(spent, old(budget.InvocationLog()), old(budget.IssueLog()), old(budget.clock.last))
                && (t == Halt(BudgetExceeded) <==> spent.Some?)
      ensures t.Halt? ==> journal == old(journal) && t.reason in {MaxIssuesReached, BudgetExceeded}
      ensures !t.Halt? ==> (journal, t.end) == After(setup, next, old(journal), a.work)
      ensures |budget.IssueLog()| == |old(budget.IssueLog())| + if !t.Halt? && t.end.Worked? then 1 else 0
    {
      spent := None;
      if setup.maxIssues != 0 && taken >= setup.maxIssues { return Halt(MaxIssuesReached), spent; }
      ghost var log, issues := budget.InvocationLog(), budget.IssueLog();
      var exceeded;
      ghost var t1, t2, t3;
      exceeded, t1, t2, t3 := budget.Check();
      spent := exceeded;
      if exceeded.Some? { return Halt(BudgetExceeded), spent; }
      var end := RunOnce(a, skip, next);
      SpentOnAtMost(setup, next, a.work);
      InvocationsStayPaced(log, t1, t3, SpentOn(setup, next, a.work));
      if end.Worked? { ClaimOne(issues, t2); }
      t := Ran(end);
    }

    /** The first half of a cycle: move open work forward, and give up on what ended badly. */
    method DriveOpenWork(a: PullAnswers, session: Session) returns (threw: bool, skip: seq<nat>)
      requires Valid()
      modifies `journal, `reds
      ensures Valid()
      ensures journal == AfterDrive(setup, old(journal), a) && threw == DriveThrows(setup, old(journal), a)
      ensures skip == SkipAfterDrive(setup, old(journal), a, session.skip) && (threw ==> skip == session.skip)
      ensures old(Stranded(journal)) ==> journal == old(journal) && !threw
    {
      threw, skip := false, session.skip;
      var advanced := Advance(a);
      if advanced.Threw? {
        threw := true;
      } else if advanced.value.Some? && advanced.value.value.1 in {ClosedUnmerged, RetriesExhausted} {
        skip := skip + [advanced.value.value.0];
      }
    }

    /** The second half of a cycle, when nothing is in flight. */
    method TakeNewWork(a: OnceAnswers, session: Session) returns (stop: Option<StopReason>, after: Session, ghost spent: bool)
      requires Valid() && Paced() && !HeadInFlight(journal)
      modifies this, budget, budget.clock
      ensures Valid() && Paced()
      ensures State(journal, stop, after) == PlayNewWork(setup, selection, old(journal), a, session, spent)
      ensures !(setup.maxIssues > 0 && session.taken >= setup.maxIssues) ==> exists kind: Option<BudgetKind> ::
                spent == kind.Some? && Judged(kind, old(budget.InvocationLog()), old(budget.IssueLog()), old(budget.clock.last))
      ensures |budget.IssueLog()| - after.taken == |old(budget.IssueLog())| - session.taken
    {
      ghost var next := NextWork(setup, selection.(skip := session.skip), journal, a);
      ghost var kind: Option<BudgetKind>;
      var t;
      t, kind := TakeIssue(a, session.skip, session.taken, next);
      after, spent := session, kind.Some?;
      if t.Halt? { return Some(t.reason), after, spent; }
      var played := PlayClaim(setup, journal, t.end, session);
      stop, after := played.stop, played.session;
    }

    /** One cycle: open work first, then new work if nothing is in flight. */
    method RunCycle(cycle: Cycle, session: Session) returns (stop: Option<StopReason>, after: Session, ghost spent: bool)
      requires Valid() && Paced()
      modifies this, budget, budget.clock
      ensures Valid() && Paced()
      ensures State(journal, stop, after) == PlayCycle(setup, selection, old(journal), cycle, session, spent)
      ensures |budget.IssueLog()| - after.taken == |old(budget.IssueLog())| - session.taken
      ensures old(Stranded(journal)) ==>
                && stop.None? && journal == old(journal)
                && budget.InvocationLog() == old(budget.InvocationLog()) && budget.IssueLog() == old(budget.IssueLog())
    {
      spent := false;
      var threw, skip;
      threw, skip := DriveOpenWork(cycle.pull, session);
      after := session.(skip := skip);
      if threw {
        var tolerated := Tolerated(setup, journal, session);
        return tolerated.stop, tolerated.session, spent;
      }
      if HeadInFlight(journal) {
        return None, after.(failures := 0), spent;
      }
      stop, after, spent := TakeNewWork(cycle.once, after);
    }

    /**
     A whole unattended session; it is asked to stop when `cycles` runs out.  Over any such session, whatever
     the host, git and the agents answer and whenever they throw: no rolling day holds more recorded claims
     and no rolling hour more model invocations than the limits allow, the issue ceiling holds for recorded
     claims, a claim is recorded exactly when no exception ended its work, an issue the host was told to leave
     to a person is never claimed again, and nothing is published that was not verified and reviewed.
     */
    method RunUnattended(cycles: seq<Cycle>) returns (stop: StopReason, taken: nat, ghost history: seq<Event>, ghost spent: seq<bool>)
      requires Valid() && budget.InvocationLog() == [] && budget.IssueLog() == []
      modifies this, budget, budget.clock
      ensures Valid()
      ensures budget.limits.perDay > 0 ==> AtMostPerWindow(budget.IssueLog(), budget.limits.perDay, DAY)
      ensures budget.limits.perHour > 0 ==> AtMostPerWindow(budget.InvocationLog(), budget.limits.perHour - 1 + WorstCase(setup), HOUR)
      ensures taken == |budget.IssueLog()| == RecordedClaims(history) && (setup.maxIssues > 0 ==> taken <= setup.maxIssues)
      ensures |spent| <= |cycles| && (stop == AskedToStop ==> |spent| == |cycles|)
      ensures history == History(setup, selection, old(journal), cycles, spent)
      ensures NeverRetaken(history) && PublishedSafely(setup, history) && MetBy(history, cycles)
      ensures var last := PlaySession(setup, selection, old(journal), cycles, spent);
              journal == last.runs && taken == last.session.taken && last.stop == if stop == AskedToStop then None else Some(stop)
      ensures old(Stranded(journal)) ==>
                stop == AskedToStop && journal == old(journal) && history == [] && budget.InvocationLog() == [] && budget.IssueLog() == []
    {
      stop, taken, spent := RunCycles(cycles);
      history := History(setup, selection, old(journal), cycles, spent);
      HistoryIsProper(setup, selection, old(journal), cycles, spent);
      TakenIsRecorded(setup, selection, old(journal), cycles, spent);
      if old(Stranded(journal)) { StrandedHasNoHistory(setup, selection, old(journal), cycles, spent); }
    }

    method RunCycles(cycles: seq<Cycle>) returns (stop: StopReason, taken: nat, ghost spent: seq<bool>)
      requires Valid() && budget.InvocationLog() == [] && budget.IssueLog() == []
      modifies this, budget, budget.clock
      ensures Valid()
      ensures budget.limits.perDay > 0 ==> AtMostPerWindow(budget.IssueLog(), budget.limits.perDay, DAY)
      ensures budget.limits.perHour > 0 ==> AtMostPerWindow(budget.InvocationLog(), budget.limits.perHour - 1 + WorstCase(setup), HOUR)
      ensures taken == |budget.IssueLog()| && (setup.maxIssues > 0 ==> taken <= setup.maxIssues)
      ensures |spent| <= |cycles| && (stop == AskedToStop ==> |spent| == |cycles|)
      ensures var last := PlaySession(setup, selection, old(journal), cycles, spent);
              journal == last.runs && taken == last.session.taken && last.stop == if stop == AskedToStop then None else Some(stop)
      ensures old(Stranded(journal)) ==>
                stop == AskedToStop && journal == old(journal) && budget.InvocationLog() == [] && budget.IssueLog() == []
    {
      var session := Session([], 0, 0);
      spent := [];
      var i := 0;
      while i < |cycles|
        invariant 0 <= i <= |cycles| && |spent| == i
        invariant Valid() && Paced()
        invariant PlaySession(setup, selection, old(journal), cycles, spent) == State(journal, None, session)
        invariant session.taken == |budget.IssueLog()| && (setup.maxIssues > 0 ==> session.taken <= setup.maxIssues)
        invariant old(Stranded(journal)) ==> journal == old(journal) && budget.InvocationLog() == [] && budget.IssueLog() == []
      {
        var halted;
        ghost var asked;
        ghost var runs, before := journal, session;
        halted, session, asked := RunCycle(cycles[i], session);
        CeilingHolds(setup, selection, runs, cycles[i], before, asked);
        i := i + 1;
        assert (spent + [asked])[..|spent|] == spent;
        spent := spent + [asked];
        if halted.Some? {
          WindowsHold();
          return halted.value, session.taken, spent;
        }
      }
      WindowsHold();
      stop, taken := AskedToStop, session.taken;
    }

    lemma {:induction false} WindowsHold()
      requires setup.Usable() && budget.Valid() && Paced()
      ensures budget.limits.perDay > 0 ==> AtMostPerWindow(budget.IssueLog(), budget.limits.perDay, DAY)
      ensures budget.limits.perHour > 0 ==> AtMostPerWindow(budget.InvocationLog(), budget.limits.perHour - 1 + WorstCase(setup), HOUR)
    {
      WorstCaseIsPositive(setup);
      SpacedWindows(budget.IssueLog(), budget.limits.perDay, 1, DAY);
      SpacedWindows(budget.InvocationLog(), budget.limits.perHour, WorstCase(setup), HOUR);
    }
  }
}
