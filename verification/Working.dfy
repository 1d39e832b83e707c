/**
 One issue from claim to pull request, as a function of what the outside world answers: the record it
 leaves in the journal, how it ends, and what it costs.
 */
module Working {
  import opened Options
  import opened Journals
  import opened Rounds

  /**
   Answers to one attempt at an issue.  `claimed`, `told` and `handedOver` say whether the label and
   comment calls of the claim, of giving up and of publication went through; otherwise they threw.
   */
  datatype WorkAnswers = WorkAnswers(
    claimed: bool, prepared: bool, installed: Answer<bool>, rounds: nat -> Round, told: bool,
    pushed: bool, existing: Answer<Option<nat>>, created: Answer<nat>, handedOver: bool)

  /** `Cut` is an exception, which leaves the journal as last saved. */
  datatype WorkEnd = Cut | GaveUp | Opened | Updated

  function Fresh(issue: nat): RunRecord {
    RunRecord(issue, InProgress, 0, 0, 0, None, None, [])
  }

  /** The record a claim starts from: whatever the journal still holds for the issue, back in progress. */
  function Claimed(runs: seq<RunRecord>, issue: nat): (r: RunRecord)
    ensures r.issue == issue && r.status == InProgress
  {
    var found := FindRun(runs, issue);
    (if found.Some? then found.value else Fresh(issue)).(status := InProgress)
  }

  // ---------------------------------------------------------------- The bounded loop of rounds

  /** How each round ends, the record it saves, and the model invocations it starts. */
  datatype Course = Course(verdict: nat -> RoundEnd, saved: nat -> RunRecord -> RunRecord, spent: nat -> nat)

  function CourseOf(s: Setup, labels: seq<string>, rounds: nat -> Round): Course
    requires s.Usable()
  {
    Course(
      (k: nat) => Judge(s, labels, rounds(k), k + 1 >= s.codingRounds),
      (k: nat) => record => SavedAfter(s, labels, rounds(k), k, record),
      (k: nat) => Spent(s, labels, rounds(k)))
  }

  /** `c` is the course of these rounds. */
  ghost predicate Runs(c: Course, s: Setup, labels: seq<string>, rounds: nat -> Round)
    requires s.Usable()
  {
    forall k: nat {:trigger rounds(k)} ::
      && c.verdict(k) == Judge(s, labels, rounds(k), k + 1 >= s.codingRounds)
      && c.spent(k) == Spent(s, labels, rounds(k))
      && forall record {:trigger c.saved(k)(record)} :: c.saved(k)(record) == SavedAfter(s, labels, rounds(k), k, record)
  }

  lemma {:induction false} CourseRuns(s: Setup, labels: seq<string>, rounds: nat -> Round)
    requires s.Usable()
    ensures Runs(CourseOf(s, labels, rounds), s, labels, rounds)
  {
  }

  /** The round at which the loop stops: the first that does not ask for another. */
  function LastRound(c: Course, round: nat, limit: nat): (n: nat)
    requires round < limit
    ensures round <= n < limit
    decreases limit - round
  {
    if round + 1 < limit && c.verdict(round) == Again then LastRound(c, round + 1, limit) else round
  }

  lemma {:induction false} EarlierRoundsAskAgain(c: Course, round: nat, limit: nat, k: nat)
    requires round < limit && round <= k < LastRound(c, round, limit)
    ensures c.verdict(k) == Again
    decreases limit - round
  {
    if round < k { EarlierRoundsAskAgain(c, round + 1, limit, k); }
  }

  lemma {:induction false} LastRoundStops(c: Course, round: nat, limit: nat)
    requires round < limit
    ensures LastRound(c, round, limit) + 1 < limit ==> c.verdict(LastRound(c, round, limit)) != Again
    decreases limit - round
  {
    if round + 1 < limit && c.verdict(round) == Again { LastRoundStops(c, round + 1, limit); }
  }

  /** The record saved once rounds `start` to `end` - 1 are over. */
  function RecordThrough(c: Course, record: RunRecord, start: nat, end: nat): RunRecord
    decreases end
  {
    if end <= start then record else c.saved(end - 1)(RecordThrough(c, record, start, end - 1))
  }

  function SpentThrough(c: Course, start: nat, end: nat): nat
    decreases end
  {
    if end <= start then 0 else SpentThrough(c, start, end - 1) + c.spent(end - 1)
  }

  // ---------------------------------------------------------------- The whole attempt

  function GiveUp(w: WorkAnswers, record: RunRecord): (RunRecord, WorkEnd) {
    (record.(status := Blocked), if w.told then GaveUp else Cut)
  }

  /** The open pull request of the branch if there is one, otherwise a new one. */
  function PullRequest(w: WorkAnswers): Answer<(nat, WorkEnd)> {
    if w.existing.Threw? then Threw
    else if w.existing.value.Some? then Gave((w.existing.value.value, Updated))
    else if w.created.Threw? then Threw
    else Gave((w.created.value, Opened))
  }

  function Published(record: RunRecord, pullRequest: nat): RunRecord {
    AppendAttempt(record, Attempt(Publish, Ok)).(status := AwaitingReview, pullRequest := Some(pullRequest))
  }

  function Deliver(w: WorkAnswers, record: RunRecord): (RunRecord, WorkEnd) {
    if !w.pushed then GiveUp(w, record)
    else
      match PullRequest(w)
      case Threw => (record, Cut)
      case Gave(p) => (Published(record, p.0), if w.handedOver then p.1 else Cut)
  }

  function Conclude(w: WorkAnswers, end: RoundEnd, record: RunRecord): (RunRecord, WorkEnd) {
    match end
    case Settles => Deliver(w, record)
    case Interrupted => (record, Cut)
    case _ => GiveUp(w, record)
  }

  predicate Starts(w: WorkAnswers, start: nat, limit: nat) {
    w.prepared && w.installed == Gave(true) && start < limit
  }

  /** The record left behind by work on a claimed issue, and how it ends. */
  function Work(c: Course, w: WorkAnswers, record: RunRecord, start: nat, limit: nat): (RunRecord, WorkEnd) {
    if w.prepared && w.installed.Threw? then (record, Cut)
    else if !Starts(w, start, limit) then GiveUp(w, record)
    else
      var n := LastRound(c, start, limit);
      Conclude(w, c.verdict(n), RecordThrough(c, record, start, n + 1))
  }

  /** Model invocations that work starts. */
  function WorkSpent(c: Course, w: WorkAnswers, start: nat, limit: nat): nat {
    if !Starts(w, start, limit) then 0 else SpentThrough(c, start, LastRound(c, start, limit) + 1)
  }

  // ---------------------------------------------------------------- What work keeps and what it costs

  /** What every course of rounds has in common. */
  ghost predicate Bounded(c: Course, limit: nat, cost: nat) {
    && (forall k: nat :: k + 1 >= limit ==> c.verdict(k) != Again)
    && (forall k: nat :: c.spent(k) <= cost)
    && (forall k: nat, record :: KeepsCounters(record, c.saved(k)(record)) && c.saved(k)(record).fixRounds in {record.fixRounds, k})
  }

  lemma {:induction false} CoursesAreBounded(s: Setup, labels: seq<string>, rounds: nat -> Round)
    requires s.Usable()
    ensures Bounded(CourseOf(s, labels, rounds), s.codingRounds, RoundCost(s))
  {
    var c := CourseOf(s, labels, rounds);
    forall k: nat ensures c.spent(k) <= RoundCost(s) { SpentAtMost(s, labels, rounds(k)); }
    forall k: nat, record: RunRecord ensures KeepsCounters(record, c.saved(k)(record)) && c.saved(k)(record).fixRounds in {record.fixRounds, k} {
      AnsweredRoundIsSpent(s, labels, rounds(k), k, record, true);
    }
    forall k: nat | k + 1 >= s.codingRounds ensures c.verdict(k) != Again {
      AnsweredRoundIsSpent(s, labels, rounds(k), k, Fresh(0), true);
    }
  }

  lemma {:induction false} RecordThroughKeeps(c: Course, limit: nat, cost: nat, record: RunRecord, start: nat, end: nat)
    requires Bounded(c, limit, cost)
    ensures KeepsCounters(record, RecordThrough(c, record, start, end))
    ensures RecordThrough(c, record, start, end).fixRounds == record.fixRounds || start <= RecordThrough(c, record, start, end).fixRounds < end
    decreases end
  {
    if end > start { RecordThroughKeeps(c, limit, cost, record, start, end - 1); }
  }

  /** How a record may differ after work that ended in `end`. */
  ghost predicate Follows(record: RunRecord, start: nat, limit: nat, r: RunRecord, end: WorkEnd) {
    && r.issue == record.issue && r.ciRounds == record.ciRounds && r.conflictRounds == record.conflictRounds
    && (r.fixRounds == record.fixRounds || start <= r.fixRounds < limit)
    && (end == GaveUp ==> r.status == Blocked)
    && (end == Opened || end == Updated ==> r.status == AwaitingReview)
    && (r.status == AwaitingReview ==> r.pullRequest.Some?)
    && (r.status == InProgress ==> end == Cut && r.pullRequest == record.pullRequest)
    && r.status != Done
  }

  /** Work leaves the counters of red CI and conflicts alone, and an issue in progress only when it was cut short. */
  lemma {:induction false} WorkKeepsCounters(c: Course, w: WorkAnswers, record: RunRecord, start: nat, limit: nat, cost: nat)
    requires Bounded(c, limit, cost) && record.status == InProgress
    ensures Follows(record, start, limit, Work(c, w, record, start, limit).0, Work(c, w, record, start, limit).1)
  {
    if Starts(w, start, limit) { RecordThroughKeeps(c, limit, cost, record, start, LastRound(c, start, limit) + 1); }
  }

  /** An issue awaits review exactly when a round settled after others that only asked for another, the push worked and a pull request carries it. */
  lemma {:induction false} PublishedIffSettled(c: Course, w: WorkAnswers, record: RunRecord, start: nat, limit: nat, cost: nat)
    requires Bounded(c, limit, cost) && record.status == InProgress
    ensures Work(c, w, record, start, limit).0.status == AwaitingReview <==>
              && Starts(w, start, limit) && w.pushed && PullRequest(w).Gave?
              && c.verdict(LastRound(c, start, limit)) == Settles
  {
    if Starts(w, start, limit) { RecordThroughKeeps(c, limit, cost, record, start, LastRound(c, start, limit) + 1); }
  }

  /** Round `n` is safe to publish, and every earlier one only asked for another. */
  ghost predicate ReachesPush(s: Setup, labels: seq<string>, w: WorkAnswers, start: nat, n: nat)
    requires s.Usable()
  {
    && Starts(w, start, s.codingRounds) && start <= n < s.codingRounds
    && SafeToPublish(s, labels, w.rounds(n))
    && forall k | start <= k < n :: Judge(s, labels, w.rounds(k), false) == Again
  }

  lemma {:induction false} SettledIsSafe(s: Setup, labels: seq<string>, w: WorkAnswers, start: nat, n: nat, c: Course)
    requires s.Usable() && c == CourseOf(s, labels, w.rounds) && Starts(w, start, s.codingRounds) && n == LastRound(c, start, s.codingRounds)
    ensures c.verdict(n) == Settles <==> ReachesPush(s, labels, w, start, n)
  {
    SettlesIffSafe(s, labels, w.rounds(n), n + 1 >= s.codingRounds);
    forall k | start <= k < n ensures Judge(s, labels, w.rounds(k), false) == Again { EarlierRoundsAskAgain(c, start, s.codingRounds, k); }
  }

  lemma {:induction false} OnlyTheLastIsSafe(s: Setup, labels: seq<string>, w: WorkAnswers, start: nat, n: nat, m: nat, c: Course)
    requires s.Usable() && c == CourseOf(s, labels, w.rounds) && Starts(w, start, s.codingRounds) && n == LastRound(c, start, s.codingRounds)
    requires ReachesPush(s, labels, w, start, m)
    ensures m == n
  {
    SettlesIffSafe(s, labels, w.rounds(m), m + 1 >= s.codingRounds);
    assert c.verdict(m) == Settles;
    if m < n { EarlierRoundsAskAgain(c, start, s.codingRounds, m); }
    LastRoundStops(c, start, s.codingRounds);
    assert n < m ==> c.verdict(n) == Again;
  }

  /** An issue awaits review exactly when some round reached the push, the push worked and a pull request carries the branch. */
  lemma {:induction false} PublishedIffSafe(s: Setup, labels: seq<string>, w: WorkAnswers, record: RunRecord, start: nat, c: Course)
    requires s.Usable() && c == CourseOf(s, labels, w.rounds) && record.status == InProgress
    ensures Work(c, w, record, start, s.codingRounds).0.status == AwaitingReview <==>
              (exists n :: ReachesPush(s, labels, w, start, n)) && w.pushed && PullRequest(w).Gave?
  {
    CoursesAreBounded(s, labels, w.rounds);
    PublishedIffSettled(c, w, record, start, s.codingRounds, RoundCost(s));
    if Starts(w, start, s.codingRounds) {
      var n := LastRound(c, start, s.codingRounds);
      SettledIsSafe(s, labels, w, start, n, c);
      if m :| ReachesPush(s, labels, w, start, m) { OnlyTheLastIsSafe(s, labels, w, start, n, m, c); }
    }
  }

  // ---------------------------------------------------------------- How work ends, from the answers

  /** An exception cuts the work short of both giving up and publication. */
  ghost predicate Throws(c: Course, w: WorkAnswers, start: nat, limit: nat) {
    || (w.prepared && w.installed.Threw?)
    || (&& Starts(w, start, limit)
        && var verdict := c.verdict(LastRound(c, start, limit));
           verdict == Interrupted || (verdict == Settles && w.pushed && PullRequest(w).Threw?))
  }

  ghost predicate Publishes(c: Course, w: WorkAnswers, start: nat, limit: nat) {
    Starts(w, start, limit) && w.pushed && PullRequest(w).Gave? && c.verdict(LastRound(c, start, limit)) == Settles
  }

  /** Three ways to leave the record, and when telling the host about it is what throws. */
  lemma {:induction false} WorkEndsOneOfThreeWays(c: Course, w: WorkAnswers, record: RunRecord, start: nat, limit: nat, cost: nat)
    requires Bounded(c, limit, cost) && record.status == InProgress
    ensures var (r, end) := Work(c, w, record, start, limit);
            && (r.status == InProgress <==> Throws(c, w, start, limit))
            && (r.status == AwaitingReview <==> Publishes(c, w, start, limit))
            && (r.status == Blocked <==> !Throws(c, w, start, limit) && !Publishes(c, w, start, limit))
            && (end == GaveUp <==> r.status == Blocked && w.told)
            && (end in {Opened, Updated} <==> r.status == AwaitingReview && w.handedOver)
  {
    if Starts(w, start, limit) { RecordThroughKeeps(c, limit, cost, record, start, LastRound(c, start, limit) + 1); }
  }

  /** Round `n` is handed out and an exception ends it; every earlier one only asked for another. */
  ghost predicate BreaksOff(s: Setup, labels: seq<string>, w: WorkAnswers, start: nat, n: nat)
    requires s.Usable()
  {
    && Starts(w, start, s.codingRounds) && start <= n < s.codingRounds
    && RoundThrows(s, labels, w.rounds(n))
    && forall k | start <= k < n :: Judge(s, labels, w.rounds(k), false) == Again
  }

  /** The calls that can cut work short: installing, anything inside a round, and finding or creating the pull request. */
  ghost predicate CutShort(s: Setup, labels: seq<string>, w: WorkAnswers, start: nat)
    requires s.Usable()
  {
    || (w.prepared && w.installed.Threw?)
    || (exists n :: BreaksOff(s, labels, w, start, n))
    || (w.pushed && PullRequest(w).Threw? && exists n :: ReachesPush(s, labels, w, start, n))
  }

  lemma {:induction false} InterruptedBreaksOff(s: Setup, labels: seq<string>, w: WorkAnswers, start: nat, n: nat, c: Course)
    requires s.Usable() && c == CourseOf(s, labels, w.rounds) && Starts(w, start, s.codingRounds) && n == LastRound(c, start, s.codingRounds)
    ensures c.verdict(n) == Interrupted <==> BreaksOff(s, labels, w, start, n)
  {
    InterruptedIff(s, labels, w.rounds(n), n + 1 >= s.codingRounds);
    forall k | start <= k < n ensures Judge(s, labels, w.rounds(k), false) == Again { EarlierRoundsAskAgain(c, start, s.codingRounds, k); }
  }

  lemma {:induction false} OnlyTheLastBreaksOff(s: Setup, labels: seq<string>, w: WorkAnswers, start: nat, n: nat, m: nat, c: Course)
    requires s.Usable() && c == CourseOf(s, labels, w.rounds) && Starts(w, start, s.codingRounds) && n == LastRound(c, start, s.codingRounds)
    requires BreaksOff(s, labels, w, start, m)
    ensures m == n
  {
    InterruptedIff(s, labels, w.rounds(m), m + 1 >= s.codingRounds);
    assert c.verdict(m) == Interrupted;
    if m < n { EarlierRoundsAskAgain(c, start, s.codingRounds, m); }
    LastRoundStops(c, start, s.codingRounds);
    assert n < m ==> c.verdict(n) == Again;
  }

  lemma {:induction false} ThrowsIffCutShort(s: Setup, labels: seq<string>, w: WorkAnswers, start: nat, c: Course)
    requires s.Usable() && c == CourseOf(s, labels, w.rounds)
    ensures Throws(c, w, start, s.codingRounds) <==> CutShort(s, labels, w, start)
  {
    if Starts(w, start, s.codingRounds) {
      var n := LastRound(c, start, s.codingRounds);
      InterruptedBreaksOff(s, labels, w, start, n, c);
      if m :| BreaksOff(s, labels, w, start, m) { OnlyTheLastBreaksOff(s, labels, w, start, n, m, c); }
      SettledIsSafe(s, labels, w, start, n, c);
      if m :| ReachesPush(s, labels, w, start, m) { OnlyTheLastIsSafe(s, labels, w, start, n, m, c); }
    }
  }

  // ---------------------------------------------------------------- Which round comes next

  lemma {:induction false} AnsweredThrough(s: Setup, labels: seq<string>, rounds: nat -> Round, c: Course, record: RunRecord, start: nat, end: nat)
    requires s.Usable() && c == CourseOf(s, labels, rounds) && start <= end
    requires forall k | start <= k < end :: rounds(k).coded.Gave?
    ensures RecordThrough(c, record, start, end).fixRounds == if end > start then end - 1 else record.fixRounds
    decreases end
  {
    if end > start {
      AnsweredThrough(s, labels, rounds, c, record, start, end - 1);
      AnsweredRoundIsSpent(s, labels, rounds(end - 1), end - 1, RecordThrough(c, record, start, end - 1), true);
    }
  }

  /** The last round handed out is on record exactly when the agent answered it; a call that threw leaves the round before. */
  lemma {:induction false} LastAnsweredIsOnRecord(s: Setup, labels: seq<string>, w: WorkAnswers, record: RunRecord, start: nat, c: Course, n: nat)
    requires s.Usable() && c == CourseOf(s, labels, w.rounds) && Starts(w, start, s.codingRounds) && n == LastRound(c, start, s.codingRounds)
    ensures Work(c, w, record, start, s.codingRounds).0.fixRounds ==
            if w.rounds(n).coded.Gave? then n else if n > start then n - 1 else record.fixRounds
  {
    forall k | start <= k < n ensures w.rounds(k).coded.Gave? {
      EarlierRoundsAskAgain(c, start, s.codingRounds, k);
      AnsweredRoundIsSpent(s, labels, w.rounds(k), k, record, k + 1 >= s.codingRounds);
    }
    var before := RecordThrough(c, record, start, n);
    AnsweredThrough(s, labels, w.rounds, c, record, start, n);
    AnsweredRoundIsSpent(s, labels, w.rounds(n), n, before, true);
    assert RecordThrough(c, record, start, n + 1) == c.saved(n)(before);
    ConcludingKeepsTheRound(w, c.verdict(n), c.saved(n)(before));
  }

  lemma {:induction false} ConcludingKeepsTheRound(w: WorkAnswers, end: RoundEnd, record: RunRecord)
    ensures Conclude(w, end, record).0.fixRounds == record.fixRounds
  {
  }

  /** A first call that throws costs its invocation and leaves the record exactly as it was. */
  lemma {:induction false} ThrowingCallLeavesTheRecord(s: Setup, labels: seq<string>, w: WorkAnswers, record: RunRecord, start: nat, c: Course)
    requires s.Usable() && Runs(c, s, labels, w.rounds) && Starts(w, start, s.codingRounds) && w.rounds(start).coded.Threw?
    ensures Work(c, w, record, start, s.codingRounds) == (record, Cut) && WorkSpent(c, w, start, s.codingRounds) == 1
  {
    assert c.verdict(start) == Interrupted && c.spent(start) == 1 && c.saved(start)(record) == record;
    assert LastRound(c, start, s.codingRounds) == start;
    assert RecordThrough(c, record, start, start + 1) == c.saved(start)(RecordThrough(c, record, start, start));
    assert SpentThrough(c, start, start + 1) == SpentThrough(c, start, start) + c.spent(start);
  }

  // ---------------------------------------------------------------- One pull request, and the cost

  /** An issue never gets a second pull request while its branch has an open one; without one it gets the one just created. */
  lemma {:induction false} ReusesThePullRequest(c: Course, w: WorkAnswers, record: RunRecord, start: nat, limit: nat, cost: nat, unused: Answer<nat>)
    requires Bounded(c, limit, cost) && record.status == InProgress
    ensures w.existing.Gave? && w.existing.value.Some? ==>
              && Work(c, w, record, start, limit) == Work(c, w.(created := unused), record, start, limit)
              && (Work(c, w, record, start, limit).0.status == AwaitingReview ==> Work(c, w, record, start, limit).0.pullRequest == w.existing.value)
    ensures Work(c, w, record, start, limit).0.status == AwaitingReview && w.existing == Gave(None) ==>
              w.created.Gave? && Work(c, w, record, start, limit).0.pullRequest == Some(w.created.value)
  {
    if Starts(w, start, limit) { RecordThroughKeeps(c, limit, cost, record, start, LastRound(c, start, limit) + 1); }
  }

  lemma {:induction false} SpentThroughAtMost(c: Course, limit: nat, cost: nat, start: nat, end: nat)
    requires Bounded(c, limit, cost) && start <= end
    ensures SpentThrough(c, start, end) <= (end - start) * cost
    decreases end
  {
    if end > start {
      SpentThroughAtMost(c, limit, cost, start, end - 1);
      assert (end - start) * cost == (end - 1 - start) * cost + cost;
    }
  }

  lemma {:induction false} WorkSpentWithin(c: Course, w: WorkAnswers, start: nat, limit: nat, cost: nat)
    requires Bounded(c, limit, cost) && start <= limit
    ensures WorkSpent(c, w, start, limit) <= (limit - start) * cost
  {
    if Starts(w, start, limit) {
      var n := LastRound(c, start, limit);
      SpentThroughAtMost(c, limit, cost, start, n + 1);
      MoreCostsMore(n + 1 - start, limit - start, cost);
    }
  }

  /** The most invocations one attempt at an issue can start, from any round. */
  function WorstCase(s: Setup): nat {
    s.codingRounds * RoundCost(s)
  }

  lemma {:induction false} WorstCaseIsPositive(s: Setup)
    requires s.Usable()
    ensures WorstCase(s) > 0
  {
    MoreCostsMore(1, s.codingRounds, RoundCost(s));
  }

  /** Rounds already spent are not paid for again: at most one coding call and every reviewer at every retry for each round left. */
  lemma {:induction false} WorkSpentAtMost(s: Setup, labels: seq<string>, w: WorkAnswers, start: nat, c: Course)
    requires s.Usable() && c == CourseOf(s, labels, w.rounds)
    ensures start <= s.codingRounds ==> WorkSpent(c, w, start, s.codingRounds) <= (s.codingRounds - start) * RoundCost(s)
    ensures WorkSpent(c, w, start, s.codingRounds) <= WorstCase(s)
  {
    CoursesAreBounded(s, labels, w.rounds);
    if start <= s.codingRounds {
      WorkSpentWithin(c, w, start, s.codingRounds, RoundCost(s));
      MoreCostsMore(s.codingRounds - start, s.codingRounds, RoundCost(s));
    }
  }

  // ---------------------------------------------------------------- Rounds given to the coding agent

  /** Strictly increasing, and all below the bound. */
  ghost predicate Ascends(given: seq<nat>, bound: nat) {
    var n := |given| - 1;
    given != [] ==> given[n] < bound && Ascends(given[..n], given[n])
  }

  lemma {:induction false} AscendsFurther(given: seq<nat>, round: nat)
    requires Ascends(given, round)
    ensures Ascends(given + [round], round + 1)
  {
    assert (given + [round])[..|given|] == given;
  }

  lemma {:induction false} AscendsMeans(given: seq<nat>, bound: nat)
    requires Ascends(given, bound)
    ensures forall i, j | 0 <= i < j < |given| :: given[i] < given[j]
    ensures forall i | 0 <= i < |given| :: given[i] < bound
  {
    if given != [] { AscendsMeans(given[..|given| - 1], given[|given| - 1]); }
  }
}
