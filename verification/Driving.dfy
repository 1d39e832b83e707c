/**
 What the runner does next, decided from its journal and the host's answers: resume the issue in
 flight, claim another, or move an open pull request forward.
 */
module Driving {
  import opened Options
  import opened Journals
  import opened Rounds
  import opened Working
  import Selection

  datatype PullState = OpenPull | MergedPull | ClosedPull

  datatype Mergeability = Clean | Behind | Conflicted | Held | Unknown

  datatype Checks = NoChecks | Pending | Failing | Passing

  /** The host's answers about one pull request; `updated` and `told` say whether those calls went through. */
  datatype PullAnswers = PullAnswers(
    state: Answer<PullState>, mergeability: Answer<Mergeability>, updated: bool, checks: Checks, told: bool)

  datatype OnceAnswers = OnceAnswers(
    pull: PullAnswers, labels: Answer<seq<string>>, issues: Answer<seq<Selection.Issue>>, work: WorkAnswers)

  // ---------------------------------------------------------------- One issue at a time

  datatype OnceEnd = Broke | Waiting | NothingReady | Worked(issue: nat, end: WorkEnd)

  datatype Next = Stop(end: OnceEnd) | Take(issue: nat, labels: seq<string>, start: nat, claims: bool)

  /** Whether an in-flight run has work left that this machine can do. */
  function Resumable(s: Setup, record: RunRecord, a: PullAnswers): Answer<bool> {
    if record.pullRequest.None? then Gave(true)
    else if a.state.Threw? then Threw
    else if a.state.value != OpenPull then Gave(false)
    else if a.mergeability.Threw? then Threw
    else if a.mergeability.value == Conflicted then Gave(record.conflictRounds < s.conflictRounds)
    else Gave(a.checks == Failing && record.ciRounds + 1 < s.ciRounds)
  }

  /** Resume what is in flight; otherwise claim the next eligible issue. */
  function NextWork(s: Setup, p: Selection.SelectionPolicy, runs: seq<RunRecord>, a: OnceAnswers): Next {
    var outstanding := InFlight(runs);
    if outstanding != [] then
      match Resumable(s, outstanding[0], a.pull)
      case Threw => Stop(Broke)
      case Gave(actionable) =>
        if !actionable then Stop(Waiting)
        else if a.labels.Threw? then Stop(Broke)
        else Take(outstanding[0].issue, a.labels.value, outstanding[0].fixRounds + 1, false)
    else if a.issues.Threw? then Stop(Broke)
    else
      match Selection.SelectNextIssue(a.issues.value, p)
      case None => Stop(NothingReady)
      case Some(i) => Take(i.number, i.labels, 0, true)
  }

  /** The claim of some next work went through, and this is what the work made of it. */
  function WorkOn(s: Setup, next: Next, runs: seq<RunRecord>, w: WorkAnswers): (RunRecord, WorkEnd)
    requires s.Usable() && next.Take?
  {
    Work(CourseOf(s, next.labels, w.rounds), w, Claimed(runs, next.issue), next.start, s.codingRounds)
  }

  function After(s: Setup, next: Next, runs: seq<RunRecord>, w: WorkAnswers): (seq<RunRecord>, OnceEnd)
    requires s.Usable()
  {
    if next.Stop? then (runs, next.end)
    else if !w.claimed then (runs, Broke)
    else
      var done := WorkOn(s, next, runs, w);
      (UpsertRun(runs, done.0), if done.1 == Cut then Broke else Worked(next.issue, done.1))
  }

  function SpentOn(s: Setup, next: Next, w: WorkAnswers): nat
    requires s.Usable()
  {
    if next.Stop? || !w.claimed then 0 else WorkSpent(CourseOf(s, next.labels, w.rounds), w, next.start, s.codingRounds)
  }

  // ---------------------------------------------------------------- Open pull requests

  datatype Action =
    | NothingToDo | WaitingForCi | FixingCi | Conflict | UpdatedBranch | AwaitingMerge | Merged | ClosedUnmerged | RetriesExhausted

  /** The host still holds the pull request open, and its checks are what decides. */
  predicate ChecksDecide(record: RunRecord, a: PullAnswers) {
    && record.pullRequest.Some? && a.state == Gave(OpenPull) && a.mergeability.Gave?
    && a.mergeability.value != Conflicted && !(a.mergeability.value == Behind && a.updated)
  }

  predicate SeesRed(record: RunRecord, a: PullAnswers) {
    ChecksDecide(record, a) && a.checks == Failing
  }

  predicate Exhausted(s: Setup, record: RunRecord) {
    record.ciRounds + 1 >= s.ciRounds
  }

  function Drive(s: Setup, record: RunRecord, a: PullAnswers): Answer<Action> {
    if record.pullRequest.None? then Gave(NothingToDo)
    else if a.state.Threw? then Threw
    else if a.state.value == MergedPull then Gave(Merged)
    else if a.state.value == ClosedPull then Gave(ClosedUnmerged)
    else if a.mergeability.Threw? then Threw
    else if a.mergeability.value == Behind && a.updated then Gave(UpdatedBranch)
    else if a.mergeability.value == Conflicted then Gave(Conflict)
    else match a.checks
      case Pending => Gave(WaitingForCi)
      case NoChecks => Gave(WaitingForCi)
      case Passing => Gave(AwaitingMerge)
      case Failing => if !Exhausted(s, record) then Gave(FixingCi) else if a.told then Gave(RetriesExhausted) else Threw
  }

  /** The record as the journal holds it afterwards. */
  function Driven(s: Setup, record: RunRecord, a: PullAnswers): RunRecord {
    if record.pullRequest.Some? && a.state.Gave? && a.state.value != OpenPull then record.(status := Done)
    else if !SeesRed(record, a) then record
    else if Exhausted(s, record) then record.(status := Blocked)
    else record.(ciRounds := record.ciRounds + 1)
  }

  // ---------------------------------------------------------------- What every step keeps

  predicate HeadInFlight(runs: seq<RunRecord>) {
    runs != [] && IsInFlight(runs[0])
  }

  /**
   The journal is sound, and the rounds the agent answered and the red checks seen since the claim are all
   accounted for in the head record, so that neither a restart nor a resumption forgets one of them.
   */
  ghost predicate Accounted(s: Setup, runs: seq<RunRecord>, given: seq<nat>, reds: nat) {
    && Sound(runs) && Ascends(given, s.codingRounds) && reds <= s.ciRounds
    && (HeadInFlight(runs) ==> Ascends(given, runs[0].fixRounds + 1) && reds <= runs[0].ciRounds && reds < s.ciRounds)
  }

  lemma {:induction false} InFlightIsHead(runs: seq<RunRecord>)
    requires Sound(runs)
    ensures InFlight(runs) == if HeadInFlight(runs) then [runs[0]] else []
    ensures HeadInFlight(runs) ==> Exclusive(runs, runs[0].issue)
  {
    if HeadInFlight(runs) { SoundIsExclusive(runs, runs[0]); }
  }

  /** The work taken next is exclusive: nothing else is in flight, and a resumed record is found as it was left. */
  lemma {:induction false} NextIsExclusive(s: Setup, p: Selection.SelectionPolicy, runs: seq<RunRecord>, a: OnceAnswers, next: Next)
    requires Sound(runs) && next == NextWork(s, p, runs, a) && next.Take?
    ensures Exclusive(runs, next.issue)
    ensures next.claims <==> !HeadInFlight(runs)
    ensures !next.claims ==> Claimed(runs, next.issue) == runs[0].(status := InProgress) && next.start == runs[0].fixRounds + 1
    ensures next.claims ==> next.start == 0
  {
    InFlightIsHead(runs);
    if HeadInFlight(runs) { FoundIsUnique(runs, runs[0]); } else { NothingInFlight(runs, next.issue); }
  }

  /** A save for the one issue at hand keeps the account, if the record accounts for everything since its claim. */
  lemma {:induction false} SaveKeepsAccount(s: Setup, runs: seq<RunRecord>, r: RunRecord, given: seq<nat>, reds: nat)
    requires Sound(runs) && Exclusive(runs, r.issue) && Ascends(given, s.codingRounds) && reds <= s.ciRounds
    requires IsInFlight(r) ==> Ascends(given, r.fixRounds + 1) && reds <= r.ciRounds && reds < s.ciRounds
    ensures Accounted(s, UpsertRun(runs, r), given, reds)
  {
    UpsertKeepsSound(runs, r);
  }

  /** A stranded run, in flight without a pull request, is one that `NextWork` would resume at once. */
  ghost predicate Stranded(runs: seq<RunRecord>) {
    HeadInFlight(runs) && runs[0].pullRequest.None?
  }

  /** Driving leaves a stranded run as it is, whatever the host answers, although it could be resumed. */
  lemma {:induction false} StrandedIsResumable(s: Setup, p: Selection.SelectionPolicy, runs: seq<RunRecord>, a: OnceAnswers)
    requires Sound(runs) && Stranded(runs)
    ensures Drive(s, runs[0], a.pull) == Gave(NothingToDo) && Driven(s, runs[0], a.pull) == runs[0]
    ensures a.labels.Gave? ==> NextWork(s, p, runs, a) == Take(runs[0].issue, a.labels.value, runs[0].fixRounds + 1, false)
  {
    InFlightIsHead(runs);
  }

  /** Driving a pull request spends a CI round for every red it sees, and the last one blocks the issue. */
  lemma {:induction false} RedsAreSpent(s: Setup, runs: seq<RunRecord>, given: seq<nat>, reds: nat, a: PullAnswers, r: RunRecord)
    requires s.Usable() && Accounted(s, runs, given, reds) && HeadInFlight(runs) && r == Driven(s, runs[0], a)
    ensures Accounted(s, UpsertRun(runs, r), given, if SeesRed(runs[0], a) then reds + 1 else reds)
    ensures SeesRed(runs[0], a) && reds + 1 == s.ciRounds ==> r.status == Blocked
  {
    InFlightIsHead(runs);
    SaveKeepsAccount(s, runs, r, given, if SeesRed(runs[0], a) then reds + 1 else reds);
  }

  /** The answer of a step tells what the journal now holds: finished, blocked, one CI round more, or the same record. */
  lemma {:induction false} ActionTellsTheRecord(s: Setup, record: RunRecord, a: PullAnswers, r: RunRecord)
    requires IsInFlight(record) && r == Driven(s, record, a)
    ensures Drive(s, record, a) in {Gave(Merged), Gave(ClosedUnmerged)} <==> r == record.(status := Done)
    ensures r == record.(status := Blocked) <==> SeesRed(record, a) && Exhausted(s, record)
    ensures Drive(s, record, a) == Gave(RetriesExhausted) ==> r.status == Blocked
    ensures Drive(s, record, a) == Gave(FixingCi) <==> r == record.(ciRounds := record.ciRounds + 1)
    ensures Drive(s, record, a) !in {Gave(Merged), Gave(ClosedUnmerged), Gave(FixingCi)} && !SeesRed(record, a) ==> r == record
  {
    assert record.(status := Done).status != record.status && record.(status := Blocked).status != record.status;
  }

  /** Where the checks decide, a red run is resumed exactly when driving would leave it a round to spend. */
  lemma {:induction false} RedIsResumedIffARoundIsLeft(s: Setup, record: RunRecord, a: PullAnswers)
    requires ChecksDecide(record, a)
    ensures Resumable(s, record, a) == Gave(true) <==> Drive(s, record, a) == Gave(FixingCi)
  {
  }

  // ---------------------------------------------------------------- What a claim can be

  lemma {:induction false} ClaimsAreNotSkipped(s: Setup, p: Selection.SelectionPolicy, runs: seq<RunRecord>, a: OnceAnswers, next: Next)
    requires next == NextWork(s, p, runs, a) && next.Take? && InFlight(runs) == []
    ensures next.issue !in p.skip
  {
    var selected := Selection.SelectNextIssue(a.issues.value, p);
    Selection.SelectionIsLeastAvailable(a.issues.value, p, selected.value);
  }

  /** A backlog of one issue, ready to be claimed. */
  function ReadyAnswers(p: Selection.SelectionPolicy, issue: nat, w: WorkAnswers): OnceAnswers {
    OnceAnswers(PullAnswers(Threw, Threw, false, NoChecks, false), Threw, Gave([Selection.ReadyIssue(p, issue)]), w)
  }

  /** Whatever work leaves awaiting review was safe to publish in the round that was pushed. */
  lemma {:induction false} PublishedIsSafe(s: Setup, next: Next, runs: seq<RunRecord>, w: WorkAnswers)
    requires s.Usable() && next.Take? && WorkOn(s, next, runs, w).0.status == AwaitingReview
    ensures exists n :: ReachesPush(s, next.labels, w, next.start, n)
  {
    PublishedIffSafe(s, next.labels, w, Claimed(runs, next.issue), next.start, CourseOf(s, next.labels, w.rounds));
  }

  lemma {:induction false} SpentOnAtMost(s: Setup, next: Next, w: WorkAnswers)
    requires s.Usable()
    ensures SpentOn(s, next, w) <= WorstCase(s)
  {
    if next.Take? { WorkSpentAtMost(s, next.labels, w, next.start, CourseOf(s, next.labels, w.rounds)); }
  }

  /** Trying `next` left its issue awaiting review. */
  ghost predicate PublishedHead(next: Next, w: WorkAnswers, after: seq<RunRecord>) {
    next.Take? && w.claimed && after != [] && after[0].issue == next.issue && after[0].status == AwaitingReview
  }

  lemma {:induction false} PublishedHeadIsSafe(s: Setup, next: Next, runs: seq<RunRecord>, w: WorkAnswers, after: seq<RunRecord>)
    requires s.Usable() && After(s, next, runs, w).0 == after && PublishedHead(next, w, after)
    ensures exists n :: ReachesPush(s, next.labels, w, next.start, n)
  {
    SavePuts(runs, WorkOn(s, next, runs, w).0);
    PublishedIsSafe(s, next, runs, w);
  }

  // ---------------------------------------------------------------- When a run is left stranded

  lemma {:induction false} WorkOnFollows(s: Setup, next: Next, runs: seq<RunRecord>, w: WorkAnswers)
    requires s.Usable() && next.Take?
    ensures Follows(Claimed(runs, next.issue), next.start, s.codingRounds, WorkOn(s, next, runs, w).0, WorkOn(s, next, runs, w).1)
  {
    CoursesAreBounded(s, next.labels, w.rounds);
    WorkKeepsCounters(CourseOf(s, next.labels, w.rounds), w, Claimed(runs, next.issue), next.start, s.codingRounds, RoundCost(s));
  }

  lemma {:induction false} WorkOnEnds(s: Setup, next: Next, runs: seq<RunRecord>, w: WorkAnswers)
    requires s.Usable() && next.Take?
    ensures var (r, end) := WorkOn(s, next, runs, w);
            && (r.status == InProgress <==> CutShort(s, next.labels, w, next.start))
            && (end == GaveUp <==> r.status == Blocked && w.told)
            && (end in {Opened, Updated} <==> r.status == AwaitingReview && w.handedOver)
            && r.status != Done
  {
    var c := CourseOf(s, next.labels, w.rounds);
    CoursesAreBounded(s, next.labels, w.rounds);
    WorkEndsOneOfThreeWays(c, w, Claimed(runs, next.issue), next.start, s.codingRounds, RoundCost(s));
    ThrowsIffCutShort(s, next.labels, w, next.start, c);
  }

  /** Some round reached the push, the push worked, and a pull request carries it. */
  ghost predicate Publishable(s: Setup, labels: seq<string>, w: WorkAnswers, start: nat)
    requires s.Usable()
  {
    w.pushed && PullRequest(w).Gave? && exists n :: ReachesPush(s, labels, w, start, n)
  }

  /** Answers to work that goes well from the first round on, and that cannot be announced if `!handedOver`. */
  function FavourableWork(diff: string, changed: seq<string>, pullRequest: nat, handedOver: bool): WorkAnswers {
    WorkAnswers(true, true, Gave(true), (_: nat) => FavourableRound(diff, changed), true, true, Gave(None), Gave(pullRequest), handedOver)
  }

  lemma {:induction false} FavourableWorkIsPublishable(s: Setup, labels: seq<string>, diff: string, changed: seq<string>, pullRequest: nat, handedOver: bool)
    requires s.Usable() && s.reviewers > 0 && s.reviewerRetries > 0
    ensures Publishable(s, labels, FavourableWork(diff, changed, pullRequest, handedOver), 0)
  {
    FavourableRoundIsSafe(s, labels, diff, changed);
    assert ReachesPush(s, labels, FavourableWork(diff, changed, pullRequest, handedOver), 0, 0);
  }

  /**
   Work on an issue ends without an exception, and only then is its claim recorded, exactly when no call cut
   it short and the host could be told how it ended.
   */
  lemma {:induction false} EndsUncutIff(s: Setup, next: Next, runs: seq<RunRecord>, w: WorkAnswers)
    requires s.Usable() && next.Take?
    ensures WorkOn(s, next, runs, w).1 != Cut <==>
              && !CutShort(s, next.labels, w, next.start)
              && if Publishable(s, next.labels, w, next.start) then w.handedOver else w.told
    ensures WorkOn(s, next, runs, w).0.status == AwaitingReview <==> Publishable(s, next.labels, w, next.start)
  {
    WorkOnEnds(s, next, runs, w);
    PublishedIffSafe(s, next.labels, w, Claimed(runs, next.issue), next.start, CourseOf(s, next.labels, w.rounds));
  }

  /** An issue without a pull request is left stranded exactly when one of the calls that can cut work short threw. */
  lemma {:induction false} StrandedIffCutShort(s: Setup, next: Next, runs: seq<RunRecord>, w: WorkAnswers)
    requires s.Usable() && next.Take? && w.claimed && Claimed(runs, next.issue).pullRequest.None?
    ensures Stranded(After(s, next, runs, w).0) <==> CutShort(s, next.labels, w, next.start)
    ensures Stranded(After(s, next, runs, w).0) ==> After(s, next, runs, w).1 == Broke
  {
    SavePuts(runs, WorkOn(s, next, runs, w).0);
    WorkOnFollows(s, next, runs, w);
    WorkOnEnds(s, next, runs, w);
  }

  /** One installation that throws is enough, whatever everything else would have answered. */
  lemma {:induction false} ThrowingInstallStrands(s: Setup, next: Next, runs: seq<RunRecord>, rounds: nat -> Round)
    requires s.Usable() && next.Take? && Claimed(runs, next.issue).pullRequest.None?
    ensures var w := WorkAnswers(true, true, Threw, rounds, true, true, Gave(None), Gave(1), true);
            Stranded(After(s, next, runs, w).0)
  {
    StrandedIffCutShort(s, next, runs, WorkAnswers(true, true, Threw, rounds, true, true, Gave(None), Gave(1), true));
  }

  // ---------------------------------------------------------------- The journal after a step

  lemma {:induction false} AfterIsSound(s: Setup, p: Selection.SelectionPolicy, runs: seq<RunRecord>, a: OnceAnswers, next: Next)
    requires s.Usable() && Sound(runs) && next == NextWork(s, p, runs, a)
    ensures Sound(After(s, next, runs, a.work).0)
  {
    if next.Take? {
      NextIsExclusive(s, p, runs, a, next);
      WorkOnFollows(s, next, runs, a.work);
      UpsertKeepsSound(runs, WorkOn(s, next, runs, a.work).0);
    }
  }

  function AfterDrive(s: Setup, runs: seq<RunRecord>, a: PullAnswers): seq<RunRecord> {
    if !HeadInFlight(runs) || Driven(s, runs[0], a) == runs[0] then runs else UpsertRun(runs, Driven(s, runs[0], a))
  }

  lemma {:induction false} AfterDriveIsSound(s: Setup, runs: seq<RunRecord>, a: PullAnswers)
    requires Sound(runs)
    ensures Sound(AfterDrive(s, runs, a))
  {
    InFlightIsHead(runs);
    if HeadInFlight(runs) { UpsertKeepsSound(runs, Driven(s, runs[0], a)); }
  }
}
