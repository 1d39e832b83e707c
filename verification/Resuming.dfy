/**
 What resumptions add up to: which rounds are handed out again, and what becomes of the counters of
 rounds, red checks and conflicts over any number of steps.
 */
module Resuming {
  import opened Options
  import opened Journals
  import opened Rounds
  import opened Working
  import opened Driving
  import Selection

  // ---------------------------------------------------------------- Which rounds are handed out again

  /**
   A resumption hands out the round after the last one on record.  So the last round `n` handed out before is
   handed out once more exactly when the agent's call for it threw, and it was not round 0 of a claim.
   */
  lemma {:induction false} RoundIsRepeatedIff(s: Setup, p: Selection.SelectionPolicy, runs: seq<RunRecord>, a: OnceAnswers, next: Next,
                                              later: OnceAnswers, again: Next, n: nat)
    requires s.Usable() && Sound(runs) && next == NextWork(s, p, runs, a) && next.Take?
    requires a.work.claimed && Starts(a.work, next.start, s.codingRounds)
    requires n == LastRound(CourseOf(s, next.labels, a.work.rounds), next.start, s.codingRounds)
    requires again == NextWork(s, p, After(s, next, runs, a.work).0, later) && again.Take? && !again.claims
    ensures again.issue == next.issue
    ensures again.start == n <==> a.work.rounds(n).coded.Threw? && !(next.claims && n == 0)
    ensures a.work.rounds(n).coded.Gave? ==> again.start == n + 1
    ensures a.work.rounds(n).coded.Threw? && next.claims && n == 0 ==> again.start == 1 + Claimed(runs, next.issue).fixRounds
  {
    var r, after := WorkOn(s, next, runs, a.work).0, After(s, next, runs, a.work).0;
    NextIsExclusive(s, p, runs, a, next);
    LastAnsweredIsOnRecord(s, next.labels, a.work, Claimed(runs, next.issue), next.start, CourseOf(s, next.labels, a.work.rounds), n);
    AfterIsSound(s, p, runs, a, next);
    WorkOnFollows(s, next, runs, a.work);
    SavePuts(runs, r);
    ResumptionGoesOn(s, p, after, r, later, again);
  }

  lemma {:induction false} ResumptionGoesOn(s: Setup, p: Selection.SelectionPolicy, runs: seq<RunRecord>, r: RunRecord, a: OnceAnswers, next: Next)
    requires Sound(runs) && runs != [] && runs[0] == r && next == NextWork(s, p, runs, a) && next.Take? && !next.claims
    ensures next.issue == r.issue && next.start == r.fixRounds + 1
  {
    InFlightIsHead(runs);
  }

  /** A claim whose first call throws leaves the claimed record, and the journal sound. */
  lemma {:induction false} ThrowingCallLeavesTheClaim(s: Setup, next: Next, runs: seq<RunRecord>, w: WorkAnswers)
    requires s.Usable() && next.Take? && w.claimed && Starts(w, next.start, s.codingRounds) && w.rounds(next.start).coded.Threw?
    ensures After(s, next, runs, w) == (UpsertRun(runs, Claimed(runs, next.issue)), Broke) && SpentOn(s, next, w) == 1
  {
    CourseRuns(s, next.labels, w.rounds);
    ThrowingCallLeavesTheRecord(s, next.labels, w, Claimed(runs, next.issue), next.start, CourseOf(s, next.labels, w.rounds));
  }

  /** Work that starts no round adds nothing to the record, and gives the issue up unless installing threw. */
  lemma {:induction false} NoRoundNoAttempt(s: Setup, next: Next, runs: seq<RunRecord>, w: WorkAnswers)
    requires s.Usable() && next.Take? && next.start >= s.codingRounds
    ensures SpentOn(s, next, w) == 0
    ensures WorkOn(s, next, runs, w).0 ==
            Claimed(runs, next.issue).(status := if w.prepared && w.installed.Threw? then InProgress else Blocked)
  {
  }

  /**
   Round 0 of a claim is never handed out again: a call for it that threw counts as spent, although nothing was
   answered.  What comes next starts after the rounds the record still holds from before the claim, and exactly
   when none is left no answers whatever get the issue a round: it is blocked with the attempts it had.
   */
  lemma {:induction false} UnansweredFirstRoundIsSpent(s: Setup, p: Selection.SelectionPolicy, runs: seq<RunRecord>, a: OnceAnswers, next: Next,
                                                       after: seq<RunRecord>, later: OnceAnswers, again: Next)
    requires s.Usable() && Sound(runs) && next == NextWork(s, p, runs, a) && next.Take? && next.claims
    requires a.work.claimed && Starts(a.work, 0, s.codingRounds) && a.work.rounds(0).coded.Threw?
    requires after == After(s, next, runs, a.work).0 && again == NextWork(s, p, after, later) && again.Take?
    ensures !again.claims && again.issue == next.issue && again.start == 1 + Claimed(runs, next.issue).fixRounds
    ensures (forall w :: SpentOn(s, again, w) == 0) <==> s.codingRounds <= 1 + Claimed(runs, next.issue).fixRounds
    ensures s.codingRounds <= 1 + Claimed(runs, next.issue).fixRounds && !(later.work.prepared && later.work.installed.Threw?) ==>
              WorkOn(s, again, after, later.work).0 == Claimed(runs, next.issue).(status := Blocked)
  {
    var r := Claimed(runs, next.issue);
    NextIsExclusive(s, p, runs, a, next);
    ThrowingCallLeavesTheClaim(s, next, runs, a.work);
    AfterIsSound(s, p, runs, a, next);
    SavePuts(runs, r);
    ResumptionGoesOn(s, p, after, r, later, again);
    NextIsExclusive(s, p, after, later, again);
    if s.codingRounds <= again.start {
      forall w ensures SpentOn(s, again, w) == 0 { NoRoundNoAttempt(s, again, after, w); }
      NoRoundNoAttempt(s, again, after, later.work);
    } else {
      ThrowingCallLeavesTheClaim(s, again, after, ThrowingWork());
      assert SpentOn(s, again, ThrowingWork()) == 1;
    }
  }

  /** Answers to work whose agent always throws. */
  function ThrowingWork(): WorkAnswers {
    var round := Round(Threw, CommitFailed, Threw, [], None, Threw, (_: nat) => (_: nat) => Unusable);
    WorkAnswers(true, true, Gave(true), (_: nat) => round, true, true, Gave(None), Gave(1), true)
  }

  /** A run whose next round makes the agent throw. */
  ghost predicate Stuck(s: Setup, p: Selection.SelectionPolicy, runs: seq<RunRecord>, a: OnceAnswers)
    requires s.Usable()
  {
    && Sound(runs) && HeadInFlight(runs) && NextWork(s, p, runs, a).Take? && a.work.claimed
    && Starts(a.work, runs[0].fixRounds + 1, s.codingRounds) && a.work.rounds(runs[0].fixRounds + 1).coded.Threw?
  }

  /** The journal with its head back in progress, and otherwise as it was. */
  function BackInProgress(runs: seq<RunRecord>): seq<RunRecord> {
    if runs == [] then runs else [runs[0].(status := InProgress)] + runs[1..]
  }

  /** What one `runOnce` makes of the journal, and the invocations it costs. */
  function Resumed(s: Setup, p: Selection.SelectionPolicy, runs: seq<RunRecord>, a: OnceAnswers): (seq<RunRecord>, nat)
    requires s.Usable()
  {
    var next := NextWork(s, p, runs, a);
    (After(s, next, runs, a.work).0, SpentOn(s, next, a.work))
  }

  lemma {:induction false} StuckRunStaysStuck(s: Setup, p: Selection.SelectionPolicy, runs: seq<RunRecord>, a: OnceAnswers)
    requires s.Usable() && Stuck(s, p, runs, a) && Sound(BackInProgress(runs))
    ensures Stuck(s, p, BackInProgress(runs), a)
  {
    InFlightIsHead(runs);
    InFlightIsHead(BackInProgress(runs));
  }

  /** Such a resumption changes nothing else and still costs an invocation, and leaves the run as stuck as it was. */
  lemma {:induction false} StuckRunIsHandedOutAgain(s: Setup, p: Selection.SelectionPolicy, runs: seq<RunRecord>, a: OnceAnswers)
    requires s.Usable() && Stuck(s, p, runs, a)
    ensures Resumed(s, p, runs, a) == (BackInProgress(runs), 1) && Stuck(s, p, BackInProgress(runs), a)
  {
    var next := NextWork(s, p, runs, a);
    NextIsExclusive(s, p, runs, a, next);
    ThrowingCallLeavesTheClaim(s, next, runs, a.work);
    SaveOnto(runs, runs[0].(status := InProgress), runs[1..]);
    AfterIsSound(s, p, runs, a, next);
    StuckRunStaysStuck(s, p, runs, a);
  }

  /** `n` steps in a row: the journal afterwards, and what they cost together. */
  function Repeated(step: seq<RunRecord> -> (seq<RunRecord>, nat), runs: seq<RunRecord>, n: nat): (seq<RunRecord>, nat) {
    if n == 0 then (runs, 0)
    else
      var (before, spent) := Repeated(step, runs, n - 1);
      var (after, more) := step(before);
      (after, spent + more)
  }

  lemma {:induction false} FixedStepRepeats(step: seq<RunRecord> -> (seq<RunRecord>, nat), first: seq<RunRecord>, runs: seq<RunRecord>, n: nat)
    requires step(first) == (runs, 1) && step(runs) == (runs, 1)
    ensures Repeated(step, first, n + 1) == (runs, n + 1)
  {
    if n > 0 { FixedStepRepeats(step, first, runs, n - 1); } else { assert Repeated(step, first, 0) == (first, 0); }
  }

  /** Resumptions that all meet the same answers. */
  function Resumption(s: Setup, p: Selection.SelectionPolicy, a: OnceAnswers): seq<RunRecord> -> (seq<RunRecord>, nat)
    requires s.Usable()
  {
    before => Resumed(s, p, before, a)
  }

  /** The retry budgets do not bound resumptions: an agent that keeps throwing is invoked as often as the run is resumed. */
  lemma {:induction false} ResumptionsAreUnbounded(s: Setup, p: Selection.SelectionPolicy, runs: seq<RunRecord>, a: OnceAnswers, n: nat)
    requires s.Usable() && Stuck(s, p, runs, a)
    ensures Repeated(Resumption(s, p, a), runs, n + 1) == (BackInProgress(runs), n + 1)
  {
    StuckRunIsHandedOutAgain(s, p, runs, a);
    StuckRunIsHandedOutAgain(s, p, BackInProgress(runs), a);
    FixedStepRepeats(Resumption(s, p, a), runs, BackInProgress(runs), n);
  }

  /**
   So one issue, claimed from an empty journal and resumed `n` times, is handed to a throwing agent `n` + 1 times,
   however small the number of rounds it may have.
   */
  lemma {:induction false} OneIssueIsHandedOutForever(s: Setup, p: Selection.SelectionPolicy, issue: nat, n: nat)
    requires s.Usable() && s.codingRounds > 1 && issue !in p.skip && p.requiredLabel !in p.excludedLabels
    ensures Repeated(Resumption(s, p, ReadyAnswers(p, issue, ThrowingWork()).(labels := Gave([]))), [], n + 1) == ([Fresh(issue)], n + 1)
  {
    var a := ReadyAnswers(p, issue, ThrowingWork()).(labels := Gave([]));
    Selection.ReadyIssueIsSelected(p, issue);
    ThrowingClaim(s, p, issue, a, NextWork(s, p, [], a));
    FixedStepRepeats(Resumption(s, p, a), [], [Fresh(issue)], n);
  }

  lemma {:induction false} ThrowingClaim(s: Setup, p: Selection.SelectionPolicy, issue: nat, a: OnceAnswers, next: Next)
    requires s.Usable() && s.codingRounds > 1 && next == NextWork(s, p, [], a) && next.Take? && next.issue == issue && next.start == 0
    requires a.labels.Gave? && a.work == ThrowingWork()
    ensures Resumed(s, p, [], a) == ([Fresh(issue)], 1) && Resumed(s, p, [Fresh(issue)], a) == ([Fresh(issue)], 1)
  {
    ThrowingCallLeavesTheClaim(s, next, [], a.work);
    assert Others([], issue) == [] && UpsertRun([], Fresh(issue)) == [Fresh(issue)];
    FreshRunIsStuck(s, p, issue, a);
    StuckRunIsHandedOutAgain(s, p, [Fresh(issue)], a);
  }

  lemma {:induction false} FreshRunIsStuck(s: Setup, p: Selection.SelectionPolicy, issue: nat, a: OnceAnswers)
    requires s.Usable() && s.codingRounds > 1 && a.labels.Gave? && a.work == ThrowingWork()
    ensures Stuck(s, p, [Fresh(issue)], a) && BackInProgress([Fresh(issue)]) == [Fresh(issue)]
  {
    InFlightIsHead([Fresh(issue)]);
  }

  // ---------------------------------------------------------------- The conflict counter

  /** One step of the runner: take work (resume or claim), or drive what is open. */
  datatype Move = TakeUp(answers: OnceAnswers) | Look(pull: PullAnswers)

  function Moved(s: Setup, p: Selection.SelectionPolicy, runs: seq<RunRecord>, m: Move): seq<RunRecord>
    requires s.Usable()
  {
    match m
    case TakeUp(a) => After(s, NextWork(s, p, runs, a), runs, a.work).0
    case Look(a) => AfterDrive(s, runs, a)
  }

  function PlayMoves(s: Setup, p: Selection.SelectionPolicy, runs: seq<RunRecord>, moves: seq<Move>): seq<RunRecord>
    requires s.Usable()
  {
    if moves == [] then runs else Moved(s, p, PlayMoves(s, p, runs, moves[..|moves| - 1]), moves[|moves| - 1])
  }

  /** No step raises or resets the counter of any record: a record either had it before or is new. */
  ghost predicate ConflictsKept(before: seq<RunRecord>, after: seq<RunRecord>) {
    forall r | r in after ::
      (exists q :: q in before && q.issue == r.issue && q.conflictRounds == r.conflictRounds)
      || (r.conflictRounds == 0 && forall q | q in before :: q.issue != r.issue)
  }

  lemma {:induction false} SaveKeepsConflicts(runs: seq<RunRecord>, r: RunRecord)
    requires (exists q :: q in runs && q.issue == r.issue && q.conflictRounds == r.conflictRounds)
             || (r.conflictRounds == 0 && forall q | q in runs :: q.issue != r.issue)
    ensures ConflictsKept(runs, UpsertRun(runs, r))
  {
    OthersAre(runs, r.issue);
    SavePuts(runs, r);
    forall x | x in UpsertRun(runs, r) && x != r ensures x in runs { assert x in Others(runs, r.issue); }
  }

  lemma {:induction false} StepKeepsConflicts(s: Setup, p: Selection.SelectionPolicy, runs: seq<RunRecord>, m: Move)
    requires s.Usable() && Sound(runs)
    ensures Sound(Moved(s, p, runs, m)) && ConflictsKept(runs, Moved(s, p, runs, m))
    ensures HeadInFlight(runs) ==>
              && Moved(s, p, runs, m) != [] && Moved(s, p, runs, m)[0].issue == runs[0].issue
              && Moved(s, p, runs, m)[0].conflictRounds == runs[0].conflictRounds
  {
    match m
    case TakeUp(a) =>
      var next := NextWork(s, p, runs, a);
      AfterIsSound(s, p, runs, a, next);
      if next.Take? && a.work.claimed {
        var r := WorkOn(s, next, runs, a.work).0;
        WorkOnFollows(s, next, runs, a.work);
        NextIsExclusive(s, p, runs, a, next);
        ClaimKeepsConflicts(runs, next.issue);
        SaveKeepsConflicts(runs, r);
        SavePuts(runs, r);
      }
    case Look(a) =>
      AfterDriveIsSound(s, runs, a);
      if HeadInFlight(runs) {
        assert runs[0] in runs;
        SaveKeepsConflicts(runs, Driven(s, runs[0], a));
        SavePuts(runs, Driven(s, runs[0], a));
      }
  }

  lemma {:induction false} ClaimKeepsConflicts(runs: seq<RunRecord>, issue: nat)
    ensures var r := Claimed(runs, issue);
            || (exists q :: q in runs && q.issue == issue && q.conflictRounds == r.conflictRounds)
            || (r.conflictRounds == 0 && forall q | q in runs :: q.issue != issue)
  {
    var found := FindRun(runs, issue);
    if found.None? {
      forall q | q in runs ensures q.issue != issue { var i :| 0 <= i < |runs| && runs[i] == q; }
    }
  }

  /** While a run stays in flight, whatever is done to it, its conflict counter stays what it was. */
  lemma {:induction false} ConflictRoundsNeverMove(s: Setup, p: Selection.SelectionPolicy, runs: seq<RunRecord>, moves: seq<Move>)
    requires s.Usable() && Sound(runs)
    requires forall k | 0 <= k < |moves| :: HeadInFlight(PlayMoves(s, p, runs, moves[..k]))
    ensures Sound(PlayMoves(s, p, runs, moves))
    ensures HeadInFlight(runs) ==>
              && PlayMoves(s, p, runs, moves) != [] && PlayMoves(s, p, runs, moves)[0].issue == runs[0].issue
              && PlayMoves(s, p, runs, moves)[0].conflictRounds == runs[0].conflictRounds
  {
    if moves != [] {
      var n := |moves| - 1;
      var init := moves[..n];
      forall k | 0 <= k < n ensures HeadInFlight(PlayMoves(s, p, runs, init[..k])) { assert init[..k] == moves[..k]; }
      ConflictRoundsNeverMove(s, p, runs, init);
      StepKeepsConflicts(s, p, PlayMoves(s, p, runs, init), moves[n]);
    }
  }

  /** A conflicted pull request: open, and not mergeable as it is. */
  predicate InConflict(record: RunRecord, a: PullAnswers) {
    record.pullRequest.Some? && a.state == Gave(OpenPull) && a.mergeability == Gave(Conflicted)
  }

  /** So a conflict can be taken up at every resumption or at none: the limit is compared with the counter at the claim, once and for all. */
  lemma {:induction false} ConflictIsTakenUpAlwaysOrNever(s: Setup, p: Selection.SelectionPolicy, runs: seq<RunRecord>, moves: seq<Move>, a: PullAnswers)
    requires s.Usable() && Sound(runs) && HeadInFlight(runs)
    requires forall k | 0 <= k < |moves| :: HeadInFlight(PlayMoves(s, p, runs, moves[..k]))
    ensures PlayMoves(s, p, runs, moves) != []
    ensures InConflict(PlayMoves(s, p, runs, moves)[0], a) ==>
              Resumable(s, PlayMoves(s, p, runs, moves)[0], a) == Gave(runs[0].conflictRounds < s.conflictRounds)
  {
    ConflictRoundsNeverMove(s, p, runs, moves);
  }

  /** A conflict below the limit can be taken up any number of times, and so more often than the limit allows. */
  lemma {:induction false} ConflictLimitIsExceeded(s: Setup, p: Selection.SelectionPolicy, runs: seq<RunRecord>, a: OnceAnswers, n: nat)
    requires s.Usable() && Sound(runs) && HeadInFlight(runs) && runs[0].conflictRounds < s.conflictRounds
    requires InConflict(runs[0], a.pull) && a.labels.Gave? && a.work.claimed
    requires Starts(a.work, runs[0].fixRounds + 1, s.codingRounds) && a.work.rounds(runs[0].fixRounds + 1).coded.Threw?
    ensures Repeated(Resumption(s, p, a), runs, n + 1) == (BackInProgress(runs), n + 1)
  {
    InFlightIsHead(runs);
    ResumptionsAreUnbounded(s, p, runs, a, n);
  }

  /** A pull request as work first leaves it. */
  function JustOpened(issue: nat, pullRequest: nat): RunRecord {
    RunRecord(issue, AwaitingReview, 0, 0, 0, Some(pullRequest), None, [])
  }

  /** A conflict on the open pull request, and an agent that throws. */
  function ConflictAnswers(): OnceAnswers {
    OnceAnswers(PullAnswers(Gave(OpenPull), Gave(Conflicted), false, NoChecks, true), Gave([]), Threw, ThrowingWork())
  }

  /** One conflict on a new pull request taken up `n` + 1 times, each with an invocation, while its counter stays at zero. */
  lemma {:induction false} OneConflictIsTakenUpForever(s: Setup, p: Selection.SelectionPolicy, issue: nat, pullRequest: nat, n: nat)
    requires s.Usable() && s.codingRounds > 1 && s.conflictRounds > 0
    ensures Repeated(Resumption(s, p, ConflictAnswers()), [JustOpened(issue, pullRequest)], n + 1)
            == ([JustOpened(issue, pullRequest).(status := InProgress)], n + 1)
  {
    var r := JustOpened(issue, pullRequest);
    ConflictLimitIsExceeded(s, p, [r], ConflictAnswers(), n);
    assert BackInProgress([r]) == [r.(status := InProgress)];
  }

  // ---------------------------------------------------------------- How many reds a run survives

  /** Red checks seen while driving, over some moves. */
  function RedsSeen(s: Setup, p: Selection.SelectionPolicy, runs: seq<RunRecord>, moves: seq<Move>): nat
    requires s.Usable()
  {
    if moves == [] then 0
    else RedsSeen(s, p, runs, moves[..|moves| - 1]) + if EndsInRed(s, p, runs, moves) then 1 else 0
  }

  /** The last move looked at an open pull request and saw red checks. */
  predicate EndsInRed(s: Setup, p: Selection.SelectionPolicy, runs: seq<RunRecord>, moves: seq<Move>)
    requires s.Usable() && moves != []
  {
    var before, last := PlayMoves(s, p, runs, moves[..|moves| - 1]), moves[|moves| - 1];
    last.Look? && HeadInFlight(before) && SeesRed(before[0], last.pull)
  }

  lemma {:induction false} StepCountsReds(s: Setup, p: Selection.SelectionPolicy, runs: seq<RunRecord>, m: Move, after: seq<RunRecord>)
    requires s.Usable() && Sound(runs) && HeadInFlight(runs) && after == Moved(s, p, runs, m)
    ensures after != []
    ensures var red := m.Look? && SeesRed(runs[0], m.pull);
            && (HeadInFlight(after) ==> after[0].ciRounds == runs[0].ciRounds + if red then 1 else 0)
            && (red ==> (after[0].status == Blocked <==> runs[0].ciRounds + 1 >= s.ciRounds) && (!HeadInFlight(after) ==> after[0].status == Blocked))
  {
    match m
    case TakeUp(a) =>
      var next := NextWork(s, p, runs, a);
      if next.Take? && a.work.claimed {
        NextIsExclusive(s, p, runs, a, next);
        WorkOnFollows(s, next, runs, a.work);
        SavePuts(runs, WorkOn(s, next, runs, a.work).0);
      }
    case Look(a) =>
      SavePuts(runs, Driven(s, runs[0], a));
  }

  /**
   While a run is in flight, whatever is done to it, its counter is the one it started with and every red since.
   So a red blocks it exactly when the two together reach the limit: starting from `c`, a run survives
   `ciRounds` - 1 - `c` reds, and none if that is not positive.
   */
  lemma {:induction false} RedBlocksIff(s: Setup, p: Selection.SelectionPolicy, runs: seq<RunRecord>, moves: seq<Move>)
    requires s.Usable() && Sound(runs) && HeadInFlight(runs)
    requires forall k | 0 <= k < |moves| :: HeadInFlight(PlayMoves(s, p, runs, moves[..k]))
    ensures Sound(PlayMoves(s, p, runs, moves)) && PlayMoves(s, p, runs, moves) != []
    ensures HeadInFlight(PlayMoves(s, p, runs, moves)) ==>
              PlayMoves(s, p, runs, moves)[0].ciRounds == runs[0].ciRounds + RedsSeen(s, p, runs, moves)
    ensures moves != [] && EndsInRed(s, p, runs, moves) ==>
              (!HeadInFlight(PlayMoves(s, p, runs, moves)) <==> runs[0].ciRounds + RedsSeen(s, p, runs, moves) >= s.ciRounds)
  {
    ConflictRoundsNeverMove(s, p, runs, moves);
    if moves != [] {
      var n := |moves| - 1;
      var init := moves[..n];
      forall k | 0 <= k < n ensures HeadInFlight(PlayMoves(s, p, runs, init[..k])) { assert init[..k] == moves[..k]; }
      RedBlocksIff(s, p, runs, init);
      StepCountsReds(s, p, PlayMoves(s, p, runs, init), moves[n], PlayMoves(s, p, runs, moves));
    }
  }

  /**
   A claim starts from the counter the journal still holds for its issue.  So an issue blocked for its last red,
   put back in the queue and worked on again, survives none at all.
   */
  lemma {:induction false} RequeuedRunSurvivesNoRed(s: Setup, p: Selection.SelectionPolicy, runs: seq<RunRecord>, red: PullAnswers, blocked: seq<RunRecord>,
                                                    a: OnceAnswers, next: Next, after: seq<RunRecord>)
    requires s.Usable() && Sound(runs) && HeadInFlight(runs) && SeesRed(runs[0], red) && Exhausted(s, runs[0])
    requires blocked == AfterDrive(s, runs, red) && next == NextWork(s, p, blocked, a) && next.Take? && next.issue == runs[0].issue
    requires a.work.claimed && after == After(s, next, blocked, a.work).0
    ensures next.claims && after != [] && after[0].issue == runs[0].issue && after[0].ciRounds == runs[0].ciRounds
    ensures forall again | HeadInFlight(after) && SeesRed(after[0], again) :: Driven(s, after[0], again).status == Blocked
  {
    var r := runs[0].(status := Blocked);
    AfterDriveIsSound(s, runs, red);
    SavePuts(runs, r);
    NextIsExclusive(s, p, blocked, a, next);
    FoundIsUnique(blocked, r);
    WorkOnFollows(s, next, blocked, a.work);
    SavePuts(blocked, WorkOn(s, next, blocked, a.work).0);
  }
}
