/**
 An unattended session, cycle after cycle, as a function of what the host, git, the agents and the
 budget answer: the journal, what the session carries along, and what happened in it.
 */
module Sessions {
  import opened Options
  import opened Journals
  import opened Rounds
  import opened Working
  import opened Driving
  import Budgets
  import Selection

  datatype StopReason = NothingLeft | MaxIssuesReached | BudgetExceeded | Unavailable | AskedToStop

  datatype Cycle = Cycle(pull: PullAnswers, once: OnceAnswers)

  datatype Session = Session(skip: seq<nat>, taken: nat, failures: nat)

  // ---------------------------------------------------------------- A cycle as a function of its answers

  /** The journal, whether the session is over, and what it carries to the next cycle. */
  datatype State = State(runs: seq<RunRecord>, stop: Option<StopReason>, session: Session)

  predicate DriveThrows(s: Setup, runs: seq<RunRecord>, a: PullAnswers) {
    HeadInFlight(runs) && Drive(s, runs[0], a).Threw?
  }

  /** Issues not to touch again: a pull request closed unmerged, or CI rounds exhausted. */
  function SkipAfterDrive(s: Setup, runs: seq<RunRecord>, a: PullAnswers, skip: seq<nat>): seq<nat> {
    if HeadInFlight(runs) && Drive(s, runs[0], a) in {Gave(ClosedUnmerged), Gave(RetriesExhausted)} then skip + [runs[0].issue] else skip
  }

  /** One more consecutive failure: wait and go on, or stop. */
  function Tolerated(s: Setup, runs: seq<RunRecord>, session: Session): State {
    var failures := session.failures + 1;
    State(runs, if failures > s.maxFailures then Some(Unavailable) else None, session.(failures := failures))
  }

  function Skipping(skip: seq<nat>, end: OnceEnd): seq<nat> {
    if end.Worked? && end.end == GaveUp then skip + [end.issue] else skip
  }

  function PlayClaim(s: Setup, runs: seq<RunRecord>, end: OnceEnd, session: Session): State {
    match end
    case Broke => Tolerated(s, runs, session)
    case NothingReady => State(runs, Some(NothingLeft), session)
    case Waiting => State(runs, None, session.(failures := 0))
    case Worked(_, _) => State(runs, None, Session(Skipping(session.skip, end), session.taken + 1, 0))
  }

  /** New work while nothing is in flight; `spent` is the budget's answer, should it be asked. */
  function PlayNewWork(s: Setup, p: Selection.SelectionPolicy, runs: seq<RunRecord>, a: OnceAnswers, session: Session, spent: bool): State
    requires s.Usable()
  {
    if s.maxIssues > 0 && session.taken >= s.maxIssues then State(runs, Some(MaxIssuesReached), session)
    else if spent then State(runs, Some(BudgetExceeded), session)
    else
      var tried := After(s, NextWork(s, p.(skip := session.skip), runs, a), runs, a.work);
      PlayClaim(s, tried.0, tried.1, session)
  }

  function PlayCycle(s: Setup, p: Selection.SelectionPolicy, runs: seq<RunRecord>, c: Cycle, session: Session, spent: bool): State
    requires s.Usable()
  {
    var driven := AfterDrive(s, runs, c.pull);
    var before := session.(skip := SkipAfterDrive(s, runs, c.pull, session.skip));
    if DriveThrows(s, runs, c.pull) then Tolerated(s, driven, session)
    else if HeadInFlight(driven) then State(driven, None, before.(failures := 0))
    else PlayNewWork(s, p, driven, c.once, before, spent)
  }

  /** The state after as many cycles as the budget gave answers for. */
  function PlaySession(s: Setup, p: Selection.SelectionPolicy, runs: seq<RunRecord>, cycles: seq<Cycle>, spent: seq<bool>): State
    requires s.Usable() && |spent| <= |cycles|
  {
    if spent == [] then State(runs, None, Session([], 0, 0))
    else
      var n := |spent| - 1;
      var before := PlaySession(s, p, runs, cycles, spent[..n]);
      PlayCycle(s, p, before.runs, cycles[n], before.session, spent[n])
  }

  lemma {:induction false} ClaimTakesOne(s: Setup, runs: seq<RunRecord>, end: OnceEnd, session: Session)
    ensures PlayClaim(s, runs, end, session).session.taken <= session.taken + 1
    ensures PlayClaim(s, runs, end, session).stop != Some(AskedToStop)
  {
  }

  lemma {:induction false} CeilingHolds(s: Setup, p: Selection.SelectionPolicy, runs: seq<RunRecord>, c: Cycle, session: Session, spent: bool)
    requires s.Usable()
    ensures var next := PlayCycle(s, p, runs, c, session, spent);
            (s.maxIssues > 0 && session.taken <= s.maxIssues ==> next.session.taken <= s.maxIssues) && next.stop != Some(AskedToStop)
  {
    var driven := AfterDrive(s, runs, c.pull);
    var before := session.(skip := SkipAfterDrive(s, runs, c.pull, session.skip));
    var tried := After(s, NextWork(s, p.(skip := before.skip), driven, c.once), driven, c.once.work);
    ClaimTakesOne(s, tried.0, tried.1, before);
  }

  /** An exception ended the cycle: while driving, or in the work it took on. */
  predicate Fails(s: Setup, p: Selection.SelectionPolicy, runs: seq<RunRecord>, c: Cycle, session: Session, spent: bool)
    requires s.Usable()
  {
    var driven := AfterDrive(s, runs, c.pull);
    var skip := SkipAfterDrive(s, runs, c.pull, session.skip);
    || DriveThrows(s, runs, c.pull)
    || (&& !HeadInFlight(driven) && !spent && (s.maxIssues == 0 || session.taken < s.maxIssues)
        && After(s, NextWork(s, p.(skip := skip), driven, c.once), driven, c.once.work).1 == Broke)
  }

  /** A failing cycle adds to the count, one that gets through clears it, and a session is unavailable only for too many in a row. */
  lemma {:induction false} FailuresAreConsecutive(s: Setup, p: Selection.SelectionPolicy, runs: seq<RunRecord>, c: Cycle, session: Session, spent: bool)
    requires s.Usable()
    ensures var next := PlayCycle(s, p, runs, c, session, spent);
            && (next.stop.None? ==> next.session.failures == if Fails(s, p, runs, c, session, spent) then session.failures + 1 else 0)
            && (next.stop == Some(Unavailable) <==> Fails(s, p, runs, c, session, spent) && session.failures + 1 > s.maxFailures)
  {
    var driven := AfterDrive(s, runs, c.pull);
    var before := session.(skip := SkipAfterDrive(s, runs, c.pull, session.skip));
    var tried := After(s, NextWork(s, p.(skip := before.skip), driven, c.once), driven, c.once.work);
    assert PlayClaim(s, tried.0, tried.1, before).stop == Some(Unavailable) ==> tried.1 == Broke;
  }

  /** A session that goes on has at most the tolerated number of failures in a row. */
  lemma {:induction false} SessionToleratesFailures(s: Setup, p: Selection.SelectionPolicy, runs: seq<RunRecord>, cycles: seq<Cycle>, spent: seq<bool>)
    requires s.Usable() && |spent| <= |cycles|
    requires forall k | 0 <= k <= |spent| :: PlaySession(s, p, runs, cycles, spent[..k]).stop.None?
    ensures PlaySession(s, p, runs, cycles, spent).session.failures <= s.maxFailures
  {
    var n := |spent| - 1;
    assert spent[..|spent|] == spent;
    if spent != [] {
      var init := spent[..n];
      forall k | 0 <= k <= n ensures PlaySession(s, p, runs, cycles, init[..k]).stop.None? { assert init[..k] == spent[..k]; }
      SessionToleratesFailures(s, p, runs, cycles, init);
      var before := PlaySession(s, p, runs, cycles, init);
      FailuresAreConsecutive(s, p, before.runs, cycles[n], before.session, spent[n]);
    }
  }

  // ---------------------------------------------------------------- What an unattended session never does

  /** While a run stays in flight a cycle does nothing but drive it. */
  lemma {:induction false} InFlightIsOnlyDriven(s: Setup, p: Selection.SelectionPolicy, runs: seq<RunRecord>, c: Cycle, session: Session, spent: bool)
    requires s.Usable() && !DriveThrows(s, runs, c.pull) && HeadInFlight(AfterDrive(s, runs, c.pull))
    ensures PlayCycle(s, p, runs, c, session, spent)
            == State(AfterDrive(s, runs, c.pull), None, Session(SkipAfterDrive(s, runs, c.pull, session.skip), session.taken, 0))
  {
  }

  lemma {:induction false} ConflictIsLeft(s: Setup, runs: seq<RunRecord>, a: PullAnswers)
    requires HeadInFlight(runs) && runs[0].pullRequest.Some? && a.state == Gave(OpenPull) && a.mergeability == Gave(Conflicted)
    ensures AfterDrive(s, runs, a) == runs && !DriveThrows(s, runs, a) && SkipAfterDrive(s, runs, a, []) == []
  {
  }

  lemma {:induction false} RedSpendsARound(s: Setup, runs: seq<RunRecord>, a: PullAnswers, r: RunRecord)
    requires HeadInFlight(runs) && SeesRed(runs[0], a) && !Exhausted(s, runs[0]) && r == runs[0].(ciRounds := runs[0].ciRounds + 1)
    ensures AfterDrive(s, runs, a) != [] && AfterDrive(s, runs, a)[0] == r
    ensures !DriveThrows(s, runs, a) && SkipAfterDrive(s, runs, a, []) == []
  {
    SavePuts(runs, r);
  }

  /** A pull request that stays conflicted is looked at in every cycle and never worked on. */
  lemma {:induction false} ConflictIsNeverResolved(s: Setup, p: Selection.SelectionPolicy, runs: seq<RunRecord>, cycles: seq<Cycle>, spent: seq<bool>)
    requires s.Usable() && |spent| <= |cycles| && HeadInFlight(runs) && runs[0].pullRequest.Some?
    requires forall k | 0 <= k < |spent| :: cycles[k].pull.state == Gave(OpenPull) && cycles[k].pull.mergeability == Gave(Conflicted)
    ensures PlaySession(s, p, runs, cycles, spent) == State(runs, None, Session([], 0, 0))
  {
    if spent != [] {
      var n := |spent| - 1;
      ConflictIsNeverResolved(s, p, runs, cycles, spent[..n]);
      ConflictIsLeft(s, runs, cycles[n].pull);
      InFlightIsOnlyDriven(s, p, runs, cycles[n], Session([], 0, 0), spent[n]);
    }
  }

  /** Red checks use up the CI rounds one by one, and not one of those rounds is given to the coding agent. */
  lemma {:induction false} RedIsNeverFixed(s: Setup, p: Selection.SelectionPolicy, runs: seq<RunRecord>, cycles: seq<Cycle>, spent: seq<bool>)
    requires s.Usable() && |spent| <= |cycles| && HeadInFlight(runs) && runs[0].ciRounds + |spent| < s.ciRounds
    requires forall k | 0 <= k < |spent| :: SeesRed(runs[0], cycles[k].pull)
    ensures var after := PlaySession(s, p, runs, cycles, spent);
            && after.stop.None? && after.session == Session([], 0, 0)
            && after.runs != [] && after.runs[0] == runs[0].(ciRounds := runs[0].ciRounds + |spent|)
  {
    if spent != [] {
      var n := |spent| - 1;
      RedIsNeverFixed(s, p, runs, cycles, spent[..n]);
      var before, r := PlaySession(s, p, runs, cycles, spent[..n]).runs, runs[0].(ciRounds := runs[0].ciRounds + |spent|);
      assert SeesRed(before[0], cycles[n].pull) <==> SeesRed(runs[0], cycles[n].pull);
      RedSpendsARound(s, before, cycles[n].pull, r);
      InFlightIsOnlyDriven(s, p, before, cycles[n], Session([], 0, 0), spent[n]);
    }
  }

  // ---------------------------------------------------------------- What happened

  /**
   What a session leaves in the world: an issue claimed, with the answers met and the way the work ended;
   an issue given up on, that is, saved as blocked, `told` saying whether the host could be told; a pull
   request closed unmerged.
   */
  datatype Event =
    | Claim(issue: nat, labels: seq<string>, work: WorkAnswers, end: WorkEnd, published: bool)
    | GaveUpOn(issue: nat, told: bool)
    | ClosedOn(issue: nat)

  function DriveEvents(s: Setup, runs: seq<RunRecord>, a: PullAnswers): seq<Event> {
    if !HeadInFlight(runs) then []
    else if Driven(s, runs[0], a).status == Blocked then [GaveUpOn(runs[0].issue, a.told)]
    else if Drive(s, runs[0], a) == Gave(ClosedUnmerged) then [ClosedOn(runs[0].issue)]
    else []
  }

  function ClaimEvents(s: Setup, next: Next, runs: seq<RunRecord>, w: WorkAnswers): seq<Event>
    requires s.Usable()
  {
    if next.Stop? || !w.claimed then []
    else
      var (r, end) := WorkOn(s, next, runs, w);
      [Claim(next.issue, next.labels, w, end, r.status == AwaitingReview)]
      + if r.status == Blocked then [GaveUpOn(next.issue, w.told)] else []
  }

  /** New work is tried: nothing threw while driving, nothing is in flight, and neither the ceiling nor the budget forbids it. */
  predicate TakesWork(s: Setup, runs: seq<RunRecord>, c: Cycle, session: Session, spent: bool) {
    && !DriveThrows(s, runs, c.pull) && !HeadInFlight(AfterDrive(s, runs, c.pull))
    && !(s.maxIssues > 0 && session.taken >= s.maxIssues) && !spent
  }

  function CycleEvents(s: Setup, p: Selection.SelectionPolicy, runs: seq<RunRecord>, c: Cycle, session: Session, spent: bool): seq<Event>
    requires s.Usable()
  {
    var driven, skip := AfterDrive(s, runs, c.pull), SkipAfterDrive(s, runs, c.pull, session.skip);
    DriveEvents(s, runs, c.pull)
    + if TakesWork(s, runs, c, session, spent)
      then ClaimEvents(s, NextWork(s, p.(skip := skip), driven, c.once), driven, c.once.work) else []
  }

  /** Everything that happened in the cycles the budget gave answers for. */
  function History(s: Setup, p: Selection.SelectionPolicy, runs: seq<RunRecord>, cycles: seq<Cycle>, spent: seq<bool>): seq<Event>
    requires s.Usable() && |spent| <= |cycles|
  {
    if spent == [] then []
    else
      var n := |spent| - 1;
      var before := PlaySession(s, p, runs, cycles, spent[..n]);
      History(s, p, runs, cycles, spent[..n]) + CycleEvents(s, p, before.runs, cycles[n], before.session, spent[n])
  }

  // ---------------------------------------------------------------- Issues given up on

  /** The host was told to leave the issue to a person. */
  predicate Leaves(e: Event, issue: nat) {
    e == GaveUpOn(issue, true) || e == ClosedOn(issue)
  }

  ghost predicate LeftToAPerson(history: seq<Event>, issue: nat) {
    exists i :: 0 <= i < |history| && Leaves(history[i], issue)
  }

  lemma {:induction false} LeftConcat(a: seq<Event>, b: seq<Event>, issue: nat)
    ensures LeftToAPerson(a + b, issue) <==> LeftToAPerson(a, issue) || LeftToAPerson(b, issue)
  {
    if i :| 0 <= i < |a| && Leaves(a[i], issue) { assert Leaves((a + b)[i], issue); }
    if i :| 0 <= i < |b| && Leaves(b[i], issue) { assert Leaves((a + b)[|a| + i], issue); }
  }

  lemma {:induction false} DrivingSkipsWhatItLeaves(s: Setup, runs: seq<RunRecord>, a: PullAnswers, skip: seq<nat>, issue: nat)
    ensures issue in SkipAfterDrive(s, runs, a, skip) <==> issue in skip || LeftToAPerson(DriveEvents(s, runs, a), issue)
  {
    var events := DriveEvents(s, runs, a);
    assert |events| <= 1;
    if events != [] { assert Leaves(events[0], issue) <==> LeftToAPerson(events, issue); }
  }

  lemma {:induction false} WorkSkipsWhatItLeaves(s: Setup, next: Next, runs: seq<RunRecord>, w: WorkAnswers, skip: seq<nat>, issue: nat)
    requires s.Usable() && (next.Stop? ==> !next.end.Worked?)
    ensures issue in Skipping(skip, After(s, next, runs, w).1) <==> issue in skip || LeftToAPerson(ClaimEvents(s, next, runs, w), issue)
  {
    var events := ClaimEvents(s, next, runs, w);
    if next.Take? && w.claimed {
      WorkOnEnds(s, next, runs, w);
      assert events[0].Claim?;
      assert |events| == 2 ==> (Leaves(events[1], issue) <==> LeftToAPerson(events, issue));
    }
  }

  lemma {:induction false} CycleSkipsWhatItLeaves(s: Setup, p: Selection.SelectionPolicy, runs: seq<RunRecord>, c: Cycle, session: Session, spent: bool, issue: nat)
    requires s.Usable()
    ensures issue in PlayCycle(s, p, runs, c, session, spent).session.skip
            <==> issue in session.skip || LeftToAPerson(CycleEvents(s, p, runs, c, session, spent), issue)
  {
    var driven, skip := AfterDrive(s, runs, c.pull), SkipAfterDrive(s, runs, c.pull, session.skip);
    var next := NextWork(s, p.(skip := skip), driven, c.once);
    DrivingSkipsWhatItLeaves(s, runs, c.pull, session.skip, issue);
    if TakesWork(s, runs, c, session, spent) {
      WorkSkipsWhatItLeaves(s, next, driven, c.once.work, skip, issue);
      LeftConcat(DriveEvents(s, runs, c.pull), ClaimEvents(s, next, driven, c.once.work), issue);
      ClaimSkips(s, After(s, next, driven, c.once.work).0, After(s, next, driven, c.once.work).1, session.(skip := skip));
    } else {
      assert DriveEvents(s, runs, c.pull) + [] == DriveEvents(s, runs, c.pull);
    }
  }

  lemma {:induction false} ClaimSkips(s: Setup, runs: seq<RunRecord>, end: OnceEnd, session: Session)
    ensures PlayClaim(s, runs, end, session).session.skip == Skipping(session.skip, end)
  {
  }

  /** The skip list is exactly what the host was told to leave to a person. */
  lemma {:induction false} SkippedIffLeft(s: Setup, p: Selection.SelectionPolicy, runs: seq<RunRecord>, cycles: seq<Cycle>, spent: seq<bool>, issue: nat)
    requires s.Usable() && |spent| <= |cycles|
    ensures issue in PlaySession(s, p, runs, cycles, spent).session.skip <==> LeftToAPerson(History(s, p, runs, cycles, spent), issue)
  {
    if spent != [] {
      var n := |spent| - 1;
      var before := PlaySession(s, p, runs, cycles, spent[..n]);
      SkippedIffLeft(s, p, runs, cycles, spent[..n], issue);
      CycleSkipsWhatItLeaves(s, p, before.runs, cycles[n], before.session, spent[n], issue);
      LeftConcat(History(s, p, runs, cycles, spent[..n]), CycleEvents(s, p, before.runs, cycles[n], before.session, spent[n]), issue);
    }
  }

  // ---------------------------------------------------------------- Claims

  lemma {:induction false} NewWorkIsSound(s: Setup, p: Selection.SelectionPolicy, runs: seq<RunRecord>, a: OnceAnswers, session: Session, spent: bool)
    requires s.Usable() && Sound(runs)
    ensures Sound(PlayNewWork(s, p, runs, a, session, spent).runs)
  {
    var next := NextWork(s, p.(skip := session.skip), runs, a);
    AfterIsSound(s, p.(skip := session.skip), runs, a, next);
    ClaimLeavesTheJournal(s, After(s, next, runs, a.work).0, After(s, next, runs, a.work).1, session);
  }

  lemma {:induction false} ClaimLeavesTheJournal(s: Setup, runs: seq<RunRecord>, end: OnceEnd, session: Session)
    ensures PlayClaim(s, runs, end, session).runs == runs
  {
  }

  /** The journal stays sound in every cycle. */
  lemma {:induction false} CycleIsSound(s: Setup, p: Selection.SelectionPolicy, runs: seq<RunRecord>, c: Cycle, session: Session, spent: bool)
    requires s.Usable() && Sound(runs)
    ensures Sound(PlayCycle(s, p, runs, c, session, spent).runs)
  {
    AfterDriveIsSound(s, runs, c.pull);
    NewWorkIsSound(s, p, AfterDrive(s, runs, c.pull), c.once, session.(skip := SkipAfterDrive(s, runs, c.pull, session.skip)), spent);
  }

  lemma {:induction false} SessionIsSound(s: Setup, p: Selection.SelectionPolicy, runs: seq<RunRecord>, cycles: seq<Cycle>, spent: seq<bool>)
    requires s.Usable() && |spent| <= |cycles| && Sound(runs)
    ensures Sound(PlaySession(s, p, runs, cycles, spent).runs)
  {
    if spent != [] {
      var n := |spent| - 1;
      var before := PlaySession(s, p, runs, cycles, spent[..n]);
      SessionIsSound(s, p, runs, cycles, spent[..n]);
      CycleIsSound(s, p, before.runs, cycles[n], before.session, spent[n]);
    }
  }

  /** What one claim event says: the issue was not to be skipped, and what was published was safe. */
  ghost predicate ProperClaim(s: Setup, e: Event, skip: seq<nat>, w: WorkAnswers)
    requires s.Usable()
  {
    e.Claim? ==> e.issue !in skip && e.work == w && (e.published ==> exists n :: ReachesPush(s, e.labels, e.work, 0, n))
  }

  lemma {:induction false} CycleClaimsProperly(s: Setup, p: Selection.SelectionPolicy, runs: seq<RunRecord>, c: Cycle, session: Session, spent: bool)
    requires s.Usable() && Sound(runs)
    ensures var events := CycleEvents(s, p, runs, c, session, spent);
            forall i | 0 <= i < |events| :: ProperClaim(s, events[i], SkipAfterDrive(s, runs, c.pull, session.skip), c.once.work)
  {
    var driven, skip := AfterDrive(s, runs, c.pull), SkipAfterDrive(s, runs, c.pull, session.skip);
    var next := NextWork(s, p.(skip := skip), driven, c.once);
    AfterDriveIsSound(s, runs, c.pull);
    if TakesWork(s, runs, c, session, spent) { ClaimIsProper(s, p.(skip := skip), driven, c.once, next); }
  }

  lemma {:induction false} ClaimIsProper(s: Setup, p: Selection.SelectionPolicy, runs: seq<RunRecord>, a: OnceAnswers, next: Next)
    requires s.Usable() && Sound(runs) && !HeadInFlight(runs) && next == NextWork(s, p, runs, a)
    ensures var events := ClaimEvents(s, next, runs, a.work);
            forall i | 0 <= i < |events| :: ProperClaim(s, events[i], p.skip, a.work)
  {
    if next.Take? && a.work.claimed {
      InFlightIsHead(runs);
      ClaimsAreNotSkipped(s, p, runs, a, next);
      NextIsExclusive(s, p, runs, a, next);
      FreshClaimIsProper(s, next, runs, a.work, p.skip);
    }
  }

  lemma {:induction false} FreshClaimIsProper(s: Setup, next: Next, runs: seq<RunRecord>, w: WorkAnswers, skip: seq<nat>)
    requires s.Usable() && next.Take? && w.claimed && next.start == 0 && next.issue !in skip
    ensures var events := ClaimEvents(s, next, runs, w);
            forall i | 0 <= i < |events| :: ProperClaim(s, events[i], skip, w)
  {
    if WorkOn(s, next, runs, w).0.status == AwaitingReview { PublishedIsSafe(s, next, runs, w); }
  }

  /** An issue left to a person is not claimed again. */
  ghost predicate NeverRetaken(history: seq<Event>) {
    forall i, j, issue | 0 <= i < j < |history| && Leaves(history[i], issue) && history[j].Claim? :: history[j].issue != issue
  }

  /** Whatever was published had been verified and reviewed in the round that was pushed. */
  ghost predicate PublishedSafely(s: Setup, history: seq<Event>)
    requires s.Usable()
  {
    forall i | 0 <= i < |history| && history[i].Claim? && history[i].published ::
      exists n :: ReachesPush(s, history[i].labels, history[i].work, 0, n)
  }

  /** The work of every claim met the answers of some cycle. */
  ghost predicate MetBy(history: seq<Event>, cycles: seq<Cycle>) {
    forall i | 0 <= i < |history| && history[i].Claim? :: exists k :: 0 <= k < |cycles| && history[i].work == cycles[k].once.work
  }

  lemma {:induction false} CycleNeverRetakes(s: Setup, p: Selection.SelectionPolicy, runs: seq<RunRecord>, c: Cycle, session: Session, spent: bool)
    requires s.Usable() && Sound(runs)
    ensures NeverRetaken(CycleEvents(s, p, runs, c, session, spent))
  {
    var events, driving := CycleEvents(s, p, runs, c, session, spent), DriveEvents(s, runs, c.pull);
    CycleClaimsProperly(s, p, runs, c, session, spent);
    forall i, j, issue | 0 <= i < j < |events| && Leaves(events[i], issue) && events[j].Claim? ensures events[j].issue != issue {
      assert ProperClaim(s, events[j], SkipAfterDrive(s, runs, c.pull, session.skip), c.once.work);
      assert i < |driving| && driving[i] == events[i];
      assert LeftToAPerson(driving, issue);
      DrivingSkipsWhatItLeaves(s, runs, c.pull, session.skip, issue);
    }
  }

  lemma {:induction false} NeverRetakenExtends(history: seq<Event>, more: seq<Event>)
    requires NeverRetaken(history) && NeverRetaken(more)
    requires forall j | 0 <= j < |more| && more[j].Claim? :: !LeftToAPerson(history, more[j].issue)
    ensures NeverRetaken(history + more)
  {
    var all := history + more;
    forall i, j, issue | 0 <= i < j < |all| && Leaves(all[i], issue) && all[j].Claim? ensures all[j].issue != issue {
      if i < |history| <= j {
        assert more[j - |history|] == all[j];
        assert Leaves(history[i], issue);
      } else if j < |history| {
        assert history[i] == all[i] && history[j] == all[j];
      } else {
        assert more[i - |history|] == all[i] && more[j - |history|] == all[j];
      }
    }
  }

  lemma {:induction false} ClaimsStayProper(s: Setup, history: seq<Event>, more: seq<Event>, cycles: seq<Cycle>, n: nat, skip: seq<nat>)
    requires s.Usable() && n < |cycles| && PublishedSafely(s, history) && MetBy(history, cycles)
    requires forall i | 0 <= i < |more| :: ProperClaim(s, more[i], skip, cycles[n].once.work)
    ensures PublishedSafely(s, history + more) && MetBy(history + more, cycles)
  {
    var all := history + more;
    forall i | 0 <= i < |all| && all[i].Claim?
      ensures all[i].published ==> exists n :: ReachesPush(s, all[i].labels, all[i].work, 0, n)
      ensures exists k :: 0 <= k < |cycles| && all[i].work == cycles[k].once.work
    {
      if i < |history| {
        assert history[i] == all[i];
      } else {
        assert ProperClaim(s, more[i - |history|], skip, cycles[n].once.work);
      }
    }
  }

  /** Over any session, no claim of what was left to a person, and no publication that was not safe. */
  lemma {:induction false} HistoryIsProper(s: Setup, p: Selection.SelectionPolicy, runs: seq<RunRecord>, cycles: seq<Cycle>, spent: seq<bool>)
    requires s.Usable() && |spent| <= |cycles| && Sound(runs)
    ensures var history := History(s, p, runs, cycles, spent);
            NeverRetaken(history) && PublishedSafely(s, history) && MetBy(history, cycles)
  {
    if spent != [] {
      var n := |spent| - 1;
      var before, history := PlaySession(s, p, runs, cycles, spent[..n]), History(s, p, runs, cycles, spent[..n]);
      var more := CycleEvents(s, p, before.runs, cycles[n], before.session, spent[n]);
      var skip := SkipAfterDrive(s, before.runs, cycles[n].pull, before.session.skip);
      HistoryIsProper(s, p, runs, cycles, spent[..n]);
      SessionIsSound(s, p, runs, cycles, spent[..n]);
      CycleClaimsProperly(s, p, before.runs, cycles[n], before.session, spent[n]);
      CycleNeverRetakes(s, p, before.runs, cycles[n], before.session, spent[n]);
      ClaimsStayProper(s, history, more, cycles, n, skip);
      forall j | 0 <= j < |more| && more[j].Claim? ensures !LeftToAPerson(history, more[j].issue) {
        assert ProperClaim(s, more[j], skip, cycles[n].once.work);
        SkippedIffLeft(s, p, runs, cycles, spent[..n], more[j].issue);
        DrivingSkipsWhatItLeaves(s, before.runs, cycles[n].pull, before.session.skip, more[j].issue);
      }
      NeverRetakenExtends(history, more);
    }
  }

  // ---------------------------------------------------------------- Which issues can be claimed again

  predicate Takes(s: Setup, p: Selection.SelectionPolicy, runs: seq<RunRecord>, a: OnceAnswers, issue: nat) {
    NextWork(s, p, runs, a).Take? && NextWork(s, p, runs, a).issue == issue
  }

  /** Some backlog makes the runner claim the issue exactly when it is not skipped and the policy accepts its own label. */
  lemma {:induction false} ClaimableIff(s: Setup, p: Selection.SelectionPolicy, runs: seq<RunRecord>, issue: nat, w: WorkAnswers)
    requires InFlight(runs) == []
    ensures (exists a :: Takes(s, p, runs, a, issue)) <==> issue !in p.skip && p.requiredLabel !in p.excludedLabels
  {
    if a :| Takes(s, p, runs, a, issue) {
      var selected := Selection.SelectNextIssue(a.issues.value, p).value;
      Selection.SelectionIsLeastAvailable(a.issues.value, p, selected);
    }
    if issue !in p.skip && p.requiredLabel !in p.excludedLabels {
      var i, a := Selection.ReadyIssue(p, issue), ReadyAnswers(p, issue, w);
      Selection.ReadyIssueIsSelected(p, issue);
      assert Takes(s, p, runs, a, issue);
    }
  }

  /**
   An issue given up on can be claimed again in the next cycle exactly when the host was never told to leave
   it to a person: when the calls that tell it threw, only the labels on the host can keep it back.
   */
  lemma {:induction false} RetakenIffNeverLeft(s: Setup, p: Selection.SelectionPolicy, runs: seq<RunRecord>, cycles: seq<Cycle>, spent: seq<bool>,
                                               issue: nat, w: WorkAnswers)
    requires s.Usable() && |spent| <= |cycles| && Sound(runs) && !HeadInFlight(PlaySession(s, p, runs, cycles, spent).runs)
    ensures var last := PlaySession(s, p, runs, cycles, spent);
            (exists a :: Takes(s, p.(skip := last.session.skip), last.runs, a, issue)) <==>
              !LeftToAPerson(History(s, p, runs, cycles, spent), issue) && p.requiredLabel !in p.excludedLabels
  {
    var last := PlaySession(s, p, runs, cycles, spent);
    SessionIsSound(s, p, runs, cycles, spent);
    InFlightIsHead(last.runs);
    SkippedIffLeft(s, p, runs, cycles, spent, issue);
    ClaimableIff(s, p.(skip := last.session.skip), last.runs, issue, w);
  }

  // ---------------------------------------------------------------- Which claims are recorded

  function Claims(history: seq<Event>): nat {
    if history == [] then 0 else Claims(history[..|history| - 1]) + if history[|history| - 1].Claim? then 1 else 0
  }

  /** Claims whose work no exception ended. */
  function RecordedClaims(history: seq<Event>): nat {
    if history == [] then 0
    else
      var e := history[|history| - 1];
      RecordedClaims(history[..|history| - 1]) + if e.Claim? && e.end != Cut then 1 else 0
  }

  lemma {:induction false} CountsConcat(a: seq<Event>, b: seq<Event>)
    ensures Claims(a + b) == Claims(a) + Claims(b) && RecordedClaims(a + b) == RecordedClaims(a) + RecordedClaims(b)
  {
    if b == [] {
      assert a + b == a;
    } else {
      assert (a + b)[..|a + b| - 1] == a + b[..|b| - 1];
      CountsConcat(a, b[..|b| - 1]);
    }
  }

  lemma {:induction false} CountsOfOne(e: Event)
    ensures Claims([e]) == (if e.Claim? then 1 else 0) && RecordedClaims([e]) == if e.Claim? && e.end != Cut then 1 else 0
  {
    assert [e][..0] == [];
  }

  lemma {:induction false} ClaimEventsCount(s: Setup, next: Next, runs: seq<RunRecord>, w: WorkAnswers)
    requires s.Usable() && (next.Stop? ==> !next.end.Worked?)
    ensures var events := ClaimEvents(s, next, runs, w);
            && Claims(events) == (if next.Take? && w.claimed then 1 else 0)
            && RecordedClaims(events) == if After(s, next, runs, w).1.Worked? then 1 else 0
  {
    if next.Take? && w.claimed {
      var (r, end) := WorkOn(s, next, runs, w);
      var claim, more := Claim(next.issue, next.labels, w, end, r.status == AwaitingReview), if r.status == Blocked then [GaveUpOn(next.issue, w.told)] else [];
      CountsOfOne(claim);
      CountsOfOne(GaveUpOn(next.issue, w.told));
      CountsConcat([claim], more);
    }
  }

  lemma {:induction false} CycleCounts(s: Setup, p: Selection.SelectionPolicy, runs: seq<RunRecord>, c: Cycle, session: Session, spent: bool)
    requires s.Usable()
    ensures PlayCycle(s, p, runs, c, session, spent).session.taken == session.taken + RecordedClaims(CycleEvents(s, p, runs, c, session, spent))
  {
    var driven, skip := AfterDrive(s, runs, c.pull), SkipAfterDrive(s, runs, c.pull, session.skip);
    var next, driving := NextWork(s, p.(skip := skip), driven, c.once), DriveEvents(s, runs, c.pull);
    if driving != [] {
      CountsOfOne(driving[0]);
      assert driving == [driving[0]];
    }
    if TakesWork(s, runs, c, session, spent) {
      ClaimEventsCount(s, next, driven, c.once.work);
      CountsConcat(driving, ClaimEvents(s, next, driven, c.once.work));
      ClaimTakes(s, After(s, next, driven, c.once.work).0, After(s, next, driven, c.once.work).1, session.(skip := skip));
    } else {
      assert driving + [] == driving;
    }
  }

  lemma {:induction false} ClaimTakes(s: Setup, runs: seq<RunRecord>, end: OnceEnd, session: Session)
    ensures PlayClaim(s, runs, end, session).session.taken == session.taken + if end.Worked? then 1 else 0
  {
  }

  /** What a session counts as taken is exactly the claims whose work no exception ended. */
  lemma {:induction false} TakenIsRecorded(s: Setup, p: Selection.SelectionPolicy, runs: seq<RunRecord>, cycles: seq<Cycle>, spent: seq<bool>)
    requires s.Usable() && |spent| <= |cycles|
    ensures PlaySession(s, p, runs, cycles, spent).session.taken == RecordedClaims(History(s, p, runs, cycles, spent))
  {
    if spent != [] {
      var n := |spent| - 1;
      var before := PlaySession(s, p, runs, cycles, spent[..n]);
      TakenIsRecorded(s, p, runs, cycles, spent[..n]);
      CycleCounts(s, p, before.runs, cycles[n], before.session, spent[n]);
      CountsConcat(History(s, p, runs, cycles, spent[..n]), CycleEvents(s, p, before.runs, cycles[n], before.session, spent[n]));
    }
  }

  /** Nothing happens to a stranded run. */
  lemma {:induction false} StrandedHasNoHistory(s: Setup, p: Selection.SelectionPolicy, runs: seq<RunRecord>, cycles: seq<Cycle>, spent: seq<bool>)
    requires s.Usable() && |spent| <= |cycles| && Stranded(runs)
    ensures PlaySession(s, p, runs, cycles, spent) == State(runs, None, Session([], 0, 0)) && History(s, p, runs, cycles, spent) == []
  {
    if spent != [] {
      var n := |spent| - 1;
      StrandedHasNoHistory(s, p, runs, cycles, spent[..n]);
      InFlightIsOnlyDriven(s, p, runs, cycles[n], Session([], 0, 0), spent[n]);
    }
  }

  // ---------------------------------------------------------------- Claims nobody records

  /** A claim whose worktree cannot be prepared, on a host that cannot be told so. */
  predicate Untold(p: Selection.SelectionPolicy, a: OnceAnswers) {
    && a.issues.Gave? && Selection.SelectNextIssue(a.issues.value, p).Some?
    && a.work.claimed && !a.work.prepared && !a.work.told
  }

  lemma {:induction false} UntoldWork(s: Setup, next: Next, runs: seq<RunRecord>, w: WorkAnswers)
    requires s.Usable() && next.Take? && w.claimed && !w.prepared && !w.told
    ensures WorkOn(s, next, runs, w) == (Claimed(runs, next.issue).(status := Blocked), Cut) && SpentOn(s, next, w) == 0
  {
  }

  /** Such a cycle blocks the issue in the journal, but neither skips it nor records the claim. */
  lemma {:induction false} UntoldCycle(s: Setup, p: Selection.SelectionPolicy, runs: seq<RunRecord>, c: Cycle, session: Session)
    requires s.Usable() && Sound(runs) && !HeadInFlight(runs) && Untold(p.(skip := session.skip), c.once)
    requires s.maxIssues == 0 || session.taken < s.maxIssues
    ensures var i := Selection.SelectNextIssue(c.once.issues.value, p.(skip := session.skip)).value;
            && PlayCycle(s, p, runs, c, session, false)
               == Tolerated(s, UpsertRun(runs, Claimed(runs, i.number).(status := Blocked)), session)
            && CycleEvents(s, p, runs, c, session, false) == [Claim(i.number, i.labels, c.once.work, Cut, false), GaveUpOn(i.number, false)]
    ensures !HeadInFlight(PlayCycle(s, p, runs, c, session, false).runs)
  {
    var next := NextWork(s, p.(skip := session.skip), runs, c.once);
    InFlightIsHead(runs);
    UntoldWork(s, next, runs, c.once.work);
    SavePuts(runs, Claimed(runs, next.issue).(status := Blocked));
  }

  /**
   As many claims as failures are tolerated in a row can go by with none of them recorded, and so without
   the daily limit or the ceiling of the session ever seeing one.
   */
  lemma {:induction false} UnrecordedClaims(s: Setup, p: Selection.SelectionPolicy, runs: seq<RunRecord>, cycles: seq<Cycle>, spent: seq<bool>)
    requires s.Usable() && Sound(runs) && !HeadInFlight(runs) && |spent| <= |cycles| && |spent| <= s.maxFailures
    requires forall k | 0 <= k < |spent| :: !spent[k] && Untold(p.(skip := []), cycles[k].once)
    ensures var last, history := PlaySession(s, p, runs, cycles, spent), History(s, p, runs, cycles, spent);
            && last.stop.None? && last.session == Session([], 0, |spent|) && Sound(last.runs) && !HeadInFlight(last.runs)
            && Claims(history) == |spent| && RecordedClaims(history) == 0
  {
    SessionIsSound(s, p, runs, cycles, spent);
    if spent != [] {
      var n := |spent| - 1;
      UnrecordedClaims(s, p, runs, cycles, spent[..n]);
      var before, c := PlaySession(s, p, runs, cycles, spent[..n]), cycles[n];
      UntoldCycle(s, p, before.runs, c, before.session);
      var events := CycleEvents(s, p, before.runs, c, before.session, false);
      CountsConcat(History(s, p, runs, cycles, spent[..n]), events);
      CountsConcat([events[0]], [events[1]]);
      CountsOfOne(events[0]);
      CountsOfOne(events[1]);
      assert events == [events[0]] + [events[1]];
    }
  }

  function UntoldAnswers(p: Selection.SelectionPolicy, issue: nat, rounds: nat -> Round): OnceAnswers {
    ReadyAnswers(p, issue, WorkAnswers(true, false, Gave(true), rounds, false, true, Gave(None), Gave(1), true))
  }

  /** A cycle that claims this issue, and gives it up without being able to say so. */
  function UntoldCycleFor(p: Selection.SelectionPolicy, issue: nat, rounds: nat -> Round): Cycle {
    Cycle(PullAnswers(Threw, Threw, false, NoChecks, false), UntoldAnswers(p, issue, rounds))
  }

  /** Where more failures are tolerated than issues a day: `perDay` + 1 claims, of one issue or of several, and an empty claim log. */
  lemma {:induction false} UntoldClaimsExceedTheDay(s: Setup, p: Selection.SelectionPolicy, perDay: nat, taken: seq<nat>, rounds: nat -> Round,
                                                    cycles: seq<Cycle>, spent: seq<bool>)
    requires s.Usable() && perDay < s.maxFailures && p.requiredLabel !in p.excludedLabels
    requires |cycles| == |spent| == |taken| == perDay + 1 && true !in spent
    requires forall k | 0 <= k < |taken| :: cycles[k] == UntoldCycleFor(p.(skip := []), taken[k], rounds)
    ensures Claims(History(s, p, [], cycles, spent)) == perDay + 1 && RecordedClaims(History(s, p, [], cycles, spent)) == 0
  {
    forall k | 0 <= k < |spent| ensures !spent[k] && Untold(p.(skip := []), cycles[k].once) {
      Selection.ReadyIssueIsSelected(p.(skip := []), taken[k]);
      assert spent[k] in spent;
    }
    UnrecordedClaims(s, p, [], cycles, spent);
  }

  /** An open pull request that nobody has to do anything about. */
  ghost predicate WithTheHost(runs: seq<RunRecord>) {
    HeadInFlight(runs) && runs[0].status == AwaitingReview && runs[0].pullRequest.Some?
  }

  /** A cycle that sees the open pull request merged, and publishes another issue without being able to say so. */
  ghost predicate PublishesUntold(s: Setup, p: Selection.SelectionPolicy, c: Cycle)
    requires s.Usable()
  {
    && c.pull.state == Gave(MergedPull) && c.once.issues.Gave?
    && var selected := Selection.SelectNextIssue(c.once.issues.value, p);
    && selected.Some? && c.once.work.claimed && !c.once.work.handedOver && Publishable(s, selected.value.labels, c.once.work, 0)
  }

  /** A cycle that only sees pending checks. */
  predicate Waits(c: Cycle) {
    c.pull.state == Gave(OpenPull) && c.pull.mergeability == Gave(Clean) && c.pull.checks == Pending
  }

  lemma {:induction false} MergedRunIsDone(s: Setup, runs: seq<RunRecord>, a: PullAnswers)
    requires Sound(runs) && (!HeadInFlight(runs) || WithTheHost(runs)) && a.state == Gave(MergedPull)
    ensures !HeadInFlight(AfterDrive(s, runs, a)) && Sound(AfterDrive(s, runs, a)) && !DriveThrows(s, runs, a)
    ensures SkipAfterDrive(s, runs, a, []) == [] && DriveEvents(s, runs, a) == []
  {
    AfterDriveIsSound(s, runs, a);
    if HeadInFlight(runs) { SavePuts(runs, runs[0].(status := Done)); }
  }

  lemma {:induction false} UntoldPublication(s: Setup, next: Next, runs: seq<RunRecord>, w: WorkAnswers)
    requires s.Usable() && next.Take? && w.claimed && !w.handedOver && Publishable(s, next.labels, w, next.start)
    ensures After(s, next, runs, w).1 == Broke && WithTheHost(After(s, next, runs, w).0)
    ensures ClaimEvents(s, next, runs, w) == [Claim(next.issue, next.labels, w, Cut, true)]
  {
    EndsUncutIff(s, next, runs, w);
    WorkOnFollows(s, next, runs, w);
    SavePuts(runs, WorkOn(s, next, runs, w).0);
  }

  lemma {:induction false} PublishingCycle(s: Setup, p: Selection.SelectionPolicy, runs: seq<RunRecord>, c: Cycle)
    requires s.Usable() && Sound(runs) && (!HeadInFlight(runs) || WithTheHost(runs))
    requires PublishesUntold(s, p.(skip := []), c) && s.maxFailures > 0
    ensures var next := PlayCycle(s, p, runs, c, Session([], 0, 0), false);
            next.stop.None? && next.session == Session([], 0, 1) && WithTheHost(next.runs)
    ensures var events := CycleEvents(s, p, runs, c, Session([], 0, 0), false);
            |events| == 1 && events[0].Claim? && events[0].end == Cut && events[0].published
  {
    var driven := AfterDrive(s, runs, c.pull);
    var next := NextWork(s, p.(skip := []), driven, c.once);
    MergedRunIsDone(s, runs, c.pull);
    InFlightIsHead(driven);
    UntoldPublication(s, next, driven, c.once.work);
    assert TakesWork(s, runs, c, Session([], 0, 0), false);
  }

  lemma {:induction false} WaitingCycle(s: Setup, p: Selection.SelectionPolicy, runs: seq<RunRecord>, c: Cycle)
    requires s.Usable() && WithTheHost(runs) && Waits(c)
    ensures PlayCycle(s, p, runs, c, Session([], 0, 1), false) == State(runs, None, Session([], 0, 0))
    ensures CycleEvents(s, p, runs, c, Session([], 0, 1), false) == []
  {
  }

  /** Publish, wait, publish, wait. */
  ghost predicate Alternates(s: Setup, p: Selection.SelectionPolicy, c: Cycle, publishes: bool)
    requires s.Usable()
  {
    if publishes then PublishesUntold(s, p, c) else Waits(c)
  }

  /** Where such a session stands, about to publish or about to wait. */
  ghost predicate GoesOn(last: State, publishes: bool) {
    && last.stop.None? && Sound(last.runs)
    && last.session == Session([], 0, if publishes then 0 else 1)
    && if publishes then !HeadInFlight(last.runs) || WithTheHost(last.runs) else WithTheHost(last.runs)
  }

  lemma {:induction false} PublishingStep(s: Setup, p: Selection.SelectionPolicy, before: State, c: Cycle, after: State, events: seq<Event>)
    requires s.Usable() && s.maxFailures > 0 && GoesOn(before, true) && PublishesUntold(s, p.(skip := []), c)
    requires after == PlayCycle(s, p, before.runs, c, before.session, false)
    requires events == CycleEvents(s, p, before.runs, c, before.session, false)
    ensures GoesOn(after, false) && Claims(events) == 1 && RecordedClaims(events) == 0
  {
    CycleIsSound(s, p, before.runs, c, before.session, false);
    PublishingCycle(s, p, before.runs, c);
    CountsOfOne(events[0]);
    assert events == [events[0]];
  }

  lemma {:induction false} WaitingStep(s: Setup, p: Selection.SelectionPolicy, before: State, c: Cycle, after: State, events: seq<Event>)
    requires s.Usable() && GoesOn(before, false) && Waits(c)
    requires after == PlayCycle(s, p, before.runs, c, before.session, false)
    requires events == CycleEvents(s, p, before.runs, c, before.session, false)
    ensures GoesOn(after, true) && Claims(events) == RecordedClaims(events) == 0
  {
    WaitingCycle(s, p, before.runs, c);
  }

  lemma {:induction false} AlternatingStep(s: Setup, p: Selection.SelectionPolicy, before: State, c: Cycle, publishes: bool, after: State, events: seq<Event>)
    requires s.Usable() && s.maxFailures > 0 && GoesOn(before, publishes) && Alternates(s, p.(skip := []), c, publishes)
    requires after == PlayCycle(s, p, before.runs, c, before.session, false)
    requires events == CycleEvents(s, p, before.runs, c, before.session, false)
    ensures GoesOn(after, !publishes) && Claims(events) == (if publishes then 1 else 0) && RecordedClaims(events) == 0
  {
    if publishes { PublishingStep(s, p, before, c, after, events); } else { WaitingStep(s, p, before, c, after, events); }
  }

  predicate Publishes(k: nat) {
    k == 0 || !Publishes(k - 1)
  }

  function Publications(n: nat): nat {
    if n == 0 then 0 else Publications(n - 1) + if Publishes(n - 1) then 1 else 0
  }

  lemma {:induction false} EveryOtherPublishes(n: nat)
    ensures Publishes(n) == (n % 2 == 0) && Publications(n) == (n + 1) / 2
  {
    if n > 0 { EveryOtherPublishes(n - 1); }
  }

  /** Every cycle so far found room in the budget, and published or waited in its turn. */
  ghost predicate TakesTurns(s: Setup, p: Selection.SelectionPolicy, cycles: seq<Cycle>, spent: seq<bool>)
    requires s.Usable() && |spent| <= |cycles|
  {
    spent == []
    || (var n := |spent| - 1; TakesTurns(s, p, cycles, spent[..n]) && !spent[n] && Alternates(s, p, cycles[n], Publishes(n)))
  }

  /**
   A session that publishes in every other cycle, and can never say so, claims without end: no claim is
   recorded, so neither the daily limit nor the ceiling nor the tolerance for failures ever stops it.
   */
  lemma {:induction false} UnrecordedPublications(s: Setup, p: Selection.SelectionPolicy, runs: seq<RunRecord>, cycles: seq<Cycle>, spent: seq<bool>)
    requires s.Usable() && s.maxFailures > 0 && Sound(runs) && !HeadInFlight(runs) && |spent| <= |cycles|
    requires TakesTurns(s, p.(skip := []), cycles, spent)
    ensures GoesOn(PlaySession(s, p, runs, cycles, spent), Publishes(|spent|))
    ensures Claims(History(s, p, runs, cycles, spent)) == Publications(|spent|) && RecordedClaims(History(s, p, runs, cycles, spent)) == 0
  {
    if spent != [] {
      var n := |spent| - 1;
      UnrecordedPublications(s, p, runs, cycles, spent[..n]);
      var before := PlaySession(s, p, runs, cycles, spent[..n]);
      var events := CycleEvents(s, p, before.runs, cycles[n], before.session, false);
      AlternatingStep(s, p, before, cycles[n], Publishes(n), PlayCycle(s, p, before.runs, cycles[n], before.session, false), events);
      CountsConcat(History(s, p, runs, cycles, spent[..n]), events);
    }
  }

  /** One cycle of that session, for an issue that is ready when the backlog is read. */
  function PublishOrWait(p: Selection.SelectionPolicy, issue: nat, diff: string, changed: seq<string>, pullRequest: nat, k: nat): Cycle {
    var open := PullAnswers(Gave(if Publishes(k) then MergedPull else OpenPull), Gave(Clean), false, Pending, true);
    Cycle(open, ReadyAnswers(p, issue, FavourableWork(diff, changed, pullRequest, false)))
  }

  lemma {:induction false} PublishOrWaitAlternates(s: Setup, p: Selection.SelectionPolicy, issue: nat, diff: string, changed: seq<string>,
                                                   pullRequest: nat, k: nat)
    requires s.Usable() && s.reviewers > 0 && s.reviewerRetries > 0 && issue !in p.skip && p.requiredLabel !in p.excludedLabels
    ensures Alternates(s, p, PublishOrWait(p, issue, diff, changed, pullRequest, k), Publishes(k))
  {
    Selection.ReadyIssueIsSelected(p, issue);
    FavourableWorkIsPublishable(s, Selection.ReadyIssue(p, issue).labels, diff, changed, pullRequest, false);
  }

  /** A session that publishes whichever issues it takes, and cannot say so. */
  ghost predicate PublishesWhatItTakes(p: Selection.SelectionPolicy, taken: seq<nat>, diff: string, changed: seq<string>, pullRequest: nat, cycles: seq<Cycle>) {
    |cycles| == |taken| && forall k | 0 <= k < |taken| :: cycles[k] == PublishOrWait(p, taken[k], diff, changed, pullRequest, k)
  }

  lemma {:induction false} PublishingTakesTurns(s: Setup, p: Selection.SelectionPolicy, taken: seq<nat>, diff: string, changed: seq<string>,
                                                pullRequest: nat, cycles: seq<Cycle>, spent: seq<bool>)
    requires s.Usable() && s.reviewers > 0 && s.reviewerRetries > 0 && p.skip == [] && p.requiredLabel !in p.excludedLabels
    requires PublishesWhatItTakes(p, taken, diff, changed, pullRequest, cycles) && |spent| <= |cycles| && true !in spent
    ensures TakesTurns(s, p, cycles, spent)
  {
    if spent != [] {
      var n := |spent| - 1;
      assert spent[n] in spent;
      PublishingTakesTurns(s, p, taken, diff, changed, pullRequest, cycles, spent[..n]);
      PublishOrWaitAlternates(s, p, taken[n], diff, changed, pullRequest, n);
    }
  }

  lemma {:induction false} PublishingGoesUnrecorded(s: Setup, p: Selection.SelectionPolicy, taken: seq<nat>, diff: string, changed: seq<string>,
                                                    pullRequest: nat, cycles: seq<Cycle>, spent: seq<bool>)
    requires s.Usable() && s.reviewers > 0 && s.reviewerRetries > 0 && s.maxFailures > 0 && p.requiredLabel !in p.excludedLabels
    requires PublishesWhatItTakes(p.(skip := []), taken, diff, changed, pullRequest, cycles) && |spent| <= |cycles| && true !in spent
    ensures var history := History(s, p, [], cycles, spent); Claims(history) == Publications(|spent|) && RecordedClaims(history) == 0
  {
    PublishingTakesTurns(s, p.(skip := []), taken, diff, changed, pullRequest, cycles, spent);
    UnrecordedPublications(s, p, [], cycles, spent);
  }

  /** More claims than the daily limit, and a claim log over which no check would find it reached. */
  ghost predicate ExceedsUnseen(limits: Budgets.Limits, history: seq<Event>) {
    && Claims(history) > limits.perDay
    && forall log: seq<int>, startedAt, invocations, t1, t2, t3 | |log| == RecordedClaims(history) ::
         Budgets.Verdict(limits, startedAt, invocations, log, t1, t2, t3) != Some(Budgets.Issues)
  }

  lemma {:induction false} UnrecordedIsUnseen(limits: Budgets.Limits, history: seq<Event>)
    requires Claims(history) == Publications(2 * limits.perDay + 1) && RecordedClaims(history) == 0
    ensures ExceedsUnseen(limits, history)
  {
    EveryOtherPublishes(2 * limits.perDay + 1);
  }

  /**
   However few issues a day the budget allows, and however few failures are tolerated, such a session publishes one
   issue more than that, whichever issues it takes.  Its claim log stays empty, and over an empty log no check ever
   finds the daily limit reached.
   */
  lemma {:induction false} PublicationsExceedTheDay(s: Setup, p: Selection.SelectionPolicy, limits: Budgets.Limits, taken: seq<nat>, diff: string,
                                                    changed: seq<string>, pullRequest: nat, cycles: seq<Cycle>, spent: seq<bool>)
    requires s.Usable() && s.reviewers > 0 && s.reviewerRetries > 0 && s.maxFailures > 0 && p.requiredLabel !in p.excludedLabels
    requires |taken| == 2 * limits.perDay + 1 && PublishesWhatItTakes(p.(skip := []), taken, diff, changed, pullRequest, cycles)
    requires |spent| == |taken| && true !in spent
    ensures ExceedsUnseen(limits, History(s, p, [], cycles, spent))
  {
    PublishingGoesUnrecorded(s, p, taken, diff, changed, pullRequest, cycles, spent);
    UnrecordedIsUnseen(limits, History(s, p, [], cycles, spent));
  }
}
