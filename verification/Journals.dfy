/** The runner's journal: one record per issue, newest first, capped at 200. */
module Journals {
  import opened Options
  import opened Policies

  datatype Phase = Implement | Verify | Review | Fix | Publish
  datatype AttemptOutcome = Ok | Failed | Skipped
  datatype Attempt = Attempt(phase: Phase, outcome: AttemptOutcome)

  datatype RunStatus = InProgress | AwaitingReview | Blocked | Done

  datatype RunRecord = RunRecord(
    issue: nat, status: RunStatus, fixRounds: nat, ciRounds: nat, conflictRounds: nat,
    pullRequest: Option<nat>, risk: Option<RiskLevel>, attempts: seq<Attempt>)

  const MAX_RUNS := 200
  const MAX_ATTEMPTS := 100

  predicate IsInFlight(r: RunRecord) {
    r.status == InProgress || r.status == AwaitingReview
  }

  /** Runs this machine started that the host has not finished with. */
  function InFlight(runs: seq<RunRecord>): (r: seq<RunRecord>)
    ensures forall x {:trigger x in r} :: x in r <==> x in runs && IsInFlight(x)
    ensures r == [] <==> forall i | 0 <= i < |runs| :: !IsInFlight(runs[i])
  {
    if runs == [] then []
    else
      assert runs == [runs[0]] + runs[1..];
      (if IsInFlight(runs[0]) then [runs[0]] else []) + InFlight(runs[1..])
  }

  function FindRun(runs: seq<RunRecord>, issue: nat): (r: Option<RunRecord>)
    ensures r.Some? ==> r.value in runs && r.value.issue == issue
    ensures r.None? ==> forall i {:trigger runs[i]} | 0 <= i < |runs| :: runs[i].issue != issue
  {
    if runs == [] then None else if runs[0].issue == issue then Some(runs[0]) else FindRun(runs[1..], issue)
  }

  function Others(runs: seq<RunRecord>, issue: nat): seq<RunRecord> {
    if runs == [] then [] else (if runs[0].issue != issue then [runs[0]] else []) + Others(runs[1..], issue)
  }

  function UpsertRun(runs: seq<RunRecord>, r: RunRecord): seq<RunRecord> {
    var all := [r] + Others(runs, r.issue);
    if |all| <= MAX_RUNS then all else all[..MAX_RUNS]
  }

  function AppendAttempt(r: RunRecord, a: Attempt): RunRecord {
    var all := r.attempts + [a];
    r.(attempts := if |all| <= MAX_ATTEMPTS then all else all[|all| - MAX_ATTEMPTS..])
  }

  // ---------------------------------------------------------------- What every save keeps

  ghost predicate UniqueIssues(runs: seq<RunRecord>) {
    forall i, j | 0 <= i < j < |runs| :: runs[i].issue != runs[j].issue
  }

  /** At most one run is in flight, and it stands at the head, where the cap cannot reach it. */
  ghost predicate OnlyHeadInFlight(runs: seq<RunRecord>) {
    forall i | 1 <= i < |runs| :: !IsInFlight(runs[i])
  }

  ghost predicate Sound(runs: seq<RunRecord>) {
    UniqueIssues(runs) && OnlyHeadInFlight(runs) && |runs| <= MAX_RUNS
  }

  /** Nothing else is in flight while `issue` is being worked on. */
  ghost predicate Exclusive(runs: seq<RunRecord>, issue: nat) {
    forall i | 0 <= i < |runs| && IsInFlight(runs[i]) :: runs[i].issue == issue
  }

  lemma {:induction false} OthersAre(runs: seq<RunRecord>, issue: nat)
    ensures forall x {:trigger x in Others(runs, issue)} :: x in Others(runs, issue) <==> x in runs && x.issue != issue
    ensures UniqueIssues(runs) ==> UniqueIssues(Others(runs, issue))
  {
    if runs != [] {
      var head, tail := runs[0], runs[1..];
      assert runs == [head] + tail;
      OthersAre(tail, issue);
      if UniqueIssues(runs) {
        forall k | 0 <= k < |Others(tail, issue)| ensures Others(tail, issue)[k].issue != head.issue {
          assert Others(tail, issue)[k] in Others(tail, issue);
          assert Others(tail, issue)[k] in tail;
        }
      }
    }
  }

  lemma {:induction false} AllOthers(runs: seq<RunRecord>, issue: nat)
    requires forall i | 0 <= i < |runs| :: runs[i].issue != issue
    ensures Others(runs, issue) == runs
  {
    if runs != [] { AllOthers(runs[1..], issue); }
  }

  lemma {:induction false} SaveOnto(runs: seq<RunRecord>, r: RunRecord, rest: seq<RunRecord>)
    requires runs != [] && runs[0].issue == r.issue && rest == runs[1..]
    requires (forall i | 0 <= i < |rest| :: rest[i].issue != r.issue) && |runs| <= MAX_RUNS
    ensures UpsertRun(runs, r) == [r] + rest
  {
    AllOthers(rest, r.issue);
  }

  /** What a save leaves behind its record. */
  function Behind(runs: seq<RunRecord>, issue: nat): seq<RunRecord> {
    var rest := Others(runs, issue);
    if |rest| < MAX_RUNS then rest else rest[..MAX_RUNS - 1]
  }

  lemma {:induction false} SavePuts(runs: seq<RunRecord>, r: RunRecord)
    ensures UpsertRun(runs, r) == [r] + Behind(runs, r.issue)
    ensures forall i | 0 <= i < |Behind(runs, r.issue)| :: Behind(runs, r.issue)[i].issue != r.issue
  {
    OthersAre(runs, r.issue);
    forall i | 0 <= i < |Behind(runs, r.issue)| ensures Behind(runs, r.issue)[i].issue != r.issue {
      assert Behind(runs, r.issue)[i] in Others(runs, r.issue);
    }
  }

  /** Of two saves for one issue only the later one shows. */
  lemma {:induction false} LaterSaveWins(runs: seq<RunRecord>, a: RunRecord, b: RunRecord, saved: seq<RunRecord>)
    requires a.issue == b.issue && saved == UpsertRun(runs, a)
    ensures UpsertRun(saved, b) == UpsertRun(runs, b)
  {
    SavePuts(runs, a);
    SavePuts(runs, b);
    SaveOnto(saved, b, Behind(runs, a.issue));
  }

  /** A save of the one issue being worked on keeps the journal sound and puts its record at the head. */
  lemma {:induction false} UpsertKeepsSound(runs: seq<RunRecord>, r: RunRecord)
    requires Sound(runs) && Exclusive(runs, r.issue)
    ensures Sound(UpsertRun(runs, r)) && UpsertRun(runs, r)[0] == r && Exclusive(UpsertRun(runs, r), r.issue)
  {
    OthersAre(runs, r.issue);
    var rest := Others(runs, r.issue);
    forall k | 0 <= k < |rest| ensures rest[k].issue != r.issue && !IsInFlight(rest[k]) {
      assert rest[k] in rest;
      assert rest[k] in runs;
    }
  }

  /** The head of a sound journal is the only record that can be in flight. */
  lemma {:induction false} SoundIsExclusive(runs: seq<RunRecord>, r: RunRecord)
    requires Sound(runs) && r in runs && IsInFlight(r)
    ensures runs[0] == r && Exclusive(runs, r.issue) && InFlight(runs) == [r]
  {
    assert InFlight(runs[1..]) == [];
  }

  lemma {:induction false} NothingInFlight(runs: seq<RunRecord>, issue: nat)
    requires InFlight(runs) == []
    ensures Exclusive(runs, issue)
  {
    forall i | 0 <= i < |runs| ensures !IsInFlight(runs[i]) {
      assert runs[i] in runs;
      assert runs[i] !in InFlight(runs);
    }
  }

  lemma {:induction false} FoundIsUnique(runs: seq<RunRecord>, r: RunRecord)
    requires UniqueIssues(runs) && r in runs
    ensures FindRun(runs, r.issue) == Some(r)
  {
    var found := FindRun(runs, r.issue);
    var i :| 0 <= i < |runs| && runs[i] == r;
    assert found.Some?;
    var j :| 0 <= j < |runs| && runs[j] == found.value;
  }
}
