/**
 Local verification of a change: the step loop that stops at the first failure.  Running commands
 is an oracle: what is on PATH, how a probe exits, and how a step's command ends.
 */
module Verification {
  import opened Options
  import opened Policies
  import Globs

  datatype StepOutcome = Passed | Failed | NotApplicable | Unavailable

  datatype StepResult = StepResult(name: string, outcome: StepOutcome)

  datatype ExecResult = ExecResult(code: int, timedOut: bool)

  datatype Machine = Machine(
    onPath: string -> bool, probe: seq<string> -> int, exec: TierStep -> ExecResult, matches: (seq<string>, string) -> bool)

  /** Restrictions on a run: the paths the change touches, and the steps to keep; absent means no restriction. */
  datatype Scope = Scope(changedFiles: Option<seq<string>>, only: Option<seq<string>>)

  datatype VerificationOutcome = VerificationOutcome(
    ok: bool, steps: seq<StepResult>, firstFailure: Option<StepResult>, unavailable: seq<string>, failed: seq<string>)

  predicate Selected(s: Scope, step: TierStep) {
    s.only.None? || step.name in s.only.value
  }

  predicate Touched(m: Machine, s: Scope, step: TierStep) {
    || step.whenChanged.None? || s.changedFiles.None?
    || exists i | 0 <= i < |s.changedFiles.value| :: m.matches(step.whenChanged.value, s.changedFiles.value[i])
  }

  /** The tool a step needs is there, and the probe that shows it works succeeds. */
  predicate Runnable(m: Machine, step: TierStep) {
    && (step.tool.None? || m.onPath(step.tool.value))
    && (step.requiresProbe.None? || m.probe(step.requiresProbe.value) == 0)
  }

  predicate Succeeds(m: Machine, step: TierStep) {
    m.exec(step).code == 0 && !m.exec(step).timedOut
  }

  function Judge(m: Machine, s: Scope, step: TierStep): StepOutcome {
    if !Touched(m, s, step) then NotApplicable
    else if !Runnable(m, step) then Unavailable
    else if Succeeds(m, step) then Passed
    else Failed
  }

  function RunSteps(m: Machine, s: Scope, steps: seq<TierStep>): seq<StepResult> {
    if steps == [] then []
    else if !Selected(s, steps[0]) then RunSteps(m, s, steps[1..])
    else
      var outcome := Judge(m, s, steps[0]);
      [StepResult(steps[0].name, outcome)] + (if outcome == Failed then [] else RunSteps(m, s, steps[1..]))
  }

  function NamesWith(results: seq<StepResult>, outcome: StepOutcome): seq<string> {
    if results == [] then []
    else (if results[0].outcome == outcome then [results[0].name] else []) + NamesWith(results[1..], outcome)
  }

  function FirstFailure(results: seq<StepResult>): Option<StepResult> {
    if results == [] then None
    else if results[0].outcome == Failed then Some(results[0])
    else FirstFailure(results[1..])
  }

  function Outcome(results: seq<StepResult>): VerificationOutcome {
    var failed, unavailable := NamesWith(results, Failed), NamesWith(results, Unavailable);
    VerificationOutcome(failed == [] && unavailable == [], results, FirstFailure(results), unavailable, failed)
  }

  method VerifySteps(m: Machine, s: Scope, steps: seq<TierStep>) returns (v: VerificationOutcome)
    ensures v == Outcome(RunSteps(m, s, steps))
  {
    var results: seq<StepResult> := [];
    var i := 0;
    while i < |steps|
      invariant 0 <= i <= |steps| && results + RunSteps(m, s, steps[i..]) == RunSteps(m, s, steps)
    {
      var step := steps[i];
      assert steps[i..][1..] == steps[i + 1..];
      i := i + 1;
      if !Selected(s, step) { continue; }
      if !Touched(m, s, step) {
        results := results + [StepResult(step.name, NotApplicable)];
        continue;
      }
      if step.tool.Some? && !m.onPath(step.tool.value) {
        results := results + [StepResult(step.name, Unavailable)];
        continue;
      }
      if step.requiresProbe.Some? && m.probe(step.requiresProbe.value) != 0 {
        results := results + [StepResult(step.name, Unavailable)];
        continue;
      }
      var result := m.exec(step);
      var passed := result.code == 0 && !result.timedOut;
      results := results + [StepResult(step.name, if passed then Passed else Failed)];
      if !passed {
        assert results == RunSteps(m, s, steps);
        break;
      }
    }
    assert results == RunSteps(m, s, steps);
    v := Outcome(results);
  }

  // ---------------------------------------------------------------- What a green verification means

  function Kept(s: Scope, steps: seq<TierStep>): seq<TierStep> {
    if steps == [] then [] else (if Selected(s, steps[0]) then [steps[0]] else []) + Kept(s, steps[1..])
  }

  predicate Settled(o: StepOutcome) {
    o == Passed || o == NotApplicable
  }

  /** Every demanded step, in order, was recorded as passed or as having nothing to say. */
  ghost predicate AllSettled(m: Machine, s: Scope, steps: seq<TierStep>, results: seq<StepResult>) {
    && |results| == |steps|
    && forall i | 0 <= i < |steps| :: results[i] == StepResult(steps[i].name, Judge(m, s, steps[i])) && Settled(results[i].outcome)
  }

  lemma {:induction false} NamesWithNone(results: seq<StepResult>, outcome: StepOutcome)
    ensures NamesWith(results, outcome) == [] <==> forall i | 0 <= i < |results| :: results[i].outcome != outcome
  {
    if results != [] { NamesWithNone(results[1..], outcome); }
  }

  /** The results follow the kept steps one by one, and only a failure leaves any of them out. */
  lemma {:induction false} ResultsFollowTheSteps(m: Machine, s: Scope, steps: seq<TierStep>, kept: seq<TierStep>, results: seq<StepResult>)
    requires kept == Kept(s, steps) && results == RunSteps(m, s, steps)
    ensures |results| <= |kept|
    ensures forall i {:trigger results[i]} | 0 <= i < |results| :: results[i] == StepResult(kept[i].name, Judge(m, s, kept[i]))
    ensures |results| < |kept| ==> results != [] && results[|results| - 1].outcome == Failed
    ensures forall i {:trigger results[i]} | 0 <= i < |results| - 1 :: results[i].outcome != Failed
  {
    if steps != [] {
      ResultsFollowTheSteps(m, s, steps[1..], Kept(s, steps[1..]), RunSteps(m, s, steps[1..]));
    }
  }

  /** Verification is green exactly when every kept step settles, and then each is on record, in order. */
  lemma {:induction false} GreenIffAllSettled(m: Machine, s: Scope, steps: seq<TierStep>)
    ensures var v := Outcome(RunSteps(m, s, steps));
            && (v.ok <==> forall i | 0 <= i < |Kept(s, steps)| :: Settled(Judge(m, s, Kept(s, steps)[i])))
            && (v.ok <==> AllSettled(m, s, Kept(s, steps), v.steps))
  {
    var results, kept := RunSteps(m, s, steps), Kept(s, steps);
    NamesWithNone(results, Failed);
    NamesWithNone(results, Unavailable);
    ResultsFollowTheSteps(m, s, steps, kept, results);
    if Outcome(results).ok {
      forall i | 0 <= i < |kept| ensures Settled(Judge(m, s, kept[i])) { assert Settled(results[i].outcome); }
    }
  }

  /** No step runs after a failure, so at most the last result failed, and it is the one reported first. */
  lemma {:induction false} StopsAtTheFirstFailure(m: Machine, s: Scope, steps: seq<TierStep>)
    ensures var results := RunSteps(m, s, steps);
            && (forall i | 0 <= i < |results| - 1 :: results[i].outcome != Failed)
            && (FirstFailure(results).Some? ==> FirstFailure(results).value == results[|results| - 1])
  {
    if steps != [] { StopsAtTheFirstFailure(m, s, steps[1..]); }
  }

  lemma {:induction false} UnrestrictedKeepsAll(s: Scope, steps: seq<TierStep>)
    requires s.only.None?
    ensures Kept(s, steps) == steps
  {
    if steps != [] { UnrestrictedKeepsAll(s, steps[1..]); }
  }

  // ---------------------------------------------------------------- Which steps a change is put through

  /** The machine as it is: paths are matched by the policy's own globs. */
  function GlobMachine(m: Machine): Machine {
    m.(matches := (patterns, path) => Globs.MatchesAnyGlob(patterns, path))
  }

  /** A step has nothing to say exactly when it is scoped to paths and no changed file falls into blocks fitting one of its patterns. */
  lemma {:induction false} NotApplicableIff(m: Machine, s: Scope, step: TierStep)
    ensures Judge(GlobMachine(m), s, step) == NotApplicable <==>
              && step.whenChanged.Some? && s.changedFiles.Some?
              && forall i, j, blocks | 0 <= i < |s.changedFiles.value| && 0 <= j < |step.whenChanged.value| ::
                   !Globs.Splits(Globs.SEGMENTS, Globs.Segments(step.whenChanged.value[j]), Globs.Segments(s.changedFiles.value[i]), blocks)
  {
    if step.whenChanged.Some? && s.changedFiles.Some? {
      var files, patterns := s.changedFiles.value, step.whenChanged.value;
      forall i, j | 0 <= i < |files| && 0 <= j < |patterns|
        ensures Globs.MatchesGlob(patterns[j], files[i])
                <==> exists blocks :: Globs.Splits(Globs.SEGMENTS, Globs.Segments(patterns[j]), Globs.Segments(files[i]), blocks)
      {
        Globs.MatchIffSplits(Globs.SEGMENTS, Globs.Segments(patterns[j]), Globs.Segments(files[i]));
      }
      SomeFileMatches(m, s, step);
    }
  }

  lemma {:induction false} SomeFileMatches(m: Machine, s: Scope, step: TierStep)
    requires step.whenChanged.Some? && s.changedFiles.Some?
    ensures Touched(GlobMachine(m), s, step) <==>
              exists i, j :: 0 <= i < |s.changedFiles.value| && 0 <= j < |step.whenChanged.value|
                          && Globs.MatchesGlob(step.whenChanged.value[j], s.changedFiles.value[i])
  {
    var files, patterns, g := s.changedFiles.value, step.whenChanged.value, GlobMachine(m);
    forall i | 0 <= i < |files|
      ensures g.matches(patterns, files[i]) <==> exists j :: 0 <= j < |patterns| && Globs.MatchesGlob(patterns[j], files[i]) {}
  }
}
