/** The loop policy: risk levels, severities, and the verification steps each risk tier demands. */
module Policies {
  import opened Options

  datatype RiskLevel = Low | Medium | High

  function RiskOrder(r: RiskLevel): nat {
    match r case Low => 0 case Medium => 1 case High => 2
  }

  predicate AtLeastRisk(value: RiskLevel, threshold: RiskLevel) {
    RiskOrder(value) >= RiskOrder(threshold)
  }

  function MaxRisk(a: RiskLevel, b: RiskLevel): RiskLevel {
    if RiskOrder(a) >= RiskOrder(b) then a else b
  }

  datatype Severity = Info | Minor | Moderate | Major | Critical

  function SeverityOrder(s: Severity): nat {
    match s case Info => 0 case Minor => 1 case Moderate => 2 case Major => 3 case Critical => 4
  }

  predicate IsAtLeastSeverity(value: Severity, threshold: Severity) {
    SeverityOrder(value) >= SeverityOrder(threshold)
  }

  datatype TierStep = TierStep(
    name: string, command: string, args: seq<string>, whenChanged: Option<seq<string>>,
    tool: Option<string>, requiresProbe: Option<seq<string>>, timeoutMinutes: nat)

  datatype Tier = Tier(inherits: Option<RiskLevel>, steps: seq<TierStep>, reviewers: nat)

  datatype Tiers = Tiers(low: Tier, medium: Tier, high: Tier) {
    function At(level: RiskLevel): Tier {
      match level case Low => low case Medium => medium case High => high
    }

    /** The tier collected before this one; a tier naming itself inherits nothing. */
    function Parent(level: RiskLevel): Option<RiskLevel> {
      if At(level).inherits == Some(level) then None else At(level).inherits
    }
  }

  datatype PathRule = PathRule(risk: RiskLevel, patterns: seq<string>)

  datatype Retry = Retry(maxReviewAttempts: nat, codingFixRounds: nat, reviewFixRounds: nat, ciFixRounds: nat)

  datatype LoopPolicy = LoopPolicy(
    tiers: Tiers, retry: Retry, blockingSeverity: Severity, requiredChecks: seq<string>,
    defaultRisk: RiskLevel, paths: seq<PathRule>, maxChangedFiles: nat, maxDeletedLines: nat,
    destructiveMigrationGlobs: seq<string>, publicContractGlobs: seq<string>,
    controlPlanePatterns: seq<string>, alwaysPolicy: seq<string>, policySignals: seq<string>)

  const MAX_ROUNDS := 10
  const MAX_REVIEWERS := 4
  const MAX_TIMEOUT := 180

  predicate AcceptedTexts(texts: seq<string>) {
    forall i | 0 <= i < |texts| :: texts[i] != ""
  }

  predicate AcceptedStep(step: TierStep) {
    && step.name != "" && 1 <= step.timeoutMinutes <= MAX_TIMEOUT
    && (step.whenChanged.Some? ==> AcceptedTexts(step.whenChanged.value)) && step.tool != Some("")
    && (step.requiresProbe.Some? ==> step.requiresProbe.value != [] && AcceptedTexts(step.requiresProbe.value))
  }

  predicate AcceptedTier(tier: Tier) {
    1 <= tier.reviewers <= MAX_REVIEWERS && forall i | 0 <= i < |tier.steps| :: AcceptedStep(tier.steps[i])
  }

  predicate AcceptedRetry(r: Retry) {
    && 1 <= r.maxReviewAttempts <= MAX_ROUNDS && 1 <= r.codingFixRounds <= MAX_ROUNDS
    && 1 <= r.reviewFixRounds <= MAX_ROUNDS && 1 <= r.ciFixRounds <= MAX_ROUNDS
  }

  /** What the schema accepts, as far as it is modelled: no other policy is ever in force or proposed. */
  predicate Accepted(p: LoopPolicy) {
    && AcceptedTier(p.tiers.low) && AcceptedTier(p.tiers.medium) && AcceptedTier(p.tiers.high) && AcceptedRetry(p.retry)
    && p.paths != [] && (forall i | 0 <= i < |p.paths| :: p.paths[i].patterns != [] && AcceptedTexts(p.paths[i].patterns))
    && p.maxChangedFiles > 0 && p.maxDeletedLines > 0
    && p.controlPlanePatterns != [] && AcceptedTexts(p.controlPlanePatterns)
    && AcceptedTexts(p.alwaysPolicy) && AcceptedTexts(p.policySignals) && AcceptedTexts(p.requiredChecks)
  }

  function ReviewersForRisk(policy: LoopPolicy, risk: RiskLevel): nat {
    policy.tiers.At(risk).reviewers
  }

  // ---------------------------------------------------------------- Inheritance

  /** Following `inherits` from `level` comes to an end within `n` steps. */
  predicate Ends(t: Tiers, level: RiskLevel, n: nat)
    decreases n
  {
    t.Parent(level).None? || (n > 0 && Ends(t, t.Parent(level).value, n - 1))
  }

  /** There are three levels, so a chain that ends at all ends within two steps. */
  lemma {:induction false} EndsWithinTwo(t: Tiers, level: RiskLevel, n: nat)
    requires Ends(t, level, n)
    ensures Ends(t, level, 2)
    decreases n
  {
    if n > 2 {
      var p := t.Parent(level);
      if p.Some? {
        EndsWithinTwo(t, p.value, n - 1);
        var q := t.Parent(p.value);
        if q.Some? && t.Parent(q.value).Some? { CycleNeverEnds(t, level, n); }
      }
    }
  }

  lemma {:induction false} CycleNeverEnds(t: Tiers, level: RiskLevel, n: nat)
    requires t.Parent(level).Some? && t.Parent(t.Parent(level).value).Some?
    requires t.Parent(t.Parent(t.Parent(level).value).value).Some?
    ensures !Ends(t, level, n)
    decreases n
  {
    if n > 0 {
      var p := t.Parent(level).value;
      var q := t.Parent(p).value;
      var r := t.Parent(q).value;
      assert r == level || r == p;
      CycleNeverEnds(t, p, n - 1);
    }
  }

  // ---------------------------------------------------------------- Steps

  predicate HasStep(steps: seq<TierStep>, name: string) {
    exists i :: 0 <= i < |steps| && steps[i].name == name
  }

  /** Appends the steps whose name is not there yet. */
  function AddSteps(steps: seq<TierStep>, more: seq<TierStep>): seq<TierStep>
    decreases |more|
  {
    if more == [] then steps
    else if HasStep(steps, more[0].name) then AddSteps(steps, more[1..])
    else AddSteps(steps + [more[0]], more[1..])
  }

  function CollectSteps(t: Tiers, level: RiskLevel, n: nat): seq<TierStep>
    requires Ends(t, level, n)
    decreases n
  {
    AddSteps(if t.Parent(level).Some? then CollectSteps(t, t.Parent(level).value, n - 1) else [], t.At(level).steps)
  }

  function StepsForRisk(t: Tiers, level: RiskLevel): seq<TierStep>
    requires Ends(t, level, 2)
  {
    CollectSteps(t, level, 2)
  }

  lemma {:induction false} CollectIgnoresFuel(t: Tiers, level: RiskLevel, m: nat, n: nat)
    requires Ends(t, level, m) && Ends(t, level, n)
    ensures CollectSteps(t, level, m) == CollectSteps(t, level, n)
    decreases m
  {
    if t.Parent(level).Some? { CollectIgnoresFuel(t, t.Parent(level).value, m - 1, n - 1); }
  }

  ghost predicate DistinctNames(steps: seq<TierStep>) {
    forall i, j | 0 <= i < j < |steps| :: steps[i].name != steps[j].name
  }

  lemma {:induction false} AddStepsFacts(steps: seq<TierStep>, more: seq<TierStep>, name: string)
    ensures steps <= AddSteps(steps, more)
    ensures DistinctNames(steps) ==> DistinctNames(AddSteps(steps, more))
    ensures HasStep(AddSteps(steps, more), name) <==> HasStep(steps, name) || HasStep(more, name)
    decreases |more|
  {
    if more != [] {
      var next := if HasStep(steps, more[0].name) then steps else steps + [more[0]];
      AddStepsFacts(next, more[1..], name);
      HasStepConcat(steps, [more[0]], name);
      assert more == [more[0]] + more[1..];
      HasStepConcat([more[0]], more[1..], name);
    }
  }

  lemma {:induction false} HasStepConcat(a: seq<TierStep>, b: seq<TierStep>, name: string)
    ensures HasStep(a + b, name) <==> HasStep(a, name) || HasStep(b, name)
  {
    if i :| 0 <= i < |a| && a[i].name == name { assert (a + b)[i].name == name; }
    if i :| 0 <= i < |b| && b[i].name == name { assert (a + b)[|a| + i].name == name; }
  }

  /** A tier never lists a step twice, and starts with everything the tier it inherits demands. */
  lemma {:induction false} StepsExtendTheInherited(t: Tiers, level: RiskLevel)
    requires Ends(t, level, 2)
    ensures DistinctNames(StepsForRisk(t, level))
    ensures t.Parent(level).Some? ==>
              Ends(t, t.Parent(level).value, 2) && StepsForRisk(t, t.Parent(level).value) <= StepsForRisk(t, level)
  {
    CollectIsDistinct(t, level, 2);
    if t.Parent(level).Some? {
      var p := t.Parent(level).value;
      EndsWithinTwo(t, p, 1);
      CollectIgnoresFuel(t, p, 1, 2);
      AddStepsFacts(CollectSteps(t, p, 1), t.At(level).steps, "");
    }
  }

  lemma {:induction false} CollectIsDistinct(t: Tiers, level: RiskLevel, n: nat)
    requires Ends(t, level, n)
    ensures DistinctNames(CollectSteps(t, level, n))
    decreases n
  {
    if t.Parent(level).Some? {
      CollectIsDistinct(t, t.Parent(level).value, n - 1);
      AddStepsFacts(CollectSteps(t, t.Parent(level).value, n - 1), t.At(level).steps, "");
    } else {
      AddStepsFacts([], t.At(level).steps, "");
    }
  }

  /** A step is demanded at a level exactly when some tier on its inheritance chain lists it. */
  ghost predicate Demands(t: Tiers, level: RiskLevel, n: nat, name: string)
    decreases n
  {
    HasStep(t.At(level).steps, name) || (n > 0 && t.Parent(level).Some? && Demands(t, t.Parent(level).value, n - 1, name))
  }

  lemma {:induction false} StepsAreDemands(t: Tiers, level: RiskLevel, n: nat, name: string)
    requires Ends(t, level, n)
    ensures HasStep(CollectSteps(t, level, n), name) <==> Demands(t, level, n, name)
    decreases n
  {
    if t.Parent(level).Some? {
      StepsAreDemands(t, t.Parent(level).value, n - 1, name);
      AddStepsFacts(CollectSteps(t, t.Parent(level).value, n - 1), t.At(level).steps, name);
    } else {
      AddStepsFacts([], t.At(level).steps, name);
    }
  }

  /** The source's recursive closure over a `seen` set and a growing list. */
  class StepCollector {
    var seen: set<string>
    var steps: seq<TierStep>

    constructor ()
      ensures seen == {} && steps == []
    {
      seen, steps := {}, [];
    }

    ghost predicate Valid()
      reads this
    {
      forall name :: name in seen <==> HasStep(steps, name)
    }

    method Collect(t: Tiers, level: RiskLevel, ghost n: nat)
      requires Valid() && steps == [] && Ends(t, level, n)
      modifies this
      ensures Valid() && steps == CollectSteps(t, level, n)
      decreases n
    {
      var tier := t.At(level);
      if tier.inherits.Some? && tier.inherits.value != level { Collect(t, tier.inherits.value, n - 1); }
      ghost var start := steps;
      for i := 0 to |tier.steps|
        invariant Valid() && AddSteps(steps, tier.steps[i..]) == AddSteps(start, tier.steps)
      {
        var step := tier.steps[i];
        assert tier.steps[i..][1..] == tier.steps[i + 1..];
        if step.name !in seen {
          HasStepsSnoc(steps, step);
          seen := seen + {step.name};
          steps := steps + [step];
        }
      }
    }
  }

  lemma {:induction false} HasStepsSnoc(steps: seq<TierStep>, step: TierStep)
    ensures forall name :: HasStep(steps + [step], name) <==> HasStep(steps, name) || name == step.name
  {
    forall name ensures HasStep(steps + [step], name) <==> HasStep(steps, name) || name == step.name {
      HasStepConcat(steps, [step], name);
      assert [step][0] == step;
    }
  }

  method ComputeSteps(t: Tiers, level: RiskLevel) returns (steps: seq<TierStep>)
    requires Ends(t, level, 2)
    ensures steps == StepsForRisk(t, level)
  {
    var collector := new StepCollector();
    collector.Collect(t, level, 2);
    steps := collector.steps;
  }
}
