/**
 Finding every way a proposed policy is weaker than the one in force (`findWeakenedProtections`),
 and what an empty list of findings does and does not guarantee.
 */
module ControlPlanes {
  import opened Options
  import opened Policies
  import opened Diffs
  import opened Globs
  import opened Risks

  datatype Limit = CodingFixRounds | ReviewFixRounds | CiFixRounds

  datatype Weakening =
    | CheckRemoved(check: string)
    | ReviewersDropped(level: RiskLevel)
    | StepsLost(level: RiskLevel)
    | SeverityRaised
    | RuleRemoved(risk: RiskLevel, pattern: string)
    | LimitDoubled(limit: Limit)
    | UnsafeWorkflow(path: string, construct: nat)

  const WORKFLOW_FILES := [WORKFLOWS]
  const UNSAFE_CONSTRUCTS := 5

  /** What a proposal is compared on: both policies, the diff, and the workflow patterns as a parameter. */
  datatype Proposal = Proposal(base: LoopPolicy, head: LoopPolicy, files: seq<DiffFile>, d: Detectors, unsafe: (nat, string) -> bool)

  function LimitOf(p: LoopPolicy, limit: Limit): nat {
    match limit
    case CodingFixRounds => p.retry.codingFixRounds
    case ReviewFixRounds => p.retry.reviewFixRounds
    case CiFixRounds => p.retry.ciFixRounds
  }

  predicate ListsPattern(p: LoopPolicy, pattern: string) {
    exists i | 0 <= i < |p.paths| :: pattern in p.paths[i].patterns
  }

  predicate LosesStep(before: Tier, after: Tier) {
    exists i | 0 <= i < |before.steps| :: !HasStep(after.steps, before.steps[i].name)
  }

  predicate Introduces(q: Proposal, f: DiffFile, k: nat) {
    q.d.matches(WORKFLOW_FILES, f.path) && exists i | 0 <= i < |f.addedLines| :: q.unsafe(k, f.addedLines[i])
  }

  /** What each finding claims. */
  ghost predicate Weakens(w: Weakening, q: Proposal) {
    match w
    case CheckRemoved(check) => check in q.base.requiredChecks && check !in q.head.requiredChecks
    case ReviewersDropped(level) => q.head.tiers.At(level).reviewers < q.base.tiers.At(level).reviewers
    case StepsLost(level) => LosesStep(q.base.tiers.At(level), q.head.tiers.At(level))
    case SeverityRaised => SeverityOrder(q.head.blockingSeverity) > SeverityOrder(q.base.blockingSeverity)
    case RuleRemoved(risk, pattern) => RuleLists(q.base.paths, risk, pattern) && !ListsPattern(q.head, pattern)
    case LimitDoubled(limit) => LimitOf(q.head, limit) > LimitOf(q.base, limit) * 2
    case UnsafeWorkflow(path, k) => k < UNSAFE_CONSTRUCTS && exists f :: f in q.files && f.path == path && Introduces(q, f, k)
  }

  ghost predicate RuleLists(rules: seq<PathRule>, risk: RiskLevel, pattern: string) {
    exists rule :: rule in rules && rule.risk == risk && pattern in rule.patterns
  }

  method RemovedChecks(q: Proposal) returns (found: seq<Weakening>)
    ensures forall w :: w in found <==> w.CheckRemoved? && Weakens(w, q)
  {
    found := [];
    var checks := q.base.requiredChecks;
    for i := 0 to |checks|
      invariant forall w :: w in found <==> w.CheckRemoved? && w.check in checks[..i] && w.check !in q.head.requiredChecks
    {
      assert checks[..i + 1] == checks[..i] + [checks[i]];
      if checks[i] !in q.head.requiredChecks { found := found + [CheckRemoved(checks[i])]; }
    }
    assert checks[..|checks|] == checks;
  }

  method WeakenedTiers(q: Proposal) returns (found: seq<Weakening>)
    ensures forall w :: w in found <==> (w.ReviewersDropped? || w.StepsLost?) && Weakens(w, q)
  {
    var levels := [Low, Medium, High];
    found := [];
    for i := 0 to 3
      invariant forall w :: w in found <==> (w.ReviewersDropped? || w.StepsLost?) && w.level in levels[..i] && Weakens(w, q)
    {
      assert levels[..i + 1] == levels[..i] + [levels[i]];
      var level := levels[i];
      var before, after := q.base.tiers.At(level), q.head.tiers.At(level);
      if after.reviewers < before.reviewers { found := found + [ReviewersDropped(level)]; }
      if LosesStep(before, after) { found := found + [StepsLost(level)]; }
    }
    assert levels[0] == Low && levels[1] == Medium && levels[2] == High;
    forall level: RiskLevel ensures level in levels[..3] {
      match level case Low => case Medium => case High =>
    }
  }

  method RemovedRules(q: Proposal) returns (found: seq<Weakening>)
    ensures forall w :: w in found <==> w.RuleRemoved? && Weakens(w, q)
  {
    found := [];
    var rules := q.base.paths;
    for i := 0 to |rules|
      invariant forall w :: w in found <==> w.RuleRemoved? && RuleLists(rules[..i], w.risk, w.pattern) && !ListsPattern(q.head, w.pattern)
    {
      var rule, before := rules[i], found;
      assert rules[..i + 1] == rules[..i] + [rule];
      for j := 0 to |rule.patterns|
        invariant forall w :: w in found <==>
          (w in before || (w.RuleRemoved? && w.risk == rule.risk && w.pattern in rule.patterns[..j] && !ListsPattern(q.head, w.pattern)))
      {
        assert rule.patterns[..j + 1] == rule.patterns[..j] + [rule.patterns[j]];
        if !ListsPattern(q.head, rule.patterns[j]) { found := found + [RuleRemoved(rule.risk, rule.patterns[j])]; }
      }
      assert rule.patterns[..|rule.patterns|] == rule.patterns;
    }
    assert rules[..|rules|] == rules;
  }

  method DoubledLimits(q: Proposal) returns (found: seq<Weakening>)
    ensures forall w :: w in found <==> w.LimitDoubled? && Weakens(w, q)
  {
    var limits := [CodingFixRounds, ReviewFixRounds, CiFixRounds];
    found := [];
    for i := 0 to 3
      invariant forall w :: w in found <==> w.LimitDoubled? && w.limit in limits[..i] && Weakens(w, q)
    {
      assert limits[..i + 1] == limits[..i] + [limits[i]];
      if LimitOf(q.head, limits[i]) > LimitOf(q.base, limits[i]) * 2 { found := found + [LimitDoubled(limits[i])]; }
    }
    assert limits[0] == CodingFixRounds && limits[1] == ReviewFixRounds && limits[2] == CiFixRounds;
    forall limit: Limit ensures limit in limits[..3] {
      match limit case CodingFixRounds => case ReviewFixRounds => case CiFixRounds =>
    }
  }

  method FindUnsafeWorkflowChanges(q: Proposal) returns (found: seq<Weakening>)
    ensures forall w :: w in found <==> w.UnsafeWorkflow? && Weakens(w, q)
  {
    found := [];
    for i := 0 to |q.files|
      invariant forall w :: w in found <==>
        (w.UnsafeWorkflow? && w.construct < UNSAFE_CONSTRUCTS
         && exists f :: f in q.files[..i] && f.path == w.path && Introduces(q, f, w.construct))
    {
      var file, before := q.files[i], found;
      assert q.files[..i + 1] == q.files[..i] + [file];
      for k := 0 to UNSAFE_CONSTRUCTS
        invariant forall w :: w in found <==>
          (w in before || (w.UnsafeWorkflow? && w.path == file.path && w.construct < k && Introduces(q, file, w.construct)))
      {
        if Introduces(q, file, k) { found := found + [UnsafeWorkflow(file.path, k)]; }
      }
    }
    assert q.files[..|q.files|] == q.files;
  }

  /** The findings are exactly the weakenings: none is missed and none is made up. */
  method FindWeakenedProtections(q: Proposal) returns (found: seq<Weakening>)
    ensures forall w :: w in found <==> Weakens(w, q)
  {
    var checks := RemovedChecks(q);
    var tiers := WeakenedTiers(q);
    var severity := if q.head.blockingSeverity != q.base.blockingSeverity
                       && IsAtLeastSeverity(q.head.blockingSeverity, q.base.blockingSeverity) then [SeverityRaised] else [];
    var rules := RemovedRules(q);
    var limits := DoubledLimits(q);
    var workflows := FindUnsafeWorkflowChanges(q);
    found := checks + tiers + severity + rules + limits + workflows;
  }

  // ---------------------------------------------------------------- What no findings guarantee

  /** Level `l` is on the inheritance chain that starts at `level`. */
  predicate OnChain(t: Tiers, level: RiskLevel, n: nat, l: RiskLevel)
    decreases n
  {
    l == level || (n > 0 && t.Parent(level).Some? && OnChain(t, t.Parent(level).value, n - 1, l))
  }

  lemma {:induction false} DemandsFollowTheChain(t: Tiers, level: RiskLevel, n: nat, name: string)
    ensures Demands(t, level, n, name) <==> exists l :: OnChain(t, level, n, l) && HasStep(t.At(l).steps, name)
    decreases n
  {
    if n > 0 && t.Parent(level).Some? { DemandsFollowTheChain(t, t.Parent(level).value, n - 1, name); }
    assert OnChain(t, level, n, level);
  }

  ghost predicate OwnStepsKept(base: Tiers, head: Tiers) {
    forall l: RiskLevel :: !LosesStep(base.At(l), head.At(l))
  }

  ghost predicate Covers(base: Tiers, head: Tiers, level: RiskLevel)
    requires Ends(base, level, 2) && Ends(head, level, 2)
  {
    forall name :: HasStep(StepsForRisk(base, level), name) ==> HasStep(StepsForRisk(head, level), name)
  }

  ghost predicate ChainKept(base: Tiers, head: Tiers, level: RiskLevel) {
    forall l: RiskLevel :: OnChain(base, level, 2, l) ==> OnChain(head, level, 2, l)
  }

  lemma {:induction false} KeptStepStays(before: Tier, after: Tier, name: string)
    requires !LosesStep(before, after) && HasStep(before.steps, name)
    ensures HasStep(after.steps, name)
  {
    var i :| 0 <= i < |before.steps| && before.steps[i].name == name;
  }

  lemma {:induction false} KeptChainsCover(base: Tiers, head: Tiers, level: RiskLevel)
    requires Ends(base, level, 2) && Ends(head, level, 2) && OwnStepsKept(base, head) && ChainKept(base, head, level)
    ensures Covers(base, head, level)
  {
    forall name | HasStep(StepsForRisk(base, level), name) ensures HasStep(StepsForRisk(head, level), name) {
      StepsAreDemands(base, level, 2, name);
      StepsAreDemands(head, level, 2, name);
      DemandsFollowTheChain(base, level, 2, name);
      DemandsFollowTheChain(head, level, 2, name);
      var l :| OnChain(base, level, 2, l) && HasStep(base.At(l).steps, name);
      KeptStepStays(base.At(l), head.At(l), name);
    }
  }

  /** A proposal that reports nothing, and keeps each tier's chain, verifies at least as much at every level. */
  lemma {:induction false} NoFindingsCover(q: Proposal, level: RiskLevel)
    requires forall w :: !Weakens(w, q)
    requires Ends(q.base.tiers, level, 2) && Ends(q.head.tiers, level, 2) && ChainKept(q.base.tiers, q.head.tiers, level)
    ensures Covers(q.base.tiers, q.head.tiers, level)
    ensures ReviewersForRisk(q.head, level) >= ReviewersForRisk(q.base, level)
  {
    forall l: RiskLevel ensures !LosesStep(q.base.tiers.At(l), q.head.tiers.At(l)) { assert !Weakens(StepsLost(l), q); }
    assert !Weakens(ReviewersDropped(level), q);
    KeptChainsCover(q.base.tiers, q.head.tiers, level);
  }

  ghost predicate SameInheritance(s: Tiers, t: Tiers) {
    forall l: RiskLevel :: s.At(l).inherits == t.At(l).inherits
  }

  lemma {:induction false} SameInheritanceSameChain(s: Tiers, t: Tiers, level: RiskLevel, n: nat, l: RiskLevel)
    requires SameInheritance(s, t)
    ensures OnChain(s, level, n, l) == OnChain(t, level, n, l) && Ends(s, level, n) == Ends(t, level, n)
    decreases n
  {
    assert s.Parent(level) == t.Parent(level);
    if n > 0 && s.Parent(level).Some? { SameInheritanceSameChain(s, t, s.Parent(level).value, n - 1, l); }
  }

  function OnlyAt(t: Tiers, l: RiskLevel, step: TierStep): Tiers {
    Tiers(Tier(t.low.inherits, if l == Low then [step] else [], 1),
          Tier(t.medium.inherits, if l == Medium then [step] else [], 1),
          Tier(t.high.inherits, if l == High then [step] else [], 1))
  }

  lemma {:induction false} OnlyAtDemands(t: Tiers, level: RiskLevel, n: nat, l: RiskLevel, step: TierStep)
    ensures Demands(OnlyAt(t, l, step), level, n, step.name) <==> OnChain(t, level, n, l)
    decreases n
  {
    var s := OnlyAt(t, l, step);
    assert s.Parent(level) == t.Parent(level);
    assert level == l ==> s.At(level).steps[0].name == step.name;
    if n > 0 && t.Parent(level).Some? { OnlyAtDemands(t, t.Parent(level).value, n - 1, l, step); }
  }

  /** The step comparison looks at each tier's own list, so a chain that lost a level can lose a step unreported. */
  lemma {:induction false} LostChainLosesAStep(base: Tiers, head: Tiers, level: RiskLevel, l: RiskLevel)
    requires Ends(base, level, 2) && Ends(head, level, 2) && OnChain(base, level, 2, l) && !OnChain(head, level, 2, l)
    ensures exists b, h :: SameInheritance(b, base) && SameInheritance(h, head) && OwnStepsKept(b, h)
                        && Ends(b, level, 2) && Ends(h, level, 2) && !Covers(b, h, level)
  {
    var step := TierStep("step", "", [], None, None, None, 1);
    var b, h := OnlyAt(base, l, step), OnlyAt(head, l, step);
    SameInheritanceSameChain(b, base, level, 2, l);
    SameInheritanceSameChain(h, head, level, 2, l);
    OnlyAtDemands(base, level, 2, l, step);
    OnlyAtDemands(head, level, 2, l, step);
    StepsAreDemands(b, level, 2, step.name);
    StepsAreDemands(h, level, 2, step.name);
    assert OwnStepsKept(b, h) by {
      forall k: RiskLevel ensures !LosesStep(b.At(k), h.At(k)) { assert b.At(k).steps == h.At(k).steps; }
    }
    assert HasStep(StepsForRisk(b, level), step.name) && !HasStep(StepsForRisk(h, level), step.name);
    assert SameInheritance(b, base) && SameInheritance(h, head) && !Covers(b, h, level);
  }

  /** Comparing tiers' own steps protects what a level demands exactly when the level's chain is kept. */
  lemma {:induction false} ChainsDecideCoverage(base: Tiers, head: Tiers, level: RiskLevel)
    requires Ends(base, level, 2) && Ends(head, level, 2)
    ensures ChainKept(base, head, level) <==>
              forall b, h | SameInheritance(b, base) && SameInheritance(h, head) && OwnStepsKept(b, h) && Ends(b, level, 2) && Ends(h, level, 2)
                :: Covers(b, h, level)
  {
    if ChainKept(base, head, level) {
      forall b, h | SameInheritance(b, base) && SameInheritance(h, head) && OwnStepsKept(b, h) && Ends(b, level, 2) && Ends(h, level, 2)
        ensures Covers(b, h, level)
      {
        forall l: RiskLevel | OnChain(b, level, 2, l) ensures OnChain(h, level, 2, l) {
          SameInheritanceSameChain(b, base, level, 2, l);
          SameInheritanceSameChain(h, head, level, 2, l);
        }
        KeptChainsCover(b, h, level);
      }
    } else {
      var l: RiskLevel :| OnChain(base, level, 2, l) && !OnChain(head, level, 2, l);
      LostChainLosesAStep(base, head, level, l);
    }
  }

  lemma {:induction false} NothingLostToItself(t: Tier)
    ensures !LosesStep(t, t)
  {
    assert forall i | 0 <= i < |t.steps| :: HasStep(t.steps, t.steps[i].name);
  }

  /** The diff adds an unsafe construct to a workflow. */
  ghost predicate AddsUnsafeConstruct(q: Proposal) {
    exists path, k :: Weakens(UnsafeWorkflow(path, k), q)
  }

  /** Both policies agree on everything the comparison looks at. */
  ghost predicate AgreesWhereCompared(q: Proposal) {
    && q.head.requiredChecks == q.base.requiredChecks && q.head.tiers == q.base.tiers
    && q.head.blockingSeverity == q.base.blockingSeverity && q.head.paths == q.base.paths && q.head.retry == q.base.retry
  }

  /**
   The default risk, the size limits, the lists that escalate a change and the whole control plane are not
   compared at all: whatever becomes of them goes unreported.
   */
  lemma {:induction false} UncomparedFieldsAreNotReported(q: Proposal)
    requires AgreesWhereCompared(q) && !AddsUnsafeConstruct(q)
    ensures forall w :: !Weakens(w, q)
  {
    forall w ensures !Weakens(w, q) {
      match w
      case StepsLost(level) => NothingLostToItself(q.base.tiers.At(level));
      case RuleRemoved(risk, pattern) =>
        if rule :| rule in q.base.paths && rule.risk == risk && pattern in rule.patterns {
          var i :| 0 <= i < |q.head.paths| && q.head.paths[i] == rule;
        }
      case _ =>
    }
  }

  /**
   For a proposal that only rewrites the path rules, nothing is reported exactly when every pattern
   is still listed at some level: moving a pattern to a lower level goes unreported.
   */
  lemma {:induction false} RetieringIsNotReported(q: Proposal)
    requires q.head == q.base.(paths := q.head.paths) && !AddsUnsafeConstruct(q)
    ensures (forall w :: !Weakens(w, q)) <==> forall rule, pattern | rule in q.base.paths && pattern in rule.patterns :: ListsPattern(q.head, pattern)
  {
    forall rule, pattern | rule in q.base.paths && pattern in rule.patterns
      ensures Weakens(RuleRemoved(rule.risk, pattern), q) <==> !ListsPattern(q.head, pattern) {}
    if forall rule, pattern | rule in q.base.paths && pattern in rule.patterns :: ListsPattern(q.head, pattern) {
      forall w ensures !Weakens(w, q) {
        match w
        case StepsLost(level) => NothingLostToItself(q.base.tiers.At(level));
        case RuleRemoved(risk, pattern) => assert RuleLists(q.base.paths, risk, pattern) ==> ListsPattern(q.head, pattern);
        case _ =>
      }
    }
  }

  ghost predicate DoublesALimit(q: Proposal) {
    exists limit :: LimitOf(q.head, limit) > LimitOf(q.base, limit) * 2
  }

  /** For a proposal that only changes retry limits, something is reported exactly when one more than doubles or a workflow turns unsafe. */
  lemma {:induction false} RetryLimitsWeakenIff(q: Proposal)
    requires q.head == q.base.(retry := q.head.retry)
    ensures (exists w :: Weakens(w, q)) <==> DoublesALimit(q) || AddsUnsafeConstruct(q)
  {
    if limit :| LimitOf(q.head, limit) > LimitOf(q.base, limit) * 2 { assert Weakens(LimitDoubled(limit), q); }
    if w :| Weakens(w, q) {
      forall l: RiskLevel ensures !LosesStep(q.base.tiers.At(l), q.head.tiers.At(l)) { NothingLostToItself(q.base.tiers.At(l)); }
      forall risk, pattern | RuleLists(q.base.paths, risk, pattern) ensures ListsPattern(q.head, pattern) {
        var rule :| rule in q.base.paths && rule.risk == risk && pattern in rule.patterns;
        var i :| 0 <= i < |q.base.paths| && q.base.paths[i] == rule;
      }
      assert w.LimitDoubled? || w.UnsafeWorkflow?;
    }
  }

  // ---------------------------------------------------------------- Which workflow files are looked at

  /** Under the policy's own path matching a construct is looked for exactly in the files inside the workflow directory. */
  lemma {:induction false} WorkflowFilesAreSearched(q: Proposal, f: DiffFile, k: nat)
    requires q.d == GlobDetectors(q.d)
    ensures Introduces(q, f, k) <==>
              [".github", "workflows"] <= Segments(f.path) && exists i :: 0 <= i < |f.addedLines| && q.unsafe(k, f.addedLines[i])
  {
    WorkflowPathsMatch(f.path);
    assert WORKFLOW_FILES[0] == WORKFLOWS;
  }
}
