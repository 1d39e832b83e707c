/**
 Risk classification.  What a file is tested with (the path matcher, and the detectors of
 destructive SQL, removed exports, major upgrades and policy signals) is a parameter: every result
 holds for any detectors, `GlobDetectors` being those that match paths as the policy does.
 */
module Risks {
  import opened Options
  import opened Policies
  import opened Diffs
  import opened Globs

  datatype Detectors = Detectors(
    matches: (seq<string>, string) -> bool, destructive: seq<string> -> bool, removesExports: DiffFile -> bool, majorUpgrades: DiffFile -> nat,
    signals: (string, string) -> bool)

  function GlobDetectors(d: Detectors): Detectors {
    d.(matches := (patterns, path) => MatchesAnyGlob(patterns, path))
  }

  datatype ReasonSource = Default | Path | Label | Escalation | ControlPlane | BasePolicy

  datatype RiskReason = RiskReason(risk: RiskLevel, source: ReasonSource)

  datatype Assessment = Assessment(risk: RiskLevel, reasons: seq<RiskReason>)

  function MaxOf(reasons: seq<RiskReason>, start: RiskLevel): RiskLevel {
    if reasons == [] then start else MaxRisk(MaxOf(reasons[..|reasons| - 1], start), reasons[|reasons| - 1].risk)
  }

  // ---------------------------------------------------------------- The reasons, one source at a time

  predicate Touches(patterns: seq<string>, files: seq<DiffFile>, d: Detectors) {
    exists i | 0 <= i < |files| :: d.matches(patterns, files[i].path)
  }

  function PathReasons(rules: seq<PathRule>, files: seq<DiffFile>, d: Detectors): seq<RiskReason> {
    if rules == [] then []
    else
      var last := rules[|rules| - 1];
      PathReasons(rules[..|rules| - 1], files, d) + (if Touches(last.patterns, files, d) then [RiskReason(last.risk, Path)] else [])
  }

  function DeclaredRisk(name: string): Option<RiskLevel> {
    if name == "risk:low" then Some(Low)
    else if name == "risk:medium" then Some(Medium)
    else if name == "risk:high" then Some(High)
    else None
  }

  function LabelReasons(labels: seq<string>): seq<RiskReason> {
    if labels == [] then []
    else
      var declared := DeclaredRisk(labels[|labels| - 1]);
      LabelReasons(labels[..|labels| - 1]) + (if declared.Some? then [RiskReason(declared.value, Label)] else [])
  }

  function Repeat(n: nat, reason: RiskReason): (r: seq<RiskReason>)
    ensures |r| == n && forall i | 0 <= i < n :: r[i] == reason
  {
    seq(n, _ => reason)
  }

  predicate CarriesPolicy(p: LoopPolicy, d: Detectors, f: DiffFile) {
    exists i, j | 0 <= i < |f.addedLines + f.removedLines| && 0 <= j < |p.policySignals| ::
      d.signals(p.policySignals[j], (f.addedLines + f.removedLines)[i])
  }

  predicate OnControlPlane(p: LoopPolicy, d: Detectors, f: DiffFile) {
    d.matches(p.controlPlanePatterns, f.path) || d.matches(p.alwaysPolicy, f.path) || CarriesPolicy(p, d, f)
  }

  /** What the diff is searched for, file by file, in the order it is searched. */
  datatype Concern = DestructiveMigration | BreakingExport | MajorUpgrade | Machinery

  /** How many reasons of one kind a file raises. */
  function Raised(kind: Concern, p: LoopPolicy, d: Detectors, f: DiffFile): nat {
    match kind
    case DestructiveMigration => if d.matches(p.destructiveMigrationGlobs, f.path) && d.destructive(f.addedLines) then 1 else 0
    case BreakingExport => if d.matches(p.publicContractGlobs, f.path) && d.removesExports(f) then 1 else 0
    case MajorUpgrade => d.majorUpgrades(f)
    case Machinery => if OnControlPlane(p, d, f) then 1 else 0
  }

  function Total(kind: Concern, files: seq<DiffFile>, p: LoopPolicy, d: Detectors): nat {
    if files == [] then 0
    else Total(kind, files[..|files| - 1], p, d) + Raised(kind, p, d, files[|files| - 1])
  }

  function EscalationCount(files: seq<DiffFile>, p: LoopPolicy, d: Detectors): nat {
    (if |files| > p.maxChangedFiles then 1 else 0)
    + (if Deletions(files) > p.maxDeletedLines then 1 else 0)
    + Total(DestructiveMigration, files, p, d) + Total(BreakingExport, files, p, d) + Total(MajorUpgrade, files, p, d)
  }

  function Reasons(files: seq<DiffFile>, labels: seq<string>, p: LoopPolicy, d: Detectors): (r: seq<RiskReason>)
  {
    [RiskReason(p.defaultRisk, Default)] + PathReasons(p.paths, files, d) + LabelReasons(labels)
    + Repeat(EscalationCount(files, p, d), RiskReason(High, Escalation))
    + Repeat(Total(Machinery, files, p, d), RiskReason(High, ControlPlane))
  }

  function RiskOf(files: seq<DiffFile>, labels: seq<string>, p: LoopPolicy, d: Detectors): RiskLevel {
    MaxOf(Reasons(files, labels, p, d), p.defaultRisk)
  }

  // ---------------------------------------------------------------- The classifier

  /** One pass over the files for one kind of reason. */
  method Search(kind: Concern, files: seq<DiffFile>, p: LoopPolicy, d: Detectors) returns (count: nat)
    ensures count == Total(kind, files, p, d)
  {
    count := 0;
    for i := 0 to |files|
      invariant count == Total(kind, files[..i], p, d)
    {
      assert files[..i + 1][..i] == files[..i];
      count := count + Raised(kind, p, d, files[i]);
    }
    assert files[..|files|] == files;
  }

  method FindEscalations(files: seq<DiffFile>, p: LoopPolicy, d: Detectors) returns (found: seq<RiskReason>)
    ensures found == Repeat(EscalationCount(files, p, d), RiskReason(High, Escalation))
  {
    var reason := RiskReason(High, Escalation);
    found := [];
    if |files| > p.maxChangedFiles { found := found + [reason]; }
    if Deletions(files) > p.maxDeletedLines { found := found + [reason]; }
    var destructive := Search(DestructiveMigration, files, p, d);
    var breaking := Search(BreakingExport, files, p, d);
    var upgrades := Search(MajorUpgrade, files, p, d);
    found := found + Repeat(destructive + breaking + upgrades, reason);
  }

  /** The running risk is the maximum of the reasons listed so far. */
  ghost predicate Sums(a: Assessment, start: RiskLevel) {
    a.risk == MaxOf(a.reasons, start)
  }

  function Noted(a: Assessment, reason: RiskReason): Assessment {
    Assessment(MaxRisk(a.risk, reason.risk), a.reasons + [reason])
  }

  lemma {:induction false} NotedSums(a: Assessment, reason: RiskReason, start: RiskLevel)
    requires Sums(a, start)
    ensures Sums(Noted(a, reason), start)
  {
    assert (a.reasons + [reason])[..|a.reasons|] == a.reasons;
  }

  method NotePaths(a: Assessment, rules: seq<PathRule>, files: seq<DiffFile>, d: Detectors, ghost start: RiskLevel) returns (b: Assessment)
    requires Sums(a, start)
    ensures Sums(b, start) && b.reasons == a.reasons + PathReasons(rules, files, d)
  {
    b := a;
    for i := 0 to |rules|
      invariant Sums(b, start) && b.reasons == a.reasons + PathReasons(rules[..i], files, d)
    {
      assert rules[..i + 1][..i] == rules[..i];
      if Touches(rules[i].patterns, files, d) {
        NotedSums(b, RiskReason(rules[i].risk, Path), start);
        b := Noted(b, RiskReason(rules[i].risk, Path));
      }
    }
    assert rules[..|rules|] == rules;
  }

  method NoteLabels(a: Assessment, labels: seq<string>, ghost start: RiskLevel) returns (b: Assessment)
    requires Sums(a, start)
    ensures Sums(b, start) && b.reasons == a.reasons + LabelReasons(labels)
  {
    b := a;
    for i := 0 to |labels|
      invariant Sums(b, start) && b.reasons == a.reasons + LabelReasons(labels[..i])
    {
      assert labels[..i + 1][..i] == labels[..i];
      var declared := DeclaredRisk(labels[i]);
      if declared.Some? {
        NotedSums(b, RiskReason(declared.value, Label), start);
        b := Noted(b, RiskReason(declared.value, Label));
      }
    }
    assert labels[..|labels|] == labels;
  }

  method NoteAll(a: Assessment, found: seq<RiskReason>, ghost start: RiskLevel) returns (b: Assessment)
    requires Sums(a, start)
    ensures Sums(b, start) && b.reasons == a.reasons + found
  {
    b := a;
    for i := 0 to |found|
      invariant Sums(b, start) && b.reasons == a.reasons + found[..i]
    {
      NotedSums(b, found[i], start);
      b := Noted(b, found[i]);
    }
  }

  // ---------------------------------------------------------------- The control plane

  /** Whether the change reaches what governs the loop, whether it changes what the rules say, and where. */
  datatype Reach = Reach(affected: bool, policyBearing: bool, files: seq<string>)

  /** Policy by definition, or by what the changed lines say. */
  predicate BearsPolicy(p: LoopPolicy, d: Detectors, f: DiffFile) {
    d.matches(p.alwaysPolicy, f.path) || CarriesPolicy(p, d, f)
  }

  function ControlPlaneFiles(files: seq<DiffFile>, p: LoopPolicy, d: Detectors): seq<string> {
    if files == [] then []
    else
      var f := files[|files| - 1];
      ControlPlaneFiles(files[..|files| - 1], p, d) + if OnControlPlane(p, d, f) then [f.path] else []
  }

  function ReachOf(files: seq<DiffFile>, p: LoopPolicy, d: Detectors): Reach {
    Reach(
      exists i | 0 <= i < |files| :: OnControlPlane(p, d, files[i]), exists i | 0 <= i < |files| :: BearsPolicy(p, d, files[i]),
      ControlPlaneFiles(files, p, d))
  }

  lemma {:induction false} ControlPlaneFilesAre(files: seq<DiffFile>, p: LoopPolicy, d: Detectors)
    ensures |ControlPlaneFiles(files, p, d)| == Total(Machinery, files, p, d)
    ensures ControlPlaneFiles(files, p, d) != [] <==> exists i :: 0 <= i < |files| && OnControlPlane(p, d, files[i])
  {
    if files != [] { ControlPlaneFilesAre(files[..|files| - 1], p, d); }
  }

  method AssessControlPlane(files: seq<DiffFile>, p: LoopPolicy, d: Detectors) returns (c: Reach)
    ensures c == ReachOf(files, p, d) && |c.files| == Total(Machinery, files, p, d)
  {
    var reached, policyBearing := [], false;
    for i := 0 to |files|
      invariant reached == ControlPlaneFiles(files[..i], p, d)
      invariant policyBearing <==> exists k :: 0 <= k < i && BearsPolicy(p, d, files[k])
    {
      var file := files[i];
      assert files[..i + 1][..i] == files[..i];
      var structural := d.matches(p.controlPlanePatterns, file.path);
      var always := d.matches(p.alwaysPolicy, file.path);
      var bySignal := CarriesPolicy(p, d, file);
      if !structural && !always && !bySignal { continue; }
      reached := reached + [file.path];
      if always || bySignal { policyBearing := true; }
    }
    assert files[..|files|] == files;
    ControlPlaneFilesAre(files, p, d);
    c := Reach(reached != [], policyBearing, reached);
  }

  method ClassifyRisk(files: seq<DiffFile>, labels: seq<string>, p: LoopPolicy, d: Detectors) returns (a: Assessment, controlPlane: Reach)
    ensures a == Assessment(RiskOf(files, labels, p, d), Reasons(files, labels, p, d))
    ensures controlPlane == ReachOf(files, p, d)
  {
    var start := [RiskReason(p.defaultRisk, Default)];
    assert start[..0] == [];
    a := Assessment(p.defaultRisk, start);
    a := NotePaths(a, p.paths, files, d, p.defaultRisk);
    a := NoteLabels(a, labels, p.defaultRisk);
    var found := FindEscalations(files, p, d);
    a := NoteAll(a, found, p.defaultRisk);
    controlPlane := AssessControlPlane(files, p, d);
    a := NoteAll(a, Repeat(|controlPlane.files|, RiskReason(High, ControlPlane)), p.defaultRisk);
  }

  // ---------------------------------------------------------------- Risk is the maximum of its reasons

  /** The highest level any listed reason names, reached by one of them. */
  ghost predicate IsHighest(risk: RiskLevel, reasons: seq<RiskReason>) {
    && (exists i :: 0 <= i < |reasons| && reasons[i].risk == risk)
    && (forall i | 0 <= i < |reasons| :: AtLeastRisk(risk, reasons[i].risk))
  }

  lemma {:induction false} MaxOfIsHighest(reasons: seq<RiskReason>)
    requires reasons != []
    ensures IsHighest(MaxOf(reasons, reasons[0].risk), reasons)
  {
    if |reasons| == 1 {
      assert reasons[..0] == [];
    } else {
      var before := reasons[..|reasons| - 1];
      MaxOfIsHighest(before);
      var i :| 0 <= i < |before| && before[i].risk == MaxOf(before, reasons[0].risk);
      assert reasons[i] == before[i] && before[0] == reasons[0];
      assert reasons[|reasons| - 1].risk == reasons[|reasons| - 1].risk;
      forall k | 0 <= k < |reasons| - 1 ensures AtLeastRisk(MaxOf(before, reasons[0].risk), reasons[k].risk) {
        assert reasons[k] == before[k];
      }
    }
  }

  /** Classification under one policy answers with the highest of the reasons it lists. */
  lemma {:induction false} RiskIsHighestReason(files: seq<DiffFile>, labels: seq<string>, p: LoopPolicy, d: Detectors)
    ensures IsHighest(RiskOf(files, labels, p, d), Reasons(files, labels, p, d))
  {
    MaxOfIsHighest(Reasons(files, labels, p, d));
  }

  // ---------------------------------------------------------------- What a level rests on

  predicate Escalates(files: seq<DiffFile>, p: LoopPolicy, d: Detectors) {
    || |files| > p.maxChangedFiles
    || Deletions(files) > p.maxDeletedLines
    || exists f | f in files :: exists kind | kind in {DestructiveMigration, BreakingExport, MajorUpgrade, Machinery} :: Raised(kind, p, d, f) > 0
  }

  /** Some input of the classification names level `r`. */
  ghost predicate Justifies(r: RiskLevel, files: seq<DiffFile>, labels: seq<string>, p: LoopPolicy, d: Detectors) {
    || r == p.defaultRisk
    || (exists rule :: rule in p.paths && rule.risk == r && Touches(rule.patterns, files, d))
    || (exists name :: name in labels && DeclaredRisk(name) == Some(r))
    || (r == High && Escalates(files, p, d))
  }

  ghost predicate Names(reasons: seq<RiskReason>, r: RiskLevel) {
    exists i :: 0 <= i < |reasons| && reasons[i].risk == r
  }

  lemma {:induction false} NamesConcat(a: seq<RiskReason>, b: seq<RiskReason>, r: RiskLevel)
    ensures Names(a + b, r) <==> Names(a, r) || Names(b, r)
  {
    if i :| 0 <= i < |a| && a[i].risk == r { assert (a + b)[i].risk == r; }
    if i :| 0 <= i < |b| && b[i].risk == r { assert (a + b)[|a| + i].risk == r; }
  }

  lemma {:induction false} PathReasonHasRule(rules: seq<PathRule>, files: seq<DiffFile>, d: Detectors, r: RiskLevel) returns (rule: PathRule)
    requires Names(PathReasons(rules, files, d), r)
    ensures rule in rules && rule.risk == r && Touches(rule.patterns, files, d)
  {
    var before, last := rules[..|rules| - 1], rules[|rules| - 1];
    var own := if Touches(last.patterns, files, d) then [RiskReason(last.risk, Path)] else [];
    NamesConcat(PathReasons(before, files, d), own, r);
    if Names(own, r) { rule := last; } else { rule := PathReasonHasRule(before, files, d, r); }
  }

  lemma {:induction false} RuleHasPathReason(rules: seq<PathRule>, files: seq<DiffFile>, d: Detectors, rule: PathRule)
    requires rule in rules && Touches(rule.patterns, files, d)
    ensures Names(PathReasons(rules, files, d), rule.risk)
  {
    var before, last := rules[..|rules| - 1], rules[|rules| - 1];
    var own := if Touches(last.patterns, files, d) then [RiskReason(last.risk, Path)] else [];
    NamesConcat(PathReasons(before, files, d), own, rule.risk);
    if rule == last {
      assert own[0].risk == rule.risk;
    } else {
      assert rules == before + [last];
      RuleHasPathReason(before, files, d, rule);
    }
  }

  lemma {:induction false} PathReasonsName(rules: seq<PathRule>, files: seq<DiffFile>, d: Detectors, r: RiskLevel)
    ensures Names(PathReasons(rules, files, d), r) <==> exists rule :: rule in rules && rule.risk == r && Touches(rule.patterns, files, d)
  {
    if Names(PathReasons(rules, files, d), r) { var _ := PathReasonHasRule(rules, files, d, r); }
    if rule :| rule in rules && rule.risk == r && Touches(rule.patterns, files, d) { RuleHasPathReason(rules, files, d, rule); }
  }

  lemma {:induction false} LabelReasonsName(labels: seq<string>, r: RiskLevel)
    ensures Names(LabelReasons(labels), r) <==> exists name :: name in labels && DeclaredRisk(name) == Some(r)
  {
    if labels != [] {
      var before, last := labels[..|labels| - 1], labels[|labels| - 1];
      LabelReasonsName(before, r);
      var own := if DeclaredRisk(last).Some? then [RiskReason(DeclaredRisk(last).value, Label)] else [];
      NamesConcat(LabelReasons(before), own, r);
      assert labels == before + [last];
      if DeclaredRisk(last) == Some(r) { assert own[0].risk == r; }
    }
  }

  lemma {:induction false} TotalHasSource(kind: Concern, files: seq<DiffFile>, p: LoopPolicy, d: Detectors) returns (f: DiffFile)
    requires Total(kind, files, p, d) > 0
    ensures f in files && Raised(kind, p, d, f) > 0
  {
    var before, last := files[..|files| - 1], files[|files| - 1];
    if Total(kind, before, p, d) > 0 { f := TotalHasSource(kind, before, p, d); } else { f := last; }
  }

  lemma {:induction false} SourceCounts(kind: Concern, files: seq<DiffFile>, p: LoopPolicy, d: Detectors, f: DiffFile)
    requires f in files && Raised(kind, p, d, f) > 0
    ensures Total(kind, files, p, d) > 0
  {
    var before, last := files[..|files| - 1], files[|files| - 1];
    if f != last {
      assert files == before + [last];
      SourceCounts(kind, before, p, d, f);
    }
  }

  lemma {:induction false} TotalCounts(kind: Concern, files: seq<DiffFile>, p: LoopPolicy, d: Detectors)
    ensures Total(kind, files, p, d) > 0 <==> exists f :: f in files && Raised(kind, p, d, f) > 0
  {
    if Total(kind, files, p, d) > 0 { var _ := TotalHasSource(kind, files, p, d); }
    if f :| f in files && Raised(kind, p, d, f) > 0 { SourceCounts(kind, files, p, d, f); }
  }

  lemma {:induction false} ReasonsNameWhatJustifies(r: RiskLevel, files: seq<DiffFile>, labels: seq<string>, p: LoopPolicy, d: Detectors)
    ensures Names(Reasons(files, labels, p, d), r) <==> Justifies(r, files, labels, p, d)
  {
    var byDefault, byPath, byLabel := [RiskReason(p.defaultRisk, Default)], PathReasons(p.paths, files, d), LabelReasons(labels);
    var escalations := Repeat(EscalationCount(files, p, d), RiskReason(High, Escalation));
    var control := Repeat(Total(Machinery, files, p, d), RiskReason(High, ControlPlane));
    NamesConcat(byDefault, byPath, r);
    NamesConcat(byDefault + byPath, byLabel, r);
    NamesConcat(byDefault + byPath + byLabel, escalations, r);
    NamesConcat(byDefault + byPath + byLabel + escalations, control, r);
    PathReasonsName(p.paths, files, d, r);
    LabelReasonsName(labels, r);
    assert byDefault[0].risk == p.defaultRisk;
    EscalationsName(r, files, p, d);
  }

  lemma {:induction false} EscalationsName(r: RiskLevel, files: seq<DiffFile>, p: LoopPolicy, d: Detectors)
    ensures Names(Repeat(EscalationCount(files, p, d), RiskReason(High, Escalation)), r)
            || Names(Repeat(Total(Machinery, files, p, d), RiskReason(High, ControlPlane)), r)
            <==> r == High && Escalates(files, p, d)
  {
    TotalCounts(DestructiveMigration, files, p, d);
    TotalCounts(BreakingExport, files, p, d);
    TotalCounts(MajorUpgrade, files, p, d);
    TotalCounts(Machinery, files, p, d);
    RepeatNames(EscalationCount(files, p, d), RiskReason(High, Escalation), r);
    RepeatNames(Total(Machinery, files, p, d), RiskReason(High, ControlPlane), r);
  }

  lemma {:induction false} RepeatNames(n: nat, reason: RiskReason, r: RiskLevel)
    ensures Names(Repeat(n, reason), r) <==> n > 0 && reason.risk == r
  {
    if n > 0 { assert Repeat(n, reason)[0] == reason; }
  }

  /** Independent meaning of the answer: the highest level that some input justifies. */
  lemma {:induction false} RiskIsHighestJustified(r: RiskLevel, files: seq<DiffFile>, labels: seq<string>, p: LoopPolicy, d: Detectors)
    ensures Justifies(RiskOf(files, labels, p, d), files, labels, p, d)
    ensures Justifies(r, files, labels, p, d) ==> AtLeastRisk(RiskOf(files, labels, p, d), r)
  {
    RiskIsHighestReason(files, labels, p, d);
    ReasonsNameWhatJustifies(r, files, labels, p, d);
    ReasonsNameWhatJustifies(RiskOf(files, labels, p, d), files, labels, p, d);
  }

  // ---------------------------------------------------------------- Monotonicity

  function Without(files: seq<DiffFile>, k: nat): (r: seq<DiffFile>)
    requires k < |files|
    ensures |r| == |files| - 1
  {
    files[..k] + files[k + 1..]
  }

  lemma {:induction false} RemovalSplits(files: seq<DiffFile>, k: nat)
    requires k < |files|
    ensures Deletions(files) == |files[k].removedLines| + Deletions(Without(files, k))
    ensures multiset(Without(files, k)) == multiset(files) - multiset{files[k]}
  {
    var before, f, after := files[..k], files[k], files[k + 1..];
    assert files == before + ([f] + after);
    TotalsAdd(before, [f] + after);
    TotalsAdd(before, after);
    assert ([f] + after)[1..] == after;
  }

  lemma {:induction false} DeletionsGrow(files: seq<DiffFile>, more: seq<DiffFile>)
    requires multiset(files) <= multiset(more)
    ensures Deletions(files) <= Deletions(more) && |files| <= |more|
    decreases |files|
  {
    if files != [] {
      assert files[0] in multiset(files) && files[0] in more;
      var k :| 0 <= k < |more| && more[k] == files[0];
      RemovalSplits(files, 0);
      RemovalSplits(more, k);
      DeletionsGrow(Without(files, 0), Without(more, k));
    }
  }

  /** `q` is `p` with path rules added (in any order) and nothing else changed. */
  ghost predicate AddsRules(p: LoopPolicy, q: LoopPolicy) {
    && (forall rule | rule in p.paths :: rule in q.paths)
    && q == p.(paths := q.paths)
  }

  lemma {:induction false} JustificationPersists(r: RiskLevel, files: seq<DiffFile>, more: seq<DiffFile>, labels: seq<string>, extra: seq<string>,
                                                 p: LoopPolicy, q: LoopPolicy, d: Detectors)
    requires multiset(files) <= multiset(more) && (forall name | name in labels :: name in extra) && AddsRules(p, q)
    requires Justifies(r, files, labels, p, d)
    ensures Justifies(r, more, extra, q, d)
  {
    FilesStay(files, more);
    if rule :| rule in p.paths && rule.risk == r && Touches(rule.patterns, files, d) {
      assert rule in q.paths && Touches(rule.patterns, more, d) by { TouchesStays(rule.patterns, files, more, d); }
    }
    if r == High && Escalates(files, p, d) {
      DeletionsGrow(files, more);
      assert Escalates(more, q, d) by { EscalationPersists(files, more, p, q, d); }
    }
  }

  lemma {:induction false} FilesStay(files: seq<DiffFile>, more: seq<DiffFile>)
    requires multiset(files) <= multiset(more)
    ensures forall f | f in files :: f in more
  {
    forall f | f in files ensures f in more { assert f in multiset(files); }
  }

  lemma {:induction false} TouchesStays(patterns: seq<string>, files: seq<DiffFile>, more: seq<DiffFile>, d: Detectors)
    requires Touches(patterns, files, d) && forall f | f in files :: f in more
    ensures Touches(patterns, more, d)
  {
    var i :| 0 <= i < |files| && d.matches(patterns, files[i].path);
    assert files[i] in more;
    var k :| 0 <= k < |more| && more[k] == files[i];
    assert d.matches(patterns, more[k].path);
  }

  lemma {:induction false} EscalationPersists(files: seq<DiffFile>, more: seq<DiffFile>, p: LoopPolicy, q: LoopPolicy, d: Detectors)
    requires multiset(files) <= multiset(more) && AddsRules(p, q) && Escalates(files, p, d)
    ensures Escalates(more, q, d)
  {
    DeletionsGrow(files, more);
    FilesStay(files, more);
    forall kind, f: DiffFile ensures Raised(kind, q, d, f) == Raised(kind, p, d, f) {
      assert OnControlPlane(q, d, f) == OnControlPlane(p, d, f);
    }
  }

  /** Adding whole files, labels or path rules never lowers the risk, whatever their order. */
  lemma {:induction false} RiskNeverDrops(files: seq<DiffFile>, more: seq<DiffFile>, labels: seq<string>, extra: seq<string>,
                                          p: LoopPolicy, q: LoopPolicy, d: Detectors)
    requires multiset(files) <= multiset(more) && (forall name | name in labels :: name in extra) && AddsRules(p, q)
    ensures AtLeastRisk(RiskOf(more, extra, q, d), RiskOf(files, labels, p, d))
  {
    var r := RiskOf(files, labels, p, d);
    RiskIsHighestJustified(r, files, labels, p, d);
    JustificationPersists(r, files, more, labels, extra, p, q, d);
    RiskIsHighestJustified(r, more, extra, q, d);
  }

  /** The order of files, labels and path rules does not matter. */
  lemma {:induction false} RiskIgnoresOrder(files: seq<DiffFile>, shuffled: seq<DiffFile>, labels: seq<string>, relabelled: seq<string>,
                                            p: LoopPolicy, q: LoopPolicy, d: Detectors)
    requires multiset(files) == multiset(shuffled) && multiset(labels) == multiset(relabelled)
    requires multiset(p.paths) == multiset(q.paths) && q == p.(paths := q.paths)
    ensures RiskOf(files, labels, p, d) == RiskOf(shuffled, relabelled, q, d)
  {
    forall name ensures name in labels <==> name in relabelled { assert name in multiset(labels) <==> name in multiset(relabelled); }
    forall rule ensures rule in p.paths <==> rule in q.paths { assert rule in multiset(p.paths) <==> rule in multiset(q.paths); }
    RiskNeverDrops(files, shuffled, labels, relabelled, p, q, d);
    RiskNeverDrops(shuffled, files, relabelled, labels, q, p, d);
  }

  // ---------------------------------------------------------------- The stricter of two policies

  function StricterRisk(base: RiskLevel, proposed: RiskLevel): RiskLevel {
    if RiskOrder(base) >= RiskOrder(proposed) then base else proposed
  }

  function ClassifyMonotonic(files: seq<DiffFile>, labels: seq<string>, base: LoopPolicy, head: Option<LoopPolicy>, d: Detectors): Assessment {
    var under := Assessment(RiskOf(files, labels, base, d), Reasons(files, labels, base, d));
    if head.None? then under
    else
      var proposed := RiskOf(files, labels, head.value, d);
      var risk := StricterRisk(under.risk, proposed);
      Assessment(risk, under.reasons + (if proposed != under.risk then [RiskReason(risk, BasePolicy)] else []))
  }

  /** A proposed policy can raise the answer but never lower it, and the answer is still the highest listed reason. */
  lemma {:induction false} ProposedPolicyCannotLowerRisk(files: seq<DiffFile>, labels: seq<string>, base: LoopPolicy, head: Option<LoopPolicy>, d: Detectors)
    ensures var a := ClassifyMonotonic(files, labels, base, head, d);
            && AtLeastRisk(a.risk, RiskOf(files, labels, base, d))
            && (head.Some? ==> AtLeastRisk(a.risk, RiskOf(files, labels, head.value, d)))
            && (a.risk == RiskOf(files, labels, base, d) || (head.Some? && a.risk == RiskOf(files, labels, head.value, d)))
            && IsHighest(a.risk, a.reasons)
  {
    RiskIsHighestReason(files, labels, base, d);
    var a, reasons := ClassifyMonotonic(files, labels, base, head, d), Reasons(files, labels, base, d);
    if head.Some? && RiskOf(files, labels, head.value, d) != RiskOf(files, labels, base, d) {
      assert a.reasons[|reasons|].risk == a.risk;
    } else {
      assert a.reasons == reasons;
    }
  }

  /** The control plane is reached under the stricter reading of both policies, too. */
  function MonotonicReach(files: seq<DiffFile>, base: LoopPolicy, head: Option<LoopPolicy>, d: Detectors): Reach {
    var under := ReachOf(files, base, d);
    if head.None? then under
    else
      var proposed := ReachOf(files, head.value, d);
      under.(affected := under.affected || proposed.affected, policyBearing := under.policyBearing || proposed.policyBearing)
  }

  /** Reaching the control plane under either policy is high risk, and a change of policy always reaches it. */
  lemma {:induction false} ReachingTheControlPlaneIsHigh(files: seq<DiffFile>, labels: seq<string>, base: LoopPolicy, head: Option<LoopPolicy>, d: Detectors)
    ensures var c := MonotonicReach(files, base, head, d);
            && (c.affected ==> ClassifyMonotonic(files, labels, base, head, d).risk == High)
            && (c.policyBearing ==> c.affected)
  {
    ReachIsHigh(files, labels, base, d);
    if head.Some? { ReachIsHigh(files, labels, head.value, d); }
  }

  lemma {:induction false} ReachIsHigh(files: seq<DiffFile>, labels: seq<string>, p: LoopPolicy, d: Detectors)
    ensures ReachOf(files, p, d).affected ==> RiskOf(files, labels, p, d) == High
    ensures ReachOf(files, p, d).policyBearing ==> ReachOf(files, p, d).affected
  {
    if i :| 0 <= i < |files| && BearsPolicy(p, d, files[i]) { assert OnControlPlane(p, d, files[i]); }
    if i :| 0 <= i < |files| && OnControlPlane(p, d, files[i]) {
      assert files[i] in files && Raised(Machinery, p, d, files[i]) > 0;
      RiskIsHighestJustified(High, files, labels, p, d);
    }
  }
}
