/**
 Whether a proposed policy can give some later change a lower risk than the policy in force does, and
 how much of that the comparison of both reports.
 */
module Loosenings {
  import opened Options
  import opened Policies
  import opened Diffs
  import opened Globs
  import opened Risks
  import opened ControlPlanes

  // ---------------------------------------------------------------- Exactly when no change drops

  /** No change at all gets a lower risk under `head`. */
  ghost predicate NeverLowers(base: LoopPolicy, head: LoopPolicy, d: Detectors) {
    forall files: seq<DiffFile>, labels: seq<string> :: AtLeastRisk(RiskOf(files, labels, head, d), RiskOf(files, labels, base, d))
  }

  /** No unlabelled change of at most one file does. */
  ghost predicate NeverLowersOneFile(base: LoopPolicy, head: LoopPolicy, d: Detectors) {
    forall files: seq<DiffFile> | |files| <= 1 :: AtLeastRisk(RiskOf(files, [], head, d), RiskOf(files, [], base, d))
  }

  predicate TooBig(p: LoopPolicy, files: seq<DiffFile>) {
    |files| > p.maxChangedFiles || Deletions(files) > p.maxDeletedLines
  }

  /** What is too big for `base` is high risk under `head`, for its size or otherwise. */
  ghost predicate KeepsSizesHigh(base: LoopPolicy, head: LoopPolicy, d: Detectors) {
    forall files: seq<DiffFile> | TooBig(base, files) :: RiskOf(files, [], head, d) == High
  }

  /** A part of a change that keeps its risk keeps it in the whole change. */
  lemma {:induction false} PartKeepsTheRisk(base: LoopPolicy, head: LoopPolicy, part: seq<DiffFile>, files: seq<DiffFile>, labels: seq<string>,
                                            d: Detectors, r: RiskLevel)
    requires multiset(part) <= multiset(files) && Justifies(r, part, [], base, d)
    requires AtLeastRisk(RiskOf(part, [], head, d), RiskOf(part, [], base, d))
    ensures AtLeastRisk(RiskOf(files, labels, head, d), r)
  {
    RiskIsHighestJustified(r, part, [], base, d);
    RiskNeverDrops(part, files, [], labels, head, head, d);
  }

  lemma {:induction false} OneFileIsPart(files: seq<DiffFile>, i: nat)
    requires i < |files|
    ensures multiset([files[i]]) <= multiset(files)
  {
    assert files[i] in multiset(files);
  }

  lemma {:induction false} ConcernKeepsTheRisk(base: LoopPolicy, head: LoopPolicy, files: seq<DiffFile>, labels: seq<string>, d: Detectors,
                                               f: DiffFile, kind: Concern)
    requires NeverLowersOneFile(base, head, d) && f in files && Raised(kind, base, d, f) > 0
    ensures RiskOf(files, labels, head, d) == High
  {
    var i :| 0 <= i < |files| && files[i] == f;
    OneFileIsPart(files, i);
    assert Escalates([f], base, d) by { assert f in [f]; }
    PartKeepsTheRisk(base, head, [f], files, labels, d, High);
  }

  lemma {:induction false} RuleKeepsTheRisk(base: LoopPolicy, head: LoopPolicy, files: seq<DiffFile>, labels: seq<string>, d: Detectors, rule: PathRule)
    requires NeverLowersOneFile(base, head, d) && rule in base.paths && Touches(rule.patterns, files, d)
    ensures AtLeastRisk(RiskOf(files, labels, head, d), rule.risk)
  {
    var i :| 0 <= i < |files| && d.matches(rule.patterns, files[i].path);
    OneFileIsPart(files, i);
    assert Touches(rule.patterns, [files[i]], d) by { assert d.matches(rule.patterns, [files[i]][0].path); }
    PartKeepsTheRisk(base, head, [files[i]], files, labels, d, rule.risk);
  }

  lemma {:induction false} ChangeKeepsTheRisk(base: LoopPolicy, head: LoopPolicy, files: seq<DiffFile>, labels: seq<string>, d: Detectors)
    requires NeverLowersOneFile(base, head, d) && KeepsSizesHigh(base, head, d)
    ensures AtLeastRisk(RiskOf(files, labels, head, d), RiskOf(files, labels, base, d))
  {
    var r := RiskOf(files, labels, base, d);
    RiskIsHighestJustified(r, files, labels, base, d);
    RiskIsHighestJustified(r, files, labels, head, d);
    if rule :| rule in base.paths && rule.risk == r && Touches(rule.patterns, files, d) {
      RuleKeepsTheRisk(base, head, files, labels, d, rule);
    } else if r == base.defaultRisk {
      PartKeepsTheRisk(base, head, [], files, labels, d, r);
    } else if TooBig(base, files) {
      RiskNeverDrops(files, files, [], labels, head, head, d);
    } else if f, kind :| f in files && Raised(kind, base, d, f) > 0 {
      ConcernKeepsTheRisk(base, head, files, labels, d, f, kind);
    }
  }

  /**
   A policy lowers the risk of no change at all exactly when it lowers that of no change of at most one file,
   and whatever is too big for the policy in force stays high.
   */
  lemma {:induction false} NeverLowersIff(base: LoopPolicy, head: LoopPolicy, d: Detectors)
    ensures NeverLowers(base, head, d) <==> NeverLowersOneFile(base, head, d) && KeepsSizesHigh(base, head, d)
  {
    if NeverLowersOneFile(base, head, d) && KeepsSizesHigh(base, head, d) {
      forall files: seq<DiffFile>, labels: seq<string> ensures AtLeastRisk(RiskOf(files, labels, head, d), RiskOf(files, labels, base, d)) {
        ChangeKeepsTheRisk(base, head, files, labels, d);
      }
    }
    forall files: seq<DiffFile> | NeverLowers(base, head, d) && TooBig(base, files) ensures RiskOf(files, [], head, d) == High {
      RiskIsHighestJustified(High, files, [], base, d);
    }
  }

  /** No single file gets a lower risk under `head`. */
  ghost predicate NeverLowersAFile(base: LoopPolicy, head: LoopPolicy, d: Detectors) {
    forall f: DiffFile :: AtLeastRisk(RiskOf([f], [], head, d), RiskOf([f], [], base, d))
  }

  /** Where the size limits are not raised, and the default is not lowered, single files decide. */
  lemma {:induction false} SingleFilesDecide(base: LoopPolicy, head: LoopPolicy, d: Detectors)
    requires head.maxChangedFiles <= base.maxChangedFiles && head.maxDeletedLines <= base.maxDeletedLines
    requires AtLeastRisk(head.defaultRisk, base.defaultRisk)
    ensures NeverLowers(base, head, d) <==> NeverLowersAFile(base, head, d)
  {
    NeverLowersIff(base, head, d);
    SmallerLimitsKeepSizesHigh(base, head, d);
    if NeverLowersAFile(base, head, d) { SingleFilesAreEnough(base, head, d); }
    if NeverLowers(base, head, d) { SingleFilesAreChanges(base, head, d); }
  }

  lemma {:induction false} SmallerLimitsKeepSizesHigh(base: LoopPolicy, head: LoopPolicy, d: Detectors)
    requires head.maxChangedFiles <= base.maxChangedFiles && head.maxDeletedLines <= base.maxDeletedLines
    ensures KeepsSizesHigh(base, head, d)
  {
    forall files: seq<DiffFile> | TooBig(base, files) ensures RiskOf(files, [], head, d) == High {
      assert TooBig(head, files) && Escalates(files, head, d);
      RiskIsHighestJustified(High, files, [], head, d);
    }
  }

  lemma {:induction false} SingleFilesAreChanges(base: LoopPolicy, head: LoopPolicy, d: Detectors)
    requires NeverLowers(base, head, d)
    ensures NeverLowersAFile(base, head, d)
  {
  }

  lemma {:induction false} SingleFilesAreEnough(base: LoopPolicy, head: LoopPolicy, d: Detectors)
    requires AtLeastRisk(head.defaultRisk, base.defaultRisk) && NeverLowersAFile(base, head, d)
    ensures NeverLowersOneFile(base, head, d)
  {
    NothingHasTheDefaultRisk(base, d);
    NothingHasTheDefaultRisk(head, d);
    forall files: seq<DiffFile> | |files| <= 1 ensures AtLeastRisk(RiskOf(files, [], head, d), RiskOf(files, [], base, d)) {
      if |files| == 1 { assert files == [files[0]]; } else { assert files == []; }
    }
  }

  lemma {:induction false} NothingHasTheDefaultRisk(p: LoopPolicy, d: Detectors)
    ensures RiskOf([], [], p, d) == p.defaultRisk
  {
    RiskIsHighestJustified(p.defaultRisk, [], [], p, d);
    assert !Escalates([], p, d);
  }

  function Copies(f: DiffFile, n: nat): (files: seq<DiffFile>)
    ensures |files| == n && forall i | 0 <= i < n :: files[i] == f
  {
    seq(n, _ => f)
  }

  lemma {:induction false} CopiesDeleteNothing(f: DiffFile, n: nat)
    requires f.removedLines == []
    ensures Deletions(Copies(f, n)) == 0
  {
    if n > 0 {
      assert Copies(f, n)[1..] == Copies(f, n - 1);
      CopiesDeleteNothing(f, n - 1);
    }
  }

  /** Where their number does not matter, copies of a file justify no more than one of them does. */
  lemma {:induction false} CopiesJustifyLikeOne(p: LoopPolicy, d: Detectors, f: DiffFile, n: nat)
    requires f.removedLines == [] && n <= p.maxChangedFiles && Justifies(High, Copies(f, n), [], p, d)
    ensures Justifies(High, [f], [], p, d)
  {
    var files := Copies(f, n);
    CopiesDeleteNothing(f, n);
    if rule :| rule in p.paths && rule.risk == High && Touches(rule.patterns, files, d) {
      assert Touches(rule.patterns, [f], d) by { assert d.matches(rule.patterns, [f][0].path); }
    } else if p.defaultRisk != High {
      var g, kind :| g in files && Raised(kind, p, d, g) > 0;
      assert g in [f];
    }
  }

  /**
   A higher limit on changed files lowers the risk of some change, unless every file is high risk on its own: enough
   copies of one that is not, and that removes no line, are high for their number only.
   */
  lemma {:induction false} RaisedFileLimitLowersTheRisk(base: LoopPolicy, head: LoopPolicy, d: Detectors, f: DiffFile)
    requires head.maxChangedFiles > base.maxChangedFiles && f.removedLines == [] && RiskOf([f], [], head, d) != High
    ensures var files := Copies(f, base.maxChangedFiles + 1); RiskOf(files, [], base, d) == High && RiskOf(files, [], head, d) != High
  {
    var files := Copies(f, base.maxChangedFiles + 1);
    RiskIsHighestJustified(High, files, [], base, d);
    RiskIsHighestJustified(High, files, [], head, d);
    RiskIsHighestJustified(High, [f], [], head, d);
    if Justifies(High, files, [], head, d) { CopiesJustifyLikeOne(head, d, f, base.maxChangedFiles + 1); }
  }

  // ---------------------------------------------------------------- Enough to keep the risk of every change

  ghost predicate Keeps(before: seq<string>, after: seq<string>) {
    forall text | text in before :: text in after
  }

  /** Every pattern is still listed at its level or above. */
  ghost predicate KeepsLevels(base: seq<PathRule>, head: seq<PathRule>) {
    forall rule, pattern | rule in base && pattern in rule.patterns ::
      exists up :: up in head && pattern in up.patterns && AtLeastRisk(up.risk, rule.risk)
  }

  /** Nothing the classification rests on is taken away, and no limit is relaxed. */
  ghost predicate KeepsProtections(base: LoopPolicy, head: LoopPolicy) {
    && AtLeastRisk(head.defaultRisk, base.defaultRisk) && KeepsLevels(base.paths, head.paths)
    && head.maxChangedFiles <= base.maxChangedFiles && head.maxDeletedLines <= base.maxDeletedLines
    && Keeps(base.destructiveMigrationGlobs, head.destructiveMigrationGlobs) && Keeps(base.publicContractGlobs, head.publicContractGlobs)
    && Keeps(base.controlPlanePatterns + base.alwaysPolicy, head.controlPlanePatterns + head.alwaysPolicy)
    && Keeps(base.policySignals, head.policySignals)
  }

  lemma {:induction false} SomePatternMatches(patterns: seq<string>, path: string) returns (pattern: string)
    requires MatchesAnyGlob(patterns, path)
    ensures pattern in patterns && MatchesGlob(pattern, path)
  {
    var i :| 0 <= i < |patterns| && MatchesGlob(patterns[i], path);
    pattern := patterns[i];
  }

  lemma {:induction false} ListedPatternMatches(patterns: seq<string>, path: string, pattern: string)
    requires pattern in patterns && MatchesGlob(pattern, path)
    ensures MatchesAnyGlob(patterns, path)
  {
    var i :| 0 <= i < |patterns| && patterns[i] == pattern;
    assert MatchesGlob(patterns[i], path);
  }

  lemma {:induction false} KeptPatternsMatch(before: seq<string>, after: seq<string>, path: string)
    requires Keeps(before, after) && MatchesAnyGlob(before, path)
    ensures MatchesAnyGlob(after, path)
  {
    var pattern := SomePatternMatches(before, path);
    ListedPatternMatches(after, path, pattern);
  }

  lemma {:induction false} EitherMatches(a: seq<string>, b: seq<string>, path: string)
    ensures MatchesAnyGlob(a + b, path) <==> MatchesAnyGlob(a, path) || MatchesAnyGlob(b, path)
  {
    if i :| 0 <= i < |a| && MatchesGlob(a[i], path) { assert MatchesGlob((a + b)[i], path); }
    if i :| 0 <= i < |b| && MatchesGlob(b[i], path) { assert MatchesGlob((a + b)[|a| + i], path); }
  }

  lemma {:induction false} KeptSignalsCarry(base: LoopPolicy, head: LoopPolicy, d: Detectors, f: DiffFile)
    requires Keeps(base.policySignals, head.policySignals) && CarriesPolicy(base, d, f)
    ensures CarriesPolicy(head, d, f)
  {
    var lines := f.addedLines + f.removedLines;
    var i, j :| 0 <= i < |lines| && 0 <= j < |base.policySignals| && d.signals(base.policySignals[j], lines[i]);
    assert base.policySignals[j] in base.policySignals && base.policySignals[j] in head.policySignals;
    var k :| 0 <= k < |head.policySignals| && head.policySignals[k] == base.policySignals[j];
  }

  lemma {:induction false} KeptConcernsAreRaised(base: LoopPolicy, head: LoopPolicy, d: Detectors, f: DiffFile, kind: Concern)
    requires KeepsProtections(base, head) && Raised(kind, base, GlobDetectors(d), f) > 0
    ensures Raised(kind, head, GlobDetectors(d), f) > 0
  {
    match kind
    case DestructiveMigration => KeptPatternsMatch(base.destructiveMigrationGlobs, head.destructiveMigrationGlobs, f.path);
    case BreakingExport => KeptPatternsMatch(base.publicContractGlobs, head.publicContractGlobs, f.path);
    case MajorUpgrade =>
    case Machinery =>
      if CarriesPolicy(base, GlobDetectors(d), f) {
        KeptSignalsCarry(base, head, GlobDetectors(d), f);
      } else {
        EitherMatches(base.controlPlanePatterns, base.alwaysPolicy, f.path);
        EitherMatches(head.controlPlanePatterns, head.alwaysPolicy, f.path);
        KeptPatternsMatch(base.controlPlanePatterns + base.alwaysPolicy, head.controlPlanePatterns + head.alwaysPolicy, f.path);
      }
  }

  lemma {:induction false} KeptRuleStillMatches(base: seq<PathRule>, head: seq<PathRule>, rule: PathRule, path: string) returns (up: PathRule)
    requires KeepsLevels(base, head) && rule in base && MatchesAnyGlob(rule.patterns, path)
    ensures up in head && AtLeastRisk(up.risk, rule.risk) && MatchesAnyGlob(up.patterns, path)
  {
    var pattern := SomePatternMatches(rule.patterns, path);
    up :| up in head && pattern in up.patterns && AtLeastRisk(up.risk, rule.risk);
    ListedPatternMatches(up.patterns, path, pattern);
  }

  lemma {:induction false} KeptRuleStillTouches(base: seq<PathRule>, head: seq<PathRule>, rule: PathRule, files: seq<DiffFile>, d: Detectors) returns (up: PathRule)
    requires KeepsLevels(base, head) && rule in base && Touches(rule.patterns, files, GlobDetectors(d))
    ensures up in head && AtLeastRisk(up.risk, rule.risk) && Touches(up.patterns, files, GlobDetectors(d))
  {
    var i :| 0 <= i < |files| && GlobDetectors(d).matches(rule.patterns, files[i].path);
    up := KeptRuleStillMatches(base, head, rule, files[i].path);
    assert GlobDetectors(d).matches(up.patterns, files[i].path);
  }

  lemma {:induction false} KeptProtectionsEscalate(base: LoopPolicy, head: LoopPolicy, files: seq<DiffFile>, d: Detectors)
    requires KeepsProtections(base, head) && Escalates(files, base, GlobDetectors(d))
    ensures Escalates(files, head, GlobDetectors(d))
  {
    if !TooBig(base, files) {
      var f, kind :| f in files && Raised(kind, base, GlobDetectors(d), f) > 0;
      KeptConcernsAreRaised(base, head, d, f, kind);
    }
  }

  /** Under the policy's own path matching, keeping every protection keeps the risk of every change. */
  lemma {:induction false} KeptProtectionsKeepTheRisk(base: LoopPolicy, head: LoopPolicy, files: seq<DiffFile>, labels: seq<string>, d: Detectors)
    requires KeepsProtections(base, head)
    ensures AtLeastRisk(RiskOf(files, labels, head, GlobDetectors(d)), RiskOf(files, labels, base, GlobDetectors(d)))
  {
    var g, r := GlobDetectors(d), RiskOf(files, labels, base, GlobDetectors(d));
    RiskIsHighestJustified(r, files, labels, base, g);
    if rule :| rule in base.paths && rule.risk == r && Touches(rule.patterns, files, g) {
      var up := KeptRuleStillTouches(base.paths, head.paths, rule, files, d);
      RiskIsHighestJustified(up.risk, files, labels, head, g);
    } else if r == base.defaultRisk {
      RiskIsHighestJustified(head.defaultRisk, files, labels, head, g);
    } else {
      if Escalates(files, base, g) { KeptProtectionsEscalate(base, head, files, d); }
      RiskIsHighestJustified(r, files, labels, head, g);
    }
  }

  // ---------------------------------------------------------------- What can be taken away unreported

  /** What the classification rests on besides the path rules. */
  datatype Protection = DefaultLevel | ChangedFiles | DeletedLines | Migrations | Contracts | MachineryPaths | AlwaysPolicy | Signals

  /** A policy that uses each of them once. */
  function SamplePolicy(): LoopPolicy {
    var tier := Tier(None, [], 1);
    LoopPolicy(Tiers(tier, tier, tier), Retry(3, 3, 3, 3), Major, [], Medium, [PathRule(Low, ["r"])], 1, 1,
               ["m"], ["c"], ["p", "q"], ["a"], ["signal"])
  }

  function Loosened(p: LoopPolicy, gone: Protection): LoopPolicy {
    match gone
    case DefaultLevel => p.(defaultRisk := Low)
    case ChangedFiles => p.(maxChangedFiles := 2)
    case DeletedLines => p.(maxDeletedLines := 2)
    case Migrations => p.(destructiveMigrationGlobs := [])
    case Contracts => p.(publicContractGlobs := [])
    case MachineryPaths => p.(controlPlanePatterns := ["q"])
    case AlwaysPolicy => p.(alwaysPolicy := [])
    case Signals => p.(policySignals := [])
  }

  function FileAt(path: string): DiffFile {
    DiffFile(path, Modified, [], [])
  }

  /** A change protected by nothing else. */
  function SampleChange(gone: Protection): seq<DiffFile> {
    match gone
    case DefaultLevel => []
    case ChangedFiles => [FileAt("x"), FileAt("x")]
    case DeletedLines => [FileAt("x").(removedLines := ["", ""])]
    case Migrations => [FileAt("m")]
    case Contracts => [FileAt("c")]
    case MachineryPaths => [FileAt("p")]
    case AlwaysPolicy => [FileAt("a")]
    case Signals => [FileAt("x").(addedLines := ["signal"])]
  }

  /** Detectors that call every migration destructive and every change of a contract breaking. */
  const ALARMED := Detectors((_, _) => false, _ => true, _ => true, _ => 0, (signal, line) => signal == line)

  lemma {:induction false} OneLetterMatches(c: char, e: char)
    requires c !in "/*?" && e != '/'
    ensures MatchesAnyGlob([[c]], [e]) <==> c == e
  {
    LettersMatch(c, e);
    assert MatchesAnyGlob([[c]], [e]) <==> MatchesGlob([[c]][0], [e]);
  }

  /** What the sample policy, or the same with something taken away, raises on a one-letter path. */
  lemma {:induction false} SampleRaises(gone: Protection, p: LoopPolicy, e: char, f: DiffFile)
    requires p in {SamplePolicy(), Loosened(SamplePolicy(), gone)} && e != '/' && f.path == [e]
    ensures var d := GlobDetectors(ALARMED);
            && (d.matches(p.destructiveMigrationGlobs, f.path) <==> p.destructiveMigrationGlobs != [] && e == 'm')
            && (d.matches(p.publicContractGlobs, f.path) <==> p.publicContractGlobs != [] && e == 'c')
            && (d.matches(p.controlPlanePatterns, f.path) <==> e == 'q' || (p.controlPlanePatterns != ["q"] && e == 'p'))
            && (d.matches(p.alwaysPolicy, f.path) <==> p.alwaysPolicy != [] && e == 'a')
  {
    OneLetterMatches('m', e);
    OneLetterMatches('c', e);
    OneLetterMatches('p', e);
    OneLetterMatches('q', e);
    OneLetterMatches('a', e);
    EitherMatches(["p"], ["q"], [e]);
    assert ["p", "q"] == ["p"] + ["q"];
  }

  lemma {:induction false} SampleIsHigh(gone: Protection)
    requires gone != DefaultLevel
    ensures RiskOf(SampleChange(gone), [], SamplePolicy(), GlobDetectors(ALARMED)) == High
  {
    var p, d, files := SamplePolicy(), GlobDetectors(ALARMED), SampleChange(gone);
    RiskIsHighestJustified(High, files, [], p, d);
    if gone == DeletedLines {
      assert files[1..] == [];
    } else if gone != ChangedFiles {
      var f := files[0];
      SampleRaises(gone, p, f.path[0], f);
      if gone == Signals { assert d.signals(p.policySignals[0], (f.addedLines + f.removedLines)[0]); }
      var kind := if gone == Migrations then DestructiveMigration else if gone == Contracts then BreakingExport else Machinery;
      assert f in files && Raised(kind, p, d, f) > 0;
    }
  }

  lemma {:induction false} NothingLeftToRaise(gone: Protection, f: DiffFile, kind: Concern)
    requires f in SampleChange(gone)
    ensures Raised(kind, Loosened(SamplePolicy(), gone), GlobDetectors(ALARMED), f) == 0
  {
    SampleRaises(gone, Loosened(SamplePolicy(), gone), f.path[0], f);
    assert f == SampleChange(gone)[0];
    assert gone != Signals ==> forall line | line in f.addedLines + f.removedLines :: line == "";
  }

  lemma {:induction false} SampleFits(gone: Protection)
    ensures !TooBig(Loosened(SamplePolicy(), gone), SampleChange(gone))
  {
    var files := SampleChange(gone);
    if |files| > 0 {
      assert Deletions(files) == |files[0].removedLines| + Deletions(files[1..]);
      if |files| > 1 { assert files[1..] == [files[1]] && [files[1]][1..] == []; } else { assert files[1..] == []; }
    }
  }

  /** With nothing raised and no limit exceeded, and no rule for the path, the default risk stands. */
  lemma {:induction false} CalmChange(p: LoopPolicy, files: seq<DiffFile>, d: Detectors)
    requires !TooBig(p, files) && forall f, kind | f in files :: Raised(kind, p, d, f) == 0
    requires forall rule | rule in p.paths && Touches(rule.patterns, files, d) :: rule.risk == p.defaultRisk || rule.risk == Low
    ensures RiskOf(files, [], p, d) == p.defaultRisk
  {
    RiskIsHighestJustified(p.defaultRisk, files, [], p, d);
    assert !Escalates(files, p, d);
  }

  lemma {:induction false} LoosenedIsLower(gone: Protection)
    ensures RiskOf(SampleChange(gone), [], Loosened(SamplePolicy(), gone), GlobDetectors(ALARMED))
            == if gone == DefaultLevel then Low else Medium
  {
    var p, d, files := Loosened(SamplePolicy(), gone), GlobDetectors(ALARMED), SampleChange(gone);
    forall f, kind | f in files ensures Raised(kind, p, d, f) == 0 { NothingLeftToRaise(gone, f, kind); }
    SampleFits(gone);
    CalmChange(p, files, d);
  }

  lemma {:induction false} LoosenedIsAccepted(gone: Protection)
    ensures Accepted(SamplePolicy()) && Accepted(Loosened(SamplePolicy(), gone))
  {
  }

  lemma {:induction false} LoosenedIsNotReported(gone: Protection, q: Proposal)
    requires q.base == SamplePolicy() && q.head == Loosened(q.base, gone) && q.files == SampleChange(gone) && q.d == GlobDetectors(q.d)
    ensures forall w :: !Weakens(w, q)
  {
    forall path, k ensures !Weakens(UnsafeWorkflow(path, k), q) {
      if f :| f in q.files && Introduces(q, f, k) {
        WorkflowFilesAreSearched(q, f, k);
        LetterIsASegment(f.path[0]);
      }
    }
    UncomparedFieldsAreNotReported(q);
  }

  /**
   Each of them can be taken away, by a policy the schema accepts, without a word: nothing is reported, and some
   change drops to a lower risk.
   */
  lemma {:induction false} EachProtectionCanGoUnreported(gone: Protection, unsafe: (nat, string) -> bool)
    ensures var base, head, files, d := SamplePolicy(), Loosened(SamplePolicy(), gone), SampleChange(gone), GlobDetectors(ALARMED);
            && Accepted(base) && Accepted(head)
            && (forall w :: !Weakens(w, Proposal(base, head, files, d, unsafe)))
            && !AtLeastRisk(RiskOf(files, [], head, d), RiskOf(files, [], base, d))
  {
    var q := Proposal(SamplePolicy(), Loosened(SamplePolicy(), gone), SampleChange(gone), GlobDetectors(ALARMED), unsafe);
    LoosenedIsAccepted(gone);
    LoosenedIsNotReported(gone, q);
    if gone == DefaultLevel { NothingHasTheDefaultRisk(q.base, q.d); } else { SampleIsHigh(gone); }
    LoosenedIsLower(gone);
  }

  // ---------------------------------------------------------------- Moving a path rule

  /** A letter that is not the path itself. */
  function Elsewhere(pattern: string): string {
    if Segments(pattern) == ["p"] then "q" else "p"
  }

  /** A policy with one path rule and a control plane elsewhere. */
  function OneRulePolicy(risk: RiskLevel, pattern: string): LoopPolicy {
    SamplePolicy().(defaultRisk := Low, paths := [PathRule(risk, [pattern])], destructiveMigrationGlobs := [], publicContractGlobs := [],
                    controlPlanePatterns := [Elsewhere(pattern)], alwaysPolicy := [], policySignals := [])
  }

  lemma {:induction false} ElsewhereDoesNotMatch(pattern: string)
    ensures Elsewhere(pattern) != "" && !MatchesAnyGlob([Elsewhere(pattern)], pattern)
  {
    LetterIsASegment('p');
    LetterIsASegment('q');
    PlainPatternMatches(Segments(Elsewhere(pattern)), Segments(pattern));
  }

  lemma {:induction false} OneRuleDecides(risk: RiskLevel, pattern: string)
    requires forall i | 0 <= i < |Segments(pattern)| :: Plain(Segments(pattern)[i])
    ensures RiskOf([FileAt(pattern)], [], OneRulePolicy(risk, pattern), GlobDetectors(ALARMED)) == risk
  {
    var p, d, files := OneRulePolicy(risk, pattern), GlobDetectors(ALARMED), [FileAt(pattern)];
    PlainPatternMatches(Segments(pattern), Segments(pattern));
    ListedPatternMatches([pattern], pattern, pattern);
    ElsewhereDoesNotMatch(pattern);
    assert d.matches(p.paths[0].patterns, files[0].path) && p.paths[0] in p.paths;
    forall f, kind | f in files ensures Raised(kind, p, d, f) == 0 {}
    assert files[1..] == [] && Deletions(files) == |files[0].removedLines| + Deletions(files[1..]);
    OneRuleStands(p, files, d, p.paths[0]);
  }

  lemma {:induction false} OneRuleStands(p: LoopPolicy, files: seq<DiffFile>, d: Detectors, rule: PathRule)
    requires !TooBig(p, files) && forall f, kind | f in files :: Raised(kind, p, d, f) == 0
    requires p.paths == [rule] && p.defaultRisk == Low && Touches(rule.patterns, files, d)
    ensures RiskOf(files, [], p, d) == rule.risk
  {
    RiskIsHighestJustified(rule.risk, files, [], p, d);
    assert rule in p.paths && !Escalates(files, p, d);
  }

  lemma {:induction false} OneRulePolicyIsAccepted(risk: RiskLevel, pattern: string)
    requires pattern != ""
    ensures Accepted(OneRulePolicy(risk, pattern))
  {
  }

  lemma {:induction false} MovedRuleIsNotReported(q: Proposal, from: PathRule, to: PathRule)
    requires q.base.paths == [from] && from.patterns == to.patterns && q.head == q.base.(paths := [to])
    requires forall f | f in q.files :: f.addedLines == []
    ensures forall w :: !Weakens(w, q)
  {
    assert q.head.paths[0] == to;
    RetieringIsNotReported(q);
  }

  /** Moving the only rule of a plain pattern from high to low: nothing is reported, and the file it names drops to low. */
  lemma {:induction false} RetieringLowersTheRisk(pattern: string, unsafe: (nat, string) -> bool)
    requires pattern != "" && forall i | 0 <= i < |Segments(pattern)| :: Plain(Segments(pattern)[i])
    ensures var base, head, files, d := OneRulePolicy(High, pattern), OneRulePolicy(Low, pattern), [FileAt(pattern)], GlobDetectors(ALARMED);
            && Accepted(base) && Accepted(head)
            && (forall w :: !Weakens(w, Proposal(base, head, files, d, unsafe)))
            && RiskOf(files, [], base, d) == High && RiskOf(files, [], head, d) == Low
  {
    var q := Proposal(OneRulePolicy(High, pattern), OneRulePolicy(Low, pattern), [FileAt(pattern)], GlobDetectors(ALARMED), unsafe);
    OneRuleDecides(High, pattern);
    OneRuleDecides(Low, pattern);
    OneRulePolicyIsAccepted(High, pattern);
    OneRulePolicyIsAccepted(Low, pattern);
    MovedRuleIsNotReported(q, PathRule(High, [pattern]), PathRule(Low, [pattern]));
  }
}
