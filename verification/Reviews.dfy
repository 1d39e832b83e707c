/**
 Review results, their fail-closed aggregation, and the de-duplication of findings.  Lower-casing
 (`lower`) is a parameter: every result holds for any of them, and so for any way keys collide.
 */
module Reviews {
  import opened Options
  import opened Policies

  datatype Finding = Finding(
    severity: Severity, file: Option<string>, line: Option<nat>, description: string,
    suggestedAction: string, source: string, category: string)

  datatype ReviewStatus = Approve | RequestChanges | Blocked

  datatype ReviewResult = ReviewResult(status: ReviewStatus, findings: seq<Finding>)

  function Digits(n: nat): string {
    if n < 10 then [['0', '1', '2', '3', '4', '5', '6', '7', '8', '9'][n]] else Digits(n / 10) + Digits(n % 10)
  }

  function FindingKey(f: Finding, lower: string -> string): string {
    (if f.file.Some? then f.file.value else "") + ":"
    + (if f.line.Some? then Digits(f.line.value) else "") + ":" + lower(f.description)
  }

  // ---------------------------------------------------------------- De-duplication

  function IndexOf(findings: seq<Finding>, key: string, lower: string -> string): (r: Option<nat>)
    ensures r.Some? ==> r.value < |findings| && FindingKey(findings[r.value], lower) == key
    ensures r.None? ==> forall i {:trigger findings[i]} | 0 <= i < |findings| :: FindingKey(findings[i], lower) != key
  {
    if findings == [] then None
    else if FindingKey(findings[|findings| - 1], lower) == key then Some(|findings| - 1)
    else IndexOf(findings[..|findings| - 1], key, lower)
  }

  predicate MoreSevere(a: Finding, b: Finding) {
    SeverityOrder(a.severity) > SeverityOrder(b.severity)
  }

  /** A new key is appended; a known key keeps its place and its more severe finding. */
  function Upsert(kept: seq<Finding>, f: Finding, lower: string -> string): seq<Finding> {
    match IndexOf(kept, FindingKey(f, lower), lower)
    case None => kept + [f]
    case Some(k) => if MoreSevere(f, kept[k]) then kept[k := f] else kept
  }

  function Dedupe(findings: seq<Finding>, lower: string -> string): seq<Finding> {
    if findings == [] then [] else Upsert(Dedupe(findings[..|findings| - 1], lower), findings[|findings| - 1], lower)
  }

  /** The source's insertion-ordered map, updated in place. */
  method DedupeByKey(findings: seq<Finding>, lower: string -> string) returns (kept: seq<Finding>)
    ensures kept == Dedupe(findings, lower)
  {
    var byKey: map<string, Finding> := map[];
    var order: seq<string> := [];
    for i := 0 to |findings|
      invariant Mirrors(byKey, order, Dedupe(findings[..i], lower), lower)
    {
      var finding := findings[i];
      var key := FindingKey(finding, lower);
      assert findings[..i + 1][..i] == findings[..i];
      UpsertMirrors(byKey, order, Dedupe(findings[..i], lower), finding, lower);
      if key !in byKey {
        byKey, order := byKey[key := finding], order + [key];
      } else if MoreSevere(finding, byKey[key]) {
        byKey := byKey[key := finding];
      }
    }
    assert findings[..|findings|] == findings;
    kept := seq(|order|, k requires 0 <= k < |order| && order[k] in byKey => byKey[order[k]]);
  }

  ghost predicate Mirrors(byKey: map<string, Finding>, order: seq<string>, kept: seq<Finding>, lower: string -> string) {
    && |order| == |kept|
    && (forall k | 0 <= k < |kept| :: order[k] == FindingKey(kept[k], lower) && order[k] in byKey && byKey[order[k]] == kept[k])
    && (forall key | key in byKey :: key in order)
    && (forall i, j | 0 <= i < j < |order| :: order[i] != order[j])
  }

  lemma {:induction false} UpsertMirrors(byKey: map<string, Finding>, order: seq<string>, kept: seq<Finding>, f: Finding, lower: string -> string)
    requires Mirrors(byKey, order, kept, lower)
    ensures var key := FindingKey(f, lower);
            && (key !in byKey ==> Mirrors(byKey[key := f], order + [key], Upsert(kept, f, lower), lower))
            && (key in byKey && MoreSevere(f, byKey[key]) ==> Mirrors(byKey[key := f], order, Upsert(kept, f, lower), lower))
            && (key in byKey && !MoreSevere(f, byKey[key]) ==> Mirrors(byKey, order, Upsert(kept, f, lower), lower))
  {
    var key := FindingKey(f, lower);
    if key in byKey {
      var at :| 0 <= at < |order| && order[at] == key;
      assert FindingKey(kept[at], lower) == key;
      var k := IndexOf(kept, key, lower).value;
      assert order[k] == key && byKey[key] == kept[k] == kept[at];
    } else {
      assert forall k | 0 <= k < |kept| :: order[k] != key;
    }
  }

  /** The first of the most severe findings with its key, given where it stands in `findings`. */
  ghost predicate Strongest(findings: seq<Finding>, i: nat, lower: string -> string)
    requires i < |findings|
  {
    forall j | 0 <= j < |findings| && FindingKey(findings[j], lower) == FindingKey(findings[i], lower) ::
      !MoreSevere(findings[j], findings[i]) && (j < i ==> MoreSevere(findings[i], findings[j]))
  }

  ghost predicate DistinctKeys(kept: seq<Finding>, lower: string -> string) {
    forall a, b | 0 <= a < b < |kept| :: FindingKey(kept[a], lower) != FindingKey(kept[b], lower)
  }

  lemma {:induction false} DedupeHasDistinctKeys(findings: seq<Finding>, lower: string -> string)
    ensures DistinctKeys(Dedupe(findings, lower), lower)
  {
    if findings != [] { DedupeHasDistinctKeys(findings[..|findings| - 1], lower); }
  }

  lemma {:induction false} StrongestStays(findings: seq<Finding>, before: seq<Finding>, f: Finding, i: nat, lower: string -> string)
    requires findings == before + [f] && i < |before| && Strongest(before, i, lower)
    requires FindingKey(f, lower) == FindingKey(before[i], lower) ==> !MoreSevere(f, before[i])
    ensures Strongest(findings, i, lower)
  {
    assert forall j | 0 <= j < |before| :: findings[j] == before[j];
  }

  lemma {:induction false} StrongerTakesOver(findings: seq<Finding>, before: seq<Finding>, f: Finding, i: nat, lower: string -> string)
    requires findings == before + [f] && i < |before| && Strongest(before, i, lower)
    requires FindingKey(f, lower) == FindingKey(before[i], lower) && MoreSevere(f, before[i])
    ensures Strongest(findings, |before|, lower)
  {
    assert forall j | 0 <= j < |before| :: findings[j] == before[j];
  }

  lemma {:induction false} NewKeyIsStrongest(findings: seq<Finding>, before: seq<Finding>, f: Finding, lower: string -> string)
    requires findings == before + [f] && IndexOf(Dedupe(before, lower), FindingKey(f, lower), lower).None?
    ensures Strongest(findings, |before|, lower)
  {
    forall j | 0 <= j < |before| ensures findings[j] == before[j] && FindingKey(before[j], lower) != FindingKey(f, lower) {
      var k := NothingIsLost(before, lower, j);
      assert Dedupe(before, lower)[k] == Dedupe(before, lower)[k];
    }
  }

  lemma {:induction false} KnownKeyIsFound(kept: seq<Finding>, key: string, lower: string -> string, k: nat)
    requires DistinctKeys(kept, lower) && k < |kept| && FindingKey(kept[k], lower) == key
    ensures IndexOf(kept, key, lower) == Some(k)
  {
    var found := IndexOf(kept, key, lower);
    assert found.Some? && FindingKey(kept[found.value], lower) == FindingKey(kept[k], lower);
  }

  /** Every kept finding is the strongest with its key. */
  lemma {:induction false} KeptIsStrongest(findings: seq<Finding>, lower: string -> string, k: nat) returns (i: nat)
    requires k < |Dedupe(findings, lower)|
    ensures i < |findings| && Dedupe(findings, lower)[k] == findings[i] && Strongest(findings, i, lower)
  {
    var n := |findings| - 1;
    var before, f := findings[..n], findings[n];
    assert findings == before + [f];
    var kept, at := Dedupe(before, lower), IndexOf(Dedupe(before, lower), FindingKey(f, lower), lower);
    if k == |kept| {
      NewKeyIsStrongest(findings, before, f, lower);
      i := n;
    } else {
      i := KeptIsStrongest(before, lower, k);
      DedupeHasDistinctKeys(before, lower);
      if FindingKey(f, lower) == FindingKey(kept[k], lower) { KnownKeyIsFound(kept, FindingKey(f, lower), lower, k); }
      if at == Some(k) && MoreSevere(f, kept[k]) {
        StrongerTakesOver(findings, before, f, i, lower);
        i := n;
      } else {
        StrongestStays(findings, before, f, i, lower);
      }
    }
  }

  /** No key is lost, and none is kept at a lower severity than it was raised at. */
  lemma {:induction false} NothingIsLost(findings: seq<Finding>, lower: string -> string, j: nat) returns (k: nat)
    requires j < |findings|
    ensures k < |Dedupe(findings, lower)|
    ensures FindingKey(Dedupe(findings, lower)[k], lower) == FindingKey(findings[j], lower)
    ensures !MoreSevere(findings[j], Dedupe(findings, lower)[k])
  {
    var n := |findings| - 1;
    var before, f := findings[..n], findings[n];
    var kept := Dedupe(before, lower);
    var at := IndexOf(kept, FindingKey(f, lower), lower);
    if j < n {
      k := NothingIsLost(before, lower, j);
      assert findings[j] == before[j];
    } else {
      k := if at.Some? then at.value else |kept|;
    }
  }

  // ---------------------------------------------------------------- Aggregation

  function BlockingFindings(findings: seq<Finding>, threshold: Severity): (r: seq<Finding>)
    ensures forall f {:trigger f in r} :: f in r <==> f in findings && IsAtLeastSeverity(f.severity, threshold)
  {
    if findings == [] then []
    else
      var rest := BlockingFindings(findings[1..], threshold);
      assert findings == [findings[0]] + findings[1..];
      if IsAtLeastSeverity(findings[0].severity, threshold) then [findings[0]] + rest else rest
  }

  function AllFindings(reviews: seq<ReviewResult>): (r: seq<Finding>)
    ensures forall f {:trigger f in r} :: f in r <==> exists v :: v in reviews && f in v.findings
  {
    if reviews == [] then []
    else
      assert reviews == [reviews[0]] + reviews[1..];
      reviews[0].findings + AllFindings(reviews[1..])
  }

  predicate AnyStatus(reviews: seq<ReviewResult>, status: ReviewStatus) {
    exists v | v in reviews :: v.status == status
  }

  function AggregateReviews(reviews: seq<ReviewResult>, required: nat, threshold: Severity, lower: string -> string): ReviewResult {
    var findings := Dedupe(AllFindings(reviews), lower);
    var status :=
      if |reviews| < required then Blocked
      else if AnyStatus(reviews, Blocked) then Blocked
      else if AnyStatus(reviews, RequestChanges) || BlockingFindings(findings, threshold) != [] then RequestChanges
      else Approve;
    ReviewResult(status, findings)
  }

  /** Some review, before any de-duplication, holds a finding at or above the threshold. */
  ghost predicate RaisesBlocking(reviews: seq<ReviewResult>, threshold: Severity) {
    exists v, f :: v in reviews && f in v.findings && IsAtLeastSeverity(f.severity, threshold)
  }

  lemma {:induction false} DedupeKeepsTheVerdict(reviews: seq<ReviewResult>, threshold: Severity, lower: string -> string)
    ensures BlockingFindings(Dedupe(AllFindings(reviews), lower), threshold) != [] <==> RaisesBlocking(reviews, threshold)
  {
    var findings := AllFindings(reviews);
    var kept := Dedupe(findings, lower);
    var blocking := BlockingFindings(kept, threshold);
    if blocking != [] {
      assert blocking[0] in blocking;
      var k :| 0 <= k < |kept| && kept[k] == blocking[0];
      var i := KeptIsStrongest(findings, lower, k);
      assert findings[i] in findings;
    }
    if RaisesBlocking(reviews, threshold) {
      var v, f :| v in reviews && f in v.findings && IsAtLeastSeverity(f.severity, threshold);
      assert f in findings;
      var j :| 0 <= j < |findings| && findings[j] == f;
      var k := NothingIsLost(findings, lower, j);
      assert kept[k] in blocking;
    }
  }

  /** The aggregate in its own terms: a missing or blocked opinion blocks, any objection asks for changes. */
  lemma {:induction false} AggregateIsPessimistic(reviews: seq<ReviewResult>, required: nat, threshold: Severity, lower: string -> string)
    ensures var status := AggregateReviews(reviews, required, threshold, lower).status;
            && (status == Blocked <==> |reviews| < required || exists v :: v in reviews && v.status == Blocked)
            && (status == Approve <==>
                  |reviews| >= required && (forall v | v in reviews :: v.status == Approve) && !RaisesBlocking(reviews, threshold))
  {
    DedupeKeepsTheVerdict(reviews, threshold, lower);
    forall v | v in reviews ensures v.status == Approve || AnyStatus(reviews, v.status) {}
  }

  /** The order of the reviews does not matter. */
  lemma {:induction false} AggregateIgnoresOrder(reviews: seq<ReviewResult>, shuffled: seq<ReviewResult>, required: nat, threshold: Severity, lower: string -> string)
    requires multiset(reviews) == multiset(shuffled)
    ensures AggregateReviews(reviews, required, threshold, lower).status == AggregateReviews(shuffled, required, threshold, lower).status
  {
    forall v ensures v in reviews <==> v in shuffled { assert v in multiset(reviews) <==> v in multiset(shuffled); }
    assert |reviews| == |multiset(reviews)| && |shuffled| == |multiset(shuffled)|;
    AggregateIsPessimistic(reviews, required, threshold, lower);
    AggregateIsPessimistic(shuffled, required, threshold, lower);
  }

  // ---------------------------------------------------------------- Deterministic findings

  function MergeReview(agent: ReviewResult, deterministic: seq<Finding>, threshold: Severity): ReviewResult {
    var findings := deterministic + agent.findings;
    var status :=
      if agent.status == Blocked then Blocked
      else if BlockingFindings(findings, threshold) != [] || agent.status == RequestChanges then RequestChanges
      else Approve;
    ReviewResult(status, findings)
  }

  function Strictness(status: ReviewStatus): nat {
    match status case Approve => 0 case RequestChanges => 1 case Blocked => 2
  }

  /** Deterministic findings ride on the first review. */
  function WithDeterministic(reviews: seq<ReviewResult>, deterministic: seq<Finding>, threshold: Severity): seq<ReviewResult> {
    if reviews == [] then [] else [MergeReview(reviews[0], deterministic, threshold)] + reviews[1..]
  }

  /** Merging deterministic findings never moves the aggregate toward approval, and one at the threshold always prevents it. */
  lemma {:induction false} DeterministicFindingsOnlyTighten(reviews: seq<ReviewResult>, deterministic: seq<Finding>, required: nat, threshold: Severity,
                                                            lower: string -> string)
    ensures var merged := WithDeterministic(reviews, deterministic, threshold);
            && Strictness(AggregateReviews(merged, required, threshold, lower).status)
               >= Strictness(AggregateReviews(reviews, required, threshold, lower).status)
            && (reviews != [] && (exists f :: f in deterministic && IsAtLeastSeverity(f.severity, threshold)) ==>
                  AggregateReviews(merged, required, threshold, lower).status != Approve)
  {
    var merged := WithDeterministic(reviews, deterministic, threshold);
    AggregateIsPessimistic(reviews, required, threshold, lower);
    AggregateIsPessimistic(merged, required, threshold, lower);
    if reviews != [] { MergedObjectsAtLeast(reviews, deterministic, threshold); }
  }

  lemma {:induction false} MergedObjectsAtLeast(reviews: seq<ReviewResult>, deterministic: seq<Finding>, threshold: Severity)
    requires reviews != []
    ensures var merged := WithDeterministic(reviews, deterministic, threshold);
            && ((exists v :: v in reviews && v.status == Blocked) <==> exists v :: v in merged && v.status == Blocked)
            && ((forall v | v in merged :: v.status == Approve) ==> forall v | v in reviews :: v.status == Approve)
            && (RaisesBlocking(reviews, threshold) ==> RaisesBlocking(merged, threshold))
            && ((exists f :: f in deterministic && IsAtLeastSeverity(f.severity, threshold)) ==> RaisesBlocking(merged, threshold))
  {
    var first, rest := reviews[0], reviews[1..];
    var head := MergeReview(first, deterministic, threshold);
    var merged := [head] + rest;
    assert reviews == [first] + rest;
    assert head in merged && forall v :: v in merged <==> v == head || v in rest;
    if v, f :| v in reviews && f in v.findings && IsAtLeastSeverity(f.severity, threshold) {
      if v == first { assert f in head.findings; } else { assert v in merged; }
    }
    if f :| f in deterministic && IsAtLeastSeverity(f.severity, threshold) { assert f in head.findings; }
  }
}
