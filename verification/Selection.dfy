/**
 Choosing the next issue from the backlog, and draining it by choosing and closing again and again.
 Reading a `Depends on` block out of an issue body is not part of this model; its result is a field.
 */
module Selection {
  import opened Options

  datatype IssueState = Open | Closed

  datatype Declaration = Declaration(declared: bool, dependencies: seq<nat>)

  datatype Issue = Issue(number: nat, state: IssueState, labels: seq<string>, declaration: Declaration)

  datatype SelectionPolicy = SelectionPolicy(
    requiredLabel: string, excludedLabels: seq<string>, fallbackDependencies: map<nat, seq<nat>>,
    priorityLabels: seq<string>, skip: seq<nat>)

  function Rank(labels: seq<string>, priorityLabels: seq<string>): (r: nat)
    ensures r <= |priorityLabels| && (r < |priorityLabels| ==> priorityLabels[r] in labels)
    ensures forall k | 0 <= k < r :: priorityLabels[k] !in labels
  {
    if priorityLabels == [] || priorityLabels[0] in labels then 0 else 1 + Rank(labels, priorityLabels[1..])
  }

  method PriorityRank(labels: seq<string>, priorityLabels: seq<string>) returns (rank: nat)
    ensures rank == Rank(labels, priorityLabels)
  {
    for index := 0 to |priorityLabels|
      invariant forall k | 0 <= k < index :: priorityLabels[k] !in labels
    {
      if priorityLabels[index] in labels { return index; }
    }
    return |priorityLabels|;
  }

  // ---------------------------------------------------------------- Eligibility

  /** The source's `new Map(issues.map(...))`: the last issue with a number wins. */
  function ByNumber(issues: seq<Issue>, number: nat): (r: Option<Issue>)
    ensures r.Some? ==> r.value in issues && r.value.number == number
    ensures r.None? ==> forall i {:trigger i in issues} | i in issues :: i.number != number
  {
    if issues == [] then None
    else
      assert issues == issues[..|issues| - 1] + [issues[|issues| - 1]];
      if issues[|issues| - 1].number == number then Some(issues[|issues| - 1]) else ByNumber(issues[..|issues| - 1], number)
  }

  /** An unknown dependency cannot be verified, so it is not satisfied. */
  predicate Satisfied(issues: seq<Issue>, number: nat) {
    ByNumber(issues, number).Some? && ByNumber(issues, number).value.state == Closed
  }

  function Dependencies(p: SelectionPolicy, i: Issue): seq<nat> {
    if i.declaration.declared then i.declaration.dependencies
    else if i.number in p.fallbackDependencies then p.fallbackDependencies[i.number]
    else []
  }

  datatype Reason = MissingLabel | Carries(name: string) | AlreadyBlocked | UnmetDependencies(numbers: seq<nat>)

  function Carried(excluded: seq<string>, labels: seq<string>): seq<Reason> {
    if excluded == [] then []
    else (if excluded[0] in labels then [Carries(excluded[0])] else []) + Carried(excluded[1..], labels)
  }

  function Unmet(issues: seq<Issue>, numbers: seq<nat>): seq<nat> {
    if numbers == [] then []
    else (if Satisfied(issues, numbers[0]) then [] else [numbers[0]]) + Unmet(issues, numbers[1..])
  }

  function Reasons(issues: seq<Issue>, p: SelectionPolicy, i: Issue): seq<Reason> {
    var unmet := Unmet(issues, Dependencies(p, i));
    (if p.requiredLabel in i.labels then [] else [MissingLabel])
    + Carried(p.excludedLabels, i.labels)
    + (if i.number in p.skip then [AlreadyBlocked] else [])
    + (if unmet == [] then [] else [UnmetDependencies(unmet)])
  }

  /** Labelled for the loop, not held, and not given up on. */
  ghost predicate Ready(p: SelectionPolicy, i: Issue) {
    p.requiredLabel in i.labels && (forall x | x in p.excludedLabels :: x !in i.labels) && i.number !in p.skip
  }

  ghost predicate Eligible(issues: seq<Issue>, p: SelectionPolicy, i: Issue) {
    Ready(p, i) && forall d | d in Dependencies(p, i) :: Satisfied(issues, d)
  }

  lemma {:induction false} CarriedIff(excluded: seq<string>, labels: seq<string>)
    ensures Carried(excluded, labels) == [] <==> forall x | x in excluded :: x !in labels
  {
    if excluded != [] {
      assert excluded == [excluded[0]] + excluded[1..];
      CarriedIff(excluded[1..], labels);
    }
  }

  lemma {:induction false} UnmetIff(issues: seq<Issue>, numbers: seq<nat>)
    ensures Unmet(issues, numbers) == [] <==> forall d | d in numbers :: Satisfied(issues, d)
  {
    if numbers != [] {
      assert numbers == [numbers[0]] + numbers[1..];
      UnmetIff(issues, numbers[1..]);
    }
  }

  lemma {:induction false} NoReasonsIffEligible(issues: seq<Issue>, p: SelectionPolicy, i: Issue)
    ensures Reasons(issues, p, i) == [] <==> Eligible(issues, p, i)
  {
    CarriedIff(p.excludedLabels, i.labels);
    UnmetIff(issues, Dependencies(p, i));
  }

  // ---------------------------------------------------------------- The choice

  datatype Candidate = Candidate(issue: Issue, reasons: seq<Reason>)

  /** The comparator: priority rank first, then issue number. */
  predicate Before(p: SelectionPolicy, a: Issue, b: Issue) {
    var ra, rb := Rank(a.labels, p.priorityLabels), Rank(b.labels, p.priorityLabels);
    if ra != rb then ra < rb else a.number <= b.number
  }

  /** A stable insertion into a sorted list. */
  function Insert(p: SelectionPolicy, c: Candidate, sorted: seq<Candidate>): seq<Candidate> {
    if sorted == [] then [c]
    else if Before(p, c.issue, sorted[0].issue) then [c] + sorted
    else [sorted[0]] + Insert(p, c, sorted[1..])
  }

  function Sort(p: SelectionPolicy, candidates: seq<Candidate>): seq<Candidate> {
    if candidates == [] then [] else Insert(p, candidates[0], Sort(p, candidates[1..]))
  }

  function OpenCandidates(all: seq<Issue>, p: SelectionPolicy, issues: seq<Issue>): seq<Candidate> {
    if issues == [] then []
    else (if issues[0].state == Open then [Candidate(issues[0], Reasons(all, p, issues[0]))] else [])
         + OpenCandidates(all, p, issues[1..])
  }

  function EvaluateCandidates(issues: seq<Issue>, p: SelectionPolicy): seq<Candidate> {
    Sort(p, OpenCandidates(issues, p, issues))
  }

  function FirstEligible(candidates: seq<Candidate>): Option<Issue> {
    if candidates == [] then None
    else if candidates[0].reasons == [] then Some(candidates[0].issue)
    else FirstEligible(candidates[1..])
  }

  function SelectNextIssue(issues: seq<Issue>, p: SelectionPolicy): Option<Issue> {
    FirstEligible(EvaluateCandidates(issues, p))
  }

  ghost predicate InOrder(p: SelectionPolicy, candidates: seq<Candidate>) {
    forall i, j | 0 <= i < j < |candidates| :: Before(p, candidates[i].issue, candidates[j].issue)
  }

  lemma {:induction false} InsertAdds(p: SelectionPolicy, c: Candidate, sorted: seq<Candidate>)
    ensures multiset(Insert(p, c, sorted)) == multiset{c} + multiset(sorted)
  {
    if sorted != [] {
      assert sorted == [sorted[0]] + sorted[1..];
      if !Before(p, c.issue, sorted[0].issue) { InsertAdds(p, c, sorted[1..]); }
    }
  }

  lemma {:induction false} InsertSorts(p: SelectionPolicy, c: Candidate, sorted: seq<Candidate>)
    requires InOrder(p, sorted)
    ensures InOrder(p, Insert(p, c, sorted))
  {
    if sorted != [] && !Before(p, c.issue, sorted[0].issue) {
      InsertSorts(p, c, sorted[1..]);
      InsertAdds(p, c, sorted[1..]);
      var tail := Insert(p, c, sorted[1..]);
      forall k | 0 <= k < |tail| ensures Before(p, sorted[0].issue, tail[k].issue) {
        assert tail[k] in multiset(tail);
        assert tail[k] == c || tail[k] in sorted[1..];
      }
    }
  }

  lemma {:induction false} SortSorts(p: SelectionPolicy, candidates: seq<Candidate>)
    ensures InOrder(p, Sort(p, candidates)) && multiset(Sort(p, candidates)) == multiset(candidates)
  {
    if candidates != [] {
      assert candidates == [candidates[0]] + candidates[1..];
      SortSorts(p, candidates[1..]);
      InsertSorts(p, candidates[0], Sort(p, candidates[1..]));
      InsertAdds(p, candidates[0], Sort(p, candidates[1..]));
    }
  }

  lemma {:induction false} OpenCandidatesAre(all: seq<Issue>, p: SelectionPolicy, issues: seq<Issue>, c: Candidate)
    ensures c in OpenCandidates(all, p, issues) <==> c.issue in issues && c.issue.state == Open && c.reasons == Reasons(all, p, c.issue)
  {
    if issues != [] {
      assert issues == [issues[0]] + issues[1..];
      OpenCandidatesAre(all, p, issues[1..], c);
    }
  }

  ghost predicate Available(issues: seq<Issue>, p: SelectionPolicy, i: Issue) {
    i in issues && i.state == Open && Eligible(issues, p, i)
  }

  lemma {:induction false} FirstEligibleIsLeast(p: SelectionPolicy, candidates: seq<Candidate>)
    requires InOrder(p, candidates)
    ensures FirstEligible(candidates).None? ==> forall c | c in candidates :: c.reasons != []
    ensures FirstEligible(candidates).Some? ==>
              && (exists c :: c in candidates && c.reasons == [] && c.issue == FirstEligible(candidates).value)
              && forall c | c in candidates && c.reasons == [] && c.issue != FirstEligible(candidates).value ::
                   Before(p, FirstEligible(candidates).value, c.issue)
  {
    if candidates != [] {
      assert candidates == [candidates[0]] + candidates[1..];
      if candidates[0].reasons == [] {
        assert candidates[0] in candidates;
      } else {
        FirstEligibleIsLeast(p, candidates[1..]);
      }
    }
  }

  /** The selected issue is the least available one by (priority rank, number); nothing is selected only when none is available. */
  lemma {:induction false} SelectionIsLeastAvailable(issues: seq<Issue>, p: SelectionPolicy, other: Issue)
    ensures var selected := SelectNextIssue(issues, p);
            && (selected.None? ==> !Available(issues, p, other))
            && (selected.Some? ==> Available(issues, p, selected.value))
            && (selected.Some? && Available(issues, p, other) && other != selected.value ==>
                  && Before(p, selected.value, other)
                  && var rank, otherRank := Rank(selected.value.labels, p.priorityLabels), Rank(other.labels, p.priorityLabels);
                     rank < otherRank || (rank == otherRank && selected.value.number <= other.number))
  {
    var opens, selected := OpenCandidates(issues, p, issues), SelectNextIssue(issues, p);
    var sorted := Sort(p, opens);
    SortSorts(p, opens);
    FirstEligibleIsLeast(p, sorted);
    var c := Candidate(other, Reasons(issues, p, other));
    OpenCandidatesAre(issues, p, issues, c);
    NoReasonsIffEligible(issues, p, other);
    assert c in opens <==> c in multiset(opens);
    if selected.Some? {
      var best :| best in sorted && best.reasons == [] && best.issue == selected.value;
      assert best in multiset(sorted);
      OpenCandidatesAre(issues, p, issues, best);
      NoReasonsIffEligible(issues, p, best.issue);
    }
  }

  /** An open issue with the required label and no dependencies. */
  function ReadyIssue(p: SelectionPolicy, issue: nat): Issue {
    Issue(issue, Open, [p.requiredLabel], Declaration(true, []))
  }

  lemma {:induction false} ReadyIssueIsSelected(p: SelectionPolicy, issue: nat)
    requires issue !in p.skip && p.requiredLabel !in p.excludedLabels
    ensures SelectNextIssue([ReadyIssue(p, issue)], p) == Some(ReadyIssue(p, issue))
  {
    var i := ReadyIssue(p, issue);
    assert Available([i], p, i);
    SelectionIsLeastAvailable([i], p, i);
  }

  ghost predicate UniqueNumbers(issues: seq<Issue>) {
    forall i, j {:trigger issues[i], issues[j]} | 0 <= i < j < |issues| :: issues[i].number != issues[j].number
  }

  lemma {:induction false} ByNumberIsMembership(issues: seq<Issue>, i: Issue)
    requires UniqueNumbers(issues) && i in issues
    ensures ByNumber(issues, i.number) == Some(i)
  {
    var found := ByNumber(issues, i.number);
    assert found.Some?;
    var a :| 0 <= a < |issues| && issues[a] == i;
    var b :| 0 <= b < |issues| && issues[b] == found.value;
  }

  lemma {:induction false} AvailableIgnoresOrder(issues: seq<Issue>, shuffled: seq<Issue>, p: SelectionPolicy, i: Issue)
    requires UniqueNumbers(issues) && UniqueNumbers(shuffled) && multiset(issues) == multiset(shuffled)
    requires Available(issues, p, i)
    ensures Available(shuffled, p, i)
  {
    forall x ensures x in issues <==> x in shuffled { assert x in multiset(issues) <==> x in multiset(shuffled); }
    forall d | d in Dependencies(p, i) ensures Satisfied(shuffled, d) {
      assert Satisfied(issues, d);
      ByNumberIsMembership(shuffled, ByNumber(issues, d).value);
    }
  }

  /** With unique numbers, the order in which the host lists the issues does not matter. */
  lemma {:induction false} SelectionIgnoresOrder(issues: seq<Issue>, shuffled: seq<Issue>, p: SelectionPolicy)
    requires UniqueNumbers(issues) && UniqueNumbers(shuffled) && multiset(issues) == multiset(shuffled)
    ensures SelectNextIssue(issues, p) == SelectNextIssue(shuffled, p)
  {
    var a, b := SelectNextIssue(issues, p), SelectNextIssue(shuffled, p);
    if a.Some? {
      SelectionIsLeastAvailable(issues, p, a.value);
      AvailableIgnoresOrder(issues, shuffled, p, a.value);
      SelectionIsLeastAvailable(shuffled, p, a.value);
    }
    if b.Some? {
      SelectionIsLeastAvailable(shuffled, p, b.value);
      AvailableIgnoresOrder(shuffled, issues, p, b.value);
      SelectionIsLeastAvailable(issues, p, b.value);
    }
  }

  // ---------------------------------------------------------------- Draining the backlog

  function Close(issues: seq<Issue>, number: nat): (r: seq<Issue>)
    ensures |r| == |issues|
    ensures forall k | 0 <= k < |r| :: r[k] == if issues[k].number == number then issues[k].(state := Closed) else issues[k]
  {
    seq(|issues|, k requires 0 <= k < |issues| => if issues[k].number == number then issues[k].(state := Closed) else issues[k])
  }

  function OpenCount(issues: seq<Issue>): nat {
    if issues == [] then 0 else OpenCount(issues[..|issues| - 1]) + (if issues[|issues| - 1].state == Open then 1 else 0)
  }

  /** Select and close until nothing is selected: the numbers closed, in order. */
  function Drain(issues: seq<Issue>, p: SelectionPolicy): seq<nat>
    decreases OpenCount(issues)
  {
    match SelectNextIssue(issues, p)
    case None => []
    case Some(i) =>
      SelectionIsLeastAvailable(issues, p, i);
      ClosingReducesOpen(issues, i);
      [i.number] + Drain(Close(issues, i.number), p)
  }

  lemma {:induction false} ClosingSplits(issues: seq<Issue>, number: nat, before: seq<Issue>, last: Issue)
    requires issues == before + [last]
    ensures OpenCount(issues) == OpenCount(before) + (if last.state == Open then 1 else 0)
    ensures OpenCount(Close(issues, number)) ==
            OpenCount(Close(before, number)) + (if last.state == Open && last.number != number then 1 else 0)
  {
    assert issues[..|issues| - 1] == before;
    assert Close(issues, number)[..|issues| - 1] == Close(before, number);
  }

  lemma {:induction false} ClosingReducesOpen(issues: seq<Issue>, i: Issue)
    requires i in issues && i.state == Open
    ensures OpenCount(Close(issues, i.number)) < OpenCount(issues)
  {
    var before, last := issues[..|issues| - 1], issues[|issues| - 1];
    ClosingSplits(issues, i.number, before, last);
    if i in before { ClosingReducesOpen(before, i); } else { ClosingNeverOpens(before, i.number); }
  }

  lemma {:induction false} ClosingRemovesOne(issues: seq<Issue>, i: Issue)
    requires UniqueNumbers(issues) && i in issues && i.state == Open
    ensures OpenCount(Close(issues, i.number)) == OpenCount(issues) - 1
  {
    var before, last := issues[..|issues| - 1], issues[|issues| - 1];
    ClosingSplits(issues, i.number, before, last);
    if i in before { ClosingRemovesOne(before, i); } else { ClosingNothing(before, i.number); }
  }

  lemma {:induction false} ClosingNeverOpens(issues: seq<Issue>, number: nat)
    ensures OpenCount(Close(issues, number)) <= OpenCount(issues)
  {
    if issues != [] {
      assert Close(issues, number)[..|issues| - 1] == Close(issues[..|issues| - 1], number);
      ClosingNeverOpens(issues[..|issues| - 1], number);
    }
  }

  lemma {:induction false} ClosingNothing(issues: seq<Issue>, number: nat)
    requires forall k | 0 <= k < |issues| :: issues[k].number != number
    ensures Close(issues, number) == issues
  {
  }

  /** Every open issue is ready and every dependency it names exists. */
  ghost predicate Workable(issues: seq<Issue>, p: SelectionPolicy) {
    && UniqueNumbers(issues)
    && forall i | i in issues && i.state == Open :: Ready(p, i) && forall d | d in Dependencies(p, i) :: ByNumber(issues, d).Some?
  }

  /** `d` is an open dependency of the open issue `i`. */
  ghost predicate WaitsFor(issues: seq<Issue>, p: SelectionPolicy, i: Issue, d: Issue) {
    i in issues && i.state == Open && d in issues && d.state == Open && d.number in Dependencies(p, i)
  }

  ghost predicate RankedBy(issues: seq<Issue>, p: SelectionPolicy, rank: nat -> nat) {
    forall i, d | WaitsFor(issues, p, i, d) :: rank(d.number) < rank(i.number)
  }

  ghost predicate Acyclic(issues: seq<Issue>, p: SelectionPolicy) {
    exists rank :: RankedBy(issues, p, rank)
  }

  lemma {:induction false} LowestOpen(issues: seq<Issue>, rank: nat -> nat) returns (least: Issue)
    requires exists i :: i in issues && i.state == Open
    ensures least in issues && least.state == Open
    ensures forall i | i in issues && i.state == Open :: rank(least.number) <= rank(i.number)
  {
    var before, last := issues[..|issues| - 1], issues[|issues| - 1];
    assert issues == before + [last];
    if exists i :: i in before && i.state == Open {
      least := LowestOpen(before, rank);
      if last.state == Open && rank(last.number) < rank(least.number) { least := last; }
    } else {
      least := last;
    }
  }

  lemma {:induction false} OpenCountIsZeroIff(issues: seq<Issue>)
    ensures OpenCount(issues) == 0 <==> forall i | i in issues :: i.state == Closed
  {
    if issues != [] {
      assert issues == issues[..|issues| - 1] + [issues[|issues| - 1]];
      OpenCountIsZeroIff(issues[..|issues| - 1]);
    }
  }

  /** While an acyclic backlog has an open issue, something is selected. */
  lemma {:induction false} AcyclicMakesProgress(issues: seq<Issue>, p: SelectionPolicy, rank: nat -> nat)
    requires Workable(issues, p) && RankedBy(issues, p, rank) && OpenCount(issues) > 0
    ensures SelectNextIssue(issues, p).Some?
  {
    OpenCountIsZeroIff(issues);
    var least := LowestOpen(issues, rank);
    forall d | d in Dependencies(p, least) ensures Satisfied(issues, d) {
      var dependency := ByNumber(issues, d).value;
      assert dependency.state == Open ==> WaitsFor(issues, p, least, dependency);
    }
    assert Available(issues, p, least);
    SelectionIsLeastAvailable(issues, p, least);
  }

  lemma {:induction false} ClosedMembers(issues: seq<Issue>, number: nat, i: Issue)
    requires i in Close(issues, number)
    ensures exists j :: j in issues && j.number == i.number && (i == j || (j.number == number && i == j.(state := Closed)))
  {
    var k :| 0 <= k < |issues| && Close(issues, number)[k] == i;
    assert issues[k] in issues;
  }

  lemma {:induction false} ClosedByNumber(issues: seq<Issue>, number: nat, d: nat)
    ensures ByNumber(Close(issues, number), d) ==
            match ByNumber(issues, d) { case None => None case Some(i) => Some(if d == number then i.(state := Closed) else i) }
  {
    if issues != [] {
      assert Close(issues, number)[..|issues| - 1] == Close(issues[..|issues| - 1], number);
      ClosedByNumber(issues[..|issues| - 1], number, d);
    }
  }

  lemma {:induction false} ClosingKeepsWorkable(issues: seq<Issue>, number: nat, p: SelectionPolicy)
    requires Workable(issues, p)
    ensures Workable(Close(issues, number), p)
  {
    var after := Close(issues, number);
    forall i | i in after && i.state == Open ensures i in issues { ClosedMembers(issues, number, i); }
    forall d ensures ByNumber(after, d).Some? <==> ByNumber(issues, d).Some? { ClosedByNumber(issues, number, d); }
  }

  lemma {:induction false} ClosingKeepsRanks(issues: seq<Issue>, number: nat, p: SelectionPolicy, rank: nat -> nat)
    requires RankedBy(issues, p, rank)
    ensures RankedBy(Close(issues, number), p, rank)
  {
    var after := Close(issues, number);
    forall i, d | WaitsFor(after, p, i, d) ensures rank(d.number) < rank(i.number) {
      ClosedMembers(issues, number, i);
      ClosedMembers(issues, number, d);
      assert WaitsFor(issues, p, i, d);
    }
  }

  lemma {:induction false} AcyclicDrains(issues: seq<Issue>, p: SelectionPolicy, rank: nat -> nat)
    requires Workable(issues, p) && RankedBy(issues, p, rank)
    ensures |Drain(issues, p)| == OpenCount(issues)
    decreases OpenCount(issues)
  {
    if OpenCount(issues) == 0 {
      OpenCountIsZeroIff(issues);
      if SelectNextIssue(issues, p).Some? { SelectionIsLeastAvailable(issues, p, SelectNextIssue(issues, p).value); }
    } else {
      AcyclicMakesProgress(issues, p, rank);
      var i := SelectNextIssue(issues, p).value;
      SelectionIsLeastAvailable(issues, p, i);
      ClosingRemovesOne(issues, i);
      ClosingKeepsWorkable(issues, i.number, p);
      ClosingKeepsRanks(issues, i.number, p, rank);
      AcyclicDrains(Close(issues, i.number), p, rank);
    }
  }

  /** Whatever the backlog, an issue is closed only after everything it depends on. */
  lemma {:induction false} DependenciesCloseFirst(issues: seq<Issue>, p: SelectionPolicy, k: nat, i: Issue, d: nat)
    requires UniqueNumbers(issues) && k < |Drain(issues, p)|
    requires i in issues && i.state == Open && i.number == Drain(issues, p)[k] && d in Dependencies(p, i)
    ensures Satisfied(issues, d) || exists j :: 0 <= j < k && Drain(issues, p)[j] == d
    decreases k
  {
    var first := SelectNextIssue(issues, p).value;
    SelectionIsLeastAvailable(issues, p, first);
    var after := Close(issues, first.number);
    var rest := Drain(after, p);
    if k == 0 {
      ByNumberIsMembership(issues, i);
      ByNumberIsMembership(issues, first);
    } else {
      DrainedWereOpen(after, p, k - 1);
      StillThere(issues, first, i, after, rest[k - 1]);
      DependenciesCloseFirst(after, p, k - 1, i, d);
      EarlierOrFirst(issues, first.number, rest, k - 1, d);
    }
  }

  lemma {:induction false} EarlierOrFirst(issues: seq<Issue>, first: nat, rest: seq<nat>, k: nat, d: nat)
    requires k < |rest|
    requires Satisfied(Close(issues, first), d) || exists j :: 0 <= j < k && rest[j] == d
    ensures Satisfied(issues, d) || exists j :: 0 <= j < k + 1 && ([first] + rest)[j] == d
  {
    ClosedByNumber(issues, first, d);
    var order := [first] + rest;
    if j :| 0 <= j < k && rest[j] == d { assert order[j + 1] == d; }
    assert order[0] == first;
  }

  lemma {:induction false} StillThere(issues: seq<Issue>, first: Issue, i: Issue, after: seq<Issue>, number: nat)
    requires after == Close(issues, first.number) && i in issues && i.number == number
    requires exists o :: o in after && o.number == number && o.state == Open
    ensures i in after
  {
    var o :| o in after && o.number == number && o.state == Open;
    var m :| 0 <= m < |after| && after[m] == o;
    var k :| 0 <= k < |issues| && issues[k] == i;
    assert number != first.number;
    assert after[k] == i;
  }

  lemma {:induction false} DrainedWereOpen(issues: seq<Issue>, p: SelectionPolicy, k: nat)
    requires k < |Drain(issues, p)|
    ensures exists o :: o in issues && o.number == Drain(issues, p)[k] && o.state == Open
    decreases k
  {
    var first := SelectNextIssue(issues, p).value;
    SelectionIsLeastAvailable(issues, p, first);
    if k > 0 {
      var after := Close(issues, first.number);
      DrainedWereOpen(after, p, k - 1);
      var o :| o in after && o.number == Drain(after, p)[k - 1] && o.state == Open;
      ClosedMembers(issues, first.number, o);
    }
  }

  lemma {:induction false} UndrainedIsCounted(issues: seq<Issue>, p: SelectionPolicy, i: Issue)
    requires UniqueNumbers(issues) && i in issues && i.state == Open && i.number !in Drain(issues, p)
    ensures |Drain(issues, p)| < OpenCount(issues)
    decreases OpenCount(issues)
  {
    OpenCountIsZeroIff(issues);
    if SelectNextIssue(issues, p).Some? {
      var first := SelectNextIssue(issues, p).value;
      SelectionIsLeastAvailable(issues, p, first);
      ClosingRemovesOne(issues, first);
      var after := Close(issues, first.number);
      assert Drain(issues, p) == [first.number] + Drain(after, p);
      assert first.number in Drain(issues, p);
      var k :| 0 <= k < |issues| && issues[k] == i;
      assert after[k] == i;
      UndrainedIsCounted(after, p, i);
    }
  }

  function Position(order: seq<nat>, n: nat): (r: nat)
    ensures r <= |order| && (n in order ==> r < |order| && order[r] == n)
    ensures forall j | 0 <= j < r :: order[j] != n
  {
    if order == [] || order[0] == n then 0 else 1 + Position(order[1..], n)
  }

  lemma {:induction false} DrainingRanks(issues: seq<Issue>, p: SelectionPolicy)
    requires Workable(issues, p) && |Drain(issues, p)| == OpenCount(issues)
    ensures Acyclic(issues, p)
  {
    var order := Drain(issues, p);
    var rank := (n: nat) => Position(order, n);
    forall i, d | WaitsFor(issues, p, i, d) ensures rank(d.number) < rank(i.number) {
      if i.number !in order { UndrainedIsCounted(issues, p, i); }
      DependenciesCloseFirst(issues, p, Position(order, i.number), i, d.number);
      ByNumberIsMembership(issues, d);
    }
    assert RankedBy(issues, p, rank);
  }

  /**
   Selecting and closing again and again closes all n open issues, in exactly n steps, exactly when
   the open issues' dependencies are acyclic.
   */
  lemma {:induction false} DrainsIffAcyclic(issues: seq<Issue>, p: SelectionPolicy)
    requires Workable(issues, p)
    ensures |Drain(issues, p)| == OpenCount(issues) <==> Acyclic(issues, p)
  {
    if rank :| RankedBy(issues, p, rank) { AcyclicDrains(issues, p, rank); }
    if |Drain(issues, p)| == OpenCount(issues) { DrainingRanks(issues, p); }
  }
}
