/**
 Runaway protection: the budget's two pruned arrays of time stamps, proved against the full event
 logs nobody keeps, and the rolling-window limits the checks enforce.  Times are in milliseconds.
 */
module Budgets {
  import opened Options

  const HOUR := 3_600_000
  const DAY := 86_400_000

  datatype BudgetKind = Invocations | Issues | Runtime

  /** Limits of zero switch a check off. */
  datatype Limits = Limits(perHour: nat, perDay: nat, maxHours: nat)

  /** A clock that never goes back, whose readings are otherwise arbitrary. */
  class Clock {
    const reading: nat -> int
    var cursor: nat
    ghost var last: int

    ghost predicate Valid()
      reads this
    {
      && last <= reading(cursor)
      && forall i, j | cursor <= i <= j :: reading(i) <= reading(j)
    }

    constructor (reading: nat -> int)
      requires forall i, j | 0 <= i <= j :: reading(i) <= reading(j)
      ensures Valid() && fresh(this)
    {
      this.reading := reading;
      cursor := 0;
      last := reading(0);
    }

    method Now() returns (t: int)
      requires Valid()
      modifies this
      ensures Valid() && old(last) <= t == last
    {
      t := reading(cursor);
      last := t;
      cursor := cursor + 1;
    }
  }

  // ---------------------------------------------------------------- Event logs

  ghost predicate Ascending(log: seq<int>) {
    |log| > 1 ==> log[|log| - 2] <= log[|log| - 1] && Ascending(log[..|log| - 1])
  }

  ghost predicate EndsBy(log: seq<int>, t: int) {
    log != [] ==> log[|log| - 1] <= t
  }

  lemma {:induction false} AscendingAt(log: seq<int>, i: nat, j: nat)
    requires Ascending(log) && i <= j < |log|
    ensures log[i] <= log[j]
  {
    if j < |log| - 1 {
      AscendingAt(log[..|log| - 1], i, j);
    } else if i < j {
      AscendingAt(log[..|log| - 1], i, |log| - 2);
    }
  }

  lemma {:induction false} AscendingSnoc(log: seq<int>, t: int)
    requires Ascending(log) && EndsBy(log, t)
    ensures Ascending(log + [t])
  {
    assert (log + [t])[..|log|] == log;
  }

  ghost predicate AllBefore(log: seq<int>, t: int) {
    forall i | 0 <= i < |log| :: log[i] < t
  }

  /** Events at or after the cutoff. */
  function CountSince(log: seq<int>, cutoff: int): nat {
    if log == [] then 0 else CountSince(log[..|log| - 1], cutoff) + (if log[|log| - 1] >= cutoff then 1 else 0)
  }

  lemma {:induction false} CountSinceAppends(a: seq<int>, b: seq<int>, cutoff: int)
    ensures CountSince(a + b, cutoff) == CountSince(a, cutoff) + CountSince(b, cutoff)
  {
    if b == [] {
      assert a + b == a;
    } else {
      assert (a + b)[..|a + b| - 1] == a + b[..|b| - 1];
      CountSinceAppends(a, b[..|b| - 1], cutoff);
    }
  }

  lemma {:induction false} CountSinceOld(log: seq<int>, cutoff: int)
    requires AllBefore(log, cutoff)
    ensures CountSince(log, cutoff) == 0
  {
    if log != [] { CountSinceOld(log[..|log| - 1], cutoff); }
  }

  lemma {:induction false} CountSinceAll(log: seq<int>, cutoff: int)
    requires forall i | 0 <= i < |log| :: log[i] >= cutoff
    ensures CountSince(log, cutoff) == |log|
  {
    if log != [] { CountSinceAll(log[..|log| - 1], cutoff); }
  }

  /** At `now`, the full log is `dropped` + `kept`, and everything dropped has left the window. */
  ghost predicate Tracks(dropped: seq<int>, kept: seq<int>, window: int, now: int) {
    && Ascending(dropped + kept) && EndsBy(dropped + kept, now)
    && (dropped != [] ==> dropped[|dropped| - 1] < now - window)
  }

  lemma {:induction false} TracksLater(dropped: seq<int>, kept: seq<int>, window: int, now: int, later: int)
    requires Tracks(dropped, kept, window, now) && now <= later
    ensures Tracks(dropped, kept, window, later)
  {
  }

  lemma {:induction false} TracksPush(dropped: seq<int>, kept: seq<int>, window: int, now: int, t: int)
    requires Tracks(dropped, kept, window, now) && now <= t
    ensures Tracks(dropped, kept + [t], window, t) && dropped + (kept + [t]) == dropped + kept + [t]
  {
    AscendingSnoc(dropped + kept, t);
    assert dropped + (kept + [t]) == dropped + kept + [t];
  }

  lemma {:induction false} TracksDrop(dropped: seq<int>, kept: seq<int>, gone: seq<int>, rest: seq<int>, window: int, now: int)
    requires Tracks(dropped, kept, window, now) && kept == gone + rest
    requires forall i | 0 <= i < |gone| :: gone[i] < now - window
    ensures Tracks(dropped + gone, rest, window, now) && dropped + gone + rest == dropped + kept
  {
    assert dropped + gone + rest == dropped + kept;
    if gone == [] { assert dropped + gone == dropped; }
  }

  /** Dropping never changes what a window that ends later counts. */
  lemma {:induction false} DroppingKeepsCounts(dropped: seq<int>, kept: seq<int>, window: int, now: int, later: int)
    requires Tracks(dropped, kept, window, now) && now <= later
    ensures CountSince(kept, later - window) == CountSince(dropped + kept, later - window)
  {
    forall i | 0 <= i < |dropped| ensures dropped[i] < later - window {
      AscendingAt(dropped + kept, i, |dropped| - 1);
      assert dropped[i] == (dropped + kept)[i] && dropped[|dropped| - 1] == (dropped + kept)[|dropped| - 1];
    }
    CountSinceAppends(dropped, kept, later - window);
    CountSinceOld(dropped, later - window);
  }

  // ---------------------------------------------------------------- The budget

  /** What a check must answer, counting over the full logs at the instants it read the clock. */
  function Verdict(limits: Limits, startedAt: int, invocations: seq<int>, issues: seq<int>, t1: int, t2: int, t3: int): Option<BudgetKind> {
    if limits.perHour > 0 && CountSince(invocations, t1 - HOUR) >= limits.perHour then Some(Invocations)
    else if limits.perDay > 0 && CountSince(issues, t2 - DAY) >= limits.perDay then Some(Issues)
    else if limits.maxHours > 0 && t3 - startedAt >= limits.maxHours * HOUR then Some(Runtime)
    else None
  }

  method Within(clock: Clock, timestamps: seq<int>, windowMs: int) returns (count: nat, ghost t: int)
    requires clock.Valid()
    modifies clock
    ensures clock.Valid() && old(clock.last) <= t == clock.last
    ensures count == CountSince(timestamps, t - windowMs)
  {
    var now := clock.Now();
    t := now;
    count := 0;
    for i := 0 to |timestamps|
      invariant count == CountSince(timestamps[..i], now - windowMs)
    {
      assert timestamps[..i + 1][..i] == timestamps[..i];
      if timestamps[i] >= now - windowMs { count := count + 1; }
    }
    assert timestamps[..|timestamps|] == timestamps;
  }

  method DropOld(timestamps: seq<int>, cutoff: int) returns (kept: seq<int>, ghost gone: seq<int>)
    ensures timestamps == gone + kept && forall i | 0 <= i < |gone| :: gone[i] < cutoff
    ensures kept != [] ==> kept[0] >= cutoff
  {
    kept, gone := timestamps, [];
    while |kept| > 0 && kept[0] < cutoff
      invariant timestamps == gone + kept && forall i | 0 <= i < |gone| :: gone[i] < cutoff
      decreases |kept|
    {
      gone, kept := gone + [kept[0]], kept[1..];
    }
  }

  class Budget {
    const limits: Limits
    const clock: Clock
    const startedAt: int
    var invocations: seq<int>
    var issues: seq<int>
    ghost var droppedInvocations: seq<int>
    ghost var droppedIssues: seq<int>

    /** Every invocation and every claim ever recorded. */
    ghost function InvocationLog(): seq<int>
      reads this
    {
      droppedInvocations + invocations
    }

    ghost function IssueLog(): seq<int>
      reads this
    {
      droppedIssues + issues
    }

    ghost predicate Valid()
      reads this, clock
    {
      && clock.Valid()
      && Tracks(droppedInvocations, invocations, HOUR, clock.last)
      && Tracks(droppedIssues, issues, DAY, clock.last)
    }

    constructor (limits: Limits, clock: Clock)
      requires clock.Valid()
      modifies clock
      ensures Valid() && fresh(this) && this.limits == limits && this.clock == clock
      ensures InvocationLog() == [] && IssueLog() == [] && old(clock.last) <= startedAt == clock.last
    {
      var t := clock.Now();
      this.limits, this.clock, startedAt := limits, clock, t;
      invocations, issues := [], [];
      droppedInvocations, droppedIssues := [], [];
    }

    method RecordInvocation()
      requires Valid()
      modifies this`invocations, clock
      ensures Valid() && clock.last >= old(clock.last)
      ensures InvocationLog() == old(InvocationLog()) + [clock.last]
    {
      var t := clock.Now();
      TracksPush(droppedInvocations, invocations, HOUR, old(clock.last), t);
      TracksLater(droppedIssues, issues, DAY, old(clock.last), t);
      invocations := invocations + [t];
    }

    method RecordIssue()
      requires Valid()
      modifies this`issues, clock
      ensures Valid() && clock.last >= old(clock.last)
      ensures IssueLog() == old(IssueLog()) + [clock.last]
    {
      var t := clock.Now();
      TracksPush(droppedIssues, issues, DAY, old(clock.last), t);
      TracksLater(droppedInvocations, invocations, HOUR, old(clock.last), t);
      issues := issues + [t];
    }

    /** What stays is inside its window; what goes is only forgotten, not lost from the logs. */
    method Prune() returns (ghost day: int)
      requires Valid()
      modifies this`invocations, this`issues, this`droppedInvocations, this`droppedIssues, clock
      ensures Valid() && old(clock.last) <= day <= clock.last
      ensures InvocationLog() == old(InvocationLog()) && IssueLog() == old(IssueLog())
      ensures invocations != [] ==> invocations[0] >= clock.last - HOUR
      ensures issues != [] ==> issues[0] >= day - DAY
    {
      var t1 := clock.Now();
      var t2 := clock.Now();
      day := t1;
      TracksLater(droppedInvocations, invocations, HOUR, old(clock.last), t2);
      TracksLater(droppedIssues, issues, DAY, old(clock.last), t2);
      var kept, gone := DropOld(invocations, t2 - HOUR);
      TracksDrop(droppedInvocations, invocations, gone, kept, HOUR, t2);
      droppedInvocations, invocations := droppedInvocations + gone, kept;
      kept, gone := DropOld(issues, t1 - DAY);
      TracksDrop(droppedIssues, issues, gone, kept, DAY, t2);
      droppedIssues, issues := droppedIssues + gone, kept;
    }

    method InvocationsSpent() returns (spent: bool, ghost t: int)
      requires Valid()
      modifies clock
      ensures Valid() && old(clock.last) <= t == clock.last
      ensures spent == (limits.perHour > 0 && CountSince(InvocationLog(), t - HOUR) >= limits.perHour)
    {
      if limits.perHour == 0 { return false, clock.last; }
      var used;
      used, t := Within(clock, invocations, HOUR);
      DroppingKeepsCounts(droppedInvocations, invocations, HOUR, old(clock.last), t);
      LogsAge(old(clock.last));
      spent := used >= limits.perHour;
    }

    method IssuesSpent() returns (spent: bool, ghost t: int)
      requires Valid()
      modifies clock
      ensures Valid() && old(clock.last) <= t == clock.last
      ensures spent == (limits.perDay > 0 && CountSince(IssueLog(), t - DAY) >= limits.perDay)
    {
      if limits.perDay == 0 { return false, clock.last; }
      var used;
      used, t := Within(clock, issues, DAY);
      DroppingKeepsCounts(droppedIssues, issues, DAY, old(clock.last), t);
      LogsAge(old(clock.last));
      spent := used >= limits.perDay;
    }

    method RuntimeSpent() returns (spent: bool, ghost t: int)
      requires Valid()
      modifies clock
      ensures Valid() && old(clock.last) <= t == clock.last
      ensures spent == (limits.maxHours > 0 && t - startedAt >= limits.maxHours * HOUR)
    {
      if limits.maxHours == 0 { return false, clock.last; }
      var now := clock.Now();
      LogsAge(old(clock.last));
      spent, t := now - startedAt >= limits.maxHours * HOUR, now;
    }

    method Answer() returns (exceeded: Option<BudgetKind>, ghost t1: int, ghost t2: int, ghost t3: int)
      requires Valid()
      modifies clock
      ensures Valid() && old(clock.last) <= t1 <= t2 <= t3 == clock.last
      ensures exceeded == Verdict(limits, startedAt, InvocationLog(), IssueLog(), t1, t2, t3)
    {
      var spent;
      spent, t1 := InvocationsSpent();
      t2, t3 := t1, t1;
      if spent { return Some(Invocations), t1, t2, t3; }
      spent, t2 := IssuesSpent();
      t3 := t2;
      if spent { return Some(Issues), t1, t2, t3; }
      spent, t3 := RuntimeSpent();
      exceeded := if spent then Some(Runtime) else None;
    }

    /** The verdict over the pruned arrays is the verdict over everything that ever happened. */
    method Check() returns (exceeded: Option<BudgetKind>, ghost t1: int, ghost t2: int, ghost t3: int)
      requires Valid()
      modifies this`invocations, this`issues, this`droppedInvocations, this`droppedIssues, clock
      ensures Valid() && InvocationLog() == old(InvocationLog()) && IssueLog() == old(IssueLog())
      ensures old(clock.last) <= t1 <= t2 <= t3 == clock.last
      ensures exceeded == Verdict(limits, startedAt, InvocationLog(), IssueLog(), t1, t2, t3)
    {
      ghost var _ := Prune();
      exceeded, t1, t2, t3 := Answer();
    }

    /** Letting time pass keeps the budget valid. */
    lemma {:induction false} LogsAge(before: int)
      requires clock.Valid() && before <= clock.last
      requires Tracks(droppedInvocations, invocations, HOUR, before) && Tracks(droppedIssues, issues, DAY, before)
      ensures Valid()
    {
      TracksLater(droppedInvocations, invocations, HOUR, before, clock.last);
      TracksLater(droppedIssues, issues, DAY, before, clock.last);
    }
  }

  // ---------------------------------------------------------------- Rolling windows

  /** Events in the closed window of length `window` that starts at `from`. */
  function CountWithin(log: seq<int>, from: int, window: int): nat {
    if log == [] then 0
    else CountWithin(log[..|log| - 1], from, window) + (if from <= log[|log| - 1] <= from + window then 1 else 0)
  }

  /** Every rolling window of that length holds at most `n` events. */
  ghost predicate AtMostPerWindow(log: seq<int>, n: nat, window: int) {
    forall from :: CountWithin(log, from, window) <= n
  }

  /** Any `n` + 1 consecutive events lie more than a window apart. */
  ghost predicate Spaced(log: seq<int>, n: nat, window: int) {
    forall i, j | 0 <= i && j == i + n && j < |log| :: log[j] > log[i] + window
  }

  lemma {:induction false} CountWithinLate(log: seq<int>, from: int, window: int, n: nat)
    requires Ascending(log) && Spaced(log, n, window) && n > 0
    ensures CountWithin(log, from, window) <= n
    ensures |log| > 0 && log[|log| - 1] <= from + window ==> CountWithin(log, from, window) == CountSince(log, from)
    ensures CountSince(log, from) > n && |log| > 0 ==> log[|log| - 1] > from + window
  {
    if log != [] {
      var before, last := log[..|log| - 1], log[|log| - 1];
      AscendingPrefix(log, |log| - 1);
      CountWithinLate(before, from, window, n);
      CountSinceBound(log, from, n);
      if before != [] { AscendingAt(log, |log| - 2, |log| - 1); }
    }
  }

  lemma {:induction false} AscendingPrefix(log: seq<int>, n: nat)
    requires Ascending(log) && n <= |log|
    ensures Ascending(log[..n])
  {
    if n < |log| {
      AscendingPrefix(log[..|log| - 1], n);
      assert log[..|log| - 1][..n] == log[..n];
    } else {
      assert log[..n] == log;
    }
  }

  /** In an ascending log, more than `n` events since the cutoff put the event `n` places from the end after it. */
  lemma {:induction false} CountSinceBound(log: seq<int>, cutoff: int, n: nat)
    requires Ascending(log)
    ensures CountSince(log, cutoff) > n <==> |log| > n && log[|log| - 1 - n] >= cutoff
  {
    if |log| > n {
      var k := |log| - 1 - n;
      CountSinceAppends(log[..k], log[k..], cutoff);
      assert log == log[..k] + log[k..];
      if log[k] >= cutoff {
        forall i | 0 <= i < |log[k..]| ensures log[k..][i] >= cutoff { AscendingAt(log, k, k + i); }
        CountSinceAll(log[k..], cutoff);
      } else {
        forall i | 0 <= i < k ensures log[i] < cutoff { AscendingAt(log, i, k); }
        CountSinceOld(log[..k], cutoff);
        CountSinceAtMostLength(log[k + 1..], cutoff);
        CountSinceAppends([log[k]], log[k + 1..], cutoff);
        assert log[k..] == [log[k]] + log[k + 1..];
        assert [log[k]][..0] == [];
      }
    } else {
      CountSinceAtMostLength(log, cutoff);
    }
  }

  lemma {:induction false} CountSinceAtMostLength(log: seq<int>, cutoff: int)
    ensures CountSince(log, cutoff) <= |log|
  {
    if log != [] { CountSinceAtMostLength(log[..|log| - 1], cutoff); }
  }

  lemma {:induction false} SpacedBoundsWindows(log: seq<int>, n: nat, window: int)
    requires Ascending(log) && Spaced(log, n, window) && n > 0
    ensures AtMostPerWindow(log, n, window)
  {
    forall from ensures CountWithin(log, from, window) <= n { CountWithinLate(log, from, window, n); }
  }

  /**
   A check at time `t` that found fewer than `limit` events in its window, followed by a batch of at
   most `batch` events, keeps every window at `limit` - 1 + `batch` events.
   */
  lemma {:induction false} CheckedBatchStaysSpaced(log: seq<int>, added: seq<int>, limit: nat, batch: nat, window: int, t: int)
    requires limit > 0 && Ascending(log + added) && Spaced(log, limit - 1 + batch, window)
    requires |added| <= batch && CountSince(log, t - window) < limit
    requires forall i | 0 <= i < |added| :: added[i] >= t
    ensures Spaced(log + added, limit - 1 + batch, window)
  {
    var all, n := log + added, limit - 1 + batch;
    AscendingPrefix(all, |log|);
    assert all[..|log|] == log;
    CountSinceBound(log, t - window, limit - 1);
    forall i, j | 0 <= i && j == i + n && j < |all| ensures all[j] > all[i] + window {
      if j >= |log| {
        assert all[j] == added[j - |log|];
        assert i <= |log| - limit;
        assert all[|log| - limit] == log[|log| - limit] < t - window;
        AscendingAt(all, i, |log| - limit);
      } else {
        assert all[j] == log[j] && all[i] == log[i];
      }
    }
  }
}
