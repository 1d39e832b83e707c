/**
 Persisting a batch of article candidates (`dedupeAndPersist`) against a store with a unique
 canonical URL, with other writers adding rows between the lookup and each insert.
 */
module Articles {
  import opened Options
  import opened Grouping
  import opened Collapsing

  datatype NewArticle = NewArticle(
    sourceId: string, url: string, canonicalUrl: string, title: string, summary: Option<string>,
    author: Option<string>, imageUrl: Option<string>, contentHash: string, publishedAt: Option<int>, fetchedAt: int)

  datatype Article = Article(id: nat, fields: NewArticle)

  function ToNewArticle(c: Candidate, sourceId: string, fetchedAt: int): NewArticle {
    NewArticle(sourceId, c.url, c.canonicalUrl, c.title, c.summary, c.author, c.imageUrl, c.contentHash,
               c.publishedAt, fetchedAt)
  }

  function ArticleKey(a: Article, reason: MatchReason): string {
    match reason
    case CanonicalUrl => a.fields.canonicalUrl
    case ContentHash => a.fields.contentHash
  }

  predicate Matches(c: Candidate, a: Article) {
    c.canonicalUrl == a.fields.canonicalUrl || c.contentHash == a.fields.contentHash
  }

  // ---------------------------------------------------------------- The store

  ghost predicate UniqueKeys(rows: seq<Article>, reason: MatchReason) {
    forall i, j | 0 <= i < j < |rows| :: ArticleKey(rows[i], reason) != ArticleKey(rows[j], reason)
  }

  ghost predicate UniqueIds(rows: seq<Article>, nextId: nat) {
    && (forall i | 0 <= i < |rows| :: rows[i].id < nextId)
    && (forall i, j | 0 <= i < j < |rows| :: rows[i].id != rows[j].id)
  }

  datatype InsertResult = Stored(row: Article) | Conflict | Broken

  class ArticleStore {
    var rows: seq<Article>
    var nextId: nat

    ghost predicate Valid()
      reads this
    {
      UniqueKeys(rows, CanonicalUrl) && UniqueIds(rows, nextId)
    }

    method FindMatches(queries: seq<Candidate>) returns (matches: seq<Article>)
      ensures forall a :: a in matches <==> a in rows && exists q :: q in queries && Matches(q, a)
    {
      matches := [];
      for i := 0 to |rows|
        invariant forall a :: a in matches <==> a in rows[..i] && exists q :: q in queries && Matches(q, a)
      {
        assert rows[..i + 1] == rows[..i] + [rows[i]];
        if exists q :: q in queries && Matches(q, rows[i]) { matches := matches + [rows[i]]; }
      }
      assert rows[..|rows|] == rows;
    }

    /** A refused row changes nothing: for its canonical URL, if that is taken, or because the database is broken. */
    method Insert(input: NewArticle, broken: bool) returns (result: InsertResult)
      requires Valid()
      modifies this
      ensures Valid()
      ensures result == Broken <==> broken
      ensures result == Conflict <==> !broken && exists a :: a in old(rows) && a.fields.canonicalUrl == input.canonicalUrl
      ensures !result.Stored? ==> rows == old(rows)
      ensures result.Stored? ==> result.row.fields == input && rows == old(rows) + [result.row] && result.row !in old(rows)
    {
      if broken { return Broken; }
      if exists a :: a in rows && a.fields.canonicalUrl == input.canonicalUrl { return Conflict; }
      var row := Article(nextId, input);
      assert forall i | 0 <= i < |rows| :: rows[i] in rows;
      rows := rows + [row];
      nextId := nextId + 1;
      return Stored(row);
    }

    /** Other writers go through the same constraint; a refused row of theirs changes nothing. */
    method WriteByOthers(inputs: seq<NewArticle>)
      requires Valid()
      modifies this
      ensures Valid() && old(rows) <= rows
      ensures forall a | a in rows[|old(rows)|..] :: a.fields in inputs
      ensures inputs == [] ==> rows == old(rows)
    {
      for i := 0 to |inputs|
        invariant Valid() && old(rows) <= rows
        invariant forall a | a in rows[|old(rows)|..] :: a.fields in inputs
        invariant inputs == [] ==> rows == old(rows)
      {
        var _ := Insert(inputs[i], false);
      }
    }
  }

  // ---------------------------------------------------------------- Matching a group

  datatype ExistingReason = ByMatch(reason: MatchReason) | Race

  datatype Outcome =
    | Inserted(article: Article)
    | Existing(existingReason: ExistingReason, existingArticleId: nat)
    | DuplicateInBatch(duplicate: Duplicate)

  datatype Found = Found(row: Article, reason: MatchReason)

  /** The source's `new Map(matches.map(...))`: the last row carrying a key wins. */
  function IndexBy(matches: seq<Article>, reason: MatchReason): (r: map<string, Article>)
    ensures forall key {:trigger r[key]} | key in r :: r[key] in matches && ArticleKey(r[key], reason) == key
    ensures forall a {:trigger ArticleKey(a, reason)} | a in matches :: ArticleKey(a, reason) in r
  {
    if matches == [] then map[]
    else
      var last := matches[|matches| - 1];
      assert matches == matches[..|matches| - 1] + [last];
      IndexBy(matches[..|matches| - 1], reason)[ArticleKey(last, reason) := last]
  }

  function FindMatch(c: Candidate, byCanonicalUrl: map<string, Article>, byContentHash: map<string, Article>): Option<Found> {
    if c.canonicalUrl in byCanonicalUrl then Some(Found(byCanonicalUrl[c.canonicalUrl], CanonicalUrl))
    else if c.contentHash in byContentHash then Some(Found(byContentHash[c.contentHash], ContentHash))
    else None
  }

  ghost predicate IsMatch(f: Found, c: Candidate, matches: seq<Article>) {
    f.row in matches && KeyOf(c, f.reason) == ArticleKey(f.row, f.reason)
  }

  /** A lookup answers for a candidate exactly when some row matches it. */
  ghost predicate Answers(found: Option<Found>, c: Candidate, matches: seq<Article>) {
    match found
    case Some(f) => IsMatch(f, c, matches)
    case None => forall a | a in matches :: !Matches(c, a)
  }

  lemma {:induction false} FindMatchAnswers(c: Candidate, matches: seq<Article>)
    ensures Answers(FindMatch(c, IndexBy(matches, CanonicalUrl), IndexBy(matches, ContentHash)), c, matches)
  {
    var byUrl, byHash := IndexBy(matches, CanonicalUrl), IndexBy(matches, ContentHash);
    if FindMatch(c, byUrl, byHash).None? {
      forall a | a in matches ensures !Matches(c, a) {
        assert ArticleKey(a, CanonicalUrl) in byUrl && ArticleKey(a, ContentHash) in byHash;
      }
    }
  }

  method FindGroupMatch(members: seq<nat>, c: seq<Candidate>, byCanonicalUrl: map<string, Article>,
                        byContentHash: map<string, Article>, ghost matches: seq<Article>)
    returns (found: Option<Found>, ghost via: nat)
    requires forall k | 0 <= k < |members| :: members[k] < |c|
    requires forall q :: Answers(FindMatch(q, byCanonicalUrl, byContentHash), q, matches)
    ensures found.Some? ==> via in members && via < |c| && IsMatch(found.value, c[via], matches)
    ensures found.None? ==> forall k | 0 <= k < |members| :: Answers(None, c[members[k]], matches)
  {
    for i := 0 to |members|
      invariant forall k | 0 <= k < i :: Answers(None, c[members[k]], matches)
    {
      found := FindMatch(c[members[i]], byCanonicalUrl, byContentHash);
      if found.Some? { return found, members[i]; }
    }
    return None, 0;
  }

  // ---------------------------------------------------------------- What a run reports

  datatype Batch = Batch(sourceId: string, fetchedAt: int, candidates: seq<Candidate>)

  /**
   Rows other writers try to add before one insert, and before the lookup that follows a lost race; whether
   that insert, or that lookup, fails for another reason than the constraint.
   */
  datatype Interference = Interference(beforeInsert: seq<NewArticle>, beforeLookup: seq<NewArticle>, brokenInsert: bool, brokenLookup: bool)

  const QUIET := Interference([], [], false, false)

  predicate Breaks(o: Interference) {
    o.brokenInsert || o.brokenLookup
  }

  ghost predicate Undisturbed(others: nat -> Interference) {
    forall i :: others(i) == QUIET
  }

  /** Some member of `i`'s group matches a stored row by URL or hash. */
  ghost predicate Known(c: seq<Candidate>, g: Groups, i: nat, rows: seq<Article>)
    requires |g.root| == |c|
  {
    exists m: nat, a :: m < |c| && g.root[m] == i && a in rows && Matches(c[m], a)
  }

  /** The outcome of candidate `i`, for a lookup that saw `before` and a store that now holds `after`. */
  ghost predicate Explained(b: Batch, g: Groups, i: nat, o: Outcome, before: seq<Article>, after: seq<Article>)
    requires |g.root| == |b.candidates| && i < |g.root|
  {
    var c := b.candidates;
    match o
    case DuplicateInBatch(d) => i in g.reasons && d == DuplicateOf(g, i)
    case Inserted(a) =>
      && i !in g.reasons && !Known(c, g, i, before)
      && a in after && a !in before && a.fields == ToNewArticle(c[i], b.sourceId, b.fetchedAt)
    case Existing(ByMatch(reason), id) =>
      && i !in g.reasons
      && exists m: nat, a :: m < |c| && g.root[m] == i && a in before && a.id == id && KeyOf(c[m], reason) == ArticleKey(a, reason)
    case Existing(Race, id) =>
      && i !in g.reasons && !Known(c, g, i, before)
      && exists a :: a in after && a.id == id && Matches(c[i], a)
  }

  function InsertedBy(o: Outcome): seq<Article> {
    if o.Inserted? then [o.article] else []
  }

  /** The rows the lookup must return: everything in `before` that any candidate of the batch matches. */
  ghost predicate LookedUp(c: seq<Candidate>, before: seq<Article>, matches: seq<Article>) {
    forall a {:trigger a in matches} :: a in matches <==> a in before && exists m: nat :: m < |c| && Matches(c[m], a)
  }

  lemma {:induction false} UnansweredIsUnknown(c: seq<Candidate>, g: Groups, index: nat, before: seq<Article>, matches: seq<Article>)
    requires |g.root| == |c| && index < |c| && g.root[index] == index && LookedUp(c, before, matches)
    requires forall k | 0 <= k < |Members(g, index)| :: Members(g, index)[k] < |c| && Answers(None, c[Members(g, index)[k]], matches)
    ensures !Known(c, g, index, before)
  {
    var members := Members(g, index);
    forall m: nat, a | m < |c| && g.root[m] == index && a in before ensures !Matches(c[m], a) {
      MembersShareTheRoot(g, index, m);
      var k :| 0 <= k < |members| && members[k] == m;
      assert Matches(c[m], a) ==> a in matches;
      assert Answers(None, c[members[k]], matches);
    }
  }

  method ResolveGroup(store: ArticleStore, b: Batch, index: nat, members: seq<nat>, byCanonicalUrl: map<string, Article>,
                      byContentHash: map<string, Article>, others: Interference, ghost g: Groups,
                      ghost before: seq<Article>, ghost matches: seq<Article>)
    returns (decided: Option<Outcome>)
    requires store.Valid() && before <= store.rows
    requires |g.root| == |b.candidates| && index < |g.root| && g.root[index] == index && members == Members(g, index)
    requires LookedUp(b.candidates, before, matches)
    requires forall q :: Answers(FindMatch(q, byCanonicalUrl, byContentHash), q, matches)
    modifies store
    ensures store.Valid() && old(store.rows) <= store.rows
    ensures decided.None? ==> Breaks(others) && !Known(b.candidates, g, index, before)
    ensures decided.Some? ==> !decided.value.DuplicateInBatch? && Explained(b, g, index, decided.value, before, store.rows)
    ensures forall a | a in store.rows[|old(store.rows)|..] ::
              decided == Some(Inserted(a)) || a.fields in others.beforeInsert || a.fields in others.beforeLookup
    ensures others == QUIET ==> decided.Some? && store.rows == old(store.rows) + InsertedBy(decided.value)
    ensures others == QUIET && decided.value.Existing? && decided.value.existingReason.Race? ==>
              exists a :: a in old(store.rows) && a.fields.canonicalUrl == b.candidates[index].canonicalUrl
  {
    var c := b.candidates;
    forall k | 0 <= k < |members| ensures members[k] < |c| {
      MembersShareTheRoot(g, index, members[k]);
    }
    var found, via := FindGroupMatch(members, c, byCanonicalUrl, byContentHash, matches);
    if found.Some? {
      MembersShareTheRoot(g, index, via);
      return Some(Existing(ByMatch(found.value.reason), found.value.row.id));
    }
    UnansweredIsUnknown(c, g, index, before, matches);

    store.WriteByOthers(others.beforeInsert);
    var result := store.Insert(ToNewArticle(c[index], b.sourceId, b.fetchedAt), others.brokenInsert);
    if result.Stored? { return Some(Inserted(result.row)); }
    if result.Broken? { return None; }

    store.WriteByOthers(others.beforeLookup);
    if others.brokenLookup { return None; }
    var raced := store.FindMatches([c[index]]);
    assert c[index] in [c[index]];
    assert raced != [] by {
      var a :| a in store.rows && a.fields.canonicalUrl == c[index].canonicalUrl;
      assert a in raced;
    }
    assert raced[0] in raced;
    return Some(Existing(Race, raced[0].id));
  }

  // ---------------------------------------------------------------- The whole batch

  /** The rows inserted for the first `n` candidates, in order. */
  function InsertedUpTo(resolved: map<nat, Outcome>, n: nat): seq<Article> {
    if n == 0 then []
    else InsertedUpTo(resolved, n - 1) + (if n - 1 in resolved then InsertedBy(resolved[n - 1]) else [])
  }

  lemma {:induction false} InsertedGrows(resolved: map<nat, Outcome>, index: nat, o: Outcome, n: nat)
    requires forall k | k in resolved :: k < index
    ensures InsertedUpTo(resolved[index := o], n) == InsertedUpTo(resolved, n) + (if index < n then InsertedBy(o) else [])
  {
    if n > 0 { InsertedGrows(resolved, index, o, n - 1); }
  }

  lemma {:induction false} NothingInserted(resolved: map<nat, Outcome>, n: nat)
    requires resolved == map[]
    ensures InsertedUpTo(resolved, n) == []
  {
    if n > 0 { NothingInserted(resolved, n - 1); }
  }

  /** What holds once the groups in `resolved` are decided. */
  ghost predicate Progress(b: Batch, g: Groups, resolved: map<nat, Outcome>, before: seq<Article>, rows: seq<Article>,
                           others: nat -> Interference)
  {
    && |g.root| == |b.candidates|
    && before <= rows
    && (forall r | r in resolved :: r < |g.root| && !resolved[r].DuplicateInBatch? && Explained(b, g, r, resolved[r], before, rows))
    && (forall a | a in rows[|before|..] :: Accounted(a, b, resolved, others))
    && (Undisturbed(others) ==>
          rows == before + InsertedUpTo(resolved, |b.candidates|) && forall r | r in resolved :: !Raced(resolved[r]))
  }

  /** Every new row was either inserted for a group of this batch or written by someone else during it. */
  ghost predicate Accounted(a: Article, b: Batch, resolved: map<nat, Outcome>, others: nat -> Interference) {
    || (exists r :: r in resolved && resolved[r] == Inserted(a))
    || (exists i: nat :: i < |b.candidates| && WrittenBy(a, others(i)))
  }

  ghost predicate WrittenBy(a: Article, o: Interference) {
    a.fields in o.beforeInsert || a.fields in o.beforeLookup
  }

  predicate Raced(o: Outcome) {
    o.Existing? && o.existingReason.Race?
  }

  lemma {:induction false} ExplainedPersists(b: Batch, g: Groups, i: nat, o: Outcome, before: seq<Article>, rows: seq<Article>, later: seq<Article>)
    requires |g.root| == |b.candidates| && i < |g.root| && rows <= later
    requires Explained(b, g, i, o, before, rows)
    ensures Explained(b, g, i, o, before, later)
  {
    if o.Existing? && o.existingReason.Race? {
      var a :| a in rows && a.id == o.existingArticleId && Matches(b.candidates[i], a);
      assert a in later;
    }
  }

  /** Without other writers, no earlier group of the batch can have taken a later group's canonical URL. */
  lemma {:induction false} NoConflictWhenQuiet(b: Batch, g: Groups, index: nat, resolved: map<nat, Outcome>, before: seq<Article>,
                            rows: seq<Article>, others: nat -> Interference, a: Article)
    requires Progress(b, g, resolved, before, rows, others) && Undisturbed(others)
    requires Complete(b.candidates, g) && index < |g.root| && index !in g.reasons && index !in resolved
    requires !Known(b.candidates, g, index, before) && a in rows
    ensures a.fields.canonicalUrl != b.candidates[index].canonicalUrl
  {
    var c := b.candidates;
    if a in before {
      assert g.root[index] == index && !Matches(c[index], a);
    } else {
      assert a in rows[|before|..] by {
        var k :| 0 <= k < |rows| && rows[k] == a;
        assert k >= |before| && rows[|before|..][k - |before|] == a;
      }
      assert Accounted(a, b, resolved, others);
      var r :| r in resolved && resolved[r] == Inserted(a);
      assert g.root[r] == r && g.root[index] == index;
      assert KeyOf(c[r], CanonicalUrl) != KeyOf(c[index], CanonicalUrl);
    }
  }

  lemma {:induction false} ProgressStarts(b: Batch, g: Groups, resolved: map<nat, Outcome>, rows: seq<Article>, others: nat -> Interference)
    requires |g.root| == |b.candidates| && resolved == map[]
    ensures Progress(b, g, resolved, rows, rows, others)
  {
    NothingInserted(resolved, |b.candidates|);
  }

  lemma {:induction false} ProgressStep(b: Batch, g: Groups, index: nat, o: Outcome, resolved: map<nat, Outcome>, before: seq<Article>,
                     rows: seq<Article>, later: seq<Article>, others: nat -> Interference)
    requires Progress(b, g, resolved, before, rows, others) && rows <= later
    requires index < |g.root| && forall r | r in resolved :: r < index
    requires !o.DuplicateInBatch? && Explained(b, g, index, o, before, later)
    requires forall a | a in later[|rows|..] :: o == Inserted(a) || WrittenBy(a, others(index))
    requires Undisturbed(others) ==> later == rows + InsertedBy(o) && !Raced(o)
    ensures Progress(b, g, resolved[index := o], before, later, others)
  {
    var next := resolved[index := o];
    forall r | r in next ensures r < |g.root| && !next[r].DuplicateInBatch? && Explained(b, g, r, next[r], before, later) {
      if r != index { ExplainedPersists(b, g, r, resolved[r], before, rows, later); }
    }
    forall a | a in later[|before|..] ensures Accounted(a, b, next, others) {
      var k :| 0 <= k < |later| - |before| && later[|before|..][k] == a;
      AccountedPersists(a, k + |before|, b, g, index, o, resolved, before, rows, later, others);
    }
    InsertedGrows(resolved, index, o, |b.candidates|);
  }

  /** A group that could not be decided leaves what others wrote meanwhile. */
  lemma {:induction false} ProgressWaits(b: Batch, g: Groups, index: nat, resolved: map<nat, Outcome>, before: seq<Article>,
                     rows: seq<Article>, later: seq<Article>, others: nat -> Interference)
    requires Progress(b, g, resolved, before, rows, others) && rows <= later && index < |g.root| && Breaks(others(index))
    requires forall a | a in later[|rows|..] :: WrittenBy(a, others(index))
    ensures Progress(b, g, resolved, before, later, others)
  {
    assert others(index) != QUIET;
    forall r | r in resolved ensures Explained(b, g, r, resolved[r], before, later) {
      ExplainedPersists(b, g, r, resolved[r], before, rows, later);
    }
    forall a | a in later[|before|..] ensures Accounted(a, b, resolved, others) {
      var k :| 0 <= k < |later| - |before| && later[|before|..][k] == a;
      if k + |before| < |rows| {
        assert rows[|before|..][k] == a;
      } else {
        assert later[|rows|..][k + |before| - |rows|] == a;
      }
    }
  }

  lemma {:induction false} AccountedPersists(a: Article, k: nat, b: Batch, g: Groups, index: nat, o: Outcome, resolved: map<nat, Outcome>,
                          before: seq<Article>, rows: seq<Article>, later: seq<Article>, others: nat -> Interference)
    requires Progress(b, g, resolved, before, rows, others) && rows <= later
    requires index < |g.root| && forall r | r in resolved :: r < index
    requires forall a | a in later[|rows|..] :: o == Inserted(a) || WrittenBy(a, others(index))
    requires |before| <= k < |later| && later[k] == a
    ensures Accounted(a, b, resolved[index := o], others)
  {
    var next := resolved[index := o];
    if k < |rows| {
      assert rows[|before|..][k - |before|] == a;
      assert Accounted(a, b, resolved, others);
      if r :| r in resolved && resolved[r] == Inserted(a) {
        assert r in next && next[r] == Inserted(a);
      }
    } else {
      assert later[|rows|..][k - |rows|] == a;
      if o == Inserted(a) { assert index in next && next[index] == Inserted(a); }
    }
  }

  /** One lookup per batch: the keys of every member of every group. */
  method Queries(c: seq<Candidate>, representatives: seq<nat>, groups: map<nat, seq<nat>>, ghost g: Groups) returns (queries: seq<Candidate>)
    requires |g.root| == |c| && representatives == Representatives(g.root, |c|)
    requires forall r: nat :: r in groups <==> r in representatives
    requires forall r | r in groups :: groups[r] == Members(g, r)
    ensures forall m | 0 <= m < |c| :: c[m] in queries
    ensures forall q | q in queries :: q in c
  {
    queries := [];
    for p := 0 to |representatives|
      invariant forall q | q in queries :: q in c
      invariant forall k, m | 0 <= k < p && 0 <= m < |c| && g.root[m] == representatives[k] :: c[m] in queries
    {
      var index := representatives[p];
      var members := groups[index];
      forall k | 0 <= k < |members| ensures members[k] < |c| { MembersShareTheRoot(g, index, members[k]); }
      for k := 0 to |members|
        invariant forall q | q in queries :: q in c
        invariant forall k', m | 0 <= k' < p && 0 <= m < |c| && g.root[m] == representatives[k'] :: c[m] in queries
        invariant forall k' | 0 <= k' < k :: c[members[k']] in queries
      {
        queries := queries + [c[members[k]]];
      }
      forall m | 0 <= m < |c| && g.root[m] == index ensures c[m] in queries {
        MembersShareTheRoot(g, index, m);
        var k :| 0 <= k < |members| && members[k] == m;
        assert c[members[k]] in queries;
      }
    }
    forall m | 0 <= m < |c| ensures c[m] in queries {
      assert g.root[m] in representatives;
    }
  }

  datatype Result = Result(outcomes: seq<Outcome>, insertedCount: nat, existingCount: nat, duplicateInBatchCount: nat)

  /** What one run tells its caller and leaves behind. */
  ghost predicate Run(b: Batch, outcomes: seq<Outcome>, before: seq<Article>, after: seq<Article>) {
    && before <= after
    && |outcomes| == |b.candidates|
    && forall i | 0 <= i < |outcomes| :: Explained(b, Group(b.candidates), i, outcomes[i], before, after)
  }

  /** A run without other writers: exactly the inserted rows are new, and no insert conflicts. */
  ghost predicate QuietRun(b: Batch, outcomes: seq<Outcome>, before: seq<Article>, after: seq<Article>) {
    && Run(b, outcomes, before, after)
    && after == before + InsertedRows(outcomes)
    && forall i | 0 <= i < |outcomes| :: !Raced(outcomes[i])
  }

  function InsertedRows(outcomes: seq<Outcome>): seq<Article> {
    if outcomes == [] then []
    else InsertedRows(outcomes[..|outcomes| - 1]) + InsertedBy(outcomes[|outcomes| - 1])
  }

  function CountInserted(outcomes: seq<Outcome>): nat {
    if outcomes == [] then 0
    else CountInserted(outcomes[..|outcomes| - 1]) + (if outcomes[|outcomes| - 1].Inserted? then 1 else 0)
  }

  function CountExisting(outcomes: seq<Outcome>): nat {
    if outcomes == [] then 0
    else CountExisting(outcomes[..|outcomes| - 1]) + (if outcomes[|outcomes| - 1].Existing? then 1 else 0)
  }

  method Tally(outcomes: seq<Outcome>) returns (r: Result)
    ensures r.outcomes == outcomes
    ensures r.insertedCount == CountInserted(outcomes) && r.existingCount == CountExisting(outcomes)
    ensures r.insertedCount + r.existingCount + r.duplicateInBatchCount == |outcomes|
  {
    var inserted, existing, duplicate := 0, 0, 0;
    for i := 0 to |outcomes|
      invariant inserted == CountInserted(outcomes[..i]) && existing == CountExisting(outcomes[..i])
      invariant inserted + existing + duplicate == i
    {
      assert outcomes[..i + 1][..i] == outcomes[..i];
      match outcomes[i]
      case Inserted(_) => inserted := inserted + 1;
      case Existing(_, _) => existing := existing + 1;
      case DuplicateInBatch(_) => duplicate := duplicate + 1;
    }
    assert outcomes[..|outcomes|] == outcomes;
    r := Result(outcomes, inserted, existing, duplicate);
  }

  lemma {:induction false} InsertedRowsAre(outcomes: seq<Outcome>, resolved: map<nat, Outcome>)
    requires forall i: nat | i < |outcomes| :: if i in resolved then outcomes[i] == resolved[i] else outcomes[i].DuplicateInBatch?
    ensures InsertedRows(outcomes) == InsertedUpTo(resolved, |outcomes|)
  {
    if outcomes != [] { InsertedRowsAre(outcomes[..|outcomes| - 1], resolved); }
  }

  method ResolveNext(store: ArticleStore, b: Batch, index: nat, members: seq<nat>, byCanonicalUrl: map<string, Article>,
                     byContentHash: map<string, Article>, others: nat -> Interference, ghost g: Groups,
                     ghost before: seq<Article>, ghost matches: seq<Article>, resolved: map<nat, Outcome>)
    returns (next: map<nat, Outcome>, threw: bool)
    requires store.Valid() && Complete(b.candidates, g)
    requires index < |g.root| && g.root[index] == index && members == Members(g, index)
    requires LookedUp(b.candidates, before, matches)
    requires forall q :: Answers(FindMatch(q, byCanonicalUrl, byContentHash), q, matches)
    requires Progress(b, g, resolved, before, store.rows, others) && forall r | r in resolved :: r < index
    modifies store
    ensures store.Valid()
    ensures threw ==> next == resolved && Breaks(others(index))
    ensures !threw ==> next.Keys == resolved.Keys + {index}
    ensures Progress(b, g, next, before, store.rows, others)
  {
    ghost var rows := store.rows;
    var decided := ResolveGroup(store, b, index, members, byCanonicalUrl, byContentHash, others(index), g, before, matches);
    if decided.None? {
      ProgressWaits(b, g, index, resolved, before, rows, store.rows, others);
      return resolved, true;
    }
    if Undisturbed(others) && Raced(decided.value) {
      var a :| a in rows && a.fields.canonicalUrl == b.candidates[index].canonicalUrl;
      NoConflictWhenQuiet(b, g, index, resolved, before, rows, others, a);
      assert false;
    }
    ProgressStep(b, g, index, decided.value, resolved, before, rows, store.rows, others);
    next, threw := resolved[index := decided.value], false;
  }

  ghost predicate GroupAt(g: Groups, groups: map<nat, seq<nat>>, index: nat) {
    index < |g.root| && g.root[index] == index && index in groups && groups[index] == Members(g, index)
  }

  method ResolveAll(store: ArticleStore, b: Batch, representatives: seq<nat>, groups: map<nat, seq<nat>>,
                    byCanonicalUrl: map<string, Article>, byContentHash: map<string, Article>,
                    others: nat -> Interference, ghost g: Groups, ghost matches: seq<Article>)
    returns (resolved: map<nat, Outcome>, threw: bool)
    requires store.Valid() && Complete(b.candidates, g)
    requires forall k | 0 <= k < |representatives| :: GroupAt(g, groups, representatives[k])
    requires forall j, k | 0 <= j < k < |representatives| :: representatives[j] < representatives[k]
    requires LookedUp(b.candidates, store.rows, matches)
    requires forall q :: Answers(FindMatch(q, byCanonicalUrl, byContentHash), q, matches)
    modifies store
    ensures store.Valid()
    ensures !threw ==> forall k | 0 <= k < |representatives| :: representatives[k] in resolved
    ensures threw ==> exists k :: 0 <= k < |representatives| && Breaks(others(representatives[k]))
    ensures Progress(b, g, resolved, old(store.rows), store.rows, others)
  {
    ghost var before := store.rows;
    resolved, threw := map[], false;
    ProgressStarts(b, g, resolved, before, others);
    for p := 0 to |representatives|
      invariant store.Valid()
      invariant forall k | 0 <= k < p :: representatives[k] in resolved
      invariant forall r | r in resolved :: p < |representatives| ==> r < representatives[p]
      invariant Progress(b, g, resolved, before, store.rows, others) && !threw
    {
      var index := representatives[p];
      assert GroupAt(g, groups, index);
      resolved, threw := ResolveNext(store, b, index, groups[index], byCanonicalUrl, byContentHash, others, g, before, matches, resolved);
      if threw { return; }
    }
  }

  /** The reported outcomes: a duplicate entry where there is one, and the group's decision otherwise. */
  ghost predicate Reports(outcomes: seq<Outcome>, g: Groups, resolved: map<nat, Outcome>) {
    && |outcomes| == |g.root|
    && (forall i: nat | i < |outcomes| ::
          if i in g.reasons then outcomes[i] == DuplicateInBatch(DuplicateOf(g, i))
          else i in resolved && outcomes[i] == resolved[i])
  }

  lemma {:induction false} ReportIsRun(b: Batch, g: Groups, outcomes: seq<Outcome>, resolved: map<nat, Outcome>, before: seq<Article>,
                                       after: seq<Article>, others: nat -> Interference)
    requires g == Group(b.candidates) && Reports(outcomes, g, resolved) && Progress(b, g, resolved, before, after, others)
    ensures Run(b, outcomes, before, after)
    ensures Undisturbed(others) ==> QuietRun(b, outcomes, before, after)
  {
    InsertedRowsAre(outcomes, resolved);
  }

  lemma {:induction false} ReportAccounts(b: Batch, g: Groups, outcomes: seq<Outcome>, resolved: map<nat, Outcome>,
                                          others: nat -> Interference, a: Article)
    requires |g.root| == |b.candidates| && Reports(outcomes, g, resolved) && Accounted(a, b, resolved, others)
    requires forall r | r in resolved :: r < |g.root| && r !in g.reasons
    ensures Inserted(a) in outcomes || exists i: nat :: i < |b.candidates| && WrittenBy(a, others(i))
  {
    if r :| r in resolved && resolved[r] == Inserted(a) {
      assert outcomes[r] == Inserted(a);
    }
  }

  method Outcomes(n: nat, duplicates: map<nat, Duplicate>, resolved: map<nat, Outcome>, representatives: seq<nat>, ghost g: Groups)
    returns (outcomes: seq<Outcome>)
    requires n == |g.root| && representatives == Representatives(g.root, n)
    requires duplicates.Keys == g.reasons.Keys && forall k | k in duplicates :: duplicates[k] == DuplicateOf(g, k)
    requires forall k | 0 <= k < |representatives| :: representatives[k] in resolved
    ensures Reports(outcomes, g, resolved)
  {
    outcomes := [];
    for i := 0 to n
      invariant |outcomes| == i
      invariant forall k: nat | k < i ::
                  if k in g.reasons then outcomes[k] == DuplicateInBatch(DuplicateOf(g, k))
                  else k in resolved && outcomes[k] == resolved[k]
    {
      if i in duplicates {
        outcomes := outcomes + [DuplicateInBatch(duplicates[i])];
      } else {
        assert g.root[i] == i && i in representatives;
        outcomes := outcomes + [resolved[i]];
      }
    }
  }

  /** The single lookup of a batch, indexed by either key. */
  method LookUp(store: ArticleStore, c: seq<Candidate>, representatives: seq<nat>, groups: map<nat, seq<nat>>, ghost g: Groups)
    returns (byCanonicalUrl: map<string, Article>, byContentHash: map<string, Article>, ghost matches: seq<Article>)
    requires |g.root| == |c| && representatives == Representatives(g.root, |c|)
    requires forall r: nat :: r in groups <==> r in representatives
    requires forall r | r in groups :: groups[r] == Members(g, r)
    ensures LookedUp(c, store.rows, matches)
    ensures forall q :: Answers(FindMatch(q, byCanonicalUrl, byContentHash), q, matches)
  {
    var queries := Queries(c, representatives, groups, g);
    var found := store.FindMatches(queries);
    assert LookedUp(c, store.rows, found);
    byCanonicalUrl, byContentHash, matches := IndexBy(found, CanonicalUrl), IndexBy(found, ContentHash), found;
    forall q ensures Answers(FindMatch(q, byCanonicalUrl, byContentHash), q, matches) { FindMatchAnswers(q, matches); }
  }

  lemma {:induction false} EveryRepresentativeHasItsGroup(g: Groups, groups: map<nat, seq<nat>>, representatives: seq<nat>)
    requires representatives == Representatives(g.root, |g.root|)
    requires forall r: nat :: r in groups <==> r in representatives
    requires forall r | r in groups :: groups[r] == Members(g, r)
    ensures forall k | 0 <= k < |representatives| :: GroupAt(g, groups, representatives[k])
    ensures forall j, k | 0 <= j < k < |representatives| :: representatives[j] < representatives[k]
  {
    forall j, k | 0 <= j < k < |representatives| ensures representatives[j] < representatives[k] {
      RepresentativesAscend(g.root, |g.root|, j, k);
    }
    forall k | 0 <= k < |representatives| ensures GroupAt(g, groups, representatives[k]) {
      assert representatives[k] in representatives;
    }
  }

  /** A row this batch had to add: the earliest candidate of a component that no row matched before. */
  ghost predicate Owed(a: Article, b: Batch, before: seq<Article>) {
    var g := Group(b.candidates);
    exists i: nat :: i < |b.candidates| && i !in g.reasons && !Known(b.candidates, g, i, before)
                  && a.fields == ToNewArticle(b.candidates[i], b.sourceId, b.fetchedAt)
  }

  lemma {:induction false} NewRowsAreOwed(b: Batch, g: Groups, resolved: map<nat, Outcome>, before: seq<Article>, rows: seq<Article>,
                                          others: nat -> Interference, a: Article)
    requires g == Group(b.candidates) && Progress(b, g, resolved, before, rows, others) && Accounted(a, b, resolved, others)
    ensures Owed(a, b, before) || exists i: nat :: i < |b.candidates| && WrittenBy(a, others(i))
  {
    if r :| r in resolved && resolved[r] == Inserted(a) { assert Explained(b, g, r, resolved[r], before, rows); }
  }

  /** An exception from the database ends the run; what it had inserted by then stays. */
  method DedupeAndPersist(store: ArticleStore, b: Batch, others: nat -> Interference, brokenLookup: bool) returns (r: Option<Result>)
    requires store.Valid()
    modifies store
    ensures store.Valid() && old(store.rows) <= store.rows
    ensures r.None? ==> brokenLookup || exists i: nat :: i < |b.candidates| && Breaks(others(i))
    ensures r.Some? ==> Run(b, r.value.outcomes, old(store.rows), store.rows)
    ensures Undisturbed(others) && !brokenLookup ==> r.Some? && QuietRun(b, r.value.outcomes, old(store.rows), store.rows)
    ensures forall a | a in store.rows[|old(store.rows)|..] ::
              Owed(a, b, old(store.rows)) || exists i: nat :: i < |b.candidates| && WrittenBy(a, others(i))
    ensures r.Some? ==> forall a | a in store.rows[|old(store.rows)|..] ::
              Inserted(a) in r.value.outcomes || exists i: nat :: i < |b.candidates| && WrittenBy(a, others(i))
    ensures r.Some? ==>
              && r.value.insertedCount == CountInserted(r.value.outcomes) && r.value.existingCount == CountExisting(r.value.outcomes)
              && r.value.insertedCount + r.value.existingCount + r.value.duplicateInBatchCount == |b.candidates|
  {
    var representatives, duplicates, order := CollapseInBatchDuplicates(b.candidates);
    ghost var g, before := Group(b.candidates), store.rows;
    GroupIsComplete(b.candidates);
    var groups := GroupMembersByRepresentative(representatives, duplicates, order, g.root);
    if brokenLookup { return None; }
    var byCanonicalUrl, byContentHash, matches := LookUp(store, b.candidates, representatives, groups, g);
    EveryRepresentativeHasItsGroup(g, groups, representatives);
    var resolved, threw := ResolveAll(store, b, representatives, groups, byCanonicalUrl, byContentHash, others, g, matches);
    forall a | a in store.rows[|before|..] ensures Owed(a, b, before) || exists i: nat :: i < |b.candidates| && WrittenBy(a, others(i)) {
      NewRowsAreOwed(b, g, resolved, before, store.rows, others, a);
    }
    if threw {
      ghost var k :| 0 <= k < |representatives| && Breaks(others(representatives[k]));
      assert GroupAt(g, groups, representatives[k]);
      return None;
    }
    var outcomes := Outcomes(|b.candidates|, duplicates, resolved, representatives, g);
    var report := Tally(outcomes);
    ReportIsRun(b, g, outcomes, resolved, before, store.rows, others);
    forall a | a in store.rows[|before|..]
      ensures Inserted(a) in report.outcomes || exists i: nat :: i < |b.candidates| && WrittenBy(a, others(i))
    {
      ReportAccounts(b, g, outcomes, resolved, others, a);
    }
    r := Some(report);
  }

  // ---------------------------------------------------------------- What the runs promise

  /** Some stored row matches some candidate connected to candidate `i`. */
  ghost predicate ComponentStored(c: seq<Candidate>, i: nat, rows: seq<Article>) {
    exists m: nat, a :: m < |c| && Connected(c, m, i) && a in rows && Matches(c[m], a)
  }

  lemma {:induction false} KnownIsComponentStored(c: seq<Candidate>, i: nat, rows: seq<Article>)
    requires i < |c| && Group(c).root[i] == i
    ensures Known(c, Group(c), i, rows) <==> ComponentStored(c, i, rows)
  {
    var g := Group(c);
    forall m: nat | m < |c| ensures g.root[m] == i <==> Connected(c, m, i) { RootsAreComponents(c, m, i); }
    if Known(c, g, i, rows) {
      var m: nat, a :| m < |c| && g.root[m] == i && a in rows && Matches(c[m], a);
      assert Connected(c, m, i);
    }
    if ComponentStored(c, i, rows) {
      var m: nat, a :| m < |c| && Connected(c, m, i) && a in rows && Matches(c[m], a);
      assert g.root[m] == i;
    }
  }

  /**
   Without other writers, a component is inserted exactly once, as its earliest candidate, and
   exactly when none of its members was stored.
   */
  lemma {:induction false} InsertedIffNewComponent(b: Batch, outcomes: seq<Outcome>, before: seq<Article>, after: seq<Article>, i: nat)
    requires QuietRun(b, outcomes, before, after) && i < |b.candidates|
    ensures outcomes[i].Inserted? <==>
              && !(exists j: nat :: j < i && Connected(b.candidates, i, j))
              && !ComponentStored(b.candidates, i, before)
  {
    var c, g := b.candidates, Group(b.candidates);
    DuplicateIffEarlierConnected(c, i);
    if i !in g.reasons {
      assert g.root[i] == i;
      KnownIsComponentStored(c, i, before);
      if outcomes[i].Existing? { ExistingIsKnown(b, g, i, outcomes[i], before, after); }
    }
  }

  lemma {:induction false} ExistingIsKnown(b: Batch, g: Groups, i: nat, o: Outcome, before: seq<Article>, after: seq<Article>)
    requires |g.root| == |b.candidates| && i < |g.root| && Explained(b, g, i, o, before, after)
    requires o.Existing? && !Raced(o)
    ensures Known(b.candidates, g, i, before)
  {
    var reason := o.existingReason.reason;
    var m: nat, a :| m < |b.candidates| && g.root[m] == i && a in before && KeyOf(b.candidates[m], reason) == ArticleKey(a, reason);
    SameKeyMatches(b.candidates[m], a, reason);
  }

  lemma {:induction false} SameKeyMatches(c: Candidate, a: Article, reason: MatchReason)
    requires KeyOf(c, reason) == ArticleKey(a, reason)
    ensures Matches(c, a)
  {
    match reason
    case CanonicalUrl =>
    case ContentHash =>
  }

  /** Every outcome that names a row names a stored row sharing a key with a candidate connected to this one. */
  lemma {:induction false} ExistingNamesASharer(b: Batch, outcomes: seq<Outcome>, before: seq<Article>, after: seq<Article>, i: nat)
    requires Run(b, outcomes, before, after) && i < |b.candidates| && outcomes[i].Existing?
    ensures exists m: nat, a :: m < |b.candidates| && Connected(b.candidates, m, i) && a in after
                             && a.id == outcomes[i].existingArticleId && Matches(b.candidates[m], a)
  {
    var c, g, o := b.candidates, Group(b.candidates), outcomes[i];
    if Raced(o) {
      var a :| a in after && a.id == o.existingArticleId && Matches(c[i], a);
      ConnectedStep(c, i, i);
    } else {
      var reason := o.existingReason.reason;
      var m: nat, a :| m < |c| && g.root[m] == i && a in before && a.id == o.existingArticleId && KeyOf(c[m], reason) == ArticleKey(a, reason);
      RootIsEarliest(c, m, i);
      SameKeyMatches(c[m], a, reason);
      assert Connected(c, m, i) && a in after && Matches(c[m], a);
    }
  }

  /** One decision per component: the inserted and existing counts add up to the number of components. */
  lemma {:induction false} DecisionsCountComponents(g: Groups, outcomes: seq<Outcome>, n: nat)
    requires n == |outcomes| <= |g.root|
    requires forall i: nat | i < n :: outcomes[i].DuplicateInBatch? <==> i in g.reasons
    ensures CountInserted(outcomes) + CountExisting(outcomes) == |Representatives(g.root, n)|
  {
    if n > 0 {
      assert g.root[n - 1] == n - 1 <==> !outcomes[n - 1].DuplicateInBatch?;
      DecisionsCountComponents(g, outcomes[..n - 1], n - 1);
    }
  }

  lemma {:induction false} RunCountsComponents(b: Batch, outcomes: seq<Outcome>, before: seq<Article>, after: seq<Article>)
    requires Run(b, outcomes, before, after)
    ensures CountInserted(outcomes) + CountExisting(outcomes) == |Representatives(Group(b.candidates).root, |b.candidates|)|
  {
    var g := Group(b.candidates);
    forall i: nat | i < |outcomes| ensures outcomes[i].DuplicateInBatch? <==> i in g.reasons {
      assert Explained(b, g, i, outcomes[i], before, after);
    }
    DecisionsCountComponents(g, outcomes, |outcomes|);
  }

  /** Without other writers, a store in which no two rows share a URL or a hash stays so. */
  lemma {:induction false} QuietRunKeepsKeysUnique(b: Batch, outcomes: seq<Outcome>, before: seq<Article>, after: seq<Article>, reason: MatchReason)
    requires QuietRun(b, outcomes, before, after) && UniqueKeys(before, reason)
    ensures UniqueKeys(after, reason)
  {
    GroupIsComplete(b.candidates);
    forall i | 0 <= i < |outcomes| ensures Explained(b, Group(b.candidates), i, outcomes[i], before, after) {}
    PrefixKeysUnique(b, Group(b.candidates), outcomes, before, after, reason, |outcomes|);
    assert outcomes[..|outcomes|] == outcomes;
  }

  lemma {:induction false} InsertedRowsGrow(outcomes: seq<Outcome>, n: nat)
    requires n < |outcomes|
    ensures InsertedRows(outcomes[..n + 1]) == InsertedRows(outcomes[..n]) + InsertedBy(outcomes[n])
  {
    assert outcomes[..n + 1][..n] == outcomes[..n];
  }

  lemma {:induction false} InsertedRowHasOrigin(outcomes: seq<Outcome>, n: nat, a: Article) returns (i: nat)
    requires n <= |outcomes| && a in InsertedRows(outcomes[..n])
    ensures i < n && outcomes[i] == Inserted(a)
  {
    InsertedRowsGrow(outcomes, n - 1);
    if a in InsertedRows(outcomes[..n - 1]) {
      i := InsertedRowHasOrigin(outcomes, n - 1, a);
    } else {
      i := n - 1;
    }
  }

  lemma {:induction false} PrefixKeysUnique(b: Batch, g: Groups, outcomes: seq<Outcome>, before: seq<Article>, after: seq<Article>,
                                            reason: MatchReason, n: nat)
    requires Complete(b.candidates, g) && n <= |outcomes| == |g.root| && UniqueKeys(before, reason)
    requires forall i | 0 <= i < |outcomes| :: Explained(b, g, i, outcomes[i], before, after)
    ensures UniqueKeys(before + InsertedRows(outcomes[..n]), reason)
  {
    if n > 0 {
      var last := outcomes[n - 1];
      var rows := before + InsertedRows(outcomes[..n - 1]);
      PrefixKeysUnique(b, g, outcomes, before, after, reason, n - 1);
      InsertedRowsGrow(outcomes, n - 1);
      RowsGrow(before, InsertedRows(outcomes[..n - 1]), last, InsertedRows(outcomes[..n]), rows);
      if last.Inserted? { NextKeyIsUnique(b, g, outcomes, before, after, reason, n - 1, rows); }
    } else {
      assert outcomes[..0] == [] && before + [] == before;
    }
  }

  lemma {:induction false} RowsGrow(before: seq<Article>, inserted: seq<Article>, o: Outcome, more: seq<Article>, rows: seq<Article>)
    requires rows == before + inserted && more == inserted + InsertedBy(o)
    ensures before + more == if o.Inserted? then rows + [o.article] else rows
  {
  }

  lemma {:induction false} NextKeyIsUnique(b: Batch, g: Groups, outcomes: seq<Outcome>, before: seq<Article>, after: seq<Article>,
                                           reason: MatchReason, n: nat, rows: seq<Article>)
    requires Complete(b.candidates, g) && n < |outcomes| == |g.root| && outcomes[n].Inserted?
    requires forall i | 0 <= i < |outcomes| :: Explained(b, g, i, outcomes[i], before, after)
    requires rows == before + InsertedRows(outcomes[..n]) && UniqueKeys(rows, reason)
    ensures UniqueKeys(rows + [outcomes[n].article], reason)
  {
    forall k | 0 <= k < |rows| ensures ArticleKey(rows[k], reason) != ArticleKey(outcomes[n].article, reason) {
      InsertedKeyIsNew(b, g, outcomes, before, after, reason, n, rows[k]);
    }
    AppendKeepsUnique(rows, outcomes[n].article, reason);
  }

  lemma {:induction false} AppendKeepsUnique(rows: seq<Article>, a: Article, reason: MatchReason)
    requires UniqueKeys(rows, reason) && forall k | 0 <= k < |rows| :: ArticleKey(rows[k], reason) != ArticleKey(a, reason)
    ensures UniqueKeys(rows + [a], reason)
  {
  }

  lemma {:induction false} InsertedKeyIsNew(b: Batch, g: Groups, outcomes: seq<Outcome>, before: seq<Article>, after: seq<Article>,
                                            reason: MatchReason, n: nat, a: Article)
    requires Complete(b.candidates, g) && n < |outcomes| == |g.root| && outcomes[n].Inserted?
    requires forall i | 0 <= i < |outcomes| :: Explained(b, g, i, outcomes[i], before, after)
    requires a in before || a in InsertedRows(outcomes[..n])
    ensures ArticleKey(a, reason) != ArticleKey(outcomes[n].article, reason)
  {
    var c := b.candidates;
    assert g.root[n] == n && ArticleKey(outcomes[n].article, reason) == KeyOf(c[n], reason);
    if a in before {
      assert !Matches(c[n], a);
    } else {
      var i := InsertedRowHasOrigin(outcomes, n, a);
      assert Explained(b, g, i, outcomes[i], before, after);
      assert g.root[i] == i && ArticleKey(a, reason) == KeyOf(c[i], reason);
    }
  }

  /** Whatever a run decided for a group, the group is known to the store afterwards. */
  lemma {:induction false} DecidedIsKnown(b: Batch, g: Groups, i: nat, o: Outcome, before: seq<Article>, after: seq<Article>)
    requires |g.root| == |b.candidates| && i < |g.root| && Explained(b, g, i, o, before, after) && before <= after
    requires !o.DuplicateInBatch? && g.root[i] == i
    ensures Known(b.candidates, g, i, after)
  {
    var c := b.candidates;
    match o
    case Inserted(a) => assert Matches(c[i], a);
    case Existing(ByMatch(_), _) =>
      ExistingIsKnown(b, g, i, o, before, after);
      KnownPersists(c, g, i, before, after);
    case Existing(Race, id) =>
      var a :| a in after && a.id == id && Matches(c[i], a);
  }

  /**
   Running the same candidates again at any later time, whatever other writers did during and between the two
   runs, inserts nothing and races for nothing: every component is found existing by the lookup, with the same
   duplicate pointers as before.
   */
  lemma {:induction false} RerunInsertsNothing(first: Batch, again: Batch, o1: seq<Outcome>, o2: seq<Outcome>,
                                               s0: seq<Article>, s1: seq<Article>, later: seq<Article>, s2: seq<Article>)
    requires again.candidates == first.candidates && s1 <= later
    requires Run(first, o1, s0, s1) && Run(again, o2, later, s2)
    ensures |o2| == |o1|
    ensures forall i | 0 <= i < |o1| :: if o1[i].DuplicateInBatch? then o2[i] == o1[i] else o2[i].Existing? && !Raced(o2[i])
  {
    var c, g := first.candidates, Group(first.candidates);
    GroupIsComplete(c);
    forall i | 0 <= i < |o1| ensures if o1[i].DuplicateInBatch? then o2[i] == o1[i] else o2[i].Existing? && !Raced(o2[i]) {
      assert Explained(first, g, i, o1[i], s0, s1) && Explained(again, g, i, o2[i], later, s2);
      if !o1[i].DuplicateInBatch? {
        assert g.root[i] == i;
        DecidedIsKnown(first, g, i, o1[i], s0, s1);
        KnownPersists(c, g, i, s1, later);
      }
    }
  }

  /** So a quiet rerun, after a run that others may have disturbed, leaves the store as it is. */
  lemma {:induction false} RerunChangesNothing(first: Batch, again: Batch, o1: seq<Outcome>, o2: seq<Outcome>,
                                               s0: seq<Article>, s1: seq<Article>, s2: seq<Article>)
    requires again.candidates == first.candidates
    requires Run(first, o1, s0, s1) && QuietRun(again, o2, s1, s2)
    ensures s2 == s1 && |o2| == |o1|
    ensures forall i | 0 <= i < |o1| :: if o1[i].DuplicateInBatch? then o2[i] == o1[i] else o2[i].Existing?
  {
    RerunInsertsNothing(first, again, o1, o2, s0, s1, s1, s2);
    NoneInserted(o2);
    assert s1 + [] == s1;
  }

  lemma {:induction false} KnownPersists(c: seq<Candidate>, g: Groups, i: nat, rows: seq<Article>, later: seq<Article>)
    requires |g.root| == |c| && Known(c, g, i, rows) && rows <= later
    ensures Known(c, g, i, later)
  {
    var m: nat, a :| m < |c| && g.root[m] == i && a in rows && Matches(c[m], a);
    assert a in later;
  }

  lemma {:induction false} NoneInserted(outcomes: seq<Outcome>)
    requires forall i | 0 <= i < |outcomes| :: !outcomes[i].Inserted?
    ensures InsertedRows(outcomes) == []
  {
    if outcomes != [] { NoneInserted(outcomes[..|outcomes| - 1]); }
  }
}