/**
 The grouping of a batch of article candidates (`collapseInBatchDuplicates`).

 `Connected` is what the grouping means: a chain of candidates, each sharing its canonical URL
 or its content hash with the next.  `Group` is the simple form: the root of every candidate is
 written out and a merge rewrites all of them.  Class `Collapser` is the source's form: parent
 links with path compression, updated in place.
 */
module Grouping {
  import opened Options

  datatype Candidate = Candidate(
    url: string, canonicalUrl: string, title: string, summary: Option<string>, author: Option<string>,
    imageUrl: Option<string>, contentHash: string, publishedAt: Option<int>)

  datatype MatchReason = CanonicalUrl | ContentHash

  function KeyOf(c: Candidate, reason: MatchReason): string {
    match reason
    case CanonicalUrl => c.canonicalUrl
    case ContentHash => c.contentHash
  }

  predicate Shares(a: Candidate, b: Candidate) {
    a.canonicalUrl == b.canonicalUrl || a.contentHash == b.contentHash
  }

  // ---------------------------------------------------------------- Connectivity

  ghost predicate Chain(c: seq<Candidate>, p: seq<nat>) {
    && |p| > 0
    && (forall k | 0 <= k < |p| :: p[k] < |c|)
    && (forall k, next | 0 <= k < |p| - 1 && next == k + 1 :: Shares(c[p[k]], c[p[next]]))
  }

  ghost predicate Joins(c: seq<Candidate>, p: seq<nat>, i: nat, j: nat) {
    Chain(c, p) && p[0] == i && p[|p| - 1] == j
  }

  ghost predicate Connected(c: seq<Candidate>, i: nat, j: nat) {
    exists p :: Joins(c, p, i, j)
  }

  lemma {:induction false} ConnectedStep(c: seq<Candidate>, i: nat, j: nat)
    requires i < |c| && j < |c| && Shares(c[i], c[j])
    ensures Connected(c, i, j)
  {
    assert Joins(c, [i, j], i, j);
  }

  lemma {:induction false} ConnectedTransitive(c: seq<Candidate>, i: nat, j: nat, k: nat)
    requires Connected(c, i, j) && Connected(c, j, k)
    ensures Connected(c, i, k)
  {
    var p :| Joins(c, p, i, j);
    var q :| Joins(c, q, j, k);
    assert Joins(c, p + q[1..], i, k);
  }

  lemma {:induction false} ConnectedSymmetric(c: seq<Candidate>, i: nat, j: nat)
    requires Connected(c, i, j)
    ensures Connected(c, j, i)
  {
    var p :| Joins(c, p, i, j);
    var q := seq(|p|, k requires 0 <= k < |p| => p[|p| - 1 - k]);
    assert Joins(c, q, j, i);
  }

  lemma {:induction false} ConnectedExtends(c: seq<Candidate>, n: nat, i: nat, j: nat)
    requires n <= |c| && Connected(c[..n], i, j)
    ensures Connected(c, i, j)
  {
    var p :| Joins(c[..n], p, i, j);
    assert Joins(c, p, i, j);
  }

  // ---------------------------------------------------------------- The simple form

  /**
   `root[i]` is the representative of candidate `i`.  `folded` lists the candidates that stopped
   being representatives, oldest first, and `reasons` the key that folded each.
   */
  datatype Grouped = Grouped(root: seq<nat>, folded: seq<nat>, reasons: map<nat, MatchReason>)

  /** Roots never point upwards and point at themselves; the folded candidates are exactly the non-roots, each once. */
  ghost predicate Rooted(g: Grouped) {
    && (forall i | 0 <= i < |g.root| :: g.root[i] <= i && g.root[i] !in g.reasons)
    && (forall i {:trigger g.root[i]} | 0 <= i < |g.root| :: i in g.reasons <==> g.root[i] != i)
    && (forall i | i in g.reasons :: i < |g.root|)
    && (forall i: nat {:trigger i in g.folded} :: i in g.folded <==> i in g.reasons)
  }

  type Groups = g: Grouped | Rooted(g) ghost witness Grouped([], [], map[])

  function Redirect(root: seq<nat>, loser: nat, winner: nat): (r: seq<nat>)
    ensures |r| == |root|
    ensures forall k | 0 <= k < |root| :: r[k] == if root[k] == loser then winner else root[k]
  {
    seq(|root|, k requires 0 <= k < |root| => if root[k] == loser then winner else root[k])
  }

  function Fold(g: Groups, loser: nat, winner: nat, reason: MatchReason): Groups
    requires winner < loser < |g.root| && g.root[loser] == loser && g.root[winner] == winner
  {
    Grouped(Redirect(g.root, loser, winner), g.folded + [loser], g.reasons[loser := reason])
  }

  /** The earlier root always wins. */
  function Join(g: Groups, a: nat, b: nat, reason: MatchReason): (h: Groups)
    requires a < |g.root| && b < |g.root|
    ensures |h.root| == |g.root|
  {
    if g.root[a] < g.root[b] then Fold(g, g.root[b], g.root[a], reason)
    else if g.root[b] < g.root[a] then Fold(g, g.root[a], g.root[b], reason)
    else g
  }

  /** The latest candidate carrying `key`: what the source's index maps hold. */
  function Latest(c: seq<Candidate>, reason: MatchReason, key: string): (r: Option<nat>)
    ensures r.Some? ==> r.value < |c| && KeyOf(c[r.value], reason) == key
    ensures r.None? ==> forall k | 0 <= k < |c| :: KeyOf(c[k], reason) != key
  {
    if c == [] then None
    else if KeyOf(c[|c| - 1], reason) == key then Some(|c| - 1)
    else Latest(c[..|c| - 1], reason, key)
  }

  function JoinLatest(g: Groups, other: Option<nat>, reason: MatchReason): (h: Groups)
    requires |g.root| > 0 && (other.Some? ==> other.value < |g.root|)
    ensures |h.root| == |g.root|
  {
    if other.Some? then Join(g, |g.root| - 1, other.value, reason) else g
  }

  /** One more candidate, standing alone. */
  function Opened(g: Groups): Groups {
    Grouped(g.root + [|g.root|], g.folded, g.reasons)
  }

  function AddCandidate(earlier: seq<Candidate>, g: Groups, last: Candidate): (h: Groups)
    requires |g.root| == |earlier|
    ensures |h.root| == |g.root| + 1
  {
    JoinLatest(JoinLatest(Opened(g), Latest(earlier, CanonicalUrl, last.canonicalUrl), CanonicalUrl),
               Latest(earlier, ContentHash, last.contentHash), ContentHash)
  }

  function Group(c: seq<Candidate>): (g: Groups)
    ensures |g.root| == |c|
  {
    if c == [] then Grouped([], [], map[])
    else AddCandidate(c[..|c| - 1], Group(c[..|c| - 1]), c[|c| - 1])
  }

  // ---------------------------------------------------------------- Soundness: groups are connected

  ghost predicate Sound(c: seq<Candidate>, g: Groups) {
    && |g.root| == |c|
    && (forall i | 0 <= i < |c| :: Connected(c, i, g.root[i]))
    && (forall k | k in g.reasons :: Justified(c, k, g.reasons[k]))
  }

  /** Two different members of `k`'s component really share the key that folded `k`. */
  ghost predicate Justified(c: seq<Candidate>, k: nat, reason: MatchReason) {
    exists a: nat, b: nat ::
      && a < b < |c| && KeyOf(c[a], reason) == KeyOf(c[b], reason)
      && Connected(c, k, a) && Connected(c, k, b)
  }

  lemma {:induction false} JustifiedExtends(c: seq<Candidate>, n: nat, k: nat, reason: MatchReason)
    requires n <= |c| && Justified(c[..n], k, reason)
    ensures Justified(c, k, reason)
  {
    var a: nat, b: nat :|
      && a < b < |c[..n]| && KeyOf(c[..n][a], reason) == KeyOf(c[..n][b], reason)
      && Connected(c[..n], k, a) && Connected(c[..n], k, b);
    ConnectedExtends(c, n, k, a);
    ConnectedExtends(c, n, k, b);
  }

  lemma {:induction false} FoldKeepsSound(c: seq<Candidate>, g: Groups, loser: nat, winner: nat, reason: MatchReason, h: Groups)
    requires Sound(c, g) && winner < loser < |c| && g.root[loser] == loser && g.root[winner] == winner
    requires Connected(c, loser, winner) && Justified(c, loser, reason) && h == Fold(g, loser, winner, reason)
    ensures Sound(c, h)
  {
    forall i | 0 <= i < |c| ensures Connected(c, i, h.root[i]) {
      if g.root[i] == loser { ConnectedTransitive(c, i, loser, winner); }
    }
  }

  lemma {:induction false} RootsOfSharersConnect(c: seq<Candidate>, a: nat, b: nat, ra: nat, rb: nat)
    requires a < |c| && b < |c| && Shares(c[a], c[b]) && Connected(c, a, ra) && Connected(c, b, rb)
    ensures Connected(c, ra, rb) && Connected(c, ra, a) && Connected(c, ra, b)
  {
    ConnectedStep(c, a, b);
    ConnectedSymmetric(c, a, ra);
    ConnectedTransitive(c, ra, a, b);
    ConnectedTransitive(c, ra, b, rb);
  }

  lemma {:induction false} JoinKeepsSound(c: seq<Candidate>, g: Groups, a: nat, b: nat, reason: MatchReason, h: Groups)
    requires Sound(c, g) && b < a < |c| && KeyOf(c[a], reason) == KeyOf(c[b], reason)
    requires h == Join(g, a, b, reason)
    ensures Sound(c, h)
  {
    var ra, rb := g.root[a], g.root[b];
    RootsOfSharersConnect(c, a, b, ra, rb);
    RootsOfSharersConnect(c, b, a, rb, ra);
    if ra < rb {
      FoldKeepsSound(c, g, rb, ra, reason, h);
    } else if rb < ra {
      FoldKeepsSound(c, g, ra, rb, reason, h);
    }
  }

  lemma {:induction false} OpenedIsSound(c: seq<Candidate>, n: nat, g: Groups, h: Groups)
    requires |c| == n + 1 && Sound(c[..n], g) && h == Opened(g)
    ensures Sound(c, h)
  {
    forall i | 0 <= i < |c| ensures Connected(c, i, h.root[i]) {
      if i < n { ConnectedExtends(c, n, i, g.root[i]); } else { ConnectedStep(c, n, n); }
    }
    forall k | k in g.reasons ensures Justified(c, k, g.reasons[k]) {
      JustifiedExtends(c, n, k, g.reasons[k]);
    }
  }

  lemma {:induction false} JoinLatestKeepsSound(c: seq<Candidate>, n: nat, g: Groups, other: Option<nat>, reason: MatchReason, h: Groups)
    requires |c| == n + 1 && Sound(c, g)
    requires other.Some? ==> other.value < n && KeyOf(c[other.value], reason) == KeyOf(c[n], reason)
    requires h == JoinLatest(g, other, reason)
    ensures Sound(c, h)
  {
    if other.Some? { JoinKeepsSound(c, g, n, other.value, reason, h); }
  }

  lemma {:induction false} AddKeepsSound(c: seq<Candidate>, n: nat, g: Groups, h: Groups)
    requires |c| == n + 1 && Sound(c[..n], g) && h == AddCandidate(c[..n], g, c[n])
    ensures Sound(c, h)
  {
    var byUrl := Latest(c[..n], CanonicalUrl, c[n].canonicalUrl);
    var byHash := Latest(c[..n], ContentHash, c[n].contentHash);
    var g1 := JoinLatest(Opened(g), byUrl, CanonicalUrl);
    OpenedIsSound(c, n, g, Opened(g));
    JoinLatestKeepsSound(c, n, Opened(g), byUrl, CanonicalUrl, g1);
    JoinLatestKeepsSound(c, n, g1, byHash, ContentHash, h);
  }

  lemma {:induction false} GroupIsSound(c: seq<Candidate>)
    ensures Sound(c, Group(c))
  {
    if c != [] {
      var n := |c| - 1;
      GroupIsSound(c[..n]);
      AddKeepsSound(c, n, Group(c[..n]), Group(c));
    }
  }

  // ---------------------------------------------------------------- Completeness: sharers are together

  ghost predicate Complete(c: seq<Candidate>, g: Groups) {
    && |g.root| == |c|
    && (forall i, j, reason | 0 <= i < |c| && 0 <= j < |c| && KeyOf(c[i], reason) == KeyOf(c[j], reason) ::
          g.root[i] == g.root[j])
  }

  lemma {:induction false} JoinLatestMerges(g: Groups, other: Option<nat>, reason: MatchReason, h: Groups, i: nat, j: nat)
    requires |g.root| > 0 && (other.Some? ==> other.value < |g.root|) && h == JoinLatest(g, other, reason)
    requires i < |g.root| && j < |g.root|
    requires g.root[i] == g.root[j] || (other == Some(i) && j == |g.root| - 1)
    ensures h.root[i] == h.root[j]
  {
  }

  lemma {:induction false} AddKeepsTogether(c: seq<Candidate>, n: nat, g: Groups, h: Groups, i: nat, j: nat)
    requires |c| == n + 1 && |g.root| == n && h == AddCandidate(c[..n], g, c[n])
    requires i < n && j < n && g.root[i] == g.root[j]
    ensures h.root[i] == h.root[j]
  {
    var byUrl := Latest(c[..n], CanonicalUrl, c[n].canonicalUrl);
    var byHash := Latest(c[..n], ContentHash, c[n].contentHash);
    var g1 := JoinLatest(Opened(g), byUrl, CanonicalUrl);
    JoinLatestMerges(Opened(g), byUrl, CanonicalUrl, g1, i, j);
    JoinLatestMerges(g1, byHash, ContentHash, h, i, j);
  }

  lemma {:induction false} LastJoinsItsLatest(c: seq<Candidate>, n: nat, g: Groups, h: Groups, m: nat, reason: MatchReason)
    requires |c| == n + 1 && |g.root| == n && h == AddCandidate(c[..n], g, c[n])
    requires Latest(c[..n], reason, KeyOf(c[n], reason)) == Some(m)
    ensures h.root[m] == h.root[n]
  {
    var byUrl := Latest(c[..n], CanonicalUrl, c[n].canonicalUrl);
    var byHash := Latest(c[..n], ContentHash, c[n].contentHash);
    var g1 := JoinLatest(Opened(g), byUrl, CanonicalUrl);
    if reason == CanonicalUrl { JoinLatestMerges(Opened(g), byUrl, CanonicalUrl, g1, m, n); }
    JoinLatestMerges(g1, byHash, ContentHash, h, m, n);
  }

  lemma {:induction false} AddKeepsComplete(c: seq<Candidate>, n: nat, g: Groups, h: Groups)
    requires |c| == n + 1 && Complete(c[..n], g) && |h.root| == n + 1 && h == AddCandidate(c[..n], g, c[n])
    ensures Complete(c, h)
  {
    forall i, j, reason | 0 <= i <= j < |c| && KeyOf(c[i], reason) == KeyOf(c[j], reason)
      ensures h.root[i] == h.root[j]
    {
      assert i < n ==> KeyOf(c[..n][i], reason) == KeyOf(c[i], reason);
      if j < n {
        assert KeyOf(c[..n][j], reason) == KeyOf(c[j], reason);
        AddKeepsTogether(c, n, g, h, i, j);
      } else if i < n {
        var m := Latest(c[..n], reason, KeyOf(c[n], reason)).value;
        LastJoinsItsLatest(c, n, g, h, m, reason);
        AddKeepsTogether(c, n, g, h, i, m);
      }
    }
  }

  lemma {:induction false} GroupIsComplete(c: seq<Candidate>)
    ensures Complete(c, Group(c))
  {
    if c != [] {
      var n := |c| - 1;
      GroupIsComplete(c[..n]);
      AddKeepsComplete(c, n, Group(c[..n]), Group(c));
    }
  }

  lemma {:induction false} ChainHasOneRoot(c: seq<Candidate>, g: Groups, p: seq<nat>)
    requires Complete(c, g) && Chain(c, p)
    ensures g.root[p[0]] == g.root[p[|p| - 1]]
  {
    if |p| > 1 {
      assert Shares(c[p[0]], c[p[1]]);
      assert KeyOf(c[p[0]], CanonicalUrl) == KeyOf(c[p[1]], CanonicalUrl)
          || KeyOf(c[p[0]], ContentHash) == KeyOf(c[p[1]], ContentHash);
      ChainHasOneRoot(c, g, p[1..]);
    }
  }

  // ---------------------------------------------------------------- The grouping is connectivity

  /** Two candidates have one root exactly when they are connected. */
  lemma {:induction false} RootsAreComponents(c: seq<Candidate>, i: nat, j: nat)
    requires i < |c| && j < |c|
    ensures Group(c).root[i] == Group(c).root[j] <==> Connected(c, i, j)
  {
    var g := Group(c);
    GroupIsSound(c);
    GroupIsComplete(c);
    if g.root[i] == g.root[j] {
      ConnectedSymmetric(c, j, g.root[j]);
      ConnectedTransitive(c, i, g.root[i], j);
    }
    if Connected(c, i, j) {
      var p :| Joins(c, p, i, j);
      ChainHasOneRoot(c, g, p);
    }
  }

  /** The root of a candidate is the earliest candidate of its component. */
  lemma {:induction false} RootIsEarliest(c: seq<Candidate>, i: nat, j: nat)
    requires i < |c| && j < |c|
    ensures Group(c).root[i] <= i && Connected(c, i, Group(c).root[i])
    ensures Connected(c, i, j) ==> Group(c).root[i] <= j
  {
    GroupIsSound(c);
    RootsAreComponents(c, i, j);
  }

  // ---------------------------------------------------------------- What the batch is told

  datatype Duplicate = Duplicate(reason: MatchReason, duplicateOfIndex: nat)

  /** The entry the batch reports for a candidate that is not a representative. */
  function DuplicateOf(g: Groups, k: nat): Duplicate
    requires k in g.reasons
  {
    Duplicate(g.reasons[k], g.root[k])
  }

  function Representatives(root: seq<nat>, n: nat): (r: seq<nat>)
    requires n <= |root|
    ensures forall k: nat {:trigger k in r} :: k in r <==> k < n && root[k] == k
  {
    if n == 0 then []
    else if root[n - 1] == n - 1 then Representatives(root, n - 1) + [n - 1]
    else Representatives(root, n - 1)
  }

  lemma {:induction false} RepresentativesAscend(root: seq<nat>, n: nat, a: nat, b: nat)
    requires n <= |root| && a < b < |Representatives(root, n)|
    ensures Representatives(root, n)[a] < Representatives(root, n)[b]
  {
    var before := Representatives(root, n - 1);
    if b < |before| {
      RepresentativesAscend(root, n - 1, a, b);
    } else {
      assert before[a] in before;
    }
  }

  /** A candidate has a duplicate entry exactly when an earlier candidate is in its component. */
  lemma {:induction false} DuplicateIffEarlierConnected(c: seq<Candidate>, k: nat)
    requires k < |c|
    ensures k in Group(c).reasons <==> exists j: nat :: j < k && Connected(c, k, j)
  {
    var g := Group(c);
    RootIsEarliest(c, k, k);
    if g.root[k] == k {
      forall j: nat | j < k ensures !Connected(c, k, j) { RootIsEarliest(c, k, j); }
    } else {
      assert g.root[k] < k && Connected(c, k, g.root[k]);
    }
  }

  /** The entry names the earliest candidate of the component and a key two of its members really share. */
  lemma {:induction false} DuplicateIsExact(c: seq<Candidate>, k: nat)
    requires k in Group(c).reasons
    ensures var d := DuplicateOf(Group(c), k);
            && d.duplicateOfIndex < k < |c| && Connected(c, k, d.duplicateOfIndex)
            && (forall j: nat | j < |c| && Connected(c, k, j) :: d.duplicateOfIndex <= j)
            && Justified(c, k, d.reason)
  {
    GroupIsSound(c);
    FoldedIsJustified(c, Group(c), k);
    forall j: nat | j < |c| && Connected(c, k, j) ensures Group(c).root[k] <= j { RootIsEarliest(c, k, j); }
  }

  lemma {:induction false} FoldedIsJustified(c: seq<Candidate>, g: Groups, k: nat)
    requires Sound(c, g) && k in g.reasons
    ensures g.root[k] < k < |c| && Connected(c, k, g.root[k]) && Justified(c, k, g.reasons[k])
  {
  }
}
