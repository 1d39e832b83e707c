/**
 `collapseInBatchDuplicates` and `groupMembersByRepresentative` as the source runs them: a
 union-find over candidate indexes whose maps are updated in place, proved against `Group`.
 */
module Collapsing {
  import opened Options
  import opened Grouping

  ghost predicate Linked(parent: map<nat, nat>) {
    forall k | k in parent :: parent[k] < k
  }

  ghost function RootOf(parent: map<nat, nat>, index: nat): (root: nat)
    requires Linked(parent)
    ensures root <= index && root !in parent && (index !in parent ==> root == index)
  {
    if index in parent then RootOf(parent, parent[index]) else index
  }

  /** `q` is `p` after some path compressions. */
  ghost predicate SameRoots(p: map<nat, nat>, q: map<nat, nat>)
    requires Linked(p)
  {
    Linked(q) && q.Keys == p.Keys && forall k: nat {:trigger RootOf(q, k)} :: RootOf(q, k) == RootOf(p, k)
  }

  /** Path compression leaves every root where it was. */
  lemma {:induction false} CompressionKeepsRoots(parent: map<nat, nat>, at: nat, k: nat)
    requires Linked(parent) && at in parent
    ensures Linked(parent[at := RootOf(parent, at)])
    ensures RootOf(parent[at := RootOf(parent, at)], k) == RootOf(parent, k)
    decreases k
  {
    if k in parent {
      CompressionKeepsRoots(parent, at, if k == at then RootOf(parent, at) else parent[k]);
    }
  }

  /** Linking one root below another moves exactly the first root's group. */
  lemma {:induction false} LinkRedirectsRoots(parent: map<nat, nat>, loser: nat, winner: nat, k: nat)
    requires Linked(parent) && loser !in parent && winner !in parent && winner < loser
    ensures Linked(parent[loser := winner])
    ensures RootOf(parent[loser := winner], k) == if RootOf(parent, k) == loser then winner else RootOf(parent, k)
    decreases k
  {
    if k in parent { LinkRedirectsRoots(parent, loser, winner, parent[k]); }
  }

  ghost predicate RootsAgree(parent: map<nat, nat>, root: seq<nat>)
    requires Linked(parent)
  {
    forall k {:trigger RootOf(parent, k)} | 0 <= k < |root| :: RootOf(parent, k) == root[k]
  }

  ghost predicate EntriesAgree(parent: map<nat, nat>, duplicates: map<nat, Duplicate>, order: seq<nat>, g: Groups) {
    && order == g.folded
    && parent.Keys == g.reasons.Keys
    && duplicates.Keys == g.reasons.Keys
    && (forall k | k in duplicates :: duplicates[k].reason == g.reasons[k])
  }

  lemma {:induction false} CompressionAgrees(p: map<nat, nat>, q: map<nat, nat>, duplicates: map<nat, Duplicate>, order: seq<nat>, g: Groups)
    requires Linked(p) && SameRoots(p, q)
    requires RootsAgree(p, g.root) && EntriesAgree(p, duplicates, order, g)
    ensures RootsAgree(q, g.root) && EntriesAgree(q, duplicates, order, g)
  {
  }

  lemma {:induction false} FoldAgrees(parent: map<nat, nat>, duplicates: map<nat, Duplicate>, order: seq<nat>, g: Groups,
                   loser: nat, winner: nat, reason: MatchReason, h: Groups)
    requires Linked(parent) && RootsAgree(parent, g.root) && EntriesAgree(parent, duplicates, order, g)
    requires winner < loser < |g.root| && g.root[loser] == loser && g.root[winner] == winner
    requires h == Fold(g, loser, winner, reason)
    ensures Linked(parent[loser := winner]) && RootsAgree(parent[loser := winner], h.root)
    ensures loser !in duplicates
    ensures EntriesAgree(parent[loser := winner], duplicates[loser := Duplicate(reason, winner)], order + [loser], h)
  {
    assert RootOf(parent, loser) == loser && RootOf(parent, winner) == winner;
    forall k: nat | k < |h.root| ensures Linked(parent[loser := winner]) && RootOf(parent[loser := winner], k) == h.root[k] {
      LinkRedirectsRoots(parent, loser, winner, k);
      assert RootOf(parent, k) == g.root[k];
    }
  }

  class Collapser {
    var canonicalUrlToIndex: map<string, nat>
    var contentHashToIndex: map<string, nat>
    var parent: map<nat, nat>
    var duplicates: map<nat, Duplicate>
    /** Insertion order of `duplicates`, which the source's Map iterates in. */
    var duplicateOrder: seq<nat>

    constructor ()
      ensures canonicalUrlToIndex == map[] && contentHashToIndex == map[]
      ensures parent == map[] && duplicates == map[] && duplicateOrder == []
    {
      canonicalUrlToIndex, contentHashToIndex := map[], map[];
      parent, duplicates, duplicateOrder := map[], map[], [];
    }

    /** The links and the entries say what `g` says. */
    ghost predicate Represents(g: Groups)
      reads this
    {
      && Linked(parent)
      && RootsAgree(parent, g.root)
      && EntriesAgree(parent, duplicates, duplicateOrder, g)
    }

    ghost predicate Indexes(earlier: seq<Candidate>)
      reads this
    {
      && (forall key :: Lookup(canonicalUrlToIndex, key) == Latest(earlier, CanonicalUrl, key))
      && (forall key :: Lookup(contentHashToIndex, key) == Latest(earlier, ContentHash, key))
    }

    method Find(index: nat) returns (root: nat)
      requires Linked(parent)
      modifies this`parent
      ensures root == RootOf(old(parent), index) && SameRoots(old(parent), parent)
      decreases index
    {
      if index !in parent { return index; }
      root := Find(parent[index]);
      assert root == RootOf(parent, index);
      forall k: nat ensures Linked(parent[index := root]) && RootOf(parent[index := root], k) == RootOf(old(parent), k) {
        CompressionKeepsRoots(parent, index, k);
        assert RootOf(parent, k) == RootOf(old(parent), k);
      }
      parent := parent[index := root];
    }

    method Union(a: nat, b: nat, reason: MatchReason, ghost g: Groups)
      requires Represents(g) && a < |g.root| && b < |g.root|
      modifies this`parent, this`duplicates, this`duplicateOrder
      ensures Represents(Join(g, a, b, reason))
    {
      ghost var start := parent;
      var rootA := Find(a);
      CompressionAgrees(start, parent, duplicates, duplicateOrder, g);
      ghost var between := parent;
      var rootB := Find(b);
      CompressionAgrees(between, parent, duplicates, duplicateOrder, g);
      if rootA == rootB { return; }
      var winner := if rootA < rootB then rootA else rootB;
      var loser := if rootA < rootB then rootB else rootA;
      FoldAgrees(parent, duplicates, duplicateOrder, g, loser, winner, reason, Join(g, a, b, reason));
      duplicateOrder := if loser in duplicates then duplicateOrder else duplicateOrder + [loser];
      parent := parent[loser := winner];
      duplicates := duplicates[loser := Duplicate(reason, winner)];
    }

    method UnionLatest(index: nat, other: Option<nat>, reason: MatchReason, ghost g: Groups)
      requires Represents(g) && |g.root| == index + 1 && (other.Some? ==> other.value < index)
      modifies this`parent, this`duplicates, this`duplicateOrder
      ensures Represents(JoinLatest(g, other, reason))
    {
      if other.Some? { Union(index, other.value, reason, g); }
    }

    method Index(candidates: seq<Candidate>, index: nat)
      requires index < |candidates| && Indexes(candidates[..index])
      modifies this`canonicalUrlToIndex, this`contentHashToIndex
      ensures Indexes(candidates[..index + 1])
    {
      ghost var upTo := candidates[..index + 1];
      assert upTo[..index] == candidates[..index] && upTo[index] == candidates[index];
      canonicalUrlToIndex := canonicalUrlToIndex[candidates[index].canonicalUrl := index];
      contentHashToIndex := contentHashToIndex[candidates[index].contentHash := index];
      forall key, reason: MatchReason
        ensures Latest(upTo, reason, key) ==
                if KeyOf(candidates[index], reason) == key then Some(index) else Latest(candidates[..index], reason, key) {}
    }

    /** The first pass for one candidate: join it to the latest sharers of its keys, then index it. */
    method Add(candidates: seq<Candidate>, index: nat, ghost g: Groups)
      requires index < |candidates| && |g.root| == index && Represents(g) && Indexes(candidates[..index])
      modifies this
      ensures Represents(AddCandidate(candidates[..index], g, candidates[index]))
      ensures Indexes(candidates[..index + 1])
    {
      var byUrl := Lookup(canonicalUrlToIndex, candidates[index].canonicalUrl);
      var byHash := Lookup(contentHashToIndex, candidates[index].contentHash);
      UnionLatest(index, byUrl, CanonicalUrl, Opened(g));
      UnionLatest(index, byHash, ContentHash, JoinLatest(Opened(g), byUrl, CanonicalUrl));
      Index(candidates, index);
    }

    method AddAll(candidates: seq<Candidate>)
      requires Represents(Group([])) && Indexes([])
      modifies this
      ensures Represents(Group(candidates))
    {
      for index := 0 to |candidates|
        invariant Represents(Group(candidates[..index])) && Indexes(candidates[..index])
      {
        Add(candidates, index, Group(candidates[..index]));
        assert candidates[..index + 1][..index] == candidates[..index];
      }
      assert candidates[..|candidates|] == candidates;
    }

    /** The second pass for one candidate: point a duplicate at its final root. */
    method Settle(index: nat, ghost g: Groups) returns (representative: bool)
      requires Represents(g) && index < |g.root|
      modifies this`parent, this`duplicates
      ensures Represents(g) && representative == (g.root[index] == index)
      ensures representative ==> duplicates == old(duplicates)
      ensures !representative ==>
                index in old(duplicates) && duplicates == old(duplicates)[index := DuplicateOf(g, index)]
    {
      ghost var before := parent;
      var root := Find(index);
      CompressionAgrees(before, parent, duplicates, duplicateOrder, g);
      if root == index { return true; }
      before := parent;
      var final := Find(index);
      CompressionAgrees(before, parent, duplicates, duplicateOrder, g);
      duplicates := duplicates[index := duplicates[index].(duplicateOfIndex := final)];
      return false;
    }

    /** The second pass: list the representatives and settle every duplicate. */
    method Resolve(n: nat, ghost g: Groups) returns (representatives: seq<nat>)
      requires Represents(g) && |g.root| == n
      modifies this`parent, this`duplicates
      ensures Represents(g) && representatives == Representatives(g.root, n)
      ensures forall k | k in duplicates :: k < n && duplicates[k] == DuplicateOf(g, k)
    {
      representatives := [];
      for index := 0 to n
        invariant Represents(g) && representatives == Representatives(g.root, index)
        invariant forall k | k in duplicates && k < index :: duplicates[k] == DuplicateOf(g, k)
      {
        var representative := Settle(index, g);
        if representative { representatives := representatives + [index]; }
      }
    }
  }

  function Lookup(m: map<string, nat>, key: string): Option<nat> {
    if key in m then Some(m[key]) else None
  }

  /** What the batch collapse reports: the representatives and one ordered entry per other candidate. */
  ghost predicate Collapsed(g: Groups, representatives: seq<nat>, duplicates: map<nat, Duplicate>, order: seq<nat>) {
    && representatives == Representatives(g.root, |g.root|)
    && order == g.folded
    && duplicates.Keys == g.reasons.Keys
    && (forall k | k in duplicates :: duplicates[k] == DuplicateOf(g, k))
  }

  method CollapseInBatchDuplicates(candidates: seq<Candidate>)
    returns (representatives: seq<nat>, duplicates: map<nat, Duplicate>, order: seq<nat>)
    ensures Collapsed(Group(candidates), representatives, duplicates, order)
  {
    var c := new Collapser();
    c.AddAll(candidates);
    representatives := c.Resolve(|candidates|, Group(candidates));
    duplicates, order := c.duplicates, c.duplicateOrder;
  }

  // ---------------------------------------------------------------- Group members

  function FoldedInto(order: seq<nat>, root: seq<nat>, representative: nat): (r: seq<nat>)
    ensures forall k: nat {:trigger k in r} :: k in r <==> k in order && k < |root| && root[k] == representative
  {
    if order == [] then []
    else
      var last := order[|order| - 1];
      var before := FoldedInto(order[..|order| - 1], root, representative);
      assert order == order[..|order| - 1] + [last];
      if last < |root| && root[last] == representative then before + [last] else before
  }

  /** A representative followed by what was folded into it, in the order the folds were recorded. */
  function Members(g: Groups, representative: nat): seq<nat> {
    [representative] + FoldedInto(g.folded, g.root, representative)
  }

  lemma {:induction false} MembersShareTheRoot(g: Groups, representative: nat, k: nat)
    requires representative < |g.root| && g.root[representative] == representative
    ensures k in Members(g, representative) <==> k < |g.root| && g.root[k] == representative
  {
  }

  /** The members of a representative's group are exactly its connected component. */
  lemma {:induction false} MembersAreTheComponent(c: seq<Candidate>, representative: nat, k: nat)
    requires representative < |c| && Group(c).root[representative] == representative
    ensures k in Members(Group(c), representative) <==> k < |c| && Connected(c, k, representative)
  {
    MembersShareTheRoot(Group(c), representative, k);
    if k < |c| { RootsAreComponents(c, k, representative); }
  }

  method GroupMembersByRepresentative(representatives: seq<nat>, duplicates: map<nat, Duplicate>, order: seq<nat>, ghost root: seq<nat>)
    returns (groups: map<nat, seq<nat>>)
    requires forall k | k in order :: k in duplicates && k < |root| && duplicates[k].duplicateOfIndex == root[k]
    ensures forall r: nat :: r in groups <==> r in representatives
    ensures forall r | r in groups :: groups[r] == [r] + FoldedInto(order, root, r)
  {
    groups := map r | r in representatives :: [r];
    for i := 0 to |order|
      invariant forall r: nat :: r in groups <==> r in representatives
      invariant forall r | r in groups :: groups[r] == [r] + FoldedInto(order[..i], root, r)
    {
      var of := duplicates[order[i]].duplicateOfIndex;
      assert order[..i + 1][..i] == order[..i];
      if of in groups { groups := groups[of := groups[of] + [order[i]]]; }
    }
    assert order[..|order|] == order;
  }
}
