/**
 What the live planner must return, stated on the snapshot's edges alone: walks,
 their cost, and the order (cost, hops, edge-ID sequence) that singles one out.
 */
module PlannerSpec {
  import opened Base
  import opened TrustGraph

  // ---------------------------------------------------------------------
  // Walks
  // ---------------------------------------------------------------------

  ghost predicate UniqueIDs(edges: set<TrustEdge>) {
    forall e, f :: e in edges && f in edges && e.id == f.id ==> e == f
  }

  ghost predicate Joined(p: seq<TrustEdge>, start: Word, node: Word) {
    if p == [] then start == node
    else p[|p| - 1].to == node && Joined(p[..|p| - 1], start, p[|p| - 1].from)
  }

  ghost predicate Walk(edges: set<TrustEdge>, p: seq<TrustEdge>, start: Word, node: Word) {
    Joined(p, start, node) && forall i :: 0 <= i < |p| ==> p[i] in edges
  }

  function Cost(p: seq<TrustEdge>): nat {
    if p == [] then 0 else Cost(p[..|p| - 1]) + p[|p| - 1].pathStepCost
  }

  /** A walk whose cost fits in 64 bits. */
  ghost predicate FittingWalk(edges: set<TrustEdge>, p: seq<TrustEdge>, start: Word, node: Word) {
    Walk(edges, p, start, node) && Cost(p) <= MAX_UINT64
  }

  lemma WalkSnoc(edges: set<TrustEdge>, p: seq<TrustEdge>, start: Word, e: TrustEdge)
    requires Walk(edges, p, start, e.from) && e in edges
    ensures Walk(edges, p + [e], start, e.to) && Cost(p + [e]) == Cost(p) + e.pathStepCost
  {
    assert (p + [e])[..|p|] == p;
  }

  lemma WalkFront(edges: set<TrustEdge>, p: seq<TrustEdge>, start: Word, node: Word)
    requires Walk(edges, p, start, node) && p != []
    ensures var e := p[|p| - 1]; var front := p[..|p| - 1];
            && e in edges && e.to == node && Walk(edges, front, start, e.from) && p == front + [e]
            && Cost(p) == Cost(front) + e.pathStepCost
  {
  }

  // ---------------------------------------------------------------------
  // The order
  // ---------------------------------------------------------------------

  predicate DiffersAt(p: seq<TrustEdge>, q: seq<TrustEdge>, i: nat) {
    && i < |p| && i < |q| && p[i].id < q[i].id
    && forall j :: 0 <= j < i ==> p[j].id == q[j].id
  }

  /** Lexicographic order of the edge IDs of two equally long paths. */
  ghost predicate IDsLess(p: seq<TrustEdge>, q: seq<TrustEdge>) {
    exists i :: DiffersAt(p, q, i)
  }

  /** Cheaper, then shorter, then the lexicographically smaller ID sequence. */
  ghost predicate PathLess(p: seq<TrustEdge>, q: seq<TrustEdge>) {
    if Cost(p) != Cost(q) then Cost(p) < Cost(q)
    else if |p| != |q| then |p| < |q|
    else IDsLess(p, q)
  }

  ghost predicate PathLeq(p: seq<TrustEdge>, q: seq<TrustEdge>) {
    p == q || PathLess(p, q)
  }

  lemma PathLessTransitive(p: seq<TrustEdge>, q: seq<TrustEdge>, r: seq<TrustEdge>)
    requires PathLess(p, q) && PathLess(q, r)
    ensures PathLess(p, r)
  {
    hide Cost;
    if Cost(p) == Cost(q) == Cost(r) && |p| == |q| == |r| {
      var i: nat :| DiffersAt(p, q, i);
      var j: nat :| DiffersAt(q, r, j);
      assert DiffersAt(p, r, if i < j then i else j);
    }
  }

  lemma PathLessIrreflexive(p: seq<TrustEdge>, q: seq<TrustEdge>)
    requires PathLess(p, q)
    ensures !PathLess(q, p) && p != q
  {
    hide Cost;
    if Cost(p) == Cost(q) && |p| == |q| {
      var i: nat :| DiffersAt(p, q, i);
      forall j: nat | DiffersAt(q, p, j) ensures false {
      }
    }
  }

  /** The first difference of two paths, if there is one. */
  lemma {:induction false} FirstDifference(p: seq<TrustEdge>, q: seq<TrustEdge>, n: nat)
    requires n <= |p| == |q|
    ensures (forall j :: 0 <= j < n ==> p[j].id == q[j].id) || (exists i :: DiffersAt(p, q, i)) || (exists i :: DiffersAt(q, p, i))
  {
    if n > 0 {
      FirstDifference(p, q, n - 1);
      if forall j :: 0 <= j < n - 1 ==> p[j].id == q[j].id {
        assert p[n - 1].id < q[n - 1].id ==> DiffersAt(p, q, n - 1);
        assert q[n - 1].id < p[n - 1].id ==> DiffersAt(q, p, n - 1);
      }
    }
  }

  /** Edge IDs are unique, so two different paths are never tied. */
  lemma PathLessTotal(edges: set<TrustEdge>, p: seq<TrustEdge>, q: seq<TrustEdge>)
    requires UniqueIDs(edges)
    requires (forall i :: 0 <= i < |p| ==> p[i] in edges) && (forall i :: 0 <= i < |q| ==> q[i] in edges)
    ensures PathLeq(p, q) || PathLess(q, p)
  {
    hide Cost;
    if Cost(p) == Cost(q) && |p| == |q| {
      FirstDifference(p, q, |p|);
      if forall j :: 0 <= j < |p| ==> p[j].id == q[j].id {
        assert p == q;
      }
    }
  }

  lemma ExtendLess(p: seq<TrustEdge>, q: seq<TrustEdge>, e: TrustEdge)
    requires PathLess(p, q)
    ensures PathLess(p + [e], q + [e])
  {
    assert (p + [e])[..|p|] == p && (q + [e])[..|q|] == q;
    if Cost(p) == Cost(q) && |p| == |q| {
      var i: nat :| DiffersAt(p, q, i);
      assert DiffersAt(p + [e], q + [e], i);
    }
  }

  lemma ExtendLeq(p: seq<TrustEdge>, q: seq<TrustEdge>, e: TrustEdge)
    requires PathLeq(p, q)
    ensures PathLeq(p + [e], q + [e])
  {
    if p != q {
      ExtendLess(p, q, e);
    }
  }

  lemma ExtensionIsGreater(p: seq<TrustEdge>, e: TrustEdge)
    ensures PathLess(p, p + [e])
  {
    assert (p + [e])[..|p|] == p;
  }

  lemma LeqTransitive(p: seq<TrustEdge>, q: seq<TrustEdge>, r: seq<TrustEdge>)
    requires PathLeq(p, q) && PathLeq(q, r)
    ensures PathLeq(p, r)
    ensures PathLess(p, q) || PathLess(q, r) ==> PathLess(p, r)
  {
    hide PathLess;
    if p != q && q != r {
      PathLessTransitive(p, q, r);
    }
  }

  lemma LeqCost(p: seq<TrustEdge>, q: seq<TrustEdge>)
    requires PathLeq(p, q)
    ensures Cost(p) <= Cost(q)
  {
  }

  /** The empty path comes first. */
  lemma EmptyIsLeast(p: seq<TrustEdge>)
    ensures PathLeq([], p)
  {
  }

  // ---------------------------------------------------------------------
  // The answer
  // ---------------------------------------------------------------------

  /** The one least walk to a node, among those whose cost fits. */
  ghost predicate LeastTo(edges: set<TrustEdge>, start: Word, p: seq<TrustEdge>, node: Word) {
    && FittingWalk(edges, p, start, node)
    && forall q :: FittingWalk(edges, q, start, node) ==> PathLeq(p, q)
  }

  /** It depends on the set of edges only, not on the order they are listed in. */
  lemma LeastUnique(edges: set<TrustEdge>, start: Word, p: seq<TrustEdge>, q: seq<TrustEdge>, node: Word)
    requires LeastTo(edges, start, p, node) && LeastTo(edges, start, q, node)
    ensures p == q
  {
    hide PathLess, FittingWalk;
    if p != q {
      PathLessIrreflexive(p, q);
    }
  }

  /** With one step cost for all edges, a path costs its number of hops. */
  lemma {:induction false} UniformCost(p: seq<TrustEdge>, step: uint64)
    requires forall i :: 0 <= i < |p| ==> p[i].pathStepCost == step
    ensures Cost(p) == |p| * step
  {
    if p != [] {
      UniformCost(p[..|p| - 1], step);
      assert |p| * step == (|p| - 1) * step + step;
    }
  }
}
