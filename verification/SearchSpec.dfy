/**
 What the bounded search must return, stated on the graph alone: no queue, no
 node IDs, no scratch arrays and no iteration order.
 */
module SearchSpec {
  import opened Base
  import opened ReplayGraph

  // ---------------------------------------------------------------------
  // The pop order
  // ---------------------------------------------------------------------

  predicate StringLess(a: string, b: string) {
    if b == "" then false
    else if a == "" then true
    else if a[0] != b[0] then a[0] < b[0]
    else StringLess(a[1..], b[1..])
  }

  predicate KeyLess(a: BlockKey, b: BlockKey) {
    if a.chain != b.chain then StringLess(a.chain, b.chain) else a.height < b.height
  }

  /** Cheaper first; equal costs by chain, then by height. */
  predicate Precedes(d1: nat, k1: BlockKey, d2: nat, k2: BlockKey) {
    if d1 != d2 then d1 < d2 else KeyLess(k1, k2)
  }

  lemma {:induction false} StringLessTotal(a: string, b: string)
    ensures a != b <==> StringLess(a, b) || StringLess(b, a)
    ensures !(StringLess(a, b) && StringLess(b, a))
    decreases |a|
  {
    if a != "" && b != "" && a[0] == b[0] {
      StringLessTotal(a[1..], b[1..]);
      assert a == [a[0]] + a[1..] && b == [b[0]] + b[1..];
    }
  }

  lemma {:induction false} StringLessTransitive(a: string, b: string, c: string)
    requires StringLess(a, b) && StringLess(b, c)
    ensures StringLess(a, c)
    decreases |a|
  {
    if a != "" && a[0] == b[0] == c[0] {
      StringLessTransitive(a[1..], b[1..], c[1..]);
    }
  }

  lemma PrecedesTotal(d1: nat, k1: BlockKey, d2: nat, k2: BlockKey)
    ensures (d1, k1) != (d2, k2) <==> Precedes(d1, k1, d2, k2) || Precedes(d2, k2, d1, k1)
    ensures !(Precedes(d1, k1, d2, k2) && Precedes(d2, k2, d1, k1))
  {
    StringLessTotal(k1.chain, k2.chain);
  }

  lemma PrecedesTransitive(d1: nat, k1: BlockKey, d2: nat, k2: BlockKey, d3: nat, k3: BlockKey)
    requires Precedes(d1, k1, d2, k2) && Precedes(d2, k2, d3, k3)
    ensures Precedes(d1, k1, d3, k3)
  {
    if d1 == d2 == d3 && k1.chain != k2.chain && k2.chain != k3.chain {
      StringLessTransitive(k1.chain, k2.chain, k3.chain);
      StringLessTotal(k1.chain, k2.chain);
    }
  }

  // ---------------------------------------------------------------------
  // Queries and answers
  // ---------------------------------------------------------------------

  datatype Query = Query(adj: Adjacency, start: BlockKey, goal: BlockKey, cutoff: uint64,
                         targetChain: string, minTargetHeight: uint64)

  /** The height filter applies to the target chain only. */
  predicate NodeOK(q: Query, key: BlockKey) {
    key.chain != q.targetChain || key.height >= q.minTargetHeight
  }

  datatype Segment = Segment(from: BlockKey, to: BlockKey, kind: EdgeKind, weight: uint64)

  datatype Path = Path(cost: uint64, nodes: seq<BlockKey>, segments: seq<Segment>)

  datatype Answer = Found(path: Path) | NotFound | Overflow

  ghost predicate PositiveWeights(adj: Adjacency) {
    forall u, v :: HasEdge(adj, u, v) ==> EdgeOf(adj, u, v).value.weight > 0
  }

  /** A walk from the start that passes the filter everywhere. */
  ghost predicate Filtered(q: Query, w: seq<BlockKey>, v: BlockKey) {
    WalkFromTo(q.adj, w, q.start, v) && forall i :: 0 <= i < |w| ==> NodeOK(q, w[i])
  }

  /** `d` is the least weight of a filtered walk to `v`, and within the cutoff. */
  ghost predicate Shortest(q: Query, v: BlockKey, d: nat) {
    && d <= q.cutoff
    && (exists w :: Filtered(q, w, v) && Weight(q.adj, w) == d)
    && (forall w :: Filtered(q, w, v) ==> d <= Weight(q.adj, w))
  }

  ghost predicate Reachable(q: Query, v: BlockKey) {
    exists w :: Filtered(q, w, v) && Weight(q.adj, w) <= q.cutoff
  }

  /** `u` continues a shortest walk to `v`. */
  ghost predicate Tight(q: Query, u: BlockKey, du: nat, v: BlockKey, dv: nat) {
    && Shortest(q, u, du) && HasEdge(q.adj, u, v)
    && du + EdgeOf(q.adj, u, v).value.weight == dv
  }

  /** Among all such `u`, the first in pop order. */
  ghost predicate LeastTight(q: Query, u: BlockKey, du: nat, v: BlockKey, dv: nat) {
    && Tight(q, u, du, v, dv)
    && forall x, dx :: Tight(q, x, dx, v, dv) ==> x == u || Precedes(du, u, dx, x)
  }

  /** Every step of the walk comes from the least tight predecessor. */
  ghost predicate LeastTightAt(q: Query, nodes: seq<BlockKey>, i: nat)
    requires IsWalk(q.adj, nodes) && 0 < i < |nodes|
  {
    LeastTight(q, nodes[i - 1], Weight(q.adj, nodes[..i]), nodes[i], Weight(q.adj, nodes[..i + 1]))
  }

  /** A walk from the start to `v` of the least weight `dv`, choosing at every
      block the least tight predecessor. */
  ghost predicate Canonical(q: Query, nodes: seq<BlockKey>, v: BlockKey, dv: nat) {
    && WalkFromTo(q.adj, nodes, q.start, v)
    && Weight(q.adj, nodes) == dv && Shortest(q, v, dv)
    && forall i :: 0 < i < |nodes| ==> nodes[i] != q.start && LeastTightAt(q, nodes, i)
  }

  function EdgeSegment(adj: Adjacency, u: BlockKey, v: BlockKey): Option<Segment> {
    match EdgeOf(adj, u, v)
    case None => None
    case Some(edge) => Some(Segment(u, v, edge.kind, edge.weight))
  }

  ghost predicate SegmentsOf(adj: Adjacency, nodes: seq<BlockKey>, segments: seq<Segment>) {
    && |segments| == |nodes| - 1
    && forall i :: 0 <= i < |segments| ==> EdgeSegment(adj, nodes[i], nodes[i + 1]) == Some(segments[i])
  }

  /** Some block that is popped before the goal has an edge whose candidate cost does not fit in 64 bits. */
  ghost predicate OverflowMet(q: Query, u: BlockKey, v: BlockKey, d: nat) {
    && Shortest(q, u, d) && u != q.goal
    && HasEdge(q.adj, u, v) && d + EdgeOf(q.adj, u, v).value.weight > MAX_UINT64
    && forall dg :: Shortest(q, q.goal, dg) ==> Precedes(d, u, dg, q.goal)
  }

  ghost predicate Answers(q: Query, answer: Answer) {
    match answer
    case Overflow => exists u, v, d :: OverflowMet(q, u, v, d)
    case NotFound =>
      && (forall u, v, d :: !OverflowMet(q, u, v, d))
      && !Reachable(q, q.goal)
    case Found(path) =>
      && (forall u, v, d :: !OverflowMet(q, u, v, d))
      && Canonical(q, path.nodes, q.goal, path.cost)
      && SegmentsOf(q.adj, path.nodes, path.segments)
  }

  // ---------------------------------------------------------------------
  // What an answer means, and that there is only one
  // ---------------------------------------------------------------------

  lemma ShortestUnique(q: Query, v: BlockKey, d1: nat, d2: nat)
    requires Shortest(q, v, d1) && Shortest(q, v, d2)
    ensures d1 == d2
  {
    var w1 :| Filtered(q, w1, v) && Weight(q.adj, w1) == d1;
    var w2 :| Filtered(q, w2, v) && Weight(q.adj, w2) == d2;
  }

  lemma LeastTightUnique(q: Query, u1: BlockKey, d1: nat, u2: BlockKey, d2: nat, v: BlockKey, dv: nat)
    requires LeastTight(q, u1, d1, v, dv) && LeastTight(q, u2, d2, v, dv)
    ensures u1 == u2 && d1 == d2
  {
    hide Shortest;
    if u1 != u2 {
      PrecedesTotal(d1, u1, d2, u2);
    }
    ShortestUnique(q, u1, d1, d2);
  }

  /** Dropping the last block of a canonical walk leaves a canonical walk. */
  lemma CanonicalFront(q: Query, nodes: seq<BlockKey>, v: BlockKey, dv: nat)
    requires Canonical(q, nodes, v, dv) && |nodes| > 1
    ensures var front := nodes[..|nodes| - 1];
            && IsWalk(q.adj, front)
            && Canonical(q, front, nodes[|nodes| - 2], Weight(q.adj, front))
            && LeastTight(q, nodes[|nodes| - 2], Weight(q.adj, front), v, dv)
  {
    hide LeastTight, Weight, Shortest, HasEdge;
    var n, front := |nodes|, nodes[..|nodes| - 1];
    assert LeastTightAt(q, nodes, n - 1);
    assert nodes[..n - 1] == front && nodes[..n] == nodes;
    TightIsShortest(q, nodes[n - 2], Weight(q.adj, front), v, dv);
    forall i | 0 < i < |front| ensures front[i] != q.start && LeastTightAt(q, front, i) {
      assert LeastTightAt(q, nodes, i);
      assert front[..i] == nodes[..i] && front[..i + 1] == nodes[..i + 1];
    }
  }

  lemma TightIsShortest(q: Query, u: BlockKey, du: nat, v: BlockKey, dv: nat)
    requires LeastTight(q, u, du, v, dv)
    ensures Shortest(q, u, du)
  {
  }

  lemma {:induction false} CanonicalUnique(q: Query, nodes1: seq<BlockKey>, nodes2: seq<BlockKey>, v: BlockKey, dv: nat)
    requires Canonical(q, nodes1, v, dv) && Canonical(q, nodes2, v, dv)
    ensures nodes1 == nodes2
    decreases |nodes1|
  {
    hide Shortest, LeastTight, LeastTightAt, Weight;
    if |nodes1| > 1 {
      var front1, front2 := nodes1[..|nodes1| - 1], nodes2[..|nodes2| - 1];
      var u1, u2 := nodes1[|nodes1| - 2], nodes2[|nodes2| - 2];
      CanonicalFront(q, nodes1, v, dv);
      CanonicalFront(q, nodes2, v, dv);
      LeastTightUnique(q, u1, Weight(q.adj, front1), u2, Weight(q.adj, front2), v, dv);
      CanonicalUnique(q, front1, front2, u1, Weight(q.adj, front1));
      assert nodes1 == front1 + [v] && nodes2 == front2 + [v];
    }
  }

  /** A canonical walk passes the filter at every block. */
  lemma CanonicalIsFiltered(q: Query, nodes: seq<BlockKey>, v: BlockKey, dv: nat)
    requires Canonical(q, nodes, v, dv)
    ensures Filtered(q, nodes, v)
  {
    hide Weight, Shortest, LeastTight, NodeOK;
    forall i | 0 <= i < |nodes| ensures NodeOK(q, nodes[i]) {
      if i == |nodes| - 1 {
        ShortestIsOK(q, v, dv);
      } else {
        assert LeastTightAt(q, nodes, i + 1);
        TightIsShortest(q, nodes[i], Weight(q.adj, nodes[..i + 1]), nodes[i + 1], Weight(q.adj, nodes[..i + 2]));
        ShortestIsOK(q, nodes[i], Weight(q.adj, nodes[..i + 1]));
      }
    }
  }

  lemma ShortestIsOK(q: Query, v: BlockKey, d: nat)
    requires Shortest(q, v, d)
    ensures NodeOK(q, v)
  {
    var w :| Filtered(q, w, v) && Weight(q.adj, w) == d;
    assert NodeOK(q, w[|w| - 1]);
  }

  /** The answer is determined by the graph and the query: neither the
      neighbour iteration order nor an earlier use of the scratch can change it. */
  lemma AnswerUnique(q: Query, a: Answer, b: Answer)
    requires Answers(q, a) && Answers(q, b)
    ensures a == b
  {
    hide Shortest, OverflowMet, LeastTightAt, Reachable;
    if a.Found? {
      FoundIsReachable(q, a.path);
    }
    if b.Found? {
      FoundIsReachable(q, b.path);
    }
    if a.Found? && b.Found? {
      ShortestUnique(q, q.goal, a.path.cost, b.path.cost);
      CanonicalUnique(q, a.path.nodes, b.path.nodes, q.goal, a.path.cost);
      SegmentsUnique(q.adj, a.path.nodes, a.path.segments, b.path.segments);
    }
  }

  lemma SegmentsUnique(adj: Adjacency, nodes: seq<BlockKey>, s: seq<Segment>, t: seq<Segment>)
    requires SegmentsOf(adj, nodes, s) && SegmentsOf(adj, nodes, t)
    ensures s == t
  {
    forall i | 0 <= i < |s| ensures s[i] == t[i] {
      assert EdgeSegment(adj, nodes[i], nodes[i + 1]) == Some(s[i]);
    }
  }

  lemma FoundIsReachable(q: Query, path: Path)
    requires Canonical(q, path.nodes, q.goal, path.cost)
    ensures Reachable(q, q.goal)
  {
    CanonicalIsFiltered(q, path.nodes, q.goal, path.cost);
  }

  /** The plain reading: without an overflow a path is reported exactly when an
      admissible one exists, and it is a cheapest one. */
  lemma AnswerIsExact(q: Query, answer: Answer)
    requires Answers(q, answer) && !answer.Overflow?
    ensures answer.Found? <==> Reachable(q, q.goal)
    ensures answer.Found? ==>
              && Filtered(q, answer.path.nodes, q.goal)
              && Weight(q.adj, answer.path.nodes) == answer.path.cost <= q.cutoff
              && forall w :: Filtered(q, w, q.goal) ==> answer.path.cost <= Weight(q.adj, w)
  {
    if answer.Found? {
      CanonicalIsFiltered(q, answer.path.nodes, q.goal, answer.path.cost);
      FoundIsReachable(q, answer.path);
    }
  }
}
