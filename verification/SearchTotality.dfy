/**
 Every query has an answer: an overflow that is met, no admissible walk, or a
 canonical cheapest path. With uniqueness, the answer is a function of the query.
 */
module SearchTotality {
  import opened Base
  import opened ReplayGraph
  import opened SearchSpec

  /** A reachable block has a least weight. */
  lemma {:induction false} LeastWeight(q: Query, v: BlockKey, w: seq<BlockKey>) returns (d: nat)
    requires Filtered(q, w, v) && Weight(q.adj, w) <= q.cutoff
    ensures Shortest(q, v, d)
    decreases Weight(q.adj, w)
  {
    hide Weight;
    if lighter :| Filtered(q, lighter, v) && Weight(q.adj, lighter) < Weight(q.adj, w) {
      d := LeastWeight(q, v, lighter);
    } else {
      d := Weight(q.adj, w);
    }
  }

  lemma FilteredSnoc(q: Query, w: seq<BlockKey>, u: BlockKey, v: BlockKey)
    requires Filtered(q, w, u) && HasEdge(q.adj, u, v) && NodeOK(q, v)
    ensures Filtered(q, w + [v], v) && Weight(q.adj, w + [v]) == Weight(q.adj, w) + EdgeOf(q.adj, u, v).value.weight
  {
    hide Weight, HasEdge, NodeOK;
    WalkSnoc(q.adj, w, v);
  }

  lemma FilteredFront(q: Query, w: seq<BlockKey>, v: BlockKey)
    requires Filtered(q, w, v) && v != q.start
    ensures |w| > 1 && Filtered(q, w[..|w| - 1], w[|w| - 2]) && w == w[..|w| - 1] + [v]
    ensures HasEdge(q.adj, w[|w| - 2], v) && NodeOK(q, v)
  {
    hide HasEdge, NodeOK;
    assert HasEdge(q.adj, w[|w| - 2], w[|w| - 1]);
  }

  /** The last step of a cheapest walk comes from a block whose own distance it continues. */
  lemma TightExists(q: Query, v: BlockKey, d: nat) returns (u: BlockKey, du: nat)
    requires Shortest(q, v, d) && v != q.start
    ensures Tight(q, u, du, v, d)
  {
    hide NodeOK, Weight;
    var w :| Filtered(q, w, v) && Weight(q.adj, w) == d;
    FilteredFront(q, w, v);
    var front := w[..|w| - 1];
    u, du := w[|w| - 2], Weight(q.adj, front);
    FilteredSnoc(q, front, u, v);
    forall x | Filtered(q, x, u) ensures du <= Weight(q.adj, x) {
      FilteredSnoc(q, x, u, v);
      assert d <= Weight(q.adj, x + [v]);
    }
    assert Filtered(q, front, u) && Weight(q.adj, front) == du;
    assert Shortest(q, u, du);
  }

  ghost predicate TightFrom(q: Query, x: BlockKey, v: BlockKey, dv: nat) {
    exists dx :: Tight(q, x, dx, v, dv)
  }

  lemma {:induction false} LeastAmong(q: Query, blocks: set<BlockKey>, v: BlockKey, dv: nat) returns (u: BlockKey, du: nat)
    requires blocks != {} && forall x :: x in blocks ==> TightFrom(q, x, v, dv)
    ensures Tight(q, u, du, v, dv)
    ensures forall x, dx :: x in blocks && Tight(q, x, dx, v, dv) ==> x == u || Precedes(du, u, dx, x)
    decreases |blocks|
  {
    hide Shortest, HasEdge, Precedes;
    u :| u in blocks;
    du :| Tight(q, u, du, v, dv);
    var rest := blocks - {u};
    assert forall x :: x in blocks ==> x == u || x in rest;
    if rest != {} {
      var best, dbest := LeastAmong(q, rest, v, dv);
      PrecedesTotal(du, u, dbest, best);
      if Precedes(du, u, dbest, best) {
        forall x, dx | x in rest && Tight(q, x, dx, v, dv) ensures Precedes(du, u, dx, x) {
          if x == best {
            ShortestUnique(q, x, dx, dbest);
          } else {
            PrecedesTransitive(du, u, dbest, best, dx, x);
          }
        }
      } else {
        var first, dfirst := u, du;
        u, du := best, dbest;
        forall x, dx | x in blocks && Tight(q, x, dx, v, dv) ensures x == u || Precedes(du, u, dx, x) {
          if x == first {
            ShortestUnique(q, x, dx, dfirst);
          }
        }
      }
    }
  }

  lemma LeastTightExists(q: Query, v: BlockKey, d: nat) returns (u: BlockKey, du: nat)
    requires Shortest(q, v, d) && v != q.start
    ensures LeastTight(q, u, du, v, d)
  {
    hide Shortest, Precedes;
    var blocks := set x | x in q.adj && TightFrom(q, x, v, d);
    var first, dfirst := TightExists(q, v, d);
    assert first in blocks;
    u, du := LeastAmong(q, blocks, v, d);
    forall x, dx | Tight(q, x, dx, v, d) ensures x == u || Precedes(du, u, dx, x) {
      assert x in blocks;
    }
  }

  lemma CanonicalSnoc(q: Query, nodes: seq<BlockKey>, u: BlockKey, du: nat, v: BlockKey, d: nat)
    requires Canonical(q, nodes, u, du) && LeastTight(q, u, du, v, d) && Shortest(q, v, d) && v != q.start
    ensures Canonical(q, nodes + [v], v, d)
  {
    hide Shortest, LeastTight, Weight, HasEdge;
    TightEdge(q, u, du, v, d);
    WalkSnoc(q.adj, nodes, v);
    var longer := nodes + [v];
    forall i | 0 < i < |longer| ensures longer[i] != q.start && LeastTightAt(q, longer, i) {
      assert longer[..i] == nodes[..i];
      if i < |nodes| {
        assert longer[..i + 1] == nodes[..i + 1];
        assert LeastTightAt(q, nodes, i);
      } else {
        assert nodes[..i] == nodes && longer[..i + 1] == longer;
      }
    }
  }

  lemma TightEdge(q: Query, u: BlockKey, du: nat, v: BlockKey, d: nat)
    requires LeastTight(q, u, du, v, d)
    ensures HasEdge(q.adj, u, v) && du + EdgeOf(q.adj, u, v).value.weight == d && Shortest(q, u, du)
  {
  }

  lemma StartIsCanonical(q: Query, d: nat)
    requires Shortest(q, q.start, d)
    ensures Canonical(q, [q.start], q.start, d)
  {
    var w :| Filtered(q, w, q.start) && Weight(q.adj, w) == d;
    assert NodeOK(q, w[0]);
    assert Filtered(q, [q.start], q.start);
  }

  lemma {:induction false} CanonicalExists(q: Query, v: BlockKey, d: nat) returns (nodes: seq<BlockKey>)
    requires PositiveWeights(q.adj) && Shortest(q, v, d)
    ensures Canonical(q, nodes, v, d)
    decreases d
  {
    hide Shortest, LeastTight, Canonical;
    if v == q.start {
      StartIsCanonical(q, d);
      nodes := [q.start];
    } else {
      var u, du := LeastTightExists(q, v, d);
      TightEdge(q, u, du, v, d);
      nodes := CanonicalExists(q, u, du);
      CanonicalSnoc(q, nodes, u, du, v, d);
      nodes := nodes + [v];
    }
  }

  lemma {:induction false} SegmentsExist(adj: Adjacency, nodes: seq<BlockKey>) returns (segments: seq<Segment>)
    requires IsWalk(adj, nodes)
    ensures SegmentsOf(adj, nodes, segments)
    decreases |nodes|
  {
    segments := [];
    if |nodes| > 1 {
      var front := nodes[..|nodes| - 1];
      assert IsWalk(adj, front);
      assert HasEdge(adj, nodes[|nodes| - 2], nodes[|nodes| - 1]);
      segments := SegmentsExist(adj, front);
      segments := segments + [EdgeSegment(adj, nodes[|nodes| - 2], nodes[|nodes| - 1]).value];
    }
  }

  /** Every query over positive weights has an answer. */
  lemma AnswerExists(q: Query) returns (answer: Answer)
    requires PositiveWeights(q.adj)
    ensures Answers(q, answer)
    ensures answer.Overflow? <==> exists u, v, d :: OverflowMet(q, u, v, d)
  {
    hide OverflowMet, Shortest, Weight, LeastTightAt, NodeOK, HasEdge;
    if exists u, v, d :: OverflowMet(q, u, v, d) {
      answer := Overflow;
    } else if w :| Filtered(q, w, q.goal) && WithinCutoff(q, w) {
      var d := LeastWeight(q, q.goal, w);
      var nodes := CanonicalExists(q, q.goal, d);
      var segments := SegmentsExist(q.adj, nodes);
      ShortestFits(q, q.goal, d);
      answer := Found(Path(d, nodes, segments));
    } else {
      answer := NotFound;
    }
  }

  ghost predicate WithinCutoff(q: Query, w: seq<BlockKey>) {
    IsWalk(q.adj, w) && Weight(q.adj, w) <= q.cutoff
  }

  lemma ShortestFits(q: Query, v: BlockKey, d: nat)
    requires Shortest(q, v, d)
    ensures d <= q.cutoff
  {
  }
}
