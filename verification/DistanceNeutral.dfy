/**
 Activation is distance-neutral: splitting an intra-chain edge deletes two edges
 and adds up to four, yet leaves the distance between every pair of blocks that
 were already active unchanged.
 */
module DistanceNeutral {
  import opened Base
  import opened Costs
  import opened ReplayGraph
  import opened TrustView
  import opened TrustViewShape
  import Treap

  /** Both wirings, before and after `key` joined `nodes`. */
  ghost predicate Split(profile: CostProfile, nodes: set<BlockKey>, adj: Adjacency, adj': Adjacency,
                        dependencies: set<(BlockKey, BlockKey)>, key: BlockKey, p: Option<uint64>, s: Option<uint64>) {
    && Between(nodes, key, p, s)
    && Wired(profile, nodes, adj, dependencies)
    && Wired(profile, nodes + {key}, adj', dependencies)
  }

  /** An edge between old blocks either survives with its weight or is replaced
      by a detour through the new block of the same weight. */
  lemma OldEdge(profile: CostProfile, nodes: set<BlockKey>, adj: Adjacency, adj': Adjacency,
                dependencies: set<(BlockKey, BlockKey)>, key: BlockKey, p: Option<uint64>, s: Option<uint64>, u: BlockKey, v: BlockKey)
    requires Split(profile, nodes, adj, adj', dependencies, key, p, s)
    requires u != key && v != key && HasEdge(adj, u, v)
    ensures || EdgeOf(adj', u, v) == EdgeOf(adj, u, v)
            || (&& HasEdge(adj', u, key) && HasEdge(adj', key, v)
                && EdgeOf(adj', u, key).value.weight + EdgeOf(adj', key, v).value.weight == EdgeOf(adj, u, v).value.weight)
  {
    hide Consecutive;
    ConsecutiveAfter(nodes, key, p, s, u, v);
    ConsecutiveAfter(nodes, key, p, s, u, key);
    ConsecutiveAfter(nodes, key, p, s, key, v);
    assert HasEdge(adj, u, v) <==> Consecutive(nodes, u, v) || (u, v) in dependencies;
    if Consecutive(nodes + {key}, u, v) {
    } else if Consecutive(nodes, u, v) {
      if u.height < v.height {
        Distributes(key.height - u.height, v.height - key.height, profile.directStepCost);
      } else {
        Distributes(u.height - key.height, key.height - v.height, profile.pathStepCost);
      }
    }
  }

  lemma Distributes(a: int, b: int, step: int)
    ensures a * step + b * step == (a + b) * step
  {
  }

  /** An edge between old blocks in the new graph was there before. */
  lemma NewEdge(profile: CostProfile, nodes: set<BlockKey>, adj: Adjacency, adj': Adjacency,
                dependencies: set<(BlockKey, BlockKey)>, key: BlockKey, p: Option<uint64>, s: Option<uint64>, u: BlockKey, v: BlockKey)
    requires Split(profile, nodes, adj, adj', dependencies, key, p, s)
    requires u != key && v != key && HasEdge(adj', u, v)
    ensures EdgeOf(adj, u, v) == EdgeOf(adj', u, v)
  {
    ConsecutiveAfter(nodes, key, p, s, u, v);
    assert HasEdge(adj', u, v) <==> Consecutive(nodes + {key}, u, v) || (u, v) in dependencies;
  }

  /** A detour through the new block either returns where it came from or
      replaces the split edge, at the same cost. */
  lemma DetourBack(profile: CostProfile, nodes: set<BlockKey>, adj: Adjacency, adj': Adjacency,
                   dependencies: set<(BlockKey, BlockKey)>, key: BlockKey, p: Option<uint64>, s: Option<uint64>, u: BlockKey, v: BlockKey)
    requires Split(profile, nodes, adj, adj', dependencies, key, p, s)
    requires HasEdge(adj', u, key) && HasEdge(adj', key, v)
    ensures u in nodes && v in nodes
    ensures u != v ==>
              && HasEdge(adj, u, v)
              && EdgeOf(adj, u, v).value.weight == EdgeOf(adj', u, key).value.weight + EdgeOf(adj', key, v).value.weight
  {
    hide Consecutive;
    assert (u, key) !in dependencies && (key, v) !in dependencies;
    ConsecutiveAfter(nodes, key, p, s, u, key);
    ConsecutiveAfter(nodes, key, p, s, key, v);
    if u != v {
      GapWasConsecutive(nodes, key, p.value, s.value);
      if u.height < v.height {
        Distributes(key.height - u.height, v.height - key.height, profile.directStepCost);
      } else {
        Distributes(u.height - key.height, key.height - v.height, profile.pathStepCost);
      }
    }
  }

  /** Every old walk has a new one of the same weight. */
  lemma {:induction false} WalkForward(profile: CostProfile, nodes: set<BlockKey>, adj: Adjacency, adj': Adjacency,
                                       dependencies: set<(BlockKey, BlockKey)>, key: BlockKey, p: Option<uint64>, s: Option<uint64>,
                                       w: seq<BlockKey>) returns (w': seq<BlockKey>)
    requires Split(profile, nodes, adj, adj', dependencies, key, p, s)
    requires IsWalk(adj, w) && forall i :: 0 <= i < |w| ==> w[i] in nodes
    ensures WalkFromTo(adj', w', w[0], w[|w| - 1]) && Weight(adj', w') == Weight(adj, w)
  {
    if |w| == 1 {
      w' := w;
    } else {
      hide Split;
      assert key !in nodes by { assert Between(nodes, key, p, s); }
      var front, u, v := w[..|w| - 1], w[|w| - 2], w[|w| - 1];
      w' := WalkForward(profile, nodes, adj, adj', dependencies, key, p, s, front);
      OldEdge(profile, nodes, adj, adj', dependencies, key, p, s, u, v);
      if EdgeOf(adj', u, v) == EdgeOf(adj, u, v) {
        WalkSnoc(adj', w', v);
        w' := w' + [v];
      } else {
        WalkSnoc(adj', w', key);
        WalkSnoc(adj', w' + [key], v);
        w' := w' + [key] + [v];
      }
    }
  }

  /** Every new walk between old blocks has an old one that is no heavier. */
  lemma {:induction false} WalkBackward(profile: CostProfile, nodes: set<BlockKey>, adj: Adjacency, adj': Adjacency,
                                        dependencies: set<(BlockKey, BlockKey)>, key: BlockKey, p: Option<uint64>, s: Option<uint64>,
                                        w': seq<BlockKey>) returns (w: seq<BlockKey>)
    requires Split(profile, nodes, adj, adj', dependencies, key, p, s)
    requires IsWalk(adj', w') && w'[0] != key && w'[|w'| - 1] != key
    ensures WalkFromTo(adj, w, w'[0], w'[|w'| - 1]) && Weight(adj, w) <= Weight(adj', w')
    decreases |w'|
  {
    hide Split;
    if |w'| == 1 {
      w := w';
    } else {
      var front, u, v := w'[..|w'| - 1], w'[|w'| - 2], w'[|w'| - 1];
      assert IsWalk(adj', front);
      if u != key {
        w := WalkBackward(profile, nodes, adj, adj', dependencies, key, p, s, front);
        NewEdge(profile, nodes, adj, adj', dependencies, key, p, s, u, v);
        WalkSnoc(adj, w, v);
        w := w + [v];
      } else {
        var t := w'[|w'| - 3];
        var shorter := front[..|front| - 1];
        assert IsWalk(adj', shorter) && shorter[|shorter| - 1] == t;
        DetourBack(profile, nodes, adj, adj', dependencies, key, p, s, t, v);
        NewIsNotOld(profile, nodes, adj, adj', dependencies, key, p, s);
        w := WalkBackward(profile, nodes, adj, adj', dependencies, key, p, s, shorter);
        if t != v {
          WalkSnoc(adj, w, v);
          w := w + [v];
        }
      }
    }
  }

  lemma NewIsNotOld(profile: CostProfile, nodes: set<BlockKey>, adj: Adjacency, adj': Adjacency,
                    dependencies: set<(BlockKey, BlockKey)>, key: BlockKey, p: Option<uint64>, s: Option<uint64>)
    requires Split(profile, nodes, adj, adj', dependencies, key, p, s)
    ensures key !in nodes
  {
  }

  lemma WalkStaysInNodes(profile: CostProfile, nodes: set<BlockKey>, adj: Adjacency, dependencies: set<(BlockKey, BlockKey)>, w: seq<BlockKey>)
    requires Wired(profile, nodes, adj, dependencies) && IsWalk(adj, w) && w[0] in nodes
    ensures forall i :: 0 <= i < |w| ==> w[i] in nodes
  {
    forall i | 0 < i < |w| ensures w[i] in nodes {
      assert HasEdge(adj, w[i - 1], w[i]);
      assert HasEdge(adj, w[i - 1], w[i]) <==> Consecutive(nodes, w[i - 1], w[i]) || (w[i - 1], w[i]) in dependencies;
    }
  }

  lemma ReachesForward(profile: CostProfile, nodes: set<BlockKey>, adj: Adjacency, adj': Adjacency,
                       dependencies: set<(BlockKey, BlockKey)>, key: BlockKey, p: Option<uint64>, s: Option<uint64>,
                       u: BlockKey, v: BlockKey, d: nat)
    requires Split(profile, nodes, adj, adj', dependencies, key, p, s)
    requires u in nodes && v in nodes && Reaches(adj, u, v, d)
    ensures Reaches(adj', u, v, d)
  {
    var w :| WalkFromTo(adj, w, u, v) && Weight(adj, w) == d;
    WalkStaysInNodes(profile, nodes, adj, dependencies, w);
    var w' := WalkForward(profile, nodes, adj, adj', dependencies, key, p, s, w);
  }

  lemma ReachesBackward(profile: CostProfile, nodes: set<BlockKey>, adj: Adjacency, adj': Adjacency,
                        dependencies: set<(BlockKey, BlockKey)>, key: BlockKey, p: Option<uint64>, s: Option<uint64>,
                        u: BlockKey, v: BlockKey, d: nat)
    requires Split(profile, nodes, adj, adj', dependencies, key, p, s)
    requires u in nodes && v in nodes && Reaches(adj', u, v, d)
    ensures exists e: nat :: e <= d && Reaches(adj, u, v, e)
  {
    NewIsNotOld(profile, nodes, adj, adj', dependencies, key, p, s);
    var w' :| WalkFromTo(adj', w', u, v) && Weight(adj', w') == d;
    var w := WalkBackward(profile, nodes, adj, adj', dependencies, key, p, s, w');
    assert Reaches(adj, u, v, Weight(adj, w));
  }

  lemma SplitKeepsDistance(profile: CostProfile, nodes: set<BlockKey>, adj: Adjacency, adj': Adjacency,
                           dependencies: set<(BlockKey, BlockKey)>, key: BlockKey, p: Option<uint64>, s: Option<uint64>,
                           u: BlockKey, v: BlockKey, d: nat)
    requires Split(profile, nodes, adj, adj', dependencies, key, p, s)
    requires u in nodes && v in nodes
    ensures IsDistance(adj, u, v, d) <==> IsDistance(adj', u, v, d)
    ensures (exists e: nat :: Reaches(adj, u, v, e)) <==> (exists e: nat :: Reaches(adj', u, v, e))
  {
    hide Split, Reaches;
    forall e: nat | Reaches(adj, u, v, e) ensures Reaches(adj', u, v, e) {
      ReachesForward(profile, nodes, adj, adj', dependencies, key, p, s, u, v, e);
    }
    forall e: nat | Reaches(adj', u, v, e) ensures exists f: nat :: f <= e && Reaches(adj, u, v, f) {
      ReachesBackward(profile, nodes, adj, adj', dependencies, key, p, s, u, v, e);
    }
  }

  /** The theorem, for the view's own activation. */
  lemma ActivationKeepsDistances(profile: CostProfile, view: View, dependencies: set<(BlockKey, BlockKey)>, key: BlockKey,
                                 u: BlockKey, v: BlockKey, d: nat)
    requires Shape(profile, view, dependencies)
    requires Activate(profile, view, key).Ok?
    requires u in view.nodes && v in view.nodes
    ensures var view' := Activate(profile, view, key).value;
            && (IsDistance(view.adjacency, u, v, d) <==> IsDistance(view'.adjacency, u, v, d))
            && ((exists e: nat :: Reaches(view.adjacency, u, v, e)) <==> (exists e: nat :: Reaches(view'.adjacency, u, v, e)))
  {
    hide Activate, Wired, Identified, Indexed, Treap.Contains, Treap.NeighboursFrom, IndexOf, Reaches, IsDistance;
    NeighboursAreBetween(view, key);
    ActivateKnown(profile, view, key);
    ActivateKeepsShape(profile, view, dependencies, key);
    if key !in view.nodes {
      var (p, s) := Treap.NeighboursFrom(IndexOf(view.heights, key.chain), key.height, None, None);
      SplitKeepsDistance(profile, view.nodes, view.adjacency, Activate(profile, view, key).value.adjacency,
                         dependencies, key, p, s, u, v, d);
    }
  }
}
