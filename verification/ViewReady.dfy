/**
 What the search needs of a view, and every reachable view provides, same-chain
 dependencies included: node IDs are a bijection, edges join active blocks, and
 every weight is positive.
 */
module ViewReady {
  import opened Base
  import opened Costs
  import opened ReplayGraph
  import opened TrustView
  import opened TrustViewShape
  import opened SearchSpec
  import Treap
  import HeightIndex

  ghost predicate EdgesJoin(nodes: set<BlockKey>, adj: Adjacency) {
    forall u, v :: HasEdge(adj, u, v) ==> u in nodes && v in nodes
  }

  ghost predicate Ready(view: View) {
    && Identified(view.nodes, view.nodeIDs, view.nodeKeys)
    && Indexed(view.heights, view.nodes)
    && EdgesJoin(view.nodes, view.adjacency)
    && PositiveWeights(view.adjacency)
  }

  lemma EmptyIsReady()
    ensures Ready(EMPTY_VIEW)
  {
  }

  lemma PairIsPositive(profile: CostProfile, lower: uint64, higher: uint64)
    requires ValidProfile(profile) && lower < higher && PairEdges(profile, lower, higher).Some?
    ensures PairEdges(profile, lower, higher).value.0.weight > 0
    ensures PairEdges(profile, lower, higher).value.1.weight > 0
  {
  }

  lemma RewiringKeepsReady(profile: CostProfile, nodes: set<BlockKey>, adj: Adjacency, adj': Adjacency, key: BlockKey,
                           p: Option<uint64>, s: Option<uint64>, lower: Option<(Edge, Edge)>, upper: Option<(Edge, Edge)>)
    requires ValidProfile(profile) && Between(nodes, key, p, s) && EdgesJoin(nodes, adj) && PositiveWeights(adj)
    requires p.Some? ==> lower.Some? && lower == PairEdges(profile, p.value, key.height)
    requires s.Some? ==> upper.Some? && upper == PairEdges(profile, key.height, s.value)
    requires Rewired(adj, adj', key, p, s, lower, upper)
    ensures EdgesJoin(nodes + {key}, adj') && PositiveWeights(adj')
  {
    if p.Some? {
      PairIsPositive(profile, p.value, key.height);
    }
    if s.Some? {
      PairIsPositive(profile, key.height, s.value);
    }
    hide PairEdges;
    forall u, v | HasEdge(adj', u, v)
      ensures u in nodes + {key} && v in nodes + {key} && EdgeOf(adj', u, v).value.weight > 0
    {
      assert EdgeOf(adj', u, v) == RewiredEdge(adj, key, p, s, lower, upper, u, v);
      assert HasEdge(adj, u, v) ==> u in nodes && v in nodes && EdgeOf(adj, u, v).value.weight > 0;
    }
  }

  lemma NewKeyKeepsReady(profile: CostProfile, view: View, key: BlockKey, p: Option<uint64>, s: Option<uint64>)
    requires ValidProfile(profile) && Ready(view) && key !in view.nodes && Between(view.nodes, key, p, s)
    requires key.chain != "" && !Treap.Contains(IndexOf(view.heights, key.chain), key.height)
    requires (p, s) == Treap.NeighboursFrom(IndexOf(view.heights, key.chain), key.height, None, None)
    requires Activate(profile, view, key).Ok?
    ensures var view' := Activate(profile, view, key).value;
            && Ready(view')
            && view'.nodes == view.nodes + {key}
            && view'.crossEdgesAdded == view.crossEdgesAdded
  {
    hide Treap.Contains, Treap.NeighboursFrom, Between, Rewired, Identified, Indexed, PairEdges, Activate, IndexOf, Treap.Insert;
    hide HeightIndex.MixHeight, EdgesJoin, PositiveWeights;
    var lower := if p.Some? then PairEdges(profile, p.value, key.height) else None;
    var upper := if s.Some? then PairEdges(profile, key.height, s.value) else None;
    ActivateRewires(profile, view, key, p, s, lower, upper);
    var view' := Activate(profile, view, key).value;
    RewiringKeepsReady(profile, view.nodes, view.adjacency, view'.adjacency, key, p, s, lower, upper);
    AddNodeIdentified(view, key);
    AddNodeIndexed(view, key);
  }

  lemma ActivateKeepsReady(profile: CostProfile, view: View, key: BlockKey)
    requires ValidProfile(profile) && Ready(view) && Activate(profile, view, key).Ok?
    ensures var view' := Activate(profile, view, key).value;
            && Ready(view')
            && view'.nodes == view.nodes + {key}
            && view'.crossEdgesAdded == view.crossEdgesAdded
            && (key in view.nodes ==> view' == view)
  {
    hide Activate, Identified, Indexed, Treap.Contains, Treap.NeighboursFrom, IndexOf, EdgesJoin, PositiveWeights;
    NeighboursAreBetween(view, key);
    ActivateKnown(profile, view, key);
    if key in view.nodes {
      assert view.nodes + {key} == view.nodes;
    } else {
      var (p, s) := Treap.NeighboursFrom(IndexOf(view.heights, key.chain), key.height, None, None);
      NewKeyKeepsReady(profile, view, key, p, s);
    }
  }

  lemma SetDependencyKeepsReady(profile: CostProfile, view: View, from: BlockKey, to: BlockKey)
    requires ValidProfile(profile) && Ready(view) && from in view.nodes && to in view.nodes
    ensures Ready(SetEdge(view, from, to, Edge(VerifiedDependency, profile.pathStepCost)))
  {
    hide Identified, Indexed;
    var edge := Edge(VerifiedDependency, profile.pathStepCost);
    var view' := SetEdge(view, from, to, edge);
    forall u, v | HasEdge(view'.adjacency, u, v)
      ensures u in view.nodes && v in view.nodes && EdgeOf(view'.adjacency, u, v).value.weight > 0
    {
      SetEdgeOf(view, from, to, edge, u, v);
      assert HasEdge(view.adjacency, u, v) ==> u in view.nodes && v in view.nodes && EdgeOf(view.adjacency, u, v).value.weight > 0;
    }
  }

  lemma DependencyKeepsReady(profile: CostProfile, view: View, from: BlockKey, to: BlockKey)
    requires ValidProfile(profile) && Ready(view) && AddVerifiedDependency(profile, view, from, to).1.None?
    ensures Ready(AddVerifiedDependency(profile, view, from, to).0)
  {
    hide Activate, Identified, Indexed, EdgesJoin, PositiveWeights, SetEdge;
    var view1 := Activate(profile, view, from).value;
    ActivateKeepsReady(profile, view, from);
    var view2 := Activate(profile, view1, to).value;
    ActivateKeepsReady(profile, view1, to);
    SetDependencyKeepsReady(profile, view2, from, to);
    SetEdgeFrame(view2, from, to, Edge(VerifiedDependency, profile.pathStepCost));
  }
}
