/**
 The shape of every reachable cross-chain view: intra-chain edges join exactly
 the consecutive active heights, dependency edges are exactly the recorded
 pairs, node IDs are a bijection, and the edge counter is a closed formula.
 */
module TrustViewShape {
  import opened Base
  import opened Costs
  import opened ReplayGraph
  import opened TrustView
  import Treap
  import HeightIndex

  // ---------------------------------------------------------------------
  // The shape
  // ---------------------------------------------------------------------

  /** `u` and `v` are neighbouring active heights of one chain. */
  ghost predicate Consecutive(nodes: set<BlockKey>, u: BlockKey, v: BlockKey) {
    && u in nodes && v in nodes && u.chain == v.chain && u.height != v.height
    && forall n :: n in nodes && n.chain == u.chain ==>
         !(u.height < n.height < v.height) && !(v.height < n.height < u.height)
  }

  /** Going up costs a direct step per block, going down a path step per block. */
  ghost predicate IntraEdge(profile: CostProfile, u: BlockKey, v: BlockKey, edge: Edge) {
    if u.height < v.height
    then edge.kind == IntraChainUp && edge.weight == (v.height - u.height) * profile.directStepCost
    else edge.kind == IntraChainDown && edge.weight == (u.height - v.height) * profile.pathStepCost
  }

  /** Node IDs and node keys are inverse to each other. */
  ghost predicate Identified(nodes: set<BlockKey>, nodeIDs: map<BlockKey, nat>, nodeKeys: seq<BlockKey>) {
    && nodeIDs.Keys == nodes
    && (forall i :: 0 <= i < |nodeKeys| ==> nodeKeys[i] in nodeIDs && nodeIDs[nodeKeys[i]] == i)
    && (forall k :: k in nodeIDs ==> nodeIDs[k] < |nodeKeys| && nodeKeys[nodeIDs[k]] == k)
  }

  /** Every chain has a non-empty height index holding exactly its active heights. */
  ghost predicate Indexed(heights: map<string, Treap.Tree>, nodes: set<BlockKey>) {
    && "" !in heights
    && (forall chain :: chain in heights ==>
          Treap.Valid(HeightIndex.MixHeight, heights[chain]) && heights[chain] != Treap.Nil)
    && (forall k: BlockKey :: k in nodes <==> k.height in Treap.Keys(IndexOf(heights, k.chain)))
  }

  ghost predicate Wired(profile: CostProfile, nodes: set<BlockKey>, adj: Adjacency, dependencies: set<(BlockKey, BlockKey)>) {
    && (forall u, v :: HasEdge(adj, u, v) <==> Consecutive(nodes, u, v) || (u, v) in dependencies)
    && (forall u, v :: Consecutive(nodes, u, v) ==> HasEdge(adj, u, v) && IntraEdge(profile, u, v, EdgeOf(adj, u, v).value))
    && (forall u, v :: (u, v) in dependencies ==>
          u in nodes && v in nodes && u.chain != v.chain
          && EdgeOf(adj, u, v) == Some(Edge(VerifiedDependency, profile.pathStepCost)))
  }

  /** 2 edges per gap between active heights, one per distinct dependency pair:
      summed over chains, the gaps number nodes minus chains. */
  ghost predicate Counted(view: View, dependencies: set<(BlockKey, BlockKey)>) {
    view.edgeCount == 2 * (|view.nodes| - |view.heights|) + |dependencies|
  }

  ghost predicate Shape(profile: CostProfile, view: View, dependencies: set<(BlockKey, BlockKey)>) {
    && Identified(view.nodes, view.nodeIDs, view.nodeKeys)
    && Indexed(view.heights, view.nodes)
    && Wired(profile, view.nodes, view.adjacency, dependencies)
    && Counted(view, dependencies)
  }

  lemma EmptyShape(profile: CostProfile)
    ensures Shape(profile, EMPTY_VIEW, {})
  {
  }

  // ---------------------------------------------------------------------
  // Activation keeps the shape
  // ---------------------------------------------------------------------

  /** The place of a new key between its neighbours on its chain. */
  ghost predicate Between(nodes: set<BlockKey>, key: BlockKey, p: Option<uint64>, s: Option<uint64>) {
    && key !in nodes
    && (p.Some? ==> BlockKey(key.chain, p.value) in nodes && p.value < key.height)
    && (s.Some? ==> BlockKey(key.chain, s.value) in nodes && key.height < s.value)
    && (forall n :: n in nodes && n.chain == key.chain && n.height < key.height ==> p.Some? && n.height <= p.value)
    && (forall n :: n in nodes && n.chain == key.chain && n.height > key.height ==> s.Some? && s.value <= n.height)
  }

  lemma NeighboursAreBetween(view: View, key: BlockKey)
    requires Indexed(view.heights, view.nodes)
    ensures Treap.Contains(IndexOf(view.heights, key.chain), key.height) <==> key in view.nodes
    ensures key !in view.nodes ==>
              var (p, s) := Treap.NeighboursFrom(IndexOf(view.heights, key.chain), key.height, None, None);
              Between(view.nodes, key, p, s)
  {
    var tree := IndexOf(view.heights, key.chain);
    Treap.ValidSearchOrder(HeightIndex.MixHeight, tree);
    Treap.ContainsIsMembership(tree, key.height);
    if key !in view.nodes {
      Treap.NeighboursExact(tree, key.height);
      var (p, s) := Treap.NeighboursFrom(tree, key.height, None, None);
      forall n | n in view.nodes && n.chain == key.chain ensures n.height in Treap.Keys(tree) {
      }
      assert p.Some? ==> BlockKey(key.chain, p.value).height in Treap.Keys(tree);
      assert s.Some? ==> BlockKey(key.chain, s.value).height in Treap.Keys(tree);
    }
  }

  lemma AddNodeIdentified(view: View, key: BlockKey)
    requires Identified(view.nodes, view.nodeIDs, view.nodeKeys) && key !in view.nodes
    ensures var added := AddNode(view, key); Identified(added.nodes, added.nodeIDs, added.nodeKeys)
    ensures |AddNode(view, key).nodes| == |view.nodes| + 1
  {
    hide Treap.Insert, HeightIndex.MixHeight;
  }

  lemma AddNodeIndexed(view: View, key: BlockKey)
    requires Indexed(view.heights, view.nodes) && key !in view.nodes && key.chain != ""
    ensures var added := AddNode(view, key); Indexed(added.heights, added.nodes)
  {
    hide Treap.Insert, HeightIndex.MixHeight, Treap.Valid, Treap.Keys;
    var tree, added := IndexOf(view.heights, key.chain), AddNode(view, key);
    NilIsValid();
    Treap.InsertValid(HeightIndex.MixHeight, tree, key.height);
    forall k: BlockKey
      ensures k in added.nodes <==> k.height in Treap.Keys(IndexOf(added.heights, k.chain))
    {
      if k.chain == key.chain {
        assert k == key <==> k.height == key.height;
      }
    }
  }

  lemma AddNodeChains(view: View, key: BlockKey)
    ensures |AddNode(view, key).heights| == |view.heights| + if key.chain in view.heights then 0 else 1
  {
    hide Treap.Insert, HeightIndex.MixHeight;
    var added := AddNode(view, key);
    assert added.heights.Keys == view.heights.Keys + {key.chain};
    if key.chain in view.heights {
      assert added.heights.Keys == view.heights.Keys;
    }
    assert |added.heights| == |added.heights.Keys| && |view.heights| == |view.heights.Keys|;
  }

  lemma NilIsValid()
    ensures Treap.Valid(HeightIndex.MixHeight, Treap.Nil) && Treap.Keys(Treap.Nil) == {}
  {
  }

  /** A chain is indexed exactly when a new key on it has a neighbour. */
  lemma IndexedChainHasNeighbour(view: View, key: BlockKey, p: Option<uint64>, s: Option<uint64>)
    requires Indexed(view.heights, view.nodes) && Between(view.nodes, key, p, s)
    ensures key.chain in view.heights <==> p.Some? || s.Some?
  {
    if key.chain in view.heights {
      var top := BlockKey(key.chain, view.heights[key.chain].key);
      assert top.height in Treap.Keys(IndexOf(view.heights, key.chain));
      assert top in view.nodes;
    }
  }

  /** The edges after the rewrite: two deleted, up to four set. */
  function RewiredEdge(adj: Adjacency, key: BlockKey, p: Option<uint64>, s: Option<uint64>,
                       lower: Option<(Edge, Edge)>, upper: Option<(Edge, Edge)>, u: BlockKey, v: BlockKey): Option<Edge>
    requires p.Some? ==> lower.Some?
    requires s.Some? ==> upper.Some?
  {
    if p.Some? && u == BlockKey(key.chain, p.value) && v == key then Some(lower.value.0)
    else if p.Some? && u == key && v == BlockKey(key.chain, p.value) then Some(lower.value.1)
    else if s.Some? && u == key && v == BlockKey(key.chain, s.value) then Some(upper.value.0)
    else if s.Some? && u == BlockKey(key.chain, s.value) && v == key then Some(upper.value.1)
    else if p.Some? && s.Some? && u == BlockKey(key.chain, p.value) && v == BlockKey(key.chain, s.value) then None
    else if p.Some? && s.Some? && u == BlockKey(key.chain, s.value) && v == BlockKey(key.chain, p.value) then None
    else EdgeOf(adj, u, v)
  }

  ghost predicate Rewired(adj: Adjacency, adj': Adjacency, key: BlockKey, p: Option<uint64>, s: Option<uint64>,
                          lower: Option<(Edge, Edge)>, upper: Option<(Edge, Edge)>)
    requires p.Some? ==> lower.Some?
    requires s.Some? ==> upper.Some?
  {
    forall u, v :: EdgeOf(adj', u, v) == RewiredEdge(adj, key, p, s, lower, upper, u, v)
  }

  lemma SetEdgeOf(view: View, from: BlockKey, to: BlockKey, edge: Edge, u: BlockKey, v: BlockKey)
    ensures EdgeOf(SetEdge(view, from, to, edge).adjacency, u, v)
         == if u == from && v == to then Some(edge) else EdgeOf(view.adjacency, u, v)
    ensures SetEdge(view, from, to, edge).edgeCount
         == view.edgeCount + if HasEdge(view.adjacency, from, to) then 0 else 1
  {
  }

  lemma DeleteEdgeOf(view: View, from: BlockKey, to: BlockKey, u: BlockKey, v: BlockKey)
    ensures EdgeOf(DeleteEdge(view, from, to).adjacency, u, v)
         == if u == from && v == to then None else EdgeOf(view.adjacency, u, v)
    ensures DeleteEdge(view, from, to).edgeCount
         == view.edgeCount - if HasEdge(view.adjacency, from, to) then 1 else 0
  {
  }

  lemma SetPairOf(view: View, chain: string, lower: uint64, higher: uint64, edges: (Edge, Edge), u: BlockKey, v: BlockKey)
    requires lower < higher
    ensures EdgeOf(SetPair(view, chain, lower, higher, edges).adjacency, u, v)
         == if u == BlockKey(chain, lower) && v == BlockKey(chain, higher) then Some(edges.0)
            else if u == BlockKey(chain, higher) && v == BlockKey(chain, lower) then Some(edges.1)
            else EdgeOf(view.adjacency, u, v)
    ensures SetPair(view, chain, lower, higher, edges).edgeCount == view.edgeCount
            + (if HasEdge(view.adjacency, BlockKey(chain, lower), BlockKey(chain, higher)) then 0 else 1)
            + (if HasEdge(view.adjacency, BlockKey(chain, higher), BlockKey(chain, lower)) then 0 else 1)
  {
    var low, high := BlockKey(chain, lower), BlockKey(chain, higher);
    SetEdgeOf(view, low, high, edges.0, u, v);
    SetEdgeOf(view, low, high, edges.0, high, low);
    SetEdgeOf(SetEdge(view, low, high, edges.0), high, low, edges.1, u, v);
  }

  /** What a successful activation of a new key does to the fields. */
  lemma ActivateRewires(profile: CostProfile, view: View, key: BlockKey, p: Option<uint64>, s: Option<uint64>,
                        lower: Option<(Edge, Edge)>, upper: Option<(Edge, Edge)>)
    requires key.chain != "" && !Treap.Contains(IndexOf(view.heights, key.chain), key.height)
    requires (p, s) == Treap.NeighboursFrom(IndexOf(view.heights, key.chain), key.height, None, None)
    requires Activate(profile, view, key).Ok?
    requires p.Some? ==> lower == PairEdges(profile, p.value, key.height)
    requires s.Some? ==> upper == PairEdges(profile, key.height, s.value)
    ensures p.Some? ==> lower.Some?
    ensures s.Some? ==> upper.Some?
    ensures var view', added := Activate(profile, view, key).value, AddNode(view, key);
            && view' == added.(adjacency := view'.adjacency, edgeCount := view'.edgeCount)
            && Rewired(view.adjacency, view'.adjacency, key, p, s, lower, upper)
  {
    var added := AddNode(view, key);
    var view' := Activate(profile, view, key).value;
    forall u, v
      ensures EdgeOf(view'.adjacency, u, v) == RewiredEdge(view.adjacency, key, p, s, lower, upper, u, v)
    {
      var split := added;
      if p.Some? && s.Some? {
        var low, high := BlockKey(key.chain, p.value), BlockKey(key.chain, s.value);
        split := DeleteEdge(DeleteEdge(added, low, high), high, low);
        DeleteEdgeOf(added, low, high, u, v);
        DeleteEdgeOf(DeleteEdge(added, low, high), high, low, u, v);
      }
      var lowered := split;
      if p.Some? {
        lowered := SetPair(split, key.chain, p.value, key.height, lower.value);
        SetPairOf(split, key.chain, p.value, key.height, lower.value, u, v);
      }
      if s.Some? {
        SetPairOf(lowered, key.chain, key.height, s.value, upper.value, u, v);
      }
    }
  }

  /** Which pairs are consecutive once the new key sits between its neighbours. */
  lemma ConsecutiveAfter(nodes: set<BlockKey>, key: BlockKey, p: Option<uint64>, s: Option<uint64>, u: BlockKey, v: BlockKey)
    requires Between(nodes, key, p, s)
    ensures Consecutive(nodes + {key}, u, v) <==>
            if u == key then
              || (p.Some? && v == BlockKey(key.chain, p.value))
              || (s.Some? && v == BlockKey(key.chain, s.value))
            else if v == key then
              || (p.Some? && u == BlockKey(key.chain, p.value))
              || (s.Some? && u == BlockKey(key.chain, s.value))
            else
              && Consecutive(nodes, u, v)
              && !(p.Some? && s.Some? && u == BlockKey(key.chain, p.value) && v == BlockKey(key.chain, s.value))
              && !(p.Some? && s.Some? && u == BlockKey(key.chain, s.value) && v == BlockKey(key.chain, p.value))
  {
    var all := nodes + {key};
    if u == key || v == key {
      var other := if u == key then v else u;
      if other in nodes && other.chain == key.chain {
        if other.height < key.height {
          assert BlockKey(key.chain, p.value) in all;
        } else {
          assert BlockKey(key.chain, s.value) in all;
        }
      }
    } else if Consecutive(nodes, u, v) && u.chain == key.chain {
      assert key in all;
      if u.height < key.height < v.height || v.height < key.height < u.height {
        assert BlockKey(key.chain, p.value) in nodes && BlockKey(key.chain, s.value) in nodes;
      }
    }
  }

  lemma GapWasConsecutive(nodes: set<BlockKey>, key: BlockKey, p: uint64, s: uint64)
    requires Between(nodes, key, Some(p), Some(s))
    ensures Consecutive(nodes, BlockKey(key.chain, p), BlockKey(key.chain, s))
    ensures Consecutive(nodes, BlockKey(key.chain, s), BlockKey(key.chain, p))
  {
  }

  lemma RewiredPair(profile: CostProfile, nodes: set<BlockKey>, adj: Adjacency, adj': Adjacency,
                    dependencies: set<(BlockKey, BlockKey)>, key: BlockKey, p: Option<uint64>, s: Option<uint64>,
                    lower: Option<(Edge, Edge)>, upper: Option<(Edge, Edge)>, u: BlockKey, v: BlockKey)
    requires Wired(profile, nodes, adj, dependencies) && Between(nodes, key, p, s)
    requires p.Some? ==> lower.Some? && lower == PairEdges(profile, p.value, key.height)
    requires s.Some? ==> upper.Some? && upper == PairEdges(profile, key.height, s.value)
    requires EdgeOf(adj', u, v) == RewiredEdge(adj, key, p, s, lower, upper, u, v)
    ensures HasEdge(adj', u, v) <==> Consecutive(nodes + {key}, u, v) || (u, v) in dependencies
    ensures Consecutive(nodes + {key}, u, v) ==> HasEdge(adj', u, v) && IntraEdge(profile, u, v, EdgeOf(adj', u, v).value)
    ensures (u, v) in dependencies ==> EdgeOf(adj', u, v) == EdgeOf(adj, u, v)
  {
    ConsecutiveAfter(nodes, key, p, s, u, v);
    assert HasEdge(adj, u, v) <==> Consecutive(nodes, u, v) || (u, v) in dependencies;
    assert (u, v) in dependencies ==> u != key && v != key && u.chain != v.chain;
    hide Consecutive;
  }

  lemma RewiringKeepsWired(profile: CostProfile, nodes: set<BlockKey>, adj: Adjacency, adj': Adjacency,
                           dependencies: set<(BlockKey, BlockKey)>, key: BlockKey, p: Option<uint64>, s: Option<uint64>,
                           lower: Option<(Edge, Edge)>, upper: Option<(Edge, Edge)>)
    requires Wired(profile, nodes, adj, dependencies) && Between(nodes, key, p, s)
    requires p.Some? ==> lower.Some? && lower == PairEdges(profile, p.value, key.height)
    requires s.Some? ==> upper.Some? && upper == PairEdges(profile, key.height, s.value)
    requires Rewired(adj, adj', key, p, s, lower, upper)
    ensures Wired(profile, nodes + {key}, adj', dependencies)
  {
    hide Consecutive, Between, RewiredEdge, PairEdges, IntraEdge;
    forall u, v
      ensures HasEdge(adj', u, v) <==> Consecutive(nodes + {key}, u, v) || (u, v) in dependencies
      ensures Consecutive(nodes + {key}, u, v) ==> HasEdge(adj', u, v) && IntraEdge(profile, u, v, EdgeOf(adj', u, v).value)
      ensures (u, v) in dependencies ==> EdgeOf(adj', u, v) == EdgeOf(adj, u, v)
    {
      RewiredPair(profile, nodes, adj, adj', dependencies, key, p, s, lower, upper, u, v);
    }
  }

  /** Deleting the gap's two edges and setting two per neighbour always nets
      to two more edges, except for the first block of a chain. */
  lemma ActivateCounts(profile: CostProfile, view: View, dependencies: set<(BlockKey, BlockKey)>, key: BlockKey,
                       p: Option<uint64>, s: Option<uint64>)
    requires Wired(profile, view.nodes, view.adjacency, dependencies) && Between(view.nodes, key, p, s)
    requires key.chain != "" && !Treap.Contains(IndexOf(view.heights, key.chain), key.height)
    requires (p, s) == Treap.NeighboursFrom(IndexOf(view.heights, key.chain), key.height, None, None)
    requires Activate(profile, view, key).Ok?
    ensures Activate(profile, view, key).value.edgeCount == view.edgeCount + if p.Some? || s.Some? then 2 else 0
  {
    hide Treap.Contains, Treap.NeighboursFrom, Treap.Insert, HeightIndex.MixHeight;
    var added := AddNode(view, key);
    NewKeyHasNoEdge(profile, view.nodes, view.adjacency, dependencies, key);
    var split := added;
    if p.Some? && s.Some? {
      var low, high := BlockKey(key.chain, p.value), BlockKey(key.chain, s.value);
      GapWasConsecutive(view.nodes, key, p.value, s.value);
      split := DeleteEdge(DeleteEdge(added, low, high), high, low);
      DeleteEdgeOf(added, low, high, high, low);
      forall u, v | u == key || v == key ensures !HasEdge(split.adjacency, u, v) {
        DeleteEdgeOf(added, low, high, u, v);
        DeleteEdgeOf(DeleteEdge(added, low, high), high, low, u, v);
      }
    }
    SetPairsCount(profile, split, key, p, s);
  }

  lemma NewKeyHasNoEdge(profile: CostProfile, nodes: set<BlockKey>, adj: Adjacency, dependencies: set<(BlockKey, BlockKey)>, key: BlockKey)
    requires Wired(profile, nodes, adj, dependencies) && key !in nodes
    ensures forall u, v :: u == key || v == key ==> !HasEdge(adj, u, v)
  {
    forall u, v | u == key || v == key ensures !HasEdge(adj, u, v) {
      assert (u, v) !in dependencies;
    }
  }

  lemma SetPairsCount(profile: CostProfile, split: View, key: BlockKey, p: Option<uint64>, s: Option<uint64>)
    requires p.Some? ==> p.value < key.height && PairEdges(profile, p.value, key.height).Some?
    requires s.Some? ==> key.height < s.value && PairEdges(profile, key.height, s.value).Some?
    requires forall u, v :: u == key || v == key ==> !HasEdge(split.adjacency, u, v)
    ensures var lowered := if p.Some? then SetPair(split, key.chain, p.value, key.height, PairEdges(profile, p.value, key.height).value) else split;
            var raised := if s.Some? then SetPair(lowered, key.chain, key.height, s.value, PairEdges(profile, key.height, s.value).value) else lowered;
            raised.edgeCount == split.edgeCount + (if p.Some? then 2 else 0) + (if s.Some? then 2 else 0)
  {
    hide SetPair, PairEdges;
    assert key == BlockKey(key.chain, key.height);
    var lowered := split;
    if p.Some? {
      var edges := PairEdges(profile, p.value, key.height).value;
      lowered := SetPair(split, key.chain, p.value, key.height, edges);
      SetPairOf(split, key.chain, p.value, key.height, edges, key, key);
      if s.Some? {
        var high := BlockKey(key.chain, s.value);
        assert !HasEdge(split.adjacency, key, high) && !HasEdge(split.adjacency, high, key);
        SetPairOf(split, key.chain, p.value, key.height, edges, key, high);
        SetPairOf(split, key.chain, p.value, key.height, edges, high, key);
      }
    }
    if s.Some? {
      SetPairOf(lowered, key.chain, key.height, s.value, PairEdges(profile, key.height, s.value).value, key, key);
    }
  }

  lemma NewKeyKeepsShape(profile: CostProfile, view: View, dependencies: set<(BlockKey, BlockKey)>, key: BlockKey,
                         p: Option<uint64>, s: Option<uint64>)
    requires Shape(profile, view, dependencies) && key !in view.nodes && Between(view.nodes, key, p, s)
    requires key.chain != "" && !Treap.Contains(IndexOf(view.heights, key.chain), key.height)
    requires (p, s) == Treap.NeighboursFrom(IndexOf(view.heights, key.chain), key.height, None, None)
    requires Activate(profile, view, key).Ok?
    ensures var view' := Activate(profile, view, key).value;
            && Shape(profile, view', dependencies)
            && view'.nodes == view.nodes + {key}
            && view'.crossEdgesAdded == view.crossEdgesAdded
  {
    hide Treap.Contains, Treap.NeighboursFrom, Between, Wired, Rewired, Identified, Indexed, PairEdges, Activate, IndexOf, Treap.Insert;
    hide HeightIndex.MixHeight;
    var lower := if p.Some? then PairEdges(profile, p.value, key.height) else None;
    var upper := if s.Some? then PairEdges(profile, key.height, s.value) else None;
    ActivateRewires(profile, view, key, p, s, lower, upper);
    ActivateCounts(profile, view, dependencies, key, p, s);
    IndexedChainHasNeighbour(view, key, p, s);
    var view' := Activate(profile, view, key).value;
    RewiringKeepsWired(profile, view.nodes, view.adjacency, view'.adjacency, dependencies, key, p, s, lower, upper);
    AddNodeIdentified(view, key);
    AddNodeIndexed(view, key);
    AddNodeChains(view, key);
  }

  lemma ActivateKnown(profile: CostProfile, view: View, key: BlockKey)
    ensures key.chain == "" ==> Activate(profile, view, key) == Err(EmptyChain)
    ensures key.chain != "" && Treap.Contains(IndexOf(view.heights, key.chain), key.height) ==> Activate(profile, view, key) == Ok(view)
  {
  }

  /** Activation keeps the shape and loses no dependency. */
  lemma ActivateKeepsShape(profile: CostProfile, view: View, dependencies: set<(BlockKey, BlockKey)>, key: BlockKey)
    requires Shape(profile, view, dependencies)
    requires Activate(profile, view, key).Ok?
    ensures Shape(profile, Activate(profile, view, key).value, dependencies)
    ensures Activate(profile, view, key).value.nodes == view.nodes + {key}
    ensures Activate(profile, view, key).value.crossEdgesAdded == view.crossEdgesAdded
  {
    hide Activate, Wired, Identified, Indexed, Treap.Contains, Treap.NeighboursFrom, IndexOf;
    NeighboursAreBetween(view, key);
    ActivateKnown(profile, view, key);
    if key in view.nodes {
      assert view.nodes + {key} == view.nodes;
    } else {
      var (p, s) := Treap.NeighboursFrom(IndexOf(view.heights, key.chain), key.height, None, None);
      NewKeyKeepsShape(profile, view, dependencies, key, p, s);
    }
  }

  lemma SetDependencyWired(profile: CostProfile, nodes: set<BlockKey>, adj: Adjacency, adj': Adjacency,
                           dependencies: set<(BlockKey, BlockKey)>, from: BlockKey, to: BlockKey)
    requires Wired(profile, nodes, adj, dependencies)
    requires from in nodes && to in nodes && from.chain != to.chain
    requires forall u, v :: EdgeOf(adj', u, v)
               == if u == from && v == to then Some(Edge(VerifiedDependency, profile.pathStepCost)) else EdgeOf(adj, u, v)
    ensures Wired(profile, nodes, adj', dependencies + {(from, to)})
  {
    hide IntraEdge;
    forall u, v
      ensures HasEdge(adj', u, v) <==> Consecutive(nodes, u, v) || (u, v) in dependencies + {(from, to)}
      ensures Consecutive(nodes, u, v) ==> EdgeOf(adj', u, v) == EdgeOf(adj, u, v)
    {
      assert HasEdge(adj, u, v) <==> Consecutive(nodes, u, v) || (u, v) in dependencies;
    }
  }

  lemma SetDependencyKeepsShape(profile: CostProfile, view: View, dependencies: set<(BlockKey, BlockKey)>, from: BlockKey, to: BlockKey, count: uint64)
    requires Shape(profile, view, dependencies)
    requires from in view.nodes && to in view.nodes && from.chain != to.chain
    ensures Shape(profile, SetEdge(view, from, to, Edge(VerifiedDependency, profile.pathStepCost)).(crossEdgesAdded := count),
                  dependencies + {(from, to)})
  {
    hide Wired, Indexed, Identified;
    var edge := Edge(VerifiedDependency, profile.pathStepCost);
    var view' := SetEdge(view, from, to, edge);
    forall u, v
      ensures EdgeOf(view'.adjacency, u, v) == if u == from && v == to then Some(edge) else EdgeOf(view.adjacency, u, v)
    {
      SetEdgeOf(view, from, to, edge, u, v);
    }
    SetDependencyWired(profile, view.nodes, view.adjacency, view'.adjacency, dependencies, from, to);
    SetEdgeOf(view, from, to, edge, from, to);
    DependencyEdgeRecorded(profile, view.nodes, view.adjacency, dependencies, from, to);
    if (from, to) in dependencies {
      assert dependencies + {(from, to)} == dependencies;
    }
  }

  /** A cross-chain dependency keeps the shape and adds exactly its own pair. */
  lemma DependencyKeepsShape(profile: CostProfile, view: View, dependencies: set<(BlockKey, BlockKey)>, from: BlockKey, to: BlockKey)
    requires Shape(profile, view, dependencies)
    requires from.chain != to.chain
    requires AddVerifiedDependency(profile, view, from, to).1.None?
    ensures var view' := AddVerifiedDependency(profile, view, from, to).0;
            && Shape(profile, view', dependencies + {(from, to)})
            && view'.nodes == view.nodes + {from, to}
            && view'.crossEdgesAdded == view.crossEdgesAdded + 1
  {
    hide Activate, Shape, SetEdge;
    var view1 := Activate(profile, view, from).value;
    ActivateKeepsShape(profile, view, dependencies, from);
    var view2 := Activate(profile, view1, to).value;
    ActivateKeepsShape(profile, view1, dependencies, to);
    SetDependencyKeepsShape(profile, view2, dependencies, from, to, view2.crossEdgesAdded + 1);
    SetEdgeFrame(view2, from, to, Edge(VerifiedDependency, profile.pathStepCost));
    assert view2.nodes == view.nodes + {from, to};
  }

  lemma SetEdgeFrame(view: View, from: BlockKey, to: BlockKey, edge: Edge)
    ensures var view' := SetEdge(view, from, to, edge);
            view' == view.(adjacency := view'.adjacency, edgeCount := view'.edgeCount)
  {
  }

  lemma DependencyEdgeRecorded(profile: CostProfile, nodes: set<BlockKey>, adj: Adjacency, dependencies: set<(BlockKey, BlockKey)>, from: BlockKey, to: BlockKey)
    requires Wired(profile, nodes, adj, dependencies) && from.chain != to.chain
    ensures HasEdge(adj, from, to) <==> (from, to) in dependencies
  {
  }

  /** The shape needs cross-chain dependencies: nothing stops a dependency
      inside one chain, and recording one destroys the shape, always. */
  lemma ShapeNeedsCrossChains(profile: CostProfile, view: View, from: BlockKey, to: BlockKey, dependencies: set<(BlockKey, BlockKey)>)
    requires AddVerifiedDependency(profile, view, from, to).1.None?
    requires Shape(profile, AddVerifiedDependency(profile, view, from, to).0, dependencies)
    ensures from.chain != to.chain
  {
    hide Activate, SetEdge;
    var view2 := Activate(profile, Activate(profile, view, from).value, to).value;
    var edge := Edge(VerifiedDependency, profile.pathStepCost);
    var adj := SetEdge(view2, from, to, edge).adjacency;
    SetEdgeOf(view2, from, to, edge, from, to);
    assert HasEdge(adj, from, to);
  }

  /** What a dependency does to the shape: some dependency set describes the view afterwards
      exactly when it joins two chains. */
  lemma ShapeSurvivesExactly(profile: CostProfile, view: View, dependencies: set<(BlockKey, BlockKey)>, from: BlockKey, to: BlockKey)
    requires Shape(profile, view, dependencies) && AddVerifiedDependency(profile, view, from, to).1.None?
    ensures (exists after :: Shape(profile, AddVerifiedDependency(profile, view, from, to).0, after)) <==> from.chain != to.chain
  {
    hide Shape, AddVerifiedDependency;
    if from.chain != to.chain {
      DependencyKeepsShape(profile, view, dependencies, from, to);
    }
    forall after | Shape(profile, AddVerifiedDependency(profile, view, from, to).0, after) ensures from.chain != to.chain {
      ShapeNeedsCrossChains(profile, view, from, to, after);
    }
  }

  /** Such a dependency is accepted: two neighbouring blocks of one chain, whatever the costs. */
  lemma SameChainIsAccepted(profile: CostProfile)
    ensures var r := AddVerifiedDependency(profile, EMPTY_VIEW, BlockKey("a", 0), BlockKey("a", 1));
            r.1.None? && forall after :: !Shape(profile, r.0, after)
  {
    var from, to := BlockKey("a", 0), BlockKey("a", 1);
    var view1 := AddNode(EMPTY_VIEW, from);
    assert Activate(profile, EMPTY_VIEW, from) == Ok(view1);
    var tree := view1.heights["a"];
    assert tree == Treap.Node(0, HeightIndex.MixHeight(0), Treap.Nil, Treap.Nil);
    assert Treap.NeighboursFrom(tree, 1, None, None) == (Some(0), None);
    assert Activate(profile, view1, to).Ok?;
    forall after ensures !Shape(profile, AddVerifiedDependency(profile, EMPTY_VIEW, from, to).0, after) {
      EmptyShape(profile);
      ShapeSurvivesExactly(profile, EMPTY_VIEW, {}, from, to);
    }
  }
}
