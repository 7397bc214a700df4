/**
 The replay trust view: a growing graph over (chain, height) blocks.

 `View` is the value of the view's fields and the functions on it are its
 transitions; module TrustViewObject holds the object that performs them in
 place.
 */
module TrustView {
  import opened Base
  import opened Costs
  import opened ReplayGraph
  import Treap
  import HeightIndex

  datatype ViewError = EmptyChain | EdgeCostOverflow | CrossEdgeCounterOverflow

  datatype View = View(
    heights: map<string, Treap.Tree>,
    adjacency: Adjacency,
    nodes: set<BlockKey>,
    nodeIDs: map<BlockKey, nat>,
    nodeKeys: seq<BlockKey>,
    edgeCount: int,
    crossEdgesAdded: uint64)

  const EMPTY_VIEW: View := View(map[], map[], {}, map[], [], 0, 0)

  // ---------------------------------------------------------------------
  // Edge updates
  // ---------------------------------------------------------------------

  function SetEdge(view: View, from: BlockKey, to: BlockKey, edge: Edge): View {
    var neighbours := if from in view.adjacency then view.adjacency[from] else map[];
    view.(adjacency := view.adjacency[from := neighbours[to := edge]],
          edgeCount := if to in neighbours then view.edgeCount else view.edgeCount + 1)
  }

  function DeleteEdge(view: View, from: BlockKey, to: BlockKey): View {
    if from in view.adjacency && to in view.adjacency[from] then
      view.(adjacency := view.adjacency[from := view.adjacency[from] - {to}], edgeCount := view.edgeCount - 1)
    else view
  }

  // ---------------------------------------------------------------------
  // Activation
  // ---------------------------------------------------------------------

  function IndexOf(heights: map<string, Treap.Tree>, chain: string): Treap.Tree {
    if chain in heights then heights[chain] else Treap.Nil
  }

  /** The up and down edges between two heights of one chain, if both weights fit. */
  function PairEdges(profile: CostProfile, lower: uint64, higher: uint64): Option<(Edge, Edge)>
    requires lower <= higher
  {
    var up := CheckedCost(higher - lower, profile.directStepCost);
    var down := CheckedCost(higher - lower, profile.pathStepCost);
    if up.Err? || down.Err? then None
    else Some((Edge(IntraChainUp, up.value), Edge(IntraChainDown, down.value)))
  }

  function SetPair(view: View, chain: string, lower: uint64, higher: uint64, edges: (Edge, Edge)): View {
    var low, high := BlockKey(chain, lower), BlockKey(chain, higher);
    SetEdge(SetEdge(view, low, high, edges.0), high, low, edges.1)
  }

  /** The new node, before any edge is touched. */
  function AddNode(view: View, key: BlockKey): View {
    var tree := IndexOf(view.heights, key.chain);
    view.(heights := view.heights[key.chain := Treap.Insert(tree, key.height, HeightIndex.MixHeight(key.height))],
          nodes := view.nodes + {key},
          nodeIDs := view.nodeIDs[key := |view.nodeKeys|],
          nodeKeys := view.nodeKeys + [key])
  }

  /** Between two neighbours, their direct edges go. */
  function SplitGap(view: View, key: BlockKey, p: Option<uint64>, s: Option<uint64>): View {
    if p.Some? && s.Some? then
      var low, high := BlockKey(key.chain, p.value), BlockKey(key.chain, s.value);
      DeleteEdge(DeleteEdge(view, low, high), high, low)
    else view
  }

  function Activate(profile: CostProfile, view: View, key: BlockKey): Result<View, ViewError> {
    if key.chain == "" then Err(EmptyChain)
    else
      var tree := IndexOf(view.heights, key.chain);
      if Treap.Contains(tree, key.height) then Ok(view)
      else
        var (p, s) := Treap.NeighboursFrom(tree, key.height, None, None);
        var lowerEdges := if p.Some? then PairEdges(profile, p.value, key.height) else None;
        var upperEdges := if s.Some? then PairEdges(profile, key.height, s.value) else None;
        if (p.Some? && lowerEdges.None?) || (s.Some? && upperEdges.None?) then Err(EdgeCostOverflow)
        else
          var split := SplitGap(AddNode(view, key), key, p, s);
          var lowered := if p.Some? then SetPair(split, key.chain, p.value, key.height, lowerEdges.value) else split;
          Ok(if s.Some? then SetPair(lowered, key.chain, key.height, s.value, upperEdges.value) else lowered)
  }

  /** Both activations, then the cross edge. On an error the view keeps what was done before it. */
  function AddVerifiedDependency(profile: CostProfile, view: View, from: BlockKey, to: BlockKey): (View, Option<ViewError>) {
    match Activate(profile, view, from)
    case Err(error) => (view, Some(error))
    case Ok(view1) =>
      match Activate(profile, view1, to)
      case Err(error) => (view1, Some(error))
      case Ok(view2) =>
        if view2.crossEdgesAdded == MAX_UINT64 then (view2, Some(CrossEdgeCounterOverflow))
        else
          (SetEdge(view2, from, to, Edge(VerifiedDependency, profile.pathStepCost))
           .(crossEdgesAdded := view2.crossEdgesAdded + 1), None)
  }
}
