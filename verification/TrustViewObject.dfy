/** The replay trust view as an object: in-place graph updates and the pooled search. */
module TrustViewObject {
  import opened Base
  import opened Costs
  import opened ReplayGraph
  import opened TrustView
  import opened TrustViewShape
  import opened ViewReady
  import opened SearchSpec
  import opened SearchInvariant
  import opened Scratch
  import Treap
  import HeightIndex
  import opened HeightIndexes

  datatype SearchError = UnknownStart | UnknownGoal | SearchOverflow

  // ---------------------------------------------------------------------
  // The search as seen from outside
  // ---------------------------------------------------------------------

  /** Heights of the target chain that the cutoff cannot pay for are filtered out. */
  function MinTargetHeight(profile: CostProfile, cutoff: uint64, targetHeight: uint64): uint64
    requires ValidProfile(profile)
  {
    var steps := cutoff / profile.directStepCost;
    if targetHeight > steps then targetHeight - steps else 0
  }

  function SearchQuery(profile: CostProfile, adj: Adjacency, start: BlockKey, goal: BlockKey, cutoff: uint64,
                       targetChain: string, targetHeight: uint64): Query
    requires ValidProfile(profile)
  {
    Query(adj, start, goal, cutoff, targetChain, MinTargetHeight(profile, cutoff, targetHeight))
  }

  /** The one outcome `ShortestPath` may have. */
  ghost predicate SearchOutcome(profile: CostProfile, view: View, start: BlockKey, goal: BlockKey, cutoff: uint64,
                                targetChain: string, targetHeight: uint64, r: Result<Option<Path>, SearchError>)
    requires ValidProfile(profile)
  {
    if start == goal then r == Ok(Some(Path(0, [start], [])))
    else if start !in view.nodes then r == Err(UnknownStart)
    else if goal !in view.nodes then r == Err(UnknownGoal)
    else
      && (r.Err? ==> r.error == SearchOverflow)
      && Answers(SearchQuery(profile, view.adjacency, start, goal, cutoff, targetChain, targetHeight), AnswerOf(r))
  }

  lemma SearchOutcomeUnique(profile: CostProfile, view: View, start: BlockKey, goal: BlockKey, cutoff: uint64,
                            targetChain: string, targetHeight: uint64, r1: Result<Option<Path>, SearchError>, r2: Result<Option<Path>, SearchError>)
    requires ValidProfile(profile)
    requires SearchOutcome(profile, view, start, goal, cutoff, targetChain, targetHeight, r1)
    requires SearchOutcome(profile, view, start, goal, cutoff, targetChain, targetHeight, r2)
    ensures r1 == r2
  {
    hide Answers;
    if start != goal && start in view.nodes && goal in view.nodes {
      AnswerUnique(SearchQuery(profile, view.adjacency, start, goal, cutoff, targetChain, targetHeight), AnswerOf(r1), AnswerOf(r2));
    }
  }

  function AnswerOf(r: Result<Option<Path>, SearchError>): Answer {
    match r
    case Err(_) => Overflow
    case Ok(None) => NotFound
    case Ok(Some(path)) => Found(path)
  }

  // ---------------------------------------------------------------------
  // Scratch arrays stand for label maps
  // ---------------------------------------------------------------------

  ghost predicate CoupledDistances(nodeIDs: map<BlockKey, nat>, distances: map<nat, uint64>, dist: map<BlockKey, uint64>) {
    && dist.Keys <= nodeIDs.Keys
    && forall k :: k in nodeIDs ==>
         && (k in dist <==> nodeIDs[k] in distances)
         && (k in dist ==> distances[nodeIDs[k]] == dist[k])
  }

  ghost predicate CoupledPredecessors(nodeIDs: map<BlockKey, nat>, predecessors: map<nat, nat>, pred: map<BlockKey, BlockKey>) {
    && pred.Keys <= nodeIDs.Keys
    && forall k :: k in nodeIDs ==>
         && (k in pred <==> nodeIDs[k] in predecessors)
         && (k in pred ==> pred[k] in nodeIDs && predecessors[nodeIDs[k]] == nodeIDs[pred[k]])
  }

  ghost predicate CoupledQueue(nodeIDs: map<BlockKey, nat>, queue: seq<QueueItem>, items: set<Item>) {
    && NoDuplicates(queue)
    && (forall item :: item in queue ==> item.key in nodeIDs && nodeIDs[item.key] == item.id && Item(item.key, item.cost) in items)
    && (forall item :: item in items ==> item.key in nodeIDs && QueueItem(nodeIDs[item.key], item.key, item.cost) in queue)
  }

  /** Two keys never share an ID. */
  lemma SameID(view: View, j: BlockKey, k: BlockKey)
    requires Identified(view.nodes, view.nodeIDs, view.nodeKeys) && j in view.nodeIDs && k in view.nodeIDs
    ensures view.nodeIDs[j] == view.nodeIDs[k] ==> j == k
  {
  }

  lemma KeyOfID(view: View, k: BlockKey)
    requires Identified(view.nodes, view.nodeIDs, view.nodeKeys) && k in view.nodeIDs
    ensures view.nodeIDs[k] < |view.nodeKeys| && view.nodeKeys[view.nodeIDs[k]] == k
  {
  }

  lemma CoupleDistance(view: View, distances: map<nat, uint64>, dist: map<BlockKey, uint64>, k: BlockKey, d: uint64)
    requires Identified(view.nodes, view.nodeIDs, view.nodeKeys) && k in view.nodeIDs
    requires CoupledDistances(view.nodeIDs, distances, dist)
    ensures CoupledDistances(view.nodeIDs, distances[view.nodeIDs[k] := d], dist[k := d])
  {
    forall j | j in view.nodeIDs ensures view.nodeIDs[j] == view.nodeIDs[k] ==> j == k {
      SameID(view, j, k);
    }
  }

  lemma CouplePredecessor(view: View, predecessors: map<nat, nat>, pred: map<BlockKey, BlockKey>, k: BlockKey, u: BlockKey)
    requires Identified(view.nodes, view.nodeIDs, view.nodeKeys) && k in view.nodeIDs && u in view.nodeIDs
    requires CoupledPredecessors(view.nodeIDs, predecessors, pred)
    ensures CoupledPredecessors(view.nodeIDs, predecessors[view.nodeIDs[k] := view.nodeIDs[u]], pred[k := u])
  {
    forall j | j in view.nodeIDs ensures view.nodeIDs[j] == view.nodeIDs[k] ==> j == k {
      SameID(view, j, k);
    }
  }

  lemma CouplePush(nodeIDs: map<BlockKey, nat>, queue: seq<QueueItem>, items: set<Item>, k: BlockKey, cost: uint64)
    requires CoupledQueue(nodeIDs, queue, items) && k in nodeIDs && Item(k, cost) !in items
    ensures CoupledQueue(nodeIDs, queue + [QueueItem(nodeIDs[k], k, cost)], items + {Item(k, cost)})
  {
  }

  lemma CouplePop(nodeIDs: map<BlockKey, nat>, queue: seq<QueueItem>, items: set<Item>, item: QueueItem, rest: seq<QueueItem>)
    requires CoupledQueue(nodeIDs, queue, items) && item in queue
    requires forall other :: other in queue ==> !ItemLess(other, item)
    requires NoDuplicates(rest) && Items(rest) == Items(queue) - {item}
    ensures CoupledQueue(nodeIDs, rest, items - {Item(item.key, item.cost)})
    ensures Least(items, Item(item.key, item.cost))
  {
    hide Precedes;
    forall other | other in rest ensures other in queue && other != item {
      assert other in Items(rest);
    }
    forall other | other in items && other != Item(item.key, item.cost)
      ensures QueueItem(nodeIDs[other.key], other.key, other.cost) in rest
    {
      var it := QueueItem(nodeIDs[other.key], other.key, other.cost);
      assert it in Items(queue) && it != item;
      assert it in Items(rest);
    }
    forall other | other in items ensures !Precedes(other.cost, other.key, item.cost, item.key) {
      var it := QueueItem(nodeIDs[other.key], other.key, other.cost);
      assert it in queue && !ItemLess(it, item);
    }
  }

  // ---------------------------------------------------------------------
  // The object
  // ---------------------------------------------------------------------

  class ReplayTrustView {
    const profile: CostProfile
    var heights: map<string, HeightIndex.OrderedHeightIndex>
    var adjacency: Adjacency
    var nodes: set<BlockKey>
    var nodeIDs: map<BlockKey, nat>
    var nodeKeys: seq<BlockKey>
    var edgeCount: int
    var crossEdgesAdded: uint64
    ghost var trees: map<string, Treap.Tree>
    ghost var owned: set<HeightIndex.HeightNode>

    ghost function State(): View
      reads this
    {
      View(trees, adjacency, nodes, nodeIDs, nodeKeys, edgeCount, crossEdgesAdded)
    }

    ghost predicate Valid()
      reads this
    {
      ValidProfile(profile) && Ready(State())
    }

    /** The chains' indexes hold the trees. */
    ghost predicate Owns()
      reads this, heights.Values, owned
    {
      Indexes(heights, trees, owned)
    }

    constructor (profile: CostProfile)
      requires ValidProfile(profile)
      ensures Valid() && State() == EMPTY_VIEW && this.profile == profile
      ensures Owns() && heights == map[] && owned == {}
    {
      this.profile := profile;
      heights, adjacency, nodes, nodeIDs, nodeKeys, edgeCount, crossEdgesAdded := map[], map[], {}, map[], [], 0, 0;
      trees, owned := map[], {};
      new;
      EmptyIsReady();
    }

    method SetEdgeLocked(from: BlockKey, to: BlockKey, edge: Edge)
      modifies this`adjacency, this`edgeCount
      ensures State() == SetEdge(old(State()), from, to, edge)
    {
      var neighbours := if from in adjacency then adjacency[from] else map[];
      if to !in neighbours {
        edgeCount := edgeCount + 1;
      }
      adjacency := adjacency[from := neighbours[to := edge]];
    }

    method DeleteEdgeLocked(from: BlockKey, to: BlockKey)
      modifies this`adjacency, this`edgeCount
      ensures State() == DeleteEdge(old(State()), from, to)
    {
      if from in adjacency && to in adjacency[from] {
        adjacency := adjacency[from := adjacency[from] - {to}];
        edgeCount := edgeCount - 1;
      }
    }

    /** The edges between two heights, queued before anything is changed. */
    method AppendPair(chain: string, lower: uint64, higher: uint64, pending: seq<(BlockKey, BlockKey, Edge)>)
      returns (r: Option<seq<(BlockKey, BlockKey, Edge)>>)
      requires lower < higher
      ensures r.None? <==> PairEdges(profile, lower, higher).None?
      ensures r.Some? ==>
                var edges := PairEdges(profile, lower, higher).value;
                var low, high := BlockKey(chain, lower), BlockKey(chain, higher);
                r.value == pending + [(low, high, edges.0), (high, low, edges.1)]
    {
      var delta := higher - lower;
      var up := CheckedCost(delta, profile.directStepCost);
      if up.Err? {
        return None;
      }
      var down := CheckedCost(delta, profile.pathStepCost);
      if down.Err? {
        return None;
      }
      var low, high := BlockKey(chain, lower), BlockKey(chain, higher);
      return Some(pending + [(low, high, Edge(IntraChainUp, up.value)), (high, low, Edge(IntraChainDown, down.value))]);
    }

    /** The chain's index, created empty if there is none. */
    method IndexFor(chain: string) returns (index: HeightIndex.OrderedHeightIndex)
      requires Owns()
      modifies this`heights
      ensures Owns() && chain in heights && index == heights[chain]
      ensures index.Valid() && index.Value() == IndexOf(trees, chain)
      ensures fresh(heights.Values - old(heights.Values))
    {
      hide Indexes;
      if chain in heights {
        IndexHolds(heights, trees, owned, chain);
        return heights[chain];
      }
      index := new HeightIndex.OrderedHeightIndex(HeightIndex.MixHeight);
      assert index !in heights.Values;
      EmptyIndexJoins(heights, trees, owned, chain, index);
      heights := heights[chain := index];
      forall x | x in heights.Values ensures x == index || x in old(heights.Values) {
      }
      IndexHolds(heights, trees, owned, chain);
    }

    /** Look the height up in its chain's index. */
    method Locate(key: BlockKey) returns (index: HeightIndex.OrderedHeightIndex, found: bool, predecessor: Option<uint64>, successor: Option<uint64>)
      requires Owns()
      modifies this`heights
      ensures Owns() && key.chain in heights && index == heights[key.chain] && fresh(heights.Values - old(heights.Values))
      ensures found == Treap.Contains(IndexOf(trees, key.chain), key.height)
      ensures (predecessor, successor) == Treap.NeighboursFrom(IndexOf(trees, key.chain), key.height, None, None)
    {
      hide Indexes, IndexOf, HeightIndex.HeightNode.Valid, HeightIndex.HeightNode.Value, Treap.Valid, Treap.Contains, Treap.NeighboursFrom;
      index := IndexFor(key.chain);
      found := index.Contains(key.height);
      predecessor, successor := index.Neighbours(key.height);
    }

    /** The edges to both neighbours, or None if a weight does not fit. */
    method PendingEdges(key: BlockKey, predecessor: Option<uint64>, successor: Option<uint64>)
      returns (r: Option<seq<(BlockKey, BlockKey, Edge)>>)
      requires predecessor.Some? ==> predecessor.value < key.height
      requires successor.Some? ==> key.height < successor.value
      ensures r.None? <==> || (predecessor.Some? && PairEdges(profile, predecessor.value, key.height).None?)
                           || (successor.Some? && PairEdges(profile, key.height, successor.value).None?)
      ensures r.Some? ==> r.value == PairsOf(profile, key, predecessor, successor)
    {
      hide PairEdges;
      var pending := [];
      if predecessor.Some? {
        var appended := AppendPair(key.chain, predecessor.value, key.height, pending);
        if appended.None? {
          return None;
        }
        pending := appended.value;
      }
      if successor.Some? {
        var appended := AppendPair(key.chain, key.height, successor.value, pending);
        if appended.None? {
          return None;
        }
        pending := appended.value;
      }
      return Some(pending);
    }

    method Activate(key: BlockKey) returns (r: Result<BlockKey, ViewError>)
      requires Valid() && Owns()
      modifies this, heights.Values, owned
      ensures Valid() && Owns() && fresh(heights.Values - old(heights.Values)) && fresh(owned - old(owned))
      ensures match TrustView.Activate(profile, old(State()), key)
              case Ok(view) => r == Ok(key) && State() == view
              case Err(error) => r == Err(error) && State() == old(State())
    {
      hide Ready, Treap.Contains, Treap.NeighboursFrom, PairEdges, SetEdge, SplitGap, AddNode, IndexOf, Owns, PairsOf, SetAll, TrustView.Activate;
      ghost var before := State();
      ActivateKnown(profile, before, key);
      if TrustView.Activate(profile, before, key).Ok? {
        ActivateKeepsReady(profile, before, key);
      }
      if key.chain == "" {
        return Err(EmptyChain);
      }
      var index, found, predecessor, successor := Locate(key);
      if found {
        return Ok(key);
      }
      ActivateSteps(profile, before, key, predecessor, successor);
      var pending := PendingEdges(key, predecessor, successor);
      if pending.None? {
        return Err(EdgeCostOverflow);
      }
      Splice(key, index, predecessor, successor, pending.value);
      return Ok(key);
    }

    /** The update proper: insert the node, drop the gap's edges, set the pending ones. */
    method Splice(key: BlockKey, index: HeightIndex.OrderedHeightIndex, predecessor: Option<uint64>, successor: Option<uint64>,
                  pending: seq<(BlockKey, BlockKey, Edge)>)
      requires Owns() && key.chain in heights && index == heights[key.chain]
      modifies this, index, owned
      ensures Owns() && heights == old(heights) && fresh(owned - old(owned))
      ensures State() == SetAll(SplitGap(AddNode(old(State()), key), key, predecessor, successor), pending)
    {
      hide SetAll, SplitGap, AddNode, Indexes;
      InsertNode(key, index);
      Rewire(key, predecessor, successor, pending);
    }

    /** The new node, before any edge is touched. */
    method InsertNode(key: BlockKey, index: HeightIndex.OrderedHeightIndex)
      requires Owns() && key.chain in heights && index == heights[key.chain]
      modifies this`nodes, this`nodeIDs, this`nodeKeys, this`trees, this`owned, index, owned
      ensures Owns() && fresh(owned - old(owned)) && State() == AddNode(old(State()), key)
    {
      hide Treap.Insert, HeightIndex.MixHeight, Indexes, IndexOf;
      trees, owned := InsertHeight(heights, trees, owned, index, key.chain, key.height);
      nodes := nodes + {key};
      nodeIDs := nodeIDs[key := |nodeKeys|];
      nodeKeys := nodeKeys + [key];
    }

    /** Drop the gap's edges, then set the pending ones. */
    method Rewire(key: BlockKey, predecessor: Option<uint64>, successor: Option<uint64>, pending: seq<(BlockKey, BlockKey, Edge)>)
      modifies this`adjacency, this`edgeCount
      ensures State() == SetAll(SplitGap(old(State()), key, predecessor, successor), pending)
    {
      hide SetEdge, DeleteEdge;
      if predecessor.Some? && successor.Some? {
        var low, high := BlockKey(key.chain, predecessor.value), BlockKey(key.chain, successor.value);
        DeleteEdgeLocked(low, high);
        DeleteEdgeLocked(high, low);
      }
      ghost var split := State();
      for i := 0 to |pending|
        invariant State() == SetAll(split, pending[..i])
      {
        assert pending[..i + 1][..i] == pending[..i];
        SetEdgeLocked(pending[i].0, pending[i].1, pending[i].2);
      }
      assert pending[..|pending|] == pending;
    }

    method AddVerifiedDependency(from: BlockKey, to: BlockKey) returns (r: Result<(), ViewError>)
      requires Valid() && Owns()
      modifies this, heights.Values, owned
      ensures Valid() && Owns() && fresh(heights.Values - old(heights.Values)) && fresh(owned - old(owned))
      ensures (State(), r) == match TrustView.AddVerifiedDependency(profile, old(State()), from, to)
                              case (view, None) => (view, Ok(()))
                              case (view, Some(error)) => (view, Err(error))
    {
      hide Ready, TrustView.Activate, Indexes, IndexOf;
      ghost var before := State();
      var first := Activate(from);
      if first.Err? {
        return Err(first.error);
      }
      var second := Activate(to);
      if second.Err? {
        return Err(second.error);
      }
      if crossEdgesAdded == MAX_UINT64 {
        return Err(CrossEdgeCounterOverflow);
      }
      SetEdgeLocked(from, to, Edge(VerifiedDependency, profile.pathStepCost));
      crossEdgesAdded := crossEdgesAdded + 1;
      DependencyKeepsReady(profile, before, from, to);
      return Ok(());
    }

    // -------------------------------------------------------------------
    // Search
    // -------------------------------------------------------------------

    /** The arrays stand for the labels, and the labels satisfy the search invariant. */
    ghost predicate Searching(scratch: SearchScratch, q: Query, s: Labels, u: BlockKey, remaining: set<BlockKey>)
      reads this, scratch
    {
      Labelling(scratch, q, s, u, remaining) && CoupledQueue(nodeIDs, scratch.queue, s.queue)
    }

    /** The same without the queue. */
    ghost predicate Labelling(scratch: SearchScratch, q: Query, s: Labels, u: BlockKey, remaining: set<BlockKey>)
      reads this, scratch
    {
      && Valid() && scratch.Valid() && |nodeKeys| <= |scratch.distances|
      && q.adj == adjacency
      && s.settled <= s.dist.Keys && s.dist.Keys <= nodeIDs.Keys
      && Invariant(q, s, u, remaining)
      && CoupledDistances(nodeIDs, scratch.Distances(), s.dist)
      && CoupledPredecessors(nodeIDs, scratch.Predecessors(), s.pred)
    }

    method NodeIDLocked(key: BlockKey) returns (r: Option<nat>)
      requires Valid()
      ensures r.Some? <==> key in nodes
      ensures r.Some? ==> key in nodeIDs && r.value == nodeIDs[key] < |nodeKeys|
    {
      if key !in nodeIDs {
        return None;
      }
      var id := nodeIDs[key];
      if id >= |nodeKeys| || nodeKeys[id] != key {
        assert false;
      }
      return Some(id);
    }

    /** Relax one edge of the block under expansion. */
    method RelaxNeighbour(scratch: SearchScratch, q: Query, ghost s: Labels, ghost remaining: set<BlockKey>, item: QueueItem, neighbour: BlockKey)
      returns (overflow: bool, ghost s': Labels)
      requires Searching(scratch, q, s, item.key, remaining) && Latest(s, item.key)
      requires NodeOK(q, item.key) && item.key in s.dist && s.dist[item.key] == item.cost && item.key in nodeIDs && nodeIDs[item.key] == item.id
      requires neighbour in remaining && HasEdge(adjacency, item.key, neighbour)
      modifies scratch
      ensures overflow <==> item.cost + EdgeOf(adjacency, item.key, neighbour).value.weight > MAX_UINT64
      ensures scratch.Valid()
      ensures !overflow ==>
                && Searching(scratch, q, s', item.key, remaining - {neighbour}) && Latest(s', item.key)
                && s'.settled == s.settled && item.key in s'.dist && s'.dist[item.key] == item.cost
    {
      hide Invariant, CoupledDistances, CoupledPredecessors, CoupledQueue, Ready, Latest;
      s' := s;
      assert neighbour in nodes by { EdgeEndsActive(State(), item.key, neighbour); }
      LabelsAreLabelled(q, s, item.key, remaining);
      var candidate := CheckedAdd(item.cost, adjacency[item.key][neighbour].weight);
      if candidate.Err? {
        return true, s';
      }
      overflow := false;
      if candidate.value > q.cutoff || !NodeOK(q, neighbour) {
        SkipEdge(q, s, item.key, remaining, neighbour);
        return;
      }
      var neighbourID := NodeIDLocked(neighbour);
      if neighbourID.None? {
        assert false;
      }
      var known := scratch.GetDistance(neighbourID.value);
      CoupledKnown(nodeIDs, scratch.Distances(), s.dist, neighbour);
      if known.Some? && candidate.value >= known.value {
        SkipEdge(q, s, item.key, remaining, neighbour);
        return;
      }
      s' := LabelNeighbour(scratch, q, s, remaining, item, neighbour, neighbourID.value, candidate.value);
    }

    /** Record a better label, its predecessor and its queue item. */
    method LabelNeighbour(scratch: SearchScratch, q: Query, ghost s: Labels, ghost remaining: set<BlockKey>, item: QueueItem,
                          neighbour: BlockKey, neighbourID: nat, candidate: uint64)
      returns (ghost s': Labels)
      requires Searching(scratch, q, s, item.key, remaining) && Latest(s, item.key)
      requires NodeOK(q, item.key) && item.key in s.dist && item.key in nodeIDs && nodeIDs[item.key] == item.id
      requires HasEdge(q.adj, item.key, neighbour) && Candidate(q, s, item.key, neighbour) == candidate && Improves(q, s, item.key, neighbour)
      requires neighbour in nodeIDs && nodeIDs[neighbour] == neighbourID < |nodeKeys|
      modifies scratch
      ensures scratch.Valid()
      ensures Searching(scratch, q, s', item.key, remaining - {neighbour}) && Latest(s', item.key)
      ensures s'.settled == s.settled && item.key in s'.dist && s'.dist[item.key] == s.dist[item.key]
    {
      hide Invariant, CoupledDistances, CoupledPredecessors, CoupledQueue, Ready, Latest, Improves, PositiveWeights;
      IdentifiedState(State());
      RelabelEdge(q, s, item.key, remaining, neighbour);
      ImprovedIsUnsettled(q, s, item.key, remaining, neighbour);
      s' := Relabel(q, s, item.key, neighbour);
      CoupleDistance(State(), scratch.Distances(), s.dist, neighbour, candidate);
      CouplePredecessor(State(), scratch.Predecessors(), s.pred, neighbour, item.key);
      CouplePush(nodeIDs, scratch.queue, s.queue, neighbour, candidate);
      scratch.SetDistance(neighbourID, candidate);
      scratch.SetPredecessor(neighbourID, item.id);
      scratch.queue := scratch.queue + [QueueItem(neighbourID, neighbour, candidate)];
    }

    /** Relax every edge of the popped block, in whatever order the map yields them. */
    method Expand(scratch: SearchScratch, q: Query, ghost s: Labels, item: QueueItem)
      returns (overflow: bool, ghost s': Labels)
      requires Searching(scratch, q, s, item.key, Neighbours(adjacency, item.key)) && Latest(s, item.key)
      requires NodeOK(q, item.key) && item.key in s.dist && s.dist[item.key] == item.cost && item.key in nodeIDs && nodeIDs[item.key] == item.id
      modifies scratch
      ensures scratch.Valid()
      ensures overflow ==> exists v :: HasEdge(adjacency, item.key, v) && item.cost + EdgeOf(adjacency, item.key, v).value.weight > MAX_UINT64
      ensures !overflow ==> Searching(scratch, q, s', item.key, {}) && s'.settled == s.settled
    {
      hide Invariant, CoupledDistances, CoupledPredecessors, CoupledQueue, Ready, Latest;
      s' := s;
      var remaining := Neighbours(adjacency, item.key);
      while remaining != {}
        invariant remaining <= Neighbours(adjacency, item.key)
        invariant Searching(scratch, q, s', item.key, remaining) && Latest(s', item.key)
        invariant s'.settled == s.settled && item.key in s'.dist && s'.dist[item.key] == item.cost
        decreases remaining
      {
        var neighbour :| neighbour in remaining;
        overflow, s' := RelaxNeighbour(scratch, q, s', remaining, item, neighbour);
        if overflow {
          return;
        }
        remaining := remaining - {neighbour};
      }
      overflow := false;
    }

    /** Walk the predecessors back to the start; labels fall at every step, so the walk ends. */
    method WalkBack(scratch: SearchScratch, q: Query, ghost s: Labels, ghost u: BlockKey, startID: nat, item: QueueItem)
      returns (walk: seq<BlockKey>)
      requires Labelling(scratch, q, s, u, {}) && q.start in nodeIDs && nodeIDs[q.start] == startID
      requires item.key in nodeIDs && nodeIDs[item.key] == item.id && item.key in s.dist
      ensures walk != [] && walk[0] == item.key && walk[|walk| - 1] == q.start
      ensures forall i :: 0 <= i < |walk| - 1 ==> walk[i] in s.pred && s.pred[walk[i]] == walk[i + 1]
    {
      hide Invariant, CoupledDistances, CoupledPredecessors, CoupledQueue, Ready, Labelled, PositiveWeights, Identified;
      IdentifiedState(State());
      KeyOfID(State(), item.key);
      KeyOfID(State(), q.start);
      LabelsAreLabelled(q, s, u, {});
      walk := [nodeKeys[item.id]];
      var current: nat := item.id;
      while current != startID
        invariant current < |nodeKeys| && nodeKeys[current] in s.dist
        invariant walk != [] && walk[0] == item.key && walk[|walk| - 1] == nodeKeys[current]
        invariant forall i :: 0 <= i < |walk| - 1 ==> walk[i] in s.pred && s.pred[walk[i]] == walk[i + 1]
        decreases s.dist[nodeKeys[current]]
      {
        PredecessorKnown(State(), q, s, scratch.Predecessors(), current, startID);
        var prior := scratch.GetPredecessor(current);
        if prior.None? {
          assert false;
        }
        walk := walk + [nodeKeys[prior.value]];
        current := prior.value;
      }
    }

    method SegmentsAlong(walk: seq<BlockKey>) returns (segments: seq<Segment>)
      requires IsWalk(adjacency, walk)
      ensures SegmentsOf(adjacency, walk, segments)
    {
      segments := [];
      for index := 0 to |walk| - 1
        invariant |segments| == index
        invariant forall i :: 0 <= i < index ==> EdgeSegment(adjacency, walk[i], walk[i + 1]) == Some(segments[i])
      {
        assert HasEdge(adjacency, walk[index], walk[index + 1]);
        var edge := adjacency[walk[index]][walk[index + 1]];
        segments := segments + [Segment(walk[index], walk[index + 1], edge.kind, edge.weight)];
      }
    }

    method ReconstructPath(scratch: SearchScratch, q: Query, ghost s: Labels, ghost u: BlockKey, startID: nat, item: QueueItem)
      returns (path: Path)
      requires Labelling(scratch, q, s, u, {}) && q.start in nodeIDs && nodeIDs[q.start] == startID
      requires item.key in nodeIDs && nodeIDs[item.key] == item.id && item.key in s.dist
      ensures path.cost == item.cost && PredecessorWalk(q, s, path.nodes, item.key)
      ensures SegmentsOf(adjacency, path.nodes, path.segments)
    {
      hide Invariant, CoupledDistances, CoupledPredecessors, CoupledQueue, Ready, Labelled;
      LabelsAreLabelled(q, s, u, {});
      var back := WalkBack(scratch, q, s, u, startID, item);
      var walk := Reverse(back);
      forall i | 0 < i < |walk| ensures walk[i] in s.pred && s.pred[walk[i]] == walk[i - 1] {
        var j := |walk| - 1 - i;
        assert back[j] in s.pred && s.pred[back[j]] == back[j + 1];
      }
      PredecessorWalkWeight(q, s, walk, item.key);
      var segments := SegmentsAlong(walk);
      path := Path(item.cost, walk, segments);
    }

    method ShortestPath(start: BlockKey, goal: BlockKey, cutoff: uint64, targetChain: string, targetHeight: uint64, scratch: SearchScratch)
      returns (r: Result<Option<Path>, SearchError>)
      requires Valid() && scratch.Valid()
      modifies scratch
      ensures scratch.Valid()
      ensures SearchOutcome(profile, State(), start, goal, cutoff, targetChain, targetHeight, r)
    {
      if start == goal {
        return Ok(Some(Path(0, [start], [])));
      }
      scratch.Begin(|nodeKeys|);
      var startID := NodeIDLocked(start);
      if startID.None? {
        return Err(UnknownStart);
      }
      var goalID := NodeIDLocked(goal);
      if goalID.None? {
        return Err(UnknownGoal);
      }
      var q := SearchQuery(profile, adjacency, start, goal, cutoff, targetChain, targetHeight);
      r := Search(scratch, q, startID.value, goalID.value);
    }

    /** Pop the least item; it is current if its cost is still the block's label. */
    method PopItem(scratch: SearchScratch, q: Query, ghost s: Labels, ghost u: BlockKey) returns (item: QueueItem, current: bool)
      requires Searching(scratch, q, s, u, {}) && scratch.queue != []
      modifies scratch`queue
      ensures Labelling(scratch, q, s, u, {}) && |scratch.queue| == |old(scratch.queue)| - 1
      ensures CoupledQueue(nodeIDs, scratch.queue, s.queue - {Item(item.key, item.cost)})
      ensures Least(s.queue, Item(item.key, item.cost)) && Item(item.key, item.cost) in s.queue
      ensures item.key in s.dist && nodeIDs[item.key] == item.id
      ensures current <==> s.dist[item.key] == item.cost
      ensures current ==> item.key !in s.settled
    {
      hide Invariant, CoupledDistances, CoupledPredecessors, CoupledQueue, Ready, Least, NoDuplicates;
      var rest;
      item, rest := PopLeast(scratch.queue);
      PoppedFacts(State(), q, s, u, scratch.Distances(), scratch.queue, item, rest);
      scratch.queue := rest;
      var known := scratch.GetDistance(item.id);
      current := known.Some? && known.value == item.cost;
    }

    /** One round of the search loop. */
    method Visit(scratch: SearchScratch, q: Query, startID: nat, goalID: nat, ghost s: Labels, ghost u: BlockKey)
      returns (r: Option<Result<Option<Path>, SearchError>>, ghost s': Labels, ghost u': BlockKey)
      requires Searching(scratch, q, s, u, {}) && scratch.queue != []
      requires q.start != q.goal && q.start in nodeIDs && nodeIDs[q.start] == startID && q.goal in nodeIDs && nodeIDs[q.goal] == goalID
      modifies scratch
      ensures scratch.Valid()
      ensures r.Some? ==> Answers(q, AnswerOf(r.value)) && (r.value.Err? ==> r.value.error == SearchOverflow)
      ensures r.None? ==> Searching(scratch, q, s', u', {})
      ensures r.None? ==> s'.settled > s.settled || (s'.settled == s.settled && |scratch.queue| < |old(scratch.queue)|)
    {
      hide Invariant, CoupledDistances, CoupledPredecessors, CoupledQueue, Ready, Latest, Answers, Least, PositiveWeights, Identified, Labelled;
      s', u' := s, u;
      IdentifiedState(State());
      var item, current := PopItem(scratch, q, s, u);
      ghost var popped := Item(item.key, item.cost);
      if !current {
        DropStale(q, s, u, popped);
        s' := s.(queue := s.queue - {popped});
        return None, s', u';
      }
      if item.cost > q.cutoff {
        BeyondCutoff(q, s, u, popped);
        return Some(Ok(None)), s', u';
      }
      if !NodeOK(q, item.key) {
        FilteredIsStart(q, s, u, popped);
        SettleLeast(q, s, u, popped, {});
        s', u' := Settle(s, popped), item.key;
        return None, s', u';
      }
      if item.id == goalID {
        SameID(State(), item.key, q.goal);
        var path := ReconstructPath(scratch, q, s, u, startID, item);
        FoundAnswers(q, s, u, popped, path);
        return Some(Ok(Some(path))), s', u';
      }
      SettleLeast(q, s, u, popped, Neighbours(adjacency, item.key));
      s', u' := Settle(s, popped), item.key;
      var overflow;
      overflow, s' := Expand(scratch, q, s', item);
      if overflow {
        ghost var v :| HasEdge(adjacency, item.key, v) && item.cost + EdgeOf(adjacency, item.key, v).value.weight > MAX_UINT64;
        OverflowAnswers(q, s, u, popped, v);
        return Some(Err(SearchOverflow)), s', u';
      }
      return None, s', u';
    }

    method Search(scratch: SearchScratch, q: Query, startID: nat, goalID: nat) returns (r: Result<Option<Path>, SearchError>)
      requires Valid() && scratch.Valid() && |nodeKeys| <= |scratch.distances| && q.adj == adjacency
      requires scratch.Distances() == map[] && scratch.Predecessors() == map[] && scratch.queue == []
      requires q.start != q.goal && q.start in nodeIDs && nodeIDs[q.start] == startID && q.goal in nodeIDs && nodeIDs[q.goal] == goalID
      modifies scratch
      ensures scratch.Valid()
      ensures Answers(q, AnswerOf(r)) && (r.Err? ==> r.error == SearchOverflow)
    {
      hide Invariant, CoupledDistances, CoupledPredecessors, CoupledQueue, Ready, Answers, PositiveWeights, Identified;
      ghost var s, u := InitialLabels(q), q.start;
      InitialInvariant(q, u);
      IdentifiedState(State());
      KeyOfID(State(), q.start);
      StartCoupled(State(), q, scratch.Distances(), scratch.Predecessors());
      scratch.SetDistance(startID, 0);
      scratch.queue := [QueueItem(startID, q.start, 0)];
      while |scratch.queue| > 0
        invariant Searching(scratch, q, s, u, {})
        decreases nodeIDs.Keys - s.settled, |scratch.queue|
      {
        var visited;
        visited, s, u := Visit(scratch, q, startID, goalID, s, u);
        if visited.Some? {
          return visited.value;
        }
      }
      NothingLeft(nodeIDs, scratch.queue, q, s, u);
      return Ok(None);
    }
  }

  function Neighbours(adj: Adjacency, u: BlockKey): set<BlockKey> {
    if u in adj then adj[u].Keys else {}
  }

  method Reverse(nodes: seq<BlockKey>) returns (r: seq<BlockKey>)
    ensures |r| == |nodes| && forall i :: 0 <= i < |nodes| ==> r[i] == nodes[|nodes| - 1 - i]
  {
    r := nodes;
    var left, right := 0, |nodes| - 1;
    while left < right
      invariant |r| == |nodes| && 0 <= left <= right + 1 && left + right == |nodes| - 1
      invariant forall i :: 0 <= i < left || right < i < |nodes| ==> r[i] == nodes[|nodes| - 1 - i]
      invariant forall i :: left <= i <= right ==> 0 <= i < |nodes| && r[i] == nodes[i]
    {
      r := r[left := r[right]][right := r[left]];
      left, right := left + 1, right - 1;
    }
  }

  lemma StartCoupled(view: View, q: Query, distances: map<nat, uint64>, predecessors: map<nat, nat>)
    requires Identified(view.nodes, view.nodeIDs, view.nodeKeys) && q.start in view.nodeIDs
    requires distances == map[] && predecessors == map[]
    ensures CoupledDistances(view.nodeIDs, distances[view.nodeIDs[q.start] := 0], InitialLabels(q).dist)
    ensures CoupledPredecessors(view.nodeIDs, predecessors, InitialLabels(q).pred)
    ensures CoupledQueue(view.nodeIDs, [QueueItem(view.nodeIDs[q.start], q.start, 0)], InitialLabels(q).queue)
  {
    assert CoupledDistances(view.nodeIDs, distances, map[]);
    CoupleDistance(view, distances, map[], q.start, 0);
  }

  /** What popping an item says about the labels. */
  lemma PoppedFacts(view: View, q: Query, s: Labels, u: BlockKey, distances: map<nat, uint64>, queue: seq<QueueItem>, item: QueueItem, rest: seq<QueueItem>)
    requires Invariant(q, s, u, {}) && CoupledDistances(view.nodeIDs, distances, s.dist) && CoupledQueue(view.nodeIDs, queue, s.queue)
    requires item in queue && forall other :: other in queue ==> !ItemLess(other, item)
    requires NoDuplicates(queue) ==> NoDuplicates(rest) && Items(rest) == Items(queue) - {item}
    ensures var popped := Item(item.key, item.cost);
            && Least(s.queue, popped) && popped in s.queue
            && CoupledQueue(view.nodeIDs, rest, s.queue - {popped})
            && item.key in view.nodeIDs && view.nodeIDs[item.key] == item.id
            && item.key in s.dist && item.id in distances && distances[item.id] == s.dist[item.key]
            && s.settled <= s.dist.Keys && s.dist.Keys <= view.nodeIDs.Keys
            && (s.dist[item.key] == item.cost ==> item.key !in s.settled)
  {
    CouplePop(view.nodeIDs, queue, s.queue, item, rest);
  }

  /** A labelled block other than the start has a recorded predecessor with a smaller label. */
  lemma PredecessorKnown(view: View, q: Query, s: Labels, predecessors: map<nat, nat>, current: nat, startID: nat)
    requires Identified(view.nodes, view.nodeIDs, view.nodeKeys) && PositiveWeights(q.adj) && Labelled(q, s)
    requires CoupledPredecessors(view.nodeIDs, predecessors, s.pred)
    requires q.start in view.nodeIDs && view.nodeIDs[q.start] == startID != current
    requires current < |view.nodeKeys| && view.nodeKeys[current] in s.dist
    ensures var key := view.nodeKeys[current];
            && key in s.pred && s.pred[key] in s.dist && s.dist[s.pred[key]] < s.dist[key]
            && current in predecessors && predecessors[current] < |view.nodeKeys|
            && view.nodeKeys[predecessors[current]] == s.pred[key]
  {
    var key := view.nodeKeys[current];
    assert key in view.nodeIDs && view.nodeIDs[key] == current;
    assert key in s.pred;
    assert HasEdge(q.adj, s.pred[key], key);
  }

  lemma BeyondCutoff(q: Query, s: Labels, u: BlockKey, popped: Item)
    requires PositiveWeights(q.adj) && Invariant(q, s, u, {}) && Least(s.queue, popped)
    requires popped.key in s.dist && s.dist[popped.key] == popped.cost > q.cutoff
    ensures Answers(q, NotFound)
  {
    PoppedIsLeast(q, s, u, popped);
    NotFoundAnswers(q, s, u);
  }

  lemma FilteredIsStart(q: Query, s: Labels, u: BlockKey, popped: Item)
    requires Invariant(q, s, u, {}) && popped.key in s.dist && !NodeOK(q, popped.key)
    ensures popped.key == q.start
  {
  }

  lemma NothingLeft(nodeIDs: map<BlockKey, nat>, queue: seq<QueueItem>, q: Query, s: Labels, u: BlockKey)
    requires PositiveWeights(q.adj) && Invariant(q, s, u, {}) && CoupledQueue(nodeIDs, queue, s.queue) && |queue| == 0
    ensures Answers(q, NotFound)
  {
    NotFoundAnswers(q, s, u);
  }

  lemma EdgeEndsActive(view: View, u: BlockKey, v: BlockKey)
    requires Ready(view) && HasEdge(view.adjacency, u, v)
    ensures u in view.nodes && v in view.nodes
  {
  }

  lemma LabelsAreLabelled(q: Query, s: Labels, u: BlockKey, remaining: set<BlockKey>)
    requires Invariant(q, s, u, remaining)
    ensures Labelled(q, s) && s.settled <= s.dist.Keys
  {
  }

  lemma IdentifiedState(view: View)
    requires Ready(view)
    ensures Identified(view.nodes, view.nodeIDs, view.nodeKeys) && PositiveWeights(view.adjacency)
  {
  }

  lemma CoupledKnown(nodeIDs: map<BlockKey, nat>, distances: map<nat, uint64>, dist: map<BlockKey, uint64>, k: BlockKey)
    requires CoupledDistances(nodeIDs, distances, dist) && k in nodeIDs
    ensures k in dist <==> nodeIDs[k] in distances
    ensures k in dist ==> distances[nodeIDs[k]] == dist[k]
  {
  }

  ghost function SetAll(view: View, pending: seq<(BlockKey, BlockKey, Edge)>): View {
    if pending == [] then view
    else
      var last := pending[|pending| - 1];
      SetEdge(SetAll(view, pending[..|pending| - 1]), last.0, last.1, last.2)
  }

  /** The pending list holds no, one or two pairs. */
  lemma SetAllPairs(view: View, pending: seq<(BlockKey, BlockKey, Edge)>)
    ensures pending == [] ==> SetAll(view, pending) == view
    ensures |pending| == 2 ==>
              SetAll(view, pending) == SetEdge(SetEdge(view, pending[0].0, pending[0].1, pending[0].2),
                                               pending[1].0, pending[1].1, pending[1].2)
    ensures |pending| == 4 ==>
              SetAll(view, pending)
              == SetEdge(SetEdge(SetEdge(SetEdge(view, pending[0].0, pending[0].1, pending[0].2),
                                         pending[1].0, pending[1].1, pending[1].2),
                                 pending[2].0, pending[2].1, pending[2].2),
                         pending[3].0, pending[3].1, pending[3].2)
  {
    hide SetEdge;
    if |pending| == 2 {
      assert pending[..1][..0] == [];
      assert SetAll(view, pending[..1]) == SetEdge(view, pending[0].0, pending[0].1, pending[0].2);
    } else if |pending| == 4 {
      assert pending[..3][..2] == pending[..2] && pending[..2][..1] == pending[..1] && pending[..1][..0] == [];
      assert SetAll(view, pending[..1]) == SetEdge(view, pending[0].0, pending[0].1, pending[0].2);
      assert SetAll(view, pending[..2]) == SetEdge(SetAll(view, pending[..1]), pending[1].0, pending[1].1, pending[1].2);
      assert SetAll(view, pending[..3]) == SetEdge(SetAll(view, pending[..2]), pending[2].0, pending[2].1, pending[2].2);
    }
  }

  /** The edges between two heights, low to high first; none if a weight does not fit. */
  ghost function PairOf(profile: CostProfile, chain: string, lower: uint64, higher: uint64): seq<(BlockKey, BlockKey, Edge)> {
    if lower < higher && PairEdges(profile, lower, higher).Some? then
      var edges := PairEdges(profile, lower, higher).value;
      var low, high := BlockKey(chain, lower), BlockKey(chain, higher);
      [(low, high, edges.0), (high, low, edges.1)]
    else []
  }

  ghost function PairsOf(profile: CostProfile, key: BlockKey, predecessor: Option<uint64>, successor: Option<uint64>): seq<(BlockKey, BlockKey, Edge)> {
    (if predecessor.Some? then PairOf(profile, key.chain, predecessor.value, key.height) else [])
    + (if successor.Some? then PairOf(profile, key.chain, key.height, successor.value) else [])
  }

  /** Activation as the object performs it: one pending list, set edge by edge. */
  lemma ActivateSteps(profile: CostProfile, view: View, key: BlockKey, predecessor: Option<uint64>, successor: Option<uint64>)
    requires key.chain != "" && !Treap.Contains(IndexOf(view.heights, key.chain), key.height)
    requires (predecessor, successor) == Treap.NeighboursFrom(IndexOf(view.heights, key.chain), key.height, None, None)
    ensures TrustView.Activate(profile, view, key)
         == if || (predecessor.Some? && PairEdges(profile, predecessor.value, key.height).None?)
               || (successor.Some? && PairEdges(profile, key.height, successor.value).None?)
            then Err(EdgeCostOverflow)
            else Ok(SetAll(SplitGap(AddNode(view, key), key, predecessor, successor), PairsOf(profile, key, predecessor, successor)))
  {
    hide Treap.Contains, Treap.NeighboursFrom, PairEdges, SetEdge, SplitGap, AddNode, IndexOf, SetAll;
    SetAllPairs(SplitGap(AddNode(view, key), key, predecessor, successor), PairsOf(profile, key, predecessor, successor));
  }
}
