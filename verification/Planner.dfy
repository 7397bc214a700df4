/** The live planner's decision over one sealed snapshot. */
module Planner {
  import opened Base
  import opened TrustGraph
  import opened PlannerSpec
  import opened PlannerSearch
  import opened PathProof
  import Merkle

  datatype PlanRequest = PlanRequest(id: Word, attempt: uint64, snapshotID: Word, homeChainID: Word)

  datatype DirectProfile = DirectProfile(calibrated: bool, directCost: uint64)

  datatype PlanError =
    | SnapshotUnsealed
    | SnapshotEndpoint
    | InvalidSnapshot
    | SnapshotStale
    | InconsistentPathStepCost
    | Search(error: SearchError)

  // ---------------------------------------------------------------------
  // The snapshot
  // ---------------------------------------------------------------------

  predicate ValidNode(ids: ContentIDs, node: TrustNode) {
    && node.chainID != 0 && node.blockHash != 0 && node.id != 0
    && node.id == ids.node(node.chainID, node.height, node.blockHash)
  }

  predicate ValidEdge(ids: ContentIDs, edge: TrustEdge) {
    && edge.from != 0 && edge.to != 0 && edge.from != edge.to && edge.evidenceID != 0 && edge.pathStepCost != 0
    && edge.id == ids.edge(edge.from, edge.to, edge.evidenceID, edge.leafIndex)
  }

  /** What rebuilding the view accepts without dropping a duplicate. */
  predicate ValidView(ids: ContentIDs, nodes: seq<TrustNode>, edges: seq<TrustEdge>) {
    && (forall i :: 0 <= i < |nodes| ==> ValidNode(ids, nodes[i]))
    && (forall i, j :: 0 <= i < j < |nodes| ==> nodes[i].id != nodes[j].id)
    && (forall i :: 0 <= i < |edges| ==>
          && ValidEdge(ids, edges[i])
          && FindNode(nodes, edges[i].from).Some? && FindNode(nodes, edges[i].to).Some?
          && FindNode(nodes, edges[i].from).value.chainID != FindNode(nodes, edges[i].to).value.chainID)
    && (forall i, j :: 0 <= i < j < |edges| ==> edges[i].id != edges[j].id)
  }

  /** The checks before any planning. */
  function Rejection(ids: ContentIDs, request: PlanRequest, snapshot: Snapshot): (r: Option<PlanError>)
    ensures r.Some? ==> !r.value.Search?
  {
    if !snapshot.isSealed then Some(SnapshotUnsealed)
    else if snapshot.id != request.snapshotID || snapshot.homeChainID != request.homeChainID then Some(SnapshotEndpoint)
    else if ids.snapshot(request.id, request.attempt, snapshot.revision, snapshot.startNodeID, snapshot.targetNodeID, snapshot.homeTrustRoot)
            != snapshot.id then Some(SnapshotEndpoint)
    else if snapshot.startNodeID == snapshot.targetNodeID then Some(SnapshotEndpoint)
    else if FindNode(snapshot.nodes, snapshot.startNodeID).None? || FindNode(snapshot.nodes, snapshot.targetNodeID).None? then Some(SnapshotEndpoint)
    else if !ValidView(ids, snapshot.nodes, snapshot.edges) then Some(InvalidSnapshot)
    else if FindNode(snapshot.nodes, snapshot.startNodeID).value.chainID != request.homeChainID then Some(SnapshotEndpoint)
    else if FindNode(snapshot.nodes, snapshot.startNodeID).value.root != snapshot.homeTrustRoot then Some(SnapshotStale)
    else None
  }

  lemma AdmittedIsValid(ids: ContentIDs, request: PlanRequest, snapshot: Snapshot)
    requires Rejection(ids, request, snapshot).None?
    ensures ValidView(ids, snapshot.nodes, snapshot.edges) && snapshot.startNodeID != snapshot.targetNodeID && snapshot.isSealed
    ensures FindNode(snapshot.nodes, snapshot.startNodeID).Some?
    ensures FindNode(snapshot.nodes, snapshot.startNodeID).value.root == snapshot.homeTrustRoot
  {
  }

  lemma ValidViewHasUniqueIDs(ids: ContentIDs, nodes: seq<TrustNode>, edges: seq<TrustEdge>)
    requires ValidView(ids, nodes, edges)
    ensures UniqueIDs(EdgeSet(edges))
    ensures forall e :: e in edges ==> FindEdge(edges, e.id) == Some(e)
  {
    forall e, f | e in edges && f in edges && e.id == f.id ensures e == f {
      var i :| 0 <= i < |edges| && edges[i] == e;
      var j :| 0 <= j < |edges| && edges[j] == f;
    }
    forall e | e in edges ensures FindEdge(edges, e.id) == Some(e) {
      var found := FindEdge(edges, e.id);
      assert found.Some? && found.value in edges && found.value.id == e.id;
    }
  }

  // ---------------------------------------------------------------------
  // Costs
  // ---------------------------------------------------------------------

  ghost predicate OneStepCost(edges: seq<TrustEdge>, step: uint64) {
    (edges == [] ==> step == 0) && (edges != [] ==> step != 0) && forall e :: e in edges ==> e.pathStepCost == step
  }

  method TrustedPathStepCost(edges: seq<TrustEdge>) returns (r: Result<uint64, PlanError>)
    ensures r.Ok? ==> OneStepCost(edges, r.value)
    ensures r.Err? ==> r.error == InconsistentPathStepCost && forall step :: !OneStepCost(edges, step)
  {
    if |edges| == 0 {
      return Ok(0);
    }
    var cost := edges[0].pathStepCost;
    if cost == 0 {
      return Err(InconsistentPathStepCost);
    }
    for i := 1 to |edges|
      invariant forall k :: 0 <= k < i ==> edges[k].pathStepCost == cost
    {
      if edges[i].pathStepCost != cost {
        assert edges[0] in edges && edges[i] in edges;
        return Err(InconsistentPathStepCost);
      }
    }
    return Ok(cost);
  }

  function HopIDs(path: seq<TrustEdge>): (hops: seq<Word>)
    ensures |hops| == |path| && forall i :: 0 <= i < |path| ==> hops[i] == path[i].id
  {
    seq(|path|, i requires 0 <= i < |path| => path[i].id)
  }

  // ---------------------------------------------------------------------
  // The decision
  // ---------------------------------------------------------------------

  function BasePlan(request: PlanRequest, snapshot: Snapshot): Plan {
    Plan(0, request.id, request.attempt, snapshot.id, DirectPlan, snapshot.startNodeID, snapshot.targetNodeID, [], 0, None, None, NoFallback)
  }

  function Fallback(base: Plan, directCost: Option<uint64>, reason: FallbackReason): Plan {
    base.(directCost := directCost, fallback := reason)
  }

  /** A least path is taken unless it costs more than verifying directly or a hop has no witness. */
  predicate Takes(path: seq<TrustEdge>, cost: uint64, directCost: uint64) {
    cost <= directCost && forall i :: 0 <= i < |path| ==> path[i].witnessID.Some?
  }

  function WithPath(base: Plan, path: seq<TrustEdge>, step: uint64, cost: uint64, directCost: uint64): Plan {
    base.(hops := HopIDs(path), pathStepCost := step, pathCost := Some(cost), directCost := Some(directCost),
          kind := if Takes(path, cost, directCost) then PathPlan else DirectPlan,
          fallback := if cost > directCost then PathCostExceedsDirect
                      else if Takes(path, cost, directCost) then NoFallback
                      else ProofMaterialMissing)
  }

  /** The decision in terms of walks: which plan, and when there is none. */
  ghost predicate Decides(ids: ContentIDs, request: PlanRequest, snapshot: Snapshot, profile: Option<DirectProfile>, r: Result<Plan, PlanError>) {
    var edges, start, target := EdgeSet(snapshot.edges), snapshot.startNodeID, snapshot.targetNodeID;
    var base := BasePlan(request, snapshot);
    if Rejection(ids, request, snapshot).Some? then r == Err(Rejection(ids, request, snapshot).value)
    else if profile.None? || !profile.value.calibrated then r == Ok(Identified(ids, Fallback(base, None, UncalibratedProfile)))
    else if forall step :: !OneStepCost(snapshot.edges, step) then r == Err(InconsistentPathStepCost)
    else if !Reaches(edges, start, target) then r == Ok(Identified(ids, Fallback(base, Some(profile.value.directCost), NoPath)))
    else if forall q :: !FittingWalk(edges, q, start, target) then r == Err(Search(PathCostOverflow))
    else exists path, step: uint64, cost: uint64 :: PlansPath(ids, request, snapshot, profile.value.directCost, path, step, cost, r)
  }

  function Identified(ids: ContentIDs, plan: Plan): Plan {
    plan.(id := ComputePlanID(ids, plan))
  }

  /** The plan along the one least path: its cost is hops times the step cost. */
  ghost predicate PlansPath(ids: ContentIDs, request: PlanRequest, snapshot: Snapshot, directCost: uint64,
                            path: seq<TrustEdge>, step: uint64, cost: uint64, r: Result<Plan, PlanError>)
  {
    && OneStepCost(snapshot.edges, step) && step != 0 && path != []
    && LeastTo(EdgeSet(snapshot.edges), snapshot.startNodeID, path, snapshot.targetNodeID)
    && cost == |path| * step == Cost(path)
    && r == Ok(Identified(ids, WithPath(BasePlan(request, snapshot), path, step, cost, directCost)))
  }

  method MakePlan(ids: ContentIDs, request: PlanRequest, snapshot: Snapshot, profile: Option<DirectProfile>) returns (r: Result<Plan, PlanError>)
    ensures Decides(ids, request, snapshot, profile, r)
    ensures r != Err(Search(Disappeared))
  {
    hide LeastTo, FittingWalk, Reaches, Rejection, Walk, UniqueIDs, PlansPath, OneStepCost;
    var rejection := Rejection(ids, request, snapshot);
    if rejection.Some? {
      return Err(rejection.value);
    }
    var base := BasePlan(request, snapshot);
    if profile.None? || !profile.value.calibrated {
      return Ok(Identified(ids, Fallback(base, None, UncalibratedProfile)));
    }
    var directCost := profile.value.directCost;
    var step := TrustedPathStepCost(snapshot.edges);
    if step.Err? {
      return Err(step.error);
    }
    var adjacency, reachable := DirectedReachability(snapshot.edges, snapshot.startNodeID, snapshot.targetNodeID);
    if !reachable {
      return Ok(Identified(ids, Fallback(base, Some(directCost), NoPath)));
    }
    AdmittedIsValid(ids, request, snapshot);
    ValidViewHasUniqueIDs(ids, snapshot.nodes, snapshot.edges);
    ghost var edges := EdgeSet(snapshot.edges);
    var found := ShortestPath(edges, snapshot.startNodeID, snapshot.targetNodeID, adjacency);
    SearchMeans(edges, snapshot.startNodeID, snapshot.targetNodeID, found);
    if found.Err? {
      return Err(Search(found.error));
    }
    r := PlanPath(ids, request, snapshot, found.value, step.value, directCost);
  }

  /** The plan along the least path, and its cost. */
  method PlanPath(ids: ContentIDs, request: PlanRequest, snapshot: Snapshot, path: seq<TrustEdge>, step: uint64, directCost: uint64)
    returns (r: Result<Plan, PlanError>)
    requires OneStepCost(snapshot.edges, step) && snapshot.startNodeID != snapshot.targetNodeID
    requires LeastTo(EdgeSet(snapshot.edges), snapshot.startNodeID, path, snapshot.targetNodeID)
    ensures r.Ok? && exists cost: uint64 :: PlansPath(ids, request, snapshot, directCost, path, step, cost, r)
  {
    hide LeastTo, Cost, WithPath, OneStepCost;
    LeastFits(EdgeSet(snapshot.edges), snapshot.startNodeID, path, snapshot.targetNodeID);
    StepDividesPath(snapshot.edges, snapshot.startNodeID, snapshot.targetNodeID, path, step);
    if |path| > MAX_UINT64 / step {
      return Err(Search(PathCostOverflow));
    }
    var cost: uint64 := |path| * step;
    var plan := ChoosePath(BasePlan(request, snapshot), path, step, cost, directCost);
    r := Ok(Identified(ids, plan));
    assert PlansPath(ids, request, snapshot, directCost, path, step, cost, r);
  }

  lemma LeastFits(edges: set<TrustEdge>, start: Word, p: seq<TrustEdge>, node: Word)
    requires LeastTo(edges, start, p, node)
    ensures FittingWalk(edges, p, start, node)
  {
  }

  /** The last branches: too expensive, a witness missing, or the path itself. */
  method ChoosePath(base: Plan, path: seq<TrustEdge>, step: uint64, cost: uint64, directCost: uint64) returns (plan: Plan)
    requires base.fallback == NoFallback
    ensures plan == WithPath(base, path, step, cost, directCost)
  {
    plan := base.(hops := HopIDs(path), pathStepCost := step, pathCost := Some(cost), directCost := Some(directCost));
    if cost > directCost {
      return plan.(kind := DirectPlan, fallback := PathCostExceedsDirect);
    }
    for i := 0 to |path|
      invariant forall k :: 0 <= k < i ==> path[k].witnessID.Some?
    {
      if path[i].witnessID.None? {
        return plan.(kind := DirectPlan, fallback := ProofMaterialMissing);
      }
    }
    return plan.(kind := PathPlan);
  }

  lemma SearchMeans(edges: set<TrustEdge>, start: Word, target: Word, found: Result<seq<TrustEdge>, SearchError>)
    requires SearchResult(edges, start, target, found) && Reaches(edges, start, target)
    ensures found != Err(Disappeared)
    ensures found.Ok? ==> LeastTo(edges, start, found.value, target) && FittingWalk(edges, found.value, start, target)
    ensures found.Err? ==> forall q :: !FittingWalk(edges, q, start, target)
  {
    hide Walk;
    var p :| Walk(edges, p, start, target);
  }

  /** A fitting path over edges of one step cost: no division by zero and no second overflow. */
  lemma StepDividesPath(edges: seq<TrustEdge>, start: Word, target: Word, path: seq<TrustEdge>, step: uint64)
    requires OneStepCost(edges, step) && FittingWalk(EdgeSet(edges), path, start, target) && start != target
    ensures path != [] && step != 0 && Cost(path) == |path| * step && |path| <= MAX_UINT64 / step
  {
    if path == [] {
      WalkEmpty(EdgeSet(edges), start, target);
    }
    assert path[0] in EdgeSet(edges);
    UniformCost(path, step);
    QuotientBound(|path|, step);
  }

  lemma QuotientBound(count: nat, step: nat)
    requires step != 0 && count * step <= MAX_UINT64
    ensures count <= MAX_UINT64 / step
  {
    var q := MAX_UINT64 / step;
    assert MAX_UINT64 < (q + 1) * step;
    assert count >= q + 1 ==> count * step >= (q + 1) * step;
  }

  // ---------------------------------------------------------------------
  // From plan to proof
  // ---------------------------------------------------------------------

  /** The stored material of one hop: its edge, end nodes and witness as the snapshot has them. */
  ghost predicate HopMaterial(ids: ContentIDs, store: Store, plan: Plan, snapshot: Snapshot, i: nat, material: Material)
    requires i < |plan.hops|
  {
    && Stored(store, plan, snapshot, i, material)
    && material.planID == plan.id && material.snapshotID == snapshot.id && material.planHopIndex == i
    && FindEdge(snapshot.edges, plan.hops[i]) == Some(material.edge)
    && FindNode(snapshot.nodes, material.edge.from) == Some(material.fromNode)
    && FindNode(snapshot.nodes, material.edge.to) == Some(material.toNode)
    && material.membership.evidenceID == material.edge.evidenceID && material.membership.leafIndex == material.edge.leafIndex
    && material.edge.witnessID == Some(material.membership.id)
    && material.membership.id == ids.witnessID(material.membership.evidenceID, material.membership.leafIndex, material.membership.siblings)
  }

  lemma {:induction false} JoinedMeets(p: seq<TrustEdge>, start: Word, node: Word, i: nat)
    requires Joined(p, start, node) && i < |p|
    ensures p[i].from == (if i == 0 then start else p[i - 1].to)
    ensures p[|p| - 1].to == node
    decreases |p|
  {
    if i < |p| - 1 {
      JoinedMeets(p[..|p| - 1], start, p[|p| - 1].from, i);
    } else if i > 0 {
      JoinedMeets(p[..|p| - 1], start, p[|p| - 1].from, i - 1);
    }
  }

  /** Whatever path the planner decides on, the proof builder accepts it, provided
      every edge of the snapshot folds the way the indexer demands. */
  lemma PlannedPathsAreBuildable(h: Merkle.PairHash, ids: ContentIDs, store: Store, request: PlanRequest, snapshot: Snapshot,
                                 profile: Option<DirectProfile>, plan: Plan, materials: seq<Material>, build: BuildRequest, depth: nat)
    requires Decides(ids, request, snapshot, profile, Ok(plan)) && plan.kind == PathPlan
    requires plan.id in store.plans && store.plans[plan.id] == plan
    requires snapshot.id in store.snapshots && store.snapshots[snapshot.id] == snapshot
    requires build.planID == plan.id && build.expectedHomeTrustRoot == snapshot.homeTrustRoot
    requires FindNode(snapshot.nodes, snapshot.targetNodeID).Some?
    requires build.sourceBlockHash == FindNode(snapshot.nodes, snapshot.targetNodeID).value.blockHash
    requires Merkle.ValidDepth(depth) && |materials| == |plan.hops|
    requires forall i :: 0 <= i < |materials| ==> HopMaterial(ids, store, plan, snapshot, i, materials[i]) && MaterialFolds(h, materials[i], depth)
    ensures Buildable(h, ids, store, build, depth, materials)
  {
    hide LeastTo, Reaches, Rejection, ValidView, Cost, MaterialFolds, Merkle.AcceptsPath, Linked, ValidMaterial;
    AdmittedIsValid(ids, request, snapshot);
    var path, step: uint64, cost: uint64 :| PlansPath(ids, request, snapshot, profile.value.directCost, path, step, cost, Ok(plan));
    LeastIsWalk(EdgeSet(snapshot.edges), snapshot.startNodeID, path, snapshot.targetNodeID);
    ValidViewHasUniqueIDs(ids, snapshot.nodes, snapshot.edges);
    assert plan.hops == HopIDs(path);
    MaterialsLink(ids, store, plan, snapshot, path, materials);
    FoldingPlansAreBuildable(h, ids, store, build, depth, materials);
  }

  lemma LeastIsWalk(edges: set<TrustEdge>, start: Word, p: seq<TrustEdge>, node: Word)
    requires LeastTo(edges, start, p, node)
    ensures Walk(edges, p, start, node)
  {
  }

  lemma MaterialsLink(ids: ContentIDs, store: Store, plan: Plan, snapshot: Snapshot, path: seq<TrustEdge>, materials: seq<Material>)
    requires Walk(EdgeSet(snapshot.edges), path, snapshot.startNodeID, snapshot.targetNodeID) && path != []
    requires forall e :: e in snapshot.edges ==> FindEdge(snapshot.edges, e.id) == Some(e)
    requires |materials| == |plan.hops| && plan.hops == HopIDs(path)
    requires forall i :: 0 <= i < |materials| ==> HopMaterial(ids, store, plan, snapshot, i, materials[i])
    ensures CompleteChain(ids, store, plan, snapshot, materials)
  {
    hide Joined, FindEdge, FindNode, HopMaterial, ValidMaterial, Stored, HopIDs;
    forall i | 0 <= i < |materials|
      ensures Stored(store, plan, snapshot, i, materials[i])
      ensures ValidMaterial(ids, plan, snapshot, i, plan.hops[i], LinkedFrom(snapshot, materials, i), materials[i])
      ensures OnPath(path, materials, i)
    {
      HopLinks(ids, store, plan, snapshot, path, materials, i);
    }
    JoinedMeets(path, snapshot.startNodeID, snapshot.targetNodeID, 0);
    assert OnPath(path, materials, |materials| - 1);
  }

  lemma HopLinks(ids: ContentIDs, store: Store, plan: Plan, snapshot: Snapshot, path: seq<TrustEdge>, materials: seq<Material>, i: nat)
    requires Walk(EdgeSet(snapshot.edges), path, snapshot.startNodeID, snapshot.targetNodeID)
    requires forall e :: e in snapshot.edges ==> FindEdge(snapshot.edges, e.id) == Some(e)
    requires |materials| == |plan.hops| && plan.hops == HopIDs(path) && i < |materials|
    requires forall k :: 0 <= k < |materials| ==> HopMaterial(ids, store, plan, snapshot, k, materials[k])
    ensures Stored(store, plan, snapshot, i, materials[i]) && OnPath(path, materials, i)
    ensures ValidMaterial(ids, plan, snapshot, i, plan.hops[i], LinkedFrom(snapshot, materials, i), materials[i])
  {
    hide Joined, FindEdge, FindNode, HopMaterial, ValidMaterial, Stored;
    JoinedMeets(path, snapshot.startNodeID, snapshot.targetNodeID, i);
    assert path[i] in EdgeSet(snapshot.edges);
    HopIsOnPath(ids, store, plan, snapshot, path, materials, i);
    if i > 0 {
      assert path[i - 1] in EdgeSet(snapshot.edges);
      HopIsOnPath(ids, store, plan, snapshot, path, materials, i - 1);
    }
    HopIsValid(ids, store, plan, snapshot, i, LinkedFrom(snapshot, materials, i), materials[i]);
  }

  /** The material of a hop is about that edge of the path. */
  ghost predicate OnPath(path: seq<TrustEdge>, materials: seq<Material>, i: nat) {
    i < |path| && i < |materials| && materials[i].edge == path[i] && materials[i].fromNode.id == path[i].from && materials[i].toNode.id == path[i].to
  }

  lemma HopIsOnPath(ids: ContentIDs, store: Store, plan: Plan, snapshot: Snapshot, path: seq<TrustEdge>, materials: seq<Material>, i: nat)
    requires |materials| == |plan.hops| == |path| && i < |path| && plan.hops[i] == path[i].id
    requires path[i] in snapshot.edges && FindEdge(snapshot.edges, path[i].id) == Some(path[i])
    requires HopMaterial(ids, store, plan, snapshot, i, materials[i])
    ensures OnPath(path, materials, i)
  {
    hide FindEdge, FindNode;
  }

  lemma HopIsValid(ids: ContentIDs, store: Store, plan: Plan, snapshot: Snapshot, i: nat, from: Word, material: Material)
    requires i < |plan.hops| && HopMaterial(ids, store, plan, snapshot, i, material) && material.edge.from == from
    ensures Stored(store, plan, snapshot, i, material) && ValidMaterial(ids, plan, snapshot, i, plan.hops[i], from, material)
  {
    hide FindEdge, FindNode;
  }
}
