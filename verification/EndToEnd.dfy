/** From indexed dependencies over the planner to an accepted proof. */
module EndToEnd {
  import opened Base
  import opened TrustGraph
  import opened PlannerSpec
  import opened PlannerSearch
  import opened Planner
  import opened PathProof
  import IndexerStore
  import CanonicalCursor
  import Merkle

  /** The material is the indexed dependency of its edge. */
  ghost predicate FromIndex(t: IndexerStore.Tables, material: Material) {
    && material.edge.id in t.edges
    && t.edges[material.edge.id] == IndexerStore.Dependency(material.edge, material.membership, material.fromNode, material.toNode)
  }

  function DepthOf(material: Material): nat {
    |material.membership.siblings|
  }

  lemma IndexedMaterialFolds(config: IndexerStore.Config, t: IndexerStore.Tables, applied: seq<CanonicalCursor.BlockRef>, material: Material)
    requires IndexerStore.Consistent(config, t, applied) && FromIndex(t, material)
    ensures MaterialFolds(config.h, material, DepthOf(material))
    ensures material.edge.witnessID == Some(material.membership.id) && material.membership.evidenceID == material.edge.evidenceID
    ensures material.membership.leafIndex == material.edge.leafIndex
    ensures material.membership.id == config.ids.witnessID(material.membership.evidenceID, material.membership.leafIndex, material.membership.siblings)
    ensures material.fromNode.id == material.edge.from && material.toNode.id == material.edge.to
  {
    hide Merkle.Fold;
    var d := t.edges[material.edge.id];
    assert IndexerStore.Bound(config, d) && IndexerStore.Folds(config, d);
  }

  /** The material row stored for a hop of the plan, over nodes and edges of the snapshot. */
  ghost predicate StoredHop(store: Store, plan: Plan, snapshot: Snapshot, i: nat, material: Material)
    requires i < |plan.hops|
  {
    && Stored(store, plan, snapshot, i, material)
    && material.planID == plan.id && material.snapshotID == snapshot.id && material.planHopIndex == i
    && FindEdge(snapshot.edges, plan.hops[i]) == Some(material.edge)
    && FindNode(snapshot.nodes, material.edge.from) == Some(material.fromNode)
    && FindNode(snapshot.nodes, material.edge.to) == Some(material.toNode)
  }

  /** A path the planner decided on over the stored edges, with its rows and a build request for it. */
  ghost predicate PlannedPath(config: IndexerStore.Config, t: IndexerStore.Tables, store: Store, request: PlanRequest, snapshot: Snapshot,
                              profile: Option<DirectProfile>, plan: Plan, materials: seq<Material>, build: BuildRequest) {
    && Decides(config.ids, request, snapshot, profile, Ok(plan)) && plan.kind == PathPlan
    && plan.id in store.plans && store.plans[plan.id] == plan
    && snapshot.id in store.snapshots && store.snapshots[snapshot.id] == snapshot
    && build.planID == plan.id && build.expectedHomeTrustRoot == snapshot.homeTrustRoot
    && FindNode(snapshot.nodes, snapshot.targetNodeID).Some?
    && build.sourceBlockHash == FindNode(snapshot.nodes, snapshot.targetNodeID).value.blockHash
    && |materials| == |plan.hops|
    && forall i :: 0 <= i < |materials| ==> FromIndex(t, materials[i]) && StoredHop(store, plan, snapshot, i, materials[i])
  }

  /** Every path the planner chooses over stored dependencies, recorded or remote and of any
      length, is accepted by the builder and hence by the path verifier against the home
      root, exactly when all its witnesses have the builder's depth. */
  lemma IndexedPlansAreProvable(config: IndexerStore.Config, t: IndexerStore.Tables, applied: seq<CanonicalCursor.BlockRef>,
                                store: Store, request: PlanRequest, snapshot: Snapshot, profile: Option<DirectProfile>, plan: Plan,
                                materials: seq<Material>, build: BuildRequest)
    requires IndexerStore.Consistent(config, t, applied)
    requires PlannedPath(config, t, store, request, snapshot, profile, plan, materials, build)
    ensures Buildable(config.h, config.ids, store, build, config.merkleDepth, materials)
            <==> forall i :: 0 <= i < |materials| ==> DepthOf(materials[i]) == config.merkleDepth
  {
    hide Decides, MaterialFolds, IndexerStore.Consistent, FindNode, FindEdge, Buildable;
    var depth := config.merkleDepth;
    forall i | 0 <= i < |materials|
      ensures HopMaterial(config.ids, store, plan, snapshot, i, materials[i]) && MaterialFolds(config.h, materials[i], DepthOf(materials[i]))
    {
      assert FromIndex(t, materials[i]) && StoredHop(store, plan, snapshot, i, materials[i]);
      IndexedMaterialFolds(config, t, applied, materials[i]);
    }
    if forall i :: 0 <= i < |materials| ==> DepthOf(materials[i]) == depth {
      PathPlansHaveHops(config.ids, request, snapshot, profile, plan);
      FoldingDepth(config.h, materials[0]);
      PlannedPathsAreBuildable(config.h, config.ids, store, request, snapshot, profile, plan, materials, build, depth);
    }
    if Buildable(config.h, config.ids, store, build, depth, materials) {
      BuildableDepths(config.h, config.ids, store, build, depth, materials);
    }
  }

  lemma PathPlansHaveHops(ids: ContentIDs, request: PlanRequest, snapshot: Snapshot, profile: Option<DirectProfile>, plan: Plan)
    requires Decides(ids, request, snapshot, profile, Ok(plan)) && plan.kind == PathPlan
    ensures plan.hops != []
  {
    hide LeastTo, Reaches, Rejection, OneStepCost, FittingWalk, Cost;
  }

  lemma FoldingDepth(h: Merkle.PairHash, material: Material)
    requires MaterialFolds(h, material, DepthOf(material))
    ensures Merkle.ValidDepth(DepthOf(material))
  {
  }

  lemma BuildableDepths(h: Merkle.PairHash, ids: ContentIDs, store: Store, build: BuildRequest, depth: nat, materials: seq<Material>)
    requires Buildable(h, ids, store, build, depth, materials)
    ensures forall i :: 0 <= i < |materials| ==> DepthOf(materials[i]) == depth
  {
    hide FindNode, FindEdge, Linked, Merkle.PathRoot;
    var witnesses := ReversedWitnesses(materials);
    forall i | 0 <= i < |materials| ensures DepthOf(materials[i]) == depth {
      var w := witnesses[|materials| - 1 - i];
      assert w in witnesses && w.siblings == materials[i].membership.siblings;
    }
  }

  /** When every remote deployment has the home depth, every planned path is provable. */
  lemma EqualDepthsAreProvable(config: IndexerStore.Config, t: IndexerStore.Tables, applied: seq<CanonicalCursor.BlockRef>,
                               store: Store, request: PlanRequest, snapshot: Snapshot, profile: Option<DirectProfile>, plan: Plan,
                               materials: seq<Material>, build: BuildRequest)
    requires IndexerStore.Consistent(config, t, applied)
    requires forall id :: id in t.remote && id in t.edges ==> |t.edges[id].membership.siblings| == config.merkleDepth
    requires PlannedPath(config, t, store, request, snapshot, profile, plan, materials, build)
    ensures Buildable(config.h, config.ids, store, build, config.merkleDepth, materials)
  {
    hide Decides, FindNode, FindEdge, Buildable, IndexerStore.EdgesFold, IndexerStore.CursorAt;
    forall i | 0 <= i < |materials| ensures DepthOf(materials[i]) == config.merkleDepth {
      var id := materials[i].edge.id;
      assert FromIndex(t, materials[i]);
      if id !in t.remote {
        assert IndexerStore.Recorded(config, t.edges[id], applied);
      }
    }
    IndexedPlansAreProvable(config, t, applied, store, request, snapshot, profile, plan, materials, build);
  }
}
