/**
 Plans of every length over stored dependencies exist: a line of chains, the
 first hop recorded by the home indexer and all others activated remotely.
 */
module PathInstances {
  import opened Base
  import opened TrustGraph
  import opened PlannerSpec
  import opened PlannerSearch
  import opened Planner
  import opened PathProof
  import opened EndToEnd
  import IndexerStore
  import CanonicalCursor
  import Merkle

  /** IDs that are enough to keep apart the nodes and edges of a line. */
  const LINE_IDS: ContentIDs :=
    ContentIDs(_ => 1, (_, _, _) => 1, (chain, _, _) => chain, (from, _, _, _) => from, (_, _, _, _, _, _) => 1)

  const HOME_HASH: Word := 8

  /** The home hop has depth one, the others `remoteDepth`. */
  function Siblings(remoteDepth: nat, i: nat): seq<Word> {
    seq(if i == 0 then 1 else remoteDepth, _ => 0)
  }

  /** The trust root of the node before hop `i`: the last one is zero, every other folds to the next. */
  ghost function RootAt(h: Merkle.PairHash, hops: nat, remoteDepth: nat, i: nat): Word
    requires i <= hops
    decreases hops - i
  {
    if i == hops then 0
    else Merkle.Fold(h, h(RootAt(h, hops, remoteDepth, i + 1), HOME_HASH), 0, Siblings(remoteDepth, i))
  }

  /** Node `i` is block 1 of chain `i + 1`. */
  ghost function NodeAt(h: Merkle.PairHash, hops: nat, remoteDepth: nat, i: nat): TrustNode
    requires i <= hops < MAX_UINT64
  {
    TrustNode(i + 1, i + 1, 1, HOME_HASH, RootAt(h, hops, remoteDepth, i), 0)
  }

  ghost function EdgeAt(i: nat): TrustEdge
    requires i < MAX_UINT64 - 1
  {
    TrustEdge(i + 1, i + 1, i + 2, i + 1, 0, Some(1), 1)
  }

  ghost function WitnessAt(remoteDepth: nat, i: nat): MembershipWitness
    requires i < MAX_UINT64
  {
    MembershipWitness(1, i + 1, 0, Siblings(remoteDepth, i))
  }

  ghost function DependencyAt(h: Merkle.PairHash, hops: nat, remoteDepth: nat, i: nat): IndexerStore.Dependency
    requires i < hops < MAX_UINT64 - 1
  {
    IndexerStore.Dependency(EdgeAt(i), WitnessAt(remoteDepth, i), NodeAt(h, hops, remoteDepth, i), NodeAt(h, hops, remoteDepth, i + 1))
  }

  ghost function LineConfig(h: Merkle.PairHash): IndexerStore.Config {
    IndexerStore.Config(h, LINE_IDS, 1, 0, 1, 1)
  }

  const LINE_BLOCKS: seq<CanonicalCursor.BlockRef> := [CanonicalCursor.BlockRef(0, 7, 0), CanonicalCursor.BlockRef(1, HOME_HASH, 7)]

  /** The edge IDs of a line. */
  ghost function LineIDs(hops: nat): (ids: set<Word>)
    requires hops < MAX_UINT64
    ensures forall id :: id in ids <==> 0 < id <= hops
  {
    if hops == 0 then {} else LineIDs(hops - 1) + {hops}
  }

  /** One row per hop; all but the first came from remote validation. */
  ghost function LineTables(h: Merkle.PairHash, hops: nat, remoteDepth: nat): IndexerStore.Tables
    requires 0 < hops < MAX_UINT64 - 1
  {
    IndexerStore.Tables(Some(CanonicalCursor.Cursor(1, 1, HOME_HASH, CanonicalCursor.Healthy)), false, map[],
                        map id | id in LineIDs(hops) :: DependencyAt(h, hops, remoteDepth, id - 1), LineIDs(hops) - {1}, hops)
  }

  lemma LineFolds(h: Merkle.PairHash, hops: nat, remoteDepth: nat, i: nat)
    requires i < hops < MAX_UINT64 - 1 && Merkle.ValidDepth(remoteDepth)
    ensures IndexerStore.Folds(LineConfig(h), DependencyAt(h, hops, remoteDepth, i)) && IndexerStore.Bound(LineConfig(h), DependencyAt(h, hops, remoteDepth, i))
  {
    hide Merkle.Fold;
  }

  lemma LineIsConsistent(h: Merkle.PairHash, hops: nat, remoteDepth: nat)
    requires 0 < hops < MAX_UINT64 - 1 && Merkle.ValidDepth(remoteDepth) && RootAt(h, hops, remoteDepth, 0) != 0
    ensures IndexerStore.Consistent(LineConfig(h), LineTables(h, hops, remoteDepth), LINE_BLOCKS)
  {
    hide IndexerStore.Folds, IndexerStore.Bound, RootAt;
    var config, t, applied := LineConfig(h), LineTables(h, hops, remoteDepth), LINE_BLOCKS;
    forall id | id in t.edges ensures t.edges[id].edge.id == id && IndexerStore.Bound(config, t.edges[id]) && IndexerStore.Folds(config, t.edges[id]) {
      LineFolds(h, hops, remoteDepth, id - 1);
    }
    forall id | id in t.edges && id !in t.remote ensures IndexerStore.Recorded(config, t.edges[id], applied) {
      assert id == 1;
      assert IndexerStore.RecordedBy(config, applied[1].height, applied[1].hash, t.edges[id]);
    }
  }

  // ---------------------------------------------------------------------
  // The plan
  // ---------------------------------------------------------------------

  ghost function LineNodes(h: Merkle.PairHash, hops: nat, remoteDepth: nat): seq<TrustNode>
    requires hops < MAX_UINT64 - 1
  {
    seq(hops + 1, i requires 0 <= i <= hops => NodeAt(h, hops, remoteDepth, i))
  }

  ghost function LineEdges(hops: nat): seq<TrustEdge>
    requires hops < MAX_UINT64 - 1
  {
    seq(hops, i requires 0 <= i < hops => EdgeAt(i))
  }

  ghost function LineSnapshot(h: Merkle.PairHash, hops: nat, remoteDepth: nat): Snapshot
    requires hops < MAX_UINT64 - 1
  {
    Snapshot(1, 0, 1, RootAt(h, hops, remoteDepth, 0), 1, hops + 1, true, LineNodes(h, hops, remoteDepth), LineEdges(hops))
  }

  const LINE_REQUEST: PlanRequest := PlanRequest(1, 0, 1, 1)
  const LINE_PROFILE: Option<DirectProfile> := Some(DirectProfile(true, MAX_UINT64))

  ghost function LinePlan(h: Merkle.PairHash, hops: nat, remoteDepth: nat): Plan
    requires hops < MAX_UINT64 - 1
  {
    Identified(LINE_IDS, WithPath(BasePlan(LINE_REQUEST, LineSnapshot(h, hops, remoteDepth)), LineEdges(hops), 1, hops, MAX_UINT64))
  }

  lemma LineNodeFound(h: Merkle.PairHash, hops: nat, remoteDepth: nat, i: nat)
    requires i <= hops < MAX_UINT64 - 1
    ensures FindNode(LineNodes(h, hops, remoteDepth), i + 1) == Some(NodeAt(h, hops, remoteDepth, i))
  {
    hide RootAt;
    var nodes := LineNodes(h, hops, remoteDepth);
    assert nodes[i] in nodes && nodes[i].id == i + 1;
    var found := FindNode(nodes, i + 1);
    assert found.Some?;
    var k :| 0 <= k < |nodes| && nodes[k] == found.value;
    assert nodes[k].id == k + 1;
  }

  lemma LineEdgeFound(hops: nat, i: nat)
    requires i < hops < MAX_UINT64 - 1
    ensures FindEdge(LineEdges(hops), i + 1) == Some(EdgeAt(i))
  {
    var edges := LineEdges(hops);
    assert edges[i] in edges && edges[i].id == i + 1;
    var found := FindEdge(edges, i + 1);
    assert found.Some?;
    var k :| 0 <= k < |edges| && edges[k] == found.value;
    assert edges[k].id == k + 1;
  }

  lemma LineNodesAreValid(h: Merkle.PairHash, hops: nat, remoteDepth: nat)
    requires hops < MAX_UINT64 - 1
    ensures var nodes := LineNodes(h, hops, remoteDepth);
            |nodes| == hops + 1 && forall i :: 0 <= i < |nodes| ==> ValidNode(LINE_IDS, nodes[i]) && nodes[i].id == nodes[i].chainID == i + 1
  {
    hide RootAt;
  }

  lemma LineEdgesAreValid(hops: nat)
    requires hops < MAX_UINT64 - 1
    ensures var edges := LineEdges(hops);
            && |edges| == hops
            && forall i :: 0 <= i < |edges| ==> ValidEdge(LINE_IDS, edges[i]) && edges[i].id == edges[i].from == i + 1 && edges[i].to == i + 2
  {
  }

  lemma LineViewIsValid(h: Merkle.PairHash, hops: nat, remoteDepth: nat)
    requires hops < MAX_UINT64 - 1
    ensures ValidView(LINE_IDS, LineNodes(h, hops, remoteDepth), LineEdges(hops))
  {
    hide FindNode, LineNodes, LineEdges, ValidNode, ValidEdge;
    var nodes, edges := LineNodes(h, hops, remoteDepth), LineEdges(hops);
    LineNodesAreValid(h, hops, remoteDepth);
    LineEdgesAreValid(hops);
    forall i | 0 <= i < |edges|
      ensures FindNode(nodes, edges[i].from).Some? && FindNode(nodes, edges[i].to).Some?
      ensures FindNode(nodes, edges[i].from).value.chainID != FindNode(nodes, edges[i].to).value.chainID
    {
      LineNodeFound(h, hops, remoteDepth, i);
      LineNodeFound(h, hops, remoteDepth, i + 1);
    }
  }

  lemma LineIsAdmitted(h: Merkle.PairHash, hops: nat, remoteDepth: nat)
    requires 0 < hops < MAX_UINT64 - 1
    ensures Rejection(LINE_IDS, LINE_REQUEST, LineSnapshot(h, hops, remoteDepth)).None?
  {
    hide RootAt, FindNode, ValidView, LineNodes, LineEdges;
    LineViewIsValid(h, hops, remoteDepth);
    LineNodeFound(h, hops, remoteDepth, 0);
    LineNodeFound(h, hops, remoteDepth, hops);
  }

  /** The first `j` edges of the line are a walk, and the only one to their end. */
  lemma {:induction false} LineWalk(hops: nat, j: nat)
    requires j <= hops < MAX_UINT64 - 1
    ensures Walk(EdgeSet(LineEdges(hops)), LineEdges(hops)[..j], 1, j + 1) && Cost(LineEdges(hops)[..j]) == j
  {
    var edges := LineEdges(hops);
    if j == 0 {
      assert edges[..0] == [];
    } else {
      LineWalk(hops, j - 1);
      assert edges[j - 1] in edges;
      WalkSnoc(EdgeSet(edges), edges[..j - 1], 1, edges[j - 1]);
      assert edges[..j] == edges[..j - 1] + [edges[j - 1]];
    }
  }

  lemma {:induction false} OnlyLineWalk(hops: nat, p: seq<TrustEdge>, j: nat)
    requires j <= hops < MAX_UINT64 - 1 && Walk(EdgeSet(LineEdges(hops)), p, 1, j + 1)
    ensures p == LineEdges(hops)[..j]
  {
    var edges := LineEdges(hops);
    if p != [] {
      WalkFront(EdgeSet(edges), p, 1, j + 1);
      var k :| 0 <= k < |edges| && edges[k] == p[|p| - 1];
      assert k == j - 1;
      OnlyLineWalk(hops, p[..|p| - 1], j - 1);
      assert edges[..j] == edges[..j - 1] + [edges[j - 1]];
    }
  }

  lemma LineIsLeast(hops: nat)
    requires hops < MAX_UINT64 - 1
    ensures LeastTo(EdgeSet(LineEdges(hops)), 1, LineEdges(hops), hops + 1) && Cost(LineEdges(hops)) == hops
    ensures Reaches(EdgeSet(LineEdges(hops)), 1, hops + 1)
  {
    hide Walk, Cost;
    var edges := LineEdges(hops);
    LineWalk(hops, hops);
    assert edges[..hops] == edges;
    forall q | FittingWalk(EdgeSet(edges), q, 1, hops + 1) ensures PathLeq(edges, q) {
      OnlyLineWalk(hops, q, hops);
    }
  }

  lemma LineIsPlanned(h: Merkle.PairHash, hops: nat, remoteDepth: nat)
    requires 0 < hops < MAX_UINT64 - 1
    ensures Decides(LINE_IDS, LINE_REQUEST, LineSnapshot(h, hops, remoteDepth), LINE_PROFILE, Ok(LinePlan(h, hops, remoteDepth)))
    ensures LinePlan(h, hops, remoteDepth).kind == PathPlan && LinePlan(h, hops, remoteDepth).id == 1
    ensures LinePlan(h, hops, remoteDepth).hops == HopIDs(LineEdges(hops))
  {
    hide RootAt, Rejection, LeastTo, Reaches, Cost, LineNodes;
    LineIsAdmitted(h, hops, remoteDepth);
    LineIsLeast(hops);
    var edges := LineEdges(hops);
    LeastFits(EdgeSet(edges), 1, edges, hops + 1);
    assert OneStepCost(edges, 1) by { assert edges[0] in edges; }
    assert PlansPath(LINE_IDS, LINE_REQUEST, LineSnapshot(h, hops, remoteDepth), MAX_UINT64, edges, 1, hops, Ok(LinePlan(h, hops, remoteDepth)));
  }

  // ---------------------------------------------------------------------
  // The rows
  // ---------------------------------------------------------------------

  ghost function MaterialAt(h: Merkle.PairHash, hops: nat, remoteDepth: nat, i: nat): Material
    requires i < hops < MAX_UINT64 - 1
  {
    Material(1, 1, i, EdgeAt(i), NodeAt(h, hops, remoteDepth, i), NodeAt(h, hops, remoteDepth, i + 1), WitnessAt(remoteDepth, i))
  }

  ghost function LineMaterials(h: Merkle.PairHash, hops: nat, remoteDepth: nat): seq<Material>
    requires hops < MAX_UINT64 - 1
  {
    seq(hops, i requires 0 <= i < hops => MaterialAt(h, hops, remoteDepth, i))
  }

  function MaterialKey(i: nat): (Word, Word, nat, Word)
    requires i < MAX_UINT64
  {
    (1, 1, i, i + 1)
  }

  ghost function LineStore(h: Merkle.PairHash, hops: nat, remoteDepth: nat): Store
    requires hops < MAX_UINT64 - 1
  {
    Store(map[1 := LinePlan(h, hops, remoteDepth)], map[1 := LineSnapshot(h, hops, remoteDepth)],
          map id | id in LineIDs(hops) :: MaterialKey(id - 1) := MaterialAt(h, hops, remoteDepth, id - 1))
  }

  /** For every hash, number of hops and remote depth there is such a plan; its proof is accepted
      exactly when it has one hop or the remote depth is the home depth. */
  lemma PlansOfEveryLength(h: Merkle.PairHash, hops: nat, remoteDepth: nat)
    requires 0 < hops < MAX_UINT64 - 1 && Merkle.ValidDepth(remoteDepth) && RootAt(h, hops, remoteDepth, 0) != 0
    ensures var config, t := LineConfig(h), LineTables(h, hops, remoteDepth);
            var materials, build := LineMaterials(h, hops, remoteDepth), BuildRequest(1, HOME_HASH, RootAt(h, hops, remoteDepth, 0));
            && IndexerStore.Consistent(config, t, LINE_BLOCKS) && |materials| == hops
            && PlannedPath(config, t, LineStore(h, hops, remoteDepth), LINE_REQUEST, LineSnapshot(h, hops, remoteDepth), LINE_PROFILE,
                           LinePlan(h, hops, remoteDepth), materials, build)
            && (Buildable(h, LINE_IDS, LineStore(h, hops, remoteDepth), build, 1, materials) <==> hops == 1 || remoteDepth == 1)
  {
    hide RootAt, Decides, FindNode, FindEdge, Buildable, IndexerStore.Consistent, LineNodes, LineEdges, LineTables, LineStore, LinePlan, FromIndex, StoredHop;
    var config, t, store := LineConfig(h), LineTables(h, hops, remoteDepth), LineStore(h, hops, remoteDepth);
    var snapshot, plan, materials := LineSnapshot(h, hops, remoteDepth), LinePlan(h, hops, remoteDepth), LineMaterials(h, hops, remoteDepth);
    var build := BuildRequest(1, HOME_HASH, RootAt(h, hops, remoteDepth, 0));
    LineIsConsistent(h, hops, remoteDepth);
    LineIsPlanned(h, hops, remoteDepth);
    LineNodeFound(h, hops, remoteDepth, hops);
    LineStored(h, hops, remoteDepth);
    forall i | 0 <= i < |materials| ensures FromIndex(t, materials[i]) && StoredHop(store, plan, snapshot, i, materials[i]) {
      LineRows(h, hops, remoteDepth, i);
    }
    IndexedPlansAreProvable(config, t, LINE_BLOCKS, store, LINE_REQUEST, snapshot, LINE_PROFILE, plan, materials, build);
    assert hops > 1 ==> DepthOf(materials[1]) == remoteDepth;
  }

  lemma LineStored(h: Merkle.PairHash, hops: nat, remoteDepth: nat)
    requires hops < MAX_UINT64 - 1
    ensures var store, plan := LineStore(h, hops, remoteDepth), LinePlan(h, hops, remoteDepth);
            && store.plans == map[1 := plan] && store.snapshots == map[1 := LineSnapshot(h, hops, remoteDepth)]
            && plan.id == 1 && |plan.hops| == hops && forall i :: 0 <= i < hops ==> plan.hops[i] == i + 1
  {
    hide RootAt, LineNodes, LineIDs, MaterialAt;
    LineEdgesAreValid(hops);
  }

  lemma LineMaterialStored(h: Merkle.PairHash, hops: nat, remoteDepth: nat, i: nat)
    requires i < hops < MAX_UINT64 - 1
    ensures MaterialKey(i) in LineStore(h, hops, remoteDepth).materials
    ensures LineStore(h, hops, remoteDepth).materials[MaterialKey(i)] == MaterialAt(h, hops, remoteDepth, i)
  {
    hide RootAt, LinePlan, LineSnapshot, NodeAt, EdgeAt, WitnessAt, LineIDs;
    var id: Word := i + 1;
    assert id in LineIDs(hops) && MaterialKey(id - 1) in LineStore(h, hops, remoteDepth).materials;
  }

  lemma LineRows(h: Merkle.PairHash, hops: nat, remoteDepth: nat, i: nat)
    requires i < hops < MAX_UINT64 - 1
    ensures FromIndex(LineTables(h, hops, remoteDepth), MaterialAt(h, hops, remoteDepth, i))
    ensures |LinePlan(h, hops, remoteDepth).hops| == hops
    ensures StoredHop(LineStore(h, hops, remoteDepth), LinePlan(h, hops, remoteDepth), LineSnapshot(h, hops, remoteDepth), i, MaterialAt(h, hops, remoteDepth, i))
  {
    hide RootAt, FindNode, FindEdge, LineNodes, LineEdges, LineStore, LinePlan;
    LineStored(h, hops, remoteDepth);
    LineMaterialStored(h, hops, remoteDepth, i);
    LineEdgeFound(hops, i);
    LineNodeFound(h, hops, remoteDepth, i);
    LineNodeFound(h, hops, remoteDepth, i + 1);
    var id: Word := i + 1;
    assert id in LineTables(h, hops, remoteDepth).edges;
    assert LinePlan(h, hops, remoteDepth).hops[i] == id;
    assert LineStore(h, hops, remoteDepth).materials[MaterialKey(i)] == MaterialAt(h, hops, remoteDepth, i);
  }

  /** The home root is never zero for a hash that is never zero. */
  lemma LineRootNonZero(h: Merkle.PairHash, hops: nat, remoteDepth: nat)
    requires 0 < hops && forall a, b :: h(a, b) != 0
    ensures RootAt(h, hops, remoteDepth, 0) != 0
  {
    FoldNonZero(h, h(RootAt(h, hops, remoteDepth, 1), HOME_HASH), 0, Siblings(remoteDepth, 0));
  }

  lemma {:induction false} FoldNonZero(h: Merkle.PairHash, leaf: Word, index: nat, siblings: seq<Word>)
    requires leaf != 0 && forall a, b :: h(a, b) != 0
    ensures Merkle.Fold(h, leaf, index, siblings) != 0
    decreases |siblings|
  {
    if siblings != [] {
      FoldNonZero(h, Merkle.Join(h, leaf, index, siblings[0]), index / 2, siblings[1..]);
    }
  }
}
