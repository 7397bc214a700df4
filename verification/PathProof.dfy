/**
 Assembly of a multi-hop path proof from a planned home-to-target path over
 one sealed snapshot. The plan runs from the home node to the target; the proof
 runs the other way, so that every hop's reconstructed root is the next hop's
 source root and the last one is the home root.
 */
module PathProof {
  import opened Base
  import opened TrustGraph
  import Merkle

  datatype BuildError =
    | PlanNotFound
    | SnapshotNotFound
    | MaterialMissing
    | StaleSnapshot
    | SourceBlockHashMismatch

  datatype BuildRequest = BuildRequest(planID: Word, sourceBlockHash: Word, expectedHomeTrustRoot: Word)

  datatype Material = Material(planID: Word, snapshotID: Word, planHopIndex: nat, edge: TrustEdge,
                               fromNode: TrustNode, toNode: TrustNode, membership: MembershipWitness)

  datatype ProofHop = ProofHop(planHopIndex: nat, edgeID: Word, toNodeID: Word, blockHash: Word, witnessID: Word)

  datatype Proof = Proof(requestID: Word, planID: Word, snapshotID: Word, baseTrustRoot: Word,
                         blockHashes: seq<Word>, witnesses: seq<Merkle.Witness>, hops: seq<ProofHop>)

  /** The durable rows the builder reads. */
  datatype Store = Store(plans: map<Word, Plan>, snapshots: map<Word, Snapshot>,
                         materials: map<(Word, Word, nat, Word), Material>)

  predicate ValidMaterial(ids: ContentIDs, plan: Plan, snapshot: Snapshot, index: nat, edgeID: Word, expectedFrom: Word, material: Material) {
    && material.planID == plan.id
    && material.snapshotID == snapshot.id
    && material.planHopIndex == index
    && material.edge.id == edgeID
    && material.edge.from == expectedFrom
    && material.fromNode.id == material.edge.from
    && material.toNode.id == material.edge.to
    && material.edge.evidenceID == material.membership.evidenceID
    && material.edge.leafIndex == material.membership.leafIndex
    && material.edge.witnessID == Some(material.membership.id)
    && material.membership.id == ids.witnessID(material.membership.evidenceID, material.membership.leafIndex, material.membership.siblings)
    && FindNode(snapshot.nodes, material.fromNode.id) == Some(material.fromNode)
    && FindNode(snapshot.nodes, material.toNode.id) == Some(material.toNode)
    && FindEdge(snapshot.edges, edgeID) == Some(material.edge)
  }

  // ---------------------------------------------------------------------
  // What a build needs
  // ---------------------------------------------------------------------

  ghost predicate PlanBinds(ids: ContentIDs, store: Store, request: BuildRequest) {
    && request.planID in store.plans
    && var plan := store.plans[request.planID];
       && plan.id == request.planID && plan.id == ComputePlanID(ids, plan) && plan.kind == PathPlan && plan.hops != []
       && plan.snapshotID in store.snapshots
       && var snapshot := store.snapshots[plan.snapshotID];
          && snapshot.id == plan.snapshotID && snapshot.isSealed
          && snapshot.startNodeID == plan.homeNodeID && snapshot.targetNodeID == plan.targetNodeID
          && snapshot.homeTrustRoot == request.expectedHomeTrustRoot
          && FindNode(snapshot.nodes, snapshot.targetNodeID).Some?
          && FindNode(snapshot.nodes, snapshot.targetNodeID).value.blockHash == request.sourceBlockHash
  }

  predicate Stored(store: Store, plan: Plan, snapshot: Snapshot, index: nat, material: Material)
    requires index < |plan.hops|
  {
    var key := (plan.id, snapshot.id, index, plan.hops[index]);
    key in store.materials && store.materials[key] == material
  }

  /** `materials` are the stored, valid materials of the plan's first hops, each
      starting where the previous one ends. */
  ghost predicate Linked(ids: ContentIDs, store: Store, plan: Plan, snapshot: Snapshot, materials: seq<Material>) {
    && |materials| <= |plan.hops|
    && forall i :: 0 <= i < |materials| ==>
         && Stored(store, plan, snapshot, i, materials[i])
         && ValidMaterial(ids, plan, snapshot, i, plan.hops[i], LinkedFrom(snapshot, materials, i), materials[i])
  }

  function LinkedFrom(snapshot: Snapshot, materials: seq<Material>, index: nat): Word
    requires index <= |materials|
  {
    if index == 0 then snapshot.startNodeID else materials[index - 1].toNode.id
  }

  /** The hops in verification order: from the target back to the home node. */
  function ReversedHashes(materials: seq<Material>): (hashes: seq<Word>)
    ensures |hashes| == |materials|
    ensures forall i :: 0 <= i < |materials| ==> hashes[i] == materials[|materials| - 1 - i].toNode.blockHash
  {
    if materials == [] then []
    else [materials[|materials| - 1].toNode.blockHash] + ReversedHashes(materials[..|materials| - 1])
  }

  function ReversedWitnesses(materials: seq<Material>): (witnesses: seq<Merkle.Witness>)
    ensures |witnesses| == |materials|
    ensures forall i :: 0 <= i < |materials| ==>
              var w := materials[|materials| - 1 - i].membership; witnesses[i] == Merkle.Witness(w.leafIndex, w.siblings)
  {
    if materials == [] then []
    else
      var w := materials[|materials| - 1].membership;
      [Merkle.Witness(w.leafIndex, w.siblings)] + ReversedWitnesses(materials[..|materials| - 1])
  }

  ghost predicate CompleteChain(ids: ContentIDs, store: Store, plan: Plan, snapshot: Snapshot, materials: seq<Material>) {
    && |materials| == |plan.hops| > 0
    && Linked(ids, store, plan, snapshot, materials)
    && materials[|materials| - 1].toNode.id == snapshot.targetNodeID
  }

  /** The exact condition under which the builder accepts. */
  ghost predicate Buildable(h: Merkle.PairHash, ids: ContentIDs, store: Store, request: BuildRequest, depth: nat, materials: seq<Material>) {
    && PlanBinds(ids, store, request)
    && var plan := store.plans[request.planID];
       var snapshot := store.snapshots[plan.snapshotID];
       && CompleteChain(ids, store, plan, snapshot, materials)
       && Merkle.AcceptsPath(h, FindNode(snapshot.nodes, snapshot.targetNodeID).value.root,
                             ReversedHashes(materials), ReversedWitnesses(materials), request.expectedHomeTrustRoot, depth)
  }

  // ---------------------------------------------------------------------
  // Telescoping
  // ---------------------------------------------------------------------

  /** The property the indexer checks before an edge becomes part of the graph:
      its witness has the deployment depth and folds the target's leaf to the
      recording block's root. */
  ghost predicate MaterialFolds(h: Merkle.PairHash, material: Material, depth: nat) {
    && Merkle.WitnessCheck(material.membership.leafIndex, material.membership.siblings, depth).None?
    && Merkle.Fold(h, h(material.toNode.root, material.toNode.blockHash), material.membership.leafIndex, material.membership.siblings)
       == material.fromNode.root
  }

  /** Adjacent hops meet in one node. */
  lemma LinkedNodesMeet(ids: ContentIDs, store: Store, plan: Plan, snapshot: Snapshot, materials: seq<Material>, index: nat)
    requires Linked(ids, store, plan, snapshot, materials)
    requires 0 < index < |materials|
    ensures materials[index].fromNode == materials[index - 1].toNode
  {
    var _ := ValidMaterial(ids, plan, snapshot, index, plan.hops[index], LinkedFrom(snapshot, materials, index), materials[index]);
    var _ := ValidMaterial(ids, plan, snapshot, index - 1, plan.hops[index - 1], LinkedFrom(snapshot, materials, index - 1), materials[index - 1]);
  }

  lemma {:induction false} Telescopes(h: Merkle.PairHash, materials: seq<Material>, depth: nat)
    requires materials != []
    requires forall i :: 0 <= i < |materials| ==> MaterialFolds(h, materials[i], depth)
    requires forall i :: 0 < i < |materials| ==> materials[i].fromNode == materials[i - 1].toNode
    ensures Merkle.WitnessesFit(ReversedWitnesses(materials), depth)
    ensures Merkle.PathRoot(h, materials[|materials| - 1].toNode.root, ReversedHashes(materials), ReversedWitnesses(materials))
         == materials[0].fromNode.root
  {
    var last := materials[|materials| - 1];
    var rest := materials[..|materials| - 1];
    var hashes, witnesses := ReversedHashes(materials), ReversedWitnesses(materials);
    assert hashes[1..] == ReversedHashes(rest) && witnesses[1..] == ReversedWitnesses(rest);
    assert MaterialFolds(h, last, depth);
    if rest != [] {
      Telescopes(h, rest, depth);
      assert rest[|rest| - 1].toNode == last.fromNode;
    }
  }

  /** Path proofs telescope: whenever every planned hop has a material the
      indexer would have admitted, and the plan's start node carries the home
      root, the builder accepts the plan, whatever its length. */
  lemma FoldingPlansAreBuildable(h: Merkle.PairHash, ids: ContentIDs, store: Store, request: BuildRequest, depth: nat, materials: seq<Material>)
    requires Merkle.ValidDepth(depth)
    requires PlanBinds(ids, store, request)
    requires var plan := store.plans[request.planID];
             var snapshot := store.snapshots[plan.snapshotID];
             && CompleteChain(ids, store, plan, snapshot, materials)
             && FindNode(snapshot.nodes, snapshot.startNodeID).Some?
             && FindNode(snapshot.nodes, snapshot.startNodeID).value.root == snapshot.homeTrustRoot
    requires forall i :: 0 <= i < |materials| ==> MaterialFolds(h, materials[i], depth)
    ensures Buildable(h, ids, store, request, depth, materials)
  {
    var plan := store.plans[request.planID];
    var snapshot := store.snapshots[plan.snapshotID];
    forall i | 0 < i < |materials| ensures materials[i].fromNode == materials[i - 1].toNode {
      LinkedNodesMeet(ids, store, plan, snapshot, materials, i);
    }
    Telescopes(h, materials, depth);
    var k := |materials| - 1;
    assert ValidMaterial(ids, plan, snapshot, 0, plan.hops[0], LinkedFrom(snapshot, materials, 0), materials[0]);
    assert ValidMaterial(ids, plan, snapshot, k, plan.hops[k], LinkedFrom(snapshot, materials, k), materials[k]);
  }

  // ---------------------------------------------------------------------
  // The builder
  // ---------------------------------------------------------------------

  function HopOf(materials: seq<Material>, planIndex: nat): ProofHop
    requires planIndex < |materials|
  {
    var m := materials[planIndex];
    ProofHop(planIndex, m.edge.id, m.toNode.id, m.toNode.blockHash, m.membership.id)
  }

  function HopsOf(materials: seq<Material>): (hops: seq<ProofHop>)
    ensures |hops| == |materials|
    ensures forall i :: 0 <= i < |materials| ==> hops[i] == HopOf(materials, |materials| - 1 - i)
  {
    if materials == [] then []
    else
      var k := |materials| - 1;
      [HopOf(materials, k)] + HopsOf(materials[..k])
  }

  /** Load the plan's materials in plan order, requiring each to start where the previous ended. */
  method LoadMaterials(ids: ContentIDs, store: Store, plan: Plan, snapshot: Snapshot)
    returns (r: Option<seq<Material>>)
    ensures r.Some? ==> |r.value| == |plan.hops| && Linked(ids, store, plan, snapshot, r.value)
    ensures forall ms :: |ms| == |plan.hops| && Linked(ids, store, plan, snapshot, ms) ==> r == Some(ms)
  {
    var materials: seq<Material> := [];
    var expectedFrom := snapshot.startNodeID;
    for index := 0 to |plan.hops|
      invariant |materials| == index
      invariant Linked(ids, store, plan, snapshot, materials)
      invariant expectedFrom == LinkedFrom(snapshot, materials, index)
      invariant forall ms :: |ms| == |plan.hops| && Linked(ids, store, plan, snapshot, ms) ==> ms[..index] == materials
    {
      var key := (plan.id, snapshot.id, index, plan.hops[index]);
      forall ms | |ms| == |plan.hops| && Linked(ids, store, plan, snapshot, ms)
        ensures key in store.materials && store.materials[key] == ms[index]
        ensures ValidMaterial(ids, plan, snapshot, index, plan.hops[index], expectedFrom, ms[index])
      {
        assert ms[..index] == materials;
        assert LinkedFrom(snapshot, ms, index) == LinkedFrom(snapshot, materials, index);
      }
      if key !in store.materials {
        return None;
      }
      var material := store.materials[key];
      if !ValidMaterial(ids, plan, snapshot, index, plan.hops[index], expectedFrom, material) {
        return None;
      }
      ghost var before := materials;
      materials := materials + [material];
      LinkedSnoc(ids, store, plan, snapshot, before, material);
      expectedFrom := material.toNode.id;
    }
    assert forall ms: seq<Material> :: |ms| == |plan.hops| ==> ms[..|plan.hops|] == ms;
    return Some(materials);
  }

  lemma LinkedSnoc(ids: ContentIDs, store: Store, plan: Plan, snapshot: Snapshot, materials: seq<Material>, material: Material)
    requires Linked(ids, store, plan, snapshot, materials)
    requires |materials| < |plan.hops|
    requires Stored(store, plan, snapshot, |materials|, material)
    requires ValidMaterial(ids, plan, snapshot, |materials|, plan.hops[|materials|], LinkedFrom(snapshot, materials, |materials|), material)
    ensures Linked(ids, store, plan, snapshot, materials + [material])
  {
    var grown := materials + [material];
    forall i | 0 <= i < |grown|
      ensures ValidMaterial(ids, plan, snapshot, i, plan.hops[i], LinkedFrom(snapshot, grown, i), grown[i])
    {
      assert LinkedFrom(snapshot, grown, i) == LinkedFrom(snapshot, materials, i);
    }
  }

  /** Walk the materials backwards into verification order. */
  method Assemble(materials: seq<Material>)
    returns (r: Option<(seq<Word>, seq<Merkle.Witness>, seq<ProofHop>)>)
    ensures r.None? <==> exists m :: m in materials && m.membership.siblings == []
    ensures r.Some? ==> r.value == (ReversedHashes(materials), ReversedWitnesses(materials), HopsOf(materials))
  {
    hide ReversedHashes, ReversedWitnesses, HopsOf;
    var hashes, witnesses, hops := [], [], [];
    var planIndex := |materials|;
    while planIndex > 0
      invariant 0 <= planIndex <= |materials|
      invariant |hashes| == |witnesses| == |hops| == |materials| - planIndex
      invariant forall i :: 0 <= i < |hashes| ==> hashes[i] == ReversedHashes(materials)[i]
      invariant forall i :: 0 <= i < |hashes| ==> witnesses[i] == ReversedWitnesses(materials)[i]
      invariant forall i :: 0 <= i < |hashes| ==> hops[i] == HopsOf(materials)[i]
      invariant forall i :: planIndex <= i < |materials| ==> materials[i].membership.siblings != []
    {
      planIndex := planIndex - 1;
      var material := materials[planIndex];
      if |material.membership.siblings| == 0 {
        return None;
      }
      hashes := hashes + [material.toNode.blockHash];
      witnesses := witnesses + [Merkle.Witness(material.membership.leafIndex, material.membership.siblings)];
      hops := hops + [ProofHop(planIndex, material.edge.id, material.toNode.id, material.toNode.blockHash, material.membership.id)];
    }
    assert hashes == ReversedHashes(materials) && witnesses == ReversedWitnesses(materials) && hops == HopsOf(materials);
    return Some((hashes, witnesses, hops));
  }

  lemma ChainEndsAtTarget(ids: ContentIDs, store: Store, plan: Plan, snapshot: Snapshot, materials: seq<Material>)
    requires CompleteChain(ids, store, plan, snapshot, materials)
    ensures FindNode(snapshot.nodes, snapshot.targetNodeID) == Some(materials[|materials| - 1].toNode)
  {
    var k := |materials| - 1;
    assert ValidMaterial(ids, plan, snapshot, k, plan.hops[k], LinkedFrom(snapshot, materials, k), materials[k]);
  }

  lemma NeverAccepted(h: Merkle.PairHash, materials: seq<Material>, material: Material, base: Word, home: Word, depth: nat)
    requires material in materials && material.membership.siblings == []
    ensures !Merkle.AcceptsPath(h, base, ReversedHashes(materials), ReversedWitnesses(materials), home, depth)
  {
    var i :| 0 <= i < |materials| && materials[i] == material;
    assert ReversedWitnesses(materials)[|materials| - 1 - i] in ReversedWitnesses(materials);
  }

  method Build(h: Merkle.PairHash, ids: ContentIDs, store: Store, request: BuildRequest, pathTreeDepth: nat)
    returns (r: Result<Proof, BuildError>, ghost materials: seq<Material>)
    ensures r.Ok? ==> Buildable(h, ids, store, request, pathTreeDepth, materials)
    ensures forall ms :: Buildable(h, ids, store, request, pathTreeDepth, ms) ==> r.Ok? && ms == materials
    ensures r.Ok? ==> r.value.blockHashes == ReversedHashes(materials) && r.value.witnesses == ReversedWitnesses(materials)
    ensures r.Ok? ==> r.value.hops == HopsOf(materials)
    ensures r.Ok? ==> Merkle.AcceptsPath(h, r.value.baseTrustRoot, r.value.blockHashes, r.value.witnesses,
                                         request.expectedHomeTrustRoot, pathTreeDepth)
    ensures r.Ok? ==> r.value.blockHashes[0] == request.sourceBlockHash && r.value.planID == request.planID
  {
    hide Linked, ValidMaterial, ReversedHashes, ReversedWitnesses, HopsOf, FindNode, Merkle.AcceptsPath;
    materials := [];
    if request.planID !in store.plans {
      return Err(PlanNotFound), materials;
    }
    var plan := store.plans[request.planID];
    if plan.id != request.planID || plan.id != ComputePlanID(ids, plan) || plan.kind != PathPlan || |plan.hops| == 0 {
      return Err(MaterialMissing), materials;
    }
    if plan.snapshotID !in store.snapshots {
      return Err(SnapshotNotFound), materials;
    }
    var snapshot := store.snapshots[plan.snapshotID];
    if snapshot.id != plan.snapshotID || !snapshot.isSealed || snapshot.startNodeID != plan.homeNodeID
       || snapshot.targetNodeID != plan.targetNodeID {
      return Err(MaterialMissing), materials;
    }
    if snapshot.homeTrustRoot != request.expectedHomeTrustRoot {
      return Err(StaleSnapshot), materials;
    }
    var target := FindNode(snapshot.nodes, snapshot.targetNodeID);
    if target.None? {
      return Err(MaterialMissing), materials;
    }
    if target.value.blockHash != request.sourceBlockHash {
      return Err(SourceBlockHashMismatch), materials;
    }
    assert PlanBinds(ids, store, request);

    var loaded := LoadMaterials(ids, store, plan, snapshot);
    if loaded.None? {
      return Err(MaterialMissing), materials;
    }
    materials := loaded.value;
    if loaded.value[|plan.hops| - 1].toNode.id != snapshot.targetNodeID {
      return Err(MaterialMissing), materials;
    }
    ChainEndsAtTarget(ids, store, plan, snapshot, materials);

    var assembled := Assemble(loaded.value);
    if assembled.None? {
      ghost var m :| m in materials && m.membership.siblings == [];
      NeverAccepted(h, materials, m, target.value.root, request.expectedHomeTrustRoot, pathTreeDepth);
      return Err(MaterialMissing), materials;
    }
    var (hashes, witnesses, hops) := assembled.value;
    // The second comparison with the requested block hash cannot fail: the
    // last hop ends in the target node itself.
    assert hashes[0] == request.sourceBlockHash;
    var verified := Merkle.VerifyPath(h, target.value.root, hashes, witnesses, request.expectedHomeTrustRoot, pathTreeDepth);
    if verified.Err? {
      return Err(MaterialMissing), materials;
    }
    r := Ok(Proof(plan.requestID, plan.id, snapshot.id, target.value.root, hashes, witnesses, hops));
  }
}
