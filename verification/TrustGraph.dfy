/** The live trust graph: nodes, edges, witnesses and sealed snapshots. */
module TrustGraph {
  import opened Base

  datatype TrustNode = TrustNode(id: Word, chainID: Word, height: Word, blockHash: Word, root: Word, evidenceID: Word)

  datatype TrustEdge = TrustEdge(id: Word, from: Word, to: Word, evidenceID: Word, leafIndex: uint32,
                                 witnessID: Option<Word>, pathStepCost: uint64)

  datatype MembershipWitness = MembershipWitness(id: Word, evidenceID: Word, leafIndex: uint32, siblings: seq<Word>)

  datatype Snapshot = Snapshot(id: Word, revision: uint64, homeChainID: Word, homeTrustRoot: Word,
                               startNodeID: Word, targetNodeID: Word, isSealed: bool,
                               nodes: seq<TrustNode>, edges: seq<TrustEdge>)

  datatype PlanType = PathPlan | DirectPlan

  datatype FallbackReason = NoFallback | UncalibratedProfile | NoPath | PathCostExceedsDirect | ProofMaterialMissing

  datatype Plan = Plan(id: Word, requestID: Word, attempt: uint64, snapshotID: Word, kind: PlanType,
                       homeNodeID: Word, targetNodeID: Word, hops: seq<Word>, pathStepCost: uint64,
                       pathCost: Option<uint64>, directCost: Option<uint64>, fallback: FallbackReason)

  /** The content hashes: of a plan, a witness (evidence, leaf index, siblings), a node
      (chain, height, block hash), an edge (from, to, evidence, leaf index) and a
      snapshot (request, attempt, revision, start, target, home root). */
  datatype ContentIDs = ContentIDs(
    plan: Plan -> Word,
    witnessID: (Word, uint32, seq<Word>) -> Word,
    node: (Word, Word, Word) -> Word,
    edge: (Word, Word, Word, uint32) -> Word,
    snapshot: (Word, uint64, uint64, Word, Word, Word) -> Word)

  /** A plan's ID covers everything but the ID itself. */
  function ComputePlanID(ids: ContentIDs, plan: Plan): Word {
    ids.plan(plan.(id := 0))
  }

  function FindNode(nodes: seq<TrustNode>, id: Word): (r: Option<TrustNode>)
    ensures r.Some? ==> r.value.id == id && r.value in nodes
    ensures r.None? <==> forall node :: node in nodes ==> node.id != id
  {
    if nodes == [] then None
    else if nodes[0].id == id then Some(nodes[0])
    else FindNode(nodes[1..], id)
  }

  function FindEdge(edges: seq<TrustEdge>, id: Word): (r: Option<TrustEdge>)
    ensures r.Some? ==> r.value.id == id && r.value in edges
    ensures r.None? <==> forall edge :: edge in edges ==> edge.id != id
  {
    if edges == [] then None
    else if edges[0].id == id then Some(edges[0])
    else FindEdge(edges[1..], id)
  }
}
