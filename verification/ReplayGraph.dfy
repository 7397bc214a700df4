/** Blocks, weighted edges and walks of the replay graph. */
module ReplayGraph {
  import opened Base

  /** A block's graph identity. Chain names are canonical (trimmed, lower case). */
  datatype BlockKey = BlockKey(chain: string, height: uint64)

  datatype EdgeKind = IntraChainUp | IntraChainDown | VerifiedDependency

  datatype Edge = Edge(kind: EdgeKind, weight: uint64)

  type Adjacency = map<BlockKey, map<BlockKey, Edge>>

  function EdgeOf(adj: Adjacency, u: BlockKey, v: BlockKey): Option<Edge> {
    if u in adj && v in adj[u] then Some(adj[u][v]) else None
  }

  predicate HasEdge(adj: Adjacency, u: BlockKey, v: BlockKey) {
    EdgeOf(adj, u, v).Some?
  }

  // ---------------------------------------------------------------------
  // Walks
  // ---------------------------------------------------------------------

  ghost predicate IsWalk(adj: Adjacency, w: seq<BlockKey>) {
    && w != []
    && forall i :: 0 <= i < |w| - 1 ==> HasEdge(adj, w[i], w[i + 1])
  }

  ghost predicate WalkFromTo(adj: Adjacency, w: seq<BlockKey>, u: BlockKey, v: BlockKey) {
    IsWalk(adj, w) && w[0] == u && w[|w| - 1] == v
  }

  ghost function Weight(adj: Adjacency, w: seq<BlockKey>): nat
    requires IsWalk(adj, w)
  {
    if |w| == 1 then 0
    else Weight(adj, w[..|w| - 1]) + EdgeOf(adj, w[|w| - 2], w[|w| - 1]).value.weight
  }

  /** Extending a walk by one edge. */
  lemma WalkSnoc(adj: Adjacency, w: seq<BlockKey>, v: BlockKey)
    requires IsWalk(adj, w) && HasEdge(adj, w[|w| - 1], v)
    ensures IsWalk(adj, w + [v])
    ensures Weight(adj, w + [v]) == Weight(adj, w) + EdgeOf(adj, w[|w| - 1], v).value.weight
  {
    assert (w + [v])[..|w + [v]| - 1] == w;
  }

  /** Some walk from `u` to `v` has weight `d`. */
  ghost predicate Reaches(adj: Adjacency, u: BlockKey, v: BlockKey, d: nat) {
    exists w :: WalkFromTo(adj, w, u, v) && Weight(adj, w) == d
  }

  /** A distance is a weight that some walk has and no walk undercuts. */
  ghost predicate IsDistance(adj: Adjacency, u: BlockKey, v: BlockKey, d: nat) {
    Reaches(adj, u, v, d) && forall e: nat :: Reaches(adj, u, v, e) ==> d <= e
  }
}
