/**
 The indexer's durable tables. One transaction applies a confirmed block: its
 rows, its dependency edges and the cursor, all or nothing.
 */
module IndexerStore {
  import opened Base
  import opened TrustGraph
  import opened CanonicalCursor
  import Merkle

  datatype FactTable = GatewayLogs | Requests | VerificationReceipts | RequestResolutions

  datatype FactKey = FactKey(table: FactTable, key: seq<Word>)

  /** One row to insert: present with the same content is fine, with another one a conflict. */
  datatype Fact = Fact(key: FactKey, content: seq<Word>)

  /** A dependency: the edge, its membership witness and its two nodes. */
  datatype Dependency = Dependency(edge: TrustEdge, membership: MembershipWitness, fromNode: TrustNode, toNode: TrustNode)

  datatype ConfirmedBlock = ConfirmedBlock(number: uint64, hash: Word, parentHash: Word, expected: Cursor,
                                           facts: seq<Fact>, receipts: seq<(Word, Word)>, resolutions: seq<(Word, Word)>,
                                           dependencies: seq<Dependency>)

  datatype Config = Config(h: Merkle.PairHash, ids: ContentIDs, chainID: Word, deployment: Word, merkleDepth: nat, pathStepCost: uint64)

  /** A hash-bound observation of a block's trust root. */
  datatype Observation = Observation(chainID: Word, height: Word, blockHash: Word, root: Word, evidenceID: Word)

  /** What validating a gossiped dependency of another chain's Gateway yields. */
  datatype RemoteValidation = RemoteValidation(evidenceID: Word, home: Observation, source: Observation,
                                               leafIndex: uint32, siblings: seq<Word>, pathStepCost: uint64)

  /** `remote` are the edges whose evidence was activated by remote validation. */
  datatype Tables = Tables(cursor: Option<Cursor>, degraded: bool, facts: map<FactKey, seq<Word>>, edges: map<Word, Dependency>,
                           remote: set<Word>, revision: nat)

  datatype StoreError = InvalidBlock | Database | DeterministicConflict

  // ---------------------------------------------------------------------
  // What the tables keep
  // ---------------------------------------------------------------------

  /** The witness folds the target's leaf to the recording block's root, at its own depth. */
  ghost predicate Folds(config: Config, d: Dependency) {
    && Merkle.WitnessCheck(d.membership.leafIndex, d.membership.siblings, |d.membership.siblings|).None?
    && Merkle.Fold(config.h, config.h(d.toNode.root, d.toNode.blockHash), d.membership.leafIndex, d.membership.siblings) == d.fromNode.root
  }

  /** An edge bound to its witness and nodes. */
  predicate Bound(config: Config, d: Dependency) {
    && d.edge.evidenceID == d.membership.evidenceID && d.edge.witnessID == Some(d.membership.id) && d.edge.leafIndex == d.membership.leafIndex
    && d.membership.id == config.ids.witnessID(d.membership.evidenceID, d.membership.leafIndex, d.membership.siblings)
    && d.fromNode.id == d.edge.from && d.toNode.id == d.edge.to
  }

  /** Depth and step cost are those of the home deployment. */
  predicate Deployed(config: Config, d: Dependency) {
    |d.membership.siblings| == config.merkleDepth && d.edge.pathStepCost == config.pathStepCost
  }

  ghost predicate EdgesFold(config: Config, edges: map<Word, Dependency>) {
    forall id :: id in edges ==> edges[id].edge.id == id && Bound(config, edges[id]) && Folds(config, edges[id])
  }

  /** The cursor is the last block of a parent-linked chain that starts at the deployment block. */
  ghost predicate CursorAt(config: Config, cursor: Option<Cursor>, applied: seq<BlockRef>) {
    match cursor
    case None => applied == []
    case Some(c) =>
      EndsAt(applied, c) && Chain(applied) && applied[0].height == config.deployment && c.chainID == config.chainID && c.hash != 0
  }

  /** The dependency starts at this block, with a trust root of its own. */
  predicate RecordedBy(config: Config, number: Word, hash: Word, d: Dependency) {
    d.fromNode.chainID == config.chainID && d.fromNode.height == number && d.fromNode.blockHash == hash && d.fromNode.root != 0
  }

  /** Some applied block recorded the dependency, at the home deployment. */
  ghost predicate Recorded(config: Config, d: Dependency, applied: seq<BlockRef>) {
    Deployed(config, d) && exists i :: 0 <= i < |applied| && RecordedBy(config, applied[i].height, applied[i].hash, d)
  }

  /** Every edge was recorded by a block of the applied chain or activated by remote validation. */
  ghost predicate EdgesRecorded(config: Config, edges: map<Word, Dependency>, remote: set<Word>, applied: seq<BlockRef>) {
    remote <= edges.Keys && forall id :: id in edges && id !in remote ==> Recorded(config, edges[id], applied)
  }

  ghost predicate Consistent(config: Config, t: Tables, applied: seq<BlockRef>) {
    CursorAt(config, t.cursor, applied) && EdgesFold(config, t.edges) && EdgesRecorded(config, t.edges, t.remote, applied)
  }

  ghost predicate Extends<K(!new), V(!new)>(m: map<K, V>, m': map<K, V>) {
    forall k :: k in m ==> k in m' && m'[k] == m[k]
  }

  /** Later tables: rows stay, the chain grows, degraded stays degraded and frozen. */
  ghost predicate Grows(t: Tables, applied: seq<BlockRef>, t': Tables, applied': seq<BlockRef>) {
    && applied <= applied' && Extends(t.facts, t'.facts) && Extends(t.edges, t'.edges) && t.revision <= t'.revision
    && t.remote <= t'.remote && (t.degraded ==> t'.degraded)
    && (t.cursor.Some? ==> t'.cursor.Some?)
    && (t.cursor.Some? && t.cursor.value.state.Degraded? ==>
          t'.cursor == t.cursor && applied' == applied && t'.facts == t.facts && t'.edges == t.edges
          && t'.remote == t.remote && t'.revision == t.revision)
  }

  lemma GrowsReflexive(t: Tables, applied: seq<BlockRef>)
    ensures Grows(t, applied, t, applied)
  {
  }

  lemma GrowsTransitive(t1: Tables, a1: seq<BlockRef>, t2: Tables, a2: seq<BlockRef>, t3: Tables, a3: seq<BlockRef>)
    requires Grows(t1, a1, t2, a2) && Grows(t2, a2, t3, a3)
    ensures Grows(t1, a1, t3, a3)
  {
  }

  // ---------------------------------------------------------------------
  // Rows of a block
  // ---------------------------------------------------------------------

  /** Insert the rows one by one; any row stored with another content is a conflict. */
  method InsertFacts(facts: map<FactKey, seq<Word>>, rows: seq<Fact>) returns (ok: bool, facts': map<FactKey, seq<Word>>, changed: bool)
    ensures Extends(facts, facts')
    ensures ok ==> forall i :: 0 <= i < |rows| ==> rows[i].key in facts' && facts'[rows[i].key] == rows[i].content
    ensures changed <==> facts' != facts
  {
    facts', changed := facts, false;
    ghost var added: FactKey := *;
    for i := 0 to |rows|
      invariant Extends(facts, facts') && (!changed ==> facts' == facts)
      invariant changed ==> added in facts' && added !in facts
      invariant forall k :: 0 <= k < i ==> rows[k].key in facts' && facts'[rows[k].key] == rows[k].content
    {
      var row := rows[i];
      if row.key !in facts' {
        facts' := facts'[row.key := row.content];
        changed, added := true, row.key;
      } else if facts'[row.key] != row.content {
        ok := false;
        return;
      }
    }
    ok := true;
  }

  /** Check one dependency of a block. */
  method CheckDependency(config: Config, block: ConfirmedBlock, d: Dependency) returns (ok: bool)
    ensures ok ==> Bound(config, d) && Deployed(config, d) && RecordedBy(config, block.number, block.hash, d) && Folds(config, d)
  {
    if !Bound(config, d) || d.edge.pathStepCost != config.pathStepCost || !RecordedBy(config, block.number, block.hash, d) {
      return false;
    }
    var leaf := config.h(d.toNode.root, d.toNode.blockHash);
    var root := Merkle.RootFromWitness(config.h, leaf, d.membership.leafIndex, d.membership.siblings, config.merkleDepth);
    if root.Err? || root.value != d.fromNode.root {
      return false;
    }
    // Evidence, receipt, log and node bindings that only reject.
    var bindings: bool := *;
    return bindings;
  }

  /** The first `n` dependencies are stored under their edge IDs. */
  ghost predicate Inserted(dependencies: seq<Dependency>, n: nat, edges: map<Word, Dependency>)
    requires n <= |dependencies|
  {
    forall i :: 0 <= i < n ==> dependencies[i].edge.id in edges && edges[dependencies[i].edge.id] == dependencies[i]
  }

  /** Every edge that was not there before starts at the block, with the deployment's depth and cost. */
  ghost predicate NewEdgesRecorded(config: Config, block: ConfirmedBlock, edges: map<Word, Dependency>, edges': map<Word, Dependency>) {
    forall id :: id in edges' && id !in edges ==> Deployed(config, edges'[id]) && RecordedBy(config, block.number, block.hash, edges'[id])
  }

  method InsertDependencies(config: Config, edges: map<Word, Dependency>, block: ConfirmedBlock)
    returns (ok: bool, edges': map<Word, Dependency>, changed: bool)
    requires EdgesFold(config, edges)
    ensures Extends(edges, edges') && EdgesFold(config, edges') && NewEdgesRecorded(config, block, edges, edges')
    ensures ok ==> Inserted(block.dependencies, |block.dependencies|, edges')
    ensures changed <==> edges' != edges
  {
    hide Folds, Bound, Deployed, RecordedBy;
    var dependencies := block.dependencies;
    edges', changed := edges, false;
    ghost var added: Word := *;
    for i := 0 to |dependencies|
      invariant Extends(edges, edges') && EdgesFold(config, edges') && (!changed ==> edges' == edges)
      invariant NewEdgesRecorded(config, block, edges, edges')
      invariant changed ==> added in edges' && added !in edges
      invariant Inserted(dependencies, i, edges')
    {
      var d := dependencies[i];
      var checked := CheckDependency(config, block, d);
      if !checked {
        ok := false;
        return;
      }
      if d.edge.id !in edges' {
        edges' := edges'[d.edge.id := d];
        changed, added := true, d.edge.id;
      } else if edges'[d.edge.id] != d {
        ok := false;
        return;
      }
    }
    ok := true;
  }

  /** Every receipt of the block is matched by a resolution of the same request and transaction. */
  predicate Paired(block: ConfirmedBlock) {
    && |block.receipts| == |block.resolutions|
    && forall i :: 0 <= i < |block.receipts| ==> block.receipts[i] in block.resolutions
  }

  /** The transaction took effect: the block follows the cursor, its rows and edges are stored. */
  ghost predicate Applied(config: Config, t: Tables, applied: seq<BlockRef>, block: ConfirmedBlock, t': Tables, applied': seq<BlockRef>) {
    && t.cursor == Some(block.expected) && block.expected.state.Healthy?
    && block.number == block.expected.height + 1 && block.parentHash == block.expected.hash && block.hash != 0 && Paired(block)
    && t'.cursor == Some(Cursor(config.chainID, block.number, block.hash, Healthy))
    && applied' == applied + [BlockRef(block.number, block.hash, block.parentHash)]
    && t'.degraded == t.degraded && t'.remote == t.remote && Extends(t.facts, t'.facts) && Extends(t.edges, t'.edges) && EdgesFold(config, t'.edges)
    && NewEdgesRecorded(config, block, t.edges, t'.edges) && Inserted(block.dependencies, |block.dependencies|, t'.edges)
    && (forall i :: 0 <= i < |block.facts| ==> block.facts[i].key in t'.facts && t'.facts[block.facts[i].key] == block.facts[i].content)
    && t'.revision == t.revision + if t'.edges == t.edges then 0 else 1
  }

  lemma AppliedKeeps(config: Config, t: Tables, applied: seq<BlockRef>, block: ConfirmedBlock, t': Tables, applied': seq<BlockRef>)
    requires Consistent(config, t, applied) && Applied(config, t, applied, block, t', applied')
    ensures Consistent(config, t', applied') && Grows(t, applied, t', applied')
  {
    hide EdgesFold, Chain, Inserted, RecordedBy, Deployed;
    var next := BlockRef(block.number, block.hash, block.parentHash);
    ChainSnoc(applied, next);
    forall id | id in t'.edges && id !in t'.remote ensures Recorded(config, t'.edges[id], applied') {
      if id in t.edges {
        assert Recorded(config, t.edges[id], applied);
        var i :| 0 <= i < |applied| && RecordedBy(config, applied[i].height, applied[i].hash, t.edges[id]);
        assert applied'[i] == applied[i];
      } else {
        assert applied'[|applied|] == next;
      }
    }
  }

  // ---------------------------------------------------------------------
  // Remote activation
  // ---------------------------------------------------------------------

  function NodeOf(ids: ContentIDs, o: Observation): TrustNode {
    TrustNode(ids.node(o.chainID, o.height, o.blockHash), o.chainID, o.height, o.blockHash, o.root, o.evidenceID)
  }

  /** The edge, witness and nodes built from a validation. */
  function RemoteDependency(ids: ContentIDs, v: RemoteValidation): Dependency {
    var from, to := NodeOf(ids, v.home), NodeOf(ids, v.source);
    var membership := MembershipWitness(ids.witnessID(v.evidenceID, v.leafIndex, v.siblings), v.evidenceID, v.leafIndex, v.siblings);
    Dependency(TrustEdge(ids.edge(from.id, to.id, v.evidenceID, v.leafIndex), from.id, to.id, v.evidenceID, v.leafIndex,
                         Some(membership.id), v.pathStepCost),
               membership, from, to)
  }

  predicate ProperEdge(edge: TrustEdge) {
    edge.from != 0 && edge.to != 0 && edge.from != edge.to && edge.evidenceID != 0 && edge.pathStepCost != 0
  }

  /** Its edge is proper and its witness folds, at whatever depth the recording chain has. */
  ghost predicate Admissible(config: Config, v: RemoteValidation) {
    ProperEdge(RemoteDependency(config.ids, v).edge) && Folds(config, RemoteDependency(config.ids, v))
  }

  function Activated(t: Tables, d: Dependency): Tables {
    t.(edges := t.edges[d.edge.id := d], remote := t.remote + {d.edge.id}, revision := t.revision + 1)
  }

  /** A remote edge leaves chain, cursor and every recorded edge as they are. */
  lemma ActivationKeeps(config: Config, t: Tables, applied: seq<BlockRef>, v: RemoteValidation)
    requires Consistent(config, t, applied) && Admissible(config, v) && RemoteDependency(config.ids, v).edge.id !in t.edges
    ensures var t' := Activated(t, RemoteDependency(config.ids, v));
            && Consistent(config, t', applied)
            && ((t.cursor.Some? ==> t.cursor.value.state.Healthy?) ==> Grows(t, applied, t', applied))
  {
    hide Folds, Recorded, CursorAt;
  }

  class Repository {
    const config: Config
    var tables: Tables
    ghost var applied: seq<BlockRef>

    constructor (config: Config)
      ensures this.config == config && tables == Tables(None, false, map[], map[], {}, 0) && applied == [] && Consistent(config, tables, applied)
    {
      this.config, tables, applied := config, Tables(None, false, map[], map[], {}, 0), [];
    }

    ghost predicate Valid()
      reads this
    {
      Consistent(config, tables, applied)
    }

    method ApplyConfirmedBlock(block: ConfirmedBlock) returns (r: Result<bool, StoreError>)
      requires Valid()
      modifies this
      ensures Valid() && Grows(old(tables), old(applied), tables, applied)
      ensures (tables == old(tables) && applied == old(applied)) || Applied(config, old(tables), old(applied), block, tables, applied)
      ensures r.Ok? && r.value ==> Applied(config, old(tables), old(applied), block, tables, applied)
      // Applying the cursor's own block again changes nothing.
      ensures old(tables).cursor.Some? && old(tables).cursor.value.height == block.number ==> tables == old(tables) && !(r.Ok? && r.value)
      ensures r.Ok? && !r.value ==> old(tables).cursor.Some? && old(tables).cursor.value.height == block.number && old(tables).cursor.value.hash == block.hash
    {
      hide EdgesFold, Chain, Paired, NewEdgesRecorded, Inserted, EdgesRecorded;
      GrowsReflexive(tables, applied);
      if block.number == MAX_UINT64 || block.hash == 0 || block.parentHash == 0 {
        return Err(InvalidBlock);
      }
      var failure: bool := *;
      if failure || tables.cursor.None? {
        return Err(Database);
      }
      var current := tables.cursor.value;
      if current.state.Degraded? {
        return Err(DeterministicConflict);
      }
      var replay := current.height == block.number;
      if replay {
        if current.hash != block.hash {
          return Err(DeterministicConflict);
        }
      } else if current != block.expected {
        return Err(DeterministicConflict);
      }
      var advanced := current;
      if !replay {
        var next := Advance(current, current.hash, BlockRef(block.number, block.hash, block.parentHash));
        if next.Err? {
          return Err(DeterministicConflict);
        }
        advanced := next.value;
      }
      var factsOK, facts', factsChanged := InsertFacts(tables.facts, block.facts);
      if !factsOK || !Paired(block) {
        return Err(DeterministicConflict);
      }
      var edgesOK, edges', graphChanged := InsertDependencies(config, tables.edges, block);
      if !edgesOK {
        return Err(DeterministicConflict);
      }
      if replay && (factsChanged || graphChanged) {
        return Err(DeterministicConflict);
      }
      var tables' := Tables(Some(advanced), tables.degraded, facts', edges', tables.remote, if graphChanged then tables.revision + 1 else tables.revision);
      var committed: bool, reported: bool := *, *;
      if committed {
        if replay {
          assert tables' == tables;
        } else {
          ghost var applied' := applied + [BlockRef(block.number, block.hash, block.parentHash)];
          AppliedKeeps(config, tables, applied, block, tables', applied');
          applied := applied';
        }
        tables := tables';
      }
      return if committed && reported then Ok(!replay) else Err(Database);
    }

    /** Activate a validated dependency of another chain: its edge is stored once, or nothing changes. */
    method ActivateRemote(v: RemoteValidation) returns (r: Result<(), StoreError>)
      requires Valid()
      modifies this
      ensures Valid() && applied == old(applied)
      ensures !Admissible(config, v) ==> r.Err? && tables == old(tables)
      ensures var d := RemoteDependency(config.ids, v);
              && (tables == old(tables) || (d.edge.id !in old(tables).edges && tables == Activated(old(tables), d)))
              && (r.Ok? ==> d.edge.id in tables.edges && tables.edges[d.edge.id] == d)
              && (d.edge.id in old(tables).edges && old(tables).edges[d.edge.id] != d ==> r.Err?)
      ensures (old(tables).cursor.Some? ==> old(tables).cursor.value.state.Healthy?) ==> Grows(old(tables), old(applied), tables, applied)
    {
      hide EdgesFold, EdgesRecorded, CursorAt, Merkle.Fold;
      GrowsReflexive(tables, applied);
      var d := RemoteDependency(config.ids, v);
      var leaf := config.h(d.toNode.root, d.toNode.blockHash);
      var root := Merkle.RootFromWitness(config.h, leaf, v.leafIndex, v.siblings, |v.siblings|);
      if root.Err? || root.value != d.fromNode.root || !ProperEdge(d.edge) {
        return Err(DeterministicConflict);
      }
      // Locator, inbox, evidence-state and active-node checks that only reject.
      var failure: bool, committed: bool, reported: bool := *, *, *;
      if failure {
        return Err(Database);
      }
      if d.edge.id in tables.edges {
        if tables.edges[d.edge.id] != d {
          return Err(DeterministicConflict);
        }
      } else if committed {
        ActivationKeeps(config, tables, applied, v);
        tables := Activated(tables, d);
      }
      return if committed && reported then Ok(()) else Err(Database);
    }

    /** A cursor of another chain is another row; one at another height is stored all the same. */
    method Initialize(cursor: Cursor) returns (r: Result<(), StoreError>)
      requires Valid()
      modifies this
      ensures Grows(old(tables), old(applied), tables, applied)
      ensures Valid() <==> tables == old(tables) || cursor.height == config.deployment
      ensures tables == old(tables) ==> applied == old(applied)
      ensures cursor.state.Degraded? || cursor.hash == 0 ==> r == Err(InvalidBlock) && tables == old(tables)
      ensures old(tables).cursor.Some? || cursor.chainID != config.chainID ==> tables == old(tables)
      ensures r.Ok? && cursor.chainID == config.chainID ==> tables == old(tables).(cursor := Some(cursor))
    {
      GrowsReflexive(tables, applied);
      if cursor.state.Degraded? || cursor.hash == 0 {
        return Err(InvalidBlock);
      }
      var failure: bool, reported: bool := *, *;
      if failure {
        return Err(Database);
      }
      if cursor.chainID == config.chainID {
        if tables.cursor.None? {
          tables := tables.(cursor := Some(cursor));
          applied := [BlockRef(cursor.height, cursor.hash, 0)];
        } else if tables.cursor != Some(cursor) {
          return Err(DeterministicConflict);
        }
      }
      return if reported then Ok(()) else Err(Database);
    }

    /** First the indexer's own degraded row, then the cursor; each may fail. */
    method DegradeIndexer() returns (r: Result<(), StoreError>)
      requires Valid()
      modifies this
      ensures Valid() && Grows(old(tables), old(applied), tables, applied) && applied == old(applied)
      ensures r.Ok? ==> tables.degraded && (tables.cursor.Some? ==> tables.cursor.value.state.Degraded?)
      ensures tables.cursor.Some? ==> old(tables).cursor.Some? && (tables.cursor == old(tables).cursor || tables.cursor == Some(Degrade(old(tables).cursor.value)))
    {
      var failure: bool, later: bool := *, *;
      if failure {
        return Err(Database);
      }
      tables := tables.(degraded := true);
      if later {
        return Err(Database);
      }
      if tables.cursor.Some? {
        tables := tables.(cursor := Some(Degrade(tables.cursor.value)));
      }
      return Ok(());
    }
  }
}
