/**
 The two independent checks of a verification receipt: the indexer's, for a
 request it has observed, and the remote validator's, for a gossiped locator.
 */
module Receipt {
  import opened Base
  import Merkle

  /** A Gateway log as its ABI decoding sees it. */
  datatype GatewayEvent =
    | Success(requestID: Word, source: Source, dependencyKey: Word)
    | Updated(requestID: Word, leafIndex: uint32, leaf: Word, oldTrustRoot: Word, newTrustRoot: Word, isAnchor: bool)
    | Recorded(requestID: Word, source: Source, dependencyKey: Word, leafIndex: uint32)
    | Resolved(requestID: Word, requester: Word, dependencyKey: Word, newDependency: bool, homeTrustRoot: Word)
    | Unacceptable

  /** The verified source block and its trust root. */
  datatype Source = Source(chainID: Word, height: Word, blockHash: Word, trustRoot: Word)

  datatype Log = Log(removed: bool, address: Word, blockNumber: nat, blockHash: Word, txHash: Word, txIndex: nat, index: nat, event: GatewayEvent)

  datatype ReceiptRecord = ReceiptRecord(succeeded: bool, txHash: Word, blockHash: Word, blockNumber: Option<nat>, txIndex: nat, logs: seq<Log>)

  datatype Placed = Placed(event: GatewayEvent, index: nat)

  datatype Collected = Collected(success: Option<Placed>, resolution: Option<Placed>, dependency: Option<Placed>, updates: seq<Placed>)

  const NOTHING: Collected := Collected(None, None, None, [])

  const MAX_UINT32: nat := 0xffff_ffff

  // ---------------------------------------------------------------------
  // The scan
  // ---------------------------------------------------------------------

  function AddLog(gateway: Word, c: Collected, log: Log): Option<Collected> {
    if log.address != gateway then Some(c)
    else
      match log.event
      case Success(_, _, _) => if c.success.Some? then None else Some(c.(success := Some(Placed(log.event, log.index))))
      case Updated(_, _, _, _, _, _) => Some(c.(updates := c.updates + [Placed(log.event, log.index)]))
      case Recorded(_, _, _, _) => if c.dependency.Some? then None else Some(c.(dependency := Some(Placed(log.event, log.index))))
      case Resolved(_, _, _, _, _) => if c.resolution.Some? then None else Some(c.(resolution := Some(Placed(log.event, log.index))))
      case Unacceptable => None
  }

  /** The Gateway events of a receipt, if each kind occurs as often as it may. */
  function Collect(gateway: Word, logs: seq<Log>): Option<Collected> {
    if logs == [] then Some(NOTHING)
    else
      match Collect(gateway, logs[..|logs| - 1])
      case None => None
      case Some(c) => AddLog(gateway, c, logs[|logs| - 1])
  }

  lemma {:induction false} CollectPrefix(gateway: Word, logs: seq<Log>, n: nat)
    requires n <= |logs| && Collect(gateway, logs[..n]).None?
    ensures Collect(gateway, logs).None?
    decreases |logs|
  {
    if n < |logs| {
      assert logs[..|logs| - 1][..n] == logs[..n];
      CollectPrefix(gateway, logs[..|logs| - 1], n);
    } else {
      assert logs[..n] == logs;
    }
  }

  predicate At(log: Log, blockHash: Word, blockNumber: nat, txHash: Word, txIndex: nat) {
    log.blockHash == blockHash && log.blockNumber == blockNumber && log.txHash == txHash && log.txIndex == txIndex
  }

  /** Every log lies in the receipt's transaction, in strictly increasing order. */
  ghost predicate InOrder(logs: seq<Log>, blockHash: Word, blockNumber: nat, txHash: Word, txIndex: nat) {
    && (forall i :: 0 <= i < |logs| ==> At(logs[i], blockHash, blockNumber, txHash, txIndex))
    && (forall i, j :: 0 <= i && j == i + 1 && j < |logs| ==> logs[i].index < logs[j].index)
  }

  lemma InOrderGrows(logs: seq<Log>, i: nat, blockHash: Word, blockNumber: nat, txHash: Word, txIndex: nat)
    requires i < |logs| && InOrder(logs[..i], blockHash, blockNumber, txHash, txIndex)
    ensures At(logs[i], blockHash, blockNumber, txHash, txIndex) && (i > 0 ==> logs[i - 1].index < logs[i].index)
            ==> InOrder(logs[..i + 1], blockHash, blockNumber, txHash, txIndex)
    ensures !(At(logs[i], blockHash, blockNumber, txHash, txIndex) && (i > 0 ==> logs[i - 1].index < logs[i].index))
            ==> !InOrder(logs, blockHash, blockNumber, txHash, txIndex)
  {
  }

  lemma NothingCollected(gateway: Word, logs: seq<Log>, blockHash: Word, blockNumber: nat, txHash: Word, txIndex: nat)
    ensures Collect(gateway, logs[..0]) == Some(NOTHING) && InOrder(logs[..0], blockHash, blockNumber, txHash, txIndex)
  {
  }

  lemma CollectStep(gateway: Word, logs: seq<Log>, i: nat, c: Collected)
    requires i < |logs| && Collect(gateway, logs[..i]) == Some(c)
    ensures Collect(gateway, logs[..i + 1]) == AddLog(gateway, c, logs[i])
  {
    assert logs[..i + 1][..i] == logs[..i];
  }

  /** The indexer's scan. */
  method ScanReceipt(gateway: Word, receipt: ReceiptRecord, blockHash: Word, blockNumber: nat) returns (r: Option<Collected>)
    ensures InOrder(receipt.logs, blockHash, blockNumber, receipt.txHash, receipt.txIndex) ==> r == Collect(gateway, receipt.logs)
    ensures !InOrder(receipt.logs, blockHash, blockNumber, receipt.txHash, receipt.txIndex) ==> r.None?
  {
    hide Collect, InOrder;
    var logs, c, previous := receipt.logs, NOTHING, 0;
    NothingCollected(gateway, logs, blockHash, blockNumber, receipt.txHash, receipt.txIndex);
    for i := 0 to |logs|
      invariant InOrder(logs[..i], blockHash, blockNumber, receipt.txHash, receipt.txIndex)
      invariant Collect(gateway, logs[..i]) == Some(c) && (i > 0 ==> previous == logs[i - 1].index)
    {
      var log := logs[i];
      InOrderGrows(logs, i, blockHash, blockNumber, receipt.txHash, receipt.txIndex);
      CollectStep(gateway, logs, i, c);
      if !At(log, blockHash, blockNumber, receipt.txHash, receipt.txIndex) || (i > 0 && log.index <= previous) {
        return None;
      }
      previous := log.index;
      var added := AddLog(gateway, c, log);
      if added.None? {
        CollectPrefix(gateway, logs, i + 1);
        return None;
      }
      c := added.value;
    }
    assert logs[..|logs|] == logs;
    return Some(c);
  }

  /** The remote validator's scan also rejects removed logs and a dependency at another log index. */
  method ScanRemoteReceipt(gateway: Word, receipt: ReceiptRecord, blockHash: Word, blockNumber: nat, txHash: Word, logIndex: uint32)
    returns (r: Option<Collected>)
    ensures r.Some? ==>
              && InOrder(receipt.logs, blockHash, blockNumber, txHash, receipt.txIndex) && Current(receipt.logs)
              && r == Collect(gateway, receipt.logs) && (r.value.dependency.Some? ==> r.value.dependency.value.index == logIndex)
    ensures r.None? ==>
              || !InOrder(receipt.logs, blockHash, blockNumber, txHash, receipt.txIndex) || !Current(receipt.logs)
              || Collect(gateway, receipt.logs).None?
              || (Collect(gateway, receipt.logs).value.dependency.Some? && Collect(gateway, receipt.logs).value.dependency.value.index != logIndex)
  {
    hide Collect, InOrder;
    var logs, c, previous := receipt.logs, NOTHING, 0;
    NothingCollected(gateway, logs, blockHash, blockNumber, txHash, receipt.txIndex);
    for i := 0 to |logs|
      invariant InOrder(logs[..i], blockHash, blockNumber, txHash, receipt.txIndex) && Current(logs[..i])
      invariant Collect(gateway, logs[..i]) == Some(c) && (i > 0 ==> previous == logs[i - 1].index)
      invariant c.dependency.Some? ==> c.dependency.value.index == logIndex
    {
      var log := logs[i];
      InOrderGrows(logs, i, blockHash, blockNumber, txHash, receipt.txIndex);
      CollectStep(gateway, logs, i, c);
      if log.removed || !At(log, blockHash, blockNumber, txHash, receipt.txIndex) || (i > 0 && log.index <= previous) {
        return None;
      }
      previous := log.index;
      var added := AddLog(gateway, c, log);
      if added.None? {
        CollectPrefix(gateway, logs, i + 1);
        return None;
      }
      if log.address == gateway && log.event.Recorded? && log.index != logIndex {
        DependencyStays(gateway, logs, i + 1);
        return None;
      }
      c := added.value;
    }
    assert logs[..|logs|] == logs;
    return Some(c);
  }

  ghost predicate Current(logs: seq<Log>) {
    forall i :: 0 <= i < |logs| ==> !logs[i].removed
  }

  /** A dependency once collected is never replaced. */
  lemma {:induction false} DependencyStays(gateway: Word, logs: seq<Log>, n: nat)
    requires n <= |logs| && Collect(gateway, logs[..n]).Some? && Collect(gateway, logs[..n]).value.dependency.Some?
    ensures Collect(gateway, logs).Some? ==> Collect(gateway, logs).value.dependency == Collect(gateway, logs[..n]).value.dependency
    decreases |logs|
  {
    if n < |logs| {
      assert logs[..|logs| - 1][..n] == logs[..n];
      DependencyStays(gateway, logs[..|logs| - 1], n);
    } else {
      assert logs[..n] == logs;
    }
  }

  /** Each collected event has the kind of its slot. */
  ghost predicate Kinds(c: Collected) {
    && (c.success.Some? ==> c.success.value.event.Success?)
    && (c.resolution.Some? ==> c.resolution.value.event.Resolved?)
    && (c.dependency.Some? ==> c.dependency.value.event.Recorded?)
    && forall i :: 0 <= i < |c.updates| ==> c.updates[i].event.Updated?
  }

  lemma {:induction false} CollectKinds(gateway: Word, logs: seq<Log>)
    ensures Collect(gateway, logs).Some? ==> Kinds(Collect(gateway, logs).value)
  {
    if logs != [] {
      CollectKinds(gateway, logs[..|logs| - 1]);
    }
  }

  // ---------------------------------------------------------------------
  // Acceptance
  // ---------------------------------------------------------------------

  /** The hash pair, the deployment, and the two content hashes of a dependency. */
  datatype Deployment = Deployment(h: Merkle.PairHash, gateway: Word, merkleDepth: nat, dependencyKey: Source -> Word, payloadDigest: GatewayEvent -> Word)

  datatype Request = Request(id: Word, requester: Word, chainID: Word, height: Word, blockHash: Word)

  datatype Locator = Locator(blockNumber: nat, blockHash: Word, txHash: Word, txIndex: uint32, logIndex: uint32, payloadDigest: Word)

  datatype Bundle = Bundle(collected: Collected, siblings: Option<seq<Word>>)

  predicate Complete(c: Collected) {
    c.success.Some? && c.resolution.Some? && c.dependency.Some? && |c.updates| == 2
  }

  predicate Ordered(c: Collected)
    requires Complete(c)
  {
    c.success.value.index < c.updates[0].index < c.updates[1].index < c.dependency.value.index < c.resolution.value.index
  }

  function AnchorLeaf(d: Deployment, parentHash: Word, c: Collected): Word
    requires Kinds(c) && Complete(c)
  {
    d.h(c.updates[0].event.oldTrustRoot, parentHash)
  }

  function DependencyLeaf(d: Deployment, c: Collected): Word
    requires Kinds(c) && Complete(c)
  {
    d.h(c.dependency.value.event.source.trustRoot, c.dependency.value.event.source.blockHash)
  }

  /** The roots the two updates name are those of the trees over the rebuilt leaves. */
  ghost predicate Rooted(d: Deployment, parentHash: Word, c: Collected)
    requires Kinds(c) && Complete(c)
  {
    var anchorLeaf, dependencyLeaf := AnchorLeaf(d, parentHash, c), DependencyLeaf(d, c);
    && c.updates[0].event.newTrustRoot == Merkle.FullRoot(d.h, [anchorLeaf], d.merkleDepth)
    && c.updates[1].event.newTrustRoot == Merkle.FullRoot(d.h, [anchorLeaf, dependencyLeaf], d.merkleDepth)
  }

  // The indexer compares every event with the request it has observed.

  predicate FromRequest(request: Request, source: Source) {
    source.chainID == request.chainID && source.height == request.height && source.blockHash == request.blockHash
  }

  predicate Resolves(d: Deployment, request: Request, c: Collected)
    requires Kinds(c) && c.success.Some? && c.resolution.Some?
  {
    var success, resolution := c.success.value.event, c.resolution.value.event;
    && success.requestID == request.id && FromRequest(request, success.source) && success.dependencyKey == resolution.dependencyKey
    && resolution.requestID == request.id && resolution.requester == request.requester
    && success.dependencyKey == d.dependencyKey(success.source)
  }

  predicate RecordsRequest(d: Deployment, request: Request, c: Collected)
    requires Kinds(c) && Complete(c)
  {
    var success, dependency := c.success.value.event, c.dependency.value.event;
    && dependency.requestID == request.id && FromRequest(request, dependency.source)
    && dependency.source.trustRoot == success.source.trustRoot
    && dependency.dependencyKey == success.dependencyKey && dependency.dependencyKey == c.resolution.value.event.dependencyKey
    && dependency.dependencyKey == d.dependencyKey(dependency.source)
  }

  predicate UpdatesForRequest(d: Deployment, parentHash: Word, request: Request, c: Collected)
    requires Kinds(c) && Complete(c)
  {
    var anchor, update, dependency := c.updates[0].event, c.updates[1].event, c.dependency.value.event;
    && anchor.requestID == request.id && anchor.leafIndex == 0 && anchor.isAnchor && anchor.leaf == AnchorLeaf(d, parentHash, c)
    && update.requestID == request.id && update.leafIndex == 1 && !update.isAnchor && dependency.leafIndex == 1
    && update.leaf == DependencyLeaf(d, c) && update.oldTrustRoot == anchor.newTrustRoot
    && c.resolution.value.event.homeTrustRoot == update.newTrustRoot
  }

  ghost predicate AcceptsCollected(d: Deployment, parentHash: Word, request: Request, c: Collected) {
    && Kinds(c) && c.success.Some? && c.resolution.Some? && c.success.value.index < c.resolution.value.index
    && Resolves(d, request, c)
    && if !c.resolution.value.event.newDependency then c.updates == [] && c.dependency.None?
       else Complete(c) && Ordered(c) && RecordsRequest(d, request, c) && UpdatesForRequest(d, parentHash, request, c) && Rooted(d, parentHash, c)
  }

  /** What the indexer accepts for an observed request. */
  ghost predicate IndexerAccepts(d: Deployment, blockHash: Word, blockNumber: nat, parentHash: Word, request: Request, receipt: ReceiptRecord) {
    && d.gateway != 0 && blockHash != 0 && parentHash != 0 && Merkle.ValidDepth(d.merkleDepth)
    && receipt.succeeded && receipt.txHash != 0 && receipt.blockHash == blockHash && receipt.blockNumber == Some(blockNumber) && receipt.txIndex <= MAX_UINT32
    && InOrder(receipt.logs, blockHash, blockNumber, receipt.txHash, receipt.txIndex)
    && Collect(d.gateway, receipt.logs).Some? && AcceptsCollected(d, parentHash, request, Collect(d.gateway, receipt.logs).value)
  }

  // The remote validator has no request: it compares every event with the dependency.

  predicate TupleMatches(c: Collected)
    requires Kinds(c) && Complete(c)
  {
    var success, dependency, id := c.success.value.event, c.dependency.value.event, c.dependency.value.event.requestID;
    && success.requestID == id && c.resolution.value.event.requestID == id
    && c.updates[0].event.requestID == id && c.updates[1].event.requestID == id
    && success.source.chainID == dependency.source.chainID && success.source.height == dependency.source.height
    && success.source.blockHash == dependency.source.blockHash && success.source.trustRoot == dependency.source.trustRoot
    && success.dependencyKey == dependency.dependencyKey && c.resolution.value.event.dependencyKey == dependency.dependencyKey
  }

  predicate FixedIndices(c: Collected)
    requires Kinds(c) && Complete(c)
  {
    && c.updates[0].event.leafIndex == 0 && c.updates[0].event.isAnchor
    && c.updates[1].event.leafIndex == 1 && !c.updates[1].event.isAnchor && c.dependency.value.event.leafIndex == 1
  }

  predicate UpdateChain(d: Deployment, parentHash: Word, c: Collected)
    requires Kinds(c) && Complete(c)
  {
    && c.updates[0].event.leaf == AnchorLeaf(d, parentHash, c) && c.updates[1].event.leaf == DependencyLeaf(d, c)
    && c.updates[1].event.oldTrustRoot == c.updates[0].event.newTrustRoot
    && c.resolution.value.event.homeTrustRoot == c.updates[1].event.newTrustRoot
  }

  ghost predicate RemoteAcceptsCollected(d: Deployment, parentHash: Word, locator: Locator, c: Collected) {
    && Kinds(c) && (c.dependency.Some? ==> c.dependency.value.index == locator.logIndex)
    && Complete(c) && c.resolution.value.event.newDependency && Ordered(c) && TupleMatches(c)
    && c.dependency.value.event.dependencyKey == d.dependencyKey(c.dependency.value.event.source)
    && d.payloadDigest(c.dependency.value.event) == locator.payloadDigest
    && FixedIndices(c) && UpdateChain(d, parentHash, c) && Rooted(d, parentHash, c)
  }

  /** What the remote validator accepts for a locator. */
  ghost predicate RemoteAccepts(d: Deployment, parentHash: Word, locator: Locator, receipt: ReceiptRecord) {
    && receipt.succeeded && receipt.txHash == locator.txHash && receipt.blockHash == locator.blockHash
    && receipt.blockNumber == Some(locator.blockNumber) && receipt.txIndex == locator.txIndex
    && InOrder(receipt.logs, locator.blockHash, locator.blockNumber, locator.txHash, receipt.txIndex) && Current(receipt.logs)
    && Collect(d.gateway, receipt.logs).Some? && RemoteAcceptsCollected(d, parentHash, locator, Collect(d.gateway, receipt.logs).value)
  }

  // ---------------------------------------------------------------------
  // How the two checks relate
  // ---------------------------------------------------------------------

  /** The indexer accepts the receipt as the record of a new dependency. */
  ghost predicate IndexesNew(d: Deployment, parentHash: Word, request: Request, locator: Locator, receipt: ReceiptRecord) {
    && IndexerAccepts(d, locator.blockHash, locator.blockNumber, parentHash, request, receipt)
    && Collect(d.gateway, receipt.logs).value.resolution.value.event.newDependency
  }

  /** The locator an indexer would gossip for the receipt's dependency. */
  ghost predicate Names(d: Deployment, locator: Locator, receipt: ReceiptRecord) {
    && locator.txHash == receipt.txHash && locator.txIndex == receipt.txIndex
    && Collect(d.gateway, receipt.logs).Some?
    && var dependency := Collect(d.gateway, receipt.logs).value.dependency;
       dependency.Some? && dependency.value.index == locator.logIndex && d.payloadDigest(dependency.value.event) == locator.payloadDigest
  }

  /** Whatever the indexer records as a new dependency, the remote validator accepts for
      the locator naming it, exactly when no log of the receipt is marked removed. */
  lemma IndexedReceiptsTravel(d: Deployment, parentHash: Word, request: Request, locator: Locator, receipt: ReceiptRecord)
    requires IndexesNew(d, parentHash, request, locator, receipt) && Names(d, locator, receipt)
    ensures RemoteAccepts(d, parentHash, locator, receipt) <==> Current(receipt.logs)
    ensures About(d, request, receipt)
  {
    hide Collect, InOrder, Current, Rooted;
    var c := Collect(d.gateway, receipt.logs).value;
    SameFields(c.success.value.event.source, c.dependency.value.event.source, request);
  }

  lemma SameFields(a: Source, b: Source, request: Request)
    requires FromRequest(request, a) && FromRequest(request, b) && a.trustRoot == b.trustRoot
    ensures a == b
  {
  }

  /** The request the receipt's dependency and resolution name. */
  ghost predicate About(d: Deployment, request: Request, receipt: ReceiptRecord) {
    && Collect(d.gateway, receipt.logs).Some?
    && var c := Collect(d.gateway, receipt.logs).value;
       && Kinds(c) && c.dependency.Some? && c.resolution.Some?
       && request.id == c.dependency.value.event.requestID && FromRequest(request, c.dependency.value.event.source)
       && request.requester == c.resolution.value.event.requester
  }

  /** Conversely, a receipt the remote validator accepts is indexed for exactly the requests it is about. */
  lemma RemoteReceiptsIndex(d: Deployment, parentHash: Word, request: Request, locator: Locator, receipt: ReceiptRecord)
    requires RemoteAccepts(d, parentHash, locator, receipt)
    requires d.gateway != 0 && locator.blockHash != 0 && parentHash != 0 && locator.txHash != 0 && Merkle.ValidDepth(d.merkleDepth)
    ensures IndexesNew(d, parentHash, request, locator, receipt) <==> About(d, request, receipt)
  {
    hide Collect, InOrder, Current, Rooted;
    var c := Collect(d.gateway, receipt.logs).value;
    assert c.success.value.event.source == c.dependency.value.event.source;
  }

  /** The exact relation of the two checks, for every receipt, request and locator naming the receipt's dependency. */
  lemma ValidatorsAgree(d: Deployment, parentHash: Word, request: Request, locator: Locator, receipt: ReceiptRecord)
    requires d.gateway != 0 && locator.blockHash != 0 && parentHash != 0 && locator.txHash != 0 && Merkle.ValidDepth(d.merkleDepth)
    requires Names(d, locator, receipt)
    ensures RemoteAccepts(d, parentHash, locator, receipt) && About(d, request, receipt)
            <==> IndexesNew(d, parentHash, request, locator, receipt) && Current(receipt.logs)
  {
    hide RemoteAccepts, IndexesNew, About, Names, Current;
    if RemoteAccepts(d, parentHash, locator, receipt) {
      RemoteReceiptsIndex(d, parentHash, request, locator, receipt);
      AcceptedIsCurrent(d, parentHash, locator, receipt);
    }
    if IndexesNew(d, parentHash, request, locator, receipt) {
      IndexedReceiptsTravel(d, parentHash, request, locator, receipt);
    }
  }

  lemma AcceptedIsCurrent(d: Deployment, parentHash: Word, locator: Locator, receipt: ReceiptRecord)
    requires RemoteAccepts(d, parentHash, locator, receipt)
    ensures Current(receipt.logs)
  {
  }

  /** The receipt with one log marked removed. */
  function WithRemoved(receipt: ReceiptRecord, i: nat): ReceiptRecord
    requires i < |receipt.logs|
  {
    receipt.(logs := receipt.logs[i := receipt.logs[i].(removed := true)])
  }

  lemma {:induction false} CollectIgnoresRemoved(gateway: Word, logs: seq<Log>, logs': seq<Log>)
    requires |logs| == |logs'| && forall k :: 0 <= k < |logs| ==> logs'[k].(removed := false) == logs[k].(removed := false)
    ensures Collect(gateway, logs') == Collect(gateway, logs)
  {
    if logs != [] {
      var last, last' := logs[|logs| - 1], logs'[|logs'| - 1];
      CollectIgnoresRemoved(gateway, logs[..|logs| - 1], logs'[..|logs'| - 1]);
      assert last'.(removed := false) == last.(removed := false);
      assert last'.address == last'.(removed := false).address && last'.event == last'.(removed := false).event && last'.index == last'.(removed := false).index;
    }
  }

  /** Where they part: marking any log of an indexed receipt removed changes nothing for
      the indexer and makes the remote validator reject it. */
  lemma RemovedLogSplitsThem(d: Deployment, parentHash: Word, request: Request, locator: Locator, receipt: ReceiptRecord, i: nat)
    requires IndexesNew(d, parentHash, request, locator, receipt) && i < |receipt.logs|
    ensures IndexesNew(d, parentHash, request, locator, WithRemoved(receipt, i))
    ensures !RemoteAccepts(d, parentHash, locator, WithRemoved(receipt, i))
  {
    hide Collect, AcceptsCollected;
    var marked := WithRemoved(receipt, i);
    CollectIgnoresRemoved(d.gateway, receipt.logs, marked.logs);
    assert marked.logs[i].removed;
    assert InOrder(marked.logs, locator.blockHash, locator.blockNumber, receipt.txHash, receipt.txIndex);
  }

  /** A witness handed on folds the dependency's leaf to the home root of the resolution. */
  ghost predicate Witnessed(d: Deployment, parentHash: Word, bundle: Bundle) {
    bundle.siblings.Some? ==>
      && Merkle.ValidDepth(d.merkleDepth) && Kinds(bundle.collected) && Complete(bundle.collected)
      && bundle.siblings.value == Merkle.DependencySiblings(d.h, AnchorLeaf(d, parentHash, bundle.collected), d.merkleDepth)
      && Merkle.Fold(d.h, DependencyLeaf(d, bundle.collected), 1, bundle.siblings.value) == bundle.collected.resolution.value.event.homeTrustRoot
  }

  /** The appends and the witness: only a root mismatch fails them. */
  method RebuildWitness(d: Deployment, parentHash: Word, c: Collected) returns (siblings: Option<seq<Word>>)
    requires Kinds(c) && Complete(c) && Merkle.ValidDepth(d.merkleDepth)
    requires c.resolution.value.event.homeTrustRoot == c.updates[1].event.newTrustRoot
    ensures siblings.Some? <==> Rooted(d, parentHash, c)
    ensures Witnessed(d, parentHash, Bundle(c, siblings))
  {
    hide Merkle.FullRoot, Merkle.Fold, Merkle.DependencySiblings;
    var anchorLeaf, dependencyLeaf := AnchorLeaf(d, parentHash, c), DependencyLeaf(d, c);
    var rebuilt := Merkle.RebuildDependencyWitness(d.h, d.merkleDepth, anchorLeaf, dependencyLeaf,
                                                   c.updates[0].event.newTrustRoot, c.updates[1].event.newTrustRoot);
    return if rebuilt.Ok? then Some(rebuilt.value.siblings) else None;
  }

  /** The indexer's check. */
  method VerifyVerificationReceipt(d: Deployment, blockHash: Word, blockNumber: nat, parentHash: Word, request: Request, receipt: ReceiptRecord)
    returns (r: Option<Bundle>)
    ensures r.Some? <==> IndexerAccepts(d, blockHash, blockNumber, parentHash, request, receipt)
    ensures r.Some? ==> Witnessed(d, parentHash, r.value)
  {
    hide Collect, InOrder, Rooted;
    if d.gateway == 0 || blockHash == 0 || parentHash == 0 || !Merkle.ValidDepth(d.merkleDepth) {
      return None;
    }
    if !receipt.succeeded || receipt.txHash == 0 || receipt.blockHash != blockHash || receipt.blockNumber != Some(blockNumber) || receipt.txIndex > MAX_UINT32 {
      return None;
    }
    var scanned := ScanReceipt(d.gateway, receipt, blockHash, blockNumber);
    if scanned.None? {
      return None;
    }
    var c := scanned.value;
    CollectKinds(d.gateway, receipt.logs);
    if c.success.None? || c.resolution.None? || c.success.value.index >= c.resolution.value.index {
      return None;
    }
    if !Resolves(d, request, c) {
      return None;
    }
    if !c.resolution.value.event.newDependency {
      return if c.updates == [] && c.dependency.None? then Some(Bundle(c, None)) else None;
    }
    if !Complete(c) || !Ordered(c) || !RecordsRequest(d, request, c) || !UpdatesForRequest(d, parentHash, request, c) {
      return None;
    }
    var siblings := RebuildWitness(d, parentHash, c);
    return if siblings.Some? then Some(Bundle(c, siblings)) else None;
  }

  /** The remote validator's check. */
  method ValidateReceipt(d: Deployment, parentHash: Word, locator: Locator, receipt: ReceiptRecord) returns (r: Option<Bundle>)
    requires Merkle.ValidDepth(d.merkleDepth)
    ensures r.Some? <==> RemoteAccepts(d, parentHash, locator, receipt)
    ensures r.Some? ==> r.value.siblings.Some? && Witnessed(d, parentHash, r.value)
  {
    hide Collect, InOrder, Current, Rooted;
    if !receipt.succeeded || receipt.txHash != locator.txHash || receipt.blockHash != locator.blockHash
       || receipt.blockNumber != Some(locator.blockNumber) || receipt.txIndex != locator.txIndex {
      return None;
    }
    var scanned := ScanRemoteReceipt(d.gateway, receipt, locator.blockHash, locator.blockNumber, locator.txHash, locator.logIndex);
    if scanned.None? {
      return None;
    }
    var c := scanned.value;
    CollectKinds(d.gateway, receipt.logs);
    if !Complete(c) || !c.resolution.value.event.newDependency || !Ordered(c) {
      return None;
    }
    if !TupleMatches(c) || c.dependency.value.event.dependencyKey != d.dependencyKey(c.dependency.value.event.source) {
      return None;
    }
    if d.payloadDigest(c.dependency.value.event) != locator.payloadDigest {
      return None;
    }
    if !FixedIndices(c) || !UpdateChain(d, parentHash, c) {
      return None;
    }
    var siblings := RebuildWitness(d, parentHash, c);
    return if siblings.Some? then Some(Bundle(c, siblings)) else None;
  }

  // ---------------------------------------------------------------------
  // Honest receipts
  // ---------------------------------------------------------------------

  /** A log of the Gateway in the transaction. */
  function GatewayLog(d: Deployment, locator: Locator, index: nat, event: GatewayEvent): Log {
    Log(false, d.gateway, locator.blockNumber, locator.blockHash, locator.txHash, locator.txIndex, index, event)
  }

  function HonestDependency(d: Deployment, request: Request, trustRoot: Word): GatewayEvent {
    var source := Source(request.chainID, request.height, request.blockHash, trustRoot);
    Recorded(request.id, source, d.dependencyKey(source), 1)
  }

  /** What the Gateway emits when it records a new dependency on the home root `oldRoot`: the five
      events, in order, right before and after the log the locator names. */
  ghost function HonestReceipt(d: Deployment, parentHash: Word, oldRoot: Word, trustRoot: Word, request: Request, locator: Locator): ReceiptRecord
    requires Merkle.ValidDepth(d.merkleDepth) && locator.logIndex >= 3
  {
    var source := Source(request.chainID, request.height, request.blockHash, trustRoot);
    var key := d.dependencyKey(source);
    var anchorLeaf, leaf := d.h(oldRoot, parentHash), d.h(trustRoot, request.blockHash);
    var anchorRoot := Merkle.FullRoot(d.h, [anchorLeaf], d.merkleDepth);
    var homeRoot := Merkle.FullRoot(d.h, [anchorLeaf, leaf], d.merkleDepth);
    ReceiptRecord(true, locator.txHash, locator.blockHash, Some(locator.blockNumber), locator.txIndex,
                  [GatewayLog(d, locator, locator.logIndex - 3, Success(request.id, source, key)),
                   GatewayLog(d, locator, locator.logIndex - 2, Updated(request.id, 0, anchorLeaf, oldRoot, anchorRoot, true)),
                   GatewayLog(d, locator, locator.logIndex - 1, Updated(request.id, 1, leaf, anchorRoot, homeRoot, false)),
                   GatewayLog(d, locator, locator.logIndex, HonestDependency(d, request, trustRoot)),
                   GatewayLog(d, locator, locator.logIndex + 1, Resolved(request.id, request.requester, key, true, homeRoot))])
  }

  lemma CollectFive(gateway: Word, logs: seq<Log>)
    requires |logs| == 5 && forall i :: 0 <= i < 5 ==> logs[i].address == gateway
    requires logs[0].event.Success? && logs[1].event.Updated? && logs[2].event.Updated? && logs[3].event.Recorded? && logs[4].event.Resolved?
    ensures Collect(gateway, logs) == Some(Collected(
              Some(Placed(logs[0].event, logs[0].index)), Some(Placed(logs[4].event, logs[4].index)), Some(Placed(logs[3].event, logs[3].index)),
              [Placed(logs[1].event, logs[1].index), Placed(logs[2].event, logs[2].index)]))
  {
    assert logs[..0] == [] && logs[..5] == logs;
    CollectStep(gateway, logs, 0, NOTHING);
    var c1 := AddLog(gateway, NOTHING, logs[0]).value;
    CollectStep(gateway, logs, 1, c1);
    var c2 := AddLog(gateway, c1, logs[1]).value;
    CollectStep(gateway, logs, 2, c2);
    var c3 := AddLog(gateway, c2, logs[2]).value;
    assert c3.updates == [Placed(logs[1].event, logs[1].index), Placed(logs[2].event, logs[2].index)];
    CollectStep(gateway, logs, 3, c3);
    var c4 := AddLog(gateway, c3, logs[3]).value;
    CollectStep(gateway, logs, 4, c4);
  }

  /** Every honest receipt passes both checks, whatever the hash, depth, request and roots. */
  lemma HonestReceiptAccepted(d: Deployment, parentHash: Word, oldRoot: Word, trustRoot: Word, request: Request, locator: Locator)
    requires d.gateway != 0 && locator.blockHash != 0 && parentHash != 0 && locator.txHash != 0 && Merkle.ValidDepth(d.merkleDepth)
    requires locator.logIndex >= 3 && locator.payloadDigest == d.payloadDigest(HonestDependency(d, request, trustRoot))
    ensures var receipt := HonestReceipt(d, parentHash, oldRoot, trustRoot, request, locator);
            IndexesNew(d, parentHash, request, locator, receipt) && Names(d, locator, receipt) && RemoteAccepts(d, parentHash, locator, receipt)
  {
    hide Collect, Merkle.FullRoot;
    var receipt := HonestReceipt(d, parentHash, oldRoot, trustRoot, request, locator);
    CollectFive(d.gateway, receipt.logs);
  }
}
