/**
 The submission executor over its durable tables. Every database call may fail
 before or after it took effect, every network answer is arbitrary, and the
 indexer may add receipts and resolutions between any two steps; an error return
 stands for a crash, and the next `Step` for the restarted process.
 */
module Executor {
  import opened Base

  type Bytes = seq<bv8>

  datatype ExecutionState = Prepared | Submitted | Confirmed | Retryable | Reverted | Superseded

  datatype PlanKind = DirectPlan | PathPlan

  /** The immutable part of a submission: everything its ID covers. */
  datatype Content = Content(requestID: Word, attempt: uint64, planID: Word, planKind: PlanKind, snapshotID: Word, proofID: Option<Word>,
                             homeChainID: Word, gateway: Word, sender: Word, nonce: uint64, calldataHash: Word, raw: Bytes, txHash: Word,
                             maxFeePerGas: nat, maxPriorityFeePerGas: nat, gasLimit: uint64)

  datatype Submission = Submission(id: Word, content: Content, state: ExecutionState)

  datatype ConfirmedReceipt = ConfirmedReceipt(submissionID: Word, requestID: Word, txHash: Word, blockNumber: uint64, blockHash: Word, confirmations: uint64)

  /** Rows the indexer writes. */
  datatype IndexedReceipt = IndexedReceipt(chainID: Word, txHash: Word, blockNumber: uint64, blockHash: Word, requestID: Word, succeeded: bool)

  datatype Resolution = Resolution(chainID: Word, txHash: Word)

  datatype Tables = Tables(
    submissions: map<Word, Submission>,
    transitions: set<(Word, ExecutionState, ExecutionState)>,
    confirmed: map<Word, ConfirmedReceipt>,
    receipts: set<IndexedReceipt>,
    resolutions: map<Word, Resolution>)

  /** The two hashes: of signed bytes, and of a submission's content. */
  datatype Hashes = Hashes(keccak: Bytes -> Word, submission: Content -> Word)

  /** What happened, in order: a row stored, bytes handed to the network, a row confirmed. */
  datatype Action = Stored(id: Word) | Sent(id: Word, raw: Bytes) | Concluded(id: Word)

  // ---------------------------------------------------------------------
  // States
  // ---------------------------------------------------------------------

  predicate Active(state: ExecutionState) {
    state == Prepared || state == Submitted || state == Retryable
  }

  predicate Legal(from: ExecutionState, to: ExecutionState) {
    || (from == Prepared && (to == Submitted || to == Retryable || to == Reverted || to == Superseded))
    || (from == Submitted && (to == Confirmed || to == Retryable || to == Reverted || to == Superseded))
    || (from == Retryable && (to == Submitted || to == Reverted || to == Superseded))
  }

  predicate ValidPrepared(hashes: Hashes, s: Submission) {
    var c := s.content;
    && c.requestID != 0 && c.planID != 0 && c.snapshotID != 0 && c.homeChainID != 0 && c.gateway != 0 && c.sender != 0
    && c.calldataHash != 0 && c.txHash != 0 && 0 < |c.raw| <= 1024 * 1024 && c.gasLimit != 0
    && 0 < c.maxFeePerGas < TWO_256 && c.maxPriorityFeePerGas <= c.maxFeePerGas
    && s.state == Prepared && (c.planKind == PathPlan <==> c.proofID.Some?)
    && s.id == hashes.submission(c) && hashes.keccak(c.raw) == c.txHash
  }

  // ---------------------------------------------------------------------
  // What every step keeps
  // ---------------------------------------------------------------------

  /** A durable indexer bundle for the receipt: the success row and the resolution of the request by the same transaction. */
  predicate Bundled(t: Tables, homeChainID: Word, r: ConfirmedReceipt) {
    && IndexedReceipt(homeChainID, r.txHash, r.blockNumber, r.blockHash, r.requestID, true) in t.receipts
    && r.requestID in t.resolutions && t.resolutions[r.requestID] == Resolution(homeChainID, r.txHash)
  }

  /** A confirmed row came from Submitted, with a durable matching receipt and resolution. */
  ghost predicate Justified(t: Tables, s: Submission) {
    && s.id in t.confirmed && (s.id, Submitted, Confirmed) in t.transitions
    && var r := t.confirmed[s.id];
       && r.submissionID == s.id && r.requestID == s.content.requestID && r.txHash == s.content.txHash
       && Bundled(t, s.content.homeChainID, r)
  }

  ghost predicate RowValid(hashes: Hashes, t: Tables, id: Word)
    requires id in t.submissions
  {
    var s := t.submissions[id];
    && s.id == id && ValidPrepared(hashes, s.(state := Prepared))
    && (s.state == Confirmed <==> id in t.confirmed)
    && (s.state == Confirmed ==> Justified(t, s))
  }

  ghost predicate Durable(hashes: Hashes, t: Tables) {
    && (forall id :: id in t.submissions ==> RowValid(hashes, t, id))
    && t.confirmed.Keys <= t.submissions.Keys
    && (forall x, y :: x in t.submissions && y in t.submissions && x != y ==> Apart(t.submissions[x].content, t.submissions[y].content))
    && (forall id, from, to :: (id, from, to) in t.transitions ==> id in t.submissions && Legal(from, to))
  }

  /** Rows never share a transaction hash, nor a request and attempt. */
  predicate Apart(c: Content, d: Content) {
    c.txHash != d.txHash && (c.requestID != d.requestID || c.attempt != d.attempt)
  }

  /** Whatever was handed to the network had been stored before, under the same
      transaction hash, and byte for byte unless two byte strings share a hash. */
  ghost predicate SentStored(hashes: Hashes, t: Tables, history: seq<Action>, j: nat)
    requires j < |history|
  {
    history[j].Sent? ==>
      var (id, raw) := (history[j].id, history[j].raw);
      && id in t.submissions && Stored(id) in history[..j]
      && hashes.keccak(raw) == t.submissions[id].content.txHash
      && (raw == t.submissions[id].content.raw || Collides(hashes, raw, t.submissions[id].content.raw))
  }

  ghost predicate Collides(hashes: Hashes, a: Bytes, b: Bytes) {
    a != b && hashes.keccak(a) == hashes.keccak(b)
  }

  ghost predicate Recorded(hashes: Hashes, t: Tables, history: seq<Action>) {
    && (forall j: nat :: j < |history| ==> SentStored(hashes, t, history, j))
    && (forall id :: id in t.submissions <==> Stored(id) in history)
    && (forall id :: id in t.submissions && t.submissions[id].state == Confirmed <==> Concluded(id) in history)
  }

  predicate HasConfirmed(t: Tables, requestID: Word) {
    exists id :: id in t.submissions && t.submissions[id].content.requestID == requestID && t.submissions[id].state == Confirmed
  }

  predicate Idle(t: Tables) {
    forall id :: id in t.submissions ==> !Active(t.submissions[id].state)
  }

  /** At most one submission is active, and nothing is stored for a request after one of its submissions was confirmed. */
  ghost predicate Exclusive(t: Tables, history: seq<Action>) {
    && (forall x, y :: x in t.submissions && y in t.submissions && Active(t.submissions[x].state) && Active(t.submissions[y].state) ==> x == y)
    && (forall i, j :: 0 <= i < j < |history| ==> !Reprepared(t, history[i], history[j]))
  }

  ghost predicate Reprepared(t: Tables, earlier: Action, later: Action) {
    && earlier.Concluded? && later.Stored? && earlier.id in t.submissions && later.id in t.submissions
    && t.submissions[earlier.id].content.requestID == t.submissions[later.id].content.requestID
  }

  /** When storing a new row keeps the tables exclusive. */
  ghost predicate MayStore(t: Tables, history: seq<Action>, requestID: Word) {
    Exclusive(t, history) && Idle(t) && !HasConfirmed(t, requestID)
  }

  /** Later tables: rows stay, contents and terminal states never change, indexer rows and confirmations only grow. */
  ghost predicate Evolves(t: Tables, t': Tables) {
    && (forall id :: id in t.submissions ==>
          && id in t'.submissions && t'.submissions[id].content == t.submissions[id].content
          && (!Active(t.submissions[id].state) ==> t'.submissions[id].state == t.submissions[id].state))
    && t.transitions <= t'.transitions && t.receipts <= t'.receipts
    && (forall id :: id in t.confirmed ==> id in t'.confirmed && t'.confirmed[id] == t.confirmed[id])
    && (forall id :: id in t.resolutions ==> id in t'.resolutions && t'.resolutions[id] == t.resolutions[id])
  }

  /** A request is confirmed by one submission only. */
  lemma OneConfirmationPerRequest(hashes: Hashes, t: Tables, x: Word, y: Word)
    requires Durable(hashes, t) && x in t.submissions && y in t.submissions
    requires t.submissions[x].state == Confirmed && t.submissions[y].state == Confirmed
    requires t.submissions[x].content.requestID == t.submissions[y].content.requestID
    ensures x == y
  {
    hide ValidPrepared;
    assert RowValid(hashes, t, x) && RowValid(hashes, t, y);
    assert t.submissions[x].content.txHash == t.submissions[y].content.txHash;
  }

  lemma EvolvesTransitive(t1: Tables, t2: Tables, t3: Tables)
    requires Evolves(t1, t2) && Evolves(t2, t3)
    ensures Evolves(t1, t3)
  {
  }

  // ---------------------------------------------------------------------
  // The atomic changes
  // ---------------------------------------------------------------------

  ghost predicate Safe(hashes: Hashes, t: Tables, history: seq<Action>) {
    Durable(hashes, t) && Recorded(hashes, t, history)
  }

  function Inserted(t: Tables, s: Submission): Tables {
    t.(submissions := t.submissions[s.id := s])
  }

  lemma InsertKeeps(hashes: Hashes, t: Tables, history: seq<Action>, s: Submission)
    requires Safe(hashes, t, history) && ValidPrepared(hashes, s)
    requires s.id !in t.submissions && forall id :: id in t.submissions ==> Apart(s.content, t.submissions[id].content)
    ensures Safe(hashes, Inserted(t, s), history + [Stored(s.id)]) && Evolves(t, Inserted(t, s))
    ensures MayStore(t, history, s.content.requestID) ==> Exclusive(Inserted(t, s), history + [Stored(s.id)])
  {
    hide Durable, Recorded, Exclusive, Evolves, ValidPrepared, MayStore;
    PreparedState(hashes, s);
    InsertKeepsDurable(hashes, t, s);
    InsertKeepsRecorded(hashes, t, history, s);
    InsertEvolves(t, s);
    if MayStore(t, history, s.content.requestID) {
      InsertKeepsExclusive(hashes, t, history, s);
    }
  }

  lemma InsertEvolves(t: Tables, s: Submission)
    requires s.id !in t.submissions
    ensures Evolves(t, Inserted(t, s))
  {
  }

  lemma InsertKeepsDurable(hashes: Hashes, t: Tables, s: Submission)
    requires Durable(hashes, t) && ValidPrepared(hashes, s)
    requires s.id !in t.submissions && forall id :: id in t.submissions ==> Apart(s.content, t.submissions[id].content)
    ensures Durable(hashes, Inserted(t, s))
  {
    hide ValidPrepared;
    var t' := Inserted(t, s);
    forall id | id in t'.submissions ensures RowValid(hashes, t', id) {
      if id != s.id {
        assert RowValid(hashes, t, id);
      } else {
        assert s.(state := Prepared) == s by { PreparedState(hashes, s); }
      }
    }
  }

  lemma PreparedState(hashes: Hashes, s: Submission)
    requires ValidPrepared(hashes, s)
    ensures s.state == Prepared
  {
  }

  lemma InsertKeepsRecorded(hashes: Hashes, t: Tables, history: seq<Action>, s: Submission)
    requires Recorded(hashes, t, history) && s.id !in t.submissions && s.state == Prepared
    ensures Recorded(hashes, Inserted(t, s), history + [Stored(s.id)])
  {
    var t', history' := Inserted(t, s), history + [Stored(s.id)];
    forall j: nat | j < |history'| ensures SentStored(hashes, t', history', j) {
      if j < |history| {
        assert SentStored(hashes, t, history, j);
        assert history'[..j] == history[..j];
      }
    }
    assert forall action :: action in history' <==> action in history || action == Stored(s.id);
  }

  lemma InsertKeepsExclusive(hashes: Hashes, t: Tables, history: seq<Action>, s: Submission)
    requires Recorded(hashes, t, history) && MayStore(t, history, s.content.requestID) && s.id !in t.submissions
    ensures Exclusive(Inserted(t, s), history + [Stored(s.id)])
  {
    var t', history' := Inserted(t, s), history + [Stored(s.id)];
    forall i, j | 0 <= i < j < |history'| ensures !Reprepared(t', history'[i], history'[j]) {
      if history[i].Concluded? {
        assert history[i] in history;
        assert Concluded(history[i].id) in history;
      }
      if j < |history| {
        assert !Reprepared(t, history[i], history[j]);
        assert history[j].Stored? ==> Stored(history[j].id) in history;
      }
    }
  }

  /** A recorded state change. */
  function Moved(t: Tables, id: Word, to: ExecutionState): Tables
    requires id in t.submissions
  {
    var s := t.submissions[id];
    t.(submissions := t.submissions[id := s.(state := to)], transitions := t.transitions + {(id, s.state, to)})
  }

  lemma MoveKeepsDurable(hashes: Hashes, t: Tables, id: Word, to: ExecutionState)
    requires Durable(hashes, t) && id in t.submissions && Legal(t.submissions[id].state, to) && to != Confirmed
    ensures Durable(hashes, Moved(t, id, to))
  {
    hide ValidPrepared;
    var t' := Moved(t, id, to);
    forall x | x in t'.submissions ensures RowValid(hashes, t', x) {
      assert RowValid(hashes, t, x);
      assert t'.submissions[x].(state := Prepared) == t.submissions[x].(state := Prepared);
    }
    forall x, y | x in t'.submissions && y in t'.submissions && x != y ensures Apart(t'.submissions[x].content, t'.submissions[y].content) {
      assert Apart(t.submissions[x].content, t.submissions[y].content);
    }
  }

  lemma MoveKeepsRecorded(hashes: Hashes, t: Tables, history: seq<Action>, id: Word, to: ExecutionState)
    requires Recorded(hashes, t, history) && id in t.submissions && Legal(t.submissions[id].state, to) && to != Confirmed
    ensures Recorded(hashes, Moved(t, id, to), history)
  {
    var t' := Moved(t, id, to);
    forall j: nat | j < |history| ensures SentStored(hashes, t', history, j) {
      assert SentStored(hashes, t, history, j);
    }
  }

  lemma MoveKeeps(hashes: Hashes, t: Tables, history: seq<Action>, id: Word, to: ExecutionState)
    requires Safe(hashes, t, history) && id in t.submissions && Legal(t.submissions[id].state, to) && to != Confirmed
    ensures Safe(hashes, Moved(t, id, to), history) && Evolves(t, Moved(t, id, to))
    ensures Exclusive(t, history) ==> Exclusive(Moved(t, id, to), history)
  {
    hide Durable, Recorded, Exclusive, Evolves;
    MoveKeepsDurable(hashes, t, id, to);
    MoveKeepsRecorded(hashes, t, history, id, to);
    MoveEvolves(t, id, to);
    SameContentsExclusive(t, Moved(t, id, to), history);
  }

  /** A legal move of safe tables stays safe exactly when it is not a confirmation: Confirmed needs its receipt. */
  lemma MoveIsSafeExactly(hashes: Hashes, t: Tables, history: seq<Action>, id: Word, to: ExecutionState)
    requires Safe(hashes, t, history) && id in t.submissions && Legal(t.submissions[id].state, to)
    ensures Safe(hashes, Moved(t, id, to), history) <==> to != Confirmed
  {
    if to == Confirmed {
      assert RowValid(hashes, t, id);
      var t' := Moved(t, id, to);
      assert !RowValid(hashes, t', id);
    } else {
      MoveKeeps(hashes, t, history, id, to);
    }
  }

  /** Tables holding one submission that has been accepted by the network. */
  function OneSubmitted(s: Submission): Tables {
    Tables(map[s.id := s.(state := Submitted)], {(s.id, Prepared, Submitted)}, map[], {}, map[])
  }

  /** Such tables are safe, and moving their row on to Confirmed without a receipt is legal and unsafe. */
  lemma BareConfirmationIsUnsafe(hashes: Hashes, s: Submission)
    requires ValidPrepared(hashes, s)
    ensures Safe(hashes, OneSubmitted(s), [Stored(s.id)]) && Legal(Submitted, Confirmed)
    ensures !Safe(hashes, Moved(OneSubmitted(s), s.id, Confirmed), [Stored(s.id)])
  {
    var t := OneSubmitted(s);
    assert t.submissions[s.id].(state := Prepared) == s;
    assert RowValid(hashes, t, s.id);
    assert Stored(s.id) in [Stored(s.id)];
    assert Safe(hashes, t, [Stored(s.id)]);
    MoveIsSafeExactly(hashes, t, [Stored(s.id)], s.id, Confirmed);
  }

  lemma MoveEvolves(t: Tables, id: Word, to: ExecutionState)
    requires id in t.submissions && Active(t.submissions[id].state)
    ensures Evolves(t, Moved(t, id, to))
  {
  }

  /** Exclusivity depends on contents and on which rows are active. */
  lemma SameContentsExclusive(t: Tables, t': Tables, history: seq<Action>)
    requires t'.submissions.Keys == t.submissions.Keys
    requires forall id :: id in t.submissions ==> t'.submissions[id].content == t.submissions[id].content
    requires forall id :: id in t.submissions && Active(t'.submissions[id].state) ==> Active(t.submissions[id].state)
    ensures Exclusive(t, history) ==> Exclusive(t', history)
  {
    if Exclusive(t, history) {
      forall i, j | 0 <= i < j < |history| ensures !Reprepared(t', history[i], history[j]) {
        assert !Reprepared(t, history[i], history[j]);
      }
    }
  }

  function Settled(t: Tables, r: ConfirmedReceipt): Tables
    requires r.submissionID in t.submissions
  {
    Moved(t, r.submissionID, Confirmed).(confirmed := t.confirmed[r.submissionID := r])
  }

  ghost predicate Confirmable(t: Tables, r: ConfirmedReceipt) {
    && r.submissionID in t.submissions
    && var s := t.submissions[r.submissionID];
       && s.state == Submitted && r.requestID == s.content.requestID && r.txHash == s.content.txHash
       && Bundled(t, s.content.homeChainID, r)
  }

  lemma ConfirmKeepsDurable(hashes: Hashes, t: Tables, r: ConfirmedReceipt)
    requires Durable(hashes, t) && Confirmable(t, r)
    ensures Durable(hashes, Settled(t, r))
  {
    hide ValidPrepared;
    var t', id := Settled(t, r), r.submissionID;
    assert RowValid(hashes, t, id);
    forall x | x in t'.submissions ensures RowValid(hashes, t', x) {
      assert RowValid(hashes, t, x);
      assert t'.submissions[x].(state := Prepared) == t.submissions[x].(state := Prepared);
    }
    forall x, y | x in t'.submissions && y in t'.submissions && x != y ensures Apart(t'.submissions[x].content, t'.submissions[y].content) {
      assert Apart(t.submissions[x].content, t.submissions[y].content);
    }
  }

  lemma ConfirmKeepsRecorded(hashes: Hashes, t: Tables, history: seq<Action>, r: ConfirmedReceipt)
    requires Recorded(hashes, t, history) && Confirmable(t, r)
    ensures Recorded(hashes, Settled(t, r), history + [Concluded(r.submissionID)])
  {
    var t', history' := Settled(t, r), history + [Concluded(r.submissionID)];
    forall j: nat | j < |history'| ensures SentStored(hashes, t', history', j) {
      if j < |history| {
        assert SentStored(hashes, t, history, j);
        assert history'[..j] == history[..j];
      }
    }
    assert forall action :: action in history' <==> action in history || action == Concluded(r.submissionID);
  }

  lemma ConfirmKeeps(hashes: Hashes, t: Tables, history: seq<Action>, r: ConfirmedReceipt)
    requires Safe(hashes, t, history) && Confirmable(t, r)
    ensures Safe(hashes, Settled(t, r), history + [Concluded(r.submissionID)]) && Evolves(t, Settled(t, r))
    ensures Exclusive(t, history) ==> Exclusive(Settled(t, r), history + [Concluded(r.submissionID)])
  {
    hide Durable, Recorded, Exclusive, Evolves;
    ConfirmKeepsDurable(hashes, t, r);
    ConfirmKeepsRecorded(hashes, t, history, r);
    ConfirmEvolves(hashes, t, r);
    SameContentsExclusive(t, Settled(t, r), history);
    HistoryGrowsExclusive(Settled(t, r), history, Concluded(r.submissionID));
  }

  lemma ConfirmEvolves(hashes: Hashes, t: Tables, r: ConfirmedReceipt)
    requires Durable(hashes, t) && Confirmable(t, r)
    ensures Evolves(t, Settled(t, r))
  {
    assert RowValid(hashes, t, r.submissionID);
    MoveEvolves(t, r.submissionID, Confirmed);
  }

  /** Only storing a row can break the order of the history. */
  lemma HistoryGrowsExclusive(t: Tables, history: seq<Action>, action: Action)
    requires !action.Stored?
    ensures Exclusive(t, history) ==> Exclusive(t, history + [action])
  {
    if Exclusive(t, history) {
      var history' := history + [action];
      forall i, j | 0 <= i < j < |history'| ensures !Reprepared(t, history'[i], history'[j]) {
        if j < |history| {
          assert !Reprepared(t, history[i], history[j]);
        }
      }
    }
  }

  /** Handing stored bytes to the network. */
  lemma SendKeeps(hashes: Hashes, t: Tables, history: seq<Action>, id: Word, raw: Bytes)
    requires Safe(hashes, t, history) && id in t.submissions && hashes.keccak(raw) == t.submissions[id].content.txHash
    ensures Safe(hashes, t, history + [Sent(id, raw)])
    ensures Exclusive(t, history) ==> Exclusive(t, history + [Sent(id, raw)])
  {
    hide ValidPrepared, Exclusive;
    var history' := history + [Sent(id, raw)];
    forall j: nat | j < |history'| ensures SentStored(hashes, t, history', j) {
      if j < |history| {
        assert SentStored(hashes, t, history, j);
        assert history'[..j] == history[..j];
      } else {
        assert history'[..j] == history;
        assert hashes.keccak(t.submissions[id].content.raw) == t.submissions[id].content.txHash by { StoredHash(hashes, t, id); }
      }
    }
    assert forall action :: action in history' <==> action in history || action == Sent(id, raw);
    HistoryGrowsExclusive(t, history, Sent(id, raw));
  }

  lemma StoredHash(hashes: Hashes, t: Tables, id: Word)
    requires Durable(hashes, t) && id in t.submissions
    ensures hashes.keccak(t.submissions[id].content.raw) == t.submissions[id].content.txHash && t.submissions[id].id == id
  {
    assert RowValid(hashes, t, id);
  }

  /** The indexer only adds rows. */
  function Indexed(t: Tables, receipts: set<IndexedReceipt>, resolutions: map<Word, Resolution>): Tables {
    t.(receipts := t.receipts + receipts, resolutions := resolutions + t.resolutions)
  }

  lemma IndexKeepsSafe(hashes: Hashes, t: Tables, history: seq<Action>, receipts: set<IndexedReceipt>, resolutions: map<Word, Resolution>)
    requires Safe(hashes, t, history)
    ensures Safe(hashes, Indexed(t, receipts, resolutions), history)
  {
    hide ValidPrepared;
    var t' := Indexed(t, receipts, resolutions);
    forall id | id in t'.submissions ensures RowValid(hashes, t', id) {
      assert RowValid(hashes, t, id);
    }
    forall j: nat | j < |history| ensures SentStored(hashes, t', history, j) {
      assert SentStored(hashes, t, history, j);
    }
  }

  lemma IndexKeeps(hashes: Hashes, t: Tables, history: seq<Action>, receipts: set<IndexedReceipt>, resolutions: map<Word, Resolution>)
    requires Safe(hashes, t, history)
    ensures var t' := Indexed(t, receipts, resolutions);
            Safe(hashes, t', history) && Evolves(t, t') && (Exclusive(t, history) ==> Exclusive(t', history))
  {
    hide Safe, Exclusive;
    IndexKeepsSafe(hashes, t, history, receipts, resolutions);
    SameContentsExclusive(t, Indexed(t, receipts, resolutions), history);
  }
}
